/**
  The dark-mode stylesheet toggle of `ForwardingPaneController.updateStyleSheets`.

  A scene's stylesheet list is a sequence of stylesheet URLs. The toggle adds the
  dark-mode stylesheet (at the end, where it takes precedence) when dark mode is
  selected and the stylesheet is missing, and removes its FIRST occurrence when dark
  mode is not selected and the stylesheet is present (`List.remove(Object)`).
 */
module Stylesheets {

  /** Number of occurrences of `x` in `xs`. */
  function Occurrences<T(==)>(xs: seq<T>, x: T): nat {
    multiset(xs)[x]
  }

  /** Reference definition: `xs` with every occurrence of `x` dropped, order kept. */
  function Without<T(==)>(xs: seq<T>, x: T): (r: seq<T>)
    ensures x !in r
  {
    if |xs| == 0 then []
    else if xs[0] == x then Without(xs[1..], x)
    else [xs[0]] + Without(xs[1..], x)
  }

  /** Position of the first occurrence of `x` in `xs`. */
  function IndexOf<T(==)>(xs: seq<T>, x: T): (k: nat)
    requires x in xs
    ensures k < |xs| && xs[k] == x && x !in xs[..k]
  {
    if xs[0] == x then 0
    else
      var k := IndexOf(xs[1..], x) + 1;
      assert xs[..k] == [xs[0]] + xs[1..][..k - 1];
      k
  }

  /** `List.remove(Object)`: drops the first occurrence of `x`, if any. */
  function RemoveFirst<T(==)>(xs: seq<T>, x: T): (r: seq<T>)
    ensures x !in xs ==> r == xs
    ensures x in xs ==> r == xs[..IndexOf(xs, x)] + xs[IndexOf(xs, x) + 1..]
    ensures x in xs ==> multiset(r) == multiset(xs) - multiset{x}
    ensures Without(r, x) == Without(xs, x)
  {
    if x in xs then
      var k := IndexOf(xs, x);
      RemoveAtMultiset(xs, k);
      RemoveAtWithout(xs, k);
      xs[..k] + xs[k + 1..]
    else
      xs
  }

  /** Taking out the element at `k` takes one copy of it out of the multiset. */
  lemma RemoveAtMultiset<T>(xs: seq<T>, k: nat)
    requires k < |xs|
    ensures multiset(xs[..k] + xs[k + 1..]) == multiset(xs) - multiset{xs[k]}
  {
    SplitAt(xs, k);
  }

  /** Taking out an occurrence of `x` leaves the other entries in their order. */
  lemma RemoveAtWithout<T>(xs: seq<T>, k: nat)
    requires k < |xs|
    ensures Without(xs[..k] + xs[k + 1..], xs[k]) == Without(xs, xs[k])
  {
    SplitAt(xs, k);
    WithoutSkip(xs[..k], xs[k], xs[k + 1..]);
  }

  /** A list is what comes before position `k`, the entry there, and what comes after. */
  lemma SplitAt<T>(xs: seq<T>, k: nat)
    requires k < |xs|
    ensures xs == xs[..k] + [xs[k]] + xs[k + 1..]
  {
  }

  /** An occurrence of `x` between two lists makes no difference once `x` is dropped. */
  lemma WithoutSkip<T>(before: seq<T>, x: T, after: seq<T>)
    ensures Without(before + [x] + after, x) == Without(before + after, x)
  {
    calc {
      Without(before + [x] + after, x);
      { assert before + [x] + after == before + ([x] + after);
        WithoutConcat(before, [x] + after, x); }
      Without(before, x) + Without([x] + after, x);
      { WithoutCons(x, after, x); }
      Without(before, x) + Without(after, x);
      { WithoutConcat(before, after, x); }
      Without(before + after, x);
    }
  }

  /** Dropping `x` from a list with a known head. */
  lemma WithoutCons<T>(y: T, rest: seq<T>, x: T)
    ensures Without([y] + rest, x) == if y == x then Without(rest, x) else [y] + Without(rest, x)
  {
    assert ([y] + rest)[1..] == rest;
  }

  /**
    The toggle itself, for the dark-mode flag `dark` and the dark-mode stylesheet `css`.
   */
  function UpdateStyleSheets<T(==)>(dark: bool, css: T, sheets: seq<T>): (r: seq<T>)
    // Afterwards the stylesheet is present exactly when dark mode is selected.
    ensures Occurrences(sheets, css) <= 1 ==> (css in r <==> dark)
    // Every other stylesheet keeps its place relative to the others.
    ensures Without(r, css) == Without(sheets, css)
    // A list already in the requested state is left alone.
    ensures (css in sheets <==> dark) ==> r == sheets
    // Adding puts the stylesheet last, after everything that was there.
    ensures dark && css !in sheets ==> |r| == |sheets| + 1 && r[..|sheets|] == sheets && r[|sheets|] == css
    // Removing takes away the first occurrence and only that one, even of a duplicated entry.
    ensures !dark && css in sheets ==>
      r == sheets[..IndexOf(sheets, css)] + sheets[IndexOf(sheets, css) + 1..]
    ensures !dark && css in sheets ==> Occurrences(r, css) == Occurrences(sheets, css) - 1
    // At most one occurrence stays at most one.
    ensures Occurrences(sheets, css) <= 1 ==> Occurrences(r, css) <= 1
  {
    if dark && css !in sheets then
      AddDark(sheets, css);
      sheets + [css]
    else if !dark && css in sheets then
      RemoveDark(sheets, css);
      RemoveFirst(sheets, css)
    else
      sheets
  }

  /** What appending a missing stylesheet does to the list. */
  lemma AddDark<T>(sheets: seq<T>, css: T)
    requires css !in sheets
    ensures var r := sheets + [css];
      && Occurrences(sheets, css) == 0 && Occurrences(r, css) == 1 && css in r
      && r[..|sheets|] == sheets && Without(r, css) == Without(sheets, css)
  {
    var r := sheets + [css];
    assert r[..|sheets|] == sheets;
    assert multiset(r) == multiset(sheets) + multiset{css};
    WithoutConcat(sheets, [css], css);
    assert Without([css], css) == [];
  }

  /** What removing a present stylesheet does to the list. */
  lemma RemoveDark<T>(sheets: seq<T>, css: T)
    requires css in sheets
    ensures var r := RemoveFirst(sheets, css);
      && Occurrences(r, css) == Occurrences(sheets, css) - 1
      && (Occurrences(sheets, css) <= 1 ==> css !in r)
  {
    var r := RemoveFirst(sheets, css);
    assert Occurrences(r, css) == 0 ==> css !in multiset(r);
  }

  /** Dropping `x` distributes over concatenation. */
  lemma {:induction false} WithoutConcat<T>(xs: seq<T>, ys: seq<T>, x: T)
    ensures Without(xs + ys, x) == Without(xs, x) + Without(ys, x)
    decreases |xs|
  {
    if |xs| == 0 {
      assert xs + ys == ys;
    } else {
      assert (xs + ys)[0] == xs[0];
      assert (xs + ys)[1..] == xs[1..] + ys;
      WithoutConcat(xs[1..], ys, x);
    }
  }

  /** With at most one occurrence beforehand, toggling twice is toggling once. */
  lemma UpdateIdempotent<T>(dark: bool, css: T, sheets: seq<T>)
    requires Occurrences(sheets, css) <= 1
    ensures UpdateStyleSheets(dark, css, UpdateStyleSheets(dark, css, sheets))
         == UpdateStyleSheets(dark, css, sheets)
  {
  }

  /**
    A duplicated entry is not fully removed: after switching dark mode off once, the
    stylesheet is still there, and a second toggle removes another copy.
   */
  lemma DuplicateSurvivesRemoval<T>(css: T, sheets: seq<T>)
    requires Occurrences(sheets, css) >= 2
    ensures var once := UpdateStyleSheets(false, css, sheets);
            css in once && UpdateStyleSheets(false, css, once) != once
  {
  }
}
