/** Properties of the controller's session handling that relate several calls. */
module SessionLemmas {
  import opened Wrappers
  import opened Session

  /** The environment of a load that reads back `d` and in which every add succeeds. */
  function CleanLoad(d: Document): (env: LoadEnv)
    ensures env.decoded == Some(d) && !env.selectThrows
    ensures AllAttached(env.rowOutcomes) && AllAttached(env.defaultOutcomes)
  {
    LoadEnv(Some(d), [], false, [])
  }

  /**
    Save then load is a round trip: loading the document `saveSession` wrote, into any
    session, restores the saved rows in order and the saved dark-mode flag, each row
    with its panel, and saving again writes the same document.
   */
  lemma SaveLoadRoundTrip(cfg: Config, saved: State, current: State)
    requires WellFormed(current)
    ensures var r := LoadSession(cfg, current, CleanLoad(SaveSession(saved)));
      && Params(r.rows) == Params(saved.rows)
      && r.darkMode == saved.darkMode
      && Consistent(r)
      && SaveSession(r) == SaveSession(saved)
  {
  }

  /**
    Closing saves the session; starting again with that file present and readable
    comes back to the same rows and flag.
   */
  lemma RestartRestoresSession(cfg: Config, saved: State, layout: State)
    requires WellFormed(layout)
    ensures var r := Initialize(cfg, layout, true, CleanLoad(SaveSession(saved)));
      Params(r.rows) == Params(saved.rows) && r.darkMode == saved.darkMode && Consistent(r)
  {
  }

  /**
    Without a session file the application starts with exactly `defaultLineCount`
    default rows, each with its panel below the header.
   */
  lemma StartWithoutSessionFile(cfg: Config, layout: State, env: LoadEnv)
    requires WellFormed(layout) && AllAttached(env.defaultOutcomes)
    ensures var r := Initialize(cfg, layout, false, env);
      && Params(r.rows) == Defaults(cfg.defaultLineCount)
      && r.children == [layout.children[0]] + Panels(Defaults(cfg.defaultLineCount))
      && Consistent(r)
  {
    var r := Initialize(cfg, layout, false, env);
    assert Params(r.rows) == Defaults(cfg.defaultLineCount);
  }

  /**
    A session file whose load throws (it does not decode, has no parameter list, or
    setting the menu flag from it throws) is recovered from: startup ends in the same
    state as when there is no session file at all.
   */
  lemma CorruptFileFallsBack(cfg: Config, layout: State, env: LoadEnv)
    requires WellFormed(layout) && !Loads(env)
    ensures Initialize(cfg, layout, true, env) == Initialize(cfg, layout, false, env)
  {
  }

  /** Any sequence of user actions keeps the header as the first child. */
  lemma {:induction false} RunKeepsHeader(cfg: Config, s: State, events: seq<Event>)
    requires WellFormed(s)
    ensures WellFormed(Run(cfg, s, events)) && Run(cfg, s, events).children[0] == s.children[0]
    decreases |events|
  {
    if |events| > 0 {
      RunKeepsHeader(cfg, Step(cfg, s, events[0]), events[1..]);
    }
  }

  /**
    As long as no panel is lost, every row keeps exactly one panel, in row order,
    after the header, whatever the user does.
   */
  lemma {:induction false} RunKeepsConsistent(cfg: Config, s: State, events: seq<Event>)
    requires WellFormed(s) && Consistent(s)
    requires forall i :: 0 <= i < |events| ==> KeepsPanels(events[i])
    ensures Consistent(Run(cfg, s, events))
    decreases |events|
  {
    if |events| > 0 {
      StepKeepsInvariants(cfg, s, events[0]);
      RunKeepsConsistent(cfg, Step(cfg, s, events[0]), events[1..]);
    }
  }

  /**
    Once the stylesheets agree with the dark-mode flag, they keep agreeing with it
    whatever the user does.
   */
  lemma {:induction false} RunKeepsStyleInSync(cfg: Config, s: State, events: seq<Event>)
    requires WellFormed(s) && StyleInSync(cfg, s)
    ensures StyleInSync(cfg, Run(cfg, s, events))
    decreases |events|
  {
    if |events| > 0 {
      StepKeepsInvariants(cfg, s, events[0]);
      RunKeepsStyleInSync(cfg, Step(cfg, s, events[0]), events[1..]);
    }
  }

  /** `k` clicks on the add button. */
  function AddClicks(k: nat): (events: seq<Event>)
    ensures |events| == k && forall i :: 0 <= i < k ==> events[i] == AddClick(Attached)
  {
    seq(k, _ => AddClick(Attached))
  }

  /**
    Each successful click on the add button appends one default row: after `k` clicks
    the rows are the earlier rows followed by `k` default rows, and the count of rows
    grows by exactly `k`.
   */
  lemma {:induction false} AddClicksAppendDefaults(cfg: Config, s: State, k: nat)
    requires WellFormed(s)
    ensures var r := Run(cfg, s, AddClicks(k));
      && Params(r.rows) == Params(s.rows) + Defaults(k)
      && r.children == s.children + Panels(Defaults(k))
    decreases k
  {
    if k > 0 {
      var t := Step(cfg, s, AddClick(Attached));
      assert AddClicks(k)[1..] == AddClicks(k - 1);
      AddClicksAppendDefaults(cfg, t, k - 1);
      assert Params(t.rows) == Params(s.rows) + [None];
      assert Defaults(k) == [None] + Defaults(k - 1);
      assert Panels(Defaults(k)) == [LinePanel(None)] + Panels(Defaults(k - 1));
    }
  }
}
