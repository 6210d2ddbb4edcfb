/**
  The session state of `ForwardingPaneController`, stripped of the JavaFX toolkit.

  The controller keeps an ordered list of rule rows (one `ForwardingLineController`
  per forwarding rule, each holding one `ForwardingParameters` value or `null`), the
  children of the line container (index 0 is the fixed header row of the FXML layout;
  every later child is the panel of one rule row), the dark-mode menu flag and the
  stylesheet lists of the main pane and of the about dialog.

  Every transition is a pure function. The outcomes of the calls the controller makes
  into code outside this model (loading a row's FXML, decoding the session file,
  toolkit calls) are passed in as parameters.
 */
module Session {
  import opened Wrappers
  import Stylesheets

  /** The parameters of one forwarding rule; its fields are not part of this model. */
  type ForwardingParameters(==)

  /** The values of `AppConfig.DEFAULT_LINE_COUNT` and `WindowApplicationResources.DARK_MODE_CSS_FILE`. */
  datatype Config = Config(defaultLineCount: nat, darkModeCss: string)

  /** One rule row; `None` is a row created without parameters (a default, empty row). */
  datatype Row = Row(parameters: Option<ForwardingParameters>)

  /** A child of the line container: the fixed header, or the panel showing one row. */
  datatype Node = Header | LinePanel(parameters: Option<ForwardingParameters>)

  /** `ApplicationConfigData`: the persisted rule list (possibly absent) and the dark-mode flag. */
  datatype Document = Document(parameters: Option<seq<Option<ForwardingParameters>>>, darkMode: bool)

  /** What happens to one `addLinePanel` call. */
  datatype AddOutcome =
    | Attached      // the row and its panel are both appended
    | LoadFailed    // loading the row's FXML or setting it up throws before the row is appended
    | AttachFailed  // the row is appended, then appending its panel to the container throws

  /**
    The outcomes of the external calls made by one `loadSession`:
    `decoded` is the session document read and decoded from the session file, `None` when
    decoding throws or yields no document; `rowOutcomes` are the outcomes of the
    `addLinePanel` calls for the loaded rows; `selectThrows` says that setting the
    dark-mode menu from the document throws; `defaultOutcomes` are the outcomes of the
    `addLinePanel` calls of a default session.
   */
  datatype LoadEnv = LoadEnv(
    decoded: Option<Document>,
    rowOutcomes: seq<AddOutcome>,
    selectThrows: bool,
    defaultOutcomes: seq<AddOutcome>)

  datatype State = State(
    rows: seq<Row>,
    children: seq<Node>,
    darkMode: bool,
    rootSheets: seq<string>,
    dialogSheets: seq<string>)

  /** The container still holds its header child. */
  predicate WellFormed(s: State) {
    |s.children| >= 1
  }

  /** Every row has exactly one panel, in row order, right after the header. */
  predicate Consistent(s: State) {
    && |s.children| == |s.rows| + 1
    && forall i :: 0 <= i < |s.rows| ==> s.children[i + 1] == LinePanel(s.rows[i].parameters)
  }

  /** The dark-mode stylesheet appears at most once in each stylesheet list. */
  predicate AtMostOnce(cfg: Config, s: State) {
    && Stylesheets.Occurrences(s.rootSheets, cfg.darkModeCss) <= 1
    && Stylesheets.Occurrences(s.dialogSheets, cfg.darkModeCss) <= 1
  }

  /** The dark-mode stylesheet appears at most once in both lists and exactly when dark mode is on. */
  predicate StyleInSync(cfg: Config, s: State) {
    && AtMostOnce(cfg, s)
    && (cfg.darkModeCss in s.rootSheets <==> s.darkMode)
    && (cfg.darkModeCss in s.dialogSheets <==> s.darkMode)
  }

  /** Apart from the dark-mode stylesheet, both stylesheet lists of `r` are those of `s`, in order. */
  predicate KeepsOtherSheets(cfg: Config, s: State, r: State) {
    && Stylesheets.Without(r.rootSheets, cfg.darkModeCss) == Stylesheets.Without(s.rootSheets, cfg.darkModeCss)
    && Stylesheets.Without(r.dialogSheets, cfg.darkModeCss) == Stylesheets.Without(s.dialogSheets, cfg.darkModeCss)
  }

  /** The parameters held by `rows`, in row order. */
  function Params(rows: seq<Row>): (ps: seq<Option<ForwardingParameters>>)
    ensures |ps| == |rows|
  {
    seq(|rows|, i requires 0 <= i < |rows| => rows[i].parameters)
  }

  /** The panels showing `ps`, in order. */
  function Panels(ps: seq<Option<ForwardingParameters>>): (ns: seq<Node>)
    ensures |ns| == |ps|
  {
    seq(|ps|, i requires 0 <= i < |ps| => LinePanel(ps[i]))
  }

  /** `n` rows' worth of default (`null`) parameters. */
  function Defaults(n: nat): (ps: seq<Option<ForwardingParameters>>)
    ensures |ps| == n
  {
    seq(n, _ => None)
  }

  /** No outcome in `outs` is a failure; an exhausted list means every later call succeeds. */
  predicate AllAttached(outs: seq<AddOutcome>) {
    forall i :: 0 <= i < |outs| ==> outs[i] == Attached
  }

  /** No outcome in `outs` leaves a row without its panel. */
  predicate NoAttachFailure(outs: seq<AddOutcome>) {
    forall i :: 0 <= i < |outs| ==> outs[i] != AttachFailed
  }

  /** The outcome of the next add. */
  function NextOutcome(outs: seq<AddOutcome>): AddOutcome {
    if |outs| == 0 then Attached else outs[0]
  }

  /** The outcomes of the adds after the next one. */
  function LaterOutcomes(outs: seq<AddOutcome>): seq<AddOutcome> {
    if |outs| == 0 then [] else outs[1..]
  }

  /**
    Reference definition: the elements of `ps` whose add gets past the row append,
    in order (`outs` gives the outcomes of the adds in order).
   */
  function Kept(ps: seq<Option<ForwardingParameters>>, outs: seq<AddOutcome>): (ks: seq<Option<ForwardingParameters>>)
    ensures |ks| <= |ps|
    decreases |ps|
  {
    if |ps| == 0 then []
    else if NextOutcome(outs) == LoadFailed then Kept(ps[1..], LaterOutcomes(outs))
    else [ps[0]] + Kept(ps[1..], LaterOutcomes(outs))
  }

  /** Reference definition: the elements of `ps` whose add also attaches a panel, in order. */
  function Shown(ps: seq<Option<ForwardingParameters>>, outs: seq<AddOutcome>): (ks: seq<Option<ForwardingParameters>>)
    ensures |ks| <= |ps|
    decreases |ps|
  {
    if |ps| == 0 then []
    else if NextOutcome(outs) == Attached then [ps[0]] + Shown(ps[1..], LaterOutcomes(outs))
    else Shown(ps[1..], LaterOutcomes(outs))
  }

  /** When every add succeeds, every element is kept and shown. */
  lemma {:induction false} KeptAllAttached(ps: seq<Option<ForwardingParameters>>, outs: seq<AddOutcome>)
    requires AllAttached(outs)
    ensures Kept(ps, outs) == ps && Shown(ps, outs) == ps
    decreases |ps|
  {
    if |ps| > 0 {
      assert AllAttached(LaterOutcomes(outs));
      KeptAllAttached(ps[1..], LaterOutcomes(outs));
      assert ps == [ps[0]] + ps[1..];
    }
  }

  /** Every kept element is one of `ps`. */
  lemma {:induction false} KeptFromPs(ps: seq<Option<ForwardingParameters>>, outs: seq<AddOutcome>)
    ensures forall i :: 0 <= i < |Kept(ps, outs)| ==> Kept(ps, outs)[i] in ps
    decreases |ps|
  {
    if |ps| > 0 {
      KeptFromPs(ps[1..], LaterOutcomes(outs));
      var rest := Kept(ps[1..], LaterOutcomes(outs));
      forall i | 0 <= i < |rest| ensures rest[i] in ps {
        assert rest[i] in ps[1..];
      }
    }
  }

  /** `Params` distributes over concatenation. */
  lemma ParamsAppend(a: seq<Row>, b: seq<Row>)
    ensures Params(a + b) == Params(a) + Params(b)
  {
  }

  /** `Panels` distributes over concatenation. */
  lemma PanelsAppend(a: seq<Option<ForwardingParameters>>, b: seq<Option<ForwardingParameters>>)
    ensures Panels(a + b) == Panels(a) + Panels(b)
  {
  }

  /** `deleteRows`: clears the rows and removes every child after the header. */
  function DeleteRows(s: State): (r: State)
    requires WellFormed(s)
    ensures WellFormed(r) && Consistent(r)
    ensures r.rows == [] && r.children == s.children[..1]
    ensures r.darkMode == s.darkMode && r.rootSheets == s.rootSheets && r.dialogSheets == s.dialogSheets
  {
    s.(rows := [], children := s.children[..1])
  }

  /** `addLinePanel(parameters)`, with the outcome of its FXML load and container append. */
  function AddLinePanel(s: State, p: Option<ForwardingParameters>, outcome: AddOutcome): (r: State)
    ensures outcome == LoadFailed ==> r == s
    ensures outcome != LoadFailed ==> r.rows == s.rows + [Row(p)]
    ensures outcome == Attached ==> r.children == s.children + [LinePanel(p)]
    ensures outcome != Attached ==> r.children == s.children
    ensures r.darkMode == s.darkMode && r.rootSheets == s.rootSheets && r.dialogSheets == s.dialogSheets
    // Rows and panels stay in step exactly when the panel is not lost.
    ensures Consistent(s) ==> (Consistent(r) <==> outcome != AttachFailed)
  {
    match outcome
    case LoadFailed => s
    case AttachFailed => s.(rows := s.rows + [Row(p)])
    case Attached => s.(rows := s.rows + [Row(p)], children := s.children + [LinePanel(p)])
  }

  /**
    `addLinePanel` applied to each of `ps` in order: the loop of `newSession` and the
    `forEach` of `loadSession`. `outs` lists the outcomes of the calls in order.
   */
  function AddLinePanels(s: State, ps: seq<Option<ForwardingParameters>>, outs: seq<AddOutcome>): (r: State)
    ensures r.darkMode == s.darkMode && r.rootSheets == s.rootSheets && r.dialogSheets == s.dialogSheets
    // Earlier rows and children are untouched; at most one row per element of `ps` is added.
    ensures |s.rows| <= |r.rows| <= |s.rows| + |ps| && r.rows[..|s.rows|] == s.rows
    ensures |s.children| <= |r.children| && r.children[..|s.children|] == s.children
    // Every added row holds one of the given parameter values.
    ensures forall i :: |s.rows| <= i < |r.rows| ==> r.rows[i].parameters in ps
    // The added rows are exactly the kept values, in order; the added panels show exactly the attached ones.
    ensures Params(r.rows) == Params(s.rows) + Kept(ps, outs)
    ensures r.children == s.children + Panels(Shown(ps, outs))
    // When every call succeeds, the rows hold exactly `ps`, in order, each with its panel.
    ensures AllAttached(outs) ==> Params(r.rows) == Params(s.rows) + ps && r.children == s.children + Panels(ps)
    ensures Consistent(s) && NoAttachFailure(outs) ==> Consistent(r)
    decreases |ps|
  {
    if |ps| == 0 then s
    else
      var t := AddLinePanel(s, ps[0], NextOutcome(outs));
      var r := AddLinePanels(t, ps[1..], LaterOutcomes(outs));
      KeptRowsStep(s.rows, t.rows, r.rows, ps, outs);
      ShownStep(s.children, t.children, r.children, ps, outs);
      AddedFacts(s, r, ps, outs);
      r
  }

  /** What follows about the rows and children once the added ones are known to be `Kept` and `Shown`. */
  lemma AddedFacts(s: State, r: State, ps: seq<Option<ForwardingParameters>>, outs: seq<AddOutcome>)
    requires Params(r.rows) == Params(s.rows) + Kept(ps, outs)
    requires r.children == s.children + Panels(Shown(ps, outs))
    ensures |s.rows| <= |r.rows| <= |s.rows| + |ps| && r.rows[..|s.rows|] == s.rows
    ensures |s.children| <= |r.children| && r.children[..|s.children|] == s.children
    ensures forall i :: |s.rows| <= i < |r.rows| ==> r.rows[i].parameters in ps
    ensures AllAttached(outs) ==> Params(r.rows) == Params(s.rows) + ps && r.children == s.children + Panels(ps)
    ensures Consistent(s) && NoAttachFailure(outs) ==> Consistent(r)
  {
    var ks := Kept(ps, outs);
    RowsExtend(s.rows, r.rows, ks);
    KeptFromPs(ps, outs);
    assert r.children[..|s.children|] == s.children;
    if AllAttached(outs) {
      KeptAllAttached(ps, outs);
    }
    if Consistent(s) && NoAttachFailure(outs) {
      KeptIsShown(ps, outs);
      ConsistentExtend(s, r, ks);
    }
  }

  /** Rows whose parameters extend those of `sRows` by `ks` extend `sRows` by rows holding `ks`. */
  lemma RowsExtend(sRows: seq<Row>, rRows: seq<Row>, ks: seq<Option<ForwardingParameters>>)
    requires Params(rRows) == Params(sRows) + ks
    ensures |rRows| == |sRows| + |ks| && rRows[..|sRows|] == sRows
    ensures forall i :: |sRows| <= i < |rRows| ==> rRows[i].parameters == ks[i - |sRows|]
  {
    forall i | 0 <= i < |sRows|
      ensures rRows[i] == sRows[i]
    {
      assert rRows[i].parameters == Params(rRows)[i] == Params(sRows)[i];
    }
    forall i | |sRows| <= i < |rRows|
      ensures rRows[i].parameters == ks[i - |sRows|]
    {
      assert rRows[i].parameters == Params(rRows)[i];
    }
  }

  /** Rows and panels added in step keep a consistent state consistent. */
  lemma ConsistentExtend(s: State, r: State, ks: seq<Option<ForwardingParameters>>)
    requires Consistent(s)
    requires Params(r.rows) == Params(s.rows) + ks
    requires r.children == s.children + Panels(ks)
    ensures Consistent(r)
  {
    RowsExtend(s.rows, r.rows, ks);
  }

  /** Without a lost panel, every kept element is also shown. */
  lemma {:induction false} KeptIsShown(ps: seq<Option<ForwardingParameters>>, outs: seq<AddOutcome>)
    requires NoAttachFailure(outs)
    ensures Kept(ps, outs) == Shown(ps, outs)
    decreases |ps|
  {
    if |ps| > 0 {
      assert NextOutcome(outs) != AttachFailed;
      assert NoAttachFailure(LaterOutcomes(outs));
      KeptIsShown(ps[1..], LaterOutcomes(outs));
    }
  }

  /** One add followed by adds of the rest keeps the rows `Kept` says. */
  lemma KeptRowsStep(sRows: seq<Row>, tRows: seq<Row>, rRows: seq<Row>, ps: seq<Option<ForwardingParameters>>, outs: seq<AddOutcome>)
    requires |ps| > 0
    requires NextOutcome(outs) == LoadFailed ==> tRows == sRows
    requires NextOutcome(outs) != LoadFailed ==> tRows == sRows + [Row(ps[0])]
    requires Params(rRows) == Params(tRows) + Kept(ps[1..], LaterOutcomes(outs))
    ensures Params(rRows) == Params(sRows) + Kept(ps, outs)
  {
    if NextOutcome(outs) != LoadFailed {
      ParamsSnoc(sRows, ps[0]);
      assert Kept(ps, outs) == [ps[0]] + Kept(ps[1..], LaterOutcomes(outs));
    }
  }

  /** Appending one row appends its parameters. */
  lemma ParamsSnoc(rows: seq<Row>, p: Option<ForwardingParameters>)
    ensures Params(rows + [Row(p)]) == Params(rows) + [p]
  {
    ParamsAppend(rows, [Row(p)]);
    assert Params([Row(p)]) == [p];
  }

  /** One add followed by adds of the rest shows the panels `Shown` says. */
  lemma ShownStep(sChildren: seq<Node>, tChildren: seq<Node>, rChildren: seq<Node>, ps: seq<Option<ForwardingParameters>>, outs: seq<AddOutcome>)
    requires |ps| > 0
    requires NextOutcome(outs) != Attached ==> tChildren == sChildren
    requires NextOutcome(outs) == Attached ==> tChildren == sChildren + [LinePanel(ps[0])]
    requires rChildren == tChildren + Panels(Shown(ps[1..], LaterOutcomes(outs)))
    ensures rChildren == sChildren + Panels(Shown(ps, outs))
  {
    if NextOutcome(outs) == Attached {
      var rest := Panels(Shown(ps[1..], LaterOutcomes(outs)));
      ShownCons(ps, outs);
      assert rChildren == sChildren + ([LinePanel(ps[0])] + rest);
    }
  }

  /** A first element whose panel attaches is shown first. */
  lemma ShownCons(ps: seq<Option<ForwardingParameters>>, outs: seq<AddOutcome>)
    requires |ps| > 0 && NextOutcome(outs) == Attached
    ensures Panels(Shown(ps, outs)) == [LinePanel(ps[0])] + Panels(Shown(ps[1..], LaterOutcomes(outs)))
  {
    PanelsAppend([ps[0]], Shown(ps[1..], LaterOutcomes(outs)));
    assert Panels([ps[0]]) == [LinePanel(ps[0])];
  }

  /**
    `newSession`: clears the session, then adds `defaultLineCount` default rows.
    `outs` lists the outcomes of those adds.
   */
  function NewSession(cfg: Config, s: State, outs: seq<AddOutcome>): (r: State)
    requires WellFormed(s)
    ensures WellFormed(r) && r.children[0] == s.children[0]
    ensures r.darkMode == s.darkMode && r.rootSheets == s.rootSheets && r.dialogSheets == s.dialogSheets
    // No earlier row survives: every row is a default row, and there are at most the configured number.
    ensures |r.rows| <= cfg.defaultLineCount
    ensures forall i :: 0 <= i < |r.rows| ==> r.rows[i].parameters == None
    // The rows are the default values whose add gets past the row append; the panels are those whose append succeeds.
    ensures Params(r.rows) == Kept(Defaults(cfg.defaultLineCount), outs)
    ensures r.children == [s.children[0]] + Panels(Shown(Defaults(cfg.defaultLineCount), outs))
    ensures AllAttached(outs) ==>
      && |r.rows| == cfg.defaultLineCount
      && r.children == [s.children[0]] + Panels(Defaults(cfg.defaultLineCount))
    ensures NoAttachFailure(outs) ==> Consistent(r)
  {
    var cleared := DeleteRows(s);
    assert cleared.children == [s.children[0]] && Params(cleared.rows) == [];
    var r := AddLinePanels(cleared, Defaults(cfg.defaultLineCount), outs);
    assert r.children[0] == r.children[..|cleared.children|][0];
    DefaultRows(r.rows, cfg.defaultLineCount);
    r
  }

  /** Rows holding only default values hold `None`. */
  lemma DefaultRows(rows: seq<Row>, n: nat)
    requires forall i :: 0 <= i < |rows| ==> rows[i].parameters in Defaults(n)
    ensures forall i :: 0 <= i < |rows| ==> rows[i].parameters == None
  {
  }

  /**
    A new session depends on the state it replaces only through the header, the flag
    and the stylesheets: no row and no panel of it survives.
   */
  lemma NewSessionKeepsOnlyHeader(cfg: Config, s: State, t: State, outs: seq<AddOutcome>)
    requires WellFormed(s) && WellFormed(t)
    requires s.children[0] == t.children[0]
    requires s.darkMode == t.darkMode && s.rootSheets == t.rootSheets && s.dialogSheets == t.dialogSheets
    ensures NewSession(cfg, s, outs) == NewSession(cfg, t, outs)
  {
    assert DeleteRows(s) == DeleteRows(t);
  }

  /** The load gets through its whole `try` block: a document with a parameter list, and no throw. */
  predicate Loads(env: LoadEnv) {
    env.decoded.Some? && env.decoded.value.parameters.Some? && !env.selectThrows
  }

  /** `updateDarkMode`: applies the current flag to the main pane's and the about dialog's stylesheets. */
  function UpdateDarkMode(cfg: Config, s: State): (r: State)
    ensures r.rows == s.rows && r.children == s.children && r.darkMode == s.darkMode
    ensures AtMostOnce(cfg, s) ==> StyleInSync(cfg, r)
    ensures KeepsOtherSheets(cfg, s, r)
    ensures StyleInSync(cfg, s) ==> r == s
  {
    s.(rootSheets := Stylesheets.UpdateStyleSheets(s.darkMode, cfg.darkModeCss, s.rootSheets),
       dialogSheets := Stylesheets.UpdateStyleSheets(s.darkMode, cfg.darkModeCss, s.dialogSheets))
  }

  /** Lines 151-152 of `loadSession`: sets the menu flag from the document and restyles. */
  function TakeOverDarkMode(cfg: Config, s: State, dark: bool): (r: State)
    ensures r.rows == s.rows && r.children == s.children && r.darkMode == dark
    ensures AtMostOnce(cfg, s) ==> StyleInSync(cfg, r)
    ensures KeepsOtherSheets(cfg, s, r)
  {
    UpdateDarkMode(cfg, s.(darkMode := dark))
  }

  /**
    The `try` block of `loadSession` when the document and its parameter list are
    there and nothing throws: clear, add a row per parameter value, take over the flag.
   */
  function LoadDocument(cfg: Config, s: State, ps: seq<Option<ForwardingParameters>>, dark: bool, outs: seq<AddOutcome>): (r: State)
    requires WellFormed(s)
    ensures WellFormed(r) && r.children[0] == s.children[0]
    ensures r.darkMode == dark && |r.rows| <= |ps|
    ensures forall i :: 0 <= i < |r.rows| ==> r.rows[i].parameters in ps
    // The rows are the kept values in order, each shown value has a panel, in order, after the header.
    ensures Params(r.rows) == Kept(ps, outs)
    ensures r.children == [s.children[0]] + Panels(Shown(ps, outs))
    ensures AllAttached(outs) ==> Params(r.rows) == ps && Consistent(r)
    ensures NoAttachFailure(outs) ==> Consistent(r)
    ensures AtMostOnce(cfg, s) ==> StyleInSync(cfg, r)
    ensures KeepsOtherSheets(cfg, s, r)
  {
    var cleared := DeleteRows(s);
    assert cleared.children == [s.children[0]] && Params(cleared.rows) == [];
    var filled := AddLinePanels(cleared, ps, outs);
    assert filled.children[0] == filled.children[..|cleared.children|][0];
    TakeOverDarkMode(cfg, filled, dark)
  }

  /**
    The `try` block of `loadSession` when setting the menu flag throws: the rows of `ps`
    have already been added by then, and the fallback `newSession` discards them again.
   */
  function AbortedLoad(cfg: Config, s: State, ps: seq<Option<ForwardingParameters>>, outs: seq<AddOutcome>, defaults: seq<AddOutcome>): (r: State)
    requires WellFormed(s)
    ensures r == NewSession(cfg, s, defaults)
  {
    var cleared := DeleteRows(s);
    var filled := AddLinePanels(cleared, ps, outs);
    assert filled.children[0] == filled.children[..|cleared.children|][0];
    NewSessionKeepsOnlyHeader(cfg, filled, s, defaults);
    NewSession(cfg, filled, defaults)
  }

  /**
    `loadSession`: clears the session, then adds one row per decoded parameter value and
    takes over the document's dark-mode flag. Whatever throws inside the `try` block
    (a decoding failure, an absent parameter list, setting the menu flag) falls back to
    `newSession`.
   */
  function LoadSession(cfg: Config, s: State, env: LoadEnv): (r: State)
    requires WellFormed(s)
    ensures WellFormed(r) && r.children[0] == s.children[0]
    ensures Loads(env) ==>
      var ps := env.decoded.value.parameters.value;
      && r.darkMode == env.decoded.value.darkMode
      && |r.rows| <= |ps|
      && (forall i :: 0 <= i < |r.rows| ==> r.rows[i].parameters in ps)
      && Params(r.rows) == Kept(ps, env.rowOutcomes)
      && r.children == [s.children[0]] + Panels(Shown(ps, env.rowOutcomes))
      && (AllAttached(env.rowOutcomes) ==> Params(r.rows) == ps && Consistent(r))
    ensures NoAttachFailure(env.rowOutcomes) && NoAttachFailure(env.defaultOutcomes) ==> Consistent(r)
    ensures StyleInSync(cfg, s) ==> StyleInSync(cfg, r)
    ensures Loads(env) && AtMostOnce(cfg, s) ==> StyleInSync(cfg, r)
    ensures KeepsOtherSheets(cfg, s, r)
    // All or nothing: a load that throws leaves exactly a fresh default session.
    ensures !Loads(env) ==> r == NewSession(cfg, s, env.defaultOutcomes)
  {
    if env.decoded.None? || env.decoded.value.parameters.None? then
      var cleared := DeleteRows(s);
      NewSessionKeepsOnlyHeader(cfg, cleared, s, env.defaultOutcomes);
      NewSession(cfg, cleared, env.defaultOutcomes)
    else if env.selectThrows then
      AbortedLoad(cfg, s, env.decoded.value.parameters.value, env.rowOutcomes, env.defaultOutcomes)
    else
      LoadDocument(cfg, s, env.decoded.value.parameters.value, env.decoded.value.darkMode, env.rowOutcomes)
  }

  /** `saveSession`: the document written to the session file. The state is not changed. */
  function SaveSession(s: State): (d: Document)
    ensures d.parameters.Some? && |d.parameters.value| == |s.rows|
    ensures forall i :: 0 <= i < |s.rows| ==> d.parameters.value[i] == s.rows[i].parameters
    ensures d.darkMode == s.darkMode
  {
    Document(Some(Params(s.rows)), s.darkMode)
  }

  /**
    `initialize`: starting from the layout loaded from FXML (header child, menu flag,
    stylesheets), applies the dark-mode flag, starts with no rows and then loads the
    session file if `sessionFileExists`, or starts a new session otherwise.
   */
  function Initialize(cfg: Config, layout: State, sessionFileExists: bool, env: LoadEnv): (r: State)
    requires WellFormed(layout)
    ensures WellFormed(r) && r.children[0] == layout.children[0]
    // Every row came from the decoded document or is a default row.
    ensures forall i :: 0 <= i < |r.rows| ==>
      || r.rows[i].parameters == None
      || (sessionFileExists && Loads(env) && r.rows[i].parameters in env.decoded.value.parameters.value)
    ensures !sessionFileExists || !Loads(env) ==>
      |r.rows| <= cfg.defaultLineCount && r.darkMode == layout.darkMode
    // A session file that loads gives its flag and its kept values, in order.
    ensures sessionFileExists && Loads(env) ==>
      && r.darkMode == env.decoded.value.darkMode
      && Params(r.rows) == Kept(env.decoded.value.parameters.value, env.rowOutcomes)
    // Without a session file that loads, the rows are the kept default values.
    ensures !sessionFileExists || !Loads(env) ==>
      Params(r.rows) == Kept(Defaults(cfg.defaultLineCount), env.defaultOutcomes)
    // The container holds the header and then exactly the shown panels: no panel of the layout survives.
    ensures sessionFileExists && Loads(env) ==>
      r.children == [layout.children[0]] + Panels(Shown(env.decoded.value.parameters.value, env.rowOutcomes))
    ensures !sessionFileExists || !Loads(env) ==>
      r.children == [layout.children[0]] + Panels(Shown(Defaults(cfg.defaultLineCount), env.defaultOutcomes))
    ensures NoAttachFailure(env.rowOutcomes) && NoAttachFailure(env.defaultOutcomes) ==> Consistent(r)
    ensures AtMostOnce(cfg, layout) ==> StyleInSync(cfg, r)
    ensures KeepsOtherSheets(cfg, layout, r)
  {
    var styled := UpdateDarkMode(cfg, layout);
    var s := styled.(rows := []);
    if sessionFileExists then LoadSession(cfg, s, env)
    else NewSession(cfg, s, env.defaultOutcomes)
  }

  /** `onDarkModeClick` after the menu item has flipped its flag. */
  function ToggleDarkMode(cfg: Config, s: State): (r: State)
    ensures r.darkMode == !s.darkMode && r.rows == s.rows && r.children == s.children
    ensures AtMostOnce(cfg, s) ==> StyleInSync(cfg, r)
    ensures KeepsOtherSheets(cfg, s, r)
  {
    UpdateDarkMode(cfg, s.(darkMode := !s.darkMode))
  }

  /** A transition that leaves flag and stylesheets alone keeps them in agreement. */
  lemma SameStyle(cfg: Config, s: State, r: State)
    requires r.darkMode == s.darkMode && r.rootSheets == s.rootSheets && r.dialogSheets == s.dialogSheets
    ensures StyleInSync(cfg, s) ==> StyleInSync(cfg, r)
  {
  }

  /** The user actions the controller handles after start-up. */
  datatype Event =
    | AddClick(outcome: AddOutcome)        // `onAddButtonClick`
    | ClearClick(outs: seq<AddOutcome>)    // `onClearClick`
    | LoadClick(env: LoadEnv)              // `onLoadClick`
    | SaveClick                            // `onSaveClick`
    | DarkModeClick                        // `onDarkModeClick`; the menu item has already toggled its flag

  /** No add made while handling `e` loses its panel. */
  predicate KeepsPanels(e: Event) {
    match e
    case AddClick(o) => o != AttachFailed
    case ClearClick(outs) => NoAttachFailure(outs)
    case LoadClick(env) => NoAttachFailure(env.rowOutcomes) && NoAttachFailure(env.defaultOutcomes)
    case _ => true
  }

  /** `onAddButtonClick`: adds one default row. */
  function OnAddClick(cfg: Config, s: State, outcome: AddOutcome): (r: State)
    requires WellFormed(s)
    ensures WellFormed(r) && r.children[0] == s.children[0]
    ensures StyleInSync(cfg, s) ==> StyleInSync(cfg, r)
    ensures Consistent(s) && outcome != AttachFailed ==> Consistent(r)
  {
    var r := AddLinePanel(s, None, outcome);
    assert r.children[0] == s.children[0];
    SameStyle(cfg, s, r);
    r
  }

  /** `onClearClick`: starts a new session. */
  function OnClearClick(cfg: Config, s: State, outs: seq<AddOutcome>): (r: State)
    requires WellFormed(s)
    ensures WellFormed(r) && r.children[0] == s.children[0]
    ensures StyleInSync(cfg, s) ==> StyleInSync(cfg, r)
    ensures Consistent(s) && NoAttachFailure(outs) ==> Consistent(r)
  {
    var r := NewSession(cfg, s, outs);
    SameStyle(cfg, s, r);
    r
  }

  /** `onLoadClick`: reloads the session file. */
  function OnLoadClick(cfg: Config, s: State, env: LoadEnv): (r: State)
    requires WellFormed(s)
    ensures WellFormed(r) && r.children[0] == s.children[0]
    ensures StyleInSync(cfg, s) ==> StyleInSync(cfg, r)
    ensures Consistent(s) && NoAttachFailure(env.rowOutcomes) && NoAttachFailure(env.defaultOutcomes) ==> Consistent(r)
  {
    LoadSession(cfg, s, env)
  }

  /** The state after handling one event. */
  function Step(cfg: Config, s: State, e: Event): (r: State)
    requires WellFormed(s)
    ensures WellFormed(r) && r.children[0] == s.children[0]
  {
    match e
    case AddClick(o) => OnAddClick(cfg, s, o)
    case ClearClick(outs) => OnClearClick(cfg, s, outs)
    case LoadClick(env) => OnLoadClick(cfg, s, env)
    case SaveClick => s
    case DarkModeClick => ToggleDarkMode(cfg, s)
  }

  /**
    Every handler keeps the stylesheets in agreement with the flag, and keeps rows and
    panels in step unless a panel is lost.
   */
  lemma StepKeepsInvariants(cfg: Config, s: State, e: Event)
    requires WellFormed(s)
    ensures StyleInSync(cfg, s) ==> StyleInSync(cfg, Step(cfg, s, e))
    ensures Consistent(s) && KeepsPanels(e) ==> Consistent(Step(cfg, s, e))
  {
    match e
    case AddClick(o) =>
      var r := OnAddClick(cfg, s, o);
      assert Step(cfg, s, e) == r;
    case ClearClick(outs) =>
      var r := OnClearClick(cfg, s, outs);
      assert Step(cfg, s, e) == r;
    case LoadClick(env) =>
      var r := OnLoadClick(cfg, s, env);
      assert Step(cfg, s, e) == r;
    case SaveClick =>
    case DarkModeClick =>
      var r := ToggleDarkMode(cfg, s);
      assert Step(cfg, s, e) == r;
  }

  /** The state after handling `events` in order. */
  function Run(cfg: Config, s: State, events: seq<Event>): State
    requires WellFormed(s)
    decreases |events|
  {
    if |events| == 0 then s
    else
      var t := Step(cfg, s, events[0]);
      Run(cfg, t, events[1..])
  }
}
