# QPortForwarder session handling, modelled in Dafny

QPortForwarder is a desktop tool that keeps a list of port-forwarding rules in a
window. This model covers the session handling of its main controller,
`ForwardingPaneController`, without the JavaFX toolkit. The controller keeps this state:

- an ordered list of rule rows, each holding one `ForwardingParameters` value or `null`;
- the children of the line container, where child 0 is a fixed header and every later
  child is the panel of one row;
- the dark-mode menu flag;
- the stylesheet lists of the main pane and of the about dialog.

Its operations work on that state:

- `deleteRows`, `addLinePanel`, `newSession`, `loadSession`, `saveSession` and `initialize`;
- the click handlers that call them;
- the dark-mode stylesheet toggle `updateStyleSheets`.

Files:

- `wrappers.dfy`: `Option`, the model of a Java reference that may be `null`.
- `stylesheets.dfy`: module `Stylesheets`, the stylesheet toggle as a pure function on a
  sequence of stylesheet URLs.
- `session.dfy`: module `Session`, the state and every transition as pure functions.
- `session_lemmas.dfy`: module `SessionLemmas`, properties that relate several calls. These
  cover the save/load round trip, start-up with and without a session file, and invariants
  kept over any sequence of user actions.

The outcomes of calls into code that this model does not include become parameters:

- `AddOutcome` is the outcome of one `addLinePanel`. In `Attached` the row and its panel are
  both appended. In `LoadFailed` the FXML load or the row set-up throws before the row is
  appended. In `AttachFailed` the row is appended and then appending its panel throws. A
  list of outcomes that runs out means every later call succeeds.
- `LoadEnv` holds the outcomes for one `loadSession`:
  - the decoded session document, or `None` when decoding throws or yields no document;
  - the outcomes of the per-row adds;
  - whether setting the dark-mode menu from the document throws;
  - the outcomes of the adds of a fallback default session.
- Whether the session file exists is a parameter of `Initialize`.
- `AppConfig.DEFAULT_LINE_COUNT` and `WindowApplicationResources.DARK_MODE_CSS_FILE` are
  defined in classes outside this model. They are fields of `Config`.
- `ForwardingParameters` is an opaque type with equality.

Two behaviours of the code shape the model:

- **Losing a panel.** If appending a panel throws (ForwardingPaneController.java:94), the
  row appended at line 92 stays without a panel. `Session.AddLinePanel` models exactly this.
- **Which failures fall back.** `addLinePanel` catches its own exceptions (lines 96-99). So
  a failing row add never reaches the `newSession` fallback of `loadSession`; only that row,
  or only its panel, is missing. The fallback follows a decode failure, a `null` parameter list, a throw
  while setting the menu flag, or a throw inside `updateDarkMode` at line 152 (not
  modelled, see "## Left out").

## Model

| member | source | states |
|---|---|---|
| `Session.DeleteRows` | src/cz/dangelcz/qportforwarder/gui/controllers/ForwardingPaneController.java:161-166 | needs the header child to exist; afterwards there are no rows, the children are exactly the original header, and flag and stylesheets are unchanged |
| `Session.AddLinePanel` | src/cz/dangelcz/qportforwarder/gui/controllers/ForwardingPaneController.java:83-100 | on success appends one row holding the parameters and one panel at the end; a failure before the row append changes nothing; a failing panel append leaves the row without a panel; from a consistent state, rows and panels stay in step exactly when the panel is not lost |
| `Session.AddLinePanels` | src/cz/dangelcz/qportforwarder/gui/controllers/ForwardingPaneController.java:72-75 | repeated adds keep earlier rows and children as a prefix; the added rows are exactly the given values whose add gets past the row append, in the given order (`Kept`), and the added panels are exactly those whose append also succeeds, in order (`Shown`); when all succeed, the rows hold exactly the given values in order, each with its panel |
| `Session.NewSession` | src/cz/dangelcz/qportforwarder/gui/controllers/ForwardingPaneController.java:66-81 | no earlier row survives; the rows are exactly the default values whose add gets past the row append, and the panels after the unchanged header are exactly those whose append also succeeds, so a failed add is simply missing; there are at most `DEFAULT_LINE_COUNT` rows; when every add succeeds there are exactly that many, with panels after the unchanged header |
| `Session.NewSessionKeepsOnlyHeader` | src/cz/dangelcz/qportforwarder/gui/controllers/ForwardingPaneController.java:66-76 | a new session depends on the state it replaces only through header, flag and stylesheets, because `deleteRows` runs first |
| `Session.UpdateDarkMode` | src/cz/dangelcz/qportforwarder/gui/controllers/ForwardingPaneController.java:107-111 | applies the flag to both stylesheet lists and touches nothing else; when the dark stylesheet occurs at most once beforehand, both lists afterwards agree with the flag; other stylesheets are kept in their order, and an already agreeing state is unchanged |
| `Session.LoadSession` | src/cz/dangelcz/qportforwarder/gui/controllers/ForwardingPaneController.java:140-159 | on a successful load, the flag is the document's, the stylesheets agree with it when the dark stylesheet occurred at most once, the rows are the decoded values whose add gets past the row append, in document order, and the panels after the header are those whose append also succeeds; with all adds succeeding, the rows are the decoded list in order; on any throw in the `try` block, the result is exactly a fresh default session, with no earlier or partly loaded rows; the header is kept, and stylesheets other than the dark one are kept in their order |
| `Session.LoadDocument` | src/cz/dangelcz/qportforwarder/gui/controllers/ForwardingPaneController.java:146-153 | when the document and its parameter list decode and nothing throws, the flag becomes the document's, the rows are the decoded values whose add gets past the row append, in order, and the panels after the header are those whose append also succeeds; with every add succeeding, the rows are the decoded list in order, each with its panel; the stylesheets then agree with the new flag when the dark stylesheet occurred at most once, and the others are kept in their order |
| `Session.TakeOverDarkMode` | src/cz/dangelcz/qportforwarder/gui/controllers/ForwardingPaneController.java:151-152 | the menu flag becomes the document's, rows and children are untouched, the stylesheets then agree with the new flag when the dark stylesheet occurred at most once, and the others are kept in their order |
| `Session.ToggleDarkMode` | src/cz/dangelcz/qportforwarder/gui/controllers/ForwardingPaneController.java:129-132 | the flag flips, rows and children are untouched, the stylesheets then agree with the new flag when the dark stylesheet occurred at most once, and the others are kept in their order |
| `Session.SaveSession` | src/cz/dangelcz/qportforwarder/gui/controllers/ForwardingPaneController.java:174-181 | the written document holds one parameter value per row, in row order, plus the current dark-mode flag |
| `Session.Initialize` | src/cz/dangelcz/qportforwarder/gui/controllers/ForwardingPaneController.java:47-64 | starts with no rows; with a session file that loads, the flag is the document's and the rows are its kept values in document order; otherwise the rows are the kept default values, at most `DEFAULT_LINE_COUNT` of them, and the layout's flag is kept; the children are the header followed by exactly the panels of the shown values, so no layout panel survives, and rows and panels are in step when no panel append fails; every row came from the decoded document or is a default row; when the dark stylesheet occurs at most once in the layout, the stylesheets end in agreement with the flag, and the others are kept in their order |
| `Session.Step` | src/cz/dangelcz/qportforwarder/gui/controllers/ForwardingPaneController.java:102-222 | every click handler keeps the header as the first child |
| `Session.StepKeepsInvariants` | src/cz/dangelcz/qportforwarder/gui/controllers/ForwardingPaneController.java:102-222 | every click handler keeps the stylesheets in agreement with the flag, and keeps rows and panels in step unless a panel is lost |
| `Session.OnAddClick` | src/cz/dangelcz/qportforwarder/gui/controllers/ForwardingPaneController.java:102-105 | the add button keeps the header and the stylesheet agreement, and keeps rows and panels in step unless the new panel is lost |
| `Session.OnClearClick` | src/cz/dangelcz/qportforwarder/gui/controllers/ForwardingPaneController.java:219-222 | the clear button keeps the header and the stylesheet agreement, and keeps rows and panels in step unless a default panel is lost |
| `Session.OnLoadClick` | src/cz/dangelcz/qportforwarder/gui/controllers/ForwardingPaneController.java:135-138 | the load button keeps the header and the stylesheet agreement, and keeps rows and panels in step unless a loaded or default panel is lost |
| `Session.AbortedLoad` | src/cz/dangelcz/qportforwarder/gui/controllers/ForwardingPaneController.java:150-157 | when setting the menu flag throws, the rows already added are discarded: the result is exactly a fresh default session of the state before the load |
| `Session.KeptAllAttached` | src/cz/dangelcz/qportforwarder/gui/controllers/ForwardingPaneController.java:72-75 | when every add succeeds, every given value is kept as a row and shown as a panel |
| `Session.KeptIsShown` | src/cz/dangelcz/qportforwarder/gui/controllers/ForwardingPaneController.java:92-94 | when no panel append fails, the rows kept and the panels shown are the same values |
| `Stylesheets.RemoveFirst` | src/cz/dangelcz/qportforwarder/gui/controllers/ForwardingPaneController.java:125 | removes the first occurrence of a present entry (the one before which it does not appear) and nothing else, does nothing to a list without it, and leaves every other entry in its order |
| `Stylesheets.UpdateStyleSheets` | src/cz/dangelcz/qportforwarder/gui/controllers/ForwardingPaneController.java:113-127 | with at most one occurrence beforehand, the dark stylesheet is present afterwards exactly when dark mode is on; other entries keep their relative order; a list already in the requested state is unchanged; adding appends last; removing takes away the first occurrence and only that one |
| `Stylesheets.UpdateIdempotent` | src/cz/dangelcz/qportforwarder/gui/controllers/ForwardingPaneController.java:113-127 | with at most one occurrence beforehand, a second toggle with the same flag changes nothing |
| `Stylesheets.DuplicateSurvivesRemoval` | src/cz/dangelcz/qportforwarder/gui/controllers/ForwardingPaneController.java:123-126 | with a duplicated entry, switching dark mode off leaves a copy behind, and a second toggle removes another |
| `SessionLemmas.SaveLoadRoundTrip` | src/cz/dangelcz/qportforwarder/gui/controllers/ForwardingPaneController.java:140-181 | loading the document that `saveSession` wrote restores the saved rows in order and the saved flag, each row with its panel, and saving again gives the same document |
| `SessionLemmas.RestartRestoresSession` | src/cz/dangelcz/qportforwarder/gui/controllers/ForwardingPaneController.java:54-59 | starting with a readable session file that holds a saved session restores that session's rows and flag |
| `SessionLemmas.StartWithoutSessionFile` | src/cz/dangelcz/qportforwarder/gui/controllers/ForwardingPaneController.java:60-63 | without a session file, start-up gives exactly `DEFAULT_LINE_COUNT` default rows, each with its panel below the header |
| `SessionLemmas.CorruptFileFallsBack` | src/cz/dangelcz/qportforwarder/gui/controllers/ForwardingPaneController.java:154-158 | starting with a session file whose load throws (it does not decode, has no parameter list, or setting the menu flag from it throws) ends in the same state as starting without one |
| `SessionLemmas.RunKeepsHeader` | src/cz/dangelcz/qportforwarder/gui/controllers/ForwardingPaneController.java:161-166 | after any sequence of user actions the header is still the first child |
| `SessionLemmas.RunKeepsConsistent` | src/cz/dangelcz/qportforwarder/gui/controllers/ForwardingPaneController.java:92-94 | while no panel append fails, every row keeps exactly one panel, in row order, after any sequence of user actions |
| `SessionLemmas.RunKeepsStyleInSync` | src/cz/dangelcz/qportforwarder/gui/controllers/ForwardingPaneController.java:117-126 | once the stylesheets agree with the flag, they keep agreeing after any sequence of user actions |
| `SessionLemmas.AddClicksAppendDefaults` | src/cz/dangelcz/qportforwarder/gui/controllers/ForwardingPaneController.java:102-105 | `k` successful clicks on the add button append exactly `k` default rows and their panels after the existing ones |

## Left out

- `WindowApplication.java` is not modelled. It builds the stage and scene, loads the FXML and
  shows the version string, which is framework wiring only.
- The JSON encoding and decoding and the session-file reads and writes are calls into
  libraries outside this model. Decoding becomes the `decoded` parameter of `LoadEnv`.
  The round-trip lemmas assume that reading back the written file yields the saved
  document: they pass that document as `decoded`.
- A throw from reading the session file at line 144 is not modelled. That call sits
  outside the `try` block, and `IoHelper` is not part of this model.
- A throw inside `updateDarkMode` after the menu flag was set is not modelled, for example
  from the about dialog's scene. The model's only late failure is `selectThrows`, a throw
  before the flag changes.
- `Session.SaveSession`: the write outcome is not modelled.
- `closeApplication` saves and then exits the process. Exiting is not modelled. What it
  saves is `Session.SaveSession` of the current state.
- `onAboutClick`, which shows the about dialog, and the empty `onSaveAsClick` are view-only
  or unimplemented.
- Logging is not modelled.
- `ForwardingLineController` is not part of this model. Its `getParameters` is taken to
  return the value given to `setParameters`. In-place edits of a row's parameters by the
  view are not modelled, so a saved row holds the value it was created with.
- `onDarkModeClick`: the menu item flips its own flag before the handler runs. `Session.ToggleDarkMode`
  models this as the flag being negated and then `updateDarkMode` running.
