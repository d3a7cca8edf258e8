# LibCosmic-Bar shell core in Dafny

The project models the decision logic of LibCosmic-Bar, a Wayland desktop shell with two parts:

- **Launcher.** An application launcher overlay. You type a query; it lists the five installed applications whose names best match, and Enter runs the selected one.
- **Bar.** A permanent status bar. It tracks the compositor's active workspace and offers one button per workspace.

The shell routes every message to one of the two. Each message handler is a pure transition. It returns an `Outcome`: either the next state and a list of `Effect` values, or `Panicked` for a Rust runtime panic. The effects are:

- a message fed back into the loop;
- a layer surface to create or destroy;
- a command for the compositor to run;
- a workspace to switch to.

Modules:

- `Runtime`: surfaces, effects, outcomes and Rust's `clamp`.
- `Messages`: the mutually recursive shell, launcher and bar message types.
- `Ranking`: the stable descending sort and the zero-score filter behind the launcher's ranking.
- `FieldCodes`: `%` field-code expansion of a desktop entry's `Exec` command.
- `DesktopEntries`: the visibility filter over parsed desktop entries.
- `Launcher`: launcher state, its handlers, the event-to-message mapping, and the cursor finding below.
- `Bar`: bar state, its handler, the surface settings, and the workspace buttons.
- `Shell`: the composed state, the router and the surface view selection.

Three behaviours of the code worth knowing:

- A workspace change does not close an open launcher (`Shell.WorkspaceChangeKeepsLauncher`).
- `Open` on an open launcher is not a no-op. It emits `Close`, so the shortcut toggles (`Shell.ToggleTwice`).
- `Close` keeps the query, the results, the cursor and the application list. `Open` resets them on the next opening (`Launcher.OnClose`, `Launcher.OnOpen`).

## Model

| member | source | states |
|---|---|---|
| `Runtime.Clamp` | src/launcher.rs:362-373 | the result lies in the range; a value inside is kept, one below goes to the low end, one above to the high end |
| `Launcher.New` | src/launcher.rs:54-66 | the launcher starts closed, with empty query, results and application list, cursor at 0 |
| `Ranking.Nonzero` | src/launcher.rs:225-236 | the kept entries are exactly those with a non-zero score; for each score value the order of its entries is unchanged |
| `Ranking.SortDescending` | src/launcher.rs:238 | the result is a permutation of the input, sorted by non-increasing key, and entries with equal keys keep their input order |
| `Ranking.DescendingStableUnique` | src/launcher.rs:238 | two sequences sorted by non-increasing key that have the same entries for each key value are equal |
| `Ranking.SortDescendingIsStableSort` | src/launcher.rs:238 | any sorted sequence that keeps each key's entries in input order is the sort's result |
| `Launcher.Ranked` | src/launcher.rs:222-238 | the ranking holds exactly the applications with non-zero score, best score first, ties in application-list order |
| `Launcher.Shown` | src/launcher.rs:222-248 | the listed results are the first min(matches, 5) entries of the ranking, so every one matches and they come best score first |
| `Launcher.ShownStable` | src/launcher.rs:222-248 | among listed results with equal scores, application-list order is kept: for each score, the listed entries form a prefix of the applications with that score |
| `Launcher.ShownComplete` | src/launcher.rs:222-248 | a matching application is left out only when 5 results are listed, each scoring at least as high |
| `Launcher.OnInput` | src/launcher.rs:219-251 | stores the text and keeps the window and the application list. An empty text lists nothing and keeps the cursor. Otherwise the results are those of `Shown`, at most 5, and the cursor is capped by the result count, so it can rest one past the last result |
| `Launcher.OnSubmit` | src/launcher.rs:252-275 | panics exactly when the cursor is past the results. Otherwise the state is unchanged, and a command runs with its field codes expanded, followed by Close; an entry without a command does nothing |
| `Launcher.OverlaySurface` | src/launcher.rs:283-292 | the overlay is a topmost, full-screen surface with exclusive keyboard focus |
| `Launcher.OnOpen` | src/launcher.rs:276-349 | on an open launcher: state unchanged and only Close is emitted. On a closed one: a fresh session on a new surface, whose application list is the visible desktop applications |
| `Launcher.OnClose` | src/launcher.rs:350-356 | the window is gone and its surface destroyed if there was one; query, results, cursor and list are kept |
| `Launcher.OnSelectionUp` | src/launcher.rs:357-367 | no change when closed or empty. Otherwise only the cursor moves, one up, stopping at the first result and landing on a result |
| `Launcher.OnSelectionDown` | src/launcher.rs:368-376 | no change when closed or empty. Otherwise only the cursor moves, one down, stopping at the last result |
| `Launcher.SelectionDownThenUp` | src/launcher.rs:357-376 | down then up returns to the starting state when the cursor is above the last result |
| `Launcher.SelectionUpThenDown` | src/launcher.rs:357-376 | up then down returns to the starting state when the cursor is below the first result |
| `Launcher.Update` | src/launcher.rs:216-380 | within the model, panics exactly on Submit with the cursor past the results; keeps the result cap and cursor bound; only Open replaces the list; only Open and Close change the window; a boxed shell message is ignored |
| `Launcher.Run` | src/launcher.rs:216-380 | any sequence of messages keeps the result cap and cursor bound; without an Open the application list stays the same |
| `Launcher.KeyMapping` | src/launcher.rs:382-397 | Escape or an unhandled left click gives Close, arrow up gives SelectionUp, arrow down gives SelectionDown, anything else nothing |
| `Launcher.TraceOpen` | src/launcher.rs:276-347 | opening at start-up with two visible entries lists both, in entry order, with an empty query on a new surface |
| `Launcher.TraceNarrows` | src/launcher.rs:219-248 | for any two visible entries, a query both match (the first ranking at least as high) and a non-empty query only the first matches. From the freshly opened launcher: type the first query, move down, type the second. One result is then listed and the cursor sits one past it |
| `Launcher.OffByOneReachesPanic` | src/launcher.rs:241-253 | in that state the result cap and cursor bound still hold and Submit is offered, yet the same messages followed by Submit panic |
| `Launcher.ReclampCorrected` | src/launcher.rs:243 | the corrected cursor is on a result when there are results, never moves down, and is unchanged when already on a result |
| `Launcher.UpdateCorrected` | src/launcher.rs:241-247 | with the corrected re-clamp, no message the view can send panics from a state whose cursor is on a result, and that property is kept |
| `Launcher.CorrectedTraceSubmits` | src/launcher.rs:241-271 | the same trace under the correction ends with the cursor on the one result; Submit runs its expanded command and closes, or does nothing when it has none |
| `FieldCodes.Expand` | src/launcher.rs:254-269 | the expanded command is never longer than the original. `ExpandWithoutPercent`, `LonePercentKept`, `CodeDropped` and `ExpandOneCode` together fix its value on every command |
| `FieldCodes.CodeReplacement` | src/launcher.rs:257-268 | `%%` becomes `%`; every other code becomes the empty string |
| `FieldCodes.ExpandEscape` | src/launcher.rs:254-269 | expanding a command whose `%` are doubled gives the command back |
| `FieldCodes.ExpandEscapeAppend` | src/launcher.rs:254-269 | an escaped prefix expands to itself whatever follows it |
| `FieldCodes.ExpandWithoutPercent` | src/launcher.rs:254-269 | a command without `%` is unchanged |
| `FieldCodes.LonePercentKept` | src/launcher.rs:254 | a trailing `%` and a `%` before a newline are not codes and stay |
| `FieldCodes.CodeDropped` | src/launcher.rs:258-267 | any code other than `%%` disappears together with its `%` |
| `FieldCodes.ExpandOneCode` | src/launcher.rs:254-269 | a plain prefix is copied, one field code after it is replaced, and the rest expands on its own |
| `FieldCodes.ExpandDropsUrl` | src/launcher.rs:254-269 | `firefox %u` runs as `firefox ` |
| `FieldCodes.ExpandKeepsPercent` | src/launcher.rs:254-269 | `echo 100%%` runs as `echo 100%` |
| `DesktopEntries.VisibleApps` | src/launcher.rs:329-346 | only visible Application entries that parsed are listed, and every such entry is listed |
| `DesktopEntries.VisibleAppsAppend` | src/launcher.rs:302-347 | the filter works file by file, so the list keeps the scan order |
| `DesktopEntries.VisibleAppsSingle` | src/launcher.rs:330-346 | one parse result contributes its application exactly when it is an Application without NoDisplay or Hidden set |
| `Bar.BarSurface` | src/bar.rs:66-79 | the bar is a 30-pixel strip on the bottom layer along the top of every output, reserving 30 pixels |
| `Bar.New` | src/bar.rs:63-91 | the bar starts with count 0, the given active workspace and one surface request |
| `Bar.DispatchTarget` | src/bar.rs:155-163 | an id or a name is passed through; every other identifier asks for an empty workspace |
| `Bar.Update` | src/bar.rs:139-176 | never panics and keeps the surface id. A button press adds one to the count; a workspace-change event sets the active workspace; nothing else changes the state. SetWorkspace switches workspace and OpenBlueman runs blueman-manager |
| `Bar.FromEventStream` | src/bar.rs:181-186 | a compositor event becomes an event message; a stream error becomes HyprlandError |
| `Bar.Run` | src/bar.rs:139-176 | a sequence of bar messages never changes the surface id |
| `Bar.RunAppend` | src/bar.rs:139-176 | running two message sequences in turn is running their concatenation |
| `Bar.RunCountsPresses` | src/bar.rs:143-146 | the count rises by exactly the number of button presses |
| `Bar.RunTracksLastWorkspace` | src/bar.rs:167-171 | the active workspace is the one reported by the last workspace-change event, or the initial one if none arrived |
| `Bar.SortedWorkspaces` | src/bar.rs:98-100 | workspaces are a permutation of the input in ascending id order, ties in input order |
| `Bar.Buttons` | src/bar.rs:97-111 | one button per workspace in ascending id order, captioned with its name, enabled exactly when it is not the active workspace, and switching to it by name |
| `Bar.ButtonPressSwitches` | src/bar.rs:104-105 | pressing an enabled button asks the compositor to switch to that workspace by name |
| `Shell.New` | src/main.rs:31-45 | the shell starts with a closed launcher and a fresh bar, and requests only the bar's surface |
| `Shell.View` | src/main.rs:47-63 | a surface id is drawn by the launcher if it is the launcher's window, else by the bar if it is the bar's, else empty |
| `Shell.Update` | src/main.rs:65-106 | the toggle shortcut emits a launcher Open; other shortcut messages do nothing; boxed shell messages are handled as themselves; other messages go to one component, with its effects re-tagged. The bar's id never changes, the launcher invariant is kept, and a panic comes only from Submit past the results |
| `Shell.NestedDispatch` | src/main.rs:85-104 | a shell message boxed at any depth in launcher or bar messages is handled exactly as the message itself |
| `Shell.WorkspaceChangeKeepsLauncher` | src/main.rs:95-103 | a workspace change updates only the bar's active workspace and emits nothing; the launcher is untouched |
| `Shell.ToggleTwice` | src/main.rs:68-94 | from a closed launcher, the shortcut opens it on a new surface; a second toggle emits Close, which destroys that surface and leaves the bar unchanged |

## Left out

- The fuzzy scorer and lower-casing (`fuzzy_compare` on `to_lowercase()` names) are foreign code. They are the `score` parameter of `Launcher.Env`, assumed deterministic. The properties hold for every scorer.
- A NaN score would make the sort's `partial_cmp(..).unwrap()` panic. The model has no NaN; scores are `real`.
- Finding and parsing desktop files is file-system I/O and is left out: the XDG data directories, `WalkDir`, `.desktop` extension filtering and `parse_desktop_entry`. `Launcher.Env.entries` receives the parse results in scan order.
- `window::Id::unique()` is a parameter: `Env.freshId` for the launcher, the `id` argument of `Bar.New`. The initial active workspace read from the compositor at bar start-up is also a parameter, and the model does not include the `expect` panic when that read fails.
- The real side effects become `Effect` values: Hyprland `dispatch!` calls (`Exec`, `Workspace`) and layer-surface creation and destruction. Dispatch errors are discarded in the source and are not modelled.
- `Launcher.Run` and `Bar.Run` deliver messages in order. The asynchronous subscriptions are not modelled: the 100 ms timer, the Hyprland event stream and the desktop-portal shortcut session. Messages a transition emits are returned, not fed back.
- The widget trees and styling of both views, and the bar clock text (`chrono`), are left out. From the launcher view, only the Submit offer is modelled (`Launcher.SubmitOffered`); from the bar view, the workspace buttons (`Bar.Buttons`).
- The `Window` trait in src/window.rs only declares the interface, so it is not modelled separately.
- Integer widths: the cursor and result count are at most 5, so the `usize`/`i32` casts in the cursor moves are exact and are written as plain integers.
- `Launcher.OnOpen`: never panics here. In the source, opening panics at src/launcher.rs:306 when neither `XDG_DATA_HOME` nor `HOME` is set, because `std::env::var("HOME").unwrap()` fails. Environment variables are outside the model, and the scanned entries arrive through `Env.entries`.
- `Bar.Buttons`: takes the workspace list as a parameter. The source reads it from the compositor with `Workspaces::get().unwrap()` at src/bar.rs:98, which panics when the read fails; that panic is not modelled.
- `Env.freshId` and the bar's `id` may be any values. The model does not assume that `window::Id::unique()` returns a new id different from the bar's. So if the launcher's window had the bar's id, `Shell.View` would give that surface to the launcher; the model proves no "the bar's surface is always drawn by the bar" property.
- `Bar.Update`: the `u32` press counter is unbounded here; overflow after 2^32 presses is not modelled.
- The `println!` and `dbg!` diagnostics in src/main.rs only print, and are left out.

## Findings

| source | as written | input that shows it | evidently intended | confidence | as-written member | corrected member |
|---|---|---|---|---|---|---|
| src/launcher.rs:243 | a non-empty query caps the cursor at `min(selected_item, count)`, one past the last result | entries "ab" and "ac", a scorer under which both match "a" and only "ab" matches "ab" (prefix matching is one, `Launcher.PrefixScorerQualifies`): Open, Input "a", SelectionDown, Input "ab". The cursor is 1 with one result, Submit is offered, and `results[1]` panics | `min(selected_item, count - 1)` when there are results | not executed | `Launcher.OffByOneReachesPanic` | `Launcher.UpdateCorrected` |

The shell routes messages to the launcher's handler as written (`Launcher.Update`), so `Shell.Update` can panic from exactly that state.
