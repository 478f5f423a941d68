# iced_kim multi-window routing, modelled in Dafny

iced_kim runs several host windows as one program. Each window holds its own application
data, which is one of the window kinds shown here: the home page, the set page or the
message-box dialog. All traffic goes through a small closed protocol, `Message`:
- window events (`Close`, `Closed`, `CloseRequest`, notifications);
- payloads broadcast to every window;
- requests to open a child window;
- batches, and global settings such as theme, scale and exit.

The engine keeps the window map and the parent/child links between windows. It allows
at most one live window per data type. When a window closes, the engine runs the close
hook that was registered for it against the *parent*. Messages a window answers with are
fed back into the engine.

The model has the following parts:

- `Core` (`src/core.rs`):
  - the window record, the request record (`WindowData`), `Message`, `EventMessage`,
    `DialogResult` and window payloads;
  - the constructor helpers `new_window`, `show_dialog`, `events`, `window_messages`, and
    `get_window_data`.
  - Trait objects become the closed union `PageData`. `TypeId` becomes an explicit tag
    (`TypeTag`, `PayloadTag`).
- `HomePage`, `SetPage` (`examples/multi_windows/src/pages/`), `MessageBoxDialog`
  (`src/widget/inner_message_box/message_box_window.rs`) and `MessageBoxBuilder`
  (`src/widget/message_box.rs`): the window kinds and the dialog builder.
  - `Pages` is the `IWindow` dispatch over the union. Hooks a kind does not override are
    the trait defaults of `core.rs`.
- `MultiWindows` (`src/widget/multi_windows.rs`) is the engine itself, in two parts:
  - `Step`, the meaning of one message: the new engine state and the host commands, in
    order.
  - The class `Program`, matching the source's `Program`. Its `Update` mutates the window
    map in place and calls itself on derived messages. Every method is proved to compute
    `Step`, `StepSeq`, `StepEvent` and the others.
- `MultiWindowsInvariant`: the invariant every message preserves, whatever the hooks do:
  - every live id was issued by the counter;
  - no two live windows share a type tag;
  - every child link names a live window that names the linker as its parent;
  - the counter only grows.
- `MultiWindowsProps`: what each message does, stated against `Step`. It also covers the
  example program's own scenario: the home window opens the set window once, and the dialog
  result reaches the parent.
- `TableExample` (`examples/table/src/main.rs`):
  - `Example` is a class whose `Update` is proved against `Apply` on snapshots. Lemmas then
    state what each arm means: permutation for moves, first-match for column widths,
    append, delete with the selection rule, and edits of the selected row.
  - `str::parse::<u32>` is modelled by `ParseU32`, with its round trip against
    `u32::to_string`.

Host side effects are the `Command` datatype:
- `OpenWindow(id, settings)` is `window::open`;
- `CloseWindow(id)` is `window::close`;
- `Terminate` is `iced::exit`.

`window::open` returns a fresh id, which is modelled by the counter `nextId`.

Where the documentation and the code differ, the model follows the code. Two cases:
- `WindowCloseCallbackData.id` is documented as the id of the closing window. The engine
  passes the parent's id (`multi_windows.rs:88-94`), so the model passes the parent's id.
- `Program::new` stores the root window with the placeholder type tag of
  `Window::default`. So the root window's own kind is not guarded against opening a
  second time (`RootKindNotGuarded`).

## Model

| member | source | states |
|---|---|---|
| MultiWindows.Program.New | src/widget/multi_windows.rs:41-57 | the new program holds exactly the root window under id 0, and the only command opens it |
| MultiWindows.Program.constructor | src/widget/multi_windows.rs:41-57 | the fields are those of `Init`: root window at id 0, theme, scale 1.0, the root icon, next id 1 |
| MultiWindows.Program.Title | src/widget/multi_windows.rs:60-65 | a live window's title, the empty string for an absent id |
| MultiWindows.Program.Update | src/widget/multi_windows.rs:68-263 | the new fields and the issued commands are exactly `Step` of the old fields and the message |
| MultiWindows.Program.Derive | src/widget/multi_windows.rs:97-98 | a derived message is handled with one unit of fuel less, and dropped when none is left |
| MultiWindows.Program.Batch | src/widget/multi_windows.rs:245-251 | a batch handles its messages left to right, each from the state the previous one left, and concatenates their commands |
| MultiWindows.Program.BroadcastMessage | src/widget/multi_windows.rs:232-244 | the broadcast loop computes `StepBroadcast`: every window updated in ascending id order, then the non-`None` replies handled as one batch |
| MultiWindows.Program.OpenWindowRequest | src/widget/multi_windows.rs:190-230 | the open request computes `OpenRequest` |
| MultiWindows.Program.HandleEvent | src/widget/multi_windows.rs:77-186 | each window event computes `StepEvent`; the notifications call the live window's hook and are ignored for an absent id |
| MultiWindows.Program.HandleClose | src/widget/multi_windows.rs:80-107 | `Close` runs the hook against the parent, then `Closed`, then issues the close command |
| MultiWindows.Program.HandleClosed | src/widget/multi_windows.rs:116-144 | `Closed` clears the parent's child link, asks the window's hook, removes the window and exits when none is left |
| MultiWindows.DerivedNoneIsInert | src/widget/multi_windows.rs:261 | a derived `Message::None` changes nothing and issues nothing, with or without fuel |
| MultiWindowsInvariant.InitValid | src/widget/multi_windows.rs:41-57 | the root window alone satisfies the engine invariant |
| MultiWindowsInvariant.StepKeepsValid | src/widget/multi_windows.rs:68-263 | every message keeps the invariant (issued ids, one window per kind, child links two-way), whatever the hooks answer, and never takes an id back |
| MultiWindowsInvariant.StepSeqKeepsValid | src/widget/multi_windows.rs:245-251 | every batch keeps the invariant |
| MultiWindowsInvariant.DerivedKeepsValid | src/widget/multi_windows.rs:97-98 | handling a derived message keeps the invariant |
| MultiWindowsInvariant.EventKeepsValid | src/widget/multi_windows.rs:77-186 | every window event keeps the invariant |
| MultiWindowsInvariant.CloseKeepsValid | src/widget/multi_windows.rs:80-107 | `Close` keeps the invariant, whatever its hook does |
| MultiWindowsInvariant.ClosedKeepsValid | src/widget/multi_windows.rs:116-144 | `Closed` keeps the invariant |
| MultiWindowsInvariant.ClosedOutcome | src/widget/multi_windows.rs:116-144 | `Closed(id)` detaches and removes `id` and issues exactly the exit command when the map is then empty, nothing otherwise |
| MultiWindowsInvariant.DetachedKeepsValid | src/widget/multi_windows.rs:118-140 | removing a window and clearing its parent's link leaves no link to a dead window |
| MultiWindowsInvariant.OpenRequestKeepsValid | src/widget/multi_windows.rs:190-230 | an open request keeps the invariant |
| MultiWindowsInvariant.OpenedKeepsOnePerKind | src/widget/multi_windows.rs:190-226 | an accepted request cannot give two live windows the same type tag |
| MultiWindowsInvariant.OpenedKeepsChildLinked | src/widget/multi_windows.rs:198-222 | an accepted request links the new window to its live parent and to no other window |
| MultiWindowsInvariant.BroadcastKeys | src/widget/multi_windows.rs:232-244 | a broadcast keeps the set of live ids |
| MultiWindowsInvariant.BroadcastOf | src/widget/multi_windows.rs:232-244 | each window is updated once, from its own data, and only its data changes |
| MultiWindowsInvariant.BroadcastKeepsLinks | src/widget/multi_windows.rs:232-244 | a broadcast changes window data only, never titles, settings, links or tags |
| MultiWindowsProps.InitOpensOneWindow | src/widget/multi_windows.rs:41-57 | `new` opens exactly one window under id 0 with the kind's record, the placeholder tag, the root icon remembered, theme Catppuccin Latte and scale 1.0 |
| MultiWindowsProps.InitTitle | src/widget/multi_windows.rs:60-65 | the home root is titled "Main Window"; every other id reads as the empty title |
| MultiWindowsProps.TitleChangedRetitlesOnlyThatWindow | src/widget/multi_windows.rs:71-76 | `TitleChanged` retitles only that window, issues nothing and ignores an absent id |
| MultiWindowsProps.GlobalsChangeAlone | src/widget/multi_windows.rs:252-259 | `Theme` and `Scale` set only their own global and issue nothing |
| MultiWindowsProps.ExitAndNone | src/widget/multi_windows.rs:260-261 | `Exit` only issues the exit command; `None` does nothing |
| MultiWindowsProps.DuplicateKindDropped | src/widget/multi_windows.rs:190-197 | a request whose type tag a live window carries changes nothing and issues nothing |
| MultiWindowsProps.AcceptedRequestOpensOne | src/widget/multi_windows.rs:198-226 | an accepted request adds exactly one window under the fresh id, with the request's parent, tag, data and hook, the root icon when the kind has none, and one open command |
| MultiWindowsProps.OpenRequestAccepted | src/widget/multi_windows.rs:198-226 | the new map is the old one plus the materialized window, with the same command |
| MultiWindowsProps.MaterializeFields | src/widget/multi_windows.rs:199-212 | the stored window takes parent, tag and hook from the request and inherits the root icon only when its own settings have none |
| MultiWindowsProps.AcceptedRequestLinksParent | src/widget/multi_windows.rs:214-222 | the live parent's child becomes the new window; no other window and no global changes |
| MultiWindowsProps.RequestOpensOnce | src/widget/multi_windows.rs:190-197 | the same request a second time is dropped |
| MultiWindowsProps.RootKindNotGuarded | src/widget/multi_windows.rs:41-57 | a second home window can be opened, since the root keeps the placeholder tag |
| MultiWindowsProps.ShownDialogInheritsRootIcon | src/widget/message_box.rs:73-79 | a dialog from `MessageBox::new(..).show(p)` opens under `p` with the root icon, the fixed title and a close hook |
| MultiWindowsProps.CloseAlwaysEmitsClose | src/widget/multi_windows.rs:80-107 | `Close` always ends with the close command for `id`, and `id` is gone afterwards |
| MultiWindowsProps.CloseWithoutHook | src/widget/multi_windows.rs:80-107 | without a live window, live parent and hook, `Close` is the teardown of `Closed` followed by the close command |
| MultiWindowsProps.SecondCloseIsInert | src/widget/multi_windows.rs:80-107 | a second `Close` of the same window changes nothing and only repeats the close command |
| MultiWindowsProps.DialogResultReachesParent | src/widget/multi_windows.rs:82-101 | the hook is given the parent's id, the result and the parent's data; its `TitleChanged(p, ..)` retitles the parent, which also forgets the dialog, and only the close command is issued |
| MultiWindowsProps.HookRunsBeforeTeardown | src/widget/multi_windows.rs:88-106 | the hook's answer is handled while the closing window is still live: a request for the closing window's own kind is dropped, so `Close` is only the teardown and the close command |
| MultiWindowsProps.TeardownFreesTheKind | src/widget/multi_windows.rs:132-137 | once the window is removed its kind is free and the same request would open a window, so the order of hook and teardown matters |
| MultiWindowsProps.DialogFlow | src/widget/message_box.rs:66-79 | end to end, a dialog's primary button hands its result to the `on_closed` hook, which retitles the parent, which forgets the dialog |
| MultiWindowsProps.ClosedRemovesWindow | src/widget/multi_windows.rs:116-144 | `Closed` removes the window and clears its parent's child link, and exits exactly when it was the last window |
| MultiWindowsProps.ClosedOfAbsentWindow | src/widget/multi_windows.rs:116-144 | `Closed` of an absent window changes nothing, and exits only when no window is left |
| MultiWindowsProps.CloseOfLastWindowTerminates | src/widget/multi_windows.rs:80-144 | closing the last window issues the exit command, then its close command |
| MultiWindowsProps.BroadcastKeepsAnswers | src/widget/multi_windows.rs:232-244 | the broadcast keeps the non-`None` replies in ascending id order, each computed from the window's own data |
| MultiWindowsProps.WindowMessageIsBroadcast | src/widget/multi_windows.rs:232-244 | a window message updates every window once, then handles the non-`None` replies as one derived batch |
| MultiWindowsProps.AddOneIncrementsEverySetWindow | examples/multi_windows/src/pages/set.rs:40-54 | broadcasting `AddOne` increments every set window, changes no other window and issues nothing |
| MultiWindowsProps.BroadcastWithOneAnswer | src/widget/multi_windows.rs:232-244 | a broadcast with one answer and no data change is handling that answer |
| MultiWindowsProps.RootAsksForSetWindow | examples/multi_windows/src/pages/home.rs:40-56 | the home root answers `OpenSubWindow` with a request for a fresh set page under itself |
| MultiWindowsProps.HomeOpensSetWindow | examples/multi_windows/src/pages/home.rs:46-50 | that broadcast opens the set window as window 1, the root's child, with counter 0 |
| MultiWindowsProps.SetWindowBlocksSecondOpen | src/widget/multi_windows.rs:190-197 | with the home window and a live set window, broadcasting `OpenSubWindow` changes nothing and issues nothing |
| MultiWindowsProps.SetWindowOpensOnce | src/widget/multi_windows.rs:190-197 | a second `OpenSubWindow` while the set window is open changes nothing |
| MultiWindowsProps.BatchIsSequential | src/widget/multi_windows.rs:245-251 | a batch of `a + b` is `a`, then `b` from where `a` left off, with the commands concatenated |
| MultiWindowsProps.SingletonBatch | src/widget/multi_windows.rs:245-251 | a one-message batch is that message |
| MultiWindowsProps.NotificationsAreInert | src/widget/multi_windows.rs:108-184 | `Opened`, `Moved`, `Resized`, `Focused` and `Unfocused` change nothing and issue nothing |
| MultiWindowsProps.CloseRequestOfAbsentWindowIgnored | src/widget/multi_windows.rs:161-168 | a close request for an absent window is ignored |
| MultiWindowsProps.CloseRequestOnHomeExits | examples/multi_windows/src/pages/home.rs:59-61 | a close request to the home window only exits |
| MultiWindowsProps.CloseRequestOnOtherPageCloses | src/core.rs:105-107 | a close request to any other kind is handled as `Close(id, DialogResult::None)` |
| Pages.Update | src/core.rs:63-77 | a window's update keeps its kind |
| Pages.NewWindowLeavesDefaults | src/core.rs:159-176 | every kind's window record has no parent, child or hook, carries the placeholder tag and a copy of the data |
| Pages.NotificationHooksReturnNone | src/core.rs:78-147 | the default notification hooks answer `Message::None` for every kind |
| Pages.CloseRequestAnswers | src/core.rs:105-107 | the home page exits on a close request; the other kinds ask to close with `DialogResult::None` |
| Pages.UpdateIgnoresForeignPayloads | examples/multi_windows/src/pages/set.rs:40-54 | a window keeps its data and answers `None` for payloads that are not its own |
| HomePage.NewWindow | examples/multi_windows/src/pages/home.rs:23-38 | the home window: "Main Window", its settings, no parent, child or hook |
| HomePage.Update | examples/multi_windows/src/pages/home.rs:40-56 | `OpenSubWindow` asks to open a default set page under this window; every other payload answers `None` |
| HomePage.OnCloseRequest | examples/multi_windows/src/pages/home.rs:59-61 | a close request of the main window exits |
| SetPage.Default | examples/multi_windows/src/pages/set.rs:17-21 | a new set page's counter is 0 |
| SetPage.Increment | examples/multi_windows/src/pages/set.rs:46-48 | `value += 1` on `i32`, wrapping from the maximum to the minimum |
| SetPage.NewWindow | examples/multi_windows/src/pages/set.rs:25-37 | the set window: "Set Window", a copy of the counter, its settings, no parent, child or hook |
| SetPage.Update | examples/multi_windows/src/pages/set.rs:40-54 | `AddOne` increments the counter, every other payload leaves it |
| MessageBoxDialog.NewButton | src/widget/inner_message_box/message_box_button.rs:20-41 | a new button is visible, captioned, without icon and without a dialog result |
| MessageBoxDialog.Default | src/widget/inner_message_box/message_box_window.rs:24-42 | the default dialog's primary button answers Ok and its secondary Cancel, both shown; its settings carry no icon |
| MessageBoxDialog.NewWindow | src/widget/inner_message_box/message_box_window.rs:45-52 | the dialog window always has the fixed title, a copy of the data, the dialog's own settings, no parent, child or hook |
| MessageBoxDialog.PrimaryPressed | src/widget/inner_message_box/message_box_window.rs:55-84 | the primary button exists exactly while it is visible and sends `Close(id, primary.message)` |
| MessageBoxDialog.SecondaryPressed | src/widget/inner_message_box/message_box_window.rs:55-84 | the secondary button exists exactly while it is visible and sends `Close(id, secondary.message)` |
| MessageBoxBuilder.New | src/widget/message_box.rs:22-31 | the default dialog with the given title and content and no hook |
| MessageBoxBuilder.Size | src/widget/message_box.rs:34-37 | only the dialog window's size changes |
| MessageBoxBuilder.PrimaryButton | src/widget/message_box.rs:41-44 | only the primary button is replaced |
| MessageBoxBuilder.SecondaryButton | src/widget/message_box.rs:48-51 | only the secondary button is replaced |
| MessageBoxBuilder.HidePrimaryButton | src/widget/message_box.rs:54-57 | only the primary button's visibility changes, to hidden |
| MessageBoxBuilder.HideSecondaryButton | src/widget/message_box.rs:60-63 | only the secondary button's visibility changes, to hidden |
| MessageBoxBuilder.OnClosed | src/widget/message_box.rs:66-69 | the hook is set and the dialog data untouched |
| MessageBoxBuilder.Show | src/widget/message_box.rs:73-79 | always a dialog request under `id` with a hook: the given one, or one that answers `None` |
| MessageBoxBuilder.HideIdempotent | src/widget/message_box.rs:54-63 | hiding a button twice is hiding it once |
| MessageBoxBuilder.SettersCommute | src/widget/message_box.rs:34-69 | setters of different fields commute |
| MessageBoxBuilder.OnClosedReachesShow | src/widget/message_box.rs:66-79 | after `on_closed(cb)`, `show` passes exactly `cb`, whatever setters follow |
| Core.WindowCloseCallbackData.GetWindowData | src/core.rs:244-253 | the parent's data comes back exactly when it is of the asked kind |
| Core.NewWindowMsg | src/core.rs:347-352 | a request to open the data under window `id`, tagged with its kind, without hook |
| Core.ShowDialog | src/core.rs:359-376 | a request to open the data under window `id`, tagged with its kind, with the given hook |
| Core.Events | src/core.rs:313-320 | a batch of the events, one message each, in order |
| Core.WindowMessages | src/core.rs:331-341 | a batch of window messages, one per payload, in order, each tagged with its payload's type |
| TableExample.Example.constructor | examples/table/src/main.rs:17-38 | the eight default people, the index, name and age columns at widths 80, 200 and 120, no selection |
| TableExample.Example.Update | examples/table/src/main.rs:142-186 | the new fields are `Apply` of the old ones and the message, for every message the source handles without panicking, including an unparseable age under any selection |
| TableExample.Example.ChangeColWidth | examples/table/src/main.rs:155-160 | the search loop sets the width of the first head with that name and nothing else |
| TableExample.Removed | examples/table/src/main.rs:148 | `Vec::remove`: one element shorter, elements after `i` shift down |
| TableExample.Inserted | examples/table/src/main.rs:149 | `Vec::insert`: one element longer, the new element at `i`, elements from `i` on shift up |
| TableExample.MovedIsPermutation | examples/table/src/main.rs:147-154 | a move keeps length and multiset, puts the moved element at `dst` and keeps the others' order |
| TableExample.MoveBackRestores | examples/table/src/main.rs:147-154 | moving back from `dst` to `src` restores the list |
| TableExample.FirstNamed | examples/table/src/main.rs:156 | the first index whose head has the name, or none when no head has it |
| TableExample.WidthChangesFirstMatchOnly | examples/table/src/main.rs:155-160 | only the first head with that name changes, only in width; with no match nothing changes |
| TableExample.DecimalValue | examples/table/src/main.rs:117 | the decimal spelling of `n` has value `n` |
| TableExample.ParseDecimalRoundTrip | examples/table/src/main.rs:176-184 | the shown age parses back to the age, also with a leading `+` |
| TableExample.ParseRejectsSignAndOverflow | examples/table/src/main.rs:176-184 | a `-` sign, a lone `+` and values past `u32::MAX` do not parse |
| TableExample.RowSelectedSelects | examples/table/src/main.rs:144-146 | the selection becomes the row; nothing else changes |
| TableExample.RowMovedPermutesRows | examples/table/src/main.rs:147-150 | the rows are permuted with the moved row at `dst` and the others in order; columns and selected index stay |
| TableExample.ColMovedPermutesColumns | examples/table/src/main.rs:151-154 | the same permutation for the columns; rows and selection stay |
| TableExample.RowMoveUndone | examples/table/src/main.rs:147-150 | moving a row back restores the whole state |
| TableExample.AddAppendsDefaultRow | examples/table/src/main.rs:161-163 | one default person (empty name, age 0) is appended; nothing else changes |
| TableExample.DeleteRemovesRow | examples/table/src/main.rs:164-170 | row `i` is removed; the selection becomes `None` exactly when `i` is past the new end, that is when the last row went, and stays otherwise |
| TableExample.NameChangedRenamesSelected | examples/table/src/main.rs:171-175 | only the selected row's name changes; without a selection nothing changes |
| TableExample.AgeChangedSetsSelectedAge | examples/table/src/main.rs:176-184 | empty input sets 0 and a valid number sets it on the selected row; other input changes nothing under any selection, even one past the end; other rows stay; without a selection nothing changes |
| TableExample.AgeShownIsKept | examples/table/src/main.rs:117-184 | re-entering the age the field shows changes nothing |
| TableExample.ViewKeepsSelectionInRange | examples/table/src/main.rs:70-140 | every message the view sends is handled without panicking and keeps the selection on an existing row |
| TableExample.DeleteCanStrandSelection | examples/table/src/main.rs:164-170 | deleting a row other than the selected one can leave the selection past the end |
| TableExample.UnparsedAgeIgnoresStrandedSelection | examples/table/src/main.rs:176-184 | with the selection past the end, an age text that does not parse is accepted and changes nothing |

## Left out

- `Program::view`, `theme`, `scale_factor`, `subscription` and `run` are left out. They are rendering, the modal overlay, the adapter for the host event stream, and daemon setup. Host events enter the model as `EventMessage`s.
- `Task` is not modelled as asynchronous. Each message yields a flat, ordered list of commands. `window::open` is modelled by the counter `nextId`, and the new window is stored under that id at once.
- The `unsafe` raw-pointer transfer of close hooks, and its leak when a request is dropped, are left out. A hook is a plain function value.
- `TypeId` and downcasting are replaced by explicit tags compared by equality. `EmptyWindowData` is not a window kind: only its tag `EmptyWindowTag` survives, in the window records pages build.
- Floats (scale, positions and sizes, widths, button text size) are carried as `real` values and never computed with.
- The builder of `iced::window::Settings` is reduced to the fields these windows set. `DefaultSettings` takes iced's default values for them.
- MultiWindows.Program.Update: derived messages (hook answers and broadcast replies) are bounded by `fuel`, and one that arrives without fuel is dropped. The source recurses without a bound, so a hook that answers forever is not modelled.
- SetPage.Increment: models the two's-complement wrap of release builds. A debug build panics instead of wrapping.
- SetPage.Update: returns the new counter value instead of mutating the page in place. The engine stores it back into the window record.
- TableExample.Example.Update: the panicking cases of the source become the precondition `Accepts`. These are out-of-range or negative moved and deleted indices, and, while the selection is past the end, `NameChanged` and an `AgeChanged` whose text is empty or parses as a `u32`. An `AgeChanged` with other text writes no row, so it is accepted under any selection and changes nothing.
- src/widget/table.rs is left out: column geometry, scrollbars, press timing and hit-testing are display code and floating point. Only `TableHead`, `table_head`, `table_index` and `width` are modelled.
- macro/src/lib.rs (the `TableRow` derive macro), src/widget/char_icon.rs, `to_button`, src/lib.rs and src/widget/inner_message_box/mod.rs are left out. They are code generation, fonts and re-exports.
