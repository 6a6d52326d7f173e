# ToDoWin: the round-robin commit and the change-guarded property

ToDoWin is a slim, always-on-top Windows sidebar. When the pointer hovers over it, it widens to show four text slots and an input box. Each time the user presses Enter in the input box, the typed text goes into one of the four slots. The slots are filled in turn, and after the fourth the window starts again at the first. The window also exposes a `DynamicText` property that raises a `PropertyChanged` notification only when its value actually changes.

This project models those two behaviours of `MainWindow` and proves their properties:

- `slots.dfy`, module `Slots`, states the window's state as a value. A `Panel` holds the four slot texts, the cursor and the input text. `KeyDown` is the key handler. `CommitAll` is a run of commits: each one types a text and then presses Enter. The lemmas say where every committed text ends up, and where the cursor ends up, after any number of commits.
- `notify.dfy`, module `Notify`, states the `DynamicText` setter as a value. `Assign` covers one assignment and `AssignAll` a series of them. The series lemma proves that each assignment that changes the value raises exactly one notification, and each other assignment raises none.
- `main_window.dfy`, module `ToDoWin`, models the window as a class whose fields are updated in place:
  - `textBoxes` is an array of the four slot texts;
  - `currentTextBlock` is the cursor;
  - `inputText` is the input box text;
  - `dynamicText` is the property value, where `None` stands for C#'s `null`;
  - `raised` is a ghost log of the notifications raised so far.

  Each method is proved against the matching value-level function: `InputTextBoxKeyDown` against `Slots.KeyDown`, and `SetDynamicText` against `Notify.Assign`.

The model represents the WPF `TextBox` controls by their text, as plain strings. The object invariant `Valid()` says there are four slots and the cursor lies in `[0, 4)`. The handler computes the next cursor as `(currentTextBlock + 1) % textBoxes.Length`, as the source computes it with `textBoxes.Count`.

Some descriptions of this program say it saves the four slots to `savedTexts.txt` on every commit and reloads them at start-up. `MainWindow.xaml.cs` contains no such code. The model follows the code, so it has no persistence.

## Model

| member | source | states |
|---|---|---|
| `Slots.Initial` | ToDoWin/MainWindow.xaml.cs:18 | A new window has four slots and its cursor at 0. |
| `Slots.KeyDown` | ToDoWin/MainWindow.xaml.cs:76-84 | On Enter, the slot under the old cursor receives the input text. Every other slot keeps its text. The cursor moves to the next slot and wraps from 3 back to 0. The input becomes empty. On any other key, the state is unchanged. Slot count 4 and a cursor below 4 are preserved. |
| `Slots.CommitAll` | ToDoWin/MainWindow.xaml.cs:81 | However many commits happen, there are still four slots and the cursor stays in `[0, 4)`. |
| `Slots.CommitAllCursor` | ToDoWin/MainWindow.xaml.cs:81-82 | After n commits the cursor is `(start + n) mod 4`, so from a new window it is `n mod 4`. After at least one commit the input is empty. |
| `Slots.CommitAllUntouched` | ToDoWin/MainWindow.xaml.cs:80 | A slot that no commit targets keeps its original text. |
| `Slots.CommitAllLatest` | ToDoWin/MainWindow.xaml.cs:80-81 | A slot holds the text of the last commit that targeted it. Commit number `j` targets slot `(start + j) mod 4`. |
| `Slots.CommitAllKeepsRecent` | ToDoWin/MainWindow.xaml.cs:80-81 | Each of the last four commits is still visible in the slot it targeted. |
| `Slots.FewCommitsFillInOrder` | ToDoWin/MainWindow.xaml.cs:80-81 | From cursor 0, up to four commits fill slots 0, 1, … in commit order. The remaining slots keep their text. |
| `Slots.WrapAroundAfterFive` | ToDoWin/MainWindow.xaml.cs:80-82 | Committing a, b, c, d, e into four empty slots gives `[e, b, c, d]` with the cursor at 1. |
| `Notify.Assign` | ToDoWin/MainWindow.xaml.cs:24-31 | After an assignment the new value is stored. The state is unchanged exactly when the value equals the stored one. Otherwise exactly one `"DynamicText"` notification is added to the log. |
| `Notify.AssignAllRaisesPerChange` | ToDoWin/MainWindow.xaml.cs:26-29 | Over any series of assignments, the log grows by one `"DynamicText"` notification per assignment that changes the value. The last value assigned is the one stored. |
| `Notify.AssignTwiceIsAssignOnce` | ToDoWin/MainWindow.xaml.cs:26 | Assigning the same value twice in a row has the same effect as assigning it once. |
| `ToDoWin.MainWindow.constructor` | ToDoWin/MainWindow.xaml.cs:34-41 | A new window has its declared slot and input texts and its cursor at 0. `DynamicText` is set from `null` to the initial text, which raises exactly one notification. |
| `ToDoWin.MainWindow.GetDynamicText` | ToDoWin/MainWindow.xaml.cs:23 | The getter returns the stored value. |
| `ToDoWin.MainWindow.SetDynamicText` | ToDoWin/MainWindow.xaml.cs:24-31 | The new value and the notification log are what `Notify.Assign` gives for the old ones. |
| `ToDoWin.MainWindow.OnPropertyChanged` | ToDoWin/MainWindow.xaml.cs:71-74 | One notification carrying the given property name is added to the log. |
| `ToDoWin.MainWindow.InputTextBoxKeyDown` | ToDoWin/MainWindow.xaml.cs:76-84 | The handler updates the slot array, cursor and input in place, as `Slots.KeyDown` gives from the old state. It keeps the invariant: four slots and a cursor in `[0, 4)`. |
| `ToDoWin.WrapAroundScenario` | ToDoWin/MainWindow.xaml.cs:76-84 | Five Enter key-downs on a new window with empty slots, with inputs a to e, leave slots `[e, b, c, d]`, cursor 1 and an empty input. |

## Left out

- `SetStartup` (ToDoWin/MainWindow.xaml.cs:52-68) writes the autorun registry value and reports a failure in a message box. Both the registry and the message box are operating-system and UI calls.
- `MainWindow_Loaded`, `ExpandWindow`, `CollapseWindow` and `AnimateWidth` (ToDoWin/MainWindow.xaml.cs:86-113) set the window geometry and the hover width animation. They are floating-point values driven by WPF's animation timing.
- `InitializeComponent`, `DataContext`, the `Loaded` subscription and the window-style settings (ToDoWin/MainWindow.xaml.cs:36-47) are framework wiring with no logic to state. The XAML markup is not part of this model. It declares the initial slot and input texts, so the constructor takes them as parameters.
- The `PropertyChanged` event's subscribers are foreign callbacks. The ghost log records every call to `OnPropertyChanged`, whether or not a handler is attached. The `?.Invoke` null check therefore changes nothing in the model.
- Text typed into the input box is WPF `TextBox` editing. Clients assign `inputText` directly.
- WPF's `Key` enumeration is reduced to `Enter` and any other key.
- Saving the slots to `savedTexts.txt` and loading them back are not in this source file, so they are not modelled.
