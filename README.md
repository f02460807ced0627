# Overlay diacritic composer: interception and composition state machine

This project models the core of OverlayApp, a Windows tray tool. A process-wide
low-level keyboard hook watches for the chord Ctrl+Alt+A. Pressing the chord shows a
radial overlay of nine wedges. Clicking a wedge records a slice index. Releasing A (a key-up
reported as WM_KEYUP) hides the overlay and, when a slice was chosen, installs a one-shot capture hook. The capture
hook swallows the next letter key-down and injects the letter composed with the slice's
diacritical mark (or, for the stroke slice, "đ"/"Đ").

Modules:

- `Slices` holds the overlay's constant tables (`sliceLabels`, `sliceOutputs`,
  `sliceCount`) and the index a click records.
- `Composition` holds the composed-text function. It also has a `Decompose` reading of
  injected text over the same table, and the round trip between the two.
- `Machine` gives every step of the state machine as a pure function over a `State`
  value. The steps are the main hook callback, the UI actions `ShowOverlay` and
  `HideOverlay`, the capture hook callback, the overlay click and closing the main form.
  `State` includes the operating system's table of live hook handles, so installs,
  removals and leaks can be stated. `Valid` is the invariant every step keeps.
- `Traces` covers sequences of events. It proves edge-triggering, at-most-once capture
  and readability of everything injected, plus two concrete sessions.
- `Coordinator` is the imperative form. `HookTable` stands for the operating system's
  hook registry. `Composer` holds Form1's fields together with the static
  `OverlayForm.SelectedDiacriticalIndex`. Each method is proved to perform the matching
  `Machine` step and to keep `Valid`.

Behaviour of the code worth knowing, modelled as written:

- The chord test only checks that Ctrl and Alt are held. Shift is never read, so the
  chord also fires with Shift held.
- A key-up of A reported as WM_KEYUP ends the chord whatever Ctrl and Alt read. Both
  hooks ignore WM_SYSKEYDOWN and WM_SYSKEYUP, which Windows sends for keys pressed or
  released while Alt is held without Ctrl. So releasing Ctrl before A leaves the chord
  latched, and a letter typed with Alt alone held passes the capture hook untouched
  (`Machine.SysKeyMessagesIgnored`).
- The base character is `(char)vkCode`. So it is always the upper-case ASCII letter of
  the key, regardless of Shift or keyboard layout. Pressing E after choosing the acute
  slice injects "E" followed by U+0301, not "e" followed by U+0301. `ToUnicode` is
  declared but never called.
- `HideOverlay` stores a newly installed capture handle over any capture handle already
  armed. Suppose the chord is pressed again before the UI thread has run the queued
  `HideOverlay`, and A is released before any letter key-down reaches the capture hook
  that `HideOverlay` then arms. The second release arms a second capture hook, and the
  first stays installed with nothing left to remove it
  (`Machine.HideLeaksArmedCapture`, `Traces.LeakScenario`).
- Closing the main form removes only the main hook. A capture hook still armed stays
  installed.
- The painted labels and the outputs are declared in different orders. They disagree at
  every index (`Slices.LabelsDisagreeWithOutputs`). The stroke label is at 8; the stroke
  output is at 2.

## Model

| member | source | states |
|---|---|---|
| `Slices.SliceLabels` | OverlayApp/OverlayForm.cs:10-13 | the label table has one entry per slice (9), and the stroke glyph sits at index 8 |
| `Slices.SliceOutputs` | OverlayApp/OverlayForm.cs:14-27 | the output table has exactly `sliceCount` = 9 entries; entry 2 is the stroke marker U+0111 and is not a combining mark; every other entry is one code point in the Combining Diacritical Marks block U+0300–U+036F |
| `Slices.ClickedSlice` | OverlayApp/OverlayForm.cs:134 | the stored `slice % sliceLabels.Length` always lies in [0, 9), equals the wedge number when that is already in range, and differs from it by a multiple of 9 |
| `Slices.SliceOutputsDistinct` | OverlayApp/OverlayForm.cs:15-26 | no two slices have the same output entry |
| `Slices.LabelsDisagreeWithOutputs` | OverlayApp/OverlayForm.cs:10-26 | at no index does the painted label equal that slice's output |
| `Composition.KeyChar` | OverlayApp/Form1.cs:198 | `(char)vkCode` of a letter key is the upper-case ASCII letter whose code is the key code |
| `Composition.TableOrEmpty` | OverlayApp/Form1.cs:180-184 | a table the lookup cannot find is treated as the empty table |
| `Composition.Compose` | OverlayApp/Form1.cs:179-200 | the text is empty exactly when the slice is not the stroke slice and lies beyond the table. The stroke slice with D gives "Đ" with Shift and "đ" without. The stroke slice with any other letter gives that letter alone. Any other slice gives the letter followed by the slice's table entry |
| `Composition.DecomposeCompose` | OverlayApp/Form1.cs:186-199 | with the overlay's table, reading the composed text back recovers the intended pair: the letter and the slice, or the stroke case and its Shift state, or the bare letter |
| `Composition.ComposeSeparatesSlices` | OverlayApp/Form1.cs:186-199 | for a given key, two slices in range that inject the same text are the same slice |
| `Composition.ShiftOnlyMattersForStroke` | OverlayApp/Form1.cs:186-199 | Shift changes the composed text if and only if the slice is the stroke slice and the key is D |
| `Machine.Start` | OverlayApp/Form1.cs:31-38 | the form starts with the hotkey up, nothing queued, no overlay, no selection, no capture hook and nothing sent. The main hook gets a fresh handle when the system grants it and 0 otherwise |
| `Machine.MainKey` | OverlayApp/Form1.cs:68-102 | the main hook always forwards and changes only `isHotkeyDown` and the UI queue. Any event that is neither the chord press edge nor the A release edge leaves the state unchanged. It queues `ShowOverlay` if and only if: a key-down with nCode >= 0, the hotkey was up, Ctrl and Alt are held, and the key is A. It queues `HideOverlay` if and only if: a key-up with nCode >= 0, the hotkey was down, and the key is A. The flag flips exactly when something is queued. nCode < 0 changes nothing |
| `Machine.Show` | OverlayApp/Form1.cs:121-131 | after ShowOverlay an overlay exists and is visible; nothing else changes |
| `Machine.Hide` | OverlayApp/Form1.cs:134-148 | HideOverlay hides an existing overlay. A capture hook is armed only when a selection exists: the guard is cleared and a fresh handle is installed (0 if refused). With no selection, only the overlay changes. A capture handle already installed stays installed |
| `Machine.RunPendingUi` | OverlayApp/Form1.cs:86-95 | a UI turn dequeues the oldest queued action and performs it; with nothing queued it changes nothing |
| `Machine.CaptureKey` | OverlayApp/Form1.cs:151-211 | the capture hook consumes if and only if the guard is clear and the event is a letter key-down with nCode >= 0; everything it forwards leaves the state unchanged. On consuming it sets the guard, unhooks its handle and zeroes it, appends the composed text for a present selection to what was sent, and clears the selection; nothing else changes |
| `Machine.Click` | OverlayApp/OverlayForm.cs:116-138 | a click inside the ring stores the reduced slice and closes (disposes) the overlay; a click outside changes nothing |
| `Machine.Close` | OverlayApp/Form1.cs:214-218 | closing the form removes the main hook from the live set and changes nothing else; an installed capture hook stays installed |
| `Machine.StartValid` | OverlayApp/Form1.cs:31-38 | the state after the constructor satisfies the invariant |
| `Machine.MainKeyValid` | OverlayApp/Form1.cs:68-102 | the main hook keeps the invariant |
| `Machine.RunPendingUiValid` | OverlayApp/Form1.cs:121-148 | running a queued Show or Hide keeps the invariant: a capture handle in the field is installed, differs from the main hook and belongs to a pending selection |
| `Machine.CaptureKeyValid` | OverlayApp/Form1.cs:151-211 | the capture hook keeps the invariant, including "once handled, the hook has been removed" |
| `Machine.ClickValid` | OverlayApp/OverlayForm.cs:131-137 | a click keeps the invariant: the selection is always a slice index below 9 |
| `Machine.CloseValid` | OverlayApp/Form1.cs:214-218 | closing keeps the invariant |
| `Machine.SysKeyMessagesIgnored` | OverlayApp/Form1.cs:80-96 | a WM_SYSKEYDOWN or WM_SYSKEYUP message changes nothing in the main hook, even a release of A while the hotkey is down, and the capture hook forwards it without consuming |
| `Machine.HideLeaksArmedCapture` | OverlayApp/Form1.cs:141-147 | when a capture hook is armed and HideOverlay installs another, the old handle stays live and is named by neither hook field |
| `Traces.RunReadable` | OverlayApp/Form1.cs:151-211 | over any sequence of events the invariant holds and every injected text reads back as a letter with one of the table's marks, a stroke glyph, or a bare letter |
| `Traces.HeldChordShowsOnce` | OverlayApp/Form1.cs:80-87 | holding the chord for any number n >= 1 of key-downs sets the flag and queues exactly one ShowOverlay |
| `Traces.ReleaseHidesOnce` | OverlayApp/Form1.cs:89-96 | releasing A n >= 1 times while the hotkey is down, with any modifiers, clears the flag and queues exactly one HideOverlay |
| `Traces.HandledCaptureIsInert` | OverlayApp/Form1.cs:153-154 | once the guard is set, any number of capture-hook calls leave the state unchanged |
| `Traces.CaptureSendsAtMostOnce` | OverlayApp/Form1.cs:153-206 | any run of capture-hook calls injects at most one text |
| `Traces.AcuteScenario` | OverlayApp/Form1.cs:68-211 | chord down, show, click the acute slice, chord up, hide, press E: exactly "E" + U+0301 is sent, the capture hook is gone, the selection is cleared |
| `Traces.LeakScenario` | OverlayApp/Form1.cs:134-148 | pressing the chord again before the queued HideOverlay runs, and releasing A before any letter key-down reaches the capture hook that HideOverlay arms, leaves two capture hooks installed; closing the form afterwards leaves both |
| `Coordinator.HookTable.Install` | OverlayApp/Form1.cs:58-65 | installing yields a handle not live before and adds it, or 0 when refused |
| `Coordinator.HookTable.Uninstall` | OverlayApp/Form1.cs:168-172 | unhooking removes the handle; unhooking one that is not live changes nothing |
| `Coordinator.Composer.constructor` | OverlayApp/Form1.cs:31-38 | the new form's state is `Machine.Start` over the hook table it found, and satisfies the invariant |
| `Coordinator.Composer.MainKey` | OverlayApp/Form1.cs:68-102 | performs `Machine.MainKey` on the fields, keeps the invariant and returns Forwarded |
| `Coordinator.Composer.Show` | OverlayApp/Form1.cs:121-131 | performs `Machine.Show` on the fields and keeps the invariant |
| `Coordinator.Composer.Hide` | OverlayApp/Form1.cs:134-148 | performs `Machine.Hide` on the fields and the hook table and keeps the invariant |
| `Coordinator.Composer.RunPendingUi` | OverlayApp/Form1.cs:86-95 | performs `Machine.RunPendingUi` and keeps the invariant |
| `Coordinator.Composer.CaptureKey` | OverlayApp/Form1.cs:151-211 | performs `Machine.CaptureKey` on the fields and the hook table, keeps the invariant and returns its verdict |
| `Coordinator.Composer.Click` | OverlayApp/OverlayForm.cs:116-138 | performs `Machine.Click` and keeps the invariant |
| `Coordinator.AcuteSession` | OverlayApp/Form1.cs:68-211 | the object-level counterpart of `Traces.AcuteScenario`: driving a `Composer` through chord down, show, click the acute slice, chord up, hide, E, then F leaves exactly "E" + U+0301 sent |
| `Coordinator.Composer.Close` | OverlayApp/Form1.cs:214-218 | performs `Machine.Close` (unhook the main handle only) and keeps the invariant |

## Left out

- Win32 hook calls (`SetWindowsHookEx`, `UnhookWindowsHookEx`, `CallNextHookEx`, `GetModuleHandle`, `Marshal.ReadInt32`) are foreign calls. They become the `HookTable` handle set. Whether the system grants a hook is an input. The key code, `wParam` and `nCode` are inputs. "Forwarded" stands for the next hook's result, whose value is not modelled.
- The order in which the operating system runs the hooks in its chain is not modelled. Each hook call is an event applied to the state as given. Capture-hook calls are accepted even when no capture hook is installed, which over-approximates what the system delivers.
- `BeginInvoke` cross-thread dispatch is modelled as a sequential queue drained one action per UI turn. Races between the hook thread and the UI thread are not modelled.
- `SendKeys.SendWait` is modelled as appending to a log of sent texts. Its escaping of `+^%~{}` and its keystroke synthesis are operating-system output.
- The reflective lookup of `sliceOutputs` is modelled as an optional table passed in, with the empty-table fallback kept. The exception `GetValue` would raise without an overlay instance is not modelled.
- `Control.ModifierKeys` is read as three booleans (Ctrl, Alt, Shift) given with each event.
- The message kind `msg` is a free input, not tied to the modifier booleans: the model does not encode which message Windows chooses (WM_KEYDOWN/WM_KEYUP or WM_SYSKEYDOWN/WM_SYSKEYUP) for a given modifier state.
- Painting, window region, cursor positioning and the `atan2`/`sqrt` hit-test are floating-point UI code. The click's wedge number (non-negative, as the hit-test produces it) and whether it falls inside the ring are inputs.
- The overlay form object is reduced to "exists (not null and not disposed)" and "visible".
- `Console.WriteLine` calls and the unused `ToUnicode`, `GetKeyboardState` and `MapVirtualKey` imports are left out.
- OverlayApp/UserSettings.cs is JSON file I/O that Form1 never reads; the chord is the constant Ctrl+Alt+A.
- Composition.Compose: requires a key code in A..Z, because the capture hook only reaches the composition for those keys; `(char)vkCode` of other codes is not modelled.
