/**
 * The interception and composition state machine of Form1 as pure steps over a state
 * value: the main hook callback, the two UI actions it schedules, the one-shot capture
 * hook callback, the overlay click that records a selection, and closing the main form.
 * The operating system's hook table is part of the state (the set of live handles and the
 * next handle it will give out), so that what is installed and what is leaked can be said.
 */
module Machine {
  import opened Wrappers
  import opened Slices
  import opened Composition

  /** `wParam` values the hooks compare against: WM_KEYDOWN and WM_KEYUP. */
  const WmKeyDown: int := 0x0100
  const WmKeyUp: int := 0x0101

  /** What Windows sends instead while Alt is held without Ctrl: WM_SYSKEYDOWN, WM_SYSKEYUP. */
  const WmSysKeyDown: int := 0x0104
  const WmSysKeyUp: int := 0x0105

  /** The hard-coded chord: Ctrl and Alt held, key A. */
  const HotkeyKey: int := VkA

  /** A UI-thread action queued with BeginInvoke. */
  datatype UiAction = ShowOverlay | HideOverlay

  /** What a hook callback returns: the next hook's result, or 1 to swallow the key. */
  datatype Verdict = Forwarded | Consumed

  datatype State = State(
    hotkeyDown: bool,            // isHotkeyDown
    pending: seq<UiAction>,      // BeginInvoke actions not yet run on the UI thread
    overlayExists: bool,         // overlay != null && !overlay.IsDisposed
    overlayVisible: bool,        // the overlay is shown
    selected: Option<nat>,       // OverlayForm.SelectedDiacriticalIndex
    mainHook: nat,               // _hookID (0 when installing it failed)
    captureHook: nat,            // _diacriticalHookID, 0 = none
    captureHandled: bool,        // _diacriticalHandled
    live: set<nat>,              // handles the operating system holds installed
    nextHandle: nat,             // the handle it gives out next
    sent: seq<string>)           // texts passed to SendKeys.SendWait, in order

  datatype Step = Step(next: State, verdict: Verdict)

  /**
   * The invariant every step keeps: handles are fresh when given out, a capture handle in
   * the field is installed and belongs to a pending selection, a handled capture has been
   * removed, the selection is a slice index, and a visible overlay exists.
   */
  ghost predicate Valid(s: State) {
    && 0 < s.nextHandle
    && 0 !in s.live
    && (forall h :: h in s.live ==> h < s.nextHandle)
    && s.mainHook < s.nextHandle
    && s.captureHook < s.nextHandle
    && (s.captureHook != 0 ==> s.captureHook in s.live && s.captureHook != s.mainHook && s.selected.Some?)
    && (s.captureHandled ==> s.captureHook == 0)
    && (s.selected.Some? ==> s.selected.value < SliceCount)
    && (s.overlayVisible ==> s.overlayExists)
  }

  /**
   * The state after the Form1 constructor, given the hook table it finds (`live`, `next`)
   * and whether the operating system grants the main hook.
   */
  function Start(live: set<nat>, next: nat, granted: bool): (s: State)
    ensures granted ==> s.mainHook == next && s.live == live + {next} && s.nextHandle == next + 1
    ensures !granted ==> s.mainHook == 0 && s.live == live && s.nextHandle == next
    ensures !s.hotkeyDown && s.pending == [] && !s.overlayExists && !s.overlayVisible
    ensures s.selected == None && s.captureHook == 0 && !s.captureHandled && s.sent == []
  {
    State(false, [], false, false, None,
          if granted then next else 0, 0, false,
          if granted then live + {next} else live,
          if granted then next + 1 else next,
          [])
  }

  /** Main hook callback (HookCallback): an edge-triggered detector that never swallows a key. */
  function MainKey(s: State, nCode: int, msg: int, vk: int, ctrl: bool, alt: bool): (r: Step)
    ensures r.verdict == Forwarded
    ensures r.next.(hotkeyDown := s.hotkeyDown, pending := s.pending) == s
    ensures r.next.pending == s.pending + [ShowOverlay]
        <==> nCode >= 0 && msg == WmKeyDown && !s.hotkeyDown && ctrl && alt && vk == HotkeyKey
    ensures r.next.pending == s.pending + [HideOverlay]
        <==> nCode >= 0 && msg == WmKeyUp && s.hotkeyDown && vk == HotkeyKey
    ensures r.next.hotkeyDown != s.hotkeyDown <==> r.next.pending != s.pending
    ensures r.next.pending == s.pending ==> r.next == s
    ensures (!(nCode >= 0 && msg == WmKeyDown && !s.hotkeyDown && ctrl && alt && vk == HotkeyKey)
             && !(nCode >= 0 && msg == WmKeyUp && s.hotkeyDown && vk == HotkeyKey))
        ==> r.next == s
    ensures nCode < 0 ==> r.next == s
  {
    if nCode >= 0 && msg == WmKeyDown && !s.hotkeyDown && ctrl && alt && vk == HotkeyKey then
      assert (s.pending + [ShowOverlay])[|s.pending|] != (s.pending + [HideOverlay])[|s.pending|];
      Step(s.(hotkeyDown := true, pending := s.pending + [ShowOverlay]), Forwarded)
    else if nCode >= 0 && msg == WmKeyUp && s.hotkeyDown && vk == HotkeyKey then
      assert (s.pending + [ShowOverlay])[|s.pending|] != (s.pending + [HideOverlay])[|s.pending|];
      Step(s.(hotkeyDown := false, pending := s.pending + [HideOverlay]), Forwarded)
    else
      Step(s, Forwarded)
  }

  /** ShowOverlay: create the overlay if there is none (or it was disposed), and show it. */
  function Show(s: State): (r: State)
    ensures r.overlayExists && r.overlayVisible
    ensures r.(overlayExists := s.overlayExists, overlayVisible := s.overlayVisible) == s
  {
    s.(overlayExists := true, overlayVisible := true)
  }

  /**
   * HideOverlay: hide the overlay, then, if a slice is selected, arm the capture hook by
   * clearing the guard and storing a newly installed handle over whatever was there.
   * `granted` is whether the operating system accepts the hook (0 comes back otherwise).
   */
  function Hide(s: State, granted: bool): (r: State)
    ensures r.overlayVisible == (s.overlayVisible && !s.overlayExists) && r.overlayExists == s.overlayExists
    ensures r.hotkeyDown == s.hotkeyDown && r.pending == s.pending && r.selected == s.selected
    ensures r.mainHook == s.mainHook && r.sent == s.sent
    ensures s.selected.None? ==> r.(overlayVisible := s.overlayVisible) == s
    ensures s.selected.Some? ==> !r.captureHandled
    ensures s.selected.Some? && granted ==>
      r.captureHook == s.nextHandle && r.live == s.live + {s.nextHandle} && r.nextHandle == s.nextHandle + 1
    ensures s.selected.Some? && !granted ==>
      r.captureHook == 0 && r.live == s.live && r.nextHandle == s.nextHandle
    ensures s.selected.Some? && s.captureHook in s.live ==> s.captureHook in r.live
  {
    var hidden := if s.overlayExists then s.(overlayVisible := false) else s;
    if hidden.selected.Some? then
      if granted then
        hidden.(captureHandled := false, captureHook := s.nextHandle,
                live := s.live + {s.nextHandle}, nextHandle := s.nextHandle + 1)
      else
        hidden.(captureHandled := false, captureHook := 0)
    else
      hidden
  }

  /** One turn of the UI thread: run the oldest queued action, if any. */
  function RunPendingUi(s: State, granted: bool): (r: State)
    ensures s.pending == [] ==> r == s
    ensures s.pending != [] ==> r.pending == s.pending[1..]
    ensures s.pending != [] && s.pending[0] == ShowOverlay ==> r == Show(s.(pending := s.pending[1..]))
    ensures s.pending != [] && s.pending[0] == HideOverlay ==> r == Hide(s.(pending := s.pending[1..]), granted)
  {
    if s.pending == [] then s
    else
      var rest := s.(pending := s.pending[1..]);
      match s.pending[0]
      case ShowOverlay => Show(rest)
      case HideOverlay => Hide(rest, granted)
  }

  /**
   * The capture hook callback (DiacriticalHookCallback). After the guard is set it passes
   * everything on; otherwise it swallows exactly a letter key-down with a non-negative
   * code, removing its own hook, sending the composed text for the selection and clearing
   * the selection. `table` is what the reflective lookup of the overlay's output table
   * yields.
   */
  function CaptureKey(s: State, nCode: int, msg: int, vk: int, shift: bool,
                      table: Option<seq<string>>): (r: Step)
    ensures r.verdict == Consumed <==> !s.captureHandled && nCode >= 0 && msg == WmKeyDown && IsLetterKey(vk)
    ensures r.verdict == Forwarded ==> r.next == s
    ensures r.verdict == Consumed ==>
      && r.next.captureHandled && r.next.captureHook == 0 && r.next.selected == None
      && r.next.live == (if s.captureHook != 0 then s.live - {s.captureHook} else s.live)
      && r.next.sent == s.sent + (if s.selected.Some? then [Compose(s.selected.value, vk, shift, table)] else [])
      && r.next.(captureHandled := s.captureHandled, captureHook := s.captureHook, selected := s.selected,
                 live := s.live, sent := s.sent) == s
  {
    if s.captureHandled then Step(s, Forwarded)
    else if nCode >= 0 && msg == WmKeyDown && IsLetterKey(vk) then
      var guarded := s.(captureHandled := true);
      var unhooked :=
        if guarded.captureHook != 0
        then guarded.(live := guarded.live - {guarded.captureHook}, captureHook := 0)
        else guarded;
      var emitted :=
        if unhooked.selected.Some?
        then unhooked.(sent := unhooked.sent + [Compose(unhooked.selected.value, vk, shift, table)])
        else unhooked;
      Step(emitted.(selected := None), Consumed)
    else Step(s, Forwarded)
  }

  /**
   * A click on the overlay (OverlayForm_MouseClick) at wedge `slice`; `insideRing` is the
   * outcome of the ring hit-test. Inside the ring it records the slice and closes (and so
   * disposes) the overlay; elsewhere nothing changes.
   */
  function Click(s: State, slice: nat, insideRing: bool): (r: State)
    ensures insideRing ==> r.selected == Some(ClickedSlice(slice)) && !r.overlayExists && !r.overlayVisible
    ensures insideRing ==>
      r.(selected := s.selected, overlayExists := s.overlayExists, overlayVisible := s.overlayVisible) == s
    ensures !insideRing ==> r == s
  {
    if insideRing then s.(selected := Some(ClickedSlice(slice)), overlayExists := false, overlayVisible := false)
    else s
  }

  /** OnFormClosed: remove the main hook and nothing else; a capture hook stays installed. */
  function Close(s: State): (r: State)
    ensures r.live == s.live - {s.mainHook}
    ensures r.(live := s.live) == s
    ensures s.captureHook in s.live && s.captureHook != s.mainHook ==> r.captureHook in r.live
  {
    s.(live := s.live - {s.mainHook})
  }

  lemma StartValid(live: set<nat>, next: nat, granted: bool)
    requires 0 < next && 0 !in live && forall h :: h in live ==> h < next
    ensures Valid(Start(live, next, granted))
  {
  }

  lemma MainKeyValid(s: State, nCode: int, msg: int, vk: int, ctrl: bool, alt: bool)
    requires Valid(s)
    ensures Valid(MainKey(s, nCode, msg, vk, ctrl, alt).next)
  {
  }

  lemma RunPendingUiValid(s: State, granted: bool)
    requires Valid(s)
    ensures Valid(RunPendingUi(s, granted))
  {
  }

  lemma CaptureKeyValid(s: State, nCode: int, msg: int, vk: int, shift: bool, table: Option<seq<string>>)
    requires Valid(s)
    ensures Valid(CaptureKey(s, nCode, msg, vk, shift, table).next)
  {
  }

  lemma ClickValid(s: State, slice: nat, insideRing: bool)
    requires Valid(s)
    ensures Valid(Click(s, slice, insideRing))
  {
  }

  lemma CloseValid(s: State)
    requires Valid(s)
    ensures Valid(Close(s))
  {
  }

  /**
   * Neither hook matches the system-key messages: releasing A reported as WM_SYSKEYUP
   * leaves the chord latched, and the capture hook passes a WM_SYSKEYDOWN letter on.
   */
  lemma SysKeyMessagesIgnored(s: State, nCode: int, vk: int, ctrl: bool, alt: bool, shift: bool,
                              table: Option<seq<string>>)
    ensures MainKey(s, nCode, WmSysKeyDown, vk, ctrl, alt).next == s
    ensures MainKey(s, nCode, WmSysKeyUp, vk, ctrl, alt).next == s
    ensures CaptureKey(s, nCode, WmSysKeyDown, vk, shift, table) == Step(s, Forwarded)
    ensures CaptureKey(s, nCode, WmSysKeyUp, vk, shift, table) == Step(s, Forwarded)
  {
  }

  /**
   * HideOverlay does not check for an armed capture hook: with a selection still pending
   * and the operating system granting the new hook, the old handle stays installed while
   * the field now names another one, so nothing will ever remove it.
   */
  lemma HideLeaksArmedCapture(s: State)
    requires Valid(s) && s.captureHook != 0
    ensures var r := Hide(s, true);
      s.captureHook in r.live && s.captureHook != r.captureHook && s.captureHook != r.mainHook
  {
  }
}
