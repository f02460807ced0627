/**
 * Runs of the state machine: any interleaving of hook calls, UI-thread turns, overlay
 * clicks and closing the form, and what holds across them.
 */
module Traces {
  import opened Wrappers
  import opened Slices
  import opened Composition
  import opened Machine

  /** One thing that can happen to the application, in the order the model sees it. */
  datatype Event =
    | MainKeyEvent(nCode: int, msg: int, vk: int, ctrl: bool, alt: bool)
    | CaptureKeyEvent(nCode: int, msg: int, vk: int, shift: bool)
    | UiTurn(granted: bool)
    | ClickEvent(slice: nat, insideRing: bool)
    | CloseEvent

  /**
   * The effect of one event. The capture hook always finds the overlay's own output table,
   * since a selection can only come from a click on an existing overlay.
   */
  function Apply(s: State, e: Event): State {
    match e
    case MainKeyEvent(nCode, msg, vk, ctrl, alt) => MainKey(s, nCode, msg, vk, ctrl, alt).next
    case CaptureKeyEvent(nCode, msg, vk, shift) => CaptureKey(s, nCode, msg, vk, shift, Some(SliceOutputs())).next
    case UiTurn(granted) => RunPendingUi(s, granted)
    case ClickEvent(slice, insideRing) => Click(s, slice, insideRing)
    case CloseEvent => Close(s)
  }

  function Run(s: State, es: seq<Event>): State
    decreases |es|
  {
    if es == [] then s else Run(Apply(s, es[0]), es[1..])
  }

  function Repeat(e: Event, n: nat): (r: seq<Event>)
    ensures |r| == n
  {
    if n == 0 then [] else [e] + Repeat(e, n - 1)
  }

  /** Every text injected so far reads back as a composition over the overlay's table. */
  ghost predicate Readable(s: State) {
    Valid(s) && forall i :: 0 <= i < |s.sent| ==> Decompose(s.sent[i]) != Unreadable
  }

  lemma {:induction false} ApplyReadable(s: State, e: Event)
    requires Readable(s)
    ensures Readable(Apply(s, e))
  {
    match e
    case MainKeyEvent(nCode, msg, vk, ctrl, alt) =>
      MainKeyValid(s, nCode, msg, vk, ctrl, alt);
    case CaptureKeyEvent(nCode, msg, vk, shift) =>
      CaptureKeyValid(s, nCode, msg, vk, shift, Some(SliceOutputs()));
      var r := CaptureKey(s, nCode, msg, vk, shift, Some(SliceOutputs()));
      if r.verdict == Consumed && s.selected.Some? {
        DecomposeCompose(s.selected.value, vk, shift);
        assert r.next.sent == s.sent + [Compose(s.selected.value, vk, shift, Some(SliceOutputs()))];
      }
    case UiTurn(granted) =>
      RunPendingUiValid(s, granted);
    case ClickEvent(slice, insideRing) =>
      ClickValid(s, slice, insideRing);
    case CloseEvent =>
      CloseValid(s);
  }

  /**
   * Whatever happens, the invariant holds and the injected texts stay readable: no slice
   * index outside the table ever reaches the composer.
   */
  lemma {:induction false} RunReadable(s: State, es: seq<Event>)
    requires Readable(s)
    ensures Readable(Run(s, es))
    decreases |es|
  {
    if es != [] {
      ApplyReadable(s, es[0]);
      RunReadable(Apply(s, es[0]), es[1..]);
    }
  }

  /** Repeating an event that changes nothing changes nothing. */
  lemma {:induction false} RepeatFixpoint(s: State, e: Event, n: nat)
    requires Apply(s, e) == s
    ensures Run(s, Repeat(e, n)) == s
  {
    if n > 0 {
      assert Repeat(e, n)[0] == e;
      assert Repeat(e, n)[1..] == Repeat(e, n - 1);
      RepeatFixpoint(s, e, n - 1);
    }
  }

  /** Pressing the chord key: A down with Ctrl and Alt held. */
  const ChordDown: Event := MainKeyEvent(0, WmKeyDown, HotkeyKey, true, true)

  /**
   * Holding the chord (the first press and any number of auto-repeats) queues exactly one
   * ShowOverlay.
   */
  lemma HeldChordShowsOnce(s: State, n: nat)
    requires !s.hotkeyDown && n >= 1
    ensures Run(s, Repeat(ChordDown, n)) == s.(hotkeyDown := true, pending := s.pending + [ShowOverlay])
  {
    var s1 := Apply(s, ChordDown);
    assert Repeat(ChordDown, n)[1..] == Repeat(ChordDown, n - 1);
    RepeatFixpoint(s1, ChordDown, n - 1);
  }

  /**
   * Releasing A, with any Ctrl/Alt readings, each reported as WM_KEYUP, while the hotkey
   * is held queues exactly one HideOverlay, however often the release is reported.
   */
  lemma ReleaseHidesOnce(s: State, n: nat, ctrl: bool, alt: bool)
    requires s.hotkeyDown && n >= 1
    ensures var up := MainKeyEvent(0, WmKeyUp, HotkeyKey, ctrl, alt);
      Run(s, Repeat(up, n)) == s.(hotkeyDown := false, pending := s.pending + [HideOverlay])
  {
    var up := MainKeyEvent(0, WmKeyUp, HotkeyKey, ctrl, alt);
    assert Repeat(up, n)[1..] == Repeat(up, n - 1);
    RepeatFixpoint(Apply(s, up), up, n - 1);
  }

  predicate AllCaptureKeys(es: seq<Event>) {
    forall i :: 0 <= i < |es| ==> es[i].CaptureKeyEvent?
  }

  /** Once the guard is set, capture-hook calls change nothing at all. */
  lemma {:induction false} HandledCaptureIsInert(s: State, es: seq<Event>)
    requires s.captureHandled && AllCaptureKeys(es)
    ensures Run(s, es) == s
    decreases |es|
  {
    if es != [] {
      assert Apply(s, es[0]) == s;
      HandledCaptureIsInert(s, es[1..]);
    }
  }

  /** Any burst of capture-hook calls injects at most one text. */
  lemma {:induction false} CaptureSendsAtMostOnce(s: State, es: seq<Event>)
    requires AllCaptureKeys(es)
    ensures |Run(s, es).sent| <= |s.sent| + 1
    decreases |es|
  {
    if es != [] {
      var s1 := Apply(s, es[0]);
      if s1 == s {
        CaptureSendsAtMostOnce(s, es[1..]);
      } else {
        assert s1.captureHandled && |s1.sent| <= |s.sent| + 1;
        HandledCaptureIsInert(s1, es[1..]);
      }
    }
  }

  /** A fresh start on an empty hook table, with every install granted: the main hook is 1. */
  function Launch(): (s: State)
    ensures Readable(s) && s.mainHook == 1 && s.live == {1}
  {
    StartValid({}, 1, true);
    Start({}, 1, true)
  }

  /** Releasing A with Ctrl and Alt still held. */
  const ChordUp: Event := MainKeyEvent(0, WmKeyUp, HotkeyKey, true, true)

  /**
   * Chord down, the overlay shown, the acute slice clicked, chord up, the overlay hidden
   * and the capture hook armed, then E pressed without Shift: the capture hook swallows it,
   * injects an upper-case E followed by U+0301, removes itself and clears the selection.
   */
  lemma AcuteScenario()
    ensures var s := Run(Launch(), [ChordDown, UiTurn(true), ClickEvent(1, true), ChordUp,
                                    UiTurn(true), CaptureKeyEvent(0, WmKeyDown, 0x45, false)]);
      && s.sent == ["E\U{0301}"]
      && s.captureHook == 0 && s.live == {1} && s.selected == None
      && s.pending == [] && !s.hotkeyDown && !s.overlayVisible
  {
    var s0 := Launch();
    var s1 := Apply(s0, ChordDown);
    var s2 := Apply(s1, UiTurn(true));
    var s3 := Apply(s2, ClickEvent(1, true));
    var s4 := Apply(s3, ChordUp);
    var s5 := Apply(s4, UiTurn(true));
    assert s5.captureHook == 2 && s5.live == {1, 2} && s5.selected == Some(1);
    var s6 := Apply(s5, CaptureKeyEvent(0, WmKeyDown, 0x45, false));
    assert KeyChar(0x45) == 'E' && SliceOutputs()[1] == "\U{0301}";
    assert Compose(1, 0x45, false, Some(SliceOutputs())) == "E\U{0301}";
    assert s6.sent == ["E\U{0301}"];
    var es := [ChordDown, UiTurn(true), ClickEvent(1, true), ChordUp,
               UiTurn(true), CaptureKeyEvent(0, WmKeyDown, 0x45, false)];
    assert Run(s0, es) == Run(s1, es[1..]) == Run(s2, es[2..]) == Run(s3, es[3..])
        == Run(s4, es[4..]) == Run(s5, es[5..]) == Run(s6, []);
  }

  /**
   * The chord is pressed again before the UI thread has run the queued HideOverlay, and A
   * is released before any letter key-down reaches the capture hook that HideOverlay then
   * arms; the second release arms a second capture hook over the first. Closing the form afterwards
   * removes only the main hook: both capture hooks stay installed.
   */
  lemma LeakScenario()
    ensures var es := [ChordDown, UiTurn(true), ClickEvent(0, true), ChordUp, ChordDown,
                       UiTurn(true), UiTurn(true), ChordUp, UiTurn(true)];
      var s := Run(Launch(), es);
      && s.captureHook == 3 && s.live == {1, 2, 3}
      && Close(s).live == {2, 3}
  {
    var es := [ChordDown, UiTurn(true), ClickEvent(0, true), ChordUp, ChordDown,
               UiTurn(true), UiTurn(true), ChordUp, UiTurn(true)];
    var s0 := Launch();
    var s4 := Run(s0, es[..4]);
    assert s4.pending == [HideOverlay] && !s4.hotkeyDown && s4.selected == Some(0)
        && s4.live == {1} && s4.nextHandle == 2 && s4.captureHook == 0 && s4.mainHook == 1 by {
      FirstSelection(s0, es[..4]);
    }
    var s9 := Run(s4, es[4..]);
    assert s9.captureHook == 3 && s9.live == {1, 2, 3} && s9.mainHook == 1 by {
      ReentrantChord(s4, es[4..]);
    }
    RunAppend(s0, es[..4], es[4..]);
    assert es[..4] + es[4..] == es;
  }

  lemma {:induction false} RunAppend(s: State, a: seq<Event>, b: seq<Event>)
    ensures Run(s, a + b) == Run(Run(s, a), b)
    decreases |a|
  {
    if a != [] {
      assert (a + b)[0] == a[0] && (a + b)[1..] == a[1..] + b;
      RunAppend(Apply(s, a[0]), a[1..], b);
    } else {
      assert a + b == b;
    }
  }

  lemma FirstSelection(s0: State, es: seq<Event>)
    requires s0 == Launch()
    requires es == [ChordDown, UiTurn(true), ClickEvent(0, true), ChordUp]
    ensures var s := Run(s0, es);
      s.pending == [HideOverlay] && !s.hotkeyDown && s.selected == Some(0)
      && s.live == {1} && s.nextHandle == 2 && s.captureHook == 0 && s.mainHook == 1
  {
    var s1 := Apply(s0, es[0]);
    var s2 := Apply(s1, es[1]);
    var s3 := Apply(s2, es[2]);
    var s4 := Apply(s3, es[3]);
    assert Run(s3, es[3..]) == s4 by { assert es[3..][1..] == []; }
    assert Run(s2, es[2..]) == Run(s3, es[3..]) by { assert es[2..][1..] == es[3..]; }
    assert Run(s1, es[1..]) == Run(s2, es[2..]) by { assert es[1..][1..] == es[2..]; }
  }

  lemma ReentrantChord(s4: State, es: seq<Event>)
    requires s4.pending == [HideOverlay] && !s4.hotkeyDown && s4.selected == Some(0)
    requires s4.live == {1} && s4.nextHandle == 2 && s4.captureHook == 0 && s4.mainHook == 1
    requires es == [ChordDown, UiTurn(true), UiTurn(true), ChordUp, UiTurn(true)]
    ensures var s := Run(s4, es); s.captureHook == 3 && s.live == {1, 2, 3} && s.mainHook == 1
  {
    var s5 := Apply(s4, es[0]);
    assert s5.pending == [HideOverlay, ShowOverlay] && s5.hotkeyDown;
    var s6 := Apply(s5, es[1]);
    assert s6.captureHook == 2 && s6.live == {1, 2} && s6.nextHandle == 3 && s6.pending == [ShowOverlay];
    var s7 := Apply(s6, es[2]);
    var s8 := Apply(s7, es[3]);
    assert s8.pending == [HideOverlay];
    var s9 := Apply(s8, es[4]);
    assert Run(s8, es[4..]) == s9 by { assert es[4..][1..] == []; }
    assert Run(s7, es[3..]) == Run(s8, es[4..]) by { assert es[3..][1..] == es[4..]; }
    assert Run(s6, es[2..]) == Run(s7, es[3..]) by { assert es[2..][1..] == es[3..]; }
    assert Run(s5, es[1..]) == Run(s6, es[2..]) by { assert es[1..][1..] == es[2..]; }
  }
}
