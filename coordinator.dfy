/**
 * The imperative form of the core: the operating system's hook table and the main form
 * (Form1) with its hook fields, each method proved to perform the corresponding step of
 * the Machine specification and to keep its invariant.
 */
module Coordinator {
  import opened Wrappers
  import opened Slices
  import opened Composition
  import opened Machine

  /** The operating system's table of installed low-level keyboard hooks. */
  class HookTable {
    var live: set<nat>
    var next: nat

    ghost predicate Valid()
      reads this
    {
      0 < next && 0 !in live && forall h :: h in live ==> h < next
    }

    constructor ()
      ensures Valid() && live == {} && next == 1
    {
      live, next := {}, 1;
    }

    /** SetWindowsHookEx: a handle never given out before when granted, 0 when refused. */
    method Install(granted: bool) returns (h: nat)
      requires Valid()
      modifies this
      ensures Valid()
      ensures granted ==> h == old(next) && h !in old(live) && live == old(live) + {h} && next == old(next) + 1
      ensures !granted ==> h == 0 && live == old(live) && next == old(next)
    {
      if granted {
        h := next;
        live, next := live + {h}, next + 1;
      } else {
        h := 0;
      }
    }

    /** UnhookWindowsHookEx: removing a handle that is not installed changes nothing. */
    method Uninstall(h: nat)
      requires Valid()
      modifies this`live
      ensures Valid() && live == old(live) - {h}
    {
      live := live - {h};
    }
  }

  /**
   * Form1 together with the static selection of OverlayForm. `pending` stands for the
   * actions posted with BeginInvoke and `sent` for what SendKeys.SendWait was given.
   */
  class Composer {
    const os: HookTable
    var isHotkeyDown: bool
    var pending: seq<UiAction>
    var overlayExists: bool
    var overlayVisible: bool
    var selectedIndex: Option<nat>
    var hookId: nat
    var captureHookId: nat
    var captureHandled: bool
    var sent: seq<string>

    /** The abstract state the Machine steps act on. */
    ghost function Snapshot(): State
      reads this, os
    {
      State(isHotkeyDown, pending, overlayExists, overlayVisible, selectedIndex,
            hookId, captureHookId, captureHandled, os.live, os.next, sent)
    }

    ghost predicate Valid()
      reads this, os
    {
      Machine.Valid(Snapshot())
    }

    /** The Form1 constructor: install the main hook. */
    constructor (os: HookTable, granted: bool)
      requires os.Valid()
      modifies os
      ensures this.os == os && Valid()
      ensures Snapshot() == Start(old(os.live), old(os.next), granted)
    {
      StartValid(os.live, os.next, granted);
      this.os := os;
      isHotkeyDown, pending := false, [];
      overlayExists, overlayVisible := false, false;
      selectedIndex := None;
      captureHookId, captureHandled := 0, false;
      sent := [];
      var h := os.Install(granted);
      hookId := h;
    }

    /** HookCallback: track the chord edge by edge, queue Show/Hide, always forward. */
    method MainKey(nCode: int, msg: int, vk: int, ctrl: bool, alt: bool) returns (v: Verdict)
      requires Valid()
      modifies this
      ensures Valid()
      ensures Snapshot() == Machine.MainKey(old(Snapshot()), nCode, msg, vk, ctrl, alt).next
      ensures v == Forwarded
    {
      MainKeyValid(Snapshot(), nCode, msg, vk, ctrl, alt);
      if nCode >= 0 {
        if msg == WmKeyDown {
          if !isHotkeyDown && ctrl && alt && vk == HotkeyKey {
            isHotkeyDown := true;
            pending := pending + [ShowOverlay];
          }
        } else if msg == WmKeyUp {
          if isHotkeyDown && vk == HotkeyKey {
            isHotkeyDown := false;
            pending := pending + [HideOverlay];
          }
        }
      }
      v := Forwarded;
    }

    /** ShowOverlay: a disposed or missing overlay is replaced, then shown. */
    method Show()
      requires Valid()
      modifies this
      ensures Valid()
      ensures Snapshot() == Machine.Show(old(Snapshot()))
    {
      if !overlayExists {
        overlayExists := true;
      }
      overlayVisible := true;
    }

    /** HideOverlay: hide the overlay; with a selection pending, arm the capture hook. */
    method Hide(granted: bool)
      requires Valid()
      modifies this, os
      ensures Valid()
      ensures Snapshot() == Machine.Hide(old(Snapshot()), granted)
    {
      if overlayExists {
        overlayVisible := false;
      }
      if selectedIndex.Some? {
        captureHandled := false;
        captureHookId := os.Install(granted);
      }
    }

    /** One turn of the UI thread: run the oldest action posted with BeginInvoke. */
    method RunPendingUi(granted: bool)
      requires Valid()
      modifies this, os
      ensures Valid()
      ensures Snapshot() == Machine.RunPendingUi(old(Snapshot()), granted)
    {
      RunPendingUiValid(Snapshot(), granted);
      if pending != [] {
        var action := pending[0];
        pending := pending[1..];
        match action
        case ShowOverlay => Show();
        case HideOverlay => Hide(granted);
      }
    }

    /**
     * DiacriticalHookCallback: swallow the first letter key-down, unhook, inject the
     * composition for the selection and clear it; pass everything else on.
     */
    method CaptureKey(nCode: int, msg: int, vk: int, shift: bool, table: Option<seq<string>>)
      returns (v: Verdict)
      requires Valid()
      modifies this, os
      ensures Valid()
      ensures Snapshot() == Machine.CaptureKey(old(Snapshot()), nCode, msg, vk, shift, table).next
      ensures v == Machine.CaptureKey(old(Snapshot()), nCode, msg, vk, shift, table).verdict
    {
      CaptureKeyValid(Snapshot(), nCode, msg, vk, shift, table);
      if captureHandled {
        return Forwarded;
      }
      if nCode >= 0 && msg == WmKeyDown && IsLetterKey(vk) {
        captureHandled := true;
        if captureHookId != 0 {
          os.Uninstall(captureHookId);
          captureHookId := 0;
        }
        var idx := selectedIndex;
        if idx.Some? {
          var output := Compose(idx.value, vk, shift, table);
          sent := sent + [output];
        }
        selectedIndex := None;
        return Consumed;
      }
      return Forwarded;
    }

    /** OverlayForm_MouseClick: inside the ring, record the slice and close the overlay. */
    method Click(slice: nat, insideRing: bool)
      requires Valid()
      modifies this
      ensures Valid()
      ensures Snapshot() == Machine.Click(old(Snapshot()), slice, insideRing)
    {
      ClickValid(Snapshot(), slice, insideRing);
      if insideRing {
        selectedIndex := Some(ClickedSlice(slice));
        overlayExists, overlayVisible := false, false;
      }
    }

    /** OnFormClosed: unhook the main hook only. */
    method Close()
      requires Valid()
      modifies os
      ensures Valid()
      ensures Snapshot() == Machine.Close(old(Snapshot()))
    {
      CloseValid(Snapshot());
      os.Uninstall(hookId);
    }
  }

  /**
   * A session driven through the objects: select the acute slice, release the chord, type
   * E; the capture hook swallows the key and injects E with U+0301. A second letter is
   * passed on and injects nothing more.
   */
  method AcuteSession() returns (sent: seq<string>)
    ensures sent == ["E\U{0301}"]
  {
    var os := new HookTable();
    var app := new Composer(os, true);
    var v := app.MainKey(0, WmKeyDown, HotkeyKey, true, true);
    app.RunPendingUi(true);
    assert app.overlayVisible;
    app.Click(1, true);
    v := app.MainKey(0, WmKeyUp, HotkeyKey, true, true);
    app.RunPendingUi(true);
    assert app.captureHookId == 2 && os.live == {1, 2};
    assert app.selectedIndex == Some(1);
    assert KeyChar(0x45) == 'E' && SliceOutputs()[1] == "\U{0301}";
    assert Compose(1, 0x45, false, Some(SliceOutputs())) == "E\U{0301}";
    v := app.CaptureKey(0, WmKeyDown, 0x45, false, Some(SliceOutputs()));
    assert v == Consumed && app.sent == ["E\U{0301}"] && os.live == {1};
    v := app.CaptureKey(0, WmKeyDown, 0x46, false, Some(SliceOutputs()));
    assert v == Forwarded;
    sent := app.sent;
  }
}
