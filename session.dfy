/** The main process's module-level overlay state, updated in place by its
    handlers. Host calls are recorded, in order, in a ghost trace. */
module MainProcess {
  import KeyHook
  import opened OverlaySpec

  class OverlaySession {
    var windowPresent: bool
    var visible: bool
    var ignoreMouse: bool
    var interactible: bool
    ghost var trace: seq<HostCall>

    /** The abstract state the handlers are specified over. */
    function State(): Overlay
      reads this
    {
      Overlay(windowPresent, visible, ignoreMouse, interactible)
    }

    /** Object invariant: the flag agreement, and every Show made so far came
        right after the click-through request and the blur emission. */
    ghost predicate Valid()
      reads this
    {
      Inv(State()) && ShowsGuarded(trace)
    }

    /** Process start: no window yet, is_interactible false. */
    constructor ()
      ensures Valid() && State() == Initial() && trace == []
    {
      windowPresent, visible, ignoreMouse, interactible := false, false, false, false;
      trace := [];
    }

    // ----- The window and the IPC bus, as the handlers see them -----

    method SetIgnoreMouseEvents(ignore: bool)
      requires windowPresent
      modifies this`ignoreMouse, this`trace
      ensures ignoreMouse == ignore && trace == old(trace) + [SetIgnore(ignore)]
    {
      ignoreMouse := ignore;
      trace := trace + [SetIgnore(ignore)];
    }

    method FocusWindow()
      requires windowPresent
      modifies this`trace
      ensures trace == old(trace) + [Focus]
    {
      trace := trace + [Focus];
    }

    method ShowWindow()
      requires windowPresent
      modifies this`visible, this`trace
      ensures visible && trace == old(trace) + [Show]
    {
      visible := true;
      trace := trace + [Show];
    }

    method HideWindow()
      requires windowPresent
      modifies this`visible, this`trace
      ensures !visible && trace == old(trace) + [Hide]
    {
      visible := false;
      trace := trace + [Hide];
    }

    method EmitWindowEvent(focused: bool)
      modifies this`trace
      ensures trace == old(trace) + [if focused then EmitFocus else EmitBlur]
    {
      trace := trace + [if focused then EmitFocus else EmitBlur];
    }

    // ----- Handlers -----

    /** createOverlay's state-setting part: a new, shown window in
        click-through mode, with is_interactible cleared. */
    method Create()
      requires Valid()
      modifies this
      ensures Valid()
      ensures State() == CreateStep(old(State())).after
      ensures trace == old(trace) + CreateStep(old(State())).calls
    {
      windowPresent, visible := true, true;
      SetIgnoreMouseEvents(true);
      interactible := false;
    }

    /** The window's 'closed' handler. */
    method Closed()
      requires Valid()
      modifies this
      ensures Valid()
      ensures State() == ClosedStep(old(State())).after
      ensures trace == old(trace) + ClosedStep(old(State())).calls
    {
      windowPresent := false;
    }

    /** toggleIgnoreMouseEventOverlay. It is also called from ToggleOverlay
        right after is_interactible was forced to true, so it does not
        require the flag agreement; with a window it re-establishes it. */
    method ToggleIgnoreMouse()
      requires ShowsGuarded(trace)
      modifies this
      ensures ShowsGuarded(trace)
      ensures old(Valid()) || windowPresent ==> Valid()
      ensures State() == ToggleIgnoreStep(old(State())).after
      ensures trace == old(trace) + ToggleIgnoreStep(old(State())).calls
    {
      if windowPresent {
        if interactible {
          SetIgnoreMouseEvents(true);
          EmitWindowEvent(false);
        } else {
          SetIgnoreMouseEvents(false);
          FocusWindow();
          EmitWindowEvent(true);
        }
        interactible := !interactible;
        GuardedAppend(old(trace), ToggleIgnoreStep(old(State())).calls);
      }
    }

    /** toggleOverlay. */
    method ToggleOverlay()
      requires Valid()
      modifies this
      ensures Valid()
      ensures State() == ToggleOverlayStep(old(State())).after
      ensures trace == old(trace) + ToggleOverlayStep(old(State())).calls
    {
      if windowPresent {
        if visible {
          HideWindow();
          GuardedAppend(old(trace), [Hide]);
        } else {
          interactible := true;
          ToggleIgnoreMouse();
          ShowWindow();
          GuardedAppend(old(trace), [SetIgnore(true), EmitBlur, Show]);
        }
      }
    }

    /** The two IPC listeners: a command's channel runs its handler. */
    method Dispatch(i: KeyHook.Intent)
      requires Valid()
      modifies this
      ensures Valid()
      ensures State() == DispatchStep(old(State()), i).after
      ensures trace == old(trace) + DispatchStep(old(State()), i).calls
    {
      match i
      case ToggleOverlay => ToggleOverlay();
      case ToggleOverlayIgnoreMouseEvent => ToggleIgnoreMouse();
    }

    /** A global key-down event: the key listener classifies it and the
        command, if any, reaches its handler. */
    method KeyDown(alt: bool, key: KeyHook.KeyCode)
      requires Valid()
      modifies this
      ensures Valid()
      ensures State() == EventStep(old(State()), Event.KeyDown(alt, key)).after
      ensures trace == old(trace) + EventStep(old(State()), Event.KeyDown(alt, key)).calls
    {
      var intent := KeyHook.Parse(alt, key);
      if intent.Some? {
        Dispatch(intent.value);
      }
    }

    /** Dock activation: re-create the overlay when no window is left. */
    method Activate()
      requires Valid()
      modifies this
      ensures Valid()
      ensures State() == EventStep(old(State()), Event.Activate).after
      ensures trace == old(trace) + EventStep(old(State()), Event.Activate).calls
    {
      if !windowPresent {
        Create();
      }
    }
  }
}
