/** The overlay interactivity state machine of the main process, as pure
    transitions: each handler maps the state before it to the state after it
    and the host calls it makes, in order. */
module OverlaySpec {
  import opened Wrappers
  import KeyHook

  /** One call the main process makes on the window or on the IPC bus.
      SetIgnore(true) stands for ignoring mouse events with forwarding on,
      SetIgnore(false) for capturing them again. */
  datatype HostCall = SetIgnore(ignore: bool) | Focus | Show | Hide | EmitBlur | EmitFocus

  /** The module-level window (present or null), its visibility and
      click-through flags, and the is_interactible bookkeeping flag. The
      visibility and click-through flags describe the last window when none
      is present. */
  datatype Overlay = Overlay(windowPresent: bool, visible: bool, ignoreMouse: bool, interactible: bool)

  /** The state after a handler and the host calls it made. */
  datatype Transition = Transition(after: Overlay, calls: seq<HostCall>)

  /** What happens to the process, one handler invocation at a time. */
  datatype Event =
    | Ready                          // createOverlay once the app is ready
    | Activate                       // dock activation: re-create when no window is left
    | WindowClosed                   // the window's 'closed' event
    | KeyDown(alt: bool, key: KeyHook.KeyCode)

  /** No window at process start, and is_interactible false. */
  function Initial(): Overlay
  {
    Overlay(false, false, false, false)
  }

  /** Whenever a window exists, the bookkeeping flag agrees with the window:
      interactive exactly when mouse events are not ignored. */
  predicate Inv(s: Overlay)
  {
    s.windowPresent ==> s.interactible == !s.ignoreMouse
  }

  /** Every Show in a call sequence comes right after the click-through
      request and the blur emission. */
  predicate ShowsGuarded(calls: seq<HostCall>)
  {
    forall i | 0 <= i < |calls| && calls[i] == Show ::
      2 <= i && calls[i - 2] == SetIgnore(true) && calls[i - 1] == EmitBlur
  }

  /** createOverlay: a new window (Electron shows a window on construction
      unless told otherwise) is put in click-through mode and the bookkeeping
      flag is cleared, whatever the state before. */
  function CreateStep(s: Overlay): (t: Transition)
    ensures t.after.windowPresent && t.after.visible
    ensures t.after.ignoreMouse && !t.after.interactible
    ensures Inv(t.after)
    ensures t.calls == [SetIgnore(true)]
  {
    Transition(Overlay(true, true, true, false), [SetIgnore(true)])
  }

  /** The window's 'closed' handler forgets the window and nothing else. */
  function ClosedStep(s: Overlay): (t: Transition)
    ensures !t.after.windowPresent && t.calls == []
    ensures t.after.interactible == s.interactible
    ensures Inv(t.after)
  {
    Transition(s.(windowPresent := false), [])
  }

  /** toggleIgnoreMouseEventOverlay. Without a window nothing happens. With
      one, the bookkeeping flag is negated exactly once and the window follows
      it: leaving interactive mode turns click-through on and emits blur;
      entering it turns click-through off, asks for focus and emits focus.
      Visibility is neither consulted nor changed. */
  function ToggleIgnoreStep(s: Overlay): (t: Transition)
    ensures !s.windowPresent ==> t == Transition(s, [])
    ensures s.windowPresent ==> t.after.interactible == !s.interactible
    ensures s.windowPresent ==> Inv(t.after)
    ensures s.windowPresent && s.interactible ==> t.calls == [SetIgnore(true), EmitBlur]
    ensures s.windowPresent && !s.interactible ==> t.calls == [SetIgnore(false), Focus, EmitFocus]
    ensures t.after.windowPresent == s.windowPresent && t.after.visible == s.visible
    ensures Show !in t.calls && Hide !in t.calls
  {
    if !s.windowPresent then Transition(s, [])
    else if s.interactible then
      Transition(s.(ignoreMouse := true, interactible := false), [SetIgnore(true), EmitBlur])
    else
      Transition(s.(ignoreMouse := false, interactible := true), [SetIgnore(false), Focus, EmitFocus])
  }

  /** toggleOverlay. Without a window nothing happens. A visible window is
      hidden and keeps both flags. A hidden window first has its bookkeeping
      flag forced to true, then goes through the click-through toggle, then is
      shown: so it is always shown in click-through mode, whatever the flag
      was before. */
  function ToggleOverlayStep(s: Overlay): (t: Transition)
    ensures !s.windowPresent ==> t == Transition(s, [])
    ensures s.windowPresent && s.visible ==>
      t == Transition(s.(visible := false), [Hide])
    ensures s.windowPresent && !s.visible ==>
      t.after == s.(visible := true, ignoreMouse := true, interactible := false)
      && t.calls == [SetIgnore(true), EmitBlur, Show]
  {
    if !s.windowPresent then Transition(s, [])
    else if s.visible then Transition(s.(visible := false), [Hide])
    else
      var u := ToggleIgnoreStep(s.(interactible := true));
      Transition(u.after.(visible := true), u.calls + [Show])
  }

  /** The IPC listeners: each command runs its handler. */
  function DispatchStep(s: Overlay, i: KeyHook.Intent): Transition
  {
    match i
    case ToggleOverlay => ToggleOverlayStep(s)
    case ToggleOverlayIgnoreMouseEvent => ToggleIgnoreStep(s)
  }

  /** One handler invocation. */
  function EventStep(s: Overlay, e: Event): Transition
  {
    match e
    case Ready => CreateStep(s)
    case Activate => if s.windowPresent then Transition(s, []) else CreateStep(s)
    case WindowClosed => ClosedStep(s)
    case KeyDown(alt, key) =>
      match KeyHook.Parse(alt, key)
      case None => Transition(s, [])
      case Some(i) => DispatchStep(s, i)
  }

  /** Handlers run one after another on the event loop; the calls of a run
      are the calls of its handlers, in order. */
  function Run(s: Overlay, events: seq<Event>): Transition
    decreases |events|
  {
    if events == [] then Transition(s, [])
    else
      var first := EventStep(s, events[0]);
      var rest := Run(first.after, events[1..]);
      Transition(rest.after, first.calls + rest.calls)
  }

  // ----- Properties of single handlers -----

  /** A key-down event without Alt, whatever its key code, changes nothing
      and makes no host call. */
  lemma KeyWithoutAltIsIgnored(s: Overlay, key: KeyHook.KeyCode)
    ensures EventStep(s, KeyDown(false, key)) == Transition(s, [])
  {
  }

  /** Two consecutive click-through toggles restore both flags (and change
      nothing at all when there is no window). */
  lemma ToggleIgnoreTwiceRestores(s: Overlay)
    requires Inv(s)
    ensures ToggleIgnoreStep(ToggleIgnoreStep(s).after).after == s
  {
  }

  /** The interactive flag is not carried across a hide/show cycle: hiding an
      interactive window and showing it again lands in click-through mode. */
  lemma HideShowResetsInteractivity(s: Overlay)
    requires s.windowPresent && s.visible
    ensures ToggleOverlayStep(ToggleOverlayStep(s).after).after
      == s.(ignoreMouse := true, interactible := false)
  {
  }

  /** Every handler keeps the window/flag agreement. */
  lemma EventStepKeepsInv(s: Overlay, e: Event)
    requires Inv(s)
    ensures Inv(EventStep(s, e).after)
  {
  }

  /** The calls of every handler keep Show guarded. */
  lemma EventStepGuardsShows(s: Overlay, e: Event)
    ensures ShowsGuarded(EventStep(s, e).calls)
  {
  }

  /** Guarded call sequences stay guarded when concatenated. */
  lemma GuardedAppend(a: seq<HostCall>, b: seq<HostCall>)
    requires ShowsGuarded(a) && ShowsGuarded(b)
    ensures ShowsGuarded(a + b)
  {
  }

  // ----- Properties of runs -----

  /** Every state reachable from one satisfying the agreement satisfies it,
      in particular every state reachable from process start. */
  lemma {:induction false} RunKeepsInv(s: Overlay, events: seq<Event>)
    requires Inv(s)
    ensures Inv(Run(s, events).after)
    decreases |events|
  {
    if events != [] {
      EventStepKeepsInv(s, events[0]);
      RunKeepsInv(EventStep(s, events[0]).after, events[1..]);
    }
  }

  /** In the host calls of any run, each Show is immediately preceded by the
      click-through request and the blur emission. */
  lemma {:induction false} RunGuardsShows(s: Overlay, events: seq<Event>)
    ensures ShowsGuarded(Run(s, events).calls)
    decreases |events|
  {
    if events != [] {
      var first := EventStep(s, events[0]);
      EventStepGuardsShows(s, events[0]);
      RunGuardsShows(first.after, events[1..]);
      GuardedAppend(first.calls, Run(first.after, events[1..]).calls);
    }
  }

  /** Once the window is gone, neither hotkey has any effect until a window
      is created again. */
  lemma {:induction false} NoWindowKeysInert(s: Overlay, events: seq<Event>)
    requires !s.windowPresent
    requires forall k | 0 <= k < |events| :: events[k].KeyDown?
    ensures Run(s, events) == Transition(s, [])
    decreases |events|
  {
    if events != [] {
      assert EventStep(s, events[0]) == Transition(s, []);
      NoWindowKeysInert(s, events[1..]);
    }
  }
}
