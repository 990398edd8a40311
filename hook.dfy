/** The global key listener: classifies OS-wide key-down events into at most
    one overlay command, and names the IPC channel each command travels on. */
module KeyHook {
  import opened Wrappers

  /** Key codes as the native hook reports them (uiohook's scan codes). */
  type KeyCode = int

  /** uiohook's code for the Q key. */
  const KeyQ: KeyCode := 0x0010
  /** uiohook's code for the A key. */
  const KeyA: KeyCode := 0x001E

  /** The two commands the listener can raise. */
  datatype Intent = ToggleOverlay | ToggleOverlayIgnoreMouseEvent

  /** The IPC channel a command is emitted on. */
  function Channel(i: Intent): string
  {
    match i
    case ToggleOverlay => "toggle-overlay"
    case ToggleOverlayIgnoreMouseEvent => "toggle-overlay-ignore-mouse-event"
  }

  /** Emitting a command's channel always reaches that command's listener. */
  lemma ChannelRoundTrip(i: Intent)
    ensures IntentOfChannel(Channel(i)) == Some(i)
  {
  }

  /** Which registered IPC listener, if any, a channel name reaches. */
  function IntentOfChannel(c: string): (r: Option<Intent>)
    ensures r.Some? ==> Channel(r.value) == c
  {
    if c == "toggle-overlay" then Some(ToggleOverlay)
    else if c == "toggle-overlay-ignore-mouse-event" then Some(ToggleOverlayIgnoreMouseEvent)
    else None
  }

  /** Classifies one key-down event: Alt+Q toggles the overlay, Alt+A toggles
      click-through, everything else is ignored. The result depends on the
      alt flag and the key code only, and is at most one command. */
  function Parse(alt: bool, key: KeyCode): (r: Option<Intent>)
    ensures r == Some(ToggleOverlay) <==> alt && key == KeyQ
    ensures r == Some(ToggleOverlayIgnoreMouseEvent) <==> alt && key == KeyA
    ensures r == None <==> !alt || (key != KeyQ && key != KeyA)
  {
    if alt then
      if key == KeyQ then Some(ToggleOverlay)
      else if key == KeyA then Some(ToggleOverlayIgnoreMouseEvent)
      else None
    else None
  }

  /** The channel names emitted for one key-down event: never more than one. */
  function Emissions(alt: bool, key: KeyCode): (names: seq<string>)
    ensures |names| <= 1
    ensures !alt ==> names == []
    ensures |names| == 1 <==> Parse(alt, key).Some?
    ensures forall n | n in names :: IntentOfChannel(n) == Parse(alt, key)
  {
    match Parse(alt, key)
    case None => []
    case Some(i) => [Channel(i)]
  }
}
