# Overlay hotkey and interactivity state machine

A Dafny model of the core of a transparent, always-on-top Electron overlay:

- the global key listener (`KeyHook.parse`), which turns an OS-wide key-down
  event into at most one IPC command: Alt+Q gives `toggle-overlay` and Alt+A
  gives `toggle-overlay-ignore-mouse-event`;
- the main process's overlay state: the module-level `window` (present or
  null), its visible and click-through (ignore-mouse) flags, and the
  `is_interactible` flag, as changed by `createOverlay`, the window's
  `closed` handler, `toggleOverlay`, `toggleIgnoreMouseEventOverlay`, the
  two IPC listeners and the dock `activate` handler.

Files:

- `wrappers.dfy`: `Option`.
- `hook.dfy` (module `KeyHook`): key codes, the two commands, `Parse`, the
  channel names and the IPC listener lookup.
- `overlay.dfy` (module `OverlaySpec`): the state as a value, each handler as a
  pure transition giving the new state and the host calls made, in order;
  runs of handler invocations; the lemmas.
- `session.dfy` (module `MainProcess`): class `OverlaySession`, whose fields
  the handlers update in place and whose ghost `trace` records each
  `setIgnoreMouseEvents`, `focus`, `show`, `hide` and blur/focus emission.
  Every handler is proved to produce exactly the transition of `OverlaySpec`,
  and the object invariant `Valid()` is kept by every handler.

What the model shows about the code:

- Whenever a window exists, `is_interactible == !ignoreMouse` after every
  handler (`OverlaySpec.Inv`, kept by every handler and by every run).
- Showing a hidden window first forces `is_interactible` to true, then runs
  the click-through toggle, which turns click-through on, emits
  `overlay-window-blur` and clears the flag, and only then calls `show`. So
  every show lands in click-through mode, whatever the flag was before, and
  interactivity is not carried across a hide/show cycle
  (`OverlaySpec.HideShowResetsInteractivity`). A show does not re-apply the
  flag the window had before it was hidden.
- In the host-call trace, every `show` comes immediately after
  `setIgnoreMouseEvents(true, { forward: true })` and the blur emission.

Two facts come from the libraries rather than from this program's code:
`new BrowserWindow(...)` without a `show` option shows the window (Electron's
default), so the window is already visible when it is constructed
(src/main/index.ts:15-67), before the click-through request at
src/main/index.ts:89; `Create` therefore leaves the window visible, and this
is not a `Show` entry of the trace, which records explicit `show()` calls
only. And the key codes of Q and A are uiohook's scan codes `0x0010` and
`0x001E` (only their distinctness matters to the model).

Each handler is modelled as one atomic step. This loses nothing: the only
`await` among them, in `toggleOverlay` (src/main/index.ts:167), waits on the
promise of `toggleIgnoreMouseEventOverlay`, which has no `await` of its own and
so is already settled; the rest of `toggleOverlay` runs as a microtask before
the event loop delivers any other event (a `closed` event or the next key-down).

## Model

| member | source | states |
|---|---|---|
| `KeyHook.Parse` | src/hook/hook.ts:17-32 | Alt+Q gives exactly `toggle-overlay`, Alt+A exactly `toggle-overlay-ignore-mouse-event`, and nothing is raised iff Alt is up or the key is neither Q nor A; each direction of each case is stated |
| `KeyHook.Emissions` | src/hook/hook.ts:18-29 | one key-down event emits at most one channel name, none without Alt, one exactly when `Parse` classifies the event, and the name emitted reaches the listener of the command `Parse` gave |
| `KeyHook.IntentOfChannel` | src/main/index.ts:259-269 | a channel reaches a registered listener only if it is that command's own channel name |
| `KeyHook.ChannelRoundTrip` | src/main/index.ts:259-269 | the channel emitted for a command reaches that command's listener |
| `OverlaySpec.CreateStep` | src/main/index.ts:89-90 | after creation a window exists, is visible, ignores mouse events, `is_interactible` is false, the agreement invariant holds, and the only host call is `setIgnoreMouseEvents(true)` |
| `OverlaySpec.ClosedStep` | src/main/index.ts:103-105 | `closed` forgets the window, keeps `is_interactible`, makes no host call |
| `OverlaySpec.ToggleIgnoreStep` | src/main/index.ts:174-189 | without a window nothing changes and no call is made; with one, `is_interactible` is negated exactly once, the agreement invariant holds afterwards, the interactive branch calls `setIgnoreMouseEvents(true)` then emits blur, the other calls `setIgnoreMouseEvents(false)`, `focus`, emits focus; visibility is unchanged and neither `show` nor `hide` is called |
| `OverlaySpec.ToggleOverlayStep` | src/main/index.ts:160-172 | without a window nothing happens; a visible window is hidden with both flags unchanged and only `hide` called; a hidden window ends visible, in click-through, with `is_interactible` false, for any prior flag, after the calls set-ignore(true), blur, show in that order |
| `OverlaySpec.KeyWithoutAltIsIgnored` | src/hook/hook.ts:18 | a key-down without Alt, for any key code, changes no state and makes no host call |
| `OverlaySpec.ToggleIgnoreTwiceRestores` | src/main/index.ts:174-189 | from any state where the flags agree, two consecutive click-through toggles restore both `is_interactible` and the ignore-mouse flag |
| `OverlaySpec.HideShowResetsInteractivity` | src/main/index.ts:160-189 | hiding a visible window and showing it again leaves it in click-through with `is_interactible` false, whatever the flags were: the interactive flag is not carried across hide/show |
| `OverlaySpec.EventStepKeepsInv` | src/main/index.ts:89-189 | every handler keeps `is_interactible == !ignoreMouse` whenever a window exists |
| `OverlaySpec.EventStepGuardsShows` | src/main/index.ts:165-169 | in the calls of any one handler, every `show` is directly preceded by set-ignore(true) and the blur emission |
| `OverlaySpec.RunKeepsInv` | src/main/index.ts:89-189 | the agreement invariant holds after any sequence of handler invocations starting from a state where it holds, hence in every state reachable from process start |
| `OverlaySpec.RunGuardsShows` | src/main/index.ts:165-169 | over any sequence of handler invocations, every `show` in the host-call trace is directly preceded by set-ignore(true) and the blur emission |
| `OverlaySpec.NoWindowKeysInert` | src/main/index.ts:160-189 | while no window exists, any sequence of key-down events changes nothing and makes no host call |
| `MainProcess.OverlaySession.constructor` | src/main/index.ts:7-10 | at process start there is no window and `is_interactible` is false; the trace is empty and the invariant holds |
| `MainProcess.OverlaySession.Create` | src/main/index.ts:15-90 | the fields and trace become exactly `CreateStep` of the old state; the invariant is kept |
| `MainProcess.OverlaySession.Closed` | src/main/index.ts:103-105 | the fields and trace become exactly `ClosedStep` of the old state; the invariant is kept |
| `MainProcess.OverlaySession.ToggleIgnoreMouse` | src/main/index.ts:174-189 | the fields and trace become exactly `ToggleIgnoreStep` of the old state; with a window it establishes the invariant even when called with the flag forced, as `toggleOverlay` does |
| `MainProcess.OverlaySession.ToggleOverlay` | src/main/index.ts:160-172 | the fields and trace become exactly `ToggleOverlayStep` of the old state, computed by forcing the flag and calling `ToggleIgnoreMouse` before `show`; the invariant is kept |
| `MainProcess.OverlaySession.Dispatch` | src/main/index.ts:259-269 | each IPC command runs its own handler, with that handler's effect |
| `MainProcess.OverlaySession.KeyDown` | src/hook/hook.ts:17-32 | a key-down event is classified by `Parse` and its command, if any, runs; the effect is the event's transition |
| `MainProcess.OverlaySession.Activate` | src/main/index.ts:239-244 | dock activation re-creates the overlay only when no window exists |

## Left out

- Window construction options and platform flags (transparency, frame, focusability, always-on-top variants, menu removal, workspaces, page loading, the window-open handler): host configuration with no state-machine logic.
- Tray and menu construction and the dev-tools toggle: UI wiring over the host's API.
- Startup guards and process setup (single-instance lock, Aero check, hardware acceleration, command-line switches, `window-all-closed`): host-process concerns; of the lifecycle only `whenReady`'s first `createOverlay` (the `Ready` event) and `activate`'s re-creation are modelled, and `activate`'s tray re-creation is not.
- Starting, stopping and subscribing the native key hook (`uIOhook.on`, `start`, `stop`, `unregister`): foreign calls whose behaviour is not visible.
- The IPC bus as such: an emission is a returned command or a trace entry; `console.log` in the listeners is not modelled.
- `MainProcess.OverlaySession.Activate`: stands in for "no browser window exists" with "the module-level window is null", since the overlay is the only window the code creates.
- The real effect of `focus()` on visibility: platform-dependent; only the call is recorded.
- The `forward: true` option of `setIgnoreMouseEvents`: recorded as part of `SetIgnore(true)` rather than as a separate argument.
