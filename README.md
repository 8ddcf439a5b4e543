# Counter application and event multiplexer of a ratatui scaffold

This project models the deterministic core of a small terminal application
built on ratatui and crossterm, and proves properties of the model.

- `src/main.rs` is a counter application. `App` holds a signed counter and
  a quit flag. `update` polls the terminal once for 250 ms. On a press of
  'j' it adds one, on 'k' it subtracts one, and on 'q' it sets the quit
  flag. Everything else is ignored. `run` starts at `{0, false}` and calls
  `update` until the quit flag is set. An I/O error from `poll` or `read`
  ends `run` with that error.
- `src/tui.rs` is an event multiplexer. A background task waits, with
  `tokio::select!`, on the terminal's input stream and on timers. Each time
  one of them fires, it sends at most one `Event` into an unbounded FIFO
  channel. `EventHandler::next` receives from that channel.

Files:

- `wrappers.dfy`: `Option` and `Result`.
- `input.dfy` (module `Input`): crossterm's notifications in abstract form.
  A key is its code, its modifier bits and its kind (press, repeat,
  release). Resize keeps its columns and rows, paste its text, and a mouse
  notification its cell and modifiers; only the mouse kind and the named
  (non-character) keys are abstract tags.
- `counter.dfy` (module `Counter`): `src/main.rs`. The class `App` has the
  two fields. `App.Update` changes them in place. `Run` is the loop. Both
  are proved against the functions `Step`, `Replay` and `Consumed`, and the
  lemmas state what those functions promise. The terminal is replaced by a
  sequence of `Poll` values, one per call of `update`: `Timeout`,
  `Ready(notification)` or `Failed`.
- `events.dfy` (module `Events`): `src/tui.rs`. The branch of `select!`
  that completes is an input, a `Firing`. `Translate` is the per-firing
  `match`. The class `EventHandler` holds the channel's pending events as a
  sequence. `Fire` is one loop iteration, `Pump` is the loop, and `Next` is
  the FIFO receive.
- `pipeline.dfy` (module `Pipeline`): links the two halves. `src/main.rs`
  reads the terminal itself and never uses `EventHandler`. Both files drop
  every key notification that is not a press. This module proves that the
  two filters agree. It also proves an end-to-end scenario: firings, then
  events, then the counter's state.

Facts about the code that shape the model:

- Each firing sends at most one event. A non-press key, a mouse, resize,
  focus or paste notification, and the end of the input stream send
  nothing (`src/tui.rs:56-71`).
- `run` polls the terminal itself and never reads `EventHandler`'s channel
  (`src/main.rs:54-68`).
- After the end of the input stream the loop goes on. In the model an
  `InputEnd` firing sends nothing, and any firing, ticks included, may
  follow it.

## Model

| member | source | states |
|---|---|---|
| `Counter.App.constructor` | src/main.rs:75 | the application starts with counter 0 and the quit flag clear |
| `Counter.App.Update` | src/main.rs:54-68 | the new state is one `Step` of the old state on the poll; the result is an error exactly when the poll or read failed |
| `Counter.Apply` | src/main.rs:56-63 | the effect of a notification that was read: only a key press acts; the counter moves by at most one, the quit flag is never cleared, and a step that moves the counter leaves the flag alone |
| `Counter.Step` | src/main.rs:55-66 | one call of `update`: a timeout or a failed poll or read leaves the state unchanged, otherwise the notification is applied; the flag is never cleared and the counter moves by at most one |
| `Counter.Replay` | src/main.rs:77-90 | the state after `update` has seen a sequence of polls in order; a set quit flag stays set and the counter moves by at most the number of polls |
| `Counter.PressJ` | src/main.rs:57-59 | a press of 'j', with any modifiers, adds exactly 1 and keeps the quit flag |
| `Counter.PressK` | src/main.rs:60 | a press of 'k', with any modifiers, subtracts exactly 1 and keeps the quit flag |
| `Counter.PressQ` | src/main.rs:61 | a press of 'q' sets the quit flag and keeps the counter |
| `Counter.OthersIgnored` | src/main.rs:55-62 | a timeout, a failed read, a non-key notification, a repeat or release, or a press of any other key leaves the whole state unchanged |
| `Counter.ReplayAppend` | src/main.rs:77-90 | applying two stretches of input one after the other is the same as applying their concatenation |
| `Counter.ReplayCounter` | src/main.rs:59-60 | after any input, the counter has moved by the number of 'j' presses minus the number of 'k' presses |
| `Counter.ReplayQuit` | src/main.rs:54-68 | after any input, the quit flag is set exactly when it was set before or the input holds a press of 'q' (`update` never clears it) |
| `Counter.QuitSticks` | src/main.rs:61 | once the quit flag is set, no input clears it |
| `Counter.Consumed` | src/main.rs:84-89 | the number of polls `run` reads: none of them stops the loop except possibly the last, and fewer than all are read only when the last one read stops it |
| `Counter.Run` | src/main.rs:70-93 | starting from `{0, false}`, `run` reads exactly `Consumed` polls and ends in the state those polls produce; it reports an error exactly when the last poll read failed |
| `Counter.RunQuits` | src/main.rs:84-89 | `run` ends with the quit flag set exactly when the last poll it read was a press of 'q' |
| `Counter.RunIgnoresRest` | src/main.rs:84-89 | whatever follows the poll that stops `run` is never read |
| `Counter.RunWithoutStop` | src/main.rs:77-90 | input with no 'q' press and no failure is read to its end, does not quit, and leaves the counter at (#'j' presses) − (#'k' presses) |
| `Counter.JJKQ` | src/main.rs:75-90 | the keys j, j, k, q, followed by anything, are read in exactly 4 polls and end with counter 1 and the quit flag set |
| `Events.Translate` | src/tui.rs:56-75 | the event one firing sends, if any; whatever it sends comes from that firing and no other (`Origin` maps it back) |
| `Events.Translated` | src/tui.rs:51-77 | the events the loop has sent after a run of firings, oldest first; each one is a key press, `Error`, `Tick` or `Render` |
| `Events.TranslateOrigin` | src/tui.rs:56-75 | a firing sends event e exactly when e comes from it: a key press as `Key` with the same key, an input error as `Error`, a timer as `Tick` or `Render`; nothing else is sent, and no two firings send the same event |
| `Events.KeyForwarding` | src/tui.rs:59-63 | a key notification of kind press is forwarded as `Key` with the same key value; a repeat or release sends nothing |
| `Events.ErrorAndTick` | src/tui.rs:67-75 | an input read error sends exactly `Error`; the tick timer sends exactly `Tick` |
| `Events.RenderTimer` | src/tui.rs:131-132 | the render timer sends exactly `Render` |
| `Events.NonKeysDropped` | src/tui.rs:64-70 | mouse, resize, focus and paste notifications and the end of the input stream send nothing |
| `Events.EventHandler.constructor` | src/tui.rs:42-81 | a new handler's channel is empty |
| `Events.EventHandler.Fire` | src/tui.rs:52-76 | one loop iteration appends what its firing sends to the tail of the channel and leaves what is queued untouched |
| `Events.EventHandler.Pump` | src/tui.rs:51-77 | after a run of firings, the channel holds what it held before followed by the in-order filter-map of those firings |
| `Events.EventHandler.Next` | src/tui.rs:83-85 | `next` returns the oldest pending event and removes only it; with nothing pending it returns the "Unable to get event" error |
| `Events.TranslatedAppend` | src/tui.rs:51-77 | two runs of firings send what the first sends followed by what the second sends |
| `Events.TranslatedPrefix` | src/tui.rs:51-77 | what was sent after the first i firings stays the head of what is sent after all of them: nothing is reordered or removed |
| `Events.TranslatedLength` | src/tui.rs:51-77 | each firing sends at most one event |
| `Events.TranslatedCounts` | src/tui.rs:51-77 | each event is sent exactly as often as the one firing it comes from fired, and events with no origin are never sent |
| `Events.HandlerNeverRenders` | src/tui.rs:48-78 | the handler's loop, which has no render timer, never sends `Render` |
| `Pipeline.FiringAgrees` | src/tui.rs:56-71 | for one firing, whatever the multiplexer sends has the same effect on the counter as the raw notification |
| `Pipeline.PipelineAgrees` | src/tui.rs:51-77 | feeding the counter the channel's events in order ends in the same state as feeding it the terminal input in order |
| `Pipeline.ScenarioEvents` | src/tui.rs:51-77 | for j, tick, release of j, j, render, k, q, the channel holds `Key(j)`, `Tick`, `Key(j)`, `Render`, `Key(k)`, `Key(q)` |
| `Pipeline.ScenarioCounter` | src/main.rs:77-90 | the counter run over those six events reads all six and ends at 1 with the quit flag set |
| `Pipeline.ScenarioPolls` | src/main.rs:54-68 | on the six polls of that scenario, `run` reads all six and ends at 1 with the quit flag set |

## Left out

- Terminal I/O: `event::poll` and `event::read` become the `Poll` sequence. The 250 ms poll timeout is the `Timeout` value.
- Counter.Run: when the poll sequence runs out before a 'q' press or a failure, the model stops. The program would go on polling forever.
- Events.EventHandler.Next: with nothing pending, the real receive waits. The handler keeps its own sender alive, so the channel never closes. The model returns the error that a closed channel would give instead.
- Scheduling: `tokio::spawn`, the fairness of `tokio::select!`, timer periods and jitter are left out. Which source fires is the input sequence of `Firing`s. The periodic-emission counts of ticks and renders over a duration depend on timing and are not modelled.
- Channel failure: `send(..).unwrap()` panics once the receiver is gone. This is a runtime failure of the concurrency layer.
- Terminal lifecycle: `startup`, `shutdown` and `Tui`'s `enter`, `reset` and `exit` are raw-mode and alternate-screen I/O.
- Drawing: `ui`, `draw` and `t.draw` render through ratatui. `ui` only reads the counter. A drawing error, which `?` would also propagate out of `run`, is not modelled.
- `Tui::start` is not modelled beyond its `Render` arm (`src/tui.rs:131-132`), which is the `RenderElapsed` firing. Its input arm has a match that is not exhaustive. The file does not import `KeyEventKind`, and `Tui::new` builds fields that do not exist. So that code does not compile as written.
- `frame_rate` and `tick_rate` are `f64` values turned into durations. Floating point and timing are left out.
- crossterm's `KeyEvent` is reduced to code, modifiers and kind (its `state` field is left out). Only the named (non-character) keys and the kind of a mouse notification are abstract tags.
- Integer width: the counter is an unbounded integer. `i64` overflow on `+= 1` panics in a debug build and wraps in a release build, and the code does not address it.
- The modules declared at `src/main.rs:19-31` are not modelled.
