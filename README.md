# Mouse Jitter, modelled in Dafny

Mouse Jitter is a small Windows tool. A global low-level mouse hook tracks
whether the left and right buttons are held. While both are held, a background
loop sends pairs of relative mouse moves, `(h, v)` and then `(-h, -v)`. A
settings window edits the amplitudes `h` and `v` and the delay between moves.
This project models the sequential logic under that tool and proves the
properties listed below.

- `hook.dfy` (module `Hook`) holds the button-state machine of `mouse_hook`.
  It has the four message codes, the step function `Step`, its fold `Run`
  over a sequence of events, and an independent reference definition
  `LastPress`.
- `jitter.dfy` (module `Jitter`) holds the moves one loop iteration emits,
  the net cursor displacement, and `LoopMoves`. `LoopMoves` gives the moves a
  whole run of `while running` emits when the other threads act between
  iterations. Those actions are `Event`s: nothing (`Idle`), a mouse message
  handled by the hook, or the window being closed.
- `settings.dfy` (module `Settings`) holds the integer clamp
  `min(25, max(1, n))`, decimal rendering `Str` (Python's `str` on integers)
  and `ParseDecimal`, the entry text after focus loss (`ValidatedText`), and
  the effect of the Apply button (`Apply`).
- `app.dfy` (module `App`) holds the in-place side:
  - the shared record `JitterConfig` as a class;
  - the OS input queue as `InputSink`, a class with a ghost log of the moves
    sent;
  - `MouseHook`, `JitterIteration` and `JitterLoop` as methods on those
    objects;
  - the window as the class `JitterApp`, with the validators, Apply and
    window close.
  
  Each method is proved against the pure function in the other modules.
  Two client methods, `BothButtonsSession` and `SettingsSession`, show what
  a caller can prove from those contracts alone.
- `wrappers.dfy` holds `Option`.

The hook's handling of a message, one loop iteration and one handler each run
as one atomic sequential step.

## Model

| member | source | states |
|---|---|---|
| Hook.Step | jitter_by_rsanich.py:73-83 | after any message, `active` equals `left_pressed && right_pressed` |
| Hook.StepLeftButton | jitter_by_rsanich.py:74-77 | `WM_LBUTTONDOWN` sets `left_pressed`. `WM_LBUTTONUP` clears it. Both leave `right_pressed` unchanged |
| Hook.StepRightButton | jitter_by_rsanich.py:78-81 | `WM_RBUTTONDOWN` sets `right_pressed`. `WM_RBUTTONUP` clears it. Both leave `left_pressed` unchanged |
| Hook.StepOtherCode | jitter_by_rsanich.py:74-83 | any other code leaves both press flags unchanged. From a consistent state it changes nothing |
| Hook.StepIdempotent | jitter_by_rsanich.py:74-83 | delivering the same message twice gives the same state as delivering it once |
| Hook.Run | jitter_by_rsanich.py:73-83 | the hook applied to a sequence of messages, first message first. `RunAppend`, `RunMatchesLastPress` and `RunPreservesConsistent` establish how it extends, what each flag ends as, and that `active` stays the conjunction |
| Hook.RunAppend | jitter_by_rsanich.py:73-83 | handling `events + [e]` is handling `events` and then handling `e` |
| Hook.RunMatchesLastPress | jitter_by_rsanich.py:73-83 | after any sequence of messages, each press flag is the value set by the last message for that button, or its old value if there is none. After a non-empty sequence, `active` is their conjunction |
| Hook.RunPreservesConsistent | jitter_by_rsanich.py:73-83 | from a consistent state, including the initial all-false one, every reachable state has `active == left && right` |
| Hook.BothButtonsScenario | jitter_by_rsanich.py:74-83 | left down alone gives `active = false`. Then right down gives `true`. Then left up gives `false` |
| Settings.Clamp | jitter_by_rsanich.py:159 | the clamp lands in [1, 25]. It returns `n` when `n` is in range, 1 below the range and 25 above it |
| Settings.ClampIdempotent | jitter_by_rsanich.py:159 | clamping twice is clamping once |
| Settings.ClampMonotone | jitter_by_rsanich.py:169 | the clamp is monotone |
| Settings.Str | jitter_by_rsanich.py:161 | Python's `str()` on an integer: a `-` for negatives, then the digits without leading zeros. `NatStrDigits` and `ParseStr` establish that, for every integer of at most 4300 digits, it reads back as the same integer |
| Settings.ParseDecimal | jitter_by_rsanich.py:159 | Python's `int()` on the entry text: an optional `-`, then 1 to 4300 ASCII digits. Anything else is a parse failure, and `ParseRejectsLongText` shows longer digit text fails |
| Settings.ParseRejectsLongText | jitter_by_rsanich.py:159 | digit text of more than 4300 digits, signed or not, is a parse failure, as for CPython's default `int()` limit |
| Settings.NatStrLength | jitter_by_rsanich.py:161 | a number below 10^k has at most k digits, so the values the window writes stay within the digit limit |
| Settings.ClampedDigits | jitter_by_rsanich.py:159-161 | a clamped amplitude has at most two digits |
| Settings.NatStrDigits | jitter_by_rsanich.py:161 | the decimal text of a natural number is non-empty, all digits, and reads back as that number |
| Settings.ParseStr | jitter_by_rsanich.py:161 | reading back `str(n)` gives `n` for every integer of at most 4300 digits, negative ones included |
| Settings.ValidatedText | jitter_by_rsanich.py:157-165 | the entry text after focus loss: `str` of the clamp when the text parses, otherwise `str` of the stored value. `ValidatedTextParses` and `ValidatedTextIdempotent` establish what it reads as and when a second validation is a no-op |
| Settings.ValidatedTextParses | jitter_by_rsanich.py:157-165 | after focus loss the entry reads as the clamped value when its text parsed. Otherwise, for a stored value of at most 4300 digits, it reads as that stored config value. Every value stored by Apply, and the default 15, is within that limit |
| Settings.ValidatedTextIdempotent | jitter_by_rsanich.py:157-165 | validating a second time changes nothing, when the first parse succeeded or the stored value is in [1, 25] |
| Settings.ValidatedTextNotIdempotent | jitter_by_rsanich.py:163-165 | with stored value 30 and unparsable text, a second validation changes the entry (30 becomes 25) |
| Settings.Apply | jitter_by_rsanich.py:193-199 | the three assignments in order, stopping at the first parse failure. The `Apply*` lemmas below establish each failure case, exact storage and idempotence |
| Settings.ApplyHorizontalFails | jitter_by_rsanich.py:194-199 | if the horizontal text does not parse, nothing changes |
| Settings.ApplyVerticalFails | jitter_by_rsanich.py:194-199 | if only the vertical text fails, `horizontal` is updated and `vertical` and `speed` keep their values |
| Settings.ApplySpeedFails | jitter_by_rsanich.py:194-199 | if only the speed fails, both amplitudes are updated and `speed` is kept |
| Settings.ApplyStoresExactly | jitter_by_rsanich.py:195-197 | when all parses succeed, the values are stored exactly, with no clamping (100 and 0 are stored as given) |
| Settings.ApplyFieldwise | jitter_by_rsanich.py:193-199 | each field holds its parsed value exactly when it and every earlier parse succeeded. Otherwise it keeps its old value |
| Settings.ApplyIdempotent | jitter_by_rsanich.py:193-199 | applying the same entries twice equals applying them once |
| Jitter.DisplacementAppend | jitter_by_rsanich.py:63-65 | the displacement of a concatenation is the sum of the parts' displacements |
| Jitter.IterationMoves | jitter_by_rsanich.py:62-68 | the moves one iteration sends. `IterationReturnsCursor` and `IterationEmitsIffBothHeld` establish two cancelling moves while active, none otherwise, and moves exactly when both buttons are held |
| Jitter.IterationReturnsCursor | jitter_by_rsanich.py:62-68 | an active iteration sends exactly two moves and an inactive one none. The net displacement is (0, 0) |
| Jitter.IterationEmitsIffBothHeld | jitter_by_rsanich.py:62-68 | in a consistent state an iteration sends moves exactly when both press flags are set |
| Jitter.Deliver | jitter_by_rsanich.py:73-83 | what another thread does between iterations: a mouse message is handled by `Hook.Step`, a window close clears `running` (line 202), idle changes nothing |
| Jitter.LoopMoves | jitter_by_rsanich.py:60-68 | the moves of `while running` over a schedule, one iteration per entry. `LoopReturnsCursor`, `LoopMovesAlternate` and `LoopStopsAtClose` establish zero net displacement, strict alternation and stopping at close |
| Jitter.LoopFinal | jitter_by_rsanich.py:60-68 | the state in which that loop exits. `LoopFinalConsistent` and `LoopStopsAtClose` establish that it keeps `active` the conjunction and is not running after a close |
| Jitter.LoopFinalConsistent | jitter_by_rsanich.py:60-83 | a loop run that starts with `active == left && right` ends with it too |
| Jitter.LoopNotRunning | jitter_by_rsanich.py:61 | with `running` false, the loop sends nothing and changes nothing |
| Jitter.LoopReturnsCursor | jitter_by_rsanich.py:60-68 | every run of the loop that ends at an iteration boundary has net displacement (0, 0), over unbounded integers. This does not cover the 32-bit wrap-around or a window close during an iteration (see "## Left out") |
| Jitter.LoopMovesAlternate | jitter_by_rsanich.py:60-68 | the moves sent alternate between `(h, v)` and `(-h, -v)`. The first is `(h, v)` and there is an even number of them |
| Jitter.LoopStopsAtClose | jitter_by_rsanich.py:60-68 | once the window is closed, later events change neither the moves sent nor the final state, and the loop has stopped |
| Jitter.BothButtonsScenario | jitter_by_rsanich.py:60-83 | left down alone sends nothing. Right down while left is held starts the jitter. Left up stops it. After close nothing more is sent |
| App.JitterConfig.constructor | jitter_by_rsanich.py:39-47 | defaults are 15, 15 and 0.001, with `running` true and the three button flags false (a consistent state) |
| App.InputSink.constructor | jitter_by_rsanich.py:51-58 | no move has been sent yet |
| App.InputSink.MoveMouse | jitter_by_rsanich.py:51-58 | one relative move is appended to the log of moves sent |
| App.MouseHook | jitter_by_rsanich.py:73-83 | the press flags and `active` become `Hook.Step` of their old values. No other field of the config is touched |
| App.JitterIteration | jitter_by_rsanich.py:62-68 | the moves sent are `IterationMoves(active, horizontal, vertical)`, and the config is not changed. In a valid config, moves are sent exactly when both buttons are held |
| App.JitterLoop | jitter_by_rsanich.py:60-68 | the moves sent are `LoopMoves` of the initial state and the schedule. The final button and `running` state is `LoopFinal`. A valid config stays valid. The amplitudes are unchanged |
| App.JitterApp.constructor | jitter_by_rsanich.py:105-114 | both entries read "15" and both sliders stand at 15 |
| App.JitterApp.ValidateHorizontal | jitter_by_rsanich.py:157-165 | the entry becomes `str(clamp(n))` and the slider `clamp(n)` when the text parses as `n`. Otherwise the entry becomes `str(config.horizontal)` and the slider is kept. The config is not changed |
| App.JitterApp.ValidateVertical | jitter_by_rsanich.py:167-175 | the same for the vertical entry and slider, falling back to `config.vertical` |
| App.JitterApp.UpdateSettings | jitter_by_rsanich.py:193-199 | the horizontal, vertical and speed fields become `Apply` of their old values and the parse results. Nothing else changes |
| App.JitterApp.OnClosing | jitter_by_rsanich.py:201-203 | `running` becomes false |

## Left out

- WinAPI bindings (`MSG`, `MouseInput`, `Input`, `SetWindowsHookExW`, `GetMessageW`, `SendInput`, `CallNextHookEx`, jitter_by_rsanich.py:8-37, 51-58, 84-89) are foreign OS calls. A sent move is modelled as an entry in `InputSink`'s ghost log.
- Forwarding each message to `CallNextHookEx` is not modelled, because it is a foreign call with no visible effect on the state.
- App.InputSink.MoveMouse: records the Python integers; the truncation of `dx`/`dy` to a 32-bit `c_long` by ctypes (jitter_by_rsanich.py:54-55) is not modelled.
- Jitter.LoopReturnsCursor: holds for unbounded integers only. Apply stores amplitudes unclamped, so `h` or `v` can be congruent to 2^31 modulo 2^32. Both halves then wrap to -2^31 and the net displacement is not zero.
- Jitter.LoopReturnsCursor: covers runs that stop between iterations. The jitter thread is a daemon (jitter_by_rsanich.py:189). Closing the window can end the process during the sleep at line 64, leaving the cursor offset by `(h, v)`.
- Threads and the unsynchronised sharing of `config` are not modelled, because their interleaving is a concurrency concern. The loop sees other threads only between iterations, at most one `Event` per gap.
- Because of that, an Apply between the two halves of an iteration (which would make the cursor drift) is outside the model. Apply is not an `Event` of the loop, so `h` and `v` stay fixed during a modelled run.
- App.JitterLoop: runs over a finite schedule, one iteration per schedule entry, so a run that never stops is described by its finite prefixes only.
- `time.sleep`, the delay between moves and the 10 ms poll (jitter_by_rsanich.py:64, 66, 68) are wall-clock behaviour and cannot be modelled.
- Jitter.LoopMoves: never reads `speed`, so it misses the error path of the sleep. Apply stores `float()` of the speed entry unclamped (jitter_by_rsanich.py:197). A negative or NaN speed makes `time.sleep` at line 64 raise ValueError, and an infinite one raises OverflowError. The jitter thread then dies after one half-move `(h, v)`, leaving the cursor offset, and sends nothing more. `LoopMoves` instead keeps sending `(h, v), (-h, -v)` pairs, so `LoopMovesAlternate`'s even count does not hold of the source on that path.
- App.JitterLoop: the same sleep error path is not modelled. After a negative, NaN or infinite speed has been applied, the source's loop ends after one half-move, while the method's contract promises the moves of `LoopMoves`.
- Jitter.LoopReturnsCursor: does not cover the same sleep error path either. A negative, NaN or infinite speed ends the source's loop after `(h, v)`, so the net displacement is `(h, v)` rather than (0, 0).
- `validate_speed`, the float clamp of `speed` and its `.3f` formatting (jitter_by_rsanich.py:177-185) are floating point and string formatting. So are the slider callbacks (jitter_by_rsanich.py:149-151). `speed` is an opaque `real` that Apply only assigns, and the outcome of `float()` on the speed entry is passed in as an `Option<real>`.
- Settings.ParseDecimal: stands for Python's `int()` on the entry text. It accepts an optional `-` followed by 1 to 4300 ASCII digits and nothing else. Python's `int()` also accepts surrounding whitespace, a leading `+`, underscores between digits and non-ASCII digits, which `ParseDecimal` rejects.
- Settings.ParseDecimal: the 4300-digit limit is CPython's default since 3.11. An interpreter without the limit, or with another `sys.set_int_max_str_digits` setting, accepts longer or shorter text. Leading zeros count towards the limit.
- Settings.Str: does not model the matching limit on `str()` of an integer with more than 4300 digits. The values it is applied to come from a successful parse, from the clamp or from the default 15.
- The tkinter window, layout, slider widgets and `destroy` (jitter_by_rsanich.py:91-146, 201-208) are UI plumbing. A slider is modelled as the integer it is set to.
