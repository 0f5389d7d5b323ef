# Acer hardware explorer — a Dafny model of the tutorial engine

The Acer hardware explorer is a one-page tutorial. A learner switches on a
simulated laptop and drives it with seven typed commands:

- `battery.powerOn()`
- `fan.start(speed=N)`
- a name typed on an on-screen keyboard
- `ram.store(...)`
- `cpu.execute(...)`
- `storage.write(...)`
- `screen.display(...)`

Each command is checked against a regular expression. An accepted command
changes the simulated device, completes the task and may start animations.
A rejected command counts as a failed attempt, and enough failures show a hint.

The repository holds two curricula built on the same engine:

- **Lenient** (`my-react-site/src/App.jsx`): any fan speed and any file
  size are accepted, the memory is a five-entry log, and the processor
  task only looks for `cpu.execute`.
- **Strict** (`src/App.jsx`):
  - the fan must run at 3000–3050 RPM;
  - memory is keyed by a hexadecimal address;
  - the processor task takes an allowed operation and a cycle count;
  - the file must be exactly 16777216 bytes;
  - the display text must contain `248832000`;
  - Next is refused until the open task is complete;
  - the hint appears one failure earlier.

The model treats both as two configurations (`Config.Variant`) of one engine.
It is made of these modules:

- `Text`: whitespace, `trim`, `includes`, `parseInt` on digit strings and
  `toUpperCase`.
- `Pattern`: a small regular-expression engine covering the command
  shapes, which are literals, `\s*` runs and one-or-more capture groups over
  a character class. The greedy matcher is proved equal to JavaScript's
  backtracking semantics on every pattern whose runs are followed by a
  character outside their class. `String.prototype.match` is modelled as the
  leftmost such match, and for each pattern a canonical text is proved to be
  read back as the captures it was written with.
- `Commands`: the seven regular expressions of both files, the typed
  parameters extracted from them, and their round trips.
- `Device`: the simulated hardware, the five-entry RAM log and the
  address-keyed RAM store.
- `Animation`: the particle lanes (bit flow and data flow), the fan
  rotation, and the timer callbacks a command schedules.
- `Tasks`: the seven task checks of both curricula.
- `Tutorial`: the whole session. This covers running a command, the
  attempt counter and hint, navigation, the keyboard and name submission,
  firing pending callbacks, animation ticks, and which actions the page
  offers. It also proves the invariants every run of actions keeps.

Timers are not executed. Each `setTimeout` becomes a `Timed(delay, effect)`
entry in a queue of pending callbacks, and any pending callback may fire as
a step. Each `setInterval` body is a step that may happen at any time.
`Math.random()` becomes a step parameter: the bit value of a launched bit
and whether a data-flow dot is spawned.

Three behaviours of the code are easy to misread, and the model follows
the code in each:

- The strict display task shows the text on the screen even when it
  rejects it (`src/App.jsx:184-186`). It is the one check that changes the
  device on a rejected command.
- The strict Next gate is the disabled button (`src/App.jsx:489`), not a
  check inside `goToNextTask`. The model places it in `Tutorial.Enabled`.
- Both pages count every run of a command as an attempt and reset the count
  on success. So the hint condition reads the count before the current run:
  `attempts >= 2` in the lenient page, `>= 1` in the strict one.

## Model

| member | source | states |
|---|---|---|
| Text.Trim | my-react-site/src/App.jsx:194 | the trimmed command is a contiguous piece of the input with only whitespace cut from each end, and it starts and ends with non-whitespace |
| Text.TrimEmptyIffAllWs | my-react-site/src/App.jsx:220 | a typed name trims to nothing exactly when it is all whitespace, both directions |
| Text.TrimIdempotent | src/App.jsx:241-242 | trimming a trimmed name changes nothing |
| Text.Includes | my-react-site/src/App.jsx:38 | `includes` holds exactly when the needle occurs at some index |
| Text.DecimalValue | src/App.jsx:105 | every natural number has a non-empty digit string, its numeral, that `parseInt` reads back as that number |
| Text.DecimalOfDigits | src/App.jsx:105 | a digit string without leading zeros is the numeral `Decimal` writes for the value `parseInt` reads from it, so the two are inverse on such numerals |
| Text.LeadingZeroValue | src/App.jsx:105 | a leading zero does not change the value `parseInt` reads |
| Text.UpperToWord | src/App.jsx:147 | a string upper-cases to a word of capitals exactly when it spells that word letter by letter, each letter as the capital, its lower case, or (for I and S) the dotless i or long s |
| Pattern.MatchAt | my-react-site/src/App.jsx:50 | a greedy match ends inside the text, and its captures are one non-empty run of each group's class |
| Pattern.MatchAtSound | my-react-site/src/App.jsx:50 | whatever the greedy matcher returns is a match under the backtracking semantics |
| Pattern.MatchesIsGreedy | my-react-site/src/App.jsx:50 | on a separated pattern every backtracking match is the one the greedy matcher returns |
| Pattern.MatchUnique | my-react-site/src/App.jsx:50 | a separated pattern matches at a position in at most one way |
| Pattern.Search | my-react-site/src/App.jsx:50 | the search returns the leftmost position where the pattern matches, and none when no position matches |
| Pattern.SearchIsJsMatch | my-react-site/src/App.jsx:50 | the leftmost greedy search finds exactly the match JavaScript's `match` finds, and fails exactly when no match exists |
| Pattern.Captures | my-react-site/src/App.jsx:50-51 | the captures are returned exactly when the command has the shape with those captures, and each capture is non-empty and inside its class |
| Pattern.RenderCaptures | my-react-site/src/App.jsx:50-51 | the canonical text of a separated pattern is read back as exactly the captures it was written with |
| Pattern.MatchRender | my-react-site/src/App.jsx:50-51 | from any position where the rest of the text is a canonical rendering, the greedy matcher consumes it all and returns its captures |
| Pattern.SeparatedByFirstSetsSound | my-react-site/src/App.jsx:50 | the syntactic first-set check on a pattern implies the semantic separation the equivalence needs |
| Pattern.FirstSetCovers | my-react-site/src/App.jsx:50 | every character that can start a match of a pattern is in its computed first set |
| Commands.FanPatternShape | my-react-site/src/App.jsx:50 | the fan expression is separated and has one digit group |
| Commands.RamLogPatternShape | my-react-site/src/App.jsx:69 | the lenient memory expression is separated and has one non-quote group |
| Commands.RamAtPatternShape | src/App.jsx:126 | the strict memory expression is separated and has a non-quote group and a hex-digit group |
| Commands.CpuPatternShape | src/App.jsx:145 | the processor expression is separated and has a non-quote group and a digit group |
| Commands.WritePatternShape | src/App.jsx:164 | the storage expression is separated and has a non-quote group and a digit group |
| Commands.DisplayPatternShape | src/App.jsx:182 | the display expression is separated and has one non-quote group |
| Commands.FanSpeed | my-react-site/src/App.jsx:50-52 | a speed `n` is read exactly when the command has the fan shape with digits whose value is `n` |
| Commands.RamLogText | my-react-site/src/App.jsx:69-71 | a text is read exactly when the command has the lenient memory shape with that capture, which is non-empty and quote-free |
| Commands.RamAtArgs | src/App.jsx:126-129 | a text and hex digits are read exactly when the command has the strict memory shape with those captures |
| Commands.CpuArgs | src/App.jsx:145-148 | an operation and cycle count are read exactly when the command has the processor shape with that operation and digits of that value |
| Commands.StorageArgs | src/App.jsx:164-167 | a name and size are read exactly when the command has the storage shape with that name and digits of that value |
| Commands.DisplayText | src/App.jsx:182-184 | a text is read exactly when the command has the display shape with that capture |
| Commands.FanRoundTrip | my-react-site/src/App.jsx:50-52 | `fan.start(speed=ds)` is read back as the value of `ds` |
| Commands.RamLogRoundTrip | my-react-site/src/App.jsx:69-71 | `ram.store("t")` is read back as `t` |
| Commands.RamAtRoundTrip | src/App.jsx:126-129 | `ram.store("t", 0xh)` is read back as `t` and `h` |
| Commands.CpuRoundTrip | src/App.jsx:145-148 | `cpu.execute("op", cycles=ds)` is read back as `op` and the value of `ds` |
| Commands.StorageRoundTrip | src/App.jsx:164-167 | `storage.write("name", ds)` is read back as `name` and the value of `ds` |
| Commands.DisplayRoundTrip | src/App.jsx:182-184 | `screen.display("t")` is read back as `t` |
| Device.LogRam | my-react-site/src/App.jsx:71 | the log keeps the newest five entries ending with the new one; below capacity nothing is lost, at capacity exactly the oldest goes |
| Device.Without | src/App.jsx:132 | the filter keeps exactly the entries not at the address |
| Device.WithoutSize | src/App.jsx:132 | the filter removes exactly as many entries as were at the address |
| Device.WithoutKeepsOrder | src/App.jsx:132 | the kept entries stay in their original order |
| Device.WithoutAppend | src/App.jsx:132 | filtering a concatenation filters each part |
| Device.StoreAt | src/App.jsx:131-134 | after a store the new entry is last, no other entry is at its address, and the others are exactly the old entries at other addresses |
| Device.CountAtMostOne | src/App.jsx:131-134 | with distinct addresses an address holds at most one entry, and one exactly when some entry is there |
| Device.StoreAtSize | src/App.jsx:131-134 | re-storing a used address keeps the RAM size; storing a new address grows it by one |
| Device.StoreAtKeepsDistinct | src/App.jsx:131-134 | the store keeps addresses distinct |
| Device.StoreAtIdempotent | src/App.jsx:131-134 | storing the same text at the same address twice equals storing it once |
| Device.StoreTwice | src/App.jsx:131-134 | two stores at a free address add one entry in total, which holds the second text |
| Animation.Tick | src/App.jsx:209-212 | a tick never adds a particle to a lane |
| Animation.TickContents | my-react-site/src/App.jsx:184-188 | every particle short of 100 survives a tick advanced by 2, and every particle after the tick is such a survivor |
| Animation.TickOne | my-react-site/src/App.jsx:186-187 | one particle survives a tick, advanced by 2, exactly when it is short of 100, and is dropped otherwise |
| Animation.TickAppend | src/App.jsx:209-212 | a tick handles the particles one by one in order: ticking two lanes laid end to end is ticking each, so order and repeats are kept |
| Animation.TickDrops | my-react-site/src/App.jsx:184-188 | a lane whose particles are all at 100 or more is empty after a tick |
| Animation.TickKeepsLaneOk | src/App.jsx:209-212 | ticks keep every progress even and at most 100 |
| Animation.ParticleAdvances | my-react-site/src/App.jsx:186-187 | a particle moves by 2 per tick until it has been seen at 100 |
| Animation.ParticleLifetime | src/App.jsx:209-212 | a launched bit is at 100 after 50 ticks and gone after 51 |
| Animation.TicksAdd | src/App.jsx:209-212 | `a + b` ticks are `a` ticks followed by `b` ticks |
| Animation.LaneDrains | src/App.jsx:209-212 | a lane whose particles all reach 100 within `n - 1` ticks is empty after `n` |
| Animation.LaneEmptyAfter51 | my-react-site/src/App.jsx:184-188 | every lane is empty 51 ticks later, whatever it holds |
| Animation.DataFlowTick | my-react-site/src/App.jsx:161-179 | unpowered, the lane is unchanged; powered, every particle short of 100 survives advanced, a spawned dot appears at progress 2, nothing else is in the lane, and at most one particle is added |
| Animation.DataFlowKeepsLaneOk | my-react-site/src/App.jsx:161-179 | the data-flow step keeps progresses even and at most 100 |
| Animation.FanStep | src/App.jsx:199 | the step is `speed / 50` degrees, except that the strict page caps it at 50 degrees; it is never more than `speed / 50` degrees |
| Animation.FanTick | my-react-site/src/App.jsx:152-155 | the angle stays below a full turn, stands still at speed 0, and otherwise moves by one step modulo 360 degrees |
| Animation.StrictFanWholeDegrees | src/App.jsx:199-201 | at the strict accepted speeds the step is the 50-degree cap, so the angle stays on whole multiples of 10 degrees |
| Animation.BitBurst | my-react-site/src/App.jsx:134-146 | the burst launches `count` bits on the same path, the `i`-th after `100 i` ms, in firing order |
| Animation.Pulses | src/App.jsx:54-61 | pulse `k` is shown at `800 k` ms and cleared 400 ms later, in firing order and inside the interval's span |
| Animation.CpuCycles | src/App.jsx:51-63 | the interval shows and clears `max(total, 1)` pulses, then returns the operation to IDLE 1000 ms after the last pulse, in firing order |
| Animation.CpuCyclesEffects | src/App.jsx:54-61 | the schedule of `n = max(total, 1)` pulses sets the pulse counter to `k` and then back to 0 for each `k` from 1 to `n`, never above `n`, and its last callback returns the operation to IDLE |
| Tasks.TriggerCpuCycles | src/App.jsx:51-63 | only the shown operation changes at once; it is never empty and is the given operation when that is non-empty; the registered callbacks, in firing order, set the pulse counter to 1, 2, …, `max(total, 1)`, clearing each to 0 before the next, and the one after them returns the operation to IDLE |
| Tasks.PowerCheck | my-react-site/src/App.jsx:37-43 | accepted exactly when the command contains `battery.powerOn`, then the power is on; nothing is scheduled |
| Tasks.FanCheck | src/App.jsx:102-113 | accepted exactly when the command has the fan shape with an accepted speed, which becomes the fan speed; a rejection changes nothing |
| Tasks.NameCheck | src/App.jsx:119 | passes exactly when a user name has been submitted, and changes nothing |
| Tasks.Address | src/App.jsx:129 | the address is `0x` and one character per input character, the upper case of that character; for hex digits each is a decimal digit or a capital `A` to `F` |
| Tasks.RamCheck | src/App.jsx:125-138 | lenient: accepted on the log shape and logs the text; strict: accepted on the address shape and stores the text at the normalised address; a rejection changes nothing |
| Tasks.CpuCheck | src/App.jsx:144-157 | lenient: accepted when `cpu.execute` occurs, activity 100 and its decay scheduled; strict: accepted exactly on an allowed operation in any case with at least one cycle, the operation shown and its pulses scheduled |
| Tasks.WriteBurst | src/App.jsx:65-80 | a storage write launches eight bits in the lenient page and ten in the strict one, the `i`-th after `100 i` ms, each from the processor's position to the storage's, in firing order |
| Tasks.StorageCheck | src/App.jsx:163-175 | accepted exactly on the storage shape with an accepted size; exactly one record is appended and the bit burst is scheduled |
| Tasks.DisplayCheck | src/App.jsx:181-189 | accepted exactly on the display shape (strict: with the throughput in the text); the text is shown whenever the shape matches, accepted or not |
| Tasks.FanBand | src/App.jsx:105-110 | on canonical fan commands the strict page accepts exactly 3000 to 3050 RPM, the lenient page every speed |
| Tasks.StorageSize | src/App.jsx:167-171 | on canonical storage commands the strict page accepts exactly the texture size and appends exactly that record |
| Tasks.DisplayThroughput | src/App.jsx:184-186 | on canonical display commands the strict page accepts exactly texts containing the throughput, and the screen shows the text either way |
| Tasks.CpuOperation | src/App.jsx:147-153 | on canonical processor commands the strict page accepts exactly an allowed operation in any letter case with a positive count, and shows it upper-cased |
| Tasks.FanExample3000 | src/App.jsx:107 | `fan.start(speed=3000)` is accepted |
| Tasks.FanExample3050 | src/App.jsx:107 | `fan.start(speed=3050)` is accepted |
| Tasks.FanExample2999 | src/App.jsx:107 | `fan.start(speed=2999)` is rejected |
| Tasks.FanExample3051 | src/App.jsx:107 | `fan.start(speed=3051)` is rejected |
| Tasks.StorageExample16777216 | src/App.jsx:168 | writing 16777216 bytes is accepted |
| Tasks.StorageExample16777215 | src/App.jsx:168 | writing 16777215 bytes is rejected |
| Tasks.DisplayExampleAccepted | src/App.jsx:186 | a text containing `248832000` is accepted |
| Tasks.DisplayExampleRejected | src/App.jsx:184-186 | `248832` is rejected but shown on the screen |
| Tasks.CpuExampleLowerCase | src/App.jsx:147-151 | a lower-case allowed operation is accepted |
| Tasks.CpuExampleUnknownOp | src/App.jsx:149-151 | an operation outside the four is rejected |
| Tasks.CpuExampleNoCycles | src/App.jsx:151 | zero cycles are rejected |
| Tasks.AddressIgnoresCase | src/App.jsx:126-129 | two hex-digit strings name the same address exactly when they have the same length and differ at most in the letter case of each digit |
| Tasks.AllowedOpSpelling | src/App.jsx:147-151 | an operation name passes the allowed-operation test exactly when it spells ADD, SUB, MUL or DIV letter by letter, in any letter case |
| Tasks.RamStoreCanonical | src/App.jsx:126-134 | a canonical strict store is accepted and stores the text at the normalised address |
| Tasks.RestoreSameAddress | src/App.jsx:131-134 | storing under `0xa1` after `0xA1` replaces the entry: one entry at the address, holding the second text |
| Tutorial.ExecuteCode | my-react-site/src/App.jsx:193-209 | the open task completes exactly on acceptance; success clears the counter, hint and editor; failure counts one attempt and shows the hint once enough failures preceded; other tasks' flags and the keyboard are untouched |
| Tutorial.GoNext | my-react-site/src/App.jsx:238-245 | moves one task forward and clears the editor, hint and counter, except on the last task |
| Tutorial.GoPrev | my-react-site/src/App.jsx:229-236 | moves one task back and clears the editor, hint and counter, except on the first task |
| Tutorial.NextThenPrev | my-react-site/src/App.jsx:229-245 | going forward then back returns to the same task with the editor, hint and counter cleared |
| Tutorial.KeyPress | src/App.jsx:233-236 | a key appends its text to the typed name, the space for the strict `SPACE` key, and changes nothing else in the session |
| Tutorial.Backspace | src/App.jsx:238 | removes exactly the last typed character, and nothing when none is typed |
| Tutorial.DeleteUndoesKey | src/App.jsx:233-238 | deleting right after a one-character key restores the typed name |
| Tutorial.KeysTypeOneCharacter | src/App.jsx:233-236 | every key types one character, and the strict `SPACE` key types a space |
| Tutorial.SubmitName | src/App.jsx:240-249 | a name that trims to nothing changes nothing; otherwise the trimmed name is the user name, the screen greets it, the name task completes, and the strict keyboard is cleared |
| Tutorial.SubmitIdempotent | src/App.jsx:240-249 | submitting twice has the effect of submitting once |
| Tutorial.Fire | src/App.jsx:67-77 | a bit launch appends exactly one particle at progress 0, carrying the random bit, to the bit lane; the other callbacks leave that lane alone; no callback changes the open task, the completion flags or the queue |
| Tutorial.FirePending | src/App.jsx:67-77 | firing a pending callback removes exactly that callback from the queue |
| Tutorial.Step | my-react-site/src/App.jsx:570-580 | an action the page does not offer changes nothing |
| Tutorial.ValidStart | src/App.jsx:8-26 | the opening session satisfies the session invariant |
| Tutorial.CpuCyclesIdleOnly | src/App.jsx:51-63 | the pulse schedule only ever sets the operation back to IDLE |
| Tutorial.RamKeepsDeviceOk | src/App.jsx:131-134 | the memory task keeps RAM addresses distinct, and the lenient log within five entries |
| Tutorial.CpuKeepsDeviceOk | src/App.jsx:147-153 | the processor task shows only IDLE or an allowed operation |
| Tutorial.StorageKeepsDeviceOk | src/App.jsx:168-170 | the storage task keeps every strict file at the texture size |
| Tutorial.CheckKeepsDeviceOk | src/App.jsx:82-192 | every task check keeps the device invariant and schedules only harmless callbacks |
| Tutorial.ExecuteKeepsValid | src/App.jsx:217-231 | running a command keeps the session invariant |
| Tutorial.FireKeepsValid | src/App.jsx:65-80 | firing a callback keeps the session invariant |
| Tutorial.FanTurnKeepsValid | src/App.jsx:196-205 | a fan tick keeps the angle within a turn, and on whole 10-degree steps in the strict page |
| Tutorial.UserStepKeepsValid | src/App.jsx:442-489 | every learner action the page offers keeps the session invariant |
| Tutorial.TimerStepKeepsValid | src/App.jsx:207-215 | every callback and animation tick keeps the session invariant |
| Tutorial.StepKeepsValid | src/App.jsx:384-489 | every step keeps the session invariant |
| Tutorial.RunKeepsValid | src/App.jsx:384-489 | every run of actions from a valid session ends valid |
| Tutorial.StrictProgress | src/App.jsx:489 | after any run of actions from the opening page of the strict curriculum, every task before the open one is complete, every file has the texture size, and the fan is off or at 3000 to 3050 RPM |
| Tutorial.LenientRamBounded | my-react-site/src/App.jsx:71 | after any run of actions from the opening page of the lenient curriculum, the RAM log holds at most five entries |
| Tutorial.CheckOkIgnoresDevice | my-react-site/src/App.jsx:32-125 | whether a check accepts never depends on the device state |
| Tutorial.OneFailure | my-react-site/src/App.jsx:204-207 | a rejected run counts one attempt, keeps the command and the completion flags, and leaves the command rejected |
| Tutorial.ConsecutiveFailures | my-react-site/src/App.jsx:193-209 | `k` runs of a rejected command add `k` attempts, complete nothing, and show the hint exactly once a run found enough failures before it |
| Tutorial.MoreFailures | my-react-site/src/App.jsx:193-209 | the same, for at least one run |
| Tutorial.HintTiming | src/App.jsx:229 | from a fresh task the hint appears on the third failure in the lenient page and on the second in the strict one, and not before |

## Left out

- Rendering, styling, the component and file pop-ups, and the instruction
  texts that mention the user name: presentation only.
- Real time. Callbacks fire in any order the step sequence chooses, not in
  delay order. Intervals are steps that may come at any moment, and their
  clean-up on unmount is not modelled.
- `Date.now()` ids and timestamps of RAM entries and files. Records carry
  only their text, address, name and size.
- Animation.DataFlowTick: a spawned dot's position is any pair of integers
  chosen by the step, not the `Math.random() * 100` fractions the page draws.
  Only the progress of a dot matters to the lane.
- The strict power-surge flag (`src/App.jsx:91-92`), a visual effect with
  no bearing on any check.
- Floating-point fan rotation: angles are hundredths of a degree, where
  `speed / 50` degrees is exact.
- Text.DigitsValue: exact for any length, whereas `parseInt` rounds values
  past 2^53 to the nearest double. The strict acceptance sets (3000 to 3050
  RPM, 16777216 bytes) lie far below that, so strict acceptance is exact.
  The lenient page accepts any speed and size, so for numbers past 2^53 the
  stored fan speed and file size are the exact value. The page would store
  the rounded one, for example 9007199254740992 for `speed=9007199254740993`.
- Text.UpperChar: exact only for the characters whose JavaScript upper case
  is a single ASCII letter. Every other character is left as it is. Only the
  membership of the result in the four operation names matters, and no
  other character can upper-case to part of one of them.
- Text.Upper: keeps the length, whereas JavaScript's `toUpperCase` can turn
  one character into several (`ß` into `SS`, the ligature `ﬁ` into `FI`).
  The expansions made only of ASCII letters (SS, FF, FI, FL, FFI, FFL, ST)
  occur in none of the four operation names. So the allowed-operation test
  gives the same answer.
- Tutorial.Backspace: removes one Unicode scalar value, whereas
  `slice(0, -1)` removes one UTF-16 code unit. The results differ when the
  last character lies outside the Basic Multilingual Plane, because the page
  keeps half of its surrogate pair. The on-screen keyboards type only
  letters and the space.
- Tasks.Check: only a dispatcher over the seven checks. Its properties are
  stated per check and in `Tutorial.CheckKeepsDeviceOk`.
- Tasks.TriggerCpuCycles: for an empty operation the contract says only
  that the shown operation is non-empty, not that it is `ADD`. The strict
  check calls it only with an allowed operation, so the default is never used.
- The keyboard keys: a `Key` action may carry any string, whereas the pages
  offer only letters and the space.
