/**
 * The tutorial session: which task is open, which are complete, the
 * attempt counter and hint, the command being edited, the on-screen keyboard,
 * the device, the animation lanes, and the callbacks waiting to fire. Every
 * user action and every timer callback is one step.
 */
module Tutorial {
  import opened Wrappers
  import opened Text
  import opened Pattern
  import opened Commands
  import opened Config
  import opened Device
  import opened Animation
  import opened Tasks

  datatype Session = Session(
    task: nat,
    complete: seq<bool>,
    attempts: nat,
    showHint: bool,
    code: string,
    tempName: string,
    userName: string,
    device: Device,
    bits: seq<Particle>,
    dots: seq<Particle>,
    fanAngle: nat,
    pending: seq<Timed>)

  /** The session as the page opens: first task, nothing complete, everything empty. */
  const Start := Session(0, seq(TaskCount, _ => false), 0, false, "", "", "", Initial, [], [], 0, [])

  /** The task index is in range and there is one completion flag per task. */
  predicate WellFormed(s: Session) {
    s.task < TaskCount && |s.complete| == TaskCount
  }

  /**
   * Run the open task's check on the trimmed command. Success marks exactly
   * the open task complete and clears the attempt counter, the hint and the
   * editor; failure counts one more attempt and shows the hint once enough
   * attempts had already failed, never hiding it. Either way the check's
   * effect on the device is kept and its callbacks are queued.
   */
  function ExecuteCode(v: Variant, s: Session): (r: Session)
    requires WellFormed(s)
    ensures WellFormed(r) && r.task == s.task
    ensures var res := Check(v, s.task, Trim(s.code), s.userName, s.device);
      && r.device == res.device
      && r.pending == s.pending + res.scheduled
      && (forall i :: 0 <= i < TaskCount ==> r.complete[i] == (s.complete[i] || (res.ok && i == s.task)))
      && (res.ok ==> r.attempts == 0 && !r.showHint && r.code == "")
      && (!res.ok ==> r.attempts == s.attempts + 1 && r.code == s.code
                      && (r.showHint <==> s.showHint || s.attempts >= HintAfter(v)))
    ensures r.tempName == s.tempName && r.userName == s.userName
    ensures r.bits == s.bits && r.dots == s.dots && r.fanAngle == s.fanAngle
  {
    var res := Check(v, s.task, Trim(s.code), s.userName, s.device);
    var s' := s.(device := res.device, pending := s.pending + res.scheduled);
    if res.ok then
      s'.(complete := s.complete[s.task := true], showHint := false, attempts := 0, code := "")
    else
      s'.(attempts := s.attempts + 1, showHint := s.showHint || s.attempts >= HintAfter(v))
  }

  /** Moving to another task clears the editor, the hint and the attempt counter. */
  function MoveTo(s: Session, task: nat): Session {
    s.(task := task, code := "", showHint := false, attempts := 0)
  }

  /** Next task, unless the last one is open. */
  function GoNext(s: Session): (r: Session)
    requires WellFormed(s)
    ensures WellFormed(r)
    ensures s.task < TaskCount - 1 ==> r == MoveTo(s, s.task + 1)
    ensures s.task == TaskCount - 1 ==> r == s
  {
    if s.task < TaskCount - 1 then MoveTo(s, s.task + 1) else s
  }

  /** Previous task, unless the first one is open. */
  function GoPrev(s: Session): (r: Session)
    requires WellFormed(s)
    ensures WellFormed(r)
    ensures s.task > 0 ==> r == MoveTo(s, s.task - 1)
    ensures s.task == 0 ==> r == s
  {
    if s.task > 0 then MoveTo(s, s.task - 1) else s
  }

  /** The text a keyboard key types: the strict keyboard's `SPACE` key types a space, every other key its own label. */
  function KeyText(v: Variant, key: string): string {
    if v == Strict && key == "SPACE" then " " else key
  }

  function KeyPress(v: Variant, key: string, s: Session): (r: Session)
    ensures r.tempName == s.tempName + KeyText(v, key)
    ensures r == s.(tempName := r.tempName)
  {
    s.(tempName := s.tempName + KeyText(v, key))
  }

  /** Removes the last typed character, if there is one. */
  function Backspace(s: Session): (r: Session)
    ensures |s.tempName| > 0 ==> r.tempName + [s.tempName[|s.tempName| - 1]] == s.tempName
    ensures |s.tempName| == 0 ==> r.tempName == ""
    ensures r == s.(tempName := r.tempName)
  {
    if |s.tempName| > 0 then s.(tempName := s.tempName[..|s.tempName| - 1]) else s
  }

  /** The screen greeting after a name is submitted. */
  function Greeting(v: Variant, name: string): string {
    match v
    case Lenient => name
    case Strict => "USER: " + name + " AUTHENTICATED"
  }

  /**
   * Submits the typed name. A name that trims to nothing changes nothing;
   * otherwise the trimmed name becomes the user name, the screen greets it,
   * the name task is complete, and the strict keyboard is cleared.
   */
  function SubmitName(v: Variant, s: Session): (r: Session)
    requires WellFormed(s)
    ensures WellFormed(r)
    ensures Trim(s.tempName) == "" ==> r == s
    ensures Trim(s.tempName) != "" ==>
      && r.userName == Trim(s.tempName)
      && r.device == s.device.(screenText := Greeting(v, Trim(s.tempName)))
      && r.complete == s.complete[NameTask := true]
      && r.tempName == (if v == Strict then "" else s.tempName)
      && r.task == s.task && r.code == s.code && r.attempts == s.attempts && r.showHint == s.showHint
  {
    var name := Trim(s.tempName);
    if |name| > 0 then
      s.(userName := name,
         device := s.device.(screenText := Greeting(v, name)),
         complete := s.complete[NameTask := true],
         tempName := if v == Strict then "" else s.tempName)
    else s
  }

  /** A timer callback fires. `coin` is the random bit value a launched bit carries. */
  function Fire(e: Effect, coin: bool, s: Session): (r: Session)
    ensures e.SpawnBit? ==> r == s.(bits := s.bits + [Particle(0, Bit(coin, e.fromX, e.fromY, e.toX, e.toY))])
    ensures !e.SpawnBit? ==> r.bits == s.bits
    ensures r.task == s.task && r.complete == s.complete && r.pending == s.pending
  {
    match e
    case SetCpuLevel(n) => s.(device := s.device.(cpuLevel := n))
    case SetCpuPulse(n) => s.(device := s.device.(cpuPulse := n))
    case SetCpuOp(op) => s.(device := s.device.(cpuOp := op))
    case SpawnBit(fx, fy, tx, ty) => s.(bits := s.bits + [Particle(0, Bit(coin, fx, fy, tx, ty))])
  }

  /** A pending callback as the queue sees it: fired and removed. */
  function FirePending(i: nat, coin: bool, s: Session): (r: Session)
    requires i < |s.pending|
    ensures |r.pending| == |s.pending| - 1
    ensures multiset(r.pending) + multiset{s.pending[i]} == multiset(s.pending)
  {
    var rest := s.pending[..i] + s.pending[i + 1..];
    assert s.pending == s.pending[..i] + [s.pending[i]] + s.pending[i + 1..];
    Fire(s.pending[i].effect, coin, s.(pending := rest))
  }

  /** What a learner or a timer can do. */
  datatype Action =
    | Edit(text: string)
    | Execute
    | Next
    | Prev
    | Key(key: string)
    | Delete
    | Submit
    | Callback(index: nat, coin: bool)
    | BitTick
    | DataTick(spawn: Option<Payload>)
    | FanTurn

  /**
   * Which actions the page offers. The editor and the run button are hidden on
   * the name task. The lenient Next button is disabled only on the last task;
   * the strict one only while the open task is incomplete. The lenient
   * keyboard is always shown and its submit button on the name task; the
   * strict keyboard, submit included, only on the name task until it is
   * complete. Only the lenient page runs the data-flow lane.
   */
  predicate Enabled(v: Variant, s: Session, a: Action)
    requires WellFormed(s)
  {
    match a
    case Edit(_) => s.task != NameTask
    case Execute => s.task != NameTask
    case Next => if v == Lenient then s.task != TaskCount - 1 else s.complete[s.task]
    case Prev => s.task != 0
    case Key(_) => v == Lenient || (s.task == NameTask && !s.complete[NameTask])
    case Delete => v == Lenient || (s.task == NameTask && !s.complete[NameTask])
    case Submit => s.task == NameTask && (v == Lenient || !s.complete[NameTask])
    case Callback(i, _) => i < |s.pending|
    case BitTick => true
    case DataTick(_) => v == Lenient
    case FanTurn => true
  }

  /** One step of the session: the action's effect when the page offers it, nothing otherwise. */
  function Step(v: Variant, s: Session, a: Action): (r: Session)
    requires WellFormed(s)
    ensures WellFormed(r)
    ensures !Enabled(v, s, a) ==> r == s
  {
    if !Enabled(v, s, a) then s
    else match a
      case Edit(text) => s.(code := text)
      case Execute => ExecuteCode(v, s)
      case Next => GoNext(s)
      case Prev => GoPrev(s)
      case Key(key) => KeyPress(v, key, s)
      case Delete => Backspace(s)
      case Submit => SubmitName(v, s)
      case Callback(i, coin) => FirePending(i, coin, s)
      case BitTick => s.(bits := Tick(s.bits))
      case DataTick(spawn) => s.(dots := DataFlowTick(s.device.powered, s.dots, spawn))
      case FanTurn => s.(fanAngle := FanTick(v == Strict, s.device.fanSpeed, s.fanAngle))
  }

  /** A run of actions from a session. */
  function Run(v: Variant, s: Session, actions: seq<Action>): (r: Session)
    requires WellFormed(s)
    ensures WellFormed(r)
    decreases |actions|
  {
    if actions == [] then s else Run(v, Step(v, s, actions[0]), actions[1..])
  }

  /** A queued callback never sets the processor operation to anything but IDLE. */
  predicate IdleOnly(e: Effect) {
    e.SetCpuOp? ==> e.op == "IDLE"
  }

  predicate QueueOk(evs: seq<Timed>) {
    forall i :: 0 <= i < |evs| ==> IdleOnly(evs[i].effect)
  }

  /** The operations the strict processor display can show. */
  const ShownOps: seq<string> := ["IDLE"] + AllowedOps

  /**
   * What each curriculum keeps true of the device. Lenient: the RAM log holds
   * at most five entries. Strict: RAM addresses are distinct, the fan is off
   * or at an accepted speed, every stored file has the texture size, and the
   * processor shows IDLE or an allowed operation.
   */
  predicate DeviceOk(v: Variant, d: Device) {
    match v
    case Lenient => |d.ram| <= RamLogCapacity
    case Strict =>
      && DistinctAddresses(d.ram)
      && (d.fanSpeed == 0 || SpeedAccepted(Strict, d.fanSpeed))
      && (forall i :: 0 <= i < |d.files| ==> d.files[i].size == TextureBytes)
      && d.cpuOp in ShownOps
  }

  /**
   * The session invariant: well formed, lanes in shape, the fan angle inside
   * one turn, the name task complete only with a user name, the queue and the
   * device in shape; in the strict curriculum also the fan angle on whole
   * steps of 10 degrees and every task before the open one complete.
   */
  predicate Valid(v: Variant, s: Session) {
    && WellFormed(s)
    && LaneOk(s.bits) && LaneOk(s.dots)
    && s.fanAngle < FullTurn
    && (s.complete[NameTask] ==> s.userName != "")
    && QueueOk(s.pending)
    && DeviceOk(v, s.device)
    && (v == Strict ==> s.fanAngle % 1000 == 0 && forall i :: 0 <= i < s.task ==> s.complete[i])
  }

  lemma ValidStart(v: Variant)
    ensures Valid(v, Start)
  {
  }

  lemma CpuCyclesIdleOnly(total: nat)
    ensures QueueOk(CpuCycles(total))
  {
    var r := CpuCycles(total);
    var n := if total == 0 then 1 else total;
    forall i | 0 <= i < |r|
      ensures IdleOnly(r[i].effect)
    {
      if i < 2 * n {
        var k := i / 2 + 1;
        assert r[2 * k - 2] == Show(k) && r[2 * k - 1] == Clear(k);
      }
    }
  }

  lemma WriteBurstIdleOnly(v: Variant)
    ensures QueueOk(WriteBurst(v))
  {
  }

  lemma RamKeepsDeviceOk(v: Variant, c: string, d: Device)
    requires DeviceOk(v, d)
    ensures DeviceOk(v, RamCheck(v, c, d).device)
  {
    var r := RamCheck(v, c, d);
    if r.ok && v == Strict {
      var t, h :| ShapeFound(c, RamAtPattern, [t, h]) && r.device == d.(ram := StoreAt(d.ram, t, Address(h)));
      StoreAtKeepsDistinct(d.ram, t, Address(h));
    }
  }

  lemma CpuKeepsDeviceOk(v: Variant, c: string, d: Device)
    requires DeviceOk(v, d)
    ensures DeviceOk(v, CpuCheck(v, c, d).device)
    ensures QueueOk(CpuCheck(v, c, d).scheduled)
  {
    var r := CpuCheck(v, c, d);
    if r.ok && v == Strict {
      var op, ds :| ShapeFound(c, CpuPattern, [op, ds]) && AllDigits(ds) && Upper(op) in AllowedOps && DigitsValue(ds) > 0
        && r.device == d.(cpuOp := Upper(op)) && r.scheduled == CpuCycles(DigitsValue(ds));
      CpuCyclesIdleOnly(DigitsValue(ds));
    }
  }

  lemma StorageKeepsDeviceOk(v: Variant, c: string, d: Device)
    requires DeviceOk(v, d)
    ensures DeviceOk(v, StorageCheck(v, c, d).device)
    ensures QueueOk(StorageCheck(v, c, d).scheduled)
  {
    var r := StorageCheck(v, c, d);
    if r.ok {
      var f :| r.device == d.(files := d.files + [f]) && SizeAccepted(v, f.size);
      WriteBurstIdleOnly(v);
      if v == Strict {
        AppendSameSize(d.files, f, TextureBytes);
      }
    }
  }

  /** Every check keeps the device in shape and queues only harmless callbacks. */
  lemma CheckKeepsDeviceOk(v: Variant, task: nat, c: string, userName: string, d: Device)
    requires task < TaskCount && DeviceOk(v, d)
    ensures DeviceOk(v, Check(v, task, c, userName, d).device)
    ensures QueueOk(Check(v, task, c, userName, d).scheduled)
  {
    match task
    case 0 =>
    case 1 =>
    case 2 =>
    case 3 => RamKeepsDeviceOk(v, c, d);
    case 4 => CpuKeepsDeviceOk(v, c, d);
    case 5 => StorageKeepsDeviceOk(v, c, d);
    case 6 =>
  }

  lemma ExecuteKeepsValid(v: Variant, s: Session)
    requires Valid(v, s)
    ensures Valid(v, ExecuteCode(v, s))
  {
    var r := ExecuteCode(v, s);
    var res := Check(v, s.task, Trim(s.code), s.userName, s.device);
    CheckKeepsDeviceOk(v, s.task, Trim(s.code), s.userName, s.device);
    assert QueueOk(s.pending + res.scheduled) by {
      forall i | 0 <= i < |s.pending + res.scheduled|
        ensures IdleOnly((s.pending + res.scheduled)[i].effect)
      {
        if i >= |s.pending| {
          assert (s.pending + res.scheduled)[i] == res.scheduled[i - |s.pending|];
        }
      }
    }
  }

  lemma FireKeepsValid(v: Variant, i: nat, coin: bool, s: Session)
    requires Valid(v, s) && i < |s.pending|
    ensures Valid(v, FirePending(i, coin, s))
  {
    var e := s.pending[i].effect;
    var rest := s.pending[..i] + s.pending[i + 1..];
    assert QueueOk(rest) by {
      forall j | 0 <= j < |rest|
        ensures IdleOnly(rest[j].effect)
      {
        if j < i {
          assert rest[j] == s.pending[j];
        } else {
          assert rest[j] == s.pending[j + 1];
        }
      }
    }
    assert IdleOnly(e);
    if e.SpawnBit? {
      var b := Particle(0, Bit(coin, e.fromX, e.fromY, e.toX, e.toY));
      assert LaneOk(s.bits + [b]);
    }
  }

  lemma FanTurnKeepsValid(v: Variant, s: Session)
    requires Valid(v, s)
    ensures Valid(v, s.(fanAngle := FanTick(v == Strict, s.device.fanSpeed, s.fanAngle)))
  {
    if v == Strict && s.device.fanSpeed > 0 {
      StrictFanWholeDegrees(s.device.fanSpeed, s.fanAngle);
    }
  }

  /** The learner's own actions keep the session invariant. */
  lemma UserStepKeepsValid(v: Variant, s: Session, a: Action)
    requires Valid(v, s) && Enabled(v, s, a)
    requires a.Edit? || a.Execute? || a.Next? || a.Prev? || a.Key? || a.Delete? || a.Submit?
    ensures Valid(v, Step(v, s, a))
  {
    match a
    case Execute => ExecuteKeepsValid(v, s);
    case Next =>
    case Prev =>
    case Submit =>
    case Edit(_) =>
    case Key(_) =>
    case Delete =>
  }

  /** Timer callbacks and animation ticks keep the session invariant. */
  lemma TimerStepKeepsValid(v: Variant, s: Session, a: Action)
    requires Valid(v, s) && Enabled(v, s, a)
    requires a.Callback? || a.BitTick? || a.DataTick? || a.FanTurn?
    ensures Valid(v, Step(v, s, a))
  {
    match a
    case Callback(i, coin) => FireKeepsValid(v, i, coin, s);
    case BitTick => TickKeepsLaneOk(s.bits);
    case DataTick(spawn) => DataFlowKeepsLaneOk(s.device.powered, s.dots, spawn);
    case FanTurn => FanTurnKeepsValid(v, s);
  }

  /** Every step, offered or not, keeps the session invariant. */
  lemma StepKeepsValid(v: Variant, s: Session, a: Action)
    requires Valid(v, s)
    ensures Valid(v, Step(v, s, a))
  {
    if Enabled(v, s, a) {
      if a.Callback? || a.BitTick? || a.DataTick? || a.FanTurn? {
        TimerStepKeepsValid(v, s, a);
      } else {
        UserStepKeepsValid(v, s, a);
      }
    }
  }

  /** Any run of actions from a valid session ends in a valid session. */
  lemma {:induction false} RunKeepsValid(v: Variant, s: Session, actions: seq<Action>)
    requires Valid(v, s)
    ensures Valid(v, Run(v, s, actions))
    decreases |actions|
  {
    if actions != [] {
      StepKeepsValid(v, s, actions[0]);
      RunKeepsValid(v, Step(v, s, actions[0]), actions[1..]);
    }
  }

  /**
   * In the strict curriculum the open task is never ahead of the learner:
   * after any run from the opening page, every task before the open one is
   * complete, every file stored has the texture size, and the fan runs at an
   * accepted speed or not at all.
   */
  lemma StrictProgress(actions: seq<Action>)
    ensures var r := Run(Strict, Start, actions);
      && (forall i :: 0 <= i < r.task ==> r.complete[i])
      && (forall i :: 0 <= i < |r.device.files| ==> r.device.files[i].size == TextureBytes)
      && (r.device.fanSpeed == 0 || 3000 <= r.device.fanSpeed <= 3050)
  {
    ValidStart(Strict);
    RunKeepsValid(Strict, Start, actions);
  }

  /** In the lenient curriculum the RAM log never holds more than five entries. */
  lemma LenientRamBounded(actions: seq<Action>)
    ensures |Run(Lenient, Start, actions).device.ram| <= RamLogCapacity
  {
    ValidStart(Lenient);
    RunKeepsValid(Lenient, Start, actions);
  }

  /** Whether a check accepts never depends on the device it would change. */
  lemma CheckOkIgnoresDevice(v: Variant, task: nat, c: string, userName: string, d1: Device, d2: Device)
    requires task < TaskCount
    ensures Check(v, task, c, userName, d1).ok == Check(v, task, c, userName, d2).ok
  {
  }

  /** The session after `k` runs of the same command. */
  function Failures(v: Variant, s: Session, k: nat): (r: Session)
    requires WellFormed(s)
    ensures WellFormed(r)
    decreases k
  {
    if k == 0 then s else Failures(v, ExecuteCode(v, s), k - 1)
  }

  /** One rejected run leaves the command rejected and counts one attempt. */
  lemma OneFailure(v: Variant, s: Session)
    requires WellFormed(s) && !Check(v, s.task, Trim(s.code), s.userName, s.device).ok
    ensures var r := ExecuteCode(v, s);
      && AfterFailures(s, r, 1, HintAfter(v)) && r.userName == s.userName
      && !Check(v, r.task, Trim(r.code), r.userName, r.device).ok
  {
    var r := ExecuteCode(v, s);
    CheckOkIgnoresDevice(v, s.task, Trim(s.code), s.userName, s.device, r.device);
  }

  /**
   * `r` is `s` after `k` rejected runs: same task, code and completion, `k`
   * more attempts, and the hint shown exactly when it was already shown or
   * some run found at least `after` failures before it.
   */
  predicate AfterFailures(s: Session, r: Session, k: nat, after: nat) {
    && r.task == s.task && r.code == s.code && r.complete == s.complete
    && r.attempts == s.attempts + k
    && (r.showHint <==> s.showHint || (k > 0 && s.attempts + k > after))
  }

  /** One rejected run in front of `k - 1` others makes `k` rejected runs. */
  lemma AfterFailuresCons(s: Session, s1: Session, r: Session, k: nat, after: nat)
    requires k > 0 && AfterFailures(s, s1, 1, after) && AfterFailures(s1, r, k - 1, after)
    ensures AfterFailures(s, r, k, after)
  {
  }

  /**
   * Repeating a rejected command: every run is rejected again, the attempt
   * counter grows by one per run, nothing is completed, and the hint is shown
   * exactly once some run found more than `HintAfter(v)` - 1 failures before it.
   */
  lemma {:induction false} ConsecutiveFailures(v: Variant, s: Session, k: nat)
    requires WellFormed(s) && !Check(v, s.task, Trim(s.code), s.userName, s.device).ok
    ensures AfterFailures(s, Failures(v, s, k), k, HintAfter(v))
    decreases k, 1
  {
    if k == 0 {
      assert Failures(v, s, k) == s;
    } else {
      MoreFailures(v, s, k);
    }
  }

  /** The inductive step of `ConsecutiveFailures`: one rejected run, then `k - 1` more. */
  lemma {:induction false} MoreFailures(v: Variant, s: Session, k: nat)
    requires WellFormed(s) && !Check(v, s.task, Trim(s.code), s.userName, s.device).ok && k > 0
    ensures AfterFailures(s, Failures(v, s, k), k, HintAfter(v))
    decreases k, 0
  {
    var s1 := ExecuteCode(v, s);
    OneFailure(v, s);
    ConsecutiveFailures(v, s1, k - 1);
    var r := Failures(v, s1, k - 1);
    assert Failures(v, s, k) == r;
    AfterFailuresCons(s, s1, r, k, HintAfter(v));
  }

  /**
   * From a fresh task the hint appears on the third failed run in the lenient
   * curriculum and on the second in the strict one, and not before.
   */
  lemma HintTiming(v: Variant, s: Session)
    requires WellFormed(s) && s.attempts == 0 && !s.showHint
    requires !Check(v, s.task, Trim(s.code), s.userName, s.device).ok
    ensures !Failures(v, s, HintAfter(v)).showHint
    ensures Failures(v, s, HintAfter(v) + 1).showHint
    ensures v == Lenient ==> !Failures(v, s, 2).showHint && Failures(v, s, 3).showHint
    ensures v == Strict ==> !Failures(v, s, 1).showHint && Failures(v, s, 2).showHint
  {
    ConsecutiveFailures(v, s, HintAfter(v));
    ConsecutiveFailures(v, s, HintAfter(v) + 1);
  }

  /** Going back after going forward returns to the same task with the editor, hint and counter cleared. */
  lemma NextThenPrev(s: Session)
    requires WellFormed(s) && s.task < TaskCount - 1
    ensures GoPrev(GoNext(s)) == MoveTo(s, s.task)
  {
  }

  /** Deleting right after typing a one-character key restores the typed name. */
  lemma DeleteUndoesKey(v: Variant, key: string, s: Session)
    requires |KeyText(v, key)| == 1
    ensures Backspace(KeyPress(v, key, s)) == s
  {
    var t := s.tempName + KeyText(v, key);
    assert t[..|t| - 1] == s.tempName;
  }

  /** Every key of both keyboards types one character: a letter, or the space. */
  lemma KeysTypeOneCharacter(v: Variant, key: string)
    requires |key| == 1 || (v == Strict && key == "SPACE")
    ensures |KeyText(v, key)| == 1
    ensures v == Strict && key == "SPACE" ==> KeyText(v, key) == " "
  {
  }

  /** Submitting the same typed name twice has the effect of submitting it once. */
  lemma SubmitIdempotent(v: Variant, s: Session)
    requires WellFormed(s)
    ensures SubmitName(v, SubmitName(v, s)) == SubmitName(v, s)
  {
    if v == Strict {
      StrictSubmitClears(s);
    } else {
      LenientSubmitKeeps(s);
    }
  }

  /** A strict submission leaves an empty keyboard, so a second one changes nothing. */
  lemma StrictSubmitClears(s: Session)
    requires WellFormed(s)
    ensures SubmitName(Strict, SubmitName(Strict, s)) == SubmitName(Strict, s)
  {
    if Trim(s.tempName) != "" {
      EmptyTrim();
    }
  }

  /** A lenient submission keeps the typed name, and submitting it again writes the same values. */
  lemma LenientSubmitKeeps(s: Session)
    requires WellFormed(s)
    ensures SubmitName(Lenient, SubmitName(Lenient, s)) == SubmitName(Lenient, s)
  {
    var name := Trim(s.tempName);
    if name != "" {
      var r1 := SubmitName(Lenient, s);
      assert r1.tempName == s.tempName;
      assert r1.complete[NameTask := true] == r1.complete;
      assert r1.device.(screenText := Greeting(Lenient, name)) == r1.device;
    }
  }

  lemma EmptyTrim()
    ensures Trim("") == ""
  {
  }
}
