/**
 * The animation lanes as explicit steps: bit-flow and data-flow particles
 * advanced by ticks, the fan angle, and the timed effects the task checks
 * schedule (bit launches, processor activity and pulses).
 */
module Animation {
  import opened Wrappers

  /** What a particle carries: a bit travelling between two grid points, or a decorative dot. */
  datatype Payload =
    | Bit(one: bool, fromX: int, fromY: int, toX: int, toY: int)
    | Dot(x: int, y: int)

  /** A particle and its progress along its path, in percent. */
  datatype Particle = Particle(progress: nat, payload: Payload)

  /** Progress added by one tick, and the progress at which a particle is dropped. */
  const Step: nat := 2
  const Finished: nat := 100

  function Advance(p: Particle): Particle {
    p.(progress := p.progress + Step)
  }

  /**
   * One tick of a particle lane: `filter(progress < 100)` then `progress + 2`.
   * Exactly the particles still short of 100 survive, each advanced by one step.
   */
  function Tick(ps: seq<Particle>): (r: seq<Particle>)
    ensures |r| <= |ps|
    decreases |ps|
  {
    if ps == [] then []
    else
      var rest := Tick(ps[1..]);
      if ps[0].progress < Finished then [Advance(ps[0])] + rest else rest
  }

  /** The lane after a tick holds exactly the advanced survivors. */
  lemma {:induction false} TickContents(ps: seq<Particle>)
    ensures forall p :: p in ps && p.progress < Finished ==> Advance(p) in Tick(ps)
    ensures forall q :: q in Tick(ps) ==> exists p :: p in ps && p.progress < Finished && q == Advance(p)
    decreases |ps|
  {
    if ps != [] {
      TickContents(ps[1..]);
      assert ps == [ps[0]] + ps[1..];
    }
  }

  /** One particle survives a tick, advanced by one step, exactly when it is short of 100. */
  lemma TickOne(p: Particle)
    ensures p.progress < Finished ==> Tick([p]) == [Advance(p)]
    ensures p.progress >= Finished ==> Tick([p]) == []
  {
    assert [p][1..] == [];
  }

  /**
   * A tick treats the particles one by one and in order: ticking two lanes
   * laid end to end is ticking each of them. With `TickOne` this fixes the
   * order and the multiplicity of the survivors.
   */
  lemma {:induction false} TickAppend(a: seq<Particle>, b: seq<Particle>)
    ensures Tick(a + b) == Tick(a) + Tick(b)
    decreases |a|
  {
    if a == [] {
      assert a + b == b;
    } else {
      assert (a + b)[0] == a[0] && (a + b)[1..] == a[1..] + b;
      TickAppend(a[1..], b);
    }
  }

  /** A tick empties a lane whose particles have all reached 100. */
  lemma {:induction false} TickDrops(ps: seq<Particle>)
    requires forall p :: p in ps ==> p.progress >= Finished
    ensures Tick(ps) == []
    decreases |ps|
  {
    if ps != [] {
      assert forall p :: p in ps[1..] ==> p in ps;
      TickDrops(ps[1..]);
    }
  }

  /** `n` ticks in a row. */
  function Ticks(ps: seq<Particle>, n: nat): seq<Particle>
    decreases n
  {
    if n == 0 then ps else Ticks(Tick(ps), n - 1)
  }

  /** Every particle of the lane has an even progress of at most 100. */
  predicate LaneOk(ps: seq<Particle>) {
    forall p :: p in ps ==> p.progress % 2 == 0 && p.progress <= Finished
  }

  lemma TickKeepsLaneOk(ps: seq<Particle>)
    requires LaneOk(ps)
    ensures LaneOk(Tick(ps))
  {
    TickContents(ps);
  }

  /** A particle at progress `p` is still there, at `p + 2k`, after `k` ticks while it has not yet been seen at 100. */
  lemma {:induction false} ParticleAdvances(p: nat, x: Payload, k: nat)
    requires p + Step * k <= Finished + 1
    ensures Ticks([Particle(p, x)], k) == [Particle(p + Step * k, x)]
    decreases k
  {
    if k > 0 {
      assert Tick([Particle(p, x)]) == [Particle(p + Step, x)];
      ParticleAdvances(p + Step, x, k - 1);
    }
  }

  /**
   * A particle launched at progress 0 is at 100 after 50 ticks and is dropped
   * by the 51st.
   */
  lemma ParticleLifetime(x: Payload)
    ensures Ticks([Particle(0, x)], 50) == [Particle(Finished, x)]
    ensures Ticks([Particle(0, x)], 51) == []
  {
    ParticleAdvances(0, x, 50);
    assert Ticks([Particle(0, x)], 51) == Ticks(Ticks([Particle(0, x)], 50), 1) by {
      TicksAdd([Particle(0, x)], 50, 1);
    }
  }

  lemma {:induction false} TicksAdd(ps: seq<Particle>, a: nat, b: nat)
    ensures Ticks(ps, a + b) == Ticks(Ticks(ps, a), b)
    decreases a
  {
    if a > 0 {
      calc {
        Ticks(ps, a + b);
        Ticks(Tick(ps), (a - 1) + b);
        { TicksAdd(Tick(ps), a - 1, b); }
        Ticks(Ticks(Tick(ps), a - 1), b);
      }
    }
  }

  /** A lane whose particles will each have reached 100 within `n - 1` ticks is empty after `n` ticks. */
  lemma {:induction false} LaneDrains(ps: seq<Particle>, n: nat)
    requires n > 0 && forall p :: p in ps ==> p.progress + Step * (n - 1) >= Finished
    ensures Ticks(ps, n) == []
    decreases n
  {
    if n == 1 {
      TickDrops(ps);
    } else {
      TickContents(ps);
      LaneDrains(Tick(ps), n - 1);
    }
  }

  /** No particle persists: every lane is empty 51 ticks later, whatever it holds now. */
  lemma LaneEmptyAfter51(ps: seq<Particle>)
    ensures Ticks(ps, 51) == []
  {
    LaneDrains(ps, 51);
  }

  /**
   * One data-flow tick: nothing while the power is off; otherwise the optional
   * new dot (the outcome of `Math.random() > 0.8`, with its random position)
   * joins at progress 0 before the same filter-and-advance step.
   */
  function DataFlowTick(powered: bool, ps: seq<Particle>, spawn: Option<Payload>): (r: seq<Particle>)
    ensures !powered ==> r == ps
    ensures powered && spawn.Some? ==> Particle(Step, spawn.value) in r
    ensures powered ==> forall p :: p in ps && p.progress < Finished ==> Advance(p) in r
    ensures powered ==> |r| <= |ps| + (if spawn.Some? then 1 else 0)
    ensures powered ==> forall q :: q in r ==>
      (exists p :: p in ps && p.progress < Finished && q == Advance(p))
      || (spawn.Some? && q == Particle(Step, spawn.value))
  {
    if !powered then ps
    else
      var born := if spawn.Some? then [Particle(0, spawn.value)] else [];
      assert born != [] ==> born[0] in ps + born;
      assert forall p :: p in ps + born ==> p in ps || p in born;
      TickContents(ps + born);
      Tick(ps + born)
  }

  lemma DataFlowKeepsLaneOk(powered: bool, ps: seq<Particle>, spawn: Option<Payload>)
    requires LaneOk(ps)
    ensures LaneOk(DataFlowTick(powered, ps, spawn))
  {
    if powered {
      var born := if spawn.Some? then [Particle(0, spawn.value)] else [];
      assert LaneOk(ps + born);
      TickKeepsLaneOk(ps + born);
    }
  }

  /** A full turn of the fan, in hundredths of a degree (so that `speed / 50` degrees is exact). */
  const FullTurn: nat := 36000

  /**
   * The rotation per fan tick, in hundredths of a degree: `speed / 50` degrees,
   * capped at 50 degrees in the strict curriculum.
   */
  function FanStep(capped: bool, speed: nat): (d: nat)
    ensures 50 * d == 100 * speed || (capped && d == 5000)
    ensures capped ==> d <= 5000
    ensures d <= 2 * speed
  {
    if capped && 2 * speed > 5000 then 5000 else 2 * speed
  }

  /** One fan tick: the angle turns by one step modulo a full turn while the speed is nonzero. */
  function FanTick(capped: bool, speed: nat, angle: nat): (r: nat)
    ensures angle < FullTurn ==> r < FullTurn
    ensures speed == 0 ==> r == angle
    ensures speed > 0 ==> (r - angle - FanStep(capped, speed)) % FullTurn == 0
  {
    if speed > 0 then (angle + FanStep(capped, speed)) % FullTurn else angle
  }

  /**
   * With the strict cap and any speed of at least 2500 RPM (every accepted
   * speed is at least 3000), the fan turns exactly 50 degrees per tick, so its
   * angle stays a whole multiple of 10 degrees.
   */
  lemma StrictFanWholeDegrees(speed: nat, angle: nat)
    requires speed >= 2500 && angle % 1000 == 0
    ensures FanStep(true, speed) == 5000
    ensures FanTick(true, speed, angle) % 1000 == 0
  {
  }

  /** What a timed callback does when it fires. */
  datatype Effect =
    | SetCpuLevel(level: nat)
    | SetCpuPulse(count: nat)
    | SetCpuOp(op: string)
    | SpawnBit(fromX: int, fromY: int, toX: int, toY: int)

  /** A callback scheduled `delay` milliseconds after the command that registered it. */
  datatype Timed = Timed(delay: nat, effect: Effect)

  /** Events listed in strictly increasing firing time. */
  predicate Chronological(evs: seq<Timed>) {
    forall i, j :: 0 <= i < j < |evs| ==> evs[i].delay < evs[j].delay
  }

  /**
   * The launches of a bit burst: `count` bits along the same path, the `i`-th
   * after `i * 100` ms.
   */
  function BitBurst(count: nat, fromX: int, fromY: int, toX: int, toY: int): (r: seq<Timed>)
    ensures |r| == count
    ensures forall i :: 0 <= i < count ==> r[i] == Timed(i * 100, SpawnBit(fromX, fromY, toX, toY))
    ensures Chronological(r)
    decreases count
  {
    if count == 0 then []
    else BitBurst(count - 1, fromX, fromY, toX, toY) + [Timed((count - 1) * 100, SpawnBit(fromX, fromY, toX, toY))]
  }

  /** The processor activity decay of the lenient curriculum: 50 after 500 ms, 0 after 2000 ms. */
  const CpuDecay: seq<Timed> := [Timed(500, SetCpuLevel(50)), Timed(2000, SetCpuLevel(0))]

  /** Timing of the processor pulse interval, in milliseconds. */
  const PulsePeriodMs: nat := 800
  const PulseClearMs: nat := 400
  const IdleAfterMs: nat := 1000

  /** The `k`-th pulse is shown at `800 k` ms and cleared 400 ms later. */
  function Show(k: nat): Timed {
    Timed(PulsePeriodMs * k, SetCpuPulse(k))
  }

  function Clear(k: nat): Timed {
    Timed(PulsePeriodMs * k + PulseClearMs, SetCpuPulse(0))
  }

  /** The showing and clearing of pulses 1 to `n`, in firing order. */
  function Pulses(n: nat): (r: seq<Timed>)
    ensures |r| == 2 * n
    ensures forall k :: 1 <= k <= n ==> r[2 * k - 2] == Show(k) && r[2 * k - 1] == Clear(k)
    ensures forall i :: 0 <= i < |r| ==> PulsePeriodMs <= r[i].delay <= PulsePeriodMs * n + PulseClearMs
    ensures Chronological(r)
    decreases n
  {
    if n == 0 then []
    else Pulses(n - 1) + [Show(n), Clear(n)]
  }

  /**
   * What `triggerCpuCycles(total, op)` schedules after setting the operation:
   * the interval runs `max(total, 1)` times (it only stops once `count >= total`),
   * showing pulse 1, 2, …, n and clearing each, and the operation returns to
   * IDLE 1000 ms after the last pulse.
   */
  function CpuCycles(total: nat): (r: seq<Timed>)
    ensures var n := if total == 0 then 1 else total;
      && |r| == 2 * n + 1
      && (forall k :: 1 <= k <= n ==> r[2 * k - 2] == Show(k) && r[2 * k - 1] == Clear(k))
      && r[2 * n] == Timed(PulsePeriodMs * n + IdleAfterMs, SetCpuOp("IDLE"))
    ensures Chronological(r)
  {
    var n := if total == 0 then 1 else total;
    Pulses(n) + [Timed(PulsePeriodMs * n + IdleAfterMs, SetCpuOp("IDLE"))]
  }

  /**
   * `evs` shows pulse 1, 2, …, n in turn, clears each before the next, and has
   * one more callback after them: callback `2k - 2` sets the counter to `k`,
   * callback `2k - 1` sets it back to 0.
   */
  predicate CountsPulses(evs: seq<Timed>, n: nat) {
    && |evs| == 2 * n + 1
    && forall i :: 0 <= i < 2 * n ==> evs[i].effect == SetCpuPulse(if i % 2 == 0 then i / 2 + 1 else 0)
  }

  /** A processor schedule: callbacks that only set the pulse counter, then one that returns the operation to IDLE. */
  predicate PulsesThenIdle(evs: seq<Timed>) {
    && |evs| > 0
    && evs[|evs| - 1].effect == SetCpuOp("IDLE")
    && forall i :: 0 <= i < |evs| - 1 ==> evs[i].effect.SetCpuPulse?
  }

  /**
   * What the pulse schedule does, without its timing: it counts the pulses
   * 1 to n, clearing each, and only ever sets the pulse counter, to values up
   * to the number of pulses, until its final callback puts the operation back
   * to IDLE.
   */
  lemma CpuCyclesEffects(total: nat)
    ensures var r := CpuCycles(total);
      var n := if total == 0 then 1 else total;
      && CountsPulses(r, n)
      && r[|r| - 1].effect == SetCpuOp("IDLE")
      && forall i :: 0 <= i < |r| - 1 ==> r[i].effect.SetCpuPulse? && r[i].effect.count <= n
  {
    var r := CpuCycles(total);
    var n := if total == 0 then 1 else total;
    forall i | 0 <= i < |r| - 1
      ensures r[i].effect == SetCpuPulse(if i % 2 == 0 then i / 2 + 1 else 0) && r[i].effect.count <= n
    {
      var k := i / 2 + 1;
      assert r[2 * k - 2] == Show(k) && r[2 * k - 1] == Clear(k);
    }
  }
}
