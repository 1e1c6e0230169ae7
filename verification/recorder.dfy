/**
 * The time loop `FPUModel::Run`: the chain is stepped until `t` reaches
 * `tMax`, and every `tRecord = 20 * dt` a sample of the observables is
 * taken. The output streams are replaced by the sequence of samples they
 * would receive, one `Sample` per recording time.
 */
module Recorder {
  import opened Wrappers
  import opened Chain
  import opened Modes

  /** Steps between two samples: `tRecord = 20 * dt`. */
  const RecordEvery: nat := 20

  /** The three parts of the force row: linear, quadratic and cubic. */
  datatype Force = Force(linear: real, quadratic: real, cubic: real)

  /** One phase-portrait point; `crossed` says whether it also goes to the
      second, gated portrait. */
  datatype PhasePoint = PhasePoint(position: real, velocity: real, crossed: bool)

  /**
   * Everything written at one recording time. `force` is None when it
   * would read chain entries the program never wrote, `phase` is None when
   * it would read the never-filled `(a, aOld)` slot.
   */
  datatype Sample = Sample(
    t: real,
    totalEnergy: real,
    probe: real,
    energies: seq<real>,
    positions: seq<real>,
    force: Option<Force>,
    phase: Option<PhasePoint>)

  /** The result of the mode loop: the object afterwards and the two rows. */
  datatype Scan = Scan(fpu: FPU, energies: seq<real>, positions: seq<real>)

  /** The object after a query, with everything but the slot as before. */
  ghost predicate SameButCache(s: FPU, r: FPU) {
    r.cfg == s.cfg && r.libm == s.libm && r.chain == s.chain
  }

  /**
   * `for (i = k; i <= nModes; i++)`, each pass calling `ModeEnergy(i, 1)`
   * and then `ModePosition(i, 0)`: the position query reuses the pair the
   * energy query has just put in the slot, so both rows are about mode `i`.
   */
  function ScanModes(s: FPU, k: int): (r: Scan)
    requires Valid(s) && 1 <= k
    ensures Valid(r.fpu) && SameButCache(s, r.fpu)
    ensures |r.energies| == |r.positions| == if k <= s.cfg.nModes then s.cfg.nModes - k + 1 else 0
    ensures forall j :: 0 <= j < |r.energies| ==>
              r.energies[j] == Energy(s, k + j, Coefficients(s, k + j))
    ensures forall j :: 0 <= j < |r.positions| ==>
              r.positions[j] == Position(s, Coefficients(s, k + j))
    ensures r.fpu.cache == if k <= s.cfg.nModes then Some(Coefficients(s, s.cfg.nModes)) else s.cache
    decreases s.cfg.nModes - k + 1
  {
    if k > s.cfg.nModes then Scan(s, [], [])
    else
      var e := ModeEnergy(s, k, 1).value;
      var p := ModePosition(e.fpu, k, 0).value;
      var rest := ScanModes(p.fpu, k + 1);
      CacheIrrelevant(s, p.fpu);
      Scan(rest.fpu, [e.value] + rest.energies, [p.value] + rest.positions)
  }

  /** The mode formulas read the configuration, the chain and the library
      functions, never the slot. */
  lemma CacheIrrelevant(s: FPU, s': FPU)
    requires Valid(s) && SameButCache(s, s')
    ensures Valid(s')
    ensures forall k :: Coefficients(s', k) == Coefficients(s, k)
    ensures forall k, p :: Energy(s', k, p) == Energy(s, k, p)
    ensures forall p :: Position(s', p) == Position(s, p)
    ensures forall p :: Velocity(s', p) == Velocity(s, p)
  {
    assert Norm(s') == Norm(s);
    forall k
      ensures HalfOmega(s', k) == HalfOmega(s, k)
    {
    }
  }

  /** The particle the force row is about: one past `nModes`, or 1 when no
      mode is tracked (`ModeLoop` shows it is the mode loop's exit counter). */
  function ForceIndex(nModes: int): int {
    if nModes >= 1 then nModes + 1 else 1
  }

  /**
   * The mode loop of `Run` as written, `for (i = 1; i <= nModes; i++)`,
   * keeping its counter: it fills the same rows and leaves the same slot as
   * `ScanModes`, and the counter it leaves behind is `ForceIndex(nModes)`,
   * the particle the force row then reads.
   */
  method ModeLoop(s: FPU) returns (f: FPU, energies: seq<real>, positions: seq<real>, i: int)
    requires Valid(s)
    ensures Scan(f, energies, positions) == ScanModes(s, 1)
    ensures i == ForceIndex(s.cfg.nModes)
  {
    var nModes := s.cfg.nModes;
    f, energies, positions := s, [], [];
    i := 1;
    while i <= nModes
      invariant 1 <= i && (nModes >= 1 ==> i <= nModes + 1) && (nModes < 1 ==> i == 1)
      invariant Valid(f) && SameButCache(s, f)
      invariant |energies| == |positions| == i - 1
      invariant forall j :: 0 <= j < i - 1 ==> energies[j] == Energy(s, j + 1, Coefficients(s, j + 1))
      invariant forall j :: 0 <= j < i - 1 ==> positions[j] == Position(s, Coefficients(s, j + 1))
      invariant f.cache == if i > 1 then Some(Coefficients(s, i - 1)) else s.cache
    {
      ModePass(s, f, i);
      var e := ModeEnergy(f, i, 1).value;
      var p := ModePosition(e.fpu, i, 0).value;
      energies := energies + [e.value];
      positions := positions + [p.value];
      f := p.fpu;
      i := i + 1;
    }
    LoopMatchesScan(s, f, energies, positions);
  }

  /** One pass of the mode loop on any object that differs from `s` only in
      its slot: both queries answer for mode `i`, and mode `i`'s pair is left
      in the slot. */
  lemma ModePass(s: FPU, f: FPU, i: int)
    requires Valid(s) && Valid(f) && SameButCache(s, f)
    ensures var e := ModeEnergy(f, i, 1).value;
            var p := ModePosition(e.fpu, i, 0).value;
            && e.value == Energy(s, i, Coefficients(s, i))
            && p.value == Position(s, Coefficients(s, i))
            && Valid(p.fpu) && SameButCache(s, p.fpu)
            && p.fpu.cache == Some(Coefficients(s, i))
  {
    CacheIrrelevant(s, f);
  }

  /** Rows and slot pinned element by element are `ScanModes`'s result. */
  lemma LoopMatchesScan(s: FPU, f: FPU, energies: seq<real>, positions: seq<real>)
    requires Valid(s) && Valid(f) && SameButCache(s, f)
    requires var n := if s.cfg.nModes >= 1 then s.cfg.nModes else 0;
             |energies| == |positions| == n
    requires forall j :: 0 <= j < |energies| ==> energies[j] == Energy(s, j + 1, Coefficients(s, j + 1))
    requires forall j :: 0 <= j < |positions| ==> positions[j] == Position(s, Coefficients(s, j + 1))
    requires f.cache == if s.cfg.nModes >= 1 then Some(Coefficients(s, s.cfg.nModes)) else s.cache
    ensures Scan(f, energies, positions) == ScanModes(s, 1)
  {
    var scan := ScanModes(s, 1);
    assert scan.fpu == f;
    forall j | 0 <= j < |energies|
      ensures scan.energies[j] == energies[j] && scan.positions[j] == positions[j]
    {
    }
    assert scan.energies == energies;
    assert scan.positions == positions;
  }

  /** The three parts of the force row are the integrator's spring force
      with `dt^2` divided out, read at the same particle. */
  lemma ForceIsStencilForce(c: Config, ch: Chain, i: int)
    requires WellFormed(c, ch) && 1 <= i <= c.nParticles
    ensures var f := ForceOn(c, ch, i);
            Accel(c, ch.x, i) == c.dt * c.dt * (f.linear + f.quadratic + f.cubic)
  {
  }

  /** A phase-portrait point read from the pair `p`. */
  function PointOf(f: FPU, p: Pair): PhasePoint
    requires Valid(f)
  {
    PhasePoint(Position(f, p), Velocity(f, p), Crossed(p))
  }

  /** The force row on particle `i`, from the current displacements. */
  function ForceOn(c: Config, ch: Chain, i: int): Force
    requires WellFormed(c, ch) && 1 <= i <= c.nParticles
  {
    var X := ch.x[i + 1] - ch.x[i];
    var Y := ch.x[i] - ch.x[i - 1];
    Force(X - Y, c.alpha * (X * X - Y * Y), c.beta * (X * X * X - Y * Y * Y))
  }

  /**
   * One recording: total energy, the probe particle `x[nParticles / 3]`,
   * the mode rows, the force row, and the phase point read by
   * `ModePosition(1, 0)`, `ModeVelocity(1, 0)` and `ModeCross(3, 0)` from
   * whatever the slot holds after the mode loop.
   */
  function TakeSample(s: FPU, t: real): (r: (FPU, Sample))
    requires Valid(s)
    ensures Valid(r.0) && SameButCache(s, r.0)
    ensures r.0.cache == if s.cfg.nModes >= 1 then Some(Coefficients(s, s.cfg.nModes)) else s.cache
    ensures r.1.t == t && r.1.totalEnergy == TotalEnergy(s.cfg, s.chain)
    ensures r.1.probe == s.chain.x[s.cfg.nParticles / 3]
    ensures |r.1.energies| == |r.1.positions| == if s.cfg.nModes >= 1 then s.cfg.nModes else 0
    ensures forall j :: 0 <= j < |r.1.energies| ==>
              r.1.energies[j] == Energy(s, j + 1, Coefficients(s, j + 1))
    ensures forall j :: 0 <= j < |r.1.positions| ==>
              r.1.positions[j] == Position(s, Coefficients(s, j + 1))
    ensures r.1.force.Some? <==> ForceIndex(s.cfg.nModes) <= s.cfg.nParticles
    ensures r.1.force.Some? ==> r.1.force.value == ForceOn(s.cfg, s.chain, ForceIndex(s.cfg.nModes))
    ensures r.1.phase.Some? <==> r.0.cache.Some?
    ensures r.1.phase.Some? ==>
              var p := r.0.cache.value;
              && r.1.phase.value.position == Position(s, p)
              && r.1.phase.value.velocity == Velocity(s, p)
              && (r.1.phase.value.crossed <==> p.a * p.aOld <= 0.0)
    ensures r.1.force == ForceRow(s.cfg, s.chain)
    ensures s.cfg.nModes >= 1 ==> r.1.phase == Some(PointOf(s, Coefficients(s, s.cfg.nModes)))
    ensures s.cfg.nModes < 1 ==>
              r.1.phase == if s.cache.None? then None else Some(PointOf(s, s.cache.value))
  {
    var c := s.cfg;
    var scan := ScanModes(s, 1);
    CacheIrrelevant(s, scan.fpu);
    var sample := Sample(t, TotalEnergy(c, s.chain), s.chain.x[c.nParticles / 3],
                         scan.energies, scan.positions, ForceRow(c, s.chain), Phase(scan.fpu));
    (scan.fpu, sample)
  }

  /** The force row: on particle `ForceIndex(nModes)`, None when that
      particle's right neighbour lies past the chain. */
  function ForceRow(c: Config, ch: Chain): Option<Force>
    requires WellFormed(c, ch)
  {
    var i := ForceIndex(c.nModes);
    if i <= c.nParticles then Some(ForceOn(c, ch, i)) else None
  }

  /** `ModePosition(1, 0)`, `ModeVelocity(1, 0)` and `ModeCross(3, 0)`:
      three non-refreshing queries, all reading the same slot. */
  function Phase(f: FPU): (r: Option<PhasePoint>)
    requires Valid(f)
    ensures r.Some? <==> f.cache.Some?
    ensures r.Some? ==>
              var p := f.cache.value;
              && r.value.position == Position(f, p)
              && r.value.velocity == Velocity(f, p)
              && (r.value.crossed <==> p.a * p.aOld <= 0.0)
  {
    if f.cache.None? then None
    else Some(PhasePoint(ModePosition(f, 1, 0).value.value,
                         ModeVelocity(f, 1, 0).value.value,
                         ModeCross(f, 3, 0).value.value))
  }

  /**
   * The local state of `Run`: the clock `t`, the countdown `tTest`, the
   * samples written so far, and `steps`, the number of passes made (the
   * loop has no such counter; it names the chain's age for the contracts).
   */
  datatype LoopState = LoopState(fpu: FPU, steps: nat, t: real, tTest: real, samples: seq<Sample>)

  /** `dt` added to 0.0 `k` times, the way the loop builds its clocks. */
  function Multiple(k: nat, dt: real): real {
    if k == 0 then 0.0 else Multiple(k - 1, dt) + dt
  }

  /** Adding `dt` `k` times gives `k * dt`. */
  lemma {:induction false} MultipleIsProduct(k: nat, dt: real)
    ensures Multiple(k, dt) == k as real * dt
  {
    if k > 0 {
      MultipleIsProduct(k - 1, dt);
      assert k as real * dt == (k - 1) as real * dt + dt;
    }
  }

  /** With `dt > 0`, `k` additions of `dt` give a positive sum exactly when `k > 0`. */
  lemma {:induction false} MultipleSign(k: nat, dt: real)
    requires dt > 0.0
    ensures Multiple(k, dt) > 0.0 <==> k > 0
  {
    if k > 0 {
      MultipleSign(k - 1, dt);
    }
  }

  /** The clock `t` after `steps` steps. */
  function Time(c: Config, steps: nat): real {
    Multiple(steps, c.dt)
  }

  /** Steps left before the next recording, after `steps` steps. */
  function Countdown(steps: nat): (k: nat)
    ensures 1 <= k <= RecordEvery
  {
    RecordEvery - steps % RecordEvery
  }

  /**
   * The clock arithmetic of `Run` over the reals: `t += dt` moves to the
   * next multiple of `dt`, and with `tTest == k * dt`, `tTest -= dt` gives
   * `(k - 1) * dt`, which is `<= 0` exactly when `k` was 1.
   */
  lemma ClockAsReals(c: Config, steps: nat, k: nat)
    requires ValidConfig(c) && k >= 1
    ensures Time(c, steps) + c.dt == Time(c, steps + 1)
    ensures Multiple(k, c.dt) - c.dt == Multiple(k - 1, c.dt)
    ensures Multiple(k, c.dt) - c.dt <= 0.0 <==> k == 1
  {
    MultipleSign(k - 1, c.dt);
  }

  /**
   * One pass of the `while (t < tMax)` body: step the chain, `t += dt`,
   * `tTest -= dt`, and when `tTest <= 0` reset it to `tRecord` and record.
   */
  function Tick(r: LoopState): (r': LoopState)
    requires Valid(r.fpu)
    ensures Valid(r'.fpu) && r'.fpu.cfg == r.fpu.cfg && r'.fpu.libm == r.fpu.libm
    ensures r'.fpu.chain == Step(r.fpu.cfg, r.fpu.chain)
    ensures r'.steps == r.steps + 1 && r'.t == r.t + r.fpu.cfg.dt
    ensures r.tTest - r.fpu.cfg.dt > 0.0 ==>
              r'.tTest == r.tTest - r.fpu.cfg.dt && r'.samples == r.samples
    ensures r.tTest - r.fpu.cfg.dt <= 0.0 ==>
              && r'.tTest == TRecord(r.fpu.cfg)
              && |r'.samples| == |r.samples| + 1 && r'.samples[..|r.samples|] == r.samples
              && var smp := r'.samples[|r.samples|];
                 && smp.t == r'.t
                 && smp.probe == r'.fpu.chain.x[r.fpu.cfg.nParticles / 3]
                 && smp.totalEnergy == TotalEnergy(r.fpu.cfg, r'.fpu.chain)
                 && (r'.fpu, smp) == TakeSample(r.fpu.(chain := r'.fpu.chain), r'.t)
    ensures r.tTest - r.fpu.cfg.dt > 0.0 ==> r'.fpu.cache == r.fpu.cache
    ensures r.tTest - r.fpu.cfg.dt <= 0.0 ==>
              r'.fpu.cache == if r.fpu.cfg.nModes >= 1 then Some(Coefficients(r'.fpu, r.fpu.cfg.nModes))
                              else r.fpu.cache
  {
    var c := r.fpu.cfg;
    var stepped := r.fpu.(chain := Step(c, r.fpu.chain));
    var t := r.t + c.dt;
    var tTest := r.tTest - c.dt;
    if tTest <= 0.0 then
      var (f, smp) := TakeSample(stepped, t);
      LoopState(f, r.steps + 1, t, TRecord(c), r.samples + [smp])
    else
      LoopState(stepped, r.steps + 1, t, tTest, r.samples)
  }

  /** The object started as `s` after `steps` steps of the chain, slot aside. */
  function At(s: FPU, steps: nat): (f: FPU)
    requires Valid(s)
    ensures Valid(f) && SameButCache(s.(chain := f.chain), f)
  {
    s.(chain := Steps(s.cfg, s.chain, steps))
  }

  /**
   * The `(a, aOld)` slot after `steps` passes: once a recording has run the
   * mode loop it holds mode `nModes`'s pair from the latest recording;
   * before that, or with no mode tracked, it is the slot it started with.
   */
  function SlotAfter(s: FPU, steps: nat): Option<Pair>
    requires Valid(s)
  {
    if s.cfg.nModes >= 1 && steps >= RecordEvery then
      Some(Coefficients(At(s, steps / RecordEvery * RecordEvery), s.cfg.nModes))
    else s.cache
  }

  /**
   * Sample `n` records the chain `ch` after `(n + 1) * RecordEvery` steps:
   * its time, total energy and probe particle, modes `1..nModes`'s energies
   * and positions, the force row, and a phase point that (for `nModes >= 1`)
   * is mode `nModes`'s, whatever modes the queries name.
   */
  ghost predicate SampleAt(s: FPU, n: nat, smp: Sample)
    requires Valid(s)
  {
    var f := At(s, (n + 1) * RecordEvery);
    var ch := f.chain;
    var nModes := s.cfg.nModes;
    && smp.t == Time(s.cfg, (n + 1) * RecordEvery)
    && smp.probe == ch.x[s.cfg.nParticles / 3]
    && smp.totalEnergy == TotalEnergy(s.cfg, ch)
    && |smp.energies| == |smp.positions| == (if nModes >= 1 then nModes else 0)
    && (forall j :: 0 <= j < |smp.energies| ==> smp.energies[j] == Energy(f, j + 1, Coefficients(f, j + 1)))
    && (forall j :: 0 <= j < |smp.positions| ==> smp.positions[j] == Position(f, Coefficients(f, j + 1)))
    && smp.force == ForceRow(s.cfg, ch)
    && smp.phase == if nModes >= 1 then Some(PointOf(f, Coefficients(f, nModes)))
                    else if s.cache.None? then None else Some(PointOf(f, s.cache.value))
  }

  /** One sample per completed recording period, each one the right one. */
  ghost predicate History(s: FPU, samples: seq<Sample>, steps: nat)
    requires Valid(s)
  {
    && |samples| == steps / RecordEvery
    && forall n :: 0 <= n < |samples| ==> SampleAt(s, n, samples[n])
  }

  /** The state of `Run` after `r.steps` passes, started from `s`. */
  ghost predicate RunState(s: FPU, r: LoopState)
    requires Valid(s)
  {
    && Valid(r.fpu) && r.fpu.cfg == s.cfg && r.fpu.libm == s.libm
    && r.fpu.chain == Steps(s.cfg, s.chain, r.steps)
    && r.t == Time(s.cfg, r.steps)
    && r.tTest == Multiple(Countdown(r.steps), s.cfg.dt)
    && r.fpu.cache == SlotAfter(s, r.steps)
    && History(s, r.samples, r.steps)
  }

  /** A recording at the end of a period extends the history. */
  lemma HistoryExtends(s: FPU, samples: seq<Sample>, smp: Sample, steps: nat)
    requires Valid(s) && History(s, samples, steps)
    requires (steps + 1) % RecordEvery == 0 && SampleAt(s, |samples|, smp)
    ensures History(s, samples + [smp], steps + 1)
  {
    var n := |samples|;
    forall m | 0 <= m < n + 1
      ensures SampleAt(s, m, (samples + [smp])[m])
    {
      if m < n {
        assert (samples + [smp])[m] == samples[m];
      }
    }
  }

  /** One pass keeps the state description. */
  lemma TickStep(s: FPU, r: LoopState)
    requires Valid(s) && RunState(s, r)
    ensures RunState(s, Tick(r))
  {
    var r' := Tick(r);
    if r.tTest - s.cfg.dt > 0.0 {
      CountingArithmetic(s.cfg, r.steps, r.tTest);
      TickCounts(s, r, r');
    } else {
      RecordingArithmetic(s.cfg, r.steps, r.tTest);
      TickRecords(s, r, r');
    }
  }

  /** The counters of a pass that does not record: the countdown drops by
      one inside the same period, and `tTest - dt` is the new countdown. */
  lemma CountingArithmetic(c: Config, steps: nat, tTest: real)
    requires ValidConfig(c) && tTest == Multiple(Countdown(steps), c.dt)
    requires tTest - c.dt > 0.0
    ensures (steps + 1) / RecordEvery == steps / RecordEvery
    ensures steps + 1 >= RecordEvery <==> steps >= RecordEvery
    ensures tTest - c.dt == Multiple(Countdown(steps + 1), c.dt)
    ensures Time(c, steps) + c.dt == Time(c, steps + 1)
  {
    PeriodArithmetic(steps);
    ClockAsReals(c, steps, Countdown(steps));
  }

  /** The counters of a pass that records: the step closes a period, and
      `tRecord` is the full countdown of the next one. */
  lemma RecordingArithmetic(c: Config, steps: nat, tTest: real)
    requires ValidConfig(c) && tTest == Multiple(Countdown(steps), c.dt)
    requires tTest - c.dt <= 0.0
    ensures (steps + 1) % RecordEvery == 0 && (steps + 1) / RecordEvery == steps / RecordEvery + 1
    ensures (steps / RecordEvery + 1) * RecordEvery == steps + 1
    ensures TRecord(c) == Multiple(Countdown(steps + 1), c.dt)
    ensures Time(c, steps) + c.dt == Time(c, steps + 1)
  {
    PeriodArithmetic(steps);
    ClockAsReals(c, steps, Countdown(steps));
    MultipleIsProduct(RecordEvery, c.dt);
  }

  /** A pass that only counts down keeps the state description: `r'` is what
      `Tick` makes of `r` when `tTest - dt > 0`. */
  lemma TickCounts(s: FPU, r: LoopState, r': LoopState)
    requires Valid(s) && RunState(s, r)
    requires Valid(r'.fpu) && r'.fpu.cfg == s.cfg && r'.fpu.libm == s.libm
    requires r'.fpu.chain == Step(s.cfg, r.fpu.chain) && r'.fpu.cache == r.fpu.cache
    requires r'.steps == r.steps + 1 && r'.t == r.t + s.cfg.dt
    requires r'.tTest == r.tTest - s.cfg.dt && r'.samples == r.samples
    requires (r.steps + 1) / RecordEvery == r.steps / RecordEvery
    requires r.steps + 1 >= RecordEvery <==> r.steps >= RecordEvery
    requires r.tTest - s.cfg.dt == Multiple(Countdown(r.steps + 1), s.cfg.dt)
    requires Time(s.cfg, r.steps) + s.cfg.dt == Time(s.cfg, r.steps + 1)
    ensures RunState(s, r')
  {
    CountingKeepsChain(s, r.fpu, r.steps, r'.fpu);
    HistoryKeeps(s, r.samples, r.steps);
  }

  /** Counting down steps the chain and leaves the slot alone, which is still
      the slot the recordings so far leave. */
  lemma CountingKeepsChain(s: FPU, f: FPU, steps: nat, f': FPU)
    requires Valid(s) && Valid(f) && f.cfg == s.cfg
    requires f.chain == Steps(s.cfg, s.chain, steps) && f.cache == SlotAfter(s, steps)
    requires f'.chain == Step(s.cfg, f.chain) && f'.cache == f.cache
    requires (steps + 1) / RecordEvery == steps / RecordEvery
    requires steps + 1 >= RecordEvery <==> steps >= RecordEvery
    ensures f'.chain == Steps(s.cfg, s.chain, steps + 1) && f'.cache == SlotAfter(s, steps + 1)
  {
    SlotKeeps(s, steps);
  }

  /** Between recordings the slot holds what the last recording left. */
  lemma SlotKeeps(s: FPU, steps: nat)
    requires Valid(s)
    requires (steps + 1) / RecordEvery == steps / RecordEvery
    requires steps + 1 >= RecordEvery <==> steps >= RecordEvery
    ensures SlotAfter(s, steps + 1) == SlotAfter(s, steps)
  {
  }

  /** Between recordings the history is unchanged. */
  lemma HistoryKeeps(s: FPU, samples: seq<Sample>, steps: nat)
    requires Valid(s) && History(s, samples, steps)
    requires (steps + 1) / RecordEvery == steps / RecordEvery
    ensures History(s, samples, steps + 1)
  {
  }

  /** A pass that records keeps the state description: `r'` is what `Tick`
      makes of `r` when `tTest - dt <= 0`. */
  lemma TickRecords(s: FPU, r: LoopState, r': LoopState)
    requires Valid(s) && RunState(s, r)
    requires Valid(r'.fpu) && r'.fpu.cfg == s.cfg && r'.fpu.libm == s.libm
    requires r'.fpu.chain == Step(s.cfg, r.fpu.chain)
    requires r'.steps == r.steps + 1 && r'.t == r.t + s.cfg.dt && r'.tTest == TRecord(s.cfg)
    requires |r'.samples| == |r.samples| + 1 && r'.samples[..|r.samples|] == r.samples
    requires (r'.fpu, r'.samples[|r.samples|]) == TakeSample(r.fpu.(chain := r'.fpu.chain), r'.t)
    requires (r.steps + 1) % RecordEvery == 0 && (r.steps + 1) / RecordEvery == r.steps / RecordEvery + 1
    requires (r.steps / RecordEvery + 1) * RecordEvery == r.steps + 1
    requires TRecord(s.cfg) == Multiple(Countdown(r.steps + 1), s.cfg.dt)
    requires Time(s.cfg, r.steps) + s.cfg.dt == Time(s.cfg, r.steps + 1)
    ensures RunState(s, r')
  {
    RecordingAppends(s, r.fpu, r.samples, r.steps, r'.fpu, r'.samples, r'.t);
  }

  /**
   * A recording pass at the end of a period: the stepped object `f'` and the
   * samples `samples'` that `TakeSample` leaves are the chain, slot and
   * history after `steps + 1` steps.
   */
  lemma RecordingAppends(s: FPU, f: FPU, samples: seq<Sample>, steps: nat,
                         f': FPU, samples': seq<Sample>, t': real)
    requires Valid(s) && Valid(f) && f.cfg == s.cfg && f.libm == s.libm
    requires f.chain == Steps(s.cfg, s.chain, steps) && f.cache == SlotAfter(s, steps)
    requires History(s, samples, steps)
    requires f'.chain == Step(s.cfg, f.chain) && t' == Time(s.cfg, steps + 1)
    requires |samples'| == |samples| + 1 && samples'[..|samples|] == samples
    requires (f', samples'[|samples|]) == TakeSample(f.(chain := f'.chain), t')
    requires (steps + 1) % RecordEvery == 0 && (steps / RecordEvery + 1) * RecordEvery == steps + 1
    ensures f'.chain == Steps(s.cfg, s.chain, steps + 1) && f'.cache == SlotAfter(s, steps + 1)
    ensures History(s, samples', steps + 1)
  {
    var n := |samples|;
    assert f'.chain == Steps(s.cfg, s.chain, (n + 1) * RecordEvery);
    var stepped := f.(chain := f'.chain);
    RecordingIsRight(s, stepped, n, t');
    assert samples' == samples + [samples'[n]];
    HistoryExtends(s, samples, samples'[n], steps);
  }


  lemma RecordingIsRight(s: FPU, stepped: FPU, n: nat, t: real)
    requires Valid(s) && Valid(stepped)
    requires stepped.cfg == s.cfg && stepped.libm == s.libm
    requires stepped.chain == Steps(s.cfg, s.chain, (n + 1) * RecordEvery)
    requires s.cfg.nModes < 1 ==> stepped.cache == s.cache
    requires t == Time(s.cfg, (n + 1) * RecordEvery)
    ensures SampleAt(s, n, TakeSample(stepped, t).1)
    ensures TakeSample(stepped, t).0.cache == SlotAfter(s, (n + 1) * RecordEvery)
  {
    var f := At(s, (n + 1) * RecordEvery);
    var smp := TakeSample(stepped, t).1;
    CacheIrrelevant(f, stepped);
    assert (n + 1) * RecordEvery / RecordEvery * RecordEvery == (n + 1) * RecordEvery;
    if s.cfg.nModes >= 1 {
      assert PointOf(stepped, Coefficients(stepped, s.cfg.nModes)) == PointOf(f, Coefficients(f, s.cfg.nModes));
    } else if s.cache.Some? {
      assert PointOf(stepped, s.cache.value) == PointOf(f, s.cache.value);
    }
  }

  /** How the step count's position within a recording period moves on. */
  lemma PeriodArithmetic(steps: nat)
    ensures Countdown(steps) == 1 ==>
              (steps + 1) % RecordEvery == 0 && (steps + 1) / RecordEvery == steps / RecordEvery + 1
              && (steps + 1) / RecordEvery * RecordEvery == steps + 1
              && Countdown(steps + 1) == RecordEvery
    ensures Countdown(steps) > 1 ==>
              (steps + 1) / RecordEvery == steps / RecordEvery && Countdown(steps + 1) == Countdown(steps) - 1
              && (steps + 1 >= RecordEvery <==> steps >= RecordEvery)
  {
  }

  /**
   * `Run`: the loop stops at the first multiple of `dt` that reaches
   * `tMax`, the chain has then taken that many steps, sample `n` holds the
   * observables of the chain after step `20 * (n + 1)`, and the slot holds
   * mode `nModes`'s pair from the last recording.
   */
  method Run(s: FPU) returns (r: LoopState)
    requires Valid(s)
    ensures Valid(r.fpu) && r.fpu.cfg == s.cfg
    ensures Time(s.cfg, r.steps) >= s.cfg.tMax
    ensures r.steps > 0 ==> Time(s.cfg, r.steps - 1) < s.cfg.tMax
    ensures r.fpu.chain == Steps(s.cfg, s.chain, r.steps)
    ensures r.t == Time(s.cfg, r.steps) && r.t >= s.cfg.tMax
    ensures |r.samples| == r.steps / RecordEvery
    ensures forall n :: 0 <= n < |r.samples| ==> SampleAt(s, n, r.samples[n])
    ensures s.cfg.nModes < 1 || |r.samples| == 0 ==> r.fpu.cache == s.cache
    ensures s.cfg.nModes >= 1 && |r.samples| > 0 ==>
              r.fpu.cache == Some(Coefficients(At(s, |r.samples| * RecordEvery), s.cfg.nModes))
  {
    var c := s.cfg;
    r := LoopState(s, 0, 0.0, TRecord(c), []);
    RunStarts(s);
    ghost var horizon := Horizon(c);
    while r.t < c.tMax
      invariant RunState(s, r)
      invariant r.steps > 0 ==> Time(c, r.steps - 1) < c.tMax
      decreases horizon - r.steps
    {
      StepsBound(c, r.steps, horizon);
      TickStep(s, r);
      r := Tick(r);
    }
    RunEnds(s, r);
  }

  /** Before the first pass the state description holds with no step taken. */
  lemma RunStarts(s: FPU)
    requires Valid(s)
    ensures RunState(s, LoopState(s, 0, 0.0, TRecord(s.cfg), []))
  {
    MultipleIsProduct(RecordEvery, s.cfg.dt);
  }

  /** What the state description says once the clock has reached `tMax`. */
  lemma RunEnds(s: FPU, r: LoopState)
    requires Valid(s) && RunState(s, r) && r.t >= s.cfg.tMax
    ensures Valid(r.fpu) && r.fpu.cfg == s.cfg
    ensures Time(s.cfg, r.steps) >= s.cfg.tMax
    ensures r.fpu.chain == Steps(s.cfg, s.chain, r.steps)
    ensures r.t == Time(s.cfg, r.steps)
    ensures |r.samples| == r.steps / RecordEvery
    ensures forall n :: 0 <= n < |r.samples| ==> SampleAt(s, n, r.samples[n])
    ensures s.cfg.nModes < 1 || |r.samples| == 0 ==> r.fpu.cache == s.cache
    ensures s.cfg.nModes >= 1 && |r.samples| > 0 ==>
              r.fpu.cache == Some(Coefficients(At(s, |r.samples| * RecordEvery), s.cfg.nModes))
  {
    FinalSlot(s, r);
  }

  /** What `RunState` says about the slot, read in terms of the samples. */
  lemma FinalSlot(s: FPU, r: LoopState)
    requires Valid(s) && RunState(s, r)
    ensures s.cfg.nModes < 1 || |r.samples| == 0 ==> r.fpu.cache == s.cache
    ensures s.cfg.nModes >= 1 && |r.samples| > 0 ==>
              r.fpu.cache == Some(Coefficients(At(s, |r.samples| * RecordEvery), s.cfg.nModes))
  {
    assert |r.samples| == r.steps / RecordEvery;
    assert r.steps >= RecordEvery <==> |r.samples| > 0;
  }

  /** Some number of steps brings the clock to `tMax`: the least `k` with `k * dt >= tMax` is one. */
  lemma Horizon(c: Config) returns (k: nat)
    requires ValidConfig(c)
    ensures Time(c, k) >= c.tMax
  {
    if c.tMax <= 0.0 {
      k := 0;
    } else {
      var q := c.tMax / c.dt;
      k := q.Floor + 1;
      assert q * c.dt == c.tMax;
      MonotoneScale(q, k as real, c.dt);
      MultipleIsProduct(k, c.dt);
    }
  }

  /** While the clock is below `tMax`, fewer steps were taken than any count that reaches it. */
  lemma StepsBound(c: Config, steps: nat, k: nat)
    requires ValidConfig(c) && Time(c, steps) < c.tMax <= Time(c, k)
    ensures steps < k
  {
    if k <= steps {
      MultipleMonotone(k, steps, c.dt);
    }
  }

  /** With `dt >= 0`, adding `dt` more times never lowers the sum. */
  lemma {:induction false} MultipleMonotone(j: nat, k: nat, dt: real)
    requires dt >= 0.0 && j <= k
    ensures Multiple(j, dt) <= Multiple(k, dt)
    decreases k - j
  {
    if j < k {
      MultipleMonotone(j, k - 1, dt);
    }
  }

  /** Scaling by a positive factor keeps the order. */
  lemma MonotoneScale(a: real, b: real, dt: real)
    requires dt > 0.0 && a <= b
    ensures a * dt <= b * dt
  {
    assert b * dt - a * dt == (b - a) * dt;
  }
}
