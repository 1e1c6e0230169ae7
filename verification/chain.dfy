/**
 * The FPU chain state of `FPUModel` and its leapfrog integrator, with
 * `double` read as `real`. Particles 1..N move; indices 0 and N+1 are the
 * clamped ends.
 */
module Chain {

  /** Capacity of the C++ arrays `x`, `xOld` and `xNew` (the `MAX` macro). */
  const MAX: int := 100

  /** The `PI` macro. */
  const PI: real := 3.1415926535897932

  /** The C library's `sin` and `sqrt`, left uninterpreted: only the
      structure of the computation is modelled, not its numerics. */
  datatype Libm = Libm(sin: real -> real, sqrt: real -> real)

  /** The constructor's arguments. */
  datatype Config = Config(
    nParticles: int,
    modeInit: int,
    amplitude: real,
    dt: real,
    tMax: real,
    nModes: int,
    alpha: real,
    beta: real)

  /**
   * What the model needs to run without indexing outside `MAX` or
   * dividing by zero: `x[nParticles + 1]` is written, `d2n` divides by
   * `nParticles + 1`, velocities divide by `dt`, and the time loop only
   * ends when `t` grows.
   */
  predicate ValidConfig(c: Config) {
    && 0 <= c.nParticles
    && c.nParticles + 1 < MAX
    && c.dt > 0.0
  }

  /** `nParticles1`: the index of the right-hand clamped end. */
  function Last(c: Config): int {
    c.nParticles + 1
  }

  /** `d2n = 2.0 / nParticles1`. */
  function D2n(c: Config): real
    requires ValidConfig(c)
  {
    2.0 / Last(c) as real
  }

  /** `tRecord = 20 * dt`: the interval between samples. */
  function TRecord(c: Config): real {
    20.0 * c.dt
  }

  /** The displacements `x` and `xOld` over indices 0..N+1. */
  datatype Chain = Chain(x: seq<real>, xOld: seq<real>)

  predicate WellFormed(c: Config, ch: Chain) {
    ValidConfig(c) && |ch.x| == Last(c) + 1 && |ch.xOld| == Last(c) + 1
  }

  /** Both clamped ends are at zero in both buffers. */
  predicate Clamped(c: Config, ch: Chain)
    requires WellFormed(c, ch)
  {
    && ch.x[0] == 0.0 && ch.x[Last(c)] == 0.0
    && ch.xOld[0] == 0.0 && ch.xOld[Last(c)] == 0.0
  }

  /** The time-reversed chain: current and previous displacements swapped. */
  function Reverse(ch: Chain): Chain {
    Chain(ch.xOld, ch.x)
  }

  /**
   * `dt^2` times the force on particle `i`: the linear, quadratic and cubic
   * spring terms read from the current displacements alone.
   */
  function Accel(c: Config, x: seq<real>, i: int): real
    requires ValidConfig(c) && |x| == Last(c) + 1 && 1 <= i <= c.nParticles
  {
    var X := x[i + 1] - x[i];
    var Y := x[i] - x[i - 1];
    var r2 := c.dt * c.dt;
    var alphaPrime := c.alpha * c.dt * c.dt;
    var betaPrime := c.beta * c.dt * c.dt;
    r2 * (X - Y) + alphaPrime * (X * X - Y * Y) + betaPrime * (X * X * X - Y * Y * Y)
  }

  /**
   * The leapfrog stencil for particle `i`, from its two neighbours' and its
   * own current displacement and its own previous one.
   */
  function NewPosition(c: Config, ch: Chain, i: int): real
    requires WellFormed(c, ch) && 1 <= i <= c.nParticles
  {
    Accel(c, ch.x, i) + 2.0 * ch.x[i] - ch.xOld[i]
  }

  /**
   * One time step: every interior particle moves to its stencil value
   * computed from the pre-step buffers, the pre-step displacement becomes
   * the previous one, and the clamped ends are not written.
   */
  function Step(c: Config, ch: Chain): (r: Chain)
    requires WellFormed(c, ch)
    ensures WellFormed(c, r)
    ensures r.x[0] == ch.x[0] && r.x[Last(c)] == ch.x[Last(c)]
    ensures r.xOld[0] == ch.xOld[0] && r.xOld[Last(c)] == ch.xOld[Last(c)]
    ensures forall i :: 1 <= i <= c.nParticles ==> r.xOld[i] == ch.x[i]
    ensures forall i :: 1 <= i <= c.nParticles ==> r.x[i] == NewPosition(c, ch, i)
  {
    var n := Last(c) + 1;
    Chain(
      seq(n, i requires 0 <= i < n =>
        if 1 <= i <= c.nParticles then NewPosition(c, ch, i) else ch.x[i]),
      seq(n, i requires 0 <= i < n =>
        if 1 <= i <= c.nParticles then ch.x[i] else ch.xOld[i]))
  }

  /** `k` consecutive time steps. */
  function Steps(c: Config, ch: Chain, k: nat): (r: Chain)
    requires WellFormed(c, ch)
    ensures WellFormed(c, r)
  {
    if k == 0 then ch else Step(c, Steps(c, ch, k - 1))
  }

  /** The clamped ends stay at zero however many steps are taken. */
  lemma {:induction false} StepsKeepClamped(c: Config, ch: Chain, k: nat)
    requires WellFormed(c, ch) && Clamped(c, ch)
    ensures Clamped(c, Steps(c, ch, k))
  {
    if k > 0 {
      StepsKeepClamped(c, ch, k - 1);
    }
  }

  /**
   * The leapfrog scheme is exactly time-reversible over the reals: stepping
   * the reversed result of a step lands on the reversed starting state.
   */
  lemma StepIsReversible(c: Config, ch: Chain)
    requires WellFormed(c, ch) && Clamped(c, ch)
    ensures Step(c, Reverse(Step(c, ch))) == Reverse(ch)
  {
    var s := Step(c, ch);
    var back := Step(c, Reverse(s));
    assert Reverse(s).x == ch.x;
    forall i | 1 <= i <= c.nParticles
      ensures back.x[i] == ch.xOld[i]
    {
      assert s.x[i] == Accel(c, ch.x, i) + 2.0 * ch.x[i] - ch.xOld[i];
      assert back.x[i] == Accel(c, ch.x, i) + 2.0 * ch.x[i] - s.x[i];
    }
  }

  /**
   * `CalculateNewPositions`: a first pass fills `xNew[1..N]` from the
   * pre-step buffers, a second pass shifts `xOld <- x` and `x <- xNew`.
   */
  method CalculateNewPositions(c: Config, ch: Chain) returns (r: Chain)
    requires WellFormed(c, ch)
    ensures r == Step(c, ch)
  {
    var n := c.nParticles;
    var x, xOld := ch.x, ch.xOld;
    var xNew := ch.x;
    var i := 1;
    while i <= n
      invariant 1 <= i <= n + 1
      invariant |xNew| == n + 2
      invariant x == ch.x && xOld == ch.xOld
      invariant forall j :: 1 <= j < i ==> xNew[j] == NewPosition(c, ch, j)
    {
      xNew := xNew[i := NewPosition(c, Chain(x, xOld), i)];
      i := i + 1;
    }
    i := 1;
    while i <= n
      invariant 1 <= i <= n + 1
      invariant |x| == n + 2 && |xOld| == n + 2
      invariant forall j :: 0 <= j < n + 2 ==> xOld[j] == if 1 <= j < i then ch.x[j] else ch.xOld[j]
      invariant forall j :: 0 <= j < n + 2 ==> x[j] == if 1 <= j < i then xNew[j] else ch.x[j]
    {
      xOld := xOld[i := x[i]];
      x := x[i := xNew[i]];
      i := i + 1;
    }
    r := Chain(x, xOld);
    assert r.x == Step(c, ch).x;
    assert r.xOld == Step(c, ch).xOld;
  }

  /** The sine argument `PI * i * d2n / lambda` of the constructor, with
      `lambda = 2.0 / modeInit`. For `modeInit == 0` the double `lambda` is
      infinite and the finite numerator divided by it is zero. */
  function ProfileArg(c: Config, i: int): real
    requires ValidConfig(c)
  {
    if c.modeInit == 0 then 0.0
    else
      var lambda := 2.0 / c.modeInit as real;
      PI * i as real * D2n(c) / lambda
  }

  /** The constructor's starting displacement of particle `i`. */
  function InitialDisplacement(c: Config, m: Libm, i: int): real
    requires ValidConfig(c)
  {
    c.amplitude * m.sqrt(D2n(c)) * m.sin(ProfileArg(c, i))
  }

  /** The argument step `k * PI / nParticles1` of the `k`-th normal mode. */
  function ModeArg(c: Config, k: int): real
    requires ValidConfig(c)
  {
    k as real * PI / Last(c) as real
  }

  /**
   * The constructor's initial profile: both buffers hold the same
   * single-mode shape, so the chain starts from rest, with clamped ends.
   */
  function Initial(c: Config, m: Libm): (ch: Chain)
    requires ValidConfig(c)
    ensures WellFormed(c, ch) && Clamped(c, ch)
    ensures forall i :: 1 <= i <= c.nParticles ==> ch.x[i] == ch.xOld[i]
    ensures forall i :: 1 <= i <= c.nParticles ==>
              ch.x[i] == c.amplitude * m.sqrt(D2n(c)) * m.sin(i as real * ModeArg(c, c.modeInit))
  {
    var n := Last(c) + 1;
    var profile := seq(n, i requires 0 <= i < n =>
                     if 1 <= i <= c.nParticles then InitialDisplacement(c, m, i) else 0.0);
    forall i | 1 <= i <= c.nParticles
      ensures profile[i] == c.amplitude * m.sqrt(D2n(c)) * m.sin(i as real * ModeArg(c, c.modeInit))
    {
      InitialArgument(c, i);
      assert profile[i] == InitialDisplacement(c, m, i);
    }
    Chain(profile, profile)
  }

  /** `PI * i * d2n / lambda` is the `i`-th multiple of mode `modeInit`'s
      argument step, so the initial profile is that normal mode's shape. */
  lemma InitialArgument(c: Config, i: int)
    requires ValidConfig(c)
    ensures ProfileArg(c, i) == i as real * ModeArg(c, c.modeInit)
  {
    if c.modeInit != 0 {
      var n1 := Last(c) as real;
      var k := c.modeInit as real;
      assert D2n(c) / (2.0 / k) == k / n1;
    }
  }
}
