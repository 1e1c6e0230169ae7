/**
 * The normal-mode analysis of `FPUModel`: the sine projection `GetA`, the
 * single-slot `(a, aOld)` coefficient cache, the mode queries built on it,
 * and `TotalEnergy`.
 */
module Modes {
  import opened Wrappers
  import opened Chain

  /** The pair `(a, aOld)`: projections of `x` and `xOld` onto one mode. */
  datatype Pair = Pair(a: real, aOld: real)

  /**
   * The `FPUModel` object. `cache` is the `(a, aOld)` slot, None until the
   * first refreshing query: the constructor never initialises it.
   */
  datatype FPU = FPU(cfg: Config, libm: Libm, chain: Chain, cache: Option<Pair>)

  /** A query's answer together with the object after the query. */
  datatype Answer<T> = Answer(fpu: FPU, value: T)

  predicate Valid(s: FPU) {
    WellFormed(s.cfg, s.chain)
  }

  /** The constructor, minus the output files. */
  function Construct(c: Config, m: Libm): (s: FPU)
    requires ValidConfig(c)
    ensures s.cfg == c && s.libm == m && Valid(s) && Clamped(c, s.chain) && s.cache.None?
    ensures forall i :: 1 <= i <= c.nParticles ==> s.chain.x[i] == s.chain.xOld[i]
  {
    FPU(c, m, Initial(c, m), None)
  }

  /** `sum_{i=1..n} v[i] * sin(i * arg)`. */
  function Project(v: seq<real>, sin: real -> real, arg: real, n: nat): real
    requires n < |v|
  {
    if n == 0 then 0.0 else Project(v, sin, arg, n - 1) + Weighted(v, sin, arg, n)
  }

  /** The `i`-th summand `v[i] * sin(i * arg)` of a projection. */
  function Weighted(v: seq<real>, sin: real -> real, arg: real, i: nat): real
    requires i < |v|
  {
    v[i] * sin(i as real * arg)
  }

  /** The projection only reads entries 1..n. */
  lemma {:induction false} ProjectInterior(v: seq<real>, w: seq<real>, sin: real -> real, arg: real, n: nat)
    requires n < |v| && n < |w|
    requires forall i :: 1 <= i <= n ==> v[i] == w[i]
    ensures Project(v, sin, arg, n) == Project(w, sin, arg, n)
  {
    if n > 0 {
      ProjectInterior(v, w, sin, arg, n - 1);
      assert Weighted(v, sin, arg, n) == Weighted(w, sin, arg, n);
    }
  }

  /** The pair `GetA(k, &a, &aOld)` computes for mode `k`. */
  function Coefficients(s: FPU, k: int): Pair
    requires Valid(s)
  {
    var arg := ModeArg(s.cfg, k);
    Pair(Project(s.chain.x, s.libm.sin, arg, s.cfg.nParticles),
         Project(s.chain.xOld, s.libm.sin, arg, s.cfg.nParticles))
  }

  /** `GetA`: both projections accumulated in one loop over the particles. */
  method GetA(s: FPU, k: int) returns (a: real, b: real)
    requires Valid(s)
    ensures Pair(a, b) == Coefficients(s, k)
  {
    var arg := ModeArg(s.cfg, k);
    a, b := 0.0, 0.0;
    var i := 1;
    while i <= s.cfg.nParticles
      invariant 1 <= i <= s.cfg.nParticles + 1
      invariant a == Project(s.chain.x, s.libm.sin, arg, i - 1)
      invariant b == Project(s.chain.xOld, s.libm.sin, arg, i - 1)
    {
      a := a + Weighted(s.chain.x, s.libm.sin, arg, i);
      b := b + Weighted(s.chain.xOld, s.libm.sin, arg, i);
      i := i + 1;
    }
  }

  /**
   * The prologue `if (iflag == 1) GetA(k, &a, &aOld);` shared by every mode
   * query: only `iflag == 1` refills the slot, with mode `k`'s pair.
   */
  function Refresh(s: FPU, k: int, iflag: int): (r: FPU)
    requires Valid(s)
    ensures Valid(r) && r.cfg == s.cfg && r.libm == s.libm && r.chain == s.chain
    ensures iflag == 1 ==> r.cache == Some(Coefficients(s, k))
    ensures iflag != 1 ==> r.cache == s.cache
  {
    if iflag == 1 then s.(cache := Some(Coefficients(s, k))) else s
  }

  /** `sqd2n = sqrt(d2n)`: the normalisation of the mode shapes. */
  function Norm(s: FPU): real
    requires Valid(s)
  {
    s.libm.sqrt(D2n(s.cfg))
  }

  /** `sin(PI * k / (2 * nParticles1))`: half the linear eigenfrequency of mode `k`. */
  function HalfOmega(s: FPU, k: int): real
    requires Valid(s)
  {
    s.libm.sin(PI * k as real / (2 * Last(s.cfg)) as real)
  }

  function Velocity(s: FPU, p: Pair): real
    requires Valid(s)
  {
    (p.a - p.aOld) * Norm(s) / s.cfg.dt
  }

  function Position(s: FPU, p: Pair): real
    requires Valid(s)
  {
    0.5 * (p.a + p.aOld) * Norm(s)
  }

  /** `0.5 * (T * T + V * V)`, the quadratic form of both energy expressions. */
  function HalfSumOfSquares(T: real, V: real): (e: real)
    ensures e >= 0.0
  {
    SquareFacts(T);
    SquareFacts(V);
    Halve(T * T + V * V)
  }

  /** `x / 2`, with the sign facts stated so that callers need no
      arithmetic on the literal factor. */
  function Halve(x: real): (h: real)
    ensures h > 0.0 <==> x > 0.0
    ensures h == 0.0 <==> x == 0.0
  {
    x / 2.0
  }

  function Energy(s: FPU, k: int, p: Pair): (e: real)
    requires Valid(s)
    ensures e >= 0.0
  {
    var T := (p.a - p.aOld) * Norm(s) / s.cfg.dt;
    var V := (p.a + p.aOld) * Norm(s) * HalfOmega(s, k);
    HalfSumOfSquares(T, V)
  }

  /** The energy of a mode is its kinetic term plus its harmonic potential
      term, both read from the same cached pair as position and velocity. */
  lemma EnergyFromPhase(s: FPU, k: int, p: Pair)
    requires Valid(s)
    ensures Energy(s, k, p)
            == 0.5 * (Velocity(s, p) * Velocity(s, p)
                      + 4.0 * Position(s, p) * Position(s, p) * HalfOmega(s, k) * HalfOmega(s, k))
  {
    var V := (p.a + p.aOld) * Norm(s) * HalfOmega(s, k);
    assert V == 2.0 * Position(s, p) * HalfOmega(s, k);
  }

  /** `a * aOld > 0` fails: the cached mode amplitude has not kept a strict sign. */
  function Crossed(p: Pair): (b: bool)
    ensures b <==> (p.a <= 0.0 && p.aOld >= 0.0) || (p.a >= 0.0 && p.aOld <= 0.0)
  {
    !(p.a * p.aOld > 0.0)
  }

  /** `ModeEnergy(k, iflag)`. None: the slot would be read before it was ever filled. */
  function ModeEnergy(s: FPU, k: int, iflag: int): (r: Option<Answer<real>>)
    requires Valid(s)
    ensures r.None? <==> iflag != 1 && s.cache.None?
    ensures r.Some? ==> r.value.fpu == Refresh(s, k, iflag) && r.value.value >= 0.0
    ensures r.Some? ==> r.value.value == Energy(s, k, r.value.fpu.cache.value)
  {
    var s' := Refresh(s, k, iflag);
    if s'.cache.None? then None else Some(Answer(s', Energy(s, k, s'.cache.value)))
  }

  /** `ModePosition(k, iflag)`. */
  function ModePosition(s: FPU, k: int, iflag: int): (r: Option<Answer<real>>)
    requires Valid(s)
    ensures r.None? <==> iflag != 1 && s.cache.None?
    ensures r.Some? ==> r.value.fpu == Refresh(s, k, iflag)
    ensures r.Some? ==> r.value.value == Position(s, r.value.fpu.cache.value)
  {
    var s' := Refresh(s, k, iflag);
    if s'.cache.None? then None else Some(Answer(s', Position(s, s'.cache.value)))
  }

  /** `ModeVelocity(k, iflag)`. */
  function ModeVelocity(s: FPU, k: int, iflag: int): (r: Option<Answer<real>>)
    requires Valid(s)
    ensures r.None? <==> iflag != 1 && s.cache.None?
    ensures r.Some? ==> r.value.fpu == Refresh(s, k, iflag)
    ensures r.Some? ==> r.value.value == Velocity(s, r.value.fpu.cache.value)
  {
    var s' := Refresh(s, k, iflag);
    if s'.cache.None? then None else Some(Answer(s', Velocity(s, s'.cache.value)))
  }

  /** `ModeCross(k, iflag)`: true iff `a * aOld <= 0` for the pair in the slot. */
  function ModeCross(s: FPU, k: int, iflag: int): (r: Option<Answer<bool>>)
    requires Valid(s)
    ensures r.None? <==> iflag != 1 && s.cache.None?
    ensures r.Some? ==> r.value.fpu == Refresh(s, k, iflag)
    ensures r.Some? ==> (r.value.value <==> r.value.fpu.cache.value.a * r.value.fpu.cache.value.aOld <= 0.0)
  {
    var s' := Refresh(s, k, iflag);
    if s'.cache.None? then None else Some(Answer(s', Crossed(s'.cache.value)))
  }

  /**
   * A non-refreshing query answers for whichever mode filled the slot last:
   * after a refreshing query on mode `k`, a query "about" mode `j` with
   * `iflag == 0` returns mode `k`'s value, whatever `j` is.
   */
  lemma StaleQueryReadsLastMode(s: FPU, k: int, j: int)
    requires Valid(s)
    ensures var e := ModeEnergy(s, k, 1).value.fpu;
            && ModePosition(e, j, 0).value.value == Position(s, Coefficients(s, k))
            && ModeVelocity(e, j, 0).value.value == Velocity(s, Coefficients(s, k))
            && (ModeCross(e, j, 0).value.value <==> Crossed(Coefficients(s, k)))
  {
  }

  /** At construction the chain is at rest: every mode's two projections
      agree, so every mode velocity is zero. */
  lemma StartsAtRest(c: Config, m: Libm, k: int)
    requires ValidConfig(c)
    ensures var s := Construct(c, m);
            && Coefficients(s, k).a == Coefficients(s, k).aOld
            && Velocity(s, Coefficients(s, k)) == 0.0
  {
    var s := Construct(c, m);
    ProjectInterior(s.chain.x, s.chain.xOld, m.sin, ModeArg(c, k), c.nParticles);
  }

  /** `v`: the velocity of particle `i` over the last step. */
  function ParticleVelocity(c: Config, ch: Chain, i: int): real
    requires WellFormed(c, ch) && 1 <= i <= Last(c)
  {
    (ch.x[i] - ch.xOld[i]) / c.dt
  }

  /** `dx`: the stretch of the spring left of particle `i`, averaged over both buffers. */
  function MeanStretch(c: Config, ch: Chain, i: int): real
    requires WellFormed(c, ch) && 1 <= i <= Last(c)
  {
    0.5 * (ch.x[i] + ch.xOld[i] - (ch.x[i - 1] + ch.xOld[i - 1]))
  }

  /** Kinetic plus stretching energy of particle `i` against particle `i - 1`. */
  function EnergyTerm(c: Config, ch: Chain, i: int): (e: real)
    requires WellFormed(c, ch) && 1 <= i <= Last(c)
    ensures e >= 0.0
  {
    HalfSumOfSquares(ParticleVelocity(c, ch, i), MeanStretch(c, ch, i))
  }

  /** The energy terms of particles `1..n`, in the order the loop adds them. */
  function Terms(c: Config, ch: Chain, n: nat): (t: seq<real>)
    requires WellFormed(c, ch) && n <= Last(c)
  {
    seq(n, i requires 0 <= i < n => EnergyTerm(c, ch, i + 1))
  }

  /** `s[0] + s[1] + ... + s[|s| - 1]`, added left to right. */
  function Sum(s: seq<real>): real {
    if |s| == 0 then 0.0 else Sum(s[..|s| - 1]) + s[|s| - 1]
  }

  /** `sum_{i=1..n} EnergyTerm(c, ch, i)`. */
  function EnergySum(c: Config, ch: Chain, n: nat): (e: real)
    requires WellFormed(c, ch) && n <= Last(c)
    ensures e >= 0.0
  {
    var t := Terms(c, ch, n);
    SumPositive(t);
    Sum(t)
  }

  /** `TotalEnergy()`: summed over particles 1..N+1, the last term being the
      spring to the right-hand clamped end. */
  function TotalEnergy(c: Config, ch: Chain): (e: real)
    requires WellFormed(c, ch)
    ensures e >= 0.0
  {
    EnergySum(c, ch, Last(c))
  }

  /** A particle term is positive exactly when the particle moved during
      the step or its spring to the left has a different mean stretch. */
  lemma EnergyTermPositive(c: Config, ch: Chain, i: int)
    requires WellFormed(c, ch) && 1 <= i <= Last(c)
    ensures EnergyTerm(c, ch, i) > 0.0 <==> Moved(c, ch, i)
  {
    var x, xOld := ch.x, ch.xOld;
    var v, dx := ParticleVelocity(c, ch, i), MeanStretch(c, ch, i);
    assert v != 0.0 <==> x[i] != xOld[i];
    assert dx != 0.0 <==> x[i] + xOld[i] != x[i - 1] + xOld[i - 1];
    HalfSumOfSquaresPositive(v, dx);
  }

  /** Half a sum of two squares is positive exactly when either is non-zero. */
  lemma HalfSumOfSquaresPositive(v: real, w: real)
    ensures HalfSumOfSquares(v, w) > 0.0 <==> v != 0.0 || w != 0.0
  {
    SquareFacts(v);
    SquareFacts(w);
  }

  /** A square is never negative, and positive when its root is non-zero. */
  lemma SquareFacts(r: real)
    ensures r * r >= 0.0
    ensures r != 0.0 ==> r * r > 0.0
  {
    if r < 0.0 {
      PositiveSquare(0.0 - r);
      assert (0.0 - r) * (0.0 - r) == r * r;
    } else if r > 0.0 {
      PositiveSquare(r);
    }
  }

  lemma PositiveSquare(r: real)
    requires r > 0.0
    ensures r * r > 0.0
  {
  }

  predicate RestUpTo(c: Config, ch: Chain, n: int)
    requires WellFormed(c, ch) && n <= Last(c)
  {
    forall i :: 1 <= i <= n ==> ch.x[i] == 0.0 && ch.xOld[i] == 0.0
  }

  /** Particle `i` moved during the step, or its spring to the left has a
      non-zero mean stretch. */
  predicate Moved(c: Config, ch: Chain, i: int)
    requires WellFormed(c, ch) && 1 <= i <= Last(c)
  {
    || ch.x[i] != ch.xOld[i]
    || ch.x[i] + ch.xOld[i] != ch.x[i - 1] + ch.xOld[i - 1]
  }

  /** A sum of non-negative reals is non-negative, and positive exactly when
      one of them is. */
  lemma {:induction false} SumPositive(s: seq<real>)
    requires forall i :: 0 <= i < |s| ==> s[i] >= 0.0
    ensures Sum(s) >= 0.0
    ensures Sum(s) > 0.0 <==> exists i :: 0 <= i < |s| && s[i] > 0.0
  {
    if |s| > 0 {
      var p := s[..|s| - 1];
      assert forall i :: 0 <= i < |p| ==> p[i] == s[i];
      SumPositive(p);
      if Sum(p) > 0.0 {
        var i :| 0 <= i < |p| && p[i] > 0.0;
        assert s[i] > 0.0;
      }
    }
  }

  /** With the left end at rest at zero, particles `1..n` are at rest exactly
      when none of them moved or sits at a non-zero mean stretch. */
  lemma {:induction false} RestIffStill(c: Config, ch: Chain, n: nat)
    requires WellFormed(c, ch) && n <= Last(c)
    requires ch.x[0] == 0.0 && ch.xOld[0] == 0.0
    ensures RestUpTo(c, ch, n) <==> forall i :: 1 <= i <= n ==> !Moved(c, ch, i)
  {
    if n > 0 {
      RestIffStill(c, ch, n - 1);
      RestStep(c, ch, n);
    }
  }

  /** Particles 1..n are at rest exactly when 1..n-1 are and particle `n`
      neither moved nor differs in mean stretch from its resting neighbour. */
  lemma RestStep(c: Config, ch: Chain, n: nat)
    requires WellFormed(c, ch) && 1 <= n <= Last(c)
    requires ch.x[0] == 0.0 && ch.xOld[0] == 0.0
    ensures RestUpTo(c, ch, n) <==> RestUpTo(c, ch, n - 1) && !Moved(c, ch, n)
  {
    if RestUpTo(c, ch, n - 1) {
      assert ch.x[n - 1] == 0.0 && ch.xOld[n - 1] == 0.0;
    }
  }

  /** With the left end clamped, the first `n` energy terms have a positive
      sum exactly when some particle among 1..n is away from rest at zero. */
  lemma EnergySumPositive(c: Config, ch: Chain, n: nat)
    requires WellFormed(c, ch) && n <= Last(c)
    requires ch.x[0] == 0.0 && ch.xOld[0] == 0.0
    ensures EnergySum(c, ch, n) > 0.0 <==> !RestUpTo(c, ch, n)
  {
    TermsMoved(c, ch, n);
    PositiveIffMoved(c, ch, Terms(c, ch, n));
  }

  /** Term `i` of `Terms` is non-negative, and positive exactly when particle
      `i + 1` moved. */
  lemma TermsMoved(c: Config, ch: Chain, n: nat)
    requires WellFormed(c, ch) && n <= Last(c)
    ensures forall i :: 0 <= i < n ==>
              Terms(c, ch, n)[i] >= 0.0 && (Terms(c, ch, n)[i] > 0.0 <==> Moved(c, ch, i + 1))
  {
    forall i | 0 <= i < n
      ensures Terms(c, ch, n)[i] >= 0.0 && (Terms(c, ch, n)[i] > 0.0 <==> Moved(c, ch, i + 1))
    {
      EnergyTermPositive(c, ch, i + 1);
    }
  }

  /** Non-negative terms, one per particle, each positive exactly when its
      particle moved, sum to a positive value exactly when the particles are
      not all at rest. */
  lemma PositiveIffMoved(c: Config, ch: Chain, t: seq<real>)
    requires WellFormed(c, ch) && |t| <= Last(c)
    requires ch.x[0] == 0.0 && ch.xOld[0] == 0.0
    requires forall i :: 0 <= i < |t| ==> t[i] >= 0.0 && (t[i] > 0.0 <==> Moved(c, ch, i + 1))
    ensures Sum(t) > 0.0 <==> !RestUpTo(c, ch, |t|)
  {
    var n := |t|;
    SumPositive(t);
    RestIffStill(c, ch, n);
    if !RestUpTo(c, ch, n) {
      var j :| 1 <= j <= n && Moved(c, ch, j);
      assert t[j - 1] > 0.0;
    }
  }

  /** On a clamped chain the total energy is positive exactly when some
      particle is away from rest at zero. */
  lemma TotalEnergyPositive(c: Config, ch: Chain)
    requires WellFormed(c, ch) && Clamped(c, ch)
    ensures TotalEnergy(c, ch) > 0.0 <==> !RestUpTo(c, ch, c.nParticles)
  {
    EnergySumPositive(c, ch, Last(c));
  }
}
