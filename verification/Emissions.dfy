/** How likely an observation is in each hidden state: independent Bernoulli
features, then independent Gaussian ones, learned online. */
module Emissions {
  import opened HiddenStates

  const BINARY: nat := 18
  const CONTINUOUS: nat := 12
  const FEATURE_DIM: nat := BINARY + CONTINUOUS

  /** An observed feature vector. */
  type Observation = o: seq<real> | |o| == 30 witness seq(30, i => 0.0)

  /** The numeric library: any exponential, logarithm and root of two pi. */
  datatype Numerics = Numerics(exp: real -> real, log: real -> real, rootTwoPi: real)

  /** The parameters of one state. */
  datatype Params = Params(p: seq<real>, mu: seq<real>, sigma: seq<real>)

  predicate WellShaped(q: Params) {
    |q.p| == BINARY && |q.mu| == |q.sigma| == CONTINUOUS
  }

  /** Bernoulli parameters stay away from 0 and 1 and deviations away from 0. */
  predicate Clamped(q: Params) {
    && WellShaped(q)
    && (forall i :: 0 <= i < BINARY ==> 0.01 <= q.p[i] <= 0.99)
    && (forall i :: 0 <= i < CONTINUOUS ==> q.sigma[i] >= 0.1)
  }

  function Clamp(x: real, lo: real, hi: real): real {
    if x < lo then lo else if x > hi then hi else x
  }

  function AtLeast(x: real, lo: real): real {
    if x < lo then lo else x
  }

  /** The parameters a default signature starts a state with. */
  function Initial(signature: Observation): (q: Params)
    ensures Clamped(q)
  {
    Params(
      seq(BINARY, i requires 0 <= i < BINARY => Clamp(signature[i], 0.05, 0.95)),
      seq(CONTINUOUS, i requires 0 <= i < CONTINUOUS => signature[BINARY + i]),
      seq(CONTINUOUS, i => 50.0))
  }

  // Products and quotients under a name, so that a proof can hide them.

  function Times(x: real, y: real): real {
    x * y
  }

  function Ratio(x: real, y: real): real
    requires y != 0.0
  {
    x / y
  }

  // -- Likelihood ------------------------------------------------------------------

  /** The logarithm is only ever asked for a positive argument. */
  function LogOf(num: Numerics, x: real): real
    requires x > 0.0
  {
    num.log(x)
  }

  function BinaryTerm(num: Numerics, p: real, o: real): real
    requires 0.0 < p < 1.0
  {
    if o > 0.5 then LogOf(num, p) else LogOf(num, 1.0 - p)
  }

  function GaussianTerm(num: Numerics, mu: real, sigma: real, o: real): real
    requires num.rootTwoPi > 0.0 && sigma > 0.0
  {
    PositiveTimes(sigma, sigma);
    PositiveTimes(sigma, num.rootTwoPi);
    var diff := o - mu;
    Ratio(-0.5 * Times(diff, diff), Times(sigma, sigma)) - LogOf(num, Times(sigma, num.rootTwoPi))
  }

  lemma PositiveTimes(x: real, y: real)
    requires x > 0.0 && y > 0.0
    ensures Times(x, y) > 0.0
  {}

  /** The log-likelihood of the first `n` features, straight from the parameters. */
  function LogLikelihood(num: Numerics, q: Params, o: Observation, n: nat): real
    requires num.rootTwoPi > 0.0 && Clamped(q) && n <= FEATURE_DIM
  {
    if n == 0 then 0.0
    else if n <= BINARY then LogLikelihood(num, q, o, n - 1) + BinaryTerm(num, q.p[n - 1], o[n - 1])
    else LogLikelihood(num, q, o, n - 1) + GaussianTerm(num, q.mu[n - 1 - BINARY], q.sigma[n - 1 - BINARY], o[n - 1])
  }

  function EmissionOf(num: Numerics, q: Params, o: Observation): (e: real)
    requires num.rootTwoPi > 0.0 && Clamped(q)
    ensures e >= TINY
  {
    AtLeast(num.exp(LogLikelihood(num, q, o, FEATURE_DIM)), TINY)
  }

  /** The emission probability of every state. */
  function RowOf(num: Numerics, params: seq<Params>, o: Observation): (e: Row)
    requires num.rootTwoPi > 0.0 && |params| == N && forall s: State :: Clamped(params[s])
    ensures forall s: State :: e[s] == EmissionOf(num, params[s], o)
  {
    seq(N, s requires 0 <= s < N => EmissionOf(num, params[s], o))
  }

  // -- Learning --------------------------------------------------------------------

  function Target(o: real): real {
    if o > 0.5 then 1.0 else 0.0
  }

  function LearnedP(p: real, o: real, rate: real): (r: real)
    ensures 0.01 <= r <= 0.99
  {
    Clamp(p + rate * (Target(o) - p), 0.01, 0.99)
  }

  function LearnedMu(mu: real, o: real, rate: real): real {
    mu + rate * (o - mu)
  }

  function LearnedSigma(sigma: real, mu: real, o: real, rate: real): (r: real)
    ensures r >= 0.1
  {
    AtLeast(Times(1.0 - rate, sigma) + Times(rate, Times(o - mu, o - mu)), 0.1)
  }

  /** The parameters after one observation at the given rate. */
  function Learned(q: Params, o: Observation, rate: real): (r: Params)
    requires WellShaped(q)
    ensures Clamped(r)
  {
    Params(
      seq(BINARY, i requires 0 <= i < BINARY => LearnedP(q.p[i], o[i], rate)),
      seq(CONTINUOUS, i requires 0 <= i < CONTINUOUS => LearnedMu(q.mu[i], o[BINARY + i], rate)),
      seq(CONTINUOUS, i requires 0 <= i < CONTINUOUS => LearnedSigma(q.sigma[i], q.mu[i], o[BINARY + i], rate)))
  }

  /** A belief below this is not learned from. */
  const MIN_MASS: real := 0.000001

  function LearningRate(mass: real, lo: real, hi: real): real {
    lo + mass * (hi - lo)
  }

  /** The parameters of one state after a soft assignment with the given belief. */
  function SoftlyLearned(q: Params, o: Observation, mass: real, lo: real, hi: real): (r: Params)
    requires Clamped(q)
    ensures Clamped(r)
  {
    if mass < MIN_MASS then q else Learned(q, o, LearningRate(mass, lo, hi))
  }

  // -- What the score means ------------------------------------------------------------

  function Exp(num: Numerics, x: real): real {
    num.exp(x)
  }

  /** All that is asked of the exponential and the logarithm. */
  ghost predicate Standard(num: Numerics) {
    && num.rootTwoPi > 0.0
    && (forall x: real :: Exp(num, x) > 0.0)
    && (forall x: real, y: real :: Exp(num, x + y) == Times(Exp(num, x), Exp(num, y)))
    && (forall x: real :: x > 0.0 ==> Exp(num, num.log(x)) == x)
    && (forall x: real, y: real :: x < y ==> Exp(num, x) < Exp(num, y))
  }

  // The facts one at a time.

  lemma ExpIsPositive(num: Numerics, x: real)
    requires Standard(num)
    ensures Exp(num, x) > 0.0
  {}

  lemma ExpOfSum(num: Numerics, x: real, y: real)
    requires Standard(num)
    ensures Exp(num, x + y) == Times(Exp(num, x), Exp(num, y))
  {}

  lemma ExpOfLog(num: Numerics, x: real)
    requires Standard(num) && x > 0.0
    ensures Exp(num, num.log(x)) == x
  {}

  lemma ExpKeepsOrder(num: Numerics, x: real, y: real)
    requires Standard(num)
    ensures Exp(num, x) <= Exp(num, y) <==> x <= y
  {
    assert y < x ==> Exp(num, y) < Exp(num, x);
    assert x < y ==> Exp(num, x) < Exp(num, y);
  }

  /** The bell curve, at `z` deviations from the mean. */
  function Bell(num: Numerics, z: real): real {
    Exp(num, -0.5 * Times(z, z))
  }

  /** The density of one feature: the probability of a present or an absent binary one, and
  the normal density of a continuous one. */
  function Density(num: Numerics, q: Params, o: Observation, i: nat): real
    requires num.rootTwoPi > 0.0 && Clamped(q) && i < FEATURE_DIM
  {
    if i < BINARY && o[i] > 0.5 then q.p[i]
    else if i < BINARY then 1.0 - q.p[i]
    else NormalDensity(num, q.mu[i - BINARY], q.sigma[i - BINARY], o[i])
  }

  function NormalDensity(num: Numerics, mu: real, sigma: real, o: real): real
    requires num.rootTwoPi > 0.0 && sigma > 0.0
  {
    PositiveTimes(sigma, num.rootTwoPi);
    Ratio(Bell(num, Ratio(o - mu, sigma)), Times(sigma, num.rootTwoPi))
  }

  /** The joint density of the first `n` features, which are independent. */
  function JointDensity(num: Numerics, q: Params, o: Observation, n: nat): real
    requires num.rootTwoPi > 0.0 && Clamped(q) && n <= FEATURE_DIM
  {
    if n == 0 then 1.0 else Times(JointDensity(num, q, o, n - 1), Density(num, q, o, n - 1))
  }

  lemma ItsOwnSquare(e: real)
    requires e > 0.0 && e == Times(e, e)
    ensures e == 1.0
  {
    var up, down := e * (e - 1.0), e * (1.0 - e);
    assert up == e * e - e && down == e - e * e;
    if e > 1.0 {
      PositiveTimes(e, e - 1.0);
    } else if e < 1.0 {
      PositiveTimes(e, 1.0 - e);
    }
  }

  lemma ExpOfNothing(num: Numerics)
    requires Standard(num)
    ensures Exp(num, 0.0) == 1.0
  {
    hide Exp, Standard, Times;
    ExpIsPositive(num, 0.0);
    ExpOfSum(num, 0.0, 0.0);
    ItsOwnSquare(Exp(num, 0.0));
  }

  /** Where the logarithm is subtracted, the exponential divides. */
  lemma ExpOfDifference(num: Numerics, x: real, scale: real)
    requires Standard(num) && scale > 0.0
    ensures Exp(num, x - num.log(scale)) == Ratio(Exp(num, x), scale)
  {
    hide Exp, Standard, Times, Ratio;
    var l := num.log(scale);
    ExpOfLog(num, scale);
    ExpOfSum(num, x - l, l);
    assert x - l + l == x;
    RatioOfTimes(Exp(num, x - l), scale);
  }

  lemma RatioOfTimes(x: real, y: real)
    requires y != 0.0
    ensures Ratio(Times(x, y), y) == x
  {}

  lemma TimesOfRatio(x: real, y: real)
    requires y != 0.0
    ensures Times(Ratio(x, y), y) == x
  {}

  lemma SquareOfTimes(x: real, y: real)
    ensures Times(Times(x, y), Times(x, y)) == Times(Times(x, x), Times(y, y))
  {}

  lemma HalfOfTimes(x: real, y: real)
    ensures -0.5 * Times(x, y) == Times(-0.5 * x, y)
  {}

  lemma SquaredDeviations(x: real, sigma: real)
    requires sigma > 0.0 && Times(sigma, sigma) > 0.0
    ensures var z := Ratio(x, sigma); Ratio(-0.5 * Times(x, x), Times(sigma, sigma)) == -0.5 * Times(z, z)
  {
    hide Times, Ratio;
    var z := Ratio(x, sigma);
    TimesOfRatio(x, sigma);
    SquareOfTimes(z, sigma);
    HalfOfTimes(Times(z, z), Times(sigma, sigma));
    RatioOfTimes(-0.5 * Times(z, z), Times(sigma, sigma));
  }

  lemma ExpOfGaussianTerm(num: Numerics, mu: real, sigma: real, o: real)
    requires Standard(num) && sigma > 0.0
    ensures Exp(num, GaussianTerm(num, mu, sigma, o)) == NormalDensity(num, mu, sigma, o)
  {
    PositiveTimes(sigma, sigma);
    PositiveTimes(sigma, num.rootTwoPi);
    assert num.rootTwoPi > 0.0;
    hide Exp, Standard, Times, Ratio;
    var z := Ratio(o - mu, sigma);
    SquaredDeviations(o - mu, sigma);
    ExpOfDifference(num, -0.5 * Times(z, z), Times(sigma, num.rootTwoPi));
  }

  lemma ExpOfBinaryTerm(num: Numerics, p: real, o: real)
    requires Standard(num) && 0.0 < p < 1.0
    ensures Exp(num, BinaryTerm(num, p, o)) == if o > 0.5 then p else 1.0 - p
  {
    hide Exp, Standard;
    ExpOfLog(num, p);
    ExpOfLog(num, 1.0 - p);
  }

  /** What feature `i` adds to the score. */
  function Term(num: Numerics, q: Params, o: Observation, i: nat): real
    requires num.rootTwoPi > 0.0 && Clamped(q) && i < FEATURE_DIM
  {
    if i < BINARY then BinaryTerm(num, q.p[i], o[i])
    else GaussianTerm(num, q.mu[i - BINARY], q.sigma[i - BINARY], o[i])
  }

  lemma ScoreOneMore(num: Numerics, q: Params, o: Observation, n: nat)
    requires num.rootTwoPi > 0.0 && Clamped(q) && 0 < n <= FEATURE_DIM
    ensures LogLikelihood(num, q, o, n) == LogLikelihood(num, q, o, n - 1) + Term(num, q, o, n - 1)
  {}

  lemma ExpOfTerm(num: Numerics, q: Params, o: Observation, i: nat)
    requires Standard(num) && Clamped(q) && i < FEATURE_DIM
    ensures Exp(num, Term(num, q, o, i)) == Density(num, q, o, i)
  {
    hide Exp, Standard, BinaryTerm, GaussianTerm, NormalDensity;
    if i < BINARY {
      ExpOfBinaryTerm(num, q.p[i], o[i]);
    } else {
      ExpOfGaussianTerm(num, q.mu[i - BINARY], q.sigma[i - BINARY], o[i]);
    }
  }

  /** The exponential of the summed score is the joint density. */
  lemma {:induction false} ScoreIsLogOfDensity(num: Numerics, q: Params, o: Observation, n: nat)
    requires Standard(num) && Clamped(q) && n <= FEATURE_DIM
    ensures Exp(num, LogLikelihood(num, q, o, n)) == JointDensity(num, q, o, n)
  {
    assert num.rootTwoPi > 0.0;
    hide Exp, Standard, Times, Density, Term, Clamped;
    if n == 0 {
      ExpOfNothing(num);
    } else {
      hide LogLikelihood, JointDensity;
      ScoreIsLogOfDensity(num, q, o, n - 1);
      ScoreIsLogOneMore(num, q, o, n);
    }
  }

  lemma JointDensityOneMore(num: Numerics, q: Params, o: Observation, n: nat)
    requires num.rootTwoPi > 0.0 && Clamped(q) && 0 < n <= FEATURE_DIM
    ensures JointDensity(num, q, o, n) == Times(JointDensity(num, q, o, n - 1), Density(num, q, o, n - 1))
  {}

  lemma ScoreIsLogOneMore(num: Numerics, q: Params, o: Observation, n: nat)
    requires Standard(num) && Clamped(q) && 0 < n <= FEATURE_DIM
    requires Exp(num, LogLikelihood(num, q, o, n - 1)) == JointDensity(num, q, o, n - 1)
    ensures Exp(num, LogLikelihood(num, q, o, n)) == JointDensity(num, q, o, n)
  {
    assert num.rootTwoPi > 0.0;
    hide Exp, Standard, Clamped, Times, Density, LogLikelihood, Term, JointDensity;
    JointDensityOneMore(num, q, o, n);
    ScoreOneMore(num, q, o, n);
    var score, term := LogLikelihood(num, q, o, n - 1), Term(num, q, o, n - 1);
    ExpOfTerm(num, q, o, n - 1);
    ExpOfSum(num, score, term);
  }

  /** The emission probability is the joint density of the vector, kept at or above 1e-30. */
  lemma EmissionIsDensity(num: Numerics, q: Params, o: Observation)
    requires Standard(num) && Clamped(q)
    ensures var density := JointDensity(num, q, o, FEATURE_DIM);
      EmissionOf(num, q, o) == if density < TINY then TINY else density
  {
    hide LogLikelihood, JointDensity;
    ScoreIsLogOfDensity(num, q, o, FEATURE_DIM);
  }

  // -- One feature at a time -----------------------------------------------------------------

  lemma DensityIsPositive(num: Numerics, q: Params, o: Observation, i: nat)
    requires Standard(num) && Clamped(q) && i < FEATURE_DIM
    ensures Density(num, q, o, i) > 0.0
  {
    if i >= BINARY {
      var mu, sigma := q.mu[i - BINARY], q.sigma[i - BINARY];
      var z := Ratio(o[i] - mu, sigma);
      PositiveTimes(sigma, num.rootTwoPi);
      ExpIsPositive(num, -0.5 * Times(z, z));
      hide Exp, Standard, Times, Ratio;
      RatioOrder(0.0, Bell(num, z), Times(sigma, num.rootTwoPi));
      RatioOrder(Bell(num, z), 0.0, Times(sigma, num.rootTwoPi));
    }
  }

  /** The joint density without feature `i`. */
  function Others(num: Numerics, q: Params, o: Observation, i: nat, n: nat): real
    requires num.rootTwoPi > 0.0 && Clamped(q) && n <= FEATURE_DIM
  {
    if n == 0 then 1.0
    else if n - 1 == i then Others(num, q, o, i, n - 1)
    else Times(Others(num, q, o, i, n - 1), Density(num, q, o, n - 1))
  }

  lemma {:induction false} OneFactor(num: Numerics, q: Params, o: Observation, i: nat, n: nat)
    requires Standard(num) && Clamped(q) && i < n <= FEATURE_DIM
    ensures JointDensity(num, q, o, n) == Times(Others(num, q, o, i, n), Density(num, q, o, i))
  {
    hide Density;
    if n - 1 == i {
      NoFactorYet(num, q, o, i, n - 1);
    } else {
      OneFactor(num, q, o, i, n - 1);
    }
  }

  lemma {:induction false} NoFactorYet(num: Numerics, q: Params, o: Observation, i: nat, n: nat)
    requires num.rootTwoPi > 0.0 && Clamped(q) && n <= i && n <= FEATURE_DIM
    ensures JointDensity(num, q, o, n) == Others(num, q, o, i, n)
  {
    if n > 0 {
      NoFactorYet(num, q, o, i, n - 1);
    }
  }

  lemma OtherDensity(num: Numerics, q: Params, o: Observation, i: nat, x: real, k: nat)
    requires num.rootTwoPi > 0.0 && Clamped(q) && i < FEATURE_DIM && k < FEATURE_DIM && k != i
    ensures Density(num, q, o[i := x], k) == Density(num, q, o, k)
  {}

  lemma {:induction false} OthersStay(num: Numerics, q: Params, o: Observation, i: nat, x: real, n: nat)
    requires Standard(num) && Clamped(q) && i < FEATURE_DIM && n <= FEATURE_DIM
    ensures Others(num, q, o[i := x], i, n) == Others(num, q, o, i, n) > 0.0
  {
    assert num.rootTwoPi > 0.0;
    hide Exp, Standard, Times, Density;
    if n > 0 {
      OthersStay(num, q, o, i, x, n - 1);
      if n - 1 != i {
        OtherDensity(num, q, o, i, x, n - 1);
        DensityIsPositive(num, q, o, n - 1);
        TimesGrows(Others(num, q, o, i, n - 1), 0.0, Density(num, q, o, n - 1));
      }
    }
  }

  lemma TimesGrows(x: real, y: real, z: real)
    requires x > 0.0
    ensures Times(x, y) <= Times(x, z) <==> y <= z
    ensures Times(x, y) < Times(x, z) <==> y < z
    ensures Times(x, 0.0) == 0.0
  {
    TimesOfDifference(x, y, z);
    TimesOfDifference(x, z, y);
    if y < z {
      PositiveTimes(x, z - y);
    } else if y > z {
      PositiveTimes(x, y - z);
    }
  }

  lemma TimesOfDifference(x: real, y: real, z: real)
    ensures Times(x, z - y) == Times(x, z) - Times(x, y)
  {}

  /** Changing one feature does not lower the density of the vector if and only if it does
  not lower the density of that feature. */
  lemma OneFeatureDecides(num: Numerics, q: Params, o: Observation, i: nat, x: real)
    requires Standard(num) && Clamped(q) && i < FEATURE_DIM
    ensures JointDensity(num, q, o, FEATURE_DIM) <= JointDensity(num, q, o[i := x], FEATURE_DIM) <==>
      Density(num, q, o, i) <= Density(num, q, o[i := x], i)
  {
    hide Density, JointDensity, Others;
    OneFactor(num, q, o, i, FEATURE_DIM);
    OneFactor(num, q, o[i := x], i, FEATURE_DIM);
    OthersStay(num, q, o, i, x, FEATURE_DIM);
    TimesGrows(Others(num, q, o, i, FEATURE_DIM), Density(num, q, o, i), Density(num, q, o[i := x], i));
  }

  /** Seeing a binary feature that was absent does not make a state less likely if and only
  if the state shows it at least half of the time, as far as the floor lets one see. */
  lemma PresenceFavoursIff(num: Numerics, q: Params, o: Observation, i: nat)
    requires Standard(num) && Clamped(q) && i < BINARY && o[i] <= 0.5
    requires JointDensity(num, q, o, FEATURE_DIM) > TINY
    ensures EmissionOf(num, q, o) <= EmissionOf(num, q, o[i := 1.0]) <==> q.p[i] >= 0.5
  {
    hide JointDensity, EmissionOf;
    OneFeatureDecides(num, q, o, i, 1.0);
    EmissionIsDensity(num, q, o);
    EmissionIsDensity(num, q, o[i := 1.0]);
  }

  /** Moving a continuous feature does not make a state less likely if and only if it does
  not move away from the mean of the state. */
  lemma ClosenessFavoursIff(num: Numerics, q: Params, o: Observation, i: nat, x: real)
    requires Standard(num) && Clamped(q) && BINARY <= i < FEATURE_DIM
    requires JointDensity(num, q, o, FEATURE_DIM) > TINY
    ensures EmissionOf(num, q, o) <= EmissionOf(num, q, o[i := x]) <==>
      Distance(x, q.mu[i - BINARY]) <= Distance(o[i], q.mu[i - BINARY])
  {
    hide JointDensity, EmissionOf, Standard, NormalDensity, Distance;
    OneFeatureDecides(num, q, o, i, x);
    EmissionIsDensity(num, q, o);
    EmissionIsDensity(num, q, o[i := x]);
    NormalPeaksAtMean(num, q.mu[i - BINARY], q.sigma[i - BINARY], o[i], x);
  }

  function Distance(x: real, y: real): real {
    if x < y then y - x else x - y
  }

  lemma NormalPeaksAtMean(num: Numerics, mu: real, sigma: real, x: real, y: real)
    requires Standard(num) && sigma > 0.0
    ensures NormalDensity(num, mu, sigma, x) <= NormalDensity(num, mu, sigma, y) <==> Distance(y, mu) <= Distance(x, mu)
  {
    PositiveTimes(sigma, num.rootTwoPi);
    hide Exp, Standard, Times, Distance, Bell, Ratio;
    BellOrder(num, Ratio(x - mu, sigma), Ratio(y - mu, sigma), Times(sigma, num.rootTwoPi));
    DeviationOrder(mu, sigma, x, y);
  }

  lemma BellOrder(num: Numerics, u: real, v: real, scale: real)
    requires Standard(num) && scale > 0.0
    ensures Ratio(Bell(num, u), scale) <= Ratio(Bell(num, v), scale) <==> Distance(v, 0.0) <= Distance(u, 0.0)
  {
    hide Exp, Standard, Times, Distance, Ratio;
    RatioOrder(Bell(num, u), Bell(num, v), scale);
    ExpKeepsOrder(num, -0.5 * Times(u, u), -0.5 * Times(v, v));
    SquareOrder(u, v);
  }

  lemma DeviationOrder(mu: real, sigma: real, x: real, y: real)
    requires sigma > 0.0
    ensures Distance(Ratio(y - mu, sigma), 0.0) <= Distance(Ratio(x - mu, sigma), 0.0) <==>
      Distance(y, mu) <= Distance(x, mu)
  {
    hide Ratio;
    RatioOrder(Distance(y - mu, 0.0), Distance(x - mu, 0.0), sigma);
    DistanceOfRatio(x - mu, sigma);
    DistanceOfRatio(y - mu, sigma);
  }

  lemma RatioOrder(x: real, y: real, s: real)
    requires s > 0.0
    ensures Ratio(x, s) <= Ratio(y, s) <==> x <= y
    ensures Ratio(0.0, s) == 0.0
  {
    var u, v := Ratio(x, s), Ratio(y, s);
    TimesOfRatio(x, s);
    TimesOfRatio(y, s);
    hide Ratio;
    TimesSwaps(u, s);
    TimesSwaps(v, s);
    TimesGrows(s, u, v);
    RatioOfTimes(0.0, s);
    assert Times(0.0, s) == 0.0;
  }

  lemma DistanceOfRatio(x: real, s: real)
    requires s > 0.0
    ensures Distance(Ratio(x, s), 0.0) == Ratio(Distance(x, 0.0), s)
  {
    RatioOrder(x, 0.0, s);
    RatioOrder(0.0, x, s);
    RatioOfMinus(x, s);
    hide Ratio;
  }

  lemma RatioOfMinus(x: real, s: real)
    requires s > 0.0
    ensures Ratio(-x, s) == -Ratio(x, s)
  {}

  lemma SquareOrder(u: real, v: real)
    ensures Times(v, v) <= Times(u, u) <==> Distance(v, 0.0) <= Distance(u, 0.0)
  {
    var x, y := Distance(u, 0.0), Distance(v, 0.0);
    SquareOfDistance(u);
    SquareOfDistance(v);
    if x < y {
      SmallerSquare(x, y);
    } else if y < x {
      SmallerSquare(y, x);
    }
  }

  lemma SquareOfDistance(u: real)
    ensures Times(u, u) == Times(Distance(u, 0.0), Distance(u, 0.0))
  {
    assert (-u) * (-u) == u * u;
  }

  lemma SmallerSquare(x: real, y: real)
    requires 0.0 <= x < y
    ensures Times(x, x) < Times(y, y)
  {
    assert Times(0.0, 0.0) == 0.0;
    hide Times;
    TimesGrows(y, x, y);
    if x > 0.0 {
      TimesGrows(x, x, y);
      TimesSwaps(x, y);
    } else {
      TimesGrows(y, 0.0, y);
    }
  }

  // -- What learning does -------------------------------------------------------------------------

  /** Learning from a vector never lowers the density that the binary features of the same
  vector have in the state. */
  lemma {:induction false} LearningFavoursWhatWasSeen(num: Numerics, q: Params, o: Observation, rate: real, n: nat)
    requires Standard(num) && Clamped(q) && rate >= 0.0 && n <= BINARY
    ensures 0.0 < JointDensity(num, q, o, n) <= JointDensity(num, Learned(q, o, rate), o, n)
  {
    if n > 0 {
      LearningFavoursWhatWasSeen(num, q, o, rate, n - 1);
      LearnedMovesTowards(q.p[n - 1], o[n - 1], rate);
      var x, y := JointDensity(num, q, o, n - 1), JointDensity(num, Learned(q, o, rate), o, n - 1);
      var u, v := Density(num, q, o, n - 1), Density(num, Learned(q, o, rate), o, n - 1);
      TimesGrows(x, 0.0, u);
      TimesGrows(x, u, v);
      TimesGrows(v, x, y);
      TimesSwaps(x, v);
      TimesSwaps(y, v);
    }
  }

  lemma TimesSwaps(x: real, y: real)
    ensures Times(x, y) == Times(y, x)
  {}

  lemma LearnedMovesTowards(p: real, o: real, rate: real)
    requires 0.01 <= p <= 0.99 && rate >= 0.0
    ensures if o > 0.5 then LearnedP(p, o, rate) >= p else LearnedP(p, o, rate) <= p
  {
    var step := rate * (Target(o) - p);
    SignOfTimes(rate, Target(o) - p, step);
  }

  lemma SignOfTimes(x: real, y: real, z: real)
    requires x >= 0.0 && z == x * y
    ensures y >= 0.0 ==> z >= 0.0
    ensures y <= 0.0 ==> z <= 0.0
  {}

  /** A mean gives up the given share of its distance to the feature. */
  lemma MeanApproaches(mu: real, o: real, rate: real)
    requires 0.0 <= rate <= 1.0
    ensures Distance(LearnedMu(mu, o, rate), o) == Times(1.0 - rate, Distance(mu, o))
  {
    var d, left := o - mu, (1.0 - rate) * (o - mu);
    SignOfTimes(1.0 - rate, d, left);
    Shares(rate, d);
    assert o - LearnedMu(mu, o, rate) == left;
    TimesOfMinus(1.0 - rate, d);
  }

  lemma TimesOfMinus(x: real, y: real)
    ensures Times(x, -y) == -Times(x, y)
  {}

  lemma Shares(rate: real, x: real)
    ensures rate * x + (1.0 - rate) * x == x
  {}

  /** A deviation ends between itself and the squared distance. */
  lemma DeviationApproaches(mu: real, sigma: real, o: real, rate: real)
    requires 0.0 <= rate <= 1.0 && sigma >= 0.1
    ensures var square := Times(o - mu, o - mu);
      && (sigma <= square ==> sigma <= LearnedSigma(sigma, mu, o, rate) <= square)
      && (square <= sigma ==> square <= LearnedSigma(sigma, mu, o, rate) <= sigma)
  {
    var square := Times(o - mu, o - mu);
    hide Times;
    BetweenTheTwo(sigma, square, rate);
  }

  lemma TimesTwice(rate: real, x: real)
    ensures rate * x * x == Times(rate, Times(x, x))
  {}

  lemma BetweenTheTwo(x: real, y: real, rate: real)
    requires 0.0 <= rate <= 1.0
    ensures var mean := Times(1.0 - rate, x) + Times(rate, y);
      (x <= y ==> x <= mean <= y) && (y <= x ==> y <= mean <= x)
  {
    var d := y - x;
    var up, down := rate * d, (1.0 - rate) * d;
    SignOfTimes(rate, d, up);
    SignOfTimes(1.0 - rate, d, down);
    Shares(rate, d);
    assert Times(1.0 - rate, x) + Times(rate, y) == x + up;
  }

  /** The engine learns at a rate of 0.01 plus 0.07 times the belief, so never outside 0.01 to
  0.08. */
  lemma EngineLearningRate(mass: real)
    requires 0.0 <= mass <= 1.0
    ensures 0.01 <= LearningRate(mass, 0.01, 0.08) == 0.01 + 0.07 * mass <= 0.08
  {}

  class EmissionModel {
    const num: Numerics
    var params: seq<Params>
    var counts: seq<nat>

    ghost predicate Valid()
      reads this
    {
      && num.rootTwoPi > 0.0
      && |params| == |counts| == N
      && forall s: State :: Clamped(params[s])
    }

    /** Takes the default signatures: raw Bernoulli values and means per state. */
    constructor (num: Numerics, defaults: seq<Observation>)
      requires num.rootTwoPi > 0.0 && |defaults| == N
      ensures Valid() && this.num == num
      ensures forall s: State :: params[s] == Initial(defaults[s]) && counts[s] == 0
    {
      this.num := num;
      this.params := seq(N, s requires 0 <= s < N => Initial(defaults[s]));
      this.counts := seq(N, s => 0);
    }

    ghost function EmissionRow(o: Observation): (e: Row)
      requires Valid()
      reads this
      ensures forall s: State :: e[s] >= TINY
    {
      RowOf(num, params, o)
    }

    /** The clamps applied while reading never fire, so the result is the exact
    mixture likelihood of the stored parameters. */
    method EmissionProb(o: Observation, s: State) returns (prob: real)
      requires Valid()
      ensures prob == EmissionRow(o)[s]
    {
      var q := params[s];
      var logProb := 0.0;
      for i := 0 to BINARY
        invariant logProb == LogLikelihood(num, q, o, i)
      {
        var p := Clamp(q.p[i], 0.01, 0.99);
        logProb := logProb + BinaryTerm(num, p, o[i]);
      }
      for i := BINARY to FEATURE_DIM
        invariant logProb == LogLikelihood(num, q, o, i)
      {
        var sigma := AtLeast(q.sigma[i - BINARY], 0.1);
        logProb := logProb + GaussianTerm(num, q.mu[i - BINARY], sigma, o[i]);
      }
      prob := AtLeast(num.exp(logProb), TINY);
    }

    static method LearnBinary(p0: seq<real>, o: Observation, rate: real) returns (p: seq<real>)
      requires |p0| == BINARY
      ensures |p| == BINARY && forall k :: 0 <= k < BINARY ==> p[k] == LearnedP(p0[k], o[k], rate)
    {
      p := p0;
      for i := 0 to BINARY
        invariant |p| == BINARY
        invariant forall k :: 0 <= k < i ==> p[k] == LearnedP(p0[k], o[k], rate)
        invariant forall k :: i <= k < BINARY ==> p[k] == p0[k]
      {
        var moved := p[i] + rate * (Target(o[i]) - p[i]);
        p := p[i := Clamp(moved, 0.01, 0.99)];
      }
    }

    static method LearnGaussian(oldMu: real, oldSigma: real, o: real, rate: real) returns (mu: real, sigma: real)
      ensures mu == LearnedMu(oldMu, o, rate) && sigma == LearnedSigma(oldSigma, oldMu, o, rate)
    {
      var diff := o - oldMu;
      mu := oldMu + rate * diff;
      var moved := rate * diff * diff;
      TimesTwice(rate, diff);
      sigma := AtLeast(Times(1.0 - rate, oldSigma) + moved, 0.1);
    }

    static method LearnContinuous(mu0: seq<real>, sigma0: seq<real>, o: Observation, rate: real)
      returns (mu: seq<real>, sigma: seq<real>)
      requires |mu0| == |sigma0| == CONTINUOUS
      ensures |mu| == |sigma| == CONTINUOUS
      ensures forall k :: 0 <= k < CONTINUOUS ==> mu[k] == LearnedMu(mu0[k], o[BINARY + k], rate)
      ensures forall k :: 0 <= k < CONTINUOUS ==> sigma[k] == LearnedSigma(sigma0[k], mu0[k], o[BINARY + k], rate)
    {
      hide LearnedMu, LearnedSigma;
      mu, sigma := mu0, sigma0;
      for i := 0 to CONTINUOUS
        invariant |mu| == |sigma| == CONTINUOUS
        invariant forall k :: i <= k < CONTINUOUS ==> mu[k] == mu0[k] && sigma[k] == sigma0[k]
        invariant forall k :: 0 <= k < i ==> mu[k] == LearnedMu(mu0[k], o[BINARY + k], rate)
        invariant forall k :: 0 <= k < i ==> sigma[k] == LearnedSigma(sigma0[k], mu0[k], o[BINARY + k], rate)
      {
        var newMu, newSigma := LearnGaussian(mu[i], sigma[i], o[BINARY + i], rate);
        mu := mu[i := newMu];
        sigma := sigma[i := newSigma];
      }
    }

    method UpdateFromObservation(o: Observation, s: State, rate: real)
      requires Valid()
      modifies this`params, this`counts
      ensures Valid()
      ensures params == old(params)[s := Learned(old(params)[s], o, rate)]
      ensures counts == old(counts)[s := old(counts)[s] + 1]
    {
      var q := params[s];
      var p := LearnBinary(q.p, o, rate);
      var mu, sigma := LearnContinuous(q.mu, q.sigma, o, rate);
      var learned := Params(p, mu, sigma);
      assert learned == Learned(q, o, rate);
      params := params[s := learned];
      counts := counts[s := counts[s] + 1];
    }

    /** Learns every state with enough belief, at a rate that grows with it. */
    method UpdateFromSoftAssignment(o: Observation, beliefs: Row, lo: real, hi: real)
      requires Valid()
      modifies this`params, this`counts
      ensures Valid()
      ensures forall s: State :: params[s] == SoftlyLearned(old(params)[s], o, beliefs[s], lo, hi)
      ensures forall s: State :: counts[s] == old(counts)[s] + if beliefs[s] < MIN_MASS then 0 else 1
    {
      for s := 0 to N
        invariant Valid()
        invariant forall r: State :: r < s ==> params[r] == SoftlyLearned(old(params)[r], o, beliefs[r], lo, hi)
        invariant forall r: State :: r >= s ==> params[r] == old(params)[r]
        invariant forall r: State :: counts[r] == old(counts)[r] + if r < s && beliefs[r] >= MIN_MASS then 1 else 0
      {
        if beliefs[s] >= MIN_MASS {
          UpdateFromObservation(o, s, LearningRate(beliefs[s], lo, hi));
        }
      }
    }
  }
}
