/** What one tick of the filter does to the belief, and why the belief is the
posterior over all state paths. */
module ForwardFilter {
  import opened HiddenStates
  import opened Transitions

  /** One observation as the filter sees it: the transition table and the emission
  probability of each state at that moment. Both may differ from tick to tick,
  because the engine keeps learning. */
  datatype Tick = Tick(a: Matrix, e: Row)

  /** The mass that the first `n` states send to `s`. */
  function Predicted(b: Row, a: Matrix, s: State, n: nat): real
    requires n <= N
  {
    if n == 0 then 0.0 else Predicted(b, a, s, n - 1) + b[n - 1] * a[n - 1][s]
  }

  function PredictedRow(b: Row, a: Matrix): Row {
    seq(N, s requires 0 <= s < N => Predicted(b, a, s, N))
  }

  function Joint(b: Row, tick: Tick): Row {
    seq(N, s requires 0 <= s < N => Predicted(b, tick.a, s, N) * tick.e[s])
  }

  predicate FallsBack(b: Row, tick: Tick) {
    Sum(Joint(b, tick)) <= TINY
  }

  /** The constructor's renormalisation, which tolerates an error of 0.001. */
  function Renormalized(v: Row): Row {
    if Sum(v) > 0.0 && (Sum(v) - 1.0 > 0.001 || 1.0 - Sum(v) > 0.001) then Scaled(v, Sum(v)) else v
  }

  function Step(b: Row, tick: Tick): Row {
    if FallsBack(b, tick) then Renormalized(UNIFORM)
    else Renormalized(Scaled(Joint(b, tick), Sum(Joint(b, tick))))
  }

  /** The belief after a run of ticks from the uniform start. */
  function Run(ticks: seq<Tick>): Row {
    if ticks == [] then UNIFORM else Step(Run(ticks[..|ticks| - 1]), ticks[|ticks| - 1])
  }

  /** The ticks after the last one that fell back. */
  function SinceFallback(ticks: seq<Tick>): seq<Tick> {
    if ticks == [] || FallsBack(Run(ticks[..|ticks| - 1]), ticks[|ticks| - 1]) then []
    else SinceFallback(ticks[..|ticks| - 1]) + [ticks[|ticks| - 1]]
  }

  // -- All paths ---------------------------------------------------------------

  predicate AllOfLength(paths: seq<seq<State>>, k: nat) {
    forall i :: 0 <= i < |paths| ==> |paths[i]| == k
  }

  function Append(paths: seq<seq<State>>, s: State): seq<seq<State>> {
    seq(|paths|, i requires 0 <= i < |paths| => paths[i] + [s])
  }

  /** Each path extended by each of the first `n` states. */
  function Extend(paths: seq<seq<State>>, n: nat): (extended: seq<seq<State>>)
    requires n <= N
    ensures forall k: nat :: AllOfLength(paths, k) ==> AllOfLength(extended, k + 1)
  {
    if n == 0 then [] else Extend(paths, n - 1) + Append(paths, n - 1)
  }

  /** Every sequence of `k` states, once each. */
  function AllPaths(k: nat): (paths: seq<seq<State>>)
    ensures AllOfLength(paths, k)
  {
    if k == 0 then [[]] else Extend(AllPaths(k - 1), N)
  }

  lemma {:induction false} ExtendMembers(paths: seq<seq<State>>, n: nat, p: seq<State>)
    requires n <= N
    ensures p in Extend(paths, n) <==> p != [] && p[..|p| - 1] in paths && p[|p| - 1] < n
  {
    if n > 0 {
      ExtendMembers(paths, n - 1, p);
      var added := Append(paths, n - 1);
      if p in added {
        var i :| 0 <= i < |added| && added[i] == p;
        assert p[..|p| - 1] == paths[i];
      }
      if p != [] && p[..|p| - 1] in paths && p[|p| - 1] == n - 1 {
        var i :| 0 <= i < |paths| && paths[i] == p[..|p| - 1];
        assert added[i] == p;
      }
    }
  }

  lemma {:induction false} AllPathsAreAll(k: nat, p: seq<State>)
    ensures p in AllPaths(k) <==> |p| == k
  {
    if k > 0 {
      ExtendMembers(AllPaths(k - 1), N, p);
      if p != [] {
        AllPathsAreAll(k - 1, p[..|p| - 1]);
      }
    }
  }

  predicate Distinct<T(==)>(s: seq<T>) {
    forall i, j :: 0 <= i < j < |s| ==> s[i] != s[j]
  }

  lemma {:induction false} ExtendIsDistinct(paths: seq<seq<State>>, n: nat)
    requires n <= N && Distinct(paths)
    ensures Distinct(Extend(paths, n))
  {
    if n > 0 {
      ExtendIsDistinct(paths, n - 1);
      var shorter, added := Extend(paths, n - 1), Append(paths, n - 1);
      forall i, j | 0 <= i < j < |added|
        ensures added[i] != added[j]
      {
        assert added[i][..|added[i]| - 1] == paths[i] && added[j][..|added[j]| - 1] == paths[j];
      }
      forall i, j | 0 <= i < |shorter| && 0 <= j < |added|
        ensures shorter[i] != added[j]
      {
        assert shorter[i] in shorter;
        ExtendMembers(paths, n - 1, shorter[i]);
      }
    }
  }

  lemma {:induction false} AllPathsAreDistinct(k: nat)
    ensures Distinct(AllPaths(k))
  {
    if k > 0 {
      AllPathsAreDistinct(k - 1);
      ExtendIsDistinct(AllPaths(k - 1), N);
    }
  }

  // -- Path masses --------------------------------------------------------------

  /** Prior times transitions times emissions along one path; the path has one
  state more than there are ticks. */
  function Weight(ticks: seq<Tick>, p: seq<State>): real
    requires |p| == |ticks| + 1
  {
    if ticks == [] then UNIFORM[p[0]]
    else Times(Weight(ticks[..|ticks| - 1], p[..|p| - 1]), Factor(ticks[|ticks| - 1], p[|p| - 2], p[|p| - 1]))
  }

  function Times(x: real, y: real): real {
    x * y
  }

  /** What one tick contributes to a path that goes from `r` to `s`. */
  function Factor(tick: Tick, r: State, s: State): real {
    tick.a[r][s] * tick.e[s]
  }

  /** The weights of the given paths, each completed by the final state `s`. */
  function MassOver(paths: seq<seq<State>>, ticks: seq<Tick>, s: State): real
    requires AllOfLength(paths, |ticks|)
  {
    if paths == [] then 0.0
    else MassOver(paths[..|paths| - 1], ticks, s) + Weight(ticks, paths[|paths| - 1] + [s])
  }

  /** The total weight of all state paths that end in `s`. */
  function PathMass(ticks: seq<Tick>, s: State): real {
    MassOver(AllPaths(|ticks|), ticks, s)
  }

  function MassRow(ticks: seq<Tick>): Row {
    seq(N, s requires 0 <= s < N => PathMass(ticks, s))
  }

  /** The total weight of all state paths. */
  function TotalMass(ticks: seq<Tick>): real {
    Sum(MassRow(ticks))
  }

  lemma {:induction false} MassOverConcat(p: seq<seq<State>>, q: seq<seq<State>>, ticks: seq<Tick>, s: State)
    requires AllOfLength(p, |ticks|) && AllOfLength(q, |ticks|)
    ensures MassOver(p + q, ticks, s) == MassOver(p, ticks, s) + MassOver(q, ticks, s)
  {
    if q == [] {
      assert p + q == p;
    } else {
      assert (p + q)[..|p + q| - 1] == p + q[..|q| - 1];
      MassOverConcat(p, q[..|q| - 1], ticks, s);
    }
  }

  lemma WeightStep(before: seq<Tick>, tick: Tick, p: seq<State>, s: State)
    requires |p| == |before| + 1
    ensures Weight(before + [tick], p + [s]) == Times(Weight(before, p), Factor(tick, p[|before|], s))
  {
    var ticks, q := before + [tick], p + [s];
    assert ticks[..|ticks| - 1] == before && ticks[|ticks| - 1] == tick;
    assert q[..|q| - 1] == p && q[|q| - 2] == p[|before|];
  }

  lemma {:induction false} MassOverAppend(paths: seq<seq<State>>, before: seq<Tick>, tick: Tick, r: State, s: State)
    requires AllOfLength(paths, |before|)
    ensures AllOfLength(Append(paths, r), |before| + 1)
    ensures MassOver(Append(paths, r), before + [tick], s) == Times(MassOver(paths, before, r), Factor(tick, r, s))
  {
    if paths != [] {
      var shorter, p := paths[..|paths| - 1], paths[|paths| - 1];
      MassOverAppend(shorter, before, tick, r, s);
      assert Append(paths, r)[..|paths| - 1] == Append(shorter, r);
      WeightStep(before, tick, p + [r], s);
      TimesDistributes(MassOver(shorter, before, r), Weight(before, p + [r]), Factor(tick, r, s));
    }
  }

  lemma TimesDistributes(x: real, y: real, z: real)
    ensures Times(x + y, z) == Times(x, z) + Times(y, z)
  {}

  lemma Distributes(x: real, y: real, z: real)
    ensures (x + y) * z == x * z + y * z
  {}

  lemma {:induction false} MassOverExtend(paths: seq<seq<State>>, ticks: seq<Tick>, parts: Row, n: nat, s: State)
    requires n <= N && ticks != [] && AllOfLength(paths, |ticks| - 1)
    requires forall r: State ::
      AllOfLength(Append(paths, r), |ticks|) && parts[r] == MassOver(Append(paths, r), ticks, s)
    ensures AllOfLength(Extend(paths, n), |ticks|)
    ensures MassOver(Extend(paths, n), ticks, s) == SumTo(parts, n)
  {
    if n > 0 {
      MassOverExtend(paths, ticks, parts, n - 1, s);
      MassOverConcat(Extend(paths, n - 1), Append(paths, n - 1), ticks, s);
    }
  }

  lemma {:induction false} SumOfParts(parts: Row, masses: Row, tick: Tick, s: State, n: nat)
    requires n <= N
    requires forall r: State :: parts[r] == Times(masses[r], Factor(tick, r, s))
    ensures SumTo(parts, n) == Predicted(masses, tick.a, s, n) * tick.e[s]
  {
    if n > 0 {
      SumOfParts(parts, masses, tick, s, n - 1);
      Distributes(Predicted(masses, tick.a, s, n - 1), masses[n - 1] * tick.a[n - 1][s], tick.e[s]);
      assert parts[n - 1] == masses[n - 1] * tick.a[n - 1][s] * tick.e[s];
    }
  }

  /** The mass of the paths that end in `s`, split by the state before it. */
  function Parts(before: seq<Tick>, tick: Tick, s: State): Row {
    seq(N, r requires 0 <= r < N => Times(PathMass(before, r), Factor(tick, r, s)))
  }

  lemma PathMassStep(before: seq<Tick>, tick: Tick, s: State)
    ensures PathMass(before + [tick], s) == Sum(Parts(before, tick, s))
  {
    var paths, parts := AllPaths(|before|), Parts(before, tick, s);
    forall r: State
      ensures AllOfLength(Append(paths, r), |before| + 1)
      ensures parts[r] == MassOver(Append(paths, r), before + [tick], s)
    {
      MassOverAppend(paths, before, tick, r, s);
    }
    MassOverExtend(paths, before + [tick], parts, N, s);
  }

  /** The unnormalised forward recursion: a tick turns path masses into path masses. */
  lemma MassRecursion(before: seq<Tick>, tick: Tick)
    ensures MassRow(before + [tick]) == Joint(MassRow(before), tick)
  {
    hide PathMass, Predicted;
    forall s: State
      ensures MassRow(before + [tick])[s] == Joint(MassRow(before), tick)[s]
    {
      MassRecursionAt(before, tick, s);
    }
  }

  lemma MassRecursionAt(before: seq<Tick>, tick: Tick, s: State)
    ensures PathMass(before + [tick], s) == Predicted(MassRow(before), tick.a, s, N) * tick.e[s]
  {
    hide PathMass, Predicted, Times, Factor, SumTo;
    PathMassStep(before, tick, s);
    SumOfParts(Parts(before, tick, s), MassRow(before), tick, s, N);
  }

  // -- The posterior -------------------------------------------------------------

  lemma {:induction false} PredictedScaled(b: Row, d: real, a: Matrix, s: State, n: nat)
    requires d != 0.0 && n <= N
    ensures Predicted(Scaled(b, d), a, s, n) == Predicted(b, a, s, n) / d
  {
    if n > 0 {
      PredictedScaled(b, d, a, s, n - 1);
      var x, y := Predicted(b, a, s, n - 1), b[n - 1];
      assert (y / d) * a[n - 1][s] == (y * a[n - 1][s]) / d;
      assert x / d + (y * a[n - 1][s]) / d == (x + y * a[n - 1][s]) / d;
    }
  }

  lemma QuotientTimes(x: real, y: real, d: real, z: real, w: real)
    requires d != 0.0 && z == x * y && w == (x / d) * y
    ensures w == z / d
  {
    assert w * d == z;
  }

  lemma JointScaled(b: Row, d: real, tick: Tick)
    requires d != 0.0
    ensures Joint(Scaled(b, d), tick) == Scaled(Joint(b, tick), d)
  {
    forall s: State
      ensures Joint(Scaled(b, d), tick)[s] == Joint(b, tick)[s] / d
    {
      hide Predicted, Scaled;
      PredictedScaled(b, d, tick.a, s, N);
      QuotientTimes(Predicted(b, tick.a, s, N), tick.e[s], d, Joint(b, tick)[s], Joint(Scaled(b, d), tick)[s]);
    }
  }

  /** Normalising twice is normalising once. */
  lemma ScaledTwice(v: Row, d: real)
    requires d > 0.0 && Sum(v) / d > 0.0
    ensures Sum(v) > 0.0
    ensures Scaled(Scaled(v, d), Sum(v) / d) == Scaled(v, Sum(v))
  {
    var total := Sum(v);
    assert total == (total / d) * d;
    assert total > 0.0;
    forall s: State
      ensures Scaled(Scaled(v, d), total / d)[s] == v[s] / total
    {
      assert v[s] == v[s] / total * total;
      assert v[s] / d == (v[s] / total) * (total / d);
    }
  }

  lemma StepWithoutFallback(b: Row, tick: Tick)
    requires !FallsBack(b, tick)
    ensures Step(b, tick) == Scaled(Joint(b, tick), Sum(Joint(b, tick)))
    ensures Sum(Step(b, tick)) == 1.0
  {
    ScaledBySum(Joint(b, tick));
  }

  lemma StepWithFallback(b: Row, tick: Tick)
    requires FallsBack(b, tick)
    ensures Step(b, tick) == UNIFORM
  {
    UniformIsDistribution();
  }

  lemma NoTicks(s: State)
    ensures PathMass([], s) == UNIFORM[s]
    ensures MassRow([]) == UNIFORM && TotalMass([]) == 1.0
  {
    assert AllPaths(0) == [[]];
    forall r: State
      ensures PathMass([], r) == UNIFORM[r]
    {
      assert MassOver([[]][..0], [], r) == 0.0;
      assert [] + [r] == [r];
    }
    assert MassRow([]) == UNIFORM;
    UniformIsDistribution();
  }

  /** In every run, the belief is the exact posterior over the state paths since the
  last fallback: the mass of the paths ending in the state, over the mass of all. */
  lemma {:induction false} BeliefIsPosterior(ticks: seq<Tick>)
    ensures var recent := SinceFallback(ticks);
      TotalMass(recent) > 0.0 && Run(ticks) == Scaled(MassRow(recent), TotalMass(recent))
  {
    if ticks == [] {
      NoTicks(0);
      assert Scaled(UNIFORM, 1.0) == UNIFORM;
    } else {
      var before, tick := ticks[..|ticks| - 1], ticks[|ticks| - 1];
      BeliefIsPosterior(before);
      if FallsBack(Run(before), tick) {
        StepWithFallback(Run(before), tick);
        NoTicks(0);
        assert Scaled(UNIFORM, 1.0) == UNIFORM;
      } else {
        var recent := SinceFallback(before);
        var masses, total := MassRow(recent), TotalMass(recent);
        MassRecursion(recent, tick);
        JointScaled(masses, total, tick);
        SumScaled(Joint(masses, tick), total, N);
        StepWithoutFallback(Run(before), tick);
        ScaledTwice(Joint(masses, tick), total);
      }
    }
  }

  // -- Every belief is a distribution ----------------------------------------------

  predicate NonNegativeTick(tick: Tick) {
    NonNegative(tick.e) && forall i: State :: NonNegative(tick.a[i])
  }

  lemma {:induction false} PredictedNonNegative(b: Row, a: Matrix, s: State, n: nat)
    requires n <= N && NonNegative(b) && forall i: State :: NonNegative(a[i])
    ensures Predicted(b, a, s, n) >= 0.0
  {
    if n > 0 {
      PredictedNonNegative(b, a, s, n - 1);
      var p: State := n - 1;
      assert NonNegative(a[p]);
      assert b[p] * a[p][s] >= 0.0;
    }
  }

  lemma {:induction false} BeliefIsDistribution(ticks: seq<Tick>)
    requires forall k :: 0 <= k < |ticks| ==> NonNegativeTick(ticks[k])
    ensures Distribution(Run(ticks))
  {
    if ticks == [] {
      UniformIsDistribution();
    } else {
      var before, tick := ticks[..|ticks| - 1], ticks[|ticks| - 1];
      BeliefIsDistribution(before);
      var b := Run(before);
      if FallsBack(b, tick) {
        StepWithFallback(b, tick);
        UniformIsDistribution();
      } else {
        StepWithoutFallback(b, tick);
        forall s: State
          ensures Step(b, tick)[s] >= 0.0
        {
          PredictedNonNegative(b, tick.a, s, N);
          assert Joint(b, tick)[s] >= 0.0;
        }
      }
    }
  }

  // -- When the filter falls back --------------------------------------------------

  /** The mass leaving the first `n` states towards the first `m`. */
  function Outgoing(b: Row, a: Matrix, n: nat, m: nat): real
    requires n <= N && m <= N
  {
    if n == 0 then 0.0 else Outgoing(b, a, n - 1, m) + b[n - 1] * SumTo(a[n - 1], m)
  }

  lemma {:induction false} OutgoingColumn(b: Row, a: Matrix, n: nat, m: nat)
    requires n <= N && 0 < m <= N
    ensures Outgoing(b, a, n, m) == Outgoing(b, a, n, m - 1) + Predicted(b, a, m - 1, n)
  {
    if n > 0 {
      OutgoingColumn(b, a, n - 1, m);
      var x, y := SumTo(a[n - 1], m - 1), a[n - 1][m - 1];
      assert b[n - 1] * (x + y) == b[n - 1] * x + b[n - 1] * y;
    }
  }

  lemma {:induction false} OutgoingNothing(b: Row, a: Matrix, n: nat)
    requires n <= N
    ensures Outgoing(b, a, n, 0) == 0.0
  {
    if n > 0 {
      OutgoingNothing(b, a, n - 1);
    }
  }

  lemma {:induction false} PredictedSum(b: Row, a: Matrix, m: nat)
    requires m <= N
    ensures SumTo(PredictedRow(b, a), m) == Outgoing(b, a, N, m)
  {
    if m == 0 {
      OutgoingNothing(b, a, N);
    } else {
      PredictedSum(b, a, m - 1);
      OutgoingColumn(b, a, N, m);
    }
  }

  lemma {:induction false} PredictedLowerBounds(b: Row, a: Matrix, s: State, n: nat)
    requires n <= N && NonNegative(b) && forall i: State :: NearStochastic(a[i])
    ensures Predicted(b, a, s, n) >= DEFAULT_EPSILON * SumTo(b, n)
    ensures Outgoing(b, a, n, N) >= SumTo(b, n)
  {
    if n > 0 {
      PredictedLowerBounds(b, a, s, n - 1);
      var p: State := n - 1;
      assert NearStochastic(a[p]);
      var sent, flow := b[p] * a[p][s], b[p] * SumTo(a[p], N);
      ProductAtLeast(b[p], a[p][s], DEFAULT_EPSILON, sent);
      ProductAtLeast(b[p], SumTo(a[p], N), 1.0, flow);
      assert Predicted(b, a, s, n) == Predicted(b, a, s, n - 1) + sent;
      assert Outgoing(b, a, n, N) == Outgoing(b, a, n - 1, N) + flow;
      assert SumTo(b, n) == SumTo(b, n - 1) + b[p];
    }
  }

  lemma ProductAtLeast(x: real, y: real, lo: real, z: real)
    requires x >= 0.0 && y >= lo && z == x * y
    ensures z >= lo * x
  {
    AtLeastTimes(x, y, lo);
  }

  lemma AtLeastTimes(x: real, y: real, z: real)
    requires x >= 0.0 && y >= z
    ensures x * y >= x * z
  {}

  lemma ZeroFactor(x: real, y: real)
    requires x > 0.0 && x * y == 0.0
    ensures y == 0.0
  {}

  /** Rows that exceed 1 send out more than they hold. */
  lemma {:induction false} OutgoingExceeds(b: Row, a: Matrix, n: nat)
    requires n <= N && NonNegative(b) && forall i: State :: Sum(a[i]) > 1.0
    ensures SumTo(b, n) >= 0.0 && Outgoing(b, a, n, N) >= SumTo(b, n)
    ensures SumTo(b, n) > 0.0 ==> Outgoing(b, a, n, N) > SumTo(b, n)
  {
    if n > 0 {
      OutgoingExceeds(b, a, n - 1);
      var p: State := n - 1;
      assert Sum(a[p]) > 1.0;
      var flow := b[p] * SumTo(a[p], N);
      ExceedsTimes(b[p], SumTo(a[p], N), flow);
      assert Outgoing(b, a, n, N) == Outgoing(b, a, n - 1, N) + flow;
      assert SumTo(b, n) == SumTo(b, n - 1) + b[p];
    }
  }

  lemma ExceedsTimes(x: real, y: real, z: real)
    requires x >= 0.0 && y > 1.0 && z == x * y
    ensures z >= x && (x > 0.0 ==> z > x)
  {
    var more := x * (y - 1.0);
    PositiveTimes(x, y - 1.0, more);
    assert z == x + more;
  }

  lemma PositiveTimes(x: real, y: real, z: real)
    requires x >= 0.0 && y > 0.0 && z == x * y
    ensures z >= 0.0 && (x > 0.0 ==> z > 0.0)
  {}

  /** The joint mass splits into the floor's share and the excess over it. */
  lemma {:induction false} ExcessOverFloor(p: Row, e: Row, joint: Row, excess: Row, n: nat)
    requires n <= N
    requires forall s: State :: joint[s] == p[s] * e[s] && excess[s] == p[s] * (e[s] - TINY)
    ensures SumTo(joint, n) == TINY * SumTo(p, n) + SumTo(excess, n)
  {
    if n > 0 {
      ExcessOverFloor(p, e, joint, excess, n - 1);
      var s: State := n - 1;
      assert p[s] * e[s] == TINY * p[s] + p[s] * (e[s] - TINY);
      assert TINY * (SumTo(p, n - 1) + p[s]) == TINY * SumTo(p, n - 1) + TINY * p[s];
    }
  }

  /** With a near-stochastic table and floored emissions, the uniform fallback
  happens exactly when every emission sits on the floor and flooring the table
  added no mass. */
  lemma FallbackOnlyOnTheFloor(b: Row, tick: Tick)
    requires Distribution(b)
    requires forall i: State :: NearStochastic(tick.a[i])
    requires forall s: State :: tick.e[s] >= TINY
    ensures Sum(PredictedRow(b, tick.a)) >= 1.0
    ensures FallsBack(b, tick) <==>
      Sum(PredictedRow(b, tick.a)) == 1.0 && forall s: State :: tick.e[s] == TINY
  {
    hide Predicted, SumTo, Outgoing;
    var p, joint := PredictedRow(b, tick.a), Joint(b, tick);
    var excess: Row := seq(N, s requires 0 <= s < N => p[s] * (tick.e[s] - TINY));
    PredictedSum(b, tick.a, N);
    forall s: State
      ensures p[s] >= DEFAULT_EPSILON && Sum(p) >= 1.0
    {
      PredictedLowerBounds(b, tick.a, s, N);
    }
    assert p[0] >= DEFAULT_EPSILON;
    ExcessOverFloor(p, tick.e, joint, excess, N);
    forall s: State
      ensures excess[s] >= 0.0
    {
      AtLeastTimes(p[s], tick.e[s] - TINY, 0.0);
    }
    forall s: State
      ensures Sum(excess) >= excess[s] >= 0.0
    {
      SumAtLeastTerm(excess, N, s);
    }
    assert Sum(excess) >= excess[0] >= 0.0;
    if FallsBack(b, tick) {
      assert TINY * Sum(p) >= TINY;
      forall s: State
        ensures tick.e[s] == TINY
      {
        assert excess[s] == 0.0;
        ZeroFactor(p[s], tick.e[s] - TINY);
      }
    }
    if Sum(p) == 1.0 && forall s: State :: tick.e[s] == TINY {
      SumBounds(excess, N, 0.0, 0.0);
    }
  }

  /** Once flooring has lifted every row of the table above 1, no tick falls back, whatever
  the belief and the emissions. */
  lemma LiftedTableNeverFallsBack(b: Row, tick: Tick)
    requires Distribution(b)
    requires forall i: State :: NearStochastic(tick.a[i]) && Sum(tick.a[i]) > 1.0
    requires forall s: State :: tick.e[s] >= TINY
    ensures !FallsBack(b, tick)
  {
    PredictedSum(b, tick.a, N);
    OutgoingExceeds(b, tick.a, N);
    FallbackOnlyOnTheFloor(b, tick);
  }

  /** A table as it is built, before anything is learned. */
  predicate FreshTable(a: Matrix) {
    forall i: State :: a[i] == Floored(Normalized(DefaultRow(i, DEFAULT_EPSILON)))
  }

  /** So before its transitions are learned the filter never falls back, and the belief is
  the posterior of the whole history. */
  lemma {:induction false} UnlearnedNeverFallsBack(ticks: seq<Tick>)
    requires forall k :: 0 <= k < |ticks| ==> FreshTable(ticks[k].a) && forall s: State :: ticks[k].e[s] >= TINY
    ensures SinceFallback(ticks) == ticks && Distribution(Run(ticks))
    ensures TotalMass(ticks) > 0.0 && Run(ticks) == Scaled(MassRow(ticks), TotalMass(ticks))
  {
    hide FallsBack, Step, Normalized, Floored, DefaultRow, MassRow, Scaled, TotalMass;
    if ticks == [] {
      UniformIsDistribution();
    } else {
      var before, tick := ticks[..|ticks| - 1], ticks[|ticks| - 1];
      UnlearnedNeverFallsBack(before);
      FreshTableIsLifted(tick.a);
      LiftedTableNeverFallsBack(Run(before), tick);
      OneMoreDistribution(ticks);
      assert before + [tick] == ticks;
    }
    BeliefIsPosterior(ticks);
  }

  lemma FreshTableIsLifted(a: Matrix)
    requires FreshTable(a)
    ensures forall i: State :: NearStochastic(a[i]) && Sum(a[i]) > 1.0
  {
    hide Normalized, Floored, DefaultRow, Sum, NearStochastic;
    forall i: State
      ensures NearStochastic(a[i]) && Sum(a[i]) > 1.0
    {
      var v := DefaultRow(i, DEFAULT_EPSILON);
      DefaultRowIsPositive(i, DEFAULT_EPSILON);
      PositiveRow(v);
      FlooredNormalized(v);
      FreshRowSumIsOneIff(i, DEFAULT_EPSILON);
    }
  }

  lemma OneMoreDistribution(ticks: seq<Tick>)
    requires forall k :: 0 <= k < |ticks| ==> FreshTable(ticks[k].a) && forall s: State :: ticks[k].e[s] >= TINY
    ensures Distribution(Run(ticks))
  {
    hide FreshTable, Run, Sum, Distribution;
    forall k | 0 <= k < |ticks|
      ensures NonNegativeTick(ticks[k])
    {
      FreshTableIsLifted(ticks[k].a);
      assert forall i: State :: NearStochastic(ticks[k].a[i]);
    }
    BeliefIsDistribution(ticks);
  }

  /** With rows of at least 1 the outgoing mass is exact if and only if every state that
  carries belief has a row of exactly 1. */
  lemma {:induction false} OutgoingIsExactIff(b: Row, a: Matrix, n: nat)
    requires n <= N && NonNegative(b) && forall i: State :: Sum(a[i]) >= 1.0
    ensures Outgoing(b, a, n, N) >= SumTo(b, n)
    ensures Outgoing(b, a, n, N) == SumTo(b, n) <==> forall i: State :: i < n ==> b[i] == 0.0 || Sum(a[i]) == 1.0
  {
    if n > 0 {
      OutgoingIsExactIff(b, a, n - 1);
      var p: State := n - 1;
      assert Sum(a[p]) >= 1.0;
      var flow := b[p] * SumTo(a[p], N);
      ExactTimesIff(b[p], SumTo(a[p], N), flow);
      assert Outgoing(b, a, n, N) == Outgoing(b, a, n - 1, N) + flow;
      assert SumTo(b, n) == SumTo(b, n - 1) + b[p];
      assert Sum(a[p]) == SumTo(a[p], N);
    }
  }

  lemma ExactTimesIff(x: real, y: real, z: real)
    requires x >= 0.0 && y >= 1.0 && z == x * y
    ensures z >= x && (z == x <==> x == 0.0 || y == 1.0)
  {
    if x == 0.0 {
      assert z == 0.0;
    } else if y == 1.0 {
      assert z == x;
    } else {
      ExceedsTimes(x, y, z);
    }
  }

  /** A tick falls back if and only if every emission is at the floor and every state that
  carries belief has a row that sums to exactly 1. */
  lemma FallbackIff(b: Row, tick: Tick)
    requires Distribution(b)
    requires forall i: State :: NearStochastic(tick.a[i])
    requires forall s: State :: tick.e[s] >= TINY
    ensures FallsBack(b, tick) <==>
      (forall i: State :: b[i] == 0.0 || Sum(tick.a[i]) == 1.0) && forall s: State :: tick.e[s] == TINY
  {
    hide FallsBack, Outgoing;
    forall i: State
      ensures Sum(tick.a[i]) >= 1.0
    {
      assert NearStochastic(tick.a[i]);
    }
    FallbackOnlyOnTheFloor(b, tick);
    PredictedSum(b, tick.a, N);
    OutgoingIsExactIff(b, tick.a, N);
  }
}
