/** The engine that ties table, emissions and belief together. */
module HmmEngine {
  import opened Options
  import opened HiddenStates
  import opened Transitions
  import opened ForwardFilter
  import opened Emissions
  import opened ViterbiDecoder

  const MIN_OBS_FOR_LEARNING: nat := 5

  class HmmEngine {
    const transition: TransitionMatrix
    const emission: EmissionModel
    var belief: Option<Row>
    var learningEnabled: bool
    var tickCount: nat

    // The ticks since the belief last started from uniform.
    ghost var ticks: seq<Tick>

    ghost predicate Valid()
      reads this, transition, emission
    {
      && transition.Valid() && emission.Valid()
      && (forall k :: 0 <= k < |ticks| ==> FilterTick(ticks[k]))
      && (belief.Some? ==> belief.value == Run(ticks))
      && (belief.None? ==> ticks == [])
    }

    /** What every tick of the engine looks like: a near-stochastic table and
    emissions on or above the floor. */
    static ghost predicate FilterTick(tick: Tick) {
      && (forall s: State :: NearStochastic(tick.a[s]))
      && (forall s: State :: tick.e[s] >= TINY)
    }

    ghost function CurrentTick(o: Observation): Tick
      requires Valid()
      reads this, transition, emission
    {
      Tick(transition.probs, emission.EmissionRow(o))
    }

    constructor (transition: TransitionMatrix, emission: EmissionModel)
      requires transition.Valid() && emission.Valid()
      ensures Valid() && belief == None && ticks == [] && tickCount == 0 && learningEnabled
      ensures this.transition == transition && this.emission == emission
    {
      this.transition := transition;
      this.emission := emission;
      this.belief := None;
      this.learningEnabled := true;
      this.tickCount := 0;
      this.ticks := [];
    }

    method Initialize() returns (b: Row)
      requires Valid()
      modifies this`belief, this`ticks
      ensures Valid() && belief == Some(b) && b == UNIFORM && ticks == []
    {
      belief := Some(UNIFORM);
      ticks := [];
      b := UNIFORM;
    }

    method Reset()
      requires Valid()
      modifies this`belief, this`ticks, this`tickCount
      ensures Valid() && belief == None && tickCount == 0
    {
      belief := None;
      tickCount := 0;
      ticks := [];
    }

    /** The parameters of a state after a tick that left it with belief `mass`. */
    ghost function LearnedTick(q: Params, o: Observation, mass: real): Params
      requires Clamped(q)
      reads this
    {
      if learningEnabled && tickCount >= MIN_OBS_FOR_LEARNING then SoftlyLearned(q, o, mass, 0.01, 0.08) else q
    }

    /** One tick of the filter, then learning once enough ticks have passed. */
    method Update(o: Observation) returns (b: Row)
      requires Valid()
      modifies this`belief, this`ticks, this`tickCount, emission
      ensures Valid()
      ensures ticks == old(ticks) + [old(CurrentTick(o))]
      ensures belief == Some(b) && b == Run(ticks) && Distribution(b)
      ensures tickCount == old(tickCount) + 1
      ensures forall s: State :: emission.params[s] == LearnedTick(old(emission.params)[s], o, b[s])
      ensures !learningEnabled || old(tickCount) < 4 ==> emission.params == old(emission.params)
    {
      b := Filter(o);
      if learningEnabled && tickCount >= MIN_OBS_FOR_LEARNING {
        emission.UpdateFromSoftAssignment(o, b, 0.01, 0.08);
      }
    }

    /** The estimation half of a tick. */
    method Filter(o: Observation) returns (b: Row)
      requires Valid()
      modifies this`belief, this`ticks, this`tickCount
      ensures Valid()
      ensures ticks == old(ticks) + [old(CurrentTick(o))]
      ensures belief == Some(b) && b == Run(ticks) && Distribution(b)
      ensures tickCount == old(tickCount) + 1
    {
      ghost var tick := CurrentTick(o);
      b := ForwardPass(if belief.Some? then belief.value else UNIFORM, o);
      RunOneMore(ticks, tick);
      ticks := ticks + [tick];
      belief := Some(b);
      RunsAreDistributions(ticks);
      tickCount := tickCount + 1;
    }

    static lemma RunOneMore(ticks: seq<Tick>, tick: Tick)
      ensures Run(ticks + [tick]) == Step(Run(ticks), tick)
    {
      assert (ticks + [tick])[..|ticks|] == ticks;
    }

    static lemma RunsAreDistributions(ticks: seq<Tick>)
      requires forall k :: 0 <= k < |ticks| ==> FilterTick(ticks[k])
      ensures Distribution(Run(ticks))
    {
      forall k | 0 <= k < |ticks|
        ensures NonNegativeTick(ticks[k])
      {
        assert FilterTick(ticks[k]);
        assert forall s: State :: NearStochastic(ticks[k].a[s]);
      }
      BeliefIsDistribution(ticks);
    }

    method ForwardPass(previous: Row, o: Observation) returns (newProbs: Row)
      requires Valid()
      ensures newProbs == Step(previous, CurrentTick(o))
    {
      var probs, total := JointPass(previous, o);
      if total > TINY {
        probs := Divide(probs, total);
      } else {
        for s := 0 to N
          invariant forall r: State :: r < s ==> probs[r] == 0.1
        {
          probs := probs[s := 1.0 / N as real];
        }
        assert probs == UNIFORM;
      }
      newProbs := PostInit(probs);
    }

    method JointPass(previous: Row, o: Observation) returns (probs: Row, total: real)
      requires Valid()
      ensures probs == Joint(previous, CurrentTick(o)) && total == Sum(probs)
    {
      ghost var tick := CurrentTick(o);
      probs := ZEROS;
      total := 0.0;
      for s := 0 to N
        invariant forall r: State :: r < s ==> probs[r] == Joint(previous, tick)[r]
        invariant total == SumTo(Joint(previous, tick), s)
      {
        var joint := JointEntry(previous, o, s);
        probs := probs[s := joint];
        total := total + joint;
      }
      assert probs == Joint(previous, tick);
    }

    method JointEntry(previous: Row, o: Observation, s: State) returns (joint: real)
      requires Valid()
      ensures joint == Joint(previous, CurrentTick(o))[s]
    {
      var pred := Predict(previous, s);
      var emissionProb := emission.EmissionProb(o, s);
      joint := pred * emissionProb;
    }

    method Predict(previous: Row, s: State) returns (pred: real)
      ensures pred == Predicted(previous, transition.probs, s, N)
    {
      pred := 0.0;
      for r := 0 to N
        invariant pred == Predicted(previous, transition.probs, s, r)
      {
        pred := pred + previous[r] * transition.probs[r][s];
      }
    }

    static method Divide(v: Row, d: real) returns (w: Row)
      requires d != 0.0
      ensures w == Scaled(v, d)
    {
      w := v;
      for s := 0 to N
        invariant forall r: State :: w[r] == if r < s then v[r] / d else v[r]
      {
        w := w[s := w[s] / d];
      }
    }

    /** The belief's constructor: renormalises only when the sum is off by more than
    0.001. */
    static method PostInit(probabilities: Row) returns (v: Row)
      ensures v == Renormalized(probabilities)
    {
      v := probabilities;
      var total := 0.0;
      for s := 0 to N
        invariant total == SumTo(probabilities, s)
      {
        total := total + probabilities[s];
      }
      if total > 0.0 && (total - 1.0 > 0.001 || 1.0 - total > 0.001) {
        v := Divide(v, total);
      }
    }

    /** In every reachable state of the engine the belief is the posterior over all
    state paths since the last fallback, although the table and the emissions were
    learned in between; and a tick fell back only if all its emissions sat on the
    floor. */
    lemma BeliefIsThePosterior(s: State)
      requires Valid() && belief.Some?
      ensures var recent := SinceFallback(ticks);
        TotalMass(recent) > 0.0 && belief.value[s] == PathMass(recent, s) / TotalMass(recent)
      ensures forall k :: 0 <= k < |ticks| && FallsBack(Run(ticks[..k]), ticks[k]) ==>
        forall r: State :: ticks[k].e[r] == TINY
    {
      BeliefIsPosterior(ticks);
      forall k | 0 <= k < |ticks| && FallsBack(Run(ticks[..k]), ticks[k])
        ensures forall r: State :: ticks[k].e[r] == TINY
      {
        RunsAreDistributions(ticks[..k]);
        FallbackOnlyOnTheFloor(Run(ticks[..k]), ticks[k]);
      }
    }

    /** Before any transition is learned no tick has fallen back, so the belief is the
    posterior over all state paths of the whole history. */
    lemma UnlearnedBeliefIsThePosteriorOfAll()
      requires Valid() && forall k :: 0 <= k < |ticks| ==> FreshTable(ticks[k].a)
      ensures SinceFallback(ticks) == ticks
      ensures belief.Some? ==> TotalMass(ticks) > 0.0 && belief.value == Scaled(MassRow(ticks), TotalMass(ticks))
    {
      assert forall k :: 0 <= k < |ticks| ==> FilterTick(ticks[k]);
      UnlearnedNeverFallsBack(ticks);
    }

    method LearnTransitions(path: seq<State>)
      requires Valid()
      modifies transition`probs
      ensures Valid() && belief == old(belief) && ticks == old(ticks)
      ensures forall i: State :: transition.probs[i] == LearnedRow(old(transition.probs)[i], path, i)
    {
      transition.LearnTransitions(path);
    }

    ghost function EmissionRows(observations: seq<Observation>): (e: seq<Row>)
      requires Valid()
      reads this, transition, emission
      ensures |e| == |observations|
      ensures forall t :: 0 <= t < |e| ==> e[t] == emission.EmissionRow(observations[t])
    {
      if observations == [] then []
      else [emission.EmissionRow(observations[0])] + EmissionRows(observations[1..])
    }

    /** The decoder on the current table and emissions. */
    method Viterbi(observations: seq<Observation>) returns (path: seq<State>)
      requires Valid() && Logarithm(emission.num.log)
      ensures |path| == |observations|
      ensures observations != [] ==> forall p: seq<State> :: |p| == |observations| ==>
        Likelihood(transition.probs, EmissionRows(observations), p)
        <= Likelihood(transition.probs, EmissionRows(observations), path)
      ensures forall p: seq<State>, k: nat ::
        && |p| == |observations| && k < |p| && p[k + 1..] == path[k + 1..]
        && Likelihood(transition.probs, EmissionRows(observations), p)
           == Likelihood(transition.probs, EmissionRows(observations), path) ==>
        path[k] <= p[k]
    {
      hide Likelihood, Logarithm, EmissionRows;
      var e: seq<Row> := [];
      for t := 0 to |observations|
        invariant |e| == t
        invariant forall u :: 0 <= u < t ==> e[u] == emission.EmissionRow(observations[u])
      {
        var row := EmissionsOf(observations[t]);
        e := e + [row];
      }
      assert e == EmissionRows(observations);
      path := MostLikelyPath(emission.num.log, transition.probs, e);
    }

    method EmissionsOf(o: Observation) returns (row: Row)
      requires Valid()
      ensures row == emission.EmissionRow(o)
    {
      row := ZEROS;
      for s := 0 to N
        invariant forall r: State :: r < s ==> row[r] == emission.EmissionRow(o)[r]
      {
        var prob := emission.EmissionProb(o, s);
        row := row[s := prob];
      }
    }
  }
}
