/** The most likely state path for a list of observations. */
module ViterbiDecoder {
  import opened HiddenStates
  import opened ForwardFilter

  // -- Log scores ----------------------------------------------------------------

  /** What the decoder adds up: the logarithm of the prior, of each transition, and
  of each emission at each time. */
  datatype Scores = Scores(prior: real, trans: Matrix, emit: seq<Row>)

  /** The gain of continuing along `p`, whose first state stands at time `t`. */
  function Gain(m: Scores, t: nat, p: seq<State>): real
    requires p != [] && t + |p| <= |m.emit|
    decreases |p|
  {
    if |p| == 1 then 0.0 else m.trans[p[0]][p[1]] + m.emit[t + 1][p[1]] + Gain(m, t + 1, p[1..])
  }

  /** The log score of one complete state path. */
  function PathScore(m: Scores, p: seq<State>): real
    requires p != [] && |p| == |m.emit|
  {
    m.prior + m.emit[0][p[0]] + Gain(m, 0, p)
  }

  // -- The table -----------------------------------------------------------------

  /** The score of reaching `j` at time `t` through `i`. */
  function Via(m: Scores, t: nat, i: State, j: State): real
    requires 0 < t < |m.emit|
    decreases t, 0
  {
    Best(m, t - 1, i) + m.trans[i][j]
  }

  /** The first of the `n` leading states with the best score into `j`. */
  function BestPrevious(m: Scores, t: nat, j: State, n: nat): (best: State)
    requires 0 < t < |m.emit| && 0 < n <= N
    decreases t, n
  {
    if n == 1 then 0
    else
      var best := BestPrevious(m, t, j, n - 1);
      if Via(m, t, n - 1, j) > Via(m, t, best, j) then n - 1 else best
  }

  /** The entry of the table for state `j` at time `t`. */
  function Best(m: Scores, t: nat, j: State): real
    requires t < |m.emit|
    decreases t, N + 1
  {
    if t == 0 then m.prior + m.emit[0][j]
    else Via(m, t, BestPrevious(m, t, j, N), j) + m.emit[t][j]
  }

  lemma {:induction false} BestPreviousIsFirst(m: Scores, t: nat, j: State, n: nat, i: State)
    requires 0 < t < |m.emit| && 0 < n <= N && i < BestPrevious(m, t, j, n)
    ensures Via(m, t, i, j) < Via(m, t, BestPrevious(m, t, j, n), j)
  {
    if n > 1 {
      var best := BestPrevious(m, t, j, n - 1);
      if i < best {
        BestPreviousIsFirst(m, t, j, n - 1, i);
      } else if i < n - 1 {
        BestPreviousIsBest(m, t, j, n - 1, i);
      }
    }
  }

  lemma {:induction false} BestPreviousIsBest(m: Scores, t: nat, j: State, n: nat, i: State)
    requires 0 < t < |m.emit| && i < n <= N
    ensures BestPrevious(m, t, j, n) < n
    ensures Via(m, t, i, j) <= Via(m, t, BestPrevious(m, t, j, n), j)
  {
    if n > 1 {
      BestPreviousIsBest(m, t, j, n - 1, if i < n - 1 then i else 0);
    }
  }

  /** No way of continuing from a table entry beats the last row of the table. */
  lemma {:induction false} NoPathBeatsTheTable(m: Scores, t: nat, p: seq<State>)
    requires p != [] && t + |p| == |m.emit|
    ensures Best(m, t, p[0]) + Gain(m, t, p) <= Best(m, |m.emit| - 1, p[|p| - 1])
    decreases |p|
  {
    if |p| > 1 {
      BestPreviousIsBest(m, t + 1, p[1], N, p[0]);
      NoPathBeatsTheTable(m, t + 1, p[1..]);
    }
  }

  /** Nor does any path beat the table entry at a state it passes through. */
  lemma {:induction false} NoStartBeatsTheTable(m: Scores, p: seq<State>, k: nat)
    requires |p| == |m.emit| && k < |p|
    ensures PathScore(m, p) <= Best(m, k, p[k]) + Gain(m, k, p[k..])
  {
    if k > 0 {
      NoStartBeatsTheTable(m, p, k - 1);
      BestPreviousIsBest(m, k, p[k], N, p[k - 1]);
      assert p[k - 1..][1..] == p[k..];
    } else {
      assert p[0..] == p;
    }
  }

  /** The states that the decoder steps back through, from a final one. */
  predicate Traced(m: Scores, path: seq<State>, t: nat) {
    && path != [] && t + |path| == |m.emit|
    && forall u :: 0 <= u < |path| - 1 ==> path[u] == BestPrevious(m, t + u + 1, path[u + 1], N)
  }

  /** The final state is the first with the best score. */
  predicate EndsFirst(m: Scores, end: nat, last: State)
    requires end < |m.emit|
  {
    forall j: State :: Best(m, end, j) <= Best(m, end, last) && (j < last ==> Best(m, end, j) < Best(m, end, last))
  }

  /** Where an equally good path last differs from the traced one, its state comes later. */
  lemma TracedIsFirst(m: Scores, path: seq<State>, p: seq<State>, k: nat)
    requires Traced(m, path, 0) && EndsFirst(m, |m.emit| - 1, path[|path| - 1])
    requires |p| == |path| && k < |p| && p[k + 1..] == path[k + 1..]
    requires PathScore(m, p) == Best(m, |m.emit| - 1, path[|path| - 1])
    ensures path[k] <= p[k]
  {
    NoStartBeatsTheTable(m, p, k);
    NoPathBeatsTheTable(m, k, p[k..]);
    if k == |p| - 1 {
      assert Best(m, k, p[k]) <= Best(m, k, path[k]);
    } else {
      assert path[k + 1] == path[k + 1..][0] && p[k + 1] == p[k + 1..][0];
      NoPathBeatsTheTable(m, k + 1, p[k + 1..]);
      assert p[k..][1..] == p[k + 1..];
      assert path[k] == BestPrevious(m, 0 + k + 1, path[k + 1], N);
      if p[k] < path[k] {
        BestPreviousIsFirst(m, k + 1, p[k + 1], N, p[k]);
      }
    }
  }

  /** Fills the table, then follows the back pointers from the best final state. Among equally
  good paths it takes the one with the first state, in the order of the states, where they last
  differ. */
  method Decode(m: Scores) returns (path: seq<State>)
    ensures |path| == |m.emit|
    ensures m.emit != [] ==> forall p: seq<State> :: |p| == |m.emit| ==> PathScore(m, p) <= PathScore(m, path)
    ensures forall p: seq<State>, k: nat ::
      |p| == |m.emit| && k < |p| && p[k + 1..] == path[k + 1..] && PathScore(m, p) == PathScore(m, path) ==>
      path[k] <= p[k]
  {
    if m.emit == [] {
      return [];
    }
    var dp, backpointer := FillTable(m);
    var last := FirstBest(m, dp);
    path := TraceBack(m, backpointer, last);
    forall p: seq<State> | |p| == |m.emit|
      ensures PathScore(m, p) <= PathScore(m, path)
    {
      NoPathBeatsTheTable(m, 0, p);
    }
    forall p: seq<State>, k: nat |
      |p| == |m.emit| && k < |p| && p[k + 1..] == path[k + 1..] && PathScore(m, p) == PathScore(m, path)
      ensures path[k] <= p[k]
    {
      TracedIsFirst(m, path, p, k);
    }
  }

  /** The first final state with the best score. */
  method FirstBest(m: Scores, dp: array2<real>) returns (last: State)
    requires m.emit != [] && dp.Length0 == |m.emit| && dp.Length1 == N
    requires forall t: nat, j: State :: t < |m.emit| ==> dp[t, j] == Best(m, t, j)
    ensures EndsFirst(m, |m.emit| - 1, last)
  {
    last := 0;
    var end := |m.emit| - 1;
    for j := 1 to N
      invariant last < j
      invariant forall i: State :: i < j ==>
        Best(m, end, i) <= Best(m, end, last) && (i < last ==> Best(m, end, i) < Best(m, end, last))
    {
      if dp[end, j] > dp[end, last] {
        last := j;
      }
    }
  }

  /** Follows the back pointers from a final state. */
  method TraceBack(m: Scores, backpointer: array2<int>, final: State) returns (path: seq<State>)
    requires m.emit != [] && backpointer.Length0 == |m.emit| && backpointer.Length1 == N
    requires forall t: nat, j: State :: 0 < t < |m.emit| ==> backpointer[t, j] == BestPrevious(m, t, j, N)
    ensures Traced(m, path, 0) && path[|path| - 1] == final
    ensures Best(m, 0, path[0]) + Gain(m, 0, path) == Best(m, |m.emit| - 1, final)
  {
    hide Traced, BestPrevious;
    var last: State := final;
    path := [last];
    TracedEnd(m, last);
    for t := |m.emit| - 1 downto 0
      invariant |path| == |m.emit| - t && path[0] == last && path[|path| - 1] == final && Traced(m, path, t)
      invariant Best(m, t, last) + Gain(m, t, path) == Best(m, |m.emit| - 1, final)
    {
      var current: State := last;
      assert backpointer[t + 1, current] == BestPrevious(m, t + 1, current, N);
      last := backpointer[t + 1, current];
      assert ([last] + path)[1..] == path;
      assert Best(m, t + 1, current) == Best(m, t, last) + m.trans[last][current] + m.emit[t + 1][current];
      TracedOneMore(m, path, t, last);
      path := [last] + path;
    }
  }

  lemma TracedEnd(m: Scores, last: State)
    requires m.emit != []
    ensures Traced(m, [last], |m.emit| - 1)
  {}

  lemma TracedOneMore(m: Scores, path: seq<State>, t: nat, i: State)
    requires Traced(m, path, t + 1) && i == BestPrevious(m, t + 1, path[0], N)
    ensures Traced(m, [i] + path, t)
  {
    var longer := [i] + path;
    assert forall u :: 0 < u < |longer| - 1 ==> longer[u] == path[u - 1] && longer[u + 1] == path[u];
  }

  method FillTable(m: Scores) returns (dp: array2<real>, backpointer: array2<int>)
    requires m.emit != []
    ensures dp.Length0 == backpointer.Length0 == |m.emit| && dp.Length1 == backpointer.Length1 == N
    ensures forall t: nat, j: State :: t < |m.emit| ==> dp[t, j] == Best(m, t, j)
    ensures forall t: nat, j: State :: 0 < t < |m.emit| ==> backpointer[t, j] == BestPrevious(m, t, j, N)
  {
    hide Best, BestPrevious, Via;
    var T := |m.emit|;
    dp := new real[T, N];
    backpointer := new int[T, N]((t, j) => -1);
    for j := 0 to N
      invariant forall i: State :: i < j ==> dp[0, i] == Best(m, 0, i)
    {
      FirstRow(m, j);
      dp[0, j] := m.prior + m.emit[0][j];
    }
    for t := 1 to T
      invariant forall u: nat, i: State :: u < t ==> dp[u, i] == Best(m, u, i)
      invariant forall u: nat, i: State :: 0 < u < t ==> backpointer[u, i] == BestPrevious(m, u, i, N)
    {
      for j := 0 to N
        invariant forall u: nat, i: State :: u < t || (u == t && i < j) ==> dp[u, i] == Best(m, u, i)
        invariant forall u: nat, i: State ::
          0 < u < t || (u == t && i < j) ==> backpointer[u, i] == BestPrevious(m, u, i, N)
      {
        var bestScore, bestPrev := BestInto(m, dp, t, j);
        dp[t, j] := bestScore + m.emit[t][j];
        backpointer[t, j] := bestPrev;
      }
    }
  }

  /** The best way into a state, over all states before it. */
  method BestInto(m: Scores, dp: array2<real>, t: nat, j: State) returns (bestScore: real, bestPrev: int)
    requires 0 < t < |m.emit| == dp.Length0 && dp.Length1 == N
    requires forall u: nat, i: State :: u < t ==> dp[u, i] == Best(m, u, i)
    ensures bestPrev == BestPrevious(m, t, j, N) && bestScore == Via(m, t, bestPrev, j)
    ensures Best(m, t, j) == bestScore + m.emit[t][j]
  {
    // A negative index stands for the best score still being minus infinity.
    bestScore, bestPrev := 0.0, -1;
    for i := 0 to N
      invariant i == 0 ==> bestPrev == -1
      invariant i > 0 ==> bestPrev == BestPrevious(m, t, j, i) && bestScore == Via(m, t, bestPrev, j)
    {
      var score := dp[t - 1, i] + m.trans[i][j];
      assert score == Via(m, t, i, j);
      if bestPrev == -1 || score > bestScore {
        bestScore, bestPrev := score, i;
      }
    }
  }

  lemma FirstRow(m: Scores, j: State)
    requires m.emit != []
    ensures Best(m, 0, j) == m.prior + m.emit[0][j]
  {}

  // -- Probabilities ---------------------------------------------------------------

  /** All that the decoder needs of the logarithm: on positive numbers it turns
  products into sums and keeps the order. */
  ghost predicate Logarithm(log: real -> real) {
    && (forall x: real, y: real :: x > 0.0 && y > 0.0 ==> log(Times(x, y)) == log(x) + log(y))
    && (forall x: real, y: real :: 0.0 < x < y ==> log(x) < log(y))
  }

  function Floored(x: real): (y: real)
    ensures y >= x && y >= TINY
    ensures x >= TINY ==> y == x
  {
    if x < TINY then TINY else x
  }

  /** The scores the decoder computes from probabilities; every argument of the
  logarithm is kept at or above 1e-30. */
  function LogScores(log: real -> real, a: Matrix, e: seq<Row>): Scores {
    Scores(log(0.1), LogMatrix(log, a), seq(|e|, t requires 0 <= t < |e| => LogRow(log, e[t])))
  }

  function LogRow(log: real -> real, v: Row): Row {
    seq(N, j requires 0 <= j < N => log(Floored(v[j])))
  }

  function LogMatrix(log: real -> real, a: Matrix): Matrix {
    seq(N, i requires 0 <= i < N => LogRow(log, a[i]))
  }

  /** The probability of a path and its observations, given where it stands at `t`. */
  function Continuation(a: Matrix, e: seq<Row>, t: nat, p: seq<State>): real
    requires p != [] && t + |p| <= |e|
    decreases |p|
  {
    if |p| == 1 then 1.0
    else Times(Times(Floored(a[p[0]][p[1]]), Floored(e[t + 1][p[1]])), Continuation(a, e, t + 1, p[1..]))
  }

  /** The joint probability of a whole path and the observations. */
  function Likelihood(a: Matrix, e: seq<Row>, p: seq<State>): real
    requires p != [] && |p| == |e|
  {
    Times(Times(0.1, Floored(e[0][p[0]])), Continuation(a, e, 0, p))
  }

  lemma LogOfProduct(log: real -> real, x: real, y: real)
    requires Logarithm(log) && x > 0.0 && y > 0.0
    ensures Times(x, y) > 0.0 && log(Times(x, y)) == log(x) + log(y)
  {
    assert x * y > 0.0;
  }

  lemma LogOfOne(log: real -> real)
    requires Logarithm(log)
    ensures log(1.0) == 0.0
  {
    LogOfProduct(log, 1.0, 1.0);
  }

  lemma LogScoresAt(log: real -> real, a: Matrix, e: seq<Row>, t: nat, i: State, j: State)
    requires t < |e|
    ensures var m := LogScores(log, a, e);
      && |m.emit| == |e| && m.prior == log(0.1)
      && m.trans[i][j] == log(Floored(a[i][j])) && m.emit[t][j] == log(Floored(e[t][j]))
  {}

  lemma {:induction false} GainIsLogOfContinuation(log: real -> real, a: Matrix, e: seq<Row>, t: nat, p: seq<State>)
    requires Logarithm(log)
    requires p != [] && t + |p| <= |e|
    ensures Continuation(a, e, t, p) > 0.0
    ensures Gain(LogScores(log, a, e), t, p) == log(Continuation(a, e, t, p))
    decreases |p|
  {
    hide Logarithm, Times, Floored, LogScores;
    if |p| == 1 {
      LogOfOne(log);
    } else {
      LogScoresAt(log, a, e, t + 1, p[0], p[1]);
      var x, y := Floored(a[p[0]][p[1]]), Floored(e[t + 1][p[1]]);
      GainIsLogOfContinuation(log, a, e, t + 1, p[1..]);
      LogOfProduct(log, x, y);
      LogOfProduct(log, Times(x, y), Continuation(a, e, t + 1, p[1..]));
    }
  }

  lemma {:induction false} ScoreIsLogOfLikelihood(log: real -> real, a: Matrix, e: seq<Row>, p: seq<State>)
    requires Logarithm(log)
    requires p != [] && |p| == |e|
    ensures Likelihood(a, e, p) > 0.0
    ensures PathScore(LogScores(log, a, e), p) == log(Likelihood(a, e, p))
  {
    hide Logarithm, Times, Floored, LogScores, Gain, Continuation;
    LogScoresAt(log, a, e, 0, 0, p[0]);
    GainIsLogOfContinuation(log, a, e, 0, p);
    LogOfProduct(log, 0.1, Floored(e[0][p[0]]));
    LogOfProduct(log, Times(0.1, Floored(e[0][p[0]])), Continuation(a, e, 0, p));
  }

  /** A path with the best score is a path of greatest probability, whatever the
  logarithm's base. */
  lemma {:induction false} BestScoreIsMostLikely(
    log: real -> real, a: Matrix, e: seq<Row>, best: seq<State>, p: seq<State>
  )
    requires Logarithm(log)
    requires e != [] && |best| == |p| == |e|
    ensures PathScore(LogScores(log, a, e), p) <= PathScore(LogScores(log, a, e), best)
      <==> Likelihood(a, e, p) <= Likelihood(a, e, best)
  {
    ScoreIsLogOfLikelihood(log, a, e, p);
    ScoreIsLogOfLikelihood(log, a, e, best);
  }

  /** The decoder on probabilities: its path is a most probable one of all N^T. */
  method MostLikelyPath(log: real -> real, a: Matrix, e: seq<Row>) returns (path: seq<State>)
    requires Logarithm(log)
    ensures |path| == |e|
    ensures e != [] ==> forall p: seq<State> :: |p| == |e| ==> Likelihood(a, e, p) <= Likelihood(a, e, path)
    ensures forall p: seq<State>, k: nat ::
      |p| == |e| && k < |p| && p[k + 1..] == path[k + 1..] && Likelihood(a, e, p) == Likelihood(a, e, path) ==>
      path[k] <= p[k]
  {
    hide Likelihood, PathScore, Logarithm;
    path := Decode(LogScores(log, a, e));
    forall p: seq<State> | e != [] && |p| == |e|
      ensures Likelihood(a, e, p) <= Likelihood(a, e, path)
    {
      BestScoreIsMostLikely(log, a, e, path, p);
    }
    forall p: seq<State>, k: nat |
      |p| == |e| && k < |p| && p[k + 1..] == path[k + 1..] && Likelihood(a, e, p) == Likelihood(a, e, path)
      ensures path[k] <= p[k]
    {
      BestScoreIsMostLikely(log, a, e, path, p);
      BestScoreIsMostLikely(log, a, e, p, path);
    }
  }
}
