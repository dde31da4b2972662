/** Transition probabilities between hidden states, and the reachability test
over them.

The table keeps the probabilities themselves: over exact reals the stored
logarithm and the `exp` that reads it back cancel. */
module Transitions {
  import opened HiddenStates

  const DEFAULT_EPSILON: real := 0.000000001

  // -- Rows ------------------------------------------------------------------

  /** What normalising makes of a row: it divides by the sum if that is positive. */
  function Normalized(v: Row): Row {
    if Sum(v) > 0.0 then Scaled(v, Sum(v)) else v
  }

  function Floor(x: real): real {
    if x < DEFAULT_EPSILON then DEFAULT_EPSILON else x
  }

  function Floored(v: Row): Row {
    seq(N, i requires 0 <= i < N => Floor(v[i]))
  }

  /** Each entry is at least the floor, and the row sums to 1 up to the mass that
  flooring can add. */
  predicate NearStochastic(v: Row) {
    && (forall i :: 0 <= i < N ==> v[i] >= DEFAULT_EPSILON)
    && 1.0 <= Sum(v) <= 1.0 + 10.0 * DEFAULT_EPSILON
  }

  lemma NormalizedIsDistribution(v: Row)
    requires NonNegative(v) && Sum(v) > 0.0
    ensures Distribution(Normalized(v))
  {
    ScaledBySum(v);
  }

  lemma {:induction false} FlooringAdds(v: Row, n: nat)
    requires NonNegative(v) && n <= N
    ensures SumTo(v, n) <= SumTo(Floored(v), n) <= SumTo(v, n) + DEFAULT_EPSILON * n as real
  {
    if n > 0 {
      FlooringAdds(v, n - 1);
    }
  }

  /** Flooring a normalised row may push its sum above 1, but by no more than ten
  times the floor. */
  lemma FlooredNormalized(v: Row)
    requires NonNegative(v) && Sum(v) > 0.0
    ensures NearStochastic(Floored(Normalized(v)))
  {
    NormalizedIsDistribution(v);
    FlooringAdds(Normalized(v), N);
  }

  // -- Reachability -----------------------------------------------------------

  /** `p` walks along positive entries of the matrix, taking at least one step. */
  predicate Walk(a: Matrix, p: seq<State>) {
    && |p| >= 2
    && forall m :: 0 <= m < |p| - 1 ==> a[p[m]][p[m + 1]] > 0.0
  }

  predicate WalkFromTo(a: Matrix, p: seq<State>, i: State, j: State) {
    Walk(a, p) && p[0] == i && p[|p| - 1] == j
  }

  ghost predicate Reachable(a: Matrix, i: State, j: State) {
    exists p: seq<State> :: WalkFromTo(a, p, i, j)
  }

  /** What the closure holds for (i, j) after the first `k` rounds. */
  predicate Closure(a: Matrix, i: State, j: State, k: nat)
    requires k <= N
    decreases k
  {
    if k == 0 then a[i][j] > 0.0
    else Closure(a, i, j, k - 1) || (Closure(a, i, k - 1, k - 1) && Closure(a, k - 1, j, k - 1))
  }

  lemma {:induction false} ClosureIsSound(a: Matrix, i: State, j: State, k: nat) returns (p: seq<State>)
    requires k <= N && Closure(a, i, j, k)
    ensures WalkFromTo(a, p, i, j)
    decreases k
  {
    if k == 0 {
      p := [i, j];
    } else if Closure(a, i, j, k - 1) {
      p := ClosureIsSound(a, i, j, k - 1);
    } else {
      var left := ClosureIsSound(a, i, k - 1, k - 1);
      var right := ClosureIsSound(a, k - 1, j, k - 1);
      p := left + right[1..];
      forall m | 0 <= m < |p| - 1
        ensures a[p[m]][p[m + 1]] > 0.0
      {
        if m >= |left| - 1 {
          assert p[m] == right[m - (|left| - 1)] && p[m + 1] == right[m + 1 - (|left| - 1)];
        }
      }
    }
  }

  /** A walk whose inner states are all below `k` is found in the first `k` rounds. */
  lemma {:induction false} ClosureIsComplete(a: Matrix, p: seq<State>, k: nat)
    requires k <= N && Walk(a, p)
    requires forall m :: 0 < m < |p| - 1 ==> p[m] < k
    ensures Closure(a, p[0], p[|p| - 1], k)
    decreases k, |p|
  {
    if k == 0 {
      var next := p[1];
      assert |p| == 2 || next < k;
      assert a[p[0]][p[0 + 1]] > 0.0;
    } else if forall m :: 0 < m < |p| - 1 ==> p[m] != k - 1 {
      ClosureIsComplete(a, p, k - 1);
    } else {
      var m := FirstVisit(p, k - 1);
      ClosureIsComplete(a, p[..m + 1], k - 1);
      var rest := p[m..];
      ClosureIsComplete(a, rest, k);
    }
  }

  lemma FirstVisit(p: seq<State>, s: State) returns (m: nat)
    requires exists m :: 0 < m < |p| - 1 && p[m] == s
    ensures 0 < m < |p| - 1 && p[m] == s
    ensures forall l :: 0 < l < m ==> p[l] != s
  {
    m := 1;
    while p[m] != s
      invariant 0 < m < |p| - 1
      invariant forall l :: 0 < l < m ==> p[l] != s
      decreases |p| - m
    {
      m := m + 1;
    }
  }

  /** All rounds together compute exactly reachability, for every matrix. */
  lemma ClosureIsReachability(a: Matrix, i: State, j: State)
    ensures Closure(a, i, j, N) <==> Reachable(a, i, j)
  {
    if Closure(a, i, j, N) {
      var p := ClosureIsSound(a, i, j, N);
    }
    if Reachable(a, i, j) {
      var p :| WalkFromTo(a, p, i, j);
      ClosureIsComplete(a, p, N);
    }
  }

  /** Round `k` leaves row k and column k as they were, so updating in place reads
  the same values as a copy would. */
  lemma PivotIsFixed(a: Matrix, i: State, k: State)
    ensures Closure(a, i, k, k + 1) == Closure(a, i, k, k)
    ensures Closure(a, k, i, k + 1) == Closure(a, k, i, k)
  {}

  /** The triple loop over a boolean table, updated in place. */
  method CloseInPlace(a: Matrix) returns (reachable: array2<bool>)
    ensures reachable.Length0 == reachable.Length1 == N
    ensures forall x: State, y: State :: reachable[x, y] == Closure(a, x, y, N)
  {
    reachable := new bool[N, N];
    for i := 0 to N
      invariant forall x: State, y: State :: x < i ==> reachable[x, y] == Closure(a, x, y, 0)
    {
      for j := 0 to N
        invariant forall x: State, y: State :: x < i || (x == i && y < j) ==> reachable[x, y] == Closure(a, x, y, 0)
      {
        reachable[i, j] := a[i][j] > 0.0;
      }
    }

    for k := 0 to N
      invariant forall x: State, y: State :: reachable[x, y] == Closure(a, x, y, k)
    {
      for i := 0 to N
        invariant forall x: State, y: State :: reachable[x, y] == Closure(a, x, y, if x < i then k + 1 else k)
      {
        for j := 0 to N
          invariant forall x: State, y: State ::
            reachable[x, y] == Closure(a, x, y, if x < i || (x == i && y < j) then k + 1 else k)
        {
          PivotIsFixed(a, i, k);
          PivotIsFixed(a, j, k);
          reachable[i, j] := reachable[i, j] || (reachable[i, k] && reachable[k, j]);
        }
      }
    }
  }

  /** True iff every state reaches every state along positive entries. */
  method IsErgodicMatrix(a: Matrix) returns (ergodic: bool)
    ensures ergodic <==> forall i: State, j: State :: Reachable(a, i, j)
  {
    hide Closure, Reachable;
    var reachable := CloseInPlace(a);
    for i := 0 to N
      invariant forall x: State, y: State :: x < i ==> Closure(a, x, y, N)
    {
      for j := 0 to N
        invariant forall x: State, y: State :: x < i || (x == i && y < j) ==> Closure(a, x, y, N)
      {
        if !reachable[i, j] {
          ClosureIsReachability(a, i, j);
          return false;
        }
      }
    }
    forall x: State, y: State
      ensures Reachable(a, x, y)
    {
      ClosureIsReachability(a, x, y);
    }
    return true;
  }

  // -- Defaults and counts ----------------------------------------------------

  /** The empirical probabilities the table starts from; absent pairs have none. */
  function Defaults(from: State): map<State, real> {
    if from == BOOTING then map[BOOTING := 0.10, AUTH_REQUIRED := 0.50, READY := 0.35, ERROR := 0.05]
    else if from == AUTH_REQUIRED then map[AUTH_REQUIRED := 0.30, READY := 0.60, ERROR := 0.10]
    else if from == READY then map[READY := 0.80, PROMPT_SENT := 0.15, RATE_LIMITED := 0.02, ERROR := 0.03]
    else if from == PROMPT_SENT then
      map[PROMPT_SENT := 0.05, THINKING := 0.40, GENERATING := 0.40, RATE_LIMITED := 0.05, ERROR := 0.10]
    else if from == THINKING then map[THINKING := 0.30, GENERATING := 0.60, ERROR := 0.10]
    else if from == GENERATING then map[GENERATING := 0.70, COMPLETE := 0.20, ERROR := 0.08, RATE_LIMITED := 0.02]
    else if from == COMPLETE then map[COMPLETE := 0.40, READY := 0.55, ERROR := 0.05]
    else if from == RATE_LIMITED then map[RATE_LIMITED := 0.50, READY := 0.30, ERROR := 0.20]
    else if from == ERROR then map[ERROR := 0.30, READY := 0.30, BOOTING := 0.40]
    else map[SHADOW_BANNED := 0.60, COMPLETE := 0.30, RATE_LIMITED := 0.10]
  }

  function DefaultRow(from: State, epsilon: real): Row {
    var d := Defaults(from);
    seq(N, j requires 0 <= j < N => if j in d then d[j] + epsilon else epsilon)
  }

  type Counts = map<(State, State), nat>

  function CountOf(counts: Counts, from: State, to: State): nat {
    if (from, to) in counts then counts[(from, to)] else 0
  }

  /** The counts out of one state, each with the Laplace increment. */
  function SmoothedRow(counts: Counts, from: State): Row {
    seq(N, j requires 0 <= j < N => CountOf(counts, from, j) as real + 1.0)
  }

  function TotalCount(counts: Counts, from: State, n: nat): nat
    requires n <= N
  {
    if n == 0 then 0 else TotalCount(counts, from, n - 1) + CountOf(counts, from, n - 1)
  }

  /** The row a batch of counts leaves behind. */
  function CountedRow(previous: Row, counts: Counts, from: State): Row {
    if TotalCount(counts, from, N) == 0 then previous else Floored(Normalized(SmoothedRow(counts, from)))
  }

  /** How often `from` is directly followed by `to` in a state sequence. */
  function Occurrences(path: seq<State>, from: State, to: State): nat {
    if |path| < 2 then 0
    else Occurrences(path[..|path| - 1], from, to)
         + if path[|path| - 2] == from && path[|path| - 1] == to then 1 else 0
  }

  /** How often `from` is followed by one of the first `n` states. */
  function Departures(path: seq<State>, from: State, n: nat): nat
    requires n <= N
  {
    if n == 0 then 0 else Departures(path, from, n - 1) + Occurrences(path, from, n - 1)
  }

  /** The row that a state sequence leaves behind. */
  function LearnedRow(previous: Row, path: seq<State>, from: State): Row {
    if Departures(path, from, N) == 0 then previous
    else Floored(Normalized(seq(N, j requires 0 <= j < N => Occurrences(path, from, j) as real + 1.0)))
  }

  /** The positions at which `from` is directly followed by `to`. */
  function PairsAt(path: seq<State>, from: State, to: State): set<nat> {
    set i: nat | 0 <= i < |path| - 1 && Goes(path, i, from, to)
  }

  predicate Goes(path: seq<State>, i: nat, from: State, to: State) {
    i + 1 < |path| && path[i] == from && path[i + 1] == to
  }

  /** The positions of `from` other than the last. */
  function LeavesAt(path: seq<State>, from: State): set<nat> {
    set i: nat | 0 <= i < |path| - 1 && path[i] == from
  }

  lemma {:induction false} OccurrencesArePositions(path: seq<State>, from: State, to: State)
    ensures Occurrences(path, from, to) == |PairsAt(path, from, to)|
  {
    if |path| < 2 {
      assert PairsAt(path, from, to) == {};
    } else {
      var before, last: nat := path[..|path| - 1], |path| - 2;
      OccurrencesArePositions(before, from, to);
      var added := if path[last] == from && path[last + 1] == to then {last} else {};
      assert PairsAt(path, from, to) == PairsAt(before, from, to) + added;
    }
  }

  function LeavesBelow(path: seq<State>, from: State, n: nat): set<nat> {
    set i: nat | i in LeavesAt(path, from) && GoesBelow(path, i, n)
  }

  predicate GoesBelow(path: seq<State>, i: nat, n: nat) {
    i + 1 < |path| && path[i + 1] < n
  }

  lemma {:induction false} DeparturesTo(path: seq<State>, from: State, n: nat)
    requires n <= N
    ensures Departures(path, from, n) == |LeavesBelow(path, from, n)|
  {
    var below := LeavesBelow(path, from, n);
    if n == 0 {
      assert below == {};
    } else {
      DeparturesTo(path, from, n - 1);
      OccurrencesArePositions(path, from, n - 1);
      var rest := LeavesBelow(path, from, n - 1);
      assert below == rest + PairsAt(path, from, n - 1);
      assert rest !! PairsAt(path, from, n - 1);
    }
  }

  lemma DeparturesArePositions(path: seq<State>, from: State)
    ensures Departures(path, from, N) == |LeavesAt(path, from)|
  {
    DeparturesTo(path, from, N);
    assert LeavesAt(path, from) == LeavesBelow(path, from, N);
  }

  /** What is learned from a state sequence: nothing about a state that it never leaves. For any
  other the estimate of going to `to` is the number of times it went there, plus one, over the
  number of times it left, plus ten, and at least a billionth. */
  lemma LearnedEntry(previous: Row, path: seq<State>, from: State, to: State)
    ensures var left, went := |LeavesAt(path, from)|, |PairsAt(path, from, to)|;
      LearnedRow(previous, path, from)[to] ==
        if left == 0 then previous[to]
        else
          var estimate := (went as real + 1.0) / (left as real + 10.0);
          if estimate < 0.000000001 then 0.000000001 else estimate
  {
    DeparturesArePositions(path, from);
    OccurrencesArePositions(path, from, to);
    hide Occurrences, PairsAt, LeavesAt;
    var v := seq(N, j requires 0 <= j < N => Occurrences(path, from, j) as real + 1.0);
    SmoothedPathSum(path, from, N, v);
    assert v[to] == Occurrences(path, from, to) as real + 1.0;
  }

  lemma {:induction false} SmoothedPathSum(path: seq<State>, from: State, n: nat, v: Row)
    requires n <= N && forall j :: 0 <= j < N ==> v[j] == Occurrences(path, from, j) as real + 1.0
    ensures SumTo(v, n) == Departures(path, from, n) as real + n as real
  {
    if n > 0 {
      SmoothedPathSum(path, from, n - 1, v);
    }
  }

  lemma {:induction false} CountsAgree(counts: Counts, path: seq<State>, from: State, n: nat)
    requires n <= N
    requires forall j: State :: CountOf(counts, from, j) == Occurrences(path, from, j)
    ensures TotalCount(counts, from, n) == Departures(path, from, n)
    ensures SmoothedRow(counts, from) == seq(N, j requires 0 <= j < N => Occurrences(path, from, j) as real + 1.0)
  {
    if n > 0 {
      CountsAgree(counts, path, from, n - 1);
    }
  }

  lemma CountOneMore(counts: Counts, path: seq<State>)
    requires |path| >= 2
    requires forall x: State, y: State :: CountOf(counts, x, y) == Occurrences(path[..|path| - 1], x, y)
    ensures var from, to := path[|path| - 2], path[|path| - 1];
      forall x: State, y: State ::
        CountOf(counts[(from, to) := CountOf(counts, from, to) + 1], x, y) == Occurrences(path, x, y)
  {
    var from, to := path[|path| - 2], path[|path| - 1];
    var more := counts[(from, to) := CountOf(counts, from, to) + 1];
    forall x: State, y: State
      ensures CountOf(more, x, y) == Occurrences(path, x, y)
    {
      assert CountOf(more, x, y) == CountOf(counts, x, y) + if x == from && y == to then 1 else 0;
    }
  }

  lemma PositiveRow(v: Row)
    requires forall i :: 0 <= i < N ==> v[i] > 0.0
    ensures NonNegative(v) && Sum(v) > 0.0
  {
    SumAtLeastTerm(v, N, 0);
  }

  lemma DefaultRowIsPositive(from: State, epsilon: real)
    requires epsilon > 0.0
    ensures forall j :: 0 <= j < N ==> DefaultRow(from, epsilon)[j] > 0.0
  {
    var d := Defaults(from);
    assert forall j :: j in d ==> d[j] > 0.0;
  }

  lemma DefaultRowSum(from: State, epsilon: real)
    ensures Sum(DefaultRow(from, epsilon)) == 1.0 + 10.0 * epsilon
  {
    SumOfTen(DefaultRow(from, epsilon));
  }

  /** A freshly built table exceeds 1e-6 on the listed pairs, and elsewhere exactly if the
  epsilon it was built with does after normalising. With the default epsilon every other
  entry sits on the 1e-9 floor. */
  lemma FreshTableAboveOneMillionth(from: State, to: State, epsilon: real)
    requires epsilon >= DEFAULT_EPSILON
    ensures var entry := Floored(Normalized(DefaultRow(from, epsilon)))[to];
      && (entry > 0.000001 <==> to in Defaults(from) || epsilon > 0.000001 * (1.0 + 10.0 * epsilon))
      && (epsilon == DEFAULT_EPSILON && to !in Defaults(from) ==> entry == DEFAULT_EPSILON)
  {
    hide Defaults;
    var v := DefaultRow(from, epsilon);
    DefaultRowSum(from, epsilon);
    DefaultIsListed(from, to);
    Quotient(v[to], 0.000001, 1.0 + 10.0 * epsilon);
    Quotient(v[to], DEFAULT_EPSILON, 1.0 + 10.0 * epsilon);
    assert Normalized(v)[to] == v[to] / (1.0 + 10.0 * epsilon);
  }

  lemma DefaultIsListed(from: State, to: State)
    ensures to in Defaults(from) ==> Defaults(from)[to] >= 0.02
    ensures var other := if from == SHADOW_BANNED then BOOTING else SHADOW_BANNED; other !in Defaults(from)
  {}

  lemma Quotient(x: real, bound: real, total: real)
    requires total > 0.0
    ensures x / total > bound <==> x > bound * total
    ensures x / total >= bound <==> x >= bound * total
  {
    var q := x / total;
    assert q * total == x;
    assert q > bound ==> (q - bound) * total > 0.0;
    assert q < bound ==> (bound - q) * total > 0.0;
  }

  /** Where the Laplace estimate exceeds 1e-6: exactly where the count is more than a
  millionth of all counts, each count increased by one. */
  lemma CountedAboveOneMillionth(previous: Row, counts: Counts, from: State, to: State)
    requires TotalCount(counts, from, N) != 0
    ensures CountedRow(previous, counts, from)[to] > 0.000001 <==>
      CountOf(counts, from, to) as real + 1.0 > 0.000001 * (TotalCount(counts, from, N) as real + 10.0)
  {
    var v := SmoothedRow(counts, from);
    SmoothedRowSum(counts, from, N);
    Quotient(v[to], 0.000001, Sum(v));
    assert Normalized(v)[to] == v[to] / Sum(v);
  }

  lemma {:induction false} SmoothedRowSum(counts: Counts, from: State, n: nat)
    requires n <= N
    ensures SumTo(SmoothedRow(counts, from), n) == TotalCount(counts, from, n) as real + n as real
  {
    if n > 0 {
      SmoothedRowSum(counts, from, n - 1);
    }
  }

  // -- When a row sums to exactly 1 ---------------------------------------------

  lemma {:induction false} FlooringAddsNothingIff(v: Row, n: nat)
    requires n <= N
    ensures SumTo(v, n) <= SumTo(Floored(v), n)
    ensures SumTo(Floored(v), n) == SumTo(v, n) <==> forall j :: 0 <= j < n ==> v[j] >= DEFAULT_EPSILON
  {
    if n > 0 {
      FlooringAddsNothingIff(v, n - 1);
    }
  }

  /** A stored row sums to exactly 1 if and only if none of its entries was below the floor,
  that is below a billionth of their sum. */
  lemma RowSumIsOneIff(v: Row)
    requires NonNegative(v) && Sum(v) > 0.0
    ensures Sum(Floored(Normalized(v))) == 1.0 <==> forall j :: 0 <= j < N ==> v[j] >= DEFAULT_EPSILON * Sum(v)
  {
    hide Sum, Floored;
    NormalizedIsDistribution(v);
    FlooringAddsNothingIff(Normalized(v), N);
    SumIsSumTo(Normalized(v));
    SumIsSumTo(Floored(Normalized(v)));
    forall j | 0 <= j < N
      ensures Normalized(v)[j] >= DEFAULT_EPSILON <==> v[j] >= DEFAULT_EPSILON * Sum(v)
    {
      Quotient(v[j], DEFAULT_EPSILON, Sum(v));
    }
  }

  lemma SumIsSumTo(v: Row)
    ensures Sum(v) == SumTo(v, N)
  {}

  /** The rows of a fresh table sum to exactly 1 if and only if the epsilon is still at least
  1e-9 after normalising; with the default epsilon it is not, and every row exceeds 1. */
  lemma FreshRowSumIsOneIff(from: State, epsilon: real)
    requires epsilon >= DEFAULT_EPSILON
    ensures var total := Sum(Floored(Normalized(DefaultRow(from, epsilon))));
      && total >= 1.0
      && (total == 1.0 <==> epsilon >= DEFAULT_EPSILON * (1.0 + 10.0 * epsilon))
      && (epsilon == DEFAULT_EPSILON ==> total > 1.0)
  {
    hide Defaults, Sum, Floored, Normalized;
    var v := DefaultRow(from, epsilon);
    DefaultRowSum(from, epsilon);
    DefaultRowIsPositive(from, epsilon);
    RowSumIsOneIff(v);
    FlooredNormalized(v);
    DefaultIsListed(from, 0);
    var other: State := if from == SHADOW_BANNED then BOOTING else SHADOW_BANNED;
    assert v[other] == epsilon;
    forall j: State
      ensures v[j] >= epsilon
    {
      DefaultIsListed(from, j);
    }
  }

  /** A row re-estimated from counts sums to exactly 1 if and only if every count, increased
  by one, is at least a billionth of all of them. */
  lemma CountedRowSumIsOneIff(previous: Row, counts: Counts, from: State)
    requires TotalCount(counts, from, N) != 0
    ensures Sum(CountedRow(previous, counts, from)) == 1.0 <==> forall j: State ::
      CountOf(counts, from, j) as real + 1.0 >= DEFAULT_EPSILON * (TotalCount(counts, from, N) as real + 10.0)
  {
    hide Floored, Normalized;
    var v := SmoothedRow(counts, from);
    SmoothedRowSum(counts, from, N);
    assert Sum(v) == TotalCount(counts, from, N) as real + 10.0;
    RowSumIsOneIff(v);
    forall j: State
      ensures v[j] == CountOf(counts, from, j) as real + 1.0
    {}
    if Sum(CountedRow(previous, counts, from)) == 1.0 {
      forall j: State
        ensures CountOf(counts, from, j) as real + 1.0 >= DEFAULT_EPSILON * Sum(v)
      {
        assert v[j] >= DEFAULT_EPSILON * Sum(v);
      }
    }
  }

  /** Two thousand million visits to one successor: the other entries fall to the floor, and
  the row exceeds 1. */
  lemma ManyCountsBreakBothPromises(previous: Row)
    ensures var row := CountedRow(previous, map[(BOOTING, BOOTING) := 2_000_000_000], BOOTING);
      row[READY] <= 0.000001 && Sum(row) != 1.0
  {
    hide CountedRow;
    var counts: Counts := map[(BOOTING, BOOTING) := 2_000_000_000];
    OnlyOneCount(counts, 2_000_000_000, N);
    assert CountOf(counts, BOOTING, READY) == 0;
    CountedAboveOneMillionth(previous, counts, BOOTING, READY);
    CountedRowSumIsOneIff(previous, counts, BOOTING);
  }

  lemma {:induction false} OnlyOneCount(counts: Counts, count: nat, n: nat)
    requires 0 < n <= N && counts == map[(BOOTING, BOOTING) := count]
    ensures TotalCount(counts, BOOTING, n) == count
  {
    if n > 1 {
      OnlyOneCount(counts, count, n - 1);
    }
  }

  // -- The class --------------------------------------------------------------

  class TransitionMatrix {
    const epsilon: real
    var probs: Matrix

    ghost predicate Valid()
      reads this
    {
      forall i :: 0 <= i < N ==> NearStochastic(probs[i])
    }

    constructor (epsilon: real)
      ensures Valid()
      ensures this.epsilon == if epsilon < DEFAULT_EPSILON then DEFAULT_EPSILON else epsilon
      ensures forall i: State :: probs[i] == Floored(Normalized(DefaultRow(i, this.epsilon)))
    {
      this.epsilon := if epsilon < DEFAULT_EPSILON then DEFAULT_EPSILON else epsilon;
      this.probs := [ZEROS, ZEROS, ZEROS, ZEROS, ZEROS, ZEROS, ZEROS, ZEROS, ZEROS, ZEROS];
      new;
      for from := 0 to N
        invariant forall i: State :: i < from ==> probs[i] == Floored(Normalized(DefaultRow(i, this.epsilon)))
      {
        var row := BuildDefaultRow(from, this.epsilon);
        StoreRow(from, row);
      }
      forall i: State
        ensures NearStochastic(probs[i])
      {
        DefaultRowIsPositive(i, this.epsilon);
        PositiveRow(DefaultRow(i, this.epsilon));
        FlooredNormalized(DefaultRow(i, this.epsilon));
      }
    }

    static method BuildDefaultRow(from: State, epsilon: real) returns (row: array<real>)
      ensures fresh(row) && row.Length == N && row[..] == DefaultRow(from, epsilon)
    {
      var defaults := Defaults(from);
      row := new real[N];
      for to := 0 to N
        invariant forall j :: 0 <= j < to ==> row[j] == if j in defaults then defaults[j] + epsilon else epsilon
      {
        row[to] := if to in defaults then defaults[to] + epsilon else epsilon;
      }
    }

    static method BuildSmoothedRow(counts: Counts, from: State) returns (row: array<real>)
      ensures fresh(row) && row.Length == N && row[..] == SmoothedRow(counts, from)
    {
      row := new real[N];
      for to := 0 to N
        invariant forall j: State :: j < to ==> row[j] == CountOf(counts, from, j) as real + 1.0
      {
        row[to] := CountOf(counts, from, to) as real + 1.0;
      }
    }

    /** Divides a row by its sum, in place. */
    static method NormalizeRow(row: array<real>)
      requires row.Length == N
      modifies row
      ensures row[..] == Normalized(old(row[..]))
    {
      ghost var v := row[..];
      var total := 0.0;
      for j := 0 to N
        invariant total == SumTo(v, j)
      {
        total := total + row[j];
      }
      if total > 0.0 {
        var inv := 1.0 / total;
        for j := 0 to N
          invariant forall i :: 0 <= i < j ==> row[i] == v[i] / total
          invariant forall i :: j <= i < N ==> row[i] == v[i]
        {
          row[j] := row[j] * inv;
        }
      }
      assert row[..] == Normalized(v);
    }

    /** Normalises a row, floors it, and makes it row `from` of the table. */
    method StoreRow(from: State, row: array<real>)
      requires row.Length == N
      modifies this`probs, row
      ensures probs == old(probs)[from := Floored(Normalized(old(row[..])))]
    {
      NormalizeRow(row);
      ghost var normalized: Row := row[..];
      ghost var before := probs;
      for to := 0 to N
        invariant row[..] == normalized
        invariant forall i: State :: i != from ==> probs[i] == before[i]
        invariant forall j :: 0 <= j < to ==> probs[from][j] == Floor(normalized[j])
      {
        var newRow: Row := probs[from][to := Floor(row[to])];
        probs := probs[from := newRow];
      }
      assert probs[from] == Floored(normalized);
    }

    /** Laplace-smoothed re-estimation of every row that has any count. */
    method UpdateFromCounts(counts: Counts)
      requires Valid()
      modifies this`probs
      ensures Valid()
      ensures forall i: State :: probs[i] == CountedRow(old(probs)[i], counts, i)
    {
      for from := 0 to N
        invariant forall i: State ::
          probs[i] == if i < from then CountedRow(old(probs)[i], counts, i) else old(probs)[i]
        invariant Valid()
      {
        var total := 0;
        for to := 0 to N
          invariant total == TotalCount(counts, from, to)
        {
          total := total + CountOf(counts, from, to);
        }
        if total != 0 {
          var row := BuildSmoothedRow(counts, from);
          PositiveRow(SmoothedRow(counts, from));
          FlooredNormalized(SmoothedRow(counts, from));
          StoreRow(from, row);
        }
      }
    }

    method CopyRow(from: State) returns (row: array<real>)
      ensures fresh(row) && row.Length == N && row[..] == probs[from]
    {
      row := new real[N];
      for to := 0 to N
        invariant forall j :: 0 <= j < to ==> row[j] == probs[from][j]
      {
        row[to] := probs[from][to];
      }
    }

    method EnforceStochastic()
      requires Valid()
      modifies this`probs
      ensures Valid()
      ensures forall i: State :: probs[i] == Floored(Normalized(old(probs)[i]))
    {
      for from := 0 to N
        invariant forall i: State :: probs[i] == if i < from then Floored(Normalized(old(probs)[i])) else old(probs)[i]
        invariant Valid()
      {
        var row := CopyRow(from);
        assert NearStochastic(probs[from]);
        FlooredNormalized(probs[from]);
        StoreRow(from, row);
      }
    }

    /** Counts the transitions of a state sequence and re-estimates from them. */
    method LearnTransitions(path: seq<State>)
      requires Valid()
      modifies this`probs
      ensures Valid()
      ensures forall i: State :: probs[i] == LearnedRow(old(probs)[i], path, i)
    {
      var counts: Counts := map[];
      if |path| >= 2 {
        for i := 0 to |path| - 1
          invariant probs == old(probs)
          invariant forall x: State, y: State :: CountOf(counts, x, y) == Occurrences(path[..i + 1], x, y)
        {
          assert path[..i + 2][..i + 1] == path[..i + 1];
          CountOneMore(counts, path[..i + 2]);
          counts := counts[(path[i], path[i + 1]) := CountOf(counts, path[i], path[i + 1]) + 1];
        }
        assert path[..|path| - 1 + 1] == path;
      }
      UpdateFromCounts(counts);
      forall x: State
        ensures probs[x] == LearnedRow(old(probs)[x], path, x)
      {
        CountsAgree(counts, path, x, N);
      }
    }

    method ValidateStochastic(tolerance: real) returns (ok: bool)
      ensures ok <==> forall i: State :: -tolerance <= Sum(probs[i]) - 1.0 <= tolerance
      ensures Valid() && tolerance >= 10.0 * DEFAULT_EPSILON ==> ok
    {
      for i := 0 to N
        invariant forall x: State :: x < i ==> -tolerance <= Sum(probs[x]) - 1.0 <= tolerance
      {
        var rowSum := 0.0;
        for j := 0 to N
          invariant rowSum == SumTo(probs[i], j)
        {
          rowSum := rowSum + probs[i][j];
        }
        if rowSum - 1.0 > tolerance || 1.0 - rowSum > tolerance {
          return false;
        }
      }
      return true;
    }

    method IsErgodic() returns (ergodic: bool)
      ensures ergodic <==> forall i: State, j: State :: Reachable(probs, i, j)
      ensures Valid() ==> ergodic
    {
      ergodic := IsErgodicMatrix(probs);
      if Valid() {
        forall i: State, j: State
          ensures Reachable(probs, i, j)
        {
          assert NearStochastic(probs[i]);
          assert WalkFromTo(probs, [i, j], i, j);
        }
      }
    }
  }
}
