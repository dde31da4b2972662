/** The hidden states of a provider page, and probability rows over them.

A hidden state is its position in the enumeration order of `HiddenState`. A row
holds one real per state; sums run in enumeration order. */
module HiddenStates {

  const N: nat := 10

  type State = i: int | 0 <= i < 10 witness 0

  const BOOTING: State := 0
  const AUTH_REQUIRED: State := 1
  const READY: State := 2
  const PROMPT_SENT: State := 3
  const THINKING: State := 4
  const GENERATING: State := 5
  const COMPLETE: State := 6
  const RATE_LIMITED: State := 7
  const ERROR: State := 8
  const SHADOW_BANNED: State := 9

  const ZEROS: seq<real> := [0.0, 0.0, 0.0, 0.0, 0.0, 0.0, 0.0, 0.0, 0.0, 0.0]

  type Row = v: seq<real> | |v| == N witness ZEROS
  type Matrix = m: seq<Row> | |m| == N witness [ZEROS, ZEROS, ZEROS, ZEROS, ZEROS, ZEROS, ZEROS, ZEROS, ZEROS, ZEROS]

  /** Below this joint mass a tick falls back to the uniform belief; it is also the
  least value an emission probability can take. */
  const TINY: real := 0.000000000000000000000000000001

  /** The sum of the first `n` entries. */
  function SumTo(v: seq<real>, n: nat): real
    requires n <= |v|
  {
    if n == 0 then 0.0 else SumTo(v, n - 1) + v[n - 1]
  }

  function Sum(v: seq<real>): real {
    SumTo(v, |v|)
  }

  /** `v` divided entrywise by `d`. */
  function Scaled(v: Row, d: real): (w: Row)
    requires d != 0.0
  {
    seq(N, i requires 0 <= i < N => v[i] / d)
  }

  /** One over the number of states, for each state. */
  const UNIFORM: Row := [0.1, 0.1, 0.1, 0.1, 0.1, 0.1, 0.1, 0.1, 0.1, 0.1]

  predicate NonNegative(v: Row) {
    forall i :: 0 <= i < N ==> v[i] >= 0.0
  }

  /** A probability distribution over the hidden states. */
  predicate Distribution(v: Row) {
    NonNegative(v) && Sum(v) == 1.0
  }

  lemma {:induction false} SumBounds(v: seq<real>, n: nat, lo: real, hi: real)
    requires n <= |v|
    requires forall i :: 0 <= i < n ==> lo <= v[i] <= hi
    ensures lo * n as real <= SumTo(v, n) <= hi * n as real
  {
    if n > 0 {
      SumBounds(v, n - 1, lo, hi);
      assert lo * n as real == lo * (n - 1) as real + lo;
      assert hi * n as real == hi * (n - 1) as real + hi;
    }
  }

  lemma {:induction false} SumScaled(v: Row, d: real, n: nat)
    requires d != 0.0 && n <= N
    ensures SumTo(Scaled(v, d), n) == SumTo(v, n) / d
  {
    if n > 0 {
      SumScaled(v, d, n - 1);
      assert SumTo(v, n - 1) / d + v[n - 1] / d == (SumTo(v, n - 1) + v[n - 1]) / d;
    }
  }

  lemma ScaledBySum(v: Row)
    requires Sum(v) != 0.0
    ensures Sum(Scaled(v, Sum(v))) == 1.0
  {
    SumScaled(v, Sum(v), N);
    assert Sum(v) / Sum(v) == 1.0;
  }

  /** A sum of non-negative terms is at least each term, so it is zero only if
  every term is. */
  lemma {:induction false} SumAtLeastTerm(v: seq<real>, n: nat, k: nat)
    requires k < n <= |v|
    requires forall i :: 0 <= i < n ==> v[i] >= 0.0
    ensures 0.0 <= v[k] <= SumTo(v, n)
  {
    if k == n - 1 {
      SumBounds(v, n - 1, 0.0, SumTo(v, n - 1) + 1.0) by {
        forall i | 0 <= i < n - 1
          ensures v[i] <= SumTo(v, n - 1) + 1.0
        {
          SumAtLeastTerm(v, n - 1, i);
        }
      }
    } else {
      SumAtLeastTerm(v, n - 1, k);
    }
  }

  lemma UniformIsDistribution()
    ensures Distribution(UNIFORM)
    ensures forall i: State :: UNIFORM[i] == 0.1
  {
    SumBounds(UNIFORM, N, 0.1, 0.1);
  }

  lemma SumOfTen(v: Row)
    ensures Sum(v) == v[0] + v[1] + v[2] + v[3] + v[4] + v[5] + v[6] + v[7] + v[8] + v[9]
  {
    assert SumTo(v, 1) == v[0];
    assert SumTo(v, 2) == v[0] + v[1];
    assert SumTo(v, 4) == v[0] + v[1] + v[2] + v[3];
    assert SumTo(v, 6) == v[0] + v[1] + v[2] + v[3] + v[4] + v[5];
    assert SumTo(v, 8) == v[0] + v[1] + v[2] + v[3] + v[4] + v[5] + v[6] + v[7];
    assert SumTo(v, 10) == SumTo(v, 8) + v[8] + v[9];
  }
}
