/** Eviction by age, as the two bounded caches do it: the oldest go first, and among equally
old ones those inserted earlier. */
module Recency {

  datatype Stamped<T> = Stamped(item: T, at: real)

  /** The position of the first of the oldest entries. */
  function Oldest<T>(es: seq<Stamped<T>>): (i: nat)
    requires es != []
    ensures i < |es|
    ensures forall j :: 0 <= j < |es| ==> es[i].at <= es[j].at
    ensures forall j :: 0 <= j < i ==> es[i].at < es[j].at
  {
    if |es| == 1 then 0
    else
      var i := Oldest(es[..|es| - 1]);
      if es[|es| - 1].at < es[i].at then |es| - 1 else i
  }

  method FindOldest<T>(es: seq<Stamped<T>>) returns (oldest: nat)
    requires es != []
    ensures oldest == Oldest(es)
  {
    oldest := 0;
    for k := 1 to |es|
      invariant oldest < k
      invariant forall j :: 0 <= j < k ==> es[oldest].at <= es[j].at
      invariant forall j :: 0 <= j < oldest ==> es[oldest].at < es[j].at
    {
      if es[k].at < es[oldest].at {
        oldest := k;
      }
    }
  }

  function RemoveAt<T>(s: seq<T>, i: nat): seq<T>
    requires i < |s|
  {
    s[..i] + s[i + 1..]
  }

  /** Without its `n` oldest entries; among equally old ones the earlier go first. */
  function DropOldest<T>(es: seq<Stamped<T>>, n: nat): seq<Stamped<T>>
    requires n <= |es|
  {
    if n == 0 then es else DropOldest(RemoveAt(es, Oldest(es)), n - 1)
  }

  /** `part` lists some entries of `whole`, in the same order. */
  ghost predicate Subsequence<T>(part: seq<Stamped<T>>, whole: seq<Stamped<T>>)
    decreases |whole|
  {
    if part == [] then true
    else if whole == [] then false
    else (part[0] == whole[0] && Subsequence(part[1..], whole[1..])) || Subsequence(part, whole[1..])
  }

  lemma {:induction false} SubsequenceOfItself<T>(es: seq<Stamped<T>>)
    ensures Subsequence(es, es)
    decreases |es|
  {
    if es != [] {
      SubsequenceOfItself(es[1..]);
    }
  }

  lemma {:induction false} SubsequenceIsTransitive<T>(a: seq<Stamped<T>>, b: seq<Stamped<T>>, c: seq<Stamped<T>>)
    requires Subsequence(a, b) && Subsequence(b, c)
    ensures Subsequence(a, c)
    decreases |b| + |c|
  {
    if a == [] {
    } else if b[0] == c[0] && Subsequence(b[1..], c[1..]) {
      if a[0] == b[0] && Subsequence(a[1..], b[1..]) {
        SubsequenceIsTransitive(a[1..], b[1..], c[1..]);
      } else {
        SubsequenceIsTransitive(a, b[1..], c[1..]);
      }
    } else {
      SubsequenceIsTransitive(a, b, c[1..]);
    }
  }

  lemma OneOldestLess<T>(es: seq<Stamped<T>>, n: nat)
    requires 0 < n <= |es|
    ensures DropOldest(es, n) == DropOldest(RemoveAt(es, Oldest(es)), n - 1)
  {}

  lemma NoneTooMany<T>(es: seq<Stamped<T>>)
    ensures DropOldest(es, 0) == es
  {}

  lemma OneLess<T>(es: seq<Stamped<T>>, i: nat)
    requires i < |es|
    ensures |RemoveAt(es, i)| == |es| - 1
  {}

  lemma {:induction false} RemoveOne<T>(es: seq<Stamped<T>>, i: nat)
    requires i < |es|
    ensures Subsequence(RemoveAt(es, i), es)
    decreases |es|
  {
    if i == 0 {
      assert RemoveAt(es, 0) == es[1..];
      SubsequenceOfItself(es[1..]);
      assert Subsequence(es[1..], es[1..]);
    } else {
      RemoveOne(es[1..], i - 1);
      assert RemoveAt(es, i)[1..] == RemoveAt(es[1..], i - 1);
    }
  }

  /** What is dropped for age is no younger than anything kept. */
  lemma {:induction false} DropOldestIsByAge<T(!new)>(es: seq<Stamped<T>>, n: nat)
    requires n <= |es|
    ensures var rest := DropOldest(es, n);
      && |rest| == |es| - n && Subsequence(rest, es)
      && (forall e :: e in rest ==> e in es)
      && forall d, k :: d in es && d !in rest && k in rest ==> d.at <= k.at
    decreases n
  {
    hide Subsequence, DropOldest, RemoveAt;
    if n == 0 {
      NoneTooMany(es);
      SubsequenceOfItself(es);
    } else {
      var i := Oldest(es);
      var fewer := RemoveAt(es, i);
      OneOldestLess(es, n);
      OneLess(es, i);
      DropOldestIsByAge(fewer, n - 1);
      RemoveOne(es, i);
      SubsequenceIsTransitive(DropOldest(es, n), fewer, es);
      forall e
        ensures e in es <==> e in fewer || e == es[i]
      {
        MembersWithout(es, i, e);
      }
    }
  }

  lemma MembersWithout<T>(es: seq<Stamped<T>>, i: nat, e: Stamped<T>)
    requires i < |es|
    ensures e in es <==> e in RemoveAt(es, i) || e == es[i]
  {
    assert es == es[..i] + [es[i]] + es[i + 1..];
  }
}
