/** The token bucket that limits the request rate of an account, and the sliding
window it is equivalent to. Times come from the caller as a clock that never goes
back. */
module TokenBuckets {

  import opened Options

  /** What flows into the bucket during `dt`. */
  function Flow(rate: real, dt: real): real {
    rate * dt
  }

  lemma FlowAdds(rate: real, x: real, y: real)
    ensures Flow(rate, x) + Flow(rate, y) == Flow(rate, x + y)
    ensures Flow(rate, 0.0) == 0.0
    ensures rate > 0.0 && x >= 0.0 ==> Flow(rate, x) >= 0.0
  {}

  datatype Bucket = Bucket(rate: real, burst: real, tokens: real, last: real)

  function Min(x: real, y: real): real {
    if x <= y then x else y
  }

  function Refilled(b: Bucket, now: real): Bucket {
    b.(tokens := Min(b.burst, b.tokens + Flow(b.rate, now - b.last)), last := now)
  }

  /** One attempt to take `n` tokens at time `now`. */
  function Attempt(b: Bucket, now: real, n: real): (r: (Bucket, bool)) {
    var full := Refilled(b, now);
    if full.tokens >= n then (full.(tokens := full.tokens - n), true) else (full, false)
  }

  // -- The window --------------------------------------------------------------------

  /** A refill instant, and what was granted at it. The construction counts as one. */
  datatype Event = Event(at: real, granted: real)

  predicate History(h: seq<Event>) {
    && h != []
    && (forall i :: 0 <= i < |h| ==> h[i].granted >= 0.0)
    && (forall i, j :: 0 <= i < j < |h| ==> h[i].at <= h[j].at)
  }

  /** All that was granted at or after `s`. */
  function GrantedSince(h: seq<Event>, s: real): real {
    if h == [] then 0.0
    else GrantedSince(h[..|h| - 1], s) + if h[|h| - 1].at >= s then h[|h| - 1].granted else 0.0
  }

  /** What a window that starts at `s` still has to give at `t`. */
  function Room(rate: real, burst: real, h: seq<Event>, s: real, t: real): real {
    burst + Flow(rate, t - s) - GrantedSince(h, s)
  }

  /** No window, wherever it starts, would exceed burst + rate x length by granting
  `n` at time `t`. */
  ghost predicate WindowAdmits(rate: real, burst: real, h: seq<Event>, t: real, n: real)
    requires h != []
  {
    forall s: real :: h[0].at <= s <= t ==> n <= Room(rate, burst, h, s, t)
  }

  /** The level is the room of the tightest window. */
  ghost predicate Tight(b: Bucket, h: seq<Event>) {
    && History(h) && b.rate > 0.0
    && b.last == h[|h| - 1].at
    && b.tokens <= b.burst
    && WindowAdmits(b.rate, b.burst, h, b.last, b.tokens)
    && exists i :: 0 <= i < |h| && TightAt(b, h, i)
  }

  predicate TightAt(b: Bucket, h: seq<Event>, i: nat)
    requires i < |h|
  {
    b.tokens == Room(b.rate, b.burst, h, h[i].at, b.last)
  }

  lemma {:induction false} NothingAfterTheEnd(h: seq<Event>, s: real)
    requires forall i :: 0 <= i < |h| ==> h[i].at < s
    ensures GrantedSince(h, s) == 0.0
  {
    if h != [] {
      NothingAfterTheEnd(h[..|h| - 1], s);
    }
  }

  lemma GrantedByOneMore(h: seq<Event>, e: Event, s: real)
    ensures GrantedSince(h + [e], s) == GrantedSince(h, s) + if e.at >= s then e.granted else 0.0
  {
    assert (h + [e])[..|h|] == h;
  }

  lemma StartIsTight(rate: real, burst: real, now: real)
    requires rate > 0.0
    ensures Tight(Bucket(rate, burst, burst, now), [Event(now, 0.0)])
  {
    var b, h := Bucket(rate, burst, burst, now), [Event(now, 0.0)];
    forall s: real | now <= s <= now
      ensures b.tokens <= Room(rate, burst, h, s, now)
    {
      GrantedByOneMore([], Event(now, 0.0), s);
      assert [] + [Event(now, 0.0)] == h;
      FlowAdds(rate, 0.0, 0.0);
    }
    GrantedByOneMore([], Event(now, 0.0), now);
    assert [] + [Event(now, 0.0)] == h;
    FlowAdds(rate, 0.0, 0.0);
    assert TightAt(b, h, 0);
  }

  /** A window grows by the flow of the time that passed. */
  lemma RoomGrows(rate: real, burst: real, h: seq<Event>, s: real, t: real, u: real)
    requires rate > 0.0
    ensures Room(rate, burst, h, s, u) == Room(rate, burst, h, s, t) + Flow(rate, u - t)
  {
    hide Flow;
    FlowAdds(rate, t - s, u - t);
  }

  /** The level after refilling is the room of the tightest window up to `now`. */
  lemma RefilledLevel(b: Bucket, h: seq<Event>, now: real, s: real)
    requires Tight(b, h) && now >= b.last && h[0].at <= s <= now
    ensures Refilled(b, now).tokens <= Room(b.rate, b.burst, h, s, now)
  {
    hide Flow;
    if s <= b.last {
      RoomGrows(b.rate, b.burst, h, s, b.last, now);
    } else {
      NothingAfterTheEnd(h, s);
      FlowAdds(b.rate, now - s, 0.0);
    }
  }

  lemma RefilledIsTight(b: Bucket, h: seq<Event>, now: real)
    requires Tight(b, h) && now >= b.last
    ensures Tight(Refilled(b, now), h + [Event(now, 0.0)])
  {
    hide Flow;
    var full, e := Refilled(b, now), Event(now, 0.0);
    var longer := h + [e];
    forall s: real | longer[0].at <= s <= now
      ensures full.tokens <= Room(b.rate, b.burst, longer, s, now)
    {
      GrantedByOneMore(h, e, s);
      RefilledLevel(b, h, now, s);
    }
    var i :| 0 <= i < |h| && TightAt(b, h, i);
    if full.tokens == b.burst {
      if b.last < now {
        NothingAfterTheEnd(h, now);
        GrantedByOneMore(h, e, now);
        FlowAdds(b.rate, 0.0, 0.0);
        assert TightAt(full, longer, |h|);
      } else {
        FlowAdds(b.rate, 0.0, 0.0);
        GrantedByOneMore(h, e, h[i].at);
        assert TightAt(full, longer, i);
      }
    } else {
      RoomGrows(b.rate, b.burst, h, h[i].at, b.last, now);
      GrantedByOneMore(h, e, h[i].at);
      assert TightAt(full, longer, i);
    }
  }

  lemma GrantIsTight(b: Bucket, h: seq<Event>, n: real)
    requires h != [] && Tight(b, h + [Event(b.last, 0.0)]) && n >= 0.0
    ensures Tight(b.(tokens := b.tokens - n), h + [Event(b.last, n)])
  {
    hide Flow;
    var before, after := h + [Event(b.last, 0.0)], h + [Event(b.last, n)];
    var c := b.(tokens := b.tokens - n);
    forall s: real | s <= b.last
      ensures Room(b.rate, b.burst, after, s, b.last) == Room(b.rate, b.burst, before, s, b.last) - n
    {
      GrantedByOneMore(h, Event(b.last, 0.0), s);
      GrantedByOneMore(h, Event(b.last, n), s);
    }
    var i :| 0 <= i < |before| && TightAt(b, before, i);
    assert before[i].at <= before[|before| - 1].at;
    assert TightAt(c, after, i);
    assert forall k :: 0 <= k < |after| ==> after[k].at == before[k].at;
  }

  /** The exact law of the bucket: an attempt succeeds if and only if every window,
  however long, would stay within burst + rate x length. */
  lemma GrantedIffWindowAdmits(b: Bucket, h: seq<Event>, now: real, n: real)
    requires Tight(b, h) && now >= b.last
    requires n > 0.0
    ensures Attempt(b, now, n).1 <==> WindowAdmits(b.rate, b.burst, h, now, n)
  {
    hide Flow;
    var full := Refilled(b, now);
    if full.tokens >= n {
      forall s: real | h[0].at <= s <= now
        ensures n <= Room(b.rate, b.burst, h, s, now)
      {
        RefilledLevel(b, h, now, s);
      }
    }
    if WindowAdmits(b.rate, b.burst, h, now, n) {
      var longer := h + [Event(now, 0.0)];
      RefilledIsTight(b, h, now);
      var i :| 0 <= i < |longer| && TightAt(full, longer, i);
      GrantedByOneMore(h, Event(now, 0.0), longer[i].at);
      assert longer[0].at <= longer[i].at <= now;
      assert n <= Room(b.rate, b.burst, h, longer[i].at, now);
    }
  }

  lemma Admitted(rate: real, burst: real, h: seq<Event>, now: real, n: real)
    requires h != [] && WindowAdmits(rate, burst, h, now, n)
    ensures forall s: real :: h[0].at <= s <= now ==> GrantedSince(h, s) + n <= burst + rate * (now - s)
  {
    hide Room;
    forall s: real | h[0].at <= s <= now
      ensures GrantedSince(h, s) + n <= burst + rate * (now - s)
    {
      RoomIs(rate, burst, h, s, now);
    }
  }

  lemma NotAdmitted(rate: real, burst: real, h: seq<Event>, now: real, n: real) returns (s: real)
    requires h != [] && !WindowAdmits(rate, burst, h, now, n)
    ensures h[0].at <= s <= now && GrantedSince(h, s) + n > burst + rate * (now - s)
  {
    hide Room;
    s :| h[0].at <= s <= now && n > Room(rate, burst, h, s, now);
    RoomIs(rate, burst, h, s, now);
  }

  /** The same law written out: everything granted since any moment, and this request with it,
  fits the burst plus what the rate gives in that time. */
  lemma GrantedIffWithinTheRate(b: Bucket, h: seq<Event>, now: real, n: real)
    requires Tight(b, h) && now >= b.last && n > 0.0
    ensures Attempt(b, now, n).1 <==>
      forall s: real :: h[0].at <= s <= now ==> GrantedSince(h, s) + n <= b.burst + b.rate * (now - s)
  {
    hide Attempt, WindowAdmits, GrantedSince;
    GrantedIffWindowAdmits(b, h, now, n);
    hide Tight;
    if WindowAdmits(b.rate, b.burst, h, now, n) {
      Admitted(b.rate, b.burst, h, now, n);
    } else {
      var s := NotAdmitted(b.rate, b.burst, h, now, n);
    }
  }

  lemma RoomIs(rate: real, burst: real, h: seq<Event>, s: real, t: real)
    ensures Room(rate, burst, h, s, t) == burst + rate * (t - s) - GrantedSince(h, s)
  {
    hide GrantedSince;
  }

  lemma AttemptIsTight(b: Bucket, h: seq<Event>, now: real, n: real)
    requires Tight(b, h) && now >= b.last && n > 0.0
    ensures var (c, ok) := Attempt(b, now, n);
      && Tight(c, h + [Event(now, if ok then n else 0.0)])
      && (ok ==> c.tokens >= 0.0) && c.rate == b.rate && c.burst == b.burst
  {
    hide Flow;
    RefilledIsTight(b, h, now);
    if Refilled(b, now).tokens >= n {
      GrantIsTight(Refilled(b, now), h, n);
    }
  }

  /** Refilling on the way is forgotten: reading the level, or a rejected attempt,
  changes no later outcome and no later state. */
  lemma RefillingIsForgotten(b: Bucket, t: real, u: real, n: real)
    requires b.rate > 0.0 && b.last <= t <= u
    ensures Refilled(Refilled(b, t), u) == Refilled(b, u)
    ensures Attempt(Refilled(b, t), u, n) == Attempt(b, u, n)
  {
    hide Flow;
    FlowAdds(b.rate, t - b.last, u - t);
    FlowAdds(b.rate, u - t, 0.0);
  }

  /** Every window inside the history stays within burst + rate x length, wherever it
  starts and at whichever event it ends. */
  ghost predicate Conforming(rate: real, burst: real, h: seq<Event>) {
    forall k: nat, s: real :: 0 < k <= |h| && h[0].at <= s <= h[k - 1].at ==> WindowHolds(rate, burst, h[..k], s)
  }

  predicate WindowHolds(rate: real, burst: real, h: seq<Event>, s: real)
    requires h != []
  {
    GrantedSince(h, s) <= burst + Flow(rate, h[|h| - 1].at - s)
  }

  lemma ConformingOneMore(b: Bucket, h: seq<Event>, e: Event)
    requires Conforming(b.rate, b.burst, h)
    requires Tight(b, h + [e]) && b.tokens >= 0.0
    ensures Conforming(b.rate, b.burst, h + [e])
  {
    hide Flow;
    var longer := h + [e];
    forall k: nat, s: real | 0 < k <= |longer| && longer[0].at <= s <= longer[k - 1].at
      ensures WindowHolds(b.rate, b.burst, longer[..k], s)
    {
      if k <= |h| {
        assert longer[..k] == h[..k];
      } else {
        assert longer[..k] == longer;
        assert b.tokens <= Room(b.rate, b.burst, longer, s, b.last);
      }
    }
  }

  // -- The class ---------------------------------------------------------------------

  class TokenBucket {
    const rate: real
    const burst: real
    var tokens: real
    var lastRefill: real

    ghost var history: seq<Event>

    ghost predicate Valid()
      reads this
    {
      burst > 0.0 && tokens >= 0.0 && Tight(View(), history) && Conforming(rate, burst, history)
    }

    ghost function View(): Bucket
      reads this
    {
      Bucket(rate, burst, tokens, lastRefill)
    }

    constructor Fresh(rate: real, burst: real, now: real)
      requires rate > 0.0 && burst > 0.0
      ensures Valid() && View() == Bucket(rate, burst, burst, now) && history == [Event(now, 0.0)]
    {
      this.rate, this.burst := rate, burst;
      this.tokens, this.lastRefill := burst, now;
      this.history := [Event(now, 0.0)];
      new;
      StartIsTight(rate, burst, now);
      assert history == [] + [Event(now, 0.0)];
      ConformingOneMore(View(), [], Event(now, 0.0));
    }

    /** The checked constructor: nothing unless the rate, and the burst if given, are
    positive; the burst defaults to the rate. */
    static method Create(rate: real, burst: Option<int>, now: real) returns (r: Option<TokenBucket>)
      ensures r.None? <==> rate <= 0.0 || (burst.Some? && burst.value <= 0)
      ensures r.Some? ==> fresh(r.value) && r.value.Valid() && r.value.rate == rate
      ensures r.Some? ==> r.value.tokens == r.value.burst == if burst.Some? then burst.value as real else rate
    {
      if rate <= 0.0 || (burst.Some? && burst.value <= 0) {
        return None;
      }
      var bucket := new TokenBucket.Fresh(rate, if burst.Some? then burst.value as real else rate, now);
      return Some(bucket);
    }

    method Refill(now: real)
      requires Valid() && now >= lastRefill
      modifies this`tokens, this`lastRefill, this`history
      ensures Valid() && View() == Refilled(old(View()), now)
      ensures history == old(history) + [Event(now, 0.0)]
    {
      RefilledIsTight(View(), history, now);
      FlowAdds(rate, now - lastRefill, 0.0);
      var elapsed := now - lastRefill;
      tokens := Min(burst, tokens + Flow(rate, elapsed));
      lastRefill := now;
      ConformingOneMore(View(), history, Event(now, 0.0));
      history := history + [Event(now, 0.0)];
    }

    /** A non-blocking attempt; a request for nothing succeeds without looking. */
    method TryAcquire(n: real, now: real) returns (ok: bool)
      requires Valid() && now >= lastRefill
      modifies this`tokens, this`lastRefill, this`history
      ensures Valid()
      ensures n <= 0.0 ==> ok && View() == old(View()) && history == old(history)
      ensures n > 0.0 ==> (ok <==> WindowAdmits(rate, burst, old(history), now, n))
      ensures n > 0.0 ==> (View(), ok) == Attempt(old(View()), now, n)
      ensures n > 0.0 ==> history == old(history) + [Event(now, if ok then n else 0.0)]
    {
      hide Flow, Tight, WindowAdmits, Conforming;
      if n <= 0.0 {
        return true;
      }
      LevelWithinBurst(View(), history);
      GrantedIffWindowAdmits(View(), history, now, n);
      ghost var before := history;
      Refill(now);
      if tokens >= n {
        GrantIsTight(View(), before, n);
        tokens := tokens - n;
        ConformingOneMore(View(), before, Event(now, n));
        history := before + [Event(now, n)];
        return true;
      }
      return false;
    }

    method AvailableTokens(now: real) returns (level: real)
      requires Valid() && now >= lastRefill
      modifies this`tokens, this`lastRefill, this`history
      ensures Valid() && level == tokens && View() == Refilled(old(View()), now)
      ensures history == old(history) + [Event(now, 0.0)]
    {
      Refill(now);
      level := tokens;
    }

    /** The blocking form with nobody else around, given how late each sleep wakes up;
    `None` says that it is still waiting when the given wake-ups are used up. It needs
    at most one sleep if the request fits the burst, and never returns otherwise. */
    method Acquire(n: real, now: real, late: seq<real>) returns (wait: Option<real>)
      requires Valid() && now >= lastRefill
      requires forall i :: 0 <= i < |late| ==> late[i] >= 0.0
      modifies this`tokens, this`lastRefill, this`history
      ensures Valid()
      ensures n <= 0.0 ==> wait == Some(0.0) && View() == old(View())
      ensures n > 0.0 && late != [] ==> (wait.Some? <==> n <= burst)
      ensures n > burst ==> wait.None?
      ensures n > 0.0 && Refilled(old(View()), now).tokens >= n ==> wait == Some(0.0)
      ensures n > 0.0 && wait.Some? && Refilled(old(View()), now).tokens < n ==>
        rate * wait.value == n - Refilled(old(View()), now).tokens
    {
      hide Flow, Tight, WindowAdmits, Conforming;
      if n <= 0.0 {
        return Some(0.0);
      }
      var t, waited := now, 0.0;
      var i := 0;
      ghost var first := Refilled(View(), now).tokens;
      while true
        invariant 0 <= i <= |late| && Valid() && t >= lastRefill
        invariant i == 0 ==> View() == old(View()) && t == now && waited == 0.0
        invariant i > 0 ==> first < n
        invariant i == 1 ==> Refilled(View(), t).tokens == Min(burst, first + Flow(rate, t - lastRefill))
        invariant i == 1 ==> Flow(rate, waited) == n - first && t - lastRefill >= waited
        invariant i > 1 ==> n > burst
        decreases |late| - i
      {
        LevelWithinBurst(View(), history);
        LevelAfter(View(), t, n, waited, first, i);
        var ok := TryAcquire(n, t);
        if ok {
          FlowIs(rate, waited);
          return Some(waited);
        }
        if i == |late| {
          return None;
        }
        var sleepFor := (n - tokens) / rate;
        TimeToFill(rate, n - tokens);
        t := t + sleepFor + late[i];
        waited := waited + sleepFor;
        i := i + 1;
      }
    }

    static lemma LevelWithinBurst(b: Bucket, h: seq<Event>)
      requires Tight(b, h)
      ensures b.tokens <= b.burst && b.rate > 0.0 && h != []
    {}

    static lemma FlowIs(rate: real, dt: real)
      ensures Flow(rate, dt) == rate * dt
    {}

    static lemma TimeToFill(rate: real, deficit: real)
      requires rate > 0.0 && deficit > 0.0
      ensures deficit / rate > 0.0 && Flow(rate, deficit / rate) == deficit
    {}

    static lemma LevelAfter(b: Bucket, t: real, n: real, waited: real, first: real, i: nat)
      requires b.rate > 0.0 && b.tokens <= b.burst && b.last <= t
      requires i == 1 ==> Refilled(b, t).tokens == Min(b.burst, first + Flow(b.rate, t - b.last))
      requires i == 1 ==> Flow(b.rate, waited) == n - first && t - b.last >= waited
      ensures Refilled(b, t).tokens <= b.burst
      ensures i == 1 && n <= b.burst ==> Refilled(b, t).tokens >= n
    {
      if i == 1 {
        FlowAdds(b.rate, waited, t - b.last - waited);
        FlowAdds(b.rate, t - b.last - waited, 0.0);
      }
    }
  }
}
