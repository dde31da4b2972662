/** The pool of long-lived engines, one per page, evicting the least recently used. Looking a
page up takes two comparisons: the dictionary is keyed by the page's address, which a new
page may inherit from a dead one, and the entry remembers which page it is for. */
module EnginePools {

  import Positions
  import opened Recency

  type Address = nat

  datatype Page = Page(address: Address, self: nat)

  /** An engine is named by the number of engines made before it. */
  type Engine = nat

  datatype Slot = Slot(page: Page, engine: Engine, uses: nat)

  // Stamped with the last use.
  type Entry = Stamped<Slot>

  // -- The pool on values --------------------------------------------------------------------------

  /** The entries in their order of insertion, and the counters. */
  datatype Pool = Pool(entries: seq<Entry>, hits: nat, misses: nat, evictions: nat)

  const EMPTY := Pool([], 0, 0, 0)

  /** The position of an address, or the length if it has no entry. */
  function Find(es: seq<Entry>, address: Address): (i: nat)
    ensures i <= |es|
    ensures i < |es| ==> es[i].item.page.address == address
    ensures forall j :: 0 <= j < i ==> es[j].item.page.address != address
  {
    if es == [] then 0
    else if es[0].item.page.address == address then 0
    else 1 + Find(es[1..], address)
  }

  function Evicted(p: Pool, address: Address): Pool {
    var i := Find(p.entries, address);
    if i < |p.entries| then p.(entries := RemoveAt(p.entries, i), evictions := p.evictions + 1) else p
  }

  /** How many entries are too many. A negative limit is as bad as zero. */
  function Excess(es: seq<Entry>, maxSize: int): (n: nat)
    ensures n <= |es|
  {
    if |es| <= maxSize then 0 else if maxSize < 0 then |es| else |es| - maxSize
  }

  function Enforced(p: Pool, maxSize: int): Pool {
    var n := Excess(p.entries, maxSize);
    p.(entries := DropOldest(p.entries, n), evictions := p.evictions + n)
  }

  function Touched(e: Entry, now: real): Entry {
    e.(at := now, item := e.item.(uses := e.item.uses + 1))
  }

  /** The pool after a page asked for its engine, and the engine it got. */
  function Got(p: Pool, page: Page, now: real, maxSize: int): (after: (Pool, Engine)) {
    var i := Find(p.entries, page.address);
    if i < |p.entries| && p.entries[i].item.page == page then
      (p.(entries := p.entries[i := Touched(p.entries[i], now)], hits := p.hits + 1), p.entries[i].item.engine)
    else
      var q := Evicted(p, page.address);
      var made := Stamped(Slot(page, q.misses, 0), now);
      (Enforced(q.(entries := q.entries + [made], misses := q.misses + 1), maxSize), q.misses)
  }

  /** The entries idle for no longer than the time to live. */
  function Lively(es: seq<Entry>, now: real, ttl: real): seq<Entry> {
    if es == [] then []
    else if now - es[0].at > ttl then Lively(es[1..], now, ttl)
    else [es[0]] + Lively(es[1..], now, ttl)
  }

  function Collected(p: Pool, now: real, ttl: real): (q: Pool)
    requires |Lively(p.entries, now, ttl)| <= |p.entries|
  {
    var kept := Lively(p.entries, now, ttl);
    p.(entries := kept, evictions := p.evictions + |p.entries| - |kept|)
  }

  lemma {:induction false} LivelyIsASelection(es: seq<Entry>, now: real, ttl: real)
    ensures |Lively(es, now, ttl)| <= |es| && Subsequence(Lively(es, now, ttl), es)
    ensures forall e :: e in Lively(es, now, ttl) <==> e in es && now - e.at <= ttl
  {
    if es != [] {
      LivelyIsASelection(es[1..], now, ttl);
      assert es == [es[0]] + es[1..];
    }
  }

  /** The addresses of the entries that have been idle for longer. */
  function Stale(es: seq<Entry>, now: real, ttl: real): seq<Address> {
    if es == [] then []
    else (if now - es[0].at > ttl then [es[0].item.page.address] else []) + Stale(es[1..], now, ttl)
  }

  lemma {:induction false} StaleAndLively(es: seq<Entry>, now: real, ttl: real)
    ensures |Stale(es, now, ttl)| + |Lively(es, now, ttl)| == |es|
    ensures Stale(es, now, ttl) == [] ==> Lively(es, now, ttl) == es
    ensures forall a :: a in Stale(es, now, ttl) ==> exists e :: e in es && e.item.page.address == a
  {
    if es != [] {
      StaleAndLively(es[1..], now, ttl);
      assert es == [es[0]] + es[1..];
    }
  }

  /** Evicting the first stale address leaves the other stale ones and the lively ones. */
  lemma {:induction false} FirstStale(es: seq<Entry>, now: real, ttl: real, engines: nat, clock: real)
    requires Orderly(es, engines, clock) && Stale(es, now, ttl) != []
    ensures var i := Find(es, Stale(es, now, ttl)[0]);
      && i < |es|
      && Stale(RemoveAt(es, i), now, ttl) == Stale(es, now, ttl)[1..]
      && Lively(RemoveAt(es, i), now, ttl) == Lively(es, now, ttl)
  {
    hide Orderly;
    if now - es[0].at > ttl {
      assert RemoveAt(es, 0) == es[1..];
    } else {
      var rest := es[1..];
      OrderlyTail(es, engines, clock);
      FirstStale(rest, now, ttl, engines, clock);
      var i := Find(rest, Stale(rest, now, ttl)[0]);
      assert rest[i] in rest;
      assert Find(es, Stale(es, now, ttl)[0]) == i + 1;
      var fewer := RemoveAt(es, i + 1);
      assert fewer[0] == es[0] && fewer[1..] == RemoveAt(rest, i);
    }
  }

  lemma OrderlyTail(es: seq<Entry>, engines: nat, clock: real)
    requires es != [] && Orderly(es, engines, clock)
    ensures Orderly(es[1..], engines, clock)
    ensures forall e :: e in es[1..] ==> e.item.page.address != es[0].item.page.address
  {
    assert forall k :: 0 <= k < |es[1..]| ==> es[1..][k] == es[k + 1];
  }

  // -- Runs ------------------------------------------------------------------------------------------

  datatype Call = Get(page: Page, now: real) | Release(page: Page) | ReleaseAll | Gc(now: real)

  function After(p: Pool, c: Call, maxSize: int, ttl: real): Pool {
    match c
    case Get(page, now) => Got(p, page, now, maxSize).0
    case Release(page) => Evicted(p, page.address)
    case ReleaseAll => p.(entries := [], evictions := p.evictions + |p.entries|)
    case Gc(now) =>
      LivelyIsASelection(p.entries, now, ttl);
      Collected(p, now, ttl)
  }

  function Run(p: Pool, cs: seq<Call>, maxSize: int, ttl: real): Pool {
    if cs == [] then p else After(Run(p, cs[..|cs| - 1], maxSize, ttl), cs[|cs| - 1], maxSize, ttl)
  }

  /** The clock as far as the pool has seen it. Only `Get` reads it under the lock, so only
  those readings are in order. */
  function Clock(start: real, cs: seq<Call>): real {
    if cs == [] then start
    else match cs[|cs| - 1]
      case Get(_, now) => now
      case _ => Clock(start, cs[..|cs| - 1])
  }

  predicate InOrder(start: real, cs: seq<Call>) {
    cs == [] || (InOrder(start, cs[..|cs| - 1])
                 && (cs[|cs| - 1].Get? ==> Clock(start, cs[..|cs| - 1]) <= cs[|cs| - 1].now))
  }

  function Capacity(maxSize: int): nat {
    if maxSize < 0 then 0 else maxSize
  }

  /** What holds between calls: the size is accounted for and bounded, every page and every
  engine has at most one entry, and nothing is newer than the clock. */
  ghost predicate Sound(p: Pool, maxSize: int, clock: real) {
    && |p.entries| == p.misses - p.evictions
    && |p.entries| <= Capacity(maxSize)
    && Orderly(p.entries, p.misses, clock)
  }

  ghost predicate Orderly(es: seq<Entry>, engines: nat, clock: real) {
    && (forall e :: e in es ==> e.item.engine < engines && e.at <= clock)
    && forall i, j :: 0 <= i < j < |es| ==>
      es[i].item.page.address != es[j].item.page.address && es[i].item.engine != es[j].item.engine
  }

  lemma {:induction false} SelectionIsOrderly(part: seq<Entry>, whole: seq<Entry>, engines: nat, clock: real)
    requires Subsequence(part, whole) && Orderly(whole, engines, clock)
    ensures Orderly(part, engines, clock) && forall e :: e in part ==> e in whole
    decreases |whole|
  {
    if part != [] {
      assert whole == [whole[0]] + whole[1..] && part == [part[0]] + part[1..];
      if part[0] == whole[0] && Subsequence(part[1..], whole[1..]) {
        SelectionIsOrderly(part[1..], whole[1..], engines, clock);
        assert forall k :: 0 < k < |whole| ==> whole[1..][k - 1] == whole[k];
        assert forall k :: 0 < k < |part| ==> part[k] == part[1..][k - 1] && part[k] in whole[1..];
      } else {
        SelectionIsOrderly(part, whole[1..], engines, clock);
      }
    }
  }

  lemma EvictedIsSound(p: Pool, address: Address, maxSize: int, clock: real)
    requires Sound(p, maxSize, clock)
    ensures var q := Evicted(p, address);
      && Sound(q, maxSize, clock) && q.misses == p.misses
      && (forall e :: e in q.entries <==> e in p.entries && e.item.page.address != address)
  {
    hide Subsequence;
    var i := Find(p.entries, address);
    if i < |p.entries| {
      var q := RemoveAt(p.entries, i);
      RemoveOne(p.entries, i);
      SelectionIsOrderly(q, p.entries, p.misses, clock);
      forall e
        ensures e in q <==> e in p.entries && e.item.page.address != address
      {
        MembersWithout(p.entries, i, e);
        OnlyOnce(p.entries, i, e, p.misses, clock);
      }
    }
  }

  lemma OnlyOnce(es: seq<Entry>, i: nat, e: Entry, engines: nat, clock: real)
    requires i < |es| && Orderly(es, engines, clock)
    ensures e in RemoveAt(es, i) ==> e.item.page.address != es[i].item.page.address
  {
    if e in RemoveAt(es, i) {
      var k :| 0 <= k < |es| - 1 && RemoveAt(es, i)[k] == e;
      assert e == es[if k < i then k else k + 1];
    }
  }

  /** The pool just before the capacity is enforced on a miss. */
  function Inserted(p: Pool, page: Page, now: real): Pool {
    var q := Evicted(p, page.address);
    q.(entries := q.entries + [Stamped(Slot(page, q.misses, 0), now)], misses := q.misses + 1)
  }

  lemma InsertedIsOrderly(p: Pool, page: Page, now: real, maxSize: int, clock: real)
    requires Sound(p, maxSize, clock) && clock <= now
    ensures var r := Inserted(p, page, now);
      Orderly(r.entries, r.misses, now) && |r.entries| == r.misses - r.evictions && |r.entries| <= Capacity(maxSize) + 1
  {
    EvictedIsSound(p, page.address, maxSize, clock);
    var q, r := Evicted(p, page.address), Inserted(p, page, now);
    assert forall i :: 0 <= i < |q.entries| ==> q.entries[i] in q.entries;
    assert forall e :: e in r.entries ==> e in q.entries || e == Stamped(Slot(page, q.misses, 0), now);
  }

  lemma EnforcedIsSound(r: Pool, maxSize: int, clock: real)
    requires Orderly(r.entries, r.misses, clock) && |r.entries| == r.misses - r.evictions
    ensures Sound(Enforced(r, maxSize), maxSize, clock)
  {
    hide Subsequence, DropOldest, Orderly;
    var n := Excess(r.entries, maxSize);
    DropOldestIsByAge(r.entries, n);
    SelectionIsOrderly(DropOldest(r.entries, n), r.entries, r.misses, clock);
  }

  lemma GotByMiss(p: Pool, page: Page, now: real, maxSize: int)
    ensures var i := Find(p.entries, page.address);
      i == |p.entries| || p.entries[i].item.page != page ==>
        Got(p, page, now, maxSize) == (Enforced(Inserted(p, page, now), maxSize), p.misses)
  {}

  lemma GotByHit(p: Pool, page: Page, now: real, maxSize: int)
    ensures var i := Find(p.entries, page.address);
      i < |p.entries| && p.entries[i].item.page == page ==>
        Got(p, page, now, maxSize) ==
        (p.(entries := p.entries[i := Touched(p.entries[i], now)], hits := p.hits + 1), p.entries[i].item.engine)
  {}

  lemma GetIsSound(p: Pool, page: Page, now: real, maxSize: int, clock: real)
    requires Sound(p, maxSize, clock) && clock <= now
    ensures Sound(Got(p, page, now, maxSize).0, maxSize, now)
  {
    hide Got, Enforced, Inserted, Orderly;
    var i := Find(p.entries, page.address);
    GotByHit(p, page, now, maxSize);
    GotByMiss(p, page, now, maxSize);
    if i < |p.entries| && p.entries[i].item.page == page {
      TouchedIsOrderly(p.entries, i, now, p.misses, clock);
    } else {
      InsertedIsOrderly(p, page, now, maxSize, clock);
      EnforcedIsSound(Inserted(p, page, now), maxSize, now);
    }
  }

  /** Every call keeps the pool sound. */
  lemma CallIsSound(p: Pool, c: Call, maxSize: int, ttl: real, clock: real)
    requires Sound(p, maxSize, clock)
    requires c.Get? ==> clock <= c.now
    ensures Sound(After(p, c, maxSize, ttl), maxSize, if c.Get? then c.now else clock)
  {
    match c
    case Get(page, now) =>
      hide Sound, Got;
      GetIsSound(p, page, now, maxSize, clock);
    case Release(page) =>
      EvictedIsSound(p, page.address, maxSize, clock);
    case ReleaseAll =>
    case Gc(now) =>
      hide Orderly, Subsequence, Lively;
      LivelyIsASelection(p.entries, now, ttl);
      SelectionIsOrderly(Lively(p.entries, now, ttl), p.entries, p.misses, clock);
  }

  lemma TouchedIsOrderly(es: seq<Entry>, i: nat, now: real, engines: nat, clock: real)
    requires i < |es| && clock <= now && Orderly(es, engines, clock)
    ensures Orderly(es[i := Touched(es[i], now)], engines, now)
  {
    var fs := es[i := Touched(es[i], now)];
    assert forall j :: 0 <= j < |es| ==>
      es[j] in es && fs[j].item.page == es[j].item.page && fs[j].item.engine == es[j].item.engine;
  }

  /** Over every run the size is misses minus evictions and stays within the limit. */
  lemma {:induction false} RunIsSound(cs: seq<Call>, maxSize: int, ttl: real, start: real)
    requires InOrder(start, cs)
    ensures var p := Run(EMPTY, cs, maxSize, ttl);
      Sound(p, maxSize, Clock(start, cs)) && |p.entries| == p.misses - p.evictions && |p.entries| <= Capacity(maxSize)
  {
    if cs != [] {
      var before := cs[..|cs| - 1];
      RunIsSound(before, maxSize, ttl, start);
      CallIsSound(Run(EMPTY, before, maxSize, ttl), cs[|cs| - 1], maxSize, ttl, Clock(start, before));
    }
  }

  // -- What the counters and the stamps say --------------------------------------------------------

  /** The positions of the calls that asked for an engine. */
  function Gets(cs: seq<Call>): set<nat> {
    set i: nat | 0 <= i < |cs| && cs[i].Get?
  }

  lemma GetsOneMore(cs: seq<Call>)
    requires cs != []
    ensures |Gets(cs)| == |Gets(cs[..|cs| - 1])| + if cs[|cs| - 1].Get? then 1 else 0
  {
    var last: nat := |cs| - 1;
    Positions.OneMore(Gets(cs[..last]), Gets(cs), last, false, cs[last].Get?);
  }

  lemma CallCounts(p: Pool, c: Call, maxSize: int, ttl: real)
    ensures var q := After(p, c, maxSize, ttl);
      q.hits + q.misses == p.hits + p.misses + if c.Get? then 1 else 0
  {
    hide Find, DropOldest, Lively;
  }

  /** Over every run, hits and misses together are the calls that asked for an engine. */
  lemma {:induction false} HitsAndMissesAreGets(cs: seq<Call>, maxSize: int, ttl: real)
    ensures var p := Run(EMPTY, cs, maxSize, ttl); p.hits + p.misses == |Gets(cs)|
  {
    hide Gets, After;
    if cs == [] {
      NoGets(cs);
    } else {
      HitsAndMissesAreGets(cs[..|cs| - 1], maxSize, ttl);
      GetsOneMore(cs);
      CallCounts(Run(EMPTY, cs[..|cs| - 1], maxSize, ttl), cs[|cs| - 1], maxSize, ttl);
    }
  }

  lemma NoGets(cs: seq<Call>)
    requires cs == []
    ensures Gets(cs) == {}
  {}

  /** A miss makes just enough room: it leaves as many entries as the limit allows, and never
  fewer than that while there are more to keep. A hit leaves as many as there were. */
  lemma SizeAfterGet(p: Pool, page: Page, now: real, maxSize: int)
    ensures var found := exists e :: e in p.entries && e.item.page.address == page.address;
      var wanted := |p.entries| + if found then 0 else 1;
      var q := Got(p, page, now, maxSize).0;
      |q.entries| == if q.hits > p.hits || wanted <= Capacity(maxSize) then wanted else Capacity(maxSize)
  {
    hide DropOldest, Subsequence;
    var i := Find(p.entries, page.address);
    if i < |p.entries| {
      assert p.entries[i] in p.entries;
      assert exists e :: e in p.entries && e.item.page.address == page.address;
    } else {
      assert !exists e :: e in p.entries && e.item.page.address == page.address;
    }
    var r := Inserted(p, page, now);
    DropOldestIsByAge(r.entries, Excess(r.entries, maxSize));
  }

  /** Where an entry comes from: a page that asks has its entry stamped with the time, with one
  more use or as a new one; all other entries are as before. */
  predicate ComesFrom(p: Pool, c: Call, e: Entry) {
    if c.Get? && c.page == e.item.page then
      e.at == c.now && (e.item == Slot(c.page, p.misses, 0) || UsedOnceMore(p, e.item))
    else e in p.entries
  }

  predicate UsedOnceMore(p: Pool, s: Slot) {
    exists e :: e in p.entries && e.item.page == s.page && e.item.engine == s.engine && s.uses == e.item.uses + 1
  }

  lemma EntriesComeFrom(p: Pool, c: Call, maxSize: int, ttl: real, clock: real)
    requires Sound(p, maxSize, clock)
    ensures forall e :: e in After(p, c, maxSize, ttl).entries ==> ComesFrom(p, c, e)
  {
    var q := After(p, c, maxSize, ttl);
    match c
    case Get(page, now) =>
      var i := Find(p.entries, page.address);
      if i < |p.entries| && p.entries[i].item.page == page {
        TouchedComesFrom(p, page, now, maxSize, clock);
      } else {
        hide DropOldest, Subsequence, Got, Evicted, Orderly;
        GotByMiss(p, page, now, maxSize);
        EvictedIsSound(p, page.address, maxSize, clock);
        var r := Inserted(p, page, now);
        DropOldestIsByAge(r.entries, Excess(r.entries, maxSize));
        assert forall e :: e in r.entries ==>
          e in Evicted(p, page.address).entries || e == Stamped(Slot(page, p.misses, 0), now);
      }
    case Release(page) => EvictedIsSound(p, page.address, maxSize, clock);
    case ReleaseAll =>
    case Gc(now) => LivelyIsASelection(p.entries, now, ttl);
  }

  lemma TouchedComesFrom(p: Pool, page: Page, now: real, maxSize: int, clock: real)
    requires Sound(p, maxSize, clock)
    requires var i := Find(p.entries, page.address); i < |p.entries| && p.entries[i].item.page == page
    ensures forall e :: e in Got(p, page, now, maxSize).0.entries ==> ComesFrom(p, Get(page, now), e)
  {
    var i, q := Find(p.entries, page.address), Got(p, page, now, maxSize).0;
    GotByHit(p, page, now, maxSize);
    hide Got;
    forall e | e in q.entries
      ensures ComesFrom(p, Get(page, now), e)
    {
      var j :| 0 <= j < |q.entries| && q.entries[j] == e;
      assert p.entries[j] in p.entries && p.entries[i] in p.entries;
      if j != i {
        assert p.entries[j].item.page.address != page.address;
      }
    }
  }

  /** The last call that asked for the page's engine stands at `i`. */
  predicate LastGet(cs: seq<Call>, page: Page, i: nat) {
    && i < |cs| && cs[i].Get? && cs[i].page == page
    && forall j :: i < j < |cs| && cs[j].Get? ==> cs[j].page != page
  }

  lemma LastGetStays(cs: seq<Call>, page: Page, i: nat)
    requires cs != [] && LastGet(cs[..|cs| - 1], page, i)
    requires cs[|cs| - 1].Get? ==> cs[|cs| - 1].page != page
    ensures LastGet(cs, page, i) && cs[i] == cs[..|cs| - 1][i]
  {
    var before := cs[..|cs| - 1];
    assert forall j :: 0 <= j < |before| ==> before[j] == cs[j];
  }

  /** Over every run, an entry is stamped with the time at which its page last asked. */
  lemma {:induction false} StampIsTheLastGet(cs: seq<Call>, maxSize: int, ttl: real, start: real, e: Entry)
    returns (i: nat)
    requires InOrder(start, cs) && e in Run(EMPTY, cs, maxSize, ttl).entries
    ensures LastGet(cs, e.item.page, i) && cs[i].now == e.at
  {
    hide Sound, After, LastGet;
    RunOfNone(maxSize, ttl);
    var before, c := cs[..|cs| - 1], cs[|cs| - 1];
    RunIsSound(before, maxSize, ttl, start);
    EntriesComeFrom(Run(EMPTY, before, maxSize, ttl), c, maxSize, ttl, Clock(start, before));
    if c.Get? && c.page == e.item.page {
      i := |cs| - 1;
      LastIsLast(cs);
    } else {
      i := StampIsTheLastGet(before, maxSize, ttl, start, e);
      LastGetStays(cs, e.item.page, i);
    }
  }

  lemma RunOfNone(maxSize: int, ttl: real)
    ensures Run(EMPTY, [], maxSize, ttl) == EMPTY
  {}

  lemma LastIsLast(cs: seq<Call>)
    requires cs != [] && cs[|cs| - 1].Get?
    ensures LastGet(cs, cs[|cs| - 1].page, |cs| - 1)
  {}

  /** What a miss on a full pool costs after every run: an entry whose page last asked no later
  than the page of any entry that stays. */
  lemma {:induction false} EvictsTheLeastRecentlyAsked(
    cs: seq<Call>, page: Page, now: real, maxSize: int, ttl: real, start: real, d: Entry, k: Entry
  )
    returns (i: nat, j: nat)
    requires InOrder(start, cs)
    requires var p := Run(EMPTY, cs, maxSize, ttl);
      var q := Got(p, page, now, maxSize).0;
      && Find(p.entries, page.address) == |p.entries|
      && d in p.entries && d !in q.entries && k in p.entries && k in q.entries
    ensures LastGet(cs, d.item.page, i) && LastGet(cs, k.item.page, j) && cs[i].now <= cs[j].now
  {
    hide Run, Got, Find, LastGet;
    i := StampIsTheLastGet(cs, maxSize, ttl, start, d);
    j := StampIsTheLastGet(cs, maxSize, ttl, start, k);
    EvictsTheLeastRecentlyUsed(Run(EMPTY, cs, maxSize, ttl), page, now, maxSize, d, k);
  }

  // -- Which engine a page gets -----------------------------------------------------------------------

  ghost predicate Pooled(p: Pool, page: Page, engine: Engine) {
    exists e :: e in p.entries && e.item.page == page && e.item.engine == engine
  }

  ghost predicate InUse(p: Pool, engine: Engine) {
    exists e :: e in p.entries && e.item.engine == engine
  }

  /** The newest entry is never the one to go, unless it is alone. */
  lemma {:induction false} NewestStays(es: seq<Entry>, n: nat)
    requires n < |es| && forall e :: e in es ==> e.at <= es[|es| - 1].at
    ensures es[|es| - 1] in DropOldest(es, n)
    decreases n
  {
    if n > 0 {
      var i, last := Oldest(es), es[|es| - 1];
      assert es[0] in es;
      assert i < |es| - 1;
      var fewer := RemoveAt(es, i);
      assert fewer[|fewer| - 1] == last;
      forall e | e in fewer
        ensures e in es
      {
        MembersWithout(es, i, e);
      }
      NewestStays(fewer, n - 1);
    }
  }

  /** A miss on a full pool costs an entry that nobody used later than any that stays. */
  lemma {:induction false} EvictsTheLeastRecentlyUsed(p: Pool, page: Page, now: real, maxSize: int, d: Entry, k: Entry)
    requires Find(p.entries, page.address) == |p.entries|
    requires var q := Got(p, page, now, maxSize).0;
      d in p.entries && d !in q.entries && k in q.entries
    ensures d.at <= k.at
    ensures |p.entries| >= maxSize
  {
    hide DropOldest, Subsequence;
    var r := Inserted(p, page, now);
    DropOldestIsByAge(r.entries, Excess(r.entries, maxSize));
    assert d in r.entries;
    if Excess(r.entries, maxSize) == 0 {
      NoneTooMany(r.entries);
    }
  }

  /** The engine just handed out is pooled for its page, unless the pool may hold none. */
  lemma {:induction false} JustReturnedIsPooled(p: Pool, page: Page, now: real, maxSize: int, clock: real)
    requires Sound(p, maxSize, clock) && clock <= now
    ensures var (q, engine) := Got(p, page, now, maxSize);
      Pooled(q, page, engine) <==> maxSize >= 1
  {
    var (q, engine) := Got(p, page, now, maxSize);
    var i := Find(p.entries, page.address);
    if i < |p.entries| && p.entries[i].item.page == page {
      assert q.entries[i].item.page == page && q.entries[i] in q.entries;
    } else {
      var r := Inserted(p, page, now);
      InsertedIsOrderly(p, page, now, maxSize, clock);
      var n := Excess(r.entries, maxSize);
      if maxSize >= 1 {
        hide DropOldest;
        NewestStays(r.entries, n);
        assert r.entries[|r.entries| - 1] in q.entries;
      } else {
        EnforcedIsSound(r, maxSize, now);
        assert q.entries == [];
      }
    }
  }

  /** A page gets an engine again exactly when that engine is still pooled for it. */
  lemma {:induction false} SameEngineIffPooled(
    p: Pool, page: Page, engine: Engine, now: real, maxSize: int, clock: real
  )
    requires Sound(p, maxSize, clock) && engine < p.misses
    ensures Got(p, page, now, maxSize).1 == engine <==> Pooled(p, page, engine)
  {
    var i := Find(p.entries, page.address);
    if Pooled(p, page, engine) {
      var e :| e in p.entries && e.item.page == page && e.item.engine == engine;
      var j :| 0 <= j < |p.entries| && p.entries[j] == e;
      assert i == j;
    }
  }

  /** One call leaves an engine with its page or takes it out for good. */
  lemma EngineStaysWithItsPage(p: Pool, c: Call, engine: Engine, maxSize: int, ttl: real, clock: real)
    requires Sound(p, maxSize, clock) && engine < p.misses
    ensures var q := After(p, c, maxSize, ttl);
      && p.misses <= q.misses
      && forall e :: e in q.entries && e.item.engine == engine ==> Pooled(p, e.item.page, engine)
  {
    var q := After(p, c, maxSize, ttl);
    match c
    case Get(page, now) =>
      var i := Find(p.entries, page.address);
      if i < |p.entries| && p.entries[i].item.page == page {
        forall e | e in q.entries && e.item.engine == engine
          ensures Pooled(p, e.item.page, engine)
        {
          var j :| 0 <= j < |q.entries| && q.entries[j] == e;
          assert p.entries[j] in p.entries && p.entries[j].item.page == e.item.page;
        }
      } else {
        hide DropOldest, Subsequence, Got, Evicted, Orderly;
        GotByMiss(p, page, now, maxSize);
        var r := Inserted(p, page, now);
        EvictedIsSound(p, page.address, maxSize, clock);
        DropOldestIsByAge(r.entries, Excess(r.entries, maxSize));
        assert forall e :: e in r.entries && e.item.engine == engine ==> e in p.entries;
      }
    case Release(page) =>
      EvictedIsSound(p, page.address, maxSize, clock);
    case ReleaseAll =>
    case Gc(now) =>
      LivelyIsASelection(p.entries, now, ttl);
  }

  lemma {:induction false} EngineNeverMoves(
    p: Pool, cs: seq<Call>, page: Page, engine: Engine, maxSize: int, ttl: real, clock: real
  )
    requires Sound(p, maxSize, clock) && InOrder(clock, cs) && engine < p.misses
    requires forall e :: e in p.entries && e.item.engine == engine ==> e.item.page == page
    ensures var q := Run(p, cs, maxSize, ttl);
      && Sound(q, maxSize, Clock(clock, cs)) && engine < q.misses
      && forall e :: e in q.entries && e.item.engine == engine ==> e.item.page == page
  {
    if cs != [] {
      var before, c := cs[..|cs| - 1], cs[|cs| - 1];
      EngineNeverMoves(p, before, page, engine, maxSize, ttl, clock);
      var q := Run(p, before, maxSize, ttl);
      CallIsSound(q, c, maxSize, ttl, Clock(clock, before));
      EngineStaysWithItsPage(q, c, engine, maxSize, ttl, Clock(clock, before));
    }
  }

  /** A page that has been given an engine is given it again after any further calls exactly
  when the engine has not been evicted, and no other page ever is. */
  lemma {:induction false} SameEngineUntilEvicted(
    p: Pool, page: Page, now: real, cs: seq<Call>, other: Page, later: real, maxSize: int, ttl: real, clock: real
  )
    requires Sound(p, maxSize, clock) && clock <= now && InOrder(now, cs)
    ensures var (q, engine) := Got(p, page, now, maxSize);
      var r := Run(q, cs, maxSize, ttl);
      Got(r, other, later, maxSize).1 == engine <==> other == page && InUse(r, engine)
  {
    var (q, engine) := Got(p, page, now, maxSize);
    var r := Run(q, cs, maxSize, ttl);
    CallIsSound(p, Get(page, now), maxSize, ttl, clock);
    assert q == After(p, Get(page, now), maxSize, ttl);
    HandedOutToThePage(p, page, now, maxSize, ttl, clock);
    EngineNeverMoves(q, cs, page, engine, maxSize, ttl, now);
    SameEngineIffPooled(r, other, engine, later, maxSize, Clock(now, cs));
  }

  lemma HandedOutToThePage(p: Pool, page: Page, now: real, maxSize: int, ttl: real, clock: real)
    requires Sound(p, maxSize, clock) && clock <= now
    ensures var (q, engine) := Got(p, page, now, maxSize);
      && engine < q.misses
      && forall e :: e in q.entries && e.item.engine == engine ==> e.item.page == page
  {
    var (q, engine) := Got(p, page, now, maxSize);
    var i := Find(p.entries, page.address);
    if i < |p.entries| && p.entries[i].item.page == page {
      assert p.entries[i] in p.entries;
    } else {
      hide DropOldest, Subsequence;
      var r := Inserted(p, page, now);
      EvictedIsSound(p, page.address, maxSize, clock);
      DropOldestIsByAge(r.entries, Excess(r.entries, maxSize));
      assert forall e :: e in r.entries && e.item.engine == engine ==> e.item.page == page;
    }
  }

  /** A page that is gone takes the entry of its successor at the same address with it. */
  lemma ReleaseGoesByAddress(p: Pool, page: Page, gone: Page, engine: Engine, maxSize: int, clock: real)
    requires Sound(p, maxSize, clock) && Pooled(p, page, engine)
    ensures Pooled(Evicted(p, gone.address), page, engine) <==> gone.address != page.address
  {
    EvictedIsSound(p, gone.address, maxSize, clock);
  }

  // -- The classes -------------------------------------------------------------------------------------

  class PoolEntry {
    const engine: Engine
    const page: Page
    var lastUsedAt: real
    var uses: nat

    function ToEntry(): Entry
      reads this
    {
      Stamped(Slot(page, engine, uses), lastUsedAt)
    }

    constructor (engine: Engine, page: Page, now: real)
      ensures ToEntry() == Stamped(Slot(page, engine, 0), now)
    {
      this.engine, this.page, lastUsedAt, uses := engine, page, now, 0;
    }

    method Touch(now: real)
      modifies this
      ensures ToEntry() == Touched(old(ToEntry()), now)
      ensures lastUsedAt == now && uses == old(uses) + 1
    {
      lastUsedAt := now;
      uses := uses + 1;
    }
  }

  class EnginePool {
    const maxSize: int
    const ttl: real
    // The dictionary by address, in its order of insertion.
    var entries: seq<PoolEntry>
    var hits: nat
    var misses: nat
    var evictions: nat

    // The last reading of the clock under the lock.
    ghost var clock: real

    ghost predicate Valid()
      reads this, entries
    {
      Sound(View(), maxSize, clock)
    }

    ghost function View(): Pool
      reads this, entries
    {
      Pool(Entries(entries), hits, misses, evictions)
    }

    static function Entries(cs: seq<PoolEntry>): (es: seq<Entry>)
      reads cs
      ensures |es| == |cs| && forall i :: 0 <= i < |es| ==> es[i] == cs[i].ToEntry()
    {
      if cs == [] then [] else Entries(cs[..|cs| - 1]) + [cs[|cs| - 1].ToEntry()]
    }

    constructor (maxSize: int, ttl: real, ghost start: real)
      ensures Valid() && View() == EMPTY && this.maxSize == maxSize && this.ttl == ttl && clock == start
    {
      this.maxSize, this.ttl, clock := maxSize, ttl, start;
      entries, hits, misses, evictions := [], 0, 0, 0;
    }

    /** The position of an address in the dictionary. */
    static method Lookup(cs: seq<PoolEntry>, address: Address) returns (i: nat)
      ensures i == Find(Entries(cs), address)
    {
      i := 0;
      while i < |cs| && cs[i].page.address != address
        invariant i <= |cs| && forall j :: 0 <= j < i ==> cs[j].page.address != address
      {
        i := i + 1;
      }
      ghost var f := Find(Entries(cs), address);
      assert f < |cs| ==> Entries(cs)[f].item.page == cs[f].page;
      assert i < |cs| ==> Entries(cs)[i].item.page == cs[i].page;
    }

    method GetOrCreate(page: Page, now: real) returns (engine: Engine)
      requires Valid() && clock <= now
      modifies this, entries
      ensures Valid() && clock == now
      ensures (View(), engine) == Got(old(View()), page, now, maxSize)
      ensures forall c :: c in entries ==> c in old(entries) || fresh(c)
    {
      hide Find, Evicted, Enforced, RemoveAt, Entries, Orderly, Sound, Got;
      GotByHit(View(), page, now, maxSize);
      GotByMiss(View(), page, now, maxSize);
      CallIsSound(View(), Get(page, now), maxSize, ttl, clock);
      SoundIsOrderly(View(), maxSize, clock);
      clock := now;
      var i := Lookup(entries, page.address);
      if i < |entries| && entries[i].page == page {
        engine := entries[i].engine;
        TouchEntry(i, now, old(clock));
        return;
      }
      if i < |entries| {
        Evict(page.address);
      } else {
        NothingToEvict(View(), page.address);
      }
      engine := AddEntry(page, now);
      EnforceCapacity();
    }

    static lemma NothingToEvict(p: Pool, address: Address)
      requires Find(p.entries, address) == |p.entries|
      ensures Evicted(p, address) == p
    {}

    method TouchEntry(i: nat, now: real, ghost before: real)
      requires i < |entries| && Orderly(Entries(entries), misses, before)
      modifies this`hits, entries[i]
      ensures View() == old(
        var p := View(); p.(entries := p.entries[i := Touched(p.entries[i], now)], hits := p.hits + 1))
    {
      hide Entries;
      ghost var es := Entries(entries);
      assert forall j :: 0 <= j < |entries| && entries[j] == entries[i] ==> es[j].item.page == es[i].item.page;
      entries[i].Touch(now);
      hits := hits + 1;
      assert Entries(entries) == es[i := Touched(es[i], now)];
    }

    method AddEntry(page: Page, now: real) returns (engine: Engine)
      modifies this`entries, this`misses
      ensures engine == old(misses)
      ensures View() == old(var p := View();
                            p.(entries := p.entries + [Stamped(Slot(page, engine, 0), now)], misses := p.misses + 1))
      ensures exists entry :: fresh(entry) && entries == old(entries) + [entry]
    {
      hide Entries;
      engine := misses;
      misses := misses + 1;
      var entry := new PoolEntry(engine, page, now);
      ghost var es := Entries(entries);
      entries := entries + [entry];
      assert Entries(entries) == es + [entry.ToEntry()];
    }

    method Release(page: Page)
      requires Valid()
      modifies this`entries, this`evictions
      ensures Valid() && View() == After(old(View()), Call.Release(page), maxSize, ttl)
      ensures forall c :: c in entries ==> c in old(entries)
    {
      hide Sound, Evicted;
      CallIsSound(View(), Call.Release(page), maxSize, ttl, clock);
      Evict(page.address);
    }

    method ReleaseAll()
      requires Valid()
      modifies this`entries, this`evictions
      ensures Valid() && View() == After(old(View()), Call.ReleaseAll, maxSize, ttl)
    {
      hide Entries, Sound;
      CallIsSound(View(), Call.ReleaseAll, maxSize, ttl, clock);
      ghost var es := Entries(entries);
      var keys := [];
      for k := 0 to |entries|
        invariant |keys| == k && forall j :: 0 <= j < k ==> keys[j] == es[j].item.page.address
      {
        keys := keys + [entries[k].page.address];
      }
      for k := 0 to |keys|
        invariant Entries(entries) == es[k..] && evictions == old(evictions) + k
      {
        assert Find(es[k..], keys[k]) == 0;
        assert RemoveAt(es[k..], 0) == es[k + 1..];
        Evict(keys[k]);
      }
    }

    /** Evicts what has been idle for too long and tells how many that were. */
    method Gc(now: real) returns (collected: nat)
      requires Valid()
      modifies this`entries, this`evictions
      ensures Valid() && View() == After(old(View()), Call.Gc(now), maxSize, ttl)
      ensures collected == evictions - old(evictions)
    {
      hide Entries, Sound, Orderly, Stale, Lively, Evicted;
      ghost var es := Entries(entries);
      CallIsSound(View(), Call.Gc(now), maxSize, ttl, clock);
      var stale := CollectStale(now);
      LivelyIsASelection(es, now, ttl);
      StaleAndLively(es, now, ttl);
      for k := 0 to |stale|
        invariant View() == Pool(Entries(entries), hits, misses, old(evictions) + k)
        invariant Stale(Entries(entries), now, ttl) == stale[k..]
        invariant Lively(Entries(entries), now, ttl) == Lively(es, now, ttl)
        invariant Sound(View(), maxSize, clock)
      {
        ghost var fs := Entries(entries);
        EvictedIsSound(View(), stale[k], maxSize, clock);
        SoundIsOrderly(View(), maxSize, clock);
        FirstStale(fs, now, ttl, misses, clock);
        EvictedAt(View(), stale[k]);
        Evict(stale[k]);
      }
      StaleAndLively(Entries(entries), now, ttl);
      collected := |stale|;
    }

    static lemma SoundIsOrderly(p: Pool, maxSize: int, at: real)
      requires Sound(p, maxSize, at)
      ensures Orderly(p.entries, p.misses, at)
    {}

    static lemma EvictedAt(p: Pool, address: Address)
      requires Find(p.entries, address) < |p.entries|
      ensures Evicted(p, address) ==
        p.(entries := RemoveAt(p.entries, Find(p.entries, address)), evictions := p.evictions + 1)
    {}

    static lemma StaleFrom(es: seq<Entry>, k: nat, now: real, ttl: real)
      requires k < |es|
      ensures Stale(es[k..], now, ttl) ==
        (if now - es[k].at > ttl then [es[k].item.page.address] else []) + Stale(es[k + 1..], now, ttl)
    {
      assert es[k..][0] == es[k] && es[k..][1..] == es[k + 1..];
    }

    method CollectStale(now: real) returns (stale: seq<Address>)
      ensures stale == Stale(Entries(entries), now, ttl)
    {
      hide Entries, Stale;
      stale := [];
      ghost var es := Entries(entries);
      for k := 0 to |entries|
        invariant stale + Stale(es[k..], now, ttl) == Stale(es, now, ttl)
      {
        StaleFrom(es, k, now, ttl);
        if now - entries[k].lastUsedAt > ttl {
          stale := stale + [entries[k].page.address];
        }
      }
      NoneStale(es[|es|..], now, ttl);
    }

    static lemma NoneStale(es: seq<Entry>, now: real, ttl: real)
      requires es == []
      ensures Stale(es, now, ttl) == []
    {}

    method Evict(address: Address)
      modifies this`entries, this`evictions
      ensures View() == Evicted(old(View()), address)
      ensures forall c :: c in entries ==> c in old(entries)
    {
      hide Entries, RemoveAt, Find, Evicted;
      var i := Lookup(entries, address);
      if i == |entries| {
        NothingToEvict(View(), address);
        return;
      }
      EvictedAt(View(), address);
      WithoutOne(entries, i);
      entries := RemoveAt(entries, i);
      evictions := evictions + 1;
    }

    method EnforceCapacity()
      modifies this`entries, this`evictions
      ensures View() == Enforced(old(View()), maxSize)
      ensures forall c :: c in entries ==> c in old(entries)
    {
      hide DropOldest, Entries, RemoveAt;
      if |entries| <= maxSize {
        NoneTooMany(Entries(entries));
        return;
      }
      var excess := Excess(Entries(entries), maxSize);
      for k := 0 to excess
        invariant |entries| == |old(entries)| - k && evictions == old(evictions) + k
        invariant DropOldest(Entries(entries), excess - k) == DropOldest(old(Entries(entries)), excess)
        invariant forall c :: c in entries ==> c in old(entries)
      {
        var oldest := FindOldest(Entries(entries));
        OneOldestLess(Entries(entries), excess - k);
        WithoutOne(entries, oldest);
        entries := RemoveAt(entries, oldest);
        evictions := evictions + 1;
      }
      NoneTooMany(Entries(entries));
    }

    static lemma WithoutOne(cs: seq<PoolEntry>, i: nat)
      requires i < |cs|
      ensures var fewer := RemoveAt(cs, i);
        |fewer| == |cs| - 1 && (forall c :: c in fewer ==> c in cs) && Entries(fewer) == RemoveAt(Entries(cs), i)
    {
      hide Entries;
    }
  }
}
