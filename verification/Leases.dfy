/** Accounts, the leases granted on them, and the manager that grants and ends leases.

Times are readings of one clock, in seconds; lease identifiers are fresh. */
module Leases {

  import opened Options

  /** Accounts, leases and providers are told apart by name only. */
  type Id = nat

  datatype AccountState = Idle | Warmup | InUse | Cooldown | Jail

  datatype LeaseState = Requested | Active | Renewing | Expired | Released

  datatype AccountView = AccountView(
    provider: Id, state: AccountState, health: real, cooldownUntil: Option<real>, failures: nat)

  datatype LeaseView = LeaseView(
    account: Id, state: LeaseState, expiresAt: Option<real>, heartbeatAt: Option<real>, ttl: real)

  const DEFAULT_TTL: real := 300.0
  const RECLAIM_COOLDOWN: real := 300.0

  // -- Accounts and leases on values ---------------------------------------------------------

  predicate Available(a: AccountView, now: real) {
    match a.state
    case Jail | InUse => false
    case Cooldown => a.cooldownUntil.None? || now >= a.cooldownUntil.value
    case Idle | Warmup => true
  }

  function MarkedIdle(a: AccountView): AccountView {
    a.(state := Idle, cooldownUntil := None, failures := 0)
  }

  function Cooled(a: AccountView, now: real): AccountView {
    a.(state := Cooldown, cooldownUntil := Some(now + RECLAIM_COOLDOWN))
  }

  function Granted(account: Id, now: real): LeaseView {
    LeaseView(account, Active, Some(now + DEFAULT_TTL), Some(now), DEFAULT_TTL)
  }

  /** A heartbeat extends the lease once less than half its time is left. */
  function Beaten(l: LeaseView, now: real): LeaseView {
    var remaining := if l.expiresAt.Some? then l.expiresAt.value - now else 0.0;
    l.(heartbeatAt := Some(now), expiresAt := if remaining < l.ttl * 0.5 then Some(now + l.ttl) else l.expiresAt)
  }

  predicate PastDeadline(l: LeaseView, now: real) {
    l.expiresAt.Some? && now > l.expiresAt.value
  }

  predicate Alive(l: LeaseView, now: real) {
    l.state == Active && !PastDeadline(l, now)
  }

  function Ended(l: LeaseView): LeaseView {
    if l.state == Active then l.(state := Expired) else l
  }

  // -- The pool on values ------------------------------------------------------------------

  /** Everything the manager holds; the sequences give the order of insertion. */
  datatype Pool = Pool(
    accounts: map<Id, AccountView>, accountIds: seq<Id>, leases: map<Id, LeaseView>, leaseIds: seq<Id>)

  predicate Distinct(s: seq<Id>) {
    forall i, j :: 0 <= i < j < |s| ==> s[i] != s[j]
  }

  predicate Lists(s: seq<Id>, keys: set<Id>) {
    (forall id :: id in s ==> id in keys) && (forall id :: id in keys ==> id in s)
  }

  predicate WellFormed(p: Pool) {
    && Distinct(p.accountIds) && Lists(p.accountIds, p.accounts.Keys)
    && Distinct(p.leaseIds) && Lists(p.leaseIds, p.leases.Keys)
  }

  const EMPTY: Pool := Pool(map[], [], map[], [])

  function Registered(p: Pool, id: Id, a: AccountView): Pool {
    p.(accounts := p.accounts[id := a], accountIds := if id in p.accounts then p.accountIds else p.accountIds + [id])
  }

  /** The available accounts among the first `n`, in order, of one provider if given. */
  function Candidates(p: Pool, provider: Option<Id>, now: real, n: nat): seq<Id>
    requires n <= |p.accountIds| && WellFormed(p)
  {
    if n == 0 then []
    else
      var id := p.accountIds[n - 1];
      assert id in p.accountIds;
      Candidates(p, provider, now, n - 1)
      + if Available(p.accounts[id], now) && (provider.None? || p.accounts[id].provider == provider.value)
        then [id]
        else []
  }

  /** The first of the healthiest. */
  function Healthiest(p: Pool, ids: seq<Id>): (best: Id)
    requires ids != [] && forall id :: id in ids ==> id in p.accounts
    ensures best in ids
    ensures forall id :: id in ids ==> p.accounts[id].health <= p.accounts[best].health
  {
    if |ids| == 1 then ids[0]
    else
      var best := Healthiest(p, ids[..|ids| - 1]);
      assert ids == ids[..|ids| - 1] + [ids[|ids| - 1]];
      if p.accounts[ids[|ids| - 1]].health > p.accounts[best].health then ids[|ids| - 1] else best
  }

  lemma {:induction false} CandidatesAreAvailable(p: Pool, provider: Option<Id>, now: real, n: nat)
    requires n <= |p.accountIds| && WellFormed(p)
    ensures forall id :: id in Candidates(p, provider, now, n) <==>
      && id in p.accountIds[..n] && Available(p.accounts[id], now)
      && (provider.None? || p.accounts[id].provider == provider.value)
  {
    hide Available, Distinct;
    if n > 0 {
      CandidatesAreAvailable(p, provider, now, n - 1);
      assert p.accountIds[..n] == p.accountIds[..n - 1] + [p.accountIds[n - 1]];
      forall id | id in p.accountIds[..n]
        ensures id in p.accounts
      {
        assert id in p.accountIds;
      }
    }
  }

  /** The account a request gets: the preferred provider first, then any. */
  function Chosen(p: Pool, preferred: Option<Id>, now: real): (best: Option<Id>)
    requires WellFormed(p)
    ensures best.Some? ==> best.value in p.accounts && Available(p.accounts[best.value], now)
  {
    var n := |p.accountIds|;
    CandidatesAreAvailable(p, preferred, now, n);
    CandidatesAreAvailable(p, None, now, n);
    assert p.accountIds[..n] == p.accountIds;
    if Candidates(p, preferred, now, n) != [] then Some(Healthiest(p, Candidates(p, preferred, now, n)))
    else if Candidates(p, None, now, n) != [] then Some(Healthiest(p, Candidates(p, None, now, n)))
    else None
  }

  lemma ChoosesFrom(p: Pool, preferred: Option<Id>, now: real, ids: seq<Id>)
    requires WellFormed(p)
    requires var all, some := Candidates(p, None, now, |p.accountIds|), Candidates(p, preferred, now, |p.accountIds|);
      ids == if some != [] then some else all
    ensures ids == [] ==> Chosen(p, preferred, now) == None
    ensures forall id :: id in ids ==> id in p.accounts
    ensures ids != [] ==> Chosen(p, preferred, now) == Some(Healthiest(p, ids))
  {
    CandidatesAreAvailable(p, None, now, |p.accountIds|);
    CandidatesAreAvailable(p, preferred, now, |p.accountIds|);
    assert p.accountIds[..|p.accountIds|] == p.accountIds;
  }

  lemma AfterRequestIs(p: Pool, leaseId: Id, preferred: Option<Id>, now: real, a: Id)
    requires WellFormed(p) && Chosen(p, preferred, now) == Some(a)
    ensures a in p.accounts
    ensures AfterRequest(p, leaseId, preferred, now) ==
      p.(accounts := p.accounts[a := p.accounts[a].(state := InUse)],
         leases := p.leases[leaseId := Granted(a, now)], leaseIds := p.leaseIds + [leaseId])
  {}

  lemma AfterNoRequest(p: Pool, leaseId: Id, preferred: Option<Id>, now: real)
    requires WellFormed(p) && Chosen(p, preferred, now) == None
    ensures AfterRequest(p, leaseId, preferred, now) == p
  {}

  function AfterRequest(p: Pool, leaseId: Id, preferred: Option<Id>, now: real): Pool
    requires WellFormed(p)
  {
    match Chosen(p, preferred, now)
    case None => p
    case Some(a) =>
      p.(accounts := p.accounts[a := p.accounts[a].(state := InUse)],
         leases := p.leases[leaseId := Granted(a, now)], leaseIds := p.leaseIds + [leaseId])
  }

  /** Releasing a known lease idles its account, whatever state the lease is in. */
  function AfterRelease(p: Pool, leaseId: Id): Pool {
    if leaseId !in p.leases then p
    else
      var l := p.leases[leaseId];
      var q := p.(leases := p.leases[leaseId := l.(state := Released)]);
      if l.account in p.accounts then q.(accounts := p.accounts[l.account := MarkedIdle(p.accounts[l.account])]) else q
  }

  predicate HeartbeatAccepted(p: Pool, leaseId: Id, now: real) {
    leaseId in p.leases && Alive(p.leases[leaseId], now)
  }

  function Heartbeat(p: Pool, leaseId: Id, now: real): Pool {
    if HeartbeatAccepted(p, leaseId, now) then p.(leases := p.leases[leaseId := Beaten(p.leases[leaseId], now)]) else p
  }

  predicate Overdue(l: LeaseView, now: real) {
    l.state == Active && PastDeadline(l, now)
  }

  /** Some overdue lease holds the account. */
  predicate HasOverdue(leases: map<Id, LeaseView>, account: Id, now: real) {
    exists id :: id in leases && leases[id].account == account && Overdue(leases[id], now)
  }

  function Reclaimed(p: Pool, now: real): Pool {
    p.(leases := map id | id in p.leases :: if Overdue(p.leases[id], now) then Ended(p.leases[id]) else p.leases[id],
       accounts := map id | id in p.accounts ::
         if HasOverdue(p.leases, id, now) then Cooled(p.accounts[id], now) else p.accounts[id])
  }

  function ForceExpired(p: Pool, account: Id): Pool {
    p.(leases := map id | id in p.leases ::
         if p.leases[id].account == account then Ended(p.leases[id]) else p.leases[id])
  }

  function Marked(p: Pool, account: Id, state: AccountState): Pool {
    if account !in p.accounts then p
    else ForceExpired(p, account).(accounts := p.accounts[account := p.accounts[account].(state := state)])
  }

  // -- Exclusivity over runs ----------------------------------------------------------------

  datatype Event =
    | Register(id: Id, account: AccountView)
    | Request(leaseId: Id, preferred: Option<Id>, now: real)
    | Release(leaseId: Id)
    | Beat(leaseId: Id, now: real)
    | Reclaim(now: real)
    | Mark(id: Id, state: AccountState)
    | ForceExpire(id: Id)

  /** Events the manager can see: a new lease has a fresh identifier. */
  predicate Possible(p: Pool, e: Event) {
    WellFormed(p) && (e.Request? ==> e.leaseId !in p.leases)
  }

  function Step(p: Pool, e: Event): (q: Pool)
    requires Possible(p, e)
    ensures WellFormed(q)
  {
    match e
    case Register(id, a) => Registered(p, id, a)
    case Request(leaseId, preferred, now) => AfterRequest(p, leaseId, preferred, now)
    case Release(leaseId) => AfterRelease(p, leaseId)
    case Beat(leaseId, now) => Heartbeat(p, leaseId, now)
    case Reclaim(now) => Reclaimed(p, now)
    case Mark(id, state) => Marked(p, id, state)
    case ForceExpire(id) => ForceExpired(p, id)
  }

  predicate ActiveOn(p: Pool, leaseId: Id, account: Id) {
    leaseId in p.leases && p.leases[leaseId].state == Active && p.leases[leaseId].account == account
  }

  predicate Held(p: Pool, account: Id) {
    exists id :: id in p.leases && ActiveOn(p, id, account)
  }

  /** No two active leases share an account. */
  predicate Apart(p: Pool) {
    forall i, j ::
      i in p.leases && j in p.leases && i != j && p.leases[i].state == Active && p.leases[j].state == Active ==>
      p.leases[i].account != p.leases[j].account
  }

  /** Every active lease's account is in use, and no two active leases share one. */
  predicate Exclusive(p: Pool) {
    && (forall id :: id in p.leases && p.leases[id].state == Active ==>
          p.leases[id].account in p.accounts && p.accounts[p.leases[id].account].state == InUse)
    && Apart(p)
  }

  /** The guard a caller can check: an account is only registered over, and a lease
  only released, while no other active lease holds the account. */
  predicate Safe(p: Pool, e: Event) {
    match e
    case Register(id, a) => a.state == InUse || !Held(p, id)
    case Release(leaseId) =>
      leaseId in p.leases && p.leases[leaseId].account in p.accounts ==>
        p.leases[leaseId].state == Active || !Held(p, p.leases[leaseId].account)
    case _ => true
  }

  lemma RequestKeepsExclusive(p: Pool, leaseId: Id, preferred: Option<Id>, now: real)
    requires Possible(p, Request(leaseId, preferred, now)) && Exclusive(p)
    ensures Exclusive(AfterRequest(p, leaseId, preferred, now))
  {
    var a := Chosen(p, preferred, now);
    if a.Some? {
      assert p.accounts[a.value].state != InUse;
    }
  }

  lemma ReleaseExclusiveIff(p: Pool, leaseId: Id)
    requires WellFormed(p) && Exclusive(p)
    ensures Exclusive(AfterRelease(p, leaseId)) <==> Safe(p, Release(leaseId))
  {
    if leaseId in p.leases && p.leases[leaseId].account in p.accounts {
      var q, account := AfterRelease(p, leaseId), p.leases[leaseId].account;
      if p.leases[leaseId].state != Active && Held(p, account) {
        var other :| other in p.leases && ActiveOn(p, other, account);
        assert other in q.leases && q.leases[other].state == Active && q.accounts[account].state == Idle;
      } else {
        forall id | id in q.leases && q.leases[id].state == Active
          ensures q.leases[id].account in q.accounts && q.accounts[q.leases[id].account].state == InUse
        {
          assert id in p.leases && p.leases[id] == q.leases[id];
          assert ActiveOn(p, id, p.leases[id].account);
        }
      }
    }
  }

  lemma RegisterExclusiveIff(p: Pool, id: Id, a: AccountView)
    requires WellFormed(p) && Exclusive(p)
    ensures Exclusive(Registered(p, id, a)) <==> Safe(p, Register(id, a))
  {
    var q := Registered(p, id, a);
    if Held(p, id) {
      var lease :| lease in p.leases && ActiveOn(p, lease, id);
      assert lease in q.leases && q.leases[lease].state == Active;
    } else {
      forall lease | lease in q.leases && q.leases[lease].state == Active
        ensures q.leases[lease].account in q.accounts && q.accounts[q.leases[lease].account].state == InUse
      {
        assert ActiveOn(p, lease, p.leases[lease].account);
      }
    }
  }

  lemma ReclaimKeepsExclusive(p: Pool, now: real)
    requires Exclusive(p)
    ensures Exclusive(Reclaimed(p, now))
  {
    var q := Reclaimed(p, now);
    forall id | id in q.leases && q.leases[id].state == Active
      ensures q.leases[id].account in q.accounts && q.accounts[q.leases[id].account].state == InUse
    {
      var account := p.leases[id].account;
      forall other | other in p.leases && p.leases[other].account == account && p.leases[other].state == Active
        ensures other == id
      {}
      assert !HasOverdue(p.leases, account, now);
    }
  }

  lemma EndingKeepsExclusive(p: Pool, account: Id, state: AccountState)
    requires Exclusive(p)
    ensures Exclusive(ForceExpired(p, account)) && Exclusive(Marked(p, account, state))
    ensures !Held(ForceExpired(p, account), account)
  {}

  /** One event keeps exclusivity exactly when it is safe. */
  lemma ExclusiveIffSafe(p: Pool, e: Event)
    requires Possible(p, e) && Exclusive(p)
    ensures Exclusive(Step(p, e)) <==> Safe(p, e)
  {
    match e
    case Register(id, a) => RegisterExclusiveIff(p, id, a);
    case Request(leaseId, preferred, now) => RequestKeepsExclusive(p, leaseId, preferred, now);
    case Release(leaseId) => ReleaseExclusiveIff(p, leaseId);
    case Beat(leaseId, now) =>
    case Reclaim(now) => ReclaimKeepsExclusive(p, now);
    case Mark(id, state) => EndingKeepsExclusive(p, id, state);
    case ForceExpire(id) => EndingKeepsExclusive(p, id, Jail);
  }

  predicate PossibleRun(p: Pool, events: seq<Event>)
    decreases |events|
  {
    events == [] || (Possible(p, events[0]) && PossibleRun(Step(p, events[0]), events[1..]))
  }

  function Run(p: Pool, events: seq<Event>): Pool
    requires PossibleRun(p, events)
    decreases |events|
  {
    if events == [] then p else Run(Step(p, events[0]), events[1..])
  }

  /** Every event of the run is safe when it happens. */
  predicate SafeRun(p: Pool, events: seq<Event>)
    requires PossibleRun(p, events)
    decreases |events|
  {
    events == [] || (Safe(p, events[0]) && SafeRun(Step(p, events[0]), events[1..]))
  }

  predicate ExclusiveThroughout(p: Pool, events: seq<Event>)
    requires PossibleRun(p, events)
    decreases |events|
  {
    Exclusive(p) && (events == [] || ExclusiveThroughout(Step(p, events[0]), events[1..]))
  }

  /** Over every run, every active lease has an account in use to itself throughout if and
  only if every event is safe when it happens. */
  lemma {:induction false} ExclusiveOverRuns(p: Pool, events: seq<Event>)
    requires PossibleRun(p, events) && Exclusive(p)
    ensures ExclusiveThroughout(p, events) <==> SafeRun(p, events)
    ensures SafeRun(p, events) ==> Exclusive(Run(p, events))
    decreases |events|
  {
    if events != [] {
      ExclusiveIffSafe(p, events[0]);
      if Safe(p, events[0]) {
        ExclusiveOverRuns(Step(p, events[0]), events[1..]);
      }
    }
  }

  lemma RunFrom(p: Pool, e: Event, q: Pool, rest: seq<Event>)
    requires Possible(p, e) && Step(p, e) == q && PossibleRun(q, rest)
    ensures PossibleRun(p, [e] + rest) && Run(p, [e] + rest) == Run(q, rest)
  {
    assert ([e] + rest)[1..] == rest;
  }

  const SPARE: AccountView := AccountView(0, Idle, 1.0, None, 0)

  /** One account, numbered 0, in the given state, and some leases on it. */
  function LoneAccount(state: AccountState, leases: map<Id, LeaseView>, ids: seq<Id>): Pool {
    Pool(map[0 := SPARE.(state := state)], [0], leases, ids)
  }

  lemma RequestLoneAccount(leases: map<Id, LeaseView>, ids: seq<Id>, id: Id, now: real)
    requires WellFormed(LoneAccount(Idle, leases, ids)) && id !in leases
    ensures Possible(LoneAccount(Idle, leases, ids), Request(id, None, now))
    ensures Step(LoneAccount(Idle, leases, ids), Request(id, None, now)) ==
      LoneAccount(InUse, leases[id := Granted(0, now)], ids + [id])
  {
    var p := LoneAccount(Idle, leases, ids);
    CandidatesAreAvailable(p, None, now, 1);
    assert 0 in p.accountIds[..1];
    assert Chosen(p, None, now) == Some(0);
    assert p.accounts[0 := p.accounts[0].(state := InUse)] == map[0 := SPARE.(state := InUse)];
  }

  lemma ReleaseLoneAccount(state: AccountState, leases: map<Id, LeaseView>, ids: seq<Id>, id: Id)
    requires WellFormed(LoneAccount(state, leases, ids)) && id in leases && leases[id].account == 0
    ensures Step(LoneAccount(state, leases, ids), Release(id)) ==
      LoneAccount(Idle, leases[id := leases[id].(state := Released)], ids)
  {
    assert map[0 := SPARE.(state := state)][0 := SPARE] == map[0 := SPARE.(state := Idle)];
  }

  // The account with its first lease, and with that one and a second.
  const FIRST_LEASE: LeaseView := Granted(0, 0.0)
  const FIRST_RELEASED: LeaseView := Granted(0, 0.0).(state := Released)
  const SECOND_LEASE: LeaseView := Granted(0, 1.0)
  const ONE_RELEASED: map<Id, LeaseView> := map[1 := FIRST_RELEASED]
  const TWO_LEASES: map<Id, LeaseView> := map[1 := FIRST_RELEASED, 2 := SECOND_LEASE]

  // The pool as the five calls leave it, one after the other.
  const UNLEASED: Pool := LoneAccount(Idle, map[], [])
  const GRANTED_ONCE: Pool := LoneAccount(InUse, map[1 := FIRST_LEASE], [1])
  const RELEASED_ONCE: Pool := LoneAccount(Idle, ONE_RELEASED, [1])
  const GRANTED_AGAIN: Pool := LoneAccount(InUse, TWO_LEASES, [1, 2])
  const RELEASED_TWICE: Pool := LoneAccount(Idle, TWO_LEASES, [1, 2])
  const SHARED: Pool := LoneAccount(InUse, TWO_LEASES[3 := Granted(0, 2.0)], [1, 2, 3])

  /** Releasing the same lease twice is not safe: the second release idles the account
  under the next holder, and a third request then shares it. */
  lemma DoubleReleaseSharesAnAccount() returns (p: Pool, events: seq<Event>)
    ensures p == LoneAccount(Idle, map[], [])
    ensures events == [Request(1, None, 0.0), Release(1), Request(2, None, 1.0), Release(1), Request(3, None, 2.0)]
    ensures PossibleRun(p, events)
    ensures var q := Run(p, events); ActiveOn(q, 2, 0) && ActiveOn(q, 3, 0) && !Apart(q) && !Exclusive(q)
  {
    hide Step, Possible, PossibleRun, Run, Exclusive, Apart, ActiveOn;
    p := UNLEASED;
    FirstRequest();
    FirstRelease();
    SecondRequest();
    SecondRelease();
    ThirdRequest();
    events := DoubleReleaseRun(p, GRANTED_ONCE, RELEASED_ONCE, GRANTED_AGAIN, RELEASED_TWICE, SHARED);
  }

  lemma FirstRequest()
    ensures Possible(UNLEASED, Request(1, None, 0.0)) && Step(UNLEASED, Request(1, None, 0.0)) == GRANTED_ONCE
  {
    RequestLoneAccount(map[], [], 1, 0.0);
    assert map[][1 := FIRST_LEASE] == map[1 := FIRST_LEASE];
  }

  lemma FirstRelease()
    ensures Possible(GRANTED_ONCE, Release(1)) && Step(GRANTED_ONCE, Release(1)) == RELEASED_ONCE
  {
    ReleaseLoneAccount(InUse, map[1 := FIRST_LEASE], [1], 1);
    assert map[1 := FIRST_LEASE][1 := FIRST_RELEASED] == ONE_RELEASED;
  }

  lemma SecondRequest()
    ensures Possible(RELEASED_ONCE, Request(2, None, 1.0))
    ensures Step(RELEASED_ONCE, Request(2, None, 1.0)) == GRANTED_AGAIN
  {
    RequestLoneAccount(ONE_RELEASED, [1], 2, 1.0);
    assert ONE_RELEASED[2 := SECOND_LEASE] == TWO_LEASES;
  }

  lemma SecondRelease()
    ensures Possible(GRANTED_AGAIN, Release(1)) && Step(GRANTED_AGAIN, Release(1)) == RELEASED_TWICE
  {
    ReleaseLoneAccount(InUse, TWO_LEASES, [1, 2], 1);
    assert TWO_LEASES[1 := FIRST_RELEASED] == TWO_LEASES;
  }

  lemma ThirdRequest()
    ensures Possible(RELEASED_TWICE, Request(3, None, 2.0)) && Step(RELEASED_TWICE, Request(3, None, 2.0)) == SHARED
    ensures ActiveOn(SHARED, 2, 0) && ActiveOn(SHARED, 3, 0) && !Apart(SHARED) && !Exclusive(SHARED)
  {
    RequestLoneAccount(TWO_LEASES, [1, 2], 3, 2.0);
    assert 2 in SHARED.leases && 3 in SHARED.leases;
  }

  lemma DoubleReleaseRun(p: Pool, p1: Pool, p2: Pool, p3: Pool, p4: Pool, p5: Pool) returns (events: seq<Event>)
    requires Possible(p, Request(1, None, 0.0)) && Step(p, Request(1, None, 0.0)) == p1
    requires Possible(p1, Release(1)) && Step(p1, Release(1)) == p2
    requires Possible(p2, Request(2, None, 1.0)) && Step(p2, Request(2, None, 1.0)) == p3
    requires Possible(p3, Release(1)) && Step(p3, Release(1)) == p4
    requires Possible(p4, Request(3, None, 2.0)) && Step(p4, Request(3, None, 2.0)) == p5
    ensures events == [Request(1, None, 0.0), Release(1), Request(2, None, 1.0), Release(1), Request(3, None, 2.0)]
    ensures PossibleRun(p, events) && Run(p, events) == p5
  {
    hide Step, Possible;
    RunFrom(p4, Request(3, None, 2.0), p5, []);
    RunFrom(p3, Release(1), p4, [Request(3, None, 2.0)] + []);
    RunFrom(p2, Request(2, None, 1.0), p3, [Release(1)] + ([Request(3, None, 2.0)] + []));
    RunFrom(p1, Release(1), p2, [Request(2, None, 1.0)] + ([Release(1)] + ([Request(3, None, 2.0)] + [])));
    events := [Release(1)] + ([Request(2, None, 1.0)] + ([Release(1)] + ([Request(3, None, 2.0)] + [])));
    RunFrom(p, Request(1, None, 0.0), p1, events);
    events := [Request(1, None, 0.0)] + events;
  }

  // -- An account left behind ------------------------------------------------------------------

  /** In use, but by no lease. */
  predicate Stuck(p: Pool, account: Id) {
    WellFormed(p) && account in p.accounts && p.accounts[account].state == InUse && !Held(p, account)
  }

  /** What frees a stuck account: registering or marking it as anything but in use, or
  releasing a known lease on it, whatever that lease's state. */
  predicate Frees(p: Pool, e: Event, account: Id) {
    || (e.Register? && e.id == account && e.account.state != InUse)
    || (e.Mark? && e.id == account && e.state != InUse)
    || (e.Release? && e.leaseId in p.leases && p.leases[e.leaseId].account == account)
  }

  /** No lease becomes active on the account. */
  predicate NoNewHolder(p: Pool, q: Pool, account: Id) {
    forall id :: id in q.leases && ActiveOn(q, id, account) ==> id in p.leases && ActiveOn(p, id, account)
  }

  lemma RequestStaysStuck(p: Pool, account: Id, leaseId: Id, preferred: Option<Id>, now: real)
    requires Possible(p, Request(leaseId, preferred, now)) && Stuck(p, account)
    ensures Stuck(AfterRequest(p, leaseId, preferred, now), account)
  {
    var q := AfterRequest(p, leaseId, preferred, now);
    assert Chosen(p, preferred, now) != Some(account);
    assert NoNewHolder(p, q, account);
  }

  lemma ReclaimStaysStuck(p: Pool, account: Id, now: real)
    requires Stuck(p, account)
    ensures Stuck(Reclaimed(p, now), account)
  {
    forall id | id in p.leases && p.leases[id].account == account
      ensures !Overdue(p.leases[id], now)
    {
      assert ActiveOn(p, id, account) <==> p.leases[id].state == Active;
    }
    assert !HasOverdue(p.leases, account, now);
    assert NoNewHolder(p, Reclaimed(p, now), account);
  }

  lemma StuckIffNotFreed(p: Pool, e: Event, account: Id)
    requires Possible(p, e) && Stuck(p, account)
    ensures Stuck(Step(p, e), account) <==> !Frees(p, e, account)
  {
    hide AfterRequest, Reclaimed, HasOverdue;
    match e {
      case Request(leaseId, preferred, now) => RequestStaysStuck(p, account, leaseId, preferred, now);
      case Reclaim(now) => ReclaimStaysStuck(p, account, now);
      case Register(id, a) => assert NoNewHolder(p, Registered(p, id, a), account);
      case Release(leaseId) => assert NoNewHolder(p, AfterRelease(p, leaseId), account);
      case Beat(leaseId, now) => assert NoNewHolder(p, Heartbeat(p, leaseId, now), account);
      case Mark(id, state) => assert NoNewHolder(p, Marked(p, id, state), account);
      case ForceExpire(id) => assert NoNewHolder(p, ForceExpired(p, id), account);
    }
  }

  predicate StuckThroughout(p: Pool, events: seq<Event>, account: Id)
    requires PossibleRun(p, events)
    decreases |events|
  {
    Stuck(p, account) && (events == [] || StuckThroughout(Step(p, events[0]), events[1..], account))
  }

  /** One account, granted and then force-expired, is in use by nobody. */
  lemma ForceExpiryStrandsAnAccount()
    ensures var p := GRANTED_ONCE;
      WellFormed(p) && Exclusive(p) && Held(p, 0) && Stuck(ForceExpired(p, 0), 0)
  {
    var p := GRANTED_ONCE;
    assert ActiveOn(p, 1, 0);
    EndingKeepsExclusive(p, 0, Jail);
  }

  predicate NeverFrees(p: Pool, events: seq<Event>, account: Id)
    requires PossibleRun(p, events)
    decreases |events|
  {
    events == [] || (!Frees(p, events[0], account) && NeverFrees(Step(p, events[0]), events[1..], account))
  }

  /** Force-expiring leaves the account in use, held by no lease and not available; over
  every run it stays so if and only if nobody registers or marks it as something else or
  releases one of its old leases. */
  lemma ForceExpiredAccountIsStuck(p: Pool, account: Id, events: seq<Event>)
    requires WellFormed(p) && Held(p, account) && Exclusive(p)
    requires PossibleRun(ForceExpired(p, account), events)
    ensures var q := ForceExpired(p, account);
      && (StuckThroughout(q, events, account) <==> NeverFrees(q, events, account))
      && (NeverFrees(q, events, account) ==> Stuck(Run(q, events), account))
  {
    EndingKeepsExclusive(p, account, Jail);
    StaysStuck(ForceExpired(p, account), events, account);
  }

  lemma {:induction false} StaysStuck(p: Pool, events: seq<Event>, account: Id)
    requires Stuck(p, account) && PossibleRun(p, events)
    ensures StuckThroughout(p, events, account) <==> NeverFrees(p, events, account)
    ensures NeverFrees(p, events, account) ==> Stuck(Run(p, events), account)
    decreases |events|
  {
    if events != [] {
      StuckIffNotFreed(p, events[0], account);
      if !Frees(p, events[0], account) {
        StaysStuck(Step(p, events[0]), events[1..], account);
      }
    }
  }

  // -- Heartbeats keep a lease --------------------------------------------------------------------

  /** Active, with at least half the time to live left after the last beat. */
  predicate KeptUp(p: Pool, id: Id) {
    && WellFormed(p) && id in p.leases
    && var l := p.leases[id];
       l.state == Active && l.ttl > 0.0 && l.heartbeatAt.Some? && l.expiresAt.Some?
       && l.expiresAt.value >= l.heartbeatAt.value + l.ttl * 0.5
  }

  /** At most half the time to live since the last beat. */
  predicate InTime(l: LeaseView, now: real) {
    l.heartbeatAt.Some? && now - l.heartbeatAt.value <= l.ttl * 0.5
  }

  /** The holder's side of the bargain: beats and reclaims come in time, and nobody
  ends the lease on purpose. Other leases may do anything. */
  predicate Attended(p: Pool, id: Id, e: Event)
    requires id in p.leases
  {
    match e
    case Beat(leaseId, now) => leaseId == id ==> InTime(p.leases[id], now)
    case Reclaim(now) => InTime(p.leases[id], now)
    case Release(leaseId) => leaseId != id
    case Mark(account, _) => account != p.leases[id].account
    case ForceExpire(account) => account != p.leases[id].account
    case _ => true
  }

  lemma AttendedStep(p: Pool, id: Id, e: Event)
    requires Possible(p, e) && KeptUp(p, id) && Attended(p, id, e)
    ensures KeptUp(Step(p, e), id)
    ensures Step(p, e).leases[id].expiresAt.value >= p.leases[id].expiresAt.value
    ensures e.Beat? && e.leaseId == id ==> HeartbeatAccepted(p, id, e.now)
  {}

  predicate AttendedRun(p: Pool, id: Id, events: seq<Event>)
    requires PossibleRun(p, events)
    decreases |events|
  {
    events == [] || (id in p.leases && Attended(p, id, events[0]) && AttendedRun(Step(p, events[0]), id, events[1..]))
  }

  /** All heartbeats of the lease in the run are accepted. */
  predicate AllBeatsAccepted(p: Pool, id: Id, events: seq<Event>)
    requires PossibleRun(p, events)
    decreases |events|
  {
    events == [] || (
      && (events[0].Beat? && events[0].leaseId == id ==> HeartbeatAccepted(p, id, events[0].now))
      && AllBeatsAccepted(Step(p, events[0]), id, events[1..]))
  }

  /** An attended lease is never reclaimed, all its heartbeats are accepted, and its
  deadline never moves back. */
  lemma {:induction false} AttendedLeaseSurvives(p: Pool, id: Id, events: seq<Event>)
    requires KeptUp(p, id) && PossibleRun(p, events) && AttendedRun(p, id, events)
    ensures KeptUp(Run(p, events), id)
    ensures Run(p, events).leases[id].expiresAt.value >= p.leases[id].expiresAt.value
    ensures AllBeatsAccepted(p, id, events)
    decreases |events|
  {
    if events != [] {
      AttendedStep(p, id, events[0]);
      AttendedLeaseSurvives(Step(p, events[0]), id, events[1..]);
    }
  }

  lemma GrantIsKeptUp(p: Pool, id: Id, preferred: Option<Id>, now: real)
    requires Possible(p, Request(id, preferred, now)) && Chosen(p, preferred, now).Some?
    ensures KeptUp(Step(p, Request(id, preferred, now)), id)
  {}

  lemma ListsOneMore(ids: seq<Id>, keys: set<Id>, id: Id)
    requires Distinct(ids) && Lists(ids, keys)
    ensures id in keys ==> Lists(ids, keys + {id})
    ensures id !in keys ==> Distinct(ids + [id]) && Lists(ids + [id], keys + {id})
  {
    if id in keys {
      assert keys + {id} == keys;
    }
  }

  lemma NextListed(ids: seq<Id>, keys: set<Id>, k: nat)
    requires Distinct(ids) && Lists(ids, keys) && k < |ids|
    ensures ids[k] in keys && ids[k] !in ids[..k] && ids[..k + 1] == ids[..k] + [ids[k]]
  {
    assert ids[k] in ids;
  }

  lemma ListedAreAll(ids: seq<Id>, keys: set<Id>)
    requires Lists(ids, keys)
    ensures forall id :: id in ids <==> id in keys
  {}

  // -- One lease at a time -------------------------------------------------------------------

  function WithAccount(p: Pool, id: Id, a: AccountView): Pool {
    p.(accounts := p.accounts[id := a])
  }

  function WithLease(p: Pool, id: Id, l: LeaseView): Pool {
    p.(leases := p.leases[id := l])
  }

  predicate HasOverdueAmong(leases: map<Id, LeaseView>, ids: seq<Id>, account: Id, now: real) {
    exists id :: id in leases && id in ids && leases[id].account == account && Overdue(leases[id], now)
  }

  /** The pool once only the listed leases have been looked at. */
  function ReclaimedAmong(p: Pool, ids: seq<Id>, now: real): Pool {
    p.(leases := map id | id in p.leases ::
         if id in ids && Overdue(p.leases[id], now) then Ended(p.leases[id]) else p.leases[id],
       accounts := map id | id in p.accounts ::
         if HasOverdueAmong(p.leases, ids, id, now) then Cooled(p.accounts[id], now) else p.accounts[id])
  }

  lemma ReclaimedNothing(p: Pool, now: real)
    ensures ReclaimedAmong(p, [], now) == p
  {
    assert forall id :: id in p.leases ==> ReclaimedAmong(p, [], now).leases[id] == p.leases[id];
  }

  lemma ReclaimedAll(p: Pool, now: real)
    requires WellFormed(p)
    ensures ReclaimedAmong(p, p.leaseIds, now) == Reclaimed(p, now)
  {
    forall account
      ensures HasOverdueAmong(p.leases, p.leaseIds, account, now) <==> HasOverdue(p.leases, account, now)
    {
      if HasOverdue(p.leases, account, now) {
        var id :| id in p.leases && p.leases[id].account == account && Overdue(p.leases[id], now);
        assert id in p.leaseIds;
      }
    }
  }

  lemma HasOverdueOneMore(leases: map<Id, LeaseView>, ids: seq<Id>, id: Id, account: Id, now: real)
    requires id in leases
    ensures HasOverdueAmong(leases, ids + [id], account, now) <==>
      HasOverdueAmong(leases, ids, account, now) || (leases[id].account == account && Overdue(leases[id], now))
  {
    if HasOverdueAmong(leases, ids, account, now) {
      var l :| l in leases && l in ids && leases[l].account == account && Overdue(leases[l], now);
      assert l in ids + [id];
    }
    assert id in ids + [id];
  }

  /** Reclaiming one lease. */
  function ReclaimedOne(p: Pool, id: Id, now: real): Pool
    requires id in p.leases
  {
    var l := p.leases[id];
    if !Overdue(l, now) then p
    else
      var q := WithLease(p, id, Ended(l));
      if l.account in p.accounts then WithAccount(q, l.account, Cooled(p.accounts[l.account], now)) else q
  }

  lemma ReclaimedOneMore(p: Pool, ids: seq<Id>, id: Id, now: real)
    requires id in p.leases && id !in ids
    ensures var q, r, l := ReclaimedAmong(p, ids, now), ReclaimedAmong(p, ids + [id], now), p.leases[id];
      && id in q.leases && q.leases[id] == l
      && r == ReclaimedOne(q, id, now)
  {
    hide HasOverdueAmong;
    forall account
      ensures HasOverdueAmong(p.leases, ids + [id], account, now) <==>
        HasOverdueAmong(p.leases, ids, account, now) || (p.leases[id].account == account && Overdue(p.leases[id], now))
    {
      HasOverdueOneMore(p.leases, ids, id, account, now);
    }
  }

  function ForceExpiredAmong(p: Pool, ids: seq<Id>, account: Id): Pool {
    p.(leases := map id | id in p.leases ::
         if id in ids && p.leases[id].account == account then Ended(p.leases[id]) else p.leases[id])
  }

  lemma ForceExpiredNothing(p: Pool, account: Id)
    ensures ForceExpiredAmong(p, [], account) == p
  {
    assert forall id :: id in p.leases ==> ForceExpiredAmong(p, [], account).leases[id] == p.leases[id];
  }

  lemma ForceExpiredAll(p: Pool, account: Id)
    requires WellFormed(p)
    ensures ForceExpiredAmong(p, p.leaseIds, account) == ForceExpired(p, account)
  {}

  function ForceExpiredOne(p: Pool, id: Id, account: Id): Pool
    requires id in p.leases
  {
    var l := p.leases[id];
    if l.account == account && l.state == Active then WithLease(p, id, Ended(l)) else p
  }

  lemma ForceExpiredOneMore(p: Pool, ids: seq<Id>, id: Id, account: Id)
    requires id in p.leases && id !in ids
    ensures var q, l := ForceExpiredAmong(p, ids, account), p.leases[id];
      && id in q.leases && q.leases[id] == l
      && ForceExpiredAmong(p, ids + [id], account) == ForceExpiredOne(q, id, account)
  {
    var q, r, l := ForceExpiredAmong(p, ids, account), ForceExpiredAmong(p, ids + [id], account), p.leases[id];
    assert r.leases == if l.account == account && l.state == Active then q.leases[id := Ended(l)] else q.leases;
  }

  // -- The classes -------------------------------------------------------------------------

  class Account {
    const id: Id
    const provider: Id
    var state: AccountState
    var healthScore: real
    var cooldownUntil: Option<real>
    var consecutiveFailures: nat

    function View(): AccountView
      reads this
    {
      AccountView(provider, state, healthScore, cooldownUntil, consecutiveFailures)
    }

    constructor (id: Id, a: AccountView)
      ensures this.id == id && View() == a
    {
      this.id, provider, state, healthScore := id, a.provider, a.state, a.health;
      cooldownUntil, consecutiveFailures := a.cooldownUntil, a.failures;
    }

    predicate IsAvailable(now: real)
      reads this
      ensures IsAvailable(now) == Available(View(), now)
    {
      if state == Jail || state == InUse then false
      else if state == Cooldown then !(cooldownUntil.Some? && now < cooldownUntil.value)
      else state == Idle || state == Warmup
    }

    method EnterCooldown(duration: real, now: real)
      modifies this`state, this`cooldownUntil
      ensures View() == old(View()).(state := Cooldown, cooldownUntil := Some(now + duration))
    {
      state := Cooldown;
      cooldownUntil := Some(now + duration);
    }

    method MarkIdle()
      modifies this`state, this`cooldownUntil, this`consecutiveFailures
      ensures View() == MarkedIdle(old(View()))
    {
      state := Idle;
      cooldownUntil := None;
      consecutiveFailures := 0;
    }

    method MarkActive()
      modifies this`state
      ensures View() == old(View()).(state := InUse)
    {
      state := InUse;
    }
  }

  class Lease {
    const id: Id
    const accountId: Id
    const ttlSeconds: real
    var state: LeaseState
    var expiresAt: Option<real>
    var heartbeatAt: Option<real>

    function View(): LeaseView
      reads this
    {
      LeaseView(accountId, state, expiresAt, heartbeatAt, ttlSeconds)
    }

    constructor (id: Id, accountId: Id)
      ensures this.id == id && View() == LeaseView(accountId, Requested, None, None, DEFAULT_TTL)
    {
      this.id, this.accountId, ttlSeconds := id, accountId, DEFAULT_TTL;
      state, expiresAt, heartbeatAt := Requested, None, None;
    }

    method Activate(now: real)
      modifies this`state, this`expiresAt, this`heartbeatAt
      ensures View() == LeaseView(accountId, Active, Some(now + ttlSeconds), Some(now), ttlSeconds)
    {
      state := Active;
      expiresAt := Some(now + ttlSeconds);
      heartbeatAt := Some(now);
    }

    method Heartbeat(now: real)
      modifies this`expiresAt, this`heartbeatAt
      ensures View() == Beaten(old(View()), now)
    {
      heartbeatAt := Some(now);
      var remaining := if expiresAt.Some? then expiresAt.value - now else 0.0;
      if remaining < ttlSeconds * 0.5 {
        expiresAt := Some(now + ttlSeconds);
      }
    }

    method Release()
      modifies this`state
      ensures View() == old(View()).(state := Released)
    {
      state := Released;
    }

    method CheckExpired(now: real) returns (expired: bool)
      modifies this`state
      ensures expired == Overdue(old(View()), now)
      ensures View() == if expired then Ended(old(View())) else old(View())
    {
      if state == Active && expiresAt.Some? {
        if now > expiresAt.value {
          state := Expired;
          return true;
        }
      }
      return false;
    }

    method Expire()
      modifies this`state
      ensures View() == Ended(old(View()))
    {
      if state == Active {
        state := Expired;
      }
    }

    predicate IsAlive(now: real)
      reads this
      ensures IsAlive(now) == Alive(View(), now)
    {
      state == Active && !(expiresAt.Some? && now > expiresAt.value)
    }
  }

  class LeaseManager {
    var accounts: map<Id, Account>
    var accountIds: seq<Id>
    var leases: map<Id, Lease>
    var leaseIds: seq<Id>

    ghost predicate Valid()
      reads this
    {
      && Distinct(accountIds) && Lists(accountIds, accounts.Keys)
      && Distinct(leaseIds) && Lists(leaseIds, leases.Keys)
      && AccountsKeyed() && LeasesKeyed()
    }

    ghost predicate AccountsKeyed()
      reads this`accounts
    {
      forall id :: id in accounts ==> accounts[id].id == id
    }

    ghost predicate LeasesKeyed()
      reads this`leases
    {
      forall id :: id in leases ==> leases[id].id == id
    }

    ghost function AccountViews(): (views: map<Id, AccountView>)
      reads this`accounts, accounts.Values
      ensures views.Keys == accounts.Keys
      ensures forall id :: id in accounts ==> views[id] == accounts[id].View()
    {
      map id | id in accounts :: accounts[id].View()
    }

    ghost function LeaseViews(): (views: map<Id, LeaseView>)
      reads this`leases, leases.Values
      ensures views.Keys == leases.Keys
      ensures forall id :: id in leases ==> views[id] == leases[id].View()
    {
      map id | id in leases :: leases[id].View()
    }

    ghost function View(): Pool
      reads this, accounts.Values, leases.Values
    {
      Pool(AccountViews(), accountIds, LeaseViews(), leaseIds)
    }

    constructor ()
      ensures Valid() && View() == EMPTY
    {
      accounts, accountIds, leases, leaseIds := map[], [], map[], [];
    }

    method RegisterAccount(account: Account)
      requires Valid()
      modifies this`accounts, this`accountIds
      ensures Valid() && View() == Registered(old(View()), account.id, account.View())
    {
      hide Distinct, Lists, AccountViews, LeaseViews, AccountsKeyed, LeasesKeyed;
      NoteAccountId(account.id);
      PutAccount(account);
    }

    method NoteAccountId(id: Id)
      requires Distinct(accountIds) && Lists(accountIds, accounts.Keys)
      modifies this`accountIds
      ensures Distinct(accountIds) && Lists(accountIds, accounts.Keys + {id})
      ensures accountIds == if id in accounts then old(accountIds) else old(accountIds) + [id]
    {
      hide Distinct, Lists;
      ListsOneMore(accountIds, accounts.Keys, id);
      if id !in accounts {
        accountIds := accountIds + [id];
      }
    }

    method PutAccount(account: Account)
      requires AccountsKeyed()
      modifies this`accounts
      ensures AccountsKeyed() && accounts.Keys == old(accounts.Keys) + {account.id}
      ensures AccountViews() == old(AccountViews())[account.id := account.View()] && LeaseViews() == old(LeaseViews())
    {
      hide AccountViews, LeaseViews;
      accounts := accounts[account.id := account];
    }

    method CollectCandidates(provider: Option<Id>, now: real) returns (ids: seq<Id>)
      requires Valid()
      ensures WellFormed(View()) && ids == Candidates(View(), provider, now, |accountIds|)
    {
      ids := [];
      for k := 0 to |accountIds|
        invariant ids == Candidates(View(), provider, now, k)
      {
        var id := accountIds[k];
        assert id in accountIds;
        var a := accounts[id];
        if a.IsAvailable(now) && (provider.None? || a.provider == provider.value) {
          ids := ids + [id];
        }
      }
    }

    method PickHealthiest(ids: seq<Id>) returns (best: Id)
      requires Valid() && ids != [] && forall id :: id in ids ==> id in accounts
      ensures best == Healthiest(View(), ids)
    {
      best := ids[0];
      assert ids[..1] == [ids[0]];
      for k := 1 to |ids|
        invariant best in accounts && best == Healthiest(View(), ids[..k])
      {
        assert ids[..k + 1][..k] == ids[..k] && ids[..k + 1][k] == ids[k];
        if accounts[ids[k]].healthScore > accounts[best].healthScore {
          best := ids[k];
        }
      }
      assert ids[..|ids|] == ids;
    }

    /** Grants a lease on the healthiest available account, if there is one. */
    method RequestLease(leaseId: Id, preferred: Option<Id>, now: real) returns (lease: Option<Lease>)
      requires Valid() && leaseId !in leases
      modifies this`leases, this`leaseIds, accounts.Values
      ensures Valid() && WellFormed(old(View())) && View() == AfterRequest(old(View()), leaseId, preferred, now)
      ensures lease.None? <==> Chosen(old(View()), preferred, now).None?
      ensures lease.Some? ==>
        fresh(lease.value) && lease.value.id == leaseId && leases == old(leases)[leaseId := lease.value]
    {
      hide AfterRequest, Chosen, AccountViews, LeaseViews, Distinct, Lists, WellFormed;
      ghost var before := View();
      var best := Choose(preferred, now);
      if best.None? {
        AfterNoRequest(before, leaseId, preferred, now);
        return None;
      }
      AfterRequestIs(before, leaseId, preferred, now, best.value);
      MarkInUse(best.value);
      var granted := AddLease(leaseId, best.value, now);
      lease := Some(granted);
    }

    method Choose(preferred: Option<Id>, now: real) returns (best: Option<Id>)
      requires Valid()
      ensures WellFormed(View()) && best == Chosen(View(), preferred, now)
    {
      hide Candidates, Chosen, Healthiest, AccountViews, LeaseViews, WellFormed, Distinct, Lists;
      var candidates := CollectCandidates(None, now);
      if preferred.Some? {
        var fromPreferred := CollectCandidates(preferred, now);
        if fromPreferred != [] {
          candidates := fromPreferred;
        }
      }
      ChoosesFrom(View(), preferred, now, candidates);
      if candidates == [] {
        return None;
      }
      var healthiest := PickHealthiest(candidates);
      best := Some(healthiest);
    }

    method AddLease(leaseId: Id, accountId: Id, now: real) returns (lease: Lease)
      requires Valid() && leaseId !in leases
      modifies this`leases, this`leaseIds
      ensures Valid() && fresh(lease) && lease.id == leaseId && leases == old(leases)[leaseId := lease]
      ensures View() == old(View()).(leases := old(View()).leases[leaseId := Granted(accountId, now)],
                                     leaseIds := old(View()).leaseIds + [leaseId])
    {
      ghost var before := View();
      lease := new Lease(leaseId, accountId);
      lease.Activate(now);
      assert View() == before;
      hide Distinct, Lists;
      ListsOneMore(leaseIds, leases.Keys, leaseId);
      InsertLease(lease);
    }

    method InsertLease(lease: Lease)
      requires Valid() && lease.id !in leases
      modifies this`leases, this`leaseIds
      ensures Valid() && leases == old(leases)[lease.id := lease]
      ensures View() == old(View()).(leases := old(View()).leases[lease.id := lease.View()],
                                     leaseIds := old(View()).leaseIds + [lease.id])
    {
      hide Distinct, Lists, AccountViews, LeaseViews, AccountsKeyed, LeasesKeyed;
      ListsOneMore(leaseIds, leases.Keys, lease.id);
      leaseIds := leaseIds + [lease.id];
      PutLease(lease);
    }

    method PutLease(lease: Lease)
      requires LeasesKeyed()
      modifies this`leases
      ensures LeasesKeyed() && leases == old(leases)[lease.id := lease]
      ensures leases.Keys == old(leases.Keys) + {lease.id}
      ensures LeaseViews() == old(LeaseViews())[lease.id := lease.View()] && AccountViews() == old(AccountViews())
    {
      hide AccountViews, LeaseViews;
      leases := leases[lease.id := lease];
    }

    method MarkInUse(id: Id)
      requires Valid() && id in accounts
      modifies accounts.Values
      ensures Valid()
      ensures View() == old(View()).(accounts := old(View()).accounts[id := old(View()).accounts[id].(state := InUse)])
    {
      hide Distinct, Lists, LeasesKeyed, AccountViews, LeaseViews;
      accounts[id].MarkActive();
    }

    /** Ends a lease and idles its account; tells whether the account is known. */
    method ReleaseLease(leaseId: Id) returns (account: Option<Account>)
      requires Valid()
      modifies accounts.Values, leases.Values
      ensures Valid() && View() == AfterRelease(old(View()), leaseId)
      ensures account ==
        if leaseId in leases && leases[leaseId].accountId in accounts
        then Some(accounts[leases[leaseId].accountId])
        else None
    {
      if leaseId !in leases {
        return None;
      }
      var accountId := leases[leaseId].accountId;
      EndByRelease(leaseId);
      if accountId !in accounts {
        return None;
      }
      ReturnToIdle(accountId);
      return Some(accounts[accountId]);
    }

    method RecordHeartbeat(leaseId: Id, now: real) returns (alive: bool)
      requires Valid()
      modifies leases.Values
      ensures Valid() && View() == Heartbeat(old(View()), leaseId, now)
      ensures alive == HeartbeatAccepted(old(View()), leaseId, now)
    {
      hide AccountViews, LeaseViews, Distinct, Lists, Beaten;
      if leaseId !in leases {
        return false;
      }
      if !leases[leaseId].IsAlive(now) {
        return false;
      }
      ExtendLease(leaseId, now);
      return true;
    }

    method ExtendLease(id: Id, now: real)
      requires Valid() && id in leases
      modifies leases.Values
      ensures Valid() && View() == WithLease(old(View()), id, Beaten(old(View()).leases[id], now))
    {
      hide Distinct, Lists, AccountsKeyed, AccountViews, LeaseViews;
      leases[id].Heartbeat(now);
    }

    /** Expires every overdue lease and sends its account to cooldown. */
    method ReclaimExpired(now: real) returns (reclaimed: seq<Id>)
      requires Valid()
      modifies accounts.Values, leases.Values
      ensures Valid() && View() == Reclaimed(old(View()), now)
      ensures forall id :: id in reclaimed <==> id in leases && Overdue(old(View()).leases[id], now)
    {
      hide ReclaimedAmong, AccountViews, LeaseViews, Reclaimed;
      hide Distinct, Lists, AccountsKeyed, LeasesKeyed, ReclaimedOne;
      reclaimed := [];
      ghost var before := View();
      ReclaimedNothing(before, now);
      for k := 0 to |leaseIds|
        invariant Valid() && View() == ReclaimedAmong(before, leaseIds[..k], now)
        invariant forall id :: id in reclaimed <==>
          id in leaseIds[..k] && id in leases && Overdue(before.leases[id], now)
      {
        var id := leaseIds[k];
        NextListed(leaseIds, leases.Keys, k);
        ReclaimedOneMore(before, leaseIds[..k], id, now);
        var expired := ReclaimLease(id, now);
        if expired {
          reclaimed := reclaimed + [id];
        }
      }
      assert leaseIds[..|leaseIds|] == leaseIds;
      ListedAreAll(leaseIds, leases.Keys);
      ReclaimedAll(before, now);
    }

    method ReclaimLease(id: Id, now: real) returns (expired: bool)
      requires Valid() && id in leases
      modifies accounts.Values, leases.Values
      ensures Valid() && View() == ReclaimedOne(old(View()), id, now)
      ensures expired == Overdue(old(View()).leases[id], now)
    {
      hide AccountViews, LeaseViews, Distinct, Lists, AccountsKeyed, LeasesKeyed, Ended, Cooled;
      if leases[id].state != Active {
        return false;
      }
      expired := ExpireIfOverdue(id, now);
      if expired {
        if leases[id].accountId in accounts {
          SendToCooldown(leases[id].accountId, now);
        }
      }
    }

    // -- One object at a time

    method ReturnToIdle(id: Id)
      requires Valid() && id in accounts
      modifies accounts.Values
      ensures Valid() && View() == WithAccount(old(View()), id, MarkedIdle(old(View()).accounts[id]))
    {
      hide Distinct, Lists, LeasesKeyed, AccountViews, LeaseViews;
      accounts[id].MarkIdle();
    }

    method SendToCooldown(id: Id, now: real)
      requires Valid() && id in accounts
      modifies accounts.Values
      ensures Valid() && View() == WithAccount(old(View()), id, Cooled(old(View()).accounts[id], now))
    {
      hide Distinct, Lists, LeasesKeyed, AccountViews, LeaseViews;
      accounts[id].EnterCooldown(RECLAIM_COOLDOWN, now);
    }

    method EndByRelease(id: Id)
      requires Valid() && id in leases
      modifies leases.Values
      ensures Valid() && View() == WithLease(old(View()), id, old(View()).leases[id].(state := Released))
    {
      hide Distinct, Lists, AccountsKeyed, AccountViews, LeaseViews;
      leases[id].Release();
    }

    method EndByExpiry(id: Id)
      requires Valid() && id in leases
      modifies leases.Values
      ensures Valid() && View() == WithLease(old(View()), id, Ended(old(View()).leases[id]))
    {
      hide Distinct, Lists, AccountsKeyed, AccountViews, LeaseViews;
      leases[id].Expire();
    }

    method ExpireIfOverdue(id: Id, now: real) returns (expired: bool)
      requires Valid() && id in leases
      modifies leases.Values
      ensures Valid() && expired == Overdue(old(View()).leases[id], now)
      ensures View() == if expired then WithLease(old(View()), id, Ended(old(View()).leases[id])) else old(View())
    {
      hide Distinct, Lists, AccountsKeyed, AccountViews, LeaseViews;
      expired := leases[id].CheckExpired(now);
    }

    /** Ends every active lease on the account; the account itself is left as it is. */
    method ForceExpireLeasesForAccount(accountId: Id) returns (expired: seq<Id>)
      requires Valid()
      modifies leases.Values
      ensures Valid() && View() == ForceExpired(old(View()), accountId)
      ensures forall id :: id in expired <==> id in leases && ActiveOn(old(View()), id, accountId)
    {
      hide ForceExpiredAmong, AccountViews, LeaseViews, ForceExpired;
      hide Distinct, Lists, AccountsKeyed, LeasesKeyed, ForceExpiredOne;
      expired := [];
      ghost var before := View();
      ForceExpiredNothing(before, accountId);
      for k := 0 to |leaseIds|
        invariant Valid() && View() == ForceExpiredAmong(before, leaseIds[..k], accountId)
        invariant forall id :: id in expired <==> id in leaseIds[..k] && id in leases && ActiveOn(before, id, accountId)
      {
        var id := leaseIds[k];
        NextListed(leaseIds, leases.Keys, k);
        ForceExpiredOneMore(before, leaseIds[..k], id, accountId);
        var ended := ForceExpireLease(id, accountId);
        if ended {
          expired := expired + [id];
        }
      }
      assert leaseIds[..|leaseIds|] == leaseIds;
      ListedAreAll(leaseIds, leases.Keys);
      ForceExpiredAll(before, accountId);
    }

    method ForceExpireLease(id: Id, accountId: Id) returns (ended: bool)
      requires Valid() && id in leases
      modifies leases.Values
      ensures Valid() && View() == ForceExpiredOne(old(View()), id, accountId)
      ensures ended == ActiveOn(old(View()), id, accountId)
    {
      hide AccountViews, LeaseViews, Distinct, Lists, AccountsKeyed, LeasesKeyed, Ended;
      ended := leases[id].accountId == accountId && leases[id].state == Active;
      if ended {
        EndByExpiry(id);
      }
    }

    method SetState(id: Id, state: AccountState)
      requires Valid() && id in accounts
      modifies accounts.Values
      ensures Valid() && View() == WithAccount(old(View()), id, old(View()).accounts[id].(state := state))
    {
      hide Distinct, Lists, LeasesKeyed, AccountViews, LeaseViews;
      accounts[id].state := state;
    }

    static lemma MarkedInSteps(p: Pool, account: Id, state: AccountState)
      requires account in p.accounts
      ensures ForceExpired(WithAccount(p, account, p.accounts[account].(state := state)), account) ==
        Marked(p, account, state)
    {}

    static lemma HeldIffExpired(p: Pool, q: Pool, account: Id, expired: seq<Id>)
      requires p.leases == q.leases && forall id :: id in expired <==> id in q.leases && ActiveOn(q, id, account)
      ensures Held(p, account) <==> expired != []
      ensures expired != [] ==> ActiveOn(p, expired[0], account)
    {
      if Held(p, account) {
        var id :| id in p.leases && ActiveOn(p, id, account);
        assert ActiveOn(q, id, account);
      }
      if expired != [] {
        assert expired[0] in expired && ActiveOn(p, expired[0], account);
      }
    }

    /** Marks an account, ending its leases; tells the event to emit, if the state
    changed: the old state and the first lease that was ended. */
    method MarkAccountUnavailable(accountId: Id, state: AccountState)
      returns (event: Option<(AccountState, Option<Id>)>)
      requires Valid()
      modifies accounts.Values, leases.Values
      ensures Valid() && View() == Marked(old(View()), accountId, state)
      ensures event.Some? <==> accountId in accounts && old(View()).accounts[accountId].state != state
      ensures event.Some? ==> event.value.0 == old(View()).accounts[accountId].state
      ensures event.Some? ==> (event.value.1.Some? <==> Held(old(View()), accountId))
      ensures event.Some? && event.value.1.Some? ==> ActiveOn(old(View()), event.value.1.value, accountId)
    {
      if accountId !in accounts {
        return None;
      }
      hide AccountViews, LeaseViews, Distinct, Lists, ForceExpired;
      ghost var before := View();
      var oldState := accounts[accountId].state;
      SetState(accountId, state);
      ghost var between := View();
      var expired := ForceExpireLeasesForAccount(accountId);
      MarkedInSteps(before, accountId, state);
      HeldIffExpired(before, between, accountId, expired);
      if oldState != state {
        event := Some((oldState, if expired == [] then None else Some(expired[0])));
      } else {
        event := None;
      }
    }
  }
}
