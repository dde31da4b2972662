/** When a lease gives exclusive access: the exact events after which two agents can come to
hold one account, over every run of the lease manager. */
module ExclusiveAccess {
  import opened FreshIds
  import opened Leases
  import opened Options

  // -- One event -----------------------------------------------------------------------------

  /** The request is granted an account that somebody still holds. */
  predicate GrantsHeldAccount(p: Pool, e: Event)
    requires WellFormed(p)
  {
    && e.Request?
    && var account := Chosen(p, e.preferred, e.now);
       account.Some? && Held(p, account.value)
  }

  /** Every active lease was active before, on the same account. */
  predicate NoNewActive(p: Pool, q: Pool) {
    forall id :: id in q.leases && q.leases[id].state == Active ==>
      id in p.leases && ActiveOn(p, id, q.leases[id].account)
  }

  lemma FewerStayApart(p: Pool, q: Pool)
    requires Apart(p) && NoNewActive(p, q)
    ensures Apart(q)
  {
    forall i, j | i in q.leases && j in q.leases && i != j && q.leases[i].state == Active && q.leases[j].state == Active
      ensures q.leases[i].account != q.leases[j].account
    {
      assert ActiveOn(p, i, q.leases[i].account) && ActiveOn(p, j, q.leases[j].account);
    }
  }

  lemma OnlyRequestsActivate(p: Pool, e: Event)
    requires Possible(p, e) && !e.Request?
    ensures NoNewActive(p, Step(p, e))
  {}

  lemma GrantIsApartIff(p: Pool, leaseId: Id, preferred: Option<Id>, now: real)
    requires Possible(p, Request(leaseId, preferred, now)) && Apart(p)
    ensures Apart(AfterRequest(p, leaseId, preferred, now)) <==>
      !GrantsHeldAccount(p, Request(leaseId, preferred, now))
  {
    var account := Chosen(p, preferred, now);
    if account.Some? {
      var a, q := account.value, AfterRequest(p, leaseId, preferred, now);
      AfterRequestIs(p, leaseId, preferred, now, a);
      if Held(p, a) {
        var id :| id in p.leases && ActiveOn(p, id, a);
        assert q.leases[id].account == q.leases[leaseId].account;
      } else {
        forall id | id in p.leases && p.leases[id].state == Active
          ensures p.leases[id].account != a
        {
          assert !ActiveOn(p, id, a);
        }
      }
    }
  }

  /** One event keeps accounts unshared if and only if it grants no account that is held. */
  lemma ApartIff(p: Pool, e: Event)
    requires Possible(p, e) && Apart(p)
    ensures Apart(Step(p, e)) <==> !GrantsHeldAccount(p, e)
  {
    hide Apart, AfterRequest;
    if e.Request? {
      GrantIsApartIff(p, e.leaseId, e.preferred, e.now);
    } else {
      OnlyRequestsActivate(p, e);
      FewerStayApart(p, Step(p, e));
    }
  }

  // -- The guard --------------------------------------------------------------------------------

  /** Unshared, and out of reach of further requests. */
  predicate Guarded(p: Pool) {
    && Apart(p)
    && forall id :: id in p.leases && p.leases[id].state == Active ==> OutOfReach(p, p.leases[id].account)
  }

  predicate OutOfReach(p: Pool, account: Id) {
    account in p.accounts && (p.accounts[account].state == InUse || p.accounts[account].state == Jail)
  }

  /** What a caller can check: an account that is held is registered anew only as in use or
  jailed, and an ended lease is released only while nobody holds its account. */
  predicate AccessSafe(p: Pool, e: Event) {
    Safe(p, e) || (e.Register? && e.account.state == Jail)
  }

  lemma GuardedHolder(p: Pool, account: Id)
    requires Guarded(p) && Held(p, account)
    ensures OutOfReach(p, account)
  {
    var id :| id in p.leases && ActiveOn(p, id, account);
  }

  lemma GuardedGrantsNothingHeld(p: Pool, e: Event)
    requires WellFormed(p) && Guarded(p)
    ensures !GrantsHeldAccount(p, e)
  {
    hide Apart;
    if GrantsHeldAccount(p, e) {
      GuardedHolder(p, Chosen(p, e.preferred, e.now).value);
      assert false;
    }
  }

  /** An event that activates nothing keeps the guard if the accounts still held do. */
  lemma GuardedByAccounts(p: Pool, q: Pool)
    requires Guarded(p) && NoNewActive(p, q)
    requires forall account :: Held(q, account) ==> OutOfReach(q, account)
    ensures Guarded(q)
  {
    hide OutOfReach;
    FewerStayApart(p, q);
    forall id | id in q.leases && q.leases[id].state == Active
      ensures OutOfReach(q, q.leases[id].account)
    {
      assert ActiveOn(q, id, q.leases[id].account);
      assert Held(q, q.leases[id].account);
    }
  }

  lemma StillHeld(p: Pool, q: Pool, account: Id)
    requires NoNewActive(p, q) && Held(q, account)
    ensures Held(p, account)
  {
    var id :| id in q.leases && ActiveOn(q, id, account);
    assert ActiveOn(p, id, account);
  }

  lemma RequestKeepsGuard(p: Pool, leaseId: Id, preferred: Option<Id>, now: real)
    requires Possible(p, Request(leaseId, preferred, now)) && Guarded(p)
    ensures Guarded(AfterRequest(p, leaseId, preferred, now))
  {
    var e := Request(leaseId, preferred, now);
    GuardedGrantsNothingHeld(p, e);
    GrantIsApartIff(p, leaseId, preferred, now);
    var account := Chosen(p, preferred, now);
    if account.Some? {
      AfterRequestIs(p, leaseId, preferred, now, account.value);
    }
  }

  lemma RegisterKeepsGuardIff(p: Pool, id: Id, a: AccountView)
    requires WellFormed(p) && Guarded(p)
    ensures Guarded(Registered(p, id, a)) <==> AccessSafe(p, Register(id, a))
  {
    hide Apart;
    var q := Registered(p, id, a);
    assert forall account :: Held(q, account) <==> Held(p, account) by {
      assert forall lease, account :: ActiveOn(q, lease, account) <==> ActiveOn(p, lease, account);
    }
    if AccessSafe(p, Register(id, a)) {
      forall account | Held(q, account)
        ensures OutOfReach(q, account)
      {
        GuardedHolder(p, account);
      }
      GuardedByAccounts(p, q);
    } else if Guarded(q) {
      GuardedHolder(q, id);
      assert false;
    }
  }

  lemma ReleaseKeepsGuardIff(p: Pool, leaseId: Id)
    requires WellFormed(p) && Guarded(p)
    ensures Guarded(AfterRelease(p, leaseId)) <==> AccessSafe(p, Release(leaseId))
  {
    var q := AfterRelease(p, leaseId);
    if AccessSafe(p, Release(leaseId)) {
      forall account | Held(q, account)
        ensures OutOfReach(q, account)
      {
        var id :| id in q.leases && ActiveOn(q, id, account);
        assert ActiveOn(p, id, account);
        GuardedHolder(p, account);
      }
      hide Apart;
      GuardedByAccounts(p, q);
    } else {
      var account := p.leases[leaseId].account;
      var id :| id in p.leases && ActiveOn(p, id, account);
      assert ActiveOn(q, id, account) && !OutOfReach(q, account);
    }
  }

  lemma ReclaimKeepsGuard(p: Pool, now: real)
    requires Guarded(p)
    ensures Guarded(Reclaimed(p, now))
  {
    var q := Reclaimed(p, now);
    forall id | id in q.leases && q.leases[id].state == Active
      ensures OutOfReach(q, q.leases[id].account)
    {
      var account := p.leases[id].account;
      forall other | other in p.leases && p.leases[other].account == account && p.leases[other].state == Active
        ensures other == id
      {}
      assert !HasOverdue(p.leases, account, now);
    }
  }

  lemma EndingKeepsGuard(p: Pool, account: Id, state: AccountState)
    requires Guarded(p)
    ensures Guarded(ForceExpired(p, account)) && Guarded(Marked(p, account, state))
  {}

  lemma BeatKeepsGuard(p: Pool, leaseId: Id, now: real)
    requires Guarded(p)
    ensures Guarded(Heartbeat(p, leaseId, now))
  {}

  /** One event keeps the guard if and only if it is access-safe. */
  lemma GuardedIff(p: Pool, e: Event)
    requires Possible(p, e) && Guarded(p)
    ensures Guarded(Step(p, e)) <==> AccessSafe(p, e)
  {
    hide Guarded, Registered, AfterRequest, AfterRelease, Heartbeat, Reclaimed, ForceExpired, Marked;
    match e
    case Register(id, a) => RegisterKeepsGuardIff(p, id, a);
    case Request(leaseId, preferred, now) => RequestKeepsGuard(p, leaseId, preferred, now);
    case Release(leaseId) => ReleaseKeepsGuardIff(p, leaseId);
    case Beat(leaseId, now) => BeatKeepsGuard(p, leaseId, now);
    case Reclaim(now) => ReclaimKeepsGuard(p, now);
    case Mark(id, state) => EndingKeepsGuard(p, id, state);
    case ForceExpire(id) => EndingKeepsGuard(p, id, Jail);
  }

  // -- Runs -----------------------------------------------------------------------------------------

  predicate GuardedThroughout(p: Pool, events: seq<Event>)
    requires PossibleRun(p, events)
    decreases |events|
  {
    Guarded(p) && (events == [] || GuardedThroughout(Step(p, events[0]), events[1..]))
  }

  predicate AccessSafeRun(p: Pool, events: seq<Event>)
    requires PossibleRun(p, events)
    decreases |events|
  {
    events == [] || (AccessSafe(p, events[0]) && AccessSafeRun(Step(p, events[0]), events[1..]))
  }

  predicate ApartThroughout(p: Pool, events: seq<Event>)
    requires PossibleRun(p, events)
    decreases |events|
  {
    Apart(p) && (events == [] || ApartThroughout(Step(p, events[0]), events[1..]))
  }

  /** Over every run the guard holds throughout if and only if every event is access-safe when
  it happens; and then no account is ever shared. */
  lemma {:induction false} AccessOverRuns(p: Pool, events: seq<Event>)
    requires PossibleRun(p, events) && Guarded(p)
    ensures GuardedThroughout(p, events) <==> AccessSafeRun(p, events)
    ensures AccessSafeRun(p, events) ==> ApartThroughout(p, events) && Apart(Run(p, events))
    decreases |events|
  {
    hide AccessSafe, Apart, Step;
    if events != [] {
      GuardedIff(p, events[0]);
      if AccessSafe(p, events[0]) {
        AccessOverRuns(Step(p, events[0]), events[1..]);
      }
    }
  }

  // -- Requests find an account that is held and available ----------------------------------------------

  predicate OnlyRequests(events: seq<Event>) {
    forall i :: 0 <= i < |events| ==> events[i].Request?
  }

  function AvailableIds(p: Pool, now: real): set<Id> {
    set id | id in p.accounts && Available(p.accounts[id], now)
  }

  lemma SomeoneIsChosen(p: Pool, account: Id, now: real)
    requires WellFormed(p) && account in p.accounts && Available(p.accounts[account], now)
    ensures Chosen(p, None, now).Some?
  {
    CandidatesAreAvailable(p, None, now, |p.accountIds|);
    assert p.accountIds[..|p.accountIds|] == p.accountIds;
    assert account in Candidates(p, None, now, |p.accountIds|);
  }

  /** A grant to somebody else leaves the account held and available, with one fewer
  available account before it. */
  lemma GrantElsewhere(p: Pool, account: Id, leaseId: Id, now: real)
    requires Possible(p, Request(leaseId, None, now)) && Held(p, account)
    requires account in p.accounts && Available(p.accounts[account], now)
    requires Chosen(p, None, now).Some? && Chosen(p, None, now).value != account
    ensures var q := AfterRequest(p, leaseId, None, now);
      && Held(q, account) && account in q.accounts && Available(q.accounts[account], now)
      && |AvailableIds(q, now)| < |AvailableIds(p, now)|
  {
    var a := Chosen(p, None, now).value;
    var q := AfterRequest(p, leaseId, None, now);
    AfterRequestIs(p, leaseId, None, now, a);
    var id :| id in p.leases && ActiveOn(p, id, account);
    assert ActiveOn(q, id, account);
    assert a in AvailableIds(p, now);
    assert AvailableIds(q, now) == AvailableIds(p, now) - {a};
  }

  /** While an account is both held and available, requests alone end in sharing. */
  lemma {:induction false} RequestsEndInSharing(p: Pool, account: Id, now: real) returns (events: seq<Event>)
    requires WellFormed(p) && Apart(p) && Held(p, account)
    requires account in p.accounts && Available(p.accounts[account], now)
    ensures OnlyRequests(events) && PossibleRun(p, events) && !Apart(Run(p, events))
    decreases |AvailableIds(p, now)|
  {
    hide Apart, Held, AvailableIds, Run, PossibleRun, AfterRequest;
    var leaseId := Unused(p.leases.Keys);
    var e := Request(leaseId, None, now);
    SomeoneIsChosen(p, account, now);
    var q := Step(p, e);
    ApartIff(p, e);
    var rest: seq<Event> := [];
    if Apart(q) {
      GrantElsewhere(p, account, leaseId, now);
      rest := RequestsEndInSharing(q, account, now);
    } else {
      NothingRuns(q, rest);
    }
    RunFrom(p, e, q, rest);
    events := [e] + rest;
  }

  lemma NothingRuns(p: Pool, events: seq<Event>)
    requires events == []
    ensures PossibleRun(p, events) && Run(p, events) == p
  {}

  /** An event that is not access-safe leaves an account held and, sooner or later, available. */
  lemma UnsafeExposes(p: Pool, e: Event) returns (account: Id, now: real)
    requires Possible(p, e) && Guarded(p) && !AccessSafe(p, e)
    ensures var q := Step(p, e);
      Apart(q) && Held(q, account) && account in q.accounts && Available(q.accounts[account], now)
  {
    ApartIff(p, e);
    var q := Step(p, e);
    if e.Register? {
      account := e.id;
      now := if e.account.cooldownUntil.Some? then e.account.cooldownUntil.value else 0.0;
    } else {
      account, now := p.leases[e.leaseId].account, 0.0;
    }
    var id :| id in p.leases && ActiveOn(p, id, account);
    assert ActiveOn(q, id, account);
  }

  lemma {:induction false} RequestsAreSafe(p: Pool, events: seq<Event>)
    requires PossibleRun(p, events) && OnlyRequests(events)
    ensures AccessSafeRun(p, events)
    decreases |events|
  {
    if events != [] {
      assert events[0].Request?;
      assert forall i :: 0 <= i < |events[1..]| ==> events[1..][i] == events[i + 1];
      RequestsAreSafe(Step(p, events[0]), events[1..]);
    }
  }

  /** The exact law: after an event no later requests can put two agents on one account if
  and only if the event is access-safe. */
  lemma AccessIsExclusiveIff(p: Pool, e: Event)
    requires Possible(p, e) && Guarded(p)
    ensures AccessSafe(p, e) <==> forall events ::
      PossibleRun(Step(p, e), events) && OnlyRequests(events) ==> Apart(Run(Step(p, e), events))
  {
    hide Step, AccessSafe, Apart, Guarded, OnlyRequests, Run, PossibleRun;
    var q := Step(p, e);
    if AccessSafe(p, e) {
      GuardedIff(p, e);
      forall events | PossibleRun(q, events) && OnlyRequests(events)
        ensures Apart(Run(q, events))
      {
        RequestsAreSafe(q, events);
        AccessOverRuns(q, events);
      }
    } else {
      var account, now := UnsafeExposes(p, e);
      var events := RequestsEndInSharing(q, account, now);
      assert PossibleRun(q, events) && OnlyRequests(events) && !Apart(Run(q, events));
    }
  }

  /** An empty pool is guarded. */
  lemma EmptyIsGuarded()
    ensures Guarded(EMPTY) && WellFormed(EMPTY)
  {}
}
