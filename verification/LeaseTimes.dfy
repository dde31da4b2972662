/** What the times of the lease manager mean: when an account that cools down may be granted
again, which account a request gets, and how long a lease lives. */
module LeaseTimes {
  import opened Leases
  import opened Options

  // -- Which account a request gets ------------------------------------------------------------

  /** An account that a request may be granted at `now`, with the times written out. */
  predicate Usable(p: Pool, id: Id, now: real) {
    && id in p.accounts
    && var a := p.accounts[id];
       || a.state == Idle || a.state == Warmup
       || (a.state == Cooldown && (a.cooldownUntil == None || a.cooldownUntil.value <= now))
  }

  /** Usable, and of the provider if one is given. */
  predicate Considered(p: Pool, provider: Option<Id>, id: Id, now: real) {
    Usable(p, id, now) && (provider.Some? ==> p.accounts[id].provider == provider.value)
  }

  /** Of the first `n` accounts the one at position `i` is considered, none considered is
  healthier, and those before it are less healthy. */
  predicate Leads(p: Pool, provider: Option<Id>, now: real, i: nat, n: nat) {
    && i < n <= |p.accountIds|
    && Considered(p, provider, p.accountIds[i], now)
    && forall j :: 0 <= j < n && Considered(p, provider, p.accountIds[j], now) ==>
      && p.accounts[p.accountIds[j]].health <= p.accounts[p.accountIds[i]].health
      && (j < i ==> p.accounts[p.accountIds[j]].health < p.accounts[p.accountIds[i]].health)
  }

  lemma LeadStarts(p: Pool, provider: Option<Id>, now: real, n: nat)
    requires 0 < n <= |p.accountIds| && Considered(p, provider, p.accountIds[n - 1], now)
    requires forall j :: 0 <= j < n - 1 ==> !Considered(p, provider, p.accountIds[j], now)
    ensures Leads(p, provider, now, n - 1, n)
  {}

  lemma LeadStays(p: Pool, provider: Option<Id>, now: real, i: nat, n: nat)
    requires 0 < n <= |p.accountIds| && Leads(p, provider, now, i, n - 1)
    requires Considered(p, provider, p.accountIds[n - 1], now) ==>
      p.accounts[p.accountIds[n - 1]].health <= p.accounts[p.accountIds[i]].health
    ensures Leads(p, provider, now, i, n)
  {}

  lemma LeadChanges(p: Pool, provider: Option<Id>, now: real, i: nat, n: nat)
    requires 0 < n <= |p.accountIds| && Leads(p, provider, now, i, n - 1)
    requires Considered(p, provider, p.accountIds[n - 1], now)
    requires p.accounts[p.accountIds[n - 1]].health > p.accounts[p.accountIds[i]].health
    ensures Leads(p, provider, now, n - 1, n)
  {}

  lemma OneMoreCandidate(p: Pool, provider: Option<Id>, now: real, n: nat)
    requires WellFormed(p) && 0 < n <= |p.accountIds|
    ensures var last := p.accountIds[n - 1];
      && last in p.accounts
      && Candidates(p, provider, now, n) ==
         Candidates(p, provider, now, n - 1) + if Considered(p, provider, last, now) then [last] else []
  {
    hide Distinct;
    assert p.accountIds[n - 1] in p.accountIds;
  }

  lemma CandidatesAreKnown(p: Pool, provider: Option<Id>, now: real, n: nat)
    requires WellFormed(p) && n <= |p.accountIds|
    ensures forall id :: id in Candidates(p, provider, now, n) ==> id in p.accounts
  {
    CandidatesAreAvailable(p, provider, now, n);
    ListedAreAll(p.accountIds, p.accounts.Keys);
  }

  /** The healthiest candidate among the first `n` accounts. */
  function BestCandidate(p: Pool, provider: Option<Id>, now: real, n: nat): Id
    requires WellFormed(p) && n <= |p.accountIds| && Candidates(p, provider, now, n) != []
  {
    CandidatesAreKnown(p, provider, now, n);
    Healthiest(p, Candidates(p, provider, now, n))
  }

  lemma BestOneMore(p: Pool, provider: Option<Id>, now: real, n: nat)
    requires WellFormed(p) && 0 < n <= |p.accountIds| && Candidates(p, provider, now, n) != []
    ensures var last := p.accountIds[n - 1];
      && last in p.accounts
      && (Candidates(p, provider, now, n - 1) == [] ==>
            Considered(p, provider, last, now) && BestCandidate(p, provider, now, n) == last)
      && (Candidates(p, provider, now, n - 1) != [] ==>
            var best := BestCandidate(p, provider, now, n - 1);
            && best in p.accounts
            && BestCandidate(p, provider, now, n) ==
               if Considered(p, provider, last, now) && p.accounts[last].health > p.accounts[best].health
               then last
               else best)
  {
    CandidatesAreKnown(p, provider, now, n);
    CandidatesAreKnown(p, provider, now, n - 1);
    OneMoreCandidate(p, provider, now, n);
    hide Candidates, Considered, WellFormed;
    var ids, before := Candidates(p, provider, now, n), Candidates(p, provider, now, n - 1);
    if Considered(p, provider, p.accountIds[n - 1], now) {
      assert ids[..|ids| - 1] == before && ids[|ids| - 1] == p.accountIds[n - 1];
    } else {
      assert before + [] == before;
    }
  }

  lemma {:induction false} BestCandidateLeads(p: Pool, provider: Option<Id>, now: real, n: nat) returns (i: nat)
    requires WellFormed(p) && n <= |p.accountIds| && Candidates(p, provider, now, n) != []
    ensures Leads(p, provider, now, i, n) && i < n && p.accountIds[i] == BestCandidate(p, provider, now, n)
  {
    hide Candidates, BestCandidate, Considered, Leads, WellFormed;
    NoneOfNone(p, provider, now);
    if Candidates(p, provider, now, n - 1) == [] {
      i := n - 1;
      OnlyCandidateLeads(p, provider, now, n);
    } else {
      i := BestCandidateLeads(p, provider, now, n - 1);
      i := NextCandidateLeads(p, provider, now, i, n);
    }
  }

  lemma NoneOfNone(p: Pool, provider: Option<Id>, now: real)
    requires WellFormed(p)
    ensures Candidates(p, provider, now, 0) == []
  {}

  lemma OnlyCandidateLeads(p: Pool, provider: Option<Id>, now: real, n: nat)
    requires WellFormed(p) && 0 < n <= |p.accountIds| && Candidates(p, provider, now, n) != []
    requires Candidates(p, provider, now, n - 1) == []
    ensures Leads(p, provider, now, n - 1, n) && p.accountIds[n - 1] == BestCandidate(p, provider, now, n)
  {
    hide Candidates, BestCandidate, Considered, Leads, WellFormed;
    BestOneMore(p, provider, now, n);
    forall j | 0 <= j < n - 1
      ensures !Considered(p, provider, p.accountIds[j], now)
    {
      NotACandidate(p, provider, now, n - 1, j);
    }
    LeadStarts(p, provider, now, n);
  }

  lemma NextCandidateLeads(p: Pool, provider: Option<Id>, now: real, before: nat, n: nat) returns (i: nat)
    requires WellFormed(p) && 0 < n <= |p.accountIds| && Candidates(p, provider, now, n) != []
    requires Candidates(p, provider, now, n - 1) != [] && Leads(p, provider, now, before, n - 1)
    requires before < n - 1 && p.accountIds[before] == BestCandidate(p, provider, now, n - 1)
    ensures i < n && Leads(p, provider, now, i, n) && p.accountIds[i] == BestCandidate(p, provider, now, n)
  {
    hide Candidates, BestCandidate, Considered, Leads, WellFormed;
    BestOneMore(p, provider, now, n);
    var last := p.accountIds[n - 1];
    if Considered(p, provider, last, now) && p.accounts[last].health > p.accounts[p.accountIds[before]].health {
      i := n - 1;
      LeadChanges(p, provider, now, before, n);
    } else {
      i := before;
      LeadStays(p, provider, now, before, n);
    }
  }

  lemma NotACandidate(p: Pool, provider: Option<Id>, now: real, n: nat, j: nat)
    requires WellFormed(p) && j < n <= |p.accountIds| && p.accountIds[j] !in Candidates(p, provider, now, n)
    ensures !Considered(p, provider, p.accountIds[j], now)
  {
    CandidatesAreAvailable(p, provider, now, n);
    assert p.accountIds[j] in p.accountIds[..n] && p.accountIds[j] in p.accountIds;
  }

  lemma CandidatesIff(p: Pool, provider: Option<Id>, now: real)
    requires WellFormed(p)
    ensures forall id :: id in Candidates(p, provider, now, |p.accountIds|) <==> Considered(p, provider, id, now)
  {
    CandidatesAreAvailable(p, provider, now, |p.accountIds|);
    ListedAreAll(p.accountIds, p.accounts.Keys);
    assert p.accountIds[..|p.accountIds|] == p.accountIds;
  }

  lemma NoneIsNoCandidate(p: Pool, provider: Option<Id>, now: real)
    requires WellFormed(p)
    ensures Candidates(p, provider, now, |p.accountIds|) == [] <==> forall id :: !Considered(p, provider, id, now)
  {
    CandidatesIff(p, provider, now);
    var ids := Candidates(p, provider, now, |p.accountIds|);
    if ids != [] {
      assert ids[0] in ids;
    }
  }

  /** A request fails if and only if no account is usable. Otherwise it is granted the first of
  the healthiest usable accounts: of the preferred provider, if that has a usable one, and of
  all providers if not. */
  lemma ChosenIsTheHealthiest(p: Pool, preferred: Option<Id>, now: real)
    requires WellFormed(p)
    ensures Chosen(p, preferred, now) == None <==> forall id :: !Usable(p, id, now)
    ensures Chosen(p, preferred, now).Some? ==>
      exists i: nat ::
        && Leads(p, if exists id :: Considered(p, preferred, id, now) then preferred else None, now, i, |p.accountIds|)
        && Chosen(p, preferred, now).value == p.accountIds[i]
  {
    NoneIsNoCandidate(p, preferred, now);
    NoneIsNoCandidate(p, None, now);
    assert forall id :: Considered(p, None, id, now) <==> Usable(p, id, now);
    if Candidates(p, preferred, now, |p.accountIds|) != [] {
      var i := BestCandidateLeads(p, preferred, now, |p.accountIds|);
    } else if Candidates(p, None, now, |p.accountIds|) != [] {
      var i := BestCandidateLeads(p, None, now, |p.accountIds|);
    }
  }

  // -- Cooling down -----------------------------------------------------------------------------

  /** Cooling down until a time, and held by nobody. */
  predicate Cooling(p: Pool, account: Id, until: real) {
    && account in p.accounts && p.accounts[account].state == Cooldown
    && p.accounts[account].cooldownUntil == Some(until)
    && !Held(p, account)
  }

  /** The event registers, marks or releases the account. */
  predicate Disturbs(p: Pool, e: Event, account: Id) {
    || (e.Register? && e.id == account)
    || (e.Mark? && e.id == account)
    || (e.Release? && e.leaseId in p.leases && p.leases[e.leaseId].account == account)
  }

  /** Nothing disturbs the account, and all requests come before a time. */
  predicate LeftAlone(p: Pool, events: seq<Event>, account: Id, until: real)
    requires PossibleRun(p, events)
    decreases |events|
  {
    events == [] || (
      && !Disturbs(p, events[0], account) && (events[0].Request? ==> events[0].now < until)
      && LeftAlone(Step(p, events[0]), events[1..], account, until))
  }

  /** No request of the run is granted the account. */
  predicate NeverGranted(p: Pool, events: seq<Event>, account: Id)
    requires PossibleRun(p, events)
    decreases |events|
  {
    events == [] || (
      && (events[0].Request? ==> Chosen(p, events[0].preferred, events[0].now) != Some(account))
      && NeverGranted(Step(p, events[0]), events[1..], account))
  }

  lemma StillFree(p: Pool, q: Pool, account: Id)
    requires !Held(p, account) && NoNewHolder(p, q, account)
    ensures !Held(q, account)
  {}

  lemma RequestLeavesCooling(p: Pool, leaseId: Id, preferred: Option<Id>, now: real, account: Id, until: real)
    requires Possible(p, Request(leaseId, preferred, now)) && Cooling(p, account, until) && now < until
    ensures Chosen(p, preferred, now) != Some(account)
    ensures Cooling(AfterRequest(p, leaseId, preferred, now), account, until)
  {
    var q := AfterRequest(p, leaseId, preferred, now);
    assert NoNewHolder(p, q, account);
    StillFree(p, q, account);
  }

  lemma ReclaimLeavesCooling(p: Pool, now: real, account: Id, until: real)
    requires Cooling(p, account, until)
    ensures Cooling(Reclaimed(p, now), account, until)
  {
    forall id | id in p.leases && p.leases[id].account == account
      ensures !Overdue(p.leases[id], now)
    {
      assert ActiveOn(p, id, account) <==> p.leases[id].state == Active;
    }
    assert !HasOverdue(p.leases, account, now);
    assert NoNewHolder(p, Reclaimed(p, now), account);
    StillFree(p, Reclaimed(p, now), account);
  }

  lemma StepLeavesCooling(p: Pool, e: Event, account: Id, until: real)
    requires Possible(p, e) && Cooling(p, account, until) && !Disturbs(p, e, account)
    requires e.Request? ==> e.now < until
    ensures Cooling(Step(p, e), account, until)
    ensures e.Request? ==> Chosen(p, e.preferred, e.now) != Some(account)
  {
    hide AfterRequest, Reclaimed, Held;
    match e
    case Request(leaseId, preferred, now) => RequestLeavesCooling(p, leaseId, preferred, now, account, until);
    case Reclaim(now) => ReclaimLeavesCooling(p, now, account, until);
    case _ =>
      assert NoNewHolder(p, Step(p, e), account);
      StillFree(p, Step(p, e), account);
  }

  lemma {:induction false} CoolingLasts(p: Pool, events: seq<Event>, account: Id, until: real)
    requires PossibleRun(p, events) && Cooling(p, account, until) && LeftAlone(p, events, account, until)
    ensures NeverGranted(p, events, account) && Cooling(Run(p, events), account, until)
    decreases |events|
  {
    hide Cooling, Step, Disturbs;
    if events != [] {
      StepLeavesCooling(p, events[0], account, until);
      CoolingLasts(Step(p, events[0]), events[1..], account, until);
    }
  }

  lemma ReclaimStartsCooling(p: Pool, t: real, account: Id, leaseId: Id)
    requires WellFormed(p) && Exclusive(p) && leaseId in p.leases && ActiveOn(p, leaseId, account)
    requires p.leases[leaseId].expiresAt.Some? && t > p.leases[leaseId].expiresAt.value
    ensures Cooling(Reclaimed(p, t), account, t + 300.0)
  {
    var q := Reclaimed(p, t);
    assert HasOverdue(p.leases, account, t);
    forall id | id in q.leases
      ensures !ActiveOn(q, id, account)
    {}
  }

  lemma {:induction false} RunsAreWellFormed(p: Pool, events: seq<Event>)
    requires WellFormed(p) && PossibleRun(p, events)
    ensures WellFormed(Run(p, events))
    decreases |events|
  {
    hide WellFormed;
    if events != [] {
      RunsAreWellFormed(Step(p, events[0]), events[1..]);
    }
  }

  /** Over every run: once a reclaim at `t` has ended a lease on an account, and while nobody
  registers, marks or releases the account, no request before `t + 300` is granted it. Then,
  at `now`, it is considered by requests if and only if `now` is at least `t + 300`; and if it is
  the only account, a request is granted it exactly from then on. */
  lemma ReclaimedAccountCoolsDown(p: Pool, t: real, account: Id, leaseId: Id, events: seq<Event>, now: real)
    requires WellFormed(p) && Exclusive(p) && leaseId in p.leases && ActiveOn(p, leaseId, account)
    requires p.leases[leaseId].expiresAt.Some? && t > p.leases[leaseId].expiresAt.value
    requires PossibleRun(Reclaimed(p, t), events) && LeftAlone(Reclaimed(p, t), events, account, t + 300.0)
    ensures NeverGranted(Reclaimed(p, t), events, account)
    ensures var q := Run(Reclaimed(p, t), events);
      && WellFormed(q)
      && (account in Candidates(q, None, now, |q.accountIds|) <==> now >= t + 300.0)
      && (q.accounts.Keys == {account} ==> Chosen(q, None, now) == if now >= t + 300.0 then Some(account) else None)
  {
    assert Step(p, Reclaim(t)) == Reclaimed(p, t);
    hide Reclaimed, Run, PossibleRun, LeftAlone, NeverGranted, Candidates, Chosen, WellFormed;
    ReclaimStartsCooling(p, t, account, leaseId);
    CoolingLasts(Reclaimed(p, t), events, account, t + 300.0);
    RunsAreWellFormed(Reclaimed(p, t), events);
    CooledIsConsidered(Run(Reclaimed(p, t), events), account, t + 300.0, now);
  }

  lemma CooledIsConsidered(q: Pool, account: Id, until: real, now: real)
    requires WellFormed(q) && Cooling(q, account, until)
    ensures account in Candidates(q, None, now, |q.accountIds|) <==> now >= until
    ensures q.accounts.Keys == {account} ==> Chosen(q, None, now) == if now >= until then Some(account) else None
  {
    hide Candidates, Chosen;
    CandidatesIff(q, None, now);
    ChosenIsTheHealthiest(q, None, now);
    ListedAreAll(q.accountIds, q.accounts.Keys);
    assert Usable(q, account, now) <==> now >= until;
    if q.accounts.Keys == {account} {
      assert forall id :: Usable(q, id, now) ==> id == account;
      if Chosen(q, None, now).Some? {
        var i: nat :| i < |q.accountIds| && Chosen(q, None, now).value == q.accountIds[i];
        assert q.accountIds[i] in q.accountIds;
      }
    }
  }

  /** Idle accounts and accounts that warm up are always considered. */
  lemma IdleIsConsidered(p: Pool, account: Id, now: real)
    requires WellFormed(p) && account in p.accounts
    requires p.accounts[account].state == Idle || p.accounts[account].state == Warmup
    ensures account in Candidates(p, None, now, |p.accountIds|) && Chosen(p, None, now).Some?
  {
    CandidatesIff(p, None, now);
    assert Considered(p, None, account, now);
    ChosenIsTheHealthiest(p, None, now);
  }

  /** A release makes the account one that any request may get, at once and with a clean
  record. */
  lemma ReleasedAccountIsUsable(p: Pool, leaseId: Id, now: real)
    requires WellFormed(p) && leaseId in p.leases && p.leases[leaseId].account in p.accounts
    ensures var q, account := AfterRelease(p, leaseId), p.leases[leaseId].account;
      && Usable(q, account, now) && Chosen(q, None, now).Some?
      && q.accounts[account].failures == 0 && q.accounts[account].cooldownUntil == None
      && q.leases[leaseId].state == Released
  {
    var q := AfterRelease(p, leaseId);
    IdleIsConsidered(q, p.leases[leaseId].account, now);
  }

  // -- Jail ---------------------------------------------------------------------------------------

  /** In jail and held by nobody. */
  predicate Jailed(p: Pool, account: Id) {
    account in p.accounts && p.accounts[account].state == Jail && !Held(p, account)
  }

  predicate Undisturbed(p: Pool, events: seq<Event>, account: Id)
    requires PossibleRun(p, events)
    decreases |events|
  {
    events == [] || (!Disturbs(p, events[0], account) && Undisturbed(Step(p, events[0]), events[1..], account))
  }

  lemma MarkingJails(p: Pool, account: Id)
    requires WellFormed(p) && account in p.accounts
    ensures Jailed(Marked(p, account, Jail), account)
  {
    var q := Marked(p, account, Jail);
    forall id | id in q.leases
      ensures !ActiveOn(q, id, account)
    {}
  }

  lemma StepLeavesJailed(p: Pool, e: Event, account: Id)
    requires Possible(p, e) && Jailed(p, account) && !Disturbs(p, e, account)
    ensures Jailed(Step(p, e), account)
    ensures e.Request? ==> Chosen(p, e.preferred, e.now) != Some(account)
  {
    hide AfterRequest, Reclaimed, Held;
    match e
    case Request(leaseId, preferred, now) => RequestLeavesJailed(p, leaseId, preferred, now, account);
    case Reclaim(now) => ReclaimLeavesJailed(p, now, account);
    case _ =>
      assert NoNewHolder(p, Step(p, e), account);
      StillFree(p, Step(p, e), account);
  }

  lemma RequestLeavesJailed(p: Pool, leaseId: Id, preferred: Option<Id>, now: real, account: Id)
    requires Possible(p, Request(leaseId, preferred, now)) && Jailed(p, account)
    ensures Chosen(p, preferred, now) != Some(account)
    ensures Jailed(AfterRequest(p, leaseId, preferred, now), account)
  {
    var q := AfterRequest(p, leaseId, preferred, now);
    assert NoNewHolder(p, q, account);
    StillFree(p, q, account);
  }

  lemma ReclaimLeavesJailed(p: Pool, now: real, account: Id)
    requires Jailed(p, account)
    ensures Jailed(Reclaimed(p, now), account)
  {
    forall id | id in p.leases && p.leases[id].account == account
      ensures !Overdue(p.leases[id], now)
    {
      assert ActiveOn(p, id, account) <==> p.leases[id].state == Active;
    }
    assert !HasOverdue(p.leases, account, now);
    assert NoNewHolder(p, Reclaimed(p, now), account);
    StillFree(p, Reclaimed(p, now), account);
  }

  lemma {:induction false} JailLasts(p: Pool, events: seq<Event>, account: Id)
    requires PossibleRun(p, events) && Jailed(p, account) && Undisturbed(p, events, account)
    ensures NeverGranted(p, events, account) && Jailed(Run(p, events), account)
    decreases |events|
  {
    hide Jailed, Step, Disturbs;
    if events != [] {
      StepLeavesJailed(p, events[0], account);
      JailLasts(Step(p, events[0]), events[1..], account);
    }
  }

  /** Over every run: an account marked as jailed is held by nobody and granted to no request, at
  whatever time, until somebody registers it anew, marks it or releases a lease on it. */
  lemma JailedAccountIsNeverGranted(p: Pool, account: Id, events: seq<Event>)
    requires WellFormed(p) && account in p.accounts
    requires PossibleRun(Marked(p, account, Jail), events) && Undisturbed(Marked(p, account, Jail), events, account)
    ensures NeverGranted(Marked(p, account, Jail), events, account)
    ensures Jailed(Run(Marked(p, account, Jail), events), account)
  {
    hide Marked, Run, PossibleRun, Undisturbed, NeverGranted;
    MarkingJails(p, account);
    JailLasts(Marked(p, account, Jail), events, account);
  }

  // -- How long a lease lives ------------------------------------------------------------------

  /** While active, last beaten at `b`, and due between 150 and 300 seconds later. */
  predicate InTerm(p: Pool, id: Id, b: real) {
    && id in p.leases
    && var l := p.leases[id];
       l.state == Active ==>
         && l.ttl == 300.0 && l.heartbeatAt == Some(b) && l.expiresAt.Some?
         && b + 150.0 <= l.expiresAt.value <= b + 300.0
  }

  lemma GrantIsInTerm(p: Pool, id: Id, preferred: Option<Id>, now: real)
    requires Possible(p, Request(id, preferred, now)) && Chosen(p, preferred, now).Some?
    ensures var q := Step(p, Request(id, preferred, now));
      InTerm(q, id, now) && q.leases[id].state == Active && q.leases[id].expiresAt == Some(now + 300.0)
  {}

  /** A heartbeat is accepted up to the deadline and no later; it moves the deadline to 300
  seconds from now if less than 150 are left, and leaves it otherwise. */
  lemma HeartbeatExtends(p: Pool, id: Id, b: real, now: real)
    requires InTerm(p, id, b) && p.leases[id].state == Active && b <= now
    ensures var l, q := p.leases[id], Heartbeat(p, id, now);
      && (HeartbeatAccepted(p, id, now) <==> now <= l.expiresAt.value)
      && (now <= l.expiresAt.value ==>
            && InTerm(q, id, now) && q.leases[id].state == Active
            && q.leases[id].expiresAt ==
               Some(if now + 150.0 > l.expiresAt.value then now + 300.0 else l.expiresAt.value))
      && (now > l.expiresAt.value ==> q == p)
  {}

  /** A reclaim ends an active lease if and only if its deadline has passed. */
  lemma ReclaimEndsIff(p: Pool, id: Id, b: real, now: real)
    requires InTerm(p, id, b) && p.leases[id].state == Active
    ensures Reclaimed(p, now).leases[id].state == (if now > p.leases[id].expiresAt.value then Expired else Active)
    ensures InTerm(Reclaimed(p, now), id, b)
  {}

  predicate Unattended(events: seq<Event>, id: Id) {
    forall i :: 0 <= i < |events| ==> !(events[i].Beat? && events[i].leaseId == id)
  }

  predicate ReclaimedAfter(events: seq<Event>, time: real) {
    exists i :: 0 <= i < |events| && events[i].Reclaim? && events[i].now > time
  }

  lemma UnattendedStep(p: Pool, e: Event, id: Id, b: real)
    requires Possible(p, e) && InTerm(p, id, b) && !(e.Beat? && e.leaseId == id)
    ensures InTerm(Step(p, e), id, b)
    ensures p.leases[id].state != Active ==> Step(p, e).leases[id].state != Active
    ensures e.Reclaim? && e.now > b + 300.0 ==> Step(p, e).leases[id].state != Active
  {}

  /** Over every run: a lease that nobody beats is not active after any reclaim later than 300
  seconds from its last beat, whatever else happens. */
  lemma {:induction false} UnattendedLeaseEnds(p: Pool, events: seq<Event>, id: Id, b: real)
    requires PossibleRun(p, events) && InTerm(p, id, b) && Unattended(events, id)
    ensures InTerm(Run(p, events), id, b)
    ensures p.leases[id].state != Active || ReclaimedAfter(events, b + 300.0) ==>
      Run(p, events).leases[id].state != Active
    decreases |events|
  {
    hide Step;
    if events != [] {
      var rest := events[1..];
      assert forall i :: 0 <= i < |rest| ==> rest[i] == events[i + 1];
      UnattendedStep(p, events[0], id, b);
      UnattendedLeaseEnds(Step(p, events[0]), rest, id, b);
      if ReclaimedAfter(events, b + 300.0) {
        var i :| 0 <= i < |events| && events[i].Reclaim? && events[i].now > b + 300.0;
        if i > 0 {
          assert rest[i - 1] == events[i];
        }
      }
    }
  }
}
