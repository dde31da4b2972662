/** The circuit breaker around calls to a provider.

A call has two atomic sections on the event loop: what happens before its body is
awaited, and what happens when the body ends. Other calls interleave between them. */
module CircuitBreakers {

  import opened FreshIds
  import opened Options
  import Positions

  datatype Mode = Closed | Open | HalfOpen

  datatype Config = Config(threshold: nat, timeoutMs: real, maxProbes: nat)

  predicate ValidConfig(c: Config) {
    c.threshold >= 1 && c.timeoutMs >= 0.0 && c.maxProbes >= 1
  }

  datatype Breaker = Breaker(mode: Mode, failures: nat, lastFailure: Option<real>, used: int)

  const START: Breaker := Breaker(Closed, 0, None, 0)

  datatype Admission = Rejected | Normal | Probe

  /** How the body of a call ends; a cancelled one is neither success nor failure. */
  datatype Outcome = Success | Failure | Cancelled

  /** The recovery timeout has passed since the latest failure. */
  predicate Recovered(c: Config, b: Breaker, now: real) {
    b.lastFailure.Some? && (now - b.lastFailure.value) * 1000.0 >= c.timeoutMs
  }

  predicate Resets(c: Config, b: Breaker, now: real) {
    b.mode == Open && Recovered(c, b, now)
  }

  function Sync(c: Config, b: Breaker, now: real): Breaker {
    if Resets(c, b, now) then b.(mode := HalfOpen, used := 0) else b
  }

  function Begin(c: Config, b: Breaker, now: real): (r: (Breaker, Admission)) {
    var s := Sync(c, b, now);
    match s.mode
    case Open => (s, Rejected)
    case HalfOpen => if s.used >= c.maxProbes then (s, Rejected) else (s.(used := s.used + 1), Probe)
    case Closed => (s, Normal)
  }

  function RecordSuccess(b: Breaker): Breaker {
    b.(failures := 0, mode := if b.mode == HalfOpen then Closed else b.mode)
  }

  function RecordFailure(c: Config, b: Breaker, now: real): Breaker {
    b.(failures := b.failures + 1, lastFailure := Some(now),
       mode := if b.failures + 1 >= c.threshold then Open else b.mode)
  }

  function Record(c: Config, b: Breaker, outcome: Outcome, now: real): Breaker {
    match outcome
    case Success => RecordSuccess(b)
    case Failure => RecordFailure(c, b, now)
    case Cancelled => b
  }

  function Finish(c: Config, b: Breaker, probe: bool, outcome: Outcome, now: real): Breaker {
    var r := Record(c, b, outcome, now);
    if probe then r.(used := r.used - 1) else r
  }

  // -- Overlapping calls ---------------------------------------------------------------------

  datatype Event =
    | Start(id: nat, now: real)
    | End(id: nat, outcome: Outcome, now: real)
    | ReadState(now: real)
    | ExternalSuccess
    | ExternalFailure(now: real)

  /** A call in flight: not a probe, or a probe of the given epoch. Each reset from
  open to half-open begins an epoch. */
  datatype Flight = Ordinary | ProbeOf(epoch: nat)

  /** The breaker, the calls in flight, and a ledger of the current epoch: the probes
  started in it, and the probes ended in it that belong to it or to an older one. */
  datatype World = World(b: Breaker, flights: map<nat, Flight>, epoch: nat, started: nat, endedOwn: nat, endedOld: nat)

  const CALM: World := World(START, map[], 0, 0, 0, 0)

  /** Applies a possible reset; the ledger starts anew with it. */
  function SyncWorld(c: Config, w: World, now: real): World {
    if Resets(c, w.b, now) then World(Sync(c, w.b, now), w.flights, w.epoch + 1, 0, 0, 0) else w
  }

  /** One atomic section of some call. Identifiers are fresh; ending an unknown call
  does nothing. */
  function Step(c: Config, w: World, e: Event): World {
    match e
    case Start(id, now) =>
      if id in w.flights then w
      else
        var s := SyncWorld(c, w, now);
        var (b, admission) := Begin(c, w.b, now);
        (match admission
         case Rejected => s.(b := b)
         case Normal => s.(b := b, flights := s.flights[id := Ordinary])
         case Probe => s.(b := b, flights := s.flights[id := ProbeOf(s.epoch)], started := s.started + 1))
    case End(id, outcome, now) =>
      if id !in w.flights then w
      else
        var flight := w.flights[id];
        var b := Finish(c, w.b, flight.ProbeOf?, outcome, now);
        var s := w.(b := b, flights := w.flights - {id});
        if flight.Ordinary? then s
        else if flight.epoch == w.epoch then s.(endedOwn := w.endedOwn + 1)
        else s.(endedOld := w.endedOld + 1)
    case ReadState(now) => SyncWorld(c, w, now)
    case ExternalSuccess => w.(b := RecordSuccess(w.b))
    case ExternalFailure(now) => w.(b := RecordFailure(c, w.b, now))
  }

  function Run(c: Config, events: seq<Event>): World {
    if events == [] then CALM else Step(c, Run(c, events[..|events| - 1]), events[|events| - 1])
  }

  /** The probes of an epoch that are in flight. */
  function InFlight(w: World, epoch: nat): set<nat> {
    set id | id in w.flights && w.flights[id] == ProbeOf(epoch)
  }

  /** What every interleaving keeps. */
  predicate Accounted(c: Config, w: World) {
    && w.b.used == w.started - w.endedOwn - w.endedOld
    && w.b.used <= c.maxProbes
    && |InFlight(w, w.epoch)| == w.started - w.endedOwn
    && forall id :: id in w.flights && w.flights[id].ProbeOf? ==> w.flights[id].epoch <= w.epoch
  }

  lemma SyncAccounted(c: Config, w: World, now: real)
    requires ValidConfig(c) && Accounted(c, w)
    ensures Accounted(c, SyncWorld(c, w, now))
    ensures SyncWorld(c, w, now).b == Sync(c, w.b, now) && SyncWorld(c, w, now).flights == w.flights
  {
    if Resets(c, w.b, now) {
      assert InFlight(SyncWorld(c, w, now), w.epoch + 1) == {};
    }
  }

  lemma OneMoreFlight(s: World, after: World, id: nat, admission: Admission)
    requires id !in s.flights && after.epoch == s.epoch
    requires after.flights == match admission
             case Rejected => s.flights
             case Normal => s.flights[id := Ordinary]
             case Probe => s.flights[id := ProbeOf(s.epoch)]
    ensures InFlight(after, s.epoch) == InFlight(s, s.epoch) + if admission == Probe then {id} else {}
    ensures id !in InFlight(s, s.epoch)
  {}

  lemma BeginCounts(c: Config, b: Breaker, now: real)
    ensures var (after, admission) := Begin(c, b, now);
      && after.used == Sync(c, b, now).used + (if admission == Probe then 1 else 0)
      && (admission == Probe ==> after.used <= c.maxProbes)
  {}

  lemma StartIs(c: Config, w: World, id: nat, now: real)
    requires id !in w.flights
    ensures var s, after, admission := SyncWorld(c, w, now), Step(c, w, Start(id, now)), Begin(c, w.b, now).1;
      && after.b == Begin(c, w.b, now).0 && after.epoch == s.epoch
      && after.started == s.started + (if admission == Probe then 1 else 0)
      && after.endedOwn == s.endedOwn && after.endedOld == s.endedOld
      && after.flights == (match admission
                           case Rejected => s.flights
                           case Normal => s.flights[id := Ordinary]
                           case Probe => s.flights[id := ProbeOf(s.epoch)])
  {
    hide SyncWorld, Begin;
  }

  lemma StartAccounted(c: Config, w: World, id: nat, now: real)
    requires ValidConfig(c) && Accounted(c, w)
    ensures Accounted(c, Step(c, w, Start(id, now)))
  {
    if id !in w.flights {
      var s, after := SyncWorld(c, w, now), Step(c, w, Start(id, now));
      SyncAccounted(c, w, now);
      BeginCounts(c, w.b, now);
      StartIs(c, w, id, now);
      hide Step, SyncWorld, Sync, Begin, InFlight;
      OneMoreFlight(s, after, id, Begin(c, w.b, now).1);
    }
  }

  lemma EndAccounted(c: Config, w: World, id: nat, outcome: Outcome, now: real)
    requires ValidConfig(c) && Accounted(c, w)
    ensures Accounted(c, Step(c, w, End(id, outcome, now)))
  {
    if id in w.flights {
      var after := Step(c, w, End(id, outcome, now));
      if w.flights[id] == ProbeOf(w.epoch) {
        assert InFlight(after, w.epoch) == InFlight(w, w.epoch) - {id};
        assert id in InFlight(w, w.epoch);
      } else {
        assert InFlight(after, w.epoch) == InFlight(w, w.epoch);
      }
    }
  }

  /** In every interleaving: the counter is the probes started less the probes ended
  since the last reset, and never exceeds the limit; so the probes of the current epoch
  in flight are exactly the counter plus the older probes that ended since. */
  lemma {:induction false} EveryInterleavingIsAccounted(c: Config, events: seq<Event>)
    requires ValidConfig(c)
    ensures var w := Run(c, events);
      && Accounted(c, w)
      && |InFlight(w, w.epoch)| == w.b.used + w.endedOld
      && (w.endedOld == 0 ==> |InFlight(w, w.epoch)| <= c.maxProbes)
  {
    if events == [] {
      assert InFlight(CALM, 0) == {};
    } else {
      var before, e := events[..|events| - 1], events[|events| - 1];
      EveryInterleavingIsAccounted(c, before);
      var w := Run(c, before);
      match e
      case Start(id, now) => StartAccounted(c, w, id, now);
      case End(id, outcome, now) => EndAccounted(c, w, id, outcome, now);
      case ReadState(now) => SyncAccounted(c, w, now);
      case ExternalSuccess => assert InFlight(Run(c, events), w.epoch) == InFlight(w, w.epoch);
      case ExternalFailure(now) => assert InFlight(Run(c, events), w.epoch) == InFlight(w, w.epoch);
    }
  }

  lemma RunOneMore(c: Config, events: seq<Event>, e: Event)
    ensures Run(c, events + [e]) == Step(c, Run(c, events), e)
  {
    assert (events + [e])[..|events|] == events;
  }

  const ONE_PROBE: Config := Config(1, 0.0, 1)

  lemma ProbeWithAStraggler() returns (events: seq<Event>)
    ensures Run(ONE_PROBE, events) ==
      World(Breaker(HalfOpen, 1, Some(0.0), 1), map[1 := Ordinary, 2 := ProbeOf(1)], 1, 1, 0, 0)
  {
    hide Run;
    var c := ONE_PROBE;
    var w1 := CALM.(flights := map[0 := Ordinary]);
    var w2 := CALM.(flights := map[0 := Ordinary, 1 := Ordinary]);
    var w3 := World(Breaker(Open, 1, Some(0.0), 0), map[1 := Ordinary], 0, 0, 0, 0);
    var w4 := World(Breaker(HalfOpen, 1, Some(0.0), 1), map[1 := Ordinary, 2 := ProbeOf(1)], 1, 1, 0, 0);
    RunOfNothing(c);
    var e1 := OneMore(c, [], CALM, Start(0, 0.0), w1);
    var e2 := OneMore(c, e1, w1, Start(1, 0.0), w2);
    assert w2.flights - {0} == w3.flights;
    var e3 := OneMore(c, e2, w2, End(0, Failure, 0.0), w3);
    events := OneMore(c, e3, w3, Start(2, 0.0), w4);
  }

  lemma ProbeOutlivesAReset() returns (events: seq<Event>)
    ensures Run(ONE_PROBE, events) ==
      World(Breaker(HalfOpen, 2, Some(0.0), 1), map[2 := ProbeOf(1), 3 := ProbeOf(2)], 2, 1, 0, 0)
  {
    hide Run;
    var c := ONE_PROBE;
    var w4 := World(Breaker(HalfOpen, 1, Some(0.0), 1), map[1 := Ordinary, 2 := ProbeOf(1)], 1, 1, 0, 0);
    var w5 := World(Breaker(Open, 2, Some(0.0), 1), map[2 := ProbeOf(1)], 1, 1, 0, 0);
    var w6 := World(Breaker(HalfOpen, 2, Some(0.0), 1), map[2 := ProbeOf(1), 3 := ProbeOf(2)], 2, 1, 0, 0);
    var e4 := ProbeWithAStraggler();
    assert w4.flights - {1} == w5.flights;
    var e5 := OneMore(c, e4, w4, End(1, Failure, 0.0), w5);
    events := OneMore(c, e5, w5, Start(3, 0.0), w6);
  }

  /** A probe that outlives a reset gives back a slot it does not hold: with a limit of
  one, two probes of the same epoch are then in flight. */
  lemma StraddlingProbeLeaksASlot() returns (c: Config, events: seq<Event>)
    ensures ValidConfig(c) && c.maxProbes == 1
    ensures var w := Run(c, events); |InFlight(w, w.epoch)| == 2 && w.endedOld == 1
  {
    hide Run;
    c := ONE_PROBE;
    var w6 := World(Breaker(HalfOpen, 2, Some(0.0), 1), map[2 := ProbeOf(1), 3 := ProbeOf(2)], 2, 1, 0, 0);
    var w7 := World(Breaker(HalfOpen, 2, Some(0.0), 0), map[3 := ProbeOf(2)], 2, 1, 0, 1);
    var w8 := World(Breaker(HalfOpen, 2, Some(0.0), 1), map[3 := ProbeOf(2), 4 := ProbeOf(2)], 2, 2, 0, 1);
    var e6 := ProbeOutlivesAReset();
    assert w6.flights - {2} == w7.flights;
    var e7 := OneMore(c, e6, w6, End(2, Cancelled, 0.0), w7);
    events := OneMore(c, e7, w7, Start(4, 0.0), w8);
    assert InFlight(w8, 2) == {3, 4};
  }

  lemma RunOfNothing(c: Config)
    ensures Run(c, []) == CALM
  {}

  lemma OneMore(c: Config, events: seq<Event>, w: World, e: Event, after: World) returns (longer: seq<Event>)
    requires Run(c, events) == w && Step(c, w, e) == after
    ensures longer == events + [e] && Run(c, longer) == after
  {
    longer := events + [e];
    RunOneMore(c, events, e);
  }

  // -- When the limit on probes holds -----------------------------------------------------------

  /** All probes in flight, of whichever epoch. */
  function Probes(w: World): set<nat> {
    set id | id in w.flights && w.flights[id].ProbeOf?
  }

  /** No probe has outlived a reset. */
  predicate InStep(w: World) {
    w.endedOld == 0 && forall id :: id in w.flights && w.flights[id].ProbeOf? ==> w.flights[id].epoch == w.epoch
  }

  /** What breaks the limit: a reset while some probe is in flight. */
  predicate ResetsUnderProbe(c: Config, w: World, e: Event) {
    ((e.Start? && e.id !in w.flights) || e.ReadState?) && Resets(c, w.b, e.now) && Probes(w) != {}
  }

  lemma InStepIff(c: Config, w: World, e: Event)
    requires InStep(w)
    ensures InStep(Step(c, w, e)) <==> !ResetsUnderProbe(c, w, e)
  {
    if ResetsUnderProbe(c, w, e) {
      var id :| id in Probes(w);
      assert id in Step(c, w, e).flights && w.flights[id].epoch == w.epoch;
    } else if Probes(w) == {} {
      forall id | id in w.flights
        ensures w.flights[id].Ordinary?
      {
        assert id !in Probes(w);
      }
    }
  }

  /** In step, the counter is the number of all probes in flight, within the limit. */
  lemma InStepIsWithinTheLimit(c: Config, w: World)
    requires Accounted(c, w) && InStep(w)
    ensures |Probes(w)| == w.b.used <= c.maxProbes
  {
    assert Probes(w) == InFlight(w, w.epoch);
  }

  predicate InStepThroughout(c: Config, events: seq<Event>) {
    InStep(Run(c, events)) && (events == [] || InStepThroughout(c, events[..|events| - 1]))
  }

  predicate NoResetUnderProbe(c: Config, events: seq<Event>) {
    events == []
    || (NoResetUnderProbe(c, events[..|events| - 1])
        && !ResetsUnderProbe(c, Run(c, events[..|events| - 1]), events[|events| - 1]))
  }

  /** Over every run the counter stands for all probes in flight if and only if the breaker
  never resets while a probe is in flight; and then they stay within the limit. */
  lemma {:induction false} ProbeLimitOverRuns(c: Config, events: seq<Event>)
    requires ValidConfig(c)
    ensures InStepThroughout(c, events) <==> NoResetUnderProbe(c, events)
    ensures NoResetUnderProbe(c, events) ==> |Probes(Run(c, events))| == Run(c, events).b.used <= c.maxProbes
  {
    if events != [] {
      var before := events[..|events| - 1];
      ProbeLimitOverRuns(c, before);
      if InStep(Run(c, before)) {
        InStepIff(c, Run(c, before), events[|events| - 1]);
      }
    }
    EveryInterleavingIsAccounted(c, events);
    if InStep(Run(c, events)) {
      InStepIsWithinTheLimit(c, Run(c, events));
    }
  }

  lemma OneMoreProbe(c: Config, w: World, id: nat, now: real)
    requires w.b.mode == HalfOpen && w.b.used < c.maxProbes && id !in w.flights
    ensures var after := Step(c, w, Start(id, now));
      after.b == w.b.(used := w.b.used + 1) && |Probes(after)| == |Probes(w)| + 1
  {
    assert Probes(Step(c, w, Start(id, now))) == Probes(w) + {id};
  }

  /** A half-open breaker fills its free slots with the next calls that start. */
  lemma {:induction false} FreeSlotsFill(c: Config, events: seq<Event>, now: real) returns (longer: seq<Event>)
    requires var w := Run(c, events); w.b.mode == HalfOpen && w.b.used <= c.maxProbes
    ensures events <= longer
    ensures |Probes(Run(c, longer))| == |Probes(Run(c, events))| + c.maxProbes - Run(c, events).b.used
    decreases c.maxProbes - Run(c, events).b.used
  {
    hide Run, Probes, Step;
    var w := Run(c, events);
    longer := events;
    if w.b.used < c.maxProbes {
      var id := Unused(w.flights.Keys);
      var e := Start(id, now);
      RunOneMore(c, events, e);
      OneMoreProbe(c, w, id, now);
      longer := FreeSlotsFill(c, events + [e], now);
    }
  }

  /** And it is needed: once the breaker resets while a probe is in flight, the next calls
  that start can exceed the limit. */
  lemma ResetUnderProbeBreaksTheLimit(c: Config, events: seq<Event>, e: Event) returns (longer: seq<Event>)
    requires ValidConfig(c) && NoResetUnderProbe(c, events) && ResetsUnderProbe(c, Run(c, events), e)
    ensures events + [e] <= longer && |Probes(Run(c, longer))| > c.maxProbes
  {
    var w, after := Run(c, events), Run(c, events + [e]);
    RunOneMore(c, events, e);
    if e.Start? {
      assert Probes(after) == Probes(w) + {e.id};
    } else {
      assert Probes(after) == Probes(w);
    }
    longer := FreeSlotsFill(c, events + [e], e.now);
  }

  // -- When the count and the timeout hold ---------------------------------------------------------

  predicate Timed(e: Event) {
    !e.ExternalSuccess?
  }

  /** The clock never goes back and stands at `now` after the events. */
  predicate Until(events: seq<Event>, now: real) {
    if events == [] then true
    else
      var before, e := events[..|events| - 1], events[|events| - 1];
      if Timed(e) then e.now <= now && Until(before, e.now) else Until(before, now)
  }

  /** Closed exactly while fewer failures than the threshold have accumulated. */
  predicate Agrees(c: Config, b: Breaker) {
    b.mode == Closed <==> b.failures < c.threshold
  }

  /** What breaks the agreement: a success recorded while the breaker is open. */
  predicate LateSuccess(w: World, e: Event) {
    w.b.mode == Open && (e.ExternalSuccess? || (e.End? && e.id in w.flights && e.outcome == Success))
  }

  lemma AgreesIffNoLateSuccess(c: Config, w: World, e: Event)
    requires ValidConfig(c) && Agrees(c, w.b)
    ensures Agrees(c, Step(c, w, e).b) <==> !LateSuccess(w, e)
  {}

  predicate AgreesThroughout(c: Config, events: seq<Event>) {
    Agrees(c, Run(c, events).b) && (events == [] || AgreesThroughout(c, events[..|events| - 1]))
  }

  predicate NoLateSuccess(c: Config, events: seq<Event>) {
    events == []
    || (NoLateSuccess(c, events[..|events| - 1]) && !LateSuccess(Run(c, events[..|events| - 1]), events[|events| - 1]))
  }

  /** Over every run, overlapping or not, count and state agree if and only if no success
  is recorded while the breaker is open. */
  lemma {:induction false} AgreementOverRuns(c: Config, events: seq<Event>)
    requires ValidConfig(c)
    ensures AgreesThroughout(c, events) <==> NoLateSuccess(c, events)
  {
    if events != [] {
      var before := events[..|events| - 1];
      AgreementOverRuns(c, before);
      if Agrees(c, Run(c, before).b) {
        AgreesIffNoLateSuccess(c, Run(c, before), events[|events| - 1]);
      }
    }
  }

  /** A half-open breaker has waited out the timeout since the latest failure. */
  predicate Waited(c: Config, b: Breaker, now: real) {
    && (b.mode == HalfOpen ==> Recovered(c, b, now))
    && (b.mode != Closed ==> b.lastFailure.Some?)
  }

  /** What breaks the timeout: a failure that leaves the breaker half-open. */
  predicate LeavesHalfOpen(c: Config, w: World, e: Event) {
    && w.b.mode == HalfOpen && w.b.failures + 1 < c.threshold
    && (e.ExternalFailure? || (e.End? && e.id in w.flights && e.outcome == Failure))
  }

  lemma WaitedIff(c: Config, w: World, e: Event, before: real)
    requires c.timeoutMs > 0.0 && Waited(c, w.b, before)
    requires Timed(e) ==> before <= e.now
    ensures Waited(c, Step(c, w, e).b, if Timed(e) then e.now else before) <==> !LeavesHalfOpen(c, w, e)
  {}

  /** The timeout has been waited out by a half-open breaker after each event. */
  predicate WaitedThroughout(c: Config, events: seq<Event>, now: real) {
    if events == [] then true
    else
      var before, e := events[..|events| - 1], events[|events| - 1];
      var at := if Timed(e) then e.now else now;
      Waited(c, Run(c, events).b, at) && WaitedThroughout(c, before, at)
  }

  predicate NoneLeavesHalfOpen(c: Config, events: seq<Event>) {
    events == []
    || (NoneLeavesHalfOpen(c, events[..|events| - 1])
        && !LeavesHalfOpen(c, Run(c, events[..|events| - 1]), events[|events| - 1]))
  }

  /** Over every run with a timeout, a half-open breaker has always waited it out if and only
  if no failure leaves the breaker half-open. */
  lemma {:induction false} TimeoutOverRuns(c: Config, events: seq<Event>, now: real)
    requires ValidConfig(c) && c.timeoutMs > 0.0 && Until(events, now)
    ensures WaitedThroughout(c, events, now) <==> NoneLeavesHalfOpen(c, events)
    ensures NoneLeavesHalfOpen(c, events) ==> Waited(c, Run(c, events).b, now)
  {
    if events != [] {
      var before, e := events[..|events| - 1], events[|events| - 1];
      var at := if Timed(e) then e.now else now;
      TimeoutOverRuns(c, before, at);
      if Waited(c, Run(c, before).b, at) {
        WaitedIff(c, Run(c, before), e, at);
      }
    }
  }

  /** Without a late success the timeout holds too. */
  lemma {:induction false} CountKeepsTheTimeout(c: Config, events: seq<Event>, now: real)
    requires ValidConfig(c) && Until(events, now) && NoLateSuccess(c, events)
    ensures NoneLeavesHalfOpen(c, events) && Agrees(c, Run(c, events).b) && Waited(c, Run(c, events).b, now)
  {
    if events != [] {
      var before, e := events[..|events| - 1], events[|events| - 1];
      CountKeepsTheTimeout(c, before, if Timed(e) then e.now else now);
      AgreesIffNoLateSuccess(c, Run(c, before), e);
    }
  }

  /** Whatever overlaps, as long as no success is recorded while the breaker is open: it is
  closed exactly while fewer failures than the threshold have accumulated; the next call is
  a probe only if the timeout since the latest failure has passed, and is rejected exactly
  when the breaker is tripped and the timeout has not passed or the slots are taken; a
  failed probe always reopens and a successful one always closes. */
  lemma OverlappingBreaker(c: Config, events: seq<Event>, now: real, end: real)
    requires ValidConfig(c) && Until(events, now) && NoLateSuccess(c, events)
    ensures var b := Run(c, events).b;
      var (s, admission) := Begin(c, b, now);
      && (b.mode == Closed <==> b.failures < c.threshold)
      && (admission == Normal <==> b.failures < c.threshold)
      && (admission == Probe ==> Recovered(c, b, now))
      && (admission == Rejected <==>
            b.failures >= c.threshold && (!Recovered(c, b, now) || (b.mode == HalfOpen && b.used >= c.maxProbes)))
      && (admission == Probe ==>
            && Finish(c, s, true, Failure, end).mode == Open
            && Finish(c, s, true, Success, end) == Breaker(Closed, 0, b.lastFailure, s.used - 1))
  {
    CountKeepsTheTimeout(c, events, now);
  }

  // -- What the count counts -----------------------------------------------------------------------

  /** The event reports an outcome: from outside, or at the end of a call that was let through
  and has not ended yet. */
  predicate Tells(w: World, e: Event, outcome: Outcome) {
    match e
    case ExternalSuccess => outcome == Success
    case ExternalFailure(_) => outcome == Failure
    case End(id, reported, _) => reported == outcome && id in w.flights
    case _ => false
  }

  predicate Reports(c: Config, events: seq<Event>, i: nat, outcome: Outcome)
    requires i < |events|
  {
    Tells(Run(c, events[..i]), events[i], outcome)
  }

  /** The positions of the failures reported after the last success. */
  function Streak(c: Config, events: seq<Event>): set<nat> {
    set i: nat | 0 <= i < |events| && Reports(c, events, i, Failure) &&
      forall j: nat :: i < j < |events| ==> !Reports(c, events, j, Success)
  }

  /** The latest failure was reported at time `t`. */
  predicate LatestFailure(c: Config, events: seq<Event>, t: real) {
    exists i: nat ::
      && i < |events| && Reports(c, events, i, Failure) && Timed(events[i]) && events[i].now == t
      && forall j: nat :: i < j < |events| ==> !Reports(c, events, j, Failure)
  }

  predicate NoFailure(c: Config, events: seq<Event>) {
    forall i: nat :: i < |events| ==> !Reports(c, events, i, Failure)
  }

  lemma ReportsBefore(c: Config, events: seq<Event>, i: nat, outcome: Outcome)
    requires i < |events| - 1
    ensures Reports(c, events, i, outcome) <==> Reports(c, events[..|events| - 1], i, outcome)
  {
    assert events[..|events| - 1][..i] == events[..i];
  }

  lemma AllReportsBefore(c: Config, events: seq<Event>)
    requires events != []
    ensures forall i: nat, outcome :: i < |events| - 1 ==>
      (Reports(c, events, i, outcome) <==> Reports(c, events[..|events| - 1], i, outcome))
  {
    forall i: nat, outcome | i < |events| - 1
      ensures Reports(c, events, i, outcome) <==> Reports(c, events[..|events| - 1], i, outcome)
    {
      ReportsBefore(c, events, i, outcome);
    }
  }

  lemma InStreakBefore(c: Config, events: seq<Event>, i: nat)
    requires i < |events| - 1
    ensures i in Streak(c, events) <==>
      i in Streak(c, events[..|events| - 1]) && !Reports(c, events, |events| - 1, Success)
  {
    var before, last: nat := events[..|events| - 1], |events| - 1;
    AllReportsBefore(c, events);
    hide Reports;
    if i in Streak(c, before) && !Reports(c, events, last, Success) {
      forall j: nat | i < j < |events|
        ensures !Reports(c, events, j, Success)
      {
        if j < last {
          assert !Reports(c, before, j, Success);
        }
      }
    }
    if i in Streak(c, events) {
      forall j: nat | i < j < |before|
        ensures !Reports(c, before, j, Success)
      {
        assert !Reports(c, events, j, Success);
      }
    }
  }

  lemma StreakIsBelow(c: Config, events: seq<Event>)
    ensures forall i :: i in Streak(c, events) ==> i < |events|
  {
    hide Reports;
  }

  lemma EndOfStreak(c: Config, events: seq<Event>)
    requires events != []
    ensures |events| - 1 in Streak(c, events) <==> Reports(c, events, |events| - 1, Failure)
  {
    hide Reports;
  }

  lemma StreakOneMore(c: Config, events: seq<Event>)
    requires events != []
    ensures var before, last := events[..|events| - 1], |events| - 1;
      |Streak(c, events)| ==
        if Reports(c, events, last, Success) then 0
        else |Streak(c, before)| + if Reports(c, events, last, Failure) then 1 else 0
  {
    var before, last: nat := events[..|events| - 1], |events| - 1;
    NotBoth(c, events, last);
    hide Reports, Streak;
    forall i: nat | i < last
      ensures i in Streak(c, events) <==> i in Streak(c, before) && !Reports(c, events, last, Success)
    {
      InStreakBefore(c, events, i);
    }
    StreakIsBelow(c, events);
    StreakIsBelow(c, before);
    EndOfStreak(c, events);
    Positions.OneMore(Streak(c, before), Streak(c, events), last, Reports(c, events, last, Success),
                      Reports(c, events, last, Failure));
  }

  lemma NotBoth(c: Config, events: seq<Event>, i: nat)
    requires i < |events|
    ensures !(Reports(c, events, i, Success) && Reports(c, events, i, Failure))
  {}

  lemma LatestOneMore(c: Config, events: seq<Event>, t: real)
    requires events != []
    ensures var before, last := events[..|events| - 1], |events| - 1;
      && (Reports(c, events, last, Failure) ==>
            Timed(events[last]) && LatestFailure(c, events, events[last].now))
      && (!Reports(c, events, last, Failure) && LatestFailure(c, before, t) ==> LatestFailure(c, events, t))
      && (!Reports(c, events, last, Failure) && NoFailure(c, before) ==> NoFailure(c, events))
  {
    var before, last: nat := events[..|events| - 1], |events| - 1;
    AllReportsBefore(c, events);
    FailuresAreTimed(c, events, last);
    hide Reports;
    if !Reports(c, events, last, Failure) && LatestFailure(c, before, t) {
      LatestStays(c, events, t);
    }
  }

  lemma FailuresAreTimed(c: Config, events: seq<Event>, i: nat)
    requires i < |events|
    ensures Reports(c, events, i, Failure) ==> Timed(events[i])
  {}

  lemma LatestStays(c: Config, events: seq<Event>, t: real)
    requires events != [] && LatestFailure(c, events[..|events| - 1], t)
    requires !Reports(c, events, |events| - 1, Failure)
    ensures LatestFailure(c, events, t)
  {
    var before, last: nat := events[..|events| - 1], |events| - 1;
    hide Reports;
    var i: nat :| i < |before| && Reports(c, before, i, Failure) && Timed(before[i]) && before[i].now == t
      && forall j: nat :: i < j < |before| ==> !Reports(c, before, j, Failure);
    ReportsBefore(c, events, i, Failure);
    forall j: nat | i < j < |events|
      ensures !Reports(c, events, j, Failure)
    {
      if j < last {
        ReportsBefore(c, events, j, Failure);
      }
    }
  }

  lemma BeginRecordsNothing(c: Config, b: Breaker, now: real)
    ensures Begin(c, b, now).0.failures == b.failures && Begin(c, b, now).0.lastFailure == b.lastFailure
    ensures Sync(c, b, now).failures == b.failures && Sync(c, b, now).lastFailure == b.lastFailure
  {}

  lemma StartRecordsNothing(c: Config, w: World, id: nat, now: real)
    ensures var q := Step(c, w, Start(id, now)).b;
      q.failures == w.b.failures && q.lastFailure == w.b.lastFailure
  {
    if id !in w.flights {
      StartIs(c, w, id, now);
      BeginRecordsNothing(c, w.b, now);
      hide Begin, Sync, SyncWorld;
    }
  }

  lemma StepTells(c: Config, w: World, e: Event)
    ensures var q := Step(c, w, e).b;
      && (Tells(w, e, Success) ==> q.failures == 0 && q.lastFailure == w.b.lastFailure)
      && (Tells(w, e, Failure) ==>
            Timed(e) && q.failures == w.b.failures + 1 && q.lastFailure == Some(e.now))
      && (!Tells(w, e, Success) && !Tells(w, e, Failure) ==>
            q.failures == w.b.failures && q.lastFailure == w.b.lastFailure)
  {
    if e.Start? {
      StartRecordsNothing(c, w, e.id, e.now);
      hide Step;
    } else {
      hide Begin;
    }
  }

  lemma StepRecords(c: Config, events: seq<Event>)
    requires events != []
    ensures var b, q, last := Run(c, events[..|events| - 1]).b, Run(c, events).b, |events| - 1;
      && (Reports(c, events, last, Success) ==> q.failures == 0 && q.lastFailure == b.lastFailure)
      && (Reports(c, events, last, Failure) ==>
            Timed(events[last]) && q.failures == b.failures + 1 && q.lastFailure == Some(events[last].now))
      && (!Reports(c, events, last, Success) && !Reports(c, events, last, Failure) ==>
            q.failures == b.failures && q.lastFailure == b.lastFailure)
  {
    StepTells(c, Run(c, events[..|events| - 1]), events[|events| - 1]);
    hide Step;
  }

  /** In every interleaving the count is the number of failures reported since the last success,
  and the remembered time is that of the latest failure. */
  lemma {:induction false} FailuresAreConsecutive(c: Config, events: seq<Event>)
    ensures var b := Run(c, events).b;
      && b.failures == |Streak(c, events)|
      && (b.lastFailure == None ==> NoFailure(c, events))
      && (b.lastFailure.Some? ==> LatestFailure(c, events, b.lastFailure.value))
  {
    hide Streak, LatestFailure, NoFailure, Reports, Run, Step;
    if events == [] {
      NothingReported(c, events);
    } else {
      var before := events[..|events| - 1];
      FailuresAreConsecutive(c, before);
      StreakOneMore(c, events);
      StepRecords(c, events);
      LatestOneMore(c, events, if Run(c, before).b.lastFailure.Some? then Run(c, before).b.lastFailure.value else 0.0);
    }
  }

  lemma NothingReported(c: Config, events: seq<Event>)
    requires events == []
    ensures Streak(c, events) == {} && NoFailure(c, events) && Run(c, events) == CALM
  {}

  lemma LatestIsUnique(c: Config, events: seq<Event>, t: real, u: real)
    requires LatestFailure(c, events, t) && LatestFailure(c, events, u)
    ensures t == u
  {
    hide Reports;
    var i: nat :| i < |events| && Reports(c, events, i, Failure) && Timed(events[i]) && events[i].now == t
      && forall j: nat :: i < j < |events| ==> !Reports(c, events, j, Failure);
    var k: nat :| k < |events| && Reports(c, events, k, Failure) && Timed(events[k]) && events[k].now == u
      && forall j: nat :: k < j < |events| ==> !Reports(c, events, j, Failure);
    assert i == k;
  }

  lemma FailureIsNotNone(c: Config, events: seq<Event>, t: real)
    requires LatestFailure(c, events, t)
    ensures !NoFailure(c, events)
  {
    hide Reports;
  }

  /** The breaker trips on failures in a row. Whatever overlaps, as long as no success is
  recorded while the breaker is open: a call goes through as an ordinary one if and only if
  fewer failures than the threshold were reported since the last success; otherwise it is
  rejected as long as the timeout since the latest failure runs, and after that unless all
  slots for probes are taken. */
  lemma TripsOnFailuresInARow(c: Config, events: seq<Event>, now: real, t: real)
    requires ValidConfig(c) && Until(events, now) && NoLateSuccess(c, events)
    ensures var b := Run(c, events).b;
      var admission := Begin(c, b, now).1;
      && (admission == Normal <==> |Streak(c, events)| < c.threshold)
      && (|Streak(c, events)| >= c.threshold && LatestFailure(c, events, t) ==>
            && ((now - t) * 1000.0 < c.timeoutMs ==> admission == Rejected)
            && ((now - t) * 1000.0 >= c.timeoutMs ==>
                  admission == if b.mode == HalfOpen && b.used >= c.maxProbes then Rejected else Probe))
  {
    var b := Run(c, events).b;
    FailuresAreConsecutive(c, events);
    CountKeepsTheTimeout(c, events, now);
    hide Run, Until, NoLateSuccess, Streak, LatestFailure, NoFailure;
    if LatestFailure(c, events, t) {
      FailureIsNotNone(c, events, t);
      LatestIsUnique(c, events, t, b.lastFailure.value);
    }
  }

  // -- Calls one after the other ---------------------------------------------------------------

  /** A whole call that overlaps no other: when it begins, how and when it ends. */
  datatype Call = Call(start: real, outcome: Outcome, end: real)

  function Perform(c: Config, b: Breaker, call: Call): Breaker {
    var (s, admission) := Begin(c, b, call.start);
    if admission == Rejected then s else Finish(c, s, admission == Probe, call.outcome, call.end)
  }

  function Sequential(c: Config, calls: seq<Call>): Breaker {
    if calls == [] then START else Perform(c, Sequential(c, calls[..|calls| - 1]), calls[|calls| - 1])
  }

  /** The clock never goes back. */
  predicate InOrder(calls: seq<Call>) {
    && (forall i :: 0 <= i < |calls| ==> calls[i].start <= calls[i].end)
    && (forall i, j :: 0 <= i < j < |calls| ==> calls[i].end <= calls[j].start)
  }

  /** The same calls as sections that happen not to interleave. */
  function EventsOf(calls: seq<Call>): seq<Event> {
    if calls == [] then []
    else EventsOf(calls[..|calls| - 1]) + EventsOfCall(calls[|calls| - 1])
  }

  function EventsOfCall(call: Call): seq<Event> {
    [Start(0, call.start), End(0, call.outcome, call.end)]
  }

  /** Nothing in flight and every probe given back. */
  predicate Quiet(w: World) {
    w.flights == map[] && w.endedOld == 0 && w.b.used == w.started - w.endedOwn == 0
  }

  lemma CallFromQuiet(c: Config, w: World, call: Call)
    requires ValidConfig(c) && Quiet(w)
    ensures var e, f := Start(0, call.start), End(0, call.outcome, call.end);
      var begun := Step(c, w, e);
      && !LateSuccess(w, e) && !LateSuccess(begun, f)
      && Quiet(Step(c, begun, f)) && Step(c, begun, f).b == Perform(c, w.b, call)
  {
    var begun := Step(c, w, Start(0, call.start));
    assert begun.flights.Keys <= {0};
    assert begun.flights - {0} == map[];
  }

  lemma OneCall(c: Config, events: seq<Event>, call: Call)
    requires ValidConfig(c) && Quiet(Run(c, events)) && NoLateSuccess(c, events)
    ensures var w := Run(c, events + EventsOfCall(call));
      Quiet(w) && w.b == Perform(c, Run(c, events).b, call) && NoLateSuccess(c, events + EventsOfCall(call))
  {
    var e, f := Start(0, call.start), End(0, call.outcome, call.end);
    hide Step, Quiet, Perform, LateSuccess, Run, NoLateSuccess, EventsOfCall;
    TwoEvents(events, call);
    RunOneMore(c, events, e);
    NoLateSuccessOneMore(c, events, e);
    RunOneMore(c, events + [e], f);
    NoLateSuccessOneMore(c, events + [e], f);
    CallFromQuiet(c, Run(c, events), call);
  }

  lemma TwoEvents(events: seq<Event>, call: Call)
    ensures events + EventsOfCall(call) == events + [Start(0, call.start)] + [End(0, call.outcome, call.end)]
  {}

  lemma NoLateSuccessOneMore(c: Config, events: seq<Event>, e: Event)
    ensures NoLateSuccess(c, events + [e]) <==> NoLateSuccess(c, events) && !LateSuccess(Run(c, events), e)
  {
    assert (events + [e])[..|events|] == events;
  }

  lemma UntilOneMore(events: seq<Event>, e: Event, now: real)
    requires Timed(e)
    ensures Until(events + [e], now) <==> e.now <= now && Until(events, e.now)
  {
    assert (events + [e])[..|events|] == events;
  }

  lemma UntilOneCall(events: seq<Event>, call: Call, now: real)
    requires Until(events, call.start) && call.start <= call.end <= now
    ensures Until(events + EventsOfCall(call), now)
  {
    hide Until, EventsOfCall;
    TwoEvents(events, call);
    UntilOneMore(events, Start(0, call.start), call.end);
    UntilOneMore(events + [Start(0, call.start)], End(0, call.outcome, call.end), now);
  }

  lemma NothingIsQuiet(c: Config, events: seq<Event>, now: real)
    requires events == []
    ensures Quiet(Run(c, events)) && Run(c, events).b == START && NoLateSuccess(c, events) && Until(events, now)
  {
    hide Run, Quiet, NoLateSuccess, Until;
    RunOfNothing(c);
    CalmIsQuiet();
    NothingIsLate(c, events);
    NothingIsInOrder(events, now);
  }

  lemma CalmIsQuiet()
    ensures Quiet(CALM)
  {}

  lemma NothingIsLate(c: Config, events: seq<Event>)
    requires events == []
    ensures NoLateSuccess(c, events)
  {}

  lemma NothingIsInOrder(events: seq<Event>, now: real)
    requires events == []
    ensures Until(events, now)
  {}

  lemma InOrderBefore(calls: seq<Call>)
    requires InOrder(calls) && calls != []
    ensures var before, call := calls[..|calls| - 1], calls[|calls| - 1];
      && InOrder(before) && call.start <= call.end
      && (before != [] ==> before[|before| - 1].end <= call.start)
  {}

  lemma {:induction false} SequentialIsARun(c: Config, calls: seq<Call>, now: real)
    requires ValidConfig(c) && InOrder(calls)
    requires calls != [] ==> calls[|calls| - 1].end <= now
    ensures var events := EventsOf(calls);
      && Quiet(Run(c, events)) && Run(c, events).b == Sequential(c, calls)
      && NoLateSuccess(c, events) && Until(events, now)
  {
    hide Step, Perform, Until, NoLateSuccess, Quiet, EventsOfCall, Run, InOrder;
    if calls == [] {
      NothingIsQuiet(c, EventsOf(calls), now);
    } else {
      var before, call := calls[..|calls| - 1], calls[|calls| - 1];
      InOrderBefore(calls);
      SequentialIsARun(c, before, call.start);
      OneCall(c, EventsOf(before), call);
      UntilOneCall(EventsOf(before), call, now);
    }
  }

  /** What holds between two calls when none overlap, the clock standing at `now`. */
  predicate Orderly(c: Config, b: Breaker, now: real) {
    b.used == 0 && Agrees(c, b) && Waited(c, b, now)
  }

  lemma SequentialIsOrderly(c: Config, calls: seq<Call>, now: real)
    requires ValidConfig(c) && InOrder(calls)
    requires calls != [] ==> calls[|calls| - 1].end <= now
    ensures Orderly(c, Sequential(c, calls), now)
  {
    SequentialIsARun(c, calls, now);
    CountKeepsTheTimeout(c, EventsOf(calls), now);
  }

  /** Without overlap no success is late and no slot is taken, so a call is rejected exactly
  when the breaker is tripped and the timeout since the latest failure has not passed. */
  lemma {:induction false} SequentialBreaker(c: Config, calls: seq<Call>, now: real, end: real)
    requires ValidConfig(c) && InOrder(calls)
    requires calls != [] ==> calls[|calls| - 1].end <= now
    requires now <= end
    ensures var b := Sequential(c, calls);
      && (b.mode == Closed <==> b.failures < c.threshold)
      && (Begin(c, b, now).1 == Rejected <==> b.failures >= c.threshold && !Recovered(c, b, now))
      && (Begin(c, b, now).1 == Probe ==>
            && Perform(c, b, Call(now, Failure, end)).mode == Open
            && Perform(c, b, Call(now, Success, end)) == Breaker(Closed, 0, b.lastFailure, 0))
  {
    hide Run, Until, NoLateSuccess, EventsOf, Sequential;
    SequentialIsARun(c, calls, now);
    OverlappingBreaker(c, EventsOf(calls), now, end);
  }

  /** What a caller can keep track of without looking at the breaker: how many calls failed since
  the last one that succeeded, and when the latest of them failed. */
  datatype History = History(failed: nat, at: real)

  /** A call is turned away while `threshold` failures in a row are fresh. */
  predicate TurnedAway(c: Config, h: History, now: real) {
    h.failed >= c.threshold && (now - h.at) * 1000.0 < c.timeoutMs
  }

  function Note(c: Config, h: History, call: Call): History {
    if TurnedAway(c, h, call.start) || call.outcome == Cancelled then h
    else if call.outcome == Success then h.(failed := 0)
    else History(h.failed + 1, call.end)
  }

  function Notes(c: Config, calls: seq<Call>): History {
    if calls == [] then History(0, 0.0) else Note(c, Notes(c, calls[..|calls| - 1]), calls[|calls| - 1])
  }

  /** The breaker holds what the history says. */
  predicate Matches(b: Breaker, h: History) {
    b.failures == h.failed && (b.failures > 0 ==> b.lastFailure == Some(h.at))
  }

  lemma CallMatches(c: Config, b: Breaker, h: History, call: Call)
    requires ValidConfig(c) && Orderly(c, b, call.start) && Matches(b, h)
    ensures Begin(c, b, call.start).1 == Rejected <==> TurnedAway(c, h, call.start)
    ensures Matches(Perform(c, b, call), Note(c, h, call))
  {}

  /** Without overlap the breaker turns calls away exactly as the history says: its states and its
  slots make no difference. */
  lemma {:induction false} SequentialIsTheHistory(c: Config, calls: seq<Call>, now: real)
    requires ValidConfig(c) && InOrder(calls)
    requires calls != [] ==> calls[|calls| - 1].end <= now
    ensures Matches(Sequential(c, calls), Notes(c, calls))
    ensures Begin(c, Sequential(c, calls), now).1 == Rejected <==> TurnedAway(c, Notes(c, calls), now)
  {
    if calls != [] {
      var before, call := calls[..|calls| - 1], calls[|calls| - 1];
      InOrderBefore(calls);
      SequentialIsTheHistory(c, before, call.start);
      SequentialIsOrderly(c, before, call.start);
      hide Begin, Perform, Note, Matches, Orderly, TurnedAway, InOrder;
      CallMatches(c, Sequential(c, before), Notes(c, before), call);
    }
    SequentialIsOrderly(c, calls, now);
    hide Sequential, Notes, InOrder;
    CallMatches(c, Sequential(c, calls), Notes(c, calls), Call(now, Cancelled, now));
  }

  /** A late success breaks both: it clears the count while the breaker is open, a failed
  probe then leaves it half-open, and the next call is let through at once, whatever the
  timeout. */
  lemma StragglerDefeatsTheTimeout(timeout: real) returns (c: Config, events: seq<Event>)
    requires timeout > 0.0
    ensures ValidConfig(c) && c.timeoutMs == timeout
    ensures var w := Run(c, events);
      && w.b.mode == HalfOpen && w.b.failures < c.threshold
      && w.b.lastFailure == Some(timeout)
      && Begin(c, w.b, timeout).1 == Probe && !Recovered(c, w.b, timeout)
  {
    c := Config(2, timeout, 1);
    var e0: seq<Event> := [];
    var e1 := e0 + [Start(0, 0.0)];
    var e2 := e1 + [Start(1, 0.0)];
    var e3 := e2 + [Start(2, 0.0)];
    var e4 := e3 + [End(0, Failure, 0.0)];
    var e5 := e4 + [End(1, Failure, 0.0)];
    var e6 := e5 + [End(2, Success, 0.0)];
    var e7 := e6 + [Start(3, timeout)];
    events := e7 + [End(3, Failure, timeout)];
    RunOneMore(c, e0, Start(0, 0.0));
    RunOneMore(c, e1, Start(1, 0.0));
    RunOneMore(c, e2, Start(2, 0.0));
    RunOneMore(c, e3, End(0, Failure, 0.0));
    RunOneMore(c, e4, End(1, Failure, 0.0));
    RunOneMore(c, e5, End(2, Success, 0.0));
    RunOneMore(c, e6, Start(3, timeout));
    RunOneMore(c, e7, End(3, Failure, timeout));
    assert Run(c, e5).b == Breaker(Open, 2, Some(0.0), 0);
    assert Run(c, e6).b == Breaker(Open, 0, Some(0.0), 0);
    assert Run(c, e7).b == Breaker(HalfOpen, 0, Some(0.0), 1) && 3 in Run(c, e7).flights;
  }

  // -- The class -----------------------------------------------------------------------------

  class CircuitBreaker {
    const config: Config
    var mode: Mode
    var failureCount: nat
    var lastFailureTime: Option<real>
    var halfOpenUsed: int

    ghost predicate Valid()
      reads this
    {
      ValidConfig(config) && halfOpenUsed <= config.maxProbes
    }

    ghost function View(): Breaker
      reads this
    {
      Breaker(mode, failureCount, lastFailureTime, halfOpenUsed)
    }

    constructor (config: Config)
      requires ValidConfig(config)
      ensures Valid() && View() == START && this.config == config
    {
      this.config := config;
      mode, failureCount, lastFailureTime, halfOpenUsed := Closed, 0, None, 0;
    }

    method MaybeTransitionToHalfOpen(now: real)
      requires Valid()
      modifies this
      ensures Valid() && View() == Sync(config, old(View()), now)
    {
      if mode == Open && lastFailureTime.Some? {
        var elapsedMs := (now - lastFailureTime.value) * 1000.0;
        if elapsedMs >= config.timeoutMs {
          mode := HalfOpen;
          halfOpenUsed := 0;
        }
      }
    }

    method RecordSuccess()
      requires Valid()
      modifies this
      ensures Valid() && View() == Record(config, old(View()), Success, 0.0)
    {
      failureCount := 0;
      if mode == HalfOpen {
        mode := Closed;
      }
    }

    method RecordFailure(now: real)
      requires Valid()
      modifies this
      ensures Valid() && View() == Record(config, old(View()), Failure, now)
    {
      failureCount := failureCount + 1;
      lastFailureTime := Some(now);
      if failureCount >= config.threshold {
        mode := Open;
      }
    }

    /** The section of a call before its body. */
    method BeginCall(now: real) returns (admission: Admission)
      requires Valid()
      modifies this
      ensures Valid() && (View(), admission) == Begin(config, old(View()), now)
    {
      MaybeTransitionToHalfOpen(now);
      if mode == Open {
        return Rejected;
      }
      if mode == HalfOpen {
        if halfOpenUsed >= config.maxProbes {
          return Rejected;
        }
        halfOpenUsed := halfOpenUsed + 1;
        return Probe;
      }
      return Normal;
    }

    /** The section of a call after its body. */
    method FinishCall(probe: bool, outcome: Outcome, now: real)
      requires Valid()
      modifies this
      ensures Valid() && View() == Finish(config, old(View()), probe, outcome, now)
    {
      match outcome {
        case Success => RecordSuccess();
        case Failure => RecordFailure(now);
        case Cancelled =>
      }
      if probe {
        halfOpenUsed := halfOpenUsed - 1;
      }
    }
  }
}
