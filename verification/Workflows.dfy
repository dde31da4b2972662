/** The workflow engine: one state machine per task, with a loop breaker.

Every operation except an account event touches the row of one task only, so runs are
stated for one row; the class shows that the other rows stay as they are. */
module Workflows {

  import opened Options
  import Positions

  /** Tasks, accounts and action hashes are told apart by name only. */
  type Id = nat

  datatype Status = Idle | Planning | Executing | Verification | Done | Failed | Halted | Dlq

  datatype State = Idle | Planning | Executing | Testing | Review | Fix | Done | Halted

  /** The outcome that a step reports; any other text counts as fine. */
  datatype Result = Ok | Failed | Rejected | Other

  const LOOP_LIMIT: nat := 3

  function StatusOf(s: State): Status {
    match s
    case Idle => Status.Idle
    case Planning => Status.Planning
    case Executing => Status.Executing
    case Testing => Status.Verification
    case Review => Status.Verification
    case Fix => Status.Executing
    case Done => Status.Done
    case Halted => Status.Halted
  }

  /** The table of transitions that the engine advertises. */
  function ValidTransitions(s: State): set<State> {
    match s
    case Idle => {State.Planning}
    case Planning => {State.Executing}
    case Executing => {State.Testing, State.Halted}
    case Testing => {State.Review, State.Fix}
    case Review => {State.Done, State.Fix}
    case Fix => {State.Executing}
    case Done => {}
    case Halted => {}
  }

  function ResolveNextState(current: State, result: Result): Option<State> {
    if current == State.Testing && result == Result.Failed then Some(State.Fix)
    else if current == State.Review && (result == Rejected || result == Result.Failed) then Some(State.Fix)
    else if current == State.Fix && result == Ok then Some(State.Executing)
    else
      match current
      case Idle => Some(State.Planning)
      case Planning => Some(State.Executing)
      case Executing => Some(State.Testing)
      case Testing => Some(State.Done)
      case Review => Some(State.Done)
      case Fix => Some(State.Executing)
      case Done => None
      case Halted => None
  }

  // -- One row --------------------------------------------------------------------------------

  /** What the engine and the task object hold about one task. */
  datatype Row = Row(status: Status, state: Option<State>, counts: map<Id, nat>, steps: nat, account: Option<Id>)

  const FRESH: Row := Row(Status.Idle, None, map[], 0, None)

  /** A task's own transition; none out of a terminal status, which raises an error. */
  function Transition(from: Status, to: Status): Option<Status> {
    if to == from then Some(from) else if from == Status.Done || from == Dlq then None else Some(to)
  }

  datatype Reply = Raised | Refused | Advanced

  function Start(r: Row): Row {
    if r.status != Status.Idle then r
    else r.(status := Status.Planning, state := Some(State.Planning), counts := map[], steps := 0)
  }

  predicate CanHalt(r: Row) {
    r.status != Status.Done && r.status != Dlq
  }

  function Halt(r: Row): Row {
    if CanHalt(r) then r.(status := Status.Halted, state := Some(State.Halted)) else r
  }

  function Resume(r: Row): Row {
    if r.status == Status.Halted
    then r.(status := Status.Planning, state := Some(State.Planning), counts := map[], steps := 0)
    else r
  }

  function Count(counts: map<Id, nat>, hash: Id): nat {
    if hash in counts then counts[hash] else 0
  }

  function Counted(counts: map<Id, nat>, hash: Id): map<Id, nat> {
    counts[hash := Count(counts, hash) + 1]
  }

  predicate CanExecute(r: Row) {
    r.status != Status.Done && r.status != Dlq && r.status != Status.Failed && r.status != Status.Halted
  }

  function Current(r: Row): State {
    if r.state.Some? then r.state.value else State.Idle
  }

  /** The loop breaker counts first, then the machine moves. */
  function ReplyTo(r: Row, result: Result, hash: Id): Reply {
    if !CanExecute(r) then Raised
    else if Count(r.counts, hash) + 1 > LOOP_LIMIT then Refused
    else if ResolveNextState(Current(r), result).None? then Refused
    else Advanced
  }

  function Execute(r: Row, result: Result, hash: Id): Row {
    if !CanExecute(r) then r
    else
      var counted := r.(counts := Counted(r.counts, hash));
      if Count(r.counts, hash) + 1 > LOOP_LIMIT then Halt(counted)
      else
        match ResolveNextState(Current(r), result)
        case None => counted
        case Some(next) => counted.(state := Some(next), status := StatusOf(next), steps := r.steps + 1)
  }

  predicate Running(r: Row) {
    r.state == Some(State.Executing) || r.state == Some(State.Testing) || r.state == Some(State.Fix)
  }

  predicate SentBack(r: Row, account: Id) {
    && Running(r)
    && (r.account.None? || r.account.value == account)
  }

  /** A jailed account sends the tasks bound to it, or to none, back to planning. */
  function Jail(r: Row, account: Id): Row {
    if SentBack(r, account) then r.(state := Some(State.Planning)) else r
  }

  // -- Runs of one row ---------------------------------------------------------------------------

  datatype Event =
    | StartTask
    | ExecuteStep(result: Result, hash: Id)
    | HaltTask
    | ResumeTask
    | AccountJailed(account: Id)
    | Bind(account: Id)
    | Unbind

  function Step(r: Row, e: Event): Row {
    match e
    case StartTask => Start(r)
    case ExecuteStep(result, hash) => Execute(r, result, hash)
    case HaltTask => Halt(r)
    case ResumeTask => Resume(r)
    case AccountJailed(account) => Jail(r, account)
    case Bind(account) => r.(account := Some(account))
    case Unbind => r.(account := None)
  }

  /** A row with a ledger: the hashes of the steps that advanced since the last reset,
  and whether a jailed account was the last to move it. */
  datatype Tracked = Tracked(row: Row, passed: seq<Id>, jailed: bool)

  predicate Resets(r: Row, e: Event) {
    (e.StartTask? && r.status == Status.Idle) || (e.ResumeTask? && r.status == Status.Halted)
  }

  function Track(t: Tracked, e: Event): Tracked {
    var row := Step(t.row, e);
    if Resets(t.row, e) then Tracked(row, [], false)
    else
      match e
      case ExecuteStep(result, hash) =>
        if ReplyTo(t.row, result, hash) == Advanced then Tracked(row, t.passed + [hash], false)
        else Tracked(row, t.passed, t.jailed && row.state == t.row.state)
      case HaltTask => Tracked(row, t.passed, t.jailed && !CanHalt(t.row))
      case AccountJailed(account) => Tracked(row, t.passed, t.jailed || SentBack(t.row, account))
      case _ => Tracked(row, t.passed, t.jailed)
  }

  function Run(events: seq<Event>): Tracked {
    if events == [] then Tracked(FRESH, [], false) else Track(Run(events[..|events| - 1]), events[|events| - 1])
  }

  /** How often `x` occurs. */
  function Occurrences(s: seq<Id>, x: Id): nat {
    if s == [] then 0 else Occurrences(s[..|s| - 1], x) + if s[|s| - 1] == x then 1 else 0
  }

  lemma OccurrencesOneMore(s: seq<Id>, y: Id, x: Id)
    ensures Occurrences(s + [y], x) == Occurrences(s, x) + if y == x then 1 else 0
  {
    assert (s + [y])[..|s|] == s;
  }

  /** What every run keeps. */
  ghost predicate Sound(t: Tracked) {
    && t.row.steps == |t.passed|
    && Covered(t.passed, t.row.counts)
    && t.row.state != Some(State.Idle) && t.row.state != Some(State.Review)
    && (t.row.state.None? ==> !t.jailed && t.row.status == Status.Idle)
    && (t.row.state.Some? ==>
          if t.jailed
          then t.row.state.value == State.Planning && (t.row.status == Status.Executing || t.row.status == Verification)
          else t.row.status == StatusOf(t.row.state.value))
  }

  /** The hashes that passed are covered by the counts, and none passed too often. */
  ghost predicate Covered(passed: seq<Id>, counts: map<Id, nat>) {
    && (forall x :: x in passed ==> x in counts)
    && (forall x :: Occurrences(passed, x) <= LOOP_LIMIT && Occurrences(passed, x) <= Count(counts, x))
  }

  lemma CountingCovers(passed: seq<Id>, counts: map<Id, nat>, hash: Id)
    requires Covered(passed, counts)
    ensures Covered(passed, Counted(counts, hash))
    ensures Count(counts, hash) < LOOP_LIMIT ==> Covered(passed + [hash], Counted(counts, hash))
  {
    forall x
      ensures Occurrences(passed + [hash], x) == Occurrences(passed, x) + if hash == x then 1 else 0
    {
      OccurrencesOneMore(passed, hash, x);
    }
  }

  lemma TrackKeepsSound(t: Tracked, e: Event)
    requires Sound(t)
    ensures Sound(Track(t, e))
  {
    if e.ExecuteStep? {
      ExecuteKeepsSound(t, e.result, e.hash);
    } else {
      OtherEventsKeepSound(t, e);
    }
  }

  lemma ExecuteKeepsSound(t: Tracked, result: Result, hash: Id)
    requires Sound(t)
    ensures Sound(Track(t, ExecuteStep(result, hash)))
  {
    hide Covered, Counted;
    CountingCovers(t.passed, t.row.counts, hash);
  }

  lemma OtherEventsKeepSound(t: Tracked, e: Event)
    requires Sound(t) && !e.ExecuteStep?
    ensures Sound(Track(t, e))
  {
    NothingCovered();
    hide Covered;
  }

  lemma NothingCovered()
    ensures Covered([], map[])
  {}

  lemma {:induction false} RunsAreSound(events: seq<Event>)
    ensures Sound(Run(events))
  {
    if events != [] {
      RunsAreSound(events[..|events| - 1]);
      TrackKeepsSound(Run(events[..|events| - 1]), events[|events| - 1]);
    }
  }

  lemma HeadIsMember(s: seq<Id>)
    ensures s == [] || s[0] in s
  {}

  /** A list in which nothing occurs more than three times has at most three elements
  for each one of a set that covers it. */
  lemma {:induction false} AtMostThreeEach(s: seq<Id>, keys: set<Id>)
    requires forall x :: x in s ==> x in keys
    requires forall x :: Occurrences(s, x) <= LOOP_LIMIT
    ensures |s| <= LOOP_LIMIT * |keys|
    decreases |keys|
  {
    if keys == {} {
      HeadIsMember(s);
    } else {
      var k :| k in keys;
      var rest := Without(s, k);
      AtMostThreeEach(rest, keys - {k});
    }
  }

  lemma {:induction false} Without(s: seq<Id>, k: Id) returns (rest: seq<Id>)
    ensures |rest| == |s| - Occurrences(s, k)
    ensures forall x :: x in rest ==> x in s && x != k
    ensures forall x :: x != k ==> Occurrences(rest, x) == Occurrences(s, x)
    ensures forall x :: Occurrences(rest, x) <= Occurrences(s, x)
  {
    if s == [] {
      rest := [];
    } else {
      var before, last := s[..|s| - 1], s[|s| - 1];
      rest := Without(before, k);
      if last != k {
        forall x
          ensures Occurrences(rest + [last], x) == Occurrences(rest, x) + if last == x then 1 else 0
        {
          OccurrencesOneMore(rest, last, x);
        }
        rest := rest + [last];
      }
    }
  }

  /** The loop breaker bounds every run: since the last start or resume each action
  passed at most three times, so with k different actions at most 3k steps advanced. */
  lemma {:induction false} StepsAreBounded(events: seq<Event>)
    ensures var t := Run(events);
      && (forall x :: Occurrences(t.passed, x) <= LOOP_LIMIT)
      && t.row.steps == |t.passed| <= LOOP_LIMIT * |t.row.counts|
  {
    var t := Run(events);
    RunsAreSound(events);
    AtMostThreeEach(t.passed, t.row.counts.Keys);
  }

  /** The moves that the table does not list: halting from anywhere but executing, by hand
  or by the loop breaker; resuming; being sent back to planning by a jailed account; and
  going straight from testing to done. */
  predicate OffTheTable(r: Row, e: Event) {
    match e
    case HaltTask => Current(r) != State.Executing
    case ResumeTask => true
    case AccountJailed(_) => true
    case ExecuteStep(result, hash) =>
      if Count(r.counts, hash) + 1 > LOOP_LIMIT then Current(r) != State.Executing
      else Current(r) == State.Testing && result != Result.Failed
    case _ => false
  }

  /** After every run, an event that changes the state follows the table if and only if it is
  none of those moves. */
  lemma {:induction false} StepsFollowTheTable(events: seq<Event>, e: Event)
    ensures var r := Run(events).row;
      var q := Step(r, e);
      q.state != r.state ==>
        q.state.Some? && (q.state.value in ValidTransitions(Current(r)) <==> !OffTheTable(r, e))
  {
    hide Run, Sound, Step, OffTheTable, ValidTransitions;
    RunsAreSound(events);
    StepFollowsTheTable(Run(events), e);
  }

  lemma StepFollowsTheTable(t: Tracked, e: Event)
    requires Sound(t)
    ensures var r, q := t.row, Step(t.row, e);
      q.state != r.state ==>
        q.state.Some? && (q.state.value in ValidTransitions(Current(r)) <==> !OffTheTable(r, e))
  {
    hide Covered, Counted, Count;
  }

  lemma RunOneMore(events: seq<Event>, e: Event)
    ensures Run(events + [e]) == Track(Run(events), e)
  {
    assert (events + [e])[..|events|] == events;
  }

  lemma NothingRun(events: seq<Event>)
    requires events == []
    ensures Run(events) == Tracked(FRESH, [], false)
  {}

  /** A started task that has taken its first step. */
  lemma FirstStep() returns (events: seq<Event>)
    ensures events == [StartTask, ExecuteStep(Ok, 0)]
    ensures Run(events) == Tracked(Row(Status.Executing, Some(State.Executing), map[0 := 1], 1, None), [0], false)
  {
    hide Run;
    var none: seq<Event> := [];
    NothingRun(none);
    RunOneMore(none, StartTask);
    RunOneMore(none + [StartTask], ExecuteStep(Ok, 0));
    events := none + [StartTask] + [ExecuteStep(Ok, 0)];
    assert map[][0 := 1] == map[0 := 1];
  }

  /** Three steps that all went well end in done, straight from testing, which the table does
  not list. */
  lemma TestingGoesStraightToDone() returns (events: seq<Event>, e: Event)
    ensures events == [StartTask, ExecuteStep(Ok, 0), ExecuteStep(Ok, 1)] && e == ExecuteStep(Ok, 2)
    ensures var r := Run(events).row;
      && r.state == Some(State.Testing) && Step(r, e).state == Some(State.Done)
      && State.Done !in ValidTransitions(State.Testing) && OffTheTable(r, e)
  {
    hide Run;
    var before := FirstStep();
    RunOneMore(before, ExecuteStep(Ok, 1));
    events, e := before + [ExecuteStep(Ok, 1)], ExecuteStep(Ok, 2);
  }

  /** A jailed account, and any will do, sends back a task that is bound to none, and leaves
  its status behind. */
  lemma JailSplitsStatusFromState(account: Id) returns (events: seq<Event>)
    ensures events == [StartTask, ExecuteStep(Ok, 0), AccountJailed(account)]
    ensures var t := Run(events);
      && t.jailed && t.row.account == None
      && t.row.state == Some(State.Planning) && t.row.status == Status.Executing
  {
    hide Run;
    var before := FirstStep();
    RunOneMore(before, AccountJailed(account));
    events := before + [AccountJailed(account)];
  }

  /** Jailing sends back only tasks of the jailed account, whichever is jailed, if and only if
  the task is not running or is bound to an account. */
  lemma JailKeepsToItsTasksIff(r: Row)
    ensures (forall account: Id :: Jail(r, account) != r ==> r.account == Some(account)) <==>
      !Running(r) || r.account.Some?
  {
    if Running(r) && r.account.None? {
      assert Jail(r, 0) != r && r.account != Some(0);
    }
  }

  // -- What one step does --------------------------------------------------------------------------

  /** The event at a position is a step with the hash that the engine took up. */
  predicate Attempted(events: seq<Event>, i: nat, hash: Id)
    requires i < |events|
  {
    events[i].ExecuteStep? && events[i].hash == hash && CanExecute(Run(events[..i]).row)
  }

  predicate ResetAt(events: seq<Event>, i: nat)
    requires i < |events|
  {
    Resets(Run(events[..i]).row, events[i])
  }

  /** The positions of the attempts with a hash since the task was last started or resumed. */
  function Attempts(events: seq<Event>, hash: Id): set<nat> {
    set i: nat | 0 <= i < |events| && Attempted(events, i, hash) &&
      forall j: nat :: i < j < |events| ==> !ResetAt(events, j)
  }

  lemma AttemptsBefore(events: seq<Event>, i: nat, hash: Id)
    requires i < |events| - 1
    ensures Attempted(events, i, hash) <==> Attempted(events[..|events| - 1], i, hash)
    ensures ResetAt(events, i) <==> ResetAt(events[..|events| - 1], i)
  {
    assert events[..|events| - 1][..i] == events[..i];
  }

  lemma InAttemptsBefore(events: seq<Event>, i: nat, hash: Id)
    requires i < |events| - 1
    ensures i in Attempts(events, hash) <==>
      i in Attempts(events[..|events| - 1], hash) && !ResetAt(events, |events| - 1)
  {
    var before, last: nat := events[..|events| - 1], |events| - 1;
    forall j: nat | j < last
      ensures Attempted(events, j, hash) <==> Attempted(before, j, hash)
      ensures ResetAt(events, j) <==> ResetAt(before, j)
    {
      AttemptsBefore(events, j, hash);
    }
    hide Attempted, ResetAt;
    if i in Attempts(before, hash) && !ResetAt(events, last) {
      forall j: nat | i < j < |events|
        ensures !ResetAt(events, j)
      {
        if j < last {
          assert !ResetAt(before, j);
        }
      }
    }
    if i in Attempts(events, hash) {
      forall j: nat | i < j < |before|
        ensures !ResetAt(before, j)
      {
        assert !ResetAt(events, j);
      }
    }
  }

  lemma AttemptsAreBelow(events: seq<Event>, hash: Id)
    ensures forall i :: i in Attempts(events, hash) ==> i < |events|
  {
    hide Attempted, ResetAt;
  }

  lemma EndOfAttempts(events: seq<Event>, hash: Id)
    requires events != []
    ensures |events| - 1 in Attempts(events, hash) <==> Attempted(events, |events| - 1, hash)
  {
    hide Attempted, ResetAt;
  }

  lemma AttemptsOneMore(events: seq<Event>, hash: Id)
    requires events != []
    ensures var before, last := events[..|events| - 1], |events| - 1;
      |Attempts(events, hash)| ==
        (if ResetAt(events, last) then 0 else |Attempts(before, hash)|)
        + if Attempted(events, last, hash) then 1 else 0
  {
    var before, last: nat := events[..|events| - 1], |events| - 1;
    hide Attempts, Attempted, ResetAt;
    forall i: nat | i < last
      ensures i in Attempts(events, hash) <==> i in Attempts(before, hash) && !ResetAt(events, last)
    {
      InAttemptsBefore(events, i, hash);
    }
    AttemptsAreBelow(events, hash);
    AttemptsAreBelow(before, hash);
    EndOfAttempts(events, hash);
    Positions.OneMore(Attempts(before, hash), Attempts(events, hash), last, ResetAt(events, last),
                      Attempted(events, last, hash));
  }

  lemma CountStep(t: Tracked, e: Event, hash: Id)
    requires Sound(t)
    ensures Count(Track(t, e).row.counts, hash) ==
      if Resets(t.row, e) then 0
      else Count(t.row.counts, hash) + if e.ExecuteStep? && e.hash == hash && CanExecute(t.row) then 1 else 0
  {
    hide Covered;
  }

  /** After every run the engine has counted each hash as often as a step with it was taken up
  since the last start or resume. */
  lemma {:induction false} CountsAreAttempts(events: seq<Event>, hash: Id)
    ensures Count(Run(events).row.counts, hash) == |Attempts(events, hash)|
  {
    if events == [] {
      assert Attempts(events, hash) == {};
    } else {
      var before := events[..|events| - 1];
      CountsAreAttempts(before, hash);
      RunsAreSound(before);
      AttemptsOneMore(events, hash);
      CountStep(Run(before), events[|events| - 1], hash);
      hide Attempts, Count, Track, Sound;
      assert events[..|events| - 1] == before;
    }
  }

  /** What a step does after every run. It raises if and only if the task is done or halted. The
  fourth attempt with a hash since the last start or resume halts the task. Every other step
  advances: from planning and from fix to executing, from there to testing whatever was
  reported, and from testing to fix if the step failed and to done if not. */
  lemma {:induction false} StepDoes(events: seq<Event>, result: Result, hash: Id)
    ensures var r := Run(events).row;
      var q, reply := Step(r, ExecuteStep(result, hash)), ReplyTo(r, result, hash);
      && (reply == Raised <==> r.state == Some(State.Done) || r.state == Some(State.Halted))
      && (reply == Raised ==> q == r)
      && (reply == Refused <==> reply != Raised && |Attempts(events, hash)| >= 3)
      && (reply == Refused ==> q.state == Some(State.Halted) && q.status == Status.Halted && q.steps == r.steps)
      && (reply == Advanced ==>
            && q.steps == r.steps + 1
            && (q.status, q.state) == (
                 match r.state
                 case None => (Status.Planning, Some(State.Planning))
                 case Some(Planning) => (Status.Executing, Some(State.Executing))
                 case Some(Fix) => (Status.Executing, Some(State.Executing))
                 case Some(Executing) => (Verification, Some(State.Testing))
                 case _ => if result == Result.Failed then (Status.Executing, Some(State.Fix))
                           else (Status.Done, Some(State.Done))))
  {
    RunsAreSound(events);
    CountsAreAttempts(events, hash);
    hide Run, Attempts, Covered, Counted, Count;
  }

  /** Halted is entered only by hand or by the fourth attempt with a hash. */
  lemma {:induction false} HaltedOnlyByHandOrLoop(events: seq<Event>, e: Event)
    requires Run(events).row.state != Some(State.Halted)
    ensures Step(Run(events).row, e).state == Some(State.Halted) <==>
      && Run(events).row.state != Some(State.Done)
      && (e.HaltTask? || (e.ExecuteStep? && |Attempts(events, e.hash)| >= 3))
  {
    RunsAreSound(events);
    if e.ExecuteStep? {
      StepDoes(events, e.result, e.hash);
    }
    hide Run, Attempts, Covered;
  }

  /** A list of steps in which no hash comes up more than three times. */
  ghost predicate OnlySteps(steps: seq<Event>) {
    && (forall i :: 0 <= i < |steps| ==> steps[i].ExecuteStep?)
    && forall hash :: Repeats(steps, hash) <= 3
  }

  function Repeats(steps: seq<Event>, hash: Id): nat {
    if steps == [] then 0
    else
      var last := steps[|steps| - 1];
      Repeats(steps[..|steps| - 1], hash) + if last.ExecuteStep? && last.hash == hash then 1 else 0
  }

  /** The first three steps of a task plan, execute and test it, and so do every three after a
  failed test. */
  predicate PassedATest(steps: seq<Event>) {
    exists i :: 0 <= i < |steps| && i % 3 == 2 && steps[i].ExecuteStep? && steps[i].result != Result.Failed
  }

  /** A started task whose hashes come up at most three times each is done after its steps if and
  only if some third step did not fail, whatever the steps between reported. Until then it goes
  round executing, testing and fixing. */
  lemma {:induction false} DoneIffATestPassed(steps: seq<Event>)
    requires OnlySteps(steps)
    ensures Run([StartTask] + steps).row.state == Some(
      if PassedATest(steps) then State.Done
      else if steps == [] then State.Planning
      else if |steps| % 3 == 1 then State.Executing
      else if |steps| % 3 == 2 then State.Testing
      else State.Fix)
    ensures forall hash :: Count(Run([StartTask] + steps).row.counts, hash) <= Repeats(steps, hash)
  {
    hide Attempts, Track;
    if steps == [] {
      Started(steps);
    } else {
      var before, e := steps[..|steps| - 1], steps[|steps| - 1];
      assert [StartTask] + steps == [StartTask] + before + [e];
      RepeatsBefore(steps);
      DoneIffATestPassed(before);
      RunOneMore([StartTask] + before, e);
      OneMoreStep([StartTask] + before, e, Repeats(before, e.hash));
      PassedOneMore(steps);
    }
  }

  lemma Started(steps: seq<Event>)
    requires steps == []
    ensures Run([StartTask] + steps).row == Row(Status.Planning, Some(State.Planning), map[], 0, None)
  {
    assert ([StartTask] + steps)[..0] == [];
    NothingRun([]);
  }

  lemma RepeatsBefore(steps: seq<Event>)
    requires OnlySteps(steps) && steps != []
    ensures OnlySteps(steps[..|steps| - 1])
    ensures forall hash ::
      Repeats(steps, hash) == Repeats(steps[..|steps| - 1], hash) + if steps[|steps| - 1].hash == hash then 1 else 0
    ensures Repeats(steps[..|steps| - 1], steps[|steps| - 1].hash) < 3
  {
    var before := steps[..|steps| - 1];
    forall hash: Id
      ensures Repeats(before, hash) <= 3
    {
      assert Repeats(steps, hash) <= 3;
    }
    assert Repeats(steps, steps[|steps| - 1].hash) <= 3;
  }

  lemma PassedOneMore(steps: seq<Event>)
    requires steps != [] && steps[|steps| - 1].ExecuteStep?
    ensures PassedATest(steps) <==>
      || PassedATest(steps[..|steps| - 1])
      || (|steps| % 3 == 0 && steps[|steps| - 1].result != Result.Failed)
  {
    var before, last := steps[..|steps| - 1], |steps| - 1;
    if PassedATest(before) {
      var i :| 0 <= i < |before| && i % 3 == 2 && before[i].ExecuteStep? && before[i].result != Result.Failed;
      assert steps[i] == before[i];
    }
    if PassedATest(steps) {
      var i :| 0 <= i < |steps| && i % 3 == 2 && steps[i].ExecuteStep? && steps[i].result != Result.Failed;
      if i < last {
        assert before[i] == steps[i];
      }
    }
  }

  lemma OneMoreStep(events: seq<Event>, e: Event, limit: nat)
    requires e.ExecuteStep? && Count(Run(events).row.counts, e.hash) <= limit < 3
    ensures var r, q := Run(events).row, Run(events + [e]).row;
      && (r.state == Some(State.Done) ==> q.state == r.state)
      && (r.state == Some(State.Planning) || r.state == Some(State.Fix) ==> q.state == Some(State.Executing))
      && (r.state == Some(State.Executing) ==> q.state == Some(State.Testing))
      && (r.state == Some(State.Testing) ==>
            q.state == Some(if e.result == Result.Failed then State.Fix else State.Done))
      && forall hash :: Count(q.counts, hash) <= Count(r.counts, hash) + if e.hash == hash then 1 else 0
  {
    RunOneMore(events, e);
    RunsAreSound(events);
    CountsAreAttempts(events, e.hash);
    StepDoes(events, e.result, e.hash);
    hide Run, Attempts, Covered;
  }

  /** Task and workflow agree after a run if and only if no jailed account was the last to
  move the workflow; then it is back at planning, and the next step that advances restores
  agreement. */
  lemma {:induction false} StatusAgrees(events: seq<Event>, result: Result, hash: Id)
    ensures var t := Run(events);
      && (t.row.state.Some? ==> (t.row.status == StatusOf(t.row.state.value) <==> !t.jailed))
      && (t.jailed ==> t.row.state == Some(State.Planning))
      && (t.jailed && Count(t.row.counts, hash) < LOOP_LIMIT ==>
            var next := Track(t, ExecuteStep(result, hash));
            !next.jailed && next.row.state == Some(State.Executing) && next.row.status == Status.Executing)
  {
    RunsAreSound(events);
  }

  /** Done is entered only by a step out of testing that did not fail, and never left;
  review is never entered. */
  lemma {:induction false} DoneIsAbsorbing(events: seq<Event>, e: Event)
    ensures var r := Run(events).row; var q := Step(r, e);
      && (r.state == Some(State.Done) ==> r.status == Status.Done && q == r.(account := q.account))
      && (r.state != Some(State.Done) && q.state == Some(State.Done) ==>
            r.state == Some(State.Testing) && e.ExecuteStep? && e.result != Result.Failed)
      && q.state != Some(State.Review)
  {
    RunsAreSound(events);
    TrackKeepsSound(Run(events), e);
  }

  // -- The classes -------------------------------------------------------------------------------

  class Task {
    const id: Id
    var status: Status

    constructor (id: Id)
      ensures this.id == id && status == Status.Idle
    {
      this.id := id;
      status := Status.Idle;
    }

    method TransitionTo(newStatus: Status) returns (raised: bool)
      modifies this`status
      ensures raised == Transition(old(status), newStatus).None?
      ensures raised <==> old(status) in {Status.Done, Dlq} && newStatus != old(status)
      ensures status == if raised then old(status) else newStatus
    {
      if newStatus == status {
        return false;
      }
      if status == Status.Done || status == Dlq {
        return true;
      }
      status := newStatus;
      return false;
    }
  }

  class WorkflowEngine {
    var taskStates: map<Id, State>
    var actionCounts: map<Id, map<Id, nat>>
    var stepIndex: map<Id, nat>
    var taskAccounts: map<Id, Id>

    constructor ()
      ensures forall id, status :: RowOf(id, status) == FRESH.(status := status)
    {
      taskStates, actionCounts, stepIndex, taskAccounts := map[], map[], map[], map[];
    }

    function RowOf(id: Id, status: Status): Row
      reads this
    {
      Row(status,
          if id in taskStates then Some(taskStates[id]) else None,
          if id in actionCounts then actionCounts[id] else map[],
          if id in stepIndex then stepIndex[id] else 0,
          if id in taskAccounts then Some(taskAccounts[id]) else None)
    }

    /** The rows of all other tasks are as before. */
    twostate predicate OthersUnchanged(id: Id)
      reads this
    {
      forall other, status :: other != id ==> RowOf(other, status) == old(RowOf(other, status))
    }

    method StartTask(task: Task) returns (raised: bool)
      modifies this, task`status
      ensures raised <==> old(task.status) != Status.Idle
      ensures RowOf(task.id, task.status) == Start(old(RowOf(task.id, task.status)))
      ensures OthersUnchanged(task.id)
    {
      if task.status != Status.Idle {
        return true;
      }
      taskStates := taskStates[task.id := State.Planning];
      raised := task.TransitionTo(Status.Planning);
      stepIndex := stepIndex[task.id := 0];
      actionCounts := actionCounts - {task.id};
    }

    method HandleLoopDetection(task: Task, hash: Id) returns (looping: bool)
      modifies this`actionCounts
      ensures looping <==> Count(old(RowOf(task.id, task.status)).counts, hash) + 1 > LOOP_LIMIT
      ensures RowOf(task.id, task.status) ==
        old(RowOf(task.id, task.status)).(counts := Counted(old(RowOf(task.id, task.status)).counts, hash))
      ensures OthersUnchanged(task.id)
    {
      if task.id !in actionCounts {
        actionCounts := actionCounts[task.id := map[]];
      }
      var counts := actionCounts[task.id];
      counts := counts[hash := Count(counts, hash) + 1];
      actionCounts := actionCounts[task.id := counts];
      looping := counts[hash] > LOOP_LIMIT;
    }

    method HaltTask(task: Task) returns (raised: bool)
      modifies this`taskStates, task`status
      ensures raised <==> !CanHalt(old(RowOf(task.id, task.status)))
      ensures RowOf(task.id, task.status) == Halt(old(RowOf(task.id, task.status)))
      ensures OthersUnchanged(task.id)
    {
      if task.status == Status.Done || task.status == Dlq {
        return true;
      }
      taskStates := taskStates[task.id := State.Halted];
      raised := task.TransitionTo(Status.Halted);
    }

    method ResumeTask(task: Task) returns (resumed: bool)
      modifies this, task`status
      ensures resumed <==> old(task.status) == Status.Halted
      ensures RowOf(task.id, task.status) == Resume(old(RowOf(task.id, task.status)))
      ensures OthersUnchanged(task.id)
    {
      if task.status != Status.Halted {
        return false;
      }
      taskStates := taskStates[task.id := State.Planning];
      var _ := task.TransitionTo(Status.Planning);
      actionCounts := actionCounts - {task.id};
      stepIndex := stepIndex[task.id := 0];
      resumed := true;
    }

    method ExecuteStep(task: Task, result: Result, hash: Id) returns (reply: Reply)
      modifies this, task`status
      ensures reply == ReplyTo(old(RowOf(task.id, task.status)), result, hash)
      ensures RowOf(task.id, task.status) == Execute(old(RowOf(task.id, task.status)), result, hash)
      ensures OthersUnchanged(task.id)
    {
      if task.status == Status.Done || task.status == Dlq || task.status == Status.Failed {
        return Raised;
      }
      if task.status == Status.Halted {
        return Raised;
      }
      var looping := HandleLoopDetection(task, hash);
      if looping {
        var _ := HaltTask(task);
        return Refused;
      }
      var current := if task.id in taskStates then taskStates[task.id] else State.Idle;
      var next := ResolveNextState(current, result);
      if next.None? {
        return Refused;
      }
      MoveTo(task, next.value);
      return Advanced;
    }

    method MoveTo(task: Task, next: State)
      requires task.status != Status.Done && task.status != Dlq
      modifies this`taskStates, this`stepIndex, task`status
      ensures RowOf(task.id, task.status) == old(
        var r := RowOf(task.id, task.status); r.(state := Some(next), status := StatusOf(next), steps := r.steps + 1))
      ensures OthersUnchanged(task.id)
    {
      taskStates := taskStates[task.id := next];
      var _ := task.TransitionTo(StatusOf(next));
      stepIndex := stepIndex[task.id := (if task.id in stepIndex then stepIndex[task.id] else 0) + 1];
    }

    /** An account has changed state; only jail matters. */
    method HandleAccountEvent(account: Id, jailed: bool)
      modifies this`taskStates
      ensures forall id, status ::
        RowOf(id, status) == (if jailed then Jail(old(RowOf(id, status)), account) else old(RowOf(id, status)))
    {
      if !jailed {
        return;
      }
      ghost var before := taskStates;
      var todo := taskStates.Keys;
      while todo != {}
        invariant todo <= taskStates.Keys == before.Keys
        invariant forall id :: id in todo ==> taskStates[id] == before[id]
        invariant forall id, status :: id !in todo ==> RowOf(id, status) == Jail(old(RowOf(id, status)), account)
        decreases |todo|
      {
        var id :| id in todo;
        var state := taskStates[id];
        if state == State.Executing || state == State.Testing || state == State.Fix {
          if id !in taskAccounts || taskAccounts[id] == account {
            taskStates := taskStates[id := State.Planning];
          }
        }
        todo := todo - {id};
      }
    }

    method BindTaskAccount(id: Id, account: Id)
      modifies this`taskAccounts
      ensures forall status :: RowOf(id, status) == old(RowOf(id, status)).(account := Some(account))
      ensures OthersUnchanged(id)
    {
      taskAccounts := taskAccounts[id := account];
    }

    method UnbindTaskAccount(id: Id)
      modifies this`taskAccounts
      ensures forall status :: RowOf(id, status) == old(RowOf(id, status)).(account := None)
      ensures OthersUnchanged(id)
    {
      taskAccounts := taskAccounts - {id};
    }
  }
}
