/** The background dispatcher of the questions service: a gate evaluated once per tick decides
    whether a cycle runs, and a cycle builds one session per person and sends one batch.
    Time is a count of local seconds since 1970-01-01 00:00, a Thursday; the sleep between ticks
    and the thread are left out, one call of `Tick` is one pass of the loop. */
module Dispatcher {
  import opened Common
  import opened Records
  import opened Generators
  import opened Connector

  /** The schedule part of the settings store: the period in seconds, the allowed weekdays
      (0 is Monday), and the window as seconds after midnight. */
  datatype Settings = Settings(timePeriod: int, weekDays: seq<int>, fromTime: int, toTime: int)

  /** `now.time()` in whole seconds. */
  function TimeOfDay(now: int): (t: int)
    ensures 0 <= t < SecondsPerDay
  {
    now % SecondsPerDay
  }

  /** The gate fields of the schedule, with the period known. */
  datatype Gates = Gates(every: int, weekDays: Option<seq<int>>, fromTime: Option<int>, toTime: Option<int>)

  /** A window start without an end would make the comparison raise. */
  predicate WellFormed(g: Gates)
  {
    g.fromTime.Some? ==> g.toTime.Some?
  }

  predicate InWindow(g: Gates, now: int)
    requires WellFormed(g)
  {
    g.fromTime.None? || g.fromTime.value <= TimeOfDay(now) <= g.toTime.value
  }

  predicate PeriodElapsed(g: Gates, previousCall: Option<int>, now: int)
  {
    previousCall.None? || now >= previousCall.value + g.every
  }

  predicate DayAllowed(g: Gates, now: int)
  {
    g.weekDays.None? || DayOfWeek(now) in g.weekDays.value
  }

  /** The outcome of one tick: the new `previous_call` and whether the cycle ran. */
  datatype Decision = Decision(previousCall: Option<int>, fires: bool)

  /** One pass of the loop body of `run`: inside the window and past the period, `previous_call`
      becomes now, and the cycle runs if the day is allowed. */
  function Step(g: Gates, previousCall: Option<int>, now: int): (d: Decision)
    requires WellFormed(g)
    ensures d.previousCall == previousCall || d.previousCall == Some(now)
    ensures d.fires ==> d.previousCall == Some(now)
  {
    if InWindow(g, now) && PeriodElapsed(g, previousCall, now) then Decision(Some(now), DayAllowed(g, now))
    else Decision(previousCall, false)
  }

  /** A tick fires exactly when all three gates pass. */
  lemma FiresIffAllGates(g: Gates, previousCall: Option<int>, now: int)
    requires WellFormed(g)
    ensures Step(g, previousCall, now).fires <==>
      InWindow(g, now) && PeriodElapsed(g, previousCall, now) && DayAllowed(g, now)
  {
  }

  /** A tick outside the window or inside the period changes nothing. */
  lemma ClosedGateKeepsPreviousCall(g: Gates, previousCall: Option<int>, now: int)
    requires WellFormed(g)
    requires !InWindow(g, now) || !PeriodElapsed(g, previousCall, now)
    ensures Step(g, previousCall, now) == Decision(previousCall, false)
  {
  }

  /** A disallowed day still uses up the period: the tick does not fire, yet no tick before the
      period has passed again fires either, even on an allowed day. */
  lemma DisallowedDayUsesPeriod(g: Gates, previousCall: Option<int>, now: int, later: int)
    requires WellFormed(g)
    requires InWindow(g, now) && PeriodElapsed(g, previousCall, now) && !DayAllowed(g, now)
    requires later < now + g.every
    ensures Step(g, previousCall, now) == Decision(Some(now), false)
    ensures Step(g, Some(now), later) == Decision(Some(now), false)
  {
  }

  /** After a firing tick no tick fires again, or moves `previous_call`, until the period has
      passed; once it has, a tick in the window on an allowed day fires. */
  lemma PeriodSeparatesFirings(g: Gates, previousCall: Option<int>, now: int, later: int)
    requires WellFormed(g)
    requires Step(g, previousCall, now).fires
    ensures later < now + g.every ==>
      Step(g, Step(g, previousCall, now).previousCall, later) == Decision(Some(now), false)
    ensures later >= now + g.every && InWindow(g, later) && DayAllowed(g, later) ==>
      Step(g, Step(g, previousCall, now).previousCall, later) == Decision(Some(later), true)
  {
  }

  /** A window whose start is after its end never opens: no tick fires or moves `previous_call`. */
  lemma InvertedWindowNeverFires(g: Gates, previousCall: Option<int>, now: int)
    requires WellFormed(g) && g.fromTime.Some? && g.fromTime.value > g.toTime.value
    ensures Step(g, previousCall, now) == Decision(previousCall, false)
  {
  }

  /** Window 09:00-18:00, Monday to Friday, a 30 second period; Monday 1970-01-05 and Saturday
      1970-01-10: 08:59:59 does not fire, 09:00:00 does, 09:00:15 does not, 09:00:31 does, and
      09:30:00 on the Saturday does not. */
  lemma WorkingHoursScenario()
    ensures var g := Gates(30, Some([0, 1, 2, 3, 4]), Some(9 * 3600), Some(18 * 3600));
      var monday := 4 * SecondsPerDay;
      var saturday := 9 * SecondsPerDay;
      var t1 := Step(g, None, monday + 9 * 3600 - 1);
      var t2 := Step(g, t1.previousCall, monday + 9 * 3600);
      var t3 := Step(g, t2.previousCall, monday + 9 * 3600 + 15);
      var t4 := Step(g, t3.previousCall, monday + 9 * 3600 + 31);
      var t5 := Step(g, t4.previousCall, saturday + 9 * 3600 + 30 * 60);
      DayOfWeek(monday) == 0 && DayOfWeek(saturday) == 5 &&
      !t1.fires && t2.fires && !t3.fires && t4.fires && !t5.fires
  {
  }

  /** `Session(person)` followed by `generate_questions()`. */
  method NewSession(person: Person, db: Ledger, now: int, weigh: Question -> real) returns (session: Session)
    requires db.Valid()
    requires forall q :: weigh(q) > 0.0
    ensures fresh(session) && session.person == person && |session.questions| <= 1
    ensures Generated(db.records, db.questions, person, now, session.questions)
  {
    session := new Session(person);
    session.GenerateQuestions(db, now, weigh);
  }

  /** One iteration of the loop of `task`: a new session for the next person at the end of the
      list, its generated queue at the end of `queues`; `plans` are what the people's
      generators draw from. */
  method AddSession(sessions: seq<Session>, ghost queues: seq<seq<Item>>, people: seq<Person>,
                    ghost records: seq<AnswerRecord>, ghost plans: seq<Plan>, db: Ledger, now: int,
                    weigh: Question -> real)
    returns (r: seq<Session>, ghost qs: seq<seq<Item>>)
    requires db.Valid() && db.records == records && plans == PlansOf(records, db.questions, people, now)
    requires forall q :: weigh(q) > 0.0
    requires |sessions| == |queues| < |people|
    requires forall j :: 0 <= j < |sessions| ==>
      sessions[j].person == people[j] && sessions[j].questions == queues[j] && |queues[j]| <= 1
    requires AllBunches(plans[..|queues|], queues)
    requires forall j, k :: 0 <= j < k < |sessions| ==> sessions[j] != sessions[k]
    ensures |r| == |sessions| + 1 && |qs| == |sessions| + 1 && r[..|sessions|] == sessions
    ensures fresh(r[|sessions|])
    ensures forall j :: 0 <= j < |r| ==>
      r[j].person == people[j] && r[j].questions == qs[j] && |qs[j]| <= 1
    ensures AllBunches(plans[..|qs|], qs)
    ensures forall j, k :: 0 <= j < k < |r| ==> r[j] != r[k]
  {
    var i := |sessions|;
    var session := NewSession(people[i], db, now, weigh);
    PlansOfAt(records, db.questions, people, now, i);
    r, qs := sessions + [session], queues + [session.questions];
    assert plans[..i + 1][..i] == plans[..i] && qs[..i] == queues;
  }

  /** The loop of `task` that builds the sessions: one per person, each holding a generated
      bunch of at most one item (`queues`). */
  method OpenSessions(people: seq<Person>, db: Ledger, now: int, weigh: Question -> real)
    returns (sessions: seq<Session>, ghost queues: seq<seq<Item>>)
    requires db.Valid()
    requires forall q :: weigh(q) > 0.0
    ensures |sessions| == |people| && |queues| == |people|
    ensures forall j :: 0 <= j < |sessions| ==> fresh(sessions[j])
    ensures forall j :: 0 <= j < |sessions| ==>
      sessions[j].person == people[j] && sessions[j].questions == queues[j] && |queues[j]| <= 1
    ensures AllGenerated(db.records, db.questions, people, now, queues)
    ensures forall j, k :: 0 <= j < k < |sessions| ==> sessions[j] != sessions[k]
  {
    sessions, queues := [], [];
    ghost var records := db.records;
    ghost var plans := PlansOf(records, db.questions, people, now);
    for i := 0 to |people|
      invariant |sessions| == i && |queues| == i
      invariant db.records == records
      invariant forall j :: 0 <= j < i ==> fresh(sessions[j])
      invariant forall j :: 0 <= j < |sessions| ==>
        sessions[j].person == people[j] && sessions[j].questions == queues[j] && |queues[j]| <= 1
      invariant AllBunches(plans[..|queues|], queues)
      invariant forall j, k :: 0 <= j < k < |sessions| ==> sessions[j] != sessions[k]
    {
      sessions, queues := AddSession(sessions, queues, people, records, plans, db, now, weigh);
    }
    assert plans[..|queues|] == plans;
  }

  class Schedule {
    var every: Option<int>
    var weekDays: Option<seq<int>>
    var fromTime: Option<int>
    var toTime: Option<int>
    var previousCall: Option<int>
    const connector: TelegramConnector

    constructor (webhook: string)
      ensures every.None? && weekDays.None? && fromTime.None? && toTime.None? && previousCall.None?
      ensures fresh(connector) && connector.webhook == webhook && connector.aliveSessions == map[]
    {
      every, weekDays, fromTime, toTime, previousCall := None, None, None, None, None;
      connector := new TelegramConnector(webhook);
    }

    /** `from_settings`: copies the four settings into the gate fields and returns the schedule. */
    method FromSettings(s: Settings) returns (self: Schedule)
      modifies this`every, this`weekDays, this`fromTime, this`toTime
      ensures self == this
      ensures every == Some(s.timePeriod) && weekDays == Some(s.weekDays)
      ensures fromTime == Some(s.fromTime) && toTime == Some(s.toTime)
    {
      every := Some(s.timePeriod);
      weekDays := Some(s.weekDays);
      fromTime := Some(s.fromTime);
      toTime := Some(s.toTime);
      self := this;
    }

    predicate Configured()
      reads this
    {
      every.Some? && WellFormed(Gates(every.value, weekDays, fromTime, toTime))
    }

    function CurrentGates(): (g: Gates)
      reads this
      requires Configured()
      ensures WellFormed(g)
    {
      Gates(every.value, weekDays, fromTime, toTime)
    }

    /** One pass of `run` at time `now`. `people` is what the user directory returns, or None
        when it fails; `acks` are the ids the Telegram service returns for the batch. */
    method Tick(now: int, people: Option<seq<Person>>, db: Ledger, weigh: Question -> real,
                acks: seq<Option<int>>) returns (fired: bool)
      requires Configured() && db.Valid()
      requires forall q :: weigh(q) > 0.0
      modifies this`previousCall, connector, db
      ensures db.Valid()
      ensures Decision(previousCall, fired) == Step(CurrentGates(), old(previousCall), now)
      ensures !fired ==> connector.aliveSessions == old(connector.aliveSessions) && db.records == old(db.records)
    {
      fired := false;
      if fromTime.None? || fromTime.value <= TimeOfDay(now) <= toTime.value {
        if previousCall.None? || now >= previousCall.value + every.value {
          previousCall := Some(now);
          if weekDays.None? || DayOfWeek(now) in weekDays.value {
            Cycle(people, db, now, weigh, acks);
            previousCall := Some(now);
            fired := true;
          }
        }
      }
    }

    /** The `task` call of a firing tick; what the cycle does is stated by `Task`. */
    method Cycle(people: Option<seq<Person>>, db: Ledger, now: int, weigh: Question -> real, acks: seq<Option<int>>)
      requires db.Valid()
      requires forall q :: weigh(q) > 0.0
      modifies connector, db
      ensures db.Valid()
    {
      var sessions, request, outcome;
      ghost var queues, popped, relation, collected;
      sessions, request, outcome, queues, popped, relation, collected := Task(people, db, now, weigh, acks);
    }

    /** `task`: one session per person, each generating a bunch of one, then a single transfer
        of all of them. A failure is logged and ends the cycle: it is returned, never raised. */
    method Task(people: Option<seq<Person>>, db: Ledger, now: int, weigh: Question -> real,
                acks: seq<Option<int>>)
      returns (sessions: seq<Session>, request: seq<OutgoingMessage>, outcome: Outcome,
               ghost queues: seq<seq<Item>>, ghost popped: seq<Option<AnswerRecord>>,
               ghost relation: seq<Entry>, ghost collected: seq<AnswerRecord>)
      requires db.Valid()
      requires forall q :: weigh(q) > 0.0
      modifies connector, db
      ensures db.Valid()
      ensures people.None? ==>
        sessions == [] && request == [] && outcome == Fail(PeopleUnavailable) &&
        connector.aliveSessions == old(connector.aliveSessions) && db.records == old(db.records)
      ensures people.Some? ==>
        |sessions| == |people.value| && |queues| == |sessions| && |popped| == |sessions| &&
        forall i :: 0 <= i < |sessions| ==>
          fresh(sessions[i]) && sessions[i].person == people.value[i] && sessions[i].questions == [] &&
          PoppedFrom(queues[i], popped[i], people.value[i], now, |old(db.records)|, collected)
      ensures people.Some? ==>
        AllGenerated(old(db.records), db.questions, people.value, now, queues) &&
        collected == old(db.records) + Created(queues, popped) &&
        relation == Related(sessions, popped, db.questions) &&
        request == Messages(relation, db.questions) &&
        (request == [] ==>
          outcome == Pass && connector.aliveSessions == old(connector.aliveSessions) && db.records == collected) &&
        (request != [] ==>
          Acknowledge(old(connector.aliveSessions), collected, acks, relation, now) ==
          Acked(connector.aliveSessions, db.records, outcome))
    {
      if people.None? {
        return [], [], Fail(PeopleUnavailable), [], [], [], db.records;
      }
      sessions, queues := OpenSessions(people.value, db, now, weigh);
      ghost var transferred;
      request, relation, outcome, transferred, popped, collected := connector.Transfer(sessions, db, now, acks);
      assert transferred == queues;
    }
  }
}
