/** The older scheduler at the repository root: a random pick of a not yet answered question
    from a person's groups, the weekday enumeration, and a schedule whose builder methods set a
    period and a weekday set and whose loop fires a callback. Time is local seconds since
    1970-01-01 00:00; one call of `Tick` is one pass of the loop of `run`, and the callback is
    represented by `Tick` reporting that it fired. */
module Legacy {
  import opened Common

  // =============================================================================================
  // random_question

  /** The `group_id` argument: absent, one id, or a list of ids. */
  datatype GroupArg = NoGroup | OneGroup(id: int) | GroupList(ids: seq<int>)

  /** The groups queried, as written. `group_id is int` compares the value with the type `int`
      and is never true for an id, so a single id is used as the list of groups itself, which
      the `in_` query cannot iterate. Without a group argument the person is read, and a missing
      person raises. */
  function GroupsAsWritten(personGroups: Option<seq<int>>, arg: GroupArg): (r: Result<seq<int>>)
    ensures arg.OneGroup? ==> r == Err(NotIterable)
    ensures arg.GroupList? ==> r == Ok(arg.ids)
    ensures arg.NoGroup? ==> (r.Ok? <==> personGroups.Some?) && (r.Ok? ==> r.value == personGroups.value)
  {
    match arg
    case NoGroup => if personGroups.None? then Err(NotFound) else Ok(personGroups.value)
    case OneGroup(_) => Err(NotIterable)
    case GroupList(ids) => Ok(ids)
  }

  /** The groups queried, as evidently intended: a single id becomes a one-element list. */
  function Groups(personGroups: Option<seq<int>>, arg: GroupArg): (r: Result<seq<int>>)
    ensures arg.OneGroup? ==> r == Ok([arg.id])
    ensures arg.GroupList? ==> r == Ok(arg.ids)
    ensures arg.NoGroup? ==> (r.Ok? <==> personGroups.Some?) && (r.Ok? ==> r.value == personGroups.value)
  {
    match arg
    case NoGroup => if personGroups.None? then Err(NotFound) else Ok(personGroups.value)
    case OneGroup(g) => Ok([g])
    case GroupList(ids) => Ok(ids)
  }

  /** As written, a call with one group id raises, where the intended reading queries that one
      group, exactly as the one-element list does. */
  lemma SingleGroupRaises(personGroups: Option<seq<int>>, g: int)
    ensures GroupsAsWritten(personGroups, OneGroup(g)) == Err(NotIterable)
    ensures Groups(personGroups, OneGroup(g)) == Ok([g]) == GroupsAsWritten(personGroups, GroupList([g]))
  {
  }

  /** The two readings agree on every argument but a single id. */
  lemma GroupsAgreeOtherwise(personGroups: Option<seq<int>>, arg: GroupArg)
    requires !arg.OneGroup?
    ensures GroupsAsWritten(personGroups, arg) == Groups(personGroups, arg)
  {
  }

  /** `set(question_ids).difference(answered_question_ids)`: the questions in any of `groups`
      (from the question-to-group link rows) that the person has no answer row for. */
  function Candidates(links: seq<(int, int)>, groups: seq<int>, answered: seq<int>): (c: set<int>)
    ensures forall q :: q in c <==>
      (exists k :: 0 <= k < |links| && links[k].0 == q && links[k].1 in groups) && q !in answered
  {
    set k | 0 <= k < |links| && links[k].1 in groups && links[k].0 !in answered :: links[k].0
  }

  /** Answering a question can only shrink the candidate set. */
  lemma AnsweringShrinksCandidates(links: seq<(int, int)>, groups: seq<int>, answered: seq<int>, q: int)
    ensures Candidates(links, groups, answered + [q]) == Candidates(links, groups, answered) - {q}
  {
  }

  /** The end of `random_question`: an arbitrary member of the candidates, or -1 when there is
      none. */
  method PickUnanswered(links: seq<(int, int)>, groups: seq<int>, answered: seq<int>) returns (q: int)
    ensures var c := Candidates(links, groups, answered);
      (c == {} ==> q == -1) && (c != {} ==> q in c)
  {
    var result := Candidates(links, groups, answered);
    if result != {} {
      q :| q in result;
    } else {
      q := -1;
    }
  }

  /** `random_question` as written: the groups by `GroupsAsWritten`, so a single group id raises.
      `personGroups` are the groups of the person row, None when there is no such person;
      `links` are the question-to-group rows and `answered` the question ids of the person's
      answer rows. */
  method RandomQuestion(personGroups: Option<seq<int>>, arg: GroupArg, links: seq<(int, int)>,
                        answered: seq<int>) returns (r: Result<int>)
    ensures arg.OneGroup? ==> r == Err(NotIterable)
    ensures arg.NoGroup? && personGroups.None? ==> r == Err(NotFound)
    ensures GroupsAsWritten(personGroups, arg).Ok? ==>
      var c := Candidates(links, GroupsAsWritten(personGroups, arg).value, answered);
      r.Ok? && (c == {} ==> r.value == -1) && (c != {} ==> r.value in c)
  {
    var groups := GroupsAsWritten(personGroups, arg);
    if groups.Err? {
      return Err(groups.error);
    }
    var pick := PickUnanswered(links, groups.value, answered);
    r := Ok(pick);
  }

  /** `random_question` as evidently intended: the groups by `Groups`, so a single group id
      draws from that group. */
  method RandomQuestionIntended(personGroups: Option<seq<int>>, arg: GroupArg, links: seq<(int, int)>,
                                answered: seq<int>) returns (r: Result<int>)
    ensures arg.NoGroup? && personGroups.None? ==> r == Err(NotFound)
    ensures Groups(personGroups, arg).Ok? ==>
      var c := Candidates(links, Groups(personGroups, arg).value, answered);
      r.Ok? && (c == {} ==> r.value == -1) && (c != {} ==> r.value in c)
    ensures arg.OneGroup? ==>
      var c := Candidates(links, [arg.id], answered);
      r.Ok? && (c == {} ==> r.value == -1) && (c != {} ==> r.value in c)
  {
    var groups := Groups(personGroups, arg);
    if groups.Err? {
      return Err(groups.error);
    }
    var pick := PickUnanswered(links, groups.value, answered);
    r := Ok(pick);
  }

  // =============================================================================================
  // WeekDays

  /** The enumeration as declared: value 5 carries the name Sunday and 6 Saturday. */
  datatype WeekDay = Monday | Tuesday | Wednesday | Thursday | Friday | Sunday | Saturday

  function WeekDayValue(d: WeekDay): nat
  {
    match d
    case Monday => 0
    case Tuesday => 1
    case Wednesday => 2
    case Thursday => 3
    case Friday => 4
    case Sunday => 5
    case Saturday => 6
  }

  /** `WeekDays(x)`: the member with value x, or a ValueError. */
  function WeekDayOf(v: int): (r: Result<WeekDay>)
    ensures r.Ok? <==> 0 <= v < 7
    ensures r.Err? ==> r.error == BadWeekDay
  {
    if v == 0 then Ok(Monday)
    else if v == 1 then Ok(Tuesday)
    else if v == 2 then Ok(Wednesday)
    else if v == 3 then Ok(Thursday)
    else if v == 4 then Ok(Friday)
    else if v == 5 then Ok(Sunday)
    else if v == 6 then Ok(Saturday)
    else Err(BadWeekDay)
  }

  /** Values and members correspond one to one. */
  lemma WeekDayRoundTrip(d: WeekDay, v: int)
    ensures WeekDayOf(WeekDayValue(d)) == Ok(d)
    ensures 0 <= v < 7 ==> WeekDayValue(WeekDayOf(v).value) == v
  {
  }

  /** Looked up by `weekday()`, a calendar Saturday is the member named Sunday and a calendar
      Sunday the member named Saturday: `on(WeekDays.Saturday)` lets the callback run on Sundays. */
  lemma WeekendNamesSwapped(now: int)
    ensures DayOfWeek(now) == 5 ==> WeekDayOf(DayOfWeek(now)) == Ok(Sunday)
    ensures DayOfWeek(now) == 6 ==> WeekDayOf(DayOfWeek(now)) == Ok(Saturday)
    ensures DayOfWeek(now) < 5 ==> WeekDayOf(DayOfWeek(now)).Ok?
  {
  }

  // =============================================================================================
  // The schedule gate

  /** Which builder was called first: `every` (value 1) or `on` (value 0). */
  datatype Order = PeriodFirst | DaysFirst

  /** The calendar month (1..12) of a time, by the proleptic Gregorian calendar. */
  function Month(t: int): int
  {
    var z := t / SecondsPerDay + 719468;
    var era := z / 146097;
    var doe := z - era * 146097;
    var yoe := (doe - doe / 1460 + doe / 36524 - doe / 146096) / 365;
    var doy := doe - (365 * yoe + yoe / 4 - yoe / 100);
    var mp := (5 * doy + 2) / 153;
    if mp < 10 then mp + 3 else mp - 9
  }

  predicate DayAllowed(weekDays: Option<seq<WeekDay>>, now: int)
  {
    weekDays.None? || WeekDayOf(DayOfWeek(now)).value in weekDays.value
  }

  /** One pass of the loop: the new `previous_call`, whether the callback ran, and the
      exception, if one ended the loop. */
  datatype Firing = Firing(previousCall: Option<int>, fires: bool, outcome: Outcome)

  /** The inner gate of order 1: once the period has passed, `previous_call` becomes now before
      the weekday test. */
  function PeriodGate(every: map<string, int>, weekDays: Option<seq<WeekDay>>, prev: Option<int>, now: int)
    : Firing
  {
    if prev.Some? && "delta" !in every then Firing(prev, false, Fail(MissingKey))
    else if prev.None? || now >= prev.value + every["delta"] then Firing(Some(now), DayAllowed(weekDays, now), Pass)
    else Firing(prev, false, Pass)
  }

  /** One pass of the loop of `run`, under the order fixed by the first builder call. */
  function LegacyStep(order: Option<Order>, every: map<string, int>, weekDays: Option<seq<WeekDay>>,
                      prev: Option<int>, now: int): (f: Firing)
    ensures f.previousCall == prev || f.previousCall == Some(now)
    ensures f.fires ==> f.previousCall == Some(now) && f.outcome == Pass
  {
    match order
    case None => Firing(prev, false, Pass)
    case Some(PeriodFirst) =>
      if prev.None? || ("month" in every && (Month(prev.value) + every["month"]) % 12 + 1 >= Month(now)) then
        PeriodGate(every, weekDays, prev, now)
      else if "month" !in every then PeriodGate(every, weekDays, prev, now)
      else Firing(prev, false, Pass)
    case Some(DaysFirst) =>
      if !DayAllowed(weekDays, now) then Firing(prev, false, Pass)
      else if prev.Some? && "delta" !in every then Firing(prev, false, Fail(MissingKey))
      else if prev.None? || now >= prev.value + every["delta"] then Firing(Some(now), true, Pass)
      else Firing(prev, false, Pass)
  }

  /** The keys `every` can store; the loop tests for `month`, which is never among them. */
  predicate KnownKeys(every: map<string, int>)
  {
    every.Keys <= {"months", "delta"}
  }

  /** Order 0: the callback runs exactly when the day is allowed and the period has passed, and
      only then does `previous_call` move. */
  lemma DaysFirstGate(every: map<string, int>, weekDays: Option<seq<WeekDay>>, prev: Option<int>, now: int)
    requires "delta" in every
    ensures var f := LegacyStep(Some(DaysFirst), every, weekDays, prev, now);
      f.outcome == Pass &&
      (f.fires <==> DayAllowed(weekDays, now) && (prev.None? || now >= prev.value + every["delta"])) &&
      f.previousCall == if f.fires then Some(now) else prev
  {
  }

  /** Order 1: once the period has passed `previous_call` moves, on an allowed day or not; the
      callback runs only on allowed days. */
  lemma PeriodFirstGate(every: map<string, int>, weekDays: Option<seq<WeekDay>>, prev: Option<int>, now: int)
    requires KnownKeys(every) && "delta" in every
    ensures var f := LegacyStep(Some(PeriodFirst), every, weekDays, prev, now);
      var elapsed := prev.None? || now >= prev.value + every["delta"];
      f.outcome == Pass &&
      (f.fires <==> elapsed && DayAllowed(weekDays, now)) &&
      f.previousCall == if elapsed then Some(now) else prev
  {
    assert "month" !in every;
  }

  /** The months given to `every` make no difference to the loop. */
  lemma MonthsIgnored(order: Option<Order>, every: map<string, int>, weekDays: Option<seq<WeekDay>>,
                      prev: Option<int>, now: int, months: int)
    requires KnownKeys(every)
    ensures LegacyStep(order, every["months" := months], weekDays, prev, now) ==
            LegacyStep(order, every - {"months"}, weekDays, prev, now)
  {
    assert "month" !in every["months" := months];
    assert "month" !in every - {"months"};
  }

  /** On a disallowed day past the period, order 1 uses the period up while order 0 leaves it. */
  lemma OrdersDifferOnDisallowedDays(every: map<string, int>, weekDays: Option<seq<WeekDay>>, prev: Option<int>,
                                     now: int)
    requires KnownKeys(every) && "delta" in every
    requires prev.Some? && now >= prev.value + every["delta"] && !DayAllowed(weekDays, now)
    ensures LegacyStep(Some(PeriodFirst), every, weekDays, prev, now) == Firing(Some(now), false, Pass)
    ensures LegacyStep(Some(DaysFirst), every, weekDays, prev, now) == Firing(prev, false, Pass)
  {
    assert "month" !in every;
  }

  /** With only `on()` called, the first allowed tick fires and the next allowed one raises a
      KeyError on the missing period. */
  lemma DaysWithoutPeriodRaises(weekDays: Option<seq<WeekDay>>, now: int, later: int)
    requires DayAllowed(weekDays, now) && DayAllowed(weekDays, later)
    ensures LegacyStep(Some(DaysFirst), map[], weekDays, None, now) == Firing(Some(now), true, Pass)
    ensures LegacyStep(Some(DaysFirst), map[], weekDays, Some(now), later) == Firing(Some(now), false, Fail(MissingKey))
  {
  }

  /** `timedelta(seconds=…, minutes=…, hours=…, days=…, weeks=…)` in whole seconds. */
  function Delta(seconds: int, minutes: int, hours: int, days: int, weeks: int): int
  {
    seconds + 60 * minutes + 3600 * hours + SecondsPerDay * days + 7 * SecondsPerDay * weeks
  }

  datatype DayArg = OneDay(value: int) | DayList(values: seq<int>)

  /** `[WeekDays(x) for x in dt]`, or the ValueError of the first bad value. */
  function DaysOf(values: seq<int>): (r: Result<seq<WeekDay>>)
    ensures r.Ok? <==> forall i :: 0 <= i < |values| ==> 0 <= values[i] < 7
    ensures r.Ok? ==> |r.value| == |values|
    ensures r.Ok? ==> forall i :: 0 <= i < |values| ==> WeekDayValue(r.value[i]) == values[i]
    ensures r.Err? ==> r.error == BadWeekDay
  {
    if values == [] then Ok([])
    else
      match WeekDayOf(values[0])
      case Err(e) => Err(e)
      case Ok(d) =>
        match DaysOf(values[1..])
        case Err(e) => Err(e)
        case Ok(rest) => Ok([d] + rest)
  }

  class LegacySchedule {
    var every: map<string, int>
    var order: Option<Order>
    var weekDays: Option<seq<WeekDay>>
    /** The local `previous_call` of `run`, kept between passes. */
    var previousCall: Option<int>

    ghost predicate Valid()
      reads this
    {
      KnownKeys(every) && (order == Some(PeriodFirst) ==> "delta" in every)
    }

    constructor ()
      ensures Valid()
      ensures every == map[] && order.None? && weekDays.None? && previousCall.None?
    {
      every, order, weekDays, previousCall := map[], None, None, None;
    }

    /** `every(...)`: stores the months if non-zero and the period, and claims the order if no
        builder was called before. */
    method Every(seconds: int, minutes: int, hours: int, days: int, weeks: int, months: int)
      returns (self: LegacySchedule)
      requires Valid()
      modifies this`every, this`order
      ensures Valid() && self == this
      ensures every == (if months != 0 then old(every)["months" := months] else old(every))
                       ["delta" := Delta(seconds, minutes, hours, days, weeks)]
      ensures order == if old(order).None? then Some(PeriodFirst) else old(order)
    {
      if months != 0 {
        every := every["months" := months];
      }
      every := every["delta" := Delta(seconds, minutes, hours, days, weeks)];
      if order.None? {
        order := Some(PeriodFirst);
      }
      self := this;
    }

    /** `on(dt)`: replaces the weekday set and claims the order if no builder was called before;
        a value outside 0..6 raises before anything is assigned. */
    method On(dt: DayArg) returns (outcome: Outcome)
      requires Valid()
      modifies this`weekDays, this`order
      ensures Valid()
      ensures var days := DaysOf(if dt.OneDay? then [dt.value] else dt.values);
        (days.Err? ==> outcome == Fail(BadWeekDay) && weekDays == old(weekDays) && order == old(order)) &&
        (days.Ok? ==> outcome == Pass && weekDays == Some(days.value) &&
                      order == if old(order).None? then Some(DaysFirst) else old(order))
    {
      var days := DaysOf(if dt.OneDay? then [dt.value] else dt.values);
      if days.Err? {
        return Fail(days.error);
      }
      weekDays := Some(days.value);
      if order.None? {
        order := Some(DaysFirst);
      }
      outcome := Pass;
    }

    /** One pass of the loop of `run`. A failing outcome is the exception that ends the thread. */
    method Tick(now: int) returns (fired: bool, outcome: Outcome)
      requires Valid()
      modifies this`previousCall
      ensures Firing(previousCall, fired, outcome) == LegacyStep(order, every, weekDays, old(previousCall), now)
    {
      fired, outcome := false, Pass;
      var allowed := weekDays.None? || WeekDayOf(DayOfWeek(now)).value in weekDays.value;
      if order == Some(PeriodFirst) {
        var monthOk := previousCall.None? ||
          ("month" in every && (Month(previousCall.value) + every["month"]) % 12 + 1 >= Month(now));
        if monthOk || "month" !in every {
          if previousCall.Some? && "delta" !in every {
            return false, Fail(MissingKey);
          }
          if previousCall.None? || now >= previousCall.value + every["delta"] {
            previousCall := Some(now);
            if allowed {
              fired := true;
              previousCall := Some(now);
            }
          }
        }
      }
      if order == Some(DaysFirst) {
        if allowed {
          if previousCall.Some? && "delta" !in every {
            return false, Fail(MissingKey);
          }
          if previousCall.None? || now >= previousCall.value + every["delta"] {
            fired := true;
            previousCall := Some(now);
          }
        }
      }
    }
  }
}
