/** Question selection for one person (the uniform and the statistically weighted generator)
    and the per-person session that turns the selection into answer records. */
module Generators {
  import opened Common
  import opened Records

  /** A person and their group memberships, each with the person's target level in that group. */
  datatype Person = Person(id: PersonId, groups: seq<(GroupId, int)>)

  /** One unit of a bunch: an answer record that is already due, or a bare question. */
  datatype Item = Due(record: AnswerRecord) | Fresh(question: Question)

  // =============================================================================================
  // Planned records: the person's NOT_ANSWERED records whose ask time has passed, oldest first

  predicate IsPlanned(r: AnswerRecord, person: Person, now: int)
  {
    r.personId == person.id && r.askTime.Some? && r.askTime.value <= now && r.state == NotAnswered
  }

  function AskKey(r: AnswerRecord): int
  {
    if r.askTime.Some? then r.askTime.value else 0
  }

  predicate SortedByAskTime(s: seq<AnswerRecord>)
  {
    forall i, j :: 0 <= i < j < |s| ==> AskKey(s[i]) <= AskKey(s[j])
  }

  /** The rows of the answers table that the planned-records query selects, in table order. */
  function SelectPlanned(records: seq<AnswerRecord>, person: Person, now: int): (s: seq<AnswerRecord>)
    ensures forall r :: r in s <==> r in records && IsPlanned(r, person, now)
  {
    if records == [] then []
    else
      (if IsPlanned(records[0], person, now) then [records[0]] else []) +
      SelectPlanned(records[1..], person, now)
  }

  /** Insertion of one row into a list sorted by ask time, before the rows with an equal key. */
  function InsertByAskTime(r: AnswerRecord, s: seq<AnswerRecord>): (t: seq<AnswerRecord>)
    ensures |t| == |s| + 1
  {
    if s == [] then [r]
    else if AskKey(r) <= AskKey(s[0]) then [r] + s
    else [s[0]] + InsertByAskTime(r, s[1..])
  }

  /** Insertion keeps a sorted list sorted and adds exactly the one row. */
  lemma {:induction false} InsertSorted(r: AnswerRecord, s: seq<AnswerRecord>)
    requires SortedByAskTime(s)
    ensures SortedByAskTime(InsertByAskTime(r, s))
    ensures multiset(InsertByAskTime(r, s)) == multiset(s) + multiset{r}
    ensures InsertByAskTime(r, s)[0] == r || (s != [] && InsertByAskTime(r, s)[0] == s[0])
  {
    if s == [] {
    } else if AskKey(r) <= AskKey(s[0]) {
      SortedCons(r, s);
    } else {
      assert s == [s[0]] + s[1..];
      var rest := InsertByAskTime(r, s[1..]);
      InsertSorted(r, s[1..]);
      SortedCons(s[0], rest);
    }
  }

  lemma SortedCons(x: AnswerRecord, rest: seq<AnswerRecord>)
    requires SortedByAskTime(rest)
    requires rest != [] ==> AskKey(x) <= AskKey(rest[0])
    ensures SortedByAskTime([x] + rest)
  {
    var t := [x] + rest;
    forall i, j | 0 <= i < j < |t|
      ensures AskKey(t[i]) <= AskKey(t[j])
    {
      if i == 0 && j > 1 {
        assert AskKey(rest[0]) <= AskKey(rest[j - 1]);
      }
    }
  }

  /** ORDER BY ask_time. The database does not fix the order of equal ask times; the model keeps
      table order among them. */
  function SortByAskTime(s: seq<AnswerRecord>): (t: seq<AnswerRecord>)
    ensures |t| == |s|
  {
    if s == [] then [] else InsertByAskTime(s[0], SortByAskTime(s[1..]))
  }

  /** The ordering is sorted by ask time and is a permutation of its input. */
  lemma {:induction false} SortByAskTimeSorts(s: seq<AnswerRecord>)
    ensures SortedByAskTime(SortByAskTime(s))
    ensures multiset(SortByAskTime(s)) == multiset(s)
  {
    if s != [] {
      assert s == [s[0]] + s[1..];
      SortByAskTimeSorts(s[1..]);
      InsertSorted(s[0], SortByAskTime(s[1..]));
    }
  }

  /** `GeneratorInterface._get_planned`: the selected rows, each inserted by ask time. */
  function Planned(records: seq<AnswerRecord>, person: Person, now: int): (p: seq<AnswerRecord>)
    ensures |p| <= |records|
  {
    if records == [] then []
    else if IsPlanned(records[0], person, now) then InsertByAskTime(records[0], Planned(records[1..], person, now))
    else Planned(records[1..], person, now)
  }

  /** The planned list is the selection ordered by ask time. */
  lemma {:induction false} PlannedIsSortedSelection(records: seq<AnswerRecord>, person: Person, now: int)
    ensures Planned(records, person, now) == SortByAskTime(SelectPlanned(records, person, now))
  {
    if records != [] {
      PlannedIsSortedSelection(records[1..], person, now);
      var rest := SelectPlanned(records[1..], person, now);
      if IsPlanned(records[0], person, now) {
        var sel := [records[0]] + rest;
        assert SelectPlanned(records, person, now) == sel;
        assert sel[0] == records[0] && sel[1..] == rest;
        assert SortByAskTime(sel) == InsertByAskTime(records[0], SortByAskTime(rest));
      } else {
        assert SelectPlanned(records, person, now) == [] + rest == rest;
      }
    }
  }

  /** The planned list holds exactly the person's due NOT_ANSWERED records, each as often as in
      the table, sorted by ask time. */
  lemma PlannedExactly(records: seq<AnswerRecord>, person: Person, now: int)
    ensures SortedByAskTime(Planned(records, person, now))
    ensures multiset(Planned(records, person, now)) == multiset(SelectPlanned(records, person, now))
    ensures forall r :: r in Planned(records, person, now) <==> r in records && IsPlanned(r, person, now)
  {
    var p := Planned(records, person, now);
    var s := SelectPlanned(records, person, now);
    PlannedIsSortedSelection(records, person, now);
    SortByAskTimeSorts(s);
    forall r
      ensures r in p <==> r in records && IsPlanned(r, person, now)
    {
      calc {
        r in p;
        r in multiset(p);
        r in multiset(s);
        r in s;
      }
    }
  }

  // =============================================================================================
  // The pool: group-matched questions that are not already planned

  function PersonGroups(person: Person): set<GroupId>
  {
    set m | m in person.groups :: m.0
  }

  predicate SharesGroup(q: Question, person: Person)
  {
    exists g :: g in q.groups && g in PersonGroups(person)
  }

  function PlannedQuestionIds(planned: seq<AnswerRecord>): set<int>
  {
    set r | r in planned :: r.questionId
  }

  predicate InPool(q: Question, person: Person, planned: seq<AnswerRecord>)
  {
    SharesGroup(q, person) && q.id !in PlannedQuestionIds(planned)
  }

  /** `GeneratorInterface._get_person_questions`, in catalogue order. */
  function Pool(questions: seq<Question>, person: Person, planned: seq<AnswerRecord>): (pool: seq<Question>)
    ensures forall q :: q in pool <==> q in questions && InPool(q, person, planned)
  {
    if questions == [] then []
    else
      (if InPool(questions[0], person, planned) then [questions[0]] else []) +
      Pool(questions[1..], person, planned)
  }

  /** GROUP BY question id: the pool never holds two questions with the same id. */
  lemma {:induction false} PoolDistinct(questions: seq<Question>, person: Person, planned: seq<AnswerRecord>)
    requires DistinctIds(questions)
    ensures DistinctIds(Pool(questions, person, planned))
  {
    if questions != [] {
      var rest := questions[1..];
      assert DistinctIds(rest) by {
        forall i, j | 0 <= i < j < |rest| ensures rest[i].id != rest[j].id {
          assert rest[i] == questions[i + 1] && rest[j] == questions[j + 1];
        }
      }
      PoolDistinct(rest, person, planned);
      var tail := Pool(rest, person, planned);
      forall k | 0 <= k < |tail| ensures tail[k].id != questions[0].id {
        assert tail[k] in rest;
        var m :| 0 <= m < |rest| && rest[m] == tail[k];
        assert questions[m + 1] == tail[k];
      }
    }
  }

  // =============================================================================================
  // Drawing without replacement

  /** `idx` are `k` distinct positions of a pool of size `n`: any outcome of a draw without
      replacement. */
  predicate IsDraw(n: nat, k: nat, idx: seq<nat>)
  {
    |idx| == k &&
    (forall i :: 0 <= i < k ==> idx[i] < n) &&
    (forall i, j :: 0 <= i < j < k ==> idx[i] != idx[j])
  }

  lemma DrawExists(n: nat, k: nat)
    requires k <= n
    ensures IsDraw(n, k, seq(k, i => i))
  {
  }

  function AsDue(planned: seq<AnswerRecord>): (r: seq<Item>)
    ensures |r| == |planned|
    ensures forall i :: 0 <= i < |r| ==> r[i] == Due(planned[i])
  {
    seq(|planned|, i requires 0 <= i < |planned| => Due(planned[i]))
  }

  function Picked(pool: seq<Question>, idx: seq<nat>): (r: seq<Item>)
    requires forall i :: 0 <= i < |idx| ==> idx[i] < |pool|
    ensures |r| == |idx|
    ensures forall i :: 0 <= i < |r| ==> r[i] == Fresh(pool[idx[i]])
  {
    seq(|idx|, i requires 0 <= i < |idx| => Fresh(pool[idx[i]]))
  }

  /** What both generators return for planned records `planned`, pool `pool` and size `count`:
      the first `count` planned records when there are enough of them; otherwise all planned
      records followed by min(count - |planned|, |pool|) distinct pool questions. */
  predicate BunchOf(planned: seq<AnswerRecord>, pool: seq<Question>, count: nat, r: seq<Item>)
  {
    if |planned| >= count then r == AsDue(planned[..count])
    else
      |r| == |planned| + Min(count - |planned|, |pool|) &&
      r[..|planned|] == AsDue(planned) &&
      (forall i :: |planned| <= i < |r| ==> r[i].Fresh? && r[i].question in pool) &&
      (forall i, j :: |planned| <= i < j < |r| ==> r[i].question.id != r[j].question.id)
  }

  /** A bunch of one: the earliest planned record, else one question of the pool, else nothing. */
  predicate BunchOfOne(planned: seq<AnswerRecord>, pool: seq<Question>, r: seq<Item>)
  {
    if planned != [] then r == [Due(planned[0])]
    else if pool == [] then r == []
    else |r| == 1 && r[0].Fresh? && r[0].question in pool
  }

  lemma BunchOfOneExactly(planned: seq<AnswerRecord>, pool: seq<Question>, r: seq<Item>)
    ensures BunchOf(planned, pool, 1, r) <==> BunchOfOne(planned, pool, r)
  {
    if planned != [] {
      assert AsDue(planned[..1]) == [Due(planned[0])];
    } else if BunchOfOne(planned, pool, r) {
      assert r[..0] == AsDue(planned);
    }
  }

  /** What a generator draws from for one person: the planned records and the pool. */
  datatype Plan = Plan(planned: seq<AnswerRecord>, pool: seq<Question>)

  function PlanFor(records: seq<AnswerRecord>, questions: seq<Question>, person: Person, now: int): Plan
  {
    var planned := Planned(records, person, now);
    Plan(planned, Pool(questions, person, planned))
  }

  /** The queue `generate_questions` leaves in a session of `person`: a bunch of one drawn from
      the person's planned records and pool in the answers table `records`. */
  ghost predicate Generated(records: seq<AnswerRecord>, questions: seq<Question>, person: Person, now: int,
                            queue: seq<Item>)
  {
    var plan := PlanFor(records, questions, person, now);
    BunchOfOne(plan.planned, plan.pool, queue)
  }

  /** The plans of several people, in order. */
  function PlansOf(records: seq<AnswerRecord>, questions: seq<Question>, people: seq<Person>, now: int)
    : (plans: seq<Plan>)
    ensures |plans| == |people|
    decreases |people|
  {
    if people == [] then []
    else
      var n := |people| - 1;
      PlansOf(records, questions, people[..n], now) + [PlanFor(records, questions, people[n], now)]
  }

  lemma {:induction false} PlansOfAt(records: seq<AnswerRecord>, questions: seq<Question>, people: seq<Person>,
                                     now: int, j: nat)
    requires j < |people|
    ensures PlansOf(records, questions, people, now)[j] == PlanFor(records, questions, people[j], now)
    decreases |people|
  {
    var n := |people| - 1;
    if j < n {
      PlansOfAt(records, questions, people[..n], now, j);
      assert people[..n][j] == people[j];
    }
  }

  /** Queue j is a bunch of one drawn from plan j, for every j. */
  predicate AllBunches(plans: seq<Plan>, queues: seq<seq<Item>>)
    requires |plans| == |queues|
    decreases |plans|
  {
    if plans == [] then true
    else
      var n := |plans| - 1;
      AllBunches(plans[..n], queues[..n]) && BunchOfOne(plans[n].planned, plans[n].pool, queues[n])
  }

  lemma {:induction false} AllBunchesAt(plans: seq<Plan>, queues: seq<seq<Item>>, j: nat)
    requires |plans| == |queues| && j < |plans|
    requires AllBunches(plans, queues)
    ensures BunchOfOne(plans[j].planned, plans[j].pool, queues[j])
    decreases |plans|
  {
    var n := |plans| - 1;
    if j < n {
      AllBunchesAt(plans[..n], queues[..n], j);
      assert plans[..n][j] == plans[j] && queues[..n][j] == queues[j];
    }
  }

  /** Queue j was generated for `people[j]`, for every j. */
  ghost predicate AllGenerated(records: seq<AnswerRecord>, questions: seq<Question>, people: seq<Person>,
                               now: int, queues: seq<seq<Item>>)
    requires |people| == |queues|
  {
    AllBunches(PlansOf(records, questions, people, now), queues)
  }

  lemma AllGeneratedAt(records: seq<AnswerRecord>, questions: seq<Question>, people: seq<Person>, now: int,
                       queues: seq<seq<Item>>, j: nat)
    requires |people| == |queues| && j < |people|
    requires AllGenerated(records, questions, people, now, queues)
    ensures Generated(records, questions, people[j], now, queues[j])
  {
    AllBunchesAt(PlansOf(records, questions, people, now), queues, j);
    PlansOfAt(records, questions, people, now, j);
  }

  lemma DrawnBunch(planned: seq<AnswerRecord>, pool: seq<Question>, count: nat, idx: seq<nat>)
    requires |planned| < count && DistinctIds(pool)
    requires IsDraw(|pool|, Min(count - |planned|, |pool|), idx)
    ensures BunchOf(planned, pool, count, AsDue(planned) + Picked(pool, idx))
  {
    var r := AsDue(planned) + Picked(pool, idx);
    assert r[..|planned|] == AsDue(planned);
    forall i, j | |planned| <= i < j < |r| ensures r[i].question.id != r[j].question.id {
      assert r[i] == Fresh(pool[idx[i - |planned|]]) && r[j] == Fresh(pool[idx[j - |planned|]]);
    }
  }

  /** What a bunch promises its caller: never more than `count` items, the planned records first,
      and every fresh question group-matched, not already planned and not repeated. */
  lemma BunchProperties(questions: seq<Question>, person: Person, planned: seq<AnswerRecord>,
                        count: nat, r: seq<Item>)
    requires BunchOf(planned, Pool(questions, person, planned), count, r)
    ensures |r| <= count
    ensures |r| == Min(count, |planned| + |Pool(questions, person, planned)|)
    ensures r[..Min(count, |planned|)] == AsDue(planned[..Min(count, |planned|)])
    ensures forall i :: Min(count, |planned|) <= i < |r| ==>
      r[i].Fresh? && r[i].question in questions && SharesGroup(r[i].question, person) &&
      r[i].question.id !in PlannedQuestionIds(planned)
    ensures forall i, j :: Min(count, |planned|) <= i < j < |r| ==> r[i].question.id != r[j].question.id
  {
    if |planned| < count {
      assert planned[..Min(count, |planned|)] == planned;
    }
  }

  // =============================================================================================
  // Uniform generator

  /** `SimpleRandomGenerator.next_bunch`: the draw is any choice of distinct pool positions. */
  method SimpleNextBunch(records: seq<AnswerRecord>, questions: seq<Question>, person: Person,
                         now: int, count: nat) returns (r: seq<Item>)
    requires DistinctIds(questions)
    ensures BunchOf(Planned(records, person, now),
                    Pool(questions, person, Planned(records, person, now)), count, r)
  {
    var planned := Planned(records, person, now);
    if |planned| >= count {
      return AsDue(planned[..count]);
    }
    var pool := Pool(questions, person, planned);
    PoolDistinct(questions, person, planned);
    var size := Min(count - |planned|, |pool|);
    DrawExists(|pool|, size);
    var idx :| IsDraw(|pool|, size, idx);
    DrawnBunch(planned, pool, count, idx);
    r := AsDue(planned) + Picked(pool, idx);
  }

  // =============================================================================================
  // Weights of the statistical generator

  /** SUM(points) over the person's records for the question: NULL when there is no such row. */
  function PointsSum(records: seq<AnswerRecord>, personId: PersonId, questionId: int): (s: Option<real>)
    ensures s.None? <==> forall r :: r in records ==> !(r.personId == personId && r.questionId == questionId)
  {
    if records == [] then None
    else
      var rest := PointsSum(records[1..], personId, questionId);
      if records[0].personId == personId && records[0].questionId == questionId then
        Some(records[0].points + (if rest.Some? then rest.value else 0.0))
      else rest
  }

  /** With no negative points in the table, a question counts as seen exactly when some answer
      row of the person for it scored points. */
  lemma {:induction false} SeenIffScored(records: seq<AnswerRecord>, personId: PersonId, questionId: int)
    requires forall r :: r in records ==> r.points >= 0.0
    ensures Seen(PointsSum(records, personId, questionId)) <==>
      exists r :: r in records && r.personId == personId && r.questionId == questionId && r.points > 0.0
    ensures PointsSum(records, personId, questionId).Some? ==> PointsSum(records, personId, questionId).value >= 0.0
  {
    if records != [] {
      SeenIffScored(records[1..], personId, questionId);
      assert records == [records[0]] + records[1..];
    }
  }

  /** `if points_sum:` -- a NULL sum and a zero sum both make the question unseen. */
  predicate Seen(sum: Option<real>)
  {
    sum.Some? && sum.value != 0.0
  }

  /** The probability array after the first loop: the formula's weight for a seen question, NaN
      (here None) for an unseen one. */
  function RawWeights(pool: seq<Question>, records: seq<AnswerRecord>, personId: PersonId,
                      weigh: Question -> real): (w: seq<Option<real>>)
    ensures |w| == |pool|
    ensures forall i :: 0 <= i < |w| ==>
      w[i] == if Seen(PointsSum(records, personId, pool[i].id)) then Some(weigh(pool[i])) else None
  {
    seq(|pool|, i requires 0 <= i < |pool| =>
      if Seen(PointsSum(records, personId, pool[i].id)) then Some(weigh(pool[i])) else None)
  }

  function Sum(s: seq<real>): real
  {
    if s == [] then 0.0 else s[0] + Sum(s[1..])
  }

  function Max(s: seq<real>): (m: real)
    requires |s| > 0
    ensures forall i :: 0 <= i < |s| ==> s[i] <= m
  {
    if |s| == 1 then s[0]
    else
      var rest := Max(s[1..]);
      assert forall i :: 1 <= i < |s| ==> s[i] == s[1..][i - 1];
      if s[0] >= rest then s[0] else rest
  }

  /** `max` returns one of the weights: with the upper bound, `Max` is the maximum. */
  lemma {:induction false} MaxAttained(s: seq<real>)
    requires |s| > 0
    ensures Max(s) in s
  {
    if |s| > 1 {
      MaxAttained(s[1..]);
    }
  }

  /** `with_val`: the weights that are not NaN, in order. */
  function SeenValues(w: seq<Option<real>>): (s: seq<real>)
    ensures |s| <= |w|
  {
    if w == [] then []
    else (if w[0].Some? then [w[0].value] else []) + SeenValues(w[1..])
  }

  /** `with_val` holds exactly the weights that are not NaN, and the NaN slots are the rest. */
  lemma {:induction false} SeenValuesExactly(w: seq<Option<real>>)
    ensures |SeenValues(w)| == |w| - multiset(w)[None]
    ensures forall x :: x in SeenValues(w) <==> Some(x) in w
  {
    if w != [] {
      assert w == [w[0]] + w[1..];
      SeenValuesExactly(w[1..]);
    }
  }

  lemma {:induction false} SeenValuesPositive(w: seq<Option<real>>)
    requires forall i :: 0 <= i < |w| && w[i].Some? ==> w[i].value > 0.0
    ensures forall i :: 0 <= i < |SeenValues(w)| ==> SeenValues(w)[i] > 0.0
  {
    if w != [] {
      SeenValuesPositive(w[1..]);
    }
  }

  /** `increased_avg`: (sum(with_val) + |unseen| * max(with_val)) / |pool|, or 1 when no
      question is seen. */
  function UnseenWeight(w: seq<Option<real>>): real
  {
    var s := SeenValues(w);
    if |s| > 0 then IncreasedAverage(Sum(s), |w| as real - |s| as real, Max(s), |w| as real) else 1.0
  }

  function IncreasedAverage(total: real, unseen: real, top: real, size: real): real
    requires size > 0.0
  {
    (total + unseen * top) / size
  }

  /** `probabilities[np.isnan(probabilities)] = increased_avg`. */
  function Filled(w: seq<Option<real>>): (f: seq<real>)
    ensures |f| == |w|
    ensures forall i :: 0 <= i < |w| ==> f[i] == if w[i].Some? then w[i].value else UnseenWeight(w)
  {
    seq(|w|, i requires 0 <= i < |w| => if w[i].Some? then w[i].value else UnseenWeight(w))
  }

  function Scaled(f: seq<real>, t: real): (g: seq<real>)
    requires t != 0.0
    ensures |g| == |f|
    ensures forall i :: 0 <= i < |f| ==> g[i] == f[i] / t
  {
    if f == [] then [] else [f[0] / t] + Scaled(f[1..], t)
  }

  /** `probabilities /= sum(probabilities)`. */
  function Normalised(f: seq<real>): seq<real>
    requires Sum(f) != 0.0
  {
    Scaled(f, Sum(f))
  }

  lemma MulMonotone(a: real, b: real, c: real)
    requires a >= 0.0 && b <= c
    ensures a * b <= a * c
  {
    assert a * c - a * b == a * (c - b);
  }

  lemma {:induction false} SumAtMostMax(s: seq<real>)
    requires |s| > 0
    ensures Sum(s) <= |s| as real * Max(s)
  {
    if |s| == 1 {
      assert s[1..] == [];
      assert Sum(s[1..]) == 0.0;
    } else {
      SumAtMostMax(s[1..]);
      MaxOfTail(s);
      SumStep(Sum(s), s[0], Sum(s[1..]), (|s| - 1) as real, Max(s[1..]), Max(s));
    }
  }

  lemma {:induction false} MaxIsElement(s: seq<real>)
    requires |s| > 0
    ensures exists j :: 0 <= j < |s| && s[j] == Max(s)
  {
    if |s| == 1 {
      assert s[0] == Max(s);
    } else {
      MaxIsElement(s[1..]);
      var j :| 0 <= j < |s[1..]| && s[1..][j] == Max(s[1..]);
      if s[0] >= Max(s[1..]) {
        assert s[0] == Max(s);
      } else {
        assert s[j + 1] == Max(s);
      }
    }
  }

  lemma MaxOfTail(s: seq<real>)
    requires |s| > 1
    ensures Max(s[1..]) <= Max(s) && s[0] <= Max(s)
  {
    MaxIsElement(s[1..]);
    var j :| 0 <= j < |s[1..]| && s[1..][j] == Max(s[1..]);
    assert s[j + 1] == Max(s[1..]);
  }

  lemma SumStep(t: real, x: real, y: real, k: real, m1: real, m: real)
    requires t == x + y && y <= k * m1 && k >= 0.0 && m1 <= m && x <= m
    ensures t <= (k + 1.0) * m
  {
    MulMonotone(k, m1, m);
    assert (k + 1.0) * m == k * m + m;
  }

  lemma {:induction false} SumPositive(s: seq<real>)
    requires |s| > 0
    requires forall i :: 0 <= i < |s| ==> s[i] > 0.0
    ensures Sum(s) > 0.0
  {
    if |s| > 1 {
      SumPositive(s[1..]);
    }
  }

  lemma {:induction false} SumScaled(f: seq<real>, t: real)
    requires t != 0.0
    ensures Sum(Scaled(f, t)) == Sum(f) / t
  {
    if f != [] {
      SumScaled(f[1..], t);
      assert Scaled(f, t)[1..] == Scaled(f[1..], t);
    }
  }

  /** The weight given to every unseen question lies between the mean and the maximum of the seen
      weights: unseen material is favoured at least as much as an average seen question. */
  lemma UnseenWeightBetweenMeanAndMax(w: seq<Option<real>>)
    requires |SeenValues(w)| > 0
    ensures var s := SeenValues(w);
      Sum(s) / |s| as real <= UnseenWeight(w) <= Max(s)
  {
    var s := SeenValues(w);
    SeenMeanMaxBounds(s, |w|);
  }

  /** The bounds for any non-empty list of seen weights drawn from a pool of `n` questions. */
  lemma SeenMeanMaxBounds(s: seq<real>, n: nat)
    requires 0 < |s| <= n
    ensures Sum(s) / |s| as real <= IncreasedAverage(Sum(s), n as real - |s| as real, Max(s), n as real) <= Max(s)
  {
    SumAtMostMax(s);
    MeanMaxBounds(Sum(s), Max(s), |s| as real, n as real);
  }

  /** (t + (n - k) m) / n lies between t / k and m when t <= k m and 0 < k <= n. */
  lemma MeanMaxBounds(t: real, m: real, k: real, n: real)
    requires 0.0 < k <= n && t <= k * m
    ensures t / k <= IncreasedAverage(t, n - k, m, n) <= m
  {
    var u := n - k;
    var a := t + u * m;
    MulMonotone(u, t / k, m) by {
      DivAtMost(t, k, m);
    }
    assert u * (t / k) <= u * m;
    assert a <= n * m by {
      assert n * m == k * m + u * m;
    }
    DivAtMost(a, n, m);
    assert t / k <= a / n by {
      assert a == k * (t / k) + u * (t / k) + (u * m - u * (t / k));
      assert a >= n * (t / k);
      AtLeastDiv(a, n, t / k);
    }
  }

  lemma DivAtMost(a: real, n: real, m: real)
    requires n > 0.0 && a <= n * m
    ensures a / n <= m
  {
    assert a / n * n == a;
  }

  lemma AtLeastDiv(a: real, n: real, x: real)
    requires n > 0.0 && a >= n * x
    ensures a / n >= x
  {
    assert a / n * n == a;
  }

  /** With positive seen weights every filled weight is positive, so the normalised weights are a
      probability distribution over the whole pool. */
  lemma NormalisedIsDistribution(w: seq<Option<real>>)
    requires |w| > 0
    requires forall i :: 0 <= i < |w| && w[i].Some? ==> w[i].value > 0.0
    ensures UnseenWeight(w) > 0.0
    ensures Sum(Filled(w)) > 0.0
    ensures Sum(Normalised(Filled(w))) == 1.0
    ensures forall i :: 0 <= i < |w| ==> 0.0 < Normalised(Filled(w))[i] <= 1.0
  {
    var s := SeenValues(w);
    if |s| > 0 {
      SeenValuesPositive(w);
      SumPositive(s);
      UnseenWeightBetweenMeanAndMax(w);
    }
    var f := Filled(w);
    var total := Sum(f);
    SumPositive(f);
    SumScaled(f, total);
    DivSelf(total);
    forall i | 0 <= i < |w| ensures 0.0 < Normalised(f)[i] <= 1.0 {
      SumAtLeastEach(f, i);
      FractionBounds(f[i], total);
    }
  }

  lemma DivSelf(x: real)
    requires x != 0.0
    ensures x / x == 1.0
  {
  }

  lemma FractionBounds(a: real, t: real)
    requires 0.0 < a <= t
    ensures 0.0 < a / t <= 1.0
  {
    AtLeastDiv(a, t, 0.0);
    DivAtMost(a, t, 1.0);
    assert a / t != 0.0 by {
      assert a / t * t == a;
    }
  }

  lemma {:induction false} SumAtLeastEach(f: seq<real>, i: nat)
    requires i < |f|
    requires forall j :: 0 <= j < |f| ==> f[j] > 0.0
    ensures f[i] <= Sum(f)
  {
    if i == 0 {
      if |f| > 1 { SumPositive(f[1..]); }
    } else {
      SumAtLeastEach(f[1..], i - 1);
    }
  }

  function Values(p: seq<Option<real>>): (v: seq<real>)
    requires forall i :: 0 <= i < |p| ==> p[i].Some?
    ensures |v| == |p| && forall i :: 0 <= i < |p| ==> v[i] == p[i].value
  {
    seq(|p|, i requires 0 <= i < |p| => p[i].value)
  }

  /** `probabilities[np.isnan(probabilities)] = value`. */
  method FillNaN(p: array<Option<real>>, value: real)
    modifies p
    ensures forall j :: 0 <= j < p.Length ==> p[j] == if old(p[j]).Some? then old(p[j]) else Some(value)
  {
    for i := 0 to p.Length
      invariant forall j :: 0 <= j < i ==> p[j] == if old(p[j]).Some? then old(p[j]) else Some(value)
      invariant forall j :: i <= j < p.Length ==> p[j] == old(p[j])
    {
      if p[i].None? {
        p[i] := Some(value);
      }
    }
  }

  /** `probabilities /= total`. */
  method DivideAll(p: array<Option<real>>, total: real)
    requires total != 0.0
    requires forall j :: 0 <= j < p.Length ==> p[j].Some?
    modifies p
    ensures forall j :: 0 <= j < p.Length ==> p[j] == Some(old(p[j]).value / total)
  {
    for i := 0 to p.Length
      invariant forall j :: 0 <= j < i ==> p[j] == Some(old(p[j]).value / total)
      invariant forall j :: i <= j < p.Length ==> p[j] == old(p[j])
    {
      p[i] := Some(p[i].value / total);
    }
  }

  /** The probability computation of `StatRandomGenerator.next_bunch`, done in place on an array as
      the source does (None stands for NaN). */
  method Probabilities(pool: seq<Question>, records: seq<AnswerRecord>, person: Person,
                       weigh: Question -> real) returns (probs: seq<real>)
    requires |pool| > 0
    requires forall q :: weigh(q) > 0.0
    ensures Sum(Filled(RawWeights(pool, records, person.id, weigh))) > 0.0
    ensures probs == Normalised(Filled(RawWeights(pool, records, person.id, weigh)))
    ensures |probs| == |pool|
    ensures Sum(probs) == 1.0
    ensures forall i :: 0 <= i < |probs| ==> 0.0 < probs[i] <= 1.0
  {
    ghost var raw := RawWeights(pool, records, person.id, weigh);
    var n := |pool|;
    var p := new Option<real>[n](_ => Some(1.0));
    for i := 0 to n
      invariant p[..i] == raw[..i]
    {
      var pointsSum := PointsSum(records, person.id, pool[i].id);
      if Seen(pointsSum) {
        p[i] := Some(weigh(pool[i]));
      } else {
        p[i] := None;
      }
    }
    assert p[..] == raw;

    var withVal := SeenValues(p[..]);
    var withoutValCount := n - |withVal|;
    var increasedAvg;
    if |withVal| > 0 {
      increasedAvg := IncreasedAverage(Sum(withVal), withoutValCount as real, Max(withVal), n as real);
    } else {
      increasedAvg := 1.0;
    }
    assert increasedAvg == UnseenWeight(raw);
    FillNaN(p, increasedAvg);
    ghost var f := Filled(raw);
    assert Values(p[..]) == f;

    NormalisedIsDistribution(raw);
    var total := Sum(Values(p[..]));
    DivideAll(p, total);
    probs := Values(p[..]);
    assert probs == Normalised(f);
  }

  // =============================================================================================
  // Statistical generator

  /** `StatRandomGenerator.next_bunch`: the same shape of result as the uniform generator; the
      draw is any choice of distinct pool positions that all have positive probability. */
  method StatNextBunch(records: seq<AnswerRecord>, questions: seq<Question>, person: Person,
                       now: int, count: nat, weigh: Question -> real) returns (r: seq<Item>)
    requires DistinctIds(questions)
    requires forall q :: weigh(q) > 0.0
    ensures BunchOf(Planned(records, person, now),
                    Pool(questions, person, Planned(records, person, now)), count, r)
    ensures |Planned(records, person, now)| < count &&
            Pool(questions, person, Planned(records, person, now)) == [] ==>
            r == AsDue(Planned(records, person, now))
  {
    var planned := Planned(records, person, now);
    if |planned| >= count {
      return AsDue(planned[..count]);
    }
    var pool := Pool(questions, person, planned);
    if pool == [] {
      // planned[:count] is all of planned, since there are fewer than count of them
      return AsDue(planned);
    }
    var probabilities := Probabilities(pool, records, person, weigh);
    PoolDistinct(questions, person, planned);
    var size := Min(count - |planned|, |pool|);
    DrawExists(|pool|, size);
    ghost var firsts := seq(size, i => i);
    assert forall i :: 0 <= i < size ==> probabilities[firsts[i]] > 0.0;
    var idx :| IsDraw(|pool|, size, idx) &&
               forall i :: 0 <= i < size ==> probabilities[idx[i]] > 0.0;
    DrawnBunch(planned, pool, count, idx);
    r := AsDue(planned) + Picked(pool, idx);
  }

  // =============================================================================================
  // Record state changes

  /** The record `next_question` creates for a bare question; its id is assigned on insert. */
  function NewRecord(q: Question, person: Person, now: int): (r: AnswerRecord)
    ensures r.questionId == q.id && r.personId == person.id
    ensures r.askTime == Some(now) && r.state == NotAnswered
    ensures r.personAnswer.None? && r.answerTime.None? && r.points == 0.0
  {
    AnswerRecord(0, q.id, person.id, None, None, Some(now), NotAnswered, 0.0)
  }

  /** The row after `mark_question_as_transferred`. */
  function MarkedTransferred(r: AnswerRecord, now: int): (m: AnswerRecord)
    ensures m.state == Transferred && m.askTime.Some?
    ensures r.askTime.Some? ==> m.askTime == r.askTime
    ensures m == r.(state := Transferred, askTime := m.askTime)
  {
    r.(state := Transferred, askTime := if r.askTime.None? then Some(now) else r.askTime)
  }

  /** Marking has no guard: any prior state becomes TRANSFERRED (an ANSWERED or PENDING record
      too), an existing ask time is kept, a missing one becomes now, and marking twice is marking
      once. */
  lemma MarkedTransferredProperties(r: AnswerRecord, now: int, later: int)
    ensures MarkedTransferred(r, now).state == Transferred
    ensures MarkedTransferred(r, now).askTime == if r.askTime.Some? then r.askTime else Some(now)
    ensures MarkedTransferred(r, now) == r.(state := Transferred, askTime := MarkedTransferred(r, now).askTime)
    ensures MarkedTransferred(MarkedTransferred(r, now), later) == MarkedTransferred(r, now)
  {
  }

  /** The row after `register_answer` with a non-None answer: the answer, its time and ANSWERED
      are assigned and then the points are calculated (which turns an open question PENDING). */
  function RecordAnswer(r: AnswerRecord, q: Question, answer: string, now: int): (a: AnswerRecord)
    ensures a == r.(personAnswer := Some(answer), answerTime := Some(now), state := a.state, points := a.points)
    ensures a.state == (if q.qtype == Test then Answered else Pending)
    ensures a.points == (if q.qtype == Test && answer == q.answer then 1.0 else 0.0)
  {
    CalculatePoints(r.(personAnswer := Some(answer), answerTime := Some(now), state := Answered), q)
  }

  /** There is no conflict check: a second answer overwrites the first, and the result depends on
      the last answer only, whatever state the record was in. */
  lemma RecordAnswerOverwrites(r: AnswerRecord, q: Question, first: string, second: string, t1: int, t2: int)
    ensures RecordAnswer(RecordAnswer(r, q, first, t1), q, second, t2) == RecordAnswer(r, q, second, t2)
    ensures RecordAnswer(r, q, second, t2).state == if q.qtype == Test then Answered else Pending
    ensures RecordAnswer(r, q, second, t2).points == if q.qtype == Test && second == q.answer then 1.0 else 0.0
    ensures RecordAnswer(r, q, second, t2).personAnswer == Some(second)
  {
  }

  datatype Registered = Registered(row: Option<AnswerRecord>) | Raised(error: Error)

  /** The row `next_question` adds to the answers table for a queue: the record created for a
      bare question at its head, and nothing for a due record or an empty queue. */
  function CreatedBy(queue: seq<Item>, p: Option<AnswerRecord>): seq<AnswerRecord>
  {
    if queue != [] && queue[0].Fresh? && p.Some? then [p.value] else []
  }

  /** The per-person session: a FIFO of due records and bare questions. */
  class Session {
    const person: Person
    var questions: seq<Item>

    constructor (person: Person)
      ensures this.person == person && questions == []
    {
      this.person := person;
      questions := [];
    }

    /** `generate_questions`: a bunch of one from the statistical generator becomes the queue. */
    method GenerateQuestions(db: Ledger, now: int, weigh: Question -> real)
      requires db.Valid()
      requires forall q :: weigh(q) > 0.0
      modifies this
      ensures Generated(db.records, db.questions, person, now, questions)
    {
      questions := StatNextBunch(db.records, db.questions, person, now, 1, weigh);
      var planned := Planned(db.records, person, now);
      BunchOfOneExactly(planned, Pool(db.questions, person, planned), questions);
    }

    /** `next_question`: None on an empty queue; otherwise pops the head, storing a new
        NOT_ANSWERED record when the head is a bare question. */
    method NextQuestion(db: Ledger, now: int) returns (r: Option<AnswerRecord>)
      requires db.Valid()
      modifies this, db
      ensures db.Valid()
      ensures old(questions) == [] ==> r.None? && questions == [] && db.records == old(db.records)
      ensures old(questions) != [] ==> questions == old(questions)[1..] && r.Some?
      ensures old(questions) != [] && old(questions)[0].Due? ==>
        r.value == old(questions)[0].record && db.records == old(db.records)
      ensures old(questions) != [] && old(questions)[0].Fresh? ==>
        r.value == NewRecord(old(questions)[0].question, person, now).(id := |old(db.records)|) &&
        db.records == old(db.records) + [r.value]
      ensures db.records == old(db.records) + CreatedBy(old(questions), r)
    {
      if questions == [] {
        return None;
      }
      var head := questions[0];
      questions := questions[1..];
      match head
      case Fresh(q) =>
        var created := db.Add(NewRecord(q, person, now));
        r := Some(created);
      case Due(rec) =>
        r := Some(rec);
    }

    /** `mark_question_as_transferred`: reloads the row by id and marks it. */
    static method MarkQuestionAsTransferred(db: Ledger, record: AnswerRecord, now: int) returns (outcome: Outcome)
      requires db.Valid()
      modifies db
      ensures db.Valid()
      ensures record.id < |old(db.records)| ==>
        outcome == Pass &&
        db.records == old(db.records)[record.id := MarkedTransferred(old(db.records)[record.id], now)]
      ensures record.id >= |old(db.records)| ==> outcome == Fail(NotFound) && db.records == old(db.records)
    {
      var row := db.Get(record.id);
      if row.None? {
        return Fail(NotFound);
      }
      db.Commit(MarkedTransferred(row.value, now));
      outcome := Pass;
    }

    /** `register_answer`: reloads the row by id; a None answer returns it unchanged, otherwise the
        answer is recorded and scored and the row committed. An uncommitted failure changes
        nothing. */
    static method RegisterAnswer(db: Ledger, record: AnswerRecord, answer: Option<string>, now: int)
      returns (result: Registered)
      requires db.Valid()
      modifies db
      ensures db.Valid()
      ensures answer.None? ==>
        db.records == old(db.records) && result == Registered(db.Get(record.id))
      ensures answer.Some? && record.id >= |old(db.records)| ==>
        result == Raised(NotFound) && db.records == old(db.records)
      ensures answer.Some? && record.id < |old(db.records)| && db.QuestionOf(old(db.records)[record.id]).None? ==>
        result == Raised(MissingQuestion) && db.records == old(db.records)
      ensures answer.Some? && record.id < |old(db.records)| && db.QuestionOf(old(db.records)[record.id]).Some? ==>
        var updated := RecordAnswer(old(db.records)[record.id],
                                    db.QuestionOf(old(db.records)[record.id]).value, answer.value, now);
        result == Registered(Some(updated)) && db.records == old(db.records)[record.id := updated]
    {
      var row := db.Get(record.id);
      if answer.None? {
        return Registered(row);
      }
      if row.None? {
        return Raised(NotFound);
      }
      var q := db.QuestionOf(row.value);
      if q.None? {
        return Raised(MissingQuestion);
      }
      var updated := RecordAnswer(row.value, q.value, answer.value, now);
      db.Commit(updated);
      result := Registered(Some(updated));
    }
  }
}
