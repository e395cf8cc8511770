/** Questions, answer records and their scoring, plus the in-memory tables that stand in for
    the database: a question catalogue and the answers table. */
module Records {
  import opened Common

  type PersonId = string
  type GroupId = string

  /** Lifecycle of an answer record. The stored integer codes are not in declaration order:
      PENDING is 3 and ANSWERED is 2. */
  datatype AnswerState = NotAnswered | Transferred | Answered | Pending

  function StateValue(s: AnswerState): nat
  {
    match s
    case NotAnswered => 0
    case Transferred => 1
    case Answered => 2
    case Pending => 3
  }

  function StateOfValue(v: int): (s: Option<AnswerState>)
    ensures s.Some? <==> 0 <= v < 4
  {
    if v == 0 then Some(NotAnswered)
    else if v == 1 then Some(Transferred)
    else if v == 2 then Some(Answered)
    else if v == 3 then Some(Pending)
    else None
  }

  /** The stored code identifies the state and every code 0..3 is used. */
  lemma StateValueRoundTrip(s: AnswerState, v: int)
    ensures StateOfValue(StateValue(s)) == Some(s)
    ensures 0 <= v < 4 ==> StateValue(StateOfValue(v).value) == v
  {
  }

  datatype QuestionType = Test | Open

  /** A catalogue question. `options` is the already decoded JSON list of answer options. */
  datatype Question = Question(
    id: int,
    text: string,
    options: seq<string>,
    answer: string,
    groups: seq<GroupId>,
    level: int,
    qtype: QuestionType)

  /** One row of the answers table. `askTime` and `answerTime` are seconds since the epoch. */
  datatype AnswerRecord = AnswerRecord(
    id: nat,
    questionId: int,
    personId: PersonId,
    personAnswer: Option<string>,
    answerTime: Option<int>,
    askTime: Option<int>,
    state: AnswerState,
    points: real)

  /** `AnswerRecord.calculate_points`: reassigns `points` (and, for an open question, `state`) of
      the record from the question's type and canonical answer and the stored person answer. */
  function CalculatePoints(r: AnswerRecord, q: Question): (s: AnswerRecord)
    ensures s == r.(points := s.points, state := s.state)
    ensures s.points == 0.0 || s.points == 1.0
    ensures q.qtype == Test ==> s.state == r.state
    ensures q.qtype == Test ==> (s.points == 1.0 <==> r.personAnswer == Some(q.answer))
    ensures q.qtype == Open ==> s.points == 0.0 && s.state == Pending
  {
    match q.qtype
    case Test => r.(points := if r.personAnswer == Some(q.answer) then 1.0 else 0.0)
    case Open => r.(points := 0.0, state := Pending)
  }

  /** Scoring reads nothing but the question and the person answer: scoring twice is scoring once,
      and two records with the same answer to the same question get the same points. */
  lemma CalculatePointsIdempotent(r: AnswerRecord, r': AnswerRecord, q: Question)
    ensures CalculatePoints(CalculatePoints(r, q), q) == CalculatePoints(r, q)
    ensures r.personAnswer == r'.personAnswer ==>
      CalculatePoints(r, q).points == CalculatePoints(r', q).points
  {
  }

  predicate DistinctIds(qs: seq<Question>)
  {
    forall i, j :: 0 <= i < j < |qs| ==> qs[i].id != qs[j].id
  }

  /** Lookup of a question by primary key. */
  function FindQuestion(qs: seq<Question>, id: int): (r: Option<Question>)
    ensures r.Some? ==> r.value in qs && r.value.id == id
    ensures r.None? ==> forall i :: 0 <= i < |qs| ==> qs[i].id != id
  {
    if qs == [] then None
    else if qs[0].id == id then Some(qs[0])
    else FindQuestion(qs[1..], id)
  }

  /** The two tables the core reads and writes. A record's `id` is its position in `records`;
      a new row gets the next id. Updating a record in the source means loading the row by id in
      a fresh database session, assigning fields and committing: here, rewriting `records[id]`. */
  class Ledger {
    var records: seq<AnswerRecord>
    const questions: seq<Question>

    ghost predicate Valid()
      reads this
    {
      (forall i :: 0 <= i < |records| ==> records[i].id == i) && DistinctIds(questions)
    }

    constructor (questions: seq<Question>, records: seq<AnswerRecord>)
      requires DistinctIds(questions)
      requires forall i :: 0 <= i < |records| ==> records[i].id == i
      ensures Valid() && this.questions == questions && this.records == records
    {
      this.questions := questions;
      this.records := records;
    }

    /** `db.get(AnswerRecord, id)`. */
    function Get(id: int): (r: Option<AnswerRecord>)
      reads this
      requires Valid()
      ensures r.Some? <==> 0 <= id < |records|
      ensures r.Some? ==> r.value == records[id] && r.value.id == id
    {
      if 0 <= id < |records| then Some(records[id]) else None
    }

    /** The `question` relationship of a record. */
    function QuestionOf(r: AnswerRecord): Option<Question>
      reads this
    {
      FindQuestion(questions, r.questionId)
    }

    /** `db.add(row); db.commit()`: the row is stored under the next free id. */
    method Add(row: AnswerRecord) returns (stored: AnswerRecord)
      requires Valid()
      modifies this
      ensures Valid()
      ensures stored == row.(id := |old(records)|)
      ensures records == old(records) + [stored]
    {
      stored := row.(id := |records|);
      records := records + [stored];
    }

    /** Commit of an updated row that is already stored. */
    method Commit(row: AnswerRecord)
      requires Valid() && row.id < |records|
      modifies this
      ensures Valid()
      ensures records == old(records)[row.id := row]
    {
      records := records[row.id := row];
    }
  }
}
