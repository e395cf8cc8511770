/** The Telegram connector: turns the head of each session's queue into an outgoing message,
    keeps the table that correlates a delivered message with the session and record it asked
    about, and routes the answers that come back through that table. The HTTP exchange with the
    Telegram service is replaced by values: the messages a call posts are returned, and the
    message ids the service acknowledges a batch with are a parameter. */
module Connector {
  import opened Common
  import opened Records
  import opened Generators

  datatype MessageType = Simple | WithButtons | Motivation

  /** The `state` field of the session info sent along with an answer. */
  datatype SessionState = SessionPending | SessionOpen | SessionClose

  /** One element of the `messages` list posted to the service. */
  datatype OutgoingMessage = OutgoingMessage(userId: PersonId, mtype: MessageType, text: string,
                                             buttons: Option<seq<string>>)

  /** An answer as the service reports it: a pressed button of a message, a free message, or a
      reply to a message. */
  datatype UserAnswer =
    | ButtonAnswer(messageId: int, buttonId: int)
    | MessageAnswer
    | ReplyAnswer(replyTo: int, text: string)

  /** A correlation entry: the session that asked and the record it asked about. */
  type Entry = (Session, AnswerRecord)

  const DontKnow: string := "Не знаю"
  const Correct: string := "Ответ верный!"
  const Incorrect: string := "Ответ неверный ;("
  const Noted: string := "Понятия не имею правильный ли ответ, но не переживай, я все записал!"
  const Farewell: string := "Всем спасибо, всем пока :)"

  // =============================================================================================
  // Building a batch

  /** The message that asks a record's question: a test question offers "don't know" followed by
      its options as buttons, an open question is plain text. */
  function MessageFor(r: AnswerRecord, q: Question): (m: OutgoingMessage)
    ensures m.userId == r.personId && m.text == q.text
    ensures q.qtype == Open ==> m.mtype == Simple && m.buttons.None?
    ensures q.qtype == Test ==>
      m.mtype == WithButtons && m.buttons.Some? && |m.buttons.value| == |q.options| + 1 &&
      m.buttons.value[0] == DontKnow &&
      forall k :: 0 <= k < |q.options| ==> m.buttons.value[k + 1] == q.options[k]
  {
    match q.qtype
    case Test => OutgoingMessage(r.personId, WithButtons, q.text, Some([DontKnow] + q.options))
    case Open => OutgoingMessage(r.personId, Simple, q.text, None)
  }

  /** The correlation list of a batch: for each session in order, the record its `next_question`
      returned, kept only when the record's question exists in the catalogue. */
  function Related(sessions: seq<Session>, popped: seq<Option<AnswerRecord>>, questions: seq<Question>)
    : (rel: seq<Entry>)
    requires |sessions| == |popped|
    ensures |rel| <= |sessions|
    ensures forall k :: 0 <= k < |rel| ==> FindQuestion(questions, rel[k].1.questionId).Some?
    decreases |sessions|
  {
    if sessions == [] then []
    else
      var n := |sessions| - 1;
      var known := popped[n].Some? && FindQuestion(questions, popped[n].value.questionId).Some?;
      Related(sessions[..n], popped[..n], questions) + (if known then [(sessions[n], popped[n].value)] else [])
  }

  /** When every session returned a record whose question is known, the batch has one entry per
      session, in session order. */
  lemma {:induction false} RelatedAllKnown(sessions: seq<Session>, popped: seq<Option<AnswerRecord>>,
                                           questions: seq<Question>)
    requires |sessions| == |popped|
    requires forall i :: 0 <= i < |popped| ==>
      popped[i].Some? && FindQuestion(questions, popped[i].value.questionId).Some?
    ensures |Related(sessions, popped, questions)| == |sessions|
    ensures forall i :: 0 <= i < |sessions| ==>
      Related(sessions, popped, questions)[i] == (sessions[i], popped[i].value)
    decreases |sessions|
  {
    if sessions != [] {
      var n := |sessions| - 1;
      var prefix := Related(sessions[..n], popped[..n], questions);
      RelatedAllKnown(sessions[..n], popped[..n], questions);
      assert Related(sessions, popped, questions) == prefix + [(sessions[n], popped[n].value)];
    }
  }

  /** Every entry of a batch pairs one of the sessions with the record that session returned. */
  lemma {:induction false} RelatedFrom(sessions: seq<Session>, popped: seq<Option<AnswerRecord>>,
                                       questions: seq<Question>)
    requires |sessions| == |popped|
    ensures forall k :: 0 <= k < |Related(sessions, popped, questions)| ==>
      exists i :: 0 <= i < |sessions| &&
        popped[i].Some? && Related(sessions, popped, questions)[k] == (sessions[i], popped[i].value)
    decreases |sessions|
  {
    if sessions != [] {
      var n := |sessions| - 1;
      RelatedFrom(sessions[..n], popped[..n], questions);
      var prefix := Related(sessions[..n], popped[..n], questions);
      var rel := Related(sessions, popped, questions);
      var known := popped[n].Some? && FindQuestion(questions, popped[n].value.questionId).Some?;
      assert rel == prefix + (if known then [(sessions[n], popped[n].value)] else []);
      forall k | 0 <= k < |rel|
        ensures exists i :: 0 <= i < |sessions| && popped[i].Some? && rel[k] == (sessions[i], popped[i].value)
      {
        if k < |prefix| {
          var i :| 0 <= i < n && popped[..n][i].Some? && prefix[k] == (sessions[..n][i], popped[..n][i].value);
          assert popped[i].Some? && rel[k] == (sessions[i], popped[i].value);
        } else {
          assert popped[n].Some? && rel[k] == (sessions[n], popped[n].value);
        }
      }
    } else {
      assert Related(sessions, popped, questions) == [];
    }
  }

  /** Session i returned a record and the record's question is in the catalogue. */
  predicate KnownAt(popped: seq<Option<AnswerRecord>>, questions: seq<Question>, i: nat)
    requires i < |popped|
  {
    popped[i].Some? && FindQuestion(questions, popped[i].value.questionId).Some?
  }

  /** The positions of the sessions whose returned record has a known question: strictly
      increasing, and exactly those positions. */
  function KnownIndices(popped: seq<Option<AnswerRecord>>, questions: seq<Question>): (ix: seq<nat>)
    ensures forall k :: 0 <= k < |ix| ==> ix[k] < |popped| && KnownAt(popped, questions, ix[k])
    ensures forall k, l :: 0 <= k < l < |ix| ==> ix[k] < ix[l]
    ensures forall i :: 0 <= i < |popped| && KnownAt(popped, questions, i) ==> i in ix
    decreases |popped|
  {
    if popped == [] then []
    else
      var n := |popped| - 1;
      KnownIndices(popped[..n], questions) + (if KnownAt(popped, questions, n) then [n] else [])
  }

  /** Entry k of a batch comes from the k-th session whose returned record has a known question:
      the batch holds those sessions in order, each once, and no other. */
  lemma {:induction false} RelatedIndexed(sessions: seq<Session>, popped: seq<Option<AnswerRecord>>,
                                          questions: seq<Question>)
    requires |sessions| == |popped|
    ensures var rel := Related(sessions, popped, questions);
      var ix := KnownIndices(popped, questions);
      |rel| == |ix| && forall k :: 0 <= k < |rel| ==> rel[k] == (sessions[ix[k]], popped[ix[k]].value)
    decreases |sessions|
  {
    if sessions != [] {
      var n := |sessions| - 1;
      RelatedIndexed(sessions[..n], popped[..n], questions);
      var prefix := Related(sessions[..n], popped[..n], questions);
      var pix := KnownIndices(popped[..n], questions);
      var rel := Related(sessions, popped, questions);
      var ix := KnownIndices(popped, questions);
      var known := KnownAt(popped, questions, n);
      assert rel == prefix + (if known then [(sessions[n], popped[n].value)] else []);
      assert ix == pix + (if known then [n] else []);
      forall k | 0 <= k < |rel|
        ensures rel[k] == (sessions[ix[k]], popped[ix[k]].value)
      {
        if k < |prefix| {
          assert prefix[k] == (sessions[..n][pix[k]], popped[..n][pix[k]].value);
        }
      }
    }
  }

  /** A batch in which no session returned a record with a known question is empty. */
  lemma {:induction false} RelatedNoneKnown(sessions: seq<Session>, popped: seq<Option<AnswerRecord>>,
                                            questions: seq<Question>)
    requires |sessions| == |popped|
    requires forall i :: 0 <= i < |popped| ==>
      popped[i].None? || FindQuestion(questions, popped[i].value.questionId).None?
    ensures Related(sessions, popped, questions) == []
    decreases |sessions|
  {
    if sessions != [] {
      var n := |sessions| - 1;
      RelatedNoneKnown(sessions[..n], popped[..n], questions);
    }
  }

  /** The `messages` of the request: message i asks about the record of correlation entry i. */
  function Messages(rel: seq<Entry>, questions: seq<Question>): (m: seq<OutgoingMessage>)
    requires forall k :: 0 <= k < |rel| ==> FindQuestion(questions, rel[k].1.questionId).Some?
    ensures |m| == |rel|
    ensures forall k :: 0 <= k < |rel| ==>
      m[k] == MessageFor(rel[k].1, FindQuestion(questions, rel[k].1.questionId).value)
  {
    seq(|rel|, k requires 0 <= k < |rel| =>
      MessageFor(rel[k].1, FindQuestion(questions, rel[k].1.questionId).value))
  }

  /** The queue after one `next_question`. */
  function Rest(queue: seq<Item>): seq<Item>
  {
    if queue == [] then [] else queue[1..]
  }

  /** What `next_question` returned for a queue: nothing for an empty queue, the due record, or
      the record created for a bare question, stored in `records` under an id of at least `base`. */
  predicate PoppedFrom(queue: seq<Item>, p: Option<AnswerRecord>, person: Person, now: int,
                       base: nat, records: seq<AnswerRecord>)
  {
    if queue == [] then p.None?
    else
      p.Some? &&
      match queue[0]
      case Due(r) => p.value == r
      case Fresh(q) =>
        p.value == NewRecord(q, person, now).(id := p.value.id) &&
        base <= p.value.id < |records| && records[p.value.id] == p.value
  }

  /** The rows added by popping the first |popped| of `queues` in order, `popped[j]` being what
      the j-th pop returned. */
  function Created(queues: seq<seq<Item>>, popped: seq<Option<AnswerRecord>>): (c: seq<AnswerRecord>)
    requires |popped| <= |queues|
    ensures |c| <= |popped|
    decreases |popped|
  {
    if popped == [] then []
    else
      var n := |popped| - 1;
      Created(queues, popped[..n]) + CreatedBy(queues[n], popped[n])
  }

  /** Popping one more queue appends the row that pop created. */
  lemma CreatedStep(queues: seq<seq<Item>>, popped: seq<Option<AnswerRecord>>, p: Option<AnswerRecord>)
    requires |popped| < |queues|
    ensures Created(queues, popped + [p]) == Created(queues, popped) + CreatedBy(queues[|popped|], p)
  {
    assert (popped + [p])[..|popped|] == popped;
  }

  // =============================================================================================
  // Acknowledgements

  /** The state the acknowledgement loop of `transfer` threads: the correlation table, the
      answers table and whether an exception ended the loop. */
  datatype Acked = Acked(alive: map<int, Entry>, records: seq<AnswerRecord>, outcome: Outcome)

  /** The first `n` iterations of the loop over the acknowledged message ids: a null id is
      skipped; a non-null id i is entered into the table for correlation entry i, whose record is
      then marked transferred. A non-null id past the correlation list, or a record missing from
      the table, raises and ends the loop with what was done so far kept. */
  function AckPrefix(start: Acked, acks: seq<Option<int>>, relation: seq<Entry>, now: int, n: nat)
    : (a: Acked)
    requires n <= |acks|
    ensures |a.records| == |start.records|
    ensures start.outcome.Fail? ==> a == start
    decreases n
  {
    if n == 0 then start
    else
      var prev := AckPrefix(start, acks, relation, now, n - 1);
      var i := n - 1;
      if prev.outcome.Fail? then prev
      else if acks[i].None? then prev
      else if i >= |relation| then prev.(outcome := Fail(IndexOutOfRange))
      else
        var rec := relation[i].1;
        var alive := prev.alive[acks[i].value := relation[i]];
        if rec.id < |prev.records| then
          Acked(alive, prev.records[rec.id := MarkedTransferred(prev.records[rec.id], now)], Pass)
        else
          Acked(alive, prev.records, Fail(NotFound))
  }

  /** The whole acknowledgement loop, started without an error. */
  function Acknowledge(alive: map<int, Entry>, records: seq<AnswerRecord>, acks: seq<Option<int>>,
                       relation: seq<Entry>, now: int): (a: Acked)
    ensures |a.records| == |records|
  {
    AckPrefix(Acked(alive, records, Pass), acks, relation, now, |acks|)
  }

  /** Once an iteration raised, the later ones do not run. */
  lemma {:induction false} AckFailSticks(start: Acked, acks: seq<Option<int>>, relation: seq<Entry>,
                                         now: int, n: nat, m: nat)
    requires n <= m <= |acks|
    requires AckPrefix(start, acks, relation, now, n).outcome.Fail?
    ensures AckPrefix(start, acks, relation, now, m) == AckPrefix(start, acks, relation, now, n)
    decreases m
  {
    if m > n {
      AckFailSticks(start, acks, relation, now, n, m - 1);
    }
  }

  /** The ids entered by the first `n` acknowledgements. */
  function AckedIds(acks: seq<Option<int>>, n: nat): set<int>
    requires n <= |acks|
  {
    set i | 0 <= i < n && acks[i].Some? :: acks[i].value
  }

  predicate RecordsStored(relation: seq<Entry>, records: seq<AnswerRecord>)
  {
    forall i :: 0 <= i < |relation| ==> relation[i].1.id < |records|
  }

  /** With every correlated record stored and no more acknowledgements than entries, the loop
      raises nothing and the table gains exactly the acknowledged ids. */
  lemma {:induction false} AckStoredKeys(alive: map<int, Entry>, records: seq<AnswerRecord>,
                                         acks: seq<Option<int>>, relation: seq<Entry>, now: int, n: nat)
    requires n <= |acks| && n <= |relation|
    requires RecordsStored(relation, records)
    ensures var a := AckPrefix(Acked(alive, records, Pass), acks, relation, now, n);
      a.outcome == Pass && a.alive.Keys == alive.Keys + AckedIds(acks, n)
    decreases n
  {
    if n > 0 {
      AckStoredKeys(alive, records, acks, relation, now, n - 1);
      var i := n - 1;
      assert AckedIds(acks, n) == AckedIds(acks, n - 1) + (if acks[i].Some? then {acks[i].value} else {});
    }
  }

  /** ... each acknowledged id is bound to the entry of its last acknowledgement, and every other
      key keeps its entry. */
  lemma {:induction false} AckStoredEntries(alive: map<int, Entry>, records: seq<AnswerRecord>,
                                            acks: seq<Option<int>>, relation: seq<Entry>, now: int, n: nat)
    requires n <= |acks| && n <= |relation|
    requires RecordsStored(relation, records)
    ensures var a := AckPrefix(Acked(alive, records, Pass), acks, relation, now, n);
      (forall k :: k in alive && k !in AckedIds(acks, n) ==> k in a.alive && a.alive[k] == alive[k]) &&
      (forall i :: 0 <= i < n && acks[i].Some? && (forall j :: i < j < n ==> acks[j] != acks[i]) ==>
         acks[i].value in a.alive && a.alive[acks[i].value] == relation[i])
    decreases n
  {
    if n > 0 {
      AckStoredEntries(alive, records, acks, relation, now, n - 1);
      AckStoredKeys(alive, records, acks, relation, now, n - 1);
      var i := n - 1;
      var prev := AckPrefix(Acked(alive, records, Pass), acks, relation, now, i);
      var a := AckPrefix(Acked(alive, records, Pass), acks, relation, now, n);
      assert a.alive == if acks[i].Some? then prev.alive[acks[i].value := relation[i]] else prev.alive;
      assert AckedIds(acks, n) == AckedIds(acks, i) + (if acks[i].Some? then {acks[i].value} else {});
      forall k | k in alive && k !in AckedIds(acks, n)
        ensures k in a.alive && a.alive[k] == alive[k]
      {
        assert k in prev.alive && prev.alive[k] == alive[k];
      }
      forall j | 0 <= j < n && acks[j].Some? && (forall l :: j < l < n ==> acks[l] != acks[j])
        ensures acks[j].value in a.alive && a.alive[acks[j].value] == relation[j]
      {
        if j < i {
          assert acks[i] != acks[j];
          assert acks[j].value in prev.alive && prev.alive[acks[j].value] == relation[j];
        }
      }
    }
  }

  /** ... each acknowledged record is marked transferred once (marking again changes nothing),
      and every other row is unchanged. */
  lemma {:induction false} AckStoredRows(alive: map<int, Entry>, records: seq<AnswerRecord>,
                                         acks: seq<Option<int>>, relation: seq<Entry>, now: int, n: nat)
    requires n <= |acks| && n <= |relation|
    requires RecordsStored(relation, records)
    ensures var a := AckPrefix(Acked(alive, records, Pass), acks, relation, now, n);
      (forall i :: 0 <= i < n && acks[i].Some? ==>
         a.records[relation[i].1.id] == MarkedTransferred(records[relation[i].1.id], now)) &&
      (forall r :: 0 <= r < |records| && (forall i :: 0 <= i < n && acks[i].Some? ==> relation[i].1.id != r) ==>
         a.records[r] == records[r])
    decreases n
  {
    if n > 0 {
      AckStoredRows(alive, records, acks, relation, now, n - 1);
      AckStoredKeys(alive, records, acks, relation, now, n - 1);
      var i := n - 1;
      var prev := AckPrefix(Acked(alive, records, Pass), acks, relation, now, i);
      var a := AckPrefix(Acked(alive, records, Pass), acks, relation, now, n);
      assert |prev.records| == |records|;
      assert a.records == if acks[i].Some? then prev.records[relation[i].1.id := MarkedTransferred(prev.records[relation[i].1.id], now)]
                          else prev.records;
      forall j | 0 <= j < n && acks[j].Some?
        ensures a.records[relation[j].1.id] == MarkedTransferred(records[relation[j].1.id], now)
      {
        var id := relation[j].1.id;
        if acks[i].Some? && relation[i].1.id == id {
          if l :| 0 <= l < i && acks[l].Some? && relation[l].1.id == id {
            assert prev.records[id] == MarkedTransferred(records[id], now);
            MarkedTransferredProperties(records[id], now, now);
          } else {
            assert prev.records[id] == records[id];
          }
        } else {
          assert prev.records[id] == MarkedTransferred(records[id], now);
        }
      }
    }
  }

  /** The loop over a full acknowledgement list; see `AckStoredKeys`, `AckStoredEntries` and `AckStoredRows`. */
  lemma AcknowledgeStored(alive: map<int, Entry>, records: seq<AnswerRecord>, acks: seq<Option<int>>,
                          relation: seq<Entry>, now: int)
    requires |acks| <= |relation|
    requires RecordsStored(relation, records)
    ensures var a := Acknowledge(alive, records, acks, relation, now);
      a.outcome == Pass &&
      a.alive.Keys == alive.Keys + AckedIds(acks, |acks|) &&
      (forall k :: k in alive && k !in AckedIds(acks, |acks|) ==> a.alive[k] == alive[k]) &&
      (forall i :: 0 <= i < |acks| && acks[i].Some? && (forall j :: i < j < |acks| ==> acks[j] != acks[i]) ==>
         a.alive[acks[i].value] == relation[i]) &&
      (forall i :: 0 <= i < |acks| && acks[i].Some? ==>
         a.records[relation[i].1.id] == MarkedTransferred(records[relation[i].1.id], now)) &&
      (forall r :: 0 <= r < |records| && (forall i :: 0 <= i < |acks| && acks[i].Some? ==> relation[i].1.id != r) ==>
         a.records[r] == records[r])
  {
    AckStoredKeys(alive, records, acks, relation, now, |acks|);
    AckStoredEntries(alive, records, acks, relation, now, |acks|);
    AckStoredRows(alive, records, acks, relation, now, |acks|);
  }

  /** Null acknowledgements change nothing. */
  lemma {:induction false} AckNullRun(start: Acked, acks: seq<Option<int>>, relation: seq<Entry>,
                                      now: int, n: nat, m: nat)
    requires n <= m <= |acks|
    requires forall j :: n <= j < m ==> acks[j].None?
    ensures AckPrefix(start, acks, relation, now, m) == AckPrefix(start, acks, relation, now, n)
    decreases m
  {
    if m > n {
      AckNullRun(start, acks, relation, now, n, m - 1);
    }
  }

  /** More acknowledgements than messages, the first id past the end non-null at index `k`: the
      loop does everything the first `|relation|` of them do and then raises at `k`. */
  lemma AcknowledgeTooMany(alive: map<int, Entry>, records: seq<AnswerRecord>, acks: seq<Option<int>>,
                           relation: seq<Entry>, now: int, k: nat)
    requires |relation| <= k < |acks| && acks[k].Some?
    requires forall j :: |relation| <= j < k ==> acks[j].None?
    requires RecordsStored(relation, records)
    ensures var a := Acknowledge(alive, records, acks, relation, now);
      var b := AckPrefix(Acked(alive, records, Pass), acks, relation, now, |relation|);
      a == b.(outcome := Fail(IndexOutOfRange))
  {
    var start := Acked(alive, records, Pass);
    AckStoredKeys(alive, records, acks, relation, now, |relation|);
    AckNullRun(start, acks, relation, now, |relation|, k);
    AckFailSticks(start, acks, relation, now, k + 1, |acks|);
  }

  /** More acknowledgements than messages, but every id past the end null: those iterations
      skip, and the loop ends without an error as after the first `|relation|`. */
  lemma AcknowledgeNullTail(alive: map<int, Entry>, records: seq<AnswerRecord>, acks: seq<Option<int>>,
                            relation: seq<Entry>, now: int)
    requires |relation| <= |acks|
    requires forall j :: |relation| <= j < |acks| ==> acks[j].None?
    requires RecordsStored(relation, records)
    ensures var a := Acknowledge(alive, records, acks, relation, now);
      a == AckPrefix(Acked(alive, records, Pass), acks, relation, now, |relation|) && a.outcome == Pass
  {
    AckStoredKeys(alive, records, acks, relation, now, |relation|);
    AckNullRun(Acked(alive, records, Pass), acks, relation, now, |relation|, |acks|);
  }

  /** One message sent and delivered, followed by a null id: the delivered message is correlated
      and marked, and the null one raises nothing. */
  lemma DeliveredThenNull(alive: map<int, Entry>, records: seq<AnswerRecord>, relation: seq<Entry>,
                          now: int, t: int)
    requires |relation| == 1 && RecordsStored(relation, records)
    ensures var a := Acknowledge(alive, records, [Some(t), None], relation, now);
      a.outcome == Pass && a.alive == alive[t := relation[0]] &&
      a.records[relation[0].1.id].state == Transferred
  {
    var acks := [Some(t), None];
    AcknowledgeNullTail(alive, records, acks, relation, now);
    AckStoredKeys(alive, records, acks, relation, now, 1);
    AckStoredRows(alive, records, acks, relation, now, 1);
  }

  /** A batch of three messages of which the middle one was not delivered (its id is null): only
      the first and the third are correlated and marked, the middle record stays as it was. */
  lemma UndeliveredMessageSkipped(alive: map<int, Entry>, records: seq<AnswerRecord>,
                                  relation: seq<Entry>, now: int, t1: int, t3: int)
    requires |relation| == 3 && RecordsStored(relation, records)
    requires relation[1].1.id != relation[0].1.id && relation[1].1.id != relation[2].1.id
    requires t1 != t3
    ensures var a := Acknowledge(alive, records, [Some(t1), None, Some(t3)], relation, now);
      a.outcome == Pass &&
      a.alive == alive[t1 := relation[0]][t3 := relation[2]] &&
      a.records[relation[0].1.id].state == Transferred &&
      a.records[relation[2].1.id].state == Transferred &&
      a.records[relation[1].1.id] == records[relation[1].1.id]
  {
    var acks := [Some(t1), None, Some(t3)];
    AckStoredKeys(alive, records, acks, relation, now, 3);
    AckStoredRows(alive, records, acks, relation, now, 3);
  }

  // =============================================================================================
  // Answers

  /** The table key an answer is correlated by: the button's message or the replied-to message. */
  function Key(answer: UserAnswer): Option<int>
  {
    match answer
    case ButtonAnswer(m, _) => Some(m)
    case ReplyAnswer(m, _) => Some(m)
    case MessageAnswer => None
  }

  /** The text recorded as the person's answer: `str` of the button id, or the reply text. */
  function AnswerText(answer: UserAnswer): string
    requires !answer.MessageAnswer?
  {
    match answer
    case ButtonAnswer(_, b) => IntToString(b)
    case ReplyAnswer(_, t) => t
  }

  /** What `Session.register_answer` does with a non-None answer, on the table as it was. */
  function Registration(records: seq<AnswerRecord>, questions: seq<Question>, record: AnswerRecord,
                        text: string, now: int): (g: Registered)
    ensures g.Raised? ==> g.error == NotFound || g.error == MissingQuestion
    ensures g.Raised? <==>
      record.id >= |records| || FindQuestion(questions, records[record.id].questionId).None?
    ensures g.Registered? ==>
      record.id < |records| && g.row.Some? && g.row.value.id == records[record.id].id && g.row.value.personAnswer == Some(text) &&
      g.row.value.answerTime == Some(now)
  {
    if record.id >= |records| then Raised(NotFound)
    else
      match FindQuestion(questions, records[record.id].questionId)
      case None => Raised(MissingQuestion)
      case Some(q) => Registered(Some(RecordAnswer(records[record.id], q, text, now)))
  }

  /** The message that answers a registered answer: a verdict after a button, an acknowledgement
      after a reply. */
  function Feedback(answer: UserAnswer, row: AnswerRecord): OutgoingMessage
    requires !answer.MessageAnswer?
  {
    var text := if answer.ReplyAnswer? then Noted else if row.points != 0.0 then Correct else Incorrect;
    OutgoingMessage(row.personId, Simple, text, None)
  }

  /** A pressed button on a test question is judged correct exactly when the button id, as text,
      is the canonical answer; an answer to an open question is always reported incorrect, since
      its points are zero until it is reviewed. */
  lemma ButtonVerdict(r: AnswerRecord, q: Question, messageId: int, buttonId: int, now: int)
    ensures var answer := ButtonAnswer(messageId, buttonId);
      var fb := Feedback(answer, RecordAnswer(r, q, AnswerText(answer), now));
      fb.userId == r.personId && fb.mtype == Simple &&
      (q.qtype == Test ==> (fb.text == Correct <==> IntToString(buttonId) == q.answer)) &&
      (q.qtype == Open ==> fb.text == Incorrect)
  {
    assert Correct != Incorrect;
  }

  // =============================================================================================
  // The connector

  lemma RelatedStep(sessions: seq<Session>, popped: seq<Option<AnswerRecord>>, questions: seq<Question>,
                     i: nat, current: Option<AnswerRecord>)
    requires i < |sessions| && |popped| == i
    ensures var known := current.Some? && FindQuestion(questions, current.value.questionId).Some?;
      Related(sessions[..i + 1], popped + [current], questions) ==
      Related(sessions[..i], popped, questions) + (if known then [(sessions[i], current.value)] else [])
  {
    assert sessions[..i + 1][..i] == sessions[..i];
    assert (popped + [current])[..i] == popped;
  }

  lemma MessagesStep(rel: seq<Entry>, e: Entry, questions: seq<Question>)
    requires forall k :: 0 <= k < |rel| ==> FindQuestion(questions, rel[k].1.questionId).Some?
    requires FindQuestion(questions, e.1.questionId).Some?
    ensures Messages(rel + [e], questions) ==
            Messages(rel, questions) + [MessageFor(e.1, FindQuestion(questions, e.1.questionId).value)]
  {
  }

  lemma PoppedFromGrows(queue: seq<Item>, p: Option<AnswerRecord>, person: Person, now: int, base: nat,
                        records: seq<AnswerRecord>, more: seq<AnswerRecord>)
    requires records <= more
    requires PoppedFrom(queue, p, person, now, base, records)
    ensures PoppedFrom(queue, p, person, now, base, more)
  {
    if queue != [] && queue[0].Fresh? {
      assert more[p.value.id] == records[p.value.id];
    }
  }

  /** One iteration of the loop of `transfer` that builds the batch: `next_question` on session
      `i`, and its message and correlation entry when the record's question is known. */
  method CollectStep(sessions: seq<Session>, i: nat, db: Ledger, now: int,
                     ghost queues: seq<seq<Item>>, ghost start: seq<AnswerRecord>,
                     request: seq<OutgoingMessage>, relation: seq<Entry>, ghost popped: seq<Option<AnswerRecord>>)
    returns (request': seq<OutgoingMessage>, relation': seq<Entry>, ghost popped': seq<Option<AnswerRecord>>)
    requires i < |sessions| && |queues| == |sessions| && |popped| == i
    requires db.Valid() && db.records == start + Created(queues, popped)
    requires sessions[i].questions == queues[i]
    requires forall j :: 0 <= j < |sessions| && j != i ==> sessions[j] != sessions[i]
    requires forall j :: 0 <= j < i ==>
      PoppedFrom(queues[j], popped[j], sessions[j].person, now, |start|, db.records)
    requires relation == Related(sessions[..i], popped, db.questions)
    requires request == Messages(relation, db.questions)
    modifies db, sessions[i]
    ensures db.Valid() && old(db.records) <= db.records
    ensures sessions[i].questions == Rest(queues[i])
    ensures forall j :: 0 <= j < |sessions| && j != i ==> sessions[j].questions == old(sessions[j].questions)
    ensures |popped'| == i + 1
    ensures db.records == start + Created(queues, popped')
    ensures forall j :: 0 <= j <= i ==>
      PoppedFrom(queues[j], popped'[j], sessions[j].person, now, |start|, db.records)
    ensures relation' == Related(sessions[..i + 1], popped', db.questions)
    ensures request' == Messages(relation', db.questions)
  {
    ghost var before := db.records;
    var current := sessions[i].NextQuestion(db, now);
    CreatedStep(queues, popped, current);
    assert db.records == start + (Created(queues, popped) + CreatedBy(queues[i], current));
    forall j | 0 <= j < i
      ensures PoppedFrom(queues[j], popped[j], sessions[j].person, now, |start|, db.records)
    {
      PoppedFromGrows(queues[j], popped[j], sessions[j].person, now, |start|, before, db.records);
    }
    var question := if current.Some? then FindQuestion(db.questions, current.value.questionId) else None;
    RelatedStep(sessions, popped, db.questions, i, current);
    request', relation' := request, relation;
    if question.Some? {
      MessagesStep(relation, (sessions[i], current.value), db.questions);
      request' := request + [MessageFor(current.value, question.value)];
      relation' := relation + [(sessions[i], current.value)];
    }
    popped' := popped + [current];
  }

  /** The first half of `transfer`: `next_question` on each session in order, and the message
      and correlation entry for each returned record whose question is known. */
  method CollectBatch(sessions: seq<Session>, db: Ledger, now: int)
    returns (request: seq<OutgoingMessage>, relation: seq<Entry>, ghost queues: seq<seq<Item>>,
             ghost popped: seq<Option<AnswerRecord>>)
    requires db.Valid()
    requires forall i, j :: 0 <= i < j < |sessions| ==> sessions[i] != sessions[j]
    modifies db, sessions
    ensures db.Valid()
    ensures |queues| == |sessions| && forall i :: 0 <= i < |sessions| ==> queues[i] == old(sessions[i].questions)
    ensures |popped| == |sessions|
    ensures db.records == old(db.records) + Created(queues, popped)
    ensures forall i :: 0 <= i < |sessions| ==> sessions[i].questions == Rest(old(sessions[i].questions))
    ensures forall i :: 0 <= i < |sessions| ==>
      PoppedFrom(old(sessions[i].questions), popped[i], sessions[i].person, now, |old(db.records)|, db.records)
    ensures relation == Related(sessions, popped, db.questions)
    ensures request == Messages(relation, db.questions)
  {
    request, relation, popped := [], [], [];
    queues := seq(|sessions|, j requires 0 <= j < |sessions| reads sessions => sessions[j].questions);
    ghost var start := db.records;
    var i := 0;
    while i < |sessions|
      invariant 0 <= i <= |sessions| && |popped| == i
      invariant db.Valid() && db.records == start + Created(queues, popped)
      invariant forall j :: 0 <= j < i ==> sessions[j].questions == Rest(queues[j])
      invariant forall j :: i <= j < |sessions| ==> sessions[j].questions == queues[j]
      invariant forall j :: 0 <= j < i ==>
        PoppedFrom(queues[j], popped[j], sessions[j].person, now, |start|, db.records)
      invariant relation == Related(sessions[..i], popped, db.questions)
      invariant request == Messages(relation, db.questions)
    {
      request, relation, popped := CollectStep(sessions, i, db, now, queues, start, request, relation, popped);
      i := i + 1;
    }
    assert sessions[..i] == sessions;
  }

  /** The OPEN branch of `register_answer` for `session`, from the correlation table `alive` and
      the answers table `records`: the session's new queue `queue` is generated from `records`,
      its head is popped into `popped[0]` (the answers table becomes `collected`, which gains
      the record created for a bare question and nothing else), the batch of that one session is posted as `request`, and unless that is
      empty its acknowledgement takes the tables to `after`. */
  ghost predicate FollowedUp(session: Session, alive: map<int, Entry>, records: seq<AnswerRecord>,
                             questions: seq<Question>, now: int, acks: seq<Option<int>>, queue: seq<Item>,
                             popped: seq<Option<AnswerRecord>>, collected: seq<AnswerRecord>,
                             relation: seq<Entry>, request: seq<OutgoingMessage>, after: Acked)
  {
    Generated(records, questions, session.person, now, queue) &&
    |popped| == 1 && PoppedFrom(queue, popped[0], session.person, now, |records|, collected) &&
    collected == records + CreatedBy(queue, popped[0]) &&
    relation == Related([session], popped, questions) &&
    request == Messages(relation, questions) &&
    (request == [] ==> after == Acked(alive, collected, Pass)) &&
    (request != [] ==> after == Acknowledge(alive, collected, acks, relation, now))
  }

  class TelegramConnector {
    const webhook: string
    /** Delivered message id -> the session that sent it and the record it asks about. */
    var aliveSessions: map<int, Entry>

    constructor (webhook: string)
      ensures this.webhook == webhook && aliveSessions == map[]
    {
      this.webhook := webhook;
      aliveSessions := map[];
    }

    /** The sessions the table refers to. */
    ghost function Holders(): set<Session>
      reads this
    {
      set k | k in aliveSessions :: aliveSessions[k].0
    }

    /** `transfer`: pops one item from each session, posts one message per record whose question
        is known, and, unless there was nothing to post, correlates and marks the records whose
        messages the service acknowledged with an id (`acks`, in message order). */
    method Transfer(sessions: seq<Session>, db: Ledger, now: int, acks: seq<Option<int>>)
      returns (request: seq<OutgoingMessage>, relation: seq<Entry>, outcome: Outcome,
               ghost queues: seq<seq<Item>>, ghost popped: seq<Option<AnswerRecord>>,
               ghost collected: seq<AnswerRecord>)
      requires db.Valid()
      requires forall i, j :: 0 <= i < j < |sessions| ==> sessions[i] != sessions[j]
      modifies this, db, sessions
      ensures db.Valid()
      ensures |popped| == |sessions|
      ensures forall i :: 0 <= i < |sessions| ==> sessions[i].questions == Rest(old(sessions[i].questions))
      ensures |queues| == |sessions| && forall i :: 0 <= i < |sessions| ==> queues[i] == old(sessions[i].questions)
      ensures collected == old(db.records) + Created(queues, popped)
      ensures forall i :: 0 <= i < |sessions| ==>
        PoppedFrom(old(sessions[i].questions), popped[i], sessions[i].person, now, |old(db.records)|, collected)
      ensures relation == Related(sessions, popped, db.questions)
      ensures request == Messages(relation, db.questions)
      ensures request == [] ==>
        outcome == Pass && aliveSessions == old(aliveSessions) && db.records == collected
      ensures request != [] ==>
        Acknowledge(old(aliveSessions), collected, acks, relation, now) == Acked(aliveSessions, db.records, outcome)
    {
      request, relation, queues, popped := CollectBatch(sessions, db, now);
      collected := db.records;
      if request == [] {
        return request, relation, Pass, queues, popped, collected;
      }
      outcome := RecordAcks(db, relation, acks, now);
    }

    /** The acknowledgement loop of `transfer`. */
    method RecordAcks(db: Ledger, relation: seq<Entry>, acks: seq<Option<int>>, now: int)
      returns (outcome: Outcome)
      requires db.Valid()
      modifies this, db
      ensures db.Valid()
      ensures Acknowledge(old(aliveSessions), old(db.records), acks, relation, now) ==
              Acked(aliveSessions, db.records, outcome)
    {
      ghost var start := Acked(aliveSessions, db.records, Pass);
      for i := 0 to |acks|
        invariant db.Valid()
        invariant AckPrefix(start, acks, relation, now, i) == Acked(aliveSessions, db.records, Pass)
      {
        var msgId := acks[i];
        if msgId.Some? {
          if i >= |relation| {
            AckFailSticks(start, acks, relation, now, i + 1, |acks|);
            return Fail(IndexOutOfRange);
          }
          aliveSessions := aliveSessions[msgId.value := relation[i]];
          var marked := Session.MarkQuestionAsTransferred(db, relation[i].1, now);
          if marked.Fail? {
            AckFailSticks(start, acks, relation, now, i + 1, |acks|);
            return marked;
          }
        }
      }
      outcome := Pass;
    }

    /** The first half of `register_answer`: a button press or a reply takes its entry out of the
        table, records the answer on the row, and yields the feedback message and the session. */
    method TakeAnswer(answer: UserAnswer, db: Ledger, now: int)
      returns (session: Option<Session>, feedback: seq<OutgoingMessage>, outcome: Outcome)
      requires db.Valid()
      modifies this, db
      ensures db.Valid()
      ensures session.Some? ==> session.value in old(Holders())
      ensures Key(answer).None? ==>
        session.None? && feedback == [] && outcome == Pass &&
        aliveSessions == old(aliveSessions) && db.records == old(db.records)
      ensures Key(answer).Some? && Key(answer).value !in old(aliveSessions) ==>
        session.None? && feedback == [] && outcome == Fail(UnknownCorrelation) &&
        aliveSessions == old(aliveSessions) && db.records == old(db.records)
      ensures Key(answer).Some? && Key(answer).value in old(aliveSessions) ==>
        var k := Key(answer).value;
        var entry := old(aliveSessions)[k];
        var g := Registration(old(db.records), db.questions, entry.1, AnswerText(answer), now);
        session == Some(entry.0) && aliveSessions == old(aliveSessions) - {k} &&
        (g.Raised? ==> outcome == Fail(g.error) && feedback == [] && db.records == old(db.records)) &&
        (g.Registered? ==>
          outcome == Pass && feedback == [Feedback(answer, g.row.value)] &&
          db.records == old(db.records)[entry.1.id := g.row.value])
    {
      session, feedback, outcome := None, [], Pass;
      var key := Key(answer);
      if key.Some? {
        if key.value !in aliveSessions {
          return None, [], Fail(UnknownCorrelation);
        }
        var entry := aliveSessions[key.value];
        assert entry.0 in Holders();
        aliveSessions := aliveSessions - {key.value};
        session := Some(entry.0);
        var registered := Session.RegisterAnswer(db, entry.1, Some(AnswerText(answer)), now);
        if registered.Raised? {
          return session, [], Fail(registered.error);
        }
        feedback := [Feedback(answer, registered.row.value)];
      }
    }

    /** The OPEN branch of `register_answer`: the answering session generates a new bunch and
        transfers its next question on its own. */
    method AskAgain(session: Session, db: Ledger, now: int, weigh: Question -> real, acks: seq<Option<int>>)
      returns (request: seq<OutgoingMessage>, relation: seq<Entry>, outcome: Outcome,
               ghost queue: seq<Item>, ghost popped: seq<Option<AnswerRecord>>, ghost collected: seq<AnswerRecord>)
      requires db.Valid()
      requires forall q :: weigh(q) > 0.0
      modifies this, db, session
      ensures db.Valid()
      ensures session.questions == Rest(queue)
      ensures FollowedUp(session, old(aliveSessions), old(db.records), db.questions, now, acks, queue, popped,
                         collected, relation, request, Acked(aliveSessions, db.records, outcome))
      ensures |relation| <= 1 && forall e :: e in relation ==> e.0 == session
    {
      session.GenerateQuestions(db, now, weigh);
      queue := session.questions;
      ghost var queues;
      request, relation, outcome, queues, popped, collected := Transfer([session], db, now, acks);
      assert queues == [queue] && popped[..0] == [];
      RelatedFrom([session], popped, db.questions);
    }

    /** `register_answer`: a button press or a reply takes its entry out of the table, records the
        answer on the row and posts feedback; then the session state decides what follows: OPEN
        generates and sends the next question of the answering session, CLOSE says goodbye to it
        (and raises when the answer carried no session). `acks` are the ids the service returns
        for that follow-up question. */
    method RegisterAnswer(answer: UserAnswer, state: SessionState, db: Ledger, now: int,
                          weigh: Question -> real, acks: seq<Option<int>>)
      returns (posted: seq<OutgoingMessage>, outcome: Outcome, ghost followUp: seq<Entry>,
               ghost queue: seq<Item>, ghost popped: seq<Option<AnswerRecord>>, ghost collected: seq<AnswerRecord>)
      requires db.Valid()
      requires forall q :: weigh(q) > 0.0
      modifies this, db, Holders()
      ensures db.Valid()
      ensures Key(answer).None? ==>
        aliveSessions == old(aliveSessions) && db.records == old(db.records) && posted == [] &&
        outcome == (if state == SessionClose then Fail(NoSession) else Pass)
      ensures Key(answer).Some? && Key(answer).value !in old(aliveSessions) ==>
        aliveSessions == old(aliveSessions) && db.records == old(db.records) && posted == [] &&
        outcome == Fail(UnknownCorrelation)
      ensures Key(answer).Some? && Key(answer).value in old(aliveSessions) ==>
        var k := Key(answer).value;
        var entry := old(aliveSessions)[k];
        var g := Registration(old(db.records), db.questions, entry.1, AnswerText(answer), now);
        (g.Raised? ==>
          outcome == Fail(g.error) && posted == [] && aliveSessions == old(aliveSessions) - {k} &&
          db.records == old(db.records)) &&
        (g.Registered? && state != SessionOpen ==>
          outcome == Pass && aliveSessions == old(aliveSessions) - {k} &&
          db.records == old(db.records)[entry.1.id := g.row.value] &&
          posted == [Feedback(answer, g.row.value)] +
                    (if state == SessionClose then [OutgoingMessage(entry.0.person.id, Simple, Farewell, None)]
                     else [])) &&
        (g.Registered? && state == SessionOpen ==>
          |followUp| <= 1 && (forall e :: e in followUp ==> e.0 == entry.0) &&
          (forall e :: 0 <= e < |followUp| ==> FindQuestion(db.questions, followUp[e].1.questionId).Some?) &&
          FollowedUp(entry.0, old(aliveSessions) - {k}, old(db.records)[entry.1.id := g.row.value],
                     db.questions, now, acks, queue, popped, collected, followUp,
                     Messages(followUp, db.questions), Acked(aliveSessions, db.records, outcome)) &&
          posted == [Feedback(answer, g.row.value)] + Messages(followUp, db.questions))
    {
      var session;
      posted, followUp, queue, popped, collected := [], [], [], [], [];
      session, posted, outcome := TakeAnswer(answer, db, now);
      if outcome.Fail? {
        return;
      }
      match state {
      case SessionPending =>
      case SessionOpen =>
        if session.Some? {
          var request, relation, transferred;
          request, relation, transferred, queue, popped, collected := AskAgain(session.value, db, now, weigh, acks);
          followUp := relation;
          posted := posted + request;
          if transferred.Fail? {
            return posted, transferred, followUp, queue, popped, collected;
          }
        }
      case SessionClose =>
        if session.None? {
          return posted, Fail(NoSession), followUp, queue, popped, collected;
        }
        posted := posted + [OutgoingMessage(session.value.person.id, Simple, Farewell, None)];
      }
      outcome := Pass;
    }
  }
}
