# Question scheduling and answer lifecycle, modelled in Dafny

The questions service of the testing platform sends each person short quiz questions through a
Telegram bot, on a timetable. This project models the core of that service and proves properties
of the model:

- **Question selection** (`Generators`, `generators.dfy`).
  - The *planned* records of a person are the NOT_ANSWERED records that are already due, oldest
    first.
  - The *pool* holds the questions that share a group with the person and are not already planned.
  - The uniform generator and the statistically weighted generator both return the planned
    prefix, topped up with distinct pool questions. The weighted generator also computes the
    probability vector, including the weight given to questions never scored.
- **Sessions and record states** (`Generators.Session`, `Records`).
  - A session is a queue of due records and bare questions. Popping a bare question creates a
    NOT_ANSWERED record in the answers table.
  - Marking sets a record TRANSFERRED.
  - Registering an answer stores it and scores it with `calculate_points`.
- **The Telegram connector** (`Connector`, `connector.dfy`).
  - `transfer` builds one message per session whose next record has a known question.
  - The *correlation table* maps each message id the service acknowledged to the session and
    record it asked about, and that record is marked transferred.
  - `register_answer` takes the entry for a button press or a reply out of the table, records the
    answer, posts the verdict, and then either sends the session's next question or says goodbye.
- **The dispatcher** (`Dispatcher`, `dispatcher.dfy`). The schedule thread is gated by a
  time-of-day window, a minimum period since `previous_call` and a weekday set. A cycle opens one
  session per person and transfers all of them in one batch.
- **The older scheduler at the repository root** (`Legacy`, `legacy.dfy`). It covers
  `random_question`, the `WeekDays` enumeration, and the `every`/`on` builders with the two gate
  orders they select.

Shared pieces:

- `common.dfy` holds `Option`, `Result`, the exceptions of the modelled code, and Python's `str()`
  on integers.
- `records.dfy` holds questions, answer records, scoring, and the in-memory tables (`Ledger`) that
  stand in for the database.

How the model represents the environment:

- **Time** is an integer count of local seconds since 1970-01-01 00:00, which was a Thursday.
  `now.time()` is `now % 86400` and `now.weekday()` is `(now / 86400 + 3) % 7`.
- **Random choices** (`np.random.choice`) are nondeterministic: each contract holds for every draw
  of distinct indices.
- **The seen weight of a question** is the product of cosines, logarithms and exponentials in the
  source. Here it is a parameter `weigh`, required to be positive.
- **HTTP replies** are parameters:
  - the acknowledged message ids are a list of optional ints;
  - the user directory is a list of people, or nothing when the directory fails.
- **Messages the code posts** are returned as values.

The model follows the code even where a cleaner lifecycle would differ:

- `register_answer` does not check for an earlier answer.
- Scoring an open question overrides ANSWERED with PENDING.
- Marking a record transferred has no guard on its current state.
- The dispatcher sets `previous_call` before it tests the weekday, so a tick on a disallowed day
  uses up the period (`Dispatcher.DisallowedDayUsesPeriod`).
- An exception anywhere in a cycle ends the whole cycle, because `task` has one `try` around all
  of it; there is no per-person isolation.

## Model

| member | source | states |
|---|---|---|
| Common.IntToString | questions/connector/telegram_connector.py:115 | `str()` of a button id: non-empty, a leading minus exactly for negative ids, then decimal digits with no leading zero except in "0" itself |
| Common.IntToStringRoundTrip | questions/connector/telegram_connector.py:115 | the text of a button id is a well-formed decimal that reads back as the same id |
| Common.IntToStringInjective | questions/connector/telegram_connector.py:115 | two different button ids never give the same answer text |
| Common.DayOfWeek | questions/schedule/schedule.py:48 | `now.weekday()` is 0..6, as both schedulers read it |
| Records.StateOfValue | questions/models/questions.py:13-25 | a stored state code decodes to a state exactly when it is 0..3 |
| Records.StateValueRoundTrip | questions/models/questions.py:22-25 | the codes NOT_ANSWERED=0, TRANSFERRED=1, ANSWERED=2, PENDING=3 encode and decode as inverses |
| Records.CalculatePoints | questions/models/questions.py:118-130 | only points and state change, and points are 0 or 1; a test question scores 1 exactly when the person's answer is the canonical one and keeps the state; an open question scores 0 and becomes PENDING |
| Records.CalculatePointsIdempotent | questions/models/questions.py:118-130 | scoring twice is scoring once, and the points depend only on the person's answer, not on the rest of the record |
| Records.FindQuestion | questions/models/questions.py:106-107 | the record's question, when found, is in the catalogue with that id; when not found, no question has that id |
| Records.Ledger.constructor | questions/models/questions.py:103-113 | the answers table starts with the given rows, each stored under its own id |
| Records.Ledger.Get | questions/schedule/generators.py:248 | `db.get` finds a row exactly for a stored id, and returns that row |
| Records.Ledger.Add | questions/schedule/generators.py:232-235 | an added row gets the next free id and is appended; nothing else changes |
| Records.Ledger.Commit | questions/schedule/generators.py:254 | a commit replaces the row with that id and nothing else |
| Generators.SelectPlanned | questions/schedule/generators.py:45-48 | a record is selected exactly when it is the person's, its ask time has passed and it is NOT_ANSWERED |
| Generators.Planned | questions/schedule/generators.py:45-49 | the planned list, built by inserting each due NOT_ANSWERED record of the person by ask time, is no longer than the table; its contents and order are stated by PlannedExactly and PlannedIsSortedSelection |
| Generators.InsertSorted | questions/schedule/generators.py:49 | inserting into an ask-time-ordered list keeps it ordered and adds exactly that record |
| Generators.SortByAskTimeSorts | questions/schedule/generators.py:49 | the ordering is sorted by ask time and is a permutation of its input |
| Generators.PlannedExactly | questions/schedule/generators.py:45-49 | the planned list holds exactly the person's due NOT_ANSWERED records, as often as in the table, sorted by ask time |
| Generators.PlannedIsSortedSelection | questions/schedule/generators.py:45-49 | the planned list is the person's due NOT_ANSWERED records selected in table order and then sorted by ask time |
| Generators.Pool | questions/schedule/generators.py:64-67 | a question is in the pool exactly when it is in the catalogue, shares a group with the person and is not asked by a planned record |
| Generators.PoolDistinct | questions/schedule/generators.py:68 | the pool never holds two questions with the same id |
| Generators.DrawExists | questions/schedule/generators.py:97-99 | a draw of `min(count - planned, pool)` distinct pool indices always exists |
| Generators.DrawnBunch | questions/schedule/generators.py:97-101 | planned followed by any draw of distinct pool questions of the right size is a valid bunch |
| Generators.BunchProperties | questions/schedule/generators.py:90-101 | a bunch has `min(count, planned + pool)` items, at most `count`, and starts with the first planned records; the rest are distinct-id questions of the person's groups that are not already planned |
| Generators.BunchOfOneExactly | questions/schedule/generators.py:90-101 | a bunch of one is the first planned record when there is one, otherwise one pool question, or nothing when the pool is empty too |
| Generators.SimpleNextBunch | questions/schedule/generators.py:76-101 | the uniform generator returns `planned[:count]` when there are enough planned records, otherwise planned plus a draw without replacement from the pool |
| Generators.PointsSum | questions/schedule/generators.py:136-138 | the sum of points is null exactly when the person has no record for the question |
| Generators.SeenIffScored | questions/schedule/generators.py:136-140 | with non-negative points, a question counts as seen (`if points_sum:`) exactly when one of the person's records for it has positive points, and the sum is then non-negative |
| Generators.RawWeights | questions/schedule/generators.py:128-162 | one weight per pool question: the given positive weight when the question's points sum is non-null and non-zero, NaN (None) otherwise |
| Generators.Max | questions/schedule/generators.py:170 | `max(with_val)` is at least every seen weight |
| Generators.MaxAttained | questions/schedule/generators.py:170 | `max(with_val)` is one of the seen weights, so with the bound above it is their maximum |
| Generators.SeenValues | questions/schedule/generators.py:166 | `with_val` is at most as long as the weight vector |
| Generators.SeenValuesExactly | questions/schedule/generators.py:166-167 | `with_val` holds exactly the non-NaN weights, so `without_val_count` is the number of NaN slots |
| Generators.SeenValuesPositive | questions/schedule/generators.py:166 | the seen weights are positive |
| Generators.UnseenWeight | questions/schedule/generators.py:166-173 | `increased_avg`: the sum of the seen weights plus `without_val_count` times their maximum, over the pool size, or 1 when nothing was seen; its bounds are stated by UnseenWeightBetweenMeanAndMax |
| Generators.Filled | questions/schedule/generators.py:175 | each NaN slot takes the unseen weight and every other slot keeps its value |
| Generators.Scaled | questions/schedule/generators.py:176 | every weight is divided by the total |
| Generators.UnseenWeightBetweenMeanAndMax | questions/schedule/generators.py:166-173 | the weight of an unseen question lies between the mean and the maximum of the seen weights |
| Generators.SeenMeanMaxBounds | questions/schedule/generators.py:169-170 | for any non-empty seen weights from a larger pool, the filled-in value lies between their mean and their maximum |
| Generators.NormalisedIsDistribution | questions/schedule/generators.py:166-176 | after filling and normalising, every probability is in (0, 1] and they sum to 1 |
| Generators.FillNaN | questions/schedule/generators.py:175 | in place: NaN slots take the value and the others are unchanged |
| Generators.DivideAll | questions/schedule/generators.py:176 | in place: every slot is divided by the total |
| Generators.Probabilities | questions/schedule/generators.py:128-176 | the probability vector is the normalised filled weights, one per pool question, each in (0, 1], summing to 1 |
| Generators.StatNextBunch | questions/schedule/generators.py:109-184 | the weighted generator returns a valid bunch, which is the planned list unchanged when the pool is empty |
| Generators.NewRecord | questions/schedule/generators.py:227-230 | a bare question becomes a NOT_ANSWERED record of that question and person, asked now, with no answer and no points |
| Generators.MarkedTransferred | questions/schedule/generators.py:248-252 | a marked row is TRANSFERRED with an ask time, keeps an existing ask time, and differs from the old row in nothing else |
| Generators.RecordAnswer | questions/schedule/generators.py:268-272 | a registered row carries the answer and the answer time, is ANSWERED for a test question and PENDING for an open one, scores 1 exactly for the canonical answer of a test question, and differs from the old row in nothing else |
| Generators.MarkedTransferredProperties | questions/schedule/generators.py:248-252 | marking sets TRANSFERRED whatever the prior state, sets the ask time only when it was unset, changes nothing else, and is idempotent |
| Generators.RecordAnswerOverwrites | questions/schedule/generators.py:268-272 | registering again overwrites the earlier answer; the result is ANSWERED for a test question and PENDING for an open one, with points 1 only for the canonical answer of a test question |
| Generators.Session.constructor | questions/schedule/generators.py:192-205 | a new session belongs to the person and has an empty queue |
| Generators.Session.GenerateQuestions | questions/schedule/generators.py:207-211 | the queue becomes a bunch of one from the weighted generator: the oldest due record, else one question of the pool, else nothing |
| Generators.AllGeneratedAt | questions/schedule/generators.py:207-211 | when every session of a list generated its queue, session j's queue is the bunch of one for person j |
| Generators.Session.NextQuestion | questions/schedule/generators.py:213-237 | an empty queue gives None and changes nothing; otherwise exactly the head is removed; a due record is returned unchanged, and a bare question is stored as a new record under the next id and returned; the table gains exactly the row CreatedBy names |
| Generators.CreatedBy | questions/schedule/generators.py:226-233 | the row `next_question` adds: the record made for a bare question at the head, nothing for a due record or an empty queue |
| Generators.Session.MarkQuestionAsTransferred | questions/schedule/generators.py:240-254 | the stored row is marked transferred and nothing else changes; a row missing from the table raises |
| Generators.Session.RegisterAnswer | questions/schedule/generators.py:257-276 | no answer leaves the table unchanged and returns the stored row; otherwise the stored row gets the answer, the time and its score, and a missing row or question raises |
| Connector.MessageFor | questions/connector/telegram_connector.py:71-90 | the message goes to the record's person with the question's text; a test question has buttons "Не знаю" followed by its options, and an open question is plain text without buttons |
| Connector.Related | questions/connector/telegram_connector.py:69-90 | the correlation list has at most one entry per session, and each entry's question is known |
| Connector.KnownIndices | questions/connector/telegram_connector.py:69-90 | the positions of the sessions whose returned record has a known question: strictly increasing, and containing every such position |
| Connector.RelatedIndexed | questions/connector/telegram_connector.py:69-90 | entry k of the correlation list is session `ix[k]` with its record, where `ix` lists exactly the sessions with a known question in order, so each session appears at most once |
| Connector.RelatedAllKnown | questions/connector/telegram_connector.py:69-90 | when every session returned a record with a known question, entry i is session i with its record |
| Connector.RelatedFrom | questions/connector/telegram_connector.py:67-90 | every correlation entry pairs a session with the record that session returned |
| Connector.RelatedNoneKnown | questions/connector/telegram_connector.py:91-92 | when no session returned a record with a known question, the batch is empty |
| Connector.Messages | questions/connector/telegram_connector.py:74-89 | message i is built from the record of correlation entry i, so the two lists stay aligned |
| Connector.Created | questions/connector/telegram_connector.py:69-70 | the rows added by popping the sessions in order: one per popped bare question, in session order, so never more than the sessions popped |
| Connector.AckPrefix | questions/connector/telegram_connector.py:99-104 | the acknowledgement loop never changes the size of the answers table; a null id is skipped before the index is read, a non-null id past the last message raises, and once an iteration raises nothing further happens |
| Connector.AckFailSticks | questions/connector/telegram_connector.py:99-104 | after an exception the later acknowledgements are not processed |
| Connector.AckStoredKeys | questions/connector/telegram_connector.py:99-102 | with every record stored, the table gains exactly the acknowledged non-null ids and nothing raises |
| Connector.AckStoredEntries | questions/connector/telegram_connector.py:102 | each acknowledged id maps to the entry of its last acknowledgement, and other keys keep their entries |
| Connector.AckStoredRows | questions/connector/telegram_connector.py:103-104 | each acknowledged record becomes its old row marked transferred (marking it again for a second acknowledgement changes nothing), and every row no acknowledgement refers to is unchanged |
| Connector.AcknowledgeStored | questions/connector/telegram_connector.py:99-104 | the whole loop over no more ids than messages: nothing raises, the new keys, the last acknowledgement of an id mapping it to its entry, the kept entries, the acknowledged rows marked transferred from their old value, and the other rows unchanged |
| Connector.Acknowledge | questions/connector/telegram_connector.py:99-104 | the acknowledgement loop over all ids from an empty-handed start; it keeps the size of the answers table, and its effect is stated by AcknowledgeStored, AcknowledgeTooMany and AcknowledgeNullTail |
| Connector.AcknowledgeTooMany | questions/connector/telegram_connector.py:99-103 | a non-null id at an index past the last message, with only null ids before it there: everything up to the last message is done, and then that index raises |
| Connector.AckNullRun | questions/connector/telegram_connector.py:100-101 | a run of null ids changes nothing |
| Connector.AcknowledgeNullTail | questions/connector/telegram_connector.py:99-104 | when every id past the last message is null, nothing raises and the result is that of the loop over the messages |
| Connector.DeliveredThenNull | questions/connector/telegram_connector.py:99-104 | one message acknowledged as `[t, None]`: `t` is correlated with its session and record, the record is TRANSFERRED, and nothing raises |
| Connector.UndeliveredMessageSkipped | questions/connector/telegram_connector.py:99-104 | in a batch of three whose middle message was not delivered, only the first and third are correlated and marked |
| Connector.Registration | questions/schedule/generators.py:265-272 | registration raises exactly when the row or its question is missing; otherwise the stored row carries the answer text and the answer time |
| Connector.ButtonVerdict | questions/connector/telegram_connector.py:115-131 | the reply to a button goes to the person; it says correct exactly when the button id, as text, is the canonical answer of a test question, and an open question is always reported incorrect |
| Connector.CollectStep | questions/connector/telegram_connector.py:69-90 | one iteration: exactly the head of session i is popped and no other queue changes, the answers table gains exactly the row that pop created, and the message and entry lists grow by its message and entry exactly when its question is known |
| Connector.CollectBatch | questions/connector/telegram_connector.py:64-90 | `next_question` is called once per session, in order, removing exactly each queue's head; the answers table gains exactly the rows created for bare questions, in session order; the messages and the correlation list are built from what the sessions returned |
| Connector.TelegramConnector.constructor | questions/connector/telegram_connector.py:44-55 | the connector keeps its webhook and starts with an empty correlation table |
| Connector.TelegramConnector.Transfer | questions/connector/telegram_connector.py:57-104 | one pop per session, from each session's queue, adding exactly the rows created for bare questions; the correlation list is built from what the sessions returned and the messages from it; with nothing to send the table is unchanged; otherwise the new table, rows and exception are those of the acknowledgement loop |
| Connector.TelegramConnector.RecordAcks | questions/connector/telegram_connector.py:99-104 | the loop's table, rows and exception are those the acknowledgement function computes, null ids being skipped before the index is read |
| Connector.TelegramConnector.TakeAnswer | questions/connector/telegram_connector.py:111-146 | a free message changes nothing; an unknown id raises and changes nothing; otherwise the entry is removed from the table, the answer is registered on its row, and the verdict or acknowledgement is posted |
| Connector.TelegramConnector.AskAgain | questions/connector/telegram_connector.py:150-153 | the answering session's queue becomes a freshly generated bunch of one, its head is popped (adding exactly the row created for a bare question), the one-session batch is built from it and posted, and the table and rows after it are those of the acknowledgement loop |
| Connector.TelegramConnector.RegisterAnswer | questions/connector/telegram_connector.py:106-161 | as for TakeAnswer, then: OPEN regenerates and transfers the session's next question, starting from the table without the answered entry and the rows with the answer registered, with the outcome of that transfer; CLOSE posts the goodbye to the session's person, and CLOSE after a free message raises because no session was found |
| Dispatcher.TimeOfDay | questions/schedule/schedule.py:45 | the time of day is within one day |
| Dispatcher.Step | questions/schedule/schedule.py:45-50 | one pass of the loop body: `previous_call` either stays or becomes now, and a firing always sets it to now |
| Dispatcher.FiresIffAllGates | questions/schedule/schedule.py:45-50 | a tick fires exactly when it is inside the window, the period has passed and the day is allowed |
| Dispatcher.ClosedGateKeepsPreviousCall | questions/schedule/schedule.py:45-46 | a tick outside the window or inside the period changes nothing |
| Dispatcher.DisallowedDayUsesPeriod | questions/schedule/schedule.py:47-48 | a tick on a disallowed day does not fire but moves `previous_call`, so no tick fires again before the period has passed |
| Dispatcher.PeriodSeparatesFirings | questions/schedule/schedule.py:46-50 | after a firing, nothing fires until the period has passed, and afterwards a tick in the window on an allowed day fires |
| Dispatcher.InvertedWindowNeverFires | questions/schedule/schedule.py:45 | a window whose start is after its end never opens |
| Dispatcher.WorkingHoursScenario | questions/schedule/schedule.py:41-52 | a weekday 09:00-18:00 schedule with a 30 s period fires at 09:00:00 and 09:00:31 but not at 08:59:59, 09:00:15 or on a Saturday |
| Dispatcher.NewSession | questions/schedule/schedule.py:58-59 | a new session for the person whose queue is the generated bunch of one |
| Dispatcher.AddSession | questions/schedule/schedule.py:58-60 | the list grows by one new session of the next person at its end, whose queue is generated like the earlier ones |
| Dispatcher.OpenSessions | questions/schedule/schedule.py:56-60 | one new, distinct session per person, in order, each queue the bunch of one generated for its person from the same table |
| Dispatcher.Schedule.constructor | questions/schedule/schedule.py:16-28 | every gate is unset, no call happened yet, and the connector has its webhook and an empty table |
| Dispatcher.Schedule.FromSettings | questions/schedule/schedule.py:30-36 | the four gate fields take the four settings and the schedule returns itself |
| Dispatcher.Schedule.Tick | questions/schedule/schedule.py:41-52 | the new `previous_call` and whether the cycle ran are the gate decision, and a tick that does not fire changes neither the table nor the answers |
| Dispatcher.Schedule.Task | questions/schedule/schedule.py:54-65 | a failing user directory ends the cycle with nothing changed; otherwise one new session per person, each generated from the table before the cycle and then popped once, the table gaining exactly the rows created for bare questions, and the batch, the new table, rows and exception are those of one transfer of all of them |
| Legacy.Groups | schedule.py:71-76 | the groups queried as evidently intended: the person's own without a group argument (raising when there is no person), a single id as a one-element list, or the given list |
| Legacy.GroupsAsWritten | schedule.py:71-80 | the groups queried as written: the person's own without a group argument (raising when there is no person), the given list, and a raise for a single id, which is used as the list itself |
| Legacy.SingleGroupRaises | schedule.py:73-80 | as written, a single group id is not wrapped in a list and the query raises; the corrected version uses the one-element list |
| Legacy.GroupsAgreeOtherwise | schedule.py:71-76 | apart from a single id, the code as written and the corrected version agree |
| Legacy.Candidates | schedule.py:79-84 | a question is a candidate exactly when it is linked to one of the groups and the person has no answer for it |
| Legacy.AnsweringShrinksCandidates | schedule.py:81-84 | answering a question removes exactly that question from the candidates |
| Legacy.RandomQuestion | schedule.py:66-88 | as written: a single group id raises, a missing person raises, and otherwise the result is a candidate, or -1 when there is none |
| Legacy.PickUnanswered | schedule.py:81-88 | the pick is a candidate, or -1 when there is none |
| Legacy.RandomQuestionIntended | schedule.py:66-88 | with a single group id queried as a one-element list: the result is a candidate of that group, or -1 when there is none |
| Legacy.WeekDayOf | schedule.py:91-98 | `WeekDays(x)` succeeds exactly for 0..6 |
| Legacy.WeekDayRoundTrip | schedule.py:91-98 | the enumeration's values and names are inverse |
| Legacy.WeekendNamesSwapped | schedule.py:97-98 | weekday 5, a Saturday, is named Sunday, and weekday 6 is named Saturday |
| Legacy.DaysFirstGate | schedule.py:154-158 | order 0 fires exactly on an allowed day once the period has passed, and only a firing moves `previous_call` |
| Legacy.PeriodFirstGate | schedule.py:140-153 | order 1 fires on an allowed day once the period has passed, and moves `previous_call` whenever the period has passed |
| Legacy.MonthsIgnored | schedule.py:141-148 | the gate is the same whether or not `every` was given months, since the loop looks for a key that is never stored |
| Legacy.OrdersDifferOnDisallowedDays | schedule.py:140-158 | on a disallowed day past the period, order 1 uses up the period and order 0 does not |
| Legacy.DaysWithoutPeriodRaises | schedule.py:154-158 | with only `on` called, the first allowed tick fires and the next allowed one raises for the missing period |
| Legacy.DaysOf | schedule.py:123-126 | the day list converts exactly when every value is 0..6, element by element, and raises otherwise |
| Legacy.LegacyStep | schedule.py:132-159 | one pass of the legacy loop for the order fixed first: `previous_call` either stays or becomes now, and a firing sets it to now and raises nothing |
| Legacy.LegacySchedule.constructor | schedule.py:102-109 | no period, no order, no days, no call yet |
| Legacy.LegacySchedule.Every | schedule.py:111-120 | stores the period, and months under `months` when non-zero; fixes order 1 unless an order is already set |
| Legacy.LegacySchedule.On | schedule.py:122-130 | stores the converted days and fixes order 0 unless an order is already set; a bad day raises and changes nothing |
| Legacy.LegacySchedule.Tick | schedule.py:132-159 | one pass of the loop is the gate of the order fixed first |

## Left out

- HTTP: `requests.post` to the Telegram service, the webhook resource and the user directory
  call. They are network I/O. Acknowledged ids and the people list are parameters, and posted
  messages are returned values.
- The thread, `time.sleep` and the `while True` loops. Each `Tick` is one pass of a loop body.
- The seen weight formula (cosine, log2, exponential, absolute value) and floating point
  generally. Weights are exact reals, and the seen weight is the positive parameter `weigh`. NaN
  is `None`.
- The SQL layer: queries, sessions, commits, `refresh`, and `expunge_all`. The tables are
  in-memory sequences.
- The settings store and its update-handler registration. `from_settings` receives the settings
  as a value.
- Conversion of the incoming `AnswerType` and `SessionState` integers. Answers and states arrive
  typed, so the `ValueError` for an unknown code is not modelled.
- Fractional arguments to the legacy `every()` and months measured by `timedelta`. `Delta` takes
  whole units.
- The legacy callback itself. `Tick` reports that it fired.
- `print` and `logging` calls.
- `fake_db`, which seeds data.
- The choice among pool questions made by the probability vector. The draw is any set of
  distinct indices of the right size.
- Generators.StatNextBunch: states the bunch's shape and the probability vector's properties
  separately. It does not state that a draw follows that distribution.
- Dispatcher.Schedule.Tick: states the gate decision and that a closed gate changes nothing. What
  a firing cycle does is stated by Dispatcher.Schedule.Task.
- Test questions stored without options. Options are held already decoded as a list, so the
  exception `transfer` raises when a question's stored options decode to null (they cannot be
  appended to the "don't know" button) is not modelled, nor the records popped before it.

## Findings

| source | as written | input that shows it | evidently intended | confidence | as-written member | corrected member |
|---|---|---|---|---|---|---|
| schedule.py:73-80 | `group_id is int` compares the argument with the type `int`, so it is false for every id. A single id is then used as the group list, and the query cannot iterate it. | `random_question(person_id, 5)`; see Legacy.SingleGroupRaises | a single id is queried as the one-element list `[group_id]` | medium, not executed | Legacy.RandomQuestion | Legacy.RandomQuestionIntended |
