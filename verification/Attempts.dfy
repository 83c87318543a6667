/**
 * The attempt protocol: what candidates' requests and the overdue sweep do to
 * the attempt and answer tables. A database call is one atomic step, as is each
 * reading of the clock between calls; any number of requests interleave freely.
 */
module Attempts {
  import opened Basics
  import opened Snapshots
  import opened Layout
  import opened Scoring

  datatype Status = NotStarted | InProgress | Submitted | Expired

  /** A row of the attempts table. Times are in milliseconds. */
  datatype Attempt = Attempt(
    invitationId: Id,
    snapshot: Snapshot,
    status: Status,
    startedAt: Option<int>,
    deadlineAt: Option<int>,
    layout: Option<seq<LayoutEntry>>,
    finishedAt: Option<int>,
    result: Option<ScoreResult>,
    timeTakenSeconds: Option<int>
  )

  datatype Db = Db(attempts: map<Id, Attempt>, answers: map<(Id, Id), Id>)

  const DEADLINE_GRACE_MS: int := 30000

  predicate Finished(status: Status) { status == Submitted || status == Expired }

  /** What the protocol takes from elsewhere: how a snapshot is scored, and which layouts can be drawn. */
  datatype Rules = Rules(
    score: (Snapshot, Answers) -> ScoreResult,
    draws: (Snapshot, seq<LayoutEntry>) -> bool
  )

  // ----- The database calls -------------------------------------------------------------

  function AnswersOf(db: Db, attemptId: Id): Answers {
    map key <- db.answers.Keys | key.0 == attemptId :: key.1 := db.answers[key]
  }

  predicate IsOverdue(a: Attempt, now: int) {
    a.deadlineAt.Some? && now > a.deadlineAt.value + DEADLINE_GRACE_MS
  }

  /** The `where` of the overdue sweep's query. */
  predicate SweepMatches(a: Attempt, invitation: Option<Id>, cutoff: int) {
    && a.status == InProgress
    && a.deadlineAt.Some? && a.deadlineAt.value < cutoff
    && (invitation.Some? ==> a.invitationId == invitation.value)
  }

  /** `updateMany` where the attempt is still NOT_STARTED. */
  function UpdateStarted(db: Db, id: Id, now: int, layout: seq<LayoutEntry>): Db {
    if id in db.attempts && db.attempts[id].status == NotStarted then
      var a := db.attempts[id];
      db.(attempts := db.attempts[id := a.(
        status := InProgress,
        startedAt := Some(now),
        deadlineAt := Some(now + a.snapshot.durationMinutes * 60000),
        layout := Some(layout))])
    else db
  }

  /** `updateMany` where the attempt is still IN_PROGRESS. */
  function UpdateFinished(db: Db, id: Id, status: Status, now: int, result: ScoreResult, seconds: Option<int>): Db {
    if id in db.attempts && db.attempts[id].status == InProgress then
      db.(attempts := db.attempts[id := db.attempts[id].(
        status := status, finishedAt := Some(now), result := Some(result), timeTakenSeconds := seconds)])
    else db
  }

  function UpsertAnswer(db: Db, id: Id, questionId: Id, optionId: Id): Db {
    db.(answers := db.answers[(id, questionId) := optionId])
  }

  /** `Math.max(0, Math.round((end - startedAt) / 1000))`, with `end` the deadline once it has passed. */
  function TimeTaken(a: Attempt, now: int): Option<int> {
    if a.startedAt.None? then None
    else
      var end := if a.deadlineAt.Some? && a.deadlineAt.value < now then a.deadlineAt.value else now;
      var seconds := (end - a.startedAt.value + 500) / 1000;
      Some(if seconds < 0 then 0 else seconds)
  }

  /** The option is one of the question's own, in the attempt's snapshot. */
  predicate Offers(s: Snapshot, questionId: Id, optionId: Id) {
    var i := Find((q: SnapshotQuestion) => q.id == questionId, s.questions);
    i < |s.questions| && exists o <- s.questions[i].options :: o.id == optionId
  }

  // ----- Requests -----------------------------------------------------------------------------

  /** What a request does once a closing call inside it returns. */
  datatype After =
    | ThenDone
    | ThenStart(invitation: Link, id: Id)
    | ThenReadStatus(id: Id)
    | ThenClose(ids: seq<Id>, after: After)

  /** The invitation a request was admitted with. */
  datatype Link = Link(id: Id, expiresAt: int)

  /** Where a request stands: each name is the step it takes next. */
  datatype Pc =
    | Cutoff(scope: Option<Id>, after: After)
    | FindOverdue(scope: Option<Id>, cutoff: int, after: After)
    | CloseAll(ids: seq<Id>, after: After)
    | FinishRead(id: Id, status: Status, after: After)
    | FinishStamp(id: Id, status: Status, read: Attempt, answers: Answers, after: After)
    | FinishWrite(id: Id, status: Status, result: ScoreResult, now: int, seconds: Option<int>, after: After)
    | StartFind(invitation: Link, id: Id)
    | StartCheck(invitation: Link, id: Id, read: Attempt)
    | StartStamp(id: Id, read: Attempt)
    | StartWrite(id: Id, now: int, layout: seq<LayoutEntry>)
    | StartReread(id: Id)
    | AnswerFind(invitation: Link, id: Id, questionId: Id, optionId: Id)
    | AnswerCheck(id: Id, read: Attempt, questionId: Id, optionId: Id)
    | AnswerUpsert(id: Id, questionId: Id, optionId: Id)
    | SubmitFind(invitation: Link, id: Id)
    | SubmitCheck(id: Id, read: Attempt)
    | ReadStatus(id: Id)
    | Done

  function Resume(after: After): Pc {
    match after
    case ThenDone => Done
    case ThenStart(invitation, id) => StartFind(invitation, id)
    case ThenReadStatus(id) => ReadStatus(id)
    case ThenClose(ids, rest) => CloseAll(ids, rest)
  }

  /** The first step of each request: the overdue sweep, opening the link, start, answer and submit. */
  predicate Entry(pc: Pc) {
    match pc
    case Cutoff(_, ThenDone) => true
    case Cutoff(scope, ThenStart(invitation, _)) => scope == Some(invitation.id)
    case AnswerFind(_, _, _, _) => true
    case SubmitFind(_, _) => true
    case _ => false
  }

  predicate Owns(db: Db, invitation: Link, id: Id) {
    id in db.attempts && db.attempts[id].invitationId == invitation.id
  }

  /** One step of one request, at time `now`. */
  ghost predicate Step(rules: Rules, now: int, db: Db, pc: Pc, db': Db, pc': Pc) {
    match pc
    case Cutoff(scope, after) => db' == db && pc' == FindOverdue(scope, now - DEADLINE_GRACE_MS, after)
    case FindOverdue(scope, cutoff, after) =>
      && db' == db && pc'.CloseAll? && pc'.after == after
      && forall id :: id in pc'.ids <==> id in db.attempts && SweepMatches(db.attempts[id], scope, cutoff)
    case CloseAll(ids, after) =>
      db' == db && pc' == if ids == [] then Resume(after) else FinishRead(ids[0], Expired, ThenClose(ids[1..], after))
    case FinishRead(id, status, after) =>
      && db' == db
      && pc' == if id in db.attempts && db.attempts[id].status == InProgress
                then FinishStamp(id, status, db.attempts[id], AnswersOf(db, id), after)
                else Resume(after)
    case FinishStamp(id, status, read, answers, after) =>
      && db' == db
      && pc' == FinishWrite(id, status, rules.score(read.snapshot, answers), now, TimeTaken(read, now), after)
    case FinishWrite(id, status, result, stamp, seconds, after) =>
      db' == UpdateFinished(db, id, status, stamp, result, seconds) && pc' == Resume(after)
    case StartFind(invitation, id) =>
      && db' == db
      && pc' == if !Owns(db, invitation, id) || Finished(db.attempts[id].status) then Done
                else if db.attempts[id].status == NotStarted then StartCheck(invitation, id, db.attempts[id])
                else Done
    case StartCheck(invitation, id, read) =>
      db' == db && pc' == if invitation.expiresAt <= now then Done else StartStamp(id, read)
    case StartStamp(id, read) =>
      && db' == db && pc'.StartWrite? && pc'.id == id && pc'.now == now
      && rules.draws(read.snapshot, pc'.layout)
    case StartWrite(id, stamp, layout) =>
      db' == UpdateStarted(db, id, stamp, layout) && pc' == StartReread(id)
    case StartReread(id) => db' == db && pc' == Done
    case AnswerFind(invitation, id, questionId, optionId) =>
      && db' == db
      && pc' == if !Owns(db, invitation, id) || db.attempts[id].status != InProgress then Done
                else AnswerCheck(id, db.attempts[id], questionId, optionId)
    case AnswerCheck(id, read, questionId, optionId) =>
      && db' == db
      && pc' == if IsOverdue(read, now) then FinishRead(id, Expired, ThenDone)
                else if Offers(read.snapshot, questionId, optionId) then AnswerUpsert(id, questionId, optionId)
                else Done
    case AnswerUpsert(id, questionId, optionId) =>
      db' == UpsertAnswer(db, id, questionId, optionId) && pc' == Done
    case SubmitFind(invitation, id) =>
      && db' == db
      && pc' == if !Owns(db, invitation, id) || db.attempts[id].status == NotStarted then Done
                else if db.attempts[id].status == InProgress then SubmitCheck(id, db.attempts[id])
                else ReadStatus(id)
    case SubmitCheck(id, read) =>
      && db' == db
      && pc' == FinishRead(id, if IsOverdue(read, now) then Expired else Submitted, ThenReadStatus(id))
    case ReadStatus(id) => db' == db && pc' == Done
    case Done => false
  }

  // ----- The whole system -----------------------------------------------------------------------

  datatype System = System(now: int, db: Db, requests: map<nat, Pc>)

  predicate Fresh(a: Attempt) {
    a.status == NotStarted && a.startedAt == a.deadlineAt == a.finishedAt == None
    && a.layout == None && a.result == None && a.timeTakenSeconds == None
  }

  ghost predicate Init(s: System) {
    s.db == Db(map[], map[]) && s.requests == map[]
  }

  datatype Move = Tick | Send(id: Id) | Arrive(request: nat) | Run(request: nat)

  ghost predicate Moves(rules: Rules, s: System, move: Move, s': System) {
    match move
    case Tick => s'.now >= s.now && s'.db == s.db && s'.requests == s.requests
    case Send(id) =>
      && s'.now == s.now && s'.requests == s.requests
      && id !in s.db.attempts && id in s'.db.attempts && Fresh(s'.db.attempts[id])
      && s'.db == s.db.(attempts := s.db.attempts[id := s'.db.attempts[id]])
    case Arrive(request) =>
      && s'.now == s.now && s'.db == s.db
      && request !in s.requests && request in s'.requests && Entry(s'.requests[request])
      && s'.requests == s.requests[request := s'.requests[request]]
    case Run(request) =>
      && s'.now == s.now && request in s.requests && request in s'.requests
      && s'.requests == s.requests[request := s'.requests[request]]
      && Step(rules, s.now, s.db, s.requests[request], s'.db, s'.requests[request])
  }

  ghost predicate Next(rules: Rules, s: System, s': System) {
    exists move :: Moves(rules, s, move, s')
  }

  /** A run: it starts empty, and every state follows from the one before. */
  ghost predicate IsRun(rules: Rules, run: seq<System>) {
    && run != [] && Init(run[0])
    && forall i :: 0 <= i < |run| - 1 ==> Next(rules, run[i], run[i + 1])
  }
}
