/** What every run of the attempt protocol keeps, however the requests interleave. */
module AttemptLaws {
  import opened Basics
  import opened Snapshots
  import opened Layout
  import opened Scoring
  import opened Attempts

  // ----- How an attempt may change --------------------------------------------------------

  predicate Allowed(before: Status, after: Status) {
    before == after || before == NotStarted || (before == InProgress && Finished(after))
  }

  /** Forward only; what the start sets stays, and a finished attempt stays as it is. */
  predicate Evolves(a: Attempt, b: Attempt) {
    && b.invitationId == a.invitationId && b.snapshot == a.snapshot
    && Allowed(a.status, b.status)
    && (a.status != NotStarted ==> b.startedAt == a.startedAt && b.deadlineAt == a.deadlineAt && b.layout == a.layout)
    && (Finished(a.status) ==> b == a)
  }

  ghost predicate DbEvolves(db: Db, db': Db) {
    forall id <- db.attempts.Keys :: id in db'.attempts && Evolves(db.attempts[id], db'.attempts[id])
  }

  // ----- What every reachable state satisfies ------------------------------------------------

  ghost predicate Scored(rules: Rules, a: Attempt, result: ScoreResult) {
    exists answers :: result == rules.score(a.snapshot, answers)
  }

  predicate TimesOk(a: Attempt, now: int) {
    && a.startedAt.Some? && a.startedAt.value <= now
    && a.deadlineAt == Some(a.startedAt.value + a.snapshot.durationMinutes * 60000)
  }

  predicate SecondsOk(a: Attempt, seconds: Option<int>) {
    seconds.Some? && 0 <= seconds.value <= a.snapshot.durationMinutes * 60
  }

  /** A closing stamp: between the start and now, and past the grace period if the attempt expired. */
  predicate StampOk(a: Attempt, status: Status, stamp: int, now: int) {
    && a.startedAt.Some? && a.startedAt.value <= stamp <= now
    && Finished(status) && (status == Expired ==> IsOverdue(a, stamp))
  }

  ghost predicate AttemptOk(rules: Rules, now: int, a: Attempt) {
    if a.status == NotStarted then Fresh(a)
    else
      && TimesOk(a, now) && a.layout.Some? && rules.draws(a.snapshot, a.layout.value)
      && if a.status == InProgress then a.finishedAt == None && a.result == None && a.timeTakenSeconds == None
         else
           && a.finishedAt.Some? && StampOk(a, a.status, a.finishedAt.value, now)
           && a.result.Some? && Scored(rules, a, a.result.value)
           && a.timeTakenSeconds == TimeTaken(a, a.finishedAt.value)
  }

  /** A stored answer names an option of its own question. */
  predicate AnswerOk(db: Db, key: (Id, Id))
    requires key in db.answers
  {
    && key.0 in db.attempts && db.attempts[key.0].status != NotStarted
    && Offers(db.attempts[key.0].snapshot, key.1, db.answers[key])
  }

  /** A request may close an attempt with this status. */
  predicate MayClose(now: int, db: Db, id: Id, status: Status) {
    && id in db.attempts && db.attempts[id].status != NotStarted
    && Finished(status) && (status == Expired ==> IsOverdue(db.attempts[id], now))
  }

  predicate AfterOk(now: int, db: Db, after: After) {
    match after
    case ThenClose(ids, rest) => (forall id <- ids :: MayClose(now, db, id, Expired)) && AfterOk(now, db, rest)
    case _ => true
  }

  /** An earlier read of a row: the row has only moved forward since. */
  predicate ReadOk(db: Db, id: Id, read: Attempt, status: Status) {
    read.status == status && id in db.attempts && Evolves(read, db.attempts[id])
  }

  ghost predicate PcOk(rules: Rules, now: int, db: Db, pc: Pc) {
    match pc
    case Cutoff(_, after) => AfterOk(now, db, after)
    case FindOverdue(_, cutoff, after) => cutoff <= now - DEADLINE_GRACE_MS && AfterOk(now, db, after)
    case CloseAll(ids, after) => (forall id <- ids :: MayClose(now, db, id, Expired)) && AfterOk(now, db, after)
    case FinishRead(id, status, after) => MayClose(now, db, id, status) && AfterOk(now, db, after)
    case FinishStamp(id, status, read, answers, after) =>
      && MayClose(now, db, id, status) && AfterOk(now, db, after)
      && ReadOk(db, id, read, InProgress) && AttemptOk(rules, now, read)
    case FinishWrite(id, status, result, stamp, seconds, after) =>
      && MayClose(now, db, id, status) && AfterOk(now, db, after)
      && StampOk(db.attempts[id], status, stamp, now) && seconds == TimeTaken(db.attempts[id], stamp)
      && Scored(rules, db.attempts[id], result)
    case StartCheck(_, id, read) => ReadOk(db, id, read, NotStarted)
    case StartStamp(id, read) => ReadOk(db, id, read, NotStarted)
    case StartWrite(id, stamp, layout) =>
      id in db.attempts && stamp <= now && rules.draws(db.attempts[id].snapshot, layout)
    case AnswerCheck(id, read, _, _) => ReadOk(db, id, read, InProgress)
    case AnswerUpsert(id, questionId, optionId) =>
      && id in db.attempts && db.attempts[id].status != NotStarted
      && Offers(db.attempts[id].snapshot, questionId, optionId)
    case SubmitCheck(id, read) => ReadOk(db, id, read, InProgress)
    case _ => true
  }

  ghost predicate AttemptsOk(rules: Rules, now: int, db: Db) {
    forall id <- db.attempts.Keys :: AttemptOk(rules, now, db.attempts[id])
  }

  ghost predicate AnswersOk(db: Db) {
    forall key <- db.answers.Keys :: AnswerOk(db, key)
  }

  ghost predicate RequestsOk(rules: Rules, s: System) {
    forall r <- s.requests.Keys :: PcOk(rules, s.now, s.db, s.requests[r])
  }

  ghost predicate Inv(rules: Rules, s: System) {
    AttemptsOk(rules, s.now, s.db) && AnswersOk(s.db) && RequestsOk(rules, s)
  }

  // ----- Other requests are not disturbed --------------------------------------------------------

  lemma EvolvesTransitive(a: Attempt, b: Attempt, c: Attempt)
    requires Evolves(a, b) && Evolves(b, c)
    ensures Evolves(a, c)
  {
  }

  lemma DbEvolvesRefl(db: Db)
    ensures DbEvolves(db, db)
  {
  }

  lemma MayCloseKept(now: int, db: Db, now': int, db': Db, id: Id, status: Status)
    requires now <= now' && DbEvolves(db, db') && MayClose(now, db, id, status)
    ensures MayClose(now', db', id, status)
  {
  }

  lemma {:induction false} AfterKept(now: int, db: Db, now': int, db': Db, after: After)
    requires now <= now' && DbEvolves(db, db') && AfterOk(now, db, after)
    ensures AfterOk(now', db', after)
  {
    match after {
      case ThenClose(ids, rest) =>
        forall id | id in ids ensures MayClose(now', db', id, Expired) {
          MayCloseKept(now, db, now', db', id, Expired);
        }
        AfterKept(now, db, now', db', rest);
      case _ =>
    }
  }

  lemma ReadKept(db: Db, db': Db, id: Id, read: Attempt, status: Status)
    requires DbEvolves(db, db') && ReadOk(db, id, read, status)
    ensures ReadOk(db', id, read, status)
  {
  }

  /** The part of PcKept about closing an attempt. */
  lemma ClosingKept(rules: Rules, now: int, db: Db, now': int, db': Db, pc: Pc)
    requires pc.FinishRead? || pc.FinishStamp? || pc.FinishWrite?
    requires now <= now' && DbEvolves(db, db') && PcOk(rules, now, db, pc)
    ensures PcOk(rules, now', db', pc)
  {
    MayCloseKept(now, db, now', db', pc.id, pc.status);
    AfterKept(now, db, now', db', pc.after);
    if pc.FinishStamp? { ReadKept(db, db', pc.id, pc.read, InProgress); }
    assert Evolves(db.attempts[pc.id], db'.attempts[pc.id]);
  }

  lemma SweepKept(rules: Rules, now: int, db: Db, now': int, db': Db, pc: Pc)
    requires pc.Cutoff? || pc.FindOverdue? || pc.CloseAll?
    requires now <= now' && DbEvolves(db, db') && PcOk(rules, now, db, pc)
    ensures PcOk(rules, now', db', pc)
  {
    AfterKept(now, db, now', db', pc.after);
    if pc.CloseAll? {
      forall id | id in pc.ids ensures MayClose(now', db', id, Expired) {
        MayCloseKept(now, db, now', db', id, Expired);
      }
    }
  }

  /** Whatever the table and the clock do, a waiting request still knows what it knew. */
  lemma PcKept(rules: Rules, now: int, db: Db, now': int, db': Db, pc: Pc)
    requires now <= now' && DbEvolves(db, db') && PcOk(rules, now, db, pc)
    ensures PcOk(rules, now', db', pc)
  {
    if pc.FinishRead? || pc.FinishStamp? || pc.FinishWrite? {
      ClosingKept(rules, now, db, now', db', pc);
    } else if pc.Cutoff? || pc.FindOverdue? || pc.CloseAll? {
      SweepKept(rules, now, db, now', db', pc);
    } else {
      match pc {
        case StartCheck(_, id, read) => ReadKept(db, db', id, read, NotStarted);
        case StartStamp(id, read) => ReadKept(db, db', id, read, NotStarted);
        case StartWrite(id, _, _) => assert Evolves(db.attempts[id], db'.attempts[id]);
        case AnswerCheck(id, read, _, _) => ReadKept(db, db', id, read, InProgress);
        case AnswerUpsert(id, _, _) => assert Evolves(db.attempts[id], db'.attempts[id]);
        case SubmitCheck(id, read) => ReadKept(db, db', id, read, InProgress);
        case _ =>
      }
    }
  }

  lemma AttemptsKeptByTime(rules: Rules, now: int, db: Db, now': int)
    requires now <= now' && AttemptsOk(rules, now, db)
    ensures AttemptsOk(rules, now', db)
  {
  }

  // ----- One step -----------------------------------------------------------------------------------

  lemma StartedEvolves(rules: Rules, now: int, db: Db, id: Id, stamp: int, layout: seq<LayoutEntry>)
    requires AttemptsOk(rules, now, db) && id in db.attempts && stamp <= now
    requires rules.draws(db.attempts[id].snapshot, layout)
    ensures var db' := UpdateStarted(db, id, stamp, layout);
      DbEvolves(db, db') && AttemptsOk(rules, now, db') && db'.answers == db.answers
  {
  }

  lemma FinishedEvolves(rules: Rules, now: int, db: Db, id: Id, status: Status, stamp: int, result: ScoreResult,
    seconds: Option<int>)
    requires AttemptsOk(rules, now, db) && MayClose(now, db, id, status)
    requires StampOk(db.attempts[id], status, stamp, now) && seconds == TimeTaken(db.attempts[id], stamp)
    requires Scored(rules, db.attempts[id], result)
    ensures var db' := UpdateFinished(db, id, status, stamp, result, seconds);
      DbEvolves(db, db') && AttemptsOk(rules, now, db') && db'.answers == db.answers
  {
    var a := db.attempts[id];
    if a.status == InProgress {
      var b := a.(status := status, finishedAt := Some(stamp), result := Some(result), timeTakenSeconds := seconds);
      assert Scored(rules, b, result);
      assert AttemptOk(rules, now, b);
    }
  }

  /** The answers stay in order when the attempts move forward. */
  lemma AnswersKept(db: Db, db': Db)
    requires AnswersOk(db) && DbEvolves(db, db') && db'.answers == db.answers
    ensures AnswersOk(db')
  {
  }

  /**
   * The time taken is to the nearest second, counted up to the deadline: never
   * negative, and never more than the test's duration.
   */
  lemma TimeTakenInRange(a: Attempt, now: int)
    requires a.startedAt.Some? && a.deadlineAt == Some(a.startedAt.value + a.snapshot.durationMinutes * 60000)
    ensures SecondsOk(a, TimeTaken(a, now))
    ensures a.startedAt.value <= now ==>
      var elapsed := (if now < a.deadlineAt.value then now else a.deadlineAt.value) - a.startedAt.value;
      elapsed - 500 < 1000 * TimeTaken(a, now).value <= elapsed + 500
  {
  }

  /** The sweep's query picks exactly the running attempts that are overdue when it was prepared. */
  lemma SweepAgrees(a: Attempt, scope: Option<Id>, now: int)
    ensures SweepMatches(a, scope, now - DEADLINE_GRACE_MS)
      <==> a.status == InProgress && IsOverdue(a, now) && (scope.Some? ==> a.invitationId == scope.value)
  {
  }

  lemma AnswerStored(rules: Rules, now: int, db: Db, id: Id, questionId: Id, optionId: Id)
    requires AnswersOk(db) && PcOk(rules, now, db, AnswerUpsert(id, questionId, optionId))
    ensures AnswersOk(UpsertAnswer(db, id, questionId, optionId))
  {
  }

  /** The attempts table after a step, and what the step leaves to do. */
  lemma StepKeepsDb(rules: Rules, now: int, db: Db, pc: Pc, db': Db, pc': Pc)
    requires AttemptsOk(rules, now, db) && AnswersOk(db) && PcOk(rules, now, db, pc)
    requires Step(rules, now, db, pc, db', pc')
    ensures DbEvolves(db, db') && AttemptsOk(rules, now, db') && AnswersOk(db')
  {
    if pc.StartWrite? {
      StartWrites(rules, now, db, pc, db', pc');
    } else if pc.FinishWrite? {
      FinishWrites(rules, now, db, pc, db', pc');
    } else if pc.AnswerUpsert? {
      AnswerWrites(rules, now, db, pc, db', pc');
    } else {
      ReadsOnly(rules, now, db, pc, db', pc');
    }
  }

  lemma StartWrites(rules: Rules, now: int, db: Db, pc: Pc, db': Db, pc': Pc)
    requires pc.StartWrite? && AttemptsOk(rules, now, db) && AnswersOk(db) && PcOk(rules, now, db, pc)
    requires Step(rules, now, db, pc, db', pc')
    ensures DbEvolves(db, db') && AttemptsOk(rules, now, db') && AnswersOk(db')
  {
    StartedEvolves(rules, now, db, pc.id, pc.now, pc.layout);
    AnswersKept(db, db');
  }

  lemma FinishWrites(rules: Rules, now: int, db: Db, pc: Pc, db': Db, pc': Pc)
    requires pc.FinishWrite? && AttemptsOk(rules, now, db) && AnswersOk(db) && PcOk(rules, now, db, pc)
    requires Step(rules, now, db, pc, db', pc')
    ensures DbEvolves(db, db') && AttemptsOk(rules, now, db') && AnswersOk(db')
  {
    FinishedEvolves(rules, now, db, pc.id, pc.status, pc.now, pc.result, pc.seconds);
    AnswersKept(db, db');
  }

  lemma AnswerWrites(rules: Rules, now: int, db: Db, pc: Pc, db': Db, pc': Pc)
    requires pc.AnswerUpsert? && AttemptsOk(rules, now, db) && AnswersOk(db) && PcOk(rules, now, db, pc)
    requires Step(rules, now, db, pc, db', pc')
    ensures DbEvolves(db, db') && AttemptsOk(rules, now, db') && AnswersOk(db')
  {
    AnswerStored(rules, now, db, pc.id, pc.questionId, pc.optionId);
  }

  /** The other steps write nothing. */
  lemma ReadsOnly(rules: Rules, now: int, db: Db, pc: Pc, db': Db, pc': Pc)
    requires !pc.StartWrite? && !pc.FinishWrite? && !pc.AnswerUpsert? && Step(rules, now, db, pc, db', pc')
    ensures db' == db && DbEvolves(db, db')
  {
  }

  lemma ResumeOk(rules: Rules, now: int, db: Db, after: After)
    requires AfterOk(now, db, after)
    ensures PcOk(rules, now, db, Resume(after))
  {
  }

  /** What the sweep finds, it may close. */
  lemma SweepStep(rules: Rules, now: int, db: Db, pc: Pc, db': Db, pc': Pc)
    requires pc.Cutoff? || pc.FindOverdue?
    requires AttemptsOk(rules, now, db) && PcOk(rules, now, db, pc)
    requires Step(rules, now, db, pc, db', pc') && DbEvolves(db, db')
    ensures PcOk(rules, now, db', pc')
  {
  }

  lemma CloseStep(rules: Rules, now: int, db: Db, pc: Pc, db': Db, pc': Pc)
    requires pc.CloseAll?
    requires AttemptsOk(rules, now, db) && PcOk(rules, now, db, pc)
    requires Step(rules, now, db, pc, db', pc') && DbEvolves(db, db')
    ensures PcOk(rules, now, db', pc')
  {
  }

  lemma ReadStep(rules: Rules, now: int, db: Db, pc: Pc, db': Db, pc': Pc)
    requires pc.FinishRead?
    requires AttemptsOk(rules, now, db) && PcOk(rules, now, db, pc)
    requires Step(rules, now, db, pc, db', pc') && DbEvolves(db, db')
    ensures PcOk(rules, now, db', pc')
  {
    ResumeOk(rules, now, db, pc.after);
  }

  lemma StampStep(rules: Rules, now: int, db: Db, pc: Pc, db': Db, pc': Pc)
    requires pc.FinishStamp?
    requires AttemptsOk(rules, now, db) && PcOk(rules, now, db, pc)
    requires Step(rules, now, db, pc, db', pc') && DbEvolves(db, db')
    ensures PcOk(rules, now, db', pc')
  {
  }

  lemma WriteStep(rules: Rules, now: int, db: Db, pc: Pc, db': Db, pc': Pc)
    requires pc.FinishWrite?
    requires AttemptsOk(rules, now, db) && PcOk(rules, now, db, pc)
    requires Step(rules, now, db, pc, db', pc') && DbEvolves(db, db')
    ensures PcOk(rules, now, db', pc')
  {
    AfterKept(now, db, now, db', pc.after);
    ResumeOk(rules, now, db', pc.after);
  }

  lemma StartStep(rules: Rules, now: int, db: Db, pc: Pc, db': Db, pc': Pc)
    requires pc.StartFind? || pc.StartCheck? || pc.StartStamp? || pc.StartWrite? || pc.StartReread?
    requires AttemptsOk(rules, now, db) && PcOk(rules, now, db, pc)
    requires Step(rules, now, db, pc, db', pc') && DbEvolves(db, db')
    ensures PcOk(rules, now, db', pc')
  {
  }

  lemma AnswerStep(rules: Rules, now: int, db: Db, pc: Pc, db': Db, pc': Pc)
    requires pc.AnswerFind? || pc.AnswerCheck? || pc.AnswerUpsert?
    requires AttemptsOk(rules, now, db) && PcOk(rules, now, db, pc)
    requires Step(rules, now, db, pc, db', pc') && DbEvolves(db, db')
    ensures PcOk(rules, now, db', pc')
  {
    if pc.AnswerCheck? { assert Evolves(pc.read, db.attempts[pc.id]); }
  }

  lemma SubmitStep(rules: Rules, now: int, db: Db, pc: Pc, db': Db, pc': Pc)
    requires pc.SubmitFind? || pc.SubmitCheck? || pc.ReadStatus?
    requires AttemptsOk(rules, now, db) && PcOk(rules, now, db, pc)
    requires Step(rules, now, db, pc, db', pc') && DbEvolves(db, db')
    ensures PcOk(rules, now, db', pc')
  {
    if pc.SubmitCheck? { assert Evolves(pc.read, db.attempts[pc.id]); }
  }

  lemma FinishStep(rules: Rules, now: int, db: Db, pc: Pc, db': Db, pc': Pc)
    requires pc.FinishRead? || pc.FinishStamp? || pc.FinishWrite?
    requires AttemptsOk(rules, now, db) && PcOk(rules, now, db, pc)
    requires Step(rules, now, db, pc, db', pc') && DbEvolves(db, db')
    ensures PcOk(rules, now, db', pc')
  {
    if pc.FinishRead? { ReadStep(rules, now, db, pc, db', pc'); }
    else if pc.FinishStamp? { StampStep(rules, now, db, pc, db', pc'); }
    else { WriteStep(rules, now, db, pc, db', pc'); }
  }

  /** What a request knows after its step. */
  lemma StepKeepsPc(rules: Rules, now: int, db: Db, pc: Pc, db': Db, pc': Pc)
    requires AttemptsOk(rules, now, db) && PcOk(rules, now, db, pc)
    requires Step(rules, now, db, pc, db', pc') && DbEvolves(db, db')
    ensures PcOk(rules, now, db', pc')
  {
    if pc.Cutoff? || pc.FindOverdue? {
      SweepStep(rules, now, db, pc, db', pc');
    } else if pc.CloseAll? {
      CloseStep(rules, now, db, pc, db', pc');
    } else if pc.FinishRead? || pc.FinishStamp? || pc.FinishWrite? {
      FinishStep(rules, now, db, pc, db', pc');
    } else {
      CandidateStep(rules, now, db, pc, db', pc');
    }
  }

  /** The steps of a candidate's requests, apart from closing. */
  lemma CandidateStep(rules: Rules, now: int, db: Db, pc: Pc, db': Db, pc': Pc)
    requires !pc.Cutoff? && !pc.FindOverdue? && !pc.CloseAll? && !pc.FinishRead? && !pc.FinishStamp? && !pc.FinishWrite?
    requires AttemptsOk(rules, now, db) && PcOk(rules, now, db, pc)
    requires Step(rules, now, db, pc, db', pc') && DbEvolves(db, db')
    ensures PcOk(rules, now, db', pc')
  {
    if pc.AnswerFind? || pc.AnswerCheck? || pc.AnswerUpsert? {
      AnswerStep(rules, now, db, pc, db', pc');
    } else if pc.SubmitFind? || pc.SubmitCheck? || pc.ReadStatus? {
      SubmitStep(rules, now, db, pc, db', pc');
    } else if pc != Done {
      StartStep(rules, now, db, pc, db', pc');
    }
  }

  // ----- Every move, every run ---------------------------------------------------------------------

  lemma OthersKept(rules: Rules, s: System, s': System, request: nat)
    requires Inv(rules, s) && s.now <= s'.now && DbEvolves(s.db, s'.db)
    requires forall r <- s'.requests.Keys :: r == request || (r in s.requests && s'.requests[r] == s.requests[r])
    requires request in s'.requests ==> PcOk(rules, s'.now, s'.db, s'.requests[request])
    ensures RequestsOk(rules, s')
  {
    forall r | r in s'.requests.Keys ensures PcOk(rules, s'.now, s'.db, s'.requests[r]) {
      if r != request { PcKept(rules, s.now, s.db, s'.now, s'.db, s.requests[r]); }
    }
  }

  lemma EntryOk(rules: Rules, now: int, db: Db, pc: Pc)
    requires Entry(pc)
    ensures PcOk(rules, now, db, pc)
  {
  }

  lemma RequestKeepsInv(rules: Rules, s: System, request: nat, s': System)
    requires Inv(rules, s) && Moves(rules, s, Run(request), s')
    ensures Inv(rules, s') && DbEvolves(s.db, s'.db)
  {
    assert PcOk(rules, s.now, s.db, s.requests[request]);
    StepKeepsDb(rules, s.now, s.db, s.requests[request], s'.db, s'.requests[request]);
    StepKeepsPc(rules, s.now, s.db, s.requests[request], s'.db, s'.requests[request]);
    OthersKept(rules, s, s', request);
  }

  lemma NextKeepsInv(rules: Rules, s: System, s': System)
    requires Inv(rules, s) && Next(rules, s, s')
    ensures Inv(rules, s') && DbEvolves(s.db, s'.db) && s.now <= s'.now
  {
    var move :| Moves(rules, s, move, s');
    match move {
      case Tick =>
        AttemptsKeptByTime(rules, s.now, s.db, s'.now);
        if request :| request in s'.requests {
          PcKept(rules, s.now, s.db, s'.now, s'.db, s.requests[request]);
          OthersKept(rules, s, s', request);
        }
      case Send(id) =>
        AnswersKept(s.db, s'.db);
        if request :| request in s'.requests {
          PcKept(rules, s.now, s.db, s'.now, s'.db, s.requests[request]);
          OthersKept(rules, s, s', request);
        }
      case Arrive(request) =>
        EntryOk(rules, s'.now, s'.db, s'.requests[request]);
        OthersKept(rules, s, s', request);
      case Run(request) => RequestKeepsInv(rules, s, request, s');
    }
  }

  /** Every state of every run satisfies the invariant. */
  lemma {:induction false} RunKeepsInv(rules: Rules, run: seq<System>, n: nat)
    requires IsRun(rules, run) && n < |run|
    ensures Inv(rules, run[n])
  {
    if n > 0 {
      RunKeepsInv(rules, run, n - 1);
      assert Next(rules, run[n - 1], run[n]);
      NextKeepsInv(rules, run[n - 1], run[n]);
    }
  }

  /** Between any two states of a run, every attempt has only moved forward. */
  lemma {:induction false} AttemptsMoveForward(rules: Rules, run: seq<System>, i: nat, j: nat)
    requires IsRun(rules, run) && i <= j < |run|
    ensures DbEvolves(run[i].db, run[j].db)
    decreases j
  {
    if i == j {
      DbEvolvesRefl(run[i].db);
    } else {
      AttemptsMoveForward(rules, run, i, j - 1);
      RunKeepsInv(rules, run, j - 1);
      assert Next(rules, run[j - 1], run[j]);
      NextKeepsInv(rules, run[j - 1], run[j]);
      forall id | id in run[i].db.attempts.Keys
        ensures id in run[j].db.attempts && Evolves(run[i].db.attempts[id], run[j].db.attempts[id])
      {
        EvolvesTransitive(run[i].db.attempts[id], run[j - 1].db.attempts[id], run[j].db.attempts[id]);
      }
    }
  }

  /** The attempt has this status at step k of the run, and another one at step k + 1. */
  predicate LeavesAt(run: seq<System>, id: Id, k: nat, status: Status)
    requires k + 1 < |run|
  {
    && id in run[k].db.attempts && run[k].db.attempts[id].status == status
    && id in run[k + 1].db.attempts && run[k + 1].db.attempts[id].status != status
  }

  lemma NeverBack(a: Attempt, b: Attempt, c: Attempt)
    requires Evolves(a, b) && Evolves(b, c) && a.status != b.status
    ensures c.status != a.status
  {
  }

  /** An attempt leaves NOT_STARTED at most once, and IN_PROGRESS at most once. */
  lemma LeavesOnce(rules: Rules, run: seq<System>, id: Id, i: nat, j: nat, status: Status)
    requires IsRun(rules, run) && i < |run| - 1 && j < |run| - 1
    requires LeavesAt(run, id, i, status) && LeavesAt(run, id, j, status)
    ensures i == j
  {
    if i < j {
      AttemptsMoveForward(rules, run, i, i + 1);
      AttemptsMoveForward(rules, run, i + 1, j);
      NeverBack(run[i].db.attempts[id], run[i + 1].db.attempts[id], run[j].db.attempts[id]);
    } else if j < i {
      LeavesOnce(rules, run, id, j, i, status);
    }
  }
}
