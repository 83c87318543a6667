/**
 * When a result matches the stored answers: for one attempt among any number of
 * requests, and for requests one at a time. Also the link guard's clock, and what
 * the live rules of scoring and drawing add.
 */
module AttemptOrders {
  import opened Basics
  import opened Snapshots
  import opened Shuffle
  import opened Layout
  import opened Scoring
  import opened Attempts
  import opened AttemptLaws
  import TakeView

  // ----- Settled attempts --------------------------------------------------------------------

  /** The score of what is stored for an attempt now. */
  function StoredScore(rules: Rules, db: Db, id: Id): ScoreResult
    requires id in db.attempts
  {
    rules.score(db.attempts[id].snapshot, AnswersOf(db, id))
  }

  /** A finished attempt's result is the score of its stored answers. */
  predicate SettledAttempt(rules: Rules, db: Db, id: Id)
    requires id in db.attempts
  {
    Finished(db.attempts[id].status) ==> db.attempts[id].result == Some(StoredScore(rules, db, id))
  }

  ghost predicate Settled(rules: Rules, db: Db) {
    forall id <- db.attempts.Keys :: SettledAttempt(rules, db, id)
  }

  predicate Running(db: Db, id: Id) { id in db.attempts && db.attempts[id].status == InProgress }

  /** What a request is about to record for the attempt is the score of its stored answers. */
  predicate HoldsScore(rules: Rules, db: Db, id: Id, pc: Pc)
    requires id in db.attempts
  {
    match pc
    case FinishStamp(i, _, read, answers, _) =>
      i == id ==> rules.score(read.snapshot, answers) == StoredScore(rules, db, id)
    case FinishWrite(i, _, result, _, _, _) => i == id ==> result == StoredScore(rules, db, id)
    case _ => true
  }

  /** The attempt's result, and any result about to be recorded, is the score of its stored answers. */
  ghost predicate SettledFor(rules: Rules, s: System, id: Id) {
    id in s.db.attempts ==>
      SettledAttempt(rules, s.db, id) && forall r <- s.requests.Keys :: HoldsScore(rules, s.db, id, s.requests[r])
  }

  /** The request holds the answers, or the result, that an attempt is being closed with. */
  predicate Closing(pc: Pc, id: Id) { (pc.FinishStamp? || pc.FinishWrite?) && pc.id == id }

  ghost predicate NoneClosing(s: System, id: Id) { forall r <- s.requests.Keys :: !Closing(s.requests[r], id) }

  /** Too late for an answer: the attempt is finished, or some request has read its answers to finish it. */
  ghost predicate Late(s: System, id: Id) {
    id in s.db.attempts && (Finished(s.db.attempts[id].status) || !NoneClosing(s, id))
  }

  /** The move stores an answer of the attempt. */
  predicate Stores(s: System, move: Move, id: Id) {
    && move.Run? && move.request in s.requests
    && s.requests[move.request].AnswerUpsert? && s.requests[move.request].id == id
  }

  /** The move does not store an answer late, or the answer does not change the score. */
  ghost predicate Harmless(rules: Rules, s: System, move: Move, id: Id) {
    Stores(s, move, id) && Late(s, id) ==>
      var pc, test := s.requests[move.request], s.db.attempts[id].snapshot;
      rules.score(test, AnswersOf(s.db, id)[pc.questionId := pc.optionId]) == rules.score(test, AnswersOf(s.db, id))
  }

  /** Storing an answer of one attempt leaves the answers of the others. */
  lemma OtherAnswersStay(db: Db, id: Id, questionId: Id, optionId: Id, other: Id)
    ensures AnswersOf(UpsertAnswer(db, id, questionId, optionId), other)
      == if other == id then AnswersOf(db, id)[questionId := optionId] else AnswersOf(db, other)
  {
  }

  lemma SameAnswers(db: Db, db': Db, id: Id)
    requires db.answers == db'.answers
    ensures AnswersOf(db, id) == AnswersOf(db', id)
  {
  }

  /** Only storing one of its own answers changes what is stored for an attempt. */
  lemma AnswersStay(rules: Rules, s: System, move: Move, s': System, id: Id)
    requires Moves(rules, s, move, s') && !Stores(s, move, id)
    ensures AnswersOf(s'.db, id) == AnswersOf(s.db, id)
  {
    if move.Run? && s.requests[move.request].AnswerUpsert? {
      var pc := s.requests[move.request];
      OtherAnswersStay(s.db, pc.id, pc.questionId, pc.optionId, id);
    } else {
      SameAnswers(s.db, s'.db, id);
    }
  }

  lemma ScoreStays(rules: Rules, s: System, move: Move, s': System, id: Id)
    requires Inv(rules, s) && Moves(rules, s, move, s') && !Stores(s, move, id) && id in s.db.attempts
    ensures id in s'.db.attempts && StoredScore(rules, s'.db, id) == StoredScore(rules, s.db, id)
  {
    NextKeepsInv(rules, s, s');
    AnswersStay(rules, s, move, s', id);
    assert Evolves(s.db.attempts[id], s'.db.attempts[id]);
  }

  /** What a step records for the attempt, its request held. */
  lemma StepRecords(rules: Rules, now: int, db: Db, pc: Pc, db': Db, pc': Pc, id: Id)
    requires Step(rules, now, db, pc, db', pc') && id in db.attempts && id in db'.attempts
    requires SettledAttempt(rules, db, id) && HoldsScore(rules, db, id, pc)
    requires StoredScore(rules, db', id) == StoredScore(rules, db, id)
    ensures SettledAttempt(rules, db', id)
  {
  }

  /** What a request reads to close an attempt is what is stored. */
  lemma StepHolds(rules: Rules, now: int, db: Db, pc: Pc, db': Db, pc': Pc, id: Id)
    requires Step(rules, now, db, pc, db', pc') && id in db.attempts && id in db'.attempts
    requires HoldsScore(rules, db, id, pc) && StoredScore(rules, db', id) == StoredScore(rules, db, id)
    ensures HoldsScore(rules, db', id, pc')
  {
  }

  lemma RunSettles(rules: Rules, s: System, request: nat, s': System, id: Id)
    requires Inv(rules, s) && Moves(rules, s, Run(request), s') && !Stores(s, Run(request), id)
    requires SettledFor(rules, s, id)
    ensures SettledFor(rules, s', id)
  {
    var pc, pc' := s.requests[request], s'.requests[request];
    if id in s.db.attempts {
      ScoreStays(rules, s, Run(request), s', id);
      StepRecords(rules, s.now, s.db, pc, s'.db, pc', id);
      StepHolds(rules, s.now, s.db, pc, s'.db, pc', id);
    }
  }

  /** A new attempt is not finished, and no request can be closing it. */
  lemma OtherMoveSettles(rules: Rules, s: System, move: Move, s': System, id: Id)
    requires Inv(rules, s) && Moves(rules, s, move, s') && !move.Run? && SettledFor(rules, s, id)
    ensures SettledFor(rules, s', id)
  {
    if id in s.db.attempts {
      ScoreStays(rules, s, move, s', id);
    } else if id in s'.db.attempts {
      forall r | r in s'.requests ensures HoldsScore(rules, s'.db, id, s'.requests[r]) {
        assert PcOk(rules, s.now, s.db, s.requests[r]);
      }
    }
  }

  /** When the stored answers change, what a closing request holds is right exactly if the score stays. */
  lemma HeldSettles(rules: Rules, db: Db, db': Db, id: Id, pc: Pc)
    requires id in db.attempts && id in db'.attempts && HoldsScore(rules, db, id, pc)
    ensures HoldsScore(rules, db', id, pc)
      <==> !Closing(pc, id) || StoredScore(rules, db', id) == StoredScore(rules, db, id)
  {
  }

  lemma StoredNext(rules: Rules, s: System, request: nat, s': System, id: Id)
    requires Inv(rules, s) && Moves(rules, s, Run(request), s') && Stores(s, Run(request), id)
    ensures id in s.db.attempts && s'.db.attempts == s.db.attempts
    ensures var pc := s.requests[request];
      StoredScore(rules, s'.db, id)
      == rules.score(s.db.attempts[id].snapshot, AnswersOf(s.db, id)[pc.questionId := pc.optionId])
  {
    var pc := s.requests[request];
    OtherAnswersStay(s.db, id, pc.questionId, pc.optionId, id);
    assert PcOk(rules, s.now, s.db, pc);
  }

  /** What the closing requests hold after an answer is stored. */
  lemma StoreHeld(rules: Rules, s: System, request: nat, s': System, id: Id)
    requires Moves(rules, s, Run(request), s') && Stores(s, Run(request), id)
    requires id in s.db.attempts && id in s'.db.attempts && SettledFor(rules, s, id)
    ensures (forall r <- s'.requests.Keys :: HoldsScore(rules, s'.db, id, s'.requests[r]))
      <==> StoredScore(rules, s'.db, id) == StoredScore(rules, s.db, id) || NoneClosing(s, id)
  {
    forall r | r in s.requests
      ensures HoldsScore(rules, s'.db, id, s'.requests[r])
        <==> !Closing(s.requests[r], id) || StoredScore(rules, s'.db, id) == StoredScore(rules, s.db, id)
    {
      if r != request { HeldSettles(rules, s.db, s'.db, id, s.requests[r]); }
    }
    assert s'.requests.Keys == s.requests.Keys;
  }

  /** Storing an answer leaves an attempt settled exactly when it is not late, or changes no score. */
  lemma StoreSettles(rules: Rules, s: System, request: nat, s': System, id: Id)
    requires Inv(rules, s) && Moves(rules, s, Run(request), s') && Stores(s, Run(request), id)
    requires SettledFor(rules, s, id)
    ensures SettledFor(rules, s', id) <==> Harmless(rules, s, Run(request), id)
  {
    StoredNext(rules, s, request, s', id);
    StoreHeld(rules, s, request, s', id);
  }

  /** Whatever the other requests do, one move keeps a settled attempt settled exactly when it is harmless. */
  lemma MoveSettles(rules: Rules, s: System, move: Move, s': System, id: Id)
    requires Inv(rules, s) && Moves(rules, s, move, s') && SettledFor(rules, s, id)
    ensures SettledFor(rules, s', id) <==> Harmless(rules, s, move, id)
  {
    if Stores(s, move, id) {
      StoreSettles(rules, s, move.request, s', id);
    } else if move.Run? {
      RunSettles(rules, s, move.request, s', id);
    } else {
      OtherMoveSettles(rules, s, move, s', id);
    }
  }

  /** No answer of the attempt that changes its score is ever stored late. */
  ghost predicate HarmlessRun(rules: Rules, run: seq<System>, id: Id) {
    forall k: nat, move :: k < |run| - 1 && Moves(rules, run[k], move, run[k + 1]) ==> Harmless(rules, run[k], move, id)
  }

  lemma {:induction false} HarmlessSettles(rules: Rules, run: seq<System>, id: Id, k: nat)
    requires IsRun(rules, run) && HarmlessRun(rules, run, id) && k < |run|
    ensures SettledFor(rules, run[k], id)
  {
    if k > 0 {
      HarmlessSettles(rules, run, id, k - 1);
      RunKeepsInv(rules, run, k - 1);
      assert Next(rules, run[k - 1], run[k]);
      var move :| Moves(rules, run[k - 1], move, run[k]);
      MoveSettles(rules, run[k - 1], move, run[k], id);
    }
  }

  /**
   * In any interleaving an attempt is settled throughout, with whatever is about
   * to be recorded for it, if and only if no answer of its own that changes its
   * score is stored once it is finished or being closed.
   */
  lemma SettledExactly(rules: Rules, run: seq<System>, id: Id)
    requires IsRun(rules, run)
    ensures (forall k: nat :: k < |run| ==> SettledFor(rules, run[k], id)) <==> HarmlessRun(rules, run, id)
  {
    if HarmlessRun(rules, run, id) {
      forall k: nat | k < |run| ensures SettledFor(rules, run[k], id) { HarmlessSettles(rules, run, id, k); }
    }
    if forall k: nat :: k < |run| ==> SettledFor(rules, run[k], id) {
      forall k: nat, move | k < |run| - 1 && Moves(rules, run[k], move, run[k + 1])
        ensures Harmless(rules, run[k], move, id)
      {
        RunKeepsInv(rules, run, k);
        MoveSettles(rules, run[k], move, run[k + 1], id);
      }
    }
  }

  /** An answer stored after the attempt was finished: settled exactly when it changes no score. */
  lemma StoreAfterFinish(rules: Rules, db: Db, id: Id, questionId: Id, optionId: Id)
    requires id in db.attempts && Finished(db.attempts[id].status) && SettledAttempt(rules, db, id)
    ensures var test, answers := db.attempts[id].snapshot, AnswersOf(db, id);
      SettledAttempt(rules, UpsertAnswer(db, id, questionId, optionId), id)
      <==> rules.score(test, answers[questionId := optionId]) == rules.score(test, answers)
  {
    OtherAnswersStay(db, id, questionId, optionId, id);
  }

  /** An answer stored between the read and the write of a closing request: settled exactly when it changes no score. */
  lemma StoreBeforeWrite(rules: Rules, db: Db, id: Id, questionId: Id, optionId: Id, status: Status, stamp: int,
    seconds: Option<int>)
    requires Running(db, id) && Finished(status)
    ensures var test, answers := db.attempts[id].snapshot, AnswersOf(db, id);
      var stored, result := UpsertAnswer(db, id, questionId, optionId), rules.score(test, answers);
      SettledAttempt(rules, UpdateFinished(stored, id, status, stamp, result, seconds), id)
      <==> rules.score(test, answers[questionId := optionId]) == rules.score(test, answers)
  {
    var stored := UpsertAnswer(db, id, questionId, optionId);
    OtherAnswersStay(db, id, questionId, optionId, id);
    SameAnswers(stored, UpdateFinished(stored, id, status, stamp, StoredScore(rules, db, id), seconds), id);
  }

  // ----- One request at a time --------------------------------------------------------------

  /** At most one request is under way. */
  ghost predicate OneAtATime(s: System) {
    forall r, q :: r in s.requests && q in s.requests && s.requests[r] != Done && s.requests[q] != Done ==> r == q
  }

  ghost predicate IsSerial(run: seq<System>) {
    forall s <- run :: OneAtATime(s)
  }

  ghost predicate AllSettled(rules: Rules, s: System) {
    Settled(rules, s.db) && forall id: Id :: SettledFor(rules, s, id)
  }

  /** An answer is only on its way to an attempt that is still running. */
  ghost predicate AnswersOpen(s: System) {
    forall r <- s.requests.Keys ::
      s.requests[r].AnswerCheck? || s.requests[r].AnswerUpsert? ==> Running(s.db, s.requests[r].id)
  }

  /** The step of the one request under way: an answer it goes on to store is for an attempt still running. */
  lemma OwnStepOpen(rules: Rules, now: int, db: Db, pc: Pc, db': Db, pc': Pc)
    requires PcOk(rules, now, db, pc) && Step(rules, now, db, pc, db', pc')
    requires pc.AnswerCheck? || pc.AnswerUpsert? ==> Running(db, pc.id)
    ensures pc'.AnswerCheck? || pc'.AnswerUpsert? ==> Running(db', pc'.id)
  {
    match pc {
      case FinishRead(_, _, after) => ResumeAnswers(after);
      case FinishWrite(_, _, _, _, _, after) => ResumeAnswers(after);
      case CloseAll(_, after) => ResumeAnswers(after);
      case _ =>
    }
  }

  lemma ResumeAnswers(after: After)
    ensures !Resume(after).AnswerCheck? && !Resume(after).AnswerUpsert?
  {
  }

  lemma OthersDone(s: System, s': System, request: nat)
    requires OneAtATime(s) && request in s.requests && s.requests[request] != Done && request in s'.requests
    requires s'.requests == s.requests[request := s'.requests[request]]
    ensures forall q <- s'.requests.Keys :: q == request || s'.requests[q] == Done
  {
    forall q | q in s'.requests && q != request ensures s'.requests[q] == Done {
      assert s'.requests[q] == s.requests[q];
    }
  }

  lemma SerialStepOpen(rules: Rules, s: System, s': System)
    requires Inv(rules, s) && AnswersOpen(s) && OneAtATime(s) && Next(rules, s, s')
    ensures AnswersOpen(s')
  {
    var move :| Moves(rules, s, move, s');
    if move.Run? { SerialRunOpen(rules, s, move.request, s'); }
  }

  lemma SerialRunOpen(rules: Rules, s: System, request: nat, s': System)
    requires Inv(rules, s) && AnswersOpen(s) && OneAtATime(s) && Moves(rules, s, Run(request), s')
    ensures AnswersOpen(s')
  {
    assert PcOk(rules, s.now, s.db, s.requests[request]);
    OwnStepOpen(rules, s.now, s.db, s.requests[request], s'.db, s'.requests[request]);
    OthersDone(s, s', request);
  }

  lemma {:induction false} SerialOpen(rules: Rules, run: seq<System>, k: nat)
    requires IsRun(rules, run) && IsSerial(run) && k < |run|
    ensures AnswersOpen(run[k])
  {
    if k > 0 {
      SerialOpen(rules, run, k - 1);
      SerialNextOpen(rules, run, k - 1);
    }
  }

  lemma SerialNextOpen(rules: Rules, run: seq<System>, k: nat)
    requires IsRun(rules, run) && IsSerial(run) && k + 1 < |run| && AnswersOpen(run[k])
    ensures AnswersOpen(run[k + 1])
  {
    RunKeepsInv(rules, run, k);
    assert Next(rules, run[k], run[k + 1]) && run[k] in run;
    SerialStepOpen(rules, run[k], run[k + 1]);
  }

  /** With nothing else under way, no answer is late. */
  lemma SerialHarmless(rules: Rules, run: seq<System>, id: Id)
    requires IsRun(rules, run) && IsSerial(run)
    ensures HarmlessRun(rules, run, id)
  {
    forall k: nat, move | k < |run| - 1 && Moves(rules, run[k], move, run[k + 1])
      ensures Harmless(rules, run[k], move, id)
    {
      SerialOpen(rules, run, k);
      assert run[k] in run;
    }
  }

  /**
   * So when requests run one at a time, a finished attempt's result is the score of its
   * stored answers for ever after.
   */
  lemma SerialRunsSettle(rules: Rules, run: seq<System>, k: nat)
    requires IsRun(rules, run) && IsSerial(run) && k < |run|
    ensures AllSettled(rules, run[k])
  {
    forall id: Id ensures SettledFor(rules, run[k], id) {
      SerialHarmless(rules, run, id);
      HarmlessSettles(rules, run, id, k);
    }
    forall id | id in run[k].db.attempts ensures SettledAttempt(rules, run[k].db, id) {
      assert SettledFor(rules, run[k], id);
    }
  }

  // ----- The guard ------------------------------------------------------------------------------

  /** The guard's test for an attempt that keeps an expired link open. */
  predicate StillRunning(a: Attempt, now: int) {
    a.status == InProgress && a.deadlineAt.Some? && a.deadlineAt.value + DEADLINE_GRACE_MS > now
  }

  /**
   * In every reachable state, an attempt in progress is overdue, or counted as
   * running by the guard, or at the one millisecond where it is neither.
   */
  lemma RunningIsNotOverdue(rules: Rules, run: seq<System>, k: nat, id: Id)
    requires IsRun(rules, run) && k < |run| && id in run[k].db.attempts
    requires run[k].db.attempts[id].status == InProgress
    ensures var a, now := run[k].db.attempts[id], run[k].now;
      && a.deadlineAt.Some?
      && !(StillRunning(a, now) && IsOverdue(a, now))
      && (StillRunning(a, now) || IsOverdue(a, now) <==> now != a.deadlineAt.value + DEADLINE_GRACE_MS)
  {
    RunKeepsInv(rules, run, k);
    assert AttemptOk(rules, run[k].now, run[k].db.attempts[id]);
  }

  // ----- The live rules ---------------------------------------------------------------------------

  /** A layout some source of numbers draws. */
  ghost predicate Drawn(s: Snapshot, layout: seq<LayoutEntry>) {
    exists random: Random, at: nat :: IsRandom(random) && layout == BuildLayout(s, random, at)
  }

  ghost const LIVE := Rules((s: Snapshot, answers: Answers) => ScoreAttempt(s, answers),
    (s: Snapshot, layout: seq<LayoutEntry>) => Drawn(s, layout))

  /** Whatever happens, a started attempt's layout shows every question and option of its test. */
  lemma StartedShowsEverything(run: seq<System>, k: nat, id: Id)
    requires IsRun(LIVE, run) && k < |run| && id in run[k].db.attempts
    requires run[k].db.attempts[id].status != NotStarted && KeysUnique(run[k].db.attempts[id].snapshot)
    ensures var a := run[k].db.attempts[id];
      && a.layout.Some? && LayoutFor(a.layout.value, a.snapshot)
      && exists order: seq<SnapshotQuestion> :: SameItems(order, a.snapshot.questions)
           && TakeView.ShownInOrder(TakeView.TakeQuestions(a.snapshot, a.layout.value), a.layout.value, order)
  {
    RunKeepsInv(LIVE, run, k);
    var a := run[k].db.attempts[id];
    assert AttemptOk(LIVE, run[k].now, a);
    assert Drawn(a.snapshot, a.layout.value);
    var random: Random, at: nat :| IsRandom(random) && a.layout.value == BuildLayout(a.snapshot, random, at);
    LayoutIsForTest(a.snapshot, random, at);
    TakeView.EverythingShown(a.snapshot, a.layout.value);
  }

  /** A test offers exactly the options its questions have. */
  lemma OffersMeans(s: Snapshot, questionId: Id, optionId: Id)
    requires DistinctQuestions(s.questions)
    ensures Offers(s, questionId, optionId)
      <==> exists q <- s.questions :: q.id == questionId && exists o <- q.options :: o.id == optionId
  {
    var at := Find((q: SnapshotQuestion) => q.id == questionId, s.questions);
    forall q | q in s.questions && q.id == questionId ensures at < |s.questions| && q == s.questions[at] {
      var i :| 0 <= i < |s.questions| && s.questions[i] == q;
    }
  }

  /** A stored answer is one the scoring finds: no answer is lost for naming a foreign option. */
  lemma StoredAnswersCount(run: seq<System>, k: nat, key: (Id, Id))
    requires IsRun(LIVE, run) && k < |run| && key in run[k].db.answers
    ensures key.0 in run[k].db.attempts
    ensures exists q <- run[k].db.attempts[key.0].snapshot.questions ::
      q.id == key.1 && Answered(q, AnswersOf(run[k].db, key.0))
  {
    RunKeepsInv(LIVE, run, k);
    var db := run[k].db;
    assert AnswerOk(db, key);
    var answers := AnswersOf(db, key.0);
    assert key.1 in answers && answers[key.1] == db.answers[key];
    OfferedIsAnswered(db.attempts[key.0].snapshot, key.1, answers);
  }

  lemma OfferedIsAnswered(s: Snapshot, questionId: Id, answers: Answers)
    requires questionId in answers && Offers(s, questionId, answers[questionId])
    ensures exists q <- s.questions :: q.id == questionId && Answered(q, answers)
  {
    var i := Find((q: SnapshotQuestion) => q.id == questionId, s.questions);
    assert s.questions[i] in s.questions && Answered(s.questions[i], answers);
  }
}
