/**
 * Two requests at once: an answer checked before a submit may be stored after
 * it. For which tests a recorded result can then differ from the score of the
 * stored answers.
 */
module AttemptRace {
  import opened Basics
  import opened Questions
  import opened Snapshots
  import opened Shuffle
  import opened Layout
  import opened Scoring
  import opened ScoringLaws
  import opened Attempts
  import opened AttemptLaws
  import opened AttemptOrders
  import TakeView

  ghost predicate Reachable(rules: Rules, s: System) {
    exists run: seq<System> :: IsRun(rules, run) && run[|run| - 1] == s
  }

  lemma StepsOn(rules: Rules, s: System, s': System)
    requires Reachable(rules, s) && Next(rules, s, s')
    ensures Reachable(rules, s')
  {
    var run: seq<System> :| IsRun(rules, run) && run[|run| - 1] == s;
    var longer := run + [s'];
    forall i | 0 <= i < |longer| - 1 ensures Next(rules, longer[i], longer[i + 1]) {
      if i < |run| - 1 { assert Next(rules, run[i], run[i + 1]); }
    }
    assert IsRun(rules, longer) && longer[|longer| - 1] == s';
  }

  // ----- Carrying a request on -----------------------------------------------------------------

  /** Where the run stands when request r of `rest` is at `pc`. */
  ghost predicate At(rules: Rules, now: int, db: Db, rest: map<nat, Pc>, r: nat, pc: Pc) {
    Reachable(rules, System(now, db, rest[r := pc]))
  }

  lemma Ran(rules: Rules, now: int, db: Db, rest: map<nat, Pc>, r: nat, pc: Pc, db': Db, pc': Pc)
    requires At(rules, now, db, rest, r, pc) && Step(rules, now, db, pc, db', pc')
    ensures At(rules, now, db', rest, r, pc')
  {
    var s, s' := System(now, db, rest[r := pc]), System(now, db', rest[r := pc']);
    assert s'.requests == s.requests[r := pc'];
    assert Moves(rules, s, Run(r), s');
    StepsOn(rules, s, s');
  }

  lemma Arrived(rules: Rules, now: int, db: Db, rest: map<nat, Pc>, r: nat, pc: Pc)
    requires Reachable(rules, System(now, db, rest)) && r !in rest && Entry(pc)
    ensures At(rules, now, db, rest, r, pc)
  {
    var s, s' := System(now, db, rest), System(now, db, rest[r := pc]);
    assert Moves(rules, s, Arrive(r), s');
    StepsOn(rules, s, s');
  }

  /** There is always a number for one more request. */
  lemma {:induction false} Unused(numbers: set<nat>) returns (r: nat)
    ensures forall n <- numbers :: n < r
  {
    if numbers == {} {
      r := 0;
    } else {
      var n :| n in numbers;
      var below := Unused(numbers - {n});
      r := if n < below then below else n + 1;
      assert forall m <- numbers :: m == n || m in numbers - {n};
    }
  }

  // ----- Starting an attempt -----------------------------------------------------------------

  function Sheet(link: Link, test: Snapshot): Attempt {
    Attempt(link.id, test, NotStarted, None, None, None, None, None, None)
  }

  function Started(link: Link, test: Snapshot, layout: seq<LayoutEntry>): Attempt {
    Attempt(link.id, test, InProgress, Some(0), Some(test.durationMinutes * 60000), Some(layout), None, None, None)
  }

  /** An attempts table with one row, and no answers yet. */
  function One(id: Id, a: Attempt): Db { Db(map[id := a], map[]) }

  lemma Sent(rules: Rules, id: Id, a: Attempt)
    requires Fresh(a)
    ensures Reachable(rules, System(0, One(id, a), map[]))
  {
    var s, s' := System(0, Db(map[], map[]), map[]), System(0, One(id, a), map[]);
    assert IsRun(rules, [s]) && [s][|[s]| - 1] == s;
    assert s'.db.attempts == s.db.attempts[id := a];
    assert Moves(rules, s, Send(id), s');
    StepsOn(rules, s, s');
  }

  /** The overdue sweep of a start finds nothing to close. */
  lemma NothingOverdue(rules: Rules, rest: map<nat, Pc>, r: nat, link: Link, id: Id, a: Attempt)
    requires a.status == NotStarted && At(rules, 0, One(id, a), rest, r, Cutoff(Some(link.id), ThenStart(link, id)))
    ensures At(rules, 0, One(id, a), rest, r, StartFind(link, id))
  {
    var db, scope, after := One(id, a), Some(link.id), ThenStart(link, id);
    Ran(rules, 0, db, rest, r, Cutoff(scope, after), db, FindOverdue(scope, 0 - DEADLINE_GRACE_MS, after));
    Ran(rules, 0, db, rest, r, FindOverdue(scope, 0 - DEADLINE_GRACE_MS, after), db, CloseAll([], after));
    Ran(rules, 0, db, rest, r, CloseAll([], after), db, StartFind(link, id));
  }

  lemma Starting(rules: Rules, rest: map<nat, Pc>, r: nat, link: Link, id: Id, test: Snapshot, layout: seq<LayoutEntry>)
    requires link.expiresAt > 0 && rules.draws(test, layout)
    requires At(rules, 0, One(id, Sheet(link, test)), rest, r, StartFind(link, id))
    ensures At(rules, 0, One(id, Sheet(link, test)), rest, r, StartWrite(id, 0, layout))
  {
    var a := Sheet(link, test);
    var db := One(id, a);
    Ran(rules, 0, db, rest, r, StartFind(link, id), db, StartCheck(link, id, a));
    Ran(rules, 0, db, rest, r, StartCheck(link, id, a), db, StartStamp(id, a));
    Ran(rules, 0, db, rest, r, StartStamp(id, a), db, StartWrite(id, 0, layout));
  }

  /** A candidate can start at time 0. */
  lemma StartedState(rules: Rules, link: Link, id: Id, test: Snapshot, layout: seq<LayoutEntry>)
    requires link.expiresAt > 0 && rules.draws(test, layout)
    ensures At(rules, 0, One(id, Started(link, test, layout)), map[], 0, Done)
  {
    var a, b := Sheet(link, test), Started(link, test, layout);
    Sent(rules, id, a);
    Arrived(rules, 0, One(id, a), map[], 0, Cutoff(Some(link.id), ThenStart(link, id)));
    NothingOverdue(rules, map[], 0, link, id, a);
    Starting(rules, map[], 0, link, id, test, layout);
    assert UpdateStarted(One(id, a), id, 0, layout) == One(id, b) by { assert map[id := a][id := b] == map[id := b]; }
    Ran(rules, 0, One(id, a), map[], 0, StartWrite(id, 0, layout), One(id, b), StartReread(id));
    Ran(rules, 0, One(id, b), map[], 0, StartReread(id), One(id, b), Done);
  }

  // ----- Answering and submitting -----------------------------------------------------------

  /** The attempt is running and can still be answered. */
  predicate Open(db: Db, id: Id, now: int) { Running(db, id) && !IsOverdue(db.attempts[id], now) }

  /** A link to the attempt that has not expired. */
  function LinkOf(db: Db, id: Id, now: int): Link
    requires id in db.attempts
  {
    Link(db.attempts[id].invitationId, now + 1)
  }

  lemma AnswerChecked(rules: Rules, s: System, r: nat, id: Id, questionId: Id, optionId: Id)
    requires Reachable(rules, s) && r !in s.requests && Open(s.db, id, s.now)
    requires Offers(s.db.attempts[id].snapshot, questionId, optionId)
    ensures At(rules, s.now, s.db, s.requests, r, AnswerUpsert(id, questionId, optionId))
  {
    var db, now, rest, a, link := s.db, s.now, s.requests, s.db.attempts[id], LinkOf(s.db, id, s.now);
    var find, check := AnswerFind(link, id, questionId, optionId), AnswerCheck(id, a, questionId, optionId);
    Arrived(rules, now, db, rest, r, find);
    Ran(rules, now, db, rest, r, find, db, check);
    Ran(rules, now, db, rest, r, check, db, AnswerUpsert(id, questionId, optionId));
  }

  /** The attempts table after a submit at once. */
  function SubmittedDb(rules: Rules, db: Db, id: Id, now: int): Db
    requires id in db.attempts
  {
    UpdateFinished(db, id, Submitted, now, StoredScore(rules, db, id), TimeTaken(db.attempts[id], now))
  }

  lemma SubmitRead(rules: Rules, s: System, r: nat, id: Id)
    requires Reachable(rules, s) && r !in s.requests && Open(s.db, id, s.now)
    ensures At(rules, s.now, s.db, s.requests, r,
      FinishStamp(id, Submitted, s.db.attempts[id], AnswersOf(s.db, id), ThenReadStatus(id)))
  {
    var db, now, rest, a := s.db, s.now, s.requests, s.db.attempts[id];
    var link, after := LinkOf(db, id, now), ThenReadStatus(id);
    Arrived(rules, now, db, rest, r, SubmitFind(link, id));
    Ran(rules, now, db, rest, r, SubmitFind(link, id), db, SubmitCheck(id, a));
    Ran(rules, now, db, rest, r, SubmitCheck(id, a), db, FinishRead(id, Submitted, after));
    var stamp := FinishStamp(id, Submitted, a, AnswersOf(db, id), after);
    Ran(rules, now, db, rest, r, FinishRead(id, Submitted, after), db, stamp);
  }

  lemma Closed(rules: Rules, now: int, db: Db, rest: map<nat, Pc>, r: nat, id: Id, result: ScoreResult,
    seconds: Option<int>)
    requires At(rules, now, db, rest, r, FinishWrite(id, Submitted, result, now, seconds, ThenReadStatus(id)))
    ensures At(rules, now, UpdateFinished(db, id, Submitted, now, result, seconds), rest, r, ReadStatus(id))
  {
    Ran(rules, now, db, rest, r, FinishWrite(id, Submitted, result, now, seconds, ThenReadStatus(id)),
      UpdateFinished(db, id, Submitted, now, result, seconds), ReadStatus(id));
  }

  lemma SubmitWritten(rules: Rules, s: System, r: nat, id: Id)
    requires Reachable(rules, s) && r !in s.requests && Open(s.db, id, s.now)
    ensures At(rules, s.now, SubmittedDb(rules, s.db, id, s.now), s.requests, r, ReadStatus(id))
  {
    var db, now, rest, a, after := s.db, s.now, s.requests, s.db.attempts[id], ThenReadStatus(id);
    var result, seconds := StoredScore(rules, db, id), TimeTaken(a, now);
    SubmitRead(rules, s, r, id);
    Ran(rules, now, db, rest, r, FinishStamp(id, Submitted, a, AnswersOf(db, id), after),
      db, FinishWrite(id, Submitted, result, now, seconds, after));
    Closed(rules, now, db, rest, r, id, result, seconds);
  }

  /** An offered answer to an open attempt can be stored. */
  lemma AnswerInTime(rules: Rules, s: System, id: Id, questionId: Id, optionId: Id) returns (s': System)
    requires Reachable(rules, s) && Open(s.db, id, s.now)
    requires Offers(s.db.attempts[id].snapshot, questionId, optionId)
    ensures Reachable(rules, s') && s'.now == s.now && s'.db == UpsertAnswer(s.db, id, questionId, optionId)
    ensures AnswersOf(s'.db, id) == AnswersOf(s.db, id)[questionId := optionId]
  {
    OtherAnswersStay(s.db, id, questionId, optionId, id);
    var r := Unused(s.requests.Keys);
    AnswerChecked(rules, s, r, id, questionId, optionId);
    s' := System(s.now, UpsertAnswer(s.db, id, questionId, optionId), s.requests[r := Done]);
    Ran(rules, s.now, s.db, s.requests, r, AnswerUpsert(id, questionId, optionId), s'.db, Done);
  }

  /** It does not matter which of two waiting requests is told apart. */
  lemma Either(rules: Rules, now: int, db: Db, rest: map<nat, Pc>, r: nat, pc: Pc, q: nat, other: Pc)
    requires r != q && At(rules, now, db, rest[r := pc], q, other)
    ensures At(rules, now, db, rest[q := other], r, pc)
  {
    assert rest[r := pc][q := other] == rest[q := other][r := pc];
  }

  /** An answer was checked, and then the attempt submitted. */
  lemma SubmittedMeanwhile(rules: Rules, s: System, r: nat, q: nat, id: Id, waiting: Pc)
    requires At(rules, s.now, s.db, s.requests, r, waiting) && r != q && q !in s.requests && Open(s.db, id, s.now)
    ensures At(rules, s.now, SubmittedDb(rules, s.db, id, s.now), s.requests[q := ReadStatus(id)], r, waiting)
  {
    SubmitWritten(rules, System(s.now, s.db, s.requests[r := waiting]), q, id);
    Either(rules, s.now, SubmittedDb(rules, s.db, id, s.now), s.requests, r, waiting, q, ReadStatus(id));
  }

  /** In any reachable state an answer can be checked, the attempt submitted, and only then the answer stored. */
  lemma AnswerLate(rules: Rules, s: System, id: Id, questionId: Id, optionId: Id) returns (s': System)
    requires Reachable(rules, s) && Open(s.db, id, s.now)
    requires Offers(s.db.attempts[id].snapshot, questionId, optionId)
    ensures Reachable(rules, s') && s'.now == s.now
    ensures s'.db == UpsertAnswer(SubmittedDb(rules, s.db, id, s.now), id, questionId, optionId)
  {
    var r := Unused(s.requests.Keys);
    var q, waiting := r + 1, AnswerUpsert(id, questionId, optionId);
    AnswerChecked(rules, s, r, id, questionId, optionId);
    SubmittedMeanwhile(rules, s, r, q, id, waiting);
    var rest, closed := s.requests[q := ReadStatus(id)], SubmittedDb(rules, s.db, id, s.now);
    s' := System(s.now, UpsertAnswer(closed, id, questionId, optionId), rest[r := Done]);
    Ran(rules, s.now, closed, rest, r, waiting, s'.db, Done);
  }

  /** So an open attempt can end unsettled exactly as far as the late answer changes its score. */
  lemma LateAnswerUnsettles(rules: Rules, s: System, id: Id, questionId: Id, optionId: Id) returns (s': System)
    requires Reachable(rules, s) && Open(s.db, id, s.now)
    requires Offers(s.db.attempts[id].snapshot, questionId, optionId)
    ensures Reachable(rules, s') && id in s'.db.attempts && s'.db.attempts[id].status == Submitted
    ensures s'.db.attempts[id].snapshot == s.db.attempts[id].snapshot
    ensures var test, answers := s.db.attempts[id].snapshot, AnswersOf(s.db, id);
      SettledAttempt(rules, s'.db, id)
      <==> rules.score(test, answers[questionId := optionId]) == rules.score(test, answers)
  {
    s' := AnswerLate(rules, s, id, questionId, optionId);
    SameAnswers(s.db, SubmittedDb(rules, s.db, id, s.now), id);
    StoreAfterFinish(rules, SubmittedDb(rules, s.db, id, s.now), id, questionId, optionId);
  }

  // ----- Which tests it can happen to ------------------------------------------------------------

  predicate OfferedAnswers(test: Snapshot, answers: Answers) {
    forall q <- answers.Keys :: Offers(test, q, answers[q])
  }

  /** One more offered answer changes the score of the answers given. */
  predicate Changes(rules: Rules, test: Snapshot, answers: Answers, questionId: Id, optionId: Id) {
    && OfferedAnswers(test, answers) && Offers(test, questionId, optionId)
    && rules.score(test, answers[questionId := optionId]) != rules.score(test, answers)
  }

  ghost predicate SomeAnswerChanges(rules: Rules, test: Snapshot) {
    exists answers, questionId, optionId :: Changes(rules, test, answers, questionId, optionId)
  }

  /** A finished attempt at the test whose result is not the score of its stored answers. */
  ghost predicate Unsettled(rules: Rules, test: Snapshot, s: System, id: Id) {
    Reachable(rules, s) && id in s.db.attempts && s.db.attempts[id].snapshot == test && !SettledAttempt(rules, s.db, id)
  }

  lemma OneFewer(test: Snapshot, answers: Answers, q: Id)
    requires OfferedAnswers(test, answers) && q in answers
    ensures OfferedAnswers(test, answers - {q}) && |answers - {q}| < |answers|
    ensures Offers(test, q, answers[q]) && (answers - {q})[q := answers[q]] == answers
  {
    assert (answers - {q})[q := answers[q]] == answers;
  }

  /** Any offered answers can be the stored ones of an open attempt. */
  lemma {:induction false} Collected(rules: Rules, s: System, id: Id, answers: Answers) returns (s': System)
    requires Reachable(rules, s) && Open(s.db, id, s.now) && AnswersOf(s.db, id) == map[]
    requires OfferedAnswers(s.db.attempts[id].snapshot, answers)
    ensures Reachable(rules, s') && s'.now == s.now && s'.db.attempts == s.db.attempts
    ensures AnswersOf(s'.db, id) == answers
    decreases |answers|
  {
    if answers == map[] {
      s' := s;
    } else {
      var q :| q in answers;
      OneFewer(s.db.attempts[id].snapshot, answers, q);
      var before := Collected(rules, s, id, answers - {q});
      s' := AnswerInTime(rules, before, id, q, answers[q]);
    }
  }

  lemma ChangedScoreUnsettles(rules: Rules, test: Snapshot, layout: seq<LayoutEntry>, answers: Answers, questionId: Id,
    optionId: Id) returns (s: System, id: Id)
    requires rules.draws(test, layout) && Changes(rules, test, answers, questionId, optionId)
    ensures Unsettled(rules, test, s, id) && s.db.attempts[id].status == Submitted
  {
    id := 0;
    var link := Link(0, 1);
    StartedState(rules, link, id, test, layout);
    var start := System(0, One(id, Started(link, test, layout)), map[][0 := Done]);
    var before := Collected(rules, start, id, answers);
    s := LateAnswerUnsettles(rules, before, id, questionId, optionId);
  }

  /** What is stored when an answer is on its way was offered, and so is that answer. */
  lemma StoredIsOffered(rules: Rules, s: System, id: Id, request: nat)
    requires Inv(rules, s) && Stores(s, Run(request), id)
    ensures id in s.db.attempts && OfferedAnswers(s.db.attempts[id].snapshot, AnswersOf(s.db, id))
    ensures Offers(s.db.attempts[id].snapshot, s.requests[request].questionId, s.requests[request].optionId)
  {
    assert PcOk(rules, s.now, s.db, s.requests[request]);
    forall q | q in AnswersOf(s.db, id)
      ensures Offers(s.db.attempts[id].snapshot, q, AnswersOf(s.db, id)[q])
    {
      assert AnswerOk(s.db, (id, q));
    }
  }

  lemma LateChange(rules: Rules, run: seq<System>, k: nat, move: Move, id: Id)
    requires IsRun(rules, run) && k < |run| && !Harmless(rules, run[k], move, id)
    ensures id in run[k].db.attempts && SomeAnswerChanges(rules, run[k].db.attempts[id].snapshot)
  {
    RunKeepsInv(rules, run, k);
    StoredIsOffered(rules, run[k], id, move.request);
    var pc := run[k].requests[move.request];
    assert Changes(rules, run[k].db.attempts[id].snapshot, AnswersOf(run[k].db, id), pc.questionId, pc.optionId);
  }

  lemma UnsettledWasChanged(rules: Rules, test: Snapshot, s: System, id: Id)
    requires Unsettled(rules, test, s, id)
    ensures SomeAnswerChanges(rules, test)
  {
    var run: seq<System> :| IsRun(rules, run) && run[|run| - 1] == s;
    var last := |run| - 1;
    if HarmlessRun(rules, run, id) {
      HarmlessSettles(rules, run, id, last);
      assert false;
    }
    var k: nat, move :| k < last && Moves(rules, run[k], move, run[k + 1]) && !Harmless(rules, run[k], move, id);
    LateChange(rules, run, k, move, id);
    AttemptsMoveForward(rules, run, k, last);
    assert Evolves(run[k].db.attempts[id], run[last].db.attempts[id]);
  }

  /**
   * Some interleaving leaves a finished attempt at a test with a result that is
   * not the score of its stored answers, if and only if one more answer can
   * change the score of a test.
   */
  lemma UnsettledExactly(rules: Rules, test: Snapshot, layout: seq<LayoutEntry>)
    requires rules.draws(test, layout)
    ensures (exists s, id :: Unsettled(rules, test, s, id)) <==> SomeAnswerChanges(rules, test)
  {
    if s, id :| Unsettled(rules, test, s, id) { UnsettledWasChanged(rules, test, s, id); }
    if answers, q, o :| Changes(rules, test, answers, q, o) {
      var s, id := ChangedScoreUnsettles(rules, test, layout, answers, q, o);
    }
  }

  // ----- Under the live rules ----------------------------------------------------------------------

  lemma SomeLayout(test: Snapshot) returns (layout: seq<LayoutEntry>)
    ensures LIVE.draws(test, layout)
  {
    var source: Random := k => 0.0;
    layout := BuildLayout(test, source, 0);
    assert IsRandom(source) && Drawn(test, layout);
  }

  /** A question that counts once it has the answer, and did not with none, changes the count. */
  lemma FirstCounts(p: SnapshotQuestion -> bool, after: SnapshotQuestion -> bool, questions: seq<SnapshotQuestion>)
    requires questions != [] && DistinctQuestions(questions)
    requires (forall q <- questions :: !p(q)) && after(questions[0])
    requires forall q <- questions :: q.id != questions[0].id ==> !after(q)
    ensures CountOf(after, questions) != CountOf(p, questions)
  {
    CountOneMore(p, after, questions, 0);
  }

  predicate Counted(scoring: ScoringMethod, q: SnapshotQuestion, answers: Answers) {
    if scoring == Alignment then Compared(q, answers) else Answered(q, answers)
  }

  lemma AnsweredIsCounted(test: Snapshot, answers: Answers)
    requires DistinctSections(test.sections)
    ensures ScoreAttempt(test, answers).answeredCount
      == CountOf((q: SnapshotQuestion) => Counted(test.scoringMethod, q, answers), test.questions)
  {
    CountsAddUp(test, answers);
    if test.scoringMethod == Alignment {
      CountSame((q: SnapshotQuestion) => Counted(Alignment, q, answers), (q: SnapshotQuestion) => Compared(q, answers),
        test.questions);
    } else {
      CountSame((q: SnapshotQuestion) => Counted(CorrectAnswer, q, answers),
        (q: SnapshotQuestion) => Answered(q, answers), test.questions);
    }
  }

  lemma FirstAnswerCounts(test: Snapshot, q: SnapshotQuestion, one: Answers)
    requires KeysUnique(test) && test.questions != [] && q == test.questions[0] && one.Keys == {q.id}
    requires Counted(test.scoringMethod, q, one)
    ensures ScoreAttempt(test, one) != ScoreAttempt(test, map[])
  {
    var none: Answers := map[];
    AnsweredIsCounted(test, none);
    AnsweredIsCounted(test, one);
    FirstCounts((x: SnapshotQuestion) => Counted(test.scoringMethod, x, none),
      (x: SnapshotQuestion) => Counted(test.scoringMethod, x, one), test.questions);
  }

  lemma OffersOwn(test: Snapshot, i: nat, j: nat)
    requires DistinctQuestions(test.questions) && i < |test.questions| && j < |test.questions[i].options|
    ensures Offers(test, test.questions[i].id, test.questions[i].options[j].id)
  {
    var q, o := test.questions[i], test.questions[i].options[j];
    assert Find((x: SnapshotQuestion) => x.id == q.id, test.questions) == i;
    assert o in q.options;
  }

  /** The key option of a question counts as an answer. */
  lemma KeyCounts(q: SnapshotQuestion, scoring: ScoringMethod)
    requires HasKey(q, scoring)
    ensures Counted(scoring, q, map[q.id := q.options[TakeView.KeyIndex(q)].id])
  {
    ChosenById(q, map[q.id := q.options[TakeView.KeyIndex(q)].id], TakeView.KeyIndex(q));
  }

  lemma FirstKeyCounts(test: Snapshot) returns (q: SnapshotQuestion, key: nat)
    requires Sendable(test)
    ensures q == test.questions[0] && key < |q.options|
    ensures ScoreAttempt(test, map[][q.id := q.options[key].id]) != ScoreAttempt(test, map[])
  {
    SendableHasKeys(test);
    q := test.questions[0];
    assert HasKey(q, test.scoringMethod);
    key := TakeView.KeyIndex(q);
    KeyCounts(q, test.scoringMethod);
    FirstAnswerCounts(test, q, map[q.id := q.options[key].id]);
    assert map[][q.id := q.options[key].id] == map[q.id := q.options[key].id];
  }

  /** The first answer to a test that can be sent changes its result. */
  lemma FirstAnswerChanges(test: Snapshot)
    requires Sendable(test)
    ensures SomeAnswerChanges(LIVE, test)
  {
    var q, key := FirstKeyCounts(test);
    OffersOwn(test, 0, key);
    assert Changes(LIVE, test, map[], q.id, q.options[key].id);
  }

  /** So whatever test is sent, under either method, some interleaving leaves such an attempt. */
  lemma AnySentTestMayDiffer(test: Snapshot)
    requires Sendable(test)
    ensures exists s, id :: Unsettled(LIVE, test, s, id)
  {
    var layout := SomeLayout(test);
    FirstAnswerChanges(test);
    UnsettledExactly(LIVE, test, layout);
  }

  /**
   * Whatever the test, where one question has a right option: some run reaches
   * a submitted attempt whose result is not the score of its stored answers.
   */
  lemma StoredAnswersMayDiffer(test: Snapshot, i: nat, optionIndex: nat) returns (s: System, id: Id)
    requires KeysUnique(test) && test.scoringMethod == CorrectAnswer
    requires i < |test.questions| && optionIndex < |test.questions[i].options|
    requires test.questions[i].options[optionIndex].isCorrect
    ensures Reachable(LIVE, s) && id in s.db.attempts && s.db.attempts[id].status == Submitted
    ensures s.db.attempts[id].snapshot == test
    ensures s.db.attempts[id].result != Some(ScoreAttempt(test, AnswersOf(s.db, id)))
  {
    var layout := SomeLayout(test);
    var q, o := test.questions[i], test.questions[i].options[optionIndex];
    OneMoreRight(test, map[], i, optionIndex);
    OffersOwn(test, i, optionIndex);
    assert Changes(LIVE, test, map[], q.id, o.id);
    s, id := ChangedScoreUnsettles(LIVE, test, layout, map[], q.id, o.id);
  }
}
