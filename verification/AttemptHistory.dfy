/**
 * Where a finished attempt's status and result came from: the earlier states of
 * the run at which the winning request chose the one and read for the other.
 * And where a stored answer came from: a check that it was in time.
 */
module AttemptHistory {
  import opened Basics
  import opened Snapshots
  import opened Scoring
  import opened Attempts
  import opened AttemptLaws

  // ----- What a request saw -------------------------------------------------------------

  /** The attempt was running, with this row and these stored answers. */
  predicate ReadAt(s: System, id: Id, read: Attempt, answers: Answers) {
    && id in s.db.attempts && s.db.attempts[id] == read && read.status == InProgress
    && answers == AnswersOf(s.db, id)
  }

  /** The attempt was running, and this is the score of what was stored for it. */
  predicate ScoredAt(rules: Rules, s: System, id: Id, result: ScoreResult) {
    && id in s.db.attempts && s.db.attempts[id].status == InProgress
    && result == rules.score(s.db.attempts[id].snapshot, AnswersOf(s.db, id))
  }

  /** The status to close with at that moment: expired exactly when past the grace period. */
  predicate FitsAt(s: System, id: Id, status: Status) {
    && id in s.db.attempts && s.db.attempts[id].status != NotStarted && Finished(status)
    && (status == Expired <==> IsOverdue(s.db.attempts[id], s.now))
  }

  ghost predicate WasRead(run: seq<System>, k: nat, id: Id, read: Attempt, answers: Answers)
    requires k < |run|
  {
    exists i :: 0 <= i < k && ReadAt(run[i], id, read, answers)
  }

  ghost predicate WasScored(rules: Rules, run: seq<System>, k: nat, id: Id, result: ScoreResult)
    requires k < |run|
  {
    exists i :: 0 <= i < k && ScoredAt(rules, run[i], id, result)
  }

  ghost predicate WasFit(run: seq<System>, k: nat, id: Id, status: Status)
    requires k < |run|
  {
    exists i :: 0 <= i < k && FitsAt(run[i], id, status)
  }

  /** An answer's request found the attempt running. */
  ghost predicate WasRunning(run: seq<System>, k: nat, id: Id, read: Attempt)
    requires k < |run|
  {
    exists i :: 0 <= i < k && id in run[i].db.attempts && run[i].db.attempts[id] == read
  }

  /** The attempt was found running, and then was not past its grace period. */
  ghost predicate InTimeAt(run: seq<System>, id: Id, i: nat, j: nat) {
    && i <= j < |run| && id in run[i].db.attempts && run[i].db.attempts[id].status == InProgress
    && !IsOverdue(run[i].db.attempts[id], run[j].now)
  }

  ghost predicate WasInTime(run: seq<System>, k: nat, id: Id)
    requires k < |run|
  {
    exists i: nat, j: nat :: j < k && InTimeAt(run, id, i, j)
  }

  // ----- The history a state carries -------------------------------------------------------

  /** A request about to submit an attempt or store an answer chose so in time, and what it holds it read. */
  ghost predicate PcFrom(rules: Rules, run: seq<System>, k: nat, pc: Pc)
    requires k < |run|
  {
    match pc
    case FinishRead(id, status, _) => status == Submitted ==> WasFit(run, k, id, status)
    case FinishStamp(id, status, read, answers, _) =>
      (status == Submitted ==> WasFit(run, k, id, status)) && WasRead(run, k, id, read, answers)
    case FinishWrite(id, status, result, _, _, _) =>
      (status == Submitted ==> WasFit(run, k, id, status)) && WasScored(rules, run, k, id, result)
    case AnswerCheck(id, read, _, _) => read.status == InProgress && WasRunning(run, k, id, read)
    case AnswerUpsert(id, _, _) => WasInTime(run, k, id)
    case _ => true
  }

  ghost predicate ClosedFrom(rules: Rules, run: seq<System>, k: nat, id: Id, a: Attempt)
    requires k < |run|
  {
    Finished(a.status) ==>
      a.result.Some? && WasScored(rules, run, k, id, a.result.value) && WasFit(run, k, id, a.status)
  }

  ghost predicate History(rules: Rules, run: seq<System>, k: nat)
    requires k < |run|
  {
    && (forall r <- run[k].requests.Keys :: PcFrom(rules, run, k, run[k].requests[r]))
    && (forall id <- run[k].db.attempts.Keys :: ClosedFrom(rules, run, k, id, run[k].db.attempts[id]))
    && forall key <- run[k].db.answers.Keys :: WasInTime(run, k, key.0)
  }

  /** A step from state k: what the request holds afterwards, it saw then or before. */
  lemma StepFrom(rules: Rules, run: seq<System>, k: nat, pc: Pc, pc': Pc)
    requires k + 1 < |run| && PcFrom(rules, run, k, pc) && PcOk(rules, run[k].now, run[k].db, pc)
    requires Step(rules, run[k].now, run[k].db, pc, run[k + 1].db, pc')
    ensures PcFrom(rules, run, k + 1, pc')
  {
    if pc.FinishRead? {
    } else if pc.FinishStamp? {
    } else if pc.SubmitCheck? {
    } else if pc.AnswerFind? || pc.AnswerCheck? {
      AnswerFrom(rules, run, k, pc, pc');
    } else {
      OtherFrom(rules, run, k, pc, pc');
    }
  }

  lemma AnswerFrom(rules: Rules, run: seq<System>, k: nat, pc: Pc, pc': Pc)
    requires pc.AnswerFind? || pc.AnswerCheck?
    requires k + 1 < |run| && PcFrom(rules, run, k, pc)
    requires Step(rules, run[k].now, run[k].db, pc, run[k + 1].db, pc')
    ensures PcFrom(rules, run, k + 1, pc')
  {
    if pc.AnswerCheck? && pc'.AnswerUpsert? {
      var i :| 0 <= i < k && pc.id in run[i].db.attempts && run[i].db.attempts[pc.id] == pc.read;
      assert InTimeAt(run, pc.id, i, k);
    }
  }

  lemma OtherFrom(rules: Rules, run: seq<System>, k: nat, pc: Pc, pc': Pc)
    requires !pc.FinishRead? && !pc.FinishStamp? && !pc.SubmitCheck? && !pc.AnswerFind? && !pc.AnswerCheck?
    requires k + 1 < |run|
    requires Step(rules, run[k].now, run[k].db, pc, run[k + 1].db, pc')
    ensures PcFrom(rules, run, k + 1, pc')
  {
  }

  // ----- Closing an attempt --------------------------------------------------------------------

  predicate Closes(pc: Pc, id: Id, a: Attempt) {
    pc.FinishWrite? && pc.id == id && a.status == pc.status && a.result == Some(pc.result)
  }

  lemma CloseFrom(rules: Rules, run: seq<System>, k: nat, pc: Pc, id: Id, a: Attempt)
    requires k + 1 < |run| && PcOk(rules, run[k].now, run[k].db, pc) && PcFrom(rules, run, k, pc) && Closes(pc, id, a)
    ensures ClosedFrom(rules, run, k + 1, id, a)
  {
  }

  lemma AttemptsFrom(rules: Rules, run: seq<System>, k: nat, id: Id)
    requires IsRun(rules, run) && k + 1 < |run| && Inv(rules, run[k]) && History(rules, run, k)
    requires id in run[k + 1].db.attempts
    ensures ClosedFrom(rules, run, k + 1, id, run[k + 1].db.attempts[id])
  {
    var s, s' := run[k], run[k + 1];
    assert Next(rules, s, s');
    var move :| Moves(rules, s, move, s');
    var a := s'.db.attempts[id];
    if Finished(a.status) {
      if id in s.db.attempts && s.db.attempts[id] == a {
        assert ClosedFrom(rules, run, k, id, a);
      } else {
        CloseFrom(rules, run, k, s.requests[move.request], id, a);
      }
    }
  }

  lemma RequestsFrom(rules: Rules, run: seq<System>, k: nat, r: nat)
    requires IsRun(rules, run) && k + 1 < |run| && Inv(rules, run[k]) && History(rules, run, k)
    requires r in run[k + 1].requests
    ensures PcFrom(rules, run, k + 1, run[k + 1].requests[r])
  {
    var s, s' := run[k], run[k + 1];
    assert Next(rules, s, s');
    var move :| Moves(rules, s, move, s');
    if move == Run(r) {
      StepFrom(rules, run, k, s.requests[r], s'.requests[r]);
    }
  }

  lemma InTimeStays(run: seq<System>, k: nat, id: Id)
    requires k + 1 < |run| && WasInTime(run, k, id)
    ensures WasInTime(run, k + 1, id)
  {
    var i: nat, j: nat :| j < k && InTimeAt(run, id, i, j);
    assert j < k + 1 && InTimeAt(run, id, i, j);
  }

  lemma AnswersFrom(rules: Rules, run: seq<System>, k: nat, key: (Id, Id))
    requires IsRun(rules, run) && k + 1 < |run| && History(rules, run, k) && key in run[k + 1].db.answers
    ensures WasInTime(run, k + 1, key.0)
  {
    var s, s' := run[k], run[k + 1];
    assert Next(rules, s, s');
    var move :| Moves(rules, s, move, s');
    if key !in s.db.answers {
      assert PcFrom(rules, run, k, s.requests[move.request]);
    }
    InTimeStays(run, k, key.0);
  }

  lemma {:induction false} RunHistory(rules: Rules, run: seq<System>, k: nat)
    requires IsRun(rules, run) && k < |run|
    ensures History(rules, run, k)
  {
    if k > 0 {
      RunHistory(rules, run, k - 1);
      RunKeepsInv(rules, run, k - 1);
      forall r | r in run[k].requests.Keys ensures PcFrom(rules, run, k, run[k].requests[r]) {
        RequestsFrom(rules, run, k - 1, r);
      }
      forall id | id in run[k].db.attempts.Keys ensures ClosedFrom(rules, run, k, id, run[k].db.attempts[id]) {
        AttemptsFrom(rules, run, k - 1, id);
      }
      forall key | key in run[k].db.answers ensures WasInTime(run, k, key.0) { AnswersFrom(rules, run, k - 1, key); }
    }
  }

  lemma AnswerHasRow(rules: Rules, run: seq<System>, k: nat, key: (Id, Id))
    requires IsRun(rules, run) && k < |run| && key in run[k].db.answers
    ensures key.0 in run[k].db.attempts && run[k].db.attempts[key.0].deadlineAt.Some?
  {
    RunKeepsInv(rules, run, k);
    assert AnswerOk(run[k].db, key) && AttemptOk(rules, run[k].now, run[k].db.attempts[key.0]);
  }

  /**
   * However the requests interleave, no late answer is ever stored: each one's
   * request found the attempt running, and checked at a moment that was not past
   * the deadline and the grace period.
   */
  lemma AnswersWereInTime(rules: Rules, run: seq<System>, k: nat, key: (Id, Id))
    requires IsRun(rules, run) && k < |run| && key in run[k].db.answers
    ensures key.0 in run[k].db.attempts && run[k].db.attempts[key.0].deadlineAt.Some?
    ensures exists i: nat, j: nat ::
      && i <= j < k
      && key.0 in run[i].db.attempts && run[i].db.attempts[key.0].status == InProgress
      && run[j].now <= run[k].db.attempts[key.0].deadlineAt.value + 30000
  {
    RunHistory(rules, run, k);
    AnswerHasRow(rules, run, k, key);
    var id := key.0;
    var i: nat, j: nat :| j < k && InTimeAt(run, id, i, j);
    AttemptsMoveForward(rules, run, i, k);
    assert Evolves(run[i].db.attempts[id], run[k].db.attempts[id]);
    assert i <= j < k && run[j].now <= run[k].db.attempts[id].deadlineAt.value + DEADLINE_GRACE_MS;
  }

  /**
   * A finished attempt's result is the score of its frozen snapshot on the
   * answers stored at one moment while it ran. Its status was right at one
   * moment: submitted not past the grace period, expired only past it.
   */
  lemma ResultWasRead(rules: Rules, run: seq<System>, k: nat, id: Id)
    requires IsRun(rules, run) && k < |run|
    requires id in run[k].db.attempts && Finished(run[k].db.attempts[id].status)
    ensures var a := run[k].db.attempts[id];
      && a.result.Some?
      && (exists i :: 0 <= i < k && ScoredAt(rules, run[i], id, a.result.value)
                      && run[i].db.attempts[id].snapshot == a.snapshot)
      && (exists i :: 0 <= i < k && FitsAt(run[i], id, a.status)
                      && run[i].db.attempts[id].deadlineAt == a.deadlineAt)
  {
    RunHistory(rules, run, k);
    var a := run[k].db.attempts[id];
    assert ClosedFrom(rules, run, k, id, a);
    var i :| 0 <= i < k && ScoredAt(rules, run[i], id, a.result.value);
    AttemptsMoveForward(rules, run, i, k);
    assert Evolves(run[i].db.attempts[id], a);
    var j :| 0 <= j < k && FitsAt(run[j], id, a.status);
    AttemptsMoveForward(rules, run, j, k);
    assert Evolves(run[j].db.attempts[id], a);
  }

  /** Closing times: after the start, within the duration, past the grace period only when expired. */
  lemma ClosingTimes(rules: Rules, run: seq<System>, k: nat, id: Id)
    requires IsRun(rules, run) && k < |run|
    requires id in run[k].db.attempts && Finished(run[k].db.attempts[id].status)
    ensures var a := run[k].db.attempts[id];
      && a.startedAt.Some? && a.finishedAt.Some? && a.startedAt.value <= a.finishedAt.value <= run[k].now
      && a.deadlineAt == Some(a.startedAt.value + a.snapshot.durationMinutes * 60000)
      && a.timeTakenSeconds == TimeTaken(a, a.finishedAt.value)
      && a.timeTakenSeconds.Some? && 0 <= a.timeTakenSeconds.value <= a.snapshot.durationMinutes * 60
      && (a.status == Expired ==> a.finishedAt.value > a.deadlineAt.value + 30000)
  {
    RunKeepsInv(rules, run, k);
    var a := run[k].db.attempts[id];
    assert AttemptOk(rules, run[k].now, a);
    TimeTakenInRange(a, a.finishedAt.value);
  }
}
