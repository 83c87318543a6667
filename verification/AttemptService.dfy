/**
 * The attempt services in their own form: a table changed in place by one
 * request at a time. Every request leaves each finished attempt with the score
 * of its stored answers.
 */
module AttemptService {
  import opened Basics
  import opened Snapshots
  import opened Shuffle
  import opened Layout
  import opened Scoring
  import opened Attempts
  import opened AttemptLaws
  import opened AttemptOrders

  /** What a start answers. */
  datatype StartOutcome = StartNotFound | StartFinished | LinkExpired | Taking(attempt: Attempt)

  /** What saving an answer answers. */
  datatype AnswerOutcome = AnswerNotFound | AnswerTooEarly | AnswerFinished | TimeUp | NotAnOption | Saved

  /** What a submit answers. */
  datatype SubmitOutcome = SubmitNotFound | SubmitTooEarly | Closed(status: Status)

  ghost predicate Tidy(now: int, db: Db) {
    AttemptsOk(LIVE, now, db) && AnswersOk(db) && Settled(LIVE, db)
  }

  /** Scores a running attempt on its stored answers and closes it. */
  function FinishNow(db: Db, id: Id, status: Status, now: int): Db {
    if Running(db, id) then
      var a := db.attempts[id];
      UpdateFinished(db, id, status, now, ScoreAttempt(a.snapshot, AnswersOf(db, id)), TimeTaken(a, now))
    else db
  }

  /** Closing keeps the table tidy, when the status is right. */
  lemma FinishKeepsTidy(db: Db, id: Id, status: Status, now: int)
    requires Tidy(now, db) && Running(db, id) && MayClose(now, db, id, status)
    ensures Tidy(now, FinishNow(db, id, status, now)) && DbEvolves(db, FinishNow(db, id, status, now))
  {
    var a := db.attempts[id];
    var result := ScoreAttempt(a.snapshot, AnswersOf(db, id));
    var db' := FinishNow(db, id, status, now);
    assert AttemptOk(LIVE, now, a);
    assert LIVE.score(a.snapshot, AnswersOf(db, id)) == result;
    assert Scored(LIVE, a, result);
    FinishedEvolves(LIVE, now, db, id, status, now, result, TimeTaken(a, now));
    AnswersKept(db, db');
    forall other | other in db'.attempts ensures SettledAttempt(LIVE, db', other) {
      assert SettledAttempt(LIVE, db, other);
      SameAnswers(db, db', other);
    }
  }

  lemma TidyLater(now: int, later: int, db: Db)
    requires Tidy(now, db) && now <= later
    ensures Tidy(later, db)
  {
  }

  lemma StartKeepsTidy(db: Db, id: Id, now: int, random: Random, at: nat)
    requires Tidy(now, db) && id in db.attempts && db.attempts[id].status == NotStarted && IsRandom(random)
    ensures var db' := UpdateStarted(db, id, now, BuildLayout(db.attempts[id].snapshot, random, at));
      Tidy(now, db') && DbEvolves(db, db')
  {
    var layout := BuildLayout(db.attempts[id].snapshot, random, at);
    var db' := UpdateStarted(db, id, now, layout);
    assert Drawn(db.attempts[id].snapshot, layout);
    StartedEvolves(LIVE, now, db, id, now, layout);
    AnswersKept(db, db');
    forall other | other in db'.attempts ensures SettledAttempt(LIVE, db', other) {
      assert SettledAttempt(LIVE, db, other);
      SameAnswers(db, db', other);
    }
  }

  lemma AnswerKeepsTidy(db: Db, id: Id, now: int, questionId: Id, optionId: Id)
    requires Tidy(now, db) && Running(db, id) && Offers(db.attempts[id].snapshot, questionId, optionId)
    ensures Tidy(now, UpsertAnswer(db, id, questionId, optionId))
  {
    AnswerStored(LIVE, now, db, id, questionId, optionId);
    var db' := UpsertAnswer(db, id, questionId, optionId);
    forall other | other in db'.attempts ensures SettledAttempt(LIVE, db', other) {
      assert SettledAttempt(LIVE, db, other);
      OtherAnswersStay(db, id, questionId, optionId, other);
    }
  }

  lemma EvolvesOn(first: Db, db: Db, db': Db)
    requires DbEvolves(first, db) && DbEvolves(db, db')
    ensures DbEvolves(first, db')
  {
  }

  /** The ids the sweep's query returns, each once. */
  ghost predicate IsOverdueList(db: Db, rows: seq<Id>, scope: Option<Id>, cutoff: int) {
    Distinct(rows) && forall id :: id in rows <==> id in db.attempts && SweepMatches(db.attempts[id], scope, cutoff)
  }

  lemma NextListed(db: Db, rows: seq<Id>, scope: Option<Id>, cutoff: int, i: nat)
    requires IsOverdueList(db, rows, scope, cutoff) && i < |rows|
    ensures rows[i] in db.attempts && SweepMatches(db.attempts[rows[i]], scope, cutoff) && rows[i] !in rows[..i]
    ensures rows[..i + 1] == rows[..i] + [rows[i]]
  {
    assert rows[i] in rows;
  }

  /** A closed row is scored on the answers there were, as expired, at the time it shows; any other is as it was. */
  predicate RowSwept(first: Db, db: Db, id: Id, closed: bool, asked: int)
    requires id in first.attempts && id in db.attempts
  {
    if closed then
      && Running(first, id) && db.attempts[id].finishedAt.Some? && asked <= db.attempts[id].finishedAt.value
      && db.attempts[id] == FinishNow(first, id, Expired, db.attempts[id].finishedAt.value).attempts[id]
    else db.attempts[id] == first.attempts[id]
  }

  /** Exactly these rows have been closed as expired, and nothing else was touched. */
  ghost predicate Swept(first: Db, db: Db, closed: seq<Id>, asked: int) {
    && db.answers == first.answers && db.attempts.Keys == first.attempts.Keys
    && forall id <- first.attempts.Keys :: RowSwept(first, db, id, id in closed, asked)
  }

  lemma SweptEvolves(first: Db, db: Db, closed: seq<Id>, asked: int)
    requires Swept(first, db, closed, asked)
    ensures DbEvolves(first, db)
  {
    forall id | id in first.attempts ensures Evolves(first.attempts[id], db.attempts[id]) {
      assert RowSwept(first, db, id, id in closed, asked);
    }
  }

  /** A row the sweep found and has not reached is still running, and still overdue. */
  lemma StillToClose(first: Db, db: Db, closed: seq<Id>, id: Id, scope: Option<Id>, asked: int, now: int)
    requires Swept(first, db, closed, asked) && id !in closed && asked <= now && id in first.attempts
    requires SweepMatches(first.attempts[id], scope, asked - DEADLINE_GRACE_MS)
    ensures MayClose(now, db, id, Expired) && Running(db, id)
  {
  }

  /** One turn of the sweep closes its row and touches no other. */
  lemma FinishMoves(first: Db, db: Db, db': Db, closed: seq<Id>, id: Id, asked: int, now: int)
    requires Swept(first, db, closed, asked) && Running(db, id) && id !in closed && asked <= now
    requires db' == FinishNow(db, id, Expired, now)
    ensures Swept(first, db', closed + [id], asked)
  {
    forall other | other in first.attempts
      ensures RowSwept(first, db', other, other in closed + [id], asked)
    {
      assert RowSwept(first, db, other, other in closed, asked);
      assert AnswersOf(first, other) == AnswersOf(db, other);
    }
  }

  /** The table after a start of attempt `id`: the link's overdue rows are closed, no other but `id` is touched. */
  ghost predicate StartLeaves(first: Db, db: Db, link: Link, id: Id, asked: int) {
    && db.answers == first.answers && db.attempts.Keys == first.attempts.Keys
    && forall other <- first.attempts.Keys | other != id || first.attempts[id].status != NotStarted ::
      var a := first.attempts[other];
      RowSwept(first, db, other, a.status == InProgress && a.invitationId == link.id && IsOverdue(a, asked), asked)
  }

  /** What the sweep makes of the attempt to start. */
  predicate RowFound(a: Attempt, b: Attempt, mine: bool, asked: int) {
    if mine && a.status == InProgress && IsOverdue(a, asked) then b.status == Expired else b == a
  }

  lemma SweptIsLeft(first: Db, db: Db, rows: seq<Id>, link: Link, id: Id, asked: int)
    requires IsOverdueList(first, rows, Some(link.id), asked - DEADLINE_GRACE_MS) && Swept(first, db, rows, asked)
    ensures DbEvolves(first, db) && StartLeaves(first, db, link, id, asked)
    ensures Owns(first, link, id) <==> Owns(db, link, id)
    ensures id in first.attempts ==>
      id in db.attempts && RowFound(first.attempts[id], db.attempts[id], Owns(first, link, id), asked)
  {
    SweptEvolves(first, db, rows, asked);
    forall other | other in first.attempts
      ensures RowSwept(first, db, other, other in rows, asked)
      ensures other in rows <==> SweepMatches(first.attempts[other], Some(link.id), asked - DEADLINE_GRACE_MS)
    {
    }
  }

  /** What a start answers of an attempt the link owns. */
  predicate StartSays(a: Attempt, b: Attempt, limit: int, outcome: StartOutcome, asked: int, checked: int, now: int,
    layout: seq<LayoutEntry>) {
    match a.status
    case NotStarted =>
      if limit <= checked then outcome.LinkExpired? && b == a
      else outcome == Taking(b) && b == Started(a, now, layout)
    case InProgress =>
      if IsOverdue(a, asked) then outcome.StartFinished? && b.status == Expired else outcome == Taking(b) && b == a
    case _ => outcome.StartFinished? && b == a
  }

  /** The row of an attempt started at this time. */
  function Started(a: Attempt, now: int, layout: seq<LayoutEntry>): Attempt {
    a.(status := InProgress, startedAt := Some(now), deadlineAt := Some(now + a.snapshot.durationMinutes * 60000),
      layout := Some(layout))
  }

  /** The table once the link's overdue attempts are closed: attempt `id` starts, resumes, or is refused. */
  predicate Opens(db: Db, db': Db, link: Link, id: Id, outcome: StartOutcome, checked: int, now: int,
    layout: seq<LayoutEntry>) {
    if !Owns(db, link, id) then outcome.StartNotFound? && db' == db
    else if Finished(db.attempts[id].status) then outcome.StartFinished? && db' == db
    else if db.attempts[id].status == NotStarted && link.expiresAt <= checked then outcome.LinkExpired? && db' == db
    else
      && db' == UpdateStarted(db, id, now, layout)
      && outcome == Taking(db'.attempts[id])
  }

  lemma StartKeeps(first: Db, db: Db, link: Link, id: Id, asked: int, now: int, layout: seq<LayoutEntry>)
    requires DbEvolves(first, db) && StartLeaves(first, db, link, id, asked)
    requires id in first.attempts && (db.attempts[id].status == NotStarted ==> first.attempts[id].status == NotStarted)
    ensures var db' := UpdateStarted(db, id, now, layout);
      DbEvolves(first, db') && StartLeaves(first, db', link, id, asked)
  {
  }

  lemma StartFollows(first: Db, db: Db, db': Db, link: Link, id: Id, outcome: StartOutcome, asked: int, checked: int,
    now: int, layout: seq<LayoutEntry>)
    requires DbEvolves(first, db) && StartLeaves(first, db, link, id, asked)
    requires Owns(first, link, id) <==> Owns(db, link, id)
    requires id in first.attempts ==>
      id in db.attempts && RowFound(first.attempts[id], db.attempts[id], Owns(first, link, id), asked)
    requires Opens(db, db', link, id, outcome, checked, now, layout)
    ensures DbEvolves(first, db') && StartLeaves(first, db', link, id, asked)
    ensures outcome.StartNotFound? <==> !Owns(first, link, id)
    ensures Owns(first, link, id) ==> (
      && id in db'.attempts
      && StartSays(first.attempts[id], db'.attempts[id], link.expiresAt, outcome, asked, checked, now, layout))
  {
    if outcome.Taking? { StartKeeps(first, db, link, id, asked, now, layout); }
  }

  class Service {
    var attempts: map<Id, Attempt>
    var answers: map<(Id, Id), Id>
    /** The last reading of the clock, which never goes back. */
    var clock: int

    function View(): Db reads this { Db(attempts, answers) }

    ghost predicate Valid() reads this { Tidy(clock, View()) }

    constructor (now: int)
      ensures Valid() && View() == Db(map[], map[]) && clock == now
    {
      attempts, answers, clock := map[], map[], now;
    }

    method ReadClock() returns (now: int)
      requires Valid()
      modifies this`clock
      ensures Valid() && now == clock >= old(clock)
    {
      now :| clock <= now;
      TidyLater(clock, now, View());
      clock := now;
    }

    method Store(db: Db)
      modifies this`attempts, this`answers
      ensures View() == db
    {
      attempts, answers := db.attempts, db.answers;
    }

    /** Adds the sheet of a test that was just sent. */
    method Send(id: Id, invitationId: Id, snapshot: Snapshot)
      requires Valid() && id !in attempts
      modifies this`attempts
      ensures Valid()
      ensures View() == old(View()).(attempts := old(attempts)[id :=
        Attempt(invitationId, snapshot, NotStarted, None, None, None, None, None, None)])
    {
      ghost var db := View();
      attempts := attempts[id := Attempt(invitationId, snapshot, NotStarted, None, None, None, None, None, None)];
      AnswersKept(db, View());
      forall other | other in attempts ensures SettledAttempt(LIVE, View(), other) {
        if other != id { assert SettledAttempt(LIVE, db, other); }
        SameAnswers(db, View(), other);
      }
    }

    /**
     * Scores a running attempt and closes it; any other is left alone. The table
     * stays tidy unless an attempt that is not overdue is closed as expired.
     */
    method Finish(id: Id, status: Status)
      requires Valid() && Finished(status)
      modifies this
      ensures clock >= old(clock) && View() == FinishNow(old(View()), id, status, clock)
      ensures Valid() <==> (Running(old(View()), id) && status == Expired ==> IsOverdue(old(attempts)[id], clock))
    {
      if id !in attempts || attempts[id].status != InProgress { return; }
      var a := attempts[id];
      var result := ScoreAttempt(a.snapshot, AnswersOf(View(), id));
      var now := ReadClock();
      assert AttemptOk(LIVE, now, a);
      if status == Expired ==> IsOverdue(a, now) { FinishKeepsTidy(View(), id, status, now); }
      Store(UpdateFinished(View(), id, status, now, result, TimeTaken(a, now)));
      if !(status == Expired ==> IsOverdue(a, now)) { assert !AttemptOk(LIVE, clock, attempts[id]); }
    }

    /** The sweep's query: its rows come in no particular order. */
    method FindOverdue(scope: Option<Id>, cutoff: int) returns (rows: seq<Id>)
      ensures IsOverdueList(View(), rows, scope, cutoff)
    {
      rows := [];
      var todo := set id | id in attempts && SweepMatches(attempts[id], scope, cutoff);
      while todo != {}
        invariant Distinct(rows) && forall id <- rows :: id !in todo
        invariant forall id :: id in rows || id in todo <==> id in attempts && SweepMatches(attempts[id], scope, cutoff)
        decreases |todo|
      {
        var id :| id in todo;
        rows, todo := rows + [id], todo - {id};
      }
    }

    /** One turn of the sweep's loop. */
    method CloseNext(ghost first: Db, ghost closed: seq<Id>, id: Id, ghost scope: Option<Id>, ghost asked: int)
      requires Valid() && asked <= clock && Swept(first, View(), closed, asked) && id !in closed && id in first.attempts
      requires SweepMatches(first.attempts[id], scope, asked - DEADLINE_GRACE_MS)
      modifies this
      ensures Valid() && asked <= clock && Swept(first, View(), closed + [id], asked)
    {
      ghost var before := View();
      StillToClose(first, before, closed, id, scope, asked, clock);
      Finish(id, Expired);
      FinishMoves(first, before, View(), closed, id, asked, clock);
    }

    method CloseAll(rows: seq<Id>, ghost first: Db, ghost scope: Option<Id>, ghost asked: int)
      requires Valid() && asked <= clock && first == View()
      requires IsOverdueList(first, rows, scope, asked - DEADLINE_GRACE_MS)
      modifies this
      ensures Valid() && asked <= clock && Swept(first, View(), rows, asked)
    {
      for i := 0 to |rows|
        invariant Valid() && asked <= clock && Swept(first, View(), rows[..i], asked)
      {
        NextListed(first, rows, scope, asked - DEADLINE_GRACE_MS, i);
        CloseNext(first, rows[..i], rows[i], scope, asked);
      }
      assert rows[..|rows|] == rows;
    }

    /** Closes every running attempt, of one link or of all, whose time has run out. */
    method FinalizeOverdue(scope: Option<Id>) returns (ghost asked: int, ghost rows: seq<Id>)
      requires Valid()
      modifies this
      ensures Valid() && old(clock) <= asked <= clock
      ensures IsOverdueList(old(View()), rows, scope, asked - DEADLINE_GRACE_MS)
      ensures Swept(old(View()), View(), rows, asked)
    {
      var now := ReadClock();
      asked := now;
      var found := FindOverdue(scope, now - DEADLINE_GRACE_MS);
      rows := found;
      CloseAll(found, View(), scope, now);
    }

    /** The rest of a start: the clock starts on an attempt not started, unless the link's limit has passed. */
    method Open(invitation: Link, id: Id, random: Random, at: nat) returns (outcome: StartOutcome, ghost checked: int)
      requires Valid() && IsRandom(random)
      modifies this
      ensures Valid() && old(clock) <= checked <= clock
      ensures Opens(old(View()), View(), invitation, id, outcome, checked, clock,
        if id in old(attempts) then BuildLayout(old(attempts)[id].snapshot, random, at) else [])
    {
      checked := clock;
      if id !in attempts || attempts[id].invitationId != invitation.id { return StartNotFound, checked; }
      var a := attempts[id];
      if Finished(a.status) { return StartFinished, checked; }
      if a.status == NotStarted {
        var limit := ReadClock();
        checked := limit;
        if invitation.expiresAt <= limit { return LinkExpired, checked; }
        var now := ReadClock();
        StartKeepsTidy(View(), id, now, random, at);
        Store(UpdateStarted(View(), id, now, BuildLayout(a.snapshot, random, at)));
      }
      outcome := Taking(attempts[id]);
    }

    /**
     * Starts the clock on the first call; later calls resume. The link's overdue
     * attempts are closed first, as of the time `asked`, so one of them cannot be
     * resumed; the link's own limit is checked at `checked`.
     */
    method Start(invitation: Link, id: Id, random: Random, at: nat)
      returns (outcome: StartOutcome, ghost asked: int, ghost checked: int)
      requires Valid() && IsRandom(random)
      modifies this
      ensures Valid() && DbEvolves(old(View()), View()) && old(clock) <= asked <= checked <= clock
      ensures StartLeaves(old(View()), View(), invitation, id, asked)
      ensures outcome.StartNotFound? <==> !Owns(old(View()), invitation, id)
      ensures Owns(old(View()), invitation, id) ==>
        StartSays(old(attempts)[id], attempts[id], invitation.expiresAt, outcome, asked, checked, clock,
          BuildLayout(old(attempts)[id].snapshot, random, at))
    {
      ghost var first := View();
      ghost var rows;
      asked, rows := FinalizeOverdue(Some(invitation.id));
      ghost var swept := View();
      SweptIsLeft(first, swept, rows, invitation, id, asked);
      outcome, checked := Open(invitation, id, random, at);
      ghost var layout := if id in swept.attempts then BuildLayout(swept.attempts[id].snapshot, random, at) else [];
      StartFollows(first, swept, View(), invitation, id, outcome, asked, checked, clock, layout);
    }

    /** Saves or changes one answer. */
    method Answer(invitation: Link, id: Id, questionId: Id, optionId: Id)
      returns (outcome: AnswerOutcome, ghost checked: int)
      requires Valid()
      modifies this
      ensures Valid() && old(clock) <= checked <= clock
      ensures Saves(old(View()), View(), invitation, id, questionId, optionId, outcome, checked, clock)
    {
      checked := clock;
      if id !in attempts || attempts[id].invitationId != invitation.id { return AnswerNotFound, checked; }
      var a := attempts[id];
      if a.status == NotStarted { return AnswerTooEarly, checked; }
      if a.status != InProgress { return AnswerFinished, checked; }
      var now := ReadClock();
      checked := now;
      if IsOverdue(a, now) {
        Finish(id, Expired);
        return TimeUp, checked;
      }
      if !Offers(a.snapshot, questionId, optionId) { return NotAnOption, checked; }
      AnswerKeepsTidy(View(), id, clock, questionId, optionId);
      Store(UpsertAnswer(View(), id, questionId, optionId));
      outcome := Saved;
    }

    /** Scores and closes the attempt. Safe to repeat. */
    method Submit(invitation: Link, id: Id) returns (outcome: SubmitOutcome, ghost checked: int)
      requires Valid()
      modifies this
      ensures Valid() && old(clock) <= checked <= clock
      ensures Submits(old(View()), View(), invitation, id, outcome, checked, clock)
    {
      checked := clock;
      if id !in attempts || attempts[id].invitationId != invitation.id { return SubmitNotFound, checked; }
      var a := attempts[id];
      if a.status == NotStarted { return SubmitTooEarly, checked; }
      if a.status == InProgress {
        var now := ReadClock();
        checked := now;
        Finish(id, if IsOverdue(a, now) then Expired else Submitted);
      }
      outcome := Closed(attempts[id].status);
    }
  }

  /** What an answer does: one running past its time is closed instead, and an option of the question is stored. */
  predicate Saves(db: Db, db': Db, link: Link, id: Id, questionId: Id, optionId: Id, outcome: AnswerOutcome,
    checked: int, now: int) {
    if !Owns(db, link, id) then outcome == AnswerNotFound && db' == db
    else
      var a := db.attempts[id];
      match a.status
      case NotStarted => outcome == AnswerTooEarly && db' == db
      case InProgress =>
        if IsOverdue(a, checked) then outcome == TimeUp && db' == FinishNow(db, id, Expired, now)
        else if !Offers(a.snapshot, questionId, optionId) then outcome == NotAnOption && db' == db
        else outcome == Saved && db' == Db(db.attempts, db.answers[(id, questionId) := optionId])
      case _ => outcome == AnswerFinished && db' == db
  }

  /** What a submit does: a running attempt is closed, as expired when it is past its time. */
  predicate Submits(db: Db, db': Db, link: Link, id: Id, outcome: SubmitOutcome, checked: int, now: int) {
    if !Owns(db, link, id) then outcome == SubmitNotFound && db' == db
    else
      var a := db.attempts[id];
      match a.status
      case NotStarted => outcome == SubmitTooEarly && db' == db
      case InProgress =>
        var status := if IsOverdue(a, checked) then Expired else Submitted;
        outcome == Closed(status) && db' == FinishNow(db, id, status, now)
      case _ => outcome == Closed(a.status) && db' == db
  }

  // ----- The steps of the protocol, run without interruption ------------------------------------

  /** One request's steps with no other's in between, at times that do not go back. */
  ghost predicate Alone(times: seq<int>, dbs: seq<Db>, pcs: seq<Pc>) {
    && |dbs| == |pcs| == |times| + 1 && pcs[|times|] == Done
    && (forall i, j :: 0 <= i < j < |times| ==> times[i] <= times[j])
    && forall k :: 0 <= k < |times| ==> Step(LIVE, times[k], dbs[k], pcs[k], dbs[k + 1], pcs[k + 1])
  }

  /** The steps from the first one on. */
  lemma Later(times: seq<int>, dbs: seq<Db>, pcs: seq<Pc>)
    requires Alone(times, dbs, pcs) && pcs[0] != Done
    ensures times != [] && Step(LIVE, times[0], dbs[0], pcs[0], dbs[1], pcs[1])
    ensures Alone(times[1..], dbs[1..], pcs[1..])
  {
    forall k | 0 <= k < |times| - 1
      ensures Step(LIVE, times[1..][k], dbs[1..][k], pcs[1..][k], dbs[1..][k + 1], pcs[1..][k + 1])
    {
      assert Step(LIVE, times[k + 1], dbs[k + 1], pcs[k + 1], dbs[k + 2], pcs[k + 2]);
    }
  }

  lemma Ended(times: seq<int>, dbs: seq<Db>, pcs: seq<Pc>)
    requires Alone(times, dbs, pcs) && pcs[0] == Done
    ensures times == []
  {
    assert times != [] ==> Step(LIVE, times[0], dbs[0], pcs[0], dbs[1], pcs[1]);
  }

  /** The three steps of closing an attempt do what Finish does, at the time of the second; others follow. */
  lemma StepsFinish(times: seq<int>, dbs: seq<Db>, pcs: seq<Pc>, id: Id, status: Status, after: After)
    requires Alone(times, dbs, pcs) && pcs[0] == FinishRead(id, status, after) && Running(dbs[0], id)
    ensures |times| >= 3 && dbs[3] == FinishNow(dbs[0], id, status, times[1]) && pcs[3] == Resume(after)
    ensures Alone(times[3..], dbs[3..], pcs[3..])
  {
    Later(times, dbs, pcs);
    Later(times[1..], dbs[1..], pcs[1..]);
    Later(times[1..][1..], dbs[1..][1..], pcs[1..][1..]);
    assert times[1..][1..][1..] == times[3..] && dbs[1..][1..][1..] == dbs[3..] && pcs[1..][1..][1..] == pcs[3..];
  }

  predicate BegunAt(times: seq<int>, checked: int, now: int) { checked in times && now in times && checked <= now }

  /** A start's steps, once its sweep is done, do what Open does. */
  lemma StepsOpen(times: seq<int>, dbs: seq<Db>, pcs: seq<Pc>, link: Link, id: Id)
    requires Alone(times, dbs, pcs) && pcs[0] == StartFind(link, id)
    ensures exists outcome, checked, now, layout ::
      Opens(dbs[0], dbs[|times|], link, id, outcome, checked, now, layout)
      && (dbs[|times|] != dbs[0] ==> BegunAt(times, checked, now) && Drawn(dbs[0].attempts[id].snapshot, layout))
  {
    var db, db' := dbs[0], dbs[|times|];
    Later(times, dbs, pcs);
    if pcs[1] == Done {
      Ended(times[1..], dbs[1..], pcs[1..]);
      var outcome := if !Owns(db, link, id) then StartNotFound
        else if Finished(db.attempts[id].status) then StartFinished else Taking(db.attempts[id]);
      assert Opens(db, db', link, id, outcome, 0, 0, []);
    } else {
      StepsBegin(times[1..], dbs[1..], pcs[1..], link, id);
    }
  }

  lemma StepsBegin(times: seq<int>, dbs: seq<Db>, pcs: seq<Pc>, link: Link, id: Id)
    requires Alone(times, dbs, pcs) && Owns(dbs[0], link, id) && dbs[0].attempts[id].status == NotStarted
    requires pcs[0] == StartCheck(link, id, dbs[0].attempts[id])
    ensures exists outcome, checked, now, layout ::
      Opens(dbs[0], dbs[|times|], link, id, outcome, checked, now, layout)
      && (dbs[|times|] != dbs[0] ==> BegunAt(times, checked, now) && Drawn(dbs[0].attempts[id].snapshot, layout))
  {
    var db, db' := dbs[0], dbs[|times|];
    Later(times, dbs, pcs);
    if pcs[1] == Done {
      Ended(times[1..], dbs[1..], pcs[1..]);
      assert Opens(db, db', link, id, LinkExpired, times[0], 0, []);
    } else {
      StepsWrite(times[1..], dbs[1..], pcs[1..], id);
      var layout :| db' == UpdateStarted(db, id, times[1], layout) && Drawn(db.attempts[id].snapshot, layout);
      assert Opens(db, db', link, id, Taking(db'.attempts[id]), times[0], times[1], layout);
    }
  }

  lemma StepsWrite(times: seq<int>, dbs: seq<Db>, pcs: seq<Pc>, id: Id)
    requires Alone(times, dbs, pcs) && id in dbs[0].attempts && pcs[0] == StartStamp(id, dbs[0].attempts[id])
    ensures |times| == 3 && exists layout ::
      dbs[3] == UpdateStarted(dbs[0], id, times[0], layout) && Drawn(dbs[0].attempts[id].snapshot, layout)
  {
    Later(times, dbs, pcs);
    Later(times[1..], dbs[1..], pcs[1..]);
    Later(times[1..][1..], dbs[1..][1..], pcs[1..][1..]);
    Ended(times[1..][1..][1..], dbs[1..][1..][1..], pcs[1..][1..][1..]);
    assert dbs[3] == UpdateStarted(dbs[0], id, times[0], pcs[1].layout);
  }

  /** An answer's steps do what Answer does. */
  lemma StepsAnswer(times: seq<int>, dbs: seq<Db>, pcs: seq<Pc>, link: Link, id: Id, questionId: Id, optionId: Id)
    requires Alone(times, dbs, pcs) && pcs[0] == AnswerFind(link, id, questionId, optionId)
    ensures exists outcome, checked, now ::
      Saves(dbs[0], dbs[|times|], link, id, questionId, optionId, outcome, checked, now)
      && (dbs[|times|] != dbs[0] ==> checked in times)
  {
    var db, db' := dbs[0], dbs[|times|];
    Later(times, dbs, pcs);
    if pcs[1] == Done {
      Ended(times[1..], dbs[1..], pcs[1..]);
      var outcome := if !Owns(db, link, id) then AnswerNotFound
        else if db.attempts[id].status == NotStarted then AnswerTooEarly else AnswerFinished;
      assert Saves(db, db', link, id, questionId, optionId, outcome, 0, 0);
    } else {
      StepsSave(times[1..], dbs[1..], pcs[1..], link, id, questionId, optionId);
    }
  }

  lemma StepsSave(times: seq<int>, dbs: seq<Db>, pcs: seq<Pc>, link: Link, id: Id, questionId: Id, optionId: Id)
    requires Alone(times, dbs, pcs) && Owns(dbs[0], link, id) && Running(dbs[0], id)
    requires pcs[0] == AnswerCheck(id, dbs[0].attempts[id], questionId, optionId)
    ensures exists outcome, checked, now ::
      Saves(dbs[0], dbs[|times|], link, id, questionId, optionId, outcome, checked, now)
      && (dbs[|times|] != dbs[0] ==> checked in times)
  {
    var db, db' := dbs[0], dbs[|times|];
    Later(times, dbs, pcs);
    if pcs[1].FinishRead? {
      StepsFinish(times[1..], dbs[1..], pcs[1..], id, Expired, ThenDone);
      Ended(times[1..][3..], dbs[1..][3..], pcs[1..][3..]);
      assert Saves(db, db', link, id, questionId, optionId, TimeUp, times[0], times[2]);
    } else if pcs[1] == Done {
      Ended(times[1..], dbs[1..], pcs[1..]);
      assert Saves(db, db', link, id, questionId, optionId, NotAnOption, times[0], 0);
    } else {
      Later(times[1..], dbs[1..], pcs[1..]);
      Ended(times[1..][1..], dbs[1..][1..], pcs[1..][1..]);
      assert Saves(db, db', link, id, questionId, optionId, Saved, times[0], 0);
    }
  }

  /** A submit's steps do what Submit does. */
  lemma StepsSubmit(times: seq<int>, dbs: seq<Db>, pcs: seq<Pc>, link: Link, id: Id)
    requires Alone(times, dbs, pcs) && pcs[0] == SubmitFind(link, id)
    ensures exists outcome, checked, now ::
      Submits(dbs[0], dbs[|times|], link, id, outcome, checked, now)
      && (dbs[|times|] != dbs[0] ==> checked in times && now in times)
  {
    var db, db' := dbs[0], dbs[|times|];
    Later(times, dbs, pcs);
    if pcs[1] == Done {
      Ended(times[1..], dbs[1..], pcs[1..]);
      assert Submits(db, db', link, id, if Owns(db, link, id) then SubmitTooEarly else SubmitNotFound, 0, 0);
    } else if pcs[1] == ReadStatus(id) {
      StepsRead(times[1..], dbs[1..], pcs[1..], id);
      assert Submits(db, db', link, id, Closed(db.attempts[id].status), 0, 0);
    } else {
      StepsClose(times[1..], dbs[1..], pcs[1..], link, id);
    }
  }

  lemma StepsRead(times: seq<int>, dbs: seq<Db>, pcs: seq<Pc>, id: Id)
    requires Alone(times, dbs, pcs) && pcs[0] == ReadStatus(id)
    ensures |times| == 1 && dbs[1] == dbs[0]
  {
    Later(times, dbs, pcs);
    Ended(times[1..], dbs[1..], pcs[1..]);
  }

  lemma StepsClose(times: seq<int>, dbs: seq<Db>, pcs: seq<Pc>, link: Link, id: Id)
    requires Alone(times, dbs, pcs) && Owns(dbs[0], link, id) && Running(dbs[0], id)
    requires pcs[0] == SubmitCheck(id, dbs[0].attempts[id])
    ensures exists outcome, checked, now ::
      Submits(dbs[0], dbs[|times|], link, id, outcome, checked, now)
      && (dbs[|times|] != dbs[0] ==> checked in times && now in times)
  {
    var status := if IsOverdue(dbs[0].attempts[id], times[0]) then Expired else Submitted;
    Later(times, dbs, pcs);
    StepsFinish(times[1..], dbs[1..], pcs[1..], id, status, ThenReadStatus(id));
    StepsRead(times[1..][3..], dbs[1..][3..], pcs[1..][3..], id);
    assert Submits(dbs[0], dbs[|times|], link, id, Closed(status), times[0], times[2]);
  }
}
