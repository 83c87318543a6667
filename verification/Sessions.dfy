/**
 * Server-side sessions: an idle expiry that moves forward at most once an
 * hour, under a limit that does not move. Times are in milliseconds.
 */
module Sessions {
  import opened Basics

  const HOUR := 60 * 60 * 1000
  const DAY := 24 * HOUR
  const SESSION_ABSOLUTE_TTL := 30 * DAY
  const SESSION_RENEW_INTERVAL := HOUR

  type Token = nat
  type UserId = nat

  datatype Session = Session(userId: UserId, expiresAt: int, lastUsedAt: int, createdAt: int)

  function Limit(createdAt: int): int { createdAt + SESSION_ABSOLUTE_TTL }

  function IdleExpiry(idleTtl: int, now: int, limit: int): int {
    if now + idleTtl < limit then now + idleTtl else limit
  }

  /** `SESSION_TTL_DAYS` is from 1 to 30. */
  predicate IsIdleTtl(idleTtl: int) { DAY <= idleTtl <= SESSION_ABSOLUTE_TTL }

  predicate SessionOk(idleTtl: int, s: Session) {
    s.expiresAt == IdleExpiry(idleTtl, s.lastUsedAt, Limit(s.createdAt))
  }

  function NewSession(idleTtl: int, userId: UserId, now: int): Session {
    Session(userId, IdleExpiry(idleTtl, now, Limit(now)), now, now)
  }

  /** A session used at `now`: renewed unless it was within the hour. */
  function Used(idleTtl: int, s: Session, now: int): Session {
    if now - s.lastUsedAt < SESSION_RENEW_INTERVAL then s
    else s.(lastUsedAt := now, expiresAt := IdleExpiry(idleTtl, now, Limit(s.createdAt)))
  }

  // ----- The store ----------------------------------------------------------------------------

  class Store {
    const idleTtl: int
    var sessions: map<Token, Session>
    /** When each token was issued. Tokens are random, so none is issued twice. */
    ghost var issued: map<Token, int>

    ghost predicate Valid()
      reads this
    {
      forall t <- sessions.Keys :: SessionOk(idleTtl, sessions[t]) && t in issued && issued[t] == sessions[t].createdAt
    }

    constructor (idleTtl: int)
      ensures Valid() && sessions == map[] && this.idleTtl == idleTtl && issued == map[]
    {
      this.idleTtl, sessions, issued := idleTtl, map[], map[];
    }

    method Create(userId: UserId, token: Token, now: int) returns (absoluteExpiresAt: int)
      requires Valid() && token !in issued
      modifies this
      ensures Valid() && absoluteExpiresAt == now + 30 * 24 * 60 * 60 * 1000
      ensures sessions == old(sessions)[token := Session(userId,
        if now + idleTtl < absoluteExpiresAt then now + idleTtl else absoluteExpiresAt, now, now)]
      ensures sessions[token] == NewSession(idleTtl, userId, now) && issued == old(issued)[token := now]
      ensures sessions[token].expiresAt <= absoluteExpiresAt
    {
      absoluteExpiresAt := now + SESSION_ABSOLUTE_TTL;
      sessions := sessions[token := Session(userId, IdleExpiry(idleTtl, now, absoluteExpiresAt), now, now)];
      issued := issued[token := now];
    }

    /** The first read of a request. */
    method Find(token: Token) returns (found: Option<Session>)
      requires Valid()
      ensures found == if token in sessions then Some(sessions[token]) else None
      ensures found.Some? ==> SessionOk(idleTtl, found.value) && IssuedAt(token, found.value)
    {
      found := if token in sessions then Some(sessions[token]) else None;
    }

    /** What a request read once; it stays so whatever happens to the row meanwhile. */
    ghost predicate IssuedAt(token: Token, found: Session)
      reads this
    {
      token in issued && issued[token] == found.createdAt
    }

    /** Deletes an expired session that a request has read. */
    method DropExpired(token: Token)
      requires Valid()
      modifies this`sessions
      ensures Valid() && sessions == old(sessions) - {token}
    {
      sessions := sessions - {token};
    }

    /** The write of a request: it renews the row a read found, unless that was deleted meanwhile. */
    method Renew(token: Token, found: Session, now: int) returns (kept: bool)
      requires Valid() && IssuedAt(token, found)
      modifies this`sessions
      ensures Valid()
      ensures kept <==> token in old(sessions)
      ensures !kept ==> sessions == old(sessions)
      ensures kept ==> sessions == old(sessions)[token := old(sessions)[token].(
        lastUsedAt := now, expiresAt := IdleExpiry(idleTtl, now, Limit(old(sessions)[token].createdAt)))]
    {
      if token !in sessions { return false; }
      var limit := found.createdAt + SESSION_ABSOLUTE_TTL;
      sessions := sessions[token := sessions[token].(lastUsedAt := now, expiresAt := IdleExpiry(idleTtl, now, limit))];
      kept := true;
    }

    /** A whole request, with nothing in between: the session if it may be used at `now`, and it is then renewed. */
    method Validate(token: Token, active: bool, now: int) returns (session: Option<Session>)
      requires Valid()
      modifies this`sessions
      ensures Valid()
      ensures session.Some? <==> active && token in old(sessions) && now < old(sessions)[token].expiresAt
      ensures session.Some? ==>
        session.value == Used(idleTtl, old(sessions)[token], now) && sessions == old(sessions)[token := session.value]
      ensures session.None? && token in old(sessions) && old(sessions)[token].expiresAt <= now ==>
        sessions == old(sessions) - {token}
      ensures session.None? && !(token in old(sessions) && old(sessions)[token].expiresAt <= now) ==>
        sessions == old(sessions)
    {
      var found := Find(token);
      if found.None? { return None; }
      var s := found.value;
      if s.expiresAt <= now {
        DropExpired(token);
        return None;
      }
      if !active { return None; }
      if now - s.lastUsedAt < SESSION_RENEW_INTERVAL { return Some(s); }
      var kept := Renew(token, s, now);
      session := Some(s.(lastUsedAt := now, expiresAt := IdleExpiry(idleTtl, now, s.createdAt + SESSION_ABSOLUTE_TTL)));
    }

    method RevokeByToken(token: Token)
      requires Valid()
      modifies this`sessions
      ensures Valid() && sessions == old(sessions) - {token}
    {
      sessions := sessions - {token};
    }

    /** Signs the user out everywhere, except in one session if given. */
    method RevokeAllForUser(userId: UserId, keep: Option<Token>)
      requires Valid()
      modifies this`sessions
      ensures Valid()
      ensures sessions.Keys == set t | t in old(sessions) && (old(sessions)[t].userId != userId || keep == Some(t))
      ensures forall t <- sessions.Keys :: sessions[t] == old(sessions)[t]
    {
      sessions := map t | t in sessions && (sessions[t].userId != userId || keep == Some(t)) :: sessions[t];
    }

    method DeleteExpiredForUser(userId: UserId, now: int)
      requires Valid()
      modifies this`sessions
      ensures Valid()
      ensures sessions.Keys ==
        set t | t in old(sessions) && !(old(sessions)[t].userId == userId && old(sessions)[t].expiresAt < now)
      ensures forall t <- sessions.Keys :: sessions[t] == old(sessions)[t]
    {
      sessions := map t | t in sessions && !(sessions[t].userId == userId && sessions[t].expiresAt < now)
        :: sessions[t];
    }
  }

  // ----- When a session is accepted ---------------------------------------------------------------

  predicate Accepted(s: Session, now: int) { s.expiresAt > now }

  /** A session is accepted exactly before both of its limits. */
  lemma AcceptedBeforeBoth(idleTtl: int, s: Session, now: int)
    requires SessionOk(idleTtl, s)
    ensures Accepted(s, now) <==> now < s.lastUsedAt + idleTtl && now < s.createdAt + 30 * 24 * 60 * 60 * 1000
    ensures var used := Used(idleTtl, s, now);
      && SessionOk(idleTtl, used) && used.createdAt == s.createdAt && used.userId == s.userId
      && used.lastUsedAt == if now < s.lastUsedAt + 60 * 60 * 1000 then s.lastUsedAt else now
  {
  }

  /** A session after requests at these times, each accepted; none once one is refused. */
  function After(idleTtl: int, s: Session, times: seq<int>): Option<Session> {
    if times == [] then Some(s)
    else
      var n := |times| - 1;
      match After(idleTtl, s, times[..n])
      case None => None
      case Some(before) => if Accepted(before, times[n]) then Some(Used(idleTtl, before, times[n])) else None
  }

  /** The time of the last request, or of the sign-in. */
  function LastTime(start: int, times: seq<int>): int {
    if times == [] then start else times[|times| - 1]
  }

  /** Each request comes at most `gap` after the one before, and never earlier. */
  predicate Paced(start: int, times: seq<int>, gap: int) {
    forall i :: 0 <= i < |times| ==> LastTime(start, times[..i]) <= times[i] <= LastTime(start, times[..i]) + gap
  }

  /** Requests never more than idleTtl less an hour apart keep a session going: it is never an hour behind. */
  lemma {:induction false} PacedIsAccepted(idleTtl: int, userId: UserId, start: int, times: seq<int>)
    requires IsIdleTtl(idleTtl) && Paced(start, times, idleTtl - SESSION_RENEW_INTERVAL)
    requires forall t <- times :: t < Limit(start)
    ensures var s := After(idleTtl, NewSession(idleTtl, userId, start), times);
      && s.Some? && SessionOk(idleTtl, s.value) && s.value.createdAt == start
      && s.value.lastUsedAt <= LastTime(start, times) < s.value.lastUsedAt + SESSION_RENEW_INTERVAL
  {
    if times != [] {
      var n := |times| - 1;
      forall t | t in times[..n] ensures t < Limit(start) { assert t in times; }
      PacedIsAccepted(idleTtl, userId, start, times[..n]);
      var before := After(idleTtl, NewSession(idleTtl, userId, start), times[..n]).value;
      assert times[n] in times;
      AcceptedBeforeBoth(idleTtl, before, times[n]);
    }
  }

  /** Whether every user whose requests come at most `gap` apart is accepted right up to the limit. */
  ghost predicate KeptBy(idleTtl: int, gap: int) {
    forall start: int, times: seq<int> ::
      Paced(start, times, gap) && (forall t <- times :: t < Limit(start)) ==>
        After(idleTtl, NewSession(idleTtl, 0, start), times).Some?
  }

  /** A request just inside the hour renews nothing; the next one a full idle time after sign-in is refused. */
  lemma LateByOne(idleTtl: int)
    requires IsIdleTtl(idleTtl)
    ensures var times := [HOUR - 1, idleTtl];
      && Paced(0, times, idleTtl - SESSION_RENEW_INTERVAL + 1)
      && After(idleTtl, NewSession(idleTtl, 0, 0), times).None?
  {
    var times := [HOUR - 1, idleTtl];
    var s := NewSession(idleTtl, 0, 0);
    assert times[..1] == [HOUR - 1] && times[..0] == [] && [HOUR - 1][..0] == [];
    assert After(idleTtl, s, []) == Some(s);
    assert After(idleTtl, s, [HOUR - 1]) == Some(s);
  }

  /**
   * Being active every idleTtl less an hour is enough to stay signed in to the
   * limit, and nothing longer is. With an idle time of the whole 30 days there
   * is nothing to keep up.
   */
  lemma KeptExactly(idleTtl: int, gap: int)
    requires IsIdleTtl(idleTtl) && idleTtl < SESSION_ABSOLUTE_TTL
    ensures KeptBy(idleTtl, gap) <==> gap <= idleTtl - 60 * 60 * 1000
  {
    if gap <= idleTtl - SESSION_RENEW_INTERVAL {
      forall start: int, times: seq<int> | Paced(start, times, gap) && (forall t <- times :: t < Limit(start))
        ensures After(idleTtl, NewSession(idleTtl, 0, start), times).Some?
      {
        PacedIsAccepted(idleTtl, 0, start, times);
      }
    } else {
      LateByOne(idleTtl);
      var times := [HOUR - 1, idleTtl];
      assert forall t <- times :: t < Limit(0);
    }
  }

  /** With the longest idle time, only the limit counts. */
  lemma {:induction false} LongestIdleOnlyLimit(userId: UserId, start: int, times: seq<int>)
    requires forall i :: 0 <= i < |times| ==> LastTime(start, times[..i]) <= times[i]
    requires forall t <- times :: t < Limit(start)
    ensures var s := After(SESSION_ABSOLUTE_TTL, NewSession(SESSION_ABSOLUTE_TTL, userId, start), times);
      s.Some? && s.value.createdAt == start && s.value.expiresAt == Limit(start)
      && start <= s.value.lastUsedAt <= LastTime(start, times)
  {
    if times != [] {
      var n := |times| - 1;
      forall t | t in times[..n] ensures t < Limit(start) { assert t in times; }
      forall i | 0 <= i < n ensures LastTime(start, times[..n][..i]) <= times[..n][i] {
        assert times[..n][..i] == times[..i] && times[..n][i] == times[i];
      }
      LongestIdleOnlyLimit(userId, start, times[..n]);
      assert times[n] in times;
    }
  }
}
