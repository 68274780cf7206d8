/** Server-side login sessions with one-time refresh tokens: issue, rotate, revoke. */
module AuthSessions {
  import opened Wrappers

  type Time = int

  /** Generated identifiers; NO_ID stands for the empty string. */
  type Id = nat

  const NO_ID: Id := 0

  /** The claims of a refresh token; None is a missing or malformed claim. */
  datatype Claims = Claims(sub: Option<int>, jti: Option<Id>, sid: Option<Id>, family: Option<Id>)

  /** A token determines its claims; `rest` is everything else it is signed over, as a number. */
  datatype Token = Token(claims: Claims, rest: nat)

  /** The stored proof of a token: equal proofs mean equal tokens. */
  datatype Proof = Proof(of: Token)

  datatype SessionRow = SessionRow(user: int, family: Id, createdAt: Time, lastSeenAt: Time, expiresAt: Time,
                                   revokedAt: Option<Time>, reason: Option<string>)

  datatype TokenRow = TokenRow(proof: Proof, sid: Id, family: Id, user: int, issuedAt: Time, expiresAt: Time,
                               usedAt: Option<Time>, revokedAt: Option<Time>)

  datatype Store = Store(sessions: map<Id, SessionRow>, tokens: map<Id, TokenRow>)

  const REPLAY_REASON := "refresh_replay_or_invalid"

  function Coalesce<T>(current: Option<T>, value: T): Option<T> {
    if current.Some? then current else Some(value)
  }

  function NewToken(user: int, sid: Id, family: Id, jti: Id, rest: nat): Token {
    Token(Claims(Some(user), Some(jti), Some(sid), Some(family)), rest)
  }

  function NewRow(user: int, sid: Id, family: Id, jti: Id, rest: nat, now: Time, lifetime: int): TokenRow {
    TokenRow(Proof(NewToken(user, sid, family, jti, rest)), sid, family, user, now, now + lifetime, None, None)
  }

  /** A login: one session in a family of its own, with its first token. */
  function Issue(s: Store, user: int, sid: Id, family: Id, jti: Id, rest: nat, now: Time, lifetime: int): Store {
    Store(s.sessions[sid := SessionRow(user, family, now, now, now + lifetime, None, None)],
          s.tokens[jti := NewRow(user, sid, family, jti, rest, now, lifetime)])
  }

  predicate WellFormedClaims(c: Claims) {
    && c.sub.Some? && c.jti.Some? && c.sid.Some? && c.family.Some?
    && c.jti.value != NO_ID && c.sid.value != NO_ID && c.family.value != NO_ID
  }

  /** The validity test of a rotation. The token row is looked up by its jti alone. */
  predicate Acceptable(s: Store, t: Token, now: Time) {
    var c := t.claims;
    && WellFormedClaims(c)
    && c.sid.value in s.sessions && c.jti.value in s.tokens
    && var session, token := s.sessions[c.sid.value], s.tokens[c.jti.value];
    && session.user == c.sub.value && session.family == c.family.value
    && token.proof == Proof(t)
    && token.usedAt.None? && token.revokedAt.None?
    && session.revokedAt.None? && session.expiresAt > now
  }

  function RevokeRow(row: SessionRow, now: Time, reason: string): SessionRow {
    row.(revokedAt := Coalesce(row.revokedAt, now), reason := Coalesce(row.reason, reason))
  }

  function RevokeToken(row: TokenRow, now: Time): TokenRow {
    row.(revokedAt := Coalesce(row.revokedAt, now))
  }

  /** The answer to a replayed or otherwise invalid token: its session and its family are revoked. */
  function Punish(s: Store, c: Claims, now: Time): Store
    requires WellFormedClaims(c)
  {
    Store(map sid | sid in s.sessions ::
            var row := s.sessions[sid];
            if sid == c.sid.value && row.user == c.sub.value && row.family == c.family.value
            then RevokeRow(row, now, REPLAY_REASON) else row,
          map jti | jti in s.tokens ::
            var row := s.tokens[jti];
            if row.user == c.sub.value && row.family == c.family.value then RevokeToken(row, now) else row)
  }

  function Consume(s: Store, t: Token, jti: Id, rest: nat, now: Time, lifetime: int): Store
    requires Acceptable(s, t, now)
  {
    var c := t.claims;
    Store(s.sessions[c.sid.value := s.sessions[c.sid.value].(lastSeenAt := now)],
          s.tokens[c.jti.value := s.tokens[c.jti.value].(usedAt := Some(now))]
                  [jti := NewRow(c.sub.value, c.sid.value, c.family.value, jti, rest, now, lifetime)])
  }

  function Rotate(s: Store, t: Token, jti: Id, rest: nat, now: Time, lifetime: int): Store {
    if !WellFormedClaims(t.claims) then s
    else if Acceptable(s, t, now) then Consume(s, t, jti, rest, now, lifetime)
    else Punish(s, t.claims, now)
  }

  /** An empty session id, like None, means all sessions of the user. */
  predicate Selects(sid: Option<Id>, candidate: Id) {
    sid.None? || sid.value == NO_ID || sid.value == candidate
  }

  function Revoke(s: Store, user: int, sid: Option<Id>, reason: string, now: Time): Store {
    Store(map x | x in s.sessions ::
            var row := s.sessions[x];
            if row.user == user && Selects(sid, x) && row.revokedAt.None? then RevokeRow(row, now, reason) else row,
          map jti | jti in s.tokens ::
            var row := s.tokens[jti];
            if row.user == user && Selects(sid, row.sid) then RevokeToken(row, now) else row)
  }

  predicate IsActive(s: Store, user: int, sid: Id, now: Time) {
    sid in s.sessions && s.sessions[sid].user == user
    && s.sessions[sid].revokedAt.None? && s.sessions[sid].expiresAt > now
  }

  /** The two tables and the operations that update them in place. */
  class AuthStore {
    var sessions: map<Id, SessionRow>
    var tokens: map<Id, TokenRow>
    const lifetime: int

    function View(): Store
      reads this
    {
      Store(sessions, tokens)
    }

    constructor (lifetime: int)
      ensures View() == Store(map[], map[]) && this.lifetime == lifetime
    {
      sessions, tokens := map[], map[];
      this.lifetime := lifetime;
    }

    /** Fresh identifiers are the caller's; the primary keys demand that they are new. */
    method IssueNewSession(user: int, sid: Id, family: Id, jti: Id, rest: nat, now: Time)
      returns (refresh: Token)
      requires sid !in sessions && jti !in tokens
      modifies this
      ensures View() == Issue(old(View()), user, sid, family, jti, rest, now, lifetime)
      ensures refresh == NewToken(user, sid, family, jti, rest)
    {
      refresh := NewToken(user, sid, family, jti, rest);
      sessions := sessions[sid := SessionRow(user, family, now, now, now + lifetime, None, None)];
      tokens := tokens[jti := TokenRow(Proof(refresh), sid, family, user, now, now + lifetime, None, None)];
    }

    method RotateRefreshToken(t: Token, jti: Id, rest: nat, now: Time) returns (next: Option<Token>)
      requires jti !in tokens
      modifies this
      ensures View() == Rotate(old(View()), t, jti, rest, now, lifetime)
      ensures next == if old(Acceptable(View(), t, now))
                      then Some(NewToken(t.claims.sub.value, t.claims.sid.value, t.claims.family.value, jti, rest))
                      else None
    {
      var c := t.claims;
      if !WellFormedClaims(c) {
        return None;
      }
      var user, oldJti, sid, family := c.sub.value, c.jti.value, c.sid.value, c.family.value;
      var valid := false;
      if sid in sessions && oldJti in tokens {
        var s, k := sessions[sid], tokens[oldJti];
        valid := s.user == user && s.family == family && k.proof == Proof(t) && k.usedAt.None?
                 && k.revokedAt.None? && s.revokedAt.None? && s.expiresAt > now;
      }
      if !valid {
        sessions := map x | x in sessions ::
          var row := sessions[x];
          if x == sid && row.user == user && row.family == family then RevokeRow(row, now, REPLAY_REASON) else row;
        tokens := map x | x in tokens ::
          var row := tokens[x];
          if row.user == user && row.family == family then RevokeToken(row, now) else row;
        return None;
      }
      tokens := tokens[oldJti := tokens[oldJti].(usedAt := Some(now))];
      var token := NewToken(user, sid, family, jti, rest);
      tokens := tokens[jti := TokenRow(Proof(token), sid, family, user, now, now + lifetime, None, None)];
      sessions := sessions[sid := sessions[sid].(lastSeenAt := now)];
      next := Some(token);
    }

    /** Revokes one session, or all of a user's; returns how many sessions it revoked. */
    method RevokeSession(user: int, sid: Option<Id>, reason: string, now: Time) returns (count: nat)
      modifies this
      ensures View() == Revoke(old(View()), user, sid, reason, now)
      ensures sid == None || sid == Some(NO_ID) ==>
                forall x | x in sessions && sessions[x].user == user :: sessions[x].revokedAt.Some?
      ensures count == |set x | x in old(sessions) && old(sessions)[x].revokedAt.None? && sessions[x].revokedAt.Some?|
    {
      var hit := set x | x in sessions && sessions[x].user == user && Selects(sid, x) && sessions[x].revokedAt.None?;
      sessions := map x | x in sessions :: if x in hit then RevokeRow(sessions[x], now, reason) else sessions[x];
      tokens := map x | x in tokens ::
        var row := tokens[x];
        if row.user == user && Selects(sid, row.sid) then RevokeToken(row, now) else row;
      assert hit == set x | x in old(sessions) && old(sessions)[x].revokedAt.None? && sessions[x].revokedAt.Some?;
      count := |hit|;
    }

    method SessionIsActive(user: int, sid: Id, now: Time) returns (active: bool)
      ensures active == IsActive(View(), user, sid, now)
    {
      active := sid in sessions && sessions[sid].user == user
                && sessions[sid].revokedAt.None? && sessions[sid].expiresAt > now;
    }
  }
}
