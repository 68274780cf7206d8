/** Whole runs against the clock: when sessions and tokens begin and end, what revokes a session, and when it is
    active. */
module AuthTimes {
  import opened Wrappers
  import opened AuthSessions
  import opened AuthRuns

  /** The state in which the j-th operation of a run takes place. */
  function At(ops: seq<Op>, lifetime: int, j: nat): World
    requires j <= |ops|
  {
    Exec(EMPTY, ops[..j], lifetime)
  }

  lemma RunIsInv(ops: seq<Op>, lifetime: int)
    requires Legal(EMPTY, ops, lifetime)
    ensures Inv(Exec(EMPTY, ops, lifetime))
  {
    hide Inv, Legal, Exec;
    StartIsInv();
    RunKeepsInv(EMPTY, ops, lifetime);
  }

  // --- Sessions ------------------------------------------------------------------------------------------

  ghost predicate SessionOf(s: Store, op: Op, lifetime: int) {
    && op.Login? && op.sid in s.sessions
    && var row := s.sessions[op.sid];
    && row.user == op.user && row.family == op.family
    && row.createdAt == op.now && row.expiresAt == op.now + lifetime
  }

  /** Each login of a run leaves a session of its user that ends one lifetime after the login, whatever follows. */
  lemma {:induction false} LoginsKeepTheirDates(ops: seq<Op>, lifetime: int, i: nat)
    requires Legal(EMPTY, ops, lifetime) && i < |ops| && ops[i].Login?
    ensures SessionOf(Exec(EMPTY, ops, lifetime).store, ops[i], lifetime)
  {
    hide Inv;
    var k := |ops| - 1;
    var front, before := ops[..k], Exec(EMPTY, ops[..k], lifetime);
    if i < k {
      hide Next, Enabled;
      assert front[i] == ops[i];
      LoginsKeepTheirDates(front, lifetime, i);
      RunIsInv(front, lifetime);
      StepPersists(before, ops[k], lifetime, ops[i].sid);
    }
  }

  /** Every session of a run comes from one of its logins. */
  lemma {:induction false} SessionsComeFromLogins(ops: seq<Op>, lifetime: int, sid: Id) returns (i: nat)
    requires Legal(EMPTY, ops, lifetime) && sid in Exec(EMPTY, ops, lifetime).store.sessions
    ensures i < |ops| && ops[i].Login? && ops[i].sid == sid
  {
    var k := |ops| - 1;
    if ops[k].Login? && ops[k].sid == sid {
      i := k;
    } else {
      i := SessionsComeFromLogins(ops[..k], lifetime, sid);
    }
  }

  // --- Revocation ----------------------------------------------------------------------------------------

  /** An operation that revokes a session: a logout that selects it, or a rejected token that names it. */
  ghost predicate Revokes(w: World, op: Op, sid: Id) {
    && sid in w.store.sessions
    && match op
       case Login(_, _, _, _, _, _) => false
       case Logout(user, target, _, _) => w.store.sessions[sid].user == user && Selects(target, sid)
       case Refresh(t, _, _, now) => !Acceptable(w.store, t, now) && NamesSession(w.store, t.claims, sid)
  }

  ghost predicate RevokesAt(ops: seq<Op>, lifetime: int, sid: Id, j: int) {
    0 <= j < |ops| && Revokes(At(ops, lifetime, j), ops[j], sid)
  }

  function ReasonOf(op: Op): string {
    if op.Logout? then op.reason else "refresh_replay_or_invalid"
  }

  lemma StepRevokes(w: World, op: Op, lifetime: int, sid: Id)
    requires ReasonsKept(w.store) && Enabled(w, op) && sid in w.store.sessions
    ensures var row, next := w.store.sessions[sid], Next(w, op, lifetime).store.sessions;
            && sid in next
            && next[sid].revokedAt == (if row.revokedAt.Some? then row.revokedAt
                                       else if Revokes(w, op, sid) then Some(op.now) else None)
            && next[sid].reason == (if row.revokedAt.Some? then row.reason
                                    else if Revokes(w, op, sid) then Some(ReasonOf(op)) else None)
  {
  }

  /** What revokes a session in a run is what revoked it before the last operation, or that operation. */
  lemma RevokesSplits(ops: seq<Op>, lifetime: int, sid: Id, j: int)
    requires ops != []
    ensures var k := |ops| - 1;
            RevokesAt(ops, lifetime, sid, j) <==>
              RevokesAt(ops[..k], lifetime, sid, j)
              || (j == k && Revokes(Exec(EMPTY, ops[..k], lifetime), ops[k], sid))
  {
    hide Revokes, Exec;
    var k := |ops| - 1;
    if 0 <= j <= k {
      assert ops[..k][..j] == ops[..j];
    }
  }

  lemma {:induction false} SessionsStay(ops: seq<Op>, lifetime: int, j: nat, sid: Id)
    requires Legal(EMPTY, ops, lifetime) && j <= |ops| && sid in At(ops, lifetime, j).store.sessions
    ensures sid in Exec(EMPTY, ops, lifetime).store.sessions
  {
    if j < |ops| {
      var k := |ops| - 1;
      assert ops[..k][..j] == ops[..j];
      SessionsStay(ops[..k], lifetime, j, sid);
    } else {
      assert ops[..j] == ops;
    }
  }

  /** The first operation that revokes the session, if any. */
  ghost predicate FirstToRevoke(ops: seq<Op>, lifetime: int, sid: Id, j: int) {
    RevokesAt(ops, lifetime, sid, j) && forall i | 0 <= i < j :: !RevokesAt(ops, lifetime, sid, i)
  }

  /** The last login's session: nothing before it can have revoked it. */
  lemma NewSessionIsUnrevoked(ops: seq<Op>, lifetime: int, sid: Id)
    requires Legal(EMPTY, ops, lifetime) && ops != []
    requires sid !in Exec(EMPTY, ops[..|ops| - 1], lifetime).store.sessions
    requires sid in Exec(EMPTY, ops, lifetime).store.sessions
    ensures Exec(EMPTY, ops, lifetime).store.sessions[sid].revokedAt.None?
    ensures forall j :: !RevokesAt(ops, lifetime, sid, j)
  {
    var k := |ops| - 1;
    forall j
      ensures !RevokesAt(ops, lifetime, sid, j)
    {
      RevokesSplits(ops, lifetime, sid, j);
      if RevokesAt(ops[..k], lifetime, sid, j) {
        SessionsStay(ops[..k], lifetime, j, sid);
      }
    }
  }

  /** A session is revoked if and only if some operation of the run revoked it; the time and the reason are those of
      the first one that did. */
  lemma {:induction false} RevokedExactly(ops: seq<Op>, lifetime: int, sid: Id)
    requires Legal(EMPTY, ops, lifetime) && sid in Exec(EMPTY, ops, lifetime).store.sessions
    ensures var row := Exec(EMPTY, ops, lifetime).store.sessions[sid];
            && (row.revokedAt.Some? <==> exists j :: RevokesAt(ops, lifetime, sid, j))
            && (forall j | FirstToRevoke(ops, lifetime, sid, j) ::
                  row.revokedAt == Some(ops[j].now) && row.reason == Some(ReasonOf(ops[j])))
  {
    hide Next, Enabled, Revokes, RevokesAt;
    var k := |ops| - 1;
    var front, before := ops[..k], Exec(EMPTY, ops[..k], lifetime);
    if sid in before.store.sessions {
      RevokedExactly(front, lifetime, sid);
      RunIsInv(front, lifetime);
      StepRevokes(before, ops[k], lifetime, sid);
      var row := before.store.sessions[sid];
      forall j
        ensures RevokesAt(ops, lifetime, sid, j) <==>
                  RevokesAt(front, lifetime, sid, j) || (j == k && Revokes(before, ops[k], sid))
        ensures RevokesAt(front, lifetime, sid, j) ==> 0 <= j < k && front[j] == ops[j]
      {
        RevokesSplits(ops, lifetime, sid, j);
        RevokesInRange(front, lifetime, sid, j);
      }
      assert Revokes(before, ops[k], sid) ==> RevokesAt(ops, lifetime, sid, k);
      forall j | FirstToRevoke(ops, lifetime, sid, j)
        ensures if j < k then FirstToRevoke(front, lifetime, sid, j) else j == k && row.revokedAt.None?
      {
      }
    } else {
      NewSessionIsUnrevoked(ops, lifetime, sid);
    }
  }

  lemma RevokesInRange(ops: seq<Op>, lifetime: int, sid: Id, j: int)
    ensures RevokesAt(ops, lifetime, sid, j) ==> 0 <= j < |ops|
  {
  }

  // --- When a session is active ----------------------------------------------------------------------------

  /** The session of a login is active for its own user alone, until one lifetime after the login, and only while no
      operation has revoked it. */
  lemma ActiveExactly(ops: seq<Op>, lifetime: int, i: nat, user: int, now: Time)
    requires Legal(EMPTY, ops, lifetime) && i < |ops| && ops[i].Login?
    ensures IsActive(Exec(EMPTY, ops, lifetime).store, user, ops[i].sid, now) <==>
              && user == ops[i].user && now < ops[i].now + lifetime
              && forall j :: !RevokesAt(ops, lifetime, ops[i].sid, j)
  {
    hide Exec, Legal, RevokesAt, FirstToRevoke;
    LoginsKeepTheirDates(ops, lifetime, i);
    RevokedExactly(ops, lifetime, ops[i].sid);
  }

  // --- Tokens ------------------------------------------------------------------------------------------------

  /** The j-th operation accepted the token it was given. */
  ghost predicate AcceptsAt(ops: seq<Op>, lifetime: int, j: nat)
    requires j < |ops|
  {
    ops[j].Refresh? && Acceptable(At(ops, lifetime, j).store, ops[j].token, ops[j].now)
  }

  ghost predicate TokenOf(s: Store, jti: Id, user: int, sid: Id, family: Id, now: Time, lifetime: int) {
    && jti in s.tokens
    && var row := s.tokens[jti];
    row.user == user && row.sid == sid && row.family == family && row.issuedAt == now && row.expiresAt == now + lifetime
  }

  lemma StepIssues(w: World, op: Op, lifetime: int)
    requires Enabled(w, op)
    ensures var s := Next(w, op, lifetime).store;
            && (op.Login? ==> TokenOf(s, op.jti, op.user, op.sid, op.family, op.now, lifetime))
            && (op.Refresh? && Acceptable(w.store, op.token, op.now) ==>
                  var c := op.token.claims;
                  && TokenOf(s, op.nextJti, c.sub.value, c.sid.value, c.family.value, op.now, lifetime)
                  && c.jti.value in s.tokens && s.tokens[c.jti.value].usedAt == Some(op.now))
  {
  }

  lemma {:induction false} LegalSplits(ops: seq<Op>, lifetime: int, j: nat)
    requires Legal(EMPTY, ops, lifetime) && j <= |ops|
    ensures Legal(EMPTY, ops[..j], lifetime) && Legal(At(ops, lifetime, j), ops[j..], lifetime)
    ensures Exec(At(ops, lifetime, j), ops[j..], lifetime) == Exec(EMPTY, ops, lifetime)
  {
    hide Enabled, Next;
    if j == |ops| {
      assert ops[..j] == ops && ops[j..] == [];
    } else {
      var k := |ops| - 1;
      LegalSplits(ops[..k], lifetime, j);
      assert ops[..k][..j] == ops[..j] && ops[..k][j..] == ops[j..][..|ops[j..]| - 1];
      assert ops[j..][|ops[j..]| - 1] == ops[k];
    }
  }

  /** Every token that a run issues keeps its owner and dates to the end, and every token that it accepts is marked
      as used at that very time. */
  lemma TokensKeepTheirDates(ops: seq<Op>, lifetime: int, j: nat)
    requires Legal(EMPTY, ops, lifetime) && j < |ops|
    ensures var s, op := Exec(EMPTY, ops, lifetime).store, ops[j];
            && (op.Login? ==> TokenOf(s, op.jti, op.user, op.sid, op.family, op.now, lifetime))
            && (AcceptsAt(ops, lifetime, j) ==>
                  var c := op.token.claims;
                  && TokenOf(s, op.nextJti, c.sub.value, c.sid.value, c.family.value, op.now, lifetime)
                  && c.jti.value in s.tokens && s.tokens[c.jti.value].usedAt == Some(op.now))
  {
    hide Next, Enabled, Acceptable;
    LegalSplits(ops, lifetime, j);
    LegalSplits(ops, lifetime, j + 1);
    var before, after, rest := At(ops, lifetime, j), At(ops, lifetime, j + 1), ops[j + 1..];
    assert ops[..j + 1][..j] == ops[..j];
    assert after == Next(before, ops[j], lifetime) && Enabled(before, ops[j]);
    StepIssues(before, ops[j], lifetime);
    if ops[j].Login? {
      TokensPersist(after, rest, lifetime, ops[j].jti);
    } else if AcceptsAt(ops, lifetime, j) {
      AcceptedHasClaims(before.store, ops[j].token, ops[j].now);
      TokensPersist(after, rest, lifetime, ops[j].nextJti);
      TokensPersist(after, rest, lifetime, ops[j].token.claims.jti.value);
    }
  }

  lemma AcceptedHasClaims(s: Store, t: Token, now: Time)
    requires Acceptable(s, t, now)
    ensures WellFormedClaims(t.claims)
  {
  }

  /** An operation that revokes a token: a logout that selects its session, or a rejected token of its user and
      family. */
  ghost predicate RevokesToken(w: World, op: Op, jti: Id) {
    && jti in w.store.tokens
    && match op
       case Login(_, _, _, _, _, _) => false
       case Logout(user, target, _, _) => w.store.tokens[jti].user == user && Selects(target, w.store.tokens[jti].sid)
       case Refresh(t, _, _, now) => !Acceptable(w.store, t, now) && ReachesToken(w.store, t.claims, jti)
  }

  /** A token that no earlier operation revoked is revoked by exactly those operations, at their time. */
  lemma TokenRevokedExactly(w: World, op: Op, lifetime: int, jti: Id)
    requires Enabled(w, op) && jti in w.store.tokens
    ensures var row, next := w.store.tokens[jti], Next(w, op, lifetime).store.tokens;
            && jti in next
            && next[jti].revokedAt == (if row.revokedAt.Some? then row.revokedAt
                                       else if RevokesToken(w, op, jti) then Some(op.now) else None)
  {
  }

  /** When a session was last used: at its login or at the last rotation it accepted. */
  ghost function LastUse(ops: seq<Op>, lifetime: int, sid: Id): Option<Time> {
    if ops == [] then None
    else
      var k := |ops| - 1;
      var op := ops[k];
      if op.Login? && op.sid == sid then Some(op.now)
      else if AcceptsAt(ops, lifetime, k) && op.token.claims.sid == Some(sid) then Some(op.now)
      else LastUse(ops[..k], lifetime, sid)
  }

  lemma {:induction false} LastSeenIsLastUse(ops: seq<Op>, lifetime: int, sid: Id)
    requires Legal(EMPTY, ops, lifetime) && sid in Exec(EMPTY, ops, lifetime).store.sessions
    ensures LastUse(ops, lifetime, sid) == Some(Exec(EMPTY, ops, lifetime).store.sessions[sid].lastSeenAt)
  {
    var k := |ops| - 1;
    var before := Exec(EMPTY, ops[..k], lifetime);
    StepIsSeen(before, ops[k], lifetime, sid);
    if sid in before.store.sessions {
      LastSeenIsLastUse(ops[..k], lifetime, sid);
    }
  }

  lemma StepIsSeen(w: World, op: Op, lifetime: int, sid: Id)
    requires Enabled(w, op) && sid in Next(w, op, lifetime).store.sessions
    ensures var seen := Next(w, op, lifetime).store.sessions[sid].lastSeenAt;
            if (op.Login? && op.sid == sid)
               || (op.Refresh? && Acceptable(w.store, op.token, op.now) && op.token.claims.sid == Some(sid))
            then seen == op.now
            else sid in w.store.sessions && seen == w.store.sessions[sid].lastSeenAt
  {
  }
}
