/** Every sequence of logins, rotations and revocations, whatever tokens are presented. */
module AuthRuns {
  import opened Wrappers
  import opened AuthSessions

  datatype Op =
    | Login(user: int, sid: Id, family: Id, jti: Id, rest: nat, now: Time)
    | Refresh(token: Token, nextJti: Id, nextRest: nat, now: Time)
    | Logout(user: int, target: Option<Id>, reason: string, now: Time)

  /** An accepted rotation: the token it consumed and the token it issued. */
  datatype Accept = Accept(sid: Id, presented: Token, issued: Token)

  /** The store with its history: the first token of each session and the accepted rotations. */
  datatype World = World(store: Store, births: map<Id, Token>, accepts: seq<Accept>)

  const EMPTY := World(Store(map[], map[]), map[], [])

  /** Generated identifiers are new and not empty. */
  ghost predicate Enabled(w: World, op: Op) {
    match op
    case Login(_, sid, family, jti, _, _) =>
      && sid != NO_ID && family != NO_ID && jti != NO_ID
      && sid !in w.store.sessions && jti !in w.store.tokens
      && forall x | x in w.store.sessions :: w.store.sessions[x].family != family
    case Refresh(_, jti, _, _) => jti != NO_ID && jti !in w.store.tokens
    case Logout(_, _, _, _) => true
  }

  function Next(w: World, op: Op, lifetime: int): World {
    match op
    case Login(user, sid, family, jti, rest, now) =>
      World(Issue(w.store, user, sid, family, jti, rest, now, lifetime),
            w.births[sid := NewToken(user, sid, family, jti, rest)], w.accepts)
    case Refresh(t, jti, rest, now) =>
      World(Rotate(w.store, t, jti, rest, now, lifetime), w.births,
            if Acceptable(w.store, t, now)
            then w.accepts + [Accept(t.claims.sid.value, t,
                                     NewToken(t.claims.sub.value, t.claims.sid.value, t.claims.family.value,
                                               jti, rest))]
            else w.accepts)
    case Logout(user, target, reason, now) =>
      World(Revoke(w.store, user, target, reason, now), w.births, w.accepts)
  }

  function Exec(w: World, ops: seq<Op>, lifetime: int): World {
    if ops == [] then w else Next(Exec(w, ops[..|ops| - 1], lifetime), ops[|ops| - 1], lifetime)
  }

  ghost predicate Legal(w: World, ops: seq<Op>, lifetime: int) {
    ops == [] || (Legal(w, ops[..|ops| - 1], lifetime) && Enabled(Exec(w, ops[..|ops| - 1], lifetime), ops[|ops| - 1]))
  }

  // --- The invariant --------------------------------------------------------------------------------

  function Of(accepts: seq<Accept>, sid: Id): seq<Accept> {
    if accepts == [] then []
    else
      var a := accepts[|accepts| - 1];
      Of(accepts[..|accepts| - 1], sid) + (if a.sid == sid then [a] else [])
  }

  /** The token a session is waiting for: the last one it issued. */
  function Tip(w: World, sid: Id): Token
    requires sid in w.births
  {
    var own := Of(w.accepts, sid);
    if own == [] then w.births[sid] else own[|own| - 1].issued
  }

  /** Each acceptance consumed the token that the previous one issued, starting from the first. */
  ghost predicate Chain(first: Token, own: seq<Accept>) {
    && (own != [] ==> own[0].presented == first)
    && (forall i | 0 < i < |own| :: own[i].presented == own[i - 1].issued)
  }

  /** A stored proof is of a token whose claims are the row's own columns. */
  ghost predicate RowsMatch(s: Store) {
    forall jti | jti in s.tokens ::
      var row := s.tokens[jti];
      && jti != NO_ID && row.sid != NO_ID && row.family != NO_ID
      && row.proof.of.claims == Claims(Some(row.user), Some(jti), Some(row.sid), Some(row.family))
      && row.sid in s.sessions && s.sessions[row.sid].family == row.family && s.sessions[row.sid].user == row.user
  }

  ghost predicate FamiliesDistinct(s: Store) {
    forall a, b | a in s.sessions && b in s.sessions && a != b :: s.sessions[a].family != s.sessions[b].family
  }

  ghost predicate ReasonsKept(s: Store) {
    forall sid | sid in s.sessions :: s.sessions[sid].revokedAt.Some? <==> s.sessions[sid].reason.Some?
  }

  ghost predicate Unused(s: Store, t: Token) {
    && t.claims.jti.Some? && t.claims.jti.value in s.tokens
    && s.tokens[t.claims.jti.value].proof == Proof(t) && s.tokens[t.claims.jti.value].usedAt.None?
  }

  /** The tip of a session is its only unused token. */
  ghost predicate TipsUnused(w: World) {
    && w.births.Keys == w.store.sessions.Keys
    && (forall sid | sid in w.births :: Unused(w.store, Tip(w, sid)) && Tip(w, sid).claims.sid == Some(sid))
    && (forall jti | jti in w.store.tokens && w.store.tokens[jti].usedAt.None? ::
          w.store.tokens[jti].sid in w.births && w.store.tokens[jti].proof == Proof(Tip(w, w.store.tokens[jti].sid)))
  }

  /** Consumed tokens stay marked as used. */
  ghost predicate ConsumedUsed(w: World) {
    forall i | 0 <= i < |w.accepts| ::
      var c := w.accepts[i].presented.claims;
      && c.jti.Some? && c.jti.value in w.store.tokens && w.store.tokens[c.jti.value].usedAt.Some?
      && w.accepts[i].sid in w.births
  }

  ghost predicate AcceptedOnce(accepts: seq<Accept>) {
    forall i, j | 0 <= i < j < |accepts| :: accepts[i].presented != accepts[j].presented
  }

  ghost predicate Inv(w: World) {
    && RowsMatch(w.store) && FamiliesDistinct(w.store) && ReasonsKept(w.store)
    && TipsUnused(w) && ConsumedUsed(w) && AcceptedOnce(w.accepts)
    && (forall sid | sid in w.births :: Chain(w.births[sid], Of(w.accepts, sid)))
  }

  lemma OfAppend(accepts: seq<Accept>, a: Accept, sid: Id)
    ensures Of(accepts + [a], sid) == Of(accepts, sid) + (if a.sid == sid then [a] else [])
  {
    assert (accepts + [a])[..|accepts|] == accepts;
  }

  lemma {:induction false} OfStranger(accepts: seq<Accept>, sid: Id)
    requires forall i | 0 <= i < |accepts| :: accepts[i].sid != sid
    ensures Of(accepts, sid) == []
  {
    if accepts != [] {
      OfStranger(accepts[..|accepts| - 1], sid);
    }
  }

  lemma LoginKeepsRows(w: World, op: Op, lifetime: int)
    requires Inv(w) && op.Login? && Enabled(w, op)
    ensures var s := Next(w, op, lifetime).store; RowsMatch(s) && FamiliesDistinct(s) && ReasonsKept(s)
  {
    hide TipsUnused, ConsumedUsed, AcceptedOnce, Chain, Of;
  }

  lemma LoginKeepsTips(w: World, op: Op, lifetime: int)
    requires Inv(w) && op.Login? && Enabled(w, op)
    ensures TipsUnused(Next(w, op, lifetime))
  {
    hide RowsMatch, FamiliesDistinct, ReasonsKept, AcceptedOnce, Chain, Of, Tip;
    var w' := Next(w, op, lifetime);
    FirstTip(w, op, lifetime);
    forall sid | sid in w.births
      ensures Tip(w', sid) == Tip(w, sid) && Unused(w'.store, Tip(w', sid))
    {
      TipStays(w, w', sid);
      assert Unused(w.store, Tip(w, sid));
    }
  }

  lemma TipStays(w: World, w': World, sid: Id)
    requires sid in w.births && sid in w'.births && w'.births[sid] == w.births[sid] && w'.accepts == w.accepts
    ensures Tip(w', sid) == Tip(w, sid)
  {
  }

  /** The tip of a new session is its first token. */
  lemma FirstTip(w: World, op: Op, lifetime: int)
    requires Inv(w) && op.Login? && Enabled(w, op)
    ensures Tip(Next(w, op, lifetime), op.sid) == Next(w, op, lifetime).births[op.sid]
  {
    hide RowsMatch, FamiliesDistinct, ReasonsKept, AcceptedOnce, Chain, Of, Unused;
    assert forall i | 0 <= i < |w.accepts| :: w.accepts[i].sid in w.births;
    OfStranger(w.accepts, op.sid);
  }

  lemma LoginKeepsHistory(w: World, op: Op, lifetime: int)
    requires Inv(w) && op.Login? && Enabled(w, op)
    ensures var w' := Next(w, op, lifetime);
            && w'.accepts == w.accepts && ConsumedUsed(w')
            && forall sid | sid in w'.births :: Chain(w'.births[sid], Of(w'.accepts, sid))
  {
    hide RowsMatch, FamiliesDistinct, ReasonsKept, Tip, Unused, AcceptedOnce, Of;
    assert forall i | 0 <= i < |w.accepts| :: w.accepts[i].sid in w.births;
    OfStranger(w.accepts, op.sid);
  }

  lemma LoginKeepsInv(w: World, op: Op, lifetime: int)
    requires Inv(w) && op.Login? && Enabled(w, op)
    ensures Inv(Next(w, op, lifetime))
  {
    hide RowsMatch, FamiliesDistinct, ReasonsKept, TipsUnused, ConsumedUsed, AcceptedOnce, Chain, Of, Next, Enabled;
    LoginKeepsRows(w, op, lifetime);
    LoginKeepsTips(w, op, lifetime);
    LoginKeepsHistory(w, op, lifetime);
  }

  lemma LogoutKeepsInv(w: World, op: Op, lifetime: int)
    requires Inv(w) && op.Logout?
    ensures Inv(Next(w, op, lifetime))
  {
    hide Inv, RevokedOnly, Revoke;
    RevokeRevokesOnly(w.store, op.user, op.target, op.reason, op.now);
    SameButRevocations(w, Next(w, op, lifetime));
  }

  lemma PunishKeepsInv(w: World, op: Op, lifetime: int)
    requires Inv(w) && op.Refresh? && !Acceptable(w.store, op.token, op.now)
    ensures Inv(Next(w, op, lifetime))
  {
    hide Inv, RevokedOnly, Punish, Acceptable;
    PunishRevokesOnly(w.store, op.token.claims, op.now);
    SameButRevocations(w, Next(w, op, lifetime));
  }

  lemma RevokeRevokesOnly(s: Store, user: int, target: Option<Id>, reason: string, now: Time)
    ensures RevokedOnly(s, Revoke(s, user, target, reason, now))
  {
  }

  lemma PunishRevokesOnly(s: Store, c: Claims, now: Time)
    ensures WellFormedClaims(c) ==> RevokedOnly(s, Punish(s, c, now))
    ensures RevokedOnly(s, s)
  {
  }

  /** Revoking rows disturbs nothing that the invariant says about the rest. */
  lemma SameButRevocations(w: World, w': World)
    requires Inv(w) && w'.births == w.births && w'.accepts == w.accepts
    requires RevokedOnly(w.store, w'.store)
    ensures Inv(w')
  {
    hide Of, AcceptedOnce, Chain, RowsMatch, FamiliesDistinct, ReasonsKept, TipsUnused, ConsumedUsed, RevokedOnly;
    RevocationsKeepRows(w.store, w'.store);
    RevocationsKeepTips(w, w');
    RevocationsKeepConsumed(w, w');
  }

  lemma RevocationsKeepConsumed(w: World, w': World)
    requires ConsumedUsed(w) && w'.births == w.births && w'.accepts == w.accepts && RevokedOnly(w.store, w'.store)
    ensures ConsumedUsed(w')
  {
  }

  ghost predicate RevokedOnly(s: Store, s': Store) {
    && s'.sessions.Keys == s.sessions.Keys && s'.tokens.Keys == s.tokens.Keys
    && (forall sid | sid in s.sessions ::
          var a, b := s.sessions[sid], s'.sessions[sid];
          b == a || (b == a.(revokedAt := b.revokedAt, reason := b.reason) && b.revokedAt.Some? && b.reason.Some?))
    && (forall jti | jti in s.tokens :: s'.tokens[jti] == s.tokens[jti].(revokedAt := s'.tokens[jti].revokedAt))
  }

  lemma RevocationsKeepRows(s: Store, s': Store)
    requires RevokedOnly(s, s') && RowsMatch(s) && FamiliesDistinct(s) && ReasonsKept(s)
    ensures RowsMatch(s') && FamiliesDistinct(s') && ReasonsKept(s')
  {
  }

  lemma RevocationsKeepTips(w: World, w': World)
    requires TipsUnused(w) && w'.births == w.births && w'.accepts == w.accepts && RevokedOnly(w.store, w'.store)
    ensures TipsUnused(w')
  {
    hide Of, Tip;
    forall sid | sid in w.births
      ensures Tip(w', sid) == Tip(w, sid) && Unused(w'.store, Tip(w', sid))
    {
      TipStays(w, w', sid);
      assert Unused(w.store, Tip(w, sid));
    }
  }

  /** A token is accepted only if it is the tip of the session it names. */
  lemma AcceptedIsTip(w: World, t: Token, now: Time)
    requires Inv(w) && Acceptable(w.store, t, now)
    ensures var sid := t.claims.sid.value; sid in w.births && t == Tip(w, sid)
    ensures var row := w.store.tokens[t.claims.jti.value];
            row.sid == t.claims.sid.value && row.family == t.claims.family.value && row.user == t.claims.sub.value
  {
  }

  lemma ConsumeKeepsRows(w: World, op: Op, lifetime: int)
    requires Inv(w) && op.Refresh? && Enabled(w, op) && Acceptable(w.store, op.token, op.now)
    ensures var s := Next(w, op, lifetime).store; RowsMatch(s) && FamiliesDistinct(s) && ReasonsKept(s)
  {
    hide TipsUnused, ConsumedUsed, AcceptedOnce, Chain, Of, Tip;
    AcceptedIsTip(w, op.token, op.now);
    var w' := Next(w, op, lifetime);
    var c := op.token.claims;
    assert w'.store.sessions[c.sid.value].family == w.store.sessions[c.sid.value].family;
    assert RowsMatch(w'.store);
  }

  /** An accepted rotation moves the tip of its session to the token it issues. */
  lemma TipMoves(w: World, op: Op, lifetime: int, sid: Id)
    requires op.Refresh? && Acceptable(w.store, op.token, op.now) && sid in w.births
    ensures var w' := Next(w, op, lifetime);
            && sid in w'.births && |w'.accepts| == |w.accepts| + 1
            && Tip(w', sid) ==
                   (if sid == op.token.claims.sid.value then w'.accepts[|w.accepts|].issued else Tip(w, sid))
  {
    hide Of;
    OfAppend(w.accepts, Next(w, op, lifetime).accepts[|w.accepts|], sid);
  }

  lemma ConsumeTipUnused(w: World, op: Op, lifetime: int, sid: Id)
    requires Inv(w) && op.Refresh? && Enabled(w, op) && Acceptable(w.store, op.token, op.now) && sid in w.births
    ensures var w' := Next(w, op, lifetime);
            sid in w'.births && Unused(w'.store, Tip(w', sid)) && Tip(w', sid).claims.sid == Some(sid)
  {
    hide Of, Tip, Chain, ConsumedUsed, AcceptedOnce, RowsMatch, FamiliesDistinct, ReasonsKept;
    TipMoves(w, op, lifetime, sid);
    assert Unused(w.store, Tip(w, sid)) && Tip(w, sid).claims.sid == Some(sid);
    if sid != op.token.claims.sid.value {
      TipsDiffer(w, op.token, op.now, sid);
    }
  }

  /** The accepted token is not the tip of another session. */
  lemma TipsDiffer(w: World, t: Token, now: Time, sid: Id)
    requires Inv(w) && Acceptable(w.store, t, now) && sid in w.births && sid != t.claims.sid.value
    ensures Tip(w, sid).claims.jti != t.claims.jti
  {
    hide Of, Tip, Chain, ConsumedUsed, AcceptedOnce, FamiliesDistinct, ReasonsKept;
    assert Unused(w.store, Tip(w, sid)) && Tip(w, sid).claims.sid == Some(sid);
  }

  lemma ConsumeUnusedIsTip(w: World, op: Op, lifetime: int, jti: Id)
    requires Inv(w) && op.Refresh? && Enabled(w, op) && Acceptable(w.store, op.token, op.now)
    requires jti in Next(w, op, lifetime).store.tokens && Next(w, op, lifetime).store.tokens[jti].usedAt.None?
    ensures var w' := Next(w, op, lifetime); var row := w'.store.tokens[jti];
            row.sid in w'.births && row.proof == Proof(Tip(w', row.sid))
  {
    hide Of, Tip, Chain, ConsumedUsed, AcceptedOnce, FamiliesDistinct, ReasonsKept;
    AcceptedIsTip(w, op.token, op.now);
    var w' := Next(w, op, lifetime);
    var mine := op.token.claims.sid.value;
    TipMoves(w, op, lifetime, mine);
    if jti != op.nextJti {
      assert w.store.tokens[jti] == w'.store.tokens[jti];
      TipMoves(w, op, lifetime, w.store.tokens[jti].sid);
    }
  }

  lemma ConsumeKeepsTips(w: World, op: Op, lifetime: int)
    requires Inv(w) && op.Refresh? && Enabled(w, op) && Acceptable(w.store, op.token, op.now)
    ensures TipsUnused(Next(w, op, lifetime))
  {
    hide Of, Tip, Chain, ConsumedUsed, AcceptedOnce, RowsMatch, FamiliesDistinct, ReasonsKept, Unused;
    var w' := Next(w, op, lifetime);
    assert w'.births.Keys == w'.store.sessions.Keys;
    forall sid | sid in w.births
      ensures Unused(w'.store, Tip(w', sid)) && Tip(w', sid).claims.sid == Some(sid)
    {
      ConsumeTipUnused(w, op, lifetime, sid);
    }
    forall jti | jti in w'.store.tokens && w'.store.tokens[jti].usedAt.None?
      ensures w'.store.tokens[jti].sid in w'.births
              && w'.store.tokens[jti].proof == Proof(Tip(w', w'.store.tokens[jti].sid))
    {
      ConsumeUnusedIsTip(w, op, lifetime, jti);
    }
  }

  lemma ConsumeKeepsHistory(w: World, op: Op, lifetime: int)
    requires Inv(w) && op.Refresh? && Enabled(w, op) && Acceptable(w.store, op.token, op.now)
    ensures var w' := Next(w, op, lifetime);
            && ConsumedUsed(w') && AcceptedOnce(w'.accepts)
            && forall sid | sid in w'.births :: Chain(w'.births[sid], Of(w'.accepts, sid))
  {
    hide Of, RowsMatch, FamiliesDistinct, ReasonsKept, TipsUnused, Chain, ConsumedUsed, AcceptedOnce, Next;
    ConsumedOnce(w, op, lifetime);
    forall sid | sid in w.births
      ensures Chain(w.births[sid], Of(Next(w, op, lifetime).accepts, sid))
    {
      ChainGrows(w, op, lifetime, sid);
    }
    SameBirths(w, op, lifetime);
  }

  lemma SameBirths(w: World, op: Op, lifetime: int)
    requires !op.Login?
    ensures Next(w, op, lifetime).births == w.births
  {
  }

  lemma ConsumedOnce(w: World, op: Op, lifetime: int)
    requires Inv(w) && op.Refresh? && Enabled(w, op) && Acceptable(w.store, op.token, op.now)
    ensures var w' := Next(w, op, lifetime); ConsumedUsed(w') && AcceptedOnce(w'.accepts)
  {
    hide Of, RowsMatch, FamiliesDistinct, ReasonsKept, Tip, Unused, Chain;
    var w' := Next(w, op, lifetime);
    assert forall i | 0 <= i < |w.accepts| :: w'.accepts[i] == w.accepts[i];
    assert w'.accepts[|w.accepts|].presented == op.token;
    assert op.token.claims.sid.value in w.births;
  }

  /** The new acceptance continues the chain of its own session and leaves the others alone. */
  lemma ChainGrows(w: World, op: Op, lifetime: int, sid: Id)
    requires Inv(w) && op.Refresh? && Acceptable(w.store, op.token, op.now) && sid in w.births
    ensures Chain(w.births[sid], Of(Next(w, op, lifetime).accepts, sid))
  {
    hide Of, RowsMatch, FamiliesDistinct, ReasonsKept, TipsUnused, ConsumedUsed, AcceptedOnce;
    AcceptedIsTip(w, op.token, op.now);
    OfAppend(w.accepts, Next(w, op, lifetime).accepts[|w.accepts|], sid);
    assert Chain(w.births[sid], Of(w.accepts, sid));
  }

  lemma StepKeepsInv(w: World, op: Op, lifetime: int)
    requires Inv(w) && Enabled(w, op)
    ensures Inv(Next(w, op, lifetime))
  {
    hide RowsMatch, FamiliesDistinct, ReasonsKept, TipsUnused, ConsumedUsed, AcceptedOnce, Chain, Of, Next, Acceptable;
    match op
    case Login(_, _, _, _, _, _) => LoginKeepsInv(w, op, lifetime);
    case Logout(_, _, _, _) => LogoutKeepsInv(w, op, lifetime);
    case Refresh(t, _, _, now) =>
      if Acceptable(w.store, t, now) {
        ConsumeKeepsRows(w, op, lifetime);
        ConsumeKeepsTips(w, op, lifetime);
        ConsumeKeepsHistory(w, op, lifetime);
      } else {
        PunishKeepsInv(w, op, lifetime);
      }
  }

  lemma {:induction false} RunKeepsInv(w: World, ops: seq<Op>, lifetime: int)
    requires Inv(w) && Legal(w, ops, lifetime)
    ensures Inv(Exec(w, ops, lifetime))
  {
    hide Inv, Next, Enabled;
    if ops != [] {
      RunKeepsInv(w, ops[..|ops| - 1], lifetime);
      StepKeepsInv(Exec(w, ops[..|ops| - 1], lifetime), ops[|ops| - 1], lifetime);
    }
  }

  lemma StartIsInv()
    ensures Inv(EMPTY)
  {
  }

  // --- Theorems --------------------------------------------------------------------------------------

  /** In every run at most one token of a session is neither used nor revoked, every token is accepted at
      most once, and the acceptances of a session form one chain from its first token. */
  lemma RotationChain(ops: seq<Op>, lifetime: int)
    requires Legal(EMPTY, ops, lifetime)
    ensures var w := Exec(EMPTY, ops, lifetime);
            && (forall a, b | a in w.store.tokens && b in w.store.tokens
                              && w.store.tokens[a].sid == w.store.tokens[b].sid
                              && w.store.tokens[a].usedAt.None? && w.store.tokens[b].usedAt.None? :: a == b)
            && AcceptedOnce(w.accepts)
            && (forall sid | sid in w.store.sessions :: sid in w.births && Chain(w.births[sid], Of(w.accepts, sid)))
  {
    hide Exec, Of, Chain, AcceptedOnce, Legal;
    StartIsInv();
    RunKeepsInv(EMPTY, ops, lifetime);
    var w := Exec(EMPTY, ops, lifetime);
    forall a, b | a in w.store.tokens && b in w.store.tokens && w.store.tokens[a].sid == w.store.tokens[b].sid
                  && w.store.tokens[a].usedAt.None? && w.store.tokens[b].usedAt.None?
      ensures a == b
    {
      assert w.store.tokens[a].proof == w.store.tokens[b].proof;
    }
  }

  /** A rotation succeeds exactly for the last token of a session, while neither that token nor the session
      is revoked and the session has not expired. */
  lemma AcceptedExactly(w: World, t: Token, now: Time)
    requires Inv(w)
    ensures Acceptable(w.store, t, now) <==>
              exists sid | sid in w.births && t == Tip(w, sid) ::
                && w.store.tokens[t.claims.jti.value].revokedAt.None?
                && w.store.sessions[sid].revokedAt.None? && w.store.sessions[sid].expiresAt > now
  {
    hide Of, Tip;
    if Acceptable(w.store, t, now) {
      AcceptedIsTip(w, t, now);
      assert t == Tip(w, t.claims.sid.value);
    }
    if sid :| sid in w.births && t == Tip(w, sid) {
      assert Unused(w.store, Tip(w, sid)) && Tip(w, sid).claims.sid == Some(sid);
      assert w.store.tokens[t.claims.jti.value].sid == sid;
    }
  }

  /** Presenting a used token revokes its session and every token of that session, and nothing else. */
  lemma ReplayKillsItsFamily(w: World, t: Token, jti: Id, rest: nat, now: Time, lifetime: int, victim: Id)
    requires Inv(w) && victim in w.store.tokens
    requires w.store.tokens[victim].proof == Proof(t) && w.store.tokens[victim].usedAt.Some?
    ensures var before, after := w.store, Rotate(w.store, t, jti, rest, now, lifetime);
            var sid := before.tokens[victim].sid;
            && after.sessions.Keys == before.sessions.Keys && after.tokens.Keys == before.tokens.Keys
            && sid in after.sessions && after.sessions[sid].revokedAt.Some?
            && (forall x | x in after.tokens && after.tokens[x].sid == sid :: after.tokens[x].revokedAt.Some?)
            && (forall x | x in before.sessions && x != sid :: after.sessions[x] == before.sessions[x])
            && (forall x | x in before.tokens && before.tokens[x].sid != sid :: after.tokens[x] == before.tokens[x])
  {
    hide Of, Tip, TipsUnused, ConsumedUsed, AcceptedOnce, Chain;
    var s := w.store;
    assert t.claims == Claims(Some(s.tokens[victim].user), Some(victim),
                             Some(s.tokens[victim].sid), Some(s.tokens[victim].family));
    assert !Acceptable(s, t, now);
  }

  /** Logging out revokes exactly the selected sessions of the user, with all their tokens. */
  lemma LogoutRevokesExactly(w: World, user: int, target: Option<Id>, reason: string, now: Time)
    requires Inv(w)
    ensures var before, after := w.store, Revoke(w.store, user, target, reason, now);
            && after.sessions.Keys == before.sessions.Keys && after.tokens.Keys == before.tokens.Keys
            && (forall x | x in before.sessions ::
                  if before.sessions[x].user == user && Selects(target, x)
                  then after.sessions[x].revokedAt.Some?
                        && (before.sessions[x].revokedAt.None? ==> after.sessions[x].reason == Some(reason))
                  else after.sessions[x] == before.sessions[x])
            && (forall j | j in before.tokens ::
                  var sid := before.tokens[j].sid;
                  if sid in before.sessions && before.sessions[sid].user == user && Selects(target, sid)
                  then after.tokens[j].revokedAt.Some? else after.tokens[j] == before.tokens[j])
  {
    hide Of, Tip, TipsUnused, ConsumedUsed, AcceptedOnce, Chain, FamiliesDistinct;
    forall j | j in w.store.tokens
      ensures w.store.tokens[j].sid in w.store.sessions
              && w.store.sessions[w.store.tokens[j].sid].user == w.store.tokens[j].user
    {
    }
  }

  /** The session that claims name, by id, user and family together. */
  ghost predicate NamesSession(s: Store, c: Claims, sid: Id) {
    && WellFormedClaims(c) && c.sid.value == sid && sid in s.sessions
    && s.sessions[sid].user == c.sub.value && s.sessions[sid].family == c.family.value
  }

  /** A token row that claims reach, by user and family alone. */
  ghost predicate ReachesToken(s: Store, c: Claims, jti: Id) {
    && WellFormedClaims(c) && jti in s.tokens
    && s.tokens[jti].user == c.sub.value && s.tokens[jti].family == c.family.value
  }

  /** What a rejected token changes: exactly the session it names, unless that is revoked with a reason already,
      and exactly the unrevoked tokens of its user and family. */
  lemma RejectedTokenReachesExactly(s: Store, t: Token, jti: Id, rest: nat, now: Time, lifetime: int)
    requires !Acceptable(s, t, now)
    ensures var s', c := Rotate(s, t, jti, rest, now, lifetime), t.claims;
            && s'.sessions.Keys == s.sessions.Keys && s'.tokens.Keys == s.tokens.Keys
            && (forall x | x in s.sessions :: s'.sessions[x] != s.sessions[x] <==>
                  NamesSession(s, c, x) && (s.sessions[x].revokedAt.None? || s.sessions[x].reason.None?))
            && (forall x | x in s.tokens :: s'.tokens[x] != s.tokens[x] <==>
                  ReachesToken(s, c, x) && s.tokens[x].revokedAt.None?)
            && (s'.sessions == s.sessions <==>
                  !exists x | x in s.sessions ::
                     NamesSession(s, c, x) && (s.sessions[x].revokedAt.None? || s.sessions[x].reason.None?))
            && (s'.tokens == s.tokens <==>
                  !exists x | x in s.tokens :: ReachesToken(s, c, x) && s.tokens[x].revokedAt.None?)
  {
    var s', c := Rotate(s, t, jti, rest, now, lifetime), t.claims;
    if x :| x in s.sessions && NamesSession(s, c, x) && (s.sessions[x].revokedAt.None? || s.sessions[x].reason.None?) {
      assert s'.sessions[x] != s.sessions[x];
    }
    if x :| x in s.tokens && ReachesToken(s, c, x) && s.tokens[x].revokedAt.None? {
      assert s'.tokens[x] != s.tokens[x];
    }
  }

  /** A rejected token that names no session changes no session. */
  lemma UnnamedSessionsAreSpared(s: Store, t: Token, jti: Id, rest: nat, now: Time, lifetime: int)
    requires forall x :: !NamesSession(s, t.claims, x)
    ensures Rotate(s, t, jti, rest, now, lifetime).sessions == s.sessions
  {
    hide Rotate, NamesSession;
    NamedIfAcceptable(s, t, now);
    RejectedTokenReachesExactly(s, t, jti, rest, now, lifetime);
  }

  lemma NamedIfAcceptable(s: Store, t: Token, now: Time)
    ensures Acceptable(s, t, now) ==> NamesSession(s, t.claims, t.claims.sid.value)
  {
  }

  /** Yet it can revoke tokens: with the right user and family and another session id, the live token of a
      fresh login stops being acceptable while its session stays active. */
  lemma MismatchedClaimsRevokeTokens(user: int, sid: Id, family: Id, jti: Id, other: Id, lifetime: int)
    returns (s: Store, live: Token, junk: Token)
    requires sid != NO_ID && family != NO_ID && jti != NO_ID && other != NO_ID && other != sid && lifetime > 0
    ensures Acceptable(s, live, 0) && junk.claims.sid == Some(other) && other !in s.sessions
    ensures var s' := Rotate(s, junk, jti + 1, 0, 0, lifetime);
            s'.sessions == s.sessions && !Acceptable(s', live, 0) && IsActive(s', user, sid, 0)
  {
    s := Issue(Store(map[], map[]), user, sid, family, jti, 0, 0, lifetime);
    live := NewToken(user, sid, family, jti, 0);
    junk := NewToken(user, other, family, jti, 1);
    assert !Acceptable(s, junk, 0);
    var s' := Rotate(s, junk, jti + 1, 0, 0, lifetime);
    assert s'.tokens[jti].revokedAt.Some?;
    assert s'.sessions == s.sessions;
  }

  /** No token that the store ever issued has such claims: whatever family it reaches is the family of the
      session it names. */
  lemma IssuedClaimsMatch(w: World, t: Token, x: Id)
    requires Inv(w) && t.claims.jti.Some? && t.claims.jti.value in w.store.tokens
    requires w.store.tokens[t.claims.jti.value].proof == Proof(t) && ReachesToken(w.store, t.claims, x)
    ensures NamesSession(w.store, t.claims, w.store.tokens[x].sid)
  {
    hide Of, Tip, TipsUnused, ConsumedUsed, AcceptedOnce, Chain, ReasonsKept;
    var own, row := w.store.tokens[t.claims.jti.value], w.store.tokens[x];
    assert own.proof.of.claims == Claims(Some(own.user), t.claims.jti, Some(own.sid), Some(own.family));
    assert w.store.sessions[own.sid].family == w.store.sessions[row.sid].family;
  }

  /** An accepted token's row is the only one that the conditional update can match, so the update changes
      exactly one row and the rollback after it is never taken. */
  lemma ConsumingUpdatesOneRow(s: Store, t: Token, now: Time)
    requires Acceptable(s, t, now)
    ensures (set x | x in s.tokens && Some(x) == t.claims.jti
                 && s.tokens[x].usedAt.None? && s.tokens[x].revokedAt.None?)
         == {t.claims.jti.value}
  {
  }

  /** The identity and the expiry of a session never change, and a revocation keeps its time and reason. */
  ghost predicate SessionPersists(s: Store, s': Store, sid: Id) {
    && sid in s.sessions && sid in s'.sessions
    && s'.sessions[sid].user == s.sessions[sid].user
    && s'.sessions[sid].family == s.sessions[sid].family
    && s'.sessions[sid].createdAt == s.sessions[sid].createdAt
    && s'.sessions[sid].expiresAt == s.sessions[sid].expiresAt
    && (s.sessions[sid].revokedAt.Some? ==>
          s'.sessions[sid].revokedAt == s.sessions[sid].revokedAt && s'.sessions[sid].reason == s.sessions[sid].reason)
  }

  lemma StepPersists(w: World, op: Op, lifetime: int, sid: Id)
    requires Inv(w) && Enabled(w, op) && sid in w.store.sessions
    ensures SessionPersists(w.store, Next(w, op, lifetime).store, sid)
    ensures w.store.sessions[sid].revokedAt.Some? ==> Of(Next(w, op, lifetime).accepts, sid) == Of(w.accepts, sid)
  {
    hide Of, Tip, TipsUnused, ConsumedUsed, AcceptedOnce, Chain, RowsMatch, FamiliesDistinct;
    if op.Refresh? && Acceptable(w.store, op.token, op.now) {
      OfAppend(w.accepts, Next(w, op, lifetime).accepts[|w.accepts|], sid);
    }
  }

  /** Revocation is forever: in any continuation the session keeps the time and the reason of its first
      revocation, is never active, and none of its tokens is accepted again. And whatever happens, a
      session is never active at or past the expiry it was created with. */
  lemma {:induction false} RevocationIsForever(w: World, ops: seq<Op>, lifetime: int, sid: Id)
    requires Inv(w) && Legal(w, ops, lifetime) && sid in w.store.sessions
    ensures var end := Exec(w, ops, lifetime);
            && SessionPersists(w.store, end.store, sid)
            && (w.store.sessions[sid].revokedAt.Some? ==>
                  Of(end.accepts, sid) == Of(w.accepts, sid)
                    && forall user, now :: !IsActive(end.store, user, sid, now))
            && forall user, now | now >= w.store.sessions[sid].expiresAt :: !IsActive(end.store, user, sid, now)
  {
    hide Of, Inv, Next, Enabled;
    if ops != [] {
      var front := ops[..|ops| - 1];
      RevocationIsForever(w, front, lifetime, sid);
      RunKeepsInv(w, front, lifetime);
      StepPersists(Exec(w, front, lifetime), ops[|ops| - 1], lifetime, sid);
    }
  }

  // --- Tokens ---------------------------------------------------------------------------------------

  /** A token row keeps what it is, when it was first used and when it was first revoked. */
  ghost predicate TokenPersists(s: Store, s': Store, jti: Id) {
    && jti in s.tokens && jti in s'.tokens
    && var a, b := s.tokens[jti], s'.tokens[jti];
    && b == a.(usedAt := b.usedAt, revokedAt := b.revokedAt)
    && (a.usedAt.Some? ==> b.usedAt == a.usedAt)
    && (a.revokedAt.Some? ==> b.revokedAt == a.revokedAt)
  }

  lemma StepKeepsToken(w: World, op: Op, lifetime: int, jti: Id)
    requires Enabled(w, op) && jti in w.store.tokens
    ensures TokenPersists(w.store, Next(w, op, lifetime).store, jti)
  {
  }

  /** In every continuation a token keeps its first use and its first revocation. */
  lemma {:induction false} TokensPersist(w: World, ops: seq<Op>, lifetime: int, jti: Id)
    requires Legal(w, ops, lifetime) && jti in w.store.tokens
    ensures TokenPersists(w.store, Exec(w, ops, lifetime).store, jti)
  {
    hide Next, Enabled;
    if ops != [] {
      var front := ops[..|ops| - 1];
      TokensPersist(w, front, lifetime, jti);
      StepKeepsToken(Exec(w, front, lifetime), ops[|ops| - 1], lifetime, jti);
    }
  }

  /** The last token of a session is revoked. */
  ghost predicate TipRevoked(w: World, sid: Id) {
    && sid in w.births && Tip(w, sid).claims.jti.Some?
    && var jti := Tip(w, sid).claims.jti.value;
    && jti in w.store.tokens && w.store.tokens[jti].revokedAt.Some?
  }

  lemma RevokedTipStays(w: World, op: Op, lifetime: int, sid: Id)
    requires Inv(w) && Enabled(w, op) && TipRevoked(w, sid)
    ensures TipRevoked(Next(w, op, lifetime), sid)
    ensures Of(Next(w, op, lifetime).accepts, sid) == Of(w.accepts, sid)
  {
    hide Of, RowsMatch, FamiliesDistinct, ReasonsKept, ConsumedUsed, AcceptedOnce, Chain, Unused;
    if op.Refresh? && Acceptable(w.store, op.token, op.now) {
      AcceptedIsTip(w, op.token, op.now);
      OfAppend(w.accepts, Next(w, op, lifetime).accepts[|w.accepts|], sid);
    }
    StepKeepsToken(w, op, lifetime, Tip(w, sid).claims.jti.value);
  }

  /** A session whose last token is revoked, even if it is itself still active, never rotates again. */
  lemma {:induction false} RevokedTipEndsRotation(w: World, ops: seq<Op>, lifetime: int, sid: Id)
    requires Inv(w) && Legal(w, ops, lifetime) && TipRevoked(w, sid)
    ensures TipRevoked(Exec(w, ops, lifetime), sid)
    ensures Of(Exec(w, ops, lifetime).accepts, sid) == Of(w.accepts, sid)
  {
    hide Of, Inv, Next, Enabled, TipRevoked;
    if ops != [] {
      var front := ops[..|ops| - 1];
      RevokedTipEndsRotation(w, front, lifetime, sid);
      RunKeepsInv(w, front, lifetime);
      RevokedTipStays(Exec(w, front, lifetime), ops[|ops| - 1], lifetime, sid);
    }
  }
}
