/** The reference-counted registry of per-key locks: callers register, wait, enter, may be cancelled while
    waiting, and deregister; the entry of a key lives exactly as long as somebody uses it. */
module LockRegistry {
  import opened Wrappers

  /** A database and cache key. */
  type Key = nat

  type CallerId = nat

  type EntryId = nat

  /** A lock with its user count. The lock is locked while it has a holder. */
  datatype Entry = Entry(users: int, holder: Option<CallerId>)

  /** The dictionary of entries by key, and every entry object ever created. */
  datatype Registry = Registry(locks: map<Key, EntryId>, entries: map<EntryId, Entry>)

  /** setdefault and users += 1, under the guard. */
  function Register(g: Registry, k: Key, spare: EntryId): (Registry, EntryId)
    requires k in g.locks ==> g.locks[k] in g.entries
  {
    if k in g.locks then
      var e := g.locks[k];
      (g.(entries := g.entries[e := g.entries[e].(users := g.entries[e].users + 1)]), e)
    else
      (Registry(g.locks[k := spare], g.entries[spare := Entry(1, None)]), spare)
  }

  /** users -= 1 and removal of an unused, unlocked entry, under the guard. */
  function Deregister(g: Registry, k: Key, e: EntryId): Registry
    requires e in g.entries
  {
    var entry := g.entries[e].(users := g.entries[e].users - 1);
    Registry(if entry.users == 0 && entry.holder.None? then g.locks - {k} else g.locks, g.entries[e := entry])
  }

  class LockTable {
    var locks: map<Key, EntryId>
    var entries: map<EntryId, Entry>

    function View(): Registry
      reads this
    {
      Registry(locks, entries)
    }

    constructor ()
      ensures View() == Registry(map[], map[])
    {
      locks, entries := map[], map[];
    }

    method Enter(k: Key, spare: EntryId) returns (e: EntryId)
      requires k in locks ==> locks[k] in entries
      requires spare !in entries
      modifies this
      ensures (View(), e) == Register(old(View()), k, spare)
    {
      if k !in locks {
        entries := entries[spare := Entry(0, None)];
        locks := locks[k := spare];
      }
      e := locks[k];
      entries := entries[e := entries[e].(users := entries[e].users + 1)];
      assert k !in old(locks) ==> entries == old(entries)[spare := Entry(1, None)];
    }

    method Leave(k: Key, e: EntryId)
      requires e in entries
      modifies this
      ensures View() == Deregister(old(View()), k, e)
    {
      entries := entries[e := entries[e].(users := entries[e].users - 1)];
      if entries[e].users == 0 && entries[e].holder == None {
        locks := locks - {k};
      }
    }
  }

  // --- The protocol ------------------------------------------------------------------------------------

  datatype Stage = Waiting | Inside | Leaving

  datatype Member = Member(key: Key, entry: EntryId, stage: Stage)

  datatype System = System(reg: Registry, members: map<CallerId, Member>)

  datatype Event =
    | Enter(c: CallerId, key: Key, spare: EntryId)
    | Acquire(c: CallerId)
    | GiveUp(c: CallerId)
    | Release(c: CallerId)
    | Leave(c: CallerId)

  ghost predicate At(s: System, c: CallerId, stage: Stage) {
    c in s.members && s.members[c].stage == stage && s.members[c].entry in s.reg.entries
  }

  ghost predicate Enabled(s: System, e: Event) {
    match e
    case Enter(c, k, spare) => c !in s.members && spare !in s.reg.entries
      && (k in s.reg.locks ==> s.reg.locks[k] in s.reg.entries)
    case Acquire(c) => At(s, c, Waiting) && s.reg.entries[s.members[c].entry].holder.None?
    case GiveUp(c) => At(s, c, Waiting)
    case Release(c) => At(s, c, Inside)
    case Leave(c) => At(s, c, Leaving)
  }

  function SetHolder(s: System, c: CallerId, holder: Option<CallerId>, stage: Stage): System
    requires c in s.members && s.members[c].entry in s.reg.entries
  {
    var m := s.members[c];
    System(s.reg.(entries := s.reg.entries[m.entry := s.reg.entries[m.entry].(holder := holder)]),
           s.members[c := m.(stage := stage)])
  }

  function Next(s: System, e: Event): System
    requires Enabled(s, e)
  {
    match e
    case Enter(c, k, spare) =>
      var (reg, entry) := Register(s.reg, k, spare);
      System(reg, s.members[c := Member(k, entry, Waiting)])
    case Acquire(c) => SetHolder(s, c, Some(c), Inside)
    case GiveUp(c) => s.(members := s.members[c := s.members[c].(stage := Leaving)])
    case Release(c) => SetHolder(s, c, None, Leaving)
    case Leave(c) => System(Deregister(s.reg, s.members[c].key, s.members[c].entry), s.members - {c})
  }

  const UNUSED := System(Registry(map[], map[]), map[])

  // --- The invariant -----------------------------------------------------------------------------------

  ghost function UsersOf(s: System, k: Key): set<CallerId> {
    set c | c in s.members && s.members[c].key == k
  }

  ghost predicate MemberFits(s: System, c: CallerId)
    requires c in s.members
  {
    var m := s.members[c];
    && m.key in s.reg.locks && s.reg.locks[m.key] == m.entry && m.entry in s.reg.entries
    && (m.stage.Inside? <==> s.reg.entries[m.entry].holder == Some(c))
  }

  ghost predicate EntryFits(s: System, k: Key)
    requires k in s.reg.locks
  {
    var e := s.reg.locks[k];
    && e in s.reg.entries
    && s.reg.entries[e].users == |UsersOf(s, k)| > 0
    && (s.reg.entries[e].holder.Some? ==> s.reg.entries[e].holder.value in UsersOf(s, k))
  }

  ghost predicate EntriesDistinct(g: Registry) {
    forall a, b | a in g.locks && b in g.locks && a != b :: g.locks[a] != g.locks[b]
  }

  ghost predicate Inv(s: System) {
    && (forall c | c in s.members :: MemberFits(s, c))
    && (forall k | k in s.reg.locks :: EntryFits(s, k))
    && EntriesDistinct(s.reg)
  }

  /** Steps that change no membership keep the users of every key. */
  lemma SameUsers(s: System, s': System, k: Key)
    requires s'.members.Keys == s.members.Keys && forall c | c in s.members :: s'.members[c].key == s.members[c].key
    ensures UsersOf(s', k) == UsersOf(s, k)
  {
  }

  lemma LockStepKeepsMember(s: System, e: Event, c: CallerId)
    requires Inv(s) && Enabled(s, e) && (e.Acquire? || e.GiveUp? || e.Release?) && c in s.members
    ensures c in Next(s, e).members && MemberFits(Next(s, e), c)
  {
    hide EntryFits;
    assert MemberFits(s, e.c) && MemberFits(s, c);
  }

  lemma LockStepKeepsEntry(s: System, e: Event, k: Key)
    requires Inv(s) && Enabled(s, e) && (e.Acquire? || e.GiveUp? || e.Release?) && k in s.reg.locks
    ensures k in Next(s, e).reg.locks && EntryFits(Next(s, e), k)
  {
    var s', m := Next(s, e), s.members[e.c];
    assert MemberFits(s, e.c) && EntryFits(s, k);
    assert e.c in UsersOf(s, m.key);
    SameUsers(s, s', k);
    hide UsersOf;
    if k != m.key {
      assert s.reg.locks[k] != m.entry;
    }
  }

  lemma LockStepKeepsInv(s: System, e: Event)
    requires Inv(s) && Enabled(s, e) && (e.Acquire? || e.GiveUp? || e.Release?)
    ensures Inv(Next(s, e))
  {
    hide MemberFits, EntryFits;
    var s' := Next(s, e);
    assert s'.reg.locks == s.reg.locks && s'.members.Keys == s.members.Keys;
    forall c | c in s.members
      ensures MemberFits(s', c)
    {
      LockStepKeepsMember(s, e, c);
    }
    forall k | k in s.reg.locks
      ensures EntryFits(s', k)
    {
      LockStepKeepsEntry(s, e, k);
    }
  }

  lemma EnterKeepsMembers(s: System, e: Event)
    requires Inv(s) && Enabled(s, e) && e.Enter?
    ensures forall c | c in Next(s, e).members :: MemberFits(Next(s, e), c)
  {
    var s' := Next(s, e);
    if e.key in s.reg.locks {
      assert EntryFits(s, e.key);
    }
    forall c | c in s.members
      ensures MemberFits(s', c)
    {
      assert MemberFits(s, c);
    }
    assert MemberFits(s', e.c);
  }

  lemma EnterKeepsEntries(s: System, e: Event)
    requires Inv(s) && Enabled(s, e) && e.Enter?
    ensures forall k | k in Next(s, e).reg.locks :: EntryFits(Next(s, e), k)
    ensures EntriesDistinct(Next(s, e).reg)
  {
    hide UsersOf, MemberFits, EntryFits;
    var s' := Next(s, e);
    EnterAddsUser(s, e);
    forall k | k in s'.reg.locks
      ensures EntryFits(s', k)
    {
      EnterKeepsEntry(s, e, k);
    }
    forall k | k in s.reg.locks
      ensures s.reg.locks[k] in s.reg.entries
    {
      EntryExists(s, k);
    }
  }

  lemma EntryExists(s: System, k: Key)
    requires Inv(s) && k in s.reg.locks
    ensures s.reg.locks[k] in s.reg.entries
  {
    assert EntryFits(s, k);
  }

  lemma EnterAddsUser(s: System, e: Event)
    requires Inv(s) && Enabled(s, e) && e.Enter?
    ensures UsersOf(Next(s, e), e.key) == UsersOf(s, e.key) + {e.c} && e.c !in UsersOf(s, e.key)
    ensures forall k | k != e.key :: UsersOf(Next(s, e), k) == UsersOf(s, k)
    ensures e.key !in s.reg.locks ==> UsersOf(s, e.key) == {}
  {
    hide EntryFits;
    assert forall c | c in s.members :: MemberFits(s, c);
    var s' := Next(s, e);
    assert forall c | c in s.members :: s'.members[c] == s.members[c];
  }

  lemma EnterKeepsEntry(s: System, e: Event, k: Key)
    requires Inv(s) && Enabled(s, e) && e.Enter? && k in Next(s, e).reg.locks
    ensures EntryFits(Next(s, e), k)
  {
    hide UsersOf, MemberFits;
    EnterAddsUser(s, e);
    if k in s.reg.locks {
      assert EntryFits(s, k);
    }
    if e.key in s.reg.locks {
      EntryExists(s, e.key);
    }
  }

  lemma EnterKeepsInv(s: System, e: Event)
    requires Inv(s) && Enabled(s, e) && e.Enter?
    ensures Inv(Next(s, e))
  {
    hide MemberFits, EntryFits, EntriesDistinct, Next, Enabled;
    EnterKeepsMembers(s, e);
    EnterKeepsEntries(s, e);
  }

  /** When the last user leaves, the lock is free: nobody is left to hold it. */
  lemma LastUserFindsLockFree(s: System, c: CallerId)
    requires Inv(s) && At(s, c, Leaving)
    ensures var m := s.members[c];
            && s.reg.entries[m.entry].users == |UsersOf(s, m.key)|
            && (s.reg.entries[m.entry].users - 1 == 0 ==> s.reg.entries[m.entry].holder.None?)
  {
    var m := s.members[c];
    assert MemberFits(s, c) && EntryFits(s, m.key);
    var users := UsersOf(s, m.key);
    if |users| == 1 {
      assert c in users && |users - {c}| == 0;
    }
  }

  lemma LeaveKeepsInv(s: System, e: Event)
    requires Inv(s) && Enabled(s, e) && e.Leave?
    ensures Inv(Next(s, e))
  {
    var s' := Next(s, e);
    var m := s.members[e.c];
    assert MemberFits(s, e.c) && EntryFits(s, m.key);
    LastUserFindsLockFree(s, e.c);
    assert UsersOf(s', m.key) == UsersOf(s, m.key) - {e.c};
    forall c | c in s'.members
      ensures MemberFits(s', c)
    {
      assert MemberFits(s, c);
      if s.members[c].key == m.key {
        assert c in UsersOf(s', m.key);
      }
    }
    forall k | k in s'.reg.locks
      ensures EntryFits(s', k)
    {
      assert EntryFits(s, k);
      if k != m.key {
        assert UsersOf(s', k) == UsersOf(s, k);
      }
    }
  }

  lemma StepKeepsInv(s: System, e: Event)
    requires Inv(s) && Enabled(s, e)
    ensures Inv(Next(s, e))
  {
    hide Inv, Next, Enabled;
    match e
    case Enter(_, _, _) => EnterKeepsInv(s, e);
    case Leave(_) => LeaveKeepsInv(s, e);
    case _ => LockStepKeepsInv(s, e);
  }

  lemma StartIsInv()
    ensures Inv(UNUSED)
  {
  }

  ghost predicate Run(s: System, es: seq<Event>, end: System)
    decreases |es|
  {
    if es == [] then s == end else Enabled(s, es[0]) && Run(Next(s, es[0]), es[1..], end)
  }

  lemma {:induction false} RunKeepsInv(s: System, es: seq<Event>, end: System)
    requires Inv(s) && Run(s, es, end)
    ensures Inv(end)
    decreases |es|
  {
    hide Inv, Next, Enabled;
    if es != [] {
      StepKeepsInv(s, es[0]);
      RunKeepsInv(Next(s, es[0]), es[1..], end);
    }
  }

  /** In every run, all callers of a key share its entry, the entry counts them and is present exactly while
      there are any, at most one caller of a key is inside, and an entry that nobody uses is unlocked. */
  lemma Exclusion(es: seq<Event>, s: System)
    requires Run(UNUSED, es, s)
    ensures forall a, b | a in s.members && b in s.members && s.members[a].key == s.members[b].key ::
              && s.members[a].entry == s.members[b].entry
              && (s.members[a].stage.Inside? && s.members[b].stage.Inside? ==> a == b)
    ensures forall k :: k in s.reg.locks <==> UsersOf(s, k) != {}
    ensures forall k | k in s.reg.locks :: s.reg.locks[k] in s.reg.entries
              && s.reg.entries[s.reg.locks[k]].users == |UsersOf(s, k)|
    ensures forall c | At(s, c, Leaving) && s.reg.entries[s.members[c].entry].users == 1 ::
              s.reg.entries[s.members[c].entry].holder.None?
  {
    hide Run;
    StartIsInv();
    RunKeepsInv(UNUSED, es, s);
    forall a, b | a in s.members && b in s.members && s.members[a].key == s.members[b].key
      ensures s.members[a].entry == s.members[b].entry
              && (s.members[a].stage.Inside? && s.members[b].stage.Inside? ==> a == b)
    {
      assert MemberFits(s, a) && MemberFits(s, b);
    }
    forall k
      ensures k in s.reg.locks <==> UsersOf(s, k) != {}
    {
      if k in s.reg.locks {
        assert EntryFits(s, k);
      } else {
        assert forall c | c in s.members :: MemberFits(s, c);
      }
    }
    forall k | k in s.reg.locks
      ensures s.reg.locks[k] in s.reg.entries && s.reg.entries[s.reg.locks[k]].users == |UsersOf(s, k)|
    {
      assert EntryFits(s, k);
    }
    forall c | At(s, c, Leaving) && s.reg.entries[s.members[c].entry].users == 1
      ensures s.reg.entries[s.members[c].entry].holder.None?
    {
      LastUserFindsLockFree(s, c);
    }
  }
}
