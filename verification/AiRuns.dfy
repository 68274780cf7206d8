/** Concurrent invocations: any number of callers, each step of an invocation interleaving with the steps of
    others, serialized per key by the lock registry. Callers may be cancelled anywhere. */
module AiRuns {
  import opened Wrappers
  import opened AiService
  import Locks = LockRegistry

  /** Where an invocation is while it holds the lock of its key. */
  datatype Phase =
    | Checking
    | JudgingHit(result: ChatResult, seenAt: real)
    | RecordingHit(result: ChatResult, seenAt: real)
    | Calling(checkedAt: real)
    | Judging(result: ChatResult, checkedAt: real)
    | Storing(result: ChatResult, checkedAt: real)
    | RecordingMiss(result: ChatResult)
    | RecordingFailure(answer: Option<ChatResult>)
    | Recorded

  datatype Flight = Flight(key: Key, phase: Phase)

  /** An answer put into the table. */
  datatype Deposit = Deposit(caller: CallerId, key: Key, result: ChatResult, storedAt: real)

  /** The service with its history: answers of the provider, tokens of cancelled invocations, what was put
      into the table, and which callers were seen, are over, and completed. */
  datatype World = World(locks: Locks.System, flights: map<CallerId, Flight>, cache: Cache, usage: seq<Usage>,
                         answers: seq<(Key, ChatResult)>, lost: Tokens, deposits: seq<Deposit>,
                         seen: set<CallerId>, over: set<CallerId>, completed: set<CallerId>)

  datatype Event =
    | Enter(c: CallerId, key: Key, spare: Locks.EntryId)
    | GiveUp(c: CallerId)
    | Begin(c: CallerId)
    | Get(c: CallerId, now: real, again: real)
    | JudgeHit(c: CallerId, ok: bool)
    | Answer(c: CallerId, result: ChatResult)
    | NoAnswer(c: CallerId)
    | Judge(c: CallerId, ok: bool)
    | Store(c: CallerId, now: real)
    | Record(c: CallerId)
    | End(c: CallerId)
    | Cancel(c: CallerId)
    | Leave(c: CallerId)

  /** The step of the lock registry that an event performs. */
  function LockEvent(e: Event): Option<Locks.Event> {
    match e
    case Enter(c, k, spare) => Some(Locks.Enter(c, k, spare))
    case GiveUp(c) => Some(Locks.GiveUp(c))
    case Begin(c) => Some(Locks.Acquire(c))
    case End(c) => Some(Locks.Release(c))
    case Cancel(c) => Some(Locks.Release(c))
    case Leave(c) => Some(Locks.Leave(c))
    case _ => None
  }

  ghost predicate PhaseAllows(p: Phase, e: Event) {
    match e
    case Get(_, _, _) => p.Checking?
    case JudgeHit(_, _) => p.JudgingHit?
    case Answer(_, _) => p.Calling?
    case NoAnswer(_) => p.Calling?
    case Judge(_, _) => p.Judging?
    case Store(_, _) => p.Storing?
    case Record(_) => p.RecordingHit? || p.RecordingMiss? || p.RecordingFailure?
    case End(_) => p.Recorded?
    case Cancel(_) => true
    case _ => false
  }

  ghost predicate Enabled(w: World, e: Event) {
    && (LockEvent(e).Some? ==> Locks.Enabled(w.locks, LockEvent(e).value))
    && (e.Enter? ==> e.c !in w.seen)
    && (!(e.Enter? || e.GiveUp? || e.Begin? || e.Leave?) ==> e.c in w.flights && PhaseAllows(w.flights[e.c].phase, e))
  }

  /** Tokens that the provider reported and the ledger does not show yet. */
  function Pending(p: Phase): Tokens {
    match p
    case Judging(r, _) => r.tokens
    case Storing(r, _) => r.tokens
    case RecordingMiss(r) => r.tokens
    case RecordingFailure(Some(r)) => r.tokens
    case _ => ZERO
  }

  function RowFor(c: CallerId, f: Flight): Usage {
    match f.phase
    case RecordingHit(_, _) => Usage(c, f.key, ZERO, true, true)
    case RecordingMiss(r) => Usage(c, f.key, r.tokens, false, true)
    case RecordingFailure(Some(r)) => Usage(c, f.key, r.tokens, false, false)
    case _ => Usage(c, f.key, ZERO, false, false)
  }

  function Put(w: World, c: CallerId, p: Phase): World
    requires c in w.flights
  {
    w.(flights := w.flights[c := w.flights[c].(phase := p)])
  }

  /** The steps inside the critical section. */
  function Inside(w: World, e: Event, ttl: real): World
    requires Enabled(w, e) && LockEvent(e).None?
  {
    var f := w.flights[e.c];
    match e
    case Get(c, now, again) =>
      var found := Lookup(w.cache, f.key, now);
      Put(w, c, if found.Some? then JudgingHit(found.value, now) else Calling(now))
        .(cache := Evict(w.cache, f.key, now, again))
    case JudgeHit(c, ok) =>
      if ok then Put(w, c, RecordingHit(f.phase.result, f.phase.seenAt))
      else Put(w, c, Calling(f.phase.seenAt)).(cache := w.cache - {f.key})
    case Answer(c, r) => Put(w, c, Judging(r, f.phase.checkedAt)).(answers := w.answers + [(f.key, r)])
    case NoAnswer(c) => Put(w, c, RecordingFailure(None))
    case Judge(c, ok) => Put(w, c, if ok then Storing(f.phase.result, f.phase.checkedAt)
                               else RecordingFailure(Some(f.phase.result)))
    case Store(c, now) =>
      Put(w, c, RecordingMiss(f.phase.result)).(cache := w.cache[f.key := Row(Readable(f.phase.result), now + ttl)],
                                                deposits := w.deposits + [Deposit(c, f.key, f.phase.result, now)])
    case Record(c) => Put(w, c, Recorded).(usage := w.usage + [RowFor(c, f)])
  }

  function Next(w: World, e: Event, ttl: real): World
    requires Enabled(w, e)
  {
    if LockEvent(e).None? then Inside(w, e, ttl)
    else
      var w' := w.(locks := Locks.Next(w.locks, LockEvent(e).value));
      match e
      case Enter(c, _, _) => w'.(seen := w.seen + {c})
      case Begin(c) => w'.(flights := w.flights[c := Flight(w.locks.members[c].key, Checking)])
      case End(c) => w'.(flights := w.flights - {c}, over := w.over + {c}, completed := w.completed + {c})
      case Cancel(c) =>
        w'.(flights := w.flights - {c}, over := w.over + {c}, lost := Plus(w.lost, Pending(w.flights[c].phase)))
      case _ => w'
  }

  ghost predicate Run(w: World, es: seq<Event>, ttl: real, end: World)
    decreases |es|
  {
    if es == [] then w == end else Enabled(w, es[0]) && Run(Next(w, es[0], ttl), es[1..], ttl, end)
  }

  /** A service that starts with whatever rows an earlier process left in the table. */
  function Fresh(legacy: Cache): World {
    World(Locks.UNUSED, map[], legacy, [], [], ZERO, [], {}, {}, {})
  }

  // --- Flights hold their locks ----------------------------------------------------------------------

  ghost predicate FlightsLocked(w: World) {
    && Locks.Inv(w.locks)
    && (forall c :: c in w.flights <==> c in w.locks.members && w.locks.members[c].stage.Inside?)
    && (forall c | c in w.flights :: w.flights[c].key == w.locks.members[c].key)
    && (forall c | c in w.locks.members :: c in w.seen && (c in w.over ==> w.locks.members[c].stage.Leaving?))
    && w.over <= w.seen && w.completed <= w.over
  }

  lemma InsideKeepsFlights(w: World, e: Event, ttl: real)
    requires Enabled(w, e) && LockEvent(e).None?
    ensures var w' := Next(w, e, ttl);
            && w'.locks == w.locks && w'.seen == w.seen && w'.over == w.over && w'.completed == w.completed
            && w'.flights.Keys == w.flights.Keys
            && (forall c | c in w.flights :: w'.flights[c].key == w.flights[c].key)
            && (forall c | c in w.flights && c != e.c :: w'.flights[c] == w.flights[c])
  {
    hide Lookup, Evict;
  }

  lemma InsideKeepsLocked(w: World, e: Event, ttl: real)
    requires FlightsLocked(w) && Enabled(w, e) && LockEvent(e).None?
    ensures FlightsLocked(Next(w, e, ttl))
  {
    hide Locks.Inv, Next, Enabled;
    InsideKeepsFlights(w, e, ttl);
  }

  lemma LockStepKeepsLocked(w: World, e: Event, ttl: real)
    requires FlightsLocked(w) && Enabled(w, e) && LockEvent(e).Some?
    ensures FlightsLocked(Next(w, e, ttl))
  {
    hide Locks.Inv, Locks.Register, Locks.Deregister;
    Locks.StepKeepsInv(w.locks, LockEvent(e).value);
  }

  lemma StepKeepsLocked(w: World, e: Event, ttl: real)
    requires FlightsLocked(w) && Enabled(w, e)
    ensures FlightsLocked(Next(w, e, ttl))
  {
    hide FlightsLocked, Enabled, Next;
    if LockEvent(e).None? {
      InsideKeepsLocked(w, e, ttl);
    } else {
      LockStepKeepsLocked(w, e, ttl);
    }
  }

  /** No two invocations of a key are in flight together, so at most one provider call per key is. */
  lemma OneFlightPerKey(w: World, a: CallerId, b: CallerId)
    requires FlightsLocked(w) && a in w.flights && b in w.flights && w.flights[a].key == w.flights[b].key
    ensures a == b
  {
    assert Locks.MemberFits(w.locks, a) && Locks.MemberFits(w.locks, b);
  }

  // --- The cache agrees with what was stored -----------------------------------------------------------

  function LastDeposit(deposits: seq<Deposit>, k: Key): Option<Deposit> {
    if deposits == [] then None
    else if deposits[|deposits| - 1].key == k then Some(deposits[|deposits| - 1])
    else LastDeposit(deposits[..|deposits| - 1], k)
  }

  lemma DepositAppend(deposits: seq<Deposit>, d: Deposit, k: Key)
    ensures LastDeposit(deposits + [d], k) == if d.key == k then Some(d) else LastDeposit(deposits, k)
  {
    assert (deposits + [d])[..|deposits|] == deposits;
  }

  /** The row that a key ought to have: its last deposit, alive for the time to live, or what was there before. */
  function Expected(legacy: Cache, deposits: seq<Deposit>, ttl: real, k: Key): Option<Row> {
    var last := LastDeposit(deposits, k);
    if last.Some? then Some(Row(Readable(last.value.result), last.value.storedAt + ttl))
    else if k in legacy then Some(legacy[k])
    else None
  }

  /** The row of the key holds r and was alive at t. */
  ghost predicate Served(row: Option<Row>, r: ChatResult, t: real) {
    row.Some? && row.value.stored == Readable(r) && row.value.expiresAt > t
  }

  ghost predicate FlightAgrees(w: World, legacy: Cache, ttl: real, f: Flight) {
    match f.phase
    case JudgingHit(r, t) => Served(Expected(legacy, w.deposits, ttl, f.key), r, t)
    case RecordingHit(r, t) => Served(Expected(legacy, w.deposits, ttl, f.key), r, t)
    case Calling(t) => Lookup(w.cache, f.key, t).None?
    case Judging(_, t) => Lookup(w.cache, f.key, t).None?
    case Storing(_, t) => Lookup(w.cache, f.key, t).None?
    case _ => true
  }

  ghost predicate RowsExpected(w: World, legacy: Cache, ttl: real) {
    forall k | k in w.cache :: Expected(legacy, w.deposits, ttl, k) == Some(w.cache[k])
  }

  ghost predicate CacheAgrees(w: World, legacy: Cache, ttl: real) {
    && RowsExpected(w, legacy, ttl)
    && (forall c | c in w.flights :: FlightAgrees(w, legacy, ttl, w.flights[c]))
  }

  /** A step inside the critical section of a key leaves the rows of all other keys. */
  lemma InsideKeepsOtherKeys(w: World, e: Event, ttl: real, k: Key)
    requires Enabled(w, e) && LockEvent(e).None? && k != w.flights[e.c].key
    ensures var w' := Next(w, e, ttl);
            && (k in w'.cache <==> k in w.cache) && (k in w.cache ==> w'.cache[k] == w.cache[k])
            && LastDeposit(w'.deposits, k) == LastDeposit(w.deposits, k)
  {
    hide LastDeposit, Lookup;
    var f := w.flights[e.c];
    if e.Store? {
      DepositAppend(w.deposits, Deposit(e.c, f.key, f.phase.result, e.now), k);
    }
  }

  lemma OthersAgree(w: World, e: Event, ttl: real, legacy: Cache, f: Flight)
    requires Enabled(w, e) && LockEvent(e).None? && f.key != w.flights[e.c].key
    requires FlightAgrees(w, legacy, ttl, f)
    ensures FlightAgrees(Next(w, e, ttl), legacy, ttl, f)
  {
    hide Next, LastDeposit;
    InsideKeepsOtherKeys(w, e, ttl, f.key);
  }

  lemma OwnRowExpected(w: World, e: Event, ttl: real, legacy: Cache)
    requires RowsExpected(w, legacy, ttl) && Enabled(w, e) && LockEvent(e).None?
    ensures var w', k := Next(w, e, ttl), w.flights[e.c].key;
            k in w'.cache ==> Expected(legacy, w'.deposits, ttl, k) == Some(w'.cache[k])
  {
    hide LastDeposit;
    var f := w.flights[e.c];
    if e.Store? {
      DepositAppend(w.deposits, Deposit(e.c, f.key, f.phase.result, e.now), f.key);
    }
  }

  lemma OwnFlightAgrees(w: World, e: Event, ttl: real, legacy: Cache)
    requires CacheAgrees(w, legacy, ttl) && Enabled(w, e) && LockEvent(e).None?
    ensures FlightAgrees(Next(w, e, ttl), legacy, ttl, Next(w, e, ttl).flights[e.c])
  {
    hide Expected;
    assert FlightAgrees(w, legacy, ttl, w.flights[e.c]);
  }

  lemma InsideAgrees(w: World, e: Event, ttl: real, legacy: Cache)
    requires FlightsLocked(w) && CacheAgrees(w, legacy, ttl) && Enabled(w, e) && LockEvent(e).None?
    ensures CacheAgrees(Next(w, e, ttl), legacy, ttl)
  {
    hide FlightsLocked, FlightAgrees, Locks.Inv, Expected, Next;
    var w', mine := Next(w, e, ttl), w.flights[e.c].key;
    InsideKeepsFlights(w, e, ttl);
    forall c | c in w'.flights
      ensures FlightAgrees(w', legacy, ttl, w'.flights[c])
    {
      if c == e.c {
        OwnFlightAgrees(w, e, ttl, legacy);
      } else {
        if w.flights[c].key == mine {
          OneFlightPerKey(w, c, e.c);
        } else {
          OthersAgree(w, e, ttl, legacy, w.flights[c]);
        }
      }
    }
    forall k | k in w'.cache
      ensures Expected(legacy, w'.deposits, ttl, k) == Some(w'.cache[k])
    {
      if k == mine {
        OwnRowExpected(w, e, ttl, legacy);
      } else {
        InsideKeepsOtherKeys(w, e, ttl, k);
        SameExpected(legacy, w.deposits, w'.deposits, ttl, k);
      }
    }
  }

  lemma SameExpected(legacy: Cache, a: seq<Deposit>, b: seq<Deposit>, ttl: real, k: Key)
    requires LastDeposit(a, k) == LastDeposit(b, k)
    ensures Expected(legacy, a, ttl, k) == Expected(legacy, b, ttl, k)
  {
  }

  lemma LockStepLeavesCache(w: World, e: Event, ttl: real)
    requires Enabled(w, e) && LockEvent(e).Some?
    ensures var w' := Next(w, e, ttl);
            && w'.cache == w.cache && w'.deposits == w.deposits
            && forall c | c in w'.flights ::
                   w'.flights[c].phase.Checking? || (c in w.flights && w'.flights[c] == w.flights[c])
  {
    hide Locks.Next, Locks.Enabled;
  }

  lemma SameCacheAgrees(w: World, w': World, legacy: Cache, ttl: real)
    requires CacheAgrees(w, legacy, ttl) && w'.cache == w.cache && w'.deposits == w.deposits
    requires forall c | c in w'.flights ::
               w'.flights[c].phase.Checking? || (c in w.flights && w'.flights[c] == w.flights[c])
    ensures CacheAgrees(w', legacy, ttl)
  {
    hide Expected;
    forall c | c in w'.flights
      ensures FlightAgrees(w', legacy, ttl, w'.flights[c])
    {
      if !w'.flights[c].phase.Checking? {
        assert FlightAgrees(w, legacy, ttl, w.flights[c]);
      }
    }
  }

  lemma StepAgrees(w: World, e: Event, ttl: real, legacy: Cache)
    requires FlightsLocked(w) && CacheAgrees(w, legacy, ttl) && Enabled(w, e)
    ensures CacheAgrees(Next(w, e, ttl), legacy, ttl)
  {
    hide FlightsLocked, CacheAgrees, Enabled, Next;
    if LockEvent(e).None? {
      InsideAgrees(w, e, ttl, legacy);
    } else {
      LockStepLeavesCache(w, e, ttl);
      SameCacheAgrees(w, Next(w, e, ttl), legacy, ttl);
    }
  }

  // --- The state is what the events made it --------------------------------------------------------------

  ghost predicate FlightTraced(c: CallerId, p: Phase, past: seq<Event>) {
    match p
    case JudgingHit(_, t) => exists again :: Get(c, t, again) in past
    case RecordingHit(_, t) => (exists again :: Get(c, t, again) in past) && JudgeHit(c, true) in past
    case Judging(r, _) => Answer(c, r) in past
    case Storing(r, _) => Answer(c, r) in past && Judge(c, true) in past
    case _ => true
  }

  /** The provider gave the answer to the depositor, its validator accepted it, and it was stored at that time. */
  ghost predicate DepositTraced(d: Deposit, past: seq<Event>) {
    Answer(d.caller, d.result) in past && Judge(d.caller, true) in past && Store(d.caller, d.storedAt) in past
  }

  ghost predicate Traced(w: World, past: seq<Event>) {
    && (forall c | c in w.flights :: FlightTraced(c, w.flights[c].phase, past))
    && (forall d | d in w.deposits :: DepositTraced(d, past))
  }

  lemma TracedLater(w: World, past: seq<Event>, e: Event)
    requires Traced(w, past)
    ensures Traced(w, past + [e])
  {
    assert forall x | x in past :: x in past + [e];
    forall c | c in w.flights
      ensures FlightTraced(c, w.flights[c].phase, past + [e])
    {
      assert FlightTraced(c, w.flights[c].phase, past);
    }
  }

  lemma StepTraces(w: World, e: Event, ttl: real, past: seq<Event>)
    requires Traced(w, past) && Enabled(w, e)
    ensures Traced(Next(w, e, ttl), past + [e])
  {
    hide Lookup, Evict, Locks.Next, Locks.Enabled;
    var w' := Next(w, e, ttl);
    assert (past + [e])[|past|] == e;
    TracedLater(w, past, e);
    if LockEvent(e).None? {
      assert FlightTraced(e.c, w.flights[e.c].phase, past + [e]);
    }
    forall c | c in w'.flights
      ensures FlightTraced(c, w'.flights[c].phase, past + [e])
    {
    }
  }

  // --- One usage row per invocation --------------------------------------------------------------------

  ghost predicate HasRow(usage: seq<Usage>, c: CallerId) {
    exists i | 0 <= i < |usage| :: usage[i].caller == c
  }

  ghost predicate RowsFit(w: World) {
    && (forall i, j | 0 <= i < j < |w.usage| :: w.usage[i].caller != w.usage[j].caller)
    && (forall c | HasRow(w.usage, c) :: c in w.over || (c in w.flights && w.flights[c].phase.Recorded?))
    && (forall c | c in w.flights && w.flights[c].phase.Recorded? :: HasRow(w.usage, c))
    && (forall c | c in w.completed :: HasRow(w.usage, c))
  }

  lemma HasRowAppend(usage: seq<Usage>, row: Usage, c: CallerId)
    ensures HasRow(usage + [row], c) <==> HasRow(usage, c) || row.caller == c
  {
    assert (usage + [row])[|usage|] == row;
    assert forall i | 0 <= i < |usage| :: (usage + [row])[i] == usage[i];
  }

  lemma RecordKeepsRows(w: World, e: Event, ttl: real)
    requires FlightsLocked(w) && RowsFit(w) && Enabled(w, e) && e.Record?
    ensures RowsFit(Next(w, e, ttl))
  {
    hide HasRow, Locks.Inv;
    var row := RowFor(e.c, w.flights[e.c]);
    forall c { HasRowAppend(w.usage, row, c); }
    NoRowYet(w, e.c);
  }

  lemma InsideKeepsRows(w: World, e: Event, ttl: real)
    requires RowsFit(w) && Enabled(w, e) && LockEvent(e).None? && !e.Record?
    ensures RowsFit(Next(w, e, ttl))
  {
    hide HasRow, Lookup, Evict;
    var w' := Next(w, e, ttl);
    assert w'.usage == w.usage;
    assert !w'.flights[e.c].phase.Recorded? && !w.flights[e.c].phase.Recorded?;
  }

  lemma LockStepKeepsRows(w: World, e: Event, ttl: real)
    requires FlightsLocked(w) && RowsFit(w) && Enabled(w, e) && LockEvent(e).Some?
    ensures RowsFit(Next(w, e, ttl))
  {
    hide HasRow, Locks.Inv, Locks.Next, Inside;
    assert e.Begin? ==> e.c !in w.flights && e.c !in w.over;
  }

  lemma StepKeepsRows(w: World, e: Event, ttl: real)
    requires FlightsLocked(w) && RowsFit(w) && Enabled(w, e)
    ensures RowsFit(Next(w, e, ttl))
  {
    hide FlightsLocked, RowsFit, Enabled, Next;
    if e.Record? {
      RecordKeepsRows(w, e, ttl);
    } else {
      if LockEvent(e).None? {
        InsideKeepsRows(w, e, ttl);
      } else {
        LockStepKeepsRows(w, e, ttl);
      }
    }
  }

  lemma NoRowYet(w: World, c: CallerId)
    requires FlightsLocked(w) && RowsFit(w) && c in w.flights && !w.flights[c].phase.Recorded?
    ensures forall i | 0 <= i < |w.usage| :: w.usage[i].caller != c
  {
    hide Locks.Inv;
    assert c !in w.over && !HasRow(w.usage, c);
  }

  // --- Conservation of tokens --------------------------------------------------------------------------

  function UsageTotal(usage: seq<Usage>): Tokens {
    if usage == [] then ZERO else Plus(UsageTotal(usage[..|usage| - 1]), usage[|usage| - 1].tokens)
  }

  function AnswerTotal(answers: seq<(Key, ChatResult)>): Tokens {
    if answers == [] then ZERO else Plus(AnswerTotal(answers[..|answers| - 1]), answers[|answers| - 1].1.tokens)
  }

  ghost function PendingOf(cs: set<CallerId>, m: map<CallerId, Flight>): Tokens
    requires cs <= m.Keys
  {
    if cs == {} then ZERO
    else
      var c :| c in cs;
      Plus(Pending(m[c].phase), PendingOf(cs - {c}, m))
  }

  ghost function PendingTotal(m: map<CallerId, Flight>): Tokens {
    PendingOf(m.Keys, m)
  }

  lemma PlusSwaps(a: Tokens, b: Tokens, c: Tokens)
    ensures Plus(a, Plus(b, c)) == Plus(b, Plus(a, c))
  {
  }

  lemma {:induction false} PendingPick(cs: set<CallerId>, m: map<CallerId, Flight>, c: CallerId)
    requires cs <= m.Keys && c in cs
    ensures PendingOf(cs, m) == Plus(Pending(m[c].phase), PendingOf(cs - {c}, m))
  {
    hide Pending, Plus;
    var d :| d in cs && PendingOf(cs, m) == Plus(Pending(m[d].phase), PendingOf(cs - {d}, m));
    if d != c {
      PendingPick(cs - {d}, m, c);
      PendingPick(cs - {c}, m, d);
      assert cs - {d} - {c} == cs - {c} - {d};
      PlusSwaps(Pending(m[d].phase), Pending(m[c].phase), PendingOf(cs - {c} - {d}, m));
    }
  }

  lemma {:induction false} PendingSame(cs: set<CallerId>, m: map<CallerId, Flight>, n: map<CallerId, Flight>)
    requires cs <= m.Keys && cs <= n.Keys && forall c | c in cs :: m[c] == n[c]
    ensures PendingOf(cs, m) == PendingOf(cs, n)
  {
    hide Pending, Plus;
    if cs != {} {
      var c :| c in cs;
      PendingSame(cs - {c}, m, n);
      PendingPick(cs, m, c);
      PendingPick(cs, n, c);
    }
  }

  lemma PendingRemove(m: map<CallerId, Flight>, c: CallerId)
    requires c in m
    ensures PendingTotal(m) == Plus(Pending(m[c].phase), PendingTotal(m - {c}))
  {
    hide Pending, Plus, PendingOf;
    PendingPick(m.Keys, m, c);
    assert (m - {c}).Keys == m.Keys - {c};
    PendingSame(m.Keys - {c}, m, m - {c});
  }

  lemma PendingPut(m: map<CallerId, Flight>, c: CallerId, f: Flight)
    requires c in m
    ensures Plus(PendingTotal(m[c := f]), Pending(m[c].phase)) == Plus(PendingTotal(m), Pending(f.phase))
  {
    hide Pending, PendingTotal;
    PendingRemove(m, c);
    PendingRemove(m[c := f], c);
    assert m[c := f] - {c} == m - {c};
  }

  lemma PendingAdd(m: map<CallerId, Flight>, c: CallerId, f: Flight)
    requires c !in m && Pending(f.phase) == ZERO
    ensures PendingTotal(m[c := f]) == PendingTotal(m)
  {
    hide Pending, PendingTotal;
    PendingRemove(m[c := f], c);
    assert m[c := f] - {c} == m;
  }

  /** Recorded, pending and lost tokens add up to what the provider reported. */
  ghost predicate Conserved(w: World) {
    Plus(UsageTotal(w.usage), Plus(PendingTotal(w.flights), w.lost)) == AnswerTotal(w.answers)
  }

  lemma TotalsAppend(usage: seq<Usage>, row: Usage, answers: seq<(Key, ChatResult)>, a: (Key, ChatResult))
    ensures UsageTotal(usage + [row]) == Plus(UsageTotal(usage), row.tokens)
    ensures AnswerTotal(answers + [a]) == Plus(AnswerTotal(answers), a.1.tokens)
  {
    assert (usage + [row])[..|usage|] == usage;
    assert (answers + [a])[..|answers|] == answers;
  }

  lemma InsideConserves(w: World, e: Event, ttl: real)
    requires Conserved(w) && Enabled(w, e) && LockEvent(e).None?
    ensures Conserved(Next(w, e, ttl))
  {
    hide UsageTotal, AnswerTotal, PendingTotal, Lookup, Evict;
    var w', f := Next(w, e, ttl), w.flights[e.c];
    PendingPut(w.flights, e.c, w'.flights[e.c]);
    var a := if e.Answer? then (f.key, e.result) else (f.key, ChatResult("", ZERO));
    TotalsAppend(w.usage, RowFor(e.c, f), w.answers, a);
  }

  lemma LockStepConserves(w: World, e: Event, ttl: real)
    requires FlightsLocked(w) && Conserved(w) && Enabled(w, e) && LockEvent(e).Some?
    ensures Conserved(Next(w, e, ttl))
  {
    hide UsageTotal, AnswerTotal, PendingTotal, Locks.Inv, Locks.Next, Pending;
    if e.Begin? {
      NothingPendingYet();
      PendingAdd(w.flights, e.c, Flight(w.locks.members[e.c].key, Checking));
    } else if e.End? {
      NothingPendingYet();
      PendingRemove(w.flights, e.c);
    } else if e.Cancel? {
      PendingRemove(w.flights, e.c);
    }
  }

  lemma NothingPendingYet()
    ensures Pending(Checking) == ZERO && Pending(Recorded) == ZERO
  {
  }

  lemma StepConserves(w: World, e: Event, ttl: real)
    requires FlightsLocked(w) && Conserved(w) && Enabled(w, e)
    ensures Conserved(Next(w, e, ttl))
  {
    hide FlightsLocked, Conserved, Enabled, Next;
    if LockEvent(e).None? {
      InsideConserves(w, e, ttl);
    } else {
      LockStepConserves(w, e, ttl);
    }
  }

  // --- Theorems ------------------------------------------------------------------------------------------

  ghost predicate Inv(w: World, legacy: Cache, ttl: real) {
    FlightsLocked(w) && CacheAgrees(w, legacy, ttl) && RowsFit(w) && Conserved(w)
  }

  lemma FreshIsInv(legacy: Cache, ttl: real)
    ensures Inv(Fresh(legacy), legacy, ttl)
  {
    Locks.StartIsInv();
    hide Locks.Inv;
    assert PendingTotal(map[]) == ZERO;
  }

  lemma StepIsInv(w: World, past: seq<Event>, e: Event, ttl: real, legacy: Cache)
    requires Inv(w, legacy, ttl) && Traced(w, past) && Enabled(w, e)
    ensures Inv(Next(w, e, ttl), legacy, ttl) && Traced(Next(w, e, ttl), past + [e])
  {
    hide FlightsLocked, CacheAgrees, RowsFit, Conserved, Traced, Next, Enabled;
    StepKeepsLocked(w, e, ttl);
    StepAgrees(w, e, ttl, legacy);
    StepKeepsRows(w, e, ttl);
    StepConserves(w, e, ttl);
    StepTraces(w, e, ttl, past);
  }

  lemma {:induction false} RunKeepsInv(w: World, past: seq<Event>, es: seq<Event>, ttl: real, end: World, legacy: Cache)
    requires Inv(w, legacy, ttl) && Traced(w, past) && Run(w, es, ttl, end)
    ensures Inv(end, legacy, ttl) && Traced(end, past + es)
    decreases |es|
  {
    hide Inv, Traced, Next, Enabled;
    if es == [] {
      assert past + es == past;
    } else {
      StepIsInv(w, past, es[0], ttl, legacy);
      RunKeepsInv(Next(w, es[0], ttl), past + [es[0]], es[1..], ttl, end, legacy);
      assert past + [es[0]] + es[1..] == past + es;
    }
  }

  lemma RunIsInv(legacy: Cache, es: seq<Event>, ttl: real, w: World)
    requires Run(Fresh(legacy), es, ttl, w)
    ensures Inv(w, legacy, ttl) && Traced(w, es)
  {
    hide Run, Inv;
    FreshIsInv(legacy, ttl);
    RunKeepsInv(Fresh(legacy), [], es, ttl, w, legacy);
    assert [] + es == es;
  }

  /** Single flight: at most one invocation of a key is between its lookup and its end, and it calls the
      provider only if the table had nothing to serve when it looked, which still holds. */
  lemma SingleFlight(legacy: Cache, es: seq<Event>, ttl: real, w: World)
    requires Run(Fresh(legacy), es, ttl, w)
    ensures forall a, b | a in w.flights && b in w.flights && w.flights[a].key == w.flights[b].key :: a == b
    ensures forall c | c in w.flights && w.flights[c].phase.Calling? ::
              Lookup(w.cache, w.flights[c].key, w.flights[c].phase.checkedAt).None?
  {
    hide Run, Lookup, FlightsLocked, RowsFit, Conserved;
    RunIsInv(legacy, es, ttl, w);
    forall a, b | a in w.flights && b in w.flights && w.flights[a].key == w.flights[b].key
      ensures a == b
    {
      OneFlightPerKey(w, a, b);
    }
    forall c | c in w.flights && w.flights[c].phase.Calling?
      ensures Lookup(w.cache, w.flights[c].key, w.flights[c].phase.checkedAt).None?
    {
      assert FlightAgrees(w, legacy, ttl, w.flights[c]);
    }
  }

  /** A hit serves the last answer put into the table for its key, read before that answer's time to live was
      over: the provider gave it to a caller whose validator accepted it. Without such an answer the hit is
      an unexpired row from before the start. Either way the caller's own validator accepted it. */
  lemma HitsAreTheLastStored(legacy: Cache, es: seq<Event>, ttl: real, w: World, c: CallerId)
    requires Run(Fresh(legacy), es, ttl, w) && c in w.flights && w.flights[c].phase.RecordingHit?
    ensures var k, p, last := w.flights[c].key, w.flights[c].phase, LastDeposit(w.deposits, w.flights[c].key);
            && JudgeHit(c, true) in es && (exists again :: Get(c, p.seenAt, again) in es)
            && match last
               case Some(d) =>
                 && d.key == k && d.result == p.result && p.seenAt < d.storedAt + ttl
                 && Answer(d.caller, d.result) in es && Judge(d.caller, true) in es && Store(d.caller, d.storedAt) in es
               case None => k in legacy && legacy[k].stored == Readable(p.result) && p.seenAt < legacy[k].expiresAt
  {
    hide Run, FlightsLocked, RowsFit, Conserved;
    RunIsInv(legacy, es, ttl, w);
    assert FlightAgrees(w, legacy, ttl, w.flights[c]) && FlightTraced(c, w.flights[c].phase, es);
    LastDepositIsMade(w.deposits, w.flights[c].key);
  }

  lemma {:induction false} LastDepositIsMade(deposits: seq<Deposit>, k: Key)
    ensures var d := LastDeposit(deposits, k); d.Some? ==> d.value in deposits && d.value.key == k
  {
    if deposits != [] {
      LastDepositIsMade(deposits[..|deposits| - 1], k);
    }
  }

  /** Every answer ever put into the table was given by the provider and accepted by its caller's validator. */
  lemma OnlyAcceptedAnswersAreStored(legacy: Cache, es: seq<Event>, ttl: real, w: World)
    requires Run(Fresh(legacy), es, ttl, w)
    ensures forall d | d in w.deposits :: Answer(d.caller, d.result) in es && Judge(d.caller, true) in es
    ensures forall k | k in w.cache && !(k in legacy && w.cache[k] == legacy[k]) ::
              exists d | d in w.deposits :: d.key == k && w.cache[k] == Row(Readable(d.result), d.storedAt + ttl)
  {
    hide Run, FlightsLocked, RowsFit, Conserved, FlightAgrees, FlightTraced;
    RunIsInv(legacy, es, ttl, w);
    forall k | k in w.cache && !(k in legacy && w.cache[k] == legacy[k])
      ensures exists d | d in w.deposits :: d.key == k && w.cache[k] == Row(Readable(d.result), d.storedAt + ttl)
    {
      LastDepositIsMade(w.deposits, k);
      var d := LastDeposit(w.deposits, k).value;
      assert d in w.deposits;
    }
  }

  /** No invocation has two usage rows, and every completed one has one. */
  lemma OneRowPerInvocation(legacy: Cache, es: seq<Event>, ttl: real, w: World)
    requires Run(Fresh(legacy), es, ttl, w)
    ensures forall i, j | 0 <= i < j < |w.usage| :: w.usage[i].caller != w.usage[j].caller
    ensures forall c | c in w.completed :: HasRow(w.usage, c)
  {
    hide Run, FlightsLocked, CacheAgrees, Traced, Conserved, HasRow;
    RunIsInv(legacy, es, ttl, w);
  }

  /** Recorded tokens are the provider's, less those still in flight and those of cancelled invocations. */
  lemma TokensAreConserved(legacy: Cache, es: seq<Event>, ttl: real, w: World)
    requires Run(Fresh(legacy), es, ttl, w)
    ensures Plus(UsageTotal(w.usage), Plus(PendingTotal(w.flights), w.lost)) == AnswerTotal(w.answers)
    ensures w.flights == map[] && w.lost == ZERO ==> UsageTotal(w.usage) == AnswerTotal(w.answers)
  {
    hide Run, FlightsLocked, CacheAgrees, RowsFit, Traced, UsageTotal, AnswerTotal, PendingTotal;
    RunIsInv(legacy, es, ttl, w);
    if w.flights == map[] {
      NothingPending(w.flights);
    }
  }

  lemma NothingPending(m: map<CallerId, Flight>)
    requires m == map[]
    ensures PendingTotal(m) == ZERO
  {
    assert m.Keys == {};
  }

  // --- Why the provider is called --------------------------------------------------------------------

  /** The validator of a later caller of the same key rejected what d put into the table. */
  ghost predicate Rejected(past: seq<Event>, d: Deposit) {
    exists i, j | 0 <= j < i < |past| :: past[j] == Store(d.caller, d.storedAt) && RejectsKey(past, i, d.key)
  }

  ghost predicate RejectsKey(past: seq<Event>, i: nat, k: Key)
    requires i < |past|
  {
    past[i].JudgeHit? && !past[i].ok && EnteredFor(past, past[i].c, k)
  }

  ghost predicate EnteredFor(past: seq<Event>, c: CallerId, k: Key) {
    exists spare :: Enter(c, k, spare) in past
  }

  /** Some lookup read the clock at or after t. */
  ghost predicate ReadAfter(past: seq<Event>, t: real) {
    exists i | 0 <= i < |past| :: past[i].Get? && past[i].now >= t
  }

  /** The clock of the lookups never goes back. */
  ghost predicate LookupsInOrder(es: seq<Event>) {
    forall i, j | 0 <= i < j < |es| && es[i].Get? && es[j].Get? :: es[i].now <= es[j].now
  }

  /** The last deposit of a key is in the table, or was rejected, or had expired for some lookup. */
  ghost predicate KeyCovered(w: World, past: seq<Event>, ttl: real, k: Key) {
    var last := LastDeposit(w.deposits, k);
    last.Some? ==> k in w.cache || Rejected(past, last.value) || ReadAfter(past, last.value.storedAt + ttl)
  }

  /** A caller that turned to the provider while the last deposit of its key was alive found it rejected. */
  ghost predicate CallNeeded(w: World, past: seq<Event>, ttl: real, f: Flight) {
    var last := LastDeposit(w.deposits, f.key);
    f.phase.Calling? && last.Some? && f.phase.checkedAt < last.value.storedAt + ttl ==> Rejected(past, last.value)
  }

  ghost predicate Needed(w: World, past: seq<Event>, ttl: real) {
    && (forall c | c in w.locks.members :: EnteredFor(past, c, w.locks.members[c].key))
    && (forall k :: KeyCovered(w, past, ttl, k))
    && (forall c | c in w.flights :: CallNeeded(w, past, ttl, w.flights[c]))
  }

  lemma EnteredLater(past: seq<Event>, e: Event, c: CallerId, k: Key)
    requires EnteredFor(past, c, k)
    ensures EnteredFor(past + [e], c, k)
  {
    var spare :| Enter(c, k, spare) in past;
    assert Enter(c, k, spare) in past + [e];
  }

  lemma RejectedLater(past: seq<Event>, e: Event, d: Deposit)
    ensures Rejected(past, d) ==> Rejected(past + [e], d)
  {
    if Rejected(past, d) {
      var i, j :| 0 <= j < i < |past| && past[j] == Store(d.caller, d.storedAt) && RejectsKey(past, i, d.key);
      EnteredLater(past, e, past[i].c, d.key);
      assert (past + [e])[j] == past[j] && (past + [e])[i] == past[i];
      assert RejectsKey(past + [e], i, d.key);
    }
  }

  lemma ReadLater(past: seq<Event>, e: Event, t: real)
    ensures ReadAfter(past, t) ==> ReadAfter(past + [e], t)
    ensures e.Get? && e.now >= t ==> ReadAfter(past + [e], t)
  {
    assert (past + [e])[|past|] == e;
    if ReadAfter(past, t) {
      var i :| 0 <= i < |past| && past[i].Get? && past[i].now >= t;
      assert (past + [e])[i] == past[i];
    }
  }

  /** A rejection that happens now. */
  lemma RejectedNow(past: seq<Event>, e: Event, d: Deposit)
    requires e.JudgeHit? && !e.ok && EnteredFor(past, e.c, d.key) && Store(d.caller, d.storedAt) in past
    ensures Rejected(past + [e], d)
  {
    EnteredLater(past, e, e.c, d.key);
    var j :| 0 <= j < |past| && past[j] == Store(d.caller, d.storedAt);
    assert (past + [e])[j] == past[j] && RejectsKey(past + [e], |past|, d.key);
  }

  lemma CoveredLater(w: World, past: seq<Event>, e: Event, ttl: real, k: Key)
    requires KeyCovered(w, past, ttl, k)
    ensures KeyCovered(w, past + [e], ttl, k)
  {
    hide Rejected, ReadAfter, LastDeposit;
    var last := LastDeposit(w.deposits, k);
    if last.Some? {
      RejectedLater(past, e, last.value);
      ReadLater(past, e, last.value.storedAt + ttl);
    }
  }

  lemma NeededLater(w: World, past: seq<Event>, e: Event, ttl: real, f: Flight)
    requires CallNeeded(w, past, ttl, f)
    ensures CallNeeded(w, past + [e], ttl, f)
  {
    hide Rejected, LastDeposit;
    var last := LastDeposit(w.deposits, f.key);
    if last.Some? {
      RejectedLater(past, e, last.value);
    }
  }

  /** The own key of a step stays covered: what leaves the table was rejected or had expired. */
  lemma OwnKeyCovered(w: World, past: seq<Event>, e: Event, ttl: real, legacy: Cache)
    requires FlightsLocked(w) && RowsExpected(w, legacy, ttl) && Traced(w, past) && Needed(w, past, ttl)
    requires Enabled(w, e) && LockEvent(e).None?
    ensures KeyCovered(Next(w, e, ttl), past + [e], ttl, w.flights[e.c].key)
  {
    hide Rejected, ReadAfter, LastDeposit, Locks.Inv, FlightTraced, EnteredFor;
    var w', f := Next(w, e, ttl), w.flights[e.c];
    var k := f.key;
    CoveredLater(w, past, e, ttl, k);
    if e.Store? {
      DepositAppend(w.deposits, Deposit(e.c, k, f.phase.result, e.now), k);
    } else {
      assert w'.deposits == w.deposits;
      var last := LastDeposit(w.deposits, k);
      LastDepositIsMade(w.deposits, k);
      if last.Some? && k in w.cache && k !in w'.cache {
        assert DepositTraced(last.value, past);
        if e.JudgeHit? {
          RejectedNow(past, e, last.value);
        } else {
          ReadLater(past, e, last.value.storedAt + ttl);
        }
      }
    }
  }

  /** The own flight of a step turns to the provider only for a reason. */
  lemma OwnCallNeeded(w: World, past: seq<Event>, e: Event, ttl: real, legacy: Cache)
    requires FlightsLocked(w) && RowsExpected(w, legacy, ttl) && Traced(w, past) && Needed(w, past, ttl)
    requires Enabled(w, e) && LockEvent(e).None? && LookupsInOrder(past + [e])
    ensures CallNeeded(Next(w, e, ttl), past + [e], ttl, Next(w, e, ttl).flights[e.c])
  {
    hide Rejected, LastDeposit, Locks.Inv, FlightTraced, EnteredFor;
    var w', f := Next(w, e, ttl), w.flights[e.c];
    var k, last := f.key, LastDeposit(w.deposits, f.key);
    LastDepositIsMade(w.deposits, k);
    if last.Some? && w'.flights[e.c].phase.Calling? {
      if e.JudgeHit? {
        assert DepositTraced(last.value, past);
        RejectedNow(past, e, last.value);
      } else {
        assert KeyCovered(w, past, ttl, k);
        RejectedLater(past, e, last.value);
        EarlierReading(past, e, last.value.storedAt + ttl);
      }
    }
  }

  /** What an earlier lookup found expired is expired for the present one. */
  lemma EarlierReading(past: seq<Event>, e: Event, t: real)
    requires LookupsInOrder(past + [e]) && e.Get?
    ensures ReadAfter(past, t) ==> t <= e.now
  {
    if ReadAfter(past, t) {
      var i :| 0 <= i < |past| && past[i].Get? && past[i].now >= t;
      assert (past + [e])[i] == past[i] && (past + [e])[|past|] == e;
    }
  }

  lemma InsideNeeded(w: World, past: seq<Event>, e: Event, ttl: real, legacy: Cache)
    requires Inv(w, legacy, ttl) && Traced(w, past) && Needed(w, past, ttl)
    requires Enabled(w, e) && LockEvent(e).None? && LookupsInOrder(past + [e])
    ensures Needed(Next(w, e, ttl), past + [e], ttl)
  {
    hide FlightsLocked, RowsExpected, FlightAgrees, RowsFit, Conserved, Traced,
         KeyCovered, CallNeeded, EnteredFor, Next;
    var w', mine := Next(w, e, ttl), w.flights[e.c].key;
    InsideKeepsFlights(w, e, ttl);
    forall c | c in w'.locks.members
      ensures EnteredFor(past + [e], c, w'.locks.members[c].key)
    {
      EnteredLater(past, e, c, w.locks.members[c].key);
    }
    forall k
      ensures KeyCovered(w', past + [e], ttl, k)
    {
      if k == mine {
        OwnKeyCovered(w, past, e, ttl, legacy);
      } else {
        OtherKeyCovered(w, past, e, ttl, k);
      }
    }
    forall c | c in w'.flights
      ensures CallNeeded(w', past + [e], ttl, w'.flights[c])
    {
      if c == e.c {
        OwnCallNeeded(w, past, e, ttl, legacy);
      } else {
        if w.flights[c].key == mine {
          OneFlightPerKey(w, c, e.c);
        } else {
          OtherCallNeeded(w, past, e, ttl, w.flights[c]);
        }
      }
    }
  }

  lemma OtherKeyCovered(w: World, past: seq<Event>, e: Event, ttl: real, k: Key)
    requires Enabled(w, e) && LockEvent(e).None? && k != w.flights[e.c].key && KeyCovered(w, past, ttl, k)
    ensures KeyCovered(Next(w, e, ttl), past + [e], ttl, k)
  {
    hide Next, Enabled, LastDeposit, Rejected, ReadAfter;
    CoveredLater(w, past, e, ttl, k);
    InsideKeepsOtherKeys(w, e, ttl, k);
  }

  lemma OtherCallNeeded(w: World, past: seq<Event>, e: Event, ttl: real, f: Flight)
    requires Enabled(w, e) && LockEvent(e).None? && f.key != w.flights[e.c].key && CallNeeded(w, past, ttl, f)
    ensures CallNeeded(Next(w, e, ttl), past + [e], ttl, f)
  {
    hide Next, Enabled, LastDeposit, Rejected;
    NeededLater(w, past, e, ttl, f);
    InsideKeepsOtherKeys(w, e, ttl, f.key);
  }

  lemma LockStepEnters(w: World, past: seq<Event>, e: Event, ttl: real)
    requires Enabled(w, e) && LockEvent(e).Some?
    requires forall c | c in w.locks.members :: EnteredFor(past, c, w.locks.members[c].key)
    ensures var w' := Next(w, e, ttl);
            forall c | c in w'.locks.members :: EnteredFor(past + [e], c, w'.locks.members[c].key)
  {
    var w' := Next(w, e, ttl);
    forall c | c in w'.locks.members
      ensures EnteredFor(past + [e], c, w'.locks.members[c].key)
    {
      if e.Enter? && c == e.c {
        assert (past + [e])[|past|] == Enter(c, e.key, e.spare);
      } else {
        EnteredLater(past, e, c, w.locks.members[c].key);
      }
    }
  }

  lemma LockStepNeeded(w: World, past: seq<Event>, e: Event, ttl: real)
    requires Needed(w, past, ttl) && Enabled(w, e) && LockEvent(e).Some?
    ensures Needed(Next(w, e, ttl), past + [e], ttl)
  {
    hide EnteredFor, Rejected, ReadAfter, LastDeposit, Next;
    var w' := Next(w, e, ttl);
    LockStepEnters(w, past, e, ttl);
    LockStepLeavesCache(w, e, ttl);
    forall k
      ensures KeyCovered(w', past + [e], ttl, k)
    {
      CoveredLater(w, past, e, ttl, k);
    }
    forall c | c in w'.flights
      ensures CallNeeded(w', past + [e], ttl, w'.flights[c])
    {
      if w'.flights[c].phase.Calling? {
        NeededLater(w, past, e, ttl, w.flights[c]);
      }
    }
  }

  /** Every row marked as a hit charges nothing. */
  ghost predicate HitsAreFree(usage: seq<Usage>) {
    forall i | 0 <= i < |usage| :: usage[i].hit ==> usage[i].tokens == ZERO
  }

  lemma StepKeepsHitsFree(w: World, e: Event, ttl: real)
    requires Enabled(w, e) && HitsAreFree(w.usage)
    ensures HitsAreFree(Next(w, e, ttl).usage)
  {
    hide Lookup, Evict, Locks.Next, Locks.Enabled;
  }

  lemma {:induction false} RunIsNeeded(w: World, past: seq<Event>, es: seq<Event>, ttl: real, end: World, legacy: Cache)
    requires Inv(w, legacy, ttl) && Traced(w, past) && Needed(w, past, ttl) && Run(w, es, ttl, end)
    requires LookupsInOrder(past + es)
    ensures Needed(end, past + es, ttl)
    decreases |es|
  {
    hide Inv, Traced, Needed, Next, Enabled;
    if es == [] {
      assert past + es == past;
    } else {
      var e, more := es[0], past + [es[0]];
      assert more + es[1..] == past + es;
      assert forall i | 0 <= i < |more| :: more[i] == (past + es)[i];
      StepIsInv(w, past, e, ttl, legacy);
      if LockEvent(e).None? {
        InsideNeeded(w, past, e, ttl, legacy);
      } else {
        LockStepNeeded(w, past, e, ttl);
      }
      RunIsNeeded(Next(w, e, ttl), more, es[1..], ttl, end, legacy);
    }
  }

  lemma FreshIsNeeded(legacy: Cache, ttl: real)
    ensures Needed(Fresh(legacy), [], ttl) && Traced(Fresh(legacy), [])
  {
  }

  /** While lookups read a clock that never goes back, an invocation turns to the provider although the last
      answer stored for its key is still alive only if a validator rejected that answer after it was stored. */
  lemma ProviderIsCalledForAReason(legacy: Cache, es: seq<Event>, ttl: real, w: World, c: CallerId)
    requires Run(Fresh(legacy), es, ttl, w) && LookupsInOrder(es) && c in w.flights && w.flights[c].phase.Calling?
    ensures var last := LastDeposit(w.deposits, w.flights[c].key);
            last.Some? && w.flights[c].phase.checkedAt < last.value.storedAt + ttl ==> Rejected(es, last.value)
  {
    hide Run, Inv, Traced, Rejected, LastDeposit, EnteredFor, KeyCovered;
    FreshIsInv(legacy, ttl);
    FreshIsNeeded(legacy, ttl);
    assert [] + es == es;
    RunIsNeeded(Fresh(legacy), [], es, ttl, w, legacy);
    assert CallNeeded(w, es, ttl, w.flights[c]);
  }

  /** In every run the rows marked as hits charge no tokens. */
  lemma {:induction false} HitsStayFree(w: World, es: seq<Event>, ttl: real, end: World)
    requires HitsAreFree(w.usage) && Run(w, es, ttl, end)
    ensures HitsAreFree(end.usage)
    decreases |es|
  {
    hide Next, Enabled, HitsAreFree;
    if es != [] {
      StepKeepsHitsFree(w, es[0], ttl);
      HitsStayFree(Next(w, es[0], ttl), es[1..], ttl, end);
    }
  }

  // --- What a lookup leaves behind -----------------------------------------------------------------------

  /** A lookup whose second reading of the clock is no earlier keeps the row of its key exactly when it serves it. */
  lemma LookupKeepsWhatItServes(cache: Cache, k: Key, now: real, again: real)
    requires now <= again
    ensures var cache' := Evict(cache, k, now, again);
            && (k in cache' <==> Lookup(cache, k, now).Some?)
            && (k in cache' ==> cache'[k] == cache[k])
            && forall x | x != k :: (x in cache' <==> x in cache) && (x in cache ==> cache'[x] == cache[x])
  {
  }

  ghost predicate RereadsInOrder(es: seq<Event>) {
    forall i | 0 <= i < |es| && es[i].Get? :: es[i].now <= es[i].again
  }

  /** After a lookup that served nothing, the key has no row until its caller stores one. */
  ghost predicate Cleared(w: World) {
    forall c | c in w.flights && (w.flights[c].phase.Calling? || w.flights[c].phase.Judging?
                                  || w.flights[c].phase.Storing? || w.flights[c].phase.RecordingFailure?) ::
      w.flights[c].key !in w.cache
  }

  lemma OwnKeyCleared(w: World, e: Event, ttl: real)
    requires Enabled(w, e) && LockEvent(e).None? && Cleared(w) && (e.Get? ==> e.now <= e.again)
    ensures var w' := Next(w, e, ttl); var p := w'.flights[e.c].phase;
            p.Calling? || p.Judging? || p.Storing? || p.RecordingFailure? ==> w'.flights[e.c].key !in w'.cache
  {
    if e.Get? {
      LookupKeepsWhatItServes(w.cache, w.flights[e.c].key, e.now, e.again);
    }
  }

  lemma StepKeepsCleared(w: World, e: Event, ttl: real)
    requires FlightsLocked(w) && Enabled(w, e) && Cleared(w) && (e.Get? ==> e.now <= e.again)
    ensures Cleared(Next(w, e, ttl))
  {
    hide FlightsLocked, Next;
    if LockEvent(e).Some? {
      LockStepLeavesCache(w, e, ttl);
    } else {
      OwnKeyCleared(w, e, ttl);
      InsideKeepsFlights(w, e, ttl);
      var w' := Next(w, e, ttl);
      forall c | c in w'.flights && c != e.c
        ensures w'.flights[c].key in w'.cache <==> w.flights[c].key in w.cache
      {
        if w.flights[c].key == w.flights[e.c].key {
          OneFlightPerKey(w, c, e.c);
        } else {
          InsideKeepsOtherKeys(w, e, ttl, w.flights[c].key);
        }
      }
    }
  }

  lemma {:induction false} RunKeepsCleared(w: World, past: seq<Event>, es: seq<Event>, ttl: real, end: World,
                                           legacy: Cache)
    requires Inv(w, legacy, ttl) && Traced(w, past) && Run(w, es, ttl, end) && Cleared(w) && RereadsInOrder(es)
    ensures Cleared(end)
    decreases |es|
  {
    hide FlightsLocked, CacheAgrees, RowsFit, Conserved, Traced, Next, Enabled, Cleared;
    if es != [] {
      StepKeepsCleared(w, es[0], ttl);
      StepIsInv(w, past, es[0], ttl, legacy);
      RunKeepsCleared(Next(w, es[0], ttl), past + [es[0]], es[1..], ttl, end, legacy);
    }
  }

  /** While the provider is asked, its answer judged, or a failure recorded, the table has no row of the key: expired,
      undecodable and rejected rows are gone. */
  lemma MissesLeaveNoRow(legacy: Cache, es: seq<Event>, ttl: real, w: World)
    requires Run(Fresh(legacy), es, ttl, w) && RereadsInOrder(es)
    ensures Cleared(w)
  {
    hide Run, Inv;
    FreshIsInv(legacy, ttl);
    RunKeepsCleared(Fresh(legacy), [], es, ttl, w, legacy);
  }

  // --- An uninterrupted invocation -------------------------------------------------------------------------

  lemma {:induction false} RunMore(w: World, es: seq<Event>, mid: World, e: Event, ttl: real)
    requires Run(w, es, ttl, mid) && Enabled(mid, e)
    ensures Run(w, es + [e], ttl, Next(mid, e, ttl))
    decreases |es|
  {
    hide Next, Enabled;
    if es == [] {
      assert es + [e] == [e] && [e][1..] == [];
    } else {
      RunMore(Next(w, es[0], ttl), es[1..], mid, e, ttl);
      assert (es + [e])[1..] == es[1..] + [e] && (es + [e])[0] == es[0];
    }
  }

  /** A flight of c for k inside its lock. */
  ghost predicate Flying(w: World, c: CallerId, k: Key, p: Phase) {
    c in w.flights && w.flights[c] == Flight(k, p) && Locks.At(w.locks, c, Locks.Inside)
  }

  lemma InsideStep(w0: World, es: seq<Event>, w: World, c: CallerId, k: Key, p: Phase, e: Event, ttl: real)
    returns (es': seq<Event>, w': World)
    requires Run(w0, es, ttl, w) && Flying(w, c, k, p) && e.c == c && PhaseAllows(p, e) && LockEvent(e).None?
    ensures Enabled(w, e) && w' == Inside(w, e, ttl) && Run(w0, es', ttl, w') && Flying(w', c, k, w'.flights[c].phase)
  {
    hide Run, Locks.At;
    RunMore(w0, es, w, e, ttl);
    es', w' := es + [e], Next(w, e, ttl);
    InsideKeepsFlights(w, e, ttl);
  }

  /** Writing the usage row and leaving the lock. */
  lemma RecordAndEnd(w0: World, es0: seq<Event>, w: World, c: CallerId, k: Key, p: Phase, ttl: real)
    returns (es: seq<Event>, end: World)
    requires Run(w0, es0, ttl, w) && Flying(w, c, k, p) && PhaseAllows(p, Record(c))
    ensures Run(w0, es, ttl, end) && c !in end.flights && c in end.completed
    ensures end.cache == w.cache && end.usage == w.usage + [RowFor(c, Flight(k, p))]
  {
    hide Run;
    es, end := InsideStep(w0, es0, w, c, k, p, Record(c), ttl);
    RunMore(w0, es, end, End(c), ttl);
    es, end := es + [End(c)], Next(end, End(c), ttl);
  }

  /** An answer of the provider and what follows it. */
  lemma AnswerAndEnd(w0: World, es0: seq<Event>, w: World, c: CallerId, k: Key, now: real, ok: bool,
                     r: ChatResult, storedAt: real, ttl: real) returns (es: seq<Event>, end: World)
    requires Run(w0, es0, ttl, w) && Flying(w, c, k, Calling(now))
    ensures Run(w0, es, ttl, end) && c !in end.flights && c in end.completed
    ensures end.cache == (if ok then w.cache[k := Row(Readable(r), storedAt + ttl)] else w.cache)
    ensures end.usage == w.usage + [Usage(c, k, r.tokens, false, ok)]
  {
    hide Run, Enabled, Locks.At, Lookup, Evict;
    es, end := InsideStep(w0, es0, w, c, k, Calling(now), Answer(c, r), ttl);
    es, end := InsideStep(w0, es, end, c, k, Judging(r, now), Judge(c, ok), ttl);
    if ok {
      es, end := InsideStep(w0, es, end, c, k, Storing(r, now), Store(c, storedAt), ttl);
      es, end := RecordAndEnd(w0, es, end, c, k, RecordingMiss(r), ttl);
    } else {
      es, end := RecordAndEnd(w0, es, end, c, k, RecordingFailure(Some(r)), ttl);
    }
  }

  /** The call of the provider and what follows it. */
  lemma CallAndEnd(w0: World, es0: seq<Event>, w: World, c: CallerId, k: Key, now: real, valid: string -> bool,
                   provider: Option<ChatResult>, storedAt: real, ttl: real) returns (es: seq<Event>, end: World)
    requires Run(w0, es0, ttl, w) && Flying(w, c, k, Calling(now))
    ensures Run(w0, es, ttl, end) && c !in end.flights && c in end.completed
    ensures var answered := provider.Some? && valid(provider.value.text);
            && end.cache == (if answered then w.cache[k := Row(Readable(provider.value), storedAt + ttl)] else w.cache)
            && end.usage == w.usage +
                              [Usage(c, k, if provider.None? then ZERO else provider.value.tokens, false, answered)]
  {
    hide Run, Enabled, Locks.At, Lookup, Evict;
    if provider.None? {
      es, end := InsideStep(w0, es0, w, c, k, Calling(now), NoAnswer(c), ttl);
      es, end := RecordAndEnd(w0, es, end, c, k, RecordingFailure(None), ttl);
    } else {
      es, end := AnswerAndEnd(w0, es0, w, c, k, now, valid(provider.value.text), provider.value, storedAt, ttl);
    }
  }

  /** A caller that nobody interrupts between its lock and its end does to the table and the ledger exactly
      what one invocation of the service does. */
  lemma UninterruptedRunIsInvocation(w: World, c: CallerId, valid: string -> bool, provider: Option<ChatResult>,
                                     now: real, again: real, storedAt: real, ttl: real)
    returns (es: seq<Event>, end: World)
    requires Enabled(w, Begin(c))
    ensures Run(w, es, ttl, end) && c !in end.flights && c in end.completed
    ensures c in w.locks.members
    ensures Accounted(c, w.locks.members[c].key, valid, provider, now, storedAt + ttl,
                      w.cache, w.usage, end.cache, end.usage)
  {
    hide Run, Enabled, Locks.At;
    var k := TakeLock(w, c, ttl);
    es, end := InsideStep(w, [Begin(c)], Next(w, Begin(c), ttl), c, k, Checking, Get(c, now, again), ttl);
    var seen := Lookup(w.cache, k, now);
    if seen.Some? {
      var ok := valid(seen.value.text);
      es, end := InsideStep(w, es, end, c, k, JudgingHit(seen.value, now), JudgeHit(c, ok), ttl);
      if ok {
        es, end := RecordAndEnd(w, es, end, c, k, RecordingHit(seen.value, now), ttl);
      } else {
        es, end := CallAndEnd(w, es, end, c, k, now, valid, provider, storedAt, ttl);
      }
    } else {
      es, end := CallAndEnd(w, es, end, c, k, now, valid, provider, storedAt, ttl);
    }
  }

  lemma TakeLock(w: World, c: CallerId, ttl: real) returns (k: Key)
    requires Enabled(w, Begin(c))
    ensures c in w.locks.members && k == w.locks.members[c].key
    ensures var mid := Next(w, Begin(c), ttl);
            Run(w, [Begin(c)], ttl, mid) && Flying(mid, c, k, Checking) && mid.cache == w.cache && mid.usage == w.usage
  {
    k := w.locks.members[c].key;
    assert [Begin(c)][1..] == [];
  }
}
