/** The sliding-window limiter for authentication attempts. */
module RateLimit {
  import Numbers

  /** A bucket together with a client. */
  type Key = nat

  datatype Policy = Policy(limit: int, windowSeconds: int) {
    function Window(): real { if windowSeconds >= 1 then windowSeconds as real else 1.0 }
    function Limit(): int { if limit >= 1 then limit else 1 }
  }

  function Entries(m: map<Key, seq<real>>, k: Key): seq<real> {
    if k in m then m[k] else []
  }

  /** Drops attempts from the front while they are not newer than the cutoff. */
  function Prune(entries: seq<real>, cutoff: real): seq<real> {
    if entries != [] && entries[0] <= cutoff then Prune(entries[1..], cutoff) else entries
  }

  /** Whether a deque has room for an attempt. */
  predicate Room(live: seq<real>, p: Policy, now: real) {
    |Prune(live, now - p.Window())| < p.Limit()
  }

  function LiveAfter(live: seq<real>, p: Policy, now: real): seq<real> {
    var kept := Prune(live, now - p.Window());
    if Room(live, p, now) then kept + [now] else kept
  }

  predicate Admits(m: map<Key, seq<real>>, k: Key, p: Policy, now: real) {
    Room(Entries(m, k), p, now)
  }

  function Enforced(m: map<Key, seq<real>>, k: Key, p: Policy, now: real): map<Key, seq<real>> {
    m[k := LiveAfter(Entries(m, k), p, now)]
  }

  class AuthRateLimiter {
    var attempts: map<Key, seq<real>>

    constructor ()
      ensures attempts == map[]
    {
      attempts := map[];
    }

    /** Admits and records an attempt, or refuses it when the window is full. */
    method EnforceAuthRateLimit(k: Key, p: Policy, now: real) returns (admitted: bool)
      modifies this
      ensures admitted == old(Admits(attempts, k, p, now))
      ensures attempts == old(Enforced(attempts, k, p, now))
    {
      var entries := if k in attempts then attempts[k] else [];
      var cutoff := now - p.Window();
      while entries != [] && entries[0] <= cutoff
        invariant Prune(entries, cutoff) == Prune(Entries(attempts, k), cutoff)
        decreases |entries|
      {
        entries := entries[1..];
      }
      admitted := |entries| < p.Limit();
      if admitted {
        entries := entries + [now];
      }
      attempts := attempts[k := entries];
    }
  }

  // --- The history of admitted attempts ---------------------------------------------------------------

  datatype Call = Call(key: Key, now: real)

  /** The limiter and, for each key, all attempts it ever admitted. */
  datatype World = World(table: map<Key, seq<real>>, history: map<Key, seq<real>>)

  function After(calls: seq<Call>, policy: Key -> Policy): World {
    if calls == [] then World(map[], map[])
    else
      var w, c := After(calls[..|calls| - 1], policy), calls[|calls| - 1];
      var p := policy(c.key);
      World(Enforced(w.table, c.key, p, c.now),
            if Admits(w.table, c.key, p, c.now)
            then w.history[c.key := Entries(w.history, c.key) + [c.now]] else w.history)
  }

  ghost predicate ClockNeverGoesBack(calls: seq<Call>) {
    forall i, j | 0 <= i < j < |calls| :: calls[i].now <= calls[j].now
  }

  ghost predicate Sorted(s: seq<real>) {
    forall i, j | 0 <= i < j < |s| :: s[i] <= s[j]
  }

  /** The attempts after the cutoff. */
  function Newer(s: seq<real>, cutoff: real): seq<real> {
    if s == [] then []
    else Newer(s[..|s| - 1], cutoff) + (if s[|s| - 1] > cutoff then [s[|s| - 1]] else [])
  }

  lemma {:induction false} NewerAll(s: seq<real>, cutoff: real)
    requires forall i | 0 <= i < |s| :: s[i] > cutoff
    ensures Newer(s, cutoff) == s
  {
    if s != [] {
      NewerAll(s[..|s| - 1], cutoff);
      assert s == s[..|s| - 1] + [s[|s| - 1]];
    }
  }

  lemma {:induction false} NewerSkips(s: seq<real>, k: nat, cutoff: real)
    requires k <= |s| && forall i | 0 <= i < k :: s[i] <= cutoff
    ensures Newer(s, cutoff) == Newer(s[k..], cutoff)
  {
    if k < |s| {
      NewerSkips(s[..|s| - 1], k, cutoff);
      assert s[..|s| - 1][k..] == s[k..][..|s[k..]| - 1];
    } else if s != [] {
      NewerSkips(s[..|s| - 1], k - 1, cutoff);
      assert s[..|s| - 1][k - 1..] == [] == s[k..];
    }
  }

  /** Pruning drops the leading attempts that are not newer, and stops at the first that is. */
  lemma {:induction false} PruneDrops(s: seq<real>, cutoff: real) returns (d: nat)
    ensures d <= |s| && Prune(s, cutoff) == s[d..]
    ensures forall i | 0 <= i < d :: s[i] <= cutoff
    ensures d < |s| ==> s[d] > cutoff
    decreases |s|
  {
    d := 0;
    if s != [] && s[0] <= cutoff {
      var rest := PruneDrops(s[1..], cutoff);
      d := rest + 1;
      assert s[1..][rest..] == s[d..];
      assert forall i | 1 <= i < d :: s[i] == s[1..][i - 1];
    }
  }

  /** On a sorted deque, pruning the front keeps exactly the newer attempts. */
  lemma PruneIsNewer(s: seq<real>, cutoff: real)
    requires Sorted(s)
    ensures Prune(s, cutoff) == Newer(s, cutoff)
    ensures |Prune(s, cutoff)| <= |s|
    ensures Prune(s, cutoff) == s[|s| - |Prune(s, cutoff)|..]
    ensures forall i | 0 <= i < |s| - |Prune(s, cutoff)| :: s[i] <= cutoff
  {
    hide Prune, Newer;
    var d := PruneDrops(s, cutoff);
    NewerSkips(s, d, cutoff);
    assert forall i | 0 <= i < |s[d..]| :: s[d..][i] == s[d + i] && s[d] <= s[d + i];
    NewerAll(s[d..], cutoff);
  }

  /** The deque is the end of the history, and what it dropped is outside the last window. */
  ghost predicate Follows(all: seq<real>, live: seq<real>, p: Policy, last: real) {
    && Sorted(all) && (forall i | 0 <= i < |all| :: all[i] <= last)
    && |live| <= |all| && live == all[|all| - |live|..]
    && (forall i | 0 <= i < |all| - |live| :: all[i] <= last - p.Window())
    && Spaced(all, p)
  }

  ghost predicate Tracks(w: World, policy: Key -> Policy, k: Key, last: real) {
    Follows(Entries(w.history, k), Entries(w.table, k), policy(k), last)
  }

  /** Any attempt lies a window behind the limit-th attempt after it. */
  ghost predicate Spaced(all: seq<real>, p: Policy) {
    forall i | 0 <= i < |all| - p.Limit() :: all[i] <= all[i + p.Limit()] - p.Window()
  }

  lemma {:induction false} NewerLength(s: seq<real>, cutoff: real, n: nat)
    requires Sorted(s) && n < |s| && s[|s| - 1 - n] > cutoff
    ensures |Newer(s, cutoff)| > n
  {
    var k := |s| - 1;
    if n > 0 {
      NewerLength(s[..k], cutoff, n - 1);
    }
  }

  /** Admitting an attempt in a window that is not full keeps the spacing. */
  lemma AdmissionSpaces(all: seq<real>, p: Policy, now: real)
    requires Sorted(all) && Spaced(all, p) && |Newer(all, now - p.Window())| < p.Limit()
    ensures Spaced(all + [now], p)
  {
    var n, l := |all|, p.Limit();
    if n >= l && all[n - l] > now - p.Window() {
      NewerLength(all, now - p.Window(), l - 1);
    }
  }

  /** What a call sees: after pruning, exactly the admitted attempts inside the window. */
  lemma PruneSeesWindow(all: seq<real>, live: seq<real>, p: Policy, last: real, now: real)
    requires Follows(all, live, p, last) && last <= now
    ensures var cutoff := now - p.Window(); var kept := Prune(live, cutoff);
            kept == Newer(all, cutoff) && Follows(all, kept, p, now)
  {
    hide Newer, Prune;
    var cutoff, d := now - p.Window(), |all| - |live|;
    assert Sorted(live) by {
      assert forall i | 0 <= i < |live| :: live[i] == all[d + i];
    }
    NewerSkips(all, d, cutoff);
    PruneIsNewer(live, cutoff);
    DroppedAreOld(all, live, Prune(live, cutoff), cutoff);
  }

  lemma DroppedAreOld(all: seq<real>, live: seq<real>, kept: seq<real>, cutoff: real)
    requires |kept| <= |live| <= |all| && live == all[|all| - |live|..] && kept == live[|live| - |kept|..]
    requires forall i | 0 <= i < |all| - |live| :: all[i] <= cutoff
    requires forall i | 0 <= i < |live| - |kept| :: live[i] <= cutoff
    ensures kept == all[|all| - |kept|..]
    ensures forall i | 0 <= i < |all| - |kept| :: all[i] <= cutoff
  {
    SuffixOfSuffix(all, live, kept);
    var d := |all| - |live|;
    forall i | d <= i < |all| - |kept|
      ensures all[i] <= cutoff
    {
      assert all[i] == live[i - d];
    }
  }

  lemma SuffixOfSuffix(all: seq<real>, live: seq<real>, kept: seq<real>)
    requires |kept| <= |live| <= |all| && live == all[|all| - |live|..] && kept == live[|live| - |kept|..]
    ensures kept == all[|all| - |kept|..]
  {
  }

  /** A call keeps the deque following the history. */
  lemma CallFollows(all: seq<real>, live: seq<real>, p: Policy, last: real, now: real)
    requires Follows(all, live, p, last) && last <= now
    ensures Follows(if Room(live, p, now) then all + [now] else all, LiveAfter(live, p, now), p, now)
  {
    hide Newer, Prune, Follows;
    PruneSeesWindow(all, live, p, last, now);
    if Room(live, p, now) {
      AdmitFollows(all, Prune(live, now - p.Window()), p, now);
    }
  }

  lemma AdmitFollows(all: seq<real>, kept: seq<real>, p: Policy, now: real)
    requires Follows(all, kept, p, now) && kept == Newer(all, now - p.Window()) && |kept| < p.Limit()
    ensures Follows(all + [now], kept + [now], p, now)
  {
    hide Newer, Spaced;
    AdmissionSpaces(all, p, now);
    SortedAppend(all, now);
    SuffixAppend(all, kept, now);
    DroppedAppend(all, |all| - |kept|, now, now - p.Window());
  }

  lemma SortedAppend(all: seq<real>, now: real)
    requires Sorted(all) && forall i | 0 <= i < |all| :: all[i] <= now
    ensures Sorted(all + [now]) && forall i | 0 <= i < |all + [now]| :: (all + [now])[i] <= now
  {
  }

  lemma SuffixAppend(all: seq<real>, kept: seq<real>, now: real)
    requires |kept| <= |all| && kept == all[|all| - |kept|..]
    ensures kept + [now] == (all + [now])[|all + [now]| - |kept + [now]|..]
  {
  }

  lemma DroppedAppend(all: seq<real>, d: nat, now: real, cutoff: real)
    requires d <= |all| && forall i | 0 <= i < d :: all[i] <= cutoff
    ensures forall i | 0 <= i < d :: (all + [now])[i] <= cutoff
  {
  }

  lemma FollowsLater(all: seq<real>, live: seq<real>, p: Policy, last: real, now: real)
    requires Follows(all, live, p, last) && last <= now
    ensures Follows(all, live, p, now)
  {
    hide Spaced;
  }

  lemma StepTracks(w: World, policy: Key -> Policy, c: Call, k: Key, last: real)
    requires Tracks(w, policy, k, last) && last <= c.now
    ensures var p := policy(c.key);
            Tracks(World(Enforced(w.table, c.key, p, c.now),
                         if Admits(w.table, c.key, p, c.now)
                         then w.history[c.key := Entries(w.history, c.key) + [c.now]] else w.history), policy, k, c.now)
  {
    hide LiveAfter, Room, Follows;
    if k == c.key {
      CallFollows(Entries(w.history, k), Entries(w.table, k), policy(k), last, c.now);
    } else {
      FollowsLater(Entries(w.history, k), Entries(w.table, k), policy(k), last, c.now);
    }
  }

  lemma {:induction false} RunTracks(calls: seq<Call>, policy: Key -> Policy, k: Key)
    requires calls != [] && ClockNeverGoesBack(calls)
    ensures Tracks(After(calls, policy), policy, k, calls[|calls| - 1].now)
  {
    hide Tracks, Enforced, Admits;
    var front, c := calls[..|calls| - 1], calls[|calls| - 1];
    if front == [] {
      NothingTracked(policy, k, c.now);
      StepTracks(World(map[], map[]), policy, c, k, c.now);
    } else {
      RunTracks(front, policy, k);
      StepTracks(After(front, policy), policy, c, k, front[|front| - 1].now);
    }
  }

  lemma NothingTracked(policy: Key -> Policy, k: Key, now: real)
    ensures Tracks(World(map[], map[]), policy, k, now)
  {
  }

  /** The limiter decides as its history says: an attempt is refused exactly when the admitted attempts of
      the last window have reached the limit. */
  lemma DecidesByHistory(calls: seq<Call>, policy: Key -> Policy, k: Key, now: real)
    requires ClockNeverGoesBack(calls + [Call(k, now)])
    ensures var w, p := After(calls, policy), policy(k);
            var cutoff := now - Numbers.MaxI(p.windowSeconds, 1) as real;
            && Prune(Entries(w.table, k), cutoff) == Newer(Entries(w.history, k), cutoff)
            && (Admits(w.table, k, p, now) <==> |Newer(Entries(w.history, k), cutoff)| < Numbers.MaxI(p.limit, 1))
  {
    hide Newer, Prune, After, Follows;
    var ext := calls + [Call(k, now)];
    assert forall i | 0 <= i < |calls| :: ext[i] == calls[i];
    if calls == [] {
      EmptyStart(policy);
      NothingTracked(policy, k, now);
      PruneSeesWindow([], [], policy(k), now, now);
    } else {
      assert ext[|calls| - 1].now <= ext[|calls|].now;
      RunTracks(calls, policy, k);
      var w := After(calls, policy);
      PruneSeesWindow(Entries(w.history, k), Entries(w.table, k), policy(k), calls[|calls| - 1].now, now);
    }
  }

  lemma EmptyStart(policy: Key -> Policy)
    ensures After([], policy) == World(map[], map[])
  {
  }

  /** How many attempts fall in the interval (low, high]. */
  function CountIn(s: seq<real>, low: real, high: real): nat {
    if s == [] then 0
    else CountIn(s[..|s| - 1], low, high) + (if low < s[|s| - 1] <= high then 1 else 0)
  }

  lemma {:induction false} CountSkips(s: seq<real>, m: nat, low: real, high: real)
    requires m <= |s| && forall i | 0 <= i < m :: s[i] <= low
    ensures CountIn(s, low, high) <= |s| - m
  {
    if m < |s| {
      CountSkips(s[..|s| - 1], m, low, high);
    } else if s != [] {
      CountSkips(s[..|s| - 1], m - 1, low, high);
    }
  }

  lemma {:induction false} SpacedCount(s: seq<real>, p: Policy, high: real)
    requires Sorted(s) && Spaced(s, p)
    ensures CountIn(s, high - p.Window(), high) <= p.Limit()
  {
    if s != [] {
      var k := |s| - 1;
      if s[k] > high {
        assert Spaced(s[..k], p);
        SpacedCount(s[..k], p, high);
      } else {
        var m := if |s| > p.Limit() then |s| - p.Limit() else 0;
        if m > 0 {
          assert s[m - 1] <= s[m - 1 + p.Limit()] - p.Window();
        }
        CountSkips(s, m, high - p.Window(), high);
      }
    }
  }

  /** No interval of one window's length ever admits more than the limit. */
  lemma NoWindowExceedsLimit(calls: seq<Call>, policy: Key -> Policy, k: Key, high: real)
    requires ClockNeverGoesBack(calls)
    ensures var admitted, p := Entries(After(calls, policy).history, k), policy(k);
            CountIn(admitted, high - Numbers.MaxI(p.windowSeconds, 1) as real, high) <= Numbers.MaxI(p.limit, 1)
  {
    hide CountIn;
    if calls == [] {
      EmptyStart(policy);
      NothingTracked(policy, k, high);
    } else {
      RunTracks(calls, policy, k);
    }
    SpacedCount(Entries(After(calls, policy).history, k), policy(k), high);
  }

  function OnlyOf(calls: seq<Call>, k: Key): seq<Call> {
    if calls == [] then []
    else
      var c := calls[|calls| - 1];
      OnlyOf(calls[..|calls| - 1], k) + (if c.key == k then [c] else [])
  }

  /** One call changes its own key only, by what its deque held. */
  lemma CallChangesItsKey(calls: seq<Call>, policy: Key -> Policy, k: Key)
    requires calls != []
    ensures var w, w', c := After(calls[..|calls| - 1], policy), After(calls, policy), calls[|calls| - 1];
            var live, all := Entries(w.table, k), Entries(w.history, k);
            && Entries(w'.table, k) == (if c.key == k then LiveAfter(live, policy(k), c.now) else live)
            && Entries(w'.history, k) == (if c.key == k && Room(live, policy(k), c.now) then all + [c.now] else all)
  {
    hide LiveAfter, Room;
  }

  /** Keys do not interfere: a key fares as if its own attempts were the only ones. */
  lemma {:induction false} KeysDoNotInterfere(calls: seq<Call>, policy: Key -> Policy, k: Key)
    ensures Entries(After(calls, policy).table, k) == Entries(After(OnlyOf(calls, k), policy).table, k)
    ensures Entries(After(calls, policy).history, k) == Entries(After(OnlyOf(calls, k), policy).history, k)
  {
    hide LiveAfter, Room, After;
    if calls != [] {
      var front, c := calls[..|calls| - 1], calls[|calls| - 1];
      KeysDoNotInterfere(front, policy, k);
      CallChangesItsKey(calls, policy, k);
      if c.key == k {
        var own := OnlyOf(front, k);
        assert OnlyOf(calls, k) == own + [c] && (own + [c])[..|own|] == own;
        CallChangesItsKey(own + [c], policy, k);
      } else {
        assert OnlyOf(calls, k) == OnlyOf(front, k);
      }
    }
  }
}
