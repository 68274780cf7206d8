/** Idempotent rerun requests: any number of callers with the same key, failing and crashing as they
    like, dispatch at most one job. Each committed transaction is one step; callers interleave freely. */
module RerunDispatch {
  import opened Wrappers

  type Id = nat

  /** A request is identified by its user and its idempotency key. */
  datatype Key = Key(user: Id, token: Id)

  /** The job column of a request: NULL, the dispatching marker, or a job. */
  datatype Slot = Unclaimed | Dispatching | Bound(job: Id)

  datatype Request = Request(source: Id, drift: bool, experiment: Id, slot: Slot)

  datatype Job = Job(id: Id, experiment: Id, user: Id)

  /** `experiments` maps each experiment to the request that created it. */
  datatype Store = Store(requests: map<Key, Request>, experiments: map<Id, Key>, jobs: seq<Job>)

  datatype Ask = Ask(key: Key, source: Id, drift: bool)

  /** Where a caller is. Owner: Submitting, Binding or Releasing. Waiter: Polling (at the top of the loop),
      Looking (saw no bound job) or Recovering (found a persisted job). */
  datatype Phase =
    | Arriving
    | Submitting(experiment: Id)
    | Binding(experiment: Id, job: Id)
    | Releasing(experiment: Id)
    | Polling(experiment: Id, left: nat)
    | Looking(experiment: Id, left: nat)
    | Recovering(experiment: Id, job: Id)
    | Returned(experiment: Id, job: Id)
    | Conflict | Unavailable | InProgress | Crashed

  datatype Caller = Caller(ask: Ask, phase: Phase)

  datatype System = System(store: Store, callers: map<Id, Caller>)

  const POLLS: nat := 40

  // --- Transactions ----------------------------------------------------------------------------------

  /** The first transaction: insert the request, claim a released one, or find how it stands. */
  function Begin(s: Store, ask: Ask, newExperiment: Id): (Store, Phase) {
    if ask.key !in s.requests then
      (Store(s.requests[ask.key := Request(ask.source, ask.drift, newExperiment, Dispatching)],
             s.experiments[newExperiment := ask.key], s.jobs),
       Submitting(newExperiment))
    else
      var r := s.requests[ask.key];
      if r.source != ask.source || r.drift != ask.drift then (s, Conflict)
      else
        match r.slot
        case Dispatching => (s, Polling(r.experiment, POLLS))
        case Bound(job) => (s, Returned(r.experiment, job))
        case Unclaimed => (s.(requests := s.requests[ask.key := r.(slot := Dispatching)]), Submitting(r.experiment))
  }

  /** The request that an ask stands for is the one stored under its key. */
  ghost predicate Matches(s: Store, ask: Ask) {
    && ask.key in s.requests
    && s.requests[ask.key].source == ask.source && s.requests[ask.key].drift == ask.drift
  }

  /** UPDATE ... SET job_uuid = slot WHERE job_uuid = the dispatching marker. */
  function Settle(s: Store, k: Key, slot: Slot): Store {
    if k in s.requests && s.requests[k].slot.Dispatching?
    then s.(requests := s.requests[k := s.requests[k].(slot := slot)]) else s
  }

  /** The latest job of an experiment and user. */
  function LatestJob(jobs: seq<Job>, experiment: Id, user: Id): Option<Id> {
    if jobs == [] then None
    else
      var j := jobs[|jobs| - 1];
      if j.experiment == experiment && j.user == user then Some(j.id)
      else LatestJob(jobs[..|jobs| - 1], experiment, user)
  }

  /** The tables, updated in place by each committed transaction. */
  class RerunTables {
    var requests: map<Key, Request>
    var experiments: map<Id, Key>
    var jobs: seq<Job>

    function View(): Store
      reads this
    {
      Store(requests, experiments, jobs)
    }

    constructor ()
      ensures View() == Store(map[], map[], [])
    {
      requests, experiments, jobs := map[], map[], [];
    }

    method BeginRerun(ask: Ask, newExperiment: Id) returns (phase: Phase)
      requires newExperiment !in experiments
      modifies this
      ensures (View(), phase) == Begin(old(View()), ask, newExperiment)
      ensures phase.Conflict? <==> ask.key in old(requests) && !Matches(old(View()), ask)
    {
      if ask.key !in requests {
        experiments := experiments[newExperiment := ask.key];
        requests := requests[ask.key := Request(ask.source, ask.drift, newExperiment, Dispatching)];
        return Submitting(newExperiment);
      }
      var existing := requests[ask.key];
      if existing.source != ask.source || existing.drift != ask.drift {
        return Conflict;
      }
      if existing.slot == Dispatching {
        return Polling(existing.experiment, POLLS);
      } else if existing.slot != Unclaimed {
        return Returned(existing.experiment, existing.slot.job);
      }
      requests := requests[ask.key := existing.(slot := Dispatching)];
      phase := Submitting(existing.experiment);
    }

    /** Binds a job, or releases the request, if it is still marked as dispatching. */
    method SettleDispatch(k: Key, slot: Slot)
      modifies this`requests
      ensures View() == Settle(old(View()), k, slot)
    {
      if k in requests && requests[k].slot == Dispatching {
        requests := requests[k := requests[k].(slot := slot)];
      }
    }

    /** SELECT ... ORDER BY id DESC LIMIT 1. */
    method FindJob(experiment: Id, user: Id) returns (job: Option<Id>)
      ensures job == LatestJob(jobs, experiment, user)
      ensures job.Some? ==> exists i | 0 <= i < |jobs| :: jobs[i] == Job(job.value, experiment, user)
                              && forall j | i < j < |jobs| :: jobs[j].experiment != experiment || jobs[j].user != user
      ensures job.None? ==> forall j | j in jobs :: j.experiment != experiment || j.user != user
    {
      var i := |jobs|;
      assert jobs[..i] == jobs;
      while i > 0
        invariant 0 <= i <= |jobs|
        invariant LatestJob(jobs, experiment, user) == LatestJob(jobs[..i], experiment, user)
        invariant forall j | i <= j < |jobs| :: jobs[j].experiment != experiment || jobs[j].user != user
      {
        i := i - 1;
        assert jobs[..i + 1][..i] == jobs[..i];
        if jobs[i].experiment == experiment && jobs[i].user == user {
          return Some(jobs[i].id);
        }
      }
      job := None;
    }
  }

  // --- The protocol ------------------------------------------------------------------------------------

  /** What can happen next: a caller arrives, takes its next step, or crashes. The broker either persists
      one job with a new id or fails, and reading the jobs may fail. */
  datatype Event =
    | Arrive(c: Id, ask: Ask)
    | Open(c: Id, newExperiment: Id)
    | Submit(c: Id, newJob: Id)
    | SubmitFails(c: Id)
    | Finish(c: Id)
    | ReadRequest(c: Id)
    | ReadJobs(c: Id, readable: bool)
    | Crash(c: Id)

  ghost predicate Enabled(s: System, e: Event) {
    match e
    case Arrive(c, _) => c !in s.callers
    case Open(c, x) => c in s.callers && s.callers[c].phase.Arriving? && x !in s.store.experiments
    case Submit(c, j) => c in s.callers && s.callers[c].phase.Submitting?
      && forall i | 0 <= i < |s.store.jobs| :: s.store.jobs[i].id != j
    case SubmitFails(c) => c in s.callers && s.callers[c].phase.Submitting?
    case Finish(c) => c in s.callers
      && (s.callers[c].phase.Binding? || s.callers[c].phase.Releasing? || s.callers[c].phase.Recovering?)
    case ReadRequest(c) => c in s.callers && s.callers[c].phase.Polling?
    case ReadJobs(c, _) => c in s.callers && s.callers[c].phase.Looking?
    case Crash(c) => c in s.callers && !s.callers[c].phase.Returned?
  }

  function Move(s: System, c: Id, store: Store, phase: Phase): System
    requires c in s.callers
  {
    System(store, s.callers[c := s.callers[c].(phase := phase)])
  }

  function Next(s: System, e: Event): System
    requires Enabled(s, e)
  {
    match e
    case Arrive(c, ask) => s.(callers := s.callers[c := Caller(ask, Arriving)])
    case Open(c, x) =>
      var (store, phase) := Begin(s.store, s.callers[c].ask, x);
      Move(s, c, store, phase)
    case Submit(c, j) =>
      var exp := s.callers[c].phase.experiment;
      Move(s, c, s.store.(jobs := s.store.jobs + [Job(j, exp, s.callers[c].ask.key.user)]), Binding(exp, j))
    case SubmitFails(c) => Move(s, c, s.store, Releasing(s.callers[c].phase.experiment))
    case Finish(c) =>
      var k := s.callers[c].ask.key;
      (match s.callers[c].phase
       case Releasing(_) => Move(s, c, Settle(s.store, k, Unclaimed), Unavailable)
       case phase => Move(s, c, Settle(s.store, k, Bound(phase.job)), Returned(phase.experiment, phase.job)))
    case ReadRequest(c) =>
      var Polling(exp, left) := s.callers[c].phase;
      var k := s.callers[c].ask.key;
      if left == 0 then Move(s, c, s.store, InProgress)
      else if k in s.store.requests && s.store.requests[k].slot.Bound?
      then Move(s, c, s.store, Returned(exp, s.store.requests[k].slot.job))
      else Move(s, c, s.store, Looking(exp, left))
    case ReadJobs(c, readable) =>
      var Looking(exp, left) := s.callers[c].phase;
      var found := if readable then LatestJob(s.store.jobs, exp, s.callers[c].ask.key.user) else None;
      if found.Some? then Move(s, c, s.store, Recovering(exp, found.value))
      else Move(s, c, s.store, Polling(exp, if left > 0 then left - 1 else 0))
    case Crash(c) => Move(s, c, s.store, Crashed)
  }

  const IDLE := System(Store(map[], map[], []), map[])

  /** A run from s, one enabled event after another, ending in end. */
  ghost predicate Run(s: System, es: seq<Event>, end: System)
    decreases |es|
  {
    if es == [] then s == end
    else Enabled(s, es[0]) && Run(Next(s, es[0]), es[1..], end)
  }

  // --- The invariant -----------------------------------------------------------------------------------

  ghost predicate HasJob(s: Store, experiment: Id) {
    exists i | 0 <= i < |s.jobs| :: s.jobs[i].experiment == experiment
  }

  predicate Owns(p: Phase) {
    p.Submitting? || p.Binding? || p.Releasing?
  }

  /** Requests and experiments correspond one to one. */
  ghost predicate OneExperimentPerRequest(s: Store) {
    && (forall k | k in s.requests ::
          s.requests[k].experiment in s.experiments && s.experiments[s.requests[k].experiment] == k)
    && (forall x | x in s.experiments :: s.experiments[x] in s.requests && s.requests[s.experiments[x]].experiment == x)
  }

  /** No experiment has two jobs; a job belongs to the user of a claimed request, and a bound job exists. */
  ghost predicate OneJobPerRequest(s: Store) {
    && (forall i, j | 0 <= i < j < |s.jobs| :: s.jobs[i].experiment != s.jobs[j].experiment)
    && (forall i | 0 <= i < |s.jobs| :: JobFits(s, s.jobs[i]))
    && (forall k | k in s.requests && s.requests[k].slot.Bound? ::
          Job(s.requests[k].slot.job, s.requests[k].experiment, k.user) in s.jobs)
  }

  ghost predicate JobFits(s: Store, j: Job) {
    && j.experiment in s.experiments && s.experiments[j.experiment] in s.requests
    && j.user == s.experiments[j.experiment].user
    && !s.requests[s.experiments[j.experiment]].slot.Unclaimed?
  }

  /** A caller past its first transaction repeats the stored request, unless it was turned away. */
  ghost predicate CallerFits(s: Store, c: Caller) {
    var k, p := c.ask.key, c.phase;
    match p
    case Arriving => true
    case Crashed => true
    case Conflict => k in s.requests && !Matches(s, c.ask)
    case Unavailable => Matches(s, c.ask)
    case InProgress => Matches(s, c.ask)
    case Submitting(x) => Matches(s, c.ask) && s.requests[k].experiment == x
      && s.requests[k].slot.Dispatching? && !HasJob(s, x)
    case Releasing(x) => Matches(s, c.ask) && s.requests[k].experiment == x
      && s.requests[k].slot.Dispatching? && !HasJob(s, x)
    case Binding(x, j) => Matches(s, c.ask) && s.requests[k].experiment == x && Job(j, x, k.user) in s.jobs
    case Recovering(x, j) => Matches(s, c.ask) && s.requests[k].experiment == x && Job(j, x, k.user) in s.jobs
    case Returned(x, j) => Matches(s, c.ask) && s.requests[k].experiment == x && s.requests[k].slot == Bound(j)
      && Job(j, x, k.user) in s.jobs
    case Polling(x, _) => Matches(s, c.ask) && s.requests[k].experiment == x
    case Looking(x, _) => Matches(s, c.ask) && s.requests[k].experiment == x
  }

  ghost predicate OneOwner(s: System) {
    forall a, b | a in s.callers && b in s.callers && a != b && Owns(s.callers[a].phase) && Owns(s.callers[b].phase) ::
      s.callers[a].ask.key != s.callers[b].ask.key
  }

  ghost predicate Inv(s: System) {
    && OneExperimentPerRequest(s.store) && OneJobPerRequest(s.store)
    && (forall c | c in s.callers :: CallerFits(s.store, s.callers[c]))
    && OneOwner(s)
  }

  lemma {:induction false} LatestJobIsStored(jobs: seq<Job>, experiment: Id, user: Id)
    ensures var j := LatestJob(jobs, experiment, user); j.Some? ==> Job(j.value, experiment, user) in jobs
  {
    if jobs != [] {
      LatestJobIsStored(jobs[..|jobs| - 1], experiment, user);
    }
  }

  /** While an owner exists its request is not released; without one, nobody is submitting or releasing. */
  lemma OwnerHoldsClaim(s: System, c: Id)
    requires Inv(s) && c in s.callers && Owns(s.callers[c].phase)
    ensures s.callers[c].ask.key in s.store.requests && !s.store.requests[s.callers[c].ask.key].slot.Unclaimed?
  {
    assert CallerFits(s.store, s.callers[c]);
  }

  /** A new request with a new experiment, which no caller or job refers to. */
  lemma InsertKeepsTables(s: Store, ask: Ask, x: Id)
    requires OneExperimentPerRequest(s) && OneJobPerRequest(s) && ask.key !in s.requests && x !in s.experiments
    ensures var s' := Begin(s, ask, x).0; OneExperimentPerRequest(s') && OneJobPerRequest(s')
    ensures var (s', phase) := Begin(s, ask, x); CallerFits(s', Caller(ask, phase))
  {
    var s' := Begin(s, ask, x).0;
    assert forall i | 0 <= i < |s.jobs| :: JobFits(s, s.jobs[i]) && JobFits(s', s.jobs[i]);
  }

  /** Claiming a released request, which has no job. */
  lemma ClaimKeepsTables(s: Store, ask: Ask, x: Id)
    requires OneExperimentPerRequest(s) && OneJobPerRequest(s) && Matches(s, ask)
    requires s.requests[ask.key].slot.Unclaimed?
    ensures var s' := Begin(s, ask, x).0; OneExperimentPerRequest(s') && OneJobPerRequest(s')
    ensures var (s', phase) := Begin(s, ask, x); CallerFits(s', Caller(ask, phase))
  {
    var s' := Begin(s, ask, x).0;
    assert forall i | 0 <= i < |s.jobs| :: JobFits(s, s.jobs[i]) && JobFits(s', s.jobs[i]);
  }

  /** Other callers fit as before when a request is inserted or claimed. */
  lemma OpeningKeepsCaller(s: Store, ask: Ask, x: Id, other: Caller)
    requires CallerFits(s, other)
    ensures CallerFits(Begin(s, ask, x).0, other)
  {
    assert Begin(s, ask, x).0.jobs == s.jobs;
  }

  /** Inserting a request, or claiming a released one, makes its only owner. */
  lemma OwnKeepsInv(s: System, c: Id, x: Id)
    requires Inv(s) && Enabled(s, Open(c, x))
    requires var ask := s.callers[c].ask;
             ask.key !in s.store.requests
             || (Matches(s.store, ask) && s.store.requests[ask.key].slot.Unclaimed?)
    ensures Inv(Next(s, Open(c, x)))
  {
    hide OneOwner, OneExperimentPerRequest, OneJobPerRequest, CallerFits, Begin;
    var s', ask := Next(s, Open(c, x)), s.callers[c].ask;
    if ask.key !in s.store.requests {
      InsertKeepsTables(s.store, ask, x);
    } else {
      ClaimKeepsTables(s.store, ask, x);
    }
    forall a | a in s.callers && a != c
      ensures CallerFits(s'.store, s.callers[a])
    {
      OpeningKeepsCaller(s.store, ask, x, s.callers[a]);
    }
    OwnersElsewhere(s, c, s');
  }

  /** If nobody holds the request that c starts to own, owners stay unique. */
  lemma OwnersElsewhere(s: System, c: Id, s': System)
    requires Inv(s) && c in s.callers
    requires s.callers[c].ask.key in s.store.requests ==> s.store.requests[s.callers[c].ask.key].slot.Unclaimed?
    requires s'.callers.Keys == s.callers.Keys && s'.callers[c].ask == s.callers[c].ask
    requires forall a | a in s.callers && a != c :: s'.callers[a] == s.callers[a]
    ensures OneOwner(s')
  {
    forall a | a in s.callers && a != c && Owns(s.callers[a].phase)
      ensures s.callers[a].ask.key != s.callers[c].ask.key
    {
      OwnerHoldsClaim(s, a);
    }
  }

  /** Any other way to open a request leaves the tables alone. */
  lemma OpenStands(s: Store, ask: Ask, x: Id)
    requires OneExperimentPerRequest(s) && OneJobPerRequest(s) && ask.key in s.requests
    requires Matches(s, ask) ==> !s.requests[ask.key].slot.Unclaimed?
    ensures var (s', phase) := Begin(s, ask, x); s' == s && !Owns(phase) && CallerFits(s, Caller(ask, phase))
  {
  }

  lemma OpenKeepsInv(s: System, c: Id, x: Id)
    requires Inv(s) && Enabled(s, Open(c, x))
    ensures Inv(Next(s, Open(c, x)))
  {
    hide OneOwner, OneExperimentPerRequest, OneJobPerRequest, CallerFits, Begin;
    var ask := s.callers[c].ask;
    if ask.key !in s.store.requests || (Matches(s.store, ask) && s.store.requests[ask.key].slot.Unclaimed?) {
      OwnKeepsInv(s, c, x);
    } else {
      OpenStands(s.store, ask, x);
      MoveKeepsInv(s, c, Caller(ask, Begin(s.store, ask, x).1));
    }
  }

  lemma SubmitKeepsInv(s: System, c: Id, j: Id)
    requires Inv(s) && Enabled(s, Submit(c, j))
    ensures Inv(Next(s, Submit(c, j)))
  {
    var s' := Next(s, Submit(c, j));
    var me := s.callers[c];
    assert CallerFits(s.store, me);
    assert forall i | 0 <= i < |s.store.jobs| ::
             s'.store.jobs[i] == s.store.jobs[i] && JobFits(s.store, s.store.jobs[i]);
    forall a | a in s.callers && a != c
      ensures CallerFits(s'.store, s.callers[a])
    {
      assert CallerFits(s.store, s.callers[a]);
      if s.callers[a].phase.Submitting? || s.callers[a].phase.Releasing? {
        assert s.callers[a].ask.key != me.ask.key;
        assert s.callers[a].phase.experiment != me.phase.experiment;
      }
    }
    assert s'.store.jobs[|s.store.jobs|] == Job(j, me.phase.experiment, me.ask.key.user);
    assert CallerFits(s'.store, s'.callers[c]);
  }

  lemma SettleKeepsTables(s: Store, k: Key, slot: Slot)
    requires OneExperimentPerRequest(s) && OneJobPerRequest(s) && k in s.requests && !slot.Dispatching?
    requires slot.Unclaimed? ==> !HasJob(s, s.requests[k].experiment)
    requires slot.Bound? ==> Job(slot.job, s.requests[k].experiment, k.user) in s.jobs
    ensures OneExperimentPerRequest(Settle(s, k, slot)) && OneJobPerRequest(Settle(s, k, slot))
  {
    var s' := Settle(s, k, slot);
    forall i | 0 <= i < |s.jobs|
      ensures JobFits(s', s.jobs[i])
    {
      assert JobFits(s, s.jobs[i]);
    }
  }

  lemma SettleKeepsCaller(s: Store, k: Key, slot: Slot, c: Caller)
    requires CallerFits(s, c)
    requires c.phase.Submitting? || c.phase.Releasing? ==> c.ask.key != k
    ensures CallerFits(Settle(s, k, slot), c)
  {
    assert Settle(s, k, slot).jobs == s.jobs;
  }

  /** Binding or releasing keeps everything that other callers rely on. */
  lemma SettleKeepsInv(s: System, c: Id)
    requires Inv(s) && Enabled(s, Finish(c))
    ensures Inv(Next(s, Finish(c)))
  {
    hide CallerFits, OneExperimentPerRequest, OneJobPerRequest, Settle;
    var me := s.callers[c];
    var slot := if me.phase.Releasing? then Unclaimed else Bound(me.phase.job);
    FinisherFits(s.store, me, slot);
    SettleKeepsTables(s.store, me.ask.key, slot);
    forall a | a in s.callers && a != c
      ensures CallerFits(Settle(s.store, me.ask.key, slot), s.callers[a])
    {
      SettleSparesOthers(s, c, a);
      SettleKeepsCaller(s.store, me.ask.key, slot, s.callers[a]);
    }
    FinisherStillFits(s.store, me, slot);
  }

  lemma FinisherFits(s: Store, me: Caller, slot: Slot)
    requires CallerFits(s, me) && (me.phase.Binding? || me.phase.Releasing? || me.phase.Recovering?)
    requires slot == if me.phase.Releasing? then Unclaimed else Bound(me.phase.job)
    ensures me.ask.key in s.requests
    ensures slot.Unclaimed? ==> !HasJob(s, s.requests[me.ask.key].experiment)
    ensures slot.Bound? ==> Job(slot.job, s.requests[me.ask.key].experiment, me.ask.key.user) in s.jobs
  {
  }

  lemma FinisherStillFits(s: Store, me: Caller, slot: Slot)
    requires CallerFits(s, me) && (me.phase.Binding? || me.phase.Releasing? || me.phase.Recovering?)
    requires OneExperimentPerRequest(s) && OneJobPerRequest(s)
    requires !me.phase.Releasing? ==> slot == Bound(me.phase.job)
    ensures CallerFits(Settle(s, me.ask.key, slot), me.(phase := Unavailable))
    ensures !me.phase.Releasing? ==>
              CallerFits(Settle(s, me.ask.key, slot), me.(phase := Returned(me.phase.experiment, me.phase.job)))
  {
    if !me.phase.Releasing? {
      OnlyJobIsBound(s, me.ask.key, me.phase.job);
    }
  }

  /** Once a job is persisted its request is being dispatched or bound to that very job. */
  lemma OnlyJobIsBound(s: Store, k: Key, job: Id)
    requires OneExperimentPerRequest(s) && OneJobPerRequest(s) && k in s.requests
    requires Job(job, s.requests[k].experiment, k.user) in s.jobs
    ensures s.requests[k].slot.Dispatching? || s.requests[k].slot == Bound(job)
  {
    var i :| 0 <= i < |s.jobs| && s.jobs[i] == Job(job, s.requests[k].experiment, k.user);
    assert JobFits(s, s.jobs[i]);
    if s.requests[k].slot.Bound? {
      var j :| 0 <= j < |s.jobs| && s.jobs[j] == Job(s.requests[k].slot.job, s.requests[k].experiment, k.user);
      assert i == j;
    }
  }

  lemma StoredMeansHasJob(s: Store, job: Job)
    requires job in s.jobs
    ensures HasJob(s, job.experiment)
  {
    var i :| 0 <= i < |s.jobs| && s.jobs[i] == job;
  }

  /** Nobody else can be submitting or releasing for the request that c settles. */
  lemma SettleSparesOthers(s: System, c: Id, a: Id)
    requires Inv(s) && Enabled(s, Finish(c)) && a in s.callers && a != c
    ensures s.callers[a].phase.Submitting? || s.callers[a].phase.Releasing? ==>
              s.callers[a].ask.key != s.callers[c].ask.key
  {
    var me, other := s.callers[c], s.callers[a];
    assert CallerFits(s.store, me) && CallerFits(s.store, other);
    if me.phase.Recovering? {
      StoredMeansHasJob(s.store, Job(me.phase.job, me.phase.experiment, me.ask.key.user));
    }
  }

  /** A caller may move on its own, as long as it fits where it goes and does not become an owner. */
  lemma MoveKeepsInv(s: System, c: Id, caller: Caller)
    requires Inv(s) && CallerFits(s.store, caller)
    requires Owns(caller.phase) ==> c in s.callers && caller.ask == s.callers[c].ask && Owns(s.callers[c].phase)
    ensures Inv(s.(callers := s.callers[c := caller]))
  {
    hide OneExperimentPerRequest, OneJobPerRequest, CallerFits;
  }

  lemma QuietMoveFits(s: System, e: Event)
    requires Inv(s) && Enabled(s, e)
    requires e.SubmitFails? || e.ReadRequest? || e.ReadJobs? || e.Crash?
    ensures e.c in Next(s, e).callers && CallerFits(s.store, Next(s, e).callers[e.c])
  {
    hide OneOwner, OneExperimentPerRequest, HasJob, JobFits;
    assert CallerFits(s.store, s.callers[e.c]);
    if e.ReadJobs? {
      LatestJobIsStored(s.store.jobs, s.callers[e.c].phase.experiment, s.callers[e.c].ask.key.user);
    }
  }

  lemma QuietStepKeepsInv(s: System, e: Event)
    requires Inv(s) && Enabled(s, e)
    requires e.Arrive? || e.SubmitFails? || e.ReadRequest? || e.ReadJobs? || e.Crash?
    ensures Inv(Next(s, e))
  {
    hide Inv, LatestJob;
    if e.Arrive? {
      MoveKeepsInv(s, e.c, Caller(e.ask, Arriving));
    } else {
      QuietMoveFits(s, e);
      MoveKeepsInv(s, e.c, Next(s, e).callers[e.c]);
    }
  }

  lemma StepKeepsInv(s: System, e: Event)
    requires Inv(s) && Enabled(s, e)
    ensures Inv(Next(s, e))
  {
    hide Inv, Next;
    match e
    case Open(c, x) => OpenKeepsInv(s, c, x);
    case Submit(c, j) => SubmitKeepsInv(s, c, j);
    case Finish(c) => SettleKeepsInv(s, c);
    case _ => QuietStepKeepsInv(s, e);
  }

  lemma {:induction false} RunKeepsInv(s: System, es: seq<Event>, end: System)
    requires Inv(s) && Run(s, es, end)
    ensures Inv(end)
    decreases |es|
  {
    hide Inv, Next, Enabled;
    if es != [] {
      StepKeepsInv(s, es[0]);
      RunKeepsInv(Next(s, es[0]), es[1..], end);
    }
  }

  // --- Theorems ------------------------------------------------------------------------------------------

  /** Exactly once: in every run there is at most one owner of a request at a time, one experiment per
      request and at most one job per experiment, and all callers that get an answer for a request get
      the same experiment and the same job. */
  lemma ExactlyOnce(es: seq<Event>, s: System)
    requires Run(IDLE, es, s)
    ensures OneOwner(s) && OneExperimentPerRequest(s.store)
    ensures forall i, j | 0 <= i < j < |s.store.jobs| :: s.store.jobs[i].experiment != s.store.jobs[j].experiment
    ensures forall a, b | a in s.callers && b in s.callers && s.callers[a].ask.key == s.callers[b].ask.key
                          && s.callers[a].phase.Returned? && s.callers[b].phase.Returned? ::
              s.callers[a].phase == s.callers[b].phase
  {
    hide Run;
    assert Inv(IDLE);
    RunKeepsInv(IDLE, es, s);
    forall a, b | a in s.callers && b in s.callers && s.callers[a].ask.key == s.callers[b].ask.key
                  && s.callers[a].phase.Returned? && s.callers[b].phase.Returned?
      ensures s.callers[a].phase == s.callers[b].phase
    {
      assert CallerFits(s.store, s.callers[a]) && CallerFits(s.store, s.callers[b]);
      SameExperimentSameJob(s.store, s.callers[a].phase, s.callers[b].phase, s.callers[a].ask.key.user);
    }
  }

  lemma SameExperimentSameJob(s: Store, p: Phase, q: Phase, user: Id)
    requires OneJobPerRequest(s) && p.Returned? && q.Returned? && p.experiment == q.experiment
    requires Job(p.job, p.experiment, user) in s.jobs && Job(q.job, q.experiment, user) in s.jobs
    ensures p == q
  {
    var i :| 0 <= i < |s.jobs| && s.jobs[i] == Job(p.job, p.experiment, user);
    var j :| 0 <= j < |s.jobs| && s.jobs[j] == Job(q.job, q.experiment, user);
    assert i == j;
  }

  /** What an answer or a bound request refers to is settled for good. */
  ghost predicate Settled(s: System, s': System) {
    && (forall k | k in s.store.requests ::
          && k in s'.store.requests
          && s'.store.requests[k].experiment == s.store.requests[k].experiment
          && s'.store.requests[k].source == s.store.requests[k].source
          && s'.store.requests[k].drift == s.store.requests[k].drift
          && (s.store.requests[k].slot.Bound? ==> s'.store.requests[k].slot == s.store.requests[k].slot))
    && s.store.jobs <= s'.store.jobs
    && (forall c | c in s.callers && s.callers[c].phase.Returned? :: c in s'.callers && s'.callers[c] == s.callers[c])
  }

  /** A bound job id, an answer given, a persisted job and the experiment of a request never change. */
  lemma {:induction false} BoundForever(s: System, es: seq<Event>, end: System)
    requires Run(s, es, end)
    ensures Settled(s, end)
    decreases |es|
  {
    if es != [] {
      BoundForever(Next(s, es[0]), es[1..], end);
      StepSettles(s, es[0]);
      SettledTransitive(s, Next(s, es[0]), end);
    }
  }

  lemma StepSettles(s: System, e: Event)
    requires Enabled(s, e)
    ensures Settled(s, Next(s, e))
  {
  }

  lemma SettledTransitive(a: System, b: System, c: System)
    requires Settled(a, b) && Settled(b, c)
    ensures Settled(a, c)
  {
  }

  /** An answer is backed by a persisted job, to which the request is bound. */
  lemma AnswersAreBacked(es: seq<Event>, s: System, c: Id)
    requires Run(IDLE, es, s) && c in s.callers && s.callers[c].phase.Returned?
    ensures var k, p := s.callers[c].ask.key, s.callers[c].phase;
            && Job(p.job, p.experiment, k.user) in s.store.jobs
            && k in s.store.requests && s.store.requests[k].experiment == p.experiment
            && s.store.requests[k].slot == Bound(p.job)
  {
    hide Run;
    assert Inv(IDLE);
    RunKeepsInv(IDLE, es, s);
    assert CallerFits(s.store, s.callers[c]);
  }

  /** In every run, a caller that opened its request and has not crashed was turned away if and only if its key is
      stored with another source or another drift setting. Whoever is not turned away repeats the stored request. */
  lemma ConflictExactly(es: seq<Event>, s: System, c: Id)
    requires Run(IDLE, es, s) && c in s.callers && !s.callers[c].phase.Arriving? && !s.callers[c].phase.Crashed?
    ensures var ask := s.callers[c].ask;
            && ask.key in s.store.requests
            && var r := s.store.requests[ask.key];
            (s.callers[c].phase.Conflict? <==> r.source != ask.source || r.drift != ask.drift)
  {
    hide Run;
    assert Inv(IDLE);
    RunKeepsInv(IDLE, es, s);
    assert CallerFits(s.store, s.callers[c]);
  }

  // --- How long a caller waits ---------------------------------------------------------------------------

  /** How often c looked for a persisted job. */
  function Looks(es: seq<Event>, c: Id): nat {
    if es == [] then 0
    else Looks(es[..|es| - 1], c) + (if es[|es| - 1].ReadJobs? && es[|es| - 1].c == c then 1 else 0)
  }

  ghost predicate LooksCounted(s: System, past: seq<Event>, c: Id) {
    if c !in s.callers then Looks(past, c) == 0
    else
      match s.callers[c].phase
      case Arriving => Looks(past, c) == 0
      case Polling(_, left) => Looks(past, c) + left == POLLS
      case Looking(_, left) => left > 0 && Looks(past, c) + left == POLLS
      case InProgress => Looks(past, c) == POLLS
      case _ => true
  }

  lemma StepCountsLooks(s: System, past: seq<Event>, e: Event, c: Id)
    requires Enabled(s, e) && LooksCounted(s, past, c)
    ensures LooksCounted(Next(s, e), past + [e], c)
  {
    hide LatestJob, Looks;
    LooksAppend(past, e, c);
  }

  lemma LooksAppend(past: seq<Event>, e: Event, c: Id)
    ensures Looks(past + [e], c) == Looks(past, c) + (if e.ReadJobs? && e.c == c then 1 else 0)
  {
    assert (past + [e])[..|past|] == past;
  }

  lemma {:induction false} RunCountsLooks(s: System, past: seq<Event>, es: seq<Event>, end: System, c: Id)
    requires Run(s, es, end) && LooksCounted(s, past, c)
    ensures LooksCounted(end, past + es, c)
    decreases |es|
  {
    hide Next, Enabled, LooksCounted;
    if es == [] {
      assert past + es == past;
    } else {
      StepCountsLooks(s, past, es[0], c);
      RunCountsLooks(Next(s, es[0]), past + [es[0]], es[1..], end, c);
      assert past + [es[0]] + es[1..] == past + es;
    }
  }

  /** A caller is told that its request is in progress only after it has looked for the job 40 times. */
  lemma GivesUpAfterLooking(es: seq<Event>, s: System, c: Id)
    requires Run(IDLE, es, s) && c in s.callers && s.callers[c].phase.InProgress?
    ensures Looks(es, c) == 40
  {
    hide Run;
    assert [] + es == es;
    RunCountsLooks(IDLE, [], es, s, c);
  }

  // --- When the protocol cannot answer -------------------------------------------------------------------

  /** The request is marked as dispatching, but no owner is alive and no job was persisted. */
  ghost predicate Wedged(s: System, k: Key) {
    && k in s.store.requests && s.store.requests[k].slot.Dispatching?
    && !HasJob(s.store, s.store.requests[k].experiment)
    && forall c | c in s.callers && s.callers[c].ask.key == k :: !Owns(s.callers[c].phase)
  }

  /** The crash of an owner wedges its request exactly when the broker has not persisted its job: before the
      submission, or after a failed one and before the release. */
  lemma OwnerCrashWedges(s: System, c: Id)
    requires Inv(s) && c in s.callers && Owns(s.callers[c].phase)
    ensures Wedged(Next(s, Crash(c)), s.callers[c].ask.key) <==>
              s.callers[c].phase.Submitting? || s.callers[c].phase.Releasing?
  {
    assert CallerFits(s.store, s.callers[c]);
    if s.callers[c].phase.Binding? {
      StoredMeansHasJob(s.store, Job(s.callers[c].phase.job, s.callers[c].phase.experiment, s.callers[c].ask.key.user));
    }
  }

  /** Nothing else wedges a request: among all steps, only the crash of its owner before a job is persisted. */
  lemma OnlyCrashesWedge(s: System, e: Event, k: Key)
    requires Inv(s) && Enabled(s, e) && !Wedged(s, k)
    ensures Wedged(Next(s, e), k) <==>
              && e.Crash? && s.callers[e.c].ask.key == k
              && (s.callers[e.c].phase.Submitting? || s.callers[e.c].phase.Releasing?)
  {
    hide OneOwner, OneJobPerRequest, OneExperimentPerRequest, LatestJob;
    var s' := Next(s, e);
    if e.Crash? && s.callers[e.c].ask.key == k && Owns(s.callers[e.c].phase) {
      OwnerCrashWedges(s, e.c);
    } else if Wedged(s', k) {
      OwnersStay(s, e, k);
    }
  }

  /** Unless its owner crashes, a wedged request was wedged before. */
  lemma OwnersStay(s: System, e: Event, k: Key)
    requires Inv(s) && Enabled(s, e) && Wedged(Next(s, e), k)
    requires !(e.Crash? && s.callers[e.c].ask.key == k && Owns(s.callers[e.c].phase))
    ensures Wedged(s, k)
  {
    hide OneOwner, OneJobPerRequest, OneExperimentPerRequest, LatestJob;
    var s' := Next(s, e);
    if e.c in s.callers {
      assert CallerFits(s.store, s.callers[e.c]);
    }
    assert forall i | 0 <= i < |s.store.jobs| :: s'.store.jobs[i] == s.store.jobs[i];
    if e.c in s.callers && s.callers[e.c].ask.key == k {
      assert !Owns(s'.callers[e.c].phase);
    }
    assert k in s.store.requests && s.store.requests[k].experiment == s'.store.requests[k].experiment;
    assert s.store.requests[k].slot.Dispatching?;
    forall c | c in s.callers && s.callers[c].ask.key == k
      ensures !Owns(s.callers[c].phase)
    {
      assert c in s'.callers && s'.callers[c].ask == s.callers[c].ask;
    }
  }

  /** A waiter that has not given up is answered as soon as it reads a bound request. */
  lemma BoundIsSeen(s: System, c: Id)
    requires Inv(s) && c in s.callers && s.callers[c].phase.Polling? && s.callers[c].phase.left > 0
    requires s.store.requests[s.callers[c].ask.key].slot.Bound?
    ensures var r := s.store.requests[s.callers[c].ask.key];
            Next(s, ReadRequest(c)).callers[c].phase == Returned(r.experiment, r.slot.job)
  {
    assert CallerFits(s.store, s.callers[c]);
  }

  /** Both ways to get there are runs: one caller arrives, opens its request, and crashes at once or after its
      submission failed. */
  lemma WedgedIsReachable(c: Id, ask: Ask, x: Id, submissionFailed: bool) returns (es: seq<Event>, s: System)
    ensures Run(IDLE, es, s) && Wedged(s, ask.key)
  {
    es, s := [], IDLE;
    RunMore(IDLE, es, s, Arrive(c, ask));
    es, s := es + [Arrive(c, ask)], Next(s, Arrive(c, ask));
    RunMore(IDLE, es, s, Open(c, x));
    es, s := es + [Open(c, x)], Next(s, Open(c, x));
    if submissionFailed {
      RunMore(IDLE, es, s, SubmitFails(c));
      es, s := es + [SubmitFails(c)], Next(s, SubmitFails(c));
    }
    RunMore(IDLE, es, s, Crash(c));
    es, s := es + [Crash(c)], Next(s, Crash(c));
  }

  /** Inside its transaction a claim always finds the row it has just read, so it always makes an owner. */
  lemma ClaimMakesAnOwner(s: Store, ask: Ask, x: Id)
    requires ask.key in s.requests && s.requests[ask.key].slot.Unclaimed?
    requires ask.source == s.requests[ask.key].source && ask.drift == s.requests[ask.key].drift
    ensures var (s', phase) := Begin(s, ask, x);
            && phase == Submitting(s.requests[ask.key].experiment)
            && (set k | k in s.requests && k in s'.requests && s'.requests[k] != s.requests[k]) == {ask.key}
            && s'.requests[ask.key].slot.Dispatching?
  {
  }

  /** No step gives a wedged request a job, another state, or a live owner. */
  lemma WedgedStep(s: System, e: Event, k: Key)
    requires Inv(s) && Enabled(s, e) && Wedged(s, k)
    ensures Wedged(Next(s, e), k)
  {
    hide OneOwner, OneJobPerRequest;
    var s' := Next(s, e);
    var x := s.store.requests[k].experiment;
    if e.c in s.callers {
      assert CallerFits(s.store, s.callers[e.c]);
      if s.callers[e.c].ask.key == k {
        NoJobNoAnswer(s.store, s.callers[e.c]);
      }
    }
    if e.Submit? {
      assert forall i | 0 <= i < |s'.store.jobs| :: s'.store.jobs[i].experiment != x;
    } else {
      assert s'.store.jobs == s.store.jobs;
    }
  }

  lemma WedgedGivesNoAnswer(s: System, k: Key)
    requires Inv(s) && Wedged(s, k)
    ensures forall c | c in s.callers && s.callers[c].ask.key == k :: !s.callers[c].phase.Returned?
  {
    forall c | c in s.callers && s.callers[c].ask.key == k
      ensures !s.callers[c].phase.Returned?
    {
      NoJobNoAnswer(s.store, s.callers[c]);
    }
  }

  lemma NoJobNoAnswer(s: Store, c: Caller)
    requires CallerFits(s, c) && c.ask.key in s.requests && !HasJob(s, s.requests[c.ask.key].experiment)
    ensures !c.phase.Returned? && !c.phase.Recovering? && !c.phase.Binding?
  {
    if c.phase.Returned? || c.phase.Recovering? || c.phase.Binding? {
      StoredMeansHasJob(s, Job(c.phase.job, c.phase.experiment, c.ask.key.user));
    }
  }

  /** From then on no retry with the same key is ever answered: every later caller waits in vain. */
  lemma {:induction false} WedgedForever(s: System, es: seq<Event>, end: System, k: Key)
    requires Inv(s) && Run(s, es, end) && Wedged(s, k)
    ensures Wedged(end, k)
    ensures forall c | c in end.callers && end.callers[c].ask.key == k :: !end.callers[c].phase.Returned?
    decreases |es|
  {
    hide Next, Enabled, Inv, Wedged;
    if es != [] {
      StepKeepsInv(s, es[0]);
      WedgedStep(s, es[0], k);
      WedgedForever(Next(s, es[0]), es[1..], end, k);
    } else {
      WedgedGivesNoAnswer(s, k);
    }
  }

  // --- Otherwise it can ------------------------------------------------------------------------------------

  lemma {:induction false} RunMore(s: System, es: seq<Event>, mid: System, e: Event)
    requires Run(s, es, mid) && Enabled(mid, e)
    ensures Run(s, es + [e], Next(mid, e))
    decreases |es|
  {
    hide Next, Enabled;
    if es == [] {
      assert es + [e] == [e] && [e][1..] == [];
    } else {
      RunMore(Next(s, es[0]), es[1..], mid, e);
      assert (es + [e])[1..] == es[1..] + [e] && (es + [e])[0] == es[0];
    }
  }

  lemma {:induction false} LatestJobFinds(jobs: seq<Job>, job: Job)
    requires job in jobs
    ensures LatestJob(jobs, job.experiment, job.user).Some?
  {
    var k := |jobs| - 1;
    if jobs[k] != job && !(jobs[k].experiment == job.experiment && jobs[k].user == job.user) {
      LatestJobFinds(jobs[..k], job);
    }
  }

  ghost predicate NewNames(s: System, c: Id, x: Id, j: Id) {
    c !in s.callers && x !in s.store.experiments && forall i | 0 <= i < |s.store.jobs| :: s.store.jobs[i].id != j
  }

  ghost predicate IsAnswered(s: System, c: Id) {
    c in s.callers && s.callers[c].phase.Returned?
  }

  /** A new caller whose request is bound, released, or has a persisted job is answered if it goes on. */
  lemma NewCallerIsAnswered(s0: System, es0: seq<Event>, s: System, ask: Ask, c: Id, x: Id, j: Id)
    returns (es: seq<Event>, end: System)
    requires Run(s0, es0, s) && Inv(s) && Matches(s.store, ask) && NewNames(s, c, x, j)
    requires s.store.requests[ask.key].slot.Dispatching? ==> HasJob(s.store, s.store.requests[ask.key].experiment)
    ensures Run(s0, es, end) && IsAnswered(end, c)
  {
    var e1, e2 := Arrive(c, ask), Open(c, x);
    RunMore(s0, es0, s, e1);
    var s1 := Next(s, e1);
    RunMore(s0, es0 + [e1], s1, e2);
    es, end := es0 + [e1] + [e2], Next(s1, e2);
    if s.store.requests[ask.key].slot.Unclaimed? {
      var e3, e4 := Submit(c, j), Finish(c);
      RunMore(s0, es, end, e3);
      es, end := es + [e3], Next(end, e3);
      RunMore(s0, es, end, e4);
      es, end := es + [e4], Next(end, e4);
    } else if s.store.requests[ask.key].slot.Dispatching? {
      es, end := WaiterRecovers(s0, es, end, c);
    }
  }

  /** A waiter whose owner persisted a job recovers it. */
  lemma WaiterRecovers(s0: System, es0: seq<Event>, s: System, c: Id) returns (es: seq<Event>, end: System)
    requires Run(s0, es0, s) && c in s.callers && s.callers[c].phase.Polling? && s.callers[c].phase.left > 0
    requires var k := s.callers[c].ask.key;
             && k in s.store.requests && s.store.requests[k].slot.Dispatching?
             && HasJob(s.store, s.callers[c].phase.experiment)
             && forall i | 0 <= i < |s.store.jobs| ::
                    s.store.jobs[i].experiment == s.callers[c].phase.experiment ==> s.store.jobs[i].user == k.user
    ensures Run(s0, es, end) && IsAnswered(end, c)
  {
    var exp := s.callers[c].phase.experiment;
    var i :| 0 <= i < |s.store.jobs| && s.store.jobs[i].experiment == exp;
    LatestJobFinds(s.store.jobs, s.store.jobs[i]);
    var e1, e2, e3 := ReadRequest(c), ReadJobs(c, true), Finish(c);
    RunMore(s0, es0, s, e1);
    es, end := es0 + [e1], Next(s, e1);
    RunMore(s0, es, end, e2);
    es, end := es + [e2], Next(end, e2);
    RunMore(s0, es, end, e3);
    es, end := es + [e3], Next(end, e3);
  }

  /** An owner that is still alive can finish: it binds a job or releases the request. */
  lemma OwnerFinishes(s: System, k: Key, o: Id, j: Id) returns (es: seq<Event>, end: System)
    requires Inv(s) && o in s.callers && s.callers[o].ask.key == k && Owns(s.callers[o].phase)
    requires k in s.store.requests && s.store.requests[k].slot.Dispatching?
    requires forall i | 0 <= i < |s.store.jobs| :: s.store.jobs[i].id != j
    ensures Run(s, es, end) && k in end.store.requests && !end.store.requests[k].slot.Dispatching?
    ensures end.callers.Keys == s.callers.Keys && end.store.experiments == s.store.experiments
    ensures forall i | 0 <= i < |end.store.jobs| :: end.store.jobs[i].id == j || end.store.jobs[i] in s.store.jobs
  {
    es, end := [], s;
    if s.callers[o].phase.Submitting? {
      RunMore(s, es, end, Submit(o, j));
      es, end := es + [Submit(o, j)], Next(end, Submit(o, j));
    }
    RunMore(s, es, end, Finish(o));
    es, end := es + [Finish(o)], Next(end, Finish(o));
  }

  /** A stored request that is not wedged can still be answered: some continuation answers a new caller who
      repeats it. With WedgedForever, a request can be answered if and only if it is not wedged. */
  lemma AnswerableUnlessWedged(s: System, ask: Ask, c: Id, x: Id, j: Id, j2: Id) returns (es: seq<Event>, end: System)
    requires Inv(s) && Matches(s.store, ask) && NewNames(s, c, x, j) && NewNames(s, c, x, j2) && j != j2
    requires !Wedged(s, ask.key)
    ensures Run(s, es, end) && IsAnswered(end, c)
  {
    var k := ask.key;
    var r := s.store.requests[k];
    if r.slot.Dispatching? && !HasJob(s.store, r.experiment) {
      var o :| o in s.callers && s.callers[o].ask.key == k && Owns(s.callers[o].phase);
      var es1, mid := OwnerFinishes(s, k, o, j);
      RunKeepsInv(s, es1, mid);
      BoundForever(s, es1, mid);
      es, end := NewCallerIsAnswered(s, es1, mid, ask, c, x, j2);
    } else {
      es, end := NewCallerIsAnswered(s, [], s, ask, c, x, j);
    }
  }
}
