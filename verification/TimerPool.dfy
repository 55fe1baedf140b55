/**
 The timer task manager feeding the worker pool: timeouts, direct additions, worker takes, task
 completion, registration and destruction in any interleaving.

 `AddWork` and `GetWork` are single steps, since each runs entirely inside the pool's monitor; the
 manager's `OnTimeOut` runs under its own mutex but reads and sets the processing flag in separate
 steps, and a worker clears that flag without any lock.  Timer tasks reach the pool only through the
 manager.  `accepted` and `taken` are histories; no step reads them.
 */
module TimerPool {
  import opened Basics
  import opened Threads

  type TimerId = nat
  type Task = nat

  datatype Work = Timed(task: Task) | Other(id: nat)

  datatype Pc =
    | Idle
    // OnTimeOut
    | TLock(id: TimerId)
    | TFind(id: TimerId)
    | TTest(task: Task)          // about to read IsProcessing
    | TSet(task: Task)           // about to call SetProcessing(true)
    | TAdd(task: Task)           // about to call AddWork
    | TUnlock
    // a worker
    | WRun(work: Work)           // has taken the work, DoTask not finished
    | WClear(task: Task)         // DoTask finished, about to clear the processing flag

  datatype State = State(
    timers: map<TimerId, Task>,
    processing: set<Task>,
    manager: Holder,
    works: seq<Work>,
    destroyed: bool,
    cleared: bool,
    pc: map<Tid, Pc>,
    accepted: seq<Work>,
    taken: seq<Work>)

  ghost predicate Init(s: State) {
    && s.timers == map[] && s.processing == {} && s.manager == Free
    && s.works == s.accepted == s.taken == [] && !s.destroyed && !s.cleared
    && forall t :: t in s.pc ==> s.pc[t] == Idle
  }

  function Goto(s: State, t: Tid, l: Pc): State { s.(pc := s.pc[t := l]) }

  /** ThreadPool::AddWork: refused once the pool is being destroyed. */
  function AddWork(s: State, w: Work): State {
    if s.destroyed then s else s.(works := s.works + [w], accepted := s.accepted + [w])
  }

  /** What an idle thread may start or do in one locked step. */
  datatype Act =
    | Timeout(id: TimerId)
    | Register(id: TimerId, task: Task)
    | UnRegister(id: TimerId)
    | AddOther(id: nat)
    | GetWork
    | Destroy
    | ClearWorks

  ghost predicate IdleStep(s: State, t: Tid, a: Act, s': State) {
    match a
    case Timeout(id) => s' == Goto(s, t, TLock(id))
    case Register(id, task) => s.manager == Free && s' == s.(timers := s.timers[id := task])
    case UnRegister(id) => s.manager == Free && s' == s.(timers := s.timers - {id})
    case AddOther(id) => s' == AddWork(s, Other(id))
    case GetWork =>
      if !s.destroyed && s.works != []
      then s' == Goto(s, t, WRun(s.works[0])).(works := s.works[1..], taken := s.taken + [s.works[0]])
      else s' == s
    case Destroy => s' == s.(destroyed := true)
    case ClearWorks => s.destroyed && s' == s.(works := [], cleared := true)
  }

  ghost predicate Step(s: State, t: Tid, a: Act, s': State) {
    t in s.pc &&
    match s.pc[t]
    case Idle => IdleStep(s, t, a, s')
    case TLock(id) => s.manager == Free && s' == Goto(s, t, TFind(id)).(manager := By(t))
    case TFind(id) => s' == Goto(s, t, if id in s.timers then TTest(s.timers[id]) else TUnlock)
    case TTest(k) => s' == Goto(s, t, if k in s.processing then TUnlock else TSet(k))
    case TSet(k) => s' == Goto(s, t, TAdd(k)).(processing := s.processing + {k})
    case TAdd(k) => s' == Goto(AddWork(s, Timed(k)), t, TUnlock)
    case TUnlock => s' == Goto(s, t, Idle).(manager := Free)
    case WRun(w) => s' == Goto(s, t, if w.Timed? then WClear(w.task) else Idle)
    case WClear(k) => s' == Goto(s, t, Idle).(processing := s.processing - {k})
  }

  // ---------- the invariant ----------

  /** On the way into the pool with task `k`, or running it. */
  predicate Carries(l: Pc, k: Task) {
    l == TAdd(k) || l == WRun(Timed(k)) || l == WClear(k)
  }

  ghost function CarriesTask(k: Task): Pc -> bool { (l: Pc) => Carries(l, k) }

  /** How often task `k` occurs among queued and running works, and works about to be queued. */
  ghost function Occurrences(s: State, k: Task): nat {
    multiset(s.works)[Timed(k)] + Count(s.pc, CarriesTask(k))
  }

  predicate HoldsManager(l: Pc) { l.TFind? || l.TTest? || l.TSet? || l.TAdd? || l.TUnlock? }

  ghost predicate Mutual(s: State) {
    forall t :: t in s.pc ==> (HoldsManager(s.pc[t]) <==> s.manager == By(t))
  }

  /** At most one occurrence, and only with the flag set; until Destroy, exactly one while it is set. */
  ghost predicate TaskOk(s: State, k: Task) {
    && Occurrences(s, k) <= Bit(k in s.processing)
    && (!s.destroyed ==> Occurrences(s, k) == Bit(k in s.processing))
  }

  ghost predicate Tasks(s: State) { forall k :: TaskOk(s, k) }

  /** A timeout that saw the flag clear still finds it clear when it sets it. */
  ghost predicate Setting(s: State) {
    forall t :: t in s.pc && s.pc[t].TSet? ==> s.pc[t].task !in s.processing
  }

  ghost predicate Conserved(s: State) {
    if s.cleared then s.destroyed && s.taken <= s.accepted else s.taken + s.works == s.accepted
  }

  ghost predicate Inv(s: State) {
    Mutual(s) && Tasks(s) && Setting(s) && Conserved(s)
  }

  lemma InitInv(s: State)
    requires Init(s)
    ensures Inv(s)
  {
  }

  lemma IdleMutual(s: State, t: Tid, a: Act, s': State)
    requires Mutual(s) && Setting(s) && t in s.pc && s.pc[t].Idle? && IdleStep(s, t, a, s')
    ensures Mutual(s') && Setting(s')
  {
  }

  lemma BusyMutual(s: State, t: Tid, a: Act, s': State)
    requires Mutual(s) && Step(s, t, a, s') && !s.pc[t].Idle?
    ensures Mutual(s')
  {
  }

  lemma BusySetting(s: State, t: Tid, a: Act, s': State)
    requires Mutual(s) && Setting(s) && Step(s, t, a, s') && !s.pc[t].Idle?
    ensures Setting(s')
  {
  }

  lemma StepConserved(s: State, t: Tid, a: Act, s': State)
    requires Conserved(s) && Step(s, t, a, s')
    ensures Conserved(s')
  {
  }

  /** What one step does to the occurrences of one task. */
  lemma IdleTask(s: State, t: Tid, a: Act, s': State, k: Task)
    requires TaskOk(s, k) && t in s.pc && s.pc[t].Idle? && IdleStep(s, t, a, s')
    ensures TaskOk(s', k)
  {
    if a.GetWork? {
      TakeTask(s, t, s', k);
    } else {
      CountMove(s.pc, t, s'.pc[t], CarriesTask(k));
      assert s.pc[t := s.pc[t]] == s.pc;
    }
  }

  lemma TakeTask(s: State, t: Tid, s': State, k: Task)
    requires TaskOk(s, k) && t in s.pc && s.pc[t].Idle? && IdleStep(s, t, GetWork, s')
    ensures TaskOk(s', k)
  {
    CountMove(s.pc, t, s'.pc[t], CarriesTask(k));
    if s.works != [] { assert s.works == [s.works[0]] + s.works[1..]; }
  }

  lemma TimeoutTask(s: State, t: Tid, a: Act, s': State, k: Task)
    requires Setting(s) && TaskOk(s, k) && Step(s, t, a, s')
    requires HoldsManager(s.pc[t]) || s.pc[t].TLock?
    ensures TaskOk(s', k)
  {
    if s.pc[t].TSet? {
      SetTask(s, t, a, s', k);
    } else if s.pc[t].TAdd? {
      AddTask(s, t, a, s', k);
    } else {
      CountMove(s.pc, t, s'.pc[t], CarriesTask(k));
    }
  }

  lemma SetTask(s: State, t: Tid, a: Act, s': State, k: Task)
    requires Setting(s) && TaskOk(s, k) && Step(s, t, a, s') && s.pc[t].TSet?
    ensures TaskOk(s', k)
  {
    CountMove(s.pc, t, s'.pc[t], CarriesTask(k));
  }

  lemma AddTask(s: State, t: Tid, a: Act, s': State, k: Task)
    requires TaskOk(s, k) && Step(s, t, a, s') && s.pc[t].TAdd?
    ensures TaskOk(s', k)
  {
    CountMove(s.pc, t, s'.pc[t], CarriesTask(k));
  }

  lemma WorkerTask(s: State, t: Tid, a: Act, s': State, k: Task)
    requires TaskOk(s, k) && Step(s, t, a, s') && (s.pc[t].WRun? || s.pc[t].WClear?)
    ensures TaskOk(s', k)
  {
    CountMove(s.pc, t, s'.pc[t], CarriesTask(k));
    if Carries(s.pc[t], k) { CountHas(s.pc, t, CarriesTask(k)); }
  }

  lemma StepInv(s: State, t: Tid, a: Act, s': State)
    requires Inv(s) && Step(s, t, a, s')
    ensures Inv(s')
  {
    StepConserved(s, t, a, s');
    if s.pc[t].Idle? {
      IdleMutual(s, t, a, s');
    } else {
      BusyMutual(s, t, a, s');
      BusySetting(s, t, a, s');
    }
    forall k ensures TaskOk(s', k) {
      assert TaskOk(s, k);
      if s.pc[t].Idle? { IdleTask(s, t, a, s', k); }
      else if s.pc[t].WRun? || s.pc[t].WClear? { WorkerTask(s, t, a, s', k); }
      else { TimeoutTask(s, t, a, s', k); }
    }
  }

  // ---------- runs ----------

  ghost predicate IsRun(ss: seq<State>, ts: seq<Tid>, acts: seq<Act>) {
    && |ss| == |ts| + 1 && |acts| == |ts|
    && Init(ss[0])
    && forall i :: 0 <= i < |ts| ==> Step(ss[i], ts[i], acts[i], ss[i + 1])
  }

  lemma {:induction false} RunInv(ss: seq<State>, ts: seq<Tid>, acts: seq<Act>, n: nat)
    requires IsRun(ss, ts, acts) && n < |ss|
    ensures Inv(ss[n])
  {
    if n == 0 {
      InitInv(ss[0]);
    } else {
      RunInv(ss, ts, acts, n - 1);
      StepInv(ss[n - 1], ts[n - 1], acts[n - 1], ss[n]);
    }
  }

  /** Until the queue is dropped by Destroy, the works taken so far and then the works still queued are the accepted ones, in order. */
  lemma WorksConserved(ss: seq<State>, ts: seq<Tid>, acts: seq<Act>, n: nat)
    requires IsRun(ss, ts, acts) && n < |ss|
    ensures !ss[n].cleared ==> ss[n].taken + ss[n].works == ss[n].accepted
    ensures ss[n].taken <= ss[n].accepted
  {
    RunInv(ss, ts, acts, n);
  }

  /** A timer task is never queued or running twice, and its flag is set whenever it is either. */
  lemma TaskAtMostOnce(ss: seq<State>, ts: seq<Tid>, acts: seq<Act>, n: nat, k: Task)
    requires IsRun(ss, ts, acts) && n < |ss|
    ensures multiset(ss[n].works)[Timed(k)] + Count(ss[n].pc, CarriesTask(k)) <= 1
    ensures Timed(k) in ss[n].works ==>
      k in ss[n].processing && forall t :: t in ss[n].pc ==> ss[n].pc[t] != WRun(Timed(k)) && ss[n].pc[t] != WClear(k)
    ensures forall t :: t in ss[n].pc && Carries(ss[n].pc[t], k) ==> k in ss[n].processing && Timed(k) !in ss[n].works
    ensures forall t, u :: t in ss[n].pc && u in ss[n].pc && t != u ==> !(Carries(ss[n].pc[t], k) && Carries(ss[n].pc[u], k))
  {
    RunInv(ss, ts, acts, n);
    var s := ss[n];
    assert TaskOk(s, k);
    if Timed(k) in s.works {
      assert multiset(s.works)[Timed(k)] >= 1;
      CountNone(s.pc, CarriesTask(k));
    }
    forall t | t in s.pc && Carries(s.pc[t], k) ensures k in s.processing && Timed(k) !in s.works {
      CountHas(s.pc, t, CarriesTask(k));
      assert multiset(s.works)[Timed(k)] == 0;
    }
    forall t, u | t in s.pc && u in s.pc && t != u ensures !(Carries(s.pc[t], k) && Carries(s.pc[u], k)) {
      if Carries(s.pc[t], k) && Carries(s.pc[u], k) {
        CardinalityMonotone({t, u}, Where(s.pc, CarriesTask(k)));
      }
    }
  }

  /** Until Destroy, a task's flag is set exactly while the task is about to be queued, queued or running: once. */
  lemma FlagExact(ss: seq<State>, ts: seq<Tid>, acts: seq<Act>, n: nat, k: Task)
    requires IsRun(ss, ts, acts) && n < |ss| && !ss[n].destroyed
    ensures multiset(ss[n].works)[Timed(k)] + Count(ss[n].pc, CarriesTask(k)) == if k in ss[n].processing then 1 else 0
  {
    RunInv(ss, ts, acts, n);
    assert TaskOk(ss[n], k);
  }

  /** An addition before Destroy is queued, last; after it nothing is. */
  lemma AdditionQueued(s: State, t: Tid, id: nat, s': State)
    requires t in s.pc && s.pc[t] == Idle && Step(s, t, AddOther(id), s')
    ensures !s.destroyed ==> s'.works == s.works + [Other(id)] && s'.accepted == s.accepted + [Other(id)]
    ensures s.destroyed ==> s'.works == s.works && s'.accepted == s.accepted
  {
  }

  /** A worker that asks gets the first queued work; nobody else shortens the queue before Destroy. */
  lemma TakeIsFirst(s: State, t: Tid, a: Act, s': State)
    requires Step(s, t, a, s')
    ensures s.pc[t] == Idle && a == GetWork && !s.destroyed && s.works != [] ==>
      t in s'.pc && s'.pc[t] == WRun(s.works[0]) && s'.works == s.works[1..]
    ensures !s.destroyed && |s'.works| < |s.works| ==> s.pc[t] == Idle && a == GetWork
  {
  }

  /** Between the test that found the flag clear and the addition. */
  predicate Adding(l: Pc, k: Task) { l == TSet(k) || l == TAdd(k) }

  /** The step that adds the task: it is queued, last, unless the pool is being destroyed. */
  ghost predicate AddsTask(s: State, t: Tid, s': State, k: Task) {
    && t in s.pc && s.pc[t] == TAdd(k) && t in s'.pc && s'.pc[t] == TUnlock && k in s'.processing
    && (!s.destroyed ==> s'.works == s.works + [Timed(k)] && s'.accepted == s.accepted + [Timed(k)])
  }

  ghost predicate AddFacts(s: State, t: Tid, s': State, u: Tid, k: Task) {
    && (u in s.pc && Adding(s.pc[u], k) ==> u in s'.pc && (Adding(s'.pc[u], k) || (u == t && AddsTask(s, t, s', k))))
  }

  lemma StepAddFacts(s: State, t: Tid, a: Act, s': State, u: Tid, k: Task)
    requires Inv(s) && Step(s, t, a, s')
    ensures AddFacts(s, t, s', u, k)
  {
    if t in s.pc && s.pc[t] == TAdd(k) {
      assert TaskOk(s, k);
      CountHas(s.pc, t, CarriesTask(k));
    }
  }

  lemma {:induction false} AddsAfter(ss: seq<State>, ts: seq<Tid>, i: nat, n: nat, u: Tid, k: Task) returns (j: nat)
    requires |ss| == |ts| + 1 && forall m {:trigger ts[m]} :: 0 <= m < |ts| ==> AddFacts(ss[m], ts[m], ss[m + 1], u, k)
    requires i <= n < |ss| && u in ss[i].pc && Adding(ss[i].pc[u], k) && !(u in ss[n].pc && Adding(ss[n].pc[u], k))
    ensures i <= j < n && ts[j] == u && AddsTask(ss[j], u, ss[j + 1], k)
    decreases n - i
  {
    assert AddFacts(ss[i], ts[i], ss[i + 1], u, k);
    if u in ss[i + 1].pc && Adding(ss[i + 1].pc[u], k) { j := AddsAfter(ss, ts, i + 1, n, u, k); } else { j := i; }
  }

  /** A timeout that finds the flag clear sets it and has its task queued, unless the pool is being destroyed by then. */
  lemma TimeoutQueues(ss: seq<State>, ts: seq<Tid>, acts: seq<Act>, i: nat, n: nat, k: Task) returns (j: nat)
    requires IsRun(ss, ts, acts) && i < |ts| && ts[i] in ss[i].pc && ss[i].pc[ts[i]] == TTest(k) && k !in ss[i].processing
    requires i < n < |ss| && ts[i] in ss[n].pc && !Adding(ss[n].pc[ts[i]], k)
    ensures i < j < n && ts[j] == ts[i] && AddsTask(ss[j], ts[i], ss[j + 1], k)
  {
    var u := ts[i];
    assert Step(ss[i], ts[i], acts[i], ss[i + 1]);
    forall m | 0 <= m < |ts| ensures AddFacts(ss[m], ts[m], ss[m + 1], u, k) {
      RunInv(ss, ts, acts, m);
      StepAddFacts(ss[m], ts[m], acts[m], ss[m + 1], u, k);
    }
    j := AddsAfter(ss, ts, i + 1, n, u, k);
  }

  /** A timeout that finds the flag set adds nothing. */
  lemma BusyTimeoutSkips(s: State, t: Tid, a: Act, s': State, k: Task)
    requires t in s.pc && s.pc[t] == TTest(k) && k in s.processing && Step(s, t, a, s')
    ensures t in s'.pc && s'.pc[t] == TUnlock && s'.works == s.works && s'.processing == s.processing
  {
  }
}
