/**
 The service thread's wakeup protocol, through the monitor's deferred notification, the recursive
 mutex, its reset for the condition wait, and the condition variable.

 One thread, `svc`, runs `waitForRunning`; any number of threads run `wakeup` and `stop`.  Steps of
 the mutex and of the condition wait are those of the recursive mutex system; a thread in the wait
 set leaves it when it is signalled, and also on a timeout or spuriously.
 */
module ServiceThread {
  import opened Basics
  import M = RecursiveMutex
  import opened RecursiveMutex

  datatype Job = Wake | Await

  datatype Client =
    | Out                        // in neither call
    | Stopped                    // stop() has set m_stoped, about to call wakeup()
    | Locking(job: Job)          // in Monitor::Lock
    | Body(job: Job)             // about to look at m_notified
    | AskNotify | AskedNotify    // Monitor::Notify: about to call / calling GetOwner
    | AskWait | AskedWait        // Monitor::Wait: about to call / calling GetOwner
    | WaitSignal(k: int)         // Monitor::Wait: k notifications still to send
    | Suspended                     // in Condition::Wait
    | UnCheck                    // Monitor::Unlock: about to read the count
    | UnSignal(k: int)           // Monitor::Unlock: k notifications still to send
    | Unlocking                  // in RecursiveMutex::Unlock

  datatype Service = Service(
    m: M.State,
    svc: Tid,
    notifyCount: int,
    notified: bool,
    stopped: bool,
    cl: map<Tid, Client>)

  ghost predicate Init(s: Service) {
    && M.Init(s.m) && s.m.th.Keys == s.cl.Keys && s.svc in s.cl
    && s.notifyCount == 0 && !s.notified && !s.stopped
    && forall t :: t in s.cl ==> s.cl[t] == Out
  }

  function Go(s: Service, t: Tid, c: Client): Service { s.(cl := s.cl[t := c]) }

  /** Thread `t` calls into the mutex. */
  function CallM(s: Service, t: Tid, l: At, c: Client): Service
    requires t in s.m.th
  {
    Go(s, t, c).(m := Goto(s.m, t, l))
  }

  /** `pthread_cond_signal`: wakes a waiting thread if there is one. */
  ghost predicate Signalled(m: M.State, m': M.State) {
    if exists u :: u in m.th && m.th[u].at.CvWait?
    then exists u :: u in m.th && m.th[u].at.CvWait? && m' == Goto(m, u, CvLock(m.th[u].at.n))
    else m' == m
  }

  ghost predicate ClientStep(s: Service, t: Tid, s': Service) {
    t in s.m.th && t in s.cl && s.m.th[t].at.User? &&
    match s.cl[t]
    case Out =>
      || s' == Go(s, t, Stopped).(stopped := true)
      || s' == CallM(s, t, LkInternal(1, false), Locking(Wake))
      || (t == s.svc && s' == CallM(s, t, LkInternal(1, false), Locking(Await)))
    case Stopped => s' == CallM(s, t, LkInternal(1, false), Locking(Wake))
    case Locking(job) => s' == Go(s, t, Body(job)).(notifyCount := if s.m.th[t].at.rc then 0 else s.notifyCount)
    case Body(Wake) =>
      if s.notified then s' == Go(s, t, UnCheck) else s' == Go(s, t, AskNotify).(notified := true)
    case Body(Await) =>
      if s.notified then s' == Go(s, t, UnCheck).(notified := false) else s' == Go(s, t, AskWait)
    case AskNotify => s' == CallM(s, t, GoInternal, AskedNotify)
    case AskedNotify => s' == Go(s, t, UnCheck).(notifyCount := if s.notifyCount != -1 then s.notifyCount + 1 else -1)
    case AskWait => s' == CallM(s, t, GoInternal, AskedWait)
    case AskedWait => s' == Go(s, t, WaitSignal(s.notifyCount))
    case WaitSignal(k) =>
      if k > 0 then Signalled(s.m, s'.m) && s' == Go(s, t, WaitSignal(k - 1)).(m := s'.m)
      else s' == CallM(s, t, RsInternal, Suspended)
    case Suspended =>
      // a wait that is interrupted throws; the handler of waitForRunning clears m_notified
      || s' == Go(s, t, UnCheck).(notifyCount := 0)
      || s' == Go(s, t, UnCheck).(notifyCount := 0, notified := false)
    case UnCheck =>
      if s.m.count == 1 then s' == Go(s, t, UnSignal(s.notifyCount)) else s' == CallM(s, t, UnInternal, Unlocking)
    case UnSignal(k) =>
      if k > 0 then Signalled(s.m, s'.m) && s' == Go(s, t, UnSignal(k - 1)).(m := s'.m)
      else s' == CallM(s, t, UnInternal, Unlocking)
    case Unlocking => s' == Go(s, t, Out)
  }

  /** A thread inside the mutex or the condition wait takes one step there. */
  ghost predicate MutexStep(s: Service, t: Tid, s': Service) {
    t in s.m.th && !s.m.th[t].at.User? && M.Step(s.m, t, s'.m) && s' == s.(m := s'.m)
  }

  ghost predicate Step(s: Service, t: Tid, s': Service) {
    ClientStep(s, t, s') || MutexStep(s, t, s')
  }

  // ---------- the invariant ----------

  /** Which mutex locations a client location allows. */
  predicate Link(c: Client, h: Thread) {
    match c
    case Out => h.at.User? && h.depth == 0
    case Stopped => h.at.User? && h.depth == 0
    case Locking(_) =>
      || (h.at.User? && h.at.rc && h.depth == 1)
      || (h.depth == 0 && (h.at.LkInternal? || h.at.LkTest? || h.at.LkMutex? || h.at.LkWait? || h.at.LkPass?) && !h.at.relock)
      || (h.depth == 0 && h.at.LkLeave? && !h.at.relock && h.at.rc == h.at.obtained)
    case AskedNotify => h.depth == 1 && ((h.at.User? && h.at.rc) || h.at.GoInternal? || h.at.GoRead? || h.at.GoLeave?)
    case AskedWait => h.depth == 1 && ((h.at.User? && h.at.rc) || h.at.GoInternal? || h.at.GoRead? || h.at.GoLeave?)
    case Suspended => h.depth == 1 && (Waiting(h.at) || h.at.User?)
    case Unlocking => (h.depth == 1 && InUnlock(h.at)) || (h.depth == 0 && h.at.User?)
    case _ => h.at.User? && h.depth == 1
  }

  /** Locations only the service thread reaches. */
  predicate ServiceOnly(c: Client) {
    c == Locking(Await) || c == Body(Await) || c.AskWait? || c.AskedWait? || c.WaitSignal? || c.Suspended?
  }

  ghost predicate Links(s: Service) {
    && s.m.th.Keys == s.cl.Keys && s.svc in s.cl && s.notifyCount >= 0
    && forall t :: t in s.cl ==> Link(s.cl[t], s.m.th[t]) && (ServiceOnly(s.cl[t]) ==> t == s.svc)
  }

  /** On its way into the wait set: it has seen m_notified false and still has m_mutex locked. */
  predicate GoingToWait(c: Client, l: At) {
    || c.AskWait? || c.AskedWait? || c.WaitSignal?
    || (c.Suspended? && (l.RsInternal? || l.RsReset? || l.RsLeave? || l.CvBlock?))
  }

  /** Has set m_notified and will still signal before it gives the monitor up. */
  predicate WillSignal(c: Client, notifyCount: int) {
    c.AskNotify? || c.AskedNotify? || (c.UnCheck? && notifyCount > 0) || (c.UnSignal? && c.k > 0)
  }

  ghost predicate Pending(s: Service)
    requires s.m.th.Keys == s.cl.Keys && s.svc in s.cl
  {
    && (GoingToWait(s.cl[s.svc], s.m.th[s.svc].at) ==> !s.notified)
    && (s.m.th[s.svc].at.CvWait? && s.notified ==>
          s.m.owner.By? && s.m.owner.t in s.cl && WillSignal(s.cl[s.m.owner.t], s.notifyCount))
  }

  ghost predicate Inv(s: Service) {
    M.Inv(s.m) && Links(s) && Pending(s)
  }

  lemma InitInv(s: Service)
    requires Init(s)
    ensures Inv(s)
  {
    M.InitInv(s.m);
  }

  // ---------- steps inside the mutex ----------

  lemma LinkLocking(c: Client, m: M.State, t: Tid, m': M.State)
    requires t in m.th && M.ThreadOk(m, t) && !m.th[t].at.User? && M.Step(m, t, m')
    requires c.Locking? && Link(c, m.th[t])
    ensures t in m'.th && Link(c, m'.th[t])
  {
  }

  lemma LinkAsked(c: Client, m: M.State, t: Tid, m': M.State)
    requires t in m.th && M.ThreadOk(m, t) && !m.th[t].at.User? && M.Step(m, t, m')
    requires (c.AskedNotify? || c.AskedWait?) && Link(c, m.th[t])
    ensures t in m'.th && Link(c, m'.th[t]) && m'.owner == m.owner
  {
  }

  lemma LinkSuspended(c: Client, m: M.State, t: Tid, m': M.State)
    requires t in m.th && M.ThreadOk(m, t) && !m.th[t].at.User? && M.Step(m, t, m')
    requires c.Suspended? && Link(c, m.th[t])
    ensures t in m'.th && Link(c, m'.th[t])
    ensures GoingToWait(c, m'.th[t].at) ==> GoingToWait(c, m.th[t].at)
    ensures m'.th[t].at.CvWait? ==> GoingToWait(c, m.th[t].at)
  {
    M.WaitingOwnStep(m, t, m');
  }

  lemma LinkUnlocking(c: Client, m: M.State, t: Tid, m': M.State)
    requires t in m.th && M.ThreadOk(m, t) && !m.th[t].at.User? && M.Step(m, t, m')
    requires c.Unlocking? && Link(c, m.th[t])
    ensures t in m'.th && Link(c, m'.th[t])
  {
  }

  /** What a mutex step does to its own thread, as the caller sees it. */
  lemma LinkMutexStep(c: Client, m: M.State, t: Tid, m': M.State)
    requires t in m.th && M.ThreadOk(m, t) && !m.th[t].at.User? && M.Step(m, t, m') && Link(c, m.th[t])
    ensures t in m'.th && Link(c, m'.th[t])
    ensures GoingToWait(c, m'.th[t].at) ==> GoingToWait(c, m.th[t].at)
    ensures m'.th[t].at.CvWait? ==> GoingToWait(c, m.th[t].at)
    ensures c.AskedNotify? ==> m'.owner == m.owner
    ensures c.Locking? || c.AskedNotify? || c.AskedWait? || c.Suspended? || c.Unlocking?
  {
    match c
    case Locking(_) => LinkLocking(c, m, t, m');
    case AskedNotify => LinkAsked(c, m, t, m');
    case AskedWait => LinkAsked(c, m, t, m');
    case Suspended => LinkSuspended(c, m, t, m');
    case Unlocking => LinkUnlocking(c, m, t, m');
    case _ =>
  }

  /** Only the service thread is ever inside the condition wait. */
  lemma OnlyServiceWaits(s: Service, u: Tid)
    requires Links(s) && u in s.cl && (M.InWait(s.m.th[u].at) || M.InReset(s.m.th[u].at))
    ensures u == s.svc && s.cl[u].Suspended? && s.m.th[u].depth == 1
  {
    assert Link(s.cl[u], s.m.th[u]);
  }

  lemma MutexStepInv(s: Service, t: Tid, s': Service)
    requires Inv(s) && MutexStep(s, t, s')
    ensures Inv(s')
  {
    assert M.ThreadOk(s.m, t) && Link(s.cl[t], s.m.th[t]);
    M.StepInv(s.m, t, s'.m);
    M.StepSelf(s.m, t, s'.m);
    LinkMutexStep(s.cl[t], s.m, t, s'.m);
  }

  // ---------- steps of the callers ----------

  /** Program code at depth 1 is the owner of the mutex. */
  lemma InsideOwns(s: Service, t: Tid)
    requires Inv(s) && t in s.cl && s.m.th[t].at.User? && s.m.th[t].depth == 1
    ensures s.m.owner == By(t) && s.m.mutex == By(t) && s.m.count == 1
    ensures t != s.svc ==> !GoingToWait(s.cl[s.svc], s.m.th[s.svc].at)
  {
    M.MutualExclusion(s.m, t);
    assert M.ThreadOk(s.m, s.svc) && Link(s.cl[s.svc], s.m.th[s.svc]);
  }

  lemma OutsideOwnsNot(s: Service, t: Tid)
    requires Inv(s) && t in s.cl && s.m.th[t].at.User? && s.m.th[t].depth == 0
    ensures s.m.owner != By(t)
  {
  }

  /** A step that only moves the caller on, and the shared flags as given. */
  lemma LocalStep(s: Service, t: Tid, c: Client, n: int, b: bool, st: bool)
    requires Inv(s) && t in s.cl && s.m.th[t].at.User? && n >= 0
    requires Link(c, s.m.th[t]) && (ServiceOnly(c) ==> t == s.svc)
    requires s.m.th[t].depth == 0 ==> n == s.notifyCount && b == s.notified
    requires s.m.th[t].depth == 1 && b && s.m.th[s.svc].at.CvWait? && (s.notified ==> WillSignal(s.cl[t], s.notifyCount))
      ==> WillSignal(c, n)
    requires t == s.svc && GoingToWait(c, s.m.th[t].at) ==> !b
    ensures Inv(Go(s, t, c).(notifyCount := n, notified := b, stopped := st))
  {
    var s' := Go(s, t, c).(notifyCount := n, notified := b, stopped := st);
    assert Link(s.cl[t], s.m.th[t]);
    if s.m.th[t].depth == 1 { InsideOwns(s, t); } else { OutsideOwnsNot(s, t); }
  }

  lemma EnterCall(m: M.State, t: Tid, l: At)
    requires M.Inv(m) && t in m.th && m.th[t].at.User? && M.MayCall(l, m.th[t].depth)
    ensures M.Inv(Goto(m, t, l))
  {
    M.StepInv(m, t, Goto(m, t, l));
  }

  lemma CallPending(s: Service, t: Tid, l: At, c: Client)
    requires s.m.th.Keys == s.cl.Keys && s.svc in s.cl && Pending(s) && t in s.cl && s.m.th[t].at.User? && !l.CvWait?
    requires WillSignal(s.cl[t], s.notifyCount) ==> WillSignal(c, s.notifyCount)
    requires t == s.svc && GoingToWait(c, l) ==> GoingToWait(s.cl[t], s.m.th[t].at)
    ensures Pending(CallM(s, t, l, c))
  {
  }

  lemma CallLinks(s: Service, t: Tid, l: At, c: Client)
    requires Links(s) && t in s.cl && Link(c, s.m.th[t].(at := l)) && (ServiceOnly(c) ==> t == s.svc)
    ensures Links(CallM(s, t, l, c))
  {
  }

  /** A step that enters a call of the mutex. */
  lemma CallStepInv(s: Service, t: Tid, l: At, c: Client)
    requires Inv(s) && t in s.cl && s.m.th[t].at.User? && M.MayCall(l, s.m.th[t].depth)
    requires Link(c, s.m.th[t].(at := l)) && (ServiceOnly(c) ==> t == s.svc)
    requires WillSignal(s.cl[t], s.notifyCount) ==> WillSignal(c, s.notifyCount)
    requires t == s.svc && GoingToWait(c, l) ==> GoingToWait(s.cl[t], s.m.th[t].at)
    ensures Inv(CallM(s, t, l, c))
  {
    EnterCall(s.m, t, l);
    CallLinks(s, t, l, c);
    CallPending(s, t, l, c);
    assert CallM(s, t, l, c).m == Goto(s.m, t, l);
  }

  lemma Signalling(s: Service, m': M.State)
    requires Links(s) && Signalled(s.m, m')
    ensures if s.m.th[s.svc].at.CvWait? then m' == Goto(s.m, s.svc, CvLock(s.m.th[s.svc].at.n)) else m' == s.m
  {
    if exists u :: u in s.m.th && s.m.th[u].at.CvWait? {
      var u :| u in s.m.th && s.m.th[u].at.CvWait? && m' == Goto(s.m, u, CvLock(s.m.th[u].at.n));
      OnlyServiceWaits(s, u);
    }
  }

  lemma SignalledStep(s: Service, m': M.State)
    requires Inv(s) && Signalled(s.m, m')
    ensures Inv(s.(m := m')) && !m'.th[s.svc].at.CvWait?
    ensures forall u :: u in s.cl && u != s.svc ==> m'.th[u] == s.m.th[u]
    ensures !s.m.th[s.svc].at.CvWait? ==> m' == s.m
  {
    Signalling(s, m');
    if s.m.th[s.svc].at.CvWait? {
      ServiceWakes(s);
    }
  }

  lemma ServiceWakes(s: Service)
    requires Inv(s) && s.m.th[s.svc].at.CvWait?
    ensures Inv(s.(m := Goto(s.m, s.svc, CvLock(s.m.th[s.svc].at.n))))
  {
    var m' := Goto(s.m, s.svc, CvLock(s.m.th[s.svc].at.n));
    assert M.Step(s.m, s.svc, m');
    MutexStepInv(s, s.svc, s.(m := m'));
  }

  /** Sending one deferred notification. */
  lemma SignalStepInv(s: Service, t: Tid, s': Service)
    requires Inv(s) && ClientStep(s, t, s')
    requires (s.cl[t].WaitSignal? || s.cl[t].UnSignal?) && s.cl[t].k > 0
    ensures Inv(s')
  {
    SignalledStep(s, s'.m);
    var s1 := s.(m := s'.m);
    assert Link(s.cl[t], s.m.th[t]);
    assert t == s.svc ==> s'.m == s.m;
    LocalStep(s1, t, s'.cl[t], s.notifyCount, s.notified, s.stopped);
  }

  predicate Sending(c: Client) { (c.WaitSignal? || c.UnSignal?) && c.k > 0 }

  /** Steps of the callers that stay out of the mutex. */
  predicate Local(c: Client) {
    c.Locking? || c.AskedNotify? || c.AskedWait? || c.Suspended? || c.Unlocking?
  }

  /** Looking at m_notified. */
  lemma BodyStepInv(s: Service, t: Tid, s': Service)
    requires Inv(s) && ClientStep(s, t, s') && s.cl[t].Body?
    ensures Inv(s')
  {
    assert Link(s.cl[t], s.m.th[t]);
    InsideOwns(s, t);
    LocalStep(s, t, s'.cl[t], s.notifyCount, s'.notified, s.stopped);
  }

  lemma LocalClientStepInv(s: Service, t: Tid, s': Service)
    requires Inv(s) && ClientStep(s, t, s') && Local(s.cl[t])
    ensures Inv(s')
  {
    assert Link(s.cl[t], s.m.th[t]);
    if s.m.th[t].depth == 1 { InsideOwns(s, t); }
    LocalStep(s, t, s'.cl[t], s'.notifyCount, s'.notified, s'.stopped);
  }

  lemma OutsideStepInv(s: Service, t: Tid, s': Service)
    requires Inv(s) && ClientStep(s, t, s') && (s.cl[t].Out? || s.cl[t].Stopped?)
    ensures Inv(s')
  {
    assert Link(s.cl[t], s.m.th[t]);
    if s'.cl[t] == Stopped {
      LocalStep(s, t, Stopped, s.notifyCount, s.notified, true);
    } else {
      CallStepInv(s, t, LkInternal(1, false), s'.cl[t]);
    }
  }

  lemma AskStepInv(s: Service, t: Tid, s': Service)
    requires Inv(s) && ClientStep(s, t, s') && (s.cl[t].AskNotify? || s.cl[t].AskWait?)
    ensures Inv(s')
  {
    assert Link(s.cl[t], s.m.th[t]);
    CallStepInv(s, t, GoInternal, s'.cl[t]);
  }

  lemma SentStepInv(s: Service, t: Tid, s': Service)
    requires Inv(s) && ClientStep(s, t, s') && (s.cl[t].WaitSignal? || s.cl[t].UnCheck? || s.cl[t].UnSignal?) && !Sending(s.cl[t])
    ensures Inv(s')
  {
    assert Link(s.cl[t], s.m.th[t]);
    InsideOwns(s, t);
    match s.cl[t]
    case UnCheck => LocalStep(s, t, UnSignal(s.notifyCount), s.notifyCount, s.notified, s.stopped);
    case WaitSignal(_) => CallStepInv(s, t, RsInternal, Suspended);
    case UnSignal(_) => CallStepInv(s, t, UnInternal, Unlocking);
  }

  lemma ClientStepInv(s: Service, t: Tid, s': Service)
    requires Inv(s) && ClientStep(s, t, s')
    ensures Inv(s')
  {
    if Sending(s.cl[t]) {
      SignalStepInv(s, t, s');
    } else if Local(s.cl[t]) {
      LocalClientStepInv(s, t, s');
    } else if s.cl[t].Body? {
      BodyStepInv(s, t, s');
    } else if s.cl[t].Out? || s.cl[t].Stopped? {
      OutsideStepInv(s, t, s');
    } else if s.cl[t].AskNotify? || s.cl[t].AskWait? {
      AskStepInv(s, t, s');
    } else {
      SentStepInv(s, t, s');
    }
  }

  lemma StepInv(s: Service, t: Tid, s': Service)
    requires Inv(s) && Step(s, t, s')
    ensures Inv(s')
  {
    if ClientStep(s, t, s') { ClientStepInv(s, t, s'); } else { MutexStepInv(s, t, s'); }
  }

  // ---------- runs ----------

  ghost predicate IsRun(ss: seq<Service>, ts: seq<Tid>) {
    && |ss| == |ts| + 1
    && Init(ss[0])
    && forall i :: 0 <= i < |ts| ==> Step(ss[i], ts[i], ss[i + 1])
  }

  lemma {:induction false} RunInv(ss: seq<Service>, ts: seq<Tid>, n: nat)
    requires IsRun(ss, ts) && n < |ss|
    ensures Inv(ss[n])
  {
    if n == 0 {
      InitInv(ss[0]);
    } else {
      RunInv(ss, ts, n - 1);
      StepInv(ss[n - 1], ts[n - 1], ss[n]);
    }
  }

  /**
   No wakeup is lost: in no reachable state is the service thread blocked and unsignalled while
   m_notified is true and the monitor is free.  If it is blocked while m_notified is true, some
   thread inside the monitor still owes it a signal before giving the monitor up.
   */
  lemma NoLostWakeup(ss: seq<Service>, ts: seq<Tid>, n: nat)
    requires IsRun(ss, ts) && n < |ss|
    ensures var s := ss[n];
      s.svc in s.m.th && s.m.th[s.svc].at.CvWait? && s.notified ==>
        && s.m.count == 1 && s.m.owner.By? && s.m.owner.t in s.cl
        && WillSignal(s.cl[s.m.owner.t], s.notifyCount)
  {
    RunInv(ss, ts, n);
    var s := ss[n];
    if s.m.th[s.svc].at.CvWait? && s.notified {
      var w := s.m.owner.t;
      assert Link(s.cl[w], s.m.th[w]) && M.ThreadOk(s.m, w);
    }
  }

  /** The owner assertions of Monitor::Notify and Monitor::Wait never fail. */
  lemma OwnerAssertionsHold(ss: seq<Service>, ts: seq<Tid>, n: nat, t: Tid)
    requires IsRun(ss, ts) && n < |ss| && t in ss[n].cl
    requires (ss[n].cl[t].AskedNotify? || ss[n].cl[t].AskedWait?) && t in ss[n].m.th && ss[n].m.th[t].at.User?
    ensures ss[n].m.th[t].at.rc
  {
    RunInv(ss, ts, n);
    assert Link(ss[n].cl[t], ss[n].m.th[t]);
  }

  /** m_notified and m_notifyCount are touched by one thread at a time, the owner of the monitor. */
  lemma FlagsGuarded(ss: seq<Service>, ts: seq<Tid>, i: nat)
    requires IsRun(ss, ts) && i < |ts|
    requires ss[i].notified != ss[i + 1].notified || ss[i].notifyCount != ss[i + 1].notifyCount
    ensures ss[i].m.owner == By(ts[i]) && ss[i].m.mutex == By(ts[i])
  {
    RunInv(ss, ts, i);
    assert Step(ss[i], ts[i], ss[i + 1]);
    assert Link(ss[i].cl[ts[i]], ss[i].m.th[ts[i]]);
    if ss[i].m.th[ts[i]].depth == 1 { InsideOwns(ss[i], ts[i]); }
  }
}
