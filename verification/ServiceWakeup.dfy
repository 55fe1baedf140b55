/**
 What the calls of the service thread's protocol achieve, over whole runs: `wakeup` sets m_notified and gets
 a waiting service thread out of the wait set, `waitForRunning` waits exactly when it finds m_notified false.
 */
module ServiceWakeup {
  import opened Basics
  import M = RecursiveMutex
  import opened ServiceThread

  /** The service thread is in the wait set of the condition. */
  predicate InWaitSet(s: Service) { s.svc in s.m.th && s.m.th[s.svc].at.CvWait? }

  /** Called, and not yet past the look at m_notified. */
  predicate BeforeWake(c: Client) { c == Locking(Wake) || c == Body(Wake) }

  /** m_notified is true in the hands of the monitor's owner `u`. */
  predicate Marked(s: Service, u: Tid) { s.notified && s.m.owner == By(u) }

  // ---------- wakeup ----------

  /** What a step does to a `wakeup` call of `u`, to the ownership of `u`, and to m_notified. */
  ghost predicate WakeFacts(s: Service, s': Service, u: Tid) {
    && s'.svc == s.svc && (u in s.cl ==> u in s'.cl)
    && (u in s.cl && BeforeWake(s.cl[u]) ==> BeforeWake(s'.cl[u]) || Marked(s', u))
    && (s.m.owner == By(u) ==> s'.m.owner == By(u) || s'.m.owner == Free)
    && (s.notified && InWaitSet(s) && InWaitSet(s') ==> s'.notified)
  }

  lemma ClientStepSame(s: Service, t: Tid, s': Service)
    requires ClientStep(s, t, s')
    ensures s'.svc == s.svc && t in s.cl && t in s'.cl && s'.cl == s.cl[t := s'.cl[t]]
  {
  }

  lemma MutexStepSame(s: Service, t: Tid, s': Service)
    requires MutexStep(s, t, s')
    ensures s'.svc == s.svc && t in s.m.th && s'.cl == s.cl
  {
  }

  lemma SameService(s: Service, t: Tid, s': Service)
    requires s.m.th.Keys == s.cl.Keys && Step(s, t, s')
    ensures s'.svc == s.svc && t in s.cl && s'.cl.Keys == s.cl.Keys
    ensures forall u :: u in s.cl && u != t ==> s'.cl[u] == s.cl[u]
  {
    if MutexStep(s, t, s') { MutexStepSame(s, t, s'); } else { ClientStepSame(s, t, s'); }
  }

  lemma WakeStep(s: Service, t: Tid, s': Service)
    requires Inv(s) && Step(s, t, s') && t in s.cl && BeforeWake(s.cl[t])
    ensures t in s'.cl && (BeforeWake(s'.cl[t]) || Marked(s', t))
  {
    if ClientStep(s, t, s') && s.cl[t].Body? {
      assert Link(s.cl[t], s.m.th[t]);
      InsideOwns(s, t);
    }
  }

  lemma MutexOwnerReleased(m: M.State, t: Tid, m': M.State, u: Tid)
    requires M.Step(m, t, m') && m.owner == By(u) && m.count != 0
    ensures m'.owner == By(u) || m'.owner == Free
  {
  }

  lemma SignalKeepsOwner(m: M.State, m': M.State)
    requires Signalled(m, m')
    ensures m'.owner == m.owner
  {
  }

  lemma ClientKeepsOwner(s: Service, t: Tid, s': Service)
    requires ClientStep(s, t, s')
    ensures s'.m.owner == s.m.owner
  {
    if (s.cl[t].WaitSignal? || s.cl[t].UnSignal?) && s.cl[t].k > 0 { SignalKeepsOwner(s.m, s'.m); }
  }

  lemma OwnerReleased(s: Service, t: Tid, s': Service, u: Tid)
    requires Inv(s) && Step(s, t, s') && s.m.owner == By(u)
    ensures s'.m.owner == By(u) || s'.m.owner == Free
  {
    if MutexStep(s, t, s') { MutexOwnerReleased(s.m, t, s'.m, u); } else { ClientKeepsOwner(s, t, s'); }
  }

  /** m_notified stays true until the service thread itself, outside the wait set, clears it. */
  lemma NotifiedStays(s: Service, t: Tid, s': Service)
    requires Inv(s) && Step(s, t, s') && s.notified && !s'.notified
    ensures t == s.svc && (s.cl[t] == Body(Await) || s.cl[t] == Suspended) && !InWaitSet(s)
  {
    assert Link(s.cl[t], s.m.th[t]) && (ServiceOnly(s.cl[t]) ==> t == s.svc);
  }

  lemma StepWakeFacts(s: Service, t: Tid, s': Service, u: Tid)
    requires Inv(s) && Step(s, t, s')
    ensures WakeFacts(s, s', u)
  {
    SameService(s, t, s');
    if u == t && BeforeWake(s.cl[t]) { WakeStep(s, t, s'); }
    if s.m.owner == By(u) { OwnerReleased(s, t, s', u); }
    if s.notified && !s'.notified { NotifiedStays(s, t, s'); }
  }

  ghost predicate AllWakeFacts(ss: seq<Service>, u: Tid) {
    forall i :: 0 <= i < |ss| - 1 ==> WakeFacts(ss[i], ss[i + 1], u)
  }

  lemma RunWakeFacts(ss: seq<Service>, ts: seq<Tid>, u: Tid)
    requires IsRun(ss, ts)
    ensures AllWakeFacts(ss, u)
  {
    forall i | 0 <= i < |ss| - 1 ensures WakeFacts(ss[i], ss[i + 1], u) {
      RunInv(ss, ts, i);
      StepWakeFacts(ss[i], ts[i], ss[i + 1], u);
    }
  }

  lemma {:induction false} FirstMarked(ss: seq<Service>, i: nat, n: nat, u: Tid) returns (j: nat)
    requires AllWakeFacts(ss, u) && i <= n < |ss| && u in ss[i].cl && BeforeWake(ss[i].cl[u])
    requires u in ss[n].cl && !BeforeWake(ss[n].cl[u])
    ensures i < j <= n && Marked(ss[j], u)
    decreases n - i
  {
    assert WakeFacts(ss[i], ss[i + 1], u);
    if BeforeWake(ss[i + 1].cl[u]) { j := FirstMarked(ss, i + 1, n, u); } else { j := i + 1; }
  }

  lemma {:induction false} FirstReleased(ss: seq<Service>, j: nat, n: nat, u: Tid) returns (m: nat)
    requires AllWakeFacts(ss, u) && j <= n < |ss| && ss[j].m.owner == By(u) && ss[n].m.owner != By(u)
    ensures j < m <= n && ss[m].m.owner == Free
    decreases n - j
  {
    assert WakeFacts(ss[j], ss[j + 1], u);
    if ss[j + 1].m.owner == By(u) { m := FirstReleased(ss, j + 1, n, u); } else { m := j + 1; }
  }

  lemma {:induction false} StaysMarked(ss: seq<Service>, j: nat, m: nat, u: Tid)
    requires AllWakeFacts(ss, u) && j <= m < |ss| && ss[j].notified && forall k :: j <= k <= m ==> InWaitSet(ss[k])
    ensures ss[m].notified
    decreases m
  {
    if j < m {
      StaysMarked(ss, j, m - 1, u);
      assert WakeFacts(ss[m - 1], ss[m - 1 + 1], u);
    }
  }

  /** Thread `u` enters `wakeup` in state `i` and is back in state `n`. */
  ghost predicate WakeupCall(ss: seq<Service>, i: nat, n: nat, u: Tid) {
    i < n < |ss| && u in ss[i].cl && ss[i].cl[u] == Locking(Wake) && u in ss[n].cl && ss[n].cl[u] == Out
  }

  /** Every `wakeup` call has m_notified true at some moment while it owns the monitor. */
  lemma WakeupMarks(ss: seq<Service>, ts: seq<Tid>, i: nat, n: nat, u: Tid) returns (j: nat)
    requires IsRun(ss, ts) && WakeupCall(ss, i, n, u)
    ensures i < j <= n && Marked(ss[j], u)
  {
    RunWakeFacts(ss, ts, u);
    j := FirstMarked(ss, i, n, u);
  }

  /** A service thread in the wait set when `wakeup` is entered has left it at some moment before `wakeup` is back. */
  lemma WakeupWakes(ss: seq<Service>, ts: seq<Tid>, i: nat, n: nat, u: Tid)
    requires IsRun(ss, ts) && WakeupCall(ss, i, n, u)
    ensures exists m :: i <= m <= n && !InWaitSet(ss[m])
  {
    var j := WakeupMarks(ss, ts, i, n, u);
    RunWakeFacts(ss, ts, u);
    OutNotOwner(ss, ts, n, u);
    var m := FirstReleased(ss, j, n, u);
    NoLostWakeup(ss, ts, m);
    if forall k :: j <= k <= m ==> InWaitSet(ss[k]) { StaysMarked(ss, j, m, u); }
  }

  lemma OutNotOwner(ss: seq<Service>, ts: seq<Tid>, n: nat, u: Tid)
    requires IsRun(ss, ts) && n < |ss| && u in ss[n].cl && ss[n].cl[u] == Out
    ensures ss[n].m.owner != By(u)
  {
    RunInv(ss, ts, n);
    assert Link(ss[n].cl[u], ss[n].m.th[u]);
    OutsideOwnsNot(ss[n], u);
  }

  /** `stop` sets m_stoped, for good, and then calls `wakeup`. */
  lemma StopWakes(s: Service, t: Tid, s': Service)
    requires Inv(s) && Step(s, t, s')
    ensures s.stopped ==> s'.stopped
    ensures t in s'.cl && s'.cl[t] == Stopped && s.cl[t] != Stopped ==> s'.stopped
    ensures t in s'.cl && s.cl[t] == Stopped ==> s'.cl[t] == Locking(Wake)
  {
    assert Link(s.cl[t], s.m.th[t]);
  }

  // ---------- waitForRunning ----------

  predicate BeforeAwait(c: Client) { c == Locking(Await) || c == Body(Await) }

  /** On the way out of the monitor. */
  predicate Leaving(c: Client) { c.UnCheck? || c.UnSignal? || c.Unlocking? || c.Out? }

  /** What a step does to a `waitForRunning` call. */
  ghost predicate AwaitFacts(s: Service, t: Tid, s': Service) {
    && s'.svc == s.svc && s.svc in s.cl && s.svc in s'.cl && s.svc in s.m.th && s.svc in s'.m.th
    && var (c, c') := (s.cl[s.svc], s'.cl[s.svc]);
    && (BeforeAwait(c) || Leaving(c) ==> !InWaitSet(s))
    && (BeforeAwait(c) ==> BeforeAwait(c') || LooksAt(s, t, s'))
    && (Leaving(c) && c != Out ==> Leaving(c'))
    && (GoingToWait(c, s.m.th[s.svc].at) ==> GoingToWait(c', s'.m.th[s.svc].at) || InWaitSet(s'))
  }

  /** The step that looks at m_notified: it clears a true one and leaves, or goes on to wait. */
  ghost predicate LooksAt(s: Service, t: Tid, s': Service) {
    && t == s.svc && s.svc in s.cl && s.svc in s'.cl && s.svc in s'.m.th && s.cl[s.svc] == Body(Await)
    && if s.notified then Leaving(s'.cl[s.svc]) && s'.cl[s.svc] != Out && !s'.notified
       else GoingToWait(s'.cl[s.svc], s'.m.th[s.svc].at)
  }

  lemma MutexLeavesOthers(m: M.State, t: Tid, m': M.State, u: Tid)
    requires M.Step(m, t, m') && u in m.th && u != t
    ensures u in m'.th && m'.th[u] == m.th[u]
  {
  }

  /** A step of the program code of `t` leaves the mutex state of the others, but for a signalled waiter. */
  lemma ClientLeavesOthers(s: Service, t: Tid, s': Service, u: Tid)
    requires ClientStep(s, t, s') && u in s.m.th && u != t
    ensures u in s'.m.th && (s'.m.th[u].at == s.m.th[u].at || s.m.th[u].at.CvWait?)
  {
    if (s.cl[t].WaitSignal? || s.cl[t].UnSignal?) && s.cl[t].k > 0 { SignalLeavesOthers(s.m, s'.m, u); }
  }

  lemma SignalLeavesOthers(m: M.State, m': M.State, u: Tid)
    requires Signalled(m, m') && u in m.th
    ensures u in m'.th && (m'.th[u].at == m.th[u].at || m.th[u].at.CvWait?)
  {
  }

  lemma OthersLeaveService(s: Service, t: Tid, s': Service)
    requires s.m.th.Keys == s.cl.Keys && s.svc in s.m.th && Step(s, t, s') && t != s.svc
    ensures s.svc in s'.m.th && (s'.m.th[s.svc].at == s.m.th[s.svc].at || s.m.th[s.svc].at.CvWait?)
  {
    if MutexStep(s, t, s') { MutexLeavesOthers(s.m, t, s'.m, s.svc); } else { ClientLeavesOthers(s, t, s', s.svc); }
  }

  lemma ServiceOwnMutexStep(s: Service, s': Service)
    requires Inv(s) && MutexStep(s, s.svc, s')
    ensures AwaitFacts(s, s.svc, s')
  {
    var c, h := s.cl[s.svc], s.m.th[s.svc];
    assert Link(c, h) && M.ThreadOk(s.m, s.svc);
    LinkMutexStep(c, s.m, s.svc, s'.m);
  }

  /** What its own program step makes of the service thread. */
  lemma OwnLooks(s: Service, s': Service)
    requires s.svc in s.cl && ClientStep(s, s.svc, s') && BeforeAwait(s.cl[s.svc])
    ensures s.svc in s'.cl && (BeforeAwait(s'.cl[s.svc]) || LooksAt(s, s.svc, s'))
  {
  }

  lemma OwnLeaves(s: Service, s': Service)
    requires s.svc in s.cl && ClientStep(s, s.svc, s') && Leaving(s.cl[s.svc]) && s.cl[s.svc] != Out
    ensures s.svc in s'.cl && Leaving(s'.cl[s.svc])
  {
  }

  lemma OwnGoes(s: Service, s': Service)
    requires s.svc in s.cl && ClientStep(s, s.svc, s') && GoingToWait(s.cl[s.svc], s.m.th[s.svc].at)
    ensures s.svc in s'.cl && s.svc in s'.m.th && GoingToWait(s'.cl[s.svc], s'.m.th[s.svc].at)
  {
    if s.cl[s.svc].WaitSignal? && s.cl[s.svc].k > 0 { SignalLeavesOthers(s.m, s'.m, s.svc); }
  }

  lemma OwnStays(s: Service, s': Service)
    requires s.svc in s.cl && ClientStep(s, s.svc, s')
    ensures s'.svc == s.svc && s.svc in s'.cl && s.svc in s'.m.th
  {
    if (s.cl[s.svc].WaitSignal? || s.cl[s.svc].UnSignal?) && s.cl[s.svc].k > 0 { SignalLeavesOthers(s.m, s'.m, s.svc); }
  }

  lemma ServiceOwnClientStep(s: Service, s': Service)
    requires s.svc in s.cl && ClientStep(s, s.svc, s')
    ensures AwaitFacts(s, s.svc, s')
  {
    var c := s.cl[s.svc];
    OwnStays(s, s');
    if BeforeAwait(c) { OwnLooks(s, s'); }
    if Leaving(c) && c != Out { OwnLeaves(s, s'); }
    if GoingToWait(c, s.m.th[s.svc].at) { OwnGoes(s, s'); }
  }

  lemma StepAwaitFacts(s: Service, t: Tid, s': Service)
    requires Inv(s) && Step(s, t, s')
    ensures AwaitFacts(s, t, s')
  {
    SameService(s, t, s');
    if t != s.svc {
      assert Link(s.cl[s.svc], s.m.th[s.svc]);
      OthersLeaveService(s, t, s');
    } else if MutexStep(s, t, s') {
      ServiceOwnMutexStep(s, s');
    } else {
      ServiceOwnClientStep(s, s');
    }
  }

  ghost predicate AllAwaitFacts(ss: seq<Service>, ts: seq<Tid>) {
    |ss| == |ts| + 1 && forall i {:trigger ts[i]} :: 0 <= i < |ts| ==> AwaitFacts(ss[i], ts[i], ss[i + 1])
  }

  lemma RunAwaitFacts(ss: seq<Service>, ts: seq<Tid>)
    requires IsRun(ss, ts)
    ensures AllAwaitFacts(ss, ts)
  {
    forall i | 0 <= i < |ts| ensures AwaitFacts(ss[i], ts[i], ss[i + 1]) {
      RunInv(ss, ts, i);
      StepAwaitFacts(ss[i], ts[i], ss[i + 1]);
    }
  }

  /** The service thread enters `waitForRunning` in state `i` and is back, for the first time, in state `n`. */
  ghost predicate AwaitCall(ss: seq<Service>, i: nat, n: nat) {
    && i < n < |ss| && (forall k :: i <= k <= n ==> ss[k].svc in ss[k].cl)
    && BeforeAwait(ss[i].cl[ss[i].svc]) && ss[n].cl[ss[n].svc] == Out
    && forall k :: i <= k < n ==> ss[k].cl[ss[k].svc] != Out
  }

  /** The step of the call that looks at m_notified, with no waiting before it. */
  lemma {:induction false} FirstLook(ss: seq<Service>, ts: seq<Tid>, i: nat, n: nat) returns (b: nat)
    requires AllAwaitFacts(ss, ts) && AwaitCall(ss, i, n)
    ensures i <= b < n && LooksAt(ss[b], ts[b], ss[b + 1]) && forall k :: i <= k <= b ==> !InWaitSet(ss[k])
    decreases n - i
  {
    assert AwaitFacts(ss[i], ts[i], ss[i + 1]);
    if BeforeAwait(ss[i + 1].cl[ss[i + 1].svc]) { b := FirstLook(ss, ts, i + 1, n); } else { b := i; }
  }

  lemma {:induction false} LeavesWithoutWait(ss: seq<Service>, ts: seq<Tid>, b: nat, n: nat, k: nat)
    requires AllAwaitFacts(ss, ts) && b <= k <= n < |ss| && (forall m :: b <= m <= n ==> ss[m].svc in ss[m].cl)
    requires Leaving(ss[b].cl[ss[b].svc]) && ss[n].cl[ss[n].svc] == Out && forall m :: b <= m < n ==> ss[m].cl[ss[m].svc] != Out
    ensures Leaving(ss[k].cl[ss[k].svc]) && (k < n ==> !InWaitSet(ss[k]))
    decreases k
  {
    if b < k {
      LeavesWithoutWait(ss, ts, b, n, k - 1);
      assert AwaitFacts(ss[k - 1], ts[k - 1], ss[k]);
    }
    if k < n { assert AwaitFacts(ss[k], ts[k], ss[k + 1]); }
  }

  lemma {:induction false} GoesToWait(ss: seq<Service>, ts: seq<Tid>, b: nat, n: nat) returns (m: nat)
    requires AllAwaitFacts(ss, ts) && b <= n < |ss| && ss[b].svc in ss[b].cl && ss[b].svc in ss[b].m.th
    requires GoingToWait(ss[b].cl[ss[b].svc], ss[b].m.th[ss[b].svc].at) && ss[n].svc in ss[n].cl && ss[n].cl[ss[n].svc] == Out
    ensures b < m <= n && InWaitSet(ss[m])
    decreases n - b
  {
    assert AwaitFacts(ss[b], ts[b], ss[b + 1]);
    if InWaitSet(ss[b + 1]) { m := b + 1; } else { m := GoesToWait(ss, ts, b + 1, n); }
  }

  /**
   A `waitForRunning` call that looks at m_notified by step `b` waits exactly when it finds it false; when
   it finds it true it clears it and returns without ever being in the wait set.
   */
  lemma AwaitExact(ss: seq<Service>, ts: seq<Tid>, i: nat, n: nat) returns (b: nat)
    requires IsRun(ss, ts) && AwaitCall(ss, i, n)
    ensures i <= b < n && ts[b] == ss[b].svc && ss[b].svc in ss[b].cl && ss[b].cl[ss[b].svc] == Body(Await)
    ensures ss[b].notified ==> !ss[b + 1].notified
    ensures ss[b].notified <==> forall k :: i <= k <= n ==> !InWaitSet(ss[k])
  {
    RunAwaitFacts(ss, ts);
    b := FirstLook(ss, ts, i, n);
    if ss[b].notified {
      forall k | i <= k <= n ensures !InWaitSet(ss[k]) {
        if b < k < n { LeavesWithoutWait(ss, ts, b + 1, n, k); }
        if k == n {
          RunInv(ss, ts, n);
          assert Link(ss[n].cl[ss[n].svc], ss[n].m.th[ss[n].svc]);
        }
      }
    } else {
      var m := GoesToWait(ss, ts, b + 1, n);
    }
  }
}
