/**
 The timed re-entrant lock built from one plain mutex and one condition variable.

 Any number of threads lock and unlock; only a thread that holds the lock unlocks it.  Every step is
 one operation on `m_mutex`, one look at the fields under it, one step of the condition wait, or the
 unprotected read of `m_bIsLock` that `Unlock` makes after releasing the mutex.  Waits may time out or
 wake spuriously at any moment.  `depth` is a history: Lock calls that returned true minus Unlock calls made.
 */
module ToMutex {
  import opened Basics

  datatype At =
    | User
    // Lock
    | LLock                      // about to lock m_mutex
    | LTest(woken: bool)         // about to test m_bIsLock; `woken` after a signalled wait
    | LWaitCall                  // about to wait on the condition
    | LWait                      // in the wait set, not signalled
    | LWoken(ok: bool)           // left the wait set, by a signal or by a timeout; about to relock m_mutex
    | LBack(ok: bool)            // has m_mutex again
    | LUnlock(ret: bool)         // about to unlock m_mutex and return
    // Unlock
    | ULock
    | UDec                       // about to decrement m_iCounts
    | UUnlock                    // about to unlock m_mutex
    | UCheck                     // about to read m_bIsLock, outside the mutex
    | UNotify                    // about to signal the condition

  datatype Thread = Thread(at: At, depth: nat)

  datatype State = State(mutex: Holder, isLock: bool, tid: Holder, counts: int, th: map<Tid, Thread>)

  ghost predicate Init(s: State) {
    && s.mutex == Free && !s.isLock && s.counts == 0
    && forall t :: t in s.th ==> s.th[t] == Thread(User, 0)
  }

  function Goto(s: State, t: Tid, l: At): State
    requires t in s.th
  {
    s.(th := s.th[t := s.th[t].(at := l)])
  }

  function Take(s: State, t: Tid): State
    requires t in s.th
  {
    Goto(s, t, LUnlock(true)).(isLock := true, counts := 1, tid := By(t))
  }

  predicate IsWaiting(h: Thread) { h.at.LWait? }

  ghost predicate Step(s: State, t: Tid, s': State) {
    t in s.th &&
    var d := s.th[t].depth;
    match s.th[t].at
    case User =>
      || s' == Goto(s, t, LLock)
      || (d > 0 && s' == s.(th := s.th[t := Thread(ULock, d - 1)]))
    case LLock => s.mutex == Free && s' == Goto(s, t, LTest(false)).(mutex := By(t))
    case LTest(_) =>
      if !s.isLock then s' == Take(s, t)
      else if s.tid == By(t) then s' == Goto(s, t, LUnlock(true)).(counts := s.counts + 1)
      else s' == Goto(s, t, LWaitCall)
    case LWaitCall => s' == Goto(s, t, LWait).(mutex := Free)
    case LWait => s' == Goto(s, t, LWoken(true)) || s' == Goto(s, t, LWoken(false))
    case LWoken(ok) => s.mutex == Free && s' == Goto(s, t, LBack(ok)).(mutex := By(t))
    case LBack(ok) =>
      if ok then s' == Goto(s, t, LTest(true))
      else if s.isLock then s' == Goto(s, t, LUnlock(false))
      else s' == Take(s, t)
    case LUnlock(ret) => s' == s.(th := s.th[t := Thread(User, if ret then d + 1 else d)], mutex := Free)
    case ULock => s.mutex == Free && s' == Goto(s, t, UDec).(mutex := By(t))
    case UDec => s' == Goto(s, t, UUnlock).(counts := s.counts - 1, isLock := s.isLock && s.counts - 1 > 0)
    case UUnlock => s' == Goto(s, t, UCheck).(mutex := Free)
    case UCheck => s' == Goto(s, t, if s.isLock then User else UNotify)
    case UNotify =>
      if exists u :: u in s.th && IsWaiting(s.th[u])
      then exists u :: u in s.th && IsWaiting(s.th[u]) && s' == Goto(Goto(s, t, User), u, LWoken(true))
      else s' == Goto(s, t, User)
  }

  // ---------- the invariant ----------

  predicate HoldsMutex(l: At) {
    l.LTest? || l.LWaitCall? || l.LBack? || l.LUnlock? || l.UDec? || l.UUnlock?
  }

  /** What m_iCounts must be while this thread holds the lock; 0 when it does not. */
  function Owned(h: Thread): nat {
    match h.at
    case LUnlock(ret) => if ret then h.depth + 1 else h.depth
    case ULock => h.depth + 1
    case UDec => h.depth + 1
    case _ => h.depth
  }

  predicate LocalOk(h: Thread) {
    h.at.LWaitCall? || h.at.LWait? || h.at.LWoken? || h.at.LBack? || h.at == LUnlock(false) ==> h.depth == 0
  }

  ghost predicate ThreadOk(s: State, t: Tid)
    requires t in s.th
  {
    && LocalOk(s.th[t])
    && (HoldsMutex(s.th[t].at) <==> s.mutex == By(t))
    && (Owned(s.th[t]) > 0 <==> s.isLock && s.tid == By(t))
    && (s.isLock && s.tid == By(t) ==> s.counts == Owned(s.th[t]))
    && (s.th[t].at.LWaitCall? || s.th[t].at == LUnlock(false) ==> s.isLock)
  }

  /** Will still look for waiters, or is a signalled waiter on its way to the lock. */
  predicate HandsOff(h: Thread) {
    || h.at.UUnlock? || h.at.UCheck? || h.at.UNotify?
    || h.at == LWoken(true) || h.at == LBack(true) || h.at == LTest(true)
  }

  ghost predicate HandOff(s: State) {
    !s.isLock && (exists u :: u in s.th && IsWaiting(s.th[u])) ==> exists v :: v in s.th && HandsOff(s.th[v])
  }

  ghost predicate Inv(s: State) {
    && (forall t :: t in s.th ==> ThreadOk(s, t))
    && (s.isLock ==> s.tid.By? && s.tid.t in s.th)
    && (!s.isLock ==> s.counts == 0)
    && HandOff(s)
  }

  /** A step of `t` leaves every other thread's view alone, but for a waiter that it may signal. */
  lemma OthersOk(s: State, t: Tid, s': State, u: Tid)
    requires Ready(s, t) && Step(s, t, s') && u in s.th && u != t && ThreadOk(s, u)
    ensures u in s'.th && ThreadOk(s', u)
  {
    if s.th[t].at.UNotify? { SignalledOk(s, t, s', u); } else { UnsignalledOk(s, t, s', u); }
  }

  lemma SignalledOk(s: State, t: Tid, s': State, u: Tid)
    requires Ready(s, t) && Step(s, t, s') && u in s.th && u != t && ThreadOk(s, u) && s.th[t].at.UNotify?
    ensures u in s'.th && ThreadOk(s', u)
  {
  }

  lemma UnsignalledOk(s: State, t: Tid, s': State, u: Tid)
    requires Ready(s, t) && Step(s, t, s') && u in s.th && u != t && ThreadOk(s, u) && !s.th[t].at.UNotify?
    ensures u in s'.th && ThreadOk(s', u)
  {
  }

  ghost predicate Ready(s: State, t: Tid) {
    && t in s.th && ThreadOk(s, t)
    && (s.isLock ==> s.tid.By? && s.tid.t in s.th)
    && (!s.isLock ==> s.counts == 0)
  }

  lemma LockStepOk(s: State, t: Tid, s': State)
    requires Ready(s, t) && Step(s, t, s')
    requires var l := s.th[t].at; l.LLock? || l.LTest? || l.LBack? || l.LUnlock?
    ensures Ready(s', t)
  {
  }

  lemma WaitStepOk(s: State, t: Tid, s': State)
    requires Ready(s, t) && Step(s, t, s')
    requires var l := s.th[t].at; l.LWaitCall? || l.LWait? || l.LWoken?
    ensures Ready(s', t)
  {
  }

  lemma UnlockStepOk(s: State, t: Tid, s': State)
    requires Ready(s, t) && Step(s, t, s')
    requires var l := s.th[t].at; l.User? || l.ULock? || l.UDec? || l.UUnlock? || l.UCheck?
    ensures Ready(s', t)
  {
  }

  lemma NotifyStepOk(s: State, t: Tid, s': State)
    requires Ready(s, t) && Step(s, t, s') && s.th[t].at.UNotify?
    ensures Ready(s', t) && s' == s.(th := s'.th) && s'.th.Keys == s.th.Keys
    ensures (exists u :: u in s.th && IsWaiting(s.th[u])) ==> exists v :: v in s'.th && HandsOff(s'.th[v])
  {
    if exists u :: u in s.th && IsWaiting(s.th[u]) {
      var u :| u in s.th && IsWaiting(s.th[u]) && s' == Goto(Goto(s, t, User), u, LWoken(true));
      assert HandsOff(s'.th[u]);
    }
  }

  lemma SelfOk(s: State, t: Tid, s': State)
    requires Ready(s, t) && Step(s, t, s')
    ensures Ready(s', t)
  {
    var l := s.th[t].at;
    if l.LLock? || l.LTest? || l.LBack? || l.LUnlock? { LockStepOk(s, t, s'); }
    else if l.LWaitCall? || l.LWait? || l.LWoken? { WaitStepOk(s, t, s'); }
    else if l.UNotify? { NotifyStepOk(s, t, s'); }
    else { UnlockStepOk(s, t, s'); }
  }

  /** What a step other than a signal does to the hand-off. */
  lemma QuietStep(s: State, t: Tid, s': State)
    requires t in s.th && ThreadOk(s, t) && Step(s, t, s') && !s.th[t].at.UNotify? && !s'.isLock
    ensures s'.th == s.th[t := s'.th[t]]
    ensures HandsOff(s'.th[t]) || (!s.isLock && !HandsOff(s.th[t]) && !IsWaiting(s'.th[t]))
  {
  }

  lemma KeepHandOff(s: State, t: Tid, s': State)
    requires HandOff(s) && t in s.th && t in s'.th && s'.th == s.th[t := s'.th[t]]
    requires HandsOff(s'.th[t]) || (!s.isLock && !HandsOff(s.th[t]) && !IsWaiting(s'.th[t]))
    ensures HandOff(s')
  {
    if !HandsOff(s'.th[t]) && exists u :: u in s'.th && IsWaiting(s'.th[u]) {
      var u :| u in s'.th && IsWaiting(s'.th[u]);
      assert u in s.th && IsWaiting(s.th[u]);
      var v :| v in s.th && HandsOff(s.th[v]);
      assert v in s'.th && HandsOff(s'.th[v]);
    }
  }

  lemma NotifyHandOff(s: State, t: Tid, s': State)
    requires Ready(s, t) && Step(s, t, s') && s.th[t].at.UNotify?
    ensures HandOff(s')
  {
    if exists u :: u in s.th && IsWaiting(s.th[u]) {
      NotifyStepOk(s, t, s');
    } else {
      assert forall u :: u in s'.th ==> !IsWaiting(s'.th[u]);
    }
  }

  lemma StepHandOff(s: State, t: Tid, s': State)
    requires Ready(s, t) && HandOff(s) && Step(s, t, s')
    ensures HandOff(s')
  {
    if s.th[t].at.UNotify? {
      NotifyHandOff(s, t, s');
    } else if !s'.isLock {
      QuietStep(s, t, s');
      KeepHandOff(s, t, s');
    }
  }

  /** Every step keeps the invariant. */
  lemma StepInv(s: State, t: Tid, s': State)
    requires Inv(s) && Step(s, t, s')
    ensures Inv(s')
  {
    SelfOk(s, t, s');
    StepHandOff(s, t, s');
    forall u | u in s'.th && u != t ensures ThreadOk(s', u) { OthersOk(s, t, s', u); }
  }

  // ---------- runs ----------

  ghost predicate IsRun(ss: seq<State>, ts: seq<Tid>) {
    && |ss| == |ts| + 1
    && Init(ss[0])
    && forall i :: 0 <= i < |ts| ==> Step(ss[i], ts[i], ss[i + 1])
  }

  lemma {:induction false} RunInv(ss: seq<State>, ts: seq<Tid>, n: nat)
    requires IsRun(ss, ts) && n < |ss|
    ensures Inv(ss[n])
  {
    if n > 0 {
      RunInv(ss, ts, n - 1);
      StepInv(ss[n - 1], ts[n - 1], ss[n]);
    }
  }

  /** One holder at a time, and m_iCounts is its nesting depth. */
  lemma MutualExclusion(ss: seq<State>, ts: seq<Tid>, n: nat, t: Tid)
    requires IsRun(ss, ts) && n < |ss| && t in ss[n].th && ss[n].th[t].at.User? && ss[n].th[t].depth > 0
    ensures ss[n].isLock && ss[n].tid == By(t) && ss[n].counts == ss[n].th[t].depth
    ensures forall u :: u in ss[n].th && u != t ==> ss[n].th[u].depth == 0
  {
    RunInv(ss, ts, n);
    assert ThreadOk(ss[n], t);
    forall u | u in ss[n].th && u != t ensures ss[n].th[u].depth == 0 { assert ThreadOk(ss[n], u); }
  }

  /** A Lock call about to return true holds the lock; one about to return false left it with somebody else. */
  lemma LockResult(ss: seq<State>, ts: seq<Tid>, n: nat, t: Tid)
    requires IsRun(ss, ts) && n < |ss| && t in ss[n].th && ss[n].th[t].at.LUnlock?
    ensures ss[n].th[t].at.ret ==> ss[n].isLock && ss[n].tid == By(t) && ss[n].counts == ss[n].th[t].depth + 1
    ensures !ss[n].th[t].at.ret ==> ss[n].th[t].depth == 0 && ss[n].isLock && ss[n].tid.By? && ss[n].tid != By(t)
  {
    RunInv(ss, ts, n);
    assert ThreadOk(ss[n], t);
  }

  /**
   No lost hand-off, although Unlock reads m_bIsLock outside the mutex: if the lock is free and a
   waiter is unsignalled, some releaser has not passed its notification yet or a signalled waiter is
   on its way to the lock.
   */
  lemma NoLostHandOff(ss: seq<State>, ts: seq<Tid>, n: nat, u: Tid)
    requires IsRun(ss, ts) && n < |ss| && !ss[n].isLock && u in ss[n].th && ss[n].th[u].at.LWait?
    ensures exists v :: v in ss[n].th && HandsOff(ss[n].th[v])
  {
    RunInv(ss, ts, n);
    assert IsWaiting(ss[n].th[u]);
  }
}
