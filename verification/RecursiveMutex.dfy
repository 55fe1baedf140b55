/**
 The recursive mutex built from two plain mutexes, together with the condition wait that resets it
 and locks it again to the old depth.  POSIX branch: every step is one operation on `m_mutex` or
 `m_internal`, one access to `m_count` and `m_owner` under `m_internal`, or one step of
 `pthread_cond_wait`, which releases the mutex and joins the wait set atomically and may wake at any time.

 `depth` is a history: the nesting the program has reached, counting returned calls of Lock, TryLock
 and Unlock.  No step reads it, except that a program unlocks and waits only while it is positive.
 */
module RecursiveMutex {
  import opened Basics

  datatype At =
    | User(rc: bool)                                   // in program code; the last call returned rc
    // lock(n); `relock` when called by the helper destructor after a condition wait
    | LkInternal(n: nat, relock: bool)                 // about to lock m_internal
    | LkTest(n: nat, relock: bool)                     // about to look at m_count and m_owner
    | LkMutex(n: nat, relock: bool)                    // claimed the count, about to lock m_mutex
    | LkLeave(n: nat, relock: bool, obtained: bool, rc: bool)  // about to unlock m_internal
    | LkWait(n: nat, relock: bool)                     // not obtained, about to lock m_mutex
    | LkPass(n: nat, relock: bool)                     // about to unlock m_mutex and try again
    // tryLock
    | TrInternal | TrTest | TrMutex | TrLeave(obtained: bool)
    // unlock
    | UnInternal | UnCount | UnFree | UnLeave(rc: bool)
    // GetOwner
    | GoInternal | GoRead | GoLeave(rc: bool)
    // reset4Condvar, then pthread_cond_wait, then the helper destructor
    | RsInternal | RsReset | RsLeave(n: nat)
    | CvBlock(n: nat) | CvWait(n: nat) | CvLock(n: nat) | CvUnlock(n: nat)

  datatype Thread = Thread(at: At, depth: nat)

  datatype State = State(mutex: Holder, internal: Holder, count: nat, owner: Holder, th: map<Tid, Thread>)

  ghost predicate Init(s: State) {
    && s.mutex == s.internal == s.owner == Free && s.count == 0
    && forall t :: t in s.th ==> s.th[t].at.User? && s.th[t].depth == 0
  }

  function Goto(s: State, t: Tid, l: At): State
    requires t in s.th
  {
    s.(th := s.th[t := s.th[t].(at := l)])
  }

  function Return(s: State, t: Tid, l: At, d: nat): State {
    s.(th := s.th[t := Thread(l, d)])
  }

  /** The calls a program may make: unlocking and waiting only while it holds the mutex. */
  predicate MayCall(l: At, d: nat) {
    || l == LkInternal(1, false) || l == TrInternal || l == GoInternal
    || (d > 0 && (l == UnInternal || l == RsInternal))
  }

  ghost predicate Step(s: State, t: Tid, s': State) {
    t in s.th &&
    var d := s.th[t].depth;
    match s.th[t].at
    case User(_) => t in s'.th && MayCall(s'.th[t].at, d) && s' == Goto(s, t, s'.th[t].at)
    case LkInternal(n, r) => s.internal == Free && s' == Goto(s, t, LkTest(n, r)).(internal := By(t))
    case LkTest(n, r) =>
      if s.count == 0 then s' == Goto(s, t, LkMutex(n, r)).(count := n, owner := By(t))
      else if s.owner == By(t) then s' == Goto(s, t, LkLeave(n, r, true, false)).(count := s.count + n)
      else s' == Goto(s, t, LkLeave(n, r, false, false))
    case LkMutex(n, r) => s.mutex == Free && s' == Goto(s, t, LkLeave(n, r, true, true)).(mutex := By(t))
    case LkLeave(n, r, obtained, rc) =>
      if obtained then s' == Return(s, t, User(rc), if r then d else d + n).(internal := Free)
      else s' == Goto(s, t, LkWait(n, r)).(internal := Free)
    case LkWait(n, r) => s.mutex == Free && s' == Goto(s, t, LkPass(n, r)).(mutex := By(t))
    case LkPass(n, r) => s' == Goto(s, t, LkInternal(n, r)).(mutex := Free)
    case TrInternal => s.internal == Free && s' == Goto(s, t, TrTest).(internal := By(t))
    case TrTest =>
      if s.count == 0 then s' == Goto(s, t, TrMutex).(count := 1, owner := By(t))
      else if s.owner == By(t) then s' == Goto(s, t, TrLeave(true)).(count := s.count + 1)
      else s' == Goto(s, t, TrLeave(false))
    case TrMutex => s.mutex == Free && s' == Goto(s, t, TrLeave(true)).(mutex := By(t))
    case TrLeave(obtained) => s' == Return(s, t, User(obtained), if obtained then d + 1 else d).(internal := Free)
    case UnInternal => s.internal == Free && s' == Goto(s, t, UnCount).(internal := By(t))
    case UnCount =>
      s.count > 0 &&
      if s.count == 1 then s' == Goto(s, t, UnFree).(count := 0, owner := Free)
      else s' == Goto(s, t, UnLeave(false)).(count := s.count - 1)
    case UnFree => s' == Goto(s, t, UnLeave(true)).(mutex := Free)
    case UnLeave(rc) => d > 0 && s' == Return(s, t, User(rc), d - 1).(internal := Free)
    case GoInternal => s.internal == Free && s' == Goto(s, t, GoRead).(internal := By(t))
    case GoRead => s' == Goto(s, t, GoLeave(s.count > 0 && s.owner == By(t)))
    case GoLeave(rc) => s' == Goto(s, t, User(rc)).(internal := Free)
    case RsInternal => s.internal == Free && s' == Goto(s, t, RsReset).(internal := By(t))
    case RsReset => s' == Goto(s, t, RsLeave(s.count)).(count := 0, owner := Free)
    case RsLeave(n) => s' == Goto(s, t, CvBlock(n)).(internal := Free)
    case CvBlock(n) => s' == Goto(s, t, CvWait(n)).(mutex := Free)
    case CvWait(n) => s' == Goto(s, t, CvLock(n))
    case CvLock(n) => s.mutex == Free && s' == Goto(s, t, CvUnlock(n)).(mutex := By(t))
    case CvUnlock(n) => s' == Goto(s, t, LkInternal(n, true)).(mutex := Free)
  }

  // ---------- what each location means ----------

  predicate HoldsInternal(l: At) {
    || l.LkTest? || l.LkMutex? || l.LkLeave? || l.TrTest? || l.TrMutex? || l.TrLeave?
    || l.UnCount? || l.UnFree? || l.UnLeave? || l.GoRead? || l.GoLeave? || l.RsReset? || l.RsLeave?
  }

  /** What m_count must be while this thread is the owner; 0 when it is not. */
  function Owned(h: Thread): nat {
    match h.at
    case LkInternal(_, r) => if r then 0 else h.depth
    case LkTest(_, r) => if r then 0 else h.depth
    case LkMutex(n, _) => n
    case LkLeave(n, r, obtained, _) => if obtained then (if r then n else h.depth + n) else 0
    case LkWait(_, _) => 0
    case LkPass(_, _) => 0
    case TrMutex => 1
    case TrLeave(obtained) => if obtained then h.depth + 1 else 0
    case UnFree => 0
    case UnLeave(rc) => if rc then 0 else if h.depth > 0 then h.depth - 1 else 0
    case RsLeave(_) => 0
    case CvBlock(_) => 0
    case CvWait(_) => 0
    case CvLock(_) => 0
    case CvUnlock(_) => 0
    case _ => h.depth
  }

  /** Has m_mutex locked. */
  predicate HoldsMutex(h: Thread) {
    match h.at
    case LkMutex(_, _) => false
    case LkPass(_, _) => true
    case TrMutex => false
    case UnFree => true
    case RsLeave(_) => true
    case CvBlock(_) => true
    case CvUnlock(_) => true
    case _ => Owned(h) > 0
  }

  predicate LocalOk(h: Thread) {
    var d := h.depth;
    match h.at
    case LkInternal(n, r) => if r then n == d > 0 else n == 1
    case LkTest(n, r) => if r then n == d > 0 else n == 1
    case LkMutex(n, r) => if r then n == d > 0 else n == 1 && d == 0
    case LkLeave(n, r, obtained, _) => if r then n == d > 0 else n == 1 && (!obtained ==> d == 0)
    case LkWait(n, r) => if r then n == d > 0 else n == 1 && d == 0
    case LkPass(n, r) => if r then n == d > 0 else n == 1 && d == 0
    case TrMutex => d == 0
    case TrLeave(obtained) => !obtained ==> d == 0
    case UnInternal => d > 0
    case UnCount => d > 0
    case UnFree => d == 1
    case UnLeave(rc) => if rc then d == 1 else d > 1
    case GoLeave(rc) => rc <==> d > 0
    case RsInternal => d > 0
    case RsReset => d > 0
    case RsLeave(n) => n == d > 0
    case CvBlock(n) => n == d > 0
    case CvWait(n) => n == d > 0
    case CvLock(n) => n == d > 0
    case CvUnlock(n) => n == d > 0
    case _ => true
  }

  ghost predicate ThreadOk(s: State, t: Tid)
    requires t in s.th
  {
    && LocalOk(s.th[t])
    && (HoldsInternal(s.th[t].at) <==> s.internal == By(t))
    && (HoldsMutex(s.th[t]) <==> s.mutex == By(t))
    && (Owned(s.th[t]) > 0 <==> s.owner == By(t))
    && (s.owner == By(t) ==> s.count == Owned(s.th[t]))
    && ((s.th[t].at.TrLeave? || s.th[t].at.LkLeave?) && !s.th[t].at.obtained ==> s.count > 0)
  }

  ghost predicate Inv(s: State) {
    && (forall t :: t in s.th ==> ThreadOk(s, t))
    && (s.count == 0 <==> s.owner == Free)
    && (s.owner.By? ==> s.owner.t in s.th)
    && (s.mutex.By? ==> s.mutex.t in s.th)
    && (s.internal.By? ==> s.internal.t in s.th)
  }

  lemma InitInv(s: State)
    requires Init(s)
    ensures Inv(s)
  {
  }

  /** A holder changed only between free and thread `t`. */
  predicate Mine(a: Holder, b: Holder, t: Tid) {
    a == b || ((a == Free || a == By(t)) && (b == Free || b == By(t)))
  }

  /** A step of `t` takes and gives up locks on its own behalf only. */
  ghost predicate Private(s: State, t: Tid, s': State) {
    && t in s.th && s'.th.Keys == s.th.Keys && (forall u :: u in s.th && u != t ==> s'.th[u] == s.th[u])
    && Mine(s.mutex, s'.mutex, t) && Mine(s.internal, s'.internal, t) && Mine(s.owner, s'.owner, t)
    && (s.owner.By? && s.owner != By(t) ==> s'.count == s.count)
    && (s'.count == 0 <==> s'.owner == Free)
  }

  /** What a thread needs to know to take its step. */
  ghost predicate Ready(s: State, t: Tid) {
    t in s.th && ThreadOk(s, t) && (s.count == 0 <==> s.owner == Free)
  }

  predicate InAcquire(l: At) { l.LkInternal? || l.LkTest? || l.LkMutex? }

  lemma AcquireStep(s: State, t: Tid, s': State)
    requires Ready(s, t) && Step(s, t, s') && InAcquire(s.th[t].at)
    ensures Private(s, t, s') && ThreadOk(s', t)
  {
  }

  predicate InRetry(l: At) { l.LkLeave? || l.LkWait? || l.LkPass? }

  lemma RetryStep(s: State, t: Tid, s': State)
    requires Ready(s, t) && Step(s, t, s') && InRetry(s.th[t].at)
    ensures Private(s, t, s') && ThreadOk(s', t)
  {
  }

  predicate InTry(l: At) { l.TrInternal? || l.TrTest? || l.TrMutex? || l.TrLeave? }

  lemma TryStep(s: State, t: Tid, s': State)
    requires Ready(s, t) && Step(s, t, s') && InTry(s.th[t].at)
    ensures Private(s, t, s') && ThreadOk(s', t)
  {
  }

  predicate InCall(l: At) { l.User? || l.GoInternal? || l.GoRead? || l.GoLeave? }

  lemma UserStep(s: State, t: Tid, s': State)
    requires Ready(s, t) && Step(s, t, s') && s.th[t].at.User?
    ensures Private(s, t, s') && ThreadOk(s', t)
  {
  }

  lemma GetOwnerStep(s: State, t: Tid, s': State)
    requires Ready(s, t) && Step(s, t, s') && (s.th[t].at.GoInternal? || s.th[t].at.GoRead? || s.th[t].at.GoLeave?)
    ensures Private(s, t, s') && ThreadOk(s', t)
  {
  }

  lemma CallStep(s: State, t: Tid, s': State)
    requires Ready(s, t) && Step(s, t, s') && InCall(s.th[t].at)
    ensures Private(s, t, s') && ThreadOk(s', t)
  {
    if s.th[t].at.User? { UserStep(s, t, s'); } else { GetOwnerStep(s, t, s'); }
  }

  predicate InUnlock(l: At) { l.UnInternal? || l.UnCount? || l.UnFree? || l.UnLeave? }

  lemma UnlockStep(s: State, t: Tid, s': State)
    requires Ready(s, t) && Step(s, t, s') && InUnlock(s.th[t].at)
    ensures Private(s, t, s') && ThreadOk(s', t)
  {
  }

  predicate InReset(l: At) { l.RsInternal? || l.RsReset? || l.RsLeave? }

  lemma ResetStep(s: State, t: Tid, s': State)
    requires Ready(s, t) && Step(s, t, s') && InReset(s.th[t].at)
    ensures Private(s, t, s') && ThreadOk(s', t)
  {
  }

  predicate InWait(l: At) { l.CvBlock? || l.CvWait? || l.CvLock? || l.CvUnlock? }

  lemma WaitStep(s: State, t: Tid, s': State)
    requires Ready(s, t) && Step(s, t, s') && InWait(s.th[t].at)
    ensures Private(s, t, s') && ThreadOk(s', t)
  {
  }

  lemma StepSelf(s: State, t: Tid, s': State)
    requires Ready(s, t) && Step(s, t, s')
    ensures Private(s, t, s') && ThreadOk(s', t)
  {
    var l := s.th[t].at;
    if InAcquire(l) { AcquireStep(s, t, s'); }
    else if InRetry(l) { RetryStep(s, t, s'); }
    else if InTry(l) { TryStep(s, t, s'); }
    else if InCall(l) { CallStep(s, t, s'); }
    else if InUnlock(l) { UnlockStep(s, t, s'); }
    else if InReset(l) { ResetStep(s, t, s'); }
    else { WaitStep(s, t, s'); }
  }

  /** Every step keeps the invariant. */
  lemma StepInv(s: State, t: Tid, s': State)
    requires Inv(s) && Step(s, t, s')
    ensures Inv(s')
  {
    StepSelf(s, t, s');
    forall u | u in s.th && u != t ensures ThreadOk(s', u) { assert ThreadOk(s, u); }
  }

  // ---------- runs ----------

  ghost predicate IsRun(ss: seq<State>, ts: seq<Tid>) {
    && |ss| == |ts| + 1
    && Init(ss[0])
    && forall i :: 0 <= i < |ts| ==> Step(ss[i], ts[i], ss[i + 1])
  }

  lemma {:induction false} RunInv(ss: seq<State>, ts: seq<Tid>, n: nat)
    requires IsRun(ss, ts) && n < |ss|
    ensures Inv(ss[n])
  {
    if n == 0 {
      InitInv(ss[0]);
    } else {
      RunInv(ss, ts, n - 1);
      StepInv(ss[n - 1], ts[n - 1], ss[n]);
    }
  }

  /**
   Whenever m_internal is free and m_count is positive, one thread owns the mutex: it has m_mutex
   locked, nobody else has, and m_count is the nesting depth its program has reached.
   */
  lemma OwnerHolds(ss: seq<State>, ts: seq<Tid>, n: nat)
    requires IsRun(ss, ts) && n < |ss| && ss[n].internal == Free && ss[n].count > 0
    ensures var s := ss[n];
      && s.owner.By? && s.owner.t in s.th && s.mutex == s.owner && s.count == s.th[s.owner.t].depth
      && forall u :: u in s.th && u != s.owner.t ==> !HoldsMutex(s.th[u]) && (s.th[u].at.User? ==> s.th[u].depth == 0)
  {
    RunInv(ss, ts, n);
    var s := ss[n];
    assert ThreadOk(s, s.owner.t);
    forall u | u in s.th && u != s.owner.t ensures !HoldsMutex(s.th[u]) && (s.th[u].at.User? ==> s.th[u].depth == 0) {
      assert ThreadOk(s, u);
    }
  }

  /** Program code nested at positive depth runs in one thread at a time, and its depth is m_count. */
  lemma MutualExclusion(s: State, t: Tid)
    requires Inv(s) && t in s.th && s.th[t].at.User? && s.th[t].depth > 0
    ensures s.owner == By(t) && s.mutex == By(t) && s.count == s.th[t].depth
    ensures forall u :: u in s.th && u != t && s.th[u].at.User? ==> s.th[u].depth == 0
  {
  }

  /** GetOwner tells a thread that it is the owner exactly when its program holds the mutex. */
  lemma GetOwnerExact(s: State, t: Tid, s': State)
    requires Inv(s) && Step(s, t, s') && s.th[t].at.GoLeave?
    ensures s'.th[t].at == User(s.th[t].depth > 0)
  {
    assert ThreadOk(s, t);
  }

  /** Inside a condition wait, from the reset to the completed relock. */
  predicate Waiting(l: At) {
    || InReset(l) || InWait(l)
    || ((l.LkInternal? || l.LkTest? || l.LkMutex? || l.LkLeave? || l.LkWait? || l.LkPass?) && l.relock)
  }

  lemma WaitingOwnStep(s: State, t: Tid, s': State)
    requires Step(s, t, s') && Waiting(s.th[t].at)
    ensures t in s'.th && s'.th[t].depth == s.th[t].depth && (Waiting(s'.th[t].at) || s'.th[t].at.User?)
  {
  }

  lemma WaitingStep(s: State, t: Tid, s': State, u: Tid)
    requires Inv(s) && Step(s, t, s') && u in s.th && Waiting(s.th[u].at)
    ensures u in s'.th && s'.th[u].depth == s.th[u].depth && (Waiting(s'.th[u].at) || s'.th[u].at.User?)
  {
    if u == t {
      WaitingOwnStep(s, t, s');
    } else {
      assert ThreadOk(s, t);
      StepSelf(s, t, s');
    }
  }

  /** A waiting thread waits on at its depth, or is back in program code at that depth. */
  ghost predicate WaitsOn(s: State, s': State, t: Tid) {
    t in s.th && Waiting(s.th[t].at) ==>
      t in s'.th && s'.th[t].depth == s.th[t].depth && (Waiting(s'.th[t].at) || s'.th[t].at.User?)
  }

  ghost predicate AllWaitOn(ss: seq<State>, t: Tid) { forall k :: 0 <= k < |ss| - 1 ==> WaitsOn(ss[k], ss[k + 1], t) }

  lemma RunWaitsOn(ss: seq<State>, ts: seq<Tid>, t: Tid)
    requires IsRun(ss, ts)
    ensures AllWaitOn(ss, t)
  {
    forall k | 0 <= k < |ss| - 1 ensures WaitsOn(ss[k], ss[k + 1], t) {
      RunInv(ss, ts, k);
      if t in ss[k].th && Waiting(ss[k].th[t].at) { WaitingStep(ss[k], ts[k], ss[k + 1], t); }
    }
  }

  lemma {:induction false} WaitingLasts(ss: seq<State>, i: nat, n: nat, t: Tid)
    requires AllWaitOn(ss, t) && i < n < |ss| && t in ss[i + 1].th && Waiting(ss[i + 1].th[t].at)
    requires forall k :: i < k < n ==> t in ss[k].th && !ss[k].th[t].at.User?
    ensures t in ss[n].th && ss[n].th[t].depth == ss[i + 1].th[t].depth
    ensures Waiting(ss[n].th[t].at) || ss[n].th[t].at.User?
    decreases n
  {
    if n > i + 1 {
      WaitingLasts(ss, i, n - 1, t);
      assert WaitsOn(ss[n - 1], ss[n], t);
    }
  }

  /**
   A condition wait entered at depth `d` resumes at depth `d`: when the waiting thread is back in
   program code it owns the mutex again, alone, with m_count equal to the depth it had.
   */
  lemma WaitResumesAtDepth(ss: seq<State>, ts: seq<Tid>, i: nat, n: nat, t: Tid)
    requires IsRun(ss, ts) && i < n < |ss| && ts[i] == t
    requires t in ss[i].th && ss[i].th[t].at.User? && t in ss[i + 1].th && ss[i + 1].th[t].at == RsInternal
    requires forall k :: i < k < n ==> t in ss[k].th && !ss[k].th[t].at.User?
    requires t in ss[n].th && ss[n].th[t].at.User?
    ensures ss[n].th[t].depth == ss[i].th[t].depth == ss[n].count
    ensures ss[n].owner == By(t) && ss[n].mutex == By(t)
  {
    RunWaitsOn(ss, ts, t);
    WaitingLasts(ss, i, n, t);
    assert Step(ss[i], ts[i], ss[i + 1]);
    RunInv(ss, ts, n);
    MutualExclusion(ss[n], t);
  }

  /** The step thread `t` is blocked at: a lock that somebody holds. */
  predicate Blocked(s: State, t: Tid)
    requires t in s.th
  {
    var l := s.th[t].at;
    || (s.internal != Free && (l.LkInternal? || l.TrInternal? || l.UnInternal? || l.GoInternal? || l.RsInternal?))
    || (s.mutex != Free && (l.LkMutex? || l.LkWait? || l.TrMutex? || l.CvLock?))
  }

  predicate InLock(l: At) {
    l.LkInternal? || l.LkTest? || l.LkMutex? || l.LkLeave? || l.LkWait? || l.LkPass? ||
    l.TrInternal? || l.TrTest? || l.TrMutex? || l.TrLeave?
  }

  lemma UnblockedLockSteps(s: State, t: Tid) returns (s': State)
    requires t in s.th && !Blocked(s, t) && InLock(s.th[t].at)
    ensures Step(s, t, s')
  {
    var d := s.th[t].depth;
    match s.th[t].at
    case LkInternal(n, r) => s' := Goto(s, t, LkTest(n, r)).(internal := By(t));
    case LkTest(n, r) =>
      s' := if s.count == 0 then Goto(s, t, LkMutex(n, r)).(count := n, owner := By(t))
      else if s.owner == By(t) then Goto(s, t, LkLeave(n, r, true, false)).(count := s.count + n)
      else Goto(s, t, LkLeave(n, r, false, false));
    case LkMutex(n, r) => s' := Goto(s, t, LkLeave(n, r, true, true)).(mutex := By(t));
    case LkLeave(n, r, obtained, rc) =>
      s' := if obtained then Return(s, t, User(rc), if r then d else d + n).(internal := Free)
      else Goto(s, t, LkWait(n, r)).(internal := Free);
    case LkWait(n, r) => s' := Goto(s, t, LkPass(n, r)).(mutex := By(t));
    case LkPass(n, r) => s' := Goto(s, t, LkInternal(n, r)).(mutex := Free);
    case TrInternal => s' := Goto(s, t, TrTest).(internal := By(t));
    case TrTest =>
      s' := if s.count == 0 then Goto(s, t, TrMutex).(count := 1, owner := By(t))
      else if s.owner == By(t) then Goto(s, t, TrLeave(true)).(count := s.count + 1)
      else Goto(s, t, TrLeave(false));
    case TrMutex => s' := Goto(s, t, TrLeave(true)).(mutex := By(t));
    case TrLeave(obtained) => s' := Return(s, t, User(obtained), if obtained then d + 1 else d).(internal := Free);
  }

  lemma UnblockedOtherSteps(s: State, t: Tid) returns (s': State)
    requires t in s.th && ThreadOk(s, t) && !Blocked(s, t) && !InLock(s.th[t].at)
    ensures Step(s, t, s')
  {
    var d := s.th[t].depth;
    match s.th[t].at
    case User(_) => s' := Goto(s, t, TrInternal);
    case UnInternal => s' := Goto(s, t, UnCount).(internal := By(t));
    case UnCount =>
      s' := if s.count == 1 then Goto(s, t, UnFree).(count := 0, owner := Free)
      else Goto(s, t, UnLeave(false)).(count := s.count - 1);
    case UnFree => s' := Goto(s, t, UnLeave(true)).(mutex := Free);
    case UnLeave(rc) => s' := Return(s, t, User(rc), d - 1).(internal := Free);
    case GoInternal => s' := Goto(s, t, GoRead).(internal := By(t));
    case GoRead => s' := Goto(s, t, GoLeave(s.count > 0 && s.owner == By(t)));
    case GoLeave(rc) => s' := Goto(s, t, User(rc)).(internal := Free);
    case RsInternal => s' := Goto(s, t, RsReset).(internal := By(t));
    case RsReset => s' := Goto(s, t, RsLeave(s.count)).(count := 0, owner := Free);
    case RsLeave(n) => s' := Goto(s, t, CvBlock(n)).(internal := Free);
    case CvBlock(n) => s' := Goto(s, t, CvWait(n)).(mutex := Free);
    case CvWait(n) => s' := Goto(s, t, CvLock(n));
    case CvLock(n) => s' := Goto(s, t, CvUnlock(n)).(mutex := By(t));
    case CvUnlock(n) => s' := Goto(s, t, LkInternal(n, true)).(mutex := Free);
  }

  /** A thread that is not blocked has a step, whatever the state. */
  lemma UnblockedSteps(s: State, t: Tid) returns (s': State)
    requires Inv(s) && t in s.th && !Blocked(s, t)
    ensures Step(s, t, s')
  {
    assert ThreadOk(s, t);
    if InLock(s.th[t].at) { s' := UnblockedLockSteps(s, t); } else { s' := UnblockedOtherSteps(s, t); }
  }

  /**
   No holder of m_internal ever waits for a thread that needs m_internal first: when it is blocked at
   all, it is by a thread whose very next step needs no lock and gives m_mutex up.
   */
  lemma HolderNeverStuck(s: State)
    requires Inv(s) && s.internal.By? && Blocked(s, s.internal.t)
    ensures s.mutex.By? && s.mutex.t in s.th && !Blocked(s, s.mutex.t)
    ensures forall s' :: Step(s, s.mutex.t, s') ==> s'.mutex == Free
    ensures exists s' :: Step(s, s.mutex.t, s')
  {
    var t, u := s.internal.t, s.mutex.t;
    assert ThreadOk(s, t) && ThreadOk(s, u);
    var s' := UnblockedSteps(s, u);
  }

  /** Inside a call, but not waiting to be signalled, and not blocked: it has a step of its own. */
  ghost predicate CanMove(s: State, t: Tid) {
    t in s.th && !s.th[t].at.User? && !s.th[t].at.CvWait? && !Blocked(s, t) && exists s' :: Step(s, t, s')
  }

  /** The owner is in program code, and is free to unlock. */
  predicate OwnerOutside(s: State, t: Tid) {
    t in s.th && s.th[t].at.User? && s.th[t].depth > 0 && s.owner == By(t)
  }

  /** What keeps a blocked thread waiting can move, or is the owner's program. */
  lemma Waiter(s: State, t: Tid) returns (v: Tid)
    requires Inv(s) && t in s.th && Blocked(s, t)
    ensures v in s.th && !Blocked(s, v) && !s.th[v].at.CvWait? && (s.th[v].at.User? ==> OwnerOutside(s, v))
  {
    assert ThreadOk(s, t);
    if s.internal.By? {
      var u := s.internal.t;
      assert ThreadOk(s, u);
      if Blocked(s, u) {
        HolderNeverStuck(s);
        v := s.mutex.t;
        assert ThreadOk(s, v);
      } else {
        v := u;
      }
    } else {
      v := s.mutex.t;
      assert ThreadOk(s, v);
    }
  }

  /**
   No deadlock: in every reachable state with a blocked thread, some thread inside a call that does not
   wait for a signal has a step, or the owner is in program code.
   */
  lemma NoDeadlock(ss: seq<State>, ts: seq<Tid>, n: nat, t: Tid)
    requires IsRun(ss, ts) && n < |ss| && t in ss[n].th && Blocked(ss[n], t)
    ensures exists v :: CanMove(ss[n], v) || OwnerOutside(ss[n], v)
  {
    RunInv(ss, ts, n);
    var v := Waiter(ss[n], t);
    if !ss[n].th[v].at.User? {
      var s' := UnblockedSteps(ss[n], v);
      assert CanMove(ss[n], v);
    }
  }

  /**
   TryLock succeeds exactly when the mutex is not in another thread's hands: true leaves the caller one
   level deeper as the owner, false means that another thread owns it.
   */
  lemma TryLockExact(ss: seq<State>, ts: seq<Tid>, n: nat, t: Tid)
    requires IsRun(ss, ts) && n < |ss| && t in ss[n].th && ss[n].th[t].at.TrLeave?
    ensures var s := ss[n];
      if s.th[t].at.obtained then s.owner == s.mutex == By(t) && s.count == s.th[t].depth + 1
      else s.owner.By? && s.owner != By(t) && s.th[t].depth == 0
  {
    RunInv(ss, ts, n);
    assert ThreadOk(ss[n], t);
  }
}
