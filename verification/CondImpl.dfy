/**
 The condition variable built from two semaphores, one mutex and three counters.

 Any number of threads notify, broadcast and wait, with timeouts at any time; every step is one
 semaphore operation, one mutex operation or one access to the counters under its lock.
 `round` is a history of the last notification that closed the gate; no step reads it.
 */
module CondImpl {
  import opened Basics
  import opened Threads

  datatype Pc =
    | Idle
    // Notify
    | NGate(all: bool)        // about to wait for the gate
    | NLock(all: bool)        // holds the gate, about to lock m_internal
    | NFold(all: bool)        // about to fold m_unblocked into m_blocked
    | NDecide(all: bool)      // about to look at m_blocked
    | NUnlock                 // set m_toUnblock, about to unlock m_internal
    | NPost                   // about to release one queue token
    | NReopen                 // nobody waits: about to release the gate
    | NLeave                  // about to unlock m_internal
    // PreWait
    | PGate
    | PCount                  // holds the gate, about to increment m_blocked
    | POpen                   // about to release the gate
    // Wait and postwait; `token` says whether a queue token was taken
    | WQueue
    | XLock(token: bool)
    | XCount(token: bool)     // about to increment m_unblocked
    | XTake(token: bool)      // about to look at m_toUnblock
    | XUnlock(last: bool)     // m_toUnblock was not zero, about to unlock m_internal
    | XPass(last: bool)       // about to release the gate if last, else a queue token
    | XLeave                  // m_toUnblock was zero, about to unlock m_internal

  datatype Round = NoRound | SignalRound | BroadcastRound

  datatype State = State(
    gate: nat,
    queue: nat,
    internal: Holder,
    blocked: int,
    unblocked: int,
    toUnblock: int,
    pc: map<Tid, Pc>,
    round: Round)

  ghost predicate Init(s: State) {
    && s.gate == 1 && s.queue == 0 && s.internal == Free
    && s.blocked == s.unblocked == s.toUnblock == 0
    && (forall t :: t in s.pc ==> s.pc[t] == Idle)
    && s.round == NoRound
  }

  function Goto(s: State, t: Tid, l: Pc): State { s.(pc := s.pc[t := l]) }

  ghost predicate Step(s: State, t: Tid, s': State) {
    t in s.pc &&
    match s.pc[t]
    case Idle => t in s'.pc && (s'.pc[t].NGate? || s'.pc[t].PGate?) && s' == Goto(s, t, s'.pc[t])
    case NGate(all) => s.gate > 0 && s' == Goto(s, t, NLock(all)).(gate := s.gate - 1)
    case NLock(all) => s.internal == Free && s' == Goto(s, t, NFold(all)).(internal := By(t))
    case NFold(all) => s' == Goto(s, t, NDecide(all)).(blocked := s.blocked - s.unblocked, unblocked := 0)
    case NDecide(all) =>
      if s.blocked > 0
      then s' == Goto(s, t, NUnlock).(toUnblock := if all then s.blocked else 1,
                                      round := if all then BroadcastRound else SignalRound)
      else s' == Goto(s, t, NReopen)
    case NUnlock => s' == Goto(s, t, NPost).(internal := Free)
    case NPost => s' == Goto(s, t, Idle).(queue := s.queue + 1)
    case NReopen => s' == Goto(s, t, NLeave).(gate := s.gate + 1)
    case NLeave => s' == Goto(s, t, Idle).(internal := Free)
    case PGate => s.gate > 0 && s' == Goto(s, t, PCount).(gate := s.gate - 1)
    case PCount => s' == Goto(s, t, POpen).(blocked := s.blocked + 1)
    case POpen => s' == Goto(s, t, WQueue).(gate := s.gate + 1)
    case WQueue =>
      || (s.queue > 0 && s' == Goto(s, t, XLock(true)).(queue := s.queue - 1))
      || s' == Goto(s, t, XLock(false))
    case XLock(token) => s.internal == Free && s' == Goto(s, t, XCount(token)).(internal := By(t))
    case XCount(token) => s' == Goto(s, t, XTake(token)).(unblocked := s.unblocked + 1)
    case XTake(token) =>
      if s.toUnblock != 0 then s' == Goto(s, t, XUnlock(s.toUnblock == 1)).(toUnblock := s.toUnblock - 1)
      else s' == Goto(s, t, XLeave)
    case XUnlock(last) => s' == Goto(s, t, XPass(last)).(internal := Free)
    case XPass(last) =>
      if last then s' == Goto(s, t, Idle).(gate := s.gate + 1, round := NoRound)
      else s' == Goto(s, t, Idle).(queue := s.queue + 1)
    case XLeave => s' == Goto(s, t, Idle).(internal := Free)
  }

  // ---------- where threads are ----------

  /** Counted in by PreWait and not yet counted out by postwait. */
  predicate InRegion(l: Pc) { l.POpen? || l.WQueue? || l.XLock? || l.XCount? }

  /** Counted out, but m_toUnblock not looked at yet. */
  predicate AtTake(l: Pc) { l.XTake? }

  /** Holds the gate permit between its own wait and release. */
  predicate HoldsGate(l: Pc) { l.NLock? || l.NFold? || l.NDecide? || l.NReopen? || l.PCount? || l.POpen? }

  /** The last thread of a round, about to release the gate that the notifier closed. */
  predicate Reopens(l: Pc) { (l.XUnlock? || l.XPass?) && l.last }

  /** Carries a queue token: about to release one, or took one and has not passed it on. */
  predicate Carries(l: Pc) {
    l.NUnlock? || l.NPost? || ((l.XLock? || l.XCount? || l.XTake?) && l.token) || ((l.XUnlock? || l.XPass?) && !l.last)
  }

  predicate HoldsInternal(l: Pc) {
    l.NFold? || l.NDecide? || l.NUnlock? || l.NReopen? || l.NLeave? || l.XCount? || l.XTake? || l.XUnlock? || l.XLeave?
  }

  ghost predicate Mutual(s: State) {
    forall t :: t in s.pc ==> (HoldsInternal(s.pc[t]) <==> s.internal == By(t))
  }

  ghost predicate Balance(s: State) {
    && s.blocked - s.unblocked == Count(s.pc, InRegion)
    && s.unblocked >= 0
    && s.gate + Count(s.pc, HoldsGate) + Count(s.pc, Reopens) + Bit(s.toUnblock > 0) == 1
    && 0 <= s.toUnblock <= Count(s.pc, InRegion) + Count(s.pc, AtTake)
    && (s.toUnblock > 0 ==> s.queue + Count(s.pc, Carries) > 0)
  }

  ghost predicate Rounds(s: State) {
    && (s.round != NoRound <==> s.toUnblock > 0 || Count(s.pc, Reopens) > 0)
    && (s.round == BroadcastRound ==> s.toUnblock == Count(s.pc, InRegion) + Count(s.pc, AtTake))
  }

  /** A notifier that is about to decide has folded the counters. */
  ghost predicate Folded(s: State) {
    forall t :: t in s.pc && (s.pc[t].NDecide? || s.pc[t].NReopen?) ==> s.unblocked == 0
  }

  ghost predicate Inv(s: State) {
    Mutual(s) && Balance(s) && Rounds(s) && Folded(s)
  }

  lemma InitInv(s: State)
    requires Init(s)
    ensures Inv(s)
  {
  }

  /** All the counts after moving thread `t`. */
  lemma Moves(s: State, t: Tid, l: Pc)
    requires t in s.pc
    ensures var (a, b) := (s.pc, s.pc[t := l]);
      && Count(b, InRegion) == Count(a, InRegion) - Bit(InRegion(a[t])) + Bit(InRegion(l))
      && Count(b, AtTake) == Count(a, AtTake) - Bit(AtTake(a[t])) + Bit(AtTake(l))
      && Count(b, HoldsGate) == Count(a, HoldsGate) - Bit(HoldsGate(a[t])) + Bit(HoldsGate(l))
      && Count(b, Reopens) == Count(a, Reopens) - Bit(Reopens(a[t])) + Bit(Reopens(l))
      && Count(b, Carries) == Count(a, Carries) - Bit(Carries(a[t])) + Bit(Carries(l))
    ensures HoldsGate(s.pc[t]) ==> Count(s.pc, HoldsGate) >= 1
    ensures Reopens(s.pc[t]) ==> Count(s.pc, Reopens) >= 1
    ensures AtTake(s.pc[t]) ==> Count(s.pc, AtTake) >= 1
  {
    CountMove(s.pc, t, l, InRegion);
    CountMove(s.pc, t, l, AtTake);
    CountMove(s.pc, t, l, HoldsGate);
    CountMove(s.pc, t, l, Reopens);
    CountMove(s.pc, t, l, Carries);
    if HoldsGate(s.pc[t]) { CountHas(s.pc, t, HoldsGate); }
    if Reopens(s.pc[t]) { CountHas(s.pc, t, Reopens); }
    if AtTake(s.pc[t]) { CountHas(s.pc, t, AtTake); }
  }

  lemma StepMutual(s: State, t: Tid, s': State)
    requires Mutual(s) && Step(s, t, s')
    ensures Mutual(s')
  {
    MovedAlone(s, t, s');
    LockMoves(s, t, s');
  }

  lemma MovedAlone(s: State, t: Tid, s': State)
    requires Step(s, t, s')
    ensures t in s'.pc && s'.pc == s.pc[t := s'.pc[t]]
  {
  }

  /** The lock of m_internal changes hands as the thread enters and leaves it. */
  lemma LockMoves(s: State, t: Tid, s': State)
    requires Step(s, t, s') && (HoldsInternal(s.pc[t]) <==> s.internal == By(t))
    ensures t in s'.pc && (HoldsInternal(s'.pc[t]) <==> s'.internal == By(t))
    ensures s'.internal == s.internal || (s.internal == Free && s'.internal == By(t)) || (s.internal == By(t) && s'.internal == Free)
  {
  }

  lemma StepFolded(s: State, t: Tid, s': State)
    requires Mutual(s) && Folded(s) && Step(s, t, s')
    ensures Folded(s')
  {
  }

  /** While a notifier decides, no thread is between counting itself out and looking at m_toUnblock. */
  lemma NobodyTaking(s: State, t: Tid)
    requires Mutual(s) && t in s.pc && s.pc[t].NDecide?
    ensures Count(s.pc, AtTake) == 0
  {
  }

  predicate Notifying(l: Pc) {
    l.NGate? || l.NLock? || l.NFold? || l.NDecide? || l.NUnlock? || l.NPost? || l.NReopen? || l.NLeave?
  }

  predicate Entering(l: Pc) { l.Idle? || l.PGate? || l.PCount? || l.POpen? || l.WQueue? }

  lemma DecideBalance(s: State, t: Tid, s': State)
    requires Inv(s) && Step(s, t, s') && s.pc[t].NDecide?
    ensures Balance(s')
  {
    Moves(s, t, s'.pc[t]);
    NobodyTaking(s, t);
  }

  lemma LockBalance(s: State, t: Tid, s': State)
    requires Balance(s) && Step(s, t, s') && (s.pc[t].NGate? || s.pc[t].NLock? || s.pc[t].NFold?)
    ensures Balance(s')
  {
    Moves(s, t, s'.pc[t]);
  }

  lemma PostBalance(s: State, t: Tid, s': State)
    requires Balance(s) && Step(s, t, s') && (s.pc[t].NUnlock? || s.pc[t].NPost? || s.pc[t].NReopen? || s.pc[t].NLeave?)
    ensures Balance(s')
  {
    Moves(s, t, s'.pc[t]);
  }

  lemma NotifyBalance(s: State, t: Tid, s': State)
    requires Inv(s) && Step(s, t, s') && Notifying(s.pc[t])
    ensures Balance(s')
  {
    var l := s.pc[t];
    if l.NDecide? {
      DecideBalance(s, t, s');
    } else if l.NGate? || l.NLock? || l.NFold? {
      LockBalance(s, t, s');
    } else {
      PostBalance(s, t, s');
    }
  }

  lemma NotifyRounds(s: State, t: Tid, s': State)
    requires Inv(s) && Step(s, t, s') && Notifying(s.pc[t])
    ensures Rounds(s')
  {
    Moves(s, t, s'.pc[t]);
    if s.pc[t].NDecide? { NobodyTaking(s, t); }
  }

  lemma GateBalance(s: State, t: Tid, s': State)
    requires Balance(s) && Step(s, t, s') && (s.pc[t].Idle? || s.pc[t].PGate? || s.pc[t].PCount?)
    ensures Balance(s')
  {
    Moves(s, t, s'.pc[t]);
  }

  lemma QueueBalance(s: State, t: Tid, s': State)
    requires Balance(s) && Step(s, t, s') && (s.pc[t].POpen? || s.pc[t].WQueue?)
    ensures Balance(s')
  {
    Moves(s, t, s'.pc[t]);
  }

  lemma EnterBalance(s: State, t: Tid, s': State)
    requires Balance(s) && Step(s, t, s') && Entering(s.pc[t])
    ensures Balance(s')
  {
    if s.pc[t].POpen? || s.pc[t].WQueue? { QueueBalance(s, t, s'); } else { GateBalance(s, t, s'); }
  }

  lemma EnterRounds(s: State, t: Tid, s': State)
    requires Inv(s) && Step(s, t, s') && Entering(s.pc[t])
    ensures Rounds(s')
  {
    Moves(s, t, s'.pc[t]);
  }

  lemma LeaveBalance(s: State, t: Tid, s': State)
    requires Inv(s) && Step(s, t, s') && (s.pc[t].XLock? || s.pc[t].XCount? || s.pc[t].XTake?)
    ensures Balance(s') && Rounds(s')
  {
    Moves(s, t, s'.pc[t]);
  }

  lemma PassBalance(s: State, t: Tid, s': State)
    requires Inv(s) && Step(s, t, s') && (s.pc[t].XUnlock? || s.pc[t].XPass? || s.pc[t].XLeave?)
    ensures Balance(s') && Rounds(s')
  {
    Moves(s, t, s'.pc[t]);
  }

  /** Every step of every thread keeps the invariant. */
  lemma StepInv(s: State, t: Tid, s': State)
    requires Inv(s) && Step(s, t, s')
    ensures Inv(s')
  {
    StepMutual(s, t, s');
    StepFolded(s, t, s');
    var l := s.pc[t];
    if Notifying(l) {
      NotifyBalance(s, t, s');
      NotifyRounds(s, t, s');
    } else if l.XLock? || l.XCount? || l.XTake? {
      LeaveBalance(s, t, s');
    } else if l.XUnlock? || l.XPass? || l.XLeave? {
      PassBalance(s, t, s');
    } else {
      EnterBalance(s, t, s');
      EnterRounds(s, t, s');
    }
  }

  // ---------- runs ----------

  ghost predicate IsRun(ss: seq<State>, ts: seq<Tid>) {
    && |ss| == |ts| + 1
    && Init(ss[0])
    && forall i :: 0 <= i < |ts| ==> Step(ss[i], ts[i], ss[i + 1])
  }

  lemma {:induction false} RunInv(ss: seq<State>, ts: seq<Tid>, n: nat)
    requires IsRun(ss, ts) && n < |ss|
    ensures Inv(ss[n])
  {
    if n == 0 {
      InitInv(ss[0]);
    } else {
      RunInv(ss, ts, n - 1);
      StepInv(ss[n - 1], ts[n - 1], ss[n]);
    }
  }

  /**
   In every reachable state m_blocked - m_unblocked is the number of threads inside the wait region,
   the gate has at most one permit, and a pending round has both somebody left to serve and a token
   to serve it with: available in the queue, or carried by a thread.
   */
  lemma RunCounts(ss: seq<State>, ts: seq<Tid>, n: nat)
    requires IsRun(ss, ts) && n < |ss|
    ensures var s := ss[n];
      && s.blocked - s.unblocked == Count(s.pc, InRegion)
      && s.gate <= 1
      && (s.toUnblock > 0 ==> s.queue > 0 || exists t :: t in s.pc && Carries(s.pc[t]))
      && (s.toUnblock > 0 ==> exists t :: t in s.pc && (InRegion(s.pc[t]) || AtTake(s.pc[t])))
  {
    RunInv(ss, ts, n);
    var s := ss[n];
    CountNone(s.pc, Carries);
    CountNone(s.pc, InRegion);
    CountNone(s.pc, AtTake);
  }

  /** The deciding step of a broadcast that found somebody waiting. */
  ghost predicate Broadcasts(s: State, t: Tid) {
    t in s.pc && s.pc[t] == NDecide(true) && s.blocked > 0
  }

  lemma BroadcastStarts(s: State, t: Tid, s': State)
    requires Inv(s) && Step(s, t, s') && Broadcasts(s, t)
    ensures s'.round == BroadcastRound && s'.gate == s.gate == 0
    ensures s'.toUnblock == Count(s.pc, InRegion) == Count(s'.pc, InRegion)
  {
    Moves(s, t, s'.pc[t]);
    NobodyTaking(s, t);
  }

  /** A broadcast round ends only with the step that reopens the gate, and then nobody is left inside. */
  lemma BroadcastStep(s: State, t: Tid, s': State)
    requires Inv(s) && Step(s, t, s') && s.round == BroadcastRound
    ensures s'.gate <= s.gate ==> s'.round == BroadcastRound
    ensures s'.gate > s.gate ==> s.pc[t] == XPass(true) && Count(s.pc, InRegion) == 0
  {
    Moves(s, t, s'.pc[t]);
  }

  /** A broadcast round goes on while the gate is not reopened. */
  ghost predicate RoundLasts(s: State, s': State) {
    s.round == BroadcastRound && s'.gate <= s.gate ==> s'.round == BroadcastRound
  }

  ghost predicate AllRoundsLast(ss: seq<State>) { forall k :: 0 <= k < |ss| - 1 ==> RoundLasts(ss[k], ss[k + 1]) }

  lemma RunRoundsLast(ss: seq<State>, ts: seq<Tid>)
    requires IsRun(ss, ts)
    ensures AllRoundsLast(ss)
  {
    forall k | 0 <= k < |ss| - 1 ensures RoundLasts(ss[k], ss[k + 1]) {
      RunInv(ss, ts, k);
      if ss[k].round == BroadcastRound { BroadcastStep(ss[k], ts[k], ss[k + 1]); }
    }
  }

  lemma {:induction false} BroadcastLasts(ss: seq<State>, i: nat, n: nat)
    requires AllRoundsLast(ss) && i < n < |ss| && ss[i + 1].round == BroadcastRound
    requires forall k :: i < k < n ==> ss[k + 1].gate <= ss[k].gate
    ensures ss[n].round == BroadcastRound
    decreases n
  {
    if n > i + 1 {
      BroadcastLasts(ss, i, n - 1);
      assert RoundLasts(ss[n - 1], ss[n - 1 + 1]);
    }
  }

  /**
   A broadcast serves everybody: from its deciding step `i` until the gate reopens at step `j`, and at
   that moment every thread that was inside the wait region at step `i` has left it.
   */
  lemma BroadcastReleasesAll(ss: seq<State>, ts: seq<Tid>, i: nat, j: nat)
    requires IsRun(ss, ts) && i < j < |ts| && Broadcasts(ss[i], ts[i])
    requires (forall k :: i < k < j ==> ss[k + 1].gate <= ss[k].gate) && ss[j + 1].gate > ss[j].gate
    ensures ss[j].toUnblock == 0 && forall t :: t in ss[j].pc ==> !InRegion(ss[j].pc[t])
  {
    RunInv(ss, ts, i);
    BroadcastStarts(ss[i], ts[i], ss[i + 1]);
    RunRoundsLast(ss, ts);
    BroadcastLasts(ss, i, j);
    RunInv(ss, ts, j);
    BroadcastStep(ss[j], ts[j], ss[j + 1]);
    CountNone(ss[j].pc, InRegion);
    CountHas(ss[j].pc, ts[j], Reopens);
  }

  // ---------- a signal lets one thread out ----------

  /** The deciding step of a signal that found somebody waiting. */
  ghost predicate Signals(s: State, t: Tid) {
    t in s.pc && s.pc[t] == NDecide(false) && s.blocked > 0
  }

  /** Thread `t` leaves the wait region as one of those that the round lets out. */
  ghost predicate Serves(s: State, t: Tid) { t in s.pc && s.pc[t].XTake? && s.toUnblock != 0 }

  /** A signal round is for one thread. */
  lemma SignalStarts(s: State, t: Tid, s': State)
    requires Inv(s) && Step(s, t, s') && Signals(s, t)
    ensures s'.round == SignalRound && s'.toUnblock == 1 && s'.gate == s.gate == 0
  {
    Moves(s, t, s'.pc[t]);
  }

  /**
   While the gate is not reopened, m_toUnblock goes from one to zero by a thread that is let out, and stays;
   and the gate is reopened at zero only.
   */
  ghost predicate ServeFacts(s: State, t: Tid, s': State) {
    s.round == SignalRound && s.toUnblock <= 1 ==>
      if s'.gate <= s.gate then s'.round == SignalRound && s'.toUnblock == s.toUnblock - Bit(Serves(s, t))
      else s.toUnblock == 0
  }

  lemma StepServeFacts(s: State, t: Tid, s': State)
    requires Inv(s) && Step(s, t, s')
    ensures ServeFacts(s, t, s')
  {
    Moves(s, t, s'.pc[t]);
  }

  ghost predicate AllServeFacts(ss: seq<State>, ts: seq<Tid>) {
    |ss| == |ts| + 1 && forall i {:trigger ts[i]} :: 0 <= i < |ts| ==> ServeFacts(ss[i], ts[i], ss[i + 1])
  }

  lemma RunServeFacts(ss: seq<State>, ts: seq<Tid>)
    requires IsRun(ss, ts)
    ensures AllServeFacts(ss, ts)
  {
    forall i | 0 <= i < |ts| ensures ServeFacts(ss[i], ts[i], ss[i + 1]) {
      RunInv(ss, ts, i);
      StepServeFacts(ss[i], ts[i], ss[i + 1]);
    }
  }

  /** How many threads the steps from `m` to `n` let out. */
  ghost function Served(ss: seq<State>, ts: seq<Tid>, m: nat, n: nat): nat
    requires m <= n <= |ts| < |ss|
  {
    if m == n then 0 else Served(ss, ts, m, n - 1) + Bit(Serves(ss[n - 1], ts[n - 1]))
  }

  lemma {:induction false} ServedCounts(ss: seq<State>, ts: seq<Tid>, m: nat, n: nat)
    requires AllServeFacts(ss, ts) && m <= n <= |ts| && ss[m].round == SignalRound && ss[m].toUnblock <= 1
    requires forall k :: m <= k < n ==> ss[k + 1].gate <= ss[k].gate
    ensures ss[n].round == SignalRound && ss[n].toUnblock == ss[m].toUnblock - Served(ss, ts, m, n)
    decreases n
  {
    if m < n {
      ServedCounts(ss, ts, m, n - 1);
      assert ServeFacts(ss[n - 1], ts[n - 1], ss[n]);
    }
  }

  lemma OneServed(ss: seq<State>, ts: seq<Tid>, m: nat, j: nat)
    requires AllServeFacts(ss, ts) && m <= j < |ts| && ss[m].round == SignalRound && ss[m].toUnblock == 1
    requires (forall k :: m <= k < j ==> ss[k + 1].gate <= ss[k].gate) && ss[j + 1].gate > ss[j].gate
    ensures Served(ss, ts, m, j) == 1
  {
    ServedCounts(ss, ts, m, j);
    assert ServeFacts(ss[j], ts[j], ss[j + 1]);
  }

  lemma RunSignalStarts(ss: seq<State>, ts: seq<Tid>, i: nat)
    requires IsRun(ss, ts) && i < |ts| && Signals(ss[i], ts[i])
    ensures ss[i + 1].round == SignalRound && ss[i + 1].toUnblock == 1
  {
    RunInv(ss, ts, i);
    SignalStarts(ss[i], ts[i], ss[i + 1]);
  }

  /** From the deciding step of a signal until the gate reopens, exactly one thread is let out. */
  lemma SignalServesOne(ss: seq<State>, ts: seq<Tid>, i: nat, j: nat)
    requires IsRun(ss, ts) && i < j < |ts| && Signals(ss[i], ts[i])
    requires (forall k {:trigger ts[k]} :: i < k < j ==> ss[k + 1].gate <= ss[k].gate) && ss[j + 1].gate > ss[j].gate
    ensures Served(ss, ts, i + 1, j) == 1
  {
    RunSignalStarts(ss, ts, i);
    RunServeFacts(ss, ts);
    OneServed(ss, ts, i + 1, j);
  }
}
