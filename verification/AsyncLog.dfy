/**
 The asynchronous log helper over the queue: any number of threads in `log()`, the destructor's
 `level::off` message, and one worker draining the queue into the sinks.  Sinks and formatter do
 not throw, so `throw_if_bad_worker` has nothing to report.
 */
module AsyncLog {
  import opened Basics
  import Q = MpmcQueue
  import opened MpmcQueue
  import A = MpmcAnswers

  datatype Msg = Msg(off: bool, text: string)

  datatype Policy = BlockRetry | DiscardLogMsg

  /** Where a thread is with respect to `log()`. */
  datatype LogPc = Out | Trying(msg: Msg)

  datatype WorkerPc = Polling | Delivering(msg: Msg, next: nat) | Exited

  datatype Helper = Helper(
    q: Q.State<Msg>,
    policy: Policy,
    worker: Tid,
    workerPc: WorkerPc,
    loggers: map<Tid, LogPc>,
    sinks: seq<seq<Msg>>)

  ghost predicate Init(h: Helper) {
    && Q.Init(h.q)
    && h.worker in h.q.pc && h.worker !in h.loggers && h.q.pc.Keys == h.loggers.Keys + {h.worker}
    && h.workerPc == Polling
    && (forall t :: t in h.loggers ==> h.loggers[t] == Out)
    && (forall i :: 0 <= i < |h.sinks| ==> h.sinks[i] == [])
  }

  predicate Inside(l: Pc<Msg>) { !l.Idle? && !l.EnqRet? && !l.DeqRet? }

  /** A thread inside `enqueue` or `dequeue` takes one queue step. */
  ghost predicate QueueStep(h: Helper, t: Tid, h': Helper)
    requires Shape(h.q)
  {
    t in h.q.pc && Inside(h.q.pc[t]) && Q.Step(h.q, t, h'.q) && h' == h.(q := h'.q)
  }

  /** `log(msg)` starts: the message is built and `enqueue` is called. */
  ghost predicate LogCall(h: Helper, t: Tid, m: Msg, h': Helper) {
    && t in h.loggers && t in h.q.pc && h.loggers[t] == Out && h.q.pc[t] == Idle
    && h' == h.(loggers := h.loggers[t := Trying(m)], q := Goto(h.q, t, EnqLoad(m)))
  }

  /** `enqueue` came back to `log`: return, or go round the retry loop with the same message. */
  ghost predicate LogBack(h: Helper, t: Tid, h': Helper) {
    && t in h.loggers && t in h.q.pc && h.loggers[t].Trying? && h.q.pc[t].EnqRet?
    && (if h.q.pc[t].won.Some? || h.policy == DiscardLogMsg
        then h' == h.(loggers := h.loggers[t := Out], q := Goto(h.q, t, Idle))
        else h' == h.(q := Goto(h.q, t, EnqLoad(h.loggers[t].msg))))
  }

  /** `process_next_msg` calls `dequeue`. */
  ghost predicate WorkerPoll(h: Helper, h': Helper) {
    && h.worker in h.q.pc && h.workerPc == Polling && h.q.pc[h.worker] == Idle
    && h' == h.(q := Goto(h.q, h.worker, DeqLoad))
  }

  /** `dequeue` came back: nothing, the termination message, or a message to deliver. */
  ghost predicate WorkerBack(h: Helper, h': Helper) {
    && h.worker in h.q.pc && h.workerPc == Polling && h.q.pc[h.worker].DeqRet?
    && var got := h.q.pc[h.worker].got;
    && h' == h.(
         q := Goto(h.q, h.worker, Idle),
         workerPc := if got.None? then Polling else if got.value.1.off then Exited else Delivering(got.value.1, 0))
  }

  /** The loop over the sinks. */
  ghost predicate WorkerDeliver(h: Helper, h': Helper) {
    && h.workerPc.Delivering?
    && var (m, i) := (h.workerPc.msg, h.workerPc.next);
    && h' == if i < |h.sinks|
             then h.(sinks := h.sinks[i := h.sinks[i] + [m]], workerPc := Delivering(m, i + 1))
             else h.(workerPc := Polling)
  }

  ghost predicate Step(h: Helper, t: Tid, m: Msg, h': Helper)
    requires Shape(h.q)
  {
    || QueueStep(h, t, h')
    || LogCall(h, t, m, h')
    || LogBack(h, t, h')
    || WorkerPoll(h, h')
    || WorkerBack(h, h')
    || WorkerDeliver(h, h')
  }

  // ---------- the invariant ----------

  predicate LoggerAt(q: Q.State<Msg>, l: LogPc, p: Pc<Msg>) {
    match l
    case Out => p.Idle?
    case Trying(m) =>
      || ((p.EnqLoad? || p.EnqSeq? || p.EnqCas? || p.EnqWrite? || p.EnqStore?) && p.item == m)
      || (p.EnqRet? && (p.won.Some? ==> p.won.value < |q.claimed| && q.claimed[p.won.value] == m))
  }

  predicate WorkerAt(p: Pc<Msg>) {
    p.Idle? || p.DeqLoad? || p.DeqSeq? || p.DeqCas? || p.DeqRead? || p.DeqStore? || p.DeqRet?
  }

  /** The worker holds a removed position whose item it has not looked at yet. */
  predicate Holds(p: Pc<Msg>) { p.DeqRead? || p.DeqStore? || (p.DeqRet? && p.got.Some?) }

  function HeldPos(p: Pc<Msg>): nat
    requires Holds(p)
  {
    if p.DeqRet? then p.got.value.0 else p.pos
  }

  predicate NoOff(s: seq<Msg>) {
    forall i :: 0 <= i < |s| ==> !s[i].off
  }

  ghost predicate Threads(h: Helper) {
    && h.worker !in h.loggers && h.q.pc.Keys == h.loggers.Keys + {h.worker}
    && (forall t :: t in h.loggers ==> LoggerAt(h.q, h.loggers[t], h.q.pc[t]))
    && WorkerAt(h.q.pc[h.worker])
    && (h.workerPc != Polling ==> h.q.pc[h.worker] == Idle)
  }

  /** The number of removed items the worker is completely done with. */
  function Settled(h: Helper): int
    requires h.worker in h.q.pc
  {
    if h.workerPc == Polling && !Holds(h.q.pc[h.worker]) then h.q.deqPos else h.q.deqPos - 1
  }

  ghost predicate Delivery(h: Helper)
    requires h.worker in h.q.pc && Counters(h.q)
  {
    var n := Settled(h);
    && 0 <= n && NoOff(h.q.claimed[..n])
    && (h.workerPc == Polling && Holds(h.q.pc[h.worker]) ==> HeldPos(h.q.pc[h.worker]) == n)
    && (h.workerPc == Exited ==> h.q.claimed[n].off)
    && (h.workerPc.Delivering? ==> h.q.claimed[n] == h.workerPc.msg && !h.workerPc.msg.off && h.workerPc.next <= |h.sinks|)
    && forall i :: 0 <= i < |h.sinks| ==>
         h.sinks[i] == if h.workerPc.Delivering? && i < h.workerPc.next then h.q.claimed[..n + 1] else h.q.claimed[..n]
  }

  ghost predicate Inv(h: Helper) {
    Q.Inv(h.q) && Threads(h) && Delivery(h)
  }

  lemma InitInv(h: Helper)
    requires Init(h)
    ensures Inv(h)
  {
    Q.InitInv(h.q);
  }

  /** What a queue step of a thread inside `enqueue` may change. */
  lemma EnqueueSide(s: Q.State<Msg>, t: Tid, s': Q.State<Msg>, m: Msg)
    requires Q.Inv(s) && Q.Step(s, t, s') && Inside(s.pc[t]) && LoggerAt(s, Trying(m), s.pc[t])
    ensures Q.Inv(s') && s'.deqPos == s.deqPos && s.claimed <= s'.claimed && s'.pc.Keys == s.pc.Keys
    ensures forall u :: u in s.pc && u != t ==> s'.pc[u] == s.pc[u]
    ensures LoggerAt(s', Trying(m), s'.pc[t])
  {
    Q.StepInv(s, t, s');
    assert ThreadOk(s, s.pc[t]);
  }

  /** What a queue step of the worker inside `dequeue` may change. */
  lemma DequeueSide(s: Q.State<Msg>, t: Tid, s': Q.State<Msg>)
    requires Q.Inv(s) && Q.Step(s, t, s') && Inside(s.pc[t]) && WorkerAt(s.pc[t])
    ensures Q.Inv(s') && s'.claimed == s.claimed && s'.pc.Keys == s.pc.Keys
    ensures forall u :: u in s.pc && u != t ==> s'.pc[u] == s.pc[u]
    ensures WorkerAt(s'.pc[t])
    ensures s'.deqPos == if s.pc[t].DeqCas? && s'.pc[t].DeqRead? then s.deqPos + 1 else s.deqPos
    ensures Holds(s.pc[t]) ==> Holds(s'.pc[t]) && HeldPos(s'.pc[t]) == HeldPos(s.pc[t])
    ensures !Holds(s.pc[t]) && Holds(s'.pc[t]) ==> HeldPos(s'.pc[t]) == s.deqPos && s'.deqPos == s.deqPos + 1
    ensures !Holds(s'.pc[t]) ==> s'.deqPos == s.deqPos
  {
    Q.StepInv(s, t, s');
    assert ThreadOk(s, s.pc[t]);
  }

  lemma LoggerKeeps(s: Q.State<Msg>, s': Q.State<Msg>, l: LogPc, p: Pc<Msg>)
    requires LoggerAt(s, l, p) && s.claimed <= s'.claimed
    ensures LoggerAt(s', l, p)
  {
  }

  /** The delivery record only looks at the removed prefix of the claim order. */
  lemma DeliveryKeeps(h: Helper, h': Helper)
    requires h.worker in h.q.pc && Counters(h.q) && Delivery(h)
    requires h'.worker == h.worker && h.worker in h'.q.pc && Counters(h'.q)
    requires h'.workerPc == h.workerPc && h'.sinks == h.sinks && h'.q.pc[h.worker] == h.q.pc[h.worker]
    requires h'.q.deqPos == h.q.deqPos && h.q.claimed <= h'.q.claimed
    ensures Delivery(h')
  {
  }

  lemma WorkerQueueStepInv(h: Helper, h': Helper)
    requires Inv(h) && QueueStep(h, h.worker, h')
    ensures Inv(h')
  {
    DequeueSide(h.q, h.worker, h'.q);
    forall u | u in h.loggers ensures LoggerAt(h'.q, h.loggers[u], h'.q.pc[u]) {
      LoggerKeeps(h.q, h'.q, h.loggers[u], h.q.pc[u]);
    }
  }

  lemma LoggersKeep(h: Helper, t: Tid, h': Helper)
    requires Threads(h) && t in h.loggers && t in h'.q.pc && h.q.claimed <= h'.q.claimed && h'.worker == h.worker
    requires h'.q.pc.Keys == h.q.pc.Keys && forall u :: u in h.q.pc && u != t ==> h'.q.pc[u] == h.q.pc[u]
    requires h'.loggers.Keys == h.loggers.Keys && forall u :: u in h.loggers && u != t ==> h'.loggers[u] == h.loggers[u]
    requires h'.workerPc == h.workerPc && LoggerAt(h'.q, h'.loggers[t], h'.q.pc[t])
    ensures Threads(h')
  {
  }

  lemma LoggerQueueStepInv(h: Helper, t: Tid, h': Helper)
    requires Inv(h) && QueueStep(h, t, h') && t != h.worker
    ensures Inv(h')
  {
    assert LoggerAt(h.q, h.loggers[t], h.q.pc[t]);
    EnqueueSide(h.q, t, h'.q, h.loggers[t].msg);
    LoggersKeep(h, t, h');
    DeliveryKeeps(h, h');
  }

  /** Moving between `log` and the queue, outside the flight. */
  lemma MoveLogger(h: Helper, t: Tid, h': Helper, l: LogPc, p: Pc<Msg>)
    requires Inv(h) && t in h.loggers && !InFlight(h.q.pc[t]) && LoggerAt(h.q, l, p) && (p.Idle? || p.EnqLoad?)
    requires h' == h.(loggers := h.loggers[t := l], q := Goto(h.q, t, p))
    ensures Inv(h')
  {
    Q.MoveInv(h.q, t, p);
    MoveThreads(h, t, h', l, p);
    DeliveryKeeps(h, h');
  }

  lemma MoveThreads(h: Helper, t: Tid, h': Helper, l: LogPc, p: Pc<Msg>)
    requires Threads(h) && t in h.loggers && LoggerAt(h.q, l, p)
    requires h' == h.(loggers := h.loggers[t := l], q := Goto(h.q, t, p))
    ensures Threads(h')
  {
    LoggersKeep(h, t, h');
  }

  lemma LogStepInv(h: Helper, t: Tid, m: Msg, h': Helper)
    requires Inv(h) && (LogCall(h, t, m, h') || LogBack(h, t, h'))
    ensures Inv(h')
  {
    assert h.loggers[t := h.loggers[t]] == h.loggers;
    MoveLogger(h, t, h', h'.loggers[t], h'.q.pc[t]);
  }

  lemma WorkerStepInv(h: Helper, h': Helper)
    requires Inv(h) && (WorkerPoll(h, h') || WorkerBack(h, h'))
    ensures Inv(h')
  {
    var w := h.worker;
    assert ThreadOk(h.q, h.q.pc[w]);
    Q.MoveInv(h.q, w, h'.q.pc[w]);
    forall u | u in h.loggers ensures LoggerAt(h'.q, h.loggers[u], h'.q.pc[u]) {
      LoggerKeeps(h.q, h'.q, h.loggers[u], h.q.pc[u]);
    }
  }

  lemma DeliverStepInv(h: Helper, h': Helper)
    requires Inv(h) && WorkerDeliver(h, h')
    ensures Inv(h')
  {
    var n := Settled(h);
    assert h.q.claimed[..n] + [h.workerPc.msg] == h.q.claimed[..n + 1];
  }

  lemma StepInv(h: Helper, t: Tid, m: Msg, h': Helper)
    requires Inv(h) && Step(h, t, m, h')
    ensures Inv(h')
  {
    if QueueStep(h, t, h') {
      if t == h.worker { WorkerQueueStepInv(h, h'); } else { LoggerQueueStepInv(h, t, h'); }
    } else if LogCall(h, t, m, h') || LogBack(h, t, h') {
      LogStepInv(h, t, m, h');
    } else if WorkerDeliver(h, h') {
      DeliverStepInv(h, h');
    } else {
      WorkerStepInv(h, h');
    }
  }

  // ---------- runs ----------

  datatype Label = Label(t: Tid, m: Msg)

  ghost predicate StepAt(hs: seq<Helper>, ls: seq<Label>, i: nat)
    requires i < |ls| < |hs|
  {
    Shape(hs[i].q) && Step(hs[i], ls[i].t, ls[i].m, hs[i + 1])
  }

  ghost predicate IsRun(hs: seq<Helper>, ls: seq<Label>) {
    && |hs| == |ls| + 1
    && Init(hs[0])
    && forall i :: 0 <= i < |ls| ==> StepAt(hs, ls, i)
  }

  lemma StepKeeps(h: Helper, t: Tid, m: Msg, h': Helper)
    requires Shape(h.q) && Step(h, t, m, h')
    ensures h'.policy == h.policy && |h'.sinks| == |h.sinks|
  {
  }

  lemma {:induction false} RunInv(hs: seq<Helper>, ls: seq<Label>, n: nat)
    requires IsRun(hs, ls) && n < |hs|
    ensures Inv(hs[n]) && hs[n].policy == hs[0].policy && |hs[n].sinks| == |hs[0].sinks|
  {
    if n == 0 {
      InitInv(hs[0]);
    } else {
      RunInv(hs, ls, n - 1);
      assert StepAt(hs, ls, n - 1);
      StepKeeps(hs[n - 1], ls[n - 1].t, ls[n - 1].m, hs[n]);
      StepInv(hs[n - 1], ls[n - 1].t, ls[n - 1].m, hs[n]);
    }
  }

  /** At any moment of any run, every sink holds a prefix of the claim order, with no termination message in it. */
  lemma SinksArePrefixes(hs: seq<Helper>, ls: seq<Label>, n: nat, i: nat)
    requires IsRun(hs, ls) && n < |hs| && i < |hs[n].sinks|
    ensures hs[n].sinks[i] <= hs[n].q.claimed && NoOff(hs[n].sinks[i])
    ensures |hs[n].sinks[i]| <= hs[n].q.deqPos <= |hs[n].sinks[i]| + 1
  {
    RunInv(hs, ls, n);
  }

  /** When the worker has exited, every sink received exactly the queued messages up to the first termination message. */
  lemma ExitDelivers(hs: seq<Helper>, ls: seq<Label>, n: nat, i: nat)
    requires IsRun(hs, ls) && n < |hs| && i < |hs[n].sinks| && hs[n].workerPc == Exited
    ensures var (sink, claimed) := (hs[n].sinks[i], hs[n].q.claimed);
      |sink| < |claimed| && sink == claimed[..|sink|] && NoOff(sink) && claimed[|sink|].off
  {
    RunInv(hs, ls, n);
  }

  // ---------- delivery of every message logged before termination was requested ----------

  /** Nobody has submitted a termination message yet. */
  ghost predicate Quiet(h: Helper) {
    NoOff(h.q.claimed) && forall t :: t in h.loggers && h.loggers[t].Trying? ==> !h.loggers[t].msg.off
  }

  lemma QuietStep(h: Helper, t: Tid, m: Msg, h': Helper)
    requires Inv(h) && Quiet(h) && Step(h, t, m, h') && !(LogCall(h, t, m, h') && m.off)
    ensures Quiet(h')
  {
    if QueueStep(h, t, h') {
      if t != h.worker { assert LoggerAt(h.q, h.loggers[t], h.q.pc[t]); }
    }
  }

  /** Step `i` submits a termination message. */
  ghost predicate OffCall(hs: seq<Helper>, ls: seq<Label>, i: nat)
    requires i < |ls| < |hs|
  {
    ls[i].m.off && LogCall(hs[i], ls[i].t, ls[i].m, hs[i + 1])
  }

  /** No termination message is submitted by the first `n` steps: the destructor has not begun. */
  ghost predicate NoOffCall(hs: seq<Helper>, ls: seq<Label>, n: nat)
    requires |hs| == |ls| + 1 && n <= |ls|
  {
    forall i :: 0 <= i < n ==> !OffCall(hs, ls, i)
  }

  lemma {:induction false} RunQuiet(hs: seq<Helper>, ls: seq<Label>, n: nat)
    requires IsRun(hs, ls) && n <= |ls| && NoOffCall(hs, ls, n)
    ensures Quiet(hs[n])
  {
    if n > 0 {
      RunQuiet(hs, ls, n - 1);
      RunInv(hs, ls, n - 1);
      assert StepAt(hs, ls, n - 1) && !OffCall(hs, ls, n - 1);
      QuietStep(hs[n - 1], ls[n - 1].t, ls[n - 1].m, hs[n]);
    }
  }

  lemma StepGrows(h: Helper, t: Tid, m: Msg, h': Helper)
    requires Inv(h) && Step(h, t, m, h')
    ensures h.q.claimed <= h'.q.claimed
  {
    if QueueStep(h, t, h') {
      assert ThreadOk(h.q, h.q.pc[t]);
    }
  }

  /** From each state to the next the claim order only gets longer. */
  ghost predicate AllGrow(hs: seq<Helper>) {
    forall i :: 0 <= i < |hs| - 1 ==> hs[i].q.claimed <= hs[i + 1].q.claimed
  }

  lemma {:induction false} GrowsTo(hs: seq<Helper>, m: nat, n: nat)
    requires AllGrow(hs) && m <= n < |hs|
    ensures hs[m].q.claimed <= hs[n].q.claimed
    decreases n
  {
    if m < n {
      GrowsTo(hs, m, n - 1);
      assert hs[n - 1].q.claimed <= hs[n - 1 + 1].q.claimed;
    }
  }

  lemma RunGrows(hs: seq<Helper>, ls: seq<Label>, m: nat, n: nat)
    requires IsRun(hs, ls) && m <= n < |hs|
    ensures hs[m].q.claimed <= hs[n].q.claimed
  {
    forall i | 0 <= i < |hs| - 1 ensures hs[i].q.claimed <= hs[i + 1].q.claimed {
      RunInv(hs, ls, i);
      assert StepAt(hs, ls, i);
      StepGrows(hs[i], ls[i].t, ls[i].m, hs[i + 1]);
    }
    GrowsTo(hs, m, n);
  }

  // ---------- a log call and the position it won ----------

  /** Step `j` wins position `k` for message `m`. */
  ghost predicate Claims(hs: seq<Helper>, ls: seq<Label>, j: nat, k: nat, m: Msg) {
    j < |ls| && |hs| == |ls| + 1 && WinsEnq(hs[j].q, ls[j].t, hs[j + 1].q, k, m)
  }

  ghost predicate IsClaimed(hs: seq<Helper>, ls: seq<Label>, j: nat, k: nat) { exists m :: Claims(hs, ls, j, k, m) }

  /** The claim order grows by winning steps only, each at its end. */
  lemma ClaimAppends(h: Helper, t: Tid, m: Msg, h': Helper)
    requires Inv(h) && Step(h, t, m, h')
    ensures forall k: nat, x :: WinsEnq(h.q, t, h'.q, k, x) ==> |h.q.claimed| == k && h'.q.claimed == h.q.claimed + [x]
    ensures h'.q.claimed == h.q.claimed ||
      (|h'.q.claimed| == |h.q.claimed| + 1 && WinsEnq(h.q, t, h'.q, |h.q.claimed|, h'.q.claimed[|h.q.claimed|]))
  {
    if QueueStep(h, t, h') {
      Q.ClaimStep(h.q, t, h'.q);
      OnlyWinsAppend(h.q, t, h'.q);
    }
  }

  lemma OnlyWinsAppend(s: Q.State<Msg>, t: Tid, s': Q.State<Msg>)
    requires Shape(s) && Q.Step(s, t, s')
    ensures s'.claimed == s.claimed || (s.pc[t].EnqCas? && WinsEnq(s, t, s', s.pc[t].pos, s.pc[t].item))
  {
  }

  lemma RunClaimAppends(hs: seq<Helper>, ls: seq<Label>, j: nat)
    requires IsRun(hs, ls) && j < |ls|
    ensures forall k: nat, m :: Claims(hs, ls, j, k, m) ==>
      |hs[j].q.claimed| == k && hs[j + 1].q.claimed == hs[j].q.claimed + [m]
    ensures hs[j + 1].q.claimed == hs[j].q.claimed || var k := |hs[j].q.claimed|;
      |hs[j + 1].q.claimed| == k + 1 && Claims(hs, ls, j, k, hs[j + 1].q.claimed[k])
  {
    RunInv(hs, ls, j);
    assert StepAt(hs, ls, j);
    ClaimAppends(hs[j], ls[j].t, ls[j].m, hs[j + 1]);
  }

  /** A position of the claim order is won by one step of the run. */
  lemma ClaimUnique(hs: seq<Helper>, ls: seq<Label>, i: nat, m: Msg, j: nat, m': Msg, k: nat)
    requires IsRun(hs, ls) && Claims(hs, ls, i, k, m) && Claims(hs, ls, j, k, m')
    ensures i == j
  {
    RunClaimAppends(hs, ls, i);
    RunClaimAppends(hs, ls, j);
    if i < j { RunGrows(hs, ls, i + 1, j); }
    if j < i { RunGrows(hs, ls, j + 1, i); }
  }

  /** Every message in the claim order was put there by exactly one winning step. */
  lemma {:induction false} ClaimedOnce(hs: seq<Helper>, ls: seq<Label>, n: nat, k: nat) returns (j: nat)
    requires IsRun(hs, ls) && n < |hs| && k < |hs[n].q.claimed|
    ensures j < n && Claims(hs, ls, j, k, hs[n].q.claimed[k])
    ensures forall i: nat, m :: Claims(hs, ls, i, k, m) ==> i == j
  {
    assert n > 0 by { assert Init(hs[0]); }
    RunClaimAppends(hs, ls, n - 1);
    RunGrows(hs, ls, n - 1, n);
    if k < |hs[n - 1].q.claimed| {
      j := ClaimedOnce(hs, ls, n - 1, k);
    } else {
      j := n - 1;
    }
    forall i: nat, m | Claims(hs, ls, i, k, m) ensures i == j {
      ClaimUnique(hs, ls, i, m, j, hs[n].q.claimed[k], k);
    }
  }

  /** A position is held because it was held before, or because this step won it. */
  lemma HeldStep(h: Helper, t: Tid, m: Msg, h': Helper, u: Tid, k: nat)
    requires Inv(h) && Step(h, t, m, h') && u in h'.q.pc && HoldsEnq(h'.q.pc[u], k)
    ensures u in h.q.pc
    ensures HoldsEnq(h.q.pc[u], k) || (u == t && exists x :: WinsEnq(h.q, t, h'.q, k, x))
  {
    if QueueStep(h, t, h') { Q.HeldStep(h.q, t, h'.q, u, k); }
  }

  /** From state `m` to state `n` thread `u` stays in the one `enqueue` call that won `k`. */
  ghost predicate Held(hs: seq<Helper>, u: Tid, k: nat, m: nat, n: nat) {
    forall i :: m <= i <= n && i < |hs| ==> u in hs[i].q.pc && HoldsEnq(hs[i].q.pc[u], k)
  }

  /** If thread `u` holds `k` in state `n`, it did so one step earlier or won it by that step. */
  ghost predicate HeldBack(hs: seq<Helper>, ls: seq<Label>, u: Tid, k: nat, n: nat)
    requires 0 < n < |hs| == |ls| + 1
  {
    u in hs[n].q.pc && HoldsEnq(hs[n].q.pc[u], k) ==>
      u in hs[n - 1].q.pc && (HoldsEnq(hs[n - 1].q.pc[u], k) || (ls[n - 1].t == u && IsClaimed(hs, ls, n - 1, k)))
  }

  lemma RunHeldBack(hs: seq<Helper>, ls: seq<Label>, u: Tid, k: nat, n: nat)
    requires IsRun(hs, ls) && 0 < n < |hs|
    ensures HeldBack(hs, ls, u, k, n)
  {
    RunInv(hs, ls, n - 1);
    assert StepAt(hs, ls, n - 1);
    if u in hs[n].q.pc && HoldsEnq(hs[n].q.pc[u], k) {
      HeldStep(hs[n - 1], ls[n - 1].t, ls[n - 1].m, hs[n], u, k);
      if !HoldsEnq(hs[n - 1].q.pc[u], k) {
        var x :| WinsEnq(hs[n - 1].q, u, hs[n].q, k, x);
        assert Claims(hs, ls, n - 1, k, x);
      }
    }
  }

  lemma {:induction false} BackToWin(hs: seq<Helper>, ls: seq<Label>, n: nat, u: Tid, k: nat) returns (j: nat, x: Msg)
    requires n < |hs| == |ls| + 1 && forall i {:trigger HeldBack(hs, ls, u, k, i)} :: 0 < i < |hs| ==> HeldBack(hs, ls, u, k, i)
    requires u in hs[n].q.pc && HoldsEnq(hs[n].q.pc[u], k) && !(u in hs[0].q.pc && HoldsEnq(hs[0].q.pc[u], k))
    ensures j < n && ls[j].t == u && Claims(hs, ls, j, k, x) && Held(hs, u, k, j + 1, n)
    decreases n
  {
    assert HeldBack(hs, ls, u, k, n);
    if HoldsEnq(hs[n - 1].q.pc[u], k) {
      j, x := BackToWin(hs, ls, n - 1, u, k);
    } else {
      j := n - 1;
      x :| Claims(hs, ls, n - 1, k, x);
    }
  }

  /** The call that holds `k` won it itself and has not been left since. */
  lemma HeldFrom(hs: seq<Helper>, ls: seq<Label>, n: nat, u: Tid, k: nat) returns (j: nat, x: Msg)
    requires IsRun(hs, ls) && n < |hs| && u in hs[n].q.pc && HoldsEnq(hs[n].q.pc[u], k)
    ensures j < n && ls[j].t == u && Claims(hs, ls, j, k, x) && Held(hs, u, k, j + 1, n)
  {
    forall i | 0 < i < |hs| ensures HeldBack(hs, ls, u, k, i) { RunHeldBack(hs, ls, u, k, i); }
    assert Init(hs[0]);
    j, x := BackToWin(hs, ls, n, u, k);
  }

  /** Step `i` returns from a `log` call whose message took position `k`. */
  ghost predicate Returns(hs: seq<Helper>, ls: seq<Label>, i: nat, k: nat) {
    i < |ls| < |hs| && LogBack(hs[i], ls[i].t, hs[i + 1]) && hs[i].q.pc[ls[i].t] == EnqRet(Some(k))
  }

  /** Under block_retry a `log` call that returns has taken a position of the queue. */
  lemma ReturnTakes(hs: seq<Helper>, ls: seq<Label>, i: nat) returns (k: nat)
    requires IsRun(hs, ls) && hs[0].policy == BlockRetry && i < |ls|
    requires LogBack(hs[i], ls[i].t, hs[i + 1]) && hs[i + 1].loggers[ls[i].t] == Out
    ensures Returns(hs, ls, i, k)
  {
    RunInv(hs, ls, i);
    k := hs[i].q.pc[ls[i].t].won.value;
  }

  /**
   The position that a returning `log` call took holds its own message: the call won it itself, at a
   step `j` of this very call, and no other step of the run wins it.
   */
  lemma ReturnMeansQueued(hs: seq<Helper>, ls: seq<Label>, i: nat, k: nat) returns (j: nat)
    requires IsRun(hs, ls) && Returns(hs, ls, i, k)
    ensures j < i && ls[j].t == ls[i].t && Held(hs, ls[i].t, k, j + 1, i)
    ensures Claims(hs, ls, j, k, hs[i].loggers[ls[i].t].msg)
    ensures forall j': nat, m :: Claims(hs, ls, j', k, m) ==> j' == j
    ensures k < |hs[i].q.claimed| && hs[i].q.claimed[k] == hs[i].loggers[ls[i].t].msg
  {
    var t := ls[i].t;
    RunInv(hs, ls, i);
    assert LoggerAt(hs[i].q, hs[i].loggers[t], hs[i].q.pc[t]);
    j := ClaimedOnce(hs, ls, i, k);
    var j', x := HeldFrom(hs, ls, i, t, k);
  }

  /** Two different returning calls took two different positions. */
  lemma ReturnsApart(hs: seq<Helper>, ls: seq<Label>, i: nat, i': nat, k: nat)
    requires IsRun(hs, ls) && Returns(hs, ls, i, k) && Returns(hs, ls, i', k)
    ensures i == i'
  {
    NoReturnAfter(hs, ls, i, i', k);
    NoReturnAfter(hs, ls, i', i, k);
  }

  lemma NoReturnAfter(hs: seq<Helper>, ls: seq<Label>, i: nat, i': nat, k: nat)
    requires IsRun(hs, ls) && Returns(hs, ls, i, k) && Returns(hs, ls, i', k)
    ensures i' <= i
  {
    var j := ReturnMeansQueued(hs, ls, i, k);
    var j' := ReturnMeansQueued(hs, ls, i', k);
    assert j == j' && ls[i].t == ls[i'].t;
    assert !HoldsEnq(hs[i + 1].q.pc[ls[i].t], k);
  }

  /**
   Under block_retry, a message whose `log` call returned at step `i`, before any termination message
   was submitted, is at position `k` of every sink by the time the worker has exited.  This call won
   `k` itself, no other step of the run did, and no other call returns with it: the message is
   delivered exactly once for this call.
   */
  lemma LoggedIsDelivered(hs: seq<Helper>, ls: seq<Label>, i: nat, n: nat) returns (k: nat, j: nat)
    requires IsRun(hs, ls) && hs[0].policy == BlockRetry && i < n < |hs| && NoOffCall(hs, ls, i + 1)
    requires LogBack(hs[i], ls[i].t, hs[i + 1]) && hs[i + 1].loggers[ls[i].t] == Out
    requires hs[n].workerPc == Exited
    ensures Returns(hs, ls, i, k) && forall i': nat :: Returns(hs, ls, i', k) ==> i' == i
    ensures j < i && ls[j].t == ls[i].t && Held(hs, ls[i].t, k, j + 1, i) && Claims(hs, ls, j, k, hs[i].loggers[ls[i].t].msg)
    ensures forall j': nat, m :: Claims(hs, ls, j', k, m) ==> j' == j
    ensures forall s :: 0 <= s < |hs[n].sinks| ==>
      k < |hs[n].sinks[s]| && hs[n].sinks[s][k] == hs[i].loggers[ls[i].t].msg
  {
    k := ReturnTakes(hs, ls, i);
    j := ReturnMeansQueued(hs, ls, i, k);
    forall i': nat | Returns(hs, ls, i', k) ensures i' == i { ReturnsApart(hs, ls, i, i', k); }
    forall s | 0 <= s < |hs[n].sinks|
      ensures k < |hs[n].sinks[s]| && hs[n].sinks[s][k] == hs[i].q.claimed[k]
    {
      EarlyClaimDelivered(hs, ls, i, n, s, k);
    }
  }

  /** A position claimed before termination was requested is in every sink when the worker has exited. */
  lemma EarlyClaimDelivered(hs: seq<Helper>, ls: seq<Label>, i: nat, n: nat, s: nat, k: nat)
    requires IsRun(hs, ls) && i < n < |hs| && NoOffCall(hs, ls, i + 1) && k < |hs[i].q.claimed|
    requires hs[n].workerPc == Exited && s < |hs[n].sinks|
    ensures k < |hs[n].sinks[s]| && hs[n].sinks[s][k] == hs[i].q.claimed[k]
  {
    RunQuiet(hs, ls, i + 1);
    RunGrows(hs, ls, i, i + 1);
    RunGrows(hs, ls, i + 1, n);
    ExitDelivers(hs, ls, n, s);
    QuietPrefix(hs[i].q.claimed, hs[i + 1].q.claimed, hs[n].q.claimed, hs[n].sinks[s], k);
  }

  /** The first termination message of the claim order comes after a quiet prefix of it. */
  lemma QuietPrefix(early: seq<Msg>, quiet: seq<Msg>, claimed: seq<Msg>, sink: seq<Msg>, k: nat)
    requires early <= quiet <= claimed && NoOff(quiet) && k < |early|
    requires |sink| < |claimed| && sink == claimed[..|sink|] && claimed[|sink|].off
    ensures k < |sink| && sink[k] == early[k]
  {
    assert forall i :: 0 <= i < |quiet| ==> claimed[i] == quiet[i] && !claimed[i].off;
  }

  /** Every entry of a sink comes from exactly one winning step, so nothing is delivered that was not logged. */
  lemma SinkEntryClaimed(hs: seq<Helper>, ls: seq<Label>, n: nat, s: nat, p: nat) returns (j: nat)
    requires IsRun(hs, ls) && n < |hs| && s < |hs[n].sinks| && p < |hs[n].sinks[s]|
    ensures j < n && Claims(hs, ls, j, p, hs[n].sinks[s][p])
    ensures forall j': nat, m :: Claims(hs, ls, j', p, m) ==> j' == j
  {
    SinksArePrefixes(hs, ls, n, s);
    j := ClaimedOnce(hs, ls, n, p);
  }

  // ---------- from a win to the return of the call ----------

  /** A logger that has won a position keeps it until its `log` call returns. */
  ghost predicate KeepsWin(h: Helper, t: Tid, h': Helper, u: Tid, k: nat) {
    u in h.q.pc && HoldsEnq(h.q.pc[u], k) ==>
      u in h'.q.pc && (HoldsEnq(h'.q.pc[u], k) || (u == t && LeavesWith(h, t, h', k)))
  }

  ghost predicate LeavesWith(h: Helper, t: Tid, h': Helper, k: nat) {
    LogBack(h, t, h') && h.q.pc[t] == EnqRet(Some(k)) && h'.loggers[t] == Out
  }

  lemma StepKeepsWin(h: Helper, t: Tid, m: Msg, h': Helper, u: Tid, k: nat)
    requires Inv(h) && Step(h, t, m, h')
    ensures KeepsWin(h, t, h', u, k)
  {
    if QueueStep(h, t, h') {
      QueueKeepsWin(h, t, h', u, k);
    } else if LogCall(h, t, m, h') || LogBack(h, t, h') {
      LogKeepsWin(h, t, m, h', u, k);
    } else {
      WorkerKeepsWin(h, t, h', u, k);
    }
  }

  lemma QueueKeepsWin(h: Helper, t: Tid, h': Helper, u: Tid, k: nat)
    requires Shape(h.q) && QueueStep(h, t, h')
    ensures KeepsWin(h, t, h', u, k)
  {
    A.StepKeeps(h.q, t, h'.q, u, k);
  }

  lemma LogKeepsWin(h: Helper, t: Tid, m: Msg, h': Helper, u: Tid, k: nat)
    requires LogCall(h, t, m, h') || LogBack(h, t, h')
    ensures KeepsWin(h, t, h', u, k)
  {
  }

  lemma WorkerKeepsWin(h: Helper, t: Tid, h': Helper, u: Tid, k: nat)
    requires WorkerPoll(h, h') || WorkerBack(h, h') || WorkerDeliver(h, h')
    ensures KeepsWin(h, t, h', u, k)
  {
  }

  ghost predicate AllKeepWin(hs: seq<Helper>, ls: seq<Label>, u: Tid, k: nat) {
    |hs| == |ls| + 1 && forall i {:trigger ls[i]} :: 0 <= i < |ls| ==> KeepsWin(hs[i], ls[i].t, hs[i + 1], u, k)
  }

  lemma {:induction false} HeldOn(hs: seq<Helper>, ls: seq<Label>, u: Tid, k: nat, m: nat, n: nat) returns (i: nat)
    requires AllKeepWin(hs, ls, u, k) && m <= n < |hs| && u in hs[m].q.pc && HoldsEnq(hs[m].q.pc[u], k)
    ensures m <= i <= n && Held(hs, u, k, m, i)
    ensures i < n ==> Returns(hs, ls, i, k) && ls[i].t == u && LeavesWith(hs[i], u, hs[i + 1], k)
    decreases n
  {
    i := n;
    if m < n {
      i := HeldOn(hs, ls, u, k, m, n - 1);
      if i == n - 1 {
        assert KeepsWin(hs[n - 1], ls[n - 1].t, hs[n], u, k);
        if u in hs[n].q.pc && HoldsEnq(hs[n].q.pc[u], k) { i := n; }
      }
    }
  }

  /** After its win a `log` call holds the position until it returns with it, or until the end of the run. */
  lemma ClaimReturns(hs: seq<Helper>, ls: seq<Label>, j: nat, n: nat, k: nat, m: Msg) returns (i: nat)
    requires IsRun(hs, ls) && Claims(hs, ls, j, k, m) && j < n < |hs|
    ensures j < i <= n && Held(hs, ls[j].t, k, j + 1, i)
    ensures i < n ==> Returns(hs, ls, i, k) && ls[i].t == ls[j].t && LeavesWith(hs[i], ls[j].t, hs[i + 1], k)
  {
    var u := ls[j].t;
    forall i | 0 <= i < |ls| ensures KeepsWin(hs[i], ls[i].t, hs[i + 1], u, k) {
      RunInv(hs, ls, i);
      assert StepAt(hs, ls, i);
      StepKeepsWin(hs[i], ls[i].t, ls[i].m, hs[i + 1], u, k);
    }
    i := HeldOn(hs, ls, u, k, j + 1, n);
  }

  /** A `log` call queues its message once: before a thread wins again, the call that won before has returned. */
  lemma LogWinsOnce(hs: seq<Helper>, ls: seq<Label>, j: nat, k: nat, m: Msg, j': nat, k': nat, m': Msg) returns (i: nat)
    requires IsRun(hs, ls) && Claims(hs, ls, j, k, m) && Claims(hs, ls, j', k', m') && j < j' && ls[j].t == ls[j'].t
    ensures j < i < j' && Returns(hs, ls, i, k) && ls[i].t == ls[j].t
  {
    i := ClaimReturns(hs, ls, j, j', k, m);
  }

  /** Under discard_log_msg a `log` call returns after one attempt, whatever its outcome. */
  lemma DiscardReturns(h: Helper, t: Tid, h': Helper)
    requires h.policy == DiscardLogMsg && LogBack(h, t, h')
    ensures h'.loggers[t] == Out && h'.q.pc[t] == Idle
  {
  }

  /** Under block_retry a failed attempt is repeated with the same message. */
  lemma RetryRepeats(h: Helper, t: Tid, h': Helper)
    requires h.policy == BlockRetry && LogBack(h, t, h') && h.q.pc[t] == EnqRet(None)
    ensures h'.loggers[t] == h.loggers[t] && h'.q.pc[t] == EnqLoad(h.loggers[t].msg)
  {
  }
}
