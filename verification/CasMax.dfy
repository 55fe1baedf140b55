/**
 `compareAndIncreaseOnly` under interference: any number of threads run the compare-and-swap loop
 on one target, and they are its only writers.  Every step is one atomic operation on the target.
 */
module CasMax {
  import opened Basics

  datatype Pc =
    | Call(value: int)                      // about to load the target
    | Test(value: int, current: int)        // about to evaluate the loop guard
    | Cas(value: int, current: int)         // about to compare-and-swap
    | Reload(value: int)                    // the swap failed, about to load again
    | Done(value: int, result: bool)

  /** `installs` is a history of successful swaps, thread and value; no step reads it. */
  datatype State = State(target: int, pc: map<Tid, Pc>, installs: seq<(Tid, int)>)

  ghost predicate Init(s: State) {
    s.installs == [] && forall t :: t in s.pc ==> s.pc[t].Call?
  }

  function Goto(s: State, t: Tid, l: Pc): State { s.(pc := s.pc[t := l]) }

  ghost predicate Step(s: State, t: Tid, s': State) {
    t in s.pc &&
    match s.pc[t]
    case Call(v) => s' == Goto(s, t, Test(v, s.target))
    case Test(v, cur) => s' == Goto(s, t, if v > cur then Cas(v, cur) else Done(v, false))
    case Cas(v, cur) =>
      // CompareAndSet returns the previous value; the call compares it with `current`
      if s.target == cur then s' == Goto(s, t, Done(v, true)).(target := v, installs := s.installs + [(t, v)])
      else s' == Goto(s, t, Reload(v))
    case Reload(v) => s' == Goto(s, t, Test(v, s.target))
    case Done(_, _) => false
  }

  ghost predicate IsRun(ss: seq<State>, ts: seq<Tid>) {
    && |ss| == |ts| + 1
    && Init(ss[0])
    && forall i :: 0 <= i < |ts| ==> Step(ss[i], ts[i], ss[i + 1])
  }

  function Max(a: int, b: int): int { if a >= b then a else b }

  /** The greatest of an initial value and all installed values. */
  function Greatest(start: int, installs: seq<(Tid, int)>): (m: int)
    ensures m >= start && forall i :: 0 <= i < |installs| ==> m >= installs[i].1
    ensures m == start || exists i :: 0 <= i < |installs| && m == installs[i].1
  {
    if installs == [] then start
    else Max(Greatest(start, installs[..|installs| - 1]), installs[|installs| - 1].1)
  }

  ghost predicate Installed(s: State, t: Tid) {
    exists i :: 0 <= i < |s.installs| && s.installs[i].0 == t
  }

  ghost predicate ThreadOk(s: State, start: State, t: Tid)
    requires t in s.pc && t in start.pc
  {
    var l := s.pc[t];
    && l.value == start.pc[t].value
    && (l.Test? || l.Cas? ==> l.current <= s.target)
    && (l.Cas? ==> l.current < l.value)
    && (l.Done? ==> l.value <= s.target)
    && (Installed(s, t) <==> l.Done? && l.result)
  }

  /** The histories, apart from the threads. */
  ghost predicate Swaps(s: State, start: State) {
    && s.target == Greatest(start.target, s.installs)
    && (forall i :: 0 <= i < |s.installs| ==>
          s.installs[i].0 in s.pc && s.installs[i].0 in start.pc && s.installs[i].1 == start.pc[s.installs[i].0].value)
    && (forall i, j :: 0 <= i < j < |s.installs| ==> s.installs[i].0 != s.installs[j].0 && s.installs[i].1 < s.installs[j].1)
  }

  ghost predicate Threads(s: State, start: State) {
    s.pc.Keys == start.pc.Keys && forall t :: t in s.pc ==> ThreadOk(s, start, t)
  }

  ghost predicate Inv(s: State, start: State) { Threads(s, start) && Swaps(s, start) }

  /** A winning swap. */
  ghost function Swap(s: State, t: Tid, v: int): State {
    Goto(s, t, Done(v, true)).(target := v, installs := s.installs + [(t, v)])
  }

  lemma SwapSwaps(s: State, start: State, t: Tid, v: int)
    requires Swaps(s, start) && t in s.pc && t in start.pc && start.pc[t].value == v > s.target && !Installed(s, t)
    ensures Swaps(Swap(s, t, v), start)
  {
    var s' := Swap(s, t, v);
    assert s'.installs[..|s.installs|] == s.installs;
  }

  lemma SwapInstalled(s: State, t: Tid, v: int, u: Tid)
    ensures Installed(Swap(s, t, v), u) <==> u == t || Installed(s, u)
  {
    var s' := Swap(s, t, v);
    assert s'.installs[|s.installs|].0 == t;
    if Installed(s, u) {
      var i :| 0 <= i < |s.installs| && s.installs[i].0 == u;
      assert s'.installs[i].0 == u;
    }
  }

  lemma SwapThread(s: State, start: State, t: Tid, v: int, u: Tid)
    requires t in s.pc && t in start.pc && u in s.pc && u in start.pc && s.pc[t] == Cas(v, s.target)
    requires ThreadOk(s, start, t) && ThreadOk(s, start, u)
    ensures ThreadOk(Swap(s, t, v), start, u)
  {
    SwapInstalled(s, t, v, u);
  }

  lemma SwapThreads(s: State, start: State, t: Tid, v: int, s': State)
    requires Threads(s, start) && t in s.pc && s.pc[t] == Cas(v, s.target) && s' == Swap(s, t, v)
    ensures Threads(s', start)
  {
    forall u | u in s.pc ensures ThreadOk(s', start, u) {
      SwapThread(s, start, t, v, u);
    }
  }

  lemma SwapInv(s: State, start: State, t: Tid, v: int, s': State)
    requires Inv(s, start) && t in s.pc && s.pc[t] == Cas(v, s.target) && s' == Swap(s, t, v)
    ensures Inv(s', start) && s.target <= v
  {
    assert ThreadOk(s, start, t);
    SwapThreads(s, start, t, v, s');
    SwapSwaps(s, start, t, v);
  }

  /** Any other step leaves the target and its history alone. */
  lemma QuietStep(s: State, t: Tid, s': State)
    requires Step(s, t, s') && !(s.pc[t].Cas? && s.target == s.pc[t].current)
    ensures s'.target == s.target && s'.installs == s.installs && t in s'.pc && s'.pc == s.pc[t := s'.pc[t]]
  {
  }

  lemma QuietThread(s: State, start: State, t: Tid, s': State, u: Tid)
    requires Step(s, t, s') && !(s.pc[t].Cas? && s.target == s.pc[t].current)
    requires u in s.pc && u in start.pc && ThreadOk(s, start, u)
    ensures u in s'.pc && ThreadOk(s', start, u)
  {
    QuietStep(s, t, s');
    assert Installed(s', u) == Installed(s, u);
  }

  /** Every step keeps the invariant, whichever thread takes it, and moves the target only upwards. */
  lemma StepInv(s: State, start: State, t: Tid, s': State)
    requires Inv(s, start) && Step(s, t, s')
    ensures Inv(s', start) && s.target <= s'.target
  {
    if s.pc[t].Cas? && s.target == s.pc[t].current {
      SwapInv(s, start, t, s.pc[t].value, s');
    } else {
      QuietStep(s, t, s');
      forall u | u in s.pc ensures ThreadOk(s', start, u) { QuietThread(s, start, t, s', u); }
    }
  }

  lemma {:induction false} RunInv(ss: seq<State>, ts: seq<Tid>, n: nat)
    requires IsRun(ss, ts) && n < |ss|
    ensures Inv(ss[n], ss[0])
  {
    if n > 0 {
      RunInv(ss, ts, n - 1);
      StepInv(ss[n - 1], ss[0], ts[n - 1], ss[n]);
    }
  }

  /** The target never decreases. */
  lemma {:induction false} NeverDecreases(ss: seq<State>, ts: seq<Tid>, m: nat, n: nat)
    requires IsRun(ss, ts) && m <= n < |ss|
    ensures ss[m].target <= ss[n].target
    decreases n
  {
    if m < n {
      NeverDecreases(ss, ts, m, n - 1);
      RunInv(ss, ts, n - 1);
      StepInv(ss[n - 1], ss[0], ts[n - 1], ss[n]);
    }
  }

  /** Once every call has returned, the target is the maximum of its initial value and all arguments. */
  lemma EndsAtMaximum(ss: seq<State>, ts: seq<Tid>, n: nat)
    requires IsRun(ss, ts) && n < |ss| && forall t :: t in ss[n].pc ==> ss[n].pc[t].Done?
    ensures ss[n].target >= ss[0].target
    ensures forall t :: t in ss[0].pc ==> ss[n].target >= ss[0].pc[t].value
    ensures ss[n].target == ss[0].target || exists t :: t in ss[0].pc && ss[n].target == ss[0].pc[t].value
  {
    RunInv(ss, ts, n);
    forall t | t in ss[0].pc ensures ss[n].target >= ss[0].pc[t].value {
      assert ThreadOk(ss[n], ss[0], t);
    }
    if ss[n].target != ss[0].target {
      var i :| 0 <= i < |ss[n].installs| && ss[n].target == ss[n].installs[i].1;
      assert ss[n].installs[i].0 in ss[0].pc;
    }
  }

  /**
   A call returns true exactly when one of the swaps on the target was its own, and a thread installs
   at most once: the swaps form a strictly increasing sequence of different threads' arguments.
   */
  lemma TrueMeansInstalled(ss: seq<State>, ts: seq<Tid>, n: nat, t: Tid)
    requires IsRun(ss, ts) && n < |ss| && t in ss[n].pc && ss[n].pc[t].Done?
    ensures ss[n].pc[t].result <==> exists i :: 0 <= i < |ss[n].installs| && ss[n].installs[i] == (t, ss[n].pc[t].value)
    ensures forall i, j :: 0 <= i < j < |ss[n].installs| ==>
      ss[n].installs[i].0 != ss[n].installs[j].0 && ss[n].installs[i].1 < ss[n].installs[j].1
  {
    RunInv(ss, ts, n);
    assert ThreadOk(ss[n], ss[0], t);
    if Installed(ss[n], t) {
      var i :| 0 <= i < |ss[n].installs| && ss[n].installs[i].0 == t;
      assert ss[n].installs[i] == (t, ss[n].pc[t].value);
    }
  }

  /** How much further a call can still be pushed: its argument minus the value it last knew. */
  function Distance(value: int, current: int): nat { if value > current then value - current else 0 }

  /**
   `value - current` measures the loop under any interference: between a failed swap and the next
   test of the same call, whatever other threads did in between, the distance shrinks.
   */
  lemma RetryMakesProgress(ss: seq<State>, ts: seq<Tid>, m: nat, n: nat, t: Tid)
    requires IsRun(ss, ts) && m < n < |ts| && ts[m] == ts[n] == t
    requires t in ss[m].pc && ss[m].pc[t].Cas? && t in ss[m + 1].pc && ss[m + 1].pc[t].Reload?
    requires t in ss[n].pc && ss[n].pc[t].Reload? && ss[n].pc[t].value == ss[m].pc[t].value
    ensures t in ss[n + 1].pc && ss[n + 1].pc[t].Test?
    ensures Distance(ss[n + 1].pc[t].value, ss[n + 1].pc[t].current) < Distance(ss[m].pc[t].value, ss[m].pc[t].current)
  {
    RunInv(ss, ts, m);
    assert ThreadOk(ss[m], ss[0], t);
    assert Step(ss[m], ts[m], ss[m + 1]) && Step(ss[n], ts[n], ss[n + 1]);
    NeverDecreases(ss, ts, m, n);
  }
}
