/**
 Whole runs of the machine queue: below 2^63 wins they are first in first out without duplication, and a
 stale state that a run does reach.
 */
module MpmcRuns {
  import opened Basics
  import opened Arithmetic
  import opened MpmcQueue
  import opened MpmcMachine
  import opened MpmcAnswers

  // ---------- machine runs with fewer than 2^63 wins ----------

  /** Step `t` wins an enqueue position. */
  ghost predicate WinsStep<T>(m: Machine<T>, t: Tid, m': Machine<T>) {
    t in m.pc && t in m'.pc && m.pc[t].EnqCas? && m'.pc[t].EnqWrite?
  }

  /** The enqueues won by the first `n` steps. */
  ghost function EnqWins<T>(ms: seq<Machine<T>>, ts: seq<Tid>, n: nat): nat
    requires n <= |ts| < |ms|
  {
    if n == 0 then 0 else EnqWins(ms, ts, n - 1) + if WinsStep(ms[n - 1], ts[n - 1], ms[n]) then 1 else 0
  }

  lemma {:induction false} EnqWinsGrow<T>(ms: seq<Machine<T>>, ts: seq<Tid>, m: nat, n: nat)
    requires m <= n <= |ts| < |ms|
    ensures EnqWins(ms, ts, m) <= EnqWins(ms, ts, n)
    decreases n
  {
    if m < n { EnqWinsGrow(ms, ts, m, n - 1); }
  }

  lemma WinCounts<T>(u: State<T>, t: Tid, u': State<T>)
    requires Inv(u) && Shape(u') && Step(u, t, u')
    ensures u'.enqPos == u.enqPos + if WinsStep(Wrap(u), t, Wrap(u')) then 1 else 0
  {
    ClaimStep(u, t, u');
    if WinsStep(Wrap(u), t, Wrap(u')) { assert u.pc[t].EnqCas? && u'.pc[t].EnqWrite?; }
  }

  /** The enqueue position counts the wins. */
  lemma {:induction false} PositionCounts<T>(us: seq<State<T>>, ms: seq<Machine<T>>, ts: seq<Tid>, n: nat)
    requires Mirrors(us, ms, ts) && n < |us|
    ensures us[n].enqPos == EnqWins(ms, ts, n) && us[n].cap == us[0].cap && Inv(us[n])
  {
    RunInv(us, ts[..|us| - 1], n);
    if n > 0 {
      PositionCounts(us, ms, ts, n - 1);
      assert Step(us[n - 1], ts[..|us| - 1][n - 1], us[n]);
      WinCounts(us[n - 1], ts[n - 1], us[n]);
    }
  }

  /** The run wins so few enqueues that no position can become stale. */
  ghost predicate FewWins<T>(ms: seq<Machine<T>>, ts: seq<Tid>) {
    |ms| == |ts| + 1 && EnqWins(ms, ts, |ts|) <= HALF - (ms[0].mask + 1)
  }

  lemma FewWinsFresh<T>(us: seq<State<T>>, ms: seq<Machine<T>>, ts: seq<Tid>, n: nat, t: Tid)
    requires FewWins(ms, ts) && Mirrors(us, ms, ts) && n < |us| && t in us[n].pc
    ensures us[n].enqPos <= HALF - us[n].cap && Sized(us[n]) && FreshAt(us[n], us[n].pc[t])
  {
    PositionCounts(us, ms, ts, n);
    PositionCounts(us, ms, ts, |us| - 1);
    EnqWinsGrow(ms, ts, n, |ts|);
    FreshByLag(us[n], t);
  }

  /** A mirroring that stops only at a stale comparison does not stop. */
  lemma NotStopped<T>(us: seq<State<T>>, ms: seq<Machine<T>>, ts: seq<Tid>)
    requires FewWins(ms, ts) && Mirrors(us, ms, ts)
    requires |us| < |ms| ==> var u, t := us[|us| - 1], ts[|us| - 1]; t in u.pc && !FreshAt(u, u.pc[t])
    ensures |us| == |ms| && IsRun(us, ts)
  {
    assert ts[..|ts|] == ts;
    var n := |us| - 1;
    var u := us[n];
    forall t | t in u.pc ensures FreshAt(u, u.pc[t]) { FewWinsFresh(us, ms, ts, n, t); }
  }

  /** Such a run is the word view of a run with unbounded counters from its first state to its last. */
  lemma MirroredToEnd<T>(ms: seq<Machine<T>>, ts: seq<Tid>) returns (us: seq<State<T>>)
    requires IsMachineRun(ms, ts) && FewWins(ms, ts)
    ensures |us| == |ms| && Mirrors(us, ms, ts) && IsRun(us, ts)
  {
    us := SimulateRun(ms, ts);
    NotStopped(us, ms, ts);
  }

  /** Positions below 2^64 are their own words. */
  lemma SameLocations<T>(u: State<T>)
    requires Inv(u) && u.enqPos < HALF
    ensures WrapMap(u.pc) == u.pc
  {
    forall t | t in u.pc ensures WrapPc(u.pc[t]) == u.pc[t] {
      SameLocation(u, u.pc[t]);
    }
  }

  lemma SameLocation<T>(u: State<T>, l: Pc<T>)
    requires Counters(u) && ThreadOk(u, l) && u.enqPos < HALF
    ensures WrapPc(l) == l
  {
  }

  lemma RunLocations<T>(us: seq<State<T>>, ms: seq<Machine<T>>, ts: seq<Tid>, n: nat)
    requires FewWins(ms, ts) && Mirrors(us, ms, ts) && n < |us|
    ensures ms[n].pc == us[n].pc
  {
    PositionCounts(us, ms, ts, n);
    PositionCounts(us, ms, ts, |us| - 1);
    EnqWinsGrow(ms, ts, n, |ts|);
    SameLocations(us[n]);
  }

  /** Step `i` of the machine run wins position `k` for item `x`. */
  ghost predicate MEnqClaims<T>(ms: seq<Machine<T>>, ts: seq<Tid>, i: nat, k: nat, x: T) {
    && i < |ts| < |ms| && ts[i] in ms[i].pc && ts[i] in ms[i + 1].pc
    && ms[i].pc[ts[i]] == EnqCas(x, k) && ms[i + 1].pc[ts[i]] == EnqWrite(x, k)
  }

  ghost predicate MDeqClaims<T>(ms: seq<Machine<T>>, ts: seq<Tid>, i: nat, k: nat) {
    && i < |ts| < |ms| && ts[i] in ms[i].pc && ts[i] in ms[i + 1].pc
    && ms[i].pc[ts[i]] == DeqCas(k) && ms[i + 1].pc[ts[i]] == DeqRead(k)
  }

  /** Step `i` leaves a dequeue call that returns true for position `k`. */
  ghost predicate MDeqReturns<T>(ms: seq<Machine<T>>, ts: seq<Tid>, i: nat, k: nat) {
    i < |ts| < |ms| && ts[i] in ms[i].pc && ms[i].pc[ts[i]].DeqRet? && HoldsDeq(ms[i].pc[ts[i]], k)
  }

  /**
   First in, first out on the machine: a dequeue that returns position `k` won it itself, by the one step
   that claimed `k`, and returns the item of the one enqueue step that claimed `k`, which came first.
   */
  lemma MachineFifo<T>(ms: seq<Machine<T>>, ts: seq<Tid>, n: nat, u: Tid) returns (i: nat, j: nat)
    requires IsMachineRun(ms, ts) && FewWins(ms, ts) && n < |ms| && u in ms[n].pc && ms[n].pc[u].DeqRet? && ms[n].pc[u].got.Some?
    ensures var (k, y) := ms[n].pc[u].got.value;
      && i < j < n && ts[j] == u && MEnqClaims(ms, ts, i, k, y) && MDeqClaims(ms, ts, j, k)
      && (forall i': nat, x :: MEnqClaims(ms, ts, i', k, x) ==> i' == i)
      && (forall j': nat :: MDeqClaims(ms, ts, j', k) ==> j' == j)
  {
    var us := MirroredToEnd(ms, ts);
    forall m | 0 <= m < |ms| ensures ms[m].pc == us[m].pc { RunLocations(us, ms, ts, m); }
    i, j := Fifo(us, ts, n, u);
    var (k, y) := ms[n].pc[u].got.value;
    forall i': nat, x | MEnqClaims(ms, ts, i', k, x) ensures i' == i { assert EnqClaims(us, ts, i', k, x); }
    forall j': nat | MDeqClaims(ms, ts, j', k) ensures j' == j { assert DeqClaims(us, ts, j', k); }
  }

  /** On the machine no position is returned by two dequeue calls. */
  lemma MachineDequeuedOnce<T>(ms: seq<Machine<T>>, ts: seq<Tid>, i: nat, i': nat, k: nat)
    requires IsMachineRun(ms, ts) && FewWins(ms, ts) && MDeqReturns(ms, ts, i, k) && MDeqReturns(ms, ts, i', k)
    ensures i == i'
  {
    var us := MirroredToEnd(ms, ts);
    RunLocations(us, ms, ts, i);
    RunLocations(us, ms, ts, i');
    DequeuedOnce(us, ts, i, i', k);
  }

  /** Thread `u` begins a call at step `c` and is still in it in state `n`. */
  ghost predicate MInCall<T>(ms: seq<Machine<T>>, u: Tid, c: nat, n: nat) {
    && c < n < |ms| && u in ms[c].pc && ms[c].pc[u] == Idle
    && forall i :: c < i <= n ==> u in ms[i].pc && ms[i].pc[u] != Idle
  }

  ghost predicate MEnqWonWithin<T>(ms: seq<Machine<T>>, ts: seq<Tid>, u: Tid, c: nat, n: nat, k: nat, x: T) {
    exists i :: c < i < n && i < |ts| && ts[i] == u && MEnqClaims(ms, ts, i, k, x)
  }

  ghost predicate MDeqWonWithin<T>(ms: seq<Machine<T>>, ts: seq<Tid>, u: Tid, c: nat, n: nat, k: nat) {
    exists i :: c < i < n && i < |ts| && ts[i] == u && MDeqClaims(ms, ts, i, k)
  }

  /** The two runs agree on every thread, so they agree on the wins. */
  lemma SameEnqWins<T>(us: seq<State<T>>, ms: seq<Machine<T>>, ts: seq<Tid>, u: Tid, c: nat, n: nat, k: nat, x: T)
    requires |us| == |ms| == |ts| + 1 && n < |ms| && forall i :: 0 <= i < |ms| ==> ms[i].pc == us[i].pc
    ensures MEnqWonWithin(ms, ts, u, c, n, k, x) <==> EnqWonWithin(us, ts, u, c, n, k, x)
  {
    if MEnqWonWithin(ms, ts, u, c, n, k, x) {
      var i :| c < i < n && i < |ts| && ts[i] == u && MEnqClaims(ms, ts, i, k, x);
      assert EnqClaims(us, ts, i, k, x);
    }
    if EnqWonWithin(us, ts, u, c, n, k, x) {
      var i :| c < i < n && i < |ts| && ts[i] == u && EnqClaims(us, ts, i, k, x);
      assert MEnqClaims(ms, ts, i, k, x);
    }
  }

  lemma SameDeqWins<T>(us: seq<State<T>>, ms: seq<Machine<T>>, ts: seq<Tid>, u: Tid, c: nat, n: nat, k: nat)
    requires |us| == |ms| == |ts| + 1 && n < |ms| && forall i :: 0 <= i < |ms| ==> ms[i].pc == us[i].pc
    ensures MDeqWonWithin(ms, ts, u, c, n, k) <==> DeqWonWithin(us, ts, u, c, n, k)
  {
    if MDeqWonWithin(ms, ts, u, c, n, k) {
      var i :| c < i < n && i < |ts| && ts[i] == u && MDeqClaims(ms, ts, i, k);
      assert DeqClaims(us, ts, i, k);
    }
    if DeqWonWithin(us, ts, u, c, n, k) {
      var i :| c < i < n && i < |ts| && ts[i] == u && DeqClaims(us, ts, i, k);
      assert MDeqClaims(ms, ts, i, k);
    }
  }

  /** On the machine an enqueue call of `x` answers true with `k` exactly when it has won `k`, for `x`. */
  lemma MachineEnqAnswer<T>(ms: seq<Machine<T>>, ts: seq<Tid>, u: Tid, c: nat, n: nat, x: T)
    requires IsMachineRun(ms, ts) && FewWins(ms, ts) && MInCall(ms, u, c, n)
    requires ms[c + 1].pc[u] == EnqLoad(x) && ms[n].pc[u].EnqRet?
    ensures forall k: nat :: ms[n].pc[u].won == Some(k) <==> MEnqWonWithin(ms, ts, u, c, n, k, x)
  {
    var us := MirroredToEnd(ms, ts);
    forall m | 0 <= m < |ms| ensures ms[m].pc == us[m].pc { RunLocations(us, ms, ts, m); }
    EnqAnswerExact(us, ts, u, c, n, x);
    forall k: nat ensures ms[n].pc[u].won == Some(k) <==> MEnqWonWithin(ms, ts, u, c, n, k, x) {
      SameEnqWins(us, ms, ts, u, c, n, k, x);
    }
  }

  /** On the machine a dequeue call answers true with `k` exactly when it has won `k`. */
  lemma MachineDeqAnswer<T>(ms: seq<Machine<T>>, ts: seq<Tid>, u: Tid, c: nat, n: nat)
    requires IsMachineRun(ms, ts) && FewWins(ms, ts) && MInCall(ms, u, c, n) && ms[n].pc[u].DeqRet?
    ensures forall k: nat :: HoldsDeq(ms[n].pc[u], k) <==> MDeqWonWithin(ms, ts, u, c, n, k)
  {
    var us := MirroredToEnd(ms, ts);
    forall m | 0 <= m < |ms| ensures ms[m].pc == us[m].pc { RunLocations(us, ms, ts, m); }
    DeqAnswerExact(us, ts, u, c, n);
    forall k: nat ensures HoldsDeq(ms[n].pc[u], k) <==> MDeqWonWithin(ms, ts, u, c, n, k) {
      SameDeqWins(us, ms, ts, u, c, n, k);
    }
  }

  // ---------- a stale state that a run reaches ----------

  ghost predicate EndsRun(ss: seq<State<nat>>, ts: seq<Tid>, s: State<nat>) { IsRun(ss, ts) && ss[|ts|] == s }

  ghost predicate Reachable(s: State<nat>) { exists ss, ts :: EndsRun(ss, ts, s) }

  lemma ReachStep(s: State<nat>, t: Tid, s': State<nat>)
    requires Reachable(s) && Shape(s) && Step(s, t, s')
    ensures Reachable(s')
  {
    var ss, ts :| EndsRun(ss, ts, s);
    RunSnoc(ss, ts, t, s');
    assert EndsRun(ss + [s'], ts + [t], s');
  }

  /**
   A queue of two cells.  Thread 0 is about to test position 0; thread 1, at `l`, works on position `n`,
   whose cell shows `q`.
   */
  ghost function Lap(n: nat, enq: nat, deq: nat, q: nat, l: Pc<nat>): State<nat> {
    State(2, enq, deq, if n % 2 == 0 then [q, n + 1] else [n + 1, q], [0, 0],
          map[0 := EnqSeq(7, 0), 1 := l], seq(enq, i => 0))
  }

  /** The queue is empty, both counters stand at `n`, and thread 1 is between calls. */
  ghost function IdleAt(n: nat): State<nat> { Lap(n, n, n, n, Idle) }

  lemma LapCell(n: nat)
    ensures Cell(n, 2) == n % 2
  {
    CellIsRemainder(n, 2);
  }

  /** What thread 1's steps do to such a state. */
  lemma LapMoves(n: nat, e: nat, d: nat, q: nat, l: Pc<nat>)
    ensures var s := Lap(n, e, d, q, l);
      && (forall l' :: Goto(s, 1, l') == Lap(n, e, d, q, l'))
      && s.(enqPos := e + 1, claimed := s.claimed + [0]) == Lap(n, e + 1, d, q, l)
      && s.At(n) == n % 2 && s.seqs[n % 2] == q && s.data[n % 2 := 0] == s.data && s.data[n % 2] == 0
      && (forall q' :: s.(seqs := s.seqs[n % 2 := q']) == Lap(n, e, d, q', l))
  {
    LapCell(n);
    var s := Lap(n, e, d, q, l);
    forall l' ensures Goto(s, 1, l') == Lap(n, e, d, q, l') {
      assert s.pc[1 := l'] == Lap(n, e, d, q, l').pc;
    }
  }

  /** Thread 1 enqueues at position `n`: up to its winning swap, and from there to its return. */
  lemma EnqueueTry(n: nat)
    requires Reachable(IdleAt(n))
    ensures Reachable(Lap(n, n, n, n, EnqCas(0, n)))
  {
    LapMoves(n, n, n, n, Idle);
    ReachStep(IdleAt(n), 1, Lap(n, n, n, n, EnqLoad(0)));
    LapMoves(n, n, n, n, EnqLoad(0));
    ReachStep(Lap(n, n, n, n, EnqLoad(0)), 1, Lap(n, n, n, n, EnqSeq(0, n)));
    LapMoves(n, n, n, n, EnqSeq(0, n));
    ReachStep(Lap(n, n, n, n, EnqSeq(0, n)), 1, Lap(n, n, n, n, EnqCas(0, n)));
  }

  lemma EnqueueWin(n: nat)
    requires Reachable(Lap(n, n, n, n, EnqCas(0, n)))
    ensures Reachable(Lap(n, n + 1, n, n, EnqStore(0, n)))
  {
    LapMoves(n, n, n, n, EnqCas(0, n));
    LapMoves(n, n, n, n, EnqWrite(0, n));
    ReachStep(Lap(n, n, n, n, EnqCas(0, n)), 1, Lap(n, n + 1, n, n, EnqWrite(0, n)));
    LapMoves(n, n + 1, n, n, EnqWrite(0, n));
    ReachStep(Lap(n, n + 1, n, n, EnqWrite(0, n)), 1, Lap(n, n + 1, n, n, EnqStore(0, n)));
  }

  lemma EnqueueReturn(n: nat)
    requires Reachable(Lap(n, n + 1, n, n, EnqStore(0, n)))
    ensures Reachable(Lap(n, n + 1, n, n + 1, Idle))
  {
    LapMoves(n, n + 1, n, n, EnqStore(0, n));
    LapMoves(n, n + 1, n, n, EnqRet(Some(n)));
    ReachStep(Lap(n, n + 1, n, n, EnqStore(0, n)), 1, Lap(n, n + 1, n, n + 1, EnqRet(Some(n))));
    LapMoves(n, n + 1, n, n + 1, EnqRet(Some(n)));
    ReachStep(Lap(n, n + 1, n, n + 1, EnqRet(Some(n))), 1, Lap(n, n + 1, n, n + 1, Idle));
  }

  /** Thread 1 dequeues from position `n`. */
  lemma DequeueTry(n: nat)
    requires Reachable(Lap(n, n + 1, n, n + 1, Idle))
    ensures Reachable(Lap(n, n + 1, n, n + 1, DeqCas(n)))
  {
    LapMoves(n, n + 1, n, n + 1, Idle);
    ReachStep(Lap(n, n + 1, n, n + 1, Idle), 1, Lap(n, n + 1, n, n + 1, DeqLoad));
    LapMoves(n, n + 1, n, n + 1, DeqLoad);
    ReachStep(Lap(n, n + 1, n, n + 1, DeqLoad), 1, Lap(n, n + 1, n, n + 1, DeqSeq(n)));
    LapMoves(n, n + 1, n, n + 1, DeqSeq(n));
    ReachStep(Lap(n, n + 1, n, n + 1, DeqSeq(n)), 1, Lap(n, n + 1, n, n + 1, DeqCas(n)));
  }

  lemma DequeueWin(n: nat)
    requires Reachable(Lap(n, n + 1, n, n + 1, DeqCas(n)))
    ensures Reachable(Lap(n, n + 1, n + 1, n + 1, DeqStore(n, 0)))
  {
    LapMoves(n, n + 1, n, n + 1, DeqCas(n));
    ReachStep(Lap(n, n + 1, n, n + 1, DeqCas(n)), 1, Lap(n, n + 1, n + 1, n + 1, DeqRead(n)));
    LapMoves(n, n + 1, n + 1, n + 1, DeqRead(n));
    ReachStep(Lap(n, n + 1, n + 1, n + 1, DeqRead(n)), 1, Lap(n, n + 1, n + 1, n + 1, DeqStore(n, 0)));
  }

  lemma DequeueReturn(n: nat)
    requires Reachable(Lap(n, n + 1, n + 1, n + 1, DeqStore(n, 0)))
    ensures Reachable(IdleAt(n + 1))
  {
    LapMoves(n, n + 1, n + 1, n + 1, DeqStore(n, 0));
    LapMoves(n, n + 1, n + 1, n + 1, DeqRet(Some((n, 0))));
    ReachStep(Lap(n, n + 1, n + 1, n + 1, DeqStore(n, 0)), 1, Lap(n, n + 1, n + 1, n + 2, DeqRet(Some((n, 0)))));
    LapMoves(n, n + 1, n + 1, n + 2, DeqRet(Some((n, 0))));
    ReachStep(Lap(n, n + 1, n + 1, n + 2, DeqRet(Some((n, 0)))), 1, Lap(n, n + 1, n + 1, n + 2, Idle));
    assert Lap(n, n + 1, n + 1, n + 2, Idle) == IdleAt(n + 1);
  }

  /** From the constructed queue, thread 0 calls `enqueue` and loads position 0. */
  lemma StartLap()
    ensures Reachable(IdleAt(0))
  {
    var s0: State<nat> := State(2, 0, 0, [0, 1], [0, 0], map[0 := Idle, 1 := Idle], []);
    var s1 := Goto(s0, 0, EnqLoad(7));
    assert 2 == Pow2(1);
    var ts: seq<Tid> := [];
    assert EndsRun([s0], ts, s0);
    ReachStep(s0, 0, s1);
    assert Goto(s1, 0, EnqSeq(7, 0)) == IdleAt(0);
    ReachStep(s1, 0, IdleAt(0));
  }

  /** Thread 1's enqueues and dequeues carry the queue from position 0 to any position, past thread 0. */
  lemma {:induction false} ReachIdle(n: nat)
    ensures Reachable(IdleAt(n))
  {
    if n == 0 {
      StartLap();
    } else {
      ReachIdle(n - 1);
      EnqueueTry(n - 1);
      EnqueueWin(n - 1);
      EnqueueReturn(n - 1);
      DequeueTry(n - 1);
      DequeueWin(n - 1);
      DequeueReturn(n - 1);
    }
  }

  /**
   A lag below 2^63 is not enough: a run reaches an empty queue of two cells whose counters stand at
   2^63 - 1 while an enqueuer still holds position 0.  Its cell shows 2^63, which reads as negative, so
   the call reports a full queue.
   */
  lemma StaleBelowHalf() returns (u: State<nat>, m': Machine<nat>)
    ensures Reachable(u) && Sized(u) && 0 in u.pc && u.pc[0] == EnqSeq(7, 0)
    ensures u.enqPos == u.deqPos && u.enqPos - 0 < HALF && !FreshAt(u, u.pc[0])
    ensures MStep(Wrap(u), 0, m') && m'.pc[0] == EnqRet(None) && !HasImage(u, 0, m')
  {
    var n: nat := 0x7FFF_FFFF_FFFF_FFFF;
    u := IdleAt(n);
    ReachIdle(n);
    IdleAtShows(n);
    assert !SignShows(n + 1);
    m' := TestSteps(u, 0);
    StaleEnqueue(u, 0, m', 7, 0);
  }

  /** At an odd position, thread 0's cell shows the next position. */
  lemma IdleAtShows(n: nat)
    requires n % 2 == 1
    ensures var u := IdleAt(n); Sized(u) && u.At(0) == 0 && u.seqs[0] == n + 1
  {
    assert 2 == Pow2(1);
    LapCell(0);
  }
}
