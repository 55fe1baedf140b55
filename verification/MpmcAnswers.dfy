/**
 What the answers of the queue's calls mean, over whole runs: a call answers true exactly when it has won a
 position, for its own item, and it wins at most one.
 */
module MpmcAnswers {
  import opened Basics
  import opened MpmcQueue

  /** A won position is kept until the step that leaves the call, and that step answers true with it. */
  ghost predicate Keeps<T>(s: State<T>, t: Tid, s': State<T>, u: Tid, k: nat) {
    && (u in s.pc ==> u in s'.pc)
    && (u in s.pc && HoldsEnq(s.pc[u], k) ==>
          HoldsEnq(s'.pc[u], k) || (u == t && s.pc[u] == EnqRet(Some(k)) && s'.pc[u] == Idle))
    && (u in s.pc && HoldsDeq(s.pc[u], k) ==>
          HoldsDeq(s'.pc[u], k) || (u == t && s.pc[u].DeqRet? && s'.pc[u] == Idle))
  }

  lemma StepKeeps<T>(s: State<T>, t: Tid, s': State<T>, u: Tid, k: nat)
    requires Shape(s) && Step(s, t, s')
    ensures Keeps(s, t, s', u, k)
  {
  }

  ghost predicate AllKeep<T>(ss: seq<State<T>>, ts: seq<Tid>, u: Tid, k: nat) {
    |ss| == |ts| + 1 && forall i {:trigger ts[i]} :: 0 <= i < |ts| ==> Keeps(ss[i], ts[i], ss[i + 1], u, k)
  }

  lemma RunKeeps<T>(ss: seq<State<T>>, ts: seq<Tid>, u: Tid, k: nat)
    requires IsRun(ss, ts)
    ensures AllKeep(ss, ts, u, k)
  {
    forall i | 0 <= i < |ts| ensures Keeps(ss[i], ts[i], ss[i + 1], u, k) {
      StepKeeps(ss[i], ts[i], ss[i + 1], u, k);
    }
  }

  lemma {:induction false} EnqHeldOn<T>(ss: seq<State<T>>, ts: seq<Tid>, u: Tid, k: nat, m: nat, n: nat) returns (j: nat)
    requires AllKeep(ss, ts, u, k) && m <= n < |ss| && u in ss[m].pc && HoldsEnq(ss[m].pc[u], k)
    ensures m <= j <= n && HeldEnq(ss, u, k, m, j)
    ensures j < n ==> EnqReturns(ss, ts, j, k) && ts[j] == u && u in ss[j + 1].pc && ss[j + 1].pc[u] == Idle
    decreases n
  {
    j := n;
    if m < n {
      j := EnqHeldOn(ss, ts, u, k, m, n - 1);
      if j == n - 1 {
        assert Keeps(ss[n - 1], ts[n - 1], ss[n], u, k);
        if HoldsEnq(ss[n].pc[u], k) { j := n; }
      }
    }
  }

  lemma {:induction false} DeqHeldOn<T>(ss: seq<State<T>>, ts: seq<Tid>, u: Tid, k: nat, m: nat, n: nat) returns (j: nat)
    requires AllKeep(ss, ts, u, k) && m <= n < |ss| && u in ss[m].pc && HoldsDeq(ss[m].pc[u], k)
    ensures m <= j <= n && HeldDeq(ss, u, k, m, j)
    ensures j < n ==> DeqReturns(ss, ts, j, k) && ts[j] == u && u in ss[j + 1].pc && ss[j + 1].pc[u] == Idle
    decreases n
  {
    j := n;
    if m < n {
      j := DeqHeldOn(ss, ts, u, k, m, n - 1);
      if j == n - 1 {
        assert Keeps(ss[n - 1], ts[n - 1], ss[n], u, k);
        if HoldsDeq(ss[n].pc[u], k) { j := n; }
      }
    }
  }

  /** After its win a call holds the position until it returns true with it, or until the end of the run. */
  lemma EnqClaimAnswered<T>(ss: seq<State<T>>, ts: seq<Tid>, i: nat, n: nat, k: nat, x: T) returns (j: nat)
    requires IsRun(ss, ts) && EnqClaims(ss, ts, i, k, x) && i < n < |ss|
    ensures i < j <= n && HeldEnq(ss, ts[i], k, i + 1, j)
    ensures j < n ==> EnqReturns(ss, ts, j, k) && ts[j] == ts[i] && ts[i] in ss[j + 1].pc && ss[j + 1].pc[ts[i]] == Idle
  {
    RunKeeps(ss, ts, ts[i], k);
    j := EnqHeldOn(ss, ts, ts[i], k, i + 1, n);
  }

  lemma DeqClaimAnswered<T>(ss: seq<State<T>>, ts: seq<Tid>, i: nat, n: nat, k: nat) returns (j: nat)
    requires IsRun(ss, ts) && DeqClaims(ss, ts, i, k) && i < n < |ss|
    ensures i < j <= n && HeldDeq(ss, ts[i], k, i + 1, j)
    ensures j < n ==> DeqReturns(ss, ts, j, k) && ts[j] == ts[i] && ts[i] in ss[j + 1].pc && ss[j + 1].pc[ts[i]] == Idle
  {
    RunKeeps(ss, ts, ts[i], k);
    j := DeqHeldOn(ss, ts, ts[i], k, i + 1, n);
  }

  // ---------- one call ----------

  /** Thread `u` begins a call at step `c` and is still in it in state `n`. */
  ghost predicate InCall<T>(ss: seq<State<T>>, u: Tid, c: nat, n: nat) {
    && c < n < |ss| && u in ss[c].pc && ss[c].pc[u] == Idle
    && forall i :: c < i <= n ==> u in ss[i].pc && ss[i].pc[u] != Idle
  }

  /** It has won position `k` for item `x` since. */
  ghost predicate EnqWonWithin<T>(ss: seq<State<T>>, ts: seq<Tid>, u: Tid, c: nat, n: nat, k: nat, x: T) {
    exists i :: c < i < n && i < |ts| && ts[i] == u && EnqClaims(ss, ts, i, k, x)
  }

  ghost predicate DeqWonWithin<T>(ss: seq<State<T>>, ts: seq<Tid>, u: Tid, c: nat, n: nat, k: nat) {
    exists i :: c < i < n && i < |ts| && ts[i] == u && DeqClaims(ss, ts, i, k)
  }

  /** Inside an enqueue call for `x`. */
  ghost predicate Enqueuing<T>(l: Pc<T>, x: T) {
    || l.EnqRet?
    || ((l.EnqLoad? || l.EnqSeq? || l.EnqCas? || l.EnqWrite? || l.EnqStore?) && l.item == x)
  }

  predicate Dequeuing<T>(l: Pc<T>) {
    l.DeqLoad? || l.DeqSeq? || l.DeqCas? || l.DeqRead? || l.DeqStore? || l.DeqRet?
  }

  /** A call stays an enqueue of its item, or a dequeue, until it is left. */
  ghost predicate Stays<T>(s: State<T>, s': State<T>, u: Tid, x: T) {
    u in s.pc && u in s'.pc && s'.pc[u] != Idle ==>
      (Enqueuing(s.pc[u], x) ==> Enqueuing(s'.pc[u], x)) && (Dequeuing(s.pc[u]) ==> Dequeuing(s'.pc[u]))
  }

  lemma StepStays<T>(s: State<T>, t: Tid, s': State<T>, u: Tid, x: T)
    requires Shape(s) && Step(s, t, s')
    ensures Stays(s, s', u, x)
  {
  }

  ghost predicate AllStay<T>(ss: seq<State<T>>, u: Tid, x: T) {
    forall i :: 0 <= i < |ss| - 1 ==> Stays(ss[i], ss[i + 1], u, x)
  }

  lemma RunStays<T>(ss: seq<State<T>>, ts: seq<Tid>, u: Tid, x: T)
    requires IsRun(ss, ts)
    ensures AllStay(ss, u, x)
  {
    forall i | 0 <= i < |ss| - 1 ensures Stays(ss[i], ss[i + 1], u, x) { StepStays(ss[i], ts[i], ss[i + 1], u, x); }
  }

  lemma {:induction false} CallKeepsItem<T>(ss: seq<State<T>>, u: Tid, c: nat, n: nat, x: T)
    requires AllStay(ss, u, x) && InCall(ss, u, c, n)
    ensures ss[c + 1].pc[u] == EnqLoad(x) ==> Enqueuing(ss[n].pc[u], x)
    ensures ss[c + 1].pc[u] == DeqLoad ==> Dequeuing(ss[n].pc[u])
    decreases n
  {
    if n > c + 1 {
      CallKeepsItem(ss, u, c, n - 1, x);
      assert Stays(ss[n - 1], ss[n - 1 + 1], u, x);
    }
  }

  /** A position won in this call is still held. */
  lemma EnqWonHeld<T>(ss: seq<State<T>>, ts: seq<Tid>, u: Tid, c: nat, n: nat, k: nat, x: T)
    requires IsRun(ss, ts) && InCall(ss, u, c, n) && EnqWonWithin(ss, ts, u, c, n, k, x)
    ensures HoldsEnq(ss[n].pc[u], k)
  {
    var i :| c < i < n && i < |ts| && ts[i] == u && EnqClaims(ss, ts, i, k, x);
    var j := EnqClaimAnswered(ss, ts, i, n, k, x);
    assert forall m :: c < m <= n ==> ss[m].pc[u] != Idle;
  }

  lemma DeqWonHeld<T>(ss: seq<State<T>>, ts: seq<Tid>, u: Tid, c: nat, n: nat, k: nat)
    requires IsRun(ss, ts) && InCall(ss, u, c, n) && DeqWonWithin(ss, ts, u, c, n, k)
    ensures HoldsDeq(ss[n].pc[u], k)
  {
    var i :| c < i < n && i < |ts| && ts[i] == u && DeqClaims(ss, ts, i, k);
    var j := DeqClaimAnswered(ss, ts, i, n, k);
    assert forall m :: c < m <= n ==> ss[m].pc[u] != Idle;
  }

  /** A position held in this call was won in it, for the call's item. */
  lemma EnqHeldWon<T>(ss: seq<State<T>>, ts: seq<Tid>, u: Tid, c: nat, n: nat, k: nat, x: T)
    requires IsRun(ss, ts) && InCall(ss, u, c, n) && ss[c + 1].pc[u] == EnqLoad(x) && HoldsEnq(ss[n].pc[u], k)
    ensures EnqWonWithin(ss, ts, u, c, n, k, x)
  {
    var j, y := EnqHeldFrom(ss, ts, n, u, k);
    assert !(j + 1 <= c);
    assert j != c;
    RunStays(ss, ts, u, x);
    CallKeepsItem(ss, u, c, j, x);
  }

  lemma DeqHeldWon<T>(ss: seq<State<T>>, ts: seq<Tid>, u: Tid, c: nat, n: nat, k: nat)
    requires IsRun(ss, ts) && InCall(ss, u, c, n) && HoldsDeq(ss[n].pc[u], k)
    ensures DeqWonWithin(ss, ts, u, c, n, k)
  {
    var j := DeqHeldFrom(ss, ts, n, u, k);
    assert !(j + 1 <= c);
    assert j != c;
  }

  /**
   An enqueue call of `x` that is about to answer says true with position `k` exactly when it has won `k`,
   for `x`.  So it answers false exactly when it has won nothing, and it wins at most one position.
   */
  lemma EnqAnswerExact<T>(ss: seq<State<T>>, ts: seq<Tid>, u: Tid, c: nat, n: nat, x: T)
    requires IsRun(ss, ts) && InCall(ss, u, c, n) && ss[c + 1].pc[u] == EnqLoad(x) && ss[n].pc[u].EnqRet?
    ensures forall k: nat :: ss[n].pc[u].won == Some(k) <==> EnqWonWithin(ss, ts, u, c, n, k, x)
    ensures forall k: nat, y :: EnqWonWithin(ss, ts, u, c, n, k, y) ==> ss[n].pc[u].won == Some(k)
  {
    forall k: nat, y | EnqWonWithin(ss, ts, u, c, n, k, y) ensures ss[n].pc[u].won == Some(k) {
      EnqWonHeld(ss, ts, u, c, n, k, y);
    }
    forall k: nat | ss[n].pc[u].won == Some(k) ensures EnqWonWithin(ss, ts, u, c, n, k, x) {
      EnqHeldWon(ss, ts, u, c, n, k, x);
    }
  }

  /** A dequeue call that is about to answer says true with position `k` exactly when it has won `k`. */
  lemma DeqAnswerExact<T>(ss: seq<State<T>>, ts: seq<Tid>, u: Tid, c: nat, n: nat)
    requires IsRun(ss, ts) && InCall(ss, u, c, n) && ss[n].pc[u].DeqRet?
    ensures forall k: nat :: HoldsDeq(ss[n].pc[u], k) <==> DeqWonWithin(ss, ts, u, c, n, k)
  {
    forall k: nat ensures HoldsDeq(ss[n].pc[u], k) <==> DeqWonWithin(ss, ts, u, c, n, k) {
      if HoldsDeq(ss[n].pc[u], k) { DeqHeldWon(ss, ts, u, c, n, k); }
      if DeqWonWithin(ss, ts, u, c, n, k) { DeqWonHeld(ss, ts, u, c, n, k); }
    }
  }
}
