/**
 The lock-free bounded queue as a transition system with unbounded counters.

 Any number of threads run `enqueue` and `dequeue`; every step is one atomic access to shared
 memory.  `claimed` is a history: it records the item of every winning enqueue, in claim order,
 and no step reads it.
 */
module MpmcQueue {
  import opened Basics
  import opened Arithmetic

  datatype Pc<+T> =
    | Idle
    | EnqLoad(item: T)                    // about to load the enqueue position
    | EnqSeq(item: T, pos: nat)           // about to load the cell's sequence
    | EnqCas(item: T, pos: nat)           // saw dif == 0, about to compare-and-swap
    | EnqWrite(item: T, pos: nat)         // won the position, about to write the item
    | EnqStore(item: T, pos: nat)         // about to publish through the sequence
    | EnqRet(won: Option<nat>)            // returning true (with the position) or false
    | DeqLoad
    | DeqSeq(pos: nat)
    | DeqCas(pos: nat)
    | DeqRead(pos: nat)
    | DeqStore(pos: nat, item: T)
    | DeqRet(got: Option<(nat, T)>)

  datatype State<T> = State(
    cap: nat,
    enqPos: nat,
    deqPos: nat,
    seqs: seq<nat>,
    data: seq<T>,
    pc: map<Tid, Pc<T>>,
    claimed: seq<T>)
  {
    function At(k: nat): (i: nat)
      requires cap > 0
      ensures i < cap
    {
      Cell(k, cap)
    }
  }

  ghost predicate Shape<T>(s: State<T>) {
    s.cap >= 2 && |s.seqs| == |s.data| == s.cap
  }

  /** The constructor: `cap` is a power of two and cell `i` starts with sequence `i`. */
  ghost predicate Init<T>(s: State<T>) {
    && Shape(s) && IsPow2(s.cap)
    && s.enqPos == s.deqPos == 0
    && s.claimed == []
    && (forall i :: 0 <= i < s.cap ==> s.seqs[i] == i)
    && (forall t :: t in s.pc ==> s.pc[t] == Idle)
  }

  function Goto<T>(s: State<T>, t: Tid, l: Pc<T>): (r: State<T>) {
    s.(pc := s.pc[t := l])
  }

  /** One atomic step of thread `t` inside a call. */
  ghost predicate Step<T>(s: State<T>, t: Tid, s': State<T>)
    requires Shape(s)
  {
    t in s.pc &&
    match s.pc[t]
    case Idle => t in s'.pc && (s'.pc[t].EnqLoad? || s'.pc[t].DeqLoad?) && s' == Goto(s, t, s'.pc[t])
    case EnqLoad(x) => s' == Goto(s, t, EnqSeq(x, s.enqPos))
    case EnqSeq(x, pos) =>
      var dif := s.seqs[s.At(pos)] - pos;
      s' == Goto(s, t, if dif == 0 then EnqCas(x, pos) else if dif < 0 then EnqRet(None) else EnqLoad(x))
    case EnqCas(x, pos) =>
      // a weak compare-and-swap may fail although the values agree; a failure reloads the position
      || s' == Goto(s, t, EnqSeq(x, s.enqPos))
      || (s.enqPos == pos &&
          s' == Goto(s, t, EnqWrite(x, pos)).(enqPos := pos + 1, claimed := s.claimed + [x]))
    case EnqWrite(x, pos) => s' == Goto(s, t, EnqStore(x, pos)).(data := s.data[s.At(pos) := x])
    case EnqStore(x, pos) => s' == Goto(s, t, EnqRet(Some(pos))).(seqs := s.seqs[s.At(pos) := pos + 1])
    case EnqRet(_) => s' == Goto(s, t, Idle)
    case DeqLoad => s' == Goto(s, t, DeqSeq(s.deqPos))
    case DeqSeq(pos) =>
      var dif := s.seqs[s.At(pos)] - (pos + 1);
      s' == Goto(s, t, if dif == 0 then DeqCas(pos) else if dif < 0 then DeqRet(None) else DeqLoad)
    case DeqCas(pos) =>
      || s' == Goto(s, t, DeqSeq(s.deqPos))
      || (s.deqPos == pos && s' == Goto(s, t, DeqRead(pos)).(deqPos := pos + 1))
    case DeqRead(pos) => s' == Goto(s, t, DeqStore(pos, s.data[s.At(pos)]))
    case DeqStore(pos, x) => s' == Goto(s, t, DeqRet(Some((pos, x)))).(seqs := s.seqs[s.At(pos) := pos + s.cap])
    case DeqRet(_) => s' == Goto(s, t, Idle)
  }

  // ---------- the invariant ----------

  predicate Writing<T>(l: Pc<T>) { l.EnqWrite? || l.EnqStore? }
  predicate Reading<T>(l: Pc<T>) { l.DeqRead? || l.DeqStore? }

  /** Between its winning compare-and-swap and its sequence store. */
  predicate InFlight<T>(l: Pc<T>) { Writing(l) || Reading(l) }

  /** Two in-flight threads of the same side: both writing or both reading. */
  predicate SameSide<T>(l: Pc<T>, m: Pc<T>) { (Writing(l) && Writing(m)) || (Reading(l) && Reading(m)) }

  ghost predicate HasWriter<T>(s: State<T>, k: nat) {
    exists t :: t in s.pc && Writing(s.pc[t]) && s.pc[t].pos == k
  }

  ghost predicate HasReader<T>(s: State<T>, k: nat) {
    exists t :: t in s.pc && Reading(s.pc[t]) && s.pc[t].pos == k
  }

  ghost predicate Counters<T>(s: State<T>) {
    Shape(s) && s.deqPos <= s.enqPos <= s.deqPos + s.cap && |s.claimed| == s.enqPos
  }

  /** What the sequence of the cell of position `k` can be, for `k` in the current window. */
  ghost predicate SlotOk<T>(s: State<T>, k: nat)
    requires Counters(s)
  {
    var q := s.seqs[s.At(k)];
    if k < s.enqPos then
      || (q == k && HasWriter(s, k))
      || (q == k + 1 && s.data[s.At(k)] == s.claimed[k])
    else
      || q == k
      || (k >= s.cap && q + s.cap == k + 1 && HasReader(s, k - s.cap))
  }

  ghost predicate Slots<T>(s: State<T>)
    requires Counters(s)
  {
    forall k: nat :: s.deqPos <= k < s.deqPos + s.cap ==> SlotOk(s, k)
  }

  ghost predicate ThreadOk<T>(s: State<T>, l: Pc<T>)
    requires Counters(s)
  {
    match l
    case EnqSeq(_, pos) => pos <= s.enqPos
    case EnqCas(_, pos) => pos <= s.enqPos && (pos == s.enqPos ==> pos < s.deqPos + s.cap && s.seqs[s.At(pos)] == pos)
    case EnqWrite(x, pos) => s.deqPos <= pos < s.enqPos && s.seqs[s.At(pos)] == pos && s.claimed[pos] == x
    case EnqStore(x, pos) =>
      s.deqPos <= pos < s.enqPos && s.seqs[s.At(pos)] == pos && s.claimed[pos] == x && s.data[s.At(pos)] == x
    case EnqRet(won) => won.Some? ==> won.value < s.enqPos
    case DeqSeq(pos) => pos <= s.deqPos
    case DeqCas(pos) => pos <= s.deqPos && (pos == s.deqPos ==> pos < s.enqPos && s.seqs[s.At(pos)] == pos + 1)
    case DeqRead(pos) =>
      pos < s.deqPos && s.enqPos <= pos + s.cap && s.seqs[s.At(pos)] == pos + 1 && s.data[s.At(pos)] == s.claimed[pos]
    case DeqStore(pos, x) =>
      pos < s.deqPos && s.enqPos <= pos + s.cap && s.seqs[s.At(pos)] == pos + 1 && s.claimed[pos] == x
    case DeqRet(got) => got.Some? ==> got.value.0 < s.deqPos && got.value.1 == s.claimed[got.value.0]
    case _ => true
  }

  ghost predicate Locals<T>(s: State<T>)
    requires Counters(s)
  {
    forall t :: t in s.pc ==> ThreadOk(s, s.pc[t])
  }

  /** No two threads in flight at the same position of the same side. */
  ghost predicate Exclusive<T>(s: State<T>) {
    forall t, u :: t in s.pc && u in s.pc && t != u && SameSide(s.pc[t], s.pc[u]) ==> s.pc[t].pos != s.pc[u].pos
  }

  ghost predicate Inv<T>(s: State<T>) {
    Counters(s) && Slots(s) && Locals(s) && Exclusive(s)
  }

  lemma {:induction false} InitInv<T>(s: State<T>)
    requires Init(s)
    ensures Inv(s)
  {
  }

  // ---------- every step keeps the invariant ----------

  /** A step that only moves one thread, without entering or leaving the in-flight region. */
  lemma MoveInv<T>(s: State<T>, t: Tid, l: Pc<T>)
    requires Inv(s) && t in s.pc && ThreadOk(s, l)
    requires !InFlight(s.pc[t]) && !InFlight(l)
    ensures Inv(Goto(s, t, l))
  {
    var s' := Goto(s, t, l);
    forall k: nat | s.deqPos <= k < s.deqPos + s.cap ensures SlotOk(s', k) {
      KeepSlot(s, t, s', k);
    }
  }

  /** A cell that shows sequence `pos` to an enqueuer at the current position is free. */
  lemma SeenFree<T>(s: State<T>, pos: nat)
    requires Inv(s) && pos == s.enqPos && s.seqs[s.At(pos)] == pos
    ensures pos < s.deqPos + s.cap
  {
    CellLap(s.deqPos, s.cap);
    assert SlotOk(s, s.deqPos);
  }

  /** A cell that shows sequence `pos + 1` to a dequeuer at the current position is published. */
  lemma SeenFull<T>(s: State<T>, pos: nat)
    requires Inv(s) && pos == s.deqPos && s.seqs[s.At(pos)] == pos + 1
    ensures pos < s.enqPos
  {
    assert SlotOk(s, pos);
  }

  /** Thread `t` owns the cell of slot `k`, whichever lap it is working on. */
  predicate Owns<T>(cap: nat, l: Pc<T>, k: nat) {
    (Writing(l) && l.pos == k) || (Reading(l) && l.pos + cap == k)
  }

  /** A slot whose cell and lap are untouched, and which the moving thread did not own, stays good. */
  lemma KeepSlot<T>(s: State<T>, t: Tid, s': State<T>, k: nat)
    requires Counters(s) && Counters(s') && s'.cap == s.cap && SlotOk(s, k)
    requires t in s.pc && s'.pc.Keys == s.pc.Keys && forall u :: u in s.pc && u != t ==> s'.pc[u] == s.pc[u]
    requires s'.seqs[s.At(k)] == s.seqs[s.At(k)] && s'.data[s.At(k)] == s.data[s.At(k)]
    requires k < s.enqPos <==> k < s'.enqPos
    requires k < s.enqPos ==> s'.claimed[k] == s.claimed[k]
    requires Owns(s.cap, s.pc[t], k) ==> Owns(s.cap, s'.pc[t], k) && Writing(s'.pc[t]) == Writing(s.pc[t])
    ensures SlotOk(s', k)
  {
  }

  /** The winning compare-and-swap of an enqueue. */
  ghost function EnqClaim<T>(s: State<T>, t: Tid, x: T, pos: nat): State<T> {
    Goto(s, t, EnqWrite(x, pos)).(enqPos := pos + 1, claimed := s.claimed + [x])
  }

  lemma EnqClaimLocal<T>(s: State<T>, t: Tid, x: T, pos: nat, u: Tid)
    requires Inv(s) && t in s.pc && s.pc[t] == EnqCas(x, pos) && s.enqPos == pos && u in s.pc
    requires Counters(EnqClaim(s, t, x, pos))
    ensures ThreadOk(EnqClaim(s, t, x, pos), EnqClaim(s, t, x, pos).pc[u])
  {
    assert ThreadOk(s, s.pc[t]) && ThreadOk(s, s.pc[u]);
    if Reading(s.pc[u]) && s.pc[u].pos + s.cap == pos {
      CellLap(s.pc[u].pos, s.cap);
    }
  }

  lemma EnqClaimSlots<T>(s: State<T>, t: Tid, x: T, pos: nat)
    requires Inv(s) && t in s.pc && s.pc[t] == EnqCas(x, pos) && s.enqPos == pos
    ensures Counters(EnqClaim(s, t, x, pos)) && Slots(EnqClaim(s, t, x, pos))
  {
    var s' := EnqClaim(s, t, x, pos);
    assert ThreadOk(s, s.pc[t]);
    forall k: nat | s.deqPos <= k < s.deqPos + s.cap ensures SlotOk(s', k) {
      if k == pos { assert t in s'.pc && Writing(s'.pc[t]) && s'.pc[t].pos == k; } else { KeepSlot(s, t, s', k); }
    }
  }

  lemma EnqClaimInv<T>(s: State<T>, t: Tid, x: T, pos: nat)
    requires Inv(s) && t in s.pc && s.pc[t] == EnqCas(x, pos) && s.enqPos == pos
    ensures Inv(EnqClaim(s, t, x, pos))
  {
    var s' := EnqClaim(s, t, x, pos);
    EnqClaimSlots(s, t, x, pos);
    forall u | u in s'.pc ensures ThreadOk(s', s'.pc[u]) {
      EnqClaimLocal(s, t, x, pos, u);
    }
    assert Exclusive(s') by {
      forall u | u in s.pc && u != t && Writing(s.pc[u]) ensures s.pc[u].pos != pos { assert ThreadOk(s, s.pc[u]); }
    }
  }

  /** Different positions of one window live in different cells. */
  lemma CellApart<T>(s: State<T>, j: nat, k: nat)
    requires Shape(s)
    ensures j != k && j < k + s.cap && k < j + s.cap ==> s.At(j) != s.At(k)
  {
    CellsDiffer(j, k, s.cap);
  }

  /** Two threads in flight never touch the same cell. */
  lemma InFlightApart<T>(s: State<T>, t: Tid, u: Tid)
    requires Inv(s) && t in s.pc && u in s.pc && t != u && InFlight(s.pc[t]) && InFlight(s.pc[u])
    ensures s.At(s.pc[t].pos) != s.At(s.pc[u].pos)
  {
    assert ThreadOk(s, s.pc[t]) && ThreadOk(s, s.pc[u]);
    CellApart(s, s.pc[t].pos, s.pc[u].pos);
  }

  /** Writing the item into the claimed cell. */
  ghost function Fill<T>(s: State<T>, t: Tid, x: T, pos: nat): State<T>
    requires Shape(s)
  {
    Goto(s, t, EnqStore(x, pos)).(data := s.data[s.At(pos) := x])
  }

  lemma EnqWriteSlots<T>(s: State<T>, t: Tid, x: T, pos: nat)
    requires Inv(s) && t in s.pc && s.pc[t] == EnqWrite(x, pos)
    ensures Counters(Fill(s, t, x, pos)) && Slots(Fill(s, t, x, pos))
  {
    var s' := Fill(s, t, x, pos);
    assert ThreadOk(s, s.pc[t]);
    forall k: nat | s.deqPos <= k < s.deqPos + s.cap ensures SlotOk(s', k) {
      CellApart(s, pos, k);
      if k == pos { assert t in s'.pc && Writing(s'.pc[t]) && s'.pc[t].pos == k; } else { KeepSlot(s, t, s', k); }
    }
  }

  lemma EnqWriteInv<T>(s: State<T>, t: Tid, x: T, pos: nat)
    requires Inv(s) && t in s.pc && s.pc[t] == EnqWrite(x, pos)
    ensures Inv(Fill(s, t, x, pos))
  {
    var s' := Fill(s, t, x, pos);
    EnqWriteSlots(s, t, x, pos);
    forall u | u in s'.pc ensures ThreadOk(s', s'.pc[u]) {
      assert ThreadOk(s, s.pc[u]);
      if u != t && InFlight(s.pc[u]) { InFlightApart(s, t, u); }
    }
  }

  /** Storing a sequence number into the cell that thread `t` holds in flight, and leaving the flight. */
  ghost function Publish<T>(s: State<T>, t: Tid, pos: nat, q: nat, l: Pc<T>): State<T>
    requires Shape(s)
  {
    Goto(s, t, l).(seqs := s.seqs[s.At(pos) := q])
  }

  lemma PublishLocal<T>(s: State<T>, t: Tid, pos: nat, q: nat, l: Pc<T>, u: Tid)
    requires Inv(s) && t in s.pc && InFlight(s.pc[t]) && s.pc[t].pos == pos && u in s.pc && u != t
    requires Counters(Publish(s, t, pos, q, l))
    ensures ThreadOk(Publish(s, t, pos, q, l), s.pc[u])
  {
    var v := s.pc[u];
    assert ThreadOk(s, s.pc[t]) && ThreadOk(s, v);
    if InFlight(v) {
      InFlightApart(s, t, u);
    } else if (v.EnqCas? && v.pos == s.enqPos) || (v.DeqCas? && v.pos == s.deqPos) {
      assert SlotOk(s, v.pos);
      CellLap(pos, s.cap);
      CellApart(s, pos, v.pos);
      CellApart(s, pos + s.cap, v.pos);
    }
  }

  lemma PublishLocals<T>(s: State<T>, t: Tid, pos: nat, q: nat, l: Pc<T>)
    requires Inv(s) && t in s.pc && InFlight(s.pc[t]) && s.pc[t].pos == pos && !InFlight(l)
    requires Counters(Publish(s, t, pos, q, l)) && ThreadOk(Publish(s, t, pos, q, l), l)
    ensures Locals(Publish(s, t, pos, q, l)) && Exclusive(Publish(s, t, pos, q, l))
  {
    forall u | u in s.pc && u != t ensures ThreadOk(Publish(s, t, pos, q, l), s.pc[u]) {
      PublishLocal(s, t, pos, q, l, u);
    }
  }

  /** A slot other than the one being handed over keeps its cell. */
  lemma PublishSlot<T>(s: State<T>, t: Tid, own: nat, pos: nat, q: nat, l: Pc<T>, k: nat)
    requires Inv(s) && t in s.pc && InFlight(s.pc[t]) && s.pc[t].pos == pos && !InFlight(l)
    requires Owns(s.cap, s.pc[t], own) && s.At(own) == s.At(pos)
    requires s.deqPos <= own < s.deqPos + s.cap && s.deqPos <= k < s.deqPos + s.cap && k != own
    requires Counters(Publish(s, t, pos, q, l))
    ensures SlotOk(Publish(s, t, pos, q, l), k)
  {
    CellApart(s, own, k);
    KeepSlot(s, t, Publish(s, t, pos, q, l), k);
  }

  lemma EnqStoreSlots<T>(s: State<T>, t: Tid, x: T, pos: nat)
    requires Inv(s) && t in s.pc && s.pc[t] == EnqStore(x, pos)
    ensures var s' := Publish(s, t, pos, pos + 1, EnqRet(Some(pos))); Counters(s') && Slots(s')
  {
    var s' := Publish(s, t, pos, pos + 1, EnqRet(Some(pos)));
    assert ThreadOk(s, s.pc[t]);
    forall k: nat | s.deqPos <= k < s.deqPos + s.cap && k != pos ensures SlotOk(s', k) {
      PublishSlot(s, t, pos, pos, pos + 1, EnqRet(Some(pos)), k);
    }
  }

  lemma EnqStoreInv<T>(s: State<T>, t: Tid, x: T, pos: nat)
    requires Inv(s) && t in s.pc && s.pc[t] == EnqStore(x, pos)
    ensures Inv(Publish(s, t, pos, pos + 1, EnqRet(Some(pos))))
  {
    assert ThreadOk(s, s.pc[t]);
    EnqStoreSlots(s, t, x, pos);
    PublishLocals(s, t, pos, pos + 1, EnqRet(Some(pos)));
  }

  lemma DeqStoreSlots<T>(s: State<T>, t: Tid, pos: nat, x: T)
    requires Inv(s) && t in s.pc && s.pc[t] == DeqStore(pos, x)
    ensures var s' := Publish(s, t, pos, pos + s.cap, DeqRet(Some((pos, x)))); Counters(s') && Slots(s')
  {
    var s' := Publish(s, t, pos, pos + s.cap, DeqRet(Some((pos, x))));
    assert ThreadOk(s, s.pc[t]);
    CellLap(pos, s.cap);
    forall k: nat | s.deqPos <= k < s.deqPos + s.cap && k != pos + s.cap ensures SlotOk(s', k) {
      PublishSlot(s, t, pos + s.cap, pos, pos + s.cap, DeqRet(Some((pos, x))), k);
    }
  }

  lemma DeqStoreReturns<T>(s: State<T>, t: Tid, pos: nat, x: T)
    requires Inv(s) && t in s.pc && s.pc[t] == DeqStore(pos, x)
    ensures var s' := Publish(s, t, pos, pos + s.cap, DeqRet(Some((pos, x))));
      Counters(s') && ThreadOk(s', DeqRet(Some((pos, x))))
  {
    assert ThreadOk(s, s.pc[t]);
  }

  lemma DeqStoreInv<T>(s: State<T>, t: Tid, pos: nat, x: T)
    requires Inv(s) && t in s.pc && s.pc[t] == DeqStore(pos, x)
    ensures Inv(Publish(s, t, pos, pos + s.cap, DeqRet(Some((pos, x)))))
  {
    DeqStoreReturns(s, t, pos, x);
    DeqStoreSlots(s, t, pos, x);
    PublishLocals(s, t, pos, pos + s.cap, DeqRet(Some((pos, x))));
  }

  /** The winning compare-and-swap of a dequeue. */
  ghost function DeqClaim<T>(s: State<T>, t: Tid, pos: nat): State<T> {
    Goto(s, t, DeqRead(pos)).(deqPos := pos + 1)
  }

  lemma DeqClaimSlots<T>(s: State<T>, t: Tid, pos: nat)
    requires Inv(s) && t in s.pc && s.pc[t] == DeqCas(pos) && s.deqPos == pos
    ensures Counters(DeqClaim(s, t, pos)) && Slots(DeqClaim(s, t, pos))
  {
    var s' := DeqClaim(s, t, pos);
    assert ThreadOk(s, s.pc[t]) && SlotOk(s, pos);
    CellLap(pos, s.cap);
    forall k: nat | s'.deqPos <= k < s'.deqPos + s'.cap ensures SlotOk(s', k) {
      if k < s.deqPos + s.cap {
        KeepSlot(s, t, s', k);
      } else {
        assert t in s'.pc && Reading(s'.pc[t]) && s'.pc[t].pos == pos;
        assert HasReader(s', k - s.cap);
      }
    }
  }

  lemma DeqClaimInv<T>(s: State<T>, t: Tid, pos: nat)
    requires Inv(s) && t in s.pc && s.pc[t] == DeqCas(pos) && s.deqPos == pos
    ensures Inv(DeqClaim(s, t, pos))
  {
    var s' := DeqClaim(s, t, pos);
    assert ThreadOk(s, s.pc[t]) && SlotOk(s, pos);
    DeqClaimSlots(s, t, pos);
    forall u | u in s'.pc ensures ThreadOk(s', s'.pc[u]) && (u != t && Reading(s.pc[u]) ==> s.pc[u].pos != pos) {
      assert ThreadOk(s, s.pc[u]);
    }
  }

  /** Moving the item out of the claimed cell. */
  lemma DeqReadInv<T>(s: State<T>, t: Tid, pos: nat)
    requires Inv(s) && t in s.pc && s.pc[t] == DeqRead(pos)
    ensures Inv(Goto(s, t, DeqStore(pos, s.data[s.At(pos)])))
  {
    var s' := Goto(s, t, DeqStore(pos, s.data[s.At(pos)]));
    assert Slots(s') by {
      forall k: nat | s.deqPos <= k < s.deqPos + s.cap ensures SlotOk(s', k) {
        KeepSlot(s, t, s', k);
      }
    }
    forall u | u in s'.pc ensures ThreadOk(s', s'.pc[u]) {
      assert ThreadOk(s, s.pc[u]);
    }
  }

  lemma EnqSeqInv<T>(s: State<T>, t: Tid, s': State<T>, x: T, pos: nat)
    requires Inv(s) && Step(s, t, s') && s.pc[t] == EnqSeq(x, pos)
    ensures Inv(s')
  {
    assert ThreadOk(s, s.pc[t]);
    if s.seqs[s.At(pos)] == pos == s.enqPos { SeenFree(s, pos); }
    MoveInv(s, t, s'.pc[t]);
  }

  lemma EnqCasInv<T>(s: State<T>, t: Tid, s': State<T>, x: T, pos: nat)
    requires Inv(s) && Step(s, t, s') && s.pc[t] == EnqCas(x, pos)
    ensures Inv(s')
  {
    if s' == Goto(s, t, EnqSeq(x, s.enqPos)) { MoveInv(s, t, s'.pc[t]); } else { EnqClaimInv(s, t, x, pos); }
  }

  lemma DeqSeqInv<T>(s: State<T>, t: Tid, s': State<T>, pos: nat)
    requires Inv(s) && Step(s, t, s') && s.pc[t] == DeqSeq(pos)
    ensures Inv(s')
  {
    assert ThreadOk(s, s.pc[t]);
    if s.seqs[s.At(pos)] == pos + 1 && pos == s.deqPos { SeenFull(s, pos); }
    MoveInv(s, t, s'.pc[t]);
  }

  lemma DeqCasInv<T>(s: State<T>, t: Tid, s': State<T>, pos: nat)
    requires Inv(s) && Step(s, t, s') && s.pc[t] == DeqCas(pos)
    ensures Inv(s')
  {
    if s' == Goto(s, t, DeqSeq(s.deqPos)) { MoveInv(s, t, s'.pc[t]); } else { DeqClaimInv(s, t, pos); }
  }

  lemma EnqWriteStep<T>(s: State<T>, t: Tid, s': State<T>, x: T, pos: nat)
    requires Inv(s) && Step(s, t, s') && s.pc[t] == EnqWrite(x, pos)
    ensures Inv(s')
  {
    assert s' == Fill(s, t, x, pos);
    EnqWriteInv(s, t, x, pos);
  }

  lemma EnqStoreStep<T>(s: State<T>, t: Tid, s': State<T>, x: T, pos: nat)
    requires Inv(s) && Step(s, t, s') && s.pc[t] == EnqStore(x, pos)
    ensures Inv(s')
  {
    assert s' == Publish(s, t, pos, pos + 1, EnqRet(Some(pos)));
    EnqStoreInv(s, t, x, pos);
  }

  lemma DeqStoreStep<T>(s: State<T>, t: Tid, s': State<T>, pos: nat, x: T)
    requires Inv(s) && Step(s, t, s') && s.pc[t] == DeqStore(pos, x)
    ensures Inv(s')
  {
    assert s' == Publish(s, t, pos, pos + s.cap, DeqRet(Some((pos, x))));
    DeqStoreInv(s, t, pos, x);
  }

  lemma EnqStepInv<T>(s: State<T>, t: Tid, s': State<T>)
    requires Inv(s) && Step(s, t, s')
    requires s.pc[t].EnqSeq? || s.pc[t].EnqCas? || Writing(s.pc[t])
    ensures Inv(s')
  {
    match s.pc[t]
    case EnqSeq(x, pos) => EnqSeqInv(s, t, s', x, pos);
    case EnqCas(x, pos) => EnqCasInv(s, t, s', x, pos);
    case EnqWrite(x, pos) => EnqWriteStep(s, t, s', x, pos);
    case EnqStore(x, pos) => EnqStoreStep(s, t, s', x, pos);
  }

  lemma DeqStepInv<T>(s: State<T>, t: Tid, s': State<T>)
    requires Inv(s) && Step(s, t, s')
    requires s.pc[t].DeqSeq? || s.pc[t].DeqCas? || Reading(s.pc[t])
    ensures Inv(s')
  {
    match s.pc[t]
    case DeqSeq(pos) => DeqSeqInv(s, t, s', pos);
    case DeqCas(pos) => DeqCasInv(s, t, s', pos);
    case DeqRead(pos) => DeqReadInv(s, t, pos);
    case DeqStore(pos, x) => DeqStoreStep(s, t, s', pos, x);
  }

  /** Every step keeps the invariant. */
  lemma StepInv<T>(s: State<T>, t: Tid, s': State<T>)
    requires Inv(s) && Step(s, t, s')
    ensures Inv(s')
  {
    var l := s.pc[t];
    if l.EnqSeq? || l.EnqCas? || Writing(l) {
      EnqStepInv(s, t, s');
    } else if l.DeqSeq? || l.DeqCas? || Reading(l) {
      DeqStepInv(s, t, s');
    } else {
      MoveInv(s, t, s'.pc[t]);
    }
  }

  // ---------- runs ----------

  ghost predicate IsRun<T>(ss: seq<State<T>>, ts: seq<Tid>) {
    && |ss| == |ts| + 1
    && Init(ss[0])
    && forall i :: 0 <= i < |ts| ==> Shape(ss[i]) && Step(ss[i], ts[i], ss[i + 1])
  }

  /** The invariant holds in every state of every run. */
  lemma {:induction false} RunInv<T>(ss: seq<State<T>>, ts: seq<Tid>, n: nat)
    requires IsRun(ss, ts) && n < |ss|
    ensures Inv(ss[n]) && ss[n].cap == ss[0].cap
  {
    if n == 0 {
      InitInv(ss[0]);
    } else {
      RunInv(ss, ts, n - 1);
      assert Step(ss[n - 1], ts[n - 1], ss[n]);
      StepInv(ss[n - 1], ts[n - 1], ss[n]);
    }
  }

  /**
   Safety of every reachable state: the counters stay one capacity apart, and the cells that
   in-flight threads touch are pairwise different, so `data` is never accessed by two threads at once.
   */
  lemma RunSafe<T>(ss: seq<State<T>>, ts: seq<Tid>, n: nat)
    requires IsRun(ss, ts) && n < |ss|
    ensures var s := ss[n];
      && Shape(s)
      && 0 <= s.enqPos - s.deqPos <= s.cap
      && forall t, u :: t in s.pc && u in s.pc && t != u && InFlight(s.pc[t]) && InFlight(s.pc[u])
           ==> s.At(s.pc[t].pos) != s.At(s.pc[u].pos)
  {
    RunInv(ss, ts, n);
    var s := ss[n];
    forall t, u | t in s.pc && u in s.pc && t != u && InFlight(s.pc[t]) && InFlight(s.pc[u])
      ensures s.At(s.pc[t].pos) != s.At(s.pc[u].pos)
    {
      InFlightApart(s, t, u);
    }
  }

  /** The counters, the history and the sequences only grow. */
  ghost predicate Grows<T>(s: State<T>, s': State<T>) {
    && s.enqPos <= s'.enqPos && s.deqPos <= s'.deqPos && s.claimed <= s'.claimed
    && |s'.seqs| == |s.seqs| && forall i :: 0 <= i < |s.seqs| ==> s.seqs[i] <= s'.seqs[i]
  }

  lemma StepGrows<T>(s: State<T>, t: Tid, s': State<T>)
    requires Inv(s) && Step(s, t, s')
    ensures Grows(s, s')
  {
    assert ThreadOk(s, s.pc[t]);
  }

  ghost predicate AllGrow<T>(ss: seq<State<T>>) {
    forall i :: 0 <= i < |ss| - 1 ==> Grows(ss[i], ss[i + 1])
  }

  lemma {:induction false} GrowsTo<T>(ss: seq<State<T>>, m: nat, n: nat)
    requires AllGrow(ss) && m <= n < |ss|
    ensures Grows(ss[m], ss[n])
    decreases n
  {
    if m < n {
      GrowsTo(ss, m, n - 1);
      assert Grows(ss[n - 1], ss[n]);
    }
  }

  /** Over every run, no counter and no cell sequence ever decreases and the claim order is never rewritten. */
  lemma RunGrows<T>(ss: seq<State<T>>, ts: seq<Tid>)
    requires IsRun(ss, ts)
    ensures forall m, n :: 0 <= m <= n < |ss| ==> Grows(ss[m], ss[n])
  {
    forall i | 0 <= i < |ss| - 1 ensures Grows(ss[i], ss[i + 1]) {
      RunInv(ss, ts, i);
      StepGrows(ss[i], ts[i], ss[i + 1]);
    }
    forall m, n | 0 <= m <= n < |ss| ensures Grows(ss[m], ss[n]) {
      GrowsTo(ss, m, n);
    }
  }

  // ---------- claims, first in first out ----------

  /** Thread `t` wins the enqueue compare-and-swap at position `k` with item `x`. */
  ghost predicate WinsEnq<T>(s: State<T>, t: Tid, s': State<T>, k: nat, x: T) {
    t in s.pc && t in s'.pc && s.pc[t] == EnqCas(x, k) && s'.pc[t] == EnqWrite(x, k)
  }

  ghost predicate WinsDeq<T>(s: State<T>, t: Tid, s': State<T>, k: nat) {
    t in s.pc && t in s'.pc && s.pc[t] == DeqCas(k) && s'.pc[t] == DeqRead(k)
  }

  /** A claim takes exactly the current position; a counter moves only by a claim. */
  lemma ClaimStep<T>(s: State<T>, t: Tid, s': State<T>)
    requires Inv(s) && Step(s, t, s')
    ensures forall k: nat, x :: WinsEnq(s, t, s', k, x) ==> s.enqPos == k && s'.enqPos == k + 1 && s'.claimed == s.claimed + [x]
    ensures forall k: nat :: WinsDeq(s, t, s', k) ==> s.deqPos == k && s'.deqPos == k + 1 && k < s.enqPos
    ensures s'.enqPos != s.enqPos ==>
      s'.enqPos == s.enqPos + 1 && |s'.claimed| == s'.enqPos && WinsEnq(s, t, s', s.enqPos, s'.claimed[s.enqPos])
    ensures s'.deqPos != s.deqPos ==> s'.deqPos == s.deqPos + 1 && WinsDeq(s, t, s', s.deqPos)
  {
    assert ThreadOk(s, s.pc[t]);
  }

  ghost predicate EnqClaims<T>(ss: seq<State<T>>, ts: seq<Tid>, i: nat, k: nat, x: T) {
    i < |ts| && |ss| == |ts| + 1 && WinsEnq(ss[i], ts[i], ss[i + 1], k, x)
  }

  ghost predicate DeqClaims<T>(ss: seq<State<T>>, ts: seq<Tid>, i: nat, k: nat) {
    i < |ts| && |ss| == |ts| + 1 && WinsDeq(ss[i], ts[i], ss[i + 1], k)
  }

  lemma RunClaimStep<T>(ss: seq<State<T>>, ts: seq<Tid>, i: nat)
    requires IsRun(ss, ts) && i < |ts|
    ensures forall k: nat, x :: EnqClaims(ss, ts, i, k, x) ==>
      ss[i].enqPos == k && ss[i + 1].enqPos == k + 1 && ss[i + 1].claimed == ss[i].claimed + [x] && |ss[i].claimed| == k
    ensures forall k: nat :: DeqClaims(ss, ts, i, k) ==> ss[i].deqPos == k && ss[i + 1].deqPos == k + 1 && k < ss[i].enqPos
    ensures ss[i + 1].enqPos != ss[i].enqPos ==> var k := ss[i].enqPos;
      ss[i + 1].enqPos == k + 1 == |ss[i + 1].claimed| && EnqClaims(ss, ts, i, k, ss[i + 1].claimed[k])
    ensures ss[i + 1].deqPos != ss[i].deqPos ==> ss[i + 1].deqPos == ss[i].deqPos + 1 && DeqClaims(ss, ts, i, ss[i].deqPos)
  {
    RunInv(ss, ts, i);
    ClaimStep(ss[i], ts[i], ss[i + 1]);
  }

  /** Every position below the enqueue counter was claimed by exactly one step of the run. */
  lemma {:induction false} EnqClaimedOnce<T>(ss: seq<State<T>>, ts: seq<Tid>, n: nat, k: nat) returns (i: nat, x: T)
    requires IsRun(ss, ts) && n < |ss| && k < ss[n].enqPos
    ensures i < n && EnqClaims(ss, ts, i, k, x) && k < |ss[n].claimed| && ss[n].claimed[k] == x
    ensures forall j: nat, y :: j < |ts| && EnqClaims(ss, ts, j, k, y) ==> j == i
  {
    assert Init(ss[0]);
    i := 0;
    while ss[i + 1].enqPos <= k
      invariant i < n && ss[i].enqPos <= k
      decreases n - i
    {
      i := i + 1;
    }
    RunClaimStep(ss, ts, i);
    RunGrows(ss, ts);
    assert Grows(ss[i + 1], ss[n]);
    x := ss[n].claimed[k];
    forall j: nat, y | j < |ts| && EnqClaims(ss, ts, j, k, y) ensures j == i {
      RunClaimStep(ss, ts, j);
    }
  }

  /** Every position below the dequeue counter was claimed by exactly one dequeue step of the run. */
  lemma {:induction false} DeqClaimedOnce<T>(ss: seq<State<T>>, ts: seq<Tid>, n: nat, k: nat) returns (i: nat)
    requires IsRun(ss, ts) && n < |ss| && k < ss[n].deqPos
    ensures i < n && DeqClaims(ss, ts, i, k) && k < ss[i].enqPos
    ensures forall j: nat :: j < |ts| && DeqClaims(ss, ts, j, k) ==> j == i
  {
    assert Init(ss[0]);
    i := 0;
    while ss[i + 1].deqPos <= k
      invariant i < n && ss[i].deqPos <= k
      decreases n - i
    {
      i := i + 1;
    }
    RunClaimStep(ss, ts, i);
    RunGrows(ss, ts);
    forall j: nat | j < |ts| && DeqClaims(ss, ts, j, k) ensures j == i {
      RunClaimStep(ss, ts, j);
    }
  }

  // ---------- a call and the position it won ----------

  /** The thread is in the enqueue call that won position `k`, after the win. */
  predicate HoldsEnq<T>(l: Pc<T>, k: nat) { (Writing(l) && l.pos == k) || (l.EnqRet? && l.won == Some(k)) }

  predicate HoldsDeq<T>(l: Pc<T>, k: nat) {
    (Reading(l) && l.pos == k) || (l.DeqRet? && l.got.Some? && l.got.value.0 == k)
  }

  /** A position is held because it was held before, or because this step won it. */
  lemma HeldStep<T>(s: State<T>, t: Tid, s': State<T>, u: Tid, k: nat)
    requires Shape(s) && Step(s, t, s') && u in s'.pc
    ensures u in s.pc
    ensures HoldsEnq(s'.pc[u], k) ==> HoldsEnq(s.pc[u], k) || (u == t && exists x :: WinsEnq(s, t, s', k, x))
    ensures HoldsDeq(s'.pc[u], k) ==> HoldsDeq(s.pc[u], k) || (u == t && WinsDeq(s, t, s', k))
  {
    if u == t && HoldsEnq(s'.pc[u], k) && s.pc[t].EnqCas? {
      assert WinsEnq(s, t, s', k, s.pc[t].item);
    }
  }

  /** From state `m` to state `n` thread `u` stays in the one call that won `k`. */
  ghost predicate HeldEnq<T>(ss: seq<State<T>>, u: Tid, k: nat, m: nat, n: nat) {
    forall i :: m <= i <= n && i < |ss| ==> u in ss[i].pc && HoldsEnq(ss[i].pc[u], k)
  }

  ghost predicate HeldDeq<T>(ss: seq<State<T>>, u: Tid, k: nat, m: nat, n: nat) {
    forall i :: m <= i <= n && i < |ss| ==> u in ss[i].pc && HoldsDeq(ss[i].pc[u], k)
  }

  /** The call that holds `k` won it itself, and has not been left since. */
  lemma {:induction false} EnqHeldFrom<T>(ss: seq<State<T>>, ts: seq<Tid>, n: nat, u: Tid, k: nat) returns (j: nat, x: T)
    requires IsRun(ss, ts) && n < |ss| && u in ss[n].pc && HoldsEnq(ss[n].pc[u], k)
    ensures j < n && ts[j] == u && EnqClaims(ss, ts, j, k, x) && HeldEnq(ss, u, k, j + 1, n)
    decreases n
  {
    assert n > 0;
    assert Step(ss[n - 1], ts[n - 1], ss[n]);
    HeldStep(ss[n - 1], ts[n - 1], ss[n], u, k);
    if HoldsEnq(ss[n - 1].pc[u], k) {
      j, x := EnqHeldFrom(ss, ts, n - 1, u, k);
    } else {
      j := n - 1;
      x :| WinsEnq(ss[n - 1], u, ss[n], k, x);
    }
  }

  lemma {:induction false} DeqHeldFrom<T>(ss: seq<State<T>>, ts: seq<Tid>, n: nat, u: Tid, k: nat) returns (j: nat)
    requires IsRun(ss, ts) && n < |ss| && u in ss[n].pc && HoldsDeq(ss[n].pc[u], k)
    ensures j < n && ts[j] == u && DeqClaims(ss, ts, j, k) && HeldDeq(ss, u, k, j + 1, n)
    decreases n
  {
    assert n > 0;
    assert Step(ss[n - 1], ts[n - 1], ss[n]);
    HeldStep(ss[n - 1], ts[n - 1], ss[n], u, k);
    if HoldsDeq(ss[n - 1].pc[u], k) {
      j := DeqHeldFrom(ss, ts, n - 1, u, k);
    } else {
      j := n - 1;
    }
  }

  /** A returning dequeue names a claimed position and carries the item claimed there. */
  lemma ReturnOk<T>(ss: seq<State<T>>, ts: seq<Tid>, n: nat, u: Tid)
    requires IsRun(ss, ts) && n < |ss| && u in ss[n].pc
    requires ss[n].pc[u].DeqRet? && ss[n].pc[u].got.Some?
    ensures var (k, y) := ss[n].pc[u].got.value;
      k < ss[n].deqPos <= ss[n].enqPos == |ss[n].claimed| && ss[n].claimed[k] == y
  {
    RunInv(ss, ts, n);
    assert ThreadOk(ss[n], ss[n].pc[u]);
  }

  /**
   First in, first out: whatever the interleaving, a dequeue that returns position `k` won it itself, in
   the same call, by the one dequeue step that claimed `k`; it returns the item of the one enqueue step
   that claimed `k`, and that step came first.
   */
  lemma Fifo<T>(ss: seq<State<T>>, ts: seq<Tid>, n: nat, u: Tid) returns (i: nat, j: nat)
    requires IsRun(ss, ts) && n < |ss| && u in ss[n].pc
    requires ss[n].pc[u].DeqRet? && ss[n].pc[u].got.Some?
    ensures var (k, y) := ss[n].pc[u].got.value;
      && i < j < n && EnqClaims(ss, ts, i, k, y) && DeqClaims(ss, ts, j, k)
      && ts[j] == u && HeldDeq(ss, u, k, j + 1, n)
      && (forall i': nat, x :: i' < |ts| && EnqClaims(ss, ts, i', k, x) ==> i' == i)
      && (forall j': nat :: j' < |ts| && DeqClaims(ss, ts, j', k) ==> j' == j)
  {
    ReturnOk(ss, ts, n, u);
    var k := ss[n].pc[u].got.value.0;
    var x: T;
    i, x := EnqClaimedOnce(ss, ts, n, k);
    j := DeqClaimedOnce(ss, ts, n, k);
    var i', x' := EnqClaimedOnce(ss, ts, j, k);
    var j' := DeqHeldFrom(ss, ts, n, u, k);
  }

  /** Step `i` leaves an enqueue call that returns true for position `k`. */
  ghost predicate EnqReturns<T>(ss: seq<State<T>>, ts: seq<Tid>, i: nat, k: nat) {
    i < |ts| < |ss| && ts[i] in ss[i].pc && ss[i].pc[ts[i]] == EnqRet(Some(k))
  }

  /** Step `i` leaves a dequeue call that returns true for position `k`. */
  ghost predicate DeqReturns<T>(ss: seq<State<T>>, ts: seq<Tid>, i: nat, k: nat) {
    i < |ts| < |ss| && ts[i] in ss[i].pc && ss[i].pc[ts[i]].DeqRet? && HoldsDeq(ss[i].pc[ts[i]], k)
  }

  /** No position is returned by two dequeue calls: nothing is delivered twice. */
  lemma DequeuedOnce<T>(ss: seq<State<T>>, ts: seq<Tid>, i: nat, i': nat, k: nat)
    requires IsRun(ss, ts) && DeqReturns(ss, ts, i, k) && DeqReturns(ss, ts, i', k)
    ensures i == i'
  {
    NoDeqReturnAfter(ss, ts, i, i', k);
    NoDeqReturnAfter(ss, ts, i', i, k);
  }

  lemma NoDeqReturnAfter<T>(ss: seq<State<T>>, ts: seq<Tid>, i: nat, i': nat, k: nat)
    requires IsRun(ss, ts) && DeqReturns(ss, ts, i, k) && DeqReturns(ss, ts, i', k)
    ensures i' <= i
  {
    var j := DeqHeldFrom(ss, ts, i, ts[i], k);
    var j' := DeqHeldFrom(ss, ts, i', ts[i'], k);
    RunClaimStep(ss, ts, j);
    RunClaimStep(ss, ts, j');
    RunGrows(ss, ts);
    assert j == j' && ts[i] == ts[i'];
    assert Step(ss[i], ts[i], ss[i + 1]);
    assert !HoldsDeq(ss[i + 1].pc[ts[i]], k);
  }

  /** No position is returned by two enqueue calls: every true answer stands for its own item. */
  lemma EnqueuedOnce<T>(ss: seq<State<T>>, ts: seq<Tid>, i: nat, i': nat, k: nat)
    requires IsRun(ss, ts) && EnqReturns(ss, ts, i, k) && EnqReturns(ss, ts, i', k)
    ensures i == i'
  {
    NoEnqReturnAfter(ss, ts, i, i', k);
    NoEnqReturnAfter(ss, ts, i', i, k);
  }

  lemma NoEnqReturnAfter<T>(ss: seq<State<T>>, ts: seq<Tid>, i: nat, i': nat, k: nat)
    requires IsRun(ss, ts) && EnqReturns(ss, ts, i, k) && EnqReturns(ss, ts, i', k)
    ensures i' <= i
  {
    var j, x := EnqHeldFrom(ss, ts, i, ts[i], k);
    var j', x' := EnqHeldFrom(ss, ts, i', ts[i'], k);
    RunClaimStep(ss, ts, j);
    RunClaimStep(ss, ts, j');
    RunGrows(ss, ts);
    assert j == j' && ts[i] == ts[i'];
    assert Step(ss[i], ts[i], ss[i + 1]);
    assert !HoldsEnq(ss[i + 1].pc[ts[i]], k);
  }

  // ---------- refinement of an atomic bounded FIFO ----------

  /** The queued items: claimed by an enqueue and not yet by a dequeue. */
  ghost function Queue<T>(s: State<T>): seq<T>
    requires Counters(s)
  {
    s.claimed[s.deqPos..]
  }

  /** A winning enqueue appends, and there was room. */
  lemma ClaimAppends<T>(s: State<T>, t: Tid, x: T, pos: nat)
    requires Counters(s) && s.enqPos == pos < s.deqPos + s.cap && t in s.pc
    ensures |Queue(s)| < s.cap && Queue(EnqClaim(s, t, x, pos)) == Queue(s) + [x]
  {
    var c, d := s.claimed, s.deqPos;
    assert (c + [x])[d..] == c[d..] + [x];
  }

  /** A winning dequeue removes the head. */
  lemma ClaimRemoves<T>(s: State<T>, t: Tid, pos: nat)
    requires Counters(s) && s.deqPos == pos < s.enqPos && t in s.pc
    ensures Counters(DeqClaim(s, t, pos)) && Queue(DeqClaim(s, t, pos)) == Queue(s)[1..] && s.claimed[pos] == Queue(s)[0]
  {
    var c, d := s.claimed, s.deqPos;
    assert c[d + 1..] == c[d..][1..];
  }

  /** Every other step leaves the queued items alone. */
  lemma OtherStepInvisible<T>(s: State<T>, t: Tid, s': State<T>)
    requires Shape(s) && Step(s, t, s')
    requires !(s.pc[t].EnqCas? && s'.pc[t].EnqWrite?) && !(s.pc[t].DeqCas? && s'.pc[t].DeqRead?)
    ensures s'.claimed == s.claimed && s'.deqPos == s.deqPos
  {
  }

  /** Every step is an atomic FIFO append within capacity, an atomic removal of the head, or invisible. */
  lemma RefinesFifo<T>(s: State<T>, t: Tid, s': State<T>)
    requires Inv(s) && Step(s, t, s')
    ensures Counters(s') && t in s'.pc
    ensures
      if s.pc[t].EnqCas? && s'.pc[t].EnqWrite? then
        |Queue(s)| < s.cap && Queue(s') == Queue(s) + [s.pc[t].item]
      else if s.pc[t].DeqCas? && s'.pc[t].DeqRead? then
        |Queue(s)| > 0 && Queue(s') == Queue(s)[1..] && s.claimed[s'.pc[t].pos] == Queue(s)[0]
      else
        Queue(s') == Queue(s)
  {
    StepInv(s, t, s');
    if s.pc[t].EnqCas? && s'.pc[t].EnqWrite? {
      assert ThreadOk(s, s.pc[t]);
      ClaimAppends(s, t, s.pc[t].item, s.pc[t].pos);
    } else if s.pc[t].DeqCas? && s'.pc[t].DeqRead? {
      assert ThreadOk(s, s.pc[t]);
      ClaimRemoves(s, t, s.pc[t].pos);
    } else {
      OtherStepInvisible(s, t, s');
    }
  }

  /** `enqueue` gives up only at the current position, while the item one lap earlier is not fully removed. */
  lemma EnqFailMeans<T>(s: State<T>, t: Tid, s': State<T>)
    requires Inv(s) && Step(s, t, s') && s.pc[t].EnqSeq? && s'.pc[t] == EnqRet(None)
    ensures s.pc[t].pos == s.enqPos >= s.cap
    ensures var back := s.enqPos - s.cap;
      s.deqPos <= back || HasReader(s, back)
  {
    var pos := s.pc[t].pos;
    assert ThreadOk(s, s.pc[t]);
    SeqAtLeast(s, pos);
    if pos < s.deqPos + s.cap { assert SlotOk(s, pos); }
  }

  /** A cell never shows a sequence below an already claimed position. */
  lemma SeqAtLeast<T>(s: State<T>, pos: nat)
    requires Inv(s)
    ensures pos < s.enqPos ==> s.seqs[s.At(pos)] >= pos
    ensures pos < s.deqPos ==> s.seqs[s.At(pos)] > pos
    decreases s.deqPos - pos
  {
    if pos < s.deqPos {
      CellLap(pos, s.cap);
      SeqAtLeast(s, pos + s.cap);
      if pos + s.cap >= s.deqPos {
        assert SlotOk(s, pos + s.cap);
      }
    } else if pos < s.enqPos {
      assert SlotOk(s, pos);
    }
  }

  /** `dequeue` gives up only at the current position, while its item is not published. */
  lemma DeqFailMeans<T>(s: State<T>, t: Tid, s': State<T>)
    requires Inv(s) && Step(s, t, s') && s.pc[t].DeqSeq? && s'.pc[t] == DeqRet(None)
    ensures s.pc[t].pos == s.deqPos
    ensures s.deqPos == s.enqPos || HasWriter(s, s.deqPos)
  {
    var pos := s.pc[t].pos;
    assert ThreadOk(s, s.pc[t]);
    SeqAtLeast(s, pos);
    assert SlotOk(s, s.deqPos);
  }

  /** With nobody in flight, the full and empty tests at the current positions are exact. */
  lemma QuietTestsExact<T>(s: State<T>)
    requires Inv(s) && forall t :: t in s.pc ==> !InFlight(s.pc[t])
    ensures s.seqs[s.At(s.enqPos)] < s.enqPos <==> |Queue(s)| == s.cap
    ensures s.seqs[s.At(s.enqPos)] == s.enqPos <==> |Queue(s)| < s.cap
    ensures s.seqs[s.At(s.deqPos)] < s.deqPos + 1 <==> |Queue(s)| == 0
    ensures s.seqs[s.At(s.deqPos)] == s.deqPos + 1 <==> |Queue(s)| > 0
  {
    assert SlotOk(s, s.deqPos);
    if s.enqPos < s.deqPos + s.cap {
      assert SlotOk(s, s.enqPos);
    } else {
      CellLap(s.deqPos, s.cap);
    }
  }
}
