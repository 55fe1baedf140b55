/**
 The queue as the machine runs it: `size_t` counters modulo 2^64, cells selected by a bit mask, and
 the signed difference of two wrapped counters deciding the branch.  It simulates the
 unbounded-counter system step for step as long as no thread holds a position so stale that a
 difference leaves the signed range.
 */
module MpmcMachine {
  import opened Basics
  import opened Arithmetic
  import opened MpmcQueue

  const WORD := 0x1_0000_0000_0000_0000
  const HALF := 0x8000_0000_0000_0000

  /** The low 64 bits of an integer, as a `size_t`. */
  function Low(a: int): (r: nat)
    ensures r < WORD
  {
    a % 0x1_0000_0000_0000_0000
  }

  lemma WordIsPow2()
    ensures WORD == Pow2(64)
  {
    assert Pow2(4) == 16;
    Pow2Divides(4, 8);
    Pow2Divides(8, 16);
    Pow2Divides(16, 32);
    Pow2Divides(32, 64);
  }

  /** The `size_t` addition. */
  function Plus(a: nat, b: nat): nat {
    Low(a + b)
  }

  /** The difference of two words read as a signed word. */
  function SignedDiff(a: nat, b: nat): int {
    var d := Low(a - b);
    if d < HALF then d else d - WORD
  }

  datatype Machine<T> = Machine(
    mask: nat,
    enqPos: nat,
    deqPos: nat,
    seqs: seq<nat>,
    data: seq<T>,
    pc: map<Tid, Pc<T>>)
  {
    predicate Fits() { |seqs| == |data| == mask + 1 }

    /** The cell index, `pos & mask`. */
    function At(pos: nat): nat { And(pos, mask) }

    function Goto(t: Tid, l: Pc<T>): Machine<T> { this.(pc := pc[t := l]) }
  }

  ghost predicate MStep<T>(m: Machine<T>, t: Tid, m': Machine<T>) {
    t in m.pc &&
    match m.pc[t]
    case Idle => t in m'.pc && (m'.pc[t].EnqLoad? || m'.pc[t].DeqLoad?) && m' == m.Goto(t, m'.pc[t])
    case EnqLoad(x) => m' == m.Goto(t, EnqSeq(x, m.enqPos))
    case EnqSeq(x, pos) =>
      m.At(pos) < |m.seqs| &&
      var dif := SignedDiff(m.seqs[m.At(pos)], pos);
      m' == m.Goto(t, if dif == 0 then EnqCas(x, pos) else if dif < 0 then EnqRet(None) else EnqLoad(x))
    case EnqCas(x, pos) =>
      || m' == m.Goto(t, EnqSeq(x, m.enqPos))
      || (m.enqPos == pos && m' == m.Goto(t, EnqWrite(x, pos)).(enqPos := Plus(pos, 1)))
    case EnqWrite(x, pos) =>
      m.At(pos) < |m.data| && m' == m.Goto(t, EnqStore(x, pos)).(data := m.data[m.At(pos) := x])
    case EnqStore(x, pos) =>
      m.At(pos) < |m.seqs| && m' == m.Goto(t, EnqRet(Some(pos))).(seqs := m.seqs[m.At(pos) := Plus(pos, 1)])
    case EnqRet(_) => m' == m.Goto(t, Idle)
    case DeqLoad => m' == m.Goto(t, DeqSeq(m.deqPos))
    case DeqSeq(pos) =>
      m.At(pos) < |m.seqs| &&
      var dif := SignedDiff(m.seqs[m.At(pos)], Plus(pos, 1));
      m' == m.Goto(t, if dif == 0 then DeqCas(pos) else if dif < 0 then DeqRet(None) else DeqLoad)
    case DeqCas(pos) =>
      || m' == m.Goto(t, DeqSeq(m.deqPos))
      || (m.deqPos == pos && m' == m.Goto(t, DeqRead(pos)).(deqPos := Plus(pos, 1)))
    case DeqRead(pos) => m.At(pos) < |m.data| && m' == m.Goto(t, DeqStore(pos, m.data[m.At(pos)]))
    case DeqStore(pos, x) =>
      m.At(pos) < |m.seqs| && m' == m.Goto(t, DeqRet(Some((pos, x)))).(seqs := m.seqs[m.At(pos) := Plus(Plus(pos, m.mask), 1)])
    case DeqRet(_) => m' == m.Goto(t, Idle)
  }

  // ---------- the machine word view of an unbounded state ----------

  function WrapPc<T>(l: Pc<T>): Pc<T> {
    match l
    case EnqSeq(x, pos) => EnqSeq(x, Low(pos))
    case EnqCas(x, pos) => EnqCas(x, Low(pos))
    case EnqWrite(x, pos) => EnqWrite(x, Low(pos))
    case EnqStore(x, pos) => EnqStore(x, Low(pos))
    case EnqRet(Some(pos)) => EnqRet(Some(Low(pos)))
    case DeqSeq(pos) => DeqSeq(Low(pos))
    case DeqCas(pos) => DeqCas(Low(pos))
    case DeqRead(pos) => DeqRead(Low(pos))
    case DeqStore(pos, x) => DeqStore(Low(pos), x)
    case DeqRet(Some((pos, x))) => DeqRet(Some((Low(pos), x)))
    case _ => l
  }

  function WrapSeq(q: seq<nat>): (r: seq<nat>)
    ensures |r| == |q| && forall i :: 0 <= i < |q| ==> r[i] == Low(q[i])
  {
    seq(|q|, i requires 0 <= i < |q| => Low(q[i]))
  }

  ghost function WrapMap<T>(pc: map<Tid, Pc<T>>): map<Tid, Pc<T>> {
    map t | t in pc :: WrapPc(pc[t])
  }

  ghost function Wrap<T>(u: State<T>): Machine<T>
    requires Shape(u)
  {
    Machine(u.cap - 1, Low(u.enqPos), Low(u.deqPos), WrapSeq(u.seqs), u.data, WrapMap(u.pc))
  }

  lemma WrapMove<T>(pc: map<Tid, Pc<T>>, t: Tid, l: Pc<T>)
    ensures WrapMap(pc[t := l]) == WrapMap(pc)[t := WrapPc(l)]
  {
  }

  // ---------- word arithmetic ----------

  lemma PlusWraps(a: nat, b: nat)
    ensures Plus(Low(a), b) == Low(a + b)
  {
  }

  /** The signed difference of two wrapped counters is their true difference exactly when that fits a signed word. */
  lemma SignedDiffExact(a: nat, b: nat)
    ensures SignedDiff(Low(a), Low(b)) == a - b <==> a - b < HALF && b - a <= HALF
  {
  }

  /** Masking a wrapped position selects the cell of the unbounded position. */
  lemma MaskSelects(pos: nat, cap: nat)
    requires IsPow2(cap) && cap <= WORD
    ensures And(Low(pos), cap - 1) == Cell(pos, cap)
  {
    var n: nat :| cap == Pow2(n);
    WordIsPow2();
    if n > 64 {
      Pow2Divides(65, n);
      assert false;
    }
    AndMask(Low(pos), n);
    Pow2Divides(n, 64);
    RemainderOfRemainder(pos, WORD, cap, Pow2(64 - n));
    CellIsRemainder(pos, cap);
  }

  // ---------- the simulation ----------

  ghost predicate Sized<T>(u: State<T>) { Shape(u) && IsPow2(u.cap) && u.cap <= HALF }

  /** A difference that is not below -2^63 has the sign that its low word shows. */
  predicate SignShows(dif: int) { dif <= 0 || 0 < Low(dif) < HALF }

  lemma SignShowsExact(a: nat, b: nat)
    requires b - a <= HALF
    ensures SignShows(a - b) <==> var d := SignedDiff(Low(a), Low(b)); (d == 0 <==> a == b) && (d < 0 <==> a < b)
  {
  }

  /**
   The thread's next comparison is not stale: the difference it is about to compute shows its sign in its
   low word, or the counter it is about to swap has not come round to the same word.
   */
  ghost predicate FreshAt<T>(u: State<T>, l: Pc<T>)
    requires Shape(u)
  {
    match l
    case EnqSeq(_, pos) => SignShows(u.seqs[u.At(pos)] - pos)
    case DeqSeq(pos) => SignShows(u.seqs[u.At(pos)] - (pos + 1))
    case EnqCas(_, pos) => Low(u.enqPos) == Low(pos) ==> u.enqPos == pos
    case DeqCas(pos) => Low(u.deqPos) == Low(pos) ==> u.deqPos == pos
    case _ => true
  }

  /** Every position has a representative in the current window, in the same cell. */
  lemma Representative<T>(u: State<T>, pos: nat) returns (k: nat)
    requires Inv(u) && pos <= u.deqPos + u.cap
    ensures u.deqPos <= k < u.deqPos + u.cap && u.At(k) == u.At(pos)
    ensures pos >= u.deqPos && pos < u.deqPos + u.cap ==> k == pos
    decreases if pos < u.deqPos then u.deqPos - pos else 0
  {
    if pos < u.deqPos {
      CellLap(pos, u.cap);
      k := Representative(u, pos + u.cap);
    } else if pos == u.deqPos + u.cap {
      CellLap(u.deqPos, u.cap);
      k := u.deqPos;
    } else {
      k := pos;
    }
  }

  /** The differences that the two loops compute stay within one lap below and the lag above. */
  lemma DifferenceRange<T>(u: State<T>, pos: nat)
    requires Inv(u) && pos <= u.enqPos
    ensures u.seqs[u.At(pos)] <= u.deqPos + u.cap && u.seqs[u.At(pos)] < u.enqPos + u.cap
    ensures u.seqs[u.At(pos)] + u.cap >= pos
  {
    SeqAtLeast(u, pos);
    var k := Representative(u, pos);
    assert SlotOk(u, k);
  }

  /** A position that lags behind its counter by no more than 2^63 less the capacity is not stale. */
  lemma FreshByLag<T>(u: State<T>, t: Tid)
    requires Inv(u) && Sized(u) && t in u.pc
    requires var l := u.pc[t]; l.EnqSeq? || l.EnqCas? ==> u.enqPos - l.pos <= HALF - u.cap
    requires var l := u.pc[t]; l.DeqSeq? || l.DeqCas? ==> u.deqPos - l.pos <= HALF - u.cap
    ensures FreshAt(u, u.pc[t])
  {
    assert ThreadOk(u, u.pc[t]);
    match u.pc[t]
    case EnqSeq(_, pos) => DifferenceRange(u, pos); SmallShows(u.seqs[u.At(pos)] - pos);
    case DeqSeq(pos) => DifferenceRange(u, pos); SmallShows(u.seqs[u.At(pos)] - (pos + 1));
    case EnqCas(_, pos) => NearEqual(u.enqPos, pos);
    case DeqCas(pos) => NearEqual(u.deqPos, pos);
    case _ =>
  }

  lemma SmallShows(dif: int)
    requires dif < HALF
    ensures SignShows(dif)
  {
  }

  lemma NearEqual(a: nat, b: nat)
    requires b <= a < b + WORD
    ensures Low(a) == Low(b) ==> a == b
  {
  }

  /** No difference is below -2^63. */
  lemma EnqDifference<T>(u: State<T>, t: Tid, x: T, pos: nat)
    requires Inv(u) && Sized(u) && t in u.pc && u.pc[t] == EnqSeq(x, pos)
    ensures pos - u.seqs[u.At(pos)] <= HALF
  {
    assert ThreadOk(u, u.pc[t]);
    DifferenceRange(u, pos);
  }

  lemma DeqDifference<T>(u: State<T>, t: Tid, pos: nat)
    requires Inv(u) && Sized(u) && t in u.pc && u.pc[t] == DeqSeq(pos)
    ensures pos + 1 - u.seqs[u.At(pos)] <= HALF
  {
    assert ThreadOk(u, u.pc[t]);
    if pos == u.deqPos {
      assert SlotOk(u, pos);
    } else {
      SeqAtLeast(u, pos);
    }
  }

  /** The unbounded step that a machine step imitates. */
  ghost function Lift<T>(u: State<T>, t: Tid, m': Machine<T>): State<T>
    requires Shape(u) && t in u.pc
  {
    match u.pc[t]
    case Idle => if t in m'.pc then Goto(u, t, m'.pc[t]) else u
    case EnqLoad(x) => Goto(u, t, EnqSeq(x, u.enqPos))
    case EnqSeq(x, pos) =>
      var dif := u.seqs[u.At(pos)] - pos;
      Goto(u, t, if dif == 0 then EnqCas(x, pos) else if dif < 0 then EnqRet(None) else EnqLoad(x))
    case EnqCas(x, pos) =>
      if t in m'.pc && m'.pc[t].EnqWrite? then Goto(u, t, EnqWrite(x, pos)).(enqPos := pos + 1, claimed := u.claimed + [x])
      else Goto(u, t, EnqSeq(x, u.enqPos))
    case EnqWrite(x, pos) => Goto(u, t, EnqStore(x, pos)).(data := u.data[u.At(pos) := x])
    case EnqStore(x, pos) => Goto(u, t, EnqRet(Some(pos))).(seqs := u.seqs[u.At(pos) := pos + 1])
    case EnqRet(_) => Goto(u, t, Idle)
    case DeqLoad => Goto(u, t, DeqSeq(u.deqPos))
    case DeqSeq(pos) =>
      var dif := u.seqs[u.At(pos)] - (pos + 1);
      Goto(u, t, if dif == 0 then DeqCas(pos) else if dif < 0 then DeqRet(None) else DeqLoad)
    case DeqCas(pos) =>
      if t in m'.pc && m'.pc[t].DeqRead? then Goto(u, t, DeqRead(pos)).(deqPos := pos + 1)
      else Goto(u, t, DeqSeq(u.deqPos))
    case DeqRead(pos) => Goto(u, t, DeqStore(pos, u.data[u.At(pos)]))
    case DeqStore(pos, x) => Goto(u, t, DeqRet(Some((pos, x)))).(seqs := u.seqs[u.At(pos) := pos + u.cap])
    case DeqRet(_) => Goto(u, t, Idle)
  }

  ghost predicate Imitates<T>(u: State<T>, t: Tid, m': Machine<T>)
    requires Shape(u) && t in u.pc
  {
    Step(u, t, Lift(u, t, m')) && Wrap(Lift(u, t, m')) == m'
  }

  lemma SimulateEnqSeq<T>(u: State<T>, t: Tid, m': Machine<T>, x: T, pos: nat)
    requires Shape(u) && MStep(Wrap(u), t, m') && u.pc[t] == EnqSeq(x, pos) && IsPow2(u.cap) && u.cap <= HALF
    requires pos - u.seqs[u.At(pos)] <= HALF && SignShows(u.seqs[u.At(pos)] - pos)
    ensures Imitates(u, t, m')
  {
    MaskSelects(pos, u.cap);
    SignShowsExact(u.seqs[u.At(pos)], pos);
    WrapMove(u.pc, t, Lift(u, t, m').pc[t]);
  }

  lemma SimulateDeqSeq<T>(u: State<T>, t: Tid, m': Machine<T>, pos: nat)
    requires Shape(u) && MStep(Wrap(u), t, m') && u.pc[t] == DeqSeq(pos) && IsPow2(u.cap) && u.cap <= HALF
    requires pos + 1 - u.seqs[u.At(pos)] <= HALF && SignShows(u.seqs[u.At(pos)] - (pos + 1))
    ensures Imitates(u, t, m')
  {
    MaskSelects(pos, u.cap);
    SignShowsExact(u.seqs[u.At(pos)], pos + 1);
    PlusWraps(pos, 1);
    WrapMove(u.pc, t, Lift(u, t, m').pc[t]);
  }

  lemma WrapGoto<T>(u: State<T>, t: Tid, l: Pc<T>)
    requires Shape(u)
    ensures Wrap(Goto(u, t, l)) == Wrap(u).Goto(t, WrapPc(l))
  {
    WrapMove(u.pc, t, l);
  }

  /** A failed swap reloads the position. */
  lemma SimulateLose<T>(u: State<T>, t: Tid, m': Machine<T>, l: Pc<T>)
    requires Shape(u) && t in u.pc && m' == Wrap(u).Goto(t, WrapPc(l))
    requires (u.pc[t].EnqCas? && l == EnqSeq(u.pc[t].item, u.enqPos)) || (u.pc[t].DeqCas? && l == DeqSeq(u.deqPos))
    ensures Imitates(u, t, m')
  {
    WrapGoto(u, t, l);
  }

  lemma SimulateEnqWin<T>(u: State<T>, t: Tid, m': Machine<T>, x: T)
    requires Shape(u) && t in u.pc && u.pc[t] == EnqCas(x, u.enqPos)
    requires m' == Wrap(u).Goto(t, EnqWrite(x, Low(u.enqPos))).(enqPos := Plus(Low(u.enqPos), 1))
    ensures Imitates(u, t, m')
  {
    WrapMove(u.pc, t, EnqWrite(x, u.enqPos));
    PlusWraps(u.enqPos, 1);
  }

  lemma SimulateDeqWin<T>(u: State<T>, t: Tid, m': Machine<T>)
    requires Shape(u) && t in u.pc && u.pc[t] == DeqCas(u.deqPos)
    requires m' == Wrap(u).Goto(t, DeqRead(Low(u.deqPos))).(deqPos := Plus(Low(u.deqPos), 1))
    ensures Imitates(u, t, m')
  {
    WrapMove(u.pc, t, DeqRead(u.deqPos));
    PlusWraps(u.deqPos, 1);
  }

  lemma SimulateEnqCas<T>(u: State<T>, t: Tid, m': Machine<T>)
    requires Shape(u) && MStep(Wrap(u), t, m') && u.pc[t].EnqCas?
    requires Low(u.enqPos) == Low(u.pc[t].pos) ==> u.enqPos == u.pc[t].pos
    ensures Imitates(u, t, m')
  {
    var x := u.pc[t].item;
    if m' == Wrap(u).Goto(t, EnqSeq(x, Low(u.enqPos))) {
      SimulateLose(u, t, m', EnqSeq(x, u.enqPos));
    } else {
      SimulateEnqWin(u, t, m', x);
    }
  }

  lemma SimulateDeqCas<T>(u: State<T>, t: Tid, m': Machine<T>)
    requires Shape(u) && MStep(Wrap(u), t, m') && u.pc[t].DeqCas?
    requires Low(u.deqPos) == Low(u.pc[t].pos) ==> u.deqPos == u.pc[t].pos
    ensures Imitates(u, t, m')
  {
    if m' == Wrap(u).Goto(t, DeqSeq(Low(u.deqPos))) {
      SimulateLose(u, t, m', DeqSeq(u.deqPos));
    } else {
      SimulateDeqWin(u, t, m');
    }
  }

  /** Accesses to `data` by a thread in flight. */
  lemma SimulateData<T>(u: State<T>, t: Tid, m': Machine<T>)
    requires Shape(u) && MStep(Wrap(u), t, m') && (u.pc[t].EnqWrite? || u.pc[t].DeqRead?)
    requires IsPow2(u.cap) && u.cap <= HALF
    ensures Imitates(u, t, m')
  {
    MaskSelects(u.pc[t].pos, u.cap);
    WrapMove(u.pc, t, Lift(u, t, m').pc[t]);
  }

  lemma WrapPublish<T>(u: State<T>, t: Tid, i: nat, v: nat, l: Pc<T>)
    requires Shape(u) && i < u.cap
    ensures Wrap(Goto(u, t, l).(seqs := u.seqs[i := v]))
      == Wrap(u).Goto(t, WrapPc(l)).(seqs := WrapSeq(u.seqs)[i := Low(v)])
  {
  }

  lemma SimulateEnqStore<T>(u: State<T>, t: Tid, m': Machine<T>)
    requires Shape(u) && MStep(Wrap(u), t, m') && u.pc[t].EnqStore? && IsPow2(u.cap) && u.cap <= HALF
    ensures Imitates(u, t, m')
  {
    var pos := u.pc[t].pos;
    MaskSelects(pos, u.cap);
    PlusWraps(pos, 1);
    WrapPublish(u, t, u.At(pos), pos + 1, EnqRet(Some(pos)));
  }

  lemma SimulateDeqStore<T>(u: State<T>, t: Tid, m': Machine<T>)
    requires Shape(u) && MStep(Wrap(u), t, m') && u.pc[t].DeqStore? && IsPow2(u.cap) && u.cap <= HALF
    ensures Imitates(u, t, m')
  {
    var DeqStore(pos, x) := u.pc[t];
    MaskSelects(pos, u.cap);
    PlusWraps(pos, u.cap - 1);
    PlusWraps(pos + (u.cap - 1), 1);
    WrapPublish(u, t, u.At(pos), pos + u.cap, DeqRet(Some((pos, x))));
  }

  lemma SimulateQuiet<T>(u: State<T>, t: Tid, m': Machine<T>)
    requires Shape(u) && MStep(Wrap(u), t, m')
    requires var l := u.pc[t]; l.Idle? || l.EnqLoad? || l.DeqLoad? || l.EnqRet? || l.DeqRet?
    ensures Imitates(u, t, m')
  {
    WrapMove(u.pc, t, Lift(u, t, m').pc[t]);
  }

  /** A machine step whose comparison is not stale is the word view of an unbounded step. */
  lemma SimulateStep<T>(u: State<T>, t: Tid, m': Machine<T>)
    requires Inv(u) && Sized(u) && MStep(Wrap(u), t, m') && FreshAt(u, u.pc[t])
    ensures Imitates(u, t, m')
  {
    match u.pc[t]
    case EnqSeq(x, pos) => EnqDifference(u, t, x, pos); SimulateEnqSeq(u, t, m', x, pos);
    case DeqSeq(pos) => DeqDifference(u, t, pos); SimulateDeqSeq(u, t, m', pos);
    case EnqCas(x, pos) => SimulateEnqCas(u, t, m');
    case DeqCas(pos) => SimulateDeqCas(u, t, m');
    case EnqWrite(_, _) => SimulateData(u, t, m');
    case EnqStore(_, _) => SimulateEnqStore(u, t, m');
    case DeqRead(_) => SimulateData(u, t, m');
    case DeqStore(_, _) => SimulateDeqStore(u, t, m');
    case _ => SimulateQuiet(u, t, m');
  }

  /** Some unbounded step of the same thread has the machine state as its word view. */
  ghost predicate HasImage<T(!new)>(u: State<T>, t: Tid, m': Machine<T>)
    requires Shape(u)
  {
    exists u' :: Step(u, t, u') && Shape(u') && Wrap(u') == m'
  }

  /** A stale test: the unbounded call reloads its position, the machine swaps or gives up. */
  lemma StaleEnqueue<T(!new)>(u: State<T>, t: Tid, m': Machine<T>, x: T, pos: nat)
    requires Sized(u) && MStep(Wrap(u), t, m') && u.pc[t] == EnqSeq(x, pos)
    requires pos - u.seqs[u.At(pos)] <= HALF && !SignShows(u.seqs[u.At(pos)] - pos)
    ensures (m'.pc[t].EnqCas? || m'.pc[t] == EnqRet(None)) && !HasImage(u, t, m')
  {
    MaskSelects(pos, u.cap);
    SignShowsExact(u.seqs[u.At(pos)], pos);
    forall u' | Step(u, t, u') && Shape(u') ensures Wrap(u') != m' {
      assert Wrap(u').pc[t] == WrapPc(EnqLoad(x));
    }
  }

  lemma StaleDequeue<T(!new)>(u: State<T>, t: Tid, m': Machine<T>, pos: nat)
    requires Sized(u) && MStep(Wrap(u), t, m') && u.pc[t] == DeqSeq(pos)
    requires pos + 1 - u.seqs[u.At(pos)] <= HALF && !SignShows(u.seqs[u.At(pos)] - (pos + 1))
    ensures (m'.pc[t].DeqCas? || m'.pc[t] == DeqRet(None)) && !HasImage(u, t, m')
  {
    MaskSelects(pos, u.cap);
    PlusWraps(pos, 1);
    SignShowsExact(u.seqs[u.At(pos)], pos + 1);
    forall u' | Step(u, t, u') && Shape(u') ensures Wrap(u') != m' {
      assert Wrap(u').pc[t] == WrapPc(DeqLoad);
    }
  }

  /** A stale swap: the machine can win where the unbounded call cannot. */
  lemma StaleSwap<T(!new)>(u: State<T>, t: Tid) returns (m': Machine<T>)
    requires Sized(u) && t in u.pc && (u.pc[t].EnqCas? || u.pc[t].DeqCas?) && !FreshAt(u, u.pc[t])
    ensures MStep(Wrap(u), t, m') && !HasImage(u, t, m')
  {
    var w, pos := Wrap(u), Low(u.pc[t].pos);
    m' := if u.pc[t].EnqCas? then w.Goto(t, EnqWrite(u.pc[t].item, pos)).(enqPos := Plus(pos, 1))
          else w.Goto(t, DeqRead(pos)).(deqPos := Plus(pos, 1));
    forall u' | Step(u, t, u') && Shape(u') ensures Wrap(u') != m' {
      assert u'.pc[t].EnqSeq? || u'.pc[t].DeqSeq?;
      assert Wrap(u').pc[t] == WrapPc(u'.pc[t]);
    }
  }

  /** The test of a position always has an outcome on the machine. */
  lemma TestSteps<T>(u: State<T>, t: Tid) returns (m': Machine<T>)
    requires Sized(u) && t in u.pc && (u.pc[t].EnqSeq? || u.pc[t].DeqSeq?)
    ensures MStep(Wrap(u), t, m')
  {
    var w, pos := Wrap(u), Low(u.pc[t].pos);
    MaskSelects(u.pc[t].pos, u.cap);
    if u.pc[t].EnqSeq? {
      var x, dif := u.pc[t].item, SignedDiff(w.seqs[w.At(pos)], pos);
      m' := w.Goto(t, if dif == 0 then EnqCas(x, pos) else if dif < 0 then EnqRet(None) else EnqLoad(x));
    } else {
      var dif := SignedDiff(w.seqs[w.At(pos)], Plus(pos, 1));
      m' := w.Goto(t, if dif == 0 then DeqCas(pos) else if dif < 0 then DeqRet(None) else DeqLoad);
    }
  }

  /**
   Staleness is exactly what breaks the simulation, at every location: every machine step of a thread is
   the word view of an unbounded step of it if and only if its next comparison is not stale.
   */
  lemma SimulatesIffFresh<T(!new)>(u: State<T>, t: Tid)
    requires Inv(u) && Sized(u) && t in u.pc
    ensures (forall m' :: MStep(Wrap(u), t, m') ==> HasImage(u, t, m')) <==> FreshAt(u, u.pc[t])
  {
    if FreshAt(u, u.pc[t]) {
      forall m' | MStep(Wrap(u), t, m') ensures HasImage(u, t, m') {
        SimulateStep(u, t, m');
        Lifted(u, t, m');
      }
    } else if u.pc[t].EnqSeq? {
      EnqDifference(u, t, u.pc[t].item, u.pc[t].pos);
      var m' := TestSteps(u, t);
      StaleEnqueue(u, t, m', u.pc[t].item, u.pc[t].pos);
    } else if u.pc[t].DeqSeq? {
      DeqDifference(u, t, u.pc[t].pos);
      var m' := TestSteps(u, t);
      StaleDequeue(u, t, m', u.pc[t].pos);
    } else {
      var m' := StaleSwap(u, t);
    }
  }

  lemma Lifted<T(!new)>(u: State<T>, t: Tid, m': Machine<T>)
    requires Shape(u) && t in u.pc && Imitates(u, t, m')
    ensures HasImage(u, t, m')
  {
    var u' := Lift(u, t, m');
    assert Step(u, t, u') && Shape(u') && Wrap(u') == m';
  }

  ghost predicate MInit<T>(m: Machine<T>) {
    && m.Fits() && IsPow2(m.mask + 1) && 2 <= m.mask + 1 <= HALF
    && m.enqPos == m.deqPos == 0
    && (forall i :: 0 <= i <= m.mask ==> m.seqs[i] == i)
    && (forall t :: t in m.pc ==> m.pc[t] == Idle)
  }

  ghost predicate IsMachineRun<T>(ms: seq<Machine<T>>, ts: seq<Tid>) {
    && |ms| == |ts| + 1
    && MInit(ms[0])
    && forall i :: 0 <= i < |ts| ==> MStep(ms[i], ts[i], ms[i + 1])
  }

  lemma SimulateInit<T>(m: Machine<T>) returns (u: State<T>)
    requires MInit(m)
    ensures Init(u) && Sized(u) && Wrap(u) == m
  {
    u := State(m.mask + 1, 0, 0, m.seqs, m.data, m.pc, []);
    assert WrapSeq(u.seqs) == m.seqs;
    assert WrapMap(u.pc) == m.pc;
  }

  /**
   Every machine run is the word view of a run with unbounded counters, step for step, up to the
   first step whose comparison is stale.
   */
  lemma {:induction false} SimulateRun<T>(ms: seq<Machine<T>>, ts: seq<Tid>) returns (us: seq<State<T>>)
    requires IsMachineRun(ms, ts)
    ensures 1 <= |us| <= |ms| && IsRun(us, ts[..|us| - 1]) && Mirrors(us, ms, ts)
    ensures forall i :: 0 <= i < |us| ==> Shape(us[i]) && Wrap(us[i]) == ms[i]
    ensures |us| < |ms| ==> var u, t := us[|us| - 1], ts[|us| - 1]; t in u.pc && !FreshAt(u, u.pc[t])
  {
    var u := SimulateInit(ms[0]);
    us := [u];
    while |us| < |ms|
      invariant Mirrors(us, ms, ts)
      decreases |ms| - |us|
    {
      var n := |us| - 1;
      Mirrored(us, ms, ts);
      if !FreshAt(us[n], us[n].pc[ts[n]]) { return; }
      us := MirrorStep(us, ms, ts);
    }
  }

  /** An unbounded run that so far has the machine run as its word view. */
  ghost predicate Mirrors<T>(us: seq<State<T>>, ms: seq<Machine<T>>, ts: seq<Tid>) {
    && 1 <= |us| <= |ms| == |ts| + 1 && IsRun(us, ts[..|us| - 1]) && Sized(us[|us| - 1])
    && forall i :: 0 <= i < |us| ==> Shape(us[i]) && Wrap(us[i]) == ms[i]
  }

  lemma Mirrored<T>(us: seq<State<T>>, ms: seq<Machine<T>>, ts: seq<Tid>)
    requires IsMachineRun(ms, ts) && Mirrors(us, ms, ts) && |us| < |ms|
    ensures var n := |us| - 1; MStep(Wrap(us[n]), ts[n], ms[n + 1]) && ts[n] in us[n].pc
  {
    var n := |us| - 1;
    assert MStep(ms[n], ts[n], ms[n + 1]);
  }

  lemma MirrorStep<T>(us: seq<State<T>>, ms: seq<Machine<T>>, ts: seq<Tid>) returns (us': seq<State<T>>)
    requires IsMachineRun(ms, ts) && Mirrors(us, ms, ts) && |us| < |ms|
    requires var n := |us| - 1; ts[n] in us[n].pc && FreshAt(us[n], us[n].pc[ts[n]])
    ensures Mirrors(us', ms, ts) && |us'| == |us| + 1
  {
    var n := |us| - 1;
    Mirrored(us, ms, ts);
    var u' := Extend(us, ts[..n], ts[n], ms[n + 1]);
    us' := us + [u'];
    assert ts[..n] + [ts[n]] == ts[..n + 1];
  }

  lemma NextState<T>(us: seq<State<T>>, ts: seq<Tid>, t: Tid, m': Machine<T>) returns (u': State<T>)
    requires IsRun(us, ts)
    requires var u := us[|ts|]; Sized(u) && MStep(Wrap(u), t, m') && FreshAt(u, u.pc[t])
    ensures u'.cap == us[|ts|].cap && Shape(us[|ts|]) && Step(us[|ts|], t, u') && Shape(u') && Wrap(u') == m'
  {
    var u := us[|ts|];
    RunInv(us, ts, |ts|);
    SimulateStep(u, t, m');
    u' := Lift(u, t, m');
  }

  lemma Extend<T>(us: seq<State<T>>, ts: seq<Tid>, t: Tid, m': Machine<T>) returns (u': State<T>)
    requires IsRun(us, ts)
    requires var u := us[|ts|]; Sized(u) && MStep(Wrap(u), t, m') && FreshAt(u, u.pc[t])
    ensures Sized(u') && Wrap(u') == m' && IsRun(us + [u'], ts + [t])
  {
    u' := NextState(us, ts, t, m');
    RunSnoc(us, ts, t, u');
  }

  lemma RunSnoc<T>(us: seq<State<T>>, ts: seq<Tid>, t: Tid, u': State<T>)
    requires IsRun(us, ts) && Shape(us[|ts|]) && Step(us[|ts|], t, u')
    ensures IsRun(us + [u'], ts + [t])
  {
  }
}
