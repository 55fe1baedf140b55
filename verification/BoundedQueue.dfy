/**
 The queue class itself, run by one thread at a time: fixed arrays updated in place, wrapped
 counters and the two retry loops.  Used this way it is a bounded FIFO with exact full and empty
 tests, for any number of operations, including after the 64-bit counters have wrapped.
 */
module BoundedQueue {
  import opened Basics
  import opened Arithmetic
  import opened MpmcMachine

  /** The cell of the `k`-th element ever, in a ring whose oldest element is number `first`. */
  ghost predicate CellOk<T>(first: nat, contents: seq<T>, seqs: seq<nat>, data: seq<T>, k: nat)
    requires |seqs| == |data| > 0
  {
    var c := Cell(k, |seqs|);
    if first <= k < first + |contents| then seqs[c] == Low(k + 1) && data[c] == contents[k - first]
    else seqs[c] == Low(k)
  }

  ghost predicate Layout<T>(first: nat, contents: seq<T>, seqs: seq<nat>, data: seq<T>) {
    && |seqs| == |data| > 0
    && forall k: nat :: first <= k < first + |seqs| ==> CellOk(first, contents, seqs, data, k)
  }

  lemma AppendLayout<T>(first: nat, contents: seq<T>, seqs: seq<nat>, data: seq<T>, c: nat, item: T)
    requires Layout(first, contents, seqs, data) && |contents| < |seqs|
    requires c == Cell(first + |contents|, |seqs|)
    ensures Layout(first, contents + [item], seqs[c := Low(first + |contents| + 1)], data[c := item])
  {
    var contents', seqs', data' := contents + [item], seqs[c := Low(first + |contents| + 1)], data[c := item];
    forall k: nat | first <= k < first + |seqs'| ensures CellOk(first, contents', seqs', data', k) {
      assert CellOk(first, contents, seqs, data, k);
      CellsDiffer(first + |contents|, k, |seqs|);
    }
  }

  lemma RemoveLayout<T>(first: nat, contents: seq<T>, seqs: seq<nat>, data: seq<T>, c: nat)
    requires Layout(first, contents, seqs, data) && 0 < |contents| <= |seqs|
    requires c == Cell(first, |seqs|)
    ensures Layout(first + 1, contents[1..], seqs[c := Low(first + |seqs|)], data)
  {
    CellLap(first, |seqs|);
    var first', contents', seqs' := first + 1, contents[1..], seqs[c := Low(first + |seqs|)];
    forall k: nat | first' <= k < first' + |seqs'| ensures CellOk(first', contents', seqs', data, k) {
      if k < first + |seqs| {
        assert CellOk(first, contents, seqs, data, k);
        CellsDiffer(first, k, |seqs|);
      }
    }
  }

  /** What the test of `enqueue` reads at the current position. */
  lemma EnqueueTest<T>(first: nat, contents: seq<T>, seqs: seq<nat>, data: seq<T>)
    requires Layout(first, contents, seqs, data) && |contents| <= |seqs|
    requires IsPow2(|seqs|) && 2 <= |seqs| <= HALF
    ensures var e := first + |contents|; var c := And(Low(e), |seqs| - 1);
      && c == Cell(e, |seqs|)
      && SignedDiff(seqs[c], Low(e)) == (if |contents| == |seqs| then 1 - |seqs| else 0)
  {
    var e := first + |contents|;
    MaskSelects(e, |seqs|);
    if |contents| == |seqs| {
      CellLap(first, |seqs|);
      assert CellOk(first, contents, seqs, data, first);
      SignedDiffExact(first + 1, e);
    } else {
      assert CellOk(first, contents, seqs, data, e);
      SignedDiffExact(e, e);
    }
  }

  /** What the test of `dequeue` reads at the current position. */
  lemma DequeueTest<T>(first: nat, contents: seq<T>, seqs: seq<nat>, data: seq<T>)
    requires Layout(first, contents, seqs, data) && |contents| <= |seqs|
    requires IsPow2(|seqs|) && 2 <= |seqs| <= HALF
    ensures var c := And(Low(first), |seqs| - 1);
      && c == Cell(first, |seqs|)
      && SignedDiff(seqs[c], Plus(Low(first), 1)) == (if |contents| == 0 then -1 else 0)
      && (contents != [] ==> data[c] == contents[0])
  {
    MaskSelects(first, |seqs|);
    assert CellOk(first, contents, seqs, data, first);
    PlusWraps(first, 1);
    SignedDiffExact(first + 1, first + 1);
    SignedDiffExact(first, first + 1);
  }

  class MpmcBoundedQueue<T(0)> {
    const sequence: array<nat>
    const data: array<T>
    const mask: nat
    var enqueuePos: nat
    var dequeuePos: nat

    ghost var contents: seq<T>     // the queued items, oldest first
    ghost var dequeued: nat        // removals so far, not wrapped

    ghost function Capacity(): nat { mask + 1 }

    ghost predicate Valid()
      reads this, sequence, data
    {
      && sequence as object != data as object && sequence.Length == data.Length == Capacity()
      && IsPow2(Capacity()) && 2 <= Capacity() <= HALF
      && |contents| <= Capacity()
      && enqueuePos == Low(dequeued + |contents|) && dequeuePos == Low(dequeued)
      && Layout(dequeued, contents, sequence[..], data[..])
    }

    /** For a size that the source accepts. */
    constructor (bufferSize: nat)
      requires 2 <= bufferSize <= HALF && IsPow2(bufferSize)
      ensures Valid() && Capacity() == bufferSize && contents == []
      ensures fresh(sequence) && fresh(data)
    {
      mask := bufferSize - 1;
      var s := new nat[bufferSize];
      for i := 0 to bufferSize
        invariant forall j :: 0 <= j < i ==> s[j] == j
      {
        s[i] := i;
      }
      sequence := s;
      data := new T[bufferSize];
      enqueuePos, dequeuePos := 0, 0;
      contents, dequeued := [], 0;
    }

    /** The constructor call as the source makes it: every size that is not a power of two, or below 2, is refused. */
    static method Make(bufferSize: nat) returns (q: MpmcBoundedQueue?<T>)
      requires bufferSize < WORD
      ensures q == null <==> !(bufferSize >= 2 && IsPow2(bufferSize))
      ensures q != null ==> fresh(q) && q.Valid() && q.Capacity() == bufferSize && q.contents == []
    {
      if bufferSize >= 1 {
        PowerOfTwoTest(bufferSize);
      }
      if !(bufferSize >= 2 && And(bufferSize, bufferSize - 1) == 0) {
        q := null;
      } else {
        SizeFits(bufferSize);
        q := new MpmcBoundedQueue(bufferSize);
      }
    }

    /**
     The retry loop of `enqueue`: find the cell and move the counter past it, or give up.
     `spurious` bounds how often the weak compare-and-swap fails for no reason.
     */
    method ClaimEnqueue(spurious: nat) returns (won: bool, pos: nat, c: nat)
      requires Valid()
      modifies `enqueuePos
      ensures won <==> |contents| < Capacity()
      ensures pos == old(enqueuePos) && c == Cell(dequeued + |contents|, Capacity())
      ensures enqueuePos == if won then Plus(pos, 1) else pos
    {
      EnqueueTest(dequeued, contents, sequence[..], data[..]);
      pos := enqueuePos;
      var failures := spurious;
      while true
        invariant pos == enqueuePos == old(enqueuePos)
        decreases failures
      {
        c := And(pos, mask);
        var dif := SignedDiff(sequence[c], pos);
        if dif == 0 {
          if failures == 0 {
            enqueuePos := Plus(pos, 1);
            won := true;
            return;
          }
          failures := failures - 1;
          pos := enqueuePos;
        } else if dif < 0 {
          won := false;
          return;
        } else {
          assert false;
        }
      }
    }

    method ClaimDequeue(spurious: nat) returns (won: bool, pos: nat, c: nat)
      requires Valid()
      modifies `dequeuePos
      ensures won <==> contents != []
      ensures pos == old(dequeuePos) && c == Cell(dequeued, Capacity())
      ensures won ==> data[c] == contents[0]
      ensures dequeuePos == if won then Plus(pos, 1) else pos
    {
      DequeueTest(dequeued, contents, sequence[..], data[..]);
      pos := dequeuePos;
      var failures := spurious;
      while true
        invariant pos == dequeuePos == old(dequeuePos)
        decreases failures
      {
        c := And(pos, mask);
        var dif := SignedDiff(sequence[c], Plus(pos, 1));
        if dif == 0 {
          if failures == 0 {
            dequeuePos := Plus(pos, 1);
            won := true;
            return;
          }
          failures := failures - 1;
          pos := dequeuePos;
        } else if dif < 0 {
          won := false;
          return;
        } else {
          assert false;
        }
      }
    }

    /** Append `item` unless the queue is full. */
    method Enqueue(item: T, spurious: nat) returns (ok: bool)
      requires Valid()
      modifies this, sequence, data
      ensures Valid()
      ensures ok <==> |old(contents)| < Capacity()
      ensures contents == if ok then old(contents) + [item] else old(contents)
    {
      var pos, c;
      ok, pos, c := ClaimEnqueue(spurious);
      if ok {
        ghost var e := dequeued + |contents|;
        PlusWraps(e, 1);
        AppendLayout(dequeued, contents, sequence[..], data[..], c, item);
        ghost var seqs', data' := sequence[..][c := Low(e + 1)], data[..][c := item];
        data[c] := item;
        sequence[c] := Plus(pos, 1);
        contents := contents + [item];
        assert sequence[..] == seqs' && data[..] == data';
      }
    }

    /** Remove and return the oldest item unless the queue is empty. */
    method Dequeue(spurious: nat) returns (r: Option<T>)
      requires Valid()
      modifies this, sequence
      ensures Valid()
      ensures r == if old(contents) == [] then None else Some(old(contents)[0])
      ensures contents == if old(contents) == [] then [] else old(contents)[1..]
    {
      var ok, pos, c := ClaimDequeue(spurious);
      if !ok { return None; }
      PlusWraps(dequeued, 1);
      PlusWraps(dequeued, mask);
      PlusWraps(dequeued + mask, 1);
      RemoveLayout(dequeued, contents, sequence[..], data[..], c);
      ghost var seqs', data' := sequence[..][c := Low(dequeued + Capacity())], data[..];
      r := Some(data[c]);
      sequence[c] := Plus(Plus(pos, mask), 1);
      contents, dequeued := contents[1..], dequeued + 1;
      assert sequence[..] == seqs' && data[..] == data';
    }
  }

  /** Every power of two that fits a word fits half of it. */
  lemma SizeFits(n: nat)
    requires IsPow2(n) && n < WORD
    ensures n <= HALF
  {
    WordIsPow2();
    var k: nat :| n == Pow2(k);
    if k >= 64 {
      Pow2Divides(64, k);
    } else {
      Pow2Divides(k, 63);
    }
  }
}
