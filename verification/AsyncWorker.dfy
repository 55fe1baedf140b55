/**
 The worker on its own: with nobody in the middle of a queue operation it brings the head of the queue into
 every sink and polls again, or exits at a termination message.
 */
module AsyncWorker {
  import opened Basics
  import L = AsyncLog
  import opened MpmcQueue
  import opened AsyncLog

  /** A step that the worker takes. */
  ghost predicate WorkerStep(h: Helper, h': Helper) {
    Shape(h.q) && (QueueStep(h, h.worker, h') || WorkerPoll(h, h') || WorkerBack(h, h') || WorkerDeliver(h, h'))
  }

  ghost predicate IsPath(hs: seq<Helper>) {
    |hs| > 0 && forall i :: 0 <= i < |hs| - 1 ==> WorkerStep(hs[i], hs[i + 1])
  }

  ghost predicate Leads(hs: seq<Helper>, h: Helper, h': Helper) { IsPath(hs) && hs[0] == h && hs[|hs| - 1] == h' }

  /** The worker's own steps lead from one state to the other. */
  ghost predicate Reaches(h: Helper, h': Helper) { exists hs :: Leads(hs, h, h') }

  lemma ReachSelf(h: Helper)
    ensures Reaches(h, h)
  {
    assert Leads([h], h, h);
  }

  lemma ReachNext(h: Helper, g: Helper, h': Helper)
    requires Reaches(h, g) && WorkerStep(g, h')
    ensures Reaches(h, h')
  {
    var hs :| Leads(hs, h, g);
    var longer := hs + [h'];
    forall i | 0 <= i < |longer| - 1 ensures WorkerStep(longer[i], longer[i + 1]) {
      if i < |hs| - 1 { assert WorkerStep(hs[i], hs[i + 1]); }
    }
    assert Leads(longer, h, h');
  }

  /** What the worker's own steps keep. */
  ghost predicate Kept(h: Helper, h': Helper) { L.Inv(h') && h'.worker == h.worker && |h'.sinks| == |h.sinks| }

  lemma WorkerStepKeeps(h: Helper, h': Helper)
    requires L.Inv(h) && WorkerStep(h, h')
    ensures Kept(h, h')
  {
    L.StepInv(h, h.worker, Msg(false, ""), h');
  }

  lemma {:induction false} PathKeeps(hs: seq<Helper>, n: nat)
    requires IsPath(hs) && n < |hs| && L.Inv(hs[0])
    ensures Kept(hs[0], hs[n])
  {
    if n > 0 {
      PathKeeps(hs, n - 1);
      assert WorkerStep(hs[n - 1], hs[n - 1 + 1]);
      WorkerStepKeeps(hs[n - 1], hs[n]);
    }
  }

  lemma ReachKeeps(h: Helper, h': Helper)
    requires L.Inv(h) && Reaches(h, h')
    ensures Kept(h, h')
  {
    var hs :| Leads(hs, h, h');
    PathKeeps(hs, |hs| - 1);
  }

  /** The worker between two calls, and nobody between a win and its store. */
  ghost predicate Quiescent(h: Helper) {
    && L.Inv(h) && h.workerPc == Polling && h.q.pc[h.worker] == Idle
    && forall t :: t in h.q.pc ==> !InFlight(h.q.pc[t])
  }

  /** The worker at queue location `l`, all else as in `h`. */
  ghost function At(h: Helper, l: Pc<Msg>): Helper { h.(q := Goto(h.q, h.worker, l)) }

  /** The worker is inside `dequeue`, or about to call it, at location `l`. */
  ghost predicate Works(h: Helper, l: Pc<Msg>) { Shape(h.q) && h.worker in h.q.pc && h.workerPc == Polling && h.q.pc[h.worker] == l }

  /** From the call to the winning swap, when the cell shows the position as published. */
  lemma WinsFrom(h: Helper, k: nat) returns (h': Helper)
    requires Works(h, Idle) && k == h.q.deqPos && h.q.seqs[h.q.At(k)] == k + 1
    ensures Reaches(h, h') && h' == h.(q := DeqClaim(h.q, h.worker, k))
  {
    ReachSelf(h);
    var h1 := At(h, DeqLoad);
    ReachNext(h, h, h1);
    var h2 := At(h1, DeqSeq(k));
    ReachNext(h, h1, h2);
    var h3 := At(h2, DeqCas(k));
    ReachNext(h, h2, h3);
    h' := h3.(q := DeqClaim(h3.q, h.worker, k));
    ReachNext(h, h3, h');
    assert h'.q.pc == DeqClaim(h.q, h.worker, k).pc;
  }

  /** From the win to the return of the item. */
  lemma TakesFrom(h: Helper, g: Helper, k: nat, x: Msg) returns (h': Helper)
    requires Reaches(h, g) && Works(g, DeqRead(k)) && g.q.data[g.q.At(k)] == x
    ensures Reaches(h, h') && h' == g.(q := Publish(g.q, g.worker, k, k + g.q.cap, DeqRet(Some((k, x)))))
  {
    var g1 := At(g, DeqStore(k, x));
    ReachNext(h, g, g1);
    h' := g1.(q := Publish(g1.q, g.worker, k, k + g.q.cap, DeqRet(Some((k, x)))));
    ReachNext(h, g1, h');
    assert h'.q.pc == Publish(g.q, g.worker, k, k + g.q.cap, DeqRet(Some((k, x)))).pc;
  }

  /** The loop over the sinks runs to its end. */
  lemma {:induction false} DeliversToAll(h: Helper, g: Helper) returns (h': Helper)
    requires Reaches(h, g) && Shape(g.q) && g.workerPc.Delivering? && g.workerPc.next <= |g.sinks|
    ensures Reaches(h, h') && h'.q == g.q && h'.worker == g.worker && h'.workerPc == Polling
    decreases |g.sinks| - g.workerPc.next
  {
    var m, i := g.workerPc.msg, g.workerPc.next;
    if i < |g.sinks| {
      var g' := g.(sinks := g.sinks[i := g.sinks[i] + [m]], workerPc := Delivering(m, i + 1));
      ReachNext(h, g, g');
      h' := DeliversToAll(h, g');
    } else {
      h' := g.(workerPc := Polling);
      ReachNext(h, g, h');
    }
  }

  /** What a published head looks like. */
  lemma HeadPublished(h: Helper)
    requires Quiescent(h) && h.q.deqPos < h.q.enqPos
    ensures var k := h.q.deqPos; Shape(h.q) && h.q.seqs[h.q.At(k)] == k + 1 && k < |h.q.claimed| && h.q.data[h.q.At(k)] == h.q.claimed[k]
  {
    QuietTestsExact(h.q);
    assert SlotOk(h.q, h.q.deqPos);
  }

  /** The call and the return of the head's item. */
  lemma TakesHead(h: Helper) returns (g: Helper)
    requires Quiescent(h) && h.q.deqPos < h.q.enqPos
    ensures var k := h.q.deqPos;
      k < |h.q.claimed| && Reaches(h, g) && Works(g, DeqRet(Some((k, h.q.claimed[k])))) && g.worker == h.worker && g.sinks == h.sinks
    ensures g.q.claimed == h.q.claimed && g.q.deqPos == h.q.deqPos + 1
  {
    var k := h.q.deqPos;
    HeadPublished(h);
    var g1 := WinsFrom(h, k);
    g := TakesFrom(h, g1, k, h.q.claimed[k]);
  }

  /** `m` is delivered: the worker polls again and every sink has one message more. */
  ghost predicate Served(h: Helper, h': Helper, m: Msg) {
    && h'.workerPc == Polling && h.worker in h'.q.pc && h'.q.pc[h.worker] == Idle && |h'.sinks| == |h.sinks|
    && forall i :: 0 <= i < |h.sinks| ==> h'.sinks[i] == h.sinks[i] + [m]
  }

  /** Between calls the sinks hold the removed messages, so one more removed is one more in each sink. */
  lemma OneMoreServed(h: Helper, h': Helper)
    requires L.Inv(h) && L.Inv(h') && h'.worker == h.worker && |h'.sinks| == |h.sinks|
    requires h.workerPc == h'.workerPc == Polling && h.q.pc[h.worker] == h'.q.pc[h.worker] == Idle
    requires h'.q.claimed == h.q.claimed && h'.q.deqPos == h.q.deqPos + 1 && h.q.deqPos < |h.q.claimed|
    ensures Served(h, h', h.q.claimed[h.q.deqPos])
  {
    var c, k := h.q.claimed, h.q.deqPos;
    assert c[..k + 1] == c[..k] + [c[k]];
  }

  /**
   From a quiescent state with a nonempty queue, the worker's own steps bring the head into every sink and
   back to polling; at a termination message they end in its exit, with the sinks unchanged.
   */
  lemma WorkerServesHead(h: Helper) returns (h': Helper)
    requires Quiescent(h) && h.q.deqPos < h.q.enqPos
    ensures Reaches(h, h') && L.Inv(h') && h.q.deqPos < |h.q.claimed| && h'.q.deqPos == h.q.deqPos + 1
    ensures var m := h.q.claimed[h.q.deqPos]; if m.off then h'.workerPc == Exited && h'.sinks == h.sinks else Served(h, h', m)
  {
    var k := h.q.deqPos;
    var g := TakesHead(h);
    var m := h.q.claimed[k];
    var g' := g.(q := Goto(g.q, g.worker, Idle), workerPc := if m.off then Exited else Delivering(m, 0));
    ReachNext(h, g, g');
    h' := g';
    if !m.off {
      h' := DeliversToAll(h, g');
      ReachKeeps(h, h');
      OneMoreServed(h, h');
    } else {
      ReachKeeps(h, h');
    }
  }
}
