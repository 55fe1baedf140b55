/**
 The timer table: registration, reset, removal and the periodic check, with the 32-bit arithmetic of
 the source written out.  `outTime` is an `int` that counts up from minus the initial delay.
 */
module TimerThread {

  import opened Arithmetic

  type uint = x: int | 0 <= x < 0x1_0000_0000
  type int32 = x: int | -0x8000_0000 <= x < 0x8000_0000

  datatype TimerInfo = TimerInfo(id: uint, elapse: uint, outTime: int32, persistent: bool, handler: nat)
  {
    /** The entry after `e` milliseconds: `outTime += e`. */
    function Ticked(e: uint): TimerInfo {
      this.(outTime := Int32(outTime + e))
    }

    predicate Due(e: uint) {
      Ticked(e).outTime >= Int32(elapse)
    }

    /** Still in the table after the check. */
    predicate Kept(e: uint) { persistent || !Due(e) }

    function Renewed(e: uint): TimerInfo {
      if Due(e) then this.(outTime := 0) else Ticked(e)
    }
  }

  type Table = map<uint, TimerInfo>

  predicate Keyed(m: Table) {
    forall id :: id in m ==> m[id].id == id
  }

  /** The table after a check: due one-shot timers are gone, due persistent ones start again. */
  function After(m: Table, e: uint): (r: Table)
    ensures Keyed(m) ==> Keyed(r)
  {
    map id | id in m && m[id].Kept(e) :: m[id].Renewed(e)
  }

  /** Exactly the due timers of `m`, each once, in increasing id order, as they stood after the tick. */
  ghost predicate Reports(m: Table, e: uint, fired: seq<TimerInfo>) {
    && (forall i :: 0 <= i < |fired| ==> fired[i].id in m && m[fired[i].id].Due(e) && fired[i] == m[fired[i].id].Ticked(e))
    && (forall i, j :: 0 <= i < j < |fired| ==> fired[i].id < fired[j].id)
    && (forall id :: id in m && m[id].Due(e) ==> Has(fired, id))
  }

  ghost predicate Has(fired: seq<TimerInfo>, id: uint) {
    exists i :: 0 <= i < |fired| && fired[i].id == id
  }

  /** The report is determined: no two sequences satisfy it. */
  lemma {:induction false} ReportsUnique(m: Table, e: uint, a: seq<TimerInfo>, b: seq<TimerInfo>)
    requires Keyed(m) && Reports(m, e, a) && Reports(m, e, b)
    ensures a == b
  {
    var n := 0;
    while n < |a| && n < |b|
      invariant n <= |a| && n <= |b| && a[..n] == b[..n]
    {
      SameNext(m, e, a, b, n);
      SameNext(m, e, b, a, n);
      n := n + 1;
    }
    if n < |a| { SameNext(m, e, a, b, n); }
    if n < |b| { SameNext(m, e, b, a, n); }
  }

  lemma SameNext(m: Table, e: uint, a: seq<TimerInfo>, b: seq<TimerInfo>, n: nat)
    requires Keyed(m) && Reports(m, e, a) && Reports(m, e, b) && n < |a| && n <= |b| && a[..n] == b[..n]
    ensures n < |b| && b[n].id <= a[n].id
  {
  }

  lemma Minimum(s: set<uint>) returns (x: uint)
    requires s != {}
    ensures x in s && forall y :: y in s ==> x <= y
    decreases |s|
  {
    x :| x in s;
    if s - {x} != {} {
      var y := Minimum(s - {x});
      assert forall z :: z in s ==> z == x || z in s - {x};
      if y < x { x := y; }
    } else {
      assert s == {x};
    }
  }

  /** The part of the table that the pass has gone over. */
  ghost function Seen(m: Table, ahead: set<uint>): Table { map id | id in m && id !in ahead :: m[id] }

  /** The table while the pass still has `ahead` to go over. */
  ghost function Midway(m: Table, ahead: set<uint>, e: uint): Table {
    map id | id in m && (id in ahead || m[id].Kept(e)) :: if id in ahead then m[id] else m[id].Renewed(e)
  }

  ghost predicate NextUp(m: Table, ahead: set<uint>, id: uint) {
    && id in ahead && ahead <= m.Keys
    && (forall j :: j in ahead ==> id <= j)
    && (forall j :: j in m && j !in ahead ==> j < id)
  }

  lemma TableStep(m: Table, ahead: set<uint>, id: uint, e: uint)
    requires id in ahead && ahead <= m.Keys
    ensures var t := Midway(m, ahead, e);
      && id in t && t[id] == m[id]
      && Midway(m, ahead - {id}, e) == if m[id].Kept(e) then t[id := m[id].Renewed(e)] else t - {id}
  {
  }

  lemma ReportStep(m: Table, ahead: set<uint>, id: uint, e: uint, fired: seq<TimerInfo>)
    requires Keyed(m) && NextUp(m, ahead, id) && Reports(Seen(m, ahead), e, fired)
    ensures Reports(Seen(m, ahead - {id}), e, if m[id].Due(e) then fired + [m[id].Ticked(e)] else fired)
  {
    var a, b := Seen(m, ahead), Seen(m, ahead - {id});
    var fired' := if m[id].Due(e) then fired + [m[id].Ticked(e)] else fired;
    forall j | j in b && b[j].Due(e) ensures Has(fired', j) {
      if j == id {
        assert fired'[|fired|].id == j;
      } else {
        assert Has(fired, j);
        var i :| 0 <= i < |fired| && fired[i].id == j;
        assert fired'[i].id == j;
      }
    }
  }

  /** Where the pass stands: `ahead` are the greatest ids, the others have been dealt with. */
  ghost predicate Passing(m: Table, ahead: set<uint>, e: uint, timers: Table, fired: seq<TimerInfo>) {
    && Keyed(m) && ahead <= m.Keys && (forall i, j :: i in m && i !in ahead && j in ahead ==> i < j)
    && timers == Midway(m, ahead, e) && Reports(Seen(m, ahead), e, fired)
  }

  lemma PassStarts(m: Table, e: uint)
    requires Keyed(m)
    ensures Passing(m, m.Keys, e, m, [])
  {
  }

  lemma PassStep(m: Table, ahead: set<uint>, e: uint, timers: Table, fired: seq<TimerInfo>, id: uint)
    requires Passing(m, ahead, e, timers, fired) && id in ahead && forall j :: j in ahead ==> id <= j
    ensures id in timers
    ensures Passing(m, ahead - {id}, e,
      if timers[id].Kept(e) then timers[id := timers[id].Renewed(e)] else timers - {id},
      if timers[id].Due(e) then fired + [timers[id].Ticked(e)] else fired)
  {
    TableStep(m, ahead, id, e);
    ReportStep(m, ahead, id, e, fired);
  }

  lemma PassEnds(m: Table, e: uint, timers: Table, fired: seq<TimerInfo>)
    requires Passing(m, {}, e, timers, fired)
    ensures timers == After(m, e) && Reports(m, e, fired)
  {
  }

  /** The counter that all timer threads share. */
  class TimerIds {
    var next: uint

    constructor ()
      ensures next == 0
    {
      next := 0;
    }

    method GetNextTimerID() returns (id: uint)
      modifies this
      ensures id == next == (old(next) + 1) % 0x1_0000_0000
    {
      next := if next == 0xFFFF_FFFF then 0 else next + 1;
      id := next;
    }
  }

  class TimerThread {
    const ids: TimerIds
    var timers: Table

    ghost predicate Valid()
      reads this
    {
      Keyed(timers)
    }

    constructor (ids: TimerIds)
      ensures Valid() && timers == map[] && this.ids == ids
    {
      this.ids := ids;
      timers := map[];
    }

    /** The id counter wraps; a reused id replaces the older entry. */
    method RegisterTimer(initialDelay: uint, elapse: uint, handler: nat, persistent: bool) returns (id: uint)
      requires Valid()
      modifies this, ids
      ensures Valid()
      ensures id == (old(ids.next) + 1) % 0x1_0000_0000 == ids.next
      ensures timers == old(timers)[id := TimerInfo(id, elapse, Int32(0 - initialDelay), persistent, handler)]
    {
      id := ids.GetNextTimerID();
      timers := timers[id := TimerInfo(id, elapse, Int32(0 - initialDelay), persistent, handler)];
    }

    method UnRegisterTimer(id: uint) returns (result: bool)
      requires Valid()
      modifies `timers
      ensures Valid()
      ensures result <==> id in old(timers)
      ensures timers == old(timers) - {id}
    {
      result := id in timers;
      timers := timers - {id};
    }

    method ResetTimer(id: uint) returns (result: bool)
      requires Valid()
      modifies `timers
      ensures Valid()
      ensures result <==> id in old(timers)
      ensures timers == if !result then old(timers) else
        old(timers)[id := old(timers)[id].(outTime := if old(timers)[id].persistent then Int32(old(timers)[id].elapse) else 0)]
    {
      result := id in timers;
      if result {
        var info := timers[id];
        timers := timers[id := info.(outTime := if info.persistent then Int32(info.elapse) else 0)];
      }
    }

    /** One step of the pass, at entry `id`. */
    method Visit(id: uint, e: uint) returns (due: bool, info: TimerInfo)
      requires id in timers
      modifies `timers
      ensures due <==> old(timers)[id].Due(e)
      ensures info == old(timers)[id].Ticked(e)
      ensures timers == if old(timers)[id].Kept(e) then old(timers)[id := old(timers)[id].Renewed(e)] else old(timers) - {id}
    {
      timers := timers[id := timers[id].Ticked(e)];
      info := timers[id];
      due := info.outTime >= Int32(info.elapse);
      if due {
        if info.persistent {
          timers := timers[id := info.(outTime := 0)];
        } else {
          timers := timers - {id};
        }
      }
    }

    /** One pass over the table in id order, updating and erasing in place. */
    method CheckTimeOut(e: uint) returns (result: bool, fired: seq<TimerInfo>)
      requires Valid()
      modifies `timers
      ensures Valid()
      ensures result <==> old(timers) != map[]
      ensures timers == After(old(timers), e)
      ensures Reports(old(timers), e, fired)
    {
      fired := [];
      result := timers != map[];
      ghost var m := timers;
      var ahead := timers.Keys;
      PassStarts(m, e);
      while ahead != {}
        invariant Passing(m, ahead, e, timers, fired)
        decreases |ahead|
      {
        ghost var least := Minimum(ahead);
        var id :| id in ahead && forall j :: j in ahead ==> id <= j;
        PassStep(m, ahead, e, timers, fired, id);
        var due, info := Visit(id, e);
        ahead := ahead - {id};
        if due { fired := fired + [info]; }
      }
      PassEnds(m, e, timers, fired);
    }
  }

  // ---------- when a persistent timer fires ----------

  /** The time passed at the first `n` checks together. */
  function Elapsed(es: seq<uint>, n: nat): nat
    requires n <= |es|
  {
    if n == 0 then 0 else Elapsed(es, n - 1) + es[n - 1]
  }

  /** Neither reset nor removed nor registered again; other timers may come and go. */
  ghost predicate Untouched(m: Table, m': Table, id: uint) {
    (id in m <==> id in m') && (id in m ==> m'[id] == m[id])
  }

  /** One check, and what may happen to the table before the next one. */
  ghost predicate CheckStep(m: Table, e: uint, fired: seq<TimerInfo>, m': Table, id: uint) {
    Keyed(m) && Reports(m, e, fired) && Untouched(After(m, e), m', id)
  }

  /** A run of checks: the tables before each check, the times passed and the reports. */
  ghost predicate IsRun(ms: seq<Table>, es: seq<uint>, rs: seq<seq<TimerInfo>>, id: uint) {
    && |ms| == |es| + 1 && |rs| == |es| && id in ms[0]
    && forall i {:trigger rs[i]} :: 0 <= i < |es| ==> CheckStep(ms[i], es[i], rs[i], ms[i + 1], id)
  }

  /** How many of the first `n` reports name the timer. */
  ghost function Firings(rs: seq<seq<TimerInfo>>, id: uint, n: nat): nat
    requires n <= |rs|
  {
    if n == 0 then 0 else Firings(rs, id, n - 1) + if Has(rs[n - 1], id) then 1 else 0
  }

  /** How many checks were made up to and including the last one that reported the timer; 0 when none did. */
  ghost function LastFiring(rs: seq<seq<TimerInfo>>, id: uint, n: nat): (k: nat)
    requires n <= |rs|
    ensures k <= n
  {
    if n == 0 then 0 else if Has(rs[n - 1], id) then n else LastFiring(rs, id, n - 1)
  }

  function Delay(initialDelay: uint, fired: nat): nat { if fired == 0 then initialDelay else 0 }

  /** The time since the last firing, or since registration less the initial delay, before check `n`. */
  ghost function Waited(es: seq<uint>, rs: seq<seq<TimerInfo>>, id: uint, delay: uint, n: nat): int
    requires n <= |es| == |rs|
  {
    Elapsed(es, n) - Elapsed(es, LastFiring(rs, id, n)) - Delay(delay, Firings(rs, id, n))
  }

  lemma WaitedStep(es: seq<uint>, rs: seq<seq<TimerInfo>>, id: uint, delay: uint, n: nat)
    requires n < |es| == |rs|
    ensures Waited(es, rs, id, delay, n + 1) == if Has(rs[n], id) then 0 else Waited(es, rs, id, delay, n) + es[n]
  {
  }

  /**
   The report names a timer exactly when it is due.  The next check finds a persistent timer renewed, a
   one-shot timer counted on while it was not due, and no due one-shot timer.
   */
  lemma EntryStep(m: Table, e: uint, fired: seq<TimerInfo>, m': Table, id: uint)
    requires CheckStep(m, e, fired, m', id)
    ensures Has(fired, id) <==> id in m && m[id].Due(e)
    ensures id in m && m[id].persistent ==> id in m' && m'[id] == m[id].Renewed(e)
    ensures id in m && !m[id].persistent && !m[id].Due(e) ==> id in m' && m'[id] == m[id].Ticked(e)
    ensures id !in m || (!m[id].persistent && m[id].Due(e)) ==> id !in m'
  {
    assert id in After(m, e) <==> id in m && m[id].Kept(e);
  }

  lemma RunStep(ms: seq<Table>, es: seq<uint>, rs: seq<seq<TimerInfo>>, id: uint, n: nat)
    requires IsRun(ms, es, rs, id) && n < |es| && id in ms[n] && ms[n][id].persistent
    ensures Has(rs[n], id) <==> ms[n][id].Due(es[n])
    ensures id in ms[n + 1] && ms[n + 1][id] == ms[n][id].Renewed(es[n])
  {
    EntryStep(ms[n], es[n], rs[n], ms[n + 1], id);
  }

  lemma RenewedCounts(i: TimerInfo, e: uint, waited: int)
    requires i.outTime == Int32(waited)
    ensures i.Due(e) <==> Int32(waited + e) >= Int32(i.elapse)
    ensures i.Renewed(e).outTime == Int32(if i.Due(e) then 0 else waited + e)
    ensures i.Renewed(e).elapse == i.elapse && i.Renewed(e).persistent == i.persistent
  {
    Int32Add(waited, e);
  }

  /** The stored counter is the time waited, in 32 bits: over any run, whatever the delay, the period and the times. */
  lemma {:induction false} Counted(ms: seq<Table>, es: seq<uint>, rs: seq<seq<TimerInfo>>, id: uint, delay: uint, n: nat)
    requires IsRun(ms, es, rs, id) && n <= |es| && ms[0][id].outTime == Int32(0 - delay) && ms[0][id].persistent
    ensures id in ms[n] && ms[n][id].persistent && ms[n][id].elapse == ms[0][id].elapse
    ensures ms[n][id].outTime == Int32(Waited(es, rs, id, delay, n))
  {
    if n > 0 {
      Counted(ms, es, rs, id, delay, n - 1);
      RunStep(ms, es, rs, id, n - 1);
      RenewedCounts(ms[n - 1][id], es[n - 1], Waited(es, rs, id, delay, n - 1));
      WaitedStep(es, rs, id, delay, n - 1);
    }
  }

  /**
   Where the 32-bit comparison of a time `s` with a period `p` answers as the numbers do.  A period from
   2^31 on reads as negative, a time from 2^31 on as negative, and one below -2^31 as positive.
   */
  predicate ReadsRight(s: int, p: uint) {
    if p < 0x8000_0000
    then s < p - 0x1_0000_0000 || -0x8000_0000 <= s < 0x8000_0000 || s >= p + 0x1_0000_0000
    else -0x8000_0000 <= s < p - 0x1_0000_0000 || 0x8000_0000 <= s < 0x1_8000_0000
  }

  /** The exact condition, for every period and every sum that a check can meet. */
  lemma TestExact(s: int, p: uint)
    requires -0x1_0000_0000 <= s && (s < p + 0x1_0000_0000 || s < 0x1_8000_0000)
    ensures (Int32(s) >= Int32(p) <==> s >= p) <==> ReadsRight(s, p)
  {
  }

  /** The check of a stored entry is right exactly where the comparison reads right. */
  lemma DueTestExact(i: TimerInfo, e: uint)
    ensures (i.Due(e) <==> i.outTime + e >= i.elapse) <==> ReadsRight(i.outTime + e, i.elapse)
  {
    TestExact(i.outTime + e, i.elapse);
  }

  /** The stored start value is minus the delay exactly up to a delay of 2^31. */
  lemma StartExact(delay: uint)
    ensures Int32(0 - delay) == 0 - delay <==> delay <= 0x8000_0000
  {
  }

  /** The time an unbounded counter would show before check `n`, from the arguments alone. */
  function Ideal(delay: uint, p: uint, es: seq<uint>, n: nat): int
    requires n <= |es|
  {
    if n == 0 then 0 - delay
    else var s := Ideal(delay, p, es, n - 1) + es[n - 1]; if s >= p then 0 else s
  }

  lemma {:induction false} IdealBounds(delay: uint, p: uint, es: seq<uint>, n: nat)
    requires n <= |es|
    ensures -0x1_0000_0000 < Ideal(delay, p, es, n) <= p
  {
    if n > 0 { IdealBounds(delay, p, es, n - 1); }
  }

  /** Check `n` reports the timer exactly when its period has passed since the last report, or since the delay. */
  ghost predicate OnTime(es: seq<uint>, rs: seq<seq<TimerInfo>>, id: uint, delay: uint, p: uint, n: nat)
    requires n < |es| == |rs|
  {
    var last := Elapsed(es, LastFiring(rs, id, n));
    Has(rs[n], id) <==> Elapsed(es, n + 1) - last >= p + Delay(delay, Firings(rs, id, n))
  }

  ghost predicate AllOnTime(es: seq<uint>, rs: seq<seq<TimerInfo>>, id: uint, delay: uint, p: uint, n: nat)
    requires n <= |es| == |rs|
  {
    forall i :: 0 <= i < n ==> OnTime(es, rs, id, delay, p, i)
  }

  /** All comparisons of the first `n` checks read right, as the arguments alone decide. */
  predicate AllReadRight(delay: uint, p: uint, es: seq<uint>, n: nat)
    requires n <= |es|
  {
    forall i :: 0 <= i < n ==> ReadsRight(Ideal(delay, p, es, i) + es[i], p)
  }

  /** As long as it was on time, the timer has waited what the unbounded counter shows. */
  lemma {:induction false} WaitedIsIdeal(es: seq<uint>, rs: seq<seq<TimerInfo>>, id: uint, delay: uint, p: uint, n: nat)
    requires n <= |es| == |rs| && AllOnTime(es, rs, id, delay, p, n)
    ensures Waited(es, rs, id, delay, n) == Ideal(delay, p, es, n)
  {
    if n > 0 {
      WaitedIsIdeal(es, rs, id, delay, p, n - 1);
      assert OnTime(es, rs, id, delay, p, n - 1);
      WaitedStep(es, rs, id, delay, n - 1);
    }
  }

  /** After a timely past, check `n` is on time exactly when its comparison reads right. */
  lemma OnTimeIff(ms: seq<Table>, es: seq<uint>, rs: seq<seq<TimerInfo>>, id: uint, delay: uint, n: nat)
    requires IsRun(ms, es, rs, id) && n < |es| && ms[0][id].outTime == Int32(0 - delay) && ms[0][id].persistent
    requires AllOnTime(es, rs, id, delay, ms[0][id].elapse, n)
    ensures var p := ms[0][id].elapse; OnTime(es, rs, id, delay, p, n) <==> ReadsRight(Ideal(delay, p, es, n) + es[n], p)
  {
    var p := ms[0][id].elapse;
    Counted(ms, es, rs, id, delay, n);
    RunStep(ms, es, rs, id, n);
    WaitedIsIdeal(es, rs, id, delay, p, n);
    RenewedCounts(ms[n][id], es[n], Waited(es, rs, id, delay, n));
    IdealBounds(delay, p, es, n);
    TestExact(Ideal(delay, p, es, n) + es[n], p);
  }

  /** Check by check, after a timely past, being on time and reading right come to the same. */
  ghost predicate Stepwise(es: seq<uint>, rs: seq<seq<TimerInfo>>, id: uint, delay: uint, p: uint)
    requires |es| == |rs|
  {
    forall n :: 0 <= n < |es| && AllOnTime(es, rs, id, delay, p, n) ==>
      (OnTime(es, rs, id, delay, p, n) <==> ReadsRight(Ideal(delay, p, es, n) + es[n], p))
  }

  lemma {:induction false} AllOnTimeIff(es: seq<uint>, rs: seq<seq<TimerInfo>>, id: uint, delay: uint, p: uint, n: nat)
    requires n <= |es| == |rs| && Stepwise(es, rs, id, delay, p)
    ensures AllOnTime(es, rs, id, delay, p, n) <==> AllReadRight(delay, p, es, n)
  {
    if n > 0 { AllOnTimeIff(es, rs, id, delay, p, n - 1); }
  }

  function Times(f: nat, p: nat): nat { if f == 0 then 0 else Times(f - 1, p) + p }

  lemma {:induction false} TimesIsProduct(f: nat, p: nat)
    ensures Times(f, p) == f * p
  {
    if f > 0 { TimesIsProduct(f - 1, p); }
  }

  /** A timely timer has its f-th firing no earlier than the delay and f periods. */
  lemma {:induction false} FiringTimes(es: seq<uint>, rs: seq<seq<TimerInfo>>, id: uint, delay: uint, p: uint, n: nat)
    requires n <= |es| == |rs| && AllOnTime(es, rs, id, delay, p, n)
    ensures var f, last := Firings(rs, id, n), Elapsed(es, LastFiring(rs, id, n));
      if f == 0 then last == 0 else last >= delay + Times(f, p)
  {
    if n > 0 {
      FiringTimes(es, rs, id, delay, p, n - 1);
      assert OnTime(es, rs, id, delay, p, n - 1);
    }
  }

  /** Check `n` does not report the timer before its delay and its periods have passed, one for each report so far. */
  ghost predicate NotEarly(es: seq<uint>, rs: seq<seq<TimerInfo>>, id: uint, delay: uint, p: uint, n: nat)
    requires n < |es| == |rs|
  {
    Has(rs[n], id) ==> Elapsed(es, n + 1) >= delay + (Firings(rs, id, n) + 1) * p
  }

  lemma TimelyNotEarly(es: seq<uint>, rs: seq<seq<TimerInfo>>, id: uint, delay: uint, p: uint, n: nat)
    requires n < |es| == |rs| && AllOnTime(es, rs, id, delay, p, |es|)
    ensures NotEarly(es, rs, id, delay, p, n)
  {
    FiringTimes(es, rs, id, delay, p, n + 1);
    TimesIsProduct(Firings(rs, id, n + 1), p);
  }

  /**
   Over any run of checks a persistent timer is reported at the first check where the time counted since
   its last report is due, every time, if and only if every comparison reads right; and then its f-th
   report never comes before the delay and f periods.
   */
  lemma FiresWhenDue(ms: seq<Table>, es: seq<uint>, rs: seq<seq<TimerInfo>>, id: uint, delay: uint)
    requires IsRun(ms, es, rs, id) && ms[0][id].outTime == Int32(0 - delay) && ms[0][id].persistent
    ensures var p := ms[0][id].elapse; AllOnTime(es, rs, id, delay, p, |es|) <==> AllReadRight(delay, p, es, |es|)
    ensures var p := ms[0][id].elapse;
      AllReadRight(delay, p, es, |es|) ==> forall n :: 0 <= n < |es| ==> NotEarly(es, rs, id, delay, p, n)
  {
    var p := ms[0][id].elapse;
    forall n | 0 <= n < |es| && AllOnTime(es, rs, id, delay, p, n)
      ensures OnTime(es, rs, id, delay, p, n) <==> ReadsRight(Ideal(delay, p, es, n) + es[n], p)
    {
      OnTimeIff(ms, es, rs, id, delay, n);
    }
    AllOnTimeIff(es, rs, id, delay, p, |es|);
    forall n | AllReadRight(delay, p, es, |es|) && 0 <= n < |es| ensures NotEarly(es, rs, id, delay, p, n) {
      TimelyNotEarly(es, rs, id, delay, p, n);
    }
  }

  /** For delays up to 2^31 and periods below it, the condition is that no counted time reaches 2^31. */
  lemma ReadRightBelow(delay: uint, p: uint, es: seq<uint>)
    requires delay <= 0x8000_0000 && p < 0x8000_0000
    ensures AllReadRight(delay, p, es, |es|) <==>
      forall i :: 0 <= i < |es| ==> Ideal(delay, p, es, i) + es[i] < 0x8000_0000
  {
    forall i | 0 <= i < |es|
      ensures ReadsRight(Ideal(delay, p, es, i) + es[i], p) <==> Ideal(delay, p, es, i) + es[i] < 0x8000_0000
    {
      IdealBounds(delay, p, es, i);
      IdealAbove(delay, p, es, i);
    }
  }

  lemma {:induction false} IdealAbove(delay: uint, p: uint, es: seq<uint>, n: nat)
    requires n <= |es|
    ensures Ideal(delay, p, es, n) >= 0 - delay && (Ideal(delay, p, es, n) < p || Ideal(delay, p, es, n) <= 0)
  {
    if n > 0 { IdealAbove(delay, p, es, n - 1); }
  }

  // ---------- when a one-shot timer fires ----------

  /** A one-shot timer stays until its report, with the time since registration less its delay as its counter. */
  ghost predicate WaitsOnce(m: Table, es: seq<uint>, rs: seq<seq<TimerInfo>>, id: uint, delay: uint, p: uint, n: nat)
    requires n <= |es| == |rs|
  {
    && (id in m <==> Firings(rs, id, n) == 0)
    && (id in m ==> !m[id].persistent && m[id].elapse == p && m[id].outTime == Int32(Elapsed(es, n) - delay))
  }

  lemma OnceStep(m: Table, e: uint, fired: seq<TimerInfo>, m': Table, id: uint, counted: int)
    requires CheckStep(m, e, fired, m', id) && id in m && !m[id].persistent && m[id].outTime == Int32(counted)
    ensures Has(fired, id) <==> Int32(counted + e) >= Int32(m[id].elapse)
    ensures id in m' <==> !Has(fired, id)
    ensures id in m' ==> m'[id].outTime == Int32(counted + e) && m'[id].elapse == m[id].elapse && !m'[id].persistent
  {
    EntryStep(m, e, fired, m', id);
    Int32Add(counted, e);
  }

  /** Over any run of checks, it is in the table exactly until its first report, and its counter is the time in 32 bits. */
  lemma {:induction false} CountedOnce(ms: seq<Table>, es: seq<uint>, rs: seq<seq<TimerInfo>>, id: uint, delay: uint, n: nat)
    requires IsRun(ms, es, rs, id) && n <= |es| && ms[0][id].outTime == Int32(0 - delay) && !ms[0][id].persistent
    ensures WaitsOnce(ms[n], es, rs, id, delay, ms[0][id].elapse, n)
  {
    if n > 0 {
      var m := ms[n - 1];
      CountedOnce(ms, es, rs, id, delay, n - 1);
      assert CheckStep(m, es[n - 1], rs[n - 1], ms[n], id);
      if id in m {
        OnceStep(m, es[n - 1], rs[n - 1], ms[n], id, Elapsed(es, n - 1) - delay);
      } else {
        EntryStep(m, es[n - 1], rs[n - 1], ms[n], id);
      }
    }
  }

  lemma {:induction false} FiringsGrow(rs: seq<seq<TimerInfo>>, id: uint, m: nat, n: nat)
    requires m <= n <= |rs|
    ensures Firings(rs, id, m) <= Firings(rs, id, n)
    decreases n
  {
    if m < n { FiringsGrow(rs, id, m, n - 1); }
  }

  /** A one-shot timer is reported at most once, and after its report it is in no table and no report. */
  lemma OnceReported(ms: seq<Table>, es: seq<uint>, rs: seq<seq<TimerInfo>>, id: uint, delay: uint, i: nat, n: nat)
    requires IsRun(ms, es, rs, id) && ms[0][id].outTime == Int32(0 - delay) && !ms[0][id].persistent
    requires i < |es| && Has(rs[i], id) && i < n <= |es|
    ensures id !in ms[n] && (n < |es| ==> !Has(rs[n], id))
  {
    FiringsGrow(rs, id, i + 1, n);
    CountedOnce(ms, es, rs, id, delay, n);
    if n < |es| {
      assert CheckStep(ms[n], es[n], rs[n], ms[n + 1], id);
      EntryStep(ms[n], es[n], rs[n], ms[n + 1], id);
    }
  }

  /** Check `n` reports the timer exactly when it is the first one where the delay and the period have passed. */
  ghost predicate OnTimeOnce(es: seq<uint>, rs: seq<seq<TimerInfo>>, id: uint, delay: uint, p: uint, n: nat)
    requires n < |es| == |rs|
  {
    Has(rs[n], id) <==> Elapsed(es, n) < delay + p <= Elapsed(es, n + 1) || (n == 0 && delay + p == 0)
  }

  ghost predicate AllOnTimeOnce(es: seq<uint>, rs: seq<seq<TimerInfo>>, id: uint, delay: uint, p: uint, n: nat)
    requires n <= |es| == |rs|
  {
    forall i :: 0 <= i < n ==> OnTimeOnce(es, rs, id, delay, p, i)
  }

  /** The comparison of check `n` matters: the timer has not been due before. */
  predicate StillWaiting(delay: uint, p: uint, es: seq<uint>, n: nat)
    requires n <= |es|
  {
    n == 0 || Elapsed(es, n) < delay + p
  }

  predicate AllReadRightOnce(delay: uint, p: uint, es: seq<uint>, n: nat)
    requires n <= |es|
  {
    forall i :: 0 <= i < n && StillWaiting(delay, p, es, i) ==> ReadsRight(Elapsed(es, i + 1) - delay, p)
  }

  /** As long as it was on time, it has been reported exactly if it has been due. */
  lemma {:induction false} WaitingUnreported(es: seq<uint>, rs: seq<seq<TimerInfo>>, id: uint, delay: uint, p: uint, n: nat)
    requires n <= |es| == |rs| && AllOnTimeOnce(es, rs, id, delay, p, n)
    ensures Firings(rs, id, n) == 0 <==> StillWaiting(delay, p, es, n)
  {
    if n > 0 {
      WaitingUnreported(es, rs, id, delay, p, n - 1);
      assert OnTimeOnce(es, rs, id, delay, p, n - 1);
    }
  }

  /** After a timely past, check `n` is on time exactly when its comparison reads right or does not matter. */
  lemma OnTimeOnceIff(ms: seq<Table>, es: seq<uint>, rs: seq<seq<TimerInfo>>, id: uint, delay: uint, n: nat)
    requires IsRun(ms, es, rs, id) && n < |es| && ms[0][id].outTime == Int32(0 - delay) && !ms[0][id].persistent
    requires AllOnTimeOnce(es, rs, id, delay, ms[0][id].elapse, n)
    ensures var p := ms[0][id].elapse;
      OnTimeOnce(es, rs, id, delay, p, n) <==> (StillWaiting(delay, p, es, n) ==> ReadsRight(Elapsed(es, n + 1) - delay, p))
  {
    var p := ms[0][id].elapse;
    CountedOnce(ms, es, rs, id, delay, n);
    WaitingUnreported(es, rs, id, delay, p, n);
    assert CheckStep(ms[n], es[n], rs[n], ms[n + 1], id);
    if id in ms[n] {
      OnceStep(ms[n], es[n], rs[n], ms[n + 1], id, Elapsed(es, n) - delay);
      TestExact(Elapsed(es, n + 1) - delay, p);
    } else {
      EntryStep(ms[n], es[n], rs[n], ms[n + 1], id);
    }
  }

  ghost predicate StepwiseOnce(es: seq<uint>, rs: seq<seq<TimerInfo>>, id: uint, delay: uint, p: uint)
    requires |es| == |rs|
  {
    forall n :: 0 <= n < |es| && AllOnTimeOnce(es, rs, id, delay, p, n) ==>
      (OnTimeOnce(es, rs, id, delay, p, n) <==> (StillWaiting(delay, p, es, n) ==> ReadsRight(Elapsed(es, n + 1) - delay, p)))
  }

  lemma {:induction false} AllOnTimeOnceIff(es: seq<uint>, rs: seq<seq<TimerInfo>>, id: uint, delay: uint, p: uint, n: nat)
    requires n <= |es| == |rs| && StepwiseOnce(es, rs, id, delay, p)
    ensures AllOnTimeOnce(es, rs, id, delay, p, n) <==> AllReadRightOnce(delay, p, es, n)
  {
    if n > 0 { AllOnTimeOnceIff(es, rs, id, delay, p, n - 1); }
  }

  /**
   Over any run of checks a one-shot timer is reported at the first check where its delay and period have
   passed, and at no other, if and only if the comparisons up to there read right.
   */
  lemma FiresOnce(ms: seq<Table>, es: seq<uint>, rs: seq<seq<TimerInfo>>, id: uint, delay: uint)
    requires IsRun(ms, es, rs, id) && ms[0][id].outTime == Int32(0 - delay) && !ms[0][id].persistent
    ensures var p := ms[0][id].elapse; AllOnTimeOnce(es, rs, id, delay, p, |es|) <==> AllReadRightOnce(delay, p, es, |es|)
  {
    var p := ms[0][id].elapse;
    forall n | 0 <= n < |es| && AllOnTimeOnce(es, rs, id, delay, p, n)
      ensures OnTimeOnce(es, rs, id, delay, p, n) <==> (StillWaiting(delay, p, es, n) ==> ReadsRight(Elapsed(es, n + 1) - delay, p))
    {
      OnTimeOnceIff(ms, es, rs, id, delay, n);
    }
    AllOnTimeOnceIff(es, rs, id, delay, p, |es|);
  }

  // ---------- inputs on which the test goes wrong ----------

  /** A due timer that is missed: the counted time has reached 2^31. */
  lemma MissedByWrapping()
    ensures var i := TimerInfo(1, 1000, 0, true, 0);
      i.outTime + 0x8000_0000 >= i.elapse && !i.Due(0x8000_0000)
  {
  }

  /** A timer that fires at once: a delay above 2^31 starts the counter at a large positive value. */
  lemma EarlyByDelay()
    ensures var i := TimerInfo(1, 1000, Int32(0 - 0x8000_0001), true, 0); i.Due(0)
  {
  }

  /** A timer that fires at once: a period from 2^31 on reads as negative. */
  lemma EarlyByPeriod()
    ensures TimerInfo(1, 0x8000_0000, 0, true, 0).Due(0)
  {
  }

  /** A reset persistent timer fires at the next check exactly when its counter does not wrap there. */
  lemma ResetFiresNext(i: TimerInfo, e: uint)
    ensures i.(outTime := Int32(i.elapse)).Due(e) <==> Int32(i.elapse) + e < 0x8000_0000
  {
  }
}
