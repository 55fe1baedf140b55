/** Counting threads by where they are. */
module Threads {
  import opened Basics

  ghost function Where<L(!new)>(pc: map<Tid, L>, p: L -> bool): set<Tid> {
    set t | t in pc && p(pc[t])
  }

  /** The number of threads whose location satisfies `p`. */
  ghost function Count<L(!new)>(pc: map<Tid, L>, p: L -> bool): nat {
    |Where(pc, p)|
  }

  function Bit(b: bool): nat { if b then 1 else 0 }

  /** Moving one thread changes a count by what it leaves and what it enters. */
  lemma CountMove<L(!new)>(pc: map<Tid, L>, t: Tid, l: L, p: L -> bool)
    requires t in pc
    ensures Count(pc[t := l], p) == Count(pc, p) - Bit(p(pc[t])) + Bit(p(l))
  {
    WhereMove(pc, t, l, p);
    CardinalityWith(Where(pc, p), t, p(pc[t]));
    CardinalityWith(Where(pc[t := l], p), t, p(l));
  }

  lemma WhereMove<L(!new)>(pc: map<Tid, L>, t: Tid, l: L, p: L -> bool)
    requires t in pc
    ensures Where(pc[t := l], p) - {t} == Where(pc, p) - {t}
    ensures t in Where(pc[t := l], p) <==> p(l)
    ensures t in Where(pc, p) <==> p(pc[t])
  {
  }

  lemma CardinalityWith<A>(a: set<A>, x: A, has: bool)
    requires has <==> x in a
    ensures |a| == |a - {x}| + Bit(has)
  {
  }

  lemma CountHas<L(!new)>(pc: map<Tid, L>, t: Tid, p: L -> bool)
    requires t in pc && p(pc[t])
    ensures Count(pc, p) >= 1
  {
    assert {t} <= Where(pc, p);
    CardinalityMonotone({t}, Where(pc, p));
  }

  lemma CountNone<L(!new)>(pc: map<Tid, L>, p: L -> bool)
    ensures Count(pc, p) == 0 <==> forall t :: t in pc ==> !p(pc[t])
  {
    if forall t :: t in pc ==> !p(pc[t]) {
      assert Where(pc, p) == {};
    }
    if Count(pc, p) == 0 {
      forall t | t in pc ensures !p(pc[t]) {
        if p(pc[t]) { CountHas(pc, t, p); }
      }
    }
  }

  lemma CardinalityMonotone<A>(a: set<A>, b: set<A>)
    requires a <= b
    ensures |a| <= |b|
  {
    assert b == a + (b - a);
  }
}
