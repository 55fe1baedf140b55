/**
 JSON values as the library stores them: arrays and objects are both ordered maps, arrays keyed by
 index, objects by name, in key order.  Their comparison operators follow.
 */
module JsonValue {
  import opened Basics

  /** A `double`, up to rounding. */
  datatype Double = NegInf | Finite(r: real) | PosInf | NaN
  {
    predicate Less(other: Double) {
      match (this, other)
      case (NaN, _) => false
      case (_, NaN) => false
      case (NegInf, o) => o != NegInf
      case (_, NegInf) => false
      case (PosInf, _) => false
      case (Finite(_), PosInf) => true
      case (Finite(a), Finite(b)) => a < b
    }

    predicate Equals(other: Double) {
      this == other && this != NaN
    }
  }

  /** A CZString: an index or a member name. */
  datatype Key = Index(i: int) | Name(s: string)
  {
    predicate Less(other: Key) {
      match (this, other)
      case (Name(a), Name(b)) => StrLess(a, b)
      case (Index(a), Index(b)) => a < b
      case _ => false
    }
  }

  datatype Entry = Entry(key: Key, value: Value)

  datatype Value =
    | Null
    | Int(i: int)
    | UInt(u: nat)
    | Real(d: Double)
    | Str(s: Option<string>)     // None is a null pointer
    | Bool(b: bool)
    | Arr(entries: seq<Entry>)
    | Obj(entries: seq<Entry>)

  /** The position in the ValueType enumeration. */
  function Rank(v: Value): nat {
    match v
    case Null => 0
    case Int(_) => 1
    case UInt(_) => 2
    case Real(_) => 3
    case Str(_) => 4
    case Bool(_) => 5
    case Arr(_) => 6
    case Obj(_) => 7
  }

  /** strcmp(a, b) < 0, on strings without NUL. */
  predicate StrLess(a: string, b: string)
    decreases |a|
  {
    if b == [] then false
    else if a == [] then true
    else a[0] < b[0] || (a[0] == b[0] && StrLess(a[1..], b[1..]))
  }

  /** A measure for recursion into a value. */
  function Size(v: Value): (n: nat)
    ensures n > 0
  {
    if v.Arr? || v.Obj? then 1 + Sizes(v.entries) else 1
  }

  function Sizes(es: seq<Entry>): nat {
    if es == [] then 0 else EntrySize(es[0]) + Sizes(es[1..])
  }

  function EntrySize(e: Entry): (n: nat)
    ensures n == 1 + Size(e.value)
  {
    1 + Size(e.value)
  }

  // ---------- operator< and operator== ----------

  predicate Less(a: Value, b: Value)
    decreases Size(a) + Size(b), 2
  {
    if Rank(a) != Rank(b) then Rank(a) < Rank(b)
    else match a
      case Null => false
      case Int(i) => i < b.i
      case UInt(u) => u < b.u
      case Real(d) => d.Less(b.d)
      case Bool(x) => !x && b.b
      case Str(s) => (s == None && b.s != None) || (s != None && b.s != None && StrLess(s.value, b.s.value))
      case Arr(es) => if |es| != |b.entries| then |es| < |b.entries| else EntriesLess(es, b.entries)
      case Obj(es) => if |es| != |b.entries| then |es| < |b.entries| else EntriesLess(es, b.entries)
  }

  /** The order of map elements: by key, then by value. */
  predicate EntryLess(x: Entry, y: Entry)
    decreases Size(x.value) + Size(y.value), 3
  {
    x.key.Less(y.key) || (!y.key.Less(x.key) && Less(x.value, y.value))
  }

  /** Lexicographic comparison of two maps, element by element in key order. */
  predicate EntriesLess(xs: seq<Entry>, ys: seq<Entry>)
    decreases Sizes(xs) + Sizes(ys), 1
  {
    if ys == [] then false
    else if xs == [] then true
    else if EntryLess(xs[0], ys[0]) then true
    else if EntryLess(ys[0], xs[0]) then false
    else EntriesLess(xs[1..], ys[1..])
  }

  predicate Equals(a: Value, b: Value)
    decreases Size(a), 1
  {
    Rank(a) == Rank(b) &&
    match a
    case Null => true
    case Int(i) => i == b.i
    case UInt(u) => u == b.u
    case Real(d) => d.Equals(b.d)
    case Bool(x) => x == b.b
    case Str(s) => s == b.s
    case Arr(es) => |es| == |b.entries| && EntriesEqual(es, b.entries)
    case Obj(es) => |es| == |b.entries| && EntriesEqual(es, b.entries)
  }

  predicate EntriesEqual(xs: seq<Entry>, ys: seq<Entry>)
    requires |xs| == |ys|
    decreases Sizes(xs), 0
  {
    xs == [] || (xs[0].key == ys[0].key && Equals(xs[0].value, ys[0].value) && EntriesEqual(xs[1..], ys[1..]))
  }

  // ---------- well-formed values ----------

  /** Array keys are indices, object keys are names, all the way down, and no number is NaN. */
  predicate Comparable(v: Value)
    decreases Size(v), 1
  {
    match v
    case Real(d) => d != NaN
    case Arr(es) => AllComparable(es, false)
    case Obj(es) => AllComparable(es, true)
    case _ => true
  }

  predicate AllComparable(es: seq<Entry>, named: bool)
    decreases Sizes(es), 0
  {
    es == [] || (es[0].key.Name? == named && Comparable(es[0].value) && AllComparable(es[1..], named))
  }

  // ---------- the order is strict and total ----------

  predicate ExactlyOne(a: bool, b: bool, c: bool) {
    (a && !b && !c) || (!a && b && !c) || (!a && !b && c)
  }

  lemma {:induction false} StrTrichotomy(a: string, b: string)
    ensures ExactlyOne(StrLess(a, b), a == b, StrLess(b, a))
    decreases |a|
  {
    if a != [] && b != [] {
      StrTrichotomy(a[1..], b[1..]);
      assert a == [a[0]] + a[1..] && b == [b[0]] + b[1..];
    }
  }

  lemma {:induction false} StrTransitive(a: string, b: string, c: string)
    requires StrLess(a, b) && StrLess(b, c)
    ensures StrLess(a, c)
    decreases |a|
  {
    if a != [] && a[0] == b[0] == c[0] {
      StrTransitive(a[1..], b[1..], c[1..]);
    }
  }

  lemma KeyTrichotomy(a: Key, b: Key)
    requires a.Name? == b.Name?
    ensures ExactlyOne(a.Less(b), a == b, b.Less(a))
  {
    if a.Name? {
      StrTrichotomy(a.s, b.s);
    }
  }

  /** Exactly one of a < b, b < a and equality holds. */
  lemma {:induction false} Trichotomy(a: Value, b: Value)
    requires Comparable(a) && Comparable(b)
    ensures ExactlyOne(Less(a, b), a == b, Less(b, a))
    decreases Size(a) + Size(b), 2
  {
    if Rank(a) == Rank(b) {
      match a
      case Str(s) => if s != None && b.s != None { StrTrichotomy(s.value, b.s.value); }
      case Arr(es) => if |es| == |b.entries| { EntriesTrichotomy(es, b.entries, false); }
      case Obj(es) => if |es| == |b.entries| { EntriesTrichotomy(es, b.entries, true); }
      case _ =>
    }
  }

  lemma {:induction false} EntryTrichotomy(x: Entry, y: Entry)
    requires x.key.Name? == y.key.Name? && Comparable(x.value) && Comparable(y.value)
    ensures ExactlyOne(EntryLess(x, y), x == y, EntryLess(y, x))
    decreases Size(x.value) + Size(y.value), 3
  {
    KeyTrichotomy(x.key, y.key);
    Trichotomy(x.value, y.value);
  }

  lemma {:induction false} EntriesTrichotomy(xs: seq<Entry>, ys: seq<Entry>, named: bool)
    requires |xs| == |ys| && AllComparable(xs, named) && AllComparable(ys, named)
    ensures ExactlyOne(EntriesLess(xs, ys), xs == ys, EntriesLess(ys, xs))
    decreases Sizes(xs) + Sizes(ys), 1
  {
    if xs != [] {
      EntryTrichotomy(xs[0], ys[0]);
      EntriesTrichotomy(xs[1..], ys[1..], named);
      assert xs == [xs[0]] + xs[1..] && ys == [ys[0]] + ys[1..];
    }
  }

  lemma {:induction false} Transitive(a: Value, b: Value, c: Value)
    requires Comparable(a) && Comparable(b) && Comparable(c) && Less(a, b) && Less(b, c)
    ensures Less(a, c)
    decreases Size(a) + Size(b) + Size(c), 2
  {
    if Rank(a) == Rank(b) == Rank(c) {
      match a
      case Str(s) => if s != None { StrTransitive(s.value, b.s.value, c.s.value); }
      case Arr(es) => if |es| == |b.entries| == |c.entries| { EntriesTransitive(es, b.entries, c.entries, false); }
      case Obj(es) => if |es| == |b.entries| == |c.entries| { EntriesTransitive(es, b.entries, c.entries, true); }
      case _ =>
    }
  }

  lemma {:induction false} EntryTransitive(x: Entry, y: Entry, z: Entry)
    requires x.key.Name? == y.key.Name? == z.key.Name?
    requires Comparable(x.value) && Comparable(y.value) && Comparable(z.value) && EntryLess(x, y) && EntryLess(y, z)
    ensures EntryLess(x, z)
    decreases Size(x.value) + Size(y.value) + Size(z.value), 3
  {
    KeyTrichotomy(x.key, y.key);
    KeyTrichotomy(y.key, z.key);
    KeyTrichotomy(x.key, z.key);
    if x.key.Less(y.key) && y.key.Less(z.key) && x.key.Name? { StrTransitive(x.key.s, y.key.s, z.key.s); }
    if x.key == y.key == z.key { Transitive(x.value, y.value, z.value); }
  }

  lemma {:induction false} EntriesTransitive(xs: seq<Entry>, ys: seq<Entry>, zs: seq<Entry>, named: bool)
    requires |xs| == |ys| == |zs| && AllComparable(xs, named) && AllComparable(ys, named) && AllComparable(zs, named)
    requires EntriesLess(xs, ys) && EntriesLess(ys, zs)
    ensures EntriesLess(xs, zs)
    decreases Sizes(xs) + Sizes(ys) + Sizes(zs), 1
  {
    EntryTrichotomy(xs[0], ys[0]);
    EntryTrichotomy(ys[0], zs[0]);
    EntryTrichotomy(xs[0], zs[0]);
    if EntryLess(xs[0], ys[0]) && EntryLess(ys[0], zs[0]) {
      EntryTransitive(xs[0], ys[0], zs[0]);
    } else if xs[0] == ys[0] == zs[0] {
      EntriesTransitive(xs[1..], ys[1..], zs[1..], named);
    }
  }

  // ---------- operator== ----------

  /** No NaN anywhere inside. */
  predicate NoNaN(v: Value)
    decreases Size(v), 1
  {
    if v.Real? then v.d != NaN else (v.Arr? || v.Obj?) ==> AllNoNaN(v.entries)
  }

  predicate AllNoNaN(es: seq<Entry>)
    decreases Sizes(es), 0
  {
    es == [] || (NoNaN(es[0].value) && AllNoNaN(es[1..]))
  }

  /** operator== holds exactly between equal values that contain no NaN. */
  lemma {:induction false} EqualsMeansEqual(a: Value, b: Value)
    ensures Equals(a, b) <==> a == b && NoNaN(a)
    decreases Size(a), 1
  {
    if Rank(a) == Rank(b) && (a.Arr? || a.Obj?) && |a.entries| == |b.entries| {
      EntriesEqualMeansEqual(a.entries, b.entries);
    }
  }

  lemma {:induction false} EntriesEqualMeansEqual(xs: seq<Entry>, ys: seq<Entry>)
    requires |xs| == |ys|
    ensures EntriesEqual(xs, ys) <==> xs == ys && AllNoNaN(xs)
    decreases Sizes(xs), 0
  {
    if xs != [] {
      EqualsMeansEqual(xs[0].value, ys[0].value);
      EntriesEqualMeansEqual(xs[1..], ys[1..]);
      assert xs == [xs[0]] + xs[1..] && ys == [ys[0]] + ys[1..];
    }
  }

  /** A value equals itself exactly when it contains no NaN. */
  lemma SelfEqualIff(a: Value)
    ensures Equals(a, a) <==> NoNaN(a)
  {
    EqualsMeansEqual(a, a);
  }

  /** On values without NaN the two operators agree: a strict total order whose ties are exactly ==. */
  lemma StrictTotalOrder(a: Value, b: Value, c: Value)
    requires Comparable(a) && Comparable(b) && Comparable(c)
    ensures ExactlyOne(Less(a, b), Equals(a, b), Less(b, a))
    ensures !Less(a, a)
    ensures Less(a, b) && Less(b, c) ==> Less(a, c)
  {
    Trichotomy(a, b);
    Trichotomy(a, a);
    ComparableNoNaN(a);
    EqualsMeansEqual(a, b);
    if Less(a, b) && Less(b, c) { Transitive(a, b, c); }
  }

  lemma {:induction false} ComparableNoNaN(a: Value)
    requires Comparable(a)
    ensures NoNaN(a)
    decreases Size(a), 1
  {
    if a.Arr? || a.Obj? { AllComparableNoNaN(a.entries, a.Obj?); }
  }

  lemma {:induction false} AllComparableNoNaN(es: seq<Entry>, named: bool)
    requires AllComparable(es, named)
    ensures AllNoNaN(es)
    decreases Sizes(es), 0
  {
    if es != [] {
      ComparableNoNaN(es[0].value);
      AllComparableNoNaN(es[1..], named);
    }
  }

  // ---------- which order it is ----------

  /** Numbers by value, false before true, reals by value with the infinities at the ends. */
  lemma ScalarOrder(i: int, j: int, u: nat, w: nat, a: real, b: real)
    ensures Less(Int(i), Int(j)) <==> i < j
    ensures Less(UInt(u), UInt(w)) <==> u < w
    ensures Less(Bool(false), Bool(true)) && !Less(Bool(true), Bool(false))
    ensures Less(Real(Finite(a)), Real(Finite(b))) <==> a < b
    ensures Less(Real(NegInf), Real(Finite(a))) && Less(Real(Finite(a)), Real(PosInf)) && Less(Real(NegInf), Real(PosInf))
  {
  }

  /** NaN is neither before nor after anything of its kind. */
  lemma NaNUnordered(d: Double)
    ensures !Less(Real(NaN), Real(d)) && !Less(Real(d), Real(NaN))
  {
  }

  /** Values of different kinds, in the order of the kinds. */
  lemma KindOrder(i: int, u: nat, d: Double, s: Option<string>, b: bool, xs: seq<Entry>, ys: seq<Entry>)
    ensures var vs := [Null, Int(i), UInt(u), Real(d), Str(s), Bool(b), Arr(xs), Obj(ys)];
      forall j, k :: 0 <= j < k < |vs| ==> Less(vs[j], vs[k]) && !Less(vs[k], vs[j])
  {
  }

  /** A string comes before its extensions, and otherwise the first different character decides. */
  lemma {:induction false} StringOrder(p: string, c: char, x: string, d: char, y: string)
    ensures StrLess(p, p + [c] + x)
    ensures c != d ==> (StrLess(p + [c] + x, p + [d] + y) <==> c < d)
    decreases |p|
  {
    if p == "" {
      assert "" + [c] + x == [c] + x && "" + [d] + y == [d] + y;
    } else {
      StringOrder(p[1..], c, x, d, y);
      assert (p + [c] + x)[1..] == p[1..] + [c] + x && (p + [d] + y)[1..] == p[1..] + [d] + y;
    }
  }

  /** The null string comes first, other strings in string order. */
  lemma StringValueOrder(a: string, b: string)
    ensures Less(Str(None), Str(Some(a))) && !Less(Str(Some(a)), Str(None))
    ensures Less(Str(Some(a)), Str(Some(b))) <==> StrLess(a, b)
  {
  }

  /** Indices in numeric order, names in string order. */
  predicate KeyBefore(x: Key, y: Key)
    requires x.Name? == y.Name?
  {
    if x.Name? then StrLess(x.s, y.s) else x.i < y.i
  }

  /** A common beginning does not matter. */
  lemma {:induction false} SkipCommon(p: seq<Entry>, xs: seq<Entry>, ys: seq<Entry>, named: bool)
    requires AllComparable(p, named)
    ensures EntriesLess(p + xs, p + ys) <==> EntriesLess(xs, ys)
    decreases |p|
  {
    if p == [] {
      assert p + xs == xs && p + ys == ys;
    } else {
      EntryTrichotomy(p[0], p[0]);
      SkipCommon(p[1..], xs, ys, named);
      assert (p + xs)[1..] == p[1..] + xs && (p + ys)[1..] == p[1..] + ys;
    }
  }

  /** The first different entry decides, by its key and then by its value. */
  lemma FirstDifferenceDecides(p: seq<Entry>, x: Entry, xs: seq<Entry>, y: Entry, ys: seq<Entry>, named: bool)
    requires AllComparable(p, named) && x != y && Comparable(x.value) && Comparable(y.value)
    requires x.key.Name? == y.key.Name? == named
    ensures EntriesLess(p + ([x] + xs), p + ([y] + ys)) <==>
      KeyBefore(x.key, y.key) || (x.key == y.key && Less(x.value, y.value))
  {
    SkipCommon(p, [x] + xs, [y] + ys, named);
    assert ([x] + xs)[0] == x && ([y] + ys)[0] == y;
    EntryTrichotomy(x, y);
    KeyTrichotomy(x.key, y.key);
    Trichotomy(x.value, y.value);
  }

  /** The smaller container comes first; of two equally large ones the first different entry decides. */
  lemma ContainerOrder(p: seq<Entry>, x: Entry, xs: seq<Entry>, y: Entry, ys: seq<Entry>, named: bool)
    requires AllComparable(p, named) && x != y && Comparable(x.value) && Comparable(y.value)
    requires x.key.Name? == y.key.Name? == named
    ensures var (a, b) := (p + ([x] + xs), p + ([y] + ys));
      var decided := KeyBefore(x.key, y.key) || (x.key == y.key && Less(x.value, y.value));
      && (|xs| < |ys| ==> Less(Arr(a), Arr(b)) && Less(Obj(a), Obj(b)))
      && (|xs| > |ys| ==> !Less(Arr(a), Arr(b)) && !Less(Obj(a), Obj(b)))
      && (|xs| == |ys| ==> (Less(Arr(a), Arr(b)) <==> decided) && (Less(Obj(a), Obj(b)) <==> decided))
  {
    FirstDifferenceDecides(p, x, xs, y, ys, named);
  }

  lemma SmallerFirst(xs: seq<Entry>, ys: seq<Entry>)
    requires |xs| < |ys|
    ensures Less(Arr(xs), Arr(ys)) && Less(Obj(xs), Obj(ys)) && !Less(Arr(ys), Arr(xs)) && !Less(Obj(ys), Obj(xs))
  {
  }
}
