/**
 The two writers.  FastWriter puts a value on one line; StyledWriter breaks lines, indents and keeps a
 short array on one line by first collecting the texts of its elements.  Both must write the same
 document up to insignificant whitespace.
 */
module JsonWriters {
  import opened JsonValue
  import opened JsonText
  import opened Arithmetic

  // ---------- values as the writers read them ----------

  const MAX_INT := 0x7FFF_FFFF

  /** The element with the given key, or null. */
  function Get(es: seq<Entry>, k: Key): (v: Value)
    ensures es != [] ==> Size(v) <= Sizes(es)
  {
    if es == [] then Null else if es[0].key == k then es[0].value else Get(es[1..], k)
  }

  /** Elements of an array: one more than its last index, which may leave gaps.  Indices are not negative. */
  function ArraySize(es: seq<Entry>): (n: nat)
    ensures n > 0 <==> es != []
  {
    if es == [] then 0 else var k := es[|es| - 1].key; if k.Index? && k.i >= 0 then k.i + 1 else 1
  }

  predicate IndicesFit(es: seq<Entry>) { forall j :: 0 <= j < |es| ==> es[j].key.Index? && 0 <= es[j].key.i <= MAX_INT }

  /** The value prints as a container with something in it. */
  predicate Nested(v: Value) { (v.Arr? || v.Obj?) && v.entries != [] }

  predicate AllNamed(es: seq<Entry>) { forall i :: 0 <= i < |es| ==> es[i].key.Name? }

  /** Keys of one kind in strictly increasing order, as a map keeps them. */
  predicate SortedKeys(es: seq<Entry>, named: bool) {
    (forall i :: 0 <= i < |es| ==> es[i].key.Name? == named) &&
    (forall i, j :: 0 <= i < j < |es| ==> es[i].key.Less(es[j].key))
  }

  /** The iterations of a loop whose bound is the size held in a signed integer. */
  function Count(es: seq<Entry>): (n: nat)
    ensures n <= ArraySize(es)
  {
    var size := Int32(ArraySize(es));
    if size < 0 then 0 else size
  }

  /** Every array inside has a size that fits a signed integer. */
  predicate Fits(v: Value)
    decreases Size(v), 1
  {
    match v
    case Arr(es) => ArraySize(es) <= MAX_INT && AllFit(es)
    case Obj(es) => AllFit(es)
    case _ => true
  }

  predicate AllFit(es: seq<Entry>)
    decreases Sizes(es), 0
  {
    es == [] || (Fits(es[0].value) && AllFit(es[1..]))
  }

  /** What the library can hold and the writers accept: no null strings, integers in range. */
  predicate Writable(v: Value)
    decreases Size(v), 1
  {
    match v
    case Int(i) => -MAX_INT <= i <= MAX_INT
    case UInt(u) => u < 0x1_0000_0000
    case Str(s) => s.Some? && NulFree(s.value)
    case Arr(es) => SortedKeys(es, false) && IndicesFit(es) && AllWritable(es)
    case Obj(es) => SortedKeys(es, true) && AllWritable(es)
    case _ => true
  }

  predicate AllWritable(es: seq<Entry>)
    decreases Sizes(es), 0
  {
    es == [] || ((es[0].key.Name? ==> NulFree(es[0].key.s)) && Writable(es[0].value) && AllWritable(es[1..]))
  }

  lemma {:induction false} GetWritable(es: seq<Entry>, k: Key)
    ensures AllWritable(es) ==> Writable(Get(es, k))
    ensures AllFit(es) ==> Fits(Get(es, k))
    decreases |es|
  {
    if es != [] { GetWritable(es[1..], k); }
  }

  /** Sizes and good entries, position by position. */
  lemma {:induction false} EntryAt(es: seq<Entry>, i: nat)
    requires i < |es|
    ensures Size(es[i].value) < Sizes(es)
    ensures AllWritable(es) ==> Writable(es[i].value) && (es[i].key.Name? ==> NulFree(es[i].key.s))
    ensures AllFit(es) ==> Fits(es[i].value)
    decreases |es|
  {
    if i > 0 {
      assert es[1..][i - 1] == es[i];
      EntryAt(es[1..], i - 1);
    }
  }

  /** A key that is not there gives null: the gaps of an array. */
  lemma {:induction false} GetAbsent(es: seq<Entry>, k: Key)
    requires forall i :: 0 <= i < |es| ==> es[i].key != k
    ensures Get(es, k) == Null
    decreases |es|
  {
    if es != [] {
      var tail := es[1..];
      assert forall i :: 0 <= i < |tail| ==> tail[i] == es[i + 1];
      GetAbsent(tail, k);
    }
  }

  /** Looking a member up by its own name finds that member. */
  lemma {:induction false} GetFinds(es: seq<Entry>, named: bool, i: nat)
    requires SortedKeys(es, named) && i < |es|
    ensures Get(es, es[i].key) == es[i].value
    decreases |es|
  {
    if i > 0 {
      KeyTrichotomy(es[0].key, es[i].key);
      assert es[1..][i - 1] == es[i];
      GetFinds(es[1..], named, i - 1);
    }
  }

  predicate ItemsFit(es: seq<Entry>, k: nat) { forall i :: k <= i < ArraySize(es) ==> Fits(Get(es, Index(i))) }

  /** Looking at every index visits every stored element. */
  lemma ItemsFitIff(es: seq<Entry>)
    requires SortedKeys(es, false) && IndicesFit(es)
    ensures ItemsFit(es, 0) <==> AllFit(es)
  {
    forall i | 0 <= i < ArraySize(es) ensures AllFit(es) ==> Fits(Get(es, Index(i))) { GetWritable(es, Index(i)); }
    if ItemsFit(es, 0) {
      forall j | 0 <= j < |es| ensures Fits(es[j].value) {
        GetFinds(es, false, j);
        assert es[j].key == Index(es[j].key.i);
        if j < |es| - 1 { assert es[j].key.Less(es[|es| - 1].key); }
      }
      AllFitFrom(es, 0);
    }
  }

  predicate FitFrom(es: seq<Entry>, k: nat) { forall j :: k <= j < |es| ==> Fits(es[j].value) }

  lemma {:induction false} AllFitFrom(es: seq<Entry>, k: nat)
    requires k <= |es|
    ensures AllFit(es[k..]) <==> FitFrom(es, k)
    ensures es[0..] == es
    decreases |es| - k
  {
    if k < |es| {
      AllFitFrom(es, k + 1);
      assert es[k..][1..] == es[k + 1..] && es[k..][0] == es[k];
    }
  }

  // ---------- the compact text ----------

  /** A word without quotes, whitespace and punctuation. */
  predicate Plain(s: string) { |s| > 0 && Token(s) && forall i :: 0 <= i < |s| ==> s[i] !in "[]{}:," }

  /** How reals are printed. */
  type Format = f: Double -> string | forall d :: Plain(f(d)) witness d => "0.0"

  function Scalar(f: Format, v: Value): string
    requires !v.Arr? && !v.Obj? && (v.Str? ==> v.s.Some?)
  {
    match v
    case Null => "null"
    case Int(i) => DecimalInt(i)
    case UInt(u) => Decimal(u)
    case Real(d) => f(d)
    case Str(s) => Quoted(s.value)
    case Bool(b) => if b then "true" else "false"
  }

  function Comma(n: nat): string { if n == 0 then "" else "," }

  /** The text of a value without any line break; `yaml` puts a blank after each colon. */
  function FastText(f: Format, yaml: bool, v: Value): string
    requires Writable(v)
    decreases Size(v), 0
  {
    match v
    case Arr(es) => "[" + FastItems(f, yaml, es, Count(es)) + "]"
    case Obj(es) => "{" + FastMembers(f, yaml, es, |es|) + "}"
    case _ => Scalar(f, v)
  }

  /** The first n elements, separated by commas. */
  function FastItems(f: Format, yaml: bool, es: seq<Entry>, n: nat): string
    requires AllWritable(es) && n <= ArraySize(es)
    decreases Sizes(es), n + 1
  {
    if n == 0 then ""
    else FastItems(f, yaml, es, n - 1) + Comma(n - 1) + Item(f, yaml, es, n - 1)
  }

  function Item(f: Format, yaml: bool, es: seq<Entry>, i: nat): string
    requires AllWritable(es) && i < ArraySize(es)
    decreases Sizes(es), 1
  {
    GetWritable(es, Index(i));
    FastText(f, yaml, Get(es, Index(i)))
  }

  /** The first n members, separated by commas. */
  function FastMembers(f: Format, yaml: bool, es: seq<Entry>, n: nat): string
    requires AllWritable(es) && n <= |es| && AllNamed(es)
    decreases Sizes(es), n + 1
  {
    if n == 0 then ""
    else FastMembers(f, yaml, es, n - 1) + Comma(n - 1) + Member(f, yaml, es, n - 1)
  }

  function Member(f: Format, yaml: bool, es: seq<Entry>, i: nat): string
    requires AllWritable(es) && i < |es| && es[i].key.Name?
    decreases Sizes(es), 1
  {
    EntryAt(es, i);
    Quoted(es[i].key.s) + (if yaml then ": " else ":") + FastText(f, yaml, es[i].value)
  }


  class FastWriter {
    const f: Format
    var document: string
    var yaml: bool

    constructor (f: Format)
      ensures this.f == f && document == "" && !yaml
    {
      this.f := f;
      document, yaml := "", false;
    }

    method EnableYamlCompatibility()
      modifies this
      ensures yaml && document == old(document)
    {
      yaml := true;
    }

    /** The whole document: the value on one line and a line break. */
    method Write(root: Value) returns (r: string)
      requires Writable(root)
      modifies this`document
      ensures document == r == FastText(f, yaml, root) + "\n"
    {
      document := "";
      ghost var text := FastText(f, yaml, root);
      assert "" + text == text;
      WriteValue(root);
      document := document + "\n";
      r := document;
    }

    method WriteValue(v: Value)
      requires Writable(v)
      modifies this`document
      ensures document == old(document) + FastText(f, yaml, v)
      decreases Size(v), 1
    {
      match v
      case Arr(es) => WriteArray(v);
      case Obj(es) => WriteObject(v);
      case _ =>
        var text := ScalarText(f, v);
        document := document + text;
    }

    method WriteArray(v: Value)
      requires Writable(v) && v.Arr?
      modifies this`document
      ensures document == old(document) + FastText(f, yaml, v)
      decreases Size(v), 0
    {
      var es := v.entries;
      document := document + "[";
      ghost var d := document;
      var size := Int32(ArraySize(es));
      var index := 0;
      while index < size
        invariant 0 <= index <= Count(es)
        invariant document == d + FastItems(f, yaml, es, index)
      {
        WriteItem(es, index);
        Grow(d, FastItems(f, yaml, es, index), Comma(index), Item(f, yaml, es, index));
        index := index + 1;
      }
      document := document + "]";
      Grow(old(document), "[", FastItems(f, yaml, es, Count(es)), "]");
    }

    method WriteItem(es: seq<Entry>, index: nat)
      requires AllWritable(es) && index < ArraySize(es)
      modifies this`document
      ensures document == old(document) + Comma(index) + Item(f, yaml, es, index)
      decreases Sizes(es), 2
    {
      if index > 0 { document := document + ","; }
      GetWritable(es, Index(index));
      WriteValue(Get(es, Index(index)));
    }

    method WriteObject(v: Value)
      requires Writable(v) && v.Obj?
      modifies this`document
      ensures document == old(document) + FastText(f, yaml, v)
      decreases Size(v), 0
    {
      var es := v.entries;
      document := document + "{";
      ghost var d := document;
      for i := 0 to |es|
        invariant document == d + FastMembers(f, yaml, es, i)
      {
        WriteMember(es, i);
        Grow(d, FastMembers(f, yaml, es, i), Comma(i), Member(f, yaml, es, i));
      }
      document := document + "}";
      Grow(old(document), "{", FastMembers(f, yaml, es, |es|), "}");
    }

    method WriteMember(es: seq<Entry>, i: nat)
      requires AllWritable(es) && SortedKeys(es, true) && i < |es|
      modifies this`document
      ensures document == old(document) + Comma(i) + Member(f, yaml, es, i)
      decreases Sizes(es), 2
    {
      EntryAt(es, i);
      if i > 0 { document := document + ","; }
      ghost var d := document;
      var name := ValueToQuotedString(es[i].key.s);
      var colon := if yaml then ": " else ":";
      document := document + name;
      document := document + colon;
      GetFinds(es, true, i);
      WriteValue(Get(es, Name(es[i].key.s)));
      Grow(d, name, colon, FastText(f, yaml, es[i].value));
    }
  }

  /** The text of a value that is not a container. */
  method ScalarText(f: Format, v: Value) returns (r: string)
    requires Writable(v) && !v.Arr? && !v.Obj?
    ensures r == Scalar(f, v)
  {
    match v
    case Null => r := "null";
    case Int(i) => r := IntText(i);
    case UInt(u) => r := UIntText(u);
    case Real(d) => r := f(d);
    case Str(s) => r := ValueToQuotedString(s.value);
    case Bool(b) => r := if b then "true" else "false";
  }

  lemma Grow(d: string, a: string, b: string, c: string)
    ensures d + a + b + c == d + (a + b + c)
  {
  }
}
