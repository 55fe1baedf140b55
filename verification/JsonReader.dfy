/**
 What the written documents mean: a reader by RFC 8259, and the proof that it reads back from either
 document exactly the value that was written.  It splits the text into lexemes, so whitespace may stand
 around them but not inside, and parses those.  The text of a number is kept as it stands.
 */
module JsonReader {
  import opened Basics
  import opened JsonValue
  import opened JsonText
  import opened JsonLexer
  import opened JsonWriters
  import opened JsonStyled

  datatype Json =
    | JNull
    | JBool(b: bool)
    | JNumber(text: string)
    | JString(s: string)
    | JArray(items: seq<Json>)
    | JObject(members: seq<JMember>)

  datatype JMember = JMember(name: string, value: Json)

  datatype Parsed<+T> = Parsed(value: T, rest: seq<Lexeme>)

  // ---------- numbers, by section 6 of RFC 8259 ----------

  /** The number of digits at the start. */
  function DigitRun(s: string): (n: nat)
    ensures n <= |s| && (forall i :: 0 <= i < n ==> IsDigit(s[i])) && (n < |s| ==> !IsDigit(s[n]))
  {
    if s == "" || !IsDigit(s[0]) then 0 else 1 + DigitRun(s[1..])
  }

  predicate IsDigits(s: string) { |s| > 0 && forall i :: 0 <= i < |s| ==> IsDigit(s[i]) }

  function Unsign(t: string): string { if t != "" && (t[0] == '+' || t[0] == '-') then t[1..] else t }

  predicate IsExponent(t: string) { t == "" || ((t[0] == 'e' || t[0] == 'E') && IsDigits(Unsign(t[1..]))) }

  predicate IsFraction(t: string) {
    if t == "" || t[0] != '.' then IsExponent(t)
    else var n := DigitRun(t[1..]); n > 0 && IsExponent(t[1 + n..])
  }

  predicate IsUnsigned(t: string) {
    var n := DigitRun(t); n > 0 && (t[0] == '0' ==> n == 1) && IsFraction(t[n..])
  }

  predicate IsNumber(s: string) { IsUnsigned(if s != "" && s[0] == '-' then s[1..] else s) }

  /** Integers are numbers. */
  lemma IntegerIsNumber(i: int)
    ensures IsNumber(DecimalInt(i))
  {
    if i < 0 {
      DecimalIsUnsigned(-i);
      assert DecimalInt(i)[1..] == Decimal(-i);
    } else {
      DecimalIsUnsigned(i);
    }
  }

  lemma DecimalIsUnsigned(n: nat)
    ensures IsUnsigned(Decimal(n)) && IsDigit(Decimal(n)[0])
  {
    DecimalRoundTrip(n);
    var d := Decimal(n);
    assert DigitRun(d) == |d| && d[|d|..] == "";
  }

  predicate AllWordChars(s: string) { forall i :: 0 <= i < |s| ==> WordChar(s[i]) }

  /** Characters up to `k` and characters from `k` on. */
  lemma SplitWord(s: string, k: nat)
    requires k <= |s| && AllWordChars(s[..k]) && AllWordChars(s[k..])
    ensures AllWordChars(s)
  {
    forall i | 0 <= i < |s| ensures WordChar(s[i]) {
      if i < k { assert s[i] == s[..k][i]; } else { assert s[i] == s[k..][i - k]; }
    }
  }

  lemma DigitsAreWord(s: string, n: nat)
    requires n <= DigitRun(s)
    ensures AllWordChars(s[..n])
  {
  }

  lemma FractionIsWord(t: string)
    requires IsFraction(t)
    ensures AllWordChars(t)
  {
    if t != "" && t[0] == '.' {
      var n, u := DigitRun(t[1..]), t[1..];
      DigitsAreWord(u, n);
      assert u[n..] == t[1 + n..];
      ExponentIsWord(u[n..]);
      SplitWord(u, n);
      SplitWord(t, 1);
    } else {
      ExponentIsWord(t);
    }
  }

  lemma SignedIsWord(t: string)
    requires IsDigits(Unsign(t))
    ensures AllWordChars(t)
  {
    if t[0] == '+' || t[0] == '-' { SplitWord(t, 1); }
  }

  lemma ExponentIsWord(t: string)
    requires IsExponent(t)
    ensures AllWordChars(t)
  {
    if t != "" {
      SignedIsWord(t[1..]);
      SplitWord(t, 1);
    }
  }

  lemma UnsignedIsWord(t: string)
    requires IsUnsigned(t)
    ensures IsWord(t)
  {
    var n := DigitRun(t);
    DigitsAreWord(t, n);
    FractionIsWord(t[n..]);
    SplitWord(t, n);
  }

  /** A number is one word. */
  lemma NumberIsWord(s: string)
    requires IsNumber(s)
    ensures IsWord(s)
  {
    if s != "" && s[0] == '-' {
      UnsignedIsWord(s[1..]);
      assert s[..1] == "-" && AllWordChars("-");
      SplitWord(s, 1);
    } else {
      UnsignedIsWord(s);
    }
  }

  // ---------- the reader ----------

  function ParseWord(w: string): Option<Json> {
    if w == "null" then Some(JNull)
    else if w == "true" then Some(JBool(true))
    else if w == "false" then Some(JBool(false))
    else if IsNumber(w) then Some(JNumber(w))
    else None
  }

  function Parse(ls: seq<Lexeme>): (r: Option<Parsed<Json>>)
    ensures r.Some? ==> |r.value.rest| < |ls| && ls[0] != Punct(']') && ls[0] != Punct('}')
    decreases |ls|, 1
  {
    if ls == [] then None
    else match ls[0]
      case Word(w) => var v := ParseWord(w); if v == None then None else Some(Parsed(v.value, ls[1..]))
      case Literal(raw) => var s := Decode(raw); if s == None then None else Some(Parsed(JString(s.value), ls[1..]))
      case Punct(c) =>
        if c == '[' then
          if |ls| > 1 && ls[1] == Punct(']') then Some(Parsed(JArray([]), ls[2..]))
          else var r := ParseItems(ls[1..]); if r == None then None else Some(Parsed(JArray(r.value.value), r.value.rest))
        else if c == '{' then
          if |ls| > 1 && ls[1] == Punct('}') then Some(Parsed(JObject([]), ls[2..]))
          else var r := ParseMembers(ls[1..]); if r == None then None else Some(Parsed(JObject(r.value.value), r.value.rest))
        else None
  }

  /** Elements separated by commas, up to the closing bracket. */
  function ParseItems(ls: seq<Lexeme>): (r: Option<Parsed<seq<Json>>>)
    ensures r.Some? ==> |r.value.rest| < |ls|
    decreases |ls|, 2
  {
    var v := Parse(ls);
    if v == None || v.value.rest == [] then None
    else if v.value.rest[0] == Punct(']') then Some(Parsed([v.value.value], v.value.rest[1..]))
    else if v.value.rest[0] != Punct(',') then None
    else
      var more := ParseItems(v.value.rest[1..]);
      if more == None then None else Some(Parsed([v.value.value] + more.value.value, more.value.rest))
  }

  function ParseMember(ls: seq<Lexeme>): (r: Option<Parsed<JMember>>)
    ensures r.Some? ==> |r.value.rest| < |ls| && ls[0].Literal?
    decreases |ls|, 2
  {
    if |ls| < 2 || !ls[0].Literal? || ls[1] != Punct(':') then None
    else
      var name, v := Decode(ls[0].raw), Parse(ls[2..]);
      if name == None || v == None then None else Some(Parsed(JMember(name.value, v.value.value), v.value.rest))
  }

  /** Members separated by commas, up to the closing brace. */
  function ParseMembers(ls: seq<Lexeme>): (r: Option<Parsed<seq<JMember>>>)
    ensures r.Some? ==> |r.value.rest| < |ls|
    decreases |ls|, 3
  {
    var v := ParseMember(ls);
    if v == None || v.value.rest == [] then None
    else if v.value.rest[0] == Punct('}') then Some(Parsed([v.value.value], v.value.rest[1..]))
    else if v.value.rest[0] != Punct(',') then None
    else
      var more := ParseMembers(v.value.rest[1..]);
      if more == None then None else Some(Parsed([v.value.value] + more.value.value, more.value.rest))
  }

  /** A whole document: one value, with whitespace around its lexemes. */
  function Read(text: string): Option<Json> {
    var ls := Lexemes(text);
    if ls == None then None
    else
      var r := Parse(ls.value);
      if r.Some? && r.value.rest == [] then Some(r.value.value) else None
  }

  // ---------- what a value stands for ----------

  /** Every real inside prints as a number. */
  ghost predicate AllNumeric(f: Format, v: Value)
    decreases Size(v), 1
  {
    if v.Real? then IsNumber(f(v.d)) else (v.Arr? || v.Obj?) ==> EntriesNumeric(f, v.entries)
  }

  ghost predicate EntriesNumeric(f: Format, es: seq<Entry>)
    decreases Sizes(es), 0
  {
    es == [] || (AllNumeric(f, es[0].value) && EntriesNumeric(f, es[1..]))
  }

  lemma {:induction false} GetNumeric(f: Format, es: seq<Entry>, k: Key)
    requires EntriesNumeric(f, es)
    ensures AllNumeric(f, Get(es, k))
    decreases |es|
  {
    if es != [] { GetNumeric(f, es[1..], k); }
  }

  lemma {:induction false} EntryNumeric(f: Format, es: seq<Entry>, i: nat)
    requires EntriesNumeric(f, es) && i < |es|
    ensures AllNumeric(f, es[i].value)
    decreases |es|
  {
    if i > 0 {
      var tail := es[1..];
      assert EntriesNumeric(f, tail) && tail[i - 1] == es[i];
      EntryNumeric(f, tail, i - 1);
    }
  }

  /** How many elements of an array are meant: all of them, or those a signed loop bound reaches. */
  function Reach(es: seq<Entry>, signed: bool): (n: nat)
    ensures n <= ArraySize(es)
  {
    if signed then Count(es) else ArraySize(es)
  }

  /** The JSON value a stored value stands for; absent array elements are null. */
  function Meaning(f: Format, signed: bool, v: Value): Json
    requires Writable(v)
    decreases Size(v), 0
  {
    match v
    case Null => JNull
    case Int(i) => JNumber(DecimalInt(i))
    case UInt(u) => JNumber(Decimal(u))
    case Real(d) => JNumber(f(d))
    case Str(s) => JString(s.value)
    case Bool(b) => JBool(b)
    case Arr(es) => JArray(ItemMeanings(f, signed, es, 0, Reach(es, signed)))
    case Obj(es) => JObject(MemberMeanings(f, signed, es, 0))
  }

  function ItemMeaning(f: Format, signed: bool, es: seq<Entry>, i: nat): Json
    requires AllWritable(es) && i < ArraySize(es)
    decreases Sizes(es), 1
  {
    GetWritable(es, Index(i));
    Meaning(f, signed, Get(es, Index(i)))
  }

  function ItemMeanings(f: Format, signed: bool, es: seq<Entry>, k: nat, n: nat): (r: seq<Json>)
    requires AllWritable(es) && k <= n <= ArraySize(es)
    decreases Sizes(es), 2 + n - k
  {
    if k == n then [] else [ItemMeaning(f, signed, es, k)] + ItemMeanings(f, signed, es, k + 1, n)
  }

  function MemberMeaning(f: Format, signed: bool, es: seq<Entry>, i: nat): JMember
    requires AllWritable(es) && AllNamed(es) && i < |es|
    decreases Sizes(es), 1
  {
    EntryAt(es, i);
    JMember(es[i].key.s, Meaning(f, signed, es[i].value))
  }

  function MemberMeanings(f: Format, signed: bool, es: seq<Entry>, k: nat): (r: seq<JMember>)
    requires AllWritable(es) && AllNamed(es) && k <= |es|
    decreases Sizes(es), 2 + |es| - k
  {
    if k == |es| then [] else [MemberMeaning(f, signed, es, k)] + MemberMeanings(f, signed, es, k + 1)
  }

  // ---------- the lexemes of a value ----------

  function CommaOf(n: nat): seq<Lexeme> { if n == 0 then [] else [Punct(',')] }

  /** What both writers write, lexeme by lexeme. */
  function LexemesOf(f: Format, v: Value): seq<Lexeme>
    requires Writable(v)
    decreases Size(v), 0
  {
    match v
    case Arr(es) => [Punct('[')] + ItemLexemes(f, es, Count(es)) + [Punct(']')]
    case Obj(es) => [Punct('{')] + MemberLexemes(f, es, |es|) + [Punct('}')]
    case Str(_) => [Literal(Scalar(f, v))]
    case _ => [Word(Scalar(f, v))]
  }

  function ItemLexeme(f: Format, es: seq<Entry>, i: nat): seq<Lexeme>
    requires AllWritable(es) && i < ArraySize(es)
    decreases Sizes(es), 1
  {
    GetWritable(es, Index(i));
    LexemesOf(f, Get(es, Index(i)))
  }

  function ItemLexemes(f: Format, es: seq<Entry>, n: nat): seq<Lexeme>
    requires AllWritable(es) && n <= ArraySize(es)
    decreases Sizes(es), n + 1
  {
    if n == 0 then [] else ItemLexemes(f, es, n - 1) + CommaOf(n - 1) + ItemLexeme(f, es, n - 1)
  }

  function MemberLexeme(f: Format, es: seq<Entry>, i: nat): seq<Lexeme>
    requires AllWritable(es) && i < |es| && es[i].key.Name?
    decreases Sizes(es), 1
  {
    EntryAt(es, i);
    [Literal(Quoted(es[i].key.s)), Punct(':')] + LexemesOf(f, es[i].value)
  }

  function MemberLexemes(f: Format, es: seq<Entry>, n: nat): seq<Lexeme>
    requires AllWritable(es) && n <= |es| && AllNamed(es)
    decreases Sizes(es), n + 1
  {
    if n == 0 then [] else MemberLexemes(f, es, n - 1) + CommaOf(n - 1) + MemberLexeme(f, es, n - 1)
  }

  lemma Flat<T>(a: seq<T>, b: seq<T>, c: seq<T>, d: seq<T>)
    ensures a + (b + c + d) == a + b + c + d
  {
  }

  lemma Right<T>(a: seq<T>, b: seq<T>, c: seq<T>)
    ensures a + b + c == a + (b + c)
  {
  }

  lemma Nested4<T>(a: seq<T>, b: seq<T>, c: seq<T>, d: seq<T>)
    ensures a + b + c + d == a + (b + (c + d)) && a + (b + c) + d == a + (b + (c + d))
  {
  }

  /** The text of a list after `n` elements: a comma may follow the last one, an element the opening bracket. */
  predicate Partway(n: nat, text: string, ls: seq<Lexeme>) { if n == 0 then Ready(text, ls) else Reads(text, ls) }

  lemma PartwayReads(n: nat, text: string, ls: seq<Lexeme>)
    requires Partway(n, text, ls)
    ensures Reads(text, ls)
  {
  }

  lemma ArrayLexemes(f: Format, v: Value)
    requires Writable(v) && Fits(v) && v.Arr?
    ensures LexemesOf(f, v) == [Punct('[')] + ItemLexemes(f, v.entries, ArraySize(v.entries)) + [Punct(']')]
  {
    assert Count(v.entries) == ArraySize(v.entries);
  }

  // ---------- the fast document reads as these lexemes ----------

  lemma ScalarIsWord(f: Format, v: Value)
    requires Writable(v) && AllNumeric(f, v) && !v.Arr? && !v.Obj? && !v.Str?
    ensures IsWord(Scalar(f, v))
  {
    match v
    case Int(i) => IntegerIsNumber(i); NumberIsWord(DecimalInt(i));
    case UInt(u) => IntegerIsNumber(u); NumberIsWord(Decimal(u));
    case Real(d) => NumberIsWord(f(d));
    case _ =>
  }

  lemma ScalarLexes(f: Format, doc: string, ls: seq<Lexeme>, v: Value)
    requires Ready(doc, ls) && Writable(v) && AllNumeric(f, v) && !v.Arr? && !v.Obj?
    ensures Reads(doc + Scalar(f, v), ls + LexemesOf(f, v))
  {
    if v.Str? {
      AddString(doc, ls, v.s.value);
    } else {
      ScalarIsWord(f, v);
      AddWord(doc, ls, Scalar(f, v));
    }
  }

  lemma AddComma(doc: string, ls: seq<Lexeme>, n: nat)
    requires Partway(n, doc, ls)
    ensures Ready(doc + Comma(n), ls + CommaOf(n))
  {
    if n == 0 {
      assert doc + "" == doc && ls + [] == ls;
    } else {
      AddPunct(doc, ls, ',');
    }
  }

  lemma {:induction false} FastLexes(f: Format, yaml: bool, doc: string, ls: seq<Lexeme>, v: Value)
    requires Ready(doc, ls) && Writable(v) && AllNumeric(f, v)
    ensures Reads(doc + FastText(f, yaml, v), ls + LexemesOf(f, v))
    decreases Size(v), 0
  {
    match v
    case Arr(es) =>
      var n := Count(es);
      AddPunct(doc, ls, '[');
      FastItemsLex(f, yaml, doc + "[", ls + [Punct('[')], es, n);
      PartwayReads(n, doc + "[" + FastItems(f, yaml, es, n), ls + [Punct('[')] + ItemLexemes(f, es, n));
      Closed(doc, "[", FastItems(f, yaml, es, n), ls, '[', ItemLexemes(f, es, n), ']');
    case Obj(es) =>
      AddPunct(doc, ls, '{');
      FastMembersLex(f, yaml, doc + "{", ls + [Punct('{')], es, |es|);
      PartwayReads(|es|, doc + "{" + FastMembers(f, yaml, es, |es|), ls + [Punct('{')] + MemberLexemes(f, es, |es|));
      Closed(doc, "{", FastMembers(f, yaml, es, |es|), ls, '{', MemberLexemes(f, es, |es|), '}');
    case _ => ScalarLexes(f, doc, ls, v);
  }

  /** The closing bracket after a text that reads as the elements. */
  lemma Closed(doc: string, open: string, text: string, ls: seq<Lexeme>, c: char, items: seq<Lexeme>, close: char)
    requires Reads(doc + open + text, ls + [Punct(c)] + items) && IsPunct(close)
    ensures Reads(doc + (open + text + [close]), ls + ([Punct(c)] + items + [Punct(close)]))
  {
    AddPunct(doc + open + text, ls + [Punct(c)] + items, close);
    Flat(doc, open, text, [close]);
    Flat(ls, [Punct(c)], items, [Punct(close)]);
  }

  lemma {:induction false} FastItemsLex(f: Format, yaml: bool, doc: string, ls: seq<Lexeme>, es: seq<Entry>, n: nat)
    requires Ready(doc, ls) && AllWritable(es) && EntriesNumeric(f, es) && n <= ArraySize(es)
    ensures Partway(n, doc + FastItems(f, yaml, es, n), ls + ItemLexemes(f, es, n))
    decreases Sizes(es), n + 1
  {
    if n == 0 {
      assert doc + "" == doc && ls + [] == ls;
    } else {
      var d, l := doc + FastItems(f, yaml, es, n - 1), ls + ItemLexemes(f, es, n - 1);
      FastItemsLex(f, yaml, doc, ls, es, n - 1);
      AddComma(d, l, n - 1);
      GetWritable(es, Index(n - 1));
      GetNumeric(f, es, Index(n - 1));
      FastLexes(f, yaml, d + Comma(n - 1), l + CommaOf(n - 1), Get(es, Index(n - 1)));
      Flat(doc, FastItems(f, yaml, es, n - 1), Comma(n - 1), Item(f, yaml, es, n - 1));
      Flat(ls, ItemLexemes(f, es, n - 1), CommaOf(n - 1), ItemLexeme(f, es, n - 1));
    }
  }

  lemma FastMembersGrow(f: Format, yaml: bool, doc: string, es: seq<Entry>, n: nat)
    requires AllWritable(es) && AllNamed(es) && 0 < n <= |es|
    ensures doc + FastMembers(f, yaml, es, n) == doc + FastMembers(f, yaml, es, n - 1) + Comma(n - 1) + Member(f, yaml, es, n - 1)
  {
    Flat(doc, FastMembers(f, yaml, es, n - 1), Comma(n - 1), Member(f, yaml, es, n - 1));
  }

  lemma MemberLexemesGrow(f: Format, ls: seq<Lexeme>, es: seq<Entry>, n: nat)
    requires AllWritable(es) && AllNamed(es) && 0 < n <= |es|
    ensures ls + MemberLexemes(f, es, n) == ls + MemberLexemes(f, es, n - 1) + CommaOf(n - 1) + MemberLexeme(f, es, n - 1)
  {
    Flat(ls, MemberLexemes(f, es, n - 1), CommaOf(n - 1), MemberLexeme(f, es, n - 1));
  }

  lemma {:induction false} FastMembersLex(f: Format, yaml: bool, doc: string, ls: seq<Lexeme>, es: seq<Entry>, n: nat)
    requires Ready(doc, ls) && AllWritable(es) && EntriesNumeric(f, es) && n <= |es| && AllNamed(es)
    ensures Partway(n, doc + FastMembers(f, yaml, es, n), ls + MemberLexemes(f, es, n))
    decreases Sizes(es), n + 1
  {
    if n == 0 {
      NoFastMembers(f, yaml, doc, ls, es);
    } else {
      FastMembersLex(f, yaml, doc, ls, es, n - 1);
      NextMemberLexes(f, yaml, doc + FastMembers(f, yaml, es, n - 1), ls + MemberLexemes(f, es, n - 1), es, n - 1);
      OneMoreFastMember(f, yaml, doc, ls, es, n);
    }
  }

  lemma NoFastMembers(f: Format, yaml: bool, doc: string, ls: seq<Lexeme>, es: seq<Entry>)
    requires Ready(doc, ls) && AllWritable(es) && AllNamed(es)
    ensures Partway(0, doc + FastMembers(f, yaml, es, 0), ls + MemberLexemes(f, es, 0))
  {
    assert doc + "" == doc && ls + [] == ls;
  }

  lemma OneMoreFastMember(f: Format, yaml: bool, doc: string, ls: seq<Lexeme>, es: seq<Entry>, n: nat)
    requires AllWritable(es) && AllNamed(es) && 0 < n <= |es|
    requires Reads(doc + FastMembers(f, yaml, es, n - 1) + Comma(n - 1) + Member(f, yaml, es, n - 1),
                   ls + MemberLexemes(f, es, n - 1) + CommaOf(n - 1) + MemberLexeme(f, es, n - 1))
    ensures Partway(n, doc + FastMembers(f, yaml, es, n), ls + MemberLexemes(f, es, n))
  {
    FastMembersGrow(f, yaml, doc, es, n);
    MemberLexemesGrow(f, ls, es, n);
  }

  /** A member after `i` others. */
  lemma {:induction false} NextMemberLexes(f: Format, yaml: bool, doc: string, ls: seq<Lexeme>, es: seq<Entry>, i: nat)
    requires Partway(i, doc, ls) && AllWritable(es) && EntriesNumeric(f, es) && i < |es| && AllNamed(es)
    ensures Reads(doc + Comma(i) + Member(f, yaml, es, i), ls + CommaOf(i) + MemberLexeme(f, es, i))
    decreases Sizes(es), 1
  {
    AddComma(doc, ls, i);
    FastMemberLexes(f, yaml, doc + Comma(i), ls + CommaOf(i), es, i);
  }

  lemma {:induction false} NextStyledMemberLexes(f: Format, doc: string, ls: seq<Lexeme>, ind: string, es: seq<Entry>, i: nat)
    requires Partway(i, doc, ls) && Good(es) && EntriesNumeric(f, es) && Blank(ind) && i < |es| && AllNamed(es)
    ensures Reads(StyledMember(f, doc + Comma(i), ind, es, i), ls + CommaOf(i) + MemberLexeme(f, es, i))
    decreases Sizes(es), 1
  {
    AddComma(doc, ls, i);
    StyledMemberLexes(f, doc + Comma(i), ls + CommaOf(i), ind, es, i);
  }

  /** A name, a colon and blanks around the colon. */
  lemma AddName(doc: string, ls: seq<Lexeme>, name: string, before: string, after: string)
    requires Ready(doc, ls) && Blank(before) && Blank(after)
    ensures Ready(doc + Quoted(name) + before + ":" + after, ls + [Literal(Quoted(name)), Punct(':')])
  {
    var d := doc + Quoted(name);
    AddString(doc, ls, name);
    AddBlank(d, ls + [Literal(Quoted(name))], before);
    AddPunct(d + before, ls + [Literal(Quoted(name))], ':');
    AddBlank(d + before + ":", ls + [Literal(Quoted(name))] + [Punct(':')], after);
    assert ls + [Literal(Quoted(name))] + [Punct(':')] == ls + [Literal(Quoted(name)), Punct(':')];
  }

  lemma {:induction false} FastMemberLexes(f: Format, yaml: bool, doc: string, ls: seq<Lexeme>, es: seq<Entry>, i: nat)
    requires Ready(doc, ls) && AllWritable(es) && EntriesNumeric(f, es) && i < |es| && es[i].key.Name?
    ensures Reads(doc + Member(f, yaml, es, i), ls + MemberLexeme(f, es, i))
    decreases Sizes(es), 0
  {
    EntryAt(es, i);
    EntryNumeric(f, es, i);
    var q, colon, text := Quoted(es[i].key.s), if yaml then ": " else ":", FastText(f, yaml, es[i].value);
    var head := [Literal(q), Punct(':')];
    AddName(doc, ls, es[i].key.s, "", if yaml then " " else "");
    assert doc + q + "" + ":" + (if yaml then " " else "") == doc + q + colon;
    FastLexes(f, yaml, doc + q + colon, ls + head, es[i].value);
    Flat(doc, q, colon, text);
    Right(ls, head, LexemesOf(f, es[i].value));
  }

  // ---------- the styled document reads as the same lexemes ----------

  lemma NewLineLexes(doc: string, ls: seq<Lexeme>, ind: string)
    requires Blank(ind)
    ensures Ready(doc, ls) ==> Ready(NewLine(doc, ind), ls)
    ensures Reads(doc, ls) ==> Reads(NewLine(doc, ind), ls)
  {
    AddBlank(doc, ls, ind);
    AddBlank(doc, ls, "\n" + ind);
    assert doc + ("\n" + ind) == doc + "\n" + ind;
    if doc == "" { assert doc + ind == ind; }
  }

  /** Whatever the document so far, writing a value in style adds the lexemes of the value. */
  lemma {:induction false} StyledLexes(f: Format, doc: string, ls: seq<Lexeme>, ind: string, v: Value)
    requires Ready(doc, ls) && Writable(v) && Fits(v) && AllNumeric(f, v) && Blank(ind)
    ensures Reads(Styled(f, doc, ind, v), ls + LexemesOf(f, v))
    decreases Size(v), 0
  {
    if !Nested(v) {
      FastLexes(f, false, doc, ls, v);
    } else if v.Obj? {
      StyledObjectLexes(f, doc, ls, ind, v);
    } else if Multiline(f, v.entries) {
      StyledArrayLexes(f, doc, ls, ind, v);
    } else {
      OneLineArrayLexes(f, doc, ls, v);
    }
  }

  /** The opening line of a container. */
  lemma OpensLex(doc: string, ls: seq<Lexeme>, ind: string, c: char)
    requires Ready(doc, ls) && Blank(ind) && IsPunct(c)
    ensures Ready(NewLine(doc, ind) + [c], ls + [Punct(c)]) && Blank(ind + INDENT_STEP)
  {
    NewLineLexes(doc, ls, ind);
    AddPunct(NewLine(doc, ind), ls, c);
  }

  /** The closing line of a container. */
  lemma ClosesLex(body: string, ls: seq<Lexeme>, ind: string, c: char, items: seq<Lexeme>, close: char)
    requires Reads(body, ls + [Punct(c)] + items) && Blank(ind) && IsPunct(close)
    ensures Reads(NewLine(body, ind) + [close], ls + ([Punct(c)] + items + [Punct(close)]))
  {
    NewLineLexes(body, ls + [Punct(c)] + items, ind);
    AddPunct(NewLine(body, ind), ls + [Punct(c)] + items, close);
    Flat(ls, [Punct(c)], items, [Punct(close)]);
  }

  lemma {:induction false} StyledObjectLexes(f: Format, doc: string, ls: seq<Lexeme>, ind: string, v: Value)
    requires Ready(doc, ls) && Writable(v) && Fits(v) && AllNumeric(f, v) && Blank(ind) && v.Obj? && Nested(v)
    ensures Reads(Styled(f, doc, ind, v), ls + LexemesOf(f, v))
    decreases Sizes(v.entries), |v.entries| + 2
  {
    var es := v.entries;
    var start, inner := NewLine(doc, ind) + "{", ind + INDENT_STEP;
    OpensLex(doc, ls, ind, '{');
    StyledMembersLex(f, start, ls + [Punct('{')], inner, es, |es|);
    ClosesLex(StyledMembers(f, start, inner, es, |es|), ls, ind, '{', MemberLexemes(f, es, |es|), '}');
  }

  lemma {:induction false} StyledArrayLexes(f: Format, doc: string, ls: seq<Lexeme>, ind: string, v: Value)
    requires Ready(doc, ls) && Writable(v) && Fits(v) && AllNumeric(f, v) && Blank(ind) && v.Arr? && Nested(v)
    requires Multiline(f, v.entries)
    ensures Reads(Styled(f, doc, ind, v), ls + LexemesOf(f, v))
    decreases Sizes(v.entries), ArraySize(v.entries) + 2
  {
    var es, n := v.entries, ArraySize(v.entries);
    var start, inner := NewLine(doc, ind) + "[", ind + INDENT_STEP;
    OpensLex(doc, ls, ind, '[');
    StyledItemsLex(f, start, ls + [Punct('[')], inner, es, n);
    ClosesLex(StyledItems(f, start, inner, es, n), ls, ind, '[', ItemLexemes(f, es, n), ']');
    ArrayLexemes(f, v);
  }

  lemma {:induction false} StyledMembersLex(f: Format, doc: string, ls: seq<Lexeme>, ind: string, es: seq<Entry>, n: nat)
    requires Ready(doc, ls) && Good(es) && EntriesNumeric(f, es) && Blank(ind) && n <= |es| && AllNamed(es)
    ensures Partway(n, StyledMembers(f, doc, ind, es, n), ls + MemberLexemes(f, es, n))
    decreases Sizes(es), n + 1
  {
    if n == 0 {
      NoMemberLexes(f, doc, ls, ind, es);
    } else {
      StyledMembersLex(f, doc, ls, ind, es, n - 1);
      NextStyledMemberLexes(f, StyledMembers(f, doc, ind, es, n - 1), ls + MemberLexemes(f, es, n - 1), ind, es, n - 1);
      OneMoreMember(f, doc, ls, ind, es, n);
    }
  }

  lemma OneMoreMember(f: Format, doc: string, ls: seq<Lexeme>, ind: string, es: seq<Entry>, n: nat)
    requires Good(es) && AllNamed(es) && 0 < n <= |es|
    requires Reads(StyledMember(f, StyledMembers(f, doc, ind, es, n - 1) + Comma(n - 1), ind, es, n - 1),
                   ls + MemberLexemes(f, es, n - 1) + CommaOf(n - 1) + MemberLexeme(f, es, n - 1))
    ensures Partway(n, StyledMembers(f, doc, ind, es, n), ls + MemberLexemes(f, es, n))
  {
    MemberLexemesGrow(f, ls, es, n);
  }

  lemma NoMemberLexes(f: Format, doc: string, ls: seq<Lexeme>, ind: string, es: seq<Entry>)
    requires Ready(doc, ls) && Good(es) && AllNamed(es)
    ensures Partway(0, StyledMembers(f, doc, ind, es, 0), ls + MemberLexemes(f, es, 0))
  {
    assert ls + [] == ls;
  }

  lemma {:induction false} StyledMemberLexes(f: Format, doc: string, ls: seq<Lexeme>, ind: string, es: seq<Entry>, i: nat)
    requires Ready(doc, ls) && Good(es) && EntriesNumeric(f, es) && Blank(ind) && i < |es| && es[i].key.Name?
    ensures Reads(StyledMember(f, doc, ind, es, i), ls + MemberLexeme(f, es, i))
    decreases Sizes(es), 0
  {
    EntryAt(es, i);
    EntryNumeric(f, es, i);
    var d, q := NewLine(doc, ind), Quoted(es[i].key.s);
    var head := [Literal(q), Punct(':')];
    NewLineLexes(doc, ls, ind);
    AddName(d, ls, es[i].key.s, " ", " ");
    assert d + q + " " + ":" + " " == d + q + " : ";
    StyledLexes(f, d + q + " : ", ls + head, ind, es[i].value);
    Right(ls, head, LexemesOf(f, es[i].value));
  }

  lemma {:induction false} StyledItemsLex(f: Format, doc: string, ls: seq<Lexeme>, ind: string, es: seq<Entry>, n: nat)
    requires Ready(doc, ls) && Good(es) && EntriesNumeric(f, es) && Blank(ind) && n <= ArraySize(es)
    ensures Partway(n, StyledItems(f, doc, ind, es, n), ls + ItemLexemes(f, es, n))
    decreases Sizes(es), n + 1
  {
    if n == 0 {
      assert ls + [] == ls;
    } else {
      var d, l := StyledItems(f, doc, ind, es, n - 1), ls + ItemLexemes(f, es, n - 1);
      StyledItemsLex(f, doc, ls, ind, es, n - 1);
      AddComma(d, l, n - 1);
      NewLineLexes(d + Comma(n - 1), l + CommaOf(n - 1), ind);
      GetWritable(es, Index(n - 1));
      GetNumeric(f, es, Index(n - 1));
      StyledLexes(f, NewLine(d + Comma(n - 1), ind), l + CommaOf(n - 1), ind, Get(es, Index(n - 1)));
      Flat(ls, ItemLexemes(f, es, n - 1), CommaOf(n - 1), ItemLexeme(f, es, n - 1));
    }
  }

  lemma OneLineArrayLexes(f: Format, doc: string, ls: seq<Lexeme>, v: Value)
    requires Ready(doc, ls) && Writable(v) && Fits(v) && AllNumeric(f, v) && v.Arr?
    ensures Reads(doc + "[ " + OneLine(f, v.entries, ArraySize(v.entries)) + " ]", ls + LexemesOf(f, v))
  {
    var es, n := v.entries, ArraySize(v.entries);
    var line, items := OneLine(f, es, n), ItemLexemes(f, es, n);
    AddPunct(doc, ls, '[');
    AddBlank(doc + "[", ls + [Punct('[')], " ");
    assert doc + "[" + " " == doc + "[ ";
    OneLineLexes(f, doc + "[ ", ls + [Punct('[')], es, n);
    AddBlank(doc + "[ " + line, ls + [Punct('[')] + items, " ");
    AddPunct(doc + "[ " + line + " ", ls + [Punct('[')] + items, ']');
    assert doc + "[ " + line + " " + "]" == doc + "[ " + line + " ]";
    Flat(ls, [Punct('[')], items, [Punct(']')]);
    ArrayLexemes(f, v);
  }

  lemma {:induction false} OneLineLexes(f: Format, doc: string, ls: seq<Lexeme>, es: seq<Entry>, n: nat)
    requires Ready(doc, ls) && Good(es) && EntriesNumeric(f, es) && n <= ArraySize(es)
    ensures Partway(n, doc + OneLine(f, es, n), ls + ItemLexemes(f, es, n))
    decreases n
  {
    if n == 0 {
      assert doc + "" == doc && ls + [] == ls;
    } else {
      var line, items, sep := OneLine(f, es, n - 1), ItemLexemes(f, es, n - 1), if n == 1 then "" else ", ";
      OneLineLexes(f, doc, ls, es, n - 1);
      AddSeparator(doc + line, ls + items, n - 1);
      GetWritable(es, Index(n - 1));
      GetNumeric(f, es, Index(n - 1));
      FastLexes(f, false, doc + line + sep, ls + items + CommaOf(n - 1), Get(es, Index(n - 1)));
      Flat(doc, line, sep, Item(f, false, es, n - 1));
      Flat(ls, items, CommaOf(n - 1), ItemLexeme(f, es, n - 1));
    }
  }

  /** The separator of the one-line layout. */
  lemma AddSeparator(doc: string, ls: seq<Lexeme>, n: nat)
    requires Partway(n, doc, ls)
    ensures Ready(doc + (if n == 0 then "" else ", "), ls + CommaOf(n))
  {
    AddComma(doc, ls, n);
    if n > 0 {
      AddBlank(doc + ",", ls + CommaOf(n), " ");
      assert doc + "," + " " == doc + ", ";
    }
  }

  // ---------- parsing the lexemes of a value ----------

  lemma EmptyParses(rest: seq<Lexeme>)
    ensures Parse([Punct('['), Punct(']')] + rest) == Some(Parsed(JArray([]), rest))
    ensures Parse([Punct('{'), Punct('}')] + rest) == Some(Parsed(JObject([]), rest))
  {
    assert ([Punct('['), Punct(']')] + rest)[2..] == rest && ([Punct('{'), Punct('}')] + rest)[2..] == rest;
  }

  lemma ArrayStep(body: seq<Lexeme>, items: seq<Json>, rest: seq<Lexeme>)
    requires ParseItems(body) == Some(Parsed(items, rest))
    ensures Parse([Punct('[')] + body) == Some(Parsed(JArray(items), rest))
  {
    assert Parse(body).Some?;
    assert ([Punct('[')] + body)[1..] == body;
  }

  lemma ObjectStep(body: seq<Lexeme>, members: seq<JMember>, rest: seq<Lexeme>)
    requires ParseMembers(body) == Some(Parsed(members, rest))
    ensures Parse([Punct('{')] + body) == Some(Parsed(JObject(members), rest))
  {
    assert ParseMember(body).Some?;
    assert ([Punct('{')] + body)[1..] == body;
  }

  lemma LastItem(item: seq<Lexeme>, v: Json, rest: seq<Lexeme>)
    requires Parse(item + ([Punct(']')] + rest)) == Some(Parsed(v, [Punct(']')] + rest))
    ensures ParseItems(item + ([Punct(']')] + rest)) == Some(Parsed([v], rest))
  {
    assert ([Punct(']')] + rest)[1..] == rest;
  }

  lemma NextItem(item: seq<Lexeme>, v: Json, more: seq<Lexeme>, vs: seq<Json>, rest: seq<Lexeme>)
    requires Parse(item + ([Punct(',')] + more)) == Some(Parsed(v, [Punct(',')] + more))
    requires ParseItems(more) == Some(Parsed(vs, rest))
    ensures ParseItems(item + ([Punct(',')] + more)) == Some(Parsed([v] + vs, rest))
  {
    assert ([Punct(',')] + more)[1..] == more;
  }

  lemma LastMember(item: seq<Lexeme>, v: JMember, rest: seq<Lexeme>)
    requires ParseMember(item + ([Punct('}')] + rest)) == Some(Parsed(v, [Punct('}')] + rest))
    ensures ParseMembers(item + ([Punct('}')] + rest)) == Some(Parsed([v], rest))
  {
    assert ([Punct('}')] + rest)[1..] == rest;
  }

  lemma NextMember(item: seq<Lexeme>, v: JMember, more: seq<Lexeme>, vs: seq<JMember>, rest: seq<Lexeme>)
    requires ParseMember(item + ([Punct(',')] + more)) == Some(Parsed(v, [Punct(',')] + more))
    requires ParseMembers(more) == Some(Parsed(vs, rest))
    ensures ParseMembers(item + ([Punct(',')] + more)) == Some(Parsed([v] + vs, rest))
  {
    assert ([Punct(',')] + more)[1..] == more;
  }

  lemma MemberStep(raw: string, name: string, body: seq<Lexeme>, v: Json, rest: seq<Lexeme>)
    requires Decode(raw) == Some(name) && Parse(body) == Some(Parsed(v, rest))
    ensures ParseMember([Literal(raw), Punct(':')] + body) == Some(Parsed(JMember(name, v), rest))
  {
    assert ([Literal(raw), Punct(':')] + body)[2..] == body;
  }

  /** The parser consumes exactly the lexemes of the value and returns its meaning. */
  lemma {:induction false} ValueParses(f: Format, v: Value, rest: seq<Lexeme>)
    requires Writable(v) && AllNumeric(f, v)
    ensures Parse(LexemesOf(f, v) + rest) == Some(Parsed(Meaning(f, true, v), rest))
    decreases Size(v), 0
  {
    match v
    case Arr(es) => ArrayParses(f, v, rest);
    case Obj(es) => ObjectParses(f, v, rest);
    case _ => ScalarParses(f, v, rest);
  }

  lemma ScalarParses(f: Format, v: Value, rest: seq<Lexeme>)
    requires Writable(v) && AllNumeric(f, v) && !v.Arr? && !v.Obj?
    ensures Parse(LexemesOf(f, v) + rest) == Some(Parsed(Meaning(f, true, v), rest))
  {
    assert (LexemesOf(f, v) + rest)[1..] == rest;
    if v.Str? { QuoteRoundTrip(v.s.value); } else { ScalarWordParses(f, v); }
  }

  lemma ScalarWordParses(f: Format, v: Value)
    requires Writable(v) && AllNumeric(f, v) && !v.Arr? && !v.Obj? && !v.Str?
    ensures ParseWord(Scalar(f, v)) == Some(Meaning(f, true, v))
  {
    match v
    case Int(i) => IntegerIsNumber(i); NumberParses(DecimalInt(i));
    case UInt(u) => IntegerIsNumber(u); NumberParses(Decimal(u));
    case Real(d) => NumberParses(f(d));
    case _ =>
  }

  lemma NumberParses(w: string)
    requires IsNumber(w)
    ensures ParseWord(w) == Some(JNumber(w))
  {
    assert !IsDigit('n') && !IsDigit('t') && !IsDigit('f');
  }

  lemma {:induction false} ArrayParses(f: Format, v: Value, rest: seq<Lexeme>)
    requires Writable(v) && AllNumeric(f, v) && v.Arr?
    ensures Parse(LexemesOf(f, v) + rest) == Some(Parsed(Meaning(f, true, v), rest))
    decreases Sizes(v.entries), Count(v.entries) + 3
  {
    var es, n := v.entries, Count(v.entries);
    EmptyParses(rest);
    if n > 0 {
      var body := ItemsFrom(f, es, 0, n);
      ItemsReassociate(f, es, 0, n);
      ItemsParse(f, es, 0, n, rest);
      Wrapped([Punct('[')], ItemLexemes(f, es, n), [Punct(']')], body, rest);
      ArrayStep(body + rest, ItemMeanings(f, true, es, 0, n), rest);
    } else {
      assert LexemesOf(f, v) == [Punct('['), Punct(']')];
    }
  }

  lemma Wrapped(open: seq<Lexeme>, items: seq<Lexeme>, close: seq<Lexeme>, body: seq<Lexeme>, rest: seq<Lexeme>)
    requires items + close == [] + [] + body
    ensures open + items + close + rest == open + (body + rest)
  {
    assert open + items + close == open + (items + close);
  }

  /** The elements from k on, up to and including the bracket. */
  function ItemsFrom(f: Format, es: seq<Entry>, k: nat, n: nat): seq<Lexeme>
    requires AllWritable(es) && k < n <= ArraySize(es)
    decreases n - k
  {
    ItemLexeme(f, es, k) + if k + 1 == n then [Punct(']')] else [Punct(',')] + ItemsFrom(f, es, k + 1, n)
  }

  lemma {:induction false} ItemsReassociate(f: Format, es: seq<Entry>, k: nat, n: nat)
    requires AllWritable(es) && k < n <= ArraySize(es)
    ensures ItemLexemes(f, es, n) + [Punct(']')] == ItemLexemes(f, es, k) + CommaOf(k) + ItemsFrom(f, es, k, n)
    decreases n - k
  {
    var before, item := ItemLexemes(f, es, k) + CommaOf(k), ItemLexeme(f, es, k);
    if k + 1 < n {
      ItemsReassociate(f, es, k + 1, n);
      Nested4(before, item, [Punct(',')], ItemsFrom(f, es, k + 1, n));
    } else {
      Right(before, item, [Punct(']')]);
    }
  }

  lemma {:induction false} ItemsParse(f: Format, es: seq<Entry>, k: nat, n: nat, rest: seq<Lexeme>)
    requires AllWritable(es) && EntriesNumeric(f, es) && k < n <= ArraySize(es)
    ensures ParseItems(ItemsFrom(f, es, k, n) + rest) == Some(Parsed(ItemMeanings(f, true, es, k, n), rest))
    decreases Sizes(es), 1 + n - k
  {
    var child := Get(es, Index(k));
    GetWritable(es, Index(k));
    GetNumeric(f, es, Index(k));
    if k + 1 < n {
      ValueParses(f, child, [Punct(',')] + (ItemsFrom(f, es, k + 1, n) + rest));
      ItemsParse(f, es, k + 1, n, rest);
      ItemsGoOn(f, es, k, n, rest);
    } else {
      ValueParses(f, child, [Punct(']')] + rest);
      ItemsEnd(f, es, k, n, rest);
    }
  }

  lemma ItemsGoOn(f: Format, es: seq<Entry>, k: nat, n: nat, rest: seq<Lexeme>)
    requires AllWritable(es) && k + 1 < n <= ArraySize(es)
    requires
      var tail := [Punct(',')] + (ItemsFrom(f, es, k + 1, n) + rest);
      Parse(ItemLexeme(f, es, k) + tail) == Some(Parsed(ItemMeaning(f, true, es, k), tail))
    requires ParseItems(ItemsFrom(f, es, k + 1, n) + rest) == Some(Parsed(ItemMeanings(f, true, es, k + 1, n), rest))
    ensures ParseItems(ItemsFrom(f, es, k, n) + rest) == Some(Parsed(ItemMeanings(f, true, es, k, n), rest))
  {
    var item, more := ItemLexeme(f, es, k), ItemsFrom(f, es, k + 1, n);
    Nested4(item, [Punct(',')], more, rest);
    NextItem(item, ItemMeaning(f, true, es, k), more + rest, ItemMeanings(f, true, es, k + 1, n), rest);
  }

  lemma ItemsEnd(f: Format, es: seq<Entry>, k: nat, n: nat, rest: seq<Lexeme>)
    requires AllWritable(es) && k + 1 == n <= ArraySize(es)
    requires Parse(ItemLexeme(f, es, k) + ([Punct(']')] + rest)) == Some(Parsed(ItemMeaning(f, true, es, k), [Punct(']')] + rest))
    ensures ParseItems(ItemsFrom(f, es, k, n) + rest) == Some(Parsed(ItemMeanings(f, true, es, k, n), rest))
  {
    var item, last := ItemLexeme(f, es, k), ItemMeaning(f, true, es, k);
    Right(item, [Punct(']')], rest);
    LastItem(item, last, rest);
    assert ItemMeanings(f, true, es, k, n) == [last] + [] == [last];
    assert ItemsFrom(f, es, k, n) + rest == item + ([Punct(']')] + rest);
  }

  lemma {:induction false} ObjectParses(f: Format, v: Value, rest: seq<Lexeme>)
    requires Writable(v) && AllNumeric(f, v) && v.Obj?
    ensures Parse(LexemesOf(f, v) + rest) == Some(Parsed(Meaning(f, true, v), rest))
    decreases Sizes(v.entries), |v.entries| + 3
  {
    var es, n := v.entries, |v.entries|;
    EmptyParses(rest);
    if n > 0 {
      var body := MembersFrom(f, es, 0);
      MembersReassociate(f, es, 0);
      MembersParse(f, es, 0, rest);
      Wrapped([Punct('{')], MemberLexemes(f, es, n), [Punct('}')], body, rest);
      ObjectStep(body + rest, MemberMeanings(f, true, es, 0), rest);
    } else {
      assert LexemesOf(f, v) == [Punct('{'), Punct('}')];
    }
  }

  /** The members from k on, up to and including the brace. */
  function MembersFrom(f: Format, es: seq<Entry>, k: nat): seq<Lexeme>
    requires AllWritable(es) && AllNamed(es) && k < |es|
    decreases |es| - k
  {
    MemberLexeme(f, es, k) + if k + 1 == |es| then [Punct('}')] else [Punct(',')] + MembersFrom(f, es, k + 1)
  }

  lemma {:induction false} MembersReassociate(f: Format, es: seq<Entry>, k: nat)
    requires AllWritable(es) && AllNamed(es) && k < |es|
    ensures MemberLexemes(f, es, |es|) + [Punct('}')] == MemberLexemes(f, es, k) + CommaOf(k) + MembersFrom(f, es, k)
    decreases |es| - k
  {
    var before, item := MemberLexemes(f, es, k) + CommaOf(k), MemberLexeme(f, es, k);
    if k + 1 < |es| {
      MembersReassociate(f, es, k + 1);
      Nested4(before, item, [Punct(',')], MembersFrom(f, es, k + 1));
    } else {
      Right(before, item, [Punct('}')]);
    }
  }

  lemma {:induction false} MemberParses(f: Format, es: seq<Entry>, k: nat, tail: seq<Lexeme>)
    requires AllWritable(es) && AllNamed(es) && EntriesNumeric(f, es) && k < |es|
    ensures ParseMember(MemberLexeme(f, es, k) + tail) == Some(Parsed(MemberMeaning(f, true, es, k), tail))
    decreases Sizes(es), 0
  {
    EntryAt(es, k);
    EntryNumeric(f, es, k);
    var q, body := Quoted(es[k].key.s), LexemesOf(f, es[k].value);
    QuoteRoundTrip(es[k].key.s);
    ValueParses(f, es[k].value, tail);
    MemberStep(q, es[k].key.s, body + tail, Meaning(f, true, es[k].value), tail);
    Right([Literal(q), Punct(':')], body, tail);
  }

  lemma {:induction false} MembersParse(f: Format, es: seq<Entry>, k: nat, rest: seq<Lexeme>)
    requires AllWritable(es) && AllNamed(es) && EntriesNumeric(f, es) && k < |es|
    ensures ParseMembers(MembersFrom(f, es, k) + rest) == Some(Parsed(MemberMeanings(f, true, es, k), rest))
    decreases Sizes(es), 1 + |es| - k
  {
    if k + 1 < |es| {
      MemberParses(f, es, k, [Punct(',')] + (MembersFrom(f, es, k + 1) + rest));
      MembersParse(f, es, k + 1, rest);
      MembersGoOn(f, es, k, rest);
    } else {
      MemberParses(f, es, k, [Punct('}')] + rest);
      MembersEnd(f, es, k, rest);
    }
  }

  lemma MembersGoOn(f: Format, es: seq<Entry>, k: nat, rest: seq<Lexeme>)
    requires AllWritable(es) && AllNamed(es) && k + 1 < |es|
    requires
      var tail := [Punct(',')] + (MembersFrom(f, es, k + 1) + rest);
      ParseMember(MemberLexeme(f, es, k) + tail) == Some(Parsed(MemberMeaning(f, true, es, k), tail))
    requires ParseMembers(MembersFrom(f, es, k + 1) + rest) == Some(Parsed(MemberMeanings(f, true, es, k + 1), rest))
    ensures ParseMembers(MembersFrom(f, es, k) + rest) == Some(Parsed(MemberMeanings(f, true, es, k), rest))
  {
    var item, more := MemberLexeme(f, es, k), MembersFrom(f, es, k + 1);
    Nested4(item, [Punct(',')], more, rest);
    NextMember(item, MemberMeaning(f, true, es, k), more + rest, MemberMeanings(f, true, es, k + 1), rest);
  }

  lemma MembersEnd(f: Format, es: seq<Entry>, k: nat, rest: seq<Lexeme>)
    requires AllWritable(es) && AllNamed(es) && k + 1 == |es|
    requires ParseMember(MemberLexeme(f, es, k) + ([Punct('}')] + rest)) == Some(Parsed(MemberMeaning(f, true, es, k), [Punct('}')] + rest))
    ensures ParseMembers(MembersFrom(f, es, k) + rest) == Some(Parsed(MemberMeanings(f, true, es, k), rest))
  {
    var item, last := MemberLexeme(f, es, k), MemberMeaning(f, true, es, k);
    Right(item, [Punct('}')], rest);
    LastMember(item, last, rest);
    assert MemberMeanings(f, true, es, k) == [last] + [] == [last];
    assert MembersFrom(f, es, k) + rest == item + ([Punct('}')] + rest);
  }

  // ---------- the round trip ----------

  /** What a signed loop bound reaches is everything exactly when every array's size fits. */
  lemma {:induction false} MeaningKeptIff(f: Format, v: Value)
    requires Writable(v)
    ensures Meaning(f, true, v) == Meaning(f, false, v) <==> Fits(v)
    decreases Size(v), 0
  {
    if v.Obj? {
      MembersKeptIff(f, v.entries, 0);
      AllFitFrom(v.entries, 0);
    } else if v.Arr? {
      var es := v.entries;
      ItemMeaningsLength(f, true, es, 0, Count(es));
      ItemMeaningsLength(f, false, es, 0, ArraySize(es));
      if ArraySize(es) <= MAX_INT {
        ItemsKeptIff(f, es, 0);
        ItemsFitIff(es);
      }
    }
  }

  lemma {:induction false} ItemMeaningsLength(f: Format, signed: bool, es: seq<Entry>, k: nat, n: nat)
    requires AllWritable(es) && k <= n <= ArraySize(es)
    ensures |ItemMeanings(f, signed, es, k, n)| == n - k
    decreases n - k
  {
    if k < n { ItemMeaningsLength(f, signed, es, k + 1, n); }
  }

  lemma {:induction false} ItemsKeptIff(f: Format, es: seq<Entry>, k: nat)
    requires AllWritable(es) && k <= ArraySize(es)
    ensures ItemMeanings(f, true, es, k, ArraySize(es)) == ItemMeanings(f, false, es, k, ArraySize(es)) <==> ItemsFit(es, k)
    decreases Sizes(es), 1 + ArraySize(es) - k
  {
    if k < ArraySize(es) {
      GetWritable(es, Index(k));
      MeaningKeptIff(f, Get(es, Index(k)));
      ItemsKeptIff(f, es, k + 1);
      SameCons(ItemMeaning(f, true, es, k), ItemMeanings(f, true, es, k + 1, ArraySize(es)),
               ItemMeaning(f, false, es, k), ItemMeanings(f, false, es, k + 1, ArraySize(es)));
    }
  }

  lemma SameCons<T>(a: T, s: seq<T>, b: T, t: seq<T>)
    ensures [a] + s == [b] + t <==> a == b && s == t
  {
    if [a] + s == [b] + t {
      assert a == ([a] + s)[0] == ([b] + t)[0] == b;
      assert s == ([a] + s)[1..] == ([b] + t)[1..] == t;
    }
  }

  lemma {:induction false} MembersKeptIff(f: Format, es: seq<Entry>, k: nat)
    requires AllWritable(es) && AllNamed(es) && k <= |es|
    ensures MemberMeanings(f, true, es, k) == MemberMeanings(f, false, es, k) <==> FitFrom(es, k)
    decreases Sizes(es), 1 + |es| - k
  {
    if k < |es| {
      EntryAt(es, k);
      MeaningKeptIff(f, es[k].value);
      MembersKeptIff(f, es, k + 1);
      SameCons(MemberMeaning(f, true, es, k), MemberMeanings(f, true, es, k + 1),
               MemberMeaning(f, false, es, k), MemberMeanings(f, false, es, k + 1));
    }
  }

  /** A text that reads as the lexemes of a value reads as what they mean. */
  lemma LexemesRead(f: Format, text: string, v: Value)
    requires Writable(v) && AllNumeric(f, v) && Reads(text, LexemesOf(f, v))
    ensures Read(text) == Some(Meaning(f, true, v))
  {
    ValueParses(f, v, []);
    assert LexemesOf(f, v) + [] == LexemesOf(f, v);
  }

  /** The two documents have the same lexemes: they differ in whitespace between lexemes only. */
  lemma SameLexemes(f: Format, yaml: bool, v: Value)
    requires Writable(v) && AllNumeric(f, v)
    ensures Reads(FastText(f, yaml, v) + "\n", LexemesOf(f, v))
    ensures Fits(v) ==> Reads(Styled(f, "", "", v) + "\n", LexemesOf(f, v))
  {
    var ls := LexemesOf(f, v);
    assert [] + ls == ls && "" + FastText(f, yaml, v) == FastText(f, yaml, v);
    FastLexes(f, yaml, "", [], v);
    AddBlank(FastText(f, yaml, v), ls, "\n");
    if Fits(v) {
      StyledLexes(f, "", [], "", v);
      AddBlank(Styled(f, "", "", v), ls, "\n");
    }
  }

  /** What FastWriter writes reads back as the value written, exactly when every array's size fits a signed integer. */
  lemma FastRoundTrip(f: Format, yaml: bool, v: Value)
    requires Writable(v) && AllNumeric(f, v)
    ensures Read(FastText(f, yaml, v) + "\n") == Some(Meaning(f, false, v)) <==> Fits(v)
  {
    SameLexemes(f, yaml, v);
    LexemesRead(f, FastText(f, yaml, v) + "\n", v);
    MeaningKeptIff(f, v);
  }

  /** StyledWriter completes a document, and it reads back as the value written, exactly when every array's size fits. */
  lemma StyledRoundTrip(f: Format, v: Value)
    requires Writable(v) && AllNumeric(f, v)
    ensures var d := StyledDocument(f, v); d.Some? && Read(d.value) == Some(Meaning(f, false, v)) <==> Fits(v)
  {
    SameLexemes(f, false, v);
    if Fits(v) { LexemesRead(f, Styled(f, "", "", v) + "\n", v); }
    MeaningKeptIff(f, v);
  }

  /** A gap of an array means null. */
  lemma GapIsNull(f: Format, signed: bool, es: seq<Entry>, i: nat)
    requires AllWritable(es) && i < ArraySize(es) && forall j :: 0 <= j < |es| ==> es[j].key != Index(i)
    ensures ItemMeaning(f, signed, es, i) == JNull && Item(f, false, es, i) == "null"
  {
    GetAbsent(es, Index(i));
  }

  /** The array stored at one index, 2^31 - 1. */
  function HugeArray(): Value { Arr([Entry(Index(MAX_INT), Bool(true))]) }

  /** FastWriter writes it as an empty array. */
  lemma HugeArrayLost(f: Format)
    ensures var v := HugeArray(); Writable(v) && FastText(f, false, v) == "[]" && Meaning(f, false, v) != JArray([])
  {
    var es := HugeArray().entries;
    assert AllWritable(es[1..]) && SortedKeys(es, false) && IndicesFit(es);
    assert Count(es) == 0;
    ItemMeaningsLength(f, false, es, 0, ArraySize(es));
  }

  /** StyledWriter takes it for a short line, collects no text, and stops at the assertion that counts the texts. */
  lemma HugeArrayStops(f: Format)
    ensures var v := HugeArray(); Writable(v) && ArraySize(v.entries) == 0x8000_0000 && StyledDocument(f, v) == None
    ensures AllWritable(HugeArray().entries) && !Multiline(f, HugeArray().entries) && Count(HugeArray().entries) == 0
  {
    var es := HugeArray().entries;
    assert AllWritable(es[1..]) && SortedKeys(es, false) && IndicesFit(es);
    HugeIsOneLine(f, es);
  }
}
