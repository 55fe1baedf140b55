/** The two writers agree: removing insignificant whitespace from either document gives the compact text. */
module JsonAgreement {
  import opened JsonValue
  import opened JsonText
  import opened JsonWriters
  import opened JsonStyled

  // ---------- pieces ----------

  /** Text appended to a document that reduces to `bare`. */
  lemma Append(doc: string, bare: string, text: string, text': string, bare': string)
    requires Reduces(doc, bare) && Reduces(text, text') && bare' == bare + text'
    ensures Reduces(doc + text, bare')
  {
    ReducesConcat(doc, bare, text, text');
  }

  lemma One(c: char)
    requires c != '\"'
    ensures Reduces([c], if IsSpace(c) then "" else [c])
  {
  }

  lemma Colons()
    ensures Reduces(": ", ":") && Reduces(":", ":") && Reduces(" : ", ":")
  {
  }

  lemma Brackets()
    ensures Reduces("[ ", "[") && Reduces(" ]", "]") && Reduces(", ", ",")
  {
  }

  lemma DecimalReduces(n: nat)
    ensures Reduces(Decimal(n), Decimal(n)) && Reduces("-" + Decimal(n), "-" + Decimal(n))
  {
    DecimalRoundTrip(n);
    TokenReduces(Decimal(n));
    One('-');
    ReducesConcat("-", "-", Decimal(n), Decimal(n));
  }

  lemma ScalarReduces(f: Format, v: Value)
    requires Writable(v) && !v.Arr? && !v.Obj?
    ensures Reduces(Scalar(f, v), Scalar(f, v))
  {
    match v
    case Null => TokenReduces("null");
    case Int(i) => DecimalReduces(if i < 0 then -i else i);
    case UInt(u) => DecimalReduces(u);
    case Real(d) => TokenReduces(f(d));
    case Str(s) => QuotedReduces(s.value);
    case Bool(b) => TokenReduces("true"); TokenReduces("false");
  }

  lemma CommaReduces(n: nat)
    ensures Reduces(Comma(n), Comma(n))
  {
  }

  lemma AppendComma(doc: string, bare: string, n: nat)
    requires Reduces(doc, bare)
    ensures Reduces(doc + Comma(n), bare + Comma(n))
  {
    CommaReduces(n);
    ReducesConcat(doc, bare, Comma(n), Comma(n));
  }

  lemma Separated(a: string, a': string, n: nat, b: string, b': string)
    requires Reduces(a, a') && Reduces(b, b')
    ensures Reduces(a + Comma(n) + b, a' + Comma(n) + b')
  {
    AppendComma(a, a', n);
    ReducesConcat(a + Comma(n), a' + Comma(n), b, b');
  }

  lemma Enclosed(open: string, a: string, a': string, close: string)
    requires Token(open) && Token(close) && Reduces(a, a')
    ensures Reduces(open + a + close, open + a' + close)
  {
    TokenReduces(open);
    TokenReduces(close);
    ReducesConcat(open, open, a, a');
    ReducesConcat(open + a, open + a', close, close);
  }

  // ---------- FastWriter ----------

  /** The compact text, with or without blanks after colons, reduces to the one without. */
  lemma {:induction false} FastReduces(f: Format, yaml: bool, v: Value)
    requires Writable(v)
    ensures Reduces(FastText(f, yaml, v), FastText(f, false, v))
    decreases Size(v), 0
  {
    match v
    case Arr(es) =>
      FastItemsReduce(f, yaml, es, Count(es));
      Enclosed("[", FastItems(f, yaml, es, Count(es)), FastItems(f, false, es, Count(es)), "]");
    case Obj(es) =>
      FastMembersReduce(f, yaml, es, |es|);
      Enclosed("{", FastMembers(f, yaml, es, |es|), FastMembers(f, false, es, |es|), "}");
    case _ => ScalarReduces(f, v);
  }

  lemma {:induction false} FastItemsReduce(f: Format, yaml: bool, es: seq<Entry>, n: nat)
    requires AllWritable(es) && n <= ArraySize(es)
    ensures Reduces(FastItems(f, yaml, es, n), FastItems(f, false, es, n))
    decreases Sizes(es), n + 1
  {
    if n > 0 {
      var a, b := FastItems(f, yaml, es, n - 1), FastItems(f, false, es, n - 1);
      FastItemsReduce(f, yaml, es, n - 1);
      GetWritable(es, Index(n - 1));
      FastReduces(f, yaml, Get(es, Index(n - 1)));
      Separated(a, b, n - 1, Item(f, yaml, es, n - 1), Item(f, false, es, n - 1));
    }
  }

  lemma {:induction false} FastMembersReduce(f: Format, yaml: bool, es: seq<Entry>, n: nat)
    requires AllWritable(es) && n <= |es| && AllNamed(es)
    ensures Reduces(FastMembers(f, yaml, es, n), FastMembers(f, false, es, n))
    decreases Sizes(es), n + 1
  {
    if n > 0 {
      var a, b := FastMembers(f, yaml, es, n - 1), FastMembers(f, false, es, n - 1);
      FastMembersReduce(f, yaml, es, n - 1);
      MemberReduces(f, yaml, es, n - 1);
      Separated(a, b, n - 1, Member(f, yaml, es, n - 1), Member(f, false, es, n - 1));
    }
  }

  lemma {:induction false} MemberReduces(f: Format, yaml: bool, es: seq<Entry>, i: nat)
    requires AllWritable(es) && i < |es| && es[i].key.Name?
    ensures Reduces(Member(f, yaml, es, i), Member(f, false, es, i))
    decreases Sizes(es), 1
  {
    EntryAt(es, i);
    var q, colon := Quoted(es[i].key.s), if yaml then ": " else ":";
    QuotedReduces(es[i].key.s);
    Colons();
    ReducesConcat(q, q, colon, ":");
    FastReduces(f, yaml, es[i].value);
    ReducesConcat(q + colon, q + ":", FastText(f, yaml, es[i].value), FastText(f, false, es[i].value));
  }

  // ---------- YAML compatibility ----------

  /** The text with one blank put after every colon outside its string literals. */
  function Spaced(st: Lex, s: string): string
    decreases |s|
  {
    if s == "" then ""
    else (if st == Outside && s[0] == ':' then ": " else [s[0]]) + Spaced(Scan(st, s[0]), s[1..])
  }

  lemma {:induction false} SpacedConcat(st: Lex, a: string, b: string)
    ensures Spaced(st, a + b) == Spaced(st, a) + Spaced(ScanAll(st, a), b)
    decreases |a|
  {
    if a == "" {
      assert a + b == b;
    } else {
      var st', head := Scan(st, a[0]), if st == Outside && a[0] == ':' then ": " else [a[0]];
      var x, y := Spaced(st', a[1..]), Spaced(ScanAll(st', a[1..]), b);
      SpacedConcat(st', a[1..], b);
      assert (a + b)[1..] == a[1..] + b && (a + b)[0] == a[0];
      assert Spaced(st, a + b) == head + Spaced(st', a[1..] + b);
      assert head + (x + y) == (head + x) + y;
    }
  }

  /** `wide` is `plain` with a blank after every colon outside string literals; both end outside of them. */
  predicate Widens(plain: string, wide: string) { Balanced(plain) && Spaced(Outside, plain) == wide }

  lemma WidensConcat(a: string, a': string, b: string, b': string)
    requires Widens(a, a') && Widens(b, b')
    ensures Widens(a + b, a' + b')
  {
    ScanConcat(Outside, a, b);
    SpacedConcat(Outside, a, b);
  }

  /** Text without quotes and colons stays as it is. */
  lemma {:induction false} PlainWidens(s: string)
    requires forall i :: 0 <= i < |s| ==> s[i] != '\"' && s[i] != ':'
    ensures Widens(s, s)
    decreases |s|
  {
    if s != "" { PlainWidens(s[1..]); }
  }

  /** Inside a literal nothing is added. */
  lemma {:induction false} SpacedInside(st: Lex, s: string)
    requires forall i :: 0 <= i < |s| ==> ScanAll(st, s[..i]) != Outside
    ensures Spaced(st, s) == s
    decreases |s|
  {
    if s != "" {
      assert s[..0] == "";
      forall i | 0 <= i < |s[1..]| ensures ScanAll(Scan(st, s[0]), s[1..][..i]) != Outside {
        assert s[..i + 1][1..] == s[1..][..i];
      }
      SpacedInside(Scan(st, s[0]), s[1..]);
    }
  }

  lemma QuotedWidens(x: string)
    ensures Widens(Quoted(x), Quoted(x))
  {
    var q := Quoted(x);
    QuotedClosesOnce(x, |q|);
    assert q[..|q|] == q && q[0] == '\"' && q == "\"" + q[1..];
    forall i | 0 <= i < |q[1..]| ensures ScanAll(Inside, q[1..][..i]) != Outside {
      QuotedClosesOnce(x, i + 1);
      assert q[..i + 1][1..] == q[1..][..i];
    }
    SpacedInside(Inside, q[1..]);
  }

  lemma DecimalWidens(n: nat)
    ensures Widens(Decimal(n), Decimal(n)) && Widens("-" + Decimal(n), "-" + Decimal(n))
  {
    DecimalRoundTrip(n);
    PlainWidens(Decimal(n));
    PlainWidens("-");
    WidensConcat("-", "-", Decimal(n), Decimal(n));
  }

  lemma ScalarWidens(f: Format, v: Value)
    requires Writable(v) && !v.Arr? && !v.Obj?
    ensures Widens(Scalar(f, v), Scalar(f, v))
  {
    match v
    case Null => PlainWidens("null");
    case Int(i) => DecimalWidens(if i < 0 then -i else i);
    case UInt(u) => DecimalWidens(u);
    case Real(d) => assert Plain(f(d)); PlainWidens(f(d));
    case Str(s) => QuotedWidens(s.value);
    case Bool(b) => PlainWidens("true"); PlainWidens("false");
  }

  lemma EnclosedWidens(open: string, a: string, a': string, close: string)
    requires Widens(open, open) && Widens(close, close) && Widens(a, a')
    ensures Widens(open + a + close, open + a' + close)
  {
    WidensConcat(open, open, a, a');
    WidensConcat(open + a, open + a', close, close);
  }

  /** The compact text for YAML is the plain one with one blank after every colon outside string literals, and no other change. */
  lemma {:induction false} YamlWidens(f: Format, v: Value)
    requires Writable(v)
    ensures Widens(FastText(f, false, v), FastText(f, true, v))
    decreases Size(v), 0
  {
    match v
    case Arr(es) =>
      PlainWidens("[");
      PlainWidens("]");
      ItemsWiden(f, es, Count(es));
      EnclosedWidens("[", FastItems(f, false, es, Count(es)), FastItems(f, true, es, Count(es)), "]");
    case Obj(es) =>
      PlainWidens("{");
      PlainWidens("}");
      MembersWiden(f, es, |es|);
      EnclosedWidens("{", FastMembers(f, false, es, |es|), FastMembers(f, true, es, |es|), "}");
    case _ => ScalarWidens(f, v);
  }

  lemma SeparatedWidens(a: string, a': string, n: nat, b: string, b': string)
    requires Widens(a, a') && Widens(b, b')
    ensures Widens(a + Comma(n) + b, a' + Comma(n) + b')
  {
    PlainWidens(Comma(n));
    WidensConcat(a, a', Comma(n), Comma(n));
    WidensConcat(a + Comma(n), a' + Comma(n), b, b');
  }

  lemma {:induction false} ItemsWiden(f: Format, es: seq<Entry>, n: nat)
    requires AllWritable(es) && n <= ArraySize(es)
    ensures Widens(FastItems(f, false, es, n), FastItems(f, true, es, n))
    decreases Sizes(es), n + 1
  {
    if n > 0 {
      ItemsWiden(f, es, n - 1);
      GetWritable(es, Index(n - 1));
      YamlWidens(f, Get(es, Index(n - 1)));
      SeparatedWidens(FastItems(f, false, es, n - 1), FastItems(f, true, es, n - 1), n - 1,
                      Item(f, false, es, n - 1), Item(f, true, es, n - 1));
    }
  }

  lemma {:induction false} MembersWiden(f: Format, es: seq<Entry>, n: nat)
    requires AllWritable(es) && n <= |es| && AllNamed(es)
    ensures Widens(FastMembers(f, false, es, n), FastMembers(f, true, es, n))
    decreases Sizes(es), n + 1
  {
    if n > 0 {
      MembersWiden(f, es, n - 1);
      MemberWidens(f, es, n - 1);
      SeparatedWidens(FastMembers(f, false, es, n - 1), FastMembers(f, true, es, n - 1), n - 1,
                      Member(f, false, es, n - 1), Member(f, true, es, n - 1));
    }
  }

  lemma {:induction false} MemberWidens(f: Format, es: seq<Entry>, i: nat)
    requires AllWritable(es) && i < |es| && es[i].key.Name?
    ensures Widens(Member(f, false, es, i), Member(f, true, es, i))
    decreases Sizes(es), 1
  {
    EntryAt(es, i);
    var q := Quoted(es[i].key.s);
    QuotedWidens(es[i].key.s);
    assert Widens(":", ": ") by { assert ":"[1..] == ""; }
    WidensConcat(q, q, ":", ": ");
    YamlWidens(f, es[i].value);
    WidensConcat(q + ":", q + ": ", FastText(f, false, es[i].value), FastText(f, true, es[i].value));
  }

  // ---------- StyledWriter ----------

  lemma NewLineReduces(doc: string, bare: string, ind: string)
    requires Reduces(doc, bare) && Blank(ind)
    ensures Reduces(NewLine(doc, ind), bare)
  {
    BlankReduces(ind);
    BlankReduces("\n");
    Append(doc, bare, "\n", "", bare);
    Append(doc + "\n", bare, ind, "", bare);
    Append(doc, bare, ind, "", bare);
    if doc == "" { assert doc + ind == ind; }
  }

  /** Whatever the document so far, writing a value adds its compact text and insignificant whitespace. */
  lemma {:induction false} StyledReduces(f: Format, doc: string, bare: string, ind: string, v: Value)
    requires Writable(v) && Fits(v) && Reduces(doc, bare) && Blank(ind)
    ensures Reduces(Styled(f, doc, ind, v), bare + FastText(f, false, v))
    decreases Size(v), 0
  {
    if !Nested(v) {
      FastReduces(f, false, v);
      Append(doc, bare, FastText(f, false, v), FastText(f, false, v), bare + FastText(f, false, v));
    } else if v.Obj? {
      StyledObjectReduces(f, doc, bare, ind, v);
    } else if Multiline(f, v.entries) {
      StyledArrayReduces(f, doc, bare, ind, v);
    } else {
      OneLineReduces(f, v.entries, ArraySize(v.entries));
      Brackets();
      var line, items := OneLine(f, v.entries, ArraySize(v.entries)), FastItems(f, false, v.entries, ArraySize(v.entries));
      Append(doc, bare, "[ ", "[", bare + "[");
      Append(doc + "[ ", bare + "[", line, items, bare + "[" + items);
      Append(doc + "[ " + line, bare + "[" + items, " ]", "]", bare + "[" + items + "]");
      Chain(bare, "[", items, "]");
    }
  }

  lemma Chain(bare: string, open: string, items: string, close: string)
    ensures bare + open + items + close == bare + (open + items + close)
  {
  }

  /** The opening line of a container. */
  lemma Opens(doc: string, bare: string, ind: string, open: string)
    requires Reduces(doc, bare) && Blank(ind) && Token(open)
    ensures Reduces(NewLine(doc, ind) + open, bare + open) && Blank(ind + INDENT_STEP)
  {
    NewLineReduces(doc, bare, ind);
    TokenReduces(open);
    Append(NewLine(doc, ind), bare, open, open, bare + open);
    BlankStep(ind);
  }

  /** The closing line of a container. */
  lemma Closes(body: string, bare: string, ind: string, open: string, items: string, close: string)
    requires Reduces(body, bare + open + items) && Blank(ind) && Token(close)
    ensures Reduces(NewLine(body, ind) + close, bare + (open + items + close))
  {
    NewLineReduces(body, bare + open + items, ind);
    TokenReduces(close);
    Append(NewLine(body, ind), bare + open + items, close, close, bare + open + items + close);
    Chain(bare, open, items, close);
  }

  lemma BlankStep(ind: string)
    requires Blank(ind)
    ensures Blank(ind + INDENT_STEP)
  {
  }

  lemma {:induction false} StyledObjectReduces(f: Format, doc: string, bare: string, ind: string, v: Value)
    requires Writable(v) && Fits(v) && v.Obj? && Nested(v) && Reduces(doc, bare) && Blank(ind)
    ensures Reduces(Styled(f, doc, ind, v), bare + FastText(f, false, v))
    decreases Sizes(v.entries), |v.entries| + 2
  {
    var es := v.entries;
    var start, inner := NewLine(doc, ind) + "{", ind + INDENT_STEP;
    Opens(doc, bare, ind, "{");
    StyledMembersReduce(f, start, bare + "{", inner, es, |es|);
    Closes(StyledMembers(f, start, inner, es, |es|), bare, ind, "{", FastMembers(f, false, es, |es|), "}");
  }

  lemma {:induction false} StyledArrayReduces(f: Format, doc: string, bare: string, ind: string, v: Value)
    requires Writable(v) && Fits(v) && v.Arr? && Nested(v) && Multiline(f, v.entries) && Reduces(doc, bare) && Blank(ind)
    ensures Reduces(Styled(f, doc, ind, v), bare + FastText(f, false, v))
    decreases Sizes(v.entries), ArraySize(v.entries) + 2
  {
    var es, n := v.entries, ArraySize(v.entries);
    var start, inner := NewLine(doc, ind) + "[", ind + INDENT_STEP;
    Opens(doc, bare, ind, "[");
    StyledItemsReduce(f, start, bare + "[", inner, es, n);
    Closes(StyledItems(f, start, inner, es, n), bare, ind, "[", FastItems(f, false, es, n), "]");
    assert FastText(f, false, v) == "[" + FastItems(f, false, es, n) + "]";
  }

  lemma {:induction false} StyledMembersReduce(f: Format, doc: string, bare: string, ind: string, es: seq<Entry>, n: nat)
    requires Good(es) && n <= |es| && AllNamed(es)
    requires Reduces(doc, bare) && Blank(ind)
    ensures Reduces(StyledMembers(f, doc, ind, es, n), bare + FastMembers(f, false, es, n))
    decreases Sizes(es), n + 1
  {
    if n > 0 {
      var before, items := StyledMembers(f, doc, ind, es, n - 1), FastMembers(f, false, es, n - 1);
      StyledMembersReduce(f, doc, bare, ind, es, n - 1);
      AppendComma(before, bare + items, n - 1);
      var d, b := before + Comma(n - 1), bare + items + Comma(n - 1);
      StyledMemberReduces(f, d, b, ind, es, n - 1);
      Chain(bare, items, Comma(n - 1), Member(f, false, es, n - 1));
    } else {
      assert bare + "" == bare;
    }
  }

  lemma {:induction false} StyledMemberReduces(f: Format, doc: string, bare: string, ind: string, es: seq<Entry>, i: nat)
    requires Good(es) && i < |es| && es[i].key.Name? && Reduces(doc, bare) && Blank(ind)
    ensures Reduces(StyledMember(f, doc, ind, es, i), bare + Member(f, false, es, i))
    decreases Sizes(es), 1
  {
    EntryAt(es, i);
    var q := Quoted(es[i].key.s);
    NewLineReduces(doc, bare, ind);
    QuotedReduces(es[i].key.s);
    Append(NewLine(doc, ind), bare, q, q, bare + q);
    Colons();
    Append(NewLine(doc, ind) + q, bare + q, " : ", ":", bare + q + ":");
    StyledReduces(f, NewLine(doc, ind) + q + " : ", bare + q + ":", ind, es[i].value);
    Chain(bare, q, ":", FastText(f, false, es[i].value));
  }

  lemma {:induction false} StyledItemsReduce(f: Format, doc: string, bare: string, ind: string, es: seq<Entry>, n: nat)
    requires Good(es) && n <= ArraySize(es) && Reduces(doc, bare) && Blank(ind)
    ensures Reduces(StyledItems(f, doc, ind, es, n), bare + FastItems(f, false, es, n))
    decreases Sizes(es), n + 1
  {
    if n > 0 {
      var before, items := StyledItems(f, doc, ind, es, n - 1), FastItems(f, false, es, n - 1);
      StyledItemsReduce(f, doc, bare, ind, es, n - 1);
      AppendComma(before, bare + items, n - 1);
      var d, b := before + Comma(n - 1), bare + items + Comma(n - 1);
      NewLineReduces(d, b, ind);
      GetWritable(es, Index(n - 1));
      StyledReduces(f, NewLine(d, ind), b, ind, Get(es, Index(n - 1)));
      Chain(bare, items, Comma(n - 1), Item(f, false, es, n - 1));
    } else {
      assert bare + "" == bare;
    }
  }

  lemma {:induction false} OneLineReduces(f: Format, es: seq<Entry>, n: nat)
    requires Good(es) && n <= ArraySize(es)
    ensures Reduces(OneLine(f, es, n), FastItems(f, false, es, n))
    decreases n
  {
    if n > 0 {
      var a, b := OneLine(f, es, n - 1), FastItems(f, false, es, n - 1);
      OneLineReduces(f, es, n - 1);
      Brackets();
      BlankReduces("");
      ReducesConcat(a, b, if n == 1 then "" else ", ", Comma(n - 1));
      GetWritable(es, Index(n - 1));
      FastReduces(f, false, Get(es, Index(n - 1)));
      ReducesConcat(a + (if n == 1 then "" else ", "), b + Comma(n - 1), Item(f, false, es, n - 1), Item(f, false, es, n - 1));
    }
  }

  // ---------- the agreement ----------

  lemma SameBare(f: Format, yaml: bool, v: Value)
    requires Writable(v)
    ensures Strip(Outside, FastText(f, yaml, v) + "\n") == FastText(f, false, v)
    ensures Fits(v) ==> Strip(Outside, Styled(f, "", "", v) + "\n") == FastText(f, false, v)
  {
    var bare := FastText(f, false, v);
    BlankReduces("");
    BlankReduces("\n");
    FastReduces(f, yaml, v);
    Append(FastText(f, yaml, v), bare, "\n", "", bare);
    if Fits(v) {
      StyledReduces(f, "", "", "", v);
      assert "" + bare == bare;
      Append(Styled(f, "", "", v), bare, "\n", "", bare);
    }
  }

  /**
   StyledWriter completes its document exactly when every array's size fits a signed integer, and then the
   two documents are equal once the whitespace outside string literals is gone; what is left is the
   compact text.
   */
  lemma SameDocument(f: Format, yaml: bool, v: Value)
    requires Writable(v)
    ensures Strip(Outside, FastText(f, yaml, v) + "\n") == FastText(f, false, v)
    ensures var d := StyledDocument(f, v);
      d.Some? && Strip(Outside, d.value) == Strip(Outside, FastText(f, yaml, v) + "\n") <==> Fits(v)
  {
    SameBare(f, yaml, v);
  }
}
