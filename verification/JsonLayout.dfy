/**
 The layout of a styled document, read off its text alone.  A scanner that knows string literals and open
 brackets checks every character outside literals:

 - an opening bracket is closed at once (an empty container), or begins an array on one line with a blank,
   or ends its line;
 - a comma ends its line, or is followed by a blank in an array on one line;
 - a line ends nowhere else, except before a closing bracket and at the end of the document;
 - a line begins with three blanks for each open bracket, one fewer when its closing bracket follows;
 - within a line, but for arrays on one line, the only blanks are one before and one after each colon.
 */
module JsonLayout {
  import opened JsonValue
  import opened JsonText
  import opened JsonWriters
  import opened JsonStyled

  // ---------- the scanner ----------

  datatype Spot =
    | Margin(blanks: nat, closing: bool)                  // a line has begun; `closing`: only a closing bracket may follow
    | Inline                                              // within a line
    | BeforeColon                                         // after a blank within a line
    | AfterColon
    | Opened(b: char)                                     // after an opening bracket
    | AfterComma
    | Flat(width: nat)                                    // in an array on one line
    | FlatOpened(b: char, width: nat)
    | FlatComma(width: nat)
    | Literal(escaped: bool, flat: bool, width: nat)      // in a string
    | Bad

  /** The brackets open, the spot, and whether every array on one line so far was narrower than 74. */
  datatype Page = Page(open: seq<char>, at: Spot, narrow: bool)

  predicate IsOpening(c: char) { c == '[' || c == '{' }

  predicate IsClosing(c: char) { c == ']' || c == '}' }

  function Closing(b: char): char { if b == '[' then ']' else '}' }

  /** A character within a line. */
  function Within(c: char): Spot {
    if c == '\"' then Literal(false, false, 0)
    else if IsOpening(c) then Opened(c)
    else if c == ',' then AfterComma
    else if c == '\n' then Margin(0, true)
    else if c == ' ' then BeforeColon
    else if IsClosing(c) || c == ':' then Bad
    else Inline
  }

  /** The first character of a line after its blanks. */
  function First(p: Page, blanks: nat, closing: bool, c: char): Page {
    if IsClosing(c) then
      if closing && p.open != [] && c == Closing(p.open[|p.open| - 1]) && blanks == 3 * (|p.open| - 1)
      then Page(p.open[..|p.open| - 1], Inline, p.narrow)
      else p.(at := Bad)
    else if closing || blanks != 3 * |p.open| || c in ",:\n" then p.(at := Bad)
    else p.(at := Within(c))
  }

  function Next(p: Page, c: char): Page {
    match p.at
    case Margin(n, closing) => if c == ' ' then p.(at := Margin(n + 1, closing)) else First(p, n, closing, c)
    case Inline => p.(at := Within(c))
    case BeforeColon => p.(at := if c == ':' then AfterColon else Bad)
    case AfterColon => p.(at := if c == ' ' then Inline else Bad)
    case Opened(b) =>
      if c == Closing(b) then p.(at := Inline)
      else if c == '\n' then Page(p.open + [b], Margin(0, false), p.narrow)
      else p.(at := if c == ' ' && b == '[' then Flat(2) else Bad)
    case AfterComma => p.(at := if c == '\n' then Margin(0, false) else Bad)
    case Flat(w) =>
      if c == ']' then Page(p.open, Inline, p.narrow && w + 1 < 74)
      else p.(at :=
        if c == '\"' then Literal(false, true, w + 1)
        else if IsOpening(c) then FlatOpened(c, w + 1)
        else if c == ',' then FlatComma(w + 1)
        else if c == '}' || c == '\n' then Bad
        else Flat(w + 1))
    case FlatOpened(b, w) => p.(at := if c == Closing(b) then Flat(w + 1) else Bad)
    case FlatComma(w) => p.(at := if c == ' ' then Flat(w + 1) else Bad)
    case Literal(escaped, flat, w) =>
      if !escaped && c == '\"' then p.(at := if flat then Flat(w + 1) else Inline)
      else p.(at := Literal(!escaped && c == '\\', flat, w + 1))
    case Bad => p
  }

  function Read(p: Page, s: string): Page
    decreases |s|
  {
    if s == "" then p else Read(Next(p, s[0]), s[1..])
  }

  const START := Page([], Margin(0, false), true)

  /** The whole document is laid out by the rules, closes every bracket and ends its last line. */
  predicate LaidOut(doc: string) {
    var p := Read(START, doc); p.open == [] && p.at == Margin(0, true)
  }

  /** No array on one line reaches the margin. */
  predicate Narrow(doc: string) { Read(START, doc).narrow }

  lemma {:induction false} ReadConcat(p: Page, a: string, b: string)
    ensures Read(p, a + b) == Read(Read(p, a), b)
    decreases |a|
  {
    if a == "" {
      assert a + b == b;
    } else {
      assert (a + b)[1..] == a[1..] + b;
      ReadConcat(Next(p, a[0]), a[1..], b);
    }
  }

  lemma ReadOne(p: Page, c: char)
    ensures Read(p, [c]) == Next(p, c)
  {
    assert [c][1..] == "";
  }

  lemma ReadTwo(p: Page, c: char, d: char)
    ensures Read(p, [c, d]) == Next(Next(p, c), d)
  {
    assert [c, d][1..] == [d];
    ReadOne(Next(p, c), d);
  }

  // ---------- texts of values without content ----------

  /** A value may be written here. */
  predicate CanStart(p: Page) { p.at.Inline? || p.at == Margin(3 * |p.open|, false) }

  lemma {:induction false} WordInline(p: Page, s: string)
    requires p.at.Inline? && forall i :: 0 <= i < |s| ==> s[i] != '\"' && !IsSpace(s[i]) && s[i] !in "[]{}:,"
    ensures Read(p, s) == p
    decreases |s|
  {
    if s != "" { WordInline(p, s[1..]); }
  }

  lemma WordReads(p: Page, s: string)
    requires CanStart(p) && Plain(s)
    ensures Read(p, s) == p.(at := Inline)
  {
    assert s[0] != '\"' && !IsSpace(s[0]) && s[0] !in "[]{}:,";
    WordInline(p.(at := Inline), s[1..]);
  }

  lemma {:induction false} WordFlat(p: Page, w: nat, s: string)
    requires p.at == Flat(w) && forall i :: 0 <= i < |s| ==> s[i] != '\"' && !IsSpace(s[i]) && s[i] !in "[]{}:,"
    ensures Read(p, s) == p.(at := Flat(w + |s|))
    decreases |s|
  {
    if s != "" { WordFlat(p.(at := Flat(w + 1)), w + 1, s[1..]); }
  }

  function LiteralAt(st: Lex, flat: bool, w: nat): Spot { Literal(st == Escaped, flat, w) }

  lemma {:induction false} InsideReads(p: Page, st: Lex, flat: bool, w: nat, s: string)
    requires st != Outside && p.at == LiteralAt(st, flat, w)
    requires forall i :: 0 <= i <= |s| ==> ScanAll(st, s[..i]) != Outside
    ensures Read(p, s) == p.(at := LiteralAt(ScanAll(st, s), flat, w + |s|))
    decreases |s|
  {
    if s != "" {
      var st', tail := Scan(st, s[0]), s[1..];
      assert s[..1] == [s[0]] && ScanAll(st, s[..1]) == ScanAll(st', []);
      forall i | 0 <= i <= |tail| ensures ScanAll(st', tail[..i]) != Outside {
        assert s[..i + 1][1..] == tail[..i] && ScanAll(st, s[..i + 1]) != Outside;
      }
      InsideReads(p.(at := LiteralAt(st', flat, w + 1)), st', flat, w + 1, tail);
    }
  }

  lemma BodyReads(p: Page, flat: bool, w: nat, x: string)
    requires p.at == Literal(false, flat, w)
    ensures Read(p, EscapeAll(x) + "\"") == p.(at := if flat then Flat(w + |EscapeAll(x)| + 1) else Inline)
  {
    var body := EscapeAll(x);
    forall i | 0 <= i <= |body| ensures ScanAll(Inside, body[..i]) != Outside { EscapeAllStaysInside(x, i); }
    EscapeAllStaysInside(x, 0);
    InsideReads(p, Inside, flat, w, body);
    ReadConcat(p, body, "\"");
    ReadOne(Read(p, body), '\"');
  }

  lemma QuotedReads(p: Page, x: string)
    requires CanStart(p)
    ensures Read(p, Quoted(x)) == p.(at := Inline)
  {
    assert Quoted(x)[1..] == EscapeAll(x) + "\"";
    BodyReads(p.(at := Literal(false, false, 0)), false, 0, x);
  }

  lemma QuotedFlat(p: Page, w: nat, x: string)
    requires p.at == Flat(w)
    ensures Read(p, Quoted(x)) == p.(at := Flat(w + |Quoted(x)|))
  {
    assert Quoted(x)[1..] == EscapeAll(x) + "\"";
    BodyReads(p.(at := Literal(false, true, w + 1)), true, w + 1, x);
  }

  lemma DecimalPlain(n: nat)
    ensures Plain(Decimal(n)) && Plain("-" + Decimal(n))
  {
    DecimalRoundTrip(n);
    DigitsPlain(Decimal(n));
  }

  lemma DigitsPlain(s: string)
    requires IsDigits(s)
    ensures Plain(s) && Plain("-" + s)
  {
    forall i | 0 <= i < |s| ensures s[i] != '\"' && !IsSpace(s[i]) && s[i] !in "[]{}:," { assert IsDigit(s[i]); }
    var t := "-" + s;
    forall i | 0 <= i < |t| ensures t[i] != '\"' && !IsSpace(t[i]) && t[i] !in "[]{}:," {
      if i > 0 { assert t[i] == s[i - 1]; }
    }
  }

  predicate IsDigits(s: string) { |s| > 0 && forall i :: 0 <= i < |s| ==> IsDigit(s[i]) }

  lemma ScalarPlain(f: Format, v: Value)
    requires Writable(v) && !v.Arr? && !v.Obj? && !v.Str?
    ensures Plain(Scalar(f, v))
  {
    match v
    case Int(i) => DecimalPlain(if i < 0 then -i else i);
    case UInt(u) => DecimalPlain(u);
    case Real(d) => assert Plain(f(d));
    case _ =>
  }

  lemma EmptyText(f: Format, v: Value)
    requires Writable(v) && (v.Arr? || v.Obj?) && v.entries == []
    ensures FastText(f, false, v) == if v.Arr? then "[]" else "{}"
  {
  }

  /** A value without content stays on its line. */
  lemma FlatReads(f: Format, p: Page, v: Value)
    requires CanStart(p) && Writable(v) && !Nested(v)
    ensures Read(p, FastText(f, false, v)) == p.(at := Inline)
  {
    if v.Arr? || v.Obj? {
      EmptyText(f, v);
      if v.Arr? { ReadTwo(p, '[', ']'); } else { ReadTwo(p, '{', '}'); }
    } else if v.Str? {
      QuotedReads(p, v.s.value);
    } else {
      ScalarPlain(f, v);
      WordReads(p, Scalar(f, v));
    }
  }

  lemma FlatReadsFlat(f: Format, p: Page, w: nat, v: Value)
    requires p.at == Flat(w) && Writable(v) && !Nested(v)
    ensures Read(p, FastText(f, false, v)) == p.(at := Flat(w + |FastText(f, false, v)|))
  {
    if v.Arr? || v.Obj? {
      EmptyText(f, v);
      if v.Arr? { ReadTwo(p, '[', ']'); } else { ReadTwo(p, '{', '}'); }
    } else if v.Str? {
      QuotedFlat(p, w, v.s.value);
    } else {
      ScalarPlain(f, v);
      WordFlat(p, w, Scalar(f, v));
    }
  }

  /** Neither a blank nor a line break at the end. */
  predicate Solid(doc: string) { doc != "" && doc[|doc| - 1] != ' ' && doc[|doc| - 1] != '\n' }

  lemma FlatSolid(f: Format, v: Value)
    requires Writable(v) && !Nested(v)
    ensures Solid(FastText(f, false, v))
  {
    if v.Arr? || v.Obj? { EmptyText(f, v); } else if !v.Str? { ScalarPlain(f, v); }
  }

  // ---------- documents under construction ----------

  /** A value, or a line, of the innermost bracket has just been finished. */
  predicate Done(doc: string, open: seq<char>, narrow: bool) {
    Read(START, doc) == Page(open, Inline, narrow) && Solid(doc)
  }

  /** A value may be written, without beginning a line. */
  predicate Ready(doc: string, open: seq<char>, narrow: bool) {
    var p := Read(START, doc);
    p.open == open && p.narrow == narrow && CanStart(p) && (if doc == "" then open == [] else doc[|doc| - 1] == ' ')
  }

  predicate Spaces(s: string) { forall i :: 0 <= i < |s| ==> s[i] == ' ' }

  lemma {:induction false} SpacesRead(p: Page, n: nat, closing: bool, s: string)
    requires p.at == Margin(n, closing) && Spaces(s)
    ensures Read(p, s) == p.(at := Margin(n + |s|, closing))
    decreases |s|
  {
    if s != "" { SpacesRead(p.(at := Margin(n + 1, closing)), n + 1, closing, s[1..]); }
  }

  /** A new line after solid text. */
  lemma LineReads(doc: string, p: Page, ind: string, q: Page, closing: bool)
    requires Read(START, doc) == p && Solid(doc) && Spaces(ind) && Next(p, '\n') == q && q.at == Margin(0, closing)
    ensures NewLine(doc, ind) == doc + "\n" + ind && Read(START, NewLine(doc, ind)) == q.(at := Margin(|ind|, closing))
  {
    ReadConcat(START, doc + "\n", ind);
    ReadConcat(START, doc, "\n");
    ReadOne(p, '\n');
    SpacesRead(q, 0, closing, ind);
  }

  /** Where a value may be written, no line is begun. */
  lemma NoLine(doc: string, open: seq<char>, narrow: bool, ind: string)
    requires Ready(doc, open, narrow) && |ind| == 3 * |open|
    ensures NewLine(doc, ind) == doc
  {
  }

  lemma FlatDone(f: Format, doc: string, open: seq<char>, narrow: bool, v: Value)
    requires Ready(doc, open, narrow) && Writable(v) && !Nested(v)
    ensures Done(doc + FastText(f, false, v), open, narrow)
  {
    var text := FastText(f, false, v);
    ReadConcat(START, doc, text);
    FlatReads(f, Read(START, doc), v);
    FlatSolid(f, v);
    assert (doc + text)[|doc + text| - 1] == text[|text| - 1];
  }

  /** An opening bracket where a value may be written. */
  lemma OpensPage(doc: string, open: seq<char>, narrow: bool, c: char)
    requires Ready(doc, open, narrow) && IsOpening(c)
    ensures Read(START, doc + [c]) == Page(open, Opened(c), narrow) && Solid(doc + [c])
  {
    ReadConcat(START, doc, [c]);
    ReadOne(Read(START, doc), c);
  }

  /** Before a line of the bracket `c`: it was just opened, or the line before ends in a comma. */
  predicate Between(doc: string, open: seq<char>, c: char, narrow: bool) {
    Solid(doc) && IsOpening(c) &&
    (Read(START, doc) == Page(open, Opened(c), narrow) || Read(START, doc) == Page(open + [c], AfterComma, narrow))
  }

  lemma CommaBetween(doc: string, open: seq<char>, c: char, narrow: bool)
    requires Done(doc, open + [c], narrow) && IsOpening(c)
    ensures Between(doc + ",", open, c, narrow)
  {
    ReadConcat(START, doc, ",");
    ReadOne(Read(START, doc), ',');
  }

  lemma BeginsLine(doc: string, open: seq<char>, c: char, narrow: bool, ind: string)
    requires Between(doc, open, c, narrow) && Spaces(ind) && |ind| == 3 * (|open| + 1)
    ensures Ready(NewLine(doc, ind), open + [c], narrow)
  {
    var p := Read(START, doc);
    LineReads(doc, p, ind, Page(open + [c], Margin(0, false), narrow), false);
    assert (doc + "\n" + ind)[|doc + "\n" + ind| - 1] == ind[|ind| - 1];
  }

  lemma NameReads(doc: string, open: seq<char>, narrow: bool, x: string)
    requires Ready(doc, open, narrow)
    ensures Ready(doc + Quoted(x) + " : ", open, narrow)
  {
    var p := Read(START, doc);
    var d := doc + Quoted(x);
    ReadConcat(START, doc, Quoted(x));
    QuotedReads(p, x);
    ReadConcat(START, d, " : ");
    var q := p.(at := Inline);
    assert " : "[1..] == ": ";
    ReadTwo(Next(q, ' '), ':', ' ');
    assert (d + " : ")[|d + " : "| - 1] == ' ';
  }

  lemma ClosesPage(body: string, open: seq<char>, c: char, narrow: bool, ind: string)
    requires Done(body, open + [c], narrow) && IsOpening(c) && Spaces(ind) && |ind| == 3 * |open|
    ensures Done(NewLine(body, ind) + [Closing(c)], open, narrow)
  {
    var p := Page(open + [c], Inline, narrow);
    LineReads(body, p, ind, p.(at := Margin(0, true)), true);
    ReadConcat(START, NewLine(body, ind), [Closing(c)]);
    ReadOne(p.(at := Margin(|ind|, true)), Closing(c));
    assert (open + [c])[..|open|] == open;
  }

  // ---------- documents only grow ----------

  lemma {:induction false} StyledGrows(f: Format, doc: string, ind: string, v: Value)
    requires Writable(v) && Fits(v)
    ensures |Styled(f, doc, ind, v)| >= |doc|
    decreases Size(v), 0
  {
    if Nested(v) && v.Obj? {
      MembersGrow(f, NewLine(doc, ind) + "{", ind + INDENT_STEP, v.entries, |v.entries|);
    } else if Nested(v) && Multiline(f, v.entries) {
      ItemsGrow(f, NewLine(doc, ind) + "[", ind + INDENT_STEP, v.entries, ArraySize(v.entries));
    }
  }

  lemma {:induction false} MembersGrow(f: Format, doc: string, ind: string, es: seq<Entry>, n: nat)
    requires Good(es) && n <= |es| && AllNamed(es)
    ensures |StyledMembers(f, doc, ind, es, n)| >= |doc|
    ensures n > 0 ==> |StyledMembers(f, doc, ind, es, n)| >= |StyledMembers(f, doc, ind, es, n - 1)|
    decreases Sizes(es), n + 1
  {
    if n > 0 {
      MembersGrow(f, doc, ind, es, n - 1);
      EntryAt(es, n - 1);
      var before := StyledMembers(f, doc, ind, es, n - 1) + Comma(n - 1);
      StyledGrows(f, NewLine(before, ind) + Quoted(es[n - 1].key.s) + " : ", ind, es[n - 1].value);
    }
  }

  lemma {:induction false} ItemsGrow(f: Format, doc: string, ind: string, es: seq<Entry>, n: nat)
    requires Good(es) && n <= ArraySize(es)
    ensures |StyledItems(f, doc, ind, es, n)| >= |doc|
    ensures n > 0 ==> |StyledItems(f, doc, ind, es, n)| >= |StyledItems(f, doc, ind, es, n - 1)|
    decreases Sizes(es), n + 1
  {
    if n > 0 {
      ItemsGrow(f, doc, ind, es, n - 1);
      GetWritable(es, Index(n - 1));
      var before := StyledItems(f, doc, ind, es, n - 1) + Comma(n - 1);
      StyledGrows(f, NewLine(before, ind), ind, Get(es, Index(n - 1)));
    }
  }

  // ---------- the layout of a value ----------

  /** Nothing of a document within the range of an `int` has broken the margin. */
  predicate StaysNarrow(before: bool, doc: string, after: bool) { before && |doc| <= MAX_INT ==> after }

  /** Where a value may be written, at the indentation of the open brackets, it is laid out by the rules. */
  lemma {:induction false} StyledLaid(f: Format, doc: string, open: seq<char>, narrow: bool, ind: string, v: Value)
      returns (narrow': bool)
    requires Ready(doc, open, narrow) && Spaces(ind) && |ind| == 3 * |open| && Writable(v) && Fits(v)
    ensures Done(Styled(f, doc, ind, v), open, narrow') && StaysNarrow(narrow, Styled(f, doc, ind, v), narrow')
    decreases Size(v), 0
  {
    if !Nested(v) {
      FlatDone(f, doc, open, narrow, v);
      narrow' := narrow;
    } else if v.Obj? {
      narrow' := ObjectLaid(f, doc, open, narrow, ind, v);
    } else if Multiline(f, v.entries) {
      narrow' := ArrayLaid(f, doc, open, narrow, ind, v);
    } else {
      narrow' := OneLineLaid(f, doc, open, narrow, v);
    }
  }

  lemma {:induction false} ObjectLaid(f: Format, doc: string, open: seq<char>, narrow: bool, ind: string, v: Value)
      returns (narrow': bool)
    requires Ready(doc, open, narrow) && Spaces(ind) && |ind| == 3 * |open| && Writable(v) && Fits(v)
    requires v.Obj? && Nested(v)
    ensures Done(Styled(f, doc, ind, v), open, narrow') && StaysNarrow(narrow, Styled(f, doc, ind, v), narrow')
    decreases Sizes(v.entries), |v.entries| + 2
  {
    var es, inner := v.entries, ind + INDENT_STEP;
    NoLine(doc, open, narrow, ind);
    OpensPage(doc, open, narrow, '{');
    narrow' := MembersLaid(f, doc + "{", open, '{', narrow, inner, es, |es|);
    ClosesPage(StyledMembers(f, doc + "{", inner, es, |es|), open, '{', narrow', ind);
  }

  lemma {:induction false} MembersLaid(f: Format, doc: string, open: seq<char>, c: char, narrow: bool, ind: string, es: seq<Entry>, n: nat)
      returns (narrow': bool)
    requires Between(doc, open, c, narrow) && Spaces(ind) && |ind| == 3 * (|open| + 1)
    requires Good(es) && 0 < n <= |es| && AllNamed(es)
    ensures Done(StyledMembers(f, doc, ind, es, n), open + [c], narrow')
    ensures StaysNarrow(narrow, StyledMembers(f, doc, ind, es, n), narrow')
    decreases Sizes(es), n + 1
  {
    if n == 1 {
      assert StyledMembers(f, doc, ind, es, 0) + Comma(0) == doc;
      narrow' := MemberLaid(f, doc, open, c, narrow, ind, es, 0);
    } else {
      var d := StyledMembers(f, doc, ind, es, n - 1);
      var between := MembersLaid(f, doc, open, c, narrow, ind, es, n - 1);
      CommaBetween(d, open, c, between);
      narrow' := MemberLaid(f, d + ",", open, c, between, ind, es, n - 1);
      MembersGrow(f, doc, ind, es, n);
    }
  }

  lemma {:induction false} MemberLaid(f: Format, doc: string, open: seq<char>, c: char, narrow: bool, ind: string, es: seq<Entry>, i: nat)
      returns (narrow': bool)
    requires Between(doc, open, c, narrow) && Spaces(ind) && |ind| == 3 * (|open| + 1)
    requires Good(es) && i < |es| && es[i].key.Name?
    ensures Done(StyledMember(f, doc, ind, es, i), open + [c], narrow')
    ensures StaysNarrow(narrow, StyledMember(f, doc, ind, es, i), narrow')
    decreases Sizes(es), 1
  {
    EntryAt(es, i);
    BeginsLine(doc, open, c, narrow, ind);
    NameReads(NewLine(doc, ind), open + [c], narrow, es[i].key.s);
    narrow' := StyledLaid(f, NewLine(doc, ind) + Quoted(es[i].key.s) + " : ", open + [c], narrow, ind, es[i].value);
  }

  lemma {:induction false} ArrayLaid(f: Format, doc: string, open: seq<char>, narrow: bool, ind: string, v: Value)
      returns (narrow': bool)
    requires Ready(doc, open, narrow) && Spaces(ind) && |ind| == 3 * |open| && Writable(v) && Fits(v)
    requires v.Arr? && Nested(v) && Multiline(f, v.entries)
    ensures Done(Styled(f, doc, ind, v), open, narrow') && StaysNarrow(narrow, Styled(f, doc, ind, v), narrow')
    decreases Sizes(v.entries), ArraySize(v.entries) + 2
  {
    var es, n, inner := v.entries, ArraySize(v.entries), ind + INDENT_STEP;
    NoLine(doc, open, narrow, ind);
    OpensPage(doc, open, narrow, '[');
    narrow' := ItemsLaid(f, doc + "[", open, '[', narrow, inner, es, n);
    ClosesPage(StyledItems(f, doc + "[", inner, es, n), open, '[', narrow', ind);
  }

  lemma {:induction false} ItemsLaid(f: Format, doc: string, open: seq<char>, c: char, narrow: bool, ind: string, es: seq<Entry>, n: nat)
      returns (narrow': bool)
    requires Between(doc, open, c, narrow) && Spaces(ind) && |ind| == 3 * (|open| + 1) && Good(es) && 0 < n <= ArraySize(es)
    ensures Done(StyledItems(f, doc, ind, es, n), open + [c], narrow')
    ensures StaysNarrow(narrow, StyledItems(f, doc, ind, es, n), narrow')
    decreases Sizes(es), n + 1
  {
    if n == 1 {
      assert StyledItems(f, doc, ind, es, 0) + Comma(0) == doc;
      narrow' := ItemLaid(f, doc, open, c, narrow, ind, es, 0);
    } else {
      var d := StyledItems(f, doc, ind, es, n - 1);
      var between := ItemsLaid(f, doc, open, c, narrow, ind, es, n - 1);
      CommaBetween(d, open, c, between);
      narrow' := ItemLaid(f, d + ",", open, c, between, ind, es, n - 1);
      ItemsGrow(f, doc, ind, es, n);
    }
  }

  lemma {:induction false} ItemLaid(f: Format, doc: string, open: seq<char>, c: char, narrow: bool, ind: string, es: seq<Entry>, i: nat)
      returns (narrow': bool)
    requires Between(doc, open, c, narrow) && Spaces(ind) && |ind| == 3 * (|open| + 1) && Good(es) && i < ArraySize(es)
    ensures Done(StyledItem(f, doc, ind, es, i), open + [c], narrow')
    ensures StaysNarrow(narrow, StyledItem(f, doc, ind, es, i), narrow')
    decreases Sizes(es), 1
  {
    GetWritable(es, Index(i));
    BeginsLine(doc, open, c, narrow, ind);
    narrow' := StyledLaid(f, NewLine(doc, ind), open + [c], narrow, ind, Get(es, Index(i)));
  }

  /** The elements of an array on one line. */
  lemma {:induction false} OneLineReads(f: Format, p: Page, w: nat, es: seq<Entry>, n: nat)
    requires p.at == Flat(w) && AllWritable(es) && n <= ArraySize(es) && !AnyNested(es, n)
    ensures Read(p, OneLine(f, es, n)) == p.(at := Flat(w + |OneLine(f, es, n)|))
    decreases n
  {
    if n > 0 {
      var line, sep, item := OneLine(f, es, n - 1), if n == 1 then "" else ", ", Item(f, false, es, n - 1);
      var q := p.(at := Flat(w + |line|));
      OneLineReads(f, p, w, es, n - 1);
      ReadConcat(p, line, sep);
      if n > 1 { ReadTwo(q, ',', ' '); }
      assert Read(p, line + sep) == p.(at := Flat(w + |line + sep|));
      ItemReadsFlat(f, p, w, line + sep, es, n - 1);
    }
  }

  lemma ItemReadsFlat(f: Format, p: Page, w: nat, before: string, es: seq<Entry>, i: nat)
    requires p.at == Flat(w) && AllWritable(es) && i < ArraySize(es) && !Nested(Get(es, Index(i)))
    requires Read(p, before) == p.(at := Flat(w + |before|))
    ensures var text := before + Item(f, false, es, i); Read(p, text) == p.(at := Flat(w + |text|))
  {
    ReadConcat(p, before, Item(f, false, es, i));
    GetWritable(es, Index(i));
    FlatReadsFlat(f, p.(at := Flat(w + |before|)), w + |before|, Get(es, Index(i)));
  }

  lemma OneLineLaid(f: Format, doc: string, open: seq<char>, narrow: bool, v: Value) returns (narrow': bool)
    requires Ready(doc, open, narrow) && Writable(v) && Fits(v) && v.Arr? && Nested(v) && !Multiline(f, v.entries)
    ensures var d := doc + "[ " + OneLine(f, v.entries, ArraySize(v.entries)) + " ]";
      Done(d, open, narrow') && StaysNarrow(narrow, d, narrow')
  {
    var es, n := v.entries, ArraySize(v.entries);
    var line, p := OneLine(f, es, n), Read(START, doc);
    ReadConcat(START, doc, "[ ");
    ReadTwo(p, '[', ' ');
    ReadConcat(START, doc + "[ ", line);
    assert !AnyNested(es, Count(es)) && Count(es) == n;
    OneLineReads(f, p.(at := Flat(2)), 2, es, n);
    ReadConcat(START, doc + "[ " + line, " ]");
    ReadTwo(p.(at := Flat(2 + |line|)), ' ', ']');
    narrow' := narrow && |line| + 4 < 74;
    if |line| + 4 <= MAX_INT { OneLineFits(f, es); }
  }

  /**
   Every styled document is laid out by the rules, and no array on one line in it reaches the margin, as
   long as its length is within the range of an `int`.
   */
  lemma StyledLayout(f: Format, v: Value)
    requires Writable(v) && Fits(v)
    ensures var d := StyledDocument(f, v); d.Some? && LaidOut(d.value) && (|d.value| <= MAX_INT ==> Narrow(d.value))
  {
    var doc := Styled(f, "", "", v);
    assert Read(START, "") == START;
    var narrow := StyledLaid(f, "", [], true, "", v);
    ReadConcat(START, doc, "\n");
    ReadOne(Page([], Inline, narrow), '\n');
  }
}
