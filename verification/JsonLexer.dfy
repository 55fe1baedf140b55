/**
 JSON text as a sequence of lexemes: punctuation, string literals, and words, which are the runs of other
 characters.  Whitespace separates lexemes and belongs to none, by section 2 of RFC 8259.
 */
module JsonLexer {
  import opened Basics
  import opened JsonText

  datatype Lexeme = Punct(c: char) | Word(w: string) | Literal(raw: string)

  datatype Where = Between | InWord(w: string) | InString(raw: string) | InEscape(raw: string)

  datatype Lexer = Lexer(done: seq<Lexeme>, at: Where)

  predicate IsPunct(c: char) { c == '[' || c == ']' || c == '{' || c == '}' || c == ':' || c == ',' }

  predicate WordChar(c: char) { !IsSpace(c) && !IsPunct(c) && c != '\"' }

  /** What has been read when a word under way is taken to end here. */
  function Flush(l: Lexer): seq<Lexeme> { if l.at.InWord? then l.done + [Word(l.at.w)] else l.done }

  function Feed(l: Lexer, c: char): Lexer {
    match l.at
    case InString(raw) =>
      if c == '\"' then Lexer(l.done + [Literal(raw + [c])], Between)
      else Lexer(l.done, if c == '\\' then InEscape(raw + [c]) else InString(raw + [c]))
    case InEscape(raw) => Lexer(l.done, InString(raw + [c]))
    case _ =>
      if IsSpace(c) then Lexer(Flush(l), Between)
      else if IsPunct(c) then Lexer(Flush(l) + [Punct(c)], Between)
      else if c == '\"' then Lexer(Flush(l), InString([c]))
      else Lexer(l.done, InWord(if l.at.InWord? then l.at.w + [c] else [c]))
  }

  function FeedAll(l: Lexer, s: string): Lexer
    decreases |s|
  {
    if s == "" then l else FeedAll(Feed(l, s[0]), s[1..])
  }

  /** The lexemes of a text; none when a string is left open. */
  function Lexemes(text: string): Option<seq<Lexeme>> {
    var l := FeedAll(Lexer([], Between), text);
    if l.at.Between? || l.at.InWord? then Some(Flush(l)) else None
  }

  lemma {:induction false} FeedConcat(l: Lexer, a: string, b: string)
    ensures FeedAll(l, a + b) == FeedAll(FeedAll(l, a), b)
    decreases |a|
  {
    if a == "" {
      assert a + b == b;
    } else {
      assert (a + b)[1..] == a[1..] + b;
      FeedConcat(Feed(l, a[0]), a[1..], b);
    }
  }

  // ---------- documents under construction ----------

  /** The text reads as `ls`, with no word under way at its end. */
  predicate Ready(text: string, ls: seq<Lexeme>) { FeedAll(Lexer([], Between), text) == Lexer(ls, Between) }

  /** The text reads as `ls`, where its end also ends a word. */
  predicate Reads(text: string, ls: seq<Lexeme>) { Lexemes(text) == Some(ls) }

  lemma {:induction false} WordFeeds(ls: seq<Lexeme>, w: string, s: string)
    requires forall i :: 0 <= i < |s| ==> WordChar(s[i])
    ensures FeedAll(Lexer(ls, InWord(w)), s) == Lexer(ls, InWord(w + s))
    decreases |s|
  {
    if s == "" {
      assert w + s == w;
    } else {
      WordFeeds(ls, w + [s[0]], s[1..]);
      assert w + [s[0]] + s[1..] == w + s;
    }
  }

  predicate IsWord(s: string) { |s| > 0 && forall i :: 0 <= i < |s| ==> WordChar(s[i]) }

  lemma AddWord(doc: string, ls: seq<Lexeme>, s: string)
    requires Ready(doc, ls) && IsWord(s)
    ensures Reads(doc + s, ls + [Word(s)])
  {
    FeedConcat(Lexer([], Between), doc, s);
    assert WordChar(s[0]) && Feed(Lexer(ls, Between), s[0]) == Lexer(ls, InWord([s[0]]));
    WordFeeds(ls, [s[0]], s[1..]);
    assert [s[0]] + s[1..] == s;
  }

  lemma AddPunct(doc: string, ls: seq<Lexeme>, c: char)
    requires Reads(doc, ls) && IsPunct(c)
    ensures Ready(doc + [c], ls + [Punct(c)])
  {
    FeedConcat(Lexer([], Between), doc, [c]);
    FeedOne(FeedAll(Lexer([], Between), doc), c);
  }

  lemma FeedOne(l: Lexer, c: char)
    ensures FeedAll(l, [c]) == Feed(l, c)
  {
    assert [c][1..] == "";
  }

  lemma {:induction false} BlankFeeds(l: Lexer, s: string)
    requires Blank(s) && (l.at.Between? || l.at.InWord?)
    ensures FeedAll(l, s) == if s == "" then l else Lexer(Flush(l), Between)
    decreases |s|
  {
    if s != "" { BlankFeeds(Feed(l, s[0]), s[1..]); }
  }

  lemma AddBlank(doc: string, ls: seq<Lexeme>, s: string)
    requires Blank(s)
    ensures Ready(doc, ls) ==> Ready(doc + s, ls)
    ensures Reads(doc, ls) ==> Reads(doc + s, ls)
  {
    var l := FeedAll(Lexer([], Between), doc);
    FeedConcat(Lexer([], Between), doc, s);
    if l.at.Between? || l.at.InWord? { BlankFeeds(l, s); }
  }

  // ---------- string literals ----------

  function AtLex(st: Lex, raw: string): Where { if st == Escaped then InEscape(raw) else InString(raw) }

  /** Text that does not leave the literal is collected as it stands. */
  lemma {:induction false} InsideFeeds(ls: seq<Lexeme>, st: Lex, raw: string, s: string)
    requires st != Outside && forall i :: 0 <= i <= |s| ==> ScanAll(st, s[..i]) != Outside
    ensures FeedAll(Lexer(ls, AtLex(st, raw)), s) == Lexer(ls, AtLex(ScanAll(st, s), raw + s))
    decreases |s|
  {
    if s == "" {
      assert raw + s == raw;
    } else {
      var st', raw', tail := Scan(st, s[0]), raw + [s[0]], s[1..];
      assert s[..1] == [s[0]] && ScanAll(st, s[..1]) == ScanAll(st', []);
      forall i | 0 <= i <= |tail| ensures ScanAll(st', tail[..i]) != Outside {
        assert s[..i + 1][1..] == tail[..i] && ScanAll(st, s[..i + 1]) != Outside;
      }
      InsideFeeds(ls, st', raw', tail);
      assert raw' + tail == raw + s;
    }
  }

  /** A quoted string is one literal, whatever the document before it. */
  lemma AddString(doc: string, ls: seq<Lexeme>, x: string)
    requires Ready(doc, ls)
    ensures Ready(doc + Quoted(x), ls + [Literal(Quoted(x))])
  {
    var body, start := EscapeAll(x), Lexer(ls, Between);
    forall i | 0 <= i <= |body| ensures ScanAll(Inside, body[..i]) != Outside { EscapeAllStaysInside(x, i); }
    EscapeAllStaysInside(x, 0);
    InsideFeeds(ls, Inside, "\"", body);
    FeedConcat(Lexer([], Between), doc, Quoted(x));
    FeedConcat(start, "\"" + body, "\"");
    FeedConcat(start, "\"", body);
    FeedOne(start, '\"');
    FeedOne(Lexer(ls, InString("\"" + body)), '\"');
  }
}
