/**
 JSON text: a lexical scanner that knows string literals, the quoting of strings and its inverse as
 section 7 of RFC 8259 defines it, and decimal integers.  A character stands for one byte.
 */
module JsonText {
  import opened Basics

  // ---------- scanning string literals ----------

  datatype Lex = Outside | Inside | Escaped

  function Scan(st: Lex, c: char): Lex {
    match st
    case Outside => if c == '\"' then Inside else Outside
    case Inside => if c == '\"' then Outside else if c == '\\' then Escaped else Inside
    case Escaped => Inside
  }

  function ScanAll(st: Lex, s: string): Lex
    decreases |s|
  {
    if s == "" then st else ScanAll(Scan(st, s[0]), s[1..])
  }

  predicate IsSpace(c: char) { c == ' ' || c == '\n' || c == '\r' || c == '\t' }

  /** The text without the whitespace outside its string literals. */
  function Strip(st: Lex, s: string): string
    decreases |s|
  {
    if s == "" then ""
    else (if st == Outside && IsSpace(s[0]) then "" else [s[0]]) + Strip(Scan(st, s[0]), s[1..])
  }

  lemma {:induction false} ScanConcat(st: Lex, a: string, b: string)
    ensures ScanAll(st, a + b) == ScanAll(ScanAll(st, a), b)
    decreases |a|
  {
    if a == "" {
      assert a + b == b;
    } else {
      assert (a + b)[1..] == a[1..] + b;
      ScanConcat(Scan(st, a[0]), a[1..], b);
    }
  }

  lemma {:induction false} StripConcat(st: Lex, a: string, b: string)
    ensures Strip(st, a + b) == Strip(st, a) + Strip(ScanAll(st, a), b)
    decreases |a|
  {
    if a == "" {
      assert a + b == b;
    } else {
      var st', head := Scan(st, a[0]), if st == Outside && IsSpace(a[0]) then "" else [a[0]];
      var x, y := Strip(st', a[1..]), Strip(ScanAll(st', a[1..]), b);
      StripConcat(st', a[1..], b);
      assert (a + b)[1..] == a[1..] + b && (a + b)[0] == a[0];
      assert Strip(st, a + b) == head + Strip(st', a[1..] + b);
      assert head + (x + y) == (head + x) + y;
    }
  }

  /** Text that starts and ends outside string literals. */
  predicate Balanced(s: string) { ScanAll(Outside, s) == Outside }

  /** `full` with its insignificant whitespace removed is `bare`. */
  predicate Reduces(full: string, bare: string) { Balanced(full) && Strip(Outside, full) == bare }

  lemma ReducesConcat(a: string, a': string, b: string, b': string)
    requires Reduces(a, a') && Reduces(b, b')
    ensures Reduces(a + b, a' + b')
  {
    ScanConcat(Outside, a, b);
    StripConcat(Outside, a, b);
  }

  /** Characters that are neither quotes nor whitespace. */
  predicate Token(s: string) { forall i :: 0 <= i < |s| ==> s[i] != '\"' && !IsSpace(s[i]) }

  lemma {:induction false} TokenReduces(s: string)
    requires Token(s)
    ensures Reduces(s, s)
    decreases |s|
  {
    if s != "" {
      TokenReduces(s[1..]);
    }
  }

  predicate Blank(s: string) { forall i :: 0 <= i < |s| ==> IsSpace(s[i]) }

  lemma {:induction false} BlankReduces(s: string)
    requires Blank(s)
    ensures Reduces(s, "")
    decreases |s|
  {
    if s != "" {
      BlankReduces(s[1..]);
    }
  }

  // ---------- quoting ----------

  /** The bytes of a C string, before its terminator. */
  predicate NulFree(s: string) { forall i :: 0 <= i < |s| ==> s[i] != '\0' }

  predicate IsControl(c: char) { 0 < c as int <= 0x1F }

  function HexDigit(n: nat): char
    requires n < 16
  {
    "0123456789ABCDEF"[n]
  }

  /** What the loop appends for one character. */
  function Escape(c: char): string {
    if c == '\"' then "\\\""
    else if c == '\\' then "\\\\"
    else if c == 8 as char then "\\b"
    else if c == 12 as char then "\\f"
    else if c == '\n' then "\\n"
    else if c == '\r' then "\\r"
    else if c == '\t' then "\\t"
    else if IsControl(c) then ['\\', 'u', '0', '0', HexDigit(c as int / 16), HexDigit(c as int % 16)]
    else [c]
  }

  function EscapeAll(s: string): string {
    if s == "" then "" else Escape(s[0]) + EscapeAll(s[1..])
  }

  function Quoted(s: string): string { "\"" + EscapeAll(s) + "\"" }

  /** Characters for which the quick path is not taken. */
  predicate Special(c: char) {
    c == '\"' || c == '\\' || c == 8 as char || c == 12 as char || c == '\n' || c == '\r' || c == '\t' || IsControl(c)
  }

  lemma {:induction false} PlainUnescaped(s: string)
    requires forall i :: 0 <= i < |s| ==> !Special(s[i])
    ensures EscapeAll(s) == s
    decreases |s|
  {
    if s != "" {
      PlainUnescaped(s[1..]);
    }
  }

  lemma {:induction false} EscapeAllSnoc(s: string, c: char)
    ensures EscapeAll(s + [c]) == EscapeAll(s) + Escape(c)
    decreases |s|
  {
    if s == "" {
      assert s + [c] == [c];
      assert EscapeAll([c]) == Escape(c) + EscapeAll([c][1..]);
    } else {
      assert (s + [c])[1..] == s[1..] + [c];
      EscapeAllSnoc(s[1..], c);
    }
  }

  /** strpbrk(value, set) != NULL */
  method ContainsAny(value: string, chars: string) returns (found: bool)
    ensures found <==> exists i :: 0 <= i < |value| && value[i] in chars
  {
    for i := 0 to |value|
      invariant forall j :: 0 <= j < i ==> value[j] !in chars
    {
      if value[i] in chars { return true; }
    }
    return false;
  }

  method ContainsControlCharacter(value: string) returns (found: bool)
    ensures found <==> exists i :: 0 <= i < |value| && IsControl(value[i])
  {
    for i := 0 to |value|
      invariant forall j :: 0 <= j < i ==> !IsControl(value[j])
    {
      if IsControl(value[i]) { return true; }
    }
    return false;
  }

  /** The set searched by strpbrk. */
  function ShortEscaped(): string { ['\"', '\\', 8 as char, 12 as char, '\n', '\r', '\t'] }

  lemma SpecialMeans(c: char)
    ensures Special(c) <==> c in ShortEscaped() || IsControl(c)
  {
  }

  /** Both paths of valueToQuotedString compute the same quoting. */
  method ValueToQuotedString(value: string) returns (r: string)
    requires NulFree(value)
    ensures r == Quoted(value)
  {
    var special := ContainsAny(value, ShortEscaped());
    var control := ContainsControlCharacter(value);
    if !special && !control {
      forall i | 0 <= i < |value| ensures !Special(value[i]) { SpecialMeans(value[i]); }
      PlainUnescaped(value);
      return "\"" + value + "\"";
    }
    r := EscapeLoop(value);
  }

  /** What the loop has appended after the characters of `s`. */
  ghost function Opened(s: string): string { "\"" + EscapeAll(s) }

  lemma OpenedStep(s: string, i: nat)
    requires i < |s|
    ensures Opened(s[..i + 1]) == Opened(s[..i]) + Escape(s[i])
  {
    EscapeAllSnoc(s[..i], s[i]);
    assert s[..i] + [s[i]] == s[..i + 1];
  }

  method EscapeLoop(value: string) returns (r: string)
    ensures r == Quoted(value)
  {
    r := "\"";
    for i := 0 to |value|
      invariant r == Opened(value[..i])
    {
      OpenedStep(value, i);
      r := r + Escape(value[i]);
    }
    assert value[..|value|] == value;
    r := r + "\"";
  }

  // ---------- decoding, by section 7 of RFC 8259 ----------

  function HexValue(c: char): Option<nat> {
    if '0' <= c <= '9' then Some(c as int - '0' as int)
    else if 'A' <= c <= 'F' then Some(c as int - 'A' as int + 10)
    else if 'a' <= c <= 'f' then Some(c as int - 'a' as int + 10)
    else None
  }

  /** The code point of four hexadecimal digits. */
  function Hex4(c0: char, c1: char, c2: char, c3: char): Option<nat> {
    match (HexValue(c0), HexValue(c1), HexValue(c2), HexValue(c3))
    case (Some(a), Some(b), Some(c), Some(d)) => Some(((a * 16 + b) * 16 + c) * 16 + d)
    case _ => None
  }

  /** The UTF-8 bytes of a code point of the basic plane; a lone surrogate has none. */
  function Utf8(p: nat): Option<string> {
    if p < 0x80 then Some([p as char])
    else if p < 0x800 then Some([(0xC0 + p / 64) as char, (0x80 + p % 64) as char])
    else if p < 0xD800 || 0xE000 <= p < 0x10000 then
      Some([(0xE0 + p / 4096) as char, (0x80 + p / 64 % 64) as char, (0x80 + p % 64) as char])
    else None
  }

  function Prepend(a: Option<string>, b: Option<string>): Option<string> {
    if a.Some? && b.Some? then Some(a.value + b.value) else None
  }

  /** The two-character escapes. */
  function ShortEscape(c: char): Option<string> {
    if c == '\"' || c == '\\' || c == '/' then Some([c])
    else if c == 'b' then Some([8 as char])
    else if c == 'f' then Some([12 as char])
    else if c == 'n' then Some("\n")
    else if c == 'r' then Some("\r")
    else if c == 't' then Some("\t")
    else None
  }

  /** The characters between the quotes. */
  function DecodeBody(s: string): Option<string>
    decreases |s|
  {
    if s == "" then Some("")
    else if s[0] == '\\' then
      if |s| < 2 then None
      else if s[1] == 'u' then
        if |s| < 6 then None
        else
          var p := Hex4(s[2], s[3], s[4], s[5]);
          Prepend(if p.Some? then Utf8(p.value) else None, DecodeBody(s[6..]))
      else Prepend(ShortEscape(s[1]), DecodeBody(s[2..]))
    else if s[0] == '\"' || s[0] as int < 0x20 then None
    else Prepend(Some([s[0]]), DecodeBody(s[1..]))
  }

  /** A string literal: quotes around a decodable body. */
  function Decode(q: string): Option<string> {
    if |q| >= 2 && q[0] == '\"' && q[|q| - 1] == '\"' then DecodeBody(q[1..|q| - 1]) else None
  }

  lemma HexDigits(n: nat)
    requires n < 16
    ensures HexValue(HexDigit(n)) == Some(n)
  {
  }

  /** Decoding undoes the escape of one character, whatever follows it. */
  lemma DecodeEscape(c: char, rest: string)
    requires c != '\0'
    ensures DecodeBody(Escape(c) + rest) == Prepend(Some([c]), DecodeBody(rest))
  {
    var e := Escape(c);
    var s := e + rest;
    if |e| == 1 {
      assert s[1..] == rest;
    } else if |e| == 2 {
      assert s[2..] == rest;
    } else {
      var hi, lo := c as int / 16, c as int % 16;
      assert s[6..] == rest;
      HexDigits(hi);
      HexDigits(lo);
      assert Hex4(s[2], s[3], s[4], s[5]) == Some(c as int);
    }
  }

  lemma {:induction false} DecodeEscapeAll(s: string)
    requires NulFree(s)
    ensures DecodeBody(EscapeAll(s)) == Some(s)
    decreases |s|
  {
    if s != "" {
      var c, rest := s[0], s[1..];
      assert s == [c] + rest;
      DecodeEscapeAll(rest);
      DecodeEscape(c, EscapeAll(rest));
    }
  }

  /** Quoting is inverted by decoding, for every NUL-free string. */
  lemma QuoteRoundTrip(s: string)
    requires NulFree(s)
    ensures Decode(Quoted(s)) == Some(s)
  {
    var q := Quoted(s);
    assert q[1..|q| - 1] == EscapeAll(s);
    DecodeEscapeAll(s);
  }

  // ---------- the quotes of a quoted string ----------

  /** No proper prefix of the escaped text leaves the literal. */
  lemma EscapeStaysInside(c: char, i: nat)
    requires i <= |Escape(c)|
    ensures ScanAll(Inside, Escape(c)[..i]) != Outside
    ensures ScanAll(Inside, Escape(c)) == Inside
  {
    var e := Escape(c);
    ScanPrefix(e, i);
    ScanPrefix(e, |e|);
    assert e[..|e|] == e;
  }

  /** An escape begins with a backslash or is one plain character. */
  lemma ScanPrefix(e: string, i: nat)
    requires i <= |e| && |e| > 0
    requires e[0] != '\"' && (e[0] == '\\' ==> |e| > 1)
    requires forall k :: 1 < k < |e| ==> e[k] != '\"' && e[k] != '\\'
    requires e[0] != '\\' ==> |e| == 1
    ensures ScanAll(Inside, e[..i]) != Outside
    ensures i == |e| ==> ScanAll(Inside, e[..i]) == Inside
  {
    var p := e[..i];
    if i == 1 {
      assert p[1..] == "";
    } else if i > 1 {
      assert p[1..][1..] == p[2..];
      PlainInside(p[2..]);
    }
  }

  lemma {:induction false} PlainInside(e: string)
    ensures (forall k :: 0 <= k < |e| ==> e[k] != '\"' && e[k] != '\\') ==> ScanAll(Inside, e) == Inside
    decreases |e|
  {
    if e != "" {
      PlainInside(e[1..]);
    }
  }

  lemma {:induction false} EscapeAllStaysInside(s: string, i: nat)
    requires i <= |EscapeAll(s)|
    ensures ScanAll(Inside, EscapeAll(s)[..i]) != Outside
    ensures ScanAll(Inside, EscapeAll(s)) == Inside
    decreases |s|
  {
    if s != "" {
      var e, rest := Escape(s[0]), EscapeAll(s[1..]);
      if i <= |e| {
        assert (e + rest)[..i] == e[..i];
        EscapeStaysInside(s[0], i);
        EscapeAllStaysInside(s[1..], 0);
      } else {
        assert (e + rest)[..i] == e + rest[..i - |e|];
        EscapeStaysInside(s[0], 0);
        EscapeAllStaysInside(s[1..], i - |e|);
        ScanConcat(Inside, e, rest[..i - |e|]);
      }
      ScanConcat(Inside, e, rest);
    }
  }

  /** The closing quote is the only place after the opening one where the literal ends. */
  lemma QuotedClosesOnce(s: string, i: nat)
    requires 0 < i <= |Quoted(s)|
    ensures ScanAll(Outside, Quoted(s)[..i]) == Outside <==> i == |Quoted(s)|
  {
    var q, e := Quoted(s), EscapeAll(s);
    if i < |q| {
      assert q[..i] == "\"" + e[..i - 1];
      ScanConcat(Outside, "\"", e[..i - 1]);
      EscapeAllStaysInside(s, i - 1);
    } else {
      assert q[..i] == "\"" + (e + "\"");
      ScanConcat(Outside, "\"", e + "\"");
      ScanConcat(Inside, e, "\"");
      EscapeAllStaysInside(s, 0);
    }
  }

  lemma {:induction false} StripInside(st: Lex, s: string)
    requires forall i :: 0 <= i < |s| ==> ScanAll(st, s[..i]) != Outside
    ensures Strip(st, s) == s
    decreases |s|
  {
    if s != "" {
      assert s[..0] == "";
      forall i | 0 <= i < |s[1..]| ensures ScanAll(Scan(st, s[0]), s[1..][..i]) != Outside {
        assert s[..i + 1][1..] == s[1..][..i];
      }
      StripInside(Scan(st, s[0]), s[1..]);
    }
  }

  /** Removing insignificant whitespace leaves a quoted string alone. */
  lemma QuotedReduces(s: string)
    ensures Reduces(Quoted(s), Quoted(s))
  {
    var q := Quoted(s);
    QuotedClosesOnce(s, |q|);
    assert q[..|q|] == q;
    assert q[0] == '\"' && q == "\"" + q[1..];
    forall i | 0 <= i < |q[1..]| ensures ScanAll(Inside, q[1..][..i]) != Outside {
      QuotedClosesOnce(s, i + 1);
      assert q[..i + 1][1..] == q[1..][..i];
    }
    StripInside(Inside, q[1..]);
  }

  // ---------- decimal integers ----------

  function Digit(n: nat): (c: char)
    requires n < 10
    ensures '0' <= c <= '9'
  {
    ('0' as int + n) as char
  }

  function Decimal(n: nat): (s: string)
    ensures |s| > 0
  {
    (if n < 10 then "" else Decimal(n / 10)) + [Digit(n % 10)]
  }

  function DecimalInt(i: int): string {
    if i < 0 then "-" + Decimal(-i) else Decimal(i)
  }

  predicate IsDigit(c: char) { '0' <= c <= '9' }

  /** The number that a sequence of digits denotes, most significant first. */
  function FromDigits(s: string): int
    requires forall i :: 0 <= i < |s| ==> IsDigit(s[i])
  {
    if s == "" then 0 else FromDigits(s[..|s| - 1]) * 10 + (s[|s| - 1] as int - '0' as int)
  }

  /** A JSON integer: digits without a leading zero, possibly after a minus sign. */
  predicate IntegerText(s: string) {
    if s != "" && s[0] == '-' then DigitsText(s[1..]) && s[1] != '0' else DigitsText(s)
  }

  predicate DigitsText(s: string) {
    |s| > 0 && (forall i :: 0 <= i < |s| ==> IsDigit(s[i])) && (s[0] == '0' ==> |s| == 1)
  }

  function FromInteger(s: string): int
    requires IntegerText(s)
  {
    if s[0] == '-' then -FromDigits(s[1..]) else FromDigits(s)
  }

  lemma DigitsSnoc(s: string, d: nat)
    requires d < 10 && forall i :: 0 <= i < |s| ==> IsDigit(s[i])
    ensures FromDigits(s + [Digit(d)]) == FromDigits(s) * 10 + d
    ensures s == "" || (DigitsText(s) && s[0] != '0') ==> DigitsText(s + [Digit(d)])
  {
  }

  lemma {:induction false} DecimalRoundTrip(n: nat)
    ensures DigitsText(Decimal(n)) && FromDigits(Decimal(n)) == n
    ensures n > 0 ==> Decimal(n)[0] != '0'
    decreases n
  {
    if n < 10 {
      DigitsSnoc("", n);
      assert Decimal(n) == "" + [Digit(n)];
    } else {
      var q, d := n / 10, n % 10;
      DecimalRoundTrip(q);
      DigitsSnoc(Decimal(q), d);
      DecimalStep(n, q, d);
    }
  }

  lemma DecimalStep(n: nat, q: nat, d: nat)
    requires n >= 10 && q == n / 10 && d == n % 10
    ensures Decimal(n) == Decimal(q) + [Digit(d)] && n == q * 10 + d && q > 0
  {
  }

  /** Every integer is written as a JSON integer that denotes it. */
  lemma IntegerRoundTrip(i: int)
    ensures IntegerText(DecimalInt(i)) && FromInteger(DecimalInt(i)) == i
  {
    DecimalRoundTrip(if i < 0 then -i else i);
    if i < 0 { assert DecimalInt(i)[1..] == Decimal(-i); }
  }

  lemma {:induction false} DecimalLength(n: nat, k: nat, bound: nat)
    requires k > 0 && n < bound && bound == PowerOfTen(k)
    ensures |Decimal(n)| <= k
    decreases k
  {
    if n >= 10 { DecimalLength(n / 10, k - 1, PowerOfTen(k - 1)); }
  }

  function PowerOfTen(k: nat): (p: nat)
    ensures p > 0
  {
    if k == 0 then 1 else 10 * PowerOfTen(k - 1)
  }

  const BUFFER_SIZE := 32

  /** The digits still to be written, in front of those already in the buffer. */
  ghost function Pending(done: bool, v: nat): string { if done then "" else Decimal(v) }

  lemma PendingStep(v: nat, tail: string)
    ensures Pending(false, v) + tail == Pending(v / 10 == 0, v / 10) + ([Digit(v % 10)] + tail)
  {
    assert Decimal(v) == Pending(v / 10 == 0, v / 10) + [Digit(v % 10)];
  }

  /** Writes the terminator and then the digits from the right; `r` is where the text starts. */
  method UintToString(value: nat, buffer: array<char>, current: nat) returns (r: nat)
    requires value < 0x1_0000_0000 && 12 <= current <= buffer.Length
    modifies buffer
    ensures current - 11 <= r < current && buffer[r..current - 1] == Decimal(value) && buffer[current - 1] == '\0'
    ensures forall k :: 0 <= k < buffer.Length && !(r <= k < current) ==> buffer[k] == old(buffer[k])
  {
    assert PowerOfTen(10) == 10_000_000_000;
    DecimalLength(value, 10, 10_000_000_000);
    r := current - 1;
    buffer[r] := '\0';
    var v := value;
    var done := false;
    while !done
      invariant r < current && buffer[current - 1] == '\0'
      invariant Decimal(value) == Pending(done, v) + buffer[r..current - 1]
      invariant forall k :: 0 <= k < buffer.Length && !(r <= k < current) ==> buffer[k] == old(buffer[k])
      decreases !done, v
    {
      ghost var tail := buffer[r..current - 1];
      PendingStep(v, tail);
      r := r - 1;
      buffer[r] := Digit(v % 10);
      assert buffer[r..current - 1] == [Digit(v % 10)] + tail;
      v := v / 10;
      done := v == 0;
    }
  }

  /** The text of an unsigned 32-bit integer, read back from the buffer. */
  method UIntText(value: nat) returns (s: string)
    requires value < 0x1_0000_0000
    ensures s == Decimal(value)
  {
    var buffer := new char[BUFFER_SIZE];
    var current := UintToString(value, buffer, BUFFER_SIZE);
    s := buffer[current..BUFFER_SIZE - 1];
  }

  /** The text of a signed 32-bit integer above the smallest. */
  method IntText(value: int) returns (s: string)
    requires -0x8000_0000 < value < 0x8000_0000
    ensures s == DecimalInt(value)
  {
    var buffer := new char[BUFFER_SIZE];
    var current := UintToString(if value < 0 then -value else value, buffer, BUFFER_SIZE);
    ghost var digits := buffer[current..BUFFER_SIZE - 1];
    if value < 0 {
      current := current - 1;
      buffer[current] := '-';
      assert buffer[current..BUFFER_SIZE - 1] == ['-'] + digits;
    }
    s := buffer[current..BUFFER_SIZE - 1];
  }
}
