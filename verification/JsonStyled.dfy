/**
 StyledWriter: objects and long arrays go on several lines, one element each, indented by their depth;
 a short array of scalars goes on one line, written from texts collected beforehand.
 */
module JsonStyled {
  import opened Basics
  import opened JsonValue
  import opened JsonText
  import opened Arithmetic
  import opened JsonWriters

  const RIGHT_MARGIN := 74
  const INDENT_STEP := "   "

  // ---------- what the writer produces ----------

  /** The document with a new, indented line begun, unless it already ends in a blank. */
  function NewLine(doc: string, ind: string): string {
    if doc == "" then ind
    else if doc[|doc| - 1] == ' ' then doc
    else if doc[|doc| - 1] != '\n' then doc + "\n" + ind
    else doc + ind
  }

  predicate Good(es: seq<Entry>) { AllWritable(es) && AllFit(es) }

  /** Some element among the first n is itself a container with content. */
  predicate AnyNested(es: seq<Entry>, n: nat) { exists i | 0 <= i < n :: Nested(Get(es, Index(i))) }

  /** The line length after n elements, in 32-bit arithmetic. */
  function LineLength(f: Format, es: seq<Entry>, n: nat): int
    requires AllWritable(es) && n <= ArraySize(es)
  {
    if n == 0 then Int32(4 + (ArraySize(es) - 1) * 2)
    else Int32(LineLength(f, es, n - 1) + Int32(|Item(f, false, es, n - 1)|))
  }

  /** The array is judged not to fit on one line, by the elements that a signed loop bound reaches. */
  predicate Multiline(f: Format, es: seq<Entry>)
    requires AllWritable(es)
  {
    Int32(ArraySize(es) * 3) >= RIGHT_MARGIN || AnyNested(es, Count(es)) || LineLength(f, es, Count(es)) >= RIGHT_MARGIN
  }

  /** The document after a value is written at the given indentation. */
  function Styled(f: Format, doc: string, ind: string, v: Value): string
    requires Writable(v) && Fits(v)
    decreases Size(v), 0
  {
    if !Nested(v) then doc + FastText(f, false, v)
    else if v.Obj? then
      NewLine(StyledMembers(f, NewLine(doc, ind) + "{", ind + INDENT_STEP, v.entries, |v.entries|), ind) + "}"
    else if Multiline(f, v.entries) then
      NewLine(StyledItems(f, NewLine(doc, ind) + "[", ind + INDENT_STEP, v.entries, ArraySize(v.entries)), ind) + "]"
    else doc + "[ " + OneLine(f, v.entries, ArraySize(v.entries)) + " ]"
  }

  /** The first n members, each on its own line. */
  function StyledMembers(f: Format, doc: string, ind: string, es: seq<Entry>, n: nat): string
    requires Good(es) && n <= |es| && AllNamed(es)
    decreases Sizes(es), n + 1
  {
    if n == 0 then doc
    else StyledMember(f, StyledMembers(f, doc, ind, es, n - 1) + Comma(n - 1), ind, es, n - 1)
  }

  function StyledMember(f: Format, doc: string, ind: string, es: seq<Entry>, i: nat): string
    requires Good(es) && i < |es| && es[i].key.Name?
    decreases Sizes(es), 1
  {
    EntryAt(es, i);
    Styled(f, NewLine(doc, ind) + Quoted(es[i].key.s) + " : ", ind, es[i].value)
  }

  /** The first n elements, each on its own line. */
  function StyledItems(f: Format, doc: string, ind: string, es: seq<Entry>, n: nat): string
    requires Good(es) && n <= ArraySize(es)
    decreases Sizes(es), n + 1
  {
    if n == 0 then doc
    else StyledItem(f, StyledItems(f, doc, ind, es, n - 1) + Comma(n - 1), ind, es, n - 1)
  }

  function StyledItem(f: Format, doc: string, ind: string, es: seq<Entry>, i: nat): string
    requires Good(es) && i < ArraySize(es)
    decreases Sizes(es), 1
  {
    GetWritable(es, Index(i));
    Styled(f, NewLine(doc, ind), ind, Get(es, Index(i)))
  }

  /** The document when element or member `i` is about to be written. */
  function MembersBefore(f: Format, doc: string, ind: string, es: seq<Entry>, i: nat): string
    requires Good(es) && i <= |es| && AllNamed(es)
  {
    StyledMembers(f, doc, ind, es, i) + Comma(i)
  }

  function ItemsBefore(f: Format, doc: string, ind: string, es: seq<Entry>, i: nat): string
    requires Good(es) && i <= ArraySize(es)
  {
    StyledItems(f, doc, ind, es, i) + Comma(i)
  }

  lemma MembersStep(f: Format, doc: string, ind: string, es: seq<Entry>, i: nat)
    requires Good(es) && i < |es| && AllNamed(es)
    ensures StyledMember(f, MembersBefore(f, doc, ind, es, i), ind, es, i) == StyledMembers(f, doc, ind, es, i + 1)
    ensures StyledMembers(f, doc, ind, es, i + 1) + "," == MembersBefore(f, doc, ind, es, i + 1)
  {
  }

  lemma ItemsStep(f: Format, doc: string, ind: string, es: seq<Entry>, i: nat)
    requires Good(es) && i < ArraySize(es)
    ensures StyledItem(f, ItemsBefore(f, doc, ind, es, i), ind, es, i) == StyledItems(f, doc, ind, es, i + 1)
    ensures StyledItems(f, doc, ind, es, i + 1) + "," == ItemsBefore(f, doc, ind, es, i + 1)
  {
  }

  function OneLine(f: Format, es: seq<Entry>, n: nat): string
    requires AllWritable(es) && n <= ArraySize(es)
  {
    if n == 0 then "" else OneLine(f, es, n - 1) + (if n == 1 then "" else ", ") + Item(f, false, es, n - 1)
  }

  /** The texts collected for the first n elements. */
  ghost predicate Collected(f: Format, es: seq<Entry>, n: nat, texts: seq<string>)
    requires AllWritable(es) && n <= ArraySize(es)
  {
    |texts| == n && forall i :: 0 <= i < n ==> texts[i] == Item(f, false, es, i)
  }

  /** The same length without wrap-around. */
  function Width(f: Format, es: seq<Entry>, n: nat): (w: nat)
    requires AllWritable(es) && n <= ArraySize(es) && es != []
    ensures w >= 4 + (ArraySize(es) - 1) * 2
  {
    if n == 0 then 4 + (ArraySize(es) - 1) * 2 else Width(f, es, n - 1) + |Item(f, false, es, n - 1)|
  }

  lemma Int32Same(n: nat)
    requires n <= MAX_INT
    ensures Int32(n) == n
  {
  }

  /** The measured length is exact as long as 32 bits can hold it. */
  lemma {:induction false} LineLengthExact(f: Format, es: seq<Entry>, n: nat)
    requires AllWritable(es) && n <= ArraySize(es) && es != [] && Width(f, es, n) <= MAX_INT
    ensures LineLength(f, es, n) == Width(f, es, n)
    decreases n
  {
    Int32Same(Width(f, es, n));
    if n > 0 {
      Int32Same(|Item(f, false, es, n - 1)|);
      LineLengthExact(f, es, n - 1);
    }
  }

  lemma {:induction false} WidthIsLength(f: Format, es: seq<Entry>, n: nat)
    requires AllWritable(es) && 0 < n <= ArraySize(es)
    ensures |OneLine(f, es, n)| + 4 + 2 * (ArraySize(es) - n) == Width(f, es, n)
    decreases n
  {
    if n > 1 {
      WidthIsLength(f, es, n - 1);
    } else {
      assert OneLine(f, es, 0) == "";
    }
  }

  /** An array that stays on one line is narrower than the margin; one of flat elements is broken only for its length. */
  lemma OneLineFits(f: Format, es: seq<Entry>)
    requires AllWritable(es) && es != [] && |OneLine(f, es, ArraySize(es))| + 4 <= MAX_INT
    ensures !Multiline(f, es) ==> |"[ " + OneLine(f, es, ArraySize(es)) + " ]"| < RIGHT_MARGIN
    ensures Multiline(f, es) && !AnyNested(es, ArraySize(es)) ==>
      |"[ " + OneLine(f, es, ArraySize(es)) + " ]"| >= RIGHT_MARGIN || 3 * ArraySize(es) >= RIGHT_MARGIN
  {
    WidthIsLength(f, es, ArraySize(es));
    LineLengthExact(f, es, ArraySize(es));
    Int32Same(ArraySize(es));
    if ArraySize(es) * 3 <= MAX_INT { Int32Same(ArraySize(es) * 3); }
  }

  /** An array of 2^31 elements is judged to fit on one line: the signed size is negative, so no loop looks at an element. */
  lemma HugeIsOneLine(f: Format, es: seq<Entry>)
    requires AllWritable(es) && ArraySize(es) == MAX_INT + 1
    ensures Count(es) == 0 && !Multiline(f, es)
  {
  }

  /** Without a nested element among them all, the elements fit. */
  lemma FlatFit(es: seq<Entry>)
    requires SortedKeys(es, false) && IndicesFit(es) && !AnyNested(es, ArraySize(es))
    ensures AllFit(es)
  {
    forall i | 0 <= i < ArraySize(es) ensures Fits(Get(es, Index(i))) {
      assert !Nested(Get(es, Index(i)));
    }
    ItemsFitIff(es);
  }

  /** The document that `write` returns, or none when an assertion stops it. */
  function StyledDocument(f: Format, v: Value): Option<string>
    requires Writable(v)
  {
    if Fits(v) then Some(Styled(f, "", "", v) + "\n") else None
  }

  // ---------- the writer ----------

  class StyledWriter {
    const f: Format
    var document: string
    var childValues: seq<string>
    var addChildValues: bool
    var indentString: string

    constructor (f: Format)
      ensures this.f == f && document == "" && childValues == [] && !addChildValues && indentString == ""
    {
      this.f := f;
      document, childValues, addChildValues, indentString := "", [], false, "";
    }

    /** The whole document; none when the assertion on the collected texts fails on the way. */
    method Write(root: Value) returns (r: Option<string>)
      requires Writable(root)
      modifies this
      ensures r == StyledDocument(f, root)
      ensures r.Some? ==> document == r.value && indentString == ""
    {
      document, addChildValues, indentString := "", false, "";
      var ok := WriteValue(root);
      if !ok { return None; }
      document := document + "\n";
      r := Some(document);
    }

    method PushValue(value: string)
      modifies this`document, this`childValues
      ensures document == if addChildValues then old(document) else old(document) + value
      ensures childValues == if addChildValues then old(childValues) + [value] else old(childValues)
    {
      if addChildValues { childValues := childValues + [value]; } else { document := document + value; }
    }

    method WriteIndent()
      modifies this`document
      ensures document == NewLine(old(document), indentString)
    {
      if document != "" {
        var last := document[|document| - 1];
        if last == ' ' { return; }
        if last != '\n' { document := document + "\n"; }
      }
      document := document + indentString;
    }

    method WriteWithIndent(value: string)
      modifies this`document
      ensures document == NewLine(old(document), indentString) + value
    {
      WriteIndent();
      document := document + value;
    }

    method Indent()
      modifies this`indentString
      ensures indentString == old(indentString) + INDENT_STEP
    {
      indentString := indentString + INDENT_STEP;
    }

    method Unindent()
      requires |indentString| >= |INDENT_STEP|
      modifies this`indentString
      ensures indentString == old(indentString[..|indentString| - |INDENT_STEP|])
    {
      indentString := indentString[..|indentString| - |INDENT_STEP|];
    }

    /**
     Either collects the text of a flat value or writes any value into the document.  Here and below, a
     false answer means that the assertion on the collected texts has failed and the write is off.
     */
    method WriteValue(v: Value) returns (ok: bool)
      requires Writable(v) && (addChildValues ==> !Nested(v))
      modifies this
      ensures ok <==> Fits(v)
      ensures ok ==> indentString == old(indentString) && addChildValues == old(addChildValues)
      ensures old(addChildValues) ==>
        ok && document == old(document) && childValues == old(childValues) + [FastText(f, false, v)]
      ensures !old(addChildValues) && ok ==> document == Styled(f, old(document), indentString, v)
      decreases Size(v), 3
    {
      if v.Arr? {
        ok := WriteArrayValue(v);
      } else if v.Obj? {
        if v.entries == [] {
          assert FastText(f, false, v) == "{}";
          PushValue("{}");
          ok := true;
        } else {
          ok := WriteObjectValue(v);
        }
      } else {
        var text := ScalarText(f, v);
        PushValue(text);
        ok := true;
      }
    }

    method WriteObjectValue(v: Value) returns (ok: bool)
      requires Writable(v) && v.Obj? && Nested(v) && !addChildValues
      modifies this
      ensures ok <==> Fits(v)
      ensures ok ==> indentString == old(indentString) && !addChildValues
      ensures ok ==> document == Styled(f, old(document), indentString, v)
      decreases Size(v), 2
    {
      WriteWithIndent("{");
      Indent();
      ok := WriteMembers(v.entries);
      if !ok { return; }
      Unindent();
      WriteWithIndent("}");
    }

    method WriteMembers(es: seq<Entry>) returns (ok: bool)
      requires AllWritable(es) && SortedKeys(es, true) && es != [] && !addChildValues
      modifies this
      ensures ok <==> AllFit(es)
      ensures ok ==> indentString == old(indentString) && !addChildValues
      ensures ok ==> document == StyledMembers(f, old(document), indentString, es, |es|)
      decreases Sizes(es), 5
    {
      ghost var d, ind := document, indentString;
      var i := 0;
      while true
        invariant i < |es| && !addChildValues && indentString == ind
        invariant forall j :: 0 <= j < i ==> Fits(es[j].value)
        invariant AllFit(es) ==> document == MembersBefore(f, d, ind, es, i)
        decreases |es| - i
      {
        EntryAt(es, i);
        ok := WriteMember(es, i);
        if !ok { return; }
        if AllFit(es) { MembersStep(f, d, ind, es, i); }
        i := i + 1;
        if i == |es| { break; }
        document := document + ",";
      }
      AllFitFrom(es, 0);
    }

    method WriteMember(es: seq<Entry>, i: nat) returns (ok: bool)
      requires AllWritable(es) && SortedKeys(es, true) && i < |es| && !addChildValues
      modifies this
      ensures ok <==> Fits(es[i].value)
      ensures ok ==> indentString == old(indentString) && !addChildValues
      ensures AllFit(es) ==> document == StyledMember(f, old(document), indentString, es, i)
      decreases Sizes(es), 4
    {
      EntryAt(es, i);
      var name := ValueToQuotedString(es[i].key.s);
      WriteWithIndent(name);
      document := document + " : ";
      GetFinds(es, true, i);
      ok := WriteValue(Get(es, Name(es[i].key.s)));
    }

    method WriteArrayValue(v: Value) returns (ok: bool)
      requires Writable(v) && v.Arr? && (addChildValues ==> !Nested(v))
      modifies this
      ensures ok <==> Fits(v)
      ensures ok ==> indentString == old(indentString) && addChildValues == old(addChildValues)
      ensures old(addChildValues) ==>
        ok && document == old(document) && childValues == old(childValues) + [FastText(f, false, v)]
      ensures !old(addChildValues) && ok ==> document == Styled(f, old(document), indentString, v)
      decreases Size(v), 2
    {
      var es := v.entries;
      var size := ArraySize(es);
      if size == 0 {
        assert FastText(f, false, v) == "[]";
        PushValue("[]");
        ok := true;
      } else {
        var multi := IsMultilineArray(v);
        if multi {
          if size == MAX_INT + 1 { HugeIsOneLine(f, es); }
          ok := WriteLines(v);
        } else {
          ok := |childValues| == size;
          if !ok { return; }
          FlatFit(es);
          WriteOneLine(es);
        }
      }
    }

    /** One element a line, from the collected texts when there are any. */
    method WriteLines(v: Value) returns (ok: bool)
      requires Writable(v) && v.Arr? && Nested(v) && !addChildValues && ArraySize(v.entries) <= MAX_INT
      requires Multiline(f, v.entries)
      requires childValues != [] ==>
        Collected(f, v.entries, ArraySize(v.entries), childValues) && !AnyNested(v.entries, ArraySize(v.entries))
      modifies this
      ensures ok <==> Fits(v)
      ensures ok ==> indentString == old(indentString) && !addChildValues
      ensures ok ==> document == Styled(f, old(document), indentString, v)
      decreases Size(v), 1
    {
      WriteWithIndent("[");
      Indent();
      ok := WriteElements(v.entries, childValues != []);
      if !ok { return; }
      Unindent();
      WriteWithIndent("]");
    }

    method WriteElements(es: seq<Entry>, hasChildValue: bool) returns (ok: bool)
      requires AllWritable(es) && SortedKeys(es, false) && IndicesFit(es) && es != [] && !addChildValues
      requires hasChildValue ==> Collected(f, es, ArraySize(es), childValues) && !AnyNested(es, ArraySize(es))
      modifies this
      ensures ok <==> AllFit(es)
      ensures ok ==> indentString == old(indentString) && !addChildValues
      ensures ok ==> document == StyledItems(f, old(document), indentString, es, ArraySize(es))
      decreases Sizes(es), 5
    {
      ghost var d, ind := document, indentString;
      var index := 0;
      while true
        invariant index < ArraySize(es) && !addChildValues && indentString == ind
        invariant hasChildValue ==> childValues == old(childValues)
        invariant forall j :: 0 <= j < index ==> Fits(Get(es, Index(j)))
        invariant AllFit(es) ==> document == ItemsBefore(f, d, ind, es, index)
        decreases ArraySize(es) - index
      {
        GetWritable(es, Index(index));
        ok := WriteElement(es, index, hasChildValue);
        if !ok { return; }
        if AllFit(es) { ItemsStep(f, d, ind, es, index); }
        index := index + 1;
        if index == ArraySize(es) { break; }
        document := document + ",";
      }
      ItemsFitIff(es);
    }

    method WriteElement(es: seq<Entry>, index: nat, hasChildValue: bool) returns (ok: bool)
      requires AllWritable(es) && index < ArraySize(es) && !addChildValues
      requires hasChildValue ==> Collected(f, es, ArraySize(es), childValues) && !AnyNested(es, ArraySize(es))
      modifies this
      ensures ok <==> Fits(Get(es, Index(index)))
      ensures ok ==> indentString == old(indentString) && !addChildValues
      ensures hasChildValue ==> childValues == old(childValues)
      ensures AllFit(es) ==> document == StyledItem(f, old(document), indentString, es, index)
      decreases Sizes(es), 4
    {
      GetWritable(es, Index(index));
      if hasChildValue {
        WriteWithIndent(childValues[index]);
        ok := true;
      } else {
        WriteIndent();
        ok := WriteValue(Get(es, Index(index)));
      }
    }

    method WriteOneLine(es: seq<Entry>)
      requires AllWritable(es) && Collected(f, es, ArraySize(es), childValues)
      modifies this`document
      ensures document == old(document) + "[ " + OneLine(f, es, ArraySize(es)) + " ]"
    {
      ghost var d := document + "[ ";
      document := document + "[ ";
      for index := 0 to ArraySize(es)
        invariant document == d + OneLine(f, es, index)
      {
        if index > 0 { document := document + ", "; }
        document := document + childValues[index];
      }
      document := document + " ]";
    }

    /** Decides the layout; when no element looked at is a container with content, also collects their texts. */
    method IsMultilineArray(v: Value) returns (multi: bool)
      requires Writable(v) && v.Arr? && Nested(v) && !addChildValues
      modifies this
      ensures document == old(document) && indentString == old(indentString) && !addChildValues
      ensures multi == Multiline(f, v.entries)
      ensures !multi || childValues != [] ==> Collected(f, v.entries, Count(v.entries), childValues)
      ensures childValues != [] ==> !AnyNested(v.entries, Count(v.entries))
      decreases Size(v), 1
    {
      var es := v.entries;
      var size := Int32(ArraySize(es));
      multi := Int32(size * 3) >= RIGHT_MARGIN;
      childValues := [];
      var index := 0;
      ghost var wide := multi;
      while index < size && !multi
        invariant 0 <= index <= Count(es)
        invariant multi <==> wide || AnyNested(es, index)
      {
        var child := Get(es, Index(index));
        multi := multi || Nested(child);
        index := index + 1;
      }
      if !multi {
        var length := MeasureLine(v);
        multi := length >= RIGHT_MARGIN;
      }
    }

    /** Collects the texts of the elements and adds up the length of the line they make. */
    method MeasureLine(v: Value) returns (length: int)
      requires Writable(v) && v.Arr? && Nested(v) && !addChildValues && childValues == []
      requires !AnyNested(v.entries, Count(v.entries))
      modifies this
      ensures document == old(document) && indentString == old(indentString) && !addChildValues
      ensures Collected(f, v.entries, Count(v.entries), childValues)
      ensures length == LineLength(f, v.entries, Count(v.entries))
      decreases Size(v), 0
    {
      var es := v.entries;
      var size := Int32(ArraySize(es));
      addChildValues := true;
      length := Int32(4 + (size - 1) * 2);
      var index := 0;
      while index < size
        invariant 0 <= index <= Count(es)
        invariant document == old(document) && indentString == old(indentString) && addChildValues
        invariant Collected(f, es, index, childValues)
        invariant length == LineLength(f, es, index)
      {
        GetWritable(es, Index(index));
        var ok := WriteValue(Get(es, Index(index)));
        length := Int32(length + Int32(|childValues[index]|));
        index := index + 1;
      }
      addChildValues := false;
    }
  }
}
