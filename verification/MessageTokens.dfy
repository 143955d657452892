/** `layeredMessageTokens`: what a counter is given of a message, and when key order cannot show in it. */
module MessageTokens {
  import opened Texts
  import opened Messages
  import opened Quoting
  import opened Canonical
  import opened CanonicalProof
  import opened Digests

  // -------------------------------------------------------------------- JSON.stringify

  /** `JSON.stringify`: keys in the order of the object, undefined fields skipped, what JSON lacks as null. */
  function Stringify(v: Json): Text
    decreases v, 0
  {
    match v
    case Null => NULL_TEXT
    case NonFinite => NULL_TEXT
    case Undefined => NULL_TEXT
    case Bool(b) => if b then TRUE_TEXT else FALSE_TEXT
    case Num(literal) => literal
    case Str(s) => Quote(s)
    case Arr(items) => [OPEN_LIST] + StringifyItems(items, true)
    case Obj(fields) => [OPEN_OBJECT] + StringifyFields(fields, true)
  }

  function StringifyItems(items: seq<Json>, first: bool): Text
    decreases items
  {
    if items == [] then [CLOSE_LIST]
    else (if first then [] else [COMMA]) + Stringify(items[0]) + StringifyItems(items[1..], false)
  }

  function StringifyFields(fields: seq<Field>, first: bool): Text
    decreases fields
  {
    if fields == [] then [CLOSE_OBJECT]
    else if fields[0].value == Undefined then StringifyFields(fields[1..], first)
    else
      (if first then [] else [COMMA]) + Quote(fields[0].key) + [COLON] + Stringify(fields[0].value)
      + StringifyFields(fields[1..], false)
  }

  // ------------------------------------------------------------------ the counted text

  const BREAK: CodeUnit := 10

  function InputText(input: Option<Json>): Text {
    if input.None? || input.value == Undefined then [] else Stringify(input.value)
  }

  function OrEmpty(t: Option<Text>): Text { if t.Some? then t.value else [] }

  function PartText(part: Part): Text {
    match part
    case TextPart(text) => text
    case ToolPart(tool, _, input, _, error, output) =>
      tool + [BREAK] + InputText(input) + [BREAK] + OrEmpty(output) + [BREAK] + OrEmpty(error)
  }

  /** The texts of the first `n` parts, joined by line breaks. */
  function PartTexts(parts: seq<Part>, n: nat): Text
    requires n <= |parts|
  {
    if n == 0 then []
    else PartTexts(parts, n - 1) + (if n == 1 then [] else [BREAK]) + PartText(parts[n - 1])
  }

  function MessageText(m: Message): Text { PartTexts(m.parts, |m.parts|) }

  /** The message counter that a text counter induces. */
  function TokensBy(count: Text -> nat): Message -> nat {
    m => count(MessageText(m))
  }

  // --------------------------------------------------------------- lengths ignore key order

  /** Units of the entries without their separators. */
  function EntryUnits(fields: seq<Field>): nat {
    if fields == [] then 0
    else (if fields[0].value == Undefined then 0 else |Quote(fields[0].key)| + 1 + |CanonicalJSON(fields[0].value)|) + EntryUnits(fields[1..])
  }

  function Defined(fields: seq<Field>): nat {
    if fields == [] then 0 else (if fields[0].value == Undefined then 0 else 1) + Defined(fields[1..])
  }

  /** Each entry but the first is preceded by a comma. */
  function Commas(entries: nat, first: bool): nat {
    if first && entries > 0 then entries - 1 else entries
  }

  lemma {:induction false} PlacedUnits(f: Field, sorted: seq<Field>)
    ensures EntryUnits(Place(f, sorted)) == EntryUnits([f]) + EntryUnits(sorted)
    ensures Defined(Place(f, sorted)) == Defined([f]) + Defined(sorted)
  {
    assert [f][1..] == [];
    if sorted == [] {
    } else if Less(f.key, sorted[0].key) {
      assert ([f] + sorted)[1..] == sorted;
    } else {
      PlacedUnits(f, sorted[1..]);
      assert ([sorted[0]] + Place(f, sorted[1..]))[1..] == Place(f, sorted[1..]);
    }
  }

  /** Sorting the entries keeps their units. */
  lemma {:induction false} SortedUnits(fields: seq<Field>)
    ensures EntryUnits(Entries(fields)) == EntryUnits(fields) && Defined(Entries(fields)) == Defined(fields)
  {
    if fields != [] {
      SortedUnits(fields[1..]);
      if fields[0].value != Undefined {
        PlacedUnits(fields[0], Entries(fields[1..]));
        assert [fields[0]][1..] == [];
      }
    }
  }

  lemma {:induction false} PrintedUnits(entries: seq<Field>, first: bool)
    requires forall f :: f in entries ==> f.value != Undefined
    ensures |PrintFields(entries, first)| == EntryUnits(entries) + Commas(Defined(entries), first) + 1
    decreases |entries|
  {
    if entries != [] {
      assert entries[0] in entries;
      PrintedUnits(entries[1..], false);
    }
  }

  /** On values JSON can express, `JSON.stringify` prints as many units as the canonical printer. */
  lemma {:induction false} StringifyLength(v: Json)
    requires Printable(v)
    ensures |Stringify(v)| == |CanonicalJSON(v)|
    decreases v, 0
  {
    match v
    case Arr(items) => ItemsLength(items, true);
    case Obj(fields) =>
      FieldsLength(fields, true);
      SortedUnits(fields);
      PrintedUnits(Entries(fields), true);
    case _ =>
  }

  lemma {:induction false} ItemsLength(items: seq<Json>, first: bool)
    requires forall i :: 0 <= i < |items| ==> Printable(items[i])
    ensures |StringifyItems(items, first)| == |PrintItems(items, first)|
    decreases items
  {
    if items != [] {
      StringifyLength(items[0]);
      ItemsLength(items[1..], false);
    }
  }

  lemma {:induction false} FieldsLength(fields: seq<Field>, first: bool)
    requires forall i :: 0 <= i < |fields| ==> fields[i].value == Undefined || Printable(fields[i].value)
    ensures |StringifyFields(fields, first)| == EntryUnits(fields) + Commas(Defined(fields), first) + 1
    decreases fields
  {
    if fields != [] {
      if fields[0].value == Undefined {
        FieldsLength(fields[1..], first);
      } else {
        StringifyLength(fields[0].value);
        FieldsLength(fields[1..], false);
      }
    }
  }

  lemma InputLength(a: Json, b: Json)
    requires Printable(a) && Printable(b) && Same(a, b)
    ensures |Stringify(a)| == |Stringify(b)|
  {
    StringifyLength(a);
    StringifyLength(b);
    SamePrints(a, b);
  }

  lemma PartLength(a: Part, b: Part)
    requires PartSound(a) && PartSound(b) && SamePartContent(a, b)
    ensures |PartText(a)| == |PartText(b)|
  {
    if a.ToolPart? && a.input.Some? {
      InputLength(a.input.value, b.input.value);
    }
  }

  lemma {:induction false} PartsLength(a: seq<Part>, b: seq<Part>, n: nat)
    requires n <= |a| == |b|
    requires forall p :: 0 <= p < |a| ==> PartSound(a[p]) && PartSound(b[p]) && SamePartContent(a[p], b[p])
    ensures |PartTexts(a, n)| == |PartTexts(b, n)|
  {
    if n > 0 {
      PartsLength(a, b, n - 1);
      PartLength(a[n - 1], b[n - 1]);
    }
  }

  /** Messages that differ only in the order of input keys have texts of one length, so the default counter agrees on them. */
  lemma EstimateIgnoresOrder(m: Message, n: Message)
    requires MessageSound(m) && MessageSound(n) && SameContent(m, n)
    ensures |MessageText(m)| == |MessageText(n)| && TokensBy(EstimateTokens)(m) == TokensBy(EstimateTokens)(n)
  {
    PartsLength(m.parts, n.parts, |m.parts|);
    assert EstimateTokens(MessageText(m)) == EstimateTokens(MessageText(n));
  }
}
