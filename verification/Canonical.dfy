/** `canonicalJSON`: sorted keys, undefined-valued keys dropped, and the proof that the text identifies the value. */
module Canonical {
  import opened Texts
  import opened Messages
  import opened Quoting

  const COMMA: CodeUnit := 44
  const COLON: CodeUnit := 58
  const OPEN_LIST: CodeUnit := 91
  const CLOSE_LIST: CodeUnit := 93
  const OPEN_OBJECT: CodeUnit := 123
  const CLOSE_OBJECT: CodeUnit := 125
  const NULL_TEXT: Text := [110, 117, 108, 108]
  const TRUE_TEXT: Text := [116, 114, 117, 101]
  const FALSE_TEXT: Text := [102, 97, 108, 115, 101]
  const UNDEFINED_TEXT: Text := [117, 110, 100, 101, 102, 105, 110, 101, 100]

  // -------------------------------------------------------------- order of keys

  /** `a < b` on JavaScript strings: by code units. */
  predicate Less(a: Text, b: Text) {
    b != [] && (a == [] || a[0] < b[0] || (a[0] == b[0] && Less(a[1..], b[1..])))
  }

  lemma {:induction false} LessTotal(a: Text, b: Text)
    ensures Less(a, b) || a == b || Less(b, a)
    ensures !(Less(a, b) && Less(b, a)) && !Less(a, a)
    decreases |a|
  {
    if a != [] && b != [] && a[0] == b[0] {
      LessTotal(a[1..], b[1..]);
      LessTotal(a[1..], a[1..]);
      assert a == [a[0]] + a[1..] && b == [b[0]] + b[1..];
    } else if a != [] {
      LessTotal(a[1..], a[1..]);
    }
  }

  lemma {:induction false} LessTransitive(a: Text, b: Text, c: Text)
    requires Less(a, b) && Less(b, c)
    ensures Less(a, c)
    decreases |a|
  {
    if a != [] && a[0] == b[0] == c[0] {
      LessTransitive(a[1..], b[1..], c[1..]);
    }
  }

  // ------------------------------------------------------------- sorted entries

  function Weight(v: Json): nat
    decreases v, 0
  {
    match v
    case Arr(items) => 1 + ItemsWeight(items)
    case Obj(fields) => 1 + FieldsWeight(fields)
    case _ => 1
  }

  function ItemsWeight(items: seq<Json>): nat
    decreases items, 1
  {
    if items == [] then 0 else 1 + Weight(items[0]) + ItemsWeight(items[1..])
  }

  function FieldsWeight(fields: seq<Field>): nat
    decreases fields, 1
  {
    if fields == [] then 0 else 1 + Weight(fields[0].value) + FieldsWeight(fields[1..])
  }

  ghost predicate KeysDistinct(fields: seq<Field>) {
    forall i, j :: 0 <= i < j < |fields| ==> fields[i].key != fields[j].key
  }

  ghost predicate StrictlySorted(fields: seq<Field>) {
    forall i, j :: 0 <= i < j < |fields| ==> Less(fields[i].key, fields[j].key)
  }

  function Place(f: Field, sorted: seq<Field>): (r: seq<Field>)
    ensures FieldsWeight(r) == FieldsWeight(sorted) + 1 + Weight(f.value)
    ensures |r| == |sorted| + 1
    ensures forall x :: x in r <==> x == f || x in sorted
  {
    if sorted == [] then [f]
    else if Less(f.key, sorted[0].key) then
      assert ([f] + sorted)[1..] == sorted;
      [f] + sorted
    else
      var rest := Place(f, sorted[1..]);
      assert ([sorted[0]] + rest)[1..] == rest;
      [sorted[0]] + rest
  }

  /** The defined entries, sorted by key. */
  function Entries(fields: seq<Field>): (r: seq<Field>)
    ensures FieldsWeight(r) <= FieldsWeight(fields)
    ensures forall x :: x in r <==> x in fields && x.value != Undefined
  {
    if fields == [] then []
    else
      var rest := Entries(fields[1..]);
      assert fields == [fields[0]] + fields[1..];
      if fields[0].value == Undefined then rest else Place(fields[0], rest)
  }

  lemma {:induction false} PlaceSorted(f: Field, sorted: seq<Field>)
    requires StrictlySorted(sorted) && forall x :: x in sorted ==> x.key != f.key
    ensures StrictlySorted(Place(f, sorted))
  {
    if sorted != [] {
      LessTotal(f.key, sorted[0].key);
      if Less(f.key, sorted[0].key) {
        forall j | 0 <= j < |sorted|
          ensures Less(f.key, sorted[j].key)
        {
          if j > 0 {
            LessTransitive(f.key, sorted[0].key, sorted[j].key);
          }
        }
      } else {
        PlaceSorted(f, sorted[1..]);
        var rest := Place(f, sorted[1..]);
        assert sorted[0] in sorted;
        forall j | 0 <= j < |rest|
          ensures Less(sorted[0].key, rest[j].key)
        {
          assert rest[j] in rest;
          if rest[j] != f {
            var k :| 0 <= k < |sorted[1..]| && sorted[1..][k] == rest[j];
            assert Less(sorted[0].key, sorted[k + 1].key);
          }
        }
      }
    }
  }

  lemma {:induction false} EntriesSorted(fields: seq<Field>)
    requires KeysDistinct(fields)
    ensures StrictlySorted(Entries(fields))
  {
    if fields != [] {
      EntriesSorted(fields[1..]);
      var rest := Entries(fields[1..]);
      forall x | x in rest
        ensures x.key != fields[0].key
      {
        var k :| 0 <= k < |fields[1..]| && fields[1..][k] == x;
        assert fields[k + 1] == x;
      }
      if fields[0].value != Undefined {
        PlaceSorted(fields[0], rest);
      }
    }
  }

  // ------------------------------------------------------------------- printing

  function CanonicalJSON(v: Json): Text
    decreases Weight(v), 0
  {
    match v
    case Null => NULL_TEXT
    case NonFinite => NULL_TEXT
    case Bool(b) => if b then TRUE_TEXT else FALSE_TEXT
    case Num(literal) => literal
    case Str(s) => Quote(s)
    case Undefined => Quote(UNDEFINED_TEXT)
    case Arr(items) => [OPEN_LIST] + PrintItems(items, true)
    case Obj(fields) => [OPEN_OBJECT] + PrintFields(Entries(fields), true)
  }

  /** The rest of a list: items separated by commas, and the closing bracket. */
  function PrintItems(items: seq<Json>, first: bool): Text
    decreases ItemsWeight(items), 1
  {
    if items == [] then [CLOSE_LIST]
    else (if first then [] else [COMMA]) + CanonicalJSON(items[0]) + PrintItems(items[1..], false)
  }

  function PrintFields(entries: seq<Field>, first: bool): Text
    decreases FieldsWeight(entries), 1
  {
    if entries == [] then [CLOSE_OBJECT]
    else
      (if first then [] else [COMMA]) + Quote(entries[0].key) + [COLON] + CanonicalJSON(entries[0].value)
      + PrintFields(entries[1..], false)
  }

  // --------------------------------------------------------------- the grammar of JSON

  /** Texts with a comma between any two. */
  function Separated(parts: seq<Text>): Text {
    if parts == [] then []
    else if |parts| == 1 then parts[0]
    else Separated(parts[..|parts| - 1]) + Ascii(",") + parts[|parts| - 1]
  }

  lemma {:induction false} SeparatedFirst(first: Text, rest: seq<Text>)
    requires rest != []
    ensures Separated([first] + rest) == first + Ascii(",") + Separated(rest)
  {
    var all := [first] + rest;
    if |rest| == 1 {
      assert all[..1] == [first];
    } else {
      SeparatedFirst(first, rest[..|rest| - 1]);
      assert all[..|all| - 1] == [first] + rest[..|rest| - 1];
    }
  }

  function ItemTexts(items: seq<Json>): seq<Text> {
    seq(|items|, i requires 0 <= i < |items| => CanonicalJSON(items[i]))
  }

  function MemberText(field: Field): Text {
    Ascii("\"") + Escape(field.key) + Ascii("\":") + CanonicalJSON(field.value)
  }

  function MemberTexts(entries: seq<Field>): seq<Text> {
    seq(|entries|, i requires 0 <= i < |entries| => MemberText(entries[i]))
  }

  /** One more text in front of a list that is printed up to its closing bracket. */
  lemma SeparatedStep(lead: Text, first: Text, rest: seq<Text>, close: Text, printed: Text)
    requires printed == (if rest == [] then [] else Ascii(",")) + Separated(rest) + close
    ensures lead + first + printed == lead + Separated([first] + rest) + close
  {
    if rest == [] {
      assert [first] + rest == [first];
      assert lead + first + printed == lead + first + close;
    } else {
      SeparatedFirst(first, rest);
      assert lead + first + (Ascii(",") + Separated(rest) + close) == lead + (first + Ascii(",") + Separated(rest)) + close;
    }
  }

  lemma {:induction false} ItemsSeparated(items: seq<Json>, first: bool)
    ensures PrintItems(items, first) == (if first || items == [] then [] else Ascii(",")) + Separated(ItemTexts(items)) + Ascii("]")
  {
    assert Ascii(",") == [44] && Ascii("]") == [93];
    if items != [] {
      var lead := if first then [] else Ascii(",");
      ItemsSeparated(items[1..], false);
      assert ItemTexts(items) == [CanonicalJSON(items[0])] + ItemTexts(items[1..]);
      SeparatedStep(lead, CanonicalJSON(items[0]), ItemTexts(items[1..]), Ascii("]"), PrintItems(items[1..], false));
    }
  }

  lemma {:induction false} MembersSeparated(entries: seq<Field>, first: bool)
    ensures PrintFields(entries, first) ==
            (if first || entries == [] then [] else Ascii(",")) + Separated(MemberTexts(entries)) + Ascii("}")
  {
    assert Ascii(",") == [44] && Ascii("}") == [125];
    if entries != [] {
      var lead := if first then [] else Ascii(",");
      MembersSeparated(entries[1..], false);
      assert MemberTexts(entries) == [MemberText(entries[0])] + MemberTexts(entries[1..]);
      SeparatedStep(lead, MemberText(entries[0]), MemberTexts(entries[1..]), Ascii("}"), PrintFields(entries[1..], false));
      MemberFirst(lead, entries[0], PrintFields(entries[1..], false));
    }
  }

  lemma MemberFirst(lead: Text, field: Field, rest: Text)
    ensures lead + Quote(field.key) + [COLON] + CanonicalJSON(field.value) + rest == lead + MemberText(field) + rest
  {
    assert Ascii("\"") == [34] && Ascii("\":") == [34, 58];
    assert Quote(field.key) + [COLON] + CanonicalJSON(field.value) == MemberText(field);
    assert lead + Quote(field.key) + [COLON] + CanonicalJSON(field.value)
        == lead + (Quote(field.key) + [COLON] + CanonicalJSON(field.value));
  }

  /** A list or an object: its parts in their order, an object's by key, with commas between them. */
  lemma PrintsJson(v: Json)
    ensures v.Arr? ==> CanonicalJSON(v) == Ascii("[") + Separated(ItemTexts(v.items)) + Ascii("]")
    ensures v.Obj? ==> CanonicalJSON(v) == Ascii("{") + Separated(MemberTexts(Entries(v.fields))) + Ascii("}")
  {
    assert Ascii("[") == [91] && Ascii("{") == [123];
    if v.Arr? {
      ItemsSeparated(v.items, true);
      assert [] + Separated(ItemTexts(v.items)) == Separated(ItemTexts(v.items));
    } else if v.Obj? {
      MembersSeparated(Entries(v.fields), true);
      assert [] + Separated(MemberTexts(Entries(v.fields))) == Separated(MemberTexts(Entries(v.fields)));
    }
  }

  /** Anything else: a literal, a number, a quoted string; undefined prints like the string. */
  lemma PrintsScalar(v: Json)
    ensures v == Null || v == NonFinite ==> CanonicalJSON(v) == Ascii("null")
    ensures v.Bool? ==> CanonicalJSON(v) == if v.b then Ascii("true") else Ascii("false")
    ensures v.Num? ==> CanonicalJSON(v) == v.literal
    ensures v.Str? ==> CanonicalJSON(v) == Ascii("\"") + Escape(v.s) + Ascii("\"")
    ensures v == Undefined ==> CanonicalJSON(v) == Ascii("\"") + Ascii("undefined") + Ascii("\"")
  {
    assert Ascii("\"") == [34];
    match v
    case Null => assert Ascii("null") == NULL_TEXT;
    case NonFinite => assert Ascii("null") == NULL_TEXT;
    case Bool(b) => assert Ascii("true") == TRUE_TEXT && Ascii("false") == FALSE_TEXT;
    case Undefined =>
      assert Ascii("undefined") == UNDEFINED_TEXT;
      PlainEscape(UNDEFINED_TEXT);
    case _ =>
  }

  /** Text without quotes, backslashes, controls and surrogates is printed as it is. */
  lemma {:induction false} PlainEscape(s: Text)
    requires forall u :: u in s ==> 35 <= u < 92 || 92 < u < 0xD800
    ensures Escape(s) == s
  {
    if s != [] {
      assert s[0] in s && forall u :: u in s[1..] ==> u in s;
      PlainEscape(s[1..]);
      assert s == [s[0]] + s[1..];
    }
  }

  // ------------------------------------------------------------------- equality

  predicate NumberUnit(u: CodeUnit) {
    48 <= u <= 57 || u == 43 || u == 45 || u == 46 || u == 69 || u == 101
  }

  /** The shape of every text that prints a finite JavaScript number. */
  predicate NumberText(t: Text) {
    t != [] && (48 <= t[0] <= 57 || t[0] == 45) && forall i :: 0 <= i < |t| ==> NumberUnit(t[i])
  }

  /** What any JavaScript value satisfies: object keys are distinct, numbers print as numbers. */
  ghost predicate WellFormed(v: Json) {
    match v
    case Num(literal) => NumberText(literal)
    case Arr(items) => forall i :: 0 <= i < |items| ==> WellFormed(items[i])
    case Obj(fields) => KeysDistinct(fields) && forall i :: 0 <= i < |fields| ==> WellFormed(fields[i].value)
    case _ => true
  }

  /** No undefined outside object fields and no non-finite number: the values JSON can express. */
  ghost predicate Plain(v: Json) {
    match v
    case Undefined => false
    case NonFinite => false
    case Arr(items) => forall i :: 0 <= i < |items| ==> Plain(items[i])
    case Obj(fields) => forall i :: 0 <= i < |fields| ==> fields[i].value == Undefined || Plain(fields[i].value)
    case _ => true
  }

  /** Field `i` of `a` has an equal partner in `b`. */
  ghost predicate Matched(a: seq<Field>, b: seq<Field>, i: nat)
    requires i < |a|
    decreases a, 0
  {
    exists j :: 0 <= j < |b| && b[j].key == a[i].key && b[j].value != Undefined && Same(a[i].value, b[j].value)
  }

  /** Equality up to the order of object keys and to undefined-valued keys. */
  ghost predicate Same(a: Json, b: Json)
    decreases a
  {
    match (a, b)
    case (Arr(x), Arr(y)) => |x| == |y| && forall i :: 0 <= i < |x| ==> Same(x[i], y[i])
    case (Obj(x), Obj(y)) =>
      && (forall i :: 0 <= i < |x| && x[i].value != Undefined ==> Matched(x, y, i))
      && (forall j :: 0 <= j < |y| && y[j].value != Undefined ==> HasKey(x, y[j].key))
    case _ => a == b
  }

  ghost predicate HasKey(fields: seq<Field>, key: Text) {
    exists i :: 0 <= i < |fields| && fields[i].key == key && fields[i].value != Undefined
  }
}
