/** The canonical text identifies the value: equal texts exactly for equal values. */
module CanonicalProof {
  import opened Texts
  import opened Messages
  import opened Quoting
  import opened Canonical

  /** What may follow a value inside a larger canonical text. */
  predicate Ends(r: Text) {
    r == [] || r[0] == COMMA || r[0] == CLOSE_LIST || r[0] == CLOSE_OBJECT
  }

  datatype Kind = NullKind | TrueKind | FalseKind | NumberKind | StringKind | ListKind | ObjectKind

  function KindOf(v: Json): Kind {
    match v
    case Null => NullKind
    case NonFinite => NullKind
    case Bool(b) => if b then TrueKind else FalseKind
    case Num(_) => NumberKind
    case Str(_) => StringKind
    case Undefined => StringKind
    case Arr(_) => ListKind
    case Obj(_) => ObjectKind
  }

  function KindAt(u: CodeUnit): Kind {
    if u == 110 then NullKind else if u == 116 then TrueKind else if u == 102 then FalseKind
    else if u == QUOTE then StringKind else if u == OPEN_LIST then ListKind
    else if u == OPEN_OBJECT then ObjectKind else NumberKind
  }

  /** The first code unit of a printed value tells its kind and never closes or separates. */
  lemma FirstUnitTells(v: Json)
    requires WellFormed(v)
    ensures CanonicalJSON(v) != [] && KindAt(CanonicalJSON(v)[0]) == KindOf(v)
    ensures CanonicalJSON(v)[0] !in {COMMA, CLOSE_LIST, CLOSE_OBJECT}
  {
  }

  lemma SameKind(a: Json, b: Json, r: Text, s: Text)
    requires WellFormed(a) && WellFormed(b)
    requires CanonicalJSON(a) + r == CanonicalJSON(b) + s
    ensures KindOf(a) == KindOf(b)
  {
    FirstUnitTells(a);
    FirstUnitTells(b);
    assert CanonicalJSON(a)[0] == (CanonicalJSON(a) + r)[0];
    assert CanonicalJSON(b)[0] == (CanonicalJSON(b) + s)[0];
  }

  lemma PrefixLength(a: Text, b: Text, r: Text, s: Text)
    requires a + r == b + s && |a| == |b|
    ensures a == b && r == s
  {
    assert a == (a + r)[..|a|] && b == (b + s)[..|b|];
    assert r == (a + r)[|a|..] && s == (b + s)[|b|..];
  }

  lemma NotShorter(a: Text, b: Text, r: Text, s: Text)
    requires NumberText(b) && Ends(r) && a + r == b + s
    ensures |a| >= |b|
  {
    var t := a + r;
    assert forall i :: 0 <= i < |b| ==> NumberUnit(t[i]) by {
      assert forall i :: 0 <= i < |b| ==> t[i] == b[i];
    }
    assert r != [] ==> t[|a|] == r[0];
  }

  lemma NumberUnique(a: Text, b: Text, r: Text, s: Text)
    requires NumberText(a) && NumberText(b) && Ends(r) && Ends(s)
    requires a + r == b + s
    ensures a == b && r == s
  {
    NotShorter(a, b, r, s);
    NotShorter(b, a, s, r);
    PrefixLength(a, b, r, s);
  }

  lemma DropHead(u: CodeUnit, a: Text, b: Text, r: Text, s: Text)
    requires ([u] + a) + r == ([u] + b) + s
    ensures a + r == b + s
  {
    assert (([u] + a) + r)[1..] == a + r;
    assert (([u] + b) + s)[1..] == b + s;
  }

  lemma PrintItemsStarts(items: seq<Json>, r: Text)
    ensures Ends(PrintItems(items, false) + r)
  {
  }

  lemma PrintFieldsStarts(entries: seq<Field>, r: Text)
    ensures Ends(PrintFields(entries, false) + r)
  {
  }

  ghost predicate Printable(v: Json) {
    WellFormed(v) && Plain(v)
  }

  ghost predicate SameItems(x: seq<Json>, y: seq<Json>) {
    |x| == |y| && forall i :: 0 <= i < |x| ==> Same(x[i], y[i])
  }

  ghost predicate SameEntries(x: seq<Field>, y: seq<Field>) {
    |x| == |y| && forall i :: 0 <= i < |x| ==> x[i].key == y[i].key && Same(x[i].value, y[i].value)
  }

  /** A printed value can be cut off the text that starts with it, and identifies the value. */
  lemma {:induction false} Unique(a: Json, b: Json, r: Text, s: Text)
    requires Printable(a) && Printable(b) && Ends(r) && Ends(s)
    requires CanonicalJSON(a) + r == CanonicalJSON(b) + s
    ensures r == s && Same(a, b)
    decreases Weight(a), 0
  {
    SameKind(a, b, r, s);
    match a
    case Null => PrefixLength(CanonicalJSON(a), CanonicalJSON(b), r, s);
    case Bool(_) => PrefixLength(CanonicalJSON(a), CanonicalJSON(b), r, s);
    case Num(x) => NumberUnique(x, b.literal, r, s);
    case Str(x) => QuoteUnique(x, b.s, r, s);
    case Arr(x) =>
      DropHead(OPEN_LIST, PrintItems(x, true), PrintItems(b.items, true), r, s);
      UniqueItems(x, b.items, true, r, s);
    case Obj(x) =>
      DropHead(OPEN_OBJECT, PrintFields(Entries(x), true), PrintFields(Entries(b.fields), true), r, s);
      UniqueFields(Entries(x), Entries(b.fields), true, r, s);
      EntriesImplySame(x, b.fields);
  }

  lemma {:induction false} UniqueItems(x: seq<Json>, y: seq<Json>, first: bool, r: Text, s: Text)
    requires (forall i :: 0 <= i < |x| ==> Printable(x[i])) && (forall i :: 0 <= i < |y| ==> Printable(y[i]))
    requires PrintItems(x, first) + r == PrintItems(y, first) + s
    ensures r == s && SameItems(x, y)
    decreases ItemsWeight(x), 1
  {
    ClosesList(x, first, r);
    ClosesList(y, first, s);
    if x == [] {
      PrefixLength([CLOSE_LIST], [CLOSE_LIST], r, s);
    } else {
      ItemsSplit(x, first, r);
      ItemsSplit(y, first, s);
      PrefixLength(Separator(first), Separator(first), CanonicalJSON(x[0]) + (PrintItems(x[1..], false) + r),
                   CanonicalJSON(y[0]) + (PrintItems(y[1..], false) + s));
      PrintItemsStarts(x[1..], r);
      PrintItemsStarts(y[1..], s);
      Unique(x[0], y[0], PrintItems(x[1..], false) + r, PrintItems(y[1..], false) + s);
      UniqueItems(x[1..], y[1..], false, r, s);
      assert x == [x[0]] + x[1..] && y == [y[0]] + y[1..];
    }
  }

  lemma ClosesList(x: seq<Json>, first: bool, r: Text)
    requires forall i :: 0 <= i < |x| ==> Printable(x[i])
    ensures PrintItems(x, first) + r != []
    ensures (PrintItems(x, first) + r)[0] == CLOSE_LIST <==> x == []
  {
    if x != [] {
      FirstUnitTells(x[0]);
    }
  }

  lemma ClosesObject(x: seq<Field>, first: bool, r: Text)
    ensures PrintFields(x, first) + r != []
    ensures (PrintFields(x, first) + r)[0] == CLOSE_OBJECT <==> x == []
  {
    if x != [] {
      FieldsSplit(x, first, r);
    }
  }

  function Separator(first: bool): Text {
    if first then [] else [COMMA]
  }

  lemma ItemsSplit(x: seq<Json>, first: bool, r: Text)
    requires x != []
    ensures PrintItems(x, first) + r == Separator(first) + (CanonicalJSON(x[0]) + (PrintItems(x[1..], false) + r))
  {
    Reassociate(Separator(first), CanonicalJSON(x[0]), PrintItems(x[1..], false), r);
  }

  lemma Reassociate(a: Text, b: Text, c: Text, d: Text)
    ensures a + b + c + d == a + (b + (c + d))
  {
  }

  lemma FieldsSplit(x: seq<Field>, first: bool, r: Text)
    requires x != []
    ensures PrintFields(x, first) + r
         == Separator(first) + (Quote(x[0].key) + ([COLON] + (CanonicalJSON(x[0].value) + (PrintFields(x[1..], false) + r))))
  {
    Reassociate5(Separator(first), Quote(x[0].key), [COLON], CanonicalJSON(x[0].value), PrintFields(x[1..], false), r);
  }

  lemma Reassociate5(a: Text, b: Text, c: Text, d: Text, e: Text, f: Text)
    ensures a + b + c + d + e + f == a + (b + (c + (d + (e + f))))
  {
  }

  lemma {:induction false} UniqueFields(x: seq<Field>, y: seq<Field>, first: bool, r: Text, s: Text)
    requires (forall i :: 0 <= i < |x| ==> Printable(x[i].value)) && (forall i :: 0 <= i < |y| ==> Printable(y[i].value))
    requires PrintFields(x, first) + r == PrintFields(y, first) + s
    ensures r == s && SameEntries(x, y)
    decreases FieldsWeight(x), 1
  {
    ClosesObject(x, first, r);
    ClosesObject(y, first, s);
    if x == [] {
      PrefixLength([CLOSE_OBJECT], [CLOSE_OBJECT], r, s);
    } else {
      FieldsSplit(x, first, r);
      FieldsSplit(y, first, s);
      KeyUnique(x[0].key, y[0].key, first, CanonicalJSON(x[0].value) + (PrintFields(x[1..], false) + r),
                CanonicalJSON(y[0].value) + (PrintFields(y[1..], false) + s));
      PrintFieldsStarts(x[1..], r);
      PrintFieldsStarts(y[1..], s);
      Unique(x[0].value, y[0].value, PrintFields(x[1..], false) + r, PrintFields(y[1..], false) + s);
      UniqueFields(x[1..], y[1..], false, r, s);
      assert x == [x[0]] + x[1..] && y == [y[0]] + y[1..];
    }
  }

  lemma KeyUnique(x: Text, y: Text, first: bool, restX: Text, restY: Text)
    requires Separator(first) + (Quote(x) + ([COLON] + restX)) == Separator(first) + (Quote(y) + ([COLON] + restY))
    ensures x == y && restX == restY
  {
    PrefixLength(Separator(first), Separator(first), Quote(x) + ([COLON] + restX), Quote(y) + ([COLON] + restY));
    QuoteUnique(x, y, [COLON] + restX, [COLON] + restY);
    PrefixLength([COLON], [COLON], restX, restY);
  }

  /** Equal sorted entries make equal objects. */
  lemma EntriesImplySame(x: seq<Field>, y: seq<Field>)
    requires SameEntries(Entries(x), Entries(y))
    ensures Same(Obj(x), Obj(y))
  {
    var p, q := Entries(x), Entries(y);
    forall i | 0 <= i < |x| && x[i].value != Undefined
      ensures Matched(x, y, i)
    {
      assert x[i] in p;
      var k :| 0 <= k < |p| && p[k] == x[i];
      assert q[k] in q;
      var j :| 0 <= j < |y| && y[j] == q[k];
    }
    forall j | 0 <= j < |y| && y[j].value != Undefined
      ensures HasKey(x, y[j].key)
    {
      assert y[j] in q;
      var k :| 0 <= k < |q| && q[k] == y[j];
      assert p[k] in p;
      var i :| 0 <= i < |x| && x[i] == p[k];
    }
  }

  // ------------------------------------------------------- equal values print alike

  function Keys(x: seq<Field>): (r: set<Text>)
    ensures forall k :: k in r <==> exists f :: f in x && f.key == k
  {
    if x == [] then {}
    else
      assert x == [x[0]] + x[1..];
      {x[0].key} + Keys(x[1..])
  }

  /** The first key of a sorted list is its least. */
  lemma FirstIsLeast(x: seq<Field>, k: Text)
    requires x != [] && StrictlySorted(x) && k in Keys(x)
    ensures k == x[0].key || Less(x[0].key, k)
    ensures x[0].key !in Keys(x[1..])
  {
    var f :| f in x && f.key == k;
    var i :| 0 <= i < |x| && x[i] == f;
    if x[0].key in Keys(x[1..]) {
      var g :| g in x[1..] && g.key == x[0].key;
      var j :| 0 <= j < |x[1..]| && x[1..][j] == g;
      LessTotal(x[0].key, x[j + 1].key);
    }
  }

  lemma NoKeys(x: seq<Field>)
    ensures Keys(x) == {} <==> x == []
  {
    if x != [] {
      assert x[0].key in Keys(x);
    }
  }

  lemma TailKeys(x: seq<Field>)
    requires x != [] && StrictlySorted(x)
    ensures Keys(x[1..]) == Keys(x) - {x[0].key}
  {
    FirstIsLeast(x, x[0].key);
  }

  lemma SortedTail(x: seq<Field>)
    requires x != [] && StrictlySorted(x)
    ensures StrictlySorted(x[1..])
  {
  }

  lemma {:induction false} SortedUnique(x: seq<Field>, y: seq<Field>)
    requires StrictlySorted(x) && StrictlySorted(y) && Keys(x) == Keys(y)
    ensures |x| == |y| && forall i :: 0 <= i < |x| ==> x[i].key == y[i].key
  {
    NoKeys(x);
    NoKeys(y);
    if x != [] {
      assert x[0].key in Keys(x) && y[0].key in Keys(y);
      FirstIsLeast(x, y[0].key);
      FirstIsLeast(y, x[0].key);
      LessTotal(x[0].key, y[0].key);
      TailKeys(x);
      TailKeys(y);
      SortedTail(x);
      SortedTail(y);
      SortedUnique(x[1..], y[1..]);
      forall i | 0 <= i < |x|
        ensures x[i].key == y[i].key
      {
        if i > 0 {
          assert x[1..][i - 1] == x[i] && y[1..][i - 1] == y[i];
        }
      }
    }
  }

  lemma EntryKeys(x: seq<Field>, k: Text)
    ensures k in Keys(Entries(x)) <==> HasKey(x, k)
  {
    if k in Keys(Entries(x)) {
      var f :| f in Entries(x) && f.key == k;
      var i :| 0 <= i < |x| && x[i] == f;
    }
    if HasKey(x, k) {
      var i :| 0 <= i < |x| && x[i].key == k && x[i].value != Undefined;
      assert x[i] in Entries(x);
    }
  }

  /** The entry of `y` that equals entry `f` of `x`. */
  lemma Partner(x: seq<Field>, y: seq<Field>, f: Field) returns (g: Field)
    requires Same(Obj(x), Obj(y)) && f in Entries(x)
    ensures g in Entries(y) && g.key == f.key && Same(f.value, g.value)
  {
    var i :| 0 <= i < |x| && x[i] == f;
    assert Matched(x, y, i);
    var j :| 0 <= j < |y| && y[j].key == x[i].key && y[j].value != Undefined && Same(x[i].value, y[j].value);
    g := y[j];
  }

  lemma SameKeys(x: seq<Field>, y: seq<Field>)
    requires Same(Obj(x), Obj(y))
    ensures Keys(Entries(x)) == Keys(Entries(y))
  {
    forall k
      ensures k in Keys(Entries(x)) <==> k in Keys(Entries(y))
    {
      EntryKeys(x, k);
      EntryKeys(y, k);
      if k in Keys(Entries(x)) {
        var f :| f in Entries(x) && f.key == k;
        var g := Partner(x, y, f);
      }
    }
  }

  lemma SortedPosition(q: seq<Field>, g: Field, k: nat)
    requires StrictlySorted(q) && g in q && k < |q| && q[k].key == g.key
    ensures q[k] == g
  {
    var l :| 0 <= l < |q| && q[l] == g;
    LessTotal(q[k].key, q[l].key);
  }

  /** Equal objects have equal sorted entries. */
  lemma SameImpliesEntries(x: seq<Field>, y: seq<Field>)
    requires KeysDistinct(x) && KeysDistinct(y) && Same(Obj(x), Obj(y))
    ensures SameEntries(Entries(x), Entries(y))
  {
    var p, q := Entries(x), Entries(y);
    EntriesSorted(x);
    EntriesSorted(y);
    SameKeys(x, y);
    SortedUnique(p, q);
    forall k | 0 <= k < |p|
      ensures Same(p[k].value, q[k].value)
    {
      assert p[k] in p;
      var g := Partner(x, y, p[k]);
      SortedPosition(q, g, k);
    }
  }

  lemma {:induction false} SamePrints(a: Json, b: Json)
    requires WellFormed(a) && WellFormed(b) && Same(a, b)
    ensures CanonicalJSON(a) == CanonicalJSON(b)
    decreases Weight(a), 0
  {
    match (a, b)
    case (Arr(x), Arr(y)) => SameItemsPrint(x, y, true);
    case (Obj(x), Obj(y)) =>
      SameImpliesEntries(x, y);
      SameEntriesPrint(Entries(x), Entries(y), true);
    case _ =>
  }

  lemma {:induction false} SameItemsPrint(x: seq<Json>, y: seq<Json>, first: bool)
    requires SameItems(x, y)
    requires forall i :: 0 <= i < |x| ==> WellFormed(x[i]) && WellFormed(y[i])
    ensures PrintItems(x, first) == PrintItems(y, first)
    decreases ItemsWeight(x), 1
  {
    if x != [] {
      SamePrints(x[0], y[0]);
      SameItemsPrint(x[1..], y[1..], false);
    }
  }

  lemma {:induction false} SameEntriesPrint(x: seq<Field>, y: seq<Field>, first: bool)
    requires SameEntries(x, y)
    requires forall i :: 0 <= i < |x| ==> WellFormed(x[i].value) && WellFormed(y[i].value)
    ensures PrintFields(x, first) == PrintFields(y, first)
    decreases FieldsWeight(x), 1
  {
    if x != [] {
      SamePrints(x[0].value, y[0].value);
      SameEntriesPrint(x[1..], y[1..], false);
    }
  }

  /** On the values JSON can express, the text is a canonical form. */
  lemma CanonicalForm(a: Json, b: Json)
    requires Printable(a) && Printable(b)
    ensures CanonicalJSON(a) == CanonicalJSON(b) <==> Same(a, b)
  {
    if CanonicalJSON(a) == CanonicalJSON(b) {
      Unique(a, b, [], []);
    }
    if Same(a, b) {
      SamePrints(a, b);
    }
  }

  // ------------------------------------------------ exactly which values collide

  /** What the printer makes of values JSON cannot express. */
  function Expressed(v: Json): Json {
    match v
    case Undefined => Str(UNDEFINED_TEXT)
    case NonFinite => Null
    case Arr(items) => Arr(seq(|items|, i requires 0 <= i < |items| => Expressed(items[i])))
    case Obj(fields) => Obj(seq(|fields|, i requires 0 <= i < |fields| => ExpressedField(fields[i])))
    case _ => v
  }

  function ExpressedField(f: Field): Field {
    Field(f.key, if f.value == Undefined then Undefined else Expressed(f.value))
  }

  lemma {:induction false} ExpressedPrintable(v: Json)
    requires WellFormed(v)
    ensures Printable(Expressed(v)) && Expressed(v) != Undefined
  {
    match v
    case Arr(items) =>
      forall i | 0 <= i < |items|
        ensures Printable(Expressed(items[i]))
      {
        ExpressedPrintable(items[i]);
      }
    case Obj(fields) =>
      forall i | 0 <= i < |fields| && fields[i].value != Undefined
        ensures Printable(Expressed(fields[i].value))
      {
        ExpressedPrintable(fields[i].value);
      }
    case _ =>
  }

  lemma {:induction false} ExpressedPrintsAlike(v: Json)
    requires WellFormed(v)
    ensures CanonicalJSON(Expressed(v)) == CanonicalJSON(v)
    decreases Weight(v), 0
  {
    match v
    case Arr(items) => ExpressedItems(items, Expressed(v).items, true);
    case Obj(fields) =>
      ExpressedEntries(fields, Expressed(v).fields);
      ExpressedPrintEntries(Entries(fields), Entries(Expressed(v).fields), true);
    case _ =>
  }

  lemma {:induction false} ExpressedItems(items: seq<Json>, now: seq<Json>, first: bool)
    requires |now| == |items| && forall i :: 0 <= i < |items| ==> WellFormed(items[i]) && now[i] == Expressed(items[i])
    ensures PrintItems(now, first) == PrintItems(items, first)
    decreases ItemsWeight(items), 1
  {
    if items != [] {
      ExpressedPrintsAlike(items[0]);
      ExpressedItems(items[1..], now[1..], false);
    }
  }

  /** Expressing values does not disturb which entries are defined or how they are sorted. */
  lemma {:induction false} ExpressedEntries(fields: seq<Field>, now: seq<Field>)
    requires |now| == |fields| && forall i :: 0 <= i < |fields| ==> now[i] == ExpressedField(fields[i])
    requires forall i :: 0 <= i < |fields| ==> WellFormed(fields[i].value)
    ensures |Entries(now)| == |Entries(fields)|
    ensures forall i :: 0 <= i < |Entries(fields)| ==> Entries(now)[i] == ExpressedField(Entries(fields)[i])
  {
    if fields != [] {
      ExpressedEntries(fields[1..], now[1..]);
      if fields[0].value != Undefined {
        ExpressedPrintable(fields[0].value);
        ExpressedPlace(fields[0], Entries(fields[1..]), Entries(now[1..]));
      }
    }
  }

  lemma {:induction false} ExpressedPlace(f: Field, sorted: seq<Field>, now: seq<Field>)
    requires |now| == |sorted| && forall i :: 0 <= i < |sorted| ==> now[i] == ExpressedField(sorted[i])
    ensures |Place(ExpressedField(f), now)| == |Place(f, sorted)|
    ensures forall i :: 0 <= i < |Place(f, sorted)| ==> Place(ExpressedField(f), now)[i] == ExpressedField(Place(f, sorted)[i])
  {
    if sorted != [] && !Less(f.key, sorted[0].key) {
      ExpressedPlace(f, sorted[1..], now[1..]);
    }
  }

  lemma {:induction false} ExpressedPrintEntries(entries: seq<Field>, now: seq<Field>, first: bool)
    requires |now| == |entries| && forall i :: 0 <= i < |entries| ==> now[i] == ExpressedField(entries[i])
    requires forall i :: 0 <= i < |entries| ==> WellFormed(entries[i].value) && entries[i].value != Undefined
    ensures PrintFields(now, first) == PrintFields(entries, first)
    decreases FieldsWeight(entries), 1
  {
    if entries != [] {
      ExpressedPrintsAlike(entries[0].value);
      ExpressedPrintEntries(entries[1..], now[1..], false);
    }
  }

  /**
   * For all JavaScript values: two texts are equal exactly when the values are equal after undefined
   * list items became the string "undefined" and non-finite numbers became null.
   */
  lemma CanonicalExactly(a: Json, b: Json)
    requires WellFormed(a) && WellFormed(b)
    ensures CanonicalJSON(a) == CanonicalJSON(b) <==> Same(Expressed(a), Expressed(b))
  {
    ExpressedPrintable(a);
    ExpressedPrintable(b);
    ExpressedPrintsAlike(a);
    ExpressedPrintsAlike(b);
    CanonicalForm(Expressed(a), Expressed(b));
  }

  /** So the text is not injective on all values: an undefined list item prints like a string. */
  lemma UndefinedItemCollides()
    ensures CanonicalJSON(Arr([Undefined])) == CanonicalJSON(Arr([Str(UNDEFINED_TEXT)]))
    ensures !Same(Arr([Undefined]), Arr([Str(UNDEFINED_TEXT)]))
  {
    var a, b := Arr([Undefined]), Arr([Str(UNDEFINED_TEXT)]);
    assert Expressed(a) == b && Expressed(b) == b;
    assert !Same(a.items[0], b.items[0]);
    CanonicalExactly(a, b);
  }
}
