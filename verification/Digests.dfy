/** Message digests: SHA-256 over the canonical projection, and what equal digests mean. */
module Digests {
  import opened Texts
  import opened Messages
  import opened Canonical
  import opened CanonicalProof

  // ------------------------------------------------------------- the hashed value

  function MaybeText(t: Option<Text>): Json {
    if t.Some? then Str(t.value) else Undefined
  }

  function StatusText(status: ToolStatus): Text {
    match status
    case Completed => Ascii("completed")
    case Error => Ascii("error")
    case Ok => Ascii("ok")
    case Success => Ascii("success")
    case Failed => Ascii("failed")
    case Other(name) => name
  }

  function KindText(kind: MemoryKind): Text {
    match kind
    case Constraints => Ascii("constraints")
    case Decisions => Ascii("decisions")
    case Changes => Ascii("changes")
    case Verification => Ascii("verification")
    case Failures => Ascii("failures")
    case Open => Ascii("open")
  }

  function TextList(ts: seq<Text>): Json {
    Arr(seq(|ts|, i requires 0 <= i < |ts| => Str(ts[i])))
  }

  /** An object given by its keys and values in step; a missing field has the value undefined. */
  function Record(keys: seq<Text>, values: seq<Json>): Json
    requires |keys| == |values|
  {
    Obj(seq(|keys|, i requires 0 <= i < |keys| => Field(keys[i], values[i])))
  }

  const MEMORY_KEYS: seq<Text> := [Ascii("kind"), Ascii("text"), Ascii("sourceIds")]
  const ARCHIVE_KEYS: seq<Text> := [Ascii("historyHash"), Ascii("memory"), Ascii("nodeIds"), Ascii("protectedMemory")]
  const STATE_KEYS: seq<Text> := [Ascii("status"), Ascii("error"), Ascii("output")]
  const PART_KEYS: seq<Text> :=
    [Ascii("type"), Ascii("text"), Ascii("tool"), Ascii("callId"), Ascii("input"), Ascii("state")]
  const INFO_KEYS: seq<Text> := [Ascii("id"), Ascii("role")]
  const MESSAGE_KEYS: seq<Text> :=
    [Ascii("version"), Ascii("info"), Ascii("parts"), Ascii("archive"), Ascii("protected")]

  function MemoryJson(e: MemoryEntry): Json {
    Record(MEMORY_KEYS, [Str(KindText(e.kind)), Str(e.text), TextList(e.sourceIds)])
  }

  function MemoriesJson(es: seq<MemoryEntry>): Json {
    Arr(seq(|es|, i requires 0 <= i < |es| => MemoryJson(es[i])))
  }

  function ArchiveValues(a: Archive): (r: seq<Json>)
    ensures |r| == 4
  {
    [Str(a.historyHash),
     MemoriesJson(a.memory),
     if a.nodeIds.Some? then TextList(a.nodeIds.value) else Undefined,
     if a.protectedMemory.Some? then MemoriesJson(a.protectedMemory.value) else Undefined]
  }

  function ArchiveJson(a: Archive): Json {
    Record(ARCHIVE_KEYS, ArchiveValues(a))
  }

  function StateJson(part: Part): Json
    requires part.ToolPart?
  {
    Record(STATE_KEYS, [Str(StatusText(part.status)), MaybeText(part.error), MaybeText(part.output)])
  }

  function PartValues(part: Part): (r: seq<Json>)
    ensures |r| == 6
  {
    match part
    case TextPart(text) => [Str(Ascii("text")), Str(text), Undefined, Undefined, Undefined, Undefined]
    case ToolPart(tool, callId, input, _, _, _) =>
      [Str(Ascii("tool")), Undefined, Str(tool), MaybeText(callId),
       if input.Some? then input.value else Undefined, StateJson(part)]
  }

  function PartJson(part: Part): Json {
    Record(PART_KEYS, PartValues(part))
  }

  function PartsJson(parts: seq<Part>): Json {
    Arr(seq(|parts|, i requires 0 <= i < |parts| => PartJson(parts[i])))
  }

  function InfoJson(m: Message): Json {
    Record(INFO_KEYS, [Str(m.id), Str(if m.role.User? then Ascii("user") else Ascii("assistant"))])
  }

  function MessageValues(m: Message): (r: seq<Json>)
    ensures |r| == 5
  {
    [Num([50]), InfoJson(m), PartsJson(m.parts),
     if m.archive.Some? then ArchiveJson(m.archive.value) else Undefined,
     if m.isProtected then Bool(true) else Undefined]
  }

  /** `messageHashInput`, version 2. */
  function HashInput(m: Message): Json {
    Record(MESSAGE_KEYS, MessageValues(m))
  }

  function ContentDigest(sha: Text -> Digest, m: Message): Digest {
    sha(CanonicalJSON(HashInput(m)))
  }

  // ------------------------------------------------------------------ sameness

  /** Field values agree: both undefined, or both defined and the same. */
  ghost predicate SameField(a: Json, b: Json) {
    if a == Undefined || b == Undefined then a == b else Same(a, b)
  }

  /** Records with the same distinct keys are the same when their fields are. */
  lemma RecordSame(keys: seq<Text>, x: seq<Json>, y: seq<Json>)
    requires |keys| == |x| == |y| && Distinct(keys)
    ensures Same(Record(keys, x), Record(keys, y)) <==> forall i :: 0 <= i < |keys| ==> SameField(x[i], y[i])
  {
    var p, q := Record(keys, x).fields, Record(keys, y).fields;
    if Same(Obj(p), Obj(q)) {
      forall i | 0 <= i < |keys|
        ensures SameField(x[i], y[i])
      {
        if p[i].value != Undefined {
          assert Matched(p, q, i);
          var j :| 0 <= j < |q| && q[j].key == p[i].key && q[j].value != Undefined && Same(p[i].value, q[j].value);
          assert j == i;
        }
        if q[i].value != Undefined {
          assert HasKey(p, q[i].key);
          var k :| 0 <= k < |p| && p[k].key == q[i].key && p[k].value != Undefined;
          assert k == i;
        }
      }
    }
    if forall i :: 0 <= i < |keys| ==> SameField(x[i], y[i]) {
      forall i | 0 <= i < |p| && p[i].value != Undefined
        ensures Matched(p, q, i)
      {
        assert SameField(x[i], y[i]);
        assert q[i].key == p[i].key && q[i].value != Undefined && Same(p[i].value, q[i].value);
      }
      forall j | 0 <= j < |q| && q[j].value != Undefined
        ensures HasKey(p, q[j].key)
      {
        assert SameField(x[j], y[j]);
        assert p[j].key == q[j].key && p[j].value != Undefined;
      }
    }
  }

  /** All fields of a short record agree exactly when each of them does. */
  lemma FieldByField(x: seq<Json>, y: seq<Json>)
    requires |x| == |y| <= 6
    ensures (forall i :: 0 <= i < |x| ==> SameField(x[i], y[i])) <==>
            && (|x| > 0 ==> SameField(x[0], y[0])) && (|x| > 1 ==> SameField(x[1], y[1])) && (|x| > 2 ==> SameField(x[2], y[2]))
            && (|x| > 3 ==> SameField(x[3], y[3])) && (|x| > 4 ==> SameField(x[4], y[4])) && (|x| > 5 ==> SameField(x[5], y[5]))
  {
  }

  /** The literals of one record differ in length or in a code unit. */
  lemma KeysDiffer()
    ensures Distinct(MEMORY_KEYS) && Distinct(ARCHIVE_KEYS) && Distinct(STATE_KEYS)
    ensures Distinct(PART_KEYS) && Distinct(INFO_KEYS) && Distinct(MESSAGE_KEYS)
  {
    assert Ascii("kind")[0] != Ascii("text")[0];
    assert Ascii("status")[0] != Ascii("output")[0];
    assert Ascii("type")[1] != Ascii("text")[1];
    assert Ascii("type")[1] != Ascii("tool")[1];
    assert Ascii("text")[1] != Ascii("tool")[1];
    assert Ascii("input")[0] != Ascii("state")[0];
    assert Ascii("version")[0] != Ascii("archive")[0];
  }

  /** The literals a value may take are distinct too. */
  lemma ValuesDiffer()
    ensures Ascii("text") != Ascii("tool") && Ascii("user") != Ascii("assistant")
    ensures forall a: MemoryKind, b: MemoryKind :: KindText(a) == KindText(b) ==> a == b
  {
    assert Ascii("text")[1] != Ascii("tool")[1];
    assert Ascii("decisions")[0] != Ascii("changes")[0];
    forall a: MemoryKind, b: MemoryKind | KindText(a) == KindText(b)
      ensures a == b
    {
      assert KindText(a)[0] == KindText(b)[0] && |KindText(a)| == |KindText(b)|;
    }
  }

  /** An open status is not spelled like one of the five completed ones. */
  predicate StatusCanonical(part: Part) {
    part.ToolPart? && part.status.Other? ==>
      part.status.name !in {Ascii("completed"), Ascii("error"), Ascii("ok"), Ascii("success"), Ascii("failed")}
  }

  lemma StatusesDiffer(a: ToolStatus, b: ToolStatus)
    requires StatusText(a) == StatusText(b)
    requires a.Other? ==> a.name !in {Ascii("completed"), Ascii("error"), Ascii("ok"), Ascii("success"), Ascii("failed")}
    requires b.Other? ==> b.name !in {Ascii("completed"), Ascii("error"), Ascii("ok"), Ascii("success"), Ascii("failed")}
    ensures a == b
  {
    if !a.Other? && !b.Other? {
      assert StatusText(a)[0] == StatusText(b)[0] && |StatusText(a)| == |StatusText(b)|;
    }
  }

  ghost predicate PartSound(part: Part) {
    StatusCanonical(part) && (part.ToolPart? && part.input.Some? ==> Printable(part.input.value))
  }

  /** Parts agree in every field, tool inputs up to key order. */
  ghost predicate SamePartContent(a: Part, b: Part) {
    if a.ToolPart? && b.ToolPart? then
      && a == b.(input := a.input)
      && a.input.Some? == b.input.Some?
      && (a.input.Some? ==> Same(a.input.value, b.input.value))
    else a == b
  }

  ghost predicate SameContent(m: Message, n: Message) {
    && m == n.(parts := m.parts)
    && |m.parts| == |n.parts|
    && forall p :: 0 <= p < |m.parts| ==> SamePartContent(m.parts[p], n.parts[p])
  }

  lemma TextListSame(a: seq<Text>, b: seq<Text>)
    ensures Same(TextList(a), TextList(b)) <==> a == b
  {
    var x, y := TextList(a).items, TextList(b).items;
    if Same(TextList(a), TextList(b)) {
      assert forall i :: 0 <= i < |x| ==> Same(x[i], y[i]);
      assert forall i :: 0 <= i < |a| ==> x[i] == Str(a[i]) && y[i] == Str(b[i]);
    }
  }

  lemma MemorySame(a: MemoryEntry, b: MemoryEntry)
    ensures Same(MemoryJson(a), MemoryJson(b)) <==> a == b
  {
    KeysDiffer();
    ValuesDiffer();
    TextListSame(a.sourceIds, b.sourceIds);
    var x := [Str(KindText(a.kind)), Str(a.text), TextList(a.sourceIds)];
    var y := [Str(KindText(b.kind)), Str(b.text), TextList(b.sourceIds)];
    RecordSame(MEMORY_KEYS, x, y);
    FieldByField(x, y);
  }

  lemma MemoriesSame(a: seq<MemoryEntry>, b: seq<MemoryEntry>)
    ensures Same(MemoriesJson(a), MemoriesJson(b)) <==> a == b
  {
    var x, y := MemoriesJson(a).items, MemoriesJson(b).items;
    if |a| == |b| {
      forall i | 0 <= i < |a|
        ensures Same(x[i], y[i]) <==> a[i] == b[i]
      {
        MemorySame(a[i], b[i]);
      }
    }
  }

  lemma ArchiveSame(a: Archive, b: Archive)
    ensures Same(ArchiveJson(a), ArchiveJson(b)) <==> a == b
  {
    KeysDiffer();
    MemoriesSame(a.memory, b.memory);
    if a.nodeIds.Some? && b.nodeIds.Some? {
      TextListSame(a.nodeIds.value, b.nodeIds.value);
    }
    if a.protectedMemory.Some? && b.protectedMemory.Some? {
      MemoriesSame(a.protectedMemory.value, b.protectedMemory.value);
    }
    var x, y := ArchiveValues(a), ArchiveValues(b);
    RecordSame(ARCHIVE_KEYS, x, y);
    FieldByField(x, y);
  }

  lemma StateSame(a: Part, b: Part)
    requires a.ToolPart? && b.ToolPart? && StatusCanonical(a) && StatusCanonical(b)
    ensures Same(StateJson(a), StateJson(b)) <==> a.status == b.status && a.error == b.error && a.output == b.output
  {
    KeysDiffer();
    if StatusText(a.status) == StatusText(b.status) {
      StatusesDiffer(a.status, b.status);
    }
    var x := [Str(StatusText(a.status)), MaybeText(a.error), MaybeText(a.output)];
    var y := [Str(StatusText(b.status)), MaybeText(b.error), MaybeText(b.output)];
    RecordSame(STATE_KEYS, x, y);
    FieldByField(x, y);
  }

  lemma TextPartsSame(a: Part, b: Part)
    requires a.TextPart? || b.TextPart?
    ensures Same(PartJson(a), PartJson(b)) <==> a == b
  {
    KeysDiffer();
    ValuesDiffer();
    RecordSame(PART_KEYS, PartValues(a), PartValues(b));
    FieldByField(PartValues(a), PartValues(b));
  }

  lemma ToolPartsSame(a: Part, b: Part)
    requires a.ToolPart? && b.ToolPart? && PartSound(a) && PartSound(b)
    ensures Same(PartJson(a), PartJson(b)) <==> SamePartContent(a, b)
  {
    KeysDiffer();
    StateSame(a, b);
    RecordSame(PART_KEYS, PartValues(a), PartValues(b));
    FieldByField(PartValues(a), PartValues(b));
  }

  lemma PartSame(a: Part, b: Part)
    requires PartSound(a) && PartSound(b)
    ensures Same(PartJson(a), PartJson(b)) <==> SamePartContent(a, b)
  {
    if a.ToolPart? && b.ToolPart? {
      ToolPartsSame(a, b);
    } else {
      TextPartsSame(a, b);
    }
  }

  ghost predicate MessageSound(m: Message) {
    forall p :: 0 <= p < |m.parts| ==> PartSound(m.parts[p])
  }

  lemma PartsSame(a: seq<Part>, b: seq<Part>)
    requires forall p :: 0 <= p < |a| ==> PartSound(a[p])
    requires forall p :: 0 <= p < |b| ==> PartSound(b[p])
    ensures Same(PartsJson(a), PartsJson(b)) <==> |a| == |b| && forall p :: 0 <= p < |a| ==> SamePartContent(a[p], b[p])
  {
    var x, y := PartsJson(a).items, PartsJson(b).items;
    if |a| == |b| {
      forall p | 0 <= p < |a|
        ensures Same(x[p], y[p]) <==> SamePartContent(a[p], b[p])
      {
        PartSame(a[p], b[p]);
      }
    }
  }

  lemma InfoSame(m: Message, n: Message)
    ensures Same(InfoJson(m), InfoJson(n)) <==> m.id == n.id && m.role == n.role
  {
    KeysDiffer();
    ValuesDiffer();
    var x := [Str(m.id), Str(if m.role.User? then Ascii("user") else Ascii("assistant"))];
    var y := [Str(n.id), Str(if n.role.User? then Ascii("user") else Ascii("assistant"))];
    RecordSame(INFO_KEYS, x, y);
    FieldByField(x, y);
  }

  lemma MessageFieldsSame(m: Message, n: Message)
    ensures var x, y := MessageValues(m), MessageValues(n);
            Same(HashInput(m), HashInput(n)) <==>
            SameField(x[0], y[0]) && SameField(x[1], y[1]) && SameField(x[2], y[2]) && SameField(x[3], y[3]) && SameField(x[4], y[4])
  {
    KeysDiffer();
    RecordSame(MESSAGE_KEYS, MessageValues(m), MessageValues(n));
    FieldByField(MessageValues(m), MessageValues(n));
  }

  lemma HashInputSame(m: Message, n: Message)
    requires MessageSound(m) && MessageSound(n)
    ensures Same(HashInput(m), HashInput(n)) <==> SameContent(m, n)
  {
    MessageFieldsSame(m, n);
    InfoSame(m, n);
    PartsSame(m.parts, n.parts);
    if m.archive.Some? && n.archive.Some? {
      ArchiveSame(m.archive.value, n.archive.value);
    }
  }

  // ------------------------------------------------------------- digests bind

  lemma RecordPrintable(keys: seq<Text>, values: seq<Json>)
    requires |keys| == |values| && Distinct(keys)
    requires forall i :: 0 <= i < |values| ==> values[i] == Undefined || Printable(values[i])
    ensures Printable(Record(keys, values))
  {
  }

  lemma TextListPrintable(ts: seq<Text>)
    ensures Printable(TextList(ts))
  {
    assert forall i :: 0 <= i < |ts| ==> TextList(ts).items[i] == Str(ts[i]);
  }

  lemma MemoryPrintable(es: seq<MemoryEntry>)
    ensures Printable(MemoriesJson(es))
  {
    KeysDiffer();
    forall i | 0 <= i < |es|
      ensures Printable(MemoryJson(es[i]))
    {
      TextListPrintable(es[i].sourceIds);
      RecordPrintable(MEMORY_KEYS, [Str(KindText(es[i].kind)), Str(es[i].text), TextList(es[i].sourceIds)]);
    }
  }

  lemma ArchivePrintable(a: Archive)
    ensures Printable(ArchiveJson(a))
  {
    KeysDiffer();
    MemoryPrintable(a.memory);
    if a.nodeIds.Some? {
      TextListPrintable(a.nodeIds.value);
    }
    if a.protectedMemory.Some? {
      MemoryPrintable(a.protectedMemory.value);
    }
    RecordPrintable(ARCHIVE_KEYS, ArchiveValues(a));
  }

  lemma PartPrintable(part: Part)
    requires PartSound(part)
    ensures Printable(PartJson(part))
  {
    KeysDiffer();
    if part.ToolPart? {
      RecordPrintable(STATE_KEYS, [Str(StatusText(part.status)), MaybeText(part.error), MaybeText(part.output)]);
    }
    RecordPrintable(PART_KEYS, PartValues(part));
  }

  lemma HashInputPrintable(m: Message)
    requires MessageSound(m)
    ensures Printable(HashInput(m))
  {
    KeysDiffer();
    forall p | 0 <= p < |m.parts|
      ensures Printable(PartJson(m.parts[p]))
    {
      PartPrintable(m.parts[p]);
    }
    if m.archive.Some? {
      ArchivePrintable(m.archive.value);
    }
    RecordPrintable(INFO_KEYS, [Str(m.id), Str(if m.role.User? then Ascii("user") else Ascii("assistant"))]);
    RecordPrintable(MESSAGE_KEYS, MessageValues(m));
  }

  ghost predicate Injective(sha: Text -> Digest) {
    forall x, y :: sha(x) == sha(y) ==> x == y
  }

  /** Equal digests mean equal messages, tool inputs up to the order of their keys. */
  lemma DigestBindsContent(sha: Text -> Digest, m: Message, n: Message)
    requires Injective(sha) && MessageSound(m) && MessageSound(n)
    ensures ContentDigest(sha, m) == ContentDigest(sha, n) <==> SameContent(m, n)
  {
    HashInputPrintable(m);
    HashInputPrintable(n);
    CanonicalForm(HashInput(m), HashInput(n));
    HashInputSame(m, n);
  }

  /** Whatever the hash, messages that differ only in the order of input keys share a digest. */
  lemma SameContentSameDigest(sha: Text -> Digest, m: Message, n: Message)
    requires MessageSound(m) && MessageSound(n) && SameContent(m, n)
    ensures ContentDigest(sha, m) == ContentDigest(sha, n)
  {
    HashInputPrintable(m);
    HashInputPrintable(n);
    HashInputSame(m, n);
    CanonicalForm(HashInput(m), HashInput(n));
  }

  function HashingOf(sha: Text -> Digest): Hashing {
    Hashing(m => ContentDigest(sha, m), sha)
  }

  function SnapshotOf(sha: Text -> Digest, planned: seq<Message>): Snapshot {
    Snapshot(seq(|planned|, i requires 0 <= i < |planned| => planned[i].id),
             seq(|planned|, i requires 0 <= i < |planned| => ContentDigest(sha, planned[i])))
  }

  /** A snapshot taken of one history binds another exactly when that one starts with the same messages. */
  lemma SnapshotBindsSameSource(sha: Text -> Digest, planned: seq<Message>, ms: seq<Message>)
    requires Injective(sha)
    requires (forall i :: 0 <= i < |planned| ==> MessageSound(planned[i])) && (forall i :: 0 <= i < |ms| ==> MessageSound(ms[i]))
    ensures SnapshotBinds(HashingOf(sha), ms, SnapshotOf(sha, planned))
       <==> |planned| <= |ms| && forall i :: 0 <= i < |planned| ==> SameContent(ms[i], planned[i])
  {
    if |planned| <= |ms| {
      forall i | 0 <= i < |planned|
        ensures HashingOf(sha).content(ms[i]) == SnapshotOf(sha, planned).sourceDigests[i] <==> SameContent(ms[i], planned[i])
      {
        DigestBindsContent(sha, ms[i], planned[i]);
      }
    }
  }
}
