/**
 * What a set of view edits means, independent of the loops that carry it out:
 * which sets are applicable, and the simultaneous substitution they denote.
 */
module Substitution {
  import opened Texts
  import opened Messages

  // ---------------------------------------------------------------- targets

  function Target(op: ViewOperation): Text {
    if op.Range? then (if op.messageIds == [] then [] else op.messageIds[0]) else op.messageId
  }

  function Width(op: ViewOperation): nat {
    if op.Range? then |op.messageIds| else 1
  }

  /** Index of the first message an operation edits; `|ms|` when it is absent. */
  function Start(ms: seq<Message>, op: ViewOperation): (s: nat)
    ensures s <= |ms|
  {
    Find(ms, Target(op))
  }

  predicate Covers(ms: seq<Message>, op: ViewOperation, i: nat) {
    Start(ms, op) <= i < Start(ms, op) + Width(op)
  }

  // ---------------------------------------------------------- applicability

  ghost predicate RangeSource(h: Hashing, m: Message, id: Text, digest: Digest) {
    && m.id == id
    && !m.isProtected
    && h.content(m) == digest
    && forall p :: 0 <= p < |m.parts| ==> PartSettled(m.parts[p])
  }

  ghost predicate PartMatches(h: Hashing, part: Part, op: ViewOperation)
    requires !op.Range?
  {
    match op
    case ToolOutput(_, _, _, _, _, outputDigest, _) =>
      part.ToolPart? && PartSettled(part) && h.text(OutputOf(part)) == outputDigest
    case TextRange(_, _, _, _, _, start, end, textDigest, _) =>
      part.TextPart? && start < end <= |part.text| && h.text(part.text[start..end]) == textDigest
  }

  /** A replacement may reuse an id only of a message it replaces. */
  predicate ReplacementFresh(ms: seq<Message>, op: ViewOperation)
    requires op.Range?
  {
    var r := Find(ms, op.replacement.id);
    r == |ms| || Covers(ms, op, r)
  }

  /** The operation on its own fits the first `bound` messages, the ones the snapshot validated. */
  ghost predicate Fits(h: Hashing, ms: seq<Message>, bound: nat, op: ViewOperation)
    requires bound <= |ms|
  {
    && SchemaValid(op)
    && Start(ms, op) < |ms|
    && Start(ms, op) + Width(op) <= bound
    && if op.Range? then
         && (forall i :: 0 <= i < |op.messageIds| ==>
               RangeSource(h, ms[Start(ms, op) + i], op.messageIds[i], op.sourceDigests[i]))
         && ReplacementFresh(ms, op)
       else
         var m := ms[Start(ms, op)];
         && !m.isProtected
         && h.content(m) == op.sourceDigest
         && op.partIndex < |m.parts|
         && PartMatches(h, m.parts[op.partIndex], op)
  }

  /** Neither operation replaces a message the other one edits. */
  predicate NoClash(ms: seq<Message>, a: ViewOperation, b: ViewOperation) {
    a.Range? || b.Range? ==>
      || Start(ms, a) + Width(a) <= Start(ms, b)
      || Start(ms, b) + Width(b) <= Start(ms, a)
  }

  predicate SamePart(a: ViewOperation, b: ViewOperation) {
    !a.Range? && !b.Range? && a.messageId == b.messageId && a.partIndex == b.partIndex
  }

  predicate Apart(a: ViewOperation, b: ViewOperation) {
    SamePart(a, b) ==> a.TextRange? && b.TextRange? && (a.end <= b.start || b.end <= a.start)
  }

  predicate Compatible(ms: seq<Message>, a: ViewOperation, b: ViewOperation) {
    && a.operationId != b.operationId
    && NoClash(ms, a, b)
    && Apart(a, b)
  }

  ghost predicate PairwiseCompatible(ms: seq<Message>, ops: seq<ViewOperation>) {
    forall i, j :: 0 <= i < j < |ops| ==> Compatible(ms, ops[i], ops[j])
  }

  /** Every edit finds its source unchanged and no two edits touch the same content. */
  ghost predicate WellPlaced(h: Hashing, ms: seq<Message>, ops: seq<ViewOperation>, snapshot: Snapshot) {
    && ops != []
    && UniqueIds(ms)
    && SnapshotBinds(h, ms, snapshot)
    && (forall op :: op in ops ==> Fits(h, ms, |snapshot.messageIds|, op))
    && PairwiseCompatible(ms, ops)
  }

  ghost predicate ReplacementsDistinct(ops: seq<ViewOperation>) {
    forall i, j :: 0 <= i < j < |ops| && ops[i].Range? && ops[j].Range? ==>
                     ops[i].replacement.id != ops[j].replacement.id
  }

  /** The whole acceptance condition; nothing in it depends on the order of `ops`. */
  ghost predicate Applicable(h: Hashing, ms: seq<Message>, ops: seq<ViewOperation>, snapshot: Snapshot) {
    WellPlaced(h, ms, ops, snapshot) && ReplacementsDistinct(ops)
  }

  // ----------------------------------------------------------- substitution

  /** The range edit whose first message is message `k`, if there is one. */
  function RangeAt(ms: seq<Message>, ops: seq<ViewOperation>, k: nat): (r: Option<ViewOperation>)
    ensures r.Some? ==> r.value in ops && r.value.Range? && r.value.messageIds != [] && Start(ms, r.value) == k
    ensures r.None? ==> forall op :: op in ops && op.Range? && op.messageIds != [] ==> Start(ms, op) != k
  {
    if ops == [] then None
    else if ops[0].Range? && ops[0].messageIds != [] && Start(ms, ops[0]) == k then Some(ops[0])
    else RangeAt(ms, ops[1..], k)
  }

  predicate EditsPart(op: ViewOperation, id: Text, p: nat) {
    !op.Range? && op.messageId == id && op.partIndex == p
  }

  function ToolEditAt(ops: seq<ViewOperation>, id: Text, p: nat): (r: Option<ViewOperation>)
    ensures r.Some? ==> r.value in ops && r.value.ToolOutput? && EditsPart(r.value, id, p)
    ensures r.None? ==> forall op :: op in ops && op.ToolOutput? ==> !EditsPart(op, id, p)
  {
    if ops == [] then None
    else if ops[0].ToolOutput? && EditsPart(ops[0], id, p) then Some(ops[0])
    else ToolEditAt(ops[1..], id, p)
  }

  /** The text edit of part `p` of message `id` that starts at code unit `k`. */
  function TextEditAt(ops: seq<ViewOperation>, id: Text, p: nat, k: nat): (r: Option<ViewOperation>)
    ensures r.Some? ==> r.value in ops && r.value.TextRange? && EditsPart(r.value, id, p) && r.value.start == k < r.value.end
    ensures r.None? ==>
              forall op :: op in ops && op.TextRange? && EditsPart(op, id, p) && op.start < op.end ==> op.start != k
  {
    if ops == [] then None
    else if ops[0].TextRange? && EditsPart(ops[0], id, p) && ops[0].start == k < ops[0].end then Some(ops[0])
    else TextEditAt(ops[1..], id, p, k)
  }

  /** The part's text from code unit `k` on, each edited slice replaced. */
  function EditText(text: Text, ops: seq<ViewOperation>, id: Text, p: nat, k: nat): Text
    decreases |text| - k
  {
    if k >= |text| then []
    else match TextEditAt(ops, id, p, k)
      case Some(op) => op.text + EditText(text, ops, id, p, op.end)
      case None => [text[k]] + EditText(text, ops, id, p, k + 1)
  }

  function EditPart(part: Part, ops: seq<ViewOperation>, id: Text, p: nat): Part {
    if part.TextPart? then TextPart(EditText(part.text, ops, id, p, 0))
    else match ToolEditAt(ops, id, p)
      case Some(op) => part.(output := Some(op.output))
      case None => part
  }

  function EditMessage(m: Message, ops: seq<ViewOperation>): Message {
    m.(parts := seq(|m.parts|, p requires 0 <= p < |m.parts| => EditPart(m.parts[p], ops, m.id, p)))
  }

  /** The history from message `k` on, all edits made at once. */
  function Substitute(ms: seq<Message>, ops: seq<ViewOperation>, k: nat): seq<Message>
    decreases |ms| - k
  {
    if k >= |ms| then []
    else match RangeAt(ms, ops, k)
      case Some(op) => [op.replacement] + Substitute(ms, ops, k + |op.messageIds|)
      case None => [EditMessage(ms[k], ops)] + Substitute(ms, ops, k + 1)
  }

  // ------------------------------------------------------- facts about Find

  /** Appending messages moves no existing message. */
  lemma {:induction false} FindInPrefix(ms: seq<Message>, tail: seq<Message>, id: Text)
    ensures Find(ms, id) < |ms| ==> Find(ms + tail, id) == Find(ms, id)
    ensures Find(ms, id) == |ms| ==> Find(ms + tail, id) == |ms| + Find(tail, id)
  {
    if ms == [] {
      assert ms + tail == tail;
    } else {
      assert (ms + tail)[1..] == ms[1..] + tail;
      FindInPrefix(ms[1..], tail, id);
    }
  }

  // ----------------------------------------------- consequences of WellPlaced

  /** Two different applicable operations are compatible whatever their positions. */
  lemma MembersCompatible(ms: seq<Message>, ops: seq<ViewOperation>, a: ViewOperation, b: ViewOperation)
    requires PairwiseCompatible(ms, ops)
    requires a in ops && b in ops && a != b
    ensures Compatible(ms, a, b)
  {
    var i :| 0 <= i < |ops| && ops[i] == a;
    var j :| 0 <= j < |ops| && ops[j] == b;
    if i < j {
      assert Compatible(ms, ops[i], ops[j]);
    } else {
      assert Compatible(ms, ops[j], ops[i]);
    }
  }

  lemma OpsDistinct(ms: seq<Message>, ops: seq<ViewOperation>)
    requires PairwiseCompatible(ms, ops)
    ensures Distinct(ops)
  {
    forall i, j | 0 <= i < j < |ops|
      ensures ops[i] != ops[j]
    {
      assert Compatible(ms, ops[i], ops[j]);
    }
  }

  lemma RangeAtFinds(h: Hashing, ms: seq<Message>, ops: seq<ViewOperation>, snapshot: Snapshot, op: ViewOperation)
    requires WellPlaced(h, ms, ops, snapshot)
    requires op in ops && op.Range?
    ensures RangeAt(ms, ops, Start(ms, op)) == Some(op)
  {
    assert Fits(h, ms, |snapshot.messageIds|, op);
    var r := RangeAt(ms, ops, Start(ms, op));
    if r.Some? && r.value != op {
      MembersCompatible(ms, ops, r.value, op);
    }
  }

  lemma TextEditAtFinds(h: Hashing, ms: seq<Message>, ops: seq<ViewOperation>, snapshot: Snapshot, op: ViewOperation)
    requires WellPlaced(h, ms, ops, snapshot)
    requires op in ops && op.TextRange?
    ensures TextEditAt(ops, op.messageId, op.partIndex, op.start) == Some(op)
  {
    assert Fits(h, ms, |snapshot.messageIds|, op);
    var r := TextEditAt(ops, op.messageId, op.partIndex, op.start);
    if r.Some? && r.value != op {
      assert Fits(h, ms, |snapshot.messageIds|, r.value);
      MembersCompatible(ms, ops, r.value, op);
    }
  }

  lemma ToolEditAtFinds(h: Hashing, ms: seq<Message>, ops: seq<ViewOperation>, snapshot: Snapshot, op: ViewOperation)
    requires WellPlaced(h, ms, ops, snapshot)
    requires op in ops && op.ToolOutput?
    ensures ToolEditAt(ops, op.messageId, op.partIndex) == Some(op)
  {
    var r := ToolEditAt(ops, op.messageId, op.partIndex);
    if r.Some? && r.value != op {
      MembersCompatible(ms, ops, r.value, op);
    }
  }

  // ------------------------------------------------------- untouched content

  lemma {:induction false} CopyUntil(text: Text, ops: seq<ViewOperation>, id: Text, p: nat, k: nat, m: nat)
    requires k <= m <= |text|
    requires forall op :: op in ops && op.TextRange? && EditsPart(op, id, p) && op.start < op.end ==> !(k <= op.start < m)
    ensures EditText(text, ops, id, p, k) == text[k..m] + EditText(text, ops, id, p, m)
    decreases m - k
  {
    if k < m {
      CopyUntil(text, ops, id, p, k + 1, m);
      assert TextEditAt(ops, id, p, k).None?;
      assert text[k..m] == [text[k]] + text[k + 1..m];
    }
  }

  lemma UntouchedPart(part: Part, ops: seq<ViewOperation>, id: Text, p: nat)
    requires forall op :: op in ops ==> !EditsPart(op, id, p)
    ensures EditPart(part, ops, id, p) == part
  {
    if part.TextPart? {
      CopyUntil(part.text, ops, id, p, 0, |part.text|);
    }
  }

  lemma UntouchedMessage(m: Message, ops: seq<ViewOperation>)
    requires forall op :: op in ops && !op.Range? ==> op.messageId != m.id
    ensures EditMessage(m, ops) == m
  {
    forall p: nat | p < |m.parts|
      ensures EditPart(m.parts[p], ops, m.id, p) == m.parts[p]
    {
      UntouchedPart(m.parts[p], ops, m.id, p);
    }
    assert EditMessage(m, ops).parts == m.parts;
  }

  // ------------------------------------------------------ walking the spec

  /** The ranges are non-empty, inside the history and disjoint. */
  ghost predicate Tiled(ms: seq<Message>, ops: seq<ViewOperation>) {
    && (forall op :: op in ops && op.Range? ==> 0 < Width(op) <= |ms| - Start(ms, op))
    && (forall a, b :: a in ops && b in ops && a.Range? && b.Range? && a != b ==>
                         Start(ms, a) + Width(a) <= Start(ms, b) || Start(ms, b) + Width(b) <= Start(ms, a))
  }

  /** `k` is not strictly inside a replaced range. */
  ghost predicate Boundary(ms: seq<Message>, ops: seq<ViewOperation>, k: nat) {
    forall op :: op in ops && op.Range? ==> !(Start(ms, op) < k < Start(ms, op) + Width(op))
  }

  lemma WellPlacedTiled(h: Hashing, ms: seq<Message>, ops: seq<ViewOperation>, snapshot: Snapshot)
    requires WellPlaced(h, ms, ops, snapshot)
    ensures Tiled(ms, ops)
  {
    forall op | op in ops && op.Range?
      ensures 0 < Width(op) <= |ms| - Start(ms, op)
    {
      assert Fits(h, ms, |snapshot.messageIds|, op);
    }
    forall a, b | a in ops && b in ops && a.Range? && b.Range? && a != b
      ensures Start(ms, a) + Width(a) <= Start(ms, b) || Start(ms, b) + Width(b) <= Start(ms, a)
    {
      MembersCompatible(ms, ops, a, b);
    }
  }

  /** The cursor of the walk after message or range `k`. */
  function Next(ms: seq<Message>, ops: seq<ViewOperation>, k: nat): (n: nat)
    requires k < |ms|
    ensures n > k
  {
    match RangeAt(ms, ops, k)
    case Some(op) => k + |op.messageIds|
    case None => k + 1
  }

  /** What the walk publishes at `k`. */
  function Published(ms: seq<Message>, ops: seq<ViewOperation>, k: nat): Message
    requires k < |ms|
  {
    match RangeAt(ms, ops, k)
    case Some(op) => op.replacement
    case None => EditMessage(ms[k], ops)
  }

  lemma SubstituteStep(ms: seq<Message>, ops: seq<ViewOperation>, k: nat)
    requires k < |ms|
    ensures Substitute(ms, ops, k) == [Published(ms, ops, k)] + Substitute(ms, ops, Next(ms, ops, k))
  {
  }

  lemma BoundaryNext(ms: seq<Message>, ops: seq<ViewOperation>, k: nat)
    requires Tiled(ms, ops) && Boundary(ms, ops, k) && k < |ms|
    ensures Boundary(ms, ops, Next(ms, ops, k))
    ensures Next(ms, ops, k) <= |ms|
    ensures forall op :: op in ops && op.Range? && Start(ms, op) != k ==> Start(ms, op) < k || Next(ms, ops, k) <= Start(ms, op)
    ensures RangeAt(ms, ops, k).None? ==> forall op :: op in ops && op.Range? ==> !Covers(ms, op, k)
  {
  }

  /** A kept message: no range replaces it. */
  ghost predicate Kept(ms: seq<Message>, ops: seq<ViewOperation>, j: nat) {
    j < |ms| && forall op :: op in ops && op.Range? ==> !Covers(ms, op, j)
  }

  /** Where each published message comes from: a kept message or a range, in order. */
  ghost predicate Origin(ms: seq<Message>, ops: seq<ViewOperation>, k: nat, j: nat, m: Message) {
    && k <= j < |ms|
    && m == Published(ms, ops, j)
    && (RangeAt(ms, ops, j).None? ==> Kept(ms, ops, j))
  }

  lemma {:induction false} OriginOf(ms: seq<Message>, ops: seq<ViewOperation>, k: nat, i: nat) returns (j: nat)
    requires Tiled(ms, ops) && Boundary(ms, ops, k) && i < |Substitute(ms, ops, k)|
    ensures Origin(ms, ops, k, j, Substitute(ms, ops, k)[i])
    decreases |ms| - k
  {
    SubstituteStep(ms, ops, k);
    BoundaryNext(ms, ops, k);
    if i == 0 {
      j := k;
    } else {
      j := OriginOf(ms, ops, Next(ms, ops, k), i - 1);
    }
  }

  /** Two places of the walk publish different ids when the replacement ids are distinct. */
  lemma PublishedDiffer(ms: seq<Message>, ops: seq<ViewOperation>, k: nat, j: nat)
    requires UniqueIds(ms) && Tiled(ms, ops) && ReplacementsDistinct(ops) && FreshAgainst(ms, ops)
    requires k < |ms| && j < |ms|
    requires Origin(ms, ops, k, k, Published(ms, ops, k))
    requires Origin(ms, ops, Next(ms, ops, k), j, Published(ms, ops, j))
    ensures Published(ms, ops, k).id != Published(ms, ops, j).id
  {
    var a, b := RangeAt(ms, ops, k), RangeAt(ms, ops, j);
    FindUnique(ms, k);
    FindUnique(ms, j);
    if a.Some? && b.Some? {
      DistinctMembers(ops, a.value, b.value);
    }
  }

  ghost predicate FreshAgainst(ms: seq<Message>, ops: seq<ViewOperation>) {
    forall op :: op in ops && op.Range? ==> ReplacementFresh(ms, op)
  }

  lemma DistinctMembers(ops: seq<ViewOperation>, a: ViewOperation, b: ViewOperation)
    requires ReplacementsDistinct(ops)
    requires a in ops && b in ops && a != b && a.Range? && b.Range?
    ensures a.replacement.id != b.replacement.id
  {
    var i :| 0 <= i < |ops| && ops[i] == a;
    var j :| 0 <= j < |ops| && ops[j] == b;
  }

  /** A rewritten history has unique ids when the replacement ids are distinct... */
  lemma {:induction false} SubstituteUnique(ms: seq<Message>, ops: seq<ViewOperation>, k: nat)
    requires UniqueIds(ms) && Tiled(ms, ops) && ReplacementsDistinct(ops) && FreshAgainst(ms, ops)
    requires Boundary(ms, ops, k)
    ensures UniqueIds(Substitute(ms, ops, k))
    decreases |ms| - k
  {
    if k < |ms| {
      SubstituteStep(ms, ops, k);
      BoundaryNext(ms, ops, k);
      var rest := Substitute(ms, ops, Next(ms, ops, k));
      SubstituteUnique(ms, ops, Next(ms, ops, k));
      forall i | 0 <= i < |rest|
        ensures rest[i].id != Published(ms, ops, k).id
      {
        var j := OriginOf(ms, ops, Next(ms, ops, k), i);
        PublishedDiffer(ms, ops, k, j);
      }
    }
  }

  /** Each range edit's replacement is published. */
  lemma {:induction false} ReplacementAppears(ms: seq<Message>, ops: seq<ViewOperation>, k: nat, op: ViewOperation)
      returns (i: nat)
    requires Tiled(ms, ops) && Boundary(ms, ops, k)
    requires op in ops && op.Range? && k <= Start(ms, op)
    ensures i < |Substitute(ms, ops, k)| && Substitute(ms, ops, k)[i] == op.replacement
    decreases |ms| - k
  {
    SubstituteStep(ms, ops, k);
    BoundaryNext(ms, ops, k);
    if RangeAt(ms, ops, k) == Some(op) {
      i := 0;
    } else {
      i := ReplacementAppears(ms, ops, Next(ms, ops, k), op);
      i := i + 1;
    }
  }

  /** ... and only then: two ranges that publish one id leave it in the history twice. */
  lemma {:induction false} SubstituteRepeats(ms: seq<Message>, ops: seq<ViewOperation>, k: nat, a: ViewOperation, b: ViewOperation)
    requires Tiled(ms, ops) && Boundary(ms, ops, k)
    requires a in ops && b in ops && a != b && a.Range? && b.Range? && a.replacement.id == b.replacement.id
    requires k <= Start(ms, a) < Start(ms, b)
    ensures !UniqueIds(Substitute(ms, ops, k))
    decreases |ms| - k
  {
    SubstituteStep(ms, ops, k);
    BoundaryNext(ms, ops, k);
    var head, rest := Published(ms, ops, k), Substitute(ms, ops, Next(ms, ops, k));
    if RangeAt(ms, ops, k) == Some(a) {
      var i := ReplacementAppears(ms, ops, Next(ms, ops, k), b);
      HeadRepeats(head, rest, i);
    } else {
      SubstituteRepeats(ms, ops, Next(ms, ops, k), a, b);
      TailRepeats(head, rest);
    }
  }

  lemma HeadRepeats(head: Message, rest: seq<Message>, i: nat)
    requires i < |rest| && rest[i].id == head.id
    ensures !UniqueIds([head] + rest)
  {
    assert ([head] + rest)[0].id == ([head] + rest)[i + 1].id;
  }

  lemma TailRepeats(head: Message, rest: seq<Message>)
    requires !UniqueIds(rest)
    ensures !UniqueIds([head] + rest)
  {
    var i, j :| 0 <= i < j < |rest| && rest[i].id == rest[j].id;
    assert ([head] + rest)[i + 1].id == ([head] + rest)[j + 1].id;
  }

  // --------------------------------------------- edits inside messages only

  ghost predicate EditsOnly(ops: seq<ViewOperation>) {
    forall op :: op in ops ==> !op.Range?
  }

  lemma {:induction false} EditsKeepShape(ms: seq<Message>, ops: seq<ViewOperation>, k: nat)
    requires EditsOnly(ops) && k <= |ms|
    ensures |Substitute(ms, ops, k)| == |ms| - k
    ensures forall i :: k <= i < |ms| ==> Substitute(ms, ops, k)[i - k] == EditMessage(ms[i], ops)
    decreases |ms| - k
  {
    if k < |ms| {
      EditsKeepShape(ms, ops, k + 1);
      assert RangeAt(ms, ops, k).None?;
      SubstituteStep(ms, ops, k);
    }
  }
}
