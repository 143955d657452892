/** `buildEnhancedCandidate`: a plan whose optional notes a model has shortened. */
module EnhancedCandidate {
  import opened Texts
  import opened Messages
  import opened Substitution
  import opened Admission
  import opened Operations
  import opened Contract
  import opened Agreement
  import opened Planning

  /** New operation ids are digests of the old id, the node and the replacement. */
  type Renaming = (Digest, Digest, Text) -> Digest

  /** One renaming step: the node and the replacement it is made for. */
  datatype Shortening = Shortening(node: Digest, text: Text)

  /** The id that an operation gets after a series of renamings. */
  function Renamed(rename: Renaming, id: Digest, steps: seq<Shortening>): Digest {
    if steps == [] then id
    else rename(Renamed(rename, id, steps[..|steps| - 1]), steps[|steps| - 1].node, steps[|steps| - 1].text)
  }

  ghost predicate RenamesInjectively(rename: Renaming) {
    forall a, b, m, n, s, t :: rename(a, m, s) == rename(b, n, t) ==> a == b
  }

  /** No id of the plan comes from another one of it by renaming, once or several times over. */
  ghost predicate RenamesApart(rename: Renaming, ops: seq<ViewOperation>) {
    && RenamesInjectively(rename)
    && forall x, y, steps :: x in ops && y in ops && steps != [] ==> Renamed(rename, x.operationId, steps) != y.operationId
  }

  lemma RenamedOnce(rename: Renaming, id: Digest, node: Digest, text: Text)
    ensures Renamed(rename, id, [Shortening(node, text)]) == rename(id, node, text)
  {
    assert [Shortening(node, text)][..0] == [];
  }

  lemma {:induction false} RenamedFurther(rename: Renaming, id: Digest, first: Shortening, steps: seq<Shortening>)
    ensures Renamed(rename, rename(id, first.node, first.text), steps) == Renamed(rename, id, [first] + steps)
  {
    var all := [first] + steps;
    if steps == [] {
      RenamedOnce(rename, id, first.node, first.text);
      assert all == [Shortening(first.node, first.text)];
    } else {
      RenamedFurther(rename, id, first, steps[..|steps| - 1]);
      assert all[..|all| - 1] == [first] + steps[..|steps| - 1];
    }
  }

  predicate Selected(op: ViewOperation, source: Digest) {
    op.nodeId == source && !op.Range?
  }

  const MARKER_OPEN := Ascii("[headroom node:")
  const MARKER_CLOSE := Ascii("]")

  /** The note is shown once, at the first rewritten place; the others only point to the node. */
  function Replacement(node: Digest, note: Text, first: bool): Text {
    MARKER_OPEN + node + MARKER_CLOSE + if first then [10] + note else []
  }

  function Rewritten(op: ViewOperation, node: Digest, replacement: Text, rename: Renaming): ViewOperation
    requires !op.Range?
  {
    if op.ToolOutput?
    then op.(operationId := rename(op.operationId, node, replacement), nodeId := node, output := replacement)
    else op.(operationId := rename(op.operationId, node, replacement), nodeId := node, text := replacement)
  }

  function RewriteAll(ops: seq<ViewOperation>, source: Digest, node: Digest, note: Text, first: bool, rename: Renaming): seq<ViewOperation>
  {
    if ops == [] then []
    else if Selected(ops[0], source)
    then [Rewritten(ops[0], node, Replacement(node, note, first), rename)] + RewriteAll(ops[1..], source, node, note, false, rename)
    else [ops[0]] + RewriteAll(ops[1..], source, node, note, first, rename)
  }

  // --------------------------------------------------------------------- same places

  /** Both operations edit the same place of the same message, with the same digests. */
  predicate SamePlace(a: ViewOperation, b: ViewOperation) {
    match a
    case Range(_, _, _, _, _) => a == b
    case ToolOutput(_, _, id, source, p, digest, _) =>
      b.ToolOutput? && b.messageId == id && b.sourceDigest == source && b.partIndex == p && b.outputDigest == digest
    case TextRange(_, _, id, source, p, start, end, digest, _) =>
      b.TextRange? && b.messageId == id && b.sourceDigest == source && b.partIndex == p
      && b.start == start && b.end == end && b.textDigest == digest
  }

  /** `op` is untouched, or it is the selected operation `was` under a new id. */
  ghost predicate RewrittenFrom(op: ViewOperation, was: ViewOperation, source: Digest, rename: Renaming) {
    || op == was
    || (Selected(was, source) && SamePlace(op, was) && !op.Range? && NewId(op, was, rename))
  }

  ghost predicate NewId(op: ViewOperation, was: ViewOperation, rename: Renaming) {
    exists node, text :: op.operationId == rename(was.operationId, node, text)
  }

  ghost predicate RewrittenPlan(ops: seq<ViewOperation>, was: seq<ViewOperation>, source: Digest, rename: Renaming) {
    |ops| == |was| && forall i :: 0 <= i < |ops| ==> RewrittenFrom(ops[i], was[i], source, rename)
  }

  lemma {:induction false} RewriteAllIs(
      ops: seq<ViewOperation>, source: Digest, node: Digest, note: Text, first: bool, rename: Renaming)
    ensures RewrittenPlan(RewriteAll(ops, source, node, note, first, rename), ops, source, rename)
    decreases |ops|
  {
    if ops != [] {
      RewriteAllIs(ops[1..], source, node, note, if Selected(ops[0], source) then false else first, rename);
    }
  }

  lemma RewrittenSame(op: ViewOperation, was: ViewOperation, source: Digest, rename: Renaming)
    requires RewrittenFrom(op, was, source, rename)
    ensures SamePlace(op, was) && IdsOf(op) == IdsOf(was) && op.Range? == was.Range?
  {
  }

  lemma SamePlaceFits(h: Hashing, ms: seq<Message>, bound: nat, op: ViewOperation, was: ViewOperation)
    requires bound <= |ms| && SamePlace(op, was) && Fits(h, ms, bound, was)
    ensures Fits(h, ms, bound, op)
  {
  }

  lemma NewIdsDiffer(
      ops: seq<ViewOperation>, a: ViewOperation, x: ViewOperation, b: ViewOperation, y: ViewOperation, source: Digest, rename: Renaming)
    requires RenamesApart(rename, ops) && x in ops && y in ops && x.operationId != y.operationId
    requires RewrittenFrom(a, x, source, rename) && RewrittenFrom(b, y, source, rename)
    ensures a.operationId != b.operationId
  {
    forall node, text
      ensures rename(x.operationId, node, text) != y.operationId && rename(y.operationId, node, text) != x.operationId
    {
      RenamedOnce(rename, x.operationId, node, text);
      RenamedOnce(rename, y.operationId, node, text);
    }
  }

  /** No series of renamings leads from the new form of `x` to the new form of `y`. */
  lemma NewIdsStayApart(
      ops: seq<ViewOperation>, a: ViewOperation, x: ViewOperation, b: ViewOperation, y: ViewOperation, source: Digest,
      rename: Renaming, steps: seq<Shortening>)
    requires RenamesApart(rename, ops) && x in ops && y in ops && steps != []
    requires RewrittenFrom(a, x, source, rename) && RewrittenFrom(b, y, source, rename)
    requires x.operationId == y.operationId ==> a.operationId == b.operationId
    ensures Renamed(rename, a.operationId, steps) != b.operationId
  {
    if a.operationId == x.operationId {
      NewIdIsNoDescendant(ops, x, b, y, source, rename, steps, a.operationId == b.operationId);
    } else {
      var node, text :| a.operationId == rename(x.operationId, node, text);
      RenamedFurther(rename, x.operationId, Shortening(node, text), steps);
      NewIdIsNoDescendant(ops, x, b, y, source, rename, [Shortening(node, text)] + steps, false);
    }
  }

  lemma NewIdIsNoDescendant(
      ops: seq<ViewOperation>, x: ViewOperation, b: ViewOperation, y: ViewOperation, source: Digest,
      rename: Renaming, steps: seq<Shortening>, same: bool)
    requires RenamesApart(rename, ops) && x in ops && y in ops && RewrittenFrom(b, y, source, rename)
    requires steps != [] && (|steps| > 1 || same || x.operationId != y.operationId) && (same ==> b.operationId == x.operationId)
    ensures Renamed(rename, x.operationId, steps) != b.operationId
  {
  }

  /** Hence an enhanced plan can be enhanced again. */
  lemma RewrittenStaysApart(ops: seq<ViewOperation>, was: seq<ViewOperation>, source: Digest, rename: Renaming)
    requires RenamesApart(rename, was) && RewrittenPlan(ops, was, source, rename)
    requires forall i, j :: 0 <= i < j < |was| ==> was[i].operationId != was[j].operationId
    ensures RenamesApart(rename, ops)
  {
    forall x, y, steps | x in ops && y in ops && steps != []
      ensures Renamed(rename, x.operationId, steps) != y.operationId
    {
      var i :| 0 <= i < |ops| && ops[i] == x;
      var j :| 0 <= j < |ops| && ops[j] == y;
      assert was[i].operationId == was[j].operationId ==> i == j;
      NewIdsStayApart(was, x, was[i], y, was[j], source, rename, steps);
    }
  }

  lemma SamePlaceCompatible(ms: seq<Message>, a: ViewOperation, x: ViewOperation, b: ViewOperation, y: ViewOperation)
    requires SamePlace(a, x) && SamePlace(b, y) && Compatible(ms, x, y) && a.operationId != b.operationId
    ensures Compatible(ms, a, b)
  {
  }

  /** The rewritten operations apply wherever the old ones did. */
  lemma RewrittenApplies(
      h: Hashing, ms: seq<Message>, ops: seq<ViewOperation>, was: seq<ViewOperation>, snapshot: Snapshot, source: Digest, rename: Renaming)
    requires Applicable(h, ms, was, snapshot) && RenamesApart(rename, was) && RewrittenPlan(ops, was, source, rename)
    ensures Applicable(h, ms, ops, snapshot)
  {
    forall i | 0 <= i < |ops|
      ensures Fits(h, ms, |snapshot.messageIds|, ops[i])
    {
      assert Fits(h, ms, |snapshot.messageIds|, was[i]);
      RewrittenSame(ops[i], was[i], source, rename);
      SamePlaceFits(h, ms, |snapshot.messageIds|, ops[i], was[i]);
    }
    forall i, j | 0 <= i < j < |ops|
      ensures Compatible(ms, ops[i], ops[j])
    {
      NewIdsDiffer(was, ops[i], was[i], ops[j], was[j], source, rename);
      RewrittenSame(ops[i], was[i], source, rename);
      RewrittenSame(ops[j], was[j], source, rename);
      SamePlaceCompatible(ms, ops[i], was[i], ops[j], was[j]);
    }
    SameRanges(ops, was, source, rename);
  }

  lemma SameRanges(ops: seq<ViewOperation>, was: seq<ViewOperation>, source: Digest, rename: Renaming)
    requires RewrittenPlan(ops, was, source, rename) && ReplacementsDistinct(was)
    ensures ReplacementsDistinct(ops)
  {
    forall i | 0 <= i < |ops|
      ensures ops[i].Range? ==> ops[i] == was[i]
    {
      RewrittenSame(ops[i], was[i], source, rename);
    }
  }

  lemma {:induction false} RewrittenTouchesSame(ops: seq<ViewOperation>, was: seq<ViewOperation>, source: Digest, rename: Renaming)
    requires RewrittenPlan(ops, was, source, rename)
    ensures TouchedIds(ops) == TouchedIds(was)
  {
    if ops != [] {
      var k := |ops| - 1;
      RewrittenTouchesSame(ops[..k], was[..k], source, rename);
      assert RewrittenFrom(ops[k], was[k], source, rename);
      RewrittenSame(ops[k], was[k], source, rename);
    }
  }

  // ---------------------------------------------------------------- edits of one message

  /** Ids of the messages that selected operations edit. */
  function EditedIds(ops: seq<ViewOperation>, source: Digest): set<Text> {
    set op | op in ops && Selected(op, source) :: op.messageId
  }

  predicate Touches(op: ViewOperation, ids: set<Text>) {
    exists i :: 0 <= i < |IdsOf(op)| && IdsOf(op)[i] in ids
  }

  /** The operations on a set of messages, in order. */
  function Local(ops: seq<ViewOperation>, ids: set<Text>): seq<ViewOperation> {
    if ops == [] then []
    else if Touches(ops[0], ids) then [ops[0]] + Local(ops[1..], ids)
    else Local(ops[1..], ids)
  }

  function Among(ms: seq<Message>, ids: set<Text>): seq<Message> {
    if ms == [] then []
    else if ms[0].id in ids then [ms[0]] + Among(ms[1..], ids)
    else Among(ms[1..], ids)
  }

  lemma EditIsTouch(op: ViewOperation, ids: set<Text>, id: Text, p: nat)
    requires id in ids && EditsPart(op, id, p)
    ensures Touches(op, ids)
  {
    assert IdsOf(op)[0] == id;
  }

  lemma ConsToolEdit(head: ViewOperation, rest: seq<ViewOperation>, id: Text, p: nat)
    ensures ToolEditAt([head] + rest, id, p) == if head.ToolOutput? && EditsPart(head, id, p) then Some(head) else ToolEditAt(rest, id, p)
  {
    assert ([head] + rest)[1..] == rest;
  }

  lemma ConsTextEdit(head: ViewOperation, rest: seq<ViewOperation>, id: Text, p: nat, k: nat)
    ensures TextEditAt([head] + rest, id, p, k)
         == if head.TextRange? && EditsPart(head, id, p) && head.start == k < head.end then Some(head) else TextEditAt(rest, id, p, k)
  {
    assert ([head] + rest)[1..] == rest;
  }

  lemma {:induction false} LocalEdits(ops: seq<ViewOperation>, ids: set<Text>, id: Text, p: nat, k: nat)
    requires id in ids
    ensures ToolEditAt(Local(ops, ids), id, p) == ToolEditAt(ops, id, p)
    ensures TextEditAt(Local(ops, ids), id, p, k) == TextEditAt(ops, id, p, k)
    decreases |ops|
  {
    if ops != [] {
      var head, rest := ops[0], ops[1..];
      assert ops == [head] + rest;
      LocalEdits(rest, ids, id, p, k);
      ConsToolEdit(head, rest, id, p);
      ConsTextEdit(head, rest, id, p, k);
      if Touches(head, ids) {
        ConsToolEdit(head, Local(rest, ids), id, p);
        ConsTextEdit(head, Local(rest, ids), id, p, k);
        assert Local(ops, ids) == [head] + Local(rest, ids);
      } else if EditsPart(head, id, p) {
        EditIsTouch(head, ids, id, p);
      }
    }
  }

  lemma {:induction false} LocalText(text: Text, ops: seq<ViewOperation>, ids: set<Text>, id: Text, p: nat, k: nat)
    requires id in ids
    ensures EditText(text, Local(ops, ids), id, p, k) == EditText(text, ops, id, p, k)
    decreases |text| - k
  {
    if k < |text| {
      LocalEdits(ops, ids, id, p, k);
      match TextEditAt(ops, id, p, k)
      case Some(op) => LocalText(text, ops, ids, id, p, op.end);
      case None => LocalText(text, ops, ids, id, p, k + 1);
    }
  }

  /** A message of the set is edited alike by all operations and by the local ones. */
  lemma LocalMessage(m: Message, ops: seq<ViewOperation>, ids: set<Text>)
    requires m.id in ids
    ensures EditMessage(m, Local(ops, ids)) == EditMessage(m, ops)
  {
    forall p: nat | p < |m.parts|
      ensures EditPart(m.parts[p], Local(ops, ids), m.id, p) == EditPart(m.parts[p], ops, m.id, p)
    {
      LocalEdits(ops, ids, m.id, p, 0);
      if m.parts[p].TextPart? {
        LocalText(m.parts[p].text, ops, ids, m.id, p, 0);
      }
    }
    assert EditMessage(m, Local(ops, ids)).parts == EditMessage(m, ops).parts;
  }

  lemma {:induction false} OtherEdits(
      ops: seq<ViewOperation>, was: seq<ViewOperation>, source: Digest, rename: Renaming, id: Text, p: nat, k: nat)
    requires RewrittenPlan(ops, was, source, rename) && id !in EditedIds(was, source)
    ensures ToolEditAt(ops, id, p) == ToolEditAt(was, id, p)
    ensures TextEditAt(ops, id, p, k) == TextEditAt(was, id, p, k)
  {
    if ops != [] {
      assert RewrittenFrom(ops[0], was[0], source, rename);
      RewrittenSame(ops[0], was[0], source, rename);
      assert forall i :: 0 <= i < |ops[1..]| ==> RewrittenFrom(ops[1..][i], was[1..][i], source, rename);
      assert forall op :: op in was[1..] ==> op in was;
      OtherEdits(ops[1..], was[1..], source, rename, id, p, k);
      assert was[0] in was;
    }
  }

  lemma {:induction false} OtherText(
      text: Text, ops: seq<ViewOperation>, was: seq<ViewOperation>, source: Digest, rename: Renaming, id: Text, p: nat, k: nat)
    requires RewrittenPlan(ops, was, source, rename) && id !in EditedIds(was, source)
    ensures EditText(text, ops, id, p, k) == EditText(text, was, id, p, k)
    decreases |text| - k
  {
    if k < |text| {
      OtherEdits(ops, was, source, rename, id, p, k);
      match TextEditAt(was, id, p, k)
      case Some(op) => OtherText(text, ops, was, source, rename, id, p, op.end);
      case None => OtherText(text, ops, was, source, rename, id, p, k + 1);
    }
  }

  /** A message without selected operations is edited as before. */
  lemma OtherMessage(m: Message, ops: seq<ViewOperation>, was: seq<ViewOperation>, source: Digest, rename: Renaming)
    requires RewrittenPlan(ops, was, source, rename) && m.id !in EditedIds(was, source)
    ensures EditMessage(m, ops) == EditMessage(m, was)
  {
    forall p: nat | p < |m.parts|
      ensures EditPart(m.parts[p], ops, m.id, p) == EditPart(m.parts[p], was, m.id, p)
    {
      OtherEdits(ops, was, source, rename, m.id, p, 0);
      if m.parts[p].TextPart? {
        OtherText(m.parts[p].text, ops, was, source, rename, m.id, p, 0);
      }
    }
    assert EditMessage(m, ops).parts == EditMessage(m, was).parts;
  }

  // --------------------------------------------------------------------- the token delta

  /** What rewriting adds to message `i`. */
  function DeltaAt(tokens: Tokens, m: Message, ops: seq<ViewOperation>, was: seq<ViewOperation>): int {
    tokens(EditMessage(m, ops)) - tokens(EditMessage(m, was))
  }

  /** What rewriting adds to the messages of the set from `k` on. */
  function DeltaFrom(tokens: Tokens, ms: seq<Message>, ids: set<Text>, ops: seq<ViewOperation>, was: seq<ViewOperation>, k: nat): int
    decreases |ms| - k
  {
    if k >= |ms| then 0
    else (if ms[k].id in ids then DeltaAt(tokens, ms[k], ops, was) else 0) + DeltaFrom(tokens, ms, ids, ops, was, k + 1)
  }

  function TotalFrom(tokens: Tokens, ms: seq<Message>): nat {
    if ms == [] then 0 else tokens(ms[0]) + TotalFrom(tokens, ms[1..])
  }

  lemma {:induction false} TotalIsFrom(tokens: Tokens, ms: seq<Message>, n: nat)
    requires n <= |ms|
    ensures SumOf(tokens, ms, n) + TotalFrom(tokens, ms[n..]) == TotalFrom(tokens, ms)
  {
    if n > 0 {
      TotalIsFrom(tokens, ms, n - 1);
      assert ms[n - 1..][1..] == ms[n..];
    } else {
      assert ms[0..] == ms;
    }
  }

  lemma TotalsAgree(tokens: Tokens, ms: seq<Message>)
    ensures Total(tokens, ms) == TotalFrom(tokens, ms)
  {
    TotalIsFrom(tokens, ms, |ms|);
    assert ms[|ms|..] == [];
  }

  /** The messages that edits reach are not inside any replaced range. */
  ghost predicate EditedOutsideRanges(ms: seq<Message>, ops: seq<ViewOperation>, ids: set<Text>) {
    forall op, i :: op in ops && op.Range? && 0 <= i < |ms| && Covers(ms, op, i) ==> ms[i].id !in ids
  }

  lemma AppliedOutsideRanges(h: Hashing, ms: seq<Message>, ops: seq<ViewOperation>, snapshot: Snapshot, source: Digest)
    requires Applicable(h, ms, ops, snapshot)
    ensures EditedOutsideRanges(ms, ops, EditedIds(ops, source))
  {
    forall op, i | op in ops && op.Range? && 0 <= i < |ms| && Covers(ms, op, i)
      ensures ms[i].id !in EditedIds(ops, source)
    {
      forall edit | edit in ops && Selected(edit, source)
        ensures edit.messageId != ms[i].id
      {
        MembersCompatible(ms, ops, op, edit);
        assert Fits(h, ms, |snapshot.messageIds|, edit);
        FindUnique(ms, i);
      }
    }
  }

  lemma {:induction false} RangeDelta(
      tokens: Tokens, ms: seq<Message>, ids: set<Text>, ops: seq<ViewOperation>, was: seq<ViewOperation>, k: nat, n: nat)
    requires k <= n <= |ms| && forall i :: k <= i < n ==> ms[i].id !in ids
    ensures DeltaFrom(tokens, ms, ids, ops, was, k) == DeltaFrom(tokens, ms, ids, ops, was, n)
    decreases n - k
  {
    if k < n {
      RangeDelta(tokens, ms, ids, ops, was, k + 1, n);
    }
  }

  lemma {:induction false} SameRangeAt(ms: seq<Message>, ops: seq<ViewOperation>, was: seq<ViewOperation>, source: Digest, rename: Renaming, k: nat)
    requires RewrittenPlan(ops, was, source, rename)
    ensures RangeAt(ms, ops, k) == RangeAt(ms, was, k)
  {
    if ops != [] {
      assert RewrittenFrom(ops[0], was[0], source, rename);
      RewrittenSame(ops[0], was[0], source, rename);
      assert forall i :: 0 <= i < |ops[1..]| ==> RewrittenFrom(ops[1..][i], was[1..][i], source, rename);
      SameRangeAt(ms, ops[1..], was[1..], source, rename, k);
    }
  }

  ghost predicate DeltaHolds(
      tokens: Tokens, ms: seq<Message>, ops: seq<ViewOperation>, was: seq<ViewOperation>, ids: set<Text>, k: nat) {
    TotalFrom(tokens, Substitute(ms, ops, k)) - TotalFrom(tokens, Substitute(ms, was, k)) == DeltaFrom(tokens, ms, ids, ops, was, k)
  }

  lemma RangeTotal(tokens: Tokens, ms: seq<Message>, ops: seq<ViewOperation>, k: nat, op: ViewOperation)
    requires k < |ms| && op.Range? && RangeAt(ms, ops, k) == Some(op)
    ensures TotalFrom(tokens, Substitute(ms, ops, k))
         == tokens(op.replacement) + TotalFrom(tokens, Substitute(ms, ops, k + |op.messageIds|))
  {
    SplitHead(tokens, op.replacement, Substitute(ms, ops, k + |op.messageIds|));
  }

  lemma KeptTotal(tokens: Tokens, ms: seq<Message>, ops: seq<ViewOperation>, k: nat)
    requires k < |ms| && RangeAt(ms, ops, k).None?
    ensures TotalFrom(tokens, Substitute(ms, ops, k))
         == tokens(EditMessage(ms[k], ops)) + TotalFrom(tokens, Substitute(ms, ops, k + 1))
  {
    SplitHead(tokens, EditMessage(ms[k], ops), Substitute(ms, ops, k + 1));
  }

  lemma RangeStep(
      tokens: Tokens, ms: seq<Message>, ops: seq<ViewOperation>, was: seq<ViewOperation>, ids: set<Text>, k: nat, op: ViewOperation)
    requires k < |ms| && op.Range? && RangeAt(ms, ops, k) == Some(op) == RangeAt(ms, was, k)
    requires k + |op.messageIds| <= |ms|
    requires DeltaFrom(tokens, ms, ids, ops, was, k) == DeltaFrom(tokens, ms, ids, ops, was, k + |op.messageIds|)
    requires DeltaHolds(tokens, ms, ops, was, ids, k + |op.messageIds|)
    ensures DeltaHolds(tokens, ms, ops, was, ids, k)
  {
    RangeTotal(tokens, ms, ops, k, op);
    RangeTotal(tokens, ms, was, k, op);
  }

  lemma KeepStep(
      tokens: Tokens, ms: seq<Message>, ops: seq<ViewOperation>, was: seq<ViewOperation>, ids: set<Text>, k: nat)
    requires k < |ms| && RangeAt(ms, ops, k).None? && RangeAt(ms, was, k).None?
    requires ms[k].id !in ids ==> EditMessage(ms[k], ops) == EditMessage(ms[k], was)
    requires DeltaHolds(tokens, ms, ops, was, ids, k + 1)
    ensures DeltaHolds(tokens, ms, ops, was, ids, k)
  {
    KeptTotal(tokens, ms, ops, k);
    KeptTotal(tokens, ms, was, k);
  }

  lemma RangeUntouched(
      tokens: Tokens, ms: seq<Message>, ops: seq<ViewOperation>, was: seq<ViewOperation>, ids: set<Text>, k: nat, op: ViewOperation)
    requires EditedOutsideRanges(ms, was, ids) && op in was && op.Range? && Start(ms, op) == k && k + |op.messageIds| <= |ms|
    ensures DeltaFrom(tokens, ms, ids, ops, was, k) == DeltaFrom(tokens, ms, ids, ops, was, k + |op.messageIds|)
  {
    forall i | k <= i < k + |op.messageIds|
      ensures ms[i].id !in ids
    {
      assert Covers(ms, op, i);
    }
    RangeDelta(tokens, ms, ids, ops, was, k, k + |op.messageIds|);
  }

  /** The rewriting keeps the ranges, and changes no message outside the edited ones. */
  ghost predicate OnlyEdits(ms: seq<Message>, ops: seq<ViewOperation>, was: seq<ViewOperation>, ids: set<Text>) {
    && (forall k: nat :: RangeAt(ms, ops, k) == RangeAt(ms, was, k))
    && (forall i :: 0 <= i < |ms| && ms[i].id !in ids ==> EditMessage(ms[i], ops) == EditMessage(ms[i], was))
  }

  lemma RewritingOnlyEdits(ms: seq<Message>, ops: seq<ViewOperation>, was: seq<ViewOperation>, source: Digest, rename: Renaming)
    requires RewrittenPlan(ops, was, source, rename)
    ensures OnlyEdits(ms, ops, was, EditedIds(was, source))
  {
    forall k: nat
      ensures RangeAt(ms, ops, k) == RangeAt(ms, was, k)
    {
      SameRangeAt(ms, ops, was, source, rename, k);
    }
    forall i | 0 <= i < |ms| && ms[i].id !in EditedIds(was, source)
      ensures EditMessage(ms[i], ops) == EditMessage(ms[i], was)
    {
      OtherMessage(ms[i], ops, was, source, rename);
    }
  }

  /** The whole history changes by exactly what its edited messages change by. */
  lemma {:induction false} WholeDelta(
      tokens: Tokens, ms: seq<Message>, ops: seq<ViewOperation>, was: seq<ViewOperation>, ids: set<Text>, k: nat)
    requires Tiled(ms, was) && Boundary(ms, was, k) && k <= |ms|
    requires OnlyEdits(ms, ops, was, ids) && EditedOutsideRanges(ms, was, ids)
    ensures DeltaHolds(tokens, ms, ops, was, ids, k)
    decreases |ms| - k
  {
    if k < |ms| {
      BoundaryNext(ms, was, k);
      WholeDelta(tokens, ms, ops, was, ids, Next(ms, was, k));
      DeltaStep(tokens, ms, ops, was, ids, k);
    }
  }

  lemma DeltaStep(tokens: Tokens, ms: seq<Message>, ops: seq<ViewOperation>, was: seq<ViewOperation>, ids: set<Text>, k: nat)
    requires OnlyEdits(ms, ops, was, ids) && EditedOutsideRanges(ms, was, ids)
    requires k < |ms| && Next(ms, was, k) <= |ms| && DeltaHolds(tokens, ms, ops, was, ids, Next(ms, was, k))
    ensures DeltaHolds(tokens, ms, ops, was, ids, k)
  {
    var op := RangeAt(ms, was, k);
    assert RangeAt(ms, ops, k) == op;
    if op.Some? {
      RangeUntouched(tokens, ms, ops, was, ids, k, op.value);
      RangeStep(tokens, ms, ops, was, ids, k, op.value);
    } else {
      KeepStep(tokens, ms, ops, was, ids, k);
    }
  }

  lemma SplitHead(tokens: Tokens, head: Message, rest: seq<Message>)
    ensures TotalFrom(tokens, [head] + rest) == tokens(head) + TotalFrom(tokens, rest)
  {
    assert ([head] + rest)[1..] == rest;
  }

  /** Measuring only the edited messages, with only their operations, gives the same delta. */
  lemma {:induction false} LocalDelta(
      tokens: Tokens, ms: seq<Message>, ids: set<Text>, ops: seq<ViewOperation>, was: seq<ViewOperation>, k: nat)
    requires k <= |ms|
    ensures var some := Among(ms[k..], ids);
            TotalFrom(tokens, Edited(some, Local(ops, ids))) - TotalFrom(tokens, Edited(some, Local(was, ids)))
            == DeltaFrom(tokens, ms, ids, ops, was, k)
    decreases |ms| - k
  {
    if k < |ms| {
      LocalDelta(tokens, ms, ids, ops, was, k + 1);
      AmongStep(ms, ids, k);
      if ms[k].id in ids {
        EditedLocally(tokens, ms[k], Among(ms[k + 1..], ids), ops, ids);
        EditedLocally(tokens, ms[k], Among(ms[k + 1..], ids), was, ids);
      }
    } else {
      assert ms[k..] == [];
    }
  }

  lemma AmongStep(ms: seq<Message>, ids: set<Text>, k: nat)
    requires k < |ms|
    ensures Among(ms[k..], ids) == if ms[k].id in ids then [ms[k]] + Among(ms[k + 1..], ids) else Among(ms[k + 1..], ids)
  {
    assert ms[k..][1..] == ms[k + 1..];
  }

  lemma EditedLocally(tokens: Tokens, head: Message, rest: seq<Message>, ops: seq<ViewOperation>, ids: set<Text>)
    requires head.id in ids
    ensures TotalFrom(tokens, Edited([head] + rest, Local(ops, ids)))
         == tokens(EditMessage(head, ops)) + TotalFrom(tokens, Edited(rest, Local(ops, ids)))
  {
    LocalMessage(head, ops, ids);
    EditedHead(tokens, head, rest, Local(ops, ids));
  }

  function Edited(ms: seq<Message>, ops: seq<ViewOperation>): seq<Message> {
    seq(|ms|, i requires 0 <= i < |ms| => EditMessage(ms[i], ops))
  }

  lemma EditedHead(tokens: Tokens, head: Message, rest: seq<Message>, ops: seq<ViewOperation>)
    ensures TotalFrom(tokens, Edited([head] + rest, ops)) == tokens(EditMessage(head, ops)) + TotalFrom(tokens, Edited(rest, ops))
  {
    assert Edited([head] + rest, ops) == [EditMessage(head, ops)] + Edited(rest, ops);
    SplitHead(tokens, EditMessage(head, ops), Edited(rest, ops));
  }

  // -------------------------------------------------------------------- the base plan

  function UntouchedFrom(tokens: Tokens, ms: seq<Message>, touched: set<Text>, k: nat): nat
    decreases |ms| - k
  {
    if k >= |ms| then 0 else (if ms[k].id in touched then 0 else tokens(ms[k])) + UntouchedFrom(tokens, ms, touched, k + 1)
  }

  lemma {:induction false} UntouchedSplits(tokens: Tokens, ms: seq<Message>, touched: set<Text>, n: nat)
    requires n <= |ms|
    ensures Untouched(tokens, ms, touched, n) + UntouchedFrom(tokens, ms, touched, n) == UntouchedFrom(tokens, ms, touched, 0)
  {
    if n > 0 {
      UntouchedSplits(tokens, ms, touched, n - 1);
    }
  }

  lemma {:induction false} TouchedRange(tokens: Tokens, ms: seq<Message>, touched: set<Text>, k: nat, n: nat)
    requires k <= n <= |ms| && forall i :: k <= i < n ==> ms[i].id in touched
    ensures UntouchedFrom(tokens, ms, touched, k) == UntouchedFrom(tokens, ms, touched, n)
    decreases n - k
  {
    if k < n {
      TouchedRange(tokens, ms, touched, k + 1, n);
    }
  }

  /** `touched` holds every message of a replaced range and every edited message. */
  ghost predicate AllTouched(ms: seq<Message>, ops: seq<ViewOperation>, touched: set<Text>) {
    && (forall op, i :: op in ops && op.Range? && 0 <= i < |ms| && Covers(ms, op, i) ==> ms[i].id in touched)
    && (forall op :: op in ops && !op.Range? ==> op.messageId in touched)
  }

  lemma AppliedAllTouched(h: Hashing, ms: seq<Message>, ops: seq<ViewOperation>, snapshot: Snapshot)
    requires Applicable(h, ms, ops, snapshot)
    ensures AllTouched(ms, ops, TouchedIds(ops))
  {
    forall op, i | op in ops && op.Range? && 0 <= i < |ms| && Covers(ms, op, i)
      ensures ms[i].id in TouchedIds(ops)
    {
      assert Fits(h, ms, |snapshot.messageIds|, op);
      var k := i - Start(ms, op);
      assert RangeSource(h, ms[Start(ms, op) + k], op.messageIds[k], op.sourceDigests[k]);
      assert IdsOf(op)[k] == ms[i].id;
    }
    forall op | op in ops && !op.Range?
      ensures op.messageId in TouchedIds(ops)
    {
      assert IdsOf(op)[0] == op.messageId;
    }
  }

  lemma RangeIsTouched(tokens: Tokens, ms: seq<Message>, ops: seq<ViewOperation>, touched: set<Text>, k: nat, op: ViewOperation)
    requires AllTouched(ms, ops, touched) && op in ops && op.Range? && Start(ms, op) == k && k + |op.messageIds| <= |ms|
    ensures UntouchedFrom(tokens, ms, touched, k) == UntouchedFrom(tokens, ms, touched, k + |op.messageIds|)
  {
    forall i | k <= i < k + |op.messageIds|
      ensures ms[i].id in touched
    {
      assert Covers(ms, op, i);
    }
    TouchedRange(tokens, ms, touched, k, k + |op.messageIds|);
  }

  /** What is left after the edits is at least what they do not touch. */
  lemma {:induction false} UntouchedRemain(tokens: Tokens, ms: seq<Message>, ops: seq<ViewOperation>, touched: set<Text>, k: nat)
    requires Tiled(ms, ops) && Boundary(ms, ops, k) && AllTouched(ms, ops, touched) && k <= |ms|
    ensures UntouchedFrom(tokens, ms, touched, k) <= TotalFrom(tokens, Substitute(ms, ops, k))
    decreases |ms| - k
  {
    if k < |ms| {
      BoundaryNext(ms, ops, k);
      UntouchedRemain(tokens, ms, ops, touched, Next(ms, ops, k));
      RemainStep(tokens, ms, ops, touched, k);
    }
  }

  lemma RemainStep(tokens: Tokens, ms: seq<Message>, ops: seq<ViewOperation>, touched: set<Text>, k: nat)
    requires AllTouched(ms, ops, touched) && k < |ms| && Next(ms, ops, k) <= |ms|
    requires UntouchedFrom(tokens, ms, touched, Next(ms, ops, k)) <= TotalFrom(tokens, Substitute(ms, ops, Next(ms, ops, k)))
    ensures UntouchedFrom(tokens, ms, touched, k) <= TotalFrom(tokens, Substitute(ms, ops, k))
  {
    var op := RangeAt(ms, ops, k);
    if op.Some? {
      RangeIsTouched(tokens, ms, ops, touched, k, op.value);
      RangeTotal(tokens, ms, ops, k, op.value);
    } else {
      KeptTotal(tokens, ms, ops, k);
      if ms[k].id !in touched {
        UntouchedMessage(ms[k], ops);
      }
    }
  }

  lemma RetainedIsLeft(h: Hashing, tokens: Tokens, ms: seq<Message>, ops: seq<ViewOperation>, snapshot: Snapshot)
    requires Applicable(h, ms, ops, snapshot)
    ensures Untouched(tokens, ms, TouchedIds(ops), |ms|) <= Total(tokens, Substitute(ms, ops, 0))
  {
    WellPlacedTiled(h, ms, ops, snapshot);
    AppliedAllTouched(h, ms, ops, snapshot);
    UntouchedRemain(tokens, ms, ops, TouchedIds(ops), 0);
    UntouchedSplits(tokens, ms, TouchedIds(ops), |ms|);
    TotalsAgree(tokens, Substitute(ms, ops, 0));
  }

  lemma {:induction false} LocalAreMembers(ops: seq<ViewOperation>, ids: set<Text>)
    ensures forall op :: op in Local(ops, ids) ==> op in ops && Touches(op, ids)
  {
    if ops != [] {
      LocalAreMembers(ops[1..], ids);
    }
  }

  /** Where the operations apply, no range touches an edited message, so the local ones are edits. */
  lemma LocalIsEdits(h: Hashing, ms: seq<Message>, ops: seq<ViewOperation>, snapshot: Snapshot, ids: set<Text>)
    requires Applicable(h, ms, ops, snapshot) && EditedOutsideRanges(ms, ops, ids)
    ensures EditsOnly(Local(ops, ids))
  {
    LocalAreMembers(ops, ids);
    forall op | op in Local(ops, ids)
      ensures !op.Range?
    {
      if op.Range? {
        assert Fits(h, ms, |snapshot.messageIds|, op);
        var i :| 0 <= i < |IdsOf(op)| && IdsOf(op)[i] in ids;
        assert RangeSource(h, ms[Start(ms, op) + i], op.messageIds[i], op.sourceDigests[i]);
        assert Covers(ms, op, Start(ms, op) + i);
      }
    }
  }

  lemma EditsAreEdited(ms: seq<Message>, ops: seq<ViewOperation>)
    requires EditsOnly(ops)
    ensures Substitute(ms, ops, 0) == Edited(ms, ops)
  {
    EditsKeepShape(ms, ops, 0);
  }

  lemma RewrittenOutsideRanges(
      ms: seq<Message>, ops: seq<ViewOperation>, was: seq<ViewOperation>, source: Digest, rename: Renaming, ids: set<Text>)
    requires RewrittenPlan(ops, was, source, rename) && EditedOutsideRanges(ms, was, ids)
    ensures EditedOutsideRanges(ms, ops, ids)
  {
    forall op, i | op in ops && op.Range? && 0 <= i < |ms| && Covers(ms, op, i)
      ensures ms[i].id !in ids
    {
      var k :| 0 <= k < |ops| && ops[k] == op;
      RewrittenSame(ops[k], was[k], source, rename);
      assert was[k] in was;
    }
  }

  /** The delta measured on the edited messages alone is the delta of the whole history. */
  lemma LocalIsWhole(
      h: Hashing, tokens: Tokens, ms: seq<Message>, ops: seq<ViewOperation>, was: seq<ViewOperation>, snapshot: Snapshot,
      source: Digest, rename: Renaming)
    requires Applicable(h, ms, was, snapshot) && Applicable(h, ms, ops, snapshot) && RewrittenPlan(ops, was, source, rename)
    ensures var ids := EditedIds(was, source);
            var some := Among(ms, ids);
            Total(tokens, Substitute(some, Local(ops, ids), 0)) - Total(tokens, Substitute(some, Local(was, ids), 0))
            == Total(tokens, Substitute(ms, ops, 0)) - Total(tokens, Substitute(ms, was, 0))
  {
    var ids := EditedIds(was, source);
    var some := Among(ms, ids);
    AppliedOutsideRanges(h, ms, was, snapshot, source);
    RewrittenOutsideRanges(ms, ops, was, source, rename, ids);
    LocalIsEdits(h, ms, was, snapshot, ids);
    LocalIsEdits(h, ms, ops, snapshot, ids);
    EditsAreEdited(some, Local(ops, ids));
    EditsAreEdited(some, Local(was, ids));
    WellPlacedTiled(h, ms, was, snapshot);
    RewritingOnlyEdits(ms, ops, was, source, rename);
    WholeDelta(tokens, ms, ops, was, ids, 0);
    LocalDelta(tokens, ms, ids, ops, was, 0);
    assert ms[0..] == ms;
    TotalsAgree(tokens, Substitute(ms, ops, 0));
    TotalsAgree(tokens, Substitute(ms, was, 0));
    TotalsAgree(tokens, Edited(some, Local(ops, ids)));
    TotalsAgree(tokens, Edited(some, Local(was, ids)));
  }

  // ------------------------------------------------------- the edited messages on their own

  lemma {:induction false} AmongHas(ms: seq<Message>, ids: set<Text>, m: Message)
    ensures m in Among(ms, ids) <==> m in ms && m.id in ids
  {
    if ms != [] {
      assert ms == [ms[0]] + ms[1..];
      AmongHas(ms[1..], ids, m);
    }
  }

  lemma {:induction false} AmongUnique(ms: seq<Message>, ids: set<Text>)
    requires UniqueIds(ms)
    ensures UniqueIds(Among(ms, ids))
  {
    if ms != [] {
      AmongUnique(ms[1..], ids);
      var rest := Among(ms[1..], ids);
      forall i | 0 <= i < |rest|
        ensures rest[i].id != ms[0].id
      {
        AmongHas(ms[1..], ids, rest[i]);
      }
    }
  }

  lemma {:induction false} AmongWithout(ms: seq<Message>, ids: set<Text>, id: Text)
    requires forall i :: 0 <= i < |ms| ==> ms[i].id != id
    ensures Among(ms, ids - {id}) == Among(ms, ids)
  {
    if ms != [] {
      AmongWithout(ms[1..], ids, id);
    }
  }

  predicate HasId(ms: seq<Message>, id: Text) {
    exists i :: 0 <= i < |ms| && ms[i].id == id
  }

  /** Filtering a history by ids it has gives one message for each. */
  lemma {:induction false} AmongCount(ms: seq<Message>, ids: set<Text>)
    requires UniqueIds(ms) && forall id :: id in ids ==> HasId(ms, id)
    ensures |Among(ms, ids)| == |ids|
  {
    if ms == [] {
      assert forall id :: id !in ids;
      assert ids == {};
    } else {
      var id, less := ms[0].id, ids - {ms[0].id};
      assert forall i :: 0 <= i < |ms[1..]| ==> ms[1..][i] == ms[i + 1] && ms[1..][i].id != id;
      forall x | x in less
        ensures HasId(ms[1..], x)
      {
        var i :| 0 <= i < |ms| && ms[i].id == x;
        assert ms[1..][i - 1].id == x;
      }
      AmongCount(ms[1..], less);
      AmongWithout(ms[1..], ids, id);
    }
  }

  lemma {:induction false} LocalHas(ops: seq<ViewOperation>, ids: set<Text>, op: ViewOperation)
    requires op in ops && Touches(op, ids)
    ensures op in Local(ops, ids)
  {
    if ops[0] != op {
      LocalHas(ops[1..], ids, op);
    }
  }

  predicate Independent(a: ViewOperation, b: ViewOperation) {
    a.operationId != b.operationId && Apart(a, b)
  }

  ghost predicate AllIndependent(ops: seq<ViewOperation>) {
    forall i, j :: 0 <= i < j < |ops| ==> Independent(ops[i], ops[j])
  }

  lemma ConsIndependent(head: ViewOperation, rest: seq<ViewOperation>)
    requires AllIndependent(rest) && forall op :: op in rest ==> Independent(head, op)
    ensures AllIndependent([head] + rest)
  {
  }

  lemma {:induction false} LocalIndependent(ms: seq<Message>, ops: seq<ViewOperation>, ids: set<Text>)
    requires PairwiseCompatible(ms, ops)
    ensures AllIndependent(Local(ops, ids))
  {
    if ops != [] {
      LocalIndependent(ms, ops[1..], ids);
      LocalAreMembers(ops[1..], ids);
      forall op | op in Local(ops[1..], ids)
        ensures Independent(ops[0], op)
      {
        var k :| 0 <= k < |ops[1..]| && ops[1..][k] == op;
        assert Compatible(ms, ops[0], ops[k + 1]);
      }
      ConsIndependent(ops[0], Local(ops[1..], ids));
    }
  }

  function SnapshotOfAll(h: Hashing, ms: seq<Message>): Snapshot {
    Snapshot(seq(|ms|, i requires 0 <= i < |ms| => ms[i].id), seq(|ms|, i requires 0 <= i < |ms| => h.content(ms[i])))
  }

  lemma LocalFits(h: Hashing, ms: seq<Message>, ops: seq<ViewOperation>, snapshot: Snapshot, ids: set<Text>, op: ViewOperation)
    requires Applicable(h, ms, ops, snapshot) && op in Local(ops, ids) && !op.Range?
    ensures var some := Among(ms, ids); Fits(h, some, |some|, op)
  {
    var some := Among(ms, ids);
    LocalAreMembers(ops, ids);
    assert Fits(h, ms, |snapshot.messageIds|, op);
    var m := ms[Start(ms, op)];
    AmongHas(ms, ids, m);
    AmongUnique(ms, ids);
    var j :| 0 <= j < |some| && some[j] == m;
    FindUnique(some, j);
  }

  /** Edits that apply to the history apply to the edited messages alone, bound to a snapshot of just those. */
  lemma LocalApplies(h: Hashing, ms: seq<Message>, ops: seq<ViewOperation>, snapshot: Snapshot, ids: set<Text>)
    requires Applicable(h, ms, ops, snapshot) && EditedOutsideRanges(ms, ops, ids)
    requires exists op :: op in ops && Touches(op, ids)
    ensures var some := Among(ms, ids); Applicable(h, some, Local(ops, ids), SnapshotOfAll(h, some))
  {
    var some, local := Among(ms, ids), Local(ops, ids);
    var touching :| touching in ops && Touches(touching, ids);
    LocalHas(ops, ids, touching);
    LocalIsEdits(h, ms, ops, snapshot, ids);
    AmongUnique(ms, ids);
    LocalIndependent(ms, ops, ids);
    forall op | op in local
      ensures Fits(h, some, |some|, op)
    {
      LocalFits(h, ms, ops, snapshot, ids, op);
    }
    forall i, j | 0 <= i < j < |local|
      ensures Compatible(some, local[i], local[j])
    {
      assert local[i] in local && local[j] in local && Independent(local[i], local[j]);
    }
    SnapshotOfAllBinds(h, some);
  }

  lemma SnapshotOfAllBinds(h: Hashing, ms: seq<Message>)
    requires UniqueIds(ms)
    ensures SnapshotBinds(h, ms, SnapshotOfAll(h, ms))
  {
  }

  lemma EditedAreInHistory(h: Hashing, ms: seq<Message>, ops: seq<ViewOperation>, snapshot: Snapshot, source: Digest)
    requires Applicable(h, ms, ops, snapshot)
    ensures forall id :: id in EditedIds(ops, source) ==> HasId(ms, id)
  {
    forall id | id in EditedIds(ops, source)
      ensures HasId(ms, id)
    {
      var op :| op in ops && Selected(op, source) && op.messageId == id;
      assert Fits(h, ms, |snapshot.messageIds|, op);
      assert ms[Start(ms, op)].id == id;
    }
  }

  lemma SelectedTouches(ops: seq<ViewOperation>, was: seq<ViewOperation>, source: Digest, rename: Renaming)
    requires RewrittenPlan(ops, was, source, rename) && EditedIds(was, source) != {}
    ensures exists op :: op in ops && Touches(op, EditedIds(was, source))
  {
    var ids := EditedIds(was, source);
    var id :| id in ids;
    var i :| 0 <= i < |was| && Selected(was[i], source) && was[i].messageId == id;
    RewrittenSame(ops[i], was[i], source, rename);
    assert IdsOf(ops[i])[0] == id && ops[i] in ops;
  }

  /** For a base plan that applies, the local measurement always succeeds and gives the whole delta. */
  lemma LocalMeasures(
      h: Hashing, tokens: Tokens, ms: seq<Message>, ops: seq<ViewOperation>, was: seq<ViewOperation>, snapshot: Snapshot,
      source: Digest, rename: Renaming)
    requires Applicable(h, ms, was, snapshot) && RenamesApart(rename, was) && RewrittenPlan(ops, was, source, rename)
    requires EditedIds(was, source) != {}
    ensures Applicable(h, ms, ops, snapshot)
    ensures var ids := EditedIds(was, source);
            var some := Among(ms, ids);
            && |some| == |ids|
            && Applicable(h, some, Local(was, ids), SnapshotOfAll(h, some))
            && Applicable(h, some, Local(ops, ids), SnapshotOfAll(h, some))
            && Total(tokens, Substitute(some, Local(ops, ids), 0)) - Total(tokens, Substitute(some, Local(was, ids), 0))
               == Total(tokens, Substitute(ms, ops, 0)) - Total(tokens, Substitute(ms, was, 0))
  {
    var ids := EditedIds(was, source);
    RewrittenApplies(h, ms, ops, was, snapshot, source, rename);
    EditedAreInHistory(h, ms, was, snapshot, source);
    AmongCount(ms, ids);
    AppliedOutsideRanges(h, ms, was, snapshot, source);
    RewrittenOutsideRanges(ms, ops, was, source, rename, ids);
    SelectedTouches(ops, was, source, rename);
    SelectedTouches(was, was, source, rename);
    LocalApplies(h, ms, was, snapshot, ids);
    LocalApplies(h, ms, ops, snapshot, ids);
    LocalIsWhole(h, tokens, ms, ops, was, snapshot, source, rename);
  }

  // -------------------------------------------------------------------- the candidate

  /** The summary node: one level above its source, its only child, without events of its own. */
  function SummaryNode(source: Node, nodeId: Digest, note: Text, tokens: nat): Node {
    Node(nodeId, source.level + 1, [source.nodeId], [], None, note, tokens, source.sourceTokens)
  }

  datatype Revision = Revision(operations: seq<ViewOperation>, memory: seq<MemoryEntry>, summary: Text, historyHash: Digest, node: Node)

  /** The base plan with its operations, memory and totals replaced. */
  function Enhanced(base: Plan, draft: Revision, memoryTokens: nat, delta: int): Plan
    requires base.budget.Some?
  {
    base.(
      operations := Some(draft.operations), memory := Some(draft.memory), summary := Some(draft.summary),
      historyHash := Some(draft.historyHash), nodes := base.nodes + [draft.node],
      replacementTokensEst := base.replacementTokensEst + delta, finalTokensEst := base.finalTokensEst + delta,
      freedTokens := base.freedTokens - delta, budget := Some(base.budget.value.(memoryTokens := memoryTokens)))
  }

  /** What a returned candidate guarantees about its base and its history. */
  ghost predicate Improves(h: Hashing, tokens: Tokens, ms: seq<Message>, base: Plan, plan: Plan, source: Digest, rename: Renaming) {
    && WireValid(plan) && plan.compacted
    && base.operations.Some? && plan.operations.Some? && plan.sourceSnapshot == base.sourceSnapshot && plan.sourceSnapshot.Some?
    && RewrittenPlan(plan.operations.value, base.operations.value, source, rename)
    && Applicable(h, ms, plan.operations.value, plan.sourceSnapshot.value)
    && plan.replacedMessageIds == base.replacedMessageIds && plan.refs == base.refs
    && plan.finalTokensEst == Total(tokens, Substitute(ms, plan.operations.value, 0))
    && plan.finalTokensEst < base.finalTokensEst && plan.retainedTokensEst == base.retainedTokensEst
    && plan.budget.Some? && plan.budget.value.memoryTokens <= plan.budget.value.historyBudgetTokens
  }

  lemma EnhancedIsAligned(base: Plan, plan: Plan, ops: seq<ViewOperation>, source: Digest, rename: Renaming)
    requires WireValid(base) && base.compacted && base.operations.Some? && base.sourceSnapshot.Some?
    requires RewrittenPlan(ops, base.operations.value, source, rename)
    requires (forall op :: op in ops ==> SchemaValid(op)) && OperationsAligned(base.sourceSnapshot.value, ops)
    requires plan.compacted && plan.operations == Some(ops) && plan.sourceSnapshot == base.sourceSnapshot
    requires plan.replacedMessageIds == base.replacedMessageIds && plan.sourceDigests == base.sourceDigests
    ensures Parsed(plan) && Aligned(plan)
  {
    RewrittenTouchesSame(ops, base.operations.value, source, rename);
  }

  lemma EnhancedAccounts(base: Plan, draft: Revision, memoryTokens: nat, delta: int)
    requires Accounted(base) && NonNegative(base) && base.compacted && base.budget.Some?
    requires delta < 0 && base.retainedTokensEst <= base.finalTokensEst + delta
    ensures Accounted(Enhanced(base, draft, memoryTokens, delta)) && NonNegative(Enhanced(base, draft, memoryTokens, delta))
  {
  }

  lemma EnhancedProvenance(base: Plan, draft: Revision, memoryTokens: nat, delta: int)
    requires (forall n :: n in base.nodes ==> LeafProvenance(n)) && base.budget.Some? && draft.node.stateEvents.None?
    ensures forall n :: n in Enhanced(base, draft, memoryTokens, delta).nodes ==> LeafProvenance(n)
  {
  }

  lemma EnhancedImproves(
      h: Hashing, tokens: Tokens, ms: seq<Message>, base: Plan, draft: Revision, memoryTokens: nat, delta: int, source: Digest, rename: Renaming)
    requires HonestBase(h, tokens, ms, base) && base.budget.Some? && memoryTokens <= base.budget.value.historyBudgetTokens
    requires Applicable(h, ms, draft.operations, base.sourceSnapshot.value)
    requires RewrittenPlan(draft.operations, base.operations.value, source, rename)
    requires draft.node.stateEvents.None? && delta < 0
    requires delta == Total(tokens, Substitute(ms, draft.operations, 0)) - Total(tokens, Substitute(ms, base.operations.value, 0))
    ensures Improves(h, tokens, ms, base, Enhanced(base, draft, memoryTokens, delta), source, rename)
  {
    var plan, snapshot := Enhanced(base, draft, memoryTokens, delta), base.sourceSnapshot.value;
    AppliedAligned(h, ms, draft.operations, snapshot);
    EnhancedIsAligned(base, plan, draft.operations, source, rename);
    RetainedIsLeft(h, tokens, ms, draft.operations, snapshot);
    RewrittenTouchesSame(draft.operations, base.operations.value, source, rename);
    EnhancedAccounts(base, draft, memoryTokens, delta);
    EnhancedProvenance(base, draft, memoryTokens, delta);
  }

  lemma RewriteStep(ops: seq<ViewOperation>, i: nat, source: Digest, node: Digest, note: Text, first: bool, rename: Renaming)
    requires i < |ops|
    ensures RewriteAll(ops[i..], source, node, note, first, rename) ==
            if Selected(ops[i], source)
            then [Rewritten(ops[i], node, Replacement(node, note, first), rename)] + RewriteAll(ops[i + 1..], source, node, note, false, rename)
            else [ops[i]] + RewriteAll(ops[i + 1..], source, node, note, first, rename)
  {
    assert ops[i..][1..] == ops[i + 1..];
  }

  /** The operation belongs to the source node and edits a part of a message. */
  ghost predicate Replaced(op: ViewOperation, source: Digest) {
    !op.Range? && op.nodeId == source
  }

  /** `op` is operation `i` of the plan: as it was, or pointing to the new node, with the note behind the first marker only. */
  ghost predicate Points(was: seq<ViewOperation>, source: Digest, node: Digest, note: Text, rename: Renaming, i: nat, op: ViewOperation)
    requires i < |was|
  {
    if !Replaced(was[i], source) then op == was[i]
    else
      var leads := forall k :: 0 <= k < i ==> !Replaced(was[k], source);
      var text := Ascii("[headroom node:") + node + Ascii("]") + if leads then [10] + note else [];
      PointsWith(was[i], op, node, text, rename(was[i].operationId, node, text))
  }

  ghost predicate PointsWith(was: ViewOperation, op: ViewOperation, node: Digest, text: Text, id: Digest) {
    match was
    case Range(_, _, _, _, _) => op == was
    case ToolOutput(_, _, m, source, p, digest, _) => op == ToolOutput(id, node, m, source, p, digest, text)
    case TextRange(_, _, m, source, p, start, end, digest, _) => op == TextRange(id, node, m, source, p, start, end, digest, text)
  }

  /** The note appears at the first rewritten place only; every other place just points to the node. */
  lemma NoteShownOnce(was: seq<ViewOperation>, source: Digest, node: Digest, note: Text, rename: Renaming)
    ensures var ops := RewriteAll(was, source, node, note, true, rename);
            |ops| == |was| && forall i :: 0 <= i < |was| ==> Points(was, source, node, note, rename, i, ops[i])
  {
    RewriteAllIs(was, source, node, note, true, rename);
    forall i | 0 <= i < |was|
      ensures Points(was, source, node, note, rename, i, RewriteAll(was, source, node, note, true, rename)[i])
    {
      RewrittenAt(was, source, node, note, true, rename, i);
      var leading := forall k :: 0 <= k < i ==> !Selected(was[k], source);
      assert leading <==> forall k :: 0 <= k < i ==> !Replaced(was[k], source);
      assert Replacement(node, note, leading) == Ascii("[headroom node:") + node + Ascii("]") + if leading then [10] + note else [];
    }
  }

  lemma {:induction false} RewrittenAt(
      was: seq<ViewOperation>, source: Digest, node: Digest, note: Text, first: bool, rename: Renaming, i: nat)
    requires i < |was|
    ensures var ops := RewriteAll(was, source, node, note, first, rename);
            && |ops| == |was|
            && (!Selected(was[i], source) ==> ops[i] == was[i])
            && (Selected(was[i], source) ==>
                  var leading := first && forall k :: 0 <= k < i ==> !Selected(was[k], source);
                  ops[i] == Rewritten(was[i], node, Replacement(node, note, leading), rename))
    decreases |was|
  {
    RewriteAllIs(was, source, node, note, first, rename);
    if i > 0 {
      var still := first && !Selected(was[0], source);
      RewrittenAt(was[1..], source, node, note, still, rename, i - 1);
      assert (forall k :: 0 <= k < i - 1 ==> !Selected(was[1..][k], source)) <==> (forall k :: 1 <= k < i ==> !Selected(was[k], source));
    }
  }

  lemma Onward<T>(done: seq<T>, x: T, rest: seq<T>)
    ensures done + [x] + rest == done + ([x] + rest)
  {
  }

  /** The loop that rewrites the selected operations, with its first-place flag. */
  method RewriteLoop(ops: seq<ViewOperation>, source: Digest, node: Digest, note: Text, rename: Renaming)
      returns (operations: seq<ViewOperation>)
    ensures operations == RewriteAll(ops, source, node, note, true, rename)
    ensures |operations| == |ops| && forall i :: 0 <= i < |ops| ==> Points(ops, source, node, note, rename, i, operations[i])
  {
    NoteShownOnce(ops, source, node, note, rename);
    operations := [];
    var first, i := true, 0;
    ghost var goal := RewriteAll(ops, source, node, note, true, rename);
    assert ops[0..] == ops;
    while i < |ops|
      invariant 0 <= i <= |ops|
      invariant operations + RewriteAll(ops[i..], source, node, note, first, rename) == goal
    {
      RewriteStep(ops, i, source, node, note, first, rename);
      var op := if Selected(ops[i], source) then Rewritten(ops[i], node, Replacement(node, note, first), rename) else ops[i];
      first := first && !Selected(ops[i], source);
      Onward(operations, op, RewriteAll(ops[i + 1..], source, node, note, first, rename));
      operations := operations + [op];
      i := i + 1;
    }
  }

  function SourceIds(node: Node): set<Text> {
    set ref | ref in node.sourceRefs :: ref.messageId
  }

  /** The model's entries may name only the node's own sources, and never a constraint. */
  predicate EntriesValid(entries: seq<MemoryEntry>, sources: set<Text>, blank: Text -> bool) {
    && entries != []
    && forall i :: 0 <= i < |entries| ==>
         EntryValid(entries[i], sources, blank)
  }

  predicate EntryValid(entry: MemoryEntry, sources: set<Text>, blank: Text -> bool) {
    && !entry.kind.Constraints? && !blank(entry.text)
    && entry.sourceIds != [] && (forall k :: 0 <= k < |entry.sourceIds| ==> entry.sourceIds[k] in sources)
  }

  /** A node with pinned state or failure evidence is never summarized. */
  predicate Summarizable(node: Node) {
    && node.children == []
    && (node.stateEvents.Some? ==>
          forall i :: 0 <= i < |node.stateEvents.value| ==>
            !node.stateEvents.value[i].kind.Failures? && !node.stateEvents.value[i].kind.Constraints?)
  }

  /** Memory whose sources all belong to the node gives way to the new entries. */
  function KeptMemory(memory: seq<MemoryEntry>, sources: set<Text>): seq<MemoryEntry> {
    if memory == [] then []
    else
      var last := memory[|memory| - 1];
      KeptMemory(memory[..|memory| - 1], sources)
      + if forall k :: 0 <= k < |last.sourceIds| ==> last.sourceIds[k] in sources then [] else [last]
  }

  datatype Wording = Wording(
    note: seq<MemoryEntry> -> Text, summary: seq<MemoryEntry> -> Text, nodeId: (Node, Text) -> Digest,
    historyHash: (Digest, Digest, seq<ViewOperation>) -> Digest, blank: Text -> bool)

  const NOTE_TOKENS := 1024

  /** Materialize before and after on the edited messages only, and compare. */
  method MeasureDelta(h: Hashing, tokens: Tokens, some: seq<Message>, before: seq<ViewOperation>, after: seq<ViewOperation>)
      returns (applied: bool, delta: int)
    ensures applied ==> delta == Total(tokens, Substitute(some, after, 0)) - Total(tokens, Substitute(some, before, 0))
    ensures applied <==> Applicable(h, some, before, SnapshotOfAll(h, some)) && Applicable(h, some, after, SnapshotOfAll(h, some))
  {
    var s1, m1 := MaterializeOperations(h, some, before, Some(SnapshotOfAll(h, some)));
    var s2, m2 := MaterializeOperations(h, some, after, Some(SnapshotOfAll(h, some)));
    applied := s1.Applied? && s2.Applied?;
    var a: int, b: int;
    a := TotalTokens(tokens, m2);
    b := TotalTokens(tokens, m1);
    delta := a - b;
  }

  /** The operations a candidate would have. */
  function Reworded(wording: Wording, rename: Renaming, was: seq<ViewOperation>, source: Node, entries: seq<MemoryEntry>): seq<ViewOperation>
  {
    RewriteAll(was, source.nodeId, wording.nodeId(source, wording.note(entries)), wording.note(entries), true, rename)
  }

  function AtLeastZero(n: int): nat { if n < 0 then 0 else n }

  /** What the whole history gains, measured on all of it. */
  function WholeGain(tokens: Tokens, ms: seq<Message>, ops: seq<ViewOperation>, was: seq<ViewOperation>): int {
    Total(tokens, Substitute(ms, ops, 0)) - Total(tokens, Substitute(ms, was, 0))
  }

  /** What is checked before anything is rewritten: valid entries for a node that may be summarized, and a short note. */
  predicate Proposed(count: Text -> nat, wording: Wording, base: Plan, source: Node, entries: seq<MemoryEntry>)
    requires base.operations.Some?
  {
    var was := base.operations.value;
    && base.budget.Some? && Summarizable(source) && EntriesValid(entries, SourceIds(source), wording.blank)
    && EditedIds(was, source.nodeId) != {} && (forall i :: 0 <= i < |was| && was[i].nodeId == source.nodeId ==> !was[i].Range?)
    && count(wording.note(entries)) <= NOTE_TOKENS
  }

  /** The change makes the whole history shorter and leaves the memory within its budget. */
  predicate Pays(budget: Budget, gain: int) {
    gain < 0 && AtLeastZero(budget.memoryTokens + gain) <= budget.historyBudgetTokens
  }

  /** A leaf without failures or constraints, entries that name only its sources, and a note of at most 1024 tokens. */
  ghost predicate Qualifies(count: Text -> nat, wording: Wording, base: Plan, source: Node, entries: seq<MemoryEntry>)
    requires base.operations.Some?
  {
    && base.budget.Some? && source.children == []
    && (source.stateEvents.Some? ==> forall event :: event in source.stateEvents.value ==> event.kind != Failures && event.kind != Constraints)
    && entries != [] && (forall entry :: entry in entries ==> EntryQualifies(wording, source, entry))
    && (exists op :: op in base.operations.value && op.nodeId == source.nodeId)
    && (forall op :: op in base.operations.value && op.nodeId == source.nodeId ==> !op.Range?)
    && count(wording.note(entries)) <= 1024
  }

  ghost predicate EntryQualifies(wording: Wording, source: Node, entry: MemoryEntry) {
    && entry.kind != Constraints && !wording.blank(entry.text) && entry.sourceIds != []
    && forall id :: id in entry.sourceIds ==> NamedBy(source, id)
  }

  ghost predicate NamedBy(source: Node, id: Text) {
    exists ref :: ref in source.sourceRefs && ref.messageId == id
  }

  lemma EntriesQualify(wording: Wording, source: Node, entries: seq<MemoryEntry>)
    ensures EntriesValid(entries, SourceIds(source), wording.blank) <==>
            entries != [] && forall entry :: entry in entries ==> EntryQualifies(wording, source, entry)
  {
    forall entry | entry in entries
      ensures EntryQualifies(wording, source, entry) <==> EntryValid(entry, SourceIds(source), wording.blank)
    {
      EntryQualifiesIs(wording, source, entry);
    }
    assert EntriesValid(entries, SourceIds(source), wording.blank) <==>
           entries != [] && forall i :: 0 <= i < |entries| ==> EntryValid(entries[i], SourceIds(source), wording.blank);
  }

  lemma EntryQualifiesIs(wording: Wording, source: Node, entry: MemoryEntry)
    ensures EntryQualifies(wording, source, entry) <==> EntryValid(entry, SourceIds(source), wording.blank)
  {
    forall id
      ensures id in SourceIds(source) <==> NamedBy(source, id)
    {
    }
  }

  lemma ProposedQualifies(count: Text -> nat, wording: Wording, base: Plan, source: Node, entries: seq<MemoryEntry>)
    requires base.operations.Some?
    ensures Proposed(count, wording, base, source, entries) <==> Qualifies(count, wording, base, source, entries)
  {
    EntriesQualify(wording, source, entries);
    var was := base.operations.value;
    if forall i :: 0 <= i < |was| && was[i].nodeId == source.nodeId ==> !was[i].Range? {
      if op :| op in was && op.nodeId == source.nodeId {
        assert op.messageId in EditedIds(was, source.nodeId);
      }
    }
    if EditedIds(was, source.nodeId) != {} {
      var id :| id in EditedIds(was, source.nodeId);
    }
  }

  /** The entry has a source outside the node. */
  ghost predicate Outlives(source: Node, entry: MemoryEntry) {
    exists id :: id in entry.sourceIds && !NamedBy(source, id)
  }

  /** The places below `n` of the entries that outlive the node, in order. */
  ghost function Places(memory: seq<MemoryEntry>, source: Node, n: nat): (at: seq<nat>)
    requires n <= |memory|
    ensures forall k: nat :: k in at <==> k < n && Outlives(source, memory[k])
    ensures forall i, j :: 0 <= i < j < |at| ==> at[i] < at[j]
    ensures forall i :: 0 <= i < |at| ==> at[i] < n
  {
    if n == 0 then [] else Places(memory, source, n - 1) + if Outlives(source, memory[n - 1]) then [n - 1] else []
  }

  /** Exactly the entries of the old memory that outlive the node, in order, then the new ones. */
  ghost predicate Remembers(memory: seq<MemoryEntry>, source: Node, entries: seq<MemoryEntry>, now: seq<MemoryEntry>) {
    var at := Places(memory, source, |memory|);
    |now| == |at| + |entries| && now[|at|..] == entries && forall i :: 0 <= i < |at| ==> now[i] == memory[at[i]]
  }

  lemma {:induction false} KeptAt(memory: seq<MemoryEntry>, source: Node, n: nat)
    requires n <= |memory|
    ensures var kept, at := KeptMemory(memory[..n], SourceIds(source)), Places(memory, source, n);
            |kept| == |at| && forall i :: 0 <= i < |at| ==> kept[i] == memory[at[i]]
  {
    if n > 0 {
      KeptAt(memory, source, n - 1);
      OutlivesIs(source, memory[n - 1]);
      assert memory[..n][..n - 1] == memory[..n - 1];
    }
  }

  lemma KeptRemembers(memory: seq<MemoryEntry>, source: Node, entries: seq<MemoryEntry>)
    ensures Remembers(memory, source, entries, KeptMemory(memory, SourceIds(source)) + entries)
  {
    KeptAt(memory, source, |memory|);
    assert memory[..|memory|] == memory;
  }

  lemma OutlivesIs(source: Node, entry: MemoryEntry)
    ensures Outlives(source, entry) <==> !(forall k :: 0 <= k < |entry.sourceIds| ==> entry.sourceIds[k] in SourceIds(source))
  {
    forall id
      ensures id in SourceIds(source) <==> NamedBy(source, id)
    {
    }
  }

  /** Everything that a candidate changes of its base, given what the whole history gains. */
  ghost predicate Carries(
      count: Text -> nat, wording: Wording, base: Plan, source: Node, entries: seq<MemoryEntry>, gain: int, plan: Plan)
    requires base.budget.Some? && base.historyHash.Some? && plan.operations.Some?
  {
    var note, was := wording.note(entries), base.budget.value;
    var node := Node(wording.nodeId(source, note), source.level + 1, [source.nodeId], [], None, note, count(note), source.sourceTokens);
    && plan.nodes == base.nodes + [node]
    && plan.memory.Some? && plan.summary == Some(wording.summary(plan.memory.value))
    && Remembers(if base.memory.Some? then base.memory.value else [], source, entries, plan.memory.value)
    && plan.historyHash == Some(wording.historyHash(base.historyHash.value, node.nodeId, plan.operations.value))
    && plan.budget == Some(Budget(was.targetTokens, was.historyBudgetTokens, if was.memoryTokens + gain < 0 then 0 else was.memoryTokens + gain))
    && plan.replacementTokensEst == base.replacementTokensEst + gain && plan.finalTokensEst == base.finalTokensEst + gain
    && plan.freedTokens == base.freedTokens - gain && plan.rawTokens == base.rawTokens
    && plan.sourceTokensEst == base.sourceTokensEst && plan.evictedTokensEst == base.evictedTokensEst
  }

  /** Every operation of the candidate points to the new node, or is the old one. */
  ghost predicate AllPoint(
      wording: Wording, rename: Renaming, base: Plan, source: Node, entries: seq<MemoryEntry>, operations: seq<ViewOperation>)
    requires base.operations.Some?
  {
    var was, note := base.operations.value, wording.note(entries);
    && |operations| == |was|
    && forall i :: 0 <= i < |was| ==> Points(was, source.nodeId, wording.nodeId(source, note), note, rename, i, operations[i])
  }

  ghost predicate Sound(h: Hashing, tokens: Tokens, ms: seq<Message>, base: Plan, rename: Renaming) {
    HonestBase(h, tokens, ms, base) && RenamesApart(rename, base.operations.value)
  }

  /** A candidate for an honest base is an honest base. */
  lemma ImprovedIsSound(h: Hashing, tokens: Tokens, ms: seq<Message>, base: Plan, plan: Plan, source: Digest, rename: Renaming)
    requires Sound(h, tokens, ms, base, rename) && Improves(h, tokens, ms, base, plan, source, rename)
    ensures Sound(h, tokens, ms, plan, rename)
  {
    var was := base.operations.value;
    RewrittenTouchesSame(plan.operations.value, was, source, rename);
    forall i, j | 0 <= i < j < |was|
      ensures was[i].operationId != was[j].operationId
    {
      assert Compatible(ms, was[i], was[j]);
    }
    RewrittenStaysApart(plan.operations.value, was, source, rename);
  }

  /**
   * `buildEnhancedCandidate`. For an honest base plan a returned candidate edits the same places of the same
   * messages, passes the wire contract, and claims exactly the tokens that applying it to the whole history
   * leaves, strictly fewer than the base, although only the edited messages were measured. It is returned
   * exactly when the whole history gets shorter and the entries, the note and the memory are in order, and
   * it is itself an honest base, so it can be enhanced again.
   */
  method BuildEnhancedCandidate(
      h: Hashing, tokens: Tokens, count: Text -> nat, wording: Wording, rename: Renaming,
      base: Plan, source: Node, entries: seq<MemoryEntry>, ms: seq<Message>)
      returns (r: Option<Plan>)
    ensures r.Some? ==> base.compacted && base.historyHash.Some? && base.operations.Some? && Qualifies(count, wording, base, source, entries)
    ensures Sound(h, tokens, ms, base, rename) ==>
              (r.Some? <==>
               && Qualifies(count, wording, base, source, entries)
               && var gain := WholeGain(tokens, ms, Reworded(wording, rename, base.operations.value, source, entries), base.operations.value);
                  gain < 0 && (base.budget.value.memoryTokens + gain <= base.budget.value.historyBudgetTokens))
    ensures r.Some? && Sound(h, tokens, ms, base, rename) ==>
              && Improves(h, tokens, ms, base, r.value, source.nodeId, rename) && Sound(h, tokens, ms, r.value, rename)
              && r.value.operations == Some(Reworded(wording, rename, base.operations.value, source, entries))
              && Carries(count, wording, base, source, entries,
                         WholeGain(tokens, ms, r.value.operations.value, base.operations.value), r.value)
    ensures r.Some? ==> r.value.operations.Some? && AllPoint(wording, rename, base, source, entries, r.value.operations.value)
  {
    if base.operations.Some? {
      ProposedQualifies(count, wording, base, source, entries);
    }
    if !base.compacted || base.historyHash.None? || base.operations.None? || base.sourceSnapshot.None? ||
       !Proposed(count, wording, base, source, entries) {
      return None;
    }
    var note := wording.note(entries);
    var operations := RewriteLoop(base.operations.value, source.nodeId, wording.nodeId(source, note), note, rename);
    r := Revise(h, tokens, count, wording, rename, base, source, entries, operations, ms);
  }

  /** Measure the rewritten operations on the edited messages and revise the base accordingly. */
  method Revise(
      h: Hashing, tokens: Tokens, count: Text -> nat, wording: Wording, rename: Renaming,
      base: Plan, source: Node, entries: seq<MemoryEntry>, operations: seq<ViewOperation>, ms: seq<Message>)
      returns (r: Option<Plan>)
    requires base.operations.Some? && base.historyHash.Some? && Proposed(count, wording, base, source, entries)
    requires operations == Reworded(wording, rename, base.operations.value, source, entries)
    ensures r.Some? ==> r.value.operations == Some(operations)
    ensures Sound(h, tokens, ms, base, rename) ==>
              (r.Some? <==> Pays(base.budget.value, WholeGain(tokens, ms, operations, base.operations.value)))
    ensures r.Some? && Sound(h, tokens, ms, base, rename) ==>
              && Improves(h, tokens, ms, base, r.value, source.nodeId, rename) && Sound(h, tokens, ms, r.value, rename)
              && Carries(count, wording, base, source, entries, WholeGain(tokens, ms, operations, base.operations.value), r.value)
  {
    var was := base.operations.value;
    var note := wording.note(entries);
    var node := SummaryNode(source, wording.nodeId(source, note), note, count(note));
    RewriteAllIs(was, source.nodeId, node.nodeId, note, true, rename);
    var applied, delta := MeasureLocally(h, tokens, ms, operations, was, source.nodeId, base.sourceSnapshot, rename);
    if !applied || !Pays(base.budget.value, delta) {
      return None;
    }
    var memory := KeptMemory(if base.memory.Some? then base.memory.value else [], SourceIds(source)) + entries;
    var draft := Revision(operations, memory, wording.summary(memory), wording.historyHash(base.historyHash.value, node.nodeId, operations), node);
    var memoryTokens := AtLeastZero(base.budget.value.memoryTokens + delta);
    if Sound(h, tokens, ms, base, rename) {
      RewrittenApplies(h, ms, operations, was, base.sourceSnapshot.value, source.nodeId, rename);
      EnhancedImproves(h, tokens, ms, base, draft, memoryTokens, delta, source.nodeId, rename);
      ImprovedIsSound(h, tokens, ms, base, Enhanced(base, draft, memoryTokens, delta), source.nodeId, rename);
      EnhancedCarries(count, wording, base, source, entries, operations, delta);
    }
    return Some(Enhanced(base, draft, memoryTokens, delta));
  }

  lemma EnhancedCarries(
      count: Text -> nat, wording: Wording, base: Plan, source: Node, entries: seq<MemoryEntry>, operations: seq<ViewOperation>, delta: int)
    requires base.budget.Some? && base.historyHash.Some?
    ensures var note, was := wording.note(entries), if base.memory.Some? then base.memory.value else [];
            var memory := KeptMemory(was, SourceIds(source)) + entries;
            var node := SummaryNode(source, wording.nodeId(source, note), note, count(note));
            var hash := wording.historyHash(base.historyHash.value, node.nodeId, operations);
            var draft := Revision(operations, memory, wording.summary(memory), hash, node);
            Carries(count, wording, base, source, entries, delta,
                    Enhanced(base, draft, AtLeastZero(base.budget.value.memoryTokens + delta), delta))
  {
    KeptRemembers(if base.memory.Some? then base.memory.value else [], source, entries);
  }

  /** Where the base applies, measuring the edited messages alone succeeds and gives the gain of the whole history. */
  method MeasureLocally(
      h: Hashing, tokens: Tokens, ms: seq<Message>, operations: seq<ViewOperation>, was: seq<ViewOperation>, source: Digest,
      ghost snapshot: Option<Snapshot>, ghost rename: Renaming) returns (applied: bool, delta: int)
    requires RewrittenPlan(operations, was, source, rename) && EditedIds(was, source) != {}
    ensures snapshot.Some? && Applicable(h, ms, was, snapshot.value) && RenamesApart(rename, was) ==>
              applied && delta == WholeGain(tokens, ms, operations, was)
  {
    if snapshot.Some? && Applicable(h, ms, was, snapshot.value) && RenamesApart(rename, was) {
      LocalMeasures(h, tokens, ms, operations, was, snapshot.value, source, rename);
    }
    var ids := EditedIds(was, source);
    var some := Among(ms, ids);
    if |some| != |ids| {
      return false, 0;
    }
    applied, delta := MeasureDelta(h, tokens, some, Local(was, ids), Local(operations, ids));
  }
}
