/** The wire contract of a compression result: plan structure, token accounting, leaf provenance. */
module Contract {
  import opened Texts
  import opened Messages
  import opened Sorting
  import opened Substitution

  datatype Ref = Ref(contentHash: Digest, role: Role, turnIndex: nat)

  datatype StateEvent = StateEvent(eventId: Digest, kind: MemoryKind, sourceIds: seq<Text>, sourceDigests: seq<Digest>, order: nat)

  datatype SourceRef = SourceRef(messageId: Text, contentHash: Digest, partIndex: nat, start: Option<nat>, end: Option<nat>)

  datatype Node = Node(
    nodeId: Digest, level: nat, children: seq<Digest>, sourceRefs: seq<SourceRef>,
    stateEvents: Option<seq<StateEvent>>, text: Text, tokens: nat, sourceTokens: nat)

  datatype Budget = Budget(targetTokens: nat, historyBudgetTokens: nat, memoryTokens: nat)

  /** The fields of a compression result that its refinements constrain. */
  datatype Plan = Plan(
    compacted: bool,
    operations: Option<seq<ViewOperation>>,
    nodes: seq<Node>,
    sourceSnapshot: Option<Snapshot>,
    sourceDigests: Option<seq<Digest>>,
    memory: Option<seq<MemoryEntry>>,
    budget: Option<Budget>,
    historyHash: Option<Digest>,
    summary: Option<Text>,
    refs: seq<Ref>,
    replacedMessageIds: seq<Text>,
    rawTokens: int,
    sourceTokensEst: int,
    evictedTokensEst: int,
    retainedTokensEst: int,
    replacementTokensEst: int,
    finalTokensEst: int,
    freedTokens: int)

  // ------------------------------------------------------ operationSourcesAligned

  function IdsOf(op: ViewOperation): seq<Text> {
    if op.Range? then op.messageIds else [op.messageId]
  }

  function DigestsOf(op: ViewOperation): seq<Digest> {
    if op.Range? then op.sourceDigests else [op.sourceDigest]
  }

  /** Position of `id` among the snapshot's ids, or their number when it is missing. */
  function Position(ids: seq<Text>, id: Text): (k: nat)
    ensures k <= |ids|
    ensures k < |ids| ==> ids[k] == id
  {
    if ids == [] then 0
    else if ids[0] == id then 0
    else 1 + Position(ids[1..], id)
  }

  lemma {:induction false} PositionFirst(ids: seq<Text>, id: Text)
    ensures Position(ids, id) == |ids| <==> id !in ids
    ensures forall i :: 0 <= i < Position(ids, id) ==> ids[i] != id
  {
    if ids != [] && ids[0] != id {
      PositionFirst(ids[1..], id);
    }
  }

  lemma PositionUnique(ids: seq<Text>, k: nat)
    requires Distinct(ids) && k < |ids|
    ensures Position(ids, ids[k]) == k
  {
    PositionFirst(ids, ids[k]);
  }

  ghost predicate SnapshotValid(snapshot: Snapshot) {
    |snapshot.messageIds| == |snapshot.sourceDigests| && Distinct(snapshot.messageIds)
  }

  /** Source `i` of the operation is in the snapshot, with its digest, and in line with its first source. */
  predicate SourceAt(snapshot: Snapshot, op: ViewOperation, i: nat)
    requires |snapshot.messageIds| == |snapshot.sourceDigests|
    requires i < |IdsOf(op)| == |DigestsOf(op)|
  {
    var k := Position(snapshot.messageIds, IdsOf(op)[i]);
    && k < |snapshot.messageIds|
    && snapshot.sourceDigests[k] == DigestsOf(op)[i]
    && k == Position(snapshot.messageIds, IdsOf(op)[0]) + i
  }

  ghost predicate SourcesIn(snapshot: Snapshot, op: ViewOperation)
    requires |snapshot.messageIds| == |snapshot.sourceDigests| && SchemaValid(op)
  {
    forall i :: 0 <= i < |IdsOf(op)| ==> SourceAt(snapshot, op, i)
  }

  predicate Disjoint(a: seq<Text>, b: seq<Text>) {
    forall i :: 0 <= i < |a| ==> a[i] !in b
  }

  /** The plan-level conflict rule: no id in two places of which one is a range, no overlapping spans. */
  predicate Unconflicted(a: ViewOperation, b: ViewOperation) {
    && a.operationId != b.operationId
    && (a.Range? || b.Range? ==> Disjoint(IdsOf(a), IdsOf(b)))
    && Apart(a, b)
  }

  function TouchedIds(ops: seq<ViewOperation>): (r: set<Text>)
    ensures forall id :: id in r <==> exists op :: op in ops && id in IdsOf(op)
  {
    if ops == [] then {}
    else
      var last := ops[|ops| - 1];
      assert ops == ops[..|ops| - 1] + [last];
      TouchedIds(ops[..|ops| - 1]) + set id | id in IdsOf(last)
  }

  /** The touched snapshot ids, in snapshot order. */
  function Touched(ids: seq<Text>, touched: set<Text>): seq<Text> {
    if ids == [] then []
    else (if ids[0] in touched then [ids[0]] else []) + Touched(ids[1..], touched)
  }

  function DigestOf(snapshot: Snapshot, id: Text): Option<Digest> {
    var k := Position(snapshot.messageIds, id);
    if k < |snapshot.sourceDigests| then Some(snapshot.sourceDigests[k]) else None
  }

  /** The replaced ids and their digests are those the operations touch, in snapshot order. */
  ghost predicate ListsMatch(plan: Plan, snapshot: Snapshot, ordered: seq<Text>) {
    ordered == plan.replacedMessageIds && forall i :: 0 <= i < |ordered| ==> DigestListed(plan, snapshot, ordered[i], i)
  }

  /** The `i`-th digest of the plan is the one its snapshot gives for `id`. */
  predicate DigestListed(plan: Plan, snapshot: Snapshot, id: Text, i: nat) {
    && plan.sourceDigests.Some? && i < |plan.sourceDigests.value|
    && DigestOf(snapshot, id) == Some(plan.sourceDigests.value[i])
  }

  ghost predicate OperationsAligned(snapshot: Snapshot, ops: seq<ViewOperation>)
    requires |snapshot.messageIds| == |snapshot.sourceDigests| && forall op :: op in ops ==> SchemaValid(op)
  {
    && (forall op :: op in ops ==> SourcesIn(snapshot, op))
    && (forall i, j :: 0 <= i < j < |ops| ==> Unconflicted(ops[i], ops[j]))
  }

  /** What the schema has checked before the refinement runs. */
  ghost predicate Parsed(plan: Plan) {
    && (plan.operations.Some? ==> forall op :: op in plan.operations.value ==> SchemaValid(op))
    && (plan.sourceSnapshot.Some? ==> SnapshotValid(plan.sourceSnapshot.value))
  }

  ghost predicate Aligned(plan: Plan)
    requires Parsed(plan)
  {
    match plan.operations
    case None => true
    case Some(ops) =>
      if !plan.compacted then ops == []
      else
        && ops != []
        && plan.sourceSnapshot.Some?
        && OperationsAligned(plan.sourceSnapshot.value, ops)
        && ListsMatch(plan, plan.sourceSnapshot.value, Touched(plan.sourceSnapshot.value.messageIds, TouchedIds(ops)))
  }

  // -------------------------------------------------------------- result refinement

  /** Token accounting and inertness of a result. */
  ghost predicate Accounted(r: Plan) {
    && r.rawTokens == r.sourceTokensEst
    && r.finalTokensEst == r.retainedTokensEst + r.replacementTokensEst
    && r.freedTokens == r.sourceTokensEst - r.finalTokensEst
    && (if r.compacted then
          && r.sourceDigests.Some? && r.memory.Some?
          && |r.sourceDigests.value| == |r.replacedMessageIds| == |r.refs| > 0
          && Distinct(r.replacedMessageIds)
          && (forall i :: 0 <= i < |r.refs| ==> r.sourceDigests.value[i] == r.refs[i].contentHash)
          && r.historyHash.Some? && r.summary.Some?
          && r.sourceTokensEst == r.evictedTokensEst + r.retainedTokensEst
          && r.freedTokens > 0
        else
          && r.historyHash.None? && r.summary.None?
          && r.freedTokens == 0 && r.refs == [] && r.replacedMessageIds == []
          && r.evictedTokensEst == 0 && r.retainedTokensEst == r.sourceTokensEst && r.replacementTokensEst == 0)
  }

  ghost predicate NonNegative(r: Plan) {
    && r.rawTokens >= 0 && r.sourceTokensEst >= 0 && r.evictedTokensEst >= 0 && r.retainedTokensEst >= 0
    && r.replacementTokensEst >= 0 && r.finalTokensEst >= 0 && r.freedTokens >= 0
  }

  // ----------------------------------------------------------------- leaf provenance

  /** `new Map(refs)` keeps the last digest recorded for an id. */
  function LastDigest(refs: seq<SourceRef>, id: Text): (r: Option<Digest>)
    ensures r.Some? <==> exists ref :: ref in refs && ref.messageId == id
  {
    if refs == [] then None
    else
      var last := refs[|refs| - 1];
      assert refs == refs[..|refs| - 1] + [last];
      if last.messageId == id then Some(last.contentHash) else LastDigest(refs[..|refs| - 1], id)
  }

  ghost predicate EventSourced(refs: seq<SourceRef>, event: StateEvent) {
    && 0 < |event.sourceIds| == |event.sourceDigests|
    && forall i :: 0 <= i < |event.sourceIds| ==> LastDigest(refs, event.sourceIds[i]) == Some(event.sourceDigests[i])
  }

  ghost predicate LeafProvenance(node: Node) {
    node.stateEvents.Some? ==>
      var events := node.stateEvents.value;
      && |events| <= 64
      && node.level == 0 && node.children == []
      && (forall i, j :: 0 <= i < j < |events| ==> events[i].eventId != events[j].eventId)
      && (forall i :: 0 <= i < |events| ==> EventSourced(node.sourceRefs, events[i]))
  }

  /** Everything `headroomCompressResultSchema` demands of a parsed layered result. */
  ghost predicate WireValid(r: Plan) {
    && Parsed(r) && Aligned(r) && Accounted(r) && NonNegative(r)
    && forall n :: n in r.nodes ==> LeafProvenance(n)
  }
}
