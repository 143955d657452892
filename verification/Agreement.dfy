/** The wire check and the materializer, written separately, accept the same plans. */
module Agreement {
  import opened Texts
  import opened Messages
  import opened Substitution
  import opened Contract

  /** What the messages themselves must satisfy, beyond the plan's structure. */
  ghost predicate ContentHolds(h: Hashing, ms: seq<Message>, op: ViewOperation) {
    if op.Range? then
      && (forall i :: 0 <= i < |op.messageIds| ==>
            var k := Find(ms, op.messageIds[i]);
            k < |ms| ==> !ms[k].isProtected && forall p :: 0 <= p < |ms[k].parts| ==> PartSettled(ms[k].parts[p]))
      && ReplacementFresh(ms, op)
    else
      var k := Find(ms, op.messageId);
      k < |ms| ==>
        && !ms[k].isProtected
        && op.partIndex < |ms[k].parts|
        && PartMatches(h, ms[k].parts[op.partIndex], op)
  }

  /** A plan whose lists are derived from its operations. */
  ghost predicate ListsDerived(plan: Plan) {
    plan.operations.Some? && plan.sourceSnapshot.Some? ==>
      var snapshot, ops := plan.sourceSnapshot.value, plan.operations.value;
      ListsMatch(plan, snapshot, Touched(snapshot.messageIds, TouchedIds(ops)))
  }

  lemma PositionIsFind(h: Hashing, ms: seq<Message>, snapshot: Snapshot, id: Text)
    requires UniqueIds(ms) && SnapshotBinds(h, ms, snapshot)
    ensures SnapshotValid(snapshot)
    ensures Position(snapshot.messageIds, id) < |snapshot.messageIds| ==> Position(snapshot.messageIds, id) == Find(ms, id)
    ensures Find(ms, id) < |snapshot.messageIds| ==> Position(snapshot.messageIds, id) == Find(ms, id)
  {
    forall i, j | 0 <= i < j < |snapshot.messageIds|
      ensures snapshot.messageIds[i] != snapshot.messageIds[j]
    {
      assert ms[i].id != ms[j].id;
    }
    var k := Position(snapshot.messageIds, id);
    if k < |snapshot.messageIds| {
      FindUnique(ms, k);
    }
    if Find(ms, id) < |snapshot.messageIds| {
      PositionUnique(snapshot.messageIds, Find(ms, id));
    }
  }

  /** A placed operation finds its sources in consecutive places. */
  lemma SourceAlong(h: Hashing, ms: seq<Message>, bound: nat, op: ViewOperation, i: nat)
    requires bound <= |ms| && Fits(h, ms, bound, op) && i < |IdsOf(op)|
    ensures |DigestsOf(op)| == |IdsOf(op)| == Width(op) && Start(ms, op) + Width(op) <= bound
    ensures ms[Start(ms, op) + i].id == IdsOf(op)[i]
    ensures h.content(ms[Start(ms, op) + i]) == DigestsOf(op)[i]
  {
    if op.Range? {
      assert RangeSource(h, ms[Start(ms, op) + i], op.messageIds[i], op.sourceDigests[i]);
    }
  }

  lemma FitsIds(h: Hashing, ms: seq<Message>, bound: nat, op: ViewOperation, i: nat)
    requires UniqueIds(ms) && bound <= |ms| && Fits(h, ms, bound, op) && i < |IdsOf(op)|
    ensures |DigestsOf(op)| == |IdsOf(op)| == Width(op) && Start(ms, op) + Width(op) <= bound
    ensures Find(ms, IdsOf(op)[i]) == Start(ms, op) + i
    ensures h.content(ms[Start(ms, op) + i]) == DigestsOf(op)[i]
  {
    SourceAlong(h, ms, bound, op, i);
    FindAt(ms, Start(ms, op) + i, IdsOf(op)[i]);
  }

  lemma IdsAlong(h: Hashing, ms: seq<Message>, bound: nat, op: ViewOperation)
    requires bound <= |ms| && Fits(h, ms, bound, op)
    ensures 0 < |IdsOf(op)| == Width(op) && Start(ms, op) + Width(op) <= |ms|
    ensures forall i :: 0 <= i < |IdsOf(op)| ==> ms[Start(ms, op) + i].id == IdsOf(op)[i]
  {
    SourceAlong(h, ms, bound, op, 0);
    forall i | 0 <= i < |IdsOf(op)|
      ensures ms[Start(ms, op) + i].id == IdsOf(op)[i]
    {
      SourceAlong(h, ms, bound, op, i);
    }
  }

  lemma FindAt(ms: seq<Message>, k: nat, id: Text)
    requires UniqueIds(ms) && k < |ms| && ms[k].id == id
    ensures Find(ms, id) == k
  {
    FindUnique(ms, k);
  }

  lemma FitsSource(h: Hashing, ms: seq<Message>, snapshot: Snapshot, op: ViewOperation)
    requires UniqueIds(ms) && SnapshotBinds(h, ms, snapshot) && Fits(h, ms, |snapshot.messageIds|, op)
    ensures SnapshotValid(snapshot) && SourcesIn(snapshot, op)
  {
    PositionIsFind(h, ms, snapshot, Target(op));
    FitsIds(h, ms, |snapshot.messageIds|, op, 0);
    forall i | 0 <= i < |IdsOf(op)|
      ensures SourceAt(snapshot, op, i)
    {
      FitsIds(h, ms, |snapshot.messageIds|, op, i);
      PositionIsFind(h, ms, snapshot, IdsOf(op)[i]);
    }
  }

  lemma FitsContent(h: Hashing, ms: seq<Message>, bound: nat, op: ViewOperation)
    requires UniqueIds(ms) && bound <= |ms| && Fits(h, ms, bound, op)
    ensures ContentHolds(h, ms, op)
  {
    if op.Range? {
      forall i | 0 <= i < |op.messageIds|
        ensures Find(ms, op.messageIds[i]) == Start(ms, op) + i
        ensures RangeSource(h, ms[Start(ms, op) + i], op.messageIds[i], op.sourceDigests[i])
      {
        FitsIds(h, ms, bound, op, i);
      }
    }
  }

  /** A source the plan names is where the plan says, in the history. */
  lemma SourcePlaced(h: Hashing, ms: seq<Message>, snapshot: Snapshot, op: ViewOperation, i: nat)
    requires UniqueIds(ms) && SnapshotBinds(h, ms, snapshot) && SchemaValid(op) && SnapshotValid(snapshot)
    requires SourcesIn(snapshot, op) && i < |IdsOf(op)|
    ensures Start(ms, op) + i < |snapshot.messageIds|
    ensures Find(ms, IdsOf(op)[i]) == Start(ms, op) + i
    ensures ms[Start(ms, op) + i].id == IdsOf(op)[i] && h.content(ms[Start(ms, op) + i]) == DigestsOf(op)[i]
  {
    assert SourceAt(snapshot, op, 0);
    assert SourceAt(snapshot, op, i);
    PositionIsFind(h, ms, snapshot, Target(op));
    PositionIsFind(h, ms, snapshot, IdsOf(op)[i]);
  }

  lemma SourceFits(h: Hashing, ms: seq<Message>, snapshot: Snapshot, op: ViewOperation)
    requires UniqueIds(ms) && SnapshotBinds(h, ms, snapshot) && SchemaValid(op) && SnapshotValid(snapshot)
    requires SourcesIn(snapshot, op) && ContentHolds(h, ms, op)
    ensures Fits(h, ms, |snapshot.messageIds|, op)
  {
    SourcePlaced(h, ms, snapshot, op, 0);
    if op.Range? {
      SourcePlaced(h, ms, snapshot, op, |op.messageIds| - 1);
      forall i | 0 <= i < |op.messageIds|
        ensures RangeSource(h, ms[Start(ms, op) + i], op.messageIds[i], op.sourceDigests[i])
      {
        SourcePlaced(h, ms, snapshot, op, i);
      }
    }
  }

  /** For placed operations, sharing a message id and overlapping in position are the same thing. */
  lemma SameConflicts(h: Hashing, ms: seq<Message>, snapshot: Snapshot, a: ViewOperation, b: ViewOperation)
    requires UniqueIds(ms) && SnapshotBinds(h, ms, snapshot)
    requires Fits(h, ms, |snapshot.messageIds|, a) && Fits(h, ms, |snapshot.messageIds|, b)
    ensures Compatible(ms, a, b) <==> Unconflicted(a, b)
  {
    ClashIsShared(h, ms, |snapshot.messageIds|, a, b);
  }

  lemma ClashIsShared(h: Hashing, ms: seq<Message>, bound: nat, a: ViewOperation, b: ViewOperation)
    requires UniqueIds(ms) && bound <= |ms| && Fits(h, ms, bound, a) && Fits(h, ms, bound, b)
    ensures Disjoint(IdsOf(a), IdsOf(b))
       <==> Start(ms, a) + Width(a) <= Start(ms, b) || Start(ms, b) + Width(b) <= Start(ms, a)
  {
    IdsAlong(h, ms, bound, a);
    IdsAlong(h, ms, bound, b);
    IntervalsAndIds(ms, IdsOf(a), IdsOf(b), Start(ms, a), Start(ms, b));
  }

  lemma IntervalsAndIds(ms: seq<Message>, a: seq<Text>, b: seq<Text>, s: nat, t: nat)
    requires UniqueIds(ms) && a != [] && b != []
    requires s + |a| <= |ms| && t + |b| <= |ms|
    requires forall i :: 0 <= i < |a| ==> ms[s + i].id == a[i]
    requires forall i :: 0 <= i < |b| ==> ms[t + i].id == b[i]
    ensures Disjoint(a, b) <==> s + |a| <= t || t + |b| <= s
  {
    if s + |a| <= t || t + |b| <= s {
      forall i, j | 0 <= i < |a| && 0 <= j < |b|
        ensures a[i] != b[j]
      {
        assert ms[s + i].id == a[i] && ms[t + j].id == b[j];
      }
    } else {
      var k := if s < t then t else s;
      assert ms[s + (k - s)].id == a[k - s] && ms[t + (k - t)].id == b[k - t];
      assert a[k - s] in b;
    }
  }

  /**
   * A plan with derived lists is applied to a history exactly when the history starts with its
   * snapshot, the wire check accepts it, and the content facts the wire cannot see hold.
   */
  lemma WireAndApplierAgree(h: Hashing, ms: seq<Message>, plan: Plan)
    requires plan.compacted && plan.operations.Some? && plan.sourceSnapshot.Some? && ListsDerived(plan)
    requires forall op :: op in plan.operations.value ==> SchemaValid(op)
    ensures Applicable(h, ms, plan.operations.value, plan.sourceSnapshot.value)
       <==> && UniqueIds(ms) && SnapshotBinds(h, ms, plan.sourceSnapshot.value)
            && Parsed(plan) && Aligned(plan)
            && (forall op :: op in plan.operations.value ==> ContentHolds(h, ms, op))
            && ReplacementsDistinct(plan.operations.value)
  {
    var ops, snapshot := plan.operations.value, plan.sourceSnapshot.value;
    if Applicable(h, ms, ops, snapshot) {
      AppliedAligned(h, ms, ops, snapshot);
    }
    if && UniqueIds(ms) && SnapshotBinds(h, ms, snapshot) && Parsed(plan) && Aligned(plan)
       && (forall op :: op in ops ==> ContentHolds(h, ms, op)) && ReplacementsDistinct(ops) {
      AlignedApplies(h, ms, ops, snapshot);
    }
  }

  lemma AppliedAligned(h: Hashing, ms: seq<Message>, ops: seq<ViewOperation>, snapshot: Snapshot)
    requires Applicable(h, ms, ops, snapshot)
    ensures SnapshotValid(snapshot) && (forall op :: op in ops ==> SchemaValid(op))
    ensures OperationsAligned(snapshot, ops)
    ensures forall op :: op in ops ==> ContentHolds(h, ms, op)
  {
    PositionIsFind(h, ms, snapshot, []);
    forall op | op in ops
      ensures SchemaValid(op) && SourcesIn(snapshot, op) && ContentHolds(h, ms, op)
    {
      assert Fits(h, ms, |snapshot.messageIds|, op);
      FitsSource(h, ms, snapshot, op);
      FitsContent(h, ms, |snapshot.messageIds|, op);
    }
    forall i, j | 0 <= i < j < |ops|
      ensures Unconflicted(ops[i], ops[j])
    {
      assert Compatible(ms, ops[i], ops[j]);
      assert Fits(h, ms, |snapshot.messageIds|, ops[i]) && Fits(h, ms, |snapshot.messageIds|, ops[j]);
      SameConflicts(h, ms, snapshot, ops[i], ops[j]);
    }
  }

  lemma AlignedApplies(h: Hashing, ms: seq<Message>, ops: seq<ViewOperation>, snapshot: Snapshot)
    requires ops != [] && UniqueIds(ms) && SnapshotBinds(h, ms, snapshot) && SnapshotValid(snapshot)
    requires forall op :: op in ops ==> SchemaValid(op) && ContentHolds(h, ms, op)
    requires OperationsAligned(snapshot, ops) && ReplacementsDistinct(ops)
    ensures Applicable(h, ms, ops, snapshot)
  {
    forall op | op in ops
      ensures Fits(h, ms, |snapshot.messageIds|, op)
    {
      SourceFits(h, ms, snapshot, op);
    }
    forall i, j | 0 <= i < j < |ops|
      ensures Compatible(ms, ops[i], ops[j])
    {
      assert Unconflicted(ops[i], ops[j]);
      assert ops[i] in ops && ops[j] in ops;
      SameConflicts(h, ms, snapshot, ops[i], ops[j]);
    }
  }
}
