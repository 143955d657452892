/** The loops of `operationSourcesAligned`, proved to decide the declarative alignment condition. */
module AlignmentCheck {
  import opened Texts
  import opened Messages
  import opened Sorting
  import opened Substitution
  import opened Contract

  /** An edited span; a tool edit occupies its whole part. */
  datatype Span = Span(start: nat, end: Option<nat>)

  type PartKey = (Text, nat)

  function SpanOf(op: ViewOperation): Span
    requires !op.Range?
  {
    if op.ToolOutput? then Span(0, None) else Span(op.start, Some(op.end))
  }

  function KeyOf(op: ViewOperation): PartKey
    requires !op.Range?
  {
    (op.messageId, op.partIndex)
  }

  function OperationIds(ops: seq<ViewOperation>): (r: set<Digest>)
    ensures forall d :: d in r <==> exists op :: op in ops && op.operationId == d
  {
    if ops == [] then {}
    else
      var last := ops[|ops| - 1];
      assert ops == ops[..|ops| - 1] + [last];
      OperationIds(ops[..|ops| - 1]) + {last.operationId}
  }

  function WholeIds(ops: seq<ViewOperation>): (r: set<Text>)
    ensures forall id :: id in r <==> exists op :: op in ops && op.Range? && id in op.messageIds
  {
    if ops == [] then {}
    else
      var last := ops[|ops| - 1];
      assert ops == ops[..|ops| - 1] + [last];
      WholeIds(ops[..|ops| - 1]) + if last.Range? then (set id | id in last.messageIds) else {}
  }

  function SpansOf(ops: seq<ViewOperation>): map<PartKey, seq<Span>> {
    if ops == [] then map[] else AddSpan(SpansOf(ops[..|ops| - 1]), ops[|ops| - 1])
  }

  function AddSpan(spans: map<PartKey, seq<Span>>, op: ViewOperation): map<PartKey, seq<Span>> {
    if op.Range? then spans
    else spans[KeyOf(op) := (if KeyOf(op) in spans then spans[KeyOf(op)] else []) + [SpanOf(op)]]
  }

  // -------------------------------------------------------------- the first loop

  /** One turn of the first loop passes after the operations `prior`. */
  ghost predicate TurnPasses(snapshot: Snapshot, prior: seq<ViewOperation>, op: ViewOperation)
    requires |snapshot.messageIds| == |snapshot.sourceDigests| && SchemaValid(op)
  {
    && op.operationId !in OperationIds(prior)
    && SourcesIn(snapshot, op)
    && (op.Range? ==> forall i :: 0 <= i < |op.messageIds| ==> op.messageIds[i] !in WholeIds(prior))
  }

  ghost predicate Passed(snapshot: Snapshot, ops: seq<ViewOperation>, n: nat)
    requires |snapshot.messageIds| == |snapshot.sourceDigests| && n <= |ops|
    requires forall op :: op in ops ==> SchemaValid(op)
  {
    n == 0 || (Passed(snapshot, ops, n - 1) && TurnPasses(snapshot, ops[..n - 1], ops[n - 1]))
  }

  method CheckSources(snapshot: Snapshot, op: ViewOperation, whole: set<Text>) returns (ok: bool, nowWhole: set<Text>)
    requires SnapshotValid(snapshot) && SchemaValid(op)
    ensures ok <==> && SourcesIn(snapshot, op)
                    && (op.Range? ==> forall i :: 0 <= i < |op.messageIds| ==> op.messageIds[i] !in whole)
    ensures ok ==> nowWhole == whole + if op.Range? then (set id | id in op.messageIds) else {}
  {
    var ids := IdsOf(op);
    nowWhole := whole;
    for i := 0 to |ids|
      invariant forall k :: 0 <= k < i ==> SourceAt(snapshot, op, k)
      invariant op.Range? ==> forall k :: 0 <= k < i ==> ids[k] !in whole
      invariant nowWhole == whole + if op.Range? then (set id | id in ids[..i]) else {}
    {
      if !SourceAt(snapshot, op, i) {
        return false, nowWhole;
      }
      if op.Range? {
        assert ids[i] !in ids[..i];
        if ids[i] in nowWhole {
          return false, nowWhole;
        }
        assert ids[..i + 1] == ids[..i] + [ids[i]];
        nowWhole := nowWhole + {ids[i]};
      }
    }
    assert ids[..|ids|] == ids;
    return true, nowWhole;
  }

  method CheckOperations(snapshot: Snapshot, ops: seq<ViewOperation>)
      returns (ok: bool, touched: set<Text>, whole: set<Text>, spans: map<PartKey, seq<Span>>)
    requires SnapshotValid(snapshot) && forall op :: op in ops ==> SchemaValid(op)
    ensures ok <==> Passed(snapshot, ops, |ops|)
    ensures ok ==> touched == TouchedIds(ops) && whole == WholeIds(ops) && spans == SpansOf(ops)
  {
    var operationIds := {};
    touched, whole, spans := {}, {}, map[];
    for n := 0 to |ops|
      invariant Passed(snapshot, ops, n)
      invariant operationIds == OperationIds(ops[..n])
      invariant touched == TouchedIds(ops[..n]) && whole == WholeIds(ops[..n]) && spans == SpansOf(ops[..n])
    {
      var op := ops[n];
      assert ops[..n + 1][..n] == ops[..n];
      if op.operationId in operationIds {
        NotPassed(snapshot, ops, n);
        return false, touched, whole, spans;
      }
      operationIds := operationIds + {op.operationId};
      ok, whole := CheckSources(snapshot, op, whole);
      if !ok {
        NotPassed(snapshot, ops, n);
        return;
      }
      touched := touched + set id | id in IdsOf(op);
      spans := AddSpan(spans, op);
    }
    assert ops[..|ops|] == ops;
    ok := true;
  }

  lemma NotPassed(snapshot: Snapshot, ops: seq<ViewOperation>, n: nat)
    requires SnapshotValid(snapshot) && n < |ops| && forall op :: op in ops ==> SchemaValid(op)
    requires !TurnPasses(snapshot, ops[..n], ops[n])
    ensures !Passed(snapshot, ops, |ops|)
  {
    NotPassedLater(snapshot, ops, n, |ops|);
  }

  lemma {:induction false} NotPassedLater(snapshot: Snapshot, ops: seq<ViewOperation>, n: nat, m: nat)
    requires SnapshotValid(snapshot) && n < m <= |ops| && forall op :: op in ops ==> SchemaValid(op)
    requires !TurnPasses(snapshot, ops[..n], ops[n])
    ensures !Passed(snapshot, ops, m)
  {
    if n < m - 1 {
      NotPassedLater(snapshot, ops, n, m - 1);
    }
  }

  /** The first and second loop together decide sources, ids and range conflicts. */
  predicate RangesClear(a: ViewOperation, b: ViewOperation) {
    a.Range? && b.Range? ==> Disjoint(a.messageIds, b.messageIds)
  }

  lemma {:induction false} PassedPairs(snapshot: Snapshot, ops: seq<ViewOperation>, n: nat)
    requires SnapshotValid(snapshot) && n <= |ops| && forall op :: op in ops ==> SchemaValid(op)
    requires Passed(snapshot, ops, n)
    ensures forall i :: 0 <= i < n ==> SourcesIn(snapshot, ops[i])
    ensures forall i, j :: 0 <= i < j < n ==> ops[i].operationId != ops[j].operationId && RangesClear(ops[i], ops[j])
  {
    if n > 0 {
      PassedPairs(snapshot, ops, n - 1);
      var before, op := ops[..n - 1], ops[n - 1];
      forall i | 0 <= i < n - 1
        ensures ops[i].operationId != op.operationId && RangesClear(ops[i], op)
      {
        assert before[i] == ops[i] && ops[i] in before;
        if ops[i].Range? && op.Range? {
          forall k | 0 <= k < |ops[i].messageIds|
            ensures ops[i].messageIds[k] !in op.messageIds
          {
            assert ops[i].messageIds[k] in WholeIds(before);
          }
        }
      }
    }
  }

  lemma {:induction false} PairsPass(snapshot: Snapshot, ops: seq<ViewOperation>, n: nat)
    requires SnapshotValid(snapshot) && n <= |ops| && forall op :: op in ops ==> SchemaValid(op)
    requires forall i :: 0 <= i < n ==> SourcesIn(snapshot, ops[i])
    requires forall i, j :: 0 <= i < j < n ==> ops[i].operationId != ops[j].operationId && RangesClear(ops[i], ops[j])
    ensures Passed(snapshot, ops, n)
  {
    if n > 0 {
      PairsPass(snapshot, ops, n - 1);
      var before, op := ops[..n - 1], ops[n - 1];
      forall q | q in before
        ensures q.operationId != op.operationId && RangesClear(q, op)
      {
        var i :| 0 <= i < n - 1 && before[i] == q;
        assert q == ops[i];
      }
      if op.Range? {
        forall i | 0 <= i < |op.messageIds|
          ensures op.messageIds[i] !in WholeIds(before)
        {
        }
      }
    }
  }

  // -------------------------------------------------------------- the third loop

  predicate NonEmpty(s: Span) {
    s.end.Some? ==> s.start < s.end.value
  }

  predicate Precedes(a: Span, b: Span) {
    a.end.Some? && a.end.value <= b.start
  }

  predicate Clear(a: Span, b: Span) {
    Precedes(a, b) || Precedes(b, a)
  }

  ghost predicate AllClear(spans: seq<Span>) {
    forall i, j :: 0 <= i < j < |spans| ==> Clear(spans[i], spans[j])
  }

  ghost predicate Chained(spans: seq<Span>) {
    forall i, j :: 0 <= i < j < |spans| && j == i + 1 ==> Precedes(spans[i], spans[j])
  }

  function StartKey(s: Span): int { s.start }

  lemma {:induction false} ChainedAll(spans: seq<Span>, i: nat, j: nat)
    requires Chained(spans) && i < j < |spans| && forall s :: s in spans ==> NonEmpty(s)
    ensures Precedes(spans[i], spans[j])
  {
    assert Precedes(spans[j - 1], spans[j]);
    if i < j - 1 {
      ChainedAll(spans, i, j - 1);
      assert spans[j - 1] in spans;
    }
  }

  lemma PairClear(spans: seq<Span>, x: Span, y: Span)
    requires AllClear(spans) && x in spans && y in spans && x != y
    ensures Clear(x, y)
  {
    var a :| 0 <= a < |spans| && spans[a] == x;
    var b :| 0 <= b < |spans| && spans[b] == y;
    assert a < b ==> Clear(spans[a], spans[b]);
    assert b < a ==> Clear(spans[b], spans[a]);
  }

  /** Sorting and comparing neighbours decides whether all spans are clear of each other. */
  lemma SortedDecides(spans: seq<Span>)
    requires forall s :: s in spans ==> NonEmpty(s)
    ensures AllClear(spans) <==> Chained(SortBy(spans, StartKey))
  {
    var sorted := SortBy(spans, StartKey);
    SameElements(sorted, spans);
    if AllClear(spans) {
      forall i, j | 0 <= i < j < |spans|
        ensures spans[i] != spans[j]
      {
        assert Clear(spans[i], spans[j]) && spans[i] in spans;
      }
      DistinctPermutation(sorted, spans);
      forall i, j | 0 <= i < j < |sorted| && j == i + 1
        ensures Precedes(sorted[i], sorted[j])
      {
        assert sorted[i] in spans && sorted[j] in spans;
        PairClear(spans, sorted[i], sorted[j]);
        assert StartKey(sorted[i]) <= StartKey(sorted[j]);
      }
    }
    if Chained(sorted) {
      forall i, j | 0 <= i < j < |sorted|
        ensures sorted[i] != sorted[j]
      {
        ChainedAll(sorted, i, j);
        assert sorted[i] in sorted;
      }
      DistinctPermutation(spans, sorted);
      forall i, j | 0 <= i < j < |spans|
        ensures Clear(spans[i], spans[j])
      {
        assert spans[i] in sorted && spans[j] in sorted;
        var a :| 0 <= a < |sorted| && sorted[a] == spans[i];
        var b :| 0 <= b < |sorted| && sorted[b] == spans[j];
        if a < b {
          ChainedAll(sorted, a, b);
        } else {
          ChainedAll(sorted, b, a);
        }
      }
    }
  }

  method CheckSpans(spans: map<PartKey, seq<Span>>) returns (ok: bool)
    requires forall key :: key in spans ==> forall s :: s in spans[key] ==> NonEmpty(s)
    ensures ok <==> forall key :: key in spans ==> AllClear(spans[key])
  {
    var todo := spans.Keys;
    while todo != {}
      invariant todo <= spans.Keys
      invariant forall key :: key in spans && key !in todo ==> AllClear(spans[key])
      decreases todo
    {
      var key :| key in todo;
      var list := SortBy(spans[key], StartKey);
      SortedDecides(spans[key]);
      ok := CheckNeighbours(list);
      if !ok {
        return;
      }
      todo := todo - {key};
    }
    ok := true;
  }

  method CheckNeighbours(list: seq<Span>) returns (ok: bool)
    ensures ok <==> Chained(list)
  {
    var i := 1;
    while i < |list|
      invariant 1 <= i
      invariant forall a, b :: 0 <= a < b < |list| && b == a + 1 && b < i ==> Precedes(list[a], list[b])
    {
      if list[i - 1].end.None? || list[i - 1].end.value > list[i].start {
        assert !Precedes(list[i - 1], list[i]);
        return false;
      }
      i := i + 1;
    }
    return true;
  }

  // ------------------------------------------------ spans against operation pairs

  predicate EditHas(op: ViewOperation, key: PartKey, s: Span) {
    !op.Range? && KeyOf(op) == key && SpanOf(op) == s
  }

  function SpansAt(ops: seq<ViewOperation>, key: PartKey): seq<Span> {
    if key in SpansOf(ops) then SpansOf(ops)[key] else []
  }

  lemma SpansAtPush(ops: seq<ViewOperation>, op: ViewOperation, key: PartKey)
    ensures SpansAt(ops + [op], key) ==
            if !op.Range? && KeyOf(op) == key then SpansAt(ops, key) + [SpanOf(op)] else SpansAt(ops, key)
  {
    assert (ops + [op])[..|ops|] == ops;
  }

  lemma {:induction false} SpanMembers(ops: seq<ViewOperation>, key: PartKey, s: Span)
    ensures s in SpansAt(ops, key) <==> exists op :: op in ops && EditHas(op, key, s)
  {
    if ops != [] {
      var before, op := ops[..|ops| - 1], ops[|ops| - 1];
      assert ops == before + [op];
      SpanMembers(before, key, s);
      SpansAtPush(before, op, key);
      assert (exists q :: q in ops && EditHas(q, key, s)) <==>
             (exists q :: q in before && EditHas(q, key, s)) || EditHas(op, key, s) by {
        assert forall q :: q in ops <==> q in before || q == op;
      }
    }
  }

  lemma ApartClear(a: ViewOperation, b: ViewOperation)
    requires SamePart(a, b) && SchemaValid(a) && SchemaValid(b)
    ensures Apart(a, b) <==> Clear(SpanOf(a), SpanOf(b))
    ensures NonEmpty(SpanOf(a)) && NonEmpty(SpanOf(b))
  {
  }

  lemma ClearPush(spans: seq<Span>, s: Span)
    ensures AllClear(spans + [s]) <==> AllClear(spans) && forall x :: x in spans ==> Clear(x, s)
  {
    var all := spans + [s];
    if AllClear(all) {
      forall x | x in spans
        ensures Clear(x, s)
      {
        var i :| 0 <= i < |spans| && spans[i] == x;
        assert all[i] == x && all[|spans|] == s;
      }
      forall i, j | 0 <= i < j < |spans|
        ensures Clear(spans[i], spans[j])
      {
        assert all[i] == spans[i] && all[j] == spans[j];
      }
    }
    if AllClear(spans) && forall x :: x in spans ==> Clear(x, s) {
      forall i, j | 0 <= i < j < |all|
        ensures Clear(all[i], all[j])
      {
        if j < |spans| {
          assert Clear(spans[i], spans[j]);
        } else {
          assert spans[i] in spans;
        }
      }
    }
  }

  lemma {:induction false} SpansDecide(ops: seq<ViewOperation>)
    requires forall op :: op in ops ==> SchemaValid(op)
    ensures (forall i, j :: 0 <= i < j < |ops| ==> Apart(ops[i], ops[j])) <==> forall key :: AllClear(SpansAt(ops, key))
  {
    if ops != [] {
      var before, op := ops[..|ops| - 1], ops[|ops| - 1];
      assert ops == before + [op];
      SpansDecide(before);
      forall key
        ensures AllClear(SpansAt(ops, key)) <==>
                AllClear(SpansAt(before, key)) &&
                (!op.Range? && KeyOf(op) == key ==> forall q :: q in before ==> Apart(q, op))
      {
        SpansAtPush(before, op, key);
        if !op.Range? && KeyOf(op) == key {
          ClearPush(SpansAt(before, key), SpanOf(op));
          LastClear(before, op);
        }
      }
      PairsSplit(before, op);
      if forall q :: q in before ==> Apart(q, op) {
        assert forall key :: AllClear(SpansAt(ops, key)) <==> AllClear(SpansAt(before, key));
      } else {
        assert !AllClear(SpansAt(ops, KeyOf(op)));
      }
    }
  }

  lemma LastClear(before: seq<ViewOperation>, op: ViewOperation)
    requires !op.Range? && SchemaValid(op) && forall q :: q in before ==> SchemaValid(q)
    ensures (forall x :: x in SpansAt(before, KeyOf(op)) ==> Clear(x, SpanOf(op))) <==> (forall q :: q in before ==> Apart(q, op))
  {
    forall q | q in before && SamePart(q, op)
      ensures SpanOf(q) in SpansAt(before, KeyOf(op)) && (Apart(q, op) <==> Clear(SpanOf(q), SpanOf(op)))
    {
      ApartClear(q, op);
      SpanMembers(before, KeyOf(op), SpanOf(q));
      assert EditHas(q, KeyOf(op), SpanOf(q));
    }
    forall x | x in SpansAt(before, KeyOf(op))
      ensures exists q :: q in before && SamePart(q, op) && SpanOf(q) == x
    {
      SpanMembers(before, KeyOf(op), x);
      var q :| q in before && EditHas(q, KeyOf(op), x);
    }
  }

  lemma PairsSplit(before: seq<ViewOperation>, op: ViewOperation)
    ensures var ops := before + [op];
            (forall i, j :: 0 <= i < j < |ops| ==> Apart(ops[i], ops[j])) <==>
            (forall i, j :: 0 <= i < j < |before| ==> Apart(before[i], before[j])) && (forall q :: q in before ==> Apart(q, op))
  {
    var ops := before + [op];
    if forall i, j :: 0 <= i < j < |ops| ==> Apart(ops[i], ops[j]) {
      forall q | q in before
        ensures Apart(q, op)
      {
        var i :| 0 <= i < |before| && before[i] == q;
        assert ops[i] == q && ops[|before|] == op;
      }
      forall i, j | 0 <= i < j < |before|
        ensures Apart(before[i], before[j])
      {
        assert ops[i] == before[i] && ops[j] == before[j];
      }
    }
  }

  // ------------------------------------------------------------------- the whole

  /** No partial edit touches a message some range replaces. */
  ghost predicate EditsClearOfRanges(ops: seq<ViewOperation>) {
    forall op :: op in ops && !op.Range? ==> op.messageId !in WholeIds(ops)
  }

  lemma DisjointEither(a: ViewOperation, b: ViewOperation)
    ensures Disjoint(IdsOf(a), IdsOf(b)) <==> Disjoint(IdsOf(b), IdsOf(a))
    ensures !a.Range? && b.Range? ==> (Disjoint(IdsOf(a), IdsOf(b)) <==> a.messageId !in b.messageIds)
  {
    if Disjoint(IdsOf(a), IdsOf(b)) {
      assert forall i :: 0 <= i < |IdsOf(a)| ==> IdsOf(a)[i] !in IdsOf(b);
    }
    if Disjoint(IdsOf(b), IdsOf(a)) {
      assert forall i :: 0 <= i < |IdsOf(b)| ==> IdsOf(b)[i] !in IdsOf(a);
    }
  }

  lemma LoopsImplyAligned(snapshot: Snapshot, ops: seq<ViewOperation>)
    requires SnapshotValid(snapshot) && forall op :: op in ops ==> SchemaValid(op)
    requires Passed(snapshot, ops, |ops|) && EditsClearOfRanges(ops)
    requires forall i, j :: 0 <= i < j < |ops| ==> Apart(ops[i], ops[j])
    ensures OperationsAligned(snapshot, ops)
  {
    PassedPairs(snapshot, ops, |ops|);
    forall i, j | 0 <= i < j < |ops|
      ensures Unconflicted(ops[i], ops[j])
    {
      var a, b := ops[i], ops[j];
      assert a in ops && b in ops;
      DisjointEither(a, b);
      DisjointEither(b, a);
    }
  }

  lemma AlignedImpliesLoops(snapshot: Snapshot, ops: seq<ViewOperation>)
    requires SnapshotValid(snapshot) && forall op :: op in ops ==> SchemaValid(op)
    requires OperationsAligned(snapshot, ops)
    ensures Passed(snapshot, ops, |ops|) && EditsClearOfRanges(ops)
    ensures forall i, j :: 0 <= i < j < |ops| ==> Apart(ops[i], ops[j])
  {
    forall i | 0 <= i < |ops|
      ensures SourcesIn(snapshot, ops[i])
    {
      assert ops[i] in ops;
    }
    forall i, j | 0 <= i < j < |ops|
      ensures ops[i].operationId != ops[j].operationId && RangesClear(ops[i], ops[j]) && Apart(ops[i], ops[j])
    {
      assert Unconflicted(ops[i], ops[j]);
    }
    PairsPass(snapshot, ops, |ops|);
    AlignedEditsClear(snapshot, ops);
  }

  lemma AlignedEditsClear(snapshot: Snapshot, ops: seq<ViewOperation>)
    requires SnapshotValid(snapshot) && forall op :: op in ops ==> SchemaValid(op)
    requires OperationsAligned(snapshot, ops)
    ensures EditsClearOfRanges(ops)
  {
    forall e, r | e in ops && !e.Range? && r in ops && r.Range?
      ensures e.messageId !in r.messageIds
    {
      var i :| 0 <= i < |ops| && ops[i] == e;
      var j :| 0 <= j < |ops| && ops[j] == r;
      DisjointEither(e, r);
      assert if i < j then Unconflicted(ops[i], ops[j]) else Unconflicted(ops[j], ops[i]);
    }
  }

  lemma {:induction false} SpansNonEmpty(ops: seq<ViewOperation>)
    requires forall op :: op in ops ==> SchemaValid(op)
    ensures forall key :: key in SpansOf(ops) ==> forall s :: s in SpansOf(ops)[key] ==> NonEmpty(s)
  {
    if ops != [] {
      SpansNonEmpty(ops[..|ops| - 1]);
      assert SchemaValid(ops[|ops| - 1]);
    }
  }

  ghost predicate AllApart(ops: seq<ViewOperation>) {
    forall i, j :: 0 <= i < j < |ops| ==> Apart(ops[i], ops[j])
  }

  lemma SpansVerdict(ops: seq<ViewOperation>)
    requires forall op :: op in ops ==> SchemaValid(op)
    ensures (forall key :: key in SpansOf(ops) ==> AllClear(SpansOf(ops)[key])) <==> AllApart(ops)
  {
    SpansDecide(ops);
    forall key
      ensures AllClear(SpansAt(ops, key)) <==> (key in SpansOf(ops) ==> AllClear(SpansOf(ops)[key]))
    {
    }
  }

  lemma LoopsDecide(snapshot: Snapshot, ops: seq<ViewOperation>)
    requires SnapshotValid(snapshot) && forall op :: op in ops ==> SchemaValid(op)
    ensures OperationsAligned(snapshot, ops) <==> Passed(snapshot, ops, |ops|) && EditsClearOfRanges(ops) && AllApart(ops)
  {
    if OperationsAligned(snapshot, ops) {
      AlignedImpliesLoops(snapshot, ops);
    }
    if Passed(snapshot, ops, |ops|) && EditsClearOfRanges(ops) && AllApart(ops) {
      LoopsImplyAligned(snapshot, ops);
    }
  }

  method CheckEdits(ops: seq<ViewOperation>, whole: set<Text>) returns (ok: bool)
    ensures ok <==> forall op :: op in ops && !op.Range? ==> op.messageId !in whole
  {
    for n := 0 to |ops|
      invariant forall k :: 0 <= k < n && !ops[k].Range? ==> ops[k].messageId !in whole
    {
      if !ops[n].Range? && ops[n].messageId in whole {
        return false;
      }
    }
    return true;
  }

  method CheckPlanOperations(snapshot: Snapshot, ops: seq<ViewOperation>) returns (ok: bool, touched: set<Text>)
    requires SnapshotValid(snapshot) && forall op :: op in ops ==> SchemaValid(op)
    ensures ok <==> OperationsAligned(snapshot, ops)
    ensures ok ==> touched == TouchedIds(ops)
  {
    LoopsDecide(snapshot, ops);
    var whole, spans;
    ok, touched, whole, spans := CheckOperations(snapshot, ops);
    if !ok {
      return;
    }
    ok := CheckEdits(ops, whole);
    if !ok {
      return;
    }
    SpansNonEmpty(ops);
    SpansVerdict(ops);
    ok := CheckSpans(spans);
  }

  lemma AlignedIs(plan: Plan, snapshot: Snapshot, ops: seq<ViewOperation>)
    requires Parsed(plan) && plan.compacted && plan.operations == Some(ops) && ops != [] && plan.sourceSnapshot == Some(snapshot)
    ensures Aligned(plan) <==>
            OperationsAligned(snapshot, ops) && ListsMatch(plan, snapshot, Touched(snapshot.messageIds, TouchedIds(ops)))
  {
  }

  /** A plan without operations is aligned; one that is not compacting must have none; an empty or unbound one is not. */
  lemma AlignedOtherwise(plan: Plan)
    requires Parsed(plan)
    ensures plan.operations.None? ==> Aligned(plan)
    ensures plan.operations.Some? && !plan.compacted ==> (Aligned(plan) <==> plan.operations.value == [])
    ensures plan.operations.Some? && plan.compacted && (plan.operations.value == [] || plan.sourceSnapshot.None?) ==> !Aligned(plan)
  {
  }

  /** `operationSourcesAligned`. */
  method OperationSourcesAligned(plan: Plan) returns (ok: bool)
    requires Parsed(plan)
    ensures ok <==> Aligned(plan)
  {
    AlignedOtherwise(plan);
    if plan.operations.None? {
      return true;
    }
    var ops := plan.operations.value;
    if !plan.compacted {
      return ops == [];
    }
    if ops == [] || plan.sourceSnapshot.None? {
      return false;
    }
    var snapshot := plan.sourceSnapshot.value;
    AlignedIs(plan, snapshot, ops);
    ok := CheckCompacting(plan, snapshot, ops);
  }

  /** The part of `operationSourcesAligned` behind its early returns. */
  method CheckCompacting(plan: Plan, snapshot: Snapshot, ops: seq<ViewOperation>) returns (ok: bool)
    requires SnapshotValid(snapshot) && forall op :: op in ops ==> SchemaValid(op)
    ensures ok <==>
            OperationsAligned(snapshot, ops) && ListsMatch(plan, snapshot, Touched(snapshot.messageIds, TouchedIds(ops)))
  {
    var touched;
    ok, touched := CheckPlanOperations(snapshot, ops);
    if ok {
      ok := CheckLists(plan, snapshot, Touched(snapshot.messageIds, touched));
    }
  }

  method CheckLists(plan: Plan, snapshot: Snapshot, ordered: seq<Text>) returns (ok: bool)
    ensures ok <==> ListsMatch(plan, snapshot, ordered)
  {
    if ordered != plan.replacedMessageIds {
      return false;
    }
    for i := 0 to |ordered|
      invariant forall k :: 0 <= k < i ==> DigestListed(plan, snapshot, ordered[k], k)
    {
      if plan.sourceDigests.None? || i >= |plan.sourceDigests.value|
         || DigestOf(snapshot, ordered[i]) != Some(plan.sourceDigests.value[i]) {
        return false;
      }
    }
    return true;
  }
}
