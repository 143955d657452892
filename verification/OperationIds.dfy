/** The operation ids: SHA-256 over a canonical list, for the planner's operations and for enhanced ones. */
module OperationIds {
  import opened Texts
  import opened Messages
  import opened Substitution
  import opened Canonical
  import opened CanonicalProof
  import opened Digests
  import opened Packing
  import opened Candidacy
  import opened Planning
  import opened Planner
  import opened Contract
  import EnhancedCandidate

  // -------------------------------------------------------------- numbers as text

  /** A natural number in decimal digits. */
  function Decimal(n: nat): Text {
    if n < 10 then [48 + n] else Decimal(n / 10) + [48 + n % 10]
  }

  lemma {:induction false} DecimalIsNumber(n: nat)
    ensures Decimal(n) != [] && forall i :: 0 <= i < |Decimal(n)| ==> 48 <= Decimal(n)[i] <= 57
  {
    if n >= 10 {
      DecimalIsNumber(n / 10);
    }
  }

  lemma {:induction false} DecimalUnique(m: nat, n: nat)
    ensures Decimal(m) == Decimal(n) ==> m == n
  {
    var a, b := Decimal(m), Decimal(n);
    DecimalIsNumber(m);
    DecimalIsNumber(n);
    if a == b {
      assert a[|a| - 1] == 48 + m % 10 && b[|b| - 1] == 48 + n % 10;
      DecimalIsNumber(m / 10);
      DecimalIsNumber(n / 10);
      if m >= 10 && n >= 10 {
        assert a[..|a| - 1] == Decimal(m / 10) && b[..|b| - 1] == Decimal(n / 10);
        DecimalUnique(m / 10, n / 10);
      }
    }
  }

  // ------------------------------------------------------------ lists of scalars

  /** A text, a number or an absent value, as the items of the hashed lists are. */
  predicate Scalar(v: Json) {
    v.Str? || v.Undefined? || (v.Num? && NumberText(v.literal))
  }

  /** Lists of scalars print alike only when they have the same items, an absent one printing as a string. */
  lemma ListsDecide(a: seq<Json>, b: seq<Json>)
    requires (forall i :: 0 <= i < |a| ==> Scalar(a[i])) && (forall i :: 0 <= i < |b| ==> Scalar(b[i]))
    requires CanonicalJSON(Arr(a)) == CanonicalJSON(Arr(b))
    ensures |a| == |b| && forall i :: 0 <= i < |a| ==> Expressed(a[i]) == Expressed(b[i])
  {
    CanonicalExactly(Arr(a), Arr(b));
    var x, y := Expressed(Arr(a)).items, Expressed(Arr(b)).items;
    assert |x| == |y|;
    forall i | 0 <= i < |a|
      ensures Expressed(a[i]) == Expressed(b[i])
    {
      assert Same(x[i], y[i]);
    }
  }

  // ------------------------------------------------------------------ planned ids

  const POLICY_VERSION := Ascii("layered-rules-v2")
  const TOOL_OUTPUT := Ascii("tool-output")
  const TEXT_RANGE := Ascii("text-range")

  function Number(n: nat): Json { Num(Decimal(n)) }

  function PlannedItems(c: Candidate, nodeId: Digest): (items: seq<Json>)
    ensures |items| == 8
  {
    var o := c.observation;
    [Str(POLICY_VERSION), Str(c.message.id), Str(c.digest),
     Str(if o.span.None? then TOOL_OUTPUT else TEXT_RANGE), Number(o.partIndex),
     if o.span.Some? then Number(o.span.value.start) else Undefined,
     if o.span.Some? then Number(o.span.value.end) else Undefined,
     Str(nodeId)]
  }

  function PlannedId(sha: Text -> Digest, c: Candidate, nodeId: Digest): Digest {
    sha(CanonicalJSON(Arr(PlannedItems(c, nodeId))))
  }

  function ByDigest(sha: Text -> Digest): Naming {
    Naming((c, nodeId) => PlannedId(sha, c, nodeId))
  }

  lemma NumberIsScalar(n: nat)
    ensures Scalar(Number(n))
  {
    DecimalIsNumber(n);
  }

  lemma PlannedItemsScalar(c: Candidate, nodeId: Digest)
    ensures forall i :: 0 <= i < 8 ==> Scalar(PlannedItems(c, nodeId)[i])
  {
    NumberIsScalar(c.observation.partIndex);
    if c.observation.span.Some? {
      NumberIsScalar(c.observation.span.value.start);
      NumberIsScalar(c.observation.span.value.end);
    }
  }

  lemma PlannedIdDecides(sha: Text -> Digest, a: Candidate, b: Candidate, m: Digest, n: Digest)
    requires Injective(sha) && PlannedId(sha, a, m) == PlannedId(sha, b, n)
    ensures a.message.id == b.message.id && a.digest == b.digest && m == n
    ensures a.observation.partIndex == b.observation.partIndex && a.observation.span == b.observation.span
  {
    var x, y := PlannedItems(a, m), PlannedItems(b, n);
    PlannedItemsScalar(a, m);
    PlannedItemsScalar(b, n);
    ListsDecide(x, y);
    assert Expressed(x[1]) == Expressed(y[1]) && Expressed(x[2]) == Expressed(y[2]) && Expressed(x[7]) == Expressed(y[7]);
    assert Expressed(x[4]) == Expressed(y[4]) && Expressed(x[5]) == Expressed(y[5]) && Expressed(x[6]) == Expressed(y[6]);
    DecimalUnique(a.observation.partIndex, b.observation.partIndex);
    if a.observation.span.Some? && b.observation.span.Some? {
      DecimalUnique(a.observation.span.value.start, b.observation.span.value.start);
      DecimalUnique(a.observation.span.value.end, b.observation.span.value.end);
    }
  }

  /** The planner's ids tell its fields apart: the absent bounds of a tool output are no obstacle. */
  lemma DigestsNameFields(sha: Text -> Digest)
    requires Injective(sha)
    ensures NamesFields(ByDigest(sha))
  {
    var naming := ByDigest(sha);
    forall a: Candidate, b: Candidate, m: Digest, n: Digest | naming.operation(a, m) == naming.operation(b, n)
      ensures a.message.id == b.message.id && a.observation.partIndex == b.observation.partIndex && a.observation.span == b.observation.span
    {
      PlannedIdDecides(sha, a, b, m, n);
    }
  }

  // ----------------------------------------------------------------- enhanced ids

  const SUMMARY_OPERATION := Ascii("summary-operation")

  function SummaryItems(id: Digest, node: Digest, replacement: Text): seq<Json> {
    [Str(SUMMARY_OPERATION), Str(id), Str(node), Str(replacement)]
  }

  function SummaryId(sha: Text -> Digest, id: Digest, node: Digest, replacement: Text): Digest {
    sha(CanonicalJSON(Arr(SummaryItems(id, node, replacement))))
  }

  function BySummary(sha: Text -> Digest): EnhancedCandidate.Renaming {
    (id, node, replacement) => SummaryId(sha, id, node, replacement)
  }

  lemma SummaryIdDecides(sha: Text -> Digest, a: Digest, b: Digest, m: Digest, n: Digest, s: Text, t: Text)
    requires Injective(sha) && SummaryId(sha, a, m, s) == SummaryId(sha, b, n, t)
    ensures a == b && m == n && s == t
  {
    var x, y := SummaryItems(a, m, s), SummaryItems(b, n, t);
    ListsDecide(x, y);
    assert Expressed(x[1]) == Expressed(y[1]) && Expressed(x[2]) == Expressed(y[2]) && Expressed(x[3]) == Expressed(y[3]);
  }

  lemma SummaryIsNotPlanned(sha: Text -> Digest, a: Digest, node: Digest, s: Text, c: Candidate, nodeId: Digest)
    requires Injective(sha)
    ensures SummaryId(sha, a, node, s) != PlannedId(sha, c, nodeId)
  {
    if SummaryId(sha, a, node, s) == PlannedId(sha, c, nodeId) {
      PlannedItemsScalar(c, nodeId);
      ListsDecide(SummaryItems(a, node, s), PlannedItems(c, nodeId));
    }
  }

  ghost predicate PlannedIds(sha: Text -> Digest, ops: seq<ViewOperation>) {
    forall op :: op in ops ==> exists c, nodeId :: op.operationId == PlannedId(sha, c, nodeId)
  }

  lemma NamedByDigest(sha: Text -> Digest, c: Candidate, nodeId: Digest, replacement: Text)
    ensures OperationOf(c, ByDigest(sha).operation(c, nodeId), nodeId, replacement).operationId == PlannedId(sha, c, nodeId)
  {
    assert ByDigest(sha).operation(c, nodeId) == PlannedId(sha, c, nodeId);
  }

  lemma OperationsArePlanned(sha: Text -> Digest, candidates: seq<Candidate>, nodeIds: seq<Digest>, replacements: seq<Text>)
    requires |nodeIds| == |replacements| == |candidates|
    ensures PlannedIds(sha, OperationsOf(ByDigest(sha), candidates, nodeIds, replacements))
  {
    var ops := OperationsOf(ByDigest(sha), candidates, nodeIds, replacements);
    forall op | op in ops
      ensures exists c, nodeId :: op.operationId == PlannedId(sha, c, nodeId)
    {
      var i :| 0 <= i < |ops| && ops[i] == op;
      NamedByDigest(sha, candidates[i], nodeIds[i], replacements[i]);
      assert op.operationId == PlannedId(sha, candidates[i], nodeIds[i]);
    }
  }

  /** No planned id comes from another id by renaming, so a planned history can be enhanced, over and over. */
  lemma PlannedIdsApart(sha: Text -> Digest, ops: seq<ViewOperation>)
    requires Injective(sha) && PlannedIds(sha, ops)
    ensures EnhancedCandidate.RenamesApart(BySummary(sha), ops)
  {
    var rename := BySummary(sha);
    forall a, b, m, n, s, t | rename(a, m, s) == rename(b, n, t)
      ensures a == b
    {
      SummaryIdDecides(sha, a, b, m, n, s, t);
    }
    forall x, y, steps: seq<EnhancedCandidate.Shortening> | x in ops && y in ops && steps != []
      ensures EnhancedCandidate.Renamed(rename, x.operationId, steps) != y.operationId
    {
      var c, nodeId :| y.operationId == PlannedId(sha, c, nodeId);
      var last := steps[|steps| - 1];
      SummaryIsNotPlanned(sha, EnhancedCandidate.Renamed(rename, x.operationId, steps[..|steps| - 1]), last.node, last.text, c, nodeId);
    }
  }

  /** With ids made by an injective digest every honest plan of the planner is a sound base for a candidate. */
  lemma PlannedPlansCanBeEnhanced(
      sha: Text -> Digest, w: Setting, r: Rendering, stored: Tokens, ms: seq<Message>, options: Options, plan: Plan)
    requires Injective(sha) && Built(w, r, stored, ms, options, ByDigest(sha), plan)
    requires plan.compacted && HonestBase(w.h, r.tokens, ms, plan)
    ensures EnhancedCandidate.Sound(w.h, r.tokens, ms, plan, BySummary(sha))
  {
    var leaves, nodeIds, taken, memory :|
      BuiltWith(w, r, stored, ms, options, ByDigest(sha), plan, leaves, nodeIds, taken, memory);
    OperationsArePlanned(sha, Chosen(w, r, ms, options), nodeIds, AllShown(r, Chosen(w, r, ms, options), leaves, taken));
    PlannedIdsApart(sha, plan.operations.value);
  }
}
