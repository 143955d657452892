/** The later loops of `materializeOperations`: sort, check, rewrite the parts, stream the output. */
module Operations {
  import opened Texts
  import opened Messages
  import opened Sorting
  import opened Substitution
  import opened Admission
  import Outcome

  // ------------------------------------------------------- sort and check parts

  function SortKey(op: ViewOperation): int {
    if op.TextRange? then op.start else 0
  }

  ghost predicate AdjacentApart(edits: seq<ViewOperation>) {
    forall i, j :: 0 <= i < j < |edits| && j == i + 1 ==> InSequence(edits[i], edits[j])
  }

  predicate InSequence(a: ViewOperation, b: ViewOperation) {
    a.TextRange? && b.TextRange? && a.end <= b.start
  }

  function Sorted(edits: seq<ViewOperation>): seq<ViewOperation> {
    SortBy(edits, SortKey)
  }

  method CheckAdjacent(edits: seq<ViewOperation>) returns (ok: bool)
    ensures ok <==> AdjacentApart(edits)
  {
    var k := 1;
    while k < |edits|
      invariant 1 <= k
      invariant forall i, j :: 0 <= i < j < |edits| && j == i + 1 && j < k ==> InSequence(edits[i], edits[j])
    {
      var previous, current := edits[k - 1], edits[k];
      if !previous.TextRange? || !current.TextRange? || previous.end > current.start {
        assert !InSequence(edits[k - 1], edits[k]);
        return false;
      }
      k := k + 1;
    }
    return true;
  }

  /** `sorted` holds the lists of `messageParts` for the parts in `done`, sorted. */
  ghost predicate MessageSorted(
      messageParts: map<nat, seq<ViewOperation>>, sorted: map<nat, seq<ViewOperation>>, done: set<nat>)
    requires done <= messageParts.Keys
  {
    && sorted.Keys == done
    && (forall p :: p in done ==> sorted[p] == Sorted(messageParts[p]) && AdjacentApart(sorted[p]))
  }

  method SortMessage(messageParts: map<nat, seq<ViewOperation>>) returns (ok: bool, sorted: map<nat, seq<ViewOperation>>)
    ensures ok ==> MessageSorted(messageParts, sorted, messageParts.Keys)
    ensures !ok ==> exists p :: p in messageParts && !AdjacentApart(Sorted(messageParts[p]))
  {
    sorted := map[];
    var todo := messageParts.Keys;
    while todo != {}
      invariant todo <= messageParts.Keys
      invariant MessageSorted(messageParts, sorted, messageParts.Keys - todo)
      decreases todo
    {
      var p :| p in todo;
      var edits := Sorted(messageParts[p]);
      ok := CheckAdjacent(edits);
      if !ok {
        return;
      }
      sorted := sorted[p := edits];
      todo := todo - {p};
    }
    ok := true;
  }

  ghost predicate PartsSorted(parts: PartEdits, sorted: PartEdits, done: set<nat>)
    requires done <= parts.Keys
  {
    && sorted.Keys == done
    && (forall i :: i in done ==> MessageSorted(parts[i], sorted[i], parts[i].Keys))
  }

  method SortParts(parts: PartEdits) returns (ok: bool, sorted: PartEdits)
    ensures ok ==> PartsSorted(parts, sorted, parts.Keys)
    ensures !ok ==> exists i, p :: i in parts && p in parts[i] && !AdjacentApart(Sorted(parts[i][p]))
  {
    sorted := map[];
    var todo := parts.Keys;
    while todo != {}
      invariant todo <= parts.Keys
      invariant PartsSorted(parts, sorted, parts.Keys - todo)
      decreases todo
    {
      var i :| i in todo;
      var messageParts;
      ok, messageParts := SortMessage(parts[i]);
      if !ok {
        return;
      }
      sorted := sorted[i := messageParts];
      todo := todo - {i};
    }
    ok := true;
  }

  // ------------------------------------------------------------- rewrite a text

  /** The edits are inside the text and follow each other. */
  ghost predicate Spaced(text: Text, edits: seq<ViewOperation>) {
    && (forall op :: op in edits ==> op.TextRange? && op.start < op.end <= |text|)
    && (forall i, j :: 0 <= i < j < |edits| ==> edits[i].end <= edits[j].start)
  }

  /** `edits` are all the edits of one text part, valid and in order. */
  ghost predicate InOrder(text: Text, ops: seq<ViewOperation>, id: Text, p: nat, edits: seq<ViewOperation>) {
    && (forall op :: op in edits <==> op in ops && EditsPart(op, id, p))
    && Spaced(text, edits)
  }

  lemma {:induction false} AdjacentAll(edits: seq<ViewOperation>, i: nat, j: nat)
    requires AdjacentApart(edits) && i < j < |edits|
    requires forall e :: e in edits ==> e.TextRange? ==> e.start < e.end
    ensures InSequence(edits[i], edits[j])
  {
    assert InSequence(edits[j - 1], edits[j]);
    if i < j - 1 {
      AdjacentAll(edits, i, j - 1);
      assert edits[j - 1] in edits;
    }
  }

  lemma EditTextAt(text: Text, ops: seq<ViewOperation>, id: Text, p: nat, edits: seq<ViewOperation>, e: nat)
    requires InOrder(text, ops, id, p, edits) && e < |edits|
    ensures EditText(text, ops, id, p, edits[e].start) == edits[e].text + EditText(text, ops, id, p, edits[e].end)
  {
    var r := TextEditAt(ops, id, p, edits[e].start);
    assert edits[e] in edits;
    assert r.Some? && r.value in edits;
    var i :| 0 <= i < |edits| && edits[i] == r.value;
  }

  /** Where the copied text before edit `e` begins. */
  function CopiedFrom(edits: seq<ViewOperation>, e: nat): nat
    requires e <= |edits| && forall op :: op in edits ==> op.TextRange?
  {
    if e == 0 then 0 else edits[e - 1].end
  }

  lemma RewriteStep(text: Text, ops: seq<ViewOperation>, id: Text, p: nat, edits: seq<ViewOperation>, e: nat)
    requires InOrder(text, ops, id, p, edits) && e < |edits|
    ensures CopiedFrom(edits, e) <= edits[e].start < edits[e].end <= |text|
    ensures EditText(text, ops, id, p, CopiedFrom(edits, e))
         == text[CopiedFrom(edits, e)..edits[e].start] + edits[e].text + EditText(text, ops, id, p, edits[e].end)
  {
    assert edits[e] in edits;
    NoneBetween(text, ops, id, p, edits, e);
    CopyUntil(text, ops, id, p, CopiedFrom(edits, e), edits[e].start);
    EditTextAt(text, ops, id, p, edits, e);
  }

  lemma RewriteEnd(text: Text, ops: seq<ViewOperation>, id: Text, p: nat, edits: seq<ViewOperation>)
    requires InOrder(text, ops, id, p, edits)
    ensures CopiedFrom(edits, |edits|) <= |text|
    ensures EditText(text, ops, id, p, CopiedFrom(edits, |edits|)) == text[CopiedFrom(edits, |edits|)..]
  {
    NoneBetween(text, ops, id, p, edits, |edits|);
    CopyUntil(text, ops, id, p, CopiedFrom(edits, |edits|), |text|);
  }

  function Slice(text: Text, start: nat, end: nat): Text {
    if start <= end <= |text| then text[start..end] else []
  }

  /** The text written once the first `e` edits are done. */
  function Written(text: Text, edits: seq<ViewOperation>, e: nat): Text
    requires e <= |edits| && forall op :: op in edits ==> op.TextRange?
  {
    if e == 0 then []
    else Written(text, edits, e - 1) + Slice(text, CopiedFrom(edits, e - 1), edits[e - 1].start) + edits[e - 1].text
  }

  /** `lefts[k]` is what is left to write before edit `k`: its copied slice, its text, and what is left after it. */
  ghost predicate Lefts(text: Text, edits: seq<ViewOperation>, lefts: seq<Text>)
    requires forall op :: op in edits ==> op.TextRange?
  {
    |lefts| == |edits| + 1 && forall k :: 0 <= k < |edits| ==> LeftBefore(text, edits, k, lefts[k], lefts[k + 1])
  }

  ghost predicate LeftBefore(text: Text, edits: seq<ViewOperation>, k: nat, before: Text, after: Text)
    requires k < |edits| && forall op :: op in edits ==> op.TextRange?
  {
    before == Slice(text, CopiedFrom(edits, k), edits[k].start) + edits[k].text + after
  }

  lemma {:induction false} WrittenLeft(text: Text, edits: seq<ViewOperation>, lefts: seq<Text>, e: nat)
    requires (forall op :: op in edits ==> op.TextRange?) && Lefts(text, edits, lefts) && e <= |edits|
    ensures Written(text, edits, e) + lefts[e] == lefts[0]
  {
    if e == 0 {
      assert [] + lefts[0] == lefts[0];
    } else {
      WrittenLeft(text, edits, lefts, e - 1);
      assert LeftBefore(text, edits, e - 1, lefts[e - 1], lefts[e - 1 + 1]);
      WrittenStep(text, edits, e, lefts[e - 1], lefts[e]);
    }
  }

  lemma EditTextLeft(text: Text, ops: seq<ViewOperation>, id: Text, p: nat, edits: seq<ViewOperation>, k: nat, before: Text, after: Text)
    requires InOrder(text, ops, id, p, edits) && k < |edits|
    requires before == EditText(text, ops, id, p, CopiedFrom(edits, k)) && after == EditText(text, ops, id, p, edits[k].end)
    ensures LeftBefore(text, edits, k, before, after)
  {
    RewriteStep(text, ops, id, p, edits, k);
  }

  lemma WrittenEdits(text: Text, ops: seq<ViewOperation>, id: Text, p: nat, edits: seq<ViewOperation>)
    requires InOrder(text, ops, id, p, edits)
    ensures CopiedFrom(edits, |edits|) <= |text|
    ensures Written(text, edits, |edits|) + text[CopiedFrom(edits, |edits|)..] == EditText(text, ops, id, p, 0)
  {
    var lefts := seq(|edits| + 1, k requires 0 <= k <= |edits| => EditText(text, ops, id, p, CopiedFrom(edits, k)));
    forall k | 0 <= k < |edits|
      ensures LeftBefore(text, edits, k, lefts[k], lefts[k + 1])
    {
      EditTextLeft(text, ops, id, p, edits, k, lefts[k], lefts[k + 1]);
    }
    WrittenLeft(text, edits, lefts, |edits|);
    RewriteEnd(text, ops, id, p, edits);
  }

  /** Writing one more edit moves its copied slice and its text from what is left to what is written. */
  lemma WrittenStep(text: Text, edits: seq<ViewOperation>, e: nat, before: Text, left: Text)
    requires 0 < e <= |edits| && forall op :: op in edits ==> op.TextRange?
    requires before == Slice(text, CopiedFrom(edits, e - 1), edits[e - 1].start) + edits[e - 1].text + left
    ensures Written(text, edits, e) + left == Written(text, edits, e - 1) + before
  {
    Reassociate(Written(text, edits, e - 1), Slice(text, CopiedFrom(edits, e - 1), edits[e - 1].start), edits[e - 1].text, left);
  }

  lemma Reassociate(a: Text, b: Text, c: Text, d: Text)
    ensures (a + b + c) + d == a + (b + c + d)
  {
  }

  lemma SpacedAt(text: Text, edits: seq<ViewOperation>, e: nat)
    requires Spaced(text, edits) && e < |edits|
    ensures CopiedFrom(edits, e) <= edits[e].start < edits[e].end <= |text| && CopiedFrom(edits, e + 1) == edits[e].end
  {
    assert edits[e] in edits;
  }

  /** The chunks pushed with a moving end are the text with every edited slice replaced. */
  method RewriteText(text: Text, ghost ops: seq<ViewOperation>, ghost id: Text, ghost p: nat, edits: seq<ViewOperation>)
      returns (result: Text)
    requires InOrder(text, ops, id, p, edits)
    ensures result == EditText(text, ops, id, p, 0)
  {
    WrittenEdits(text, ops, id, p, edits);
    var end;
    result, end := PushChunks(text, edits);
    result := result + text[end..];
  }

  method PushChunks(text: Text, edits: seq<ViewOperation>) returns (chunks: Text, end: nat)
    requires Spaced(text, edits)
    ensures chunks == Written(text, edits, |edits|) && end == CopiedFrom(edits, |edits|) <= |text|
  {
    chunks, end := [], 0;
    for e := 0 to |edits|
      invariant end == CopiedFrom(edits, e) <= |text|
      invariant chunks == Written(text, edits, e)
    {
      SpacedAt(text, edits, e);
      chunks := chunks + Slice(text, end, edits[e].start) + edits[e].text;
      end := edits[e].end;
    }
  }

  lemma NoneBetween(text: Text, ops: seq<ViewOperation>, id: Text, p: nat, edits: seq<ViewOperation>, e: nat)
    requires InOrder(text, ops, id, p, edits) && e <= |edits|
    ensures var from := CopiedFrom(edits, e);
            var to := if e == |edits| then |text| else edits[e].start;
            from <= to && forall op :: op in ops && op.TextRange? && EditsPart(op, id, p) && op.start < op.end ==>
                                         !(from <= op.start < to)
  {
    if e > 0 {
      assert edits[e - 1] in edits;
    }
    if e < |edits| {
      assert edits[e] in edits;
    }
    forall op | op in ops && op.TextRange? && EditsPart(op, id, p)
      ensures var from := CopiedFrom(edits, e);
              var to := if e == |edits| then |text| else edits[e].start;
              !(from <= op.start < to)
    {
      assert op in edits;
      var i :| 0 <= i < |edits| && edits[i] == op;
    }
  }

  // ----------------------------------------------------------- rewrite messages

  /** `edits` are the sorted edits of part `p` of `m`. */
  ghost predicate PartEdited(m: Message, ops: seq<ViewOperation>, p: nat, edits: seq<ViewOperation>) {
    && p < |m.parts|
    && edits != []
    && (forall op :: op in edits <==> op in ops && EditsPart(op, m.id, p))
    && if m.parts[p].TextPart? then Spaced(m.parts[p].text, edits) else edits[0].ToolOutput? && |edits| == 1
  }

  method RewritePart(m: Message, ghost ops: seq<ViewOperation>, p: nat, edits: seq<ViewOperation>) returns (next: Part)
    requires PartEdited(m, ops, p, edits)
    ensures next == EditPart(m.parts[p], ops, m.id, p)
  {
    if m.parts[p].ToolPart? {
      next := m.parts[p].(output := Some(edits[0].output));
      OnlyToolEdit(ops, m.id, p, edits);
    } else {
      var text := RewriteText(m.parts[p].text, ops, m.id, p, edits);
      next := TextPart(text);
    }
  }

  lemma OnlyToolEdit(ops: seq<ViewOperation>, id: Text, p: nat, edits: seq<ViewOperation>)
    requires |edits| == 1 && edits[0].ToolOutput? && forall op :: op in edits <==> op in ops && EditsPart(op, id, p)
    ensures ToolEditAt(ops, id, p) == Some(edits[0])
  {
    assert edits[0] in edits;
    var r := ToolEditAt(ops, id, p);
    assert r.Some? && r.value in edits;
  }

  /** The rewritten parts: those in `done` edited, the others as they were. */
  ghost predicate PartsUpTo(m: Message, ops: seq<ViewOperation>, done: set<nat>, parts: seq<Part>) {
    && |parts| == |m.parts|
    && forall p: nat :: p < |parts| ==> parts[p] == if p in done then EditPart(m.parts[p], ops, m.id, p) else m.parts[p]
  }

  method RewriteMessage(m: Message, ghost ops: seq<ViewOperation>, messageParts: map<nat, seq<ViewOperation>>)
      returns (next: Message)
    requires forall p :: p in messageParts ==> PartEdited(m, ops, p, messageParts[p])
    requires forall p: nat :: p < |m.parts| && p !in messageParts ==> forall op :: op in ops ==> !EditsPart(op, m.id, p)
    ensures next == EditMessage(m, ops)
  {
    var parts := m.parts;
    var todo := messageParts.Keys;
    while todo != {}
      invariant todo <= messageParts.Keys
      invariant PartsUpTo(m, ops, messageParts.Keys - todo, parts)
      decreases todo
    {
      var p :| p in todo;
      assert PartEdited(m, ops, p, messageParts[p]);
      var part := RewritePart(m, ops, p, messageParts[p]);
      parts := parts[p := part];
      todo := todo - {p};
    }
    next := m.(parts := parts);
    RewrittenMeaning(m, ops, messageParts.Keys, parts);
  }

  lemma RewrittenMeaning(m: Message, ops: seq<ViewOperation>, done: set<nat>, parts: seq<Part>)
    requires PartsUpTo(m, ops, done, parts)
    requires forall p: nat :: p < |m.parts| && p !in done ==> forall op :: op in ops ==> !EditsPart(op, m.id, p)
    ensures m.(parts := parts) == EditMessage(m, ops)
  {
    forall p: nat | p < |m.parts|
      ensures parts[p] == EditPart(m.parts[p], ops, m.id, p)
    {
      if p !in done {
        UntouchedPart(m.parts[p], ops, m.id, p);
      }
    }
    assert parts == EditMessage(m, ops).parts;
  }

  /** `sorted` lists, for every edited message and part, its edits. */
  ghost predicate Grouped(ms: seq<Message>, ops: seq<ViewOperation>, sorted: PartEdits) {
    && (forall i :: i in sorted ==> i < |ms|)
    && (forall i, p :: i in sorted && p in sorted[i] ==> PartEdited(ms[i], ops, p, sorted[i][p]))
    && (forall op :: op in ops && !op.Range? ==>
          Start(ms, op) in sorted && op.partIndex in sorted[Start(ms, op)])
  }

  method RewriteMessages(ms: seq<Message>, ghost ops: seq<ViewOperation>, sorted: PartEdits) returns (next: seq<Message>)
    requires UniqueIds(ms) && Grouped(ms, ops, sorted)
    requires forall op :: op in ops && !op.Range? ==> Start(ms, op) < |ms|
    ensures |next| == |ms| && forall i :: 0 <= i < |ms| ==> next[i] == EditMessage(ms[i], ops)
  {
    next := ms;
    var todo := sorted.Keys;
    while todo != {}
      invariant todo <= sorted.Keys
      invariant |next| == |ms|
      invariant forall i: nat :: i < |ms| ==> next[i] == if i in sorted.Keys - todo then EditMessage(ms[i], ops) else ms[i]
      decreases todo
    {
      var i :| i in todo;
      ElsewhereUntouched(ms, ops, sorted, i);
      var message := RewriteMessage(ms[i], ops, sorted[i]);
      next := next[i := message];
      todo := todo - {i};
    }
    forall i: nat | i < |ms|
      ensures next[i] == EditMessage(ms[i], ops)
    {
      if i !in sorted {
        ElsewhereUntouched(ms, ops, sorted, i);
      }
    }
  }

  lemma ElsewhereUntouched(ms: seq<Message>, ops: seq<ViewOperation>, sorted: PartEdits, i: nat)
    requires UniqueIds(ms) && Grouped(ms, ops, sorted) && i < |ms|
    requires forall op :: op in ops && !op.Range? ==> Start(ms, op) < |ms|
    ensures i in sorted ==>
              forall p: nat :: p < |ms[i].parts| && p !in sorted[i] ==> forall op :: op in ops ==> !EditsPart(op, ms[i].id, p)
    ensures i !in sorted ==> EditMessage(ms[i], ops) == ms[i]
  {
    FindUnique(ms, i);
    if i !in sorted {
      UntouchedMessage(ms[i], ops);
    }
  }

  // ------------------------------------------------------- what the checks decide

  predicate Independent(ms: seq<Message>, a: ViewOperation, b: ViewOperation) {
    a.operationId != b.operationId && NoClash(ms, a, b)
  }

  lemma {:induction false} AdmittedFit(h: Hashing, ms: seq<Message>, bound: nat, ops: seq<ViewOperation>, n: nat, i: nat)
    requires bound <= |ms| && i < n <= |ops| && AllAdmitted(h, ms, bound, ops, n)
    ensures Fits(h, ms, bound, ops[i])
  {
    if i < n - 1 {
      AdmittedFit(h, ms, bound, ops, n - 1, i);
    }
  }

  lemma {:induction false} AdmittedIndependent(
      h: Hashing, ms: seq<Message>, bound: nat, ops: seq<ViewOperation>, n: nat, i: nat, j: nat)
    requires bound <= |ms| && i < j < n <= |ops| && AllAdmitted(h, ms, bound, ops, n)
    ensures Independent(ms, ops[i], ops[j])
  {
    if j < n - 1 {
      AdmittedIndependent(h, ms, bound, ops, n - 1, i, j);
    } else {
      assert ops[i] == ops[..j][i];
      assert ops[i] in ops[..j];
    }
  }

  lemma {:induction false} AdmitAll(h: Hashing, ms: seq<Message>, bound: nat, ops: seq<ViewOperation>, n: nat)
    requires bound <= |ms| && n <= |ops|
    requires forall i :: 0 <= i < n ==> Fits(h, ms, bound, ops[i])
    requires forall i, j :: 0 <= i < j < n ==> Independent(ms, ops[i], ops[j])
    ensures AllAdmitted(h, ms, bound, ops, n)
  {
    if n > 0 {
      AdmitAll(h, ms, bound, ops, n - 1);
      var before := ops[..n - 1];
      forall q | q in before
        ensures Independent(ms, q, ops[n - 1])
      {
        var i :| 0 <= i < n - 1 && before[i] == q;
        assert ops[i] == q;
      }
    }
  }

  lemma {:induction false} EditsAtDistinct(ms: seq<Message>, ops: seq<ViewOperation>, i: nat, p: nat)
    requires forall a, b :: 0 <= a < b < |ops| ==> ops[a].operationId != ops[b].operationId
    ensures Distinct(EditsAt(ms, ops, i, p))
  {
    if ops != [] {
      var before, op := ops[..|ops| - 1], ops[|ops| - 1];
      EditsAtDistinct(ms, before, i, p);
      assert op !in before;
    }
  }

  lemma CompatibleAdjacent(h: Hashing, ms: seq<Message>, ops: seq<ViewOperation>, snapshot: Snapshot, i: nat, p: nat)
    requires WellPlaced(h, ms, ops, snapshot)
    ensures AdjacentApart(Sorted(EditsAt(ms, ops, i, p)))
  {
    var edits := EditsAt(ms, ops, i, p);
    var sorted := Sorted(edits);
    forall a, b | 0 <= a < b < |ops|
      ensures ops[a].operationId != ops[b].operationId
    {
      assert Compatible(ms, ops[a], ops[b]);
    }
    EditsAtDistinct(ms, ops, i, p);
    SameElements(sorted, edits);
    DistinctPermutation(sorted, edits);
    forall a, b | 0 <= a < b < |sorted| && b == a + 1
      ensures InSequence(sorted[a], sorted[b])
    {
      var x, y := sorted[a], sorted[b];
      assert x in sorted && y in sorted;
      assert Fits(h, ms, |snapshot.messageIds|, x) && Fits(h, ms, |snapshot.messageIds|, y);
      MembersCompatible(ms, ops, x, y);
      assert SortKey(x) <= SortKey(y);
    }
  }

  lemma AdjacentCompatible(h: Hashing, ms: seq<Message>, bound: nat, ops: seq<ViewOperation>, a: ViewOperation, b: ViewOperation)
    requires bound <= |ms| && forall op :: op in ops ==> Fits(h, ms, bound, op)
    requires a in ops && b in ops && a != b && SamePart(a, b)
    requires AdjacentApart(Sorted(EditsAt(ms, ops, Start(ms, a), a.partIndex)))
    ensures Apart(a, b)
  {
    var edits := EditsAt(ms, ops, Start(ms, a), a.partIndex);
    var sorted := Sorted(edits);
    SameElements(sorted, edits);
    assert a in edits && b in edits;
    assert a in sorted && b in sorted;
    var i :| 0 <= i < |sorted| && sorted[i] == a;
    var j :| 0 <= j < |sorted| && sorted[j] == b;
    forall e | e in sorted && e.TextRange?
      ensures e.start < e.end
    {
      assert Fits(h, ms, bound, e);
    }
    if i < j {
      AdjacentAll(sorted, i, j);
    } else {
      AdjacentAll(sorted, j, i);
    }
  }

  lemma PlacedPasses(h: Hashing, ms: seq<Message>, ops: seq<ViewOperation>, snapshot: Snapshot)
    requires WellPlaced(h, ms, ops, snapshot)
    ensures AllAdmitted(h, ms, |snapshot.messageIds|, ops, |ops|)
    ensures forall i: nat, p: nat :: AdjacentApart(Sorted(EditsAt(ms, ops, i, p)))
  {
    forall i: nat, p: nat
      ensures AdjacentApart(Sorted(EditsAt(ms, ops, i, p)))
    {
      CompatibleAdjacent(h, ms, ops, snapshot, i, p);
    }
    forall i, j | 0 <= i < j < |ops|
      ensures Independent(ms, ops[i], ops[j])
    {
      assert Compatible(ms, ops[i], ops[j]);
    }
    forall i | 0 <= i < |ops|
      ensures Fits(h, ms, |snapshot.messageIds|, ops[i])
    {
      assert ops[i] in ops;
    }
    AdmitAll(h, ms, |snapshot.messageIds|, ops, |ops|);
  }

  lemma PassesPlaced(h: Hashing, ms: seq<Message>, ops: seq<ViewOperation>, snapshot: Snapshot)
    requires ops != [] && UniqueIds(ms) && SnapshotBinds(h, ms, snapshot)
    requires AllAdmitted(h, ms, |snapshot.messageIds|, ops, |ops|)
    requires forall i: nat, p: nat :: AdjacentApart(Sorted(EditsAt(ms, ops, i, p)))
    ensures WellPlaced(h, ms, ops, snapshot)
  {
    var bound := |snapshot.messageIds|;
    forall op | op in ops
      ensures Fits(h, ms, bound, op)
    {
      var i :| 0 <= i < |ops| && ops[i] == op;
      AdmittedFit(h, ms, bound, ops, |ops|, i);
    }
    forall i, j | 0 <= i < j < |ops|
      ensures Compatible(ms, ops[i], ops[j])
    {
      AdmittedIndependent(h, ms, bound, ops, |ops|, i, j);
      if SamePart(ops[i], ops[j]) {
        AdjacentCompatible(h, ms, bound, ops, ops[i], ops[j]);
      }
    }
  }

  lemma SortedLookup(ms: seq<Message>, ops: seq<ViewOperation>, sorted: PartEdits, i: nat, p: nat)
    requires PartsSorted(BooksOf(ms, ops).parts, sorted, BooksOf(ms, ops).parts.Keys)
    ensures i in sorted && p in sorted[i] <==> EditsAt(ms, ops, i, p) != []
    ensures i in sorted && p in sorted[i] ==> sorted[i][p] == Sorted(EditsAt(ms, ops, i, p))
    ensures i in sorted ==> exists op :: op in ops && !op.Range? && Start(ms, op) == i
  {
    var parts := BooksOf(ms, ops).parts;
    PartsRecord(ms, ops);
    assert Lookup(parts, i, p) == EditsAt(ms, ops, i, p);
    if i in parts {
      assert MessageSorted(parts[i], sorted[i], parts[i].Keys);
    }
  }

  /** The sorted lists describe, part by part, exactly the edits of that part. */
  lemma SortedGroups(h: Hashing, ms: seq<Message>, ops: seq<ViewOperation>, snapshot: Snapshot, sorted: PartEdits)
    requires WellPlaced(h, ms, ops, snapshot)
    requires PartsSorted(BooksOf(ms, ops).parts, sorted, BooksOf(ms, ops).parts.Keys)
    ensures Grouped(ms, ops, sorted)
  {
    forall op | op in ops && !op.Range?
      ensures Start(ms, op) in sorted && op.partIndex in sorted[Start(ms, op)]
    {
      assert op in EditsAt(ms, ops, Start(ms, op), op.partIndex);
      SortedLookup(ms, ops, sorted, Start(ms, op), op.partIndex);
    }
    forall i | i in sorted
      ensures i < |ms|
    {
      SortedLookup(ms, ops, sorted, i, 0);
      var op :| op in ops && !op.Range? && Start(ms, op) == i;
      assert Fits(h, ms, |snapshot.messageIds|, op);
    }
    forall i, p | i in sorted && p in sorted[i]
      ensures PartEdited(ms[i], ops, p, sorted[i][p])
    {
      SortedLookup(ms, ops, sorted, i, p);
      GroupEdited(h, ms, ops, snapshot, i, p);
    }
  }

  lemma GroupEdited(h: Hashing, ms: seq<Message>, ops: seq<ViewOperation>, snapshot: Snapshot, i: nat, p: nat)
    requires WellPlaced(h, ms, ops, snapshot) && i < |ms|
    requires EditsAt(ms, ops, i, p) != []
    ensures PartEdited(ms[i], ops, p, Sorted(EditsAt(ms, ops, i, p)))
  {
    var edits := EditsAt(ms, ops, i, p);
    var sorted := Sorted(edits);
    SameElements(sorted, edits);
    CompatibleAdjacent(h, ms, ops, snapshot, i, p);
    FindUnique(ms, i);
    forall op | op in sorted
      ensures Fits(h, ms, |snapshot.messageIds|, op) && op.messageId == ms[i].id && PartMatches(h, ms[i].parts[p], op)
    {
      assert op in edits;
    }
    forall op | op in ops && EditsPart(op, ms[i].id, p)
      ensures op in sorted
    {
      assert op in edits;
    }
    assert sorted[0] in sorted;
    forall a, b | 0 <= a < b < |sorted|
      ensures InSequence(sorted[a], sorted[b])
    {
      AdjacentAll(sorted, a, b);
    }
    assert |sorted| > 1 ==> InSequence(sorted[0], sorted[1]);
  }

  // ------------------------------------------------------------ stream the output

  lemma {:induction false} RangesOfMembers(ms: seq<Message>, ops: seq<ViewOperation>, r: RangeEdit)
    ensures r in RangesOf(ms, ops) <==>
            exists op :: op in ops && op.Range? && r == RangeEdit(Start(ms, op), Start(ms, op) + Width(op), op.replacement)
  {
    if ops != [] {
      var before, op := ops[..|ops| - 1], ops[|ops| - 1];
      assert ops == before + [op];
      RangesOfMembers(ms, before, r);
      assert forall q :: q in ops <==> q in before || q == op;
    }
  }

  lemma {:induction false} RangesOfDistinct(ms: seq<Message>, ops: seq<ViewOperation>)
    requires Tiled(ms, ops) && Distinct(ops)
    ensures Distinct(RangesOf(ms, ops))
  {
    if ops != [] {
      var before, op := ops[..|ops| - 1], ops[|ops| - 1];
      assert ops == before + [op];
      RangesOfDistinct(ms, before);
      if op.Range? {
        var r := RangeEdit(Start(ms, op), Start(ms, op) + Width(op), op.replacement);
        RangesOfMembers(ms, before, r);
        assert op !in before;
        assert r !in RangesOf(ms, before);
      }
    }
  }

  /** The sorted ranges, laid along the history. */
  ghost predicate Laid(ms: seq<Message>, ops: seq<ViewOperation>, ranges: seq<RangeEdit>) {
    && (forall r :: r in ranges ==> r.start < r.end <= |ms| && RangeIs(ms, ops, r))
    && (forall i, j :: 0 <= i < j < |ranges| ==> ranges[i].end <= ranges[j].start)
    && (forall k: nat :: RangeAt(ms, ops, k).Some? ==> exists r :: r in ranges && r.start == k)
  }

  ghost predicate RangeIs(ms: seq<Message>, ops: seq<ViewOperation>, r: RangeEdit) {
    match RangeAt(ms, ops, r.start)
    case Some(op) => op.replacement == r.replacement && r.end == r.start + |op.messageIds|
    case None => false
  }

  function RangeKey(r: RangeEdit): int { r.start }

  lemma RangeFromOp(h: Hashing, ms: seq<Message>, ops: seq<ViewOperation>, snapshot: Snapshot, r: RangeEdit)
      returns (op: ViewOperation)
    requires WellPlaced(h, ms, ops, snapshot) && r in RangesOf(ms, ops)
    ensures op in ops && op.Range? && r == RangeEdit(Start(ms, op), Start(ms, op) + Width(op), op.replacement)
    ensures r.start < r.end <= |ms| && RangeIs(ms, ops, r)
  {
    RangesOfMembers(ms, ops, r);
    op :| op in ops && op.Range? && r == RangeEdit(Start(ms, op), Start(ms, op) + Width(op), op.replacement);
    assert Fits(h, ms, |snapshot.messageIds|, op);
    RangeAtFinds(h, ms, ops, snapshot, op);
  }

  lemma RangesSpaced(h: Hashing, ms: seq<Message>, ops: seq<ViewOperation>, snapshot: Snapshot, ranges: seq<RangeEdit>)
    requires WellPlaced(h, ms, ops, snapshot)
    requires SortedBy(ranges, RangeKey) && Distinct(ranges) && forall r :: r in ranges ==> r in RangesOf(ms, ops)
    ensures forall i, j :: 0 <= i < j < |ranges| ==> ranges[i].end <= ranges[j].start
  {
    forall i, j | 0 <= i < j < |ranges|
      ensures ranges[i].end <= ranges[j].start
    {
      assert RangeKey(ranges[i]) <= RangeKey(ranges[j]);
      var a := RangeFromOp(h, ms, ops, snapshot, ranges[i]);
      var b := RangeFromOp(h, ms, ops, snapshot, ranges[j]);
      MembersCompatible(ms, ops, a, b);
    }
  }

  lemma RangesLaid(h: Hashing, ms: seq<Message>, ops: seq<ViewOperation>, snapshot: Snapshot)
    requires WellPlaced(h, ms, ops, snapshot)
    ensures Laid(ms, ops, SortBy(RangesOf(ms, ops), RangeKey))
  {
    var ranges := SortBy(RangesOf(ms, ops), RangeKey);
    WellPlacedTiled(h, ms, ops, snapshot);
    OpsDistinct(ms, ops);
    RangesOfDistinct(ms, ops);
    SameElements(ranges, RangesOf(ms, ops));
    DistinctPermutation(ranges, RangesOf(ms, ops));
    RangesSpaced(h, ms, ops, snapshot, ranges);
    forall r | r in ranges
      ensures r.start < r.end <= |ms| && RangeIs(ms, ops, r)
    {
      var op := RangeFromOp(h, ms, ops, snapshot, r);
    }
    forall k: nat | RangeAt(ms, ops, k).Some?
      ensures exists r :: r in ranges && r.start == k
    {
      var op := RangeAt(ms, ops, k).value;
      var r := RangeEdit(k, k + Width(op), op.replacement);
      RangesOfMembers(ms, ops, r);
      assert r in ranges;
    }
  }

  lemma PushPublished(ms: seq<Message>, ops: seq<ViewOperation>, output: seq<Message>, k: nat, whole: seq<Message>)
    requires k < |ms| && output + Substitute(ms, ops, k) == whole
    ensures (output + [Published(ms, ops, k)]) + Substitute(ms, ops, Next(ms, ops, k)) == whole
  {
    SubstituteStep(ms, ops, k);
  }

  /** End of the ranges before range `r`. */
  function EndBefore(ranges: seq<RangeEdit>, r: nat): nat
    requires r <= |ranges|
  {
    if r == 0 then 0 else ranges[r - 1].end
  }

  /** Stream the kept messages up to `stop`, which is the start of range `r` or the end of the history. */
  method CopyKept(
      ghost ms: seq<Message>, ghost ops: seq<ViewOperation>, next: seq<Message>, ghost ranges: seq<RangeEdit>, ghost r: nat,
      output: seq<Message>, cursor: nat, stop: nat, ghost whole: seq<Message>) returns (now: seq<Message>)
    requires |next| == |ms| && forall i :: 0 <= i < |ms| ==> next[i] == EditMessage(ms[i], ops)
    requires Laid(ms, ops, ranges) && r <= |ranges| && EndBefore(ranges, r) == cursor <= stop
    requires stop == if r < |ranges| then ranges[r].start else |ms|
    requires stop <= |ms|
    requires output + Substitute(ms, ops, cursor) == whole
    ensures now + Substitute(ms, ops, stop) == whole
  {
    now := output;
    for k := cursor to stop
      invariant now + Substitute(ms, ops, k) == whole
    {
      NoRangeBetween(ms, ops, ranges, r, k);
      PushPublished(ms, ops, now, k, whole);
      now := now + [next[k]];
    }
  }

  method Assemble(ghost ms: seq<Message>, ghost ops: seq<ViewOperation>, next: seq<Message>, ranges: seq<RangeEdit>)
      returns (output: seq<Message>)
    requires |next| == |ms| && forall i :: 0 <= i < |ms| ==> next[i] == EditMessage(ms[i], ops)
    requires Laid(ms, ops, ranges)
    ensures output == Substitute(ms, ops, 0)
  {
    output := [];
    var cursor := 0;
    ghost var whole := Substitute(ms, ops, 0);
    for r := 0 to |ranges|
      invariant cursor == EndBefore(ranges, r) <= |ms|
      invariant output + Substitute(ms, ops, cursor) == whole
    {
      var range := ranges[r];
      assert range in ranges;
      LaidNext(ms, ops, ranges, r);
      output := CopyKept(ms, ops, next, ranges, r, output, cursor, range.start, whole);
      PushPublished(ms, ops, output, range.start, whole);
      output := output + [range.replacement];
      cursor := range.end;
    }
    output := CopyKept(ms, ops, next, ranges, |ranges|, output, cursor, |next|, whole);
    assert Substitute(ms, ops, |ms|) == [];
  }

  lemma LaidNext(ms: seq<Message>, ops: seq<ViewOperation>, ranges: seq<RangeEdit>, r: nat)
    requires Laid(ms, ops, ranges) && r < |ranges|
    ensures EndBefore(ranges, r) <= ranges[r].start < ranges[r].end <= |ms|
    ensures Published(ms, ops, ranges[r].start) == ranges[r].replacement
    ensures Next(ms, ops, ranges[r].start) == ranges[r].end
  {
    assert ranges[r] in ranges;
    assert RangeIs(ms, ops, ranges[r]);
  }

  lemma NoRangeBetween(ms: seq<Message>, ops: seq<ViewOperation>, ranges: seq<RangeEdit>, r: nat, cursor: nat)
    requires Laid(ms, ops, ranges) && r <= |ranges|
    requires EndBefore(ranges, r) <= cursor
    requires r < |ranges| ==> cursor < ranges[r].start
    ensures RangeAt(ms, ops, cursor).None?
  {
    forall i | 0 <= i < |ranges|
      ensures ranges[i].start < ranges[i].end
    {
      assert ranges[i] in ranges;
    }
    NoneStarts(ranges, r, cursor);
  }

  lemma NoneStarts(ranges: seq<RangeEdit>, r: nat, cursor: nat)
    requires r <= |ranges| && EndBefore(ranges, r) <= cursor && (r < |ranges| ==> cursor < ranges[r].start)
    requires forall i :: 0 <= i < |ranges| ==> ranges[i].start < ranges[i].end
    requires forall i, j :: 0 <= i < j < |ranges| ==> ranges[i].end <= ranges[j].start
    ensures forall range :: range in ranges ==> range.start != cursor
  {
    forall i | 0 <= i < |ranges|
      ensures ranges[i].start != cursor
    {
      if i < r - 1 {
        assert ranges[i].end <= ranges[r - 1].start;
      } else if i > r {
        assert ranges[r].end <= ranges[i].start;
      }
    }
  }

  /** The first operation that is not admitted addresses a message the history does not have. */
  ghost predicate StopsUnmatched(h: Hashing, ms: seq<Message>, ops: seq<ViewOperation>, snapshot: Snapshot) {
    && UniqueIds(ms) && SnapshotBinds(h, ms, snapshot)
    && exists n :: 0 <= n < |ops| && AllAdmitted(h, ms, |snapshot.messageIds|, ops, n) && Unmatched(ms, ops[..n], ops[n])
  }

  /** The first id that an operation names. */
  ghost predicate Names(op: ViewOperation, id: Text) {
    if op.Range? then op.messageIds != [] && op.messageIds[0] == id else op.messageId == id
  }

  /** Operation `n` is the first one whose message the history does not have. */
  ghost predicate FirstAbsent(ms: seq<Message>, ops: seq<ViewOperation>, n: nat) {
    && n < |ops|
    && !Present(ms, ops[n]) && forall m: nat :: m < n ==> Present(ms, ops[m])
  }

  ghost predicate Present(ms: seq<Message>, op: ViewOperation) {
    exists i :: 0 <= i < |ms| && Names(op, ms[i].id)
  }

  lemma UnmatchedIsAbsent(h: Hashing, ms: seq<Message>, ops: seq<ViewOperation>, snapshot: Snapshot)
    requires StopsUnmatched(h, ms, ops, snapshot)
    ensures exists n :: FirstAbsent(ms, ops, n)
  {
    var bound := |snapshot.messageIds|;
    var n: nat :| n < |ops| && AllAdmitted(h, ms, bound, ops, n) && Unmatched(ms, ops[..n], ops[n]);
    UnmatchedNotPresent(ms, ops[..n], ops[n]);
    AdmittedArePresent(h, ms, bound, ops, n);
    assert FirstAbsent(ms, ops, n);
  }

  lemma UnmatchedNotPresent(ms: seq<Message>, done: seq<ViewOperation>, op: ViewOperation)
    requires Unmatched(ms, done, op)
    ensures !Present(ms, op)
  {
    FindNone(ms, Target(op));
  }

  lemma {:induction false} AdmittedArePresent(h: Hashing, ms: seq<Message>, bound: nat, ops: seq<ViewOperation>, n: nat)
    requires bound <= |ms| && n <= |ops| && AllAdmitted(h, ms, bound, ops, n)
    ensures forall m: nat :: m < n ==> Present(ms, ops[m])
  {
    if n > 0 {
      AdmittedArePresent(h, ms, bound, ops, n - 1);
      FitsIsPresent(h, ms, bound, ops[n - 1]);
    }
  }

  lemma FitsIsPresent(h: Hashing, ms: seq<Message>, bound: nat, op: ViewOperation)
    requires bound <= |ms| && Fits(h, ms, bound, op)
    ensures Present(ms, op)
  {
    assert Names(op, ms[Start(ms, op)].id);
  }

  lemma {:induction false} FindNone(ms: seq<Message>, id: Text)
    requires Find(ms, id) == |ms|
    ensures forall i :: 0 <= i < |ms| ==> ms[i].id != id
  {
    if ms != [] {
      FindNone(ms[1..], id);
    }
  }

  /** The index at which the admission loop stopped. */
  ghost predicate StopsAt(h: Hashing, ms: seq<Message>, bound: nat, ops: seq<ViewOperation>, n: nat)
    requires bound <= |ms|
  {
    n < |ops| && AllAdmitted(h, ms, bound, ops, n) && !Admitted(h, ms, bound, ops[..n], ops[n])
  }

  lemma StopUnique(h: Hashing, ms: seq<Message>, bound: nat, ops: seq<ViewOperation>, n: nat, k: nat)
    requires bound <= |ms| && StopsAt(h, ms, bound, ops, n) && k <= |ops| && AllAdmitted(h, ms, bound, ops, k)
    ensures k <= n
  {
    if n < k {
      AdmittedPrefix(h, ms, bound, ops, k, n + 1);
    }
  }

  lemma StoppedNotPlaced(h: Hashing, ms: seq<Message>, ops: seq<ViewOperation>, snapshot: Snapshot, status: Status)
    requires ops != [] && UniqueIds(ms) && SnapshotBinds(h, ms, snapshot) && !status.Applied?
    requires AdmissionOutcome(h, ms, |snapshot.messageIds|, ops, status)
    ensures !Applicable(h, ms, ops, snapshot)
    ensures status.NoMatch? <==> StopsUnmatched(h, ms, ops, snapshot)
  {
    var bound := |snapshot.messageIds|;
    var n: nat :| StopsAt(h, ms, bound, ops, n) && (status.NoMatch? <==> Unmatched(ms, ops[..n], ops[n]));
    if WellPlaced(h, ms, ops, snapshot) {
      PlacedPasses(h, ms, ops, snapshot);
      StopUnique(h, ms, bound, ops, n, |ops|);
    }
    if StopsUnmatched(h, ms, ops, snapshot) {
      var k: nat :| k < |ops| && AllAdmitted(h, ms, bound, ops, k) && Unmatched(ms, ops[..k], ops[k]);
      UnmatchedNotAdmitted(h, ms, bound, ops[..k], ops[k]);
      StopUnique(h, ms, bound, ops, n, k);
      StopUnique(h, ms, bound, ops, k, n);
    }
  }

  lemma UnmatchedNotAdmitted(h: Hashing, ms: seq<Message>, bound: nat, done: seq<ViewOperation>, op: ViewOperation)
    requires bound <= |ms| && Unmatched(ms, done, op)
    ensures !Admitted(h, ms, bound, done, op)
  {
  }

  lemma {:induction false} AdmittedPrefix(h: Hashing, ms: seq<Message>, bound: nat, ops: seq<ViewOperation>, n: nat, k: nat)
    requires bound <= |ms| && k <= n <= |ops| && AllAdmitted(h, ms, bound, ops, n)
    ensures AllAdmitted(h, ms, bound, ops, k)
  {
    if k < n {
      AdmittedPrefix(h, ms, bound, ops, n - 1, k);
    }
  }

  lemma NotUnmatched(h: Hashing, ms: seq<Message>, ops: seq<ViewOperation>, snapshot: Snapshot)
    requires SnapshotBinds(h, ms, snapshot) && AllAdmitted(h, ms, |snapshot.messageIds|, ops, |ops|)
    ensures !StopsUnmatched(h, ms, ops, snapshot)
  {
    var bound := |snapshot.messageIds|;
    forall n | 0 <= n < |ops|
      ensures !Unmatched(ms, ops[..n], ops[n])
    {
      AdmittedFit(h, ms, bound, ops, |ops|, n);
    }
  }

  lemma UnsortedNotPlaced(h: Hashing, ms: seq<Message>, ops: seq<ViewOperation>, snapshot: Snapshot)
    requires exists i, p :: i in BooksOf(ms, ops).parts && p in BooksOf(ms, ops).parts[i]
                            && !AdjacentApart(Sorted(BooksOf(ms, ops).parts[i][p]))
    ensures !WellPlaced(h, ms, ops, snapshot)
  {
    var parts := BooksOf(ms, ops).parts;
    var i, p :| i in parts && p in parts[i] && !AdjacentApart(Sorted(parts[i][p]));
    PartsRecord(ms, ops);
    assert Lookup(parts, i, p) == EditsAt(ms, ops, i, p);
    if WellPlaced(h, ms, ops, snapshot) {
      CompatibleAdjacent(h, ms, ops, snapshot, i, p);
    }
  }

  lemma SortedPlaced(h: Hashing, ms: seq<Message>, ops: seq<ViewOperation>, snapshot: Snapshot, sorted: PartEdits)
    requires ops != [] && UniqueIds(ms) && SnapshotBinds(h, ms, snapshot)
    requires AllAdmitted(h, ms, |snapshot.messageIds|, ops, |ops|)
    requires PartsSorted(BooksOf(ms, ops).parts, sorted, BooksOf(ms, ops).parts.Keys)
    ensures WellPlaced(h, ms, ops, snapshot)
  {
    var parts := BooksOf(ms, ops).parts;
    forall i: nat, p: nat
      ensures AdjacentApart(Sorted(EditsAt(ms, ops, i, p)))
    {
      SortedLookup(ms, ops, sorted, i, p);
      if EditsAt(ms, ops, i, p) != [] {
        assert MessageSorted(parts[i], sorted[i], parts[i].Keys);
      } else {
        SameElements(Sorted(EditsAt(ms, ops, i, p)), EditsAt(ms, ops, i, p));
      }
    }
    PassesPlaced(h, ms, ops, snapshot);
  }

  lemma EditsLand(h: Hashing, ms: seq<Message>, ops: seq<ViewOperation>, snapshot: Snapshot)
    requires WellPlaced(h, ms, ops, snapshot)
    ensures forall op :: op in ops && !op.Range? ==> Start(ms, op) < |ms|
  {
    forall op | op in ops && !op.Range?
      ensures Start(ms, op) < |ms|
    {
      assert Fits(h, ms, |snapshot.messageIds|, op);
    }
  }

  /** The last check, unique output ids, is the check that the replacement ids are distinct. */
  lemma OutputDecides(h: Hashing, ms: seq<Message>, ops: seq<ViewOperation>, snapshot: Snapshot)
    requires WellPlaced(h, ms, ops, snapshot)
    ensures UniqueIds(Substitute(ms, ops, 0)) <==> ReplacementsDistinct(ops)
  {
    WellPlacedTiled(h, ms, ops, snapshot);
    forall op | op in ops && op.Range?
      ensures ReplacementFresh(ms, op)
    {
      assert Fits(h, ms, |snapshot.messageIds|, op);
    }
    if ReplacementsDistinct(ops) {
      SubstituteUnique(ms, ops, 0);
    } else {
      var i, j :| 0 <= i < j < |ops| && ops[i].Range? && ops[j].Range? && ops[i].replacement.id == ops[j].replacement.id;
      assert Compatible(ms, ops[i], ops[j]);
      assert Fits(h, ms, |snapshot.messageIds|, ops[i]) && Fits(h, ms, |snapshot.messageIds|, ops[j]);
      if Start(ms, ops[i]) < Start(ms, ops[j]) {
        SubstituteRepeats(ms, ops, 0, ops[i], ops[j]);
      } else {
        SubstituteRepeats(ms, ops, 0, ops[j], ops[i]);
      }
    }
  }

  /**
   * `materializeOperations`: all edits or none. Applied exactly when every edit has its source and no two
   * meet; then every replaced range gives way to its replacement and every other message is published with
   * its own edits and nothing else changed.
   */
  method MaterializeOperations(h: Hashing, ms: seq<Message>, ops: seq<ViewOperation>, maybeSnapshot: Option<Snapshot>)
      returns (status: Status, messages: seq<Message>)
    ensures status.Applied? <==> maybeSnapshot.Some? && Applicable(h, ms, ops, maybeSnapshot.value)
    ensures status.NoMatch? <==> maybeSnapshot.Some? && StopsUnmatched(h, ms, ops, maybeSnapshot.value)
    ensures messages == if status.Applied? then Substitute(ms, ops, 0) else ms
    ensures status.Applied? <==> maybeSnapshot.Some? && Outcome.Accepted(h, ms, ops, maybeSnapshot.value)
    ensures status.Applied? ==> Outcome.Outcome(ms, ops, messages)
    ensures status.NoMatch? ==> exists n :: FirstAbsent(ms, ops, n)
  {
    if maybeSnapshot.Some? {
      if StopsUnmatched(h, ms, ops, maybeSnapshot.value) {
        UnmatchedIsAbsent(h, ms, ops, maybeSnapshot.value);
      }
      Outcome.AcceptedExactly(h, ms, ops, maybeSnapshot.value);
      if Applicable(h, ms, ops, maybeSnapshot.value) {
        Outcome.AppliedOutcome(h, ms, ops, maybeSnapshot.value);
      }
    }
    messages := ms;
    if ops == [] || maybeSnapshot.None? {
      return Invalid, ms;
    }
    var snapshot := maybeSnapshot.value;
    var unique, byId := IndexIds(ms);
    if !unique {
      return Invalid, ms;
    }
    var bound, digests := BindSnapshot(h, ms, snapshot);
    if !bound {
      return Invalid, ms;
    }
    var books;
    status, books := Admit(h, ms, byId, digests, |snapshot.messageIds|, ops);
    if !status.Applied? {
      StoppedNotPlaced(h, ms, ops, snapshot, status);
      return status, ms;
    }
    NotUnmatched(h, ms, ops, snapshot);
    var apart, sorted := SortParts(books.parts);
    if !apart {
      UnsortedNotPlaced(h, ms, ops, snapshot);
      return Invalid, ms;
    }
    SortedPlaced(h, ms, ops, snapshot, sorted);
    SortedGroups(h, ms, ops, snapshot, sorted);
    EditsLand(h, ms, ops, snapshot);
    var next := RewriteMessages(ms, ops, sorted);
    RangesRecord(ms, ops);
    RangesLaid(h, ms, ops, snapshot);
    var output := Assemble(ms, ops, next, SortBy(books.ranges, RangeKey));
    OutputDecides(h, ms, ops, snapshot);
    if !(forall i, j :: 0 <= i < j < |output| ==> output[i].id != output[j].id) {
      return Invalid, ms;
    }
    return Applied, output;
  }
}
