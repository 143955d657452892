/** The first loops of `materializeOperations`: index, bind the snapshot, admit the operations one by one. */
module Admission {
  import opened Texts
  import opened Messages
  import opened Substitution

  datatype Status = Applied | NoMatch | Invalid

  datatype RangeEdit = RangeEdit(start: nat, end: nat, replacement: Message)

  /** Per message index and part index, the edits of that part in arrival order. */
  type PartEdits = map<nat, map<nat, seq<ViewOperation>>>

  // ------------------------------------------------- what the first loops record

  ghost predicate Indexed(ms: seq<Message>, byId: map<Text, nat>) {
    forall id :: if id in byId then byId[id] == Find(ms, id) < |ms| else Find(ms, id) == |ms|
  }

  ghost predicate Digested(h: Hashing, ms: seq<Message>, bound: nat, digests: map<nat, Digest>)
    requires bound <= |ms|
  {
    && (forall i: nat :: i in digests <==> i < bound)
    && (forall i: nat :: i in digests ==> digests[i] == h.content(ms[i]))
  }

  method IndexIds(ms: seq<Message>) returns (unique: bool, byId: map<Text, nat>)
    ensures unique <==> UniqueIds(ms)
    ensures unique ==> Indexed(ms, byId)
  {
    byId := map[];
    for i := 0 to |ms|
      invariant UniqueIds(ms[..i])
      invariant forall k :: 0 <= k < i ==> ms[k].id in byId
      invariant forall id :: id in byId ==> byId[id] < i && ms[byId[id]].id == id
    {
      if ms[i].id in byId {
        assert ms[byId[ms[i].id]].id == ms[i].id;
        return false, byId;
      }
      byId := byId[ms[i].id := i];
    }
    assert ms[..|ms|] == ms;
    forall id
      ensures if id in byId then byId[id] == Find(ms, id) < |ms| else Find(ms, id) == |ms|
    {
      FindFirst(ms, id);
      if id in byId {
        FindUnique(ms, byId[id]);
      }
    }
    return true, byId;
  }

  lemma BoundIdsDistinct(h: Hashing, ms: seq<Message>, snapshot: Snapshot)
    requires UniqueIds(ms)
    ensures SnapshotBinds(h, ms, snapshot) ==> Distinct(snapshot.messageIds)
  {
    if SnapshotBinds(h, ms, snapshot) {
      forall i, j | 0 <= i < j < |snapshot.messageIds|
        ensures snapshot.messageIds[i] != snapshot.messageIds[j]
      {
        assert ms[i].id != ms[j].id;
      }
    }
  }

  method BindSnapshot(h: Hashing, ms: seq<Message>, snapshot: Snapshot) returns (ok: bool, digests: map<nat, Digest>)
    requires UniqueIds(ms)
    ensures ok <==> SnapshotBinds(h, ms, snapshot)
    ensures ok ==> Digested(h, ms, |snapshot.messageIds|, digests)
  {
    digests := map[];
    if |snapshot.messageIds| != |snapshot.sourceDigests| {
      return false, digests;
    }
    if !(forall i, j :: 0 <= i < j < |snapshot.messageIds| ==> snapshot.messageIds[i] != snapshot.messageIds[j]) {
      BoundIdsDistinct(h, ms, snapshot);
      return false, digests;
    }
    for i := 0 to |snapshot.messageIds|
      invariant i <= |ms|
      invariant forall k :: 0 <= k < i ==> ms[k].id == snapshot.messageIds[k] && h.content(ms[k]) == snapshot.sourceDigests[k]
      invariant forall k: nat :: (k in digests <==> k < i)
      invariant forall k: nat :: k in digests ==> digests[k] == h.content(ms[k])
    {
      if i >= |ms| || ms[i].id != snapshot.messageIds[i] {
        return false, digests;
      }
      var digest := h.content(ms[i]);
      if digest != snapshot.sourceDigests[i] {
        return false, digests;
      }
      digests := digests[i := digest];
    }
    return true, digests;
  }

  // ------------------------------------------------------------ the admission loop

  /** The operation is accepted after the operations `done`. */
  ghost predicate Admitted(h: Hashing, ms: seq<Message>, bound: nat, done: seq<ViewOperation>, op: ViewOperation)
    requires bound <= |ms|
  {
    && Fits(h, ms, bound, op)
    && NewId(done, op)
    && ClearOf(ms, done, op)
  }

  ghost predicate NewId(done: seq<ViewOperation>, op: ViewOperation) {
    forall q :: q in done ==> q.operationId != op.operationId
  }

  ghost predicate ClearOf(ms: seq<Message>, done: seq<ViewOperation>, op: ViewOperation) {
    forall q :: q in done ==> NoClash(ms, q, op)
  }

  /** The operation is well formed and new, but addresses a message the history does not have. */
  ghost predicate Unmatched(ms: seq<Message>, done: seq<ViewOperation>, op: ViewOperation) {
    && SchemaValid(op)
    && NewId(done, op)
    && Start(ms, op) == |ms|
  }

  /** The first `n` operations were admitted one after the other. */
  ghost predicate AllAdmitted(h: Hashing, ms: seq<Message>, bound: nat, ops: seq<ViewOperation>, n: nat)
    requires bound <= |ms| && n <= |ops|
  {
    n == 0 || (AllAdmitted(h, ms, bound, ops, n - 1) && Admitted(h, ms, bound, ops[..n - 1], ops[n - 1]))
  }

  /** The edits of part `p` of message `i` among `ops`, in arrival order. */
  function EditsAt(ms: seq<Message>, ops: seq<ViewOperation>, i: nat, p: nat): (r: seq<ViewOperation>)
    ensures forall op :: op in r <==> op in ops && !op.Range? && Start(ms, op) == i && op.partIndex == p
  {
    if ops == [] then []
    else
      var rest := EditsAt(ms, ops[..|ops| - 1], i, p);
      var op := ops[|ops| - 1];
      assert ops == ops[..|ops| - 1] + [op];
      if !op.Range? && Start(ms, op) == i && op.partIndex == p then rest + [op] else rest
  }

  function RangesOf(ms: seq<Message>, ops: seq<ViewOperation>): (r: seq<RangeEdit>) {
    if ops == [] then []
    else
      var rest := RangesOf(ms, ops[..|ops| - 1]);
      var op := ops[|ops| - 1];
      if op.Range? then rest + [RangeEdit(Start(ms, op), Start(ms, op) + Width(op), op.replacement)] else rest
  }

  function Lookup(parts: PartEdits, i: nat, p: nat): seq<ViewOperation> {
    if i in parts && p in parts[i] then parts[i][p] else []
  }

  /** The sets and maps the admission loop fills. */
  datatype Books = Books(operationIds: set<Digest>, whole: set<nat>, parts: PartEdits, ranges: seq<RangeEdit>)

  function Pushed(parts: PartEdits, index: nat, op: ViewOperation): PartEdits
    requires !op.Range?
  {
    var messageParts := if index in parts then parts[index] else map[];
    var edits := if op.partIndex in messageParts then messageParts[op.partIndex] else [];
    parts[index := messageParts[op.partIndex := edits + [op]]]
  }

  function Span(start: nat, end: nat): (r: set<nat>)
    ensures forall i: nat :: i in r <==> start <= i < end
    decreases end
  {
    if start >= end then {} else Span(start, end - 1) + {end - 1}
  }

  function CoveredBy(ms: seq<Message>, op: ViewOperation): set<nat> {
    Span(Start(ms, op), Start(ms, op) + Width(op))
  }

  function Entered(ms: seq<Message>, books: Books, op: ViewOperation): Books {
    if op.Range? then
      Books(books.operationIds + {op.operationId}, books.whole + CoveredBy(ms, op), books.parts,
            books.ranges + [RangeEdit(Start(ms, op), Start(ms, op) + Width(op), op.replacement)])
    else
      Books(books.operationIds + {op.operationId}, books.whole, Pushed(books.parts, Start(ms, op), op), books.ranges)
  }

  /** The books after the operations `done`. */
  function BooksOf(ms: seq<Message>, done: seq<ViewOperation>): Books {
    if done == [] then Books({}, {}, map[], [])
    else Entered(ms, BooksOf(ms, done[..|done| - 1]), done[|done| - 1])
  }

  ghost predicate RecordedParts(ms: seq<Message>, done: seq<ViewOperation>, parts: PartEdits) {
    && (forall i: nat :: i in parts <==> exists op :: op in done && !op.Range? && Start(ms, op) == i)
    && (forall i: nat, p: nat :: Lookup(parts, i, p) == EditsAt(ms, done, i, p))
    && (forall i: nat, p: nat :: i in parts && p in parts[i] ==> parts[i][p] != [])
  }

  ghost predicate RecordedSets(ms: seq<Message>, done: seq<ViewOperation>, operationIds: set<Digest>, whole: set<nat>) {
    && (forall d :: d in operationIds <==> exists op :: op in done && op.operationId == d)
    && (forall i: nat :: i in whole <==> exists op :: op in done && op.Range? && Covers(ms, op, i))
  }

  /** Message `start + i` is the `i`th source of the range and nobody has claimed it. */
  ghost predicate Claimable(
      h: Hashing, ms: seq<Message>, bound: nat, whole: set<nat>, parts: PartEdits, op: ViewOperation, start: nat, i: nat)
    requires bound <= |ms| && op.Range? && i < |op.messageIds| == |op.sourceDigests|
  {
    && start + i < bound
    && RangeSource(h, ms[start + i], op.messageIds[i], op.sourceDigests[i])
    && start + i !in whole && start + i !in parts
  }

  method ClaimMessages(
      h: Hashing, ms: seq<Message>, digests: map<nat, Digest>, ghost bound: nat,
      whole: set<nat>, parts: PartEdits, op: ViewOperation, start: nat) returns (ok: bool, nowWhole: set<nat>)
    requires op.Range? && SchemaValid(op) && bound <= |ms| && Digested(h, ms, bound, digests)
    ensures ok <==> AllClaimable(h, ms, bound, whole, parts, op, start)
    ensures ok ==> nowWhole == whole + Span(start, start + |op.messageIds|)
  {
    nowWhole := whole;
    for i := 0 to |op.messageIds|
      invariant forall k :: 0 <= k < i ==> Claimable(h, ms, bound, whole, parts, op, start, k)
      invariant nowWhole == whole + Span(start, start + i)
    {
      var index := start + i;
      if index >= |ms| || ms[index].id != op.messageIds[i] || ms[index].isProtected || index in nowWhole || index in parts
         || index !in digests || digests[index] != op.sourceDigests[i] {
        assert !Claimable(h, ms, bound, whole, parts, op, start, i);
        return false, nowWhole;
      }
      if !(forall p :: 0 <= p < |ms[index].parts| ==> PartSettled(ms[index].parts[p])) {
        assert !Claimable(h, ms, bound, whole, parts, op, start, i);
        return false, nowWhole;
      }
      nowWhole := nowWhole + {index};
    }
    return true, nowWhole;
  }

  ghost predicate AllClaimable(
      h: Hashing, ms: seq<Message>, bound: nat, whole: set<nat>, parts: PartEdits, op: ViewOperation, start: nat)
    requires bound <= |ms| && op.Range? && |op.messageIds| == |op.sourceDigests|
  {
    forall i :: 0 <= i < |op.messageIds| ==> Claimable(h, ms, bound, whole, parts, op, start, i)
  }

  /** No message of the range was replaced or edited before. */
  ghost predicate Unclaimed(ms: seq<Message>, whole: set<nat>, parts: PartEdits, op: ViewOperation) {
    forall i: nat :: Covers(ms, op, i) ==> i !in whole && i !in parts
  }

  lemma ClaimedFits(
      h: Hashing, ms: seq<Message>, bound: nat, whole: set<nat>, parts: PartEdits, op: ViewOperation)
    requires op.Range? && SchemaValid(op) && bound <= |ms| && Start(ms, op) < |ms|
    ensures AllClaimable(h, ms, bound, whole, parts, op, Start(ms, op)) && ReplacementFresh(ms, op)
       <==> Fits(h, ms, bound, op) && Unclaimed(ms, whole, parts, op)
  {
    var start := Start(ms, op);
    if AllClaimable(h, ms, bound, whole, parts, op, start) && ReplacementFresh(ms, op) {
      assert Claimable(h, ms, bound, whole, parts, op, start, |op.messageIds| - 1);
      forall i: nat | Covers(ms, op, i)
        ensures i !in whole && i !in parts
      {
        assert Claimable(h, ms, bound, whole, parts, op, start, i - start);
      }
      forall i | 0 <= i < |op.messageIds|
        ensures RangeSource(h, ms[start + i], op.messageIds[i], op.sourceDigests[i])
      {
        assert Claimable(h, ms, bound, whole, parts, op, start, i);
      }
      assert Fits(h, ms, bound, op);
    }
    if Fits(h, ms, bound, op) && Unclaimed(ms, whole, parts, op) {
      forall i | 0 <= i < |op.messageIds|
        ensures Claimable(h, ms, bound, whole, parts, op, start, i)
      {
        assert Covers(ms, op, start + i);
      }
    }
  }

  method AdmitRange(
      h: Hashing, ms: seq<Message>, byId: map<Text, nat>, digests: map<nat, Digest>, ghost bound: nat,
      whole: set<nat>, parts: PartEdits, op: ViewOperation) returns (status: Status, nowWhole: set<nat>)
    requires op.Range? && SchemaValid(op) && bound <= |ms| && Indexed(ms, byId) && Digested(h, ms, bound, digests)
    ensures status.NoMatch? <==> Start(ms, op) == |ms|
    ensures status.Applied? <==> Fits(h, ms, bound, op) && Unclaimed(ms, whole, parts, op)
    ensures status.Applied? ==> nowWhole == whole + CoveredBy(ms, op)
  {
    nowWhole := whole;
    if op.messageIds[0] !in byId {
      return NoMatch, nowWhole;
    }
    var start := byId[op.messageIds[0]];
    var ok;
    ok, nowWhole := ClaimMessages(h, ms, digests, bound, whole, parts, op, start);
    ClaimedFits(h, ms, bound, whole, parts, op);
    if !ok {
      return Invalid, nowWhole;
    }
    if op.replacement.id in byId
       && (byId[op.replacement.id] < start || byId[op.replacement.id] >= start + |op.messageIds|) {
      return Invalid, nowWhole;
    }
    return Applied, nowWhole;
  }

  method AdmitEdit(
      h: Hashing, ms: seq<Message>, byId: map<Text, nat>, digests: map<nat, Digest>, ghost bound: nat,
      whole: set<nat>, op: ViewOperation) returns (status: Status)
    requires !op.Range? && SchemaValid(op) && bound <= |ms| && Indexed(ms, byId) && Digested(h, ms, bound, digests)
    ensures status.NoMatch? <==> Start(ms, op) == |ms|
    ensures status.Applied? <==> Fits(h, ms, bound, op) && Start(ms, op) !in whole
  {
    if op.messageId !in byId {
      return NoMatch;
    }
    var index := byId[op.messageId];
    var message := ms[index];
    if message.isProtected || index in whole || index !in digests || digests[index] != op.sourceDigest {
      return Invalid;
    }
    if op.partIndex >= |message.parts| {
      return Invalid;
    }
    var part := message.parts[op.partIndex];
    if op.ToolOutput? {
      if !part.ToolPart? || part.status.Other? || h.text(OutputOf(part)) != op.outputDigest {
        return Invalid;
      }
    } else {
      if !part.TextPart? || op.end <= op.start || op.end > |part.text|
         || h.text(part.text[op.start..op.end]) != op.textDigest {
        return Invalid;
      }
    }
    return Applied;
  }

  lemma PushedLookup(parts: PartEdits, start: nat, op: ViewOperation, i: nat, p: nat)
    requires !op.Range?
    ensures Lookup(Pushed(parts, start, op), i, p)
         == if i == start && p == op.partIndex then Lookup(parts, i, p) + [op] else Lookup(parts, i, p)
    ensures i in Pushed(parts, start, op) <==> i in parts || i == start
  {
  }

  lemma EditsAtPush(ms: seq<Message>, done: seq<ViewOperation>, op: ViewOperation, i: nat, p: nat)
    ensures EditsAt(ms, done + [op], i, p)
         == if !op.Range? && Start(ms, op) == i && op.partIndex == p then EditsAt(ms, done, i, p) + [op]
            else EditsAt(ms, done, i, p)
  {
    assert (done + [op])[..|done|] == done;
  }

  lemma PushRecordsEdit(ms: seq<Message>, done: seq<ViewOperation>, parts: PartEdits, op: ViewOperation)
    requires !op.Range? && RecordedParts(ms, done, parts)
    ensures RecordedParts(ms, done + [op], Pushed(parts, Start(ms, op), op))
  {
    var now := Pushed(parts, Start(ms, op), op);
    forall i: nat, p: nat
      ensures Lookup(now, i, p) == EditsAt(ms, done + [op], i, p)
      ensures i in now && p in now[i] ==> now[i][p] != []
    {
      PushedLookup(parts, Start(ms, op), op, i, p);
      EditsAtPush(ms, done, op, i, p);
    }
    forall i: nat
      ensures i in now <==> exists q :: q in done + [op] && !q.Range? && Start(ms, q) == i
    {
      PushedLookup(parts, Start(ms, op), op, i, 0);
      if i in parts {
        var q :| q in done && !q.Range? && Start(ms, q) == i;
        assert q in done + [op];
      } else if i == Start(ms, op) {
        assert op in done + [op];
      }
    }
  }

  lemma PushRecordsRange(ms: seq<Message>, done: seq<ViewOperation>, parts: PartEdits, op: ViewOperation)
    requires op.Range? && RecordedParts(ms, done, parts)
    ensures RecordedParts(ms, done + [op], parts)
  {
    forall i: nat, p: nat
      ensures EditsAt(ms, done + [op], i, p) == EditsAt(ms, done, i, p)
    {
      EditsAtPush(ms, done, op, i, p);
    }
    forall i: nat
      ensures i in parts <==> exists q :: q in done + [op] && !q.Range? && Start(ms, q) == i
    {
      if i in parts {
        var q :| q in done && !q.Range? && Start(ms, q) == i;
        assert q in done + [op];
      }
    }
  }

  /** Disjointness seen through single covered messages, the way the bookkeeping sets see it. */
  lemma ClashCovers(ms: seq<Message>, a: ViewOperation, b: ViewOperation)
    requires Width(a) > 0 && Width(b) > 0
    ensures (Start(ms, a) + Width(a) <= Start(ms, b) || Start(ms, b) + Width(b) <= Start(ms, a))
       <==> !exists i: nat :: Covers(ms, a, i) && Covers(ms, b, i)
  {
    var i := if Start(ms, a) < Start(ms, b) then Start(ms, b) else Start(ms, a);
    if !(Start(ms, a) + Width(a) <= Start(ms, b) || Start(ms, b) + Width(b) <= Start(ms, a)) {
      assert Covers(ms, a, i) && Covers(ms, b, i);
    }
  }

  /** The set tests of the loop are the pairwise tests against everything admitted so far. */
  lemma NoClashFromSets(
      ms: seq<Message>, done: seq<ViewOperation>, op: ViewOperation, whole: set<nat>, parts: PartEdits)
    requires forall i: nat :: i in whole <==> exists q :: q in done && q.Range? && Covers(ms, q, i)
    requires RecordedParts(ms, done, parts)
    requires SchemaValid(op) && forall q :: q in done ==> SchemaValid(q)
    ensures op.Range? ==>
              (Unclaimed(ms, whole, parts, op) <==> ClearOf(ms, done, op))
    ensures !op.Range? ==>
              (Start(ms, op) !in whole <==> ClearOf(ms, done, op))
  {
    forall q | q in done
      ensures (q.Range? || op.Range?) ==> (NoClash(ms, q, op) <==> !exists i: nat :: Covers(ms, q, i) && Covers(ms, op, i))
    {
      ClashCovers(ms, q, op);
    }
    if op.Range? {
      if !Unclaimed(ms, whole, parts, op) {
        var i: nat :| Covers(ms, op, i) && (i in whole || i in parts);
        if i in whole {
          var q :| q in done && q.Range? && Covers(ms, q, i);
          assert !NoClash(ms, q, op);
        } else {
          var q :| q in done && !q.Range? && Start(ms, q) == i;
          assert Covers(ms, q, i);
          assert !NoClash(ms, q, op);
        }
      }
    } else {
      assert Covers(ms, op, Start(ms, op));
      if Start(ms, op) in whole {
        var q :| q in done && q.Range? && Covers(ms, q, Start(ms, op));
        assert !NoClash(ms, q, op);
      }
    }
  }

  /** What the admission of `ops` establishes, and what stops it. */
  ghost predicate AdmissionOutcome(h: Hashing, ms: seq<Message>, bound: nat, ops: seq<ViewOperation>, status: Status)
    requires bound <= |ms|
  {
    match status
    case Applied => AllAdmitted(h, ms, bound, ops, |ops|)
    case _ => exists n :: 0 <= n < |ops| && AllAdmitted(h, ms, bound, ops, n)
                          && !Admitted(h, ms, bound, ops[..n], ops[n])
                          && (status.NoMatch? <==> Unmatched(ms, ops[..n], ops[n]))
  }

  predicate WellFormed(op: ViewOperation)
    ensures WellFormed(op) <==> SchemaValid(op)
  {
    match op
    case Range(_, _, ids, digests, _) =>
      ids != [] && |ids| == |digests| && forall i, j :: 0 <= i < j < |ids| ==> ids[i] != ids[j]
    case ToolOutput(_, _, _, _, _, _, _) => true
    case TextRange(_, _, _, _, _, start, end, _, _) => start < end
  }

  lemma {:induction false} AdmittedValid(h: Hashing, ms: seq<Message>, bound: nat, ops: seq<ViewOperation>, n: nat)
    requires bound <= |ms| && n <= |ops| && AllAdmitted(h, ms, bound, ops, n)
    ensures forall q :: q in ops[..n] ==> Fits(h, ms, bound, q) && SchemaValid(q)
  {
    if n > 0 {
      AdmittedValid(h, ms, bound, ops, n - 1);
      assert ops[..n] == ops[..n - 1] + [ops[n - 1]];
    }
  }

  /** One turn of the admission loop. */
  method AdmitOne(
      h: Hashing, ms: seq<Message>, byId: map<Text, nat>, digests: map<nat, Digest>, ghost bound: nat,
      ghost done: seq<ViewOperation>, op: ViewOperation, books: Books) returns (status: Status, now: Books)
    requires bound <= |ms| && Indexed(ms, byId) && Digested(h, ms, bound, digests)
    requires books == BooksOf(ms, done) && forall q :: q in done ==> SchemaValid(q)
    ensures status.Applied? <==> Admitted(h, ms, bound, done, op)
    ensures status.NoMatch? <==> Unmatched(ms, done, op)
    ensures status.Applied? ==> now == Entered(ms, books, op)
  {
    now := books;
    BooksDecide(ms, done, op);
    if !WellFormed(op) {
      return Invalid, now;
    }
    if op.operationId in books.operationIds {
      return Invalid, now;
    }
    var nowWhole := books.whole;
    if op.Range? {
      status, nowWhole := AdmitRange(h, ms, byId, digests, bound, books.whole, books.parts, op);
    } else {
      status := AdmitEdit(h, ms, byId, digests, bound, books.whole, op);
    }
    if status.Applied? {
      now := Enter(ms, byId, books, op, nowWhole);
    }
  }

  method Enter(ms: seq<Message>, byId: map<Text, nat>, books: Books, op: ViewOperation, nowWhole: set<nat>)
      returns (now: Books)
    requires SchemaValid(op) && Target(op) in byId && byId[Target(op)] == Start(ms, op)
    requires nowWhole == if op.Range? then books.whole + CoveredBy(ms, op) else books.whole
    ensures now == Entered(ms, books, op)
  {
    var start := byId[Target(op)];
    if op.Range? {
      now := Books(books.operationIds + {op.operationId}, nowWhole, books.parts,
                   books.ranges + [RangeEdit(start, start + |op.messageIds|, op.replacement)]);
    } else {
      now := Books(books.operationIds + {op.operationId}, nowWhole, Pushed(books.parts, start, op), books.ranges);
    }
  }

  /** The set tests of one turn decide the pairwise conditions against `done`. */
  lemma BooksDecide(ms: seq<Message>, done: seq<ViewOperation>, op: ViewOperation)
    requires forall q :: q in done ==> SchemaValid(q)
    ensures var books := BooksOf(ms, done);
            && (op.operationId !in books.operationIds <==> NewId(done, op))
            && (op.Range? && SchemaValid(op) ==> (Unclaimed(ms, books.whole, books.parts, op) <==> ClearOf(ms, done, op)))
            && (!op.Range? && SchemaValid(op) ==> (Start(ms, op) !in books.whole <==> ClearOf(ms, done, op)))
  {
    SetsRecord(ms, done);
    PartsRecord(ms, done);
    if SchemaValid(op) {
      NoClashFromSets(ms, done, op, BooksOf(ms, done).whole, BooksOf(ms, done).parts);
    }
  }

  method Admit(
      h: Hashing, ms: seq<Message>, byId: map<Text, nat>, digests: map<nat, Digest>, ghost bound: nat,
      ops: seq<ViewOperation>) returns (status: Status, books: Books)
    requires bound <= |ms| && Indexed(ms, byId) && Digested(h, ms, bound, digests)
    ensures AdmissionOutcome(h, ms, bound, ops, status)
    ensures status.Applied? ==> books == BooksOf(ms, ops)
  {
    books := Books({}, {}, map[], []);
    for n := 0 to |ops|
      invariant AllAdmitted(h, ms, bound, ops, n)
      invariant books == BooksOf(ms, ops[..n])
    {
      assert ops[..n + 1] == ops[..n] + [ops[n]];
      AdmittedValid(h, ms, bound, ops, n);
      status, books := AdmitOne(h, ms, byId, digests, bound, ops[..n], ops[n], books);
      if !status.Applied? {
        return;
      }
    }
    assert ops[..|ops|] == ops;
    status := Applied;
  }

  lemma {:induction false} SetsRecord(ms: seq<Message>, done: seq<ViewOperation>)
    ensures RecordedSets(ms, done, BooksOf(ms, done).operationIds, BooksOf(ms, done).whole)
  {
    if done != [] {
      var before, op := done[..|done| - 1], done[|done| - 1];
      assert done == before + [op];
      SetsRecord(ms, before);
      GrowSets(ms, before, op, BooksOf(ms, before).operationIds, BooksOf(ms, before).whole, BooksOf(ms, done).whole);
    }
  }

  lemma {:induction false} PartsRecord(ms: seq<Message>, done: seq<ViewOperation>)
    ensures RecordedParts(ms, done, BooksOf(ms, done).parts)
  {
    if done != [] {
      var before, op := done[..|done| - 1], done[|done| - 1];
      assert done == before + [op];
      PartsRecord(ms, before);
      if op.Range? {
        PushRecordsRange(ms, before, BooksOf(ms, before).parts, op);
      } else {
        PushRecordsEdit(ms, before, BooksOf(ms, before).parts, op);
      }
    }
  }

  lemma {:induction false} RangesRecord(ms: seq<Message>, done: seq<ViewOperation>)
    ensures BooksOf(ms, done).ranges == RangesOf(ms, done)
  {
    if done != [] {
      RangesRecord(ms, done[..|done| - 1]);
    }
  }

  lemma GrowSets(
      ms: seq<Message>, done: seq<ViewOperation>, op: ViewOperation,
      operationIds: set<Digest>, whole: set<nat>, nowWhole: set<nat>)
    requires forall d :: d in operationIds <==> exists q :: q in done && q.operationId == d
    requires forall i: nat :: i in whole <==> exists q :: q in done && q.Range? && Covers(ms, q, i)
    requires forall i: nat :: i in nowWhole <==> i in whole || (op.Range? && Covers(ms, op, i))
    ensures forall d :: d in operationIds + {op.operationId} <==> exists q :: q in done + [op] && q.operationId == d
    ensures forall i: nat :: i in nowWhole <==> exists q :: q in done + [op] && q.Range? && Covers(ms, q, i)
  {
    forall d
      ensures d in operationIds + {op.operationId} <==> exists q :: q in done + [op] && q.operationId == d
    {
      if d in operationIds {
        var q :| q in done && q.operationId == d;
        assert q in done + [op];
      } else if d == op.operationId {
        assert op in done + [op];
      }
    }
    forall i: nat
      ensures i in nowWhole <==> exists q :: q in done + [op] && q.Range? && Covers(ms, q, i)
    {
      if i in whole {
        var q :| q in done && q.Range? && Covers(ms, q, i);
        assert q in done + [op];
      } else if op.Range? && Covers(ms, op, i) {
        assert op in done + [op];
      }
    }
  }
}
