/**
 * What a caller of the materializer gets, told without its machinery: when a set of edits is accepted, and
 * what each published message is.
 */
module Outcome {
  import opened Texts
  import opened Messages
  import opened Substitution

  // ------------------------------------------------------------------- the edited text

  /** The text from unit `from` on, each edit's slice replaced by its text. */
  function Spliced(text: Text, edits: seq<ViewOperation>, from: nat): Text
    requires forall op :: op in edits ==> op.TextRange?
  {
    if edits == [] then (if from <= |text| then text[from..] else [])
    else (if from <= edits[0].start <= |text| then text[from..edits[0].start] else []) + edits[0].text
         + Spliced(text, edits[1..], edits[0].end)
  }

  /** `edits` are text edits inside the text that follow one another from unit `from` on. */
  ghost predicate Following(text: Text, edits: seq<ViewOperation>, from: nat) {
    && from <= |text|
    && (forall op :: op in edits ==> op.TextRange? && from <= op.start < op.end <= |text|)
    && (forall i, j :: 0 <= i < j < |edits| ==> edits[i].end <= edits[j].start)
  }

  /** The new text keeps everything but the slices of the part's edits, and has their texts in place of those. */
  ghost predicate TextPublished(text: Text, ops: seq<ViewOperation>, id: Text, p: nat, next: Text) {
    exists edits ::
      && Following(text, edits, 0)
      && (forall op :: op in edits <==> op in ops && EditsPart(op, id, p))
      && next == Spliced(text, edits, 0)
  }

  // ---------------------------------------------------------------- a published message

  ghost predicate PartPublished(part: Part, ops: seq<ViewOperation>, id: Text, p: nat, next: Part) {
    && ((forall op :: op in ops ==> !EditsPart(op, id, p)) ==> next == part)
    && (forall op :: op in ops && op.ToolOutput? && EditsPart(op, id, p) ==>
          part.ToolPart? && next == part.(output := Some(op.output)))
    && (part.TextPart? ==> next.TextPart? && TextPublished(part.text, ops, id, p, next.text))
  }

  /** The message with its own edits and nothing else changed. */
  ghost predicate MessagePublished(m: Message, ops: seq<ViewOperation>, next: Message) {
    && next == m.(parts := next.parts) && |next.parts| == |m.parts|
    && forall p :: 0 <= p < |m.parts| ==> PartPublished(m.parts[p], ops, m.id, p, next.parts[p])
  }

  /** `op` replaces the messages from the `k`-th on. */
  predicate Replaces(ms: seq<Message>, op: ViewOperation, k: nat) {
    op.Range? && op.messageIds != [] && k < |ms| && ms[k].id == op.messageIds[0]
  }

  /** Message `k` of the history is replaced together with those before `n`, or published on its own. */
  ghost predicate Advances(ms: seq<Message>, ops: seq<ViewOperation>, k: nat, n: nat, next: Message) {
    && k < |ms|
    && (forall op :: op in ops && Replaces(ms, op, k) ==> next == op.replacement && n == k + |op.messageIds|)
    && ((forall op :: op in ops ==> !Replaces(ms, op, k)) ==> n == k + 1 && MessagePublished(ms[k], ops, next))
  }

  /** Every message of the history is accounted for once, in order: `at[i]` is where published message `i` comes from. */
  ghost predicate Accounts(ms: seq<Message>, ops: seq<ViewOperation>, after: seq<Message>, at: seq<nat>) {
    && |at| == |after| + 1 && at[0] == 0 && at[|after|] == |ms|
    && forall i, j :: 0 <= i < |after| && j == i + 1 ==> Advances(ms, ops, at[i], at[j], after[i])
  }

  ghost predicate Outcome(ms: seq<Message>, ops: seq<ViewOperation>, after: seq<Message>) {
    exists at :: Accounts(ms, ops, after, at)
  }

  // ------------------------------------------------------------ the walk has this outcome

  /** The text edits of one part are valid and clear of each other. */
  ghost predicate TextClear(text: Text, ops: seq<ViewOperation>, id: Text, p: nat) {
    && (forall op :: op in ops && EditsPart(op, id, p) ==> op.TextRange? && op.start < op.end <= |text|)
    && (forall a, b :: a in ops && b in ops && a != b && EditsPart(a, id, p) && EditsPart(b, id, p) ==>
          a.end <= b.start || b.end <= a.start)
  }

  /** Unit `k` is not strictly inside an edit. */
  ghost predicate Between(ops: seq<ViewOperation>, id: Text, p: nat, k: nat) {
    forall op :: op in ops && EditsPart(op, id, p) && op.TextRange? ==> !(op.start < k < op.end)
  }

  /** The edits that the walk meets from unit `k` on are exactly those that start there. */
  lemma {:induction false} WalkSplices(text: Text, ops: seq<ViewOperation>, id: Text, p: nat, k: nat) returns (edits: seq<ViewOperation>)
    requires TextClear(text, ops, id, p) && Between(ops, id, p, k) && k <= |text|
    ensures Met(text, ops, id, p, k, edits) && EditText(text, ops, id, p, k) == Spliced(text, edits, k)
    decreases |text| - k
  {
    if k == |text| {
      edits := [];
    } else {
      var r := TextEditAt(ops, id, p, k);
      if r.Some? {
        edits := WalkSplices(text, ops, id, p, r.value.end);
        MetFirst(text, ops, id, p, k, r.value, edits);
        edits := [r.value] + edits;
      } else {
        edits := WalkSplices(text, ops, id, p, k + 1);
        CopyOne(text, edits, k);
      }
    }
  }

  /** `edits` are the part's edits from unit `k` on, in order. */
  ghost predicate Met(text: Text, ops: seq<ViewOperation>, id: Text, p: nat, k: nat, edits: seq<ViewOperation>) {
    && Following(text, edits, k)
    && forall op :: op in edits <==> op in ops && EditsPart(op, id, p) && op.TextRange? && op.start >= k
  }

  lemma MetFirst(
      text: Text, ops: seq<ViewOperation>, id: Text, p: nat, k: nat, first: ViewOperation, rest: seq<ViewOperation>)
    requires TextClear(text, ops, id, p) && first in ops && EditsPart(first, id, p) && first.start == k
    requires Met(text, ops, id, p, first.end, rest)
    ensures Met(text, ops, id, p, k, [first] + rest)
    ensures Spliced(text, [first] + rest, k) == first.text + Spliced(text, rest, first.end)
  {
    assert ([first] + rest)[1..] == rest;
    assert text[k..k] == [];
  }

  lemma CopyOne(text: Text, edits: seq<ViewOperation>, k: nat)
    requires k < |text| && Following(text, edits, k + 1)
    ensures Spliced(text, edits, k) == [text[k]] + Spliced(text, edits, k + 1)
  {
    if edits == [] {
      assert text[k..] == [text[k]] + text[k + 1..];
    } else {
      assert edits[0] in edits;
      assert text[k..edits[0].start] == [text[k]] + text[k + 1..edits[0].start];
    }
  }

  ghost predicate PartClear(part: Part, ops: seq<ViewOperation>, id: Text, p: nat) {
    if part.TextPart? then TextClear(part.text, ops, id, p)
    else forall op :: op in ops && EditsPart(op, id, p) ==> op.ToolOutput? && ToolEditAt(ops, id, p) == Some(op)
  }

  lemma PartIsPublished(part: Part, ops: seq<ViewOperation>, id: Text, p: nat)
    requires PartClear(part, ops, id, p)
    ensures PartPublished(part, ops, id, p, EditPart(part, ops, id, p))
  {
    if forall op :: op in ops ==> !EditsPart(op, id, p) {
      UntouchedPart(part, ops, id, p);
    }
    if part.TextPart? {
      var edits := WalkSplices(part.text, ops, id, p, 0);
    }
  }

  lemma MessageIsPublished(m: Message, ops: seq<ViewOperation>)
    requires forall p: nat :: p < |m.parts| ==> PartClear(m.parts[p], ops, m.id, p)
    ensures MessagePublished(m, ops, EditMessage(m, ops))
  {
    forall p: nat | p < |m.parts|
      ensures PartPublished(m.parts[p], ops, m.id, p, EditMessage(m, ops).parts[p])
    {
      PartIsPublished(m.parts[p], ops, m.id, p);
    }
  }

  lemma PlacedIsClear(h: Hashing, ms: seq<Message>, ops: seq<ViewOperation>, snapshot: Snapshot, k: nat, p: nat)
    requires WellPlaced(h, ms, ops, snapshot) && k < |ms| && p < |ms[k].parts|
    ensures PartClear(ms[k].parts[p], ops, ms[k].id, p)
  {
    FindUnique(ms, k);
    forall op | op in ops && EditsPart(op, ms[k].id, p)
      ensures Start(ms, op) == k && PartMatches(h, ms[k].parts[p], op)
      ensures op.ToolOutput? ==> ToolEditAt(ops, ms[k].id, p) == Some(op)
    {
      assert Fits(h, ms, |snapshot.messageIds|, op);
      if op.ToolOutput? {
        ToolEditAtFinds(h, ms, ops, snapshot, op);
      }
    }
    forall a, b | a in ops && b in ops && a != b && EditsPart(a, ms[k].id, p) && EditsPart(b, ms[k].id, p)
      ensures Apart(a, b)
    {
      MembersCompatible(ms, ops, a, b);
    }
  }

  lemma PublishedAdvances(h: Hashing, ms: seq<Message>, ops: seq<ViewOperation>, snapshot: Snapshot, k: nat)
    requires WellPlaced(h, ms, ops, snapshot) && k < |ms|
    ensures Advances(ms, ops, k, Next(ms, ops, k), Published(ms, ops, k))
  {
    FindUnique(ms, k);
    forall op | op in ops && Replaces(ms, op, k)
      ensures RangeAt(ms, ops, k) == Some(op)
    {
      RangeAtFinds(h, ms, ops, snapshot, op);
    }
    if RangeAt(ms, ops, k).Some? {
      var op := RangeAt(ms, ops, k).value;
      assert Fits(h, ms, |snapshot.messageIds|, op);
      assert Replaces(ms, op, k);
    } else {
      forall p: nat | p < |ms[k].parts|
        ensures PartClear(ms[k].parts[p], ops, ms[k].id, p)
      {
        PlacedIsClear(h, ms, ops, snapshot, k, p);
      }
      MessageIsPublished(ms[k], ops);
    }
  }

  /** The published messages from `k` on, and where each of them comes from. */
  ghost predicate AccountsFrom(ms: seq<Message>, ops: seq<ViewOperation>, after: seq<Message>, at: seq<nat>, k: nat) {
    && |at| == |after| + 1 && at[0] == k && at[|after|] == |ms|
    && forall i, j :: 0 <= i < |after| && j == i + 1 ==> Advances(ms, ops, at[i], at[j], after[i])
  }

  lemma AccountsOneMore(ms: seq<Message>, ops: seq<ViewOperation>, k: nat, n: nat, next: Message, after: seq<Message>, at: seq<nat>)
    requires AccountsFrom(ms, ops, after, at, n) && Advances(ms, ops, k, n, next)
    ensures AccountsFrom(ms, ops, [next] + after, [k] + at, k)
  {
    var all, more := [next] + after, [k] + at;
    forall i, j | 0 <= i < |all| && j == i + 1
      ensures Advances(ms, ops, more[i], more[j], all[i])
    {
      if i > 0 {
        assert Advances(ms, ops, at[i - 1], at[i], after[i - 1]);
      }
    }
  }

  lemma {:induction false} WalkAccounts(h: Hashing, ms: seq<Message>, ops: seq<ViewOperation>, snapshot: Snapshot, k: nat)
      returns (at: seq<nat>)
    requires WellPlaced(h, ms, ops, snapshot) && Tiled(ms, ops) && Boundary(ms, ops, k) && k <= |ms|
    ensures AccountsFrom(ms, ops, Substitute(ms, ops, k), at, k)
    decreases |ms| - k
  {
    if k == |ms| {
      at := [k];
    } else {
      BoundaryNext(ms, ops, k);
      var rest := WalkAccounts(h, ms, ops, snapshot, Next(ms, ops, k));
      PublishedAdvances(h, ms, ops, snapshot, k);
      AccountsOneMore(ms, ops, k, Next(ms, ops, k), Published(ms, ops, k), Substitute(ms, ops, Next(ms, ops, k)), rest);
      SubstituteStep(ms, ops, k);
      at := [k] + rest;
    }
  }

  /** What applicable edits publish: replacements in place of their ranges, and every other message with its own edits. */
  lemma AppliedOutcome(h: Hashing, ms: seq<Message>, ops: seq<ViewOperation>, snapshot: Snapshot)
    requires WellPlaced(h, ms, ops, snapshot)
    ensures Outcome(ms, ops, Substitute(ms, ops, 0))
  {
    WellPlacedTiled(h, ms, ops, snapshot);
    var at := WalkAccounts(h, ms, ops, snapshot, 0);
    assert Accounts(ms, ops, Substitute(ms, ops, 0), at);
  }

  // ------------------------------------------------------------------ what is accepted

  predicate Settled(part: Part) {
    part.ToolPart? ==> part.status in {Completed, Error, Ok, Success, Failed}
  }

  predicate AllSettled(m: Message) {
    forall p :: 0 <= p < |m.parts| ==> Settled(m.parts[p])
  }

  /** The message is the unprotected source that the edit names, with the digest it names. */
  ghost predicate SourceIs(h: Hashing, m: Message, id: Text, digest: Digest) {
    m.id == id && h.content(m) == digest && !m.isProtected
  }

  /** Within the first `bound` messages the operation finds what it was made for at position `k`. */
  ghost predicate Sourced(h: Hashing, ms: seq<Message>, bound: nat, op: ViewOperation, k: nat)
    requires bound <= |ms|
  {
    match op
    case Range(_, _, ids, digests, replacement) =>
      && 0 < |ids| == |digests| && k + |ids| <= bound
      && (forall i :: 0 <= i < |ids| ==>
            SourceIs(h, ms[k + i], ids[i], digests[i]) && AllSettled(ms[k + i]))
      && (forall j :: 0 <= j < |ms| && ms[j].id == replacement.id ==> k <= j < k + |ids|)
    case ToolOutput(_, _, id, source, p, digest, _) =>
      && k < bound && SourceIs(h, ms[k], id, source) && p < |ms[k].parts|
      && ms[k].parts[p].ToolPart? && Settled(ms[k].parts[p])
      && h.text(if ms[k].parts[p].output.Some? then ms[k].parts[p].output.value else []) == digest
    case TextRange(_, _, id, source, p, start, end, digest, _) =>
      && k < bound && SourceIs(h, ms[k], id, source) && p < |ms[k].parts|
      && ms[k].parts[p].TextPart? && start < end <= |ms[k].parts[p].text|
      && h.text(ms[k].parts[p].text[start..end]) == digest
  }

  function Length(op: ViewOperation): nat { if op.Range? then |op.messageIds| else 1 }

  /** Two operations with sources at `i` and `j` do not get in each other's way. */
  predicate Clear(a: ViewOperation, i: nat, b: ViewOperation, j: nat) {
    && a.operationId != b.operationId
    && (a.Range? || b.Range? ==> i + Length(a) <= j || j + Length(b) <= i)
    && (a.Range? && b.Range? ==> a.replacement.id != b.replacement.id)
    && (!a.Range? && !b.Range? && i == j && a.partIndex == b.partIndex ==>
          a.TextRange? && b.TextRange? && (a.end <= b.start || b.end <= a.start))
  }

  /** Every operation has its source, at these places, and no two of them meet. */
  ghost predicate AcceptedAt(h: Hashing, ms: seq<Message>, ops: seq<ViewOperation>, snapshot: Snapshot, places: seq<nat>) {
    && ops != []
    && (forall i, j :: 0 <= i < j < |ms| ==> ms[i].id != ms[j].id)
    && |snapshot.messageIds| == |snapshot.sourceDigests| <= |ms|
    && (forall i :: 0 <= i < |snapshot.messageIds| ==>
          ms[i].id == snapshot.messageIds[i] && h.content(ms[i]) == snapshot.sourceDigests[i])
    && |places| == |ops|
    && (forall i :: 0 <= i < |ops| ==> Sourced(h, ms, |snapshot.messageIds|, ops[i], places[i]))
    && (forall i, j :: 0 <= i < j < |ops| ==> Clear(ops[i], places[i], ops[j], places[j]))
  }

  ghost predicate Accepted(h: Hashing, ms: seq<Message>, ops: seq<ViewOperation>, snapshot: Snapshot) {
    exists places :: AcceptedAt(h, ms, ops, snapshot, places)
  }

  lemma FitsIsSourced(h: Hashing, ms: seq<Message>, bound: nat, op: ViewOperation)
    requires UniqueIds(ms) && bound <= |ms| && Fits(h, ms, bound, op)
    ensures Sourced(h, ms, bound, op, Start(ms, op))
  {
    if op.Range? {
      forall i | 0 <= i < |op.messageIds|
        ensures SourceIs(h, ms[Start(ms, op) + i], op.messageIds[i], op.sourceDigests[i])
        ensures AllSettled(ms[Start(ms, op) + i])
      {
        assert RangeSource(h, ms[Start(ms, op) + i], op.messageIds[i], op.sourceDigests[i]);
      }
      forall j | 0 <= j < |ms| && ms[j].id == op.replacement.id
        ensures Start(ms, op) <= j < Start(ms, op) + |op.messageIds|
      {
        FindUnique(ms, j);
      }
    }
  }

  lemma SourcedFits(h: Hashing, ms: seq<Message>, bound: nat, op: ViewOperation, k: nat)
    requires UniqueIds(ms) && bound <= |ms| && Sourced(h, ms, bound, op, k)
    ensures Fits(h, ms, bound, op) && Start(ms, op) == k
  {
    if op.Range? {
      assert SourceIs(h, ms[k + 0], op.messageIds[0], op.sourceDigests[0]);
      FindUnique(ms, k);
      SourcedIds(h, ms, bound, op, k);
      forall i | 0 <= i < |op.messageIds|
        ensures RangeSource(h, ms[k + i], op.messageIds[i], op.sourceDigests[i])
      {
        assert SourceIs(h, ms[k + i], op.messageIds[i], op.sourceDigests[i]);
      }
    } else {
      FindUnique(ms, k);
    }
  }

  lemma SourcedIds(h: Hashing, ms: seq<Message>, bound: nat, op: ViewOperation, k: nat)
    requires UniqueIds(ms) && bound <= |ms| && op.Range? && Sourced(h, ms, bound, op, k)
    ensures Distinct(op.messageIds)
  {
    forall i, j | 0 <= i < j < |op.messageIds|
      ensures op.messageIds[i] != op.messageIds[j]
    {
      assert SourceIs(h, ms[k + i], op.messageIds[i], op.sourceDigests[i]);
      assert SourceIs(h, ms[k + j], op.messageIds[j], op.sourceDigests[j]);
    }
  }

  /** Two placed operations are compatible exactly when they are clear of each other. */
  lemma ClearIsCompatible(h: Hashing, ms: seq<Message>, bound: nat, a: ViewOperation, b: ViewOperation)
    requires UniqueIds(ms) && bound <= |ms| && Fits(h, ms, bound, a) && Fits(h, ms, bound, b)
    ensures Clear(a, Start(ms, a), b, Start(ms, b)) <==>
            Compatible(ms, a, b) && (a.Range? && b.Range? ==> a.replacement.id != b.replacement.id)
  {
  }

  /** The acceptance condition of the materializer, without its lookups: sources at some places, clear of each other. */
  lemma AcceptedExactly(h: Hashing, ms: seq<Message>, ops: seq<ViewOperation>, snapshot: Snapshot)
    ensures Applicable(h, ms, ops, snapshot) <==> Accepted(h, ms, ops, snapshot)
  {
    var bound := |snapshot.messageIds|;
    if Applicable(h, ms, ops, snapshot) {
      var places := seq(|ops|, i requires 0 <= i < |ops| => Start(ms, ops[i]));
      forall i | 0 <= i < |ops|
        ensures Sourced(h, ms, bound, ops[i], places[i])
      {
        assert ops[i] in ops;
        FitsIsSourced(h, ms, bound, ops[i]);
      }
      forall i, j | 0 <= i < j < |ops|
        ensures Clear(ops[i], places[i], ops[j], places[j])
      {
        assert ops[i] in ops && ops[j] in ops && Compatible(ms, ops[i], ops[j]);
        ClearIsCompatible(h, ms, bound, ops[i], ops[j]);
      }
      assert AcceptedAt(h, ms, ops, snapshot, places);
    }
    if Accepted(h, ms, ops, snapshot) {
      var places :| AcceptedAt(h, ms, ops, snapshot, places);
      forall i | 0 <= i < |ops|
        ensures Fits(h, ms, bound, ops[i]) && Start(ms, ops[i]) == places[i]
      {
        SourcedFits(h, ms, bound, ops[i], places[i]);
      }
      forall i, j | 0 <= i < j < |ops|
        ensures Compatible(ms, ops[i], ops[j])
        ensures ops[i].Range? && ops[j].Range? ==> ops[i].replacement.id != ops[j].replacement.id
      {
        assert Clear(ops[i], places[i], ops[j], places[j]);
        ClearIsCompatible(h, ms, bound, ops[i], ops[j]);
      }
    }
  }
}
