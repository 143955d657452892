/** What one can rely on after `materializeOperations`: order does not matter, nothing is lost, history may grow. */
module Rewriting {
  import opened Texts
  import opened Messages
  import opened Sorting
  import opened Substitution

  // ---------------------------------------------------------- order independence

  lemma PermutedPair(ops: seq<ViewOperation>, perm: seq<ViewOperation>, ms: seq<Message>, i: nat, j: nat)
    requires multiset(perm) == multiset(ops) && PairwiseCompatible(ms, ops)
    requires i < j < |perm|
    ensures perm[i] in ops && perm[j] in ops && perm[i] != perm[j]
  {
    SameElements(perm, ops);
    assert perm[i] in perm && perm[j] in perm;
    OpsDistinct(ms, ops);
    DistinctPermutation(perm, ops);
  }

  lemma PermutedApplicable(h: Hashing, ms: seq<Message>, ops: seq<ViewOperation>, perm: seq<ViewOperation>, snapshot: Snapshot)
    requires multiset(perm) == multiset(ops) && Applicable(h, ms, ops, snapshot)
    ensures Applicable(h, ms, perm, snapshot)
  {
    SameElements(perm, ops);
    forall i, j | 0 <= i < j < |perm|
      ensures Compatible(ms, perm[i], perm[j])
      ensures perm[i].Range? && perm[j].Range? ==> perm[i].replacement.id != perm[j].replacement.id
    {
      PermutedPair(ops, perm, ms, i, j);
      MembersCompatible(ms, ops, perm[i], perm[j]);
      if perm[i].Range? && perm[j].Range? {
        DistinctMembers(ops, perm[i], perm[j]);
      }
    }
  }

  lemma {:induction false} SameEditText(
      h: Hashing, ms: seq<Message>, ops: seq<ViewOperation>, perm: seq<ViewOperation>, snapshot: Snapshot,
      text: Text, id: Text, p: nat, k: nat)
    requires WellPlaced(h, ms, ops, snapshot) && WellPlaced(h, ms, perm, snapshot)
    requires forall op :: op in ops <==> op in perm
    ensures EditText(text, ops, id, p, k) == EditText(text, perm, id, p, k)
    decreases |text| - k
  {
    if k < |text| {
      var a := TextEditAt(ops, id, p, k);
      if a.Some? {
        TextEditAtFinds(h, ms, perm, snapshot, a.value);
        SameEditText(h, ms, ops, perm, snapshot, text, id, p, a.value.end);
      } else {
        SameEditText(h, ms, ops, perm, snapshot, text, id, p, k + 1);
      }
    }
  }

  lemma SameEditMessage(
      h: Hashing, ms: seq<Message>, ops: seq<ViewOperation>, perm: seq<ViewOperation>, snapshot: Snapshot, m: Message)
    requires WellPlaced(h, ms, ops, snapshot) && WellPlaced(h, ms, perm, snapshot)
    requires forall op :: op in ops <==> op in perm
    ensures EditMessage(m, ops) == EditMessage(m, perm)
  {
    forall p: nat | p < |m.parts|
      ensures EditPart(m.parts[p], ops, m.id, p) == EditPart(m.parts[p], perm, m.id, p)
    {
      if m.parts[p].TextPart? {
        SameEditText(h, ms, ops, perm, snapshot, m.parts[p].text, m.id, p, 0);
      } else {
        var a := ToolEditAt(ops, m.id, p);
        if a.Some? {
          ToolEditAtFinds(h, ms, perm, snapshot, a.value);
        }
      }
    }
    assert EditMessage(m, ops).parts == EditMessage(m, perm).parts;
  }

  lemma {:induction false} SameSubstitute(
      h: Hashing, ms: seq<Message>, ops: seq<ViewOperation>, perm: seq<ViewOperation>, snapshot: Snapshot, k: nat)
    requires WellPlaced(h, ms, ops, snapshot) && WellPlaced(h, ms, perm, snapshot)
    requires forall op :: op in ops <==> op in perm
    ensures Substitute(ms, ops, k) == Substitute(ms, perm, k)
    decreases |ms| - k
  {
    if k < |ms| {
      var a := RangeAt(ms, ops, k);
      if a.Some? {
        RangeAtFinds(h, ms, perm, snapshot, a.value);
      } else {
        SameEditMessage(h, ms, ops, perm, snapshot, ms[k]);
      }
      SameSubstitute(h, ms, ops, perm, snapshot, Next(ms, ops, k));
    }
  }

  /** Operations form a set: any order is accepted or refused alike and gives the same history. */
  lemma OrderIndependent(h: Hashing, ms: seq<Message>, ops: seq<ViewOperation>, perm: seq<ViewOperation>, snapshot: Snapshot)
    requires multiset(perm) == multiset(ops)
    ensures Applicable(h, ms, perm, snapshot) <==> Applicable(h, ms, ops, snapshot)
    ensures Applicable(h, ms, ops, snapshot) ==> Substitute(ms, perm, 0) == Substitute(ms, ops, 0)
  {
    if Applicable(h, ms, ops, snapshot) {
      PermutedApplicable(h, ms, ops, perm, snapshot);
      SameElements(perm, ops);
      SameSubstitute(h, ms, ops, perm, snapshot, 0);
    }
    if Applicable(h, ms, perm, snapshot) {
      PermutedApplicable(h, ms, perm, ops, snapshot);
    }
  }

  // ------------------------------------------------------------------- recovery

  /** Skip `inserted` units after `kept` untouched ones and put `removed` back. */
  datatype Patch = Patch(kept: nat, inserted: nat, removed: Text)

  datatype PartUndo = Untouched | OutputWas(output: Option<Text>) | TextWas(patches: seq<Patch>)

  datatype Undo = Edited(parts: seq<PartUndo>) | Replaced(removed: seq<Message>)

  function TextJournal(text: Text, ops: seq<ViewOperation>, id: Text, p: nat, k: nat, kept: nat): seq<Patch>
    decreases |text| - k
  {
    if k >= |text| then []
    else match TextEditAt(ops, id, p, k)
      case Some(op) =>
        var end := if op.end <= |text| then op.end else |text|;
        [Patch(kept, |op.text|, text[k..end])] + TextJournal(text, ops, id, p, op.end, 0)
      case None => TextJournal(text, ops, id, p, k + 1, kept + 1)
  }

  function PartJournal(part: Part, ops: seq<ViewOperation>, id: Text, p: nat): PartUndo {
    if part.TextPart? then TextWas(TextJournal(part.text, ops, id, p, 0, 0))
    else if ToolEditAt(ops, id, p).Some? then OutputWas(part.output)
    else Untouched
  }

  /** Only the replaced slices of the original: nothing that the rewritten history still holds. */
  function Journal(ms: seq<Message>, ops: seq<ViewOperation>, k: nat): seq<Undo>
    decreases |ms| - k
  {
    if k >= |ms| then []
    else match RangeAt(ms, ops, k)
      case Some(op) =>
        var end := if k + |op.messageIds| <= |ms| then k + |op.messageIds| else |ms|;
        [Replaced(ms[k..end])] + Journal(ms, ops, k + |op.messageIds|)
      case None =>
        [Edited(MessageJournal(ms[k], ops))] + Journal(ms, ops, k + 1)
  }

  function MessageJournal(m: Message, ops: seq<ViewOperation>): seq<PartUndo> {
    seq(|m.parts|, p requires 0 <= p < |m.parts| => PartJournal(m.parts[p], ops, m.id, p))
  }

  function RestoreText(now: Text, patches: seq<Patch>): Text
    decreases |patches|
  {
    if patches == [] then now
    else
      var patch := patches[0];
      if patch.kept + patch.inserted <= |now| then
        now[..patch.kept] + patch.removed + RestoreText(now[patch.kept + patch.inserted..], patches[1..])
      else now
  }

  function RestorePart(now: Part, undo: PartUndo): Part {
    match undo
    case TextWas(patches) => if now.TextPart? then TextPart(RestoreText(now.text, patches)) else now
    case OutputWas(output) => if now.ToolPart? then now.(output := output) else now
    case Untouched => now
  }

  function Restore(now: seq<Message>, journal: seq<Undo>): seq<Message>
    decreases |now|
  {
    if now == [] || journal == [] then []
    else
      var head := match journal[0]
        case Replaced(removed) => removed
        case Edited(parts) => [RestoreMessage(now[0], parts)];
      head + Restore(now[1..], journal[1..])
  }

  function RestoreMessage(now: Message, undo: seq<PartUndo>): Message {
    if |undo| == |now.parts| then
      now.(parts := seq(|undo|, p requires 0 <= p < |undo| && |undo| == |now.parts| => RestorePart(now.parts[p], undo[p])))
    else now
  }

  ghost predicate EndsInside(text: Text, ops: seq<ViewOperation>, id: Text, p: nat) {
    forall op :: op in ops && op.TextRange? && EditsPart(op, id, p) ==> op.end <= |text|
  }

  /** From unit `k` on the text comes back, whatever untouched prefix stands before it. */
  ghost predicate TextBack(text: Text, ops: seq<ViewOperation>, id: Text, p: nat, k: nat, prefix: Text)
    requires k <= |text|
  {
    RestoreText(prefix + EditText(text, ops, id, p, k), TextJournal(text, ops, id, p, k, |prefix|)) == prefix + text[k..]
  }

  lemma {:induction false} TextRecovered(text: Text, ops: seq<ViewOperation>, id: Text, p: nat, k: nat, prefix: Text)
    requires k <= |text| && EndsInside(text, ops, id, p)
    ensures TextBack(text, ops, id, p, k, prefix)
    decreases |text| - k
  {
    if k == |text| {
      assert prefix + [] == prefix;
    } else {
      var r := TextEditAt(ops, id, p, k);
      if r.Some? {
        TextRecovered(text, ops, id, p, r.value.end, []);
        EditBack(text, ops, id, p, k, prefix, r.value);
      } else {
        TextRecovered(text, ops, id, p, k + 1, prefix + [text[k]]);
        UnitBack(text, ops, id, p, k, prefix);
      }
    }
  }

  lemma EditBack(text: Text, ops: seq<ViewOperation>, id: Text, p: nat, k: nat, prefix: Text, op: ViewOperation)
    requires k < |text| && TextEditAt(ops, id, p, k) == Some(op) && op.end <= |text| && TextBack(text, ops, id, p, op.end, [])
    ensures TextBack(text, ops, id, p, k, prefix)
  {
    var rest, patches := EditText(text, ops, id, p, op.end), TextJournal(text, ops, id, p, op.end, 0);
    Grouped(prefix, op.text, rest);
    PatchBack(text, k, op.end, prefix, op.text, rest, patches);
    EditUnfolds(text, ops, id, p, k, |prefix|, op);
  }

  lemma EditUnfolds(text: Text, ops: seq<ViewOperation>, id: Text, p: nat, k: nat, kept: nat, op: ViewOperation)
    requires k < |text| && TextEditAt(ops, id, p, k) == Some(op) && op.end <= |text|
    ensures EditText(text, ops, id, p, k) == op.text + EditText(text, ops, id, p, op.end)
    ensures TextJournal(text, ops, id, p, k, kept)
         == [Patch(kept, |op.text|, text[k..op.end])] + TextJournal(text, ops, id, p, op.end, 0)
  {
  }

  lemma PatchBack(text: Text, k: nat, end: nat, prefix: Text, inserted: Text, rest: Text, patches: seq<Patch>)
    requires k <= end <= |text| && RestoreText(rest, patches) == [] + text[end..]
    ensures RestoreText(prefix + inserted + rest, [Patch(|prefix|, |inserted|, text[k..end])] + patches) == prefix + text[k..]
  {
    PatchOne(prefix, inserted, rest, text[k..end], patches);
    Pasted(text, k, end, prefix, RestoreText(rest, patches));
  }

  lemma Grouped(a: Text, b: Text, c: Text)
    ensures a + (b + c) == a + b + c && [] + c == c
  {
  }

  lemma UnitBack(text: Text, ops: seq<ViewOperation>, id: Text, p: nat, k: nat, prefix: Text)
    requires k < |text| && TextEditAt(ops, id, p, k).None? && TextBack(text, ops, id, p, k + 1, prefix + [text[k]])
    ensures TextBack(text, ops, id, p, k, prefix)
  {
    KeepOne(text, k, prefix, EditText(text, ops, id, p, k + 1));
  }

  lemma PatchOne(prefix: Text, inserted: Text, rest: Text, removed: Text, patches: seq<Patch>)
    ensures RestoreText(prefix + inserted + rest, [Patch(|prefix|, |inserted|, removed)] + patches)
         == prefix + removed + RestoreText(rest, patches)
  {
    var now, all := prefix + inserted + rest, [Patch(|prefix|, |inserted|, removed)] + patches;
    assert now[..|prefix|] == prefix;
    assert now[|prefix| + |inserted|..] == rest;
    assert all[1..] == patches;
  }

  lemma Pasted(text: Text, k: nat, end: nat, prefix: Text, restored: Text)
    requires k <= end <= |text| && restored == [] + text[end..]
    ensures prefix + text[k..end] + restored == prefix + text[k..]
  {
    assert text[k..] == text[k..end] + text[end..];
  }

  lemma KeepOne(text: Text, k: nat, prefix: Text, rest: Text)
    requires k < |text|
    ensures prefix + ([text[k]] + rest) == (prefix + [text[k]]) + rest
    ensures prefix + text[k..] == (prefix + [text[k]]) + text[k + 1..]
  {
  }

  lemma PartRecovered(part: Part, ops: seq<ViewOperation>, id: Text, p: nat)
    requires part.TextPart? ==> EndsInside(part.text, ops, id, p)
    ensures RestorePart(EditPart(part, ops, id, p), PartJournal(part, ops, id, p)) == part
  {
    if part.TextPart? {
      TextRecovered(part.text, ops, id, p, 0, []);
      var edited := EditText(part.text, ops, id, p, 0);
      assert [] + edited == edited;
      assert [] + part.text[0..] == part.text;
    }
  }

  lemma EditsInside(h: Hashing, ms: seq<Message>, ops: seq<ViewOperation>, snapshot: Snapshot, k: nat, p: nat)
    requires WellPlaced(h, ms, ops, snapshot) && k < |ms| && p < |ms[k].parts| && ms[k].parts[p].TextPart?
    ensures EndsInside(ms[k].parts[p].text, ops, ms[k].id, p)
  {
    FindUnique(ms, k);
    forall op | op in ops && op.TextRange? && EditsPart(op, ms[k].id, p)
      ensures op.end <= |ms[k].parts[p].text|
    {
      assert Fits(h, ms, |snapshot.messageIds|, op);
    }
  }

  lemma MessageRecovered(h: Hashing, ms: seq<Message>, ops: seq<ViewOperation>, snapshot: Snapshot, k: nat)
    requires WellPlaced(h, ms, ops, snapshot) && k < |ms|
    ensures RestoreMessage(EditMessage(ms[k], ops), MessageJournal(ms[k], ops)) == ms[k]
  {
    var m := ms[k];
    forall p: nat | p < |m.parts|
      ensures RestorePart(EditPart(m.parts[p], ops, m.id, p), PartJournal(m.parts[p], ops, m.id, p)) == m.parts[p]
    {
      if m.parts[p].TextPart? {
        EditsInside(h, ms, ops, snapshot, k, p);
      }
      PartRecovered(m.parts[p], ops, m.id, p);
    }
    assert RestoreMessage(EditMessage(m, ops), MessageJournal(m, ops)).parts == m.parts;
  }

  lemma RestoreStep(head: Message, rest: seq<Message>, undo: Undo, undos: seq<Undo>)
    ensures Restore([head] + rest, [undo] + undos)
         == (match undo case Replaced(removed) => removed case Edited(parts) => [RestoreMessage(head, parts)])
            + Restore(rest, undos)
  {
    assert ([head] + rest)[1..] == rest;
    assert ([undo] + undos)[1..] == undos;
  }

  /** The journal entry of what the walk publishes at `k`. */
  function Entry(ms: seq<Message>, ops: seq<ViewOperation>, k: nat): Undo
    requires k < |ms|
  {
    if RangeAt(ms, ops, k).Some? && Next(ms, ops, k) <= |ms| then Replaced(ms[k..Next(ms, ops, k)])
    else Edited(MessageJournal(ms[k], ops))
  }

  lemma JournalStep(ms: seq<Message>, ops: seq<ViewOperation>, k: nat)
    requires Tiled(ms, ops) && k < |ms|
    ensures Next(ms, ops, k) <= |ms|
    ensures Journal(ms, ops, k) == [Entry(ms, ops, k)] + Journal(ms, ops, Next(ms, ops, k))
  {
  }

  lemma EntryRestores(h: Hashing, ms: seq<Message>, ops: seq<ViewOperation>, snapshot: Snapshot, k: nat,
                      rest: seq<Message>, undos: seq<Undo>)
    requires WellPlaced(h, ms, ops, snapshot) && Tiled(ms, ops) && k < |ms|
    ensures Next(ms, ops, k) <= |ms|
    ensures Restore([Published(ms, ops, k)] + rest, [Entry(ms, ops, k)] + undos)
         == ms[k..Next(ms, ops, k)] + Restore(rest, undos)
  {
    RestoreStep(Published(ms, ops, k), rest, Entry(ms, ops, k), undos);
    MessageRecovered(h, ms, ops, snapshot, k);
  }

  lemma {:induction false} SuffixRecovered(
      h: Hashing, ms: seq<Message>, ops: seq<ViewOperation>, snapshot: Snapshot, k: nat)
    requires WellPlaced(h, ms, ops, snapshot) && Tiled(ms, ops) && k <= |ms|
    ensures Rebuilds(ms, ops, k)
    decreases |ms| - k
  {
    if k < |ms| {
      StepRecovered(h, ms, ops, snapshot, k);
      SuffixRecovered(h, ms, ops, snapshot, Next(ms, ops, k));
      var next := Next(ms, ops, k);
      SlicesJoin(ms, k, next, Restore(Substitute(ms, ops, k), Journal(ms, ops, k)),
                 Restore(Substitute(ms, ops, next), Journal(ms, ops, next)));
    }
  }

  ghost predicate Rebuilds(ms: seq<Message>, ops: seq<ViewOperation>, k: nat)
    requires k <= |ms|
  {
    Restore(Substitute(ms, ops, k), Journal(ms, ops, k)) == ms[k..]
  }

  lemma StepRecovered(h: Hashing, ms: seq<Message>, ops: seq<ViewOperation>, snapshot: Snapshot, k: nat)
    requires WellPlaced(h, ms, ops, snapshot) && Tiled(ms, ops) && k < |ms|
    ensures Next(ms, ops, k) <= |ms|
    ensures Restore(Substitute(ms, ops, k), Journal(ms, ops, k))
         == ms[k..Next(ms, ops, k)] + Restore(Substitute(ms, ops, Next(ms, ops, k)), Journal(ms, ops, Next(ms, ops, k)))
  {
    var next := Next(ms, ops, k);
    SubstituteStep(ms, ops, k);
    JournalStep(ms, ops, k);
    EntryRestores(h, ms, ops, snapshot, k, Substitute(ms, ops, next), Journal(ms, ops, next));
  }

  lemma SlicesJoin(ms: seq<Message>, k: nat, next: nat, at: seq<Message>, after: seq<Message>)
    requires k <= next <= |ms| && at == ms[k..next] + after && after == ms[next..]
    ensures at == ms[k..]
  {
  }

  /** An applied plan loses nothing: the rewritten history and the replaced slices rebuild the original. */
  lemma Recoverable(h: Hashing, ms: seq<Message>, ops: seq<ViewOperation>, snapshot: Snapshot)
    requires Applicable(h, ms, ops, snapshot)
    ensures Restore(Substitute(ms, ops, 0), Journal(ms, ops, 0)) == ms
  {
    WellPlacedTiled(h, ms, ops, snapshot);
    SuffixRecovered(h, ms, ops, snapshot, 0);
    assert ms[0..] == ms;
  }

  // ------------------------------------------------------------ growing histories

  /** Appended messages bring new ids, none of them a replacement's. */
  ghost predicate FreshTail(ms: seq<Message>, tail: seq<Message>, ops: seq<ViewOperation>) {
    && UniqueIds(ms + tail)
    && forall op, i :: op in ops && op.Range? && 0 <= i < |tail| ==> tail[i].id != op.replacement.id
  }

  lemma StartKept(ms: seq<Message>, tail: seq<Message>, op: ViewOperation)
    requires Start(ms, op) < |ms|
    ensures Start(ms + tail, op) == Start(ms, op)
  {
    FindInPrefix(ms, tail, Target(op));
  }

  lemma FitsLonger(h: Hashing, ms: seq<Message>, tail: seq<Message>, bound: nat, op: ViewOperation)
    requires bound <= |ms| && Fits(h, ms, bound, op) && UniqueIds(ms + tail)
    ensures Fits(h, ms + tail, bound, op) <==> (op.Range? ==> forall i :: 0 <= i < |tail| ==> tail[i].id != op.replacement.id)
  {
    StartKept(ms, tail, op);
    var longer := ms + tail;
    var start := Start(ms, op);
    assert forall i :: 0 <= i < |ms| ==> longer[i] == ms[i];
    if op.Range? {
      forall i | 0 <= i < |op.messageIds|
        ensures longer[start + i] == ms[start + i]
        ensures RangeSource(h, longer[start + i], op.messageIds[i], op.sourceDigests[i])
      {
        assert RangeSource(h, ms[start + i], op.messageIds[i], op.sourceDigests[i]);
      }
      TailReplacement(ms, tail, op);
    }
  }

  lemma TailReplacement(ms: seq<Message>, tail: seq<Message>, op: ViewOperation)
    requires op.Range? && ReplacementFresh(ms, op) && UniqueIds(ms + tail)
    requires Start(ms, op) == Start(ms + tail, op) && Start(ms, op) + Width(op) <= |ms|
    ensures ReplacementFresh(ms + tail, op) <==> forall i :: 0 <= i < |tail| ==> tail[i].id != op.replacement.id
  {
    var id := op.replacement.id;
    FindInPrefix(ms, tail, id);
    FindFirst(tail, id);
    if Find(ms, id) < |ms| {
      forall i | 0 <= i < |tail|
        ensures tail[i].id != id
      {
        assert (ms + tail)[|ms| + i].id != (ms + tail)[Find(ms, id)].id;
      }
    }
  }

  lemma LongerApplicable(h: Hashing, ms: seq<Message>, tail: seq<Message>, ops: seq<ViewOperation>, snapshot: Snapshot)
    requires Applicable(h, ms, ops, snapshot)
    ensures Applicable(h, ms + tail, ops, snapshot) <==> FreshTail(ms, tail, ops)
  {
    var longer, bound := ms + tail, |snapshot.messageIds|;
    if UniqueIds(longer) {
      forall op | op in ops
        ensures Fits(h, ms, bound, op)
        ensures Start(longer, op) == Start(ms, op)
        ensures Fits(h, longer, bound, op) <==> (op.Range? ==> forall i :: 0 <= i < |tail| ==> tail[i].id != op.replacement.id)
      {
        StartKept(ms, tail, op);
        FitsLonger(h, ms, tail, bound, op);
      }
      forall i, j | 0 <= i < j < |ops|
        ensures Compatible(longer, ops[i], ops[j])
      {
        assert Compatible(ms, ops[i], ops[j]);
        assert ops[i] in ops && ops[j] in ops;
      }
    }
  }

  lemma RangeAtLonger(h: Hashing, ms: seq<Message>, tail: seq<Message>, ops: seq<ViewOperation>, snapshot: Snapshot, k: nat)
    requires Applicable(h, ms, ops, snapshot) && Applicable(h, ms + tail, ops, snapshot)
    ensures RangeAt(ms + tail, ops, k) == RangeAt(ms, ops, k)
    ensures k >= |ms| ==> RangeAt(ms + tail, ops, k).None?
  {
    forall op | op in ops
      ensures Start(ms + tail, op) == Start(ms, op) < |ms|
    {
      assert Fits(h, ms, |snapshot.messageIds|, op);
      StartKept(ms, tail, op);
    }
    var a := RangeAt(ms, ops, k);
    if a.Some? {
      RangeAtFinds(h, ms + tail, ops, snapshot, a.value);
    }
  }

  lemma TailUntouched(h: Hashing, ms: seq<Message>, tail: seq<Message>, ops: seq<ViewOperation>, snapshot: Snapshot, k: nat)
    requires Applicable(h, ms, ops, snapshot) && UniqueIds(ms + tail) && k < |tail|
    ensures EditMessage(tail[k], ops) == tail[k]
  {
    forall op | op in ops && !op.Range?
      ensures op.messageId != tail[k].id
    {
      assert Fits(h, ms, |snapshot.messageIds|, op);
      assert (ms + tail)[Start(ms, op)].id != (ms + tail)[|ms| + k].id;
    }
    UntouchedMessage(tail[k], ops);
  }

  /** No operation reaches into the tail. */
  ghost predicate QuietTail(ms: seq<Message>, tail: seq<Message>, ops: seq<ViewOperation>) {
    forall k: nat :: k < |tail| ==> QuietAt(ms, tail, ops, k)
  }

  ghost predicate QuietAt(ms: seq<Message>, tail: seq<Message>, ops: seq<ViewOperation>, k: nat)
    requires k < |tail|
  {
    RangeAt(ms + tail, ops, |ms| + k).None? && EditMessage(tail[k], ops) == tail[k]
  }

  lemma TailIsQuiet(h: Hashing, ms: seq<Message>, tail: seq<Message>, ops: seq<ViewOperation>, snapshot: Snapshot)
    requires Applicable(h, ms, ops, snapshot) && Applicable(h, ms + tail, ops, snapshot)
    ensures QuietTail(ms, tail, ops)
  {
    forall k: nat | k < |tail|
      ensures QuietAt(ms, tail, ops, k)
    {
      RangeAtLonger(h, ms, tail, ops, snapshot, |ms| + k);
      TailUntouched(h, ms, tail, ops, snapshot, k);
    }
  }

  lemma QuietStep(ms: seq<Message>, tail: seq<Message>, ops: seq<ViewOperation>, k: nat)
    requires QuietTail(ms, tail, ops) && k < |tail|
    ensures Substitute(ms + tail, ops, |ms| + k) == [tail[k]] + Substitute(ms + tail, ops, |ms| + k + 1)
  {
    assert QuietAt(ms, tail, ops, k) && (ms + tail)[|ms| + k] == tail[k];
    SubstituteStep(ms + tail, ops, |ms| + k);
  }

  lemma {:induction false} QuietTailStays(ms: seq<Message>, tail: seq<Message>, ops: seq<ViewOperation>, k: nat)
    requires QuietTail(ms, tail, ops) && k <= |tail|
    ensures Substitute(ms + tail, ops, |ms| + k) == tail[k..]
    decreases |tail| - k
  {
    if k == |tail| {
      SubstituteEnd(ms + tail, ops);
    } else {
      QuietTailStays(ms, tail, ops, k + 1);
      QuietTurn(ms, tail, ops, k);
    }
  }

  lemma QuietTurn(ms: seq<Message>, tail: seq<Message>, ops: seq<ViewOperation>, k: nat)
    requires QuietTail(ms, tail, ops) && k < |tail|
    requires Substitute(ms + tail, ops, |ms| + k + 1) == tail[k + 1..]
    ensures Substitute(ms + tail, ops, |ms| + k) == tail[k..]
  {
    QuietStep(ms, tail, ops, k);
    DropOne(tail, k);
  }

  lemma SubstituteEnd(ms: seq<Message>, ops: seq<ViewOperation>)
    ensures Substitute(ms, ops, |ms|) == []
  {
  }

  lemma DropOne(ms: seq<Message>, k: nat)
    requires k < |ms|
    ensures ms[k..] == [ms[k]] + ms[k + 1..]
  {
  }

  lemma TailStays(h: Hashing, ms: seq<Message>, tail: seq<Message>, ops: seq<ViewOperation>, snapshot: Snapshot, k: nat)
    requires Applicable(h, ms, ops, snapshot) && Applicable(h, ms + tail, ops, snapshot) && k <= |tail|
    ensures Substitute(ms + tail, ops, |ms| + k) == tail[k..]
  {
    TailIsQuiet(h, ms, tail, ops, snapshot);
    QuietTailStays(ms, tail, ops, k);
  }

  lemma PublishedLonger(h: Hashing, ms: seq<Message>, tail: seq<Message>, ops: seq<ViewOperation>, snapshot: Snapshot, k: nat)
    requires Applicable(h, ms, ops, snapshot) && Applicable(h, ms + tail, ops, snapshot) && k < |ms|
    ensures Published(ms + tail, ops, k) == Published(ms, ops, k)
    ensures Next(ms + tail, ops, k) == Next(ms, ops, k)
  {
    RangeAtLonger(h, ms, tail, ops, snapshot, k);
  }

  lemma {:induction false} SubstituteLonger(
      h: Hashing, ms: seq<Message>, tail: seq<Message>, ops: seq<ViewOperation>, snapshot: Snapshot, k: nat)
    requires Applicable(h, ms, ops, snapshot) && Applicable(h, ms + tail, ops, snapshot) && Tiled(ms, ops)
    requires k <= |ms|
    ensures Substitute(ms + tail, ops, k) == Substitute(ms, ops, k) + tail
    decreases |ms| - k
  {
    if k < |ms| {
      var next := Next(ms, ops, k);
      PublishedLonger(h, ms, tail, ops, snapshot, k);
      SubstituteStep(ms + tail, ops, k);
      SubstituteStep(ms, ops, k);
      assert next <= |ms|;
      SubstituteLonger(h, ms, tail, ops, snapshot, next);
      AppendOne(Published(ms, ops, k), Substitute(ms, ops, next), tail);
    } else {
      TailStays(h, ms, tail, ops, snapshot, 0);
      assert Substitute(ms, ops, k) + tail == tail;
    }
  }

  lemma AppendOne(head: Message, rest: seq<Message>, tail: seq<Message>)
    ensures [head] + (rest + tail) == ([head] + rest) + tail
  {
  }

  /** A view that applies keeps applying while the history grows with fresh ids, and only the tail is added. */
  lemma AppendStable(h: Hashing, ms: seq<Message>, tail: seq<Message>, ops: seq<ViewOperation>, snapshot: Snapshot)
    requires Applicable(h, ms, ops, snapshot)
    ensures Applicable(h, ms + tail, ops, snapshot) <==> FreshTail(ms, tail, ops)
    ensures FreshTail(ms, tail, ops) ==> Substitute(ms + tail, ops, 0) == Substitute(ms, ops, 0) + tail
  {
    LongerApplicable(h, ms, tail, ops, snapshot);
    if FreshTail(ms, tail, ops) {
      WellPlacedTiled(h, ms, ops, snapshot);
      SubstituteLonger(h, ms, tail, ops, snapshot, 0);
    }
  }
}
