/** `buildLayeredPlan`: the plan it returns passes the whole wire contract. */
module Planning {
  import opened Texts
  import opened Messages
  import opened Substitution
  import opened Admission
  import opened Operations
  import opened Contract
  import opened Agreement
  import opened Retention
  import opened Packing
  import opened Leaves
  import opened Candidacy
  import Hierarchy

  // ------------------------------------------------------------------ token totals

  type Tokens = Message -> nat

  function SumOf(tokens: Tokens, ms: seq<Message>, n: nat): nat
    requires n <= |ms|
  {
    if n == 0 then 0 else SumOf(tokens, ms, n - 1) + tokens(ms[n - 1])
  }

  function Total(tokens: Tokens, ms: seq<Message>): nat { SumOf(tokens, ms, |ms|) }

  /** Tokens of the affected ones among the first `n` messages. */
  function SumAffected(tokens: Tokens, ms: seq<Message>, affected: set<nat>, n: nat): nat
    requires n <= |ms|
  {
    if n == 0 then 0
    else SumAffected(tokens, ms, affected, n - 1) + if n - 1 in affected then tokens(ms[n - 1]) else 0
  }

  /** Tokens of the first `n` messages that no operation touches. */
  function Untouched(tokens: Tokens, ms: seq<Message>, touched: set<Text>, n: nat): nat
    requires n <= |ms|
  {
    if n == 0 then 0
    else Untouched(tokens, ms, touched, n - 1) + if ms[n - 1].id in touched then 0 else tokens(ms[n - 1])
  }

  lemma {:induction false} UntouchedIsRest(tokens: Tokens, ms: seq<Message>, touched: set<Text>, affected: set<nat>, n: nat)
    requires n <= |ms| && forall i :: 0 <= i < n ==> (ms[i].id in touched <==> i in affected)
    ensures Untouched(tokens, ms, touched, n) == SumOf(tokens, ms, n) - SumAffected(tokens, ms, affected, n)
  {
    if n > 0 {
      UntouchedIsRest(tokens, ms, touched, affected, n - 1);
    }
  }

  lemma {:induction false} FinalCoversRetained(tokens: Tokens, ms: seq<Message>, after: seq<Message>, affected: set<nat>, n: nat)
    requires |after| == |ms| && n <= |ms|
    requires forall i :: 0 <= i < n && i !in affected ==> after[i] == ms[i]
    ensures SumAffected(tokens, ms, affected, n) <= SumOf(tokens, ms, n)
    ensures SumOf(tokens, ms, n) - SumAffected(tokens, ms, affected, n) <= SumOf(tokens, after, n)
  {
    if n > 0 {
      FinalCoversRetained(tokens, ms, after, affected, n - 1);
    }
  }

  method TotalTokens(tokens: Tokens, ms: seq<Message>) returns (total: nat)
    ensures total == Total(tokens, ms)
  {
    total := 0;
    for i := 0 to |ms|
      invariant total == SumOf(tokens, ms, i)
    {
      total := total + tokens(ms[i]);
    }
  }

  method EvictedTokens(tokens: Tokens, ms: seq<Message>, affected: set<nat>) returns (total: nat)
    ensures total == SumAffected(tokens, ms, affected, |ms|)
  {
    total := 0;
    for i := 0 to |ms|
      invariant total == SumAffected(tokens, ms, affected, i)
    {
      if i in affected {
        total := total + tokens(ms[i]);
      }
    }
  }

  // --------------------------------------------------------------- affected messages

  function Indices(affected: set<nat>, n: nat): (r: seq<nat>)
    ensures forall i :: 0 <= i < |r| ==> r[i] < n && r[i] in affected
    ensures forall i, j :: 0 <= i < j < |r| ==> r[i] < r[j]
  {
    if n == 0 then [] else Indices(affected, n - 1) + if n - 1 in affected then [n - 1] else []
  }

  lemma {:induction false} IndexListed(affected: set<nat>, n: nat, k: nat)
    requires k < n && k in affected
    ensures k in Indices(affected, n)
  {
    if k < n - 1 {
      IndexListed(affected, n - 1, k);
    }
  }

  lemma {:induction false} IndicesStop(affected: set<nat>, n: nat, m: nat)
    requires n <= m && forall k :: k in affected ==> k < n
    ensures Indices(affected, m) == Indices(affected, n)
  {
    if n < m {
      IndicesStop(affected, n, m - 1);
    }
  }

  function IdsAt(ms: seq<Message>, indices: seq<nat>): seq<Text>
    requires forall i :: 0 <= i < |indices| ==> indices[i] < |ms|
  {
    seq(|indices|, i requires 0 <= i < |indices| => ms[indices[i]].id)
  }

  function RefsAt(h: Hashing, ms: seq<Message>, indices: seq<nat>): seq<Ref>
    requires forall i :: 0 <= i < |indices| ==> indices[i] < |ms|
  {
    seq(|indices|, i requires 0 <= i < |indices| =>
      Ref(h.content(ms[indices[i]]), ms[indices[i]].role, TurnOf(ms, indices[i])))
  }

  function TurnOf(ms: seq<Message>, i: nat): nat
    requires i < |ms|
  {
    |TurnStarts(ms, i + 1)| - 1
  }

  /** A reference gives the digest and the role of its message, and counts the turns before its own. */
  lemma RefsTell(h: Hashing, ms: seq<Message>, indices: seq<nat>, i: nat)
    requires (forall k :: 0 <= k < |indices| ==> indices[k] < |ms|) && i < |indices|
    ensures |RefsAt(h, ms, indices)| == |indices|
    ensures var ref := RefsAt(h, ms, indices)[i];
            && ref.contentHash == h.content(ms[indices[i]]) && ref.role == ms[indices[i]].role
            && ref.turnIndex + 1 == Turns(ms, 0, indices[i] + 1)
  {
    TurnsCount(ms, indices[i] + 1, 0);
  }

  function HashesOf(refs: seq<Ref>): seq<Digest> {
    seq(|refs|, i requires 0 <= i < |refs| => refs[i].contentHash)
  }

  /** The ids of the affected messages are the snapshot's touched ids, in order. */
  lemma {:induction false} TouchedAre(ms: seq<Message>, ids: seq<Text>, touched: set<Text>, affected: set<nat>, n: nat)
    requires n <= |ids| <= |ms| && forall i :: 0 <= i < |ids| ==> ids[i] == ms[i].id
    requires forall i :: 0 <= i < |ids| ==> (ids[i] in touched <==> i in affected)
    ensures Touched(ids[..n], touched) == IdsAt(ms, Indices(affected, n))
  {
    if n > 0 {
      TouchedAre(ms, ids, touched, affected, n - 1);
      assert ids[..n] == ids[..n - 1] + [ids[n - 1]];
      TouchedJoins(ids[..n - 1], [ids[n - 1]], touched);
      assert Touched([ids[n - 1]][1..], touched) == [];
    }
  }

  lemma {:induction false} TouchedJoins(a: seq<Text>, b: seq<Text>, touched: set<Text>)
    ensures Touched(a + b, touched) == Touched(a, touched) + Touched(b, touched)
  {
    if a == [] {
      assert a + b == b;
    } else {
      assert (a + b)[1..] == a[1..] + b;
      TouchedJoins(a[1..], b, touched);
    }
  }

  // -------------------------------------------------------------------- the snapshot

  /** The snapshot ends with the last user message, or covers everything when there is none. */
  ghost predicate IsSourceEnd(ms: seq<Message>, end: nat) {
    && end <= |ms|
    && (forall i :: end <= i < |ms| ==> ms[i].role.Assistant?)
    && (end < |ms| ==> end > 0 && ms[end - 1].role.User?)
    && (end == |ms| && end > 0 ==> ms[end - 1].role.User? || forall i :: 0 <= i < |ms| ==> ms[i].role.Assistant?)
  }

  method SourceEnd(ms: seq<Message>) returns (end: nat)
    ensures IsSourceEnd(ms, end)
  {
    var lastUser := |ms| - 1;
    while lastUser >= 0 && !ms[lastUser].role.User?
      invariant -1 <= lastUser < |ms|
      invariant forall i :: lastUser < i < |ms| ==> ms[i].role.Assistant?
    {
      lastUser := lastUser - 1;
    }
    end := if lastUser < 0 then |ms| else lastUser + 1;
  }

  lemma HistoryIsCovered(ms: seq<Message>, retain: nat, end: nat)
    requires IsSourceEnd(ms, end)
    ensures RecentStart(ms, retain) <= end
  {
    if end > 0 && ms[end - 1].role.User? {
      BoundaryBeforeLastUser(ms, retain, end - 1);
    } else if ms != [] {
      NoUserNoHistory(ms, retain);
    }
  }

  function PrefixSnapshot(h: Hashing, ms: seq<Message>, end: nat): Snapshot
    requires end <= |ms|
  {
    Snapshot(seq(end, i requires 0 <= i < end => ms[i].id), seq(end, i requires 0 <= i < end => h.content(ms[i])))
  }

  lemma PrefixBinds(h: Hashing, ms: seq<Message>, end: nat)
    requires end <= |ms| && UniqueIds(ms)
    ensures SnapshotBinds(h, ms, PrefixSnapshot(h, ms, end)) && SnapshotValid(PrefixSnapshot(h, ms, end))
  {
  }

  lemma DigestOfPrefix(h: Hashing, ms: seq<Message>, end: nat, k: nat)
    requires k < end <= |ms| && UniqueIds(ms)
    ensures DigestOf(PrefixSnapshot(h, ms, end), ms[k].id) == Some(h.content(ms[k]))
  {
    var snapshot := PrefixSnapshot(h, ms, end);
    PrefixBinds(h, ms, end);
    PositionUnique(snapshot.messageIds, k);
  }

  // ----------------------------------------------------------------- the final result

  function AffectedOf(candidates: seq<Candidate>): set<nat> {
    set i | 0 <= i < |candidates| :: candidates[i].messageIndex
  }

  /** What a finished plan consists of. */
  datatype Draft = Draft(
    operations: seq<ViewOperation>, nodes: seq<Node>, memory: seq<MemoryEntry>, snapshot: Snapshot, summary: Text, historyHash: Digest)

  /** The plan returned for a draft, given the token totals before and after and what was evicted. */
  function Finished(
      h: Hashing, ms: seq<Message>, draft: Draft, indices: seq<nat>, budget: Budget, compacted: bool, raw: nat, final: nat, evicted: nat): Plan
    requires forall i :: 0 <= i < |indices| ==> indices[i] < |ms|
  {
    var refs := if compacted then RefsAt(h, ms, indices) else [];
    var retained := raw - evicted;
    Plan(
      compacted, Some(if compacted then draft.operations else []), if compacted then draft.nodes else [], Some(draft.snapshot),
      Some(HashesOf(refs)), Some(if compacted then draft.memory else []), Some(budget),
      if compacted then Some(draft.historyHash) else None, if compacted then Some(draft.summary) else None,
      refs, if compacted then IdsAt(ms, indices) else [],
      raw, raw,
      if compacted then evicted else 0, if compacted then retained else raw, if compacted then final - retained else 0,
      if compacted then final else raw, if compacted then raw - final else 0)
  }

  /** Operations derived from candidates of the first `n` messages, one per candidate. */
  ghost predicate Derived(ms: seq<Message>, candidates: seq<Candidate>, ops: seq<ViewOperation>, n: nat) {
    && n <= |ms| && |ops| == |candidates|
    && forall i :: 0 <= i < |ops| ==>
         !ops[i].Range? && candidates[i].messageIndex < n && ops[i].messageId == ms[candidates[i].messageIndex].id
  }

  lemma DerivedTouch(ms: seq<Message>, candidates: seq<Candidate>, ops: seq<ViewOperation>, n: nat, k: nat)
    requires UniqueIds(ms) && Derived(ms, candidates, ops, n) && k < |ms|
    ensures ms[k].id in TouchedIds(ops) <==> k in AffectedOf(candidates)
    ensures k !in AffectedOf(candidates) ==> forall op :: op in ops ==> op.messageId != ms[k].id
  {
    if ms[k].id in TouchedIds(ops) {
      var op :| op in ops && ms[k].id in IdsOf(op);
      var i :| 0 <= i < |ops| && ops[i] == op;
      assert candidates[i].messageIndex == k;
    }
    if k in AffectedOf(candidates) {
      var i :| 0 <= i < |candidates| && candidates[i].messageIndex == k;
      assert ops[i] in ops && ms[k].id in IdsOf(ops[i]);
    } else {
      forall op | op in ops
        ensures op.messageId != ms[k].id
      {
        var i :| 0 <= i < |ops| && ops[i] == op;
        assert candidates[i].messageIndex in AffectedOf(candidates);
      }
    }
  }

  lemma UnaffectedStay(ms: seq<Message>, candidates: seq<Candidate>, ops: seq<ViewOperation>, n: nat)
    requires UniqueIds(ms) && Derived(ms, candidates, ops, n)
    ensures |Substitute(ms, ops, 0)| == |ms|
    ensures forall i :: 0 <= i < |ms| && i !in AffectedOf(candidates) ==> Substitute(ms, ops, 0)[i] == ms[i]
  {
    forall op | op in ops
      ensures !op.Range?
    {
      var i :| 0 <= i < |ops| && ops[i] == op;
    }
    EditsKeepShape(ms, ops, 0);
    forall i: nat | i < |ms| && i !in AffectedOf(candidates)
      ensures Substitute(ms, ops, 0)[i] == ms[i]
    {
      DerivedTouch(ms, candidates, ops, n, i);
      UntouchedMessage(ms[i], ops);
    }
  }

  lemma ListsAgree(h: Hashing, ms: seq<Message>, candidates: seq<Candidate>, ops: seq<ViewOperation>, end: nat, plan: Plan)
    requires UniqueIds(ms) && Derived(ms, candidates, ops, end)
    requires plan.replacedMessageIds == IdsAt(ms, Indices(AffectedOf(candidates), |ms|))
    requires plan.sourceDigests == Some(HashesOf(RefsAt(h, ms, Indices(AffectedOf(candidates), |ms|))))
    ensures var snapshot := PrefixSnapshot(h, ms, end);
            ListsMatch(plan, snapshot, Touched(snapshot.messageIds, TouchedIds(ops)))
  {
    var snapshot, affected := PrefixSnapshot(h, ms, end), AffectedOf(candidates);
    forall i: nat | i < end
      ensures snapshot.messageIds[i] in TouchedIds(ops) <==> i in affected
    {
      DerivedTouch(ms, candidates, ops, end, i);
    }
    TouchedAre(ms, snapshot.messageIds, TouchedIds(ops), affected, end);
    assert snapshot.messageIds[..end] == snapshot.messageIds;
    IndicesStop(affected, end, |ms|);
    var indices := Indices(affected, end);
    forall i | 0 <= i < |indices|
      ensures DigestOf(snapshot, ms[indices[i]].id) == Some(h.content(ms[indices[i]]))
    {
      DigestOfPrefix(h, ms, end, indices[i]);
    }
  }

  lemma DistinctAffected(ms: seq<Message>, indices: seq<nat>)
    requires UniqueIds(ms) && (forall i :: 0 <= i < |indices| ==> indices[i] < |ms|)
    requires forall i, j :: 0 <= i < j < |indices| ==> indices[i] < indices[j]
    ensures Distinct(IdsAt(ms, indices))
  {
    forall i, j | 0 <= i < j < |indices|
      ensures ms[indices[i]].id != ms[indices[j]].id
    {
      assert indices[i] < indices[j];
    }
  }

  lemma InertIsValid(
      h: Hashing, ms: seq<Message>, draft: Draft, indices: seq<nat>, budget: Budget, raw: nat, final: nat, evicted: nat)
    requires (forall i :: 0 <= i < |indices| ==> indices[i] < |ms|) && SnapshotValid(draft.snapshot)
    ensures WireValid(Finished(h, ms, draft, indices, budget, false, raw, final, evicted))
  {
  }

  lemma CompactedAccounts(
      h: Hashing, ms: seq<Message>, draft: Draft, indices: seq<nat>, budget: Budget, raw: nat, final: nat, evicted: nat)
    requires UniqueIds(ms) && indices != [] && (forall i :: 0 <= i < |indices| ==> indices[i] < |ms|)
    requires forall i, j :: 0 <= i < j < |indices| ==> indices[i] < indices[j]
    requires evicted <= raw && raw - evicted <= final < raw
    ensures Accounted(Finished(h, ms, draft, indices, budget, true, raw, final, evicted))
    ensures NonNegative(Finished(h, ms, draft, indices, budget, true, raw, final, evicted))
  {
    DistinctAffected(ms, indices);
  }

  lemma CompactedAligned(
      h: Hashing, ms: seq<Message>, candidates: seq<Candidate>, draft: Draft, end: nat, budget: Budget, raw: nat, final: nat, evicted: nat)
    requires UniqueIds(ms) && end <= |ms| && draft.snapshot == PrefixSnapshot(h, ms, end)
    requires Derived(ms, candidates, draft.operations, end) && Applicable(h, ms, draft.operations, draft.snapshot)
    ensures var plan := Finished(h, ms, draft, Indices(AffectedOf(candidates), |ms|), budget, true, raw, final, evicted);
            Parsed(plan) && Aligned(plan)
  {
    var plan := Finished(h, ms, draft, Indices(AffectedOf(candidates), |ms|), budget, true, raw, final, evicted);
    AppliedAligned(h, ms, draft.operations, draft.snapshot);
    ListsAgree(h, ms, candidates, draft.operations, end, plan);
  }

  lemma SomeAffected(ms: seq<Message>, candidates: seq<Candidate>, ops: seq<ViewOperation>, end: nat)
    requires Derived(ms, candidates, ops, end) && ops != []
    ensures Indices(AffectedOf(candidates), |ms|) != []
  {
    assert candidates[0].messageIndex in AffectedOf(candidates);
    IndexListed(AffectedOf(candidates), |ms|, candidates[0].messageIndex);
  }

  /** The counts a plan is made from are those of the messages themselves. */
  ghost predicate Fresh(stored: Tokens, tokens: Tokens, ms: seq<Message>) {
    forall i :: 0 <= i < |ms| ==> stored(ms[i]) == tokens(ms[i])
  }

  lemma {:induction false} FreshTotals(stored: Tokens, tokens: Tokens, ms: seq<Message>, touched: set<Text>, n: nat)
    requires Fresh(stored, tokens, ms) && n <= |ms|
    ensures SumOf(stored, ms, n) == SumOf(tokens, ms, n) && Untouched(stored, ms, touched, n) == Untouched(tokens, ms, touched, n)
  {
    if n > 0 {
      FreshTotals(stored, tokens, ms, touched, n - 1);
    }
  }

  /**
   * The plan returned for a draft. The raw and the evicted total come from the analysis of each message,
   * which may be an earlier one (`stored`); the final total is counted anew.
   */
  function Planned(
      h: Hashing, tokens: Tokens, stored: Tokens, ms: seq<Message>, candidates: seq<Candidate>, draft: Draft, budget: Budget): Plan
  {
    var affected, final := AffectedOf(candidates), Total(tokens, Substitute(ms, draft.operations, 0));
    var compacted := draft.operations != [] && final < Total(stored, ms);
    Finished(h, ms, draft, Indices(affected, |ms|), if compacted then budget else budget.(memoryTokens := 0),
             compacted, Total(stored, ms), final, SumAffected(stored, ms, affected, |ms|))
  }

  lemma {:induction false} AffectedAtMostAll(tokens: Tokens, ms: seq<Message>, affected: set<nat>, n: nat)
    requires n <= |ms|
    ensures SumAffected(tokens, ms, affected, n) <= SumOf(tokens, ms, n)
  {
    if n > 0 {
      AffectedAtMostAll(tokens, ms, affected, n - 1);
    }
  }

  /**
   * Finishing a draft whose operations apply gives a plan that passes the whole contract exactly when a
   * compacting plan retains, by the stored counts, no more than is left after its edits.
   */
  lemma FinishedIsValid(
      h: Hashing, tokens: Tokens, stored: Tokens, ms: seq<Message>, candidates: seq<Candidate>, draft: Draft, end: nat, budget: Budget)
    requires UniqueIds(ms) && end <= |ms| && draft.snapshot == PrefixSnapshot(h, ms, end)
    requires Derived(ms, candidates, draft.operations, end)
    requires forall node :: node in draft.nodes ==> LeafProvenance(node)
    requires draft.operations != [] ==> Applicable(h, ms, draft.operations, draft.snapshot)
    ensures var plan := Planned(h, tokens, stored, ms, candidates, draft, budget);
            WireValid(plan) <==>
            (plan.compacted ==> Untouched(stored, ms, TouchedIds(draft.operations), |ms|) <= plan.finalTokensEst)
  {
    var ops, affected := draft.operations, AffectedOf(candidates);
    var plan := Planned(h, tokens, stored, ms, candidates, draft, budget);
    var raw, final := Total(stored, ms), Total(tokens, Substitute(ms, ops, 0));
    var evicted, indices := SumAffected(stored, ms, affected, |ms|), Indices(affected, |ms|);
    PrefixBinds(h, ms, end);
    RetainedIsUntouched(stored, ms, candidates, ops, end);
    AffectedAtMostAll(stored, ms, affected, |ms|);
    if plan.compacted {
      SomeAffected(ms, candidates, ops, end);
      CompactedAligned(h, ms, candidates, draft, end, budget, raw, final, evicted);
      if raw - evicted <= final {
        CompactedAccounts(h, ms, draft, indices, budget, raw, final, evicted);
      }
    } else {
      InertIsValid(h, ms, draft, indices, budget.(memoryTokens := 0), raw, final, evicted);
    }
  }

  /** With fresh counts the contract always holds. */
  lemma FreshIsValid(
      h: Hashing, tokens: Tokens, stored: Tokens, ms: seq<Message>, candidates: seq<Candidate>, draft: Draft, end: nat, budget: Budget)
    requires UniqueIds(ms) && end <= |ms| && draft.snapshot == PrefixSnapshot(h, ms, end)
    requires Derived(ms, candidates, draft.operations, end) && Fresh(stored, tokens, ms)
    requires forall node :: node in draft.nodes ==> LeafProvenance(node)
    requires draft.operations != [] ==> Applicable(h, ms, draft.operations, draft.snapshot)
    ensures WireValid(Planned(h, tokens, stored, ms, candidates, draft, budget))
  {
    var ops := draft.operations;
    FinishedIsValid(h, tokens, stored, ms, candidates, draft, end, budget);
    UnaffectedStay(ms, candidates, ops, end);
    FinalCoversRetained(tokens, ms, Substitute(ms, ops, 0), AffectedOf(candidates), |ms|);
    FreshTotals(stored, tokens, ms, TouchedIds(ops), |ms|);
    RetainedIsUntouched(tokens, ms, candidates, ops, end);
  }

  /** What a plan retains is what none of its operations touches. */
  lemma RetainedIsUntouched(tokens: Tokens, ms: seq<Message>, candidates: seq<Candidate>, ops: seq<ViewOperation>, n: nat)
    requires UniqueIds(ms) && Derived(ms, candidates, ops, n)
    ensures Total(tokens, ms) - SumAffected(tokens, ms, AffectedOf(candidates), |ms|)
         == Untouched(tokens, ms, TouchedIds(ops), |ms|)
  {
    forall i: nat | i < |ms|
      ensures ms[i].id in TouchedIds(ops) <==> i in AffectedOf(candidates)
    {
      DerivedTouch(ms, candidates, ops, n, i);
    }
    UntouchedIsRest(tokens, ms, TouchedIds(ops), AffectedOf(candidates), |ms|);
  }

  /** A plan that passes the contract, applies to the history, and counts it truthfully. */
  ghost predicate HonestBase(h: Hashing, tokens: Tokens, ms: seq<Message>, base: Plan) {
    && WireValid(base) && base.compacted && base.operations.Some? && base.sourceSnapshot.Some?
    && Applicable(h, ms, base.operations.value, base.sourceSnapshot.value)
    && base.finalTokensEst == Total(tokens, Substitute(ms, base.operations.value, 0))
    && base.retainedTokensEst == Untouched(tokens, ms, TouchedIds(base.operations.value), |ms|)
  }
}
