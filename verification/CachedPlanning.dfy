/** Planning with a shared analysis cache: when its counts are fresh, and what a stale one does to a plan. */
module CachedPlanning {
  import opened Texts
  import opened Messages
  import opened Substitution
  import opened Canonical
  import opened CanonicalProof
  import opened Digests
  import opened MessageTokens
  import opened Contract
  import opened Packing
  import opened Leaves
  import opened Candidacy
  import opened Planning
  import opened Planner
  import AnalysisCache
  import Hierarchy

  // ------------------------------------------------------------------ when counts are fresh

  /** The counter does not see the order of tool-input keys. */
  ghost predicate OrderBlind(tokens: Tokens) {
    forall m, n :: MessageSound(m) && MessageSound(n) && SameContent(m, n) ==> tokens(m) == tokens(n)
  }

  ghost predicate AllMessagesSound(ms: seq<Message>) {
    forall i :: 0 <= i < |ms| ==> MessageSound(ms[i])
  }

  function KeyOf(sha: Text -> Digest): Message -> Digest {
    m => ContentDigest(sha, m)
  }

  lemma BlindDecides(sha: Text -> Digest, tokens: Tokens, seen: seq<Message>)
    requires Injective(sha) && OrderBlind(tokens) && AllMessagesSound(seen)
    ensures AnalysisCache.KeyDecides(KeyOf(sha), tokens, seen)
  {
    forall i, j | 0 <= i < |seen| && 0 <= j < |seen| && KeyOf(sha)(seen[i]) == KeyOf(sha)(seen[j])
      ensures tokens(seen[i]) == tokens(seen[j])
    {
      DigestBindsContent(sha, seen[i], seen[j]);
    }
  }

  /** Every second call, whatever was planned before and however large the cache, counts afresh. */
  ghost predicate AlwaysFresh(sha: Text -> Digest, tokens: Tokens, size: Message -> nat) {
    forall maxEntries: nat, maxBytes: nat, first: seq<Message>, ms: seq<Message> :: AllMessagesSound(first) && AllMessagesSound(ms) ==>
      AnalysisCache.FreshCounts(tokens, ms, AnalysisCache.SecondCounts(KeyOf(sha), tokens, size, maxEntries, maxBytes, first, ms))
  }

  /** Exactly: counts from the cache are always fresh if and only if the counter ignores the order of tool-input keys. */
  lemma CacheIsFreshExactly(sha: Text -> Digest, tokens: Tokens, size: Message -> nat)
    requires Injective(sha)
    ensures AlwaysFresh(sha, tokens, size) <==> OrderBlind(tokens)
  {
    if OrderBlind(tokens) {
      forall maxEntries: nat, maxBytes: nat, first: seq<Message>, ms: seq<Message> | AllMessagesSound(first) && AllMessagesSound(ms)
        ensures AnalysisCache.FreshCounts(tokens, ms, AnalysisCache.SecondCounts(KeyOf(sha), tokens, size, maxEntries, maxBytes, first, ms))
      {
        BlindDecides(sha, tokens, first + ms);
        AnalysisCache.SecondIsFresh(KeyOf(sha), tokens, size, maxEntries, maxBytes, first, ms);
      }
    }
    if !OrderBlind(tokens) {
      var m, n :| MessageSound(m) && MessageSound(n) && SameContent(m, n) && tokens(m) != tokens(n);
      SameContentSameDigest(sha, m, n);
      AnalysisCache.TwinCounts(KeyOf(sha), tokens, size, 1, size(n), n, m);
      assert AllMessagesSound([n]) && AllMessagesSound([m]);
      assert !AnalysisCache.FreshCounts(tokens, [m], AnalysisCache.SecondCounts(KeyOf(sha), tokens, size, 1, size(n), [n], [m]));
    }
  }

  /** The default counter measures length alone, so its counts are fresh for every history and every cache. */
  lemma DefaultCounterIsFresh(sha: Text -> Digest, size: Message -> nat)
    requires Injective(sha)
    ensures AlwaysFresh(sha, TokensBy(EstimateTokens), size)
  {
    forall m, n | MessageSound(m) && MessageSound(n) && SameContent(m, n)
      ensures TokensBy(EstimateTokens)(m) == TokensBy(EstimateTokens)(n)
    {
      EstimateIgnoresOrder(m, n);
    }
    CacheIsFreshExactly(sha, TokensBy(EstimateTokens), size);
  }

  /** The heuristics see a tool call only through its canonical text. */
  ghost predicate SeeCanonical(hs: Heuristics) {
    forall a, b :: SamePartContent(a, b) ==> hs.skeleton(a) == hs.skeleton(b) && forall d :: hs.key(a, d) == hs.key(b, d)
  }

  /** What else a stored analysis holds is the same for every message with its digest: only the count can be stale. */
  lemma {:induction false} StoredObservationsAgree(w: Setting, m: Message, n: Message, k: nat)
    requires SeeCanonical(w.hs) && SameContent(m, n) && k <= |m.parts|
    ensures Observe(w, m, k) == Observe(w, n, k)
  {
    if k > 0 {
      StoredObservationsAgree(w, m, n, k - 1);
      assert SamePartContent(m.parts[k - 1], n.parts[k - 1]);
    }
  }

  /** The counts of a history with unique ids, as a function of its messages. */
  function CountsOf(ms: seq<Message>, counts: seq<nat>): Tokens {
    (m: Message) => if Find(ms, m.id) < |ms| == |counts| then counts[Find(ms, m.id)] else 0
  }

  lemma CountsOfAre(tokens: Tokens, ms: seq<Message>, counts: seq<nat>)
    requires UniqueIds(ms) && |counts| == |ms|
    ensures forall i :: 0 <= i < |ms| ==> CountsOf(ms, counts)(ms[i]) == counts[i]
    ensures Fresh(CountsOf(ms, counts), tokens, ms) <==> AnalysisCache.FreshCounts(tokens, ms, counts)
  {
    forall i | 0 <= i < |ms|
      ensures CountsOf(ms, counts)(ms[i]) == counts[i]
    {
      FindUnique(ms, i);
    }
  }

  // ------------------------------------------------------------------ planning through the cache

  /**
   * `buildLayeredPlan` with a cache that earlier calls may have filled. The plan is the one for the counts
   * the cache gives, and is valid exactly when they count no more retained tokens than are left. When messages with one digest have
   * one count, and so for every counter that ignores the order of tool-input keys, the plan passes the wire
   * contract and counts its history truthfully, and the cache is ready for the next call.
   */
  method PlanWithCache(
      cache: AnalysisCache.LayeredCache, ghost seen: seq<Message>, sha: Text -> Digest, size: Message -> nat,
      w: Setting, r: Rendering, ms: seq<Message>, options: Options, naming: Naming,
      existing: seq<Hierarchy.Evidence>, available: set<Digest>)
      returns (ok: bool, plan: Plan)
    requires cache.Valid() && AnalysisCache.Earned(KeyOf(sha), r.tokens, seen, cache.entries)
    requires UniqueIds(ms) && RangesSound(w.hs) && NamesFields(naming)
    requires forall i :: 0 <= i < |existing| ==> existing[i].Root?
    modifies cache
    ensures cache.Valid() && AnalysisCache.Earned(KeyOf(sha), r.tokens, seen + ms, cache.entries)
    ensures var (after, counts) := AnalysisCache.Analyzed(old(cache.View()), KeyOf(sha), r.tokens, size, ms, |ms|);
            && cache.View() == after
            && (ok ==> Built(w, r, CountsOf(ms, counts), ms, options, naming, plan))
            && (ok ==> (WireValid(plan) <==> Counted(CountsOf(ms, counts), ms, plan)))
    ensures PrefixMonotone(w.count) && FitsCharacters(w.count) ==>
              (ok <==> AllCuttable(Chosen(w, r, ms, options), |Chosen(w, r, ms, options)|))
    ensures ok && AnalysisCache.KeyDecides(KeyOf(sha), r.tokens, seen + ms) ==>
              WireValid(plan) && (plan.compacted ==> HonestBase(w.h, r.tokens, ms, plan))
    ensures ok && Injective(sha) && OrderBlind(r.tokens) && AllMessagesSound(seen + ms) ==>
              WireValid(plan) && (plan.compacted ==> HonestBase(w.h, r.tokens, ms, plan))
    ensures ok ==> Promises(w, r, ms, options, plan)
  {
    ghost var before := cache.View();
    var counts := AnalysisCache.AnalyzeAll(cache, KeyOf(sha), r.tokens, size, ms);
    AnalysisCache.AnalyzedEarned(before, KeyOf(sha), r.tokens, size, seen, ms, |ms|);
    assert ms[..|ms|] == ms;
    CountsOfAre(r.tokens, ms, counts);
    if Injective(sha) && OrderBlind(r.tokens) && AllMessagesSound(seen + ms) {
      BlindDecides(sha, r.tokens, seen + ms);
    }
    if AnalysisCache.KeyDecides(KeyOf(sha), r.tokens, seen + ms) {
      AnalysisCache.DecidedIsFresh(before, KeyOf(sha), r.tokens, size, seen, ms);
    }
    ok, plan := BuildLayeredPlan(w, r, CountsOf(ms, counts), ms, options, naming, existing, available);
  }

  /** Two calls that share a new cache: the second plans with the counts that the first one left. */
  method PlanTwice(
      sha: Text -> Digest, size: Message -> nat, maxEntries: nat, maxBytes: nat,
      w: Setting, r: Rendering, first: seq<Message>, ms: seq<Message>, options: Options, naming: Naming,
      existing: seq<Hierarchy.Evidence>, available: set<Digest>)
      returns (ok: bool, plan: Plan)
    requires 0 < maxEntries && 0 < maxBytes && UniqueIds(first) && UniqueIds(ms) && RangesSound(w.hs) && NamesFields(naming)
    requires forall i :: 0 <= i < |existing| ==> existing[i].Root?
    ensures ok ==>
              var stored := CountsOf(ms, AnalysisCache.SecondCounts(KeyOf(sha), r.tokens, size, maxEntries, maxBytes, first, ms));
              && Promises(w, r, ms, options, plan) && Built(w, r, stored, ms, options, naming, plan)
              && (WireValid(plan) <==> Counted(stored, ms, plan))
    ensures PrefixMonotone(w.count) && FitsCharacters(w.count) ==>
              (ok <==> AllCuttable(Chosen(w, r, ms, options), |Chosen(w, r, ms, options)|))
  {
    var cache := new AnalysisCache.LayeredCache(maxEntries, maxBytes);
    var earlierOk, earlier := PlanWithCache(cache, [], sha, size, w, r, first, options, naming, existing, available);
    ok, plan := PlanWithCache(cache, [] + first, sha, size, w, r, ms, options, naming, existing, available);
  }
}
