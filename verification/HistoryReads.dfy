/** Reading an archive page by page to its end: how many pages there are, and how the read ends. */
module HistoryReads {
  import opened Texts
  import opened Messages
  import opened Paging
  import opened HistoryReader
  import opened HistoryRuns

  // ------------------------------------------------------------------- how many pages

  /** Units still to be read, counting every leaf as one more than its text. */
  function Unread(leaves: seq<Leaf>): nat {
    if leaves == [] then 0 else Length(leaves[0]) + 1 + Unread(leaves[1..])
  }

  /** The saved position lies inside the next leaf. */
  predicate Inside(leaves: seq<Leaf>, intra: nat) {
    intra <= if leaves == [] then 0 else Length(leaves[0])
  }

  lemma {:induction false} UnreadAfter(leaves: seq<Leaf>, n: nat)
    requires 0 < n <= |leaves|
    ensures Unread(leaves) >= Unread(leaves[n..]) + Length(leaves[0]) + 1
    decreases n
  {
    if n > 1 {
      UnreadAfter(leaves[1..], n - 1);
      assert leaves[1..][n - 1..] == leaves[n..];
    }
  }

  lemma {:induction false} InsideIsUnread(leaves: seq<Leaf>, intra: nat)
    requires Inside(leaves, intra)
    ensures intra <= Unread(leaves)
  {
  }

  /** Every unfinished page leaves strictly less to read. */
  lemma {:induction false} PageShrinks(w: Walk, now: Walk, f: Frontier, page: Outcome)
    requires page.PageRead? && PageBetween(w, now, f, page) && Inside(w.leaves, f.intra)
    ensures Inside(now.leaves, page.state.intra)
    ensures page.more ==> Unread(now.leaves) - page.state.intra < Unread(w.leaves) - f.intra
  {
    var n := page.state.ordinal - f.ordinal;
    if n > 0 {
      UnreadAfter(w.leaves, n);
    } else {
      assert w.leaves[0..] == w.leaves;
    }
  }

  /** No run of unfinished pages, under whatever limits, is longer than what there is to read. */
  lemma {:induction false} RunBound(store: Store, w: Walk, f: Frontier, pages: seq<Outcome>)
    requires Tracks(store, f.stack, w) && Inside(w.leaves, f.intra) && RunOf(store, f, pages)
    requires forall p :: p in pages ==> p.PageRead? && p.more
    ensures |pages| + f.intra <= Unread(w.leaves)
    decreases |pages|
  {
    InsideIsUnread(w.leaves, f.intra);
    if pages != [] {
      var now := PageEnds(store, f, w, pages[0]);
      PageShrinks(w, now, f, pages[0]);
      assert forall p :: p in pages[1..] ==> p in pages;
      RunBound(store, now, pages[0].state, pages[1..]);
    }
  }

  /** So a read of a whole archive is over after a bounded number of pages. */
  lemma PagesAreBounded(store: Store, root: Hash, pages: seq<Outcome>)
    requires RunOf(store, Frontier([Frame(root, 0)], 0, 0), pages)
    requires forall p :: p in pages ==> p.PageRead? && p.more
    ensures |pages| <= Unread(HistoryLeaves(store, root, {}).leaves)
  {
    var whole := HistoryLeaves(store, root, {});
    StartIsHistory(store, root);
    TracksRest(store, [Frame(root, 0)], whole);
    RunBound(store, whole, Frontier([Frame(root, 0)], 0, 0), pages);
  }

  // ------------------------------------------------------------------- how a read ends

  datatype Limits = Limits(bytes: Option<int>, tokens: Option<int>, count: Option<int>)

  /** Positive limits that admit any one code point. */
  predicate Usable(limits: Limits) {
    && BudgetGiven(limits.bytes) && BudgetGiven(limits.tokens) && BudgetGiven(limits.count)
    && WithinLimits(limits.bytes, limits.tokens, 4)
  }

  /** Where a run of pages stops. */
  function EndOf(from: Frontier, pages: seq<Outcome>): Frontier
    requires forall p :: p in pages ==> p.PageRead?
  {
    if pages == [] then from else pages[|pages| - 1].state
  }

  lemma {:induction false} RunPush(store: Store, from: Frontier, pages: seq<Outcome>, page: Outcome)
    requires (forall p :: p in pages ==> p.PageRead?) && RunOf(store, from, pages)
    requires page.PageRead? && PageOf(store, EndOf(from, pages), page)
    ensures RunOf(store, from, pages + [page])
    decreases |pages|
  {
    if pages == [] {
      assert [page][1..] == [];
    } else {
      assert (pages + [page])[1..] == pages[1..] + [page];
      assert EndOf(pages[0].state, pages[1..]) == EndOf(from, pages);
      RunPush(store, pages[0].state, pages[1..], page);
    }
  }

  /** A saved frontier, what it leaves unread, and that it can be read on. */
  ghost predicate Ready(store: Store, f: Frontier, w: Walk) {
    Tracks(store, f.stack, w) && StackValid(f.stack) && TextsSound(w.leaves) && Resumes(w.leaves, f.intra) && Inside(w.leaves, f.intra)
  }

  /** One page of a sound archive: read, or the archive's lineage is invalid. */
  method NextPage(store: Store, f: Frontier, limits: Limits, ghost w: Walk) returns (r: Outcome, ghost now: Walk)
    requires StoreValid(store) && Ready(store, f, w) && Usable(limits)
    ensures r.InvalidLineage? ==> w.failed
    ensures !r.InvalidLineage? ==>
              && r.PageRead? && PageOf(store, f, r) && Ready(store, r.state, now) && now.failed == w.failed
              && (!r.more ==> !w.failed)
              && (r.more ==> Unread(now.leaves) - r.state.intra < Unread(w.leaves) - f.intra)
  {
    TracksRest(store, f.stack, w);
    r := ReadHistoryPage(store, f, limits.bytes, limits.tokens, limits.count);
    now := w;
    if r.Unreadable? {
      LimitsAreBudget(limits.bytes, limits.tokens, limits.count, 4);
      PagesNeverRefused(w.leaves, f.intra, PageBudget(limits.bytes, limits.tokens), r.error);
      assert false;
    }
    if r.PageRead? {
      now := PageEnds(store, f, w, r);
      PagesStayResumable(w, now, f, r);
      PageShrinks(w, now, f, r);
    }
  }

  /** Positions of the leaves below `n` that have a text, or of those that have none, in order. */
  function Positions(leaves: seq<Leaf>, readable: bool, n: nat): (at: seq<nat>)
    requires n <= |leaves|
    ensures forall k: nat :: k in at <==> k < n && leaves[k].text.Some? == readable
    ensures forall i, j :: 0 <= i < j < |at| ==> at[i] < at[j]
    ensures forall i :: 0 <= i < |at| ==> at[i] < n
  {
    if n == 0 then []
    else
      var before := Positions(leaves, readable, n - 1);
      if leaves[n - 1].text.Some? == readable then before + [n - 1] else before
  }

  /** One item for each readable leaf, with its row's hash, role and turn, and its whole text; the others are named as missing. */
  ghost predicate WholeTexts(leaves: seq<Leaf>, items: seq<Item>, missing: seq<Hash>) {
    && TextsAt(leaves, Positions(leaves, true, |leaves|), items)
    && GapsAt(leaves, Positions(leaves, false, |leaves|), missing)
  }

  predicate TextsAt(leaves: seq<Leaf>, at: seq<nat>, items: seq<Item>) {
    && |items| == |at| && (forall i :: 0 <= i < |at| ==> at[i] < |leaves|)
    && (forall i :: 0 <= i < |items| ==>
          && items[i].contentHash == leaves[at[i]].row.hash && items[i].role == leaves[at[i]].row.role
          && items[i].turnIndex == leaves[at[i]].row.turnIndex && leaves[at[i]].text == Some(items[i].content))
  }

  predicate GapsAt(leaves: seq<Leaf>, at: seq<nat>, missing: seq<Hash>) {
    && |missing| == |at| && (forall i :: 0 <= i < |at| ==> at[i] < |leaves|)
    && (forall i :: 0 <= i < |missing| ==> missing[i] == leaves[at[i]].row.hash)
  }

  lemma {:induction false} ItemsUpToTexts(leaves: seq<Leaf>, n: nat)
    requires n <= |leaves|
    ensures TextsAt(leaves, Positions(leaves, true, n), ItemsUpTo(leaves, 0, n))
  {
    if n > 0 {
      ItemsUpToTexts(leaves, n - 1);
      TextsOneMore(leaves, Positions(leaves, true, n - 1), ItemsUpTo(leaves, 0, n - 1), n - 1,
                   Positions(leaves, true, n), ItemsUpTo(leaves, 0, n));
    }
  }

  lemma TextsOneMore(leaves: seq<Leaf>, at: seq<nat>, items: seq<Item>, k: nat, grown: seq<nat>, more: seq<Item>)
    requires TextsAt(leaves, at, items) && k < |leaves|
    requires grown == if leaves[k].text.Some? then at + [k] else at
    requires more == items + Piece(leaves[k], 0, Length(leaves[k]))
    ensures TextsAt(leaves, grown, more)
  {
    if leaves[k].text.Some? {
      assert leaves[k].text.value[0..|leaves[k].text.value|] == leaves[k].text.value;
    } else {
      assert items + [] == items;
    }
  }

  lemma {:induction false} MissingUpToGaps(leaves: seq<Leaf>, n: nat)
    requires n <= |leaves|
    ensures GapsAt(leaves, Positions(leaves, false, n), MissingUpTo(leaves, n))
  {
    if n > 0 {
      MissingUpToGaps(leaves, n - 1);
      GapsOneMore(leaves, Positions(leaves, false, n - 1), MissingUpTo(leaves, n - 1), n - 1);
    }
  }

  lemma GapsOneMore(leaves: seq<Leaf>, at: seq<nat>, missing: seq<Hash>, k: nat)
    requires GapsAt(leaves, at, missing) && k < |leaves|
    ensures GapsAt(leaves, at + [k], missing + [leaves[k].row.hash]) && GapsAt(leaves, at + [], missing + [])
  {
    assert at + [] == at && missing + [] == missing;
  }

  lemma ItemsAreTexts(leaves: seq<Leaf>)
    ensures WholeTexts(leaves, ItemsUpTo(leaves, 0, |leaves|), MissingUpTo(leaves, |leaves|))
  {
    ItemsUpToTexts(leaves, |leaves|);
    MissingUpToGaps(leaves, |leaves|);
  }

  /**
   * Reading on from the frontier each page saves, under any usable limits. On an archive with well-formed
   * texts the read ends: in "Invalid archive lineage" exactly when the recursive reader throws, and
   * otherwise with all its texts.
   */
  method ReadAll(store: Store, root: Hash, limits: nat -> Limits) returns (pages: seq<Outcome>, invalid: bool)
    requires StoreValid(store) && TextsSound(HistoryLeaves(store, root, {}).leaves) && forall i :: Usable(limits(i))
    ensures invalid <==> HistoryLeaves(store, root, {}).failed
    ensures (forall p :: p in pages ==> p.PageRead?) && RunOf(store, Frontier([Frame(root, 0)], 0, 0), pages)
    ensures !invalid ==>
              var whole := HistoryLeaves(store, root, {});
              && Complete(pages)
              && JoinItems([], 0, pages) == ItemsUpTo(whole.leaves, 0, |whole.leaves|)
              && JoinMissing(pages) == MissingUpTo(whole.leaves, |whole.leaves|)
    ensures !invalid ==> WholeTexts(HistoryLeaves(store, root, {}).leaves, JoinItems([], 0, pages), JoinMissing(pages))
  {
    ghost var whole := HistoryLeaves(store, root, {});
    StartIsHistory(store, root);
    TracksRest(store, [Frame(root, 0)], whole);
    pages, invalid := ReadOn(store, Frontier([Frame(root, 0)], 0, 0), limits, whole);
    if !invalid {
      PagesJoinToHistory(store, root, pages);
      ItemsAreTexts(whole.leaves);
    }
  }

  method ReadOn(store: Store, start: Frontier, limits: nat -> Limits, ghost w: Walk) returns (pages: seq<Outcome>, invalid: bool)
    requires StoreValid(store) && Ready(store, start, w) && forall i :: Usable(limits(i))
    ensures (forall p :: p in pages ==> p.PageRead?) && RunOf(store, start, pages)
    ensures (invalid <==> w.failed) && (!invalid ==> Complete(pages))
  {
    var f := start;
    ghost var now := w;
    pages, invalid := [], false;
    while true
      invariant Ready(store, f, now) && now.failed == w.failed
      invariant (forall p :: p in pages ==> p.PageRead?) && RunOf(store, start, pages) && EndOf(start, pages) == f
      decreases Unread(now.leaves) - f.intra
    {
      InsideIsUnread(now.leaves, f.intra);
      var page;
      page, now := NextPage(store, f, limits(|pages|), now);
      if page.InvalidLineage? {
        return pages, true;
      }
      RunPush(store, start, pages, page);
      pages := pages + [page];
      f := page.state;
      if !page.more {
        return pages, false;
      }
    }
  }
}
