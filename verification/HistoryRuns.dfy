/** Whole reads: joining the pages of any run gives the recursive reader's leaves. */
module HistoryRuns {
  import opened Texts
  import opened Messages
  import opened Paging
  import opened HistoryReader

  // --------------------------------------------------------------- joining pages

  /** Append a page; when its cursor was inside a leaf, its first item continues the last one. */
  function Glue(acc: seq<Item>, items: seq<Item>, intra: nat): seq<Item> {
    if intra > 0 && acc != [] && items != [] then
      acc[..|acc| - 1] + [acc[|acc| - 1].(content := acc[|acc| - 1].content + items[0].content)] + items[1..]
    else acc + items
  }

  function JoinItems(acc: seq<Item>, intra: nat, pages: seq<Outcome>): seq<Item>
    requires forall p :: p in pages ==> p.PageRead?
    decreases |pages|
  {
    if pages == [] then acc
    else JoinItems(Glue(acc, pages[0].items, intra), pages[0].state.intra, pages[1..])
  }

  function JoinMissing(pages: seq<Outcome>): seq<Hash>
    requires forall p :: p in pages ==> p.PageRead?
  {
    if pages == [] then [] else pages[0].missing + JoinMissing(pages[1..])
  }

  /** Each page continues where the one before it stopped, under whatever limits it was given. */
  ghost predicate RunOf(store: Store, from: Frontier, pages: seq<Outcome>)
    decreases |pages|
  {
    pages == [] ||
    (pages[0].PageRead? && PageOf(store, from, pages[0]) && RunOf(store, pages[0].state, pages[1..]))
  }

  // ------------------------------------------------------------ items of a shift

  lemma {:induction false} ItemsOfSuffix(leaves: seq<Leaf>, n: nat, intra: nat, m: nat)
    requires 0 < m && n + m <= |leaves|
    ensures ItemsUpTo(leaves[n..], intra, m)
         == Piece(leaves[n], intra, Length(leaves[n])) + ItemsUpTo(leaves[n + 1..], 0, m - 1)
  {
    var suffix, after := leaves[n..], leaves[n + 1..];
    assert suffix[m - 1] == leaves[n + m - 1];
    if m == 1 {
      assert ItemsUpTo(suffix, intra, 0) == [] && ItemsUpTo(after, 0, 0) == [];
    } else {
      ItemsOfSuffix(leaves, n, intra, m - 1);
      assert after[m - 2] == leaves[n + m - 1];
      var last := leaves[n + m - 1];
      assert ItemsUpTo(suffix, intra, m) == ItemsUpTo(suffix, intra, m - 1) + Piece(last, 0, Length(last));
      assert ItemsUpTo(after, 0, m - 1) == ItemsUpTo(after, 0, m - 2) + Piece(last, 0, Length(last));
    }
  }

  lemma {:induction false} ItemsOfWhole(leaves: seq<Leaf>, n: nat, m: nat)
    requires 0 < m && n + m <= |leaves|
    ensures ItemsUpTo(leaves, 0, n + m)
         == ItemsUpTo(leaves, 0, n) + Piece(leaves[n], 0, Length(leaves[n])) + ItemsUpTo(leaves[n + 1..], 0, m - 1)
  {
    var after := leaves[n + 1..];
    if m == 1 {
      assert ItemsUpTo(after, 0, 0) == [];
    } else {
      ItemsOfWhole(leaves, n, m - 1);
      assert after[m - 2] == leaves[n + m - 1];
      var last := leaves[n + m - 1];
      assert ItemsUpTo(leaves, 0, n + m) == ItemsUpTo(leaves, 0, n + m - 1) + Piece(last, 0, Length(last));
      assert ItemsUpTo(after, 0, m - 1) == ItemsUpTo(after, 0, m - 2) + Piece(last, 0, Length(last));
    }
  }

  lemma {:induction false} MissingShift(leaves: seq<Leaf>, n: nat, m: nat)
    requires n + m <= |leaves|
    ensures MissingUpTo(leaves, n + m) == MissingUpTo(leaves, n) + MissingUpTo(leaves[n..], m)
  {
    if m > 0 {
      MissingShift(leaves, n, m - 1);
      assert leaves[n..][m - 1] == leaves[n + m - 1];
    }
  }

  /** Reading `n` leaves and stopping at `i`, then `m` more and stopping at `j`, is reading `n + m`. */
  lemma {:induction false} GlueStep(leaves: seq<Leaf>, n: nat, i: nat, m: nat, j: nat)
    requires n + m <= |leaves|
    requires i > 0 ==> n < |leaves| && leaves[n].text.Some? && i < Length(leaves[n])
    requires j >= From(m, i)
    requires j > From(m, i) ==> n + m < |leaves| && leaves[n + m].text.Some? && j < Length(leaves[n + m])
    ensures Glue(PageItems(leaves, 0, n, i), PageItems(leaves[n..], i, m, j), i) == PageItems(leaves, 0, n + m, j)
  {
    if m == 0 {
      GlueSame(leaves, n, i, j);
    } else {
      GlueMore(leaves, n, i, m, j);
    }
  }

  lemma {:induction false} GlueSame(leaves: seq<Leaf>, n: nat, i: nat, j: nat)
    requires n <= |leaves| && j >= i
    requires i > 0 ==> n < |leaves| && leaves[n].text.Some? && i < Length(leaves[n])
    requires j > i ==> n < |leaves| && leaves[n].text.Some? && j < Length(leaves[n])
    ensures Glue(PageItems(leaves, 0, n, i), PageItems(leaves[n..], i, 0, j), i) == PageItems(leaves, 0, n, j)
  {
    var acc, items := PageItems(leaves, 0, n, i), PageItems(leaves[n..], i, 0, j);
    if j == i {
      assert items == [];
      assert acc + items == acc;
    } else {
      assert leaves[n..][0] == leaves[n];
      var text := leaves[n].text.value;
      assert items == Piece(leaves[n], i, j);
      if i > 0 {
        assert text[0..i] + text[i..j] == text[0..j];
        assert acc == ItemsUpTo(leaves, 0, n) + Piece(leaves[n], 0, i);
        assert acc[..|acc| - 1] == ItemsUpTo(leaves, 0, n);
      } else {
        assert acc == ItemsUpTo(leaves, 0, n);
      }
    }
  }

  lemma {:induction false} GlueMore(leaves: seq<Leaf>, n: nat, i: nat, m: nat, j: nat)
    requires 0 < m && n + m <= |leaves|
    requires i > 0 ==> leaves[n].text.Some? && i < Length(leaves[n])
    requires j > 0 ==> n + m < |leaves|
    ensures Glue(PageItems(leaves, 0, n, i), PageItems(leaves[n..], i, m, j), i) == PageItems(leaves, 0, n + m, j)
  {
    ItemsOfSuffix(leaves, n, i, m);
    ItemsOfWhole(leaves, n, m);
    var before, rest := ItemsUpTo(leaves, 0, n), ItemsUpTo(leaves[n + 1..], 0, m - 1);
    var whole := Piece(leaves[n], 0, Length(leaves[n]));
    var last := if j > 0 then Piece(leaves[n + m], 0, j) else [];
    assert j > 0 ==> leaves[n..][m] == leaves[n + m];
    assert PageItems(leaves, 0, n + m, j) == before + whole + rest + last;
    assert PageItems(leaves[n..], i, m, j) == Piece(leaves[n], i, Length(leaves[n])) + rest + last;
    GlueParts(before, leaves[n], i, rest, last);
  }

  lemma {:induction false} GlueParts(before: seq<Item>, leaf: Leaf, i: nat, rest: seq<Item>, last: seq<Item>)
    requires i > 0 ==> leaf.text.Some? && i < Length(leaf)
    ensures Glue(before + (if i > 0 then Piece(leaf, 0, i) else []), Piece(leaf, i, Length(leaf)) + rest + last, i)
         == before + Piece(leaf, 0, Length(leaf)) + rest + last
  {
    if i > 0 {
      var text := leaf.text.value;
      var acc := before + Piece(leaf, 0, i);
      var items := Piece(leaf, i, |text|) + rest + last;
      assert text[0..i] + text[i..|text|] == text[0..|text|];
      assert acc[..|acc| - 1] == before;
      assert items[1..] == rest + last;
      assert Glue(acc, items, i) == before + Piece(leaf, 0, |text|) + (rest + last);
    } else {
      assert before + [] == before;
    }
  }

  // ------------------------------------------------------------------- the theorem

  lemma {:induction false} SameWalk(store: Store, stack: seq<Frame>, a: Walk, b: Walk)
    requires Tracks(store, stack, a) && Tracks(store, stack, b)
    ensures a == b
  {
    TracksRest(store, stack, a);
    TracksRest(store, stack, b);
  }

  /** The walk left by a page. */
  lemma {:induction false} PageEnds(store: Store, f: Frontier, w: Walk, page: Outcome) returns (now: Walk)
    requires Tracks(store, f.stack, w) && page.PageRead? && PageOf(store, f, page)
    ensures Tracks(store, page.state.stack, now) && PageBetween(w, now, f, page)
  {
    var start, end :|
      Tracks(store, f.stack, start) && Tracks(store, page.state.stack, end) && PageBetween(start, end, f, page);
    SameWalk(store, f.stack, start, w);
    now := end;
  }

  /** `n` leaves read, `f.intra` units into the next, and the rest is `w`. */
  ghost predicate Standing(leaves: seq<Leaf>, n: nat, intra: nat, w: Walk) {
    && n <= |leaves|
    && w.leaves == leaves[n..]
    && (intra > 0 ==> n < |leaves| && leaves[n].text.Some? && intra < Length(leaves[n]))
  }

  lemma {:induction false} StandsAfter(leaves: seq<Leaf>, n: nat, w: Walk, now: Walk, f: Frontier, page: Outcome, m: nat)
    requires Standing(leaves, n, f.intra, w) && page.PageRead? && PageBetween(w, now, f, page)
    requires m == page.state.ordinal - f.ordinal
    ensures Standing(leaves, n + m, page.state.intra, now)
    ensures page.state.intra >= From(m, f.intra)
    ensures page.state.intra > From(m, f.intra) ==>
              n + m < |leaves| && leaves[n + m].text.Some? && page.state.intra < Length(leaves[n + m])
  {
    assert w.leaves[m..] == leaves[n + m..];
    assert m < |w.leaves| ==> w.leaves[m] == leaves[n + m];
  }

  lemma {:induction false} PageAdds(leaves: seq<Leaf>, n: nat, w: Walk, now: Walk, f: Frontier, page: Outcome, m: nat)
    requires Standing(leaves, n, f.intra, w) && page.PageRead? && PageBetween(w, now, f, page)
    requires m == page.state.ordinal - f.ordinal && n + m <= |leaves|
    requires Standing(leaves, n + m, page.state.intra, now)
    ensures Glue(PageItems(leaves, 0, n, f.intra), page.items, f.intra) == PageItems(leaves, 0, n + m, page.state.intra)
    ensures MissingUpTo(leaves, n + m) == MissingUpTo(leaves, n) + page.missing
  {
    StandsAfter(leaves, n, w, now, f, page, m);
    GlueStep(leaves, n, f.intra, m, page.state.intra);
    MissingShift(leaves, n, m);
  }

  lemma {:induction false} PageMoves(leaves: seq<Leaf>, n: nat, w: Walk, now: Walk, f: Frontier, page: Outcome) returns (m: nat)
    requires Standing(leaves, n, f.intra, w) && page.PageRead? && PageBetween(w, now, f, page)
    ensures Standing(leaves, n + m, page.state.intra, now)
    ensures Glue(PageItems(leaves, 0, n, f.intra), page.items, f.intra) == PageItems(leaves, 0, n + m, page.state.intra)
    ensures MissingUpTo(leaves, n + m) == MissingUpTo(leaves, n) + page.missing
    ensures now.failed == w.failed
    ensures !page.more ==> n + m == |leaves| && page.state.intra == 0 && !w.failed
  {
    m := page.state.ordinal - f.ordinal;
    StandsAfter(leaves, n, w, now, f, page, m);
    PageAdds(leaves, n, w, now, f, page, m);
  }

  /** A run that read everything. */
  ghost predicate Complete(pages: seq<Outcome>) {
    pages != [] && (forall p :: p in pages ==> p.PageRead?) && !pages[|pages| - 1].more
  }

  lemma {:induction false} CompleteTail(pages: seq<Outcome>)
    requires Complete(pages) && |pages| > 1
    ensures Complete(pages[1..])
  {
    assert pages[1..][|pages| - 2] == pages[|pages| - 1];
    assert forall p :: p in pages[1..] ==> p in pages;
  }

  lemma {:induction false} LastPage(pages: seq<Outcome>, acc: seq<Item>, intra: nat)
    requires |pages| == 1 && pages[0].PageRead? && forall p :: p in pages ==> p.PageRead?
    ensures JoinItems(acc, intra, pages) == Glue(acc, pages[0].items, intra)
    ensures JoinMissing(pages) == pages[0].missing
  {
    assert pages[1..] == [];
  }

  /** `items` and `missing` are what was read before the frontier; stated through a quantifier to keep it folded. */
  ghost predicate Collected(leaves: seq<Leaf>, n: nat, intra: nat, items: seq<Item>, missing: seq<Hash>) {
    forall k: nat :: k == n <= |leaves| ==> items == PageItems(leaves, 0, k, intra) && missing == MissingUpTo(leaves, k)
  }

  lemma {:induction false} PageCollects(
      store: Store, leaves: seq<Leaf>, n: nat, w: Walk, f: Frontier, page: Outcome, items: seq<Item>, missing: seq<Hash>)
      returns (k: nat, now: Walk)
    requires Standing(leaves, n, f.intra, w) && Tracks(store, f.stack, w) && page.PageRead? && PageOf(store, f, page)
    requires Collected(leaves, n, f.intra, items, missing)
    ensures Standing(leaves, k, page.state.intra, now) && Tracks(store, page.state.stack, now) && now.failed == w.failed
    ensures Collected(leaves, k, page.state.intra, Glue(items, page.items, f.intra), missing + page.missing)
    ensures !page.more ==> k == |leaves| && page.state.intra == 0 && !w.failed
  {
    now := PageEnds(store, f, w, page);
    k := PageCollectsMore(leaves, n, w, now, f, page, items, missing);
  }

  lemma {:induction false} PageCollectsMore(
      leaves: seq<Leaf>, n: nat, w: Walk, now: Walk, f: Frontier, page: Outcome, items: seq<Item>, missing: seq<Hash>)
      returns (k: nat)
    requires Standing(leaves, n, f.intra, w) && page.PageRead? && PageBetween(w, now, f, page)
    requires Collected(leaves, n, f.intra, items, missing)
    ensures Standing(leaves, k, page.state.intra, now) && now.failed == w.failed
    ensures Collected(leaves, k, page.state.intra, Glue(items, page.items, f.intra), missing + page.missing)
    ensures !page.more ==> k == |leaves| && page.state.intra == 0 && !w.failed
  {
    var m := PageMoves(leaves, n, w, now, f, page);
    k := n + m;
    CollectedMoves(leaves, n, k, f.intra, page.state.intra, items, missing, page.items, page.missing);
  }

  lemma {:induction false} CollectedMoves(
      leaves: seq<Leaf>, n: nat, k: nat, intra: nat, stop: nat, items: seq<Item>, missing: seq<Hash>,
      more: seq<Item>, gaps: seq<Hash>)
    requires n <= |leaves| && k <= |leaves| && Collected(leaves, n, intra, items, missing)
    requires Glue(PageItems(leaves, 0, n, intra), more, intra) == PageItems(leaves, 0, k, stop)
    requires MissingUpTo(leaves, k) == MissingUpTo(leaves, n) + gaps
    ensures Collected(leaves, k, stop, Glue(items, more, intra), missing + gaps)
  {
    assert items == PageItems(leaves, 0, n, intra) && missing == MissingUpTo(leaves, n);
  }

  lemma {:induction false} AllCollected(leaves: seq<Leaf>, items: seq<Item>, missing: seq<Hash>)
    requires Collected(leaves, |leaves|, 0, items, missing)
    ensures items == ItemsUpTo(leaves, 0, |leaves|) && missing == MissingUpTo(leaves, |leaves|)
  {
    assert items == PageItems(leaves, 0, |leaves|, 0);
  }

  lemma {:induction false} RunMoves(
      store: Store, leaves: seq<Leaf>, n: nat, w: Walk, f: Frontier, pages: seq<Outcome>, items: seq<Item>, missing: seq<Hash>)
    requires Standing(leaves, n, f.intra, w) && Tracks(store, f.stack, w)
    requires RunOf(store, f, pages) && Complete(pages) && Collected(leaves, n, f.intra, items, missing)
    ensures Collected(leaves, |leaves|, 0, JoinItems(items, f.intra, pages), missing + JoinMissing(pages))
    ensures !w.failed
    decreases |pages|
  {
    var page := pages[0];
    var k, now := PageCollects(store, leaves, n, w, f, page, items, missing);
    var read := Glue(items, page.items, f.intra);
    if |pages| == 1 {
      LastPage(pages, items, f.intra);
    } else {
      CompleteTail(pages);
      RunMoves(store, leaves, k, now, page.state, pages[1..], read, missing + page.missing);
      assert missing + JoinMissing(pages) == missing + page.missing + JoinMissing(pages[1..]);
    }
  }

  /**
   * Joining the pages of a complete read, under any sequence of byte, token and count limits, gives
   * exactly the texts and gaps of the recursive reader, which then did not throw.
   */
  lemma PagesJoinToHistory(store: Store, root: Hash, pages: seq<Outcome>)
    requires RunOf(store, Frontier([Frame(root, 0)], 0, 0), pages) && Complete(pages)
    ensures var whole := HistoryLeaves(store, root, {});
            && !whole.failed
            && JoinItems([], 0, pages) == ItemsUpTo(whole.leaves, 0, |whole.leaves|)
            && JoinMissing(pages) == MissingUpTo(whole.leaves, |whole.leaves|)
  {
    StartIsHistory(store, root);
    var leaves := HistoryLeaves(store, root, {}).leaves;
    assert leaves[0..] == leaves;
    TracksRest(store, [Frame(root, 0)], HistoryLeaves(store, root, {}));
    RunMoves(store, leaves, 0, HistoryLeaves(store, root, {}), Frontier([Frame(root, 0)], 0, 0), pages, [], []);
    AllCollected(leaves, JoinItems([], 0, pages), [] + JoinMissing(pages));
    assert [] + JoinMissing(pages) == JoinMissing(pages);
  }

  /** An archive on which the recursive reader throws is never read to an end. */
  lemma FailedHistoryNeverCompletes(store: Store, root: Hash, pages: seq<Outcome>)
    requires RunOf(store, Frontier([Frame(root, 0)], 0, 0), pages) && pages != []
    requires forall p :: p in pages ==> p.PageRead?
    requires HistoryLeaves(store, root, {}).failed
    ensures pages[|pages| - 1].more
  {
    if !pages[|pages| - 1].more {
      PagesJoinToHistory(store, root, pages);
    }
  }

  // --------------------------------------------------------------- never refused

  ghost predicate TextsSound(leaves: seq<Leaf>) {
    forall i :: 0 <= i < |leaves| && leaves[i].text.Some? ==> NoLoneLow(leaves[i].text.value)
  }

  /** The saved position inside the next leaf is one a page may start from. */
  ghost predicate Resumes(leaves: seq<Leaf>, intra: nat) {
    intra > 0 ==> leaves != [] && leaves[0].text.Some? && Accepted(leaves[0].text.value, intra)
  }

  lemma {:induction false} StartAccepted(text: Texts.Text)
    requires NoLoneLow(text)
    ensures Accepted(text, 0)
  {
  }

  /**
   * With texts free of lone low surrogates and budgets of at least four bytes, a page of a saved
   * frontier is never refused, and the frontier it saves can be resumed again.
   */
  lemma PagesNeverRefused(leaves: seq<Leaf>, intra: nat, budget: int, error: PageError)
    requires TextsSound(leaves) && Resumes(leaves, intra) && budget >= 4
    ensures !UnreadableAt(leaves, intra, budget, error)
  {
    forall n: nat | n < |leaves| && leaves[n].text.Some?
      ensures !Refused(leaves[n].text.value, From(n, intra), budget, error)
    {
      StartAccepted(leaves[n].text.value);
    }
  }

  lemma PagesStayResumable(start: Walk, now: Walk, f: Frontier, page: Outcome)
    requires page.PageRead? && PageBetween(start, now, f, page)
    requires TextsSound(start.leaves) && Resumes(start.leaves, f.intra)
    ensures TextsSound(now.leaves) && Resumes(now.leaves, page.state.intra)
  {
    var leaves, n := start.leaves, page.state.ordinal - f.ordinal;
    assert forall i :: 0 <= i < |leaves[n..]| ==> leaves[n..][i] == leaves[n + i];
    if page.state.intra > From(n, f.intra) {
      var text := leaves[n].text.value;
      StartAccepted(text);
      var size: nat :| Reaches(text, From(n, f.intra), page.state.intra, size);
      ReachesAccepted(text, From(n, f.intra), page.state.intra, size);
    }
  }
}
