/** The archives that a read of a nested history meets: when it fails, and what it yields, in terms of chains. */
module HistoryLineage {
  import opened Texts
  import opened HistoryReader

  /** One of the rows of `hash` is the confirmed child archive `child`. */
  predicate Opens(store: Store, hash: Hash, child: Hash) {
    exists k :: 0 <= k < |Rows(store, hash)| && ContentOf(store, Rows(store, hash)[k]) == Child(child)
  }

  /** Distinct archives, each a child of the one before, the first of them `hash`. */
  ghost predicate Chain(store: Store, hash: Hash, chain: seq<Hash>) {
    && chain != [] && chain[0] == hash
    && (forall i, j :: 0 <= i < j < |chain| ==> chain[i] != chain[j])
    && forall i, j :: 0 <= i < |chain| && j == i + 1 < |chain| ==> Opens(store, chain[i], chain[j])
  }

  /** The chain continues inside an archive that is open already, or with the 129th one. */
  ghost predicate Broken(store: Store, hash: Hash, lineage: set<Hash>, chain: seq<Hash>, child: Hash) {
    && Chain(store, hash, chain) && Opens(store, chain[|chain| - 1], child)
    && (forall i :: 0 < i < |chain| ==> chain[i] !in lineage)
    && (child in lineage || child in chain || |lineage| + |chain| > 128)
  }

  ghost predicate Breaks(store: Store, hash: Hash, lineage: set<Hash>) {
    exists chain, child :: Broken(store, hash, lineage, chain, child)
  }

  lemma ChainTail(store: Store, hash: Hash, chain: seq<Hash>)
    requires Chain(store, hash, chain) && |chain| > 1
    ensures Chain(store, chain[1], chain[1..]) && Opens(store, hash, chain[1])
  {
    var rest := chain[1..];
    forall i, j | 0 <= i < |rest| && j == i + 1 < |rest|
      ensures Opens(store, rest[i], rest[j])
    {
      assert rest[i] == chain[i + 1] && rest[j] == chain[j + 1];
    }
  }

  lemma ChainLonger(store: Store, hash: Hash, child: Hash, chain: seq<Hash>)
    requires Chain(store, child, chain) && Opens(store, hash, child) && hash !in chain
    ensures Chain(store, hash, [hash] + chain)
  {
    var longer := [hash] + chain;
    forall i, j | 0 <= i < |longer| && j == i + 1 < |longer|
      ensures Opens(store, longer[i], longer[j])
    {
      if i > 0 {
        assert longer[i] == chain[i - 1] && longer[j] == chain[i];
      }
    }
    assert forall i :: 0 <= i < |chain| ==> chain[i] in chain;
  }

  /** What the walk does with row `k`. */
  function Inner(store: Store, lineage: set<Hash>, child: Hash): Walk {
    if child in lineage || |lineage| >= MAX_DEPTH then Walk([], true, 1)
    else LeavesFrom(store, child, lineage + {child}, 0)
  }

  lemma {:induction false} FailedAt(store: Store, hash: Hash, lineage: set<Hash>, k: nat)
    requires LeavesFrom(store, hash, lineage, k).failed
    ensures exists i, child :: k <= i < |Rows(store, hash)| && ContentOf(store, Rows(store, hash)[i]) == Child(child)
                               && Inner(store, lineage, child).failed
    decreases |Rows(store, hash)| - k
  {
    if k < |Rows(store, hash)| {
      var value := ContentOf(store, Rows(store, hash)[k]);
      if !(value.Child? && Inner(store, lineage, value.hash).failed) {
        FailedAt(store, hash, lineage, k + 1);
      }
    }
  }

  lemma {:induction false} FailsAt(store: Store, hash: Hash, lineage: set<Hash>, k: nat, i: nat, child: Hash)
    requires k <= i < |Rows(store, hash)| && ContentOf(store, Rows(store, hash)[i]) == Child(child)
    requires Inner(store, lineage, child).failed
    ensures LeavesFrom(store, hash, lineage, k).failed
    decreases i - k
  {
    if k < i {
      FailsAt(store, hash, lineage, k + 1, i, child);
    }
  }

  lemma {:induction false} FailureBreaks(store: Store, hash: Hash, lineage: set<Hash>)
    requires hash in lineage && |lineage| <= MAX_DEPTH && LeavesFrom(store, hash, lineage, 0).failed
    ensures Breaks(store, hash, lineage)
    decreases MAX_DEPTH - |lineage|
  {
    FailedAt(store, hash, lineage, 0);
    var i, child :| 0 <= i < |Rows(store, hash)| && ContentOf(store, Rows(store, hash)[i]) == Child(child)
                    && Inner(store, lineage, child).failed;
    assert Opens(store, hash, child);
    if child in lineage || |lineage| >= MAX_DEPTH {
      assert Broken(store, hash, lineage, [hash], child);
    } else {
      FailureBreaks(store, child, lineage + {child});
      var chain, broken :| Broken(store, child, lineage + {child}, chain, broken);
      BrokenLonger(store, hash, lineage, child, chain, broken);
    }
  }

  lemma BrokenLonger(store: Store, hash: Hash, lineage: set<Hash>, child: Hash, chain: seq<Hash>, broken: Hash)
    requires hash in lineage && child !in lineage && Opens(store, hash, child)
    requires Broken(store, child, lineage + {child}, chain, broken)
    ensures Broken(store, hash, lineage, [hash] + chain, broken)
  {
    forall i | 0 <= i < |chain|
      ensures chain[i] !in lineage
    {
      if i > 0 {
        assert chain[i] !in lineage + {child};
      }
    }
    ChainLonger(store, hash, child, chain);
    var longer := [hash] + chain;
    assert longer[|longer| - 1] == chain[|chain| - 1];
    assert chain[0] == child && child in chain;
    assert forall i :: 0 < i < |longer| ==> longer[i] == chain[i - 1];
    assert forall x :: x in chain ==> x in longer;
    assert |lineage + {child}| == |lineage| + 1;
  }

  lemma {:induction false} BreakFails(store: Store, hash: Hash, lineage: set<Hash>, chain: seq<Hash>, child: Hash)
    requires hash in lineage && |lineage| <= MAX_DEPTH && Broken(store, hash, lineage, chain, child)
    ensures LeavesFrom(store, hash, lineage, 0).failed
    decreases |chain|
  {
    var next := if |chain| == 1 then child else chain[1];
    if |chain| > 1 {
      ChainTail(store, hash, chain);
      assert next !in lineage;
      if |lineage| < MAX_DEPTH {
        BrokenTail(store, hash, lineage, chain, child);
        BreakFails(store, next, lineage + {next}, chain[1..], child);
      }
    }
    var i :| 0 <= i < |Rows(store, hash)| && ContentOf(store, Rows(store, hash)[i]) == Child(next);
    FailsAt(store, hash, lineage, 0, i, next);
  }

  lemma BrokenTail(store: Store, hash: Hash, lineage: set<Hash>, chain: seq<Hash>, child: Hash)
    requires hash in lineage && Broken(store, hash, lineage, chain, child) && |chain| > 1
    ensures Broken(store, chain[1], lineage + {chain[1]}, chain[1..], child)
  {
    ChainTail(store, hash, chain);
    assert chain == [hash] + chain[1..];
    assert |lineage + {chain[1]}| == |lineage| + 1;
  }

  /**
   * Reading a history fails exactly when some chain of nested archives runs back into itself or is longer
   * than 128: "Invalid archive lineage".
   */
  lemma FailsExactly(store: Store, root: Hash)
    ensures HistoryLeaves(store, root, {}).failed <==> Breaks(store, root, {root})
  {
    assert {} + {root} == {root};
    if Breaks(store, root, {root}) {
      var chain, child :| Broken(store, root, {root}, chain, child);
      BreakFails(store, root, {root}, chain, child);
    }
    if HistoryLeaves(store, root, {}).failed {
      FailureBreaks(store, root, {root});
    }
  }

  // --------------------------------------------------------------------- what is yielded

  /** The leaf is a row of the archive at the end of a chain, with the text of its object if it has one. */
  ghost predicate LeafOn(store: Store, hash: Hash, chain: seq<Hash>, leaf: Leaf) {
    && Chain(store, hash, chain)
    && leaf.row in Rows(store, chain[|chain| - 1])
    && match ContentOf(store, leaf.row)
       case Missing => leaf.text.None?
       case Text(text) => leaf.text == Some(text)
       case Child(_) => false
  }

  lemma {:induction false} LeafYielded(store: Store, hash: Hash, lineage: set<Hash>, k: nat, i: nat, leaf: Leaf)
    requires !LeavesFrom(store, hash, lineage, k).failed && k <= i < |Rows(store, hash)|
    requires match ContentOf(store, Rows(store, hash)[i])
             case Missing => leaf == Leaf(Rows(store, hash)[i], None)
             case Text(text) => leaf == Leaf(Rows(store, hash)[i], Some(text))
             case Child(child) => leaf in Inner(store, lineage, child).leaves
    ensures leaf in LeavesFrom(store, hash, lineage, k).leaves
    decreases i - k
  {
    if k < i {
      LeafYielded(store, hash, lineage, k + 1, i, leaf);
    }
  }

  lemma {:induction false} ChildSound(store: Store, hash: Hash, lineage: set<Hash>, k: nat, i: nat, child: Hash)
    requires !LeavesFrom(store, hash, lineage, k).failed && k <= i < |Rows(store, hash)|
    requires ContentOf(store, Rows(store, hash)[i]) == Child(child)
    ensures !Inner(store, lineage, child).failed
    decreases i - k
  {
    if k < i {
      ChildSound(store, hash, lineage, k + 1, i, child);
    }
  }

  lemma {:induction false} ChainIsYielded(store: Store, hash: Hash, lineage: set<Hash>, chain: seq<Hash>, leaf: Leaf)
    requires hash in lineage && |lineage| <= MAX_DEPTH && LeafOn(store, hash, chain, leaf)
    requires !LeavesFrom(store, hash, lineage, 0).failed
    ensures leaf in LeavesFrom(store, hash, lineage, 0).leaves
    decreases |chain|
  {
    if |chain| == 1 {
      var i :| 0 <= i < |Rows(store, hash)| && Rows(store, hash)[i] == leaf.row;
      LeafYielded(store, hash, lineage, 0, i, leaf);
    } else {
      ChainTail(store, hash, chain);
      var i :| 0 <= i < |Rows(store, hash)| && ContentOf(store, Rows(store, hash)[i]) == Child(chain[1]);
      ChildSound(store, hash, lineage, 0, i, chain[1]);
      assert chain[1..][|chain| - 2] == chain[|chain| - 1];
      ChainIsYielded(store, chain[1], lineage + {chain[1]}, chain[1..], leaf);
      LeafYielded(store, hash, lineage, 0, i, leaf);
    }
  }

  lemma {:induction false} YieldedHasChain(store: Store, hash: Hash, lineage: set<Hash>, k: nat, leaf: Leaf) returns (chain: seq<Hash>)
    requires hash in lineage && |lineage| <= MAX_DEPTH && leaf in LeavesFrom(store, hash, lineage, k).leaves
    ensures LeafOn(store, hash, chain, leaf) && forall i :: 0 < i < |chain| ==> chain[i] !in lineage
    decreases MAX_DEPTH - |lineage|, |Rows(store, hash)| - k
  {
    var row := Rows(store, hash)[k];
    match ContentOf(store, row)
    case Child(child) =>
      if leaf in Inner(store, lineage, child).leaves {
        chain := YieldedHasChain(store, child, lineage + {child}, 0, leaf);
        assert Opens(store, hash, child);
        assert forall i :: 0 <= i < |chain| ==> chain[i] !in lineage;
        ChainLonger(store, hash, child, chain);
        chain := [hash] + chain;
      } else {
        chain := YieldedHasChain(store, hash, lineage, k + 1, leaf);
      }
    case _ =>
      if leaf.row == row && leaf == LeavesFrom(store, hash, lineage, k).leaves[0] {
        chain := [hash];
      } else {
        chain := YieldedHasChain(store, hash, lineage, k + 1, leaf);
      }
  }

  /** A read that does not fail yields exactly the rows, other than child archives, of the archives on chains from the root. */
  lemma YieldsExactly(store: Store, root: Hash, leaf: Leaf)
    requires !HistoryLeaves(store, root, {}).failed
    ensures leaf in HistoryLeaves(store, root, {}).leaves <==> exists chain :: LeafOn(store, root, chain, leaf)
  {
    assert {} + {root} == {root};
    if leaf in HistoryLeaves(store, root, {}).leaves {
      var chain := YieldedHasChain(store, root, {root}, 0, leaf);
    }
    if exists chain :: LeafOn(store, root, chain, leaf) {
      var chain :| LeafOn(store, root, chain, leaf);
      ChainIsYielded(store, root, {root}, chain, leaf);
    }
  }
}
