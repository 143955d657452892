/** Reading a node's descendants to the end: what is listed, when it fails, and how many pages it takes. */
module NodeReads {
  import opened Texts
  import opened NodeRetrieval

  // --------------------------------------------------------------- what the walk lists

  /** From child `j` on, a walk without a fault visits child `k` without a fault and lists what it finds there. */
  lemma {:induction false} ChildVisited(src: Source, hash: Hash, lineage: set<Hash>, level: nat, j: nat, k: nat)
    requires hash in src.nodes && !Ends(src, hash, level) && j <= k < |src.nodes[hash].children|
    requires ChildrenFrom(src, hash, lineage, level, j).fault.None?
    ensures var child := src.nodes[hash].children[k];
            && child !in lineage
            && Visit(src, child, lineage + {child}, level + 1).fault.None?
            && forall entry :: entry in Visit(src, child, lineage + {child}, level + 1).entries ==>
                 entry in ChildrenFrom(src, hash, lineage, level, j).entries
    decreases k - j
  {
    ChildStep(src, hash, lineage, level, j);
    if j < k {
      ChildVisited(src, hash, lineage, level, j + 1, k);
    }
  }

  lemma {:induction false} PathTail(src: Source, hash: Hash, path: seq<Hash>)
    requires PathFrom(src, hash, path) && |path| > 1
    ensures PathFrom(src, path[1], path[1..]) && path[1] in src.nodes[hash].children
  {
    var rest := path[1..];
    forall i, j | 0 <= i && j == i + 1 < |rest|
      ensures rest[j] in src.nodes[rest[i]].children
    {
      assert rest[i] == path[i + 1] && rest[j] == path[j + 1];
    }
  }

  /** A walk without a fault lists every childless descendant within the depth, and every node at it. */
  lemma {:induction false} EndsListed(src: Source, hash: Hash, lineage: set<Hash>, level: nat, entry: Entry, path: seq<Hash>)
    requires Visit(src, hash, lineage, level).fault.None? && EndsPath(src, hash, level, entry, path)
    ensures entry in Visit(src, hash, lineage, level).entries
    decreases |path|
  {
    if |path| > 1 {
      PathTail(src, hash, path);
      var child := path[1];
      var k :| 0 <= k < |src.nodes[hash].children| && src.nodes[hash].children[k] == child;
      ChildVisited(src, hash, lineage, level, 0, k);
      assert path[1..][|path| - 2] == entry.nodeId;
      EndsListed(src, child, lineage + {child}, level + 1, entry, path[1..]);
    }
  }

  /** Exactly: the entries of a walk without a fault are the ends of the paths from its root. */
  lemma EntriesAreEnds(src: Source, root: Hash, entry: Entry)
    requires Visit(src, root, {root}, 0).fault.None?
    ensures entry in Visit(src, root, {root}, 0).entries <==> IsEnd(src, root, 0, entry)
  {
    EntriesEnd(src, root, {root}, 0);
    if IsEnd(src, root, 0, entry) {
      var path :| EndsPath(src, root, 0, entry, path);
      EndsListed(src, root, {root}, 0, entry, path);
    }
  }

  // ------------------------------------------------------------------ when it throws

  /** The last node of the path is opened, and one of its children is missing or open already. */
  ghost predicate BreaksAt(src: Source, hash: Hash, lineage: set<Hash>, level: nat, path: seq<Hash>, child: Hash) {
    && PathFrom(src, hash, path) && level + |path| - 1 < src.depth
    && child in src.nodes[path[|path| - 1]].children
    && (child !in src.nodes || child in lineage || child in path)
  }

  ghost predicate Breaks(src: Source, hash: Hash, lineage: set<Hash>, level: nat) {
    hash !in src.nodes || exists path, child :: BreaksAt(src, hash, lineage, level, path, child)
  }

  lemma {:induction false} FaultBreaks(src: Source, hash: Hash, lineage: set<Hash>, level: nat)
    requires Visit(src, hash, lineage, level).fault.Some?
    ensures Breaks(src, hash, lineage, level)
    decreases if level <= src.depth then src.depth - level else 0, 1, 0
  {
    if hash in src.nodes {
      ChildFaultBreaks(src, hash, lineage, level, 0);
    }
  }

  lemma {:induction false} ChildFaultBreaks(src: Source, hash: Hash, lineage: set<Hash>, level: nat, k: nat)
    requires hash in src.nodes && !Ends(src, hash, level) && k <= |src.nodes[hash].children|
    requires ChildrenFrom(src, hash, lineage, level, k).fault.Some?
    ensures Breaks(src, hash, lineage, level)
    decreases src.depth - level, 0, |src.nodes[hash].children| - k
  {
    var child := src.nodes[hash].children[k];
    if child in lineage {
      assert BreaksAt(src, hash, lineage, level, [hash], child);
    } else if Visit(src, child, lineage + {child}, level + 1).fault.Some? {
      FaultBreaks(src, child, lineage + {child}, level + 1);
      ParentBreaks(src, hash, lineage, level, child);
    } else {
      ChildFaultBreaks(src, hash, lineage, level, k + 1);
    }
  }

  lemma {:induction false} ParentBreaks(src: Source, hash: Hash, lineage: set<Hash>, level: nat, child: Hash)
    requires hash in src.nodes && !Ends(src, hash, level) && child in src.nodes[hash].children
    requires Breaks(src, child, lineage + {child}, level + 1)
    ensures Breaks(src, hash, lineage, level)
  {
    if child !in src.nodes {
      assert BreaksAt(src, hash, lineage, level, [hash], child);
    } else {
      var path, broken :| BreaksAt(src, child, lineage + {child}, level + 1, path, broken);
      var longer := [hash] + path;
      forall i, j | 0 <= i && j == i + 1 < |longer|
        ensures longer[j] in src.nodes[longer[i]].children
      {
        if i > 0 {
          assert path[i - 1] == longer[i] && path[i] == longer[j];
        }
      }
      assert longer[|longer| - 1] == path[|path| - 1] && path[0] == child && child in longer;
      assert BreaksAt(src, hash, lineage, level, longer, broken);
    }
  }

  lemma {:induction false} BreakFaults(src: Source, hash: Hash, lineage: set<Hash>, level: nat, path: seq<Hash>, child: Hash)
    requires hash in lineage && BreaksAt(src, hash, lineage, level, path, child)
    ensures Visit(src, hash, lineage, level).fault.Some?
    decreases |path|
  {
    if Visit(src, hash, lineage, level).fault.None? {
      var next := if |path| == 1 then child else path[1];
      if |path| > 1 {
        PathTail(src, hash, path);
      }
      var k :| 0 <= k < |src.nodes[hash].children| && src.nodes[hash].children[k] == next;
      ChildVisited(src, hash, lineage, level, 0, k);
      if |path| > 1 {
        assert path == [hash] + path[1..];
        BreakFaults(src, next, lineage + {next}, level + 1, path[1..], child);
      }
    }
  }

  /** A read throws exactly when some path within the depth leads to a missing child or back into itself. */
  lemma FaultsExactly(src: Source, root: Hash)
    ensures Visit(src, root, {root}, 0).fault.Some? <==> Breaks(src, root, {root}, 0)
  {
    if Visit(src, root, {root}, 0).fault.Some? {
      FaultBreaks(src, root, {root}, 0);
    }
    if root in src.nodes && Breaks(src, root, {root}, 0) {
      var path, child :| BreaksAt(src, root, {root}, 0, path, child);
      BreakFaults(src, root, {root}, 0, path, child);
    }
  }

  // ------------------------------------------------------------------- how it ends

  /** No run of unfinished pages whose tests admit one entry alone is longer than the walk. */
  lemma {:induction false} RunBound(src: Source, stack: seq<Frame>, ordinal: nat, w: Walk, taken: seq<Read>)
    requires Tracks(src, stack, w) && RunOf(src, stack, ordinal, taken)
    requires forall read :: read in taken ==> read.page.Page? && read.page.more && forall entry :: read.accepts([entry])
    ensures |taken| <= |w.entries|
    decreases |taken|
  {
    if taken != [] {
      var page := taken[0].page;
      var start, now :| Tracks(src, stack, start) && Tracks(src, page.stack, now) && PageBetween(start, now, ordinal, taken[0].accepts, page);
      SameWalk(src, stack, start, w);
      PagesProgress(src, stack, ordinal, taken[0].accepts, page);
      assert forall read :: read in taken[1..] ==> read in taken;
      RunBound(src, page.stack, page.ordinal, now, taken[1..]);
    }
  }

  ghost predicate AllPages(taken: seq<Read>) {
    forall read :: read in taken ==> read.page.Page?
  }

  function EndStack(stack: seq<Frame>, taken: seq<Read>): seq<Frame>
    requires AllPages(taken)
  {
    if taken == [] then stack else taken[|taken| - 1].page.stack
  }

  function EndOrdinal(ordinal: nat, taken: seq<Read>): nat
    requires AllPages(taken)
  {
    if taken == [] then ordinal else taken[|taken| - 1].page.ordinal
  }

  lemma {:induction false} RunPush(src: Source, stack: seq<Frame>, ordinal: nat, taken: seq<Read>, read: Read)
    requires AllPages(taken) && RunOf(src, stack, ordinal, taken) && read.page.Page?
    requires PageOf(src, EndStack(stack, taken), EndOrdinal(ordinal, taken), read.accepts, read.page)
    ensures RunOf(src, stack, ordinal, taken + [read])
    decreases |taken|
  {
    if taken == [] {
      assert [read][1..] == [];
    } else {
      assert (taken + [read])[1..] == taken[1..] + [read];
      assert forall r :: r in taken[1..] ==> r in taken;
      RunPush(src, taken[0].page.stack, taken[0].page.ordinal, taken[1..], read);
    }
  }

  method NextPage(src: Source, stack: seq<Frame>, ordinal: nat, accepts: Acceptance, ghost w: Walk) returns (r: Outcome, ghost now: Walk)
    requires Tracks(src, stack, w) && forall entry :: accepts([entry])
    ensures r.Thrown? ==> w.fault == Some(r.fault)
    ensures r.Page? ==> PageOf(src, stack, ordinal, accepts, r) && Tracks(src, r.stack, now) && now.fault == w.fault
    ensures r.Page? && r.more ==> |now.entries| < |w.entries|
    ensures r.Page? && !r.more ==> w.fault.None?
  {
    TracksRest(src, stack, w);
    r := ReadNodeChildren(src, stack, ordinal, accepts);
    now := w;
    if r.Page? {
      ghost var start, end :| Tracks(src, stack, start) && Tracks(src, r.stack, end) && PageBetween(start, end, ordinal, accepts, r);
      SameWalk(src, stack, start, w);
      now := end;
      if r.more {
        PagesProgress(src, stack, ordinal, accepts, r);
      }
    }
  }

  /**
   * Reading on from the frontier each page saves, under any tests that admit one entry alone, ends: with
   * the walk's fault exactly when the unpaged walk has one, and otherwise with all its entries.
   */
  method ReadAll(src: Source, root: Hash, accepts: nat -> Acceptance) returns (taken: seq<Read>, fault: Option<Fault>)
    requires forall i, entry :: accepts(i)([entry])
    ensures fault == Visit(src, root, {root}, 0).fault
    ensures AllPages(taken) && RunOf(src, [Frame(root, 0)], 0, taken)
    ensures fault.None? ==> Joined(taken) == Visit(src, root, {root}, 0).entries
  {
    ghost var w := Visit(src, root, {root}, 0);
    StartIsVisit(src, root);
    TracksRest(src, [Frame(root, 0)], w);
    taken, fault := ReadOn(src, [Frame(root, 0)], accepts, w);
    if fault.None? {
      PagesJoinToWalk(src, root, taken);
    }
  }

  method ReadOn(src: Source, start: seq<Frame>, accepts: nat -> Acceptance, ghost w: Walk) returns (taken: seq<Read>, fault: Option<Fault>)
    requires Tracks(src, start, w) && forall i, entry :: accepts(i)([entry])
    ensures fault == w.fault && AllPages(taken) && RunOf(src, start, 0, taken)
    ensures fault.None? ==> taken != [] && !taken[|taken| - 1].page.more
  {
    var stack, ordinal := start, 0;
    ghost var now := w;
    taken := [];
    while true
      invariant Tracks(src, stack, now) && now.fault == w.fault
      invariant AllPages(taken) && RunOf(src, start, 0, taken)
      invariant stack == EndStack(start, taken) && ordinal == EndOrdinal(0, taken)
      decreases |now.entries|
    {
      var page;
      page, now := NextPage(src, stack, ordinal, accepts(|taken|), now);
      if page.Thrown? {
        return taken, Some(page.fault);
      }
      RunPush(src, start, 0, taken, Read(page, accepts(|taken|)));
      taken := taken + [Read(page, accepts(|taken|))];
      if !page.more {
        return taken, None;
      }
      stack, ordinal := page.stack, page.ordinal;
    }
  }
}
