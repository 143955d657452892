/** Depth-bounded retrieval of a node's descendants, cut into pages by an acceptance test. */
module NodeRetrieval {
  import opened Texts

  type Hash = Text

  datatype Stored = Stored(level: nat, tokens: nat, children: seq<Hash>)

  datatype Entry = Entry(nodeId: Hash, level: nat, tokens: nat)

  datatype Fault = MissingChild | InvalidLineage

  /** One read: the nodes as they are stored, and how deep to go. */
  datatype Source = Source(nodes: map<Hash, Stored>, depth: nat)

  /** What a walk yields before it ends or throws, and how many loop turns it takes. */
  datatype Walk = Walk(entries: seq<Entry>, fault: Option<Fault>, turns: nat)

  const NOTHING := Walk([], None, 0)

  /** One walk after another; nothing follows a fault. */
  function Then(a: Walk, b: Walk): Walk {
    if a.fault.Some? then a else Walk(a.entries + b.entries, b.fault, a.turns + b.turns)
  }

  predicate Ends(src: Source, hash: Hash, level: nat) {
    hash in src.nodes && (level >= src.depth || src.nodes[hash].children == [])
  }

  function EntryOf(src: Source, hash: Hash): Entry
    requires hash in src.nodes
  {
    Entry(hash, src.nodes[hash].level, src.nodes[hash].tokens)
  }

  /** The unpaged walk: a node at the depth limit or without children is an entry, any other its children. */
  function Visit(src: Source, hash: Hash, lineage: set<Hash>, level: nat): Walk
    decreases if level <= src.depth then src.depth - level else 0, 1, 0
  {
    if hash !in src.nodes then Walk([], Some(MissingChild), 1)
    else if Ends(src, hash, level) then Walk([EntryOf(src, hash)], None, 1)
    else ChildrenFrom(src, hash, lineage, level, 0)
  }

  /** The children from number `k` on; a child already open is a fault. */
  function ChildrenFrom(src: Source, hash: Hash, lineage: set<Hash>, level: nat, k: nat): Walk
    requires hash in src.nodes && !Ends(src, hash, level)
    decreases src.depth - level, 0, if k <= |src.nodes[hash].children| then |src.nodes[hash].children| - k else 0
  {
    var children := src.nodes[hash].children;
    if k >= |children| then Walk([], None, 1)
    else if children[k] in lineage then Walk([], Some(InvalidLineage), 1)
    else
      Then(Walk([], None, 1),
           Then(Visit(src, children[k], lineage + {children[k]}, level + 1), ChildrenFrom(src, hash, lineage, level, k + 1)))
  }

  // ---------------------------------------------------------------------- the frontier

  datatype Frame = Frame(hash: Hash, offset: nat)

  function Hashes(stack: seq<Frame>): set<Hash> {
    set i | 0 <= i < |stack| :: stack[i].hash
  }

  /** What the frame on top still has to give. */
  function FrameRest(src: Source, frame: Frame, lineage: set<Hash>, level: nat): Walk {
    if frame.hash !in src.nodes || Ends(src, frame.hash, level) then Visit(src, frame.hash, lineage, level)
    else ChildrenFrom(src, frame.hash, lineage, level, frame.offset)
  }

  function Rest(src: Source, stack: seq<Frame>): Walk
    decreases |stack|
  {
    if stack == [] then NOTHING
    else Then(FrameRest(src, stack[|stack| - 1], Hashes(stack), |stack| - 1), Rest(src, stack[..|stack| - 1]))
  }

  /** `w` is what the stack leaves unread; through a quantifier, so that the loop does not unfold the walk. */
  ghost predicate Tracks(src: Source, stack: seq<Frame>, w: Walk) {
    forall s :: s == stack ==> w == Rest(src, s)
  }

  lemma {:induction false} TracksRest(src: Source, stack: seq<Frame>, w: Walk)
    ensures Tracks(src, stack, w) <==> w == Rest(src, stack)
  {
    if Tracks(src, stack, w) {
      assert stack == stack && w == Rest(src, stack);
    }
  }

  lemma {:induction false} ThenAssociates(a: Walk, b: Walk, c: Walk)
    ensures Then(Then(a, b), c) == Then(a, Then(b, c))
  {
    if a.fault.None? && b.fault.None? {
      assert (a.entries + b.entries) + c.entries == a.entries + (b.entries + c.entries);
    }
  }

  lemma {:induction false} RestTop(src: Source, below: seq<Frame>, top: Frame)
    ensures Rest(src, below + [top]) == Then(FrameRest(src, top, Hashes(below + [top]), |below|), Rest(src, below))
  {
    assert (below + [top])[..|below|] == below;
  }

  lemma {:induction false} SameHashes(below: seq<Frame>, a: Frame, b: Frame)
    requires a.hash == b.hash
    ensures Hashes(below + [a]) == Hashes(below + [b])
  {
    var x, y := below + [a], below + [b];
    assert forall i :: 0 <= i < |x| ==> x[i].hash == y[i].hash;
  }

  lemma {:induction false} PushHashes(stack: seq<Frame>, frame: Frame)
    ensures Hashes(stack + [frame]) == Hashes(stack) + {frame.hash}
  {
    var pushed := stack + [frame];
    assert forall i :: 0 <= i < |stack| ==> pushed[i] == stack[i];
    assert pushed[|stack|] == frame;
  }

  predicate Open(stack: seq<Frame>, hash: Hash) {
    exists i :: 0 <= i < |stack| && stack[i].hash == hash
  }

  lemma {:induction false} OpenIs(stack: seq<Frame>, hash: Hash)
    ensures Open(stack, hash) <==> hash in Hashes(stack)
  {
  }

  // ------------------------------------------------------------------ one turn of the loop

  lemma {:induction false} MissingTurn(src: Source, stack: seq<Frame>, w: Walk)
    requires Tracks(src, stack, w) && stack != [] && stack[|stack| - 1].hash !in src.nodes
    ensures w.entries == [] && w.fault == Some(MissingChild)
  {
    assert w == Rest(src, stack);
  }

  lemma {:induction false} EntryTurn(src: Source, stack: seq<Frame>, w: Walk) returns (next: Walk)
    requires Tracks(src, stack, w) && stack != [] && Ends(src, stack[|stack| - 1].hash, |stack| - 1)
    ensures Tracks(src, stack[..|stack| - 1], next)
    ensures w.entries == [EntryOf(src, stack[|stack| - 1].hash)] + next.entries && w.fault == next.fault && w.turns == next.turns + 1
  {
    assert w == Rest(src, stack);
    next := Rest(src, stack[..|stack| - 1]);
  }

  lemma {:induction false} PopTurn(src: Source, stack: seq<Frame>, w: Walk) returns (next: Walk)
    requires Tracks(src, stack, w) && stack != []
    requires var top := stack[|stack| - 1];
             top.hash in src.nodes && !Ends(src, top.hash, |stack| - 1) && top.offset >= |src.nodes[top.hash].children|
    ensures Tracks(src, stack[..|stack| - 1], next)
    ensures w.entries == next.entries && w.fault == next.fault && w.turns == next.turns + 1
  {
    assert w == Rest(src, stack);
    next := Rest(src, stack[..|stack| - 1]);
    assert [] + next.entries == next.entries;
  }

  lemma {:induction false} CycleTurn(src: Source, stack: seq<Frame>, w: Walk)
    requires Tracks(src, stack, w) && stack != []
    requires var top := stack[|stack| - 1];
             top.hash in src.nodes && !Ends(src, top.hash, |stack| - 1) && top.offset < |src.nodes[top.hash].children|
             && Open(stack, src.nodes[top.hash].children[top.offset])
    ensures w.entries == [] && w.fault == Some(InvalidLineage)
  {
    assert w == Rest(src, stack);
    OpenIs(stack, src.nodes[stack[|stack| - 1].hash].children[stack[|stack| - 1].offset]);
  }

  /** The stack after descending into the next child. */
  function Descended(stack: seq<Frame>, child: Hash): seq<Frame>
    requires stack != []
  {
    var top := stack[|stack| - 1];
    stack[..|stack| - 1] + [Frame(top.hash, top.offset + 1)] + [Frame(child, 0)]
  }

  lemma {:induction false} ChildVisit(src: Source, child: Hash, lineage: set<Hash>, level: nat)
    ensures FrameRest(src, Frame(child, 0), lineage, level) == Visit(src, child, lineage, level)
  {
  }

  lemma {:induction false} DescendTurn(src: Source, stack: seq<Frame>, w: Walk, child: Hash) returns (next: Walk)
    requires Tracks(src, stack, w) && stack != []
    requires var top := stack[|stack| - 1];
             top.hash in src.nodes && !Ends(src, top.hash, |stack| - 1) && top.offset < |src.nodes[top.hash].children|
             && src.nodes[top.hash].children[top.offset] == child && !Open(stack, child)
    ensures Tracks(src, Descended(stack, child), next)
    ensures w.entries == next.entries && w.fault == next.fault && w.turns == next.turns + 1
  {
    assert w == Rest(src, stack);
    OpenIs(stack, child);
    next := Rest(src, Descended(stack, child));
    DescendRest(src, stack, child);
    assert [] + next.entries == next.entries;
  }

  lemma {:induction false} DescendRest(src: Source, stack: seq<Frame>, child: Hash)
    requires stack != []
    requires var top := stack[|stack| - 1];
             top.hash in src.nodes && !Ends(src, top.hash, |stack| - 1) && top.offset < |src.nodes[top.hash].children|
             && src.nodes[top.hash].children[top.offset] == child && child !in Hashes(stack)
    ensures Rest(src, stack) == Then(Walk([], None, 1), Rest(src, Descended(stack, child)))
  {
    var below, top := stack[..|stack| - 1], stack[|stack| - 1];
    var advanced := Frame(top.hash, top.offset + 1);
    var parent := below + [advanced];
    assert stack == below + [top];
    SameHashes(below, top, advanced);
    var lineage, level := Hashes(stack), |below|;
    RestTop(src, below, top);
    RestTop(src, below, advanced);
    RestTop(src, parent, Frame(child, 0));
    PushHashes(parent, Frame(child, 0));
    ChildVisit(src, child, lineage + {child}, level + 1);
    var inner := Visit(src, child, lineage + {child}, level + 1);
    var tail := ChildrenFrom(src, top.hash, lineage, level, top.offset + 1);
    ChildStep(src, top.hash, lineage, level, top.offset);
    ThenAssociates(Walk([], None, 1), Then(inner, tail), Rest(src, below));
    ThenAssociates(inner, tail, Rest(src, below));
  }

  lemma {:induction false} ChildStep(src: Source, hash: Hash, lineage: set<Hash>, level: nat, k: nat)
    requires hash in src.nodes && !Ends(src, hash, level) && k < |src.nodes[hash].children|
    requires src.nodes[hash].children[k] !in lineage
    ensures var child := src.nodes[hash].children[k];
            ChildrenFrom(src, hash, lineage, level, k)
            == Then(Walk([], None, 1), Then(Visit(src, child, lineage + {child}, level + 1), ChildrenFrom(src, hash, lineage, level, k + 1)))
  {
  }

  // ------------------------------------------------------------------------- the loop

  datatype Outcome =
    | Page(children: seq<Entry>, stack: seq<Frame>, ordinal: nat, more: bool)
    | Thrown(fault: Fault)

  type Acceptance = seq<Entry> -> bool

  /** Every entry of the page was accepted with the ones before it. */
  ghost predicate Accepted(accepts: Acceptance, children: seq<Entry>) {
    forall n :: 0 < n <= |children| ==> accepts(children[..n])
  }

  lemma {:induction false} AcceptOne(accepts: Acceptance, children: seq<Entry>, entry: Entry)
    requires Accepted(accepts, children) && accepts(children + [entry])
    ensures Accepted(accepts, children + [entry])
  {
    var all := children + [entry];
    forall n | 0 < n <= |all|
      ensures accepts(all[..n])
    {
      if n == |all| {
        assert all[..n] == all;
      } else {
        assert all[..n] == children[..n];
      }
    }
  }

  /** A page is the part of the walk between the unread rest of two frontiers. */
  ghost predicate PageBetween(w: Walk, now: Walk, ordinal: nat, accepts: Acceptance, page: Outcome)
    requires page.Page?
  {
    && w.entries == page.children + now.entries && w.fault == now.fault
    && page.ordinal == ordinal + |page.children| && Accepted(accepts, page.children)
    && (page.more <==> page.stack != [])
    && (page.more ==> now.entries != [] && !accepts(page.children + [now.entries[0]]))
    && (!page.more ==> now.entries == [] && now.fault.None?)
  }

  method ReadLoop(src: Source, original: seq<Frame>, ordinal: nat, accepts: Acceptance, ghost w: Walk)
      returns (r: Outcome, ghost now: Walk)
    requires Tracks(src, original, w)
    ensures r.Page? ==> Tracks(src, r.stack, now) && PageBetween(w, now, ordinal, accepts, r)
    ensures r.Thrown? ==> w.fault == Some(r.fault)
  {
    var stack, children := original, [];
    now := w;
    assert [] + w.entries == w.entries;
    while stack != []
      invariant Tracks(src, stack, now)
      invariant w.entries == children + now.entries && w.fault == now.fault && Accepted(accepts, children)
      decreases now.turns
    {
      var top := stack[|stack| - 1];
      if top.hash !in src.nodes {
        MissingTurn(src, stack, now);
        return Thrown(MissingChild), now;
      }
      if |stack| - 1 >= src.depth || src.nodes[top.hash].children == [] {
        var entry := EntryOf(src, top.hash);
        ghost var next := EntryTurn(src, stack, now);
        if !accepts(children + [entry]) {
          return Page(children, stack, ordinal + |children|, true), now;
        }
        AcceptOne(accepts, children, entry);
        assert children + ([entry] + next.entries) == children + [entry] + next.entries;
        children, stack, now := children + [entry], stack[..|stack| - 1], next;
        continue;
      }
      var node := src.nodes[top.hash];
      if top.offset >= |node.children| {
        now := PopTurn(src, stack, now);
        stack := stack[..|stack| - 1];
        continue;
      }
      var child := node.children[top.offset];
      if Open(stack, child) {
        CycleTurn(src, stack, now);
        return Thrown(InvalidLineage), now;
      }
      now := DescendTurn(src, stack, now, child);
      stack := Descended(stack, child);
    }
    ClosedTracks(src, now);
    r := Page(children, [], ordinal + |children|, false);
  }

  lemma {:induction false} ClosedTracks(src: Source, now: Walk)
    requires Tracks(src, [], now)
    ensures now == NOTHING
  {
    assert now == Rest(src, []);
  }

  ghost predicate PageOf(src: Source, stack: seq<Frame>, ordinal: nat, accepts: Acceptance, page: Outcome)
    requires page.Page?
  {
    exists w, now :: Tracks(src, stack, w) && Tracks(src, page.stack, now) && PageBetween(w, now, ordinal, accepts, page)
  }

  /** `readNodeChildren`. It throws only where the unpaged walk throws. */
  method ReadNodeChildren(src: Source, stack: seq<Frame>, ordinal: nat, accepts: Acceptance) returns (r: Outcome)
    ensures r.Page? ==> PageOf(src, stack, ordinal, accepts, r)
    ensures r.Thrown? ==> Rest(src, stack).fault == Some(r.fault)
  {
    ghost var w, now := Rest(src, stack), NOTHING;
    TracksRest(src, stack, w);
    r, now := ReadLoop(src, stack, ordinal, accepts, w);
  }

  // -------------------------------------------------------------------------- runs

  datatype Read = Read(page: Outcome, accepts: Acceptance)

  /** Each page continues where the one before it stopped. */
  ghost predicate RunOf(src: Source, stack: seq<Frame>, ordinal: nat, taken: seq<Read>)
    decreases |taken|
  {
    taken == [] ||
    (taken[0].page.Page? && PageOf(src, stack, ordinal, taken[0].accepts, taken[0].page)
     && RunOf(src, taken[0].page.stack, taken[0].page.ordinal, taken[1..]))
  }

  function Joined(taken: seq<Read>): seq<Entry>
    requires forall read :: read in taken ==> read.page.Page?
  {
    if taken == [] then [] else taken[0].page.children + Joined(taken[1..])
  }

  lemma {:induction false} SameWalk(src: Source, stack: seq<Frame>, a: Walk, b: Walk)
    requires Tracks(src, stack, a) && Tracks(src, stack, b)
    ensures a == b
  {
    TracksRest(src, stack, a);
    TracksRest(src, stack, b);
  }

  lemma {:induction false} RunJoins(src: Source, stack: seq<Frame>, ordinal: nat, w: Walk, taken: seq<Read>)
    requires Tracks(src, stack, w) && RunOf(src, stack, ordinal, taken) && taken != []
    requires (forall read :: read in taken ==> read.page.Page?) && !taken[|taken| - 1].page.more
    ensures Joined(taken) == w.entries && w.fault.None?
    decreases |taken|
  {
    var page := taken[0].page;
    var start, now :| Tracks(src, stack, start) && Tracks(src, page.stack, now) && PageBetween(start, now, ordinal, taken[0].accepts, page);
    SameWalk(src, stack, start, w);
    if |taken| == 1 {
      assert taken[1..] == [];
    } else {
      assert taken[1..][|taken| - 2] == taken[|taken| - 1];
      RunJoins(src, page.stack, page.ordinal, now, taken[1..]);
    }
  }

  /** The saved start of a read is the unpaged walk from the root. */
  lemma {:induction false} StartIsVisit(src: Source, root: Hash)
    ensures Rest(src, [Frame(root, 0)]) == Visit(src, root, {root}, 0)
  {
    RestTop(src, [], Frame(root, 0));
    PushHashes([], Frame(root, 0));
    ChildVisit(src, root, {root}, 0);
    assert [] + [Frame(root, 0)] == [Frame(root, 0)];
    assert Hashes([]) == {} && {} + {root} == {root};
    ThenNothing(Visit(src, root, {root}, 0));
  }

  lemma {:induction false} ThenNothing(a: Walk)
    ensures Then(a, NOTHING) == a
  {
    assert a.entries + [] == a.entries;
  }

  /** Joining the pages of a complete read, under any acceptance tests, gives the entries of one unpaged walk. */
  lemma PagesJoinToWalk(src: Source, root: Hash, taken: seq<Read>)
    requires RunOf(src, [Frame(root, 0)], 0, taken) && taken != []
    requires (forall read :: read in taken ==> read.page.Page?) && !taken[|taken| - 1].page.more
    ensures Joined(taken) == Visit(src, root, {root}, 0).entries && Visit(src, root, {root}, 0).fault.None?
  {
    StartIsVisit(src, root);
    TracksRest(src, [Frame(root, 0)], Visit(src, root, {root}, 0));
    RunJoins(src, [Frame(root, 0)], 0, Visit(src, root, {root}, 0), taken);
  }

  /** A page that stops early holds an entry whenever the test admits one alone, so reading always moves on. */
  lemma PagesProgress(src: Source, stack: seq<Frame>, ordinal: nat, accepts: Acceptance, page: Outcome)
    requires page.Page? && PageOf(src, stack, ordinal, accepts, page) && page.more
    requires forall entry :: accepts([entry])
    ensures page.children != [] && page.ordinal > ordinal
  {
    var w, now :| Tracks(src, stack, w) && Tracks(src, page.stack, now) && PageBetween(w, now, ordinal, accepts, page);
    var first := now.entries[0];
    assert [] + [first] == [first];
  }

  /** The path goes from parent to child, starting at `hash`. */
  ghost predicate PathFrom(src: Source, hash: Hash, path: seq<Hash>) {
    && path != [] && path[0] == hash
    && (forall i :: 0 <= i < |path| ==> path[i] in src.nodes)
    && forall i, j :: 0 <= i && j == i + 1 < |path| ==> path[j] in src.nodes[path[i]].children
  }

  /** The entry is a childless descendant, or one exactly at the depth limit; `level` is where the path starts. */
  ghost predicate EndsPath(src: Source, hash: Hash, level: nat, entry: Entry, path: seq<Hash>) {
    && PathFrom(src, hash, path) && path[|path| - 1] == entry.nodeId
    && entry == Entry(entry.nodeId, src.nodes[entry.nodeId].level, src.nodes[entry.nodeId].tokens)
    && level + |path| - 1 <= src.depth
    && (src.nodes[entry.nodeId].children == [] || level + |path| - 1 == src.depth)
  }

  ghost predicate IsEnd(src: Source, hash: Hash, level: nat, entry: Entry) {
    exists path :: EndsPath(src, hash, level, entry, path)
  }

  lemma {:induction false} EndOfChild(src: Source, hash: Hash, level: nat, child: Hash, entry: Entry)
    requires hash in src.nodes && child in src.nodes[hash].children && IsEnd(src, child, level + 1, entry)
    ensures IsEnd(src, hash, level, entry)
  {
    var path :| EndsPath(src, child, level + 1, entry, path);
    var longer := [hash] + path;
    assert forall i :: 0 <= i < |path| ==> longer[i + 1] == path[i];
    assert PathFrom(src, hash, longer) by {
      forall i, j | 0 <= i && j == i + 1 < |longer|
        ensures longer[j] in src.nodes[longer[i]].children
      {
        if i > 0 {
          assert path[i - 1] == longer[i] && path[i] == longer[j];
        }
      }
    }
    assert EndsPath(src, hash, level, entry, longer);
  }

  /** Every entry of a walk is childless or exactly at the depth limit below the walk's root. */
  lemma {:induction false} EntriesEnd(src: Source, hash: Hash, lineage: set<Hash>, level: nat)
    requires level <= src.depth
    ensures forall entry :: entry in Visit(src, hash, lineage, level).entries ==> IsEnd(src, hash, level, entry)
    decreases src.depth - level, 1, 0
  {
    if hash in src.nodes {
      if Ends(src, hash, level) {
        assert EndsPath(src, hash, level, EntryOf(src, hash), [hash]);
      } else {
        ChildrenEnd(src, hash, lineage, level, 0);
      }
    }
  }

  lemma {:induction false} ChildrenEnd(src: Source, hash: Hash, lineage: set<Hash>, level: nat, k: nat)
    requires hash in src.nodes && !Ends(src, hash, level) && k <= |src.nodes[hash].children|
    ensures forall entry :: entry in ChildrenFrom(src, hash, lineage, level, k).entries ==> IsEnd(src, hash, level, entry)
    decreases src.depth - level, 0, |src.nodes[hash].children| - k
  {
    if k < |src.nodes[hash].children| && src.nodes[hash].children[k] !in lineage {
      var child := src.nodes[hash].children[k];
      EntriesEnd(src, child, lineage + {child}, level + 1);
      ChildrenEnd(src, hash, lineage, level, k + 1);
      forall entry | entry in Visit(src, child, lineage + {child}, level + 1).entries
        ensures IsEnd(src, hash, level, entry)
      {
        EndOfChild(src, hash, level, child, entry);
      }
    }
  }
}
