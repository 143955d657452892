/** The planner from end to end: history in, wire-valid plan out. */
module Planner {
  import opened Texts
  import opened Messages
  import opened Sorting
  import opened Substitution
  import opened Admission
  import opened Operations
  import opened Contract
  import opened Retention
  import opened Packing
  import opened Leaves
  import opened Candidacy
  import opened Planning
  import Hierarchy

  datatype Entry = Entry(eventId: Digest, kind: MemoryKind)

  /** How nodes and plans are worded, named and ranked; none of it matters to the contract. */
  datatype Rendering = Rendering(
    entries: Message -> seq<Entry>,
    leafText: Leaf -> Text, leafId: Leaf -> Digest,
    parentText: Hierarchy.Evidence -> Text, parentId: Hierarchy.Evidence -> Digest,
    weight: (seq<Candidate>, nat) -> int,
    historyHash: (Snapshot, seq<ViewOperation>) -> Digest,
    tokens: Tokens)

  /** `ratioTokens` and `shareTokens` are the shares of the context window the source computes in floating point. */
  datatype Options = Options(
    retain: nat, protectedIds: set<Text>, target: nat, memoryMax: nat, ratioTokens: nat, shareTokens: nat)

  const HISTORY_CAP := 4096

  function MessageEvents(w: Setting, r: Rendering, m: Message, i: nat): seq<StateEvent> {
    seq(|r.entries(m)|, k requires 0 <= k < |r.entries(m)| =>
      StateEvent(r.entries(m)[k].eventId, r.entries(m)[k].kind, [m.id], [w.h.content(m)], i))
  }

  function HistoryEvents(w: Setting, r: Rendering, ms: seq<Message>): seq<seq<StateEvent>> {
    seq(|ms|, i requires 0 <= i < |ms| => MessageEvents(w, r, ms[i], i))
  }

  /** One event for each state entry of the message, in order, at the message's place in the history. */
  ghost predicate EventsListed(entries: seq<Entry>, at: nat, events: seq<StateEvent>) {
    && |events| == |entries|
    && forall k :: 0 <= k < |events| ==>
         events[k].eventId == entries[k].eventId && events[k].kind == entries[k].kind && events[k].order == at
  }

  lemma EventsAreNamed(w: Setting, r: Rendering, ms: seq<Message>)
    ensures EventsNameTheirMessage(w.h, ms, HistoryEvents(w, r, ms))
    ensures forall i :: 0 <= i < |ms| ==> EventsListed(r.entries(ms[i]), i, HistoryEvents(w, r, ms)[i])
  {
  }

  /** The planner's candidates for a history. */
  function Chosen(w: Setting, r: Rendering, ms: seq<Message>, options: Options): seq<Candidate> {
    Candidates(w, ms, options.protectedIds, HistoryEvents(w, r, ms), RecentStart(ms, options.retain))
  }

  lemma ChosenAreWell(w: Setting, r: Rendering, ms: seq<Message>, options: Options)
    requires RangesSound(w.hs)
    ensures var candidates, events := Chosen(w, r, ms, options), HistoryEvents(w, r, ms);
            && CandidatesWell(w, ms, options.protectedIds, events, RecentStart(ms, options.retain), candidates)
            && FromHistory(w.h, ms, candidates) && EventsBounded(SourcesOf(candidates, events))
  {
    var candidates, events := Chosen(w, r, ms, options), HistoryEvents(w, r, ms);
    var n := RecentStart(ms, options.retain);
    CandidatesAre(w, ms, options.protectedIds, events, n);
    forall i | 0 <= i < |candidates|
      ensures candidates[i].messageIndex < |ms| && candidates[i].message == ms[candidates[i].messageIndex]
      ensures candidates[i].digest == w.h.content(candidates[i].message)
      ensures |events[candidates[i].messageIndex]| <= LEAF_EVENTS
    {
      assert CandidateWell(w, ms, options.protectedIds, events, n, candidates[i]);
    }
  }

  // ------------------------------------------------------------------------- nodes

  lemma {:induction false} FlatOwned(candidates: seq<Candidate>, groups: seq<seq<Piece>>, count: Counter, piece: Piece)
    requires GroupsMade(candidates, groups, count) && piece in Flat(groups)
    ensures piece.owner < |candidates|
  {
    var k := |groups| - 1;
    assert PiecesMade(k, candidates[k], groups[k], count);
    if piece !in groups[k] {
      FlatOwned(candidates, groups[..k], count, piece);
    }
  }

  ghost predicate LeavesOwned(candidates: seq<Candidate>, leaves: seq<Leaf>) {
    forall i :: 0 <= i < |leaves| ==> Owned(candidates, leaves[i].pieces)
  }

  lemma PackedAreOwned(candidates: seq<Candidate>, groups: seq<seq<Piece>>, leaves: seq<Leaf>, count: Counter)
    requires GroupsMade(candidates, groups, count) && PiecesOf(leaves) == Flat(groups)
    ensures LeavesOwned(candidates, leaves)
  {
    forall i, k | 0 <= i < |leaves| && 0 <= k < |leaves[i].pieces|
      ensures leaves[i].pieces[k].owner < |candidates|
    {
      InPieces(leaves, i, leaves[i].pieces[k]);
      FlatOwned(candidates, groups, count, leaves[i].pieces[k]);
    }
  }

  function NamesOf(r: Rendering, leaves: seq<Leaf>): seq<Digest> {
    seq(|leaves|, i requires 0 <= i < |leaves| => r.leafId(leaves[i]))
  }

  function LeafNodes(w: Setting, r: Rendering, candidates: seq<Candidate>, leaves: seq<Leaf>): seq<Node>
    requires LeavesOwned(candidates, leaves)
  {
    seq(|leaves|, i requires 0 <= i < |leaves| =>
      LeafNode(candidates, leaves[i], r.leafId(leaves[i]), r.leafText(leaves[i]), w.count(r.leafText(leaves[i]))))
  }

  lemma LeafNodesAreSound(w: Setting, r: Rendering, ms: seq<Message>, candidates: seq<Candidate>, leaves: seq<Leaf>)
    requires UniqueIds(ms) && FromHistory(w.h, ms, candidates) && LeavesOwned(candidates, leaves)
    requires LeavesWell(SourcesOf(candidates, HistoryEvents(w, r, ms)), leaves)
    ensures forall node :: node in LeafNodes(w, r, candidates, leaves) ==> LeafProvenance(node)
  {
    EventsAreNamed(w, r, ms);
    forall node | node in LeafNodes(w, r, candidates, leaves)
      ensures LeafProvenance(node)
    {
      var i :| 0 <= i < |leaves| && node == LeafNodes(w, r, candidates, leaves)[i];
      assert LeafWell(SourcesOf(candidates, HistoryEvents(w, r, ms)), leaves[i]);
      LeafNodeIsSound(w.h, ms, candidates, HistoryEvents(w, r, ms), leaves[i], r.leafId(leaves[i]),
                      r.leafText(leaves[i]), w.count(r.leafText(leaves[i])));
    }
  }

  function EvidenceId(r: Rendering, e: Hierarchy.Evidence): Digest {
    if e.Root? then e.nodeId else r.parentId(e)
  }

  function ParentNode(w: Setting, r: Rendering, e: Hierarchy.Evidence): Node
    requires e.Parent?
  {
    Node(r.parentId(e), e.level,
         seq(|e.children|, i requires 0 <= i < |e.children| => EvidenceId(r, e.children[i])),
         [], None, r.parentText(e), w.count(r.parentText(e)), e.tokens)
  }

  /** Every parent made is among the nodes unless it is stored already. */
  ghost predicate AllSent(
      w: Setting, r: Rendering, made: seq<Hierarchy.Evidence>, available: set<Digest>, nodes: seq<Node>)
  {
    forall i :: 0 <= i < |made| && made[i].Parent? && r.parentId(made[i]) !in available ==>
      exists node :: node in nodes && ParentTells(w, r, made[i], node)
  }

  /** The node names its children in order, one level above them, and counts their source tokens. */
  ghost predicate ParentTells(w: Setting, r: Rendering, e: Hierarchy.Evidence, node: Node)
    requires e.Parent?
  {
    && node.nodeId == r.parentId(e) && node.level == e.level && node.sourceTokens == e.tokens
    && |node.children| == |e.children|
    && (forall i :: 0 <= i < |e.children| ==>
          node.children[i] == if e.children[i].Root? then e.children[i].nodeId else r.parentId(e.children[i]))
    && node.text == r.parentText(e) && node.tokens == w.count(node.text) && node.sourceRefs == [] && node.stateEvents.None?
  }

  /** The nodes hold the parents of the whole hierarchy over the roots. */
  ghost predicate ParentsSent(
      w: Setting, r: Rendering, roots: seq<Hierarchy.Evidence>, available: set<Digest>, nodes: seq<Node>)
  {
    exists frontier, made :: Hierarchy.Merged(roots, frontier, made) && AllSent(w, r, made, available, nodes)
  }

  lemma SentAmongMore(
      w: Setting, r: Rendering, roots: seq<Hierarchy.Evidence>, available: set<Digest>, leafNodes: seq<Node>, parents: seq<Node>)
    requires ParentsSent(w, r, roots, available, parents)
    ensures ParentsSent(w, r, roots, available, leafNodes + parents)
  {
    var frontier, made :| Hierarchy.Merged(roots, frontier, made) && AllSent(w, r, made, available, parents);
    assert AllSent(w, r, made, available, leafNodes + parents);
  }

  /** Parents already stored are not sent again. */
  method ParentNodes(w: Setting, r: Rendering, made: seq<Hierarchy.Evidence>, available: set<Digest>) returns (nodes: seq<Node>)
    ensures forall node :: node in nodes ==> node.stateEvents.None? && node.sourceRefs == [] && node.nodeId !in available
    ensures AllSent(w, r, made, available, nodes)
  {
    nodes := [];
    for i := 0 to |made|
      invariant forall node :: node in nodes ==> node.stateEvents.None? && node.sourceRefs == [] && node.nodeId !in available
      invariant AllSent(w, r, made[..i], available, nodes)
    {
      if made[i].Parent? && r.parentId(made[i]) !in available {
        assert ParentTells(w, r, made[i], ParentNode(w, r, made[i]));
        nodes := nodes + [ParentNode(w, r, made[i])];
      }
    }
  }

  function LeafRoots(r: Rendering, leaves: seq<Leaf>): seq<Hierarchy.Evidence> {
    seq(|leaves|, i requires 0 <= i < |leaves| => Hierarchy.Root(r.leafId(leaves[i]), 0, TokensOf(leaves[i].pieces)))
  }

  /** The hierarchy is built only for a history over its target. */
  method PlanParents(
      w: Setting, r: Rendering, existing: seq<Hierarchy.Evidence>, leaves: seq<Leaf>, available: set<Digest>, overTarget: bool)
      returns (nodes: seq<Node>)
    requires forall i :: 0 <= i < |existing| ==> existing[i].Root?
    ensures forall node :: node in nodes ==> LeafProvenance(node)
    ensures if overTarget then ParentsSent(w, r, existing + LeafRoots(r, leaves), available, nodes) else nodes == []
  {
    nodes := [];
    if overTarget {
      var frontier, made := Hierarchy.BuildHierarchy(existing + LeafRoots(r, leaves));
      nodes := ParentNodes(w, r, made, available);
    }
  }

  // ------------------------------------------------------------------- replacements

  function JoinLines(lines: seq<Text>): Text {
    if lines == [] then [] else if |lines| == 1 then lines[0] else JoinLines(lines[..|lines| - 1]) + [10] + lines[|lines| - 1]
  }

  function Markers(ids: seq<Digest>): seq<Text> {
    seq(|ids|, i requires 0 <= i < |ids| => Marker(ids[i]))
  }

  /** What stands in for a candidate before any memory: its node markers, and its diagnosis when it failed. */
  function Wrapper(c: Candidate, ids: seq<Digest>): Text {
    JoinLines(Markers(ids)) + if c.observation.kind.Failures? then [10] + c.observation.text else []
  }

  method Wrap(w: Setting, r: Rendering, candidates: seq<Candidate>, leaves: seq<Leaf>, ghost groups: seq<seq<Piece>>)
      returns (nodeIds: seq<Digest>, wrappers: seq<Text>)
    requires |groups| == |candidates| && GroupsMade(candidates, groups, w.count) && PiecesOf(leaves) == Flat(groups)
    requires forall i :: 0 <= i < |candidates| ==> SourceOf(candidates[i]) != []
    ensures |nodeIds| == |wrappers| == |candidates|
    ensures forall i :: 0 <= i < |candidates| ==>
              var ids := NodesOf(leaves, NamesOf(r, leaves), i);
              ids != [] && nodeIds[i] == ids[0] && wrappers[i] == Wrapper(candidates[i], ids)
  {
    nodeIds, wrappers := [], [];
    for i := 0 to |candidates|
      invariant |nodeIds| == |wrappers| == i
      invariant forall k :: 0 <= k < i ==>
                  var ids := NodesOf(leaves, NamesOf(r, leaves), k);
                  ids != [] && nodeIds[k] == ids[0] && wrappers[k] == Wrapper(candidates[k], ids)
    {
      var ids := NodesOf(leaves, NamesOf(r, leaves), i);
      ghost var leaf := EveryCandidateHasALeaf(candidates, groups, leaves, w.count, i);
      NodesNonEmpty(leaves, NamesOf(r, leaves), i, leaf);
      nodeIds, wrappers := nodeIds + [ids[0]], wrappers + [Wrapper(candidates[i], ids)];
    }
  }

  lemma {:induction false} FirstLine(lines: seq<Text>)
    requires lines != []
    ensures lines[0] <= JoinLines(lines)
  {
    if |lines| > 1 {
      FirstLine(lines[..|lines| - 1]);
    }
  }

  predicate RefersTo(ref: SourceRef, c: Candidate) {
    ref.messageId == c.message.id && ref.contentHash == c.digest && ref.partIndex == c.observation.partIndex
  }

  predicate Records(node: Node, c: Candidate) {
    exists i :: 0 <= i < |node.sourceRefs| && RefersTo(node.sourceRefs[i], c)
  }

  /** What is put in a candidate's place starts with the marker of a leaf node that records the candidate's source. */
  ghost predicate Grounded(nodes: seq<Node>, c: Candidate, nodeId: Digest, replacement: Text) {
    && Ascii("[headroom node:") + nodeId + Ascii("]") <= replacement
    && exists i :: 0 <= i < |nodes| && nodes[i].nodeId == nodeId && nodes[i].level == 0 && Records(nodes[i], c)
  }

  ghost predicate AllGrounded(nodes: seq<Node>, candidates: seq<Candidate>, nodeIds: seq<Digest>, replacements: seq<Text>)
    requires |nodeIds| == |replacements| == |candidates|
  {
    forall i :: 0 <= i < |candidates| ==> Grounded(nodes, candidates[i], nodeIds[i], replacements[i])
  }

  lemma WrapperIsGrounded(w: Setting, r: Rendering, candidates: seq<Candidate>, leaves: seq<Leaf>, i: nat, nodeId: Digest)
    requires LeavesOwned(candidates, leaves) && i < |candidates|
    requires var ids := NodesOf(leaves, NamesOf(r, leaves), i); ids != [] && nodeId == ids[0]
    ensures Grounded(LeafNodes(w, r, candidates, leaves), candidates[i], nodeId,
                     Wrapper(candidates[i], NodesOf(leaves, NamesOf(r, leaves), i)))
  {
    var ids, nodes := NodesOf(leaves, NamesOf(r, leaves), i), LeafNodes(w, r, candidates, leaves);
    FirstLine(Markers(ids));
    NodesAreHolders(leaves, NamesOf(r, leaves), i, nodeId);
    var k :| 0 <= k < |leaves| && Holds(leaves[k], i) && r.leafId(leaves[k]) == nodeId;
    var j :| 0 <= j < |leaves[k].pieces| && leaves[k].pieces[j].owner == i;
    assert RefersTo(nodes[k].sourceRefs[j], candidates[i]);
    assert nodes[k].nodeId == nodeId && Records(nodes[k], candidates[i]);
  }

  lemma GroundedMore(nodes: seq<Node>, more: seq<Node>, c: Candidate, nodeId: Digest, wrapper: Text, replacement: Text)
    requires Grounded(nodes, c, nodeId, wrapper) && wrapper <= replacement
    ensures Grounded(nodes + more, c, nodeId, replacement)
  {
    var i :| 0 <= i < |nodes| && nodes[i].nodeId == nodeId && nodes[i].level == 0 && Records(nodes[i], c);
    assert (nodes + more)[i] == nodes[i];
  }

  lemma SourcesAreNotEmpty(w: Setting, r: Rendering, ms: seq<Message>, options: Options)
    requires RangesSound(w.hs)
    ensures forall i :: 0 <= i < |Chosen(w, r, ms, options)| ==> SourceOf(Chosen(w, r, ms, options)[i]) != []
  {
    ChosenAreWell(w, r, ms, options);
    var candidates, events := Chosen(w, r, ms, options), HistoryEvents(w, r, ms);
    forall i | 0 <= i < |candidates|
      ensures SourceOf(candidates[i]) != []
    {
      assert CandidateWell(w, ms, options.protectedIds, events, RecentStart(ms, options.retain), candidates[i]);
    }
  }

  // ------------------------------------------------------------------------- memory

  function Suffix(c: Candidate): Text {
    if c.observation.kind.Failures? then [] else [10] + c.observation.text
  }

  /** What the chosen memory costs: a failure's diagnosis is in its replacement already and costs nothing. */
  function MemoryCost(w: Setting, memory: seq<MemoryEntry>): nat {
    if memory == [] then 0
    else
      var last := memory[|memory| - 1];
      MemoryCost(w, memory[..|memory| - 1]) + w.count(if last.kind.Failures? then [] else [10] + last.text)
  }

  /** The messages with an observation of this key, each once, in history order. */
  function KeyIds(candidates: seq<Candidate>, key: Digest): (r: seq<Text>)
    ensures forall id :: id in r <==> exists k :: 0 <= k < |candidates| && candidates[k].observation.key == key && candidates[k].message.id == id
    ensures Distinct(r)
  {
    if candidates == [] then []
    else
      var n := |candidates| - 1;
      var last, before := candidates[n], KeyIds(candidates[..n], key);
      assert forall k :: 0 <= k < n ==> candidates[..n][k] == candidates[k];
      if last.observation.key == key && last.message.id !in before then before + [last.message.id] else before
  }

  /** The first candidate of each key stands for all of them. */
  predicate StandsFirst(candidates: seq<Candidate>, k: nat)
    requires k < |candidates|
  {
    forall j :: 0 <= j < k ==> candidates[j].observation.key != candidates[k].observation.key
  }

  function Representatives(candidates: seq<Candidate>, n: nat): (r: seq<nat>)
    requires n <= |candidates|
    ensures forall k: nat :: k in r <==> k < n && StandsFirst(candidates, k)
    ensures Distinct(r)
  {
    if n == 0 then []
    else Representatives(candidates, n - 1) + if StandsFirst(candidates, n - 1) then [n - 1] else []
  }

  /** The representatives, most important first; how important each is does not matter here. */
  function Ranked(r: Rendering, candidates: seq<Candidate>): (ranked: seq<nat>)
    ensures forall k: nat :: k in ranked <==> k < |candidates| && StandsFirst(candidates, k)
    ensures Distinct(ranked)
  {
    var reps := Representatives(candidates, |candidates|);
    var ranked := SortBy(reps, k => r.weight(candidates, k));
    SameElements(ranked, reps);
    DistinctPermutation(ranked, reps);
    ranked
  }

  function EntryOf(candidates: seq<Candidate>, c: Candidate): MemoryEntry {
    MemoryEntry(c.observation.kind, c.observation.text, KeyIds(candidates, c.observation.key))
  }

  /** Every memory entry belongs to one of the chosen candidates, and every chosen candidate has one. */
  ghost predicate Remembered(candidates: seq<Candidate>, chosen: set<nat>, memory: seq<MemoryEntry>) {
    && (forall entry :: entry in memory ==> exists k :: k in chosen && k < |candidates| && entry == EntryOf(candidates, candidates[k]))
    && (forall k :: k in chosen && k < |candidates| ==> EntryOf(candidates, candidates[k]) in memory)
  }

  lemma RememberedMore(candidates: seq<Candidate>, chosen: set<nat>, memory: seq<MemoryEntry>, k: nat)
    requires Remembered(candidates, chosen, memory) && k < |candidates|
    ensures Remembered(candidates, chosen + {k}, memory + [EntryOf(candidates, candidates[k])])
  {
  }

  /** The suffix would not fit beside what was spent, or would make the replacement as long as its source. */
  predicate Declined(w: Setting, c: Candidate, wrapper: Text, budget: nat, spent: nat) {
    budget < spent + w.count(Suffix(c)) || c.observation.sourceTokens <= w.count(wrapper + Suffix(c))
  }

  ghost predicate AllTaken(w: Setting, candidates: seq<Candidate>, wrappers: seq<Text>, ranked: seq<nat>, suffixes: map<nat, Text>)
    requires |wrappers| == |candidates|
  {
    forall k :: k in suffixes ==>
      && k in ranked && k < |candidates| && suffixes[k] == Suffix(candidates[k])
      && candidates[k].observation.sourceTokens > w.count(wrappers[k] + suffixes[k])
  }

  lemma TakenMore(w: Setting, candidates: seq<Candidate>, wrappers: seq<Text>, ranked: seq<nat>, suffixes: map<nat, Text>, k: nat)
    requires |wrappers| == |candidates| && AllTaken(w, candidates, wrappers, ranked, suffixes)
    requires k in ranked && k < |candidates|
    requires candidates[k].observation.sourceTokens > w.count(wrappers[k] + Suffix(candidates[k]))
    ensures AllTaken(w, candidates, wrappers, ranked, suffixes[k := Suffix(candidates[k])])
    ensures suffixes[k := Suffix(candidates[k])].Keys == suffixes.Keys + {k}
  {
  }

  /** No ranked candidate below `n` was passed over that would still fit and pay. */
  ghost predicate NoneMissed(
      w: Setting, candidates: seq<Candidate>, wrappers: seq<Text>, ranked: seq<nat>, n: nat, budget: nat,
      suffixes: map<nat, Text>, spent: nat)
    requires |wrappers| == |candidates| && n <= |ranked|
  {
    forall i :: 0 <= i < n && ranked[i] < |candidates| && ranked[i] !in suffixes ==>
      Declined(w, candidates[ranked[i]], wrappers[ranked[i]], budget, spent)
  }

  /** What the first `n` of the ranking cost, counting those taken. */
  function SpentBefore(w: Setting, candidates: seq<Candidate>, ranked: seq<nat>, taken: set<nat>, n: nat): nat
    requires n <= |ranked|
  {
    if n == 0 then 0
    else SpentBefore(w, candidates, ranked, taken, n - 1)
         + if ranked[n - 1] in taken && ranked[n - 1] < |candidates| then w.count(Suffix(candidates[ranked[n - 1]])) else 0
  }

  /**
   * The greedy choice: in the order of the ranking an observation is taken exactly when it fits beside what
   * was spent on those before it, and its replacement stays shorter than its source.
   */
  ghost predicate Greedy(
      w: Setting, candidates: seq<Candidate>, wrappers: seq<Text>, ranked: seq<nat>, budget: nat, taken: set<nat>, n: nat)
    requires |wrappers| == |candidates| && n <= |ranked|
  {
    forall i :: 0 <= i < n ==> Rightly(w, candidates, wrappers, ranked, budget, taken, i)
  }

  predicate Rightly(
      w: Setting, candidates: seq<Candidate>, wrappers: seq<Text>, ranked: seq<nat>, budget: nat, taken: set<nat>, i: nat)
    requires |wrappers| == |candidates| && i < |ranked|
  {
    ranked[i] < |candidates| ==>
      (ranked[i] in taken <==>
        var more := Suffix(candidates[ranked[i]]);
        && SpentBefore(w, candidates, ranked, taken, i) + w.count(more) <= budget
        && w.count(wrappers[ranked[i]] + more) < candidates[ranked[i]].observation.sourceTokens)
  }

  /** The entry of an observation: its kind and text, and every message that has it, each once. */
  ghost predicate Recalls(entry: MemoryEntry, candidates: seq<Candidate>, k: nat) {
    && k < |candidates| && entry.kind == candidates[k].observation.kind && entry.text == candidates[k].observation.text
    && Distinct(entry.sourceIds)
    && forall id :: id in entry.sourceIds <==>
         exists j :: 0 <= j < |candidates| && candidates[j].observation.key == candidates[k].observation.key && candidates[j].message.id == id
  }

  /** The taken ones among the first `n` of the ranking. */
  function TakenOf(ranked: seq<nat>, taken: set<nat>, n: nat): seq<nat>
    requires n <= |ranked|
  {
    if n == 0 then [] else TakenOf(ranked, taken, n - 1) + if ranked[n - 1] in taken then [ranked[n - 1]] else []
  }

  /** The memory holds one entry for each one taken, in the order of the ranking. */
  ghost predicate RecallsAll(memory: seq<MemoryEntry>, candidates: seq<Candidate>, chosen: seq<nat>) {
    |memory| == |chosen| && forall i :: 0 <= i < |memory| ==> Recalls(memory[i], candidates, chosen[i])
  }

  lemma {:induction false} TakenLater(w: Setting, candidates: seq<Candidate>, ranked: seq<nat>, taken: set<nat>, x: nat, n: nat)
    requires n <= |ranked| && forall i :: 0 <= i < n ==> ranked[i] != x
    ensures SpentBefore(w, candidates, ranked, taken + {x}, n) == SpentBefore(w, candidates, ranked, taken, n)
    ensures TakenOf(ranked, taken + {x}, n) == TakenOf(ranked, taken, n)
  {
    if n > 0 {
      TakenLater(w, candidates, ranked, taken, x, n - 1);
    }
  }

  lemma GreedyLater(
      w: Setting, candidates: seq<Candidate>, wrappers: seq<Text>, ranked: seq<nat>, budget: nat, taken: set<nat>, n: nat)
    requires |wrappers| == |candidates| && n < |ranked| && Distinct(ranked) && Greedy(w, candidates, wrappers, ranked, budget, taken, n)
    ensures Greedy(w, candidates, wrappers, ranked, budget, taken + {ranked[n]}, n)
  {
    forall i | 0 <= i < n
      ensures Rightly(w, candidates, wrappers, ranked, budget, taken + {ranked[n]}, i)
    {
      assert Rightly(w, candidates, wrappers, ranked, budget, taken, i);
      TakenLater(w, candidates, ranked, taken, ranked[n], i);
    }
  }

  lemma EntryRecalls(candidates: seq<Candidate>, k: nat)
    requires k < |candidates|
    ensures Recalls(EntryOf(candidates, candidates[k]), candidates, k)
  {
  }

  lemma CostOfOneMore(w: Setting, memory: seq<MemoryEntry>, candidates: seq<Candidate>, c: Candidate)
    ensures MemoryCost(w, memory + [EntryOf(candidates, c)]) == MemoryCost(w, memory) + w.count(Suffix(c))
  {
    assert (memory + [EntryOf(candidates, c)])[..|memory|] == memory;
  }

  /** What the greedy pass has decided about the first `n` of the ranking. */
  ghost predicate Decided(
      w: Setting, candidates: seq<Candidate>, wrappers: seq<Text>, ranked: seq<nat>, budget: nat, n: nat,
      taken: set<nat>, memory: seq<MemoryEntry>, spent: nat)
    requires |wrappers| == |candidates| && n <= |ranked|
  {
    && (forall j :: n <= j < |ranked| ==> ranked[j] !in taken)
    && spent == SpentBefore(w, candidates, ranked, taken, n) && spent <= budget
    && Greedy(w, candidates, wrappers, ranked, budget, taken, n)
    && RecallsAll(memory, candidates, TakenOf(ranked, taken, n))
  }

  lemma PassOver(
      w: Setting, candidates: seq<Candidate>, wrappers: seq<Text>, ranked: seq<nat>, budget: nat, n: nat,
      taken: set<nat>, memory: seq<MemoryEntry>, spent: nat)
    requires |wrappers| == |candidates| && n < |ranked|
    requires Decided(w, candidates, wrappers, ranked, budget, n, taken, memory, spent)
    requires !(ranked[n] < |candidates| && !Declined(w, candidates[ranked[n]], wrappers[ranked[n]], budget, spent))
    ensures Decided(w, candidates, wrappers, ranked, budget, n + 1, taken, memory, spent)
  {
    assert Rightly(w, candidates, wrappers, ranked, budget, taken, n);
  }

  lemma TakeOne(
      w: Setting, candidates: seq<Candidate>, wrappers: seq<Text>, ranked: seq<nat>, budget: nat, n: nat,
      taken: set<nat>, memory: seq<MemoryEntry>, spent: nat)
    requires |wrappers| == |candidates| && n < |ranked| && Distinct(ranked) && ranked[n] < |candidates|
    requires Decided(w, candidates, wrappers, ranked, budget, n, taken, memory, spent)
    requires !Declined(w, candidates[ranked[n]], wrappers[ranked[n]], budget, spent)
    ensures Decided(w, candidates, wrappers, ranked, budget, n + 1, taken + {ranked[n]},
                    memory + [EntryOf(candidates, candidates[ranked[n]])], spent + w.count(Suffix(candidates[ranked[n]])))
  {
    GreedyLater(w, candidates, wrappers, ranked, budget, taken, n);
    TakenLater(w, candidates, ranked, taken, ranked[n], n);
    EntryRecalls(candidates, ranked[n]);
    assert Rightly(w, candidates, wrappers, ranked, budget, taken + {ranked[n]}, n);
    assert ranked[n] in taken + {ranked[n]};
    assert TakenOf(ranked, taken + {ranked[n]}, n + 1) == TakenOf(ranked, taken, n) + [ranked[n]];
  }

  lemma {:induction false} SpentGrows(w: Setting, candidates: seq<Candidate>, ranked: seq<nat>, taken: set<nat>, i: nat, n: nat)
    requires i <= n <= |ranked|
    ensures SpentBefore(w, candidates, ranked, taken, i) <= SpentBefore(w, candidates, ranked, taken, n)
  {
    if i < n {
      SpentGrows(w, candidates, ranked, taken, i, n - 1);
    }
  }

  /** What the greedy pass left out would not fit beside all it spent, or would not pay. */
  lemma GreedyMissesNone(
      w: Setting, candidates: seq<Candidate>, wrappers: seq<Text>, ranked: seq<nat>, budget: nat, suffixes: map<nat, Text>, spent: nat)
    requires |wrappers| == |candidates| && Greedy(w, candidates, wrappers, ranked, budget, suffixes.Keys, |ranked|)
    requires spent == SpentBefore(w, candidates, ranked, suffixes.Keys, |ranked|)
    ensures NoneMissed(w, candidates, wrappers, ranked, |ranked|, budget, suffixes, spent)
  {
    forall i | 0 <= i < |ranked| && ranked[i] < |candidates| && ranked[i] !in suffixes
      ensures Declined(w, candidates[ranked[i]], wrappers[ranked[i]], budget, spent)
    {
      assert Rightly(w, candidates, wrappers, ranked, budget, suffixes.Keys, i);
      SpentGrows(w, candidates, ranked, suffixes.Keys, i, |ranked|);
    }
  }

  /** What the memory pass keeps over the first `n` of the ranking. */
  ghost predicate Picked(
      w: Setting, candidates: seq<Candidate>, wrappers: seq<Text>, ranked: seq<nat>, budget: nat, n: nat,
      suffixes: map<nat, Text>, memory: seq<MemoryEntry>, spent: nat)
    requires |wrappers| == |candidates| && n <= |ranked|
  {
    && spent == MemoryCost(w, memory) && |memory| <= n
    && AllTaken(w, candidates, wrappers, ranked, suffixes) && Remembered(candidates, suffixes.Keys, memory)
    && Decided(w, candidates, wrappers, ranked, budget, n, suffixes.Keys, memory, spent)
  }

  lemma PickNone(
      w: Setting, candidates: seq<Candidate>, wrappers: seq<Text>, ranked: seq<nat>, budget: nat, n: nat,
      suffixes: map<nat, Text>, memory: seq<MemoryEntry>, spent: nat)
    requires |wrappers| == |candidates| && n < |ranked|
    requires Picked(w, candidates, wrappers, ranked, budget, n, suffixes, memory, spent)
    requires !(ranked[n] < |candidates| && !Declined(w, candidates[ranked[n]], wrappers[ranked[n]], budget, spent))
    ensures Picked(w, candidates, wrappers, ranked, budget, n + 1, suffixes, memory, spent)
  {
    PassOver(w, candidates, wrappers, ranked, budget, n, suffixes.Keys, memory, spent);
  }

  lemma PickOne(
      w: Setting, candidates: seq<Candidate>, wrappers: seq<Text>, ranked: seq<nat>, budget: nat, n: nat,
      suffixes: map<nat, Text>, memory: seq<MemoryEntry>, spent: nat, more: map<nat, Text>, longer: seq<MemoryEntry>, total: nat)
    requires |wrappers| == |candidates| && n < |ranked| && Distinct(ranked) && ranked[n] < |candidates|
    requires Picked(w, candidates, wrappers, ranked, budget, n, suffixes, memory, spent)
    requires !Declined(w, candidates[ranked[n]], wrappers[ranked[n]], budget, spent)
    requires more == suffixes[ranked[n] := Suffix(candidates[ranked[n]])] && longer == memory + [EntryOf(candidates, candidates[ranked[n]])]
    requires total == spent + w.count(Suffix(candidates[ranked[n]]))
    ensures Picked(w, candidates, wrappers, ranked, budget, n + 1, more, longer, total)
  {
    TakeOne(w, candidates, wrappers, ranked, budget, n, suffixes.Keys, memory, spent);
    CostOfOneMore(w, memory, candidates, candidates[ranked[n]]);
    RememberedMore(candidates, suffixes.Keys, memory, ranked[n]);
    TakenMore(w, candidates, wrappers, ranked, suffixes, ranked[n]);
  }

  /** One turn of the pass: a suffix is taken when it fits what is left and its replacement stays shorter than its source. */
  method PickNext(
      w: Setting, candidates: seq<Candidate>, wrappers: seq<Text>, ranked: seq<nat>, budget: nat, n: nat,
      suffixes: map<nat, Text>, memory: seq<MemoryEntry>, spent: nat)
      returns (more: map<nat, Text>, longer: seq<MemoryEntry>, total: nat)
    requires |wrappers| == |candidates| && n < |ranked| && Distinct(ranked)
    requires Picked(w, candidates, wrappers, ranked, budget, n, suffixes, memory, spent)
    ensures Picked(w, candidates, wrappers, ranked, budget, n + 1, more, longer, total)
  {
    var k := ranked[n];
    if k >= |candidates| || Declined(w, candidates[k], wrappers[k], budget, spent) {
      PickNone(w, candidates, wrappers, ranked, budget, n, suffixes, memory, spent);
      return suffixes, memory, spent;
    }
    more := suffixes[k := Suffix(candidates[k])];
    longer := memory + [EntryOf(candidates, candidates[k])];
    total := spent + w.count(Suffix(candidates[k]));
    PickOne(w, candidates, wrappers, ranked, budget, n, suffixes, memory, spent, more, longer, total);
  }

  /** The greedy pass over the ranked representatives. */
  method SelectMemory(w: Setting, candidates: seq<Candidate>, wrappers: seq<Text>, ranked: seq<nat>, budget: nat)
      returns (suffixes: map<nat, Text>, memory: seq<MemoryEntry>, memoryTokens: nat)
    requires |wrappers| == |candidates| && Distinct(ranked)
    ensures Greedy(w, candidates, wrappers, ranked, budget, suffixes.Keys, |ranked|)
    ensures RecallsAll(memory, candidates, TakenOf(ranked, suffixes.Keys, |ranked|))
    ensures memoryTokens == MemoryCost(w, memory) <= budget && |memory| <= |ranked|
    ensures AllTaken(w, candidates, wrappers, ranked, suffixes) && Remembered(candidates, suffixes.Keys, memory)
    ensures NoneMissed(w, candidates, wrappers, ranked, |ranked|, budget, suffixes, memoryTokens)
  {
    suffixes, memory, memoryTokens := map[], [], 0;
    for i := 0 to |ranked|
      invariant Picked(w, candidates, wrappers, ranked, budget, i, suffixes, memory, memoryTokens)
    {
      suffixes, memory, memoryTokens := PickNext(w, candidates, wrappers, ranked, budget, i, suffixes, memory, memoryTokens);
    }
    GreedyMissesNone(w, candidates, wrappers, ranked, budget, suffixes, memoryTokens);
  }

  // ----------------------------------------------------------------------- the planner

  function AtLeastZero(n: int): nat { if n < 0 then 0 else n }

  function Smaller(a: int, b: int): int { if a <= b then a else b }

  /** What the history may spend on memory beyond wrappers, protected and recent content. */
  function HistoryBudget(options: Options, baseline: nat, recent: nat, wrappers: nat): (b: nat)
    ensures b <= HISTORY_CAP && b <= options.memoryMax && b <= options.ratioTokens && b <= options.target
  {
    var kept := AtLeastZero(baseline - recent - wrappers);
    AtLeastZero(Smaller(Smaller(HISTORY_CAP, options.memoryMax),
                        Smaller(options.ratioTokens, Smaller(options.target, options.shareTokens) - kept - recent - wrappers)))
  }

  /** Within every limit of the options `b` tokens of memory have room beside `kept` other tokens. */
  predicate Affordable(options: Options, kept: nat, b: nat) {
    b <= 4096 && b <= options.memoryMax && b <= options.ratioTokens && kept + b <= options.target && kept + b <= options.shareTokens
  }

  /** The most tokens that have room, or none. */
  ghost predicate MostAffordable(options: Options, kept: nat, b: nat) {
    (b > 0 ==> Affordable(options, kept, b)) && forall x: nat :: Affordable(options, kept, x) ==> x <= b
  }

  function Larger(a: nat, b: nat): nat { if a >= b then a else b }

  lemma HistoryBudgetIsMost(options: Options, baseline: nat, recent: nat, wrappers: nat)
    ensures MostAffordable(options, Larger(baseline, recent + wrappers), HistoryBudget(options, baseline, recent, wrappers))
  {
  }

  function SumCounts(count: Counter, texts: seq<Text>): nat {
    if texts == [] then 0 else SumCounts(count, texts[..|texts| - 1]) + count(texts[|texts| - 1])
  }

  /** The counts of joined lists add up, so the sum is over each text once. */
  lemma {:induction false} SumCountsAdds(count: Counter, a: seq<Text>, b: seq<Text>)
    ensures SumCounts(count, []) == 0 && (forall t :: SumCounts(count, [t]) == count(t))
    ensures SumCounts(count, a + b) == SumCounts(count, a) + SumCounts(count, b)
  {
    assert forall t: Text :: [t][..0] == [];
    if b == [] {
      assert a + b == a;
    } else {
      SumCountsAdds(count, a, b[..|b| - 1]);
      assert (a + b)[..|a + b| - 1] == a + b[..|b| - 1];
    }
  }

  function SnapshotFor(w: Setting, ms: seq<Message>, end: nat): Snapshot
    requires end <= |ms|
  {
    PrefixSnapshot(w.h, ms, end)
  }

  lemma ChosenAreDerived(
      w: Setting, r: Rendering, ms: seq<Message>, options: Options, naming: Naming, nodeIds: seq<Digest>, replacements: seq<Text>)
    requires RangesSound(w.hs) && |nodeIds| == |replacements| == |Chosen(w, r, ms, options)|
    ensures Derived(ms, Chosen(w, r, ms, options), OperationsOf(naming, Chosen(w, r, ms, options), nodeIds, replacements),
                    RecentStart(ms, options.retain))
  {
    ChosenAreWell(w, r, ms, options);
    var candidates, events, n := Chosen(w, r, ms, options), HistoryEvents(w, r, ms), RecentStart(ms, options.retain);
    var ops := OperationsOf(naming, candidates, nodeIds, replacements);
    forall i | 0 <= i < |ops|
      ensures !ops[i].Range? && candidates[i].messageIndex < n && ops[i].messageId == ms[candidates[i].messageIndex].id
    {
      assert CandidateWell(w, ms, options.protectedIds, events, n, candidates[i]);
      OperationNames(candidates[i], naming.operation(candidates[i], nodeIds[i]), nodeIds[i], replacements[i]);
    }
  }

  lemma OperationNames(c: Candidate, operationId: Digest, nodeId: Digest, replacement: Text)
    ensures !OperationOf(c, operationId, nodeId, replacement).Range?
    ensures OperationOf(c, operationId, nodeId, replacement).messageId == c.message.id
  {
  }

  lemma DerivedRespects(ms: seq<Message>, candidates: seq<Candidate>, ops: seq<ViewOperation>, retain: nat)
    requires UniqueIds(ms) && Derived(ms, candidates, ops, RecentStart(ms, retain))
    ensures RespectsRetention(ms, ops, retain)
  {
    forall op, i | op in ops && RecentStart(ms, retain) <= i < |ms|
      ensures ms[i].id !in IdsOf(op)
    {
      var k :| 0 <= k < |ops| && ops[k] == op;
    }
  }

  /** The planner's operations are in line with its candidates and apply, whatever they are replaced by. */
  lemma PlannedOperations(
      w: Setting, r: Rendering, ms: seq<Message>, options: Options, naming: Naming, nodeIds: seq<Digest>,
      replacements: seq<Text>, end: nat)
    requires UniqueIds(ms) && RangesSound(w.hs) && NamesFields(naming) && IsSourceEnd(ms, end)
    requires |nodeIds| == |replacements| == |Chosen(w, r, ms, options)|
    ensures var ops := OperationsOf(naming, Chosen(w, r, ms, options), nodeIds, replacements);
            && (ops != [] ==> Applicable(w.h, ms, ops, SnapshotFor(w, ms, end)))
            && Derived(ms, Chosen(w, r, ms, options), ops, end)
            && RespectsRetention(ms, ops, options.retain)
  {
    var ops := OperationsOf(naming, Chosen(w, r, ms, options), nodeIds, replacements);
    HistoryIsCovered(ms, options.retain, end);
    PrefixBinds(w.h, ms, end);
    ChosenAreDerived(w, r, ms, options, naming, nodeIds, replacements);
    DerivedRespects(ms, Chosen(w, r, ms, options), ops, options.retain);
    if ops != [] {
      PlannedEditsApply(w, ms, options.protectedIds, HistoryEvents(w, r, ms), RecentStart(ms, options.retain),
                        SnapshotFor(w, ms, end), naming, nodeIds, replacements);
    }
  }

  method Apply(w: Setting, ms: seq<Message>, ops: seq<ViewOperation>, snapshot: Snapshot) returns (messages: seq<Message>, applied: bool)
    requires ops != [] ==> Applicable(w.h, ms, ops, snapshot)
    ensures applied && messages == Substitute(ms, ops, 0)
  {
    if ops == [] {
      NothingToDo(ms, 0);
      return ms, true;
    }
    var status;
    status, messages := MaterializeOperations(w.h, ms, ops, Some(snapshot));
    applied := status.Applied?;
  }

  lemma {:induction false} NothingToDo(ms: seq<Message>, k: nat)
    requires k <= |ms|
    ensures Substitute(ms, [], k) == ms[k..]
    decreases |ms| - k
  {
    if k < |ms| {
      NothingToDo(ms, k + 1);
      UntouchedMessage(ms[k], []);
    }
  }

  /** What is shown in a candidate's place: the markers of its nodes, and its text when it failed or was taken. */
  function Shown(r: Rendering, candidates: seq<Candidate>, leaves: seq<Leaf>, taken: set<nat>, i: nat): Text
    requires i < |candidates|
  {
    JoinLines(Markers(NodesOf(leaves, NamesOf(r, leaves), i))
              + if candidates[i].observation.kind.Failures? || i in taken then [candidates[i].observation.text] else [])
  }

  /** What all candidates show. */
  function AllShown(r: Rendering, candidates: seq<Candidate>, leaves: seq<Leaf>, taken: set<nat>): (shown: seq<Text>)
    ensures |shown| == |candidates| && forall i :: 0 <= i < |candidates| ==> shown[i] == Shown(r, candidates, leaves, taken, i)
  {
    seq(|candidates|, i requires 0 <= i < |candidates| => Shown(r, candidates, leaves, taken, i))
  }

  lemma JoinOneMore(lines: seq<Text>, line: Text)
    requires lines != []
    ensures JoinLines(lines + [line]) == JoinLines(lines) + [10] + line
  {
    assert (lines + [line])[..|lines|] == lines;
  }

  lemma WrapperIsShown(r: Rendering, candidates: seq<Candidate>, leaves: seq<Leaf>, taken: set<nat>, i: nat)
    requires i < |candidates| && NodesOf(leaves, NamesOf(r, leaves), i) != []
    ensures var wrapper := Wrapper(candidates[i], NodesOf(leaves, NamesOf(r, leaves), i));
            Shown(r, candidates, leaves, taken, i) == wrapper + if i in taken then Suffix(candidates[i]) else []
  {
    var lines := Markers(NodesOf(leaves, NamesOf(r, leaves), i));
    JoinOneMore(lines, candidates[i].observation.text);
    assert lines + [] == lines;
  }

  /**
   * How the memory of a plan came about: its budget is the most that has room beside the history with bare
   * markers, the choice is greedy, and the memory recalls exactly what was taken.
   */
  ghost predicate Allotted(
      w: Setting, r: Rendering, stored: Tokens, ms: seq<Message>, options: Options, naming: Naming,
      leaves: seq<Leaf>, nodeIds: seq<Digest>, taken: set<nat>, memory: seq<MemoryEntry>, history: nat)
  {
    var candidates := Chosen(w, r, ms, options);
    && |nodeIds| == |candidates|
    && Allots(w, r, stored, ms, options, naming, candidates, AllShown(r, candidates, leaves, {}), nodeIds, taken, memory, history)
  }

  ghost predicate Allots(
      w: Setting, r: Rendering, stored: Tokens, ms: seq<Message>, options: Options, naming: Naming, candidates: seq<Candidate>,
      bare: seq<Text>, nodeIds: seq<Digest>, taken: set<nat>, memory: seq<MemoryEntry>, history: nat)
    requires |nodeIds| == |candidates| == |bare|
  {
    var ranked := Ranked(r, candidates);
    && MostAffordable(options, Larger(Total(r.tokens, Substitute(ms, OperationsOf(naming, candidates, nodeIds, bare), 0)),
                                      Total(stored, ms[RecentStart(ms, options.retain)..]) + SumCounts(w.count, bare)), history)
    && Greedy(w, candidates, bare, ranked, history, taken, |ranked|)
    && RecallsAll(memory, candidates, TakenOf(ranked, taken, |ranked|))
  }

  /** The memory pass, with the budget its baseline leaves. */
  method PlanMemory(
      w: Setting, r: Rendering, stored: Tokens, ms: seq<Message>, options: Options, candidates: seq<Candidate>,
      wrappers: seq<Text>, baseline: seq<Message>, recentStart: nat)
      returns (replacements: seq<Text>, memory: seq<MemoryEntry>, budget: Budget, ghost taken: set<nat>)
    requires |wrappers| == |candidates| && recentStart <= |ms|
    ensures |replacements| == |candidates|
    ensures forall i :: 0 <= i < |candidates| ==> replacements[i] == wrappers[i] + if i in taken then Suffix(candidates[i]) else []
    ensures MostAffordable(options, Larger(Total(r.tokens, baseline), Total(stored, ms[recentStart..]) + SumCounts(w.count, wrappers)),
                           budget.historyBudgetTokens)
    ensures Greedy(w, candidates, wrappers, Ranked(r, candidates), budget.historyBudgetTokens, taken, |Ranked(r, candidates)|)
    ensures RecallsAll(memory, candidates, TakenOf(Ranked(r, candidates), taken, |Ranked(r, candidates)|))
    ensures budget.memoryTokens == MemoryCost(w, memory) <= budget.historyBudgetTokens <= HISTORY_CAP
    ensures budget.targetTokens == options.target && budget.historyBudgetTokens <= options.memoryMax
  {
    var baselineTokens := TotalTokens(r.tokens, baseline);
    var recentTokens := TotalTokens(stored, ms[recentStart..]);
    var history := HistoryBudget(options, baselineTokens, recentTokens, SumCounts(w.count, wrappers));
    HistoryBudgetIsMost(options, baselineTokens, recentTokens, SumCounts(w.count, wrappers));
    var suffixes, memoryTokens;
    suffixes, memory, memoryTokens := SelectMemory(w, candidates, wrappers, Ranked(r, candidates), history);
    replacements := seq(|candidates|, i requires 0 <= i < |candidates| => wrappers[i] + if i in suffixes then suffixes[i] else []);
    budget := Budget(options.target, history, memoryTokens);
    taken := suffixes.Keys;
  }

  /** The last stage: apply the operations, count, and return the plan that the counts allow. */
  method Finish(
      w: Setting, r: Rendering, stored: Tokens, ms: seq<Message>, candidates: seq<Candidate>, draft: Draft, ghost end: nat,
      budget: Budget) returns (plan: Plan)
    requires UniqueIds(ms) && end <= |ms| && draft.snapshot == SnapshotFor(w, ms, end)
    requires Derived(ms, candidates, draft.operations, end)
    requires draft.operations != [] ==> Applicable(w.h, ms, draft.operations, draft.snapshot)
    requires forall node :: node in draft.nodes ==> LeafProvenance(node)
    ensures plan == Planned(w.h, r.tokens, stored, ms, candidates, draft, budget)
    ensures WireValid(plan) <==>
            (plan.compacted ==> Untouched(stored, ms, TouchedIds(draft.operations), |ms|) <= plan.finalTokensEst)
    ensures Fresh(stored, r.tokens, ms) ==> WireValid(plan)
    ensures plan.compacted ==> plan.finalTokensEst == Total(r.tokens, Substitute(ms, draft.operations, 0))
    ensures plan.compacted ==> plan.retainedTokensEst == Untouched(stored, ms, TouchedIds(draft.operations), |ms|)
  {
    RetainedIsUntouched(stored, ms, candidates, draft.operations, end);
    FinishedIsValid(w.h, r.tokens, stored, ms, candidates, draft, end, budget);
    if Fresh(stored, r.tokens, ms) {
      FreshIsValid(w.h, r.tokens, stored, ms, candidates, draft, end, budget);
    }
    var after, applied := Apply(w, ms, draft.operations, draft.snapshot);
    var raw := TotalTokens(stored, ms);
    var final := TotalTokens(r.tokens, after);
    var compacted := applied && draft.operations != [] && final < raw;
    var affected := AffectedOf(candidates);
    var evicted := EvictedTokens(stored, ms, affected);
    plan := Finished(w.h, ms, draft, Indices(affected, |ms|),
                     if compacted then budget else budget.(memoryTokens := 0), compacted, raw, final, evicted);
  }

  /** A compacting plan applies to its history, leaves the retained tail alone and claims what its edits leave. */
  ghost predicate Promises(w: Setting, r: Rendering, ms: seq<Message>, options: Options, plan: Plan) {
    plan.compacted ==>
      && plan.operations.Some? && plan.sourceSnapshot.Some?
      && Applicable(w.h, ms, plan.operations.value, plan.sourceSnapshot.value)
      && plan.finalTokensEst == Total(r.tokens, Substitute(ms, plan.operations.value, 0))
      && RespectsRetention(ms, plan.operations.value, options.retain)
  }

  /** What the stored counts decide: the contract holds exactly when they count no more retained than is left. */
  ghost predicate Counted(stored: Tokens, ms: seq<Message>, plan: Plan) {
    plan.compacted ==>
      plan.operations.Some? && Untouched(stored, ms, TouchedIds(plan.operations.value), |ms|) <= plan.finalTokensEst
  }

  /** With fresh counts every plan is valid, and a compacting one counts its history truthfully. */
  ghost predicate Honest(w: Setting, r: Rendering, stored: Tokens, ms: seq<Message>, plan: Plan) {
    Fresh(stored, r.tokens, ms) ==> WireValid(plan) && (plan.compacted ==> HonestBase(w.h, r.tokens, ms, plan))
  }

  /** What a finished draft keeps of its operations. */
  lemma DraftPromises(
      w: Setting, r: Rendering, stored: Tokens, ms: seq<Message>, options: Options, candidates: seq<Candidate>, draft: Draft,
      end: nat, budget: Budget)
    requires UniqueIds(ms) && end <= |ms| && draft.snapshot == SnapshotFor(w, ms, end)
    requires Derived(ms, candidates, draft.operations, end) && RespectsRetention(ms, draft.operations, options.retain)
    requires draft.operations != [] ==> Applicable(w.h, ms, draft.operations, draft.snapshot)
    requires forall node :: node in draft.nodes ==> LeafProvenance(node)
    ensures var plan := Planned(w.h, r.tokens, stored, ms, candidates, draft, budget);
            Promises(w, r, ms, options, plan) && (WireValid(plan) <==> Counted(stored, ms, plan)) && Honest(w, r, stored, ms, plan)
  {
    FinishedIsValid(w.h, r.tokens, stored, ms, candidates, draft, end, budget);
    RetainedIsUntouched(stored, ms, candidates, draft.operations, end);
    if Fresh(stored, r.tokens, ms) {
      FreshIsValid(w.h, r.tokens, stored, ms, candidates, draft, end, budget);
      FreshTotals(stored, r.tokens, ms, TouchedIds(draft.operations), |ms|);
    }
  }

  /** The plan edits exactly the chosen candidates, when that saves tokens, and each edit leads to its evidence. */
  ghost predicate BuiltFrom(
      w: Setting, r: Rendering, stored: Tokens, ms: seq<Message>, options: Options, naming: Naming, plan: Plan,
      nodeIds: seq<Digest>, replacements: seq<Text>)
  {
    var candidates := Chosen(w, r, ms, options);
    && |nodeIds| == |replacements| == |candidates|
    && var ops := OperationsOf(naming, candidates, nodeIds, replacements);
    && (plan.compacted <==> ops != [] && Total(r.tokens, Substitute(ms, ops, 0)) < Total(stored, ms))
    && (plan.compacted ==> plan.operations == Some(ops) && AllGrounded(plan.nodes, candidates, nodeIds, replacements))
    && (plan.compacted ==> AllTold(naming, candidates, nodeIds, replacements, plan.operations.value))
  }

  /** The memory of a plan costs what its budget says, within the bounds the options give. */
  ghost predicate Budgeted(w: Setting, options: Options, plan: Plan) {
    && plan.budget.Some? && plan.memory.Some? && plan.budget.value.targetTokens == options.target
    && MemoryCost(w, plan.memory.value) == plan.budget.value.memoryTokens <= plan.budget.value.historyBudgetTokens
    && plan.budget.value.historyBudgetTokens <= 4096 && plan.budget.value.historyBudgetTokens <= options.memoryMax
  }

  /** A compacting plan over its target carries the hierarchy above the leaves of its candidates. */
  ghost predicate Evidenced(
      w: Setting, r: Rendering, ms: seq<Message>, options: Options, existing: seq<Hierarchy.Evidence>,
      available: set<Digest>, plan: Plan)
  {
    plan.compacted && plan.rawTokens > options.target ==>
      exists leaves, roots :: LeavesWell(SourcesOf(Chosen(w, r, ms, options), HistoryEvents(w, r, ms)), leaves)
                              && Rooted(r, leaves, roots) && ParentsSent(w, r, existing + roots, available, plan.nodes)
  }

  /** One root for each leaf, with the source tokens of its pieces. */
  ghost predicate Rooted(r: Rendering, leaves: seq<Leaf>, roots: seq<Hierarchy.Evidence>) {
    && |roots| == |leaves|
    && forall i :: 0 <= i < |leaves| ==> roots[i] == Hierarchy.Root(r.leafId(leaves[i]), 0, TokensOf(leaves[i].pieces))
  }

  /** A compacting plan carries a node for each leaf, and the leaves hold every piece of every candidate, in order. */
  ghost predicate Leafed(w: Setting, r: Rendering, ms: seq<Message>, options: Options, plan: Plan) {
    plan.compacted ==>
      exists leaves, groups :: Packed(w, r, ms, options, leaves, groups) && LeavesSent(r, Chosen(w, r, ms, options), leaves, plan.nodes)
  }

  ghost predicate Packed(
      w: Setting, r: Rendering, ms: seq<Message>, options: Options, leaves: seq<Leaf>, groups: seq<seq<Piece>>)
  {
    && LeavesWell(SourcesOf(Chosen(w, r, ms, options), HistoryEvents(w, r, ms)), leaves)
    && |groups| == |Chosen(w, r, ms, options)| && GroupsMade(Chosen(w, r, ms, options), groups, w.count)
    && PiecesOf(leaves) == Flat(groups)
  }

  ghost predicate LeavesSent(r: Rendering, candidates: seq<Candidate>, leaves: seq<Leaf>, nodes: seq<Node>) {
    && |leaves| <= |nodes|
    && forall i :: 0 <= i < |leaves| ==>
         NodeTells(candidates, leaves[i], nodes[i]) && nodes[i].nodeId == r.leafId(leaves[i]) && nodes[i].text == r.leafText(leaves[i])
  }

  lemma LeavesAreSent(w: Setting, r: Rendering, candidates: seq<Candidate>, leaves: seq<Leaf>, parents: seq<Node>)
    requires LeavesOwned(candidates, leaves)
    ensures LeavesSent(r, candidates, leaves, LeafNodes(w, r, candidates, leaves) + parents)
  {
    forall i | 0 <= i < |leaves|
      ensures NodeTells(candidates, leaves[i], LeafNodes(w, r, candidates, leaves)[i])
    {
      LeafNodeTells(candidates, leaves[i], r.leafId(leaves[i]), r.leafText(leaves[i]), w.count(r.leafText(leaves[i])));
    }
  }

  ghost predicate Built(w: Setting, r: Rendering, stored: Tokens, ms: seq<Message>, options: Options, naming: Naming, plan: Plan) {
    && plan.rawTokens == Total(stored, ms) && Budgeted(w, options, plan)
    && exists leaves, nodeIds, taken, memory :: BuiltWith(w, r, stored, ms, options, naming, plan, leaves, nodeIds, taken, memory)
  }

  /** The plan and its leaves, the names of its edits, the candidates it remembers and what it recalls of them. */
  ghost predicate BuiltWith(
      w: Setting, r: Rendering, stored: Tokens, ms: seq<Message>, options: Options, naming: Naming, plan: Plan,
      leaves: seq<Leaf>, nodeIds: seq<Digest>, taken: set<nat>, memory: seq<MemoryEntry>)
  {
    && plan.budget.Some?
    && Named(r, Chosen(w, r, ms, options), leaves, nodeIds)
    && LeavesWell(SourcesOf(Chosen(w, r, ms, options), HistoryEvents(w, r, ms)), leaves)
    && BuiltFrom(w, r, stored, ms, options, naming, plan, nodeIds, AllShown(r, Chosen(w, r, ms, options), leaves, taken))
    && Allotted(w, r, stored, ms, options, naming, leaves, nodeIds, taken, memory, plan.budget.value.historyBudgetTokens)
    && Carries(r, plan, memory)
  }

  /** Every candidate is named after the first of its leaves. */
  ghost predicate Named(r: Rendering, candidates: seq<Candidate>, leaves: seq<Leaf>, nodeIds: seq<Digest>) {
    && |nodeIds| == |candidates|
    && forall i :: 0 <= i < |candidates| ==>
         NodesOf(leaves, NamesOf(r, leaves), i) != [] && nodeIds[i] == NodesOf(leaves, NamesOf(r, leaves), i)[0]
  }

  /** The texts of the entries, one below the other. */
  ghost predicate Summarizes(memory: seq<MemoryEntry>, summary: Text) {
    exists texts :: SameTexts(memory, texts) && summary == JoinLines(texts)
  }

  ghost predicate SameTexts(memory: seq<MemoryEntry>, texts: seq<Text>) {
    |texts| == |memory| && forall i :: 0 <= i < |texts| ==> texts[i] == memory[i].text
  }

  /** A compacting plan carries its memory, summarizes it and is named after its operations; an inert one carries nothing. */
  ghost predicate Carries(r: Rendering, plan: Plan, memory: seq<MemoryEntry>) {
    && plan.operations.Some? && plan.sourceSnapshot.Some? && plan.budget.Some?
    && if plan.compacted then
         && plan.memory == Some(memory) && plan.summary.Some? && Summarizes(memory, plan.summary.value)
         && plan.historyHash == Some(r.historyHash(plan.sourceSnapshot.value, plan.operations.value))
       else
         && plan.memory == Some([]) && plan.summary.None? && plan.historyHash.None? && plan.operations == Some([]) && plan.nodes == []
         && plan.budget.value.memoryTokens == 0
  }

  /**
   * `buildLayeredPlan`. For every history with unique ids, every option set and every counter a compacting
   * plan applies to the history, leaves its retained tail alone and claims exactly the tokens that applying
   * it leaves. It compacts exactly when editing its candidates saves tokens, and every edit starts with the
   * marker of a leaf node that records its source. `stored` are the counts of the analyses, fresh or from
   * the cache: the plan passes the wire contract exactly when they do not count more retained tokens than
   * are left, hence always when they are fresh. With a monotone counter that fits every code point the
   * planner throws exactly when an oversized source ends in a high surrogate.
   */
  method BuildLayeredPlan(
      w: Setting, r: Rendering, stored: Tokens, ms: seq<Message>, options: Options, naming: Naming,
      existing: seq<Hierarchy.Evidence>, available: set<Digest>)
      returns (ok: bool, plan: Plan)
    requires UniqueIds(ms) && RangesSound(w.hs) && NamesFields(naming)
    requires forall i :: 0 <= i < |existing| ==> existing[i].Root?
    ensures ok ==> Promises(w, r, ms, options, plan) && Built(w, r, stored, ms, options, naming, plan)
    ensures ok ==> (WireValid(plan) <==> Counted(stored, ms, plan)) && Honest(w, r, stored, ms, plan)
    ensures ok ==> Evidenced(w, r, ms, options, existing, available, plan) && Leafed(w, r, ms, options, plan)
    ensures PrefixMonotone(w.count) && FitsCharacters(w.count) ==>
              (ok <==> AllCuttable(Chosen(w, r, ms, options), |Chosen(w, r, ms, options)|))
  {
    var recentStart := ComputeRecentStart(ms, options.retain);
    var candidates := CollectCandidates(w, ms, options.protectedIds, HistoryEvents(w, r, ms), recentStart);
    ChosenAreWell(w, r, ms, options);
    var leaves;
    ghost var groups;
    ok, leaves, groups := PackLeaves(candidates, HistoryEvents(w, r, ms), w.count);
    if !ok {
      plan := Finished(w.h, ms, Draft([], [], [], Snapshot([], []), [], []), [], Budget(0, 0, 0), false, 0, 0, 0);
      return;
    }
    plan := PlanFromLeaves(w, r, stored, ms, options, naming, existing, available, candidates, leaves, groups, recentStart);
    assert Packed(w, r, ms, options, leaves, groups);
  }

  lemma WrappersAreGrounded(
      w: Setting, r: Rendering, candidates: seq<Candidate>, leaves: seq<Leaf>, nodeIds: seq<Digest>, wrappers: seq<Text>)
    requires LeavesOwned(candidates, leaves) && |nodeIds| == |wrappers| == |candidates| && Named(r, candidates, leaves, nodeIds)
    requires forall i :: 0 <= i < |candidates| ==> wrappers[i] == Wrapper(candidates[i], NodesOf(leaves, NamesOf(r, leaves), i))
    ensures AllGrounded(LeafNodes(w, r, candidates, leaves), candidates, nodeIds, wrappers)
  {
    forall i | 0 <= i < |candidates|
      ensures Grounded(LeafNodes(w, r, candidates, leaves), candidates[i], nodeIds[i], wrappers[i])
    {
      WrapperIsGrounded(w, r, candidates, leaves, i, nodeIds[i]);
    }
  }

  method PlanFromLeaves(
      w: Setting, r: Rendering, stored: Tokens, ms: seq<Message>, options: Options, naming: Naming,
      existing: seq<Hierarchy.Evidence>, available: set<Digest>,
      candidates: seq<Candidate>, leaves: seq<Leaf>, ghost groups: seq<seq<Piece>>, recentStart: nat)
      returns (plan: Plan)
    requires UniqueIds(ms) && RangesSound(w.hs) && NamesFields(naming)
    requires forall i :: 0 <= i < |existing| ==> existing[i].Root?
    requires candidates == Chosen(w, r, ms, options) && recentStart == RecentStart(ms, options.retain)
    requires LeavesWell(SourcesOf(candidates, HistoryEvents(w, r, ms)), leaves)
    requires |groups| == |candidates| && GroupsMade(candidates, groups, w.count) && PiecesOf(leaves) == Flat(groups)
    ensures Promises(w, r, ms, options, plan) && Built(w, r, stored, ms, options, naming, plan)
    ensures (WireValid(plan) <==> Counted(stored, ms, plan)) && Honest(w, r, stored, ms, plan)
    ensures Evidenced(w, r, ms, options, existing, available, plan)
    ensures plan.compacted ==> LeavesSent(r, candidates, leaves, plan.nodes)
  {
    ChosenAreWell(w, r, ms, options);
    SourcesAreNotEmpty(w, r, ms, options);
    PackedAreOwned(candidates, groups, leaves, w.count);
    LeafNodesAreSound(w, r, ms, candidates, leaves);
    var nodeIds, wrappers := Wrap(w, r, candidates, leaves, groups);
    WrappersAreGrounded(w, r, candidates, leaves, nodeIds, wrappers);
    var raw := TotalTokens(stored, ms);
    var parents := PlanParents(w, r, existing, leaves, available, raw > options.target);
    plan := PlanFromWrappers(w, r, stored, ms, options, naming, candidates, nodeIds, wrappers,
                             LeafNodes(w, r, candidates, leaves), parents, recentStart, leaves);
    LeavesAreSent(w, r, candidates, leaves, parents);
    if raw > options.target {
      assert Rooted(r, leaves, LeafRoots(r, leaves));
      SentAmongMore(w, r, existing + LeafRoots(r, leaves), available, LeafNodes(w, r, candidates, leaves), parents);
    }
  }

  method PlanFromWrappers(
      w: Setting, r: Rendering, stored: Tokens, ms: seq<Message>, options: Options, naming: Naming,
      candidates: seq<Candidate>, nodeIds: seq<Digest>, wrappers: seq<Text>,
      leafNodes: seq<Node>, parents: seq<Node>, recentStart: nat, ghost leaves: seq<Leaf>)
      returns (plan: Plan)
    requires UniqueIds(ms) && RangesSound(w.hs) && NamesFields(naming)
    requires candidates == Chosen(w, r, ms, options) && recentStart == RecentStart(ms, options.retain)
    requires LeavesWell(SourcesOf(candidates, HistoryEvents(w, r, ms)), leaves) && Named(r, candidates, leaves, nodeIds)
    requires |nodeIds| == |wrappers| == |candidates| && AllGrounded(leafNodes, candidates, nodeIds, wrappers)
    requires forall i :: 0 <= i < |candidates| ==> wrappers[i] == Wrapper(candidates[i], NodesOf(leaves, NamesOf(r, leaves), i))
    requires forall node :: node in leafNodes || node in parents ==> LeafProvenance(node)
    ensures Promises(w, r, ms, options, plan) && Built(w, r, stored, ms, options, naming, plan)
    ensures (WireValid(plan) <==> Counted(stored, ms, plan)) && Honest(w, r, stored, ms, plan)
    ensures plan.compacted ==> plan.nodes == leafNodes + parents
  {
    var end := SourceEnd(ms);
    PlannedOperations(w, r, ms, options, naming, nodeIds, wrappers, end);
    var baseline, applied := Apply(w, ms, OperationsOf(naming, candidates, nodeIds, wrappers), SnapshotFor(w, ms, end));
    var replacements, memory, budget;
    ghost var taken;
    replacements, memory, budget, taken := PlanMemory(w, r, stored, ms, options, candidates, wrappers, baseline, recentStart);
    WrappersAreShown(r, candidates, leaves, wrappers, replacements, taken);
    PlannedOperations(w, r, ms, options, naming, nodeIds, replacements, end);
    var ops := OperationsOf(naming, candidates, nodeIds, replacements);
    var snapshot := SnapshotFor(w, ms, end);
    var draft := Draft(ops, leafNodes + parents, memory, snapshot, JoinLines(MemoryTexts(memory)), r.historyHash(snapshot, ops));
    AllGroundedMore(leafNodes, parents, candidates, nodeIds, wrappers, replacements);
    DraftIsFrom(w, r, stored, ms, options, naming, draft, budget, candidates, leaves, nodeIds, taken, wrappers, replacements);
    plan := Conclude(w, r, stored, ms, options, naming, candidates, draft, end, budget);
  }

  lemma DraftIsFrom(
      w: Setting, r: Rendering, stored: Tokens, ms: seq<Message>, options: Options, naming: Naming, draft: Draft, budget: Budget,
      candidates: seq<Candidate>,
      leaves: seq<Leaf>, nodeIds: seq<Digest>, taken: set<nat>, wrappers: seq<Text>, replacements: seq<Text>)
    requires candidates == Chosen(w, r, ms, options)
    requires Named(r, candidates, leaves, nodeIds) && LeavesWell(SourcesOf(candidates, HistoryEvents(w, r, ms)), leaves)
    requires wrappers == AllShown(r, candidates, leaves, {}) && replacements == AllShown(r, candidates, leaves, taken)
    requires AllGrounded(draft.nodes, candidates, nodeIds, replacements)
    requires draft.operations == OperationsOf(naming, candidates, nodeIds, replacements)
    requires MostAffordable(
               options, Larger(Total(r.tokens, Substitute(ms, OperationsOf(naming, candidates, nodeIds, wrappers), 0)),
                               Total(stored, ms[RecentStart(ms, options.retain)..]) + SumCounts(w.count, wrappers)),
               budget.historyBudgetTokens)
    requires Greedy(w, candidates, wrappers, Ranked(r, candidates), budget.historyBudgetTokens, taken, |Ranked(r, candidates)|)
    requires RecallsAll(draft.memory, candidates, TakenOf(Ranked(r, candidates), taken, |Ranked(r, candidates)|))
    requires draft.summary == JoinLines(MemoryTexts(draft.memory)) && draft.historyHash == r.historyHash(draft.snapshot, draft.operations)
    ensures DraftFrom(w, r, stored, ms, options, naming, draft, budget, leaves, nodeIds, taken)
  {
    AllottedFrom(w, r, stored, ms, options, naming, candidates, leaves, nodeIds, taken, wrappers, draft.memory,
                 budget.historyBudgetTokens);
  }

  lemma AllottedFrom(
      w: Setting, r: Rendering, stored: Tokens, ms: seq<Message>, options: Options, naming: Naming, candidates: seq<Candidate>,
      leaves: seq<Leaf>, nodeIds: seq<Digest>, taken: set<nat>, wrappers: seq<Text>, memory: seq<MemoryEntry>, history: nat)
    requires candidates == Chosen(w, r, ms, options)
    requires |nodeIds| == |candidates| && wrappers == AllShown(r, candidates, leaves, {})
    requires Allots(w, r, stored, ms, options, naming, candidates, wrappers, nodeIds, taken, memory, history)
    ensures Allotted(w, r, stored, ms, options, naming, leaves, nodeIds, taken, memory, history)
  {
  }

  lemma WrappersAreShown(
      r: Rendering, candidates: seq<Candidate>, leaves: seq<Leaf>, wrappers: seq<Text>, replacements: seq<Text>, taken: set<nat>)
    requires |wrappers| == |replacements| == |candidates|
    requires forall i :: 0 <= i < |candidates| ==>
               && NodesOf(leaves, NamesOf(r, leaves), i) != []
               && wrappers[i] == Wrapper(candidates[i], NodesOf(leaves, NamesOf(r, leaves), i))
               && replacements[i] == wrappers[i] + if i in taken then Suffix(candidates[i]) else []
    ensures wrappers == AllShown(r, candidates, leaves, {}) && replacements == AllShown(r, candidates, leaves, taken)
  {
    forall i | 0 <= i < |candidates|
      ensures wrappers[i] == Shown(r, candidates, leaves, {}, i) && replacements[i] == Shown(r, candidates, leaves, taken, i)
    {
      WrapperIsShown(r, candidates, leaves, {}, i);
      WrapperIsShown(r, candidates, leaves, taken, i);
    }
  }

  lemma AllGroundedMore(
      leafNodes: seq<Node>, parents: seq<Node>, candidates: seq<Candidate>, nodeIds: seq<Digest>, wrappers: seq<Text>,
      replacements: seq<Text>)
    requires |nodeIds| == |wrappers| == |replacements| == |candidates| && AllGrounded(leafNodes, candidates, nodeIds, wrappers)
    requires forall i :: 0 <= i < |wrappers| ==> wrappers[i] <= replacements[i]
    ensures AllGrounded(leafNodes + parents, candidates, nodeIds, replacements)
  {
    forall i | 0 <= i < |candidates|
      ensures Grounded(leafNodes + parents, candidates[i], nodeIds[i], replacements[i])
    {
      GroundedMore(leafNodes, parents, candidates[i], nodeIds[i], wrappers[i], replacements[i]);
    }
  }

  /** The draft edits the chosen candidates, its nodes ground every replacement, and its memory is allotted. */
  ghost predicate DraftFrom(
      w: Setting, r: Rendering, stored: Tokens, ms: seq<Message>, options: Options, naming: Naming, draft: Draft, budget: Budget,
      leaves: seq<Leaf>, nodeIds: seq<Digest>, taken: set<nat>)
  {
    var candidates := Chosen(w, r, ms, options);
    var replacements := AllShown(r, candidates, leaves, taken);
    && Named(r, candidates, leaves, nodeIds)
    && LeavesWell(SourcesOf(candidates, HistoryEvents(w, r, ms)), leaves)
    && AllGrounded(draft.nodes, candidates, nodeIds, replacements)
    && draft.operations == OperationsOf(naming, candidates, nodeIds, replacements)
    && Allotted(w, r, stored, ms, options, naming, leaves, nodeIds, taken, draft.memory, budget.historyBudgetTokens)
    && draft.summary == JoinLines(MemoryTexts(draft.memory)) && draft.historyHash == r.historyHash(draft.snapshot, draft.operations)
  }

  method Conclude(
      w: Setting, r: Rendering, stored: Tokens, ms: seq<Message>, options: Options, naming: Naming,
      candidates: seq<Candidate>, draft: Draft, ghost end: nat, budget: Budget)
      returns (plan: Plan)
    requires UniqueIds(ms) && end <= |ms| && draft.snapshot == SnapshotFor(w, ms, end) && candidates == Chosen(w, r, ms, options)
    requires Derived(ms, candidates, draft.operations, end) && RespectsRetention(ms, draft.operations, options.retain)
    requires draft.operations != [] ==> Applicable(w.h, ms, draft.operations, draft.snapshot)
    requires forall node :: node in draft.nodes ==> LeafProvenance(node)
    requires exists leaves, nodeIds, taken :: DraftFrom(w, r, stored, ms, options, naming, draft, budget, leaves, nodeIds, taken)
    requires budget.memoryTokens == MemoryCost(w, draft.memory) <= budget.historyBudgetTokens <= HISTORY_CAP
    requires budget.historyBudgetTokens <= options.memoryMax && budget.targetTokens == options.target
    ensures Promises(w, r, ms, options, plan) && Built(w, r, stored, ms, options, naming, plan)
    ensures (WireValid(plan) <==> Counted(stored, ms, plan)) && Honest(w, r, stored, ms, plan)
    ensures plan.compacted ==> plan.nodes == draft.nodes
  {
    DraftPromises(w, r, stored, ms, options, candidates, draft, end, budget);
    PlanIsBuilt(w, r, stored, ms, options, naming, draft, budget);
    plan := Finish(w, r, stored, ms, candidates, draft, end, budget);
  }

  lemma DraftBuilds(
      w: Setting, r: Rendering, stored: Tokens, ms: seq<Message>, options: Options, naming: Naming, draft: Draft, budget: Budget,
      leaves: seq<Leaf>, nodeIds: seq<Digest>, taken: set<nat>)
    requires DraftFrom(w, r, stored, ms, options, naming, draft, budget, leaves, nodeIds, taken)
    ensures var candidates := Chosen(w, r, ms, options);
            BuiltFrom(w, r, stored, ms, options, naming, Planned(w.h, r.tokens, stored, ms, candidates, draft, budget), nodeIds,
                      AllShown(r, candidates, leaves, taken))
  {
    OperationsTold(naming, Chosen(w, r, ms, options), nodeIds, AllShown(r, Chosen(w, r, ms, options), leaves, taken));
  }

  lemma DraftCarries(
      w: Setting, r: Rendering, stored: Tokens, ms: seq<Message>, candidates: seq<Candidate>, draft: Draft, budget: Budget)
    requires draft.summary == JoinLines(MemoryTexts(draft.memory)) && draft.historyHash == r.historyHash(draft.snapshot, draft.operations)
    ensures Carries(r, Planned(w.h, r.tokens, stored, ms, candidates, draft, budget), draft.memory)
  {
    assert SameTexts(draft.memory, MemoryTexts(draft.memory));
  }

  lemma PlanIsBuilt(
      w: Setting, r: Rendering, stored: Tokens, ms: seq<Message>, options: Options, naming: Naming, draft: Draft, budget: Budget)
    requires exists leaves, nodeIds, taken :: DraftFrom(w, r, stored, ms, options, naming, draft, budget, leaves, nodeIds, taken)
    requires budget.memoryTokens == MemoryCost(w, draft.memory) <= budget.historyBudgetTokens <= HISTORY_CAP
    requires budget.historyBudgetTokens <= options.memoryMax && budget.targetTokens == options.target
    ensures var plan := Planned(w.h, r.tokens, stored, ms, Chosen(w, r, ms, options), draft, budget);
            Built(w, r, stored, ms, options, naming, plan) && (plan.compacted ==> plan.nodes == draft.nodes)
  {
    var leaves, nodeIds, taken :| DraftFrom(w, r, stored, ms, options, naming, draft, budget, leaves, nodeIds, taken);
    var plan := Planned(w.h, r.tokens, stored, ms, Chosen(w, r, ms, options), draft, budget);
    DraftBuilds(w, r, stored, ms, options, naming, draft, budget, leaves, nodeIds, taken);
    DraftCarries(w, r, stored, ms, Chosen(w, r, ms, options), draft, budget);
    assert BuiltWith(w, r, stored, ms, options, naming, plan, leaves, nodeIds, taken, draft.memory);
  }

  function MemoryTexts(memory: seq<MemoryEntry>): seq<Text> {
    seq(|memory|, i requires 0 <= i < |memory| => memory[i].text)
  }
}
