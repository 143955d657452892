/** From candidates to evidence leaves and their nodes. */
module Leaves {
  import opened Texts
  import opened Messages
  import opened Contract
  import opened Packing

  /** The text a candidate would replace. */
  function SourceOf(c: Candidate): Text {
    var o := c.observation;
    if o.partIndex >= |c.message.parts| then []
    else match c.message.parts[o.partIndex]
      case ToolPart(_, _, _, _, _, _) => OutputOf(c.message.parts[o.partIndex])
      case TextPart(text) => if o.span.Some? && o.span.value.start <= o.span.value.end <= |text|
                             then text[o.span.value.start..o.span.value.end] else []
  }

  function BaseOf(c: Candidate): nat {
    if c.observation.span.Some? then c.observation.span.value.start else 0
  }

  /** A tool call's output, or the named range of a text. */
  lemma SourceIsField(c: Candidate)
    requires c.observation.partIndex < |c.message.parts|
    ensures var part := c.message.parts[c.observation.partIndex];
            && (part.ToolPart? ==> SourceOf(c) == if part.output.Some? then part.output.value else [])
            && (part.TextPart? && c.observation.span.Some? && c.observation.span.value.start <= c.observation.span.value.end <= |part.text| ==>
                  SourceOf(c) == part.text[c.observation.span.value.start..c.observation.span.value.end])
  {
  }

  predicate Oversized(c: Candidate) {
    c.observation.sourceTokens > LEAF_SOURCE_TOKENS
  }

  function TilePiece(owner: nat, c: Candidate, tile: Span, count: Counter): Piece
    requires tile.start <= tile.end <= |SourceOf(c)|
  {
    Piece(owner, Some(Span(BaseOf(c) + tile.start, BaseOf(c) + tile.end)), count(SourceOf(c)[tile.start..tile.end]))
  }

  /** The pieces are one per tile, in order, at the tile's place in the part. */
  ghost predicate TilePieces(owner: nat, c: Candidate, tiles: seq<Span>, pieces: seq<Piece>, count: Counter) {
    && |pieces| == |tiles|
    && forall i :: 0 <= i < |tiles| ==>
         tiles[i].start <= tiles[i].end <= |SourceOf(c)| && TileTold(owner, c, tiles[i], pieces[i], count)
  }

  ghost predicate TileTold(owner: nat, c: Candidate, tile: Span, piece: Piece, count: Counter)
    requires tile.start <= tile.end <= |SourceOf(c)|
  {
    var base := if c.observation.span.Some? then c.observation.span.value.start else 0;
    && piece.owner == owner && piece.span == Some(Span(base + tile.start, base + tile.end))
    && piece.tokens == count(SourceOf(c)[tile.start..tile.end])
  }

  /** A candidate that fits a leaf is one piece; a larger one is cut into the tiles of its source. */
  ghost predicate PiecesMade(owner: nat, c: Candidate, pieces: seq<Piece>, count: Counter) {
    if c.observation.sourceTokens <= 8192 then pieces == [Piece(owner, None, c.observation.sourceTokens)]
    else exists tiles :: Tiled(SourceOf(c), tiles, |SourceOf(c)|) && TilePieces(owner, c, tiles, pieces, count)
  }

  function Flat(groups: seq<seq<Piece>>): seq<Piece> {
    if groups == [] then [] else Flat(groups[..|groups| - 1]) + groups[|groups| - 1]
  }

  predicate Cuttable(c: Candidate) {
    Oversized(c) && SourceOf(c) != [] ==> !IsHigh(SourceOf(c)[|SourceOf(c)| - 1])
  }

  /** No candidate's message has more state events than a leaf may carry. */
  ghost predicate EventsBounded(sources: Sources) {
    forall k :: 0 <= k < |sources.messageOf| && sources.messageOf[k] < |sources.events| ==>
      |sources.events[sources.messageOf[k]]| <= LEAF_EVENTS
  }

  lemma {:induction false} BoundedEvents(sources: Sources, piece: Piece)
    requires EventsBounded(sources)
    ensures |EventsOf(sources, piece)| <= LEAF_EVENTS
  {
  }

  method AddTiles(packer: LeafPacker, owner: nat, c: Candidate, tiles: seq<Span>, count: Counter) returns (ghost pieces: seq<Piece>)
    requires packer.Ready() && EventsBounded(packer.sources)
    requires Tiled(SourceOf(c), tiles, |SourceOf(c)|)
    requires forall i :: 0 <= i < |tiles| ==> tiles[i].start <= tiles[i].end <= |SourceOf(c)|
    modifies packer
    ensures packer.Ready() && packer.Added() == old(packer.Added()) + pieces
    ensures TilePieces(owner, c, tiles, pieces, count)
  {
    pieces := [];
    for i := 0 to |tiles|
      invariant packer.Ready() && packer.Added() == old(packer.Added()) + pieces
      invariant TilePieces(owner, c, tiles[..i], pieces, count)
    {
      var piece := TilePiece(owner, c, tiles[i], count);
      BoundedEvents(packer.sources, piece);
      packer.AddPiece(piece);
      TilePiecesPush(owner, c, tiles, i, pieces, piece, count);
      pieces := pieces + [piece];
    }
    assert tiles[..|tiles|] == tiles;
  }

  lemma TilePiecesPush(owner: nat, c: Candidate, tiles: seq<Span>, i: nat, pieces: seq<Piece>, piece: Piece, count: Counter)
    requires i < |tiles| && TilePieces(owner, c, tiles[..i], pieces, count)
    requires tiles[i].start <= tiles[i].end <= |SourceOf(c)| && piece == TilePiece(owner, c, tiles[i], count)
    ensures TilePieces(owner, c, tiles[..i + 1], pieces + [piece], count)
  {
    assert tiles[..i + 1] == tiles[..i] + [tiles[i]];
    assert TileTold(owner, c, tiles[i], piece, count);
  }

  /** No piece is too large for a leaf of its own. */
  ghost predicate Light(pieces: seq<Piece>) {
    forall i :: 0 <= i < |pieces| ==> pieces[i].tokens <= LEAF_SOURCE_TOKENS
  }

  lemma TilesAreLight(owner: nat, c: Candidate, tiles: seq<Span>, pieces: seq<Piece>, count: Counter)
    requires TilesBounded(SourceOf(c), tiles, count) && TilePieces(owner, c, tiles, pieces, count)
    ensures Light(pieces)
  {
    forall i | 0 <= i < |pieces|
      ensures pieces[i].tokens <= LEAF_SOURCE_TOKENS
    {
      assert TileBounded(SourceOf(c), tiles[i], count) && pieces[i] == TilePiece(owner, c, tiles[i], count);
    }
  }

  method AddCandidate(packer: LeafPacker, owner: nat, c: Candidate, count: Counter) returns (ok: bool, ghost pieces: seq<Piece>)
    requires packer.Ready() && EventsBounded(packer.sources)
    modifies packer
    ensures packer.Ready()
    ensures ok ==> packer.Added() == old(packer.Added()) + pieces && PiecesMade(owner, c, pieces, count)
    ensures ok && PrefixMonotone(count) ==> Light(pieces)
    ensures PrefixMonotone(count) && FitsCharacters(count) ==> (ok <==> Cuttable(c))
  {
    pieces := [];
    if !Oversized(c) {
      var piece := Piece(owner, None, c.observation.sourceTokens);
      BoundedEvents(packer.sources, piece);
      packer.AddPiece(piece);
      return true, [piece];
    }
    var tiles;
    ok, tiles := CutSource(SourceOf(c), count);
    if ok {
      TilesPasteBack(SourceOf(c), tiles, |SourceOf(c)|);
      pieces := AddTiles(packer, owner, c, tiles, count);
      if PrefixMonotone(count) {
        TilesAreLight(owner, c, tiles, pieces, count);
      }
    }
  }

  ghost predicate GroupsMade(candidates: seq<Candidate>, groups: seq<seq<Piece>>, count: Counter) {
    |groups| <= |candidates| && forall i :: 0 <= i < |groups| ==> PiecesMade(i, candidates[i], groups[i], count)
  }

  ghost predicate AllCuttable(candidates: seq<Candidate>, n: nat) {
    n <= |candidates| && forall i :: 0 <= i < n ==> Cuttable(candidates[i])
  }

  lemma {:induction false} OneMoreGroup(candidates: seq<Candidate>, groups: seq<seq<Piece>>, pieces: seq<Piece>, count: Counter)
    requires GroupsMade(candidates, groups, count) && |groups| < |candidates|
    requires PiecesMade(|groups|, candidates[|groups|], pieces, count)
    ensures GroupsMade(candidates, groups + [pieces], count) && Flat(groups + [pieces]) == Flat(groups) + pieces
  {
    assert (groups + [pieces])[..|groups|] == groups;
  }

  method AddAll(packer: LeafPacker, candidates: seq<Candidate>, count: Counter) returns (ok: bool, ghost groups: seq<seq<Piece>>)
    requires packer.Ready() && packer.Added() == [] && EventsBounded(packer.sources)
    modifies packer
    ensures packer.Ready()
    ensures PrefixMonotone(count) && FitsCharacters(count) ==> (ok <==> AllCuttable(candidates, |candidates|))
    ensures ok && PrefixMonotone(count) ==> Light(Flat(groups))
    ensures ok ==> |groups| == |candidates| && GroupsMade(candidates, groups, count) && packer.Added() == Flat(groups)
  {
    groups := [];
    for i := 0 to |candidates|
      invariant packer.Ready() && |groups| == i
      invariant GroupsMade(candidates, groups, count) && packer.Added() == Flat(groups)
      invariant PrefixMonotone(count) && FitsCharacters(count) ==> AllCuttable(candidates, i)
      invariant PrefixMonotone(count) ==> Light(Flat(groups))
    {
      ghost var pieces;
      ok, pieces := AddCandidate(packer, i, candidates[i], count);
      if !ok {
        return false, groups;
      }
      OneMoreGroup(candidates, groups, pieces, count);
      groups := groups + [pieces];
    }
    ok := true;
  }

  /**
   * Packing all candidates: the leaves, in order, hold every piece once. With a monotone counter no leaf
   * exceeds its token limit, and with one that can also fit every code point packing throws exactly when an
   * oversized source ends in a high surrogate.
   */
  method PackLeaves(candidates: seq<Candidate>, events: seq<seq<StateEvent>>, count: Counter)
      returns (ok: bool, leaves: seq<Leaf>, ghost groups: seq<seq<Piece>>)
    requires EventsBounded(SourcesOf(candidates, events))
    ensures PrefixMonotone(count) && FitsCharacters(count) ==> (ok <==> AllCuttable(candidates, |candidates|))
    ensures ok ==> LeavesWell(SourcesOf(candidates, events), leaves)
    ensures ok && PrefixMonotone(count) ==> LeavesLight(leaves)
    ensures ok ==> |groups| == |candidates| && GroupsMade(candidates, groups, count) && PiecesOf(leaves) == Flat(groups)
  {
    var packer := new LeafPacker(SourcesOf(candidates, events));
    ok, groups := AddAll(packer, candidates, count);
    leaves := [];
    if ok {
      packer.Flush();
      leaves := packer.leaves;
      assert PiecesOf(leaves) + [] == PiecesOf(leaves);
      if PrefixMonotone(count) {
        LightLeaves(SourcesOf(candidates, events), leaves);
      }
    }
  }

  ghost predicate LeavesLight(leaves: seq<Leaf>) {
    forall i :: 0 <= i < |leaves| ==> TokensOf(leaves[i].pieces) <= LEAF_SOURCE_TOKENS
  }

  lemma {:induction false} InPieces(leaves: seq<Leaf>, i: nat, piece: Piece)
    requires i < |leaves| && piece in leaves[i].pieces
    ensures piece in PiecesOf(leaves)
  {
    if i < |leaves| - 1 {
      InPieces(leaves[..|leaves| - 1], i, piece);
    }
  }

  lemma LightLeaves(sources: Sources, leaves: seq<Leaf>)
    requires LeavesWell(sources, leaves) && Light(PiecesOf(leaves))
    ensures LeavesLight(leaves)
  {
    forall i | 0 <= i < |leaves|
      ensures TokensOf(leaves[i].pieces) <= LEAF_SOURCE_TOKENS
    {
      assert LeafWell(sources, leaves[i]);
      if |leaves[i].pieces| == 1 {
        InPieces(leaves, i, leaves[i].pieces[0]);
        assert TokensOf(leaves[i].pieces) == leaves[i].pieces[0].tokens by {
          assert leaves[i].pieces[..0] == [];
        }
      }
    }
  }

  function SourcesOf(candidates: seq<Candidate>, events: seq<seq<StateEvent>>): Sources {
    Sources(events, seq(|candidates|, i requires 0 <= i < |candidates| => candidates[i].messageIndex))
  }

  // ---------------------------------------------------------- every candidate has a node

  lemma {:induction false} FlatHas(groups: seq<seq<Piece>>, i: nat, piece: Piece)
    requires i < |groups| && piece in groups[i]
    ensures piece in Flat(groups)
  {
    if i < |groups| - 1 {
      FlatHas(groups[..|groups| - 1], i, piece);
    }
  }

  lemma {:induction false} LeafHas(leaves: seq<Leaf>, piece: Piece) returns (i: nat)
    requires piece in PiecesOf(leaves)
    ensures i < |leaves| && piece in leaves[i].pieces
  {
    if piece in leaves[|leaves| - 1].pieces {
      i := |leaves| - 1;
    } else {
      i := LeafHas(leaves[..|leaves| - 1], piece);
    }
  }

  lemma {:induction false} MadeIsNotEmpty(owner: nat, c: Candidate, pieces: seq<Piece>, count: Counter)
    requires PiecesMade(owner, c, pieces, count) && SourceOf(c) != []
    ensures pieces != [] && pieces[0].owner == owner
  {
  }

  predicate Holds(leaf: Leaf, owner: nat) {
    exists i :: 0 <= i < |leaf.pieces| && leaf.pieces[i].owner == owner
  }

  /** Every candidate of a packing has a leaf, so its first node exists. */
  lemma EveryCandidateHasALeaf(
      candidates: seq<Candidate>, groups: seq<seq<Piece>>, leaves: seq<Leaf>, count: Counter, owner: nat)
      returns (i: nat)
    requires |groups| == |candidates| && GroupsMade(candidates, groups, count) && PiecesOf(leaves) == Flat(groups)
    requires owner < |candidates| && SourceOf(candidates[owner]) != []
    ensures i < |leaves| && Holds(leaves[i], owner)
  {
    MadeIsNotEmpty(owner, candidates[owner], groups[owner], count);
    var piece := groups[owner][0];
    FlatHas(groups, owner, piece);
    i := LeafHas(leaves, piece);
    var k :| 0 <= k < |leaves[i].pieces| && leaves[i].pieces[k] == piece;
  }

  /** The node ids of a candidate: one per leaf that holds a piece of it, repeats in a row dropped. */
  function NodesOf(leaves: seq<Leaf>, names: seq<Digest>, owner: nat): seq<Digest>
    requires |names| == |leaves|
  {
    if leaves == [] then []
    else
      var k := |leaves| - 1;
      var before := NodesOf(leaves[..k], names[..k], owner);
      if Holds(leaves[k], owner) && (before == [] || before[|before| - 1] != names[k]) then before + [names[k]] else before
  }

  lemma {:induction false} NodesNonEmpty(leaves: seq<Leaf>, names: seq<Digest>, owner: nat, i: nat)
    requires |names| == |leaves| && i < |leaves| && Holds(leaves[i], owner)
    ensures NodesOf(leaves, names, owner) != []
  {
    if i < |leaves| - 1 {
      NodesNonEmpty(leaves[..|leaves| - 1], names[..|leaves| - 1], owner, i);
    }
  }

  /** A candidate's node ids are the names of the leaves that hold a piece of it. */
  lemma {:induction false} NodesAreHolders(leaves: seq<Leaf>, names: seq<Digest>, owner: nat, id: Digest)
    requires |names| == |leaves|
    ensures id in NodesOf(leaves, names, owner) <==> exists i :: 0 <= i < |leaves| && Holds(leaves[i], owner) && names[i] == id
  {
    if leaves != [] {
      var k := |leaves| - 1;
      NodesAreHolders(leaves[..k], names[..k], owner, id);
      assert forall i :: 0 <= i < k ==> leaves[..k][i] == leaves[i] && names[..k][i] == names[i];
    }
  }

  // ---------------------------------------------------------------------- provenance

  function RefOf(candidates: seq<Candidate>, piece: Piece): SourceRef
    requires piece.owner < |candidates|
  {
    var c := candidates[piece.owner];
    var span := if piece.span.Some? then piece.span else c.observation.span;
    SourceRef(c.message.id, c.digest, c.observation.partIndex,
              if span.Some? then Some(span.value.start) else None, if span.Some? then Some(span.value.end) else None)
  }

  ghost predicate Owned(candidates: seq<Candidate>, pieces: seq<Piece>) {
    forall i :: 0 <= i < |pieces| ==> pieces[i].owner < |candidates|
  }

  function RefsOf(candidates: seq<Candidate>, pieces: seq<Piece>): seq<SourceRef>
    requires Owned(candidates, pieces)
  {
    seq(|pieces|, i requires 0 <= i < |pieces| => RefOf(candidates, pieces[i]))
  }

  /** The node of a leaf; its clipped summary and its count are the caller's. */
  function LeafNode(candidates: seq<Candidate>, leaf: Leaf, nodeId: Digest, text: Text, tokens: nat): Node
    requires Owned(candidates, leaf.pieces)
  {
    Node(nodeId, 0, [], RefsOf(candidates, leaf.pieces), Some(leaf.events), text, tokens, TokensOf(leaf.pieces))
  }

  /** The node lists the places its pieces come from, one reference each, and carries the events of the leaf. */
  ghost predicate NodeTells(candidates: seq<Candidate>, leaf: Leaf, node: Node) {
    && node.level == 0 && node.children == [] && node.stateEvents == Some(leaf.events) && node.sourceTokens == TokensOf(leaf.pieces)
    && |node.sourceRefs| == |leaf.pieces|
    && forall i :: 0 <= i < |leaf.pieces| ==>
         leaf.pieces[i].owner < |candidates| && RefTells(candidates[leaf.pieces[i].owner], leaf.pieces[i].span, node.sourceRefs[i])
  }

  /** Message, digest and part of the candidate, with the bounds of the piece, or else those of the candidate itself. */
  ghost predicate RefTells(c: Candidate, span: Option<Span>, ref: SourceRef) {
    && ref.messageId == c.message.id && ref.contentHash == c.digest && ref.partIndex == c.observation.partIndex
    && match if span.Some? then span else c.observation.span
       case None => ref.start.None? && ref.end.None?
       case Some(at) => ref.start == Some(at.start) && ref.end == Some(at.end)
  }

  lemma LeafNodeTells(candidates: seq<Candidate>, leaf: Leaf, nodeId: Digest, text: Text, tokens: nat)
    requires Owned(candidates, leaf.pieces)
    ensures NodeTells(candidates, leaf, LeafNode(candidates, leaf, nodeId, text, tokens))
  {
    forall i | 0 <= i < |leaf.pieces|
      ensures RefTells(candidates[leaf.pieces[i].owner], leaf.pieces[i].span, RefOf(candidates, leaf.pieces[i]))
    {
    }
  }

  /** Candidates belong to messages of the history, with their digests. */
  ghost predicate FromHistory(h: Hashing, ms: seq<Message>, candidates: seq<Candidate>) {
    forall i :: 0 <= i < |candidates| ==>
      && candidates[i].messageIndex < |ms|
      && candidates[i].message == ms[candidates[i].messageIndex]
      && candidates[i].digest == h.content(candidates[i].message)
  }

  /** Each message's events name that message and its digest as their source. */
  ghost predicate EventsNameTheirMessage(h: Hashing, ms: seq<Message>, events: seq<seq<StateEvent>>) {
    |events| == |ms| &&
    forall i :: 0 <= i < |events| ==>
      forall e :: e in events[i] ==> e.sourceIds == [ms[i].id] && e.sourceDigests == [h.content(ms[i])]
  }

  lemma {:induction false} DigestRecorded(refs: seq<SourceRef>, id: Text, digest: Digest, k: nat)
    requires k < |refs| && refs[k].messageId == id
    requires forall i :: 0 <= i < |refs| && refs[i].messageId == id ==> refs[i].contentHash == digest
    ensures LastDigest(refs, id) == Some(digest)
  {
    if refs[|refs| - 1].messageId != id {
      DigestRecorded(refs[..|refs| - 1], id, digest, k);
    }
  }

  lemma {:induction false} EventTraced(
      h: Hashing, ms: seq<Message>, candidates: seq<Candidate>, events: seq<seq<StateEvent>>, leaf: Leaf, e: StateEvent, k: nat)
    requires UniqueIds(ms) && FromHistory(h, ms, candidates) && EventsNameTheirMessage(h, ms, events)
    requires Owned(candidates, leaf.pieces) && k < |leaf.pieces|
    requires e in EventsOf(SourcesOf(candidates, events), leaf.pieces[k])
    ensures EventSourced(RefsOf(candidates, leaf.pieces), e)
  {
    var refs, c := RefsOf(candidates, leaf.pieces), candidates[leaf.pieces[k].owner];
    var id := ms[c.messageIndex].id;
    assert refs[k].messageId == id;
    forall i | 0 <= i < |refs| && refs[i].messageId == id
      ensures refs[i].contentHash == h.content(ms[c.messageIndex])
    {
      var other := candidates[leaf.pieces[i].owner];
      assert ms[other.messageIndex].id == id;
    }
    DigestRecorded(refs, id, h.content(ms[c.messageIndex]), k);
  }

  /** A leaf's node passes the provenance rule: its events are few, distinct, and sourced in the leaf. */
  lemma LeafNodeIsSound(
      h: Hashing, ms: seq<Message>, candidates: seq<Candidate>, events: seq<seq<StateEvent>>, leaf: Leaf, nodeId: Digest,
      text: Text, tokens: nat)
    requires UniqueIds(ms) && FromHistory(h, ms, candidates) && EventsNameTheirMessage(h, ms, events)
    requires Owned(candidates, leaf.pieces) && LeafWell(SourcesOf(candidates, events), leaf)
    ensures LeafProvenance(LeafNode(candidates, leaf, nodeId, text, tokens))
  {
    forall i | 0 <= i < |leaf.events|
      ensures EventSourced(RefsOf(candidates, leaf.pieces), leaf.events[i])
    {
      assert leaf.events[i] in leaf.events;
      var k :| 0 <= k < |leaf.pieces| && leaf.events[i] in EventsOf(SourcesOf(candidates, events), leaf.pieces[k]);
      EventTraced(h, ms, candidates, events, leaf, leaf.events[i], k);
    }
  }
}
