/** Evidence leaves: oversized sources are cut into tiles, and the tiles are packed into bounded leaves. */
module Packing {
  import opened Texts
  import opened Messages
  import opened Contract

  const LEAF_SOURCE_TOKENS := 8192
  const LEAF_EVENTS := 64

  type Counter = Text -> nat

  datatype Span = Span(start: nat, end: nat)

  /** A replaceable field: a whole tool output, or a span of a text part. */
  datatype Observation = Observation(
    partIndex: nat, span: Option<Span>, fieldDigest: Digest, sourceTokens: nat, text: Text, kind: MemoryKind, key: Digest)

  datatype Candidate = Candidate(observation: Observation, message: Message, messageIndex: nat, digest: Digest)

  /** A piece of candidate number `owner`; without a span it is the candidate's whole source. */
  datatype Piece = Piece(owner: nat, span: Option<Span>, tokens: nat)

  // ------------------------------------------------------------------ cutting a source

  ghost predicate PrefixMonotone(count: Counter) {
    forall text: Text, n: nat :: n <= |text| ==> count(text[..n]) <= count(text)
  }

  /** No code point is too large for a leaf. */
  ghost predicate FitsCharacters(count: Counter) {
    forall text: Text :: |text| <= 2 ==> count(text) <= LEAF_SOURCE_TOKENS
  }

  lemma {:induction false} ShorterCountsLess(count: Counter, source: Text, offset: nat, a: nat, b: nat)
    requires PrefixMonotone(count) && offset <= a <= b <= |source|
    ensures count(source[offset..a]) <= count(source[offset..b])
  {
    assert source[offset..b][..a - offset] == source[offset..a];
  }

  /** The largest end the counter admits, found by bisection. */
  method Bisect(source: Text, offset: nat, limit: nat, count: Counter) returns (end: nat)
    requires offset < limit <= |source|
    ensures offset <= end <= limit && (end == offset || count(source[offset..end]) <= LEAF_SOURCE_TOKENS)
    ensures PrefixMonotone(count) ==> forall x :: end < x <= limit ==> count(source[offset..x]) > LEAF_SOURCE_TOKENS
  {
    var low, high := offset, limit;
    while low < high
      invariant offset <= low <= high <= limit
      invariant low == offset || count(source[offset..low]) <= LEAF_SOURCE_TOKENS
      invariant PrefixMonotone(count) ==> forall x :: high < x <= limit ==> count(source[offset..x]) > LEAF_SOURCE_TOKENS
    {
      var mid := (low + high + 1) / 2;
      if count(source[offset..mid]) <= LEAF_SOURCE_TOKENS {
        low := mid;
      } else {
        if PrefixMonotone(count) {
          forall x | mid <= x <= limit
            ensures count(source[offset..x]) > LEAF_SOURCE_TOKENS
          {
            ShorterCountsLess(count, source, offset, mid, x);
          }
        }
        high := mid - 1;
      }
    }
    end := low;
  }

  /** A tile of a source: not empty, not ending inside a surrogate pair. */
  ghost predicate TileAt(source: Text, offset: nat, end: nat) {
    offset < end <= |source| && !(end < |source| && IsHigh(source[end - 1]) && IsLow(source[end]))
  }

  /**
   * A tile that could not be longer: it ends with the source or before its last, unpaired half of a pair, it
   * has all the 32768 units that one tile may have, or one or two units more would exceed 8192 tokens.
   */
  ghost predicate TileFull(source: Text, start: nat, end: nat, count: Counter) {
    || end == |source| || (end + 1 == |source| && IsHigh(source[end]))
    || end + 1 >= start + 32768
    || TooMany(source, start, end + 1, count) || TooMany(source, start, end + 2, count)
  }

  ghost predicate TooMany(source: Text, start: nat, end: nat, count: Counter) {
    start <= end <= |source| && count(source[start..end]) > 8192
  }

  method TileEnd(source: Text, offset: nat, count: Counter) returns (end: nat)
    requires offset < |source|
    ensures end == offset || TileAt(source, offset, end)
    ensures PrefixMonotone(count) && end > offset ==> count(source[offset..end]) <= LEAF_SOURCE_TOKENS
    ensures PrefixMonotone(count) && FitsCharacters(count) ==>
              (end == offset <==> offset + 1 == |source| && IsHigh(source[offset]))
    ensures end == |source| && end > offset ==> !IsHigh(source[end - 1])
    ensures PrefixMonotone(count) ==> TileFull(source, offset, end, count)
  {
    end := if |source| <= offset + LEAF_SOURCE_TOKENS * 4 then |source| else offset + LEAF_SOURCE_TOKENS * 4;
    if count(source[offset..end]) > LEAF_SOURCE_TOKENS {
      ghost var limit := end;
      end := Bisect(source, offset, end, count);
      assert PrefixMonotone(count) && end < limit ==> TooMany(source, offset, end + 1, count);
      assert PrefixMonotone(count) && FitsCharacters(count) ==> end >= offset + 2 by {
        if PrefixMonotone(count) && FitsCharacters(count) {
          assert |source[offset..limit]| > 2;
          assert |source[offset..offset + 2]| == 2;
        }
      }
    }
    if end > offset && IsHigh(source[end - 1]) {
      if PrefixMonotone(count) {
        ShorterCountsLess(count, source, offset, end - 1, end);
      }
      end := end - 1;
    }
  }

  /** The tiles follow one another from the start of the source to `to`, without gap or overlap. */
  ghost predicate Tiled(source: Text, tiles: seq<Span>, to: nat) {
    if tiles == [] then to == 0
    else
      var last := tiles[|tiles| - 1];
      last.end == to && TileAt(source, last.start, to) && Tiled(source, tiles[..|tiles| - 1], last.start)
  }

  ghost predicate TileBounded(source: Text, tile: Span, count: Counter) {
    tile.start <= tile.end <= |source| && count(source[tile.start..tile.end]) <= 8192
  }

  ghost predicate TilesBounded(source: Text, tiles: seq<Span>, count: Counter) {
    forall i :: 0 <= i < |tiles| ==> TileBounded(source, tiles[i], count)
  }

  /**
   * Cutting an oversized source. With a monotone counter that can fit every code point it throws exactly
   * when the source ends in a high surrogate; otherwise the tiles cover it without gap or overlap.
   */
  method CutSource(source: Text, count: Counter) returns (ok: bool, tiles: seq<Span>)
    ensures ok ==> Tiled(source, tiles, |source|)
    ensures ok && PrefixMonotone(count) ==> TilesBounded(source, tiles, count)
    ensures ok && PrefixMonotone(count) ==> forall i :: 0 <= i < |tiles| ==> TileFull(source, tiles[i].start, tiles[i].end, count)
    ensures PrefixMonotone(count) && FitsCharacters(count) ==>
              (ok <==> source == [] || !IsHigh(source[|source| - 1]))
  {
    tiles := [];
    var offset := 0;
    while offset < |source|
      invariant offset <= |source| && Tiled(source, tiles, offset)
      invariant PrefixMonotone(count) ==> TilesBounded(source, tiles, count)
      invariant PrefixMonotone(count) ==> forall i :: 0 <= i < |tiles| ==> TileFull(source, tiles[i].start, tiles[i].end, count)
      invariant offset == |source| && source != [] ==> !IsHigh(source[|source| - 1])
      decreases |source| - offset
    {
      var end := TileEnd(source, offset, count);
      if end <= offset {
        return false, [];
      }
      assert (tiles + [Span(offset, end)])[..|tiles|] == tiles;
      tiles := tiles + [Span(offset, end)];
      offset := end;
    }
    ok := true;
  }

  function UnitCount(t: Text): nat { |t| }

  /** An oversized source whose last unit is the first half of a surrogate pair. */
  function CutInHalf(): Text {
    seq(LEAF_SOURCE_TOKENS, i => 97) + [0xD800]
  }

  /** With the counter of code units cutting this source throws. */
  method CutSourceThrows() returns (ok: bool, tiles: seq<Span>)
    ensures PrefixMonotone(UnitCount) && FitsCharacters(UnitCount) && UnitCount(CutInHalf()) > LEAF_SOURCE_TOKENS
    ensures !ok
  {
    ok, tiles := CutSource(CutInHalf(), UnitCount);
  }

  /** Tiles, put back together, are the source. */
  function Pasted(source: Text, tiles: seq<Span>): Text
    requires forall i :: 0 <= i < |tiles| ==> tiles[i].start <= tiles[i].end <= |source|
  {
    if tiles == [] then []
    else Pasted(source, tiles[..|tiles| - 1]) + source[tiles[|tiles| - 1].start..tiles[|tiles| - 1].end]
  }

  lemma {:induction false} TilesPasteBack(source: Text, tiles: seq<Span>, to: nat)
    requires Tiled(source, tiles, to)
    ensures to <= |source| && (forall i :: 0 <= i < |tiles| ==> tiles[i].start < tiles[i].end <= to)
    ensures Pasted(source, tiles) == source[..to]
  {
    if tiles != [] {
      var last := tiles[|tiles| - 1];
      TilesPasteBack(source, tiles[..|tiles| - 1], last.start);
      assert forall i :: 0 <= i < |tiles| - 1 ==> tiles[..|tiles| - 1][i] == tiles[i];
      assert source[..last.start] + source[last.start..to] == source[..to];
    }
  }

  // --------------------------------------------------------------------- packing leaves

  datatype Leaf = Leaf(pieces: seq<Piece>, events: seq<StateEvent>)

  function TokensOf(pieces: seq<Piece>): nat {
    if pieces == [] then 0 else TokensOf(pieces[..|pieces| - 1]) + pieces[|pieces| - 1].tokens
  }

  function PiecesOf(leaves: seq<Leaf>): seq<Piece> {
    if leaves == [] then [] else PiecesOf(leaves[..|leaves| - 1]) + leaves[|leaves| - 1].pieces
  }

  predicate HasEvent(events: seq<StateEvent>, id: Digest) {
    exists i :: 0 <= i < |events| && events[i].eventId == id
  }

  /** An insertion-ordered map keyed by event id. */
  function PutEvent(events: seq<StateEvent>, event: StateEvent): seq<StateEvent> {
    if events == [] then [event]
    else if events[0].eventId == event.eventId then [event] + events[1..]
    else [events[0]] + PutEvent(events[1..], event)
  }

  function PutEvents(events: seq<StateEvent>, more: seq<StateEvent>): seq<StateEvent>
    decreases |more|
  {
    if more == [] then events else PutEvents(PutEvent(events, more[0]), more[1..])
  }

  /** How many of `more` are not there yet. */
  function Missing(events: seq<StateEvent>, more: seq<StateEvent>): nat {
    if more == [] then 0 else (if HasEvent(events, more[0].eventId) then 0 else 1) + Missing(events, more[1..])
  }

  ghost predicate DistinctEvents(events: seq<StateEvent>) {
    forall i, j :: 0 <= i < j < |events| ==> events[i].eventId != events[j].eventId
  }

  lemma {:induction false} PutEventIs(events: seq<StateEvent>, event: StateEvent)
    ensures forall id :: HasEvent(PutEvent(events, event), id) <==> HasEvent(events, id) || id == event.eventId
    ensures forall x :: x in PutEvent(events, event) ==> x in events || x == event
    ensures |PutEvent(events, event)| == |events| + if HasEvent(events, event.eventId) then 0 else 1
    ensures DistinctEvents(events) ==> DistinctEvents(PutEvent(events, event))
  {
    if events != [] {
      PutEventIs(events[1..], event);
      assert events == [events[0]] + events[1..];
      ConsHas(events[0], events[1..]);
      DistinctTail(events);
      if events[0].eventId == event.eventId {
        ConsHas(event, events[1..]);
        DistinctCons(event, events[1..]);
      } else {
        ConsHas(events[0], PutEvent(events[1..], event));
        DistinctCons(events[0], PutEvent(events[1..], event));
      }
    } else {
      assert PutEvent(events, event)[0] == event;
    }
  }

  lemma {:induction false} DistinctTail(events: seq<StateEvent>)
    requires events != []
    ensures DistinctEvents(events) ==> DistinctEvents(events[1..]) && !HasEvent(events[1..], events[0].eventId)
  {
    assert forall i :: 0 <= i < |events| - 1 ==> events[1..][i] == events[i + 1];
  }

  lemma {:induction false} DistinctCons(event: StateEvent, rest: seq<StateEvent>)
    ensures DistinctEvents(rest) && !HasEvent(rest, event.eventId) ==> DistinctEvents([event] + rest)
  {
  }

  lemma {:induction false} ConsHas(event: StateEvent, rest: seq<StateEvent>)
    ensures forall id :: HasEvent([event] + rest, id) <==> id == event.eventId || HasEvent(rest, id)
  {
    var all := [event] + rest;
    forall id
      ensures HasEvent(all, id) <==> id == event.eventId || HasEvent(rest, id)
    {
      assert all[0] == event;
      assert forall i :: 0 <= i < |rest| ==> all[i + 1] == rest[i];
    }
  }

  lemma {:induction false} MissingShrinks(events: seq<StateEvent>, larger: seq<StateEvent>, more: seq<StateEvent>)
    requires forall id :: HasEvent(events, id) ==> HasEvent(larger, id)
    ensures Missing(larger, more) <= Missing(events, more)
  {
    if more != [] {
      MissingShrinks(events, larger, more[1..]);
    }
  }

  lemma {:induction false} MissingAtMost(events: seq<StateEvent>, more: seq<StateEvent>)
    ensures Missing(events, more) <= |more|
  {
    if more != [] {
      MissingAtMost(events, more[1..]);
    }
  }

  lemma {:induction false} PutEventsIs(events: seq<StateEvent>, more: seq<StateEvent>)
    ensures forall id :: HasEvent(PutEvents(events, more), id) <==> HasEvent(events, id) || HasEvent(more, id)
    ensures forall x :: x in PutEvents(events, more) ==> x in events || x in more
    ensures |PutEvents(events, more)| <= |events| + Missing(events, more)
    ensures DistinctEvents(events) ==> DistinctEvents(PutEvents(events, more))
    decreases |more|
  {
    if more != [] {
      var one := PutEvent(events, more[0]);
      PutEventIs(events, more[0]);
      PutEventsIs(one, more[1..]);
      MissingShrinks(events, one, more[1..]);
      ConsHas(more[0], more[1..]);
      assert more == [more[0]] + more[1..];
    }
  }

  lemma PutEventsCount(events: seq<StateEvent>, more: seq<StateEvent>)
    ensures |PutEvents(events, more)| <= |events| + Missing(events, more)
  {
    PutEventsIs(events, more);
  }

  // ------------------------------------------------------------------------- the packer

  /** Events by message, and the message of each candidate. */
  datatype Sources = Sources(events: seq<seq<StateEvent>>, messageOf: seq<nat>)

  function EventsOf(sources: Sources, piece: Piece): seq<StateEvent> {
    if piece.owner < |sources.messageOf| && sources.messageOf[piece.owner] < |sources.events|
    then sources.events[sources.messageOf[piece.owner]] else []
  }

  /** The events are exactly those of the messages the pieces come from, once per id. */
  ghost predicate EventsMatch(sources: Sources, pieces: seq<Piece>, events: seq<StateEvent>) {
    && DistinctEvents(events)
    && (forall e :: e in events ==> exists i :: 0 <= i < |pieces| && e in EventsOf(sources, pieces[i]))
    && (forall i, id :: 0 <= i < |pieces| && HasEvent(EventsOf(sources, pieces[i]), id) ==> HasEvent(events, id))
  }

  /** A leaf within bounds that carries the events of its own sources; only a piece on its own may be too large. */
  ghost predicate LeafWell(sources: Sources, leaf: Leaf) {
    && leaf.pieces != []
    && (TokensOf(leaf.pieces) <= 8192 || |leaf.pieces| == 1) && |leaf.events| <= 64
    && EventsMatch(sources, leaf.pieces, leaf.events)
  }

  /** A leaf is closed only when it is full, or when the next piece or its events would not fit. */
  ghost predicate ClosedBefore(sources: Sources, leaf: Leaf, next: Piece) {
    || TokensOf(leaf.pieces) + next.tokens > 8192
    || TokensOf(leaf.pieces) >= 8192
    || |leaf.events| + Missing(leaf.events, EventsOf(sources, next)) > 64
  }

  ghost predicate AllWell(sources: Sources, leaves: seq<Leaf>) {
    forall i :: 0 <= i < |leaves| ==> LeafWell(sources, leaves[i])
  }

  ghost predicate AllClosed(sources: Sources, leaves: seq<Leaf>) {
    forall i, j :: 0 <= i < |leaves| && i < j == i + 1 < |leaves| ==>
      leaves[j].pieces != [] && ClosedBefore(sources, leaves[i], leaves[j].pieces[0])
  }

  ghost predicate LeavesWell(sources: Sources, leaves: seq<Leaf>) {
    AllWell(sources, leaves) && AllClosed(sources, leaves)
  }

  lemma {:induction false} EventsJoin(sources: Sources, pieces: seq<Piece>, events: seq<StateEvent>, piece: Piece)
    requires EventsMatch(sources, pieces, events)
    ensures EventsMatch(sources, pieces + [piece], PutEvents(events, EventsOf(sources, piece)))
  {
    var all, more := pieces + [piece], PutEvents(events, EventsOf(sources, piece));
    PutEventsIs(events, EventsOf(sources, piece));
    forall e | e in more
      ensures exists i :: 0 <= i < |all| && e in EventsOf(sources, all[i])
    {
      if e in events {
        var i :| 0 <= i < |pieces| && e in EventsOf(sources, pieces[i]);
        assert all[i] == pieces[i];
      } else {
        assert all[|pieces|] == piece;
      }
    }
  }

  lemma LeavesPush(sources: Sources, leaves: seq<Leaf>, leaf: Leaf)
    requires LeavesWell(sources, leaves) && LeafWell(sources, leaf)
    requires leaves != [] ==> ClosedBefore(sources, leaves[|leaves| - 1], leaf.pieces[0])
    ensures LeavesWell(sources, leaves + [leaf]) && PiecesOf(leaves + [leaf]) == PiecesOf(leaves) + leaf.pieces
  {
    AllWellPush(sources, leaves, leaf);
    ClosedPush(sources, leaves, leaf);
    PiecesPush(leaves, leaf);
  }

  lemma PiecesPush(leaves: seq<Leaf>, leaf: Leaf)
    ensures PiecesOf(leaves + [leaf]) == PiecesOf(leaves) + leaf.pieces
  {
    assert (leaves + [leaf])[..|leaves|] == leaves;
  }

  lemma AllWellPush(sources: Sources, leaves: seq<Leaf>, leaf: Leaf)
    requires AllWell(sources, leaves) && LeafWell(sources, leaf)
    ensures AllWell(sources, leaves + [leaf])
  {
  }

  lemma ClosedPush(sources: Sources, leaves: seq<Leaf>, leaf: Leaf)
    requires (forall i :: 0 <= i < |leaves| ==> leaves[i].pieces != []) && leaf.pieces != []
    requires AllClosed(sources, leaves) && (leaves != [] ==> ClosedBefore(sources, leaves[|leaves| - 1], leaf.pieces[0]))
    ensures AllClosed(sources, leaves + [leaf])
  {
    var more := leaves + [leaf];
    forall i, j | 0 <= i < |more| && i < j == i + 1 < |more|
      ensures more[j].pieces != [] && ClosedBefore(sources, more[i], more[j].pieces[0])
    {
      assert more[i] == leaves[i] && (j < |leaves| ==> more[j] == leaves[j]);
    }
  }

  lemma TokensPush(group: seq<Piece>, piece: Piece)
    ensures TokensOf(group + [piece]) == TokensOf(group) + piece.tokens
  {
    assert (group + [piece])[..|group|] == group;
  }

  lemma JoinedLeaf(sources: Sources, group: seq<Piece>, events: seq<StateEvent>, piece: Piece)
    requires EventsMatch(sources, group, events)
    requires group == [] || TokensOf(group) + piece.tokens <= LEAF_SOURCE_TOKENS
    requires |events| + Missing(events, EventsOf(sources, piece)) <= LEAF_EVENTS
    ensures LeafWell(sources, Leaf(group + [piece], PutEvents(events, EventsOf(sources, piece))))
    ensures TokensOf(group + [piece]) == TokensOf(group) + piece.tokens
  {
    EventsJoin(sources, group, events, piece);
    PutEventsCount(events, EventsOf(sources, piece));
    TokensPush(group, piece);
  }

  lemma AddedOneMore(packed: seq<Piece>, group: seq<Piece>, piece: Piece)
    ensures packed + (group + [piece]) == (packed + group) + [piece]
  {
  }

  class LeafPacker {
    const sources: Sources
    var group: seq<Piece>
    var groupTokens: nat
    var groupEvents: seq<StateEvent>
    var leaves: seq<Leaf>

    /** Every piece added so far, in order. */
    function Added(): seq<Piece>
      reads this
    {
      PiecesOf(leaves) + group
    }

    ghost predicate Valid()
      reads this
    {
      && LeavesWell(sources, leaves)
      && groupTokens == TokensOf(group) && groupTokens < LEAF_SOURCE_TOKENS
      && |groupEvents| <= LEAF_EVENTS && EventsMatch(sources, group, groupEvents)
      && (group == [] ==> groupEvents == [])
      && (leaves != [] && group != [] ==> ClosedBefore(sources, leaves[|leaves| - 1], group[0]))
    }

    /** Between pieces only a full leaf leaves the group empty. */
    ghost predicate Ready()
      reads this
    {
      Valid() && (group == [] && leaves != [] ==> TokensOf(leaves[|leaves| - 1].pieces) >= LEAF_SOURCE_TOKENS)
    }

    constructor (sources: Sources)
      ensures Ready() && Added() == [] && this.sources == sources
    {
      this.sources := sources;
      group, groupTokens, groupEvents, leaves := [], 0, [], [];
    }

    method Flush()
      requires LeavesWell(sources, leaves) && (group != [] ==> LeafWell(sources, Leaf(group, groupEvents)))
      requires group == [] ==> groupTokens == 0 && groupEvents == []
      requires leaves != [] && group != [] ==> ClosedBefore(sources, leaves[|leaves| - 1], group[0])
      modifies this
      ensures Valid() && group == [] && Added() == old(Added())
      ensures leaves == if old(group) == [] then old(leaves) else old(leaves) + [Leaf(old(group), old(groupEvents))]
    {
      if group == [] {
        return;
      }
      LeavesPush(sources, leaves, Leaf(group, groupEvents));
      leaves := leaves + [Leaf(group, groupEvents)];
      group, groupTokens, groupEvents := [], 0, [];
    }

    method AddPiece(piece: Piece)
      requires Ready() && |EventsOf(sources, piece)| <= LEAF_EVENTS
      modifies this
      ensures Ready() && Added() == old(Added()) + [piece]
    {
      var extra := Missing(groupEvents, EventsOf(sources, piece));
      if group != [] && (groupTokens + piece.tokens > LEAF_SOURCE_TOKENS || |groupEvents| + extra > LEAF_EVENTS) {
        Flush();
        assert ClosedBefore(sources, leaves[|leaves| - 1], piece);
      }
      MissingAtMost(groupEvents, EventsOf(sources, piece));
      Join(piece);
    }

    method Join(piece: Piece)
      requires Valid() && (group == [] || groupTokens + piece.tokens <= LEAF_SOURCE_TOKENS)
      requires |groupEvents| + Missing(groupEvents, EventsOf(sources, piece)) <= LEAF_EVENTS
      requires group == [] && leaves != [] ==> ClosedBefore(sources, leaves[|leaves| - 1], piece)
      modifies this
      ensures Ready() && Added() == old(Added()) + [piece]
    {
      JoinedLeaf(sources, group, groupEvents, piece);
      AddedOneMore(PiecesOf(leaves), group, piece);
      Put(piece);
      if groupTokens >= LEAF_SOURCE_TOKENS {
        Flush();
      }
    }

    method Put(piece: Piece)
      modifies this
      ensures group == old(group) + [piece] && leaves == old(leaves) && groupTokens == old(groupTokens) + piece.tokens
      ensures groupEvents == PutEvents(old(groupEvents), EventsOf(sources, piece))
    {
      groupEvents := PutEvents(groupEvents, EventsOf(sources, piece));
      group := group + [piece];
      groupTokens := groupTokens + piece.tokens;
    }
  }
}
