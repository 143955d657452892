/** `applyBudget`: fold runs of like lines until the exact output fits its token budget. */
module Budget {
  import opened Texts
  import opened Sorting

  datatype Line = Line(text: Text, sourceLine: Option<nat>, anchor: bool, priority: int, group: Option<Text>)

  /** A foldable run of lines: `gain` is what its summary saves, `chars` what its lines take with their breaks. */
  datatype Block = Block(start: nat, end: nat, priority: int, owner: Text, summary: Text, gain: int, chars: nat)

  datatype Options = Options(budgetTokens: int, rawHash: Text, tool: Text)

  datatype Budgeted = Budgeted(text: Text, elidedTokens: nat, keptLines: seq<Line>)

  function Digits(n: nat): (digits: Text)
    ensures |digits| > 0
  {
    if n < 10 then [48 + n] else Digits(n / 10) + [48 + n % 10]
  }

  function Label(line: Line, tool: Text): Text {
    if line.group.Some? then line.group.value else tool
  }

  /** Lines that may share a block. */
  predicate Like(a: Line, b: Line, tool: Text) {
    !a.anchor && !b.anchor && Label(a, tool) == Label(b, tool) && a.priority == b.priority
  }

  function Summary(count: nat, owner: Text): Text {
    Ascii("[+") + Digits(count) + Ascii(" lines elided in ") + owner + Ascii("]")
  }

  function Footer(hash: Text, elided: nat): Text {
    Ascii("[bluecode rtk] compressed: rawHash=") + hash + Ascii(" (") + Digits(elided)
    + Ascii(" tokens elided). Full output: headroom_retrieve(hash=\"") + hash + Ascii("\")")
  }

  /** Characters of lines `a` to `b`, each with its line break. */
  function CharsOf(lines: seq<Line>, a: nat, b: nat): nat
    requires a <= b <= |lines|
  {
    if a == b then 0 else CharsOf(lines, a, b - 1) + |lines[b - 1].text| + 1
  }

  lemma {:induction false} CharsSplit(lines: seq<Line>, a: nat, m: nat, b: nat)
    requires a <= m <= b <= |lines|
    ensures CharsOf(lines, a, b) == CharsOf(lines, a, m) + CharsOf(lines, m, b)
  {
    if m < b {
      CharsSplit(lines, a, m, b - 1);
    }
  }

  // ------------------------------------------------------------------------ blocks

  /** No run crosses position `i`. */
  ghost predicate Edge(lines: seq<Line>, tool: Text, i: nat) {
    0 < i < |lines| ==> !Like(lines[i - 1], lines[i], tool)
  }

  /** Lines `a` to `b` are a maximal run of like lines. */
  ghost predicate IsRun(lines: seq<Line>, tool: Text, a: nat, b: nat) {
    && a < b <= |lines|
    && (forall k :: a <= k < b ==> Like(lines[a], lines[k], tool))
    && Edge(lines, tool, a) && Edge(lines, tool, b)
  }

  function BlockOf(lines: seq<Line>, tool: Text, a: nat, b: nat): Block
    requires a < b <= |lines|
  {
    var owner, chars := Label(lines[a], tool), CharsOf(lines, a, b);
    var summary := Summary(b - a, owner);
    Block(a, b, lines[a].priority, owner, summary, chars - |summary| - 1, chars)
  }

  lemma {:induction false} NoEdgeInside(lines: seq<Line>, tool: Text, a: nat, b: nat, k: nat)
    requires IsRun(lines, tool, a, b)
    ensures a < k < b ==> !Edge(lines, tool, k)
  {
    if a < k < b {
      assert Like(lines[a], lines[k - 1], tool) && Like(lines[a], lines[k], tool);
    }
  }

  lemma {:induction false} RunsMeetOnlyWhole(lines: seq<Line>, tool: Text, a: nat, b: nat, a2: nat, b2: nat)
    requires IsRun(lines, tool, a, b) && IsRun(lines, tool, a2, b2)
    ensures a < b2 && a2 < b ==> a == a2 && b == b2
  {
    NoEdgeInside(lines, tool, a, b, a2);
    NoEdgeInside(lines, tool, a, b, b2);
    NoEdgeInside(lines, tool, a2, b2, a);
    NoEdgeInside(lines, tool, a2, b2, b);
  }

  /** Every block is a maximal run that gains. */
  ghost predicate Gainful(lines: seq<Line>, tool: Text, block: Block) {
    IsRun(lines, tool, block.start, block.end) && block == BlockOf(lines, tool, block.start, block.end) && block.gain > 0
  }

  ghost predicate AllGainful(lines: seq<Line>, tool: Text, blocks: seq<Block>) {
    forall i :: 0 <= i < |blocks| ==> Gainful(lines, tool, blocks[i])
  }

  /** Every gainful run that ends by `limit` is there. */
  ghost predicate Covers(lines: seq<Line>, tool: Text, blocks: seq<Block>, limit: nat) {
    forall a: nat, b: nat :: IsRun(lines, tool, a, b) && b <= limit && BlockOf(lines, tool, a, b).gain > 0 ==>
      BlockOf(lines, tool, a, b) in blocks
  }

  ghost predicate Ascending(blocks: seq<Block>, limit: nat) {
    && (forall i, j :: 0 <= i < j < |blocks| ==> blocks[i].start < blocks[j].start)
    && (forall i :: 0 <= i < |blocks| ==> blocks[i].end <= limit && blocks[i].start < blocks[i].end)
  }

  lemma {:induction false} AnchorEndsRuns(lines: seq<Line>, tool: Text, blocks: seq<Block>, i: nat)
    requires i < |lines| && lines[i].anchor && Covers(lines, tool, blocks, i)
    ensures Covers(lines, tool, blocks, i + 1) && Edge(lines, tool, i + 1)
  {
    forall a: nat, b: nat | IsRun(lines, tool, a, b) && b <= i + 1 && BlockOf(lines, tool, a, b).gain > 0
      ensures BlockOf(lines, tool, a, b) in blocks
    {
      assert Like(lines[a], lines[b - 1], tool);
    }
  }

  lemma {:induction false} NewRunCovers(lines: seq<Line>, tool: Text, blocks: seq<Block>, start: nat, i: nat, more: seq<Block>)
    requires IsRun(lines, tool, start, i) && Covers(lines, tool, blocks, start)
    requires more == if BlockOf(lines, tool, start, i).gain > 0 then blocks + [BlockOf(lines, tool, start, i)] else blocks
    ensures Covers(lines, tool, more, i)
  {
    forall a: nat, b: nat | IsRun(lines, tool, a, b) && b <= i && BlockOf(lines, tool, a, b).gain > 0
      ensures BlockOf(lines, tool, a, b) in more
    {
      RunsMeetOnlyWhole(lines, tool, a, b, start, i);
    }
  }

  method RunEnd(lines: seq<Line>, tool: Text, start: nat) returns (i: nat, cost: nat)
    requires start < |lines| && !lines[start].anchor && Edge(lines, tool, start)
    ensures IsRun(lines, tool, start, i) && cost == CharsOf(lines, start, i)
  {
    i, cost := start, 0;
    while i < |lines| && Like(lines[start], lines[i], tool)
      invariant start <= i <= |lines| && cost == CharsOf(lines, start, i)
      invariant forall k :: start <= k < i ==> Like(lines[start], lines[k], tool)
    {
      cost := cost + |lines[i].text| + 1;
      i := i + 1;
    }
    assert Like(lines[start], lines[start], tool);
    assert Like(lines[start], lines[i - 1], tool);
  }

  method FindBlocks(lines: seq<Line>, tool: Text) returns (blocks: seq<Block>)
    ensures AllGainful(lines, tool, blocks) && Covers(lines, tool, blocks, |lines|) && Ascending(blocks, |lines|)
  {
    blocks := [];
    var i := 0;
    while i < |lines|
      invariant Found(lines, tool, blocks, i)
      decreases |lines| - i
    {
      if lines[i].anchor {
        AnchorEndsRuns(lines, tool, blocks, i);
        i := i + 1;
      } else {
        var start := i;
        var cost;
        i, cost := RunEnd(lines, tool, start);
        var summary := Summary(i - start, Label(lines[start], tool));
        var gain := cost - |summary| - 1;
        var block := Block(start, i, lines[start].priority, Label(lines[start], tool), summary, gain, cost);
        assert block == BlockOf(lines, tool, start, i);
        FoundRun(lines, tool, blocks, start, i);
        if gain > 0 {
          blocks := blocks + [block];
        }
      }
    }
  }

  /** The blocks of the first `i` lines; no run crosses there. */
  ghost predicate Found(lines: seq<Line>, tool: Text, blocks: seq<Block>, i: nat) {
    && i <= |lines| && Edge(lines, tool, i)
    && AllGainful(lines, tool, blocks) && Covers(lines, tool, blocks, i) && Ascending(blocks, i)
  }

  lemma {:induction false} FoundRun(lines: seq<Line>, tool: Text, blocks: seq<Block>, start: nat, i: nat)
    requires Found(lines, tool, blocks, start) && IsRun(lines, tool, start, i)
    ensures var block := BlockOf(lines, tool, start, i);
            Found(lines, tool, if block.gain > 0 then blocks + [block] else blocks, i)
  {
    var block := BlockOf(lines, tool, start, i);
    NewRunCovers(lines, tool, blocks, start, i, if block.gain > 0 then blocks + [block] else blocks);
    if block.gain > 0 {
      GainfulPush(lines, tool, blocks, block);
    }
  }

  lemma GainfulPush(lines: seq<Line>, tool: Text, blocks: seq<Block>, block: Block)
    requires AllGainful(lines, tool, blocks) && Gainful(lines, tool, block) && Ascending(blocks, block.start)
    ensures AllGainful(lines, tool, blocks + [block]) && Ascending(blocks + [block], block.end)
  {
    var more := blocks + [block];
    forall i | 0 <= i < |more|
      ensures Gainful(lines, tool, more[i])
    {
      assert i < |blocks| ==> more[i] == blocks[i];
    }
  }

  // ------------------------------------------------------------------------ ranking

  predicate RankedBefore(a: Block, b: Block) {
    a.priority < b.priority || (a.priority == b.priority && a.start < b.start)
  }

  ghost predicate InRankOrder(blocks: seq<Block>) {
    forall i, j :: 0 <= i < j < |blocks| ==> RankedBefore(blocks[i], blocks[j])
  }

  /** Exactly the gainful runs, by priority and then by position. */
  ghost predicate Ranking(lines: seq<Line>, tool: Text, ranked: seq<Block>) {
    && AllGainful(lines, tool, ranked) && Covers(lines, tool, ranked, |lines|)
    && InRankOrder(ranked)
  }

  function ByPriority(block: Block): int { block.priority }

  /** Sorting by priority keeps equal priorities in position order. */
  lemma {:induction false} StableRanks(blocks: seq<Block>)
    requires forall i, j :: 0 <= i < j < |blocks| ==> blocks[i].start < blocks[j].start
    ensures InRankOrder(SortBy(blocks, ByPriority))
  {
    if blocks != [] {
      var before, last := blocks[..|blocks| - 1], blocks[|blocks| - 1];
      StableRanks(before);
      var ranked := SortBy(before, ByPriority);
      EarlierStarts(before, ranked, last);
      InsertRanks(ranked, last);
    }
  }

  lemma {:induction false} EarlierStarts(before: seq<Block>, ranked: seq<Block>, last: Block)
    requires multiset(ranked) == multiset(before)
    requires forall i :: 0 <= i < |before| ==> before[i].start < last.start
    ensures forall i :: 0 <= i < |ranked| ==> ranked[i].start < last.start
  {
    SameElements(ranked, before);
    forall i | 0 <= i < |ranked|
      ensures ranked[i].start < last.start
    {
      assert ranked[i] in before;
    }
  }

  lemma {:induction false} InsertRanks(ranked: seq<Block>, last: Block)
    requires SortedBy(ranked, ByPriority)
    requires InRankOrder(ranked)
    requires forall i :: 0 <= i < |ranked| ==> ranked[i].start < last.start
    ensures InRankOrder(Insert(last, ranked, ByPriority))
  {
    var k := Slot(last, ranked, ByPriority);
    var more := ranked[..k] + [last] + ranked[k..];
    assert forall i :: 0 <= i < k ==> RankedBefore(ranked[i], last);
    assert forall i :: k <= i < |ranked| ==> ByPriority(ranked[k]) <= ByPriority(ranked[i]);
    assert forall i :: k <= i < |ranked| ==> RankedBefore(last, ranked[i]);
    forall i, j | 0 <= i < j < |more|
      ensures RankedBefore(more[i], more[j])
    {
      var a, b := if i < k then i else i - 1, if j < k then j else j - 1;
      assert i != k ==> more[i] == ranked[a];
      assert j != k ==> more[j] == ranked[b];
    }
  }

  lemma {:induction false} SortedIsRanking(lines: seq<Line>, tool: Text, blocks: seq<Block>)
    requires AllGainful(lines, tool, blocks) && Covers(lines, tool, blocks, |lines|) && Ascending(blocks, |lines|)
    ensures Ranking(lines, tool, SortBy(blocks, ByPriority))
  {
    StableRanks(blocks);
    var ranked := SortBy(blocks, ByPriority);
    SameElements(ranked, blocks);
    forall i | 0 <= i < |ranked|
      ensures Gainful(lines, tool, ranked[i])
    {
      assert ranked[i] in blocks;
    }
  }

  // ---------------------------------------------------------------------- rendering

  /** The folded blocks by their first line. */
  function ByStart(folded: seq<Block>): (m: map<nat, Block>)
  {
    if folded == [] then map[] else ByStart(folded[..|folded| - 1])[folded[|folded| - 1].start := folded[|folded| - 1]]
  }

  /** A folded block replaces its lines by its summary. */
  predicate Folds(folded: map<nat, Block>, i: nat) {
    i in folded && folded[i].end > i
  }

  function Output(lines: seq<Line>, folded: map<nat, Block>, i: nat): seq<Text>
    decreases |lines| - i
  {
    if i >= |lines| then []
    else if Folds(folded, i) then [folded[i].summary] + Output(lines, folded, folded[i].end)
    else [lines[i].text] + Output(lines, folded, i + 1)
  }

  function Kept(lines: seq<Line>, folded: map<nat, Block>, i: nat): seq<Line>
    decreases |lines| - i
  {
    if i >= |lines| then []
    else if Folds(folded, i) then Kept(lines, folded, folded[i].end)
    else [lines[i]] + Kept(lines, folded, i + 1)
  }

  function Join(parts: seq<Text>): Text {
    if parts == [] then [] else if |parts| == 1 then parts[0] else parts[0] + [10] + Join(parts[1..])
  }

  function Elided(folded: seq<Block>): nat {
    if folded == [] then 0 else Elided(folded[..|folded| - 1]) + folded[|folded| - 1].chars
  }

  /** The text that folding these blocks gives. */
  function Rendered(lines: seq<Line>, folded: seq<Block>, hash: Text): Text {
    Join(Output(lines, ByStart(folded), 0)) + [10] + Footer(hash, CeilDiv(Elided(folded), 4))
  }

  /** Characters of a list of parts, each with a line break. */
  function Size(parts: seq<Text>): nat {
    if parts == [] then 0 else |parts[0]| + 1 + Size(parts[1..])
  }

  lemma {:induction false} JoinSize(parts: seq<Text>)
    requires parts != []
    ensures |Join(parts)| + 1 == Size(parts)
  {
    if |parts| > 1 {
      JoinSize(parts[1..]);
    } else {
      assert parts[1..] == [];
    }
  }

  /** What the folded blocks that start at `i` or later save. */
  function GainFrom(lines: seq<Line>, folded: map<nat, Block>, i: nat): int
    decreases |lines| - i
  {
    if i >= |lines| then 0 else (if i in folded then folded[i].gain else 0) + GainFrom(lines, folded, i + 1)
  }

  function CharsFoldedFrom(lines: seq<Line>, folded: map<nat, Block>, i: nat): nat
    decreases |lines| - i
  {
    if i >= |lines| then 0 else (if i in folded then folded[i].chars else 0) + CharsFoldedFrom(lines, folded, i + 1)
  }

  /** Folded blocks are gainful runs filed under their first lines. */
  ghost predicate FoldedWell(lines: seq<Line>, tool: Text, folded: map<nat, Block>) {
    forall i :: i in folded ==> folded[i].start == i && Gainful(lines, tool, folded[i])
  }

  /** No block starts inside another. */
  lemma {:induction false} NothingInside(lines: seq<Line>, tool: Text, folded: map<nat, Block>, i: nat, k: nat)
    requires FoldedWell(lines, tool, folded) && i in folded && i < k < folded[i].end
    ensures k !in folded
  {
    assert Gainful(lines, tool, folded[i]);
    assert k in folded ==> Gainful(lines, tool, folded[k]);
    NoEdgeInside(lines, tool, i, folded[i].end, k);
  }

  lemma {:induction false} SkipInside(lines: seq<Line>, tool: Text, folded: map<nat, Block>, i: nat, k: nat)
    requires FoldedWell(lines, tool, folded) && i in folded && i < k <= folded[i].end
    ensures GainFrom(lines, folded, k) == GainFrom(lines, folded, folded[i].end)
    ensures CharsFoldedFrom(lines, folded, k) == CharsFoldedFrom(lines, folded, folded[i].end)
    decreases folded[i].end - k
  {
    assert Gainful(lines, tool, folded[i]);
    if k < folded[i].end {
      NothingInside(lines, tool, folded, i, k);
      SkipInside(lines, tool, folded, i, k + 1);
    }
  }

  lemma {:induction false} FoldedSize(lines: seq<Line>, tool: Text, folded: map<nat, Block>, i: nat)
    requires FoldedWell(lines, tool, folded) && i < |lines| && i in folded && i < folded[i].end <= |lines|
    requires Size(Output(lines, folded, folded[i].end))
          == CharsOf(lines, folded[i].end, |lines|) - GainFrom(lines, folded, folded[i].end)
    ensures Size(Output(lines, folded, i)) == CharsOf(lines, i, |lines|) - GainFrom(lines, folded, i)
  {
    var block := folded[i];
    FoldedGain(lines, tool, folded, i);
    CharsSplit(lines, i, block.end, |lines|);
    SizeOfFirst(block.summary, Output(lines, folded, block.end));
  }

  /** Folding the block at `i` gains what its lines have more than its summary. */
  lemma FoldedGain(lines: seq<Line>, tool: Text, folded: map<nat, Block>, i: nat)
    requires FoldedWell(lines, tool, folded) && i < |lines| && i in folded && i < folded[i].end <= |lines|
    ensures GainFrom(lines, folded, i) == folded[i].gain + GainFrom(lines, folded, folded[i].end)
    ensures folded[i].gain == CharsOf(lines, i, folded[i].end) - |folded[i].summary| - 1
  {
    assert Gainful(lines, tool, folded[i]);
    SkipInside(lines, tool, folded, i, i + 1);
  }

  lemma {:induction false} SizeOfFirst(first: Text, rest: seq<Text>)
    ensures Size([first] + rest) == |first| + 1 + Size(rest)
  {
    assert ([first] + rest)[1..] == rest;
  }

  lemma {:induction false} KeptSize(lines: seq<Line>, folded: map<nat, Block>, i: nat)
    requires i < |lines| && i !in folded
    requires Size(Output(lines, folded, i + 1)) == CharsOf(lines, i + 1, |lines|) - GainFrom(lines, folded, i + 1)
    ensures Size(Output(lines, folded, i)) == CharsOf(lines, i, |lines|) - GainFrom(lines, folded, i)
  {
    CharsSplit(lines, i, i + 1, |lines|);
    assert CharsOf(lines, i, i) == 0;
    SizeOfFirst(lines[i].text, Output(lines, folded, i + 1));
  }

  /** The size of the folded output is the size of the lines less what the folds save. */
  lemma {:induction false} OutputSize(lines: seq<Line>, tool: Text, folded: map<nat, Block>, i: nat)
    requires FoldedWell(lines, tool, folded) && i <= |lines|
    ensures Size(Output(lines, folded, i)) == CharsOf(lines, i, |lines|) - GainFrom(lines, folded, i)
    decreases |lines| - i
  {
    if i < |lines| {
      if i in folded {
        assert Gainful(lines, tool, folded[i]);
        OutputSize(lines, tool, folded, folded[i].end);
        FoldedSize(lines, tool, folded, i);
      } else {
        OutputSize(lines, tool, folded, i + 1);
        KeptSize(lines, folded, i);
      }
    }
  }

  // -------------------------------------------------------------------- the selection

  lemma {:induction false} GainsMore(lines: seq<Line>, folded: map<nat, Block>, block: Block, i: nat)
    requires i <= |lines| && block.start !in folded && block.start < |lines|
    ensures GainFrom(lines, folded[block.start := block], i)
         == GainFrom(lines, folded, i) + if i <= block.start then block.gain else 0
    ensures CharsFoldedFrom(lines, folded[block.start := block], i)
         == CharsFoldedFrom(lines, folded, i) + if i <= block.start then block.chars else 0
    decreases |lines| - i
  {
    if i < |lines| {
      GainsMore(lines, folded, block, i + 1);
    }
  }

  lemma {:induction false} OneMore(ranked: seq<Block>, k: nat)
    requires k < |ranked|
    ensures ByStart(ranked[..k + 1]) == ByStart(ranked[..k])[ranked[k].start := ranked[k]]
    ensures Elided(ranked[..k + 1]) == Elided(ranked[..k]) + ranked[k].chars
  {
    assert ranked[..k + 1][..k] == ranked[..k];
  }

  /** Only the blocks of the prefix are filed, each under its first line. */
  lemma {:induction false} ByStartWell(lines: seq<Line>, tool: Text, ranked: seq<Block>, k: nat)
    requires AllGainful(lines, tool, ranked) && k <= |ranked|
    ensures FoldedWell(lines, tool, ByStart(ranked[..k]))
    ensures forall i :: i in ByStart(ranked[..k]) ==> exists j :: 0 <= j < k && ranked[j].start == i
  {
    if k > 0 {
      ByStartWell(lines, tool, ranked, k - 1);
      OneMore(ranked, k - 1);
      assert Gainful(lines, tool, ranked[k - 1]);
    }
  }

  lemma {:induction false} NotYetFiled(lines: seq<Line>, tool: Text, ranked: seq<Block>, k: nat)
    requires Ranking(lines, tool, ranked) && k < |ranked|
    ensures ranked[k].start !in ByStart(ranked[..k]) && ranked[k].start < |lines|
  {
    assert Gainful(lines, tool, ranked[k]);
    ByStartWell(lines, tool, ranked, k);
    RankedStartsDiffer(lines, tool, ranked, k);
  }

  lemma {:induction false} GainsOf(lines: seq<Line>, tool: Text, ranked: seq<Block>, k: nat)
    requires Ranking(lines, tool, ranked) && k <= |ranked|
    ensures Gains(ranked, k) == GainFrom(lines, ByStart(ranked[..k]), 0)
    ensures Elided(ranked[..k]) == CharsFoldedFrom(lines, ByStart(ranked[..k]), 0)
  {
    if k == 0 {
      assert ranked[..0] == [];
      NoGain(lines, map[], 0);
    } else {
      GainsOf(lines, tool, ranked, k - 1);
      GainsStep(lines, tool, ranked, k - 1);
    }
  }

  lemma {:induction false} GainsStep(lines: seq<Line>, tool: Text, ranked: seq<Block>, k: nat)
    requires Ranking(lines, tool, ranked) && k < |ranked|
    ensures GainFrom(lines, ByStart(ranked[..k + 1]), 0) == GainFrom(lines, ByStart(ranked[..k]), 0) + ranked[k].gain
    ensures CharsFoldedFrom(lines, ByStart(ranked[..k + 1]), 0)
         == CharsFoldedFrom(lines, ByStart(ranked[..k]), 0) + ranked[k].chars
    ensures Elided(ranked[..k + 1]) == Elided(ranked[..k]) + ranked[k].chars
  {
    OneMore(ranked, k);
    NotYetFiled(lines, tool, ranked, k);
    GainsMore(lines, ByStart(ranked[..k]), ranked[k], 0);
  }

  lemma {:induction false} NoGain(lines: seq<Line>, folded: map<nat, Block>, i: nat)
    requires folded == map[] && i <= |lines|
    ensures GainFrom(lines, folded, i) == 0 && CharsFoldedFrom(lines, folded, i) == 0
    decreases |lines| - i
  {
    if i < |lines| {
      NoGain(lines, folded, i + 1);
    }
  }

  lemma {:induction false} RankedStartsDiffer(lines: seq<Line>, tool: Text, ranked: seq<Block>, k: nat)
    requires Ranking(lines, tool, ranked) && k < |ranked|
    ensures forall j :: 0 <= j < k ==> ranked[j].start != ranked[k].start
  {
    forall j | 0 <= j < k
      ensures ranked[j].start != ranked[k].start
    {
      assert RankedBefore(ranked[j], ranked[k]);
      assert Gainful(lines, tool, ranked[j]) && Gainful(lines, tool, ranked[k]);
      RunsMeetOnlyWhole(lines, tool, ranked[j].start, ranked[j].end, ranked[k].start, ranked[k].end);
    }
  }

  function Gains(ranked: seq<Block>, k: nat): int
    requires k <= |ranked|
  {
    if k == 0 then 0 else Gains(ranked, k - 1) + ranked[k - 1].gain
  }

  /** The running length is the length of the text that folding the first `k` blocks gives. */
  lemma {:induction false} RunningLength(lines: seq<Line>, tool: Text, ranked: seq<Block>, k: nat, hash: Text)
    requires Ranking(lines, tool, ranked) && k <= |ranked| && lines != []
    ensures |Rendered(lines, ranked[..k], hash)|
         == CharsOf(lines, 0, |lines|) - Gains(ranked, k) + |Footer(hash, CeilDiv(Elided(ranked[..k]), 4))|
  {
    ByStartWell(lines, tool, ranked, k);
    GainsOf(lines, tool, ranked, k);
    var folded := ByStart(ranked[..k]);
    OutputSize(lines, tool, folded, 0);
    JoinSize(Output(lines, folded, 0));
  }

  /** Whether the text after folding the first `k` blocks is within budget. */
  predicate Fits(lines: seq<Line>, ranked: seq<Block>, k: nat, options: Options)
    requires k <= |ranked|
  {
    EstimateTokens(Rendered(lines, ranked[..k], options.rawHash)) <= options.budgetTokens
  }

  /** `k` is the length of the shortest prefix of the ranking that fits, or all of it. */
  ghost predicate Shortest(lines: seq<Line>, ranked: seq<Block>, k: nat, options: Options) {
    && k <= |ranked|
    && (forall j :: 0 <= j < k ==> !Fits(lines, ranked, j, options))
    && (k == |ranked| || Fits(lines, ranked, k, options))
  }

  /** The test the loop makes on its counters is whether the text so far fits. */
  lemma {:induction false} CountersDecide(lines: seq<Line>, ranked: seq<Block>, k: nat, options: Options, chars: int, elided: nat)
    requires Ranking(lines, options.tool, ranked) && k < |ranked|
    requires chars == CharsOf(lines, 0, |lines|) - Gains(ranked, k) && elided == Elided(ranked[..k])
    ensures chars >= 0
    ensures CeilDiv(chars + |Footer(options.rawHash, CeilDiv(elided, 4))|, 4) <= options.budgetTokens
            <==> Fits(lines, ranked, k, options)
  {
    assert Gainful(lines, options.tool, ranked[k]);
    RunningLength(lines, options.tool, ranked, k, options.rawHash);
    ByStartWell(lines, options.tool, ranked, k);
    GainsOf(lines, options.tool, ranked, k);
    OutputSize(lines, options.tool, ByStart(ranked[..k]), 0);
  }

  /** The counters after folding the first `i` blocks, none of the shorter prefixes having fitted. */
  ghost predicate Tried(lines: seq<Line>, ranked: seq<Block>, i: nat, options: Options,
                        selected: map<nat, Block>, chars: int, elided: nat) {
    && i <= |ranked|
    && chars == CharsOf(lines, 0, |lines|) - Gains(ranked, i)
    && selected == ByStart(ranked[..i]) && elided == Elided(ranked[..i])
    && forall j :: 0 <= j < i ==> !Fits(lines, ranked, j, options)
  }

  lemma {:induction false} TriedNext(lines: seq<Line>, ranked: seq<Block>, i: nat, options: Options,
                                     selected: map<nat, Block>, chars: int, elided: nat)
    requires Tried(lines, ranked, i, options, selected, chars, elided) && i < |ranked| && !Fits(lines, ranked, i, options)
    ensures Tried(lines, ranked, i + 1, options, selected[ranked[i].start := ranked[i]],
                  chars - ranked[i].gain, elided + ranked[i].chars)
  {
    OneMore(ranked, i);
  }

  lemma {:induction false} TriedNone(lines: seq<Line>, ranked: seq<Block>, options: Options)
    ensures Tried(lines, ranked, 0, options, map[], CharsOf(lines, 0, |lines|), 0)
  {
    assert ranked[..0] == [];
  }

  method Select(lines: seq<Line>, ranked: seq<Block>, options: Options) returns (selected: map<nat, Block>, elided: nat, ghost k: nat)
    requires Ranking(lines, options.tool, ranked)
    ensures Shortest(lines, ranked, k, options)
    ensures selected == ByStart(ranked[..k]) && elided == Elided(ranked[..k])
  {
    var chars := TotalChars(lines);
    selected, elided := map[], 0;
    var i := 0;
    TriedNone(lines, ranked, options);
    while i < |ranked|
      invariant Tried(lines, ranked, i, options, selected, chars, elided)
      decreases |ranked| - i
    {
      CountersDecide(lines, ranked, i, options, chars, elided);
      if CeilDiv(chars + |Footer(options.rawHash, CeilDiv(elided, 4))|, 4) <= options.budgetTokens {
        break;
      }
      TriedNext(lines, ranked, i, options, selected, chars, elided);
      selected := selected[ranked[i].start := ranked[i]];
      chars := chars - ranked[i].gain;
      elided := elided + ranked[i].chars;
      i := i + 1;
    }
    k := i;
  }

  method TotalChars(lines: seq<Line>) returns (chars: nat)
    ensures chars == CharsOf(lines, 0, |lines|)
  {
    chars := 0;
    for i := 0 to |lines|
      invariant chars == CharsOf(lines, 0, i)
    {
      chars := chars + |lines[i].text| + 1;
    }
  }

  // ----------------------------------------------------------------------- the method

  method Assemble(lines: seq<Line>, selected: map<nat, Block>) returns (output: seq<Text>, kept: seq<Line>)
    ensures output == Output(lines, selected, 0) && kept == Kept(lines, selected, 0)
  {
    output, kept := [], [];
    var i := 0;
    ghost var allOutput, allKept := Output(lines, selected, 0), Kept(lines, selected, 0);
    while i < |lines|
      invariant output + Output(lines, selected, i) == allOutput
      invariant kept + Kept(lines, selected, i) == allKept
      decreases |lines| - i
    {
      if Folds(selected, i) {
        Onward(output, selected[i].summary, Output(lines, selected, selected[i].end));
        output := output + [selected[i].summary];
        i := selected[i].end;
      } else {
        Onward(output, lines[i].text, Output(lines, selected, i + 1));
        Onward(kept, lines[i], Kept(lines, selected, i + 1));
        output := output + [lines[i].text];
        kept := kept + [lines[i]];
        i := i + 1;
      }
    }
  }

  lemma Onward<T>(done: seq<T>, x: T, rest: seq<T>)
    ensures done + [x] + rest == done + ([x] + rest)
  {
  }

  /**
   * `applyBudget`. The text is exactly the one that folding the shortest sufficient prefix of the ranking
   * gives, so it is within budget unless every gainful run is folded.
   */
  method ApplyBudget(lines: seq<Line>, options: Options) returns (r: Budgeted, ghost ranked: seq<Block>, ghost k: nat)
    ensures Ranking(lines, options.tool, ranked) && Shortest(lines, ranked, k, options)
    ensures r.text == Rendered(lines, ranked[..k], options.rawHash)
    ensures r.keptLines == Kept(lines, ByStart(ranked[..k]), 0)
    ensures r.elidedTokens == CeilDiv(Elided(ranked[..k]), 4)
    ensures EstimateTokens(r.text) <= options.budgetTokens || k == |ranked|
    ensures Anchored(r.keptLines, 0) == Anchored(lines, 0)
    ensures CharsOf(r.keptLines, 0, |r.keptLines|) + Elided(ranked[..k]) == CharsOf(lines, 0, |lines|)
    ensures FoldableInOrder(lines, options.tool, ranked) && NoneShorter(lines, ranked, k, options)
    ensures Gives(lines, ranked[..k], options.rawHash, r.keptLines, r.elidedTokens, r.text)
    ensures |r.text| <= 4 * options.budgetTokens || k == |ranked|
  {
    var blocks := FindBlocks(lines, options.tool);
    SortedIsRanking(lines, options.tool, blocks);
    ranked := SortBy(blocks, ByPriority);
    var selected, elided;
    selected, elided, k := Select(lines, SortBy(blocks, ByPriority), options);
    var output, kept := Assemble(lines, selected);
    FoldingKeeps(lines, options.tool, ranked, k);
    RankingInOrder(lines, options.tool, ranked);
    RenderedGives(lines, options.tool, ranked, k, options.rawHash);
    ShortestGives(lines, ranked, k, options);
    r := Budgeted(Join(output) + [10] + Footer(options.rawHash, CeilDiv(elided, 4)), CeilDiv(elided, 4), kept);
  }

  // ------------------------------------------------------------------ what is left

  function Anchored(lines: seq<Line>, i: nat): seq<Line>
    decreases |lines| - i
  {
    if i >= |lines| then []
    else if lines[i].anchor then [lines[i]] + Anchored(lines, i + 1)
    else Anchored(lines, i + 1)
  }

  lemma {:induction false} NoAnchorInside(lines: seq<Line>, tool: Text, a: nat, b: nat, i: nat)
    requires IsRun(lines, tool, a, b) && a <= i <= b
    ensures Anchored(lines, i) == Anchored(lines, b)
    decreases b - i
  {
    if i < b {
      assert Like(lines[a], lines[i], tool);
      NoAnchorInside(lines, tool, a, b, i + 1);
    }
  }

  lemma {:induction false} AnchoredOfFirst(line: Line, rest: seq<Line>)
    ensures Anchored([line] + rest, 0) == if line.anchor then [line] + Anchored(rest, 0) else Anchored(rest, 0)
  {
    AnchoredShift(line, rest, 0);
  }

  lemma {:induction false} AnchoredShift(line: Line, rest: seq<Line>, i: nat)
    requires i <= |rest|
    ensures Anchored([line] + rest, i + 1) == Anchored(rest, i)
    decreases |rest| - i
  {
    var all := [line] + rest;
    if i < |rest| {
      assert all[i + 1] == rest[i];
      AnchoredShift(line, rest, i + 1);
    } else {
      assert Anchored(all, i + 1) == [];
    }
  }

  /** Every anchored line is kept, and they keep their order. */
  lemma {:induction false} AnchorsSurvive(lines: seq<Line>, tool: Text, folded: map<nat, Block>, i: nat)
    requires FoldedWell(lines, tool, folded) && i <= |lines|
    ensures Anchored(Kept(lines, folded, i), 0) == Anchored(lines, i)
    decreases |lines| - i
  {
    if i < |lines| {
      if Folds(folded, i) {
        assert Gainful(lines, tool, folded[i]);
        AnchorsSurvive(lines, tool, folded, folded[i].end);
        NoAnchorInside(lines, tool, i, folded[i].end, i);
      } else {
        AnchorsSurvive(lines, tool, folded, i + 1);
        AnchoredOfFirst(lines[i], Kept(lines, folded, i + 1));
      }
    }
  }

  /** Kept and folded lines together are all the characters there were. */
  lemma {:induction false} CharsConserved(lines: seq<Line>, tool: Text, folded: map<nat, Block>, i: nat)
    requires FoldedWell(lines, tool, folded) && i <= |lines|
    ensures CharsOf(Kept(lines, folded, i), 0, |Kept(lines, folded, i)|) + CharsFoldedFrom(lines, folded, i)
         == CharsOf(lines, i, |lines|)
    decreases |lines| - i
  {
    if i < |lines| {
      if i in folded {
        assert Gainful(lines, tool, folded[i]);
        CharsConserved(lines, tool, folded, folded[i].end);
        SkipInside(lines, tool, folded, i, i + 1);
        CharsSplit(lines, i, folded[i].end, |lines|);
      } else {
        CharsConserved(lines, tool, folded, i + 1);
        CharsKept(lines, folded, i);
      }
    }
  }

  lemma CharsKept(lines: seq<Line>, folded: map<nat, Block>, i: nat)
    requires i < |lines| && i !in folded
    ensures var kept, rest := Kept(lines, folded, i), Kept(lines, folded, i + 1);
            CharsOf(kept, 0, |kept|) - CharsOf(rest, 0, |rest|) == CharsOf(lines, i, |lines|) - CharsOf(lines, i + 1, |lines|)
  {
    CharsSplit(lines, i, i + 1, |lines|);
    assert CharsOf(lines, i, i) == 0;
    CharsOfFirst(lines[i], Kept(lines, folded, i + 1));
  }

  lemma {:induction false} CharsOfFirst(line: Line, rest: seq<Line>)
    ensures CharsOf([line] + rest, 0, |rest| + 1) == |line.text| + 1 + CharsOf(rest, 0, |rest|)
  {
    var all := [line] + rest;
    CharsSplit(all, 0, 1, |all|);
    assert CharsOf(all, 0, 0) == 0;
    CharsShift(line, rest, |rest|);
  }

  lemma {:induction false} CharsShift(line: Line, rest: seq<Line>, b: nat)
    requires b <= |rest|
    ensures CharsOf([line] + rest, 1, b + 1) == CharsOf(rest, 0, b)
  {
    if b > 0 {
      CharsShift(line, rest, b - 1);
    }
  }

  /** Folding any prefix of the ranking keeps the anchors and loses no character unaccounted. */
  lemma {:induction false} FoldingKeeps(lines: seq<Line>, tool: Text, ranked: seq<Block>, k: nat)
    requires Ranking(lines, tool, ranked) && k <= |ranked|
    ensures var kept := Kept(lines, ByStart(ranked[..k]), 0);
            && Anchored(kept, 0) == Anchored(lines, 0)
            && CharsOf(kept, 0, |kept|) + Elided(ranked[..k]) == CharsOf(lines, 0, |lines|)
  {
    ByStartWell(lines, tool, ranked, k);
    GainsOf(lines, tool, ranked, k);
    AnchorsSurvive(lines, tool, ByStart(ranked[..k]), 0);
    CharsConserved(lines, tool, ByStart(ranked[..k]), 0);
  }

  /** On no lines at all the running length is one short of the text: it misses the break before the footer. */
  lemma EmptyInputIsOneLonger(hash: Text)
    ensures |Rendered([], [], hash)| == CharsOf([], 0, 0) + |Footer(hash, 0)| + 1
  {
    assert Output([], map[], 0) == [];
  }

  // ----------------------------------------------------------------- what is printed

  /** Neither line is an anchor, and both have one priority and one group, the tool's name where there is none. */
  ghost predicate Alike(a: Line, b: Line, tool: Text) {
    && !a.anchor && !b.anchor && a.priority == b.priority
    && (if a.group.Some? then a.group.value else tool) == (if b.group.Some? then b.group.value else tool)
  }

  /** All the lines around `start` that are alike, with a summary that is shorter than they are. */
  ghost predicate Foldable(lines: seq<Line>, tool: Text, block: Block) {
    && block.start < block.end <= |lines|
    && (forall k :: block.start <= k < block.end ==> Alike(lines[block.start], lines[k], tool))
    && (block.start > 0 ==> !Alike(lines[block.start - 1], lines[block.start], tool))
    && (block.end < |lines| ==> !Alike(lines[block.end - 1], lines[block.end], tool))
    && block.priority == lines[block.start].priority
    && block.owner == (if lines[block.start].group.Some? then lines[block.start].group.value else tool)
    && block.summary == Ascii("[+") + Digits(block.end - block.start) + Ascii(" lines elided in ") + block.owner + Ascii("]")
    && block.chars == CharsOf(lines, block.start, block.end) && block.gain == block.chars - |block.summary| - 1 > 0
  }

  /** All foldable blocks, those of the lowest priority first, and of those the earliest. */
  ghost predicate FoldableInOrder(lines: seq<Line>, tool: Text, ranked: seq<Block>) {
    && (forall block :: block in ranked <==> Foldable(lines, tool, block))
    && (forall i, j :: 0 <= i < j < |ranked| ==>
          || ranked[i].priority < ranked[j].priority
          || (ranked[i].priority == ranked[j].priority && ranked[i].start < ranked[j].start))
  }

  lemma GainfulIsFoldable(lines: seq<Line>, tool: Text, block: Block)
    ensures Gainful(lines, tool, block) <==> Foldable(lines, tool, block)
  {
    forall a, b
      ensures Like(a, b, tool) <==> Alike(a, b, tool)
    {
    }
  }

  lemma RankingInOrder(lines: seq<Line>, tool: Text, ranked: seq<Block>)
    requires Ranking(lines, tool, ranked)
    ensures FoldableInOrder(lines, tool, ranked)
  {
    forall block
      ensures block in ranked <==> Foldable(lines, tool, block)
    {
      GainfulIsFoldable(lines, tool, block);
      if Gainful(lines, tool, block) {
        assert IsRun(lines, tool, block.start, block.end);
      }
    }
    forall i, j | 0 <= i < j < |ranked|
      ensures ranked[i].priority < ranked[j].priority || (ranked[i].priority == ranked[j].priority && ranked[i].start < ranked[j].start)
    {
      assert RankedBefore(ranked[i], ranked[j]);
    }
  }

  /** The number that decimal digits stand for. */
  function Numeral(digits: Text): int {
    if digits == [] then 0 else Numeral(digits[..|digits| - 1]) * 10 + (digits[|digits| - 1] as int - 48)
  }

  /** Counts are printed in decimal, without a leading zero. */
  lemma {:induction false} DigitsRead(n: nat)
    ensures Numeral(Digits(n)) == n && (forall d :: d in Digits(n) ==> 48 <= d <= 57) && (n > 0 ==> Digits(n)[0] != 48)
  {
    if n >= 10 {
      DigitsRead(n / 10);
      assert Digits(n)[..|Digits(n)| - 1] == Digits(n / 10);
    } else {
      assert Digits(n)[..0] == [];
    }
  }

  /** The lines from `i` on at which nothing folded is under way; of each folded block that is the first line. */
  ghost function Heads(folded: seq<Block>, i: nat, n: nat): (at: seq<nat>)
    ensures forall k: nat :: k in at <==> i <= k < n && forall block :: block in folded ==> !(block.start < k < block.end)
    ensures (forall a :: 0 <= a < |at| ==> i <= at[a] < n) && forall a, b :: 0 <= a < b < |at| ==> at[a] < at[b]
    decreases n - i
  {
    if i >= n then []
    else (if forall block :: block in folded ==> !(block.start < i < block.end) then [i] else []) + Heads(folded, i + 1, n)
  }

  /** The lines from `i` on that are in no folded block. */
  ghost function Outside(folded: seq<Block>, i: nat, n: nat): (at: seq<nat>)
    ensures forall k: nat :: k in at <==> i <= k < n && forall block :: block in folded ==> !(block.start <= k < block.end)
    ensures (forall a :: 0 <= a < |at| ==> i <= at[a] < n) && forall a, b :: 0 <= a < b < |at| ==> at[a] < at[b]
    decreases n - i
  {
    if i >= n then []
    else (if forall block :: block in folded ==> !(block.start <= i < block.end) then [i] else []) + Outside(folded, i + 1, n)
  }

  /** The summary of the folded block that starts here, or the line itself. */
  ghost predicate PrintedAt(lines: seq<Line>, folded: seq<Block>, i: nat, part: Text) {
    && i < |lines|
    && (forall block :: block in folded && block.start == i ==> part == block.summary)
    && ((forall block :: block in folded ==> block.start != i) ==> part == lines[i].text)
  }

  ghost predicate Printed(lines: seq<Line>, folded: seq<Block>, i: nat, parts: seq<Text>) {
    var at := Heads(folded, i, |lines|);
    |parts| == |at| && forall j :: 0 <= j < |at| ==> PrintedAt(lines, folded, at[j], parts[j])
  }

  ghost predicate KeptFrom(lines: seq<Line>, folded: seq<Block>, i: nat, kept: seq<Line>) {
    var at := Outside(folded, i, |lines|);
    |kept| == |at| && forall j :: 0 <= j < |at| ==> at[j] < |lines| && kept[j] == lines[at[j]]
  }

  /** The map files exactly these blocks, which are separate runs. */
  ghost predicate Files(lines: seq<Line>, tool: Text, filed: map<nat, Block>, folded: seq<Block>) {
    && FoldedWell(lines, tool, filed)
    && (forall block :: block in folded ==> block.start in filed && filed[block.start] == block)
    && (forall i :: i in filed ==> filed[i] in folded)
  }

  lemma {:induction false} SkipHeads(folded: seq<Block>, block: Block, k: nat, n: nat)
    requires block in folded && block.start < k <= block.end <= n
    ensures Heads(folded, k, n) == Heads(folded, block.end, n)
    decreases block.end - k
  {
    if k < block.end {
      SkipHeads(folded, block, k + 1, n);
    }
  }

  lemma {:induction false} SkipOutside(folded: seq<Block>, block: Block, k: nat, n: nat)
    requires block in folded && block.start <= k <= block.end <= n
    ensures Outside(folded, k, n) == Outside(folded, block.end, n)
    decreases block.end - k
  {
    if k < block.end {
      SkipOutside(folded, block, k + 1, n);
    }
  }

  ghost predicate Head(folded: seq<Block>, i: nat) {
    forall block :: block in folded ==> !(block.start < i < block.end)
  }

  lemma NextHead(lines: seq<Line>, tool: Text, filed: map<nat, Block>, folded: seq<Block>, i: nat)
    requires Files(lines, tool, filed, folded) && Head(folded, i) && i < |lines|
    ensures i in filed ==> i < filed[i].end <= |lines| && Head(folded, filed[i].end) && Folds(filed, i)
    ensures i !in filed ==> Head(folded, i + 1)
  {
    if i in filed {
      assert Gainful(lines, tool, filed[i]);
      forall block | block in folded
        ensures !(block.start < filed[i].end < block.end)
      {
        assert Gainful(lines, tool, filed[block.start]);
        RunsMeetOnlyWhole(lines, tool, i, filed[i].end, block.start, block.end);
      }
    }
  }

  lemma {:induction false} OutputPrinted(lines: seq<Line>, tool: Text, filed: map<nat, Block>, folded: seq<Block>, i: nat)
    requires Files(lines, tool, filed, folded) && Head(folded, i) && i <= |lines|
    ensures Printed(lines, folded, i, Output(lines, filed, i))
    decreases |lines| - i
  {
    if i < |lines| {
      NextHead(lines, tool, filed, folded, i);
      if i in filed {
        SkipHeads(folded, filed[i], i + 1, |lines|);
        OutputPrinted(lines, tool, filed, folded, filed[i].end);
        PrintedCons(lines, folded, i, filed[i].summary, Output(lines, filed, filed[i].end));
      } else {
        OutputPrinted(lines, tool, filed, folded, i + 1);
        PrintedCons(lines, folded, i, lines[i].text, Output(lines, filed, i + 1));
      }
    }
  }

  lemma PrintedCons(lines: seq<Line>, folded: seq<Block>, i: nat, part: Text, rest: seq<Text>)
    requires i < |lines| && Head(folded, i) && PrintedAt(lines, folded, i, part) && Printed(lines, folded, i + 1, rest)
    ensures Printed(lines, folded, i, [part] + rest)
  {
    assert Heads(folded, i, |lines|) == [i] + Heads(folded, i + 1, |lines|);
  }

  lemma {:induction false} KeptIsOutside(lines: seq<Line>, tool: Text, filed: map<nat, Block>, folded: seq<Block>, i: nat)
    requires Files(lines, tool, filed, folded) && Head(folded, i) && i <= |lines|
    ensures KeptFrom(lines, folded, i, Kept(lines, filed, i))
    decreases |lines| - i
  {
    if i < |lines| {
      NextHead(lines, tool, filed, folded, i);
      if i in filed {
        SkipOutside(folded, filed[i], i, |lines|);
        KeptIsOutside(lines, tool, filed, folded, filed[i].end);
      } else {
        KeptIsOutside(lines, tool, filed, folded, i + 1);
        KeptCons(lines, folded, i, Kept(lines, filed, i + 1));
      }
    }
  }

  lemma KeptCons(lines: seq<Line>, folded: seq<Block>, i: nat, rest: seq<Line>)
    requires i < |lines| && KeptFrom(lines, folded, i + 1, rest)
    requires forall block :: block in folded ==> !(block.start <= i < block.end)
    ensures KeptFrom(lines, folded, i, [lines[i]] + rest)
  {
    assert Outside(folded, i, |lines|) == [i] + Outside(folded, i + 1, |lines|);
  }

  lemma ByStartFiles(lines: seq<Line>, tool: Text, ranked: seq<Block>, k: nat)
    requires Ranking(lines, tool, ranked) && k <= |ranked|
    ensures Files(lines, tool, ByStart(ranked[..k]), ranked[..k])
  {
    ByStartWell(lines, tool, ranked, k);
    forall i, j | 0 <= i < j < k
      ensures ranked[i].start != ranked[j].start
    {
      RankedStartsDiffer(lines, tool, ranked, j);
    }
    ByStartHas(ranked[..k]);
  }

  lemma {:induction false} ByStartHas(folded: seq<Block>)
    requires forall i, j :: 0 <= i < j < |folded| ==> folded[i].start != folded[j].start
    ensures forall block :: block in folded ==> block.start in ByStart(folded) && ByStart(folded)[block.start] == block
    ensures forall i :: i in ByStart(folded) ==> ByStart(folded)[i] in folded
  {
    if folded != [] {
      var before, last := folded[..|folded| - 1], folded[|folded| - 1];
      ByStartHas(before);
      assert folded == before + [last];
    }
  }

  /** Parts below one another, with a line feed between any two. */
  function Stacked(parts: seq<Text>): Text {
    if parts == [] then []
    else if |parts| == 1 then parts[0]
    else Stacked(parts[..|parts| - 1]) + [10] + parts[|parts| - 1]
  }

  lemma {:induction false} StackedCons(first: Text, rest: seq<Text>)
    requires rest != []
    ensures Stacked([first] + rest) == first + [10] + Stacked(rest)
  {
    var all := [first] + rest;
    if |rest| == 1 {
      assert all[..1] == [first];
    } else {
      StackedCons(first, rest[..|rest| - 1]);
      assert all[..|all| - 1] == [first] + rest[..|rest| - 1];
    }
  }

  lemma {:induction false} JoinStacks(parts: seq<Text>)
    ensures Join(parts) == Stacked(parts)
  {
    if |parts| > 1 {
      JoinStacks(parts[1..]);
      StackedCons(parts[0], parts[1..]);
      assert parts == [parts[0]] + parts[1..];
    }
  }

  /** The printed parts, and below them what was left out and how to get it back. */
  ghost predicate Prints(lines: seq<Line>, folded: seq<Block>, hash: Text, elided: nat, text: Text) {
    exists parts :: Printed(lines, folded, 0, parts) && Footed(parts, hash, elided, text)
  }

  ghost predicate Footed(parts: seq<Text>, hash: Text, elided: nat, text: Text) {
    text == Stacked(parts) + [10]
            + Ascii("[bluecode rtk] compressed: rawHash=") + hash + Ascii(" (") + Digits(elided)
            + Ascii(" tokens elided). Full output: headroom_retrieve(hash=\"") + hash + Ascii("\")")
  }

  /** Four characters to a token, rounded up, of the lines in folded blocks. */
  ghost predicate Counts(lines: seq<Line>, kept: seq<Line>, elided: nat) {
    var chars := CharsOf(lines, 0, |lines|) - CharsOf(kept, 0, |kept|);
    4 * elided >= chars && (elided > 0 ==> 4 * (elided - 1) < chars)
  }

  /** Folding these blocks keeps these lines and gives this text. */
  ghost predicate Gives(lines: seq<Line>, folded: seq<Block>, hash: Text, kept: seq<Line>, elided: nat, text: Text) {
    KeptFrom(lines, folded, 0, kept) && Counts(lines, kept, elided) && Prints(lines, folded, hash, elided, text)
  }

  lemma RenderedGives(lines: seq<Line>, tool: Text, ranked: seq<Block>, k: nat, hash: Text)
    requires Ranking(lines, tool, ranked) && k <= |ranked|
    ensures Gives(lines, ranked[..k], hash, Kept(lines, ByStart(ranked[..k]), 0), CeilDiv(Elided(ranked[..k]), 4),
                  Rendered(lines, ranked[..k], hash))
  {
    var filed, folded := ByStart(ranked[..k]), ranked[..k];
    ByStartFiles(lines, tool, ranked, k);
    FoldingKeeps(lines, tool, ranked, k);
    OutputPrinted(lines, tool, filed, folded, 0);
    KeptIsOutside(lines, tool, filed, folded, 0);
    JoinStacks(Output(lines, filed, 0));
    FooterFoots(Output(lines, filed, 0), hash, CeilDiv(Elided(folded), 4));
  }

  lemma FooterFoots(parts: seq<Text>, hash: Text, elided: nat)
    requires Join(parts) == Stacked(parts)
    ensures Footed(parts, hash, elided, Join(parts) + [10] + Footer(hash, elided))
  {
  }

  /** Every shorter prefix of the ranking gives a text above the budget. */
  ghost predicate NoneShorter(lines: seq<Line>, ranked: seq<Block>, k: nat, options: Options) {
    forall j :: 0 <= j < k <= |ranked| ==> TooLong(lines, ranked[..j], options)
  }

  ghost predicate TooLong(lines: seq<Line>, folded: seq<Block>, options: Options) {
    exists kept, elided, text :: Gives(lines, folded, options.rawHash, kept, elided, text) && |text| > 4 * options.budgetTokens
  }

  lemma ShortestGives(lines: seq<Line>, ranked: seq<Block>, k: nat, options: Options)
    requires Ranking(lines, options.tool, ranked) && Shortest(lines, ranked, k, options)
    ensures NoneShorter(lines, ranked, k, options)
    ensures k < |ranked| ==> |Rendered(lines, ranked[..k], options.rawHash)| <= 4 * options.budgetTokens
  {
    forall j | 0 <= j < k <= |ranked|
      ensures TooLong(lines, ranked[..j], options)
    {
      assert !Fits(lines, ranked, j, options);
      RenderedGives(lines, options.tool, ranked, j, options.rawHash);
    }
  }
}
