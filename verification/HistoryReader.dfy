/** Paged reading of nested archives: an explicit-stack walk that agrees with the recursive one. */
module HistoryReader {
  import opened Texts
  import opened Messages
  import opened Paging

  type Hash = Text

  const MAX_DEPTH := 128

  datatype Row = Row(hash: Hash, role: Role, turnIndex: nat, msgSeq: nat)

  /** What the object behind a row turns out to be. */
  datatype Content = Missing | Text(text: Texts.Text) | Child(hash: Hash)

  /** The store during one read: each archive's rows in `msgSeq` order, and each object's content. */
  datatype Store = Store(archives: map<Hash, seq<Row>>, objects: map<Hash, Content>)

  function Rows(store: Store, hash: Hash): seq<Row> {
    if hash in store.archives then store.archives[hash] else []
  }

  function ContentOf(store: Store, row: Row): Content {
    if row.hash in store.objects then store.objects[row.hash] else Missing
  }

  ghost predicate Ordered(rows: seq<Row>) {
    forall i, j :: 0 <= i < j < |rows| ==> rows[i].msgSeq < rows[j].msgSeq
  }

  ghost predicate StoreValid(store: Store) {
    forall hash :: hash in store.archives ==> Ordered(store.archives[hash])
  }

  // -------------------------------------------------------- the recursive reader

  datatype Leaf = Leaf(row: Row, text: Option<Texts.Text>)

  /** Leaves yielded, whether the walk then throws, and how many loop turns the stack walk takes for it. */
  datatype Walk = Walk(leaves: seq<Leaf>, failed: bool, turns: nat)

  function Then(a: Walk, b: Walk): Walk {
    if a.failed then a else Walk(a.leaves + b.leaves, b.failed, a.turns + b.turns)
  }

  /** `historyLeaves`: expand confirmed child archives depth first. */
  function HistoryLeaves(store: Store, hash: Hash, ancestors: set<Hash>): Walk
    decreases if |ancestors| <= MAX_DEPTH then MAX_DEPTH - |ancestors| + 1 else 0, 1, 0
  {
    if hash in ancestors || |ancestors| >= MAX_DEPTH then Walk([], true, 1)
    else LeavesFrom(store, hash, ancestors + {hash}, 0)
  }

  function LeavesFrom(store: Store, hash: Hash, lineage: set<Hash>, k: nat): Walk
    decreases if |lineage| <= MAX_DEPTH then MAX_DEPTH - |lineage| + 1 else 0, 2, |Rows(store, hash)| - k
  {
    var rows := Rows(store, hash);
    if k >= |rows| then Walk([], false, 1)
    else
      match ContentOf(store, rows[k])
      case Child(child) =>
        var inner := if child in lineage || |lineage| >= MAX_DEPTH then Walk([], true, 1)
                     else LeavesFrom(store, child, lineage + {child}, 0);
        Then(Walk([], false, 1), Then(inner, LeavesFrom(store, hash, lineage, k + 1)))
      case Text(text) => Then(Walk([Leaf(rows[k], Some(text))], false, 1), LeavesFrom(store, hash, lineage, k + 1))
      case Missing => Then(Walk([Leaf(rows[k], None)], false, 1), LeavesFrom(store, hash, lineage, k + 1))
  }

  // ------------------------------------------------------------ the saved frontier

  datatype Frame = Frame(hash: Hash, offset: nat)

  datatype Frontier = Frontier(stack: seq<Frame>, ordinal: nat, intra: nat)

  /** Index of the first row at or after `offset`. */
  function Index(rows: seq<Row>, offset: nat): (k: nat)
    ensures k <= |rows|
    ensures k < |rows| ==> rows[k].msgSeq >= offset
  {
    if rows == [] then 0 else if rows[0].msgSeq >= offset then 0 else 1 + Index(rows[1..], offset)
  }

  lemma {:induction false} IndexAfter(rows: seq<Row>, offset: nat)
    requires Ordered(rows) && Index(rows, offset) < |rows|
    ensures Index(rows, rows[Index(rows, offset)].msgSeq + 1) == Index(rows, offset) + 1
  {
    if rows[0].msgSeq >= offset {
      if |rows| > 1 {
        assert rows[1..][0].msgSeq >= rows[0].msgSeq + 1;
      }
    } else {
      var k := Index(rows[1..], offset);
      IndexAfter(rows[1..], offset);
      assert rows[1..][k] == rows[k + 1];
      assert rows[0].msgSeq < rows[k + 1].msgSeq;
    }
  }

  lemma {:induction false} IndexZero(rows: seq<Row>)
    ensures Index(rows, 0) == 0
  {
  }

  function Hashes(stack: seq<Frame>): set<Hash> {
    if stack == [] then {} else Hashes(stack[..|stack| - 1]) + {stack[|stack| - 1].hash}
  }

  predicate OnStack(stack: seq<Frame>, hash: Hash) {
    exists i :: 0 <= i < |stack| && stack[i].hash == hash
  }

  lemma {:induction false} HashesAre(stack: seq<Frame>, hash: Hash)
    ensures hash in Hashes(stack) <==> OnStack(stack, hash)
  {
    if stack != [] {
      var before := stack[..|stack| - 1];
      HashesAre(before, hash);
      assert OnStack(stack, hash) <==> OnStack(before, hash) || stack[|stack| - 1].hash == hash by {
        assert forall i :: 0 <= i < |before| ==> before[i] == stack[i];
      }
    }
  }

  /** No archive is open twice. */
  ghost predicate StackValid(stack: seq<Frame>)
  {
    stack == [] || (StackValid(stack[..|stack| - 1]) && stack[|stack| - 1].hash !in Hashes(stack[..|stack| - 1]))
  }

  lemma {:induction false} StackSize(stack: seq<Frame>)
    requires StackValid(stack)
    ensures |Hashes(stack)| == |stack|
  {
    if stack != [] {
      StackSize(stack[..|stack| - 1]);
    }
  }

  /** Everything still unread: the open rows of every frame, innermost first. */
  function Rest(store: Store, stack: seq<Frame>): Walk
    decreases |stack|
  {
    if stack == [] then Walk([], false, 0)
    else
      var top := stack[|stack| - 1];
      Then(LeavesFrom(store, top.hash, Hashes(stack), Index(Rows(store, top.hash), top.offset)),
           Rest(store, stack[..|stack| - 1]))
  }

  // --------------------------------------------------------- one turn of the loop

  /** The frame after its current row. */
  function Advance(stack: seq<Frame>, row: Row): seq<Frame>
    requires stack != []
  {
    stack[..|stack| - 1] + [Frame(stack[|stack| - 1].hash, row.msgSeq + 1)]
  }

  lemma {:induction false} AdvanceKeeps(stack: seq<Frame>, row: Row)
    requires stack != [] && StackValid(stack)
    ensures StackValid(Advance(stack, row)) && Hashes(Advance(stack, row)) == Hashes(stack)
    ensures Advance(stack, row)[..|stack| - 1] == stack[..|stack| - 1]
    ensures forall hash :: OnStack(Advance(stack, row), hash) <==> OnStack(stack, hash)
  {
    assert Advance(stack, row)[..|stack| - 1] == stack[..|stack| - 1];
    forall hash
      ensures OnStack(Advance(stack, row), hash) <==> OnStack(stack, hash)
    {
      HashesAre(Advance(stack, row), hash);
      HashesAre(stack, hash);
    }
  }

  function CurrentIndex(store: Store, stack: seq<Frame>): (k: nat)
    requires stack != []
    ensures k <= |Rows(store, stack[|stack| - 1].hash)|
  {
    Index(Rows(store, stack[|stack| - 1].hash), stack[|stack| - 1].offset)
  }

  function CurrentRow(store: Store, stack: seq<Frame>): Option<Row>
    requires stack != []
  {
    var k := CurrentIndex(store, stack);
    var rows := Rows(store, stack[|stack| - 1].hash);
    if k < |rows| then Some(rows[k]) else None
  }

  lemma {:induction false} PopRest(store: Store, stack: seq<Frame>)
    requires stack != [] && CurrentRow(store, stack).None?
    ensures var rest, next := Rest(store, stack), Rest(store, stack[..|stack| - 1]);
            rest.leaves == next.leaves && rest.failed == next.failed && rest.turns == next.turns + 1
  {
  }

  lemma {:induction false} ThenAssociates(a: Walk, b: Walk, c: Walk)
    ensures Then(Then(a, b), c) == Then(a, Then(b, c))
  {
    if !a.failed && !b.failed {
      assert (a.leaves + b.leaves) + c.leaves == a.leaves + (b.leaves + c.leaves);
    }
  }

  lemma {:induction false} RestTop(store: Store, below: seq<Frame>, frame: Frame, k: nat)
    requires k == Index(Rows(store, frame.hash), frame.offset)
    ensures Rest(store, below + [frame]) ==
            Then(LeavesFrom(store, frame.hash, Hashes(below) + {frame.hash}, k), Rest(store, below))
    ensures Hashes(below + [frame]) == Hashes(below) + {frame.hash}
  {
    var stack := below + [frame];
    assert stack[..|stack| - 1] == below;
  }

  lemma {:induction false} AdvancedIndex(store: Store, top: Frame, row: Row)
    requires StoreValid(store)
    requires var k := Index(Rows(store, top.hash), top.offset); k < |Rows(store, top.hash)| && Rows(store, top.hash)[k] == row
    ensures Index(Rows(store, top.hash), row.msgSeq + 1) == Index(Rows(store, top.hash), top.offset) + 1
  {
    IndexAfter(Rows(store, top.hash), top.offset);
  }

  lemma {:induction false} AdvanceTop(store: Store, below: seq<Frame>, top: Frame, row: Row, k: nat)
    requires StoreValid(store) && k == Index(Rows(store, top.hash), top.offset)
    requires k < |Rows(store, top.hash)| && Rows(store, top.hash)[k] == row
    ensures Rest(store, below + [Frame(top.hash, row.msgSeq + 1)])
         == Then(LeavesFrom(store, top.hash, Hashes(below) + {top.hash}, k + 1), Rest(store, below))
  {
    AdvancedIndex(store, top, row);
    RestTop(store, below, Frame(top.hash, row.msgSeq + 1), k + 1);
  }

  /** What a leaf row yields. */
  function LeafOf(store: Store, row: Row): Leaf {
    Leaf(row, if ContentOf(store, row).Text? then Some(ContentOf(store, row).text) else None)
  }

  lemma {:induction false} LeafStep(store: Store, hash: Hash, lineage: set<Hash>, k: nat)
    requires k < |Rows(store, hash)| && !ContentOf(store, Rows(store, hash)[k]).Child?
    ensures LeavesFrom(store, hash, lineage, k)
         == Then(Walk([LeafOf(store, Rows(store, hash)[k])], false, 1), LeavesFrom(store, hash, lineage, k + 1))
  {
  }

  lemma {:induction false} ChildStep(store: Store, hash: Hash, lineage: set<Hash>, k: nat, child: Hash)
    requires k < |Rows(store, hash)| && ContentOf(store, Rows(store, hash)[k]) == Child(child)
    requires child !in lineage && |lineage| < MAX_DEPTH
    ensures LeavesFrom(store, hash, lineage, k)
         == Then(Walk([], false, 1), Then(LeavesFrom(store, child, lineage + {child}, 0), LeavesFrom(store, hash, lineage, k + 1)))
  {
  }

  lemma {:induction false} TopAndBelow(store: Store, stack: seq<Frame>, row: Row)
      returns (below: seq<Frame>, top: Frame, k: nat, lineage: set<Hash>)
    requires stack != [] && CurrentRow(store, stack) == Some(row)
    ensures below == stack[..|stack| - 1] && top == stack[|stack| - 1] && stack == below + [top]
    ensures k == Index(Rows(store, top.hash), top.offset) < |Rows(store, top.hash)| && Rows(store, top.hash)[k] == row
    ensures lineage == Hashes(below) + {top.hash} == Hashes(stack)
    ensures Advance(stack, row) == below + [Frame(top.hash, row.msgSeq + 1)]
  {
    below, top, k := stack[..|stack| - 1], stack[|stack| - 1], CurrentIndex(store, stack);
    lineage := Hashes(below) + {top.hash};
  }

  /** A leaf is the next thing unread; behind it is the rest of the advanced stack. */
  lemma {:induction false} LeafRest(store: Store, stack: seq<Frame>, row: Row)
    requires StoreValid(store) && stack != [] && CurrentRow(store, stack) == Some(row)
    requires !ContentOf(store, row).Child?
    ensures Rest(store, stack) == Then(Walk([LeafOf(store, row)], false, 1), Rest(store, Advance(stack, row)))
  {
    var below, top, k, lineage := TopAndBelow(store, stack, row);
    RestTop(store, below, top, k);
    AdvanceTop(store, below, top, row, k);
    LeafStep(store, top.hash, lineage, k);
    ThenAssociates(Walk([LeafOf(store, row)], false, 1), LeavesFrom(store, top.hash, lineage, k + 1), Rest(store, below));
  }

  /** A child that may be opened is read before the rest of its parent. */
  lemma {:induction false} PushRest(store: Store, stack: seq<Frame>, row: Row, child: Hash)
    requires StoreValid(store) && StackValid(stack) && stack != [] && CurrentRow(store, stack) == Some(row)
    requires ContentOf(store, row) == Child(child)
    requires |stack| < MAX_DEPTH && !OnStack(stack, child)
    ensures var pushed := Advance(stack, row) + [Frame(child, 0)];
            StackValid(pushed) && Rest(store, stack) == Then(Walk([], false, 1), Rest(store, pushed))
  {
    AdvanceKeeps(stack, row);
    HashesAre(stack, child);
    StackSize(stack);
    PushValid(Advance(stack, row), Frame(child, 0));
    PushedRest(store, stack, row, child);
  }

  lemma {:induction false} PushedRest(store: Store, stack: seq<Frame>, row: Row, child: Hash)
    requires StoreValid(store) && StackValid(stack) && stack != [] && CurrentRow(store, stack) == Some(row)
    requires ContentOf(store, row) == Child(child)
    requires child !in Hashes(stack) && |Hashes(stack)| < MAX_DEPTH
    ensures Rest(store, stack) == Then(Walk([], false, 1), Rest(store, Advance(stack, row) + [Frame(child, 0)]))
  {
    var below, top, k, lineage := TopAndBelow(store, stack, row);
    var advanced := Advance(stack, row);
    AdvanceKeeps(stack, row);
    RestTop(store, below, top, k);
    AdvanceTop(store, below, top, row, k);
    IndexZero(Rows(store, child));
    RestTop(store, advanced, Frame(child, 0), 0);
    ChildStep(store, top.hash, lineage, k, child);
    PushAssociates(LeavesFrom(store, child, lineage + {child}, 0), LeavesFrom(store, top.hash, lineage, k + 1), Rest(store, below));
  }

  lemma {:induction false} PushValid(stack: seq<Frame>, frame: Frame)
    requires StackValid(stack) && frame.hash !in Hashes(stack)
    ensures StackValid(stack + [frame])
  {
    assert (stack + [frame])[..|stack|] == stack;
  }

  lemma {:induction false} PushAssociates(inner: Walk, tail: Walk, below: Walk)
    ensures Then(Then(Walk([], false, 1), Then(inner, tail)), below)
         == Then(Walk([], false, 1), Then(inner, Then(tail, below)))
  {
    ThenAssociates(Walk([], false, 1), Then(inner, tail), below);
    ThenAssociates(inner, tail, below);
  }

  /** A child that may not be opened is where the recursive walk throws, and nothing precedes it. */
  lemma {:induction false} ForbiddenRest(store: Store, stack: seq<Frame>, row: Row, child: Hash)
    requires StackValid(stack) && stack != [] && CurrentRow(store, stack) == Some(row)
    requires ContentOf(store, row) == Child(child)
    requires |stack| >= MAX_DEPTH || OnStack(stack, child)
    ensures Rest(store, stack).failed && Rest(store, stack).leaves == []
  {
    HashesAre(stack, child);
    StackSize(stack);
  }

  /** The saved start of a read is the recursive walk from the root. */
  lemma {:induction false} StartIsHistory(store: Store, root: Hash)
    ensures StackValid([Frame(root, 0)])
    ensures var whole := HistoryLeaves(store, root, {});
            Rest(store, [Frame(root, 0)]) == whole
  {
    var stack := [Frame(root, 0)];
    assert stack[..0] == [];
    IndexZero(Rows(store, root));
    assert Hashes(stack) == {root};
    assert {} + {root} == {root};
    var whole := LeavesFrom(store, root, {root}, 0);
    assert whole.leaves + [] == whole.leaves;
  }

  // ------------------------------------------------------------------- one page

  datatype Item = Item(contentHash: Hash, role: Role, turnIndex: nat, content: Texts.Text)

  /** The item for units `from` to `to` of a leaf; a missing leaf has none. */
  function Piece(leaf: Leaf, from: nat, to: nat): seq<Item> {
    if leaf.text.Some? && from <= to <= |leaf.text.value|
    then [Item(leaf.row.hash, leaf.row.role, leaf.row.turnIndex, leaf.text.value[from..to])]
    else []
  }

  function Length(leaf: Leaf): nat {
    if leaf.text.Some? then |leaf.text.value| else 0
  }

  /** Only the first leaf of a page may start in its middle. */
  function From(n: nat, intra: nat): nat {
    if n == 0 then intra else 0
  }

  /** The items of the first `n` leaves read to their ends. */
  function ItemsUpTo(leaves: seq<Leaf>, intra: nat, n: nat): seq<Item>
    requires n <= |leaves|
  {
    if n == 0 then []
    else ItemsUpTo(leaves, intra, n - 1) + Piece(leaves[n - 1], From(n - 1, intra), Length(leaves[n - 1]))
  }

  function MissingUpTo(leaves: seq<Leaf>, n: nat): seq<Hash>
    requires n <= |leaves|
  {
    if n == 0 then []
    else MissingUpTo(leaves, n - 1) + (if leaves[n - 1].text.None? then [leaves[n - 1].row.hash] else [])
  }

  /** The items of a page that reads `n` leaves to their ends and stops at unit `stop` of the next. */
  function PageItems(leaves: seq<Leaf>, intra: nat, n: nat, stop: nat): seq<Item>
    requires n <= |leaves|
  {
    ItemsUpTo(leaves, intra, n)
    + if n < |leaves| && stop > From(n, intra) then Piece(leaves[n], From(n, intra), stop) else []
  }

  /** UTF-8 bytes of the texts of a page. */
  function ItemBytes(items: seq<Item>): nat {
    if items == [] then 0 else ItemBytes(items[..|items| - 1]) + BytesFrom(items[|items| - 1].content, 0)
  }

  datatype Outcome =
    | PageRead(items: seq<Item>, missing: seq<Hash>, more: bool, state: Frontier)
    | InvalidLineage
    | Unreadable(error: PageError)

  /** A page ends inside a leaf only between whole code points. */
  ghost predicate StopsInside(leaf: Leaf, from: nat, stop: nat) {
    leaf.text.Some? && stop < |leaf.text.value| && exists size: nat :: Reaches(leaf.text.value, from, stop, size)
  }

  /** `page` is the part of the walk between `before` and the frontier it saves. */
  ghost predicate PageBetween(start: Walk, now: Walk, before: Frontier, page: Outcome)
    requires page.PageRead?
  {
    var leaves, after, n := start.leaves, page.state, page.state.ordinal - before.ordinal;
    && 0 <= n <= |leaves|
    && StackValid(after.stack)
    && now.leaves == leaves[n..]
    && now.failed == start.failed
    && after.intra >= From(n, before.intra)
    && (after.intra > From(n, before.intra) ==> n < |leaves| && StopsInside(leaves[n], From(n, before.intra), after.intra))
    && page.items == PageItems(leaves, before.intra, n, after.intra)
    && page.missing == MissingUpTo(leaves, n)
    && (page.more <==> after.stack != [])
    && (page.more <==> leaves[n..] != [])
    && (page.more ==> n > 0 || after.intra > before.intra)
    && (!page.more ==> !now.failed)
  }

  function PageBudget(maxBytes: Option<int>, maxTokens: Option<int>): int {
    Min(Min(if maxBytes.Some? then maxBytes.value else DEFAULT_PAGE_BYTES, MAX_PAGE_BYTES),
        Min(if maxTokens.Some? then maxTokens.value else DEFAULT_PAGE_TOKENS, MAX_PAGE_TOKENS))
  }

  function PageLimit(limit: Option<int>): int {
    Min(if limit.Some? then limit.value else 10, 50)
  }

  /**
   * `w` is what `stack` leaves unread. Stated through a quantifier so that the loop below reasons with
   * the step lemmas instead of unfolding the walk.
   */
  ghost predicate Tracks(store: Store, stack: seq<Frame>, w: Walk) {
    forall s :: s == stack ==> w == Rest(store, s)
  }

  lemma {:induction false} TracksRest(store: Store, stack: seq<Frame>, w: Walk)
    ensures Tracks(store, stack, w) <==> w == Rest(store, stack)
  {
    if Tracks(store, stack, w) {
      assert stack == stack && w == Rest(store, stack);
    }
  }

  /** `page` is the part of the walk between the unread rest of `before` and that of the saved frontier. */
  ghost predicate PageOf(store: Store, before: Frontier, page: Outcome)
    requires page.PageRead?
  {
    exists start, now ::
      Tracks(store, before.stack, start) && Tracks(store, page.state.stack, now) && PageBetween(start, now, before, page)
  }

  lemma {:induction false} PopTracks(store: Store, stack: seq<Frame>, now: Walk) returns (next: Walk)
    requires Tracks(store, stack, now) && stack != [] && CurrentRow(store, stack).None?
    ensures Tracks(store, stack[..|stack| - 1], next)
    ensures next.leaves == now.leaves && next.failed == now.failed && next.turns + 1 == now.turns
  {
    assert now == Rest(store, stack);
    PopRest(store, stack);
    next := Rest(store, stack[..|stack| - 1]);
  }

  lemma {:induction false} PushTracks(store: Store, stack: seq<Frame>, now: Walk, row: Row, child: Hash) returns (next: Walk)
    requires StoreValid(store) && StackValid(stack) && Tracks(store, stack, now)
    requires stack != [] && CurrentRow(store, stack) == Some(row) && ContentOf(store, row) == Child(child)
    requires |stack| < MAX_DEPTH && !OnStack(stack, child)
    ensures StackValid(Advance(stack, row) + [Frame(child, 0)])
    ensures Tracks(store, Advance(stack, row) + [Frame(child, 0)], next)
    ensures next.leaves == now.leaves && next.failed == now.failed && next.turns + 1 == now.turns
  {
    assert now == Rest(store, stack);
    PushRest(store, stack, row, child);
    next := Rest(store, Advance(stack, row) + [Frame(child, 0)]);
    assert [] + next.leaves == next.leaves;
  }

  lemma {:induction false} LeafTracks(store: Store, stack: seq<Frame>, now: Walk, row: Row) returns (next: Walk)
    requires StoreValid(store) && StackValid(stack) && Tracks(store, stack, now)
    requires stack != [] && CurrentRow(store, stack) == Some(row) && !ContentOf(store, row).Child?
    ensures StackValid(Advance(stack, row))
    ensures Tracks(store, Advance(stack, row), next)
    ensures now.leaves == [LeafOf(store, row)] + next.leaves && next.failed == now.failed && next.turns + 1 == now.turns
  {
    assert now == Rest(store, stack);
    LeafRest(store, stack, row);
    AdvanceKeeps(stack, row);
    next := Rest(store, Advance(stack, row));
  }

  lemma {:induction false} ForbiddenTracks(store: Store, stack: seq<Frame>, now: Walk, row: Row, child: Hash)
    requires StackValid(stack) && Tracks(store, stack, now)
    requires stack != [] && CurrentRow(store, stack) == Some(row) && ContentOf(store, row) == Child(child)
    requires |stack| >= MAX_DEPTH || OnStack(stack, child)
    ensures now.failed && now.leaves == []
  {
    assert now == Rest(store, stack);
    ForbiddenRest(store, stack, row, child);
  }

  datatype LoopState = LoopState(
    stack: seq<Frame>, ordinal: nat, intra: nat, items: seq<Item>, missing: seq<Hash>, remaining: int, count: nat)

  /** `items` and `missing` are what the first `n` leaves gave; stated like `Tracks`. */
  ghost predicate Gathered(leaves: seq<Leaf>, intra: nat, n: nat, items: seq<Item>, missing: seq<Hash>)
    requires n <= |leaves|
  {
    forall m: nat :: m <= |leaves| && m == n ==> items == ItemsUpTo(leaves, intra, m) && missing == MissingUpTo(leaves, m)
  }

  lemma {:induction false} GatherOne(leaves: seq<Leaf>, intra: nat, n: nat, items: seq<Item>, missing: seq<Hash>)
    requires n < |leaves| && Gathered(leaves, intra, n, items, missing)
    ensures Gathered(leaves, intra, n + 1, items + Piece(leaves[n], From(n, intra), Length(leaves[n])),
                     missing + (if leaves[n].text.None? then [leaves[n].row.hash] else []))
  {
    assert items == ItemsUpTo(leaves, intra, n) && missing == MissingUpTo(leaves, n);
  }

  /** The loop's variables describe the leaves before `now` as read. */
  ghost predicate Reads(start: Walk, now: Walk, original: Frontier, budget: int, limit: int, st: LoopState) {
    var n := st.ordinal - original.ordinal;
    && 0 <= n <= |start.leaves|
    && now.leaves == start.leaves[n..]
    && now.failed == start.failed
    && st.intra == From(n, original.intra)
    && Gathered(start.leaves, original.intra, n, st.items, st.missing)
    && st.count == n == |st.items| + |st.missing| <= limit
    && 0 <= st.remaining && ItemBytes(st.items) + st.remaining == budget
    && StackValid(st.stack)
  }

  /** The first readable leaf refuses its cursor or does not fit the whole budget. */
  ghost predicate UnreadableAt(leaves: seq<Leaf>, intra: nat, budget: int, error: PageError) {
    exists n: nat ::
      && n < |leaves| && leaves[n].text.Some?
      && (forall k :: 0 <= k < n ==> leaves[k].text.None?)
      && Refused(leaves[n].text.value, From(n, intra), budget, error)
  }

  ghost predicate Refused(text: Texts.Text, start: nat, budget: int, error: PageError) {
    match error
    case BadBudget => false
    case OutsideBoundary => !Accepted(text, start)
    case CannotFit => Accepted(text, start) && start < |text| && SizeAt(text, start) > budget
  }

  /** The code point at `at` does not fit what is left, or the position is not one to read from. */
  predicate NextRefused(text: Texts.Text, at: nat, room: int) {
    !Accepted(text, at) || (at < |text| && SizeAt(text, at) > room)
  }

  /** A page ends early only when its count or its bytes are used up, or its next text refuses what is left of them. */
  ghost predicate Full(leaves: seq<Leaf>, before: Frontier, page: Outcome, budget: int, limit: int)
    requires page.PageRead?
  {
    var n := page.state.ordinal - before.ordinal;
    || |page.items| + |page.missing| == limit
    || ItemBytes(page.items) == budget
    || (0 <= n < |leaves| && leaves[n].text.Some? &&
        NextRefused(leaves[n].text.value, page.state.intra, budget - ItemBytes(page.items)))
  }

  /** `n` leaves are within the limit a caller gave, or ten, and never more than fifty. */
  predicate WithinCount(limit: Option<int>, n: int) {
    n <= 50 && if limit.Some? then n <= limit.value else n <= 10
  }

  /**
   * A page that ends early could not take more: one more leaf would break a limit on their number, or one
   * more byte or the next code point a limit on bytes, or the next text cannot be read from there.
   */
  ghost predicate CannotTakeMore(
      leaves: seq<Leaf>, before: Frontier, page: Outcome, maxBytes: Option<int>, maxTokens: Option<int>, limit: Option<int>)
    requires page.PageRead?
  {
    var n, at, bytes := page.state.ordinal - before.ordinal, page.state.intra, ItemBytes(page.items);
    || !WithinCount(limit, |page.items| + |page.missing| + 1)
    || !WithinLimits(maxBytes, maxTokens, bytes + 1)
    || (0 <= n < |leaves| && leaves[n].text.Some? &&
        var text := leaves[n].text.value;
        !Accepted(text, at) || (at < |text| && !WithinLimits(maxBytes, maxTokens, bytes + SizeAt(text, at))))
  }

  /** The first readable leaf cannot be read from the saved place, or its first code point breaks a limit. */
  ghost predicate FirstTextUnreadable(leaves: seq<Leaf>, intra: nat, maxBytes: Option<int>, maxTokens: Option<int>, error: PageError) {
    exists n: nat ::
      && n < |leaves| && leaves[n].text.Some?
      && (forall k :: 0 <= k < n ==> leaves[k].text.None?)
      && var text, start := leaves[n].text.value, From(n, intra);
         match error
         case BadBudget => false
         case OutsideBoundary => !Accepted(text, start)
         case CannotFit => Accepted(text, start) && start < |text| && !WithinLimits(maxBytes, maxTokens, SizeAt(text, start))
  }

  lemma LimitsAreBudget(maxBytes: Option<int>, maxTokens: Option<int>, limit: Option<int>, n: int)
    ensures n <= PageBudget(maxBytes, maxTokens) <==> WithinLimits(maxBytes, maxTokens, n)
    ensures n <= PageLimit(limit) <==> WithinCount(limit, n)
  {
  }

  lemma FullCannotTakeMore(
      leaves: seq<Leaf>, before: Frontier, page: Outcome, maxBytes: Option<int>, maxTokens: Option<int>, limit: Option<int>)
    requires page.PageRead? && Full(leaves, before, page, PageBudget(maxBytes, maxTokens), PageLimit(limit))
    ensures CannotTakeMore(leaves, before, page, maxBytes, maxTokens, limit)
  {
    var n, at, bytes := page.state.ordinal - before.ordinal, page.state.intra, ItemBytes(page.items);
    LimitsAreBudget(maxBytes, maxTokens, limit, |page.items| + |page.missing| + 1);
    LimitsAreBudget(maxBytes, maxTokens, limit, bytes + 1);
    if 0 <= n < |leaves| && leaves[n].text.Some? && at < |leaves[n].text.value| {
      LimitsAreBudget(maxBytes, maxTokens, limit, bytes + SizeAt(leaves[n].text.value, at));
    }
  }

  lemma UnreadableIsFirst(leaves: seq<Leaf>, intra: nat, maxBytes: Option<int>, maxTokens: Option<int>, error: PageError)
    requires UnreadableAt(leaves, intra, PageBudget(maxBytes, maxTokens), error)
    ensures FirstTextUnreadable(leaves, intra, maxBytes, maxTokens, error)
  {
    var n: nat :|
      && n < |leaves| && leaves[n].text.Some? && (forall k :: 0 <= k < n ==> leaves[k].text.None?)
      && Refused(leaves[n].text.value, From(n, intra), PageBudget(maxBytes, maxTokens), error);
    if error.CannotFit? {
      LimitsAreBudget(maxBytes, maxTokens, None, SizeAt(leaves[n].text.value, From(n, intra)));
    }
  }

  /** What a page read may report about a walk. */
  ghost predicate Reported(start: Walk, now: Walk, original: Frontier, budget: int, limit: int, r: Outcome) {
    match r
    case PageRead(items, missing, _, _) =>
      && PageBetween(start, now, original, r) && |items| + |missing| <= limit && ItemBytes(items) <= budget
      && (r.more ==> Full(start.leaves, original, r, budget, limit))
    case InvalidLineage => start.failed
    case Unreadable(error) =>
      start.leaves != [] &&
      (original.intra <= Length(start.leaves[0]) ==> UnreadableAt(start.leaves, original.intra, budget, error))
  }

  lemma {:induction false} NoItemsNoTexts(leaves: seq<Leaf>, intra: nat, n: nat)
    requires n <= |leaves| && intra <= (if leaves == [] then 0 else Length(leaves[0])) && ItemsUpTo(leaves, intra, n) == []
    ensures forall k :: 0 <= k < n ==> leaves[k].text.None?
  {
    if n > 0 {
      NoItemsNoTexts(leaves, intra, n - 1);
    }
  }

  lemma {:induction false} PushBytes(items: seq<Item>, item: Item)
    ensures ItemBytes(items + [item]) == ItemBytes(items) + BytesFrom(item.content, 0)
  {
    assert (items + [item])[..|items|] == items;
  }

  /** Leaving the loop with every frame closed. */
  lemma {:induction false} StopEmpty(start: Walk, now: Walk, original: Frontier, budget: int, limit: int, st: LoopState)
    requires Reads(start, now, original, budget, limit, st) && st.stack == [] && now.leaves == [] && !now.failed
    ensures Reported(start, now, original, budget, limit,
                     PageRead(st.items, st.missing, false, Frontier(st.stack, st.ordinal, st.intra)))
  {
    BetweenEmpty(start, now, original, budget, limit, st);
  }

  lemma {:induction false} BetweenEmpty(start: Walk, now: Walk, original: Frontier, budget: int, limit: int, st: LoopState)
    requires Reads(start, now, original, budget, limit, st) && st.stack == [] && now.leaves == [] && !now.failed
    ensures PageBetween(start, now, original, PageRead(st.items, st.missing, false, Frontier(st.stack, st.ordinal, st.intra)))
  {
    assert st.items == ItemsUpTo(start.leaves, original.intra, st.count);
    assert st.items + [] == st.items;
  }

  /** Leaving the loop before a leaf, after reading at least one. */
  lemma {:induction false} StopBefore(start: Walk, now: Walk, original: Frontier, budget: int, limit: int, st: LoopState)
    requires Reads(start, now, original, budget, limit, st) && st.stack != [] && now.leaves != [] && st.count > 0
    requires st.remaining == 0 || st.count == limit ||
             (now.leaves[0].text.Some? && NextRefused(now.leaves[0].text.value, st.intra, st.remaining))
    ensures Reported(start, now, original, budget, limit,
                     PageRead(st.items, st.missing, true, Frontier(st.stack, st.ordinal, st.intra)))
  {
    BetweenBefore(start, now, original, budget, limit, st);
    NextIs(start, now, original, budget, limit, st);
  }

  lemma {:induction false} BetweenBefore(start: Walk, now: Walk, original: Frontier, budget: int, limit: int, st: LoopState)
    requires Reads(start, now, original, budget, limit, st) && st.stack != [] && now.leaves != [] && st.count > 0
    ensures PageBetween(start, now, original, PageRead(st.items, st.missing, true, Frontier(st.stack, st.ordinal, st.intra)))
  {
    assert st.items == ItemsUpTo(start.leaves, original.intra, st.count);
    assert st.items + [] == st.items;
  }

  lemma NextIs(start: Walk, now: Walk, original: Frontier, budget: int, limit: int, st: LoopState)
    requires Reads(start, now, original, budget, limit, st) && now.leaves != []
    ensures st.count < |start.leaves| && start.leaves[st.count] == now.leaves[0]
  {
  }

  /** Leaving the loop in the middle of a leaf. */
  lemma {:induction false} StopInside(
      start: Walk, now: Walk, original: Frontier, budget: int, limit: int, st: LoopState, leaf: Leaf, stop: nat, item: Item)
    requires Reads(start, now, original, budget, limit, st) && st.stack != []
    requires now.leaves != [] && now.leaves[0] == leaf && st.count < limit
    requires StopsInside(leaf, st.intra, stop) && st.intra < stop && [item] == Piece(leaf, st.intra, stop)
    requires BytesFrom(item.content, 0) <= st.remaining
    requires NextRefused(leaf.text.value, stop, st.remaining - BytesFrom(item.content, 0))
    ensures Reported(start, now, original, budget, limit,
                     PageRead(st.items + [item], st.missing, true, Frontier(st.stack, st.ordinal, stop)))
  {
    NextIs(start, now, original, budget, limit, st);
    BetweenInside(start, now, original, budget, limit, st, leaf, stop, item);
    PushBytes(st.items, item);
  }

  lemma {:induction false} BetweenInside(
      start: Walk, now: Walk, original: Frontier, budget: int, limit: int, st: LoopState, leaf: Leaf, stop: nat, item: Item)
    requires Reads(start, now, original, budget, limit, st) && st.stack != []
    requires st.count < |start.leaves| && start.leaves[st.count] == leaf
    requires StopsInside(leaf, st.intra, stop) && st.intra < stop && [item] == Piece(leaf, st.intra, stop)
    ensures PageBetween(start, now, original, PageRead(st.items + [item], st.missing, true, Frontier(st.stack, st.ordinal, stop)))
  {
    assert st.items == ItemsUpTo(start.leaves, original.intra, st.count);
  }

  lemma {:induction false} StopRefused(
      start: Walk, now: Walk, original: Frontier, budget: int, limit: int, st: LoopState, leaf: Leaf, error: PageError)
    requires Reads(start, now, original, budget, limit, st) && st.items == []
    requires now.leaves != [] && now.leaves[0] == leaf && leaf.text.Some?
    requires Refused(leaf.text.value, st.intra, budget, error)
    ensures Reported(start, now, original, budget, limit, Unreadable(error))
  {
    assert start.leaves[st.count] == now.leaves[0];
    assert st.items == ItemsUpTo(start.leaves, original.intra, st.count);
    if original.intra <= Length(start.leaves[0]) {
      NoItemsNoTexts(start.leaves, original.intra, st.count);
    }
  }

  lemma {:induction false} NextUnread(start: Walk, now: Walk, next: Walk, n: nat, leaf: Leaf)
    requires n <= |start.leaves| && now.leaves == start.leaves[n..] && now.leaves == [leaf] + next.leaves
    ensures n < |start.leaves| && start.leaves[n] == leaf && next.leaves == start.leaves[n + 1..]
  {
    assert start.leaves[n] == now.leaves[0];
    assert start.leaves[n + 1..] == now.leaves[1..];
  }

  function AfterMissing(st: LoopState, row: Row): LoopState
    requires st.stack != []
  {
    LoopState(Advance(st.stack, row), st.ordinal + 1, 0, st.items, st.missing + [row.hash], st.remaining, st.count + 1)
  }

  function AfterText(st: LoopState, row: Row, content: Texts.Text, bytes: nat): LoopState
    requires st.stack != []
  {
    LoopState(Advance(st.stack, row), st.ordinal + 1, 0, st.items + [Item(row.hash, row.role, row.turnIndex, content)],
              st.missing, st.remaining - bytes, st.count + 1)
  }

  /** A missing leaf noted. */
  lemma {:induction false} ReadMissing(
      start: Walk, now: Walk, next: Walk, original: Frontier, budget: int, limit: int, st: LoopState, row: Row)
    requires Reads(start, now, original, budget, limit, st) && st.count < limit && st.stack != []
    requires now.leaves == [Leaf(row, None)] + next.leaves && next.failed == now.failed
    requires StackValid(Advance(st.stack, row))
    ensures Reads(start, next, original, budget, limit, AfterMissing(st, row))
  {
    NextUnread(start, now, next, st.count, Leaf(row, None));
    GatherOne(start.leaves, original.intra, st.count, st.items, st.missing);
    assert st.items + [] == st.items;
  }

  /** A leaf read to its end. */
  lemma {:induction false} ReadText(
      start: Walk, now: Walk, next: Walk, original: Frontier, budget: int, limit: int, st: LoopState, row: Row,
      text: Texts.Text, bytes: nat)
    requires Reads(start, now, original, budget, limit, st) && st.count < limit && st.stack != []
    requires now.leaves == [Leaf(row, Some(text))] + next.leaves && next.failed == now.failed
    requires StackValid(Advance(st.stack, row))
    requires st.intra <= |text| && BytesFrom(text[st.intra..], 0) == bytes <= st.remaining
    ensures Reads(start, next, original, budget, limit, AfterText(st, row, text[st.intra..], bytes))
  {
    var leaf, item := Leaf(row, Some(text)), Item(row.hash, row.role, row.turnIndex, text[st.intra..]);
    NextUnread(start, now, next, st.count, leaf);
    PushBytes(st.items, item);
    PieceToEnd(leaf, st.intra);
    GatherText(start.leaves, original.intra, st.count, st.items, st.missing, item);
  }

  lemma PieceToEnd(leaf: Leaf, from: nat)
    requires leaf.text.Some? && from <= |leaf.text.value|
    ensures Piece(leaf, from, Length(leaf)) == [Item(leaf.row.hash, leaf.row.role, leaf.row.turnIndex, leaf.text.value[from..])]
  {
    assert leaf.text.value[from..] == leaf.text.value[from..|leaf.text.value|];
  }

  lemma {:induction false} GatherText(
      leaves: seq<Leaf>, intra: nat, n: nat, items: seq<Item>, missing: seq<Hash>, item: Item)
    requires n < |leaves| && leaves[n].text.Some? && Gathered(leaves, intra, n, items, missing)
    requires Piece(leaves[n], From(n, intra), Length(leaves[n])) == [item]
    ensures Gathered(leaves, intra, n + 1, items + [item], missing)
  {
    GatherOne(leaves, intra, n, items, missing);
    assert missing + [] == missing;
  }

  // ------------------------------------------------------------------- the loop

  /** What a page of a text says about its leaf. */
  lemma PageMeans(row: Row, text: Texts.Text, from: nat, room: int, page: PageResult)
    requires page.Page? && PageIs(text, from, room, page)
    ensures from <= |text| && BytesFrom(page.content, 0) == page.bytes <= room
    ensures page.next.None? ==> page.content == text[from..]
    ensures page.next.Some? ==>
              var leaf, stop := Leaf(row, Some(text)), page.next.value;
              && StopsInside(leaf, from, stop) && from < stop
              && [Item(row.hash, row.role, row.turnIndex, page.content)] == Piece(leaf, from, stop)
              && NextRefused(text, stop, room - page.bytes)
  {
    ReachesBytes(text, from, from + |page.content|, page.bytes);
  }

  method TakeText(
      store: Store, ghost start: Walk, ghost now: Walk, ghost original: Frontier, ghost budget: int, ghost limit: int,
      st: LoopState, row: Row, text: Texts.Text) returns (exit: Option<Outcome>, content: Texts.Text, bytes: nat)
    requires Reads(start, now, original, budget, limit, st) && st.count < limit && 0 < st.remaining <= MAX_PAGE_TOKENS
    requires st.stack != [] && now.leaves != [] && now.leaves[0] == Leaf(row, Some(text))
    ensures exit.Some? ==> Reported(start, now, original, budget, limit, exit.value) && ExitAt(st.stack, exit.value)
    ensures exit.None? ==> st.intra <= |text| && content == text[st.intra..] && BytesFrom(content, 0) == bytes <= st.remaining
  {
    var page := PaginateText(text, st.intra, Some(st.remaining), Some(st.remaining));
    content, bytes := [], 0;
    if page.PageFailure? {
      assert page.error == OutsideBoundary || page.error == CannotFit;
      if st.items != [] {
        StopBefore(start, now, original, budget, limit, st);
        return Some(PageRead(st.items, st.missing, true, Frontier(st.stack, st.ordinal, st.intra))), content, bytes;
      }
      StopRefused(start, now, original, budget, limit, st, Leaf(row, Some(text)), page.error);
      return Some(Unreadable(page.error)), content, bytes;
    }
    PageMeans(row, text, st.intra, st.remaining, page);
    if page.next.Some? {
      var item := Item(row.hash, row.role, row.turnIndex, page.content);
      StopInside(start, now, original, budget, limit, st, Leaf(row, Some(text)), page.next.value, item);
      return Some(PageRead(st.items + [item], st.missing, true, Frontier(st.stack, st.ordinal, page.next.value))), content, bytes;
    }
    return None, page.content, page.bytes;
  }

  /** The leaf at the top of the stack: read it, stop before it, stop inside it, or refuse. */
  method TakeLeaf(
      store: Store, ghost start: Walk, ghost now: Walk, ghost next: Walk, ghost original: Frontier, ghost budget: int,
      limit: int, st: LoopState, row: Row, value: Content) returns (after: LoopState, exit: Option<Outcome>)
    requires Reads(start, now, original, budget, limit, st) && 0 < limit && 0 < budget <= MAX_PAGE_TOKENS
    requires st.stack != [] && StackValid(Advance(st.stack, row)) && next.failed == now.failed && !value.Child?
    requires now.leaves == [Leaf(row, if value.Text? then Some(value.text) else None)] + next.leaves
    ensures exit.Some? ==> Reported(start, now, original, budget, limit, exit.value) && ExitAt(st.stack, exit.value)
    ensures exit.None? ==> Reads(start, next, original, budget, limit, after) && after.stack == Advance(st.stack, row)
  {
    after := st;
    if st.remaining <= 0 || st.count >= limit {
      StopBefore(start, now, original, budget, limit, st);
      return after, Some(PageRead(st.items, st.missing, true, Frontier(st.stack, st.ordinal, st.intra)));
    }
    if value.Missing? {
      ReadMissing(start, now, next, original, budget, limit, st, row);
      return AfterMissing(st, row), None;
    }
    var content, bytes;
    exit, content, bytes := TakeText(store, start, now, original, budget, limit, st, row, value.text);
    if exit.Some? {
      return;
    }
    ReadText(start, now, next, original, budget, limit, st, row, value.text, bytes);
    after := AfterText(st, row, content, bytes);
  }

  /** A reported page saves the stack it stopped at. */
  ghost predicate ExitAt(stack: seq<Frame>, r: Outcome) {
    r.PageRead? ==> r.state.stack == stack
  }

  /** A turn that reads no leaf only moves the stack. */
  lemma {:induction false} ReadsMoved(
      start: Walk, now: Walk, next: Walk, original: Frontier, budget: int, limit: int, st: LoopState, stack: seq<Frame>)
    requires Reads(start, now, original, budget, limit, st) && StackValid(stack)
    requires next.leaves == now.leaves && next.failed == now.failed
    ensures Reads(start, next, original, budget, limit, st.(stack := stack))
  {
  }

  predicate MayOpen(stack: seq<Frame>, child: Hash) {
    |stack| < MAX_DEPTH && !OnStack(stack, child)
  }

  lemma {:induction false} OpenTracks(
      store: Store, start: Walk, now: Walk, original: Frontier, budget: int, limit: int, st: LoopState, row: Row, child: Hash)
      returns (next: Walk)
    requires StoreValid(store) && Reads(start, now, original, budget, limit, st) && Tracks(store, st.stack, now)
    requires st.stack != [] && CurrentRow(store, st.stack) == Some(row) && ContentOf(store, row) == Child(child)
    requires MayOpen(st.stack, child)
    ensures Reads(start, next, original, budget, limit, st.(stack := Advance(st.stack, row) + [Frame(child, 0)]))
    ensures Tracks(store, Advance(st.stack, row) + [Frame(child, 0)], next) && next.turns < now.turns
  {
    next := PushTracks(store, st.stack, now, row, child);
    ReadsMoved(start, now, next, original, budget, limit, st, Advance(st.stack, row) + [Frame(child, 0)]);
  }

  lemma {:induction false} RefuseTracks(
      store: Store, start: Walk, now: Walk, original: Frontier, budget: int, limit: int, st: LoopState, row: Row, child: Hash)
    requires Reads(start, now, original, budget, limit, st) && Tracks(store, st.stack, now)
    requires st.stack != [] && CurrentRow(store, st.stack) == Some(row) && ContentOf(store, row) == Child(child)
    requires !MayOpen(st.stack, child)
    ensures start.failed
  {
    ForbiddenTracks(store, st.stack, now, row, child);
  }

  /** Open a child archive unless it is open already or the stack is too deep. */
  method OpenChild(
      store: Store, ghost start: Walk, ghost now: Walk, ghost original: Frontier, ghost budget: int, ghost limit: int,
      st: LoopState, row: Row, child: Hash) returns (entered: bool, after: LoopState, ghost next: Walk)
    requires StoreValid(store) && Reads(start, now, original, budget, limit, st) && Tracks(store, st.stack, now)
    requires st.stack != [] && CurrentRow(store, st.stack) == Some(row) && ContentOf(store, row) == Child(child)
    ensures !entered ==> start.failed
    ensures entered ==>
              && Reads(start, next, original, budget, limit, after)
              && Tracks(store, after.stack, next) && next.turns < now.turns
  {
    after, next := st, now;
    if !MayOpen(st.stack, child) {
      RefuseTracks(store, start, now, original, budget, limit, st, row, child);
      return false, after, next;
    }
    next := OpenTracks(store, start, now, original, budget, limit, st, row, child);
    return true, st.(stack := Advance(st.stack, row) + [Frame(child, 0)]), next;
  }

  /** One turn of the loop: close an exhausted frame, open a child, or take a leaf. */
  method Turn(
      store: Store, ghost start: Walk, ghost now: Walk, ghost original: Frontier, ghost budget: int, limit: int,
      st: LoopState) returns (after: LoopState, exit: Option<Outcome>, ghost next: Walk)
    requires StoreValid(store) && Reads(start, now, original, budget, limit, st) && Tracks(store, st.stack, now)
    requires 0 < limit && 0 < budget <= MAX_PAGE_TOKENS && st.stack != []
    ensures exit.Some? ==> Reported(start, now, original, budget, limit, exit.value) && ExitAt(st.stack, exit.value)
    ensures exit.None? ==>
              && Reads(start, next, original, budget, limit, after)
              && Tracks(store, after.stack, next) && next.turns < now.turns
  {
    after, next := st, now;
    var current := CurrentRow(store, st.stack);
    if current.None? {
      next := PopTracks(store, st.stack, now);
      ReadsMoved(start, now, next, original, budget, limit, st, st.stack[..|st.stack| - 1]);
      return st.(stack := st.stack[..|st.stack| - 1]), None, next;
    }
    var row := current.value;
    var value := ContentOf(store, row);
    if value.Child? {
      var entered;
      entered, after, next := OpenChild(store, start, now, original, budget, limit, st, row, value.hash);
      return after, if entered then None else Some(InvalidLineage), next;
    }
    next := LeafTracks(store, st.stack, now, row);
    after, exit := TakeLeaf(store, start, now, next, original, budget, limit, st, row, value);
  }

  method ReadLoop(store: Store, ghost start: Walk, original: Frontier, budget: int, limit: int)
      returns (r: Outcome, ghost now: Walk)
    requires StoreValid(store) && StackValid(original.stack) && Tracks(store, original.stack, start)
    requires 0 < limit && 0 < budget <= MAX_PAGE_TOKENS
    ensures Reported(start, now, original, budget, limit, r)
    ensures r.PageRead? ==> Tracks(store, r.state.stack, now)
  {
    var st := LoopState(original.stack, original.ordinal, original.intra, [], [], budget, 0);
    now := start;
    assert start.leaves[0..] == start.leaves;
    while st.stack != []
      invariant Reads(start, now, original, budget, limit, st)
      invariant Tracks(store, st.stack, now)
      decreases now.turns
    {
      ghost var before := now;
      var exit;
      st, exit, now := Turn(store, start, now, original, budget, limit, st);
      if exit.Some? {
        now := before;
        return exit.value, now;
      }
    }
    ClosedTracks(store, now);
    StopEmpty(start, now, original, budget, limit, st);
    r := PageRead(st.items, st.missing, false, Frontier(st.stack, st.ordinal, st.intra));
  }

  lemma {:induction false} ClosedTracks(store: Store, now: Walk)
    requires Tracks(store, [], now)
    ensures now.leaves == [] && !now.failed
  {
    assert now == Rest(store, []);
  }

  /** `readHistoryPage`. */
  method ReadHistoryPage(
      store: Store, original: Frontier, maxBytes: Option<int>, maxTokens: Option<int>, limitOption: Option<int>)
      returns (r: Outcome)
    requires StoreValid(store) && StackValid(original.stack)
    requires BudgetGiven(maxBytes) && BudgetGiven(maxTokens) && BudgetGiven(limitOption)
    ensures r.PageRead? ==> PageOf(store, original, r)
    ensures r.PageRead? ==> |r.items| + |r.missing| <= PageLimit(limitOption)
    ensures r.PageRead? ==> ItemBytes(r.items) <= PageBudget(maxBytes, maxTokens)
    ensures r.PageRead? && r.more ==>
              Full(Rest(store, original.stack).leaves, original, r, PageBudget(maxBytes, maxTokens), PageLimit(limitOption))
    ensures r.PageRead? ==> WithinLimits(maxBytes, maxTokens, ItemBytes(r.items))
    ensures r.PageRead? ==> WithinCount(limitOption, |r.items| + |r.missing|)
    ensures r.PageRead? && r.more ==>
              CannotTakeMore(Rest(store, original.stack).leaves, original, r, maxBytes, maxTokens, limitOption)
    ensures r.InvalidLineage? ==> Rest(store, original.stack).failed
    ensures r.Unreadable? ==>
              var leaves := Rest(store, original.stack).leaves;
              leaves != [] && (original.intra <= Length(leaves[0]) ==>
                                 UnreadableAt(leaves, original.intra, PageBudget(maxBytes, maxTokens), r.error))
    ensures r.Unreadable? && original.intra <= Length(Rest(store, original.stack).leaves[0]) ==>
              FirstTextUnreadable(Rest(store, original.stack).leaves, original.intra, maxBytes, maxTokens, r.error)
  {
    ghost var start, now := Rest(store, original.stack), Walk([], false, 0);
    TracksRest(store, original.stack, start);
    r, now := ReadLoop(store, start, original, PageBudget(maxBytes, maxTokens), PageLimit(limitOption));
    if r.PageRead? {
      LimitsAreBudget(maxBytes, maxTokens, limitOption, ItemBytes(r.items));
      LimitsAreBudget(maxBytes, maxTokens, limitOption, |r.items| + |r.missing|);
      if r.more {
        FullCannotTakeMore(start.leaves, original, r, maxBytes, maxTokens, limitOption);
      }
    }
    if r.Unreadable? && original.intra <= Length(start.leaves[0]) {
      UnreadableIsFirst(start.leaves, original.intra, maxBytes, maxTokens, r.error);
    }
  }
}
