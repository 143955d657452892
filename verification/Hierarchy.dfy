/** The four-way evidence hierarchy built over a row of roots. */
module Hierarchy {
  import opened Texts

  const FAN := 4

  /** A root as it was given, or a parent made from neighbours. */
  datatype Evidence =
    | Root(nodeId: Digest, level: nat, tokens: nat)
    | Parent(level: nat, tokens: nat, children: seq<Evidence>)

  function RowTokens(row: seq<Evidence>): nat {
    if row == [] then 0 else RowTokens(row[..|row| - 1]) + row[|row| - 1].tokens
  }

  predicate SameLevel(row: seq<Evidence>) {
    forall i :: 0 <= i < |row| ==> row[i].level == row[0].level
  }

  /** Every parent has four children one level below it and counts their source tokens. */
  ghost predicate Sound(e: Evidence)
    decreases e
  {
    match e
    case Root(_, _, _) => true
    case Parent(level, tokens, children) =>
      && |children| == 4 && SameLevel(children) && level == children[0].level + 1
      && tokens == RowTokens(children)
      && (forall i :: 0 <= i < |children| ==> Sound(children[i]))
  }

  ghost predicate AllSound(row: seq<Evidence>) {
    forall i :: 0 <= i < |row| ==> Sound(row[i])
  }

  /** The given roots below an evidence node, from left to right. */
  function RootsBelow(e: Evidence): seq<Evidence>
    decreases e, 1
  {
    match e
    case Root(_, _, _) => [e]
    case Parent(_, _, children) => Flattened(children)
  }

  function Flattened(row: seq<Evidence>): seq<Evidence>
    decreases row, 0
  {
    if row == [] then [] else Flattened(row[..|row| - 1]) + RootsBelow(row[|row| - 1])
  }

  /** Every parent below is among the nodes that were made. */
  ghost predicate Recorded(e: Evidence, made: seq<Evidence>)
    decreases e
  {
    e.Root? || (e in made && forall i :: 0 <= i < |e.children| ==> Recorded(e.children[i], made))
  }

  ghost predicate AllRecorded(row: seq<Evidence>, made: seq<Evidence>) {
    forall i :: 0 <= i < |row| ==> Recorded(row[i], made)
  }

  predicate FourAt(row: seq<Evidence>, i: nat) {
    i + FAN <= |row| && SameLevel(row[i..i + FAN])
  }

  /** No four neighbours before `limit` share a level. */
  ghost predicate NoFourBefore(row: seq<Evidence>, limit: nat) {
    forall i: nat :: i < limit ==> !FourAt(row, i)
  }

  /** Of any four neighbours two are on different levels. */
  ghost predicate Stuck(row: seq<Evidence>) {
    forall i: nat :: !OneLevel(row, i)
  }

  ghost predicate OneLevel(row: seq<Evidence>, i: nat) {
    i + 4 <= |row| && row[i].level == row[i + 1].level == row[i + 2].level == row[i + 3].level
  }

  lemma NoFourIsStuck(row: seq<Evidence>)
    requires NoFourBefore(row, |row|)
    ensures Stuck(row)
  {
    forall i: nat
      ensures !OneLevel(row, i)
    {
      if OneLevel(row, i) {
        var four := row[i..i + FAN];
        assert four == [row[i], row[i + 1], row[i + 2], row[i + 3]];
        assert FourAt(row, i);
      }
    }
  }

  lemma {:induction false} FlattenedJoins(a: seq<Evidence>, b: seq<Evidence>)
    ensures Flattened(a + b) == Flattened(a) + Flattened(b)
    ensures RowTokens(a + b) == RowTokens(a) + RowTokens(b)
  {
    if b == [] {
      assert a + b == a;
    } else {
      assert (a + b)[..|a + b| - 1] == a + b[..|b| - 1];
      FlattenedJoins(a, b[..|b| - 1]);
    }
  }

  lemma {:induction false} RecordedMore(e: Evidence, made: seq<Evidence>, more: seq<Evidence>)
    requires Recorded(e, made) && forall x :: x in made ==> x in more
    ensures Recorded(e, more)
    decreases e
  {
    if e.Parent? {
      forall i | 0 <= i < |e.children|
        ensures Recorded(e.children[i], more)
      {
        RecordedMore(e.children[i], made, more);
      }
    }
  }

  lemma {:induction false} AllRecordedMore(row: seq<Evidence>, made: seq<Evidence>, more: seq<Evidence>)
    requires AllRecorded(row, made) && forall x :: x in made ==> x in more
    ensures AllRecorded(row, more)
  {
    forall i | 0 <= i < |row|
      ensures Recorded(row[i], more)
    {
      RecordedMore(row[i], made, more);
    }
  }

  /** A sound node counts exactly the source tokens of the roots below it. */
  lemma {:induction false} TokensAreRootTokens(e: Evidence)
    requires Sound(e)
    ensures e.tokens == RowTokens(RootsBelow(e))
    decreases e, 1
  {
    match e
    case Root(_, _, tokens) =>
      assert RowTokens([e][..0]) == 0;
    case Parent(_, _, children) => RowTokensAreRootTokens(children);
  }

  lemma {:induction false} RowTokensAreRootTokens(row: seq<Evidence>)
    requires AllSound(row)
    ensures RowTokens(row) == RowTokens(Flattened(row))
    decreases row, 0
  {
    if row != [] {
      var last := row[|row| - 1];
      RowTokensAreRootTokens(row[..|row| - 1]);
      TokensAreRootTokens(last);
      FlattenedJoins(Flattened(row[..|row| - 1]), RootsBelow(last));
    }
  }

  /** `next` and the rest of the frontier hold what the frontier held. */
  ghost predicate Carried(frontier: seq<Evidence>, i: nat, next: seq<Evidence>, made: seq<Evidence>) {
    && i <= |frontier|
    && Flattened(next) == Flattened(frontier[..i]) && RowTokens(next) == RowTokens(frontier[..i])
    && AllSound(next) && AllRecorded(next, made)
  }

  function Join(group: seq<Evidence>): Evidence
    requires |group| == FAN
  {
    Parent(group[0].level + 1, RowTokens(group), group)
  }

  lemma {:induction false} JoinCarries(frontier: seq<Evidence>, i: nat, next: seq<Evidence>, made: seq<Evidence>)
    requires Carried(frontier, i, next, made) && AllSound(frontier) && AllRecorded(frontier, made)
    requires i + FAN <= |frontier| && SameLevel(frontier[i..i + FAN])
    ensures var parent := Join(frontier[i..i + FAN]);
            Carried(frontier, i + FAN, next + [parent], made + [parent])
  {
    JoinHolds(frontier, i, next);
    JoinSound(frontier, i, next);
    JoinRecorded(frontier, i, next, made);
  }

  /** A parent holds the roots and the tokens of its group. */
  lemma {:induction false} JoinHolds(frontier: seq<Evidence>, i: nat, next: seq<Evidence>)
    requires i + FAN <= |frontier|
    requires Flattened(next) == Flattened(frontier[..i]) && RowTokens(next) == RowTokens(frontier[..i])
    ensures var row := next + [Join(frontier[i..i + FAN])];
            Flattened(row) == Flattened(frontier[..i + FAN]) && RowTokens(row) == RowTokens(frontier[..i + FAN])
  {
    var group := frontier[i..i + FAN];
    var parent := Join(group);
    assert frontier[..i + FAN] == frontier[..i] + group;
    FlattenedJoins(frontier[..i], group);
    FlattenedJoins(next, [parent]);
    OneAlone(parent);
  }

  lemma {:induction false} OneAlone(e: Evidence)
    ensures Flattened([e]) == RootsBelow(e) && RowTokens([e]) == e.tokens
  {
    assert [e][..0] == [];
  }

  lemma {:induction false} JoinSound(frontier: seq<Evidence>, i: nat, next: seq<Evidence>)
    requires AllSound(frontier) && AllSound(next) && i + FAN <= |frontier| && SameLevel(frontier[i..i + FAN])
    ensures AllSound(next + [Join(frontier[i..i + FAN])])
  {
    assert Sound(Join(frontier[i..i + FAN]));
  }

  lemma {:induction false} JoinRecorded(frontier: seq<Evidence>, i: nat, next: seq<Evidence>, made: seq<Evidence>)
    requires AllRecorded(next, made) && AllRecorded(frontier, made) && i + FAN <= |frontier|
    ensures var parent := Join(frontier[i..i + FAN]);
            AllRecorded(next + [parent], made + [parent])
  {
    var parent := Join(frontier[i..i + FAN]);
    AllRecordedMore(next, made, made + [parent]);
    AllRecordedMore(frontier, made, made + [parent]);
    assert Recorded(parent, made + [parent]);
  }

  lemma {:induction false} PassCarries(frontier: seq<Evidence>, i: nat, next: seq<Evidence>, made: seq<Evidence>)
    requires Carried(frontier, i, next, made) && AllSound(frontier) && AllRecorded(frontier, made) && i < |frontier|
    ensures Carried(frontier, i + 1, next + [frontier[i]], made)
  {
    assert frontier[..i + 1] == frontier[..i] + [frontier[i]];
    FlattenedJoins(frontier[..i], [frontier[i]]);
    FlattenedJoins(next, [frontier[i]]);
  }

  /** The state of a pass at position `i`. */
  ghost predicate Passing(frontier: seq<Evidence>, i: nat, next: seq<Evidence>, before: seq<Evidence>, made: seq<Evidence>, merged: bool) {
    && Carried(frontier, i, next, made) && AllRecorded(frontier, made) && before <= made
    && |next| <= i && (merged ==> |next| < i)
    && (!merged ==> next == frontier[..i] && made == before && NoFourBefore(frontier, i))
  }

  lemma {:induction false} JoinPasses(
      frontier: seq<Evidence>, i: nat, next: seq<Evidence>, before: seq<Evidence>, made: seq<Evidence>, merged: bool)
    requires Passing(frontier, i, next, before, made, merged) && AllSound(frontier) && FourAt(frontier, i)
    ensures var parent := Join(frontier[i..i + FAN]);
            Passing(frontier, i + FAN, next + [parent], before, made + [parent], true)
  {
    JoinCarries(frontier, i, next, made);
    AllRecordedMore(frontier, made, made + [Join(frontier[i..i + FAN])]);
  }

  lemma {:induction false} KeepPasses(
      frontier: seq<Evidence>, i: nat, next: seq<Evidence>, before: seq<Evidence>, made: seq<Evidence>, merged: bool)
    requires Passing(frontier, i, next, before, made, merged) && AllSound(frontier) && !FourAt(frontier, i) && i < |frontier|
    ensures Passing(frontier, i + 1, next + [frontier[i]], before, made, merged)
  {
    PassCarries(frontier, i, next, made);
  }

  /** One left-to-right pass over the frontier. */
  method MergePass(frontier: seq<Evidence>, before: seq<Evidence>) returns (next: seq<Evidence>, made: seq<Evidence>, merged: bool)
    requires AllSound(frontier) && AllRecorded(frontier, before)
    ensures Carried(frontier, |frontier|, next, made) && before <= made
    ensures merged ==> |next| < |frontier|
    ensures !merged ==> next == frontier && made == before && Stuck(frontier)
  {
    next, made, merged := [], before, false;
    var i := 0;
    assert frontier[..0] == [];
    while i < |frontier|
      invariant i <= |frontier| && Passing(frontier, i, next, before, made, merged)
      decreases |frontier| - i
    {
      if FourAt(frontier, i) {
        JoinPasses(frontier, i, next, before, made, merged);
        var parent := Join(frontier[i..i + FAN]);
        next, made, merged := next + [parent], made + [parent], true;
        i := i + FAN;
      } else {
        KeepPasses(frontier, i, next, before, made, merged);
        next := next + [frontier[i]];
        i := i + 1;
      }
    }
    assert frontier[..|frontier|] == frontier;
    if !merged {
      NoFourIsStuck(frontier);
    }
  }

  /** `frontier` is what merging the roots ends with, and `made` holds every parent on the way. */
  ghost predicate Merged(roots: seq<Evidence>, frontier: seq<Evidence>, made: seq<Evidence>) {
    && Flattened(frontier) == roots && RowTokens(frontier) == RowTokens(roots)
    && AllSound(frontier) && AllRecorded(frontier, made) && Stuck(frontier)
  }

  /**
   * The hierarchy over a row of roots: it ends, keeps the roots in their order and their tokens in total,
   * records every parent it makes, and stops only when no four neighbours share a level.
   */
  method BuildHierarchy(roots: seq<Evidence>) returns (frontier: seq<Evidence>, made: seq<Evidence>)
    requires forall i :: 0 <= i < |roots| ==> roots[i].Root?
    ensures Merged(roots, frontier, made)
  {
    frontier, made := roots, [];
    RootsAreFlat(roots);
    while |frontier| >= FAN
      invariant Flattened(frontier) == Flattened(roots) && RowTokens(frontier) == RowTokens(roots)
      invariant AllSound(frontier) && AllRecorded(frontier, made)
      decreases |frontier|
    {
      var next, more, merged := MergePass(frontier, made);
      if !merged {
        return;
      }
      assert frontier[..|frontier|] == frontier;
      frontier, made := next, more;
    }
  }

  lemma {:induction false} RootsAreFlat(roots: seq<Evidence>)
    requires forall i :: 0 <= i < |roots| ==> roots[i].Root?
    ensures Flattened(roots) == roots
  {
    if roots != [] {
      RootsAreFlat(roots[..|roots| - 1]);
    }
  }
}
