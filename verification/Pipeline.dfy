/** The omitted source lines that a compressed tool result reports. */
module Pipeline {
  import opened Texts
  import opened Budget

  /** Inclusive, one-based. */
  datatype Range = Range(startLine: nat, endLine: nat)

  ghost predicate Retained(kept: seq<Line>, n: nat) {
    exists i :: 0 <= i < |kept| && kept[i].sourceLine == Some(n)
  }

  ghost predicate Within(ranges: seq<Range>, n: nat) {
    exists i :: 0 <= i < |ranges| && ranges[i].startLine <= n <= ranges[i].endLine
  }

  /** Ascending ranges between lines 1 and `count`, with at least one line between any two. */
  ghost predicate Spread(ranges: seq<Range>, count: nat) {
    && (forall i :: 0 <= i < |ranges| ==> 1 <= ranges[i].startLine <= ranges[i].endLine <= count)
    && (forall i, j :: 0 <= i < j < |ranges| ==> ranges[i].endLine + 1 < ranges[j].startLine)
  }

  /** The lines of the ranges are exactly the source lines up to `count` that no kept line came from. */
  ghost predicate Complement(ranges: seq<Range>, retained: set<nat>, count: nat) {
    forall n: nat :: 1 <= n <= count ==> (Within(ranges, n) <==> n !in retained)
  }

  method SourceLines(kept: seq<Line>) returns (retained: set<nat>)
    ensures forall n: nat :: n in retained <==> Retained(kept, n)
  {
    retained := {};
    for i := 0 to |kept|
      invariant forall n: nat :: n in retained <==> exists j :: 0 <= j < i && kept[j].sourceLine == Some(n)
    {
      if kept[i].sourceLine.Some? {
        retained := retained + {kept[i].sourceLine.value};
      }
    }
  }

  lemma {:induction false} Extended(ranges: seq<Range>, retained: set<nat>, i: nat)
    requires Spread(ranges, i) && Complement(ranges, retained, i) && ranges != [] && ranges[|ranges| - 1].endLine == i
    requires i + 1 !in retained
    ensures var more := ranges[|ranges| - 1 := Range(ranges[|ranges| - 1].startLine, i + 1)];
            Spread(more, i + 1) && Complement(more, retained, i + 1)
  {
    var last := |ranges| - 1;
    var more := ranges[last := Range(ranges[last].startLine, i + 1)];
    forall n: nat | 1 <= n <= i + 1
      ensures Within(more, n) <==> n !in retained
    {
      if n == i + 1 {
        assert more[last].startLine <= n <= more[last].endLine;
      } else if Within(ranges, n) {
        var k :| 0 <= k < |ranges| && ranges[k].startLine <= n <= ranges[k].endLine;
        assert more[k].startLine <= n <= more[k].endLine;
      }
    }
  }

  lemma {:induction false} Started(ranges: seq<Range>, retained: set<nat>, i: nat)
    requires Spread(ranges, i) && Complement(ranges, retained, i) && i + 1 !in retained
    requires ranges == [] || ranges[|ranges| - 1].endLine < i
    ensures var more := ranges + [Range(i + 1, i + 1)];
            Spread(more, i + 1) && Complement(more, retained, i + 1)
  {
    var more := ranges + [Range(i + 1, i + 1)];
    forall n: nat | 1 <= n <= i + 1
      ensures Within(more, n) <==> n !in retained
    {
      if n == i + 1 {
        assert more[|ranges|].startLine <= n <= more[|ranges|].endLine;
      } else if Within(ranges, n) {
        var k :| 0 <= k < |ranges| && ranges[k].startLine <= n <= ranges[k].endLine;
        assert more[k].startLine <= n <= more[k].endLine;
      }
    }
  }

  /** `omittedRanges`: the sorted maximal runs of source lines that the kept lines do not account for. */
  method OmittedRanges(kept: seq<Line>, count: nat) returns (ranges: seq<Range>)
    ensures Spread(ranges, count)
    ensures forall n: nat :: 1 <= n <= count ==> (Within(ranges, n) <==> !Retained(kept, n))
  {
    var retained := SourceLines(kept);
    ranges := [];
    for i := 0 to count
      invariant Spread(ranges, i) && Complement(ranges, retained, i)
    {
      if i + 1 in retained {
        continue;
      }
      if ranges != [] && ranges[|ranges| - 1].endLine == i {
        Extended(ranges, retained, i);
        ranges := ranges[|ranges| - 1 := Range(ranges[|ranges| - 1].startLine, i + 1)];
      } else {
        Started(ranges, retained, i);
        ranges := ranges + [Range(i + 1, i + 1)];
      }
    }
  }

  /** There is only one such list: ranges are determined by the lines they cover. */
  lemma {:induction false} RangesUnique(a: seq<Range>, b: seq<Range>, count: nat)
    requires Spread(a, count) && Spread(b, count)
    requires forall n: nat :: 1 <= n <= count ==> (Within(a, n) <==> Within(b, n))
    ensures a == b
  {
    RangesAgree(a, b, count, |a|);
    RangesAgree(b, a, count, |b|);
  }

  lemma {:induction false} RangesAgree(a: seq<Range>, b: seq<Range>, count: nat, k: nat)
    requires Spread(a, count) && Spread(b, count) && k <= |a|
    requires forall n: nat :: 1 <= n <= count ==> (Within(a, n) <==> Within(b, n))
    ensures k <= |b| && a[..k] == b[..k]
  {
    if k > 0 {
      RangesAgree(a, b, count, k - 1);
      NextAgrees(a, b, count, k - 1);
      assert a[..k] == a[..k - 1] + [a[k - 1]] && b[..k] == b[..k - 1] + [b[k - 1]];
    }
  }

  lemma {:induction false} NextAgrees(a: seq<Range>, b: seq<Range>, count: nat, k: nat)
    requires Spread(a, count) && Spread(b, count) && k < |a| && k <= |b| && a[..k] == b[..k]
    requires forall n: nat :: 1 <= n <= count ==> (Within(a, n) <==> Within(b, n))
    ensures k < |b| && b[k] == a[k]
  {
    var start := a[k].startLine;
    assert Within(a, start) by {
      assert a[k].startLine <= start <= a[k].endLine;
    }
    var j :| 0 <= j < |b| && b[j].startLine <= start <= b[j].endLine;
    assert forall i :: 0 <= i < k ==> a[..k][i] == b[..k][i];
    assert j >= k;
    assert b[k].startLine <= start;
    StartsAgree(a, b, count, k);
    EndsAgree(a, b, count, k);
    EndsAgree(b, a, count, k);
  }

  lemma {:induction false} StartsAgree(a: seq<Range>, b: seq<Range>, count: nat, k: nat)
    requires Spread(a, count) && Spread(b, count) && k < |a| && k < |b|
    requires forall i :: 0 <= i < k ==> a[i] == b[i]
    requires b[k].startLine <= a[k].startLine
    requires forall n: nat :: 1 <= n <= count ==> (Within(a, n) <==> Within(b, n))
    ensures b[k].startLine == a[k].startLine
  {
    var start := b[k].startLine;
    assert Within(b, start) by {
      assert b[k].startLine <= start <= b[k].endLine;
    }
    var j :| 0 <= j < |a| && a[j].startLine <= start <= a[j].endLine;
    assert j >= k;
  }

  lemma {:induction false} EndsAgree(a: seq<Range>, b: seq<Range>, count: nat, k: nat)
    requires Spread(a, count) && Spread(b, count) && k < |a| && k < |b|
    requires b[k].startLine == a[k].startLine
    requires forall n: nat :: 1 <= n <= count ==> (Within(a, n) <==> Within(b, n))
    ensures a[k].endLine <= b[k].endLine
  {
    PastTheEnd(b, count, k);
    RangeIsWithin(a, k, b[k].endLine + 1);
  }

  /** The line after a range belongs to no range. */
  lemma {:induction false} PastTheEnd(ranges: seq<Range>, count: nat, k: nat)
    requires Spread(ranges, count) && k < |ranges|
    ensures !Within(ranges, ranges[k].endLine + 1)
  {
    forall i | 0 <= i < |ranges|
      ensures !(ranges[i].startLine <= ranges[k].endLine + 1 <= ranges[i].endLine)
    {
      assert i < k ==> ranges[i].endLine + 1 < ranges[k].startLine;
      assert k < i ==> ranges[k].endLine + 1 < ranges[i].startLine;
    }
  }

  lemma {:induction false} RangeIsWithin(ranges: seq<Range>, k: nat, n: nat)
    requires k < |ranges|
    ensures ranges[k].startLine <= n <= ranges[k].endLine ==> Within(ranges, n)
  {
  }
}
