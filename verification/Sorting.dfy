/** The stable `Array.prototype.sort` of the source, for integer keys. */
module Sorting {

  ghost predicate SortedBy<T>(s: seq<T>, key: T -> int) {
    forall i, j :: 0 <= i < j < |s| ==> key(s[i]) <= key(s[j])
  }

  /** Where a new element goes: after every element whose key is not larger. */
  function Slot<T>(x: T, s: seq<T>, key: T -> int): (k: nat)
    ensures k <= |s|
    ensures forall i :: 0 <= i < k ==> key(s[i]) <= key(x)
    ensures k < |s| ==> key(x) < key(s[k])
  {
    if s == [] || key(x) < key(s[0]) then 0 else 1 + Slot(x, s[1..], key)
  }

  function Insert<T>(x: T, s: seq<T>, key: T -> int): (r: seq<T>)
    requires SortedBy(s, key)
    ensures SortedBy(r, key)
    ensures multiset(r) == multiset(s) + multiset{x}
  {
    var k := Slot(x, s, key);
    InsertedSorted(x, s, key, k);
    InsertedElements(x, s, k);
    s[..k] + [x] + s[k..]
  }

  lemma InsertedSorted<T>(x: T, s: seq<T>, key: T -> int, k: nat)
    requires SortedBy(s, key) && k <= |s|
    requires (forall i :: 0 <= i < k ==> key(s[i]) <= key(x)) && (k < |s| ==> key(x) < key(s[k]))
    ensures SortedBy(s[..k] + [x] + s[k..], key)
  {
    var r := s[..k] + [x] + s[k..];
    forall i, j | 0 <= i < j < |r|
      ensures key(r[i]) <= key(r[j])
    {
      assert i < k ==> r[i] == s[i];
      assert j > k ==> r[j] == s[j - 1] && key(s[k]) <= key(s[j - 1]);
      assert i > k ==> r[i] == s[i - 1];
      assert j < k ==> r[j] == s[j];
    }
  }

  lemma InsertedElements<T>(x: T, s: seq<T>, k: nat)
    requires k <= |s|
    ensures multiset(s[..k] + [x] + s[k..]) == multiset(s) + multiset{x}
  {
    assert s == s[..k] + s[k..];
  }

  /** Equal keys keep their order: later elements are inserted after their equals. */
  function SortBy<T>(s: seq<T>, key: T -> int): (r: seq<T>)
    ensures SortedBy(r, key)
    ensures multiset(r) == multiset(s)
  {
    if s == [] then [] else
      assert s == s[..|s| - 1] + [s[|s| - 1]];
      Insert(s[|s| - 1], SortBy(s[..|s| - 1], key), key)
  }

  lemma SameElements<T>(r: seq<T>, s: seq<T>)
    requires multiset(r) == multiset(s)
    ensures |r| == |s|
    ensures forall x :: x in r <==> x in s
  {
    assert |multiset(r)| == |multiset(s)|;
    assert forall x :: x in r <==> x in multiset(r);
    assert forall x :: x in s <==> x in multiset(s);
  }

  lemma {:induction false} CountTwice<T>(s: seq<T>, i: nat, j: nat)
    requires i < j < |s| && s[i] == s[j]
    ensures multiset(s)[s[i]] >= 2
  {
    assert s == s[..i] + [s[i]] + s[i + 1..j] + [s[j]] + s[j + 1..];
  }

  lemma {:induction false} TwicePositions<T>(s: seq<T>, x: T) returns (i: nat, j: nat)
    requires multiset(s)[x] >= 2
    ensures i < j < |s| && s[i] == s[j] == x
  {
    var last := |s| - 1;
    assert s == s[..last] + [s[last]];
    if s[last] == x {
      assert multiset(s[..last])[x] >= 1;
      assert x in s[..last];
      i :| 0 <= i < last && s[i] == x;
      j := last;
    } else {
      i, j := TwicePositions(s[..last], x);
    }
  }

  /** Reordering keeps elements distinct. */
  lemma DistinctPermutation<T>(r: seq<T>, s: seq<T>)
    requires multiset(r) == multiset(s)
    requires forall i, j :: 0 <= i < j < |s| ==> s[i] != s[j]
    ensures forall i, j :: 0 <= i < j < |r| ==> r[i] != r[j]
  {
    forall i, j | 0 <= i < j < |r|
      ensures r[i] != r[j]
    {
      if r[i] == r[j] {
        CountTwice(r, i, j);
        var a, b := TwicePositions(s, r[i]);
      }
    }
  }
}
