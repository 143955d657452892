/** `createLayeredCache` and the loop that takes each message's token count from it. */
module AnalysisCache {
  import opened Texts
  import opened Messages

  type Tokens = Message -> nat

  /** A stored analysis, as far as it reaches the totals, and the bytes it is charged. */
  datatype Entry = Entry(key: Digest, tokens: nat, bytes: nat)

  /** Entries from the least to the most recently used. */
  datatype Cache = Cache(entries: seq<Entry>, maxEntries: nat, maxBytes: nat)

  predicate HasKey(entries: seq<Entry>, key: Digest) {
    exists i :: 0 <= i < |entries| && entries[i].key == key
  }

  function Stored(entries: seq<Entry>, key: Digest): (r: Option<Entry>)
    ensures r.Some? <==> HasKey(entries, key)
    ensures r.Some? ==> r.value in entries && r.value.key == key
  {
    if entries == [] then None
    else if entries[0].key == key then Some(entries[0])
    else
      assert entries == [entries[0]] + entries[1..];
      Stored(entries[1..], key)
  }

  function Without(entries: seq<Entry>, key: Digest): (r: seq<Entry>)
    ensures |r| <= |entries| && (forall e :: e in r <==> e in entries && e.key != key)
  {
    if entries == [] then []
    else
      assert entries == [entries[0]] + entries[1..];
      if entries[0].key == key then Without(entries[1..], key) else [entries[0]] + Without(entries[1..], key)
  }

  function BytesOf(entries: seq<Entry>): nat {
    if entries == [] then 0 else entries[0].bytes + BytesOf(entries[1..])
  }

  predicate Within(entries: seq<Entry>, maxEntries: nat, maxBytes: nat) {
    |entries| <= maxEntries && BytesOf(entries) <= maxBytes
  }

  /** What is left when the oldest entries have made room. */
  function Evict(entries: seq<Entry>, maxEntries: nat, maxBytes: nat): seq<Entry> {
    if entries == [] || Within(entries, maxEntries, maxBytes) then entries
    else Evict(entries[1..], maxEntries, maxBytes)
  }

  function Newest(entries: seq<Entry>, k: nat): seq<Entry>
    requires k <= |entries|
  {
    entries[|entries| - k..]
  }

  lemma NewestOfTail(entries: seq<Entry>, k: nat)
    requires k < |entries|
    ensures Newest(entries[1..], k) == Newest(entries, k)
  {
  }

  /** Only the oldest entries go, and only as many as must. */
  lemma {:induction false} EvictIs(entries: seq<Entry>, maxEntries: nat, maxBytes: nat) returns (k: nat)
    ensures k <= |entries| && Evict(entries, maxEntries, maxBytes) == Newest(entries, k)
    ensures Within(Newest(entries, k), maxEntries, maxBytes)
    ensures forall j :: k < j <= |entries| ==> !Within(Newest(entries, j), maxEntries, maxBytes)
  {
    assert entries[0..] == entries;
    if entries == [] || Within(entries, maxEntries, maxBytes) {
      k := |entries|;
    } else {
      k := EvictIs(entries[1..], maxEntries, maxBytes);
      NewestOfTail(entries, k);
      forall j | k < j < |entries|
        ensures !Within(Newest(entries, j), maxEntries, maxBytes)
      {
        NewestOfTail(entries, j);
      }
    }
  }

  /** A hit becomes the most recently used entry. */
  function Got(c: Cache, key: Digest): Cache {
    match Stored(c.entries, key)
    case None => c
    case Some(hit) => c.(entries := Without(c.entries, key) + [hit])
  }

  function Put(c: Cache, e: Entry): Cache {
    var rest := Without(c.entries, e.key);
    c.(entries := if e.bytes > c.maxBytes then rest else Evict(rest + [e], c.maxEntries, c.maxBytes))
  }

  ghost predicate KeysOnce(entries: seq<Entry>) {
    forall i, j :: 0 <= i < j < |entries| ==> entries[i].key != entries[j].key
  }

  lemma {:induction false} BytesPush(entries: seq<Entry>, e: Entry)
    ensures BytesOf(entries + [e]) == BytesOf(entries) + e.bytes
  {
    if entries == [] {
      assert entries + [e] == [e] && [e][1..] == [];
    } else {
      assert (entries + [e])[1..] == entries[1..] + [e];
      BytesPush(entries[1..], e);
    }
  }

  function BytesUnder(entries: seq<Entry>, key: Digest): nat {
    match Stored(entries, key)
    case None => 0
    case Some(e) => e.bytes
  }

  lemma {:induction false} WithoutOnce(entries: seq<Entry>, key: Digest)
    requires KeysOnce(entries)
    ensures KeysOnce(Without(entries, key))
  {
    if entries != [] {
      var rest := Without(entries[1..], key);
      WithoutOnce(entries[1..], key);
      forall i | 0 <= i < |rest|
        ensures rest[i].key != entries[0].key
      {
        assert rest[i] in entries[1..];
      }
    }
  }

  lemma {:induction false} WithoutUnknown(entries: seq<Entry>, key: Digest)
    requires !HasKey(entries, key)
    ensures Without(entries, key) == entries
  {
    if entries != [] {
      assert entries[0].key != key;
      assert forall i :: 0 <= i < |entries[1..]| ==> entries[1..][i] == entries[i + 1];
      WithoutUnknown(entries[1..], key);
    }
  }

  /** Taking a key out frees exactly the bytes it is charged. */
  lemma {:induction false} WithoutBytes(entries: seq<Entry>, key: Digest)
    requires KeysOnce(entries)
    ensures BytesOf(Without(entries, key)) == BytesOf(entries) - BytesUnder(entries, key)
  {
    if entries != [] {
      if entries[0].key == key {
        assert forall i :: 0 <= i < |entries[1..]| ==> entries[1..][i] == entries[i + 1];
        WithoutUnknown(entries[1..], key);
      } else {
        WithoutBytes(entries[1..], key);
      }
    }
  }

  lemma OnceTail(entries: seq<Entry>)
    requires entries != [] && KeysOnce(entries)
    ensures KeysOnce(entries[1..])
  {
  }

  lemma EvictOldest(entries: seq<Entry>, maxEntries: nat, maxBytes: nat)
    requires |entries| > maxEntries || BytesOf(entries) > maxBytes
    ensures entries != [] && Evict(entries, maxEntries, maxBytes) == Evict(entries[1..], maxEntries, maxBytes)
    ensures BytesOf(entries) == entries[0].bytes + BytesOf(entries[1..])
  {
  }

  lemma EvictNone(entries: seq<Entry>, maxEntries: nat, maxBytes: nat)
    requires |entries| <= maxEntries && BytesOf(entries) <= maxBytes
    ensures Evict(entries, maxEntries, maxBytes) == entries
  {
  }

  /** The list without the entry of this key, the others in their order. */
  ghost predicate TakenOut(entries: seq<Entry>, key: Digest, rest: seq<Entry>) {
    if exists i :: 0 <= i < |entries| && entries[i].key == key
    then exists i :: 0 <= i < |entries| && entries[i].key == key && rest == entries[..i] + entries[i + 1..]
    else rest == entries
  }

  lemma {:induction false} WithoutAt(entries: seq<Entry>, key: Digest, i: nat)
    requires KeysOnce(entries) && i < |entries| && entries[i].key == key
    ensures Without(entries, key) == entries[..i] + entries[i + 1..]
  {
    if i == 0 {
      assert entries[..0] == [] && !HasKey(entries[1..], key);
      WithoutUnknown(entries[1..], key);
    } else {
      OnceTail(entries);
      assert entries[0].key != key && entries[1..][i - 1] == entries[i];
      WithoutAt(entries[1..], key, i - 1);
      TailAround(entries, i);
    }
  }

  lemma TailAround(entries: seq<Entry>, i: nat)
    requires 0 < i < |entries|
    ensures entries[..i] + entries[i + 1..] == [entries[0]] + (entries[1..][..i - 1] + entries[1..][i..])
  {
  }

  lemma WithoutIsTakenOut(entries: seq<Entry>, key: Digest)
    requires KeysOnce(entries)
    ensures TakenOut(entries, key, Without(entries, key))
  {
    if i :| 0 <= i < |entries| && entries[i].key == key {
      WithoutAt(entries, key, i);
    } else {
      WithoutUnknown(entries, key);
    }
  }

  /** `now` are as many of the newest entries as both bounds admit. */
  ghost predicate KeepsNewest(entries: seq<Entry>, maxEntries: nat, maxBytes: nat, now: seq<Entry>) {
    && |now| <= |entries| && now == entries[|entries| - |now|..] && |now| <= maxEntries && BytesOf(now) <= maxBytes
    && forall j :: |now| < j <= |entries| ==> TooMany(entries, maxEntries, maxBytes, j)
  }

  ghost predicate TooMany(entries: seq<Entry>, maxEntries: nat, maxBytes: nat, j: nat) {
    j > maxEntries || (j <= |entries| && BytesOf(entries[|entries| - j..]) > maxBytes)
  }

  /** The entry takes the place of one with its key, as the newest, and the oldest make room; one that is too large is left out. */
  ghost predicate Replaced(c: Cache, e: Entry, rest: seq<Entry>, now: seq<Entry>) {
    && TakenOut(c.entries, e.key, rest)
    && if e.bytes > c.maxBytes then now == rest else KeepsNewest(rest + [e], c.maxEntries, c.maxBytes, now)
  }

  lemma PutReplaces(c: Cache, e: Entry)
    requires KeysOnce(c.entries)
    ensures Replaced(c, e, Without(c.entries, e.key), Put(c, e).entries)
  {
    WithoutIsTakenOut(c.entries, e.key);
    EvictKeepsNewest(Without(c.entries, e.key) + [e], c.maxEntries, c.maxBytes);
  }

  lemma EvictKeepsNewest(entries: seq<Entry>, maxEntries: nat, maxBytes: nat)
    ensures KeepsNewest(entries, maxEntries, maxBytes, Evict(entries, maxEntries, maxBytes))
  {
    var k := EvictIs(entries, maxEntries, maxBytes);
    forall j | k < j <= |entries|
      ensures TooMany(entries, maxEntries, maxBytes, j)
    {
      assert !Within(Newest(entries, j), maxEntries, maxBytes);
    }
  }

  class LayeredCache {
    const maxEntries: nat
    const maxBytes: nat
    var entries: seq<Entry>
    var bytes: nat

    function View(): Cache
      reads this
    {
      Cache(entries, maxEntries, maxBytes)
    }

    /** Each key once, the byte counter exact, and both bounds kept. */
    ghost predicate Valid()
      reads this
    {
      KeysOnce(entries) && bytes == BytesOf(entries) <= maxBytes && |entries| <= maxEntries
    }

    constructor (maxEntries: nat, maxBytes: nat)
      requires 0 < maxEntries && 0 < maxBytes
      ensures Valid() && View() == Cache([], maxEntries, maxBytes)
    {
      this.maxEntries, this.maxBytes, entries, bytes := maxEntries, maxBytes, [], 0;
    }

    method Get(key: Digest) returns (hit: Option<Entry>)
      requires Valid()
      modifies this`entries
      ensures Valid() && hit == Stored(old(entries), key) && View() == Got(old(View()), key)
      ensures hit.None? ==> entries == old(entries) && forall e :: e in entries ==> e.key != key
      ensures hit.Some? ==>
                hit.value in old(entries) && hit.value.key == key
                && exists rest :: TakenOut(old(entries), key, rest) && entries == rest + [hit.value]
    {
      WithoutIsTakenOut(entries, key);
      hit := Stored(entries, key);
      if hit.Some? {
        WithoutBytes(entries, key);
        WithoutOnce(entries, key);
        WithoutShorter(entries, key);
        BytesPush(Without(entries, key), hit.value);
        entries := Without(entries, key) + [hit.value];
      }
    }

    method Set(e: Entry)
      requires Valid()
      modifies this`entries, this`bytes
      ensures Valid() && View() == Put(old(View()), e)
      ensures exists rest :: Replaced(old(View()), e, rest, entries)
    {
      PutReplaces(View(), e);
      Remove(e.key);
      if e.bytes <= maxBytes {
        BytesPush(entries, e);
        entries, bytes := entries + [e], bytes + e.bytes;
        MakeRoom();
      }
    }

    method Remove(key: Digest)
      requires Valid()
      modifies this`entries, this`bytes
      ensures Valid() && entries == Without(old(entries), key)
    {
      WithoutBytes(entries, key);
      WithoutOnce(entries, key);
      var known := Stored(entries, key);
      if known.Some? {
        bytes := bytes - known.value.bytes;
      }
      entries := Without(entries, key);
    }

    method MakeRoom()
      requires KeysOnce(entries) && bytes == BytesOf(entries)
      modifies this`entries, this`bytes
      ensures Valid() && entries == Evict(old(entries), maxEntries, maxBytes)
    {
      ghost var goal := Evict(entries, maxEntries, maxBytes);
      while |entries| > maxEntries || bytes > maxBytes
        invariant KeysOnce(entries) && bytes == BytesOf(entries)
        invariant Evict(entries, maxEntries, maxBytes) == goal
        decreases |entries|
      {
        EvictOldest(entries, maxEntries, maxBytes);
        OnceTail(entries);
        bytes := bytes - entries[0].bytes;
        entries := entries[1..];
      }
      EvictNone(entries, maxEntries, maxBytes);
    }
  }

  lemma {:induction false} WithoutShorter(entries: seq<Entry>, key: Digest)
    requires HasKey(entries, key)
    ensures |Without(entries, key)| < |entries|
  {
    if entries[0].key != key {
      assert HasKey(entries[1..], key) by {
        var i :| 0 <= i < |entries| && entries[i].key == key;
        assert entries[1..][i - 1] == entries[i];
      }
      WithoutShorter(entries[1..], key);
    }
  }

  // ------------------------------------------------------------------ counting a history

  type Sizing = Message -> nat
  type Keying = Message -> Digest

  /** One message: its stored count, or a fresh one that is then stored. */
  function Counted(c: Cache, keyOf: Keying, tokens: Tokens, size: Sizing, m: Message): (Cache, nat) {
    match Stored(c.entries, keyOf(m))
    case Some(hit) => (Got(c, keyOf(m)), hit.tokens)
    case None => (Put(c, Entry(keyOf(m), tokens(m), size(m))), tokens(m))
  }

  /** The cache and the counts after the first `n` messages. */
  function Analyzed(c: Cache, keyOf: Keying, tokens: Tokens, size: Sizing, ms: seq<Message>, n: nat): (r: (Cache, seq<nat>))
    requires n <= |ms|
    ensures |r.1| == n
  {
    if n == 0 then (c, [])
    else
      var (before, counts) := Analyzed(c, keyOf, tokens, size, ms, n - 1);
      var (after, count) := Counted(before, keyOf, tokens, size, ms[n - 1]);
      (after, counts + [count])
  }

  lemma AnalyzedStep(c: Cache, keyOf: Keying, tokens: Tokens, size: Sizing, ms: seq<Message>, n: nat)
    requires 0 < n <= |ms|
    ensures var (before, counts) := Analyzed(c, keyOf, tokens, size, ms, n - 1);
            var (after, count) := Counted(before, keyOf, tokens, size, ms[n - 1]);
            Analyzed(c, keyOf, tokens, size, ms, n) == (after, counts + [count])
  {
  }

  /** The analysis loop of the planner. */
  method AnalyzeAll(cache: LayeredCache, keyOf: Keying, tokens: Tokens, size: Sizing, ms: seq<Message>) returns (counts: seq<nat>)
    requires cache.Valid()
    modifies cache
    ensures cache.Valid() && (cache.View(), counts) == Analyzed(old(cache.View()), keyOf, tokens, size, ms, |ms|)
  {
    ghost var start := cache.View();
    counts := [];
    for i := 0 to |ms|
      invariant cache.Valid() && (cache.View(), counts) == Analyzed(start, keyOf, tokens, size, ms, i)
    {
      AnalyzedStep(start, keyOf, tokens, size, ms, i + 1);
      var count := CountOne(cache, keyOf, tokens, size, ms[i]);
      counts := counts + [count];
    }
  }

  method CountOne(cache: LayeredCache, keyOf: Keying, tokens: Tokens, size: Sizing, m: Message) returns (count: nat)
    requires cache.Valid()
    modifies cache
    ensures cache.Valid() && (cache.View(), count) == Counted(old(cache.View()), keyOf, tokens, size, m)
  {
    var hit := cache.Get(keyOf(m));
    if hit.Some? {
      return hit.value.tokens;
    }
    cache.Set(Entry(keyOf(m), tokens(m), size(m)));
    return tokens(m);
  }

  // ------------------------------------------------------------------ when counts are fresh

  /** The count is that of some message seen, with this key. */
  ghost predicate CountOf(keyOf: Keying, tokens: Tokens, seen: seq<Message>, key: Digest, count: nat) {
    exists i :: 0 <= i < |seen| && keyOf(seen[i]) == key && tokens(seen[i]) == count
  }

  /** Every entry was stored by the analysis of a message seen. */
  ghost predicate Earned(keyOf: Keying, tokens: Tokens, seen: seq<Message>, entries: seq<Entry>) {
    forall e :: e in entries ==> CountOf(keyOf, tokens, seen, e.key, e.tokens)
  }

  ghost predicate FreshCounts(tokens: Tokens, ms: seq<Message>, counts: seq<nat>) {
    |counts| == |ms| && forall i :: 0 <= i < |ms| ==> counts[i] == tokens(ms[i])
  }

  lemma EarnedMore(keyOf: Keying, tokens: Tokens, seen: seq<Message>, entries: seq<Entry>, m: Message)
    requires Earned(keyOf, tokens, seen, entries)
    ensures Earned(keyOf, tokens, seen + [m], entries)
    ensures CountOf(keyOf, tokens, seen + [m], keyOf(m), tokens(m))
  {
    var more := seen + [m];
    assert more[|seen|] == m;
    forall e | e in entries
      ensures CountOf(keyOf, tokens, more, e.key, e.tokens)
    {
      var i :| 0 <= i < |seen| && keyOf(seen[i]) == e.key && tokens(seen[i]) == e.tokens;
      assert more[i] == seen[i];
    }
  }

  lemma PutHas(c: Cache, e: Entry)
    ensures forall x :: x in Put(c, e).entries ==> x == e || x in c.entries
  {
    var all := Without(c.entries, e.key) + [e];
    var kept := Evict(all, c.maxEntries, c.maxBytes);
    var k := EvictIs(all, c.maxEntries, c.maxBytes);
    assert forall x :: x in kept ==> x in all;
  }

  lemma CountedEarned(c: Cache, keyOf: Keying, tokens: Tokens, size: Sizing, seen: seq<Message>, m: Message)
    requires Earned(keyOf, tokens, seen, c.entries)
    ensures var (next, count) := Counted(c, keyOf, tokens, size, m);
            Earned(keyOf, tokens, seen + [m], next.entries) && CountOf(keyOf, tokens, seen + [m], keyOf(m), count)
  {
    EarnedMore(keyOf, tokens, seen, c.entries, m);
    PutHas(c, Entry(keyOf(m), tokens(m), size(m)));
  }

  lemma CountOfMore(keyOf: Keying, tokens: Tokens, seen: seq<Message>, m: Message, key: Digest, count: nat)
    requires CountOf(keyOf, tokens, seen, key, count)
    ensures CountOf(keyOf, tokens, seen + [m], key, count)
  {
    var i :| 0 <= i < |seen| && keyOf(seen[i]) == key && tokens(seen[i]) == count;
    assert (seen + [m])[i] == seen[i];
  }

  ghost predicate AllCounts(keyOf: Keying, tokens: Tokens, seen: seq<Message>, ms: seq<Message>, counts: seq<nat>) {
    |counts| <= |ms| && forall i :: 0 <= i < |counts| ==> CountOf(keyOf, tokens, seen, keyOf(ms[i]), counts[i])
  }

  lemma AllCountsPush(
      keyOf: Keying, tokens: Tokens, seen: seq<Message>, ms: seq<Message>, counts: seq<nat>, m: Message, count: nat)
    requires AllCounts(keyOf, tokens, seen, ms, counts) && |counts| < |ms| && ms[|counts|] == m
    requires CountOf(keyOf, tokens, seen + [m], keyOf(m), count)
    ensures AllCounts(keyOf, tokens, seen + [m], ms, counts + [count])
  {
    forall i | 0 <= i < |counts|
      ensures CountOf(keyOf, tokens, seen + [m], keyOf(ms[i]), counts[i])
    {
      CountOfMore(keyOf, tokens, seen, m, keyOf(ms[i]), counts[i]);
    }
  }

  lemma SeenMore(seen: seq<Message>, ms: seq<Message>, n: nat)
    requires 0 < n <= |ms|
    ensures seen + ms[..n] == seen + ms[..n - 1] + [ms[n - 1]]
  {
  }

  /** The cache and the counts belong to messages seen. */
  ghost predicate BothEarned(
      keyOf: Keying, tokens: Tokens, seen: seq<Message>, ms: seq<Message>, r: (Cache, seq<nat>))
  {
    Earned(keyOf, tokens, seen, r.0.entries) && AllCounts(keyOf, tokens, seen, ms, r.1)
  }

  lemma EarnedStep(
      keyOf: Keying, tokens: Tokens, size: Sizing, seen: seq<Message>, ms: seq<Message>, before: Cache, counts: seq<nat>, m: Message)
    requires BothEarned(keyOf, tokens, seen, ms, (before, counts)) && |counts| < |ms| && ms[|counts|] == m
    ensures var (after, count) := Counted(before, keyOf, tokens, size, m);
            BothEarned(keyOf, tokens, seen + [m], ms, (after, counts + [count]))
  {
    CountedEarned(before, keyOf, tokens, size, seen, m);
    AllCountsPush(keyOf, tokens, seen, ms, counts, m, Counted(before, keyOf, tokens, size, m).1);
  }

  /** Whatever was analyzed before, each count is that of some message with the same key. */
  lemma {:induction false} AnalyzedEarned(
      c: Cache, keyOf: Keying, tokens: Tokens, size: Sizing, seen: seq<Message>, ms: seq<Message>, n: nat)
    requires Earned(keyOf, tokens, seen, c.entries) && n <= |ms|
    ensures BothEarned(keyOf, tokens, seen + ms[..n], ms, Analyzed(c, keyOf, tokens, size, ms, n))
  {
    if n == 0 {
      assert seen + ms[..0] == seen;
    } else {
      AnalyzedEarned(c, keyOf, tokens, size, seen, ms, n - 1);
      var before := Analyzed(c, keyOf, tokens, size, ms, n - 1);
      EarnedStep(keyOf, tokens, size, seen + ms[..n - 1], ms, before.0, before.1, ms[n - 1]);
      SeenMore(seen, ms, n);
      AnalyzedStep(c, keyOf, tokens, size, ms, n);
    }
  }

  /** Messages with one key have one count. */
  ghost predicate KeyDecides(keyOf: Keying, tokens: Tokens, seen: seq<Message>) {
    forall i, j :: 0 <= i < |seen| && 0 <= j < |seen| && keyOf(seen[i]) == keyOf(seen[j]) ==> tokens(seen[i]) == tokens(seen[j])
  }

  lemma DecidedIsFresh(c: Cache, keyOf: Keying, tokens: Tokens, size: Sizing, seen: seq<Message>, ms: seq<Message>)
    requires Earned(keyOf, tokens, seen, c.entries) && KeyDecides(keyOf, tokens, seen + ms)
    ensures FreshCounts(tokens, ms, Analyzed(c, keyOf, tokens, size, ms, |ms|).1)
  {
    var counts, all := Analyzed(c, keyOf, tokens, size, ms, |ms|).1, seen + ms;
    AnalyzedEarned(c, keyOf, tokens, size, seen, ms, |ms|);
    assert ms[..|ms|] == ms;
    forall i | 0 <= i < |ms|
      ensures counts[i] == tokens(ms[i])
    {
      assert CountOf(keyOf, tokens, all, keyOf(ms[i]), counts[i]);
      var k :| 0 <= k < |all| && keyOf(all[k]) == keyOf(ms[i]) && tokens(all[k]) == counts[i];
      assert all[|seen| + i] == ms[i];
    }
  }

  // ------------------------------------------------------------------ two calls

  /** The counts of a second call that shares a new cache with a first one. */
  function SecondCounts(
      keyOf: Keying, tokens: Tokens, size: Sizing, maxEntries: nat, maxBytes: nat, first: seq<Message>, ms: seq<Message>): seq<nat>
  {
    var (c, _) := Analyzed(Cache([], maxEntries, maxBytes), keyOf, tokens, size, first, |first|);
    Analyzed(c, keyOf, tokens, size, ms, |ms|).1
  }

  lemma SecondIsFresh(
      keyOf: Keying, tokens: Tokens, size: Sizing, maxEntries: nat, maxBytes: nat, first: seq<Message>, ms: seq<Message>)
    requires KeyDecides(keyOf, tokens, first + ms)
    ensures FreshCounts(tokens, ms, SecondCounts(keyOf, tokens, size, maxEntries, maxBytes, first, ms))
  {
    var c := Cache([], maxEntries, maxBytes);
    AnalyzedEarned(c, keyOf, tokens, size, [], first, |first|);
    assert [] + first[..|first|] == first;
    DecidedIsFresh(Analyzed(c, keyOf, tokens, size, first, |first|).0, keyOf, tokens, size, first, ms);
  }

  lemma OneStored(keyOf: Keying, tokens: Tokens, size: Sizing, maxEntries: nat, maxBytes: nat, n: Message)
    requires 0 < maxEntries && size(n) <= maxBytes
    ensures Analyzed(Cache([], maxEntries, maxBytes), keyOf, tokens, size, [n], 1).0
         == Cache([Entry(keyOf(n), tokens(n), size(n))], maxEntries, maxBytes)
  {
    var c, e := Cache([], maxEntries, maxBytes), Entry(keyOf(n), tokens(n), size(n));
    assert Without(c.entries, e.key) + [e] == [e];
    assert BytesOf([e]) == e.bytes;
    assert Put(c, e) == Cache([e], maxEntries, maxBytes);
    assert Analyzed(c, keyOf, tokens, size, [n], 0) == (c, []);
  }

  /** A message whose twin was planned before, with room for it, is counted as its twin. */
  lemma TwinCounts(keyOf: Keying, tokens: Tokens, size: Sizing, maxEntries: nat, maxBytes: nat, n: Message, m: Message)
    requires keyOf(n) == keyOf(m) && 0 < maxEntries && size(n) <= maxBytes
    ensures SecondCounts(keyOf, tokens, size, maxEntries, maxBytes, [n], [m]) == [tokens(n)]
  {
    var e := Entry(keyOf(n), tokens(n), size(n));
    OneStored(keyOf, tokens, size, maxEntries, maxBytes, n);
    var c := Cache([e], maxEntries, maxBytes);
    assert HasKey([e], keyOf(m)) by {
      assert [e][0] == e;
    }
    assert Analyzed(c, keyOf, tokens, size, [m], 0) == (c, []);
  }

  // ------------------------------------------------------------------ a twin among others

  function UnitSize(m: Message): nat { 1 }

  lemma {:induction false} OneByteEach(entries: seq<Entry>)
    requires forall i :: 0 <= i < |entries| ==> entries[i].bytes == 1
    ensures BytesOf(entries) == |entries|
  {
    if entries != [] {
      OneByteEach(entries[1..]);
    }
  }

  /** A miss with room to spare appends a fresh entry. */
  lemma MissCounts(c: Cache, entries: seq<Entry>, keyOf: Keying, tokens: Tokens, m: Message)
    requires c == Cache(entries, 8, 8) && |entries| < 8
    requires (forall i :: 0 <= i < |entries| ==> entries[i].bytes == 1 && entries[i].key != keyOf(m))
    ensures Counted(c, keyOf, tokens, UnitSize, m) == (Cache(entries + [Entry(keyOf(m), tokens(m), 1)], 8, 8), tokens(m))
  {
    var e := Entry(keyOf(m), tokens(m), 1);
    WithoutUnknown(entries, keyOf(m));
    OneByteEach(entries + [e]);
    EvictNone(entries + [e], 8, 8);
  }

  lemma AnalyzedPush(
      c: Cache, keyOf: Keying, tokens: Tokens, size: Sizing, ms: seq<Message>, n: nat, before: Cache, counts: seq<nat>,
      after: Cache, count: nat)
    requires 0 < n <= |ms| && Analyzed(c, keyOf, tokens, size, ms, n - 1) == (before, counts)
    requires Counted(before, keyOf, tokens, size, ms[n - 1]) == (after, count)
    ensures Analyzed(c, keyOf, tokens, size, ms, n) == (after, counts + [count])
  {
  }

  lemma TwoMisses(c: Cache, keyOf: Keying, tokens: Tokens, e: Entry, ms: seq<Message>)
    requires c == Cache([e], 8, 8) && e.bytes == 1 && |ms| == 3
    requires keyOf(ms[0]) != e.key && keyOf(ms[1]) != e.key && keyOf(ms[0]) != keyOf(ms[1])
    ensures Analyzed(c, keyOf, tokens, UnitSize, ms, 2)
         == (Cache([e, Entry(keyOf(ms[0]), tokens(ms[0]), 1), Entry(keyOf(ms[1]), tokens(ms[1]), 1)], 8, 8),
             [tokens(ms[0]), tokens(ms[1])])
  {
    var e1, e2 := Entry(keyOf(ms[0]), tokens(ms[0]), 1), Entry(keyOf(ms[1]), tokens(ms[1]), 1);
    MissCounts(c, [e], keyOf, tokens, ms[0]);
    assert [e] + [e1] == [e, e1] && [e, e1] + [e2] == [e, e1, e2];
    AnalyzedPush(c, keyOf, tokens, UnitSize, ms, 1, c, [], Cache([e, e1], 8, 8), tokens(ms[0]));
    assert [] + [tokens(ms[0])] == [tokens(ms[0])];
    MissCounts(Cache([e, e1], 8, 8), [e, e1], keyOf, tokens, ms[1]);
    AnalyzedPush(c, keyOf, tokens, UnitSize, ms, 2, Cache([e, e1], 8, 8), [tokens(ms[0])], Cache([e, e1, e2], 8, 8), tokens(ms[1]));
    assert [tokens(ms[0])] + [tokens(ms[1])] == [tokens(ms[0]), tokens(ms[1])];
  }

  /** Two new messages and a twin of the message planned before: the twin gets the earlier count. */
  lemma ThirdIsTwin(keyOf: Keying, tokens: Tokens, n: Message, a: Message, b: Message, c: Message)
    requires keyOf(a) != keyOf(n) && keyOf(b) != keyOf(n) && keyOf(a) != keyOf(b) && keyOf(c) == keyOf(n)
    ensures SecondCounts(keyOf, tokens, UnitSize, 8, 8, [n], [a, b, c]) == [tokens(a), tokens(b), tokens(n)]
  {
    var ms, e := [a, b, c], Entry(keyOf(n), tokens(n), 1);
    OneStored(keyOf, tokens, UnitSize, 8, 8, n);
    var c0 := Cache([e], 8, 8);
    TwoMisses(c0, keyOf, tokens, e, ms);
    var before := Analyzed(c0, keyOf, tokens, UnitSize, ms, 2);
    assert before.0.entries[0] == e && Stored(before.0.entries, keyOf(c)) == Some(e);
    AnalyzedStep(c0, keyOf, tokens, UnitSize, ms, 3);
  }
}
