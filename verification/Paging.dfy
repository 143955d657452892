/** `paginateText`: the longest run of whole code points that fits a UTF-8 budget. */
module Paging {
  import opened Texts

  const DEFAULT_PAGE_TOKENS := 2048
  const DEFAULT_PAGE_BYTES := 32768
  const MAX_PAGE_TOKENS := 8192
  const MAX_PAGE_BYTES := 131072

  function Min(a: int, b: int): int { if a <= b then a else b }

  predicate PairAt(text: Text, i: nat) {
    i + 1 < |text| && IsHigh(text[i]) && IsLow(text[i + 1])
  }

  /** Code units of the code point at `i`. */
  function WidthAt(text: Text, i: nat): nat
    requires i < |text|
  {
    if PairAt(text, i) then 2 else 1
  }

  /** UTF-8 bytes of the code point at `i`; a lone surrogate counts as its replacement character. */
  function SizeAt(text: Text, i: nat): nat
    requires i < |text|
  {
    if PairAt(text, i) then 4 else if text[i] <= 0x7f then 1 else if text[i] <= 0x7ff then 2 else 3
  }

  /** UTF-8 bytes from `i` on. */
  function BytesFrom(text: Text, i: nat): nat
    requires i <= |text|
    decreases |text| - i
  {
    if i == |text| then 0 else SizeAt(text, i) + BytesFrom(text, i + WidthAt(text, i))
  }

  // --------------------------------------------------------------- the bytes themselves

  /** The code point at `i`; a lone surrogate stands for the replacement character. */
  function CodePointAt(text: Text, i: nat): nat
    requires i < |text|
  {
    if PairAt(text, i) then 0x10000 + (text[i] as int - 0xD800) * 0x400 + (text[i + 1] as int - 0xDC00)
    else if 0xD800 <= text[i] <= 0xDFFF then 0xFFFD
    else text[i]
  }

  /** Section 3 of RFC 3629. */
  function Utf8(c: nat): (bytes: seq<nat>)
    ensures c < 0x110000 ==> forall i :: 0 <= i < |bytes| ==> bytes[i] < 256
  {
    if c < 0x80 then [c]
    else if c < 0x800 then [0xC0 + c / 64, 0x80 + c % 64]
    else if c < 0x10000 then [0xE0 + c / 4096, 0x80 + c / 64 % 64, 0x80 + c % 64]
    else [0xF0 + c / 262144, 0x80 + c / 4096 % 64, 0x80 + c / 64 % 64, 0x80 + c % 64]
  }

  function Encoded(text: Text, i: nat): seq<nat>
    requires i <= |text|
    decreases |text| - i
  {
    if i == |text| then [] else Utf8(CodePointAt(text, i)) + Encoded(text, i + WidthAt(text, i))
  }

  /** The sizes that pages are measured by are the lengths of the UTF-8 encodings. */
  lemma {:induction false} SizesAreUtf8(text: Text, i: nat)
    requires i <= |text|
    ensures BytesFrom(text, i) == |Encoded(text, i)|
    decreases |text| - i
  {
    if i < |text| {
      SizesAreUtf8(text, i + WidthAt(text, i));
    }
  }

  /** `j` is reached from `i` by whole code points of `size` bytes. */
  ghost predicate Reaches(text: Text, i: nat, j: nat, size: nat)
    decreases |text| - i
  {
    i <= j <= |text| &&
    if i == j then size == 0
    else i < |text| && SizeAt(text, i) <= size && Reaches(text, i + WidthAt(text, i), j, size - SizeAt(text, i))
  }

  lemma {:induction false} ReachesOne(text: Text, i: nat, j: nat, size: nat)
    requires Reaches(text, i, j, size) && j < |text|
    ensures Reaches(text, i, j + WidthAt(text, j), size + SizeAt(text, j))
    decreases |text| - i
  {
    if i < j {
      ReachesOne(text, i + WidthAt(text, i), j, size - SizeAt(text, i));
    }
  }

  lemma {:induction false} BytesDrop(text: Text, k: nat, i: nat)
    requires k <= i <= |text|
    ensures BytesFrom(text[k..], i - k) == BytesFrom(text, i)
    decreases |text| - i
  {
    if i < |text| {
      assert WidthAt(text[k..], i - k) == WidthAt(text, i) && SizeAt(text[k..], i - k) == SizeAt(text, i);
      BytesDrop(text, k, i + WidthAt(text, i));
    }
  }

  /** What whole code points measure inside a text is what they measure on their own. */
  lemma {:induction false} ReachesBytes(text: Text, i: nat, j: nat, size: nat)
    requires Reaches(text, i, j, size)
    ensures BytesFrom(text[i..j], 0) == size
    decreases |text| - i
  {
    if i < j {
      var w, slice := WidthAt(text, i), text[i..j];
      ReachesBytes(text, i + w, j, size - SizeAt(text, i));
      assert WidthAt(slice, 0) == w && SizeAt(slice, 0) == SizeAt(text, i);
      BytesDrop(slice, w, w);
      assert slice[w..] == text[i + w..j];
    }
  }

  datatype PageError = BadBudget | OutsideBoundary | CannotFit

  datatype PageResult =
    | Page(content: Text, next: Option<nat>, bytes: nat)
    | PageFailure(error: PageError)

  /** A cursor may point at the end or at a unit that is not a low surrogate. */
  predicate Accepted(text: Text, start: nat) {
    start <= |text| && (start < |text| ==> !IsLow(text[start]))
  }

  /** `n` bytes are within the limits a caller gave, their defaults, and the most any page may have. */
  predicate WithinLimits(maxBytes: Option<int>, maxTokens: Option<int>, n: int) {
    && n <= 131072 && n <= 8192
    && (if maxBytes.Some? then n <= maxBytes.value else n <= 32768)
    && (if maxTokens.Some? then n <= maxTokens.value else n <= 2048)
  }

  function Limit(value: Option<int>, fallback: int, cap: int): int {
    if value.None? then fallback else Min(value.value, cap)
  }

  predicate BudgetGiven(value: Option<int>) {
    value.Some? ==> value.value > 0
  }

  method PaginateText(text: Text, start: nat, maxBytes: Option<int>, maxTokens: Option<int>) returns (r: PageResult)
    ensures r == PageFailure(BadBudget) <==> !BudgetGiven(maxBytes) || !BudgetGiven(maxTokens)
    ensures r == PageFailure(OutsideBoundary) <==>
            BudgetGiven(maxBytes) && BudgetGiven(maxTokens) && !Accepted(text, start)
    ensures var budget := Min(Limit(maxBytes, DEFAULT_PAGE_BYTES, MAX_PAGE_BYTES), Limit(maxTokens, DEFAULT_PAGE_TOKENS, MAX_PAGE_TOKENS));
            && (r == PageFailure(CannotFit) ==> Accepted(text, start) && start < |text| && SizeAt(text, start) > budget)
            && (r.Page? ==> PageIs(text, start, budget, r))
    ensures r == PageFailure(CannotFit) ==> start < |text| && !WithinLimits(maxBytes, maxTokens, SizeAt(text, start))
    ensures r.Page? ==> WithinLimits(maxBytes, maxTokens, r.bytes)
    ensures r.Page? && r.next.Some? ==>
              r.next.value < |text| && !WithinLimits(maxBytes, maxTokens, r.bytes + SizeAt(text, r.next.value))
  {
    if !BudgetGiven(maxBytes) || !BudgetGiven(maxTokens) {
      return PageFailure(BadBudget);
    }
    var budget := Min(Limit(maxBytes, DEFAULT_PAGE_BYTES, MAX_PAGE_BYTES), Limit(maxTokens, DEFAULT_PAGE_TOKENS, MAX_PAGE_TOKENS));
    if !Accepted(text, start) {
      return PageFailure(OutsideBoundary);
    }
    var end, bytes := start, 0;
    while end < |text|
      invariant start <= end <= |text| && 0 <= bytes <= budget
      invariant Reaches(text, start, end, bytes)
      decreases |text| - end
    {
      var width, size := WidthAt(text, end), SizeAt(text, end);
      if bytes + size > budget {
        break;
      }
      ReachesOne(text, start, end, bytes);
      bytes := bytes + size;
      end := end + width;
    }
    if end == start && start < |text| {
      return PageFailure(CannotFit);
    }
    return Page(text[start..end], if end < |text| then Some(end) else None, bytes);
  }

  /** The page holds whole code points, within budget, and the next one would not fit. */
  ghost predicate PageIs(text: Text, start: nat, budget: int, page: PageResult)
    requires page.Page?
  {
    var end := if page.next.Some? then page.next.value else |text|;
    && start <= end <= |text|
    && (start < |text| ==> start < end)
    && page.content == text[start..end]
    && page.bytes <= budget
    && Reaches(text, start, end, page.bytes)
    && (page.next.Some? ==> end < |text| && page.bytes + SizeAt(text, end) > budget)
  }

  // ---------------------------------------------------- when pages can be resumed

  /** Every low surrogate follows a high one. */
  predicate NoLoneLow(text: Text) {
    forall l :: 0 <= l < |text| && IsLow(text[l]) ==> FollowsHigh(text, l)
  }

  predicate FollowsHigh(text: Text, l: nat)
    requires l < |text|
  {
    l > 0 && IsHigh(text[l - 1])
  }

  lemma {:induction false} ReachesAccepted(text: Text, i: nat, j: nat, size: nat)
    requires NoLoneLow(text) && Accepted(text, i) && Reaches(text, i, j, size)
    ensures Accepted(text, j)
    decreases |text| - i
  {
    if i < j {
      var next := i + WidthAt(text, i);
      ReachesAccepted(text, next, j, size - SizeAt(text, i));
    }
  }

  lemma {:induction false} LoneLowStops(text: Text, l: nat) returns (i: nat, j: nat, size: nat)
    requires l < |text| && IsLow(text[l]) && !FollowsHigh(text, l) && Accepted(text, 0)
    ensures Accepted(text, i) && Reaches(text, i, j, size) && !Accepted(text, j) && j < |text| && 0 < size <= 4
  {
    var k := l - 1;
    if !IsLow(text[k]) {
      assert WidthAt(text, k) == 1;
      assert Reaches(text, l, l, 0);
      i, j, size := k, l, SizeAt(text, k);
    } else if FollowsHigh(text, k) {
      assert PairAt(text, k - 1);
      assert Reaches(text, l, l, 0);
      i, j, size := k - 1, l, 4;
    } else {
      i, j, size := LoneLowStops(text, k);
    }
  }

  lemma {:induction false} ReachDecides(text: Text, i: nat, j: nat, k: nat, size: nat, more: nat)
    requires Reaches(text, i, j, size) && Reaches(text, i, k, more) && j < |text|
    requires more <= size && (k < |text| ==> more + SizeAt(text, k) > size)
    ensures k == j && more == size
    decreases |text| - i
  {
    if i < j && i < k {
      ReachDecides(text, i + WidthAt(text, i), j, k, size - SizeAt(text, i), more - SizeAt(text, i));
    }
  }

  /** Whole code points of `size` bytes are exactly the page under that budget, unless the text ends there. */
  lemma ReachIsPage(text: Text, i: nat, j: nat, size: nat, page: PageResult)
    requires Reaches(text, i, j, size) && i < j < |text| && page.Page?
    ensures PageIs(text, i, size, page) <==> page == Page(text[i..j], Some(j), size)
  {
    if PageIs(text, i, size, page) {
      ReachDecides(text, i, j, if page.next.Some? then page.next.value else |text|, size, page.bytes);
    }
  }

  /** Whatever the budgets, every cursor a page hands out is accepted by the next one. */
  ghost predicate Resumable(text: Text) {
    && Accepted(text, 0)
    && forall start: nat, budget: nat, page: PageResult ::
         Accepted(text, start) && 0 < budget <= MAX_PAGE_TOKENS && page.Page? && PageIs(text, start, budget, page) && page.next.Some?
         ==> Accepted(text, page.next.value)
  }

  /**
   * A text can be read page by page under every budget exactly when no low surrogate stands alone:
   * otherwise some page ends right before one and its cursor is refused.
   */
  lemma ResumableExactly(text: Text)
    ensures Resumable(text) <==> NoLoneLow(text)
  {
    if NoLoneLow(text) {
      forall start: nat, budget: nat, page: PageResult
        | Accepted(text, start) && page.Page? && PageIs(text, start, budget, page) && page.next.Some?
        ensures Accepted(text, page.next.value)
      {
        ReachesAccepted(text, start, page.next.value, page.bytes);
      }
    }
    if Resumable(text) && !NoLoneLow(text) {
      var l: nat :| l < |text| && IsLow(text[l]) && !FollowsHigh(text, l);
      var i, j, size := LoneLowStops(text, l);
      ReachIsPage(text, i, j, size, Page(text[i..j], Some(j), size));
      assert false;
    }
  }
}
