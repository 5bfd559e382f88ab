/**
 * The meaning of `TAS::BasicString`'s operations as functions of its
 * contents: block rounding, span/subString slicing, the span-composed edits
 * and the brute-force searches. The class in basic_string.dfy is proved
 * against these definitions.
 */
module StringSpec {
  import opened SizeT

  function Min(a: nat, b: nat): nat { if a <= b then a else b }

  function Max(a: nat, b: nat): nat { if a <= b then b else a }

  /** The capacity the sizing constructors choose for `n` characters. */
  function BlockRound(n: nat, block: nat): (r: nat)
    requires 0 < block
    ensures r % block == 0
    ensures n < r <= n + block
  {
    var q, m := n / block, n % block;
    assert n + (block - m) == (q + 1) * block;
    MultipleMod(q + 1, block);
    n + (block - m)
  }

  lemma MultipleMod(q: int, b: int)
    requires 0 < b
    ensures (q * b) % b == 0
  {
    var x := q * b;
    var d := q - x / b;
    assert d * b == x % b;
    MulBounds(d, b);
  }

  lemma MulBounds(d: int, b: int)
    ensures 1 <= d && 0 < b ==> b <= d * b
    ensures d <= -1 && 0 < b ==> d * b <= -b
  {
  }

  /** Capacity after `append(str)` as written: the reserve rounds up the appended length alone. */
  function AppendCapacityAsWritten(size: nat, capacity: nat, n: nat, block: nat): (r: nat)
    requires 0 < block
    ensures capacity <= r
  {
    if size + n > capacity then Max(capacity, BlockRound(n, block)) else capacity
  }

  /** The input that shows the under-allocation: 30 characters in 32 slots, 5 appended. */
  lemma AppendAsWrittenOverflows()
    ensures AppendCapacityAsWritten(30, 32, 5, 32) < 30 + 5
  {
  }

  /**
   * The edits that join spans with `operator+` hit the same under-allocation:
   * `eraseSpan(20, 20)` on 40 characters appends the 20-character tail to the
   * head `span(0, 20)`, which holds 20 characters in 32 slots.
   */
  lemma EraseSpanAsWrittenOverflows()
    ensures AppendCapacityAsWritten(20, 32, 20, 32) < 20 + 20
  {
  }

  /** Whenever the appended text does not fit and its own rounded-up length is below the new size, the write runs past the buffer. */
  lemma AppendAsWrittenOverflowsWhenever(size: nat, capacity: nat, n: nat, block: nat)
    requires 0 < block
    requires capacity < size + n
    requires BlockRound(n, block) < size + n
    ensures AppendCapacityAsWritten(size, capacity, n, block) < size + n
  {
  }

  /** Capacity after `append(str)` with the reserve rounding up the total size. */
  function AppendCapacity(size: nat, capacity: nat, n: nat, block: nat): (r: nat)
    requires 0 < block
    ensures capacity <= r
    ensures size + n <= r
    ensures r <= Max(capacity, size + n + block)
    ensures capacity % block == 0 ==> r % block == 0
  {
    if size + n > capacity then Max(capacity, BlockRound(size + n, block)) else capacity
  }

  function Reversed(s: seq<char>): (r: seq<char>)
    ensures |r| == |s|
  {
    if s == [] then [] else Reversed(s[1..]) + [s[0]]
  }

  lemma {:induction false} ReversedAt(s: seq<char>, k: nat)
    requires k < |s|
    ensures Reversed(s)[k] == s[|s| - 1 - k]
  {
    if k < |s| - 1 {
      ReversedAt(s[1..], k);
    }
  }

  /** Reversing twice gives back the original: the reverse branch of `span` loses nothing. */
  lemma ReversedTwice(s: seq<char>)
    ensures Reversed(Reversed(s)) == s
  {
    var r := Reversed(s);
    forall k | 0 <= k < |s|
      ensures Reversed(r)[k] == s[k]
    {
      ReversedAt(r, k);
      ReversedAt(s, |s| - 1 - k);
    }
  }

  /**
   * `span(first, last)`: the characters at [first, min(last, size)) when
   * last > first, nothing when last == first, and the characters at
   * [last, min(first, size)) in reverse order when last < first.
   */
  function SpanOf(s: seq<char>, first: nat, last: nat): (r: seq<char>)
    ensures |r| <= |s|
  {
    if last < first then
      var hi := Min(first, |s|);
      if last < hi then Reversed(s[last..hi]) else []
    else if last == first then []
    else
      var hi := Min(last, |s|);
      if first < hi then s[first..hi] else []
  }

  /** A forward span inside the string is exactly that slice. */
  lemma SpanForward(s: seq<char>, first: nat, last: nat)
    requires first <= last <= |s|
    ensures SpanOf(s, first, last) == s[first..last]
  {
  }

  /** A span running backwards inside the string is the reverse of the forward span. */
  lemma SpanBackward(s: seq<char>, first: nat, last: nat)
    requires last < first <= |s|
    ensures SpanOf(s, first, last) == Reversed(SpanOf(s, last, first))
    ensures Reversed(SpanOf(s, first, last)) == s[last..first]
  {
    ReversedTwice(s[last..first]);
  }

  /** One more step of the forward walk of `span` adds the character under the cursor. */
  lemma SpanGrows(s: seq<char>, first: nat, p: nat)
    requires first <= p < |s|
    ensures SpanOf(s, first, p + 1) == SpanOf(s, first, p) + [s[p]]
  {
    if first < p {
      assert s[first..p + 1] == s[first..p] + [s[p]];
    }
  }

  /** The forward walk of `span` stops at `min(last, size)`, or does not start at all. */
  lemma SpanClampsLast(s: seq<char>, first: nat, last: nat)
    requires first < last
    ensures SpanOf(s, first, last) == SpanOf(s, first, Max(first, Min(last, |s|)))
  {
  }

  /** One more step of the reverse walk of `span` adds the character under the cursor. */
  lemma ReversedGrows(s: seq<char>, p: nat, hi: nat)
    requires p < hi <= |s|
    ensures Reversed(s[p..hi]) == Reversed(s[p + 1..hi]) + [s[p]]
  {
    assert s[p..hi][1..] == s[p + 1..hi];
  }

  /** With the default `last = nPos`, `span(first)` is the tail from `first`. */
  lemma SpanToEnd(s: seq<char>, first: nat)
    requires |s| < NPos
    ensures first <= |s| ==> SpanOf(s, first, NPos) == s[first..]
    ensures |s| <= first ==> SpanOf(s, first, NPos) == []
  {
  }

  /** `subString(first, n)`: `span(first, first + n)` with `n` a signed `int` added into a `size_t`. */
  function SubStringOf(s: seq<char>, first: nat, n: int): (r: seq<char>)
    requires first < Size64
    ensures |r| <= |s|
  {
    SpanOf(s, first, Wrap(first + n))
  }

  /** A non-negative length inside the string takes that many characters. */
  lemma SubStringForward(s: seq<char>, first: nat, n: nat)
    requires first + n <= |s| < Size64
    ensures SubStringOf(s, first, n) == s[first..first + n]
  {
  }

  /** A negative length that stays above zero reads backwards from `first - 1`. */
  lemma SubStringNegative(s: seq<char>, first: nat, n: int)
    requires first <= |s| < Size64
    requires 0 <= first + n && n < 0
    ensures SubStringOf(s, first, n) == Reversed(s[first + n..first])
  {
  }

  /** A negative length that reaches below zero wraps to a huge `last` and reads forwards to the end. */
  lemma SubStringWrapsForward(s: seq<char>, first: nat, n: int)
    requires first <= |s| < Size64 / 2
    requires -(Size64 / 2) < n && first + n < 0
    ensures SubStringOf(s, first, n) == s[first..]
  {
    assert Wrap(first + n) == Size64 + first + n;
  }

  /** `insert(x, index)`: `span(0, index)`, then `x`, then `span(index)`. */
  function InsertOf(s: seq<char>, x: seq<char>, index: nat): (r: seq<char>)
    requires |s| < NPos
    ensures |r| == |s| + |x|
  {
    SpanOf(s, 0, index) + x + SpanOf(s, index, NPos)
  }

  lemma InsertSplices(s: seq<char>, x: seq<char>, index: nat)
    requires |s| < NPos
    ensures index <= |s| ==> InsertOf(s, x, index) == s[..index] + x + s[index..]
    ensures |s| < index ==> InsertOf(s, x, index) == s + x
  {
  }

  /** `eraseSpan(first, last)`: `span(0, first)` followed by `span(last)`. */
  function EraseSpanOf(s: seq<char>, first: nat, last: nat): (r: seq<char>)
    ensures |r| <= 2 * |s|
  {
    SpanOf(s, 0, first) + SpanOf(s, last, NPos)
  }

  lemma EraseSpanRemoves(s: seq<char>, first: nat, last: nat)
    requires first <= last <= |s| < NPos
    ensures EraseSpanOf(s, first, last) == s[..first] + s[last..]
    ensures |EraseSpanOf(s, first, last)| == |s| - (last - first)
  {
  }

  /** `eraseSpan(first)` with the default `last = nPos` truncates the string to `first` characters. */
  lemma EraseSpanTruncates(s: seq<char>, first: nat)
    requires first <= |s| < NPos
    ensures EraseSpanOf(s, first, NPos) == s[..first]
  {
  }

  /** With `first > last`, against the documented warning, the characters between are kept twice. */
  lemma EraseSpanBackwardsDuplicates(s: seq<char>, first: nat, last: nat)
    requires last < first <= |s| < NPos
    ensures EraseSpanOf(s, first, last) == s[..first] + s[last..]
    ensures |EraseSpanOf(s, first, last)| == |s| + (first - last)
  {
  }

  /** `eraseSubString(first, n)`: `span(0, first)` followed by `span(first + n)`, with `size_t` wrap. */
  function EraseSubStringOf(s: seq<char>, first: nat, n: nat): (r: seq<char>)
    requires first < Size64 && n < Size64
    ensures |r| <= 2 * |s|
  {
    SpanOf(s, 0, first) + SpanOf(s, Wrap(first + n), NPos)
  }

  lemma EraseSubStringRemoves(s: seq<char>, first: nat, n: nat)
    requires first + n <= |s| < NPos
    ensures EraseSubStringOf(s, first, n) == s[..first] + s[first + n..]
  {
  }

  /** `popBack()`: `eraseSubString(size - 1)` with `size - 1` computed in `size_t`. */
  function PopBackOf(s: seq<char>): (r: seq<char>)
    requires |s| < Size64
    ensures |r| <= 2 * |s|
  {
    EraseSubStringOf(s, Wrap(|s| - 1), 1)
  }

  /** `popBack` drops the last character; on the empty string the wrapped index makes it a no-op. */
  lemma PopBackDropsLast(s: seq<char>)
    requires |s| < NPos
    ensures |s| > 0 ==> PopBackOf(s) == s[..|s| - 1]
    ensures |s| == 0 ==> PopBackOf(s) == []
  {
    if |s| == 0 {
      assert Wrap(|s| - 1) == NPos;
      assert Wrap(NPos + 1) == 0;
    }
  }

  /** `replaceSpan(x, first, last)`: `span(0, first) + x + span(last)`. */
  function ReplaceSpanOf(s: seq<char>, x: seq<char>, first: nat, last: nat): (r: seq<char>)
    ensures |r| <= 2 * |s| + |x|
  {
    SpanOf(s, 0, first) + x + SpanOf(s, last, NPos)
  }

  lemma ReplaceSpanSplices(s: seq<char>, x: seq<char>, first: nat, last: nat)
    requires first <= last <= |s| < NPos
    ensures ReplaceSpanOf(s, x, first, last) == s[..first] + x + s[last..]
  {
  }

  /** `replaceSubString(x, first, n)`: `span(0, first) + x + span(first + n)`. */
  function ReplaceSubStringOf(s: seq<char>, x: seq<char>, first: nat, n: nat): (r: seq<char>)
    requires first < Size64 && n < Size64
    ensures |r| <= 2 * |s| + |x|
  {
    SpanOf(s, 0, first) + x + SpanOf(s, Wrap(first + n), NPos)
  }

  lemma ReplaceSubStringSplices(s: seq<char>, x: seq<char>, first: nat, n: nat)
    requires first + n <= |s| < NPos
    ensures ReplaceSubStringOf(s, x, first, n) == s[..first] + x + s[first + n..]
  {
  }

  /** `resize(n, fill)`: the first `n` characters, padded with `fill` when growing. */
  function ResizeOf(s: seq<char>, n: nat, fill: char): (r: seq<char>)
    ensures |r| == n
    ensures r[..Min(n, |s|)] == s[..Min(n, |s|)]
    ensures forall k :: |s| <= k < n ==> r[k] == fill
  {
    if n <= |s| then s[..n] else s + seq(n - |s|, _ => fill)
  }

  // ---------------------------------------------------------------- searching

  /** The window of `s` starting at `i` equals `sub`. */
  predicate MatchAt(s: seq<char>, sub: seq<char>, i: nat) {
    i + |sub| <= |s| && s[i..i + |sub|] == sub
  }

  /** The least match at or after `i`, or `nPos`. */
  function FirstMatchFrom(s: seq<char>, sub: seq<char>, i: nat): (r: nat)
    requires |s| < NPos
    decreases |s| + 1 - i
    ensures r == NPos <==> forall j: nat :: i <= j ==> !MatchAt(s, sub, j)
    ensures r != NPos ==> i <= r && MatchAt(s, sub, r)
    ensures r != NPos ==> forall j: nat :: i <= j < r ==> !MatchAt(s, sub, j)
  {
    if i + |sub| > |s| then NPos
    else if s[i..i + |sub|] == sub then assert MatchAt(s, sub, i); i
    else FirstMatchFrom(s, sub, i + 1)
  }

  /** What `findFirst` returns. */
  function FirstMatch(s: seq<char>, sub: seq<char>): (r: nat)
    requires |s| < NPos
    ensures r == NPos <==> forall j: nat :: !MatchAt(s, sub, j)
    ensures r != NPos ==> MatchAt(s, sub, r) && forall j: nat :: j < r ==> !MatchAt(s, sub, j)
  {
    FirstMatchFrom(s, sub, 0)
  }

  /** The greatest match below `i`, or `nPos`. */
  function LastMatchBelow(s: seq<char>, sub: seq<char>, i: nat): (r: nat)
    requires |s| < NPos
    ensures r == NPos <==> forall j: nat :: j < i ==> !MatchAt(s, sub, j)
    ensures r != NPos ==> r < i && MatchAt(s, sub, r)
    ensures r != NPos ==> forall j: nat :: r < j < i ==> !MatchAt(s, sub, j)
  {
    if i == 0 then NPos
    else if MatchAt(s, sub, i - 1) then i - 1
    else LastMatchBelow(s, sub, i - 1)
  }

  /** What `findLast` returns once its loop is made to stop at index 0. */
  function LastMatch(s: seq<char>, sub: seq<char>): (r: nat)
    requires |s| < NPos
    ensures r == NPos <==> forall j: nat :: !MatchAt(s, sub, j)
    ensures r != NPos ==> MatchAt(s, sub, r) && forall j: nat :: r < j ==> !MatchAt(s, sub, j)
  {
    LastMatchBelow(s, sub, |s| + 1)
  }

  /** A match with none after it is what `findLast` returns. */
  lemma LastMatchIs(s: seq<char>, sub: seq<char>, r: nat)
    requires |s| < NPos && MatchAt(s, sub, r)
    requires forall j: nat :: r < j ==> !MatchAt(s, sub, j)
    ensures LastMatch(s, sub) == r
  {
    var m := LastMatch(s, sub);
    assert m != NPos;
    if m < r {
      assert MatchAt(s, sub, r);
    }
  }

  /** The least index at or after `i` whose character occurs in `chars`, or `nPos`. */
  function FirstOfFrom(s: seq<char>, chars: seq<char>, i: nat): (r: nat)
    requires |s| < NPos
    decreases |s| - i
    ensures r == NPos <==> forall j: nat :: i <= j < |s| ==> s[j] !in chars
    ensures r != NPos ==> i <= r < |s| && s[r] in chars
    ensures r != NPos ==> forall j: nat :: i <= j < r ==> s[j] !in chars
  {
    if |s| <= i then NPos
    else if s[i] in chars then i
    else FirstOfFrom(s, chars, i + 1)
  }

  /** What `findFirstOf` returns. */
  function FirstOf(s: seq<char>, chars: seq<char>): (r: nat)
    requires |s| < NPos
    ensures r == NPos <==> forall j: nat :: 0 <= j < |s| ==> s[j] !in chars
    ensures r != NPos ==> r < |s| && s[r] in chars && forall j: nat :: 0 <= j < r ==> s[j] !in chars
  {
    FirstOfFrom(s, chars, 0)
  }

  /** The greatest index below `i` whose character occurs in `chars`, or `nPos`. */
  function LastOfBelow(s: seq<char>, chars: seq<char>, i: nat): (r: nat)
    requires i <= |s| < NPos
    ensures r == NPos <==> forall j: nat :: 0 <= j < i ==> s[j] !in chars
    ensures r != NPos ==> r < i && s[r] in chars
    ensures r != NPos ==> forall j: nat :: r < j < i ==> s[j] !in chars
  {
    if i == 0 then NPos
    else if s[i - 1] in chars then i - 1
    else LastOfBelow(s, chars, i - 1)
  }

  /** What `findLastOf` returns once its loop is made to stop at index 0. */
  function LastOf(s: seq<char>, chars: seq<char>): (r: nat)
    requires |s| < NPos
    ensures r == NPos <==> forall j: nat :: 0 <= j < |s| ==> s[j] !in chars
    ensures r != NPos ==> r < |s| && s[r] in chars && forall j: nat :: r < j < |s| ==> s[j] !in chars
  {
    LastOfBelow(s, chars, |s|)
  }

  /** The loop bound of `findFirst` and `contains` as written: `size - str.size() + 1` in `size_t`. */
  function FirstScanBound(size: nat, n: nat): (r: nat)
    ensures r < Size64
  {
    Wrap(size - n + 1)
  }

  /** The bound is `size - n + 1` exactly when the needle is at most one longer than the string. */
  lemma FirstScanBoundExact(size: nat, n: nat)
    requires size < NPos
    requires n <= size + 1
    ensures FirstScanBound(size, n) == size - n + 1
  {
  }

  /**
   * Searching for a needle two or more characters longer than the string
   * wraps the bound past the end: window 0 is read up to index `n - 1`, which
   * is past `size`. `findFirst("{}")` on an empty string is the case `size = 0, n = 2`.
   */
  lemma FirstScanBoundWraps(size: nat, n: nat)
    requires size + 1 < n < Size64
    ensures FirstScanBound(size, n) == Size64 + size + 1 - n
    ensures size < FirstScanBound(size, n)
  {
  }

  lemma EmptyTemplateScan()
    ensures FirstScanBound(0, 2) == NPos
  {
    FirstScanBoundWraps(0, 2);
  }

  /** The index `findLast` as written examines on its `k`-th turn: `size - n - k` in `size_t`. */
  function LastScanIndex(size: nat, n: nat, k: nat): (r: nat)
    ensures r < Size64
  {
    Wrap(size - n - k)
  }

  /**
   * After the window at 0 fails, the `size_t` counter of `findLast` wraps to
   * `SIZE_MAX`, which passes the guard `i >= 0` and lies past the buffer: the
   * `return nPos` after the loop is never reached.
   */
  lemma LastScanRunsOff(size: nat, n: nat)
    requires n <= size < NPos
    ensures LastScanIndex(size, n, size - n) == 0
    ensures LastScanIndex(size, n, size - n + 1) == NPos
    ensures size < LastScanIndex(size, n, size - n + 1)
  {
  }

  /**
   * When the needle is longer than the string, the `size_t` start index
   * `size - n` of `findLast` already wraps: the first window read lies past
   * the buffer. `findLast("ab")` on `"a"` is the case `size = 1, n = 2`.
   */
  lemma LastScanStartsOff(size: nat, n: nat)
    requires size < n < Size64
    ensures LastScanIndex(size, n, 0) == Size64 + size - n
    ensures size < LastScanIndex(size, n, 0)
  {
  }

  /** `findLastOf` on an empty string starts its counter at `0 - 1`, that is, at `SIZE_MAX`. */
  lemma LastOfScanStartsOff()
    ensures LastScanIndex(0, 1, 0) == NPos
  {
  }

  /** The same for `findLastOf`, whose counter starts at `size - 1`. */
  lemma LastOfScanRunsOff(size: nat)
    requires 0 < size < NPos
    ensures LastScanIndex(size, 1, size - 1) == 0
    ensures LastScanIndex(size, 1, size) == NPos
  {
  }
}
