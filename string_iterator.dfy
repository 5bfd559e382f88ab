/**
 * The four cursor classes over a `BasicString` buffer: `StringIterator`,
 * `ConstStringIterator`, `ReverseStringIterator` and
 * `ConstReverseStringIterator`. Each wraps one pointer into the buffer; here
 * the pointer is its offset from the start of the buffer, and the class is a
 * pair of flags on one cursor class: which way it walks, and whether it may
 * write through the character it points at.
 */
module StringIterators {
  import opened SizeT
  import opened StringSpec

  /** Where `advance(n)` leaves a cursor at `pos`: forward cursors move up, reverse cursors move down. */
  function Stepped(pos: int, reverse: bool, n: int): int {
    if reverse then pos - n else pos + n
  }

  /** `p < q` as the cursor comparisons read it: reverse cursors invert the pointer order. */
  predicate Before(p: int, q: int, reverse: bool) {
    if reverse then q < p else p < q
  }

  /** What `disctance` returns: forward `rhs - this`, reverse `this - rhs`. */
  function Gap(from: int, to: int, reverse: bool): int {
    if reverse then from - to else to - from
  }

  /** `retreat(n)` undoes `advance(n)`, in both directions. */
  lemma RetreatUndoesAdvance(pos: int, reverse: bool, n: int)
    ensures Stepped(Stepped(pos, reverse, n), reverse, -n) == pos
  {
  }

  /** In both directions, advancing moves a cursor forward in the order its comparisons use. */
  lemma AdvanceMovesAhead(pos: int, reverse: bool, n: int)
    requires 0 < n
    ensures Before(pos, Stepped(pos, reverse, n), reverse)
    ensures !Before(Stepped(pos, reverse, n), pos, reverse)
  {
  }

  /** In both directions, the distance to the cursor `n` steps ahead is `n`. */
  lemma GapCountsSteps(pos: int, reverse: bool, n: int)
    ensures Gap(pos, Stepped(pos, reverse, n), reverse) == n
    ensures 0 < Gap(pos, Stepped(pos, reverse, n), reverse) <==> Before(pos, Stepped(pos, reverse, n), reverse)
  {
  }

  /** A reverse cursor's order is the forward order read backwards. */
  lemma ReverseOrderMirrors(p: int, q: int)
    ensures Before(p, q, true) == Before(q, p, false)
  {
  }

  class StringIterator {
    var pos: int
    const reverse: bool
    const readOnly: bool

    /** The pointer constructor of each of the four classes. */
    constructor At(pos: int, reverse: bool, readOnly: bool)
      ensures this.pos == pos && this.reverse == reverse && this.readOnly == readOnly
    {
      this.pos := pos;
      this.reverse := reverse;
      this.readOnly := readOnly;
    }

    /**
     * The converting and copy constructors: any cursor converts to a
     * read-only one and a writable cursor to either writable kind; every
     * conversion keeps the position.
     */
    constructor Convert(other: StringIterator, reverse: bool, readOnly: bool)
      requires readOnly || !other.readOnly
      ensures pos == other.pos && this.reverse == reverse && this.readOnly == readOnly
    {
      pos := other.pos;
      this.reverse := reverse;
      this.readOnly := readOnly;
    }

    /** `advance(n)` */
    method Advance(n: nat)
      requires n < Size64
      modifies this
      ensures pos == Stepped(old(pos), reverse, n)
    {
      pos := if reverse then pos - n else pos + n;
    }

    /** `retreat(n)` */
    method Retreat(n: nat)
      requires n < Size64
      modifies this
      ensures pos == Stepped(old(pos), reverse, 0 - n as int)
    {
      pos := if reverse then pos + n else pos - n;
    }

    /** `next(n)` and `operator+=(n)` */
    method Next(n: nat)
      requires n < Size64
      modifies this
      ensures pos == Stepped(old(pos), reverse, n)
    {
      Advance(n);
    }

    /** `prev(n)` and `operator-=(n)` */
    method Prev(n: nat)
      requires n < Size64
      modifies this
      ensures pos == Stepped(old(pos), reverse, 0 - n as int)
    {
      Retreat(n);
    }

    /** Prefix `operator++` */
    method Increment()
      modifies this
      ensures pos == Stepped(old(pos), reverse, 1)
    {
      Next(1);
    }

    /** Prefix `operator--` */
    method Decrement()
      modifies this
      ensures pos == Stepped(old(pos), reverse, -1)
    {
      Prev(1);
    }

    /** Postfix `operator++(int)`: returns a copy taken before the step. */
    method PostIncrement() returns (before: StringIterator)
      modifies this
      ensures fresh(before)
      ensures before.pos == old(pos) && before.reverse == reverse && before.readOnly == readOnly
      ensures pos == Stepped(old(pos), reverse, 1)
    {
      before := new StringIterator.At(pos, reverse, readOnly);
      Next(1);
    }

    /** Postfix `operator--(int)`: returns a copy taken before the step. */
    method PostDecrement() returns (before: StringIterator)
      modifies this
      ensures fresh(before)
      ensures before.pos == old(pos) && before.reverse == reverse && before.readOnly == readOnly
      ensures pos == Stepped(old(pos), reverse, -1)
    {
      before := new StringIterator.At(pos, reverse, readOnly);
      Prev(1);
    }

    /** `operator+(n)`: a new cursor `n` steps ahead; this one stays put. */
    method Plus(n: nat) returns (r: StringIterator)
      requires n < Size64
      ensures fresh(r)
      ensures r.pos == Stepped(pos, reverse, n) && r.reverse == reverse && r.readOnly == readOnly
    {
      r := new StringIterator.At(if reverse then pos - n else pos + n, reverse, readOnly);
    }

    /** `operator-(n)`: a new cursor `n` steps back; this one stays put. */
    method Minus(n: nat) returns (r: StringIterator)
      requires n < Size64
      ensures fresh(r)
      ensures r.pos == Stepped(pos, reverse, 0 - n as int) && r.reverse == reverse && r.readOnly == readOnly
    {
      r := new StringIterator.At(if reverse then pos + n else pos - n, reverse, readOnly);
    }

    /** `disctance(rhs)` and `operator-(rhs)`, as a signed `ptrdiff_t`. */
    function Distance(rhs: StringIterator): (d: int)
      reads this, rhs
      requires rhs.reverse == reverse
      ensures Stepped(pos, reverse, d) == rhs.pos
    {
      if reverse then pos - rhs.pos else rhs.pos - pos
    }

    /** `operator==` */
    function Equal(rhs: StringIterator): (b: bool)
      reads this, rhs
      requires rhs.reverse == reverse
      ensures b <==> Distance(rhs) == 0
    {
      pos == rhs.pos
    }

    /** `operator!=` */
    function NotEqual(rhs: StringIterator): (b: bool)
      reads this, rhs
      requires rhs.reverse == reverse
      ensures b <==> !Equal(rhs)
      ensures b <==> Distance(rhs) != 0
    {
      pos != rhs.pos
    }

    /** `operator<`: pointer order, inverted for reverse cursors. */
    function Less(rhs: StringIterator): (b: bool)
      reads this, rhs
      requires rhs.reverse == reverse
      ensures b <==> 0 < Distance(rhs)
    {
      if reverse then pos > rhs.pos else pos < rhs.pos
    }

    /** `operator<=`: pointer order, inverted for reverse cursors. */
    function LessEq(rhs: StringIterator): (b: bool)
      reads this, rhs
      requires rhs.reverse == reverse
      ensures b <==> 0 <= Distance(rhs)
      ensures b <==> Less(rhs) || Equal(rhs)
    {
      if reverse then pos >= rhs.pos else pos <= rhs.pos
    }

    /** `operator>`: pointer order, inverted for reverse cursors. */
    function Greater(rhs: StringIterator): (b: bool)
      reads this, rhs
      requires rhs.reverse == reverse
      ensures b <==> rhs.Less(this)
    {
      if reverse then pos < rhs.pos else pos > rhs.pos
    }

    /** `operator>=`: pointer order, inverted for reverse cursors. */
    function GreaterEq(rhs: StringIterator): (b: bool)
      reads this, rhs
      requires rhs.reverse == reverse
      ensures b <==> rhs.LessEq(this)
      ensures b <==> !Less(rhs)
    {
      if reverse then pos <= rhs.pos else pos >= rhs.pos
    }

    /**
     * `operator*`: the character under the cursor. A reverse cursor at `pos`
     * reads the buffer backwards: it is `buffer.Length - 1 - pos` steps into
     * the reversed buffer.
     */
    function Deref(buffer: array<char>): (c: char)
      reads this, buffer
      requires 0 <= pos < buffer.Length
      ensures c == buffer[..][pos]
      ensures reverse ==> c == Reversed(buffer[..])[buffer.Length - 1 - pos]
    {
      ReversedAt(buffer[..], buffer.Length - 1 - pos);
      buffer[pos]
    }
  }

  /**
   * A walk from `start` reads, at its `n`-th step, element `n` of the tail
   * from `start` for a forward cursor, and element `n` of the head up to
   * `start`, reversed, for a reverse cursor.
   */
  lemma DerefWalks(it: StringIterator, buffer: array<char>, start: int, n: nat)
    requires 0 <= start < buffer.Length && 0 <= it.pos < buffer.Length
    requires it.pos == Stepped(start, it.reverse, n)
    ensures !it.reverse ==> it.Deref(buffer) == buffer[start..][n]
    ensures it.reverse ==> it.Deref(buffer) == Reversed(buffer[..start + 1])[n]
  {
    if it.reverse {
      ReversedAt(buffer[..start + 1], n);
    }
  }
}
