/**
 * `TAS::Iterator<T>`: a wrapper around one pointer. The pointer is its
 * element offset `pos` from the start of the buffer it walks; steps are
 * `size_t` counts and `disctance` returns the library's own `ptrdiff_t`,
 * an `unsigned int`, that is, the difference taken modulo 2^32.
 */
module Iterators {
  import opened SizeT

  /** `unsigned int`: 32 bits. */
  const UInt32: nat := 0x1_0000_0000

  /** The pointer difference `rhs - this` converted to a 32-bit `unsigned int`. */
  function Unsigned32(x: int): (r: nat)
    ensures r < UInt32
    ensures 0 <= x < UInt32 ==> r == x
    ensures (r - x) % UInt32 == 0
  {
    x % UInt32
  }

  class Iterator {
    var pos: int

    /** `Iterator(T *ptr)` */
    constructor At(pos: int)
      ensures this.pos == pos
    {
      this.pos := pos;
    }

    /** `Iterator(const Iterator<T> &)`: the same pointer. */
    constructor Copy(other: Iterator)
      ensures pos == other.pos
    {
      pos := other.pos;
    }

    /** `advance(n)`: `n` elements forward. */
    method Advance(n: nat)
      requires n < Size64
      modifies this
      ensures pos - old(pos) == n
    {
      pos := pos + n;
    }

    /** `retreat(n)`: `n` elements back. */
    method Retreat(n: nat)
      requires n < Size64
      modifies this
      ensures old(pos) - pos == n
    {
      pos := pos - n;
    }

    /** `next(n)` and `operator+=(n)`: advances and returns this cursor. */
    method Next(n: nat) returns (self: Iterator)
      requires n < Size64
      modifies this
      ensures self == this && pos - old(pos) == n
    {
      Advance(n);
      return this;
    }

    /** `prev(n)` and `operator-=(n)`: retreats and returns this cursor. */
    method Prev(n: nat) returns (self: Iterator)
      requires n < Size64
      modifies this
      ensures self == this && old(pos) - pos == n
    {
      Retreat(n);
      return this;
    }

    /** `operator++()` and `operator++(int)`: both step forward and return this cursor, already moved. */
    method Increment() returns (self: Iterator)
      modifies this
      ensures self == this && pos == old(pos) + 1
    {
      self := Next(1);
    }

    /** `operator--()` and `operator--(int)`: both step back and return this cursor, already moved. */
    method Decrement() returns (self: Iterator)
      modifies this
      ensures self == this && pos == old(pos) - 1
    {
      self := Prev(1);
    }

    /** `operator+(n)`: a new cursor `n` elements ahead. */
    method Plus(n: nat) returns (r: Iterator)
      requires n < Size64
      ensures fresh(r) && r.pos - pos == n
    {
      r := new Iterator.At(pos + n);
    }

    /** `operator-(n)` as written: it adds `n`, so it is the same cursor as `operator+(n)`. */
    method MinusAsWritten(n: nat) returns (r: Iterator)
      requires n < Size64
      ensures fresh(r) && r.pos - pos == n
    {
      r := new Iterator.At(pos + n);
    }

    /** `operator-(n)` as its name and `operator-=` intend: a new cursor `n` elements back. */
    method Minus(n: nat) returns (r: Iterator)
      requires n < Size64
      ensures fresh(r) && pos - r.pos == n
    {
      r := new Iterator.At(pos - n);
    }

    /** `disctance(rhs)`: `rhs - this` as a 32-bit `unsigned int`. */
    function Distance(rhs: Iterator): (d: nat)
      reads this, rhs
      ensures d < UInt32
      ensures 0 <= rhs.pos - pos < UInt32 ==> d == rhs.pos - pos
      ensures (d - (rhs.pos - pos)) % UInt32 == 0
    {
      Unsigned32(rhs.pos - pos)
    }

    /** `disctance(rhs)` as a signed difference, which the name and the other cursor classes intend. */
    function SignedDistance(rhs: Iterator): (d: int)
      reads this, rhs
      ensures pos + d == rhs.pos
    {
      rhs.pos - pos
    }

    /** `operator*`: the element under the cursor. */
    function Deref<T>(buffer: array<T>): (x: T)
      reads this, buffer
      requires 0 <= pos < buffer.Length
      ensures x == buffer[..][pos]
    {
      buffer[pos]
    }

    /** `operator==` */
    function Equal(rhs: Iterator): (b: bool)
      reads this, rhs
      ensures b <==> SignedDistance(rhs) == 0
    {
      pos == rhs.pos
    }

    /** `operator!=` */
    function NotEqual(rhs: Iterator): (b: bool)
      reads this, rhs
      ensures b <==> !Equal(rhs)
    {
      pos != rhs.pos
    }

    /** `operator<` */
    function Less(rhs: Iterator): (b: bool)
      reads this, rhs
      ensures b <==> 0 < SignedDistance(rhs)
    {
      pos < rhs.pos
    }

    /** `operator<=` */
    function LessEq(rhs: Iterator): (b: bool)
      reads this, rhs
      ensures b <==> Less(rhs) || Equal(rhs)
    {
      pos <= rhs.pos
    }

    /** `operator>` */
    function Greater(rhs: Iterator): (b: bool)
      reads this, rhs
      ensures b <==> rhs.Less(this)
    {
      pos > rhs.pos
    }

    /** `operator>=` */
    function GreaterEq(rhs: Iterator): (b: bool)
      reads this, rhs
      ensures b <==> !Less(rhs)
    {
      pos >= rhs.pos
    }
  }

  /** A walk from `start` reads, at its `n`-th step, element `n` of the buffer's tail from `start`. */
  lemma DerefWalks<T>(it: Iterator, buffer: array<T>, start: int, n: nat)
    requires 0 <= start && it.pos == start + n < buffer.Length
    ensures it.Deref(buffer) == buffer[start..][n]
  {
  }

  /** A cursor one element behind another is 2^32 - 1 away by `disctance`, not -1. */
  lemma DistanceBackwardsWraps(a: Iterator, b: Iterator)
    requires b.pos == a.pos - 1
    ensures a.Distance(b) == UInt32 - 1
    ensures a.SignedDistance(b) == -1
  {
  }
}
