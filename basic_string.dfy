/**
 * `TAS::BasicString<CharType, BlockSize>`: a growable character buffer with
 * a logical size, an allocated capacity and an owned array. `CharType` is
 * `char` here and `BlockSize` is the per-object constant `blockSize`.
 */
module Strings {
  import opened SizeT
  import opened Errors
  import opened StringSpec
  import opened StringIterators

  /** `cStringLength`: counts the characters before the first NUL of a C string. */
  method CStringLength(str: seq<char>) returns (count: nat)
    requires exists k :: 0 <= k < |str| && str[k] == '\0'
    ensures count < |str| && str[count] == '\0'
    ensures forall k :: 0 <= k < count ==> str[k] != '\0'
  {
    count := 0;
    while str[count] != '\0'
      invariant exists k :: count <= k < |str| && str[k] == '\0'
      invariant forall k :: 0 <= k < count ==> str[k] != '\0'
      decreases |str| - count
    {
      count := count + 1;
    }
  }

  /** `memoryCopy`: copies the first `n` elements of `source` to the front of `destination`. */
  method MemoryCopy(destination: array<char>, source: seq<char>, n: nat)
    requires n <= destination.Length && n <= |source|
    modifies destination
    ensures destination[..n] == source[..n]
    ensures destination[n..] == old(destination[n..])
  {
    var i := 0;
    while i < n
      invariant 0 <= i <= n
      invariant destination[..i] == source[..i]
      invariant destination[n..] == old(destination[n..])
    {
      destination[i] := source[i];
      i := i + 1;
    }
  }

  /** The copy loop of `append(str)`: writes `source` into `destination` from `offset` on. */
  method CopyAt(destination: array<char>, offset: nat, source: seq<char>)
    requires offset + |source| <= destination.Length
    modifies destination
    ensures destination[..offset] == old(destination[..offset])
    ensures destination[offset..offset + |source|] == source
  {
    var i := 0;
    while i < |source|
      invariant 0 <= i <= |source|
      invariant destination[..offset] == old(destination[..offset])
      invariant destination[offset..offset + i] == source[..i]
    {
      destination[offset + i] := source[i];
      i := i + 1;
    }
  }

  /** The fill loops of `resize`: writes `c` into the slots `from` up to `to`. */
  method FillRange(destination: array<char>, from: nat, to: nat, c: char)
    requires from <= to <= destination.Length
    modifies destination
    ensures destination[..from] == old(destination[..from])
    ensures destination[from..to] == seq(to - from, _ => c)
    ensures destination[to..] == old(destination[to..])
  {
    var i := from;
    while i < to
      invariant from <= i <= to
      invariant destination[..from] == old(destination[..from])
      invariant forall k :: from <= k < i ==> destination[k] == c
      invariant destination[to..] == old(destination[to..])
    {
      destination[i] := c;
      i := i + 1;
    }
  }

  class BasicString {
    var size: nat
    var capacity: nat
    var data: array<char>
    const blockSize: nat

    /** The size fits the buffer, which is exactly `capacity` long and never empty; `size_t` bounds every count. */
    ghost predicate Valid()
      reads this
    {
      && 0 < blockSize < NPos
      && 0 < capacity
      && size <= capacity < NPos
      && data.Length == capacity
    }

    /** The characters of the string: the first `size` slots of the buffer. */
    ghost function Contents(): seq<char>
      reads this, data
      requires Valid()
    {
      data[..size]
    }

    /** A string of `n` characters still leaves room for one more block below `SIZE_MAX`. */
    predicate Addressable(n: nat) {
      n + blockSize < NPos
    }

    /** `BasicString()`: empty, one block allocated. */
    constructor Empty(blockSize: nat)
      requires 0 < blockSize < NPos
      ensures Valid() && fresh(data)
      ensures this.blockSize == blockSize
      ensures Contents() == [] && capacity == blockSize
    {
      this.blockSize := blockSize;
      size := 0;
      capacity := blockSize;
      data := new char[blockSize](_ => '\0');
    }

    /** `BasicString(CharType const *)`: the characters of a NUL-terminated string. */
    constructor FromCString(blockSize: nat, str: seq<char>)
      requires 0 < blockSize
      requires exists k :: 0 <= k < |str| && str[k] == '\0'
      requires |str| + blockSize < NPos
      ensures Valid() && fresh(data) && this.blockSize == blockSize
      ensures size < |str| && Contents() == str[..size] && str[size] == '\0'
      ensures '\0' !in Contents()
      ensures capacity == BlockRound(size, blockSize)
    {
      this.blockSize := blockSize;
      var n := CStringLength(str);
      size := n;
      capacity := BlockRound(n, blockSize);
      new;
      data := new char[capacity](_ => '\0');
      MemoryCopy(data, str, n);
    }

    /** `BasicString(std::basic_string const &)`: the characters of a sequence. */
    constructor FromSeq(blockSize: nat, str: seq<char>)
      requires 0 < blockSize
      requires |str| + blockSize < NPos
      ensures Valid() && fresh(data) && this.blockSize == blockSize
      ensures Contents() == str
      ensures capacity == BlockRound(|str|, blockSize)
    {
      this.blockSize := blockSize;
      size := |str|;
      capacity := BlockRound(|str|, blockSize);
      new;
      data := new char[capacity](_ => '\0');
      MemoryCopy(data, str, |str|);
    }

    /** `BasicString(chr, n)`: `n` copies of `chr`. */
    constructor Filled(blockSize: nat, chr: char, n: nat)
      requires 0 < blockSize
      requires n + blockSize < NPos
      ensures Valid() && fresh(data) && this.blockSize == blockSize
      ensures Contents() == seq(n, _ => chr)
      ensures capacity == BlockRound(n, blockSize)
    {
      this.blockSize := blockSize;
      size := n;
      capacity := BlockRound(n, blockSize);
      new;
      data := new char[capacity](_ => '\0');
      Fill(chr);
    }

    /** `BasicString(chr)`: the one-character string, in one block. */
    constructor FromChar(blockSize: nat, chr: char)
      requires 0 < blockSize < NPos
      ensures Valid() && fresh(data) && this.blockSize == blockSize
      ensures Contents() == [chr] && capacity == blockSize
    {
      this.blockSize := blockSize;
      size := 1;
      capacity := blockSize;
      new;
      data := new char[blockSize](_ => '\0');
      Fill(chr);
    }

    /** The copy constructor: same size, same capacity, a buffer of its own. */
    constructor Copy(str: BasicString)
      requires str.Valid()
      ensures Valid() && fresh(data) && blockSize == str.blockSize
      ensures Contents() == str.Contents() && capacity == str.capacity
    {
      blockSize := str.blockSize;
      size := str.size;
      capacity := str.capacity;
      new;
      data := new char[str.capacity](_ => '\0');
      MemoryCopy(data, str.data[..str.size], str.size);
    }

    /**
     * `operator=(BasicString const &)` and `assign`: drops the buffer and
     * copies size, capacity and characters from `str`.
     */
    method Assign(str: BasicString)
      requires Valid() && str.Valid() && str.blockSize == blockSize
      requires str != this
      modifies this
      ensures Valid() && fresh(data)
      ensures Contents() == old(str.Contents()) && capacity == old(str.capacity)
    {
      size := str.size;
      capacity := str.capacity;
      data := new char[str.capacity](_ => '\0');
      MemoryCopy(data, str.data[..str.size], str.size);
    }

    /** `at(index)`: the character, or `out_of_range` past the end. */
    method At(index: nat) returns (r: Result<char>)
      requires Valid() && index < Size64
      ensures r.Err? <==> size <= index
      ensures r.Err? ==> r.error == OutOfRange
      ensures r.Ok? ==> r.value == Contents()[index]
    {
      if index >= size {
        return Err(OutOfRange);
      }
      return Ok(data[index]);
    }

    /** Writing through the reference `at(index)` returns. */
    method SetAt(index: nat, chr: char) returns (r: Outcome)
      requires Valid() && index < Size64
      modifies data
      ensures Valid()
      ensures r == (if index < size then Pass else Fail(OutOfRange))
      ensures Contents() == if index < size then old(Contents())[index := chr] else old(Contents())
    {
      if index >= size {
        return Fail(OutOfRange);
      }
      data[index] := chr;
      return Pass;
    }

    /** `operator[](index)`: unchecked; the caller keeps the index inside the buffer. */
    function Get(index: nat): (c: char)
      reads this, data
      requires Valid() && index < capacity
      ensures index < size ==> c == Contents()[index]
    {
      data[index]
    }

    /** `front()`: slot 0, which every constructor allocates; inside the size it is the first character. */
    function Front(): (c: char)
      reads this, data
      requires Valid()
      ensures 0 < size ==> c == Contents()[0]
    {
      data[0]
    }

    /** `back()` */
    function Back(): (c: char)
      reads this, data
      requires Valid() && 0 < size
      ensures c == Contents()[|Contents()| - 1]
    {
      data[size - 1]
    }

    /** `empty()` */
    function IsEmpty(): (b: bool)
      reads this, data
      requires Valid()
      ensures b <==> Contents() == []
    {
      size == 0
    }

    /** `size()` and `length()` */
    function Size(): (n: nat)
      reads this, data
      requires Valid()
      ensures n == |Contents()|
    {
      size
    }

    /** `capacity()`: the allocated length, never below the size. */
    function Capacity(): (n: nat)
      reads this, data
      requires Valid()
      ensures |Contents()| <= n == data.Length
    {
      capacity
    }

    /** `begin()` and `cbegin()`: a forward cursor at the first character. */
    method Begin(readOnly: bool) returns (it: StringIterator)
      ensures fresh(it) && it.pos == 0 && !it.reverse && it.readOnly == readOnly
    {
      it := new StringIterator.At(0, false, readOnly);
    }

    /** `end()` and `cend()`: a forward cursor one past the last character. */
    method End(readOnly: bool) returns (it: StringIterator)
      ensures fresh(it) && it.pos == size && !it.reverse && it.readOnly == readOnly
    {
      it := new StringIterator.At(size, false, readOnly);
    }

    /** `rbegin()` and `crbegin()`: a reverse cursor at the last character. */
    method RBegin(readOnly: bool) returns (it: StringIterator)
      ensures fresh(it) && it.pos == size - 1 && it.reverse && it.readOnly == readOnly
    {
      it := new StringIterator.At(size - 1, true, readOnly);
    }

    /** `reserve(newCapacity)`: grows the buffer to `newCapacity` if that is larger; never shrinks. */
    method Reserve(newCapacity: nat)
      requires Valid() && newCapacity < NPos
      modifies this
      ensures Valid()
      ensures size == old(size) && Contents() == old(Contents())
      ensures capacity == Max(old(capacity), newCapacity)
      ensures if old(capacity) < newCapacity then fresh(data) else data == old(data)
    {
      if newCapacity > capacity {
        capacity := newCapacity;
        var tmp := new char[newCapacity](_ => '\0');
        MemoryCopy(tmp, data[..size], size);
        data := tmp;
      }
    }

    /** `clear()`: a non-empty string gets a fresh one-block buffer; an empty one is left alone. */
    method Clear()
      requires Valid()
      modifies this
      ensures Valid() && Contents() == []
      ensures old(size) > 0 ==> capacity == blockSize && fresh(data)
      ensures old(size) == 0 ==> capacity == old(capacity) && data == old(data)
    {
      if size > 0 {
        size := 0;
        data := new char[blockSize](_ => '\0');
        capacity := blockSize;
      }
    }

    /** `fill(ch)`: overwrites every character. */
    method Fill(ch: char)
      requires Valid()
      modifies data
      ensures Valid()
      ensures Contents() == seq(size, _ => ch)
      ensures data[size..] == old(data[size..])
    {
      var i := 0;
      while i < size
        invariant 0 <= i <= size
        invariant forall k :: 0 <= k < i ==> data[k] == ch
        invariant data[size..] == old(data[size..])
      {
        data[i] := ch;
        i := i + 1;
      }
    }

    /** `append(chr)` and `pushBack(chr)`: a full buffer grows by one block first. */
    method AppendChar(chr: char)
      requires Valid() && Addressable(size)
      modifies this, data
      ensures Valid()
      ensures Contents() == old(Contents()) + [chr]
      ensures capacity == if old(size) == old(capacity) then old(capacity) + blockSize else old(capacity)
      ensures data == old(data) || fresh(data)
    {
      if size == capacity {
        Reserve(size + blockSize);
      }
      data[size] := chr;
      size := size + 1;
    }

    /**
     * `append(str)` and `pushBack(str)`, with the reserve rounding up the
     * total `size + str.size()`. The characters of `str` are read before
     * any is written, which is what the source's loop sees as well, since
     * it writes only at and after the old size.
     */
    method Append(str: BasicString)
      requires Valid() && str.Valid() && Addressable(size + str.size)
      modifies this, data
      ensures Valid()
      ensures Contents() == old(Contents()) + old(str.Contents())
      ensures capacity == AppendCapacity(old(size), old(capacity), old(str.size), blockSize)
      ensures data == old(data) || fresh(data)
    {
      var n := str.size;
      var source := str.data[..n];
      if size + n > capacity {
        Reserve(BlockRound(size + n, blockSize));
      }
      ghost var before := Contents();
      CopyAt(data, size, source);
      size := size + n;
      assert Contents() == before + source;
    }

    /** `operator+(chr)`: a copy with `chr` appended. */
    method PlusChar(chr: char) returns (res: BasicString)
      requires Valid() && Addressable(size)
      ensures fresh(res) && fresh(res.data) && res.Valid() && res.blockSize == blockSize
      ensures res.Contents() == Contents() + [chr]
    {
      res := new BasicString.Copy(this);
      res.AppendChar(chr);
    }

    /** `operator+(str)`: a copy with `str` appended. */
    method Plus(str: BasicString) returns (res: BasicString)
      requires Valid() && str.Valid() && Addressable(size + str.size)
      ensures fresh(res) && fresh(res.data) && res.Valid() && res.blockSize == blockSize
      ensures res.Contents() == Contents() + str.Contents()
    {
      res := new BasicString.Copy(this);
      res.Append(str);
    }

    /** `operator+=(str)`: appends, and returns a copy of the result. */
    method PlusAssign(str: BasicString) returns (res: BasicString)
      requires Valid() && str.Valid() && Addressable(size + str.size)
      modifies this, data
      ensures Valid() && Contents() == old(Contents()) + old(str.Contents())
      ensures fresh(res) && res.Valid() && res.Contents() == Contents()
    {
      Append(str);
      res := new BasicString.Copy(this);
    }

    /**
     * `span(first, last)`: the reverse branch when `last < first`, the empty
     * string when they are equal, the forward branch otherwise.
     */
    method Span(first: nat, last: nat) returns (res: BasicString)
      requires Valid() && first < Size64 && last < Size64 && Addressable(size)
      ensures fresh(res) && fresh(res.data) && res.Valid() && res.blockSize == blockSize
      ensures res.Contents() == SpanOf(Contents(), first, last)
    {
      if last < first {
        res := ReverseSpan(first, last);
      } else if last == first {
        res := new BasicString.Empty(blockSize);
      } else {
        res := ForwardSpan(first, last);
      }
    }

    /**
     * The reverse branch of `span`: converts the forward cursor at
     * `min(first, size) - 1` into a const reverse cursor and walks it down
     * to `last`, comparing against `cbegin() + last` converted the same way.
     */
    method ReverseSpan(first: nat, last: nat) returns (res: BasicString)
      requires Valid() && first < Size64 && last < first && Addressable(size)
      ensures fresh(res) && fresh(res.data) && res.Valid() && res.blockSize == blockSize
      ensures res.Contents() == SpanOf(Contents(), first, last)
    {
      var hi := if first <= size then first else size;
      var begin := Begin(true);
      var start := begin.Plus(hi);
      start := start.Minus(1);
      var i := new StringIterator.Convert(start, true, true);
      var bound := begin.Plus(last);
      var stop := new StringIterator.Convert(bound, true, true);
      res := CollectReverse(i, stop);
    }

    /** The loop of the reverse branch of `span`: copies the characters from `i` down to `stop`. */
    method CollectReverse(i: StringIterator, stop: StringIterator) returns (res: BasicString)
      requires Valid() && Addressable(size)
      requires i != stop && i.reverse && stop.reverse && -1 <= i.pos < size && 0 <= stop.pos
      modifies i
      ensures fresh(res) && fresh(res.data) && res.Valid() && res.blockSize == blockSize
      ensures res.Contents() == if stop.pos <= old(i.pos) then Reversed(Contents()[stop.pos..old(i.pos) + 1]) else []
    {
      res := new BasicString.Empty(blockSize);
      ghost var s := Contents();
      ghost var hi := i.pos + 1;
      while i.LessEq(stop)
        invariant fresh(res) && fresh(res.data) && res.Valid() && res.blockSize == blockSize
        invariant -1 <= i.pos < hi
        invariant stop.pos <= hi ==> stop.pos - 1 <= i.pos
        invariant hi <= stop.pos ==> i.pos == hi - 1
        invariant res.size == hi - 1 - i.pos
        invariant res.Contents() == Reversed(s[i.pos + 1..hi])
        decreases i.pos + 1
      {
        ReversedGrows(s, i.pos, hi);
        res.AppendChar(i.Deref(data));
        i.Increment();
      }
      if hi <= stop.pos {
        assert s[i.pos + 1..hi] == [];
      }
    }

    /** The forward branch of `span`: walks a const cursor from `first` up to `min(last, size)`. */
    method ForwardSpan(first: nat, last: nat) returns (res: BasicString)
      requires Valid() && first < last < Size64 && Addressable(size)
      ensures fresh(res) && fresh(res.data) && res.Valid() && res.blockSize == blockSize
      ensures res.Contents() == SpanOf(Contents(), first, last)
    {
      var begin := Begin(true);
      var i := begin.Plus(first);
      var stop;
      if last >= size {
        stop := End(true);
      } else {
        stop := begin.Plus(last);
      }
      res := CollectForward(i, stop);
      SpanClampsLast(Contents(), first, last);
    }

    /** The loop of the forward branch of `span`: copies the characters from `i` up to `stop`. */
    method CollectForward(i: StringIterator, stop: StringIterator) returns (res: BasicString)
      requires Valid() && Addressable(size)
      requires i != stop && !i.reverse && !stop.reverse && 0 <= i.pos && 0 <= stop.pos <= size
      modifies i
      ensures fresh(res) && fresh(res.data) && res.Valid() && res.blockSize == blockSize
      ensures res.Contents() == SpanOf(Contents(), old(i.pos), Max(old(i.pos), stop.pos))
    {
      res := new BasicString.Empty(blockSize);
      ghost var s := Contents();
      ghost var first: nat := i.pos;
      while i.Less(stop)
        invariant fresh(res) && fresh(res.data) && res.Valid() && res.blockSize == blockSize
        invariant first <= i.pos
        invariant first < stop.pos ==> i.pos <= stop.pos
        invariant stop.pos <= first ==> i.pos == first
        invariant res.size == i.pos - first
        invariant res.Contents() == SpanOf(s, first, i.pos)
        decreases stop.pos - i.pos
      {
        SpanGrows(s, first, i.pos);
        res.AppendChar(i.Deref(data));
        i.Increment();
      }
    }

    /** `subString(first, n)`: `span(first, first + n)`, the signed `int` length added into a `size_t`. */
    method SubString(first: nat, n: int) returns (res: BasicString)
      requires Valid() && first < Size64 && -0x8000_0000 <= n < 0x8000_0000 && Addressable(size)
      ensures fresh(res) && fresh(res.data) && res.Valid() && res.blockSize == blockSize
      ensures res.Contents() == SubStringOf(Contents(), first, n)
    {
      res := Span(first, Wrap(first + n));
    }

    // ------------------------------------------------------------ editing

    /** `insert(chr, index)`: assigns `span(0, index)`, then `chr`, then `span(index)`. */
    method InsertChar(chr: char, index: nat)
      requires Valid() && index < Size64 && Addressable(size + 1)
      modifies this
      ensures Valid() && Contents() == InsertOf(old(Contents()), [chr], index)
    {
      var head := Span(0, index);
      head.AppendChar(chr);
      var tail := Span(index, NPos);
      head.Append(tail);
      Assign(head);
    }

    /** `insert(str, index)`: assigns `span(0, index)`, then `str`, then `span(index)`. */
    method InsertString(str: BasicString, index: nat)
      requires Valid() && str.Valid() && index < Size64 && Addressable(size + str.size)
      modifies this
      ensures Valid() && Contents() == InsertOf(old(Contents()), old(str.Contents()), index)
    {
      var head := Span(0, index);
      head.Append(str);
      var tail := Span(index, NPos);
      head.Append(tail);
      Assign(head);
    }

    /** `eraseSpan(first, last)`: assigns `span(0, first) + span(last)`. */
    method EraseSpan(first: nat, last: nat)
      requires Valid() && first < Size64 && last < Size64 && Addressable(2 * size)
      modifies this
      ensures Valid() && Contents() == EraseSpanOf(old(Contents()), first, last)
    {
      var head := Span(0, first);
      var tail := Span(last, NPos);
      var joined := head.Plus(tail);
      Assign(joined);
    }

    /** `eraseSubString(first, n)`: assigns `span(0, first) + span(first + n)`. */
    method EraseSubString(first: nat, n: nat)
      requires Valid() && first < Size64 && n < Size64 && Addressable(2 * size)
      modifies this
      ensures Valid() && Contents() == EraseSubStringOf(old(Contents()), first, n)
    {
      var head := Span(0, first);
      var tail := Span(Wrap(first + n), NPos);
      var joined := head.Plus(tail);
      Assign(joined);
    }

    /** `popBack()`: `eraseSubString(size - 1)`. */
    method PopBack()
      requires Valid() && Addressable(2 * size)
      modifies this
      ensures Valid() && Contents() == PopBackOf(old(Contents()))
    {
      EraseSubString(Wrap(size - 1), 1);
    }

    /** `replaceSpan(str, first, last)`: assigns `span(0, first) + str + span(last)`. */
    method ReplaceSpan(str: BasicString, first: nat, last: nat)
      requires Valid() && str.Valid() && first < Size64 && last < Size64
      requires Addressable(2 * size + str.size)
      modifies this
      ensures Valid() && Contents() == ReplaceSpanOf(old(Contents()), old(str.Contents()), first, last)
    {
      var head := Span(0, first);
      var tail := Span(last, NPos);
      var middle := head.Plus(str);
      var joined := middle.Plus(tail);
      Assign(joined);
    }

    /** `replaceSubString(str, first, n)`: assigns `span(0, first) + str + span(first + n)`. */
    method ReplaceSubString(str: BasicString, first: nat, n: nat)
      requires Valid() && str.Valid() && first < Size64 && n < Size64
      requires Addressable(2 * size + str.size)
      modifies this
      ensures Valid() && Contents() == ReplaceSubStringOf(old(Contents()), old(str.Contents()), first, n)
    {
      var head := Span(0, first);
      var tail := Span(Wrap(first + n), NPos);
      var middle := head.Plus(str);
      var joined := middle.Plus(tail);
      Assign(joined);
    }

    /**
     * `resize(newSize, fill)`: growing reserves `newSize` rounded up past a
     * block boundary and fills the new slots; shrinking zeroes the dropped ones.
     */
    method Resize(newSize: nat, fill: char)
      requires Valid() && Addressable(newSize)
      modifies this, data
      ensures Valid() && Contents() == ResizeOf(old(Contents()), newSize, fill)
      ensures old(size) < newSize ==> capacity == Max(old(capacity), BlockRound(newSize, blockSize))
      ensures newSize <= old(size) ==> data == old(data) && data[newSize..old(size)] == seq(old(size) - newSize, _ => '\0')
    {
      if newSize > size {
        Reserve(BlockRound(newSize, blockSize));
        FillRange(data, size, newSize, fill);
      } else {
        FillRange(data, newSize, size, '\0');
      }
      size := newSize;
    }

    /** `swap(other)`: exchanges size, capacity and buffer. */
    method Swap(other: BasicString)
      requires Valid() && other.Valid() && other.blockSize == blockSize
      modifies this, other
      ensures Valid() && other.Valid()
      ensures Contents() == old(other.Contents()) && other.Contents() == old(Contents())
      ensures capacity == old(other.capacity) && other.capacity == old(capacity)
    {
      size, other.size := other.size, size;
      capacity, other.capacity := other.capacity, capacity;
      data, other.data := other.data, data;
    }

    // ------------------------------------------------------------ comparing and searching

    /**
     * `startsWith(str)`: compares the first `str.size()` slots of the buffer,
     * which are characters of the string only when `str` is not longer.
     */
    method StartsWith(str: BasicString) returns (b: bool)
      requires Valid() && str.Valid() && str.size <= capacity
      ensures b <==> data[..str.size] == str.Contents()
      ensures str.size <= size ==> (b <==> str.Contents() <= Contents())
    {
      var i := 0;
      while i < str.size
        invariant 0 <= i <= str.size
        invariant data[..i] == str.data[..i]
      {
        if data[i] != str.data[i] {
          assert data[..str.size][i] != str.Contents()[i];
          return false;
        }
        i := i + 1;
      }
      return true;
    }

    /** `endsWith(str)`: compares the last `str.size()` characters. */
    method EndsWith(str: BasicString) returns (b: bool)
      requires Valid() && str.Valid() && str.size <= size
      ensures b <==> Contents()[size - str.size..] == str.Contents()
    {
      var offset := size - str.size;
      var i := 0;
      while i < str.size
        invariant 0 <= i <= str.size
        invariant data[offset..offset + i] == str.data[..i]
      {
        if data[offset + i] != str.data[i] {
          assert Contents()[offset..][i] != str.Contents()[i];
          return false;
        }
        i := i + 1;
      }
      assert Contents()[offset..] == data[offset..offset + str.size];
      return true;
    }

    /** The inner loop of `contains`, `findFirst` and `findLast`: every character of the window is compared. */
    method WindowMatches(str: BasicString, i: nat) returns (res: bool)
      requires Valid() && str.Valid() && i + str.size <= size
      ensures res <==> MatchAt(Contents(), str.Contents(), i)
    {
      res := true;
      var j := 0;
      while j < str.size
        invariant 0 <= j <= str.size
        invariant res <==> data[i..i + j] == str.data[..j]
      {
        if data[i + j] != str.data[j] {
          res := false;
        }
        assert data[i..i + j + 1] == data[i..i + j] + [data[i + j]];
        assert str.data[..j + 1] == str.data[..j] + [str.data[j]];
        j := j + 1;
      }
      assert Contents()[i..i + str.size] == data[i..i + str.size];
    }

    /**
     * `contains(str)`: tries every window start below `size - str.size() + 1`.
     * A needle longer than the string is reported absent up front (see the
     * findings on the wrapped bound).
     */
    method Contains(str: BasicString) returns (b: bool)
      requires Valid() && str.Valid()
      ensures b <==> exists j: nat :: MatchAt(Contents(), str.Contents(), j)
    {
      if str.size > size {
        return false;
      }
      ghost var s, sub := Contents(), str.Contents();
      var bound := size - str.size + 1;
      var i := 0;
      while i < bound
        invariant 0 <= i <= bound
        invariant FirstMatch(s, sub) == FirstMatchFrom(s, sub, i)
      {
        var found := WindowMatches(str, i);
        if found {
          return true;
        }
        i := i + 1;
      }
      return false;
    }

    /** `operator==` and `equals`: equal sizes, and then `contains`. */
    method Equals(rhs: BasicString) returns (b: bool)
      requires Valid() && rhs.Valid()
      ensures b <==> Contents() == rhs.Contents()
    {
      b := size == rhs.size;
      if b {
        b := Contains(rhs);
        if Contents() == rhs.Contents() {
          assert MatchAt(Contents(), rhs.Contents(), 0);
        }
        if b {
          ghost var j: nat :| MatchAt(Contents(), rhs.Contents(), j);
          assert Contents()[j..j + size] == Contents();
        }
      }
    }

    /** `operator!=`: the negation of `operator==`. */
    method NotEqual(rhs: BasicString) returns (b: bool)
      requires Valid() && rhs.Valid()
      ensures b <==> Contents() != rhs.Contents()
    {
      b := Equals(rhs);
      b := !b;
    }

    /** `findFirst(str)`: the least window start that matches, or `nPos`. */
    method FindFirst(str: BasicString) returns (r: nat)
      requires Valid() && str.Valid()
      ensures r == FirstMatch(Contents(), str.Contents())
    {
      if str.size > size {
        return NPos;
      }
      ghost var s, sub := Contents(), str.Contents();
      var bound := size - str.size + 1;
      var i := 0;
      while i < bound
        invariant 0 <= i <= bound
        invariant FirstMatch(s, sub) == FirstMatchFrom(s, sub, i)
      {
        var found := WindowMatches(str, i);
        if found {
          return i;
        }
        i := i + 1;
      }
      return NPos;
    }

    /**
     * `findLast(str)`: window starts from `size - str.size()` down to 0, then
     * `nPos`; a needle longer than the string has no window and gives `nPos`.
     */
    method FindLast(str: BasicString) returns (r: nat)
      requires Valid() && str.Valid()
      ensures r == LastMatch(Contents(), str.Contents())
    {
      if str.size > size {
        return NPos;
      }
      ghost var s, sub := Contents(), str.Contents();
      var i := size - str.size + 1;
      while i > 0
        invariant 0 <= i <= size - str.size + 1
        invariant forall j: nat :: i <= j ==> !MatchAt(s, sub, j)
      {
        i := i - 1;
        var found := WindowMatches(str, i);
        if found {
          LastMatchIs(s, sub, i);
          return i;
        }
      }
      return NPos;
    }

    /** The inner loop of `findFirstOf` and `findLastOf`: is `c` one of the characters of `str`? */
    method OneOf(c: char, str: BasicString) returns (b: bool)
      requires str.Valid()
      ensures b <==> c in str.Contents()
    {
      var j := 0;
      while j < str.size
        invariant 0 <= j <= str.size
        invariant c !in str.data[..j]
      {
        if c == str.data[j] {
          assert str.Contents()[j] == c;
          return true;
        }
        assert str.data[..j + 1] == str.data[..j] + [str.data[j]];
        j := j + 1;
      }
      return false;
    }

    /** `findFirstOf(str)`: the least index whose character occurs in `str`, or `nPos`. */
    method FindFirstOf(str: BasicString) returns (r: nat)
      requires Valid() && str.Valid()
      ensures r == FirstOf(Contents(), str.Contents())
    {
      ghost var s, chars := Contents(), str.Contents();
      var i := 0;
      while i < size
        invariant 0 <= i <= size
        invariant FirstOf(s, chars) == FirstOfFrom(s, chars, i)
      {
        var found := OneOf(data[i], str);
        if found {
          return i;
        }
        i := i + 1;
      }
      return NPos;
    }

    /** `findLastOf(str)`: indices from `size - 1` down to 0, then `nPos`. */
    method FindLastOf(str: BasicString) returns (r: nat)
      requires Valid() && str.Valid()
      ensures r == LastOf(Contents(), str.Contents())
    {
      ghost var s, chars := Contents(), str.Contents();
      var i := size;
      while i > 0
        invariant 0 <= i <= size
        invariant LastOf(s, chars) == LastOfBelow(s, chars, i)
      {
        i := i - 1;
        assert data[i] == s[i];
        var found := OneOf(data[i], str);
        if found {
          return i;
        }
      }
      return NPos;
    }
  }
}
