/**
 * `TAS::Array<T, Size>`: a fixed-size array of `Size` value-initialised
 * elements with checked (`at`) and unchecked (`operator[]`) access. `Size`
 * is the per-object constant `size`; the value-initialised `T{}` is the
 * parameter `init` of the default constructor.
 */
module Arrays {
  import opened SizeT
  import opened Errors

  class FixedArray<T> {
    const size: nat
    const data: array<T>

    /** The storage is exactly `Size` elements long, and `Size` is a `size_t`. */
    ghost predicate Valid()
      reads this
    {
      data.Length == size && size < Size64
    }

    /** The elements, in order. */
    ghost function Elements(): seq<T>
      reads this, data
    {
      data[..]
    }

    /** `Array() = default`: every element value-initialised. */
    constructor Default(size: nat, init: T)
      requires size < Size64
      ensures Valid() && fresh(data) && this.size == size
      ensures Elements() == seq(size, _ => init)
    {
      this.size := size;
      data := new T[size](_ => init);
    }

    /** The element-wise body of `Array(std::initializer_list<T>)`, reached only once the length has been checked. */
    constructor FromList(list: seq<T>)
      requires |list| < Size64
      ensures Valid() && fresh(data) && size == |list|
      ensures Elements() == list
    {
      size := |list|;
      data := new T[|list|](i requires 0 <= i < |list| => list[i]);
    }

    /** `Array(std::initializer_list<T>)`: `out_of_range` unless the list has exactly `Size` elements. */
    static method Make(size: nat, list: seq<T>) returns (r: Result<FixedArray<T>>)
      requires size < Size64
      ensures r.Err? <==> |list| != size
      ensures r.Err? ==> r.error == OutOfRange
      ensures r.Ok? ==> fresh(r.value) && fresh(r.value.data) && r.value.Valid()
      ensures r.Ok? ==> r.value.size == size && r.value.Elements() == list
    {
      if |list| != size {
        return Err(OutOfRange);
      }
      var a := new FixedArray.FromList(list);
      return Ok(a);
    }

    /** `at(index)`: the element, or `out_of_range` past the end. */
    method At(index: nat) returns (r: Result<T>)
      requires Valid() && index < Size64
      ensures r.Err? <==> size <= index
      ensures r.Err? ==> r.error == OutOfRange
      ensures r.Ok? ==> r.value == Elements()[index] == Get(index)
    {
      if index >= size {
        return Err(OutOfRange);
      }
      return Ok(data[index]);
    }

    /** Writing through the reference `at(index)` returns; past the end nothing is written. */
    method SetAt(index: nat, value: T) returns (r: Outcome)
      requires Valid() && index < Size64
      modifies data
      ensures r == (if index < size then Pass else Fail(OutOfRange))
      ensures Elements() == if index < size then old(Elements())[index := value] else old(Elements())
    {
      if index >= size {
        return Fail(OutOfRange);
      }
      data[index] := value;
      return Pass;
    }

    /** `operator[](index)`: unchecked, so only an index inside the array is defined. */
    function Get(index: nat): (v: T)
      reads this, data
      requires Valid() && index < size
      ensures v == Elements()[index]
    {
      data[index]
    }

    /** Writing through the reference `operator[](index)` returns. */
    method Set(index: nat, value: T)
      requires Valid() && index < size
      modifies data
      ensures Elements() == old(Elements())[index := value]
    {
      data[index] := value;
    }

    /** `front()`: the first element; unchecked, so the array must not be empty. */
    function Front(): (v: T)
      reads this, data
      requires Valid() && 0 < size
      ensures v == Elements()[0]
    {
      data[0]
    }

    /** `back()`: the element at `Size - 1`; unchecked, so the array must not be empty. */
    function Back(): (v: T)
      reads this, data
      requires Valid() && 0 < size
      ensures v == Elements()[|Elements()| - 1]
    {
      data[size - 1]
    }

    /** `empty()`: `!Size`. */
    function IsEmpty(): (b: bool)
      reads this, data
      requires Valid()
      ensures b <==> Elements() == []
    {
      size == 0
    }

    /** `size()`: the template parameter `Size`. */
    function Size(): (n: nat)
      reads this, data
      requires Valid()
      ensures n == |Elements()|
    {
      size
    }

    /** `max_size()`: the same as `size()`, since the array never grows. */
    function MaxSize(): (n: nat)
      reads this, data
      requires Valid()
      ensures n == Size() && n == |Elements()|
    {
      Size()
    }

    /** `begin()` and `cbegin()`: the offset of the first element. */
    function Begin(): (p: nat)
      reads this, data
      requires Valid()
      ensures 0 < size ==> p < size && Elements()[p] == Front()
    {
      0
    }

    /** `end()` and `cend()`: one past the last element, so `end() - begin()` is the element count. */
    function End(): (p: nat)
      reads this, data
      requires Valid()
      ensures p - Begin() == |Elements()|
    {
      size
    }
  }
}
