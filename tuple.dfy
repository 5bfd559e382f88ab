/**
 * `TAS::Tuple<Size>`: `Size` slots of `Any`, stored in an `Array<Any, Size>`.
 * Each slot is represented by its `Any` content. A constructor argument is
 * given as the content that assigning it to an `Any` stores: a holder of
 * the argument's type and value, or, for an `Any` argument, that `Any`'s
 * own content.
 */
module Tuples {
  import opened SizeT
  import opened Errors
  import opened TypeErasure
  import opened Arrays

  class Tuple<V> {
    const items: FixedArray<Content<V>>

    ghost predicate Valid()
      reads this, items
    {
      items.Valid()
    }

    /** The slots, in order. */
    ghost function Elements(): seq<Content<V>>
      reads this, items, items.data
    {
      items.Elements()
    }

    /** `Tuple() = default`: every slot an empty `Any`. */
    constructor Default(size: nat)
      requires size < Size64
      ensures Valid() && fresh(items) && fresh(items.data) && items.size == size
      ensures Elements() == seq(size, _ => Empty)
    {
      items := new FixedArray.Default(size, Empty);
    }

    /** `Tuple(Tuple const &)`: default slots, then `m_data = rhs.m_data`. */
    constructor Copy(rhs: Tuple<V>)
      requires rhs.Valid()
      ensures Valid() && fresh(items) && fresh(items.data) && items.size == rhs.items.size
      ensures Elements() == rhs.Elements()
    {
      items := new FixedArray.FromList(rhs.items.data[..]);
    }

    /**
     * `recursiveFill(index, args...)`: stores the arguments from slot
     * `index` on; `out_of_range` when they run out before the last slot
     * ("too few") or there is one left after it ("too much").
     */
    method Fill(index: nat, args: seq<Content<V>>) returns (r: Outcome)
      requires Valid() && index <= items.size
      modifies items.data
      decreases |args|
      ensures r == if index + |args| == items.size then Pass else Fail(OutOfRange)
      ensures Elements()[..index] == old(Elements())[..index]
      ensures r.Pass? ==> Elements()[index..] == args
    {
      if |args| == 0 {
        if index == items.size {
          return Pass;
        }
        return Fail(OutOfRange);
      }
      if index >= items.size {
        return Fail(OutOfRange);
      }
      items.Set(index, args[0]);
      r := Fill(index + 1, args[1..]);
      if r.Pass? {
        assert Elements()[index..] == [args[0]] + Elements()[index + 1..];
      }
    }

    /** `Tuple(const Types &... val)`: a tuple of exactly the arguments, or `out_of_range` if there are not `Size` of them. */
    static method Make(size: nat, args: seq<Content<V>>) returns (r: Result<Tuple<V>>)
      requires size < Size64
      ensures r.Err? <==> |args| != size
      ensures r.Err? ==> r.error == OutOfRange
      ensures r.Ok? ==> fresh(r.value) && r.value.Valid() && r.value.items.size == size
      ensures r.Ok? ==> r.value.Elements() == args
    {
      var t := new Tuple.Default(size);
      var filled := t.Fill(0, args);
      if filled.Fail? {
        return Err(OutOfRange);
      }
      return Ok(t);
    }

    /** `operator=(Tuple const &)`: copies every slot of `rhs`. */
    method Assign(rhs: Tuple<V>)
      requires Valid() && rhs.Valid() && rhs.items.size == items.size
      modifies items.data
      ensures Elements() == old(rhs.Elements())
    {
      var source := rhs.items.data[..];
      forall k | 0 <= k < items.size {
        items.data[k] := source[k];
      }
    }

    /** `operator[](index)`: the slot's content, or `out_of_range` past the end. */
    method Index(index: nat) returns (r: Result<Content<V>>)
      requires Valid() && index < Size64
      ensures r.Err? <==> items.size <= index
      ensures r.Err? ==> r.error == OutOfRange
      ensures r.Ok? ==> r.value == Elements()[index]
    {
      r := items.At(index);
    }

    /** Assigning through the `Any &` that `operator[](index)` returns; past the end nothing is written. */
    method SetIndex(index: nat, c: Content<V>) returns (r: Outcome)
      requires Valid() && index < Size64
      modifies items.data
      ensures r == (if index < items.size then Pass else Fail(OutOfRange))
      ensures Elements() == if index < items.size then old(Elements())[index := c] else old(Elements())
    {
      r := items.SetAt(index, c);
    }
  }
}
