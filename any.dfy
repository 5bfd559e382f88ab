/**
 * `TAS::Any`: holds one value of any type behind a type-erased holder that
 * knows its `std::type_info`. The holder pointer is the object's only
 * state; here it is `content`, either no holder or a holder with the type's
 * tag and the held value. Held values are `const`, so a clone is the same
 * value under the same tag.
 */
module TypeErasure {
  import opened Errors

  /** A `std::type_info`: that of `void`, or that of a named type. */
  datatype TypeTag = VoidType | TypeOf(name: string)

  /** The type a `const char *` argument is stored as. */
  const StdString: TypeTag := TypeOf("std::string")

  /** The holder pointer: null, or a `Holder<Type>` with the tag of `Type` and its value. */
  datatype Content<V> = Empty | Holds(tag: TypeTag, value: V)

  /** `type_info()` of a content: the holder's tag, or `typeid(void)` when there is none. */
  function TagOf<V>(c: Content<V>): (t: TypeTag)
    ensures t == VoidType <==> c.Empty? || c.tag == VoidType
    ensures c.Holds? ==> t == c.tag
  {
    if c.Empty? then VoidType else c.tag
  }

  /**
   * `operator Type()` on a content: `bad_cast` unless the tag is that of
   * `Type`. `Type` is never `void`, since no conversion to `void` yields a
   * value.
   */
  function Cast<V>(c: Content<V>, want: TypeTag): (r: Result<V>)
    requires want != VoidType
    ensures r.Ok? <==> TagOf(c) == want
    ensures r.Err? ==> r.error == BadCast
    ensures r.Ok? ==> c == Holds(want, r.value)
  {
    if TagOf(c) != want then Err(BadCast) else Ok(c.value)
  }

  /** Storing a value and converting back to its own type gives the value; any other type is `bad_cast`. */
  lemma CastRoundTrip<V>(tag: TypeTag, value: V, other: TypeTag)
    requires tag != VoidType && other != VoidType
    ensures Cast(Holds(tag, value), tag) == Ok(value)
    ensures other != tag ==> Cast(Holds(tag, value), other) == Err(BadCast)
    ensures Cast(Content<V>.Empty, other) == Err(BadCast)
  {
  }

  class Any<V> {
    var content: Content<V>

    /** `Any()`: no holder. */
    constructor Default()
      ensures content == Empty
    {
      content := Empty;
    }

    /** `Any(const Type &)`: a holder of `val` tagged with `Type`. */
    constructor FromValue(tag: TypeTag, val: V)
      requires tag != VoidType
      ensures content == Holds(tag, val)
    {
      content := Holds(tag, val);
    }

    /** `Any(const char *)`: the characters are stored as a `std::string`, here the value `text`. */
    constructor FromCString(text: V)
      ensures content == Holds(StdString, text)
    {
      content := Holds(StdString, text);
    }

    /** `Any(const Any &)`: clones the holder, if any. */
    constructor Copy(other: Any<V>)
      ensures content == other.content
    {
      content := other.content;
    }

    /** `type_info()` */
    function TypeInfo(): (t: TypeTag)
      reads this
      ensures t == TagOf(content)
    {
      if content.Empty? then VoidType else content.tag
    }

    /** `swap(rhs)`: exchanges the holder pointers. */
    method Swap(rhs: Any<V>)
      modifies this, rhs
      ensures content == old(rhs.content) && rhs.content == old(content)
    {
      content, rhs.content := rhs.content, content;
    }

    /** `operator=(const Any &)`: copy-and-swap; the temporary takes the old holder away. */
    method Assign(rhs: Any<V>)
      modifies this
      ensures content == old(rhs.content)
    {
      var copy := new Any.Copy(rhs);
      Swap(copy);
    }

    /** `operator=(const Type &)`: copy-and-swap with a fresh holder of `val`. */
    method AssignValue(tag: TypeTag, val: V)
      requires tag != VoidType
      modifies this
      ensures content == Holds(tag, val)
    {
      var copy := new Any.FromValue(tag, val);
      Swap(copy);
    }

    /** `operator Type()`: the held value if `Type` is the held type, otherwise `bad_cast`. */
    function Convert(want: TypeTag): (r: Result<V>)
      reads this
      requires want != VoidType
      ensures r == Cast(content, want)
      ensures r.Ok? <==> TypeInfo() == want
    {
      if TypeInfo() != want then Err(BadCast) else Ok(content.value)
    }
  }
}
