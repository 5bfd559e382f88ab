# TAS containers in Dafny

A Dafny model of the core of TAS, a small C++ template library. It covers:

- `BasicString<CharType, BlockSize>`: a growable character buffer with a
  logical size, a capacity rounded to whole blocks, and an owned array.
- Its four cursor classes, and the helpers `cStringLength` and `memoryCopy`.
- `Array<T, Size>`: a fixed array with checked and unchecked access.
- `Any`: a box that holds one value behind a type tag.
- `Tuple<Size>`: a fixed row of `Any`.
- `Iterator<T>`: a free-standing pointer cursor.
- `formatPrint`: prints a template with `{}` placeholders replaced by its
  arguments.

Layout:

- `common.dfy`: `SizeT` holds the 64-bit `size_t`: `SIZE_MAX` as `NPos`, and wrap-around as `Wrap`. `Errors` holds the exceptions as values.
- `string_spec.dfy` (`StringSpec`): pure definitions the string operations are proved against, and the lemmas about them:
  - block rounding;
  - `span` and `subString`;
  - the span-built edits;
  - the searches;
  - the source's arithmetic as written, where it goes wrong.
- `string_iterator.dfy` (`StringIterators`): one cursor class with a position, a direction and a read-only flag. Each of the four C++ classes is one combination of the two flags.
- `basic_string.dfy` (`Strings`):
  - the `BasicString` class, with fields `size`, `capacity`, `data` and the per-object constant `blockSize`;
  - its methods, each proved against `StringSpec`;
  - `CStringLength` and `MemoryCopy`.
- `array.dfy` (`Arrays`), `any.dfy` (`TypeErasure`), `tuple.dfy` (`Tuples`), `iterator.dfy` (`Iterators`), `format.dfy` (`Formatting`).

Thrown exceptions are results:

- a `Result` or `Outcome` value carrying `OutOfRange`, `BadCast` or `BadString`;
- an operation that throws before it changes anything returns the error and leaves the state alone.

Unchecked accesses that the source leaves undefined become preconditions: `operator[]` outside the buffer, `back` on an empty string, and the reads in `endsWith`. `front` reads slot 0, which every constructor allocates, so it needs only a non-empty buffer.

## Model

| member | source | states |
|---|---|---|
| `SizeT.Wrap` | include/String.hpp:604-606 | the `size_t` value of an integer: below 2^64, congruent to it, and equal to it when it already fits |
| `SizeT.WrapBelowZero` | include/String.hpp:548-550 | `0 - 1` in `size_t` is `SIZE_MAX` (`nPos`) |
| `StringSpec.BlockRound` | include/String.hpp:79-84 | the sizing rule `n + (B - n % B)` is a multiple of `B` strictly above `n` and at most `n + B` |
| `StringSpec.MultipleMod` | include/String.hpp:81 | a multiple of the block leaves remainder 0, which `BlockRound` relies on |
| `StringSpec.AppendCapacityAsWritten` | include/String.hpp:509-512 | the capacity `append(str)` reaches as written never shrinks |
| `StringSpec.AppendAsWrittenOverflows` | include/String.hpp:509-516 | with size 30, capacity 32 and block 32, appending 5 characters leaves capacity 32 < 35: the copy loop writes past the buffer |
| `StringSpec.AppendAsWrittenOverflowsWhenever` | include/String.hpp:509-516 | the as-written reserve under-allocates whenever the appended text does not fit in the current capacity and its own rounded-up length is below the new size |
| `StringSpec.EraseSpanAsWrittenOverflows` | include/String.hpp:471-474 | `eraseSpan(20, 20)` on 40 characters: the as-written append of the 20-character tail to the 32-slot head leaves capacity 32 < 40 |
| `StringSpec.AppendCapacity` | include/String.hpp:509-520 | with the total rounded up, capacity never shrinks, holds the new size, stays within one block of it, and stays a block multiple |
| `StringSpec.Reversed` | include/String.hpp:574-581 | the characters in reverse order, same length |
| `StringSpec.ReversedAt` | include/String.hpp:574-581 | element `k` of the reverse is element `|s| - 1 - k` |
| `StringSpec.ReversedTwice` | include/String.hpp:574-581 | reversing twice gives back the original |
| `StringSpec.SpanOf` | include/String.hpp:574-594 | the three branches of `span`: reversed `[last, min(first, size))`, empty, and forward `[first, min(last, size))`; never longer than the string |
| `StringSpec.SpanForward` | include/String.hpp:586-593 | a forward span inside the string is the slice `s[first..last]` |
| `StringSpec.SpanBackward` | include/String.hpp:574-581 | a backward span inside the string is the forward span reversed |
| `StringSpec.SpanGrows` | include/String.hpp:588-591 | one more step of the forward loop appends the character under the cursor |
| `StringSpec.SpanClampsLast` | include/String.hpp:588 | the forward loop stops at `min(last, size)` |
| `StringSpec.ReversedGrows` | include/String.hpp:577-580 | one more step of the reverse loop appends the character under the cursor |
| `StringSpec.SpanToEnd` | include/String.hpp:574 | with the default `last = nPos`, `span(first)` is the tail from `first`, or empty past the end |
| `StringSpec.SubStringOf` | include/String.hpp:604-606 | `subString(first, n)` is `span(first, first + n)` in `size_t`, never longer than the string |
| `StringSpec.SubStringForward` | include/String.hpp:604-606 | a non-negative length inside the string takes `s[first..first + n]` |
| `StringSpec.SubStringNegative` | include/String.hpp:604-606 | a negative length that stays at or above 0 reads the `-n` characters before `first`, backwards |
| `StringSpec.SubStringWrapsForward` | include/String.hpp:604-606 | a negative length that reaches below 0 wraps to a huge `last` and takes the whole tail from `first` |
| `StringSpec.InsertOf` | include/String.hpp:446-461 | `span(0, i) + x + span(i)`, exactly `size + |x|` long for every index |
| `StringSpec.InsertSplices` | include/String.hpp:446-461 | `insert(x, i)` gives `s[..i] + x + s[i..]`, and appends when `i` is past the end |
| `StringSpec.EraseSpanOf` | include/String.hpp:471-474 | `span(0, first) + span(last)`, at most twice the string |
| `StringSpec.EraseSpanRemoves` | include/String.hpp:471-474 | with `first <= last <= size`, removes exactly `[first, last)` |
| `StringSpec.EraseSpanTruncates` | include/String.hpp:471-474 | `eraseSpan(first)` with the default `last` truncates to `first` characters |
| `StringSpec.EraseSpanBackwardsDuplicates` | include/String.hpp:463-474 | against the documented warning, `first > last` keeps `[last, first)` twice and grows the string |
| `StringSpec.EraseSubStringOf` | include/String.hpp:483-486 | `span(0, first) + span(first + n)` with `size_t` wrap, at most twice the string |
| `StringSpec.EraseSubStringRemoves` | include/String.hpp:483-486 | inside the string, removes exactly `n` characters at `first` |
| `StringSpec.PopBackOf` | include/String.hpp:548-550 | `eraseSubString(size - 1)`, at most twice the string |
| `StringSpec.PopBackDropsLast` | include/String.hpp:548-550 | `popBack` drops the last character, and leaves an empty string empty, because `size - 1` wraps to `nPos` |
| `StringSpec.ReplaceSpanOf` | include/String.hpp:658-661 | `span(0, first) + x + span(last)`, bounded in length |
| `StringSpec.ReplaceSpanSplices` | include/String.hpp:658-661 | with `first <= last <= size`, replaces `[first, last)` by `x` |
| `StringSpec.ReplaceSubStringOf` | include/String.hpp:671-674 | `span(0, first) + x + span(first + n)`, bounded in length |
| `StringSpec.ReplaceSubStringSplices` | include/String.hpp:671-674 | inside the string, replaces the `n` characters at `first` by `x` |
| `StringSpec.ResizeOf` | include/String.hpp:684-699 | exactly `n` characters: the first `min(n, size)` kept and the new ones equal to `fill` |
| `StringSpec.FirstMatchFrom` | include/String.hpp:721-732 | the least matching window start at or after `i`, or `nPos` exactly when none exists |
| `StringSpec.FirstMatch` | include/String.hpp:721-732 | the least matching window start, or `nPos` exactly when `str` occurs nowhere |
| `StringSpec.LastMatchBelow` | include/String.hpp:741-752 | the greatest matching window start below `i`, or `nPos` exactly when none exists |
| `StringSpec.LastMatch` | include/String.hpp:741-752 | the greatest matching window start, or `nPos` exactly when `str` occurs nowhere |
| `StringSpec.LastMatchIs` | include/String.hpp:741-749 | a match with no match after it is the result of `findLast` |
| `StringSpec.FirstOfFrom` | include/String.hpp:761-770 | the least index at or after `i` whose character is in the set, or `nPos` exactly when none exists |
| `StringSpec.FirstOf` | include/String.hpp:761-770 | the least index whose character is in the set, or `nPos` exactly when none exists |
| `StringSpec.LastOfBelow` | include/String.hpp:779-788 | the greatest index below `i` whose character is in the set, or `nPos` exactly when none exists |
| `StringSpec.LastOf` | include/String.hpp:779-788 | the greatest index whose character is in the set, or `nPos` exactly when none exists |
| `StringSpec.FirstScanBound` | include/String.hpp:625 | the as-written loop bound `size - str.size() + 1` of `contains` and `findFirst`, taken in `size_t` |
| `StringSpec.FirstScanBoundExact` | include/String.hpp:722 | the bound is the intended `size - n + 1` when the needle is at most one longer than the string |
| `StringSpec.FirstScanBoundWraps` | include/String.hpp:722 | a needle two or more longer than the string wraps the bound past `size`, so windows past the end are read |
| `StringSpec.EmptyTemplateScan` | include/String.hpp:722 | searching `"{}"` in an empty string runs the loop up to `SIZE_MAX` |
| `StringSpec.LastScanIndex` | include/String.hpp:742 | the index the as-written `findLast` loop examines on its `k`-th turn, in `size_t` |
| `StringSpec.LastScanRunsOff` | include/String.hpp:742-751 | after window 0 fails, the counter wraps to `SIZE_MAX`, which passes `i >= 0`, so the loop never reaches `return nPos` |
| `StringSpec.LastOfScanRunsOff` | include/String.hpp:780-787 | the same wrap for `findLastOf` after index 0 |
| `StringSpec.LastScanStartsOff` | include/String.hpp:742 | a needle longer than the string wraps the start index `size - str.size()` past the buffer before any window is read |
| `StringSpec.LastOfScanStartsOff` | include/String.hpp:780 | on an empty string, the start index `size - 1` of `findLastOf` is `SIZE_MAX` |
| `StringIterators.RetreatUndoesAdvance` | include/String.hpp:815-830 | in both directions, `retreat(n)` undoes `advance(n)` |
| `StringIterators.AdvanceMovesAhead` | include/String.hpp:1081-1092 | in both directions, advancing moves a cursor forward in the order its comparisons use |
| `StringIterators.GapCountsSteps` | include/String.hpp:1100-1102 | in both directions, the distance to the cursor `n` steps ahead is `n`, and it is positive exactly when that cursor compares greater |
| `StringIterators.ReverseOrderMirrors` | include/String.hpp:1166-1180 | reverse cursors compare in the mirror of pointer order |
| `StringIterators.StringIterator.At` | include/String.hpp:800 | the pointer constructor of each of the four classes |
| `StringIterators.StringIterator.Convert` | include/String.hpp:802-808 | the converting constructors: only to an equally or more read-only kind, position kept |
| `StringIterators.StringIterator.Advance` | include/String.hpp:815-817 | `advance(n)` moves `n` steps in the cursor's direction |
| `StringIterators.StringIterator.Retreat` | include/String.hpp:824-826 | `retreat(n)` moves `n` steps against the cursor's direction |
| `StringIterators.StringIterator.Next` | include/String.hpp:838-841 | `next(n)` and `+=`: `n` steps ahead |
| `StringIterators.StringIterator.Prev` | include/String.hpp:843-846 | `prev(n)` and `-=`: `n` steps back |
| `StringIterators.StringIterator.Increment` | include/String.hpp:872-874 | prefix `++`: one step ahead |
| `StringIterators.StringIterator.Decrement` | include/String.hpp:876-878 | prefix `--`: one step back |
| `StringIterators.StringIterator.PostIncrement` | include/String.hpp:880-884 | postfix `++`: one step ahead, returning a copy at the old position |
| `StringIterators.StringIterator.PostDecrement` | include/String.hpp:886-890 | postfix `--`: one step back, returning a copy at the old position |
| `StringIterators.StringIterator.Plus` | include/String.hpp:852-854 | `+ n`: a new cursor `n` steps ahead, with the original unchanged; reverse cursors move down (1118-1120) |
| `StringIterators.StringIterator.Minus` | include/String.hpp:856-858 | `- n`: a new cursor `n` steps back; reverse cursors move up (1122-1124) |
| `StringIterators.StringIterator.Distance` | include/String.hpp:834-836 | `disctance` and `operator-(rhs)`: the number of steps from this cursor to `rhs`, signed |
| `StringIterators.StringIterator.Equal` | include/String.hpp:892-894 | `==` holds exactly when the distance is 0 |
| `StringIterators.StringIterator.Less` | include/String.hpp:904-906 | `<` holds exactly when `rhs` is a positive number of steps ahead; inverted pointer order for reverse cursors (1170-1172) |
| `StringIterators.StringIterator.LessEq` | include/String.hpp:912-914 | `<=` is `<` or `==` |
| `StringIterators.StringIterator.Greater` | include/String.hpp:900-902 | `a > b` is `b < a` |
| `StringIterators.StringIterator.GreaterEq` | include/String.hpp:908-910 | `a >= b` is `b <= a`, the negation of `<` |
| `StringIterators.StringIterator.NotEqual` | include/String.hpp:896-898 | `!=` holds exactly when `==` does not, that is, when the distance is not 0 |
| `StringIterators.StringIterator.Deref` | include/String.hpp:848-850 | `operator*` of the four classes (also 984, 1114, 1250): the character at the cursor's slot; for a reverse cursor, the one `size - 1 - pos` steps into the reversed buffer |
| `StringIterators.DerefWalks` | include/String.hpp:848-890 | stepping `n` times from `start` and dereferencing reads element `n` of the tail from `start` (forward) or of the head up to `start`, reversed (reverse) |
| `Strings.CStringLength` | include/String.hpp:1328-1335 | the index of the first NUL: every character before it is not NUL |
| `Strings.MemoryCopy` | include/String.hpp:1337-1343 | the first `n` destination slots become the first `n` source elements; the rest are unchanged |
| `Strings.CopyAt` | include/String.hpp:514-516 | the copy loop of `append(str)` writes the source at the offset and leaves the slots before it alone |
| `Strings.FillRange` | include/String.hpp:687-696 | the fill loops of `resize`: the range gets the fill character, and everything outside it is unchanged |
| `Strings.BasicString.Empty` | include/String.hpp:69-72 | empty string, capacity one block |
| `Strings.BasicString.FromCString` | include/String.hpp:79-84 | the characters before the first NUL, capacity block-rounded |
| `Strings.BasicString.FromSeq` | include/String.hpp:129-135 | the characters of the sequence, capacity block-rounded |
| `Strings.BasicString.Filled` | include/String.hpp:92-97 | `n` copies of the character, capacity block-rounded |
| `Strings.BasicString.FromChar` | include/String.hpp:104-109 | the one-character string, capacity one block |
| `Strings.BasicString.Copy` | include/String.hpp:116-122 | same characters and capacity in a fresh buffer |
| `Strings.BasicString.Assign` | include/String.hpp:141-148 | `operator=` and `assign` (165-172): the characters and capacity of `str` in a fresh buffer |
| `Strings.BasicString.At` | include/String.hpp:194-207 | `at(i)` is the character, and `out_of_range` exactly when `i >= size` |
| `Strings.BasicString.SetAt` | include/String.hpp:194-198 | writing through `at(i)` changes character `i` only, or throws and changes nothing |
| `Strings.BasicString.Get` | include/String.hpp:214-225 | `operator[]` reads the buffer, which inside the size is the character |
| `Strings.BasicString.Front` | include/String.hpp:250-252 | both `front()` overloads (also 268-270): buffer slot 0, which every string has, and which is the first character of a non-empty string |
| `Strings.BasicString.Back` | include/String.hpp:259-261 | the last character |
| `Strings.BasicString.IsEmpty` | include/String.hpp:353-355 | `empty()` exactly when there are no characters |
| `Strings.BasicString.Size` | include/String.hpp:357-368 | `size()` and `length()` are the number of characters |
| `Strings.BasicString.Capacity` | include/String.hpp:375-377 | `capacity()` is the buffer length, never below the size |
| `Strings.BasicString.Begin` | include/String.hpp:286-297 | `begin`/`cbegin`: a forward cursor at 0 |
| `Strings.BasicString.End` | include/String.hpp:322-333 | `end`/`cend`: a forward cursor at `size` |
| `Strings.BasicString.RBegin` | include/String.hpp:304-315 | `rbegin`/`crbegin`: a reverse cursor at `size - 1` |
| `Strings.BasicString.Reserve` | include/String.hpp:385-394 | capacity becomes `max(old, c)`; size and characters are unchanged |
| `Strings.BasicString.Clear` | include/String.hpp:415-423 | size 0; a non-empty string gets a fresh one-block buffer, and an empty one keeps its capacity |
| `Strings.BasicString.Fill` | include/String.hpp:431-437 | every character becomes `ch`; the slots past the size are unchanged |
| `Strings.BasicString.AppendChar` | include/String.hpp:494-501 | `append(chr)` and `pushBack(chr)` (528-530): `chr` added last; the capacity grows by one block exactly when the string was full |
| `Strings.BasicString.Append` | include/String.hpp:509-520 | `append(str)` and `pushBack(str)` (538-540): old characters followed by those of `str`, with the capacity of `AppendCapacity` |
| `Strings.BasicString.PlusChar` | include/String.hpp:552-555 | `+ chr`: a new string with `chr` appended |
| `Strings.BasicString.Plus` | include/String.hpp:557-560 | `+ str`: a new string, the concatenation |
| `Strings.BasicString.PlusAssign` | include/String.hpp:562-564 | `+=`: appends in place and returns a copy of the result |
| `Strings.BasicString.Span` | include/String.hpp:574-594 | the characters `SpanOf` describes, in a new string |
| `Strings.BasicString.ReverseSpan` | include/String.hpp:575-581 | the reverse branch, walked with a const reverse cursor |
| `Strings.BasicString.CollectReverse` | include/String.hpp:577-580 | the reverse loop collects the characters from the cursor down to the stop, in that order |
| `Strings.BasicString.ForwardSpan` | include/String.hpp:586-593 | the forward branch, walked with a const cursor |
| `Strings.BasicString.CollectForward` | include/String.hpp:588-591 | the forward loop collects the characters from the cursor up to the stop |
| `Strings.BasicString.SubString` | include/String.hpp:604-606 | the characters `SubStringOf` describes |
| `Strings.BasicString.InsertChar` | include/String.hpp:446-449 | the characters `InsertOf` describes, with `[chr]` |
| `Strings.BasicString.InsertString` | include/String.hpp:458-461 | the characters `InsertOf` describes, with `str` |
| `Strings.BasicString.EraseSpan` | include/String.hpp:471-474 | the characters `EraseSpanOf` describes |
| `Strings.BasicString.EraseSubString` | include/String.hpp:483-486 | the characters `EraseSubStringOf` describes |
| `Strings.BasicString.PopBack` | include/String.hpp:548-550 | the characters `PopBackOf` describes |
| `Strings.BasicString.ReplaceSpan` | include/String.hpp:658-661 | the characters `ReplaceSpanOf` describes |
| `Strings.BasicString.ReplaceSubString` | include/String.hpp:671-674 | the characters `ReplaceSubStringOf` describes |
| `Strings.BasicString.Resize` | include/String.hpp:684-699 | the characters `ResizeOf` describes. Growing reserves the block-rounded new size; shrinking keeps the buffer and zeroes the dropped slots |
| `Strings.BasicString.Swap` | include/String.hpp:707-712 | the two strings exchange characters and capacities |
| `Strings.BasicString.StartsWith` | include/String.hpp:608-614 | true exactly when the first `str.size()` buffer slots equal `str`; for `str` no longer than the string, exactly when `str` is a prefix |
| `Strings.BasicString.EndsWith` | include/String.hpp:616-622 | true exactly when `str` is a suffix |
| `Strings.BasicString.WindowMatches` | include/String.hpp:627-631 | the inner comparison loop: true exactly when the window at `i` equals `str` |
| `Strings.BasicString.Contains` | include/String.hpp:624-635 | true exactly when some window equals `str`; a needle longer than the string is absent |
| `Strings.BasicString.Equals` | include/String.hpp:637-647 | `==` and `equals`: true exactly when the characters are identical |
| `Strings.BasicString.NotEqual` | include/String.hpp:641-643 | `!=`: true exactly when the characters differ |
| `Strings.BasicString.FindFirst` | include/String.hpp:721-732 | the result of `FirstMatch`: the least match, or `nPos` |
| `Strings.BasicString.FindLast` | include/String.hpp:741-752 | the result of `LastMatch`: the greatest match, or `nPos` |
| `Strings.BasicString.OneOf` | include/String.hpp:764-767 | the inner loop of `findFirstOf` and `findLastOf`: true exactly when `c` is one of the characters of `str` |
| `Strings.BasicString.FindFirstOf` | include/String.hpp:761-770 | the result of `FirstOf`: the least index whose character is in `str`, or `nPos` |
| `Strings.BasicString.FindLastOf` | include/String.hpp:779-788 | the result of `LastOf`: the greatest index whose character is in `str`, or `nPos` |
| `Arrays.FixedArray.Default` | include/Array.hpp:32-46 | every element value-initialised |
| `Arrays.FixedArray.FromList` | include/Array.hpp:43 | element `i` is `list[i]` |
| `Arrays.FixedArray.Make` | include/Array.hpp:40-44 | `out_of_range` exactly when the list length differs from `Size`; otherwise the elements are the list |
| `Arrays.FixedArray.At` | include/Array.hpp:55-69 | element `i`, which is `operator[](i)`, and `out_of_range` exactly when `i >= Size` |
| `Arrays.FixedArray.SetAt` | include/Array.hpp:55-58 | writing through `at(i)` changes element `i` only, or throws and changes nothing |
| `Arrays.FixedArray.Get` | include/Array.hpp:77-89 | `operator[](i)` is element `i` |
| `Arrays.FixedArray.Set` | include/Array.hpp:77-79 | writing through `operator[](i)` changes element `i` only |
| `Arrays.FixedArray.Front` | include/Array.hpp:100-102 | element 0 |
| `Arrays.FixedArray.Back` | include/Array.hpp:104-106 | element `Size - 1` |
| `Arrays.FixedArray.IsEmpty` | include/Array.hpp:108-110 | `empty()` exactly when there are no elements |
| `Arrays.FixedArray.Size` | include/Array.hpp:112-114 | `size()` is the element count |
| `Arrays.FixedArray.MaxSize` | include/Array.hpp:116-118 | `max_size()` equals `size()` |
| `Arrays.FixedArray.Begin` | include/Array.hpp:121-128 | `begin()` points at the front element |
| `Arrays.FixedArray.End` | include/Array.hpp:131-138 | `end() - begin()` is the element count |
| `TypeErasure.TagOf` | include/Any.hpp:55-57 | `type_info()` is the holder's type, or `void` exactly when there is no holder |
| `TypeErasure.Cast` | include/Any.hpp:88-92 | the held value exactly when the requested type is the held type, otherwise `bad_cast` |
| `TypeErasure.CastRoundTrip` | include/Any.hpp:62-92 | a stored value converts back to itself, and to any other type, or from an empty box, throws `bad_cast` |
| `TypeErasure.Any.Default` | include/Any.hpp:52 | no holder |
| `TypeErasure.Any.FromValue` | include/Any.hpp:62 | a holder of the value under its type |
| `TypeErasure.Any.FromCString` | include/Any.hpp:64 | a holder of a `std::string` |
| `TypeErasure.Any.Copy` | include/Any.hpp:59 | a clone: the same type and value, or empty for an empty box |
| `TypeErasure.Any.TypeInfo` | include/Any.hpp:55-57 | the tag `TagOf` gives for the content |
| `TypeErasure.Any.Swap` | include/Any.hpp:66-69 | the two boxes exchange contents |
| `TypeErasure.Any.Assign` | include/Any.hpp:71-74 | copy-and-swap: the content of `rhs` |
| `TypeErasure.Any.AssignValue` | include/Any.hpp:76-80 | copy-and-swap: a holder of the new value under its type |
| `TypeErasure.Any.Convert` | include/Any.hpp:88-92 | `operator Type()`: succeeds exactly when the held type is `Type` |
| `Tuples.Tuple.Default` | include/Tuple.hpp:27-42 | every slot an empty `Any` |
| `Tuples.Tuple.Copy` | include/Tuple.hpp:55-57 | the slots of `rhs` |
| `Tuples.Tuple.Fill` | include/Tuple.hpp:29-39 | `recursiveFill`: succeeds exactly when the arguments fill the slots from `index` to the end; it then stores them, and leaves the slots before `index` unchanged |
| `Tuples.Tuple.Make` | include/Tuple.hpp:50-53 | `out_of_range` exactly when the argument count differs from `Size`; otherwise slot `i` holds argument `i` |
| `Tuples.Tuple.Assign` | include/Tuple.hpp:59-62 | every slot copied from `rhs` |
| `Tuples.Tuple.Index` | include/Tuple.hpp:70-84 | slot `i`, and `out_of_range` exactly when `i >= Size` |
| `Tuples.Tuple.SetIndex` | include/Tuple.hpp:70-73 | assigning through `operator[](i)` changes slot `i` only, or throws and changes nothing |
| `Iterators.Unsigned32` | include/Iterator.hpp:18 | conversion to the library's 32-bit `ptrdiff_t`: below 2^32 and congruent |
| `Iterators.Iterator.At` | include/Iterator.hpp:32 | the pointer constructor |
| `Iterators.Iterator.Copy` | include/Iterator.hpp:34-36 | the same pointer |
| `Iterators.Iterator.Advance` | include/Iterator.hpp:43-45 | `n` elements forward |
| `Iterators.Iterator.Retreat` | include/Iterator.hpp:52-54 | `n` elements back, undoing `advance(n)` |
| `Iterators.Iterator.Next` | include/Iterator.hpp:66-69 | `next(n)` and `+=` (92-94): `n` forward, returning this cursor |
| `Iterators.Iterator.Prev` | include/Iterator.hpp:71-74 | `prev(n)` and `-=` (96-98): `n` back, returning this cursor |
| `Iterators.Iterator.Increment` | include/Iterator.hpp:100-110 | prefix and postfix `++`: one forward, both returning this cursor already moved |
| `Iterators.Iterator.Decrement` | include/Iterator.hpp:104-114 | prefix and postfix `--`: one back, both returning this cursor already moved |
| `Iterators.Iterator.Plus` | include/Iterator.hpp:84-86 | `+ n`: a new cursor `n` ahead, with the original unchanged |
| `Iterators.Iterator.MinusAsWritten` | include/Iterator.hpp:88-90 | `- n` as written: a new cursor `n` ahead, the same as `+ n` |
| `Iterators.Iterator.Minus` | include/Iterator.hpp:88-90 | `- n` as intended: a new cursor `n` back |
| `Iterators.Iterator.Distance` | include/Iterator.hpp:62-64 | `disctance`: `rhs - this` modulo 2^32, equal to it when it fits |
| `Iterators.Iterator.SignedDistance` | include/Iterator.hpp:62-64 | the signed difference: this position plus it is `rhs`'s position |
| `Iterators.Iterator.Equal` | include/Iterator.hpp:116-118 | `==` holds exactly when the difference is 0 |
| `Iterators.Iterator.NotEqual` | include/Iterator.hpp:120-122 | `!=` is the negation of `==` |
| `Iterators.Iterator.Less` | include/Iterator.hpp:128-130 | `<` holds exactly when `rhs` is ahead |
| `Iterators.Iterator.LessEq` | include/Iterator.hpp:136-138 | `<=` is `<` or `==` |
| `Iterators.Iterator.Greater` | include/Iterator.hpp:124-126 | `a > b` is `b < a` |
| `Iterators.Iterator.GreaterEq` | include/Iterator.hpp:132-134 | `>=` is the negation of `<` |
| `Iterators.Iterator.Deref` | include/Iterator.hpp:76-82 | `operator*`: the element at the cursor's position in the buffer |
| `Iterators.DerefWalks` | include/Iterator.hpp:76-110 | stepping `n` times from `start` and dereferencing reads element `n` of the buffer's tail from `start` |
| `Iterators.DistanceBackwardsWraps` | include/Iterator.hpp:18-64 | a cursor one element behind is `2^32 - 1` away by `disctance`, where the signed distance is -1 |
| `Formatting.FormatPrint` | include/Format.hpp:21-38 | the only exception either overload throws is `runtime_error("Bad String")` |
| `Formatting.FormatPrintAll` | include/Format.hpp:40-43 | `formatPrint` returns exactly when the template has a placeholder for every argument, and otherwise throws `Bad String`, with the corrected `findFirst` (see Left out) |
| `Formatting.Holes` | include/Format.hpp:32-37 | the placeholders a left-to-right scan consumes, at most half the template length |
| `Formatting.FormatSucceedsIff` | include/Format.hpp:21-38 | `k` arguments succeed exactly when the scan finds at least `k` placeholders |
| `Formatting.NoPlaceholderPrintsNothing` | include/Format.hpp:23-32 | a template with no `{}` throws before printing anything |
| `Formatting.SubstitutesFirstPlaceholder` | include/Format.hpp:21-38 | the first argument replaces the first `{}`. With one argument, the rest of the template is printed verbatim; otherwise it is formatted with the remaining arguments |

## Left out

- Stream I/O: `print(str)` and `operator>>` (include/String.hpp:1345-1354), `Print.hpp`, and the test harness `Test.hpp` with its console colours. `Test.cpp` only supplies expected values: `Any` 10 converts back to 10, and `{2, 3, 4, 5}` builds those four elements.
- Raw pointers: `data()`, `cString()`, `rend()`/`crend()` (a position before the buffer), and `shrinkToFit`, whose buffer is uninitialised and breaks the block-multiple capacity.
- `operator=(CharType const &)` and `assign(CharType const &)` (include/String.hpp:150-157, 180-187) call `cStringLength` on a single character and cannot be instantiated.
- The `std::basic_string` constructor is modelled only as "construct from a sequence" (`FromSeq`).
- Memory: allocation never fails, and there is no `delete`. The growth operations require `Addressable`, so that a block-rounded size still fits in `size_t` below `SIZE_MAX`.
- Strings.BasicString.Assign: requires `str` to be a different object. On self-assignment the source deletes the buffer before copying from it.
- Strings.BasicString.Append: `str` may be the string itself. The model reads the characters of `str` before writing, which is what the source's loop sees too, because it writes only at and after the old size.
- Strings.BasicString.EndsWith: requires `str.size() <= size()`. Otherwise the source indexes `m_size - str.size() + i`, which wraps to far outside the buffer.
- Strings.BasicString.StartsWith: requires `str.size() <= capacity()`. Otherwise the source reads past the buffer. Up to the capacity it compares stale slots, and the contract states exactly that.
- Strings.BasicString.Get: requires the index to be inside the buffer, since `operator[]` does not check.
- The four string cursor classes are one class with a direction and a read-only flag. The conversions the C++ types forbid (const to writable) are excluded by `Convert`'s precondition. Comparisons and distances require two cursors of the same direction, as the C++ signatures do. `operator*` is a read of the buffer at the position; writing through it is `SetAt`.
- The string cursors' `ptrdiff_t` is the standard signed type (`String.hpp` does not include `Iterator.hpp`). `Iterator.hpp` typedefs its own `unsigned int`.
- Strings.BasicString.Contains: follows the corrected loop bound of the findings below, not the as-written one.
- Strings.BasicString.FindFirst: follows the corrected loop bound of the findings below, not the as-written one.
- Strings.BasicString.FindLast: follows two corrections of the findings below. The countdown stops after window 0. A needle longer than the string gives `nPos` at once, where the as-written start index `size - str.size()` wraps past the buffer (`StringSpec.LastScanStartsOff`).
- Strings.BasicString.FindLastOf: follows two corrections of the findings below. The countdown stops after index 0. An empty string gives `nPos` at once, where the as-written start index `size - 1` wraps to `SIZE_MAX` (`StringSpec.LastOfScanStartsOff`).
- Strings.BasicString.Plus: builds on the corrected `Append`. As written, `operator+` under-allocates whenever the appended text overflows the copy's capacity (`StringSpec.AppendAsWrittenOverflowsWhenever`).
- Strings.BasicString.PlusAssign: builds on the corrected `Append`, with the same as-written under-allocation as `Plus`.
- Strings.BasicString.InsertChar: builds on the corrected `Append`. As written, appending `span(index)` to the head can write past the head's buffer.
- Strings.BasicString.InsertString: builds on the corrected `Append`, with the same as-written overflow as `InsertChar`.
- Strings.BasicString.EraseSpan: builds on the corrected `Append`. As written, `eraseSpan(20, 20)` on 40 characters writes 8 characters past the joined string's buffer (`StringSpec.EraseSpanAsWrittenOverflows`).
- Strings.BasicString.EraseSubString: builds on the corrected `Append`, with the same as-written overflow as `EraseSpan`.
- Strings.BasicString.PopBack: builds on the corrected `Append` through `EraseSubString`. As written, `popBack` joins a head of `size - 1` characters with an empty tail, which always fits, so `popBack` itself does not overflow.
- Strings.BasicString.ReplaceSpan: builds on the corrected `Append`, with the same as-written overflow as `EraseSpan`.
- Strings.BasicString.ReplaceSubString: builds on the corrected `Append`, with the same as-written overflow as `EraseSpan`.
- Formatting.FormatPrint: searches with the corrected `findFirst`. As written, a remaining template that is empty makes `findFirst("{}")` read past the buffer (`StringSpec.EmptyTemplateScan`) instead of throwing `Bad String`. Examples are `formatPrint("", x)` and `formatPrint("a{}", x, y)`.
- Formatting.FormatPrintAll: the iff with `Holes` holds for the corrected `findFirst`. As written, a call whose remaining template becomes empty before the arguments run out reads past the buffer instead of throwing.
- Formatting.FormatSucceedsIff: stated for the corrected `findFirst`, as for `FormatPrintAll`.
- `Any`'s RTTI and virtual `Holder` are a type tag with a value. Values of one model instance share one type `V`, so a tag stands for the C++ type. `Any(const char *)` is given the `std::string` value the constructor builds.
- `Tuple` slots are stored as the `Any` content they hold, since that is an `Any`'s whole state. A `recursiveFill` argument is given as the content assigning it stores.
- `formatPrint` arguments are given as the text `print` emits for them. Printing is the returned text.
- `subString`'s `int` length is a 32-bit signed value added into `size_t`, as the C++ conversion does.

## Findings

| source | as written | input that shows it | evidently intended | confidence | as-written member | corrected member |
|---|---|---|---|---|---|---|
| include/String.hpp:510-516 | `append(str)` reserves `str.size()` rounded up to a block, not the new total size | size 30, capacity 32, block 32, appending 5 characters: capacity stays 32 and the loop writes slots 32-34 | reserve `size + str.size()` rounded up | high, not executed | `StringSpec.AppendAsWrittenOverflows` | `Strings.BasicString.Append` |
| include/String.hpp:721-732 | `findFirst` loops while `i < size - str.size() + 1` in `size_t` | `findFirst("{}")` on an empty string: the bound wraps to `SIZE_MAX` and window 0 is read past the end | no window when the needle is longer than the string, result `nPos` | high, not executed | `StringSpec.EmptyTemplateScan` | `Strings.BasicString.FindFirst` |
| include/String.hpp:624-635 | `contains` uses the same wrapped bound | a 3-character needle in a 1-character string: the bound is `SIZE_MAX` and the loop reads past the end | false when the needle is longer than the string | high, not executed | `StringSpec.FirstScanBoundWraps` | `Strings.BasicString.Contains` |
| include/String.hpp:741-752 | `findLast` counts down with `size_t i` while `i >= 0`, which always holds | `findLast("b")` on `"a"`: after window 0 fails, `i` wraps to `SIZE_MAX` and the loop reads outside the buffer; `return nPos` is unreachable | stop after window 0 and return `nPos` | high, not executed | `StringSpec.LastScanRunsOff` | `Strings.BasicString.FindLast` |
| include/String.hpp:742 | `findLast` starts its window index at `size - str.size()` in `size_t` | `findLast("ab")` on `"a"`: the start index wraps to `2^64 - 1` and the first read lies outside the buffer | no window when the needle is longer than the string, result `nPos` | high, not executed | `StringSpec.LastScanStartsOff` | `Strings.BasicString.FindLast` |
| include/String.hpp:780 | `findLastOf` starts its index at `size - 1` in `size_t` | `findLastOf("a")` on `""`: the start index is `SIZE_MAX` and the first read lies outside the buffer | nothing to scan in an empty string, result `nPos` | high, not executed | `StringSpec.LastOfScanStartsOff` | `Strings.BasicString.FindLastOf` |
| include/String.hpp:779-788 | `findLastOf` has the same unsigned loop, starting at `size - 1` | `findLastOf("b")` on `"a"`: after index 0, `i` wraps to `SIZE_MAX` | stop after index 0 and return `nPos` | high, not executed | `StringSpec.LastOfScanRunsOff` | `Strings.BasicString.FindLastOf` |
| include/Iterator.hpp:88-90 | `operator-(n)` returns `Iterator(m_ptr + n)` | `it - 1` is one element ahead of `it`, not behind | `m_ptr - n`, as `operator-=` and the string cursors do | high, not executed | `Iterators.Iterator.MinusAsWritten` | `Iterators.Iterator.Minus` |
| include/Iterator.hpp:18 | `ptrdiff_t` is typedef'd to `unsigned int`, so `disctance` wraps modulo 2^32 | a cursor one element behind: distance `4294967295` instead of `-1` | the signed standard `ptrdiff_t` | medium, not executed | `Iterators.DistanceBackwardsWraps` | `Iterators.Iterator.SignedDistance` |
