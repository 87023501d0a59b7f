# PenFramework string storage, flags, integer math and colours in Dafny

This project models part of the PenFramework engine. It covers:

- **`StringStorage<char>`** (`Code/Engine/String/StringStorage.hpp`): a string with
  small-string optimisation. Up to 22 code units live inline; longer contents
  move to a heap buffer. The heap buffer grows through
  `CalculateAllocateCapacity`, which rounds the request up to `request | 15`
  and grows by at least half the old capacity. The string is a class with
  four fields:
  - `isHeap`, whether the heap buffer is the active one;
  - `size`;
  - `heapCapacity`;
  - `buf`, the active array, with one extra slot for the terminating 0.

  Methods change this state in place, and each states its new contents
  (`Content()`) in terms of the old ones. The searches (`Find`,
  `FindFirstOf`, `FindLastOf`, `FindFirstNotOf`, `FindLastNotOf`, `Contain`)
  are loops. Each is proved against search predicates: the first or last
  index in a window that holds, or does not hold, one of the wanted units.
  These predicates are `FirstHit`, `LastHit` and `FindResult` in module
  `SearchSpec`. The reference functions `FirstIndex` and `LastIndex` compute
  the same results, and uniqueness lemmas pin each result down.
- **`String::Substr`, `Left` and `Right`** (`Code/Engine/String/String.cpp`),
  which build new strings from a window of an existing one.
- **`Flag<EnumType>`** (`Code/Engine/Utils/Flag.hpp`): a bit set over an enum
  whose underlying type is a 32-bit unsigned integer. Every operator is
  specified bit by bit: bit `i` of the result against bits `i` of the
  operands. The compound assignments are methods of a `FlagVariable` class.
- **The integer helpers of `MathFunction.hpp`**:
  - `CeilPow2` and `Ceil4` … `Ceil64` are proved to return the number of
    `n`-blocks that cover `x` (not the rounded-up value).
  - `Clamp` and `Clamp01`.
  - The branch-free `Abs`, for a signed integer of any width.
- **`Color32`** (`Code/Engine/Math/Color.hpp`): the named colours, the
  `0xAABBGGRR` packing with its round trip, and premultiplied alpha in both
  directions.

Bitwise operations are written on natural numbers (`Bits.Or`, `Bits.Shl`, …)
with lemmas that connect them to arithmetic. Fixed-width results are the
newtypes `u8`, `u32` and `usize` in module `Types`, and wrap-around is
written out (`Types.Wrap`). Module `StringScenarios` replays the engine's
own string unit tests (`Code/UnitTest/Tests/Test_String.hpp`) on the model.
Each scenario's postcondition gives the value that the model computes for
the test's input.

## Model

| member | source | states |
|---|---|---|
| Storage.Length | Code/Engine/String/StringStorage.hpp:226-227 | The length of a C string is the index of its first 0, and no unit before it is 0. |
| Storage.CString | Code/Engine/String/StringStorage.hpp:226-227 | The units of a C string contain no 0, and followed by the terminator they are a prefix of the input. |
| Storage.MaskRequest | Code/Engine/String/StringStorage.hpp:1229-1240 | `request \| 15` is the request rounded up to the next value that is 15 modulo 16, and it is never below the request. |
| Storage.OrMask | Code/Engine/String/StringStorage.hpp:1231-1232 | OR-ing with the low four-bit mask equals rounding up to 15 modulo 16, and the result stays inside the `usize` range. |
| Storage.BuildBitmap | Code/Engine/String/StringStorage.hpp:849-889 | The 256-entry lookup table marks exactly the code units that occur in the set. |
| Storage.StringStorage.Content | Code/Engine/String/StringStorage.hpp:521-526 | The contents of a valid string have exactly `size` units. |
| Storage.StringStorage.Data | Code/Engine/String/StringStorage.hpp:589-598 | `Data()` is the contents followed by the terminating 0. |
| Storage.StringStorage.Size | Code/Engine/String/StringStorage.hpp:521-526 | The size is the length of the contents. |
| Storage.StringStorage.Capacity | Code/Engine/String/StringStorage.hpp:528-533 | The units the string can hold without reallocating: the heap capacity field on the heap, and the 22 units of the inline buffer otherwise. |
| Storage.StringStorage.Empty | Code/Engine/String/StringStorage.hpp:537-540 | A string is empty exactly when its contents are the empty sequence. |
| Storage.StringStorage.CalculateAllocateCapacity | Code/Engine/String/StringStorage.hpp:1229-1240 | Growth policy. A masked request above the maximum gives the maximum. So does a current capacity whose 1.5-fold growth would pass it. Otherwise the result is exactly the larger of `request \| 15` and 1.5 times the current capacity. From a current capacity within the maximum, the result always lies between that capacity and the maximum and covers the request. |
| Storage.StringStorage.ReservedCapacity | Code/Engine/String/StringStorage.hpp:543-555 | The capacity `Reserve` leaves: the old one when the request fits, otherwise the growth policy's. It never falls below the old capacity, and covers any request within the maximum. |
| Storage.StringStorage.InitSSOBuffer | Code/Engine/String/StringStorage.hpp:1267-1272 | Switches to the inline buffer with size 0 and an empty, valid string. |
| Storage.StringStorage.InitHeapBuffer | Code/Engine/String/StringStorage.hpp:1275-1286 | Allocates a fresh heap buffer whose capacity is the growth policy applied to the request from the inline capacity; the string is empty. |
| Storage.StringStorage.DeallocateBuffer | Code/Engine/String/StringStorage.hpp:1259-1264 | Leaves an empty, valid, inline string, on a fresh buffer when a heap buffer was released. |
| Storage.StringStorage.MoveToHeap | Code/Engine/String/StringStorage.hpp:1319-1339 | Moves inline contents unchanged into a fresh heap buffer sized by the growth policy. |
| Storage.StringStorage.MoveToStack | Code/Engine/String/StringStorage.hpp:1295-1316 | Moves heap contents of at most 22 units back inline, unchanged. |
| Storage.StringStorage.ReallocateHeapBuffer | Code/Engine/String/StringStorage.hpp:1243-1256 | Reallocates the heap buffer with the growth policy applied to the old capacity. Contents are kept and the capacity never shrinks. |
| Storage.StringStorage.ResetSizeAndEos | Code/Engine/String/StringStorage.hpp:1201-1214 | Sets the size and writes the terminator. The first `n` units and the buffer are kept. |
| Storage.StringStorage.InitFromUnits | Code/Engine/String/StringStorage.hpp:230-250 | Stores the given units, on the heap exactly when there are more than 22 of them. The heap capacity is the growth policy's. |
| Storage.StringStorage.constructor | Code/Engine/String/StringStorage.hpp:184-187 | The default string is empty and inline. |
| Storage.StringStorage.WithCapacity | Code/Engine/String/StringStorage.hpp:190-196 | An empty string, on the heap exactly when the capacity exceeds 22, with room for at least the requested capacity. |
| Storage.StringStorage.Fill | Code/Engine/String/StringStorage.hpp:199-223 | The contents are `count` copies of the unit, on the heap exactly when `count` exceeds 22, where the heap capacity is the growth policy's for `count` from 22. |
| Storage.StringStorage.FromUnits | Code/Engine/String/StringStorage.hpp:230-250 | The contents are the given units, with the layout and heap capacity that the growth policy determines. |
| Storage.StringStorage.FromCString | Code/Engine/String/StringStorage.hpp:226-227 | The contents are the C string up to its first 0. |
| Storage.StringStorage.Copy | Code/Engine/String/StringStorage.hpp:253-256 | The copy has the other string's contents. |
| Storage.StringStorage.CopyPrefix | Code/Engine/String/StringStorage.hpp:266-268 | The contents are the first `min(len, size)` units of the other string. |
| Storage.StringStorage.Take | Code/Engine/String/StringStorage.hpp:259-263 | Takes over the other string's buffer, layout and contents; the source is left empty and inline. |
| Storage.StringStorage.CopyAssign | Code/Engine/String/StringStorage.hpp:271-294 | As written: copies the other string's contents, but self-assignment empties the string. |
| Storage.StringStorage.CopyAssignFixed | Code/Engine/String/StringStorage.hpp:271-294 | Corrected copy assignment: the contents become the other string's, self-assignment included. |
| Storage.StringStorage.MoveAssign | Code/Engine/String/StringStorage.hpp:297-302 | Takes the other string's contents and buffer and leaves it empty and inline. Self-move-assignment empties the string. |
| Storage.StringStorage.AssignUnits | Code/Engine/String/StringStorage.hpp:324-359 | Assigning a `std::string` or view: the contents become its units, on the heap exactly when there are more than 22. |
| Storage.StringStorage.AssignCString | Code/Engine/String/StringStorage.hpp:305-321 | The contents become the C string up to its first 0. |
| Storage.StringStorage.AssignUnit | Code/Engine/String/StringStorage.hpp:362-368 | The contents become the single unit, inline. |
| Storage.StringStorage.Reserve | Code/Engine/String/StringStorage.hpp:543-555 | Contents are unchanged. A request within the capacity changes nothing. Otherwise the new capacity is the growth policy's and covers the request up to the maximum. The string ends on the heap exactly when it was there already or the request exceeds 22. |
| Storage.StringStorage.ReserveExtra | Code/Engine/String/StringStorage.hpp:558-561 | Reserves the size plus the extra, wrapped to `usize`. Contents are unchanged. The capacity and layout are the ones `Reserve` gives for that request, and nothing changes when it fits. |
| Storage.StringStorage.Clear | Code/Engine/String/StringStorage.hpp:601-604 | Empties the string and keeps its buffer and capacity. |
| Storage.StringStorage.PlusAssignUnits | Code/Engine/String/StringStorage.hpp:392-434 | `+=` of a C string, `std::string` or view appends its units. The layout and capacity are those that reserving the old size plus their count leaves. When that fits the old capacity, the buffer is kept. |
| Storage.StringStorage.PlusAssign | Code/Engine/String/StringStorage.hpp:377-389 | `+=` of a string appends its contents, also when it is the string itself. The layout and capacity are those that reserving the old size plus the other size leaves. When that fits the old capacity, the buffer is kept. |
| Storage.StringStorage.PlusAssignUnit | Code/Engine/String/StringStorage.hpp:437-448 | `+=` of a unit appends that unit. The layout and capacity are those that reserving the old size plus one leaves. When that fits the old capacity, the buffer is kept. |
| Storage.StringStorage.Concat | Code/Engine/String/StringStorage.hpp:459-480 | `+` with a C string, `std::string` or view gives a fresh string holding the two contents concatenated. |
| Storage.StringStorage.ConcatStorage | Code/Engine/String/StringStorage.hpp:451-456 | `+` with a string gives a fresh string holding both contents. |
| Storage.StringStorage.ConcatUnit | Code/Engine/String/StringStorage.hpp:483-488 | `+` with a unit gives a fresh string with the unit appended. |
| Storage.StringStorage.Append | Code/Engine/String/StringStorage.hpp:622-633 | `Append(str, len)` appends the units. An empty append changes nothing. The layout and capacity are those that reserving the old size plus `len` leaves. When that fits the old capacity, the buffer is kept. |
| Storage.StringStorage.AppendCString | Code/Engine/String/StringStorage.hpp:616-619 | Appends the C string up to its first 0. The layout and capacity are those that reserving the old size plus its length leaves. When that fits the old capacity, the buffer is kept. |
| Storage.StringStorage.AppendStorage | Code/Engine/String/StringStorage.hpp:607-613 | Appends the other string's contents. The layout and capacity are those that reserving the old size plus the other size leaves. When that fits the old capacity, the buffer is kept. |
| Storage.StringStorage.AppendUnit | Code/Engine/String/StringStorage.hpp:636-649 | Appends `count` copies of the unit. A count of 0 changes nothing. The layout and capacity are those that reserving the old size plus `count` leaves. When that fits the old capacity, the buffer is kept. |
| Storage.StringStorage.Resize | Code/Engine/String/StringStorage.hpp:564-574 | The size becomes `n`. A longer `n` pads the string with the unit, and a shorter one cuts it to its first `n` units. Cutting keeps the buffer, layout and capacity. Growing leaves the layout and capacity that reserving `size + n` gives, as the source reserves `n` extra units. |
| Storage.StringStorage.ShrinkToFit | Code/Engine/String/StringStorage.hpp:577-586 | As written: contents are kept and a short heap string moves inline. A full long heap string, whose size equals its capacity, is left exactly as it is. A long one with spare room is reallocated through the growth policy, so its capacity never goes down. |
| Storage.StringStorage.ShrinkToFitFixed | Code/Engine/String/StringStorage.hpp:577-586 | Corrected: contents are kept, and a long heap string ends with capacity equal to its size. |
| Storage.StringStorage.Equals | Code/Engine/String/StringStorage.hpp:491-494 | Two strings are equal exactly when their contents are. |
| Storage.StringStorage.EqualsUnits | Code/Engine/String/StringStorage.hpp:503-512 | Equal to a `std::string` or view exactly when the contents match. |
| Storage.StringStorage.EqualsCString | Code/Engine/String/StringStorage.hpp:497-500 | Equal to a C string exactly when `Data()` with its terminator is a prefix of it. For contents without an embedded 0, this means equal to the C string's units. |
| Storage.StringStorage.EqualsUnit | Code/Engine/String/StringStorage.hpp:515-518 | Equal to a unit exactly when the contents are that one unit. |
| Storage.StringStorage.Front | Code/Engine/String/StringStorage.hpp:694-697 | The first unit of `Data()`, which is the first unit of a non-empty string. |
| Storage.StringStorage.Back | Code/Engine/String/StringStorage.hpp:700-703 | The last unit of a non-empty string. |
| Storage.StringStorage.At | Code/Engine/String/StringStorage.hpp:713-717 | The unit at an in-range position. |
| Storage.StringStorage.SetAt | Code/Engine/String/StringStorage.hpp:706-710 | Writing through `operator[]` changes exactly that position of the contents. |
| Storage.StringStorage.FindUnit | Code/Engine/String/StringStorage.hpp:720-743 | As written (fallback path): an offset past the end gives `NPos`; otherwise the result is the first occurrence counted from index 0, whatever the offset. |
| Storage.StringStorage.FindUnitFixed | Code/Engine/String/StringStorage.hpp:720-743 | Corrected: the first occurrence at or after the offset, or `NPos`. |
| Storage.StringStorage.FindFirstOfUnit | Code/Engine/String/StringStorage.hpp:811-834 | As written (fallback path): like `FindUnit`, the first occurrence from index 0, whatever the offset. |
| Storage.StringStorage.FindUnits | Code/Engine/String/StringStorage.hpp:758-796 | Substring search: `NPos` or the least position at or after the offset where the pattern occurs. The empty pattern is found at an offset up to the size. |
| Storage.StringStorage.FindFirstOf | Code/Engine/String/StringStorage.hpp:849-889 | The first index at or after the offset whose unit is in the set, or `NPos`. |
| Storage.StringStorage.FindFirstNotOfUnit | Code/Engine/String/StringStorage.hpp:1004-1031 | The first index at or after the offset whose unit differs from the given one, or `NPos`. |
| Storage.StringStorage.FindFirstNotOf | Code/Engine/String/StringStorage.hpp:1046-1086 | The first index at or after the offset whose unit is outside the set, or `NPos`. |
| Storage.StringStorage.FindLastOfUnit | Code/Engine/String/StringStorage.hpp:904-936 | As written: the backward scan starts one unit past `min(off, size-1)`, on the terminator when `off` reaches the end. The result is the last occurrence in `Data()` at or before `min(off, size-1)+1`. |
| Storage.StringStorage.FindLastOfUnitFixed | Code/Engine/String/StringStorage.hpp:904-936 | Corrected: the last occurrence at or before `min(off, size-1)`, or `NPos`. |
| Storage.StringStorage.FindLastOf | Code/Engine/String/StringStorage.hpp:951-989 | As written: an empty set gives `NPos`, and the scan covers only indices strictly below `min(off, size-1)`, so the unit at the offset is never examined. |
| Storage.StringStorage.FindLastOfFixed | Code/Engine/String/StringStorage.hpp:951-989 | Corrected: the last index at or before `min(off, size-1)` whose unit is in the set, or `NPos`. |
| Storage.StringStorage.FindLastNotOfUnit | Code/Engine/String/StringStorage.hpp:1102-1129 | As written: the backward scan starts one unit past `min(off, size-1)`. At the full offset it starts on the terminator, which any unit other than 0 finds. |
| Storage.StringStorage.FindLastNotOfUnitFixed | Code/Engine/String/StringStorage.hpp:1102-1129 | Corrected: the last index at or before `min(off, size-1)` whose unit differs, or `NPos`. |
| Storage.StringStorage.FindLastNotOf | Code/Engine/String/StringStorage.hpp:1144-1186 | As written: an empty set gives `NPos`, and the scan covers only indices strictly below `min(off, size-1)`. |
| Storage.StringStorage.FindLastNotOfFixed | Code/Engine/String/StringStorage.hpp:1144-1186 | Corrected: the last index at or before `min(off, size-1)` whose unit is outside the set, or `NPos`. |
| Storage.StringStorage.ContainUnit | Code/Engine/String/StringStorage.hpp:664-667 | True exactly when the unit occurs at some index at or after the offset. |
| Storage.StringStorage.ContainUnitAsWritten | Code/Engine/String/StringStorage.hpp:664-667 | As written on the fallback path: an offset past the end gives false. Otherwise the result is true exactly when the unit occurs anywhere in the string, whatever the offset. |
| Storage.StringStorage.ContainUnits | Code/Engine/String/StringStorage.hpp:670-691 | True exactly when the pattern occurs at some position at or after the offset. |
| SearchSpec.TraitsFind | Code/Engine/String/StringStorage.hpp:736-740 | `char_traits::find` over a window: -1 when the unit is absent, otherwise its first index in the window. |
| SearchSpec.FirstIndex | Code/Engine/String/StringStorage.hpp:849-889 | A reference forward scan that meets the first-hit predicate, so the predicate always has a solution. |
| SearchSpec.LastIndex | Code/Engine/String/StringStorage.hpp:951-989 | A reference backward scan that meets the last-hit predicate. |
| SearchSpec.FirstHitUnique | Code/Engine/String/StringStorage.hpp:849-889 | At most one result meets the first-hit predicate, so every forward search is determined. |
| SearchSpec.LastHitUnique | Code/Engine/String/StringStorage.hpp:951-989 | At most one result meets the last-hit predicate. |
| SearchSpec.FindOneUnit | Code/Engine/String/StringStorage.hpp:758-796 | Searching for a one-unit pattern is the same as searching for that unit from the offset. |
| SearchSpec.MatchHead | Code/Engine/String/StringStorage.hpp:770-790 | A match of a non-empty pattern starts with the pattern's first unit, which is the unit the search looks for first. |
| SearchSpec.FoundIffMatch | Code/Engine/String/StringStorage.hpp:670-691 | A substring search succeeds exactly when the pattern occurs at or after the offset; this is what `Contain` tests. |
| SearchSpec.LastNotOfSeesTerminator | Code/Engine/String/StringStorage.hpp:1102-1129 | A backward not-of scan that includes the terminator returns the size for any non-zero unit. |
| SearchSpec.LastOfIgnoresTerminator | Code/Engine/String/StringStorage.hpp:904-936 | For a non-zero unit, scanning `Data()` including the terminator gives the same result as scanning the contents. The as-written last-of search is therefore harmless at the full offset. |
| SearchSpec.FirstFromStartBeforeOffset | Code/Engine/String/StringStorage.hpp:720-743 | When the unit occurs before the offset, the as-written search returns an index before the offset. |
| SearchSpec.LastHitSkipsTop | Code/Engine/String/StringStorage.hpp:1170-1172 | A hit exactly at the start index is missed by the scan that starts below it, but found by the scan that includes it. |
| Strings.Substr | Code/Engine/String/String.cpp:175-190 | As written: an offset past the end, or a length of 0, gives a valid empty string. Otherwise the first `min(len, size)` units are copied from index 0 into a string whose size stays 0, overwriting its terminator. When the first unit is not 0, the result is left in an invalid state. |
| Strings.SubstrFixed | Code/Engine/String/String.cpp:175-190 | Corrected: the units from the offset, at most `len` of them and never past the end; an offset past the end gives an empty string. |
| Strings.Left | Code/Engine/String/String.cpp:202-205 | The first `min(len, size)` units. |
| Strings.Right | Code/Engine/String/String.cpp:207-211 | The last `len` units. A `len` above the size wraps the offset past the end and gives an empty string. |
| Strings.LeftAsWritten | Code/Engine/String/String.cpp:202-205 | As written through `Substr(0, len)`: the result keeps size 0. Its buffer holds the first `min(len, size)` units over the terminator, so a non-empty request on a string without a leading 0 leaves an invalid string. |
| Strings.RightAsWritten | Code/Engine/String/String.cpp:207-211 | As written through `Substr(size - len, len)`: a `len` of 0 or above the size gives an empty string. Otherwise the result has size 0, and its buffer holds the first `len` units, not the last. |
| Colors.Color32.FromColor | Code/Engine/Math/Color.hpp:531-632 | Every named colour is opaque except `Transparent`, whose alpha is 0. |
| Colors.Color32.Default | Code/Engine/Math/Color.hpp:139-144 | The default colour is the one `Color::Black` converts to, and it packs to `0xFF000000`. |
| Colors.Color32.White | Code/Engine/Math/Color.hpp:634-637 | `Color32::White()` equals the conversion of `Color::White` through `Color32(Color)`. |
| Colors.Color32.Black | Code/Engine/Math/Color.hpp:639-642 | `Color32::Black()` equals the conversion of `Color::Black` through `Color32(Color)`. |
| Colors.Color32.Gray | Code/Engine/Math/Color.hpp:644-647 | `Color32::Gray()` equals the conversion of `Color::Gray` through `Color32(Color)`. |
| Colors.Color32.Silver | Code/Engine/Math/Color.hpp:649-652 | `Color32::Silver()` equals the conversion of `Color::Silver` through `Color32(Color)`. |
| Colors.Color32.Red | Code/Engine/Math/Color.hpp:654-657 | `Color32::Red()` equals the conversion of `Color::Red` through `Color32(Color)`. |
| Colors.Color32.Maroon | Code/Engine/Math/Color.hpp:659-662 | `Color32::Maroon()` equals the conversion of `Color::Maroon` through `Color32(Color)`. |
| Colors.Color32.Pink | Code/Engine/Math/Color.hpp:664-667 | `Color32::Pink()` equals the conversion of `Color::Pink` through `Color32(Color)`. |
| Colors.Color32.Crimson | Code/Engine/Math/Color.hpp:669-672 | `Color32::Crimson()` equals the conversion of `Color::Crimson` through `Color32(Color)`. |
| Colors.Color32.Coral | Code/Engine/Math/Color.hpp:674-677 | `Color32::Coral()` equals the conversion of `Color::Coral` through `Color32(Color)`. |
| Colors.Color32.Blue | Code/Engine/Math/Color.hpp:679-682 | `Color32::Blue()` equals the conversion of `Color::Blue` through `Color32(Color)`. |
| Colors.Color32.Navy | Code/Engine/Math/Color.hpp:684-687 | `Color32::Navy()` equals the conversion of `Color::Navy` through `Color32(Color)`. |
| Colors.Color32.Cyan | Code/Engine/Math/Color.hpp:689-692 | `Color32::Cyan()` equals the conversion of `Color::Cyan` through `Color32(Color)`. |
| Colors.Color32.Teal | Code/Engine/Math/Color.hpp:694-697 | `Color32::Teal()` equals the conversion of `Color::Teal` through `Color32(Color)`. |
| Colors.Color32.SkyBlue | Code/Engine/Math/Color.hpp:699-702 | `Color32::SkyBlue()` equals the conversion of `Color::SkyBlue` through `Color32(Color)`. |
| Colors.Color32.Green | Code/Engine/Math/Color.hpp:704-707 | `Color32::Green()` equals the conversion of `Color::Green` through `Color32(Color)`. |
| Colors.Color32.Lime | Code/Engine/Math/Color.hpp:709-712 | `Color32::Lime()` equals the conversion of `Color::Lime` through `Color32(Color)`. |
| Colors.Color32.Olive | Code/Engine/Math/Color.hpp:714-717 | `Color32::Olive()` equals the conversion of `Color::Olive` through `Color32(Color)`. |
| Colors.Color32.Emerald | Code/Engine/Math/Color.hpp:719-722 | `Color32::Emerald()` equals the conversion of `Color::Emerald` through `Color32(Color)`. |
| Colors.Color32.Forest | Code/Engine/Math/Color.hpp:724-727 | `Color32::Forest()` equals the conversion of `Color::Forest` through `Color32(Color)`. |
| Colors.Color32.Yellow | Code/Engine/Math/Color.hpp:729-732 | `Color32::Yellow()` equals the conversion of `Color::Yellow` through `Color32(Color)`. |
| Colors.Color32.Orange | Code/Engine/Math/Color.hpp:734-737 | `Color32::Orange()` equals the conversion of `Color::Orange` through `Color32(Color)`. |
| Colors.Color32.Gold | Code/Engine/Math/Color.hpp:739-742 | `Color32::Gold()` equals the conversion of `Color::Gold` through `Color32(Color)`. |
| Colors.Color32.Amber | Code/Engine/Math/Color.hpp:744-747 | `Color32::Amber()` equals the conversion of `Color::Amber` through `Color32(Color)`. |
| Colors.Color32.Purple | Code/Engine/Math/Color.hpp:749-752 | `Color32::Purple()` equals the conversion of `Color::Purple` through `Color32(Color)`. |
| Colors.Color32.Violet | Code/Engine/Math/Color.hpp:754-757 | `Color32::Violet()` equals the conversion of `Color::Violet` through `Color32(Color)`. |
| Colors.Color32.Magenta | Code/Engine/Math/Color.hpp:759-762 | `Color32::Magenta()` equals the conversion of `Color::Magenta` through `Color32(Color)`. |
| Colors.Color32.Lavender | Code/Engine/Math/Color.hpp:764-767 | `Color32::Lavender()` equals the conversion of `Color::Lavender` through `Color32(Color)`. |
| Colors.Color32.Brown | Code/Engine/Math/Color.hpp:769-772 | `Color32::Brown()` equals the conversion of `Color::Brown` through `Color32(Color)`. |
| Colors.Color32.Beige | Code/Engine/Math/Color.hpp:774-777 | `Color32::Beige()` equals the conversion of `Color::Beige` through `Color32(Color)`. |
| Colors.Color32.Tan | Code/Engine/Math/Color.hpp:779-782 | `Color32::Tan()` equals the conversion of `Color::Tan` through `Color32(Color)`. |
| Colors.Color32.Chocolate | Code/Engine/Math/Color.hpp:784-787 | `Color32::Chocolate()` equals the conversion of `Color::Chocolate` through `Color32(Color)`. |
| Colors.Color32.Transparent | Code/Engine/Math/Color.hpp:789-792 | `Color32::Transparent()` equals the conversion of `Color::Transparent` through `Color32(Color)`. |
| Colors.Color32.PackChannels | Code/Engine/Math/Color.hpp:799-805 | The packed word is `A·2^24 + B·2^16 + G·2^8 + R` (`0xAABBGGRR`). |
| Colors.Color32.PackU32 | Code/Engine/Math/Color.hpp:794-797 | The instance form packs the colour's own channels the same way. |
| Colors.Color32.PreMulChannel | Code/Engine/Math/Color.hpp:820-828 | Alpha 0 gives 0 and alpha 255 the colour. The result never exceeds the colour and is `color·alpha/255` rounded to nearest. |
| Colors.Color32.PreMulAlpha | Code/Engine/Math/Color.hpp:807-818 | As written: R and G are premultiplied and alpha is kept, but blue is computed from G. |
| Colors.Color32.PreMulAlphaFixed | Code/Engine/Math/Color.hpp:807-818 | Corrected: each channel is premultiplied independently, and none increases. |
| Colors.Color32.UnPreMulAlpha | Code/Engine/Math/Color.hpp:830-842 | Alpha 0 gives transparent black and alpha 255 the colour itself. Otherwise each channel is un-premultiplied with rounding and truncated to 8 bits. |
| Colors.Color32.UnPreMulChannel | Code/Engine/Math/Color.hpp:844-852 | As written: for alpha strictly between 0 and 255 the result is `256 - color` modulo 256, whatever the alpha, because the division by alpha is lost. |
| Colors.Color32.UnPreMulChannelFixed | Code/Engine/Math/Color.hpp:844-852 | Corrected to the instance form: alpha 0 gives 0, alpha 255 the colour, and a colour not above alpha never decreases. |
| Colors.UnPreMulPrecedence | Code/Engine/Math/Color.hpp:851 | The as-written expression equals `color·255`, whose low byte is `256 - color`. |
| Colors.PackIsSum | Code/Engine/Math/Color.hpp:801-804 | The OR of the shifted channels equals their weighted sum, because the fields do not overlap. |
| Colors.ChannelIsByte | Code/Engine/Math/Color.hpp:9-12 | Extracting a channel, `(p >> shift) & 0xFF`, is the byte at that position. |
| Colors.PackRoundTrip | Code/Engine/Math/Color.hpp:794-805 | Unpacking each channel of a packed colour gives back R, G, B and A. |
| Colors.FromColorNeutrals | Code/Engine/Math/Color.hpp:634-792 | The enum switch agrees with the named static colours: black, white, grey, silver, the browns and transparent. |
| Colors.FromColorWarm | Code/Engine/Math/Color.hpp:634-792 | The same agreement for the reds, pinks, yellows, oranges, gold and amber. |
| Colors.FromColorCool | Code/Engine/Math/Color.hpp:634-792 | The same agreement for the blues and greens. |
| Colors.FromColorPurples | Code/Engine/Math/Color.hpp:634-792 | The same agreement for purple, violet, magenta and lavender. |
| Colors.DefaultIsOpaqueBlack | Code/Engine/Math/Color.hpp:139-144 | A default-constructed colour is opaque black. |
| Colors.PreMulAlphaBlueFromGreen | Code/Engine/Math/Color.hpp:816 | Half-transparent pure green premultiplies to (0,128,128,128) as written and to (0,128,0,128) corrected. |
| Colors.UnPreMulChannelPrecedence | Code/Engine/Math/Color.hpp:851 | Un-premultiplying 100 at alpha 128 gives 156 as written and 199 corrected. |
| Flags.Flag.Default | Code/Engine/Utils/Flag.hpp:85 | A default-constructed flag has no bit set, and tests false against every enum value. |
| Flags.Flag.Or | Code/Engine/Utils/Flag.hpp:100-108 | Bit `i` of the result is set exactly when it is set in either operand. |
| Flags.Flag.And | Code/Engine/Utils/Flag.hpp:122-130 | Bit `i` is set exactly when it is set in both operands. |
| Flags.Flag.Xor | Code/Engine/Utils/Flag.hpp:144-152 | Bit `i` is set exactly when it is set in one operand only. |
| Flags.Flag.Test | Code/Engine/Utils/Flag.hpp:171-174 | True exactly when the flag and the tested value share a bit. |
| Flags.Flag.TestAll | Code/Engine/Utils/Flag.hpp:176-179 | True exactly when every bit of the argument is set in the flag. |
| Flags.Flag.Any | Code/Engine/Utils/Flag.hpp:181-184 | True exactly when some bit is set. |
| Flags.Flag.EqualsEnum | Code/Engine/Utils/Flag.hpp:186-190 | True exactly when the flag and the enum value have the same bits. |
| Flags.EnumOr | Code/Engine/Utils/Flag.hpp:15-17 | `enum \| enum`: the union of the bits. |
| Flags.EnumAnd | Code/Engine/Utils/Flag.hpp:18-20 | `enum & enum`: the intersection of the bits. |
| Flags.EnumXor | Code/Engine/Utils/Flag.hpp:21-23 | `enum ^ enum`: the symmetric difference of the bits. |
| Flags.EnumOrFlag | Code/Engine/Utils/Flag.hpp:24-26 | `enum \| Flag` is the flag's `\|` with the enum on the left. |
| Flags.EnumAndFlag | Code/Engine/Utils/Flag.hpp:27-29 | `enum & Flag` is the flag's `&`. |
| Flags.EnumXorFlag | Code/Engine/Utils/Flag.hpp:30-32 | `enum ^ Flag` is the flag's `^`. |
| Flags.EnumNot | Code/Engine/Utils/Flag.hpp:33-35 | `~enum` sets exactly the bits below 32 that were clear. |
| Flags.EnumIsZero | Code/Engine/Utils/Flag.hpp:36-38 | `!enum` is true exactly when no bit is set. |
| Flags.FlagVariable.constructor | Code/Engine/Utils/Flag.hpp:85 | A default flag holds no bits. |
| Flags.FlagVariable.Assign | Code/Engine/Utils/Flag.hpp:94-98 | Assigning an enum value replaces the flag's bits with its bits. |
| Flags.FlagVariable.OrAssign | Code/Engine/Utils/Flag.hpp:110-120 | `\|=` stores the OR, which contains both the old bits and the argument's bits. |
| Flags.FlagVariable.AndAssign | Code/Engine/Utils/Flag.hpp:132-142 | `&=` stores the AND, which lies within both the old bits and the argument's bits. |
| Flags.FlagVariable.XorAssign | Code/Engine/Utils/Flag.hpp:154-164 | `^=` stores the XOR of the old bits and the argument's bits. |
| Flags.SameBits | Code/Engine/Utils/Flag.hpp:186-190 | Two 32-bit values with the same bits are equal. |
| Flags.EqualBitsMeaning | Code/Engine/Utils/Flag.hpp:186-190 | `==` on the underlying value means equality of every bit, in both directions. |
| Flags.NonZeroHas | Code/Engine/Utils/Flag.hpp:181-184 | A value is non-zero exactly when some bit is set. |
| Flags.SubsetMeaning | Code/Engine/Utils/Flag.hpp:176-179 | `(v & g) == g` holds exactly when every bit of `g` is set in `v`. |
| Flags.DefaultIsEmpty | Code/Engine/Utils/Flag.hpp:85 | The default flag is 0 and `Any` is false. |
| Flags.OrThenTest | Code/Engine/Utils/Flag.hpp:100-174 | After OR-ing in a non-zero value, `Test` of that value is true. |
| Flags.AndWithin | Code/Engine/Utils/Flag.hpp:122-179 | The AND with `f` lies within `f`. |
| Flags.TestAllSelf | Code/Engine/Utils/Flag.hpp:176-179 | Every flag contains all of its own bits. |
| Flags.XorTwice | Code/Engine/Utils/Flag.hpp:144-152 | XOR-ing the same value twice restores the flag. |
| Flags.EnumOrCommutes | Code/Engine/Utils/Flag.hpp:15-26 | `enum \| enum` commutes and agrees with `enum \| Flag`. |
| Flags.EnumNotTwice | Code/Engine/Utils/Flag.hpp:33-35 | Complementing twice restores the value. |
| MathFunction.CeilPow2 | Code/Engine/Math/MathFunction.hpp:35-40 | An `n` below 2 or not a power of two gives 0. Otherwise `r` is the least block count with `r·n ≥ x`. |
| MathFunction.BlockSizeIffSingleBit | Code/Engine/Math/MathFunction.hpp:37 | The guard `n >= 2 && has_single_bit(n)` holds exactly for the powers of two from 2 up. |
| MathFunction.CeilPow2Invalid | Code/Engine/Math/MathFunction.hpp:37-38 | Any `n` that is not such a power of two gives 0. |
| MathFunction.CeilPow2IsCeiling | Code/Engine/Math/MathFunction.hpp:39 | For `n = 2^k`, the shift by `countr_zero(n)` equals the ceiling division `(x + n - 1) / n`. |
| MathFunction.Pow2HasSingleBit | Code/Engine/Math/MathFunction.hpp:37 | Every power of two has exactly one bit set. |
| MathFunction.Ceil64 | Code/Engine/Math/MathFunction.hpp:44 | The least number of 64-unit blocks that cover `x`. |
| MathFunction.Ceil32 | Code/Engine/Math/MathFunction.hpp:49 | The least number of 32-unit blocks that cover `x`. |
| MathFunction.Ceil16 | Code/Engine/Math/MathFunction.hpp:54 | The least number of 16-unit blocks that cover `x`. |
| MathFunction.Ceil8 | Code/Engine/Math/MathFunction.hpp:59 | The least number of 8-unit blocks that cover `x`. |
| MathFunction.Ceil4 | Code/Engine/Math/MathFunction.hpp:64 | The least number of 4-unit blocks that cover `x`. |
| MathFunction.CeilExamples | Code/UnitTest/Tests/Test_Math.hpp:33-69 | All 27 values of the engine's CeilPow2 and Ceil4…Ceil64 tests hold. |
| MathFunction.Clamp | Code/Engine/Math/MathFunction.hpp:66-71 | With `low ≤ high` the result lies in `[low, high]` and is the value when the value is in range. A value above `high`, or `low > high`, gives `high`. |
| MathFunction.Clamp01 | Code/Engine/Math/MathFunction.hpp:73-77 | The result lies in [0, 1] and equals the value when it is already there. |
| MathFunction.SignMask | Code/Engine/Math/MathFunction.hpp:81 | The arithmetic shift by `bits - 1` is -1 for a negative value and 0 otherwise. |
| MathFunction.Abs | Code/Engine/Math/MathFunction.hpp:79-84 | `(value + mask) ^ mask` is non-negative, is either the value or its negation, and fits the signed width. |
| MathFunction.AbsExamples | Code/UnitTest/Tests/Test_Math.hpp:81-84 | The engine's integer `Abs` test values hold for 32-bit integers. |
| StringScenarios.GrowthSteps | Code/Engine/String/StringStorage.hpp:1229-1240 | The growth policy takes 28 units to 33 from inline, 48 to 63 from 33, and 28 to 94 from 63. |
| StringScenarios.ConstructorTest | Code/UnitTest/Tests/Test_String.hpp:25-42 | The constructor tests hold: empty, "Hello", "World" from a length, "Hel" from a prefix, and a move that empties its source. |
| StringScenarios.AssignmentTest | Code/UnitTest/Tests/Test_String.hpp:45-62 | Copy, move, C-string and unit assignment give "Beta", "Gamma", "Delta" and "X". Self copy-assignment empties the string as written and keeps it corrected. |
| StringScenarios.AppendTest | Code/UnitTest/Tests/Test_String.hpp:65-72 | `+=` of " World" and `Append('!')` give "Hello World" and "Hello World!". |
| StringScenarios.AppendStorageTest | Code/UnitTest/Tests/Test_String.hpp:73-79 | `+=` of a string and `Append(ptr, len)` give "Hello World!, Hi" and "Hello World!, Hi There". |
| StringScenarios.ResizeTest | Code/UnitTest/Tests/Test_String.hpp:82-97 | Resize grows to "TestXX" and cuts to "Te", `Clear` empties, and `Reserve(50)` gives a capacity of at least 50. |
| StringScenarios.ResizeMovesToHeap | Code/Engine/String/StringStorage.hpp:564-574 | Resizing a 12-unit inline string to 15 reserves 27 units, so the string moves to the heap with capacity 33. |
| StringScenarios.ShrinkLongString | Code/UnitTest/Tests/Test_String.hpp:98-103 | As written: the 28-unit heap string gets `ReserveExtra(20)`, a request for 48 that the growth policy turns into capacity 63. Shrinking then leaves a capacity of 94, not 28. |
| StringScenarios.ShrinkLongStringFixed | Code/UnitTest/Tests/Test_String.hpp:98-103 | With the corrected shrink, the capacity equals the size, 28. |
| StringScenarios.SubstrTest | Code/UnitTest/Tests/Test_String.hpp:176-183 | Front and Back of "ABCDEF" are 'A' and 'F'. The as-written `Substr(2, 3)` has size 0, not "CDE". |
| StringScenarios.SubstringFixedTest | Code/UnitTest/Tests/Test_String.hpp:176-193 | With the corrected substring: "CDE", "ABC", "EF" and the full "ABCDEF". |
| StringScenarios.FirstSearchesHelloWorld | Code/UnitTest/Tests/Test_String.hpp:207-221 | In "Hello, World!": first 'o' at 4, first non-'H' at 1, first of "or" at 4. |
| StringScenarios.LastSearchesHelloWorld | Code/UnitTest/Tests/Test_String.hpp:207-221 | Last 'o' at 8 and last of "lo" at 10. The last non-'!' is 13 (the terminator) as written, but 11 corrected, the value the test expects. |
| StringScenarios.ContainHelloWorld | Code/UnitTest/Tests/Test_String.hpp:215-216 | "Hello, World!" contains 'W' and does not contain 'x'. |
| StringScenarios.FindWithOffset | Code/Engine/String/StringStorage.hpp:720-743 | `Find('o', 5)` on "Hello, World!" gives 4, before the offset, as written; corrected it gives 8. |
| StringScenarios.LastSearchesOnHello | Code/Engine/String/StringStorage.hpp:904-1186 | On "Hello", as written: `FindLastOf("o")` and `FindLastNotOf("")` give `NPos`, and `FindLastOf('o', 3)` gives 4, past its offset. The corrected searches give 4, 4 and `NPos`. |
| StringScenarios.CompareTest | Code/UnitTest/Tests/Test_String.hpp:225-237 | Equal strings compare equal to each other and to the C string; different ones do not. |
| StringScenarios.IndexTest | Code/UnitTest/Tests/Test_String.hpp:240-249 | Writing through `operator[]` gives "modify", and const indexing reads 'R' and 'd'. |

## Left out

- The `_USE_STD_VECTOR_ALGORITHMS` paths of the searches are left out. They call the standard library's vectorised search. The model follows the portable fallback loops, and the findings about ignored offsets are findings about those loops.
- `Append(T)` for arithmetic `T` is left out: it formats the number with `std::to_chars`, a foreign call.
- Memory allocation is modelled as fresh arrays. Allocation failure, the allocator and the destructor are left out.
- Iterators are left out: `begin`, `end`, the reverse and const forms, and the iterator tests.
- `PushBack` and `PushFront`, and the `String` members other than `Substr`, `Left` and `Right`, are not part of this model.
- The vector types and the floating-point parts of `Color.hpp` are left out: `ColorF`, `Lerp` and the float conversions. The same goes for the floating-point `Abs` and floating-point `Clamp`.
- `Flag::operator~` is left out. It returns a reference to a temporary, so no value can be modelled. The free `~` on the enum is modelled (`Flags.EnumNot`).
- `Flags.Flag`: the enum's underlying type is taken to be a 32-bit unsigned integer. Narrower or signed underlying types are not modelled.
- `Colors.Color32.FromColor` covers the 32 named colours only. `Color` is an 8-bit enum and the switch has no default branch, so an unnamed value keeps the member defaults (0, 0, 0, 255). The `Color` datatype cannot hold such a value.
- `MathFunction.Abs` requires the value to be above the minimum of its width. For `int` and wider types, `value + mask` overflows at the minimum, which is undefined behaviour in C++. For 8- and 16-bit types the sum is computed in `int`, and the conversion back gives `Abs(min) == min`; the model does not state that case.
- `Storage.StringStorage.AppendStorage` requires the other string to be a different object. Self-append through `Append(const StringStorage&)` reads the old buffer after `Append(ptr, len)` may have released it.
- `Storage.StringStorage.AssignUnits`, `AssignCString`, `PlusAssignUnits` and `Append` take their units as a value. An argument that points into the string's own buffer is not modelled.
- `Storage.StringStorage.WithCapacity` promises room for at least the requested capacity, not the exact growth-policy value.
- `Storage.StringStorage.Resize` requires the old size plus `n` to fit the maximum capacity when growing. The loop writes `n` units past the old size, not `n - size`, and the model keeps that loop.
- Every size bound (`MaxStorageCapacity`) appears as a precondition. The engine only checks it with debug assertions.
- `Colors.Color32.UnPreMulChannelFixed` is specified by its boundary cases and by "a colour not above alpha never decreases", not by an exact formula.
- `Strings.Left` and `Strings.Right` are built on the corrected `SubstrFixed`. In the engine they call `Substr` and inherit its defect. `Strings.LeftAsWritten` and `Strings.RightAsWritten` model that behaviour (see Findings).
- `Storage.StringStorage.ContainUnit` is built on the corrected forward search. In the engine's fallback path, `Contain(ch, off)` inherits `Find(ch, off)`'s ignored offset; `Storage.StringStorage.ContainUnitAsWritten` models that.

## Findings

| source | as written | input that shows it | evidently intended | confidence | as-written member | corrected member |
|---|---|---|---|---|---|---|
| Code/Engine/Math/Color.hpp:816 | The blue channel of `PreMulAlpha()` is computed from `G` | `Color32(0,255,0,128)` gives `(0,128,128,128)` | `(B * A + 127) / 255` for blue, giving `(0,128,0,128)` | high (not executed) | Colors.PreMulAlphaBlueFromGreen | Colors.Color32.PreMulAlphaFixed |
| Code/Engine/Math/Color.hpp:851 | `(alpha >> 1) / alpha` binds before the addition, so nothing divides by alpha | colour 100, alpha 128 gives 156 | the instance form's rounded division, giving 199 | high (not executed) | Colors.UnPreMulChannelPrecedence | Colors.Color32.UnPreMulChannelFixed |
| Code/Engine/String/StringStorage.hpp:738 | The fallback `Find(ch, off)` searches from index 0 | `Find('o', 5)` on "Hello, World!" gives 4 | the first match at or after `off`: 8 | high (not executed) | StringScenarios.FindWithOffset | Storage.StringStorage.FindUnitFixed |
| Code/Engine/String/StringStorage.hpp:829 | The fallback `FindFirstOf(ch, off)` searches from index 0 | an occurrence before `off` is returned | the first match at or after `off` | high (not executed) | SearchSpec.FirstFromStartBeforeOffset | Storage.StringStorage.FindUnitFixed |
| Code/Engine/String/StringStorage.hpp:1102-1129 | The backward scan of `FindLastNotOf(ch)` starts on the terminator | `FindLastNotOf('!')` on "Hello, World!" gives 13 | 11, as the engine's own test expects | high (not executed) | StringScenarios.LastSearchesHelloWorld | Storage.StringStorage.FindLastNotOfUnitFixed |
| Code/Engine/String/StringStorage.hpp:904-936 | The backward scan of `FindLastOf(ch, off)` starts one unit past `off` (on the terminator when `off` is at the end) | `FindLastOf('o', 3)` on "Hello" gives 4 | the last match at or before `off`: `NPos` | high (not executed) | StringScenarios.LastSearchesOnHello | Storage.StringStorage.FindLastOfUnitFixed |
| Code/Engine/String/StringStorage.hpp:973-975 | The set `FindLastOf` scans indices strictly below `off`, so it never examines `off` itself | `FindLastOf("o")` on "Hello" gives `NPos` | 4, the last 'o' | high (not executed) | StringScenarios.LastSearchesOnHello | Storage.StringStorage.FindLastOfFixed |
| Code/Engine/String/StringStorage.hpp:1149-1172 | The set `FindLastNotOf` returns `NPos` for an empty set, and scans only indices strictly below `off` | `FindLastNotOf("")` on "Hello" gives `NPos` | 4, since every unit is outside the empty set | high (not executed) | StringScenarios.LastSearchesOnHello | Storage.StringStorage.FindLastNotOfFixed |
| Code/Engine/String/StringStorage.hpp:583-584 | `ShrinkToFit` reallocates through the growth policy | a 28-unit heap string with capacity 63 grows to 94 | capacity equal to the size, as the engine's own test expects | high (not executed) | StringScenarios.ShrinkLongString | Storage.StringStorage.ShrinkToFitFixed |
| Code/Engine/String/String.cpp:182-189 | `Substr` clamps to the whole size, copies from index 0 and leaves the size 0 | `Substr(2, 3)` on "ABCDEF" has size 0 | "CDE", as the engine's own test expects | high (not executed) | StringScenarios.SubstrTest | Strings.SubstrFixed |
| Code/Engine/String/StringStorage.hpp:271-294 | Copy assignment releases the buffer before copying from `other`, with no self-check | `a = a` on "Alpha" leaves an empty string | the contents are unchanged | high (not executed) | StringScenarios.AssignmentTest | Storage.StringStorage.CopyAssignFixed |
