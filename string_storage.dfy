// `StringStorage<char>` of Code/Engine/String/StringStorage.hpp: a string of 1-byte
// code units with small-string optimisation. Up to 22 units live in an inline
// 23-slot buffer; longer contents live in an owned heap buffer of `capacity + 1`
// units. In both layouts the unit after the last one is a 0 terminator.
//
// The union of the two layouts becomes one class: `isHeap` is the layout flag,
// `size` the shared size field, `heapCapacity` the heap layout's capacity field and
// `buf` whichever buffer `Buffer()` would return. The inline buffer shares its bytes
// with the heap layout's fields, so on every switch back to the inline layout the
// model hands out a fresh 23-slot array whose contents are not assumed.
module Storage {
  import opened Types
  import opened Bits
  import opened SearchSpec

  /** `LocalStorageCapacity` for a 1-byte unit: 22 / sizeof(char). */
  const LocalStorageCapacity: nat := 22

  /** `AllocateMask` for a 1-byte unit. */
  const AllocateMask: nat := 15

  /** `MaxStorageCapacity`: 2^63 - 1, the largest value of the 63-bit size field. */
  const MaxStorageCapacity: nat := 0x7FFF_FFFF_FFFF_FFFF

  /** `char_traits::length`: the number of units before the first 0. */
  function Length(str: seq<u8>): (n: nat)
    requires 0 in str
    ensures n < |str| && str[n] == 0
    ensures forall i :: 0 <= i < n ==> str[i] != 0
  {
    if str[0] == 0 then 0 else 1 + Length(str[1..])
  }

  /** The text of a NUL-terminated string. */
  function CString(str: seq<u8>): (s: seq<u8>)
    requires 0 in str
    ensures 0 !in s && s + [0] <= str
  {
    str[..Length(str)]
  }

  /** `count` copies of `ch`. */
  function Repeat(ch: u8, count: nat): (s: seq<u8>)
    ensures |s| == count && forall i :: 0 <= i < count ==> s[i] == ch
  {
    seq(count, _ => ch)
  }

  /** `request | AllocateMask`: the request rounded up to one below a multiple of 16. */
  function MaskRequest(request: usize): (r: usize)
    ensures r as int == request as int - request as int % 16 + 15
    ensures request <= r && r as int % 16 == 15
  {
    OrMask(request as nat);
    Or(request as nat, LowMask(4)) as usize
  }

  /** OR-ing with the 4-bit mask replaces the 4 low bits with ones. */
  lemma OrMask(x: nat)
    ensures Or(x, LowMask(4)) == x - x % 16 + 15
    ensures x <= x - x % 16 + 15 && (x - x % 16 + 15) % 16 == 15
    ensures x < UsizeModulus ==> x - x % 16 + 15 < UsizeModulus
  {
    OrLowMask(x, 4);
    ShrDiv(x, 4);
    ShlMul(Shr(x, 4), 4);
    Pow2Values();
    LowMaskPow2(4);
    RoundUp16(x);
  }

  /** `x - x % 16 + 15` is `16 * (x / 16) + 15`, the last value of x's block of 16. */
  lemma RoundUp16(x: nat)
    ensures x / 16 * 16 == x - x % 16
    ensures x <= x - x % 16 + 15 && (x - x % 16 + 15) % 16 == 15
    ensures x < UsizeModulus ==> x - x % 16 + 15 < UsizeModulus
  {
    var q := x / 16;
    DivModUnique(x, 16, q, x % 16);
    DivModUnique(16 * q + 15, 16, q, 15);
    if x < UsizeModulus {
      DivAtMost(x, 16, UsizeModulus / 16 - 1);
    }
  }

  /** The 256-entry table the set searches build: entry k is set when unit k is in `units`. */
  method BuildBitmap(units: seq<u8>) returns (bitmap: array<bool>)
    ensures fresh(bitmap) && bitmap.Length == 256
    ensures forall k :: 0 <= k < 256 ==> (bitmap[k] <==> k as u8 in units)
  {
    bitmap := new bool[256](_ => false);
    for i := 0 to |units|
      invariant forall k :: 0 <= k < 256 ==> (bitmap[k] <==> k as u8 in units[..i])
    {
      assert units[..i + 1] == units[..i] + [units[i]];
      bitmap[units[i] as int] := true;
    }
    assert units[..|units|] == units;
  }

  class StringStorage {
    /** The layout flag shared by both layouts. */
    var isHeap: bool
    /** The size field of the current layout. */
    var size: nat
    /** The heap layout's capacity field; meaningless in the inline layout. */
    var heapCapacity: nat
    /** The buffer `Buffer()` returns: the inline array or the heap allocation. */
    var buf: array<u8>

    /** `Capacity()`: the heap capacity, or 22 for the inline buffer. */
    function Capacity(): (r: nat)
      reads this
      ensures isHeap ==> r == heapCapacity
      ensures !isHeap ==> r == LocalStorageCapacity
    {
      if isHeap then heapCapacity else LocalStorageCapacity
    }

    /** The buffer matches the layout: `Capacity() + 1` units, and a heap capacity in range. */
    ghost predicate Layout()
      reads this
    {
      buf.Length == Capacity() + 1 &&
      (isHeap ==> LocalStorageCapacity < heapCapacity <= MaxStorageCapacity)
    }

    /** The invariant every public member keeps: the layout, and a terminated size within capacity. */
    ghost predicate Valid()
      reads this, buf
    {
      Layout() && size <= Capacity() && buf[size] == 0
    }

    /** The units of the string. */
    function Content(): (s: seq<u8>)
      reads this, buf
      requires Valid()
      ensures |s| == size
    {
      buf[..size]
    }

    /** `Data()`: the units followed by the terminator. */
    function Data(): (d: seq<u8>)
      reads this, buf
      requires Valid()
      ensures d == Content() + [0]
    {
      assert buf[..size + 1] == buf[..size] + [buf[size]];
      buf[..size + 1]
    }

    /** `Size()` */
    function Size(): (n: nat)
      reads this, buf
      requires Valid()
      ensures n == |Content()|
    {
      size
    }

    /** `Empty()` */
    function Empty(): (b: bool)
      reads this, buf
      requires Valid()
      ensures b <==> Content() == []
    {
      size == 0
    }

    /**
     * `CalculateAllocateCapacity`: the growth policy. The request is rounded up with
     * the allocation mask, the current capacity grows by half, and both are capped.
     */
    static function CalculateAllocateCapacity(request: usize, current: usize, max: usize): (r: usize)
      ensures MaskRequest(request) > max ==> r == max
      ensures current <= max ==> current <= r <= max
      ensures current <= max && request <= max ==> request <= r
      ensures MaskRequest(request) <= max && current <= max && current as int + current as int / 2 > max as int ==> r == max
      ensures MaskRequest(request) <= max && current <= max && current as int + current as int / 2 <= max as int ==>
        r as int == Max(MaskRequest(request) as int, current as int + current as int / 2)
    {
      var masked := MaskRequest(request);
      if masked > max then max
      else if current > Wrap(max as int - current as int / 2) then max
      else Wrap(Max(masked as int, current as int + current as int / 2))
    }

    /**
     * The capacity `Reserve(request)` leaves on a string whose capacity was
     * `capacity`: unchanged when the request fits, otherwise the growth policy's.
     */
    static function ReservedCapacity(capacity: nat, request: nat): (r: nat)
      requires capacity <= MaxStorageCapacity && request < UsizeModulus
      ensures capacity <= r <= MaxStorageCapacity
      ensures request <= MaxStorageCapacity ==> request <= r
    {
      if request <= capacity then capacity
      else CalculateAllocateCapacity(request as usize, capacity as usize, MaxStorageCapacity as usize) as nat
    }

    /** `InitSSOBuffer`: an empty inline string. */
    method InitSSOBuffer()
      requires buf.Length == LocalStorageCapacity + 1
      modifies this, buf
      ensures !isHeap && size == 0 && buf == old(buf) && heapCapacity == old(heapCapacity)
      ensures Valid() && Content() == []
    {
      isHeap := false;
      size := 0;
      buf[0] := 0;
    }

    /** `InitHeapBuffer`: an empty heap string whose capacity the growth policy picks. */
    method InitHeapBuffer(capacity: usize)
      modifies this
      ensures isHeap && size == 0 && fresh(buf)
      ensures heapCapacity == CalculateAllocateCapacity(capacity, LocalStorageCapacity as usize, MaxStorageCapacity as usize) as nat
      ensures Valid() && Content() == []
    {
      var c := CalculateAllocateCapacity(capacity, LocalStorageCapacity as usize, MaxStorageCapacity as usize);
      var b := new u8[c as int + 1];
      isHeap := true;
      size := 0;
      heapCapacity := c as nat;
      buf := b;
      buf[0] := 0;
    }

    /** `DeallocateBuffer`: releases a heap buffer and leaves an empty inline string. */
    method DeallocateBuffer()
      requires Valid()
      modifies this, buf
      ensures !isHeap && size == 0 && Valid() && Content() == []
      ensures old(isHeap) ==> fresh(buf)
      ensures !old(isHeap) ==> buf == old(buf)
    {
      if isHeap {
        buf := new u8[LocalStorageCapacity + 1];
      }
      InitSSOBuffer();
    }

    /** `MoveToHeap`: copies the inline units into a new heap buffer. */
    method MoveToHeap(capacity: usize)
      requires Valid() && !isHeap
      modifies this
      ensures isHeap && size == old(size) && fresh(buf)
      ensures heapCapacity == CalculateAllocateCapacity(capacity, LocalStorageCapacity as usize, MaxStorageCapacity as usize) as nat
      ensures Valid() && Content() == old(Content())
    {
      var c := CalculateAllocateCapacity(capacity, LocalStorageCapacity as usize, MaxStorageCapacity as usize);
      var b := new u8[c as int + 1];
      var n := size;
      forall i | 0 <= i < n {
        b[i] := buf[i];
      }
      isHeap := true;
      heapCapacity := c as nat;
      buf := b;
      buf[n] := 0;
    }

    /** `MoveToStack`: copies a short heap string into the inline buffer. */
    method MoveToStack()
      requires Valid() && isHeap && size <= LocalStorageCapacity
      modifies this
      ensures !isHeap && size == old(size) && fresh(buf)
      ensures Valid() && Content() == old(Content())
    {
      var b := new u8[LocalStorageCapacity + 1];
      var n := size;
      forall i | 0 <= i < n {
        b[i] := buf[i];
      }
      isHeap := false;
      buf := b;
      buf[n] := 0;
    }

    /** `ReallocateHeapBuffer`: moves a heap string to a buffer the growth policy sizes. */
    method ReallocateHeapBuffer(capacity: usize)
      requires Valid() && isHeap
      modifies this
      ensures isHeap && size == old(size) && fresh(buf)
      ensures heapCapacity == CalculateAllocateCapacity(capacity, old(heapCapacity) as usize, MaxStorageCapacity as usize) as nat
      ensures heapCapacity >= old(heapCapacity)
      ensures Valid() && Content() == old(Content())
    {
      var c := CalculateAllocateCapacity(capacity, heapCapacity as usize, MaxStorageCapacity as usize);
      var b := new u8[c as int + 1];
      var n := size;
      forall i | 0 <= i < n {
        b[i] := buf[i];
      }
      heapCapacity := c as nat;
      buf := b;
      buf[n] := 0;
    }

    /** `ResetSizeAndEos`: sets the size and writes the terminator after it. */
    method ResetSizeAndEos(n: nat)
      requires Layout() && n <= Capacity()
      modifies this, buf
      ensures size == n && buf == old(buf)
      ensures isHeap == old(isHeap) && heapCapacity == old(heapCapacity)
      ensures buf[..n] == old(buf[..n])
      ensures Valid()
    {
      size := n;
      buf[n] := 0;
    }

    /** The body of the `(str, length)` constructor, which the C-string and copy constructors share. */
    method InitFromUnits(str: seq<u8>)
      requires Valid() && !isHeap && size == 0 && |str| <= MaxStorageCapacity
      modifies this, buf
      ensures Valid() && Content() == str && (isHeap <==> |str| > LocalStorageCapacity)
      ensures isHeap ==> heapCapacity == CalculateAllocateCapacity(|str| as usize, LocalStorageCapacity as usize, MaxStorageCapacity as usize) as nat
      ensures fresh(buf) || buf == old(buf)
    {
      var len := |str|;
      if len > LocalStorageCapacity {
        InitHeapBuffer(len as usize);
      }
      forall i | 0 <= i < len {
        buf[i] := str[i];
      }
      size := len;
      buf[len] := 0;
    }

    /** The default constructor: an empty inline string. */
    constructor()
      ensures Valid() && Content() == [] && !isHeap && fresh(buf)
    {
      isHeap := false;
      size := 0;
      buf := new u8[LocalStorageCapacity + 1];
      new;
      InitSSOBuffer();
    }

    /** `StringStorage(capacity)`: an empty string with room for `capacity` units. */
    constructor WithCapacity(capacity: usize)
      ensures Valid() && Content() == [] && fresh(buf)
      ensures isHeap <==> capacity as int > LocalStorageCapacity
      ensures Capacity() >= Min(capacity as int, MaxStorageCapacity)
    {
      isHeap := false;
      size := 0;
      buf := new u8[LocalStorageCapacity + 1];
      new;
      if capacity as int <= LocalStorageCapacity {
        InitSSOBuffer();
      } else {
        InitHeapBuffer(capacity);
      }
    }

    /** `StringStorage(ch, count)`: `count` copies of `ch`. */
    constructor Fill(ch: u8, count: usize)
      requires count as int <= MaxStorageCapacity
      ensures Valid() && Content() == Repeat(ch, count as nat) && fresh(buf)
      ensures isHeap <==> count as int > LocalStorageCapacity
      ensures isHeap ==> heapCapacity == CalculateAllocateCapacity(count, LocalStorageCapacity as usize, MaxStorageCapacity as usize) as nat
    {
      isHeap := false;
      size := 0;
      buf := new u8[LocalStorageCapacity + 1];
      new;
      var n := count as int;
      if n <= LocalStorageCapacity {
        InitSSOBuffer();
      } else {
        InitHeapBuffer(count);
      }
      size := n;
      for i := 0 to n
        invariant Layout() && n <= Capacity() && size == n && fresh(buf)
        invariant isHeap <==> n > LocalStorageCapacity
        invariant isHeap ==> heapCapacity == CalculateAllocateCapacity(count, LocalStorageCapacity as usize, MaxStorageCapacity as usize) as nat
        invariant forall j :: 0 <= j < i ==> buf[j] == ch
      {
        buf[i] := ch;
      }
      buf[n] := 0;
    }

    /** `StringStorage(str, length)`: a copy of the given units. */
    constructor FromUnits(str: seq<u8>)
      requires |str| <= MaxStorageCapacity
      ensures Valid() && Content() == str && fresh(buf)
      ensures isHeap <==> |str| > LocalStorageCapacity
      ensures isHeap ==> heapCapacity == CalculateAllocateCapacity(|str| as usize, LocalStorageCapacity as usize, MaxStorageCapacity as usize) as nat
    {
      isHeap := false;
      size := 0;
      buf := new u8[LocalStorageCapacity + 1];
      new;
      InitSSOBuffer();
      InitFromUnits(str);
    }

    /** `StringStorage(str)`: a copy of a NUL-terminated string. */
    constructor FromCString(str: seq<u8>)
      requires 0 in str && Length(str) <= MaxStorageCapacity
      ensures Valid() && Content() == CString(str) && fresh(buf)
    {
      isHeap := false;
      size := 0;
      buf := new u8[LocalStorageCapacity + 1];
      new;
      InitSSOBuffer();
      InitFromUnits(CString(str));
    }

    /** The copy constructor. */
    constructor Copy(other: StringStorage)
      requires other.Valid()
      ensures Valid() && Content() == other.Content() && fresh(buf)
    {
      isHeap := false;
      size := 0;
      buf := new u8[LocalStorageCapacity + 1];
      new;
      InitSSOBuffer();
      InitFromUnits(other.Content());
    }

    /** `StringStorage(other, len)`: a copy of the first `len` units of `other`. */
    constructor CopyPrefix(other: StringStorage, len: usize)
      requires other.Valid()
      ensures Valid() && fresh(buf)
      ensures Content() == other.Content()[..Min(len as int, other.size)]
    {
      isHeap := false;
      size := 0;
      buf := new u8[LocalStorageCapacity + 1];
      new;
      InitSSOBuffer();
      InitFromUnits(other.Content()[..Min(len as int, other.size)]);
    }

    /** The move constructor: takes over `other`'s layout and leaves it empty and inline. */
    constructor Take(other: StringStorage)
      requires other.Valid()
      modifies other
      ensures Valid() && Content() == old(other.Content())
      ensures isHeap == old(other.isHeap) && Capacity() == old(other.Capacity()) && buf == old(other.buf)
      ensures other.Valid() && other.Content() == [] && !other.isHeap && fresh(other.buf)
    {
      isHeap := other.isHeap;
      size := other.size;
      heapCapacity := other.heapCapacity;
      buf := other.buf;
      new;
      var stack := new u8[LocalStorageCapacity + 1];
      stack[0] := 0;
      other.isHeap := false;
      other.size := 0;
      other.buf := stack;
    }

    /**
     * `operator=(const StringStorage&)` as written: the buffer is released before
     * `other` is read, so assigning a string to itself empties it.
     */
    method CopyAssign(other: StringStorage)
      requires Valid() && other.Valid() && (other != this ==> other.buf != buf)
      modifies this, buf
      ensures Valid()
      ensures other != this ==> Content() == old(other.Content())
      ensures other == this ==> Content() == []
      ensures buf == old(buf) || fresh(buf)
    {
      DeallocateBuffer();
      var len := other.size;
      var src := other.buf;
      if len <= LocalStorageCapacity {
        InitSSOBuffer();
      } else {
        InitHeapBuffer(len as usize);
      }
      forall i | 0 <= i < len {
        buf[i] := src[i];
      }
      size := len;
      buf[len] := 0;
    }

    /** `operator=(const StringStorage&)` with the self-assignment check it needs. */
    method CopyAssignFixed(other: StringStorage)
      requires Valid() && other.Valid() && (other != this ==> other.buf != buf)
      modifies this, buf
      ensures Valid() && Content() == old(other.Content())
      ensures buf == old(buf) || fresh(buf)
    {
      if other == this {
        return;
      }
      CopyAssign(other);
    }

    /** `operator=(StringStorage&&)`: release, then swap layouts with `other`. */
    method MoveAssign(other: StringStorage)
      requires Valid() && other.Valid() && (other != this ==> other.buf != buf)
      modifies this, buf, other
      ensures Valid() && other.Valid()
      ensures other != this ==> Content() == old(other.Content()) && other.Content() == [] && !other.isHeap
      ensures other == this ==> Content() == []
      ensures other != this ==> buf == old(other.buf) && (other.buf == old(buf) || fresh(other.buf))
      ensures other == this ==> buf == old(buf) || fresh(buf)
    {
      DeallocateBuffer();
      var h, n, c, b := isHeap, size, heapCapacity, buf;
      isHeap, size, heapCapacity, buf := other.isHeap, other.size, other.heapCapacity, other.buf;
      other.isHeap, other.size, other.heapCapacity, other.buf := h, n, c, b;
    }

    /** `operator=` from a `std::basic_string` or a string view. */
    method AssignUnits(str: seq<u8>)
      requires Valid() && |str| <= MaxStorageCapacity
      modifies this, buf
      ensures Valid() && Content() == str
      ensures isHeap <==> |str| > LocalStorageCapacity
      ensures buf == old(buf) || fresh(buf)
    {
      DeallocateBuffer();
      var len := |str|;
      if len > LocalStorageCapacity {
        InitHeapBuffer(len as usize);
      }
      forall i | 0 <= i < len {
        buf[i] := str[i];
      }
      ResetSizeAndEos(len);
    }

    /** `operator=(const StorageType*)` */
    method AssignCString(str: seq<u8>)
      requires Valid() && 0 in str && Length(str) <= MaxStorageCapacity
      modifies this, buf
      ensures Valid() && Content() == CString(str)
      ensures buf == old(buf) || fresh(buf)
    {
      AssignUnits(CString(str));
    }

    /** `operator=(StorageType)`: a one-unit inline string. */
    method AssignUnit(ch: u8)
      requires Valid()
      modifies this, buf
      ensures Valid() && Content() == [ch] && !isHeap
      ensures buf == old(buf) || fresh(buf)
    {
      DeallocateBuffer();
      buf[0] := ch;
      ResetSizeAndEos(1);
    }

    /**
     * `Reserve`: afterwards there is room for `newCapacity` units (at most the
     * maximum capacity); a request the current capacity meets changes nothing.
     */
    method Reserve(newCapacity: usize)
      requires Valid()
      modifies this
      ensures Valid() && size == old(size) && Content() == old(Content())
      ensures newCapacity as int <= old(Capacity()) ==> unchanged(this)
      ensures Capacity() >= Min(newCapacity as int, MaxStorageCapacity)
      ensures Capacity() >= old(Capacity())
      ensures old(isHeap) && newCapacity as int > old(heapCapacity) ==>
        isHeap && heapCapacity == CalculateAllocateCapacity(newCapacity, old(heapCapacity) as usize, MaxStorageCapacity as usize) as nat
      ensures !old(isHeap) && newCapacity as int > LocalStorageCapacity ==>
        isHeap && heapCapacity == CalculateAllocateCapacity(newCapacity, LocalStorageCapacity as usize, MaxStorageCapacity as usize) as nat
      ensures isHeap == (old(isHeap) || newCapacity as int > LocalStorageCapacity)
      ensures Capacity() == ReservedCapacity(old(Capacity()), newCapacity as nat)
      ensures buf == old(buf) || fresh(buf)
    {
      if isHeap {
        if newCapacity as int > heapCapacity {
          ReallocateHeapBuffer(newCapacity);
        }
      } else {
        if newCapacity as int > LocalStorageCapacity {
          MoveToHeap(newCapacity);
        }
      }
    }

    /** `ReserveExtra`: `Reserve(Size() + extra)`, the sum taken modulo 2^64. */
    method ReserveExtra(extra: usize)
      requires Valid()
      modifies this
      ensures Valid() && size == old(size) && Content() == old(Content())
      ensures Capacity() >= Min(Wrap(old(size) + extra as int) as int, MaxStorageCapacity)
      ensures Capacity() >= old(Capacity())
      ensures old(isHeap) && Wrap(old(size) + extra as int) as int > old(heapCapacity) ==>
        isHeap && heapCapacity == CalculateAllocateCapacity(Wrap(old(size) + extra as int), old(heapCapacity) as usize, MaxStorageCapacity as usize) as nat
      ensures !old(isHeap) && Wrap(old(size) + extra as int) as int > LocalStorageCapacity ==>
        isHeap && heapCapacity == CalculateAllocateCapacity(Wrap(old(size) + extra as int), LocalStorageCapacity as usize, MaxStorageCapacity as usize) as nat
      ensures isHeap == (old(isHeap) || Wrap(old(size) + extra as int) as int > LocalStorageCapacity)
      ensures Capacity() == ReservedCapacity(old(Capacity()), Wrap(old(size) + extra as int) as nat)
      ensures Wrap(old(size) + extra as int) as int <= old(Capacity()) ==> unchanged(this)
      ensures buf == old(buf) || fresh(buf)
    {
      Reserve(Wrap(size + extra as int));
    }

    /** `Clear()`: the string becomes empty and keeps its buffer. */
    method Clear()
      requires Valid()
      modifies this, buf
      ensures Valid() && Content() == [] && Capacity() == old(Capacity()) && buf == old(buf)
    {
      ResetSizeAndEos(0);
    }

    /** The tail the appends share: copy `units` after the content, then move the terminator. */
    method CopyToEnd(units: seq<u8>)
      requires Valid() && size + |units| <= Capacity()
      modifies this, buf
      ensures Valid() && Content() == old(Content()) + units
      ensures buf == old(buf) && isHeap == old(isHeap) && heapCapacity == old(heapCapacity)
    {
      var n := size;
      forall i | 0 <= i < |units| {
        buf[n + i] := units[i];
      }
      ResetSizeAndEos(n + |units|);
    }

    /**
     * `operator+=` from a `std::basic_string`, a string view or a C string: reserve
     * room, copy the units after the old ones, then move the terminator.
     */
    method PlusAssignUnits(str: seq<u8>)
      requires Valid() && size + |str| <= MaxStorageCapacity
      modifies this, buf
      ensures Valid() && Content() == old(Content()) + str
      ensures isHeap == (old(isHeap) || old(size) + |str| > LocalStorageCapacity)
      ensures Capacity() == ReservedCapacity(old(Capacity()), old(size) + |str|)
      ensures old(size) + |str| <= old(Capacity()) ==> buf == old(buf)
      ensures buf == old(buf) || fresh(buf)
    {
      ReserveExtra(|str| as usize);
      CopyToEnd(str);
    }

    /**
     * `operator+=(const StringStorage&)`: `other` is read after the reservation, so
     * `s += s` appends the string to itself.
     */
    method PlusAssign(other: StringStorage)
      requires Valid() && other.Valid() && (other != this ==> other.buf != buf)
      requires size + other.size <= MaxStorageCapacity
      modifies this, buf
      ensures Valid() && Content() == old(Content()) + old(other.Content())
      ensures isHeap == (old(isHeap) || old(size) + old(other.size) > LocalStorageCapacity)
      ensures Capacity() == ReservedCapacity(old(Capacity()), old(size) + old(other.size))
      ensures old(size) + old(other.size) <= old(Capacity()) ==> buf == old(buf)
      ensures buf == old(buf) || fresh(buf)
    {
      var othSize := other.size;
      ghost var appended := other.Content();
      ReserveExtra(othSize as usize);
      var units := other.buf[..othSize];
      assert units == appended;
      CopyToEnd(units);
    }

    /** `operator+=(StorageType)` */
    method PlusAssignUnit(ch: u8)
      requires Valid() && size + 1 <= MaxStorageCapacity
      modifies this, buf
      ensures Valid() && Content() == old(Content()) + [ch]
      ensures isHeap == (old(isHeap) || old(size) + 1 > LocalStorageCapacity)
      ensures Capacity() == ReservedCapacity(old(Capacity()), old(size) + 1)
      ensures old(size) + 1 <= old(Capacity()) ==> buf == old(buf)
      ensures buf == old(buf) || fresh(buf)
    {
      var curSize := size;
      ReserveExtra(1);
      buf[curSize] := ch;
      ResetSizeAndEos(curSize + 1);
    }

    /** `operator+` with units on the right: a copy of this string with them appended. */
    method Concat(str: seq<u8>) returns (r: StringStorage)
      requires Valid() && size + |str| <= MaxStorageCapacity
      ensures fresh(r) && r.Valid() && r.Content() == Content() + str
    {
      r := new StringStorage.Copy(this);
      r.PlusAssignUnits(str);
    }

    /** `operator+(const StringStorage&)` */
    method ConcatStorage(other: StringStorage) returns (r: StringStorage)
      requires Valid() && other.Valid() && size + other.size <= MaxStorageCapacity
      ensures fresh(r) && r.Valid() && r.Content() == Content() + other.Content()
    {
      r := new StringStorage.Copy(this);
      r.PlusAssign(other);
    }

    /** `operator+(StorageType)` */
    method ConcatUnit(ch: u8) returns (r: StringStorage)
      requires Valid() && size + 1 <= MaxStorageCapacity
      ensures fresh(r) && r.Valid() && r.Content() == Content() + [ch]
    {
      r := new StringStorage.Copy(this);
      r.PlusAssignUnit(ch);
    }

    /** `Append(str, len)`: appending no units changes nothing. */
    method Append(str: seq<u8>)
      requires Valid() && size + |str| <= MaxStorageCapacity
      modifies this, buf
      ensures Valid() && Content() == old(Content()) + str
      ensures |str| == 0 ==> unchanged(this) && unchanged(buf)
      ensures isHeap == (old(isHeap) || old(size) + |str| > LocalStorageCapacity)
      ensures Capacity() == ReservedCapacity(old(Capacity()), old(size) + |str|)
      ensures old(size) + |str| <= old(Capacity()) ==> buf == old(buf)
      ensures buf == old(buf) || fresh(buf)
    {
      if |str| == 0 {
        return;
      }
      ReserveExtra(|str| as usize);
      CopyToEnd(str);
    }

    /** `Append(const StorageType*)` */
    method AppendCString(str: seq<u8>)
      requires Valid() && 0 in str && size + Length(str) <= MaxStorageCapacity
      modifies this, buf
      ensures Valid() && Content() == old(Content()) + CString(str)
      ensures isHeap == (old(isHeap) || old(size) + Length(str) > LocalStorageCapacity)
      ensures Capacity() == ReservedCapacity(old(Capacity()), old(size) + Length(str))
      ensures old(size) + Length(str) <= old(Capacity()) ==> buf == old(buf)
      ensures buf == old(buf) || fresh(buf)
    {
      Append(CString(str));
    }

    /**
     * `Append(const StringStorage&)`. The source captures `other`'s buffer before
     * reserving room, so appending a string to itself is left out.
     */
    method AppendStorage(other: StringStorage)
      requires Valid() && other.Valid() && other != this && other.buf != buf
      requires size + other.size <= MaxStorageCapacity
      modifies this, buf
      ensures Valid() && Content() == old(Content()) + old(other.Content())
      ensures isHeap == (old(isHeap) || old(size) + old(other.size) > LocalStorageCapacity)
      ensures Capacity() == ReservedCapacity(old(Capacity()), old(size) + old(other.size))
      ensures old(size) + old(other.size) <= old(Capacity()) ==> buf == old(buf)
      ensures buf == old(buf) || fresh(buf)
    {
      Append(other.Content());
    }

    /** `Append(ch, count)`: `count` copies of `ch`, written one by one. */
    method AppendUnit(ch: u8, count: usize)
      requires Valid() && size + count as int <= MaxStorageCapacity
      modifies this, buf
      ensures Valid() && Content() == old(Content()) + Repeat(ch, count as nat)
      ensures count == 0 ==> unchanged(this) && unchanged(buf)
      ensures isHeap == (old(isHeap) || old(size) + count as nat > LocalStorageCapacity)
      ensures Capacity() == ReservedCapacity(old(Capacity()), old(size) + count as nat)
      ensures old(size) + count as nat <= old(Capacity()) ==> buf == old(buf)
      ensures buf == old(buf) || fresh(buf)
    {
      if count == 0 {
        return;
      }
      ReserveExtra(count);
      var n := size;
      var end := n + count as int;
      ghost var heap, capacity, reserved := isHeap, heapCapacity, buf;
      for i := n to end
        invariant Layout() && end <= Capacity() && size == n
        invariant isHeap == heap && heapCapacity == capacity && buf == reserved
        invariant buf == old(buf) || fresh(buf)
        invariant buf[..n] == old(buf[..size])
        invariant forall j :: n <= j < i ==> buf[j] == ch
      {
        buf[i] := ch;
      }
      ResetSizeAndEos(end);
      assert Content() == old(Content()) + Repeat(ch, count as nat);
    }

    /**
     * `Resize(n, ch)`: the size becomes n; a longer string is padded with `ch`.
     * Growing reserves `Size() + n` units and fills `n` of them before cutting back.
     */
    method Resize(n: usize, ch: u8)
      requires Valid()
      requires n as int > size ==> size + n as int <= MaxStorageCapacity
      modifies this, buf
      ensures Valid() && size == n as int
      ensures n as int <= old(size) ==> Content() == old(Content())[..n]
      ensures n as int > old(size) ==> Content() == old(Content()) + Repeat(ch, n as int - old(size))
      ensures n as int <= old(size) ==> isHeap == old(isHeap) && Capacity() == old(Capacity()) && buf == old(buf)
      ensures n as int > old(size) ==> isHeap == (old(isHeap) || old(size) + n as int > LocalStorageCapacity)
      ensures n as int > old(size) ==> Capacity() == ReservedCapacity(old(Capacity()), old(size) + n as int)
      ensures n as int > old(size) && old(size) + n as int <= old(Capacity()) ==> buf == old(buf)
      ensures buf == old(buf) || fresh(buf)
    {
      var currentSize := size;
      if n as int > currentSize {
        ReserveExtra(n);
        var end := currentSize + n as int;
        ghost var heap, capacity, reserved := isHeap, heapCapacity, buf;
        for i := currentSize to end
          invariant Layout() && end <= Capacity() && size == currentSize
          invariant isHeap == heap && heapCapacity == capacity && buf == reserved
          invariant buf == old(buf) || fresh(buf)
          invariant buf[..currentSize] == old(buf[..size])
          invariant forall j :: currentSize <= j < i ==> buf[j] == ch
        {
          buf[i] := ch;
        }
      }
      ResetSizeAndEos(n as nat);
      if n as int > currentSize {
        assert Content() == old(Content()) + Repeat(ch, n as int - currentSize);
      }
    }

    /**
     * `ShrinkToFit` as written: a short heap string moves inline, but a long one is
     * reallocated through the growth policy, which never returns less than the
     * current capacity.
     */
    method ShrinkToFit()
      requires Valid()
      modifies this
      ensures Valid() && Content() == old(Content())
      ensures !old(isHeap) ==> unchanged(this)
      ensures old(isHeap) && old(size) <= LocalStorageCapacity ==> !isHeap
      ensures old(isHeap) && old(size) > LocalStorageCapacity ==> isHeap && Capacity() >= old(Capacity())
      ensures old(isHeap) && old(size) > LocalStorageCapacity && old(size) == old(heapCapacity) ==> unchanged(this)
      ensures old(isHeap) && LocalStorageCapacity < old(size) < old(heapCapacity) ==>
        heapCapacity == CalculateAllocateCapacity(old(size) as usize, old(heapCapacity) as usize, MaxStorageCapacity as usize) as nat
    {
      if isHeap {
        if size <= LocalStorageCapacity {
          MoveToStack();
        } else if size < heapCapacity {
          ReallocateHeapBuffer(size as usize);
        }
      }
    }

    /** `ShrinkToFit` with an exact-size allocation: afterwards the capacity is the size. */
    method ShrinkToFitFixed()
      requires Valid()
      modifies this
      ensures Valid() && Content() == old(Content())
      ensures !old(isHeap) ==> unchanged(this)
      ensures old(isHeap) && old(size) <= LocalStorageCapacity ==> !isHeap
      ensures old(isHeap) && old(size) > LocalStorageCapacity ==> isHeap && Capacity() == size
    {
      if isHeap {
        if size <= LocalStorageCapacity {
          MoveToStack();
        } else if size < heapCapacity {
          var n := size;
          var b := new u8[n + 1];
          forall i | 0 <= i < n {
            b[i] := buf[i];
          }
          heapCapacity := n;
          buf := b;
          buf[n] := 0;
        }
      }
    }

    /** `operator==(const StringStorage&)`: same size and the same units. */
    function Equals(other: StringStorage): (b: bool)
      reads this, buf, other, other.buf
      requires Valid() && other.Valid()
      ensures b <==> Content() == other.Content()
    {
      size == other.size && buf[..size] == other.buf[..size]
    }

    /** `operator==` with a `std::basic_string` or a string view. */
    function EqualsUnits(str: seq<u8>): (b: bool)
      reads this, buf
      requires Valid()
      ensures b <==> Content() == str
    {
      size <= |str| && buf[..size] == str[..size] && |str| == size
    }

    /**
     * `operator==(const StorageType*)`: the first `Size()` units agree and the C
     * string ends right there, i.e. `Data()` is a prefix of the array.
     */
    function EqualsCString(str: seq<u8>): (b: bool)
      reads this, buf
      requires Valid() && 0 in str
      ensures b <==> Data() <= str
      ensures 0 !in Content() ==> (b <==> Content() == CString(str))
    {
      size < |str| && buf[..size] == str[..size] && str[size] == 0
    }

    /** `operator==(StorageType)` */
    function EqualsUnit(ch: u8): (b: bool)
      reads this, buf
      requires Valid()
      ensures b <==> Content() == [ch]
    {
      size == 1 && buf[0] == ch
    }

    /** `Front()`: the first unit, or the terminator of an empty string. */
    function Front(): (c: u8)
      reads this, buf
      requires Valid()
      ensures c == Data()[0]
      ensures size > 0 ==> c == Content()[0]
    {
      buf[0]
    }

    /** `Back()`: the last unit of a non-empty string. */
    function Back(): (c: u8)
      reads this, buf
      requires Valid() && size > 0
      ensures c == Content()[|Content()| - 1]
    {
      buf[size - 1]
    }

    /** `operator[] const`, with the debug check as a precondition. */
    function At(pos: usize): (c: u8)
      reads this, buf
      requires Valid() && (pos as int) < size
      ensures c == Content()[pos]
    {
      buf[pos]
    }

    /** A write through the reference `operator[]` returns. */
    method SetAt(pos: usize, ch: u8)
      requires Valid() && (pos as int) < size
      modifies buf
      ensures Valid() && Content() == old(Content())[pos as int := ch]
    {
      buf[pos] := ch;
    }

    /**
     * `Find(ch, off)` as written: after the check on `off` the scalar path searches
     * from the start of the string, so `off` only decides whether to search at all.
     */
    method FindUnit(ch: u8, off: usize) returns (r: usize)
      requires Valid()
      ensures off as int >= size ==> r as int == NPos
      ensures off as int < size ==> FirstHit(Content(), [ch], true, 0, r as int)
    {
      if size == 0 || off as int > size - 1 {
        return NPos as usize;
      }
      var m := TraitsFind(buf[..size], 0, size, ch);
      if m == -1 {
        return NPos as usize;
      }
      return m as usize;
    }

    /** `Find(ch, off)` searching from `off`: the first `ch` at or after `off`. */
    method FindUnitFixed(ch: u8, off: usize) returns (r: usize)
      requires Valid()
      ensures off as int >= size ==> r as int == NPos
      ensures off as int < size ==> FirstHit(Content(), [ch], true, off as int, r as int)
    {
      if size == 0 || off as int > size - 1 {
        return NPos as usize;
      }
      var m := TraitsFind(buf[..size], off as int, size, ch);
      if m == -1 {
        return NPos as usize;
      }
      return m as usize;
    }

    /** `FindFirstOf(ch, off)` as written: the same scan from the start as `Find(ch, off)`. */
    method FindFirstOfUnit(ch: u8, off: usize) returns (r: usize)
      requires Valid()
      ensures off as int >= size ==> r as int == NPos
      ensures off as int < size ==> FirstHit(Content(), [ch], true, 0, r as int)
    {
      if off as int >= size {
        return NPos as usize;
      }
      var m := TraitsFind(buf[..size], 0, size, ch);
      if m == -1 {
        return NPos as usize;
      }
      return m as usize;
    }

    /**
     * `Find(str, len, off)`: jump to the next unit equal to the pattern's first one,
     * compare the whole pattern there, and move one past it on a mismatch.
     */
    method FindUnits(str: seq<u8>, off: usize) returns (r: usize)
      requires Valid()
      ensures FindResult(Content(), str, off as int, r as int)
    {
      var len := |str|;
      if len > size || off as int > size - len {
        return NPos as usize;
      }
      if len == 0 {
        return off;
      }
      var source := buf[..size];
      var matchesEnd := size - len + 1;
      var pos := off as int;
      while true
        invariant off as int <= pos <= matchesEnd
        invariant forall i :: off as int <= i < pos ==> !MatchAt(source, str, i)
        decreases matchesEnd - pos
      {
        var found := TraitsFind(source, pos, matchesEnd, str[0]);
        forall i | pos <= i < (if found == -1 then matchesEnd else found)
          ensures !MatchAt(source, str, i)
        {
          if MatchAt(source, str, i) {
            MatchHead(source, str, i);
          }
        }
        if found == -1 {
          return NPos as usize;
        }
        if source[found..found + len] == str {
          return found as usize;
        }
        pos := found + 1;
      }
    }

    /** `FindFirstOf(str, len, off)`: the first unit at or after `off` that is in the set. */
    method FindFirstOf(units: seq<u8>, off: usize) returns (r: usize)
      requires Valid()
      ensures off as int >= size ==> r as int == NPos
      ensures off as int < size ==> FirstHit(Content(), units, true, off as int, r as int)
    {
      if off as int >= size {
        return NPos as usize;
      }
      var bitmap := BuildBitmap(units);
      var i := off as int;
      while i < size
        invariant off as int <= i <= size
        invariant NoHit(Content(), units, true, off as int, i)
      {
        if bitmap[buf[i] as int] {
          return i as usize;
        }
        i := i + 1;
      }
      return NPos as usize;
    }

    /** `FindFirstNotOf(ch, off)`: the first unit at or after `off` other than `ch`. */
    method FindFirstNotOfUnit(ch: u8, off: usize) returns (r: usize)
      requires Valid()
      ensures off as int >= size ==> r as int == NPos
      ensures off as int < size ==> FirstHit(Content(), [ch], false, off as int, r as int)
    {
      if off as int >= size {
        return NPos as usize;
      }
      var i := off as int;
      while i < size
        invariant off as int <= i <= size
        invariant NoHit(Content(), [ch], false, off as int, i)
      {
        if buf[i] != ch {
          return i as usize;
        }
        i := i + 1;
      }
      return NPos as usize;
    }

    /** `FindFirstNotOf(str, len, off)`: the first unit at or after `off` outside the set. */
    method FindFirstNotOf(units: seq<u8>, off: usize) returns (r: usize)
      requires Valid()
      ensures off as int >= size ==> r as int == NPos
      ensures off as int < size ==> FirstHit(Content(), units, false, off as int, r as int)
    {
      if off as int >= size {
        return NPos as usize;
      }
      var bitmap := BuildBitmap(units);
      var i := off as int;
      while i < size
        invariant off as int <= i <= size
        invariant NoHit(Content(), units, false, off as int, i)
      {
        if !bitmap[buf[i] as int] {
          return i as usize;
        }
        i := i + 1;
      }
      return NPos as usize;
    }

    /**
     * `FindLastOf(ch, off)` as written: the backward scan starts one past the
     * clamped offset, so it also looks at the unit after it, which for the default
     * offset is the terminator. The result is the last hit in `Data()` before
     * `min(off, Size() - 1) + 2`.
     */
    method FindLastOfUnit(ch: u8, off: usize) returns (r: usize)
      requires Valid()
      ensures size == 0 ==> r as int == NPos
      ensures size > 0 ==> LastHit(Data(), [ch], true, Min(off as int, size - 1) + 2, r as int)
    {
      if size == 0 {
        return NPos as usize;
      }
      var o := Min(off as int, size - 1);
      var pos := o + 1;
      while true
        invariant 0 <= pos <= o + 1
        invariant NoHit(Data(), [ch], true, pos + 1, o + 2)
        decreases pos
      {
        if buf[pos] == ch {
          return pos as usize;
        }
        if pos == 0 {
          return NPos as usize;
        }
        pos := pos - 1;
      }
    }

    /** `FindLastOf(ch, off)` starting at the clamped offset: the last `ch` at or before it. */
    method FindLastOfUnitFixed(ch: u8, off: usize) returns (r: usize)
      requires Valid()
      ensures size == 0 ==> r as int == NPos
      ensures size > 0 ==> LastHit(Content(), [ch], true, Min(off as int, size - 1) + 1, r as int)
    {
      if size == 0 {
        return NPos as usize;
      }
      var o := Min(off as int, size - 1);
      var pos := o;
      while true
        invariant 0 <= pos <= o
        invariant NoHit(Content(), [ch], true, pos + 1, o + 1)
        decreases pos
      {
        if buf[pos] == ch {
          return pos as usize;
        }
        if pos == 0 {
          return NPos as usize;
        }
        pos := pos - 1;
      }
    }

    /**
     * `FindLastOf(str, len, off)` as written: the bitmap scan looks at positions
     * `off - 1` down to 0 after clamping, so the clamped offset itself is skipped.
     */
    method FindLastOf(units: seq<u8>, off: usize) returns (r: usize)
      requires Valid()
      ensures |units| == 0 || size == 0 ==> r as int == NPos
      ensures |units| > 0 && size > 0 ==> LastHit(Content(), units, true, Min(size - 1, off as int), r as int)
    {
      if |units| == 0 || size == 0 {
        return NPos as usize;
      }
      var o := Min(size - 1, off as int);
      var bitmap := BuildBitmap(units);
      var i := o;
      while i > 0
        invariant 0 <= i <= o
        invariant NoHit(Content(), units, true, i, o)
      {
        if bitmap[buf[i - 1] as int] {
          return (i - 1) as usize;
        }
        i := i - 1;
      }
      return NPos as usize;
    }

    /** `FindLastOf(str, len, off)` including the clamped offset. */
    method FindLastOfFixed(units: seq<u8>, off: usize) returns (r: usize)
      requires Valid()
      ensures size == 0 ==> r as int == NPos
      ensures size > 0 ==> LastHit(Content(), units, true, Min(size - 1, off as int) + 1, r as int)
    {
      if |units| == 0 || size == 0 {
        return NPos as usize;
      }
      var o := Min(size - 1, off as int);
      var bitmap := BuildBitmap(units);
      var i := o + 1;
      while i > 0
        invariant 0 <= i <= o + 1
        invariant NoHit(Content(), units, true, i, o + 1)
      {
        if bitmap[buf[i - 1] as int] {
          return (i - 1) as usize;
        }
        i := i - 1;
      }
      return NPos as usize;
    }

    /**
     * `FindLastNotOf(ch, off)` as written: like `FindLastOf(ch, off)` the scan starts
     * one past the clamped offset; for the default offset that is the terminator,
     * which differs from every non-zero `ch`.
     */
    method FindLastNotOfUnit(ch: u8, off: usize) returns (r: usize)
      requires Valid()
      ensures size == 0 ==> r as int == NPos
      ensures size > 0 ==> LastHit(Data(), [ch], false, Min(off as int, size - 1) + 2, r as int)
    {
      if size == 0 {
        return NPos as usize;
      }
      var o := Min(off as int, size - 1);
      var pos := o + 1;
      while true
        invariant 0 <= pos <= o + 1
        invariant NoHit(Data(), [ch], false, pos + 1, o + 2)
        decreases pos
      {
        if buf[pos] != ch {
          return pos as usize;
        }
        if pos == 0 {
          return NPos as usize;
        }
        pos := pos - 1;
      }
    }

    /** `FindLastNotOf(ch, off)` starting at the clamped offset. */
    method FindLastNotOfUnitFixed(ch: u8, off: usize) returns (r: usize)
      requires Valid()
      ensures size == 0 ==> r as int == NPos
      ensures size > 0 ==> LastHit(Content(), [ch], false, Min(off as int, size - 1) + 1, r as int)
    {
      if size == 0 {
        return NPos as usize;
      }
      var o := Min(off as int, size - 1);
      var pos := o;
      while true
        invariant 0 <= pos <= o
        invariant NoHit(Content(), [ch], false, pos + 1, o + 1)
        decreases pos
      {
        if buf[pos] != ch {
          return pos as usize;
        }
        if pos == 0 {
          return NPos as usize;
        }
        pos := pos - 1;
      }
    }

    /**
     * `FindLastNotOf(str, len, off)` as written: an empty set gives `NPos`, and the
     * bitmap scan skips the clamped offset as in `FindLastOf(str, len, off)`.
     */
    method FindLastNotOf(units: seq<u8>, off: usize) returns (r: usize)
      requires Valid()
      ensures |units| == 0 || size == 0 ==> r as int == NPos
      ensures |units| > 0 && size > 0 ==> LastHit(Content(), units, false, Min(size - 1, off as int), r as int)
    {
      if |units| == 0 || size == 0 {
        return NPos as usize;
      }
      var o := Min(size - 1, off as int);
      var bitmap := BuildBitmap(units);
      var i := o;
      while i > 0
        invariant 0 <= i <= o
        invariant NoHit(Content(), units, false, i, o)
      {
        if !bitmap[buf[i - 1] as int] {
          return (i - 1) as usize;
        }
        i := i - 1;
      }
      return NPos as usize;
    }

    /**
     * `FindLastNotOf(str, len, off)` including the clamped offset; with an empty
     * set every unit qualifies, so the clamped offset itself is the answer.
     */
    method FindLastNotOfFixed(units: seq<u8>, off: usize) returns (r: usize)
      requires Valid()
      ensures size == 0 ==> r as int == NPos
      ensures size > 0 ==> LastHit(Content(), units, false, Min(size - 1, off as int) + 1, r as int)
    {
      if size == 0 {
        return NPos as usize;
      }
      var o := Min(size - 1, off as int);
      var bitmap := BuildBitmap(units);
      var i := o + 1;
      while i > 0
        invariant 0 <= i <= o + 1
        invariant NoHit(Content(), units, false, i, o + 1)
      {
        if !bitmap[buf[i - 1] as int] {
          return (i - 1) as usize;
        }
        i := i - 1;
      }
      return NPos as usize;
    }

    /** `Contain(ch, off)`: some unit at or after `off` is `ch`. */
    method ContainUnit(ch: u8, off: usize) returns (b: bool)
      requires Valid()
      ensures b <==> exists i :: off as int <= i < size && Content()[i] == ch
    {
      var r := FindUnitFixed(ch, off);
      b := r as int != NPos;
      if b {
        assert Hit(Content(), r as int, [ch], true);
      } else {
        forall i | off as int <= i < size
          ensures Content()[i] != ch
        {
          assert !Hit(Content(), i, [ch], true);
        }
      }
    }

    /**
     * `Contain(ch, off)` as written: `Find(ch, off) != NPos`, so on the fallback path
     * the offset only decides whether the search runs at all.
     */
    method ContainUnitAsWritten(ch: u8, off: usize) returns (b: bool)
      requires Valid()
      ensures off as int >= size ==> !b
      ensures off as int < size ==> (b <==> ch in Content())
    {
      var r := FindUnit(ch, off);
      b := r as int != NPos;
      if b {
        assert Hit(Content(), r as int, [ch], true);
      } else if off as int < size {
        forall i | 0 <= i < size
          ensures Content()[i] != ch
        {
          assert !Hit(Content(), i, [ch], true);
        }
      }
    }

    /** `Contain(str, off)`: the pattern occurs at or after `off`. */
    method ContainUnits(str: seq<u8>, off: usize) returns (b: bool)
      requires Valid()
      ensures b <==> exists i :: off as int <= i && MatchAt(Content(), str, i)
    {
      var r := FindUnits(str, off);
      FoundIffMatch(Content(), str, off as int, r as int);
      b := r as int != NPos;
    }
  }
}
