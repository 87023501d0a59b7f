// The substring helpers of `String` (Code/Engine/String/String.cpp), the
// `StringStorage<char>` subclass the engine uses as its string type.
module Strings {
  import opened Types
  import opened Storage

  /**
   * `Substr(off, len)` as written: the length is clamped to the whole size rather
   * than to what follows `off`, the units are copied from the start of the string,
   * and they land in a capacity-constructed temporary whose size stays 0. The copy
   * overwrites that temporary's terminator, so its `Data()` is not the empty string.
   */
  method Substr(s: StringStorage, off: usize, len: usize) returns (r: StringStorage)
    requires s.Valid()
    ensures fresh(r)
    ensures off as int >= s.size ==> r.Valid() && r.Content() == []
    ensures off as int < s.size && len == 0 ==> r.Valid() && r.Content() == []
    ensures off as int < s.size ==> r.size == 0 && Min(len as int, s.size) < r.buf.Length
    ensures off as int < s.size ==> r.buf[..Min(len as int, s.size)] == s.Content()[..Min(len as int, s.size)]
    ensures off as int < s.size && len > 0 && s.Content()[0] != 0 ==> !r.Valid()
  {
    var size := s.size;
    if off as int >= size {
      r := new StringStorage();
      return;
    }
    var n := Min(len as int, size);
    var units := s.buf[..n];
    r := new StringStorage.WithCapacity(n as usize);
    forall i | 0 <= i < n {
      r.buf[i] := units[i];
    }
  }

  /** `Substr(off, len)` copying from `off` and setting the size of the result. */
  method SubstrFixed(s: StringStorage, off: usize, len: usize) returns (r: StringStorage)
    requires s.Valid()
    ensures fresh(r) && r.Valid()
    ensures off as int >= s.size ==> r.Content() == []
    ensures off as int < s.size ==> r.Content() == s.Content()[off..off as int + Min(len as int, s.size - off as int)]
    ensures |r.Content()| <= s.size
  {
    var size := s.size;
    if off as int >= size {
      r := new StringStorage();
      return;
    }
    var n := Min(len as int, size - off as int);
    var units := s.buf[off..off as int + n];
    assert units == s.Content()[off..off as int + n];
    r := new StringStorage.WithCapacity(n as usize);
    forall i | 0 <= i < n {
      r.buf[i] := units[i];
    }
    assert r.buf[..n] == units;
    r.ResetSizeAndEos(n);
  }

  /** `Left(len)` as written: `Substr(0, len)`, so a non-empty result keeps size 0. */
  method LeftAsWritten(s: StringStorage, len: usize) returns (r: StringStorage)
    requires s.Valid()
    ensures fresh(r)
    ensures s.size == 0 ==> r.Valid() && r.Content() == []
    ensures s.size > 0 ==> r.size == 0 && Min(len as int, s.size) < r.buf.Length && r.buf[..Min(len as int, s.size)] == s.Content()[..Min(len as int, s.size)]
    ensures s.size > 0 && len > 0 && s.Content()[0] != 0 ==> !r.Valid()
  {
    r := Substr(s, 0, len);
  }

  /**
   * `Right(len)` as written: `Substr(Size() - len, len)`. Because `Substr` copies
   * from index 0, the units it copies are the first `len`, not the last.
   */
  method RightAsWritten(s: StringStorage, len: usize) returns (r: StringStorage)
    requires s.Valid()
    ensures fresh(r)
    ensures len as int > s.size || len as int == 0 ==> r.Valid() && r.Content() == []
    ensures 0 < len as int <= s.size ==> r.size == 0 && (len as int) < r.buf.Length && r.buf[..len] == s.Content()[..len]
  {
    r := Substr(s, Wrap(s.size - len as int), len);
  }

  /** `Left(len)`: the first `len` units, or the whole string when it is shorter. */
  method Left(s: StringStorage, len: usize) returns (r: StringStorage)
    requires s.Valid()
    ensures fresh(r) && r.Valid()
    ensures r.Content() == s.Content()[..Min(len as int, s.size)]
  {
    r := SubstrFixed(s, 0, len);
  }

  /**
   * `Right(len)`: the last `len` units. For `len` above the size the offset
   * `Size() - len` wraps to a huge value and the result is empty.
   */
  method Right(s: StringStorage, len: usize) returns (r: StringStorage)
    requires s.Valid()
    ensures fresh(r) && r.Valid()
    ensures len as int <= s.size ==> r.Content() == s.Content()[s.size - len as int..]
    ensures len as int > s.size ==> r.Content() == []
  {
    r := SubstrFixed(s, Wrap(s.size - len as int), len);
  }
}
