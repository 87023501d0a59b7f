// The scenarios of the String unit tests (Code/UnitTest/Tests/Test_String.hpp),
// replayed on the model. Each method builds its strings with the constructors
// of the model and states, in its postcondition, the values the test expects,
// or, where the code as written disagrees, the value the code produces next to
// the value of the corrected member.
module StringScenarios {
  import opened Types
  import opened SearchSpec
  import opened Storage
  import opened Strings

  /** "Hello, World!" */
  const HelloWorld: seq<u8> := [72, 101, 108, 108, 111, 44, 32, 87, 111, 114, 108, 100, 33]

  /** "Hello" */
  const Hello: seq<u8> := [72, 101, 108, 108, 111]

  /** "LongEnoughToBeAllocateOnHeap", 28 units: too long for the inline buffer. */
  const LongText: seq<u8> := [76, 111, 110, 103, 69, 110, 111, 117, 103, 104, 84, 111, 66, 101, 65, 108, 108, 111, 99, 97, 116, 101, 79, 110, 72, 101, 97, 112]

  /** "TestXX" */
  const TestXX: seq<u8> := [84, 101, 115, 116, 88, 88]

  /** "Te" */
  const Te: seq<u8> := [84, 101]

  /** "Test" */
  const TestText: seq<u8> := [84, 101, 115, 116]

  /** "Hello World" */
  const HelloSpaceWorld: seq<u8> := [72, 101, 108, 108, 111, 32, 87, 111, 114, 108, 100]

  /** "Hello World!" */
  const HelloWorldBang: seq<u8> := [72, 101, 108, 108, 111, 32, 87, 111, 114, 108, 100, 33]

  /** "Hello World!, Hi" */
  const HelloWorldBangHi: seq<u8> := [72, 101, 108, 108, 111, 32, 87, 111, 114, 108, 100, 33, 44, 32, 72, 105]

  /** "Hello World!, Hi There" */
  const Greeting: seq<u8> := [72, 101, 108, 108, 111, 32, 87, 111, 114, 108, 100, 33, 44, 32, 72, 105, 32, 84, 104, 101, 114, 101]

  /** " World" */
  const SpaceWorld: seq<u8> := [32, 87, 111, 114, 108, 100]

  /** ", Hi" */
  const CommaHi: seq<u8> := [44, 32, 72, 105]

  /** " There" */
  const SpaceThere: seq<u8> := [32, 84, 104, 101, 114, 101]

  /** "ABCDEF" */
  const Letters: seq<u8> := [65, 66, 67, 68, 69, 70]

  /** "CDE" */
  const CDE: seq<u8> := [67, 68, 69]

  /** "ABC" */
  const ABC: seq<u8> := [65, 66, 67]

  /** "EF" */
  const EF: seq<u8> := [69, 70]

  /** "Beta" */
  const Beta: seq<u8> := [66, 101, 116, 97]

  /** "Gamma" */
  const Gamma: seq<u8> := [71, 97, 109, 109, 97]

  /** "Delta" */
  const Delta: seq<u8> := [68, 101, 108, 116, 97]

  /** "Alpha" */
  const Alpha: seq<u8> := [65, 108, 112, 104, 97]

  /** "World" */
  const World: seq<u8> := [87, 111, 114, 108, 100]

  /** "Hel" */
  const Hel: seq<u8> := [72, 101, 108]

  /** "World!" */
  const WorldBang: seq<u8> := [87, 111, 114, 108, 100, 33]

  /** "Equal" */
  const EqualText: seq<u8> := [69, 113, 117, 97, 108]

  /** "NotEqual" */
  const NotEqualText: seq<u8> := [78, 111, 116, 69, 113, 117, 97, 108]

  /** "modify" */
  const ModifyLower: seq<u8> := [109, 111, 100, 105, 102, 121]

  /** "Modify" */
  const ModifyText: seq<u8> := [77, 111, 100, 105, 102, 121]

  /** "Read" */
  const ReadText: seq<u8> := [82, 101, 97, 100]

  /** The values the growth policy gives along the `ShrinkToFit` scenario. */
  lemma GrowthSteps()
    ensures StringStorage.CalculateAllocateCapacity(28, 22, MaxStorageCapacity as usize) == 33
    ensures StringStorage.CalculateAllocateCapacity(48, 33, MaxStorageCapacity as usize) == 63
    ensures StringStorage.CalculateAllocateCapacity(28, 63, MaxStorageCapacity as usize) == 94
  {
  }

  /** The first-position searches of the "Find and Contain" checkpoint on "Hello, World!". */
  method FirstSearchesHelloWorld() returns (firstO: usize, firstNotH: usize, firstOfOr: usize)
    ensures firstO == 4 && firstNotH == 1 && firstOfOr == 4
  {
    var s := new StringStorage.FromUnits(HelloWorld);
    firstO := s.FindFirstOfUnit(111, 0);
    assert FirstIndex(HelloWorld, [111], true, 0) == 4;
    FirstHitUnique(HelloWorld, [111], true, 0, firstO as int, 4);

    firstNotH := s.FindFirstNotOfUnit(72, 0);
    assert FirstIndex(HelloWorld, [72], false, 0) == 1;
    FirstHitUnique(HelloWorld, [72], false, 0, firstNotH as int, 1);

    firstOfOr := s.FindFirstOf([111, 114], 0);
    assert FirstIndex(HelloWorld, [111, 114], true, 0) == 4;
    FirstHitUnique(HelloWorld, [111, 114], true, 0, firstOfOr as int, 4);
  }

  /**
   * The last-position searches of the "Find and Contain" checkpoint. Every value
   * matches the test except `FindLastNotOf('!')`: as written it returns 13, the
   * position of the terminator; the corrected search returns the expected 11.
   */
  method LastSearchesHelloWorld() returns (lastO: usize, lastNotBang: usize, lastNotBangFixed: usize, lastOfLo: usize)
    ensures lastO == 8 && lastOfLo == 10
    ensures lastNotBang == 13 && lastNotBangFixed == 11
  {
    var s := new StringStorage.FromUnits(HelloWorld);
    var npos := NPos as usize;
    lastO := s.FindLastOfUnit(111, npos);
    LastOfIgnoresTerminator(HelloWorld, 111, lastO as int);
    assert LastIndex(HelloWorld, [111], true, 13) == 8;
    LastHitUnique(HelloWorld, [111], true, 13, lastO as int, 8);

    lastNotBang := s.FindLastNotOfUnit(33, npos);
    LastNotOfSeesTerminator(HelloWorld, 33, lastNotBang as int);

    lastNotBangFixed := s.FindLastNotOfUnitFixed(33, npos);
    assert LastIndex(HelloWorld, [33], false, 13) == 11;
    LastHitUnique(HelloWorld, [33], false, 13, lastNotBangFixed as int, 11);

    lastOfLo := s.FindLastOf([108, 111], npos);
    assert LastIndex(HelloWorld, [108, 111], true, 12) == 10;
    LastHitUnique(HelloWorld, [108, 111], true, 12, lastOfLo as int, 10);
  }

  /** `Contain('W')` and `Contain('x')` on "Hello, World!". */
  method ContainHelloWorld() returns (hasW: bool, hasX: bool)
    ensures hasW && !hasX
  {
    var s := new StringStorage.FromUnits(HelloWorld);
    hasW := s.ContainUnit(87, 0);
    assert s.Content()[7] == 87;
    hasX := s.ContainUnit(120, 0);
    assert FirstIndex(HelloWorld, [120], true, 0) == NPos;
    forall i | 0 <= i < |HelloWorld|
      ensures HelloWorld[i] != 120
    {
      assert !Hit(HelloWorld, i, [120], true);
    }
  }

  /**
   * `Find('o', 5)` on "Hello, World!": as written the offset is ignored and the
   * first 'o' at 4 is returned; the corrected search returns the 'o' at 8.
   */
  method FindWithOffset() returns (written: usize, fixed: usize)
    ensures written == 4 && fixed == 8
  {
    var s := new StringStorage.FromUnits(HelloWorld);
    written := s.FindUnit(111, 5);
    assert FirstIndex(HelloWorld, [111], true, 0) == 4;
    FirstHitUnique(HelloWorld, [111], true, 0, written as int, 4);
    fixed := s.FindUnitFixed(111, 5);
    assert FirstIndex(HelloWorld, [111], true, 5) == 8;
    FirstHitUnique(HelloWorld, [111], true, 5, fixed as int, 8);
  }

  /**
   * The last-position searches on "Hello". As written, the set form of
   * `FindLastOf` never looks at the last unit, the set form of `FindLastNotOf`
   * gives up on an empty set, and the single-unit `FindLastOf` looks one unit
   * past its offset.
   */
  method LastSearchesOnHello() returns (lastOfSet: usize, lastOfSetFixed: usize,
                                        lastNotOfEmpty: usize, lastNotOfEmptyFixed: usize,
                                        lastOfBefore3: usize, lastOfBefore3Fixed: usize)
    ensures lastOfSet as int == NPos && lastOfSetFixed == 4
    ensures lastNotOfEmpty as int == NPos && lastNotOfEmptyFixed == 4
    ensures lastOfBefore3 == 4 && lastOfBefore3Fixed as int == NPos
  {
    var s := new StringStorage.FromUnits(Hello);
    var npos := NPos as usize;

    lastOfSet := s.FindLastOf([111], npos);
    assert LastIndex(Hello, [111], true, 4) == NPos;
    LastHitUnique(Hello, [111], true, 4, lastOfSet as int, NPos);
    lastOfSetFixed := s.FindLastOfFixed([111], npos);
    assert LastIndex(Hello, [111], true, 5) == 4;
    LastHitUnique(Hello, [111], true, 5, lastOfSetFixed as int, 4);

    lastNotOfEmpty := s.FindLastNotOf([], npos);
    lastNotOfEmptyFixed := s.FindLastNotOfFixed([], npos);
    assert LastIndex(Hello, [], false, 5) == 4;
    LastHitUnique(Hello, [], false, 5, lastNotOfEmptyFixed as int, 4);

    lastOfBefore3 := s.FindLastOfUnit(111, 3);
    assert s.Data() == Hello + [0];
    assert LastIndex(Hello + [0], [111], true, 5) == 4;
    LastHitUnique(Hello + [0], [111], true, 5, lastOfBefore3 as int, 4);
    lastOfBefore3Fixed := s.FindLastOfUnitFixed(111, 3);
    assert LastIndex(Hello, [111], true, 4) == NPos;
    LastHitUnique(Hello, [111], true, 4, lastOfBefore3Fixed as int, NPos);
  }

  /**
   * The end of the "Size, Capacity" checkpoint: a 28-unit heap string, 20 more
   * units reserved, then `ShrinkToFit`. As written the capacity grows from 63 to
   * 94 instead of shrinking to the size the test expects.
   */
  method ShrinkLongString() returns (size: nat, reserved: nat, shrunk: nat)
    ensures size == 28 && reserved == 63 && shrunk == 94
  {
    GrowthSteps();
    var t := new StringStorage.FromUnits(LongText);
    t.ReserveExtra(20);
    reserved := t.Capacity();
    size := t.Size();
    t.ShrinkToFit();
    shrunk := t.Capacity();
  }

  /** The same scenario with the corrected `ShrinkToFit`: the capacity becomes the size. */
  method ShrinkLongStringFixed() returns (size: nat, shrunk: nat)
    ensures size == 28 && shrunk == 28
  {
    GrowthSteps();
    var t := new StringStorage.FromUnits(LongText);
    t.ReserveExtra(20);
    size := t.Size();
    t.ShrinkToFitFixed();
    shrunk := t.Capacity();
  }

  /**
   * Growing a 12-unit inline string to 15 units reserves `12 + 15` units, so the
   * string moves to the heap with the capacity the growth policy gives 27 from 22.
   */
  method ResizeMovesToHeap() returns (heap: bool, capacity: nat)
    ensures heap && capacity == 33
  {
    var s := new StringStorage.Fill(65, 12);
    s.Resize(15, 120);
    assert StringStorage.CalculateAllocateCapacity(27, 22, MaxStorageCapacity as usize) == 33;
    heap := s.isHeap;
    capacity := s.Capacity();
  }

  /** The "Size, Capacity, Resize, Clear" checkpoint on "Test". */
  method ResizeTest() returns (grown: seq<u8>, cut: seq<u8>, cleared: seq<u8>, capacity: nat)
    ensures grown == TestXX && cut == Te && cleared == []
    ensures capacity >= 50
  {
    var s := new StringStorage.FromUnits(TestText);
    s.Resize(6, 88);
    grown := s.Content();
    assert grown == TestText + [88, 88];
    s.Resize(2, 0);
    cut := s.Content();
    s.Clear();
    cleared := s.Content();
    s.Reserve(50);
    capacity := s.Capacity();
  }

  /** The first half of the "Append and operator+=" checkpoint: `+=` a C string, then `Append('!')`. */
  method AppendTest() returns (spaced: seq<u8>, banged: seq<u8>)
    ensures spaced == HelloSpaceWorld && banged == HelloWorldBang
  {
    var s := new StringStorage.FromUnits(Hello);
    s.PlusAssignUnits(SpaceWorld);
    spaced := s.Content();
    assert Repeat(33, 1) == [33];
    s.AppendUnit(33, 1);
    banged := s.Content();
  }

  /** The second half: `+= String(", Hi")`, then `Append(" There", 6)`. */
  method AppendStorageTest() returns (joined: seq<u8>, text: seq<u8>)
    ensures joined == HelloWorldBangHi && text == Greeting
  {
    var s := new StringStorage.FromUnits(HelloWorldBang);
    var hi := new StringStorage.FromUnits(CommaHi);
    s.PlusAssign(hi);
    joined := s.Content();
    s.Append(SpaceThere);
    text := s.Content();
  }

  /** `Front`, `Back` and the as-written `Substr(2, 3)` on "ABCDEF": the result has size 0. */
  method SubstrTest() returns (front: u8, back: u8, subSize: nat)
    ensures front == 65 && back == 70 && subSize == 0
  {
    var s := new StringStorage.FromUnits(Letters);
    front := s.Front();
    back := s.Back();
    var r := Substr(s, 2, 3);
    subSize := r.size;
  }

  /** The corrected `Substr`, `Left` and `Right` on "ABCDEF". */
  method SubstringFixedTest() returns (sub: seq<u8>, left: seq<u8>, right: seq<u8>, full: seq<u8>)
    ensures sub == CDE && left == ABC && right == EF
    ensures full == Letters
  {
    var s := new StringStorage.FromUnits(Letters);
    var r := SubstrFixed(s, 2, 3);
    sub := r.Content();
    r := Left(s, 3);
    left := r.Content();
    r := Right(s, 2);
    right := r.Content();
    r := SubstrFixed(s, 0, NPos as usize);
    full := r.Content();
  }

  /**
   * The "assignment operators" checkpoint, with self-assignment added: as written
   * `a = a` leaves `a` empty; the corrected member leaves it unchanged.
   */
  method AssignmentTest() returns (copied: seq<u8>, moved: seq<u8>, source: seq<u8>,
                                   fromCString: seq<u8>, fromUnit: seq<u8>,
                                   selfWritten: seq<u8>, selfFixed: seq<u8>)
    ensures copied == Beta && moved == Gamma && source == []
    ensures fromCString == Delta && fromUnit == [88]
    ensures selfWritten == [] && selfFixed == Alpha
  {
    var a := new StringStorage.FromUnits(Alpha);
    var b := new StringStorage.FromUnits(Beta);
    a.CopyAssign(b);
    copied := a.Content();
    var c := new StringStorage.FromUnits(Gamma);
    a.MoveAssign(c);
    moved := a.Content();
    source := c.Content();
    a.AssignUnits(Delta);
    fromCString := a.Content();
    a.AssignUnit(88);
    fromUnit := a.Content();
    var d := new StringStorage.FromUnits(Alpha);
    d.CopyAssign(d);
    selfWritten := d.Content();
    var e := new StringStorage.FromUnits(Alpha);
    e.CopyAssignFixed(e);
    selfFixed := e.Content();
  }

  /** The constructor checkpoint. */
  method ConstructorTest() returns (empty: bool, fromC: seq<u8>, counted: seq<u8>,
                                    prefix: seq<u8>, movedFrom: bool, movedTo: seq<u8>)
    ensures empty && fromC == Hello && counted == World && prefix == Hel
    ensures movedFrom && movedTo == [65]
  {
    var s0 := new StringStorage();
    empty := s0.Empty();
    var s1 := new StringStorage.FromCString(Hello + [0]);
    assert Length(Hello + [0]) == 5;
    fromC := s1.Content();
    var s2 := new StringStorage.FromUnits(WorldBang[..5]);
    counted := s2.Content();
    var s3 := new StringStorage.CopyPrefix(s1, 3);
    prefix := s3.Content();
    var s4 := new StringStorage.FromUnits([65]);
    var s5 := new StringStorage.Take(s4);
    movedFrom := s4.Empty();
    movedTo := s5.Content();
  }

  /** The `operator==` checkpoint. */
  method CompareTest() returns (same: bool, sameC: bool, differs: bool)
    ensures same && sameC && !differs
  {
    var a := new StringStorage.FromUnits(EqualText);
    var b := new StringStorage.FromUnits(EqualText);
    same := a.Equals(b);
    sameC := a.EqualsCString(EqualText + [0]);
    var d := new StringStorage.FromUnits(NotEqualText);
    differs := a.Equals(d);
  }

  /** The `operator[]` checkpoint. */
  method IndexTest() returns (modified: seq<u8>, first: u8, last: u8)
    ensures modified == ModifyLower && first == 82 && last == 100
  {
    var m := new StringStorage.FromUnits(ModifyText);
    m.SetAt(0, 109);
    m.SetAt(5, 121);
    modified := m.Content();
    var r := new StringStorage.FromUnits(ReadText);
    first := r.At(0);
    last := r.At(3);
  }
}
