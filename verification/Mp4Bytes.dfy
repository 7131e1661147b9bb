/** Big-endian numbers and boxes of an MP4 file, and writing into a file at a position. */
module Mp4Bytes {
  import opened Seqs
  import opened Bits

  /** WRITE_4 on a value of any sign: its low 32 bits. */
  function U32(x: int): (s: seq<Byte>)
    ensures |s| == 4
  {
    [x / 0x100_0000 % 256, x / 0x1_0000 % 256, x / 0x100 % 256, x % 256]
  }

  function U24(x: int): (s: seq<Byte>)
    ensures |s| == 3
  {
    [x / 0x1_0000 % 256, x / 0x100 % 256, x % 256]
  }

  function U16(x: int): (s: seq<Byte>)
    ensures |s| == 2
  {
    [x / 0x100 % 256, x % 256]
  }

  function U8(x: int): (s: seq<Byte>)
    ensures |s| == 1
  {
    [x % 256]
  }

  /** The number in four bytes. */
  function Value32(s: seq<Byte>): (x: nat)
    requires |s| == 4
    ensures x < WORD
  {
    0x100_0000 * s[0] as int + 0x1_0000 * s[1] as int + 0x100 * s[2] as int + s[3] as int
  }

  /** The number in four bytes at pos. */
  function Word(data: seq<Byte>, pos: nat): (x: nat)
    requires pos + 4 <= |data|
    ensures x < WORD
  {
    Value32(data[pos..pos + 4])
  }

  lemma Digits(x: int, n: int)
    requires n > 0
    ensures x == n * (x / n) + x % n
  {}

  lemma Value32OfU32(x: int)
    ensures Value32(U32(x)) == x % WORD
  {
    var a, b, c := x / 0x100, x / 0x1_0000, x / 0x100_0000;
    Digits(x, 0x100);
    Digits(a, 0x100);
    Digits(b, 0x100);
    Digits(c, 0x100);
    assert a / 0x100 == b && b / 0x100 == c;
    assert x == WORD * (c / 0x100) + Value32(U32(x));
  }

  // ---------------------------------------------------------------- files

  /** The write callback on a file: it may write behind the end, which leaves zeros. */
  function WriteAt(file: seq<Byte>, pos: nat, data: seq<Byte>): (r: seq<Byte>)
    ensures data != [] ==> |r| == if pos + |data| > |file| then pos + |data| else |file|
    ensures data == [] ==> r == file
  {
    if data == [] then file
    else if pos > |file| then file + ZeroBytes(pos - |file|) + data
    else if pos + |data| >= |file| then file[..pos] + data
    else file[..pos] + data + file[pos + |data|..]
  }

  /** The bytes written are there; all others are as before. */
  lemma WriteAtKeeps(file: seq<Byte>, pos: nat, data: seq<Byte>)
    ensures var r := WriteAt(file, pos, data);
            && (data != [] ==> r[pos..pos + |data|] == data)
            && (forall k | 0 <= k < |file| && !(pos <= k < pos + |data|) :: k < |r| && r[k] == file[k])
  {}

  // ---------------------------------------------------------------- boxes

  /** The size field is the extent. */
  predicate Sized(b: seq<Byte>) {
    8 <= |b| < WORD && Value32(b[..4]) == |b|
  }

  /** The size field is 1, and the 64-bit field behind the type is the extent. */
  predicate SizedWide(b: seq<Byte>) {
    16 <= |b| && Value32(b[..4]) == 1 && Value32(b[8..12]) * WORD + Value32(b[12..16]) == |b|
  }

  /** The size of the box at the front of s. */
  function Extent(s: seq<Byte>): nat
    requires |s| >= 8
  {
    var size := Value32(s[..4]);
    if size == 1 && |s| >= 16 then Value32(s[8..12]) * WORD + Value32(s[12..16]) else size
  }

  function Cat(boxes: seq<seq<Byte>>): seq<Byte> {
    if boxes == [] then [] else boxes[0] + Cat(boxes[1..])
  }

  /** The boxes that fill s, found by their size fields. */
  function Children(s: seq<Byte>): (boxes: seq<seq<Byte>>)
    ensures forall b | b in boxes :: 8 <= |b| <= |s|
    decreases |s|
  {
    if |s| < 8 then []
    else
      var size := Extent(s);
      if size < 8 || size > |s| then [] else [s[..size]] + Children(s[size..])
  }

  lemma ExtentIs(b: seq<Byte>, rest: seq<Byte>)
    requires Sized(b) || SizedWide(b)
    ensures |b| >= 8 && Extent(b + rest) == |b|
  {
    hide Value32;
    var s := b + rest;
    assert s[..4] == b[..4];
    if SizedWide(b) {
      assert s[8..12] == b[8..12] && s[12..16] == b[12..16];
    }
  }

  lemma {:induction false} ChildrenOfCat(boxes: seq<seq<Byte>>)
    requires forall b | b in boxes :: Sized(b) || SizedWide(b)
    ensures Children(Cat(boxes)) == boxes
  {
    hide Extent, Sized, SizedWide;
    if boxes != [] {
      var b, rest := boxes[0], Cat(boxes[1..]);
      Halves(b, rest);
      assert b in boxes;
      ExtentIs(b, rest);
      ChildrenOfCat(boxes[1..]);
      assert boxes == [b] + boxes[1..];
    }
  }

  function TypeOf(box: seq<Byte>): seq<Byte>
    requires |box| >= 8
  {
    box[4..8]
  }

  /** What a box holds behind its size and type. */
  function Body(box: seq<Byte>): seq<Byte>
    requires |box| >= 8
  {
    box[8..]
  }

  lemma {:induction false} CatJoin(x: seq<seq<Byte>>, y: seq<seq<Byte>>)
    ensures Cat(x + y) == Cat(x) + Cat(y)
  {
    if x == [] {
      assert x + y == y;
    } else {
      assert (x + y)[1..] == x[1..] + y;
      CatJoin(x[1..], y);
      Assoc(x[0], Cat(x[1..]), Cat(y));
    }
  }

  lemma CatOne(b: seq<Byte>)
    ensures Cat([b]) == b
  {
    assert [b][1..] == [];
    NothingBehind(b);
  }

  lemma CatSnoc(x: seq<seq<Byte>>, b: seq<Byte>)
    ensures Cat(x + [b]) == Cat(x) + b
  {
    CatJoin(x, [b]);
    CatOne(b);
  }

  lemma CatFive(a: seq<Byte>, b: seq<Byte>, c: seq<Byte>, d: seq<Byte>, e: seq<Byte>)
    ensures Cat([a, b, c, d, e]) == a + b + c + d + e
  {
    hide Cat;
    CatThree(a, b, c);
    CatSnoc([a, b, c], d);
    CatSnoc([a, b, c, d], e);
    assert [a, b, c] + [d] == [a, b, c, d] && [a, b, c, d] + [e] == [a, b, c, d, e];
  }

  lemma CatThree(a: seq<Byte>, b: seq<Byte>, c: seq<Byte>)
    ensures Cat([a, b, c]) == a + b + c
  {
    hide Cat;
    CatTwo(a, b);
    CatSnoc([a, b], c);
    assert [a, b] + [c] == [a, b, c];
  }

  lemma CatTwo(a: seq<Byte>, b: seq<Byte>)
    ensures Cat([a, b]) == a + b
  {
    hide Cat;
    CatOne(a);
    CatSnoc([a], b);
    assert [a] + [b] == [a, b];
  }

  lemma CatNone()
    ensures Cat([]) == []
  {}

  // ---------------------------------------------------------------- mdat boxes

  const MDAT: seq<Byte> := [0x6d, 0x64, 0x61, 0x74]

  function Mdat(data: seq<Byte>): (b: seq<Byte>)
    ensures |b| == |data| + 8
  {
    U32(|data| + 8) + MDAT + data
  }

  function Mdats(bodies: seq<seq<Byte>>): seq<Byte> {
    if bodies == [] then [] else Mdats(bodies[..|bodies| - 1]) + Mdat(bodies[|bodies| - 1])
  }

  lemma MdatsSnoc(bodies: seq<seq<Byte>>, b: seq<Byte>)
    ensures Mdats(bodies + [b]) == Mdats(bodies) + Mdat(b)
  {
    assert (bodies + [b])[..|bodies|] == bodies;
  }

  lemma MdatParts(data: seq<Byte>, rest: seq<Byte>)
    requires |data| + 8 < WORD
    ensures var f := Mdat(data) + rest;
            Value32(f[..4]) == |data| + 8 && f[8..|data| + 8] == data && f[|data| + 8..] == rest
  {
    Value32OfU32(|data| + 8);
    var f := Mdat(data) + rest;
    assert f[..4] == U32(|data| + 8);
  }
}
