/** The descriptors of an esds box as the demuxer of stream/minimp4.hpp reads what its muxer
    wrote: the writer's length fields count 127 for each byte 0xff, the reader's seven bits in
    each byte, in 64 bits. */
module Mp4Descriptors {
  import opened Seqs
  import opened Wrappers
  import opened Bits
  import opened Mp4Bytes
  import opened Mp4Boxes
  import opened Mp4Demux
  import opened Mp4Walk

  // ---------------------------------------------------------------- length fields

  /** What k bytes 0xff are read as. */
  function Full(k: nat): (v: nat)
    ensures v < WORD64
  {
    if k == 0 then 0 else (Full(k - 1) * 128 + 127) % WORD64
  }

  /** The bytes 0xff of a length field. */
  function Extra(size: nat): nat {
    |OdLength(size)| - 1
  }

  /** What a length field written for `size` is read as. */
  function ReadBack(size: nat): nat {
    (Full(Extra(size)) * 128 + OdRest(size)) % WORD64
  }

  lemma {:induction false} LengthRead(file: seq<Byte>, p: nat, size: nat, k: nat)
    requires p + |OdLength(size)| <= |file| && file[p..p + |OdLength(size)|] == OdLength(size)
    ensures TagLength(file, p, Full(k))
         == Some(LengthField((Full(k + Extra(size)) * 128 + OdRest(size)) % WORD64, p + |OdLength(size)|))
    decreases size
  {
    hide OdLength, OdRest, TagLength, Full;
    OdSplit(size);
    var l := OdLength(size);
    assert file[p] == l[0];
    if size > 0x7F {
      Inner(file, p, p + |l|, 1, |l|);
      assert l[1..|l|] == OdLength(size - 0x7F);
      LengthMore(file, p, k);
      LengthRead(file, p + 1, size - 0x7F, k + 1);
    } else {
      LengthLast(file, p, Full(k));
    }
  }

  lemma OdSplit(size: nat)
    ensures size > 0x7F ==> OdLength(size) == [0xff] + OdLength(size - 0x7F) && OdRest(size) == OdRest(size - 0x7F)
    ensures size <= 0x7F ==> OdLength(size) == [size] && OdRest(size) == size
  {}

  lemma LengthMore(file: seq<Byte>, p: nat, k: nat)
    requires p < |file| && file[p] == 0xff
    ensures TagLength(file, p, Full(k)) == TagLength(file, p + 1, Full(k + 1))
  {}

  lemma LengthLast(file: seq<Byte>, p: nat, v: nat)
    requires p < |file| && file[p] <= 0x7F
    ensures TagLength(file, p, v) == Some(LengthField((v * 128 + file[p]) % WORD64, p + 1))
  {}

  lemma {:induction false} FullFrom9(k: nat)
    requires k >= 9
    ensures Full(k) == 0x7fff_ffff_ffff_ffff || Full(k) == 0xffff_ffff_ffff_ffff
  {
    if k == 9 {
      FullTo9();
    } else {
      FullFrom9(k - 1);
    }
  }

  lemma FullTo9()
    ensures Full(0) == 0 && Full(1) == 0x7f && Full(2) == 0x3fff && Full(3) == 0x1f_ffff && Full(4) == 0xfff_ffff
    ensures Full(5) == 0x7_ffff_ffff && Full(6) == 0x3ff_ffff_ffff && Full(7) == 0x1_ffff_ffff_ffff
    ensures Full(8) == 0xff_ffff_ffff_ffff && Full(9) == 0x7fff_ffff_ffff_ffff
  {
    assert Full(1) == 0x7f;
    assert Full(2) == 0x3fff;
    assert Full(3) == 0x1f_ffff;
    assert Full(4) == 0xfff_ffff;
    assert Full(5) == 0x7_ffff_ffff;
    assert Full(6) == 0x3ff_ffff_ffff;
    assert Full(7) == 0x1_ffff_ffff_ffff;
    assert Full(8) == 0xff_ffff_ffff_ffff;
  }

  /** A length of at most 127 is read as written; a longer one as too much, and from nine bytes
      0xff on as 128 less than 2^64 and the last byte. */
  lemma ReadBackIs(size: nat)
    ensures Extra(size) == 0 ==> size <= 0x7F && ReadBack(size) == size
    ensures 1 <= Extra(size) <= 8 ==> size + 15000 < ReadBack(size) < FILE_LIMIT
    ensures Extra(size) >= 9 ==> ReadBack(size) == WORD64 - 128 + OdRest(size)
    ensures 0x7F * Extra(size) + OdRest(size) == size
  {
    hide OdLength, OdRest, Full;
    OdParts(size);
    var k, rest := Extra(size), OdRest(size);
    FullTo9();
    if k >= 9 {
      FullFrom9(k);
      Wrapped(Full(k), rest);
    } else if k >= 1 {
      FullBetween(k);
      Small(Full(k) * 128 + rest);
    } else {
      Small(rest);
    }
  }

  lemma Small(v: nat)
    requires v < WORD64
    ensures v % WORD64 == v
  {}

  lemma Wrapped(v: nat, rest: nat)
    requires (v == 0x7fff_ffff_ffff_ffff || v == 0xffff_ffff_ffff_ffff) && rest <= 0x7F
    ensures (v * 128 + rest) % WORD64 == WORD64 - 128 + rest
  {}

  lemma FullBetween(k: nat)
    requires 1 <= k <= 8
    ensures 0x7f <= Full(k) <= 0xff_ffff_ffff_ffff
  {
    hide Full;
    FullTo9();
  }

  // ---------------------------------------------------------------- which ones can be read

  /** The lengths of the three descriptors, for a decoder configuration of dsi bytes. */
  function ConfigLength(dsi: nat): nat {
    dsi + |OdLength(dsi)| + 14
  }

  function EsLength(dsi: nat): nat {
    ConfigLength(dsi) + |OdLength(ConfigLength(dsi))| + 4
  }

  /** The length of the outer descriptor can be read: correctly, or as more than there is. */
  predicate Bounded(size: nat) {
    Extra(size) < 9 || Extra(size) + OdRest(size) < 126
  }

  function DsiBytes(t: Indexed): nat
    requires |t.vsps| >= 2
  {
    |t.vsps| - 2
  }

  /** The parts of the three descriptors that the reader's way depends on. */
  lemma DescriptorShape(t: Indexed)
    requires Encodable(t) && t.info.media != Video && t.vsps != []
    ensures var b, size := Descriptors(t), EsLength(DsiBytes(t));
            var n := 1 + |OdLength(size)|;
            && b == EsDescriptor(size) + DecoderConfig(t, ConfigLength(DsiBytes(t))) + SpecificInfo(t.vsps[2..])
            && n + 3 <= |b| <= n + size && |b| <= 24 + |t.vsps|
            && b[0] == 3 && b[1..n] == OdLength(size) && b[n + 2] == 0
  {
    hide OdLength, OdRest, DecoderConfig, SpecificInfo;
    var size := EsLength(DsiBytes(t));
    var l, rest := OdLength(size), DecoderConfig(t, ConfigLength(DsiBytes(t))) + SpecificInfo(t.vsps[2..]);
    var b := Descriptors(t);
    Assoc(EsDescriptor(size), DecoderConfig(t, ConfigLength(DsiBytes(t))), SpecificInfo(t.vsps[2..]));
    assert b == [3] + l + ZeroBytes(3) + rest;
    assert b[1..1 + |l|] == l;
  }

  /** The head of the outer descriptor. */
  lemma OuterHead(file: seq<Byte>, p: nat, t: Indexed)
    requires Encodable(t) && t.info.media != Video && t.vsps != []
    requires p + |Descriptors(t)| <= |file| && file[p..p + |Descriptors(t)|] == Descriptors(t)
    ensures var size := EsLength(DsiBytes(t));
            var n := 2 + Extra(size);
            TagHead(file, p) == Head(Tag(3), (n + ReadBack(size)) % WORD64, ReadBack(size), n, n, 0)
  {
    hide OdLength, OdRest, Descriptors, EsLength, TagHead, ReadBack;
    var b, size := Descriptors(t), EsLength(DsiBytes(t));
    DescriptorShape(t);
    Ahead(file, p, b, 1, 1 + |OdLength(size)|);
    assert file[p] == file[p..p + |b|][0];
    LongTag(file, p, size);
  }

  lemma LongTag(file: seq<Byte>, p: nat, size: nat)
    requires p + 1 + |OdLength(size)| <= |file| && file[p + 1..p + 1 + |OdLength(size)|] == OdLength(size)
    ensures var n := 2 + Extra(size);
            TagHead(file, p) == Head(Tag(file[p]), (n + ReadBack(size)) % WORD64, ReadBack(size), n, n, 0)
  {
    hide OdLength, OdRest, TagLength, Full;
    LengthRead(file, p + 1, size, 0);
    FullTo9();
  }

  // ---------------------------------------------------------------- cut

  /** An outer length read as too much: the descriptors are passed over as one box. */
  lemma CutFills(t: Indexed, d: nat, x: Memory)
    requires Encodable(t) && t.info.media != Video && t.vsps != [] && |Descriptors(t)| < WORD
    requires Extra(EsLength(DsiBytes(t))) >= 1 && Bounded(EsLength(DsiBytes(t)))
    ensures Fills(Descriptors(t), true, d, x, x)
  {
    hide Before, Walk, Descriptors, OdLength, OdRest, EsLength;
    forall file, s | Before(file, s, Descriptors(t), true, d, x) && s.stack != [] && Left(s.stack) == |Descriptors(t)|
      ensures Walk(file, s) == Walk(file, After(s, |Descriptors(t)|, x)) {
      StepCut(file, s, t, d, x);
    }
    DescriptorShape(t);
  }

  lemma CutSize(size: nat, n: nat)
    requires Extra(size) >= 1 && Bounded(size) && n <= Extra(size) + 2 + size && n < WORD
    ensures (2 + Extra(size) + ReadBack(size)) % WORD64 > n
  {
    hide OdLength, OdRest, ReadBack;
    ReadBackIs(size);
    var k, rest := Extra(size), OdRest(size);
    if k >= 9 {
      Small(WORD64 + k + rest - 126);
    } else {
      Small(2 + k + ReadBack(size));
    }
  }

  lemma StepCut(file: seq<Byte>, s: State, t: Indexed, d: nat, x: Memory)
    requires Encodable(t) && t.info.media != Video && t.vsps != [] && |Descriptors(t)| < WORD
    requires Extra(EsLength(DsiBytes(t))) >= 1 && Bounded(EsLength(DsiBytes(t)))
    requires Before(file, s, Descriptors(t), true, d, x) && s.stack != [] && Left(s.stack) == |Descriptors(t)|
    ensures Walk(file, s) == Walk(file, After(s, |Descriptors(t)|, x))
  {
    hide Descriptors, OdLength, OdRest, EsLength, ReadBack, TagHead, Popped, Bounded, Encodable, Available;
    var b, size := Descriptors(t), EsLength(DsiBytes(t));
    DescriptorShape(t);
    OuterHead(file, s.pos, t);
    CutSize(size, |b|);
    Small(|b| - 2 - Extra(size));
    assert Step(file, s) == Go(After(s, |b|, x));
  }

  // ---------------------------------------------------------------- read whole

  /** The decoder configuration that the reader gets: all of it, or nothing. */
  function DsiRead(t: Indexed): seq<Byte>
    requires |t.vsps| >= 2
  {
    if Extra(EsLength(DsiBytes(t))) == 0 then t.vsps[2..] else []
  }

  lemma ShortLengths(dsi: nat)
    requires Extra(EsLength(dsi)) == 0
    ensures dsi <= 107 && OdLength(dsi) == [dsi] && OdRest(dsi) == dsi
    ensures ConfigLength(dsi) == dsi + 15 && OdLength(dsi + 15) == [dsi + 15]
    ensures EsLength(dsi) == dsi + 20 && OdLength(dsi + 20) == [dsi + 20]
  {
    hide OdLength, OdRest;
    OdParts(EsLength(dsi));
    OdSplit(EsLength(dsi));
    OdSplit(ConfigLength(dsi));
    OdSplit(dsi);
  }

  function WithDsi(x: Memory, dsi: seq<Byte>): Memory
    requires x.current.Some?
  {
    x.(current := Some(x.current.value.(dsi := dsi)))
  }

  /** The specific info, found by its tag and length. */
  lemma InfoFills(dsi: seq<Byte>, d: nat, x: Memory)
    requires |dsi| <= 107 && Unset(x) && d + 1 < DEPTH_LIMIT
    ensures Fills([5, |dsi|] + dsi, true, d, x, WithDsi(x, dsi))
  {
    hide Passes, Fills, Announces;
    var b: seq<Byte> := [5, |dsi|] + dsi;
    var h := ShortTag(b);
    assert b[2..] == dsi;
    TagAnnounced(b, x);
    NoFills(true, d + 1, WithDsi(x, dsi));
    assert dsi[|dsi|..] == [];
    InPasses(b, h, true, d, x, WithDsi(x, dsi));
    PassesFills(b, true, d, x, WithDsi(x, dsi));
  }

  lemma NoFills(od: bool, d: nat, x: Memory)
    ensures Fills([], od, d, x, x)
  {}

  /** A descriptor with n bytes in front of those inside it. */
  lemma DescriptorFills(tag: Byte, fields: seq<Byte>, inner: seq<Byte>, d: nat, x: Memory, y: Memory)
    requires (tag == 3 && fields == ZeroBytes(3)) || (tag == 4 && |fields| == 13)
    requires x.current.Some? && |fields + inner| <= 0x7F && d + 1 < DEPTH_LIMIT
    requires Fills(inner, true, d + 1, x, y)
    ensures Fills([tag, |fields + inner|] + (fields + inner), true, d, x, y)
  {
    hide Passes, Fills, Announces;
    var data: seq<Byte> := fields + inner;
    var b: seq<Byte> := [tag, |data|] + data;
    var h := ShortTag(b);
    assert b[2..] == data;
    TagAnnounced(b, x);
    assert data[|fields|..] == inner;
    assert Readable(h, data, x) && Front(h, data, x) == |fields| && Remembered(h, data, x) == x;
    InPasses(b, h, true, d, x, y);
    PassesFills(b, true, d, x, y);
  }

  lemma WholeFills(t: Indexed, d: nat, x: Memory)
    requires Encodable(t) && t.info.media != Video && t.vsps != [] && Unset(x) && d + 3 < DEPTH_LIMIT
    requires Extra(EsLength(DsiBytes(t))) == 0
    ensures Fills(Descriptors(t), true, d, x, WithDsi(x, DsiRead(t)))
  {
    hide Fills, OdLength, OdRest, EsLength, ConfigLength, DecoderConfig, Descriptors;
    var dsi := t.vsps[2..];
    var n, y := |dsi|, WithDsi(x, dsi);
    ShortLengths(n);
    DescriptorShape(t);
    ConfigShape(t, n + 15);
    var info := [5, n] + dsi;
    assert SpecificInfo(dsi) == info by { assert dsi[..n] == dsi; }
    var fields := DecoderConfig(t, n + 15)[2..];
    InfoFills(dsi, d + 2, x);
    DescriptorFills(4, fields, info, d + 1, x, y);
    var config := [4, n + 15] + (fields + info);
    DescriptorFills(3, ZeroBytes(3), config, d, x, y);
    assert Descriptors(t) == [3, n + 20] + (ZeroBytes(3) + config);
  }

  lemma ConfigShape(t: Indexed, size: nat)
    requires size <= 0x7F && OdLength(size) == [size]
    ensures |DecoderConfig(t, size)| == 15 && DecoderConfig(t, size)[..2] == [4, size]
  {
    hide OdLength;
  }

  // ---------------------------------------------------------------- astray

  /** The bytes left in the levels from l on. */
  function Weight(stack: seq<Level>, l: nat): nat {
    if |stack| <= l then 0 else stack[|stack| - 1].bytes + Weight(stack[..|stack| - 1], l)
  }

  predicate Kept(m: Memory, y: Memory) {
    Stuck(Some(m), y)
  }

  /** Nothing but descriptors from level l on, and more left in them than in the file. */
  ghost predicate Astray(file: seq<Byte>, s: State, l: nat, y: Memory) {
    && |file| < FILE_LIMIT && Kept(s.mem, y) && s.pos + Weight(s.stack, l) > |file|
    && forall i | l <= i < |s.stack| :: s.stack[i].od
  }

  lemma {:induction false} PoppedKeeps(stack: seq<Level>, l: nat)
    requires (forall i | l <= i < |stack| :: stack[i].od) && Weight(stack, l) > 0
    ensures Weight(Popped(stack), l) == Weight(stack, l) && forall i | l <= i < |Popped(stack)| :: Popped(stack)[i].od
  {
    if stack[|stack| - 1].bytes == 0 {
      PoppedKeeps(stack[..|stack| - 1], l);
    }
  }

  lemma LowerWeight(stack: seq<Level>, n: nat, l: nat)
    requires Weight(stack, l) > 0
    ensures Weight(Lower(stack, n), l) == Weight(stack, l) - Min(n, Left(stack))
  {
    var k := |stack| - 1;
    assert Lower(stack, n)[..k] == stack[..k];
  }

  lemma PushWeight(stack: seq<Level>, level: Level, l: nat)
    requires l <= |stack|
    ensures Weight(stack + [level], l) == Weight(stack, l) + level.bytes
  {
    assert (stack + [level])[..|stack|] == stack;
  }

  /** What a turn leaves behind: the pass still astray, or over without another table. */
  ghost predicate StillAstray(file: seq<Byte>, turn: Turn, l: nat, y: Memory) {
    match turn
    case Go(s) => Kept(s.mem, y) && (s.pos >= |file| || Astray(file, s, l, y))
    case End(m) => Kept(m, y)
    case Fail => true
  }

  lemma EnterAstray(file: seq<Byte>, p: nat, stack: seq<Level>, h: Head, mem: Memory, l: nat, y: Memory)
    requires p <= |file| < FILE_LIMIT && h.Head? && !h.name.Atom? && Kept(mem, y) && l <= |stack|
    requires p + h.payload + Weight(stack, l) > |file| && forall i | l <= i < |stack| :: stack[i].od
    ensures StillAstray(file, Enter(file, p, stack, h, mem), l, y)
  {
    hide Weight, Popped, Enter, Kept, Envelope;
    EnterTag(file, p, stack, h, mem, y);
    var t := Enter(file, p, stack, h, mem);
    if t.Go? && t.state.pos < |file| {
      if Envelope(h.name).Some? {
        var level := Level(h.payload - (t.state.pos - p), true);
        PushWeight(stack, level, l);
        PoppedKeeps(stack + [level], l);
      } else {
        PoppedKeeps(stack, l);
      }
    }
  }

  /** What the turn does with a descriptor, or with a box that has lost its name. */
  lemma EnterTag(file: seq<Byte>, p: nat, stack: seq<Level>, h: Head, mem: Memory, y: Memory)
    requires p <= |file| && h.Head? && !h.name.Atom? && Kept(mem, y)
    ensures match Enter(file, p, stack, h, mem)
            case Fail => true
            case End(m) => Kept(m, y)
            case Go(s) =>
              && Kept(s.mem, y) && p <= s.pos
              && if Envelope(h.name).Some?
                 then s.pos - p <= h.payload && s.stack == Popped(stack + [Level(h.payload - (s.pos - p), true)])
                 else s.pos == p + h.payload && s.stack == Popped(stack)
  {
    hide Popped, EsFields, Available;
  }

  lemma TakenBytes(size: nat, left: nat, bytes: nat, payload: nat, weight: nat, file: nat)
    requires size == (bytes + payload) % WORD64 && bytes <= file < FILE_LIMIT && left <= weight
    ensures size <= left ==> bytes + payload + (weight - Min(size, left)) >= weight
    ensures size > left ==>
              var cut := (left - bytes) % WORD64;
              bytes + cut + (weight - Min(size, left)) >= weight || bytes + cut > file
  {
    if size > left {
      if left >= bytes {
        Small(left - bytes);
      } else {
        Around(bytes - left);
      }
    }
  }

  lemma Around(n: nat)
    requires 0 < n < WORD64
    ensures (0 - n) % WORD64 == WORD64 - n
  {}

  lemma StepAstray(file: seq<Byte>, s: State, l: nat, y: Memory)
    requires Astray(file, s, l, y) && s.pos < |file|
    ensures StillAstray(file, Step(file, s), l, y)
  {
    hide Enter, Popped, Lower, Envelope, TagLength;
    SomeLeft(s.stack, l);
    var h := TagHead(file, s.pos);
    if h.Head? {
      LowerWeight(s.stack, h.size, l);
      TakenBytes(h.size, Left(s.stack), h.bytes, h.payload, Weight(s.stack, l), |file|);
      LowerOd(s.stack, h.size, l);
      if h.size > 0 {
        EnterAstray(file, s.pos + h.bytes, Lower(s.stack, h.size), Fitted(s.stack, h), s.mem, l, y);
      }
    }
  }

  lemma SomeLeft(stack: seq<Level>, l: nat)
    requires Weight(stack, l) > 0
    ensures |stack| > l && Left(stack) <= Weight(stack, l)
  {}

  lemma LowerOd(stack: seq<Level>, n: nat, l: nat)
    requires forall i | l <= i < |stack| :: stack[i].od
    ensures forall i | l <= i < |stack| :: Lower(stack, n)[i].od
  {}

  /** A pass that has gone astray finds no table any more. */
  lemma {:induction false} AstrayStuck(file: seq<Byte>, s: State, l: nat, y: Memory)
    requires Astray(file, s, l, y)
    ensures Stuck(Walk(file, s), y)
    decreases |file| - s.pos
  {
    hide Step, Astray;
    if s.pos < |file| {
      StepAstray(file, s, l, y);
      var t := Step(file, s);
      if t.Go? && t.state.pos < |file| {
        AstrayStuck(file, t.state, l, y);
      }
    } else {
      assert Kept(s.mem, y) by {
        AstrayKept(file, s, l, y);
      }
    }
  }

  lemma AstrayKept(file: seq<Byte>, s: State, l: nat, y: Memory)
    requires Astray(file, s, l, y)
    ensures Kept(s.mem, y)
  {}

  /** An outer length that wraps around to no more than there is: the size is 0, and the source
      asserts that it is not, or the descriptor is entered with almost 2^64 bytes. */
  lemma AstrayStrands(t: Indexed, d: nat, x: Memory)
    requires Encodable(t) && t.info.media != Video && t.vsps != [] && |Descriptors(t)| < WORD && x.current.Some?
    requires !Bounded(EsLength(DsiBytes(t)))
    ensures Strands(Descriptors(t), true, d, x, x)
  {
    hide Before, Walk, Descriptors, Bounded, EsLength, Stuck;
    forall file, s | |file| < FILE_LIMIT && Before(file, s, Descriptors(t), true, d, x)
      ensures Stuck(Walk(file, s), x) {
      StepIntoNothing(file, s, t, d, x);
    }
  }

  lemma WrappedSize(size: nat, n: nat)
    requires !Bounded(size) && n >= Extra(size) + 5 && n < WORD
    ensures (2 + Extra(size) + ReadBack(size)) % WORD64 == Extra(size) + OdRest(size) - 126 < n
    ensures ReadBack(size) >= WORD64 - 128
  {
    hide OdLength, OdRest, ReadBack;
    ReadBackIs(size);
    Small(Extra(size) + OdRest(size) - 126);
    Turned(Extra(size) + OdRest(size) - 126);
  }

  lemma Turned(n: nat)
    requires n < WORD64
    ensures (WORD64 + n) % WORD64 == n
  {}

  lemma StepIntoNothing(file: seq<Byte>, s: State, t: Indexed, d: nat, x: Memory)
    requires Encodable(t) && t.info.media != Video && t.vsps != [] && |Descriptors(t)| < WORD && x.current.Some?
    requires !Bounded(EsLength(DsiBytes(t)))
    requires |file| < FILE_LIMIT && Before(file, s, Descriptors(t), true, d, x)
    ensures Stuck(Walk(file, s), x)
  {
    hide Descriptors, OdLength, OdRest, EsLength, ReadBack, TagHead, Popped, Bounded, Encodable, Weight, Lower, Stuck;
    var b, size := Descriptors(t), EsLength(DsiBytes(t));
    DescriptorShape(t);
    OuterHead(file, s.pos, t);
    WrappedSize(size, |b|);
    var h := TagHead(file, s.pos);
    if h.size == 0 {
      assert Step(file, s) == Fail;
      Nothing(x);
    } else {
      NoFlags(file, s.pos, b, h);
      Entered(file, s, h, x);
    }
  }

  lemma Nothing(x: Memory)
    ensures Stuck(None, x)
  {}

  /** The three bytes behind the length are zeros. */
  lemma NoFlags(file: seq<Byte>, p: nat, b: seq<Byte>, h: Head)
    requires p + |b| <= |file| && file[p..p + |b|] == b && h.Head? && h.bytes + 3 <= |b| && b[h.bytes + 2] == 0
    requires h.payload >= |file|
    ensures var data := Available(file, p + h.bytes, h.payload); |data| >= 3 && data[2] == 0
  {
    assert file[p + h.bytes + 2] == file[p..p + |b|][h.bytes + 2];
  }

  lemma Entered(file: seq<Byte>, s: State, h: Head, x: Memory)
    requires |file| < FILE_LIMIT && s.pos < |file| && h == HeadAt(file, s) && InDescriptors(s.stack) && s.mem == x
    requires h.Head? && h.name == Tag(3) && 0 < h.size <= Left(s.stack) && h.payload >= WORD64 - 128
    requires x.current.Some?
    requires var data := Available(file, s.pos + h.bytes, h.payload); |data| >= 3 && data[2] == 0
    ensures Stuck(Walk(file, s), x)
  {
    hide HeadAt, Lower, Popped, Available, Weight, Stuck;
    var low := Lower(s.stack, h.size);
    var level := Level(h.payload - 3, true);
    var data := Available(file, s.pos + h.bytes, h.payload);
    assert EsFields(data, h.payload) == (3, 3);
    if |low| + 1 < DEPTH_LIMIT {
      var s' := State(s.pos + h.bytes + 3, Popped(low + [level]), x);
      assert Step(file, s) == Go(s');
      PushWeight(low, level, |low|);
      NoWeight(low);
      PoppedKeeps(low + [level], |low|);
      Same(x);
      AstrayStuck(file, s', |low|, x);
    } else {
      assert Step(file, s) == Fail;
      Nothing(x);
    }
  }

  lemma NoWeight(stack: seq<Level>)
    ensures Weight(stack, |stack|) == 0
  {}

  lemma Same(x: Memory)
    requires x.current.Some?
    ensures Kept(x, x)
  {}

  // ---------------------------------------------------------------- which lengths these are

  /** With at most 1221 bytes of decoder configuration the descriptors can be read over. */
  lemma ShortEnough(dsi: nat)
    requires dsi <= 1221
    ensures Bounded(EsLength(dsi))
  {
    hide OdLength, OdRest;
    OdParts(dsi);
    OdParts(ConfigLength(dsi));
    OdParts(EsLength(dsi));
  }

  /** With 1222 the outer length is written as nine bytes 0xff and 0x75, and its size comes out
      as 0. */
  lemma FirstUnbounded()
    ensures EsLength(1222) == 1260 && Extra(1260) == 9 && OdRest(1260) == 0x75 && !Bounded(EsLength(1222))
  {
    hide OdLength, OdRest;
    OdParts(1222);
    RestPositive(1222);
    OdParts(1246);
    RestPositive(1246);
    OdParts(1260);
    RestPositive(1260);
  }

  lemma {:induction false} RestPositive(size: nat)
    requires size > 0
    ensures OdRest(size) > 0
  {
    if size > 0x7F {
      RestPositive(size - 0x7F);
    }
  }
}
