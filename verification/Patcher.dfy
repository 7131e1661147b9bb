/** The SPS and PPS id transcoder of stream/minimp4.hpp as it runs: bit readers and
    writers, the content caches and the id maps. */
module Patcher {
  import opened Seqs
  import opened Wrappers
  import opened Bits
  import opened BitWriter
  import opened BitReader
  import opened Transcode

  /** The bits behind a reader's position, up to the end of its data. */
  ghost function Rest(r: Reader): (b: seq<bool>)
    requires r.Valid() && r.Pos() <= 8 * r.originBytes
    reads r
  {
    BitsOf(r.mem)[r.Pos()..8 * r.originBytes]
  }

  /** The reader may load ahead of its data. */
  ghost predicate Ready(r: Reader)
    reads r
  {
    r.Valid() && r.originBytes + 4 <= |r.mem| && r.Pos() <= 8 * r.originBytes
  }

  lemma FieldBits(d: seq<bool>, pos: nat, n: nat)
    requires pos + n <= |d|
    ensures ToBits(Field(d, pos, n), n) == d[pos..pos + n]
  {
    ToFromBits(d[pos..pos + n]);
  }

  /** The next n bits of the data, as a number. */
  method TakeBits(r: Reader, n: nat) returns (bits: nat)
    requires Ready(r) && 1 <= n <= 16 && n <= |Rest(r)|
    modifies r
    ensures Ready(r) && Rest(r) == old(Rest(r))[n..]
    ensures bits < Pow2(n) && ToBits(bits, n) == old(Rest(r))[..n]
  {
    hide BitsOf, Field, ToBits, Pow2, Holds;
    ghost var d, p, e := BitsOf(r.mem), r.Pos(), 8 * r.originBytes;
    Inner(d, p, e, 0, n);
    Inner(d, p, e, n, e - p);
    FieldBits(d, p, n);
    bits := r.GetBits(n);
  }

  /** Moves n bits from r to w. */
  method MoveBits(r: Reader, w: Writer, n: nat)
    requires Ready(r) && w.Valid() && 1 <= n <= 16 && n <= |Rest(r)|
    modifies r, w
    ensures Ready(r) && w.Valid() && Rest(r) == old(Rest(r))[n..]
    ensures w.Written() == old(w.Written()) + old(Rest(r))[..n]
  {
    hide Ready, Rest, ToBits, Shr, Pow2, Aligned, BitsOf;
    var bits := TakeBits(r, n);
    w.PutBits(n, bits);
  }

  /** Dropping the last zeros of the last bits drops those of the whole. */
  lemma {:induction false} StripTail(front: seq<bool>, tail: seq<bool>, k: nat)
    requires |tail| == k || (front == [] && |tail| <= k)
    ensures Strip(front + tail, k) == front + Strip(tail, k)
    decreases k
  {
    if tail == [] {
      assert front + tail == front;
    } else {
      assert (front + tail)[..|front + tail| - 1] == front + tail[..|tail| - 1];
      if !tail[|tail| - 1] {
        StripTail(front, tail[..|tail| - 1], k - 1);
      }
    }
  }

  lemma StripStep(b: seq<bool>, k: nat)
    requires b != [] && k >= |b|
    ensures Strip(b, k) == if b[|b| - 1] then b else Strip(b[..|b| - 1], k - 1)
  {}

  lemma {:induction false} StripMore(b: seq<bool>, k: nat, m: nat)
    requires k >= |b| && m >= |b|
    ensures Strip(b, k) == Strip(b, m)
  {
    if b != [] && !b[|b| - 1] {
      StripMore(b[..|b| - 1], k - 1, m - 1);
    }
  }

  lemma LowBit(v: nat, n: nat)
    requires n > 0
    ensures ToBits(v, n) == ToBits(v / 2, n - 1) + [v % 2 == 1]
    ensures v < Pow2(n) ==> v / 2 < Pow2(n - 1)
  {}

  lemma NoBits(v: nat)
    ensures Strip(ToBits(v, 0), 0) == []
  {}

  /** The end of copy_bits: cuts the zeros behind the stop bit and writes what is left. */
  method PutTail(w: Writer, tail: nat, count: nat)
    requires w.Valid() && count <= 7 && tail < Pow2(count)
    modifies w
    ensures w.Valid() && w.Written() == old(w.Written()) + Strip(ToBits(tail, count), count)
  {
    hide ToBits, Shr, Pow2, Strip, BitsOf;
    var bits: nat, bitCount: nat := tail, count;
    while bitCount > 0 && bits % 2 == 0
      invariant bitCount <= 7 && bits < Pow2(bitCount) && w.Valid() && w.Written() == old(w.Written())
      invariant Strip(ToBits(tail, count), count) == Strip(ToBits(bits, bitCount), bitCount)
    {
      LowBit(bits, bitCount);
      StripStep(ToBits(bits, bitCount), bitCount);
      assert ToBits(bits, bitCount)[..bitCount - 1] == ToBits(bits / 2, bitCount - 1);
      bits := bits / 2;
      bitCount := bitCount - 1;
    }
    if bitCount > 0 {
      LowBit(bits, bitCount);
      StripStep(ToBits(bits, bitCount), bitCount);
      w.PutBits(bitCount, bits);
    } else {
      NoBits(bits);
    }
  }

  lemma MoveOn(all: seq<bool>, front: seq<bool>, rest: seq<bool>, n: nat, base: seq<bool>)
    requires all == front + rest && n <= |rest|
    ensures all == front + rest[..n] + rest[n..] && base + front + rest[..n] == base + (front + rest[..n])
  {
    assert rest == rest[..n] + rest[n..];
  }

  /** The loop of copy_bits: moves whole fields until at most seven bits are left. */
  method CopyFront(r: Reader, w: Writer) returns (bitCount: nat, ghost front: seq<bool>)
    requires Ready(r) && w.Valid() && Rest(r) != []
    modifies r, w
    ensures Ready(r) && w.Valid() && 0 < bitCount == |Rest(r)| <= 7
    ensures old(Rest(r)) == front + Rest(r) && w.Written() == old(w.Written()) + front
    ensures front == [] || bitCount == 7
  {
    hide BitsOf, Field, ToBits, Shr, Pow2, Strip, Aligned, Holds;
    bitCount := r.RemainingBits();
    front := [];
    while bitCount > 7
      invariant Ready(r) && w.Valid() && bitCount == |Rest(r)| > 0 && old(Rest(r)) == front + Rest(r)
      invariant w.Written() == old(w.Written()) + front
      invariant front == [] || bitCount >= 7
    {
      var cb := if bitCount - 7 < 8 then bitCount - 7 else 8;
      MoveOn(old(Rest(r)), front, Rest(r), cb, old(w.Written()));
      front := front + Rest(r)[..cb];
      MoveBits(r, w, cb);
      bitCount := bitCount - cb;
    }
  }

  /** copy_bits: everything to the end of the data, without the zeros behind the stop bit. */
  method CopyBits(r: Reader, w: Writer)
    requires Ready(r) && w.Valid() && Rest(r) != []
    modifies r, w
    ensures w.Valid() && w.Written() == old(w.Written()) + Kept(old(Rest(r)))
  {
    hide BitsOf, Field, ToBits, Shr, Pow2, Strip, Aligned, Holds;
    var bitCount, front := CopyFront(r, w);
    ghost var tail := Rest(r);
    StripTail(front, tail, 7);
    StripMore(tail, 7, bitCount);
    assert tail[..bitCount] == tail;
    Assoc(old(w.Written()), front, Strip(tail, bitCount));
    var bits := TakeBits(r, bitCount);
    PutTail(w, bits, bitCount);
  }

  // ---------------------------------------------------------------- fields of a payload

  /** A reader at a position of payload d, with readable memory behind it. */
  ghost predicate Reads(r: Reader, d: seq<bool>, pos: nat)
    reads r
  {
    Ready(r) && |d| == 8 * r.originBytes && BitsOf(r.mem)[..|d|] == d && r.Pos() == pos
  }

  /** A code that lies within the payload is the same one in the memory. */
  lemma UeInPrefix(d: seq<bool>, m: seq<bool>, pos: nat)
    requires |d| <= |m| && m[..|d|] == d && pos <= |d| && UeAt(d, pos)
    ensures UeAt(m, pos) && LeadingZeros(m, pos) == LeadingZeros(d, pos) && UeValue(m, pos) == UeValue(d, pos)
  {
    hide LeadingZeros, Pow2, Field;
    ZerosInPrefix(d, m, pos);
    var z := LeadingZeros(d, pos);
    FieldInPrefix(d, m, pos + z + 1, z);
  }

  lemma FieldInPrefix(d: seq<bool>, m: seq<bool>, pos: nat, n: nat)
    requires |d| <= |m| && m[..|d|] == d && pos + n <= |d|
    ensures Field(m, pos, n) == Field(d, pos, n)
  {
    hide FromBits;
    InPrefix(m, d, pos, pos + n);
  }

  lemma {:induction false} ZerosInPrefix(d: seq<bool>, m: seq<bool>, pos: nat)
    requires |d| <= |m| && m[..|d|] == d && pos <= |d| && pos + LeadingZeros(d, pos) < |d|
    ensures LeadingZeros(m, pos) == LeadingZeros(d, pos)
    decreases |d| - pos
  {
    assert m[pos] == m[..|d|][pos] == d[pos];
    if !d[pos] {
      ZerosInPrefix(d, m, pos + 1);
    }
  }

  method ReadUe(r: Reader, ghost d: seq<bool>, ghost pos: nat) returns (v: nat)
    requires Reads(r, d, pos) && UeIn(d, pos)
    modifies r
    ensures v == UeValue(d, pos) && Reads(r, d, UeEnd(d, pos))
  {
    hide BitsOf, UeValue, Holds, Pow2, LeadingZeros;
    UeInPrefix(d, BitsOf(r.mem), pos);
    v := r.UeBits();
  }

  lemma RestIs(r: Reader, d: seq<bool>, pos: nat)
    requires Reads(r, d, pos)
    ensures Rest(r) == d[pos..]
  {
    hide BitsOf, Holds;
    assert BitsOf(r.mem)[pos..|d|] == BitsOf(r.mem)[..|d|][pos..];
  }

  /** Byte alignment and the bytes written: the stream so far, padded. */
  method Finish(w: Writer) returns (bytes: nat, buffer: seq<Byte>)
    requires w.Valid()
    modifies w
    ensures w.Valid() && w.Written() == Padded(old(w.Written()))
    ensures bytes <= |buffer| && 8 * bytes == |w.Written()| && buffer[..bytes] == Pack(w.Written())
  {
    hide BitsOf, Aligned, ToBits, Shr, Pack;
    var pos := w.ByteAlign();
    bytes := pos / 8;
    buffer := w.Flush();
    FlushedBytes(buffer, w.Written(), w.shift);
    PackOf(buffer[..bytes]);
  }

  // ---------------------------------------------------------------- the three patchers

  /** change_sps_id, on the bits behind the NAL header. */
  method ChangeSpsId(r: Reader, w: Writer, newId: nat, ghost d: seq<bool>)
    returns (bytes: nat, buffer: seq<Byte>, oldId: nat)
    requires Reads(r, d, 0) && SpsFormed(d) && w.Valid() && w.Written() == [] && newId < MAX_SPS
    modifies r, w
    ensures w.Valid() && w.Written() == SpsCode(d[..24], newId, d[UeEnd(d, 24)..])
    ensures bytes <= |buffer| && buffer[..bytes] == Pack(w.Written()) && oldId == UeValue(d, 24)
  {
    hide BitsOf, UeValue, UeCode, Strip, Pack, UeAt, UeLength, Pow2, Holds, Aligned;
    RestIs(r, d, 0);
    assert d[0..] == d;
    for i := 0 to 3
      invariant Reads(r, d, 8 * i) && w.Valid() && w.Written() == d[..8 * i] && Rest(r) == d[8 * i..]
    {
      MoveBits(r, w, 8);
      assert d[8 * i..][8..] == d[8 * (i + 1)..] && d[..8 * i] + d[8 * i..][..8] == d[..8 * (i + 1)];
    }
    oldId := ReadUe(r, d, 24);
    w.PutGolomb(newId);
    RestIs(r, d, UeEnd(d, 24));
    CopyBits(r, w);
    bytes, buffer := Finish(w);
  }

  /** patch_pps, with the SPS id map of the patcher. */
  method PatchPps(ids: array<nat>, r: Reader, w: Writer, newId: nat, ghost d: seq<bool>)
    returns (bytes: nat, buffer: seq<Byte>, oldId: nat)
    requires Reads(r, d, 0) && PpsFormed(d) && w.Valid() && w.Written() == [] && newId < MAX_PPS
    requires ids.Length == MAX_SPS && forall i | 0 <= i < MAX_SPS :: ids[i] < MAX_SPS
    modifies r, w
    ensures w.Valid()
    ensures var p := UeEnd(d, 0);
            w.Written() == PpsCode(newId, ids[UeValue(d, p)], d[UeEnd(d, p)..])
    ensures bytes <= |buffer| && buffer[..bytes] == Pack(w.Written()) && oldId == UeValue(d, 0)
  {
    hide BitsOf, UeValue, UeCode, Strip, Pack, UeAt, UeLength, Pow2, Holds, Aligned;
    oldId := ReadUe(r, d, 0);
    ghost var p := UeEnd(d, 0);
    var spsId := ReadUe(r, d, p);
    spsId := ids[spsId];
    w.PutGolomb(newId);
    w.PutGolomb(spsId);
    RestIs(r, d, UeEnd(d, p));
    CopyBits(r, w);
    assert [] + UeCode(newId) == UeCode(newId);
    bytes, buffer := Finish(w);
  }

  /** patch_slice_header, with the PPS id map of the patcher. */
  method PatchSliceHeader(ids: array<nat>, r: Reader, w: Writer, ghost d: seq<bool>)
    requires Reads(r, d, 0) && SliceFormed(d) && w.Valid() && w.Written() == []
    requires ids.Length == MAX_PPS && forall i | 0 <= i < MAX_PPS :: ids[i] < MAX_PPS
    modifies r, w
    ensures w.Valid()
    ensures var p := UeEnd(d, 0);
            var q := UeEnd(d, p);
            w.Written() == UeCode(UeValue(d, 0)) + UeCode(UeValue(d, p)) + UeCode(ids[UeValue(d, q)])
                           + Kept(d[UeEnd(d, q)..])
  {
    hide BitsOf, UeCode, Strip, Pack, UeAt, UeLength, Pow2, Holds, Aligned, UeValue;
    ghost var p := UeEnd(d, 0);
    ghost var q := UeEnd(d, p);
    SmallUe(d, 0);
    SmallUe(d, p);
    var firstMbInSlice := ReadUe(r, d, 0);
    var sliceType := ReadUe(r, d, p);
    var ppsId := ReadUe(r, d, q);
    ppsId := ids[ppsId];
    w.PutGolomb(firstMbInSlice);
    w.PutGolomb(sliceType);
    w.PutGolomb(ppsId);
    RestIs(r, d, UeEnd(d, q));
    CopyBits(r, w);
    assert [] + UeCode(firstMbInSlice) == UeCode(firstMbInSlice);
  }

  // ---------------------------------------------------------------- the caches

  lemma {:induction false} FirstIs(cache: seq<seq<Byte>>, mem: seq<Byte>, i: nat)
    requires i < |cache| && cache[i] == mem && mem !in cache[..i]
    ensures First(cache, mem) == i
  {
    if i > 0 {
      assert cache[0] == cache[..i][0];
      assert cache[1..][..i - 1] == cache[..i][1..];
      FirstIs(cache[1..], mem, i - 1);
    }
  }

  /** find_mem_cache: the slot of a content, entering it into the first free one when it is
      new; -1 when there is none. */
  method FindMemCache(cache: array<seq<Byte>>, mem: seq<Byte>) returns (r: int)
    modifies cache
    ensures match Slot(old(cache[..]), mem)
            case None => r == -1 && cache[..] == old(cache[..])
            case Some(i) => r == i && cache[..] == old(cache[..])[i := mem]
  {
    hide First;
    if |mem| == 0 { return -1; }
    ghost var before := cache[..];
    for i := 0 to cache.Length
      invariant cache[..] == before && mem !in before[..i]
    {
      if cache[i] == mem {
        FirstIs(before, mem, i);
        return i;
      }
    }
    assert before[..cache.Length] == before;
    for i := 0 to cache.Length
      invariant cache[..] == before && [] !in before[..i]
    {
      if |cache[i]| == 0 {
        FirstIs(before, [], i);
        cache[i] := mem;
        return i;
      }
    }
    return -1;
  }

  // ---------------------------------------------------------------- the patcher

  class Patcher {
    const spsCache: array<seq<Byte>>
    const ppsCache: array<seq<Byte>>
    const mapSps: array<nat>
    const mapPps: array<nat>

    ghost function St(): State
      reads spsCache, ppsCache, mapSps, mapPps
    {
      State(spsCache[..], ppsCache[..], mapSps[..], mapPps[..])
    }

    ghost predicate Valid()
      reads spsCache, ppsCache, mapSps, mapPps
    {
      && spsCache.Length == mapSps.Length == MAX_SPS && ppsCache.Length == mapPps.Length == MAX_PPS
      && Sized(St())
    }

    /** A zeroed patcher. */
    constructor ()
      ensures Valid() && St() == Initial()
      ensures fresh(spsCache) && fresh(ppsCache) && fresh(mapSps) && fresh(mapPps)
    {
      spsCache := new seq<Byte>[MAX_SPS](_ => []);
      ppsCache := new seq<Byte>[MAX_PPS](_ => []);
      mapSps := new nat[MAX_SPS](_ => 0);
      mapPps := new nat[MAX_PPS](_ => 0);
    }

    /** transcode_nalu: refines one step of the transcoder. `slack` is the memory behind the
        unit, into which the reader loads ahead. */
    method TranscodeNalu(src: seq<Byte>, slack: seq<Byte>) returns (dst: seq<Byte>)
      requires Valid() && Formed(src) && |slack| >= 4
      modifies spsCache, ppsCache, mapSps, mapPps
      ensures Valid() && (St(), dst) == Step(old(St()), src)
    {
      hide Parse, Pack, Slot, BitsOf, Kept, UeAt, UeValue, UeLength, SpsFormed, PpsFormed, SliceFormed;
      var payloadType := src[0] % 32;
      if payloadType == 7 {
        dst := TranscodeSps(src, slack);
      } else if payloadType == 8 {
        dst := TranscodePps(src, slack);
      } else if payloadType == 1 || payloadType == 2 || payloadType == 5 {
        dst := TranscodeSlice(src, slack);
      } else {
        dst := src;
        OtherStep(St(), src);
      }
    }

    method TranscodeSps(src: seq<Byte>, slack: seq<Byte>) returns (dst: seq<Byte>)
      requires Valid() && Formed(src) && |slack| >= 4 && PayloadType(src[0]) == 7
      modifies spsCache, mapSps
      ensures Valid() && (St(), dst) == Step(old(St()), src)
    {
      hide Parse, Pack, Slot, BitsOf, UeEnd, UeValue, SpsFormed, SpsCode, Formed, Step;
      SpsStepIs(St(), src);
      var key, oldId := RewriteSps(src, slack, 0);
      var id := FindMemCache(spsCache, key);
      if id == -1 { return []; }
      mapSps[oldId] := id;
      var out;
      out, oldId := RewriteSps(src, slack, id);
      dst := [src[0]] + out;
    }

    method TranscodePps(src: seq<Byte>, slack: seq<Byte>) returns (dst: seq<Byte>)
      requires Valid() && Formed(src) && |slack| >= 4 && PayloadType(src[0]) == 8
      modifies ppsCache, mapPps
      ensures Valid() && (St(), dst) == Step(old(St()), src)
    {
      hide Parse, Pack, Slot, BitsOf, UeEnd, UeValue, PpsFormed, PpsCode, Formed, Step;
      PpsStepIs(St(), src);
      var key, oldId := RewritePps(src, slack, 0);
      var id := FindMemCache(ppsCache, key);
      if id == -1 { return []; }
      mapPps[oldId] := id;
      var out;
      out, oldId := RewritePps(src, slack, id);
      dst := [src[0]] + out;
    }

    method TranscodeSlice(src: seq<Byte>, slack: seq<Byte>) returns (dst: seq<Byte>)
      requires Valid() && Formed(src) && |slack| >= 4 && PayloadType(src[0]) in {1, 2, 5}
      ensures (St(), dst) == Step(St(), src)
    {
      hide Parse, Pack, BitsOf, UeEnd, UeValue, SliceFormed, Formed, Step, SliceCode;
      SliceStepIs(St(), src);
      assert mapPps[..] == St().mapPps;
      var out := RewriteSlice(src, slack);
      dst := [src[0]] + out;
    }

    /** One pass over an SPS. The alignment that transcode_nalu adds to the last pass
        changes nothing. */
    method RewriteSps(src: seq<Byte>, slack: seq<Byte>, id: nat) returns (out: seq<Byte>, oldId: nat)
      requires src != [] && SpsFormed(BitsOf(src[1..])) && |slack| >= 4 && id < MAX_SPS
      ensures var d := BitsOf(src[1..]);
              out == Pack(SpsCode(d[..24], id, d[UeEnd(d, 24)..])) && oldId == UeValue(d, 24)
    {
      hide Pack, BitsOf, UeLength, UeValue, SpsFormed, Reads, Kept, UeCode;
      var bs := NewReader(src, slack);
      var bd := new Writer();
      var bytes, buffer;
      bytes, buffer, oldId := ChangeSpsId(bs, bd, id, BitsOf(src[1..]));
      PaddedTwice(bd.Written());
      bytes, buffer := Finish(bd);
      out := buffer[..bytes];
    }

    /** One pass over a PPS. */
    method RewritePps(src: seq<Byte>, slack: seq<Byte>, id: nat) returns (out: seq<Byte>, oldId: nat)
      requires Valid() && src != [] && PpsFormed(BitsOf(src[1..])) && |slack| >= 4 && id < MAX_PPS
      ensures var d := BitsOf(src[1..]);
              var p := UeEnd(d, 0);
              out == Pack(PpsCode(id, mapSps[UeValue(d, p)], d[UeEnd(d, p)..])) && oldId == UeValue(d, 0)
    {
      hide Pack, BitsOf, UeLength, UeValue, Reads, Kept, UeCode, PpsFormed;
      var bs := NewReader(src, slack);
      var bd := new Writer();
      var bytes, buffer;
      bytes, buffer, oldId := PatchPps(mapSps, bs, bd, id, BitsOf(src[1..]));
      PaddedTwice(bd.Written());
      bytes, buffer := Finish(bd);
      out := buffer[..bytes];
    }

    method RewriteSlice(src: seq<Byte>, slack: seq<Byte>) returns (out: seq<Byte>)
      requires Valid() && src != [] && SliceFormed(BitsOf(src[1..])) && |slack| >= 4
      ensures var d := BitsOf(src[1..]);
              var p := UeEnd(d, 0);
              var q := UeEnd(d, p);
              out == Pack(SliceCode(UeValue(d, 0), UeValue(d, p), mapPps[UeValue(d, q)], d[UeEnd(d, q)..]))
    {
      hide Pack, BitsOf, UeLength, UeValue, Reads, Kept, UeCode, SliceFormed;
      var bs := NewReader(src, slack);
      var bd := new Writer();
      PatchSliceHeader(mapPps, bs, bd, BitsOf(src[1..]));
      var bytes, buffer := Finish(bd);
      out := buffer[..bytes];
    }
  }

  lemma PaddedTwice(b: seq<bool>)
    requires |b| % 8 == 0
    ensures Padded(b) == b
  {}

  method NewReader(src: seq<Byte>, slack: seq<Byte>) returns (r: Reader)
    requires src != [] && |slack| >= 4
    ensures fresh(r) && Reads(r, BitsOf(src[1..]), 0)
  {
    hide BitsOf, Holds;
    BitsOfJoin(src[1..], slack);
    r := new Reader(src[1..] + slack, |src| - 1);
  }

  lemma OtherStep(st: State, nal: seq<Byte>)
    requires Sized(st) && Formed(nal) && PayloadType(nal[0]) !in {7, 8, 1, 2, 5}
    ensures Step(st, nal) == (st, nal)
  {}

  lemma SpsStepIs(st: State, nal: seq<Byte>)
    requires Sized(st) && Formed(nal) && PayloadType(nal[0]) == 7
    ensures var d := BitsOf(nal[1..]);
            nal != [] && SpsFormed(d) && UeValue(d, 24) < MAX_SPS
            && Step(st, nal) == StepSps(st, nal[0], d[..24], UeValue(d, 24), d[UeEnd(d, 24)..])
  {
    hide StepSps, UeValue, UeAt, UeLength;
  }

  lemma PpsStepIs(st: State, nal: seq<Byte>)
    requires Sized(st) && Formed(nal) && PayloadType(nal[0]) == 8
    ensures var d := BitsOf(nal[1..]);
            nal != [] && PpsFormed(d) && UeValue(d, 0) < MAX_PPS
            && var p := UeEnd(d, 0);
               UeValue(d, p) < MAX_SPS &&
               Step(st, nal) == StepPps(st, nal[0], UeValue(d, 0), UeValue(d, p), d[UeEnd(d, p)..])
  {
    hide StepPps, UeValue, UeAt, UeLength;
  }

  lemma SliceStepIs(st: State, nal: seq<Byte>)
    requires Sized(st) && Formed(nal) && PayloadType(nal[0]) in {1, 2, 5}
    ensures var d := BitsOf(nal[1..]);
            nal != [] && SliceFormed(d)
            && var p := UeEnd(d, 0);
               var q := UeEnd(d, p);
               UeValue(d, q) < MAX_PPS
               && Step(st, nal) == (st, [nal[0]] + Pack(SliceCode(UeValue(d, 0), UeValue(d, p),
                                                                  st.mapPps[UeValue(d, q)], d[UeEnd(d, q)..])))
  {
    hide UeValue, UeAt, UeLength, SliceCode;
  }
}
