/** Byte streams of NAL units with start codes: the splitter of stream/minimp4.hpp. */
module AnnexB {
  import opened Seqs
  import opened Bits
  import opened NalEscape

  /** The three bytes up to position q, none before `from`, are 00 00 01. */
  predicate CodeEnds(h: seq<Byte>, from: nat, q: nat) {
    from + 2 <= q < |h| && h[q - 2] == 0 && h[q - 1] == 0 && h[q] == 1
  }

  ghost predicate NoCodeBefore(h: seq<Byte>, from: nat, end: nat) {
    forall q: nat | q < end :: !CodeEnds(h, from, q)
  }

  /** memchr for a zero byte: its position, or the end of the data. */
  method FindZero(h: seq<Byte>, from: nat) returns (p: nat)
    requires from <= |h|
    ensures from <= p <= |h| && (p < |h| ==> h[p] == 0)
    ensures forall k | from <= k < p :: h[k] != 0
  {
    p := from;
    while p < |h| && h[p] != 0
      invariant from <= p <= |h| && forall k | from <= k < p :: h[k] != 0
    {
      p := p + 1;
    }
  }

  /** Data that a start code cannot complete with the byte `beyond` behind it. */
  predicate Bounded(h: seq<Byte>, from: nat, beyond: Byte) {
    beyond != 1 || !(from + 2 <= |h| && h[|h| - 2] == 0 && h[|h| - 1] == 0)
  }

  /** find_start_code, from position `from` of the data: the position behind the first
      start code and the length of the code, or the end of the data and 0. The source also
      looks at one byte behind data that ends in two zeros; `beyond` is that byte. */
  method FindStartCode(h: seq<Byte>, from: nat, beyond: Byte) returns (start: nat, zcount: nat)
    requires from <= |h| && Bounded(h, from, beyond)
    ensures zcount == 0 ==> start == |h| && NoCodeBefore(h, from, |h|)
    ensures zcount > 0 ==> from + 3 <= from + zcount <= start <= |h| && CodeEnds(h, from, start - 1)
    ensures zcount > 0 ==> NoCodeBefore(h, from, start - 1)
    ensures zcount > 0 ==> forall k | start - zcount <= k < start - 1 :: h[k] == 0
    ensures zcount > 0 ==> start - zcount == from || h[start - zcount - 1] != 0
  {
    var p := from;
    while true
      invariant from <= p <= |h| && NoCodeBefore(h, from, p + 1)
      invariant p == from || p == |h| || h[p] != 0
      decreases |h| - p
    {
      var zeroCnt := 1;
      ghost var p0 := p;
      p := FindZero(h, p);
      NonZeroRun(h, from, p0, p);
      while p + zeroCnt < |h| && h[p + zeroCnt] == 0
        invariant 1 <= zeroCnt && (p < |h| ==> p + zeroCnt <= |h|)
        invariant p == |h| ==> zeroCnt == 1
        invariant p < |h| ==> forall k | p <= k < p + zeroCnt :: h[k] == 0
      {
        zeroCnt := zeroCnt + 1;
      }
      var next := if p + zeroCnt < |h| then h[p + zeroCnt] else beyond;
      if zeroCnt >= 2 && next == 1 {
        return p + zeroCnt + 1, zeroCnt + 1;
      }
      p := p + zeroCnt;
      if p >= |h| { break; }
    }
    return |h|, 0;
  }

  lemma NonZeroRun(h: seq<Byte>, from: nat, p0: nat, p: nat)
    requires from <= p0 <= p <= |h| && NoCodeBefore(h, from, p0 + 1)
    requires forall k | p0 <= k < p :: h[k] != 0
    requires p < |h| ==> h[p] == 0
    ensures NoCodeBefore(h, from, p + 1)
  {
    forall q: nat | q < p + 1 ensures !CodeEnds(h, from, q) {
      if q > p0 && q < |h| {
        assert h[q - 1] != 0;
      }
    }
  }

  /** The position of the first start code's last byte, or the end of the data. */
  function NextCode(h: seq<Byte>, from: nat, q: nat := from): (r: nat)
    requires q <= |h|
    ensures q <= r <= |h| && (r < |h| ==> CodeEnds(h, from, r))
    ensures forall k: nat | q <= k < r :: !CodeEnds(h, from, k)
    decreases |h| - q
  {
    if q == |h| || CodeEnds(h, from, q) then q else NextCode(h, from, q + 1)
  }

  lemma NextCodeIs(h: seq<Byte>, from: nat, end: nat)
    requires from <= end <= |h| && NoCodeBefore(h, from, end)
    requires end < |h| ==> CodeEnds(h, from, end)
    ensures NextCode(h, from) == end
  {}

  /** s without the zeros at its end. */
  function Trim(s: seq<Byte>): seq<Byte> {
    if s != [] && s[|s| - 1] == 0 then Trim(s[..|s| - 1]) else s
  }

  /** The bytes from `start` to the next start code or the end, without trailing zeros. */
  function UnitAt(h: seq<Byte>, start: nat): seq<Byte>
    requires start <= |h|
  {
    var b := NextCode(h, start);
    Trim(h[start..if b < |h| then b - 2 else b])
  }

  /** The NAL units of a stream, up to the first empty one: what stands between start codes. */
  function Units(h: seq<Byte>, from: nat): seq<seq<Byte>>
    requires from <= |h|
    decreases |h| - from
  {
    var a := NextCode(h, from);
    if a == |h| then []
    else
      var u := UnitAt(h, a + 1);
      if u == [] then [] else [u] + (if a + 2 <= |h| then Units(h, a + 2) else [])
  }

  lemma {:induction false} TrimSlice(h: seq<Byte>, start: nat, stop: nat, end: nat)
    requires start <= stop <= end <= |h| && forall k | stop <= k < end :: h[k] == 0
    requires stop == start || h[stop - 1] != 0
    ensures Trim(h[start..end]) == h[start..stop]
    decreases end
  {
    if stop < end {
      TrimSlice(h, start, stop, end - 1);
      assert h[start..end][..end - 1 - start] == h[start..end - 1];
    }
  }

  /** find_nal_unit: the next unit at or behind `from`, without its start code. */
  method FindNalUnit(h: seq<Byte>, from: nat, beyond: Byte) returns (start: nat, size: nat)
    requires from <= |h| && Bounded(h, from, beyond)
    ensures start == if NextCode(h, from) < |h| then NextCode(h, from) + 1 else |h|
    ensures start + size <= |h| && h[start..start + size] == UnitAt(h, start)
  {
    hide Trim;
    var zcount;
    start, zcount := FindStartCode(h, from, beyond);
    NextCodeIs(h, from, if zcount > 0 then start - 1 else |h|);
    var stop;
    stop, zcount := FindStartCode(h, start, beyond);
    NextCodeIs(h, start, if zcount > 0 then stop - 1 else |h|);
    ghost var end := if zcount > 0 then stop - 3 else |h|;
    assert UnitAt(h, start) == Trim(h[start..end]);
    while stop > start && h[stop - 1] == 0
      invariant start <= stop <= |h|
      invariant zcount > 0 ==> stop == end + 3
      invariant zcount == 0 ==> stop <= end && forall k | stop <= k < end :: h[k] == 0
    {
      stop := stop - 1;
    }
    TrimSlice(h, start, stop - zcount, end);
    return start, stop - start - zcount;
  }

  /** The loop of mp4_h26x_write_nal over the units of a buffer. */
  method SplitNals(h: seq<Byte>, beyond: Byte) returns (units: seq<seq<Byte>>)
    requires Bounded(h, 0, beyond)
    ensures units == Units(h, 0)
  {
    hide NextCode, UnitAt, Units;
    units := [];
    var pos := 0;
    NothingBehind(Units(h, 0));
    while true
      invariant pos <= |h| && Units(h, 0) == units + Units(h, pos)
      decreases |h| - pos
    {
      var start, size := FindNalUnit(h, pos, beyond);
      UnitsFrom(h, pos, start, units);
      if size == 0 { break; }
      units := units + [h[start..start + size]];
      pos := start + 1;
    }
  }

  /** What one turn of the loop finds, behind the units found so far. */
  lemma UnitsFrom(h: seq<Byte>, pos: nat, start: nat, units: seq<seq<Byte>>)
    requires pos <= |h| && start == if NextCode(h, pos) < |h| then NextCode(h, pos) + 1 else |h|
    ensures var u := UnitAt(h, start);
            if u == [] then units + Units(h, pos) == units
            else start + 1 <= |h| && units + Units(h, pos) == units + [u] + Units(h, start + 1)
  {
    hide NextCode, Units;
    UnitsOne(h, pos);
    NothingBehind(units);
    if start < |h| {
      Assoc(units, [UnitAt(h, start)], Units(h, start + 1));
    }
  }

  lemma UnitsOne(h: seq<Byte>, pos: nat)
    requires pos <= |h|
    ensures var a := NextCode(h, pos);
            Units(h, pos) == if a == |h| then []
                             else var u := UnitAt(h, a + 1);
                                  if u == [] then [] else [u] + (if a + 2 <= |h| then Units(h, a + 2) else [])
  {
    hide NextCode, UnitAt;
  }

  /** A list of units as nal_put_esc writes them one behind the other. */
  function Stream(ns: seq<seq<Byte>>): seq<Byte> {
    if ns == [] then [] else START_CODE + Escape(ns[0], 0) + Stream(ns[1..])
  }

  function Escaped(ns: seq<seq<Byte>>): (es: seq<seq<Byte>>)
    ensures |es| == |ns|
  {
    if ns == [] then [] else [Escape(ns[0], 0)] + Escaped(ns[1..])
  }

  /** Units that a byte stream can carry: not empty, not ending in zero. */
  predicate Streamable(ns: seq<seq<Byte>>) {
    forall n | n in ns :: n != [] && n[|n| - 1] != 0
  }

  /** No start code ends inside an escaped payload or in three zeros behind it. */
  lemma QuietPayload(h: seq<Byte>, start: nat, e: seq<Byte>)
    requires start + |e| <= |h| && Clean(e, 0) && forall k | 0 <= k < |e| :: h[start + k] == e[k]
    requires forall k | start + |e| <= k < start + |e| + 3 && k < |h| :: h[k] == 0
    ensures NoCodeBefore(h, start, start + |e| + 3)
  {
    hide Clean;
    forall q: nat | q < start + |e| + 3 ensures !CodeEnds(h, start, q) {
      if start + 2 <= q < start + |e| && h[q - 2] == 0 && h[q - 1] == 0 {
        var k := q - 2 - start;
        assert h[start + k] == e[k] && h[start + (k + 1)] == e[k + 1] && h[start + (k + 2)] == e[k + 2];
        CleanAt(e, 0, k);
      }
    }
  }

  /** Behind a start code, an escaped payload reaches to the next start code. */
  lemma EscapedUnit(h: seq<Byte>, start: nat, s: seq<Byte>, rest: seq<seq<Byte>>)
    requires start <= |h| && h[start..] == Escape(s, 0) + Stream(rest)
    requires s != [] && s[|s| - 1] != 0
    ensures |Escape(s, 0)| > 0 && UnitAt(h, start) == Escape(s, 0)
    ensures NoCodeBefore(h, start, start + |Escape(s, 0)| + 3)
  {
    hide Escape, NextCode, Trim, Stream, UnitAt, Clean;
    var e, r := Escape(s, 0), Stream(rest);
    var end := start + |e|;
    EscapeClean(s, 0);
    LastByte(s, 0);
    Parts(h, start, e, r);
    StreamShape(rest);
    QuietPayload(h, start, e);
    NextUnit(h, start, if rest == [] then |h| else end + 3, end);
  }

  lemma Parts(h: seq<Byte>, start: nat, e: seq<Byte>, r: seq<Byte>)
    requires start <= |h| && h[start..] == e + r
    ensures |h| == start + |e| + |r| && h[start..start + |e|] == e && h[start + |e|..] == r
    ensures forall k | 0 <= k < |e| :: h[start + k] == e[k]
    ensures forall k | 0 <= k < |r| :: h[start + |e| + k] == r[k]
  {
    assert h[start..start + |e|] == h[start..][..|e|] == e;
    assert h[start + |e|..] == h[start..][|e|..] == r;
  }

  lemma StreamShape(ns: seq<seq<Byte>>)
    ensures ns == [] ==> Stream(ns) == []
    ensures ns != [] ==> var r := Stream(ns);
                         |r| >= 4 && r[0] == 0 && r[1] == 0 && r[2] == 0 && r[3] == 1
  {
    hide Escape;
  }

  /** The unit between `start` and a start code that ends at b, or the end of the data. */
  lemma NextUnit(h: seq<Byte>, start: nat, b: nat, end: nat)
    requires start < end <= b <= |h| && NoCodeBefore(h, start, b) && h[end - 1] != 0
    requires b < |h| ==> CodeEnds(h, start, b) && end <= b - 2
    requires forall k | end <= k < (if b < |h| then b - 2 else b) :: h[k] == 0
    ensures UnitAt(h, start) == h[start..end]
  {
    hide NextCode, Trim;
    NextCodeIs(h, start, b);
    TrimSlice(h, start, end, if b < |h| then b - 2 else b);
  }

  /** The units read from a written stream are the escaped payloads, in order. */
  lemma {:induction false} UnitsOfStream(h: seq<Byte>, from: nat, off: nat, ns: seq<seq<Byte>>)
    requires from <= off <= |h| && h[off..] == Stream(ns) && Streamable(ns)
    requires NoCodeBefore(h, from, off + 3)
    ensures Units(h, from) == Escaped(ns)
    decreases ns
  {
    hide Escape, NoCodeBefore, UnitAt, Units, NextCode;
    if ns == [] {
      NoUnits(h, from);
    } else {
      var e, rest := Escape(ns[0], 0), Stream(ns[1..]);
      var start, next := off + 4, off + 4 + |e|;
      StreamParts(h, off, e, rest);
      EscapedUnit(h, start, ns[0], ns[1..]);
      UnitsStep(h, from, off + 3, next + 3);
      UnitsOfStream(h, start + 1, next, ns[1..]);
    }
  }

  lemma NoUnits(h: seq<Byte>, from: nat)
    requires from <= |h| && NoCodeBefore(h, from, |h| + 3)
    ensures Units(h, from) == []
  {}

  lemma UnitsStep(h: seq<Byte>, from: nat, a: nat, b: nat)
    requires a + 2 <= |h| && NoCodeBefore(h, from, a) && CodeEnds(h, from, a)
    requires UnitAt(h, a + 1) != [] && NoCodeBefore(h, a + 1, b)
    ensures Units(h, from) == [UnitAt(h, a + 1)] + Units(h, a + 2) && NoCodeBefore(h, a + 2, b)
  {
    hide UnitAt;
    NextCodeIs(h, from, a);
    QuietLater(h, a + 1, a + 2, b);
  }

  lemma QuietLater(h: seq<Byte>, from: nat, later: nat, b: nat)
    requires from <= later && NoCodeBefore(h, from, b)
    ensures NoCodeBefore(h, later, b)
  {
    forall q: nat | q < b ensures !CodeEnds(h, later, q) {
      assert !CodeEnds(h, from, q);
    }
  }

  lemma StreamParts(h: seq<Byte>, off: nat, e: seq<Byte>, rest: seq<Byte>)
    requires off <= |h| && h[off..] == START_CODE + e + rest
    ensures off + 4 + |e| <= |h| && h[off + 4..] == e + rest && h[off + 4 + |e|..] == rest
    ensures h[off] == 0 && h[off + 1] == 0 && h[off + 2] == 0 && h[off + 3] == 1
  {
    var t := h[off..];
    assert t[0] == 0 && t[1] == 0 && t[2] == 0 && t[3] == 1;
    assert h[off + 4..] == t[4..] == e + rest;
    assert h[off + 4 + |e|..] == t[4 + |e|..] == rest;
  }

  // ---------------------------------------------------------------- start codes of any length

  /** A unit without a start code in it that does not end in zero. */
  predicate Quiet(e: seq<Byte>) {
    && e != [] && e[|e| - 1] != 0
    && forall k | 0 <= k < |e| - 2 :: !(e[k] == 0 && e[k + 1] == 0 && e[k + 2] == 1)
  }

  /** Units, each behind a start code of zs[i] zeros and a one, and zeros at the end. */
  function Coded(es: seq<seq<Byte>>, zs: seq<nat>, trailing: nat): seq<Byte>
    requires |zs| == |es|
  {
    if es == [] then ZeroBytes(trailing) else ZeroBytes(zs[0]) + [1] + es[0] + Coded(es[1..], zs[1..], trailing)
  }

  lemma CodedParts(h: seq<Byte>, off: nat, es: seq<seq<Byte>>, zs: seq<nat>, trailing: nat)
    requires |zs| == |es| > 0 && off <= |h| && h[off..] == Coded(es, zs, trailing)
    ensures var start := off + zs[0] + 1;
            var next := start + |es[0]|;
            && next <= |h| && (forall k | off <= k < start - 1 :: h[k] == 0) && h[start - 1] == 1
            && h[start..next] == es[0] && h[next..] == Coded(es[1..], zs[1..], trailing)
  {
    var z, e, rest := ZeroBytes(zs[0]), es[0], Coded(es[1..], zs[1..], trailing);
    var start := off + zs[0] + 1;
    var t := h[off..];
    assert t == z + [1] + e + rest;
    assert h[start..start + |e|] == t[zs[0] + 1..zs[0] + 1 + |e|] == e;
    assert h[start + |e|..] == t[zs[0] + 1 + |e|..] == rest;
    assert forall k | 0 <= k < zs[0] :: t[k] == z[k] && h[off + k] == t[k];
    assert t[zs[0]] == 1;
    forall k | off <= k < start - 1 ensures h[k] == 0 {
      assert h[off + (k - off)] == 0;
    }
  }

  /** Where the zeros end that stand at off, and whether a start code ends there. */
  lemma CodedShape(h: seq<Byte>, off: nat, es: seq<seq<Byte>>, zs: seq<nat>, trailing: nat) returns (b: nat)
    requires |zs| == |es| && off <= |h| && h[off..] == Coded(es, zs, trailing) && forall z | z in zs :: z >= 2
    ensures off <= b <= |h| && (forall k | off <= k < b :: h[k] == 0)
    ensures if es == [] then b == |h| else b == off + zs[0] && b < |h| && h[b] == 1
  {
    if es == [] {
      b := |h|;
      forall k | off <= k < b ensures h[k] == 0 {
        assert h[k] == h[off..][k - off];
      }
    } else {
      CodedParts(h, off, es, zs, trailing);
      b := off + zs[0];
    }
  }

  /** Behind a start code a quiet unit reaches to the next one, whose zeros are left out. */
  lemma QuietUnit(h: seq<Byte>, start: nat, next: nat, b: nat)
    requires start <= next <= b <= |h| && Quiet(h[start..next]) && (forall k | next <= k < b :: h[k] == 0)
    requires b < |h| ==> h[b] == 1 && next + 2 <= b
    ensures UnitAt(h, start) == h[start..next] && NoCodeBefore(h, start, b)
  {
    hide NextCode, Trim;
    var e := h[start..next];
    forall q: nat | q < b ensures !CodeEnds(h, start, q) {
      if start + 2 <= q < next {
        var k := q - 2 - start;
        assert e[k] == h[q - 2] && e[k + 1] == h[q - 1] && e[k + 2] == h[q];
      }
    }
    assert h[next - 1] == e[|e| - 1];
    NextUnit(h, start, b, next);
  }

  /** A stream is split at start codes of two or more zeros and a one, and what it is split into are
      the units without the zeros behind them. */
  lemma {:induction false} UnitsOfCodes(h: seq<Byte>, from: nat, off: nat, es: seq<seq<Byte>>, zs: seq<nat>,
                                        trailing: nat)
    requires |zs| == |es| && from <= off <= |h| && h[off..] == Coded(es, zs, trailing)
    requires (forall z | z in zs :: z >= 2) && (forall e | e in es :: Quiet(e))
    requires NoCodeBefore(h, from, off)
    ensures Units(h, from) == es
    decreases |es|
  {
    hide UnitAt, Units, NextCode, Coded, Quiet;
    var a := CodedShape(h, off, es, zs, trailing);
    assert NoCodeBefore(h, from, a);
    if es == [] {
      NoUnits(h, from);
    } else {
      CodedParts(h, off, es, zs, trailing);
      var start, next := a + 1, a + 1 + |es[0]|;
      assert Quiet(es[0]) by { assert es[0] in es; }
      assert zs[0] in zs && forall z | z in zs[1..] :: z in zs;
      assert es == [es[0]] + es[1..] && (|es| > 1 ==> zs[1] in zs);
      assert es[0] != [] by { QuietThere(es[0]); }
      var b := CodedShape(h, next, es[1..], zs[1..], trailing);
      QuietUnit(h, start, next, b);
      UnitsStep(h, from, a, b);
      QuietBefore(h, start + 1, next, b);
      UnitsOfCodes(h, start + 1, next, es[1..], zs[1..], trailing);
    }
  }

  lemma QuietThere(e: seq<Byte>)
    requires Quiet(e)
    ensures e != []
  {}

  lemma QuietBefore(h: seq<Byte>, from: nat, a: nat, b: nat)
    requires a <= b && NoCodeBefore(h, from, b)
    ensures NoCodeBefore(h, from, a)
  {}

  lemma StreamNothing()
    ensures Stream([]) == []
  {}

  lemma {:induction false} StreamSnoc(ns: seq<seq<Byte>>, n: seq<Byte>)
    ensures Stream(ns + [n]) == Stream(ns) + START_CODE + Escape(n, 0)
  {
    hide Escape;
    if ns == [] {
      assert ns + [n] == [n] && [n][1..] == [];
      assert Stream([n]) == START_CODE + Escape(n, 0) + Stream([]);
    } else {
      StreamSnoc(ns[1..], n);
      assert (ns + [n])[1..] == ns[1..] + [n];
    }
  }

  lemma StreamHead(h: seq<Byte>, ns: seq<seq<Byte>>)
    requires h == Stream(ns)
    ensures NoCodeBefore(h, 0, 3)
  {
    hide Escape;
    if ns != [] {
      assert h[2] == 0;
    }
  }

  lemma {:induction false} EscapedAt(ns: seq<seq<Byte>>, i: nat)
    requires i < |ns|
    ensures Escaped(ns)[i] == Escape(ns[i], 0)
  {
    hide Escape;
    if i > 0 {
      EscapedAt(ns[1..], i - 1);
    }
  }

  /** Writing payloads into one byte stream, splitting it as the writer does and removing
      the escapes gives the payloads back. */
  method StreamRoundTrip(ns: seq<seq<Byte>>, beyond: Byte) returns (out: seq<seq<Byte>>)
    requires Streamable(ns)
    ensures out == ns
  {
    hide Escape, Unescape, Units, Stream, Escaped;
    var h := WriteStream(ns);
    UnitsOfStream(h, 0, 0, ns) by { StreamHead(h, ns); }
    var units := SplitNals(h, beyond);
    out := [];
    for i := 0 to |units|
      invariant out == ns[..i]
    {
      var d := new Byte[|units[i]|];
      EscapedAt(ns, i);
      UnescapeEscape(ns[i], 0);
      var n := RemoveEscapes(d, units[i]);
      out := out + [d[..n]];
    }
  }

  /** The outputs of nal_put_esc, one behind the other. */
  method WriteStream(ns: seq<seq<Byte>>) returns (h: seq<Byte>)
    requires Streamable(ns)
    ensures h == Stream(ns) && h[0..] == h && (h == [] || h[|h| - 1] != 0)
  {
    hide Escape, Stream;
    h := [];
    StreamNothing();
    for i := 0 to |ns|
      invariant h == Stream(ns[..i]) && (h == [] || h[|h| - 1] != 0)
    {
      var d := new Byte[4 + |Escape(ns[i], 0)|];
      var n := PutEsc(d, ns[i]);
      StreamSnoc(ns[..i], ns[i]);
      assert ns[..i] + [ns[i]] == ns[..i + 1];
      LastByte(ns[i], 0);
      h := h + d[..n];
    }
    assert ns[..|ns|] == ns && h[0..] == h;
  }
}
