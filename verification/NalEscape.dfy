/** Emulation prevention for H.264 NAL units (section 7.4.1.1 of ITU-T H.264), as
    stream/minimp4.hpp writes and removes it. */
module NalEscape {
  import opened Wrappers
  import opened Bits

  /** The length of the zero run that ends in b, after a run of z. */
  function Run(z: nat, b: Byte): nat { if b == 0 then z + 1 else 0 }

  /** The escaped form of a payload that follows z zero bytes. */
  function Escape(s: seq<Byte>, z: nat): (e: seq<Byte>)
    requires z <= 2
    ensures |e| >= |s|
  {
    if s == [] then []
    else if z == 2 && s[0] <= 3 then [3, s[0]] + Escape(s[1..], Run(0, s[0]))
    else [s[0]] + Escape(s[1..], Run(z, s[0]))
  }

  /** What the reader makes of an escaped payload that follows z zero bytes; it rejects
      three zeros in a row and unescaped start codes. A 03 that ends the unit or is
      followed by a byte above 3 is kept as data. */
  function Unescape(e: seq<Byte>, z: nat): Option<seq<Byte>>
    requires z <= 2
  {
    if e == [] then Some([])
    else if z == 2 && e[0] < 3 then None
    else if z == 2 && e[0] == 3 && |e| > 1 && e[1] <= 3 then Prepend(e[1], Unescape(e[2..], Run(0, e[1])))
    else Prepend(e[0], Unescape(e[1..], Run(z, e[0])))
  }

  function Prepend(b: Byte, r: Option<seq<Byte>>): Option<seq<Byte>> {
    match r
    case None => None
    case Some(s) => Some([b] + s)
  }

  /** Removing the escapes undoes inserting them, for every byte string. */
  lemma {:induction false} UnescapeEscape(s: seq<Byte>, z: nat)
    requires z <= 2
    ensures Unescape(Escape(s, z), z) == Some(s)
  {
    if s != [] {
      var e := Escape(s, z);
      if z == 2 && s[0] <= 3 {
        UnescapeEscape(s[1..], Run(0, s[0]));
        assert e[2..] == Escape(s[1..], Run(0, s[0]));
      } else {
        UnescapeEscape(s[1..], Run(z, s[0]));
        assert e[1..] == Escape(s[1..], Run(z, s[0]));
      }
      assert s == [s[0]] + s[1..];
    }
  }

  /** No byte below 3 follows two zeros, z zeros already standing in front. */
  predicate Clean(e: seq<Byte>, z: nat)
    requires z <= 2
  {
    e == [] || (!(z == 2 && e[0] < 3) && Clean(e[1..], Run(z, e[0])))
  }

  lemma {:induction false} EscapeClean(s: seq<Byte>, z: nat)
    requires z <= 2
    ensures Clean(Escape(s, z), z)
  {
    if s != [] {
      var e := Escape(s, z);
      if z == 2 && s[0] <= 3 {
        EscapeClean(s[1..], Run(0, s[0]));
        assert e[1..][1..] == Escape(s[1..], Run(0, s[0]));
      } else {
        EscapeClean(s[1..], Run(z, s[0]));
        assert e[1..] == Escape(s[1..], Run(z, s[0]));
      }
    }
  }

  lemma {:induction false} CleanAt(e: seq<Byte>, z: nat, i: nat)
    requires z <= 2 && Clean(e, z) && i + 2 < |e| && e[i] == 0 && e[i + 1] == 0
    ensures e[i + 2] >= 3
    decreases i
  {
    if i == 0 {
      assert Clean(e[1..], Run(z, e[0])) && Clean(e[1..][1..], Run(Run(z, e[0]), e[1]));
    } else {
      CleanAt(e[1..], Run(z, e[0]), i - 1);
    }
  }

  /** An escaped payload holds none of 00 00 00, 00 00 01 and 00 00 02. */
  lemma NoStartCode(s: seq<Byte>, i: nat)
    requires i + 2 < |Escape(s, 0)|
    ensures var e := Escape(s, 0);
            !(e[i] == 0 && e[i + 1] == 0 && e[i + 2] <= 2)
  {
    EscapeClean(s, 0);
    var e := Escape(s, 0);
    if e[i] == 0 && e[i + 1] == 0 {
      CleanAt(e, 0, i);
    }
  }

  /** Byte i follows two zeros and begins, or ends, a start code. */
  predicate Forbidden(e: seq<Byte>, i: nat) {
    2 <= i < |e| && e[i - 2] == 0 && e[i - 1] == 0 && e[i] <= 2
  }

  /** Byte i is a 03 behind two zeros and in front of a byte up to 3. */
  predicate Prevents(e: seq<Byte>, i: nat) {
    2 <= i && i + 1 < |e| && e[i - 2] == 0 && e[i - 1] == 0 && e[i] == 3 && e[i + 1] <= 3
  }

  /** e from byte i on, without these. */
  function Stripped(e: seq<Byte>, i: nat): seq<Byte>
    decreases |e| - i
  {
    if i >= |e| then [] else (if Prevents(e, i) then [] else [e[i]]) + Stripped(e, i + 1)
  }

  function Zeros(e: seq<Byte>, i: nat): (z: nat)
    requires i <= |e|
    ensures z <= 2
  {
    if i == 0 || e[i - 1] != 0 then 0 else if i == 1 || e[i - 2] != 0 then 1 else 2
  }

  ghost predicate ForbiddenFrom(e: seq<Byte>, i: nat) {
    exists k :: i <= k < |e| && Forbidden(e, k)
  }

  lemma {:induction false} UnescapeFrom(e: seq<Byte>, i: nat)
    requires i <= |e|
    ensures Unescape(e[i..], Zeros(e, i)) == if ForbiddenFrom(e, i) then None else Some(Stripped(e, i))
    decreases |e| - i
  {
    hide Unescape, Stripped, Forbidden, ForbiddenFrom, Prevents;
    StripStep(e, i);
    if i < |e| {
      UnescapeStep(e, i);
      if Forbidden(e, i) {
      } else if Prevents(e, i) {
        UnescapeFrom(e, i + 2);
      } else {
        UnescapeFrom(e, i + 1);
      }
    } else {
      assert e[i..] == [];
      assert Unescape([], Zeros(e, i)) == Some([]) by { UnescapeNothing(Zeros(e, i)); }
    }
  }

  lemma UnescapeNothing(z: nat)
    requires z <= 2
    ensures Unescape([], z) == Some([])
  {}

  lemma UnescapeStep(e: seq<Byte>, i: nat)
    requires i < |e|
    ensures var r := Unescape(e[i..], Zeros(e, i));
            if Forbidden(e, i) then r == None
            else if Prevents(e, i) then i + 2 <= |e| && r == Prepend(e[i + 1], Unescape(e[i + 2..], Zeros(e, i + 2)))
            else r == Prepend(e[i], Unescape(e[i + 1..], Zeros(e, i + 1)))
  {
    var rest := e[i..];
    assert rest[1..] == e[i + 1..] && (|rest| > 1 ==> rest[2..] == e[i + 2..]);
  }

  lemma StripStep(e: seq<Byte>, i: nat)
    requires i <= |e|
    ensures i == |e| ==> !ForbiddenFrom(e, i) && Stripped(e, i) == []
    ensures i < |e| && Forbidden(e, i) ==> ForbiddenFrom(e, i)
    ensures i < |e| && Prevents(e, i) ==>
              i + 2 <= |e| && (ForbiddenFrom(e, i) <==> ForbiddenFrom(e, i + 2))
              && Stripped(e, i) == [e[i + 1]] + Stripped(e, i + 2)
    ensures i < |e| && !Forbidden(e, i) && !Prevents(e, i) ==>
              (ForbiddenFrom(e, i) <==> ForbiddenFrom(e, i + 1)) && Stripped(e, i) == [e[i]] + Stripped(e, i + 1)
  {
    if i < |e| && Prevents(e, i) {
      assert !Forbidden(e, i) && !Forbidden(e, i + 1) && !Prevents(e, i + 1);
    }
  }

  /** A unit is rejected if and only if 00 00 00, 00 00 01 or 00 00 02 is in it; else exactly those
      bytes 03 are removed that stand between 00 00 and a byte up to 3. One at the end of the
      unit, or in front of a larger byte, stays. */
  lemma UnescapeIs(e: seq<Byte>)
    ensures Unescape(e, 0).None? <==> exists k :: 0 <= k < |e| && Forbidden(e, k)
    ensures Unescape(e, 0).Some? ==> Unescape(e, 0).value == Stripped(e, 0)
  {
    assert e[0..] == e;
    UnescapeFrom(e, 0);
  }

  lemma {:induction false} Untouched(s: seq<Byte>, z: nat)
    requires z <= 2
    ensures Escape(s, z) == s <==> !Disturbed(s, z)
  {
    if s != [] && !(z == 2 && s[0] <= 3) {
      Untouched(s[1..], Run(z, s[0]));
      assert s == [s[0]] + s[1..];
    } else if s != [] {
      assert Escape(s, z)[1] == s[0];
      var rest := Escape(s[1..], Run(0, s[0]));
      assert |Escape(s, z)| == 2 + |rest| > |s|;
    }
  }

  /** A byte up to 3 follows two zeros, z zeros already standing in front. */
  predicate Disturbed(s: seq<Byte>, z: nat)
    requires z <= 2
  {
    s != [] && ((z == 2 && s[0] <= 3) || Disturbed(s[1..], Run(z, s[0])))
  }

  /** Byte k is one up to 3 that follows two zeros. */
  predicate Endangered(s: seq<Byte>, k: nat) {
    2 <= k < |s| && s[k - 2] == 0 && s[k - 1] == 0 && s[k] <= 3
  }

  lemma {:induction false} DisturbedAt(s: seq<Byte>, i: nat)
    requires i <= |s|
    ensures Disturbed(s[i..], Zeros(s, i)) <==> exists k :: i <= k < |s| && Endangered(s, k)
    decreases |s| - i
  {
    if i < |s| {
      assert s[i..][1..] == s[i + 1..];
      if !Endangered(s, i) {
        DisturbedAt(s, i + 1);
      }
    }
  }

  /** A payload is changed if and only if a byte up to 3 follows two zeros in it. */
  lemma EscapeIff(s: seq<Byte>)
    ensures Escape(s, 0) == s <==> forall k | 0 <= k < |s| :: !Endangered(s, k)
  {
    assert s[0..] == s;
    Untouched(s, 0);
    DisturbedAt(s, 0);
  }

  /** Escaping adds at most half the length of the payload. */
  lemma {:induction false} Growth(s: seq<Byte>, z: nat)
    requires z <= 2
    ensures 2 * |Escape(s, z)| <= 3 * |s| + z
  {
    if s != [] {
      if z == 2 && s[0] <= 3 {
        Growth(s[1..], Run(0, s[0]));
      } else {
        Growth(s[1..], Run(z, s[0]));
      }
    }
  }

  lemma {:induction false} LastByte(s: seq<Byte>, z: nat)
    requires z <= 2 && s != []
    ensures var e := Escape(s, z); e != [] && e[|e| - 1] == s[|s| - 1]
  {
    if |s| > 1 {
      if z == 2 && s[0] <= 3 {
        LastByte(s[1..], Run(0, s[0]));
      } else {
        LastByte(s[1..], Run(z, s[0]));
      }
    } else {
      assert s[1..] == [];
    }
  }

  const START_CODE: seq<Byte> := [0, 0, 0, 1]

  /** nal_put_esc: a start code and the escaped payload, written to d. */
  method PutEsc(d: array<Byte>, s: seq<Byte>) returns (n: nat)
    requires d.Length >= 4 + |Escape(s, 0)|
    modifies d
    ensures n == 4 + |Escape(s, 0)| && d[..n] == START_CODE + Escape(s, 0)
  {
    hide Escape;
    var i, j, cntz := 0, 4, 0;
    d[0], d[1], d[2], d[3] := 0, 0, 0, 1;
    ghost var all := START_CODE + Escape(s, 0);
    assert s[0..] == s && d[..4] == START_CODE;
    while i < |s|
      invariant 0 <= i <= |s| && 0 <= cntz <= 2 && 4 <= j <= |all|
      invariant all == d[..j] + Escape(s[i..], cntz)
    {
      var byte := s[i];
      EscapeStep(s, i, cntz);
      ghost var before := d[..j];
      i := i + 1;
      if cntz == 2 && byte <= 3 {
        PutByte(d, j, 3);
        j := j + 1;
        cntz := 0;
      }
      if byte != 0 {
        cntz := 0;
      } else {
        cntz := cntz + 1;
      }
      PutByte(d, j, byte);
      j := j + 1;
      OneMore(before, byte, Escape(s[i..], cntz));
    }
    EscapeEnd(cntz);
    assert s[i..] == [];
    return j;
  }

  method PutByte(d: array<Byte>, j: nat, b: Byte)
    requires j < d.Length
    modifies d
    ensures d[..j + 1] == old(d[..j]) + [b]
  {
    d[j] := b;
  }

  lemma OneMore(before: seq<Byte>, b: Byte, rest: seq<Byte>)
    ensures before + ([b] + rest) == before + [b] + rest
    ensures before + ([3, b] + rest) == before + [3] + [b] + rest
  {}

  lemma EscapeStep(s: seq<Byte>, i: nat, z: nat)
    requires i < |s| && z <= 2
    ensures Escape(s[i..], z)
         == if z == 2 && s[i] <= 3 then [3, s[i]] + Escape(s[i + 1..], Run(0, s[i]))
            else [s[i]] + Escape(s[i + 1..], Run(z, s[i]))
  {
    assert s[i..][1..] == s[i + 1..];
  }

  lemma EscapeEnd(z: nat)
    requires z <= 2
    ensures Escape([], z) == []
  {}

  /** remove_nal_escapes: the payload written to dst and its length, 0 when it is rejected. */
  method RemoveEscapes(dst: array<Byte>, src: seq<Byte>) returns (n: nat)
    requires dst.Length >= |src|
    modifies dst
    ensures match Unescape(src, 0)
            case None => n == 0
            case Some(s) => n == |s| <= |src| && dst[..n] == s
  {
    var i, j, zeroCnt := 0, 0, 0;
    assert src[0..] == src && dst[..0] == [];
    BehindNothing(Unescape(src, 0));
    while j < |src|
      invariant 0 <= i <= j <= |src| && 0 <= zeroCnt <= 2
      invariant Unescape(src, 0) == Behind(dst[..i], Unescape(src[j..], zeroCnt))
    {
      ghost var rest, before := src[j..], dst[..i];
      if zeroCnt == 2 && src[j] <= 3 {
        if src[j] == 3 {
          if j == |src| - 1 {
            // the last byte stays
          } else if src[j + 1] <= 3 {
            j := j + 1;
            zeroCnt := 0;
            assert rest[2..] == src[j + 1..];
          }
        } else {
          return 0;
        }
      }
      dst[i] := src[j];
      i := i + 1;
      assert dst[..i] == before + [src[j]];
      if src[j] != 0 {
        zeroCnt := 0;
      } else {
        zeroCnt := zeroCnt + 1;
      }
      assert rest[1..] == src[j + 1..] || rest[2..] == src[j + 1..];
      BehindPrepend(before, src[j], Unescape(src[j + 1..], zeroCnt));
      j := j + 1;
    }
    return i;
  }

  function Behind(done: seq<Byte>, r: Option<seq<Byte>>): Option<seq<Byte>> {
    match r
    case None => None
    case Some(s) => Some(done + s)
  }

  lemma BehindNothing(r: Option<seq<Byte>>)
    ensures Behind([], r) == r
  {
    if r.Some? {
      assert [] + r.value == r.value;
    }
  }

  lemma BehindPrepend(done: seq<Byte>, b: Byte, r: Option<seq<Byte>>)
    ensures Behind(done, Prepend(b, r)) == Behind(done + [b], r)
  {
    if r.Some? {
      assert done + ([b] + r.value) == done + [b] + r.value;
    }
  }
}
