/** The coder and decoder of crypto/base64.h (section 4 of RFC 4648). Shifts and masks on
    bytes are written as divisions and remainders. */
module Base64 {
  import opened Seqs
  import opened Bits

  const PAD: Byte := 61

  /** base64_chars: A to Z, a to z, 0 to 9, plus and slash. */
  function Char(k: nat): Byte
    requires k < 64
  {
    if k < 26 then 65 + k else if k < 52 then 97 + (k - 26) else if k < 62 then 48 + (k - 52)
    else if k == 62 then 43 else 47
  }

  /** is_base64. */
  predicate IsBase64(c: Byte) {
    c == 43 || 47 <= c <= 57 || 65 <= c <= 90 || 97 <= c <= 122
  }

  /** The place of a character in the alphabet, cast to a byte: 255 when it has none. */
  function Find(c: Byte): Byte {
    if 65 <= c <= 90 then c - 65 else if 97 <= c <= 122 then c - 97 + 26 else if 48 <= c <= 57 then c - 48 + 52
    else if c == 43 then 62 else if c == 47 then 63 else 255
  }

  /** The alphabet and its inverse. */
  lemma FindChar(c: Byte)
    ensures IsBase64(c) <==> Find(c) < 64
    ensures IsBase64(c) ==> Char(Find(c)) == c
    ensures !IsBase64(c) ==> Find(c) == 255
  {}

  lemma CharFind(k: nat)
    requires k < 64
    ensures IsBase64(Char(k)) && Char(k) != PAD && Find(Char(k)) == k
  {}

  /** Table 1 of RFC 4648. */
  lemma Alphabet(k: nat)
    requires k < 64
    ensures k <= 25 ==> Char(k) == 'A' as nat + k
    ensures 26 <= k <= 51 ==> Char(k) == 'a' as nat + (k - 26)
    ensures 52 <= k <= 61 ==> Char(k) == '0' as nat + (k - 52)
    ensures Char(62) == '+' as nat && Char(63) == '/' as nat && PAD == '=' as nat
  {}

  // ---------------------------------------------------------------- groups

  /** Three bytes as four numbers of six bits. */
  function Sextets(a: Byte, b: Byte, c: Byte): (s: seq<Byte>)
    ensures |s| == 4 && forall i | 0 <= i < 4 :: s[i] < 64
  {
    [a as int / 4, a as int % 4 * 16 + b as int / 16, b as int % 16 * 4 + c as int / 64, c as int % 64]
  }

  /** Four numbers as three bytes, each cut to eight bits. */
  function Octets(w: Byte, x: Byte, y: Byte, z: Byte): (s: seq<Byte>)
    ensures |s| == 3
  {
    [(w as int * 4 + x as int / 16 % 4) % 256, (x as int % 16 * 16 + y as int / 4 % 16) % 256,
     (y as int % 4 * 64 + z as int) % 256]
  }

  /** The four numbers are the digits of the 24 bits in base 64, the highest first. */
  lemma SextetsAre(a: Byte, b: Byte, c: Byte)
    ensures var s := Sextets(a, b, c);
            ((s[0] as nat * 64 + s[1]) * 64 + s[2]) * 64 + s[3] == (a as nat * 256 + b) * 256 + c
  {
    var p, q, r := a as nat, b as nat, c as nat;
    assert p == p / 4 * 4 + p % 4 && q == q / 16 * 16 + q % 16 && r == r / 64 * 64 + r % 64;
  }

  lemma FirstOctet(a: Byte, b: nat)
    requires b < 16
    ensures (a as int / 4 * 4 + (a as int % 4 * 16 + b) / 16 % 4) % 256 == a as int
  {
    var q, r := a as int / 4, a as int % 4;
    assert (r * 16 + b) / 16 == r;
    assert q * 4 + r == a as int;
  }

  lemma SecondOctet(hi: nat, b: Byte, c: nat)
    requires hi < 4 && c < 4
    ensures ((hi * 16 + b as int / 16) % 16 * 16 + (b as int % 16 * 4 + c) / 4 % 16) % 256 == b as int
  {
    var q, r := b as int / 16, b as int % 16;
    LowPart(hi, q);
    HighPart(r, c);
    assert r % 16 == r && q * 16 + r == b as int;
  }

  lemma LowPart(hi: nat, q: nat)
    requires q < 16
    ensures (hi * 16 + q) % 16 == q
  {}

  lemma HighPart(r: nat, c: nat)
    requires c < 4
    ensures (r * 4 + c) / 4 == r
  {}

  lemma ThirdOctet(hi: nat, c: Byte)
    requires hi < 16
    ensures ((hi * 4 + c as int / 64) % 4 * 64 + c as int % 64) % 256 == c as int
  {
    var q, r := c as int / 64, c as int % 64;
    assert (hi * 4 + q) % 4 == q;
  }

  lemma OctetsOfSextets(a: Byte, b: Byte, c: Byte)
    ensures var s := Sextets(a, b, c); Octets(s[0], s[1], s[2], s[3]) == [a, b, c]
  {
    FirstOctet(a, b as int / 16);
    SecondOctet(a as int % 4, b, c as int / 64);
    ThirdOctet(b as int % 16, c);
  }

  /** In the tails the fillers read as 255, which does not reach the bytes that are kept. */
  lemma TailOctets(a: Byte, b: Byte)
    ensures var s := Sextets(a, 0, 0); Octets(s[0], s[1], 255, 255)[0] == a
    ensures var s := Sextets(a, b, 0); Octets(s[0], s[1], s[2], 255)[..2] == [a, b]
  {
    FirstOctet(a, 0);
    FirstOctet(a, b as int / 16);
    SecondOctet(a as int % 4, b, 0);
  }

  function Chars(s: seq<Byte>, n: nat): (r: seq<Byte>)
    requires n <= |s| && forall i | 0 <= i < n :: s[i] < 64
    ensures |r| == n && forall i | 0 <= i < n :: r[i] == Char(s[i])
  {
    if n == 0 then [] else Chars(s, n - 1) + [Char(s[n - 1])]
  }

  // ---------------------------------------------------------------- the coding

  function Encode(s: seq<Byte>): (e: seq<Byte>) {
    if s == [] then []
    else if |s| == 1 then Chars(Sextets(s[0], 0, 0), 2) + [PAD, PAD]
    else if |s| == 2 then Chars(Sextets(s[0], s[1], 0), 3) + [PAD]
    else Chars(Sextets(s[0], s[1], s[2]), 4) + Encode(s[3..])
  }

  /** The characters of three bytes: the four digits in base 64 of the number that they are in
      base 256. */
  function Digits(x: nat): (e: seq<Byte>)
    requires x < 0x100_0000
    ensures |e| == 4
  {
    [Char(x / 0x4_0000), Char(x / 0x1000 % 64), Char(x / 64 % 64), Char(x % 64)]
  }

  /** Every three bytes are written as these digits; a last group of one or two is filled up with
      zeros, and its missing characters are equals signs. */
  lemma EncodeIs(s: seq<Byte>)
    requires s != []
    ensures var x := Value24(s);
            Encode(s) == if |s| == 1 then Digits(x)[..2] + [61, 61]
                         else if |s| == 2 then Digits(x)[..3] + [61] else Digits(x) + Encode(s[3..])
  {
    hide Digits, Sextets, Chars, Encode;
    EncodeOnce(s);
    var a: Byte, b: Byte, c: Byte := s[0], if |s| > 1 then s[1] else 0, if |s| > 2 then s[2] else 0;
    assert Value24(s) == a as nat * 0x1_0000 + b as nat * 256 + c;
    GroupIs(a, b, c);
  }

  /** The number in the first three bytes, zeros standing for missing ones. */
  function Value24(s: seq<Byte>): (x: nat)
    requires s != []
    ensures x < 0x100_0000
  {
    s[0] as nat * 0x1_0000 + (if |s| > 1 then s[1] as nat * 256 else 0) + if |s| > 2 then s[2] as nat else 0
  }

  lemma EncodeOnce(s: seq<Byte>)
    ensures |s| == 1 ==> Encode(s) == Chars(Sextets(s[0], 0, 0), 2) + [61, 61]
    ensures |s| == 2 ==> Encode(s) == Chars(Sextets(s[0], s[1], 0), 3) + [61]
    ensures |s| > 2 ==> Encode(s) == Chars(Sextets(s[0], s[1], s[2]), 4) + Encode(s[3..])
  {
    hide Sextets, Chars;
  }

  lemma GroupIs(a: Byte, b: Byte, c: Byte)
    ensures var t, e := Sextets(a, b, c), Digits(a as nat * 0x1_0000 + b as nat * 256 + c);
            Chars(t, 4) == e && Chars(t, 3) == e[..3] && Chars(t, 2) == e[..2]
  {
    hide Char, Sextets, Chars;
    SextetsAre(a, b, c);
    DigitsOf(Sextets(a, b, c), a as nat * 0x1_0000 + b as nat * 256 + c);
    CharsAll(Sextets(a, b, c));
  }

  lemma CharsAll(t: seq<Byte>)
    requires |t| == 4 && forall i | 0 <= i < 4 :: t[i] < 64
    ensures var e := [Char(t[0]), Char(t[1]), Char(t[2]), Char(t[3])];
            Chars(t, 4) == e && Chars(t, 3) == e[..3] && Chars(t, 2) == e[..2]
  {
    hide Char;
  }

  lemma DigitsOf(s: seq<Byte>, x: nat)
    requires |s| == 4 && s[0] < 64 && s[1] < 64 && s[2] < 64 && s[3] < 64
    requires ((s[0] as nat * 64 + s[1]) * 64 + s[2]) * 64 + s[3] == x
    ensures s == [x / 0x4_0000, x / 0x1000 % 64, x / 64 % 64, x % 64]
  {
    var p, q := s[0] as nat * 64 + s[1], (s[0] as nat * 64 + s[1]) * 64 + s[2];
    assert x / 64 == q && x % 64 == s[3];
    assert q / 64 == p && q % 64 == s[2];
    assert p / 64 == s[0] && p % 64 == s[1];
    assert x / 0x1000 == p && x / 0x4_0000 == s[0];
  }

  /** The characters in front of the first that is no base64 character. */
  function Prefix(e: seq<Byte>): (p: seq<Byte>)
    ensures p <= e && forall i | 0 <= i < |p| :: IsBase64(p[i])
  {
    if e == [] || e[0] == PAD || !IsBase64(e[0]) then [] else [e[0]] + Prefix(e[1..])
  }

  /** The bytes of a string of characters; a last group of i characters gives i - 1 bytes. */
  function Groups(p: seq<Byte>): seq<Byte> {
    if |p| >= 4 then Octets(Find(p[0]), Find(p[1]), Find(p[2]), Find(p[3])) + Groups(p[4..])
    else if |p| == 3 then Octets(Find(p[0]), Find(p[1]), Find(p[2]), 255)[..2]
    else if |p| == 2 then Octets(Find(p[0]), Find(p[1]), 255, 255)[..1]
    else []
  }

  function Decode(e: seq<Byte>): seq<Byte> {
    Groups(Prefix(e))
  }

  /** Decoding stops in front of the first character that is not in the alphabet. */
  lemma {:induction false} PrefixIs(e: seq<Byte>, k: nat)
    requires k <= |e| && (forall i | 0 <= i < k :: IsBase64(e[i])) && (k < |e| ==> !IsBase64(e[k]))
    ensures Prefix(e) == e[..k]
  {
    hide IsBase64;
    if k > 0 {
      assert IsBase64(e[0]) && e[0] != PAD by { NotBase64(); }
      PrefixIs(e[1..], k - 1);
      assert e[..k] == [e[0]] + e[1..][..k - 1];
    }
  }

  /** The number that characters of the alphabet are in base 64. */
  function Number(p: seq<Byte>): nat {
    if p == [] then 0 else Number(p[..|p| - 1]) * 64 + Find(p[|p| - 1])
  }

  /** Four characters are three bytes, the digits in base 256 of their number in base 64; of a last
      group of two or three the bits beyond the last whole byte are dropped, and a single last
      character is dropped whole. */
  lemma GroupsAre(p: seq<Byte>)
    requires forall i | 0 <= i < |p| :: IsBase64(p[i])
    ensures |p| <= 1 ==> Groups(p) == []
    ensures |p| == 2 ==> Groups(p) == [Number(p) / 16]
    ensures |p| == 3 ==> Groups(p) == [Number(p) / 4 / 256, Number(p) / 4 % 256]
    ensures |p| >= 4 ==> var x := Number(p[..4]);
                         Groups(p) == [x / 0x1_0000, x / 256 % 256, x % 256] + Groups(p[4..])
  {
    hide IsBase64, Find, Octets, Number, Groups;
    if |p| == 2 {
      GroupTwo(p[0], p[1]);
      assert p == [p[0], p[1]];
    } else if |p| == 3 {
      GroupThree(p[0], p[1], p[2]);
      assert p == [p[0], p[1], p[2]];
    } else if |p| >= 4 {
      GroupFour(p);
    } else {
      GroupNone(p);
    }
  }

  lemma GroupNone(p: seq<Byte>)
    requires |p| <= 1
    ensures Groups(p) == []
  {}

  lemma GroupTwo(a: Byte, b: Byte)
    requires IsBase64(a) && IsBase64(b)
    ensures Groups([a, b]) == [Number([a, b]) / 16]
  {
    hide IsBase64, Find, Octets, Number;
    FindChar(a);
    FindChar(b);
    NumberTwo(a, b);
    OneOctet(Find(a), Find(b));
  }

  lemma GroupThree(a: Byte, b: Byte, c: Byte)
    requires IsBase64(a) && IsBase64(b) && IsBase64(c)
    ensures var x := Number([a, b, c]); Groups([a, b, c]) == [x / 4 / 256, x / 4 % 256]
  {
    hide IsBase64, Find, Octets, Number;
    FindChar(a);
    FindChar(b);
    FindChar(c);
    NumberThree(a, b, c);
    TwoOctets(Find(a), Find(b), Find(c));
  }

  lemma GroupFour(p: seq<Byte>)
    requires |p| >= 4 && IsBase64(p[0]) && IsBase64(p[1]) && IsBase64(p[2]) && IsBase64(p[3])
    ensures var x := Number(p[..4]); Groups(p) == [x / 0x1_0000, x / 256 % 256, x % 256] + Groups(p[4..])
  {
    hide IsBase64, Find, Octets, Number;
    FindChar(p[0]);
    FindChar(p[1]);
    FindChar(p[2]);
    FindChar(p[3]);
    NumberFour(p[0], p[1], p[2], p[3]);
    assert p[..4] == [p[0], p[1], p[2], p[3]];
    ThreeOctets(Find(p[0]), Find(p[1]), Find(p[2]), Find(p[3]));
  }

  lemma NumberTwo(a: Byte, b: Byte)
    ensures Number([a, b]) == Find(a) as nat * 64 + Find(b)
  {
    hide Find;
    assert Number([]) == 0 && [a][..0] == [];
    assert Number([a]) == Find(a) as nat;
    assert [a, b][..1] == [a];
  }

  lemma NumberThree(a: Byte, b: Byte, c: Byte)
    ensures Number([a, b, c]) == (Find(a) as nat * 64 + Find(b)) * 64 + Find(c)
  {
    hide Find;
    NumberTwo(a, b);
    assert [a, b, c][..2] == [a, b];
  }

  lemma NumberFour(a: Byte, b: Byte, c: Byte, d: Byte)
    ensures Number([a, b, c, d]) == ((Find(a) as nat * 64 + Find(b)) * 64 + Find(c)) * 64 + Find(d)
  {
    hide Find;
    NumberThree(a, b, c);
    assert [a, b, c, d][..3] == [a, b, c];
  }

  /** The bytes of four numbers, without carries. */
  lemma OctetsAre(w: Byte, x: Byte, y: Byte, z: Byte)
    requires w < 64 && x < 64
    ensures var s := Octets(w, x, y, z);
            && s[0] as nat == w as nat * 4 + x as nat / 16
            && (y < 64 ==> s[1] as nat == x as nat % 16 * 16 + y as nat / 4)
            && (y < 64 && z < 64 ==> s[2] as nat == y as nat % 4 * 64 + z as nat)
  {}

  lemma OneOctet(w: Byte, x: Byte)
    requires w < 64 && x < 64
    ensures Octets(w, x, 255, 255)[..1] == [(w as nat * 64 + x) / 16]
  {
    hide Octets;
    OctetsAre(w, x, 255, 255);
    SixBits(w as nat, x as nat);
  }

  lemma SixBits(a: nat, b: nat)
    ensures (a * 64 + b) / 16 == a * 4 + b / 16
  {}

  lemma TwoOctets(w: Byte, x: Byte, y: Byte)
    requires w < 64 && x < 64 && y < 64
    ensures var v := (w as nat * 64 + x) * 64 + y;
            Octets(w, x, y, 255)[..2] == [v / 4 / 256, v / 4 % 256]
  {
    hide Octets;
    OctetsAre(w, x, y, 255);
    TwoDigits(w as nat, x as nat, y as nat);
  }

  lemma TwoDigits(a: nat, b: nat, c: nat)
    requires b < 64 && c < 64
    ensures var v := (a * 64 + b) * 64 + c;
            v / 4 / 256 == a * 4 + b / 16 && v / 4 % 256 == b % 16 * 16 + c / 4
  {
    var b1, b0, c1, c0 := b / 16, b % 16, c / 4, c % 4;
    assert b == b1 * 16 + b0 && c == c1 * 4 + c0;
    var v, first, second := (a * 64 + b) * 64 + c, a * 4 + b1, b0 * 16 + c1;
    assert v == (first * 256 + second) * 4 + c0;
    assert v / 4 == first * 256 + second;
  }

  lemma ThreeOctets(w: Byte, x: Byte, y: Byte, z: Byte)
    requires w < 64 && x < 64 && y < 64 && z < 64
    ensures var v := ((w as nat * 64 + x) * 64 + y) * 64 + z;
            Octets(w, x, y, z) == [v / 0x1_0000, v / 256 % 256, v % 256]
  {
    hide Octets;
    OctetsAre(w, x, y, z);
    FourDigits(w as nat, x as nat, y as nat, z as nat);
  }

  lemma FourDigits(a: nat, b: nat, c: nat, d: nat)
    requires b < 64 && c < 64 && d < 64
    ensures var v := ((a * 64 + b) * 64 + c) * 64 + d;
            v / 0x1_0000 == a * 4 + b / 16 && v / 256 % 256 == b % 16 * 16 + c / 4 && v % 256 == c % 4 * 64 + d
  {
    var b1, b0, c1, c0 := b / 16, b % 16, c / 4, c % 4;
    assert b == b1 * 16 + b0 && c == c1 * 4 + c0;
    ThreeDigits(a * 4 + b1, b0 * 16 + c1, c0 * 64 + d);
    assert ((a * 64 + b) * 64 + c) * 64 + d == ((a * 4 + b1) * 256 + (b0 * 16 + c1)) * 256 + (c0 * 64 + d);
  }

  lemma ThreeDigits(first: nat, second: nat, third: nat)
    requires second < 256 && third < 256
    ensures var v := (first * 256 + second) * 256 + third;
            v / 0x1_0000 == first && v / 256 % 256 == second && v % 256 == third
  {
    var v := (first * 256 + second) * 256 + third;
    assert v / 256 == first * 256 + second;
  }

  lemma {:induction false} PrefixJoin(p: seq<Byte>, e: seq<Byte>)
    requires forall i | 0 <= i < |p| :: IsBase64(p[i])
    ensures Prefix(p + e) == p + Prefix(e)
  {
    if p == [] {
      assert p + e == e;
    } else {
      assert (p + e)[1..] == p[1..] + e;
      PrefixJoin(p[1..], e);
    }
  }

  lemma CharsPrefix(s: seq<Byte>, n: nat, e: seq<Byte>)
    requires n <= |s| && forall i | 0 <= i < n :: s[i] < 64
    ensures Prefix(Chars(s, n) + e) == Chars(s, n) + Prefix(e)
  {
    hide Chars, Prefix, IsBase64;
    forall i | 0 <= i < n ensures IsBase64(Chars(s, n)[i]) {
      CharFind(s[i]);
    }
    PrefixJoin(Chars(s, n), e);
  }

  lemma NoPrefix(e: seq<Byte>)
    requires e == [] || e[0] == PAD
    ensures Prefix(e) == []
  {}

  /** Decoding undoes encoding, for every byte string. */
  lemma {:induction false} DecodeEncode(s: seq<Byte>)
    ensures Decode(Encode(s)) == s
  {
    hide Chars, Prefix, Find, Char, Sextets, Octets;
    if s == [] {
      NoPrefix([]);
    } else if |s| == 1 {
      var x := Sextets(s[0], 0, 0);
      CharsPrefix(x, 2, [PAD, PAD]);
      NoPrefix([PAD, PAD]);
      NothingBehind(Chars(x, 2));
      FindChars(x, 2);
      TailOctets(s[0], 0);
    } else if |s| == 2 {
      var x := Sextets(s[0], s[1], 0);
      CharsPrefix(x, 3, [PAD]);
      NoPrefix([PAD]);
      NothingBehind(Chars(x, 3));
      FindChars(x, 3);
      TailOctets(s[0], s[1]);
    } else {
      var x := Sextets(s[0], s[1], s[2]);
      CharsPrefix(x, 4, Encode(s[3..]));
      FindChars(x, 4);
      Halves(Chars(x, 4), Prefix(Encode(s[3..])));
      OctetsOfSextets(s[0], s[1], s[2]);
      DecodeEncode(s[3..]);
      assert [s[0], s[1], s[2]] + s[3..] == s;
    }
  }

  lemma FindChars(s: seq<Byte>, n: nat)
    requires n <= |s| && forall i | 0 <= i < n :: s[i] < 64
    ensures forall i | 0 <= i < n :: Find(Chars(s, n)[i]) == s[i]
  {
    hide Chars, Find, Char;
    forall i | 0 <= i < n ensures Find(Chars(s, n)[i]) == s[i] {
      CharFind(s[i]);
    }
  }

  /** Four characters for every three bytes begun. */
  lemma {:induction false} EncodeLength(s: seq<Byte>)
    ensures |Encode(s)| == (|s| + 2) / 3 * 4
  {
    if |s| >= 3 {
      EncodeLength(s[3..]);
    }
  }

  /** The characters are those of the alphabet, and at most two pads at the end. */
  lemma {:induction false} EncodeAlphabet(s: seq<Byte>, i: nat)
    requires i < |Encode(s)|
    ensures IsBase64(Encode(s)[i]) || (Encode(s)[i] == PAD && |s| % 3 != 0 && i >= |Encode(s)| - (3 - |s| % 3))
    decreases |s|
  {
    hide Chars, Char, IsBase64, Sextets;
    if |s| >= 3 {
      var x := Sextets(s[0], s[1], s[2]);
      if i < 4 {
        CharFind(x[i]);
      } else {
        EncodeAlphabet(s[3..], i - 4);
      }
    } else if s != [] {
      var x := Sextets(s[0], if |s| == 2 then s[1] else 0, 0);
      if i <= |s| {
        CharFind(x[i]);
      }
    }
  }

  // ---------------------------------------------------------------- which texts are encodings

  /** Whole groups, the last of which may end in one or two pads and then has zeros in the
      bits that are not decoded (sections 3.5 and 4 of RFC 4648). */
  predicate Canonical(e: seq<Byte>) {
    if |e| < 4 then e == []
    else if |e| == 4 && e[3] == PAD && e[2] == PAD then
      IsBase64(e[0]) && IsBase64(e[1]) && Find(e[1]) % 16 == 0
    else if |e| == 4 && e[3] == PAD then
      IsBase64(e[0]) && IsBase64(e[1]) && IsBase64(e[2]) && Find(e[2]) % 4 == 0
    else IsBase64(e[0]) && IsBase64(e[1]) && IsBase64(e[2]) && IsBase64(e[3]) && Canonical(e[4..])
  }

  lemma FirstSextets(w: nat, x: nat)
    requires w < 64 && x < 64
    ensures var o := (w * 4 + x / 16 % 4) % 256; o / 4 == w && o % 4 == x / 16
  {}

  lemma SecondSextets(x: nat, y: nat)
    requires x < 64 && y < 64
    ensures var o := (x % 16 * 16 + y / 4 % 16) % 256; o / 16 == x % 16 && o % 16 == y / 4
  {}

  lemma ThirdSextets(y: nat, z: nat)
    requires y < 64 && z < 64
    ensures var o := (y % 4 * 64 + z) % 256; o / 64 == y % 4 && o % 64 == z
  {}

  /** Numbers of six bits put together and taken apart again. */
  lemma SextetsOfOctets(w: Byte, x: Byte, y: Byte, z: Byte)
    requires w < 64 && x < 64 && y < 64 && z < 64
    ensures var o := Octets(w, x, y, z); Sextets(o[0], o[1], o[2]) == [w, x, y, z]
  {
    FirstSextets(w, x);
    SecondSextets(x, y);
    ThirdSextets(y, z);
  }

  lemma TailSextets(w: Byte, x: Byte, y: Byte)
    requires w < 64 && x < 64 && y < 64
    ensures x % 16 == 0 ==> Sextets(Octets(w, x, 255, 255)[0], 0, 0)[..2] == [w, x]
    ensures y % 4 == 0 ==>
              var o := Octets(w, x, y, 255); Sextets(o[0], o[1], 0)[..3] == [w, x, y]
  {
    FirstSextets(w, x);
    SecondSextets(x, y);
  }

  lemma CharsAre(s: seq<Byte>, n: nat, e: seq<Byte>)
    requires n <= |s| && n == |e| && forall i | 0 <= i < n :: s[i] < 64 && IsBase64(e[i]) && s[i] == Find(e[i])
    ensures Chars(s, n) == e
  {
    hide Chars, Char, Find, IsBase64;
    forall i | 0 <= i < n ensures Chars(s, n)[i] == e[i] {
      FindChar(e[i]);
    }
  }

  lemma {:induction false} CanonicalEncodes(e: seq<Byte>)
    requires Canonical(e)
    ensures Encode(Decode(e)) == e
  {
    if |e| == 4 && e[3] == PAD {
      CanonicalTail(e);
    } else if e != [] {
      CanonicalGroup(e);
      CanonicalEncodes(e[4..]);
    } else {
      NoPrefix(e);
    }
  }

  lemma CanonicalGroup(e: seq<Byte>)
    requires |e| >= 4 && IsBase64(e[0]) && IsBase64(e[1]) && IsBase64(e[2]) && IsBase64(e[3])
    ensures Encode(Decode(e)) == e[..4] + Encode(Decode(e[4..]))
  {
    hide Prefix, Find, IsBase64, Octets, Sextets, Chars, Encode;
    var p, rest := e[..4], e[4..];
    assert e == p + rest;
    FindChar(e[0]);
    FindChar(e[1]);
    FindChar(e[2]);
    FindChar(e[3]);
    PrefixJoin(p, rest);
    GroupsOfFour(p, Prefix(rest));
    var o := Octets(Find(e[0]), Find(e[1]), Find(e[2]), Find(e[3]));
    SextetsOfOctets(Find(e[0]), Find(e[1]), Find(e[2]), Find(e[3]));
    EncodeGroup(o, Decode(rest));
    CharsAre(Sextets(o[0], o[1], o[2]), 4, p);
  }

  lemma CanonicalTail(e: seq<Byte>)
    requires |e| == 4 && e[3] == PAD && Canonical(e)
    ensures Encode(Decode(e)) == e
  {
    hide Prefix, Find, IsBase64, Octets, Sextets, Chars;
    NotBase64();
    FindChar(e[0]);
    FindChar(e[1]);
    if e[2] == PAD {
      var p := e[..2];
      assert e == p + [PAD, PAD];
      PrefixJoin(p, [PAD, PAD]);
      NoPrefix([PAD, PAD]);
      NothingBehind(p);
      TailSextets(Find(e[0]), Find(e[1]), 0);
      var o := Octets(Find(e[0]), Find(e[1]), 255, 255);
      var x := Sextets(o[0], 0, 0);
      assert x[0] == x[..2][0] && x[1] == x[..2][1];
      CharsAre(x, 2, p);
    } else {
      var p := e[..3];
      FindChar(e[2]);
      assert e == p + [PAD];
      PrefixJoin(p, [PAD]);
      NoPrefix([PAD]);
      NothingBehind(p);
      TailSextets(Find(e[0]), Find(e[1]), Find(e[2]));
      var o := Octets(Find(e[0]), Find(e[1]), Find(e[2]), 255);
      var x := Sextets(o[0], o[1], 0);
      assert x[0] == x[..3][0] && x[1] == x[..3][1] && x[2] == x[..3][2];
      CharsAre(x, 3, p);
    }
  }

  lemma NotBase64()
    ensures !IsBase64(PAD)
  {}

  lemma {:induction false} EncodeCanonical(s: seq<Byte>)
    ensures Canonical(Encode(s))
  {
    hide Chars, Char, Find, IsBase64, Sextets;
    if s != [] {
      var x := Sextets(s[0], if |s| > 1 then s[1] else 0, if |s| > 2 then s[2] else 0);
      CharFind(x[0]);
      CharFind(x[1]);
      CharFind(x[2]);
      CharFind(x[3]);
      ZeroBits(s[0], if |s| > 1 then s[1] else 0);
      if |s| >= 3 {
        EncodeCanonical(s[3..]);
        Halves(Chars(x, 4), Encode(s[3..]));
      }
    }
  }

  lemma ZeroBits(a: Byte, b: Byte)
    ensures Sextets(a, 0, 0)[1] % 16 == 0 && Sextets(a, b, 0)[2] % 4 == 0
  {}

  /** A text comes back from decoding and encoding exactly if it is canonical. */
  lemma EncodeDecode(e: seq<Byte>)
    ensures Encode(Decode(e)) == e <==> Canonical(e)
  {
    if Canonical(e) {
      CanonicalEncodes(e);
    }
    EncodeCanonical(Decode(e));
  }

  // ---------------------------------------------------------------- the loops

  lemma EncodeGroup(a: seq<Byte>, rest: seq<Byte>)
    requires |a| == 3
    ensures Encode(a + rest) == Chars(Sextets(a[0], a[1], a[2]), 4) + Encode(rest)
  {
    hide Chars, Sextets;
    assert (a + rest)[3..] == rest;
  }

  /** The first n characters of the group in char_array_3. */
  method PutGroup(a: array<Byte>, n: nat) returns (text: seq<Byte>)
    requires a.Length == 3 && n <= 4
    ensures text == Chars(Sextets(a[0], a[1], a[2]), n)
  {
    hide Char, Sextets;
    ghost var x := Sextets(a[0], a[1], a[2]);
    var group := new Byte[4];
    FillSextets(group, a);
    text := [];
    for j := 0 to n
      invariant text == Chars(x, j) && group[..] == x
    {
      assert group[j] == group[..][j];
      text := text + [Char(group[j])];
    }
  }

  method FillSextets(group: array<Byte>, a: array<Byte>)
    requires group.Length == 4 && a.Length == 3 && group != a
    modifies group
    ensures group[..] == Sextets(a[0], a[1], a[2])
  {
    group[0] := a[0] as int / 4;
    group[1] := a[0] as int % 4 * 16 + a[1] as int / 16;
    group[2] := a[1] as int % 16 * 4 + a[2] as int / 64;
    group[3] := a[2] as int % 64;
  }

  /** base64_encode. */
  method EncodeBytes(bytes: seq<Byte>) returns (ret: seq<Byte>)
    ensures ret == Encode(bytes)
  {
    hide Encode, Chars, Sextets;
    ret := [];
    var i, k := 0, 0;
    var charArray3 := new Byte[3](_ => 0);
    assert charArray3[..0] + bytes[0..] == bytes;
    NothingBehind(Encode(bytes));
    while k < |bytes|
      invariant 0 <= i < 3 && 0 <= k <= |bytes|
      invariant Encode(bytes) == ret + Encode(charArray3[..i] + bytes[k..])
    {
      NextByte(charArray3[..i], bytes, k);
      charArray3[i] := bytes[k];
      assert charArray3[..i + 1] == charArray3[..i] + [bytes[k]];
      i, k := i + 1, k + 1;
      if i == 3 {
        EncodeGroup(charArray3[..3], bytes[k..]);
        var group := PutGroup(charArray3, 4);
        Assoc(ret, group, Encode(bytes[k..]));
        ret := ret + group;
        i := 0;
        NothingBehind(bytes[k..]);
        assert charArray3[..0] == [];
      }
    }
    assert bytes[k..] == [];
    NothingBehind(charArray3[..i]);
    var tail := EncodeTail(charArray3, i);
    ret := ret + tail;
  }

  lemma NextByte(group: seq<Byte>, bytes: seq<Byte>, k: nat)
    requires k < |bytes|
    ensures group + bytes[k..] == group + [bytes[k]] + bytes[k + 1..]
  {}

  /** The last one or two bytes, filled up with zeros, and the padding. */
  method EncodeTail(charArray3: array<Byte>, i: nat) returns (ret: seq<Byte>)
    requires charArray3.Length == 3 && i < 3
    modifies charArray3
    ensures ret == Encode(old(charArray3[..i]))
  {
    hide Chars, Sextets;
    ret := [];
    if i != 0 {
      for j := i to 3
        invariant charArray3[..i] == old(charArray3[..i])
        invariant forall k | i <= k < j :: charArray3[k] == 0
      {
        charArray3[j] := 0;
      }
      ghost var tail := charArray3[..i];
      assert tail[0] == charArray3[0] && (i == 2 ==> tail[1] == charArray3[1]);
      ret := PutGroup(charArray3, i + 1);
      var n := i;
      ghost var text := ret;
      while n < 3
        invariant i <= n <= 3 && ret == text + [PAD, PAD][..n - i]
      {
        ret := ret + [PAD];
        n := n + 1;
      }
    }
  }

  // ---------------------------------------------------------------- decoding loop

  lemma GroupsOfFour(p: seq<Byte>, rest: seq<Byte>)
    requires |p| == 4
    ensures Groups(p + rest) == Octets(Find(p[0]), Find(p[1]), Find(p[2]), Find(p[3])) + Groups(rest)
  {
    hide Octets, Find;
    var all := p + rest;
    assert all[0] == p[0] && all[1] == p[1] && all[2] == p[2] && all[3] == p[3];
    assert all[4..] == rest;
  }

  lemma PrefixStep(e: seq<Byte>, k: nat)
    requires k <= |e|
    ensures k < |e| && e[k] != PAD && IsBase64(e[k]) ==> Prefix(e[k..]) == [e[k]] + Prefix(e[k + 1..])
    ensures k == |e| || e[k] == PAD || !IsBase64(e[k]) ==> Prefix(e[k..]) == []
  {
    hide IsBase64;
    if k < |e| {
      assert e[k..][1..] == e[k + 1..];
    }
  }

  /** The bytes of the group in char_array_4, the characters looked up. */
  method TakeGroup(charArray4: array<Byte>, n: nat) returns (bytes: seq<Byte>)
    requires charArray4.Length == 4 && n <= 3
    modifies charArray4
    ensures bytes == Octets(Find(old(charArray4[0])), Find(old(charArray4[1])),
                            Find(old(charArray4[2])), Find(old(charArray4[3])))[..n]
  {
    hide Find, Octets;
    for i := 0 to 4
      invariant forall k | 0 <= k < i :: charArray4[k] == Find(old(charArray4[k]))
      invariant forall k | i <= k < 4 :: charArray4[k] == old(charArray4[k])
    {
      charArray4[i] := Find(charArray4[i]);
    }
    var charArray3 := new Byte[3];
    FillOctets(charArray3, charArray4);
    bytes := charArray3[..n];
    assert bytes == charArray3[..][..n];
  }

  method FillOctets(group: array<Byte>, a: array<Byte>)
    requires group.Length == 3 && a.Length == 4 && group != a
    modifies group
    ensures group[..] == Octets(a[0], a[1], a[2], a[3])
  {
    group[0] := (a[0] as int * 4 + a[1] as int / 16 % 4) % 256;
    group[1] := (a[1] as int % 16 * 16 + a[2] as int / 4 % 16) % 256;
    group[2] := (a[2] as int % 4 * 64 + a[3] as int) % 256;
  }

  /** base64_decode. */
  method DecodeText(text: seq<Byte>) returns (ret: seq<Byte>)
    ensures ret == Decode(text)
  {
    hide Groups, Prefix, Find, Octets, IsBase64;
    ret := [];
    var i, k := 0, 0;
    var charArray4 := new Byte[4](_ => 0);
    assert charArray4[..0] == [] && text[0..] == text;
    NothingBehind(Prefix(text));
    NothingBehind(Groups(Prefix(text)));
    while k < |text| && text[k] != PAD && IsBase64(text[k])
      invariant 0 <= i < 4 && 0 <= k <= |text|
      invariant Decode(text) == ret + Groups(charArray4[..i] + Prefix(text[k..]))
      decreases |text| - k
    {
      PrefixStep(text, k);
      Assoc(charArray4[..i], [text[k]], Prefix(text[k + 1..]));
      charArray4[i] := text[k];
      assert charArray4[..i + 1] == charArray4[..i] + [text[k]];
      i, k := i + 1, k + 1;
      if i == 4 {
        GroupsOfFour(charArray4[..4], Prefix(text[k..]));
        var group := TakeGroup(charArray4, 3);
        Assoc(ret, group, Groups(Prefix(text[k..])));
        ret := ret + group;
        i := 0;
        NothingBehind(Prefix(text[k..]));
        assert charArray4[..0] == [];
      }
    }
    PrefixStep(text, k);
    NothingBehind(charArray4[..i]);
    var tail := DecodeTail(charArray4, i);
    ret := ret + tail;
  }

  /** The last group, its missing characters looked up as zero characters. */
  method DecodeTail(charArray4: array<Byte>, i: nat) returns (ret: seq<Byte>)
    requires charArray4.Length == 4 && i < 4
    modifies charArray4
    ensures ret == Groups(old(charArray4[..i]))
  {
    hide Find, Octets;
    ret := [];
    if i != 0 {
      for j := i to 4
        invariant charArray4[..i] == old(charArray4[..i])
        invariant forall k | i <= k < j :: charArray4[k] == 0
      {
        charArray4[j] := 0;
      }
      ghost var tail := charArray4[..i];
      assert forall k | 0 <= k < i :: tail[k] == charArray4[k];
      FindChar(0);
      NotInAlphabet();
      ret := TakeGroup(charArray4, i - 1);
    }
  }

  lemma NotInAlphabet()
    ensures Find(0) == 255
  {}

  /** Encoding and decoding as they run. */
  method RoundTrip(bytes: seq<Byte>) returns (back: seq<Byte>)
    ensures back == bytes
  {
    hide Encode, Decode;
    var text := EncodeBytes(bytes);
    DecodeEncode(bytes);
    back := DecodeText(text);
  }
}
