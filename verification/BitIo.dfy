/** Writing a sequence of fields and Exp-Golomb codes and reading it back. */
module BitIo {
  import opened Seqs
  import opened Bits
  import opened BitWriter
  import opened BitReader
  import SpsBits

  datatype Item = Fixed(n: nat, v: nat) | Golomb(v: nat)

  /** What both sides of the library accept: a reader takes at most sixteen bits at once,
      a writer codes of at most thirty-one bits. */
  predicate Fits(i: Item) {
    if i.Fixed? then 1 <= i.n <= 16 && i.v < Pow2(i.n) else i.v <= 65534
  }

  function Code(i: Item): seq<bool> {
    match i
    case Fixed(n, v) => ToBits(v, n)
    case Golomb(v) => UeCode(v)
  }

  function Codes(items: seq<Item>): seq<bool> {
    if items == [] then [] else Code(items[0]) + Codes(items[1..])
  }

  predicate CodeAt(d: seq<bool>, pos: nat, c: seq<bool>) {
    pos + |c| <= |d| && d[pos..pos + |c|] == c
  }

  /** One written item is read back, and the reader moves on by its length. */
  lemma DecodesOne(d: seq<bool>, pos: nat, i: Item)
    requires Fits(i) && CodeAt(d, pos, Code(i))
    ensures i.Fixed? ==> Field(d, pos, i.n) == i.v
    ensures i.Golomb? ==> UeAt(d, pos) && UeValue(d, pos) == i.v
    ensures i.Golomb? ==> UeLength(d, pos) == |UeCode(i.v)| && LeadingZeros(d, pos) <= 15
  {
    match i
    case Fixed(n, v) =>
      FromToBits(v, n);
    case Golomb(v) =>
      UeOfCode(d, pos, v);
      GolombFits(v);
  }

  lemma CodesStep(items: seq<Item>)
    ensures items == [] ==> Codes(items) == []
    ensures items != [] ==> Codes(items) == Code(items[0]) + Codes(items[1..])
  {}

  lemma CodesCons(d: seq<bool>, pos: nat, items: seq<Item>)
    requires items != [] && CodeAt(d, pos, Codes(items))
    ensures CodeAt(d, pos, Code(items[0])) && CodeAt(d, pos + |Code(items[0])|, Codes(items[1..]))
  {
    hide Code, Codes;
    CodesStep(items);
    var a, b := Code(items[0]), Codes(items[1..]);
    var end := pos + |a + b|;
    Halves(a, b);
    Inner(d, pos, end, 0, |a|);
    Inner(d, pos, end, |a|, |a + b|);
  }

  lemma {:induction false} CodesSnoc(items: seq<Item>, k: nat)
    requires k < |items|
    ensures Codes(items[..k + 1]) == Codes(items[..k]) + Code(items[k])
  {
    hide Code, Codes;
    var longer, shorter := items[..k + 1], items[..k];
    CodesStep(longer);
    CodesStep(shorter);
    if k == 0 {
      CodesStep(longer[1..]);
      NothingBehind(Code(items[0]));
    } else {
      CodesSnoc(items[1..], k - 1);
      assert longer[1..] == items[1..][..k] && shorter[1..] == items[1..][..k - 1];
      Assoc(Code(items[0]), Codes(shorter[1..]), Code(items[k]));
    }
  }

  /** A run of h264e_bs_put_bits and h264e_bs_put_golomb, closed by byte_align and flush. */
  method WriteAll(items: seq<Item>) returns (buffer: seq<Byte>, bytes: nat)
    requires forall i | i in items :: Fits(i)
    ensures bytes <= |buffer|
    ensures BitsOf(buffer[..bytes]) == Codes(items) + Padding(|Codes(items)|)
  {
    hide Code, BitsOf, Pow2;
    var w := new Writer();
    for k := 0 to |items|
      invariant w.Valid() && fresh(w) && w.Written() == Codes(items[..k])
    {
      assert Fits(items[k]) by { assert items[k] in items; }
      CodesSnoc(items, k);
      match items[k]
      case Fixed(n, v) =>
        CodeOf(items[k]);
        NarrowField(n, v);
        w.PutBits(n, v);
      case Golomb(v) =>
        CodeOf(items[k]);
        w.PutGolomb(v);
    }
    assert items[..|items|] == items;
    var pos := w.ByteAlign();
    buffer := w.Flush();
    bytes := pos / 8;
    FlushedBytes(buffer, w.Written(), w.shift);
  }

  lemma CodeOf(i: Item)
    ensures Code(i) == if i.Fixed? then ToBits(i.v, i.n) else UeCode(i.v)
  {}

  lemma NarrowField(n: nat, v: nat)
    requires Fits(Fixed(n, v))
    ensures n <= 31 && v < Pow2(n)
  {}

  /** At a written sequence of items, the first one is decoded and the others follow. */
  lemma NextItem(d: seq<bool>, pos: nat, items: seq<Item>, k: nat)
    requires (forall i | i in items :: Fits(i)) && k < |items| && CodeAt(d, pos, Codes(items[k..]))
    ensures Fits(items[k]) && items[..k] + [items[k]] == items[..k + 1]
    ensures items[k].Fixed? ==> pos + items[k].n <= |d| && Field(d, pos, items[k].n) == items[k].v
    ensures items[k].Golomb? ==> pos < |d| && UeAt(d, pos) && UeValue(d, pos) == items[k].v
    ensures items[k].Golomb? ==> UeLength(d, pos) == |Code(items[k])| && LeadingZeros(d, pos) <= 15
    ensures items[k].Fixed? ==> items[k].n == |Code(items[k])|
    ensures CodeAt(d, pos + |Code(items[k])|, Codes(items[k + 1..]))
    ensures |Codes(items[k..])| == |Code(items[k])| + |Codes(items[k + 1..])|
  {
    hide Code, Codes, CodeAt, Field, UeValue, UeLength, UeAt, LeadingZeros, Fits;
    assert items[k] in items;
    assert items[k..][0] == items[k] && items[k..][1..] == items[k + 1..];
    CodesStep(items[k..]);
    CodesCons(d, pos, items[k..]);
    CodeOf(items[k]);
    CodeBounds(d, pos, items[k]);
    DecodesOne(d, pos, items[k]);
  }

  lemma CodeBounds(d: seq<bool>, pos: nat, i: Item)
    requires Fits(i) && CodeAt(d, pos, Code(i))
    ensures i.Fixed? ==> pos + i.n <= |d|
    ensures i.Golomb? ==> pos < |d|
  {
    hide Pow2, ToBits;
    if i.Golomb? {
      SizeBound(i.v + 1);
    }
  }

  /** The matching run of get_bits and ue_bits. Only the shapes of the items are used. */
  method ReadAll(r: Reader, items: seq<Item>) returns (read: seq<Item>)
    requires forall i | i in items :: Fits(i)
    requires r.Valid() && CodeAt(BitsOf(r.mem), r.Pos(), Codes(items)) && r.Room(|Codes(items)|)
    modifies r
    ensures read == items
    ensures r.Valid() && r.Pos() == old(r.Pos()) + |Codes(items)|
  {
    hide Code, Codes, CodeAt, BitsOf, Pow2, Field, UeValue, UeLength, LeadingZeros, UeAt, Holds;
    read := [];
    ghost var d := BitsOf(r.mem);
    var k := 0;
    assert items[0..] == items;
    while k < |items|
      invariant 0 <= k <= |items| && read == items[..k] && r.Valid() && d == BitsOf(r.mem)
      invariant CodeAt(d, r.Pos(), Codes(items[k..]))
      invariant r.Pos() + |Codes(items[k..])| == old(r.Pos()) + |Codes(items)|
    {
      NextItem(d, r.Pos(), items, k);
      var v;
      match items[k] {
        case Fixed(n, _) =>
          v := r.GetBits(n);
          read := read + [Fixed(n, v)];
        case Golomb(_) =>
          v := r.UeBits();
          read := read + [Golomb(v)];
      }
      k := k + 1;
    }
    CodesStep(items[k..]);
  }

  /** Any sequence of writes, aligned and flushed, is read back exactly by the matching
      sequence of reads from a buffer with four readable bytes behind the data. */
  method WriteThenRead(items: seq<Item>, slack: seq<Byte>) returns (read: seq<Item>, pos: nat)
    requires (forall i | i in items :: Fits(i)) && |slack| >= 4
    ensures read == items && pos == |Codes(items)|
  {
    hide Codes, BitsOf;
    var buffer, bytes := WriteAll(items);
    var r := new Reader(buffer[..bytes] + slack, bytes);
    BitsOfJoin(buffer[..bytes], slack);
    read := ReadAll(r, items);
    pos := r.GetPosBits();
  }

  /** The same run with the bit reader of the other file. */
  method ReadAllSps(data: seq<Byte>, items: seq<Item>) returns (read: seq<Item>, pos: nat)
    requires (forall i | i in items :: Fits(i)) && CodeAt(BitsOf(data), 0, Codes(items))
    ensures read == items && pos == |Codes(items)|
  {
    hide Code, Codes, CodeAt, BitsOf, Pow2, Field, UeValue, UeLength, LeadingZeros, UeAt;
    ghost var d := BitsOf(data);
    read, pos := [], 0;
    var k := 0;
    assert items[0..] == items;
    while k < |items|
      invariant 0 <= k <= |items| && read == items[..k]
      invariant CodeAt(d, pos, Codes(items[k..])) && pos + |Codes(items[k..])| == |Codes(items)|
    {
      NextItem(d, pos, items, k);
      var v;
      match items[k] {
        case Fixed(n, _) =>
          v, pos := SpsBits.U(n, data, pos);
          read := read + [Fixed(n, v)];
        case Golomb(_) =>
          v, pos := SpsBits.Ue(data, pos);
          read := read + [Golomb(v)];
      }
      k := k + 1;
    }
    CodesStep(items[k..]);
  }

  /** The same writes, read back by the other reader from the written bytes alone. */
  method WriteThenReadSps(items: seq<Item>) returns (read: seq<Item>, pos: nat)
    requires forall i | i in items :: Fits(i)
    ensures read == items && pos == |Codes(items)|
  {
    hide Codes, BitsOf, Fits;
    var buffer, bytes := WriteAll(items);
    read, pos := ReadAllSps(buffer[..bytes], items);
  }
}
