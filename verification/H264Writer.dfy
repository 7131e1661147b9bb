/** The H.264 writer of stream/minimp4.hpp (mp4_h26x_write_nal): a byte stream is split into
    units, their escapes are removed, parameter sets and slices get new ids, and what comes out
    goes to the muxer, escaped again. */
module H264Writer {
  import opened Seqs
  import opened Wrappers
  import opened Bits
  import opened BitReader
  import opened Mp4Bytes
  import opened Mp4Samples
  import opened Mp4Direct
  import opened Mp4Sets
  import opened AnnexB
  import Mp4Open
  import NalEscape
  import Transcode
  import Patcher

  /** A unit without its escapes, and the duration given with it. */
  datatype Item = Item(nal: seq<Byte>, duration: nat)

  function NalsOf(items: seq<Item>): (nals: seq<seq<Byte>>)
    ensures |nals| == |items| && forall k | 0 <= k < |items| :: nals[k] == items[k].nal
  {
    if items == [] then [] else NalsOf(items[..|items| - 1]) + [items[|items| - 1].nal]
  }

  lemma NalsSnoc(items: seq<Item>, x: Item)
    ensures NalsOf(items + [x]) == NalsOf(items) + [x.nal]
  {
    assert (items + [x])[..|items|] == items;
  }

  // ---------------------------------------------------------------- what goes to the muxer

  /** The parameter sets and samples that the muxer has got, and what is still waited for. */
  datatype Book = Book(sps: seq<seq<Byte>>, pps: seq<seq<Byte>>, needSps: bool, needPps: bool, needIdr: bool,
                       puts: seq<Put>)

  const EMPTY := Book([], [], true, true, true, [])

  /** The first code of a slice, first_mb_in_slice, is 0: its first bit is set. */
  predicate FromFirstMb(nal: seq<Byte>) {
    |nal| >= 2 && nal[1] >= 128
  }

  function KindOf(nal: seq<Byte>): Kind
    requires nal != []
  {
    if !FromFirstMb(nal) then Continuation
    else if Transcode.PayloadType(nal[0]) == 5 then RandomAccess
    else Plain
  }

  /** A unit in a sample: escaped, behind its length. */
  function Framed(out: seq<Byte>): seq<Byte> {
    U32(|NalEscape.Escape(out, 0)|) + NalEscape.Escape(out, 0)
  }

  /** What is not a parameter set goes into a sample once both kinds of them and a picture to
      start with have come. */
  predicate Sampled(b: Book, nal: seq<Byte>)
    requires nal != []
  {
    var t := Transcode.PayloadType(nal[0]);
    t != 7 && t != 8 && !b.needSps && !b.needPps && (t == 5 || !b.needIdr)
  }

  function PutOf(it: Item, out: seq<Byte>): Put
    requires it.nal != []
  {
    Put(0, Framed(out), it.duration, KindOf(it.nal))
  }

  /** The switch over the kinds of units, for a unit and what the transcoder made of it. */
  function Noted(b: Book, it: Item, out: seq<Byte>): Book
    requires it.nal != []
  {
    var t := Transcode.PayloadType(it.nal[0]);
    if t == 7 then b.(sps := Added(b.sps, out), needSps := false)
    else if b.needSps then b
    else if t == 8 then b.(pps := Added(b.pps, out), needPps := false)
    else
      var ready := if t == 5 then b.(needIdr := false) else b;
      if Sampled(b, it.nal) then ready.(puts := b.puts + [PutOf(it, out)]) else ready
  }

  /** The unit is refused: it came before any SPS, or the muxer has no sample to continue. */
  predicate Accepts(sequential: bool, b: Book, it: Item, out: seq<Byte>)
    requires it.nal != []
  {
    && (Transcode.PayloadType(it.nal[0]) == 7 || !b.needSps)
    && (Sampled(b, it.nal) && !sequential ==> !Refused(b.puts, PutOf(it, out)))
  }

  predicate AllFormed(items: seq<Item>) {
    Transcode.AllFormed(NalsOf(items))
  }

  function Out(items: seq<Item>, nal: seq<Byte>): seq<Byte>
    requires AllFormed(items) && Transcode.Formed(nal)
  {
    Transcode.Step(Transcode.Run(NalsOf(items)).0, nal).1
  }

  /** What the muxer has got from a whole run. */
  function BookOf(items: seq<Item>): Book
    requires AllFormed(items)
  {
    if items == [] then EMPTY
    else
      var init, last := items[..|items| - 1], items[|items| - 1];
      assert last.nal in NalsOf(items);
      Noted(BookOf(init), last, Out(init, last.nal))
  }

  lemma InitFormed(items: seq<Item>)
    requires AllFormed(items) && items != []
    ensures AllFormed(items[..|items| - 1]) && items[|items| - 1].nal != []
    ensures Transcode.Formed(items[|items| - 1].nal)
  {
    hide Transcode.Parse;
    assert items[|items| - 1].nal in NalsOf(items);
  }

  // ---------------------------------------------------------------- a stream

  /** A unit of the stream, as it is with its escapes, for which the source's reads are in range:
      a delimiter, one whose escapes are refused, or one with the fields that are looked at. */
  predicate Proper(u: seq<Byte>) {
    && u != []
    && (Transcode.PayloadType(u[0]) == 9
        || match NalEscape.Unescape(u, 0)
           case None => true
           case Some(nal) =>
             Transcode.Formed(nal) && (Transcode.PayloadType(u[0]) in {7, 8} || Transcode.UeIn(BitsOf(u[1..]), 0)))
  }

  /** The run after one more unit of the stream, and whether the loop goes on. */
  function One(sequential: bool, items: seq<Item>, u: seq<Byte>, duration: nat): (r: (seq<Item>, bool))
    requires AllFormed(items) && Proper(u)
    ensures AllFormed(r.0) && items <= r.0
  {
    if Transcode.PayloadType(u[0]) == 9 then (items, true)
    else
      match NalEscape.Unescape(u, 0)
      case None => (items, false)
      case Some(nal) =>
        var it := Item(nal, duration);
        NalsSnoc(items, it);
        (items + [it], Accepts(sequential, BookOf(items), it, Out(items, nal)))
  }

  predicate AllProper(us: seq<seq<Byte>>) {
    forall u | u in us :: Proper(u)
  }

  /** The run after the units of a stream, up to the first one that is refused. */
  function After(sequential: bool, items: seq<Item>, us: seq<seq<Byte>>, duration: nat): (r: (seq<Item>, bool))
    requires AllFormed(items) && AllProper(us)
    ensures AllFormed(r.0)
  {
    hide AllFormed, Proper, One;
    if us == [] then (items, true)
    else
      var n := |us| - 1;
      var before := After(sequential, items, us[..n], duration);
      if before.1 then One(sequential, before.0, us[n], duration) else before
  }

  /** The run is one that the transcoder keeps up with, and its parameter sets have lengths of
      two bytes. */
  ghost predicate Manageable(items: seq<Item>) {
    && Transcode.Admissible(NalsOf(items))
    && forall out | out in Transcode.Run(NalsOf(items)).1 :: |NalEscape.Escape(out, 0)| < 0x1_0000 || !IsSet(out)
  }

  predicate IsSet(nal: seq<Byte>) {
    nal != [] && Transcode.PayloadType(nal[0]) in {7, 8}
  }

  lemma BookSnoc(items: seq<Item>, it: Item)
    requires AllFormed(items) && Transcode.Formed(it.nal)
    ensures AllFormed(items + [it])
    ensures BookOf(items + [it]) == Noted(BookOf(items), it, Out(items, it.nal))
    ensures var r, more := Transcode.Run(NalsOf(items)), Transcode.Run(NalsOf(items + [it]));
            more == (Transcode.Step(r.0, it.nal).0, r.1 + [Out(items, it.nal)])
  {
    hide Transcode.Step, Transcode.Formed, Noted;
    NalsSnoc(items, it);
    assert (items + [it])[..|items|] == items;
    assert (NalsOf(items) + [it.nal])[..|items|] == NalsOf(items);
  }

  // ---------------------------------------------------------------- prefixes of a run

  lemma {:induction false} NalsOfPrefix(items: seq<Item>, k: nat)
    requires k <= |items|
    ensures NalsOf(items[..k]) == NalsOf(items)[..k]
    decreases |items|
  {
    if k < |items| {
      var init := items[..|items| - 1];
      NalsOfPrefix(init, k);
      assert init[..k] == items[..k];
    } else {
      assert items[..k] == items && NalsOf(items)[..k] == NalsOf(items);
    }
  }

  lemma ManageablePrefix(items: seq<Item>, more: seq<Item>)
    requires items <= more && Manageable(more)
    ensures Manageable(items) && AllFormed(items)
  {
    hide Transcode.Formed, Transcode.Run, IsSet, Transcode.Admissible;
    assert items == more[..|items|];
    NalsOfPrefix(more, |items|);
    Transcode.RunPrefix(NalsOf(more), |items|);
  }

  lemma OneGrows(sequential: bool, items: seq<Item>, u: seq<Byte>, duration: nat)
    requires AllFormed(items) && Proper(u)
    ensures items <= One(sequential, items, u, duration).0
  {}

  lemma {:induction false} AfterPrefix(sequential: bool, items: seq<Item>, us: seq<seq<Byte>>, duration: nat, m: nat)
    requires AllFormed(items) && AllProper(us) && m <= |us|
    ensures AllProper(us[..m])
    ensures After(sequential, items, us[..m], duration).0 <= After(sequential, items, us, duration).0
    ensures !After(sequential, items, us[..m], duration).1 ==>
              After(sequential, items, us[..m], duration) == After(sequential, items, us, duration)
    decreases |us|
  {
    hide AllFormed, Proper, One;
    if m < |us| {
      var n := |us| - 1;
      AfterPrefix(sequential, items, us[..n], duration, m);
      assert us[..n][..m] == us[..m];
      OneGrows(sequential, After(sequential, items, us[..n], duration).0, us[n], duration);
    } else {
      assert us[..m] == us;
    }
  }

  // ---------------------------------------------------------------- the writer

  lemma EscapedAdded(nals: seq<seq<Byte>>, x: seq<Byte>)
    ensures Escaped(Added(nals, x)) == Added(Escaped(nals), NalEscape.Escape(x, 0))
  {
    hide NalEscape.Escape;
    EscapedIn(nals, x);
    if x !in nals {
      EscapedSnoc(nals, x);
    }
  }

  lemma {:induction false} EscapedSnoc(nals: seq<seq<Byte>>, x: seq<Byte>)
    ensures Escaped(nals + [x]) == Escaped(nals) + [NalEscape.Escape(x, 0)]
  {
    hide NalEscape.Escape;
    if nals == [] {
      assert nals + [x] == [x] && [x][1..] == [];
      assert Escaped([x]) == [NalEscape.Escape(x, 0)] + Escaped([]);
    } else {
      assert (nals + [x])[1..] == nals[1..] + [x];
      EscapedSnoc(nals[1..], x);
    }
  }

  /** Escaping tells units apart. */
  lemma EscapedIn(nals: seq<seq<Byte>>, x: seq<Byte>)
    ensures NalEscape.Escape(x, 0) in Escaped(nals) <==> x in nals
  {
    hide NalEscape.Escape, NalEscape.Unescape;
    NalEscape.UnescapeEscape(x, 0);
    forall i | 0 <= i < |nals|
      ensures Escaped(nals)[i] == NalEscape.Escape(x, 0) <==> nals[i] == x {
      EscapedAt(nals, i);
      NalEscape.UnescapeEscape(nals[i], 0);
    }
  }

  /** Removing escapes leaves something. */
  lemma SomethingLeft(u: seq<Byte>)
    requires u != []
    ensures NalEscape.Unescape(u, 0).Some? ==>
              NalEscape.Unescape(u, 0).value != [] && NalEscape.Unescape(u, 0).value[0] == u[0]
    ensures NalEscape.Unescape(u, 0).Some? && |u| >= 2 ==>
              |NalEscape.Unescape(u, 0).value| >= 2 && NalEscape.Unescape(u, 0).value[1] == u[1]
    ensures |u| == 1 ==> NalEscape.Unescape(u, 0) == Some(u)
  {
    if |u| >= 2 {
      assert u[1..][0] == u[1];
    } else {
      assert u[1..] == [] && u == [u[0]] + [];
    }
  }

  // ---------------------------------------------------------------- the first code

  lemma FirstBit(u: seq<Byte>)
    requires |u| >= 2
    ensures |BitsOf(u[1..])| >= 8 && BitsOf(u[1..])[0] == (u[1] >= 128)
  {
    BitsOfJoin([u[1]], u[2..]);
    assert [u[1]] + u[2..] == u[1..];
    OneByte(u[1]);
  }

  lemma OneByte(b: Byte)
    ensures |BitsOf([b])| == 8 && BitsOf([b])[0] == (b >= 128)
  {
    BitsOfStep([b]);
    BitsOfStep([]);
    assert [b][..0] == [];
    FirstOf(b, 8);
    assert Pow2(7) == 128;
    NothingBehind(ToBits(b, 8));
  }

  lemma {:induction false} FirstOf(v: nat, n: nat)
    requires n > 0 && v < Pow2(n)
    ensures ToBits(v, n)[0] == (v >= Pow2(n - 1))
  {
    if n > 1 {
      FirstOf(v / 2, n - 1);
    }
  }

  lemma ZeroCode(d: seq<bool>)
    requires Transcode.UeIn(d, 0)
    ensures d != [] && (UeValue(d, 0) == 0 <==> d[0])
  {
    if !d[0] {
      assert Pow2(LeadingZeros(d, 0)) == 2 * Pow2(LeadingZeros(d, 0) - 1);
    }
  }

  /** first_mb_in_slice, read from the unit as it is in the stream. */
  method StartsPicture(u: seq<Byte>, slack: seq<Byte>) returns (start: bool)
    requires u != [] && |slack| >= 4 && Transcode.UeIn(BitsOf(u[1..]), 0)
    ensures start == FromFirstMb(u)
  {
    hide BitsOf, UeAt, LeadingZeros, Transcode.UeIn, UeValue;
    var r := Patcher.NewReader(u, slack);
    var firstMb := Patcher.ReadUe(r, BitsOf(u[1..]), 0);
    ZeroCode(BitsOf(u[1..]));
    if |u| >= 2 {
      FirstBit(u);
    } else {
      NoBitsLeft(u);
    }
    start := firstMb == 0;
  }

  lemma NoBitsLeft(u: seq<Byte>)
    requires |u| == 1
    ensures BitsOf(u[1..]) == []
  {}

  lemma NextOf(sequential: bool, items: seq<Item>, u: seq<Byte>, duration: nat)
    requires AllFormed(items) && Proper(u)
    ensures var one := One(sequential, items, u, duration);
            if Transcode.PayloadType(u[0]) == 9 then one == (items, true)
            else if NalEscape.Unescape(u, 0).None? then one == (items, false)
            else
              var nal := NalEscape.Unescape(u, 0).value;
              var it := Item(nal, duration);
              && Transcode.Formed(nal) && nal != []
              && (Transcode.PayloadType(u[0]) in {7, 8} || Transcode.UeIn(BitsOf(u[1..]), 0))
              && one == (items + [it], Accepts(sequential, BookOf(items), it, Out(items, nal)))
  {
    hide Transcode.Formed, NalEscape.Unescape, BitsOf, Transcode.UeIn, BookOf, Accepts;
    SomethingLeft(u);
  }

  /** The transcoder leaves the first byte alone. */
  lemma SameType(st: Transcode.State, nal: seq<Byte>)
    requires Transcode.Sized(st) && Transcode.Formed(nal)
    ensures var out := Transcode.Step(st, nal).1; out != [] ==> out[0] == nal[0]
  {
    hide Transcode.Parse, Transcode.SpsCode, Transcode.PpsCode, Transcode.SliceCode;
  }

  lemma SetFits(items: seq<Item>, it: Item)
    requires AllFormed(items) && Transcode.Formed(it.nal) && Manageable(items + [it])
    ensures var out := Out(items, it.nal);
            && out != [] && out[0] == it.nal[0]
            && (Transcode.PayloadType(it.nal[0]) in {7, 8} ==> |NalEscape.Escape(out, 0)| < 0x1_0000)
  {
    hide Transcode.Step, Transcode.Formed, Transcode.Run, Transcode.Parse, NalEscape.Escape;
    BookSnoc(items, it);
    NalsSnoc(items, it);
    var nals := NalsOf(items + [it]);
    var outs := Transcode.Run(nals).1;
    Transcode.LastStep(nals);
    assert outs[|outs| - 1] == Out(items, it.nal) && outs[|outs| - 1] in outs;
    SameType(Transcode.Run(NalsOf(items)).0, it.nal);
  }

  method Unescaped(u: seq<Byte>) returns (nal: Option<seq<Byte>>)
    requires u != []
    ensures nal == NalEscape.Unescape(u, 0)
  {
    hide NalEscape.Unescape;
    SomethingLeft(u);
    var plain := new Byte[|u|];
    var size := NalEscape.RemoveEscapes(plain, u);
    nal := if size == 0 then None else Some(plain[..size]);
  }

  method Escaping(out: seq<Byte>) returns (e: seq<Byte>)
    ensures e == NalEscape.Escape(out, 0)
  {
    hide NalEscape.Escape;
    NalEscape.Growth(out, 0);
    var buffer := new Byte[4 + |out| + |out| / 2];
    var length := NalEscape.PutEsc(buffer, out);
    Halves(NalEscape.START_CODE, NalEscape.Escape(out, 0));
    e := buffer[..length][4..];
  }

  class H26xWriter {
    const sequential: bool
    const patcher: Patcher.Patcher
    var needSps: bool
    var needPps: bool
    var needIdr: bool
    var vsps: seq<Byte>
    var vpps: seq<Byte>
    var puts: seq<Put>
    ghost var items: seq<Item>

    /** The fields are what the run has led to. */
    ghost predicate Matches(b: Book)
      reads `needSps, `needPps, `needIdr, `vsps, `vpps, `puts
    {
      && needSps == b.needSps && needPps == b.needPps && needIdr == b.needIdr && puts == b.puts
      && Mp4Open.Nals(Escaped(b.sps)) && vsps == Mp4Open.ListOf(Escaped(b.sps))
      && Mp4Open.Nals(Escaped(b.pps)) && vpps == Mp4Open.ListOf(Escaped(b.pps))
    }

    ghost predicate Valid()
      reads this, patcher.spsCache, patcher.ppsCache, patcher.mapSps, patcher.mapPps
    {
      && patcher.Valid() && Manageable(items) && patcher.St() == Transcode.Run(NalsOf(items)).0
      && AllFormed(items) && Matches(BookOf(items))
    }

    /** mp4_h26x_write_init. The muxer is represented by what it is given. */
    constructor (sequentialMode: bool)
      ensures Valid() && sequential == sequentialMode && items == []
      ensures fresh(patcher.spsCache) && fresh(patcher.ppsCache) && fresh(patcher.mapSps) && fresh(patcher.mapPps)
    {
      sequential := sequentialMode;
      patcher := new Patcher.Patcher();
      needSps, needPps, needIdr := true, true, true;
      vsps, vpps, puts, items := [], [], [], [];
      new;
      Transcode.RunNothing();
    }

    /** One turn of the loop of mp4_h26x_write_nal. */
    method WriteUnit(u: seq<Byte>, duration: nat, slack: seq<Byte>) returns (ok: bool)
      requires Valid() && Proper(u) && |slack| >= 4 && Manageable(One(sequential, items, u, duration).0)
      modifies this, patcher.spsCache, patcher.ppsCache, patcher.mapSps, patcher.mapPps
      ensures Valid() && (items, ok) == One(sequential, old(items), u, duration)
    {
      hide Transcode.Formed, Transcode.Step, Transcode.Run, NalEscape.Escape, NalEscape.Unescape, BookOf, Matches;
      hide Manageable, BitsOf, Transcode.UeIn, Patcher.Patcher.Valid, Transcode.Sized, One, Noted, Accepts;
      hide AllFormed;
      NextOf(sequential, items, u, duration);
      var payloadType := u[0] % 32;
      if payloadType == 9 {
        return true;
      }
      var plain := Unescaped(u);
      if plain.None? {
        return false;
      }
      var nal := plain.value;
      SomethingLeft(u);
      var out := patcher.TranscodeNalu(nal, slack);
      ghost var it := Item(nal, duration);
      BookSnoc(items, it);
      SetFits(items, it);
      var e := Escaping(out);
      ok := Switch(u, e, duration, slack, it, out);
      items := items + [it];
    }

    /** The switch over the kinds of units. */
    method Switch(u: seq<Byte>, e: seq<Byte>, duration: nat, slack: seq<Byte>, ghost it: Item, ghost out: seq<Byte>)
      returns (ok: bool)
      requires AllFormed(items) && Matches(BookOf(items)) && u != [] && it.nal != [] && it.nal[0] == u[0]
      requires |u| >= 2 ==> |it.nal| >= 2 && it.nal[1] == u[1]
      requires |u| < 2 ==> |it.nal| < 2
      requires e == NalEscape.Escape(out, 0) && out != [] && duration == it.duration && |slack| >= 4
      requires Transcode.PayloadType(u[0]) in {7, 8} ==> |e| < 0x1_0000
      requires Transcode.PayloadType(u[0]) !in {7, 8} ==> Transcode.UeIn(BitsOf(u[1..]), 0)
      modifies `needSps, `needPps, `needIdr, `vsps, `vpps, `puts
      ensures Matches(Noted(BookOf(items), it, out))
      ensures ok == Accepts(sequential, BookOf(items), it, out)
    {
      hide NalEscape.Escape, BookOf, BitsOf, Transcode.UeIn, Added, Mp4Open.ListOf, Mp4Open.Nals;
      ghost var b := BookOf(items);
      var payloadType := u[0] % 32;
      if payloadType == 7 {
        EscapedAdded(b.sps, out);
        vsps := AppendMem(vsps, e, Escaped(b.sps));
        needSps := false;
        return true;
      }
      if payloadType == 8 {
        if needSps {
          return false;
        }
        EscapedAdded(b.pps, out);
        vpps := AppendMem(vpps, e, Escaped(b.pps));
        needPps := false;
        return true;
      }
      if needSps {
        return false;
      }
      if payloadType == 5 {
        needIdr := false;
      }
      ok := true;
      if !needPps && !needIdr {
        var start := StartsPicture(u, slack);
        var kind := if !start then Continuation else if payloadType == 5 then RandomAccess else Plain;
        var put := Put(0, U32(|e|) + e, duration, kind);
        assert put == PutOf(it, out);
        ok := sequential || !Refused(puts, put);
        puts := puts + [put];
      }
    }

    /** mp4_h26x_write_nal: the units of a buffer one after the other, up to the first one that is
        refused. */
    method WriteNal(h: seq<Byte>, beyond: Byte, duration: nat, slack: seq<Byte>) returns (ok: bool)
      requires Valid() && Bounded(h, 0, beyond) && AllProper(Units(h, 0)) && |slack| >= 4
      requires Manageable(After(sequential, items, Units(h, 0), duration).0)
      modifies this, patcher.spsCache, patcher.ppsCache, patcher.mapSps, patcher.mapPps
      ensures Valid() && (items, ok) == After(sequential, old(items), Units(h, 0), duration)
    {
      hide Valid, Units, NextCode, UnitAt, After, One, Proper, Manageable, AllFormed;
      ValidFormed();
      ghost var all, seen, before := Units(h, 0), [], items;
      var pos := 0;
      NothingBehind(all);
      NothingSeen(sequential, items, duration);
      while true
        invariant Valid() && AllFormed(items) && pos <= |h| && all == seen + Units(h, pos) && AllProper(seen)
        invariant (items, true) == After(sequential, before, seen, duration)
        decreases |h| - pos
      {
        var start, size := FindNalUnit(h, pos, beyond);
        UnitsFrom(h, pos, start, seen);
        if size == 0 { break; }
        var u := h[start..start + size];
        assert all[|seen|] == u;
        NextReady(sequential, before, all, seen, u, duration);
        ok := WriteUnit(u, duration, slack);
        ValidFormed();
        seen := seen + [u];
        if !ok {
          return;
        }
        pos := start + 1;
      }
      ok := true;
    }

    lemma ValidFormed()
      requires Valid()
      ensures AllFormed(items)
    {}
  }

  lemma NothingSeen(sequential: bool, items: seq<Item>, duration: nat)
    requires AllFormed(items)
    ensures After(sequential, items, [], duration) == (items, true)
  {}

  /** The next unit keeps the run manageable, and leads on from the run so far. */
  lemma NextReady(sequential: bool, items: seq<Item>, all: seq<seq<Byte>>, seen: seq<seq<Byte>>, u: seq<Byte>,
                  duration: nat)
    requires AllFormed(items) && AllProper(all) && seen + [u] <= all && AllProper(seen) && Proper(u)
    requires Manageable(After(sequential, items, all, duration).0) && After(sequential, items, seen, duration).1
    ensures var now := After(sequential, items, seen, duration).0;
            var one := One(sequential, now, u, duration);
            && AllProper(seen + [u]) && one == After(sequential, items, seen + [u], duration)
            && Manageable(one.0) && (!one.1 ==> one == After(sequential, items, all, duration))
  {
    hide AllFormed, Proper, One, Manageable;
    var m := |seen| + 1;
    assert all[..m] == seen + [u];
    assert (seen + [u])[..|seen|] == seen;
    AfterPrefix(sequential, items, all, duration, m);
    ManageablePrefix(After(sequential, items, seen + [u], duration).0, After(sequential, items, all, duration).0);
  }
}
