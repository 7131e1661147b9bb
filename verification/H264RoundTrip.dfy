/** From an H.264 stream to a file of stream/minimp4.hpp and back: every slice that is read from
    the file finds, among the parameter sets that are read from it, what its id meant in the
    stream. */
module H264RoundTrip {
  import opened Seqs
  import opened Wrappers
  import opened Bits
  import opened Mp4Bytes
  import opened Mp4Boxes
  import opened Mp4Samples
  import opened Mp4Direct
  import opened Mp4Sets
  import opened AnnexB
  import opened H264Writer
  import H264Start
  import BitReader
  import Mp4Open
  import Mp4RoundTrip
  import NalEscape
  import T = Transcode

  // ---------------------------------------------------------------- the parameter sets kept

  predicate AllSps(l: seq<seq<Byte>>)
    ensures AllSps(l) ==> T.AllFormed(l)
  {
    forall x | x in l :: T.Formed(x) && T.Parse(x).Sps?
  }

  predicate AllPps(l: seq<seq<Byte>>)
    ensures AllPps(l) ==> T.AllFormed(l)
  {
    forall x | x in l :: T.Formed(x) && T.Parse(x).Pps?
  }

  lemma {:induction false} SpsThere(l: seq<seq<Byte>>, x: seq<Byte>)
    requires AllSps(l) && x in l
    ensures T.Parse(x).id in T.Held(l).sps
  {
    hide T.Formed, T.Parse;
    var n := |l| - 1;
    if l[n] != x {
      SpsThere(l[..n], x);
    }
  }

  lemma {:induction false} PpsThere(l: seq<seq<Byte>>, x: seq<Byte>)
    requires AllPps(l) && x in l
    ensures T.Parse(x).id in T.Held(l).pps
  {
    hide T.Formed, T.Parse;
    var n := |l| - 1;
    if l[n] != x {
      PpsThere(l[..n], x);
    }
  }

  lemma HeldSnoc(l: seq<seq<Byte>>, x: seq<Byte>)
    requires T.AllFormed(l) && T.Formed(x)
    ensures T.AllFormed(l + [x]) && T.Held(l + [x]) == T.Receive(T.Held(l), x)
  {
    hide T.Formed, T.Receive;
    assert (l + [x])[..|l|] == l;
  }

  lemma SameSps(t: T.Table, u: T.Table, x: seq<Byte>)
    requires T.Formed(x) && T.Parse(x).Sps? && t.sps == u.sps
    ensures T.Receive(t, x).sps == T.Receive(u, x).sps && T.Receive(t, x).pps == t.pps
  {
    hide T.Formed, T.Parse, T.Kept;
  }

  lemma SamePps(t: T.Table, u: T.Table, x: seq<Byte>)
    requires T.Formed(x) && T.Parse(x).Pps? && t.pps == u.pps
    ensures T.Receive(t, x).pps == T.Receive(u, x).pps && T.Receive(t, x).sps == t.sps
  {
    hide T.Formed, T.Parse, T.Kept;
  }

  /** A set whose id is taken is the one that has it. */
  lemma OldSet(t: T.Table, x: seq<Byte>)
    requires T.Formed(x) && T.Extends(t, T.Receive(t, x))
    ensures T.Parse(x).Sps? && T.Parse(x).id in t.sps ==> T.Receive(t, x) == t
    ensures T.Parse(x).Pps? && T.Parse(x).id in t.pps ==> T.Receive(t, x) == t
  {
    hide T.Formed, T.Parse, T.Kept;
  }

  /** An SPS that is listed already says nothing new. */
  lemma AddSps(t: T.Table, l: seq<seq<Byte>>, x: seq<Byte>)
    requires AllSps(l) && T.Formed(x) && T.Parse(x).Sps? && t.sps == T.Held(l).sps && T.Extends(t, T.Receive(t, x))
    ensures AllSps(Added(l, x)) && T.Held(Added(l, x)).sps == T.Receive(t, x).sps
  {
    hide T.Formed, T.Parse, T.Held, T.Receive, T.Extends;
    if x in l {
      SpsThere(l, x);
      OldSet(t, x);
    } else {
      HeldSnoc(l, x);
      SameSps(t, T.Held(l), x);
    }
  }

  lemma AddPps(t: T.Table, l: seq<seq<Byte>>, x: seq<Byte>)
    requires AllPps(l) && T.Formed(x) && T.Parse(x).Pps? && t.pps == T.Held(l).pps && T.Extends(t, T.Receive(t, x))
    ensures AllPps(Added(l, x)) && T.Held(Added(l, x)).pps == T.Receive(t, x).pps
  {
    hide T.Formed, T.Parse, T.Held, T.Receive, T.Extends;
    if x in l {
      PpsThere(l, x);
      OldSet(t, x);
    } else {
      HeldSnoc(l, x);
      SamePps(t, T.Held(l), x);
    }
  }

  /** What a decoder holds that has been given both lists. */
  lemma {:induction false} HeldJoin(sps: seq<seq<Byte>>, pps: seq<seq<Byte>>)
    requires AllSps(sps) && AllPps(pps)
    ensures T.AllFormed(sps + pps) && T.Held(sps + pps) == T.Table(T.Held(sps).sps, T.Held(pps).pps)
  {
    hide T.Formed, T.Parse;
    if pps == [] {
      assert sps + pps == sps;
      NoPps(sps);
    } else {
      var n := |pps| - 1;
      HeldJoin(sps, pps[..n]);
      assert (sps + pps)[..|sps + pps| - 1] == sps + pps[..n];
    }
  }

  lemma {:induction false} NoPps(sps: seq<seq<Byte>>)
    requires AllSps(sps)
    ensures T.Held(sps).pps == map[]
  {
    hide T.Formed, T.Parse;
    if sps != [] {
      NoPps(sps[..|sps| - 1]);
    }
  }

  function Outs(items: seq<Item>): (outs: seq<seq<Byte>>)
    requires H264Writer.AllFormed(items)
    ensures |outs| == |items|
  {
    T.Run(NalsOf(items)).1
  }

  /** The muxer has every parameter set that a decoder of the output holds, and no other. */
  ghost predicate Collected(items: seq<Item>)
    requires H264Writer.AllFormed(items) && T.AllFormed(Outs(items))
  {
    var b, t := BookOf(items), T.Held(Outs(items));
    && AllSps(b.sps) && AllPps(b.pps) && t == T.Table(T.Held(b.sps).sps, T.Held(b.pps).pps)
    && (b.needSps <==> b.sps == []) && (b.needSps ==> b.puts == [])
    && (b.needSps ==> T.BoundAfter(NalsOf(items)).sps == map[])
  }

  /** The kinds of units by their first byte, which the transcoder keeps. */
  lemma Kinds(nal: seq<Byte>)
    requires T.Formed(nal)
    ensures nal != [] && (T.Parse(nal).Sps? <==> T.PayloadType(nal[0]) == 7)
    ensures T.Parse(nal).Pps? <==> T.PayloadType(nal[0]) == 8
    ensures T.Parse(nal).Slice? <==> T.PayloadType(nal[0]) in {1, 2, 5}
  {
    hide T.SpsFormed, T.PpsFormed, T.SliceFormed;
  }

  /** What one more unit adds on both sides. */
  lemma CollectedStep(items: seq<Item>, it: Item, out: seq<Byte>, t: T.Table, bound: T.Bound)
    requires H264Writer.AllFormed(items) && T.AllFormed(Outs(items)) && Collected(items)
    requires t == T.Held(Outs(items)) && bound == T.BoundAfter(NalsOf(items))
    requires T.Formed(it.nal) && T.Formed(out) && it.nal[0] == out[0] && T.Known(bound, it.nal)
    requires T.Extends(t, T.Receive(t, out))
    ensures var b, u := Noted(BookOf(items), it, out), T.Receive(t, out);
            && AllSps(b.sps) && AllPps(b.pps) && u == T.Table(T.Held(b.sps).sps, T.Held(b.pps).pps)
            && (b.needSps <==> b.sps == []) && (b.needSps ==> b.puts == [])
            && (b.needSps ==> T.Bind(bound, it.nal).sps == map[])
  {
    hide T.Formed, T.Parse, T.Held, T.Receive, T.Extends, BookOf, AllSps, AllPps, Added, Sampled, PutOf, T.Bind;
    hide H264Writer.AllFormed, T.AllFormed, T.Known, T.Run, NalsOf;
    var b := BookOf(items);
    Kinds(it.nal);
    Kinds(out);
    if T.Parse(out).Sps? {
      AddSps(t, b.sps, out);
      SameSps(t, t, out);
    } else if T.Parse(out).Pps? {
      SpsCame(b, bound, it.nal);
      AddPps(t, b.pps, out);
      SamePps(t, t, out);
    } else {
      NothingReceived(t, out);
      NothingBound(bound, it.nal);
    }
  }

  lemma SpsCame(b: Book, bound: T.Bound, nal: seq<Byte>)
    requires T.Formed(nal) && T.Parse(nal).Pps? && T.Known(bound, nal) && (b.needSps ==> bound.sps == map[])
    ensures !b.needSps
  {
    hide T.Formed, T.Parse;
  }

  lemma NothingReceived(t: T.Table, out: seq<Byte>)
    requires T.Formed(out) && !T.Parse(out).Sps? && !T.Parse(out).Pps?
    ensures T.Receive(t, out) == t
  {
    hide T.Formed, T.Parse;
  }

  lemma NothingBound(b: T.Bound, nal: seq<Byte>)
    requires T.Formed(nal) && !T.Parse(nal).Sps?
    ensures T.Bind(b, nal).sps == b.sps
  {
    hide T.Formed, T.Parse;
  }

  lemma RunParts(items: seq<Item>)
    requires T.Admissible(NalsOf(items)) && items != []
    ensures var n := |items| - 1;
            var init, last := items[..n], items[n];
            && NalsOf(items) == NalsOf(init) + [last.nal] && T.Admissible(NalsOf(init)) && T.Complete(last.nal)
            && T.Known(T.BoundAfter(NalsOf(init)), last.nal)
            && H264Writer.AllFormed(init) && H264Writer.AllFormed(items)
            && Outs(items) == Outs(init) + [Out(init, last.nal)] && Out(init, last.nal) != []
            && BookOf(items) == Noted(BookOf(init), last, Out(init, last.nal))
            && T.BoundAfter(NalsOf(items)) == T.Bind(T.BoundAfter(NalsOf(init)), last.nal)
            && Out(init, last.nal)[0] == last.nal[0]
  {
    hide T.Formed, T.Step, T.Parse, T.Known, T.Bind, Noted, T.Complete, T.Admissible, T.Run, BookOf, NalsOf;
    hide T.BoundAfter;
    var n := |items| - 1;
    var init, last := items[..n], items[n];
    NalsSnoc(init, last);
    assert init + [last] == items && (NalsOf(init) + [last.nal])[..n] == NalsOf(init);
    T.LastStep(NalsOf(items));
    CompleteFormed(last.nal);
    BookSnoc(init, last);
    BoundSnoc(NalsOf(init), last.nal);
    SameType(T.Run(NalsOf(init)).0, last.nal);
  }

  lemma BoundSnoc(nals: seq<seq<Byte>>, nal: seq<Byte>)
    requires T.AllFormed(nals) && T.Formed(nal)
    ensures T.AllFormed(nals + [nal]) && T.BoundAfter(nals + [nal]) == T.Bind(T.BoundAfter(nals), nal)
  {
    hide T.Formed, T.Bind;
    assert (nals + [nal])[..|nals|] == nals;
  }

  /** What the decoder of the output has before and after the last unit. */
  lemma TableParts(items: seq<Item>)
    requires T.Admissible(NalsOf(items)) && items != []
    ensures var n := |items| - 1;
            var init, last := items[..n], items[n];
            && H264Writer.AllFormed(init) && H264Writer.AllFormed(items) && T.Formed(last.nal)
            && T.AllFormed(Outs(init)) && T.AllFormed(Outs(items))
            && var t, out := T.Held(Outs(init)), Out(init, last.nal);
            && T.Formed(out) && T.Held(Outs(items)) == T.Receive(t, out) && T.Extends(t, T.Receive(t, out))
  {
    hide T.Formed, T.Step, T.Parse, T.Known, T.Bind, Noted, T.Complete, T.Inv, T.Extends, T.Receive, T.SetMeans;
    hide T.SliceMeans, T.Admissible, T.Run, T.AllFormed, T.AllComplete, H264Writer.AllFormed, T.Held, T.BoundAfter;
    RunParts(items);
    var n := |items| - 1;
    var init, last := items[..n], items[n];
    T.RunKeeps(NalsOf(items));
    T.RunKeeps(NalsOf(init));
    CompleteFormed(last.nal);
    var r, out := T.Run(NalsOf(init)), Out(init, last.nal);
    T.StepKeeps(r.0, T.BoundAfter(NalsOf(init)), T.Held(r.1), last.nal, T.Step(r.0, last.nal).0, out);
    CompleteFormed(out);
    HeldSnoc(Outs(init), out);
  }

  lemma CompleteFormed(nal: seq<Byte>)
    requires T.Complete(nal)
    ensures T.Formed(nal)
  {}

  lemma {:induction false} CollectedIs(items: seq<Item>)
    requires T.Admissible(NalsOf(items))
    ensures H264Writer.AllFormed(items) && T.AllFormed(Outs(items)) && Collected(items)
  {
    hide T.Formed, T.Parse, T.Known, T.Extends, T.Receive, T.Bind, Noted, T.Admissible, T.AllFormed, AllSps, AllPps;
    hide H264Writer.AllFormed, T.Held, BookOf, T.BoundAfter, T.Run, Out;
    if items == [] {
      NothingCollected();
    } else {
      var n := |items| - 1;
      var init, last := items[..n], items[n];
      RunParts(items);
      TableParts(items);
      CollectedIs(init);
      CollectedStep(init, last, Out(init, last.nal), T.Held(Outs(init)), T.BoundAfter(NalsOf(init)));
    }
  }

  lemma NothingCollected()
    ensures H264Writer.AllFormed([]) && T.AllFormed(Outs([])) && Collected([])
  {}

  // ---------------------------------------------------------------- a stream of escaped units

  /** Units as an encoder makes them, with a type other than 0 and 9: parameter sets, slices, and
      others that begin with a code. */
  predicate Encoded(n: seq<Byte>) {
    && T.Formed(n) && n[0] % 32 != 0 && T.PayloadType(n[0]) != 9
    && (T.PayloadType(n[0]) in {7, 8} || T.UeIn(BitsOf(n[1..]), 0))
  }

  function Given(ns: seq<seq<Byte>>, duration: nat): (items: seq<Item>)
    ensures |items| == |ns| && forall k | 0 <= k < |ns| :: items[k] == Item(ns[k], duration)
  {
    if ns == [] then [] else Given(ns[..|ns| - 1], duration) + [Item(ns[|ns| - 1], duration)]
  }

  /** Escaping leaves the first three bytes alone, behind a first byte other than 0. */
  lemma EscapeStart(n: seq<Byte>)
    requires n != [] && n[0] != 0
    ensures var e := NalEscape.Escape(n, 0);
            e[0] == n[0] && (|n| >= 2 ==> e[1] == n[1]) && (|n| >= 3 ==> |e| >= 3 && e[2] == n[2])
  {
    hide NalEscape.Run;
    NonZeroRun(n[0]);
    assert NalEscape.Escape(n, 0) == [n[0]] + NalEscape.Escape(n[1..], 0);
    if |n| >= 2 {
      var z := NalEscape.Run(0, n[1]);
      RunBound(n[1]);
      assert NalEscape.Escape(n[1..], 0) == [n[1]] + NalEscape.Escape(n[1..][1..], z);
      if |n| >= 3 {
        assert NalEscape.Escape(n[1..][1..], z)[0] == n[2];
      }
    }
  }

  lemma NonZeroRun(b: Byte)
    requires b != 0
    ensures NalEscape.Run(0, b) == 0
  {}

  lemma RunBound(b: Byte)
    ensures NalEscape.Run(0, b) <= 1
  {}

  /** A code that begins in the first two bytes is found in a longer string with the same two. */
  lemma CodeStart(d: seq<bool>, e: seq<bool>)
    requires T.UeIn(d, 0) && |d| <= |e|
    requires forall j | 0 <= j < 16 && j < |d| :: e[j] == d[j]
    ensures T.UeIn(e, 0)
  {
    var z := BitReader.LeadingZeros(d, 0);
    ZerosAre(d, 0);
    BitReader.LeadingZerosAre(e, 0, z);
  }

  lemma {:induction false} ZerosAre(d: seq<bool>, p: nat)
    requires p <= |d| && p + BitReader.LeadingZeros(d, p) < |d|
    ensures var z := BitReader.LeadingZeros(d, p); d[p + z] && forall j | p <= j < p + z :: !d[j]
    decreases |d| - p
  {
    if !d[p] {
      ZerosAre(d, p + 1);
    }
  }

  lemma EncodedProper(n: seq<Byte>)
    requires Encoded(n)
    ensures Proper(NalEscape.Escape(n, 0)) && T.PayloadType(NalEscape.Escape(n, 0)[0]) != 9
  {
    hide T.Formed, NalEscape.Escape, NalEscape.Unescape, T.UeIn, BitsOf;
    FormedSome(n);
    NalEscape.UnescapeEscape(n, 0);
    EscapeStart(n);
    var e := NalEscape.Escape(n, 0);
    if T.PayloadType(n[0]) !in {7, 8} {
      forall j | 0 <= j < 16 && j < |BitsOf(n[1..])| ensures BitsOf(e[1..])[j] == BitsOf(n[1..])[j] {
        SameBits(n, e, j);
      }
      CodeStart(BitsOf(n[1..]), BitsOf(e[1..]));
    }
  }

  lemma FormedSome(n: seq<Byte>)
    requires T.Formed(n)
    ensures n != []
  {}

  lemma SameBits(n: seq<Byte>, e: seq<Byte>, j: nat)
    requires 0 < |n| <= |e| && j < 16 && j < 8 * (|n| - 1)
    requires (|n| >= 2 ==> e[1] == n[1]) && (|n| >= 3 ==> e[2] == n[2])
    ensures BitsOf(e[1..])[j] == BitsOf(n[1..])[j]
  {
    hide BitsOf;
    var m := if |n| >= 3 then 3 else 2;
    assert n[1..] == n[1..m] + n[m..] && e[1..] == e[1..m] + e[m..] && n[1..m] == e[1..m];
    BitsOfJoin(n[1..m], n[m..]);
    BitsOfJoin(e[1..m], e[m..]);
  }

  /** A stream that nal_put_esc wrote is taken as the units it was written from. */
  lemma {:induction false} StreamTaken(sequential: bool, items: seq<Item>, ns: seq<seq<Byte>>, duration: nat)
    requires H264Writer.AllFormed(items) && forall n | n in ns :: Encoded(n)
    ensures AllProper(Escaped(ns))
    ensures var r := H264Writer.After(sequential, items, Escaped(ns), duration);
            r.1 ==> r.0 == items + Given(ns, duration)
  {
    hide Encoded, Proper, H264Writer.AllFormed, NalEscape.Escape, NalEscape.Unescape, One;
    if ns == [] {
      NothingBehind(items);
    } else {
      var k := |ns| - 1;
      assert ns == ns[..k] + [ns[k]] && ns[k] in ns;
      EscapedSnoc(ns[..k], ns[k]);
      EncodedProper(ns[k]);
      StreamTaken(sequential, items, ns[..k], duration);
      var e := NalEscape.Escape(ns[k], 0);
      assert Escaped(ns)[..k] == Escaped(ns[..k]);
      var before := H264Writer.After(sequential, items, Escaped(ns[..k]), duration);
      NextOf(sequential, before.0, e, duration);
      NalEscape.UnescapeEscape(ns[k], 0);
      Assoc(items, Given(ns[..k], duration), [Item(ns[k], duration)]);
    }
  }

  // ---------------------------------------------------------------- pictures

  /** The units of each sample: a unit that starts a picture, and those that go on with it. */
  function Pictures(items: seq<Item>): (pics: seq<seq<nat>>)
    requires H264Writer.AllFormed(items)
  {
    hide H264Writer.AllFormed, BookOf, Sampled;
    if items == [] then []
    else
      InitFormed(items);
      var k := |items| - 1;
      var before := Pictures(items[..k]);
      if Sampled(BookOf(items[..k]), items[k].nal) then Grown(before, k, FromFirstMb(items[k].nal)) else before
  }

  /** Unit k starts a picture, or goes on with the last one; without one it is in none. */
  function Grown(pics: seq<seq<nat>>, k: nat, starts: bool): seq<seq<nat>> {
    if starts then pics + [[k]]
    else if pics == [] then []
    else pics[..|pics| - 1] + [pics[|pics| - 1] + [k]]
  }

  predicate Within(ks: seq<nat>, n: nat) {
    forall j | 0 <= j < |ks| :: ks[j] < n
  }

  function Picked(outs: seq<seq<Byte>>, ks: seq<nat>): (r: seq<seq<Byte>>)
    requires Within(ks, |outs|)
    ensures |r| == |ks| && forall j | 0 <= j < |ks| :: r[j] == outs[ks[j]]
  {
    if ks == [] then [] else Picked(outs, ks[..|ks| - 1]) + [outs[ks[|ks| - 1]]]
  }

  /** Units in a sample, one behind the other. */
  function Frames(units: seq<seq<Byte>>): seq<Byte> {
    if units == [] then [] else Framed(units[0]) + Frames(units[1..])
  }

  lemma {:induction false} FramesSnoc(units: seq<seq<Byte>>, x: seq<Byte>)
    ensures Frames(units + [x]) == Frames(units) + Framed(x)
  {
    hide Framed;
    if units == [] {
      assert units + [x] == [x] && [x][1..] == [];
      assert Frames([x]) == Framed(x) + Frames([]);
      NothingBehind(Framed(x));
    } else {
      assert (units + [x])[1..] == units[1..] + [x];
      FramesSnoc(units[1..], x);
      Assoc(Framed(units[0]), Frames(units[1..]), Framed(x));
    }
  }

  lemma PickedMore(outs: seq<seq<Byte>>, out: seq<Byte>, ks: seq<nat>)
    requires Within(ks, |outs|)
    ensures Within(ks, |outs| + 1) && Picked(outs + [out], ks) == Picked(outs, ks)
  {}

  lemma PickedSnoc(outs: seq<seq<Byte>>, ks: seq<nat>, k: nat)
    requires Within(ks, |outs|) && k < |outs|
    ensures Within(ks + [k], |outs|) && Frames(Picked(outs, ks + [k])) == Frames(Picked(outs, ks)) + Framed(outs[k])
  {
    hide Framed;
    assert (ks + [k])[..|ks|] == ks;
    FramesSnoc(Picked(outs, ks), outs[k]);
  }

  /** The samples put are the pictures, made of rewritten units. */
  ghost predicate Made(puts: seq<Put>, pics: seq<seq<nat>>, outs: seq<seq<Byte>>) {
    && (forall p | p in puts :: p.track == 0) && Consists(Samples(puts, 0), pics, outs)
  }

  ghost predicate Consists(samples: seq<seq<Byte>>, pics: seq<seq<nat>>, outs: seq<seq<Byte>>) {
    && |samples| == |pics|
    && forall i | 0 <= i < |pics| :: Within(pics[i], |outs|) && samples[i] == Frames(Picked(outs, pics[i]))
  }

  lemma {:induction false} MadeIs(items: seq<Item>)
    requires T.Admissible(NalsOf(items))
    ensures H264Writer.AllFormed(items) && Made(BookOf(items).puts, Pictures(items), Outs(items))
  {
    hide T.Formed, T.Known, T.Bind, T.Admissible, BookOf, T.BoundAfter, T.Run, Out, Outs, H264Writer.AllFormed;
    hide Made, Noted, Sampled, Grown;
    if items == [] {
      NothingMade();
    } else {
      RunParts(items);
      InitFormed(items);
      var n := |items| - 1;
      var init, last := items[..n], items[n];
      MadeIs(init);
      MadeStep(BookOf(init), Pictures(init), Outs(init), last, Out(init, last.nal));
    }
  }

  lemma NothingMade()
    ensures H264Writer.AllFormed([]) && Made(BookOf([]).puts, Pictures([]), Outs([]))
  {}

  lemma MadeStep(b: Book, pics: seq<seq<nat>>, outs: seq<seq<Byte>>, last: Item, out: seq<Byte>)
    requires last.nal != [] && Made(b.puts, pics, outs)
    ensures Made(Noted(b, last, out).puts,
                 if Sampled(b, last.nal) then Grown(pics, |outs|, FromFirstMb(last.nal)) else pics, outs + [out])
  {
    hide Consists, Framed, Samples, Added, Grown;
    OldPictures(outs, out, pics, Samples(b.puts, 0));
    if Sampled(b, last.nal) {
      Snoc(b.puts, PutOf(last, out), 0);
      GrownIs(outs + [out], pics, Samples(b.puts, 0), |outs|, FromFirstMb(last.nal));
    }
  }

  lemma OldPictures(outs: seq<seq<Byte>>, out: seq<Byte>, pics: seq<seq<nat>>, samples: seq<seq<Byte>>)
    requires Consists(samples, pics, outs)
    ensures Consists(samples, pics, outs + [out])
  {
    hide Within, Picked, Frames;
    forall i | 0 <= i < |pics|
      ensures Within(pics[i], |outs| + 1) && Picked(outs + [out], pics[i]) == Picked(outs, pics[i]) {
      PickedMore(outs, out, pics[i]);
    }
  }

  /** A unit that starts or goes on with a picture, in the samples. */
  lemma GrownIs(outs: seq<seq<Byte>>, pics: seq<seq<nat>>, samples: seq<seq<Byte>>, k: nat, starts: bool)
    requires k < |outs| && Consists(samples, pics, outs)
    ensures var n := |samples| - 1;
            Consists(if starts then samples + [Framed(outs[k])]
                     else if samples == [] then [] else samples[..n] + [samples[n] + Framed(outs[k])],
                     Grown(pics, k, starts), outs)
  {
    hide Framed, Picked, Frames;
    if starts {
      PickedNone(outs);
      PickedSnoc(outs, [], k);
      assert [] + [k] == [k];
      NothingBehind(Framed(outs[k]));
    } else if pics != [] {
      PickedSnoc(outs, pics[|pics| - 1], k);
    }
  }

  lemma PickedNone(outs: seq<seq<Byte>>)
    ensures Frames(Picked(outs, [])) == []
  {}

  // ---------------------------------------------------------------- random access points

  /** A slice begins a picture, for the writer, exactly if it begins with macroblock 0. */
  lemma BeginsIff(nal: seq<Byte>)
    requires T.Formed(nal) && T.Parse(nal).Slice?
    ensures FromFirstMb(nal) <==> T.Parse(nal).firstMb == 0
  {
    hide BitReader.UeAt, BitReader.LeadingZeros, BitReader.UeValue, BitsOf, T.UeIn, T.UeEnd;
    Kinds(nal);
    ZeroCode(BitsOf(nal[1..]));
    if |nal| >= 2 {
      FirstBit(nal);
    } else {
      NoBitsLeft(nal);
    }
  }

  /** The i-th sample begins with the first unit of the i-th picture and has its duration; it is a
      random access point exactly if that unit has payload type 5. */
  ghost predicate Begun(starts: seq<Put>, pics: seq<seq<nat>>, items: seq<Item>) {
    && |starts| == |pics|
    && forall i | 0 <= i < |pics| :: pics[i] != [] && pics[i][0] < |items| && BeginsWith(starts[i], items[pics[i][0]])
  }

  predicate BeginsWith(p: Put, it: Item) {
    && it.nal != [] && p.duration == it.duration && p.kind != Continuation
    && (p.kind == RandomAccess <==> T.PayloadType(it.nal[0]) == 5)
  }

  /** The first of the units named has payload type 5. */
  predicate BeginsIdr(nals: seq<seq<Byte>>, ks: seq<nat>) {
    ks != [] && ks[0] < |nals| && nals[ks[0]] != [] && nals[ks[0]][0] % 32 == 5
  }

  /** The duration given with the first of the units named, or another for 0. */
  function LengthGiven(items: seq<Item>, ks: seq<nat>, other: nat): nat {
    if ks != [] && ks[0] < |items| && items[ks[0]].duration != 0 then items[ks[0]].duration else other
  }

  lemma BegunAt(starts: seq<Put>, pics: seq<seq<nat>>, items: seq<Item>, i: nat, info: Info)
    requires Begun(starts, pics, items) && i < |pics|
    ensures |starts| == |pics| && (starts[i].kind == RandomAccess <==> BeginsIdr(NalsOf(items), pics[i]))
    ensures Mp4Samples.Length(starts[i], info) == LengthGiven(items, pics[i], info.defaultDuration)
  {
    assert BeginsWith(starts[i], items[pics[i][0]]);
  }

  lemma {:induction false} BegunIs(items: seq<Item>)
    requires T.Admissible(NalsOf(items))
    ensures H264Writer.AllFormed(items) && Begun(Starts(BookOf(items).puts, 0), Pictures(items), items)
  {
    hide T.Formed, T.Known, T.Bind, T.Admissible, BookOf, T.BoundAfter, T.Run, Out, Outs, H264Writer.AllFormed;
    hide Begun, Noted, Sampled, Grown, Starts;
    if items == [] {
      NothingBegun();
    } else {
      RunParts(items);
      InitFormed(items);
      var n := |items| - 1;
      var init, last := items[..n], items[n];
      BegunIs(init);
      MadeIs(init);
      assert init + [last] == items;
      BegunStep(BookOf(init), Pictures(init), init, last, Out(init, last.nal));
    }
  }

  lemma NothingBegun()
    ensures H264Writer.AllFormed([]) && Begun(Starts(BookOf([]).puts, 0), Pictures([]), [])
  {}

  lemma BegunStep(b: Book, pics: seq<seq<nat>>, items: seq<Item>, last: Item, out: seq<Byte>)
    requires last.nal != [] && Begun(Starts(b.puts, 0), pics, items)
    ensures Begun(Starts(Noted(b, last, out).puts, 0),
                  if Sampled(b, last.nal) then Grown(pics, |items|, FromFirstMb(last.nal)) else pics, items + [last])
  {
    hide Framed, Starts, Added, Begun, Grown, BeginsWith;
    OldBegun(Starts(b.puts, 0), pics, items, last);
    if Sampled(b, last.nal) {
      var p := PutOf(last, out);
      StartsSnoc(b.puts, p, 0);
      NothingBehind(Starts(b.puts, 0));
      if FromFirstMb(last.nal) {
        NewBegun(Starts(b.puts, 0), pics, items, last, p);
      } else {
        SameBegun(Starts(b.puts, 0), pics, items + [last], |items|);
      }
    }
  }

  lemma OldBegun(starts: seq<Put>, pics: seq<seq<nat>>, items: seq<Item>, last: Item)
    requires Begun(starts, pics, items)
    ensures Begun(starts, pics, items + [last])
  {
    hide BeginsWith;
  }

  lemma NewBegun(starts: seq<Put>, pics: seq<seq<nat>>, items: seq<Item>, last: Item, p: Put)
    requires Begun(starts, pics, items + [last]) && last.nal != [] && p.duration == last.duration
    requires p.kind == KindOf(last.nal) && FromFirstMb(last.nal)
    ensures Begun(starts + [p], Grown(pics, |items|, true), items + [last])
  {
    hide BeginsWith;
    var all, ps := items + [last], starts + [p];
    assert BeginsWith(p, last) by { KindSays(p, last); }
    forall i | 0 <= i < |ps| ensures BeginsWith(ps[i], all[(pics + [[|items|]])[i][0]]) {
    }
  }

  lemma KindSays(p: Put, it: Item)
    requires it.nal != [] && p.duration == it.duration && p.kind == KindOf(it.nal) && FromFirstMb(it.nal)
    ensures BeginsWith(p, it)
  {}

  lemma SameBegun(starts: seq<Put>, pics: seq<seq<nat>>, items: seq<Item>, k: nat)
    requires Begun(starts, pics, items)
    ensures Begun(starts, Grown(pics, k, false), items)
  {
    hide BeginsWith;
  }

  /** Each picture has a first unit, which begins with macroblock 0, and no other unit of it does. */
  ghost predicate Shaped(pics: seq<seq<nat>>, items: seq<Item>) {
    && (forall i | 0 <= i < |pics| :: pics[i] != [])
    && forall i, j | 0 <= i < |pics| && 0 <= j < |pics[i]| ::
      pics[i][j] < |items| && (FromFirstMb(items[pics[i][j]].nal) <==> j == 0)
  }

  lemma {:induction false} ShapedIs(items: seq<Item>)
    requires H264Writer.AllFormed(items)
    ensures Shaped(Pictures(items), items)
  {
    hide H264Writer.AllFormed, BookOf, Sampled, Grown, Shaped;
    if items == [] {
      assert Shaped([], []) by { NothingShaped(); }
    } else {
      var k := |items| - 1;
      InitFormed(items);
      ShapedIs(items[..k]);
      ShapedStep(Pictures(items[..k]), items, k);
    }
  }

  lemma NothingShaped()
    ensures Shaped([], [])
  {}

  lemma ShapedStep(pics: seq<seq<nat>>, items: seq<Item>, k: nat)
    requires |items| == k + 1 && Shaped(pics, items[..k])
    ensures Shaped(pics, items) && Shaped(Grown(pics, k, FromFirstMb(items[k].nal)), items)
  {
    hide FromFirstMb;
    var more := Grown(pics, k, FromFirstMb(items[k].nal));
    forall i, j | 0 <= i < |pics| && 0 <= j < |pics[i]|
      ensures pics[i][j] < k && (FromFirstMb(items[pics[i][j]].nal) <==> j == 0) {
      assert items[..k][pics[i][j]] == items[pics[i][j]];
    }
  }

  predicate InPicture(pics: seq<seq<nat>>, k: nat) {
    exists i :: 0 <= i < |pics| && k in pics[i]
  }

  lemma GrownHas(pics: seq<seq<nat>>, k: nat, starts: bool, x: nat)
    requires starts || pics != []
    ensures InPicture(Grown(pics, k, starts), x) <==> InPicture(pics, x) || x == k
  {
    var more, n := Grown(pics, k, starts), |pics|;
    if x == k {
      assert k in more[if starts then n else n - 1];
    }
    if InPicture(pics, x) {
      var i :| 0 <= i < n && x in pics[i];
      assert x in more[i];
    }
    forall i | 0 <= i < |more| && x in more[i] ensures InPicture(pics, x) || x == k {
      if i < n {
        assert x in pics[i] || x == k;
      }
    }
  }

  /** From the first sample on, if it begins a picture, the pictures hold every unit but the
      parameter sets. */
  lemma {:induction false} AllInPictures(items: seq<Item>, f: nat, k: nat)
    requires H264Writer.AllFormed(items) && H264Start.FirstSampled(items) == Some(f) && k < |items|
    requires FromFirstMb(items[f].nal)
    ensures items[k].nal != [] && Pictures(items) != []
    ensures InPicture(Pictures(items), k) <==> k >= f && T.PayloadType(items[k].nal[0]) !in {7, 8}
    decreases |items|
  {
    hide H264Writer.AllFormed, BookOf, Sampled, Grown, InPicture, T.Formed;
    var n := |items| - 1;
    InitFormed(items);
    H264Start.SampledFromThenOn(items, f, n);
    H264Start.SampledFromThenOn(items, f, k);
    var before := Pictures(items[..n]);
    if f < n {
      AllInPictures(items[..n], f, 0);
      if k < n {
        AllInPictures(items[..n], f, k);
      } else {
        NotYetIn(items[..n], n);
      }
    } else {
      EmptyPictures(items[..n]);
      NotYetIn(items[..n], k);
    }
    if Sampled(BookOf(items[..n]), items[n].nal) {
      GrownHas(before, n, FromFirstMb(items[n].nal), k);
      GrownSome(before, n, FromFirstMb(items[n].nal));
    }
  }

  lemma GrownSome(pics: seq<seq<nat>>, k: nat, starts: bool)
    requires starts || pics != []
    ensures Grown(pics, k, starts) != []
  {}

  lemma {:induction false} EmptyPictures(items: seq<Item>)
    requires H264Writer.AllFormed(items) && H264Start.FirstSampled(items) == None
    ensures Pictures(items) == []
  {
    hide H264Writer.AllFormed, BookOf, Sampled, Grown, T.Formed;
    if items != [] {
      InitFormed(items);
      EmptyPictures(items[..|items| - 1]);
    }
  }

  lemma NotYetIn(items: seq<Item>, k: nat)
    requires H264Writer.AllFormed(items) && (k >= |items| || Pictures(items) == [])
    ensures !InPicture(Pictures(items), k)
  {
    hide H264Writer.AllFormed, Pictures;
    ShapedIs(items);
  }

  // ---------------------------------------------------------------- reading

  lemma FramesHead(data: seq<Byte>, units: seq<seq<Byte>>)
    requires data == Frames(units) && forall u | u in units :: |NalEscape.Escape(u, 0)| < WORD
    ensures data == [] <==> units == []
    ensures units != [] ==>
              var e := NalEscape.Escape(units[0], 0);
              && |data| >= 4 && Value32(data[..4]) == |e| && 4 + |e| <= |data| && data[4..4 + |e|] == e
              && data[4 + |e|..] == Frames(units[1..])
  {
    hide NalEscape.Escape, U32, Value32;
    if units != [] {
      assert units[0] in units;
      var e := NalEscape.Escape(units[0], 0);
      var n, rest := U32(|e|), Frames(units[1..]);
      SplitTriple(n, e, rest);
      Assoc(n, e, rest);
      Middle(n, e, rest);
      Value32OfU32(|e|);
    }
  }

  /** The units of a sample, by their lengths and without their escapes. */
  method ReadUnits(data: seq<Byte>, ghost units: seq<seq<Byte>>) returns (r: seq<seq<Byte>>)
    requires data == Frames(units) && forall u | u in units :: u != [] && |NalEscape.Escape(u, 0)| < WORD
    ensures r == units
  {
    hide Frames, NalEscape.Escape, NalEscape.Unescape, Value32;
    r := [];
    var rest := data;
    ghost var k := 0;
    FramesHead(rest, units[k..]) by { assert units[0..] == units; }
    while rest != []
      invariant k <= |units| && r == units[..k] && rest == Frames(units[k..]) && (rest == [] <==> units[k..] == [])
      decreases |rest|
    {
      FramesHead(rest, units[k..]);
      NalEscape.UnescapeEscape(units[k], 0);
      var size := Value32(rest[..4]);
      var nal := Unescaped(rest[4..4 + size]);
      r := r + [nal.value];
      rest := rest[4 + size..];
      assert units[k..][1..] == units[k + 1..];
      k := k + 1;
      FramesHead(rest, units[k..]);
    }
  }

  /** All sets of one kind, without their escapes. */
  method ReadSets(dsi: seq<Byte>, ppsFlag: bool, ghost sps: seq<seq<Byte>>, ghost pps: seq<seq<Byte>>)
    returns (r: seq<seq<Byte>>)
    requires Mp4Open.Nals(Escaped(sps)) && Mp4Open.Nals(Escaped(pps)) && |sps| <= 31 && |pps| <= 255
    requires dsi == KeptSets(Escaped(sps), Escaped(pps))
    ensures r == if ppsFlag then pps else sps
  {
    hide NalEscape.Escape, NalEscape.Unescape, KeptSets;
    ghost var all := if ppsFlag then pps else sps;
    r := [];
    var e := ReadSet(dsi, ppsFlag, 0, Escaped(sps), Escaped(pps));
    while e.Some?
      invariant |r| <= |all| && r == all[..|r|]
      invariant e == if |r| < |all| then Some(Escaped(all)[|r|]) else None
      decreases |all| - |r|
    {
      EscapedAt(all, |r|);
      NalEscape.UnescapeEscape(all[|r|], 0);
      assert Escaped(all)[|r|] in Escaped(all);
      var nal := Unescaped(e.value);
      r := r + [nal.value];
      e := ReadSet(dsi, ppsFlag, |r|, Escaped(sps), Escaped(pps));
    }
  }

  // ---------------------------------------------------------------- the whole way

  lemma MeansExtends(b: T.Bound, nal: seq<Byte>, t: T.Table, u: T.Table, out: seq<Byte>)
    requires T.SliceMeans(b, nal, t, out) && T.Extends(t, u)
    ensures T.SliceMeans(b, nal, u, out)
  {
    hide T.Formed, T.Parse, T.Kept;
  }

  /** A rewritten slice finds its meaning among all the sets of the run, not only those in front
      of it. */
  lemma SliceAmongAll(nals: seq<seq<Byte>>, k: nat)
    requires T.Admissible(nals) && k < |nals| && T.Parse(nals[k]).Slice?
    ensures T.AllFormed(nals[..k]) && T.AllFormed(T.Run(nals).1)
    ensures T.SliceMeans(T.BoundAfter(nals[..k]), nals[k], T.Held(T.Run(nals).1), T.Run(nals).1[k])
  {
    hide T.Formed, T.Parse, T.Admissible, T.BoundAfter, T.Held, T.SliceMeans, T.Extends, T.Run, T.AllFormed, T.Complete;
    hide T.AllComplete;
    var outs := T.Run(nals).1;
    T.EverySliceResolves(nals, k);
    T.RunPrefix(nals, k);
    T.IdsAreNeverReused(nals, k, |nals|);
    assert outs[..|nals|] == outs;
    AllPrefix(outs, k);
    MeansExtends(T.BoundAfter(nals[..k]), nals[k], T.Held(outs[..k]), T.Held(outs), outs[k]);
  }

  lemma AllPrefix(outs: seq<seq<Byte>>, k: nat)
    requires T.AllFormed(outs) && k <= |outs|
    ensures T.AllFormed(outs[..k])
  {
    hide T.Formed;
  }

  /** Bytes of one track only are always behind bytes of that track. */
  lemma {:induction false} OneTrack(puts: seq<Put>)
    requires forall p | p in puts :: p.track == 0
    ensures Adjacent(puts) && (Samples(puts, 0) != [] ==> Tight(puts, 0))
  {
    if puts != [] {
      OneTrack(puts[..|puts| - 1]);
    }
  }

  /** An SPS has its three bytes, its id and a stop bit behind the first byte. */
  lemma LongSps(x: seq<Byte>)
    requires T.Formed(x) && T.Parse(x).Sps?
    ensures |NalEscape.Escape(x, 0)| >= 5
  {
    hide T.UeIn, BitReader.UeValue, BitsOf, NalEscape.Escape;
    Kinds(x);
  }

  lemma LongList(sps: seq<seq<Byte>>)
    requires AllSps(sps) && sps != []
    ensures |Mp4Open.ListOf(Escaped(sps))| >= 7
  {
    hide NalEscape.Escape, T.Formed, T.Parse;
    assert sps[0] in sps;
    LongSps(sps[0]);
  }

  /** A video track as mp4_h26x_write_init adds it. */
  predicate VideoTrack(info: Info) {
    info.media == Video && info.objectType == AVC && info.timeScale > 0 && |info.language| >= 3
  }

  lemma TrackReadable(info: Info, b: Book, puts: seq<Put>)
    requires VideoTrack(info) && AllSps(b.sps) && b.sps != [] && |b.sps| <= 31 && |b.pps| <= 255
    requires Mp4Open.Nals(Escaped(b.sps)) && Mp4Open.Nals(Escaped(b.pps))
    ensures var vsps, vpps := Mp4Open.ListOf(Escaped(b.sps)), Mp4Open.ListOf(Escaped(b.pps));
            var c := Config(info, vsps, vpps);
            && Writable(c) && Describable([c], puts) && Mp4RoundTrip.AllReadable([c], puts)
            && Mp4Open.ConfigRead(Indexed(info, [], vsps, vpps)) == KeptSets(Escaped(b.sps), Escaped(b.pps))
  {
    hide Mp4Open.ListOf, Mp4Open.Nals, Mp4Open.ConfigRead, Mp4Open.Legible, NalEscape.Escape, AllSps, Samples;
    LongList(b.sps);
    var t := Indexed(info, [], Mp4Open.ListOf(Escaped(b.sps)), Mp4Open.ListOf(Escaped(b.pps)));
    Mp4Open.ListsRead(t, Escaped(b.sps), Escaped(b.pps));
  }

  /** Every unit of a sample fits its length field. */
  lemma {:induction false} UnitsFit(units: seq<seq<Byte>>)
    requires |Frames(units)| < WORD
    ensures forall u | u in units :: |NalEscape.Escape(u, 0)| < WORD
  {
    hide NalEscape.Escape;
    if units != [] {
      UnitsFit(units[1..]);
    }
  }

  lemma PickedFit(sequential: bool, configs: seq<Config>, puts: seq<Put>, comment: Option<seq<Byte>>, i: nat,
                  units: seq<seq<Byte>>)
    requires Mp4RoundTrip.FieldsFit(sequential, configs, puts, comment) && i < |Samples(puts, 0)|
    requires Samples(puts, 0)[i] == Frames(units)
    ensures forall u | u in units :: |NalEscape.Escape(u, 0)| < WORD
  {
    hide Samples, Lead, Frames, NalEscape.Escape;
    assert if sequential then |Whole(Samples(puts, 0), Lead(puts, 0), i)| + 8 < WORD - 1
           else |Samples(puts, 0)[i]| < WORD;
    UnitsFit(units);
  }

  /** If unit k of the stream is a slice, what has become of it names, for a decoder with the sets
      t, what its own PPS id named when it came. */
  ghost predicate Resolves(nals: seq<seq<Byte>>, k: nat, t: T.Table, out: seq<Byte>)
    requires T.AllFormed(nals) && k < |nals|
  {
    hide T.Parse, T.SliceMeans, T.BoundAfter, T.AllFormed;
    AllPrefix(nals, k);
    UnitFormed(nals, k);
    T.Parse(nals[k]).Slice? ==> T.SliceMeans(T.BoundAfter(nals[..k]), nals[k], t, out)
  }

  lemma UnitFormed(nals: seq<seq<Byte>>, k: nat)
    requires T.AllFormed(nals) && k < |nals|
    ensures T.Formed(nals[k])
  {
    hide T.Formed;
    assert nals[k] in nals;
  }

  /** The units picked are there, and the slices among them mean what they did. */
  lemma PickedMean(items: seq<Item>, ks: seq<nat>)
    requires T.Admissible(NalsOf(items)) && H264Writer.AllFormed(items) && Within(ks, |items|)
    ensures T.AllFormed(Outs(items)) && forall u | u in Picked(Outs(items), ks) :: u != []
    ensures forall j | 0 <= j < |ks| :: Resolves(NalsOf(items), ks[j], T.Held(Outs(items)), Outs(items)[ks[j]])
  {
    hide T.Formed, T.Parse, T.Admissible, T.BoundAfter, T.Held, T.SliceMeans, T.Run, NalsOf, T.AllFormed, T.Complete;
    hide T.Inv, T.Known, T.Step, T.AllComplete, Resolves;
    T.RunKeeps(NalsOf(items));
    forall j | 0 <= j < |ks|
      ensures Outs(items)[ks[j]] != []
      ensures Resolves(NalsOf(items), ks[j], T.Held(Outs(items)), Outs(items)[ks[j]]) {
      OneMeans(NalsOf(items), ks[j]);
    }
  }

  lemma OneMeans(nals: seq<seq<Byte>>, k: nat)
    requires T.Admissible(nals) && k < |nals|
    ensures T.AllFormed(nals) && T.AllFormed(T.Run(nals).1) && T.Run(nals).1[k] != []
    ensures Resolves(nals, k, T.Held(T.Run(nals).1), T.Run(nals).1[k])
  {
    hide T.Formed, T.Parse, T.Admissible, T.BoundAfter, T.Held, T.SliceMeans, T.Run, T.AllFormed, T.Complete;
    hide T.Inv, T.Known, T.Step, T.AllComplete;
    T.RunKeeps(nals);
    T.At(nals, k);
    CompleteFormed(nals[k]);
    if T.Parse(nals[k]).Slice? {
      SliceAmongAll(nals, k);
    }
  }

  /** What has been written with mp4_h26x_write_nal is put into a file, and that is opened: the
      i-th sample read from it holds the rewritten units of the i-th picture, it is listed as a
      random access point exactly if its first unit has payload type 5, and for a decoder that is
      given the parameter sets read from it, each slice names what its PPS id named in the stream
      when it came. */
  method PictureRoundTrip(w: H26xWriter, info: Info, comment: Option<seq<Byte>>, i: nat)
    returns (units: seq<seq<Byte>>, sync: bool, duration: nat, sps: seq<seq<Byte>>, pps: seq<seq<Byte>>)
    requires w.Valid() && VideoTrack(info) && i < |Pictures(w.items)|
    requires w.sequential && i == 0 ==> Lead(w.puts, 0) == []
    requires |BookOf(w.items).sps| <= 31 && |BookOf(w.items).pps| <= 255
    requires Mp4RoundTrip.FieldsFit(w.sequential, [Config(info, w.vsps, w.vpps)], w.puts, comment)
    ensures AllSps(sps) && AllPps(pps) && T.AllFormed(sps + pps) && T.AllFormed(Outs(w.items))
    ensures T.Held(sps + pps) == T.Held(Outs(w.items))
    ensures var ks := Pictures(w.items)[i];
            && Within(ks, |w.items|) && units == Picked(Outs(w.items), ks)
            && forall j | 0 <= j < |ks| :: Resolves(NalsOf(w.items), ks[j], T.Held(sps + pps), units[j])
    ensures sync <==> BeginsIdr(NalsOf(w.items), Pictures(w.items)[i])
    ensures duration == LengthGiven(w.items, Pictures(w.items)[i], info.defaultDuration)
  {
    hide T.Formed, T.Parse, T.Admissible, T.BoundAfter, T.Held, T.SliceMeans, T.Run, T.AllFormed, AllSps, AllPps;
    hide BookOf, Pictures, Samples, Lead, Picked, Frames, Mp4RoundTrip.FieldsFit, Adjacent, NalEscape.Escape, KeptSets;
    hide H264Writer.AllFormed, NalsOf, Mp4RoundTrip.AllReadable, Describable, Writable, Mp4Open.ConfigRead, Within;
    hide Mp4Open.ListOf, Mp4Open.Nals, Tight, Starts, Begun, BeginsIdr, LengthGiven;
    ghost var items, b := w.items, BookOf(w.items);
    CollectedIs(items);
    MadeIs(items);
    BegunIs(items);
    HeldJoin(b.sps, b.pps);
    OneTrack(w.puts);
    TrackReadable(info, b, w.puts);
    var config := Config(info, w.vsps, w.vpps);
    ghost var picked := Picked(Outs(items), Pictures(items)[i]);
    var data, timestamp, dsi;
    data, timestamp, duration, sync, dsi :=
      Mp4RoundTrip.SampleRoundTrip(w.sequential, [config], w.puts, comment, 0, i);
    PickedFit(w.sequential, [config], w.puts, comment, i, picked);
    PickedMean(items, Pictures(items)[i]);
    BegunAt(Starts(w.puts, 0), Pictures(items), items, i, info);
    units := ReadUnits(data, picked);
    sps := ReadSets(dsi, false, b.sps, b.pps);
    pps := ReadSets(dsi, true, b.sps, b.pps);
  }

  /** The whole way for one buffer: units are written as a byte stream, the stream into a file, and
      what is read from the file means what the units meant. */
  method StreamRoundTrip(ns: seq<seq<Byte>>, beyond: Byte, duration: nat, slack: seq<Byte>, sequential: bool,
                         info: Info, comment: Option<seq<Byte>>, i: nat)
    returns (units: seq<seq<Byte>>, sync: bool, sps: seq<seq<Byte>>, pps: seq<seq<Byte>>)
    requires VideoTrack(info) && |slack| >= 4 && Streamable(ns) && forall n | n in ns :: Encoded(n)
    requires var items := Given(ns, duration);
             && Manageable(items) && H264Writer.AllFormed(items) && AllProper(Escaped(ns))
             && H264Writer.After(sequential, [], Escaped(ns), duration).1
             && i < |Pictures(items)|
             && var b := BookOf(items);
             && |b.sps| <= 31 && |b.pps| <= 255 && (sequential && i == 0 ==> Lead(b.puts, 0) == [])
             && Mp4RoundTrip.FieldsFit(sequential, [Config(info, Mp4Open.ListOf(Escaped(b.sps)),
                                                           Mp4Open.ListOf(Escaped(b.pps)))], b.puts, comment)
    ensures AllSps(sps) && AllPps(pps) && T.AllFormed(sps + pps) && T.AllFormed(ns)
    ensures var ks := Pictures(Given(ns, duration))[i];
            && Within(ks, |ns|) && |units| == |ks|
            && (forall j | 0 <= j < |ks| :: Resolves(ns, ks[j], T.Held(sps + pps), units[j]))
            && (sync <==> BeginsIdr(ns, ks))
  {
    hide Encoded, BookOf, Pictures, Lead, H264Writer.AllFormed, Manageable, AllProper, Proper, H264Writer.After, Units;
    hide Resolves, Within, T.AllFormed, AllSps, AllPps, Mp4RoundTrip.FieldsFit, Escaped, Stream, NoCodeBefore, T.Held;
    hide H26xWriter.Valid, Given, NalsOf, Outs, Streamable, Mp4Open.ListOf, VideoTrack, Picked, BeginsIdr;
    var h := WriteStream(ns);
    UnitsOfStream(h, 0, 0, ns) by { StreamHead(h, ns); }
    var w := new H26xWriter(sequential);
    StreamTaken(sequential, [], ns, duration);
    NothingBehind(Given(ns, duration));
    GivenNals(ns, duration);
    var ok := w.WriteNal(h, beyond, duration, slack);
    WriterHas(w);
    var d;
    units, sync, d, sps, pps := PictureRoundTrip(w, info, comment, i);
  }

  lemma {:induction false} GivenNals(ns: seq<seq<Byte>>, duration: nat)
    ensures NalsOf(Given(ns, duration)) == ns
  {
    if ns != [] {
      var k := |ns| - 1;
      GivenNals(ns[..k], duration);
      NalsSnoc(Given(ns[..k], duration), Item(ns[k], duration));
      assert ns == ns[..k] + [ns[k]];
    }
  }

  lemma WriterHas(w: H26xWriter)
    requires w.Valid()
    ensures var b := BookOf(w.items);
            && w.puts == b.puts && w.vsps == Mp4Open.ListOf(Escaped(b.sps)) && w.vpps == Mp4Open.ListOf(Escaped(b.pps))
            && T.AllFormed(NalsOf(w.items))
  {
    hide BookOf, T.AllFormed;
  }

  // ---------------------------------------------------------------- such streams exist

  lemma GivenSnoc(ns: seq<seq<Byte>>, n: seq<Byte>, duration: nat)
    ensures Given(ns + [n], duration) == Given(ns, duration) + [Item(n, duration)]
  {
    assert (ns + [n])[..|ns|] == ns;
  }

  /** One more unit that the writer accepts. */
  lemma OneMoreTaken(sequential: bool, ns: seq<seq<Byte>>, n: seq<Byte>, duration: nat)
    requires forall x | x in ns + [n] :: Encoded(x)
    requires H264Writer.AllFormed(Given(ns, duration)) && AllProper(Escaped(ns))
    requires H264Writer.After(sequential, [], Escaped(ns), duration) == (Given(ns, duration), true)
    requires T.Formed(n) && n != []
    requires var items := Given(ns, duration);
             Accepts(sequential, BookOf(items), Item(n, duration), Out(items, n))
    ensures H264Writer.AllFormed(Given(ns + [n], duration)) && AllProper(Escaped(ns + [n]))
    ensures H264Writer.After(sequential, [], Escaped(ns + [n]), duration) == (Given(ns + [n], duration), true)
    ensures var items := Given(ns, duration);
            && BookOf(Given(ns + [n], duration)) == Noted(BookOf(items), Item(n, duration), Out(items, n))
            && Pictures(Given(ns + [n], duration)) ==
                 if Sampled(BookOf(items), n) then Grown(Pictures(items), |ns|, FromFirstMb(n)) else Pictures(items)
  {
    hide Encoded, Proper, H264Writer.AllFormed, NalEscape.Escape, NalEscape.Unescape, One, T.Formed, T.Parse, BookOf;
    hide Out, Accepts, Noted, Sampled, Grown;
    var items, it := Given(ns, duration), Item(n, duration);
    GivenSnoc(ns, n, duration);
    assert (items + [it])[..|items|] == items && n in ns + [n];
    BookSnoc(items, it);
    EscapedSnoc(ns, n);
    EncodedProper(n);
    var e := NalEscape.Escape(n, 0);
    assert Escaped(ns + [n])[..|ns|] == Escaped(ns);
    NextOf(sequential, items, e, duration);
    NalEscape.UnescapeEscape(n, 0);
  }

  /** An SPS, a PPS that names it, and the slice that begins an IDR picture make a stream of the
      kind the theorems speak of, whatever their content. */
  lemma OnePicture(sequential: bool, a: seq<Byte>, b: seq<Byte>, c: seq<Byte>, duration: nat)
    requires T.Complete(a) && T.Complete(b) && T.Complete(c) && Encoded(a) && Encoded(b) && Encoded(c)
    requires T.Parse(a).Sps? && T.Parse(b).Pps? && T.Parse(c).Slice? && T.PayloadType(c[0]) == 5 && FromFirstMb(c)
    requires T.Parse(b).spsId == T.Parse(a).id && T.Parse(c).ppsId == T.Parse(b).id
    ensures var items := Given([a, b, c], duration);
            && T.Admissible(NalsOf(items)) && H264Writer.AllFormed(items) && AllProper(Escaped([a, b, c]))
            && H264Writer.After(sequential, [], Escaped([a, b, c]), duration) == (items, true)
            && Pictures(items) == [[2]] && Lead(BookOf(items).puts, 0) == []
            && |BookOf(items).sps| == 1 && |BookOf(items).pps| == 1
  {
    hide Encoded, T.Complete, T.Formed, T.Parse, T.Admissible, H264Writer.AllFormed, AllProper, H264Writer.After;
    hide BookOf, Pictures, Out, Lead;
    GivenNals([a, b, c], duration);
    T.SpsPpsSlice(a, b, c);
    CompleteFormed(a);
    CompleteFormed(b);
    CompleteFormed(c);
    Kinds(a);
    Kinds(b);
    Kinds(c);
    NothingTaken(sequential, duration);
    assert [] + [a] == [a] && [a] + [b] == [a, b] && [a, b] + [c] == [a, b, c];
    OneMoreTaken(sequential, [], a, duration);
    OneMoreTaken(sequential, [a], b, duration);
    OneMoreTaken(sequential, [a, b], c, duration);
    var p := PutOf(Item(c, duration), Out(Given([a, b], duration), c));
    FirstPut(p);
    FirstPicture(p);
  }

  lemma FirstPicture(p: Put)
    ensures Grown([], 2, true) == [[2]] && [] + [p] == [p]
  {}

  lemma NothingTaken(sequential: bool, duration: nat)
    ensures H264Writer.AllFormed(Given([], duration)) && AllProper(Escaped([]))
    ensures H264Writer.After(sequential, [], Escaped([]), duration) == (Given([], duration), true)
    ensures BookOf(Given([], duration)) == EMPTY && Pictures(Given([], duration)) == []
  {}

  lemma FirstPut(p: Put)
    requires p.kind != Continuation
    ensures Lead([p], 0) == []
  {
    assert [p][..0] == [];
  }
}
