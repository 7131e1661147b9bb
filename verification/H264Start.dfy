/** What the first sample of an H.264 track in stream/minimp4.hpp is: an IDR picture, unless one
    came too early. */
module H264Start {
  import opened Seqs
  import opened Wrappers
  import opened Bits
  import opened H264Writer
  import T = Transcode

  /** The first unit that goes into a sample. */
  function FirstSampled(items: seq<Item>): (r: Option<nat>)
    requires AllFormed(items)
    ensures r.Some? ==> r.value < |items|
  {
    hide AllFormed, BookOf, Sampled;
    if items == [] then None
    else
      InitFormed(items);
      var k := |items| - 1;
      var before := FirstSampled(items[..k]);
      if before.Some? then before
      else if Sampled(BookOf(items[..k]), items[k].nal) then Some(k) else None
  }

  /** An IDR slice came when an SPS was there but no PPS: it is dropped, but counts as the picture
      to start with. */
  predicate IdrBeforePps(items: seq<Item>)
    requires AllFormed(items)
  {
    hide AllFormed, BookOf;
    items != [] &&
    (InitFormed(items);
     var k := |items| - 1;
     var b := BookOf(items[..k]);
     IdrBeforePps(items[..k]) || (T.PayloadType(items[k].nal[0]) == 5 && !b.needSps && b.needPps))
  }

  lemma BookParts(items: seq<Item>)
    requires AllFormed(items) && items != []
    ensures var k := |items| - 1;
            && AllFormed(items[..k]) && T.Formed(items[k].nal) && items[k].nal != []
            && BookOf(items) == Noted(BookOf(items[..k]), items[k], Out(items[..k], items[k].nal))
  {
    hide T.Formed, Noted, Out;
    InitFormed(items);
  }

  /** As long as nothing is put, an IDR picture is waited for unless it came before the PPS. */
  lemma {:induction false} StillWaiting(items: seq<Item>)
    requires AllFormed(items) && FirstSampled(items) == None
    ensures BookOf(items).needIdr <==> !IdrBeforePps(items)
  {
    hide AllFormed, BookOf, Out, T.Formed;
    if items == [] {
      NothingYet();
    } else {
      BookParts(items);
      StillWaiting(items[..|items| - 1]);
    }
  }

  lemma NothingYet()
    ensures AllFormed([]) && BookOf([]) == EMPTY && FirstSampled([]) == None
  {}

  /** The first unit in a sample belongs to an IDR picture, unless an IDR slice came before the
      first PPS. */
  lemma {:induction false} FirstIsIdr(items: seq<Item>, k: nat)
    requires AllFormed(items) && FirstSampled(items) == Some(k)
    ensures AllFormed(items[..k]) && items[k].nal != []
    ensures T.PayloadType(items[k].nal[0]) == 5 || IdrBeforePps(items[..k])
  {
    hide AllFormed, BookOf, T.Formed, IdrBeforePps;
    var n := |items| - 1;
    InitFormed(items);
    if FirstSampled(items[..n]).Some? {
      FirstIsIdr(items[..n], k);
      assert items[..n][..k] == items[..k];
    } else {
      StillWaiting(items[..n]);
    }
  }

  /** Once a unit has gone into a sample, nothing is waited for any more. */
  lemma {:induction false} NothingNeeded(items: seq<Item>)
    requires AllFormed(items) && FirstSampled(items).Some?
    ensures var b := BookOf(items); !b.needSps && !b.needPps && !b.needIdr
  {
    hide AllFormed, BookOf, Out, T.Formed;
    BookParts(items);
    if FirstSampled(items[..|items| - 1]).Some? {
      NothingNeeded(items[..|items| - 1]);
    }
  }

  /** From the first sample on every unit but the parameter sets goes into a sample. */
  lemma {:induction false} SampledFromThenOn(items: seq<Item>, f: nat, k: nat)
    requires AllFormed(items) && FirstSampled(items) == Some(f) && k < |items|
    ensures AllFormed(items[..k]) && items[k].nal != []
    ensures Sampled(BookOf(items[..k]), items[k].nal) <==> k >= f && T.PayloadType(items[k].nal[0]) !in {7, 8}
    decreases |items|
  {
    hide AllFormed, BookOf, T.Formed;
    var n := |items| - 1;
    InitFormed(items);
    if k < n {
      if FirstSampled(items[..n]).Some? {
        SampledFromThenOn(items[..n], f, k);
      } else {
        NoneSampled(items[..n], k);
      }
      assert items[..n][..k] == items[..k];
    } else if f < n {
      NothingNeeded(items[..n]);
    }
  }

  lemma {:induction false} NoneSampled(items: seq<Item>, k: nat)
    requires AllFormed(items) && FirstSampled(items) == None && k < |items|
    ensures AllFormed(items[..k]) && items[k].nal != [] && !Sampled(BookOf(items[..k]), items[k].nal)
    decreases |items|
  {
    hide AllFormed, BookOf, T.Formed, Sampled;
    var n := |items| - 1;
    InitFormed(items);
    if k < n {
      NoneSampled(items[..n], k);
      assert items[..n][..k] == items[..k];
    }
  }

  /** With both kinds of parameter sets there and nothing put, a unit of another picture is taken
      as the first one if and only if an IDR slice came before the first PPS. */
  lemma OtherFirstIff(items: seq<Item>, x: seq<Byte>)
    requires AllFormed(items) && FirstSampled(items) == None && !BookOf(items).needSps && !BookOf(items).needPps
    requires T.Formed(x) && T.PayloadType(x[0]) !in {5, 7, 8}
    ensures x != [] && (Sampled(BookOf(items), x) <==> IdrBeforePps(items))
  {
    hide AllFormed, BookOf, IdrBeforePps;
    StillWaiting(items);
  }

  /** An SPS, an IDR slice, the PPS, and a slice of another picture: that slice comes first. */
  lemma EarlyIdr(sps: Item, idr: Item, pps: Item, other: Item)
    requires T.Formed(sps.nal) && T.Formed(idr.nal) && T.Formed(pps.nal) && T.Formed(other.nal)
    requires T.PayloadType(sps.nal[0]) == 7 && T.PayloadType(idr.nal[0]) == 5 && T.PayloadType(pps.nal[0]) == 8
    requires T.PayloadType(other.nal[0]) == 1
    ensures AllFormed([sps, idr, pps, other]) && FirstSampled([sps, idr, pps, other]) == Some(3)
  {
    hide AllFormed, BookOf, T.Formed, Out, FirstSampled, Noted;
    EarlyThree(sps, idr, pps);
    assert [sps, idr, pps] + [other] == [sps, idr, pps, other];
    OneMore([sps, idr, pps], other);
  }

  lemma EarlyThree(sps: Item, idr: Item, pps: Item)
    requires T.Formed(sps.nal) && T.Formed(idr.nal) && T.Formed(pps.nal)
    requires T.PayloadType(sps.nal[0]) == 7 && T.PayloadType(idr.nal[0]) == 5 && T.PayloadType(pps.nal[0]) == 8
    ensures AllFormed([sps, idr, pps]) && FirstSampled([sps, idr, pps]) == None
    ensures var b := BookOf([sps, idr, pps]); !b.needSps && !b.needPps && !b.needIdr
  {
    hide AllFormed, BookOf, T.Formed, Out, FirstSampled;
    assert [] + [sps] == [sps] && [sps] + [idr] == [sps, idr] && [sps, idr] + [pps] == [sps, idr, pps];
    NothingYet();
    OneMore([], sps);
    OneMore([sps], idr);
    OneMore([sps, idr], pps);
  }

  lemma OneMore(items: seq<Item>, it: Item)
    requires AllFormed(items) && T.Formed(it.nal)
    ensures AllFormed(items + [it]) && it.nal != []
    ensures BookOf(items + [it]) == Noted(BookOf(items), it, Out(items, it.nal))
    ensures FirstSampled(items + [it]) ==
              if FirstSampled(items).Some? then FirstSampled(items)
              else if Sampled(BookOf(items), it.nal) then Some(|items|) else None
  {
    hide AllFormed, BookOf, Out, Noted, Sampled;
    BookSnoc(items, it);
    assert (items + [it])[..|items|] == items;
    InitFormed(items + [it]);
  }
}
