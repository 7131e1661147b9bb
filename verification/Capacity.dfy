/** When the caches of the transcoder suffice: a condition on the parameter sets of the input
    alone. */
module Capacity {
  import opened Bits
  import opened BitWriter
  import opened BitReader
  import opened Transcode

  /** Every unit is complete and every PPS names an SPS already received. */
  predicate Proper(nals: seq<seq<Byte>>)
    ensures Proper(nals) ==> AllFormed(nals)
  {
    nals == [] ||
    var init, last := nals[..|nals| - 1], nals[|nals| - 1];
    && Proper(init) && Complete(last) && Known(BoundAfter(init), last)
    && assert forall n | n in nals :: n in init || n == last; true
  }

  /** The different contents of SPS, apart from their ids. */
  function SpsContents(nals: seq<seq<Byte>>): set<SpsBody>
    requires AllFormed(nals)
  {
    if nals == [] then {}
    else
      var init, last := nals[..|nals| - 1], nals[|nals| - 1];
      SpsContents(init) + if Parse(last).Sps? then {SpsOf(last)} else {}
  }

  /** The different contents of PPS, each with the SPS content it was bound to on arrival. */
  function PpsContents(nals: seq<seq<Byte>>): set<BoundPps>
    requires Proper(nals)
  {
    if nals == [] then {}
    else
      var init, last := nals[..|nals| - 1], nals[|nals| - 1];
      PpsContents(init) + if Parse(last).Pps? then {Carried(BoundAfter(init), last)} else {}
  }

  function Carried(b: Bound, nal: seq<Byte>): BoundPps
    requires Formed(nal) && Parse(nal).Pps? && Known(b, nal)
  {
    BoundPps(b.sps[Parse(nal).spsId], Kept(Parse(nal).rest))
  }

  /** The PPS a decoder holds, with their SPS. */
  function BoundHeld(t: Table): map<nat, BoundPps>
    requires Named(t)
  {
    map n | n in t.pps :: BoundPps(t.sps[t.pps[n].spsId], t.pps[n].body)
  }

  // ---------------------------------------------------------------- counting

  lemma ValuesAdd<T>(m: map<nat, T>, k: nat, v: T)
    requires k in m ==> m[k] == v
    ensures m[k := v].Values == m.Values + {v}
  {
    var r := m[k := v];
    forall x | x in m.Values ensures x in r.Values {
      var n :| n in m && m[n] == x;
      assert r[n] == x;
    }
    assert r[k] == v;
  }

  predicate Injective<T(==)>(m: map<nat, T>) {
    forall i, j | i in m && j in m :: m[i] == m[j] ==> i == j
  }

  lemma {:induction false} CountValues<T>(m: map<nat, T>)
    requires Injective(m)
    ensures |m.Values| == |m.Keys|
    decreases |m|
  {
    if m.Keys == {} {
      assert m.Values == {};
    } else {
      var k :| k in m;
      var less := m - {k};
      assert less.Keys == m.Keys - {k};
      CountValues(less);
      assert m == less[k := m[k]];
      ValuesAdd(less, k, m[k]);
      assert m[k] !in less.Values;
    }
  }

  lemma {:induction false} FewKeys(s: set<nat>, n: nat)
    requires forall k | k in s :: k < n
    ensures |s| <= n && (|s| == n ==> forall k: nat | k < n :: k in s)
  {
    if n > 0 {
      var less := s - {n - 1};
      FewKeys(less, n - 1);
      assert n - 1 in s ==> s == less + {n - 1};
      assert n - 1 !in s ==> s == less;
    } else {
      assert s == {};
    }
  }

  /** A cache is full exactly if as many entries as it has slots are held. */
  lemma FullCache(cache: seq<seq<Byte>>, keys: set<nat>)
    requires forall n: nat :: n in keys <==> n < |cache| && cache[n] != []
    ensures |keys| <= |cache| && (|keys| < |cache| <==> [] in cache)
  {
    FewKeys(keys, |cache|);
    if [] in cache {
      var n :| 0 <= n < |cache| && cache[n] == [];
      assert n !in keys;
    } else if |keys| < |cache| {
      AllKeys(|cache|, keys);
    }
  }

  lemma {:induction false} AllKeys(n: nat, s: set<nat>)
    requires forall k: nat | k < n :: k in s
    ensures |s| >= n
  {
    if n > 0 {
      AllKeys(n - 1, s - {n - 1});
    }
  }

  // ---------------------------------------------------------------- one unit

  lemma NewSps(t: Table, nal: seq<Byte>, out: seq<Byte>)
    requires Formed(nal) && Parse(nal).Sps? && Formed(out) && Parse(out).Sps? && SpsOf(out) == SpsOf(nal)
    requires Named(t) && Extends(t, Receive(t, out))
    ensures Receive(t, out).pps == t.pps && Named(Receive(t, out))
    ensures Receive(t, out).sps.Values == t.sps.Values + {SpsOf(nal)}
    ensures BoundHeld(Receive(t, out)) == BoundHeld(t)
  {
    hide Parse, Formed, Kept;
    ValuesAdd(t.sps, Parse(out).id, SpsOf(out));
  }

  lemma NewPps(b: Bound, t: Table, nal: seq<Byte>, out: seq<Byte>)
    requires Formed(nal) && Parse(nal).Pps? && Known(b, nal) && Formed(out) && Parse(out).Pps?
    requires Named(t) && Named(Receive(t, out)) && Extends(t, Receive(t, out))
    requires var u := Receive(t, out); Same(u, Parse(out).id, Carried(b, nal))
    ensures Receive(t, out).sps == t.sps
    ensures BoundHeld(Receive(t, out)).Values == BoundHeld(t).Values + {Carried(b, nal)}
  {
    hide Parse, Formed, Kept, Carried, Known;
    var u, id := Receive(t, out), Parse(out).id;
    assert BoundHeld(u) == BoundHeld(t)[id := Carried(b, nal)];
    ValuesAdd(BoundHeld(t), id, Carried(b, nal));
  }

  /** The PPS just received, as the invariant resolves it. */
  lemma JustBound(st: State, b: Bound, u: Table, nal: seq<Byte>, out: seq<Byte>)
    requires Formed(nal) && Parse(nal).Pps? && Known(b, nal) && Inv(st, Bind(b, nal), u)
    requires Formed(out) && SetMeans(st, nal, out)
    ensures Parse(out).id in u.pps && Same(u, Parse(out).id, Carried(b, nal))
  {
    hide Parse, Formed, Kept, SpsMirror, PpsMirror, Distinct, SpsResolves, Named, PpsOf, Same;
  }

  lemma NamedIn(st: State, b: Bound, t: Table)
    requires Inv(st, b, t)
    ensures Named(t) && Sized(st)
  {}

  lemma StepKinds(st: State, b: Bound, t: Table, nal: seq<Byte>, out: seq<Byte>)
    requires Sized(st) && Formed(nal) && Formed(out) && out == Step(st, nal).1 && out != []
    requires !Parse(nal).Sps? && !Parse(nal).Pps? && (Parse(nal).Slice? ==> SliceMeans(b, nal, t, out))
    ensures Receive(t, out) == t
  {
    hide Parse, Formed, Kept, Pack, SliceCode;
  }

  lemma SpsGives(st: State, b: Bound, t: Table, nal: seq<Byte>, out: seq<Byte>, st': State)
    requires Inv(st, b, t) && Complete(nal) && Known(b, nal) && (st', out) == Step(st, nal) && out != []
    requires Parse(nal).Sps?
    ensures Formed(out) && Parse(out).Sps? && SpsOf(out) == SpsOf(nal) && Named(t) && Extends(t, Receive(t, out))
  {
    hide Parse, Formed, Step, Kept, SpsMirror, PpsMirror, Distinct, Known, Stopped, Receive, Bind, SpsOf, Named;
    hide Extends, SpsResolves, PpsResolves, SliceMeans, PpsOf;
    StepKeeps(st, b, t, nal, st', out);
  }

  lemma PpsGives(st: State, b: Bound, t: Table, nal: seq<Byte>, out: seq<Byte>, st': State)
    requires Inv(st, b, t) && Complete(nal) && Known(b, nal) && (st', out) == Step(st, nal) && out != []
    requires Parse(nal).Pps?
    ensures Formed(out) && Parse(out).Pps? && Named(t) && Named(Receive(t, out)) && Extends(t, Receive(t, out))
    ensures Same(Receive(t, out), Parse(out).id, Carried(b, nal))
  {
    hide Parse, Formed, Step, Kept, Inv, Known, Stopped, Receive, Bind, SpsOf, Named, Extends, Same, Carried;
    hide SliceMeans, PpsOf;
    StepKeeps(st, b, t, nal, st', out);
    NamedIn(st, b, t);
    NamedIn(st', Bind(b, nal), Receive(t, out));
    JustBound(st', b, Receive(t, out), nal, out);
  }

  lemma OtherGives(st: State, b: Bound, t: Table, nal: seq<Byte>, out: seq<Byte>, st': State)
    requires Inv(st, b, t) && Complete(nal) && Known(b, nal) && (st', out) == Step(st, nal) && out != []
    requires !Parse(nal).Sps? && !Parse(nal).Pps?
    ensures Formed(out) && Named(t) && Receive(t, out) == t
  {
    hide Parse, Formed, Step, Kept, Inv, Known, Stopped, Receive, Bind, SpsOf, Named, Extends, SliceMeans, PpsOf;
    StepKeeps(st, b, t, nal, st', out);
    NamedIn(st, b, t);
    StepKinds(st, b, t, nal, out);
  }

  /** What a unit adds to the contents held is the content it carries. */
  lemma HeldStep(st: State, b: Bound, t: Table, nal: seq<Byte>, out: seq<Byte>, st': State)
    requires Inv(st, b, t) && Complete(nal) && Known(b, nal) && (st', out) == Step(st, nal) && out != []
    ensures Formed(out) && Named(t) && Named(Receive(t, out))
    ensures Receive(t, out).sps.Values == t.sps.Values + if Parse(nal).Sps? then {SpsOf(nal)} else {}
    ensures BoundHeld(Receive(t, out)).Values
         == BoundHeld(t).Values + if Parse(nal).Pps? then {Carried(b, nal)} else {}
  {
    hide Parse, Formed, Step, Kept, Inv, Known, Stopped, Receive, Bind, SpsOf, Carried, Named, Extends, Same, BoundHeld;
    if Parse(nal).Sps? {
      SpsGives(st, b, t, nal, out, st');
      NewSps(t, nal, out);
    } else if Parse(nal).Pps? {
      PpsGives(st, b, t, nal, out, st');
      NewPps(b, t, nal, out);
    } else {
      OtherGives(st, b, t, nal, out, st');
    }
  }

  // ---------------------------------------------------------------- runs

  /** A decoder of the output holds the contents of the input, each once. */
  lemma {:induction false} Contents(nals: seq<seq<Byte>>)
    requires Admissible(nals)
    ensures Proper(nals) && AllComplete(Run(nals).1) && Named(Held(Run(nals).1))
    ensures Held(Run(nals).1).sps.Values == SpsContents(nals)
    ensures BoundHeld(Held(Run(nals).1)).Values == PpsContents(nals)
  {
    hide Formed, Complete, Inv, Bind, Receive, Step, Known, Parse, SpsOf, Carried, Named, BoundHeld;
    RunKeeps(nals);
    NamedIn(Run(nals).0, BoundAfter(nals), Held(Run(nals).1));
    if nals == [] {
      NothingHeld();
    } else {
      var init, last := nals[..|nals| - 1], nals[|nals| - 1];
      Contents(init);
      RunKeeps(init);
      var outs, out := Run(init).1, Step(Run(init).0, last).1;
      assert Run(nals).1 == outs + [out] && (outs + [out])[..|outs|] == outs;
      HeldStep(Run(init).0, BoundAfter(init), Held(outs), last, out, Step(Run(init).0, last).0);
    }
  }

  lemma NothingHeld()
    ensures Named(NOTHING_HELD) && NOTHING_HELD.sps.Values == {} && BoundHeld(NOTHING_HELD).Values == {}
  {}

  /** The contents held are pairwise different, PPS also together with their SPS. */
  lemma HeldInjective(nals: seq<seq<Byte>>)
    requires Admissible(nals)
    ensures AllComplete(Run(nals).1) && Named(Held(Run(nals).1))
    ensures Injective(Held(Run(nals).1).sps) && Injective(BoundHeld(Held(Run(nals).1)))
  {
    hide Formed, Complete, Run, Admissible, Held;
    HeldDistinct(nals, |nals|);
    assert Run(nals).1[..|nals|] == Run(nals).1;
  }

  /** How many slots are taken. */
  lemma SlotsTaken(nals: seq<seq<Byte>>)
    requires Admissible(nals)
    ensures Proper(nals)
    ensures |SpsContents(nals)| <= MAX_SPS && (|SpsContents(nals)| < MAX_SPS ==> [] in Run(nals).0.sps)
    ensures |PpsContents(nals)| <= MAX_PPS && (|PpsContents(nals)| < MAX_PPS ==> [] in Run(nals).0.pps)
  {
    Contents(nals);
    HeldInjective(nals);
    RunKeeps(nals);
    var st, t := Run(nals).0, Held(Run(nals).1);
    hide Admissible, Proper, Run, Held, SpsContents, PpsContents, BoundHeld, Injective, SpsKey, PpsKey;
    CountValues(t.sps);
    CountValues(BoundHeld(t));
    BoundKeys(t);
    FullCache(st.sps, t.sps.Keys);
    FullCache(st.pps, t.pps.Keys);
  }

  lemma BoundKeys(t: Table)
    requires Named(t)
    ensures BoundHeld(t).Keys == t.pps.Keys
  {}

  /** An SPS whose content is cached is rewritten. */
  lemma SpsCachedFits(st: State, nal: seq<Byte>)
    requires Sized(st) && Formed(nal) && Parse(nal).Sps? && SpsKey(SpsOf(nal)) in st.sps
    ensures Step(st, nal).1 != []
  {
    FormedFields(nal);
    hide Parse, Formed, Kept, Slot, Pack, SpsCode, SpsKey;
    var n := Parse(nal);
    KeyOfSps(n.head, n.rest);
    KeySome(SpsOf(nal));
    SlotOfCached(st.sps, SpsKey(SpsOf(nal)));
  }

  lemma SlotOfCached(cache: seq<seq<Byte>>, mem: seq<Byte>)
    requires mem in cache && mem != []
    ensures Slot(cache, mem).Some?
  {}

  lemma KeySome(b: SpsBody)
    ensures SpsKey(b) != []
  {
    hide UeCode;
    assert |UeCode(0)| > 0 by { UeSome(0); }
  }

  lemma PpsKeySome(b: PpsBody)
    ensures PpsKey(b) != []
  {
    hide UeCode;
    assert |UeCode(0)| > 0 by { UeSome(0); }
  }

  lemma UeSome(v: nat)
    ensures UeCode(v) != []
  {
    SizeBound(v + 1);
  }

  lemma PpsCachedFits(st: State, nal: seq<Byte>)
    requires Sized(st) && Formed(nal) && Parse(nal).Pps? && PpsKey(PpsOf(st, nal)) in st.pps
    ensures Step(st, nal).1 != []
  {
    FormedFields(nal);
    hide Parse, Formed, Kept, Slot, Pack, PpsCode, PpsKey;
    var n := Parse(nal);
    KeyOfPps(st.mapSps[n.spsId], n.rest);
    PpsKeySome(PpsOf(st, nal));
    SlotOfCached(st.pps, PpsKey(PpsOf(st, nal)));
  }

  lemma SpsThere(cache: seq<seq<Byte>>, held: map<nat, SpsBody>, body: SpsBody)
    requires SpsMirror(cache, held) && body in held.Values
    ensures SpsKey(body) in cache
  {
    hide SpsKey;
    var n :| n in held && held[n] == body;
    assert cache[n] == SpsKey(body);
  }

  lemma PpsThere(st: State, b: Bound, t: Table, nal: seq<Byte>)
    requires Inv(st, b, t) && Formed(nal) && Parse(nal).Pps? && Known(b, nal) && Injective(t.sps)
    requires Carried(b, nal) in BoundHeld(t).Values
    ensures PpsKey(PpsOf(st, nal)) in st.pps
  {
    hide Parse, Formed, Kept, PpsKey, SpsMirror, Distinct, PpsResolves;
    var n :| n in BoundHeld(t) && BoundHeld(t)[n] == Carried(b, nal);
    assert t.pps[n] == PpsOf(st, nal);
    assert st.pps[n] == PpsKey(PpsOf(st, nal));
  }

  lemma MirrorIn(st: State, b: Bound, t: Table)
    requires Inv(st, b, t)
    ensures SpsMirror(st.sps, t.sps) && Sized(st)
  {}

  /** A unit is rewritten as long as the contents with its own fit the caches. */
  lemma StepFits(init: seq<seq<Byte>>, nal: seq<Byte>)
    requires Admissible(init) && Proper(init) && Complete(nal) && Known(BoundAfter(init), nal)
    requires Parse(nal).Sps? ==> SpsOf(nal) in SpsContents(init) || |SpsContents(init)| < MAX_SPS
    requires Parse(nal).Pps? ==> Carried(BoundAfter(init), nal) in PpsContents(init) || |PpsContents(init)| < MAX_PPS
    ensures Step(Run(init).0, nal).1 != []
  {
    RunKeeps(init);
    Contents(init);
    HeldInjective(init);
    SlotsTaken(init);
    var st, b, t := Run(init).0, BoundAfter(init), Held(Run(init).1);
    MirrorIn(st, b, t);
    hide Parse, Formed, Step, Inv, Known, Stopped, SpsOf, PpsOf, Carried, Admissible, Proper, Run, BoundAfter, Held;
    hide SpsContents, PpsContents, SpsMirror, Injective, BoundHeld, SpsKey, PpsKey, Named;
    if Parse(nal).Sps? && SpsOf(nal) in SpsContents(init) {
      SpsThere(st.sps, t.sps, SpsOf(nal));
      SpsCachedFits(st, nal);
    } else if Parse(nal).Pps? && Carried(b, nal) in PpsContents(init) {
      PpsThere(st, b, t, nal);
      PpsCachedFits(st, nal);
    } else {
      FreeSlot(st, nal);
    }
  }

  lemma Smaller<T>(a: set<T>, b: set<T>)
    requires a <= b
    ensures |a| <= |b|
  {
    assert b == a + (b - a);
  }

  lemma OneMore<T>(a: set<T>, x: T, n: nat)
    requires |a + {x}| <= n
    ensures |a| <= n && (x in a || |a| < n)
  {
    if x in a {
      assert a + {x} == a;
    }
  }

  /** A proper run overflows no cache if and only if it has at most 32 different contents of
      SPS and at most 256 of PPS. */
  lemma {:induction false} AdmissibleIff(nals: seq<seq<Byte>>)
    requires Proper(nals)
    ensures Admissible(nals) <==> |SpsContents(nals)| <= MAX_SPS && |PpsContents(nals)| <= MAX_PPS
  {
    hide Parse, Formed, Complete, Step, Known, SpsOf, Carried, BoundAfter, Run;
    if Admissible(nals) {
      SlotsTaken(nals);
    } else if nals != [] && |SpsContents(nals)| <= MAX_SPS && |PpsContents(nals)| <= MAX_PPS {
      var init, last := nals[..|nals| - 1], nals[|nals| - 1];
      Smaller(SpsContents(init), SpsContents(nals));
      Smaller(PpsContents(init), PpsContents(nals));
      AdmissibleIff(init);
      if Parse(last).Sps? {
        OneMore(SpsContents(init), SpsOf(last), MAX_SPS);
      }
      if Parse(last).Pps? {
        OneMore(PpsContents(init), Carried(BoundAfter(init), last), MAX_PPS);
      }
      StepFits(init, last);
      assert false;
    }
  }
}
