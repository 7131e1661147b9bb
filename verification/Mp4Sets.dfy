/** The parameter sets of a video track of stream/minimp4.hpp: how the muxer collects them and
    how they are read from what the demuxer keeps of an avcC box. */
module Mp4Sets {
  import opened Seqs
  import opened Wrappers
  import opened Bits
  import opened Mp4Bytes
  import opened Mp4Open

  /** A parameter set is listed once. */
  function Added(nals: seq<seq<Byte>>, x: seq<Byte>): (r: seq<seq<Byte>>)
    ensures x in r && forall n | n in r :: n in nals || n == x
  {
    if x in nals then nals else nals + [x]
  }

  lemma {:induction false} ListSnoc(nals: seq<seq<Byte>>, x: seq<Byte>)
    ensures ListOf(nals + [x]) == ListOf(nals) + U16(|x|) + x
  {
    hide U16;
    var n := U16(|x|);
    if nals == [] {
      assert nals + [x] == [x] && [x][1..] == [];
      assert ListOf([x]) == n + x + ListOf([]);
      NothingBehind(n + x);
    } else {
      assert (nals + [x])[1..] == nals[1..] + [x];
      ListSnoc(nals[1..], x);
      var first := U16(|nals[0]|) + nals[0];
      Assoc(first, ListOf(nals[1..]), n);
      Assoc(first, ListOf(nals[1..]) + n, x);
    }
  }

  /** append_mem: the list with the set behind it, unless it is there already. */
  method AppendMem(v: seq<Byte>, mem: seq<Byte>, ghost nals: seq<seq<Byte>>) returns (r: seq<Byte>)
    requires Nals(nals) && v == ListOf(nals) && 0 < |mem| < 0x1_0000
    ensures r == ListOf(Added(nals, mem)) && Nals(Added(nals, mem))
  {
    hide ListOf, U16;
    var i: nat := 0;
    ghost var k := 0;
    assert v[0..] == v && nals[0..] == nals;
    while i + 2 < |v|
      invariant k <= |nals| && i <= |v| && v[i..] == ListOf(nals[k..]) && mem !in nals[..k]
    {
      ListGoesOn(v, i, nals[k..]);
      var cb: nat := v[i] as nat * 256 + v[i + 1];
      assert v[i + 2..i + 2 + cb] == nals[k];
      if cb == |mem| && v[i + 2..i + 2 + cb] == mem {
        return v;
      }
      assert nals[k..][1..] == nals[k + 1..] && nals[..k + 1] == nals[..k] + [nals[k]];
      i := i + 2 + cb;
      k := k + 1;
    }
    ListEnds(v, i, nals[k..]);
    assert nals[..k] == nals;
    ListSnoc(nals, mem);
    r := v + U16(|mem|) + mem;
  }

  /** With more than two bytes left there is another entry. */
  lemma ListGoesOn(v: seq<Byte>, i: nat, nals: seq<seq<Byte>>)
    requires Nals(nals) && i + 2 < |v| && v[i..] == ListOf(nals)
    ensures nals != []
    ensures var next := i + 2 + |nals[0]|;
            && next == i + 2 + v[i] as nat * 256 + v[i + 1] && next <= |v|
            && v[next..] == ListOf(nals[1..]) && v[i + 2..next] == nals[0]
  {
    hide ListOf;
    if nals == [] {
      NoList();
    } else {
      NothingBehind(ListOf(nals));
      NothingBehind(ListOf(nals[1..]));
      ListParts(v, i, nals, []);
    }
  }

  lemma ListEnds(v: seq<Byte>, i: nat, nals: seq<seq<Byte>>)
    requires Nals(nals) && i <= |v| <= i + 2 && v[i..] == ListOf(nals)
    ensures nals == []
  {
    hide ListOf;
    ListLength(nals);
  }

  lemma ListLength(nals: seq<seq<Byte>>)
    requires Nals(nals)
    ensures nals == [] || |ListOf(nals)| >= 3
  {
    if nals != [] {
      assert nals[0] in nals;
    }
  }

  // ---------------------------------------------------------------- reading

  /** What the demuxer keeps of an avcC box with these sets. */
  function KeptSets(sps: seq<seq<Byte>>, pps: seq<seq<Byte>>): seq<Byte>
    requires |sps| <= 31 && |pps| <= 255
  {
    [|sps|] + ListOf(sps) + ([|pps|] + ListOf(pps))
  }

  /** skip_spspps: behind n entries. */
  method SkipSets(p: seq<Byte>, start: nat, n: nat, ghost nals: seq<seq<Byte>>, ghost rest: seq<Byte>)
    returns (k: nat)
    requires Nals(nals) && n <= |nals| && start <= |p| && p[start..] == ListOf(nals) + rest
    ensures start <= k <= |p| && p[k..] == ListOf(nals[n..]) + rest
  {
    hide ListOf;
    k := start;
    assert nals[0..] == nals;
    for i := 0 to n
      invariant start <= k <= |p| && p[k..] == ListOf(nals[i..]) + rest
    {
      ListParts(p, k, nals[i..], rest);
      assert nals[i..][1..] == nals[i + 1..];
      k := k + 2 + p[k] as nat * 256 + p[k + 1];
    }
  }

  /** MP4D_read_sps and MP4D_read_pps: the n-th set, or nothing behind the last. */
  method ReadSet(dsi: seq<Byte>, ppsFlag: bool, n: nat, ghost sps: seq<seq<Byte>>, ghost pps: seq<seq<Byte>>)
    returns (r: Option<seq<Byte>>)
    requires Nals(sps) && Nals(pps) && |sps| <= 31 && |pps| <= 255 && dsi == KeptSets(sps, pps)
    ensures var nals := if ppsFlag then pps else sps;
            r == if n < |nals| then Some(nals[n]) else None
  {
    hide ListOf, KeptSets;
    ghost var nals, rest := if ppsFlag then pps else sps, if ppsFlag then [] else [|pps|] + ListOf(pps);
    KeptParts(dsi, sps, pps);
    var pos := 0;
    if ppsFlag {
      pos := SkipSets(dsi, 1, dsi[0], sps, [|pps|] + ListOf(pps));
      assert sps[|sps|..] == [];
      NoList();
      KeptEnd(dsi, pos, pps);
    }
    if n >= dsi[pos] as nat {
      return None;
    }
    pos := SkipSets(dsi, pos + 1, n, nals, rest);
    ListParts(dsi, pos, nals[n..], rest);
    var size := dsi[pos] as nat * 256 + dsi[pos + 1];
    assert nals[n..][0] == nals[n];
    r := Some(dsi[pos + 2..pos + 2 + size]);
  }

  lemma KeptParts(dsi: seq<Byte>, sps: seq<seq<Byte>>, pps: seq<seq<Byte>>)
    requires |sps| <= 31 && |pps| <= 255 && dsi == KeptSets(sps, pps)
    ensures |dsi| > 0 && dsi[0] == |sps| && dsi[1..] == ListOf(sps) + ([|pps|] + ListOf(pps))
  {
    hide ListOf;
    Assoc([|sps|], ListOf(sps), [|pps|] + ListOf(pps));
  }

  lemma KeptEnd(dsi: seq<Byte>, pos: nat, pps: seq<seq<Byte>>)
    requires |pps| <= 255 && pos <= |dsi| && dsi[pos..] == [] + ([|pps|] + ListOf(pps))
    ensures pos < |dsi| && dsi[pos] == |pps| && dsi[pos + 1..] == ListOf(pps) + []
  {
    hide ListOf;
    NothingBehind(ListOf(pps));
    var d := dsi[pos..];
    assert d[1..] == dsi[pos + 1..];
  }
}
