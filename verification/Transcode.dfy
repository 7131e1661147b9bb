/** The SPS and PPS id transcoder of stream/minimp4.hpp as a function on NAL units, and
    what its output means to a decoder. */
module Transcode {
  import opened Wrappers
  import opened Seqs
  import opened Bits
  import opened BitWriter
  import opened BitReader

  // ---------------------------------------------------------------- packed bits

  /** The bytes of a whole number of octets of bits. */
  function Pack(b: seq<bool>): (s: seq<Byte>)
    requires |b| % 8 == 0
    ensures BitsOf(s) == b
  {
    if b == [] then []
    else
      var k := |b| - 8;
      PackedByte(b[k..]);
      assert b[..k] + b[k..] == b;
      var s := Pack(b[..k]) + [FromBits(b[k..])];
      assert s[..|s| - 1] == Pack(b[..k]);
      s
  }

  lemma PackedByte(b: seq<bool>)
    requires |b| == 8
    ensures FromBits(b) < 256 && ToBits(FromBits(b), 8) == b
  {
    ToFromBits(b);
    assert Pow2(8) == 256;
  }

  lemma PackOf(s: seq<Byte>)
    ensures Pack(BitsOf(s)) == s
  {
    hide Pack, BitsOf;
    BitsOfInjective(Pack(BitsOf(s)), s);
  }

  function Padded(b: seq<bool>): (p: seq<bool>)
    ensures |p| % 8 == 0
  {
    b + Padding(|b|)
  }

  // ---------------------------------------------------------------- copy_bits

  /** b without its last zeros, of which at most k are dropped. */
  function Strip(b: seq<bool>, k: nat): (r: seq<bool>)
    ensures r <= b && |b| - |r| <= k
    ensures |b| - |r| < k && r != [] ==> r[|r| - 1]
    decreases k
  {
    if k > 0 && b != [] && !b[|b| - 1] then Strip(b[..|b| - 1], k - 1) else b
  }

  /** What copy_bits keeps of the bits it is given. */
  function Kept(b: seq<bool>): (r: seq<bool>)
  {
    Strip(b, 7)
  }

  /** The bits end in a stop bit that lies within the last octet (section 7.3.2.11 of
      ITU-T H.264). */
  predicate Stopped(b: seq<bool>) {
    Kept(b) != [] && Kept(b)[|Kept(b)| - 1]
  }

  lemma {:induction false} StripZeros(b: seq<bool>, n: nat, k: nat)
    requires n <= k && b != [] && b[|b| - 1]
    ensures Strip(b + Zeros(n), k) == b
    decreases n
  {
    if n == 0 {
      assert b + Zeros(0) == b;
    } else {
      var z := b + Zeros(n);
      assert z[..|z| - 1] == b + Zeros(n - 1);
      StripZeros(b, n - 1, k - 1);
    }
  }

  /** Padding to a whole byte keeps a string that ends in its stop bit. */
  lemma KeptPadding(b: seq<bool>, pad: nat)
    requires b != [] && b[|b| - 1] && pad < 8
    ensures Kept(b + Zeros(pad)) == b && Stopped(b + Zeros(pad))
  {
    StripZeros(b, pad, 7);
  }

  lemma PaddedInjective(x: seq<bool>, y: seq<bool>)
    requires x != [] && x[|x| - 1] && y != [] && y[|y| - 1] && Padded(x) == Padded(y)
    ensures x == y
  {
    KeptPadding(x, |Padding(|x|)|);
    KeptPadding(y, |Padding(|y|)|);
  }

  // ---------------------------------------------------------------- NAL units

  datatype Nal =
    | Sps(head: seq<bool>, id: nat, rest: seq<bool>)
    | Pps(id: nat, spsId: nat, rest: seq<bool>)
    | Slice(firstMb: nat, sliceType: nat, ppsId: nat, rest: seq<bool>)
    | Other

  const MAX_SPS := 32
  const MAX_PPS := 256

  function PayloadType(first: Byte): nat { first % 32 }

  /** An Exp-Golomb code within d, small enough for both the reader and the writer. */
  predicate UeIn(d: seq<bool>, pos: nat) {
    pos <= |d| && UeAt(d, pos) && LeadingZeros(d, pos) <= 15
  }

  function UeEnd(d: seq<bool>, pos: nat): nat
    requires pos <= |d|
  {
    pos + UeLength(d, pos)
  }

  predicate SpsFormed(d: seq<bool>) {
    UeIn(d, 24) && UeValue(d, 24) < MAX_SPS && UeEnd(d, 24) < |d|
  }

  predicate PpsFormed(d: seq<bool>) {
    && UeIn(d, 0) && UeValue(d, 0) < MAX_PPS
    && UeIn(d, UeEnd(d, 0)) && UeValue(d, UeEnd(d, 0)) < MAX_SPS
    && UeEnd(d, UeEnd(d, 0)) < |d|
  }

  predicate SliceFormed(d: seq<bool>) {
    && UeIn(d, 0) && UeIn(d, UeEnd(d, 0))
    && var p := UeEnd(d, UeEnd(d, 0));
       UeIn(d, p) && UeValue(d, p) < MAX_PPS && UeEnd(d, p) < |d|
  }

  /** The unit has the fields that the transcoder reads, in the ranges of its tables. */
  predicate Formed(nal: seq<Byte>) {
    && nal != []
    && var t, d := PayloadType(nal[0]), BitsOf(nal[1..]);
       && (t == 7 ==> SpsFormed(d))
       && (t == 8 ==> PpsFormed(d))
       && (t in {1, 2, 5} ==> SliceFormed(d))
  }

  /** The unit also ends in its stop bit. */
  predicate Complete(nal: seq<Byte>) {
    Formed(nal) && (Parse(nal).Other? || Stopped(Parse(nal).rest))
  }

  function ParseSps(d: seq<bool>): (n: Nal)
    requires SpsFormed(d)
    ensures n.Sps?
  {
    Sps(d[..24], UeValue(d, 24), d[UeEnd(d, 24)..])
  }

  function ParsePps(d: seq<bool>): (n: Nal)
    requires PpsFormed(d)
    ensures n.Pps?
  {
    var p := UeEnd(d, 0);
    Pps(UeValue(d, 0), UeValue(d, p), d[UeEnd(d, p)..])
  }

  function ParseSlice(d: seq<bool>): (n: Nal)
    requires SliceFormed(d)
    ensures n.Slice?
  {
    var p := UeEnd(d, 0);
    var q := UeEnd(d, p);
    Slice(UeValue(d, 0), UeValue(d, p), UeValue(d, q), d[UeEnd(d, q)..])
  }

  function Parse(nal: seq<Byte>): Nal
    requires Formed(nal)
  {
    var t, d := PayloadType(nal[0]), BitsOf(nal[1..]);
    if t == 7 then ParseSps(d)
    else if t == 8 then ParsePps(d)
    else if t in {1, 2, 5} then ParseSlice(d)
    else Other
  }

  // ---------------------------------------------------------------- rewriting

  function SpsCode(head: seq<bool>, id: nat, rest: seq<bool>): seq<bool> {
    Padded(head + UeCode(id) + Kept(rest))
  }

  function PpsCode(id: nat, spsId: nat, rest: seq<bool>): seq<bool> {
    Padded(UeCode(id) + UeCode(spsId) + Kept(rest))
  }

  function SliceCode(firstMb: nat, sliceType: nat, ppsId: nat, rest: seq<bool>): seq<bool> {
    Padded(UeCode(firstMb) + UeCode(sliceType) + UeCode(ppsId) + Kept(rest))
  }

  /** A code in front of other bits is read as its value. */
  lemma CodeThen(d: seq<bool>, pos: nat, v: nat, tail: seq<bool>)
    requires pos <= |d| && d[pos..] == UeCode(v) + tail && v <= 65534
    ensures UeIn(d, pos) && UeValue(d, pos) == v
    ensures UeEnd(d, pos) <= |d| && d[UeEnd(d, pos)..] == tail
  {
    hide LeadingZeros, UeCode, FromBits, Pow2;
    var n := |UeCode(v)|;
    assert d[pos..][..n] == d[pos..pos + n] == UeCode(v);
    UeOfCode(d, pos, v);
    GolombFits(v);
    assert d[pos..][n..] == d[pos + n..];
  }

  /** Where the fields stand: the id of an SPS behind three bytes, the ids of a PPS and of its SPS in
      front, and the PPS id of a slice behind two other codes. */
  lemma FieldsAre(nal: seq<Byte>, head: seq<bool>, a: nat, b: nat, c: nat, rest: seq<bool>)
    requires nal != [] && |head| == 24 && a <= 65534 && b <= 65534 && c < 256 && rest != []
    ensures nal[0] as int % 32 == 7 && a < 32 && BitsOf(nal[1..]) == head + (UeCode(a) + rest) ==>
              Formed(nal) && Parse(nal) == Sps(head, a, rest)
    ensures nal[0] as int % 32 == 8 && a < 256 && b < 32 && BitsOf(nal[1..]) == UeCode(a) + (UeCode(b) + rest) ==>
              Formed(nal) && Parse(nal) == Pps(a, b, rest)
    ensures nal[0] as int % 32 in {1, 2, 5} && BitsOf(nal[1..]) == UeCode(a) + (UeCode(b) + (UeCode(c) + rest)) ==>
              Formed(nal) && Parse(nal) == Slice(a, b, c, rest)
    ensures nal[0] as int % 32 !in {1, 2, 5, 7, 8} ==> Formed(nal) && Parse(nal) == Other
  {
    hide LeadingZeros, UeCode, FromBits, Pow2, UeValue, UeLength, UeAt, BitsOf;
    var d := BitsOf(nal[1..]);
    if d == head + (UeCode(a) + rest) {
      Halves(head, UeCode(a) + rest);
      CodeThen(d, 24, a, rest);
    }
    assert d[0..] == d;
    if d == UeCode(a) + (UeCode(b) + rest) {
      CodeThen(d, 0, a, UeCode(b) + rest);
      CodeThen(d, UeEnd(d, 0), b, rest);
    }
    if d == UeCode(a) + (UeCode(b) + (UeCode(c) + rest)) {
      CodeThen(d, 0, a, UeCode(b) + (UeCode(c) + rest));
      CodeThen(d, UeEnd(d, 0), b, UeCode(c) + rest);
      CodeThen(d, UeEnd(d, UeEnd(d, 0)), c, rest);
    }
  }

  lemma ParseSpsCode(head: seq<bool>, id: nat, rest: seq<bool>)
    requires |head| == 24 && id < MAX_SPS && Stopped(rest)
    ensures var d := SpsCode(head, id, rest);
            SpsFormed(d) && ParseSps(d).head == head && ParseSps(d).id == id
            && Kept(ParseSps(d).rest) == Kept(rest) && Stopped(ParseSps(d).rest)
  {
    hide LeadingZeros, UeCode, FromBits, Pow2, Strip, UeValue, UeLength;
    var d, k := SpsCode(head, id, rest), Kept(rest);
    var tail := k + Padding(|head + UeCode(id) + k|);
    assert d == head + (UeCode(id) + tail);
    assert d[24..] == UeCode(id) + tail && d[..24] == head;
    CodeThen(d, 24, id, tail);
    KeptPadding(k, |Padding(|head + UeCode(id) + k|)|);
  }

  lemma ParsePpsCode(id: nat, spsId: nat, rest: seq<bool>)
    requires id < MAX_PPS && spsId < MAX_SPS && Stopped(rest)
    ensures var d := PpsCode(id, spsId, rest);
            PpsFormed(d) && ParsePps(d).id == id && ParsePps(d).spsId == spsId
            && Kept(ParsePps(d).rest) == Kept(rest) && Stopped(ParsePps(d).rest)
  {
    hide LeadingZeros, UeCode, FromBits, Pow2, Strip, UeValue, UeLength;
    var d, k := PpsCode(id, spsId, rest), Kept(rest);
    var tail := k + Padding(|UeCode(id) + UeCode(spsId) + k|);
    assert d == UeCode(id) + (UeCode(spsId) + tail) && d[0..] == d;
    CodeThen(d, 0, id, UeCode(spsId) + tail);
    CodeThen(d, UeEnd(d, 0), spsId, tail);
    KeptPadding(k, |Padding(|UeCode(id) + UeCode(spsId) + k|)|);
  }

  lemma ParseSliceCode(firstMb: nat, sliceType: nat, ppsId: nat, rest: seq<bool>)
    requires firstMb <= 65534 && sliceType <= 65534 && ppsId < MAX_PPS && Stopped(rest)
    ensures var d := SliceCode(firstMb, sliceType, ppsId, rest);
            SliceFormed(d) && ParseSlice(d).firstMb == firstMb && ParseSlice(d).sliceType == sliceType
            && ParseSlice(d).ppsId == ppsId && Kept(ParseSlice(d).rest) == Kept(rest) && Stopped(ParseSlice(d).rest)
  {
    hide LeadingZeros, UeCode, FromBits, Pow2, Strip, UeValue, UeLength;
    var d, k := SliceCode(firstMb, sliceType, ppsId, rest), Kept(rest);
    var b := UeCode(firstMb) + UeCode(sliceType) + UeCode(ppsId) + k;
    var tail := k + Padding(|b|);
    assert d == UeCode(firstMb) + (UeCode(sliceType) + (UeCode(ppsId) + tail)) && d[0..] == d;
    CodeThen(d, 0, firstMb, UeCode(sliceType) + (UeCode(ppsId) + tail));
    CodeThen(d, UeEnd(d, 0), sliceType, UeCode(ppsId) + tail);
    CodeThen(d, UeEnd(d, UeEnd(d, 0)), ppsId, tail);
    KeptPadding(k, |Padding(|b|)|);
  }

  // ---------------------------------------------------------------- the caches

  /** find_mem_cache: the slot that holds mem, else the first free one. Free slots hold []. */
  function Slot(cache: seq<seq<Byte>>, mem: seq<Byte>): (r: Option<nat>)
    ensures r.Some? ==> r.value < |cache| && cache[r.value] in {mem, []}
    ensures r.Some? && cache[r.value] != mem ==> mem !in cache
    ensures r == None <==> mem == [] || (mem !in cache && [] !in cache)
  {
    if mem == [] then None
    else if mem in cache then Some(First(cache, mem))
    else if [] in cache then Some(First(cache, []))
    else None
  }

  function First(cache: seq<seq<Byte>>, mem: seq<Byte>): (i: nat)
    requires mem in cache
    ensures i < |cache| && cache[i] == mem && mem !in cache[..i]
  {
    if cache[0] == mem then 0 else 1 + First(cache[1..], mem)
  }

  datatype State = State(sps: seq<seq<Byte>>, pps: seq<seq<Byte>>, mapSps: seq<nat>, mapPps: seq<nat>)

  predicate Sized(st: State) {
    && |st.sps| == |st.mapSps| == MAX_SPS && |st.pps| == |st.mapPps| == MAX_PPS
    && (forall i | 0 <= i < MAX_SPS :: st.mapSps[i] < MAX_SPS)
    && (forall i | 0 <= i < MAX_PPS :: st.mapPps[i] < MAX_PPS)
  }

  function Initial(): (st: State)
    ensures Sized(st)
  {
    State(seq(MAX_SPS, _ => []), seq(MAX_PPS, _ => []), seq(MAX_SPS, _ => 0), seq(MAX_PPS, _ => 0))
  }

  /** transcode_nalu: the new state and the rewritten unit, [] when a cache is full. */
  function Step(st: State, nal: seq<Byte>): (r: (State, seq<Byte>))
    requires Sized(st) && Formed(nal)
    ensures Sized(r.0)
  {
    match Parse(nal)
    case Sps(head, id, rest) => StepSps(st, nal[0], head, id, rest)
    case Pps(id, spsId, rest) => StepPps(st, nal[0], id, spsId, rest)
    case Slice(firstMb, sliceType, ppsId, rest) =>
      (st, [nal[0]] + Pack(SliceCode(firstMb, sliceType, st.mapPps[ppsId], rest)))
    case Other => (st, nal)
  }

  function StepSps(st: State, first: Byte, head: seq<bool>, id: nat, rest: seq<bool>): (r: (State, seq<Byte>))
    requires Sized(st) && id < MAX_SPS
    ensures Sized(r.0)
  {
    var key := Pack(SpsCode(head, 0, rest));
    match Slot(st.sps, key)
    case None => (st, [])
    case Some(i) =>
      (st.(sps := st.sps[i := key], mapSps := st.mapSps[id := i]), [first] + Pack(SpsCode(head, i, rest)))
  }

  function StepPps(st: State, first: Byte, id: nat, spsId: nat, rest: seq<bool>): (r: (State, seq<Byte>))
    requires Sized(st) && id < MAX_PPS && spsId < MAX_SPS
    ensures Sized(r.0)
  {
    var key := Pack(PpsCode(0, st.mapSps[spsId], rest));
    match Slot(st.pps, key)
    case None => (st, [])
    case Some(i) =>
      (st.(pps := st.pps[i := key], mapPps := st.mapPps[id := i]),
       [first] + Pack(PpsCode(i, st.mapSps[spsId], rest)))
  }

  // ---------------------------------------------------------------- what the ids mean

  /** The content of an SPS apart from its own id. */
  datatype SpsBody = SpsBody(head: seq<bool>, body: seq<bool>)

  /** The content of a PPS apart from its own id, with the SPS id it names. */
  datatype PpsBody = PpsBody(spsId: nat, body: seq<bool>)

  /** The parameter sets a decoder holds: the last ones received under each id. */
  datatype Table = Table(sps: map<nat, SpsBody>, pps: map<nat, PpsBody>)

  function Receive(t: Table, nal: seq<Byte>): Table
    requires Formed(nal)
  {
    match Parse(nal)
    case Sps(head, id, rest) => t.(sps := t.sps[id := SpsBody(head, Kept(rest))])
    case Pps(id, spsId, rest) => t.(pps := t.pps[id := PpsBody(spsId, Kept(rest))])
    case _ => t
  }

  /** A PPS with the SPS that its SPS id named when it arrived. */
  datatype BoundPps = BoundPps(sps: SpsBody, body: seq<bool>)

  datatype Bound = Bound(sps: map<nat, SpsBody>, pps: map<nat, BoundPps>)

  function Bind(t: Bound, nal: seq<Byte>): Bound
    requires Formed(nal)
  {
    match Parse(nal)
    case Sps(head, id, rest) => t.(sps := t.sps[id := SpsBody(head, Kept(rest))])
    case Pps(id, spsId, rest) =>
      if spsId in t.sps then t.(pps := t.pps[id := BoundPps(t.sps[spsId], Kept(rest))]) else t
    case _ => t
  }

  function SpsKey(b: SpsBody): seq<Byte> {
    Pack(Padded(b.head + UeCode(0) + b.body))
  }

  function PpsKey(b: PpsBody): seq<Byte> {
    Pack(Padded(UeCode(0) + UeCode(b.spsId) + b.body))
  }

  predicate GoodSps(b: SpsBody) {
    |b.head| == 24 && b.body != [] && b.body[|b.body| - 1]
  }

  predicate GoodPps(b: PpsBody) {
    b.spsId < MAX_SPS && b.body != [] && b.body[|b.body| - 1]
  }

  /** Two SPS share a cache entry only if they agree apart from their id. */
  lemma SpsKeyInjective(a: SpsBody, b: SpsBody)
    requires GoodSps(a) && GoodSps(b) && SpsKey(a) == SpsKey(b)
    ensures a == b
  {
    hide UeCode, Padded, Pack;
    var u, x, y := UeCode(0), a.head + UeCode(0) + a.body, b.head + UeCode(0) + b.body;
    assert Padded(x) == BitsOf(SpsKey(a)) == Padded(y);
    PaddedInjective(x, y);
    SplitTriple(a.head, u, a.body);
    SplitTriple(b.head, u, b.body);
  }

  lemma PpsKeyInjective(a: PpsBody, b: PpsBody)
    requires GoodPps(a) && GoodPps(b) && PpsKey(a) == PpsKey(b)
    ensures a == b
  {
    hide UeCode, LeadingZeros, UeValue, UeLength, Padded, Pack, UeAt;
    var u, x, y := UeCode(0), UeCode(0) + UeCode(a.spsId) + a.body, UeCode(0) + UeCode(b.spsId) + b.body;
    assert Padded(x) == BitsOf(PpsKey(a)) == Padded(y);
    PaddedInjective(x, y);
    SplitTriple(u, UeCode(a.spsId), a.body);
    SplitTriple(u, UeCode(b.spsId), b.body);
    CodeThen(x, |u|, a.spsId, a.body);
    CodeThen(y, |u|, b.spsId, b.body);
  }

  // ---------------------------------------------------------------- the invariant

  predicate Distinct(cache: seq<seq<Byte>>) {
    forall i, j | 0 <= i < j < |cache| :: cache[i] != [] ==> cache[i] != cache[j]
  }

  /** The decoder of the output holds exactly the cached SPS. */
  ghost predicate SpsMirror(cache: seq<seq<Byte>>, held: map<nat, SpsBody>) {
    && (forall n: nat :: n in held <==> n < |cache| && cache[n] != [])
    && (forall n | n in held :: GoodSps(held[n]) && cache[n] == SpsKey(held[n]))
  }

  ghost predicate PpsMirror(cache: seq<seq<Byte>>, held: map<nat, PpsBody>) {
    && (forall n: nat :: n in held <==> n < |cache| && cache[n] != [])
    && (forall n | n in held :: GoodPps(held[n]) && cache[n] == PpsKey(held[n]))
  }

  /** Every PPS held names an SPS held. */
  predicate Named(t: Table) {
    forall n | n in t.pps :: t.pps[n].spsId in t.sps
  }

  /** Every SPS id that the input has bound leads, through the id map, to the same content. */
  predicate SpsResolves(ids: seq<nat>, bound: map<nat, SpsBody>, held: map<nat, SpsBody>) {
    forall id | id in bound :: id < |ids| && ids[id] in held && held[ids[id]] == bound[id]
  }

  predicate PpsResolves(ids: seq<nat>, bound: map<nat, BoundPps>, t: Table) {
    forall id | id in bound :: id < |ids| && ids[id] in t.pps && Same(t, ids[id], bound[id])
  }

  predicate Same(t: Table, n: nat, p: BoundPps)
    requires n in t.pps
  {
    && t.pps[n].body == p.body
    && t.pps[n].spsId in t.sps && t.sps[t.pps[n].spsId] == p.sps
  }

  ghost predicate Inv(st: State, b: Bound, t: Table) {
    && Sized(st) && Distinct(st.sps) && Distinct(st.pps)
    && SpsMirror(st.sps, t.sps) && PpsMirror(st.pps, t.pps) && Named(t)
    && SpsResolves(st.mapSps, b.sps, t.sps) && PpsResolves(st.mapPps, b.pps, t)
  }

  const NOTHING_BOUND := Bound(map[], map[])
  const NOTHING_HELD := Table(map[], map[])

  lemma InvInitially()
    ensures Inv(Initial(), NOTHING_BOUND, NOTHING_HELD)
  {}

  /** A later table holds everything an earlier one held, unchanged. */
  predicate Extends(t: Table, u: Table) {
    && (forall n | n in t.sps :: n in u.sps && u.sps[n] == t.sps[n])
    && (forall n | n in t.pps :: n in u.pps && u.pps[n] == t.pps[n])
  }

  /** The unit can be transcoded: its PPS names an SPS that has been received. */
  predicate Known(b: Bound, nal: seq<Byte>)
    requires Formed(nal)
  {
    match Parse(nal)
    case Pps(_, spsId, _) => spsId in b.sps
    case _ => true
  }

  /** The SPS content, or the PPS content with the id map applied, that a unit carries. */
  function SpsOf(nal: seq<Byte>): SpsBody
    requires Formed(nal) && Parse(nal).Sps?
  {
    SpsBody(Parse(nal).head, Kept(Parse(nal).rest))
  }

  function PpsOf(st: State, nal: seq<Byte>): PpsBody
    requires Sized(st) && Formed(nal) && Parse(nal).Pps?
  {
    PpsBody(st.mapSps[Parse(nal).spsId], Kept(Parse(nal).rest))
  }

  lemma RewrittenSps(first: Byte, head: seq<bool>, id: nat, rest: seq<bool>)
    requires PayloadType(first) == 7 && |head| == 24 && id < MAX_SPS && Stopped(rest)
    ensures var out := [first] + Pack(SpsCode(head, id, rest));
            Complete(out) && Parse(out).Sps? && Parse(out).id == id && SpsOf(out) == SpsBody(head, Kept(rest))
  {
    hide Strip, UeCode, LeadingZeros, UeValue, UeLength, Pack, SpsFormed, ParseSps;
    var out := [first] + Pack(SpsCode(head, id, rest));
    assert out[1..] == Pack(SpsCode(head, id, rest));
    ParseSpsCode(head, id, rest);
  }

  lemma RewrittenPps(first: Byte, id: nat, spsId: nat, rest: seq<bool>)
    requires PayloadType(first) == 8 && id < MAX_PPS && spsId < MAX_SPS && Stopped(rest)
    ensures var out := [first] + Pack(PpsCode(id, spsId, rest));
            Complete(out) && Parse(out).Pps? && Parse(out).id == id && Parse(out).spsId == spsId
            && Kept(Parse(out).rest) == Kept(rest)
  {
    hide Strip, UeCode, LeadingZeros, UeValue, UeLength, Pack, PpsFormed, ParsePps;
    var out := [first] + Pack(PpsCode(id, spsId, rest));
    assert out[1..] == Pack(PpsCode(id, spsId, rest));
    ParsePpsCode(id, spsId, rest);
  }

  lemma RewrittenSlice(first: Byte, firstMb: nat, sliceType: nat, ppsId: nat, rest: seq<bool>)
    requires PayloadType(first) in {1, 2, 5} && ppsId < MAX_PPS && Stopped(rest)
    requires firstMb <= 65534 && sliceType <= 65534
    ensures var out := [first] + Pack(SliceCode(firstMb, sliceType, ppsId, rest));
            Complete(out) && Parse(out).Slice? && Parse(out).ppsId == ppsId
            && Parse(out).firstMb == firstMb && Parse(out).sliceType == sliceType
            && Kept(Parse(out).rest) == Kept(rest)
  {
    hide Strip, UeCode, LeadingZeros, UeValue, UeLength, Pack, SliceFormed, ParseSlice;
    var out := [first] + Pack(SliceCode(firstMb, sliceType, ppsId, rest));
    assert out[1..] == Pack(SliceCode(firstMb, sliceType, ppsId, rest));
    ParseSliceCode(firstMb, sliceType, ppsId, rest);
  }

  lemma KeyOfSps(head: seq<bool>, rest: seq<bool>)
    ensures Pack(SpsCode(head, 0, rest)) == SpsKey(SpsBody(head, Kept(rest)))
  {}

  lemma KeyOfPps(spsId: nat, rest: seq<bool>)
    ensures Pack(PpsCode(0, spsId, rest)) == PpsKey(PpsBody(spsId, Kept(rest)))
  {}

  lemma FormedFields(nal: seq<Byte>)
    requires Formed(nal)
    ensures nal != []
    ensures Parse(nal).Sps? ==> PayloadType(nal[0]) == 7 && |Parse(nal).head| == 24 && Parse(nal).id < MAX_SPS
    ensures Parse(nal).Pps? ==> PayloadType(nal[0]) == 8 && Parse(nal).id < MAX_PPS && Parse(nal).spsId < MAX_SPS
    ensures Parse(nal).Slice? ==> PayloadType(nal[0]) in {1, 2, 5} && Parse(nal).ppsId < MAX_PPS
    ensures Parse(nal).Slice? ==> Parse(nal).firstMb <= 65534 && Parse(nal).sliceType <= 65534
  {
    hide LeadingZeros, Kept, Pow2, FromBits, UeCode;
    var d := BitsOf(nal[1..]);
    if Parse(nal).Slice? {
      SmallUe(d, 0);
      SmallUe(d, UeEnd(d, 0));
    }
  }

  lemma SmallUe(d: seq<bool>, pos: nat)
    requires UeIn(d, pos)
    ensures UeValue(d, pos) <= 65534
  {
    hide LeadingZeros, Field;
    var z := LeadingZeros(d, pos);
    Pow2Mono(z, 15);
    Pow2Half();
  }

  /** A slot for mem keeps the entries pairwise distinct. */
  lemma SlotKeepsDistinct(cache: seq<seq<Byte>>, mem: seq<Byte>)
    requires Distinct(cache) && Slot(cache, mem).Some?
    ensures Distinct(cache[Slot(cache, mem).value := mem])
  {}

  lemma StoppedKept(rest: seq<bool>)
    requires Stopped(rest)
    ensures Kept(rest) != [] && Kept(rest)[|Kept(rest)| - 1]
  {}

  lemma SpsHeld(cache: seq<seq<Byte>>, held: map<nat, SpsBody>, body: SpsBody, i: nat)
    requires SpsMirror(cache, held) && GoodSps(body) && Slot(cache, SpsKey(body)) == Some(i)
    ensures i < |cache| && (i in held ==> held[i] == body)
    ensures SpsMirror(cache[i := SpsKey(body)], held[i := body])
  {
    hide SpsKey;
    assert SpsKey(body) != [];
    if i in held {
      SpsKeyInjective(held[i], body);
    }
  }

  lemma PpsHeld(cache: seq<seq<Byte>>, held: map<nat, PpsBody>, body: PpsBody, i: nat)
    requires PpsMirror(cache, held) && GoodPps(body) && Slot(cache, PpsKey(body)) == Some(i)
    ensures i < |cache| && (i in held ==> held[i] == body)
    ensures PpsMirror(cache[i := PpsKey(body)], held[i := body])
  {
    hide PpsKey;
    assert PpsKey(body) != [];
    if i in held {
      PpsKeyInjective(held[i], body);
    }
  }

  lemma ExtendsResolves(ids: seq<nat>, bound: map<nat, BoundPps>, t: Table, u: Table)
    requires PpsResolves(ids, bound, t) && Named(t) && Extends(t, u)
    ensures PpsResolves(ids, bound, u)
  {
    forall id | id in bound ensures id < |ids| && ids[id] in u.pps && Same(u, ids[id], bound[id]) {
      assert Same(t, ids[id], bound[id]);
    }
  }

  /** Entering an SPS under the slot of its content keeps the invariant and the table. */
  lemma SpsCached(st: State, b: Bound, t: Table, id: nat, body: SpsBody, i: nat)
    requires Inv(st, b, t) && GoodSps(body) && id < MAX_SPS && Slot(st.sps, SpsKey(body)) == Some(i)
    ensures Inv(st.(sps := st.sps[i := SpsKey(body)], mapSps := st.mapSps[id := i]),
                b.(sps := b.sps[id := body]), t.(sps := t.sps[i := body]))
    ensures Extends(t, t.(sps := t.sps[i := body]))
  {
    hide SpsKey, PpsKey, Slot, Distinct, SpsMirror, PpsMirror, PpsResolves, GoodSps, Pack, UeCode;
    SpsHeld(st.sps, t.sps, body, i);
    SlotKeepsDistinct(st.sps, SpsKey(body));
    ExtendsResolves(st.mapPps, b.pps, t, t.(sps := t.sps[i := body]));
  }

  /** Entering a PPS under the slot of its content does so too. */
  lemma PpsCached(st: State, b: Bound, t: Table, id: nat, body: PpsBody, i: nat, bound: BoundPps)
    requires Inv(st, b, t) && GoodPps(body) && id < MAX_PPS && Slot(st.pps, PpsKey(body)) == Some(i)
    requires body.spsId in t.sps && bound == BoundPps(t.sps[body.spsId], body.body)
    ensures Inv(st.(pps := st.pps[i := PpsKey(body)], mapPps := st.mapPps[id := i]),
                b.(pps := b.pps[id := bound]), t.(pps := t.pps[i := body]))
    ensures Extends(t, t.(pps := t.pps[i := body]))
  {
    hide SpsKey, PpsKey, Slot, Distinct, SpsMirror, PpsMirror, GoodPps, Pack, UeCode;
    PpsHeld(st.pps, t.pps, body, i);
    SlotKeepsDistinct(st.pps, PpsKey(body));
    ExtendsResolves(st.mapPps, b.pps, t, t.(pps := t.pps[i := body]));
  }

  /** What a decoder of the output finds for a rewritten slice is what its PPS id named in
      the input; the other fields and the slice data up to the stop bit are kept. */
  predicate SliceMeans(b: Bound, nal: seq<Byte>, t: Table, out: seq<Byte>) {
    && Formed(nal) && Parse(nal).Slice? && Formed(out) && Parse(out).Slice?
    && Parse(out).firstMb == Parse(nal).firstMb && Parse(out).sliceType == Parse(nal).sliceType
    && Kept(Parse(out).rest) == Kept(Parse(nal).rest)
    && (Parse(nal).ppsId in b.pps ==>
          Parse(out).ppsId in t.pps && Same(t, Parse(out).ppsId, b.pps[Parse(nal).ppsId]))
  }

  /** A rewritten parameter set keeps its content and has the id that is mapped to its own. */
  predicate SetMeans(st: State, nal: seq<Byte>, out: seq<Byte>)
    requires Sized(st)
  {
    && Formed(nal) && Formed(out)
    && (Parse(nal).Sps? ==> Parse(out).Sps? && SpsOf(out) == SpsOf(nal) && Parse(out).id == st.mapSps[Parse(nal).id])
    && (Parse(nal).Pps? ==>
          && Parse(out).Pps? && Parse(out).id == st.mapPps[Parse(nal).id]
          && PpsBody(Parse(out).spsId, Kept(Parse(out).rest)) == PpsOf(st, nal))
  }

  lemma SpsStep(st: State, b: Bound, t: Table, nal: seq<Byte>, st': State, out: seq<Byte>)
    requires Inv(st, b, t) && Complete(nal) && Parse(nal).Sps? && (st', out) == Step(st, nal) && out != []
    ensures Complete(out) && Parse(out).Sps? && SetMeans(st', nal, out)
    ensures Inv(st', Bind(b, nal), Receive(t, out)) && Extends(t, Receive(t, out))
  {
    hide Formed, Parse, Stopped, Kept, Pack, SpsCode, PpsCode, SliceCode, SpsKey, PpsKey, Slot, Extends;
    hide UeCode, LeadingZeros, Padding, BitsOf;
    hide SpsMirror, PpsMirror, PpsResolves, SpsResolves, Named, Distinct;
    FormedFields(nal);
    var head, id, rest := Parse(nal).head, Parse(nal).id, Parse(nal).rest;
    var body, key := SpsBody(head, Kept(rest)), Pack(SpsCode(head, 0, rest));
    KeyOfSps(head, rest);
    StoppedKept(rest);
    var i := Slot(st.sps, key).value;
    RewrittenSps(nal[0], head, i, rest);
    SpsCached(st, b, t, id, body, i);
  }

  lemma PpsStep(st: State, b: Bound, t: Table, nal: seq<Byte>, st': State, out: seq<Byte>)
    requires Inv(st, b, t) && Complete(nal) && Parse(nal).Pps? && Known(b, nal)
    requires (st', out) == Step(st, nal) && out != []
    ensures Complete(out) && Parse(out).Pps? && SetMeans(st', nal, out)
    ensures Inv(st', Bind(b, nal), Receive(t, out)) && Extends(t, Receive(t, out))
  {
    hide Formed, Parse, Stopped, Kept, Pack, SpsCode, PpsCode, SliceCode, SpsKey, PpsKey, Slot, Extends;
    hide UeCode, LeadingZeros, Padding, BitsOf;
    hide SpsMirror, PpsMirror, PpsResolves, Named, Distinct;
    FormedFields(nal);
    var id, spsId, rest := Parse(nal).id, Parse(nal).spsId, Parse(nal).rest;
    var mapped := st.mapSps[spsId];
    var body, key := PpsBody(mapped, Kept(rest)), Pack(PpsCode(0, mapped, rest));
    KeyOfPps(mapped, rest);
    StoppedKept(rest);
    var i := Slot(st.pps, key).value;
    RewrittenPps(nal[0], i, mapped, rest);
    PpsCached(st, b, t, id, body, i, BoundPps(b.sps[spsId], Kept(rest)));
  }

  lemma SliceStep(st: State, b: Bound, t: Table, nal: seq<Byte>, st': State, out: seq<Byte>)
    requires Inv(st, b, t) && Complete(nal) && Parse(nal).Slice? && (st', out) == Step(st, nal)
    ensures Complete(out) && Parse(out).Slice? && SliceMeans(b, nal, t, out)
    ensures st' == st && Bind(b, nal) == b && Receive(t, out) == t
  {
    FormedFields(nal);
    hide Formed, Parse, Stopped, Kept, Pack, SpsCode, PpsCode, SliceCode;
    hide SpsMirror, PpsMirror, SpsResolves, Named, Distinct;
    var n := Parse(nal);
    RewrittenSlice(nal[0], n.firstMb, n.sliceType, st.mapPps[n.ppsId], n.rest);
  }

  /** One unit: the output is well formed and means what the input meant, nothing the
      decoder already holds changes, and the invariant is kept. */
  lemma StepKeeps(st: State, b: Bound, t: Table, nal: seq<Byte>, st': State, out: seq<Byte>)
    requires Inv(st, b, t) && Complete(nal) && Known(b, nal) && (st', out) == Step(st, nal) && out != []
    ensures Complete(out) && Inv(st', Bind(b, nal), Receive(t, out)) && Extends(t, Receive(t, out))
    ensures Parse(nal).Slice? ==> SliceMeans(b, nal, t, out)
    ensures SetMeans(st', nal, out)
  {
    hide Parse, Formed, Kept, Pack, Slot, Inv, Extends, SliceMeans, StepSps, StepPps, SliceCode, SpsOf, PpsOf, Same;
    assert Extends(t, t) by { ExtendsSelf(t); }
    match Parse(nal)
    case Sps(_, _, _) => SpsStep(st, b, t, nal, st', out);
    case Pps(_, _, _) => PpsStep(st, b, t, nal, st', out);
    case Slice(_, _, _, _) => SliceStep(st, b, t, nal, st', out);
    case Other =>
  }

  lemma ExtendsSelf(t: Table)
    ensures Extends(t, t)
  {}

  // ---------------------------------------------------------------- whole runs

  predicate AllFormed(nals: seq<seq<Byte>>) {
    forall n | n in nals :: Formed(n)
  }

  predicate AllComplete(nals: seq<seq<Byte>>)
    ensures AllComplete(nals) ==> AllFormed(nals)
  {
    forall n | n in nals :: Complete(n)
  }

  /** The transcoder over a list of units, from its initial state. */
  function Run(nals: seq<seq<Byte>>): (r: (State, seq<seq<Byte>>))
    requires AllFormed(nals)
    ensures Sized(r.0) && |r.1| == |nals|
  {
    if nals == [] then (Initial(), [])
    else
      var before := Run(nals[..|nals| - 1]);
      var after := Step(before.0, nals[|nals| - 1]);
      (after.0, before.1 + [after.1])
  }

  /** The parameter sets of the input, each PPS bound to its SPS on arrival. */
  function BoundAfter(nals: seq<seq<Byte>>): Bound
    requires AllFormed(nals)
  {
    if nals == [] then NOTHING_BOUND else Bind(BoundAfter(nals[..|nals| - 1]), nals[|nals| - 1])
  }

  /** The parameter sets that a decoder of the output holds. */
  function Held(outs: seq<seq<Byte>>): Table
    requires AllFormed(outs)
  {
    if outs == [] then NOTHING_HELD else Receive(Held(outs[..|outs| - 1]), outs[|outs| - 1])
  }

  /** A run without cache overflow in which every PPS names an SPS already received. */
  predicate Admissible(nals: seq<seq<Byte>>)
    ensures Admissible(nals) ==> AllComplete(nals) && AllFormed(nals)
  {
    && AllComplete(nals)
    && (nals != [] ==>
          var init, last := nals[..|nals| - 1], nals[|nals| - 1];
          Admissible(init) && Known(BoundAfter(init), last) && Step(Run(init).0, last).1 != [])
  }

  lemma {:induction false} RunKeeps(nals: seq<seq<Byte>>)
    requires Admissible(nals)
    ensures AllComplete(Run(nals).1)
    ensures Inv(Run(nals).0, BoundAfter(nals), Held(Run(nals).1))
  {
    hide Formed, Complete, Inv, Bind, Receive, Step, Known, SetMeans, SliceMeans;
    if nals == [] {
      InvInitially();
    } else {
      var init, last := nals[..|nals| - 1], nals[|nals| - 1];
      RunKeeps(init);
      var (st, outs) := Run(init);
      var (st', out) := Step(st, last);
      StepKeeps(st, BoundAfter(init), Held(outs), last, st', out);
      assert Run(nals).1 == outs + [out] && (outs + [out])[..|outs|] == outs;
    }
  }

  lemma {:induction false} RunPrefix(nals: seq<seq<Byte>>, k: nat)
    requires Admissible(nals) && k <= |nals|
    ensures Admissible(nals[..k]) && Run(nals[..k]).1 == Run(nals).1[..k]
    decreases |nals|
  {
    hide Formed, Complete, Step, Known, BoundAfter;
    if k == |nals| {
      assert nals[..k] == nals && Run(nals).1[..k] == Run(nals).1;
    } else {
      var init := nals[..|nals| - 1];
      RunPrefix(init, k);
      assert init[..k] == nals[..k];
    }
  }

  lemma LastStep(nals: seq<seq<Byte>>)
    requires Admissible(nals) && nals != []
    ensures var k := |nals| - 1;
            && Admissible(nals[..k]) && Complete(nals[k]) && Known(BoundAfter(nals[..k]), nals[k])
            && Step(Run(nals[..k]).0, nals[k]) == (Run(nals).0, Run(nals).1[k]) && Run(nals).1[k] != []
  {
    hide Formed, Inv, BoundAfter, Held, Step, Known;
  }

  /** Unit k of a run, with what input and output had defined before it. */
  lemma At(nals: seq<seq<Byte>>, k: nat)
    requires Admissible(nals) && k < |nals|
    ensures Admissible(nals[..k]) && Admissible(nals[..k + 1]) && AllComplete(Run(nals).1)
    ensures Run(nals[..k]).1 == Run(nals).1[..k] && AllFormed(Run(nals).1[..k])
    ensures Inv(Run(nals[..k]).0, BoundAfter(nals[..k]), Held(Run(nals).1[..k]))
    ensures Complete(nals[k]) && Known(BoundAfter(nals[..k]), nals[k])
    ensures Step(Run(nals[..k]).0, nals[k]) == (Run(nals[..k + 1]).0, Run(nals).1[k]) && Run(nals).1[k] != []
  {
    hide Formed, Complete, Inv, BoundAfter, Held, Step, Known, AllFormed, AllComplete, Run, Admissible;
    RunKeeps(nals);
    RunPrefix(nals, k);
    RunKeeps(nals[..k]);
    RunPrefix(nals, k + 1);
    assert nals[..k + 1][..k] == nals[..k] && nals[..k + 1][k] == nals[k];
    LastStep(nals[..k + 1]);
  }

  /** Over every run, a rewritten slice names, for a decoder of the output, the content that
      was last received under its own PPS id, bound to the SPS content of that moment. */
  lemma EverySliceResolves(nals: seq<seq<Byte>>, k: nat)
    requires Admissible(nals) && k < |nals| && Parse(nals[k]).Slice?
    ensures var outs := Run(nals).1;
            AllComplete(outs)
            && SliceMeans(BoundAfter(nals[..k]), nals[k], Held(outs[..k]), outs[k])
  {
    hide Formed, Complete, Inv, Bind, Receive, Step, Known, SetMeans, SliceMeans, Parse, Admissible, Run, BoundAfter;
    At(nals, k);
    StepKeeps(Run(nals[..k]).0, BoundAfter(nals[..k]), Held(Run(nals).1[..k]), nals[k],
              Run(nals[..k + 1]).0, Run(nals).1[k]);
  }

  /** No id that the output has assigned is ever given other content. */
  lemma {:induction false} IdsAreNeverReused(nals: seq<seq<Byte>>, j: nat, k: nat)
    requires Admissible(nals) && j <= k <= |nals|
    ensures var outs := Run(nals).1;
            AllComplete(outs) && Extends(Held(outs[..j]), Held(outs[..k]))
    decreases k - j
  {
    hide Formed, Complete, Inv, Bind, Receive, Step, Known, SetMeans, SliceMeans, Parse, Admissible, Run, BoundAfter;
    RunKeeps(nals);
    var outs := Run(nals).1;
    if j < k {
      IdsAreNeverReused(nals, j, k - 1);
      At(nals, k - 1);
      StepKeeps(Run(nals[..k - 1]).0, BoundAfter(nals[..k - 1]), Held(outs[..k - 1]), nals[k - 1],
                Run(nals[..k - 1 + 1]).0, outs[k - 1]);
      assert outs[..k][..k - 1] == outs[..k - 1];
    } else {
      ExtendsSelf(Held(outs[..j]));
    }
  }

  /** The content that a PPS of a run carries, with the SPS it is bound to. */
  function PpsContent(nals: seq<seq<Byte>>, k: nat): BoundPps
    requires AllFormed(nals) && k < |nals| && Parse(nals[k]).Pps? && Known(BoundAfter(nals[..k]), nals[k])
  {
    BoundPps(BoundAfter(nals[..k]).sps[Parse(nals[k]).spsId], Kept(Parse(nals[k]).rest))
  }

  /** After a parameter set, the decoder holds its content under its new id. */
  lemma SpsHeldAfter(nals: seq<seq<Byte>>, k: nat)
    requires Admissible(nals) && k < |nals| && Parse(nals[k]).Sps?
    ensures AllComplete(Run(nals).1) && Parse(Run(nals).1[k]).Sps?
    ensures var n, t := Parse(Run(nals).1[k]).id, Held(Run(nals).1[..k + 1]);
            n in t.sps && t.sps[n] == SpsOf(nals[k])
  {
    hide Formed, Complete, Inv, Step, Known, SliceMeans, Parse, Admissible, Run, BoundAfter, Kept, PpsOf;
    At(nals, k);
    var outs := Run(nals).1;
    StepKeeps(Run(nals[..k]).0, BoundAfter(nals[..k]), Held(outs[..k]), nals[k], Run(nals[..k + 1]).0, outs[k]);
    assert outs[..k + 1][..k] == outs[..k];
  }

  /** Two SPS of a run get the same new id exactly when they agree, up to the stop bit, in
      everything but their own id. */
  lemma SameSpsId(nals: seq<seq<Byte>>, j: nat, k: nat)
    requires Admissible(nals) && j <= k < |nals| && Parse(nals[j]).Sps? && Parse(nals[k]).Sps?
    ensures AllComplete(Run(nals).1) && Parse(Run(nals).1[j]).Sps? && Parse(Run(nals).1[k]).Sps?
    ensures Parse(Run(nals).1[j]).id == Parse(Run(nals).1[k]).id <==> SpsOf(nals[j]) == SpsOf(nals[k])
  {
    hide Formed, Complete, Step, Known, Parse, Admissible, Run, BoundAfter, Held;
    SpsHeldAfter(nals, j);
    SpsHeldAfter(nals, k);
    IdsAreNeverReused(nals, j + 1, k + 1);
    HeldDistinct(nals, k + 1);
  }

  /** A decoder never holds one content under two ids. */
  lemma HeldDistinct(nals: seq<seq<Byte>>, k: nat)
    requires Admissible(nals) && k <= |nals|
    ensures AllComplete(Run(nals).1) && AllFormed(Run(nals).1[..k])
    ensures var t := Held(Run(nals).1[..k]);
            && (forall m, n | m in t.sps && n in t.sps :: t.sps[m] == t.sps[n] ==> m == n)
            && (forall m, n | m in t.pps && n in t.pps :: t.pps[m] == t.pps[n] ==> m == n)
            && Named(t)
  {
    hide Formed, Complete, Step, Known, Parse, Admissible, Run, BoundAfter, Held, SpsKey, PpsKey, GoodSps, GoodPps;
    RunPrefix(nals, k);
    RunKeeps(nals[..k]);
    RunKeeps(nals);
  }

  lemma PpsHeldAfter(nals: seq<seq<Byte>>, k: nat)
    requires Admissible(nals) && k < |nals| && Parse(nals[k]).Pps?
    ensures AllComplete(Run(nals).1) && Parse(Run(nals).1[k]).Pps? && Known(BoundAfter(nals[..k]), nals[k])
    ensures var n, t := Parse(Run(nals).1[k]).id, Held(Run(nals).1[..k + 1]);
            n in t.pps && Same(t, n, PpsContent(nals, k))
  {
    hide Formed, Complete, Step, SliceMeans, Parse, Admissible, Run, Kept, SpsOf, PpsOf, Receive, Held;
    hide SpsMirror, PpsMirror, SpsResolves, Distinct, Same;
    At(nals, k);
    var outs := Run(nals).1;
    StepKeeps(Run(nals[..k]).0, BoundAfter(nals[..k]), Held(outs[..k]), nals[k], Run(nals[..k + 1]).0, outs[k]);
    RunKeeps(nals[..k + 1]);
    RunPrefix(nals, k + 1);
    assert nals[..k + 1][..k] == nals[..k];
  }

  lemma SameExtends(t: Table, u: Table, n: nat, p: BoundPps)
    requires Extends(t, u) && n in t.pps && Same(t, n, p)
    ensures n in u.pps && Same(u, n, p)
  {}

  /** Two PPS of a run get the same new id exactly when they agree, up to the stop bit, in
      everything but the ids and the SPS they named had the same content. */
  lemma SamePpsId(nals: seq<seq<Byte>>, j: nat, k: nat)
    requires Admissible(nals) && j <= k < |nals| && Parse(nals[j]).Pps? && Parse(nals[k]).Pps?
    ensures AllComplete(Run(nals).1) && Parse(Run(nals).1[j]).Pps? && Parse(Run(nals).1[k]).Pps?
    ensures Known(BoundAfter(nals[..j]), nals[j]) && Known(BoundAfter(nals[..k]), nals[k])
    ensures Parse(Run(nals).1[j]).id == Parse(Run(nals).1[k]).id <==> PpsContent(nals, j) == PpsContent(nals, k)
  {
    hide Formed, Complete, Step, Known, Parse, Admissible, Run, BoundAfter, Held, PpsContent, Extends;
    PpsHeldAfter(nals, j);
    PpsHeldAfter(nals, k);
    IdsAreNeverReused(nals, j + 1, k + 1);
    HeldDistinct(nals, k + 1);
    SameExtends(Held(Run(nals).1[..j + 1]), Held(Run(nals).1[..k + 1]), Parse(Run(nals).1[j]).id, PpsContent(nals, j));
  }

  // ---------------------------------------------------------------- such runs exist

  lemma RunSnoc(nals: seq<seq<Byte>>, nal: seq<Byte>)
    requires Admissible(nals) && Complete(nal) && Known(BoundAfter(nals), nal) && Step(Run(nals).0, nal).1 != []
    ensures Admissible(nals + [nal]) && Run(nals + [nal]).0 == Step(Run(nals).0, nal).0
    ensures BoundAfter(nals + [nal]) == Bind(BoundAfter(nals), nal)
  {
    hide Formed, Complete, Step, Known, Bind;
    assert (nals + [nal])[..|nals|] == nals;
  }

  lemma RunNothing()
    ensures Admissible([]) && Run([]).0 == Initial() && BoundAfter([]) == NOTHING_BOUND
    ensures [] in Initial().sps && [] in Initial().pps
  {
    var st := Initial();
    assert st.sps[0] == [] && st.pps[0] == [];
  }

  /** A parameter set is transcoded as long as a slot of its cache is free. */
  lemma FreeSlot(st: State, nal: seq<Byte>)
    requires Sized(st) && Formed(nal) && ([] in st.sps || !Parse(nal).Sps?) && ([] in st.pps || !Parse(nal).Pps?)
    ensures Step(st, nal).1 != []
    ensures Parse(nal).Sps? ==> Step(st, nal).0.pps == st.pps
  {
    FormedFields(nal);
    hide Parse, Formed, Kept;
    match Parse(nal)
    case Sps(head, id, rest) => assert |SpsCode(head, 0, rest)| > 0;
    case Pps(id, spsId, rest) => PpsCodeSome(0, st.mapSps[spsId], rest);
    case Slice(_, _, _, _) =>
    case Other =>
  }

  lemma PpsCodeSome(id: nat, spsId: nat, rest: seq<bool>)
    ensures PpsCode(id, spsId, rest) != []
  {
    SizeBound(id + 1);
    assert |UeCode(id)| > 0;
  }

  /** Runs of the kind the theorems speak of exist for every content: an SPS, a PPS that names
      it, and a slice that names the PPS. */
  lemma SpsPpsSlice(a: seq<Byte>, b: seq<Byte>, c: seq<Byte>)
    requires Complete(a) && Complete(b) && Complete(c) && Parse(a).Sps? && Parse(b).Pps? && Parse(c).Slice?
    requires Parse(b).spsId == Parse(a).id && Parse(c).ppsId == Parse(b).id
    ensures Admissible([a, b, c]) && Admissible([a, b]) && Parse(c).ppsId in BoundAfter([a, b]).pps
  {
    hide Parse, Formed, Stopped, Kept, Admissible, Run, BoundAfter, Step;
    RunNothing();
    FreeSlot(Initial(), a);
    RunSnoc([], a);
    assert [] + [a] == [a];
    FreeSlot(Run([a]).0, b);
    RunSnoc([a], b);
    assert [a] + [b] == [a, b];
    FreeSlot(Run([a, b]).0, c);
    RunSnoc([a, b], c);
    assert [a, b] + [c] == [a, b, c];
  }
}
