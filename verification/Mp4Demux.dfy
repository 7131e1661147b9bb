/** The demuxer of stream/minimp4.hpp (MP4D_open): one pass over a file of any bytes, with a
    stack of the boxes around the position and the tracks found so far. */
module Mp4Demux {
  import opened Wrappers
  import opened Bits
  import opened Mp4Bytes

  const WORD64 := WORD * WORD

  /** MAX_CHUNKS_DEPTH. */
  const DEPTH_LIMIT := 64

  /** A box around the position: the bytes left in it, and whether boxes or descriptors are in it. */
  datatype Level = Level(bytes: nat, od: bool)

  /** What is found of a track: its decoder configuration and the contents of its tables. */
  datatype Found = Found(dsi: seq<Byte>, stts: Option<seq<Byte>>, stsc: Option<seq<Byte>>, stsz: Option<seq<Byte>>,
                         offsets: Option<seq<Byte>>, wide: bool)

  const NOTHING := Found([], None, None, None, None, false)

  /** The tracks left behind, and the one that is being filled. */
  datatype Memory = Memory(done: seq<Found>, current: Option<Found>)

  function TracksOf(m: Memory): seq<Found> {
    match m.current
    case None => m.done
    case Some(f) => m.done + [f]
  }

  datatype State = State(pos: nat, stack: seq<Level>, mem: Memory)

  /** A box passed or entered, the end of the pass, or an error that gives everything up. */
  datatype Turn = Go(state: State) | End(mem: Memory) | Fail

  /** The type of a box, the tag of a descriptor, or nothing for a box with a bad size. */
  datatype Name = Atom(kind: nat) | Tag(tag: Byte) | NoName

  /** A header: `bytes` were read, `counted` is what the source counts of them. */
  datatype Head = Head(name: Name, size: nat, payload: nat, bytes: nat, counted: nat, version: nat)
                | NoHead
                | BadHead

  // ---------------------------------------------------------------- headers

  /** The header of a box at pos. A size of 0 or 2^32 - 1 stands for "to the end of the file". */
  function AtomHead(file: seq<Byte>, pos: nat): (h: Head)
    requires pos <= |file|
    ensures h.Head? ==> h.bytes >= 8 && pos + h.bytes <= |file| && h.size > 0
  {
    if pos + 4 > |file| then NoHead
    else
      var size := Value32(file[pos..pos + 4]);
      if 2 <= size < 8 then BadHead
      else if pos + 8 > |file| then NoHead
      else
        var name := Atom(Value32(file[pos + 4..pos + 8]));
        if size == 1 then
          if pos + 16 > |file| then NoHead
          else
            var wide := Value32(file[pos + 8..pos + 12]) * WORD + Value32(file[pos + 12..pos + 16]);
            if wide < 16 then BadHead else Head(name, wide, wide - 16, 16, 8, 0)
        else if size == 0 || size == 0xffff_ffff then Head(name, WORD64 - 1, WORD64 - 9, 8, 8, 0)
        else Head(name, size, size - 8, 8, 8, 0)
  }

  /** The length of a descriptor: seven bits from each byte, in 64 bits, up to the first byte
      below 128. */
  datatype LengthField = LengthField(value: nat, end: nat)

  function TagLength(file: seq<Byte>, p: nat, value: nat): (r: Option<LengthField>)
    requires p <= |file|
    ensures r.Some? ==> p < r.value.end <= |file| && r.value.value < WORD64
    decreases |file| - p
  {
    if p == |file| then None
    else
      var v := (value * 128 + file[p] % 128) % WORD64;
      if file[p] >= 128 then TagLength(file, p + 1, v) else Some(LengthField(v, p + 1))
  }

  /** The header of a descriptor at pos; its size is computed in 64 bits. */
  function TagHead(file: seq<Byte>, pos: nat): (h: Head)
    requires pos <= |file|
    ensures h.Head? ==> h.bytes >= 2 && pos + h.bytes <= |file|
  {
    if pos == |file| then NoHead
    else
      match TagLength(file, pos + 1, 0)
      case None => BadHead
      case Some(l) =>
        Head(Tag(file[pos]), (l.end - pos + l.value) % WORD64, l.value, l.end - pos, l.end - pos, 0)
  }

  // ---------------------------------------------------------------- kinds of boxes

  /** The full boxes whose version is looked at, with the highest one understood. */
  function MaxVersion(kind: nat): Option<nat> {
    match kind
    case 0x6d64_6864 => Some(1) // mdhd
    case 0x6d76_6864 => Some(1) // mvhd
    case 0x6864_6c72 => Some(0) // hdlr
    case 0x6d65_7461 => Some(0) // meta
    case 0x7374_7473 => Some(0) // stts
    case 0x6374_7473 => Some(0) // ctts
    case 0x7374_7a32 => Some(0) // stz2
    case 0x7374_737a => Some(0) // stsz
    case 0x7374_7363 => Some(0) // stsc
    case 0x7374_636f => Some(0) // stco
    case 0x636f_3634 => Some(0) // co64
    case 0x7374_7364 => Some(0) // stsd
    case 0x6573_6473 => Some(0) // esds
    case _ => None
  }

  /** The full boxes that are refused outside of a track. */
  predicate TrackTable(kind: nat) {
    kind in {0x6d64_6864, 0x7374_7a32, 0x7374_737a, 0x7374_7363, 0x7374_636f, 0x636f_3634, 0x6573_6473}
  }

  /** The boxes and descriptors that are read into the current track. */
  predicate TrackPart(name: Name) {
    match name
    case Atom(kind) => (TrackTable(kind) && kind != 0x6573_6473)
      || kind in {0x7374_7473, 0x6d70_3461, 0x6d70_3473, 0x6d70_3476, 0x6176_6331, 0x6176_6343, 0x6274_7274}
    case Tag(tag) => tag == 4 || tag == 5
    case NoName => false
  }

  /** The boxes entered, and whether what is in them are descriptors. */
  function Envelope(name: Name): Option<bool> {
    match name
    case Atom(kind) => (
      match kind
      case 0x6573_6473 => Some(true)  // esds
      case 0x7472_616b => Some(false) // trak
      case 0x6d6f_6f76 => Some(false) // moov
      case 0x6d64_6961 => Some(false) // mdia
      case 0x7472_6566 => Some(false) // tref
      case 0x6d69_6e66 => Some(false) // minf
      case 0x6469_6e66 => Some(false) // dinf
      case 0x7374_626c => Some(false) // stbl
      case 0x7374_7364 => Some(false) // stsd
      case 0x6d70_3461 => Some(false) // mp4a
      case 0x6d70_3473 => Some(false) // mp4s
      case 0x6d70_3476 => Some(false) // mp4v
      case 0x6176_6331 => Some(false) // avc1
      case 0x6876_6331 => Some(false) // hvc1
      case 0x7564_7461 => Some(false) // udta
      case 0x6d65_7461 => Some(false) // meta
      case 0x696c_7374 => Some(false) // ilst
      case _ => None)
    case Tag(tag) => if tag == 3 || tag == 4 || tag == 5 then Some(true) else None
    case NoName => None
  }

  // ---------------------------------------------------------------- what is read of a box

  /** n entries of a list of parameter sets from p on, each behind its length of two bytes. */
  function ListEnd(data: seq<Byte>, p: nat, n: nat): (e: Option<nat>)
    requires p <= |data|
    ensures e.Some? ==> p <= e.value <= |data|
    decreases n
  {
    if n == 0 then Some(p)
    else if p + 2 > |data| then None
    else
      var next := p + 2 + data[p] as nat * 256 + data[p + 1];
      if next > |data| then None else ListEnd(data, next, n - 1)
  }

  /** The end of the parameter sets of an avcC box: SPS, counted in five bits, and PPS. */
  function AvcEnd(data: seq<Byte>): (e: Option<nat>)
    ensures e.Some? ==> 6 < e.value <= |data|
  {
    if |data| < 6 then None
    else
      match ListEnd(data, 6, data[5] % 32)
      case None => None
      case Some(e) => if e >= |data| then None else ListEnd(data, e + 1, data[e])
  }

  function Min(a: nat, b: nat): nat {
    if a < b then a else b
  }

  /** The fields of an ES descriptor that its flags call for: where the last read ends, and
      where its descriptors begin. */
  function EsFields(data: seq<Byte>, payload: nat): (r: (nat, nat))
    requires |data| <= payload
    ensures r.0 <= |data| ==> r.1 <= payload
  {
    if |data| < 3 then (3, 0)
    else
      var flags := data[2];
      var a := if flags / 128 % 2 == 1 then Min(payload, 5) else 3;
      var url := flags / 64 % 2 == 1;
      if url && a >= |data| then (a + 1, 0)
      else
        var b := if url then Min(payload, a + 1 + data[a]) else a;
        (if url then a + 1 else 3, if flags / 32 % 2 == 1 then Min(payload, b + 2) else b)
  }

  /** The bytes of its payload that a box must have: with fewer, a read ends the pass. */
  function Need(name: Name, data: seq<Byte>, payload: nat, version: nat, mem: Memory): nat
    requires |data| <= payload
  {
    match name
    case Atom(kind) => (
      match kind
      case 0x7374_737a => // stsz
        if |data| < 8 then 8 else if Word(data, 0) == 0 then 8 + 4 * Word(data, 4) else 8
      case 0x7374_7363 => // stsc
        if |data| < 4 || Word(data, 0) == 0 then 4 else 12 * Word(data, 0)
      case 0x7374_7473 => if |data| < 4 then 4 else 4 + 8 * Word(data, 0) // stts
      case 0x6374_7473 => if |data| < 4 then 4 else 4 + 8 * Word(data, 0) // ctts
      case 0x7374_636f => if |data| < 4 then 4 else 4 + 4 * Word(data, 0) // stco
      case 0x636f_3634 => if |data| < 4 then 4 else 4 + 8 * Word(data, 0) // co64
      case 0x6d76_6864 => if version == 1 then 28 else 16 // mvhd
      case 0x6d64_6864 => if version == 1 then 30 else 18 // mdhd
      case 0x6864_6c72 => if mem.current.Some? then 8 else 0 // hdlr
      case 0x6274_7274 => 12 // btrt
      case 0x6d70_3461 => 28 // mp4a
      case 0x6d70_3476 => 28 // mp4v
      case 0x6176_6331 => 28 // avc1
      case 0x6176_6343 => // avcC
        (match AvcEnd(data)
         case None => |data| + 1
         case Some(e) => e)
      case _ => 0)
    case Tag(tag) =>
      if tag == 3 then EsFields(data, payload).0
      else if tag == 4 then 13
      else if tag == 5 && Unset(mem) then payload
      else 0
    case NoName => 0
  }

  predicate Unset(mem: Memory) {
    mem.current.Some? && mem.current.value.dsi == []
  }

  /** The bytes in front of the boxes inside. */
  function Used(name: Name, data: seq<Byte>, payload: nat, version: nat, mem: Memory): (n: nat)
    requires |data| <= payload && Need(name, data, payload, version, mem) <= |data|
    ensures n <= payload
  {
    match name
    case Atom(kind) => (
      match kind
      case 0x7374_7364 => Min(payload, 4) // stsd
      case 0x6d70_3473 => Min(payload, 8) // mp4s
      case 0x6d70_3461 => 28 // mp4a
      case 0x6d70_3476 => Min(payload, 78) // mp4v
      case 0x6176_6331 => Min(payload, 78) // avc1
      case _ => 0)
    case Tag(tag) =>
      if tag == 3 then EsFields(data, payload).1
      else if tag == 4 then 13
      else if tag == 5 && Unset(mem) then payload
      else 0
    case NoName => 0
  }

  /** What a box adds to what has been found. */
  function Store(name: Name, data: seq<Byte>, payload: nat, version: nat, mem: Memory): Memory
    requires |data| <= payload && Need(name, data, payload, version, mem) <= |data|
  {
    match name
    case Atom(kind) =>
      if kind == 0x7472_616b then Memory(TracksOf(mem), Some(NOTHING)) // trak
      else if kind == 0x6d65_7461 then Memory(TracksOf(mem), None) // meta
      else if mem.current.None? then mem
      else mem.(current := Some(Filled(kind, data, mem.current.value)))
    case Tag(tag) =>
      if tag == 5 && Unset(mem) && payload > 0 then mem.(current := Some(mem.current.value.(dsi := data))) else mem
    case NoName => mem
  }

  function Filled(kind: nat, data: seq<Byte>, f: Found): Found {
    match kind
    case 0x7374_7473 => f.(stts := Some(data))
    case 0x7374_7363 => f.(stsc := Some(data))
    case 0x7374_737a => f.(stsz := Some(data))
    case 0x7374_636f => f.(offsets := Some(data), wide := false)
    case 0x636f_3634 => f.(offsets := Some(data), wide := true)
    case 0x6176_6343 => (
      match AvcEnd(data)
      case None => f
      case Some(e) => f.(dsi := [data[5] % 32] + data[6..e]))
    case _ => f
  }

  // ---------------------------------------------------------------- one turn of the loop

  /** Levels that are used up are left; an envelope may leave several at once. */
  function Popped(stack: seq<Level>): (r: seq<Level>)
    ensures r != [] ==> r[|r| - 1].bytes > 0
  {
    if stack != [] && stack[|stack| - 1].bytes == 0 then Popped(stack[..|stack| - 1]) else stack
  }

  /** The innermost box has n bytes fewer left, or none. */
  function Lower(stack: seq<Level>, n: nat): (r: seq<Level>)
    ensures |r| == |stack|
  {
    if stack == [] then []
    else
      var k := |stack| - 1;
      stack[k := stack[k].(bytes := stack[k].bytes - Min(n, stack[k].bytes))]
  }

  /** What the file has of the n bytes at p. */
  function Available(file: seq<Byte>, p: nat, n: nat): (data: seq<Byte>)
    requires p <= |file|
    ensures |data| <= n
  {
    if p + n <= |file| then file[p..p + n] else file[p..]
  }

  /** The contents of a box: entered, passed, or short of bytes. */
  function Enter(file: seq<Byte>, p: nat, stack: seq<Level>, h: Head, mem: Memory): (t: Turn)
    requires p <= |file| && h.Head?
    ensures t.Go? ==> t.state.pos >= p
  {
    var data := Available(file, p, h.payload);
    if TrackPart(h.name) && mem.current.None? then Fail
    else if |data| < Need(h.name, data, h.payload, h.version, mem) then End(mem)
    else
      var found := Store(h.name, data, h.payload, h.version, mem);
      match Envelope(h.name)
      case None => Go(State(p + h.payload, Popped(stack), found))
      case Some(od) =>
        if |stack| + 1 >= DEPTH_LIMIT then Fail
        else
          var n := Used(h.name, data, h.payload, h.version, mem);
          Go(State(p + n, Popped(stack + [Level(h.payload - n, od)]), found))
  }

  /** A box larger than the one around it is cut to what is left of that, and has no name. */
  function Fitted(stack: seq<Level>, h: Head): (r: Head)
    requires h.Head?
    ensures r.Head? && r.bytes == h.bytes
  {
    if stack != [] && h.size > stack[|stack| - 1].bytes
    then h.(name := NoName, payload := (stack[|stack| - 1].bytes - h.counted) % WORD64)
    else h
  }

  function Place(file: seq<Byte>, s: State, h: Head): (t: Turn)
    requires h.Head? && h.bytes > 0 && s.pos + h.bytes <= |file|
    ensures t.Go? ==> t.state.pos > s.pos
  {
    if s.stack != [] && h.size == 0 then Fail
    else Enter(file, s.pos + h.bytes, Lower(s.stack, h.size), Fitted(s.stack, h), s.mem)
  }

  /** A header that is complete, or what else a full box leads to. */
  datatype Checked = Ready(head: Head) | Out(turn: Turn)

  /** Version and flags of a full box. A meta box that lacks them is entered at once. */
  function FullHead(file: seq<Byte>, s: State, h: Head, kind: nat, max: nat): (c: Checked)
    requires h.Head? && h.bytes > 0 && s.pos + h.bytes <= |file|
    ensures c.Ready? ==> c.head.Head? && c.head.bytes > 0 && s.pos + c.head.bytes <= |file|
    ensures c.Out? && c.turn.Go? ==> c.turn.state.pos > s.pos
  {
    var p := s.pos + h.bytes;
    var refused := TrackTable(kind) && s.mem.current.None?;
    if h.payload < 4 || p + 4 > |file| then
      var count := if h.payload >= 4 then 4 else if h.payload == 0 then 1 else h.payload;
      Out(if s.stack != [] && (refused || p + count > |file|) then Fail else End(s.mem))
    else
      var flags := Word(file, p);
      if kind == 0x6d65_7461 && 8 <= flags < h.payload - 4 && s.stack != [] then
        if h.size > s.stack[|s.stack| - 1].bytes || |s.stack| + 1 >= DEPTH_LIMIT then Out(Fail)
        else Out(Go(State(p, Lower(s.stack, h.size) + [Level(h.payload, false)], s.mem)))
      else if s.stack != [] && (flags / 0x100_0000 > max || refused) then Out(Fail)
      else
        Ready(h.(bytes := h.bytes + 4, payload := h.payload - 4, counted := h.counted + 4,
                 version := flags / 0x100_0000))
  }

  function CheckedHead(file: seq<Byte>, s: State, h: Head): (c: Checked)
    requires h.Head? && h.bytes > 0 && s.pos + h.bytes <= |file|
    ensures c.Ready? ==> c.head.Head? && c.head.bytes > 0 && s.pos + c.head.bytes <= |file|
    ensures c.Out? && c.turn.Go? ==> c.turn.state.pos > s.pos
  {
    if h.name.Atom? && MaxVersion(h.name.kind).Some?
    then FullHead(file, s, h, h.name.kind, MaxVersion(h.name.kind).value)
    else Ready(h)
  }

  predicate InDescriptors(stack: seq<Level>) {
    stack != [] && stack[|stack| - 1].od
  }

  function HeadAt(file: seq<Byte>, s: State): (h: Head)
    requires s.pos <= |file|
    ensures h.Head? ==> h.bytes > 0 && s.pos + h.bytes <= |file|
  {
    if InDescriptors(s.stack) then TagHead(file, s.pos) else AtomHead(file, s.pos)
  }

  function TurnOn(file: seq<Byte>, s: State, h: Head): (t: Turn)
    requires h.Head? ==> h.bytes > 0 && s.pos + h.bytes <= |file|
    ensures t.Go? ==> t.state.pos > s.pos
  {
    match h
    case NoHead => End(s.mem)
    case BadHead => if s.stack == [] then End(s.mem) else Fail
    case Head(_, _, _, _, _, _) =>
      match CheckedHead(file, s, h)
      case Out(turn) => turn
      case Ready(head) => Place(file, s, head)
  }

  function Step(file: seq<Byte>, s: State): (t: Turn)
    requires s.pos < |file|
    ensures t.Go? ==> t.state.pos > s.pos
  {
    TurnOn(file, s, HeadAt(file, s))
  }

  /** The whole pass from a state on: what has been found at its end, or nothing after an error. */
  function Walk(file: seq<Byte>, s: State): Option<Memory>
    decreases |file| - s.pos
  {
    if s.pos >= |file| then Some(s.mem)
    else
      match Step(file, s)
      case Go(next) => Walk(file, next)
      case End(mem) => Some(mem)
      case Fail => None
  }

  const START := State(0, [], Memory([], None))

  /** The tracks of a file; a file without tracks is not opened. */
  function Opened(file: seq<Byte>): Option<seq<Found>> {
    match Walk(file, START)
    case None => None
    case Some(mem) => if TracksOf(mem) == [] then None else Some(TracksOf(mem))
  }

  // ---------------------------------------------------------------- the loop

  /** Reading a descriptor's length byte by byte. */
  method ReadTagLength(file: seq<Byte>, p: nat) returns (r: Option<LengthField>)
    requires p <= |file|
    ensures r == TagLength(file, p, 0)
  {
    var value: nat, q := 0, p;
    while q < |file|
      invariant p <= q <= |file| && TagLength(file, p, 0) == TagLength(file, q, value)
    {
      value := (value * 128 + file[q] % 128) % WORD64;
      q := q + 1;
      if file[q - 1] < 128 {
        return Some(LengthField(value, q));
      }
    }
    return None;
  }

  method ReadTagHead(file: seq<Byte>, pos: nat) returns (h: Head)
    requires pos <= |file|
    ensures h == TagHead(file, pos)
  {
    hide TagLength;
    if pos == |file| {
      return NoHead;
    }
    var length := ReadTagLength(file, pos + 1);
    if length.None? {
      return BadHead;
    }
    var bytes := length.value.end - pos;
    h := Head(Tag(file[pos]), (bytes + length.value.value) % WORD64, length.value.value, bytes, bytes, 0);
  }

  /** The loop that leaves the levels that are used up. */
  method Leave(stack: seq<Level>) returns (r: seq<Level>)
    ensures r == Popped(stack)
  {
    r := stack;
    while r != [] && r[|r| - 1].bytes == 0
      invariant Popped(r) == Popped(stack)
    {
      r := r[..|r| - 1];
    }
  }

  /** The two loops over the parameter sets of an avcC box. */
  method ReadAvc(data: seq<Byte>) returns (e: Option<nat>)
    ensures e == AvcEnd(data)
  {
    hide ListEnd;
    if |data| < 6 {
      return None;
    }
    var p, count := 6, data[5] as int % 32;
    e := ReadList(data, p, count);
    if e.None? || e.value >= |data| {
      return None;
    }
    e := ReadList(data, e.value + 1, data[e.value]);
  }

  method ReadList(data: seq<Byte>, start: nat, count: nat) returns (e: Option<nat>)
    requires start <= |data|
    ensures e == ListEnd(data, start, count)
  {
    var p: nat := start;
    for i := 0 to count
      invariant p <= |data| && ListEnd(data, start, count) == ListEnd(data, p, count - i)
    {
      if p + 2 > |data| {
        return None;
      }
      p := p + 2 + data[p] as nat * 256 + data[p + 1];
      if p > |data| {
        return None;
      }
    }
    return Some(p);
  }

  method EnterBox(file: seq<Byte>, p: nat, stack: seq<Level>, h: Head, mem: Memory) returns (t: Turn)
    requires p <= |file| && h.Head?
    ensures t == Enter(file, p, stack, h, mem)
  {
    hide Popped, AvcEnd, TrackTable, EsFields;
    var data := Available(file, p, h.payload);
    if TrackPart(h.name) && mem.current.None? {
      return Fail;
    }
    var found := mem;
    if h.name == Atom(0x6176_6343) {
      var e := ReadAvc(data);
      if e.None? {
        return End(mem);
      }
      found := mem.(current := Some(mem.current.value.(dsi := [data[5] % 32] + data[6..e.value])));
    } else {
      if |data| < Need(h.name, data, h.payload, h.version, mem) {
        return End(mem);
      }
      found := Store(h.name, data, h.payload, h.version, mem);
    }
    var od := Envelope(h.name);
    var inner := stack;
    var q := p + h.payload;
    if od.Some? {
      if |stack| + 1 >= DEPTH_LIMIT {
        return Fail;
      }
      var n := Used(h.name, data, h.payload, h.version, mem);
      inner := stack + [Level(h.payload - n, od.value)];
      q := p + n;
    }
    inner := Leave(inner);
    return Go(State(q, inner, found));
  }

  method OneBox(file: seq<Byte>, s: State) returns (t: Turn)
    requires s.pos < |file|
    ensures t == Step(file, s)
  {
    hide HeadAt, FullHead, MaxVersion, Enter, Fitted;
    var h := ReadHead(file, s);
    if h.NoHead? {
      return End(s.mem);
    }
    if h.BadHead? {
      return if s.stack == [] then End(s.mem) else Fail;
    }
    var c := CheckedHead(file, s, h);
    if c.Out? {
      return c.turn;
    }
    h := c.head;
    if s.stack != [] && h.size == 0 {
      return Fail;
    }
    t := EnterBox(file, s.pos + h.bytes, Lower(s.stack, h.size), Fitted(s.stack, h), s.mem);
  }

  /** MP4D_open: box after box until the file ends or an error turns up. */
  method Open(file: seq<Byte>) returns (r: Option<seq<Found>>)
    ensures r == Opened(file)
  {
    hide Step;
    var pos, stack, mem := 0, [], Memory([], None);
    while pos < |file|
      invariant Walk(file, State(pos, stack, mem)) == Walk(file, START)
      decreases |file| - pos
    {
      var turn := OneBox(file, State(pos, stack, mem));
      match turn {
        case Fail => return None;
        case End(last) =>
          mem := last;
          break;
        case Go(next) => pos, stack, mem := next.pos, next.stack, next.mem;
      }
    }
    return if TracksOf(mem) == [] then None else Some(TracksOf(mem));
  }

  method ReadHead(file: seq<Byte>, s: State) returns (h: Head)
    requires s.pos <= |file|
    ensures h == HeadAt(file, s)
  {
    hide TagHead, AtomHead;
    if InDescriptors(s.stack) {
      h := ReadTagHead(file, s.pos);
    } else {
      h := AtomHead(file, s.pos);
    }
  }
}
