/** Incremental parsing of a byte stream: the receive buffer of buffer.hpp and the loops of
    net/socket.hpp and net/tcp.hpp that hand it to a protocol handler. */
module Framing {
  import opened Seqs
  import opened Bits

  /** A protocol handler looks at the buffered bytes: it answers the length of the message at
      their front, 0 if it needs more bytes, or a negative number to end the session. */
  type Handler = seq<Byte> -> int

  // ---------------------------------------------------------------- the buffer

  class Buffer {
    var v: seq<Byte>
    var capacity: nat

    ghost predicate Valid()
      reads this
    {
      |v| <= capacity
    }

    constructor ()
      ensures Valid() && v == []
    {
      v, capacity := [], 0;
    }

    /** tryWrite: grows by twice the new bytes when they do not fit. */
    method Write(p: seq<Byte>) returns (n: nat)
      requires Valid()
      modifies this
      ensures Valid() && v == old(v) + p && n == |p|
    {
      var s := capacity;
      if |v| + |p| > s {
        s := s + 2 * |p|;
        capacity := s;
      }
      v := v + p;
      return |p|;
    }

    /** tryRead: takes up to n bytes off the front. */
    method Read(n: nat) returns (p: seq<Byte>)
      requires Valid()
      modifies this
      ensures Valid() && p + v == old(v) && |p| == if n > |old(v)| then |old(v)| else n
    {
      var m := if n > |v| then |v| else n;
      p := v[..m];
      if m > 0 {
        v := v[m..];
      }
    }

    /** Remove. */
    method Remove(n: nat) returns (m: nat)
      requires Valid()
      modifies this
      ensures Valid() && m == (if n > |old(v)| then |old(v)| else n) && v == old(v)[m..]
    {
      m := if n > |v| then |v| else n;
      v := v[m..];
    }
  }

  // ---------------------------------------------------------------- what is parsed

  /** The messages delivered, the bytes left over, and whether the handler ended the session. */
  datatype Outcome = Outcome(messages: seq<seq<Byte>>, left: seq<Byte>, ended: bool)

  function Min(a: int, b: int): int { if a < b then a else b }

  /** Handing b to the handler until it asks for more bytes or ends the session. */
  function Drain(h: Handler, b: seq<Byte>): Outcome
    decreases |b|
  {
    var l := h(b);
    if l < 0 then Outcome([], b, true)
    else if l == 0 || b == [] then Outcome([], b, false)
    else
      var n := Min(l, |b|);
      var o := Drain(h, b[n..]);
      o.(messages := [b[..n]] + o.messages)
  }

  /** A stream that arrives in chunks. */
  function Session(h: Handler, buffered: seq<Byte>, chunks: seq<seq<Byte>>): Outcome
    decreases |chunks|
  {
    if chunks == [] then Outcome([], buffered, false)
    else
      var o := Drain(h, buffered + chunks[0]);
      if o.ended then o
      else
        var s := Session(h, o.left, chunks[1..]);
        s.(messages := o.messages + s.messages)
  }

  function Joined(chunks: seq<seq<Byte>>): seq<Byte> {
    if chunks == [] then [] else chunks[0] + Joined(chunks[1..])
  }

  /** Answers stand when more bytes arrive: a length stays the same, an end stays an end. */
  ghost predicate Stable(h: Handler) {
    && (forall b, more :: h(b) > 0 ==> h(b + more) == h(b))
    && (forall b, more :: h(b) < 0 ==> h(b + more) < 0)
  }

  /** What every handler must do for the loops to make sense: nothing on no bytes, and never
      more than there is. */
  ghost predicate Sound(h: Handler) {
    h([]) == 0 && forall b: seq<Byte> :: h(b) <= |b|
  }

  // ---------------------------------------------------------------- independence of the split

  /** Draining b and then what is left with more behind it is draining all at once. */
  lemma {:induction false} DrainMore(h: Handler, b: seq<Byte>, more: seq<Byte>)
    requires Sound(h) && Stable(h)
    ensures var o, all := Drain(h, b), Drain(h, b + more);
            if o.ended then all == o.(left := o.left + more)
            else var o2 := Drain(h, o.left + more); all == o2.(messages := o.messages + o2.messages)
    decreases |b|
  {
    var l := h(b);
    if l > 0 && b != [] {
      assert h(b + more) == l;
      assert (b + more)[l..] == b[l..] + more && (b + more)[..l] == b[..l];
      DrainMore(h, b[l..], more);
      var o := Drain(h, b[l..]);
      if !o.ended {
        Assoc([b[..l]], o.messages, Drain(h, o.left + more).messages);
      }
    } else if l < 0 {
      assert h(b + more) < 0;
    } else {
      NothingBehind(Drain(h, b + more).messages);
    }
  }

  /** What is left over contains no further message. */
  lemma {:induction false} DrainedTwice(h: Handler, b: seq<Byte>)
    requires !Drain(h, b).ended
    ensures var r := Drain(h, b).left; Drain(h, r) == Outcome([], r, false)
    decreases |b|
  {
    var l := h(b);
    if l > 0 && b != [] {
      DrainedTwice(h, b[Min(l, |b|)..]);
    }
  }

  /** The session's result, with the chunks that an ended session did not read put back. */
  predicate SameOutcome(s: Outcome, all: Outcome) {
    s.messages == all.messages && s.ended == all.ended && (!s.ended ==> s.left == all.left)
  }

  lemma {:induction false} SessionIsDrain(h: Handler, buffered: seq<Byte>, chunks: seq<seq<Byte>>)
    requires Sound(h) && Stable(h) && Drain(h, buffered) == Outcome([], buffered, false)
    ensures SameOutcome(Session(h, buffered, chunks), Drain(h, buffered + Joined(chunks)))
    decreases |chunks|
  {
    if chunks == [] {
      NothingBehind(buffered);
    } else {
      var b, rest := buffered + chunks[0], Joined(chunks[1..]);
      Assoc(buffered, chunks[0], rest);
      DrainMore(h, b, rest);
      var o := Drain(h, b);
      if !o.ended {
        DrainedTwice(h, b);
        SessionIsDrain(h, o.left, chunks[1..]);
      }
    }
  }

  /** The outcome does not depend on how the bytes were split into reads. */
  ghost predicate SplitIndependent(h: Handler) {
    forall chunks :: SameOutcome(Session(h, [], chunks), Drain(h, Joined(chunks)))
  }

  /** A sound handler makes the outcome independent of the split exactly if its answers stand
      when more bytes arrive. */
  lemma IndependentIffStable(h: Handler)
    requires Sound(h)
    ensures SplitIndependent(h) <==> Stable(h)
  {
    if Stable(h) {
      forall chunks ensures SameOutcome(Session(h, [], chunks), Drain(h, Joined(chunks))) {
        SessionIsDrain(h, [], chunks);
        NothingBehind(Joined(chunks));
      }
    }
    if SplitIndependent(h) {
      forall b, more
        ensures h(b) > 0 ==> h(b + more) == h(b)
        ensures h(b) < 0 ==> h(b + more) < 0 {
        TwoChunks(h, b, more);
      }
    }
  }

  /** Two reads tell a handler that changes its answer from one that does not. */
  lemma TwoChunks(h: Handler, b: seq<Byte>, more: seq<Byte>)
    requires Sound(h) && SplitIndependent(h)
    ensures h(b) > 0 ==> h(b + more) == h(b)
    ensures h(b) < 0 ==> h(b + more) < 0
  {
    var chunks := [b, more];
    assert chunks[1..] == [more] && [more][1..] == [] && Joined([]) == [];
    assert Joined([more]) == more + Joined([]);
    NothingBehind(more);
    assert Joined(chunks) == b + more;
    NothingBehind(b);
    var s, all := Session(h, [], chunks), Drain(h, b + more);
    assert SameOutcome(s, all);
    var o := Drain(h, b);
    assert [] + chunks[0] == b;
    if h(b) > 0 {
      assert b != [];
      assert o.messages[0] == b[..h(b)];
      assert s.messages[0] == o.messages[0];
      assert all.messages[0] == s.messages[0];
      assert h(b + more) > 0;
      assert all.messages[0] == (b + more)[..h(b + more)];
      assert |all.messages[0]| == h(b + more) && |o.messages[0]| == h(b);
    } else if h(b) < 0 {
      assert s == o && all.ended && all.messages == [];
    }
  }

  // ---------------------------------------------------------------- the loops

  /** Calls the handler on the buffered bytes and removes what it consumes: the inner loop of
      LoopRead and DispatchMessages. */
  method Dispatch(h: Handler, rbuf: Buffer) returns (messages: seq<seq<Byte>>, ended: bool)
    requires rbuf.Valid() && h([]) <= 0
    modifies rbuf
    ensures rbuf.Valid() && Outcome(messages, rbuf.v, ended) == Drain(h, old(rbuf.v))
  {
    messages := [];
    NothingBehind(Drain(h, rbuf.v).messages);
    while true
      invariant rbuf.Valid()
      invariant var o := Drain(h, rbuf.v); Drain(h, old(rbuf.v)) == o.(messages := messages + o.messages)
      decreases |rbuf.v|
    {
      var l := h(rbuf.v);
      if l < 0 {
        NothingBehind(messages);
        return messages, true;
      }
      if l == 0 {
        NothingBehind(messages);
        return messages, false;
      }
      ghost var rest := Drain(h, rbuf.v[Min(l, |rbuf.v|)..]);
      Assoc(messages, [rbuf.v[..Min(l, |rbuf.v|)]], rest.messages);
      messages := messages + [rbuf.v[..Min(l, |rbuf.v|)]];
      var _ := rbuf.Remove(l);
    }
  }

  /** TcpConn::LoopRead, up to the end of the stream or of the session. */
  method LoopRead(h: Handler, chunks: seq<seq<Byte>>) returns (o: Outcome)
    requires h([]) <= 0
    ensures o == Session(h, [], chunks)
    ensures Sound(h) && Stable(h) ==> SameOutcome(o, Drain(h, Joined(chunks)))
  {
    hide Drain, Joined;
    var rbuf := new Buffer();
    var messages := [];
    ghost var whole := Session(h, [], chunks);
    assert chunks[0..] == chunks;
    NothingBehind(whole.messages);
    if Sound(h) && Stable(h) {
      NoBytes(h);
      SessionIsDrain(h, [], chunks);
      NothingBehind(Joined(chunks));
    }
    for k := 0 to |chunks|
      invariant rbuf.Valid() && fresh(rbuf)
      invariant var s := Session(h, rbuf.v, chunks[k..]); whole == s.(messages := messages + s.messages)
    {
      ghost var before := rbuf.v;
      assert chunks[k..][0] == chunks[k] && chunks[k..][1..] == chunks[k + 1..];
      var _ := rbuf.Write(chunks[k]);
      var found, ended := Dispatch(h, rbuf);
      Assoc(messages, found, Session(h, rbuf.v, chunks[k + 1..]).messages);
      messages := messages + found;
      if ended {
        return Outcome(messages, rbuf.v, true);
      }
    }
    NothingBehind(messages);
    return Outcome(messages, rbuf.v, false);
  }

  lemma NoBytes(h: Handler)
    requires Sound(h)
    ensures Drain(h, []) == Outcome([], [], false)
  {}

  /** What one recv may answer. */
  datatype Received = Data(bytes: seq<Byte>) | EndOfStream | Interrupted | WouldBlock | Failed

  /** A connection of net/tcp.hpp: its read side. */
  class Conn {
    const handler: Handler
    const rbuf: Buffer
    var closed: bool
    ghost var received: seq<Byte>
    ghost var delivered: seq<seq<Byte>>

    /** While the connection is open, what it has delivered and what it still holds are
        determined by the bytes received, whatever their split into events and reads. */
    ghost predicate Valid()
      reads this, rbuf
    {
      && rbuf.Valid() && Sound(handler) && Stable(handler)
      && delivered == Drain(handler, received).messages
      && (!closed ==> Drain(handler, received) == Outcome(delivered, rbuf.v, false))
    }

    constructor (h: Handler)
      requires Sound(h) && Stable(h)
      ensures Valid() && fresh(rbuf) && handler == h && !closed && received == [] && delivered == []
    {
      handler := h;
      rbuf := new Buffer();
      closed, received, delivered := false, [], [];
    }

    /** DispatchMessages, on the buffer with `bytes` written behind it. */
    method DispatchMessages(bytes: seq<Byte>) returns (open: bool)
      requires Valid() && !closed
      modifies this, rbuf
      ensures Valid() && received == old(received) + bytes
      ensures open == !closed && closed == Drain(handler, received).ended
    {
      hide Drain, Stable, Sound;
      NoAnswer(handler);
      var _ := rbuf.Write(bytes);
      DrainMore(handler, received, bytes);
      var messages, ended := Dispatch(handler, rbuf);
      delivered := delivered + messages;
      received := received + bytes;
      closed := ended;
      return !ended;
    }

    /** HandleRead, on the answers that recv gives in turn. Everything in front of the first one
        that stops the loop is received and its messages are delivered, unless the handler ends
        the session before; the connection is closed by the handler or by that answer. */
    method HandleRead(answers: seq<Received>)
      requires Valid() && !closed
      modifies this, rbuf
      ensures Valid()
      ensures var all := old(received) + ReadBytes(answers);
              && delivered == Drain(handler, all).messages
              && closed == (Drain(handler, all).ended || HangsUp(answers))
              && if Drain(handler, all).ended then received <= all && Drain(handler, received).ended
                 else received == all
    {
      hide Drain, Stable, Sound, ReadBytes, HangsUp;
      assert answers[0..] == answers;
      ghost var all := old(received) + ReadBytes(answers);
      for k := 0 to |answers|
        invariant Valid() && !closed && received + ReadBytes(answers[k..]) == all
        invariant HangsUp(answers[k..]) == HangsUp(answers)
      {
        AnswerStep(answers, k);
        NothingBehind(received);
        match answers[k] {
          case Data(bytes) =>
            Assoc(received, bytes, ReadBytes(answers[k + 1..]));
            var open := DispatchMessages(bytes);
            if !open {
              DrainMore(handler, received, ReadBytes(answers[k + 1..]));
              return;
            }
          case Interrupted =>
          case WouldBlock =>
            return;
          case EndOfStream =>
            closed := true;
            return;
          case Failed =>
            closed := true;
            return;
        }
      }
      AnswerStep(answers, |answers|);
      NothingBehind(received);
    }
  }

  lemma NoAnswer(h: Handler)
    requires Sound(h)
    ensures h([]) <= 0
  {}

  /** The data in front of the first answer that stops the loop. */
  function ReadBytes(answers: seq<Received>): seq<Byte> {
    if answers == [] then []
    else
      match answers[0]
      case Data(bytes) => bytes + ReadBytes(answers[1..])
      case Interrupted => ReadBytes(answers[1..])
      case _ => []
  }

  /** The loop is stopped by the end of the stream or an error, not by recv having no more. */
  predicate HangsUp(answers: seq<Received>) {
    answers != [] &&
    match answers[0]
    case Data(_) => HangsUp(answers[1..])
    case Interrupted => HangsUp(answers[1..])
    case WouldBlock => false
    case EndOfStream => true
    case Failed => true
  }

  lemma AnswerStep(answers: seq<Received>, k: nat)
    requires k <= |answers|
    ensures k == |answers| ==> ReadBytes(answers[k..]) == [] && !HangsUp(answers[k..])
    ensures k < |answers| ==>
              var a, rest := answers[k], answers[k + 1..];
              && ReadBytes(answers[k..]) == (if a.Data? then a.bytes + ReadBytes(rest)
                                             else if a.Interrupted? then ReadBytes(rest) else [])
              && (HangsUp(answers[k..]) <==>
                    if a.Data? || a.Interrupted? then HangsUp(rest) else a.EndOfStream? || a.Failed?)
  {
    if k < |answers| {
      assert answers[k..][0] == answers[k] && answers[k..][1..] == answers[k + 1..];
    }
  }

  // ---------------------------------------------------------------- interleaved packets

  const DOLLAR: Byte := 0x24

  /** The handler of stream/rtsp.hpp for packets interleaved on the control connection
      (section 10.12 of RFC 2326): a dollar sign, a channel, a length of two bytes, and the
      packet. `accept` is the caller's verdict on a packet, `other` answers for everything
      that does not begin with a dollar sign. */
  function Interleaved(accept: seq<Byte> -> bool, other: Handler): Handler {
    (b: seq<Byte>) =>
      if |b| < 4 then 0
      else if b[0] != DOLLAR then other(b)
      else if |b| < PacketLength(b) then 0
      else if accept(b[..PacketLength(b)]) then PacketLength(b)
      else -1
  }

  function PacketLength(b: seq<Byte>): nat
    requires |b| >= 4
  {
    256 * b[2] as int + b[3] as int + 4
  }

  /** A packet is a dollar sign, a channel, and a payload behind its length in two bytes, the higher
      one first. It is taken when it is there in full, and ends the session if it is not accepted. */
  lemma PacketIs(accept: seq<Byte> -> bool, other: Handler, channel: Byte, high: Byte, low: Byte,
                 payload: seq<Byte>, more: seq<Byte>)
    ensures var h, packet := Interleaved(accept, other), [0x24, channel, high, low] + payload;
            && (|payload| < 256 * high as nat + low ==> h(packet) == 0)
            && (|payload| == 256 * high as nat + low ==>
                  h(packet + more) == if accept(packet) then 4 + |payload| else -1)
  {
    var h, packet := Interleaved(accept, other), [0x24, channel, high, low] + payload;
    assert (packet + more)[..|packet|] == packet;
    PacketSize(packet, high, low, more);
  }

  lemma PacketSize(packet: seq<Byte>, high: Byte, low: Byte, more: seq<Byte>)
    requires |packet| >= 4 && packet[0] == 0x24 && packet[2] == high && packet[3] == low
    ensures PacketLength(packet) == PacketLength(packet + more) == 256 * high as nat + low + 4
    ensures (packet + more)[0] == DOLLAR
  {}

  /** Anything else is left to the other handler, once there are four bytes. */
  lemma OtherIs(accept: seq<Byte> -> bool, other: Handler, b: seq<Byte>)
    ensures |b| < 4 ==> Interleaved(accept, other)(b) == 0
    ensures |b| >= 4 && b[0] != 0x24 ==> Interleaved(accept, other)(b) == other(b)
  {}

  /** Interleaved packets satisfy what the loops need, so their delivery does not depend on
      the split into reads, if the other messages do. */
  lemma InterleavedStable(accept: seq<Byte> -> bool, other: Handler)
    requires Stable(other) && forall b: seq<Byte> :: other(b) <= |b|
    ensures Sound(Interleaved(accept, other)) && Stable(Interleaved(accept, other))
    ensures SplitIndependent(Interleaved(accept, other))
  {
    var h := Interleaved(accept, other);
    forall b: seq<Byte>, more: seq<Byte>
      ensures h(b) > 0 ==> h(b + more) == h(b)
      ensures h(b) < 0 ==> h(b + more) < 0 {
      if |b| >= 4 {
        assert (b + more)[0] == b[0] && PacketLength(b + more) == PacketLength(b);
        if |b| >= PacketLength(b) {
          assert (b + more)[..PacketLength(b)] == b[..PacketLength(b)];
        }
      }
    }
    IndependentIffStable(h);
  }
}
