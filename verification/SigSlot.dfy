/** Signals and receivers of sigslot.hpp: each signal lists its connections, each receiver
    holds the set of its senders, and every completed operation keeps the two in step. */
module SigSlot {
  import opened Wrappers
  import opened SigList

  /** What the slots called by an emission may do. */
  datatype Op =
    | Connect(s: Signal, r: Receiver)
    | Disconnect(s: Signal, r: Receiver)
    | DisconnectAll(s: Signal)
    | LeaveAll(r: Receiver)

  /** Signals and receivers refer to each other only, and no cursor dangles. */
  ghost predicate Closed(signals: set<Signal>, receivers: set<Receiver>)
    reads signals, receivers
  {
    && (forall s | s in signals :: WellFormed(s.St()))
    && (forall s, i | s in signals && 0 <= i < |s.connected| :: s.connected[i].dest in receivers)
    && (forall r | r in receivers :: r.senders <= signals)
  }

  /** A signal is in a receiver's sender set exactly if it lists a connection to it. */
  ghost predicate Linked(signals: set<Signal>, receivers: set<Receiver>)
    reads signals, receivers
  {
    && Closed(signals, receivers)
    && (forall s, r | s in signals && r in receivers :: s in r.senders <==> HasDest(s.connected, r))
  }

  lemma AppendedDest(conns: seq<Conn<Receiver>>, c: Conn<Receiver>)
    ensures forall d: Receiver :: HasDest(conns + [c], d) <==> HasDest(conns, d) || c.dest == d
  {
    forall d: Receiver ensures HasDest(conns + [c], d) <==> HasDest(conns, d) || c.dest == d {
      var t := conns + [c];
      assert t[|conns|] == c;
      assert forall i | 0 <= i < |conns| :: t[i] == conns[i];
    }
  }

  /** A node other than node i has destination d. */
  predicate HasOther(conns: seq<Conn<Receiver>>, i: nat, d: Receiver) {
    exists k | 0 <= k < |conns| :: k != i && conns[k].dest == d
  }

  lemma NoneAtMostOne(conns: seq<Conn<Receiver>>, d: Receiver)
    requires !HasDest(conns, d)
    ensures AtMostOne(conns, d)
  {}

  lemma ErasedDest(conns: seq<Conn<Receiver>>, i: nat, d: Receiver)
    requires i < |conns|
    ensures HasDest(conns[..i] + conns[i + 1..], d) <==> HasOther(conns, i, d)
  {
    var rest := conns[..i] + conns[i + 1..];
    assert forall k | 0 <= k < i :: rest[k] == conns[k];
    assert forall k | i < k < |conns| :: rest[k - 1] == conns[k];
    assert forall k | 0 <= k < |rest| :: rest[k] == if k < i then conns[k] else conns[k + 1];
  }

  /** Erasing the first connection to r. */
  lemma ErasedDests(conns: seq<Conn<Receiver>>, i: nat, r: Receiver)
    requires i < |conns| && conns[i].dest == r && !HasDest(conns[..i], r)
    ensures var rest := conns[..i] + conns[i + 1..];
            && (HasDest(rest, r) <==> !AtMostOne(conns, r))
            && (forall d: Receiver :: d != r ==> (HasDest(rest, d) <==> HasDest(conns, d)))
            && (forall k | 0 <= k < |rest| :: rest[k] in conns)
  {
    hide HasDest, AtMostOne, HasOther;
    var rest := conns[..i] + conns[i + 1..];
    forall d: Receiver ensures d != r ==> (HasDest(rest, d) <==> HasDest(conns, d)) {
      ErasedDest(conns, i, d);
      OtherDest(conns, i, d);
    }
    ErasedDest(conns, i, r);
    SecondDest(conns, i, r);
    assert forall k | 0 <= k < |rest| :: rest[k] == if k < i then conns[k] else conns[k + 1];
  }

  lemma OtherDest(conns: seq<Conn<Receiver>>, i: nat, d: Receiver)
    requires i < |conns|
    ensures conns[i].dest != d ==> (HasOther(conns, i, d) <==> HasDest(conns, d))
  {}

  lemma SecondDest(conns: seq<Conn<Receiver>>, i: nat, r: Receiver)
    requires i < |conns| && conns[i].dest == r && !HasDest(conns[..i], r)
    ensures HasOther(conns, i, r) <==> !AtMostOne(conns, r)
  {
    forall k | 0 <= k < i ensures conns[k].dest != r {
      assert conns[..i][k].dest != r;
    }
  }

  class Receiver {
    var senders: set<Signal>

    constructor ()
      ensures senders == {}
    {
      senders := {};
    }

    /** The copy constructor: every sender of o gets connections to this receiver too. */
    constructor Copy(o: Receiver)
      requires forall s | s in o.senders :: WellFormed(s.St())
      modifies o.senders
      ensures senders == o.senders && o.senders == old(o.senders)
      ensures forall s | s in o.senders :: s.Duplicated(o, this, old(s.St()))
    {
      senders := {};
      new;
      TakeOver(o, o.senders);
    }

    /** The loop over the senders. */
    method TakeOver(o: Receiver, all: set<Signal>)
      requires this != o && senders == {} && forall s | s in all :: WellFormed(s.St())
      modifies `senders, all
      ensures senders == all && forall s | s in all :: s.Duplicated(o, this, old(s.St()))
    {
      hide WellFormed, Signal.Duplicated;
      var todo := all;
      while todo != {}
        invariant todo <= all && senders == all - todo
        invariant forall s | s in all - todo :: s.Duplicated(o, this, old(s.St()))
        invariant forall s | s in todo :: s.St() == old(s.St())
        decreases |todo|
      {
        var s :| s in todo;
        Moved(all, todo, s);
        todo := todo - {s};
        Adopt(s, o);
      }
    }

    static lemma Moved(all: set<Signal>, todo: set<Signal>, s: Signal)
      requires todo <= all && s in todo
      ensures all - (todo - {s}) == all - todo + {s} && |todo - {s}| < |todo|
    {}

    method Adopt(s: Signal, o: Receiver)
      requires this != o && WellFormed(s.St())
      modifies `senders, s
      ensures senders == old(senders) + {s} && s.Duplicated(o, this, old(s.St()))
    {
      s.SlotDuplicate(o, this);
      senders := senders + {s};
    }

    /** disconnect_all, also run on destruction. */
    method DisconnectAll()
      requires forall s | s in senders :: WellFormed(s.St())
      modifies this, senders
      ensures senders == {}
      ensures forall s | s in old(senders) :: s.St() == DropAll(old(s.St()), this) && s.Left(this, old(s.St()))
    {
      hide WellFormed, Signal.Left, DropAll;
      while senders != {}
        invariant senders == old(senders) || senders == {}
        invariant senders == old(senders) ==> forall s | s in old(senders) :: s.St() == old(s.St())
        invariant senders == {} ==>
                    forall s | s in old(senders) :: s.St() == DropAll(old(s.St()), this) && s.Left(this, old(s.St()))
        decreases |senders|
      {
        var todo := senders;
        senders := {};
        LeaveEach(todo);
      }
    }

    /** One round of the loop: the swapped-out senders are told to drop this receiver. */
    method LeaveEach(all: set<Signal>)
      requires forall s | s in all :: WellFormed(s.St())
      modifies all
      ensures forall s | s in all :: s.St() == DropAll(old(s.St()), this) && s.Left(this, old(s.St()))
    {
      hide WellFormed, Signal.Left, DropAll;
      var todo := all;
      while todo != {}
        invariant todo <= all
        invariant forall s | s in all && s !in todo ::
                    s.St() == DropAll(old(s.St()), this) && s.Left(this, old(s.St()))
        invariant forall s | s in todo :: s.St() == old(s.St())
        decreases |todo|
      {
        var s :| s in todo;
        todo := todo - {s};
        s.SlotDisconnect(this);
      }
    }
  }

  class Signal {
    var connected: seq<Conn<Receiver>>
    var cursor: Option<nat>
    var nextId: nat

    ghost function St(): Sig<Receiver>
      reads this
    {
      Sig(connected, cursor, nextId)
    }

    constructor ()
      ensures St() == Sig([], None, 0)
    {
      connected, cursor, nextId := [], None, 0;
    }

    /** The copy constructor: the same connections in the same order. */
    constructor Copy(o: Signal)
      modifies set i | 0 <= i < |o.connected| :: o.connected[i].dest
      ensures cursor == None && WellFormed(St()) && |connected| == |o.connected|
      ensures forall i | 0 <= i < |o.connected| :: connected[i].dest == o.connected[i].dest
      ensures forall i | 0 <= i < |o.connected| ::
                o.connected[i].dest.senders == old(o.connected[i].dest.senders) + {this}
    {
      connected, cursor, nextId := [], None, 0;
      new;
      var k := 0;
      while k < |o.connected|
        invariant 0 <= k <= |o.connected| == old(|o.connected|) && o.connected == old(o.connected)
        invariant |connected| == k == nextId && cursor == None
        invariant forall i | 0 <= i < k :: connected[i] == Conn(i, o.connected[i].dest)
        invariant forall i | 0 <= i < |o.connected| ::
                    o.connected[i].dest.senders == old(o.connected[i].dest.senders)
                      + if HasDest(connected, o.connected[i].dest) then {this} else {}
      {
        var dest := o.connected[k].dest;
        dest.senders := dest.senders + {this};
        ghost var before := connected;
        connected := connected + [Conn(nextId, dest)];
        nextId := nextId + 1;
        k := k + 1;
        AppendedDest(before, connected[k - 1]);
      }
      assert forall i | 0 <= i < k :: HasDest(connected, connected[i].dest);
    }

    /** connect. */
    method Connect(r: Receiver)
      modifies this, r
      ensures St() == Append(old(St()), r)
      ensures r.senders == old(r.senders) + {this}
    {
      connected := connected + [Conn(nextId, r)];
      nextId := nextId + 1;
      r.senders := r.senders + {this};
    }

    /** std::list::erase, with the iterator that a running emission holds. */
    method Erase(i: nat)
      requires i < |connected|
      modifies this
      ensures St() == EraseAt(old(St()), i)
    {
      if cursor == Some(connected[i].id) {
        cursor := if i + 1 < |connected| then Some(connected[i + 1].id) else None;
      }
      connected := connected[..i] + connected[i + 1..];
    }

    /** disconnect: the first connection to r. */
    method Disconnect(r: Receiver)
      modifies this, r
      ensures !HasDest(old(connected), r) ==> St() == old(St()) && r.senders == old(r.senders)
      ensures HasDest(old(connected), r) ==>
                && First(old(connected), r) < |old(connected)| && r.senders == old(r.senders) - {this}
                && St() == EraseAt(old(St()), First(old(connected), r))
    {
      FirstHas(connected, r);
      var it := 0;
      while it < |connected|
        invariant 0 <= it <= |connected| && St() == old(St()) && r.senders == old(r.senders)
        invariant !HasDest(connected[..it], r)
      {
        if connected[it].dest == r {
          FirstIs(connected, r, it);
          Erase(it);
          r.senders := r.senders - {this};
          return;
        }
        it := it + 1;
      }
      assert connected[..it] == connected;
    }

    /** disconnect_all, also run on destruction. */
    method DisconnectAll()
      modifies this, set i | 0 <= i < |connected| :: connected[i].dest
      ensures St() == Clear(old(St()))
      ensures forall i | 0 <= i < old(|connected|) ::
                old(connected[i].dest).senders == old(connected[i].dest.senders) - {this}
    {
      ghost var k := 0;
      while |connected| != 0
        invariant k <= old(|connected|) && connected == old(connected)[k..] && nextId == old(nextId)
        invariant forall i | 0 <= i < k ::
                    old(connected[i].dest).senders == old(connected[i].dest.senders) - {this}
        invariant forall i | k <= i < old(|connected|) ::
                    old(connected[i].dest).senders == old(connected[i].dest.senders)
                    || old(connected[i].dest).senders == old(connected[i].dest.senders) - {this}
        decreases |connected|
      {
        var dest := connected[0].dest;
        connected := connected[1..];
        dest.senders := dest.senders - {this};
        k := k + 1;
      }
      cursor := None;
    }

    /** This signal is s without its connections to r. */
    ghost predicate Left(r: Receiver, s: Sig<Receiver>)
      reads this
    {
      && WellFormed(St()) && Changed(s, St()) && nextId == s.next
      && (forall c | c in connected :: c in s.conns && c.dest != r)
      && (forall c | c in s.conns && c.dest != r :: c in connected)
    }

    /** do_slot_disconnect: every connection to r. */
    method SlotDisconnect(r: Receiver)
      requires WellFormed(St())
      modifies this
      ensures St() == DropAll(old(St()), r) && Left(r, old(St()))
    {
      hide WellFormed, Changed, EraseAt;
      var it := 0;
      while it < |connected|
        invariant 0 <= it <= |connected| && !HasDest(connected[..it], r)
        invariant DropAll(St(), r) == DropAll(old(St()), r)
        decreases |connected| - it
      {
        if connected[it].dest == r {
          ghost var before := St();
          FirstIs(connected, r, it);
          EraseParts(before, it);
          Erase(it);
          assert connected[..it] == before.conns[..it];
        } else {
          it := it + 1;
        }
      }
      FirstIs(connected, r, it);
      DropAllKeeps(old(St()), r);
    }

    /** This signal is s with as many connections to `target` behind it as s has to `source`. */
    ghost predicate Duplicated(source: Receiver, target: Receiver, s: Sig<Receiver>)
      reads this
    {
      && WellFormed(St()) && Changed(s, St()) && St() == AppendMany(s, target, Count(s.conns, source))
      && |connected| == |s.conns| + Count(s.conns, source) && connected[..|s.conns|] == s.conns
      && forall i | |s.conns| <= i < |connected| :: connected[i].dest == target
    }

    /** do_slot_duplicate: a connection to `target` for every one to `source`, behind the
        others. The loop also meets the nodes it appends. */
    method SlotDuplicate(source: Receiver, target: Receiver)
      requires source != target && WellFormed(St())
      modifies this
      ensures Duplicated(source, target, old(St()))
    {
      hide WellFormed, Changed, Count, AppendMany;
      var it := 0;
      ghost var n, before, cnt := |connected|, St(), 0;
      CountNone(before.conns, source);
      AppendManyNone(before, target);
      while it < |connected|
        invariant 0 <= it <= |connected| && cnt == Count(before.conns[..if it < n then it else n], source)
        invariant St() == AppendMany(before, target, cnt) && n <= |connected|
        decreases if it < n then n - it else 0, |connected| - it
      {
        AppendManyKeeps(before, target, cnt);
        if it < n {
          assert connected[it] == connected[..n][it];
          CountStep(before.conns, it, source);
        }
        if connected[it].dest == source {
          AppendManyNext(before, target, cnt);
          connected := connected + [Conn(nextId, target)];
          nextId := nextId + 1;
          cnt := cnt + 1;
        }
        it := it + 1;
      }
      assert before.conns[..n] == before.conns;
      AppendManyKeeps(before, target, cnt);
    }
  }

  // ---------------------------------------------------------------- completed operations

  ghost predicate Within(op: Op, ss: set<Signal>, rs: set<Receiver>) {
    match op
    case Connect(s, r) => s in ss && r in rs
    case Disconnect(s, r) => s in ss && r in rs
    case DisconnectAll(s) => s in ss
    case LeaveAll(r) => r in rs
  }

  /** What all signals and receivers hold. */
  datatype World = World(sigs: map<Signal, Sig<Receiver>>, senders: map<Receiver, set<Signal>>)

  ghost function Here(ss: set<Signal>, rs: set<Receiver>): (w: World)
    reads ss, rs
    ensures w.sigs.Keys == ss && w.senders.Keys == rs
  {
    World(map s | s in ss :: s.St(), map r | r in rs :: r.senders)
  }

  /** What an operation does to every signal's list and every receiver's senders. */
  ghost function Do(op: Op, w: World): (w': World)
    requires Within(op, w.sigs.Keys, w.senders.Keys)
    ensures w'.sigs.Keys == w.sigs.Keys && w'.senders.Keys == w.senders.Keys
  {
    match op
    case Connect(s, r) =>
      World(w.sigs[s := Append(w.sigs[s], r)], w.senders[r := w.senders[r] + {s}])
    case Disconnect(s, r) =>
      var i := First(w.sigs[s].conns, r);
      if i == |w.sigs[s].conns| then w
      else World(w.sigs[s := EraseAt(w.sigs[s], i)], w.senders[r := w.senders[r] - {s}])
    case DisconnectAll(s) =>
      World(w.sigs[s := Clear(w.sigs[s])],
            map r | r in w.senders :: if HasDest(w.sigs[s].conns, r) then w.senders[r] - {s} else w.senders[r])
    case LeaveAll(r) =>
      World(map s | s in w.sigs :: if s in w.senders[r] then DropAll(w.sigs[s], r) else w.sigs[s],
            w.senders[r := {}])
  }

  /** One operation, on whatever signals and receivers there are: no cursor is left dangling,
      and senders and connections stay in step. `disconnect` keeps them in step exactly if it
      meets at most one connection to its receiver. */
  method Perform(op: Op, ghost ss: set<Signal>, ghost rs: set<Receiver>)
    requires Closed(ss, rs) && Within(op, ss, rs)
    modifies ss, rs
    ensures Here(ss, rs) == Do(op, old(Here(ss, rs)))
    ensures Closed(ss, rs) && forall s | s in ss :: Changed(old(s.St()), s.St())
    ensures old(Linked(ss, rs)) && !op.Disconnect? ==> Linked(ss, rs)
    ensures old(Linked(ss, rs)) && op.Disconnect? ==> (Linked(ss, rs) <==> old(AtMostOne(op.s.connected, op.r)))
  {
    hide Closed, Linked;
    match op
    case Connect(s, r) => PerformConnect(s, r, ss, rs);
    case Disconnect(s, r) => PerformDisconnect(s, r, ss, rs);
    case DisconnectAll(s) => PerformDisconnectAll(s, ss, rs);
    case LeaveAll(r) => PerformLeaveAll(r, ss, rs);
  }

  /** Nothing but the list of s and the senders of r differs. */
  ghost predicate Others(s: Signal, r: Receiver, w: World, w': World) {
    && w.sigs.Keys == w'.sigs.Keys && w.senders.Keys == w'.senders.Keys
    && (forall x | x in w.sigs && x != s :: w'.sigs[x] == w.sigs[x])
    && (forall x | x in w.senders && x != r :: w'.senders[x] == w.senders[x])
  }

  lemma ConnectDone(s: Signal, r: Receiver, w: World, w': World)
    requires s in w.sigs && r in w.senders && Others(s, r, w, w')
    requires w'.sigs[s] == Append(w.sigs[s], r) && w'.senders[r] == w.senders[r] + {s}
    ensures w' == Do(Connect(s, r), w)
  {}

  method PerformConnect(s: Signal, r: Receiver, ghost ss: set<Signal>, ghost rs: set<Receiver>)
    requires Closed(ss, rs) && s in ss && r in rs
    modifies s, r
    ensures Here(ss, rs) == Do(Connect(s, r), old(Here(ss, rs)))
    ensures Closed(ss, rs) && forall s | s in ss :: Changed(old(s.St()), s.St())
    ensures old(Linked(ss, rs)) ==> Linked(ss, rs)
  {
    hide Closed, Linked, Changed, Do;
    ConnectKeeps(s, r, ss, rs);
    ConnectDone(s, r, old(Here(ss, rs)), Here(ss, rs));
  }

  method ConnectKeeps(s: Signal, r: Receiver, ghost ss: set<Signal>, ghost rs: set<Receiver>)
    requires Closed(ss, rs) && s in ss && r in rs
    modifies s, r
    ensures s.St() == Append(old(s.St()), r) && r.senders == old(r.senders) + {s}
    ensures Closed(ss, rs) && forall s | s in ss :: Changed(old(s.St()), s.St())
    ensures old(Linked(ss, rs)) ==> Linked(ss, rs)
  {
    hide WellFormed, Changed;
    forall s | s in ss ensures Changed(s.St(), s.St()) { ChangedSelf(s.St()); }
    AppendChanges(s.St(), r);
    s.Connect(r);
    if old(Linked(ss, rs)) {
      assert s.connected[old(|s.connected|)].dest == r;
      assert forall i | 0 <= i < old(|s.connected|) :: s.connected[i] == old(s.connected)[i];
    }
  }

  lemma DisconnectDone(s: Signal, r: Receiver, w: World, w': World)
    requires s in w.sigs && r in w.senders && Others(s, r, w, w')
    requires var conns := w.sigs[s].conns;
             if First(conns, r) == |conns| then w'.sigs[s] == w.sigs[s] && w'.senders[r] == w.senders[r]
             else w'.sigs[s] == EraseAt(w.sigs[s], First(conns, r)) && w'.senders[r] == w.senders[r] - {s}
    ensures w' == Do(Disconnect(s, r), w)
  {}

  method PerformDisconnect(s: Signal, r: Receiver, ghost ss: set<Signal>, ghost rs: set<Receiver>)
    requires Closed(ss, rs) && s in ss && r in rs
    modifies s, r
    ensures Here(ss, rs) == Do(Disconnect(s, r), old(Here(ss, rs)))
    ensures Closed(ss, rs) && forall s | s in ss :: Changed(old(s.St()), s.St())
    ensures old(Linked(ss, rs)) ==> (Linked(ss, rs) <==> old(AtMostOne(s.connected, r)))
  {
    hide Closed, Linked, Changed, Do, First, EraseAt, AtMostOne;
    DisconnectKeeps(s, r, ss, rs);
    DisconnectDone(s, r, old(Here(ss, rs)), Here(ss, rs));
  }

  method DisconnectKeeps(s: Signal, r: Receiver, ghost ss: set<Signal>, ghost rs: set<Receiver>)
    requires Closed(ss, rs) && s in ss && r in rs
    modifies s, r
    ensures var i := First(old(s.connected), r);
            if i == |old(s.connected)| then s.St() == old(s.St()) && r.senders == old(r.senders)
            else s.St() == EraseAt(old(s.St()), i) && r.senders == old(r.senders) - {s}
    ensures Closed(ss, rs) && forall s | s in ss :: Changed(old(s.St()), s.St())
    ensures old(Linked(ss, rs)) ==> (Linked(ss, rs) <==> old(AtMostOne(s.connected, r)))
  {
    hide WellFormed, Changed, EraseAt, HasDest, AtMostOne, First;
    forall s | s in ss ensures Changed(s.St(), s.St()) { ChangedSelf(s.St()); }
    ghost var before, i := s.St(), First(s.connected, r);
    FirstHas(before.conns, r);
    s.Disconnect(r);
    if HasDest(before.conns, r) {
      FirstOnly(before.conns, r);
      EraseChanges(before, i);
      EraseParts(before, i);
      ErasedDests(before.conns, i, r);
    } else {
      NoneAtMostOne(before.conns, r);
    }
  }

  lemma FirstOnly(conns: seq<Conn<Receiver>>, r: Receiver)
    ensures !HasDest(conns[..First(conns, r)], r)
  {}

  lemma DisconnectAllDone(s: Signal, w: World, w': World)
    requires w.sigs.Keys == w'.sigs.Keys && w.senders.Keys == w'.senders.Keys
    requires s in w.sigs && w'.sigs[s] == Clear(w.sigs[s])
    requires forall x | x in w.sigs && x != s :: w'.sigs[x] == w.sigs[x]
    requires forall x | x in w.senders ::
               w'.senders[x] == if HasDest(w.sigs[s].conns, x) then w.senders[x] - {s} else w.senders[x]
    ensures w' == Do(DisconnectAll(s), w)
  {}

  method PerformDisconnectAll(s: Signal, ghost ss: set<Signal>, ghost rs: set<Receiver>)
    requires Closed(ss, rs) && s in ss
    modifies s, rs
    ensures Here(ss, rs) == Do(DisconnectAll(s), old(Here(ss, rs)))
    ensures Closed(ss, rs) && forall s | s in ss :: Changed(old(s.St()), s.St())
    ensures old(Linked(ss, rs)) ==> Linked(ss, rs)
  {
    hide Closed, Linked, Changed, Do, HasDest;
    DisconnectAllKeeps(s, ss, rs);
    DisconnectAllDone(s, old(Here(ss, rs)), Here(ss, rs));
  }

  method DisconnectAllKeeps(s: Signal, ghost ss: set<Signal>, ghost rs: set<Receiver>)
    requires Closed(ss, rs) && s in ss
    modifies s, rs
    ensures s.St() == Clear(old(s.St()))
    ensures forall x | x in rs ::
              x.senders == if HasDest(old(s.connected), x) then old(x.senders) - {s} else old(x.senders)
    ensures Closed(ss, rs) && forall s | s in ss :: Changed(old(s.St()), s.St())
    ensures old(Linked(ss, rs)) ==> Linked(ss, rs)
  {
    hide WellFormed, Changed;
    forall s | s in ss ensures Changed(s.St(), s.St()) { ChangedSelf(s.St()); }
    ClearChanges(s.St());
    s.DisconnectAll();
  }

  lemma LeaveAllDone(r: Receiver, w: World, w': World)
    requires w.sigs.Keys == w'.sigs.Keys && w.senders.Keys == w'.senders.Keys
    requires r in w.senders && w'.senders[r] == {}
    requires forall x | x in w.senders && x != r :: w'.senders[x] == w.senders[x]
    requires forall s | s in w.sigs ::
               w'.sigs[s] == if s in w.senders[r] then DropAll(w.sigs[s], r) else w.sigs[s]
    ensures w' == Do(LeaveAll(r), w)
  {
    hide DropAll;
  }

  method PerformLeaveAll(r: Receiver, ghost ss: set<Signal>, ghost rs: set<Receiver>)
    requires Closed(ss, rs) && r in rs
    modifies ss, r
    ensures Here(ss, rs) == Do(LeaveAll(r), old(Here(ss, rs)))
    ensures Closed(ss, rs) && forall s | s in ss :: Changed(old(s.St()), s.St())
    ensures old(Linked(ss, rs)) ==> Linked(ss, rs)
  {
    hide Closed, Linked, Changed, Do, DropAll;
    LeaveAllKeeps(r, ss, rs);
    LeaveAllDone(r, old(Here(ss, rs)), Here(ss, rs));
  }

  method LeaveAllKeeps(r: Receiver, ghost ss: set<Signal>, ghost rs: set<Receiver>)
    requires Closed(ss, rs) && r in rs
    modifies ss, r
    ensures r.senders == {}
    ensures forall s | s in ss :: s.St() == if s in old(r.senders) then DropAll(old(s.St()), r) else old(s.St())
    ensures Closed(ss, rs) && forall s | s in ss :: Changed(old(s.St()), s.St())
    ensures old(Linked(ss, rs)) ==> Linked(ss, rs)
  {
    hide WellFormed, Changed, DropAll;
    forall s | s in ss ensures Changed(s.St(), s.St()) { ChangedSelf(s.St()); }
    r.DisconnectAll();
  }

  /** Copying a signal. */
  method CopySignal(o: Signal, ghost ss: set<Signal>, ghost rs: set<Receiver>) returns (s: Signal)
    requires Linked(ss, rs) && o in ss
    modifies rs
    ensures fresh(s) && Linked(ss + {s}, rs)
  {
    hide WellFormed;
    s := new Signal.Copy(o);
    assert forall d | d in rs :: HasDest(s.connected, d) <==> HasDest(o.connected, d);
  }

  /** Copying a receiver: the copy is connected wherever the original is. */
  method CopyReceiver(o: Receiver, ghost ss: set<Signal>, ghost rs: set<Receiver>) returns (r: Receiver)
    requires Linked(ss, rs) && o in rs
    modifies ss
    ensures fresh(r) && Linked(ss, rs + {r})
    ensures forall s | s in ss :: Changed(old(s.St()), s.St())
  {
    hide WellFormed, Changed, Signal.Duplicated;
    r := new Receiver.Copy(o);
    forall s | s in ss
      ensures WellFormed(s.St()) && Changed(old(s.St()), s.St())
      ensures forall i | 0 <= i < |s.connected| :: s.connected[i].dest in rs + {r}
      ensures forall d | d in rs + {r} :: s in d.senders <==> HasDest(s.connected, d)
    {
      ghost var before := old(s.St());
      ChangedSelf(before);
      assert !HasDest(before.conns, r);
      if s in o.senders {
        DuplicatedDests(s, o, r, before);
      }
    }
  }

  lemma CountHas(conns: seq<Conn<Receiver>>, d: Receiver)
    ensures Count(conns, d) > 0 <==> HasDest(conns, d)
  {
    if conns != [] {
      var init := conns[..|conns| - 1];
      CountHas(init, d);
      AppendedDest(init, conns[|conns| - 1]);
      assert init + [conns[|conns| - 1]] == conns;
    }
  }

  lemma DuplicatedDests(s: Signal, source: Receiver, target: Receiver, before: Sig<Receiver>)
    requires s.Duplicated(source, target, before)
    ensures WellFormed(s.St()) && Changed(before, s.St())
    ensures HasDest(s.connected, target) <==> HasDest(before.conns, source) || HasDest(before.conns, target)
    ensures forall d: Receiver :: d != target ==> (HasDest(s.connected, d) <==> HasDest(before.conns, d))
    ensures forall i | 0 <= i < |s.connected| ::
              s.connected[i].dest == target || HasDest(before.conns, s.connected[i].dest)
  {
    hide WellFormed, Changed, Count;
    CountHas(before.conns, source);
    var n := |before.conns|;
    assert forall i | 0 <= i < n :: s.connected[i] == s.connected[..n][i] == before.conns[i];
    if Count(before.conns, source) > 0 {
      assert s.connected[n].dest == target;
    }
  }

  /** A destroyed signal is referred to by no receiver. */
  method DestroySignal(s: Signal, ghost ss: set<Signal>, ghost rs: set<Receiver>)
    requires Linked(ss, rs) && s in ss
    modifies ss, rs
    ensures Linked(ss - {s}, rs) && forall r | r in rs :: s !in r.senders
  {
    hide WellFormed, Changed;
    DisconnectAllKeeps(s, ss, rs);
  }

  /** A destroyed receiver is the destination of no connection. */
  method DestroyReceiver(r: Receiver, ghost ss: set<Signal>, ghost rs: set<Receiver>)
    requires Linked(ss, rs) && r in rs
    modifies ss, rs
    ensures Linked(ss, rs - {r}) && forall s | s in ss :: !HasDest(s.connected, r)
  {
    hide WellFormed, Changed, DropAll;
    LeaveAllKeeps(r, ss, rs);
  }

  // ---------------------------------------------------------------- emission

  ghost predicate AllWithin(ops: seq<Op>, ss: set<Signal>, rs: set<Receiver>) {
    forall op | op in ops :: Within(op, ss, rs)
  }

  ghost function DoAll(ops: seq<Op>, w: World): (w': World)
    requires AllWithin(ops, w.sigs.Keys, w.senders.Keys)
    ensures w'.sigs.Keys == w.sigs.Keys && w'.senders.Keys == w.senders.Keys
  {
    if ops == [] then w else Do(ops[|ops| - 1], DoAll(ops[..|ops| - 1], w))
  }

  lemma DoAllNext(ops: seq<Op>, k: nat, w: World)
    requires AllWithin(ops, w.sigs.Keys, w.senders.Keys) && k < |ops|
    ensures AllWithin(ops[..k + 1], w.sigs.Keys, w.senders.Keys) && AllWithin(ops[..k], w.sigs.Keys, w.senders.Keys)
    ensures Within(ops[k], w.sigs.Keys, w.senders.Keys)
    ensures DoAll(ops[..k + 1], w) == Do(ops[k], DoAll(ops[..k], w))
  {
    hide Within, Do;
    assert ops[..k + 1][..k] == ops[..k] && ops[k] in ops;
  }

  /** The position of a live node. */
  function Index(conns: seq<Conn<Receiver>>, id: nat): (i: nat)
    requires Live(conns, id)
    ensures i < |conns| && conns[i].id == id
  {
    if conns[0].id == id then 0
    else
      assert Live(conns[1..], id) by {
        var i :| 0 <= i < |conns| && conns[i].id == id;
        assert conns[1..][i - 1].id == id;
      }
      1 + Index(conns[1..], id)
  }

  /** One called slot: its operations, one after the other. */
  method Call(ops: seq<Op>, s: Signal, ghost ss: set<Signal>, ghost rs: set<Receiver>)
    requires Closed(ss, rs) && s in ss && AllWithin(ops, ss, rs)
    modifies ss, rs
    ensures Here(ss, rs) == DoAll(ops, old(Here(ss, rs)))
    ensures Closed(ss, rs) && Changed(old(s.St()), s.St())
  {
    hide WellFormed, Changed, Within, Do, DoAll, Closed;
    ghost var w, start := Here(ss, rs), s.St();
    WellFormedIn(s, ss, rs);
    ChangedSelf(start);
    NoOps(w);
    for k := 0 to |ops|
      invariant AllWithin(ops[..k], ss, rs) && Here(ss, rs) == DoAll(ops[..k], w)
      invariant Closed(ss, rs) && Changed(start, s.St()) && WellFormed(start)
    {
      ghost var before := s.St();
      DoAllNext(ops, k, w);
      assert WellFormed(before) by { WellFormedIn(s, ss, rs); }
      Perform(ops[k], ss, rs);
      WellFormedIn(s, ss, rs);
      ChangedChain(start, before, s.St());
    }
    assert ops[..|ops|] == ops;
  }

  lemma NoOps(w: World)
    ensures DoAll([], w) == w
  {}

  lemma WellFormedIn(s: Signal, ss: set<Signal>, rs: set<Receiver>)
    requires Closed(ss, rs) && s in ss
    ensures WellFormed(s.St())
  {}

  /** The operations of call k; calls behind the script do nothing. */
  function Ops(script: seq<seq<Op>>, k: nat): seq<Op> {
    if k < |script| then script[k] else []
  }

  /** The cursor of `self` steps over node i. */
  ghost function Stepped(w: World, self: Signal, i: nat): (w': World)
    requires self in w.sigs && i < |w.sigs[self].conns|
    ensures w'.sigs.Keys == w.sigs.Keys && w'.senders == w.senders && w'.sigs[self].conns == w.sigs[self].conns
  {
    w.(sigs := w.sigs[self := Advance(w.sigs[self], i)])
  }

  /** One turn of the emission: the cursor steps over c, then c's slot does its operations. */
  ghost predicate Turn(self: Signal, ops: seq<Op>, w: World, c: Conn<Receiver>, w': World) {
    && self in w.sigs && AllWithin(ops, w.sigs.Keys, w.senders.Keys)
    && exists i | 0 <= i < |w.sigs[self].conns| ::
         && w.sigs[self].conns[i] == c && w.sigs[self].cursor == Some(c.id)
         && w' == DoAll(ops, Stepped(w, self, i))
  }

  /** A whole emission: which slots are called, and what all signals and receivers hold in
      front of every call and at the end. */
  ghost predicate Run(self: Signal, script: seq<seq<Op>>, worlds: seq<World>, fired: seq<Conn<Receiver>>) {
    && |worlds| == |fired| + 1
    && forall k | 0 <= k < |fired| :: Turn(self, Ops(script, k), worlds[k], fired[k], worlds[k + 1])
  }

  /** The states of the emitting signal. */
  ghost predicate Traces(self: Signal, worlds: seq<World>, states: seq<Sig<Receiver>>) {
    |worlds| == |states| && forall k | 0 <= k < |worlds| :: self in worlds[k].sigs && worlds[k].sigs[self] == states[k]
  }

  lemma HereSelf(self: Signal, ss: set<Signal>, rs: set<Receiver>)
    requires self in ss
    ensures Here(ss, rs).sigs[self] == self.St()
  {}

  /** The cursor moves; nothing else does. */
  method Point(self: Signal, ghost ss: set<Signal>, ghost rs: set<Receiver>, i: nat)
    requires Closed(ss, rs) && self in ss && i <= |self.connected|
    modifies self`cursor
    ensures Closed(ss, rs) && self.St() == old(self.St()).(cursor := At(self.connected, i))
    ensures var w := old(Here(ss, rs));
            Here(ss, rs) == w.(sigs := w.sigs[self := w.sigs[self].(cursor := At(w.sigs[self].conns, i))])
  {
    hide WellFormed;
    PointKeeps(self.St(), i);
    self.cursor := if i < |self.connected| then Some(self.connected[i].id) else None;
  }

  lemma PointKeeps(s: Sig<Receiver>, i: nat)
    requires WellFormed(s) && i <= |s.conns|
    ensures WellFormed(s.(cursor := At(s.conns, i)))
  {
    if i < |s.conns| {
      assert Live(s.conns, s.conns[i].id);
    }
  }

  /** The turn of the node under the cursor. */
  method TakeTurn(self: Signal, ops: seq<Op>, ghost ss: set<Signal>, ghost rs: set<Receiver>)
    returns (conn: Conn<Receiver>)
    requires Closed(ss, rs) && self in ss && AllWithin(ops, ss, rs) && self.cursor != None
    modifies ss, rs
    ensures Closed(ss, rs) && Turn(self, ops, old(Here(ss, rs)), conn, Here(ss, rs))
    ensures Calls(old(self.St()), conn, self.St())
    ensures ops == [] ==> Pending(self.St()) < old(Pending(self.St()))
  {
    hide Closed, Here, WellFormed, Changed, AllWithin, Live, DoAll, Calls, Pending, Turn, Stepped, Advance;
    ghost var before, w := self.St(), Here(ss, rs);
    WellFormedIn(self, ss, rs);
    HereSelf(self, ss, rs);
    LiveCursor(before);
    var i := Index(self.connected, self.cursor.value);
    conn := self.connected[i];
    StepOver(self, ss, rs, i);
    NoOps(Here(ss, rs));
    HereSelf(self, ss, rs);
    Call(ops, self, ss, rs);
    HereSelf(self, ss, rs);
    TurnBy(self, ops, w, i, Here(ss, rs));
    CallsBy(before, i, self.St());
    PendingShrinks(before, i);
  }

  method StepOver(self: Signal, ghost ss: set<Signal>, ghost rs: set<Receiver>, i: nat)
    requires Closed(ss, rs) && self in ss && i < |self.connected|
    modifies self`cursor
    ensures Closed(ss, rs) && self.St() == Advance(old(self.St()), i)
    ensures Here(ss, rs) == Stepped(old(Here(ss, rs)), self, i)
  {
    hide Closed;
    Point(self, ss, rs, i + 1);
  }

  lemma TurnBy(self: Signal, ops: seq<Op>, w: World, i: nat, w': World)
    requires self in w.sigs && AllWithin(ops, w.sigs.Keys, w.senders.Keys)
    requires i < |w.sigs[self].conns| && w.sigs[self].cursor == Some(w.sigs[self].conns[i].id)
    requires w' == DoAll(ops, Stepped(w, self, i))
    ensures Turn(self, ops, w, w.sigs[self].conns[i], w')
  {
    hide AllWithin, DoAll, Stepped;
  }

  lemma RunStart(self: Signal, script: seq<seq<Op>>, w: World)
    requires self in w.sigs
    ensures Run(self, script, [w], []) && Traces(self, [w], [w.sigs[self]])
  {}

  lemma RunMore(self: Signal, script: seq<seq<Op>>, worlds: seq<World>, fired: seq<Conn<Receiver>>,
                states: seq<Sig<Receiver>>, c: Conn<Receiver>, w: World)
    requires Run(self, script, worlds, fired) && Traces(self, worlds, states) && self in w.sigs
    requires Turn(self, Ops(script, |fired|), worlds[|fired|], c, w)
    ensures Run(self, script, worlds + [w], fired + [c]) && Traces(self, worlds + [w], states + [w.sigs[self]])
  {
    hide Turn, Ops;
    var more, all := worlds + [w], fired + [c];
    forall k | 0 <= k < |all| ensures Turn(self, Ops(script, k), more[k], all[k], more[k + 1]) {}
  }

  lemma EmissionMore(states: seq<Sig<Receiver>>, fired: seq<Conn<Receiver>>, c: Conn<Receiver>, s: Sig<Receiver>)
    requires Emission(states, fired) && Calls(states[|fired|], c, s) && WellFormed(s)
    ensures Emission(states + [s], fired + [c])
  {
    hide Calls, WellFormed;
    var more, all := states + [s], fired + [c];
    forall k | 0 <= k < |all| ensures Calls(more[k], all[k], more[k + 1]) {}
  }

  /** emit: `script` lists what the first calls do to signals and receivers; later calls do
      nothing. The result is the list of connections in the order of their calls, with all
      that signals and receivers went through. */
  method Emit(self: Signal, script: seq<seq<Op>>, ghost ss: set<Signal>, ghost rs: set<Receiver>)
    returns (fired: seq<Conn<Receiver>>, ghost states: seq<Sig<Receiver>>, ghost worlds: seq<World>)
    requires Closed(ss, rs) && self in ss && forall k | 0 <= k < |script| :: AllWithin(script[k], ss, rs)
    modifies ss, rs
    ensures Closed(ss, rs) && self.cursor == None && Emission(states, fired)
    ensures states[0].conns == old(self.connected) && states[|fired|] == self.St()
    ensures Run(self, script, worlds, fired) && Traces(self, worlds, states)
    ensures var w := old(Here(ss, rs));
            worlds[0] == w.(sigs := w.sigs[self := w.sigs[self].(cursor := At(w.sigs[self].conns, 0))])
    ensures worlds[|fired|] == Here(ss, rs)
  {
    hide WellFormed, AllWithin, Calls, Turn, Closed, Here, Emission, Run, Traces, Pending;
    Point(self, ss, rs, 0);
    fired, states, worlds := [], [self.St()], [Here(ss, rs)];
    ghost var first := Here(ss, rs);
    WellFormedIn(self, ss, rs);
    HereSelf(self, ss, rs);
    RunStart(self, script, first);
    EmissionStart(self.St());
    while self.cursor != None
      invariant Closed(ss, rs) && |states| == |worlds| == |fired| + 1
      invariant states[|fired|] == self.St() && worlds[|fired|] == Here(ss, rs)
      invariant states[0].conns == old(self.connected) && worlds[0] == first
      invariant Emission(states, fired) && Run(self, script, worlds, fired) && Traces(self, worlds, states)
      decreases if |fired| < |script| then |script| - |fired| else 0, Pending(self.St())
    {
      NothingWithin(ss, rs);
      var conn := TakeTurn(self, Ops(script, |fired|), ss, rs);
      WellFormedIn(self, ss, rs);
      HereSelf(self, ss, rs);
      RunMore(self, script, worlds, fired, states, conn, Here(ss, rs));
      EmissionMore(states, fired, conn, self.St());
      fired, states, worlds := fired + [conn], states + [self.St()], worlds + [Here(ss, rs)];
    }
  }

  lemma EmissionStart(s: Sig<Receiver>)
    requires WellFormed(s) && s.cursor == At(s.conns, 0)
    ensures Emission([s], [])
  {
    hide WellFormed;
  }

  lemma NothingWithin(ss: set<Signal>, rs: set<Receiver>)
    ensures AllWithin([], ss, rs)
  {}

  // ---------------------------------------------------------------- who removes a connection

  /** The operation may remove connections of `self` to d. */
  predicate Targets(op: Op, self: Signal, d: Receiver) {
    match op
    case Connect(_, _) => false
    case Disconnect(s, r) => s == self && r == d
    case DisconnectAll(s) => s == self
    case LeaveAll(r) => r == d
  }

  predicate Targeted(ops: seq<Op>, self: Signal, d: Receiver) {
    exists op | op in ops :: Targets(op, self, d)
  }

  lemma EraseSpares(s: Sig<Receiver>, i: nat, c: Conn<Receiver>)
    requires i < |s.conns| && c in s.conns && c != s.conns[i]
    ensures c in EraseAt(s, i).conns
  {
    var k :| 0 <= k < |s.conns| && s.conns[k] == c;
    assert if k < i then EraseAt(s, i).conns[k] == c else EraseAt(s, i).conns[k - 1] == c;
  }

  lemma {:induction false} DropAllSpares(s: Sig<Receiver>, d: Receiver, c: Conn<Receiver>)
    requires c in s.conns && c.dest != d
    ensures c in DropAll(s, d).conns
    decreases |s.conns|
  {
    hide EraseAt;
    var i := First(s.conns, d);
    if i < |s.conns| {
      EraseSpares(s, i, c);
      EraseParts(s, i);
      DropAllSpares(EraseAt(s, i), d, c);
    }
  }

  /** A connection leaves a list only by an operation aimed at it. */
  lemma OnlyTargets(op: Op, w: World, self: Signal, c: Conn<Receiver>)
    requires Within(op, w.sigs.Keys, w.senders.Keys) && self in w.sigs
    requires c in w.sigs[self].conns && c !in Do(op, w).sigs[self].conns
    ensures Targets(op, self, c.dest)
  {
    hide EraseAt, DropAll, First;
    if op.Disconnect? && op.s == self {
      var i := First(w.sigs[self].conns, op.r);
      if i < |w.sigs[self].conns| && c != w.sigs[self].conns[i] {
        EraseSpares(w.sigs[self], i, c);
      }
    } else if op.LeaveAll? && c.dest != op.r {
      DropAllSpares(w.sigs[self], op.r, c);
    }
  }

  lemma {:induction false} OnlyTargetsAll(ops: seq<Op>, w: World, self: Signal, c: Conn<Receiver>)
    requires AllWithin(ops, w.sigs.Keys, w.senders.Keys) && self in w.sigs
    requires c in w.sigs[self].conns && c !in DoAll(ops, w).sigs[self].conns
    ensures Targeted(ops, self, c.dest)
  {
    hide Do, Within, Targets;
    if ops != [] {
      var n := |ops| - 1;
      assert ops[n] in ops;
      if c in DoAll(ops[..n], w).sigs[self].conns {
        OnlyTargets(ops[n], DoAll(ops[..n], w), self, c);
      } else {
        OnlyTargetsAll(ops[..n], w, self, c);
      }
    }
  }

  /** A connection leaves the signal's list during a call only if that call's slot disconnects
      it, empties the list, or takes its receiver out. */
  lemma RemovedByTarget(self: Signal, script: seq<seq<Op>>, worlds: seq<World>, fired: seq<Conn<Receiver>>,
                        states: seq<Sig<Receiver>>, k: nat, c: Conn<Receiver>)
    requires Run(self, script, worlds, fired) && Traces(self, worlds, states) && k < |fired|
    requires c in states[k].conns && c !in states[k + 1].conns
    ensures Targeted(Ops(script, k), self, c.dest)
  {
    hide Targeted, AllWithin, DoAll, Ops;
    var w, ops := worlds[k], Ops(script, k);
    assert Turn(self, ops, w, fired[k], worlds[k + 1]);
    var i :| 0 <= i < |w.sigs[self].conns| && w.sigs[self].conns[i] == fired[k]
      && w.sigs[self].cursor == Some(fired[k].id)
      && worlds[k + 1] == DoAll(ops, Stepped(w, self, i));
    OnlyTargetsAll(ops, Stepped(w, self, i), self, c);
  }

  /** A call whose slot does nothing only moves the cursor on. */
  lemma QuietTurn(self: Signal, script: seq<seq<Op>>, worlds: seq<World>, fired: seq<Conn<Receiver>>,
                  states: seq<Sig<Receiver>>, k: nat)
    requires Run(self, script, worlds, fired) && Traces(self, worlds, states) && k < |fired|
    requires k >= |script| || script[k] == []
    ensures exists i | 0 <= i < |states[k].conns| ::
              states[k].conns[i] == fired[k] && states[k + 1] == Advance(states[k], i)
  {
    hide AllWithin, DoAll;
    var w := worlds[k];
    assert Turn(self, [], w, fired[k], worlds[k + 1]);
    var i :| 0 <= i < |w.sigs[self].conns| && w.sigs[self].conns[i] == fired[k]
      && w.sigs[self].cursor == Some(fired[k].id)
      && worlds[k + 1] == DoAll([], Stepped(w, self, i));
    NoOps(Stepped(w, self, i));
    assert states[k].conns[i] == fired[k] && states[k + 1] == Advance(states[k], i);
  }

  /** Every connection present at the start is called, unless the slot of an earlier connection
      takes it out. */
  lemma UntargetedFires(self: Signal, script: seq<seq<Op>>, worlds: seq<World>, fired: seq<Conn<Receiver>>,
                        states: seq<Sig<Receiver>>, c: Conn<Receiver>)
    requires Run(self, script, worlds, fired) && Traces(self, worlds, states)
    requires Emission(states, fired) && states[|fired|].cursor == None && c in states[0].conns
    requires forall k | 0 <= k < |fired| && fired[k].id < c.id :: !Targeted(Ops(script, k), self, c.dest)
    ensures c in fired
  {
    hide Run, Traces, Targeted, Ops, Calls, WellFormed;
    InitialFires(states, fired, c);
    if c !in fired {
      var m :| 0 <= m < |fired| && RemovedDuring(states, fired, c, m);
      RemovedByTarget(self, script, worlds, fired, states, m, c);
      assert false;
    }
  }

  /** One receiver connected twice: disconnecting it once leaves a connection whose signal its
      senders no longer name. */
  method DisconnectTwin() returns (s: Signal, r: Receiver)
    ensures fresh(s) && fresh(r) && Closed({s}, {r}) && !Linked({s}, {r})
  {
    hide WellFormed, HasDest, First, EraseAt, Live;
    s := new Signal();
    r := new Receiver();
    s.Connect(r);
    s.Connect(r);
    assert s.connected == [Conn(0, r), Conn(1, r)];
    TwoToOne(r);
    s.Disconnect(r);
  }

  lemma TwoToOne(r: Receiver)
    ensures var two, one := Sig([Conn(0, r), Conn(1, r)], None, 2), Sig([Conn(1, r)], None, 2);
            && HasDest(two.conns, r) && First(two.conns, r) == 0 && EraseAt(two, 0) == one
            && WellFormed(one) && HasDest(one.conns, r)
  {
    var two, one := [Conn(0, r), Conn(1, r)], [Conn(1, r)];
    assert two[0].dest == r && one[0].dest == r && two[..0] + two[1..] == one;
  }
}
