/** The connection list of a signal in sigslot.hpp, with the cursor that `emit` walks over
    it, and what one emission calls when the called slots change the list. */
module SigList {
  import opened Wrappers

  /** A list node. The id stands for the node's address; it is never used again. */
  datatype Conn<D> = Conn(id: nat, dest: D)

  /** The list, the iterator (a live node, or None for `end()`) and the next node's id. */
  datatype Sig<D> = Sig(conns: seq<Conn<D>>, cursor: Option<nat>, next: nat)

  predicate Ordered<D>(conns: seq<Conn<D>>) {
    forall i, j | 0 <= i < j < |conns| :: conns[i].id < conns[j].id
  }

  predicate Live<D>(conns: seq<Conn<D>>, id: nat) {
    exists i | 0 <= i < |conns| :: conns[i].id == id
  }

  /** Nodes stand in the order of their creation and the cursor is never dangling. */
  predicate WellFormed<D>(s: Sig<D>) {
    && Ordered(s.conns)
    && (forall i | 0 <= i < |s.conns| :: s.conns[i].id < s.next)
    && (s.cursor.Some? ==> Live(s.conns, s.cursor.value))
  }

  lemma WellFormedOrdered<D>(s: Sig<D>)
    requires WellFormed(s)
    ensures Ordered(s.conns)
  {}

  /** The iterator to position i. */
  function At<D>(conns: seq<Conn<D>>, i: nat): Option<nat>
    requires i <= |conns|
  {
    if i < |conns| then Some(conns[i].id) else None
  }

  predicate HasDest<D(==)>(conns: seq<Conn<D>>, d: D) {
    exists i | 0 <= i < |conns| :: conns[i].dest == d
  }

  predicate AtMostOne<D(==)>(conns: seq<Conn<D>>, d: D) {
    forall i, j | 0 <= i < j < |conns| :: !(conns[i].dest == d && conns[j].dest == d)
  }

  function Count<D(==)>(conns: seq<Conn<D>>, d: D): nat {
    if conns == [] then 0
    else Count(conns[..|conns| - 1], d) + if conns[|conns| - 1].dest == d then 1 else 0
  }

  lemma CountNone<D>(conns: seq<Conn<D>>, d: D)
    ensures Count(conns[..0], d) == 0
  {}

  lemma CountStep<D>(conns: seq<Conn<D>>, k: nat, d: D)
    requires k < |conns|
    ensures Count(conns[..k + 1], d) == Count(conns[..k], d) + if conns[k].dest == d then 1 else 0
  {
    assert conns[..k + 1][..k] == conns[..k];
  }

  // ---------------------------------------------------------------- operations

  function Append<D>(s: Sig<D>, d: D): Sig<D> {
    s.(conns := s.conns + [Conn(s.next, d)], next := s.next + 1)
  }

  /** Erasing a node; a cursor on it moves to the node behind. */
  function EraseAt<D>(s: Sig<D>, i: nat): Sig<D>
    requires i < |s.conns|
  {
    Sig(s.conns[..i] + s.conns[i + 1..],
        if s.cursor == Some(s.conns[i].id) then At(s.conns, i + 1) else s.cursor,
        s.next)
  }

  function Clear<D>(s: Sig<D>): Sig<D> {
    Sig([], None, s.next)
  }

  /** s' comes from s by erasing nodes and appending new ones, the cursor kept on the first
      surviving node at or behind its place. */
  ghost predicate Changed<D>(s: Sig<D>, s': Sig<D>) {
    && s.next <= s'.next
    && (forall c | c in s'.conns :: c in s.conns || s.next <= c.id)
    && (s.cursor == None ==> s'.cursor == None)
    && (s'.cursor.Some? ==> s.cursor.Some? && s.cursor.value <= s'.cursor.value)
    && (forall c | c in s.conns && c in s'.conns && s.cursor.Some? && s.cursor.value <= c.id ::
          s'.cursor.Some? && s'.cursor.value <= c.id)
  }

  lemma ChangedSelf<D>(s: Sig<D>)
    ensures Changed(s, s)
  {}

  lemma ChangedChain<D>(s: Sig<D>, t: Sig<D>, u: Sig<D>)
    requires WellFormed(s) && WellFormed(t) && WellFormed(u) && Changed(s, t) && Changed(t, u)
    ensures Changed(s, u)
  {
    forall c | c in s.conns && c in u.conns && s.cursor.Some? && s.cursor.value <= c.id
      ensures u.cursor.Some? && u.cursor.value <= c.id {
      assert c.id < s.next;
      assert c in t.conns;
    }
  }

  lemma AppendChanges<D>(s: Sig<D>, d: D)
    requires WellFormed(s)
    ensures WellFormed(Append(s, d)) && Changed(s, Append(s, d))
  {
    var t := Append(s, d);
    if s.cursor.Some? {
      var i :| 0 <= i < |s.conns| && s.conns[i].id == s.cursor.value;
      assert t.conns[i].id == s.cursor.value;
    }
  }

  lemma Erased<D>(conns: seq<Conn<D>>, i: nat)
    requires Ordered(conns) && i < |conns|
    ensures var rest := conns[..i] + conns[i + 1..];
            && Ordered(rest)
            && (forall k | 0 <= k < i :: rest[k] == conns[k])
            && (forall k | i < k < |conns| :: rest[k - 1] == conns[k])
            && (forall c :: c in rest <==> c in conns && c.id != conns[i].id)
  {
    var rest := conns[..i] + conns[i + 1..];
    assert forall k | 0 <= k < |rest| :: rest[k] == if k < i then conns[k] else conns[k + 1];
  }

  lemma EraseChanges<D>(s: Sig<D>, i: nat)
    requires WellFormed(s) && i < |s.conns|
    ensures WellFormed(EraseAt(s, i)) && Changed(s, EraseAt(s, i))
  {
    hide EraseAt, Live;
    Erased(s.conns, i);
    EraseLive(s, i);
    EraseParts(s, i);
    var t := EraseAt(s, i);
    forall c | c in s.conns && c in t.conns && s.cursor.Some? && s.cursor.value <= c.id
      ensures t.cursor.Some? && t.cursor.value <= c.id {
      EraseCursor(s, i, c);
    }
  }

  lemma EraseCursor<D>(s: Sig<D>, i: nat, c: Conn<D>)
    requires WellFormed(s) && i < |s.conns| && c in s.conns && c.id != s.conns[i].id
    requires s.cursor.Some? && s.cursor.value <= c.id
    ensures var t := EraseAt(s, i); t.cursor.Some? && t.cursor.value <= c.id
  {
    hide Live;
    var k :| 0 <= k < |s.conns| && s.conns[k] == c;
  }

  lemma EraseParts<D>(s: Sig<D>, i: nat)
    requires i < |s.conns|
    ensures var t := EraseAt(s, i);
            && t.conns == s.conns[..i] + s.conns[i + 1..] && t.next == s.next
            && t.cursor == if s.cursor == Some(s.conns[i].id) then At(s.conns, i + 1) else s.cursor
  {}

  lemma EraseLive<D>(s: Sig<D>, i: nat)
    requires WellFormed(s) && i < |s.conns|
    ensures var t := EraseAt(s, i);
            t.cursor.Some? ==> Live(t.conns, t.cursor.value)
  {
    var t := EraseAt(s, i);
    Erased(s.conns, i);
    if s.cursor.Some? {
      var k :| 0 <= k < |s.conns| && s.conns[k].id == s.cursor.value;
      if k < i {
        assert t.conns[k].id == s.cursor.value;
      } else if k > i {
        assert t.conns[k - 1].id == s.cursor.value;
      } else if i + 1 < |s.conns| {
        assert t.conns[i + 1 - 1].id == s.conns[i + 1].id;
      }
    }
  }

  lemma ClearChanges<D>(s: Sig<D>)
    requires WellFormed(s)
    ensures WellFormed(Clear(s)) && Changed(s, Clear(s))
  {}

  // ---------------------------------------------------------------- operations on many nodes

  /** The place of the first connection to d, or the end. */
  function First<D(==)>(conns: seq<Conn<D>>, d: D): (i: nat)
    ensures i <= |conns| && (i < |conns| ==> conns[i].dest == d) && forall j | 0 <= j < i :: conns[j].dest != d
  {
    if conns == [] || conns[0].dest == d then 0 else 1 + First(conns[1..], d)
  }

  lemma FirstIs<D>(conns: seq<Conn<D>>, d: D, i: nat)
    requires i <= |conns| && !HasDest(conns[..i], d) && (i < |conns| ==> conns[i].dest == d)
    ensures First(conns, d) == i
  {
    forall j | 0 <= j < i ensures conns[j].dest != d {
      assert conns[..i][j].dest != d;
    }
  }

  lemma FirstHas<D>(conns: seq<Conn<D>>, d: D)
    ensures First(conns, d) < |conns| <==> HasDest(conns, d)
  {}

  /** Every connection to d erased, one after the other. */
  function DropAll<D(==)>(s: Sig<D>, d: D): Sig<D>
    decreases |s.conns|
  {
    var i := First(s.conns, d);
    if i == |s.conns| then s else DropAll(EraseAt(s, i), d)
  }

  lemma {:induction false} DropAllKeeps<D>(s: Sig<D>, d: D)
    requires WellFormed(s)
    ensures var t := DropAll(s, d);
            && WellFormed(t) && Changed(s, t) && t.next == s.next
            && (forall c | c in t.conns :: c in s.conns && c.dest != d)
            && (forall c | c in s.conns && c.dest != d :: c in t.conns)
    decreases |s.conns|
  {
    hide WellFormed, Changed, EraseAt;
    var i := First(s.conns, d);
    if i == |s.conns| {
      ChangedSelf(s);
    } else {
      EraseChanges(s, i);
      WellFormedOrdered(s);
      Erased(s.conns, i);
      EraseParts(s, i);
      DropAllKeeps(EraseAt(s, i), d);
      ChangedChain(s, EraseAt(s, i), DropAll(s, d));
    }
  }

  /** n new connections to d behind the others. */
  function AppendMany<D>(s: Sig<D>, d: D, n: nat): Sig<D> {
    if n == 0 then s else Append(AppendMany(s, d, n - 1), d)
  }

  lemma AppendManyNone<D>(s: Sig<D>, d: D)
    ensures AppendMany(s, d, 0) == s
  {}

  lemma AppendManyNext<D>(s: Sig<D>, d: D, n: nat)
    ensures AppendMany(s, d, n + 1) == Append(AppendMany(s, d, n), d)
  {}

  lemma AppendParts<D>(s: Sig<D>, d: D, n: nat)
    requires n <= |s.conns|
    ensures var t := Append(s, d);
            && |t.conns| == |s.conns| + 1 && t.conns[|s.conns|].dest == d && t.conns[..n] == s.conns[..n]
            && forall i | 0 <= i < |s.conns| :: t.conns[i] == s.conns[i]
  {}

  lemma {:induction false} AppendManyKeeps<D>(s: Sig<D>, d: D, n: nat)
    requires WellFormed(s)
    ensures var t := AppendMany(s, d, n);
            && WellFormed(t) && Changed(s, t) && |t.conns| == |s.conns| + n && t.conns[..|s.conns|] == s.conns
            && forall i | |s.conns| <= i < |t.conns| :: t.conns[i].dest == d
  {
    hide WellFormed, Changed, Append;
    if n == 0 {
      ChangedSelf(s);
    } else {
      var u := AppendMany(s, d, n - 1);
      AppendManyKeeps(s, d, n - 1);
      AppendChanges(u, d);
      AppendParts(u, d, |s.conns|);
      ChangedChain(s, u, AppendMany(s, d, n));
    }
  }

  // ---------------------------------------------------------------- one emission

  /** The iterator steps over node i, which is about to be called. */
  function Advance<D>(s: Sig<D>, i: nat): Sig<D>
    requires i < |s.conns|
  {
    s.(cursor := At(s.conns, i + 1))
  }

  /** Call k: the cursor's node, then whatever the called slot does to the list. */
  ghost predicate Calls<D>(s: Sig<D>, c: Conn<D>, s': Sig<D>) {
    exists i | 0 <= i < |s.conns| ::
      s.conns[i] == c && s.cursor == Some(c.id) && Changed(Advance(s, i), s')
  }

  lemma LiveCursor<D>(s: Sig<D>)
    requires WellFormed(s) && s.cursor.Some?
    ensures Live(s.conns, s.cursor.value)
  {}

  lemma CallsBy<D>(s: Sig<D>, i: nat, s': Sig<D>)
    requires i < |s.conns| && s.cursor == Some(s.conns[i].id) && Changed(Advance(s, i), s')
    ensures Calls(s, s.conns[i], s')
  {}

  /** The number of nodes at and behind the cursor. */
  function Pending<D>(s: Sig<D>): nat {
    if s.cursor == None then 0 else From(s.conns, s.cursor.value)
  }

  function From<D>(conns: seq<Conn<D>>, id: nat): nat {
    if conns == [] then 0 else if conns[0].id == id then |conns| else From(conns[1..], id)
  }

  lemma {:induction false} FromIndex<D>(conns: seq<Conn<D>>, i: nat)
    requires Ordered(conns) && i < |conns|
    ensures From(conns, conns[i].id) == |conns| - i
  {
    if i > 0 {
      FromIndex(conns[1..], i - 1);
    }
  }

  lemma PendingShrinks<D>(s: Sig<D>, i: nat)
    requires WellFormed(s) && i < |s.conns| && s.cursor == Some(s.conns[i].id)
    ensures Pending(Advance(s, i)) < Pending(s)
  {
    FromIndex(s.conns, i);
    if i + 1 < |s.conns| {
      FromIndex(s.conns, i + 1);
    }
  }

  /** An emission: from the first node until the cursor is at the end. */
  ghost predicate Emission<D>(states: seq<Sig<D>>, fired: seq<Conn<D>>) {
    && |states| == |fired| + 1
    && (forall s | s in states :: WellFormed(s))
    && states[0].cursor == At(states[0].conns, 0)
    && (forall k | 0 <= k < |fired| :: Calls(states[k], fired[k], states[k + 1]))
  }

  /** c leaves the list during call k, before its turn has come. */
  ghost predicate RemovedDuring<D>(states: seq<Sig<D>>, fired: seq<Conn<D>>, c: Conn<D>, k: nat)
    requires |states| == |fired| + 1 && k < |fired|
  {
    c in states[k].conns && c !in states[k + 1].conns && fired[k].id < c.id
  }

  lemma CallSteps<D>(s: Sig<D>, c: Conn<D>, s': Sig<D>)
    requires WellFormed(s) && WellFormed(s') && Calls(s, c, s')
    ensures c in s.conns && s.cursor == Some(c.id)
    ensures s'.cursor.Some? ==> c.id < s'.cursor.value
    ensures forall d | d in s.conns && d in s'.conns && c.id < d.id :: s'.cursor.Some? && s'.cursor.value <= d.id
    ensures s.next <= s'.next && forall d | d in s'.conns :: d in s.conns || s.next <= d.id
  {
    var i :| 0 <= i < |s.conns| && s.conns[i] == c && s.cursor == Some(c.id) && Changed(Advance(s, i), s');
    forall d | d in s.conns && d in s'.conns && c.id < d.id ensures s'.cursor.Some? && s'.cursor.value <= d.id {
      hide Changed;
      BehindNext(s, i, d);
      CursorBefore(Advance(s, i), s', d);
    }
  }

  lemma BehindNext<D>(s: Sig<D>, i: nat, d: Conn<D>)
    requires WellFormed(s) && i < |s.conns| && d in s.conns && s.conns[i].id < d.id
    ensures i + 1 < |s.conns| && s.conns[i + 1].id <= d.id
  {
    var k :| 0 <= k < |s.conns| && s.conns[k] == d;
    assert k > i;
  }

  lemma CursorBefore<D>(s: Sig<D>, s': Sig<D>, d: Conn<D>)
    requires Changed(s, s') && d in s.conns && d in s'.conns && s.cursor.Some? && s.cursor.value <= d.id
    ensures s'.cursor.Some? && s'.cursor.value <= d.id
  {}

  /** A connection at or behind the cursor is called, unless a call before its turn removes it. */
  lemma {:induction false} PendingFires<D>(states: seq<Sig<D>>, fired: seq<Conn<D>>, k: nat, c: Conn<D>)
    requires Emission(states, fired) && states[|fired|].cursor == None && k <= |fired|
    requires c in states[k].conns && states[k].cursor.Some? && states[k].cursor.value <= c.id
    ensures (exists m | k <= m < |fired| :: fired[m] == c)
            || (exists m | k <= m < |fired| :: RemovedDuring(states, fired, c, m))
    decreases |fired| - k
  {
    hide Changed, Calls, WellFormed;
    assert k < |fired|;
    CallSteps(states[k], fired[k], states[k + 1]);
    if fired[k].id == c.id {
      SameId(states[k], c, fired[k]);
    } else if c in states[k + 1].conns {
      PendingFires(states, fired, k + 1, c);
    } else {
      assert RemovedDuring(states, fired, c, k);
    }
  }

  lemma SameId<D>(s: Sig<D>, c: Conn<D>, d: Conn<D>)
    requires WellFormed(s) && c in s.conns && d in s.conns && c.id == d.id
    ensures c == d
  {}

  /** Every connection present at the start is called, unless a call before its turn
      removes it. */
  lemma InitialFires<D>(states: seq<Sig<D>>, fired: seq<Conn<D>>, c: Conn<D>)
    requires Emission(states, fired) && states[|fired|].cursor == None && c in states[0].conns
    ensures (exists m | 0 <= m < |fired| :: fired[m] == c)
            || (exists m | 0 <= m < |fired| :: RemovedDuring(states, fired, c, m))
  {
    hide Changed, Calls;
    assert states[0] in states;
    PendingFires(states, fired, 0, c);
  }

  /** Calls happen in connect order, so none happens twice. */
  lemma {:induction false} FiresInOrder<D>(states: seq<Sig<D>>, fired: seq<Conn<D>>, j: nat, k: nat)
    requires Emission(states, fired) && j < k < |fired|
    ensures fired[j].id < fired[k].id
    decreases k - j
  {
    hide Changed, Calls, WellFormed;
    CallSteps(states[j], fired[j], states[j + 1]);
    CallSteps(states[j + 1], fired[j + 1], states[j + 2]);
    if j + 1 < k {
      FiresInOrder(states, fired, j + 1, k);
    }
  }

  /** A connection that is not in the list at call k, though its node was made before, is not
      called at or after it. */
  lemma {:induction false} RemovedNeverFires<D>(states: seq<Sig<D>>, fired: seq<Conn<D>>, k: nat, m: nat, c: Conn<D>)
    requires Emission(states, fired) && k <= m < |fired|
    requires c !in states[k].conns && c.id < states[k].next
    ensures fired[m] != c
    decreases m - k
  {
    hide Changed, Calls, WellFormed;
    CallSteps(states[k], fired[k], states[k + 1]);
    if k < m {
      RemovedNeverFires(states, fired, k + 1, m, c);
    }
  }

  /** A connection made while the cursor is at the end is not called by this emission. */
  lemma LateConnectionWaits<D>(states: seq<Sig<D>>, fired: seq<Conn<D>>, k: nat)
    requires Emission(states, fired) && k <= |fired| && states[k].cursor == None
    ensures k == |fired|
  {
    hide Changed, WellFormed;
    if k < |fired| {
      CallSteps(states[k], fired[k], states[k + 1]);
    }
  }

  /** A connection present at the start is called if and only if no call before its turn
      removes it. */
  lemma FiresExactly<D>(states: seq<Sig<D>>, fired: seq<Conn<D>>, c: Conn<D>)
    requires Emission(states, fired) && states[|fired|].cursor == None && c in states[0].conns
    ensures c in fired <==> !exists k | 0 <= k < |fired| :: RemovedDuring(states, fired, c, k)
  {
    hide Calls, WellFormed;
    InitialFires(states, fired, c);
    if c in fired && exists k | 0 <= k < |fired| :: RemovedDuring(states, fired, c, k) {
      var m :| 0 <= m < |fired| && fired[m] == c;
      var k :| 0 <= k < |fired| && RemovedDuring(states, fired, c, k);
      if m < k {
        FiresInOrder(states, fired, m, k);
      } else {
        NextAfter(states, fired, k, c);
        RemovedNeverFires(states, fired, k + 1, m, c);
      }
      assert false;
    }
  }

  lemma NextAfter<D>(states: seq<Sig<D>>, fired: seq<Conn<D>>, k: nat, c: Conn<D>)
    requires Emission(states, fired) && k < |fired| && c in states[k].conns
    ensures c.id < states[k + 1].next
  {
    hide Calls, Changed;
    assert states[k] in states && states[k + 1] in states;
    CallSteps(states[k], fired[k], states[k + 1]);
  }
}
