/** The blocking channel of channel.hpp. A critical section is one atomic step; a thread that
    waits on the condition variable may check its predicate again at any time. */
module Channel {
  import opened Seqs

  /** What the mutex guards, with the history of the queue. `early` counts the reads that
      returned without a value after they had taken one off `size`. */
  datatype Shared<T> = Shared(queue: seq<T>, size: int, closed: bool, pushed: seq<T>, popped: seq<T>, early: nat)

  datatype Thread<T> =
    | Idle
    | Writing(value: T)      // operator<< behind its closed() check
    | CheckedClosed          // operator>> has seen closed() true and looks at empty() next
    | Reading                // operator>> in front of the lock
    | WaitingToRead          // operator>> in its wait, the size already taken down

  datatype State<T> = State(shared: Shared<T>, threads: seq<Thread<T>>)

  // ---------------------------------------------------------------- critical sections

  /** The predicate of waitBeforeWrite. */
  predicate MayWrite<T>(c: Shared<T>, cap: nat) { c.size < cap }

  /** The predicate of waitBeforeRead. */
  predicate MayRead<T>(c: Shared<T>) { c.queue != [] || c.closed }

  function Push<T>(c: Shared<T>, v: T): Shared<T> {
    c.(queue := c.queue + [v], size := c.size + 1, pushed := c.pushed + [v])
  }

  function Enter<T>(c: Shared<T>): Shared<T> {
    c.(size := c.size - 1)
  }

  /** The end of a read: the front of the queue, or nothing after close. */
  function Leave<T>(c: Shared<T>): Shared<T> {
    if c.queue != [] then c.(queue := c.queue[1..], popped := c.popped + [c.queue[0]])
    else c.(early := c.early + 1)
  }

  function Close<T>(c: Shared<T>): Shared<T> {
    c.(closed := true)
  }

  // ---------------------------------------------------------------- steps

  datatype Action<T> =
    | StartWrite(v: T) | DoWrite
    | StartRead | SeeEmpty | DoRead | WakeRead
    | DoClose

  ghost predicate Step<T(!new)>(s: State<T>, t: nat, a: Action<T>, s': State<T>, cap: nat) {
    t < |s.threads| &&
    var c, th := s.shared, s.threads[t];
    match a
    case StartWrite(v) =>
      // throws, and stays idle, when closed
      th == Idle && s' == if c.closed then s else To(s, t, Writing(v), c)
    case DoWrite =>
      th.Writing? && MayWrite(c, cap) && s' == To(s, t, Idle, Push(c, th.value))
    case StartRead =>
      th == Idle && s' == To(s, t, if c.closed then CheckedClosed else Reading, c)
    case SeeEmpty =>
      th == CheckedClosed && s' == To(s, t, if c.queue == [] then Idle else Reading, c)
    case DoRead =>
      th == Reading && s' == if MayRead(c) then To(s, t, Idle, Leave(Enter(c))) else To(s, t, WaitingToRead, Enter(c))
    case WakeRead =>
      th == WaitingToRead && MayRead(c) && s' == To(s, t, Idle, Leave(c))
    case DoClose =>
      th == Idle && s' == To(s, t, Idle, Close(c))
  }

  ghost function To<T>(s: State<T>, t: nat, th: Thread<T>, c: Shared<T>): State<T>
    requires t < |s.threads|
  {
    State(c, s.threads[t := th])
  }

  ghost predicate Start<T(!new)>(s: State<T>) {
    s.shared == Shared([], 0, false, [], [], 0) && forall t | 0 <= t < |s.threads| :: s.threads[t] == Idle
  }

  ghost predicate Next<T(!new)>(s: State<T>, s': State<T>, cap: nat) {
    exists t: nat, a: Action<T> :: Step(s, t, a, s', cap)
  }

  // ---------------------------------------------------------------- what every run keeps

  /** The readers that wait with their size already taken down. */
  function Waiting<T>(threads: seq<Thread<T>>): nat {
    if threads == [] then 0
    else Waiting(threads[..|threads| - 1]) + if threads[|threads| - 1].WaitingToRead? then 1 else 0
  }

  lemma {:induction false} WaitingUpdate<T>(threads: seq<Thread<T>>, t: nat, th: Thread<T>)
    requires t < |threads|
    ensures Waiting(threads[t := th]) == Waiting(threads)
              - (if threads[t].WaitingToRead? then 1 else 0) + (if th.WaitingToRead? then 1 else 0)
  {
    var n := |threads| - 1;
    if t == n {
      assert threads[t := th][..n] == threads[..n];
    } else {
      WaitingUpdate(threads[..n], t, th);
      assert threads[t := th][..n] == threads[..n][t := th];
    }
  }

  ghost predicate Inv<T(!new)>(s: State<T>, cap: nat) {
    var c := s.shared;
    && c.pushed == c.popped + c.queue
    && c.size == |c.queue| - Waiting(s.threads) - c.early
    && (c.early > 0 ==> c.closed)
    && c.size <= cap
  }

  lemma {:induction false} StartWaiting<T>(threads: seq<Thread<T>>)
    requires forall t | 0 <= t < |threads| :: threads[t] == Idle
    ensures Waiting(threads) == 0
  {
    if threads != [] {
      StartWaiting(threads[..|threads| - 1]);
    }
  }

  lemma StepKeeps<T(!new)>(s: State<T>, t: nat, a: Action<T>, s': State<T>, cap: nat)
    requires Inv(s, cap) && Step(s, t, a, s', cap)
    ensures Inv(s', cap)
  {
    hide Waiting;
    var c := s.shared;
    WaitingUpdate(s.threads, t, s'.threads[t]);
    if a.DoWrite? {
      Assoc(c.popped, c.queue, [s.threads[t].value]);
    } else if (a.DoRead? || a.WakeRead?) && c.queue != [] {
      assert c.queue == [c.queue[0]] + c.queue[1..];
      Assoc(c.popped, [c.queue[0]], c.queue[1..]);
    }
  }

  /** A run: steps of any threads in any order. */
  ghost predicate Run<T(!new)>(run: seq<State<T>>, cap: nat) {
    && run != [] && Start(run[0])
    && forall k | 0 <= k < |run| - 1 :: Next(run[k], run[k + 1], cap)
  }

  lemma {:induction false} RunKeeps<T(!new)>(run: seq<State<T>>, cap: nat, k: nat)
    requires Run(run, cap) && k < |run|
    ensures Inv(run[k], cap)
  {
    hide Inv, Step;
    if k == 0 {
      StartInv(run[0], cap);
    } else {
      RunKeeps(run, cap, k - 1);
      assert Next(run[k - 1], run[k - 1 + 1], cap);
      var t, a :| Step(run[k - 1], t, a, run[k], cap);
      StepKeeps(run[k - 1], t, a, run[k], cap);
    }
  }

  lemma StartInv<T(!new)>(s: State<T>, cap: nat)
    requires Start(s)
    ensures Inv(s, cap)
  {
    StartWaiting(s.threads);
  }

  /** In every state of every run: values come out in the order they went in and none is lost
      or made up; the size counts the queue less the readers that wait or left with nothing,
      which happens only after close; the queue holds at most the capacity plus one value for
      each of those readers. */
  lemma Fifo<T(!new)>(run: seq<State<T>>, cap: nat, k: nat)
    requires Run(run, cap) && k < |run|
    ensures var c := run[k].shared;
            && c.popped <= c.pushed && c.pushed == c.popped + c.queue
            && c.size == |c.queue| - Waiting(run[k].threads) - c.early
            && (c.early > 0 ==> c.closed)
            && c.size <= cap && |c.queue| <= cap + Waiting(run[k].threads) + c.early
  {
    RunKeeps(run, cap, k);
  }

  /** A writer and a waiting reader are never both held up by their predicates. */
  lemma NoMutualWait<T(!new)>(run: seq<State<T>>, cap: nat, k: nat, r: nat)
    requires Run(run, cap) && k < |run|
    requires r < |run[k].threads| && run[k].threads[r] == WaitingToRead
    ensures MayRead(run[k].shared) || MayWrite(run[k].shared, cap)
  {
    hide Waiting;
    RunKeeps(run, cap, k);
    SomeoneWaits(run[k].threads, r);
  }

  lemma {:induction false} SomeoneWaits<T>(threads: seq<Thread<T>>, r: nat)
    requires r < |threads| && threads[r] == WaitingToRead
    ensures Waiting(threads) > 0
  {
    if r < |threads| - 1 {
      SomeoneWaits(threads[..|threads| - 1], r);
    }
  }

  /** On an unbuffered channel that is not closed, a value is pushed only while more readers
      wait than values are queued: each has a reader of its own. */
  lemma Rendezvous<T(!new)>(run: seq<State<T>>, k: nat)
    requires Run(run, 0) && k < |run| && !run[k].shared.closed && MayWrite(run[k].shared, 0)
    ensures |run[k].shared.queue| < Waiting(run[k].threads)
  {
    RunKeeps(run, 0, k);
  }

  /** Once closed, a channel stays closed and no write begins any more. */
  lemma ClosedForGood<T(!new)>(s: State<T>, s': State<T>, cap: nat)
    requires Next(s, s', cap) && s.shared.closed
    ensures s'.shared.closed
    ensures forall t | 0 <= t < |s.threads| == |s'.threads| && s'.threads[t].Writing? :: s.threads[t] == s'.threads[t]
  {
    var t, a :| Step(s, t, a, s', cap);
  }

  /** A writer goes on if and only if the size is below the capacity, closed or not, and then adds its
      value at the end; on an open channel it does so whenever fewer values than the capacity are
      queued. */
  lemma WriteGoesOn<T(!new)>(run: seq<State<T>>, k: nat, t: nat, cap: nat)
    requires Run(run, cap) && k < |run| && t < |run[k].threads| && run[k].threads[t].Writing?
    ensures var s, c := run[k], run[k].shared;
            && ((exists a, s' :: Step(s, t, a, s', cap)) <==> c.size < cap)
            && (!c.closed && |c.queue| < cap ==> c.size < cap)
            && forall a, s' :: Step(s, t, a, s', cap) ==>
                 && s'.threads == s.threads[t := Idle]
                 && s'.shared == c.(queue := c.queue + [s.threads[t].value], size := c.size + 1,
                                    pushed := c.pushed + [s.threads[t].value])
  {
    hide Waiting;
    RunKeeps(run, cap, k);
    var s := run[k];
    if s.shared.size < cap {
      assert Step(s, t, DoWrite, To(s, t, Idle, Push(s.shared, s.threads[t].value)), cap);
    }
  }

  /** A write begins unless the channel is closed, and then changes nothing. */
  lemma WriteBegins<T(!new)>(s: State<T>, t: nat, v: T, s': State<T>, cap: nat)
    requires Step(s, t, StartWrite(v), s', cap)
    ensures s'.shared == s.shared
    ensures s'.threads == if s.shared.closed then s.threads else s.threads[t := Writing(v)]
  {}

  /** A waiting reader goes on if and only if a value is there or the channel is closed; one in front
      of the lock, or of its look at the queue, always does. */
  lemma ReadGoesOn<T(!new)>(s: State<T>, t: nat, cap: nat)
    requires t < |s.threads| && s.threads[t] in {WaitingToRead, Reading, CheckedClosed}
    ensures (exists a, s' :: Step(s, t, a, s', cap))
            <==> (s.threads[t] == WaitingToRead ==> s.shared.queue != [] || s.shared.closed)
  {
    var c := s.shared;
    if s.threads[t] == CheckedClosed {
      assert Step(s, t, SeeEmpty, To(s, t, if c.queue == [] then Idle else Reading, c), cap);
    } else if s.threads[t] == Reading {
      assert Step(s, t, DoRead, if MayRead(c) then To(s, t, Idle, Leave(Enter(c)))
                                else To(s, t, WaitingToRead, Enter(c)), cap);
    } else if c.queue != [] || c.closed {
      assert Step(s, t, WakeRead, To(s, t, Idle, Leave(c)), cap);
    }
  }

  // ---------------------------------------------------------------- one read in a run

  /** What one thread can be seen to do between two states of a run. */
  lemma OfThread<T(!new)>(s: State<T>, s': State<T>, cap: nat, t: nat)
    requires Next(s, s', cap) && t < |s.threads|
    ensures |s'.threads| == |s.threads|
    ensures var c, c', th, th' := s.shared, s'.shared, s.threads[t], s'.threads[t];
            && (c.closed ==> c'.closed) && c.pushed <= c'.pushed && c.popped <= c'.popped
            && (th == Idle && th' != Idle && c.closed ==> th' == CheckedClosed && c' == c)
            && (th == Idle && th' != Idle && !c.closed ==> (th' == Reading || th'.Writing?) && c' == c)
            && (th == CheckedClosed && th' != th ==> c' == c && th' == if c.queue == [] then Idle else Reading)
            && (th == Reading && th' != th && (c.queue != [] || c.closed) ==>
                  th' == Idle && c'.size == c.size - 1 && (c.queue == [] ==> c'.early == c.early + 1))
            && (th == Reading && th' != th && c.queue == [] && !c.closed ==>
                  th' == WaitingToRead && c' == c.(size := c.size - 1))
            && (th == WaitingToRead && th' != th ==>
                  th' == Idle && c'.size == c.size && (c.queue != [] || c.closed)
                  && (c.queue == [] ==> c'.early == c.early + 1))
            && ((th == Reading || th == WaitingToRead) && th' == Idle && c.queue != [] ==>
                  c'.popped == c.popped + [c.queue[0]] && c'.queue == c.queue[1..] && c'.early == c.early)
  {
    var u, a :| Step(s, u, a, s', cap);
  }

  /** Thread t is in a read from state k to state m: it begins behind k and ends at m. */
  ghost predicate ReadBetween<T(!new)>(run: seq<State<T>>, t: nat, k: nat, m: nat) {
    && k < m < |run| && (forall j | 0 <= j < |run| :: t < |run[j].threads|)
    && run[k].threads[t] == Idle && run[m].threads[t] == Idle
    && (forall j | k < j < m :: run[j].threads[t] in {CheckedClosed, Reading, WaitingToRead})
    && k + 1 < m
  }

  lemma Steps<T(!new)>(run: seq<State<T>>, cap: nat, t: nat, j: nat)
    requires Run(run, cap) && j + 1 < |run| && t < |run[j].threads|
    ensures Next(run[j], run[j + 1], cap)
  {}

  lemma {:induction false} Grows<T(!new)>(run: seq<State<T>>, cap: nat, j: nat, m: nat)
    requires Run(run, cap) && j <= m < |run| && |run[j].threads| > 0
    ensures run[j].shared.pushed <= run[m].shared.pushed && run[j].shared.popped <= run[m].shared.popped
    ensures (run[j].shared.closed ==> run[m].shared.closed) && |run[m].threads| == |run[j].threads|
    decreases m - j
  {
    hide Next;
    if j < m {
      Grows(run, cap, j, m - 1);
      Steps(run, cap, 0, m - 1);
      OfThread(run[m - 1], run[m], cap, 0);
    }
  }

  /** As long as nothing is taken out, the value in front stays in front. */
  lemma FrontStays<T(!new)>(run: seq<State<T>>, cap: nat, j: nat, m: nat)
    requires Run(run, cap) && j <= m < |run| && |run[j].threads| > 0
    requires run[m].shared.popped == run[j].shared.popped && run[j].shared.queue != []
    ensures run[m].shared.queue != [] && run[m].shared.queue[0] == run[j].shared.queue[0]
  {
    Grows(run, cap, j, m);
    RunKeeps(run, cap, j);
    RunKeeps(run, cap, m);
    var c, d := run[j].shared, run[m].shared;
    assert d.pushed[|c.popped|] == c.pushed[|c.popped|] == c.queue[0];
  }

  /** A read that begins with values in the channel gets the one in front, closed or not, as long
      as no other reader takes one out before it. */
  lemma {:induction false} ReadGetsFront<T(!new)>(run: seq<State<T>>, cap: nat, t: nat, k: nat, m: nat)
    requires Run(run, cap) && ReadBetween(run, t, k, m) && run[k].shared.queue != []
    requires run[m - 1].shared.popped == run[k].shared.popped
    ensures run[m].shared.popped == run[k].shared.popped + [run[k].shared.queue[0]]
    ensures run[m].shared.early == run[m - 1].shared.early
  {
    hide Next, Inv;
    FrontStays(run, cap, k, m - 1);
    Steps(run, cap, t, m - 1);
    OfThread(run[m - 1], run[m], cap, t);
  }

  /** A read that begins on a closed channel and finds it empty ends there, without a value and
      without touching size or queue; on one that holds values it goes on. */
  lemma ClosedRead<T(!new)>(run: seq<State<T>>, cap: nat, t: nat, j: nat)
    requires Run(run, cap) && j + 1 < |run| && t < |run[j].threads| == |run[j + 1].threads|
    requires run[j].threads[t] != run[j + 1].threads[t]
    ensures run[j].threads[t] == Idle && run[j].shared.closed ==>
              run[j + 1].threads[t] == CheckedClosed && run[j + 1].shared == run[j].shared
    ensures run[j].threads[t] == CheckedClosed ==>
              && run[j + 1].shared == run[j].shared
              && run[j + 1].threads[t] == if run[j].shared.queue == [] then Idle else Reading
  {
    hide Next;
    Steps(run, cap, t, j);
    OfThread(run[j], run[j + 1], cap, t);
  }

  /** Where a read that began on a closed channel goes on from what it saw. */
  lemma {:induction false} SawValue<T(!new)>(run: seq<State<T>>, cap: nat, t: nat, k: nat, m: nat) returns (j: nat)
    requires Run(run, cap) && k + 1 < m < |run| && (forall i | 0 <= i < |run| :: t < |run[i].threads|)
    requires run[k].threads[t] == Idle && run[k].shared.closed
    requires forall i | k < i < m :: run[i].threads[t] != Idle
    requires run[m].threads[t] != Idle && run[m].threads[t] != CheckedClosed
    ensures k < j < m && run[j].shared.queue != []
    decreases m
  {
    hide Next;
    Steps(run, cap, t, m - 1);
    OfThread(run[m - 1], run[m], cap, t);
    Grows(run, cap, k, m - 1);
    if run[m - 1].threads[t] == CheckedClosed {
      j := m - 1;
    } else {
      Steps(run, cap, t, k);
      OfThread(run[k], run[k + 1], cap, t);
      j := SawValue(run, cap, t, k, m - 1);
    }
  }

  /** A read that begins after close comes back empty-handed behind the lock only if it saw a value
      that another reader then took. */
  lemma EmptyHanded<T(!new)>(run: seq<State<T>>, cap: nat, t: nat, k: nat, m: nat) returns (j: nat)
    requires Run(run, cap) && ReadBetween(run, t, k, m) && run[k].shared.closed
    requires run[m].shared.early > run[m - 1].shared.early
    ensures k < j < m && run[j].shared.queue != []
    ensures |run[m].shared.popped| > |run[j].shared.popped|
  {
    hide Next, Inv;
    Steps(run, cap, t, m - 1);
    OfThread(run[m - 1], run[m], cap, t);
    Steps(run, cap, t, k);
    OfThread(run[k], run[k + 1], cap, t);
    j := SawValue(run, cap, t, k, m - 1);
    Overtaken(run, cap, j, m - 1);
    Grows(run, cap, m - 1, m);
  }

  lemma Overtaken<T(!new)>(run: seq<State<T>>, cap: nat, j: nat, m: nat)
    requires Run(run, cap) && j <= m < |run| && |run[j].threads| > 0
    requires run[j].shared.queue != [] && run[m].shared.queue == []
    ensures |run[m].shared.popped| > |run[j].shared.popped|
  {
    RunKeeps(run, cap, j);
    RunKeeps(run, cap, m);
    Grows(run, cap, j, m);
  }

  // ---------------------------------------------------------------- the channel object

  /** The channel, with the place at which each of its threads stands. Each method is what one
      thread does without interruption. */
  class Queue<T(!new)> {
    const cap: nat
    var queue: seq<T>
    var size: int
    var closed: bool
    var threads: seq<Thread<T>>
    ghost var pushed: seq<T>
    ghost var popped: seq<T>
    ghost var early: nat

    ghost function System(): State<T>
      reads this
    {
      State(Shared(queue, size, closed, pushed, popped, early), threads)
    }

    ghost predicate Valid()
      reads this
    {
      Inv(System(), cap)
    }

    constructor (capacity: nat, n: nat)
      ensures Valid() && Start(System()) && cap == capacity && |threads| == n
    {
      cap := capacity;
      queue, size, closed, pushed, popped, early := [], 0, false, [], [], 0;
      threads := seq(n, _ => Idle);
      new;
      StartInv(System(), cap);
    }

    /** operator<< in front of the lock: it throws on a closed channel. */
    method CheckWrite(t: nat, v: T) returns (ok: bool)
      requires Valid() && t < |threads| && threads[t] == Idle
      modifies `threads
      ensures Valid() && Step(old(System()), t, StartWrite(v), System(), cap)
      ensures ok == !closed && (ok ==> threads[t] == Writing(v))
    {
      ok := !closed;
      if ok {
        threads := threads[t := Writing(v)];
      }
      StepKeeps(old(System()), t, StartWrite(v), System(), cap);
    }

    /** The locked part of operator<<, once its wait is over. */
    method Write(t: nat, v: T)
      requires Valid() && t < |threads| && threads[t] == Writing(v) && size < cap
      modifies this
      ensures Valid() && Step(old(System()), t, DoWrite, System(), cap)
      ensures pushed == old(pushed) + [v] && popped == old(popped)
    {
      queue := queue + [v];
      size := size + 1;
      pushed := pushed + [v];
      threads := threads[t := Idle];
      StepKeeps(old(System()), t, DoWrite, System(), cap);
    }

    /** operator>> in front of the lock: first whether the channel is closed. */
    method CheckRead(t: nat)
      requires Valid() && t < |threads| && threads[t] == Idle
      modifies `threads
      ensures Valid() && Step(old(System()), t, StartRead, System(), cap)
    {
      threads := threads[t := if closed then CheckedClosed else Reading];
      StepKeeps(old(System()), t, StartRead, System(), cap);
    }

    /** Then whether it is empty, which ends the read. */
    method CheckEmpty(t: nat)
      requires Valid() && t < |threads| && threads[t] == CheckedClosed
      modifies `threads
      ensures Valid() && Step(old(System()), t, SeeEmpty, System(), cap)
    {
      threads := threads[t := if |queue| == 0 then Idle else Reading];
      StepKeeps(old(System()), t, SeeEmpty, System(), cap);
    }

    /** The locked part of operator>>: up to its wait, and past it when it need not wait. */
    method BeginRead(t: nat) returns (value: seq<T>)
      requires Valid() && t < |threads| && threads[t] == Reading
      modifies this
      ensures Valid() && Step(old(System()), t, DoRead, System(), cap)
      ensures popped == old(popped) + value && pushed == old(pushed)
      ensures threads[t] == WaitingToRead <==> old(queue) == [] && !old(closed)
    {
      size := size - 1;
      value := [];
      if |queue| == 0 && !closed {
        threads := threads[t := WaitingToRead];
        NothingBehind(popped);
      } else {
        value := TakeFront();
        threads := threads[t := Idle];
      }
      StepKeeps(old(System()), t, DoRead, System(), cap);
    }

    /** The rest of operator>>, once its wait is over. */
    method EndRead(t: nat) returns (value: seq<T>)
      requires Valid() && t < |threads| && threads[t] == WaitingToRead && (queue != [] || closed)
      modifies this
      ensures Valid() && Step(old(System()), t, WakeRead, System(), cap)
      ensures popped == old(popped) + value && pushed == old(pushed)
      ensures value == [] <==> old(queue) == []
    {
      value := TakeFront();
      threads := threads[t := Idle];
      StepKeeps(old(System()), t, WakeRead, System(), cap);
    }

    method TakeFront() returns (value: seq<T>)
      modifies `queue, `popped, `early
      ensures Shared(queue, size, closed, pushed, popped, early)
           == Leave(old(Shared(queue, size, closed, pushed, popped, early)))
      ensures popped == old(popped) + value && (value == [] <==> old(queue) == [])
    {
      value := queue[..if |queue| == 0 then 0 else 1];
      NothingBehind(popped);
      if |queue| != 0 {
        popped := popped + [queue[0]];
        queue := queue[1..];
      } else {
        early := early + 1;
      }
    }

    method CloseAll(t: nat)
      requires Valid() && t < |threads| && threads[t] == Idle
      modifies `closed, `threads
      ensures Valid() && Step(old(System()), t, DoClose, System(), cap) && closed
    {
      closed := true;
      threads := threads[t := Idle];
      StepKeeps(old(System()), t, DoClose, System(), cap);
    }

    /** The thread stands where the action begins, and does not have to wait. */
    predicate Enabled(t: nat, a: Action<T>)
      reads this
    {
      t < |threads| &&
      match a
      case StartWrite(_) => threads[t].Idle?
      case DoWrite => threads[t].Writing? && size < cap
      case StartRead => threads[t].Idle?
      case SeeEmpty => threads[t].CheckedClosed?
      case DoRead => threads[t].Reading?
      case WakeRead => threads[t].WaitingToRead? && (|queue| != 0 || closed)
      case DoClose => threads[t].Idle?
    }

    /** Otherwise there is no step of this thread and action. */
    lemma EnabledCan(t: nat, a: Action<T>)
      ensures CanStep(System(), t, a, cap) ==> Enabled(t, a)
    {}

    /** One action, with what it writes and what it reads. */
    method Act(t: nat, a: Action<T>) returns (written: seq<T>, read: seq<T>)
      requires Valid() && Enabled(t, a)
      modifies this
      ensures Valid() && Step(old(System()), t, a, System(), cap)
      ensures pushed == old(pushed) + written && popped == old(popped) + read
    {
      hide Inv, Step;
      NothingBehind(pushed);
      NothingBehind(popped);
      written, read := [], [];
      match a
      case StartWrite(v) => var _ := CheckWrite(t, v);
      case DoWrite =>
        written := [threads[t].value];
        Write(t, threads[t].value);
      case StartRead => CheckRead(t);
      case SeeEmpty => CheckEmpty(t);
      case DoRead => read := BeginRead(t);
      case WakeRead => read := EndRead(t);
      case DoClose => CloseAll(t);
    }
  }

  /** The whole of operator>> by one thread while no other moves: it has the value in front, closed
      or not; on an empty channel it leaves a closed one as it is, and waits on an open one. */
  method ReadAlone<T(!new)>(q: Queue<T>, t: nat) returns (value: seq<T>)
    requires q.Valid() && t < |q.threads| && q.threads[t] == Idle
    modifies q
    ensures q.Valid() && |q.threads| == |old(q.threads)| && q.closed == old(q.closed) && q.pushed == old(q.pushed)
    ensures old(q.queue) != [] ==>
              && value == [old(q.queue)[0]] && q.queue == old(q.queue)[1..] && q.size == old(q.size) - 1
              && q.early == old(q.early) && q.threads[t] == Idle
    ensures old(q.queue) == [] && q.closed ==>
              && value == [] && q.queue == [] && q.size == old(q.size) && q.early == old(q.early)
              && q.threads[t] == Idle
    ensures old(q.queue) == [] && !q.closed ==>
              && value == [] && q.queue == [] && q.size == old(q.size) - 1 && q.early == old(q.early)
              && q.threads[t] == WaitingToRead
  {
    hide Inv;
    value := [];
    q.CheckRead(t);
    if q.threads[t] == CheckedClosed {
      q.CheckEmpty(t);
    }
    if q.threads[t] == Reading {
      value := q.BeginRead(t);
      assert value == q.popped[|old(q.popped)|..];
    }
  }

  /** After close, reads one after the other deliver everything that is still in the channel, and
      a further one ends at once. */
  method ReadOut<T(!new)>(q: Queue<T>, t: nat) returns (values: seq<T>)
    requires q.Valid() && t < |q.threads| && q.threads[t] == Idle && q.closed
    modifies q
    ensures q.Valid() && q.closed && values == old(q.queue) && q.queue == [] && q.early == old(q.early)
    ensures q.size == old(q.size) - |values|
  {
    hide Inv, Queue.Valid;
    values := [];
    while true
      invariant q.Valid() && t < |q.threads| && q.threads[t] == Idle && q.closed && q.early == old(q.early)
      invariant old(q.queue) == values + q.queue && q.size == old(q.size) - |values|
      decreases |q.queue|
    {
      var value := ReadAlone(q, t);
      if value == [] {
        break;
      }
      values := values + value;
    }
  }

  /** A value written before close is read after it. */
  method CloseThenRead<T(!new)>(v: T) returns (values: seq<T>)
    ensures values == [v]
  {
    hide Inv, Queue.Valid;
    var q := new Queue<T>(1, 1);
    var ok := q.CheckWrite(0, v);
    q.Write(0, v);
    q.CloseAll(0);
    values := ReadOut(q, 0);
  }

  lemma RunMore<T(!new)>(run: seq<State<T>>, cap: nat, t: nat, a: Action<T>, s: State<T>)
    requires Run(run, cap) && Step(run[|run| - 1], t, a, s, cap)
    ensures Run(run + [s], cap)
  {
    hide Step;
    var more := run + [s];
    forall k | 0 <= k < |more| - 1 ensures Next(more[k], more[k + 1], cap) {
      if k < |run| - 1 {
        assert Next(run[k], run[k + 1], cap);
      } else {
        assert Step(more[k], t, a, more[k + 1], cap);
      }
    }
  }

  /** The run of a schedule: whoever is named goes on by one action if it can. */
  ghost function Scheduled<T(!new)>(start: State<T>, schedule: seq<(nat, Action<T>)>, cap: nat): (run: seq<State<T>>)
    ensures run != [] && run[0] == start
  {
    if schedule == [] then [start]
    else
      var run, next := Scheduled(start, schedule[..|schedule| - 1], cap), schedule[|schedule| - 1];
      if CanStep(run[|run| - 1], next.0, next.1, cap) then
        var s :| Step(run[|run| - 1], next.0, next.1, s, cap);
        run + [s]
      else run
  }

  ghost predicate CanStep<T(!new)>(s: State<T>, t: nat, a: Action<T>, cap: nat) {
    exists s': State<T> :: Step(s, t, a, s', cap)
  }

  lemma OneStep<T(!new)>(s: State<T>, t: nat, a: Action<T>, x: State<T>, y: State<T>, cap: nat)
    requires Step(s, t, a, x, cap) && Step(s, t, a, y, cap)
    ensures x == y
  {}

  lemma ScheduledStep<T(!new)>(start: State<T>, schedule: seq<(nat, Action<T>)>, k: nat, cap: nat, s': State<T>)
    requires k < |schedule|
    ensures var run, next := Scheduled(start, schedule[..k], cap), schedule[k];
            var s := run[|run| - 1];
            && (Step(s, next.0, next.1, s', cap) ==> Scheduled(start, schedule[..k + 1], cap) == run + [s'])
            && (!CanStep(s, next.0, next.1, cap) ==> Scheduled(start, schedule[..k + 1], cap) == run)
  {
    hide Step;
    assert schedule[..k + 1][..k] == schedule[..k];
    var run, next := Scheduled(start, schedule[..k], cap), schedule[k];
    var s := run[|run| - 1];
    if Step(s, next.0, next.1, s', cap) {
      var x :| Step(s, next.0, next.1, x, cap) && Scheduled(start, schedule[..k + 1], cap) == run + [x];
      OneStep(s, next.0, next.1, x, s', cap);
    }
  }

  lemma NothingScheduled<T(!new)>(start: State<T>, schedule: seq<(nat, Action<T>)>, cap: nat)
    ensures Scheduled(start, schedule[..0], cap) == [start]
  {}

  /** Any number of threads on one channel, under any schedule: whoever is named goes on by one
      action if it can. What is read is what was written, in the same order, as far as it has
      been read. */
  method Drive<T(!new)>(cap: nat, n: nat, schedule: seq<(nat, Action<T>)>)
    returns (written: seq<T>, read: seq<T>, ghost run: seq<State<T>>)
    ensures Run(run, cap) && |run[0].threads| == n && run == Scheduled(run[0], schedule, cap)
    ensures read <= written
    ensures var c := run[|run| - 1].shared;
            && written == c.pushed && read == c.popped && written == read + c.queue
            && |written| - |read| <= cap + Waiting(run[|run| - 1].threads) + c.early
  {
    hide Inv, Step, Waiting, Scheduled, CanStep, Queue.Enabled;
    var q := new Queue<T>(cap, n);
    written, read, run := [], [], [q.System()];
    NothingScheduled(run[0], schedule, cap);
    for k := 0 to |schedule|
      invariant q.Valid() && fresh(q) && q.cap == cap && Run(run, cap) && run[|run| - 1] == q.System()
      invariant written == q.pushed && read == q.popped && |run[0].threads| == n
      invariant run == Scheduled(run[0], schedule[..k], cap)
    {
      var t, a := schedule[k].0, schedule[k].1;
      q.EnabledCan(t, a);
      ScheduledStep(run[0], schedule, k, cap, q.System());
      if q.Enabled(t, a) {
        var w, r := q.Act(t, a);
        ScheduledStep(run[0], schedule, k, cap, q.System());
        RunMore(run, cap, t, a, q.System());
        written, read, run := written + w, read + r, run + [q.System()];
      }
    }
    assert schedule[..|schedule|] == schedule;
    Fifo(run, cap, |run| - 1);
  }
}
