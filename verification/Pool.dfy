/** The thread pool of pool.hpp: workers that sleep on a condition variable, a task queue,
    and a destructor that stops and joins the workers. */
module Pool {
  import opened Seqs

  datatype Worker<T> = Asleep | Ready | Running(task: T) | Exited

  /** `notifies` counts the enqueues whose notify_one is still to come; `stopping` says the
      same of the destructor's notify_all. The histories are ghosts of the model. */
  datatype State<T> = State(tasks: seq<T>, stop: bool, workers: seq<Worker<T>>, notifies: nat, stopping: bool,
                            accepted: seq<T>, started: seq<T>, completed: seq<T>)

  /** Where a worker goes from the lock, and the queue it leaves. */
  function Taken<T>(tasks: seq<T>, stop: bool): (Worker<T>, seq<T>) {
    if tasks != [] then (Running(tasks[0]), tasks[1..])
    else if stop then (Exited, [])
    else (Asleep, [])
  }

  // ---------------------------------------------------------------- steps

  datatype Action<T> =
    | Enqueue(task: T) | Notify(w: nat) | Wake(w: nat) | Check(w: nat) | Finish(w: nat)
    | Stop | NotifyAll

  predicate Sleeps<T>(workers: seq<Worker<T>>) {
    exists w | 0 <= w < |workers| :: workers[w].Asleep?
  }

  ghost predicate Step<T(!new)>(s: State<T>, a: Action<T>, s': State<T>) {
    match a
    case Enqueue(task) =>
      s' == if s.stop then s
            else s.(tasks := s.tasks + [task], accepted := s.accepted + [task], notifies := s.notifies + 1)
    case Notify(w) =>
      // wakes one sleeping worker, if there is one
      && s.notifies > 0
      && (if Sleeps(s.workers)
          then w < |s.workers| && s.workers[w] == Asleep
               && s' == s.(notifies := s.notifies - 1, workers := s.workers[w := Ready])
          else s' == s.(notifies := s.notifies - 1))
    case Wake(w) =>
      w < |s.workers| && s.workers[w] == Asleep && s' == s.(workers := s.workers[w := Ready])
    case Check(w) =>
      && w < |s.workers| && s.workers[w] == Ready
      && var (next, tasks) := Taken(s.tasks, s.stop);
         s' == s.(workers := s.workers[w := next], tasks := tasks,
                  started := if next.Running? then s.started + [next.task] else s.started)
    case Finish(w) =>
      && w < |s.workers| && s.workers[w].Running?
      && s' == s.(workers := s.workers[w := Ready], completed := s.completed + [s.workers[w].task])
    case Stop =>
      !s.stop && s' == s.(stop := true, stopping := true)
    case NotifyAll =>
      s.stopping && s' == s.(stopping := false, workers := AllReady(s.workers))
  }

  ghost predicate Start<T(!new)>(s: State<T>) {
    && s.tasks == s.accepted == s.started == s.completed == [] && !s.stop && !s.stopping && s.notifies == 0
    && forall w | 0 <= w < |s.workers| :: s.workers[w] == Ready
  }

  function AllReady<T>(workers: seq<Worker<T>>): (r: seq<Worker<T>>)
    ensures |r| == |workers|
    ensures forall w | 0 <= w < |r| :: r[w] == if workers[w].Asleep? then Ready else workers[w]
  {
    if workers == [] then []
    else
      var n := |workers| - 1;
      AllReady(workers[..n]) + [if workers[n].Asleep? then Ready else workers[n]]
  }

  // ---------------------------------------------------------------- what every run keeps

  function Readies<T>(workers: seq<Worker<T>>): nat {
    if workers == [] then 0
    else Readies(workers[..|workers| - 1]) + if workers[|workers| - 1].Ready? then 1 else 0
  }

  ghost function Hand<T>(w: Worker<T>): multiset<T> {
    if w.Running? then multiset{w.task} else multiset{}
  }

  /** The tasks in the hands of workers. */
  ghost function InHand<T>(workers: seq<Worker<T>>): multiset<T> {
    if workers == [] then multiset{} else InHand(workers[..|workers| - 1]) + Hand(workers[|workers| - 1])
  }

  lemma {:induction false} ReadiesUpdate<T>(workers: seq<Worker<T>>, w: nat, next: Worker<T>)
    requires w < |workers|
    ensures Readies(workers[w := next])
         == Readies(workers) - (if workers[w].Ready? then 1 else 0) + (if next.Ready? then 1 else 0)
  {
    var n := |workers| - 1;
    if w == n {
      assert workers[w := next][..n] == workers[..n];
    } else {
      ReadiesUpdate(workers[..n], w, next);
      assert workers[w := next][..n] == workers[..n][w := next];
    }
  }

  lemma {:induction false} HandUpdate<T>(workers: seq<Worker<T>>, w: nat, next: Worker<T>)
    requires w < |workers|
    ensures InHand(workers[w := next]) + Hand(workers[w]) == InHand(workers) + Hand(next)
  {
    hide Hand;
    var n := |workers| - 1;
    if w == n {
      assert workers[w := next][..n] == workers[..n];
    } else {
      HandUpdate(workers[..n], w, next);
      assert workers[w := next][..n] == workers[..n][w := next];
      Swap(InHand(workers[..n][w := next]), Hand(workers[n]), Hand(workers[w]));
      Swap(InHand(workers[..n]), Hand(workers[n]), Hand(next));
    }
  }

  lemma Swap<T>(a: multiset<T>, b: multiset<T>, c: multiset<T>)
    ensures a + b + c == a + c + b
  {}

  lemma WorkersUpdate<T>(workers: seq<Worker<T>>, w: nat, next: Worker<T>)
    requires w < |workers|
    ensures var r := workers[w := next];
            && Readies(r) == Readies(workers) - (if workers[w].Ready? then 1 else 0) + (if next.Ready? then 1 else 0)
            && (next.Running? && !workers[w].Running? ==> InHand(r) == InHand(workers) + multiset{next.task})
            && (workers[w].Running? && !next.Running? ==> InHand(r) + multiset{workers[w].task} == InHand(workers))
            && (!workers[w].Running? && !next.Running? ==> InHand(r) == InHand(workers))
  {
    hide Readies, InHand;
    ReadiesUpdate(workers, w, next);
    HandUpdate(workers, w, next);
    EmptyHand(InHand(workers[w := next]));
    EmptyHand(InHand(workers));
  }

  lemma EmptyHand<T>(a: multiset<T>)
    ensures a + multiset{} == a
  {}

  lemma {:induction false} AllReadyHand<T>(workers: seq<Worker<T>>)
    ensures InHand(AllReady(workers)) == InHand(workers)
  {
    if workers != [] {
      var n := |workers| - 1;
      AllReadyHand(workers[..n]);
      assert AllReady(workers)[..n] == AllReady(workers[..n]);
    }
  }

  ghost predicate Inv<T(!new)>(s: State<T>) {
    && s.started + s.tasks == s.accepted
    && multiset(s.started) == multiset(s.completed) + InHand(s.workers)
    && (!s.stop && Sleeps(s.workers) ==> |s.tasks| <= Readies(s.workers) + s.notifies)
    && (s.stop && !s.stopping ==> !Sleeps(s.workers))
    && (s.stopping ==> s.stop)
    && (forall w | 0 <= w < |s.workers| && s.workers[w].Exited? :: s.stop && s.tasks == [])
  }

  lemma {:induction false} StartHand<T>(workers: seq<Worker<T>>)
    requires forall w | 0 <= w < |workers| :: workers[w] == Ready
    ensures InHand(workers) == multiset{}
  {
    if workers != [] {
      StartHand(workers[..|workers| - 1]);
    }
  }

  lemma StartInv<T(!new)>(s: State<T>)
    requires Start(s)
    ensures Inv(s)
  {
    StartHand(s.workers);
  }

  lemma StepKeeps<T(!new)>(s: State<T>, a: Action<T>, s': State<T>)
    requires Inv(s) && Step(s, a, s')
    ensures Inv(s')
  {
    hide Readies, InHand;
    match a
    case Enqueue(task) =>
      Assoc(s.started, s.tasks, [task]);
    case Notify(w) =>
      if Sleeps(s.workers) {
        WorkersUpdate(s.workers, w, Ready);
      }
    case Wake(w) =>
      WorkersUpdate(s.workers, w, Ready);
    case Check(w) =>
      CheckKeeps(s, w, s');
    case Finish(w) =>
      WorkersUpdate(s.workers, w, Ready);
      Moved(s.completed, s.workers[w].task, InHand(s'.workers), InHand(s.workers));
    case Stop =>
    case NotifyAll =>
      AllReadyHand(s.workers);
  }

  lemma CheckKeeps<T(!new)>(s: State<T>, w: nat, s': State<T>)
    requires Inv(s) && Step(s, Check(w), s')
    ensures Inv(s')
  {
    hide Readies, InHand;
    var (next, tasks) := Taken(s.tasks, s.stop);
    WorkersUpdate(s.workers, w, next);
    hide Step, Taken;
    assert s'.workers == s.workers[w := next] && s'.tasks == tasks;
    if s.tasks != [] {
      assert s.tasks == [s.tasks[0]] + s.tasks[1..];
      Assoc(s.started, [s.tasks[0]], s.tasks[1..]);
      TakenUp(s.started, s.tasks[0], multiset(s.completed), InHand(s.workers), InHand(s'.workers));
    }
  }

  /** A task that is started goes into a hand. */
  lemma TakenUp<T>(started: seq<T>, task: T, done: multiset<T>, before: multiset<T>, after: multiset<T>)
    requires multiset(started) == done + before && after == before + multiset{task}
    ensures multiset(started + [task]) == done + after
  {}

  /** A task that goes from a hand to the end of a list. */
  lemma Moved<T>(list: seq<T>, task: T, less: multiset<T>, more: multiset<T>)
    ensures multiset(list + [task]) == multiset(list) + multiset{task}
    ensures less + multiset{task} == more ==> multiset(list + [task]) + less == multiset(list) + more
  {}

  ghost predicate Next<T(!new)>(s: State<T>, s': State<T>) {
    exists a: Action<T> :: Step(s, a, s')
  }

  ghost predicate Run<T(!new)>(run: seq<State<T>>) {
    run != [] && Start(run[0]) && forall k | 0 <= k < |run| - 1 :: Next(run[k], run[k + 1])
  }

  lemma {:induction false} RunKeeps<T(!new)>(run: seq<State<T>>, k: nat)
    requires Run(run) && k < |run|
    ensures Inv(run[k])
  {
    hide Inv, Step;
    if k == 0 {
      StartInv(run[0]);
    } else {
      RunKeeps(run, k - 1);
      assert Next(run[k - 1], run[k - 1 + 1]);
      var a :| Step(run[k - 1], a, run[k]);
      StepKeeps(run[k - 1], a, run[k]);
    }
  }

  /** A worker at the lock: while tasks are queued it takes the front one, stopped or not; on an empty
      queue it returns after stop and sleeps before. */
  lemma CheckTakes<T(!new)>(s: State<T>, w: nat, s': State<T>)
    requires Step(s, Check(w), s')
    ensures w < |s.workers| == |s'.workers|
    ensures forall v | 0 <= v < |s.workers| && v != w :: s'.workers[v] == s.workers[v]
    ensures s.tasks != [] ==> s'.workers[w] == Running(s.tasks[0]) && s'.tasks == s.tasks[1..]
                              && s'.started == s.started + [s.tasks[0]]
    ensures s.tasks == [] ==> s'.workers[w] == (if s.stop then Exited else Asleep) && s'.started == s.started
  {}

  /** What callers do: a task is accepted exactly before stop, and then one notify is owed for it; one
      notify wakes one sleeper if there is any, and the destructor's wakes all. */
  lemma CallsDo<T(!new)>(s: State<T>, a: Action<T>, s': State<T>)
    requires Step(s, a, s') && (a.Enqueue? || a.Notify? || a.Stop? || a.NotifyAll?)
    ensures a.Enqueue? && s.stop ==> s' == s
    ensures a.Enqueue? && !s.stop ==> s'.tasks == s.tasks + [a.task] && s'.notifies == s.notifies + 1
                                      && s'.workers == s.workers
    ensures a.Notify? && (exists v :: 0 <= v < |s.workers| && s.workers[v].Asleep?) ==>
              a.w < |s.workers| && s.workers[a.w].Asleep? && s'.workers == s.workers[a.w := Ready]
    ensures a.Stop? ==> s'.stop && s'.workers == s.workers && s'.tasks == s.tasks
    ensures a.NotifyAll? ==> forall v | 0 <= v < |s'.workers| :: !s'.workers[v].Asleep?
  {}

  /** In every state of every run, tasks have been started in the order they were accepted,
      and each started task is completed or in the hands of one worker, once. */
  lemma StartedInOrder<T(!new)>(run: seq<State<T>>, k: nat)
    requires Run(run) && k < |run|
    ensures var s := run[k];
            && s.started <= s.accepted && s.started + s.tasks == s.accepted
            && multiset(s.started) == multiset(s.completed) + InHand(s.workers)
  {
    RunKeeps(run, k);
  }

  /** No wake-up is lost: with work in the queue, some worker is awake or a notify is to come. */
  lemma NoLostWakeup<T(!new)>(run: seq<State<T>>, k: nat)
    requires Run(run) && k < |run| && run[k].tasks != [] && run[k].workers != []
    requires forall w | 0 <= w < |run[k].workers| :: run[k].workers[w].Asleep?
    ensures run[k].notifies > 0 || run[k].stopping
  {
    RunKeeps(run, k);
    var s := run[k];
    NoneReady(s.workers);
    assert s.workers[0].Asleep?;
  }

  lemma {:induction false} NoneReady<T>(workers: seq<Worker<T>>)
    requires forall w | 0 <= w < |workers| :: !workers[w].Ready?
    ensures Readies(workers) == 0
  {
    if workers != [] {
      NoneReady(workers[..|workers| - 1]);
    }
  }

  lemma {:induction false} NoneRunning<T>(workers: seq<Worker<T>>)
    requires forall w | 0 <= w < |workers| :: !workers[w].Running?
    ensures InHand(workers) == multiset{}
  {
    if workers != [] {
      NoneRunning(workers[..|workers| - 1]);
    }
  }

  /** When the joins have returned, every accepted task has been completed exactly once, if
      there was a worker at all; without workers, exactly if none was accepted. */
  lemma AllCompleteAtJoin<T(!new)>(run: seq<State<T>>, k: nat)
    requires Run(run) && k < |run| && forall w | 0 <= w < |run[k].workers| :: run[k].workers[w].Exited?
    ensures multiset(run[k].completed) == multiset(run[k].accepted) <==> run[k].workers != [] || run[k].accepted == []
  {
    RunKeeps(run, k);
    var s := run[k];
    NoneRunning(s.workers);
    if s.workers != [] {
      assert s.workers[0].Exited?;
      NothingBehind(s.started);
    } else {
      RunWithoutWorkers(run, k);
      if s.accepted != [] {
        assert s.accepted[0] in multiset(s.accepted);
      }
    }
  }

  /** A pool without workers never starts a task. */
  lemma {:induction false} RunWithoutWorkers<T(!new)>(run: seq<State<T>>, k: nat)
    requires Run(run) && k < |run| && run[k].workers == []
    ensures run[k].started == [] && run[k].completed == []
  {
    hide Inv, Readies, InHand;
    if k > 0 {
      assert Next(run[k - 1], run[k - 1 + 1]);
      var a :| Step(run[k - 1], a, run[k]);
      RunWithoutWorkers(run, k - 1);
    }
  }

  // ---------------------------------------------------------------- the destructor's joins return

  function Weight<T>(w: Worker<T>): nat {
    match w
    case Running(_) => 2
    case Ready => 1
    case Asleep => 1
    case Exited => 0
  }

  function Weights<T>(workers: seq<Worker<T>>): nat {
    if workers == [] then 0 else Weights(workers[..|workers| - 1]) + Weight(workers[|workers| - 1])
  }

  /** The worker steps that a stopped pool has left at most. */
  function Left<T>(s: State<T>): nat {
    3 * |s.tasks| + Weights(s.workers)
  }

  lemma {:induction false} WeightsUpdate<T>(workers: seq<Worker<T>>, w: nat, next: Worker<T>)
    requires w < |workers|
    ensures Weights(workers[w := next]) == Weights(workers) - Weight(workers[w]) + Weight(next)
  {
    var n := |workers| - 1;
    if w == n {
      assert workers[w := next][..n] == workers[..n];
    } else {
      WeightsUpdate(workers[..n], w, next);
      assert workers[w := next][..n] == workers[..n][w := next];
    }
  }

  /** After notify_all every step of a worker takes it nearer to its end. */
  lemma EveryStepCounts<T(!new)>(s: State<T>, a: Action<T>, s': State<T>)
    requires Inv(s) && Step(s, a, s') && s.stop && !s.stopping
    ensures s'.stop && !s'.stopping
    ensures if a.Check? || a.Finish? then Left(s') < Left(s) else Left(s') == Left(s)
  {
    hide Readies, InHand, Weights;
    if a.Check? || a.Finish? {
      WeightsUpdate(s.workers, a.w, s'.workers[a.w]);
    }
  }

  /** And as long as a worker has not exited, it can make a step. */
  lemma SomeoneCanStep<T(!new)>(s: State<T>, w: nat) returns (a: Action<T>, s': State<T>)
    requires Inv(s) && s.stop && !s.stopping && w < |s.workers| && !s.workers[w].Exited?
    ensures (a == Check(w) || a == Finish(w)) && Step(s, a, s')
  {
    hide Readies, InHand;
    assert !s.workers[w].Asleep?;
    if s.workers[w].Ready? {
      var t := Taken(s.tasks, s.stop);
      a := Check(w);
      s' := s.(workers := s.workers[w := t.0], tasks := t.1,
               started := if t.0.Running? then s.started + [t.0.task] else s.started);
    } else {
      a := Finish(w);
      s' := s.(workers := s.workers[w := Ready], completed := s.completed + [s.workers[w].task]);
    }
  }

  /** Any number of steps, of workers and of others. */
  ghost predicate Trace<T(!new)>(states: seq<State<T>>, acts: seq<Action<T>>) {
    && |states| == |acts| + 1
    && forall k | 0 <= k < |acts| :: Step(states[k], acts[k], states[k + 1])
  }

  predicate OfWorker<T>(a: Action<T>) {
    a.Check? || a.Finish?
  }

  function WorkerSteps<T>(acts: seq<Action<T>>): nat {
    if acts == [] then 0 else WorkerSteps(acts[..|acts| - 1]) + if OfWorker(acts[|acts| - 1]) then 1 else 0
  }

  lemma {:induction false} TraceCounts<T(!new)>(states: seq<State<T>>, acts: seq<Action<T>>)
    requires Trace(states, acts) && Inv(states[0]) && states[0].stop && !states[0].stopping
    ensures var last := states[|acts|];
            Inv(last) && last.stop && !last.stopping && WorkerSteps(acts) + Left(last) <= Left(states[0])
  {
    hide Inv, Step, Left;
    if acts != [] {
      var n := |acts| - 1;
      TraceCounts(states[..n + 1], acts[..n]);
      assert Step(states[n], acts[n], states[n + 1]);
      StepKeeps(states[n], acts[n], states[n + 1]);
      EveryStepCounts(states[n], acts[n], states[n + 1]);
    }
  }

  /** No worker has a step to make. */
  ghost predicate Stuck<T(!new)>(s: State<T>) {
    forall a: Action<T>, s': State<T> | Step(s, a, s') :: !OfWorker(a)
  }

  /** After notify_all the workers cannot go on if and only if all of them have returned. */
  lemma StuckIffExited<T(!new)>(s: State<T>)
    requires Inv(s) && s.stop && !s.stopping
    ensures Stuck(s) <==> forall w | 0 <= w < |s.workers| :: s.workers[w].Exited?
  {
    hide Inv;
    if exists w | 0 <= w < |s.workers| :: !s.workers[w].Exited? {
      var w :| 0 <= w < |s.workers| && !s.workers[w].Exited?;
      var a, s' := SomeoneCanStep(s, w);
      assert Step(s, a, s') && OfWorker(a);
    }
  }

  /** The destructor's joins return: from notify_all on, the workers make no more steps than
      there are left, whatever else happens, and when they can make none, all have returned and
      every task accepted has been completed, once, if there was a worker at all. */
  lemma JoinsReturn<T(!new)>(run: seq<State<T>>, k: nat, states: seq<State<T>>, acts: seq<Action<T>>)
    requires Run(run) && k < |run| && run[k].stop && !run[k].stopping
    requires Trace(states, acts) && states[0] == run[k]
    ensures WorkerSteps(acts) <= Left(run[k])
    ensures var last := states[|acts|];
            && (Stuck(last) <==> forall w | 0 <= w < |last.workers| :: last.workers[w].Exited?)
            && (Stuck(last) && last.workers != [] ==> multiset(last.completed) == multiset(last.accepted))
  {
    hide Step, Stuck, Left, Readies, InHand;
    RunKeeps(run, k);
    TraceCounts(states, acts);
    var last := states[|acts|];
    StuckIffExited(last);
    if Stuck(last) && last.workers != [] {
      NoneRunning(last.workers);
      assert last.workers[0].Exited?;
      NothingBehind(last.started);
    }
  }

  // ---------------------------------------------------------------- the pool object

  /** The pool. `workers` says where each worker stands, `notifies` how many callers of enqueue
      have left the lock and not yet notified, `stopping` the same of the destructor. */
  class TaskQueue<T(!new)> {
    var tasks: seq<T>
    var stop: bool
    var workers: seq<Worker<T>>
    var notifies: nat
    var stopping: bool
    ghost var accepted: seq<T>
    ghost var started: seq<T>
    ghost var completed: seq<T>

    ghost function System(): State<T>
      reads this
    {
      State(tasks, stop, workers, notifies, stopping, accepted, started, completed)
    }

    ghost predicate Valid()
      reads this
    {
      Inv(System())
    }

    constructor (n: nat)
      ensures Valid() && Start(System()) && |workers| == n
    {
      tasks, stop, workers, notifies, stopping := [], false, seq(n, _ => Ready), 0, false;
      accepted, started, completed := [], [], [];
      new;
      StartInv(System());
    }

    /** The locked part of enqueue; a stopped pool throws. */
    method Enqueue(task: T) returns (ok: bool)
      requires Valid()
      modifies this
      ensures Valid() && Step(old(System()), Action.Enqueue(task), System()) && ok == !old(stop)
      ensures accepted == old(accepted) + (if ok then [task] else []) && started == old(started)
    {
      ok := !stop;
      NothingBehind(accepted);
      if ok {
        tasks := tasks + [task];
        accepted := accepted + [task];
        notifies := notifies + 1;
      }
      StepKeeps(old(System()), Action.Enqueue(task), System());
    }

    /** notify_one, behind the lock: it wakes worker w, or nobody when none sleeps. */
    method NotifyOne(w: nat)
      requires Valid() && notifies > 0 && (Sleeps(workers) ==> w < |workers| && workers[w] == Asleep)
      modifies this
      ensures Valid() && Step(old(System()), Notify(w), System())
      ensures accepted == old(accepted) && started == old(started)
    {
      notifies := notifies - 1;
      if w < |workers| && workers[w].Asleep? {
        workers := workers[w := Ready];
      }
      StepKeeps(old(System()), Notify(w), System());
    }

    /** A sleeping worker looks again without having been notified. */
    method WakeUp(w: nat)
      requires Valid() && w < |workers| && workers[w] == Asleep
      modifies this
      ensures Valid() && Step(old(System()), Wake(w), System())
      ensures accepted == old(accepted) && started == old(started)
    {
      workers := workers[w := Ready];
      StepKeeps(old(System()), Wake(w), System());
    }

    /** A worker with the lock: waits again, returns from its loop, or takes the front task. */
    method Take(w: nat) returns (taken: seq<T>)
      requires Valid() && w < |workers| && workers[w] == Ready
      modifies this
      ensures Valid() && Step(old(System()), Check(w), System())
      ensures taken == (if old(tasks) == [] then [] else [old(tasks)[0]])
      ensures started == old(started) + taken && accepted == old(accepted)
    {
      taken := [];
      NothingBehind(started);
      if !stop && |tasks| == 0 {
        workers := workers[w := Asleep];
      } else if stop && |tasks| == 0 {
        workers := workers[w := Exited];
      } else {
        taken := [tasks[0]];
        workers := workers[w := Running(tasks[0])];
        started := started + [tasks[0]];
        tasks := tasks[1..];
      }
      StepKeeps(old(System()), Check(w), System());
    }

    /** The task in a worker's hands has been called. */
    method Done(w: nat)
      requires Valid() && w < |workers| && workers[w].Running?
      modifies this
      ensures Valid() && Step(old(System()), Finish(w), System())
      ensures accepted == old(accepted) && started == old(started)
    {
      completed := completed + [workers[w].task];
      workers := workers[w := Ready];
      StepKeeps(old(System()), Finish(w), System());
    }

    /** The locked part of the destructor. */
    method Stop()
      requires Valid() && !stop
      modifies this
      ensures Valid() && Step(old(System()), Action.Stop, System()) && stop
      ensures accepted == old(accepted) && started == old(started)
    {
      stop, stopping := true, true;
      StepKeeps(old(System()), Action.Stop, System());
    }

    /** The destructor's notify_all. */
    method WakeAll()
      requires Valid() && stopping
      modifies this
      ensures Valid() && Step(old(System()), NotifyAll, System())
      ensures accepted == old(accepted) && started == old(started)
    {
      stopping := false;
      workers := AllReady(workers);
      StepKeeps(old(System()), NotifyAll, System());
    }

    predicate Enabled(a: Action<T>)
      reads this
    {
      match a
      case Enqueue(_) => true
      case Notify(w) => notifies > 0 && (Sleeps(workers) ==> w < |workers| && workers[w].Asleep?)
      case Wake(w) => w < |workers| && workers[w].Asleep?
      case Check(w) => w < |workers| && workers[w].Ready?
      case Finish(w) => w < |workers| && workers[w].Running?
      case Stop => !stop
      case NotifyAll => stopping
    }

    /** Otherwise there is no such step. */
    lemma EnabledCan(a: Action<T>)
      ensures CanStep(System(), a) ==> Enabled(a)
    {}

    /** One action, with the task it adds to the queue and the one it takes off. */
    method Act(a: Action<T>) returns (added: seq<T>, taken: seq<T>)
      requires Valid() && Enabled(a)
      modifies this
      ensures Valid() && Step(old(System()), a, System())
      ensures accepted == old(accepted) + added && started == old(started) + taken
    {
      hide Inv, Step, Sleeps;
      NothingBehind(accepted);
      NothingBehind(started);
      added, taken := [], [];
      match a
      case Enqueue(task) =>
        var ok := Enqueue(task);
        added := if ok then [task] else [];
      case Notify(w) => NotifyOne(w);
      case Wake(w) => WakeUp(w);
      case Check(w) => taken := Take(w);
      case Finish(w) => Done(w);
      case Stop => Stop();
      case NotifyAll => WakeAll();
    }
  }

  lemma RunMore<T(!new)>(run: seq<State<T>>, a: Action<T>, s: State<T>)
    requires Run(run) && Step(run[|run| - 1], a, s)
    ensures Run(run + [s])
  {
    hide Step;
    var more := run + [s];
    forall k | 0 <= k < |more| - 1 ensures Next(more[k], more[k + 1]) {
      if k < |run| - 1 {
        assert Next(run[k], run[k + 1]);
      } else {
        assert Step(more[k], a, more[k + 1]);
      }
    }
  }

  /** The run of a schedule: an action happens if it can. */
  ghost function Scheduled<T(!new)>(start: State<T>, schedule: seq<Action<T>>): (run: seq<State<T>>)
    ensures run != [] && run[0] == start
  {
    if schedule == [] then [start]
    else
      var run, next := Scheduled(start, schedule[..|schedule| - 1]), schedule[|schedule| - 1];
      if CanStep(run[|run| - 1], next) then
        var s :| Step(run[|run| - 1], next, s);
        run + [s]
      else run
  }

  ghost predicate CanStep<T(!new)>(s: State<T>, a: Action<T>) {
    exists s': State<T> :: Step(s, a, s')
  }

  lemma OneStep<T(!new)>(s: State<T>, a: Action<T>, x: State<T>, y: State<T>)
    requires Step(s, a, x) && Step(s, a, y)
    ensures x == y
  {}

  lemma ScheduledStep<T(!new)>(start: State<T>, schedule: seq<Action<T>>, k: nat, s': State<T>)
    requires k < |schedule|
    ensures var run := Scheduled(start, schedule[..k]);
            var s := run[|run| - 1];
            && (Step(s, schedule[k], s') ==> Scheduled(start, schedule[..k + 1]) == run + [s'])
            && (!CanStep(s, schedule[k]) ==> Scheduled(start, schedule[..k + 1]) == run)
  {
    hide Step;
    assert schedule[..k + 1][..k] == schedule[..k];
    var run := Scheduled(start, schedule[..k]);
    var s := run[|run| - 1];
    if Step(s, schedule[k], s') {
      var x :| Step(s, schedule[k], x) && Scheduled(start, schedule[..k + 1]) == run + [x];
      OneStep(s, schedule[k], x, s');
    }
  }

  lemma NothingScheduled<T(!new)>(start: State<T>, schedule: seq<Action<T>>)
    ensures Scheduled(start, schedule[..0]) == [start]
  {}

  /** A pool of n workers under any schedule: an action happens if it can. Tasks are taken in
      the order in which they were accepted, none twice and none left out. */
  method Drive<T(!new)>(n: nat, schedule: seq<Action<T>>)
    returns (accepted: seq<T>, started: seq<T>, ghost run: seq<State<T>>)
    ensures Run(run) && |run[0].workers| == n && run == Scheduled(run[0], schedule)
    ensures started <= accepted
    ensures accepted == run[|run| - 1].accepted && started == run[|run| - 1].started
  {
    hide Inv, Step, Scheduled, CanStep, TaskQueue.Enabled;
    var pool := new TaskQueue<T>(n);
    accepted, started, run := [], [], [pool.System()];
    NothingScheduled(run[0], schedule);
    for k := 0 to |schedule|
      invariant pool.Valid() && fresh(pool) && Run(run) && run[|run| - 1] == pool.System() && |run[0].workers| == n
      invariant accepted == pool.accepted && started == pool.started
      invariant run == Scheduled(run[0], schedule[..k])
    {
      pool.EnabledCan(schedule[k]);
      ScheduledStep(run[0], schedule, k, pool.System());
      if pool.Enabled(schedule[k]) {
        var added, taken := pool.Act(schedule[k]);
        ScheduledStep(run[0], schedule, k, pool.System());
        RunMore(run, schedule[k], pool.System());
        accepted, started, run := accepted + added, started + taken, run + [pool.System()];
      }
    }
    assert schedule[..|schedule|] == schedule;
    StartedInOrder(run, |run| - 1);
  }
}
