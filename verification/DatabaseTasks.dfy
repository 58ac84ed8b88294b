/** The database task queue: any number of producers, one worker that sleeps on a condition variable, and a closing
    thread that flushes the queue. Every step is what one thread does while no other can interfere. */
module DatabaseTasks {
  type Id = nat

  datatype Task = Task(query: string, callback: bool, store: bool)

  datatype ThreadState = Running | Closing | Terminated

  datatype Owner = Free | ByProducer(id: Id) | ByWorker | ByCloser

  // addTask; the lock is held in Entered and Leaving
  datatype Producer = Away | Entered(task: Task) | Leaving(signal: bool) | Notifying

  // threadMain; the lock is held in Looking, Taking, Holding and EmptyHanded
  datatype Worker = Checking | Locking | Looking | Asleep | Woken | Taking
    | Holding | EmptyHanded | Executing | Gone

  // flush, on its own or as part of shutdown; the lock is held in Marking, Marked, Looping, Carrying and Emptied
  datatype Closer = Idle | Marking | Marked | Flushing(closing: bool) | Looping(closing: bool)
    | Carrying(closing: bool) | Performing(closing: bool) | Emptied(closing: bool) | Signalling

  datatype State = State(
    status: ThreadState,
    tasks: seq<Task>,
    lock: Owner,
    producers: map<Id, Producer>,
    worker: Worker,
    closer: Closer,
    accepted: seq<Task>,     // what addTask put in the queue, in order
    dequeued: seq<Task>,     // what worker and closer took out, in order
    workerTask: seq<Task>,   // what the worker has taken and not yet run: at most one task
    closerTask: seq<Task>,
    executed: seq<Task>,     // what runTask has finished, in order
    flushed: bool)           // the flush of a shutdown has returned

  datatype Order = Stop | Flush | Shutdown

  // whose turn it is; task is what a resting producer adds next, order what the resting closer does next
  datatype Event = ProducerMoves(id: Id, task: Task) | WorkerMoves | CloserMoves(order: Order)

  ghost predicate Init(s: State) {
    s.status == Running && s.tasks == [] && s.lock == Free
      && (forall id :: id in s.producers ==> s.producers[id] == Away)
    && s.worker == Checking && s.closer == Idle && s.accepted == [] && s.dequeued == [] && s.executed == []
    && s.workerTask == [] && s.closerTask == []
    && !s.flushed
  }

  predicate Enabled(s: State, e: Event) {
    match e
    case ProducerMoves(id, _) => id in s.producers && (s.producers[id] == Away ==> s.lock == Free)
    case WorkerMoves => s.worker != Gone && (s.worker == Locking || s.worker == Woken ==> s.lock == Free)
    case CloserMoves(order) =>
      (s.closer == Idle && order != Stop) || s.closer.Flushing? ==> s.lock == Free
  }

  // notify_one: it reaches the worker only while the worker sleeps
  function Notified(worker: Worker): Worker {
    if worker == Asleep then Woken else worker
  }

  function ProducerNext(s: State, id: Id, next: Task): State
    requires id in s.producers
  {
    match s.producers[id]
    case Away => s.(lock := ByProducer(id), producers := s.producers[id := Entered(next)])
    case Entered(task) =>
      if s.status == Running then
        s.(producers := s.producers[id := Leaving(s.tasks == [])], tasks := s.tasks + [task],
           accepted := s.accepted + [task])
      else s.(producers := s.producers[id := Leaving(false)])
    case Leaving(signal) => s.(lock := Free, producers := s.producers[id := if signal then Notifying else Away])
    case Notifying => s.(producers := s.producers[id := Away], worker := Notified(s.worker))
  }

  function WorkerNext(s: State): State
    requires s.worker != Gone
  {
    match s.worker
    case Checking => s.(worker := if s.status != Terminated then Locking else Gone)
    case Locking => s.(lock := ByWorker, worker := Looking)
    case Looking => if s.tasks == [] then s.(lock := Free, worker := Asleep) else s.(worker := Taking)
    case Asleep => s.(worker := Woken) // a condition variable may wake its thread for no reason
    case Woken => s.(lock := ByWorker, worker := Taking)
    case Taking =>
      if s.tasks == [] then s.(worker := EmptyHanded)
      else s.(worker := Holding, workerTask := [s.tasks[0]], tasks := s.tasks[1..],
              dequeued := s.dequeued + [s.tasks[0]])
    case Holding => s.(lock := Free, worker := Executing)
    case EmptyHanded => s.(lock := Free, worker := Checking)
    case Executing => s.(worker := Checking, workerTask := [], executed := s.executed + s.workerTask)
  }

  function CloserNext(s: State, order: Order): State {
    match s.closer
    case Idle =>
      if order == Stop then s.(status := Closing)
      else s.(lock := ByCloser, closer := if order == Flush then Looping(false) else Marking)
    case Marking => s.(status := Terminated, closer := Marked)
    case Marked => s.(lock := Free, closer := Flushing(true))
    case Flushing(closing) => s.(lock := ByCloser, closer := Looping(closing))
    case Looping(closing) =>
      if s.tasks == [] then s.(closer := Emptied(closing))
      else s.(closer := Carrying(closing), closerTask := [s.tasks[0]], tasks := s.tasks[1..],
              dequeued := s.dequeued + [s.tasks[0]])
    case Carrying(closing) => s.(lock := Free, closer := Performing(closing))
    case Performing(closing) =>
      s.(closer := Flushing(closing), closerTask := [], executed := s.executed + s.closerTask)
    case Emptied(closing) =>
      s.(lock := Free, closer := if closing then Signalling else Idle, flushed := s.flushed || closing)
    case Signalling => s.(closer := Idle, worker := Notified(s.worker))
  }

  function Next(s: State, e: Event): State
    requires Enabled(s, e)
  {
    match e
    case ProducerMoves(id, task) => ProducerNext(s, id, task)
    case WorkerMoves => WorkerNext(s)
    case CloserMoves(order) => CloserNext(s, order)
  }

  // ---------- what every step keeps ----------

  predicate WorkerInside(worker: Worker) {
    worker == Looking || worker == Taking || worker == Holding || worker == EmptyHanded
  }

  predicate CloserInside(closer: Closer) {
    closer == Marking || closer == Marked || closer.Looping? || closer.Carrying? || closer.Emptied?
  }

  predicate ProducerInside(producer: Producer) {
    producer.Entered? || producer.Leaving?
  }

  // the lock has the owner whose code is inside it, and no other
  ghost predicate Exclusive(s: State) {
    (s.lock == ByWorker <==> WorkerInside(s.worker))
    && (s.lock == ByCloser <==> CloserInside(s.closer))
    && (forall id :: id in s.producers && ProducerInside(s.producers[id]) ==> s.lock == ByProducer(id))
    && (s.lock.ByProducer? ==> s.lock.id in s.producers && ProducerInside(s.producers[s.lock.id]))
  }

  // nothing lost, nothing taken twice, oldest first
  ghost predicate InOrder(s: State) {
    s.accepted == s.dequeued + s.tasks
  }

  function Tally(tasks: seq<Task>, task: Task): nat {
    multiset(tasks)[task]
  }

  ghost predicate Balanced(dequeued: seq<Task>, executed: seq<Task>, hand: seq<Task>, other: seq<Task>) {
    forall task :: Tally(dequeued, task) == Tally(executed, task) + Tally(hand, task) + Tally(other, task)
  }

  // what was taken was run, or is in the hand of the one that took it
  ghost predicate Accounted(s: State) {
    Balanced(s.dequeued, s.executed, s.workerTask, s.closerTask)
    && |s.workerTask| == (if s.worker == Holding || s.worker == Executing then 1 else 0)
    && |s.closerTask| == (if s.closer.Carrying? || s.closer.Performing? then 1 else 0)
  }

  ghost predicate WakePending(s: State) {
    exists id :: id in s.producers && (s.producers[id] == Notifying || s.producers[id] == Leaving(true))
  }

  ghost predicate NoLostWakeup(s: State) {
    s.worker == Asleep && s.tasks != [] ==> WakePending(s)
  }

  predicate Shutting(closer: Closer) {
    closer == Marked || closer == Signalling
    || ((closer.Flushing? || closer.Looping? || closer.Carrying? || closer.Performing? || closer.Emptied?)
        && closer.closing)
  }

  ghost predicate StaysEmpty(s: State) {
    (Shutting(s.closer) || s.flushed ==> s.status != Running)
    && (s.closer == Emptied(true) || s.closer == Signalling || s.flushed ==> s.tasks == [])
    && (s.closer.Emptied? ==> s.tasks == [])
    && (s.closer == Signalling ==> s.flushed)
  }

  ghost predicate Safe(s: State) {
    Exclusive(s) && InOrder(s) && Accounted(s) && NoLostWakeup(s) && StaysEmpty(s)
  }

  lemma StepExclusive(s: State, e: Event)
    requires Exclusive(s) && Enabled(s, e)
    ensures Exclusive(Next(s, e))
  {
    match e {
      case ProducerMoves(id, task) => assert Exclusive(ProducerNext(s, id, task));
      case WorkerMoves => assert Exclusive(WorkerNext(s));
      case CloserMoves(order) => assert Exclusive(CloserNext(s, order));
    }
  }

  lemma StepInOrder(s: State, e: Event)
    requires InOrder(s) && Enabled(s, e)
    ensures InOrder(Next(s, e))
    ensures s.accepted <= Next(s, e).accepted && s.dequeued <= Next(s, e).dequeued
  {
    match e {
      case ProducerMoves(_, _) =>
      case WorkerMoves => WorkerInOrder(s);
      case CloserMoves(order) => CloserInOrder(s, order);
    }
  }

  lemma WorkerInOrder(s: State)
    requires InOrder(s) && s.worker != Gone
    ensures InOrder(WorkerNext(s)) && s.accepted == WorkerNext(s).accepted && s.dequeued <= WorkerNext(s).dequeued
  {
    if s.tasks != [] {
      assert s.tasks == [s.tasks[0]] + s.tasks[1..];
    }
  }

  lemma CloserInOrder(s: State, order: Order)
    requires InOrder(s)
    ensures var s' := CloserNext(s, order);
      InOrder(s') && s.accepted == s'.accepted && s.dequeued <= s'.dequeued
  {
    if s.tasks != [] {
      assert s.tasks == [s.tasks[0]] + s.tasks[1..];
    }
  }

  lemma TallyAdds(a: seq<Task>, b: seq<Task>, task: Task)
    ensures Tally(a + b, task) == Tally(a, task) + Tally(b, task)
  {
    assert multiset(a + b) == multiset(a) + multiset(b);
  }

  lemma Took(dequeued: seq<Task>, executed: seq<Task>, task: Task, other: seq<Task>)
    requires Balanced(dequeued, executed, [], other)
    ensures Balanced(dequeued + [task], executed, [task], other)
  {
    forall t ensures Tally(dequeued + [task], t) == Tally(executed, t) + Tally([task], t) + Tally(other, t) {
      TallyAdds(dequeued, [task], t);
      assert Tally([], t) == 0;
    }
  }

  lemma Ran(dequeued: seq<Task>, executed: seq<Task>, hand: seq<Task>, other: seq<Task>)
    requires Balanced(dequeued, executed, hand, other)
    ensures Balanced(dequeued, executed + hand, [], other)
  {
    forall t ensures Tally(dequeued, t) == Tally(executed + hand, t) + Tally([], t) + Tally(other, t) {
      TallyAdds(executed, hand, t);
    }
  }

  lemma WorkerAccounted(s: State)
    requires Accounted(s) && s.worker != Gone
    ensures Accounted(WorkerNext(s))
  {
    if s.worker == Taking && s.tasks != [] {
      Took(s.dequeued, s.executed, s.tasks[0], s.closerTask);
    } else if s.worker == Executing {
      Ran(s.dequeued, s.executed, s.workerTask, s.closerTask);
    }
  }

  lemma CloserAccounted(s: State, order: Order)
    requires Accounted(s)
    ensures Accounted(CloserNext(s, order))
  {
    assert Balanced(s.dequeued, s.executed, s.closerTask, s.workerTask);
    if s.closer.Looping? {
      if s.tasks != [] {
        Took(s.dequeued, s.executed, s.tasks[0], s.workerTask);
      }
    } else if s.closer.Performing? {
      Ran(s.dequeued, s.executed, s.closerTask, s.workerTask);
    } else {
      CloserElsewhere(s, order);
    }
  }

  lemma CloserElsewhere(s: State, order: Order)
    requires Accounted(s) && !s.closer.Looping? && !s.closer.Performing?
    ensures Accounted(CloserNext(s, order))
  {
  }

  lemma StepAccounted(s: State, e: Event)
    requires Accounted(s) && Enabled(s, e)
    ensures Accounted(Next(s, e))
  {
    match e {
      case ProducerMoves(_, _) =>
      case WorkerMoves =>
        hide CloserNext, WorkerNext, ProducerNext, Accounted;
        WorkerAccounted(s);
      case CloserMoves(order) =>
        hide CloserNext, WorkerNext, ProducerNext, Accounted;
        CloserAccounted(s, order);
    }
  }

  lemma StepNoLostWakeup(s: State, e: Event)
    requires NoLostWakeup(s) && Enabled(s, e)
    ensures NoLostWakeup(Next(s, e))
  {
    var s' := Next(s, e);
    if s'.worker == Asleep && s'.tasks != [] {
      if e.ProducerMoves? && s.tasks == [] {
        assert s'.producers[e.id] == Leaving(true);
      } else {
        var id :| id in s.producers && (s.producers[id] == Notifying || s.producers[id] == Leaving(true));
        assert s'.producers[id] == Notifying || s'.producers[id] == Leaving(true);
      }
    }
  }

  lemma StepStaysEmpty(s: State, e: Event)
    requires Exclusive(s) && StaysEmpty(s) && Enabled(s, e)
    ensures StaysEmpty(Next(s, e))
  {
  }

  lemma StepSafe(s: State, e: Event)
    requires Safe(s) && Enabled(s, e)
    ensures Safe(Next(s, e))
  {
    StepExclusive(s, e);
    StepInOrder(s, e);
    StepAccounted(s, e);
    StepNoLostWakeup(s, e);
    StepStaysEmpty(s, e);
  }

  // ---------- whole runs ----------

  ghost predicate Possible(s: State, run: seq<Event>)
    decreases |run|
  {
    run != [] ==> Enabled(s, run[0]) && Possible(Next(s, run[0]), run[1..])
  }

  ghost function After(s: State, run: seq<Event>): State
    requires Possible(s, run)
    decreases |run|
  {
    if run == [] then s else After(Next(s, run[0]), run[1..])
  }

  lemma InitSafe(s: State)
    requires Init(s)
    ensures Safe(s)
  {
  }

  lemma StepKeepsClosed(s: State, e: Event)
    requires StaysEmpty(s) && InOrder(s) && s.flushed && Enabled(s, e)
    ensures Next(s, e).flushed && Next(s, e).accepted == s.accepted && Next(s, e).dequeued == s.dequeued
  {
  }

  /** Whatever the interleaving: the histories only grow, and after a shutdown's flush they do not grow at all. */
  lemma {:induction false} RunSafe(s: State, run: seq<Event>)
    requires Safe(s) && Possible(s, run)
    ensures var t := After(s, run);
      Safe(t) && s.accepted <= t.accepted && s.dequeued <= t.dequeued
      && (s.flushed ==> t.flushed && t.tasks == [] && t.accepted == s.accepted && t.dequeued == s.dequeued)
    decreases |run|
  {
    if run != [] {
      var e := run[0];
      StepSafe(s, e);
      StepInOrder(s, e);
      if s.flushed {
        StepKeepsClosed(s, e);
      }
      RunSafe(Next(s, e), run[1..]);
    }
  }

  /** From the start, over every run: the k-th task taken out is the k-th accepted; a sleeping worker with work to do
      has a notification coming; and once a shutdown has flushed, every task ever accepted has been taken out and run,
      except those in the two consumers' hands. */
  lemma EveryTaskOnce(s: State, run: seq<Event>)
    requires Init(s) && Possible(s, run)
    ensures var t := After(s, run);
      (forall k :: 0 <= k < |t.dequeued| ==> k < |t.accepted| && t.dequeued[k] == t.accepted[k])
      && (t.worker == Asleep && t.tasks != [] ==> WakePending(t))
      && (t.flushed ==> forall task ::
            Tally(t.accepted, task) == Tally(t.executed, task) + Tally(t.workerTask, task) + Tally(t.closerTask, task))
  {
    InitSafe(s);
    RunSafe(s, run);
    var t := After(s, run);
    assert t.flushed ==> t.dequeued == t.dequeued + t.tasks;
  }

  // ---------- what is accepted ----------

  predicate Moves(run: seq<Event>, id: Id) {
    exists e :: e in run && e.ProducerMoves? && e.id == id
  }

  /** A task handed in while the queue runs is the next one accepted, whatever the others do meanwhile, unless somebody
      calls stop. */
  lemma {:induction false} TaskAccepted(s: State, run: seq<Event>, id: Id, task: Task)
    requires Exclusive(s) && s.status == Running && id in s.producers && s.producers[id] == Entered(task)
    requires Possible(s, run) && NoStop(run) && Moves(run, id)
    ensures var t := After(s, run);
      s.accepted + [task] <= t.accepted
    decreases |run|
  {
    assert run != [] && run[0] in run && forall e :: e in run[1..] ==> e in run;
    var e := run[0];
    StepExclusive(s, e);
    if e.ProducerMoves? && e.id == id {
      AcceptedGrows(Next(s, e), run[1..]);
    } else {
      OthersWait(s, e, id, task);
      assert Moves(run[1..], id) by {
        var m :| m in run && m.ProducerMoves? && m.id == id;
        assert m in run[1..];
      }
      TaskAccepted(Next(s, e), run[1..], id, task);
    }
  }

  lemma OthersWait(s: State, e: Event, id: Id, task: Task)
    requires Exclusive(s) && s.status == Running && id in s.producers && s.producers[id] == Entered(task)
    requires Enabled(s, e) && e != CloserMoves(Stop) && !(e.ProducerMoves? && e.id == id)
    ensures var t := Next(s, e);
      t.status == Running && id in t.producers && t.producers[id] == Entered(task) && t.accepted == s.accepted
  {
    assert s.lock == ByProducer(id);
  }

  lemma {:induction false} AcceptedGrows(s: State, run: seq<Event>)
    requires Possible(s, run)
    ensures s.accepted <= After(s, run).accepted
    decreases |run|
  {
    if run != [] {
      AcceptedGrows(Next(s, run[0]), run[1..]);
    }
  }

  /** Once it does not run any more, nothing is accepted. */
  lemma {:induction false} NothingAccepted(s: State, run: seq<Event>)
    requires s.status != Running && Possible(s, run)
    ensures After(s, run).accepted == s.accepted && After(s, run).status != Running
    decreases |run|
  {
    if run != [] {
      NothingAccepted(Next(s, run[0]), run[1..]);
    }
  }

  // ---------- the one wake-up that can be missed ----------

  // the worker has looked at the state, and will go to sleep on an empty queue
  predicate PastCheck(worker: Worker) {
    worker == Locking || worker == Looking || worker == Asleep
  }

  // no thread wakes the worker, and nobody calls stop
  predicate Quiet(s: State, e: Event) {
    match e
    case ProducerMoves(id, _) => id in s.producers && s.producers[id] != Notifying
    case WorkerMoves => s.worker != Asleep
    case CloserMoves(order) => s.closer != Signalling && order != Stop
  }

  ghost predicate QuietRun(s: State, run: seq<Event>)
    requires Possible(s, run)
    decreases |run|
  {
    run != [] ==> Quiet(s, run[0]) && QuietRun(Next(s, run[0]), run[1..])
  }

  /** The state is read outside the lock: once the shutdown has sent its one notification, a worker that had already
      passed the check never leaves its loop, and a worker that had not never sleeps again. */
  lemma {:induction false} MissedWakeup(s: State, run: seq<Event>)
    requires Safe(s) && s.flushed && s.status == Terminated
    requires Possible(s, run) && QuietRun(s, run)
    ensures PastCheck(After(s, run).worker) <==> PastCheck(s.worker)
    ensures PastCheck(s.worker) ==> After(s, run).worker != Gone
    decreases |run|
  {
    if run != [] {
      StepSafe(s, run[0]);
      QuietStep(s, run[0]);
      MissedWakeup(Next(s, run[0]), run[1..]);
    }
  }

  lemma QuietStep(s: State, e: Event)
    requires StaysEmpty(s) && InOrder(s) && s.flushed && s.status == Terminated && Enabled(s, e) && Quiet(s, e)
    ensures var t := Next(s, e);
      t.flushed && t.status == Terminated && (PastCheck(t.worker) <==> PastCheck(s.worker))
  {
  }

  // at most how many moves the worker makes before it is gone, once it is to see that the queue is shut down
  function MovesToGo(worker: Worker): nat {
    match worker
    case Woken => 5
    case Taking => 4
    case Holding => 3
    case Executing => 2
    case EmptyHanded => 2
    case Checking => 1
    case _ => 0
  }

  function WorkerTurns(run: seq<Event>): nat {
    if run == [] then 0 else (if run[0].WorkerMoves? then 1 else 0) + WorkerTurns(run[1..])
  }

  predicate NoStop(run: seq<Event>) {
    forall e :: e in run ==> e != CloserMoves(Stop)
  }

  /** The other half: a worker that is not past the check when the state is set is gone after at most five moves of its
      own, whatever the others do meanwhile, and until then it can move whenever the lock is free. */
  lemma {:induction false} WorkerLeaves(s: State, run: seq<Event>)
    requires s.status == Terminated && !PastCheck(s.worker) && Possible(s, run) && NoStop(run)
    ensures var t := After(s, run);
      && t.status == Terminated && !PastCheck(t.worker) && (MovesToGo(t.worker) == 0 <==> t.worker == Gone)
      && WorkerTurns(run) + MovesToGo(t.worker) <= MovesToGo(s.worker) <= 5
      && (t.worker != Gone && t.lock == Free ==> Enabled(t, WorkerMoves))
    decreases |run|
  {
    if run != [] {
      assert run[0] in run && forall e :: e in run[1..] ==> e in run;
      LeavingStep(s, run[0]);
      WorkerLeaves(Next(s, run[0]), run[1..]);
    }
  }

  lemma LeavingStep(s: State, e: Event)
    requires s.status == Terminated && !PastCheck(s.worker) && Enabled(s, e) && e != CloserMoves(Stop)
    ensures var t := Next(s, e);
      && t.status == Terminated && !PastCheck(t.worker)
      && (if e.WorkerMoves? then 1 else 0) + MovesToGo(t.worker) <= MovesToGo(s.worker)
  {
  }

  /** And such a run exists: the worker reads the state just before the shutdown sets it. */
  lemma WorkerLeftAsleep(s: State) returns (run: seq<Event>)
    requires Init(s)
    ensures Possible(s, run)
    ensures var t := After(s, run);
      t.flushed && t.status == Terminated && t.worker == Asleep && t.closer == Idle && !WakePending(t)
  {
    var w, c := WorkerMoves, CloserMoves(Shutdown);
    var s1 := s.(worker := Locking);
    var s2 := s1.(lock := ByCloser, closer := Marking);
    var s3 := s2.(status := Terminated, closer := Marked);
    var s4 := s3.(lock := Free, closer := Flushing(true));
    run := FlushAndSleep(s4);
    run := Prepend(s3, c, s4, run);
    run := Prepend(s2, c, s3, run);
    run := Prepend(s1, c, s2, run);
    run := Prepend(s, w, s1, run);
  }

  // the shutdown flushes an empty queue and sends its notification before the worker goes to sleep
  lemma FlushAndSleep(s4: State) returns (run: seq<Event>)
    requires s4.closer == Flushing(true) && s4.lock == Free && s4.tasks == [] && s4.worker == Locking
    ensures Possible(s4, run)
    ensures After(s4, run) == s4.(lock := Free, worker := Asleep, closer := Idle, flushed := true)
  {
    var c := CloserMoves(Shutdown);
    var s5 := s4.(lock := ByCloser, closer := Looping(true));
    var s6 := s5.(closer := Emptied(true));
    var s7 := s6.(lock := Free, closer := Signalling, flushed := true);
    run := FallAsleep(s7.(closer := Idle));
    run := Prepend(s7, c, s7.(closer := Idle), run);
    run := Prepend(s6, c, s7, run);
    run := Prepend(s5, c, s6, run);
    run := Prepend(s4, c, s5, run);
  }

  lemma FallAsleep(s8: State) returns (run: seq<Event>)
    requires s8.lock == Free && s8.tasks == [] && s8.worker == Locking
    ensures Possible(s8, run) && After(s8, run) == s8.(lock := Free, worker := Asleep)
  {
    var s9 := s8.(lock := ByWorker, worker := Looking);
    run := Prepend(s9, WorkerMoves, s9.(lock := Free, worker := Asleep), []);
    run := Prepend(s8, WorkerMoves, s9, run);
  }

  lemma Prepend(s: State, e: Event, t: State, rest: seq<Event>) returns (run: seq<Event>)
    requires Enabled(s, e) && t == Next(s, e) && Possible(t, rest)
    ensures Possible(s, run) && After(s, run) == After(t, rest)
  {
    run := [e] + rest;
    assert run[1..] == rest;
  }
}
