/**
 How runs of the pipeline end. The threads' own steps run out after a bounded number, whatever the
 scheduler does, and then the job is finished; the exception is a job of at most
 HIGH_THRESHOLD lines, for which the controller never starts a consumer.
 */
module PipelineTermination {
  import opened Sums
  import opened TsQueues
  import opened Pipeline
  import opened PipelineInvariant
  import opened PipelineSteps
  import opened PipelineHistory
  import opened PipelineProgress

  // ----- The work left -----

  /** Work left in a thread: the rest of its operation, and what its item still has to go through. */
  function Weight(t: Thread): nat {
    match t.pc
    case Done => 0
    case Enter => 3
    case Read => 3
    case Loop => 4
    case Write(_) => 5
    case Enqueue(q, phase, _) => PhaseWeight(phase) + QueueWeight(q) + 8
    case EnqueueSignal(_) => 8
    case Dequeue(_, phase) => PhaseWeight(phase)
    case DequeueSignal(q, _) => QueueWeight(q)
    case Transform(_) => 3 + if t.role.Producer? then 32 else 16
  }

  function PhaseWeight(phase: Phase): nat {
    match phase
    case Waiting => 0
    case Held => 1
    case _ => 2
  }

  /** Work left in an item that sits in a queue. */
  function QueueWeight(q: Queue): nat {
    match q
    case ReaderQueue => 40
    case WorkerQueue => 24
    case WriterQueue => 8
  }

  function WorkLeft(s: State): nat {
    50 * |s.unread| + 40 * |s.reader.items| + 24 * |s.worker.items| + 8 * |s.writer.items|
    + Sum(s.threads, Weight)
  }

  lemma WeightMoved(ts: seq<Thread>, i: nat, pc: Pc)
    requires i < |ts|
    ensures Sum(Moved(ts, i, pc), Weight) + Weight(ts[i]) == Sum(ts, Weight) + Weight(ts[i].(pc := pc))
  {
    SumUpdate(ts, i, ts[i].(pc := pc), Weight);
  }

  lemma EnqueueWorkLeft(s: State, i: nat, q: Queue, phase: Phase, x: Item)
    requires Enabled(s, i) && s.threads[i].pc == Enqueue(q, phase, x)
    ensures WorkLeft(EnqueueStep(s, i, q, phase, x)) < WorkLeft(s)
  {
    hide Sum;
    WeightMoved(s.threads, i, EnqueueStep(s, i, q, phase, x).threads[i].pc);
  }

  lemma DequeueWorkLeft(s: State, i: nat, q: Queue, phase: Phase)
    requires Enabled(s, i) && s.threads[i].pc == Dequeue(q, phase)
    ensures WorkLeft(DequeueStep(s, i, q, phase)) < WorkLeft(s)
  {
    WeightMoved(s.threads, i, DequeueStep(s, i, q, phase).threads[i].pc);
  }

  lemma WakeWorkLeft(s: State, j: nat, q: Queue, side: Side)
    ensures WorkLeft(Wake(s, j, q, side)) <= WorkLeft(s) + 2
    ensures |Wake(s, j, q, side).threads| == |s.threads|
    ensures forall i :: 0 <= i < |s.threads| && !IsWaiting(s, i, q, side) ==>
        Wake(s, j, q, side).threads[i] == s.threads[i]
  {
    if IsWaiting(s, j, q, side) {
      assert Wake(s, j, q, side).threads == Moved(s.threads, j, WokenPc(s.threads[j].pc));
      WeightMoved(s.threads, j, WokenPc(s.threads[j].pc));
    }
  }

  lemma SignalWorkLeft(s: State, i: nat, j: nat, q: Queue, side: Side, pc: Pc)
    requires i < |s.threads| && !IsWaiting(s, i, q, side)
    requires Weight(s.threads[i].(pc := pc)) + 2 < Weight(s.threads[i])
    ensures WorkLeft(Goto(Wake(s, j, q, side), i, pc)) < WorkLeft(s)
  {
    WakeWorkLeft(s, j, q, side);
    WeightMoved(Wake(s, j, q, side).threads, i, pc);
  }

  lemma ReadWorkLeft(job: Job, s: State, i: nat, j: nat)
    requires i < |s.threads| && s.threads[i].pc == Read
    ensures WorkLeft(WorkStep(job, s, i, j)) < WorkLeft(s)
  {
    WeightMoved(s.threads, i, WorkStep(job, s, i, j).threads[i].pc);
  }

  lemma OtherWorkLeft(job: Job, s: State, i: nat, j: nat)
    requires i < |s.threads|
    requires var pc := s.threads[i].pc; pc.Loop? || pc.Enter? || pc.Transform? || pc.Write?
    ensures WorkLeft(WorkStep(job, s, i, j)) < WorkLeft(s)
  {
    hide EnqueueStep, DequeueStep, Wake, Transformed, Sum;
    WeightMoved(s.threads, i, WorkStep(job, s, i, j).threads[i].pc);
  }

  /** Every step of a reader, producer, consumer or writer uses up some of the work left. */
  lemma WorkShrinks(job: Job, s: State, i: nat, j: nat)
    requires Inv(job, s) && Can(job, s, Work(i, j))
    ensures WorkLeft(WorkStep(job, s, i, j)) < WorkLeft(s)
  {
    var t := s.threads[i];
    assert PcOfRole(t.role, t.pc);
    match t.pc
    case Enqueue(q, phase, x) => EnqueueWorkLeft(s, i, q, phase, x);
    case Dequeue(q, phase) => DequeueWorkLeft(s, i, q, phase);
    case EnqueueSignal(q) => SignalWorkLeft(s, i, j, q, Empty, AfterEnqueue(t.role));
    case DequeueSignal(q, x) => SignalWorkLeft(s, i, j, q, Full, AfterDequeue(t.role, x));
    case Done =>
    case Read => ReadWorkLeft(job, s, i, j);
    case _ => OtherWorkLeft(job, s, i, j);
  }

  // ----- Runs of any kind -----

  lemma SpuriousWorkLeft(job: Job, s: State, i: nat)
    requires Can(job, s, Spurious(i))
    ensures WorkLeft(Do(job, s, Spurious(i))) <= WorkLeft(s) + 2 && |Do(job, s, Spurious(i)).threads| == |s.threads|
  {
    WeightMoved(s.threads, i, WokenPc(s.threads[i].pc));
  }

  lemma CancelledWorkLeft(job: Job, s: State, i: nat)
    requires Can(job, s, Cancelled(i))
    ensures WorkLeft(Do(job, s, Cancelled(i))) <= WorkLeft(s) && |Do(job, s, Cancelled(i)).threads| == |s.threads|
  {
    WeightMoved(s.threads, i, Done);
  }

  lemma ScaleUpWorkLeft(s: State, size: nat)
    ensures WorkLeft(ScaleUp(s, size)) == WorkLeft(s) + 4 * (|ScaleUp(s, size).threads| - |s.threads|)
    ensures |s.threads| <= |ScaleUp(s, size).threads| <= |s.threads| + 1
  {
    SumAppend(s.threads, Thread(Consumer(false), Loop), Weight);
  }

  lemma ScaleDownWorkLeft(s: State, size: nat)
    requires Cast(s.threads) && Vector(s.threads, s.consumers, s.controller)
    ensures WorkLeft(ScaleDown(s, size)) == WorkLeft(s) && |ScaleDown(s, size).threads| == |s.threads|
  {
    if ScaleDown(s, size).controller.Joining? {
      var k := s.consumers[|s.consumers| - 1];
      SumUpdate(s.threads, k, s.threads[k].(role := Consumer(true)), Weight);
    }
  }

  /** The controller adds no work but that of the consumer it starts. */
  lemma ControlWorkLeft(job: Job, s: State)
    requires Inv(job, s) && Can(job, s, Control)
    ensures WorkLeft(ControlStep(s)) == WorkLeft(s) + 4 * (|ControlStep(s).threads| - |s.threads|)
    ensures |s.threads| <= |ControlStep(s).threads| <= |s.threads| + 1
  {
    if s.controller.Scale? {
      hide Mutexes, Wakeups, ExactlyOnce, WorkLeft, ScaleUp, ScaleDown, Vector, Cast;
      var size := s.controller.size;
      ScaleUpWorkLeft(s, size);
      ScaleUpInv(job, s, size);
      ScaleDownWorkLeft(ScaleUp(s, size), size);
    }
  }

  function WorkSteps(run: seq<Action>): nat {
    if run == [] then 0 else (if run[0].Work? then 1 else 0) + WorkSteps(run[1..])
  }

  function SpuriousWakeups(run: seq<Action>): nat {
    if run == [] then 0 else (if run[0].Spurious? then 1 else 0) + SpuriousWakeups(run[1..])
  }

  /** One action's part in the account of the work left. */
  lemma ActionWorkLeft(job: Job, s: State, a: Action)
    requires Inv(job, s) && Can(job, s, a)
    ensures var s' := Do(job, s, a);
            && |s.threads| <= |s'.threads|
            && WorkLeft(s') + (if a.Work? then 1 else 0)
               <= WorkLeft(s) + (if a.Spurious? then 2 else 0) + 4 * (|s'.threads| - |s.threads|)
  {
    hide Inv, WorkLeft, WorkStep, ControlStep;
    match a
    case Work(i, j) =>
      WorkShrinks(job, s, i, j);
      WorkKeepsController(job, s, i, j);
    case Spurious(i) => SpuriousWorkLeft(job, s, i);
    case Cancelled(i) => CancelledWorkLeft(job, s, i);
    case Control => ControlWorkLeft(job, s);
  }

  /**
   Whatever the scheduler, the signals, spurious wakeups and the controller do: the threads make no more steps
   than the work left at the start, and two more for each spurious wakeup and four for each consumer started.
   */
  lemma {:induction false} RunBounded(job: Job, s: State, run: seq<Action>)
    requires Inv(job, s) && Legal(job, s, run)
    ensures var s' := After(job, s, run);
            && |s.threads| <= |s'.threads|
            && WorkSteps(run) + WorkLeft(s')
               <= WorkLeft(s) + 2 * SpuriousWakeups(run) + 4 * (|s'.threads| - |s.threads|)
    decreases |run|
  {
    hide Inv, WorkLeft, Do, Can;
    if run != [] {
      StepInv(job, s, run[0]);
      ActionWorkLeft(job, s, run[0]);
      RunBounded(job, Do(job, s, run[0]), run[1..]);
    }
  }

  // ----- Runs of the threads alone -----

  predicate ThreadsOnly(run: seq<Action>) {
    forall k :: 0 <= k < |run| ==> run[k].Work?
  }

  lemma ChooseWaiter(s: State, i: nat) returns (j: nat)
    requires Enabled(s, i)
    ensures s.threads[i].pc.EnqueueSignal? ==> WakesOne(s, j, s.threads[i].pc.q, Empty)
    ensures s.threads[i].pc.DequeueSignal? ==> WakesOne(s, j, s.threads[i].pc.q, Full)
  {
    var pc := s.threads[i].pc;
    if pc.EnqueueSignal? && exists k :: IsWaiting(s, k, pc.q, Empty) {
      j :| IsWaiting(s, j, pc.q, Empty);
    } else if pc.DequeueSignal? && exists k :: IsWaiting(s, k, pc.q, Full) {
      j :| IsWaiting(s, j, pc.q, Full);
    } else {
      j := 0;
    }
  }

  /** The threads never touch the controller or its vector. */
  lemma WorkKeepsController(job: Job, s: State, i: nat, j: nat)
    requires Can(job, s, Work(i, j))
    ensures var s' := WorkStep(job, s, i, j);
            s'.controller == s.controller && s'.consumers == s.consumers && |s'.threads| == |s.threads|
  {
    hide WorkStep;
    WorkLeavesOthers(job, s, i, j);
  }

  /** From any state the threads can run until none of them can move. */
  lemma {:induction false} RunToQuiet(job: Job, s: State) returns (run: seq<Action>)
    requires Inv(job, s) && s.controller != HasMutex
    ensures Legal(job, s, run) && ThreadsOnly(run)
    ensures var s' := After(job, s, run);
            Inv(job, s') && Quiet(s') && s'.controller == s.controller && s'.consumers == s.consumers
            && |s'.threads| == |s.threads|
    decreases WorkLeft(s)
  {
    hide Inv, WorkLeft, WorkStep, Enabled;
    if i :| 0 <= i < |s.threads| && Enabled(s, i) {
      var j := ChooseWaiter(s, i);
      var a := Work(i, j);
      WorkShrinks(job, s, i, j);
      StepInv(job, s, a);
      WorkKeepsController(job, s, i, j);
      var rest := RunToQuiet(job, Do(job, s, a));
      run := [a] + rest;
      assert run[0] == a && run[1..] == rest;
    } else {
      run := [];
    }
  }

  lemma {:induction false} Concat(job: Job, s: State, a: seq<Action>, b: seq<Action>)
    requires Legal(job, s, a) && Legal(job, After(job, s, a), b)
    ensures Legal(job, s, a + b) && After(job, s, a + b) == After(job, After(job, s, a), b)
    decreases |a|
  {
    hide Can, Do;
    if a == [] {
      assert a + b == b;
    } else {
      assert (a + b)[0] == a[0] && (a + b)[1..] == a[1..] + b;
      Concat(job, Do(job, s, a[0]), a[1..], b);
    }
  }

  ghost predicate Finished(job: Job, s: State) {
    |s.threads| > 1 && s.threads[1] == Thread(Writer, Done) && multiset(s.output) == multiset(Expected(job))
  }

  /**
   Termination with consumers about: in any run at all the threads make a bounded number of steps, and where they
   and the controller's look at the size are through, the writer is done and every line has been written exactly once.
   */
  lemma ThreadsFinish(job: Job, s: State, run: seq<Action>)
    requires Reachable(job, s) && s.consumers != [] && Legal(job, s, run)
    ensures var s' := After(job, s, run);
            && |s.threads| <= |s'.threads|
            && WorkSteps(run) <= WorkLeft(s) + 2 * SpuriousWakeups(run) + 4 * (|s'.threads| - |s.threads|)
            && (s'.controller != HasMutex && (forall i :: !Enabled(s', i)) ==> Finished(job, s'))
  {
    hide Inv, WorkLeft, Reachable, Legal, After, Enabled;
    ReachableInv(job, s);
    RunBounded(job, s, run);
    RunInv(job, s, run);
    var s' := After(job, s, run);
    ConsumersStay(job, s, s');
    if s'.controller != HasMutex && forall i :: !Enabled(s', i) {
      QuietMeansFinished(job, s', s'.consumers[0]);
    }
  }

  lemma ConsumersStay(job: Job, s: State, s': State)
    requires Inv(job, s) && Inv(job, s') && s.consumers != [] && |s.threads| <= |s'.threads|
    ensures s'.consumers != []
    ensures var k := s'.consumers[0];
            k < |s'.threads| && s'.threads[k].role == Consumer(false) && s'.threads[k].pc != Done
    ensures |s'.threads| > 6 && s'.threads[1].role == Writer
  {
    assert 6 <= s.consumers[0] < |s.threads|;
    var k := s'.consumers[0];
    assert PcOfRole(s'.threads[k].role, s'.threads[k].pc) && RoleAt(1, s'.threads[1].role);
  }

  // ----- Before the first consumer -----

  /** No consumer yet, so nothing has got past the worker queue; the controller has seen no more than the input. */
  ghost predicate NoConsumer(job: Job, s: State) {
    && |s.threads| == 6
    && s.output == [] && s.writer.items == []
    && !s.threads[1].pc.DequeueSignal? && !s.threads[1].pc.Write?
    && (s.controller.Scale? ==> s.controller.size <= |job.input|)
  }

  lemma NoConsumerWork(job: Job, s: State, i: nat, j: nat)
    requires Cast(s.threads) && Can(job, s, Work(i, j)) && NoConsumer(job, s)
    ensures NoConsumer(job, WorkStep(job, s, i, j))
  {
    var t := s.threads[i];
    assert RoleAt(i, t.role) && PcOfRole(t.role, t.pc);
    WorkKeepsController(job, s, i, j);
  }

  lemma NoConsumerStep(job: Job, s: State, a: Action)
    requires Inv(job, s) && Can(job, s, a) && NoConsumer(job, s) && |Do(job, s, a).threads| == 6
    ensures NoConsumer(job, Do(job, s, a))
  {
    match a
    case Work(i, j) => NoConsumerWork(job, s, i, j);
    case Control => PartOfExpected(job, s, WorkerQueue, s.worker.items);
    case _ =>
  }

  lemma ThreadsGrow(job: Job, s: State, a: Action)
    requires Can(job, s, a)
    ensures |s.threads| <= |Do(job, s, a).threads| <= |s.threads| + 1
  {
    hide WorkStep, Enabled;
    if a.Work? {
      WorkKeepsController(job, s, a.i, a.wakes);
    }
  }

  lemma {:induction false} RunThreadsGrow(job: Job, s: State, run: seq<Action>)
    requires Legal(job, s, run)
    ensures |s.threads| <= |After(job, s, run).threads|
    decreases |run|
  {
    if run != [] {
      ThreadsGrow(job, s, run[0]);
      RunThreadsGrow(job, Do(job, s, run[0]), run[1..]);
    }
  }

  lemma {:induction false} RunNoConsumer(job: Job, s: State, run: seq<Action>)
    requires Inv(job, s) && NoConsumer(job, s) && Legal(job, s, run) && |After(job, s, run).threads| == 6
    ensures NoConsumer(job, After(job, s, run))
    decreases |run|
  {
    if run != [] {
      ThreadsGrow(job, s, run[0]);
      RunThreadsGrow(job, Do(job, s, run[0]), run[1..]);
      StepInv(job, s, run[0]);
      NoConsumerStep(job, s, run[0]);
      RunNoConsumer(job, Do(job, s, run[0]), run[1..]);
    }
  }

  lemma ReachableNoConsumer(job: Job, s: State)
    requires Reachable(job, s) && |s.threads| == 6
    ensures NoConsumer(job, s)
  {
    var run :| Legal(job, Init(job), run) && s == After(job, Init(job), run);
    InitInv(job);
    RunNoConsumer(job, Init(job), run);
  }

  lemma {:induction false} ShortRun(job: Job, s: State, run: seq<Action>)
    requires |job.input| <= HIGH_THRESHOLD
    requires Inv(job, s) && NoConsumer(job, s) && Legal(job, s, run)
    ensures NoConsumer(job, After(job, s, run))
    decreases |run|
  {
    if run != [] {
      StepInv(job, s, run[0]);
      NoSpawn(job, s, run[0]);
      NoConsumerStep(job, s, run[0]);
      ShortRun(job, Do(job, s, run[0]), run[1..]);
    }
  }

  lemma NoSpawn(job: Job, s: State, a: Action)
    requires |job.input| <= HIGH_THRESHOLD
    requires NoConsumer(job, s) && Can(job, s, a)
    ensures |Do(job, s, a).threads| == 6
  {
    if a.Work? {
      WorkKeepsController(job, s, a.i, a.wakes);
    }
  }

  /** A job of at most HIGH_THRESHOLD lines never gets a consumer, and nothing is ever written. */
  lemma ShortJobsGetNoConsumer(job: Job, s: State)
    requires Reachable(job, s) && |job.input| <= HIGH_THRESHOLD
    ensures |s.threads| == 6 && s.consumers == [] && s.output == []
  {
    var run :| Legal(job, Init(job), run) && s == After(job, Init(job), run);
    InitInv(job);
    ShortRun(job, Init(job), run);
    ReachableInv(job, s);
    NotJoining(s);
  }

  /** Without a consumer the items pile up in the worker queue: all of them, or as many as it holds. */
  lemma QuietWithoutConsumer(job: Job, s: State)
    requires Inv(job, s) && Quiet(s) && NoConsumer(job, s)
    ensures |s.worker.items| == WORKER_QUEUE_SIZE || |s.worker.items| == |job.input|
  {
    assert WakeupOk(s, WorkerQueue, Full);
    if |s.worker.items| < WORKER_QUEUE_SIZE {
      QuietUpstream(job, s);
      forall y: Item ensures Copies(job, WorkerQueue, s.worker.items, y) == Copies(job, ReaderQueue, job.input, y) {
        assert Everywhere(job, s, y) == Copies(job, ReaderQueue, job.input, y);
        HandsNone(job, s.threads, y);
      }
      SameCopies(job, WorkerQueue, s.worker.items);
    }
  }

  // ----- When the pipeline hangs -----

  /** Lines are missing, no thread can move, and the controller sees no reason to start the first consumer. */
  ghost predicate Stuck(job: Job, s: State) {
    && Quiet(s) && s.controller == Sleeping
    && |s.output| < |job.input|
    && s.consumers == [] && |s.worker.items| <= HIGH_THRESHOLD
  }

  /** The pipeline can hang if and only if the job has lines, but at most 160 of them. */
  lemma HangsExactlyOnShortJobs(job: Job)
    ensures (exists s :: Reachable(job, s) && Stuck(job, s)) <==> 0 < |job.input| <= 160
  {
    if s :| Reachable(job, s) && Stuck(job, s) {
      ReachableInv(job, s);
      ReachableNoConsumer(job, s);
      QuietWithoutConsumer(job, s);
    }
    if 0 < |job.input| <= HIGH_THRESHOLD {
      InitInv(job);
      var run := RunToQuiet(job, Init(job));
      var s := After(job, Init(job), run);
      assert Reachable(job, s);
      ShortJobsGetNoConsumer(job, s);
      PartOfExpected(job, s, WorkerQueue, s.worker.items);
    }
  }

  // ----- When the pipeline finishes -----

  ghost predicate CanFinish(job: Job, s: State) {
    exists run :: Legal(job, s, run) && Finished(job, After(job, s, run))
  }

  lemma FinishLater(job: Job, s: State, run: seq<Action>)
    requires Legal(job, s, run) && CanFinish(job, After(job, s, run))
    ensures CanFinish(job, s)
  {
    var rest :| Legal(job, After(job, s, run), rest) && Finished(job, After(job, After(job, s, run), rest));
    Concat(job, s, run, rest);
  }

  lemma FinishWithConsumer(job: Job, s: State)
    requires Inv(job, s) && s.consumers != [] && s.controller != HasMutex
    ensures CanFinish(job, s)
  {
    var run := RunToQuiet(job, s);
    var s' := After(job, s, run);
    assert s'.consumers == s.consumers;
    QuietMeansFinished(job, s', s'.consumers[0]);
    assert s'.threads[1].role == Writer;
  }

  lemma QuietEmptyJob(job: Job, s: State)
    requires Inv(job, s) && Quiet(s) && job.input == []
    ensures Finished(job, s)
  {
    QuietBlocked(job, s, 1);
    assert FinishAll(job, WriterQueue, s.output) == s.output;
    PartOfExpected(job, s, WriterQueue, s.output);
    assert s.threads[1].role == Writer;
  }

  /** How many steps the controller is from starting a consumer, while the worker queue is over the threshold. */
  function StepsToSpawn(c: ControllerPc): nat {
    match c
    case Scale(size) => if size > HIGH_THRESHOLD then 1 else 5
    case HasMutex => 2
    case WantSize => 3
    case Sleeping => 4
    case Joining(_) => 5
  }

  lemma {:induction false} StartConsumer(job: Job, s: State) returns (run: seq<Action>)
    requires Inv(job, s) && |s.threads| == 6 && |s.worker.items| > HIGH_THRESHOLD
    requires s.worker.owner == Free || s.controller == HasMutex
    ensures Legal(job, s, run)
    ensures var s' := After(job, s, run); Inv(job, s') && s'.consumers != [] && s'.controller != HasMutex
    decreases StepsToSpawn(s.controller)
  {
    NotJoining(s);
    var s' := Do(job, s, Control);
    StepInv(job, s, Control);
    if s.controller.Scale? && s.controller.size > HIGH_THRESHOLD {
      run := [Control];
      assert run[1..] == [];
      assert After(job, s, run) == s';
    } else {
      var rest := StartConsumer(job, s');
      run := [Control] + rest;
      assert run[1..] == rest;
    }
  }

  lemma ConsumerThread(s: State)
    requires Vector(s.threads, s.consumers, s.controller) && s.consumers != []
    ensures 6 < |s.threads|
  {
    assert 6 <= s.consumers[0] < |s.threads|;
  }

  lemma NotJoining(s: State)
    requires Cast(s.threads) && Vector(s.threads, s.consumers, s.controller) && |s.threads| == 6
    ensures !s.controller.Joining? && s.consumers == []
  {
    assert forall i :: 0 <= i < |s.threads| ==> RoleAt(i, s.threads[i].role);
    if s.consumers != [] {
      ConsumerThread(s);
    }
  }

  /** A job is finished whatever happens first, as long as it is empty or long enough to fill the worker queue. */
  lemma LongJobsFinish(job: Job, s: State)
    requires Reachable(job, s) && (job.input == [] || HIGH_THRESHOLD < |job.input|)
    ensures CanFinish(job, s)
  {
    ReachableInv(job, s);
    if s.controller == HasMutex {
      StepInv(job, s, Control);
      var run := [Control];
      assert run[1..] == [];
      var s' := After(job, s, run);
      assert s' == Do(job, s, Control);
      ReachableMore(job, s, run);
      LongJobsFinishUnlocked(job, s');
      FinishLater(job, s, run);
    } else {
      LongJobsFinishUnlocked(job, s);
    }
  }

  lemma ReachableMore(job: Job, s: State, run: seq<Action>)
    requires Reachable(job, s) && Legal(job, s, run)
    ensures Reachable(job, After(job, s, run))
  {
    var before :| Legal(job, Init(job), before) && s == After(job, Init(job), before);
    Concat(job, Init(job), before, run);
  }

  lemma LongJobsFinishUnlocked(job: Job, s: State)
    requires Reachable(job, s) && (job.input == [] || HIGH_THRESHOLD < |job.input|)
    requires s.controller != HasMutex
    ensures CanFinish(job, s)
  {
    ReachableInv(job, s);
    if s.consumers != [] {
      FinishWithConsumer(job, s);
    } else {
      var run := RunToQuiet(job, s);
      var s' := After(job, s, run);
      if job.input == [] {
        QuietEmptyJob(job, s');
      } else {
        ReachableMore(job, s, run);
        ReachableNoConsumer(job, s');
        QuietWithoutConsumer(job, s');
        QuietFree(job, s', WorkerQueue);
        var more := StartConsumer(job, s');
        FinishWithConsumer(job, After(job, s', more));
        FinishLater(job, s', more);
        FinishLater(job, s, run);
      }
    }
  }

  /** Finishing stays possible in every reachable state exactly for the jobs that do not hang. */
  lemma FinishesExactlyOnLongJobs(job: Job)
    ensures (forall s :: Reachable(job, s) ==> CanFinish(job, s))
            <==> (|job.input| == 0 || |job.input| > 160)
  {
    if job.input == [] || HIGH_THRESHOLD < |job.input| {
      forall s | Reachable(job, s) ensures CanFinish(job, s) {
        LongJobsFinish(job, s);
      }
    } else {
      var s := Init(job);
      assert After(job, s, []) == s;
      assert Reachable(job, s);
      assert |multiset(Expected(job))| == |job.input|;
      if run :| Legal(job, s, run) && Finished(job, After(job, s, run)) {
        ReachableMore(job, s, run);
        ShortJobsGetNoConsumer(job, After(job, s, run));
      }
    }
  }
}
