/**
 The pthreads pipeline of NTHU-OS-Pthreads: one reader, four producers, the consumers
 that the controller adds and cancels, and one writer, joined by three bounded queues.

 The machine takes one step per stretch of code that no other thread can observe half done:
 what a thread does while it owns a mutex is guarded by that mutex, and everything else it does is
 its own. Condition variables are Mesa style, may wake up spuriously,
 and are signalled after the mutex has been released.
 */
module Pipeline {
  import opened Options
  import opened TsQueues

  /** Buffer sizes and thresholds of main.cpp. */
  const READER_QUEUE_SIZE := 200
  const WORKER_QUEUE_SIZE := 200
  const WRITER_QUEUE_SIZE := 4000
  const LOW_THRESHOLD := WORKER_QUEUE_SIZE * 20 / 100
  const HIGH_THRESHOLD := WORKER_QUEUE_SIZE * 80 / 100

  datatype Item = Item(key: int, val: nat, opcode: char)

  /** One execution: the lines of the input file and the two transforms of the Transformer object. */
  datatype Job = Job(
    input: seq<Item>,
    producerTransform: (char, nat) -> nat,
    consumerTransform: (char, nat) -> nat)

  datatype Queue = ReaderQueue | WorkerQueue | WriterQueue

  /** `Full` is where cond_enqueue is waited on, `Empty` is where cond_dequeue is. */
  datatype Side = Full | Empty

  /** About to lock the mutex; owning it, at the loop test; blocked on the condition; woken, about to relock. */
  datatype Phase = Lock | Held | Waiting | Woken

  datatype Pc =
    | Read                                              // reader: at `expected_lines--`
    | Loop                                              // consumer and writer: at the while test
    | Enter                                             // consumer: tested is_cancel, still cancelable
    | Enqueue(q: Queue, phase: Phase, item: Item)
    | EnqueueSignal(q: Queue)                           // mutex released, cond_dequeue not yet signalled
    | Dequeue(q: Queue, phase: Phase)
    | DequeueSignal(q: Queue, item: Item)               // mutex released, cond_enqueue not yet signalled
    | Transform(item: Item)
    | Write(item: Item)
    | Done

  datatype Role = Reader | Producer | Consumer(cancelled: bool) | Writer

  datatype Thread = Thread(role: Role, pc: Pc)

  datatype Owner = Free | By(i: nat) | Controller

  datatype QueueState = QueueState(items: seq<Item>, owner: Owner)

  /** Where ConsumerController::process stands. */
  datatype ControllerPc =
    | Sleeping
    | WantSize                    // about to lock the worker queue's mutex in get_size
    | HasMutex                    // owns it
    | Scale(size: nat)            // knows the size it read
    | Joining(i: nat)             // has cancelled consumer i and waits for it

  datatype State = State(
    unread: seq<Item>,
    reader: QueueState,
    worker: QueueState,
    writer: QueueState,
    output: seq<Item>,
    threads: seq<Thread>,
    controller: ControllerPc,
    consumers: seq<nat>)          // the controller's vector, as thread numbers

  function Capacity(q: Queue): nat {
    match q
    case ReaderQueue => READER_QUEUE_SIZE
    case WorkerQueue => WORKER_QUEUE_SIZE
    case WriterQueue => WRITER_QUEUE_SIZE
  }

  function Get(s: State, q: Queue): QueueState {
    match q
    case ReaderQueue => s.reader
    case WorkerQueue => s.worker
    case WriterQueue => s.writer
  }

  function Put(s: State, q: Queue, qs: QueueState): State {
    match q
    case ReaderQueue => s.(reader := qs)
    case WorkerQueue => s.(worker := qs)
    case WriterQueue => s.(writer := qs)
  }

  function Goto(s: State, i: nat, pc: Pc): State
    requires i < |s.threads|
  {
    s.(threads := s.threads[i := s.threads[i].(pc := pc)])
  }

  /** main starts the producers, the controller, the writer and the reader; no consumer yet. */
  function Init(job: Job): State {
    State(job.input, QueueState([], Free), QueueState([], Free), QueueState([], Free), [],
          [Thread(Reader, Read), Thread(Writer, Loop)]
          + seq(4, i => Thread(Producer, Dequeue(ReaderQueue, Lock))),
          Sleeping, [])
  }

  /** What a thread does with the item it has dequeued, and after it has enqueued one. */
  function AfterDequeue(role: Role, x: Item): Pc {
    if role.Writer? then Write(x) else Transform(x)
  }

  function AfterEnqueue(role: Role): Pc {
    match role
    case Reader => Read
    case Producer => Dequeue(ReaderQueue, Lock)
    case _ => Loop
  }

  function Transformed(job: Job, role: Role, x: Item): Item {
    x.(val := if role.Producer? then job.producerTransform(x.opcode, x.val)
              else job.consumerTransform(x.opcode, x.val))
  }

  predicate IsWaiting(s: State, i: nat, q: Queue, side: Side) {
    && i < |s.threads|
    && match side
       case Full => s.threads[i].pc.Enqueue? && s.threads[i].pc.q == q && s.threads[i].pc.phase == Waiting
       case Empty => s.threads[i].pc == Dequeue(q, Waiting)
  }

  /** Can thread i take a step of its own, that is, one that is not a spurious wakeup? */
  predicate Enabled(s: State, i: nat) {
    && i < |s.threads|
    && match s.threads[i].pc
       case Done => false
       case Enqueue(q, phase, _) => phase == Held || (phase != Waiting && Get(s, q).owner == Free)
       case Dequeue(q, phase) => phase == Held || (phase != Waiting && Get(s, q).owner == Free)
       case _ => true
  }

  datatype Action =
    | Work(i: nat, wakes: nat)    // thread i goes on; a signal wakes thread `wakes`
    | Cancelled(i: nat)           // a pending cancel acts on consumer i while its cancelability is enabled
    | Spurious(i: nat)            // thread i's condition wait returns without a signal
    | Control                     // the controller goes on

  /** pthread_cond_signal wakes a waiter whenever there is one. */
  ghost predicate WakesOne(s: State, j: nat, q: Queue, side: Side) {
    IsWaiting(s, j, q, side) || forall k :: !IsWaiting(s, k, q, side)
  }

  function Wake(s: State, j: nat, q: Queue, side: Side): State {
    if !IsWaiting(s, j, q, side) then s
    else if side == Full then Goto(s, j, Enqueue(q, Woken, s.threads[j].pc.item))
    else Goto(s, j, Dequeue(q, Woken))
  }

  ghost predicate Can(job: Job, s: State, a: Action) {
    match a
    case Work(i, j) =>
      && Enabled(s, i)
      && (s.threads[i].pc.EnqueueSignal? ==> WakesOne(s, j, s.threads[i].pc.q, Empty))
      && (s.threads[i].pc.DequeueSignal? ==> WakesOne(s, j, s.threads[i].pc.q, Full))
    case Cancelled(i) =>
      i < |s.threads| && s.threads[i].role == Consumer(true) && (s.threads[i].pc.Loop? || s.threads[i].pc.Enter?)
    case Spurious(i) =>
      exists q, side :: IsWaiting(s, i, q, side)
    case Control =>
      match s.controller
      case WantSize => s.worker.owner == Free
      case Joining(k) => k < |s.threads| && s.threads[k].pc.Done?
      case _ => true
  }

  function EnqueueStep(s: State, i: nat, q: Queue, phase: Phase, x: Item): State
    requires i < |s.threads|
  {
    if phase != Held then Goto(Put(s, q, Get(s, q).(owner := By(i))), i, Enqueue(q, Held, x))
    else match EnqueueSection(Get(s, q).items, Capacity(q), x)
      case None => Goto(Put(s, q, Get(s, q).(owner := Free)), i, Enqueue(q, Waiting, x))
      case Some(items) => Goto(Put(s, q, QueueState(items, Free)), i, EnqueueSignal(q))
  }

  function DequeueStep(s: State, i: nat, q: Queue, phase: Phase): State
    requires i < |s.threads|
  {
    if phase != Held then Goto(Put(s, q, Get(s, q).(owner := By(i))), i, Dequeue(q, Held))
    else match DequeueSection(Get(s, q).items)
      case None => Goto(Put(s, q, Get(s, q).(owner := Free)), i, Dequeue(q, Waiting))
      case Some((x, items)) => Goto(Put(s, q, QueueState(items, Free)), i, DequeueSignal(q, x))
  }

  function WorkStep(job: Job, s: State, i: nat, j: nat): State
    requires i < |s.threads|
  {
    var role := s.threads[i].role;
    match s.threads[i].pc
    case Read =>
      if s.unread == [] then Goto(s, i, Done)
      else Goto(s.(unread := s.unread[1..]), i, Enqueue(ReaderQueue, Lock, s.unread[0]))
    case Loop =>
      if role.Writer? then
        Goto(s, i, if |s.output| < |job.input| then Dequeue(WriterQueue, Lock) else Done)
      else
        Goto(s, i, if role == Consumer(true) then Done else Enter)
    case Enter => Goto(s, i, Dequeue(WorkerQueue, Lock))
    case Enqueue(q, phase, x) => EnqueueStep(s, i, q, phase, x)
    case EnqueueSignal(q) => Goto(Wake(s, j, q, Empty), i, AfterEnqueue(role))
    case Dequeue(q, phase) => DequeueStep(s, i, q, phase)
    case DequeueSignal(q, x) => Goto(Wake(s, j, q, Full), i, AfterDequeue(role, x))
    case Transform(x) =>
      Goto(s, i, Enqueue(if role.Producer? then WorkerQueue else WriterQueue, Lock, Transformed(job, role, x)))
    case Write(x) => Goto(s.(output := s.output + [x]), i, Loop)
    case Done => s
  }

  /** Take the last consumer off the vector, cancel it and wait for it, if the size read was low enough. */
  function ScaleDown(s: State, size: nat): State {
    if size < LOW_THRESHOLD && |s.consumers| > 1 && s.consumers[|s.consumers| - 1] < |s.threads| then
      var k := s.consumers[|s.consumers| - 1];
      s.(consumers := s.consumers[..|s.consumers| - 1],
         threads := s.threads[k := s.threads[k].(role := Consumer(true))],
         controller := Joining(k))
    else s.(controller := Sleeping)
  }

  /** Start a new consumer, if the size read was high enough. */
  function ScaleUp(s: State, size: nat): State {
    if size > HIGH_THRESHOLD then
      s.(consumers := s.consumers + [|s.threads|],
         threads := s.threads + [Thread(Consumer(false), Loop)])
    else s
  }

  function ControlStep(s: State): State {
    match s.controller
    case Sleeping => s.(controller := WantSize)
    case WantSize => s.(worker := s.worker.(owner := Controller), controller := HasMutex)
    case HasMutex => s.(worker := s.worker.(owner := Free), controller := Scale(|s.worker.items|))
    case Scale(size) => ScaleDown(ScaleUp(s, size), size)
    case Joining(_) => s.(controller := Sleeping)
  }

  ghost function Do(job: Job, s: State, a: Action): State
    requires Can(job, s, a)
  {
    match a
    case Work(i, j) => WorkStep(job, s, i, j)
    case Cancelled(i) => Goto(s, i, Done)
    case Spurious(i) =>
      if s.threads[i].pc.Enqueue? then Goto(s, i, Enqueue(s.threads[i].pc.q, Woken, s.threads[i].pc.item))
      else Goto(s, i, Dequeue(s.threads[i].pc.q, Woken))
    case Control => ControlStep(s)
  }

  /** Every action of the run is possible when its turn comes. */
  ghost predicate Legal(job: Job, s: State, run: seq<Action>)
    decreases |run|
  {
    run == [] || (Can(job, s, run[0]) && Legal(job, Do(job, s, run[0]), run[1..]))
  }

  ghost function After(job: Job, s: State, run: seq<Action>): State
    requires Legal(job, s, run)
    decreases |run|
  {
    if run == [] then s else After(job, Do(job, s, run[0]), run[1..])
  }

  /** The states a job can get into, whatever the scheduler, the signals and the controller do. */
  ghost predicate Reachable(job: Job, s: State) {
    exists run :: Legal(job, Init(job), run) && s == After(job, Init(job), run)
  }
}
