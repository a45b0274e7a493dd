/**
 What every step of the pipeline keeps: who owns each mutex, that no wakeup is lost,
 and that no item is lost, duplicated or transformed at the wrong stage.
 */
module PipelineInvariant {
  import opened Sums
  import opened Options
  import opened TsQueues
  import opened Pipeline

  // ----- What a thread may be doing -----

  /** The pcs the code of a role passes through. */
  predicate PcOfRole(role: Role, pc: Pc) {
    match role
    case Reader =>
      pc.Read? || pc.Done? || (pc.Enqueue? && pc.q == ReaderQueue) || pc == EnqueueSignal(ReaderQueue)
    case Producer =>
      || pc.Transform?
      || ((pc.Dequeue? || pc.DequeueSignal?) && pc.q == ReaderQueue)
      || ((pc.Enqueue? || pc.EnqueueSignal?) && pc.q == WorkerQueue)
    case Consumer(cancelled) =>
      || pc.Transform? || pc.Loop? || pc.Enter? || (pc.Done? && cancelled)
      || ((pc.Dequeue? || pc.DequeueSignal?) && pc.q == WorkerQueue)
      || ((pc.Enqueue? || pc.EnqueueSignal?) && pc.q == WriterQueue)
    case Writer =>
      pc.Loop? || pc.Write? || pc.Done? || ((pc.Dequeue? || pc.DequeueSignal?) && pc.q == WriterQueue)
  }

  /** The fixed cast; everyone from thread 6 on is a consumer. */
  predicate RoleAt(i: nat, role: Role) {
    if i == 0 then role == Reader else if i == 1 then role == Writer
    else if i < 6 then role == Producer else role.Consumer?
  }

  ghost predicate Cast(ts: seq<Thread>) {
    && 6 <= |ts|
    && forall i :: 0 <= i < |ts| ==> RoleAt(i, ts[i].role) && PcOfRole(ts[i].role, ts[i].pc)
  }

  /** What the two counting loops have established at each point. */
  predicate LoopCounts(unread: nat, unwritten: int, reader: Pc, writer: Pc) {
    && (reader.Done? ==> unread == 0)
    && (writer.Done? ==> unwritten <= 0)
    && (!writer.Done? && !writer.Loop? ==> 0 < unwritten)
  }

  // ----- Mutual exclusion -----

  predicate Holds(pc: Pc, q: Queue) {
    (pc.Enqueue? || pc.Dequeue?) && pc.q == q && pc.phase == Held
  }

  /** A mutex is owned by exactly the thread that is inside the critical section, if any. */
  ghost predicate Owned(ts: seq<Thread>, q: Queue, owner: Owner, byController: bool) {
    && (forall i: nat :: i < |ts| ==> (owner == By(i) <==> Holds(ts[i].pc, q)))
    && (owner.By? ==> owner.i < |ts|)
    && (owner == Controller <==> byController)
  }

  ghost predicate Mutexes(s: State) {
    && Owned(s.threads, ReaderQueue, s.reader.owner, false)
    && Owned(s.threads, WorkerQueue, s.worker.owner, s.controller == HasMutex)
    && Owned(s.threads, WriterQueue, s.writer.owner, false)
  }

  // ----- The controller's vector -----

  /** Exactly the consumers in the vector are not cancelled; the one being joined is. */
  ghost predicate Vector(ts: seq<Thread>, consumers: seq<nat>, controller: ControllerPc) {
    && (forall k :: 0 <= k < |consumers| ==> 6 <= consumers[k] < |ts| && ts[consumers[k]].role == Consumer(false))
    && (forall k, l :: 0 <= k < l < |consumers| ==> consumers[k] != consumers[l])
    && (forall i :: 0 <= i < |ts| && ts[i].role == Consumer(false) ==> i in consumers)
    && (6 < |ts| ==> consumers != [])
    && (controller.Joining? ==> controller.i < |ts| && ts[controller.i].role == Consumer(true))
    && (controller.Scale? ==> controller.size <= WORKER_QUEUE_SIZE)
  }

  // ----- No lost wakeup -----

  /** What a thread can be counted as, for one condition variable of one queue. */
  datatype Kind = Waits | Awake | Signals

  function Measure(t: Thread, q: Queue, side: Side, kind: Kind): nat {
    if Counts(t.pc, q, side, kind) then 1 else 0
  }

  predicate Counts(pc: Pc, q: Queue, side: Side, kind: Kind) {
    match kind
    case Waits => (if side == Full then pc.Enqueue? else pc.Dequeue?) && pc.q == q && pc.phase == Waiting
    case Awake => (if side == Full then pc.Enqueue? else pc.Dequeue?) && pc.q == q
        && (pc.phase == Woken || pc.phase == Held)
    case Signals => (if side == Full then pc.DequeueSignal? else pc.EnqueueSignal?) && pc.q == q
  }

  function Tally(ts: seq<Thread>, q: Queue, side: Side, kind: Kind): nat {
    Sum(ts, t => Measure(t, q, side, kind))
  }

  /** How many threads the condition would let through: items to take, or slots to fill. */
  function Room(q: Queue, size: nat, side: Side): int {
    if side == Empty then size else Capacity(q) - size
  }

  /** While someone waits, every item (every free slot) has a signal on its way or a thread awake to take it. */
  ghost predicate NoLostWakeup(ts: seq<Thread>, q: Queue, side: Side, room: int) {
    Tally(ts, q, side, Waits) > 0 ==> room <= Tally(ts, q, side, Signals) + Tally(ts, q, side, Awake)
  }

  function RoomIn(s: State, q: Queue, side: Side): int {
    Room(q, |Get(s, q).items|, side)
  }

  ghost predicate WakeupOk(s: State, q: Queue, side: Side) {
    0 <= RoomIn(s, q, side) && NoLostWakeup(s.threads, q, side, RoomIn(s, q, side))
  }

  ghost predicate Wakeups(s: State) {
    forall q: Queue, side: Side :: WakeupOk(s, q, side)
  }

  lemma TallySet(ts: seq<Thread>, i: nat, t: Thread, q: Queue, side: Side, kind: Kind)
    requires i < |ts|
    ensures Tally(ts[i := t], q, side, kind) + Measure(ts[i], q, side, kind)
            == Tally(ts, q, side, kind) + Measure(t, q, side, kind)
  {
    SumUpdate(ts, i, t, (t: Thread) => Measure(t, q, side, kind));
  }

  lemma TallySpawn(ts: seq<Thread>, t: Thread, q: Queue, side: Side, kind: Kind)
    ensures Tally(ts + [t], q, side, kind) == Tally(ts, q, side, kind) + Measure(t, q, side, kind)
  {
    SumAppend(ts, t, (t: Thread) => Measure(t, q, side, kind));
  }

  lemma TallySome(ts: seq<Thread>, i: nat, q: Queue, side: Side, kind: Kind)
    requires i < |ts|
    ensures Measure(ts[i], q, side, kind) <= Tally(ts, q, side, kind)
  {
    SumAtLeast(ts, i, (t: Thread) => Measure(t, q, side, kind));
  }

  lemma TallyNone(ts: seq<Thread>, q: Queue, side: Side, kind: Kind)
    requires forall i :: 0 <= i < |ts| ==> !Counts(ts[i].pc, q, side, kind)
    ensures Tally(ts, q, side, kind) == 0
  {
    SumZero(ts, (t: Thread) => Measure(t, q, side, kind));
  }

  // ----- Exactly once -----

  /** What an item found in queue q still has to go through before it is written. */
  function Finish(job: Job, q: Queue, x: Item): Item {
    match q
    case ReaderQueue => Transformed(job, Consumer(false), Transformed(job, Producer, x))
    case WorkerQueue => Transformed(job, Consumer(false), x)
    case WriterQueue => x
  }

  /** How many of the items will be written as y. */
  function Copies(job: Job, q: Queue, items: seq<Item>, y: Item): nat {
    Sum(items, x => Becomes(job, q, x, y))
  }

  function Becomes(job: Job, q: Queue, x: Item, y: Item): nat {
    if Finish(job, q, x) == y then 1 else 0
  }

  /** The item in a thread's hand, as it will be written. */
  function InHand(job: Job, t: Thread): Option<Item> {
    match t.pc
    case Enqueue(q, _, x) => Some(Finish(job, q, x))
    case DequeueSignal(q, x) => Some(Finish(job, q, x))
    case Transform(x) => Some(Finish(job, if t.role.Producer? then ReaderQueue else WorkerQueue, x))
    case Write(x) => Some(x)
    case _ => None
  }

  function Carries(job: Job, t: Thread, y: Item): nat {
    if InHand(job, t) == Some(y) then 1 else 0
  }

  function Hands(job: Job, ts: seq<Thread>, y: Item): nat {
    Sum(ts, t => Carries(job, t, y))
  }

  /** How many items, anywhere in the pipeline, end up or will end up in the output as y. */
  function Everywhere(job: Job, s: State, y: Item): nat {
    Copies(job, ReaderQueue, s.unread, y) + Copies(job, ReaderQueue, s.reader.items, y)
    + Copies(job, WorkerQueue, s.worker.items, y) + Copies(job, WriterQueue, s.writer.items, y)
    + Copies(job, WriterQueue, s.output, y) + Hands(job, s.threads, y)
  }

  ghost predicate ExactlyOnce(job: Job, s: State) {
    forall y: Item :: Everywhere(job, s, y) == Copies(job, ReaderQueue, job.input, y)
  }

  lemma HandsSet(job: Job, ts: seq<Thread>, i: nat, t: Thread, y: Item)
    requires i < |ts|
    ensures Hands(job, ts[i := t], y) + Carries(job, ts[i], y) == Hands(job, ts, y) + Carries(job, t, y)
  {
    SumUpdate(ts, i, t, (t: Thread) => Carries(job, t, y));
  }

  lemma HandsSpawn(job: Job, ts: seq<Thread>, t: Thread, y: Item)
    requires InHand(job, t) == None
    ensures Hands(job, ts + [t], y) == Hands(job, ts, y)
  {
    SumAppend(ts, t, (t: Thread) => Carries(job, t, y));
  }

  lemma HandsNone(job: Job, ts: seq<Thread>, y: Item)
    requires forall i :: 0 <= i < |ts| ==> InHand(job, ts[i]) == None
    ensures Hands(job, ts, y) == 0
  {
    SumZero(ts, (t: Thread) => Carries(job, t, y));
  }

  lemma CopiesAppend(job: Job, q: Queue, items: seq<Item>, x: Item, y: Item)
    ensures Copies(job, q, items + [x], y) == Copies(job, q, items, y) + Becomes(job, q, x, y)
  {
    SumAppend(items, x, (x: Item) => Becomes(job, q, x, y));
  }

  lemma CopiesRest(job: Job, q: Queue, items: seq<Item>, y: Item)
    requires items != []
    ensures Copies(job, q, items, y) == Copies(job, q, items[1..], y) + Becomes(job, q, items[0], y)
  {
  }

  // ----- Together -----

  ghost predicate Inv(job: Job, s: State) {
    && Cast(s.threads)
    && LoopCounts(|s.unread|, |job.input| - |s.output|, s.threads[0].pc, s.threads[1].pc)
    && Mutexes(s)
    && Vector(s.threads, s.consumers, s.controller)
    && Wakeups(s)
    && ExactlyOnce(job, s)
  }
}
