/**
 What goes into each queue of the pipeline and what comes out of it, over whole runs. The histories are read off the
 program counters before and after each step, and know nothing of how a queue keeps its items.
 */
module PipelineHistory {
  import opened Histories
  import opened Pipeline
  import opened PipelineInvariant
  import opened PipelineSteps

  /** The item thread i has put into q by its step, if its critical section succeeded. */
  function PutBy(s: State, s': State, i: nat, q: Queue): seq<Item>
    requires i < |s.threads| && i < |s'.threads|
  {
    var pc := s.threads[i].pc;
    if pc.Enqueue? && pc.q == q && s'.threads[i].pc.EnqueueSignal? then [pc.item] else []
  }

  /** The item thread i has taken from q by its step. */
  function TakenBy(s: State, s': State, i: nat, q: Queue): seq<Item>
    requires i < |s.threads| && i < |s'.threads|
  {
    var pc := s.threads[i].pc;
    if pc.Dequeue? && pc.q == q && s'.threads[i].pc.DequeueSignal? then [s'.threads[i].pc.item] else []
  }

  ghost function PutIn(job: Job, s: State, a: Action, q: Queue): seq<Item>
    requires Can(job, s, a)
  {
    var s' := Do(job, s, a);
    if a.Work? && a.i < |s'.threads| then PutBy(s, s', a.i, q) else []
  }

  ghost function TakenIn(job: Job, s: State, a: Action, q: Queue): seq<Item>
    requires Can(job, s, a)
  {
    var s' := Do(job, s, a);
    if a.Work? && a.i < |s'.threads| then TakenBy(s, s', a.i, q) else []
  }

  /** All items put into q in a run, in order. */
  ghost function Puts(job: Job, s: State, run: seq<Action>, q: Queue): seq<Item>
    requires Legal(job, s, run)
    decreases |run|
  {
    if run == [] then [] else PutIn(job, s, run[0], q) + Puts(job, Do(job, s, run[0]), run[1..], q)
  }

  /** All items taken from q in a run, in order. */
  ghost function Takes(job: Job, s: State, run: seq<Action>, q: Queue): seq<Item>
    requires Legal(job, s, run)
    decreases |run|
  {
    if run == [] then [] else TakenIn(job, s, run[0], q) + Takes(job, Do(job, s, run[0]), run[1..], q)
  }

  // ----- First in, first out -----

  lemma EnqueueFifo(s: State, i: nat, q: Queue, phase: Phase, x: Item, r: Queue)
    requires i < |s.threads| && s.threads[i].pc == Enqueue(q, phase, x)
    ensures var s' := EnqueueStep(s, i, q, phase, x);
            && |s'.threads| == |s.threads|
            && Get(s, r).items + PutBy(s, s', i, r) == TakenBy(s, s', i, r) + Get(s', r).items
  {
  }

  lemma DequeueFifo(s: State, i: nat, q: Queue, phase: Phase, r: Queue)
    requires i < |s.threads| && s.threads[i].pc == Dequeue(q, phase)
    ensures var s' := DequeueStep(s, i, q, phase);
            && |s'.threads| == |s.threads|
            && Get(s, r).items + PutBy(s, s', i, r) == TakenBy(s, s', i, r) + Get(s', r).items
  {
  }

  /** A step that is no critical section leaves the queues' items alone. */
  lemma ItemsStay(job: Job, s: State, a: Action, r: Queue)
    requires Can(job, s, a)
    requires a.Work? ==> !s.threads[a.i].pc.Enqueue? && !s.threads[a.i].pc.Dequeue?
    ensures Get(Do(job, s, a), r).items == Get(s, r).items
  {
  }

  lemma StepFifo(job: Job, s: State, a: Action, q: Queue)
    requires Can(job, s, a)
    ensures Get(s, q).items + PutIn(job, s, a, q) == TakenIn(job, s, a, q) + Get(Do(job, s, a), q).items
  {
    hide EnqueueStep, DequeueStep;
    if a.Work? && s.threads[a.i].pc.Enqueue? {
      var pc := s.threads[a.i].pc;
      EnqueueFifo(s, a.i, pc.q, pc.phase, pc.item, q);
    } else if a.Work? && s.threads[a.i].pc.Dequeue? {
      var pc := s.threads[a.i].pc;
      DequeueFifo(s, a.i, pc.q, pc.phase, q);
    } else {
      ItemsStay(job, s, a, q);
    }
  }

  lemma {:induction false} RunFifo(job: Job, s: State, run: seq<Action>, q: Queue)
    requires Legal(job, s, run)
    ensures Get(s, q).items + Puts(job, s, run, q) == Takes(job, s, run, q) + Get(After(job, s, run), q).items
    decreases |run|
  {
    hide PutIn, TakenIn, Do, Can;
    if run != [] {
      var s1 := Do(job, s, run[0]);
      StepFifo(job, s, run[0], q);
      RunFifo(job, s1, run[1..], q);
      Chain(Get(s, q).items, PutIn(job, s, run[0], q), TakenIn(job, s, run[0], q), Get(s1, q).items,
            Puts(job, s1, run[1..], q), Takes(job, s1, run[1..], q), Get(After(job, s, run), q).items);
    }
  }

  /** Over every run each queue is first in, first out: what was put in is what was taken and what is still there. */
  lemma FirstInFirstOut(job: Job, run: seq<Action>, q: Queue)
    requires Legal(job, Init(job), run)
    ensures Puts(job, Init(job), run, q) == Takes(job, Init(job), run, q) + Get(After(job, Init(job), run), q).items
  {
    RunFifo(job, Init(job), run, q);
    assert Get(Init(job), q).items == [];
  }

  /** The thread in a critical section gets its work done just when there is room, or an item; otherwise it waits. */
  lemma SectionDecides(job: Job, s: State, i: nat, j: nat)
    requires Can(job, s, Work(i, j)) && (s.threads[i].pc.Enqueue? || s.threads[i].pc.Dequeue?)
    requires s.threads[i].pc.phase == Held
    ensures var pc, pc' := s.threads[i].pc, WorkStep(job, s, i, j).threads[i].pc;
            var items := Get(s, pc.q).items;
            && Get(WorkStep(job, s, i, j), pc.q).owner == Free
            && (pc.Enqueue? ==>
                  pc' == if |items| < (if pc.q == WriterQueue then 4000 else 200) then EnqueueSignal(pc.q)
                         else Enqueue(pc.q, Waiting, pc.item))
            && (pc.Dequeue? ==>
                  pc' == if items == [] then Dequeue(pc.q, Waiting) else DequeueSignal(pc.q, items[0]))
  {
  }

  // ----- The order of lines at both ends -----

  /** A line that a thread carries towards a queue. */
  function Bringing(pc: Pc): seq<Item> {
    if pc.Enqueue? then [pc.item] else []
  }

  /** A line that a thread carries away from a queue, as it was taken. */
  function TakingAway(pc: Pc): seq<Item> {
    match pc
    case DequeueSignal(_, x) => [x]
    case Write(x) => [x]
    case _ => []
  }

  /** A thread that is not stepping stays as it is, unless a signal wakes it. */
  predicate Left(t: Thread, t': Thread) {
    || t' == t
    || ((t.pc.Enqueue? || t.pc.Dequeue?) && t.pc.phase == Waiting && t' == t.(pc := WokenPc(t.pc)))
  }

  ghost predicate LeavesOthers(s: State, s': State, i: nat) {
    && |s'.threads| == |s.threads| && s'.consumers == s.consumers && s'.controller == s.controller
    && forall k :: 0 <= k < |s.threads| && k != i ==> Left(s.threads[k], s'.threads[k])
  }

  lemma EnqueueLeavesOthers(s: State, i: nat, q: Queue, phase: Phase, x: Item)
    requires i < |s.threads|
    ensures LeavesOthers(s, EnqueueStep(s, i, q, phase, x), i)
  {
  }

  lemma DequeueLeavesOthers(s: State, i: nat, q: Queue, phase: Phase)
    requires i < |s.threads|
    ensures LeavesOthers(s, DequeueStep(s, i, q, phase), i)
  {
  }

  lemma SignalLeavesOthers(s: State, i: nat, j: nat, q: Queue, side: Side, pc: Pc)
    requires i < |s.threads|
    ensures |Wake(s, j, q, side).threads| == |s.threads|
    ensures LeavesOthers(s, Goto(Wake(s, j, q, side), i, pc), i)
  {
  }

  lemma WorkLeavesOthers(job: Job, s: State, i: nat, j: nat)
    requires i < |s.threads|
    ensures LeavesOthers(s, WorkStep(job, s, i, j), i)
  {
    hide EnqueueStep, DequeueStep, Wake, Transformed;
    var role := s.threads[i].role;
    match s.threads[i].pc
    case Enqueue(q, phase, x) => EnqueueLeavesOthers(s, i, q, phase, x);
    case Dequeue(q, phase) => DequeueLeavesOthers(s, i, q, phase);
    case EnqueueSignal(q) => SignalLeavesOthers(s, i, j, q, Empty, AfterEnqueue(role));
    case DequeueSignal(q, x) => SignalLeavesOthers(s, i, j, q, Full, AfterDequeue(role, x));
    case _ =>
  }

  lemma OthersCarryOn(job: Job, s: State, i: nat, j: nat, k: nat)
    requires i < |s.threads| && k < |s.threads| && k != i
    ensures |WorkStep(job, s, i, j).threads| == |s.threads|
    ensures var pc, pc' := s.threads[k].pc, WorkStep(job, s, i, j).threads[k].pc;
            Bringing(pc') == Bringing(pc) && TakingAway(pc') == TakingAway(pc)
  {
    hide WorkStep;
    WorkLeavesOthers(job, s, i, j);
    assert Left(s.threads[k], WorkStep(job, s, i, j).threads[k]);
  }

  /** Only a reading thread takes lines from the file, and only a writing one adds to the output. */
  lemma EndsStay(job: Job, s: State, i: nat, j: nat)
    requires Can(job, s, Work(i, j))
    ensures !s.threads[i].pc.Read? ==> WorkStep(job, s, i, j).unread == s.unread
    ensures !s.threads[i].pc.Write? ==> WorkStep(job, s, i, j).output == s.output
  {
  }

  lemma SomeThreads(job: Job, s: State)
    requires Inv(job, s)
    ensures |s.threads| >= 6
  {
  }

  lemma RoleOf(job: Job, s: State, i: nat)
    requires Inv(job, s) && i < |s.threads|
    ensures PcOfRole(s.threads[i].role, s.threads[i].pc) && RoleAt(i, s.threads[i].role)
  {
  }

  lemma ControlKeepsPcs(s: State)
    ensures |s.threads| <= |ControlStep(s).threads|
    ensures ControlStep(s).unread == s.unread && ControlStep(s).output == s.output
    ensures forall k :: 0 <= k < |s.threads| ==> ControlStep(s).threads[k].pc == s.threads[k].pc
  {
  }

  // The reader: what it brings and what it has not read yet.

  lemma ReaderOwn(job: Job, s: State, j: nat)
    requires Can(job, s, Work(0, j)) && PcOfRole(Reader, s.threads[0].pc) && s.threads[0].role == Reader
    ensures var s' := WorkStep(job, s, 0, j);
            && |s'.threads| == |s.threads|
            && Bringing(s.threads[0].pc) + s.unread
               == PutBy(s, s', 0, ReaderQueue) + (Bringing(s'.threads[0].pc) + s'.unread)
  {
  }

  lemma ReaderOther(job: Job, s: State, i: nat, j: nat)
    requires Can(job, s, Work(i, j)) && 0 < i
    requires PcOfRole(s.threads[i].role, s.threads[i].pc) && RoleAt(i, s.threads[i].role)
    ensures var s' := WorkStep(job, s, i, j);
            && |s'.threads| == |s.threads| && s'.unread == s.unread && PutBy(s, s', i, ReaderQueue) == []
            && Bringing(s'.threads[0].pc) == Bringing(s.threads[0].pc)
  {
    hide WorkStep;
    OthersCarryOn(job, s, i, j, 0);
    EndsStay(job, s, i, j);
  }

  lemma ReaderStep(job: Job, s: State, a: Action)
    requires Inv(job, s) && Can(job, s, a)
    ensures var s' := Do(job, s, a);
            && 0 < |s.threads| <= |s'.threads|
            && Bringing(s.threads[0].pc) + s.unread
               == PutIn(job, s, a, ReaderQueue) + (Bringing(s'.threads[0].pc) + s'.unread)
  {
    hide Inv, WorkStep, ControlStep;
    SomeThreads(job, s);
    RoleOf(job, s, 0);
    match a
    case Work(i, j) =>
      RoleOf(job, s, i);
      if i == 0 {
        ReaderOwn(job, s, j);
      } else {
        ReaderOther(job, s, i, j);
      }
    case Cancelled(i) =>
    case Spurious(i) =>
    case Control => ControlKeepsPcs(s);
  }

  lemma {:induction false} RunReads(job: Job, s: State, run: seq<Action>)
    requires Inv(job, s) && Legal(job, s, run)
    ensures var s' := After(job, s, run);
            && 0 < |s.threads| <= |s'.threads|
            && Bringing(s.threads[0].pc) + s.unread
               == Puts(job, s, run, ReaderQueue) + (Bringing(s'.threads[0].pc) + s'.unread)
    decreases |run|
  {
    hide Inv, PutIn, Do, Can, Bringing;
    SomeThreads(job, s);
    if run != [] {
      StepInv(job, s, run[0]);
      ReaderStep(job, s, run[0]);
      RunReads(job, Do(job, s, run[0]), run[1..]);
    }
  }

  // The writer: what it has written and what it has in its hand.

  lemma WriterOwn(job: Job, s: State, j: nat)
    requires Can(job, s, Work(1, j)) && PcOfRole(Writer, s.threads[1].pc) && s.threads[1].role == Writer
    ensures var s' := WorkStep(job, s, 1, j);
            && |s'.threads| == |s.threads|
            && s.output + TakingAway(s.threads[1].pc) + TakenBy(s, s', 1, WriterQueue)
               == s'.output + TakingAway(s'.threads[1].pc)
  {
  }

  lemma WriterOther(job: Job, s: State, i: nat, j: nat)
    requires Can(job, s, Work(i, j)) && 1 < |s.threads| && i != 1
    requires PcOfRole(s.threads[i].role, s.threads[i].pc) && RoleAt(i, s.threads[i].role)
    ensures var s' := WorkStep(job, s, i, j);
            && |s'.threads| == |s.threads| && s'.output == s.output && TakenBy(s, s', i, WriterQueue) == []
            && TakingAway(s'.threads[1].pc) == TakingAway(s.threads[1].pc)
  {
    hide WorkStep;
    OthersCarryOn(job, s, i, j, 1);
    EndsStay(job, s, i, j);
  }

  lemma WriterStep(job: Job, s: State, a: Action)
    requires Inv(job, s) && Can(job, s, a)
    ensures var s' := Do(job, s, a);
            && 1 < |s.threads| <= |s'.threads|
            && s.output + TakingAway(s.threads[1].pc) + TakenIn(job, s, a, WriterQueue)
               == s'.output + TakingAway(s'.threads[1].pc)
  {
    hide Inv, WorkStep, ControlStep;
    SomeThreads(job, s);
    RoleOf(job, s, 0);
    RoleOf(job, s, 1);
    match a
    case Work(i, j) =>
      RoleOf(job, s, i);
      if i == 1 {
        WriterOwn(job, s, j);
      } else {
        WriterOther(job, s, i, j);
      }
    case Cancelled(i) =>
    case Spurious(i) =>
    case Control => ControlKeepsPcs(s);
  }

  lemma {:induction false} RunWrites(job: Job, s: State, run: seq<Action>)
    requires Inv(job, s) && Legal(job, s, run)
    ensures var s' := After(job, s, run);
            && 1 < |s.threads| <= |s'.threads|
            && s.output + TakingAway(s.threads[1].pc) + Takes(job, s, run, WriterQueue)
               == s'.output + TakingAway(s'.threads[1].pc)
    decreases |run|
  {
    hide Inv, TakenIn, Do, Can, TakingAway;
    SomeThreads(job, s);
    if run != [] {
      StepInv(job, s, run[0]);
      WriterStep(job, s, run[0]);
      RunWrites(job, Do(job, s, run[0]), run[1..]);
    }
  }

  /**
   Lines go into the reader's queue in the order of the file, and into the output in the order in which they
   were put into the writer's queue.
   */
  lemma LinesInOrder(job: Job, run: seq<Action>)
    requires Legal(job, Init(job), run)
    ensures Puts(job, Init(job), run, ReaderQueue) <= job.input
    ensures After(job, Init(job), run).output <= Puts(job, Init(job), run, WriterQueue)
  {
    InitInv(job);
    RunReads(job, Init(job), run);
    RunWrites(job, Init(job), run);
    FirstInFirstOut(job, run, WriterQueue);
    var s := After(job, Init(job), run);
    assert job.input == Puts(job, Init(job), run, ReaderQueue) + (Bringing(s.threads[0].pc) + s.unread);
    assert Takes(job, Init(job), run, WriterQueue) == s.output + TakingAway(s.threads[1].pc);
  }
}
