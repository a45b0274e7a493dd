/** Every step of the pipeline keeps the invariant of module PipelineInvariant. */
module PipelineSteps {
  import opened TsQueues
  import opened Pipeline
  import opened PipelineInvariant

  // ----- One thread moves to another pc -----

  function Moved(ts: seq<Thread>, i: nat, pc: Pc): seq<Thread>
    requires i < |ts|
  {
    ts[i := ts[i].(pc := pc)]
  }

  lemma CastMoved(ts: seq<Thread>, i: nat, pc: Pc)
    requires Cast(ts) && i < |ts| && PcOfRole(ts[i].role, pc)
    ensures Cast(Moved(ts, i, pc))
  {
  }

  lemma VectorMoved(ts: seq<Thread>, i: nat, pc: Pc, consumers: seq<nat>, controller: ControllerPc)
    requires Vector(ts, consumers, controller) && i < |ts|
    ensures Vector(Moved(ts, i, pc), consumers, controller)
  {
    assert forall k :: 0 <= k < |ts| ==> Moved(ts, i, pc)[k].role == ts[k].role;
  }

  /** Only a thread entering or leaving the critical section of q changes who owns its mutex. */
  lemma OwnedMoved(ts: seq<Thread>, i: nat, pc: Pc, q: Queue, owner: Owner, byController: bool)
    requires Owned(ts, q, owner, byController) && i < |ts| && Holds(ts[i].pc, q) == Holds(pc, q)
    ensures Owned(Moved(ts, i, pc), q, owner, byController)
  {
  }

  lemma OwnedLock(ts: seq<Thread>, i: nat, pc: Pc, q: Queue)
    requires Owned(ts, q, Free, false) && i < |ts| && Holds(pc, q)
    ensures Owned(Moved(ts, i, pc), q, By(i), false)
  {
  }

  lemma OwnedUnlock(ts: seq<Thread>, i: nat, pc: Pc, q: Queue, owner: Owner, byController: bool)
    requires Owned(ts, q, owner, byController) && i < |ts| && Holds(ts[i].pc, q) && !Holds(pc, q)
    ensures Owned(Moved(ts, i, pc), q, Free, false)
  {
    assert owner == By(i);
  }

  function Counted(pc: Pc, q: Queue, side: Side, kind: Kind): nat {
    if Counts(pc, q, side, kind) then 1 else 0
  }

  /** A move loses no wakeup if it starts no wait where there is room, and pays for the room it makes. */
  lemma WakeupMoved(ts: seq<Thread>, i: nat, pc: Pc, q: Queue, side: Side, room: int, room': int)
    requires i < |ts| && NoLostWakeup(ts, q, side, room)
    requires room' > 0 ==>
      && (Counts(pc, q, side, Waits) ==> Counts(ts[i].pc, q, side, Waits))
      && room' + Counted(ts[i].pc, q, side, Signals) + Counted(ts[i].pc, q, side, Awake)
         <= room + Counted(pc, q, side, Signals) + Counted(pc, q, side, Awake)
    ensures NoLostWakeup(Moved(ts, i, pc), q, side, room')
  {
    var t := ts[i].(pc := pc);
    TallySet(ts, i, t, q, side, Waits);
    TallySet(ts, i, t, q, side, Awake);
    TallySet(ts, i, t, q, side, Signals);
  }

  /** A thread that neither waits nor is counted on to wake anybody moves freely. */
  lemma UncountedMove(s: State, i: nat, pc: Pc, q: Queue, side: Side)
    requires Wakeups(s) && i < |s.threads|
    requires forall kind :: !Counts(s.threads[i].pc, q, side, kind) && !Counts(pc, q, side, kind)
    ensures NoLostWakeup(Moved(s.threads, i, pc), q, side, RoomIn(s, q, side))
  {
    assert WakeupOk(s, q, side);
    WakeupMoved(s.threads, i, pc, q, side, RoomIn(s, q, side), RoomIn(s, q, side));
  }

  lemma SameRoom(s: State, s': State, q: Queue, side: Side)
    requires Wakeups(s) && Get(s', q) == Get(s, q) && NoLostWakeup(s'.threads, q, side, RoomIn(s, q, side))
    ensures WakeupOk(s', q, side)
  {
    assert WakeupOk(s, q, side);
  }

  // ----- What a step does to the accounts -----

  ghost predicate MutexOk(s: State, q: Queue) {
    Owned(s.threads, q, Get(s, q).owner, q == WorkerQueue && s.controller == HasMutex)
  }

  lemma EachMutex(s: State)
    ensures Mutexes(s) <==> forall q :: MutexOk(s, q)
  {
    hide Owned;
    assert MutexOk(s, ReaderQueue) == Owned(s.threads, ReaderQueue, s.reader.owner, false);
    assert MutexOk(s, WorkerQueue) == Owned(s.threads, WorkerQueue, s.worker.owner, s.controller == HasMutex);
    assert MutexOk(s, WriterQueue) == Owned(s.threads, WriterQueue, s.writer.owner, false);
  }

  /** Thread i goes on in the critical section of q, or into it, or out of it. */
  ghost predicate SectionStep(s: State, s': State, i: nat, q: Queue, pc: Pc) {
    && i < |s.threads| && s' == Goto(Put(s, q, Get(s', q)), i, pc)
    && (forall r :: r != q ==> Get(s', r) == Get(s, r))
    && (forall r :: r != q ==> !Holds(s.threads[i].pc, r) && !Holds(pc, r))
  }

  lemma SectionMutexes(s: State, s': State, i: nat, q: Queue, pc: Pc)
    requires Mutexes(s) && SectionStep(s, s', i, q, pc)
    requires if Holds(s.threads[i].pc, q) then Get(s', q).owner == Free && !Holds(pc, q)
             else Get(s, q).owner == Free && Get(s', q).owner == By(i) && Holds(pc, q)
    ensures Mutexes(s')
  {
    hide Owned, Mutexes, Holds;
    EachMutex(s);
    EachMutex(s');
    forall r ensures MutexOk(s', r) {
      assert MutexOk(s, r);
      var byController := r == WorkerQueue && s.controller == HasMutex;
      if r != q {
        OwnedMoved(s.threads, i, pc, r, Get(s, r).owner, byController);
      } else if Holds(s.threads[i].pc, q) {
        OwnedFree(s, i, q);
        OwnedUnlock(s.threads, i, pc, q, Get(s, q).owner, byController);
      } else {
        NotController(s, q);
        OwnedLock(s.threads, i, pc, q);
      }
    }
  }

  /** A thread in the critical section keeps the controller out. */
  lemma OwnedFree(s: State, i: nat, q: Queue)
    requires MutexOk(s, q) && i < |s.threads| && Holds(s.threads[i].pc, q)
    ensures Get(s, q).owner == By(i) && !(q == WorkerQueue && s.controller == HasMutex)
  {
  }

  lemma NotController(s: State, q: Queue)
    requires MutexOk(s, q) && Get(s, q).owner == Free
    ensures !(q == WorkerQueue && s.controller == HasMutex)
  {
  }

  lemma EverywherePut(job: Job, s: State, q: Queue, qs: QueueState, y: Item)
    ensures Everywhere(job, Put(s, q, qs), y) + Copies(job, q, Get(s, q).items, y)
            == Everywhere(job, s, y) + Copies(job, q, qs.items, y)
  {
    hide Copies, Hands;
  }

  lemma EverywhereGoto(job: Job, s: State, i: nat, pc: Pc, y: Item)
    requires i < |s.threads|
    ensures Everywhere(job, Goto(s, i, pc), y) + Carries(job, s.threads[i], y)
            == Everywhere(job, s, y) + Carries(job, s.threads[i].(pc := pc), y)
  {
    hide Copies, Hands, Carries;
    HandsSet(job, s.threads, i, s.threads[i].(pc := pc), y);
  }

  /** Items move between a queue and a hand. */
  lemma SectionExactlyOnce(job: Job, s: State, s': State, i: nat, q: Queue, pc: Pc, y: Item)
    requires SectionStep(s, s', i, q, pc)
    requires Copies(job, q, Get(s', q).items, y) + Carries(job, s.threads[i].(pc := pc), y)
             == Copies(job, q, Get(s, q).items, y) + Carries(job, s.threads[i], y)
    ensures Everywhere(job, s', y) == Everywhere(job, s, y)
  {
    hide Everywhere, Copies, Carries, Holds;
    EverywherePut(job, s, q, Get(s', q), y);
    EverywhereGoto(job, Put(s, q, Get(s', q)), i, pc, y);
  }

  lemma SectionInv(job: Job, s: State, s': State, i: nat, q: Queue, pc: Pc)
    requires Inv(job, s) && SectionStep(s, s', i, q, pc) && PcOfRole(s.threads[i].role, pc)
    requires !pc.Done? && !pc.Loop? && !s.threads[i].pc.Done? && !s.threads[i].pc.Loop?
    requires Mutexes(s') && Wakeups(s') && forall y: Item :: Everywhere(job, s', y) == Everywhere(job, s, y)
    ensures Inv(job, s')
  {
    hide Mutexes, Wakeups, Everywhere, Copies, Holds, Vector, Cast;
    CastMoved(s.threads, i, pc);
    VectorMoved(s.threads, i, pc, s.consumers, s.controller);
    CountsKept(job, s, i, pc);
    forall y: Item ensures Everywhere(job, s', y) == Copies(job, ReaderQueue, job.input, y) {
      assert Everywhere(job, s, y) == Copies(job, ReaderQueue, job.input, y);
    }
  }

  lemma CountsKept(job: Job, s: State, i: nat, pc: Pc)
    requires Inv(job, s) && i < |s.threads|
    requires !pc.Done? && !pc.Loop? && !s.threads[i].pc.Done? && !s.threads[i].pc.Loop?
    ensures var ts := Moved(s.threads, i, pc);
            6 <= |ts| && LoopCounts(|s.unread|, |job.input| - |s.output|, ts[0].pc, ts[1].pc)
  {
    hide Mutexes, Wakeups, Vector, ExactlyOnce;
  }

  // ----- enqueue -----

  lemma EnqueueSectionStep(s: State, i: nat, q: Queue, phase: Phase, x: Item)
    requires Enabled(s, i) && s.threads[i].pc == Enqueue(q, phase, x)
    ensures var s' := EnqueueStep(s, i, q, phase, x); SectionStep(s, s', i, q, s'.threads[i].pc)
  {
  }

  lemma EnqueueMutexes(s: State, i: nat, q: Queue, phase: Phase, x: Item)
    requires Mutexes(s) && Enabled(s, i) && s.threads[i].pc == Enqueue(q, phase, x)
    ensures Mutexes(EnqueueStep(s, i, q, phase, x))
  {
    hide Mutexes;
    EnqueueSectionStep(s, i, q, phase, x);
    var s' := EnqueueStep(s, i, q, phase, x);
    SectionMutexes(s, s', i, q, s'.threads[i].pc);
  }

  lemma EnqueueWakeup(s: State, i: nat, q: Queue, phase: Phase, x: Item, side: Side)
    requires Wakeups(s) && Enabled(s, i) && s.threads[i].pc == Enqueue(q, phase, x)
    ensures WakeupOk(EnqueueStep(s, i, q, phase, x), q, side)
  {
    var s' := EnqueueStep(s, i, q, phase, x);
    assert WakeupOk(s, q, side) && WakeupOk(s, q, Full);
    WakeupMoved(s.threads, i, s'.threads[i].pc, q, side, RoomIn(s, q, side), RoomIn(s', q, side));
  }

  lemma EnqueueWakeups(s: State, i: nat, q: Queue, phase: Phase, x: Item)
    requires Wakeups(s) && Enabled(s, i) && s.threads[i].pc == Enqueue(q, phase, x)
    ensures Wakeups(EnqueueStep(s, i, q, phase, x))
  {
    var s' := EnqueueStep(s, i, q, phase, x);
    assert s'.threads == Moved(s.threads, i, s'.threads[i].pc);
    forall r: Queue, side: Side ensures WakeupOk(s', r, side) {
      if r == q {
        EnqueueWakeup(s, i, q, phase, x, side);
      } else {
        UncountedMove(s, i, s'.threads[i].pc, r, side);
        SameRoom(s, s', r, side);
      }
    }
  }

  lemma EnqueueExactlyOnce(job: Job, s: State, i: nat, q: Queue, phase: Phase, x: Item, y: Item)
    requires Enabled(s, i) && s.threads[i].pc == Enqueue(q, phase, x)
    ensures Everywhere(job, EnqueueStep(s, i, q, phase, x), y) == Everywhere(job, s, y)
  {
    hide Everywhere, Copies, Finish;
    EnqueueSectionStep(s, i, q, phase, x);
    var s' := EnqueueStep(s, i, q, phase, x);
    CopiesAppend(job, q, Get(s, q).items, x, y);
    SectionExactlyOnce(job, s, s', i, q, s'.threads[i].pc, y);
  }

  lemma EnqueueInv(job: Job, s: State, i: nat, q: Queue, phase: Phase, x: Item)
    requires Inv(job, s) && Enabled(s, i) && s.threads[i].pc == Enqueue(q, phase, x)
    ensures Inv(job, EnqueueStep(s, i, q, phase, x))
  {
    hide Mutexes, Wakeups, Vector, Everywhere, Copies, SectionStep;
    EnqueueSectionStep(s, i, q, phase, x);
    EnqueueMutexes(s, i, q, phase, x);
    EnqueueWakeups(s, i, q, phase, x);
    var s' := EnqueueStep(s, i, q, phase, x);
    forall y: Item ensures Everywhere(job, s', y) == Everywhere(job, s, y) {
      EnqueueExactlyOnce(job, s, i, q, phase, x, y);
    }
    SectionInv(job, s, s', i, q, s'.threads[i].pc);
  }

  // ----- dequeue -----

  lemma DequeueSectionStep(s: State, i: nat, q: Queue, phase: Phase)
    requires Enabled(s, i) && s.threads[i].pc == Dequeue(q, phase)
    ensures var s' := DequeueStep(s, i, q, phase); SectionStep(s, s', i, q, s'.threads[i].pc)
  {
  }

  lemma DequeueMutexes(s: State, i: nat, q: Queue, phase: Phase)
    requires Mutexes(s) && Enabled(s, i) && s.threads[i].pc == Dequeue(q, phase)
    ensures Mutexes(DequeueStep(s, i, q, phase))
  {
    hide Mutexes;
    DequeueSectionStep(s, i, q, phase);
    var s' := DequeueStep(s, i, q, phase);
    SectionMutexes(s, s', i, q, s'.threads[i].pc);
  }

  lemma DequeueWakeup(s: State, i: nat, q: Queue, phase: Phase, side: Side)
    requires Wakeups(s) && Enabled(s, i) && s.threads[i].pc == Dequeue(q, phase)
    ensures WakeupOk(DequeueStep(s, i, q, phase), q, side)
  {
    var s' := DequeueStep(s, i, q, phase);
    assert WakeupOk(s, q, side) && WakeupOk(s, q, Full);
    WakeupMoved(s.threads, i, s'.threads[i].pc, q, side, RoomIn(s, q, side), RoomIn(s', q, side));
  }

  lemma DequeueWakeups(s: State, i: nat, q: Queue, phase: Phase)
    requires Wakeups(s) && Enabled(s, i) && s.threads[i].pc == Dequeue(q, phase)
    ensures Wakeups(DequeueStep(s, i, q, phase))
  {
    var s' := DequeueStep(s, i, q, phase);
    assert s'.threads == Moved(s.threads, i, s'.threads[i].pc);
    forall r: Queue, side: Side ensures WakeupOk(s', r, side) {
      if r == q {
        DequeueWakeup(s, i, q, phase, side);
      } else {
        UncountedMove(s, i, s'.threads[i].pc, r, side);
        SameRoom(s, s', r, side);
      }
    }
  }

  lemma DequeueExactlyOnce(job: Job, s: State, i: nat, q: Queue, phase: Phase, y: Item)
    requires Enabled(s, i) && s.threads[i].pc == Dequeue(q, phase)
    ensures Everywhere(job, DequeueStep(s, i, q, phase), y) == Everywhere(job, s, y)
  {
    hide Everywhere, Copies, Finish;
    DequeueSectionStep(s, i, q, phase);
    var s' := DequeueStep(s, i, q, phase);
    if Get(s, q).items != [] {
      CopiesRest(job, q, Get(s, q).items, y);
    }
    SectionExactlyOnce(job, s, s', i, q, s'.threads[i].pc, y);
  }

  lemma DequeueInv(job: Job, s: State, i: nat, q: Queue, phase: Phase)
    requires Inv(job, s) && Enabled(s, i) && s.threads[i].pc == Dequeue(q, phase)
    ensures Inv(job, DequeueStep(s, i, q, phase))
  {
    hide Mutexes, Wakeups, Vector, Everywhere, Copies, SectionStep;
    DequeueSectionStep(s, i, q, phase);
    DequeueMutexes(s, i, q, phase);
    DequeueWakeups(s, i, q, phase);
    var s' := DequeueStep(s, i, q, phase);
    forall y: Item ensures Everywhere(job, s', y) == Everywhere(job, s, y) {
      DequeueExactlyOnce(job, s, i, q, phase, y);
    }
    SectionInv(job, s, s', i, q, s'.threads[i].pc);
  }

  // ----- Steps that touch no queue -----

  /** Moves between pcs outside the critical sections: all that the invariant asks, given the two counts. */
  lemma MovedInv(job: Job, s: State, i: nat, pc: Pc)
    requires Inv(job, s) && i < |s.threads| && PcOfRole(s.threads[i].role, pc)
    requires forall q :: !Holds(s.threads[i].pc, q) && !Holds(pc, q)
    requires LoopCounts(|s.unread|, |job.input| - |s.output|,
                        Moved(s.threads, i, pc)[0].pc, Moved(s.threads, i, pc)[1].pc)
    requires InHand(job, s.threads[i].(pc := pc)) == InHand(job, s.threads[i])
    requires forall q, side: Side :: NoLostWakeup(Moved(s.threads, i, pc), q, side, RoomIn(s, q, side))
    ensures Inv(job, Goto(s, i, pc))
  {
    var s' := Goto(s, i, pc);
    CastMoved(s.threads, i, pc);
    VectorMoved(s.threads, i, pc, s.consumers, s.controller);
    OwnedMoved(s.threads, i, pc, ReaderQueue, s.reader.owner, false);
    OwnedMoved(s.threads, i, pc, WorkerQueue, s.worker.owner, s.controller == HasMutex);
    OwnedMoved(s.threads, i, pc, WriterQueue, s.writer.owner, false);
    forall q: Queue, side: Side
      ensures WakeupOk(s', q, side)
    {
      assert WakeupOk(s, q, side) && NoLostWakeup(Moved(s.threads, i, pc), q, side, RoomIn(s, q, side));
    }
    forall y: Item ensures Everywhere(job, s', y) == Copies(job, ReaderQueue, job.input, y) {
      assert Everywhere(job, s, y) == Copies(job, ReaderQueue, job.input, y);
      HandsSet(job, s.threads, i, s'.threads[i], y);
    }
  }

  lemma LocalInv(job: Job, s: State, i: nat, j: nat)
    requires Inv(job, s) && Enabled(s, i)
    requires s.threads[i].pc.Loop? || s.threads[i].pc.Enter? || s.threads[i].pc.Transform?
    ensures Inv(job, WorkStep(job, s, i, j))
  {
    var pc := WorkStep(job, s, i, j).threads[i].pc;
    forall q, side: Side {
      UncountedMove(s, i, pc, q, side);
    }
    MovedInv(job, s, i, pc);
  }

  lemma ReadInv(job: Job, s: State, i: nat, j: nat)
    requires Inv(job, s) && Enabled(s, i) && s.threads[i].pc == Read
    ensures Inv(job, WorkStep(job, s, i, j))
  {
    var s' := WorkStep(job, s, i, j);
    var pc := s'.threads[i].pc;
    assert s'.threads == Moved(s.threads, i, pc) && i == 0;
    CastMoved(s.threads, i, pc);
    VectorMoved(s.threads, i, pc, s.consumers, s.controller);
    OwnedMoved(s.threads, i, pc, ReaderQueue, s.reader.owner, false);
    OwnedMoved(s.threads, i, pc, WorkerQueue, s.worker.owner, s.controller == HasMutex);
    OwnedMoved(s.threads, i, pc, WriterQueue, s.writer.owner, false);
    forall q: Queue, side: Side
      ensures WakeupOk(s', q, side)
    {
      UncountedMove(s, i, pc, q, side);
      assert WakeupOk(s, q, side);
    }
    forall y: Item ensures Everywhere(job, s', y) == Copies(job, ReaderQueue, job.input, y) {
      assert Everywhere(job, s, y) == Copies(job, ReaderQueue, job.input, y);
      HandsSet(job, s.threads, i, s'.threads[i], y);
      if s.unread != [] {
        CopiesRest(job, ReaderQueue, s.unread, y);
      }
    }
  }

  lemma WriteInv(job: Job, s: State, i: nat, j: nat)
    requires Inv(job, s) && Enabled(s, i) && s.threads[i].pc.Write?
    ensures Inv(job, WorkStep(job, s, i, j))
  {
    var s' := WorkStep(job, s, i, j);
    assert s'.threads == Moved(s.threads, i, Loop) && i == 1;
    CastMoved(s.threads, i, Loop);
    VectorMoved(s.threads, i, Loop, s.consumers, s.controller);
    OwnedMoved(s.threads, i, Loop, ReaderQueue, s.reader.owner, false);
    OwnedMoved(s.threads, i, Loop, WorkerQueue, s.worker.owner, s.controller == HasMutex);
    OwnedMoved(s.threads, i, Loop, WriterQueue, s.writer.owner, false);
    forall q: Queue, side: Side
      ensures WakeupOk(s', q, side)
    {
      UncountedMove(s, i, Loop, q, side);
      assert WakeupOk(s, q, side);
    }
    forall y: Item ensures Everywhere(job, s', y) == Copies(job, ReaderQueue, job.input, y) {
      assert Everywhere(job, s, y) == Copies(job, ReaderQueue, job.input, y);
      HandsSet(job, s.threads, i, s'.threads[i], y);
      CopiesAppend(job, WriterQueue, s.output, s.threads[i].pc.item, y);
    }
  }

  // ----- Waking up, with or without a signal -----

  function WokenPc(pc: Pc): Pc
    requires pc.Enqueue? || pc.Dequeue?
  {
    if pc.Enqueue? then Enqueue(pc.q, Woken, pc.item) else Dequeue(pc.q, Woken)
  }

  lemma WakeInv(job: Job, s: State, j: nat, q: Queue, side: Side)
    requires Inv(job, s) && IsWaiting(s, j, q, side)
    ensures Inv(job, Goto(s, j, WokenPc(s.threads[j].pc)))
  {
    var pc := WokenPc(s.threads[j].pc);
    forall r: Queue, sd: Side
      ensures NoLostWakeup(Moved(s.threads, j, pc), r, sd, RoomIn(s, r, sd))
    {
      assert WakeupOk(s, r, sd);
      WakeupMoved(s.threads, j, pc, r, sd, RoomIn(s, r, sd), RoomIn(s, r, sd));
    }
    MovedInv(job, s, j, pc);
  }

  /** A signal pays for itself: it wakes a waiter, or there is nobody left to lose it. */
  lemma SignalWakeup(s: State, i: nat, j: nat, q: Queue, wakes: Side, pc: Pc, r: Queue, side: Side)
    requires Wakeups(s) && WakesOne(s, j, q, wakes) && i < |s.threads|
    requires Counts(s.threads[i].pc, q, wakes, Signals)
    requires forall r, side: Side, kind :: !Counts(pc, r, side, kind)
    ensures NoLostWakeup(Moved(Wake(s, j, q, wakes).threads, i, pc), r, side, RoomIn(s, r, side))
  {
    hide NoLostWakeup, Wake;
    assert WakeupOk(s, r, side);
    var room := RoomIn(s, r, side);
    var spare := if r == q && side == wakes then room + 1 else room;
    var ts := Wake(s, j, q, wakes).threads;
    WakeMoves(s, j, q, wakes);
    if IsWaiting(s, j, q, wakes) {
      WakeupMoved(s.threads, j, WokenPc(s.threads[j].pc), r, side, room, spare);
    } else {
      NobodyWaits(s, j, q, wakes);
    }
    WakeupMoved(ts, i, pc, r, side, spare, room);
  }

  lemma WakeMoves(s: State, j: nat, q: Queue, side: Side)
    ensures Wake(s, j, q, side).threads ==
            if IsWaiting(s, j, q, side) then Moved(s.threads, j, WokenPc(s.threads[j].pc)) else s.threads
  {
  }

  lemma NobodyWaits(s: State, j: nat, q: Queue, side: Side)
    requires WakesOne(s, j, q, side) && !IsWaiting(s, j, q, side)
    ensures forall room :: NoLostWakeup(s.threads, q, side, room)
  {
    forall k | 0 <= k < |s.threads| ensures !Counts(s.threads[k].pc, q, side, Waits) {
      assert !IsWaiting(s, k, q, side);
    }
    TallyNone(s.threads, q, side, Waits);
  }

  lemma SignalMoved(job: Job, s: State, s0: State, i: nat, j: nat, q: Queue, wakes: Side, pc: Pc)
    requires Inv(job, s) && Inv(job, s0) && WakesOne(s, j, q, wakes) && i < |s.threads|
    requires s0 == Wake(s, j, q, wakes) && s0.threads[i] == s.threads[i]
    requires forall r :: Get(s0, r) == Get(s, r)
    requires Counts(s.threads[i].pc, q, wakes, Signals)
    requires PcOfRole(s.threads[i].role, pc) && (pc.Enqueue? || pc.Dequeue? ==> pc.phase == Lock)
    requires !pc.Done? && (i == 1 ==> !pc.Loop?) && !pc.EnqueueSignal? && !pc.DequeueSignal?
    requires InHand(job, s.threads[i].(pc := pc)) == InHand(job, s.threads[i])
    ensures Inv(job, Goto(s0, i, pc))
  {
    forall r: Queue, side: Side
      ensures NoLostWakeup(Moved(s0.threads, i, pc), r, side, RoomIn(s0, r, side))
    {
      SignalWakeup(s, i, j, q, wakes, pc, r, side);
    }
    MovedInv(job, s0, i, pc);
  }

  lemma WokenInv(job: Job, s: State, j: nat, q: Queue, side: Side)
    requires Inv(job, s)
    ensures Inv(job, Wake(s, j, q, side))
    ensures forall r :: Get(Wake(s, j, q, side), r) == Get(s, r)
  {
    if IsWaiting(s, j, q, side) {
      WakeInv(job, s, j, q, side);
    }
  }

  lemma EnqueueSignalInv(job: Job, s: State, i: nat, j: nat, q: Queue)
    requires Inv(job, s) && i < |s.threads| && s.threads[i].pc == EnqueueSignal(q) && WakesOne(s, j, q, Empty)
    ensures Inv(job, Goto(Wake(s, j, q, Empty), i, AfterEnqueue(s.threads[i].role)))
  {
    WokenInv(job, s, j, q, Empty);
    SignalMoved(job, s, Wake(s, j, q, Empty), i, j, q, Empty, AfterEnqueue(s.threads[i].role));
  }

  lemma DequeueSignalInv(job: Job, s: State, i: nat, j: nat, q: Queue, x: Item)
    requires Inv(job, s) && i < |s.threads| && s.threads[i].pc == DequeueSignal(q, x) && WakesOne(s, j, q, Full)
    ensures Inv(job, Goto(Wake(s, j, q, Full), i, AfterDequeue(s.threads[i].role, x)))
  {
    WokenInv(job, s, j, q, Full);
    SignalMoved(job, s, Wake(s, j, q, Full), i, j, q, Full, AfterDequeue(s.threads[i].role, x));
  }

  // ----- The controller -----

  lemma ScaleUpInv(job: Job, s: State, size: nat)
    requires Inv(job, s) && s.controller == Scale(size)
    ensures Inv(job, ScaleUp(s, size))
  {
    if size > HIGH_THRESHOLD {
      var t := Thread(Consumer(false), Loop);
      var s' := ScaleUp(s, size);
      forall q: Queue, side: Side
        ensures WakeupOk(s', q, side)
      {
        assert WakeupOk(s, q, side);
        TallySpawn(s.threads, t, q, side, Waits);
        TallySpawn(s.threads, t, q, side, Awake);
        TallySpawn(s.threads, t, q, side, Signals);
      }
      forall y: Item ensures Everywhere(job, s', y) == Copies(job, ReaderQueue, job.input, y) {
        assert Everywhere(job, s, y) == Copies(job, ReaderQueue, job.input, y);
        HandsSpawn(job, s.threads, t, y);
      }
      VectorSpawned(s);
    }
  }

  lemma VectorSpawned(s: State)
    requires Cast(s.threads) && Vector(s.threads, s.consumers, s.controller)
    ensures Vector(s.threads + [Thread(Consumer(false), Loop)], s.consumers + [|s.threads|], s.controller)
  {
    var ts := s.threads + [Thread(Consumer(false), Loop)];
    var cs := s.consumers + [|s.threads|];
    forall i | 0 <= i < |ts| && ts[i].role == Consumer(false) ensures i in cs {
      if i == |s.threads| {
        assert cs[|cs| - 1] == i;
      } else {
        assert i in s.consumers;
      }
    }
  }

  lemma ScaleDownInv(job: Job, s: State, size: nat)
    requires Inv(job, s) && s.controller == Scale(size)
    ensures Inv(job, ScaleDown(s, size))
  {
    var s' := ScaleDown(s, size);
    if s'.controller.Joining? {
      CancelInv(job, s, s'.controller.i);
    } else {
      SameWakeups(s, s');
      assert forall y :: Everywhere(job, s', y) == Everywhere(job, s, y);
    }
  }

  lemma CancelInv(job: Job, s: State, k: nat)
    requires Inv(job, s) && s.controller.Scale?
    requires |s.consumers| > 1 && s.consumers[|s.consumers| - 1] == k && k < |s.threads|
    ensures Inv(job, s.(consumers := s.consumers[..|s.consumers| - 1],
                        threads := s.threads[k := s.threads[k].(role := Consumer(true))],
                        controller := Joining(k)))
  {
    var t := s.threads[k].(role := Consumer(true));
    var s' := s.(consumers := s.consumers[..|s.consumers| - 1], threads := s.threads[k := t], controller := Joining(k));
    VectorPopped(s, k);
    forall q: Queue, side: Side ensures WakeupOk(s', q, side) {
      assert WakeupOk(s, q, side);
      TallySet(s.threads, k, t, q, side, Waits);
      TallySet(s.threads, k, t, q, side, Awake);
      TallySet(s.threads, k, t, q, side, Signals);
    }
    forall y: Item ensures Everywhere(job, s', y) == Copies(job, ReaderQueue, job.input, y) {
      assert Everywhere(job, s, y) == Copies(job, ReaderQueue, job.input, y);
      HandsSet(job, s.threads, k, t, y);
    }
  }

  lemma SameWakeups(s: State, s': State)
    requires Wakeups(s) && s'.threads == s.threads
    requires s'.reader.items == s.reader.items && s'.worker.items == s.worker.items && s'.writer.items == s.writer.items
    ensures Wakeups(s')
  {
    forall q: Queue, side: Side ensures WakeupOk(s', q, side) {
      assert WakeupOk(s, q, side);
    }
  }

  lemma VectorPopped(s: State, k: nat)
    requires Cast(s.threads) && Vector(s.threads, s.consumers, s.controller)
    requires |s.consumers| > 1 && s.consumers[|s.consumers| - 1] == k
    ensures k < |s.threads|
    ensures Vector(s.threads[k := s.threads[k].(role := Consumer(true))],
                   s.consumers[..|s.consumers| - 1], Joining(k))
  {
    var ts := s.threads[k := s.threads[k].(role := Consumer(true))];
    var cs := s.consumers[..|s.consumers| - 1];
    forall i | 0 <= i < |ts| && ts[i].role == Consumer(false) ensures i in cs {
      var l :| 0 <= l < |s.consumers| && s.consumers[l] == i;
      assert cs[l] == i;
    }
  }

  lemma ControlInv(job: Job, s: State)
    requires Inv(job, s) && Can(job, s, Control)
    ensures Inv(job, ControlStep(s))
  {
    if s.controller.Scale? {
      ScaleUpInv(job, s, s.controller.size);
      ScaleDownInv(job, ScaleUp(s, s.controller.size), s.controller.size);
    } else {
      var s' := ControlStep(s);
      assert forall q :: Get(s', q).items == Get(s, q).items;
      forall q: Queue, side: Side
        ensures WakeupOk(s', q, side)
      {
        assert WakeupOk(s, q, side);
      }
      assert forall y :: Everywhere(job, s', y) == Everywhere(job, s, y);
      assert WakeupOk(s, WorkerQueue, Full);
    }
  }

  // ----- Every step -----

  lemma WorkInv(job: Job, s: State, i: nat, j: nat)
    requires Inv(job, s) && Can(job, s, Work(i, j))
    ensures Inv(job, WorkStep(job, s, i, j))
  {
    match s.threads[i].pc
    case Read => ReadInv(job, s, i, j);
    case Write(_) => WriteInv(job, s, i, j);
    case Enqueue(q, phase, x) => EnqueueInv(job, s, i, q, phase, x);
    case Dequeue(q, phase) => DequeueInv(job, s, i, q, phase);
    case EnqueueSignal(q) => EnqueueSignalInv(job, s, i, j, q);
    case DequeueSignal(q, x) => DequeueSignalInv(job, s, i, j, q, x);
    case _ => LocalInv(job, s, i, j);
  }

  lemma StepInv(job: Job, s: State, a: Action)
    requires Inv(job, s) && Can(job, s, a)
    ensures Inv(job, Do(job, s, a))
  {
    match a
    case Work(i, j) => WorkInv(job, s, i, j);
    case Control => ControlInv(job, s);
    case Spurious(i) =>
      var q, side :| IsWaiting(s, i, q, side);
      WakeInv(job, s, i, q, side);
    case Cancelled(i) =>
      forall q, side: Side {
        UncountedMove(s, i, Done, q, side);
      }
      MovedInv(job, s, i, Done);
  }

  lemma InitInv(job: Job)
    ensures Inv(job, Init(job))
  {
    var s := Init(job);
    forall q: Queue, side: Side ensures WakeupOk(s, q, side) {
      TallyNone(s.threads, q, side, Waits);
    }
    forall y: Item ensures Everywhere(job, s, y) == Copies(job, ReaderQueue, job.input, y) {
      HandsNone(job, s.threads, y);
    }
  }

  lemma {:induction false} RunInv(job: Job, s: State, run: seq<Action>)
    requires Inv(job, s) && Legal(job, s, run)
    ensures Inv(job, After(job, s, run))
    decreases |run|
  {
    if run != [] {
      StepInv(job, s, run[0]);
      RunInv(job, Do(job, s, run[0]), run[1..]);
    }
  }

  /** The invariant holds in every state the pipeline can get into. */
  lemma ReachableInv(job: Job, s: State)
    requires Reachable(job, s)
    ensures Inv(job, s)
  {
    var run :| Legal(job, Init(job), run) && s == After(job, Init(job), run);
    InitInv(job);
    RunInv(job, Init(job), run);
  }
}
