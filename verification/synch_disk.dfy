/**
 filesys/synchdisk.cc on machine/disk.cc and threads/synch.cc: threads share a disk that takes one
 request at a time and interrupts when it is done. The lock keeps requests apart, the semaphore
 waits for the interrupt. Threads and interrupts interleave in any way.
 */
module SynchDisks {
  import opened Sums
  import opened Semaphores

  /** Requests are numbered in the order the disk gets them. */
  datatype Pc =
    | Idle
    | Acquiring(woken: bool)            // in the lock's P, about to test
    | OnLock                            // in the lock's P, asleep
    | Entered                           // through P, lockHolder not yet set
    | Requesting                        // about to call Disk::ReadRequest or WriteRequest
    | AtSem(woken: bool, request: nat)  // in the semaphore's P, about to test
    | OnSem(request: nat)               // in the semaphore's P, asleep
    | Leaving(request: nat)             // in Release, about to clear lockHolder
    | Unlocking(request: nat)           // in Release, about to V the lock

  datatype Holder = Nobody | By(i: nat)

  /** `pending` counts the disk interrupts that are scheduled, `issued` and `completed` the requests. */
  datatype State = State(
    lock: Sem,
    holder: Holder,
    semaphore: Sem,
    active: bool,
    pending: nat,
    issued: nat,
    completed: nat,
    threads: seq<Pc>)

  datatype Action =
    | Call(i: nat)    // thread i calls ReadSector or WriteSector
    | Work(i: nat)    // thread i goes on with its call
    | Interrupt       // Disk::CallBack, and from it SynchDisk::CallBack

  function Init(threads: nat): State {
    State(Sem(1, []), Nobody, Sem(0, []), false, 0, 0, 0, seq(threads, _ => Idle))
  }

  predicate Enabled(s: State, i: nat) {
    i < |s.threads| && !s.threads[i].Idle? && !s.threads[i].OnLock? && !s.threads[i].OnSem?
  }

  predicate Can(s: State, a: Action) {
    match a
    case Call(i) => i < |s.threads| && s.threads[i].Idle?
    case Work(i) => Enabled(s, i)
    case Interrupt => s.pending > 0
  }

  function Goto(s: State, i: nat, pc: Pc): State
    requires i < |s.threads|
  {
    s.(threads := s.threads[i := pc])
  }

  /** A thread taken off the queue of the lock or of the semaphore. */
  function Roused(pc: Pc): Pc {
    match pc
    case OnLock => Acquiring(true)
    case OnSem(r) => AtSem(true, r)
    case _ => pc
  }

  function Wake(ts: seq<Pc>, queue: seq<nat>): seq<Pc> {
    if queue == [] || queue[0] >= |ts| then ts else ts[queue[0] := Roused(ts[queue[0]])]
  }

  function WorkStep(s: State, i: nat): State
    requires i < |s.threads|
  {
    match s.threads[i]
    case Acquiring(_) =>
      if s.lock.value > 0 then Goto(s.(lock := Taken(s.lock)), i, Entered)
      else Goto(s.(lock := Joined(s.lock, i)), i, OnLock)
    case Entered => Goto(s.(holder := By(i)), i, Requesting)
    case Requesting =>
      if s.active then s
      else Goto(s.(active := true, pending := s.pending + 1, issued := s.issued + 1), i, AtSem(false, s.issued))
    case AtSem(_, r) =>
      if s.semaphore.value > 0 then Goto(s.(semaphore := Taken(s.semaphore)), i, Leaving(r))
      else Goto(s.(semaphore := Joined(s.semaphore, i)), i, OnSem(r))
    case Leaving(r) => Goto(s.(holder := Nobody), i, Unlocking(r))
    case Unlocking(_) => s.(lock := Given(s.lock), threads := Wake(s.threads[i := Idle], s.lock.queue))
    case _ => s
  }

  function InterruptStep(s: State): State
    requires s.pending > 0
  {
    s.(pending := s.pending - 1, active := false, completed := s.completed + 1,
       semaphore := Given(s.semaphore), threads := Wake(s.threads, s.semaphore.queue))
  }

  function Do(s: State, a: Action): State
    requires Can(s, a)
  {
    match a
    case Call(i) => Goto(s, i, Acquiring(false))
    case Work(i) => WorkStep(s, i)
    case Interrupt => InterruptStep(s)
  }

  predicate Legal(s: State, run: seq<Action>)
    decreases |run|
  {
    run == [] || (Can(s, run[0]) && Legal(Do(s, run[0]), run[1..]))
  }

  function After(s: State, run: seq<Action>): State
    requires Legal(s, run)
    decreases |run|
  {
    if run == [] then s else After(Do(s, run[0]), run[1..])
  }

  ghost predicate Reachable(s: State) {
    exists threads, run :: Legal(Init(threads), run) && s == After(Init(threads), run)
  }

  // ----- The invariant -----

  function LockUse(pc: Pc): Use {
    match pc
    case Idle => Away
    case Acquiring(woken) => Testing(woken)
    case OnLock => Queued
    case _ => Through
  }

  function SemUse(pc: Pc): Use {
    match pc
    case AtSem(woken, _) => Testing(woken)
    case OnSem(_) => Queued
    case _ => Away
  }

  predicate Holds(pc: Pc) {
    pc.Requesting? || pc.AtSem? || pc.OnSem? || pc.Leaving?
  }

  ghost predicate HolderOk(holder: Holder, ts: seq<Pc>) {
    forall i: nat :: i < |ts| ==> (holder == By(i) <==> Holds(ts[i]))
  }

  function InFlight(pc: Pc): nat {
    if pc.AtSem? || pc.OnSem? then 1 else 0
  }

  /** A thread waits for the newest request, and leaves with one that is completed. */
  predicate RequestOk(pc: Pc, issued: nat, completed: nat) {
    && (pc.AtSem? || pc.OnSem? ==> pc.request + 1 == issued)
    && (pc.Leaving? || pc.Unlocking? ==> pc.request < completed)
  }

  ghost predicate Requests(ts: seq<Pc>, issued: nat, completed: nat) {
    forall i :: 0 <= i < |ts| ==> RequestOk(ts[i], issued, completed)
  }

  ghost predicate Inv(s: State) {
    && LockOk(s.lock, s.threads, LockUse)
    && HolderOk(s.holder, s.threads)
    && SemOk(s.semaphore, s.threads, SemUse)
    && Sum(s.threads, InFlight) == s.pending + s.semaphore.value
    && (s.active <==> s.pending == 1)
    && s.issued == s.completed + s.pending
    && Requests(s.threads, s.issued, s.completed)
  }

  // ----- One thread inside -----

  lemma OnlyInside(lock: Sem, ts: seq<Pc>, i: nat, j: nat)
    requires LockOk(lock, ts, LockUse) && i < |ts| && j < |ts| && i != j && LockUse(ts[i]) == Through
    ensures LockUse(ts[j]) != Through
  {
    if LockUse(ts[j]) == Through {
      OneHolder(lock, ts, LockUse, i, j);
    }
  }

  lemma {:induction false} FlightsInside(ts: seq<Pc>)
    ensures Sum(ts, InFlight) <= Sum(ts, Is(LockUse, Through))
  {
    if ts != [] {
      assert LockUse(ts[0]) == Through || InFlight(ts[0]) == 0;
      FlightsInside(ts[1..]);
    }
  }

  lemma NoOtherFlight(lock: Sem, ts: seq<Pc>, i: nat)
    requires LockOk(lock, ts, LockUse) && i < |ts| && LockUse(ts[i]) == Through && InFlight(ts[i]) == 0
    ensures Sum(ts, InFlight) == 0
  {
    forall j | 0 <= j < |ts| ensures InFlight(ts[j]) == 0 {
      if j != i {
        OnlyInside(lock, ts, i, j);
      }
    }
    SumZero(ts, InFlight);
  }

  lemma HolderKept(holder: Holder, ts: seq<Pc>, i: nat, t: Pc)
    requires HolderOk(holder, ts) && i < |ts| && Holds(t) == Holds(ts[i])
    ensures HolderOk(holder, ts[i := t])
  {
  }

  lemma HolderSet(lock: Sem, ts: seq<Pc>, i: nat, t: Pc)
    requires LockOk(lock, ts, LockUse) && i < |ts| && LockUse(ts[i]) == Through
    ensures HolderOk(if Holds(t) then By(i) else Nobody, ts[i := t])
  {
    forall j: nat | j < |ts| && j != i ensures !Holds(ts[j]) {
      OnlyInside(lock, ts, i, j);
    }
  }

  /** Other threads have no request of their own while this one is inside. */
  lemma RequestsOfHolder(lock: Sem, ts: seq<Pc>, i: nat, t: Pc, issued: nat, completed: nat)
    requires LockOk(lock, ts, LockUse) && i < |ts| && LockUse(ts[i]) == Through && RequestOk(t, issued, completed)
    ensures Requests(ts[i := t], issued, completed)
  {
    forall j | 0 <= j < |ts| && j != i ensures RequestOk(ts[j], issued, completed) {
      OnlyInside(lock, ts, i, j);
    }
  }

  // ----- Every step keeps the invariant -----

  lemma CallInv(s: State, i: nat)
    requires Inv(s) && Can(s, Call(i))
    ensures Inv(Do(s, Call(i)))
  {
    LockElsewhere(s.lock, s.threads, i, Acquiring(false), LockUse);
    Elsewhere(s.semaphore, s.threads, i, Acquiring(false), SemUse);
    SumUpdate(s.threads, i, Acquiring(false), InFlight);
  }

  lemma AcquireInv(s: State, i: nat)
    requires Inv(s) && Enabled(s, i) && s.threads[i].Acquiring?
    ensures Inv(WorkStep(s, i))
  {
    hide LockOk, SemOk, HolderOk, Requests;
    var t := WorkStep(s, i).threads[i];
    if s.lock.value > 0 {
      LockPasses(s.lock, s.threads, i, t, LockUse);
    } else {
      LockSleeps(s.lock, s.threads, i, t, LockUse);
    }
    Elsewhere(s.semaphore, s.threads, i, t, SemUse);
    SumUpdate(s.threads, i, t, InFlight);
    HolderKept(s.holder, s.threads, i, t);
    RequestsKept(s.threads, i, t, s.issued, s.completed);
  }

  lemma RequestsKept(ts: seq<Pc>, i: nat, t: Pc, issued: nat, completed: nat)
    requires Requests(ts, issued, completed) && i < |ts| && RequestOk(t, issued, completed)
    ensures Requests(ts[i := t], issued, completed)
  {
  }

  lemma EnterInv(s: State, i: nat)
    requires Inv(s) && Enabled(s, i) && s.threads[i].Entered?
    ensures Inv(WorkStep(s, i))
  {
    hide LockOk, SemOk, HolderOk, Requests;
    LockElsewhere(s.lock, s.threads, i, Requesting, LockUse);
    Elsewhere(s.semaphore, s.threads, i, Requesting, SemUse);
    SumUpdate(s.threads, i, Requesting, InFlight);
    HolderSet(s.lock, s.threads, i, Requesting);
    RequestsKept(s.threads, i, Requesting, s.issued, s.completed);
  }

  /** The disk is idle when it gets a request. */
  lemma RequestInv(s: State, i: nat)
    requires Inv(s) && Enabled(s, i) && s.threads[i].Requesting?
    ensures !s.active && Inv(WorkStep(s, i))
  {
    hide LockOk, SemOk, HolderOk, Requests;
    NoOtherFlight(s.lock, s.threads, i);
    var t := AtSem(false, s.issued);
    LockElsewhere(s.lock, s.threads, i, t, LockUse);
    Elsewhere(s.semaphore, s.threads, i, t, SemUse);
    SumUpdate(s.threads, i, t, InFlight);
    HolderKept(s.holder, s.threads, i, t);
    RequestsOfHolder(s.lock, s.threads, i, t, s.issued + 1, s.completed);
  }

  lemma OneFlight(lock: Sem, ts: seq<Pc>)
    requires LockOk(lock, ts, LockUse)
    ensures Sum(ts, InFlight) <= 1
  {
    FlightsInside(ts);
  }

  lemma RequestOf(s: State, i: nat)
    requires Inv(s) && i < |s.threads|
    ensures RequestOk(s.threads[i], s.issued, s.completed)
  {
  }

  lemma WaitInv(s: State, i: nat)
    requires Inv(s) && Enabled(s, i) && s.threads[i].AtSem?
    ensures Inv(WorkStep(s, i))
  {
    hide LockOk, SemOk, HolderOk, Requests;
    var t := WorkStep(s, i).threads[i];
    OneFlight(s.lock, s.threads);
    RequestOf(s, i);
    LockElsewhere(s.lock, s.threads, i, t, LockUse);
    if s.semaphore.value > 0 {
      TestPasses(s.semaphore, s.threads, i, t, SemUse);
    } else {
      TestSleeps(s.semaphore, s.threads, i, t, SemUse);
    }
    SumUpdate(s.threads, i, t, InFlight);
    HolderKept(s.holder, s.threads, i, t);
    RequestsKept(s.threads, i, t, s.issued, s.completed);
  }

  lemma LeaveInv(s: State, i: nat)
    requires Inv(s) && Enabled(s, i) && s.threads[i].Leaving?
    ensures Inv(WorkStep(s, i))
  {
    hide LockOk, SemOk, HolderOk, Requests;
    var t := WorkStep(s, i).threads[i];
    RequestOf(s, i);
    LockElsewhere(s.lock, s.threads, i, t, LockUse);
    Elsewhere(s.semaphore, s.threads, i, t, SemUse);
    SumUpdate(s.threads, i, t, InFlight);
    HolderSet(s.lock, s.threads, i, t);
    RequestsKept(s.threads, i, t, s.issued, s.completed);
  }

  lemma FirstInQueue(queue: seq<nat>, ts: seq<Pc>, use: Pc -> Use)
    requires QueueExact(queue, ts, use) && queue != []
    ensures queue[0] < |ts| && use(ts[queue[0]]) == Queued
  {
  }

  /** What does not concern the two semaphores. */
  ghost predicate RestOk(s: State, ts: seq<Pc>, issued: nat, completed: nat) {
    HolderOk(s.holder, ts) && Sum(ts, InFlight) == Sum(s.threads, InFlight) && Requests(ts, issued, completed)
  }

  lemma RestKept(s: State, ts: seq<Pc>, i: nat, t: Pc, issued: nat, completed: nat)
    requires RestOk(s, ts, issued, completed) && i < |ts|
    requires Holds(t) == Holds(ts[i]) && InFlight(t) == InFlight(ts[i])
    requires RequestOk(ts[i], issued, completed) ==> RequestOk(t, issued, completed)
    ensures RestOk(s, ts[i := t], issued, completed)
  {
    SumUpdate(ts, i, t, InFlight);
  }

  lemma UnlockInv(s: State, i: nat)
    requires Inv(s) && Enabled(s, i) && s.threads[i].Unlocking?
    ensures Inv(WorkStep(s, i))
  {
    hide SemOk, HolderOk, Requests, RestOk, NoneLost, QueueExact;
    var ts := s.threads[i := Idle];
    RestIsOk(s);
    RestKept(s, s.threads, i, Idle, s.issued, s.completed);
    Elsewhere(s.semaphore, s.threads, i, Idle, SemUse);
    if s.lock.queue == [] {
      Unlocks(s.lock, s.threads, i, Idle, Idle, LockUse);
    } else {
      OnTheLock(s.lock, s.threads);
      var j := s.lock.queue[0];
      assert s.threads[j].OnLock? && j != i;
      Unlocks(s.lock, s.threads, i, Idle, Acquiring(true), LockUse);
      Elsewhere(s.semaphore, ts, j, Acquiring(true), SemUse);
      RestKept(s, ts, j, Acquiring(true), s.issued, s.completed);
    }
    RestMakesInv(s, WorkStep(s, i));
  }

  lemma OnTheLock(lock: Sem, ts: seq<Pc>)
    requires LockOk(lock, ts, LockUse) && lock.queue != []
    ensures lock.queue[0] < |ts| && ts[lock.queue[0]].OnLock?
  {
    FirstInQueue(lock.queue, ts, LockUse);
  }

  lemma RestIsOk(s: State)
    requires Inv(s)
    ensures RestOk(s, s.threads, s.issued, s.completed)
  {
  }

  lemma RestMakesInv(s: State, s': State)
    requires Inv(s) && RestOk(s, s'.threads, s.issued, s.completed)
    requires s' == s.(lock := s'.lock, threads := s'.threads)
    requires LockOk(s'.lock, s'.threads, LockUse) && SemOk(s'.semaphore, s'.threads, SemUse)
    ensures Inv(s')
  {
  }

  lemma InterruptInv(s: State)
    requires Inv(s) && s.pending > 0
    ensures Inv(InterruptStep(s))
  {
    hide LockOk, HolderOk, Requests, NoneLost, QueueExact;
    var ts := s.threads;
    OneFlight(s.lock, ts);
    RequestsCompleted(s);
    if s.semaphore.queue == [] {
      GiveStores(s.semaphore, ts, SemUse);
    } else {
      FirstInQueue(s.semaphore.queue, ts, SemUse);
      var j := s.semaphore.queue[0];
      var t := Roused(ts[j]);
      GiveWakes(s.semaphore, ts, t, SemUse);
      LockElsewhere(s.lock, ts, j, t, LockUse);
      HolderKept(s.holder, ts, j, t);
      SumUpdate(ts, j, t, InFlight);
      RequestOf(s, j);
      RequestsKept(ts, j, t, s.issued, s.completed + 1);
    }
  }

  lemma RequestsCompleted(s: State)
    requires Inv(s)
    ensures Requests(s.threads, s.issued, s.completed + 1)
  {
  }

  lemma StepInv(s: State, a: Action)
    requires Inv(s) && Can(s, a)
    ensures Inv(Do(s, a))
  {
    hide Inv, WorkStep, InterruptStep;
    match a
    case Call(i) => CallInv(s, i);
    case Interrupt => InterruptInv(s);
    case Work(i) =>
      match s.threads[i] {
        case Acquiring(_) => AcquireInv(s, i);
        case Entered => EnterInv(s, i);
        case Requesting => RequestInv(s, i);
        case AtSem(_, _) => WaitInv(s, i);
        case Leaving(_) => LeaveInv(s, i);
        case Unlocking(_) => UnlockInv(s, i);
      }
  }

  lemma InitLock(threads: nat)
    ensures LockOk(Init(threads).lock, Init(threads).threads, LockUse)
  {
    var ts := Init(threads).threads;
    forall i | 0 <= i < threads ensures Is(LockUse, Through)(ts[i]) == 0 {
      assert LockUse(ts[i]) == Away;
    }
    SumZero(ts, Is(LockUse, Through));
  }

  lemma InitInv(threads: nat)
    ensures Inv(Init(threads))
  {
    hide LockOk;
    InitLock(threads);
    SumZero(Init(threads).threads, InFlight);
  }

  lemma {:induction false} RunInv(s: State, run: seq<Action>)
    requires Inv(s) && Legal(s, run)
    ensures Inv(After(s, run))
    decreases |run|
  {
    hide Inv;
    if run != [] {
      StepInv(s, run[0]);
      RunInv(Do(s, run[0]), run[1..]);
    }
  }

  lemma ReachableInv(s: State)
    requires Reachable(s)
    ensures Inv(s)
  {
    var threads, run :| Legal(Init(threads), run) && s == After(Init(threads), run);
    InitInv(threads);
    RunInv(Init(threads), run);
  }

  // ----- What the protocol promises, over every run of any number of threads -----

  /** The disk's ASSERT(!active) and the lock's ASSERT(IsHeldByCurrentThread()) never fail. */
  lemma AssertionsHold(s: State, i: nat)
    requires Reachable(s) && i < |s.threads|
    ensures s.threads[i].Requesting? ==> !s.active
    ensures Holds(s.threads[i]) ==> s.holder == By(i)
  {
    ReachableInv(s);
    if s.threads[i].Requesting? {
      RequestInv(s, i);
    }
  }

  /** The disk is active just while exactly one interrupt of its is scheduled; the semaphore never exceeds 1. */
  lemma ActiveMeansPending(s: State)
    requires Reachable(s)
    ensures s.active <==> s.pending == 1
    ensures s.pending + s.semaphore.value <= 1
    ensures s.issued == s.completed + s.pending
  {
    ReachableInv(s);
    OneFlight(s.lock, s.threads);
  }

  /** Whoever leaves ReadSector or WriteSector leaves with its own request completed. */
  lemma OwnRequestCompleted(s: State, i: nat)
    requires Reachable(s) && i < |s.threads|
    ensures s.threads[i].Leaving? || s.threads[i].Unlocking? ==> s.threads[i].request < s.completed
    ensures s.threads[i].AtSem? || s.threads[i].OnSem? ==> s.threads[i].request == s.issued - 1
  {
    ReachableInv(s);
  }

  /** If no thread can go on and no interrupt is scheduled, every call has returned. */
  lemma QuietMeansDone(s: State, i: nat)
    requires Reachable(s) && s.pending == 0 && i < |s.threads|
    requires forall k :: 0 <= k < |s.threads| ==> !Enabled(s, k)
    ensures s.threads[i].Idle?
  {
    ReachableInv(s);
    forall k | 0 <= k < |s.threads| ensures s.threads[k].Idle? || s.threads[k].OnLock? || s.threads[k].OnSem? {
      assert !Enabled(s, k);
    }
    NoneOnSem(s);
    forall k | 0 <= k < |s.threads| ensures LockUse(s.threads[k]) != Through {
      assert !s.threads[k].OnSem?;
    }
    NobodyInside(s.lock, s.threads, LockUse);
    if s.threads[i].OnLock? {
      assert i in s.lock.queue;
      var k := SomeoneGetsThrough(s.lock, s.threads, LockUse);
    }
  }

  lemma NoneOnSem(s: State)
    requires Inv(s) && s.pending == 0
    requires forall k :: 0 <= k < |s.threads| ==> s.threads[k].Idle? || s.threads[k].OnLock? || s.threads[k].OnSem?
    ensures forall k :: 0 <= k < |s.threads| ==> !s.threads[k].OnSem?
  {
    forall k: nat | k < |s.threads| ensures !s.threads[k].OnSem? {
      SumAtLeast(s.threads, k, InFlight);
      if s.threads[k].OnSem? {
        assert k in s.semaphore.queue;
        var j := SomeoneGetsThrough(s.semaphore, s.threads, SemUse);
      }
    }
  }
}
