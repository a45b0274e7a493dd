/** Every step of a shared list keeps the invariant of module SynchLists. */
module SynchListSteps {
  import opened Sums
  import opened Semaphores
  import opened SynchLists

  // ----- The holder of the lock -----

  lemma OnlyInside<T>(lock: Sem, ts: seq<Thread<T>>, i: nat, j: nat)
    requires LockOk(lock, ts, LockUse) && i < |ts| && j < |ts| && i != j && LockUse(ts[i]) == Through
    ensures LockUse(ts[j]) != Through && !Holds(ts[j].pc) && !ts[j].pc.Parking? && !ts[j].pc.Taking?
  {
    if LockUse(ts[j]) == Through {
      OneHolder(lock, ts, LockUse, i, j);
    }
  }

  lemma HolderKept<T>(holder: Holder, ts: seq<Thread<T>>, i: nat, t: Thread<T>)
    requires HolderOk(holder, ts) && i < |ts| && Holds(t.pc) == Holds(ts[i].pc)
    ensures HolderOk(holder, ts[i := t])
  {
  }

  lemma HolderSet<T>(lock: Sem, ts: seq<Thread<T>>, i: nat, t: Thread<T>)
    requires LockOk(lock, ts, LockUse) && i < |ts| && LockUse(ts[i]) == Through
    ensures HolderOk(if Holds(t.pc) then By(i) else Nobody, ts[i := t])
  {
    forall j: nat | j < |ts| && j != i ensures !Holds(ts[j].pc) {
      OnlyInside(lock, ts, i, j);
    }
  }

  // ----- What was seen of the list -----

  lemma SeenKept<T>(list: seq<T>, ts: seq<Thread<T>>, i: nat, t: Thread<T>)
    requires ListSeen(list, ts) && i < |ts|
    requires (t.pc.Parking? ==> list == []) && (t.pc.Taking? ==> list != [])
    ensures ListSeen(list, ts[i := t])
  {
  }

  lemma SeenByHolder<T>(list: seq<T>, lock: Sem, ts: seq<Thread<T>>, i: nat, t: Thread<T>)
    requires LockOk(lock, ts, LockUse) && i < |ts| && LockUse(ts[i]) == Through
    requires !t.pc.Parking? && !t.pc.Taking?
    ensures ListSeen(list, ts[i := t])
  {
    forall j | 0 <= j < |ts| && j != i ensures !ts[j].pc.Parking? && !ts[j].pc.Taking? {
      OnlyInside(lock, ts, i, j);
    }
  }

  // ----- Waiters -----

  /** One thread changes; what the sums over all threads become. */
  lemma SumsSet<T>(ts: seq<Thread<T>>, i: nat, t: Thread<T>)
    requires i < |ts|
    ensures Sum(ts[i := t], Paid()) + Paid()(ts[i]) == Sum(ts, Paid()) + Paid()(t)
    ensures Sum(ts[i := t], IsParked()) + IsParked()(ts[i]) == Sum(ts, IsParked()) + IsParked()(t)
    ensures Sum(ts[i := t], WillLook()) + WillLook()(ts[i]) == Sum(ts, WillLook()) + WillLook()(t)
  {
    SumUpdate(ts, i, t, Paid());
    SumUpdate(ts, i, t, IsParked());
    SumUpdate(ts, i, t, WillLook());
  }

  /** What one step of thread i does to the account of thread k. */
  lemma WaiterMoved<T>(waitQueue: seq<nat>, waitQueue': seq<nat>, ts: seq<Thread<T>>, i: nat, t: Thread<T>, k: nat)
    requires k < |ts| && i < |ts| && WaiterOk(waitQueue, ts, k)
    requires multiset(waitQueue')[k] + WakesThread(k)(t) ==
               multiset(waitQueue)[k] + WakesThread(k)(ts[i])
               + if k == i then One(Parked(t.pc)) - One(Parked(ts[i].pc)) + ts[i].tokens - t.tokens else 0
    requires k == i && t.pc.OnWaiter? ==> t.tokens == 0
    ensures WaiterOk(waitQueue', ts[i := t], k)
  {
    SumUpdate(ts, i, t, WakesThread(k));
  }

  lemma WaitersKept<T>(waitQueue: seq<nat>, ts: seq<Thread<T>>, i: nat, t: Thread<T>)
    requires Waiters(waitQueue, ts) && i < |ts|
    requires Parked(t.pc) == Parked(ts[i].pc) && t.tokens == ts[i].tokens && (t.pc.OnWaiter? ==> t.tokens == 0)
    requires !t.pc.Waking? && !ts[i].pc.Waking?
    ensures Waiters(waitQueue, ts[i := t])
  {
    SumsSet(ts, i, t);
    var ts' := ts[i := t];
    forall k: nat | k < |ts'| ensures WaiterOk(waitQueue, ts', k) {
      WaiterMoved(waitQueue, waitQueue, ts, i, t, k);
    }
  }

  /** Wait puts the thread's new semaphore on the queue. */
  lemma WaitersPark<T>(waitQueue: seq<nat>, ts: seq<Thread<T>>, i: nat, t: Thread<T>)
    requires Waiters(waitQueue, ts) && i < |ts| && ts[i].pc.Parking? && t == ts[i].(pc := Leaving(true))
    ensures i !in waitQueue && Waiters(waitQueue + [i], ts[i := t])
  {
    SumsSet(ts, i, t);
    assert WaiterOk(waitQueue, ts, i);
    var ts' := ts[i := t];
    forall k: nat | k < |ts'| ensures WaiterOk(waitQueue + [i], ts', k) {
      WaiterMoved(waitQueue, waitQueue + [i], ts, i, t, k);
    }
  }

  /** Signal takes the first semaphore off the queue. */
  lemma WaitersPop<T>(waitQueue: seq<nat>, ts: seq<Thread<T>>, i: nat, t: Thread<T>)
    requires Waiters(waitQueue, ts) && i < |ts| && waitQueue != []
    requires ts[i].pc.Signalling? && t == ts[i].(pc := Waking(waitQueue[0]))
    ensures Waiters(waitQueue[1..], ts[i := t])
  {
    SumsSet(ts, i, t);
    assert waitQueue == [waitQueue[0]] + waitQueue[1..];
    var ts' := ts[i := t];
    forall k: nat | k < |ts'| ensures WaiterOk(waitQueue[1..], ts', k) {
      WaiterMoved(waitQueue, waitQueue[1..], ts, i, t, k);
    }
  }

  lemma WakingTarget<T>(waitQueue: seq<nat>, ts: seq<Thread<T>>, i: nat)
    requires Waiters(waitQueue, ts) && i < |ts| && ts[i].pc.Waking?
    ensures var w := ts[i].pc.waiter;
            w < |ts| && w != i && Parked(ts[w].pc) && ts[w].tokens == 0
  {
    var w := ts[i].pc.waiter;
    SumAtLeast(ts, i, WakesThread(w));
    assert WaiterOk(waitQueue, ts, w);
  }

  lemma TokenFor<T>(waitQueue: seq<nat>, ts: seq<Thread<T>>, i: nat, w: nat, t: Thread<T>, u: Thread<T>, k: nat)
    requires i < |ts| && w < |ts| && w != i && k < |ts| && ts[i].pc == Waking(w) && WaiterOk(waitQueue, ts, k)
    requires Parked(ts[w].pc) && t == ts[i].(pc := Leaving(false)) && u == Tokened(ts[w])
    ensures WaiterOk(waitQueue, ts[i := t][w := u], k)
  {
    SumUpdate(ts, i, t, WakesThread(k));
    SumUpdate(ts[i := t], w, u, WakesThread(k));
  }

  /** ... and V adds a token to it. */
  lemma WaitersToken<T>(waitQueue: seq<nat>, ts: seq<Thread<T>>, i: nat, w: nat, t: Thread<T>, u: Thread<T>)
    requires Waiters(waitQueue, ts) && i < |ts| && w < |ts| && w != i && ts[i].pc == Waking(w)
    requires Parked(ts[w].pc) && t == ts[i].(pc := Leaving(false)) && u == Tokened(ts[w])
    ensures Waiters(waitQueue, ts[i := t][w := u])
  {
    hide WaiterOk;
    SumsSet(ts, i, t);
    SumsSet(ts[i := t], w, u);
    var ts' := ts[i := t][w := u];
    forall k: nat | k < |ts'| ensures WaiterOk(waitQueue, ts', k) {
      TokenFor(waitQueue, ts, i, w, t, u, k);
    }
  }

  lemma WaitersThrough<T>(waitQueue: seq<nat>, ts: seq<Thread<T>>, i: nat, t: Thread<T>)
    requires Waiters(waitQueue, ts) && i < |ts| && ts[i].pc.AtWaiter? && ts[i].tokens > 0
    requires t == Thread(Acquiring(false, ToRetest), ts[i].tokens - 1)
    ensures i !in waitQueue && Waiters(waitQueue, ts[i := t])
  {
    SumsSet(ts, i, t);
    assert WaiterOk(waitQueue, ts, i);
    var ts' := ts[i := t];
    forall k: nat | k < |ts'| ensures WaiterOk(waitQueue, ts', k) {
      WaiterMoved(waitQueue, waitQueue, ts, i, t, k);
    }
  }

  // ----- Nobody is stranded -----

  /** There are at most as many in the wait queue as are parked. */
  lemma QueueWithinParked<T>(waitQueue: seq<nat>, ts: seq<Thread<T>>)
    requires Waiters(waitQueue, ts)
    ensures |waitQueue| <= Sum(ts, IsParked()) <= Sum(ts, WillLook())
  {
    ParkedWillLook(ts);
  }

  lemma {:induction false} ParkedWillLook<T>(ts: seq<Thread<T>>)
    ensures Sum(ts, IsParked()) <= Sum(ts, WillLook())
  {
    if ts != [] {
      ParkedWillLook(ts[1..]);
    }
  }

  /** A step of one thread that takes as many items off the list as it stops counting on itself. */
  lemma StrandedMoved<T>(waitQueue: seq<nat>, waitQueue': seq<nat>, list: seq<T>, list': seq<T>, ts: seq<Thread<T>>,
      i: nat, t: Thread<T>)
    requires NobodyStranded(waitQueue, list, ts) && i < |ts| && (waitQueue' != [] ==> waitQueue != [])
    requires |list'| + |waitQueue'| + WillLook()(ts[i]) <= |list| + |waitQueue| + WillLook()(t)
    ensures NobodyStranded(waitQueue', list', ts[i := t])
  {
    SumsSet(ts, i, t);
  }

  lemma StrandedEmpty<T>(waitQueue: seq<nat>, ts: seq<Thread<T>>)
    requires Waiters(waitQueue, ts)
    ensures NobodyStranded(waitQueue, [], ts)
  {
    QueueWithinParked(waitQueue, ts);
  }

  // ----- The steps -----

  /** Calling Append or RemoveFront. */
  lemma CallInv<T>(s: State<T>, i: nat, goal: Goal<T>)
    requires Inv(s) && i < |s.threads| && s.threads[i].pc.Idle? && !goal.ToRetest?
    ensures Inv(Goto(s, i, Acquiring(false, goal)))
  {
    hide LockOk, HolderOk, Waiters, NobodyStranded, ListSeen;
    var t := s.threads[i].(pc := Acquiring(false, goal));
    LockElsewhere(s.lock, s.threads, i, t, LockUse);
    HolderKept(s.holder, s.threads, i, t);
    WaitersKept(s.waitQueue, s.threads, i, t);
    StrandedMoved(s.waitQueue, s.waitQueue, s.list, s.list, s.threads, i, t);
    SeenKept(s.list, s.threads, i, t);
  }

  lemma AcquireInv<T>(s: State<T>, i: nat)
    requires Inv(s) && Enabled(s, i) && s.threads[i].pc.Acquiring?
    ensures Inv(WorkStep(s, i))
  {
    hide LockOk, HolderOk, Waiters, NobodyStranded, ListSeen;
    var t := WorkStep(s, i).threads[i];
    if s.lock.value > 0 {
      LockPasses(s.lock, s.threads, i, t, LockUse);
    } else {
      LockSleeps(s.lock, s.threads, i, t, LockUse);
    }
    HolderKept(s.holder, s.threads, i, t);
    WaitersKept(s.waitQueue, s.threads, i, t);
    StrandedMoved(s.waitQueue, s.waitQueue, s.list, s.list, s.threads, i, t);
    SeenKept(s.list, s.threads, i, t);
  }

  lemma EnterInv<T>(s: State<T>, i: nat)
    requires Inv(s) && Enabled(s, i) && s.threads[i].pc.Entered?
    ensures Inv(WorkStep(s, i))
  {
    hide LockOk, HolderOk, Waiters, NobodyStranded, ListSeen;
    var t := WorkStep(s, i).threads[i];
    LockElsewhere(s.lock, s.threads, i, t, LockUse);
    HolderSet(s.lock, s.threads, i, t);
    WaitersKept(s.waitQueue, s.threads, i, t);
    StrandedMoved(s.waitQueue, s.waitQueue, s.list, s.list, s.threads, i, t);
    SeenKept(s.list, s.threads, i, t);
  }

  lemma AppendInv<T>(s: State<T>, i: nat)
    requires Inv(s) && Enabled(s, i) && s.threads[i].pc.Appending?
    ensures Inv(WorkStep(s, i))
  {
    hide LockOk, HolderOk, Waiters, NobodyStranded, ListSeen;
    if s.threads[i].pc.item !in s.list {
      var s' := WorkStep(s, i);
      var t := s'.threads[i];
      LockElsewhere(s.lock, s.threads, i, t, LockUse);
      HolderKept(s.holder, s.threads, i, t);
      WaitersKept(s.waitQueue, s.threads, i, t);
      StrandedMoved(s.waitQueue, s.waitQueue, s.list, s'.list, s.threads, i, t);
      SeenByHolder(s'.list, s.lock, s.threads, i, t);
    }
  }

  lemma SignalInv<T>(s: State<T>, i: nat)
    requires Inv(s) && Enabled(s, i) && s.threads[i].pc.Signalling?
    ensures Inv(WorkStep(s, i))
  {
    hide LockOk, HolderOk, Waiters, NobodyStranded, ListSeen;
    var s' := WorkStep(s, i);
    var t := s'.threads[i];
    LockElsewhere(s.lock, s.threads, i, t, LockUse);
    HolderKept(s.holder, s.threads, i, t);
    SeenKept(s.list, s.threads, i, t);
    if s.waitQueue == [] {
      WaitersKept(s.waitQueue, s.threads, i, t);
      NobodyParked(s.list, s'.threads);
    } else {
      WaitersPop(s.waitQueue, s.threads, i, t);
      StrandedMoved(s.waitQueue, s'.waitQueue, s.list, s.list, s.threads, i, t);
    }
  }

  lemma NobodyParked<T>(list: seq<T>, ts: seq<Thread<T>>)
    ensures NobodyStranded([], list, ts)
  {
  }

  lemma WakeInv<T>(s: State<T>, i: nat)
    requires Inv(s) && Enabled(s, i) && s.threads[i].pc.Waking?
    ensures Inv(WorkStep(s, i))
  {
    hide LockOk, HolderOk, Waiters, NobodyStranded, ListSeen;
    var w := s.threads[i].pc.waiter;
    WakingTarget(s.waitQueue, s.threads, i);
    var t, u := s.threads[i].(pc := Leaving(false)), Tokened(s.threads[w]);
    var ts := s.threads[i := t];
    LockElsewhere(s.lock, s.threads, i, t, LockUse);
    LockElsewhere(s.lock, ts, w, u, LockUse);
    HolderKept(s.holder, s.threads, i, t);
    HolderKept(s.holder, ts, w, u);
    WaitersToken(s.waitQueue, s.threads, i, w, t, u);
    StrandedMoved(s.waitQueue, s.waitQueue, s.list, s.list, s.threads, i, t);
    StrandedMoved(s.waitQueue, s.waitQueue, s.list, s.list, ts, w, u);
    SeenKept(s.list, s.threads, i, t);
    SeenKept(s.list, ts, w, u);
  }

  lemma CheckInv<T>(s: State<T>, i: nat)
    requires Inv(s) && Enabled(s, i) && s.threads[i].pc.Checking?
    ensures Inv(WorkStep(s, i))
  {
    hide LockOk, HolderOk, Waiters, NobodyStranded, ListSeen;
    var t := WorkStep(s, i).threads[i];
    LockElsewhere(s.lock, s.threads, i, t, LockUse);
    HolderKept(s.holder, s.threads, i, t);
    WaitersKept(s.waitQueue, s.threads, i, t);
    SeenKept(s.list, s.threads, i, t);
    if s.list == [] {
      StrandedEmpty(s.waitQueue, s.threads[i := t]);
    } else {
      StrandedMoved(s.waitQueue, s.waitQueue, s.list, s.list, s.threads, i, t);
    }
  }

  lemma ParkInv<T>(s: State<T>, i: nat)
    requires Inv(s) && Enabled(s, i) && s.threads[i].pc.Parking?
    ensures Inv(WorkStep(s, i))
  {
    assert s.list == [];
    hide LockOk, HolderOk, Waiters, NobodyStranded, ListSeen;
    var t := WorkStep(s, i).threads[i];
    LockElsewhere(s.lock, s.threads, i, t, LockUse);
    HolderKept(s.holder, s.threads, i, t);
    WaitersPark(s.waitQueue, s.threads, i, t);
    StrandedEmpty(s.waitQueue + [i], s.threads[i := t]);
    SeenKept(s.list, s.threads, i, t);
  }

  lemma TakeInv<T>(s: State<T>, i: nat)
    requires Inv(s) && Enabled(s, i) && s.threads[i].pc.Taking?
    ensures Inv(WorkStep(s, i))
  {
    assert s.list != [];
    hide LockOk, HolderOk, Waiters, NobodyStranded, ListSeen;
    var s' := WorkStep(s, i);
    var t := s'.threads[i];
    LockElsewhere(s.lock, s.threads, i, t, LockUse);
    HolderKept(s.holder, s.threads, i, t);
    WaitersKept(s.waitQueue, s.threads, i, t);
    StrandedMoved(s.waitQueue, s.waitQueue, s.list, s'.list, s.threads, i, t);
    SeenByHolder(s'.list, s.lock, s.threads, i, t);
    assert s.list == [s.list[0]] + s.list[1..];
  }

  lemma LeaveInv<T>(s: State<T>, i: nat)
    requires Inv(s) && Enabled(s, i) && s.threads[i].pc.Leaving?
    ensures Inv(WorkStep(s, i))
  {
    hide LockOk, HolderOk, Waiters, NobodyStranded, ListSeen;
    var t := WorkStep(s, i).threads[i];
    LockElsewhere(s.lock, s.threads, i, t, LockUse);
    HolderSet(s.lock, s.threads, i, t);
    WaitersKept(s.waitQueue, s.threads, i, t);
    StrandedMoved(s.waitQueue, s.waitQueue, s.list, s.list, s.threads, i, t);
    SeenKept(s.list, s.threads, i, t);
  }

  lemma FirstOnLock<T>(s: State<T>, i: nat)
    requires Inv(s) && i < |s.threads| && s.threads[i].pc.Unlocking?
    ensures s.lock.queue != [] ==>
      s.lock.queue[0] < |s.threads| && s.lock.queue[0] != i && s.threads[s.lock.queue[0]].pc.OnLock?
    ensures forall k :: 0 <= k < |s.lock.queue| ==> s.lock.queue[k] < |s.threads|
  {
  }

  /** All of the invariant but what concerns the lock's semaphore. */
  ghost predicate RestOk<T>(s: State<T>, ts: seq<Thread<T>>) {
    && HolderOk(s.holder, ts) && Waiters(s.waitQueue, ts)
    && NobodyStranded(s.waitQueue, s.list, ts) && ListSeen(s.list, ts)
  }

  /** A step that changes nothing about waiting, holding and looking. */
  lemma RestKept<T>(s: State<T>, ts: seq<Thread<T>>, i: nat, t: Thread<T>)
    requires RestOk(s, ts) && i < |ts| && t.tokens == ts[i].tokens
    requires Parked(t.pc) == Parked(ts[i].pc) && Holds(t.pc) == Holds(ts[i].pc) && Retests(t.pc) == Retests(ts[i].pc)
    requires !t.pc.OnWaiter? && !t.pc.Parking? && !t.pc.Taking?
    requires !t.pc.Waking? && !ts[i].pc.Waking? && !t.pc.Signalling? && !ts[i].pc.Signalling?
    ensures RestOk(s, ts[i := t])
  {
    hide HolderOk, Waiters, NobodyStranded, ListSeen;
    HolderKept(s.holder, ts, i, t);
    WaitersKept(s.waitQueue, ts, i, t);
    StrandedMoved(s.waitQueue, s.waitQueue, s.list, s.list, ts, i, t);
    SeenKept(s.list, ts, i, t);
  }

  lemma RestOfInv<T>(s: State<T>)
    requires LockOk(s.lock, s.threads, LockUse) && s.appended == s.removed + s.list
    ensures Inv(s) <==> RestOk(s, s.threads)
  {
  }

  lemma UnlockInv<T>(s: State<T>, i: nat)
    requires Inv(s) && Enabled(s, i) && s.threads[i].pc.Unlocking?
    ensures Inv(WorkStep(s, i))
  {
    hide LockOk, HolderOk, Waiters, NobodyStranded, ListSeen, RestOk;
    FirstOnLock(s, i);
    RestOfInv(s);
    var t := s.threads[i].(pc := if s.threads[i].pc.toWait then AtWaiter(false) else Idle);
    var ts := s.threads[i := t];
    RestKept(s, s.threads, i, t);
    if s.lock.queue == [] {
      Unlocks(s.lock, s.threads, i, t, t, LockUse);
    } else {
      var j := s.lock.queue[0];
      Unlocks(s.lock, s.threads, i, t, Roused(ts[j]), LockUse);
      RestKept(s, ts, j, Roused(ts[j]));
    }
    UnlockRest(s, WorkStep(s, i));
  }

  lemma UnlockRest<T>(s: State<T>, s': State<T>)
    requires LockOk(s'.lock, s'.threads, LockUse) && s.appended == s.removed + s.list && RestOk(s, s'.threads)
    requires s' == s.(lock := s'.lock, threads := s'.threads)
    ensures Inv(s')
  {
  }

  lemma WaiterInv<T>(s: State<T>, i: nat)
    requires Inv(s) && Enabled(s, i) && s.threads[i].pc.AtWaiter?
    ensures Inv(WorkStep(s, i))
  {
    hide LockOk, HolderOk, Waiters, NobodyStranded, ListSeen;
    var t := WorkStep(s, i).threads[i];
    LockElsewhere(s.lock, s.threads, i, t, LockUse);
    HolderKept(s.holder, s.threads, i, t);
    if s.threads[i].tokens == 0 {
      WaitersKept(s.waitQueue, s.threads, i, t);
    } else {
      WaitersThrough(s.waitQueue, s.threads, i, t);
    }
    StrandedMoved(s.waitQueue, s.waitQueue, s.list, s.list, s.threads, i, t);
    SeenKept(s.list, s.threads, i, t);
  }

  /** Every step keeps the invariant. */
  lemma StepInv<T>(s: State<T>, a: Action<T>)
    requires Inv(s) && Can(s, a)
    ensures Inv(Do(s, a))
  {
    hide Inv, WorkStep;
    match a
    case CallAppend(i, x) => CallInv(s, i, ToAppend(x));
    case CallRemove(i) => CallInv(s, i, ToRemove);
    case Work(i) =>
      match s.threads[i].pc {
        case Acquiring(_, _) => AcquireInv(s, i);
        case Entered(_) => EnterInv(s, i);
        case Appending(_) => AppendInv(s, i);
        case Signalling => SignalInv(s, i);
        case Waking(_) => WakeInv(s, i);
        case Checking(_) => CheckInv(s, i);
        case Parking => ParkInv(s, i);
        case Taking(_) => TakeInv(s, i);
        case Leaving(_) => LeaveInv(s, i);
        case Unlocking(_) => UnlockInv(s, i);
        case AtWaiter(_) => WaiterInv(s, i);
      }
  }

  lemma InitLock<T>(threads: nat)
    ensures LockOk(Init<T>(threads).lock, Init<T>(threads).threads, LockUse)
  {
    var s := Init<T>(threads);
    forall i | 0 <= i < threads ensures Is(LockUse, Through)(s.threads[i]) == 0 {
      assert LockUse(s.threads[i]) == Away;
    }
    SumZero(s.threads, Is(LockUse, Through));
  }

  lemma InitWaiters<T>(threads: nat)
    ensures Waiters(Init<T>(threads).waitQueue, Init<T>(threads).threads)
  {
    var s := Init<T>(threads);
    SumZero(s.threads, Paid());
    SumZero(s.threads, IsParked());
    forall i: nat | i < threads ensures WaiterOk(s.waitQueue, s.threads, i) {
      SumZero(s.threads, WakesThread(i));
    }
  }

  lemma InitInv<T>(threads: nat)
    ensures Inv(Init<T>(threads))
  {
    hide LockOk, Waiters;
    InitLock<T>(threads);
    InitWaiters<T>(threads);
  }

  lemma {:induction false} RunInv<T>(s: State<T>, run: seq<Action<T>>)
    requires Inv(s) && Legal(s, run)
    ensures Inv(After(s, run))
    decreases |run|
  {
    hide Inv;
    if run != [] {
      StepInv(s, run[0]);
      RunInv(Do(s, run[0]), run[1..]);
    }
  }

  // ----- What the list promises, over every run of any number of threads -----

  ghost predicate Reachable<T(!new)>(s: State<T>) {
    exists threads, run :: Legal(Init<T>(threads), run) && s == After(Init<T>(threads), run)
  }

  lemma ReachableInv<T(!new)>(s: State<T>)
    requires Reachable(s)
    ensures Inv(s)
  {
    var threads, run :| Legal(Init<T>(threads), run) && s == After(Init<T>(threads), run);
    InitInv<T>(threads);
    RunInv(Init<T>(threads), run);
  }

  /** Items come out in the order they went in: the items removed are a prefix of those appended. */
  lemma FirstInFirstOut<T(!new)>(s: State<T>)
    requires Reachable(s)
    ensures s.removed <= s.appended && s.appended[|s.removed|..] == s.list
  {
    ReachableInv(s);
  }

  /** RemoveFront never meets an empty list, and no ASSERT about holding the lock can fail. */
  lemma AssertionsHold<T(!new)>(s: State<T>, i: nat)
    requires Reachable(s) && i < |s.threads|
    ensures s.threads[i].pc.Taking? ==> s.list != []
    ensures Holds(s.threads[i].pc) ==> s.holder == By(i)
    ensures s.threads[i].pc.Parking? ==> i !in s.waitQueue
    ensures s.threads[i].pc.Acquiring? ==> i !in s.lock.queue
  {
    ReachableInv(s);
    assert WaiterOk(s.waitQueue, s.threads, i);
  }

  /** At most one thread is between getting through the lock's P and giving the lock back. */
  lemma MutualExclusion<T(!new)>(s: State<T>, i: nat, j: nat)
    requires Reachable(s) && i < |s.threads| && j < |s.threads|
    requires LockUse(s.threads[i]) == Through && LockUse(s.threads[j]) == Through
    ensures i == j && s.lock.value == 0
  {
    ReachableInv(s);
    OneHolder(s.lock, s.threads, LockUse, i, j);
  }

  // ----- No consumer is stranded -----

  /** Threads that have been signalled, or need no signal, on their way back to the list. */
  function ComingBack<T>(): Thread<T> -> nat {
    (t: Thread<T>) => One(Parked(t.pc) || Retests(t.pc))
  }

  lemma {:induction false} NobodySignalling<T>(ts: seq<Thread<T>>)
    requires forall i :: 0 <= i < |ts| ==> !ts[i].pc.Signalling?
    ensures Sum(ts, WillLook()) == Sum(ts, ComingBack())
  {
    if ts != [] {
      NobodySignalling(ts[1..]);
    }
  }

  /**
   While the lock is free and consumers sit in the wait queue, every item on the list has a
   consumer that was in the queue, has been taken off it and is not back in the lock yet.
   */
  lemma ItemsAreSpokenFor<T(!new)>(s: State<T>)
    requires Reachable(s) && s.lock.value == 1 && s.waitQueue != []
    ensures |s.list| <= Sum(s.threads, ComingBack()) - |s.waitQueue|
  {
    ReachableInv(s);
    forall i | 0 <= i < |s.threads| ensures !s.threads[i].pc.Signalling? {
      if LockUse(s.threads[i]) == Through {
        OneHolder(s.lock, s.threads, LockUse, i, i);
      }
    }
    NobodySignalling(s.threads);
  }

  /**
   If nobody can go on, then the lock is free, the list is empty, and whoever is
   in a call is a consumer asleep in the wait queue.
   */
  lemma QuietMeansEmpty<T(!new)>(s: State<T>)
    requires Reachable(s) && forall i :: 0 <= i < |s.threads| ==> !Enabled(s, i)
    ensures s.lock.value == 1
    ensures forall i: nat :: i < |s.threads| && !s.threads[i].pc.Idle? ==>
      s.threads[i].pc.OnWaiter? && i in s.waitQueue && s.list == []
  {
    ReachableInv(s);
    QuietLock(s);
    forall i | 0 <= i < |s.threads| ensures s.threads[i].pc.Idle? || s.threads[i].pc.OnWaiter? {
      assert !Enabled(s, i);
    }
    forall i: nat | i < |s.threads| && !s.threads[i].pc.Idle?
      ensures s.threads[i].pc.OnWaiter? && i in s.waitQueue && s.list == []
    {
      QuietWaiter(s, i);
    }
  }

  lemma QuietLock<T>(s: State<T>)
    requires Inv(s) && forall i :: 0 <= i < |s.threads| ==> !Enabled(s, i)
    ensures s.lock.value == 1 && forall i :: 0 <= i < |s.threads| ==> !s.threads[i].pc.OnLock?
  {
    forall i | 0 <= i < |s.threads| ensures LockUse(s.threads[i]) != Through && !LockUse(s.threads[i]).Testing? {
      assert !Enabled(s, i);
    }
    NobodyInside(s.lock, s.threads, LockUse);
    if s.lock.queue != [] {
      var i := SomeoneGetsThrough(s.lock, s.threads, LockUse);
    }
  }

  lemma QuietWaiter<T>(s: State<T>, i: nat)
    requires Inv(s) && i < |s.threads| && s.threads[i].pc.OnWaiter?
    requires forall k :: 0 <= k < |s.threads| ==> s.threads[k].pc.Idle? || s.threads[k].pc.OnWaiter?
    ensures i in s.waitQueue && s.list == []
  {
    SumZero(s.threads, WakesThread(i));
    assert WaiterOk(s.waitQueue, s.threads, i);
    forall k | 0 <= k < |s.threads| ensures s.threads[k].tokens == 0 {
      assert WaiterOk(s.waitQueue, s.threads, k);
    }
    SumZero(s.threads, Paid());
    AllParked(s.threads);
  }

  lemma {:induction false} AllParked<T>(ts: seq<Thread<T>>)
    requires forall k :: 0 <= k < |ts| ==> ts[k].pc.Idle? || ts[k].pc.OnWaiter?
    ensures Sum(ts, WillLook()) == Sum(ts, IsParked())
  {
    if ts != [] {
      AllParked(ts[1..]);
    }
  }
}
