/**
 threads/synchlist.cc on threads/synch.cc: a list shared by threads, protected by a lock and a
 condition variable, both built from semaphores. Every access to something shared is a step
 of its own, and threads interleave between the steps in any way.
 */
module SynchLists {
  import opened Sums
  import opened Semaphores

  /** What a thread wants the lock for: Append's body, RemoveFront's, or the end of Wait. */
  datatype Goal<T> = ToAppend(item: T) | ToRemove | ToRetest

  datatype Pc<T> =
    | Idle
    | Acquiring(woken: bool, goal: Goal<T>)  // in the lock's P, about to test
    | OnLock(goal: Goal<T>)                  // in the lock's P, asleep
    | Entered(goal: Goal<T>)                 // through P, lockHolder not yet set
    | Appending(item: T)
    | Signalling                             // in Signal, about to look at the wait queue
    | Waking(waiter: nat)                    // in Signal, about to V that thread's semaphore
    | Checking(again: bool)                  // at RemoveFront's while test
    | Parking                                // in Wait, about to join the wait queue
    | Taking(again: bool)                    // the list is not empty: about to take its first item
    | Leaving(toWait: bool)                  // in Release, about to clear lockHolder
    | Unlocking(toWait: bool)                // in Release, about to V the lock
    | AtWaiter(woken: bool)                  // in the P of its own semaphore, about to test
    | OnWaiter                               // in the P of its own semaphore, asleep

  /** `tokens` is the value of the semaphore the thread allocated in Wait. */
  datatype Thread<T> = Thread(pc: Pc<T>, tokens: nat)

  datatype Holder = Nobody | By(i: nat)

  /** `appended` and `removed` remember the items in the order of the critical sections. */
  datatype State<T> = State(
    lock: Sem,
    holder: Holder,
    waitQueue: seq<nat>,
    list: seq<T>,
    threads: seq<Thread<T>>,
    appended: seq<T>,
    removed: seq<T>)

  datatype Action<T> =
    | CallAppend(i: nat, item: T)
    | CallRemove(i: nat)
    | Work(i: nat)

  function Init<T>(threads: nat): State<T> {
    State(Sem(1, []), Nobody, [], [], seq(threads, _ => Thread(Idle, 0)), [], [])
  }

  /** Can thread i go on with the call it is in? */
  predicate Enabled<T>(s: State<T>, i: nat) {
    i < |s.threads| && !s.threads[i].pc.Idle? && !s.threads[i].pc.OnLock? && !s.threads[i].pc.OnWaiter?
  }

  predicate Can<T>(s: State<T>, a: Action<T>) {
    match a
    case CallAppend(i, _) => i < |s.threads| && s.threads[i].pc.Idle?
    case CallRemove(i) => i < |s.threads| && s.threads[i].pc.Idle?
    case Work(i) => Enabled(s, i)
  }

  function Goto<T>(s: State<T>, i: nat, pc: Pc<T>): State<T>
    requires i < |s.threads|
  {
    s.(threads := s.threads[i := s.threads[i].(pc := pc)])
  }

  /** A thread taken off the lock's queue. */
  function Roused<T>(t: Thread<T>): Thread<T> {
    if t.pc.OnLock? then t.(pc := Acquiring(true, t.pc.goal)) else t
  }

  /** V on the semaphore of a waiter: one more token, and it is woken if it is asleep. */
  function Tokened<T>(t: Thread<T>): Thread<T> {
    Thread(if t.pc.OnWaiter? then AtWaiter(true) else t.pc, t.tokens + 1)
  }

  /** The two threads that giving the lock back moves. */
  function Unlock<T>(s: State<T>, i: nat, pc: Pc<T>): State<T>
    requires i < |s.threads|
  {
    var ts := s.threads[i := s.threads[i].(pc := pc)];
    s.(lock := Given(s.lock),
       threads := if s.lock.queue == [] || s.lock.queue[0] >= |ts| then ts
                  else ts[s.lock.queue[0] := Roused(ts[s.lock.queue[0]])])
  }

  /** A step whose ASSERT fails goes nowhere: an item that is on the list already, or a list that is empty. */
  ghost function WorkStep<T>(s: State<T>, i: nat): State<T>
    requires i < |s.threads|
  {
    match s.threads[i].pc
    case Acquiring(_, goal) =>
      if s.lock.value > 0 then Goto(s.(lock := Taken(s.lock)), i, Entered(goal))
      else Goto(s.(lock := Joined(s.lock, i)), i, OnLock(goal))
    case Entered(goal) =>
      Goto(s.(holder := By(i)), i,
           match goal case ToAppend(x) => Appending(x) case ToRemove => Checking(false) case ToRetest => Checking(true))
    case Appending(x) =>
      if x in s.list then s
      else Goto(s.(list := s.list + [x], appended := s.appended + [x]), i, Signalling)
    case Signalling =>
      if s.waitQueue == [] then Goto(s, i, Leaving(false))
      else Goto(s.(waitQueue := s.waitQueue[1..]), i, Waking(s.waitQueue[0]))
    case Waking(w) =>
      var s' := Goto(s, i, Leaving(false));
      if w < |s.threads| then s'.(threads := s'.threads[w := Tokened(s'.threads[w])]) else s'
    case Checking(again) => Goto(s, i, if s.list == [] then Parking else Taking(again))
    case Parking => Goto(s.(waitQueue := s.waitQueue + [i]), i, Leaving(true))
    case Taking(_) =>
      if s.list == [] then s
      else Goto(s.(list := s.list[1..], removed := s.removed + [s.list[0]]), i, Leaving(false))
    case Leaving(toWait) => Goto(s.(holder := Nobody), i, Unlocking(toWait))
    case Unlocking(toWait) => Unlock(s, i, if toWait then AtWaiter(false) else Idle)
    case AtWaiter(_) =>
      if s.threads[i].tokens == 0 then Goto(s, i, OnWaiter)
      else s.(threads := s.threads[i := Thread(Acquiring(false, ToRetest), s.threads[i].tokens - 1)])
    case _ => s
  }

  ghost function Do<T>(s: State<T>, a: Action<T>): State<T>
    requires Can(s, a)
  {
    match a
    case CallAppend(i, x) => Goto(s, i, Acquiring(false, ToAppend(x)))
    case CallRemove(i) => Goto(s, i, Acquiring(false, ToRemove))
    case Work(i) => WorkStep(s, i)
  }

  ghost predicate Legal<T>(s: State<T>, run: seq<Action<T>>)
    decreases |run|
  {
    run == [] || (Can(s, run[0]) && Legal(Do(s, run[0]), run[1..]))
  }

  ghost function After<T>(s: State<T>, run: seq<Action<T>>): State<T>
    requires Legal(s, run)
    decreases |run|
  {
    if run == [] then s else After(Do(s, run[0]), run[1..])
  }

  // ----- The invariant -----

  /** Where a thread stands with respect to the lock. */
  function LockUse<T>(t: Thread<T>): Use {
    match t.pc
    case Idle => Away
    case Acquiring(woken, _) => Testing(woken)
    case OnLock(_) => Queued
    case AtWaiter(_) => Away
    case OnWaiter => Away
    case _ => Through
  }

  /** Inside, with lockHolder set. */
  predicate Holds<T>(pc: Pc<T>) {
    pc.Appending? || pc.Signalling? || pc.Waking? || pc.Checking? || pc.Parking? || pc.Taking? || pc.Leaving?
  }

  ghost predicate HolderOk<T>(holder: Holder, ts: seq<Thread<T>>) {
    forall i: nat :: i < |ts| ==> (holder == By(i) <==> Holds(ts[i].pc))
  }

  /** Between joining the wait queue and getting through its own semaphore. */
  predicate Parked<T>(pc: Pc<T>) {
    pc == Leaving(true) || pc == Unlocking(true) || pc.AtWaiter? || pc.OnWaiter?
  }

  /** The thread is in Append with that item, and has not put it on the list yet. */
  predicate Brings<T(==)>(pc: Pc<T>, x: T) {
    || ((pc.Acquiring? || pc.OnLock? || pc.Entered?) && pc.goal == ToAppend(x))
    || pc == Appending(x)
  }

  function One(b: bool): nat {
    if b then 1 else 0
  }

  function IsParked<T>(): Thread<T> -> nat {
    (t: Thread<T>) => One(Parked(t.pc))
  }

  function WakesThread<T>(w: nat): Thread<T> -> nat {
    (t: Thread<T>) => One(t.pc == Waking(w))
  }

  /** Signals already given: tokens, and a signaller about to give one. */
  function Paid<T>(): Thread<T> -> nat {
    (t: Thread<T>) => One(t.pc.Waking?) + t.tokens
  }

  /** Threads that will look at the list again without any further signal, if one is parked. */
  function WillLook<T>(): Thread<T> -> nat {
    (t: Thread<T>) => One(Parked(t.pc) || Retests(t.pc) || t.pc.Signalling?)
  }

  predicate Retests<T>(pc: Pc<T>) {
    || ((pc.Acquiring? || pc.OnLock? || pc.Entered?) && pc.goal.ToRetest?)
    || ((pc.Checking? || pc.Taking?) && pc.again)
  }

  /** A parked thread is in the wait queue, about to be signalled, or has its token: exactly one of these. */
  ghost predicate WaiterOk<T>(waitQueue: seq<nat>, ts: seq<Thread<T>>, i: nat)
    requires i < |ts|
  {
    && multiset(waitQueue)[i] + Sum(ts, WakesThread(i)) + ts[i].tokens == One(Parked(ts[i].pc))
    && (ts[i].pc.OnWaiter? ==> ts[i].tokens == 0)
  }

  ghost predicate Waiters<T>(waitQueue: seq<nat>, ts: seq<Thread<T>>) {
    && (forall k :: 0 <= k < |waitQueue| ==> waitQueue[k] < |ts|)
    && (forall i: nat :: i < |ts| && ts[i].pc.Waking? ==> ts[i].pc.waiter < |ts|)
    && (forall i: nat :: i < |ts| ==> WaiterOk(waitQueue, ts, i))
    && |waitQueue| + Sum(ts, Paid()) == Sum(ts, IsParked())
  }

  /** While someone is in the wait queue, every item has a thread that will come for it. */
  ghost predicate NobodyStranded<T>(waitQueue: seq<nat>, list: seq<T>, ts: seq<Thread<T>>) {
    waitQueue != [] ==> |list| + |waitQueue| <= Sum(ts, WillLook())
  }

  /** What the lock protects has not changed since it was looked at. */
  ghost predicate ListSeen<T>(list: seq<T>, ts: seq<Thread<T>>) {
    forall i :: 0 <= i < |ts| ==> (ts[i].pc.Parking? ==> list == []) && (ts[i].pc.Taking? ==> list != [])
  }

  ghost predicate Inv<T>(s: State<T>) {
    && LockOk(s.lock, s.threads, LockUse)
    && HolderOk(s.holder, s.threads)
    && Waiters(s.waitQueue, s.threads)
    && NobodyStranded(s.waitQueue, s.list, s.threads)
    && ListSeen(s.list, s.threads)
    && s.appended == s.removed + s.list
  }
}
