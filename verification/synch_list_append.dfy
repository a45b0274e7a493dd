/**
 The ASSERT in List::Append that an item is not on the list yet, for a shared list: exactly which calls
 of SynchList::Append can make it fail.
 */
module SynchListAppends {
  import opened Sums
  import opened Semaphores
  import opened SynchLists
  import opened SynchListSteps

  /** The thread is through the lock, and takes the first item if there is one. */
  predicate RemovesNext<T>(pc: Pc<T>) {
    pc.Checking? || pc.Taking? || (pc.Entered? && !pc.goal.ToAppend?)
  }

  /** The item is first on the list and goes before anyone else can get through the lock. */
  ghost predicate Leaves<T>(s: State<T>, x: T) {
    s.list != [] && s.list[0] == x && exists j :: 0 <= j < |s.threads| && RemovesNext(s.threads[j].pc)
  }

  /** The ASSERT fails in the next step of some thread. */
  ghost predicate AppendFails<T>(s: State<T>) {
    exists k :: 0 <= k < |s.threads| && s.threads[k].pc.Appending? && s.threads[k].pc.item in s.list
  }

  /** Nobody else is appending the item, and it is not on the list, or only on its way out. */
  ghost predicate CallOk<T>(s: State<T>, x: T) {
    && (forall k :: 0 <= k < |s.threads| ==> !Brings(s.threads[k].pc, x))
    && (x in s.list ==> Leaves(s, x))
  }

  ghost predicate Distinct<T>(list: seq<T>) {
    forall k, l :: 0 <= k < l < |list| ==> list[k] != list[l]
  }

  ghost predicate Different<T(!new)>(ts: seq<Thread<T>>) {
    forall i, j, x :: 0 <= i < |ts| && 0 <= j < |ts| && i != j && Brings(ts[i].pc, x) ==> !Brings(ts[j].pc, x)
  }

  ghost predicate Tidy<T(!new)>(s: State<T>) {
    && Distinct(s.list)
    && Different(s.threads)
    && (forall i, x :: 0 <= i < |s.threads| && Brings(s.threads[i].pc, x) && x in s.list ==> Leaves(s, x))
  }

  // ----- Calls that are all right -----

  /** What a step of thread j does to another: it may take it off the queue it sleeps on. */
  predicate OnlyWoken<T(==)>(s: State<T>, j: nat, pc: Pc<T>, pc': Pc<T>)
    requires j < |s.threads|
  {
    || pc' == pc
    || (pc.OnLock? && s.threads[j].pc.Unlocking? && pc' == Acquiring(true, pc.goal))
    || (pc.OnWaiter? && pc' == AtWaiter(true))
  }

  lemma OtherPc<T>(s: State<T>, j: nat, k: nat)
    requires Enabled(s, j) && k < |s.threads| && k != j
    ensures |WorkStep(s, j).threads| == |s.threads|
    ensures OnlyWoken(s, j, s.threads[k].pc, WorkStep(s, j).threads[k].pc)
  {
  }

  lemma OwnPc<T>(s: State<T>, j: nat, x: T)
    requires Enabled(s, j) && |WorkStep(s, j).threads| == |s.threads|
    ensures Brings(WorkStep(s, j).threads[j].pc, x) ==> Brings(s.threads[j].pc, x)
  {
  }

  lemma BringsNoMore<T(!new)>(s: State<T>, j: nat, k: nat, x: T)
    requires Enabled(s, j) && k < |s.threads| && |WorkStep(s, j).threads| == |s.threads|
    ensures Brings(WorkStep(s, j).threads[k].pc, x) ==> Brings(s.threads[k].pc, x)
  {
    hide WorkStep;
    if k == j {
      OwnPc(s, j, x);
    } else {
      OtherPc(s, j, k);
    }
  }

  /** The list changes only in the hands of the thread that is through the lock. */
  lemma ListStep<T>(s: State<T>, j: nat)
    requires Enabled(s, j)
    ensures var s' := WorkStep(s, j);
            && |s'.threads| == |s.threads|
            && (s'.list != s.list ==> LockUse(s.threads[j]) == Through)
            && (s'.list == s.list
                || (s.threads[j].pc.Taking? && s.list != [] && s'.list == s.list[1..])
                || (s.threads[j].pc.Appending? && s.threads[j].pc.item !in s.list && s'.threads[j].pc.Signalling?
                    && s'.list == s.list + [s.threads[j].pc.item]))
  {
  }

  lemma RemoverStep<T>(s: State<T>, j: nat)
    requires Enabled(s, j) && RemovesNext(s.threads[j].pc) && s.list != [] && |WorkStep(s, j).threads| == |s.threads|
    ensures WorkStep(s, j).list == s.list[1..]
        || (WorkStep(s, j).list == s.list && RemovesNext(WorkStep(s, j).threads[j].pc))
  {
  }

  /** An item on its way out stays first until it is gone. */
  lemma LeavesStep<T>(s: State<T>, j: nat, x: T)
    requires Inv(s) && Enabled(s, j) && Distinct(s.list) && Leaves(s, x)
    ensures x in WorkStep(s, j).list ==> Leaves(WorkStep(s, j), x)
  {
    hide Inv, WorkStep;
    ListStep(s, j);
    var m :| 0 <= m < |s.threads| && RemovesNext(s.threads[m].pc);
    if j == m {
      RemoverStep(s, j);
    } else {
      OtherPc(s, j, m);
      if LockUse(s.threads[j]) == Through {
        TheRemover(s, m, j);
      }
    }
  }

  /** A thread that is going to take an item is the one that is through the lock. */
  lemma TheRemover<T>(s: State<T>, j: nat, k: nat)
    requires Inv(s) && j < |s.threads| && k < |s.threads|
    requires RemovesNext(s.threads[j].pc) && LockUse(s.threads[k]) == Through
    ensures j == k
  {
    OneHolder(s.lock, s.threads, LockUse, j, k);
  }

  lemma TidyWork<T(!new)>(s: State<T>, j: nat)
    requires Inv(s) && Tidy(s) && Enabled(s, j)
    ensures Tidy(WorkStep(s, j))
  {
    hide Inv, WorkStep, Leaves, Brings;
    ListStep(s, j);
    var s' := WorkStep(s, j);
    forall k: nat, x | k < |s.threads| && Brings(s'.threads[k].pc, x) ensures Brings(s.threads[k].pc, x) {
      BringsNoMore(s, j, k, x);
    }
    DifferentKept(s.threads, s'.threads);
    forall k, x | 0 <= k < |s'.threads| && Brings(s'.threads[k].pc, x) && x in s'.list ensures Leaves(s', x) {
      BringsNoMore(s, j, k, x);
      if x in s.list {
        LeavesStep(s, j, x);
      } else {
        NotTwice(s, j, k, x);
      }
    }
  }

  /** Threads that bring no more than they did. */
  lemma DifferentKept<T(!new)>(ts: seq<Thread<T>>, ts': seq<Thread<T>>)
    requires Different(ts) && |ts'| == |ts|
    requires forall k: nat, x :: k < |ts| && Brings(ts'[k].pc, x) ==> Brings(ts[k].pc, x)
    ensures Different(ts')
  {
    hide Brings;
    forall i: nat, j: nat, x | i < |ts| && j < |ts| && i != j && Brings(ts'[i].pc, x) ensures !Brings(ts'[j].pc, x) {
      assert Brings(ts[i].pc, x);
    }
  }

  lemma NotTwice<T(!new)>(s: State<T>, j: nat, k: nat, x: T)
    requires Tidy(s) && Enabled(s, j) && s.threads[j].pc == Appending(x)
    requires k < |s.threads| && |WorkStep(s, j).threads| == |s.threads| && WorkStep(s, j).threads[j].pc.Signalling?
    ensures !Brings(WorkStep(s, j).threads[k].pc, x)
  {
    hide WorkStep;
    assert Brings(s.threads[j].pc, x);
    if k != j {
      OtherPc(s, j, k);
    }
  }

  lemma TidyCall<T(!new)>(s: State<T>, i: nat, goal: Goal<T>)
    requires Tidy(s) && i < |s.threads| && s.threads[i].pc.Idle? && (goal.ToAppend? ==> CallOk(s, goal.item))
    ensures Tidy(Goto(s, i, Acquiring(false, goal)))
  {
    hide Leaves;
    var s' := Goto(s, i, Acquiring(false, goal));
    forall x | Leaves(s, x) ensures Leaves(s', x) {
      LeavesCalled(s, i, goal, x);
    }
  }

  lemma LeavesCalled<T>(s: State<T>, i: nat, goal: Goal<T>, x: T)
    requires Leaves(s, x) && i < |s.threads| && s.threads[i].pc.Idle?
    ensures Leaves(Goto(s, i, Acquiring(false, goal)), x)
  {
    var m :| 0 <= m < |s.threads| && RemovesNext(s.threads[m].pc);
    assert RemovesNext(Goto(s, i, Acquiring(false, goal)).threads[m].pc);
  }

  lemma TidyStep<T(!new)>(s: State<T>, a: Action<T>)
    requires Inv(s) && Tidy(s) && Can(s, a) && (a.CallAppend? ==> CallOk(s, a.item))
    ensures Tidy(Do(s, a))
  {
    hide Inv, Tidy, WorkStep;
    match a
    case CallAppend(i, x) => TidyCall(s, i, ToAppend(x));
    case CallRemove(i) => TidyCall(s, i, ToRemove);
    case Work(i) => TidyWork(s, i);
  }

  lemma TidyNeverFails<T(!new)>(s: State<T>)
    requires Inv(s) && Tidy(s)
    ensures !AppendFails(s)
  {
    hide Inv;
    if AppendFails(s) {
      var k :| 0 <= k < |s.threads| && s.threads[k].pc.Appending? && s.threads[k].pc.item in s.list;
      assert Brings(s.threads[k].pc, s.threads[k].pc.item);
      var m :| 0 <= m < |s.threads| && RemovesNext(s.threads[m].pc);
      TheRemover(s, m, k);
    }
  }

  // ----- Calls that are not -----

  /** Without any further call, there is a way to the failing ASSERT. */
  ghost predicate CanFail<T(!new)>(s: State<T>) {
    exists run :: WorkOnly(run) && Legal(s, run) && AppendFails(After(s, run))
  }

  ghost predicate WorkOnly<T>(run: seq<Action<T>>) {
    forall k :: 0 <= k < |run| ==> run[k].Work?
  }

  lemma FailsNow<T(!new)>(s: State<T>)
    requires AppendFails(s)
    ensures CanFail(s)
  {
    hide AppendFails;
    var run: seq<Action<T>> := [];
    assert WorkOnly(run) && Legal(s, run) && After(s, run) == s;
  }

  lemma FailsLater<T(!new)>(s: State<T>, j: nat)
    requires Enabled(s, j) && CanFail(WorkStep(s, j))
    ensures CanFail(s)
  {
    hide AppendFails, WorkStep;
    var rest :| WorkOnly(rest) && Legal(WorkStep(s, j), rest) && AppendFails(After(WorkStep(s, j), rest));
    var run := [Work(j)] + rest;
    assert run[0] == Work(j) && run[1..] == rest && Do(s, run[0]) == WorkStep(s, j);
    assert WorkOnly(run) && Legal(s, run) && After(s, run) == After(WorkStep(s, j), rest);
  }

  /** How many steps, at most, the thread that is through the lock is away from giving it back. */
  function Distance<T>(pc: Pc<T>): nat {
    match pc
    case Entered(_) => 7
    case Appending(_) => 6
    case Checking(_) => 6
    case Signalling => 5
    case Parking => 5
    case Taking(_) => 5
    case Waking(_) => 4
    case Leaving(_) => 3
    case Unlocking(_) => 2
    case _ => 0
  }

  lemma WhoIsThrough<T>(s: State<T>) returns (j: nat)
    requires Inv(s) && s.lock.value == 0
    ensures j < |s.threads| && LockUse(s.threads[j]) == Through && Enabled(s, j)
  {
    j := SumWitness(s.threads, Is(LockUse, Through));
  }

  /** The thread that is through the lock goes on, ... */
  lemma HolderGoesOn<T>(s: State<T>, j: nat)
    requires Enabled(s, j) && LockUse(s.threads[j]) == Through && !AppendFails(s)
    requires (s.threads[j].pc.Taking? ==> s.list != []) && !s.threads[j].pc.Unlocking?
    ensures var s' := WorkStep(s, j);
            && |s'.threads| == |s.threads| && s'.lock == s.lock
            && LockUse(s'.threads[j]) == Through && Distance(s'.threads[j].pc) < Distance(s.threads[j].pc)
  {
  }

  /** ... or gives it back and rouses the first sleeper. */
  lemma HolderUnlocks<T>(s: State<T>, j: nat)
    requires Enabled(s, j) && s.threads[j].pc.Unlocking?
    ensures WorkStep(s, j).lock == Given(s.lock) && WorkStep(s, j).list == s.list
    ensures |WorkStep(s, j).threads| == |s.threads|
  {
  }

  /** How long the lock will stay taken. */
  ghost function Wait<T>(s: State<T>, j: nat): nat
    requires j < |s.threads|
  {
    if s.lock.value > 0 then 0 else Distance(s.threads[j].pc)
  }

  /** The thread that is through the lock makes a step towards giving it back. */
  lemma HolderStep<T>(s: State<T>, j: nat)
    requires Inv(s) && j < |s.threads| && LockUse(s.threads[j]) == Through && !AppendFails(s)
    ensures Enabled(s, j) && Inv(WorkStep(s, j)) && |WorkStep(s, j).threads| == |s.threads|
    ensures var s' := WorkStep(s, j);
            Wait(s', j) < Wait(s, j) && (s'.lock.value > 0 || LockUse(s'.threads[j]) == Through)
    ensures WorkStep(s, j).lock == if s.threads[j].pc.Unlocking? then Given(s.lock) else s.lock
  {
    OneHolder(s.lock, s.threads, LockUse, j, j);
    StepInv(s, Work(j));
    hide WorkStep, LockOk, HolderOk, Waiters, NobodyStranded, AppendFails;
    if s.threads[j].pc.Unlocking? {
      HolderUnlocks(s, j);
    } else {
      HolderGoesOn(s, j);
    }
  }

  /** An item on the list that is not on its way out stays there while the lock is given back. */
  lemma ItemStays<T>(s: State<T>, j: nat, x: T)
    requires Inv(s) && j < |s.threads| && LockUse(s.threads[j]) == Through && Enabled(s, j) && Inv(WorkStep(s, j))
    requires x in s.list && !Leaves(s, x)
    ensures x in WorkStep(s, j).list && !Leaves(WorkStep(s, j), x)
  {
    hide Inv, WorkStep;
    ListStep(s, j);
    var s' := WorkStep(s, j);
    if s.threads[j].pc.Taking? && s'.list != s.list {
      assert RemovesNext(s.threads[j].pc);
    }
    if Leaves(s', x) {
      var m :| 0 <= m < |s'.threads| && RemovesNext(s'.threads[m].pc);
      StillRemoves(s, j, m);
    }
  }

  /** Nobody is about to take an item who was not before, but for those who get through the lock. */
  lemma StillRemoves<T>(s: State<T>, j: nat, m: nat)
    requires Inv(s) && j < |s.threads| && LockUse(s.threads[j]) == Through && Enabled(s, j)
    requires |WorkStep(s, j).threads| == |s.threads| && m < |s.threads| && RemovesNext(WorkStep(s, j).threads[m].pc)
    ensures m == j && RemovesNext(s.threads[j].pc) && WorkStep(s, j).list == s.list
  {
    hide Inv, WorkStep;
    if m == j {
      HolderRemoves(s, j);
    } else {
      OtherPc(s, j, m);
      TheRemover(s, m, j);
    }
  }

  lemma HolderRemoves<T>(s: State<T>, j: nat)
    requires Enabled(s, j) && |WorkStep(s, j).threads| == |s.threads| && RemovesNext(WorkStep(s, j).threads[j].pc)
    requires LockUse(s.threads[j]) == Through
    ensures RemovesNext(s.threads[j].pc) && WorkStep(s, j).list == s.list
  {
  }

  /** If the item is on the list to stay, the thread that tests the lock next gets in with it still there. */
  lemma {:induction false} GetsIn<T(!new)>(s: State<T>, i: nat, x: T, j: nat)
    requires Inv(s) && i < |s.threads| && j < |s.threads| && s.threads[i].pc.Acquiring?
        && s.threads[i].pc.goal == ToAppend(x)
    requires x in s.list && !Leaves(s, x) && (s.lock.value > 0 || LockUse(s.threads[j]) == Through)
    ensures CanFail(s)
    decreases Wait(s, j)
  {
    hide Inv, AppendFails, CanFail, Leaves, WorkStep;
    if AppendFails(s) {
      FailsNow(s);
    } else if s.lock.value > 0 {
      WalksIn(s, i, x);
    } else {
      HolderStep(s, j);
      ItemStays(s, j, x);
      OtherPc(s, j, i);
      GetsIn(WorkStep(s, j), i, x, j);
      FailsLater(s, j);
    }
  }

  lemma WalksIn<T(!new)>(s: State<T>, i: nat, x: T)
    requires i < |s.threads| && s.threads[i].pc.Acquiring? && s.threads[i].pc.goal == ToAppend(x)
    requires x in s.list && s.lock.value > 0
    ensures CanFail(s)
  {
    hide CanFail;
    var s1 := WorkStep(s, i);
    var s2 := WorkStep(s1, i);
    assert s2.threads[i].pc == Appending(x) && s2.list == s.list;
    FailsNow(s2);
    FailsLater(s1, i);
    FailsLater(s, i);
  }

  function IndexOf(queue: seq<nat>, k: nat): nat {
    if queue == [] || queue[0] == k then 0 else 1 + IndexOf(queue[1..], k)
  }

  /** How far a thread in Append is from putting its item on the list, in turns of the lock. */
  ghost function Turns<T>(s: State<T>, k: nat): nat
    requires k < |s.threads|
  {
    match s.threads[k].pc
    case Appending(_) => 0
    case Entered(_) => 1
    case Acquiring(_, _) => 2
    case _ => 3 + IndexOf(s.lock.queue, k)
  }

  /** ... and how far off the next turn is. */
  ghost function Pace<T>(s: State<T>, k: nat, j: nat): nat
    requires k < |s.threads| && j < |s.threads|
  {
    if s.lock.value == 0 then Distance(s.threads[j].pc) else if s.threads[k].pc.OnLock? then 8 else 0
  }

  lemma InQueue<T>(s: State<T>, k: nat)
    requires Inv(s) && k < |s.threads| && s.threads[k].pc.OnLock?
    ensures k in s.lock.queue
  {
    assert LockUse(s.threads[k]) == Queued;
  }

  lemma NobodyTwice<T>(s: State<T>)
    requires Inv(s)
    ensures forall l, m :: 0 <= l < m < |s.lock.queue| ==> s.lock.queue[l] != s.lock.queue[m]
  {
  }

  /** A turn of the lock brings a sleeper nearer. */
  lemma NextTurn<T>(s: State<T>, j: nat, k: nat)
    requires Inv(s) && Enabled(s, j) && s.threads[j].pc.Unlocking? && k < |s.threads| && s.threads[k].pc.OnLock?
    requires Inv(WorkStep(s, j)) && |WorkStep(s, j).threads| == |s.threads| && WorkStep(s, j).lock == Given(s.lock)
    ensures Turns(WorkStep(s, j), k) < Turns(s, k)
  {
    hide Inv, WorkStep;
    InQueue(s, k);
    OtherPc(s, j, k);
    NobodyTwice(s);
    if WorkStep(s, j).threads[k].pc.OnLock? {
      InQueue(WorkStep(s, j), k);
      assert s.lock.queue[0] != k;
    }
  }

  /** The thread brings the item, and another has just called Append with the same one. */
  ghost predicate Clash<T>(s: State<T>, i: nat, k: nat, x: T) {
    && i < |s.threads| && k < |s.threads| && i != k
    && s.threads[i].pc == Acquiring(false, ToAppend(x)) && Brings(s.threads[k].pc, x)
  }

  /** A step of any thread but the two. */
  lemma ClashKept<T>(s: State<T>, i: nat, k: nat, x: T, j: nat)
    requires Clash(s, i, k, x) && Enabled(s, j) && j != i && j != k
    ensures Clash(WorkStep(s, j), i, k, x)
    ensures OnlyWoken(s, j, s.threads[k].pc, WorkStep(s, j).threads[k].pc)
  {
    hide WorkStep;
    OtherPc(s, j, i);
    OtherPc(s, j, k);
  }

  /** A step of the thread that brings the item. */
  lemma ClashNears<T>(s: State<T>, i: nat, k: nat, x: T)
    requires Clash(s, i, k, x) && (s.threads[k].pc.Entered? || (s.threads[k].pc.Acquiring? && s.lock.value > 0))
    ensures Enabled(s, k) && Clash(WorkStep(s, k), i, k, x) && Turns(WorkStep(s, k), k) < Turns(s, k)
    ensures s.threads[k].pc.Entered? ==> WorkStep(s, k).lock == s.lock
    ensures LockUse(WorkStep(s, k).threads[k]) == Through
  {
  }

  /** The item is put on the list, and the other one comes. */
  lemma ClashFails<T(!new)>(s: State<T>, i: nat, k: nat, x: T)
    requires Inv(s) && Clash(s, i, k, x) && s.threads[k].pc.Appending?
    ensures CanFail(s)
  {
    hide Inv, CanFail, AppendFails;
    if x in s.list {
      assert AppendFails(s) by { NowFails(s, k); }
      FailsNow(s);
    } else {
      StepInv(s, Work(k));
      var s' := WorkStep(s, k);
      if Leaves(s', x) {
        var m :| 0 <= m < |s'.threads| && RemovesNext(s'.threads[m].pc);
        TheRemover(s', m, k);
      }
      GetsIn(s', i, x, k);
      FailsLater(s, k);
    }
  }

  lemma NowFails<T>(s: State<T>, k: nat)
    requires k < |s.threads| && s.threads[k].pc.Appending? && s.threads[k].pc.item in s.list
    ensures AppendFails(s)
  {
  }

  /** With the lock free, a sleeper's next turn begins with the thread that was woken for it. */
  lemma WokenGoes<T>(s: State<T>, k: nat) returns (t: nat)
    requires Inv(s) && k < |s.threads| && s.threads[k].pc.OnLock? && s.lock.value > 0
    ensures Enabled(s, t) && s.threads[t].pc.Acquiring? && s.threads[t].pc.woken
    ensures Inv(WorkStep(s, t)) && |WorkStep(s, t).threads| == |s.threads| && WorkStep(s, t).lock == Taken(s.lock)
    ensures LockUse(WorkStep(s, t).threads[t]) == Through && Distance(WorkStep(s, t).threads[t].pc) == 7
  {
    InQueue(s, k);
    t := SomeoneGetsThrough(s.lock, s.threads, LockUse);
    StepInv(s, Work(t));
  }

  lemma OneAtMost<T>(s: State<T>)
    requires Inv(s)
    ensures s.lock.value <= 1
  {
  }

  /** Two threads with the same item: the ASSERT can fail. */
  lemma {:induction false} BothComeIn<T(!new)>(s: State<T>, i: nat, k: nat, x: T, j: nat)
    requires Inv(s) && Clash(s, i, k, x) && j < |s.threads| && (s.lock.value > 0 || LockUse(s.threads[j]) == Through)
    ensures CanFail(s)
    decreases Turns(s, k), Pace(s, k, j)
  {
    hide Inv, AppendFails, CanFail, WorkStep;
    OneAtMost(s);
    if AppendFails(s) {
      FailsNow(s);
    } else if s.threads[k].pc.Appending? {
      ClashFails(s, i, k, x);
    } else if s.threads[k].pc.Entered? || (s.threads[k].pc.Acquiring? && s.lock.value > 0) {
      ClashNears(s, i, k, x);
      StepInv(s, Work(k));
      BothComeIn(WorkStep(s, k), i, k, x, k);
      FailsLater(s, k);
    } else if s.lock.value > 0 {
      var t := WokenGoes(s, k);
      ClashKept(s, i, k, x, t);
      BothComeIn(WorkStep(s, t), i, k, x, t);
      FailsLater(s, t);
    } else {
      HolderStep(s, j);
      ClashKept(s, i, k, x, j);
      if s.threads[k].pc.OnLock? && s.threads[j].pc.Unlocking? {
        NextTurn(s, j, k);
      }
      BothComeIn(WorkStep(s, j), i, k, x, j);
      FailsLater(s, j);
    }
  }

  // ----- The result -----

  lemma {:induction false} WorkStaysTidy<T(!new)>(s: State<T>, run: seq<Action<T>>)
    requires Inv(s) && Tidy(s) && Legal(s, run) && WorkOnly(run)
    ensures !AppendFails(After(s, run))
    decreases |run|
  {
    hide Inv, Tidy, Do, AppendFails;
    if run == [] {
      TidyNeverFails(s);
    } else {
      StepInv(s, run[0]);
      TidyStep(s, run[0]);
      WorkStaysTidy(Do(s, run[0]), run[1..]);
    }
  }

  /**
   A call of Append can make the ASSERT fail, without any further call, if and only if another thread is
   appending the item already, or the item is on the list and not just on its way out.
   */
  lemma CallFailsExactly<T(!new)>(s: State<T>, i: nat, x: T)
    requires Inv(s) && Tidy(s) && Can(s, CallAppend(i, x))
    ensures CanFail(Do(s, CallAppend(i, x))) <==> !CallOk(s, x)
  {
    var s' := Do(s, CallAppend(i, x));
    StepInv(s, CallAppend(i, x));
    if CallOk(s, x) {
      CallHarmless(s, i, x);
    } else {
      CallHarmful(s, i, x);
    }
  }

  lemma CallHarmless<T(!new)>(s: State<T>, i: nat, x: T)
    requires Inv(s) && Tidy(s) && Can(s, CallAppend(i, x)) && CallOk(s, x)
    ensures !CanFail(Do(s, CallAppend(i, x)))
  {
    hide Inv, Tidy, CallOk, AppendFails;
    var s' := Do(s, CallAppend(i, x));
    StepInv(s, CallAppend(i, x));
    TidyStep(s, CallAppend(i, x));
    if CanFail(s') {
      var run :| WorkOnly(run) && Legal(s', run) && AppendFails(After(s', run));
      WorkStaysTidy(s', run);
    }
  }

  lemma CallHarmful<T(!new)>(s: State<T>, i: nat, x: T)
    requires Inv(s) && Can(s, CallAppend(i, x)) && !CallOk(s, x)
    ensures CanFail(Do(s, CallAppend(i, x)))
  {
    hide Inv, CanFail, WorkStep, Leaves;
    var s' := Do(s, CallAppend(i, x));
    StepInv(s, CallAppend(i, x));
    var j := i;
    if s'.lock.value == 0 {
      j := WhoIsThrough(s');
    }
    if k: nat :| k < |s.threads| && Brings(s.threads[k].pc, x) {
      assert Clash(s', i, k, x);
      BothComeIn(s', i, k, x, j);
    } else {
      if Leaves(s', x) {
        LeavesBefore(s, i, x);
      }
      GetsIn(s', i, x, j);
    }
  }

  lemma LeavesBefore<T>(s: State<T>, i: nat, x: T)
    requires Can(s, CallAppend(i, x)) && Leaves(Do(s, CallAppend(i, x)), x)
    ensures Leaves(s, x)
  {
    var s' := Do(s, CallAppend(i, x));
    var m :| 0 <= m < |s'.threads| && RemovesNext(s'.threads[m].pc);
    assert RemovesNext(s.threads[m].pc);
  }

  /** Every call of Append in the run is all right at the moment it is made. */
  ghost predicate CallsOk<T>(s: State<T>, run: seq<Action<T>>)
    requires Legal(s, run)
    decreases |run|
  {
    run == [] || ((run[0].CallAppend? ==> CallOk(s, run[0].item)) && CallsOk(Do(s, run[0]), run[1..]))
  }

  lemma {:induction false} RunTidy<T(!new)>(s: State<T>, run: seq<Action<T>>)
    requires Inv(s) && Tidy(s) && Legal(s, run) && CallsOk(s, run)
    ensures Inv(After(s, run)) && Tidy(After(s, run))
    decreases |run|
  {
    hide Inv, Tidy, Do, CallOk;
    if run != [] {
      StepInv(s, run[0]);
      TidyStep(s, run[0]);
      RunTidy(Do(s, run[0]), run[1..]);
    }
  }

  /** With such calls, by any number of threads in any order, the ASSERT in List::Append never fails. */
  lemma AppendAssertionHolds<T(!new)>(threads: nat, run: seq<Action<T>>)
    requires Legal(Init<T>(threads), run) && CallsOk(Init<T>(threads), run)
    ensures !AppendFails(After(Init<T>(threads), run))
  {
    InitInv<T>(threads);
    hide Inv;
    RunTidy(Init<T>(threads), run);
    TidyNeverFails(After(Init<T>(threads), run));
  }

  /** ... and the next call is the first that can make it fail, if and only if it is not all right. */
  lemma NextCallFailsExactly<T(!new)>(threads: nat, run: seq<Action<T>>, i: nat, x: T)
    requires Legal(Init<T>(threads), run) && CallsOk(Init<T>(threads), run)
    requires Can(After(Init<T>(threads), run), CallAppend(i, x))
    ensures var s := After(Init<T>(threads), run); CanFail(Do(s, CallAppend(i, x))) <==> !CallOk(s, x)
  {
    InitInv<T>(threads);
    hide Inv, Tidy, CanFail, CallOk;
    assert Tidy(Init<T>(threads)) by { InitTidy<T>(threads); }
    RunTidy(Init<T>(threads), run);
    CallFailsExactly(After(Init<T>(threads), run), i, x);
  }

  lemma InitTidy<T(!new)>(threads: nat)
    ensures Tidy(Init<T>(threads))
  {
  }
}
