/**
 Calls of the shared list over whole runs: each call of Append appends its item once, each call of RemoveFront
 removes one item, a bounded number of steps is all it takes, and waiting consumers are signalled in turn.
 */
module SynchListProgress {
  import opened Histories
  import opened Sums
  import opened Semaphores
  import opened SynchLists
  import opened SynchListSteps

  // ----- What a thread has still to do -----

  function Bringing<T(==)>(x: T): Thread<T> -> nat {
    (t: Thread<T>) => One(Brings(t.pc, x))
  }

  function BringsAny<T>(): Thread<T> -> nat {
    (t: Thread<T>) =>
      One(((t.pc.Acquiring? || t.pc.OnLock? || t.pc.Entered?) && t.pc.goal.ToAppend?) || t.pc.Appending?)
  }

  /** In RemoveFront, and the item is still to be removed. */
  predicate Wants<T>(pc: Pc<T>) {
    || ((pc.Acquiring? || pc.OnLock? || pc.Entered?) && !pc.goal.ToAppend?)
    || pc.Checking? || pc.Parking? || pc.Taking? || Parked(pc)
  }

  function Wanting<T>(): Thread<T> -> nat {
    (t: Thread<T>) => One(Wants(t.pc))
  }

  /** Steps until the call returns or sleeps on its own semaphore, and those of a thread that it will wake. */
  function PcWeight<T>(pc: Pc<T>): nat {
    match pc
    case Idle => 0
    case OnWaiter => 0
    case AtWaiter(_) => 1
    case Unlocking(_) => 3
    case Leaving(_) => 4
    case Parking => 5
    case Taking(_) => 5
    case Checking(_) => 6
    case Waking(_) => 14
    case Signalling => 15
    case Appending(_) => 16
    case Entered(goal) => GoalWeight(goal)
    case OnLock(goal) => GoalWeight(goal)
    case Acquiring(_, goal) => GoalWeight(goal) + 1
  }

  function GoalWeight<T>(goal: Goal<T>): nat {
    if goal.ToAppend? then 17 else 7
  }

  function Weight<T>(): Thread<T> -> nat {
    (t: Thread<T>) => PcWeight(t.pc) + 8 * t.tokens
  }

  lemma SumsSet<T>(ts: seq<Thread<T>>, i: nat, t: Thread<T>, x: T)
    requires i < |ts|
    ensures Sum(ts[i := t], Weight()) + Weight()(ts[i]) == Sum(ts, Weight()) + Weight()(t)
    ensures Sum(ts[i := t], Wanting()) + Wanting()(ts[i]) == Sum(ts, Wanting()) + Wanting()(t)
    ensures Sum(ts[i := t], BringsAny()) + BringsAny()(ts[i]) == Sum(ts, BringsAny()) + BringsAny()(t)
    ensures Sum(ts[i := t], Bringing(x)) + Bringing(x)(ts[i]) == Sum(ts, Bringing(x)) + Bringing(x)(t)
  {
    SumUpdate(ts, i, t, Weight());
    SumUpdate(ts, i, t, Wanting());
    SumUpdate(ts, i, t, BringsAny());
    SumUpdate(ts, i, t, Bringing(x));
  }

  /** The account of the calls: what has been appended and removed, and what is still to be. */
  function Appends<T(==)>(s: State<T>, x: T): nat {
    multiset(s.appended)[x] + Sum(s.threads, Bringing(x))
  }

  function AllAppends<T>(s: State<T>): nat {
    |s.appended| + Sum(s.threads, BringsAny())
  }

  function Removals<T>(s: State<T>): nat {
    |s.removed| + Sum(s.threads, Wanting())
  }

  function WorkLeft<T>(s: State<T>): nat {
    Sum(s.threads, Weight())
  }

  ghost predicate SameAccount<T>(s: State<T>, s': State<T>, x: T) {
    Appends(s', x) == Appends(s, x) && AllAppends(s') == AllAppends(s) && Removals(s') == Removals(s)
  }

  /** The ASSERT of List::Append or of List::RemoveFront would fail in the next step of thread i. */
  predicate Fails<T(==)>(s: State<T>, i: nat)
    requires i < |s.threads|
  {
    (s.threads[i].pc.Appending? && s.threads[i].pc.item in s.list) || (s.threads[i].pc.Taking? && s.list == [])
  }

  // ----- One step -----

  /** What a thread still owes stays the same, and it may have come up to that much closer to going on. */
  ghost predicate SameDuty<T>(t: Thread<T>, t': Thread<T>, x: T, closer: int) {
    && Bringing(x)(t') == Bringing(x)(t) && BringsAny()(t') == BringsAny()(t) && Wanting()(t') == Wanting()(t)
    && Weight()(t') <= Weight()(t) + closer
  }

  lemma DutySums<T>(ts: seq<Thread<T>>, i: nat, t: Thread<T>, x: T, closer: int)
    requires i < |ts| && SameDuty(ts[i], t, x, closer)
    ensures Sum(ts[i := t], Weight()) <= Sum(ts, Weight()) + closer
    ensures Sum(ts[i := t], Wanting()) == Sum(ts, Wanting())
    ensures Sum(ts[i := t], BringsAny()) == Sum(ts, BringsAny())
    ensures Sum(ts[i := t], Bringing(x)) == Sum(ts, Bringing(x))
  {
    hide Sum;
    SumsSet(ts, i, t, x);
  }

  lemma Duties<T>(t: Thread<T>, x: T)
    ensures SameDuty(t, Roused(t), x, 1) && SameDuty(t, Tokened(t), x, 9)
    ensures t.pc.Unlocking? ==> SameDuty(t, t.(pc := if t.pc.toWait then AtWaiter(false) else Pc.Idle), x, -2)
    ensures t.pc.Waking? ==> SameDuty(t, t.(pc := Leaving(false)), x, -10)
  {
  }

  lemma UnlockShrinks<T>(s: State<T>, i: nat, x: T)
    requires i < |s.threads| && s.threads[i].pc.Unlocking?
    ensures SameAccount(s, WorkStep(s, i), x) && WorkLeft(WorkStep(s, i)) < WorkLeft(s)
  {
    hide Sum, SameDuty, Roused;
    var pc := if s.threads[i].pc.toWait then AtWaiter(false) else Pc.Idle;
    var ts := s.threads[i := s.threads[i].(pc := pc)];
    Duties(s.threads[i], x);
    DutySums(s.threads, i, ts[i], x, -2);
    if s.lock.queue != [] && s.lock.queue[0] < |ts| {
      var j := s.lock.queue[0];
      Duties(ts[j], x);
      DutySums(ts, j, Roused(ts[j]), x, 1);
    }
  }

  lemma SignalShrinks<T>(s: State<T>, i: nat, x: T)
    requires i < |s.threads| && s.threads[i].pc.Waking?
    ensures SameAccount(s, WorkStep(s, i), x) && WorkLeft(WorkStep(s, i)) < WorkLeft(s)
  {
    hide Sum, SameDuty, Tokened;
    var w := s.threads[i].pc.waiter;
    var ts := s.threads[i := s.threads[i].(pc := Leaving(false))];
    Duties(s.threads[i], x);
    DutySums(s.threads, i, ts[i], x, -10);
    if w < |ts| {
      Duties(ts[w], x);
      DutySums(ts, w, Tokened(ts[w]), x, 9);
    }
  }

  /** Thread i has gone on by itself: less left to do, and what it no longer owes has been done. */
  ghost predicate DutyDone<T>(s: State<T>, s': State<T>, i: nat, x: T)
    requires i < |s.threads|
  {
    && |s'.threads| == |s.threads| && s'.threads == s.threads[i := s'.threads[i]]
    && multiset(s'.appended)[x] + Bringing(x)(s'.threads[i]) == multiset(s.appended)[x] + Bringing(x)(s.threads[i])
    && |s'.appended| + BringsAny()(s'.threads[i]) == |s.appended| + BringsAny()(s.threads[i])
    && |s'.removed| + Wanting()(s'.threads[i]) == |s.removed| + Wanting()(s.threads[i])
    && Weight()(s'.threads[i]) < Weight()(s.threads[i])
  }

  lemma LockDuty<T>(s: State<T>, i: nat, x: T)
    requires i < |s.threads| && (s.threads[i].pc.Acquiring? || s.threads[i].pc.Entered?)
    ensures DutyDone(s, WorkStep(s, i), i, x)
  {
  }

  lemma ListDuty<T>(s: State<T>, i: nat, x: T)
    requires i < |s.threads| && !Fails(s, i) && (s.threads[i].pc.Appending? || s.threads[i].pc.Taking?)
    ensures DutyDone(s, WorkStep(s, i), i, x)
  {
    hide Unlock, Roused, Tokened;
  }

  lemma WaitDuty<T>(s: State<T>, i: nat, x: T)
    requires i < |s.threads|
    requires var pc := s.threads[i].pc; pc.Signalling? || pc.Checking? || pc.Parking?
    ensures DutyDone(s, WorkStep(s, i), i, x)
  {
    hide Unlock, Roused, Tokened;
  }

  lemma LeaveDuty<T>(s: State<T>, i: nat, x: T)
    requires i < |s.threads| && (s.threads[i].pc.Leaving? || s.threads[i].pc.AtWaiter?)
    ensures DutyDone(s, WorkStep(s, i), i, x)
  {
    hide Unlock, Roused, Tokened;
  }

  lemma OwnShrinks<T>(s: State<T>, i: nat, x: T)
    requires Enabled(s, i) && !Fails(s, i) && !s.threads[i].pc.Unlocking? && !s.threads[i].pc.Waking?
    ensures SameAccount(s, WorkStep(s, i), x) && WorkLeft(WorkStep(s, i)) < WorkLeft(s)
  {
    hide Sum, WorkStep, Fails;
    match s.threads[i].pc {
      case Acquiring(_, _) => LockDuty(s, i, x);
      case Entered(_) => LockDuty(s, i, x);
      case Appending(_) => ListDuty(s, i, x);
      case Taking(_) => ListDuty(s, i, x);
      case Leaving(_) => LeaveDuty(s, i, x);
      case AtWaiter(_) => LeaveDuty(s, i, x);
      case _ => WaitDuty(s, i, x);
    }
    SumsSet(s.threads, i, WorkStep(s, i).threads[i], x);
  }

  lemma StepShrinks<T>(s: State<T>, a: Action<T>, x: T)
    requires Can(s, a) && (a.Work? ==> !Fails(s, a.i))
    ensures var s' := Do(s, a);
            && Appends(s', x) == Appends(s, x) + One(a.CallAppend? && a.item == x)
            && AllAppends(s') == AllAppends(s) + One(a.CallAppend?)
            && Removals(s') == Removals(s) + One(a.CallRemove?)
            && WorkLeft(s') + One(a.Work?) <= WorkLeft(s) + 18 * One(a.CallAppend?) + 8 * One(a.CallRemove?)
  {
    hide Sum, WorkStep, SameAccount;
    match a
    case CallAppend(i, y) => SumsSet(s.threads, i, s.threads[i].(pc := Acquiring(false, ToAppend(y))), x);
    case CallRemove(i) => SumsSet(s.threads, i, s.threads[i].(pc := Acquiring(false, ToRemove)), x);
    case Work(i) => WorkAccount(s, i, x);
  }

  lemma WorkAccount<T>(s: State<T>, i: nat, x: T)
    requires Enabled(s, i) && !Fails(s, i)
    ensures var s' := WorkStep(s, i);
            && Appends(s', x) == Appends(s, x) && AllAppends(s') == AllAppends(s) && Removals(s') == Removals(s)
            && WorkLeft(s') < WorkLeft(s)
  {
    hide WorkStep, Appends, AllAppends, Removals, WorkLeft;
    match s.threads[i].pc
    case Unlocking(_) => UnlockShrinks(s, i, x);
    case Waking(_) => SignalShrinks(s, i, x);
    case _ => OwnShrinks(s, i, x);
  }

  // ----- Whole runs -----

  ghost predicate AssertsHold<T>(s: State<T>, run: seq<Action<T>>)
    requires Legal(s, run)
    decreases |run|
  {
    run == [] || ((run[0].Work? ==> !Fails(s, run[0].i)) && AssertsHold(Do(s, run[0]), run[1..]))
  }

  function AppendCalls<T>(run: seq<Action<T>>): nat {
    if run == [] then 0 else One(run[0].CallAppend?) + AppendCalls(run[1..])
  }

  function AppendCallsOf<T(==)>(run: seq<Action<T>>, x: T): nat {
    if run == [] then 0 else One(run[0].CallAppend? && run[0].item == x) + AppendCallsOf(run[1..], x)
  }

  function RemoveCalls<T>(run: seq<Action<T>>): nat {
    if run == [] then 0 else One(run[0].CallRemove?) + RemoveCalls(run[1..])
  }

  function Steps<T>(run: seq<Action<T>>): nat {
    if run == [] then 0 else One(run[0].Work?) + Steps(run[1..])
  }

  lemma {:induction false} RunAccount<T>(s: State<T>, run: seq<Action<T>>, x: T)
    requires Legal(s, run) && AssertsHold(s, run)
    ensures var s' := After(s, run);
            && Appends(s', x) == Appends(s, x) + AppendCallsOf(run, x)
            && AllAppends(s') == AllAppends(s) + AppendCalls(run)
            && Removals(s') == Removals(s) + RemoveCalls(run)
            && Steps(run) + WorkLeft(s') <= WorkLeft(s) + 18 * AppendCalls(run) + 8 * RemoveCalls(run)
    decreases |run|
  {
    hide Do, Can, Fails, Appends, AllAppends, Removals, WorkLeft;
    if run != [] {
      StepShrinks(s, run[0], x);
      RunAccount(Do(s, run[0]), run[1..], x);
    }
  }

  lemma InitAccount<T>(threads: nat, x: T)
    ensures var s := Init<T>(threads); Appends(s, x) == AllAppends(s) == Removals(s) == WorkLeft(s) == 0
  {
    var s := Init<T>(threads);
    SumZero(s.threads, Bringing(x));
    SumZero(s.threads, BringsAny());
    SumZero(s.threads, Wanting());
    SumZero(s.threads, Weight());
  }

  /**
   Over every run of any number of threads, in which no ASSERT has failed: every call of Append has appended its
   item, once, or has still to do so, and every call of RemoveFront has removed one item or has still to do so. The
   threads make no more than 18 steps for each call of Append and 8 for each call of RemoveFront.
   */
  lemma CallsAccountedFor<T>(threads: nat, run: seq<Action<T>>, x: T)
    requires Legal(Init<T>(threads), run) && AssertsHold(Init<T>(threads), run)
    ensures var s := After(Init<T>(threads), run);
            && multiset(s.appended)[x] + Sum(s.threads, Bringing(x)) == AppendCallsOf(run, x)
            && |s.removed| + Sum(s.threads, Wanting()) == RemoveCalls(run)
            && Steps(run) <= 18 * AppendCalls(run) + 8 * RemoveCalls(run)
  {
    InitAccount<T>(threads, x);
    RunAccount(Init<T>(threads), run, x);
  }

  /**
   Where no thread can go on, every item has been appended as often as it was brought, and as many have been removed
   as there were calls for, or as there were items.
   */
  lemma QuietMeansServed<T(!new)>(threads: nat, run: seq<Action<T>>, x: T)
    requires Legal(Init<T>(threads), run) && AssertsHold(Init<T>(threads), run)
    requires var s := After(Init<T>(threads), run); forall i :: 0 <= i < |s.threads| ==> !Enabled(s, i)
    ensures var s := After(Init<T>(threads), run);
            && multiset(s.appended)[x] == AppendCallsOf(run, x)
            && |s.removed| == if AppendCalls(run) < RemoveCalls(run) then AppendCalls(run) else RemoveCalls(run)
  {
    hide Legal, After, AssertsHold, Enabled, Appends, AllAppends, Removals, WorkLeft;
    InitAccount<T>(threads, x);
    RunAccount(Init<T>(threads), run, x);
    var s := After(Init<T>(threads), run);
    assert Reachable(s);
    QuietMeansEmpty(s);
    FirstInFirstOut(s);
    assert |s.appended| == |s.removed| + |s.list|;
    QuietAccount(s, x);
  }

  lemma QuietAccount<T>(s: State<T>, x: T)
    requires forall i: nat :: i < |s.threads| && !s.threads[i].pc.Idle? ==> s.threads[i].pc.OnWaiter? && s.list == []
    ensures Appends(s, x) == multiset(s.appended)[x] && AllAppends(s) == |s.appended|
    ensures Removals(s) == |s.removed| || (s.list == [] && Removals(s) >= |s.removed|)
  {
    SumZero(s.threads, Bringing(x));
    SumZero(s.threads, BringsAny());
    if forall i: nat :: i < |s.threads| ==> s.threads[i].pc.Idle? {
      SumZero(s.threads, Wanting());
    }
  }

  // ----- Who is signalled -----

  /** The thread that joins the wait queue in a step. */
  function ParkedBy<T>(s: State<T>, a: Action<T>): seq<nat>
    requires Can(s, a)
  {
    if a.Work? && s.threads[a.i].pc.Parking? then [a.i] else []
  }

  /** The thread whose semaphore the signaller is about to V after a step. */
  ghost function SignalledBy<T>(s: State<T>, a: Action<T>): seq<nat>
    requires Can(s, a)
  {
    if a.Work? && s.threads[a.i].pc.Signalling? && |Do(s, a).threads| == |s.threads| && Do(s, a).threads[a.i].pc.Waking?
    then [Do(s, a).threads[a.i].pc.waiter] else []
  }

  ghost function ParkedIn<T>(s: State<T>, run: seq<Action<T>>): seq<nat>
    requires Legal(s, run)
    decreases |run|
  {
    if run == [] then [] else ParkedBy(s, run[0]) + ParkedIn(Do(s, run[0]), run[1..])
  }

  ghost function SignalledIn<T>(s: State<T>, run: seq<Action<T>>): seq<nat>
    requires Legal(s, run)
    decreases |run|
  {
    if run == [] then [] else SignalledBy(s, run[0]) + SignalledIn(Do(s, run[0]), run[1..])
  }

  lemma StepSignals<T>(s: State<T>, a: Action<T>)
    requires Can(s, a)
    ensures s.waitQueue + ParkedBy(s, a) == SignalledBy(s, a) + Do(s, a).waitQueue
    ensures a.Work? && s.threads[a.i].pc.Signalling? && s.waitQueue != [] ==> SignalledBy(s, a) != []
  {
  }

  /** Over every run, consumers are signalled in the order in which they began to wait. */
  lemma {:induction false} SignalledInTurn<T>(s: State<T>, run: seq<Action<T>>)
    requires Legal(s, run)
    ensures s.waitQueue + ParkedIn(s, run) == SignalledIn(s, run) + After(s, run).waitQueue
    decreases |run|
  {
    hide Do, Can, ParkedBy, SignalledBy;
    if run != [] {
      var s1 := Do(s, run[0]);
      StepSignals(s, run[0]);
      SignalledInTurn(s1, run[1..]);
      Chain(s.waitQueue, ParkedBy(s, run[0]), SignalledBy(s, run[0]), s1.waitQueue,
            ParkedIn(s1, run[1..]), SignalledIn(s1, run[1..]), After(s, run).waitQueue);
    }
  }
}
