/**
 Who gets the processor and who is woken, over whole runs. What is made ready, dispatched, put to sleep and woken is
 read off the actions and off the fields before and after them, not off the scheduler's own histories.
 */
module ThreadHistory {
  import opened Histories
  import opened Threads

  /** The thread a step makes ready: a new one, the one that yields, or the one asleep longest. */
  function ReadiedBy(s: State, a: Action): seq<nat>
    requires Can(s, a)
  {
    match a
    case Fork => [|s.status|]
    case Yield => if s.ready == [] then [] else [s.current]
    case Wake(q) => if s.queues[q] == [] then [] else [s.queues[q][0]]
    case _ => []
  }

  /** The thread that a step gives the processor to, if it has one to give it to. */
  function DispatchedBy(s: State, a: Action): seq<nat>
    requires Can(s, a)
  {
    if (a.Yield? || a.Dispatch?) && s.ready != [] then [Do(s, a).current] else []
  }

  /** The thread that a step puts to sleep on queue q. */
  function SleptBy(s: State, a: Action, q: nat): seq<nat> {
    if a == Block(q) then [s.current] else []
  }

  /** The threads that waking queue q adds to the ready list. */
  function WokenBy(s: State, a: Action, q: nat): seq<nat>
    requires Can(s, a)
  {
    if a == Wake(q) && |s.ready| <= |Do(s, a).ready| then Do(s, a).ready[|s.ready|..] else []
  }

  datatype Record = Readied | Dispatched | Slept(q: nat) | Woken(q: nat)

  function Recorded(s: State, a: Action, record: Record): seq<nat>
    requires Can(s, a)
  {
    match record
    case Readied => ReadiedBy(s, a)
    case Dispatched => DispatchedBy(s, a)
    case Slept(q) => SleptBy(s, a, q)
    case Woken(q) => WokenBy(s, a, q)
  }

  /** What each step adds to a record, over a run. */
  function History(s: State, run: seq<Action>, record: Record): seq<nat>
    requires Legal(s, run)
    decreases |run|
  {
    if run == [] then [] else Recorded(s, run[0], record) + History(Do(s, run[0]), run[1..], record)
  }

  // ----- The ready list -----

  /** Every step takes the thread it dispatches from the front and puts the one it makes ready at the back. */
  lemma StepServes(s: State, a: Action)
    requires Can(s, a)
    ensures s.ready + Recorded(s, a, Readied) == Recorded(s, a, Dispatched) + Do(s, a).ready
    ensures var d := Recorded(s, a, Dispatched);
            && d == (if d == [] then [] else [Do(s, a).current])
            && (d == [] ==> Do(s, a).current == s.current)
            && Do(s, a).dispatched == s.dispatched + d
  {
  }

  /** Over every run, threads are dispatched in the order in which they became ready, and the rest are in the list. */
  lemma {:induction false} ServedInOrder(s: State, run: seq<Action>)
    requires Legal(s, run)
    ensures s.ready + History(s, run, Readied) == History(s, run, Dispatched) + After(s, run).ready
    decreases |run|
  {
    hide Do, Recorded, Can;
    if run != [] {
      var s1 := Do(s, run[0]);
      StepServes(s, run[0]);
      ServedInOrder(s1, run[1..]);
      Chain(s.ready, Recorded(s, run[0], Readied), Recorded(s, run[0], Dispatched), s1.ready,
            History(s1, run[1..], Readied), History(s1, run[1..], Dispatched), After(s, run).ready);
    }
  }

  /** The current thread is the one dispatched last, and Run remembers all of them. */
  lemma {:induction false} DispatchesRemembered(s: State, run: seq<Action>)
    requires Legal(s, run)
    ensures var d := History(s, run, Dispatched);
            && After(s, run).dispatched == s.dispatched + d
            && After(s, run).current == if d == [] then s.current else d[|d| - 1]
    decreases |run|
  {
    hide Do, Recorded, Can;
    if run != [] {
      StepServes(s, run[0]);
      DispatchesRemembered(Do(s, run[0]), run[1..]);
      var first, later := Recorded(s, run[0], Dispatched), History(Do(s, run[0]), run[1..], Dispatched);
      assert History(s, run, Dispatched) == first + later;
      assert s.dispatched + (first + later) == (s.dispatched + first) + later;
    }
  }

  /**
   A thread that yields to others gets the processor again only after all that were ready when it yielded: whatever
   happens next, the threads dispatched from then on are these, in order, and then the one that yielded.
   */
  lemma YieldsToAll(s: State, run: seq<Action>)
    requires Can(s, Yield) && s.ready != [] && Legal(s, [Yield] + run)
    ensures var d, turns := History(s, [Yield] + run, Dispatched), s.ready + [s.current];
            && s.ready[..1] <= d
            && (d <= turns || turns <= d)
  {
    hide Do;
    var all := [Yield] + run;
    assert all[0] == Yield && all[1..] == run;
    var s1 := Do(s, Yield);
    StepServes(s, Yield);
    ServedInOrder(s1, run);
    var readied, later := History(s1, run, Readied), History(s1, run, Dispatched);
    assert History(s, all, Dispatched) == [s1.current] + later;
    assert s.ready + [s.current] == [s1.current] + s1.ready;
    assert ([s1.current] + s1.ready) + readied == ([s1.current] + later) + After(s1, run).ready by {
      assert ([s1.current] + s1.ready) + readied == [s1.current] + (s1.ready + readied);
      assert ([s1.current] + later) + After(s1, run).ready == [s1.current] + (later + After(s1, run).ready);
    }
    Prefixes([s1.current] + s1.ready, readied, [s1.current] + later, After(s1, run).ready);
  }

  // ----- The semaphores' queues -----

  lemma StepWakes(s: State, a: Action, q: nat)
    requires Can(s, a) && q < |s.queues|
    ensures |Do(s, a).queues| == |s.queues|
    ensures s.queues[q] + Recorded(s, a, Slept(q)) == Recorded(s, a, Woken(q)) + Do(s, a).queues[q]
    ensures a == Wake(q) ==> |WokenBy(s, a, q)| == if s.queues[q] == [] then 0 else 1
  {
  }

  /** Over every run, the threads woken from a queue are those put to sleep on it, in the same order. */
  lemma {:induction false} WokenInOrder(s: State, run: seq<Action>, q: nat)
    requires Legal(s, run) && q < |s.queues|
    ensures |After(s, run).queues| == |s.queues|
    ensures s.queues[q] + History(s, run, Slept(q)) == History(s, run, Woken(q)) + After(s, run).queues[q]
    decreases |run|
  {
    hide Do, Recorded, Can;
    if run != [] {
      var s1 := Do(s, run[0]);
      StepWakes(s, run[0], q);
      WokenInOrder(s1, run[1..], q);
      Chain(s.queues[q], Recorded(s, run[0], Slept(q)), Recorded(s, run[0], Woken(q)), s1.queues[q],
            History(s1, run[1..], Slept(q)), History(s1, run[1..], Woken(q)), After(s, run).queues[q]);
    }
  }

  // ----- Threads that have finished -----

  /** The thread that a step lets finish. */
  function FinishedBy(s: State, a: Action): seq<nat> {
    if a.Finish? then [s.current] else []
  }

  /** The thread that has finished and still holds the processor. */
  function Finishing(s: State): seq<nat> {
    if s.phase == Sleeping(true) then [s.current] else []
  }

  function FinishedIn(s: State, run: seq<Action>): seq<nat>
    requires Legal(s, run)
    decreases |run|
  {
    if run == [] then [] else FinishedBy(s, run[0]) + FinishedIn(Do(s, run[0]), run[1..])
  }

  /** The threads destroyed from one state to a later one. */
  function NewlyDestroyed(s: State, s': State): seq<nat> {
    if |s.destroyed| <= |s'.destroyed| then s'.destroyed[|s.destroyed|..] else []
  }

  lemma StepDestroys(s: State, a: Action)
    requires Can(s, a)
    ensures s.destroyed + NewlyDestroyed(s, Do(s, a)) == Do(s, a).destroyed
    ensures Finishing(s) + FinishedBy(s, a) == NewlyDestroyed(s, Do(s, a)) + Finishing(Do(s, a))
  {
  }

  /**
   Over every run, the threads destroyed are those that have finished, in that order, each as soon as another
   one is dispatched.
   */
  lemma {:induction false} DestroyedInOrder(s: State, run: seq<Action>)
    requires Legal(s, run)
    ensures s.destroyed + NewlyDestroyed(s, After(s, run)) == After(s, run).destroyed
    ensures Finishing(s) + FinishedIn(s, run) == NewlyDestroyed(s, After(s, run)) + Finishing(After(s, run))
    decreases |run|
  {
    hide Do, Can, Finishing, FinishedBy;
    if run != [] {
      var s1 := Do(s, run[0]);
      StepDestroys(s, run[0]);
      DestroyedInOrder(s1, run[1..]);
      var first, later := NewlyDestroyed(s, s1), NewlyDestroyed(s1, After(s1, run[1..]));
      assert NewlyDestroyed(s, After(s, run)) == first + later;
      Chain(Finishing(s), FinishedBy(s, run[0]), first, Finishing(s1), FinishedIn(s1, run[1..]), later,
            Finishing(After(s, run)));
    }
  }
}
