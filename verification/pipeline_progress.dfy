/**
 What the pipeline achieves over whole runs: every line is written exactly once, threads
 cannot keep each other waiting while there is work, and the writer finishes. The one way to hang
 is a job too short for the controller to ever start a consumer.
 */
module PipelineProgress {
  import opened Sums
  import opened Options
  import opened TsQueues
  import opened Pipeline
  import opened PipelineInvariant
  import opened PipelineSteps

  // ----- Mutual exclusion -----

  lemma MutualExclusion(job: Job, s: State, q: Queue, i: nat, j: nat)
    requires Reachable(job, s) && i < |s.threads| && j < |s.threads|
    requires Holds(s.threads[i].pc, q) && Holds(s.threads[j].pc, q)
    ensures i == j && !(q == WorkerQueue && s.controller == HasMutex)
  {
    ReachableInv(job, s);
    OwnedFree(s, i, q);
    OwnedFree(s, j, q);
  }

  // ----- Exactly once -----

  function FinishAll(job: Job, q: Queue, items: seq<Item>): (r: seq<Item>)
    ensures |r| == |items|
  {
    seq(|items|, i requires 0 <= i < |items| => Finish(job, q, items[i]))
  }

  /** The lines to be written: each input line, its value through the producer's and then the consumer's transform. */
  function Expected(job: Job): (r: seq<Item>)
    ensures r == FinishAll(job, ReaderQueue, job.input)
  {
    seq(|job.input|, i requires 0 <= i < |job.input| =>
      var x := job.input[i];
      Item(x.key, job.consumerTransform(x.opcode, job.producerTransform(x.opcode, x.val)), x.opcode))
  }

  lemma {:induction false} CopiesCount(job: Job, q: Queue, items: seq<Item>, y: Item)
    ensures Copies(job, q, items, y) == multiset(FinishAll(job, q, items))[y]
  {
    if items != [] {
      CopiesRest(job, q, items, y);
      CopiesCount(job, q, items[1..], y);
      assert FinishAll(job, q, items) == [Finish(job, q, items[0])] + FinishAll(job, q, items[1..]);
    }
  }

  lemma MultisetSize(a: multiset<Item>, b: multiset<Item>)
    requires a <= b
    ensures |a| <= |b|
    ensures |b| <= |a| ==> a == b
  {
    assert b == a + (b - a);
  }

  /** Whatever is found in queue q is part of what is to be written. */
  lemma PartOfExpected(job: Job, s: State, q: Queue, items: seq<Item>)
    requires ExactlyOnce(job, s)
    requires items == Get(s, q).items || (q == WriterQueue && items == s.output)
    ensures multiset(FinishAll(job, q, items)) <= multiset(Expected(job))
    ensures |items| <= |job.input|
    ensures |items| == |job.input| ==> multiset(FinishAll(job, q, items)) == multiset(Expected(job))
  {
    forall y: Item ensures multiset(FinishAll(job, q, items))[y] <= multiset(Expected(job))[y] {
      CopiesCount(job, q, items, y);
      CopiesCount(job, ReaderQueue, job.input, y);
      assert Everywhere(job, s, y) == Copies(job, ReaderQueue, job.input, y);
    }
    MultisetSize(multiset(FinishAll(job, q, items)), multiset(Expected(job)));
  }

  /** At any time the output is part of the expected lines; once the writer is done it is all of them. */
  lemma WrittenExactlyOnce(job: Job, s: State)
    requires Reachable(job, s)
    ensures multiset(s.output) <= multiset(Expected(job))
    ensures s.threads != [] && |s.threads| > 1
    ensures s.threads[1].role == Writer
    ensures s.threads[1].pc == Done ==> multiset(s.output) == multiset(Expected(job))
  {
    ReachableInv(job, s);
    assert FinishAll(job, WriterQueue, s.output) == s.output;
    PartOfExpected(job, s, WriterQueue, s.output);
  }

  /** A consumer that has been cancelled and is gone took no item with it, and only cancelled consumers go. */
  lemma ScalingDownDropsNothing(job: Job, s: State, i: nat)
    requires Reachable(job, s) && i < |s.threads| && s.threads[i].role.Consumer? && s.threads[i].pc == Done
    ensures s.threads[i].role == Consumer(true) && i !in s.consumers
    ensures forall y :: Everywhere(job, s, y) == Copies(job, ReaderQueue, job.input, y)
  {
    ReachableInv(job, s);
  }

  // ----- Nobody can move -----

  /** No thread but the controller has a step of its own. */
  ghost predicate Quiet(s: State) {
    s.controller != HasMutex && forall i :: 0 <= i < |s.threads| ==> !Enabled(s, i)
  }

  lemma HolderEnabled(s: State, i: nat, q: Queue)
    requires Mutexes(s) && Get(s, q).owner == By(i)
    ensures Enabled(s, i)
  {
  }

  lemma QuietFree(job: Job, s: State, q: Queue)
    requires Inv(job, s) && Quiet(s)
    ensures Get(s, q).owner == Free
  {
    if Get(s, q).owner.By? {
      var i := Get(s, q).owner.i;
      HolderEnabled(s, i, q);
    }
  }

  /** In a quiet state every thread is done or blocked on a condition. */
  lemma QuietBlocked(job: Job, s: State, i: nat)
    requires Inv(job, s) && Quiet(s) && i < |s.threads|
    ensures var pc := s.threads[i].pc; pc.Done? || ((pc.Enqueue? || pc.Dequeue?) && pc.phase == Waiting)
  {
    assert !Enabled(s, i);
    var pc := s.threads[i].pc;
    if pc.Enqueue? || pc.Dequeue? {
      QuietFree(job, s, pc.q);
    }
  }

  /** Nobody is on the way to a waiting thread, so its condition is false. */
  lemma QuietWaitsRightly(job: Job, s: State, i: nat, q: Queue, side: Side)
    requires Inv(job, s) && Quiet(s) && IsWaiting(s, i, q, side)
    ensures Room(q, |Get(s, q).items|, side) == 0
  {
    forall k | 0 <= k < |s.threads|
      ensures !Counts(s.threads[k].pc, q, side, Awake) && !Counts(s.threads[k].pc, q, side, Signals)
    {
      QuietBlocked(job, s, k);
    }
    TallyNone(s.threads, q, side, Awake);
    TallyNone(s.threads, q, side, Signals);
    TallySome(s.threads, i, q, side, Waits);
    assert WakeupOk(s, q, side);
  }

  /** While the worker queue has a free slot, a quiet pipeline has read everything and handed it on. */
  lemma QuietUpstream(job: Job, s: State)
    requires Inv(job, s) && Quiet(s) && |s.worker.items| < WORKER_QUEUE_SIZE
    ensures s.unread == [] && s.reader.items == []
    ensures forall i :: 0 <= i < 6 ==> InHand(job, s.threads[i]) == None
  {
    forall i | 2 <= i < 6 ensures s.threads[i].pc == Dequeue(ReaderQueue, Waiting) && s.reader.items == [] {
      QuietBlocked(job, s, i);
      if s.threads[i].pc.Enqueue? {
        QuietWaitsRightly(job, s, i, WorkerQueue, Full);
      } else {
        QuietWaitsRightly(job, s, i, ReaderQueue, Empty);
      }
    }
    assert s.threads[2].role == Producer;
    QuietBlocked(job, s, 0);
    if s.threads[0].pc.Enqueue? {
      QuietWaitsRightly(job, s, 0, ReaderQueue, Full);
    }
    QuietBlocked(job, s, 1);
    assert s.threads[1].role == Writer;
  }

  /** With a consumer still there, a quiet pipeline has written everything and the writer is done. */
  lemma QuietMeansFinished(job: Job, s: State, c: nat)
    requires Inv(job, s) && Quiet(s)
    requires c < |s.threads| && s.threads[c].role.Consumer? && s.threads[c].pc != Done
    ensures s.threads[1].pc == Done && multiset(s.output) == multiset(Expected(job))
  {
    QuietBlocked(job, s, 1);
    if s.threads[1].pc != Done {
      QuietWaitsRightly(job, s, 1, WriterQueue, Empty);
      QuietDrained(job, s, c);
      FromEmpty(job, s);
    } else {
      assert FinishAll(job, WriterQueue, s.output) == s.output;
      PartOfExpected(job, s, WriterQueue, s.output);
    }
  }

  lemma QuietDrained(job: Job, s: State, c: nat)
    requires Inv(job, s) && Quiet(s) && s.writer.items == []
    requires c < |s.threads| && s.threads[c].role.Consumer? && s.threads[c].pc != Done
    ensures s.unread == [] && s.reader.items == [] && s.worker.items == []
    ensures forall i :: 0 <= i < |s.threads| ==> InHand(job, s.threads[i]) == None
  {
    QuietConsumer(job, s, c);
    QuietUpstream(job, s);
    forall i | 0 <= i < |s.threads| ensures InHand(job, s.threads[i]) == None {
      if 6 <= i && s.threads[i].pc != Done {
        QuietConsumer(job, s, i);
      }
    }
  }

  /** The writer's queue has room, so a blocked consumer is starved of work. */
  lemma QuietConsumer(job: Job, s: State, c: nat)
    requires Inv(job, s) && Quiet(s) && s.writer.items == []
    requires c < |s.threads| && s.threads[c].role.Consumer? && s.threads[c].pc != Done
    ensures s.threads[c].pc == Dequeue(WorkerQueue, Waiting) && s.worker.items == []
  {
    QuietBlocked(job, s, c);
    if s.threads[c].pc.Enqueue? {
      QuietWaitsRightly(job, s, c, WriterQueue, Full);
    } else {
      QuietWaitsRightly(job, s, c, WorkerQueue, Empty);
    }
  }

  /** Items that will be written as the whole input will are as many as the input. */
  lemma SameCopies(job: Job, q: Queue, items: seq<Item>)
    requires forall y: Item :: Copies(job, q, items, y) == Copies(job, ReaderQueue, job.input, y)
    ensures |items| == |job.input|
  {
    forall y: Item ensures multiset(FinishAll(job, q, items))[y] == multiset(Expected(job))[y] {
      CopiesCount(job, q, items, y);
      CopiesCount(job, ReaderQueue, job.input, y);
    }
    assert multiset(FinishAll(job, q, items)) == multiset(Expected(job));
    assert |multiset(FinishAll(job, q, items))| == |items|;
    assert |multiset(Expected(job))| == |job.input|;
  }

  /** If the items are nowhere else, they are all in the output. */
  lemma FromEmpty(job: Job, s: State)
    requires ExactlyOnce(job, s)
    requires s.unread == [] && s.reader.items == [] && s.worker.items == [] && s.writer.items == []
    requires forall i :: 0 <= i < |s.threads| ==> InHand(job, s.threads[i]) == None
    ensures |s.output| == |job.input|
  {
    forall y: Item ensures Copies(job, WriterQueue, s.output, y) == Copies(job, ReaderQueue, job.input, y) {
      assert Everywhere(job, s, y) == Copies(job, ReaderQueue, job.input, y);
      HandsNone(job, s.threads, y);
    }
    SameCopies(job, WriterQueue, s.output);
  }

  /**
   Deadlock freedom: while a consumer that is not gone exists and lines are missing, some reader, producer,
   consumer or writer step is possible, unless the controller is just reading the queue size (and will let go).
   */
  lemma DeadlockFree(job: Job, s: State, c: nat)
    requires Reachable(job, s)
    requires c < |s.threads| && s.threads[c].role.Consumer? && s.threads[c].pc != Done
    requires |s.output| < |job.input|
    ensures (exists i :: Enabled(s, i)) || s.controller == HasMutex
  {
    ReachableInv(job, s);
    if s.controller != HasMutex && forall i :: 0 <= i < |s.threads| ==> !Enabled(s, i) {
      QuietMeansFinished(job, s, c);
    }
  }

  /** Once there is a consumer, there always is one that is neither cancelled nor gone. */
  lemma ConsumersLast(job: Job, s: State)
    requires Reachable(job, s) && |s.threads| > 6
    ensures s.consumers != []
    ensures forall k :: 0 <= k < |s.consumers| ==>
      s.consumers[k] < |s.threads| && s.threads[s.consumers[k]].role == Consumer(false)
          && s.threads[s.consumers[k]].pc != Done
  {
    ReachableInv(job, s);
  }
}
