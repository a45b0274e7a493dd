/**
 machine/interrupt.cc: simulated time, and the interrupts that devices have scheduled. What a handler
 does is left open, except that it may schedule further interrupts and ask for a context
 switch; it runs with interrupts off and cannot move the clock.
 */
module Interrupts {
  import opened Sums
  import opened Lists

  const USER_TICK := 1
  const SYSTEM_TICK := 10

  /** `serial` numbers the calls of Schedule. */
  datatype Pending = Pending(when: nat, serial: nat)

  datatype Firing = Firing(interrupt: Pending, at: nat)

  /** What a handler does: schedule interrupts that far from now, and perhaps call YieldOnReturn. */
  datatype Effect = Effect(delays: seq<nat>, yieldOnReturn: bool)

  /** The handler of the interrupt with that serial number, called at that time. */
  type Handlers = (nat, nat) -> Effect

  /** Schedule asserts that the time to wait is positive. */
  ghost predicate Proper(h: Handlers) {
    forall serial, now :: AllPositive(h(serial, now).delays)
  }

  predicate AllPositive(delays: seq<nat>) {
    forall k :: 0 <= k < |delays| ==> delays[k] > 0
  }

  datatype MachineStatus = IdleMode | SystemMode | UserMode

  /** `fired` remembers which handlers were called, and when. */
  datatype State = State(
    pending: seq<Pending>,
    next: nat,
    totalTicks: nat,
    idleTicks: nat,
    systemTicks: nat,
    userTicks: nat,
    yieldOnReturn: bool,
    fired: seq<Firing>)

  function Init(): State {
    State([], 0, 0, 0, 0, 0, false, [])
  }

  /** SortedList::Insert: before the first that is due later. */
  function Insert(q: seq<Pending>, p: Pending): (r: seq<Pending>)
    ensures |r| == |q| + 1
  {
    if q == [] || p.when < q[0].when then [p] + q else [q[0]] + Insert(q[1..], p)
  }

  function PendingCompare(x: Pending, y: Pending): int {
    if x.when < y.when then -1 else if x.when > y.when then 1 else 0
  }

  lemma {:induction false} InsertIsSortedInsert(q: seq<Pending>, p: Pending)
    ensures Insert(q, p) == Inserted(q, p, PendingCompare)
  {
    if q != [] && p.when >= q[0].when {
      InsertIsSortedInsert(q[1..], p);
    }
  }

  function Scheduled(s: State, fromNow: nat): State {
    s.(pending := Insert(s.pending, Pending(s.totalTicks + fromNow, s.next)), next := s.next + 1)
  }

  function ScheduleAll(s: State, delays: seq<nat>): State
    decreases |delays|
  {
    if delays == [] then s else ScheduleAll(Scheduled(s, delays[0]), delays[1..])
  }

  /** Take the first interrupt off the list and call its handler. */
  function Fire(h: Handlers, s: State): State
    requires s.pending != []
  {
    var p := s.pending[0];
    var effect := h(p.serial, s.totalTicks);
    ScheduleAll(s.(pending := s.pending[1..], fired := s.fired + [Firing(p, s.totalTicks)],
                   yieldOnReturn := s.yieldOnReturn || effect.yieldOnReturn),
                effect.delays)
  }

  predicate Due(s: State) {
    s.pending != [] && s.pending[0].when <= s.totalTicks
  }

  // ----- The loop over due interrupts ends -----

  function IsDue(now: nat): Pending -> nat {
    (p: Pending) => if p.when <= now then 1 else 0
  }

  function DueCount(s: State): nat {
    Sum(s.pending, IsDue(s.totalTicks))
  }

  lemma {:induction false} SumInsert(q: seq<Pending>, p: Pending, f: Pending -> nat)
    ensures Sum(Insert(q, p), f) == Sum(q, f) + f(p)
  {
    if q == [] || p.when < q[0].when {
      assert ([p] + q)[1..] == q;
    } else {
      assert ([q[0]] + Insert(q[1..], p))[1..] == Insert(q[1..], p);
      SumInsert(q[1..], p, f);
    }
  }

  lemma {:induction false} LaterOnes(s: State, delays: seq<nat>)
    requires AllPositive(delays)
    ensures var s' := ScheduleAll(s, delays);
            s'.totalTicks == s.totalTicks && DueCount(s') == DueCount(s)
    decreases |delays|
  {
    if delays != [] {
      SumInsert(s.pending, Pending(s.totalTicks + delays[0], s.next), IsDue(s.totalTicks));
      LaterOnes(Scheduled(s, delays[0]), delays[1..]);
    }
  }

  /** Handlers schedule for the future only, so each call leaves one less to do. */
  lemma FireShrinks(h: Handlers, s: State)
    requires Proper(h) && Due(s)
    ensures DueCount(Fire(h, s)) == DueCount(s) - 1 && Fire(h, s).totalTicks == s.totalTicks
  {
    var p := s.pending[0];
    var effect := h(p.serial, s.totalTicks);
    LaterOnes(s.(pending := s.pending[1..], fired := s.fired + [Firing(p, s.totalTicks)],
                 yieldOnReturn := s.yieldOnReturn || effect.yieldOnReturn),
              effect.delays);
  }

  function FireAll(h: Handlers, s: State): (r: State)
    requires Proper(h)
    ensures !Due(r) && r.totalTicks == s.totalTicks
    decreases DueCount(s)
  {
    if Due(s) then FireShrinks(h, s); FireAll(h, Fire(h, s)) else s
  }

  // ----- What the calls do -----

  /** Move the clock to the first interrupt, if it is not due yet. */
  function Advanced(s: State): State
    requires s.pending != []
  {
    if s.pending[0].when > s.totalTicks then
      s.(idleTicks := s.idleTicks + (s.pending[0].when - s.totalTicks), totalTicks := s.pending[0].when)
    else s
  }

  function Ticked(s: State, status: MachineStatus): State {
    if status.SystemMode? then s.(totalTicks := s.totalTicks + SYSTEM_TICK, systemTicks := s.systemTicks + SYSTEM_TICK)
    else s.(totalTicks := s.totalTicks + USER_TICK, userTicks := s.userTicks + USER_TICK)
  }

  datatype Event =
    | Tick(status: MachineStatus)   // OneTick
    | Idle                          // Idle, when an interrupt is pending
    | Device(fromNow: nat)          // a device calls Schedule
    | YieldTaken                    // OneTick acts on yieldOnReturn

  function Do(h: Handlers, s: State, e: Event): State
    requires Proper(h)
  {
    match e
    case Tick(status) => FireAll(h, Ticked(s, status))
    case Idle => if s.pending == [] then s else FireAll(h, Advanced(s))
    case Device(fromNow) => if fromNow > 0 then Scheduled(s, fromNow) else s
    case YieldTaken => s.(yieldOnReturn := false)
  }

  function Run(h: Handlers, s: State, events: seq<Event>): State
    requires Proper(h)
    decreases |events|
  {
    if events == [] then s else Run(h, Do(h, s, events[0]), events[1..])
  }

  // ----- The invariant -----

  /** The order of firing: by time, then by the order of scheduling. */
  predicate Before(p: Pending, q: Pending) {
    p.when < q.when || (p.when == q.when && p.serial < q.serial)
  }

  ghost predicate InOrder(q: seq<Pending>) {
    forall i, j :: 0 <= i < j < |q| ==> Before(q[i], q[j])
  }

  ghost predicate FiredInOrder(fired: seq<Firing>) {
    forall i, j :: 0 <= i < j < |fired| ==> Before(fired[i].interrupt, fired[j].interrupt) && fired[i].at <= fired[j].at
  }

  ghost predicate FiredFirst(fired: seq<Firing>, pending: seq<Pending>) {
    forall f, p :: f in fired && p in pending ==> Before(f.interrupt, p)
  }

  ghost predicate Numbered(s: State) {
    forall p :: p in s.pending ==> p.serial < s.next
  }

  /** Never early, and never later than a system tick allows. */
  ghost predicate OnTime(fired: seq<Firing>, now: nat) {
    forall f :: f in fired ==> f.interrupt.when <= f.at <= f.interrupt.when + SYSTEM_TICK - 1 && f.at <= now
  }

  function HasSerial(n: nat): Pending -> nat {
    (p: Pending) => if p.serial == n then 1 else 0
  }

  function FiredSerial(n: nat): Firing -> nat {
    (f: Firing) => if f.interrupt.serial == n then 1 else 0
  }

  /** Everything scheduled is pending or has fired, once. */
  ghost predicate NoneLost(s: State) {
    forall n: nat :: Sum(s.fired, FiredSerial(n)) + Sum(s.pending, HasSerial(n)) == if n < s.next then 1 else 0
  }

  ghost predicate Ordered(s: State) {
    InOrder(s.pending) && FiredInOrder(s.fired) && FiredFirst(s.fired, s.pending) && Numbered(s)
  }

  predicate TimeAddsUp(s: State) {
    s.totalTicks == s.idleTicks + s.systemTicks + s.userTicks
  }

  /** While interrupts are being handled: nothing is later than it may be. */
  ghost predicate Handling(s: State) {
    && Ordered(s) && NoneLost(s) && TimeAddsUp(s) && OnTime(s.fired, s.totalTicks)
    && forall p :: p in s.pending ==> s.totalTicks <= p.when + SYSTEM_TICK - 1
  }

  /** Between events: moreover, everything pending is in the future. */
  ghost predicate Inv(s: State) {
    Handling(s) && forall p :: p in s.pending ==> s.totalTicks < p.when
  }

  // ----- Every event keeps it -----

  lemma {:induction false} InsertElements(q: seq<Pending>, p: Pending, x: Pending)
    ensures x in Insert(q, p) <==> x in q || x == p
  {
    if q != [] && p.when >= q[0].when {
      InsertElements(q[1..], p, x);
      assert q == [q[0]] + q[1..];
    }
  }

  lemma {:induction false} InsertSorted(q: seq<Pending>, p: Pending)
    requires InOrder(q) && forall x :: x in q ==> x.serial < p.serial
    ensures InOrder(Insert(q, p))
  {
    if q == [] {
    } else if p.when < q[0].when {
      forall j | 0 <= j < |q| ensures Before(p, q[j]) {
        assert j == 0 || Before(q[0], q[j]);
      }
    } else {
      InsertSorted(q[1..], p);
      forall x | x in Insert(q[1..], p) ensures Before(q[0], x) {
        InsertElements(q[1..], p, x);
      }
    }
  }

  lemma ScheduleKeeps(s: State, fromNow: nat)
    requires Handling(s) && fromNow > 0
    ensures Handling(Scheduled(s, fromNow))
    ensures Inv(s) ==> Inv(Scheduled(s, fromNow))
  {
    var p := Pending(s.totalTicks + fromNow, s.next);
    var s' := Scheduled(s, fromNow);
    InsertSorted(s.pending, p);
    forall x | x in s'.pending ensures x in s.pending || x == p {
      InsertElements(s.pending, p, x);
    }
    forall n: nat
      ensures Sum(s'.fired, FiredSerial(n)) + Sum(s'.pending, HasSerial(n)) == if n < s'.next then 1 else 0
    {
      SumInsert(s.pending, p, HasSerial(n));
      assert Sum(s.fired, FiredSerial(n)) + Sum(s.pending, HasSerial(n)) == if n < s.next then 1 else 0;
    }
  }

  lemma {:induction false} ScheduleAllKeeps(s: State, delays: seq<nat>)
    requires Handling(s) && AllPositive(delays)
    ensures Handling(ScheduleAll(s, delays))
    decreases |delays|
  {
    if delays != [] {
      ScheduleKeeps(s, delays[0]);
      ScheduleAllKeeps(Scheduled(s, delays[0]), delays[1..]);
    }
  }

  lemma TakenInOrder(s: State, p: Pending, rest: seq<Pending>)
    requires Handling(s) && s.pending != [] && p == s.pending[0] && rest == s.pending[1..]
    ensures FiredInOrder(s.fired + [Firing(p, s.totalTicks)]) && InOrder(rest)
    ensures FiredFirst(s.fired + [Firing(p, s.totalTicks)], rest)
  {
    hide NoneLost;
    var fired := s.fired + [Firing(p, s.totalTicks)];
    assert p in s.pending;
    forall i, j | 0 <= i < j < |fired|
      ensures Before(fired[i].interrupt, fired[j].interrupt) && fired[i].at <= fired[j].at
    {
      assert fired[i] == s.fired[i] && s.fired[i] in s.fired;
    }
    forall f, q | f in fired && q in rest ensures Before(f.interrupt, q) {
      var j :| 0 <= j < |rest| && rest[j] == q;
      assert q == s.pending[j + 1] && q in s.pending;
      assert f in s.fired || f.interrupt == p;
    }
  }

  lemma TakenNotLost(s: State, s': State, p: Pending)
    requires NoneLost(s) && s.pending != [] && p == s.pending[0]
    requires s'.pending == s.pending[1..] && s'.fired == s.fired + [Firing(p, s.totalTicks)] && s'.next == s.next
    ensures NoneLost(s')
  {
    forall n: nat
      ensures Sum(s'.fired, FiredSerial(n)) + Sum(s'.pending, HasSerial(n)) == if n < s'.next then 1 else 0
    {
      SumAppend(s.fired, Firing(p, s.totalTicks), FiredSerial(n));
      assert Sum(s.fired, FiredSerial(n)) + Sum(s.pending, HasSerial(n)) == if n < s.next then 1 else 0;
    }
  }

  lemma FireKeeps(h: Handlers, s: State)
    requires Proper(h) && Handling(s) && Due(s)
    ensures Handling(Fire(h, s))
  {
    hide FiredInOrder, FiredFirst, InOrder, NoneLost;
    var p := s.pending[0];
    var effect := h(p.serial, s.totalTicks);
    var s' := s.(pending := s.pending[1..], fired := s.fired + [Firing(p, s.totalTicks)],
                 yieldOnReturn := s.yieldOnReturn || effect.yieldOnReturn);
    assert p in s.pending;
    TakenInOrder(s, p, s'.pending);
    TakenNotLost(s, s', p);
    ScheduleAllKeeps(s', effect.delays);
  }

  lemma {:induction false} FireAllKeeps(h: Handlers, s: State)
    requires Proper(h) && Handling(s)
    ensures Inv(FireAll(h, s))
    decreases DueCount(s)
  {
    if Due(s) {
      FireShrinks(h, s);
      FireKeeps(h, s);
      FireAllKeeps(h, Fire(h, s));
    } else {
      forall p | p in s.pending ensures s.totalTicks < p.when {
        var i :| 0 <= i < |s.pending| && s.pending[i] == p;
        assert i == 0 || Before(s.pending[0], s.pending[i]);
      }
    }
  }

  lemma EventKeeps(h: Handlers, s: State, e: Event)
    requires Proper(h) && Inv(s)
    ensures Inv(Do(h, s, e)) && s.totalTicks <= Do(h, s, e).totalTicks
  {
    match e
    case Tick(status) => FireAllKeeps(h, Ticked(s, status));
    case Idle =>
      if s.pending != [] {
        AdvanceKeeps(s);
        FireAllKeeps(h, Advanced(s));
      }
    case Device(fromNow) =>
      if fromNow > 0 {
        ScheduleKeeps(s, fromNow);
      }
    case YieldTaken =>
  }

  lemma {:induction false} RunKeeps(h: Handlers, s: State, events: seq<Event>)
    requires Proper(h) && Inv(s)
    ensures Inv(Run(h, s, events)) && s.totalTicks <= Run(h, s, events).totalTicks
    decreases |events|
  {
    hide Inv, Do;
    if events != [] {
      EventKeeps(h, s, events[0]);
      RunKeeps(h, Do(h, s, events[0]), events[1..]);
    }
  }

  // ----- What simulated time promises, over every run -----

  /**
   Interrupts fire in order of their times, ties in order of scheduling; each at its time
   or, if the machine was busy, less than one system tick later.
   */
  lemma FiredInOrderAndOnTime(h: Handlers, events: seq<Event>)
    requires Proper(h)
    ensures var s := Run(h, Init(), events);
            && FiredInOrder(s.fired)
            && forall k :: 0 <= k < |s.fired| ==>
                 s.fired[k].interrupt.when <= s.fired[k].at <= s.fired[k].interrupt.when + SYSTEM_TICK - 1
  {
    hide Run, Init, NoneLost;
    InitInv();
    RunKeeps(h, Init(), events);
  }

  /** No interrupt is dropped and none fires twice; whatever is still pending is due in the future. */
  lemma FiredOrPending(h: Handlers, events: seq<Event>, serial: nat)
    requires Proper(h)
    ensures var s := Run(h, Init(), events);
            && Sum(s.fired, FiredSerial(serial)) + Sum(s.pending, HasSerial(serial))
               == (if serial < s.next then 1 else 0)
            && forall p :: p in s.pending ==> s.totalTicks < p.when
  {
    hide Run, Init, Ordered;
    InitInv();
    RunKeeps(h, Init(), events);
  }

  /** The clock never goes back, and its ticks are idle, system or user ticks. */
  lemma TimeIsConserved(h: Handlers, events: seq<Event>, more: seq<Event>)
    requires Proper(h)
    ensures var s := Run(h, Init(), events);
            && s.totalTicks == s.idleTicks + s.systemTicks + s.userTicks
            && s.totalTicks <= Run(h, s, more).totalTicks
  {
    hide Run, Init, NoneLost;
    InitInv();
    RunKeeps(h, Init(), events);
    RunKeeps(h, Run(h, Init(), events), more);
  }

  // ----- What one call does to the clock -----

  /** One of these handlers has called YieldOnReturn. */
  ghost predicate SomeAsk(h: Handlers, fired: seq<Firing>) {
    exists f :: f in fired && h(f.interrupt.serial, f.at).yieldOnReturn
  }

  /** The interrupts that have fired from one state to a later one. */
  function NewlyFired(s: State, s': State): seq<Firing> {
    if |s.fired| <= |s'.fired| then s'.fired[|s.fired|..] else []
  }

  lemma {:induction false} ScheduleAllStands(s: State, delays: seq<nat>)
    ensures var s' := ScheduleAll(s, delays);
            s' == s.(pending := s'.pending, next := s'.next)
    decreases |delays|
  {
    if delays != [] {
      ScheduleAllStands(Scheduled(s, delays[0]), delays[1..]);
    }
  }

  lemma FireStands(h: Handlers, s: State)
    requires s.pending != []
    ensures var s', f := Fire(h, s), Firing(s.pending[0], s.totalTicks);
            && s' == s.(pending := s'.pending, next := s'.next, fired := s'.fired, yieldOnReturn := s'.yieldOnReturn)
            && s'.fired == s.fired + [f]
            && s'.yieldOnReturn == (s.yieldOnReturn || h(f.interrupt.serial, f.at).yieldOnReturn)
  {
    var p := s.pending[0];
    var effect := h(p.serial, s.totalTicks);
    ScheduleAllStands(s.(pending := s.pending[1..], fired := s.fired + [Firing(p, s.totalTicks)],
                         yieldOnReturn := s.yieldOnReturn || effect.yieldOnReturn), effect.delays);
  }

  /** Handling what is due moves no clock; a yield is wanted just if it was or a handler has asked for it. */
  lemma {:induction false} FireAllStands(h: Handlers, s: State)
    requires Proper(h)
    ensures var s' := FireAll(h, s);
            && s' == s.(pending := s'.pending, next := s'.next, fired := s'.fired, yieldOnReturn := s'.yieldOnReturn)
            && s.fired + NewlyFired(s, s') == s'.fired
            && (s'.yieldOnReturn <==> s.yieldOnReturn || SomeAsk(h, NewlyFired(s, s')))
    decreases DueCount(s)
  {
    hide Fire, DueCount;
    if Due(s) {
      var s1 := Fire(h, s);
      FireShrinks(h, s);
      FireStands(h, s);
      FireAllStands(h, s1);
      var f := Firing(s.pending[0], s.totalTicks);
      assert NewlyFired(s, FireAll(h, s)) == [f] + NewlyFired(s1, FireAll(h, s1));
    }
  }

  /** A tick is 10 in system mode and 1 in user mode, whatever is handled on the way. */
  lemma TickExact(h: Handlers, s: State, status: MachineStatus)
    requires Proper(h)
    ensures var s', system := Do(h, s, Tick(status)), status == SystemMode;
            && s'.totalTicks == s.totalTicks + (if system then 10 else 1)
            && s'.systemTicks == s.systemTicks + (if system then 10 else 0)
            && s'.userTicks == s.userTicks + (if system then 0 else 1)
            && s'.idleTicks == s.idleTicks
            && s.fired + NewlyFired(s, s') == s'.fired
            && (s'.yieldOnReturn <==> s.yieldOnReturn || SomeAsk(h, NewlyFired(s, s')))
  {
    hide FireAll;
    FireAllStands(h, Ticked(s, status));
  }

  /** Idling takes the clock to the time of the first pending interrupt, no further, and counts as idle time. */
  lemma IdleExact(h: Handlers, s: State)
    requires Proper(h) && Inv(s) && s.pending != []
    ensures var s', when := Do(h, s, Event.Idle), s.pending[0].when;
            && s.totalTicks < when && s'.totalTicks == when
            && s'.idleTicks == s.idleTicks + (when - s.totalTicks)
            && s'.systemTicks == s.systemTicks && s'.userTicks == s.userTicks
            && s.fired + NewlyFired(s, s') == s'.fired
            && (s'.yieldOnReturn <==> s.yieldOnReturn || SomeAsk(h, NewlyFired(s, s')))
  {
    hide FireAll;
    assert s.pending[0] in s.pending;
    FireAllStands(h, Advanced(s));
  }

  lemma {:induction false} InsertAdds(q: seq<Pending>, p: Pending)
    ensures multiset(Insert(q, p)) == multiset(q) + multiset{p}
  {
    if q != [] && p.when >= q[0].when {
      InsertAdds(q[1..], p);
      assert q == [q[0]] + q[1..];
    }
  }

  // ----- The object -----

  class Interrupt {
    const handlers: Handlers
    var levelOn: bool
    var inHandler: bool
    var status: MachineStatus
    var clock: State

    ghost predicate Valid()
      reads this
    {
      Proper(handlers) && Inv(clock)
    }

    constructor (handlers: Handlers)
      requires Proper(handlers)
      ensures Valid() && this.handlers == handlers && clock == Init()
      ensures !levelOn && !inHandler && status == SystemMode
    {
      hide Inv, Proper, Init;
      InitInv();
      this.handlers := handlers;
      levelOn, inHandler, status, clock := false, false, SystemMode, Init();
    }

    method Schedule(fromNow: nat)
      requires Valid() && fromNow > 0
      modifies this`clock
      ensures Valid() && clock == Do(handlers, old(clock), Device(fromNow))
      ensures multiset(clock.pending)
              == multiset(old(clock).pending) + multiset{Pending(old(clock).totalTicks + fromNow, old(clock).next)}
      ensures clock == old(clock).(pending := clock.pending, next := old(clock).next + 1)
    {
      hide Inv, Handling, Insert;
      InvHandles(clock);
      ScheduleKeeps(clock, fromNow);
      InsertAdds(clock.pending, Pending(clock.totalTicks + fromNow, clock.next));
      clock := Scheduled(clock, fromNow);
    }

    /** Call the handlers of all interrupts that are due; with advanceClock, first wait for the next one. */
    method CheckIfDue(advanceClock: bool) returns (fired: bool)
      requires Proper(handlers) && Handling(clock) && !levelOn && !inHandler
      modifies this`clock, this`inHandler
      ensures Valid() && !inHandler
      ensures fired <==> old(clock).pending != [] && (advanceClock || Due(old(clock)))
      ensures clock == if fired then FireAll(handlers, Advanced(old(clock))) else old(clock)
    {
      hide Inv, FireAll, Handling, Proper;
      NothingDue(handlers, clock);
      if clock.pending == [] {
        return false;
      }
      if clock.pending[0].when > clock.totalTicks {
        if !advanceClock {
          return false;
        }
        clock := clock.(idleTicks := clock.idleTicks + (clock.pending[0].when - clock.totalTicks),
                        totalTicks := clock.pending[0].when);
      }
      inHandler := true;
      while true
        invariant Due(clock) && Handling(clock)
        invariant FireAll(handlers, clock) == FireAll(handlers, Advanced(old(clock)))
        decreases DueCount(clock)
      {
        FireShrinks(handlers, clock);
        FireKeeps(handlers, clock);
        FireAllOnce(handlers, clock);
        clock := Fire(handlers, clock);
        if !(clock.pending != [] && clock.pending[0].when <= clock.totalTicks) {
          break;
        }
      }
      FireAllKeeps(handlers, clock);
      FireAllOnce(handlers, clock);
      inHandler := false;
      fired := true;
    }

    /** Time moves on; whether the thread is now to yield. */
    method OneTick() returns (mustYield: bool)
      requires Valid() && levelOn && !inHandler
      modifies this
      ensures Valid() && levelOn && !inHandler && status == old(status)
      ensures var ticked := Do(handlers, old(clock), Tick(status));
              mustYield == ticked.yieldOnReturn && clock == Do(handlers, ticked, YieldTaken)
      ensures clock.totalTicks == old(clock).totalTicks + (if status == SystemMode then 10 else 1)
      ensures clock.systemTicks == old(clock).systemTicks + (if status == SystemMode then 10 else 0)
      ensures clock.userTicks == old(clock).userTicks + (if status == SystemMode then 0 else 1)
      ensures clock.idleTicks == old(clock).idleTicks && !clock.yieldOnReturn
      ensures old(clock).fired + NewlyFired(old(clock), clock) == clock.fired
      ensures mustYield <==> old(clock).yieldOnReturn || SomeAsk(handlers, NewlyFired(old(clock), clock))
    {
      hide Inv, Handling, FireAll, Advanced, Due, Proper, SomeAsk;
      TickExact(handlers, clock, status);
      TickHandles(clock, status);
      NothingToAdvance(handlers, Ticked(clock, status));
      if status == SystemMode {
        clock := clock.(totalTicks := clock.totalTicks + SYSTEM_TICK, systemTicks := clock.systemTicks + SYSTEM_TICK);
      } else {
        clock := clock.(totalTicks := clock.totalTicks + USER_TICK, userTicks := clock.userTicks + USER_TICK);
      }
      levelOn := false;
      var _ := CheckIfDue(false);
      levelOn := true;
      mustYield := clock.yieldOnReturn;
      YieldKeeps(clock);
      clock := clock.(yieldOnReturn := false);
    }

    /** Turning interrupts on moves time on; handlers may not do it. */
    method SetLevel(on: bool) returns (old_: bool, mustYield: bool)
      requires on ==> Valid() && !inHandler
      modifies this
      ensures on ==> Valid()
      ensures levelOn == on && old_ == old(levelOn) && inHandler == old(inHandler) && status == old(status)
      ensures on && !old_ ==>
        var ticked := Do(handlers, old(clock), Tick(status));
        mustYield == ticked.yieldOnReturn && clock == Do(handlers, ticked, YieldTaken)
      ensures !(on && !old_) ==> clock == old(clock) && !mustYield
    {
      hide Inv, Proper, Do;
      old_, mustYield := levelOn, false;
      levelOn := on;
      if on && !old_ {
        mustYield := OneTick();
      }
    }

    /** Nothing to run: on to the next interrupt. False if there is none, and the machine halts. */
    method Idle() returns (goesOn: bool)
      requires Valid() && !levelOn && !inHandler
      modifies this
      ensures Valid() && !inHandler && (goesOn <==> old(clock).pending != [])
      ensures clock == Do(handlers, old(clock), Event.Idle)
      ensures goesOn ==> clock.totalTicks == old(clock).pending[0].when
      ensures clock.idleTicks - old(clock).idleTicks == clock.totalTicks - old(clock).totalTicks
      ensures clock.systemTicks == old(clock).systemTicks && clock.userTicks == old(clock).userTicks
      ensures !goesOn ==> clock == old(clock)
      ensures levelOn == old(levelOn) && status == if goesOn then SystemMode else IdleMode
    {
      hide Inv, FireAll, Handling, Proper;
      if clock.pending != [] {
        IdleExact(handlers, clock);
      }
      InvHandles(clock);
      status := IdleMode;
      goesOn := CheckIfDue(true);
      if goesOn {
        status := SystemMode;
      }
    }
  }

  lemma FireAllOnce(h: Handlers, s: State)
    requires Proper(h)
    ensures FireAll(h, s) == if Due(s) then FireAll(h, Fire(h, s)) else s
  {
  }

  lemma NothingDue(h: Handlers, s: State)
    requires Proper(h) && Handling(s)
    ensures !Due(s) ==> Inv(s)
    ensures s.pending != [] ==> Due(Advanced(s)) && Handling(Advanced(s))
  {
    if !Due(s) {
      FireAllKeeps(h, s);
    }
    if s.pending != [] && !Due(s) {
      AdvanceKeeps(s);
    }
  }

  lemma NothingToAdvance(h: Handlers, s: State)
    requires Proper(h)
    ensures Due(s) ==> s.pending != [] && Advanced(s) == s
    ensures !Due(s) ==> FireAll(h, s) == s
  {
  }

  lemma InvHandles(s: State)
    ensures Inv(s) ==> Handling(s)
  {
  }

  lemma InitInv()
    ensures Inv(Init())
  {
  }

  lemma YieldKeeps(s: State)
    requires Inv(s)
    ensures Inv(s.(yieldOnReturn := false))
  {
  }

  lemma TickHandles(s: State, status: MachineStatus)
    requires Inv(s)
    ensures Handling(Ticked(s, status))
  {
  }

  lemma AdvanceKeeps(s: State)
    requires Handling(s) && s.pending != [] && s.pending[0].when > s.totalTicks
    ensures Handling(Advanced(s))
  {
    forall p | p in s.pending ensures s.pending[0].when <= p.when {
      var i :| 0 <= i < |s.pending| && s.pending[i] == p;
      assert i == 0 || Before(s.pending[0], s.pending[i]);
    }
  }
}
