/**
 When interrupts are due, over whole runs: the times of the calls of Schedule and the delays they asked for, those
 made by handlers included, decide when each interrupt is pending or has fired. The calls are read off the events
 and the handlers, not off the list.
 */
module InterruptHistory {
  import opened Interrupts

  /** A call of Schedule: when it was made and how far ahead. The n-th call gets serial number n. */
  datatype Call = Call(at: nat, delay: nat)

  function CallsAt(delays: seq<nat>, now: nat): seq<Call> {
    if delays == [] then [] else [Call(now, delays[0])] + CallsAt(delays[1..], now)
  }

  /** The calls made by these handlers, one handler after the other. */
  function HandlerCalls(h: Handlers, fired: seq<Firing>): seq<Call> {
    if fired == [] then []
    else CallsAt(h(fired[0].interrupt.serial, fired[0].at).delays, fired[0].at) + HandlerCalls(h, fired[1..])
  }

  /** The calls made in one event: the device's own, or those of the handlers that are called. */
  function EventCalls(h: Handlers, s: State, e: Event): seq<Call>
    requires Proper(h)
  {
    if e.Device? then (if e.fromNow > 0 then [Call(s.totalTicks, e.fromNow)] else [])
    else HandlerCalls(h, NewlyFired(s, Do(h, s, e)))
  }

  function Calls(h: Handlers, s: State, events: seq<Event>): seq<Call>
    requires Proper(h)
    decreases |events|
  {
    if events == [] then [] else EventCalls(h, s, events[0]) + Calls(h, Do(h, s, events[0]), events[1..])
  }

  /** An interrupt is due as long after its call as that asked for. */
  predicate DueAsCalled(p: Pending, calls: seq<Call>) {
    p.serial < |calls| && p.when == calls[p.serial].at + calls[p.serial].delay
  }

  ghost predicate AllAsCalled(s: State, calls: seq<Call>) {
    && s.next == |calls|
    && (forall k :: 0 <= k < |s.pending| ==> DueAsCalled(s.pending[k], calls))
    && (forall k :: 0 <= k < |s.fired| ==> DueAsCalled(s.fired[k].interrupt, calls))
  }

  lemma {:induction false} InsertAsCalled(q: seq<Pending>, p: Pending, calls: seq<Call>)
    requires DueAsCalled(p, calls) && forall k :: 0 <= k < |q| ==> DueAsCalled(q[k], calls)
    ensures forall k :: 0 <= k < |Insert(q, p)| ==> DueAsCalled(Insert(q, p)[k], calls)
  {
    if q != [] && p.when >= q[0].when {
      InsertAsCalled(q[1..], p, calls);
    }
  }

  lemma ScheduledAsCalled(s: State, delay: nat, calls: seq<Call>)
    requires AllAsCalled(s, calls)
    ensures AllAsCalled(Scheduled(s, delay), calls + [Call(s.totalTicks, delay)])
  {
    InsertAsCalled(s.pending, Pending(s.totalTicks + delay, s.next), calls + [Call(s.totalTicks, delay)]);
  }

  lemma {:induction false} ScheduleAllAsCalled(s: State, delays: seq<nat>, calls: seq<Call>)
    requires AllAsCalled(s, calls)
    ensures AllAsCalled(ScheduleAll(s, delays), calls + CallsAt(delays, s.totalTicks))
    decreases |delays|
  {
    hide AllAsCalled, Scheduled;
    if delays == [] {
      assert calls + [] == calls;
    } else {
      var call := Call(s.totalTicks, delays[0]);
      var s1 := Scheduled(s, delays[0]);
      ScheduledAsCalled(s, delays[0], calls);
      SameTime(s, delays[0]);
      ScheduleAllAsCalled(s1, delays[1..], calls + [call]);
      assert calls + CallsAt(delays, s.totalTicks) == (calls + [call]) + CallsAt(delays[1..], s.totalTicks);
    }
  }

  lemma SameTime(s: State, delay: nat)
    ensures Scheduled(s, delay).totalTicks == s.totalTicks
  {
  }

  lemma FireAsCalled(h: Handlers, s: State, calls: seq<Call>)
    requires s.pending != [] && AllAsCalled(s, calls)
    ensures AllAsCalled(Fire(h, s), calls + CallsAt(h(s.pending[0].serial, s.totalTicks).delays, s.totalTicks))
  {
    var p := s.pending[0];
    var effect := h(p.serial, s.totalTicks);
    ScheduleAllAsCalled(s.(pending := s.pending[1..], fired := s.fired + [Firing(p, s.totalTicks)],
                           yieldOnReturn := s.yieldOnReturn || effect.yieldOnReturn), effect.delays, calls);
  }

  /** The handler called first, and then the others. */
  lemma FirstHandlerCalls(h: Handlers, s: State)
    requires Proper(h) && Due(s)
    ensures var s', s1, p := FireAll(h, s), Fire(h, s), s.pending[0];
            && FireAll(h, s1) == s'
            && HandlerCalls(h, NewlyFired(s, s'))
               == CallsAt(h(p.serial, s.totalTicks).delays, s.totalTicks) + HandlerCalls(h, NewlyFired(s1, s'))
  {
    hide Fire, DueCount, Proper;
    var s1, f := Fire(h, s), Firing(s.pending[0], s.totalTicks);
    FireAllOnce(h, s);
    FireStands(h, s);
    FireAllStands(h, s1);
    var later := NewlyFired(s1, FireAll(h, s1));
    assert NewlyFired(s, FireAll(h, s)) == [f] + later;
    assert ([f] + later)[1..] == later;
  }

  lemma {:induction false} FireAllAsCalled(h: Handlers, s: State, calls: seq<Call>)
    requires Proper(h) && AllAsCalled(s, calls)
    ensures AllAsCalled(FireAll(h, s), calls + HandlerCalls(h, NewlyFired(s, FireAll(h, s))))
    decreases DueCount(s)
  {
    hide AllAsCalled, Fire, FireAll, DueCount, Proper, HandlerCalls, NewlyFired;
    if Due(s) {
      var s1 := Fire(h, s);
      var made := CallsAt(h(s.pending[0].serial, s.totalTicks).delays, s.totalTicks);
      FireShrinks(h, s);
      FireAsCalled(h, s, calls);
      FirstHandlerCalls(h, s);
      FireAllAsCalled(h, s1, calls + made);
      var later := HandlerCalls(h, NewlyFired(s1, FireAll(h, s1)));
      assert calls + (made + later) == (calls + made) + later;
    } else {
      FireAllOnce(h, s);
      NothingCalled(h, s, calls);
    }
  }

  lemma NothingCalled(h: Handlers, s: State, calls: seq<Call>)
    ensures calls + HandlerCalls(h, NewlyFired(s, s)) == calls
    ensures NewlyFired(s, s.(yieldOnReturn := false)) == NewlyFired(s, s)
  {
  }

  lemma EventAsCalled(h: Handlers, s: State, e: Event, calls: seq<Call>)
    requires Proper(h) && AllAsCalled(s, calls)
    ensures AllAsCalled(Do(h, s, e), calls + EventCalls(h, s, e))
  {
    hide Proper, FireAll, HandlerCalls;
    match e
    case Tick(status) =>
      FireAllAsCalled(h, Ticked(s, status), calls);
      assert NewlyFired(Ticked(s, status), Do(h, s, e)) == NewlyFired(s, Do(h, s, e));
    case Idle =>
      if s.pending != [] {
        FireAllAsCalled(h, Advanced(s), calls);
        assert NewlyFired(Advanced(s), Do(h, s, e)) == NewlyFired(s, Do(h, s, e));
      } else {
        NothingCalled(h, s, calls);
      }
    case Device(fromNow) =>
      if fromNow > 0 {
        ScheduledAsCalled(s, fromNow, calls);
      } else {
        assert calls + [] == calls;
      }
    case YieldTaken => NothingCalled(h, s, calls);
  }

  lemma {:induction false} RunAsCalled(h: Handlers, s: State, events: seq<Event>, calls: seq<Call>)
    requires Proper(h) && AllAsCalled(s, calls)
    ensures AllAsCalled(Run(h, s, events), calls + Calls(h, s, events))
    decreases |events|
  {
    hide AllAsCalled, Proper, Do, EventCalls;
    if events == [] {
      assert calls + [] == calls;
    } else {
      var s1 := Do(h, s, events[0]);
      var made := EventCalls(h, s, events[0]);
      EventAsCalled(h, s, events[0], calls);
      RunAsCalled(h, s1, events[1..], calls + made);
      assert calls + (made + Calls(h, s1, events[1..])) == (calls + made) + Calls(h, s1, events[1..]);
    }
  }

  /**
   Over every run, the interrupt of the n-th call of Schedule, from a device or from a handler, is due exactly the
   delay asked for after the call. It is pending at that time, or has fired then or less than ten ticks later.
   */
  lemma DueWhenCalledFor(h: Handlers, events: seq<Event>)
    requires Proper(h)
    ensures var s, calls := Run(h, Init(), events), Calls(h, Init(), events);
            && s.next == |calls|
            && (forall k :: 0 <= k < |s.pending| ==>
                  var p := s.pending[k];
                  p.serial < |calls| && s.totalTicks < p.when == calls[p.serial].at + calls[p.serial].delay)
            && (forall k :: 0 <= k < |s.fired| ==>
                  var n := s.fired[k].interrupt.serial;
                  && n < |calls|
                  && calls[n].at + calls[n].delay <= s.fired[k].at <= calls[n].at + calls[n].delay + 9)
  {
    hide Run, Init, NoneLost, Calls;
    InitInv();
    RunKeeps(h, Init(), events);
    InitAsCalled();
    RunAsCalled(h, Init(), events, []);
    assert [] + Calls(h, Init(), events) == Calls(h, Init(), events);
    FiredInOrderAndOnTime(h, events);
    var s, calls := Run(h, Init(), events), Calls(h, Init(), events);
    forall k | 0 <= k < |s.pending|
      ensures DueAsCalled(s.pending[k], calls) && s.totalTicks < s.pending[k].when
    {
      assert s.pending[k] in s.pending;
    }
    assert forall k :: 0 <= k < |s.fired| ==> DueAsCalled(s.fired[k].interrupt, calls);
  }

  lemma InitAsCalled()
    ensures AllAsCalled(Init(), [])
  {
  }

  // ----- How time adds up -----

  /** Ticks in that mode. */
  function Ticks(events: seq<Event>, system: bool): nat {
    if events == [] then 0
    else (if events[0].Tick? && (events[0].status == SystemMode) == system then 1 else 0) + Ticks(events[1..], system)
  }

  lemma {:induction false} TicksCounted(h: Handlers, s: State, events: seq<Event>)
    requires Proper(h) && Inv(s)
    ensures var s' := Run(h, s, events);
            && s'.systemTicks == s.systemTicks + 10 * Ticks(events, true)
            && s'.userTicks == s.userTicks + Ticks(events, false)
    decreases |events|
  {
    hide Proper, Inv, FireAll, Scheduled;
    if events != [] {
      match events[0] {
        case Tick(status) => TickExact(h, s, status);
        case Idle =>
          if s.pending != [] {
            IdleExact(h, s);
          }
        case Device(fromNow) => ScheduledTicks(s, fromNow);
        case YieldTaken =>
      }
      EventKeeps(h, s, events[0]);
      TicksCounted(h, Do(h, s, events[0]), events[1..]);
    }
  }

  lemma ScheduledTicks(s: State, fromNow: nat)
    ensures var s' := Scheduled(s, fromNow); s'.systemTicks == s.systemTicks && s'.userTicks == s.userTicks
  {
  }
}
