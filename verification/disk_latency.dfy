/**
 machine/disk.cc: how long a request to the simulated disk takes. The disk turns past one sector
 every ROTATION_TIME ticks, 32 of them to a track, seeks one track every 500 ticks, and
 keeps what the head has read of the current track in a buffer.
 */
module DiskLatency {
  import opened DiskGeometry

  const ROTATION_TIME := 500

  /** C's division, which rounds toward zero. */
  function Quotient(n: int, d: int): int
    requires d > 0
  {
    if n >= 0 then n / d else -(-n / d)
  }

  function Distance(x: int, y: int): nat {
    if x < y then y - x else x - y
  }

  /** How long the seek takes, and from its end until the head is at the next sector boundary. */
  function TimeToSeek(lastSector: nat, newSector: nat, now: nat): (r: (nat, nat)) {
    var seek := Distance(newSector / 32, lastSector / 32) * 500;
    var over := (now + seek) % 500;
    (seek, if over > 0 then 500 - over else 0)
  }

  function ModuloDiff(to: nat, from: nat): nat {
    ((to % 32 - from % 32) + 32) % 32
  }

  function ComputeLatency(lastSector: nat, bufferInit: nat, now: nat, newSector: nat, writing: bool): nat {
    var (seek, rotation) := TimeToSeek(lastSector, newSector, now);
    var timeAfter := now + seek + rotation;
    if !writing && seek == 0 && Quotient(timeAfter - bufferInit, 500) > ModuloDiff(newSector, bufferInit / 500)
    then 500
    else seek + rotation + ModuloDiff(newSector, timeAfter / 500) * 500 + 500
  }

  // ----- What these mean -----

  /** The head moves one track in 500 ticks, inward or outward. */
  function SeekTime(lastSector: nat, newSector: nat): nat {
    if newSector / 32 >= lastSector / 32 then 500 * (newSector / 32 - lastSector / 32)
    else 500 * (lastSector / 32 - newSector / 32)
  }

  /** At time t the head is at the beginning of the sector, on whichever track it is. */
  predicate AtStart(t: nat, sector: nat) {
    t % 500 == 0 && t / 500 % 32 == sector % 32
  }

  ghost predicate FirstStart(t: nat, from: nat, sector: nat) {
    from <= t && AtStart(t, sector) && forall u :: from <= u < t ==> !AtStart(u, sector)
  }

  /** t is the first sector boundary from there on. */
  ghost predicate FirstBoundary(t: nat, from: nat) {
    from <= t && t % 500 == 0 && forall u :: from <= u < t ==> u % 500 != 0
  }

  /** The head has passed the whole sector, number k of the disk's sector times, within that period. */
  predicate Sweeps(k: nat, from: nat, until: nat, sector: nat) {
    from <= 500 * k && 500 * (k + 1) <= until && k % 32 == sector % 32
  }

  /** The track buffer applies: a read on the current track, of a sector swept since the buffer began to fill. */
  ghost predicate Buffered(lastSector: nat, bufferInit: nat, now: nat, newSector: nat, writing: bool) {
    && !writing && newSector / 32 == lastSector / 32
    && exists k, until :: FirstBoundary(until, now) && Sweeps(k, bufferInit, until, newSector)
  }

  lemma SeekEndsAligned(lastSector: nat, newSector: nat, now: nat)
    ensures var (seek, rotation) := TimeToSeek(lastSector, newSector, now);
            && seek == SeekTime(lastSector, newSector) && rotation < 500
            && FirstBoundary(now + seek + rotation, now + seek)
  {
    var (seek, rotation) := TimeToSeek(lastSector, newSector, now);
    FirstMultiple(now + seek);
  }

  lemma FirstMultiple(from: nat)
    ensures FirstBoundary(if from % 500 > 0 then from + 500 - from % 500 else from, from)
  {
    var q, over := from / 500, from % 500;
    assert from == 500 * q + over;
    forall u | from <= u < (if over > 0 then from + 500 - over else from) ensures u % 500 != 0 {
      assert 500 * q < u < 500 * (q + 1);
    }
  }

  lemma OneBoundary(t: nat, u: nat, from: nat)
    requires FirstBoundary(t, from) && FirstBoundary(u, from)
    ensures t == u
  {
  }

  /** Starting e sector times after sector `from`, the disk is at sector `to` of some track. */
  predicate Reaches(from: nat, e: nat, to: nat) {
    (from + e) % 32 == to % 32
  }

  /** The fewest sector times until the disk has turned from one sector to the other. */
  lemma ModuloDiffLeast(to: nat, from: nat)
    ensures var d := ModuloDiff(to, from);
            d < 32 && Reaches(from, d, to) && forall e: nat :: e < d ==> !Reaches(from, e, to)
  {
    var d := ModuloDiff(to, from);
    Turned(to, from, d);
    forall e: nat | e < d ensures !Reaches(from, e, to) {
      NotYet(to, from, e);
    }
  }

  lemma Turned(to: nat, from: nat, d: nat)
    requires d == ModuloDiff(to, from)
    ensures d < 32 && (from + d) % 32 == to % 32
  {
    assert from == 32 * (from / 32) + from % 32;
    var x, y := to % 32, from % 32;
    if x >= y {
      assert d == x - y;
      assert from + d == 32 * (from / 32) + x;
    } else {
      assert d == x - y + 32;
      assert from + d == 32 * (from / 32 + 1) + x;
    }
  }

  lemma NotYet(to: nat, from: nat, e: nat)
    requires e < ModuloDiff(to, from)
    ensures (from + e) % 32 != to % 32
  {
    var x, y := to % 32, from % 32;
    assert from == 32 * (from / 32) + y;
    if y + e < 32 {
      assert from + e == 32 * (from / 32) + (y + e);
    } else {
      assert from + e == 32 * (from / 32 + 1) + (y + e - 32);
    }
  }

  /** Without the buffer, the transfer begins at the first time after the seek when the head is at the sector. */
  lemma LatencyExact(lastSector: nat, now: nat, newSector: nat)
    ensures var (seek, rotation) := TimeToSeek(lastSector, newSector, now);
            var timeAfter := now + seek + rotation;
            FirstStart(timeAfter + ModuloDiff(newSector, timeAfter / 500) * 500,
                       now + SeekTime(lastSector, newSector), newSector)
  {
    var (seek, rotation) := TimeToSeek(lastSector, newSector, now);
    SeekEndsAligned(lastSector, newSector, now);
    StartsAfter(now + seek + rotation, now + seek, newSector);
  }

  lemma StartsAfter(boundary: nat, from: nat, sector: nat)
    requires FirstBoundary(boundary, from)
    ensures FirstStart(boundary + ModuloDiff(sector, boundary / 500) * 500, from, sector)
  {
    hide ModuloDiff;
    var b, d := boundary / 500, ModuloDiff(sector, boundary / 500);
    ModuloDiffLeast(sector, b);
    Boundary(b + d);
    assert boundary + d * 500 == 500 * (b + d);
    forall u: nat | from <= u < boundary + d * 500 ensures !AtStart(u, sector) {
      NotBefore(boundary, from, sector, d, u);
    }
  }

  lemma Boundary(k: nat)
    ensures 500 * k % 500 == 0 && 500 * k / 500 == k
  {
  }

  lemma NotBefore(boundary: nat, from: nat, sector: nat, d: nat, u: nat)
    requires FirstBoundary(boundary, from) && from <= u < boundary + d * 500
    requires forall e: nat :: e < d ==> !Reaches(boundary / 500, e, sector)
    ensures !AtStart(u, sector)
  {
    if u % 500 == 0 {
      assert u >= boundary;
      var b := boundary / 500;
      assert boundary == 500 * b && u == 500 * (u / 500);
      assert !Reaches(b, u / 500 - b, sector);
    }
  }

  /** The test in the code is that the sector has been swept; C's rounding of the quotient does no harm. */
  lemma BufferedIff(lastSector: nat, bufferInit: nat, now: nat, newSector: nat, writing: bool)
    requires bufferInit % 500 == 0 && bufferInit <= now
    ensures var (seek, rotation) := TimeToSeek(lastSector, newSector, now);
            Buffered(lastSector, bufferInit, now, newSector, writing) <==>
              !writing && seek == 0
                  && Quotient(now + seek + rotation - bufferInit, 500) > ModuloDiff(newSector, bufferInit / 500)
  {
    var (seek, rotation) := TimeToSeek(lastSector, newSector, now);
    SeekEndsAligned(lastSector, newSector, now);
    if !writing && seek == 0 {
      SweptIff(bufferInit, now + rotation, now, newSector);
    }
  }

  lemma SweptIff(bufferInit: nat, until: nat, now: nat, sector: nat)
    requires bufferInit % 500 == 0 && bufferInit <= now && FirstBoundary(until, now)
    ensures (exists k, t :: FirstBoundary(t, now) && Sweeps(k, bufferInit, t, sector)) <==>
              Quotient(until - bufferInit, 500) > ModuloDiff(sector, bufferInit / 500)
  {
    var a, b, d := until / 500, bufferInit / 500, ModuloDiff(sector, bufferInit / 500);
    assert until == 500 * a && bufferInit == 500 * b;
    assert Quotient(until - bufferInit, 500) == a - b;
    ModuloDiffLeast(sector, b);
    if a - b > d {
      assert Sweeps(b + d, bufferInit, until, sector);
    }
    if k: nat, t: nat :| FirstBoundary(t, now) && Sweeps(k, bufferInit, t, sector) {
      OneBoundary(until, t, now);
      assert Reaches(b, k - b, sector);
    }
  }

  /** Every request takes a sector time at least; the buffer never makes it slower; and 31,999 ticks are enough. */
  lemma LatencyBounds(lastSector: nat, bufferInit: nat, now: nat, newSector: nat, writing: bool)
    requires lastSector < NUM_SECTORS && newSector < NUM_SECTORS
    ensures ROTATION_TIME <= ComputeLatency(lastSector, bufferInit, now, newSector, writing) <= 31_999
    ensures ComputeLatency(lastSector, bufferInit, now, newSector, writing)
            <= ComputeLatency(lastSector, bufferInit, now, newSector, true)
  {
    var (seek, rotation) := TimeToSeek(lastSector, newSector, now);
    SeekEndsAligned(lastSector, newSector, now);
    ModuloDiffLeast(newSector, (now + seek + rotation) / 500);
  }

  // ----- The disk over a run of requests -----

  datatype State = State(lastSector: nat, bufferInit: nat)

  /** UpdateLast. */
  function Updated(s: State, newSector: nat, now: nat): State {
    var (seek, rotate) := TimeToSeek(s.lastSector, newSector, now);
    State(newSector, if seek != 0 then now + seek + rotate else s.bufferInit)
  }

  class Disk {
    var lastSector: nat
    var bufferInit: nat
    var active: bool

    ghost function Value(): State
      reads this
    {
      State(lastSector, bufferInit)
    }

    constructor ()
      ensures Value() == State(0, 0) && !active
    {
      lastSector, bufferInit, active := 0, 0, false;
    }

    /** Start a read or a write; the interrupt is to come after that many ticks. */
    method Request(sectorNumber: nat, writing: bool, totalTicks: nat) returns (ticks: nat)
      requires !active && sectorNumber < NUM_SECTORS && lastSector < NUM_SECTORS
      modifies this
      ensures active && lastSector == sectorNumber && Value() == Updated(old(Value()), sectorNumber, totalTicks)
      ensures sectorNumber / 32 == old(lastSector) / 32 ==> bufferInit == old(bufferInit)
      ensures sectorNumber / 32 != old(lastSector) / 32 ==>
                FirstBoundary(bufferInit, totalTicks + SeekTime(old(lastSector), sectorNumber))
      ensures ticks == ComputeLatency(old(lastSector), old(bufferInit), totalTicks, sectorNumber, writing) > 0
    {
      ticks := ComputeLatency(lastSector, bufferInit, totalTicks, sectorNumber, writing);
      LatencyBounds(lastSector, bufferInit, totalTicks, sectorNumber, writing);
      active := true;
      UpdateLast(sectorNumber, totalTicks);
    }

    method UpdateLast(newSector: nat, totalTicks: nat)
      modifies this
      ensures active == old(active) && Value() == Updated(old(Value()), newSector, totalTicks)
      ensures lastSector == newSector
      ensures newSector / 32 == old(lastSector) / 32 ==> bufferInit == old(bufferInit)
      ensures newSector / 32 != old(lastSector) / 32 ==>
                FirstBoundary(bufferInit, totalTicks + SeekTime(old(lastSector), newSector))
    {
      SeekEndsAligned(lastSector, newSector, totalTicks);
      var (seek, rotate) := TimeToSeek(lastSector, newSector, totalTicks);
      if seek != 0 {
        bufferInit := totalTicks + seek + rotate;
      }
      lastSector := newSector;
    }

    method CallBack()
      modifies this
      ensures !active && Value() == old(Value())
    {
      active := false;
    }
  }

  datatype Request = Request(time: nat, sector: nat, writing: bool)

  function Latency(s: State, r: Request): nat {
    ComputeLatency(s.lastSector, s.bufferInit, r.time, r.sector, r.writing)
  }

  /** Each request comes when the one before it is done, or later. */
  predicate Serialized(s: State, doneAt: nat, requests: seq<Request>)
    decreases |requests|
  {
    requests == [] ||
    var r := requests[0];
    doneAt <= r.time && r.sector < NUM_SECTORS
    && Serialized(Updated(s, r.sector, r.time), r.time + Latency(s, r), requests[1..])
  }

  /** The disk after a run, and when it is done with it. */
  function After(s: State, doneAt: nat, requests: seq<Request>): (State, nat)
    decreases |requests|
  {
    if requests == [] then (s, doneAt)
    else
      var r := requests[0];
      After(Updated(s, r.sector, r.time), r.time + Latency(s, r), requests[1..])
  }

  /** The buffer began to fill at a sector boundary, and not in the future. */
  predicate BufferOk(s: State, doneAt: nat) {
    s.lastSector < NUM_SECTORS && s.bufferInit % 500 == 0 && s.bufferInit <= doneAt
  }

  lemma {:induction false} BufferStaysOk(s: State, doneAt: nat, requests: seq<Request>)
    requires BufferOk(s, doneAt) && Serialized(s, doneAt, requests)
    ensures var (end, endAt) := After(s, doneAt, requests); BufferOk(end, endAt)
    decreases |requests|
  {
    if requests != [] {
      var r := requests[0];
      SeekEndsAligned(s.lastSector, r.sector, r.time);
      LatencyBounds(s.lastSector, s.bufferInit, r.time, r.sector, r.writing);
      BufferStaysOk(Updated(s, r.sector, r.time), r.time + Latency(s, r), requests[1..]);
    }
  }

  lemma LatencyMeans(s: State, r: Request)
    requires BufferOk(s, r.time)
    ensures Buffered(s.lastSector, s.bufferInit, r.time, r.sector, r.writing) ==> Latency(s, r) == ROTATION_TIME
    ensures !Buffered(s.lastSector, s.bufferInit, r.time, r.sector, r.writing) ==>
      ROTATION_TIME <= Latency(s, r) &&
      FirstStart(r.time + Latency(s, r) - ROTATION_TIME, r.time + SeekTime(s.lastSector, r.sector), r.sector)
  {
    hide Buffered, FirstStart, ModuloDiff, TimeToSeek, Quotient;
    BufferedIff(s.lastSector, s.bufferInit, r.time, r.sector, r.writing);
    LatencyExact(s.lastSector, r.time, r.sector);
  }

  // ----- What the buffer holds, from the requests alone -----

  /** The sector asked for last; the head starts at sector 0. */
  function LastSector(requests: seq<Request>): nat {
    if requests == [] then 0 else requests[|requests| - 1].sector
  }

  /** Request number k takes the head to another track, which empties the track buffer. */
  predicate ChangesTrack(requests: seq<Request>, k: nat)
    requires k < |requests|
  {
    requests[k].sector / 32 != LastSector(requests[..k]) / 32
  }

  /** The first sector boundary after that seek. */
  ghost predicate ArrivesAt(requests: seq<Request>, k: nat, t: nat)
    requires k < |requests|
  {
    FirstBoundary(t, requests[k].time + SeekTime(LastSector(requests[..k]), requests[k].sector))
  }

  /** The head has been on its track since time t: since the last request that changed the track, or since the start. */
  ghost predicate Arrival(requests: seq<Request>, t: nat) {
    || (t == 0 && forall k :: 0 <= k < |requests| ==> !ChangesTrack(requests, k))
    || exists k ::
         && 0 <= k < |requests| && ChangesTrack(requests, k) && ArrivesAt(requests, k, t)
         && forall j :: k < j < |requests| ==> !ChangesTrack(requests, j)
  }

  lemma OneArrival(requests: seq<Request>, t: nat, u: nat)
    requires Arrival(requests, t) && Arrival(requests, u)
    ensures t == u
  {
    if j, k :| 0 <= j < |requests| && ChangesTrack(requests, j) && ArrivesAt(requests, j, t)
               && 0 <= k < |requests| && ChangesTrack(requests, k) && ArrivesAt(requests, k, u)
               && (forall l :: j < l < |requests| ==> !ChangesTrack(requests, l))
               && (forall l :: k < l < |requests| ==> !ChangesTrack(requests, l)) {
      assert j == k;
    }
  }

  /** One more request leaves what the earlier ones did. */
  lemma MoreRequests(requests: seq<Request>, r: Request, k: nat)
    requires k < |requests|
    ensures ChangesTrack(requests + [r], k) == ChangesTrack(requests, k)
    ensures forall t :: ArrivesAt(requests + [r], k, t) == ArrivesAt(requests, k, t)
  {
    assert (requests + [r])[..k] == requests[..k];
  }

  lemma StaysOnTrack(requests: seq<Request>, r: Request, t: nat)
    requires Arrival(requests, t) && r.sector / 32 == LastSector(requests) / 32
    ensures Arrival(requests + [r], t)
  {
    hide ArrivesAt, ChangesTrack;
    var all := requests + [r];
    assert !ChangesTrack(all, |requests|) by { LastRequest(requests, r); }
    forall k | 0 <= k < |requests|
      ensures ChangesTrack(all, k) == ChangesTrack(requests, k) && ArrivesAt(all, k, t) == ArrivesAt(requests, k, t)
    {
      MoreRequests(requests, r, k);
    }
  }

  lemma LastRequest(requests: seq<Request>, r: Request)
    ensures ChangesTrack(requests + [r], |requests|) == (r.sector / 32 != LastSector(requests) / 32)
    ensures forall t :: ArrivesAt(requests + [r], |requests|, t)
                        == FirstBoundary(t, r.time + SeekTime(LastSector(requests), r.sector))
  {
    assert (requests + [r])[..|requests|] == requests;
  }

  lemma {:induction false} AfterOneMore(s: State, doneAt: nat, requests: seq<Request>, r: Request)
    ensures var (end, _) := After(s, doneAt, requests);
            After(s, doneAt, requests + [r]) == (Updated(end, r.sector, r.time), r.time + Latency(end, r))
    decreases |requests|
  {
    hide Updated, Latency;
    if requests == [] {
      assert ([] + [r])[0] == r && ([] + [r])[1..] == [];
    } else {
      var q := requests[0];
      assert (requests + [r])[0] == q && (requests + [r])[1..] == requests[1..] + [r];
      AfterOneMore(Updated(s, q.sector, q.time), q.time + Latency(s, q), requests[1..], r);
    }
  }

  /** After every run the disk knows the sector asked for last, and since when it has been on that track. */
  lemma {:induction false} KnowsItsTrack(requests: seq<Request>)
    ensures var (s, _) := After(State(0, 0), 0, requests);
            s.lastSector == LastSector(requests) && Arrival(requests, s.bufferInit)
    decreases |requests|
  {
    if requests != [] {
      hide Arrival, ArrivesAt, ChangesTrack, After, SeekTime, FirstBoundary, TimeToSeek;
      var before, r := requests[..|requests| - 1], requests[|requests| - 1];
      assert requests == before + [r];
      var (s, _) := After(State(0, 0), 0, before);
      KnowsItsTrack(before);
      AfterOneMore(State(0, 0), 0, before, r);
      SeekEndsAligned(s.lastSector, r.sector, r.time);
      if r.sector / 32 == s.lastSector / 32 {
        NoSeek(s.lastSector, r.sector);
        StaysOnTrack(before, r, s.bufferInit);
      } else {
        SomeSeek(s.lastSector, r.sector);
        LastRequest(before, r);
        ArrivesNow(requests, Updated(s, r.sector, r.time).bufferInit);
      }
    }
  }

  lemma ArrivesNow(requests: seq<Request>, t: nat)
    requires requests != [] && ChangesTrack(requests, |requests| - 1) && ArrivesAt(requests, |requests| - 1, t)
    ensures Arrival(requests, t)
  {
  }

  lemma NoSeek(lastSector: nat, newSector: nat)
    requires newSector / 32 == lastSector / 32
    ensures SeekTime(lastSector, newSector) == 0
  {
  }

  lemma SomeSeek(lastSector: nat, newSector: nat)
    requires newSector / 32 != lastSector / 32
    ensures SeekTime(lastSector, newSector) != 0
  {
  }

  /**
   After any run of requests, the next one takes one sector time if it reads a sector that the head has swept since
   it arrived on this track; if not, it ends one sector time after the head first comes to the sector when the seek
   is over.
   */
  lemma BufferSound(requests: seq<Request>, r: Request, arrival: nat)
    requires Serialized(State(0, 0), 0, requests + [r]) && Arrival(requests, arrival)
    ensures Serialized(State(0, 0), 0, requests)
    ensures var (s, doneAt) := After(State(0, 0), 0, requests);
            && doneAt <= r.time && 500 <= Latency(s, r)
            && if Buffered(LastSector(requests), arrival, r.time, r.sector, r.writing) then Latency(s, r) == 500
               else FirstStart(r.time + Latency(s, r) - 500, r.time + SeekTime(LastSector(requests), r.sector),
                               r.sector)
  {
    hide Buffered, FirstStart, Latency, Arrival;
    var (s, doneAt) := After(State(0, 0), 0, requests);
    SerializedPrefix(State(0, 0), 0, requests, r);
    BufferStaysOk(State(0, 0), 0, requests);
    KnowsItsTrack(requests);
    OneArrival(requests, arrival, s.bufferInit);
    LatencyMeans(s, r);
  }

  lemma {:induction false} SerializedPrefix(s: State, doneAt: nat, requests: seq<Request>, r: Request)
    requires Serialized(s, doneAt, requests + [r])
    ensures Serialized(s, doneAt, requests) && After(s, doneAt, requests).1 <= r.time
    decreases |requests|
  {
    if requests == [] {
      assert ([] + [r])[0] == r;
    } else {
      var q := requests[0];
      assert (requests + [r])[0] == q && (requests + [r])[1..] == requests[1..] + [r];
      SerializedPrefix(Updated(s, q.sector, q.time), q.time + Latency(s, q), requests[1..], r);
    }
  }
}
