/**
The slot search: for each searched day that the host works, step through the day's window one slot
length at a time, drop what is too soon or too close to a busy block, and stop at a maximum.

Instants are integer microseconds.  A host is a set of working weekdays, the local date of an
instant, and the UTC window of each local date; the latter two carry the time zone.
*/
module Slots {
  import opened Instants

  datatype Slot = Slot(start: int, end: int)

  // The conflict test of the search and of the booking check alike.
  predicate Overlaps(a: Slot, b: Slot) {
    a.start < b.end && a.end > b.start
  }

  function Widen(b: Slot, buffer: int): Slot {
    Slot(b.start - buffer, b.end + buffer)
  }

  predicate KeepsDistance(s: Slot, b: Slot, buffer: int) {
    !Overlaps(s, Widen(b, buffer))
  }

  // That is, s ends at least buffer before b or starts as long after it.
  lemma {:induction false} KeepsDistanceExactly(s: Slot, b: Slot, buffer: int)
    ensures KeepsDistance(s, b, buffer) <==> s.end + buffer <= b.start || b.end + buffer <= s.start
  {
  }

  datatype Appointment = Appointment(connection: string, confirmed: bool, slot: Slot)

  datatype Host = Host(days: set<int>, dateOf: int -> int, window: int -> Slot)

  // Day 0 is a Monday, and a Monday has number 0.
  function Weekday(date: int): int { date % 7 }

  lemma {:induction false} WeekdayExactly(week: int, w: int)
    requires 0 <= w < 7
    ensures Weekday(7 * week + w) == w
  {
  }

  // One day's window closes before the next day's opens.
  ghost predicate Ordered(host: Host) {
    forall d: int, e: int :: d < e ==> host.window(d).end <= host.window(e).start
  }

  function FixedOffset(days: set<int>, offset: int, opens: int, closes: int): Host {
    Host(days, t => (t + offset) / DAY, d => Slot(d * DAY + opens - offset, d * DAY + closes - offset))
  }

  lemma {:induction false} FixedOffsetIsOrdered(days: set<int>, offset: int, opens: int, closes: int)
    requires 0 <= opens < DAY && 0 <= closes < DAY
    ensures Ordered(FixedOffset(days, offset, opens, closes))
  {
    var host := FixedOffset(days, offset, opens, closes);
    forall d: int, e: int | d < e
      ensures host.window(d).end <= host.window(e).start
    {
      assert d * DAY + DAY <= e * DAY;
    }
  }

  // ----- What is busy -----

  // Confirmed appointments of the connection that meet the fetched period.
  function Fetch(appointments: seq<Appointment>, connection: string, searchStart: int, searchEnd: int): seq<Slot> {
    if appointments == [] then []
    else
      var a := appointments[0];
      var rest := Fetch(appointments[1..], connection, searchStart, searchEnd);
      if a.connection == connection && a.confirmed && IsFetched(a.slot, searchStart, searchEnd)
      then [a.slot] + rest else rest
  }

  predicate IsFetched(a: Slot, searchStart: int, searchEnd: int) {
    a.start < searchEnd && a.end > searchStart
  }

  // What the search has to keep clear of: a slot is fetched if and only if some confirmed appointment of
  // the connection has it and meets the period.
  lemma {:induction false} FetchExact(appointments: seq<Appointment>, connection: string,
                                      searchStart: int, searchEnd: int, s: Slot)
    ensures s in Fetch(appointments, connection, searchStart, searchEnd)
       <==> && Appointment(connection, true, s) in appointments
            && s.start < searchEnd && s.end > searchStart
  {
    if appointments != [] {
      FetchExact(appointments[1..], connection, searchStart, searchEnd, s);
      assert appointments == [appointments[0]] + appointments[1..];
    }
  }

  // ----- The grid -----

  // The slots of one window from a given start on.
  function DaySlots(window: Slot, length: int, from: int): (r: seq<Slot>)
    requires length > 0
    decreases window.end - from
  {
    if from + length <= window.end
    then [Slot(from, from + length)] + DaySlots(window, length, from + length)
    else []
  }

  // The slots of one day, if the host works then.
  function DayCandidates(host: Host, date: int, length: int): seq<Slot>
    requires length > 0
  {
    if Weekday(date) in host.days then DaySlots(host.window(date), length, host.window(date).start) else []
  }

  // The slots of n consecutive days.
  function Candidates(host: Host, date: int, n: nat, length: int): seq<Slot>
    requires length > 0
    decreases n
  {
    if n == 0 then []
    else DayCandidates(host, date, length) + Candidates(host, date + 1, n - 1, length)
  }

  predicate Offerable(s: Slot, now: int, busy: seq<Slot>, buffer: int) {
    s.start > now + 2 * HOUR && forall b <- busy :: KeepsDistance(s, b, buffer)
  }

  function Offered(cands: seq<Slot>, now: int, busy: seq<Slot>, buffer: int): seq<Slot> {
    if cands == [] then []
    else
      (if Offerable(cands[0], now, busy, buffer) then [cands[0]] else [])
      + Offered(cands[1..], now, busy, buffer)
  }

  // At least one slot is appended before the number of slots is compared with the maximum.
  function Cap(max: int): nat { if max < 1 then 1 else max }

  function AtMost(s: seq<Slot>, max: int): seq<Slot> {
    if |s| <= Cap(max) then s else s[..Cap(max)]
  }

  function DayCount(daysAhead: int): nat { if daysAhead < 0 then 0 else daysAhead + 1 }

  lemma {:induction false} OfferedConcat(a: seq<Slot>, b: seq<Slot>, now: int, busy: seq<Slot>, buffer: int)
    ensures Offered(a + b, now, busy, buffer) == Offered(a, now, busy, buffer) + Offered(b, now, busy, buffer)
  {
    if a == [] {
      assert a + b == b;
    } else {
      var rest := a[1..];
      OfferedConcat(rest, b, now, busy, buffer);
      assert (a + b)[0] == a[0] && (a + b)[1..] == rest + b;
      var first := if Offerable(a[0], now, busy, buffer) then [a[0]] else [];
      var x, y := Offered(rest, now, busy, buffer), Offered(b, now, busy, buffer);
      assert first + (x + y) == first + x + y;
    }
  }

  function DayOffer(host: Host, date: int, length: int, now: int, busy: seq<Slot>, buffer: int): seq<Slot>
    requires length > 0
  {
    Offered(DayCandidates(host, date, length), now, busy, buffer)
  }

  // What the search offers over n days when nothing stops it early.
  function OfferedOver(host: Host, date: int, n: nat, length: int, now: int, busy: seq<Slot>, buffer: int): seq<Slot>
    requires length > 0
  {
    Offered(Candidates(host, date, n, length), now, busy, buffer)
  }

  lemma {:induction false} CandidatesOneMore(host: Host, date: int, n: nat, length: int)
    requires length > 0
    ensures Candidates(host, date, n + 1, length)
         == Candidates(host, date, n, length) + DayCandidates(host, date + n, length)
    decreases n
  {
    if n == 0 {
      assert Candidates(host, date + 1, 0, length) == [];
    } else {
      var first, last := DayCandidates(host, date, length), DayCandidates(host, date + n, length);
      var middle := Candidates(host, date + 1, n - 1, length);
      CandidatesOneMore(host, date + 1, n - 1, length);
      assert date + 1 + (n - 1) == date + n;
      assert first + (middle + last) == first + middle + last;
    }
  }

  lemma {:induction false} OfferedOverOneMore(host: Host, date: int, n: nat, length: int, now: int,
                                              busy: seq<Slot>, buffer: int)
    requires length > 0
    ensures OfferedOver(host, date, n + 1, length, now, busy, buffer)
         == OfferedOver(host, date, n, length, now, busy, buffer)
            + DayOffer(host, date + n, length, now, busy, buffer)
  {
    CandidatesOneMore(host, date, n, length);
    OfferedConcat(Candidates(host, date, n, length), DayCandidates(host, date + n, length), now, busy, buffer);
  }

  // More days only add slots at the end.
  lemma {:induction false} OfferedOverGrows(host: Host, date: int, m: nat, n: nat, length: int, now: int,
                                            busy: seq<Slot>, buffer: int)
    requires length > 0 && m <= n
    ensures OfferedOver(host, date, m, length, now, busy, buffer) <= OfferedOver(host, date, n, length, now, busy, buffer)
    decreases n
  {
    if m < n {
      OfferedOverGrows(host, date, m, n - 1, length, now, busy, buffer);
      OfferedOverOneMore(host, date, n - 1, length, now, busy, buffer);
    }
  }

  lemma {:induction false} FullPrefix(some: seq<Slot>, all: seq<Slot>, max: int)
    requires some <= all && Cap(max) <= |some|
    ensures some[..Cap(max)] == AtMost(all, max)
  {
  }

  // ----- The search itself -----

  // buffered holds each busy block widened by the buffer.
  ghost predicate IsBuffered(buffered: seq<Slot>, busy: seq<Slot>, buffer: int) {
    |buffered| == |busy| && forall i | 0 <= i < |busy| :: buffered[i] == Widen(busy[i], buffer)
  }

  method BufferBusy(busy: seq<Slot>, buffer: int) returns (buffered: seq<Slot>)
    ensures IsBuffered(buffered, busy, buffer)
  {
    buffered := [];
    for i := 0 to |busy|
      invariant IsBuffered(buffered, busy[..i], buffer)
    {
      buffered := buffered + [Slot(busy[i].start - buffer, busy[i].end + buffer)];
    }
    assert busy[..|busy|] == busy;
  }

  method HasConflict(s: Slot, buffered: seq<Slot>, ghost busy: seq<Slot>, ghost buffer: int) returns (conflict: bool)
    requires IsBuffered(buffered, busy, buffer)
    ensures conflict <==> exists b <- busy :: !KeepsDistance(s, b, buffer)
  {
    for i := 0 to |buffered|
      invariant forall j | 0 <= j < i :: KeepsDistance(s, busy[j], buffer)
    {
      if s.start < buffered[i].end && s.end > buffered[i].start {
        assert busy[i] in busy && !KeepsDistance(s, busy[i], buffer);
        return true;
      }
    }
    return false;
  }

  // What is found in the window from a start on, beside what was found before it.
  function FoundFrom(found: seq<Slot>, window: Slot, length: int, from: int, now: int, busy: seq<Slot>,
                     buffer: int): seq<Slot>
    requires length > 0
  {
    found + Offered(DaySlots(window, length, from), now, busy, buffer)
  }

  lemma {:induction false} FoundNext(found: seq<Slot>, window: Slot, length: int, from: int, now: int,
                                     busy: seq<Slot>, buffer: int)
    requires length > 0 && from + length <= window.end
    ensures var s := Slot(from, from + length);
            FoundFrom(found, window, length, from, now, busy, buffer)
            == FoundFrom(if Offerable(s, now, busy, buffer) then found + [s] else found,
                         window, length, from + length, now, busy, buffer)
  {
    assert DaySlots(window, length, from)[1..] == DaySlots(window, length, from + length);
  }

  // Adds one window's slots to those already found; full says that the maximum was reached.
  method SearchWindow(window: Slot, length: int, now: int, buffered: seq<Slot>, max: int, found: seq<Slot>,
                      ghost busy: seq<Slot>, ghost buffer: int)
    returns (slots: seq<Slot>, full: bool)
    requires length > 0 && |found| < Cap(max)
    requires IsBuffered(buffered, busy, buffer)
    ensures var all := FoundFrom(found, window, length, window.start, now, busy, buffer);
            if full then Cap(max) <= |all| && slots == all[..Cap(max)] else slots == all && |all| < Cap(max)
  {
    slots := found;
    var start := window.start;
    ghost var all := FoundFrom(found, window, length, start, now, busy, buffer);
    while start + length <= window.end
      invariant |slots| < Cap(max)
      invariant FoundFrom(slots, window, length, start, now, busy, buffer) == all
      decreases window.end - start
    {
      FoundNext(slots, window, length, start, now, busy, buffer);
      var s := Slot(start, start + length);
      if start <= now + 2 * HOUR {
        start := start + length;
        continue;
      }
      var conflict := HasConflict(s, buffered, busy, buffer);
      if !conflict {
        slots := slots + [s];
        if |slots| >= max {
          return slots, true;
        }
      }
      start := start + length;
    }
    return slots, false;
  }

  method SearchDay(host: Host, date: int, length: int, now: int, buffered: seq<Slot>, max: int, found: seq<Slot>,
                   ghost busy: seq<Slot>, ghost buffer: int)
    returns (slots: seq<Slot>, full: bool)
    requires length > 0 && |found| < Cap(max)
    requires IsBuffered(buffered, busy, buffer)
    ensures var all := found + DayOffer(host, date, length, now, busy, buffer);
            if full then Cap(max) <= |all| && slots == all[..Cap(max)] else slots == all && |all| < Cap(max)
  {
    if Weekday(date) !in host.days {
      return found, false;
    }
    slots, full := SearchWindow(host.window(date), length, now, buffered, max, found, busy, buffer);
  }

  method SearchDays(host: Host, today: int, n: nat, length: int, now: int, buffered: seq<Slot>, max: int,
                    ghost busy: seq<Slot>, ghost buffer: int)
    returns (slots: seq<Slot>)
    requires length > 0 && IsBuffered(buffered, busy, buffer)
    ensures slots == AtMost(OfferedOver(host, today, n, length, now, busy, buffer), max)
  {
    slots := [];
    for d := 0 to n
      invariant |slots| < Cap(max)
      invariant slots == OfferedOver(host, today, d, length, now, busy, buffer)
    {
      OfferedOverOneMore(host, today, d, length, now, busy, buffer);
      var full;
      slots, full := SearchDay(host, today + d, length, now, buffered, max, slots, busy, buffer);
      if full {
        OfferedOverGrows(host, today, d + 1, n, length, now, busy, buffer);
        FullPrefix(OfferedOver(host, today, d + 1, length, now, busy, buffer),
                   OfferedOver(host, today, n, length, now, busy, buffer), max);
        return;
      }
    }
  }

  function Busy(connection: string, searchStart: int, daysAhead: int, providerBusy: seq<Slot>,
                appointments: seq<Appointment>): seq<Slot>
  {
    providerBusy + Fetch(appointments, connection, searchStart, searchStart + daysAhead * DAY)
  }

  // The result of the search.
  function Available(host: Host, connection: string, now: int, searchStart: int, daysAhead: int, length: int,
                     buffer: int, max: int, providerBusy: seq<Slot>, appointments: seq<Appointment>): seq<Slot>
    requires length > 0
  {
    AtMost(OfferedOver(host, host.dateOf(searchStart), DayCount(daysAhead), length, now,
                       Busy(connection, searchStart, daysAhead, providerBusy, appointments), buffer), max)
  }

  method FindAvailableSlots(host: Host, connection: string, now: int, searchStart: int, daysAhead: int,
                            length: int, buffer: int, max: int,
                            providerBusy: seq<Slot>, appointments: seq<Appointment>)
    returns (slots: seq<Slot>)
    requires length > 0  // with a length of zero the source never leaves a day
    ensures slots == Available(host, connection, now, searchStart, daysAhead, length, buffer, max,
                               providerBusy, appointments)
    ensures Ordered(host) ==>
              && Successive(slots)
              && forall s :: s in slots <==>
                   && OnSearchedGrid(host, host.dateOf(searchStart), daysAhead, length, s)
                   && IsVacant(s, connection, now, searchStart, searchStart + daysAhead * DAY, buffer,
                             providerBusy, appointments)
                   && !Crowded(slots, max, s)
  {
    var searchEnd := searchStart + daysAhead * DAY;
    var busy := providerBusy + Fetch(appointments, connection, searchStart, searchEnd);
    var buffered := BufferBusy(busy, buffer);
    slots := SearchDays(host, host.dateOf(searchStart), DayCount(daysAhead), length, now, buffered, max, busy, buffer);
    if Ordered(host) {
      SearchIsExact(host, connection, now, searchStart, daysAhead, length, buffer, max, providerBusy, appointments);
    }
  }

  // ----- What the search result means -----

  predicate OnGridAt(window: Slot, length: int, s: Slot, k: nat) {
    s.start == window.start + k * length && s.end == s.start + length && s.end <= window.end
  }

  // s is one of the equal slots laid out from the window's opening.
  ghost predicate OnGrid(window: Slot, length: int, s: Slot) {
    exists k: nat :: OnGridAt(window, length, s, k)
  }

  // The searched days are the first one and daysAhead more.
  ghost predicate OnSearchedGrid(host: Host, date: int, daysAhead: int, length: int, s: Slot) {
    exists d: int :: date <= d <= date + daysAhead && Weekday(d) in host.days && OnGrid(host.window(d), length, s)
  }

  // s begins more than two hours from now and keeps the buffer from every block of the provider and every
  // confirmed appointment of the connection that meets the searched period.
  predicate IsVacant(s: Slot, connection: string, now: int, searchStart: int, searchEnd: int, buffer: int,
                   providerBusy: seq<Slot>, appointments: seq<Appointment>)
  {
    && s.start > now + 2 * HOUR
    && (forall b <- providerBusy :: KeepsDistance(s, b, buffer))
    && (forall a <- appointments |
          a.connection == connection && a.confirmed && a.slot.start < searchEnd && a.slot.end > searchStart ::
          KeepsDistance(s, a.slot, buffer))
  }

  // The maximum is used up by slots before s.
  predicate Crowded(slots: seq<Slot>, max: int, s: Slot) {
    |slots| >= 1 && |slots| >= max && forall r <- slots :: r.end <= s.start
  }

  lemma {:induction false} DaySlotsExact(window: Slot, length: int, from: int, i: nat, s: Slot)
    requires length > 0 && from == window.start + i * length
    ensures s in DaySlots(window, length, from) <==> exists k: nat :: i <= k && OnGridAt(window, length, s, k)
    decreases window.end - from
  {
    if from + length <= window.end {
      assert from + length == window.start + (i + 1) * length;
      DaySlotsExact(window, length, from + length, i + 1, s);
      if s == Slot(from, from + length) {
        assert OnGridAt(window, length, s, i);
      }
    } else {
      forall k: nat | i <= k
        ensures !OnGridAt(window, length, s, k)
      {
        assert i * length <= k * length;
      }
    }
  }

  lemma {:induction false} CandidatesExact(host: Host, date: int, n: nat, length: int, s: Slot)
    requires length > 0
    ensures s in Candidates(host, date, n, length) <==> OnSearchedGrid(host, date, n - 1, length, s)
    decreases n
  {
    if n > 0 {
      CandidatesExact(host, date + 1, n - 1, length, s);
      DaySlotsExact(host.window(date), length, host.window(date).start, 0, s);
      if OnSearchedGrid(host, date, n - 1, length, s) {
        var d :| date <= d <= date + n - 1 && Weekday(d) in host.days && OnGrid(host.window(d), length, s);
        if d > date {
          assert OnSearchedGrid(host, date + 1, n - 2, length, s);
        }
      }
      if s in DaySlots(host.window(date), length, host.window(date).start) {
        assert OnGrid(host.window(date), length, s);
      }
    }
  }

  ghost predicate Successive(s: seq<Slot>) {
    forall i, j | 0 <= i < j < |s| :: s[i].end <= s[j].start
  }

  lemma {:induction false} Prepend(first: Slot, later: seq<Slot>)
    requires Successive(later) && forall s <- later :: first.end <= s.start
    ensures Successive([first] + later)
  {
    var all := [first] + later;
    forall i, j | 0 <= i < j < |all|
      ensures all[i].end <= all[j].start
    {
      assert all[j] == later[j - 1] && later[j - 1] in later;
      assert i > 0 ==> all[i] == later[i - 1];
    }
  }

  lemma {:induction false} DaySlotsInside(window: Slot, length: int, from: int)
    requires length > 0
    ensures forall s <- DaySlots(window, length, from) ::
              from <= s.start && s.end == s.start + length && s.end <= window.end
    decreases window.end - from
  {
    if from + length <= window.end {
      DaySlotsInside(window, length, from + length);
    }
  }

  lemma {:induction false} DaySlotsSuccessive(window: Slot, length: int, from: int)
    requires length > 0
    ensures Successive(DaySlots(window, length, from))
    decreases window.end - from
  {
    if from + length <= window.end {
      DaySlotsSuccessive(window, length, from + length);
      DaySlotsInside(window, length, from + length);
      Prepend(Slot(from, from + length), DaySlots(window, length, from + length));
    }
  }

  lemma {:induction false} CandidatesSuccessive(host: Host, date: int, n: nat, length: int)
    requires length > 0 && Ordered(host)
    ensures Successive(Candidates(host, date, n, length))
    ensures forall s <- Candidates(host, date, n, length) ::
              exists d: int :: date <= d && host.window(d).start <= s.start
    decreases n
  {
    if n > 0 {
      CandidatesSuccessive(host, date + 1, n - 1, length);
      DaySlotsSuccessive(host.window(date), length, host.window(date).start);
      DaySlotsInside(host.window(date), length, host.window(date).start);
      var later := Candidates(host, date + 1, n - 1, length);
      forall s | s in later
        ensures host.window(date).end <= s.start
      {
        var d: int :| date + 1 <= d && host.window(d).start <= s.start;
        assert host.window(date).end <= host.window(d).start;
      }
    }
  }

  lemma {:induction false} OfferedExact(cands: seq<Slot>, now: int, busy: seq<Slot>, buffer: int)
    ensures forall s :: s in Offered(cands, now, busy, buffer) <==> s in cands && Offerable(s, now, busy, buffer)
  {
    if cands != [] {
      OfferedExact(cands[1..], now, busy, buffer);
      assert cands == [cands[0]] + cands[1..];
    }
  }

  lemma {:induction false} OfferedSuccessive(cands: seq<Slot>, now: int, busy: seq<Slot>, buffer: int)
    requires Successive(cands)
    ensures Successive(Offered(cands, now, busy, buffer))
  {
    if cands != [] {
      var rest := cands[1..];
      OfferedSuccessive(rest, now, busy, buffer);
      OfferedExact(rest, now, busy, buffer);
      Prepend(cands[0], Offered(rest, now, busy, buffer)) by {
        forall s | s in rest
          ensures cands[0].end <= s.start
        {
        }
      }
    }
  }

  lemma {:induction false} OfferedOverExact(host: Host, now: int, date: int, n: nat, length: int, buffer: int,
                                            busy: seq<Slot>)
    requires length > 0 && Ordered(host)
    ensures var offered := OfferedOver(host, date, n, length, now, busy, buffer);
            && Successive(offered)
            && forall s :: s in offered <==>
                 OnSearchedGrid(host, date, n - 1, length, s) && Offerable(s, now, busy, buffer)
  {
    var cands := Candidates(host, date, n, length);
    CandidatesSuccessive(host, date, n, length);
    OfferedSuccessive(cands, now, busy, buffer);
    OfferedExact(cands, now, busy, buffer);
    forall s
      ensures s in cands <==> OnSearchedGrid(host, date, n - 1, length, s)
    {
      CandidatesExact(host, date, n, length, s);
    }
  }

  // Cutting a list of successive slots off leaves out only later ones, and only for want of room.
  lemma {:induction false} AtMostExact(offered: seq<Slot>, max: int, s: Slot)
    requires Successive(offered)
    ensures var result := AtMost(offered, max);
            && Successive(result) && |result| <= Cap(max)
            && (s in result ==> s in offered)
            && (s in offered && s !in result ==>
                  |result| == Cap(max) && forall r <- result :: r.end <= s.start)
  {
    var result := AtMost(offered, max);
    if s in offered && s !in result {
      var i :| 0 <= i < |offered| && offered[i] == s;
      assert |result| <= i;
    }
  }

  lemma {:induction false} OfferableExactly(s: Slot, connection: string, now: int, searchStart: int, daysAhead: int,
                                            buffer: int, providerBusy: seq<Slot>, appointments: seq<Appointment>)
    ensures Offerable(s, now, Busy(connection, searchStart, daysAhead, providerBusy, appointments), buffer)
       <==> IsVacant(s, connection, now, searchStart, searchStart + daysAhead * DAY, buffer, providerBusy, appointments)
  {
    var searchEnd := searchStart + daysAhead * DAY;
    var fetched := Fetch(appointments, connection, searchStart, searchEnd);
    forall b
      ensures b in fetched <==>
                Appointment(connection, true, b) in appointments && b.start < searchEnd && b.end > searchStart
    {
      FetchExact(appointments, connection, searchStart, searchEnd, b);
    }
    assert forall a <- appointments | a.connection == connection && a.confirmed ::
        a == Appointment(connection, true, a.slot);
  }

  // Exactness: the search returns, one after the other, the slots of the searched grid that are free,
  // except those the maximum cuts off because earlier ones use it up.
  lemma {:induction false} SearchIsExact(host: Host, connection: string, now: int, searchStart: int, daysAhead: int,
                                         length: int, buffer: int, max: int,
                                         providerBusy: seq<Slot>, appointments: seq<Appointment>)
    requires length > 0 && Ordered(host)
    ensures var result := Available(host, connection, now, searchStart, daysAhead, length, buffer, max,
                                    providerBusy, appointments);
            && Successive(result) && (|result| <= 1 || |result| <= max)
            && forall s :: s in result <==>
                 && OnSearchedGrid(host, host.dateOf(searchStart), daysAhead, length, s)
                 && IsVacant(s, connection, now, searchStart, searchStart + daysAhead * DAY, buffer,
                           providerBusy, appointments)
                 && !Crowded(result, max, s)
  {
    var date, n := host.dateOf(searchStart), DayCount(daysAhead);
    var busy := Busy(connection, searchStart, daysAhead, providerBusy, appointments);
    var offered := OfferedOver(host, date, n, length, now, busy, buffer);
    var result := AtMost(offered, max);
    OfferedOverExact(host, now, date, n, length, buffer, busy);
    AtMostExact(offered, max, Slot(0, 0));
    forall s
      ensures s in result <==>
                && OnSearchedGrid(host, date, daysAhead, length, s)
                && IsVacant(s, connection, now, searchStart, searchStart + daysAhead * DAY, buffer,
                          providerBusy, appointments)
                && !Crowded(result, max, s)
    {
      AtMostExact(offered, max, s);
      OfferableExactly(s, connection, now, searchStart, daysAhead, buffer, providerBusy, appointments);
      SearchedGridSlots(host, date, daysAhead, length, s);
    }
  }

  lemma {:induction false} SearchedGridSlots(host: Host, date: int, daysAhead: int, length: int, s: Slot)
    requires length > 0
    ensures OnSearchedGrid(host, date, DayCount(daysAhead) - 1, length, s)
       <==> OnSearchedGrid(host, date, daysAhead, length, s)
    ensures OnSearchedGrid(host, date, daysAhead, length, s) ==> s.start < s.end
  {
  }

  // Appointments that are cancelled, or of other connections, change nothing about the result, nor does
  // the order of the others.
  lemma {:induction false} OthersDoNotMatter(host: Host, connection: string, now: int, searchStart: int, daysAhead: int,
                                             length: int, buffer: int, max: int, providerBusy: seq<Slot>,
                                             appointments: seq<Appointment>, others: seq<Appointment>)
    requires length > 0
    requires forall a: Appointment | a.connection == connection && a.confirmed :: a in appointments <==> a in others
    ensures Available(host, connection, now, searchStart, daysAhead, length, buffer, max, providerBusy, appointments)
         == Available(host, connection, now, searchStart, daysAhead, length, buffer, max, providerBusy, others)
  {
    var searchEnd := searchStart + daysAhead * DAY;
    forall b
      ensures b in Fetch(appointments, connection, searchStart, searchEnd)
         <==> b in Fetch(others, connection, searchStart, searchEnd)
    {
      FetchExact(appointments, connection, searchStart, searchEnd, b);
      FetchExact(others, connection, searchStart, searchEnd, b);
      assert Appointment(connection, true, b) in appointments <==> Appointment(connection, true, b) in others;
    }
    OfferedDependsOnMembers(Candidates(host, host.dateOf(searchStart), DayCount(daysAhead), length), now,
                            Busy(connection, searchStart, daysAhead, providerBusy, appointments),
                            Busy(connection, searchStart, daysAhead, providerBusy, others), buffer);
  }

  lemma {:induction false} OfferedDependsOnMembers(cands: seq<Slot>, now: int, busy: seq<Slot>, other: seq<Slot>,
                                                   buffer: int)
    requires forall b :: b in busy <==> b in other
    ensures Offered(cands, now, busy, buffer) == Offered(cands, now, other, buffer)
  {
    if cands != [] {
      OfferedDependsOnMembers(cands[1..], now, busy, other, buffer);
    }
  }

  // Appointments outside the fetched period are never looked at.  A slot keeps its distance from
  // every one of them, whatever they are, exactly when it lies inside the period by the buffer.
  lemma {:induction false} FetchedPeriodExact(s: Slot, searchStart: int, searchEnd: int, buffer: int)
    requires s.start < s.end
    ensures (forall a: Slot :: a.start < a.end && !IsFetched(a, searchStart, searchEnd) ==> KeepsDistance(s, a, buffer))
       <==> searchStart + buffer <= s.start && s.end <= searchEnd - buffer
  {
    var low := if s.start < searchStart then s.start else searchStart;
    var slack := if buffer < 0 then -buffer else buffer;
    var before := Slot(low - slack - 1, searchStart);
    var high := if s.end > searchEnd then s.end else searchEnd;
    var after := Slot(searchEnd, high + slack + 1);
    if s.start < searchStart + buffer {
      assert !IsFetched(before, searchStart, searchEnd) && !KeepsDistance(s, before, buffer);
    }
    if s.end > searchEnd - buffer {
      assert !IsFetched(after, searchStart, searchEnd) && !KeepsDistance(s, after, buffer);
    }
  }

  // So an offered slot well inside the searched period is clear of every confirmed appointment.
  lemma {:induction false} OfferedSlotIsFree(host: Host, connection: string, now: int, searchStart: int, daysAhead: int,
                          length: int, buffer: int, max: int, providerBusy: seq<Slot>, appointments: seq<Appointment>,
                          s: Slot, a: Appointment)
    requires length > 0 && Ordered(host)
    requires s in Available(host, connection, now, searchStart, daysAhead, length, buffer, max,
                            providerBusy, appointments)
    requires searchStart + buffer <= s.start && s.end <= searchStart + daysAhead * DAY - buffer
    requires a in appointments && a.connection == connection && a.confirmed
    ensures KeepsDistance(s, a.slot, buffer)
  {
    SearchIsExact(host, connection, now, searchStart, daysAhead, length, buffer, max, providerBusy, appointments);
  }

  lemma {:induction false} Multiples(length: int, j: nat, k: nat)
    requires length > 0
    ensures 0 <= j * length && (j < k ==> j * length + length <= k * length)
    decreases j + k
  {
    if j > 0 {
      Multiples(length, j - 1, if k == 0 then 0 else k - 1);
      assert j * length == (j - 1) * length + length;
      assert k > 0 ==> k * length == (k - 1) * length + length;
    } else if k > 1 {
      Multiples(length, 0, k - 1);
      assert k * length == (k - 1) * length + length;
    }
  }

  lemma {:induction false} SameWindowSlots(window: Slot, length: int, s: Slot, j: nat, t: Slot, k: nat)
    requires length > 0 && OnGridAt(window, length, s, j) && OnGridAt(window, length, t, k)
    requires Overlaps(s, t)
    ensures s == t
  {
    Multiples(length, j, k);
    Multiples(length, k, j);
  }

  lemma {:induction false} GridSlotInWindow(window: Slot, length: int, s: Slot)
    requires length > 0 && OnGrid(window, length, s)
    ensures window.start <= s.start && s.end <= window.end
  {
    var j: nat :| OnGridAt(window, length, s, j);
    Multiples(length, j, j);
  }

  // Two slots of one host's grid, searched on whatever days, overlap only if they are the same slot.
  lemma {:induction false} GridSlotsOverlapOnlyIfEqual(host: Host, length: int, d: int, s: Slot, e: int, t: Slot)
    requires length > 0 && Ordered(host)
    requires OnGrid(host.window(d), length, s) && OnGrid(host.window(e), length, t)
    requires Overlaps(s, t)
    ensures s == t
  {
    GridSlotInWindow(host.window(d), length, s);
    GridSlotInWindow(host.window(e), length, t);
    assert d < e ==> host.window(d).end <= host.window(e).start;
    assert e < d ==> host.window(e).end <= host.window(d).start;
    assert d == e;
    var j: nat :| OnGridAt(host.window(d), length, s, j);
    var k: nat :| OnGridAt(host.window(e), length, t, k);
    SameWindowSlots(host.window(d), length, s, j, t, k);
  }
}
