/**
One call of the booking routine from end to end: lock, connection, conflict check, provider,
appointment, halting of the lead's enrolments, release.  Concurrency is the subject of Bookings;
here nothing else touches the database during the call.
*/
module MeetingBooking {
  import opened Options
  import opened LeadStates
  import opened Sequences
  import opened Campaigns
  import L = Locks
  import opened Slots
  import B = Bookings

  datatype Outcome = Accepted | LockBusy | NoConnection | AlreadyBooked | ProviderFailed | CommitFailed

  // An event in the provider's calendar, outside the database.
  datatype ProviderEvent = ProviderEvent(connection: string, slot: Slot)

  // The MEETING_BOOKED audit event of one booking.
  datatype MeetingEvent = MeetingEvent(connection: string, slot: Slot)

  class Calendar {
    var connections: set<string>
    var appointments: seq<Appointment>
    var providerEvents: seq<ProviderEvent>
    var audit: seq<MeetingEvent>

    constructor (connections: set<string>)
      ensures this.connections == connections && appointments == [] && providerEvents == [] && audit == []
    {
      this.connections := connections;
      appointments := [];
      providerEvents := [];
      audit := [];
    }
  }

  predicate Clashes(a: Appointment, connection: string, slot: Slot) {
    a.connection == connection && a.confirmed && Overlaps(a.slot, slot)
  }

  predicate Taken(appointments: seq<Appointment>, connection: string, slot: Slot) {
    exists a <- appointments :: Clashes(a, connection, slot)
  }

  method FindConflict(appointments: seq<Appointment>, connection: string, slot: Slot) returns (found: bool)
    ensures found == Taken(appointments, connection, slot)
    ensures found <==> exists a <- appointments ::
                         a.connection == connection && a.confirmed && a.slot.start < slot.end && slot.start < a.slot.end
  {
    for i := 0 to |appointments|
      invariant forall j | 0 <= j < i :: !Clashes(appointments[j], connection, slot)
    {
      var a := appointments[i];
      if a.connection == connection && a.confirmed && a.slot.start < slot.end && a.slot.end > slot.start {
        assert Clashes(appointments[i], connection, slot) && appointments[i] in appointments;
        return true;
      }
    }
    return false;
  }

  // What the call comes to, from the state it meets.
  function OutcomeOf(keyFree: bool, connected: bool, taken: bool, providerOk: bool, commitOk: bool): Outcome {
    if !keyFree then LockBusy
    else if !connected then NoConnection
    else if taken then AlreadyBooked
    else if !providerOk then ProviderFailed
    else if !commitOk then CommitFailed
    else Accepted
  }

  // The call succeeds exactly if nothing stands in its way, and otherwise says what did so first.
  lemma {:induction false} OutcomeExactly(keyFree: bool, connected: bool, taken: bool, providerOk: bool, commitOk: bool)
    ensures var outcome := OutcomeOf(keyFree, connected, taken, providerOk, commitOk);
            && (outcome == Accepted <==> keyFree && connected && !taken && providerOk && commitOk)
            && (outcome == CommitFailed <==> keyFree && connected && !taken && providerOk && !commitOk)
            && (outcome == ProviderFailed <==> keyFree && connected && !taken && !providerOk)
            && (outcome == AlreadyBooked <==> keyFree && connected && taken)
            && (outcome == NoConnection <==> keyFree && !connected)
            && (outcome == LockBusy <==> !keyFree)
  {
  }

  // commitOk is false when the database refuses after the provider has created its event: everything
  // but that event is rolled back.
  method BookMeeting(calendar: Calendar, registry: L.Registry, token: L.Token, now: int, connection: string,
                     request: B.Request, leads: seq<CampaignLead>, providerOk: bool, commitOk: bool)
    returns (outcome: Outcome)
    requires Distinct(leads)
    modifies calendar, registry, leads
    ensures calendar.connections == old(calendar.connections)
    ensures outcome == OutcomeOf(L.IsFree(old(registry.table), B.KeyOf(request), now),
                                 connection in old(calendar.connections),
                                 Taken(old(calendar.appointments), connection, request.slot), providerOk, commitOk)
    ensures Diary(calendar.appointments, calendar.providerEvents)
         == AfterCall(Diary(old(calendar.appointments), old(calendar.providerEvents)),
                      Call(L.IsFree(old(registry.table), B.KeyOf(request), now), connection in old(calendar.connections),
                           providerOk, commitOk, connection, request.slot))
    // Whatever the outcome the call leaves no entry of its own behind.
    ensures registry.table ==
            if outcome == LockBusy then old(registry.table) else old(registry.table) - {B.KeyOf(request)}
    ensures calendar.appointments ==
            old(calendar.appointments)
            + if outcome == Accepted then [Appointment(connection, true, request.slot)] else []
    ensures calendar.audit ==
            old(calendar.audit) + if outcome == Accepted then [MeetingEvent(connection, request.slot)] else []
    ensures calendar.providerEvents ==
            old(calendar.providerEvents)
            + if outcome == Accepted || outcome == CommitFailed
              then [ProviderEvent(connection, request.slot)] else []
    ensures forall l <- leads ::
              l.Value() == if outcome == Accepted then BookRow(old(l.Value())) else old(l.Value())
  {
    var lock := new L.DistributedLock("booking_lock:" + request.host + ":" + request.iso, token, B.TTL, 0);
    assert lock.key == B.KeyOf(request);
    var acquired := lock.Acquire(registry, i => now, (i, t) => t);
    if !acquired {
      return LockBusy;
    }
    if connection !in calendar.connections {
      outcome := NoConnection;
    } else {
      var conflict := FindConflict(calendar.appointments, connection, request.slot);
      if conflict {
        outcome := AlreadyBooked;
      } else if !providerOk {
        outcome := ProviderFailed;
      } else {
        calendar.providerEvents := calendar.providerEvents + [ProviderEvent(connection, request.slot)];
        if commitOk {
          calendar.appointments := calendar.appointments + [Appointment(connection, true, request.slot)];
          HaltForMeeting(leads);
          calendar.audit := calendar.audit + [MeetingEvent(connection, request.slot)];
          outcome := Accepted;
        } else {
          outcome := CommitFailed;
        }
      }
    }
    lock.Release(registry);
  }

  ghost predicate NoDoubleBooking(appointments: seq<Appointment>) {
    forall i, j | 0 <= i < j < |appointments| && appointments[i].confirmed && appointments[j].confirmed
                  && appointments[i].connection == appointments[j].connection ::
      !Overlaps(appointments[i].slot, appointments[j].slot)
  }

  datatype Call = Call(keyFree: bool, connected: bool, providerOk: bool, commitOk: bool, connection: string, slot: Slot)

  datatype Diary = Diary(appointments: seq<Appointment>, events: seq<ProviderEvent>)

  function CallOutcome(d: Diary, c: Call): Outcome {
    OutcomeOf(c.keyFree, c.connected, Taken(d.appointments, c.connection, c.slot), c.providerOk, c.commitOk)
  }

  function AfterCall(d: Diary, c: Call): Diary {
    match CallOutcome(d, c)
    case Accepted => Diary(d.appointments + [Appointment(c.connection, true, c.slot)],
                           d.events + [ProviderEvent(c.connection, c.slot)])
    case CommitFailed => d.(events := d.events + [ProviderEvent(c.connection, c.slot)])
    case _ => d
  }

  // The diary after calls made one after another, each as BookMeeting leaves it.
  function AfterCalls(d: Diary, calls: seq<Call>): Diary
    decreases |calls|
  {
    if calls == [] then d else AfterCalls(AfterCall(d, calls[0]), calls[1..])
  }

  lemma {:induction false} OneMoreBooking(appointments: seq<Appointment>, connection: string, slot: Slot)
    requires NoDoubleBooking(appointments) && !Taken(appointments, connection, slot)
    ensures NoDoubleBooking(appointments + [Appointment(connection, true, slot)])
  {
    var next := appointments + [Appointment(connection, true, slot)];
    forall i, j | 0 <= i < j < |next| && next[i].confirmed && next[j].confirmed
                  && next[i].connection == next[j].connection
      ensures !Overlaps(next[i].slot, next[j].slot)
    {
      assert next[i] in appointments;
    }
  }

  // Booked one at a time, no connection is ever double-booked, whatever slots are asked for.
  lemma {:induction false} SerialBookingsNeverOverlap(d: Diary, calls: seq<Call>)
    requires NoDoubleBooking(d.appointments)
    ensures NoDoubleBooking(AfterCalls(d, calls).appointments)
    decreases |calls|
  {
    if calls != [] {
      if CallOutcome(d, calls[0]) == Accepted {
        OneMoreBooking(d.appointments, calls[0].connection, calls[0].slot);
      }
      SerialBookingsNeverOverlap(AfterCall(d, calls[0]), calls[1..]);
    }
  }

  function FailedCommits(d: Diary, calls: seq<Call>): nat
    decreases |calls|
  {
    if calls == [] then 0
    else (if CallOutcome(d, calls[0]) == CommitFailed then 1 else 0) + FailedCommits(AfterCall(d, calls[0]), calls[1..])
  }

  // The provider's calendar has an event for every appointment, and beyond those exactly one for each
  // failed commit.
  lemma {:induction false} StrayEventsAreFailedCommits(d: Diary, calls: seq<Call>)
    ensures var d' := AfterCalls(d, calls);
            && d.appointments <= d'.appointments && d.events <= d'.events
            && |d'.events| - |d.events| == |d'.appointments| - |d.appointments| + FailedCommits(d, calls)
            && forall i | |d.appointments| <= i < |d'.appointments| ::
                 ProviderEvent(d'.appointments[i].connection, d'.appointments[i].slot) in d'.events
    decreases |calls|
  {
    if calls != [] {
      var next := AfterCall(d, calls[0]);
      StrayEventsAreFailedCommits(next, calls[1..]);
      var d' := AfterCalls(next, calls[1..]);
      if CallOutcome(d, calls[0]) == Accepted {
        assert d'.appointments[|d.appointments|] == next.appointments[|d.appointments|];
        assert next.events[|d.events|] == d'.events[|d.events|];
      }
    }
  }

  // ----- The buffer between bookings -----

  // The search keeps the buffer from what is booked; the booking itself looks for an overlap only.
  ghost predicate Buffered(appointments: seq<Appointment>, connection: string, buffer: int) {
    forall i, j | 0 <= i < j < |appointments| && IsOn(appointments[i], connection) && IsOn(appointments[j], connection) ::
      KeepsDistance(appointments[i].slot, appointments[j].slot, buffer)
  }

  predicate IsOn(a: Appointment, connection: string) { a.connection == connection && a.confirmed }

  // A slot that can be booked has room: from every appointment, and from every other such slot unless
  // the two overlap.
  ghost predicate Roomy(appointments: seq<Appointment>, connection: string, wanted: set<Slot>, buffer: int) {
    forall s <- wanted | !Taken(appointments, connection, s) ::
      && ClearOfAll(appointments, connection, s, buffer)
      && forall t <- wanted | !Taken(appointments, connection, t) && !Overlaps(s, t) :: KeepsDistance(s, t, buffer)
  }

  ghost predicate ClearOfAll(appointments: seq<Appointment>, connection: string, s: Slot, buffer: int) {
    forall a <- appointments | IsOn(a, connection) :: KeepsDistance(a.slot, s, buffer)
  }

  // The calls ask for these slots of the connection, and anything of the others.
  predicate AskFor(calls: seq<Call>, connection: string, wanted: set<Slot>) {
    forall c <- calls | c.connection == connection :: c.slot in wanted
  }

  lemma {:induction false} BookingKeepsRoom(appointments: seq<Appointment>, connection: string, wanted: set<Slot>,
                                            buffer: int, s: Slot)
    requires Roomy(appointments, connection, wanted, buffer) && Buffered(appointments, connection, buffer)
    requires s in wanted && !Taken(appointments, connection, s)
    ensures var next := appointments + [Appointment(connection, true, s)];
            Roomy(next, connection, wanted, buffer) && Buffered(next, connection, buffer)
  {
    var next := appointments + [Appointment(connection, true, s)];
    assert ClearOfAll(appointments, connection, s, buffer);
    assert forall a <- appointments :: a in next;
    assert Appointment(connection, true, s) in next;
    forall t | t in wanted && !Taken(next, connection, t)
      ensures !Taken(appointments, connection, t) && ClearOfAll(next, connection, t, buffer)
    {
      assert !Clashes(Appointment(connection, true, s), connection, t);
      assert ClearOfAll(appointments, connection, t, buffer);
    }
    forall i, j | 0 <= i < j < |next| && IsOn(next[i], connection) && IsOn(next[j], connection)
      ensures KeepsDistance(next[i].slot, next[j].slot, buffer)
    {
      assert next[i] in appointments;
    }
  }

  lemma {:induction false} ElsewhereKeepsRoom(appointments: seq<Appointment>, connection: string, wanted: set<Slot>,
                                              buffer: int, other: string, s: Slot)
    requires Roomy(appointments, connection, wanted, buffer) && Buffered(appointments, connection, buffer)
    requires other != connection
    ensures var next := appointments + [Appointment(other, true, s)];
            Roomy(next, connection, wanted, buffer) && Buffered(next, connection, buffer)
  {
    var next := appointments + [Appointment(other, true, s)];
    forall t | t in wanted
      ensures Taken(next, connection, t) <==> Taken(appointments, connection, t)
      ensures ClearOfAll(next, connection, t, buffer) <==> ClearOfAll(appointments, connection, t, buffer)
    {
      assert forall a :: a in next <==> a in appointments || a == Appointment(other, true, s);
    }
  }

  lemma {:induction false} CallsKeepRoom(d: Diary, calls: seq<Call>, connection: string, wanted: set<Slot>, buffer: int)
    requires Roomy(d.appointments, connection, wanted, buffer) && Buffered(d.appointments, connection, buffer)
    requires AskFor(calls, connection, wanted)
    ensures Buffered(AfterCalls(d, calls).appointments, connection, buffer)
    decreases |calls|
  {
    if calls != [] {
      var c := calls[0];
      assert c in calls;
      if CallOutcome(d, c) == Accepted {
        if c.connection == connection {
          BookingKeepsRoom(d.appointments, connection, wanted, buffer, c.slot);
        } else {
          ElsewhereKeepsRoom(d.appointments, connection, wanted, buffer, c.connection, c.slot);
        }
      }
      CallsKeepRoom(AfterCall(d, c), calls[1..], connection, wanted, buffer);
    }
  }

  function Booking(connection: string, slot: Slot): Call { Call(true, true, true, true, connection, slot) }

  lemma {:induction false} OneCall(d: Diary, connection: string, s: Slot)
    requires !Taken(d.appointments, connection, s)
    ensures AfterCalls(d, [Booking(connection, s)]).appointments == d.appointments + [Appointment(connection, true, s)]
  {
    assert [Booking(connection, s)][1..] == [];
  }

  lemma {:induction false} TwoCalls(d: Diary, connection: string, s: Slot, t: Slot)
    requires !Taken(d.appointments, connection, s) && !Taken(d.appointments, connection, t) && !Overlaps(s, t)
    ensures AfterCalls(d, [Booking(connection, s), Booking(connection, t)]).appointments
         == d.appointments + [Appointment(connection, true, s)] + [Appointment(connection, true, t)]
  {
    var d1 := AfterCall(d, Booking(connection, s));
    assert [Booking(connection, s), Booking(connection, t)][1..] == [Booking(connection, t)];
    OneCall(d1, connection, t);
  }

  // Some calls for these slots, and the buffer is gone.
  ghost predicate Breaking(d: Diary, calls: seq<Call>, connection: string, wanted: set<Slot>, buffer: int) {
    AskFor(calls, connection, wanted) && !Buffered(AfterCalls(d, calls).appointments, connection, buffer)
  }

  lemma {:induction false} NearAppointmentBreaks(d: Diary, connection: string, wanted: set<Slot>, buffer: int,
                                                 s: Slot, a: Appointment)
    requires s in wanted && !Taken(d.appointments, connection, s)
    requires a in d.appointments && IsOn(a, connection) && !KeepsDistance(a.slot, s, buffer)
    ensures Breaking(d, [Booking(connection, s)], connection, wanted, buffer)
  {
    OneCall(d, connection, s);
    var i :| 0 <= i < |d.appointments| && d.appointments[i] == a;
    var after := AfterCalls(d, [Booking(connection, s)]).appointments;
    assert after[i] == a && after[|d.appointments|].slot == s;
  }

  lemma {:induction false} NearSlotBreaks(d: Diary, connection: string, wanted: set<Slot>, buffer: int, s: Slot, t: Slot)
    requires s in wanted && t in wanted && !Overlaps(s, t) && !KeepsDistance(s, t, buffer)
    requires !Taken(d.appointments, connection, s) && !Taken(d.appointments, connection, t)
    ensures Breaking(d, [Booking(connection, s), Booking(connection, t)], connection, wanted, buffer)
  {
    TwoCalls(d, connection, s, t);
    var n, after := |d.appointments|, AfterCalls(d, [Booking(connection, s), Booking(connection, t)]).appointments;
    assert after[n].slot == s && after[n + 1].slot == t;
  }

  // Bookings of these slots, made one after another in any number and order, keep the buffer exactly when
  // those that can be booked have room.
  lemma {:induction false} BufferKeptExactly(d: Diary, connection: string, wanted: set<Slot>, buffer: int)
    requires Buffered(d.appointments, connection, buffer)
    ensures (forall calls: seq<Call> :: !Breaking(d, calls, connection, wanted, buffer))
       <==> Roomy(d.appointments, connection, wanted, buffer)
  {
    if Roomy(d.appointments, connection, wanted, buffer) {
      forall calls: seq<Call>
        ensures !Breaking(d, calls, connection, wanted, buffer)
      {
        if AskFor(calls, connection, wanted) {
          CallsKeepRoom(d, calls, connection, wanted, buffer);
        }
      }
    } else {
      var s :| s in wanted && !Taken(d.appointments, connection, s)
        && !(ClearOfAll(d.appointments, connection, s, buffer)
             && forall t <- wanted | !Taken(d.appointments, connection, t) && !Overlaps(s, t) ::
                  KeepsDistance(s, t, buffer));
      if !ClearOfAll(d.appointments, connection, s, buffer) {
        var a :| a in d.appointments && IsOn(a, connection) && !KeepsDistance(a.slot, s, buffer);
        NearAppointmentBreaks(d, connection, wanted, buffer, s, a);
      } else {
        var t :| t in wanted && !Taken(d.appointments, connection, t) && !Overlaps(s, t) && !KeepsDistance(s, t, buffer);
        NearSlotBreaks(d, connection, wanted, buffer, s, t);
      }
    }
  }

  // Two slots of one day's grid keep the buffer exactly when enough slots lie between them, so two
  // neighbours offered by one search never keep a positive one.
  lemma {:induction false} GridBufferExactly(window: Slot, length: int, buffer: int, s: Slot, j: nat, t: Slot, k: nat)
    requires length > 0 && j < k && OnGridAt(window, length, s, j) && OnGridAt(window, length, t, k)
    ensures !Overlaps(s, t)
    ensures KeepsDistance(s, t, buffer) <==> (k - j - 1) * length >= buffer
  {
    Multiples(length, j, k);
    assert (k - j - 1) * length == k * length - j * length - length;
  }
}
