/**
The buffer between interleaved bookings: the search keeps it from what is booked, the booking looks for an
overlap only.
*/
module BookingBuffers {
  import L = Locks
  import opened Slots
  import opened Bookings

  ghost predicate Spaced(confirmed: seq<Slot>, buffer: int) {
    forall i, j | 0 <= i < j < |confirmed| :: KeepsDistance(confirmed[i], confirmed[j], buffer)
  }

  predicate Bookable(reqs: Requests, existing: seq<Slot>, t: L.Token) {
    t in reqs && !Conflicts(reqs[t].slot, existing)
  }

  // A request that can be booked keeps the buffer from every appointment, and from every other such
  // request unless the two overlap.
  ghost predicate HasRoom(reqs: Requests, existing: seq<Slot>, buffer: int) {
    && (forall t, a | Bookable(reqs, existing, t) && a in existing :: KeepsDistance(a, reqs[t].slot, buffer))
    && (forall p, q | Bookable(reqs, existing, p) && Bookable(reqs, existing, q) && p != q
                      && !Overlaps(reqs[p].slot, reqs[q].slot) ::
          KeepsDistance(reqs[p].slot, reqs[q].slot, buffer))
  }

  // ----- Sufficiency -----

  // Every appointment was there before or comes from a booked request, which could be booked.
  ghost predicate IsSourced(reqs: Requests, existing: seq<Slot>, s: State) {
    && WellFormed(reqs, s)
    && (forall t <- reqs :: s.phase[t] == Booked ==> !Conflicts(reqs[t].slot, existing))
    && (forall a <- s.confirmed :: a in existing || FromRequest(reqs, s, a))
  }

  ghost predicate RoomInv(reqs: Requests, existing: seq<Slot>, buffer: int, s: State) {
    Inv(reqs, existing, s) && IsSourced(reqs, existing, s) && Spaced(s.confirmed, buffer)
  }

  lemma {:induction false} NewKeepsDistance(reqs: Requests, existing: seq<Slot>, buffer: int, s: State, t: L.Token, a: Slot)
    requires HasRoom(reqs, existing, buffer) && Inv(reqs, existing, s) && IsSourced(reqs, existing, s)
    requires t in reqs && s.phase[t] == Checked && L.IsLive(s.world, t) && a in s.confirmed
    ensures KeepsDistance(a, reqs[t].slot, buffer)
  {
    assert TokenInv(reqs, existing, s, t);
    assert Bookable(reqs, existing, t) && !Overlaps(a, reqs[t].slot);
    if a !in existing {
      var u :| u in reqs && s.phase[u] == Booked && reqs[u].slot == a;
      assert Bookable(reqs, existing, u);
    }
  }

  lemma {:induction false} AppendSpaced(confirmed: seq<Slot>, slot: Slot, buffer: int)
    requires Spaced(confirmed, buffer) && forall a <- confirmed :: KeepsDistance(a, slot, buffer)
    ensures Spaced(confirmed + [slot], buffer)
  {
    var c := confirmed + [slot];
    forall i, j | 0 <= i < j < |c|
      ensures KeepsDistance(c[i], c[j], buffer)
    {
      assert c[i] == confirmed[i] && c[i] in confirmed;
    }
  }

  lemma {:induction false} CommitKeepsSource(reqs: Requests, existing: seq<Slot>, s: State, t: L.Token)
    requires Inv(reqs, existing, s) && IsSourced(reqs, existing, s)
    requires t in reqs && s.phase[t] == Checked
    ensures IsSourced(reqs, existing, Apply(reqs, s, Commit(t)))
  {
    var s' := Apply(reqs, s, Commit(t));
    assert TokenInv(reqs, existing, s, t);
    assert s'.phase[t] == Booked && FromRequest(reqs, s', reqs[t].slot);
    forall a | a in s.confirmed && a !in existing
      ensures FromRequest(reqs, s', a)
    {
      var u :| u in reqs && s.phase[u] == Booked && reqs[u].slot == a;
      assert s'.phase[u] == Booked;
    }
  }

  lemma {:induction false} QuietKeepsSource(reqs: Requests, existing: seq<Slot>, s: State, step: Step)
    requires IsSourced(reqs, existing, s)
    requires step.Commit? && step.token in reqs ==> s.phase[step.token] != Checked
    ensures IsSourced(reqs, existing, Apply(reqs, s, step)) && Apply(reqs, s, step).confirmed == s.confirmed
  {
    var s' := Apply(reqs, s, step);
    assert forall t <- reqs :: s.phase[t] == Booked <==> s'.phase[t] == Booked;
    forall a | a in s.confirmed && a !in existing
      ensures FromRequest(reqs, s', a)
    {
      var u :| u in reqs && s.phase[u] == Booked && reqs[u].slot == a;
      assert s'.phase[u] == Booked;
    }
  }

  lemma {:induction false} StepKeepsRoom(reqs: Requests, existing: seq<Slot>, buffer: int, s: State, step: Step)
    requires OverlapsShareKey(reqs, existing) && HasRoom(reqs, existing, buffer)
    requires RoomInv(reqs, existing, buffer, s) && StepInTime(reqs, s, step)
    ensures RoomInv(reqs, existing, buffer, Apply(reqs, s, step))
  {
    ApplyKeepsInv(reqs, existing, s, step);
    if step.Commit? && step.token in reqs && s.phase[step.token] == Checked {
      CommitKeepsSource(reqs, existing, s, step.token);
      forall a | a in s.confirmed
        ensures KeepsDistance(a, reqs[step.token].slot, buffer)
      {
        NewKeepsDistance(reqs, existing, buffer, s, step.token, a);
      }
      AppendSpaced(s.confirmed, reqs[step.token].slot, buffer);
    } else {
      QuietKeepsSource(reqs, existing, s, step);
    }
  }

  lemma {:induction false} RunKeepsRoom(reqs: Requests, existing: seq<Slot>, buffer: int, s: State, steps: seq<Step>)
    requires OverlapsShareKey(reqs, existing) && HasRoom(reqs, existing, buffer)
    requires RoomInv(reqs, existing, buffer, s) && InTime(reqs, s, steps)
    ensures RoomInv(reqs, existing, buffer, Run(reqs, s, steps))
    decreases |steps|
  {
    if steps != [] {
      StepKeepsRoom(reqs, existing, buffer, s, steps[0]);
      RunKeepsRoom(reqs, existing, buffer, Apply(reqs, s, steps[0]), steps[1..]);
    }
  }

  // ----- Necessity -----

  // One booking from start to commit, nothing in its way.
  function Books(t: L.Token, rest: seq<Step>): seq<Step> {
    [Arrive(t), TryLock(t)] + ([Check(t), Commit(t)] + rest)
  }

  predicate IsReady(reqs: Requests, s: State, t: L.Token) {
    && WellFormed(reqs, s) && t in reqs && s.phase[t] == Start
    && s.world.locks[t] == L.Lock(KeyOf(reqs[t]), TTL, L.Outside, false, 0)
    && L.IsFree(s.world.table, KeyOf(reqs[t]), s.world.clock)
    && !Conflicts(reqs[t].slot, s.confirmed)
  }

  function AfterBooking(reqs: Requests, s: State, t: L.Token): State
    requires IsReady(reqs, s, t)
  {
    State(L.World(s.world.clock, s.world.table[KeyOf(reqs[t]) := L.Entry(t, s.world.clock + TTL)],
                s.world.locks[t := L.Lock(KeyOf(reqs[t]), TTL, L.Outside, true, s.world.clock + TTL)]),
          s.phase[t := Booked], s.confirmed + [reqs[t].slot])
  }

  lemma {:induction false} BooksInTime(reqs: Requests, s: State, t: L.Token, rest: seq<Step>)
    requires IsReady(reqs, s, t)
    ensures WellFormed(reqs, AfterBooking(reqs, s, t))
    ensures Run(reqs, s, Books(t, rest)) == Run(reqs, AfterBooking(reqs, s, t), rest)
    ensures InTime(reqs, s, Books(t, rest)) <==> InTime(reqs, AfterBooking(reqs, s, t), rest)
  {
    TakesLock(reqs, s, t);
    var s1 := Apply(reqs, Apply(reqs, s, Arrive(t)), TryLock(t));
    ChecksAndCommits(reqs, s1, t);
    assert Apply(reqs, Apply(reqs, s1, Check(t)), Commit(t)) == AfterBooking(reqs, s, t) by {
      assert s1.phase[t := Checked][t := Booked] == s.phase[t := Booked];
    }
    RunTwo(reqs, s, Arrive(t), TryLock(t), [Check(t), Commit(t)] + rest);
    RunTwo(reqs, s1, Check(t), Commit(t), rest);
  }

  lemma {:induction false} ChecksAndCommits(reqs: Requests, s: State, t: L.Token)
    requires WellFormed(reqs, s) && t in reqs && s.phase[t] == Holding && L.IsLive(s.world, t)
    requires !Conflicts(reqs[t].slot, s.confirmed)
    ensures Apply(reqs, s, Check(t)) == s.(phase := s.phase[t := Checked])
    ensures StepInTime(reqs, s, Check(t)) && StepInTime(reqs, Apply(reqs, s, Check(t)), Commit(t))
    ensures Apply(reqs, Apply(reqs, s, Check(t)), Commit(t))
         == s.(phase := s.phase[t := Checked][t := Booked], confirmed := s.confirmed + [reqs[t].slot])
  {
  }

  function OneThenOther(p: L.Token, q: L.Token): seq<Step> {
    Books(p, [Leave(p), Delete(p)] + Books(q, []))
  }

  lemma {:induction false} StartsReady(reqs: Requests, existing: seq<Slot>, clock: int, t: L.Token)
    requires Bookable(reqs, existing, t)
    ensures IsReady(reqs, Init(reqs, existing, clock), t)
  {
  }

  // When the first has left and freed its key, the second is ready.
  lemma {:induction false} OtherIsReady(reqs: Requests, existing: seq<Slot>, clock: int, p: L.Token, q: L.Token)
    requires Bookable(reqs, existing, p) && Bookable(reqs, existing, q) && p != q
    requires !Overlaps(reqs[p].slot, reqs[q].slot)
    requires IsReady(reqs, Init(reqs, existing, clock), p)
    ensures var s := AfterBooking(reqs, Init(reqs, existing, clock), p);
            && WellFormed(reqs, s) && WellFormed(reqs, Apply(reqs, s, Leave(p)))
            && IsReady(reqs, Apply(reqs, Apply(reqs, s, Leave(p)), Delete(p)), q)
            && Apply(reqs, Apply(reqs, s, Leave(p)), Delete(p)).confirmed == existing + [reqs[p].slot]
  {
    var s := AfterBooking(reqs, Init(reqs, existing, clock), p);
    var left := Apply(reqs, s, Leave(p));
    var freed := Apply(reqs, left, Delete(p));
    assert freed.confirmed == existing + [reqs[p].slot];
    assert forall a <- freed.confirmed :: a in existing || a == reqs[p].slot;
  }

  lemma {:induction false} OneThenOtherBooks(reqs: Requests, existing: seq<Slot>, clock: int, p: L.Token, q: L.Token)
    requires Bookable(reqs, existing, p) && Bookable(reqs, existing, q) && p != q
    requires !Overlaps(reqs[p].slot, reqs[q].slot)
    ensures var s := Init(reqs, existing, clock);
            && InTime(reqs, s, OneThenOther(p, q))
            && Run(reqs, s, OneThenOther(p, q)).confirmed == existing + [reqs[p].slot] + [reqs[q].slot]
  {
    var s := Init(reqs, existing, clock);
    StartsReady(reqs, existing, clock, p);
    OtherIsReady(reqs, existing, clock, p, q);
    var s1 := AfterBooking(reqs, s, p);
    var s2 := Apply(reqs, Apply(reqs, s1, Leave(p)), Delete(p));
    BooksInTime(reqs, s, p, [Leave(p), Delete(p)] + Books(q, []));
    RunTwo(reqs, s1, Leave(p), Delete(p), Books(q, []));
    BooksInTime(reqs, s2, q, []);
  }

  lemma {:induction false} NearAppointmentBooks(reqs: Requests, existing: seq<Slot>, clock: int, t: L.Token)
    requires Bookable(reqs, existing, t)
    ensures InTime(reqs, Init(reqs, existing, clock), Books(t, []))
    ensures Run(reqs, Init(reqs, existing, clock), Books(t, [])).confirmed == existing + [reqs[t].slot]
  {
    StartsReady(reqs, existing, clock, t);
    BooksInTime(reqs, Init(reqs, existing, clock), t, []);
  }

  // A run in time that loses the buffer.
  ghost predicate Crowds(reqs: Requests, s: State, buffer: int, steps: seq<Step>)
    requires WellFormed(reqs, s)
  {
    InTime(reqs, s, steps) && !Spaced(Run(reqs, s, steps).confirmed, buffer)
  }

  lemma {:induction false} NoRoomCrowds(reqs: Requests, existing: seq<Slot>, clock: int, buffer: int)
    returns (steps: seq<Step>)
    requires !HasRoom(reqs, existing, buffer)
    ensures Crowds(reqs, Init(reqs, existing, clock), buffer, steps)
  {
    if t, a :| Bookable(reqs, existing, t) && a in existing && !KeepsDistance(a, reqs[t].slot, buffer) {
      steps := Books(t, []);
      NearAppointmentBooks(reqs, existing, clock, t);
      var i :| 0 <= i < |existing| && existing[i] == a;
      var c := existing + [reqs[t].slot];
      assert c[i] == a && c[|existing|] == reqs[t].slot;
    } else {
      var p, q :| Bookable(reqs, existing, p) && Bookable(reqs, existing, q) && p != q
        && !Overlaps(reqs[p].slot, reqs[q].slot) && !KeepsDistance(reqs[p].slot, reqs[q].slot, buffer);
      steps := OneThenOther(p, q);
      OneThenOtherBooks(reqs, existing, clock, p, q);
      var c := existing + [reqs[p].slot] + [reqs[q].slot];
      assert c[|existing|] == reqs[p].slot && c[|existing| + 1] == reqs[q].slot;
    }
  }

  lemma {:induction false} SpacedIsDisjoint(confirmed: seq<Slot>, buffer: int)
    requires Spaced(confirmed, buffer) && buffer >= 0
    ensures Disjoint(confirmed)
  {
    forall i, j | 0 <= i < j < |confirmed|
      ensures !Overlaps(confirmed[i], confirmed[j])
    {
      assert KeepsDistance(confirmed[i], confirmed[j], buffer);
    }
  }

  lemma {:induction false} UnsharedKeyCrowds(reqs: Requests, existing: seq<Slot>, clock: int, buffer: int)
    returns (steps: seq<Step>)
    requires !OverlapsShareKey(reqs, existing) && buffer >= 0
    ensures Crowds(reqs, Init(reqs, existing, clock), buffer, steps)
  {
    var p, q :| p in reqs && q in reqs && p != q && Overlaps(reqs[p].slot, reqs[q].slot)
      && !Conflicts(reqs[p].slot, existing) && !Conflicts(reqs[q].slot, existing)
      && KeyOf(reqs[p]) != KeyOf(reqs[q]);
    steps := Race(p, q);
    RaceDoubleBooks(reqs, existing, clock, p, q);
    if Spaced(Run(reqs, Init(reqs, existing, clock), steps).confirmed, buffer) {
      SpacedIsDisjoint(existing + [reqs[p].slot, reqs[q].slot], buffer);
    }
  }

  // Interleaved in any way, bookings whose commits are in time keep the buffer exactly when overlapping
  // bookable requests share a lock key and all others have room.
  lemma {:induction false} InterleavedBufferExactly(reqs: Requests, existing: seq<Slot>, clock: int, buffer: int)
    requires Spaced(existing, buffer) && buffer >= 0
    ensures (forall steps: seq<Step> :: !Crowds(reqs, Init(reqs, existing, clock), buffer, steps))
       <==> OverlapsShareKey(reqs, existing) && HasRoom(reqs, existing, buffer)
  {
    var s := Init(reqs, existing, clock);
    if !OverlapsShareKey(reqs, existing) {
      var steps := UnsharedKeyCrowds(reqs, existing, clock, buffer);
    } else if !HasRoom(reqs, existing, buffer) {
      var steps := NoRoomCrowds(reqs, existing, clock, buffer);
    } else {
      SpacedIsDisjoint(existing, buffer);
      forall steps: seq<Step> | InTime(reqs, s, steps)
        ensures Spaced(Run(reqs, s, steps).confirmed, buffer)
      {
        RunKeepsRoom(reqs, existing, buffer, s, steps);
      }
    }
  }
}
