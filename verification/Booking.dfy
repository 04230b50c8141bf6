/**
Concurrent bookings of one calendar connection.  A booking takes a lock whose key names the host and
the written start time, checks the confirmed appointments for a conflict, calls the provider, inserts
the appointment and releases the lock.  Any number of bookings are interleaved here, one atomic step
each, over the lock table of module Locks.
*/
module Bookings {
  import opened Instants
  import opened Locks
  import opened Slots

  // iso is the start time as the request writes it: the instant together with its UTC offset.
  datatype Request = Request(host: string, iso: string, slot: Slot)

  const TTL: int := 15

  function KeyOf(r: Request): Key {
    "codenter_lock:" + "booking_lock:" + r.host + ":" + r.iso
  }

  predicate HasNoColon(s: string) { ':' !in s }

  // What a key has after its prefix.
  function Named(host: string, iso: string): string { host + ":" + iso }

  // With hosts that contain no colon two requests name one lock exactly if they agree in the host and in the
  // way the start time is written.
  lemma {:induction false} KeysAgreeExactly(r: Request, q: Request)
    requires HasNoColon(r.host) && HasNoColon(q.host)
    ensures KeyOf(r) == KeyOf(q) <==> r.host == q.host && r.iso == q.iso
  {
    var common := "codenter_lock:" + "booking_lock:";
    assert KeyOf(r)[|common|..] == Named(r.host, r.iso) && KeyOf(q)[|common|..] == Named(q.host, q.iso);
    if KeyOf(r) == KeyOf(q) {
      SplitsAtColon(r.host, r.iso, q.host, q.iso);
    }
  }

  lemma {:induction false} NoColonBefore(a: string, b: string, c: string, d: string)
    requires HasNoColon(c) && Named(a, b) == Named(c, d)
    ensures |c| <= |a|
  {
    assert Named(a, b)[|a|] == ':';
    assert forall i | 0 <= i < |c| :: Named(c, d)[i] == c[i] && c[i] in c;
  }

  lemma {:induction false} SplitsAtColon(a: string, b: string, c: string, d: string)
    requires HasNoColon(a) && HasNoColon(c) && Named(a, b) == Named(c, d)
    ensures a == c && b == d
  {
    NoColonBefore(a, b, c, d);
    NoColonBefore(c, d, a, b);
    var s := Named(a, b);
    assert s[..|a|] == a && s[..|c|] == c && s[|a| + 1..] == b && s[|c| + 1..] == d;
  }

  datatype Phase = Start | Reading | Holding | Checked | Booked | Refused

  datatype State = State(world: World, phase: map<Token, Phase>, confirmed: seq<Slot>)

  datatype Step =
    | Tick(dt: nat)
    | Arrive(token: Token)    // read the clock, then wait for the table
    | TryLock(token: Token)   // one attempt only: max_retries is 0
    | Check(token: Token)     // look for a conflicting confirmed appointment
    | Commit(token: Token)    // the provider has answered; insert and commit
    | Leave(token: Token)     // leave the lock's block, normally or by an exception
    | Delete(token: Token)    // the release's critical section

  type Requests = map<Token, Request>

  predicate Conflicts(slot: Slot, confirmed: seq<Slot>) {
    exists a <- confirmed :: Overlaps(a, slot)
  }

  function Apply(reqs: Requests, s: State, step: Step): State
    requires s.phase.Keys == reqs.Keys == s.world.locks.Keys
    ensures Apply(reqs, s, step).phase.Keys == reqs.Keys == Apply(reqs, s, step).world.locks.Keys
  {
    match step
    case Tick(dt) => s.(world := Locks.Apply(s.world, Locks.Tick(dt)))
    case Arrive(t) =>
      if t in reqs && s.phase[t] == Start then
        s.(world := Locks.Apply(s.world, Locks.ReadClock(t)), phase := s.phase[t := Reading])
      else s
    case TryLock(t) =>
      if t in reqs && s.phase[t] == Reading then
        var w := Locks.Apply(s.world, Locks.Enter(t));
        s.(world := w, phase := s.phase[t := if w.locks[t].acquired then Holding else Refused])
      else s
    case Check(t) =>
      if t in reqs && s.phase[t] == Holding then
        s.(phase := s.phase[t := if Conflicts(reqs[t].slot, s.confirmed) then Refused else Checked])
      else s
    case Commit(t) =>
      if t in reqs && s.phase[t] == Checked then
        s.(phase := s.phase[t := Booked], confirmed := s.confirmed + [reqs[t].slot])
      else s
    case Leave(t) =>
      if t in reqs && s.world.locks[t].acquired then
        s.(world := Locks.Apply(s.world, Locks.BeginRelease(t)),
           phase := s.phase[t := if s.phase[t] == Booked then Booked else Refused])
      else s
    case Delete(t) =>
      if t in reqs then s.(world := Locks.Apply(s.world, Locks.FinishRelease(t))) else s
  }

  predicate WellFormed(reqs: Requests, s: State) {
    s.phase.Keys == reqs.Keys == s.world.locks.Keys
  }

  function Run(reqs: Requests, s: State, steps: seq<Step>): State
    requires WellFormed(reqs, s)
    decreases |steps|
  {
    if steps == [] then s else Run(reqs, Apply(reqs, s, steps[0]), steps[1..])
  }

  predicate StepInTime(reqs: Requests, s: State, step: Step)
    requires WellFormed(reqs, s)
  {
    step.Commit? && step.token in reqs && s.phase[step.token] == Checked ==> IsLive(s.world, step.token)
  }

  // Each booking that commits does so before its lease has run out.
  predicate InTime(reqs: Requests, s: State, steps: seq<Step>)
    requires WellFormed(reqs, s)
    decreases |steps|
  {
    steps == [] ||
    (StepInTime(reqs, s, steps[0]) && InTime(reqs, Apply(reqs, s, steps[0]), steps[1..]))
  }

  function Init(reqs: Requests, existing: seq<Slot>, clock: int): (s: State)
    ensures WellFormed(reqs, s)
  {
    State(World(clock, map[], map t | t in reqs :: Lock(KeyOf(reqs[t]), TTL, Outside, false, 0)),
          map t | t in reqs :: Start, existing)
  }

  ghost predicate Disjoint(confirmed: seq<Slot>) {
    forall i, j | 0 <= i < j < |confirmed| :: !Overlaps(confirmed[i], confirmed[j])
  }

  // Any two requests that could both pass the conflict check today, and overlap, name the same lock.
  ghost predicate OverlapsShareKey(reqs: Requests, existing: seq<Slot>) {
    forall p, q | p in reqs && q in reqs && p != q && Overlaps(reqs[p].slot, reqs[q].slot)
                  && !Conflicts(reqs[p].slot, existing) && !Conflicts(reqs[q].slot, existing) ::
      KeyOf(reqs[p]) == KeyOf(reqs[q])
  }

  // ----- Sufficiency -----

  ghost predicate TokenInv(reqs: Requests, existing: seq<Slot>, s: State, t: Token)
    requires WellFormed(reqs, s) && t in reqs
  {
    var l := s.world.locks[t];
    && l.key == KeyOf(reqs[t])
    && (s.phase[t] == Start ==> !l.acquired && l.phase.Outside?)
    && (s.phase[t] == Reading ==> !l.acquired && l.phase.Waiting?)
    && (s.phase[t] == Holding || s.phase[t] == Checked ==> l.acquired && l.phase.Outside?)
    && (s.phase[t] == Booked || s.phase[t] == Refused ==> !l.phase.Waiting?)
    && (s.phase[t] == Checked ==> !Conflicts(reqs[t].slot, existing))
    && (s.phase[t] == Checked && IsLive(s.world, t) ==> !Conflicts(reqs[t].slot, s.confirmed))
  }

  ghost predicate Inv(reqs: Requests, existing: seq<Slot>, s: State) {
    && WellFormed(reqs, s)
    && Locks.Inv(s.world)
    && (forall t <- reqs :: TokenInv(reqs, existing, s, t))
    && existing <= s.confirmed
    && Disjoint(s.confirmed)
  }

  lemma {:induction false} CommitKeepsOthers(reqs: Requests, existing: seq<Slot>, s: State, t: Token, u: Token)
    requires OverlapsShareKey(reqs, existing) && Inv(reqs, existing, s)
    requires t in reqs && u in reqs && t != u
    requires s.phase[t] == Checked && IsLive(s.world, t)
    ensures TokenInv(reqs, existing, Apply(reqs, s, Commit(t)), u)
  {
    var s' := Apply(reqs, s, Commit(t));
    if s.phase[u] == Checked && IsLive(s.world, u) {
      assert TokenInv(reqs, existing, s, t) && TokenInv(reqs, existing, s, u);
      assert OwnsEntry(s.world, t) && OwnsEntry(s.world, u);
      assert !Overlaps(reqs[t].slot, reqs[u].slot);
      assert forall a <- s'.confirmed :: a in s.confirmed || a == reqs[t].slot;
    }
  }

  // Every step but the other bookings' commits.
  lemma {:induction false} StepKeepsToken(reqs: Requests, existing: seq<Slot>, s: State, step: Step, u: Token)
    requires WellFormed(reqs, s) && u in reqs && TokenInv(reqs, existing, s, u) && existing <= s.confirmed
    requires step.Commit? ==> step.token == u
    ensures TokenInv(reqs, existing, Apply(reqs, s, step), u)
  {
    if step == Check(u) && s.phase[u] == Holding && Conflicts(reqs[u].slot, existing) {
      var a :| a in existing && Overlaps(a, reqs[u].slot);
      assert a in s.confirmed;
    }
  }

  lemma {:induction false} AppendDisjoint(confirmed: seq<Slot>, slot: Slot)
    requires Disjoint(confirmed) && forall a <- confirmed :: !Overlaps(a, slot)
    ensures Disjoint(confirmed + [slot])
  {
    var c := confirmed + [slot];
    forall i, j | 0 <= i < j < |c|
      ensures !Overlaps(c[i], c[j])
    {
      assert c[i] == confirmed[i] && c[i] in confirmed;
    }
  }

  lemma {:induction false} CommitKeepsInv(reqs: Requests, existing: seq<Slot>, s: State, t: Token)
    requires OverlapsShareKey(reqs, existing) && Inv(reqs, existing, s)
    requires t in reqs && s.phase[t] == Checked && IsLive(s.world, t)
    ensures Inv(reqs, existing, Apply(reqs, s, Commit(t)))
  {
    var s' := Apply(reqs, s, Commit(t));
    forall u | u in reqs
      ensures TokenInv(reqs, existing, s', u)
    {
      if u != t {
        CommitKeepsOthers(reqs, existing, s, t, u);
      } else {
        assert TokenInv(reqs, existing, s, t);
        StepKeepsToken(reqs, existing, s, Commit(t), t);
      }
    }
    assert TokenInv(reqs, existing, s, t);
    AppendDisjoint(s.confirmed, reqs[t].slot);
  }

  lemma {:induction false} QuietKeepsInv(reqs: Requests, existing: seq<Slot>, s: State, step: Step)
    requires Inv(reqs, existing, s) && !step.Commit?
    ensures Inv(reqs, existing, Apply(reqs, s, step))
  {
    LockStepsKeepInv(reqs, s, step);
    var s' := Apply(reqs, s, step);
    assert s'.confirmed == s.confirmed;
    forall u | u in reqs
      ensures TokenInv(reqs, existing, s', u)
    {
      assert TokenInv(reqs, existing, s, u);
      StepKeepsToken(reqs, existing, s, step, u);
    }
  }

  lemma {:induction false} ApplyKeepsInv(reqs: Requests, existing: seq<Slot>, s: State, step: Step)
    requires OverlapsShareKey(reqs, existing) && Inv(reqs, existing, s)
    requires StepInTime(reqs, s, step)
    ensures Inv(reqs, existing, Apply(reqs, s, step))
  {
    if !step.Commit? {
      QuietKeepsInv(reqs, existing, s, step);
    } else if step.token in reqs && s.phase[step.token] == Checked {
      CommitKeepsInv(reqs, existing, s, step.token);
    }
  }

  lemma {:induction false} LockStepsKeepInv(reqs: Requests, s: State, step: Step)
    requires WellFormed(reqs, s) && Locks.Inv(s.world)
    ensures Locks.Inv(Apply(reqs, s, step).world)
  {
    match step
    case Tick(dt) => Locks.ApplyKeepsInv(s.world, Locks.Tick(dt));
    case Arrive(t) => Locks.ApplyKeepsInv(s.world, Locks.ReadClock(t));
    case TryLock(t) => Locks.ApplyKeepsInv(s.world, Locks.Enter(t));
    case Leave(t) => Locks.ApplyKeepsInv(s.world, Locks.BeginRelease(t));
    case Delete(t) => Locks.ApplyKeepsInv(s.world, Locks.FinishRelease(t));
    case Check(_) =>
    case Commit(_) =>
  }

  lemma {:induction false} RunKeepsInv(reqs: Requests, existing: seq<Slot>, s: State, steps: seq<Step>)
    requires OverlapsShareKey(reqs, existing) && Inv(reqs, existing, s)
    requires InTime(reqs, s, steps)
    ensures Inv(reqs, existing, Run(reqs, s, steps))
    decreases |steps|
  {
    if steps != [] {
      var s' := Apply(reqs, s, steps[0]);
      ApplyKeepsInv(reqs, existing, s, steps[0]);
      RunKeepsInv(reqs, existing, s', steps[1..]);
    }
  }

  // ----- Necessity -----

  lemma {:induction false} RunTwo(reqs: Requests, s: State, a: Step, b: Step, rest: seq<Step>)
    requires WellFormed(reqs, s)
    ensures var s' := Apply(reqs, Apply(reqs, s, a), b);
            && Run(reqs, s, [a, b] + rest) == Run(reqs, s', rest)
            && (InTime(reqs, s, [a, b] + rest) <==>
                StepInTime(reqs, s, a) && StepInTime(reqs, Apply(reqs, s, a), b) && InTime(reqs, s', rest))
  {
    var s' := Apply(reqs, s, a);
    assert ([a, b] + rest)[1..] == [b] + rest;
    assert ([b] + rest)[1..] == rest;
    assert Run(reqs, s, [a, b] + rest) == Run(reqs, s', [b] + rest);
    assert InTime(reqs, s, [a, b] + rest) <==> StepInTime(reqs, s, a) && InTime(reqs, s', [b] + rest);
  }

  // Both requests take their locks, both look, both insert.
  function Race(p: Token, q: Token): seq<Step> {
    [Arrive(p), TryLock(p)] + ([Arrive(q), TryLock(q)] + ([Check(p), Check(q)] + ([Commit(p), Commit(q)] + [])))
  }

  // An idle request whose key is free gets its lock and a full lease.
  lemma {:induction false} TakesLock(reqs: Requests, s: State, t: Token)
    requires WellFormed(reqs, s) && t in reqs && s.phase[t] == Start
    requires s.world.locks[t] == Lock(KeyOf(reqs[t]), TTL, Outside, false, 0)
    requires IsFree(s.world.table, KeyOf(reqs[t]), s.world.clock)
    ensures Apply(reqs, Apply(reqs, s, Arrive(t)), TryLock(t)) ==
            State(World(s.world.clock,
                        s.world.table[KeyOf(reqs[t]) := Entry(t, s.world.clock + TTL)],
                        s.world.locks[t := Lock(KeyOf(reqs[t]), TTL, Outside, true, s.world.clock + TTL)]),
                  s.phase[t := Holding], s.confirmed)
  {
    var s' := Apply(reqs, s, Arrive(t));
    assert s'.world.locks[t].phase == Waiting(s.world.clock);
    var s'' := Apply(reqs, s', TryLock(t));
    assert s''.world.locks == s.world.locks[t := Lock(KeyOf(reqs[t]), TTL, Outside, true, s.world.clock + TTL)];
    assert s''.phase == s.phase[t := Holding];
  }

  lemma {:induction false} RaceDoubleBooks(reqs: Requests, existing: seq<Slot>, clock: int, p: Token, q: Token)
    requires p in reqs && q in reqs && p != q
    requires Overlaps(reqs[p].slot, reqs[q].slot) && KeyOf(reqs[p]) != KeyOf(reqs[q])
    requires !Conflicts(reqs[p].slot, existing) && !Conflicts(reqs[q].slot, existing)
    ensures InTime(reqs, Init(reqs, existing, clock), Race(p, q))
    ensures Run(reqs, Init(reqs, existing, clock), Race(p, q)).confirmed == existing + [reqs[p].slot, reqs[q].slot]
    ensures !Disjoint(existing + [reqs[p].slot, reqs[q].slot])
  {
    var s0 := Init(reqs, existing, clock);
    TakesLock(reqs, s0, p);
    var s1 := Apply(reqs, Apply(reqs, s0, Arrive(p)), TryLock(p));
    TakesLock(reqs, s1, q);
    var s2 := Apply(reqs, Apply(reqs, s1, Arrive(q)), TryLock(q));
    BothCommit(reqs, s2, p, q);
    var s3 := Apply(reqs, Apply(reqs, s2, Check(p)), Check(q));
    var commits := [Commit(p), Commit(q)] + [];
    RunTwo(reqs, s2, Check(p), Check(q), commits);
    RunTwo(reqs, s1, Arrive(q), TryLock(q), [Check(p), Check(q)] + commits);
    RunTwo(reqs, s0, Arrive(p), TryLock(p), [Arrive(q), TryLock(q)] + ([Check(p), Check(q)] + commits));
    var c := existing + [reqs[p].slot, reqs[q].slot];
    assert c[|existing|] == reqs[p].slot && c[|existing| + 1] == reqs[q].slot;
  }

  lemma {:induction false} BothCommit(reqs: Requests, s: State, p: Token, q: Token)
    requires WellFormed(reqs, s) && p in reqs && q in reqs && p != q
    requires s.phase[p] == s.phase[q] == Holding && IsLive(s.world, p) && IsLive(s.world, q)
    requires !Conflicts(reqs[p].slot, s.confirmed) && !Conflicts(reqs[q].slot, s.confirmed)
    ensures var s' := Apply(reqs, Apply(reqs, s, Check(p)), Check(q));
            var commits := [Commit(p), Commit(q)] + [];
            && InTime(reqs, s', commits)
            && Run(reqs, s', commits).confirmed == s.confirmed + [reqs[p].slot, reqs[q].slot]
  {
    var s' := Apply(reqs, Apply(reqs, s, Check(p)), Check(q));
    RunTwo(reqs, s', Commit(p), Commit(q), []);
  }

  // ----- The exact condition -----

  // Confirmed appointments stay disjoint in every run whose commits are in time exactly when
  // overlapping bookable requests share a lock key.
  lemma {:induction false} NoDoubleBookingExactly(reqs: Requests, existing: seq<Slot>, clock: int)
    requires Disjoint(existing)
    ensures (forall steps: seq<Step> :: InTime(reqs, Init(reqs, existing, clock), steps) ==>
               Disjoint(Run(reqs, Init(reqs, existing, clock), steps).confirmed))
       <==> OverlapsShareKey(reqs, existing)
  {
    var s := Init(reqs, existing, clock);
    if OverlapsShareKey(reqs, existing) {
      forall steps: seq<Step> | InTime(reqs, s, steps)
        ensures Disjoint(Run(reqs, s, steps).confirmed)
      {
        RunKeepsInv(reqs, existing, s, steps);
      }
    } else {
      var p, q :| p in reqs && q in reqs && p != q && Overlaps(reqs[p].slot, reqs[q].slot)
        && !Conflicts(reqs[p].slot, existing) && !Conflicts(reqs[q].slot, existing)
        && KeyOf(reqs[p]) != KeyOf(reqs[q]);
      RaceDoubleBooks(reqs, existing, clock, p, q);
      assert InTime(reqs, s, Race(p, q));
    }
  }

  // The requests a slot search leads to: slots of one host's grid, one length, one host name, and
  // one way of writing each start time.
  ghost predicate FromOneGrid(reqs: Requests, host: Host, length: int) {
    && (forall t <- reqs :: exists d: int :: OnGrid(host.window(d), length, reqs[t].slot))
    && (forall p, q | p in reqs && q in reqs :: reqs[p].host == reqs[q].host)
    && (forall p, q | p in reqs && q in reqs && reqs[p].slot.start == reqs[q].slot.start :: reqs[p].iso == reqs[q].iso)
  }

  // On the grid the start time alone is enough of a key.
  lemma {:induction false} GridBookingsNeverOverlap(reqs: Requests, host: Host, length: int, existing: seq<Slot>, clock: int,
                                 steps: seq<Step>)
    requires length > 0 && Ordered(host) && FromOneGrid(reqs, host, length)
    requires Disjoint(existing)
    requires InTime(reqs, Init(reqs, existing, clock), steps)
    ensures Disjoint(Run(reqs, Init(reqs, existing, clock), steps).confirmed)
  {
    forall p, q | p in reqs && q in reqs && p != q && Overlaps(reqs[p].slot, reqs[q].slot)
      ensures KeyOf(reqs[p]) == KeyOf(reqs[q])
    {
      var d: int :| OnGrid(host.window(d), length, reqs[p].slot);
      var e: int :| OnGrid(host.window(e), length, reqs[q].slot);
      GridSlotsOverlapOnlyIfEqual(host, length, d, reqs[p].slot, e, reqs[q].slot);
    }
    NoDoubleBookingExactly(reqs, existing, clock);
  }

  // Two prospects in different time zones ask for the same half hour: each writes the start with
  // its own offset, the keys differ, and both bookings are confirmed.
  lemma {:induction false} TwoTimeZonesDoubleBook()
    ensures var slot := Slot(14 * HOUR, 14 * HOUR + 30 * MINUTE);
            var reqs := map[0 := Request("host@example.com", "1970-01-05T14:00:00+00:00", slot),
                            1 := Request("host@example.com", "1970-01-05T09:00:00-05:00", slot)];
            && InTime(reqs, Init(reqs, [], 0), Race(0, 1))
            && Run(reqs, Init(reqs, [], 0), Race(0, 1)).confirmed == [slot, slot]
  {
    var slot := Slot(14 * HOUR, 14 * HOUR + 30 * MINUTE);
    var reqs := map[0 := Request("host@example.com", "1970-01-05T14:00:00+00:00", slot),
                    1 := Request("host@example.com", "1970-01-05T09:00:00-05:00", slot)];
    var a, b := KeyOf(reqs[0]), KeyOf(reqs[1]);
    var i := |"codenter_lock:" + "booking_lock:" + "host@example.com" + ":"| + 11;
    assert a[i] == reqs[0].iso[11] == '1';
    assert b[i] == reqs[1].iso[11] == '0';
    RaceDoubleBooks(reqs, [], 0, 0, 1);
  }

  // ----- Without the time condition -----

  // The successor books the slot, and the first booking, long past its own check, commits after all.
  function SuccessorThenLate(p: Token, q: Token): seq<Step> {
    [Arrive(q), TryLock(q)] + ([Check(q), Commit(q)] + ([Commit(p), Step.Tick(0)] + []))
  }

  lemma {:induction false} BookAndLateCommit(reqs: Requests, s: State, p: Token, q: Token)
    requires WellFormed(reqs, s) && p in reqs && q in reqs && p != q
    requires s.phase[p] == Checked && s.phase[q] == Holding && !Conflicts(reqs[q].slot, s.confirmed)
    ensures Run(reqs, s, [Check(q), Commit(q)] + ([Commit(p), Step.Tick(0)] + [])).confirmed
         == s.confirmed + [reqs[q].slot, reqs[p].slot]
  {
    RunTwo(reqs, s, Check(q), Commit(q), [Commit(p), Step.Tick(0)] + []);
    RunTwo(reqs, Apply(reqs, Apply(reqs, s, Check(q)), Commit(q)), Commit(p), Step.Tick(0), []);
  }

  lemma {:induction false} SuccessorBooks(reqs: Requests, s: State, p: Token, q: Token)
    requires WellFormed(reqs, s) && p in reqs && q in reqs && p != q
    requires s.phase[p] == Checked && s.phase[q] == Start && !Conflicts(reqs[q].slot, s.confirmed)
    requires s.world.locks[q] == Lock(KeyOf(reqs[q]), TTL, Outside, false, 0)
    requires IsFree(s.world.table, KeyOf(reqs[q]), s.world.clock)
    ensures Run(reqs, s, SuccessorThenLate(p, q)).confirmed == s.confirmed + [reqs[q].slot, reqs[p].slot]
  {
    TakesLock(reqs, s, q);
    var s' := Apply(reqs, Apply(reqs, s, Arrive(q)), TryLock(q));
    RunTwo(reqs, s, Arrive(q), TryLock(q), [Check(q), Commit(q)] + ([Commit(p), Step.Tick(0)] + []));
    BookAndLateCommit(reqs, s', p, q);
  }

  // Where p stands when it has looked and gone to sleep for longer than its lease.
  function Asleep(reqs: Requests, existing: seq<Slot>, clock: int, p: Token): (s: State)
    requires p in reqs
    ensures WellFormed(reqs, s)
  {
    var s0 := Init(reqs, existing, clock);
    var s1 := Apply(reqs, Apply(reqs, s0, Arrive(p)), TryLock(p));
    Apply(reqs, Apply(reqs, s1, Check(p)), Step.Tick(TTL + 1))
  }

  function LateSteps(p: Token, q: Token): seq<Step> {
    [Arrive(p), TryLock(p)] + ([Check(p), Step.Tick(TTL + 1)] + SuccessorThenLate(p, q))
  }

  lemma {:induction false} LooksAndSleeps(reqs: Requests, existing: seq<Slot>, clock: int, p: Token, q: Token)
    requires p in reqs
    ensures Run(reqs, Init(reqs, existing, clock), LateSteps(p, q))
         == Run(reqs, Asleep(reqs, existing, clock, p), SuccessorThenLate(p, q))
  {
    var s0 := Init(reqs, existing, clock);
    var s1 := Apply(reqs, Apply(reqs, s0, Arrive(p)), TryLock(p));
    RunTwo(reqs, s0, Arrive(p), TryLock(p), [Check(p), Step.Tick(TTL + 1)] + SuccessorThenLate(p, q));
    RunTwo(reqs, s1, Check(p), Step.Tick(TTL + 1), SuccessorThenLate(p, q));
  }

  lemma {:induction false} AsleepExact(reqs: Requests, existing: seq<Slot>, clock: int, p: Token, q: Token)
    requires p in reqs && q in reqs && p != q && KeyOf(reqs[p]) == KeyOf(reqs[q])
    requires !Conflicts(reqs[p].slot, existing)
    ensures var s := Asleep(reqs, existing, clock, p);
            && s.confirmed == existing && s.phase[p] == Checked && s.phase[q] == Start
            && s.world.locks[q] == Lock(KeyOf(reqs[q]), TTL, Outside, false, 0)
            && IsFree(s.world.table, KeyOf(reqs[q]), s.world.clock)
  {
    TakesLock(reqs, Init(reqs, existing, clock), p);
  }

  // Nor can the time condition be dropped: a booking that commits after its lease has run out
  // double-books a slot even when both requests share the key.
  lemma {:induction false} LateCommitDoubleBooks(reqs: Requests, existing: seq<Slot>, clock: int, p: Token, q: Token)
    requires p in reqs && q in reqs && p != q
    requires Overlaps(reqs[p].slot, reqs[q].slot) && KeyOf(reqs[p]) == KeyOf(reqs[q])
    requires !Conflicts(reqs[p].slot, existing) && !Conflicts(reqs[q].slot, existing)
    ensures Run(reqs, Init(reqs, existing, clock), LateSteps(p, q)).confirmed
         == existing + [reqs[q].slot, reqs[p].slot]
    ensures !Disjoint(existing + [reqs[q].slot, reqs[p].slot])
  {
    AsleepExact(reqs, existing, clock, p, q);
    SuccessorBooks(reqs, Asleep(reqs, existing, clock, p), p, q);
    LooksAndSleeps(reqs, existing, clock, p, q);
    var c := existing + [reqs[q].slot, reqs[p].slot];
    assert c[|existing|] == reqs[q].slot && c[|existing| + 1] == reqs[p].slot;
  }

  // No two requests that could both be booked overlap.
  ghost predicate Spread(reqs: Requests, existing: seq<Slot>) {
    forall p, q | p in reqs && q in reqs && p != q
                  && !Conflicts(reqs[p].slot, existing) && !Conflicts(reqs[q].slot, existing) ::
      !Overlaps(reqs[p].slot, reqs[q].slot)
  }

  predicate Passed(phase: Phase) { phase.Checked? || phase.Booked? }

  ghost predicate FromRequest(reqs: Requests, s: State, slot: Slot)
    requires WellFormed(reqs, s)
  {
    exists t <- reqs :: s.phase[t] == Booked && reqs[t].slot == slot
  }

  ghost predicate SpreadInv(reqs: Requests, existing: seq<Slot>, s: State) {
    && WellFormed(reqs, s)
    && (forall t <- reqs :: Passed(s.phase[t]) ==> !Conflicts(reqs[t].slot, existing))
    && (forall a <- s.confirmed :: a in existing || FromRequest(reqs, s, a))
    && existing <= s.confirmed
    && Disjoint(s.confirmed)
  }

  lemma {:induction false} SpreadFromConfirmed(reqs: Requests, existing: seq<Slot>, s: State, t: Token, a: Slot)
    requires Spread(reqs, existing) && SpreadInv(reqs, existing, s)
    requires t in reqs && s.phase[t] == Checked && a in s.confirmed
    ensures !Overlaps(a, reqs[t].slot)
    ensures a in existing || FromRequest(reqs, Apply(reqs, s, Commit(t)), a)
  {
    if a !in existing {
      var u :| u in reqs && s.phase[u] == Booked && reqs[u].slot == a;
      assert Apply(reqs, s, Commit(t)).phase[u] == Booked;
    }
  }

  lemma {:induction false} CommitKeepsSpread(reqs: Requests, existing: seq<Slot>, s: State, t: Token)
    requires Spread(reqs, existing) && SpreadInv(reqs, existing, s)
    requires t in reqs && s.phase[t] == Checked
    ensures SpreadInv(reqs, existing, Apply(reqs, s, Commit(t)))
  {
    var s' := Apply(reqs, s, Commit(t));
    forall a | a in s.confirmed
      ensures !Overlaps(a, reqs[t].slot) && (a in existing || FromRequest(reqs, s', a))
    {
      SpreadFromConfirmed(reqs, existing, s, t, a);
    }
    assert s'.phase[t] == Booked && FromRequest(reqs, s', reqs[t].slot);
    AppendDisjoint(s.confirmed, reqs[t].slot);
  }

  lemma {:induction false} QuietKeepsSpread(reqs: Requests, existing: seq<Slot>, s: State, step: Step)
    requires SpreadInv(reqs, existing, s)
    requires step.Commit? && step.token in reqs ==> s.phase[step.token] != Checked
    ensures SpreadInv(reqs, existing, Apply(reqs, s, step))
  {
    var s' := Apply(reqs, s, step);
    assert s'.confirmed == s.confirmed;
    assert forall t <- reqs :: s.phase[t] == Booked ==> s'.phase[t] == Booked;
    forall a | a in s.confirmed && a !in existing
      ensures FromRequest(reqs, s', a)
    {
      var u :| u in reqs && s.phase[u] == Booked && reqs[u].slot == a;
      assert s'.phase[u] == Booked;
    }
    forall t | t in reqs && Passed(s'.phase[t])
      ensures !Conflicts(reqs[t].slot, existing)
    {
      if !Passed(s.phase[t]) {
        assert !Conflicts(reqs[t].slot, s.confirmed);
        assert forall a <- existing :: a in s.confirmed;
      }
    }
  }

  lemma {:induction false} RunKeepsSpread(reqs: Requests, existing: seq<Slot>, s: State, steps: seq<Step>)
    requires Spread(reqs, existing) && SpreadInv(reqs, existing, s)
    ensures SpreadInv(reqs, existing, Run(reqs, s, steps))
    decreases |steps|
  {
    if steps != [] {
      if steps[0].Commit? && steps[0].token in reqs && s.phase[steps[0].token] == Checked {
        CommitKeepsSpread(reqs, existing, s, steps[0].token);
      } else {
        QuietKeepsSpread(reqs, existing, s, steps[0]);
      }
      RunKeepsSpread(reqs, existing, Apply(reqs, s, steps[0]), steps[1..]);
    }
  }

  // However slow the bookings are, confirmed appointments stay disjoint in every run exactly when no two
  // bookable requests overlap: without the lease the lock protects nothing.
  lemma {:induction false} UntimedBookingExactly(reqs: Requests, existing: seq<Slot>, clock: int)
    requires Disjoint(existing)
    ensures (forall steps: seq<Step> :: Disjoint(Run(reqs, Init(reqs, existing, clock), steps).confirmed))
       <==> Spread(reqs, existing)
  {
    var s := Init(reqs, existing, clock);
    if Spread(reqs, existing) {
      forall steps: seq<Step>
        ensures Disjoint(Run(reqs, s, steps).confirmed)
      {
        RunKeepsSpread(reqs, existing, s, steps);
      }
    } else {
      var p, q :| p in reqs && q in reqs && p != q && Overlaps(reqs[p].slot, reqs[q].slot)
        && !Conflicts(reqs[p].slot, existing) && !Conflicts(reqs[q].slot, existing);
      if KeyOf(reqs[p]) == KeyOf(reqs[q]) {
        LateCommitDoubleBooks(reqs, existing, clock, p, q);
        assert !Disjoint(Run(reqs, s, LateSteps(p, q)).confirmed);
      } else {
        RaceDoubleBooks(reqs, existing, clock, p, q);
        assert !Disjoint(Run(reqs, s, Race(p, q)).confirmed);
      }
    }
  }
}
