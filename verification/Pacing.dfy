/**
The time between the mails of one enrolment, when every step happens at a moment of a clock, claims are
exclusive, each release queues one delivery, and the task puts the next step off to the calculated time.
*/
module Pacing {
  import opened Options
  import opened LeadStates
  import opened Sequences
  import opened Deliveries
  import T = SendTime

  // A step and the moment it happens.
  datatype Tick = Tick(step: Step, clock: int)

  datatype Sent = Sent(step: int, time: int)

  datatype Timed = Timed(e: Enrolment, sent: seq<Sent>, clock: int)

  // The plans of a campaign's steps, by step number.
  type Plans = map<int, T.Plan>

  function After(plans: Plans, t: Timed, tick: Tick): Timed {
    Timed(Apply(plans.Keys, t.e, tick.step),
          if Mails(t.e, tick.step) then t.sent + [Sent(t.e.row.step, tick.clock)] else t.sent,
          tick.clock)
  }

  // Time does not run backwards, the scheduler looks at the present, and the task aims at the time that
  // is calculated from the present for the next step's plan.
  predicate OnTime(plans: Plans, offset: int, t: Timed, tick: Tick) {
    && t.clock <= tick.clock && InOrder(true, t.e, tick.step)
    && (tick.step.Claim? ==> tick.step.now <= tick.clock)
    && (tick.step.Advance? && t.e.row.step + 1 in plans ==>
          T.NextSendTime(plans[t.e.row.step + 1], offset, tick.clock) == T.Ok(tick.step.at))
  }

  function RunTicks(plans: Plans, t: Timed, ticks: seq<Tick>): Timed
    decreases |ticks|
  {
    if ticks == [] then t else RunTicks(plans, After(plans, t, ticks[0]), ticks[1..])
  }

  predicate AllOnTime(plans: Plans, offset: int, t: Timed, ticks: seq<Tick>)
    decreases |ticks|
  {
    ticks == [] || (OnTime(plans, offset, t, ticks[0]) && AllOnTime(plans, offset, After(plans, t, ticks[0]), ticks[1..]))
  }

  function Steps(ticks: seq<Tick>): seq<Step> { seq(|ticks|, i requires 0 <= i < |ticks| => ticks[i].step) }

  // A timed run is a run of the step system.
  lemma {:induction false} TicksAreSteps(plans: Plans, t: Timed, ticks: seq<Tick>)
    ensures RunTicks(plans, t, ticks).e == Run(plans.Keys, t.e, Steps(ticks))
    decreases |ticks|
  {
    if ticks != [] {
      assert Steps(ticks)[0] == ticks[0].step && Steps(ticks)[1..] == Steps(ticks[1..]);
      TicksAreSteps(plans, After(plans, t, ticks[0]), ticks[1..]);
    }
  }

  predicate IsSound(p: T.Plan) { p.Sensible() && p.delayHours >= 0 }

  function Day(offset: int, time: int): int { T.DayNumber(time + offset) }

  // As many weekdays lie between the prospect's days as the plan of step k asks for.
  predicate Apart(plans: Plans, offset: int, k: int, from: int, to: int) {
    k in plans && T.WeekdaysIn(Day(offset, from), Day(offset, to)) >= plans[k].delayDays
  }

  lemma {:induction false} MoreWeekdays(a: int, b: int, c: int)
    requires b <= c
    ensures T.WeekdaysIn(a, b) <= T.WeekdaysIn(a, c)
    decreases c - b
  {
    if b < c {
      MoreWeekdays(a, b, c - 1);
    }
  }

  lemma {:induction false} EarlierMoreWeekdays(a: int, b: int, c: int)
    requires a <= b
    ensures T.WeekdaysIn(b, c) <= T.WeekdaysIn(a, c)
    decreases if c > a then c - a else 0
  {
    if c > b {
      EarlierMoreWeekdays(a, b, c - 1);
    }
  }

  lemma {:induction false} ApartLater(plans: Plans, offset: int, k: int, from: int, to: int, later: int)
    requires Apart(plans, offset, k, from, to) && to <= later
    ensures Apart(plans, offset, k, from, later)
  {
    MoreWeekdays(Day(offset, from), Day(offset, to), Day(offset, later));
  }

  // The calculated time is far enough from any earlier moment.
  lemma {:induction false} AimedApart(plans: Plans, offset: int, k: int, from: int, now: int, at: int)
    requires k in plans && IsSound(plans[k]) && from <= now
    requires T.NextSendTime(plans[k], offset, now) == T.Ok(at)
    ensures Apart(plans, offset, k, from, at)
  {
    if plans[k].delayDays >= 1 {
      T.DelayHonoured(plans[k], offset, now);
      EarlierMoreWeekdays(Day(offset, from), Day(offset, now), Day(offset, at));
    }
  }

  // ----- The invariant -----

  function Last(sent: seq<Sent>): Sent
    requires sent != []
  {
    sent[|sent| - 1]
  }

  // Nothing is under way for the row, and what it waits for is far enough from the last mail.
  predicate Rests(plans: Plans, offset: int, e: Enrolment, last: int) {
    && Unclaimed(e.claims) && e.deliveries == 0 && e.pc.Idle?
    && (e.row.state.QUEUED? || e.row.state.WAITING? || e.row.state.REPLIED? || IsTerminal(e.row.state))
    && (e.row.state.QUEUED? || e.row.state.WAITING? ==>
          e.row.nextAt.Some? && Apart(plans, offset, e.row.step, last, e.row.nextAt.value))
  }

  predicate HasMailed(pc: Pc) { pc.Mailed? || pc.Recorded? || pc.Stamped? || pc.Confirmed? }

  predicate DueInv(plans: Plans, offset: int, e: Enrolment, sent: seq<Sent>, clock: int) {
    && (HasMailed(e.pc) ==> e.row.step in e.mails)
    && (sent != [] && e.row.step !in e.mails ==>
          || Apart(plans, offset, e.row.step, Last(sent).time, clock)
          || Rests(plans, offset, e, Last(sent).time))
  }

  predicate SentInv(plans: Plans, offset: int, mails: seq<int>, sent: seq<Sent>, clock: int) {
    && |sent| == |mails| && (forall i | 0 <= i < |sent| :: sent[i].step == mails[i] && sent[i].time <= clock)
    && (forall i, j | 0 <= i && j == i + 1 < |sent| && sent[i].step != sent[j].step ::
          Apart(plans, offset, sent[j].step, sent[i].time, sent[j].time))
  }

  predicate InStep(e: Enrolment) {
    && (forall k <- e.mails :: k <= e.row.step)
    && (forall i, j | 0 <= i < j < |e.mails| :: e.mails[i] <= e.mails[j])
  }

  // A step that neither mails nor moves on keeps what the row waits for.
  lemma {:induction false} OtherKeepsRest(plans: Plans, offset: int, e: Enrolment, step: Step, last: int)
    requires Rests(plans, offset, e, last) && InOrder(true, e, step) && !step.Claim?
    ensures Rests(plans, offset, Apply(plans.Keys, e, step), last)
  {
  }

  lemma {:induction false} ClaimIsApart(plans: Plans, offset: int, e: Enrolment, step: Step, last: int, clock: int)
    requires Rests(plans, offset, e, last) && step.Claim? && step.now <= clock
    ensures Rests(plans, offset, Apply(plans.Keys, e, step), last) || Apart(plans, offset, e.row.step, last, clock)
  {
    if step.running && IsDue(e.row, step.now) {
      ApartLater(plans, offset, e.row.step, last, e.row.nextAt.value, clock);
    }
  }

  lemma {:induction false} HasMailedStays(defined: set<int>, e: Enrolment, step: Step)
    requires PcInv(defined, e) && (HasMailed(e.pc) ==> e.row.step in e.mails)
    ensures var e' := Apply(defined, e, step);
            && (HasMailed(e'.pc) ==> e'.row.step in e'.mails)
            && e'.mails == e.mails + (if Mails(e, step) then [e.row.step] else [])
            && (e'.row.step != e.row.step ==> step.Advance? && e.pc.Confirmed? && e'.row.step == e.row.step + 1)
  {
    if !IsTaskStep(step) {
      OtherStepKeepsTask(e, step);
    }
  }

  lemma {:induction false} AdvanceRests(plans: Plans, offset: int, e: Enrolment, at: int, last: int)
    requires PcInv(plans.Keys, e) && OrderInv(e) && e.pc.Confirmed?
    requires Apply(plans.Keys, e, Advance(at)).row.step == e.row.step + 1
    requires Apart(plans, offset, e.row.step + 1, last, at)
    ensures Rests(plans, offset, Apply(plans.Keys, e, Advance(at)), last)
  {
  }

  lemma {:induction false} StepKeepsDue(plans: Plans, offset: int, t: Timed, tick: Tick)
    requires forall k <- plans :: IsSound(plans[k])
    requires PcInv(plans.Keys, t.e) && OrderInv(t.e) && |t.sent| == |t.e.mails|
    requires DueInv(plans, offset, t.e, t.sent, t.clock) && OnTime(plans, offset, t, tick)
    requires t.sent != [] ==> Last(t.sent).time <= t.clock
    ensures var t' := After(plans, t, tick); DueInv(plans, offset, t'.e, t'.sent, t'.clock)
  {
    var t' := After(plans, t, tick);
    HasMailedStays(plans.Keys, t.e, tick.step);
    if t'.sent != [] && t'.e.row.step !in t'.e.mails {
      assert !Mails(t.e, tick.step) && t'.sent == t.sent;
      var last := Last(t.sent).time;
      if t'.e.row.step != t.e.row.step {
        AdvanceIsOnTime(plans, offset, t, tick);
        AimedApart(plans, offset, t'.e.row.step, last, tick.clock, tick.step.at);
        AdvanceRests(plans, offset, t.e, tick.step.at, last);
      } else if Apart(plans, offset, t.e.row.step, last, t.clock) {
        ApartLater(plans, offset, t.e.row.step, last, t.clock, tick.clock);
      } else if tick.step.Claim? {
        ClaimIsApart(plans, offset, t.e, tick.step, last, tick.clock);
      } else {
        OtherKeepsRest(plans, offset, t.e, tick.step, last);
      }
    }
  }

  lemma {:induction false} AdvanceIsOnTime(plans: Plans, offset: int, t: Timed, tick: Tick)
    requires OnTime(plans, offset, t, tick) && PcInv(plans.Keys, t.e) && tick.step.Advance?
    requires Apply(plans.Keys, t.e, tick.step).row.step == t.e.row.step + 1
    ensures t.e.row.step + 1 in plans
    ensures T.NextSendTime(plans[t.e.row.step + 1], offset, tick.clock) == T.Ok(tick.step.at)
  {
  }

  lemma {:induction false} MailKeepsSent(plans: Plans, offset: int, mails: seq<int>, sent: seq<Sent>, k: int, clock: int)
    requires SentInv(plans, offset, mails, sent, clock)
    requires sent != [] && Last(sent).step != k ==> Apart(plans, offset, k, Last(sent).time, clock)
    ensures SentInv(plans, offset, mails + [k], sent + [Sent(k, clock)], clock)
  {
  }

  lemma {:induction false} LaterKeepsSent(plans: Plans, offset: int, mails: seq<int>, sent: seq<Sent>,
                                          clock: int, later: int)
    requires SentInv(plans, offset, mails, sent, clock) && clock <= later
    ensures SentInv(plans, offset, mails, sent, later)
  {
  }

  // A step mailed before is the last one mailed.
  lemma {:induction false} MailedIsLast(e: Enrolment)
    requires InStep(e) && e.row.step in e.mails
    ensures e.mails[|e.mails| - 1] == e.row.step
  {
    var i :| 0 <= i < |e.mails| && e.mails[i] == e.row.step;
    assert e.mails[|e.mails| - 1] in e.mails;
  }

  lemma {:induction false} StepKeepsSent(plans: Plans, offset: int, t: Timed, tick: Tick)
    requires PcInv(plans.Keys, t.e) && InStep(t.e) && OnTime(plans, offset, t, tick)
    requires DueInv(plans, offset, t.e, t.sent, t.clock)
    requires SentInv(plans, offset, t.e.mails, t.sent, t.clock)
    ensures var t' := After(plans, t, tick); SentInv(plans, offset, t'.e.mails, t'.sent, t'.clock)
  {
    HasMailedStays(plans.Keys, t.e, tick.step);
    LaterKeepsSent(plans, offset, t.e.mails, t.sent, t.clock, tick.clock);
    if Mails(t.e, tick.step) {
      if t.sent != [] {
        if t.e.row.step in t.e.mails {
          MailedIsLast(t.e);
        } else {
          ApartLater(plans, offset, t.e.row.step, Last(t.sent).time, t.clock, tick.clock);
        }
      }
      MailKeepsSent(plans, offset, t.e.mails, t.sent, t.e.row.step, tick.clock);
    } else {
      assert t.e.mails + [] == t.e.mails;
    }
  }

  ghost predicate PaceInv(plans: Plans, offset: int, t: Timed) {
    && Inv(plans.Keys, t.e) && OrderInv(t.e)
    && DueInv(plans, offset, t.e, t.sent, t.clock) && SentInv(plans, offset, t.e.mails, t.sent, t.clock)
  }

  lemma {:induction false} RunKeepsPace(plans: Plans, offset: int, t: Timed, ticks: seq<Tick>)
    requires forall k <- plans :: IsSound(plans[k])
    requires PaceInv(plans, offset, t) && AllOnTime(plans, offset, t, ticks)
    ensures PaceInv(plans, offset, RunTicks(plans, t, ticks))
    decreases |ticks|
  {
    if ticks != [] {
      StepKeepsPace(plans, offset, t, ticks[0]);
      RunKeepsPace(plans, offset, After(plans, t, ticks[0]), ticks[1..]);
    }
  }

  lemma {:induction false} StepKeepsPace(plans: Plans, offset: int, t: Timed, tick: Tick)
    requires forall k <- plans :: IsSound(plans[k])
    requires PaceInv(plans, offset, t) && OnTime(plans, offset, t, tick)
    ensures PaceInv(plans, offset, After(plans, t, tick))
  {
    ApplyKeepsInv(plans.Keys, t.e, tick.step);
    StepKeepsOrder(plans.Keys, t.e, tick.step);
    StepKeepsDue(plans, offset, t, tick);
    StepKeepsSent(plans, offset, t, tick);
  }

  // Two mails that follow each other are for one step, or at least as many weekdays apart as the later
  // step's plan asks for.
  lemma {:induction false} MailsArePaced(plans: Plans, offset: int, start: int, ticks: seq<Tick>, i: nat)
    requires forall k <- plans :: IsSound(plans[k])
    requires AllOnTime(plans, offset, Timed(Enrol(), [], start), ticks)
    requires i + 1 < |RunTicks(plans, Timed(Enrol(), [], start), ticks).sent|
    ensures var t := RunTicks(plans, Timed(Enrol(), [], start), ticks);
            && |t.sent| == |t.e.mails| && t.sent[i].step == t.e.mails[i] && t.sent[i + 1].step == t.e.mails[i + 1]
            && (t.sent[i].step != t.sent[i + 1].step ==>
                  Apart(plans, offset, t.sent[i + 1].step, t.sent[i].time, t.sent[i + 1].time))
  {
    FromEnrolment(plans.Keys, []);
    RunKeepsPace(plans, offset, Timed(Enrol(), [], start), ticks);
  }
}
