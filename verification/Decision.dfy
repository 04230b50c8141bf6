/**
What a delivery of the send task does when it starts, and what a campaign that is not RUNNING still does:
statements over runs, in terms of what the task finds.
*/
module Decisions {
  import opened Options
  import opened LeadStates
  import opened Sequences
  import opened Stopping

  // ----- A campaign that is not running -----

  // Every start of the task in the run finds the campaign not RUNNING.
  predicate NeverStarts(steps: seq<Step>) {
    forall i | 0 <= i < |steps| && steps[i].Start? :: !steps[i].running
  }

  // So does every claim.
  predicate NeverClaims(steps: seq<Step>) {
    forall i | 0 <= i < |steps| && steps[i].Claim? :: !steps[i].running
  }

  // The run as it would be without the task.
  function WithoutTask(steps: seq<Step>): (r: seq<Step>)
    ensures forall step <- r :: step in steps && !IsTaskStep(step)
  {
    if steps == [] then []
    else (if IsTaskStep(steps[0]) then [] else [steps[0]]) + WithoutTask(steps[1..])
  }

  // e differs from other only in what the idle task has read and in the deliveries it has ended.
  predicate OnlyDelivered(e: Enrolment, other: Enrolment) {
    e.pc.Idle? && e == other.(copy := e.copy, deliveries := e.deliveries) && e.deliveries <= other.deliveries
  }

  lemma {:induction false} IdleTaskStep(defined: set<int>, e: Enrolment, step: Step)
    requires e.pc.Idle? && IsTaskStep(step) && (step.Start? ==> !step.running)
    ensures OnlyDelivered(Apply(defined, e, step), e)
  {
  }

  lemma {:induction false} OtherStepSame(defined: set<int>, e: Enrolment, other: Enrolment, step: Step)
    requires OnlyDelivered(e, other) && !IsTaskStep(step)
    ensures OnlyDelivered(Apply(defined, e, step), Apply(defined, other, step))
  {
  }

  lemma {:induction false} OnlyDelivers(defined: set<int>, e: Enrolment, other: Enrolment, steps: seq<Step>)
    requires OnlyDelivered(e, other) && NeverStarts(steps)
    ensures OnlyDelivered(Run(defined, e, steps), Run(defined, other, WithoutTask(steps)))
    decreases |steps|
  {
    if steps != [] {
      var e', rest := Apply(defined, e, steps[0]), WithoutTask(steps[1..]);
      if IsTaskStep(steps[0]) {
        IdleTaskStep(defined, e, steps[0]);
        OnlyDelivers(defined, e', other, steps[1..]);
        assert [] + rest == rest;
      } else {
        OtherStepSame(defined, e, other, steps[0]);
        OnlyDelivers(defined, e', Apply(defined, other, steps[0]), steps[1..]);
        RunConcat(defined, other, [steps[0]], rest);
        RunOne(defined, other, steps[0]);
      }
    }
  }

  lemma {:induction false} OthersNeverMail(defined: set<int>, e: Enrolment, steps: seq<Step>)
    requires forall step <- steps :: !IsTaskStep(step)
    ensures Run(defined, e, steps).mails == e.mails
    decreases |steps|
  {
    if steps != [] {
      OtherStepKeepsTask(e, steps[0]);
      OthersNeverMail(defined, Apply(defined, e, steps[0]), steps[1..]);
    }
  }

  // While the campaign is not RUNNING the task mails nothing and writes nothing: with the task idle at the
  // outset, the run comes out as if the task did not exist, except that deliveries end.
  lemma {:induction false} NotRunningSendsNothing(defined: set<int>, e: Enrolment, steps: seq<Step>)
    requires e.pc.Idle? && NeverStarts(steps)
    ensures var e', other := Run(defined, e, steps), Run(defined, e, WithoutTask(steps));
            && e'.mails == e.mails && e'.pc.Idle?
            && e'.row == other.row && e'.claims == other.claims && e'.replies == other.replies
            && e'.suppressed == other.suppressed && e'.deliveries <= other.deliveries
  {
    OnlyDelivers(defined, e, e, steps);
    OthersNeverMail(defined, e, WithoutTask(steps));
  }

  lemma {:induction false} StepQueuesNothing(defined: set<int>, e: Enrolment, step: Step)
    requires step.Claim? ==> !step.running
    ensures var c, c' := e.claims, Apply(defined, e, step).claims;
            && c'.queued <= c.queued && c'.waiting <= c.waiting
            && c'.queued + c'.waiting + Apply(defined, e, step).deliveries <= c.queued + c.waiting + e.deliveries
  {
  }

  // And the scheduler queues nothing beyond the claims it has already made.
  lemma {:induction false} NotRunningQueuesNothing(defined: set<int>, e: Enrolment, steps: seq<Step>)
    requires NeverClaims(steps)
    ensures var c, e' := e.claims, Run(defined, e, steps);
            && e'.claims.queued <= c.queued && e'.claims.waiting <= c.waiting
            && e'.claims.queued + e'.claims.waiting + e'.deliveries <= c.queued + c.waiting + e.deliveries
    decreases |steps|
  {
    if steps != [] {
      StepQueuesNothing(defined, e, steps[0]);
      NotRunningQueuesNothing(defined, Apply(defined, e, steps[0]), steps[1..]);
    }
  }

  lemma {:induction false} PausedTaskStep(defined: set<int>, e: Enrolment, step: Step)
    requires PcInv(defined, e) && !MayMail(e) && IsTaskStep(step) && (step.Start? ==> !step.running)
    ensures !MayMail(ApplyTask(defined, e, step)) && ApplyTask(defined, e, step).mails == e.mails
  {
  }

  lemma {:induction false} PausedIsSilent(defined: set<int>, e: Enrolment, steps: seq<Step>)
    requires TaskInv(defined, e) && !MayMail(e) && NeverStarts(steps)
    ensures Run(defined, e, steps).mails == e.mails
    decreases |steps|
  {
    if steps != [] {
      ApplyKeepsTask(defined, e, steps[0]);
      if IsTaskStep(steps[0]) {
        PausedTaskStep(defined, e, steps[0]);
      } else {
        OtherStepKeepsTask(e, steps[0]);
      }
      PausedIsSilent(defined, Apply(defined, e, steps[0]), steps[1..]);
    }
  }

  // A delivery that started before the campaign was paused goes on: the pause stops every further mail
  // exactly where the task has no mail in hand.
  lemma {:induction false} PauseStopsExactly(defined: set<int>, before: seq<Step>)
    ensures var e := Run(defined, Enrol(), before);
            (forall steps: seq<Step> | NeverStarts(steps) :: Run(defined, e, steps).mails == e.mails) <==> !MayMail(e)
  {
    FromEnrolment(defined, before);
    var e := Run(defined, Enrol(), before);
    if MayMail(e) {
      var steps := MayMailMails(defined, e);
      assert NeverStarts(steps);
    } else {
      forall steps: seq<Step> | NeverStarts(steps)
        ensures Run(defined, e, steps).mails == e.mails
      {
        PausedIsSilent(defined, e, steps);
      }
    }
  }

  // ----- One claim and one delivery -----

  // The scheduler claims an enrolment exactly if the campaign is running and the enrolment is due: before its
  // first mail it need not have a time yet, afterwards it must.
  lemma {:induction false} ClaimedExactly(defined: set<int>, e: Enrolment, running: bool, now: int)
    ensures var at, c := e.row.nextAt, e.claims;
            Run(defined, e, [Claim(running, now)])
            == e.(claims := if running && e.row.state == QUEUED && (at == None || at.value <= now)
                            then c.(queued := c.queued + 1)
                            else if running && e.row.state == WAITING && at.Some? && at.value <= now
                            then c.(waiting := c.waiting + 1) else c)
  {
    RunOne(defined, e, Claim(running, now));
  }

  // A claim ends by its release, which makes the row READY and queues a delivery, or without it.
  lemma {:induction false} ClaimEnds(defined: set<int>, e: Enrolment, seen: LeadState)
    requires Holds(e.claims, seen)
    ensures var dropped, released := Run(defined, e, [Drop(seen)]), Run(defined, e, [Release(seen)]);
            && dropped == e.(claims := dropped.claims) && released.claims == dropped.claims
            && dropped.claims.queued == e.claims.queued - (if seen == QUEUED then 1 else 0)
            && dropped.claims.waiting == e.claims.waiting - (if seen == WAITING then 1 else 0)
            && released.row.state == READY && released.deliveries == e.deliveries + 1
  {
    RunOne(defined, e, Drop(seen));
    RunOne(defined, e, Release(seen));
  }

  function Load(running: bool, raises: bool, mailbox: bool, draft: Draft): seq<Step> {
    [Start(running, raises, mailbox, draft), Prepare, Refresh]
  }

  function Dispatch(open: bool, accepted: bool): seq<Step> { [Gate(open), Send(accepted), Record] }

  function Settle(at: int): seq<Step> { [Confirm, Refresh, Advance(at)] }

  lemma {:induction false} NothingLoaded(defined: set<int>, e: Enrolment, open: bool, accepted: bool, at: int)
    requires e.pc.Idle?
    ensures Run(defined, e, Dispatch(open, accepted) + Settle(at)) == e
  {
    RunThree(defined, e, Gate(open), Send(accepted), Record);
    RunThree(defined, e, Confirm, Refresh, Advance(at));
    RunConcat(defined, e, Dispatch(open, accepted), Settle(at));
  }

  lemma {:induction false} DispatchMails(defined: set<int>, e: Enrolment, open: bool, accepted: bool, at: int)
    requires e.pc.Idle? || e.pc.Prepared?
    ensures Run(defined, e, Dispatch(open, accepted) + Settle(at)).mails
         == e.mails + if e.pc.Prepared? && !e.suppressed && open && accepted then [e.pc.k] else []
  {
    RunThree(defined, e, Gate(open), Send(accepted), Record);
    var e1 := Run(defined, e, Dispatch(open, accepted));
    RunThree(defined, e1, Confirm, Refresh, Advance(at));
    RunConcat(defined, e, Dispatch(open, accepted), Settle(at));
  }

  // The states from which a mail can go out.
  predicate Mailable(s: LeadState) { s == QUEUED || s == WAITING || s == READY || s == PAUSED }

  lemma {:induction false} LoadsExactly(defined: set<int>, e: Enrolment, running: bool, raises: bool,
                                        mailbox: bool, draft: Draft)
    requires e.pc.Idle?
    ensures var e' := Run(defined, e, Load(running, raises, mailbox, draft));
            && e'.mails == e.mails && e'.suppressed == e.suppressed
            && e'.pc == if running && !e.suppressed && e.row.step in defined && mailbox && draft == Sendable
                           && Mailable(e.row.state)
                        then Prepared(e.row.step) else Idle
  {
    RunThree(defined, e, Start(running, raises, mailbox, draft), Prepare, Refresh);
  }

  // A delivery with nothing else happening meanwhile mails the row's step exactly if the campaign is running,
  // the address is not suppressed, the step is defined, a mailbox has quota left, the draft needs no review,
  // the row is in one of four states, the checks under the send lock pass and the provider accepts.
  lemma {:induction false} DeliveryMailsExactly(defined: set<int>, e: Enrolment, running: bool, raises: bool,
                                                mailbox: bool, draft: Draft, open: bool, accepted: bool, at: int)
    requires e.pc.Idle?
    ensures Run(defined, e, Load(running, raises, mailbox, draft) + (Dispatch(open, accepted) + Settle(at))).mails
         == e.mails + if running && !e.suppressed && e.row.step in defined && mailbox && draft == Sendable
                         && Mailable(e.row.state) && open && accepted
                      then [e.row.step] else []
  {
    LoadsExactly(defined, e, running, raises, mailbox, draft);
    var load := Load(running, raises, mailbox, draft);
    DispatchMails(defined, Run(defined, e, load), open, accepted, at);
    RunConcat(defined, e, load, Dispatch(open, accepted) + Settle(at));
  }

  // States from which a sequence can be completed or handed off.
  predicate Sent(s: LeadState) { s == WAITING || s == SENT || s == REPLIED }

  // Where the row is after a delivery has found what it finds and written its decision.
  lemma {:induction false} DeliveryStopsExactly(defined: set<int>, e: Enrolment, running: bool, raises: bool,
                                                mailbox: bool, draft: Draft)
    requires e.pc.Idle?
    ensures var s, s' := e.row.state, Run(defined, e, [Start(running, raises, mailbox, draft), Prepare]).row.state;
            && (s' == UNSUBSCRIBED <==> s == UNSUBSCRIBED || (running && e.suppressed && !raises && !IsTerminal(s)))
            && (s' == COMPLETED <==>
                  s == COMPLETED || (running && !e.suppressed && e.row.step !in defined && Sent(s)))
            && (s' == HANDOFF <==>
                  || s == HANDOFF
                  || (running && !e.suppressed && e.row.step in defined && mailbox && draft == HeldForReview && Sent(s)))
            && (s' != s ==> s' == UNSUBSCRIBED || s' == COMPLETED || s' == HANDOFF || s' == READY)
  {
    RunTwo(defined, e, Start(running, raises, mailbox, draft), Prepare);
  }

  // A checker that raises writes nothing and leaves the delivery to be retried.
  lemma {:induction false} RaisingIsRetried(defined: set<int>, e: Enrolment, mailbox: bool, draft: Draft)
    requires e.pc.Idle? && e.suppressed && !IsTerminal(e.row.state)
    ensures Run(defined, e, [Start(true, true, mailbox, draft)]) == e.(copy := e.row.state)
  {
    RunOne(defined, e, Start(true, true, mailbox, draft));
  }

  // A delivery is done, and nothing written or mailed, where the campaign is not running or the row is
  // terminal; so it is where no mailbox has quota left.
  lemma {:induction false} SkippedIsDone(defined: set<int>, e: Enrolment, running: bool, raises: bool,
                                         mailbox: bool, draft: Draft, open: bool, accepted: bool, at: int)
    requires e.pc.Idle? && e.deliveries > 0
    requires !running || IsTerminal(e.row.state) || (!mailbox && !e.suppressed && e.row.step in defined)
    ensures Run(defined, e, Load(running, raises, mailbox, draft) + (Dispatch(open, accepted) + Settle(at)))
         == e.(copy := e.row.state, deliveries := e.deliveries - 1)
  {
    var load := Load(running, raises, mailbox, draft);
    RunThree(defined, e, Start(running, raises, mailbox, draft), Prepare, Refresh);
    NothingLoaded(defined, Run(defined, e, load), open, accepted, at);
    RunConcat(defined, e, load, Dispatch(open, accepted) + Settle(at));
  }

  // ----- One reply -----

  // Where a reply takes an enrolment its handler finds as it is: an opt-out unsubscribes it unless it was
  // stopped before, and suppresses the address with that; a refusal or interest counts only between mails;
  // an auto-reply does nothing.
  lemma {:induction false} ReplyMovesExactly(defined: set<int>, e: Enrolment, reply: Reply)
    ensures var s, e' := e.row.state, Run(defined, e, [Read, Inbound(|e.replies|, reply)]);
            && (e'.row.state == UNSUBSCRIBED <==> s == UNSUBSCRIBED || (reply == OptOut && !IsTerminal(s)))
            && (e'.row.state == COMPLETED <==> s == COMPLETED || (reply == NotInterested && (s == WAITING || s == SENT)))
            && (e'.row.state == REPLIED <==>
                  (s == REPLIED && reply != OptOut) || (reply == Interested && (s == WAITING || s == SENT)))
            && (e'.row.state != s ==> reply != AutoReply && e'.row.state in {UNSUBSCRIBED, COMPLETED, REPLIED})
            && (e'.suppressed <==> e.suppressed || (reply == OptOut && !IsTerminal(s)))
            && e'.pc == e.pc && e'.mails == e.mails && e'.deliveries == e.deliveries
  {
    RunTwo(defined, e, Read, Inbound(|e.replies|, reply));
  }

  // ----- One booking -----

  // A booking stops whatever has not been stopped, and changes nothing but the state.
  lemma {:induction false} BookingStops(defined: set<int>, e: Enrolment)
    ensures Run(defined, e, [Book])
         == e.(row := if IsTerminal(e.row.state) then e.row else e.row.(state := MEETING_BOOKED))
  {
    RunOne(defined, e, Book);
  }

  // ----- Send times -----

  // A waiting row has a send time, and a stopped one has none, booked rows aside.
  predicate IsTimed(r: Row) {
    && (r.state == WAITING ==> r.nextAt.Some?)
    && (IsTerminal(r.state) && r.state != MEETING_BOOKED ==> r.nextAt == None)
  }

  // Nobody but the task makes a row WAITING, and the task does so at its end.
  predicate TimeInv(e: Enrolment) {
    && IsTimed(e.row)
    && (HasStep(e.pc) && !e.pc.Preparing? ==> e.row.state != WAITING)
    && (HasStep(e.pc) && !e.pc.Preparing? && !e.pc.Readied? ==> e.copy != WAITING)
  }

  lemma {:induction false} TaskStepKeepsTimes(defined: set<int>, e: Enrolment, step: Step)
    requires PcInv(defined, e) && TimeInv(e) && IsTaskStep(step)
    ensures TimeInv(ApplyTask(defined, e, step))
  {
  }

  lemma {:induction false} OtherStepKeepsTimes(e: Enrolment, step: Step)
    requires TimeInv(e) && !IsTaskStep(step)
    ensures TimeInv(ApplyOther(e, step))
  {
  }

  lemma {:induction false} RunKeepsTimes(defined: set<int>, e: Enrolment, steps: seq<Step>)
    requires TaskInv(defined, e) && TimeInv(e)
    ensures TimeInv(Run(defined, e, steps))
    decreases |steps|
  {
    if steps != [] {
      ApplyKeepsTask(defined, e, steps[0]);
      if IsTaskStep(steps[0]) {
        TaskStepKeepsTimes(defined, e, steps[0]);
      } else {
        OtherStepKeepsTimes(e, steps[0]);
      }
      RunKeepsTimes(defined, Apply(defined, e, steps[0]), steps[1..]);
    }
  }

  // So it is in every run of an enrolment.
  lemma {:induction false} StoppedHasNoTime(defined: set<int>, steps: seq<Step>)
    ensures IsTimed(Run(defined, Enrol(), steps).row)
  {
    FromEnrolment(defined, []);
    RunKeepsTimes(defined, Enrol(), steps);
  }
}
