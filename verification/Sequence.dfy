/**
One enrolment under every writer that touches it: launch, the scheduler's claim and release, the send
task with each of its commits, inbound replies and booking.  Steps interleave freely and the task may
die between any two of its steps; deliveries of the task for one enrolment run one at a time.

A database session keeps the copy of the row it has read: a later select returns that copy, and only a
refresh after a commit of its own brings it up to date.  So the scheduler, the task and the handler of a
reply each decide by a copy and write over whatever the row holds by then.
*/
module Sequences {
  import opened Options
  import opened LeadStates

  // Where the send task is.  k is the step number it loaded.
  datatype Pc =
    | Idle
    | Halting(to: LeadState)  // has decided on a stop, has not yet written it
    | Preparing(k: int)       // has decided to send, has yet to write READY
    | Readied(k: int)         // READY is committed, the copy not yet refreshed
    | Prepared(k: int)        // ready to dispatch
    | Gated(k: int)           // passed the checks under the send lock
    | Mailed(k: int)          // the provider has accepted the mail
    | Recorded(k: int)        // the message row is committed
    | Stamped(k: int)         // SENT is committed, the copy not yet refreshed
    | Confirmed(k: int)       // about to move on to the next step

  // The releases the scheduler has yet to make, by the state it saw.
  datatype Claims = Claims(queued: nat, waiting: nat)

  // replies lists the state each handler of an inbound mail has read, None once the handler is done;
  // copy is the state the task's session shows.  deliveries counts the deliveries of the task that are
  // queued, running or waiting for a retry; mails lists the step number of every mail in the order sent;
  // lost those for which the task ended between the provider's acceptance and the commit of SENT;
  // revived those of the releases written over a row whose step had been mailed.  suppressed is the
  // checker's present answer for the lead's address; module Workspaces computes it from the database.
  datatype Enrolment = Enrolment(row: Row, claims: Claims, replies: seq<Option<LeadState>>, deliveries: nat,
                                 pc: Pc, copy: LeadState, mails: seq<int>, lost: seq<int>, revived: seq<int>,
                                 suppressed: bool)

  datatype Draft = Sendable | HeldForReview

  datatype Reply = OptOut | AutoReply | NotInterested | Interested

  // The move the handler of a reply asks for, if any.
  function ReplyTarget(reply: Reply, s: LeadState): Option<LeadState> {
    match reply
    case OptOut => if !(s.UNSUBSCRIBED? || s.COMPLETED?) then Some(UNSUBSCRIBED) else None
    case AutoReply => None
    case NotInterested => if (s.QUEUED? || s.WAITING? || s.SENT?) then Some(COMPLETED) else None
    case Interested => if (s.QUEUED? || s.WAITING? || s.SENT?) then Some(REPLIED) else None
  }

  datatype Step =
    | Schedule(at: int)
    | Claim(running: bool, now: int)
    | Release(seen: LeadState)
    | Drop(seen: LeadState)
    | Start(running: bool, raises: bool, mailbox: bool, draft: Draft)
    | Prepare
    | Refresh
    | Gate(open: bool)
    | Send(accepted: bool)
    | Record
    | Confirm
    | Advance(at: int)
    | Die
    | GiveUp
    | Read
    | Inbound(handler: nat, reply: Reply)
    | Suppress
    | Book

  predicate IsDue(r: Row, now: int) {
    && (r.state.QUEUED? || r.state.WAITING?)
    && (match r.nextAt case Some(t) => t <= now case None => r.state == QUEUED)
  }

  // What the task decides from what it loads; Some(Idle) is an early return, None an exception: the
  // checker raises when several entries stand against the address.
  function Decide(defined: set<int>, r: Row, suppressed: bool, running: bool, raises: bool, mailbox: bool,
                  draft: Draft): Option<Pc>
  {
    if !running || IsTerminal(r.state) then Some(Idle)
    else if suppressed then (if raises then None else Some(Halting(UNSUBSCRIBED)))
    else if r.step !in defined then Some(Halting(COMPLETED))
    else if !mailbox then Some(Idle)
    else if draft.HeldForReview? then Some(Halting(HANDOFF))
    else if r.state == READY then Some(Prepared(r.step))
    else Some(Preparing(r.step))
  }

  // The new step number and time are committed with the move, or rolled back with it.
  function AdvanceMove(defined: set<int>, r: Row, seen: LeadState, at: int): Option<Row> {
    if r.step + 1 in defined
    then Write(r.(step := r.step + 1, nextAt := Some(at)), seen, WAITING)
    else Write(r.(nextAt := None), seen, COMPLETED)
  }

  function AdvanceRow(defined: set<int>, r: Row, seen: LeadState, at: int): Row {
    match AdvanceMove(defined, r, seen, at) case Some(r') => r' case None => r
  }

  // Booking selects and writes in one transaction.
  function BookRow(r: Row): Row {
    if (r.state.QUEUED? || r.state.WAITING? || r.state.READY? || r.state.SENT? || r.state.REPLIED? || r.state.PAUSED?)
    then r.(state := MEETING_BOOKED) else r
  }

  // The task returns and its delivery is done.
  function Finish(e: Enrolment): Enrolment {
    e.(pc := Idle, deliveries := if e.deliveries > 0 then e.deliveries - 1 else 0)
  }

  // The task raises; its delivery will be retried or given up.
  function Fail(e: Enrolment): Enrolment { e.(pc := Idle) }

  function ApplyStart(defined: set<int>, e: Enrolment, running: bool, raises: bool, mailbox: bool, draft: Draft): Enrolment {
    if !e.pc.Idle? then e
    else
      var loaded := e.(copy := e.row.state);
      match Decide(defined, e.row, e.suppressed, running, raises, mailbox, draft)
      case None => Fail(loaded)
      case Some(pc) => if pc.Idle? then Finish(loaded) else loaded.(pc := pc)
  }

  function ApplyPrepare(e: Enrolment): Enrolment {
    match e.pc
    case Halting(to) => (match Write(e.row, e.copy, to) case Some(r) => Finish(e.(row := r)) case None => Fail(e))
    case Preparing(k) =>
      (match Write(e.row, e.copy, READY) case Some(r) => e.(row := r, pc := Readied(k)) case None => Fail(e))
    case _ => e
  }

  function ApplyRefresh(e: Enrolment): Enrolment {
    match e.pc
    case Readied(k) => e.(copy := e.row.state, pc := Prepared(k))
    case Stamped(k) => e.(copy := e.row.state, pc := Confirmed(k))
    case _ => e
  }

  function ApplyConfirm(e: Enrolment): Enrolment {
    if !e.pc.Recorded? then e
    else match Write(e.row, e.copy, SENT)
      case Some(r) => e.(row := r, pc := Stamped(e.pc.k))
      case None => Fail(e.(lost := e.lost + [e.pc.k]))
  }

  function ApplyAdvance(defined: set<int>, e: Enrolment, at: int): Enrolment {
    if !e.pc.Confirmed? then e
    else match AdvanceMove(defined, e.row, e.copy, at) case Some(r) => Finish(e.(row := r)) case None => Fail(e)
  }

  predicate Holds(c: Claims, seen: LeadState) {
    (seen.QUEUED? && c.queued > 0) || (seen.WAITING? && c.waiting > 0)
  }

  predicate Unclaimed(c: Claims) { c.queued == 0 && c.waiting == 0 }

  function Claimed(c: Claims, seen: LeadState): Claims {
    if seen.QUEUED? then c.(queued := c.queued + 1) else c.(waiting := c.waiting + 1)
  }

  function Released(c: Claims, seen: LeadState): Claims
    requires Holds(c, seen)
  {
    if seen.QUEUED? then c.(queued := c.queued - 1) else c.(waiting := c.waiting - 1)
  }

  // From the states that are claimed the table always allows READY, so every release queues a delivery.
  function ApplyRelease(e: Enrolment, seen: LeadState): Enrolment {
    if !Holds(e.claims, seen) then e
    else
      e.(claims := Released(e.claims, seen), row := WriteOrStay(e.row, seen, READY), deliveries := e.deliveries + 1,
         revived := if e.row.step in e.mails then e.revived + [e.row.step] else e.revived)
  }

  predicate Handles(e: Enrolment, i: nat) { i < |e.replies| && e.replies[i].Some? }

  // An opt-out is committed together with its entry in the suppression list.
  function ApplyInbound(e: Enrolment, i: nat, reply: Reply): Enrolment {
    if !Handles(e, i) then e
    else
      var seen, done := e.replies[i].value, e.(replies := e.replies[i := None]);
      match ReplyMove(e.row, seen, reply)
      case Some(r) => done.(row := r, suppressed := e.suppressed || reply.OptOut?)
      case None => done
  }

  function ReplyMove(r: Row, seen: LeadState, reply: Reply): Option<Row> {
    match ReplyTarget(reply, seen) case Some(to) => Write(r, seen, to) case None => None
  }

  function ReplyRow(r: Row, seen: LeadState, reply: Reply): Row {
    match ReplyMove(r, seen, reply) case Some(r') => r' case None => r
  }

  predicate IsTaskStep(step: Step) {
    || step.Start? || step.Prepare? || step.Refresh? || step.Gate? || step.Send? || step.Record? || step.Confirm?
    || step.Advance? || step.Die? || step.GiveUp?
  }

  function ApplyTask(defined: set<int>, e: Enrolment, step: Step): Enrolment
    requires IsTaskStep(step)
  {
    match step
    case Start(running, raises, mailbox, draft) => ApplyStart(defined, e, running, raises, mailbox, draft)
    case Prepare => ApplyPrepare(e)
    case Refresh => ApplyRefresh(e)
    case Gate(open) =>
      if !e.pc.Prepared? then e
      else if open && !e.suppressed then e.(pc := Gated(e.pc.k)) else Fail(e)
    case Send(accepted) =>
      if !e.pc.Gated? then e
      else if accepted then e.(pc := Mailed(e.pc.k), mails := e.mails + [e.pc.k]) else Fail(e)
    case Record => if e.pc.Mailed? then e.(pc := Recorded(e.pc.k)) else e
    case Confirm => ApplyConfirm(e)
    case Advance(at) => ApplyAdvance(defined, e, at)
    case Die => e.(pc := Idle, lost := if e.pc.Mailed? || e.pc.Recorded? then e.lost + [e.pc.k] else e.lost)
    case GiveUp => if e.pc.Idle? then Finish(e) else e
  }

  function ApplyOther(e: Enrolment, step: Step): Enrolment
    requires !IsTaskStep(step)
  {
    match step
    case Schedule(at) =>
      if e.row.state == QUEUED && e.row.nextAt.None? then e.(row := e.row.(nextAt := Some(at))) else e
    case Claim(running, now) =>
      if running && IsDue(e.row, now) then e.(claims := Claimed(e.claims, e.row.state)) else e
    case Release(seen) => ApplyRelease(e, seen)
    case Drop(seen) => if Holds(e.claims, seen) then e.(claims := Released(e.claims, seen)) else e
    case Read => e.(replies := e.replies + [Some(e.row.state)])
    case Inbound(i, reply) => ApplyInbound(e, i, reply)
    case Suppress => e.(suppressed := true)
    case Book => e.(row := BookRow(e.row))
  }

  // A step that is not enabled changes nothing.
  function Apply(defined: set<int>, e: Enrolment, step: Step): Enrolment {
    if IsTaskStep(step) then ApplyTask(defined, e, step) else ApplyOther(e, step)
  }

  function Run(defined: set<int>, e: Enrolment, steps: seq<Step>): Enrolment
    decreases |steps|
  {
    if steps == [] then e else Run(defined, Apply(defined, e, steps[0]), steps[1..])
  }

  function Enrol(): Enrolment {
    Enrolment(Row(QUEUED, 1, None, []), Claims(0, 0), [], 0, Idle, QUEUED, [], [], [], false)
  }

  lemma {:induction false} RunConcat(defined: set<int>, e: Enrolment, a: seq<Step>, b: seq<Step>)
    ensures Run(defined, e, a + b) == Run(defined, Run(defined, e, a), b)
    decreases |a|
  {
    if a == [] {
      assert a + b == b;
    } else {
      assert (a + b)[1..] == a[1..] + b;
      RunConcat(defined, Apply(defined, e, a[0]), a[1..], b);
    }
  }

  lemma {:induction false} RunOne(defined: set<int>, e: Enrolment, step: Step)
    ensures Run(defined, e, [step]) == Apply(defined, e, step)
  {
    assert [step][1..] == [] && Run(defined, Apply(defined, e, step), []) == Apply(defined, e, step);
  }

  lemma {:induction false} RunThenOne(defined: set<int>, e: Enrolment, steps: seq<Step>, last: Step)
    ensures Run(defined, e, steps + [last]) == Apply(defined, Run(defined, e, steps), last)
  {
    RunConcat(defined, e, steps, [last]);
    RunOne(defined, Run(defined, e, steps), last);
  }

  lemma {:induction false} RunTwo(defined: set<int>, e: Enrolment, a: Step, b: Step)
    ensures Run(defined, e, [a, b]) == Apply(defined, Apply(defined, e, a), b)
  {
    assert [a, b][1..] == [b];
    RunOne(defined, Apply(defined, e, a), b);
  }

  lemma {:induction false} RunThree(defined: set<int>, e: Enrolment, a: Step, b: Step, c: Step)
    ensures Run(defined, e, [a, b, c]) == Apply(defined, Apply(defined, Apply(defined, e, a), b), c)
  {
    assert [a, b, c][1..] == [b, c];
    RunTwo(defined, Apply(defined, e, a), b, c);
  }

  // ----- The invariant -----

  // The task has a step to mail, or has mailed it.
  predicate HasStep(pc: Pc) { !pc.Idle? && !pc.Halting? }

  // Between the commit of READY and that of SENT.
  predicate InFlight(pc: Pc) { pc.Readied? || pc.Prepared? || pc.Gated? || pc.Mailed? || pc.Recorded? }

  // The states the modelled writers put a row in.
  predicate Ordinary(s: LeadState) { !(s.PAUSED? || s.BOUNCED? || s.QUALIFIED? || s.DISQUALIFIED?) }

  predicate PcInv(defined: set<int>, e: Enrolment) {
    && (HasStep(e.pc) ==> e.pc.k == e.row.step && e.pc.k in defined)
    && (e.pc.Preparing? ==> !IsTerminal(e.copy) && e.copy != READY)
    && (InFlight(e.pc) ==> e.row.state != SENT && e.copy != SENT)
    && (e.pc.Halting? ==> !IsTerminal(e.copy) && (e.pc.to.UNSUBSCRIBED? || e.pc.to.COMPLETED? || e.pc.to.HANDOFF?))
  }

  // What sessions have seen.
  predicate SeenInv(e: Enrolment) {
    && Ordinary(e.copy)
    && (forall i | 0 <= i < |e.replies| && e.replies[i].Some? :: Ordinary(e.replies[i].value))
  }

  predicate UnsubscribedIsSuppressed(e: Enrolment) {
    e.row.state == UNSUBSCRIBED || e.pc == Halting(UNSUBSCRIBED) ==> e.suppressed
  }

  predicate TaskInv(defined: set<int>, e: Enrolment) {
    PcInv(defined, e) && Ordinary(e.row.state) && SeenInv(e) && UnsubscribedIsSuppressed(e)
  }

  // What a step does to the row alone.
  function RowAfter(defined: set<int>, e: Enrolment, step: Step): Row {
    match step
    case Schedule(at) => if e.row.state.QUEUED? && e.row.nextAt.None? then e.row.(nextAt := Some(at)) else e.row
    case Release(seen) => if Holds(e.claims, seen) then WriteOrStay(e.row, seen, READY) else e.row
    case Prepare =>
      if e.pc.Halting? then WriteOrStay(e.row, e.copy, e.pc.to)
      else if e.pc.Preparing? then WriteOrStay(e.row, e.copy, READY) else e.row
    case Confirm => if e.pc.Recorded? then WriteOrStay(e.row, e.copy, SENT) else e.row
    case Advance(at) => if e.pc.Confirmed? then AdvanceRow(defined, e.row, e.copy, at) else e.row
    case Inbound(i, reply) => if Handles(e, i) then ReplyRow(e.row, e.replies[i].value, reply) else e.row
    case Book => BookRow(e.row)
    case _ => e.row
  }

  lemma {:induction false} RowAfterExact(defined: set<int>, e: Enrolment, step: Step)
    ensures Apply(defined, e, step).row == RowAfter(defined, e, step)
  {
  }

  lemma {:induction false} TaskStepKeepsPc(defined: set<int>, e: Enrolment, step: Step)
    requires PcInv(defined, e) && IsTaskStep(step)
    ensures PcInv(defined, ApplyTask(defined, e, step))
  {
  }

  lemma {:induction false} TaskStepKeepsUnsubscribed(defined: set<int>, e: Enrolment, step: Step)
    requires UnsubscribedIsSuppressed(e) && IsTaskStep(step)
    ensures UnsubscribedIsSuppressed(ApplyTask(defined, e, step))
  {
  }

  lemma {:induction false} TaskStepSees(defined: set<int>, e: Enrolment, step: Step)
    requires IsTaskStep(step)
    ensures var e' := ApplyTask(defined, e, step);
            && e'.claims == e.claims && e'.replies == e.replies && (e'.copy == e.copy || e'.copy == e.row.state)
            && e'.suppressed == e.suppressed && e'.revived == e.revived
  {
  }

  // The other writers leave the task and the step number alone.
  lemma {:induction false} OtherStepKeepsTask(e: Enrolment, step: Step)
    requires !IsTaskStep(step)
    ensures var e' := ApplyOther(e, step);
            && e'.pc == e.pc && e'.copy == e.copy && e'.row.step == e.row.step
            && e'.mails == e.mails && e'.lost == e.lost
            && (e.suppressed ==> e'.suppressed) && (e'.row.state == SENT ==> e.row.state == SENT)
  {
  }

  lemma {:induction false} OtherStepKeepsUnsubscribed(e: Enrolment, step: Step)
    requires UnsubscribedIsSuppressed(e) && !IsTaskStep(step)
    ensures UnsubscribedIsSuppressed(ApplyOther(e, step))
  {
  }

  lemma {:induction false} OtherStepSees(e: Enrolment, step: Step)
    requires !IsTaskStep(step) && Ordinary(e.row.state) && SeenInv(e)
    ensures SeenInv(ApplyOther(e, step))
  {
  }

  lemma {:induction false} RowStaysOrdinary(defined: set<int>, e: Enrolment, step: Step)
    requires Ordinary(e.row.state) && PcInv(defined, e)
    ensures Ordinary(RowAfter(defined, e, step).state)
  {
  }

  lemma {:induction false} ApplyKeepsTask(defined: set<int>, e: Enrolment, step: Step)
    requires TaskInv(defined, e)
    ensures TaskInv(defined, Apply(defined, e, step))
  {
    if IsTaskStep(step) {
      TaskStepKeepsPc(defined, e, step);
      TaskStepKeepsUnsubscribed(defined, e, step);
      TaskStepSees(defined, e, step);
    } else {
      OtherStepKeepsTask(e, step);
      OtherStepKeepsUnsubscribed(e, step);
      OtherStepSees(e, step);
    }
    RowAfterExact(defined, e, step);
    RowStaysOrdinary(defined, e, step);
  }

  // ----- Mails -----

  predicate IsPending(r: Row) { r.state.QUEUED? || r.state.WAITING? || r.state.READY? }

  // The task will hand over a mail of its step, unless a check stops it.
  predicate Loaded(e: Enrolment) {
    e.pc.Readied? || e.pc.Prepared? || e.pc.Gated? || (e.pc.Preparing? && Permits(e.copy, READY))
  }

  // The current step is still to be mailed, as far as the row and the task say.
  predicate Unsent(e: Enrolment) { Loaded(e) || (IsPending(e.row) && !e.pc.Mailed? && !e.pc.Recorded?) }

  ghost function Excused(e: Enrolment, k: int): nat { multiset(e.lost)[k] + multiset(e.revived)[k] }

  ghost predicate MailInv(e: Enrolment) {
    && (forall k <- e.mails :: k <= e.row.step)
    && (forall k: int :: multiset(e.mails)[k] <= 1 + Excused(e, k))
    && (Unsent(e) ==> multiset(e.mails)[e.row.step] <= Excused(e, e.row.step))
    && (forall i, j | 0 <= i < j < |e.mails| :: e.mails[i] <= e.mails[j])
  }

  // Steps that neither mail nor change the step number.
  lemma {:induction false} QuietKeepsMail(e: Enrolment, e': Enrolment)
    requires MailInv(e)
    requires e'.mails == e.mails && e'.lost == e.lost && e'.revived == e.revived && e'.row.step == e.row.step
    requires Unsent(e') ==> Unsent(e)
    ensures MailInv(e')
  {
    assert forall k: int :: Excused(e', k) == Excused(e, k);
  }

  lemma {:induction false} SendKeepsMail(e: Enrolment, e': Enrolment)
    requires MailInv(e) && Unsent(e)
    requires e' == e.(pc := Mailed(e.row.step), mails := e.mails + [e.row.step])
    ensures MailInv(e')
  {
    var k := e.row.step;
    assert multiset(e'.mails) == multiset(e.mails) + multiset{k};
    assert forall j: int :: Excused(e', j) == Excused(e, j);
    forall i, j | 0 <= i < j < |e'.mails|
      ensures e'.mails[i] <= e'.mails[j]
    {
      assert e'.mails[i] == e.mails[i] && e.mails[i] in e.mails;
    }
  }

  // One more excuse for the current step.
  lemma {:induction false} ExcuseKeepsMail(e: Enrolment, e': Enrolment)
    requires MailInv(e) && e'.mails == e.mails && e'.row.step == e.row.step
    requires || (e'.lost == e.lost + [e.row.step] && e'.revived == e.revived)
             || (e'.lost == e.lost && e'.revived == e.revived + [e.row.step])
    ensures MailInv(e')
  {
    var k := e.row.step;
    assert multiset(e.lost + [k]) == multiset(e.lost) + multiset{k};
    assert multiset(e.revived + [k]) == multiset(e.revived) + multiset{k};
    assert forall j: int :: Excused(e', j) == Excused(e, j) + if j == k then 1 else 0;
  }

  // A move on to the next step, which no mail was for yet.
  lemma {:induction false} NextStepKeepsMail(e: Enrolment, e': Enrolment)
    requires MailInv(e) && e'.mails == e.mails && e'.lost == e.lost && e'.revived == e.revived
    requires e'.row.step == e.row.step + 1
    ensures MailInv(e')
  {
    assert e'.row.step !in e.mails;
    assert forall k: int :: Excused(e', k) == Excused(e, k);
  }

  predicate Loses(e: Enrolment, step: Step) {
    || (step.Die? && (e.pc.Mailed? || e.pc.Recorded?))
    || (step.Confirm? && e.pc.Recorded? && !Permits(e.copy, SENT))
  }

  predicate Mails(e: Enrolment, step: Step) { step == Send(true) && e.pc.Gated? }

  lemma {:induction false} TaskStepIsQuiet(defined: set<int>, e: Enrolment, step: Step)
    requires PcInv(defined, e) && Ordinary(e.row.state) && IsTaskStep(step)
    requires !Mails(e, step) && !Loses(e, step)
    ensures var e' := ApplyTask(defined, e, step);
            && e'.mails == e.mails && e'.lost == e.lost && e'.revived == e.revived
            && ((e'.row.step == e.row.step && (Unsent(e') ==> Unsent(e)))
                || (step.Advance? && e'.row.step == e.row.step + 1))
  {
  }

  lemma {:induction false} LossExactly(defined: set<int>, e: Enrolment, step: Step)
    requires PcInv(defined, e) && Loses(e, step)
    ensures Apply(defined, e, step) == e.(pc := Idle, lost := e.lost + [e.row.step])
  {
  }

  lemma {:induction false} TaskStepKeepsMail(defined: set<int>, e: Enrolment, step: Step)
    requires PcInv(defined, e) && MailInv(e) && Ordinary(e.row.state) && IsTaskStep(step)
    ensures MailInv(ApplyTask(defined, e, step))
  {
    var e' := ApplyTask(defined, e, step);
    if Mails(e, step) {
      SendKeepsMail(e, e');
    } else if Loses(e, step) {
      LossExactly(defined, e, step);
      ExcuseKeepsMail(e, e');
    } else {
      TaskStepIsQuiet(defined, e, step);
      if e'.row.step == e.row.step {
        QuietKeepsMail(e, e');
      } else {
        NextStepKeepsMail(e, e');
      }
    }
  }

  lemma {:induction false} OtherStepIsQuiet(e: Enrolment, step: Step)
    requires !IsTaskStep(step) && !step.Release?
    ensures var e' := ApplyOther(e, step);
            e'.revived == e.revived && (Unsent(e') ==> Unsent(e))
  {
  }

  // A release may make a mailed step pending again, and is counted when it does.
  lemma {:induction false} ReleaseKeepsMail(e: Enrolment, seen: LeadState)
    requires MailInv(e)
    ensures MailInv(ApplyRelease(e, seen))
  {
    var e' := ApplyRelease(e, seen);
    if Holds(e.claims, seen) {
      if e.row.step in e.mails {
        ExcuseKeepsMail(e, e');
      } else {
        assert multiset(e.mails)[e.row.step] == 0;
        assert forall k: int :: Excused(e', k) == Excused(e, k);
      }
    }
  }

  lemma {:induction false} ApplyKeepsMail(defined: set<int>, e: Enrolment, step: Step)
    requires PcInv(defined, e) && MailInv(e) && Ordinary(e.row.state)
    ensures MailInv(Apply(defined, e, step))
  {
    if IsTaskStep(step) {
      TaskStepKeepsMail(defined, e, step);
    } else if step.Release? {
      ReleaseKeepsMail(e, step.seen);
    } else {
      OtherStepKeepsTask(e, step);
      OtherStepIsQuiet(e, step);
      QuietKeepsMail(e, ApplyOther(e, step));
    }
  }

  // ----- Events -----

  // Events spent on the current step by a trail that ends in this state.
  function Spent(s: LeadState): nat {
    match s
    case QUEUED => 0 case WAITING => 0 case READY => 1 case SENT => 2 case REPLIED => 3 case _ => 4
  }

  predicate StepsReached(defined: set<int>, step: int) {
    1 <= step && (step == 1 || forall k | 1 <= k <= step :: k in defined)
  }

  predicate WithinBound(r: Row) {
    |r.events| <= 3 * (r.step - 1) + Spent(Replay(r.events)) + 4 * Breaks(r.events)
  }

  predicate CountInv(defined: set<int>, r: Row) { StepsReached(defined, r.step) && WithinBound(r) }

  predicate IsWritten(to: LeadState) {
    to.READY? || to.SENT? || to.REPLIED? || to.COMPLETED? || to.UNSUBSCRIBED? || to.HANDOFF?
  }

  lemma {:induction false} WriteKeepsBound(r: Row, seen: LeadState, to: LeadState)
    requires WithinBound(r) && IsWritten(to) && Ordinary(seen)
    ensures WithinBound(WriteOrStay(r, seen, to))
  {
    BreaksExtend(r.events, StateTransition(seen, to));
  }

  // A new step number makes room for three events.
  lemma {:induction false} NextStepKeepsBound(r: Row, seen: LeadState, at: int)
    requires WithinBound(r) && Ordinary(seen)
    ensures var next := Write(r.(step := r.step + 1, nextAt := Some(at)), seen, WAITING);
            next.Some? ==> WithinBound(next.value)
  {
    BreaksExtend(r.events, StateTransition(seen, WAITING));
  }

  lemma {:induction false} LastStepKeepsBound(r: Row, seen: LeadState)
    requires WithinBound(r) && Ordinary(seen)
    ensures var last := Write(r.(nextAt := None), seen, COMPLETED);
            last.Some? ==> WithinBound(last.value)
  {
    BreaksExtend(r.events, StateTransition(seen, COMPLETED));
  }

  lemma {:induction false} AdvanceKeepsBound(defined: set<int>, r: Row, seen: LeadState, at: int)
    requires WithinBound(r) && Ordinary(seen)
    ensures WithinBound(AdvanceRow(defined, r, seen, at))
  {
    NextStepKeepsBound(r, seen, at);
    LastStepKeepsBound(r, seen);
  }

  lemma {:induction false} AdvanceReaches(defined: set<int>, r: Row, seen: LeadState, at: int)
    requires StepsReached(defined, r.step) && r.step in defined
    ensures StepsReached(defined, AdvanceRow(defined, r, seen, at).step)
  {
  }

  lemma {:induction false} WriteKeepsCount(defined: set<int>, r: Row, seen: LeadState, to: LeadState)
    requires CountInv(defined, r) && IsWritten(to) && Ordinary(seen)
    ensures CountInv(defined, WriteOrStay(r, seen, to))
  {
    WriteKeepsBound(r, seen, to);
  }

  lemma {:induction false} AdvanceKeepsCount(defined: set<int>, r: Row, seen: LeadState, at: int)
    requires CountInv(defined, r) && r.step in defined && Ordinary(seen)
    ensures CountInv(defined, AdvanceRow(defined, r, seen, at))
  {
    AdvanceKeepsBound(defined, r, seen, at);
    AdvanceReaches(defined, r, seen, at);
  }

  lemma {:induction false} ApplyKeepsCount(defined: set<int>, e: Enrolment, step: Step)
    requires PcInv(defined, e) && SeenInv(e) && CountInv(defined, e.row)
    ensures CountInv(defined, RowAfter(defined, e, step))
  {
    match step
    case Release(seen) =>
      if Holds(e.claims, seen) {
        WriteKeepsCount(defined, e.row, seen, READY);
      }
    case Prepare =>
      if e.pc.Halting? {
        WriteKeepsCount(defined, e.row, e.copy, e.pc.to);
      } else if e.pc.Preparing? {
        WriteKeepsCount(defined, e.row, e.copy, READY);
      }
    case Confirm => WriteKeepsCount(defined, e.row, e.copy, SENT);
    case Advance(at) =>
      if e.pc.Confirmed? {
        AdvanceKeepsCount(defined, e.row, e.copy, at);
      }
    case Inbound(i, reply) =>
      if Handles(e, i) && ReplyTarget(reply, e.replies[i].value).Some? {
        WriteKeepsCount(defined, e.row, e.replies[i].value, ReplyTarget(reply, e.replies[i].value).value);
      }
    case _ =>
  }

  lemma {:induction false} AdvanceKeepsAudited(defined: set<int>, r: Row, seen: LeadState, at: int)
    requires Audited(r)
    ensures Audited(AdvanceRow(defined, r, seen, at))
  {
    if r.step + 1 in defined {
      WriteKeepsAudited(r.(step := r.step + 1, nextAt := Some(at)), seen, WAITING);
    } else {
      WriteKeepsAudited(r.(nextAt := None), seen, COMPLETED);
    }
  }

  lemma {:induction false} ApplyKeepsAudited(defined: set<int>, e: Enrolment, step: Step)
    requires Audited(e.row)
    ensures Audited(RowAfter(defined, e, step))
  {
    match step
    case Release(seen) => WriteKeepsAudited(e.row, seen, READY);
    case Prepare =>
      if e.pc.Halting? {
        WriteKeepsAudited(e.row, e.copy, e.pc.to);
      } else {
        WriteKeepsAudited(e.row, e.copy, READY);
      }
    case Confirm => WriteKeepsAudited(e.row, e.copy, SENT);
    case Advance(at) => AdvanceKeepsAudited(defined, e.row, e.copy, at);
    case Inbound(i, reply) =>
      if Handles(e, i) && ReplyTarget(reply, e.replies[i].value).Some? {
        WriteKeepsAudited(e.row, e.replies[i].value, ReplyTarget(reply, e.replies[i].value).value);
      }
    case _ =>
  }

  // ----- The whole invariant -----

  ghost predicate Inv(defined: set<int>, e: Enrolment) {
    TaskInv(defined, e) && MailInv(e) && CountInv(defined, e.row) && Audited(e.row)
  }

  lemma {:induction false} ApplyKeepsInv(defined: set<int>, e: Enrolment, step: Step)
    requires Inv(defined, e)
    ensures Inv(defined, Apply(defined, e, step))
  {
    ApplyKeepsTask(defined, e, step);
    ApplyKeepsMail(defined, e, step);
    RowAfterExact(defined, e, step);
    ApplyKeepsCount(defined, e, step);
    ApplyKeepsAudited(defined, e, step);
  }

  lemma {:induction false} RunKeepsInv(defined: set<int>, e: Enrolment, steps: seq<Step>)
    requires Inv(defined, e)
    ensures Inv(defined, Run(defined, e, steps))
    decreases |steps|
  {
    if steps != [] {
      ApplyKeepsInv(defined, e, steps[0]);
      RunKeepsInv(defined, Apply(defined, e, steps[0]), steps[1..]);
    }
  }

  lemma {:induction false} FromEnrolment(defined: set<int>, steps: seq<Step>)
    ensures Inv(defined, Run(defined, Enrol(), steps))
  {
    RunKeepsInv(defined, Enrol(), steps);
  }

  // ----- What holds in every run of an enrolment -----

  // One mail for each step, and one more for each time the task ended between the provider's acceptance
  // and SENT or a release was written over a row whose step had been mailed.
  lemma {:induction false} MailedOnceUnlessLostOrRevived(defined: set<int>, steps: seq<Step>, k: int)
    ensures var e := Run(defined, Enrol(), steps);
            multiset(e.mails)[k] <= 1 + multiset(e.lost)[k] + multiset(e.revived)[k]
  {
    FromEnrolment(defined, steps);
  }

  lemma {:induction false} MailsNeverStepBack(defined: set<int>, steps: seq<Step>, i: nat, j: nat)
    requires i < j < |Run(defined, Enrol(), steps).mails|
    ensures var mails := Run(defined, Enrol(), steps).mails; mails[i] <= mails[j]
  {
    FromEnrolment(defined, steps);
  }

  // The trail's last event names the row's state, unless a booking wrote it.
  lemma {:induction false} AuditReplays(defined: set<int>, steps: seq<Step>)
    ensures var r := Run(defined, Enrol(), steps).row;
            && (forall e <- r.events :: CanTransition(e.previous, e.current))
            && (Replay(r.events) != r.state ==> r.state == MEETING_BOOKED && !IsTerminal(Replay(r.events)))
  {
    FromEnrolment(defined, steps);
  }

  // The move a step attempts, from the state its session shows.
  datatype Attempt = Attempt(seen: LeadState, to: LeadState)

  function Attempted(defined: set<int>, e: Enrolment, step: Step): Option<Attempt> {
    match step
    case Release(seen) => if Holds(e.claims, seen) then Some(Attempt(seen, READY)) else None
    case Prepare =>
      if e.pc.Halting? then Some(Attempt(e.copy, e.pc.to))
      else if e.pc.Preparing? then Some(Attempt(e.copy, READY)) else None
    case Confirm => if e.pc.Recorded? then Some(Attempt(e.copy, SENT)) else None
    case Advance(_) =>
      if e.pc.Confirmed? then Some(Attempt(e.copy, if e.row.step + 1 in defined then WAITING else COMPLETED)) else None
    case Inbound(i, reply) =>
      if Handles(e, i) && ReplyTarget(reply, e.replies[i].value).Some?
      then Some(Attempt(e.replies[i].value, ReplyTarget(reply, e.replies[i].value).value)) else None
    case _ => None
  }

  function Moved(a: Option<Attempt>): seq<Event> {
    match a
    case None => []
    case Some(Attempt(seen, to)) => if seen != to && CanTransition(seen, to) then [StateTransition(seen, to)] else []
  }

  lemma {:induction false} EventsAfter(defined: set<int>, e: Enrolment, step: Step)
    ensures RowAfter(defined, e, step).events == e.row.events + Moved(Attempted(defined, e, step))
  {
  }

  // ----- Writes from copies that are not current -----

  // The state the last booking wrote over.
  function Under(e: Enrolment, under: LeadState, step: Step): LeadState {
    if step.Book? && BookRow(e.row) != e.row then e.row.state else under
  }

  // The session that moves the row sees the state the row is in or, where a booking wrote that state, the
  // one the booking wrote over.
  predicate IsCurrent(defined: set<int>, e: Enrolment, under: LeadState, step: Step) {
    var a := Attempted(defined, e, step);
    Moved(a) == [] || a.value.seen == e.row.state || (e.row.state == MEETING_BOOKED && a.value.seen == under)
  }

  // How many steps of the run move the row from a copy that is not.
  function StaleWrites(defined: set<int>, e: Enrolment, under: LeadState, steps: seq<Step>): nat
    decreases |steps|
  {
    if steps == [] then 0
    else
      (if IsCurrent(defined, e, under, steps[0]) then 0 else 1)
      + StaleWrites(defined, Apply(defined, e, steps[0]), Under(e, under, steps[0]), steps[1..])
  }

  // Only a booking makes a row MEETING_BOOKED, and it leaves no event: the trail still ends in the state
  // written over.
  predicate UnderInv(e: Enrolment, under: LeadState) {
    e.row.state == MEETING_BOOKED ==> under == Replay(e.row.events)
  }

  lemma {:induction false} OnlyBookingBooks(defined: set<int>, e: Enrolment, step: Step)
    requires PcInv(defined, e) && !step.Book? && RowAfter(defined, e, step).state == MEETING_BOOKED
    ensures e.row.state == MEETING_BOOKED && RowAfter(defined, e, step).events == e.row.events
  {
  }

  lemma {:induction false} StepKeepsUnder(defined: set<int>, e: Enrolment, under: LeadState, step: Step)
    requires PcInv(defined, e) && Audited(e.row) && UnderInv(e, under)
    ensures UnderInv(Apply(defined, e, step), Under(e, under, step))
  {
    RowAfterExact(defined, e, step);
    if !step.Book? && RowAfter(defined, e, step).state == MEETING_BOOKED {
      OnlyBookingBooks(defined, e, step);
    }
  }

  // So a move breaks the trail exactly when it is made from a copy that is not current.
  lemma {:induction false} StepBreaks(defined: set<int>, e: Enrolment, under: LeadState, step: Step)
    requires Audited(e.row) && UnderInv(e, under)
    ensures Breaks(Apply(defined, e, step).row.events)
         == Breaks(e.row.events) + if IsCurrent(defined, e, under, step) then 0 else 1
  {
    RowAfterExact(defined, e, step);
    EventsAfter(defined, e, step);
    var moved := Moved(Attempted(defined, e, step));
    if moved == [] {
      assert e.row.events + moved == e.row.events;
    } else {
      BreaksExtend(e.row.events, moved[0]);
    }
  }

  lemma {:induction false} RunBreaks(defined: set<int>, e: Enrolment, under: LeadState, steps: seq<Step>)
    requires Inv(defined, e) && UnderInv(e, under)
    ensures Breaks(Run(defined, e, steps).row.events) == Breaks(e.row.events) + StaleWrites(defined, e, under, steps)
    decreases |steps|
  {
    if steps != [] {
      StepBreaks(defined, e, under, steps[0]);
      StepKeepsUnder(defined, e, under, steps[0]);
      ApplyKeepsInv(defined, e, steps[0]);
      RunBreaks(defined, Apply(defined, e, steps[0]), Under(e, under, steps[0]), steps[1..]);
    }
  }

  lemma {:induction false} BreaksAreStaleWrites(defined: set<int>, steps: seq<Step>)
    ensures Breaks(Run(defined, Enrol(), steps).row.events) == StaleWrites(defined, Enrol(), QUEUED, steps)
  {
    FromEnrolment(defined, []);
    RunBreaks(defined, Enrol(), QUEUED, steps);
  }

  // The events form an unbroken chain from QUEUED exactly in the runs whose every move is made from a
  // current copy of the row.
  lemma {:induction false} ChainExactly(defined: set<int>, steps: seq<Step>)
    ensures IsChain(Run(defined, Enrol(), steps).row.events) <==> StaleWrites(defined, Enrol(), QUEUED, steps) == 0
  {
    BreaksAreStaleWrites(defined, steps);
    ChainHasNoBreaks(Run(defined, Enrol(), steps).row.events);
  }

  // ----- How many events -----

  // n is the number of consecutively defined steps 1, 2, ..., n.
  predicate StepsDefined(defined: set<int>, n: nat) {
    (forall k | 1 <= k <= n :: k in defined) && n + 1 !in defined
  }

  // Without step 1 nothing is ever mailed.
  predicate IsBare(s: LeadState) { s.QUEUED? || s.READY? || s.UNSUBSCRIBED? || s.MEETING_BOOKED? }

  function BareSpent(s: LeadState): nat { if s.QUEUED? then 0 else if s.READY? then 1 else 2 }

  predicate BareTask(e: Enrolment) {
    && e.row.step == 1 && e.claims.waiting == 0 && IsBare(e.row.state) && IsBare(e.copy)
    && (e.pc.Idle? || (e.pc.Halting? && (e.pc.to.UNSUBSCRIBED? || e.pc.to.COMPLETED?)))
    && (forall i | 0 <= i < |e.replies| && e.replies[i].Some? :: IsBare(e.replies[i].value))
  }

  predicate BareEvents(events: seq<Event>) { |events| <= BareSpent(Replay(events)) + 2 * Breaks(events) }

  lemma {:induction false} BareTaskStep(defined: set<int>, e: Enrolment, step: Step)
    requires 1 !in defined && BareTask(e) && IsTaskStep(step)
    ensures BareTask(ApplyTask(defined, e, step))
  {
  }

  lemma {:induction false} BareOtherStep(e: Enrolment, step: Step)
    requires BareTask(e) && !IsTaskStep(step)
    ensures BareTask(ApplyOther(e, step))
  {
  }

  lemma {:induction false} BareAttempt(defined: set<int>, e: Enrolment, step: Step)
    requires BareTask(e)
    ensures var moved := Moved(Attempted(defined, e, step));
            moved == [] || (moved[0].previous.QUEUED? && (moved[0].current.READY? || moved[0].current.UNSUBSCRIBED?))
                        || (moved[0].previous.READY? && moved[0].current.UNSUBSCRIBED?)
  {
  }

  lemma {:induction false} BareStepEvents(defined: set<int>, e: Enrolment, step: Step)
    requires BareTask(e) && BareEvents(e.row.events)
    ensures BareEvents(Apply(defined, e, step).row.events)
  {
    RowAfterExact(defined, e, step);
    EventsAfter(defined, e, step);
    BareAttempt(defined, e, step);
    var moved := Moved(Attempted(defined, e, step));
    if moved == [] {
      assert e.row.events + moved == e.row.events;
    } else {
      BreaksExtend(e.row.events, moved[0]);
    }
  }

  lemma {:induction false} BareRun(defined: set<int>, e: Enrolment, steps: seq<Step>)
    requires 1 !in defined && BareTask(e) && BareEvents(e.row.events)
    ensures BareEvents(Run(defined, e, steps).row.events)
    decreases |steps|
  {
    if steps != [] {
      if IsTaskStep(steps[0]) {
        BareTaskStep(defined, e, steps[0]);
      } else {
        BareOtherStep(e, steps[0]);
      }
      BareStepEvents(defined, e, steps[0]);
      BareRun(defined, Apply(defined, e, steps[0]), steps[1..]);
    }
  }

  // The table has cycles, yet no run emits more events than this; only moves made from a copy that is not
  // current add to the bound.
  lemma {:induction false} EventsBounded(defined: set<int>, n: nat, steps: seq<Step>)
    requires StepsDefined(defined, n)
    ensures var stale := StaleWrites(defined, Enrol(), QUEUED, steps);
            |Run(defined, Enrol(), steps).row.events| <= if n == 0 then 2 + 2 * stale else 3 * n + 1 + 4 * stale
  {
    BreaksAreStaleWrites(defined, steps);
    FromEnrolment(defined, steps);
    var r := Run(defined, Enrol(), steps).row;
    if n == 0 {
      BareRun(defined, Enrol(), steps);
    } else {
      assert r.step > n ==> n + 1 in defined;
    }
  }
}
