/**
The send task and the handlers of replies and bookings in the source's own form, working on the
enrolment objects, the suppression store and the mailbox.
*/
module Campaigns {
  import opened Options
  import opened LeadStates
  import opened Sequences
  import opened Text
  import S = Suppression
  import D = Decisions

  // ----- The send task -----

  datatype Health = HEALTHY | WARMUP | PAUSED | REVOKED

  // What a session's copy of the mailbox shows.
  datatype Quota = Quota(health: Health, sends: int)

  class Mailbox {
    const dailySendLimit: int
    var health: Health
    var currentDaySends: int

    constructor (dailySendLimit: int)
      ensures this.dailySendLimit == dailySendLimit && health == HEALTHY && currentDaySends == 0
    {
      this.dailySendLimit := dailySendLimit;
      health := HEALTHY;
      currentDaySends := 0;
    }

    function Shown(): Quota
      reads this
    {
      Quota(health, currentDaySends)
    }

    predicate MaySend(q: Quota) {
      q.health != Health.REVOKED && q.health != Health.PAUSED && q.sends < dailySendLimit
    }
  }

  datatype SendResult = Delivered | Unauthorized | Rejected

  // lead is the row in the database, copy the state that the task's session shows of it.
  class SendTask {
    const lead: CampaignLead
    const email: string
    const store: S.Store
    var pc: Pc
    var copy: LeadState
    var mails: seq<int>
    ghost var lost: seq<int>
    ghost var revived: seq<int>
    ghost var claims: Claims
    ghost var replies: seq<Option<LeadState>>
    ghost var deliveries: nat

    constructor (lead: CampaignLead, email: string, store: S.Store)
      ensures this.lead == lead && this.email == email && this.store == store && pc == Idle && mails == []
      ensures lost == [] && revived == [] && claims == Claims(0, 0) && replies == [] && deliveries == 1
    {
      this.lead := lead;
      this.email := email;
      this.store := store;
      pc := Idle;
      copy := QUEUED;
      mails := [];
      lost := [];
      revived := [];
      claims := Claims(0, 0);
      replies := [];
      deliveries := 1;
    }

    // The enrolment as the step system sees it.
    ghost function View(): Enrolment
      reads this, lead, store
    {
      Enrolment(lead.Value(), claims, replies, deliveries, pc, copy, mails, lost, revived,
                S.Blocked(store.Value(), Norm(email)))
    }

    // Between the gate and the message row, and between a commit and the refresh after it, no method of
    // the task begins or ends; and the task never asks for the state its copy shows already.
    predicate Valid()
      reads this
    {
      && !(pc.Gated? || pc.Mailed? || pc.Readied? || pc.Stamped?)
      && (pc.Preparing? ==> copy != READY) && (pc.Prepared? || pc.Recorded? ==> copy != SENT)
    }

    ghost method Done()
      modifies this`deliveries
      ensures deliveries == if old(deliveries) > 0 then old(deliveries) - 1 else 0
    {
      if deliveries > 0 {
        deliveries := deliveries - 1;
      }
    }

    // The checker is asked unless the lead itself has opted out.
    method AskChecker() returns (v: S.Verdict)
      ensures v == S.Clear <==> !S.Blocked(store.Value(), Norm(email))
      ensures v == S.Raised <==> CheckerRaises()
    {
      S.CheckExactly(store.Value(), email);
      if S.OptedOut(store.Value(), email) {
        S.OptedOutIsBlocked(store.Value(), email);
        return S.Suppressed;
      }
      v := store.IsEmailSuppressed(email);
    }

    predicate CheckerRaises()
      reads this, store
    {
      S.Check(store.Value(), email) == S.Raised && !S.OptedOut(store.Value(), email)
    }

    // What the task decides, without writing anything; done says that it returns.
    method Decision(defined: set<int>, running: bool, mailbox: bool, draft: Draft) returns (next: Pc, done: bool)
      ensures var d := Decide(defined, lead.Value(), S.Blocked(store.Value(), Norm(email)), running,
                              CheckerRaises(), mailbox, draft);
              done == (d == Some(Idle)) && next == match d case Some(pc) => pc case None => Idle
    {
      if !running {
        return Idle, true;
      }
      if IsTerminal(lead.state) {
        return Idle, true;
      }
      var v := AskChecker();
      if v == S.Raised {
        return Idle, false;
      }
      if v == S.Suppressed {
        return Halting(UNSUBSCRIBED), false;
      }
      if lead.currentStepNumber !in defined {
        return Halting(COMPLETED), false;
      }
      if !mailbox {
        return Idle, true;
      }
      if draft == HeldForReview {
        return Halting(HANDOFF), false;
      }
      var k := lead.currentStepNumber;
      return if lead.state != READY then Preparing(k) else Prepared(k), false;
    }

    // Load the row and decide.
    method Load(defined: set<int>, running: bool, mailbox: bool, draft: Draft)
      requires pc.Idle?
      modifies this
      ensures View() == ApplyStart(defined, old(View()), running, old(CheckerRaises()), mailbox, draft)
      ensures Valid()
    {
      copy := lead.state;
      var done;
      pc, done := Decision(defined, running, mailbox, draft);
      if done {
        Done();
      }
    }

    // Write the stop, or READY, and read the row back; a refused move ends the task with an exception.
    method WriteDecision()
      requires Valid()
      modifies this, lead
      ensures View() == AfterDecision(old(View())) && Valid()
    {
      if pc.Halting? {
        var ok, _ := lead.TransitionLeadState(copy, pc.to);
        pc := Idle;
        if ok {
          Done();
        }
      } else if pc.Preparing? {
        var k := pc.k;
        var ok, seen := lead.TransitionLeadState(copy, READY);
        pc := Idle;
        if ok {
          copy := seen;
          pc := Prepared(k);
        }
      }
    }

    // The checks under the send lock: suppression again, then the mailbox's state as the session's copy
    // from when the mailbox was picked shows it.  credentials says that the mailbox's credentials can be
    // read and its provider is known.
    method Admit(mailbox: Mailbox?, quota: Quota, locked: bool, credentials: bool) returns (open: bool)
      ensures open == (locked && mailbox != null && mailbox.MaySend(quota) && credentials
                       && !S.Blocked(store.Value(), Norm(email)))
    {
      if !locked {
        return false;
      }
      var clear := store.OpenGate(email);
      if !clear || mailbox == null {
        return false;
      }
      if quota.health == Health.REVOKED || quota.health == Health.PAUSED || quota.sends >= mailbox.dailySendLimit {
        return false;
      }
      return credentials;
    }

    // The send service: its checks, the provider, then the message row and the mailbox's counter, which is
    // written one above what the copy shows.
    method Dispatch(mailbox: Mailbox?, quota: Quota, locked: bool, credentials: bool, result: SendResult)
      requires Valid()
      modifies this, mailbox
      ensures var open := locked && mailbox != null && mailbox.MaySend(quota) && credentials;
              && Valid() && View() == Dispatched(old(View()), open, result == Delivered)
              && (mailbox != null ==>
                    var called := old(pc).Prepared? && open && !S.Blocked(old(store.Value()), Norm(email));
                    && mailbox.health == (if called && result == Unauthorized then Health.REVOKED else old(mailbox.health))
                    && mailbox.currentDaySends
                       == if called && result == Delivered then quota.sends + 1 else old(mailbox.currentDaySends))
    {
      if !pc.Prepared? {
        return;
      }
      var k := pc.k;
      pc := Idle;
      var open := Admit(mailbox, quota, locked, credentials);
      if open {
        CallProvider(k, mailbox, quota.sends, result);
      }
    }

    // The provider call and what its answer leads to.
    method CallProvider(k: int, mailbox: Mailbox, sends: int, result: SendResult)
      modifies this`pc, this`mails, mailbox
      ensures mails == old(mails) + if result == Delivered then [k] else []
      ensures pc == if result == Delivered then Recorded(k) else old(pc)
      ensures mailbox.health == if result == Unauthorized then Health.REVOKED else old(mailbox.health)
      ensures mailbox.currentDaySends == if result == Delivered then sends + 1 else old(mailbox.currentDaySends)
    {
      match result {
        case Unauthorized => mailbox.health := Health.REVOKED;
        case Rejected =>
        case Delivered =>
          mails := mails + [k];
          mailbox.currentDaySends := sends + 1;
          pc := Recorded(k);
      }
    }

    // Write SENT and read the row back; a mail whose confirmation is refused counts as lost.
    method ConfirmSent()
      requires Valid()
      modifies this, lead
      ensures View() == AfterSent(old(View())) && Valid()
    {
      if pc.Recorded? {
        var k := pc.k;
        var ok, seen := lead.TransitionLeadState(copy, SENT);
        if ok {
          copy := seen;
          pc := Confirmed(k);
        } else {
          lost := lost + [k];
          pc := Idle;
        }
      }
    }

    // On to the next step; its number and time are rolled back with a refused move.
    method MoveOn(at: int) returns (ok: bool)
      modifies lead
      ensures var r := old(lead.Value());
              var moved := Write(r.(step := r.step + 1, nextAt := Some(at)), copy, WAITING);
              ok == moved.Some? && lead.Value() == match moved case Some(r') => r' case None => r
    {
      var step, nextAt := lead.currentStepNumber, lead.nextActionAt;
      lead.currentStepNumber := step + 1;
      lead.nextActionAt := Some(at);
      var seen;
      ok, seen := lead.TransitionLeadState(copy, WAITING);
      if !ok {
        lead.currentStepNumber := step;
        lead.nextActionAt := nextAt;
      }
    }

    method Complete() returns (ok: bool)
      modifies lead
      ensures var r := old(lead.Value());
              var moved := Write(r.(nextAt := None), copy, COMPLETED);
              ok == moved.Some? && lead.Value() == match moved case Some(r') => r' case None => r
    {
      var nextAt := lead.nextActionAt;
      lead.nextActionAt := None;
      var seen;
      ok, seen := lead.TransitionLeadState(copy, COMPLETED);
      if !ok {
        lead.nextActionAt := nextAt;
      }
    }

    method MoveOrComplete(defined: set<int>, at: int) returns (ok: bool)
      modifies lead
      ensures var moved := AdvanceMove(defined, old(lead.Value()), copy, at);
              ok == moved.Some? && lead.Value() == match moved case Some(r) => r case None => old(lead.Value())
    {
      if lead.currentStepNumber + 1 in defined {
        ok := MoveOn(at);
      } else {
        ok := Complete();
      }
    }

    method AdvanceStep(defined: set<int>, at: int)
      requires Valid()
      modifies this, lead
      ensures View() == ApplyAdvance(defined, old(View()), at) && Valid()
    {
      if pc.Confirmed? {
        var ok := MoveOrComplete(defined, at);
        pc := Idle;
        if ok {
          Done();
        }
      }
    }

    method LoadAndWrite(defined: set<int>, running: bool, mailbox: bool, draft: Draft)
      requires pc.Idle?
      modifies this, lead
      ensures View() == AfterDecision(ApplyStart(defined, old(View()), running, old(CheckerRaises()), mailbox, draft))
      ensures Valid()
    {
      Load(defined, running, mailbox, draft);
      WriteDecision();
    }

    method Settle(defined: set<int>, at: int)
      requires Valid()
      modifies this, lead
      ensures View() == ApplyAdvance(defined, AfterSent(old(View())), at) && Valid()
    {
      ConfirmSent();
      AdvanceStep(defined, at);
    }

    // One delivery that nothing interrupts is a run of the step system.
    method Deliver(defined: set<int>, running: bool, draft: Draft, mailbox: Mailbox?, locked: bool,
                   credentials: bool, result: SendResult, at: int)
      requires pc.Idle?
      modifies this, lead, mailbox
      ensures View() == Run(defined, old(View()),
                            [Start(running, old(CheckerRaises()), mailbox != null, draft), Prepare, Refresh]
                            + [Gate(locked && mailbox != null && mailbox.MaySend(old(mailbox.Shown())) && credentials),
                               Send(result == Delivered), Record]
                            + [Confirm, Refresh, Advance(at)])
      // It mails exactly if everything the task and the send service ask for is so.
      ensures mails == old(mails)
              + if running && !S.Blocked(old(store.Value()), Norm(email)) && old(lead.currentStepNumber) in defined
                   && draft == Sendable && old(lead.state) in {QUEUED, WAITING, READY, LeadState.PAUSED}
                   && mailbox != null && old(mailbox.health) in {HEALTHY, WARMUP}
                   && old(mailbox.currentDaySends) < mailbox.dailySendLimit
                   && locked && credentials && result == Delivered
                then [old(lead.currentStepNumber)] else []
    {
      ghost var start := Start(running, CheckerRaises(), mailbox != null, draft);
      var quota := if mailbox == null then Quota(Health.REVOKED, 0) else mailbox.Shown();
      ghost var open := locked && mailbox != null && mailbox.MaySend(quota) && credentials;
      DeliveryIsRun(defined, View(), start, open, result == Delivered, at);
      DeliveryMails(defined, View(), start, open, result == Delivered, at);
      LoadAndWrite(defined, running, mailbox != null, draft);
      Dispatch(mailbox, quota, locked, credentials, result);
      Settle(defined, at);
    }
  }

  function AfterDecision(e: Enrolment): Enrolment { ApplyRefresh(ApplyPrepare(e)) }

  function AfterSent(e: Enrolment): Enrolment { ApplyRefresh(ApplyConfirm(e)) }

  // From the decision on.
  function Rest(defined: set<int>, loaded: Enrolment, open: bool, accepted: bool, at: int): Enrolment {
    ApplyAdvance(defined, AfterSent(Dispatched(AfterDecision(loaded), open, accepted)), at)
  }

  // From the gate to the message row.
  function Dispatched(e: Enrolment, open: bool, accepted: bool): Enrolment {
    if !e.pc.Prepared? then e
    else if open && !e.suppressed && accepted then e.(pc := Recorded(e.pc.k), mails := e.mails + [e.pc.k])
    else Fail(e)
  }

  lemma {:induction false} DispatchIsRun(defined: set<int>, e: Enrolment, open: bool, accepted: bool)
    requires e.pc.Idle? || e.pc.Prepared?
    ensures Run(defined, e, [Gate(open), Send(accepted), Record]) == Dispatched(e, open, accepted)
  {
    RunThree(defined, e, Gate(open), Send(accepted), Record);
  }

  lemma {:induction false} LoadIsRun(defined: set<int>, e: Enrolment, start: Step)
    requires start.Start? && e.pc.Idle?
    ensures var e' := AfterDecision(ApplyStart(defined, e, start.running, start.raises, start.mailbox, start.draft));
            Run(defined, e, [start, Prepare, Refresh]) == e' && (e'.pc.Idle? || e'.pc.Prepared?)
  {
    RunThree(defined, e, start, Prepare, Refresh);
  }

  lemma {:induction false} SettleIsRun(defined: set<int>, e: Enrolment, at: int)
    ensures Run(defined, e, [Confirm, Refresh, Advance(at)]) == ApplyAdvance(defined, AfterSent(e), at)
  {
    RunThree(defined, e, Confirm, Refresh, Advance(at));
  }

  lemma {:induction false} RunInThree(defined: set<int>, e: Enrolment, a: seq<Step>, b: seq<Step>, c: seq<Step>)
    ensures Run(defined, e, a + b + c) == Run(defined, Run(defined, Run(defined, e, a), b), c)
  {
    RunConcat(defined, e, a + b, c);
    RunConcat(defined, e, a, b);
  }

  lemma {:induction false} DeliveryIsRun(defined: set<int>, e: Enrolment, start: Step, open: bool, accepted: bool, at: int)
    requires start.Start? && e.pc.Idle?
    ensures Run(defined, e, [start, Prepare, Refresh] + [Gate(open), Send(accepted), Record]
                            + [Confirm, Refresh, Advance(at)])
         == Rest(defined, ApplyStart(defined, e, start.running, start.raises, start.mailbox, start.draft),
                 open, accepted, at)
  {
    var a, b, c := [start, Prepare, Refresh], [Gate(open), Send(accepted), Record], [Confirm, Refresh, Advance(at)];
    LoadIsRun(defined, e, start);
    var e1 := Run(defined, e, a);
    DispatchIsRun(defined, e1, open, accepted);
    SettleIsRun(defined, Run(defined, e1, b), at);
    RunInThree(defined, e, a, b, c);
  }

  lemma {:induction false} DeliveryMails(defined: set<int>, e: Enrolment, start: Step, open: bool, accepted: bool, at: int)
    requires start.Start? && e.pc.Idle?
    ensures Run(defined, e, [start, Prepare, Refresh] + [Gate(open), Send(accepted), Record]
                            + [Confirm, Refresh, Advance(at)]).mails
         == e.mails + if start.running && !e.suppressed && e.row.step in defined && start.mailbox
                         && start.draft == Sendable && D.Mailable(e.row.state) && open && accepted
                      then [e.row.step] else []
  {
    D.DeliveryMailsExactly(defined, e, start.running, start.raises, start.mailbox, start.draft, open, accepted, at);
    var a, b, c := [start, Prepare, Refresh], [Gate(open), Send(accepted), Record], [Confirm, Refresh, Advance(at)];
    assert a + b + c == a + (b + c);
  }

  // ----- Handlers that visit all enrolments of one lead -----

  ghost predicate Distinct(leads: seq<CampaignLead>) {
    forall i, j | 0 <= i < j < |leads| :: leads[i] != leads[j]
  }

  // Booking writes the state directly, past the table, in the transaction that reads it.
  method HaltForMeeting(leads: seq<CampaignLead>)
    requires Distinct(leads)
    modifies leads
    ensures forall l <- leads :: l.Value() == BookRow(old(l.Value()))
  {
    for i := 0 to |leads|
      invariant forall j | 0 <= j < i :: leads[j].Value() == BookRow(old(leads[j].Value()))
      invariant forall j | i <= j < |leads| :: leads[j].Value() == old(leads[j].Value())
    {
      var s := leads[i].state;
      if s.QUEUED? || s.WAITING? || s.READY? || s.SENT? || s.REPLIED? || s.PAUSED? {
        leads[i].state := MEETING_BOOKED;
      }
    }
  }

  predicate ReplyRefused(reply: Reply, seen: LeadState) {
    match ReplyTarget(reply, seen) case Some(to) => !Permits(seen, to) case None => false
  }

  // Whether anything the handler wrote is ever committed: the first move that goes through commits
  // everything before it, and so does the end of the handler.  seen lists the states the handler's session
  // read when it selected the enrolments.
  function Commits(reply: Reply, seen: seq<LeadState>): bool {
    seen == []
    || (!ReplyRefused(reply, seen[0]) && (ReplyTarget(reply, seen[0]).Some? || Commits(reply, seen[1..])))
  }

  // Whatever else stands with the enrolment, a handler that saw this state takes its row from r to r'.
  ghost predicate StepsTo(reply: Reply, seen: LeadState, r: Row, r': Row) {
    forall defined: set<int>, e: Enrolment, i: nat | e.row == r && Handles(e, i) && e.replies[i] == Some(seen) ::
      Apply(defined, e, Inbound(i, reply)).row == r'
  }

  // Handling one enrolment is a step of the step system; an opt-out that goes through suppresses.
  lemma {:induction false} ReplyIsStep(defined: set<int>, e: Enrolment, i: nat, reply: Reply)
    requires Handles(e, i)
    ensures var seen, e' := e.replies[i].value, Apply(defined, e, Inbound(i, reply));
            && e'.row == ReplyRow(e.row, seen, reply)
            && e' == e.(row := e'.row, replies := e.replies[i := None], suppressed := e'.suppressed)
            && e'.suppressed
               == (e.suppressed || (reply.OptOut? && ReplyTarget(reply, seen).Some? && !ReplyRefused(reply, seen)))
  {
  }

  lemma {:induction false} ReplyStepsTo(reply: Reply, seen: LeadState, r: Row)
    ensures StepsTo(reply, seen, r, ReplyRow(r, seen, reply))
  {
    forall defined: set<int>, e: Enrolment, i: nat | e.row == r && Handles(e, i) && e.replies[i] == Some(seen)
      ensures Apply(defined, e, Inbound(i, reply)).row == ReplyRow(r, seen, reply)
    {
      ReplyIsStep(defined, e, i, reply);
    }
  }

  // n is how many enrolments were handled before the first refusal; a refusal is an exception that
  // abandons the rest, while the earlier moves stay committed.
  method HandleReply(leads: seq<CampaignLead>, seen: seq<LeadState>, reply: Reply) returns (n: nat, committed: bool)
    requires Distinct(leads) && |seen| == |leads|
    modifies leads
    ensures n <= |leads|
    ensures forall j | 0 <= j < n ::
              !ReplyRefused(reply, seen[j]) && leads[j].Value() == ReplyRow(old(leads[j].Value()), seen[j], reply)
    ensures forall j | 0 <= j < n :: StepsTo(reply, seen[j], old(leads[j].Value()), leads[j].Value())
    ensures n < |leads| ==> ReplyRefused(reply, seen[n])
    ensures forall j | n <= j < |leads| :: leads[j].Value() == old(leads[j].Value())
    ensures committed == Commits(reply, seen)
  {
    n, committed := MoveAll(leads, seen, reply);
    forall j | 0 <= j < n
      ensures StepsTo(reply, seen[j], old(leads[j].Value()), leads[j].Value())
    {
      ReplyStepsTo(reply, seen[j], old(leads[j].Value()));
    }
  }

  // One enrolment of the handler's loop.
  method HandleOne(lead: CampaignLead, seen: LeadState, reply: Reply) returns (ok: bool, moved: bool)
    modifies lead
    ensures ok == !ReplyRefused(reply, seen)
    ensures lead.Value() == ReplyRow(old(lead.Value()), seen, reply)
    ensures !ok ==> lead.Value() == old(lead.Value())
    ensures moved == (ok && ReplyTarget(reply, seen).Some?)
  {
    var target := ReplyTarget(reply, seen);
    if target.None? {
      return true, false;
    }
    var copy;
    ok, copy := lead.TransitionLeadState(seen, target.value);
    moved := ok;
  }

  method MoveAll(leads: seq<CampaignLead>, seen: seq<LeadState>, reply: Reply) returns (n: nat, committed: bool)
    requires Distinct(leads) && |seen| == |leads|
    modifies leads
    ensures n <= |leads|
    ensures forall j | 0 <= j < n ::
              !ReplyRefused(reply, seen[j]) && leads[j].Value() == ReplyRow(old(leads[j].Value()), seen[j], reply)
    ensures n < |leads| ==> ReplyRefused(reply, seen[n])
    ensures forall j | n <= j < |leads| :: leads[j].Value() == old(leads[j].Value())
    ensures committed == Commits(reply, seen)
  {
    n := 0;
    committed := false;
    while n < |leads|
      invariant n <= |leads|
      invariant forall j | 0 <= j < n ::
                  !ReplyRefused(reply, seen[j]) && leads[j].Value() == ReplyRow(old(leads[j].Value()), seen[j], reply)
      invariant forall j | n <= j < |leads| :: leads[j].Value() == old(leads[j].Value())
      invariant Commits(reply, seen) == (committed || Commits(reply, seen[n..]))
    {
      CommitsNext(reply, seen, n);
      var ok, moved := HandleOne(leads[n], seen[n], reply);
      if !ok {
        return;
      }
      committed := committed || moved;
      n := n + 1;
    }
    committed := true;
  }

  lemma {:induction false} CommitsNext(reply: Reply, seen: seq<LeadState>, n: nat)
    requires n < |seen|
    ensures Commits(reply, seen[n..]) ==
            (!ReplyRefused(reply, seen[n])
             && (ReplyTarget(reply, seen[n]).Some? || Commits(reply, seen[n + 1..])))
  {
    assert seen[n..][0] == seen[n] && seen[n..][1..] == seen[n + 1..];
  }

  // The whole handler of an inbound mail, as far as it writes: sender, suppression and enrolments are
  // committed together or not at all.
  method ProcessInbound(store: S.Store, sender: string, leads: seq<CampaignLead>, seen: seq<LeadState>, reply: Reply)
    returns (n: nat, committed: bool)
    requires Distinct(leads) && |seen| == |leads|
    modifies store, leads
    ensures committed == ('@' in Norm(sender) && Commits(reply, seen))
    ensures store.Value() == if committed then S.InboundDb(old(store.Value()), sender, reply.OptOut?)
                             else old(store.Value())
    ensures n <= |leads| && ('@' !in Norm(sender) ==> n == 0)
    ensures forall j | 0 <= j < n :: StepsTo(reply, seen[j], old(leads[j].Value()), leads[j].Value())
    ensures forall j | n <= j < |leads| :: leads[j].Value() == old(leads[j].Value())
  {
    if '@' !in Norm(sender) {
      return 0, false;
    }
    n, committed := HandleReply(leads, seen, reply);
    if committed {
      store.InterceptInbound(sender, reply.OptOut?);
    }
  }

  predicate HasStoppedOtherwise(s: LeadState) {
    s.BOUNCED? || s.MEETING_BOOKED? || s.QUALIFIED? || s.DISQUALIFIED? || s.HANDOFF?
  }

  // Enrolment i has been stopped for another reason than the lead's wish, and is the first that an
  // opt-out has to deal with.
  predicate StoppedOtherwise(seen: seq<LeadState>, i: nat) {
    && i < |seen| && HasStoppedOtherwise(seen[i])
    && forall j | 0 <= j < i :: (seen[j].UNSUBSCRIBED? || seen[j].COMPLETED?)
  }

  // Exactly then the opt-out is lost, and its entry in the suppression list with it.
  lemma {:induction false} OptOutLostExactly(seen: seq<LeadState>)
    ensures !Commits(OptOut, seen) <==> exists i: nat :: StoppedOtherwise(seen, i)
  {
    if seen != [] {
      var rest := seen[1..];
      OptOutLostExactly(rest);
      ReplyRefusedExactly(OptOut, seen[0]);
      if (seen[0].UNSUBSCRIBED? || seen[0].COMPLETED?) {
        forall i: nat
          ensures StoppedOtherwise(rest, i) <==> StoppedOtherwise(seen, i + 1)
        {
          assert forall j | 0 < j < |seen| :: seen[j] == rest[j - 1];
          assert forall j | 0 <= j < |rest| :: rest[j] == seen[j + 1];
        }
        assert forall i: nat :: StoppedOtherwise(seen, i) ==> i > 0 && StoppedOtherwise(rest, i - 1);
      } else {
        assert StoppedOtherwise(seen, 0) <==> ReplyRefused(OptOut, seen[0]);
      }
    }
  }

  // Which states abort the handler: a reply from a lead still QUEUED, or an opt-out that meets an
  // enrolment already stopped for another reason.
  lemma {:induction false} ReplyRefusedExactly(reply: Reply, seen: LeadState)
    ensures ReplyRefused(reply, seen) <==>
            || (reply.OptOut? && HasStoppedOtherwise(seen))
            || ((reply.NotInterested? || reply.Interested?) && seen == QUEUED)
  {
    if reply.OptOut? && !(seen.UNSUBSCRIBED? || seen.COMPLETED?) {
      assert CanTransition(seen, UNSUBSCRIBED) <==> !HasStoppedOtherwise(seen);
    }
  }
}
