/**
Undisturbed deliveries of the send task, and the runs that show the bounds on mails and events are met.
*/
module CleanRuns {
  import opened Options
  import opened LeadStates
  import opened Sequences

  // The task can mail the row's step.
  predicate Open(defined: set<int>, e: Enrolment) {
    e.pc.Idle? && !e.suppressed && IsPending(e.row) && e.row.step in defined
  }

  function Load(): seq<Step> { [Start(true, false, true, Sendable), Prepare, Refresh] }

  function Dispatch(): seq<Step> { [Gate(true), Send(true), Record] }

  function Stamp(): seq<Step> { [Confirm, Refresh] }

  // The task from its start to SENT, nothing failing.
  function UpToMail(): seq<Step> { Load() + Dispatch() + Stamp() }

  // The row after READY and SENT, written with nothing in between.
  function SentRow(r: Row): Row { WriteOrStay(WriteOrStay(r, r.state, READY), READY, SENT) }

  lemma {:induction false} CleanLoad(defined: set<int>, e: Enrolment)
    requires Open(defined, e)
    ensures Run(defined, e, Load())
         == e.(row := WriteOrStay(e.row, e.row.state, READY), copy := READY, pc := Prepared(e.row.step))
  {
    RunThree(defined, e, Start(true, false, true, Sendable), Prepare, Refresh);
  }

  lemma {:induction false} CleanDispatch(defined: set<int>, e: Enrolment)
    requires e.pc.Prepared? && !e.suppressed
    ensures Run(defined, e, Dispatch()) == e.(pc := Recorded(e.pc.k), mails := e.mails + [e.pc.k])
  {
    RunThree(defined, e, Gate(true), Send(true), Record);
  }

  lemma {:induction false} CleanStamp(defined: set<int>, e: Enrolment)
    requires e.pc.Recorded? && e.copy == READY
    ensures Run(defined, e, Stamp()) == e.(row := WriteOrStay(e.row, READY, SENT), copy := SENT, pc := Confirmed(e.pc.k))
  {
    RunTwo(defined, e, Confirm, Refresh);
  }

  lemma {:induction false} CleanSend(defined: set<int>, e: Enrolment)
    requires Open(defined, e)
    ensures Run(defined, e, UpToMail())
         == e.(row := SentRow(e.row), copy := SENT, pc := Confirmed(e.row.step), mails := e.mails + [e.row.step])
  {
    CleanLoad(defined, e);
    var e1 := Run(defined, e, Load());
    CleanDispatch(defined, e1);
    CleanStamp(defined, Run(defined, e1, Dispatch()));
    RunConcat(defined, e, Load(), Dispatch());
    RunConcat(defined, e, Load() + Dispatch(), Stamp());
  }

  lemma {:induction false} CleanAdvance(defined: set<int>, e: Enrolment, at: int)
    requires e.pc.Confirmed? && e.copy == SENT
    ensures var e' := Run(defined, e, [Advance(at)]);
            && e'.row == AdvanceRow(defined, e.row, SENT, at) && e' == Finish(e.(row := e'.row))
  {
    RunOne(defined, e, Advance(at));
  }

  // An undisturbed task mails its step once and leaves the row waiting for the next one, or completed.
  lemma {:induction false} CleanTask(defined: set<int>, e: Enrolment, at: int)
    requires Open(defined, e)
    ensures var e' := Run(defined, e, UpToMail() + [Advance(at)]);
            && e'.mails == e.mails + [e.row.step] && e'.pc.Idle?
            && (if e.row.step + 1 in defined
                then e'.row.state == WAITING && e'.row.step == e.row.step + 1 && e'.row.nextAt == Some(at)
                else e'.row.state == COMPLETED && e'.row.step == e.row.step && e'.row.nextAt == None)
            && |e'.row.events| == |e.row.events| + (if e.row.state == READY then 2 else 3)
            && e'.lost == e.lost && e'.revived == e.revived && !e'.suppressed
            && e'.claims == e.claims && e'.replies == e.replies
            && e'.deliveries == if e.deliveries > 0 then e.deliveries - 1 else 0
  {
    CleanSend(defined, e);
    var mail := UpToMail();
    CleanAdvance(defined, Run(defined, e, mail), at);
    RunConcat(defined, e, mail, [Advance(at)]);
  }

  function FirstSteps(k: nat): seq<Step> {
    if k == 0 then [] else FirstSteps(k - 1) + (UpToMail() + [Advance(0)])
  }

  // Before its first claim, or waiting for a time that has come.
  predicate Fresh(defined: set<int>, e: Enrolment) {
    && Open(defined, e) && e.row.state != READY && IsDue(e.row, 0)
    && Replay(e.row.events) == e.row.state && Breaks(e.row.events) == 0
  }

  // A move from the state of the row, where the trail ends too.
  lemma {:induction false} FreshMove(r: Row, to: LeadState)
    requires Replay(r.events) == r.state && r.state != to && CanTransition(r.state, to)
    ensures var r' := WriteOrStay(r, r.state, to);
            && r'.state == to && Replay(r'.events) == to && r'.step == r.step
            && |r'.events| == |r.events| + 1 && Breaks(r'.events) == Breaks(r.events)
  {
    BreaksExtend(r.events, StateTransition(r.state, to));
  }

  // READY is written unless the row says so already, then SENT.
  lemma {:induction false} SentRowEvents(r: Row)
    requires Replay(r.events) == r.state && IsPending(r)
    ensures var r' := SentRow(r);
            && r'.state == SENT && Replay(r'.events) == SENT && r'.step == r.step
            && |r'.events| == |r.events| + (if r.state == READY then 1 else 2) && Breaks(r'.events) == Breaks(r.events)
  {
    if r.state != READY {
      FreshMove(r, READY);
    }
    FreshMove(WriteOrStay(r, r.state, READY), SENT);
  }

  predicate FreshlySent(e: Enrolment) {
    && e.pc.Confirmed? && e.copy == SENT && !e.suppressed
    && e.row.state == SENT && Replay(e.row.events) == SENT && Breaks(e.row.events) == 0
  }

  lemma {:induction false} MailIsFresh(defined: set<int>, e: Enrolment)
    requires Fresh(defined, e)
    ensures FreshlySent(Run(defined, e, UpToMail())) && Run(defined, e, UpToMail()).row.step == e.row.step
  {
    CleanSend(defined, e);
    SentRowEvents(e.row);
  }

  lemma {:induction false} AdvanceIsFresh(defined: set<int>, e: Enrolment)
    requires FreshlySent(e) && e.row.step + 1 in defined
    ensures Fresh(defined, Apply(defined, e, Advance(0)))
  {
    FreshMove(e.row.(step := e.row.step + 1, nextAt := Some(0)), WAITING);
  }

  lemma {:induction false} SentThenFresh(defined: set<int>, e: Enrolment, mail: seq<Step>)
    requires FreshlySent(Run(defined, e, mail)) && Run(defined, e, mail).row.step + 1 in defined
    ensures Fresh(defined, Run(defined, e, mail + [Advance(0)]))
  {
    AdvanceIsFresh(defined, Run(defined, e, mail));
    RunThenOne(defined, e, mail, Advance(0));
  }

  lemma {:induction false} NextIsFresh(defined: set<int>, e: Enrolment)
    requires Fresh(defined, e) && e.row.step + 1 in defined
    ensures Fresh(defined, Run(defined, e, UpToMail() + [Advance(0)]))
  {
    MailIsFresh(defined, e);
    SentThenFresh(defined, e, UpToMail());
  }

  lemma {:induction false} FirstStepsMailed(defined: set<int>, n: nat, k: nat)
    requires StepsDefined(defined, n) && k < n
    ensures var e := Run(defined, Enrol(), FirstSteps(k));
            && Fresh(defined, e) && e.row.step == k + 1 && |e.row.events| == 3 * k
            && e.mails == seq(k, i => i + 1) && e.lost == [] && e.revived == []
            && e.claims == Claims(0, 0) && e.replies == []
    decreases k
  {
    if k > 0 {
      FirstStepsMailed(defined, n, k - 1);
      var e := Run(defined, Enrol(), FirstSteps(k - 1));
      CleanTask(defined, e, 0);
      NextIsFresh(defined, e);
      RunConcat(defined, Enrol(), FirstSteps(k - 1), UpToMail() + [Advance(0)]);
      assert seq(k - 1, i => i + 1) + [k] == seq(k, i => i + 1);
    }
  }

  // ----- The bound on mails is attained -----

  function ClaimTimes(b: nat): seq<Step> { if b == 0 then [] else [Claim(true, 0)] + ClaimTimes(b - 1) }

  function ClaimedTimes(c: Claims, seen: LeadState, b: nat): Claims {
    if seen.QUEUED? then c.(queued := c.queued + b) else c.(waiting := c.waiting + b)
  }

  lemma {:induction false} ClaimsAdd(defined: set<int>, e: Enrolment, b: nat)
    requires IsDue(e.row, 0)
    ensures Run(defined, e, ClaimTimes(b)) == e.(claims := ClaimedTimes(e.claims, e.row.state, b))
    decreases b
  {
    if b > 0 {
      assert ClaimTimes(b)[1..] == ClaimTimes(b - 1);
      ClaimsAdd(defined, Apply(defined, e, Claim(true, 0)), b - 1);
    }
  }

  function Repeated(cycle: seq<Step>, n: nat): seq<Step> { if n == 0 then [] else cycle + Repeated(cycle, n - 1) }

  function Times(k: int, n: nat): seq<int> { seq(n, _ => k) }

  lemma {:induction false} TimesNone(s: seq<int>, k: int)
    ensures s + Times(k, 0) == s
  {
  }

  lemma {:induction false} TimesNext(s: seq<int>, s1: seq<int>, s2: seq<int>, k: int, n: nat)
    requires s1 == s + [k] && s2 == s1 + Times(k, n)
    ensures s2 == s + Times(k, n + 1)
  {
    assert [k] + Times(k, n) == Times(k, n + 1);
  }

  // The provider accepts and the task dies.
  function DeadSend(): seq<Step> { Load() + [Gate(true), Send(true), Die] }

  lemma {:induction false} DeadSendRepeats(defined: set<int>, e: Enrolment)
    requires Open(defined, e)
    ensures Run(defined, e, DeadSend())
         == e.(row := WriteOrStay(e.row, e.row.state, READY), copy := READY,
               mails := e.mails + [e.row.step], lost := e.lost + [e.row.step])
  {
    CleanLoad(defined, e);
    RunConcat(defined, e, Load(), [Gate(true), Send(true), Die]);
    RunThree(defined, Run(defined, e, Load()), Gate(true), Send(true), Die);
  }

  // A cycle that mails the step again and loses it, or revives it.
  ghost predicate Relosing(defined: set<int>, cycle: seq<Step>) {
    forall e: Enrolment {:trigger Run(defined, e, cycle)} | Open(defined, e) :: Relost(defined, e, Run(defined, e, cycle))
  }

  predicate Relost(defined: set<int>, e: Enrolment, e': Enrolment) {
    && Open(defined, e') && e'.row.step == e.row.step && e'.claims == e.claims && e'.revived == e.revived
    && e'.mails == e.mails + [e.row.step] && e'.lost == e.lost + [e.row.step]
  }

  lemma {:induction false} DeadSendIsRelosing(defined: set<int>)
    ensures Relosing(defined, DeadSend())
  {
    forall e: Enrolment | Open(defined, e)
      ensures Relost(defined, e, Run(defined, e, DeadSend()))
    {
      DeadSendRepeats(defined, e);
    }
  }

  predicate RelostTimes(defined: set<int>, e: Enrolment, e': Enrolment, n: nat) {
    && Open(defined, e') && e'.row.step == e.row.step && e'.claims == e.claims && e'.revived == e.revived
    && e'.mails == e.mails + Times(e.row.step, n) && e'.lost == e.lost + Times(e.row.step, n)
  }

  lemma {:induction false} RelostOnce(defined: set<int>, e: Enrolment, e1: Enrolment, e2: Enrolment, n: nat)
    requires Relost(defined, e, e1) && RelostTimes(defined, e1, e2, n)
    ensures RelostTimes(defined, e, e2, n + 1)
  {
    TimesNext(e.mails, e1.mails, e2.mails, e.row.step, n);
    TimesNext(e.lost, e1.lost, e2.lost, e.row.step, n);
  }

  lemma {:induction false} RelosingRepeats(defined: set<int>, e: Enrolment, cycle: seq<Step>, n: nat)
    requires Open(defined, e) && Relosing(defined, cycle)
    ensures RelostTimes(defined, e, Run(defined, e, Repeated(cycle, n)), n)
    decreases n
  {
    if n > 0 {
      var e1 := Run(defined, e, cycle);
      assert Relost(defined, e, e1);
      RelosingRepeats(defined, e1, cycle, n - 1);
      RunConcat(defined, e, cycle, Repeated(cycle, n - 1));
      RelostOnce(defined, e, e1, Run(defined, e1, Repeated(cycle, n - 1)), n - 1);
    } else {
      TimesNone(e.mails, e.row.step);
      TimesNone(e.lost, e.row.step);
    }
  }

  // A task that dies after SENT leaves the row where only a release from an old copy revives it.
  predicate Revivable(defined: set<int>, e: Enrolment) {
    e.pc.Idle? && !e.suppressed && e.row.state == SENT && e.row.step in defined && e.row.step in e.mails
  }

  function MailAndDie(): seq<Step> { UpToMail() + [Die] }

  lemma {:induction false} MailAndDieStrands(defined: set<int>, e: Enrolment)
    requires Open(defined, e)
    ensures var e' := Run(defined, e, MailAndDie());
            && Revivable(defined, e') && e'.row.step == e.row.step && e'.claims == e.claims
            && e'.mails == e.mails + [e.row.step] && e'.lost == e.lost && e'.revived == e.revived
  {
    CleanSend(defined, e);
    var e1 := Run(defined, e, UpToMail());
    RunConcat(defined, e, UpToMail(), [Die]);
    RunOne(defined, e1, Die);
  }

  function Revival(): seq<Step> { [Release(QUEUED)] + MailAndDie() }

  lemma {:induction false} Revive(defined: set<int>, e: Enrolment)
    requires Revivable(defined, e) && e.claims.queued > 0
    ensures var e' := Apply(defined, e, Release(QUEUED));
            && Open(defined, e') && e'.row.step == e.row.step && e'.claims.queued == e.claims.queued - 1
            && e'.mails == e.mails && e'.lost == e.lost && e'.revived == e.revived + [e.row.step]
  {
  }

  ghost predicate Reviving(defined: set<int>, cycle: seq<Step>) {
    forall e: Enrolment {:trigger Run(defined, e, cycle)} | Revivable(defined, e) && e.claims.queued > 0 ::
      Revived(defined, e, Run(defined, e, cycle))
  }

  predicate Revived(defined: set<int>, e: Enrolment, e': Enrolment) {
    && Revivable(defined, e') && e'.row.step == e.row.step && e'.claims.queued == e.claims.queued - 1
    && e'.mails == e.mails + [e.row.step] && e'.lost == e.lost && e'.revived == e.revived + [e.row.step]
  }

  lemma {:induction false} RevivalRepeats(defined: set<int>, e: Enrolment)
    requires Revivable(defined, e) && e.claims.queued > 0
    ensures Revived(defined, e, Run(defined, e, Revival()))
  {
    Revive(defined, e);
    RunOne(defined, e, Release(QUEUED));
    MailAndDieStrands(defined, Apply(defined, e, Release(QUEUED)));
    RunConcat(defined, e, [Release(QUEUED)], MailAndDie());
  }

  lemma {:induction false} RevivalIsReviving(defined: set<int>)
    ensures Reviving(defined, Revival())
  {
    forall e: Enrolment | Revivable(defined, e) && e.claims.queued > 0
      ensures Revived(defined, e, Run(defined, e, Revival()))
    {
      RevivalRepeats(defined, e);
    }
  }

  predicate RevivedTimes(e: Enrolment, e': Enrolment, m: nat) {
    && e'.mails == e.mails + Times(e.row.step, m) && e'.revived == e.revived + Times(e.row.step, m)
    && e'.lost == e.lost
  }

  lemma {:induction false} RevivedOnce(defined: set<int>, e: Enrolment, e1: Enrolment, e2: Enrolment, m: nat)
    requires Revived(defined, e, e1) && RevivedTimes(e1, e2, m)
    ensures RevivedTimes(e, e2, m + 1)
  {
    TimesNext(e.mails, e1.mails, e2.mails, e.row.step, m);
    TimesNext(e.revived, e1.revived, e2.revived, e.row.step, m);
  }

  lemma {:induction false} RevivingRepeats(defined: set<int>, e: Enrolment, cycle: seq<Step>, m: nat)
    requires Revivable(defined, e) && Reviving(defined, cycle) && e.claims.queued == m
    ensures RevivedTimes(e, Run(defined, e, Repeated(cycle, m)), m)
    decreases m
  {
    if m > 0 {
      var e1 := Run(defined, e, cycle);
      assert Revived(defined, e, e1);
      RevivingRepeats(defined, e1, cycle, m - 1);
      RunConcat(defined, e, cycle, Repeated(cycle, m - 1));
      RevivedOnce(defined, e, e1, Run(defined, e1, Repeated(cycle, m - 1)), m - 1);
    } else {
      TimesNone(e.mails, e.row.step);
      TimesNone(e.revived, e.row.step);
    }
  }

  function ClaimAndDie(n: nat, m: nat): seq<Step> { ClaimTimes(m) + Repeated(DeadSend(), n) }

  lemma {:induction false} ClaimAndDieRepeats(defined: set<int>, n: nat, m: nat)
    requires 1 in defined
    ensures var e := Run(defined, Enrol(), ClaimAndDie(n, m));
            && Open(defined, e) && e.row.step == 1 && e.claims.queued == m
            && e.mails == Times(1, n) && e.lost == Times(1, n) && e.revived == []
  {
    ClaimsAdd(defined, Enrol(), m);
    DeadSendIsRelosing(defined);
    RelosingRepeats(defined, Run(defined, Enrol(), ClaimTimes(m)), DeadSend(), n);
    RunConcat(defined, Enrol(), ClaimTimes(m), Repeated(DeadSend(), n));
    assert [] + Times(1, n) == Times(1, n);
  }

  function Repeats(n: nat, m: nat): seq<Step> { ClaimAndDie(n, m) + (MailAndDie() + Repeated(Revival(), m)) }

  lemma {:induction false} StrandAndRevive(defined: set<int>, e: Enrolment, m: nat)
    requires Open(defined, e) && e.claims.queued == m
    ensures var e' := Run(defined, e, MailAndDie() + Repeated(Revival(), m));
            && e'.mails == e.mails + Times(e.row.step, m + 1) && e'.lost == e.lost
            && e'.revived == e.revived + Times(e.row.step, m)
  {
    MailAndDieStrands(defined, e);
    RevivalIsReviving(defined);
    var e1 := Run(defined, e, MailAndDie());
    RevivingRepeats(defined, e1, Revival(), m);
    RunConcat(defined, e, MailAndDie(), Repeated(Revival(), m));
    TimesNext(e.mails, e1.mails, Run(defined, e1, Repeated(Revival(), m)).mails, e.row.step, m);
  }

  // n deaths and m late releases make n + m + 1 mails of one step, for every n and m.
  lemma {:induction false} MailBoundAttained(defined: set<int>, n: nat, m: nat)
    requires 1 in defined
    ensures var e := Run(defined, Enrol(), Repeats(n, m));
            && e.mails == Times(1, n + m + 1) && e.lost == Times(1, n) && e.revived == Times(1, m)
  {
    ClaimAndDieRepeats(defined, n, m);
    StrandAndRevive(defined, Run(defined, Enrol(), ClaimAndDie(n, m)), m);
    RunConcat(defined, Enrol(), ClaimAndDie(n, m), MailAndDie() + Repeated(Revival(), m));
    assert Times(1, n) + Times(1, m + 1) == Times(1, n + m + 1) && [] + Times(1, m) == Times(1, m);
  }

  // ----- The bound on events is attained -----

  // A mail, a reply, and a stop for human review; handler is the number of the reply's handler.
  function Cycle(handler: nat): seq<Step> {
    UpToMail() + [Read, Inbound(handler, Interested), Die] + [Start(true, false, true, HeldForReview), Prepare]
  }

  lemma {:induction false} SentIsReplied(defined: set<int>, e: Enrolment)
    requires e.row.state == SENT && e.pc.Confirmed?
    ensures var e' := Run(defined, e, [Read, Inbound(|e.replies|, Interested), Die]);
            && e'.row == WriteOrStay(e.row, SENT, REPLIED) && e'.pc.Idle? && e'.claims == e.claims
            && !e'.suppressed == !e.suppressed
  {
    RunThree(defined, e, Read, Inbound(|e.replies|, Interested), Die);
  }

  lemma {:induction false} RepliedIsHanded(defined: set<int>, e: Enrolment)
    requires e.row.state == REPLIED && e.pc.Idle? && !e.suppressed && e.row.step in defined
    ensures var e' := Run(defined, e, [Start(true, false, true, HeldForReview), Prepare]);
            && e'.row == WriteOrStay(e.row, REPLIED, HANDOFF) && e'.pc.Idle? && e'.claims == e.claims && !e'.suppressed
  {
    RunTwo(defined, e, Start(true, false, true, HeldForReview), Prepare);
  }

  lemma {:induction false} CycleEvents(defined: set<int>, e: Enrolment)
    requires Open(defined, e) && Replay(e.row.events) == e.row.state
    ensures var e' := Run(defined, e, Cycle(|e.replies|));
            && e'.row.state == HANDOFF && Replay(e'.row.events) == HANDOFF && e'.row.step == e.row.step
            && |e'.row.events| == |e.row.events| + (if e.row.state == READY then 3 else 4)
            && Breaks(e'.row.events) == Breaks(e.row.events)
            && e'.pc.Idle? && e'.claims == e.claims && !e'.suppressed
  {
    var reply, halt := [Read, Inbound(|e.replies|, Interested), Die], [Start(true, false, true, HeldForReview), Prepare];
    CleanSend(defined, e);
    SentRowEvents(e.row);
    var e1 := Run(defined, e, UpToMail());
    FreshMove(e1.row, REPLIED);
    SentIsReplied(defined, e1);
    var e2 := Run(defined, e1, reply);
    FreshMove(e2.row, HANDOFF);
    RepliedIsHanded(defined, e2);
    RunConcat(defined, e, UpToMail(), reply);
    RunConcat(defined, e, UpToMail() + reply, halt);
  }

  predicate HandedOff(defined: set<int>, e: Enrolment) {
    && e.row.state == HANDOFF && Replay(e.row.events) == HANDOFF && e.row.step in defined
    && e.pc.Idle? && !e.suppressed
  }

  // A late release writes READY over the stop, and the cycle starts again.
  lemma {:induction false} ReleaseReopens(defined: set<int>, e: Enrolment, seen: LeadState)
    requires HandedOff(defined, e) && Holds(e.claims, seen)
    ensures var e' := Apply(defined, e, Release(seen));
            && Open(defined, e') && e'.row.state == READY && Replay(e'.row.events) == READY && e'.row.step == e.row.step
            && |e'.row.events| == |e.row.events| + 1 && Breaks(e'.row.events) == Breaks(e.row.events) + 1
            && e'.claims == Released(e.claims, seen) && e'.replies == e.replies
  {
    BreaksExtend(e.row.events, StateTransition(seen, READY));
  }

  lemma {:induction false} CyclesAttain(defined: set<int>, e: Enrolment, seen: LeadState, b: nat) returns (steps: seq<Step>)
    requires HandedOff(defined, e)
    requires (seen.QUEUED? && e.claims.queued == b) || (seen.WAITING? && e.claims.waiting == b)
    ensures var e' := Run(defined, e, steps);
            |e'.row.events| == |e.row.events| + 4 * b && Breaks(e'.row.events) == Breaks(e.row.events) + b
    decreases b
  {
    steps := [];
    if b > 0 {
      ReleaseReopens(defined, e, seen);
      RunOne(defined, e, Release(seen));
      var e1 := Apply(defined, e, Release(seen));
      CycleEvents(defined, e1);
      var e2 := Run(defined, e1, Cycle(|e.replies|));
      var rest := CyclesAttain(defined, e2, seen, b - 1);
      steps := [Release(seen)] + Cycle(|e.replies|) + rest;
      RunConcat(defined, e, [Release(seen)], Cycle(|e.replies|));
      RunConcat(defined, e, [Release(seen)] + Cycle(|e.replies|), rest);
    }
  }

  lemma {:induction false} FreshAttains(defined: set<int>, e: Enrolment, b: nat) returns (steps: seq<Step>)
    requires Fresh(defined, e) && e.claims == Claims(0, 0)
    ensures var e' := Run(defined, e, steps);
            |e'.row.events| == |e.row.events| + 4 + 4 * b && Breaks(e'.row.events) == b
  {
    ClaimsAdd(defined, e, b);
    var e1 := Run(defined, e, ClaimTimes(b));
    CycleEvents(defined, e1);
    var e2 := Run(defined, e1, Cycle(|e1.replies|));
    var rest := CyclesAttain(defined, e2, e.row.state, b);
    steps := ClaimTimes(b) + Cycle(|e1.replies|) + rest;
    RunConcat(defined, e, ClaimTimes(b), Cycle(|e1.replies|));
    RunConcat(defined, e, ClaimTimes(b) + Cycle(|e1.replies|), rest);
  }

  // ----- and without step 1 -----

  // A late release, and an opt-out from READY.
  function OptOutCycle(handler: nat): seq<Step> { [Release(QUEUED), Read, Inbound(handler, OptOut)] }

  function OptOutRow(r: Row): Row { WriteOrStay(WriteOrStay(r, QUEUED, READY), READY, UNSUBSCRIBED) }

  lemma {:induction false} OptOutCycleIs(defined: set<int>, e: Enrolment)
    requires e.claims.queued > 0
    ensures var e' := Run(defined, e, OptOutCycle(|e.replies|));
            e'.claims.queued == e.claims.queued - 1 && e'.row == OptOutRow(e.row)
  {
    RunThree(defined, e, Release(QUEUED), Read, Inbound(|e.replies|, OptOut));
  }

  lemma {:induction false} OptOutRowEvents(r: Row)
    ensures var r' := OptOutRow(r);
            && Replay(r'.events) == UNSUBSCRIBED && |r'.events| == |r.events| + 2
            && Breaks(r'.events) == Breaks(r.events) + if Replay(r.events) == QUEUED then 0 else 1
  {
    BreaksExtend(r.events, StateTransition(QUEUED, READY));
    BreaksExtend(r.events + [StateTransition(QUEUED, READY)], StateTransition(READY, UNSUBSCRIBED));
  }

  lemma {:induction false} OptOutCycles(defined: set<int>, e: Enrolment, b: nat) returns (steps: seq<Step>)
    requires e.claims.queued == b
    ensures var events := Run(defined, e, steps).row.events;
            && |events| == |e.row.events| + 2 * b
            && Breaks(events) == Breaks(e.row.events) + if Replay(e.row.events) == QUEUED && b > 0 then b - 1 else b
    decreases b
  {
    steps := [];
    if b > 0 {
      OptOutCycleIs(defined, e);
      OptOutRowEvents(e.row);
      var e1 := Run(defined, e, OptOutCycle(|e.replies|));
      var rest := OptOutCycles(defined, e1, b - 1);
      steps := OptOutCycle(|e.replies|) + rest;
      RunConcat(defined, e, OptOutCycle(|e.replies|), rest);
    }
  }

  lemma {:induction false} BareAttains(defined: set<int>, b: nat) returns (steps: seq<Step>)
    ensures var events := Run(defined, Enrol(), steps).row.events; |events| == 2 + 2 * b && Breaks(events) == b
  {
    ClaimsAdd(defined, Enrol(), b + 1);
    var e1 := Run(defined, Enrol(), ClaimTimes(b + 1));
    var rest := OptOutCycles(defined, e1, b + 1);
    steps := ClaimTimes(b + 1) + rest;
    RunConcat(defined, Enrol(), ClaimTimes(b + 1), rest);
  }

  lemma {:induction false} MailingAttains(defined: set<int>, n: nat, b: nat) returns (steps: seq<Step>)
    requires StepsDefined(defined, n) && n > 0
    ensures var events := Run(defined, Enrol(), steps).row.events; |events| == 3 * n + 1 + 4 * b && Breaks(events) == b
  {
    FirstStepsMailed(defined, n, n - 1);
    var rest := FreshAttains(defined, Run(defined, Enrol(), FirstSteps(n - 1)), b);
    steps := FirstSteps(n - 1) + rest;
    RunConcat(defined, Enrol(), FirstSteps(n - 1), rest);
  }

  // Some run emits exactly as many events as the bound admits, for every number of defined steps and of
  // moves made from a copy that is not current.
  lemma {:induction false} EventBoundAttained(defined: set<int>, n: nat, b: nat)
    requires StepsDefined(defined, n)
    ensures exists steps: seq<Step> ::
              && StaleWrites(defined, Enrol(), QUEUED, steps) == b
              && |Run(defined, Enrol(), steps).row.events| == if n == 0 then 2 + 2 * b else 3 * n + 1 + 4 * b
  {
    if n == 0 {
      var steps := BareAttains(defined, b);
      BreaksAreStaleWrites(defined, steps);
    } else {
      var steps := MailingAttains(defined, n, b);
      BreaksAreStaleWrites(defined, steps);
    }
  }
}
