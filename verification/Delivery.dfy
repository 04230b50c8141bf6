/**
One delivery for each release: when a mail goes out, and what becomes of a draft held for review.
*/
module Deliveries {
  import opened Options
  import opened LeadStates
  import opened Sequences
  import opened CleanRuns

  // The task starts only for a delivery that a release has queued; and, where claims are exclusive, a row
  // is claimed only while no other claim of it stands.
  predicate InOrder(exclusive: bool, e: Enrolment, step: Step) {
    && (exclusive && step.Claim? ==> Unclaimed(e.claims))
    && (step.Start? ==> e.deliveries > 0)
  }

  predicate Orderly(exclusive: bool, defined: set<int>, e: Enrolment, steps: seq<Step>)
    decreases |steps|
  {
    steps == []
    || (InOrder(exclusive, e, steps[0]) && Orderly(exclusive, defined, Apply(defined, e, steps[0]), steps[1..]))
  }

  lemma {:induction false} OrderlyConcat(exclusive: bool, defined: set<int>, e: Enrolment, a: seq<Step>, b: seq<Step>)
    ensures Orderly(exclusive, defined, e, a + b) <==>
            Orderly(exclusive, defined, e, a) && Orderly(exclusive, defined, Run(defined, e, a), b)
    decreases |a|
  {
    if a == [] {
      assert a + b == b;
    } else {
      assert (a + b)[1..] == a[1..] + b;
      OrderlyConcat(exclusive, defined, Apply(defined, e, a[0]), a[1..], b);
    }
  }

  lemma {:induction false} OrderlyOne(exclusive: bool, defined: set<int>, e: Enrolment, step: Step)
    ensures Orderly(exclusive, defined, e, [step]) <==> InOrder(exclusive, e, step)
  {
    assert [step][1..] == [];
  }

  lemma {:induction false} OrderlyTwo(exclusive: bool, defined: set<int>, e: Enrolment, a: Step, b: Step)
    ensures Orderly(exclusive, defined, e, [a, b]) <==>
            InOrder(exclusive, e, a) && InOrder(exclusive, Apply(defined, e, a), b)
  {
    assert [a, b][1..] == [b];
    OrderlyOne(exclusive, defined, Apply(defined, e, a), b);
  }

  lemma {:induction false} QuietIsOrderly(exclusive: bool, defined: set<int>, e: Enrolment, steps: seq<Step>)
    requires forall i | 0 <= i < |steps| :: !steps[i].Claim? && !steps[i].Start?
    ensures Orderly(exclusive, defined, e, steps)
    decreases |steps|
  {
    if steps != [] {
      assert forall i | 0 <= i < |steps[1..]| :: steps[1..][i] == steps[i + 1];
      QuietIsOrderly(exclusive, defined, Apply(defined, e, steps[0]), steps[1..]);
    }
  }

  lemma {:induction false} UpToMailIsOrderly(exclusive: bool, defined: set<int>, e: Enrolment)
    requires e.deliveries > 0
    ensures Orderly(exclusive, defined, e, UpToMail())
  {
    var rest := UpToMail()[1..];
    assert UpToMail()[0] == Start(true, false, true, Sendable);
    assert rest == [Prepare, Refresh] + Dispatch() + Stamp();
    assert forall i | 0 <= i < |rest| :: !rest[i].Claim? && !rest[i].Start?;
    QuietIsOrderly(exclusive, defined, Apply(defined, e, UpToMail()[0]), rest);
  }

  // There is never more than one claim or delivery, none of the latter for a row the scheduler may
  // claim, and no row is claimed whose step has been mailed.
  predicate OrderInv(e: Enrolment) {
    && e.claims.queued + e.claims.waiting + e.deliveries <= 1
    && (!e.pc.Idle? ==> e.deliveries == 1 && !e.copy.QUEUED? && !e.copy.WAITING?)
    && ((e.row.state.QUEUED? || e.row.state.WAITING?) ==> e.deliveries == 0)
    && (!Unclaimed(e.claims) || e.row.state.QUEUED? || e.row.state.WAITING? ==> e.row.step !in e.mails)
    && e.revived == []
  }

  predicate MailsUpToStep(e: Enrolment) { forall k <- e.mails :: k <= e.row.step }

  lemma {:induction false} TaskStepKeepsOrder(defined: set<int>, e: Enrolment, step: Step)
    requires PcInv(defined, e) && MailsUpToStep(e) && OrderInv(e) && InOrder(true, e, step) && IsTaskStep(step)
    ensures OrderInv(ApplyTask(defined, e, step))
  {
  }

  lemma {:induction false} OtherStepKeepsOrder(e: Enrolment, step: Step)
    requires OrderInv(e) && InOrder(true, e, step) && !IsTaskStep(step)
    ensures OrderInv(ApplyOther(e, step))
  {
  }

  lemma {:induction false} RunKeepsOrder(defined: set<int>, e: Enrolment, steps: seq<Step>)
    requires Inv(defined, e) && OrderInv(e) && Orderly(true, defined, e, steps)
    ensures OrderInv(Run(defined, e, steps))
    decreases |steps|
  {
    if steps != [] {
      StepKeepsOrder(defined, e, steps[0]);
      ApplyKeepsInv(defined, e, steps[0]);
      RunKeepsOrder(defined, Apply(defined, e, steps[0]), steps[1..]);
    }
  }

  lemma {:induction false} StepKeepsOrder(defined: set<int>, e: Enrolment, step: Step)
    requires Inv(defined, e) && OrderInv(e) && InOrder(true, e, step)
    ensures OrderInv(Apply(defined, e, step))
  {
    if IsTaskStep(step) {
      TaskStepKeepsOrder(defined, e, step);
    } else {
      OtherStepKeepsOrder(e, step);
    }
  }

  lemma {:induction false} FromEnrolmentInOrder(defined: set<int>, steps: seq<Step>)
    requires Orderly(true, defined, Enrol(), steps)
    ensures Inv(defined, Run(defined, Enrol(), steps)) && OrderInv(Run(defined, Enrol(), steps))
  {
    FromEnrolment(defined, []);
    RunKeepsOrder(defined, Enrol(), steps);
    FromEnrolment(defined, steps);
  }

  // Then no release revives a mailed step, and each step is mailed once and once more for every time the
  // task ended between the provider's acceptance and SENT.
  lemma {:induction false} OrderlyMailsOnceUnlessLost(defined: set<int>, steps: seq<Step>, k: int)
    requires Orderly(true, defined, Enrol(), steps)
    ensures var e := Run(defined, Enrol(), steps);
            multiset(e.mails)[k] <= 1 + multiset(e.lost)[k]
  {
    FromEnrolmentInOrder(defined, steps);
    MailedOnceUnlessLostOrRevived(defined, steps, k);
  }

  // ----- Waiting for the next send time -----

  predicate Waits(r: Row, at: int) { (r.state.QUEUED? || r.state.WAITING?) && r.nextAt == Some(at) }

  // Nothing is under way and, unless the sequence has been stopped, the next mail is due at a given time.
  predicate Held(e: Enrolment, at: int) {
    && Unclaimed(e.claims) && e.deliveries == 0 && e.pc.Idle?
    && (Waits(e.row, at) || e.row.state == REPLIED || IsTerminal(e.row.state))
  }

  // The scheduler looks no later than t.
  predicate LooksBy(steps: seq<Step>, t: int) {
    forall i | 0 <= i < |steps| && steps[i].Claim? :: steps[i].now <= t
  }

  lemma {:induction false} HeldStep(defined: set<int>, e: Enrolment, step: Step, at: int)
    requires Held(e, at) && InOrder(true, e, step) && (step.Claim? ==> step.now < at)
    ensures Held(Apply(defined, e, step), at) && Apply(defined, e, step).mails == e.mails
  {
  }

  // Until its time nothing mails a waiting enrolment.
  lemma {:induction false} HeldUntilDue(defined: set<int>, e: Enrolment, steps: seq<Step>, at: int, t: int)
    requires Held(e, at) && Orderly(true, defined, e, steps) && LooksBy(steps, t) && t < at
    ensures Held(Run(defined, e, steps), at) && Run(defined, e, steps).mails == e.mails
    decreases |steps|
  {
    if steps != [] {
      assert steps[0].Claim? ==> steps[0].now <= t;
      assert forall i | 0 <= i < |steps[1..]| :: steps[1..][i] == steps[i + 1];
      HeldStep(defined, e, steps[0], at);
      HeldUntilDue(defined, Apply(defined, e, steps[0]), steps[1..], at, t);
    }
  }

  // The claim, the release and the mail, nothing failing.
  function ClaimAndRelease(s: LeadState, at: int): seq<Step> { [Claim(true, at), Release(s)] }

  function ClaimAndMail(s: LeadState, at: int): seq<Step> { ClaimAndRelease(s, at) + UpToMail() }

  lemma {:induction false} DueIsClaimed(defined: set<int>, e: Enrolment, at: int)
    requires Held(e, at) && Waits(e.row, at)
    ensures Apply(defined, e, Claim(true, at)) == e.(claims := Claimed(e.claims, e.row.state))
    ensures Apply(defined, Apply(defined, e, Claim(true, at)), Release(e.row.state)).row
         == WriteOrStay(e.row, e.row.state, READY)
  {
  }

  predicate IsReleased(e: Enrolment, e': Enrolment) {
    && e'.row == WriteOrStay(e.row, e.row.state, READY) && e'.pc.Idle? && e'.deliveries == 1
    && e'.mails == e.mails && e'.suppressed == e.suppressed
  }

  lemma {:induction false} DueIsReleased(defined: set<int>, e: Enrolment, at: int)
    requires Held(e, at) && Waits(e.row, at)
    ensures Orderly(true, defined, e, ClaimAndRelease(e.row.state, at))
    ensures IsReleased(e, Run(defined, e, ClaimAndRelease(e.row.state, at)))
  {
    DueIsClaimed(defined, e, at);
    RunTwo(defined, e, Claim(true, at), Release(e.row.state));
    OrderlyTwo(true, defined, e, Claim(true, at), Release(e.row.state));
  }

  lemma {:induction false} DueIsMailed(defined: set<int>, e: Enrolment, at: int)
    requires Held(e, at) && Waits(e.row, at) && !e.suppressed && e.row.step in defined
    ensures Orderly(true, defined, e, ClaimAndMail(e.row.state, at))
    ensures Run(defined, e, ClaimAndMail(e.row.state, at)).mails == e.mails + [e.row.step]
  {
    var first := ClaimAndRelease(e.row.state, at);
    DueIsReleased(defined, e, at);
    var e1 := Run(defined, e, first);
    ReleasedIsMailed(defined, e, e1);
    RunConcat(defined, e, first, UpToMail());
    OrderlyConcat(true, defined, e, first, UpToMail());
  }

  lemma {:induction false} ReleasedIsMailed(defined: set<int>, e: Enrolment, e1: Enrolment)
    requires IsReleased(e, e1) && IsPending(e.row) && !e.suppressed && e.row.step in defined
    ensures Orderly(true, defined, e1, UpToMail()) && Run(defined, e1, UpToMail()).mails == e.mails + [e.row.step]
  {
    CleanSend(defined, e1);
    UpToMailIsOrderly(true, defined, e1);
  }

  lemma {:induction false} LooksOnce(s: LeadState, at: int, t: int)
    requires at <= t
    ensures LooksBy(ClaimAndMail(s, at), t)
  {
    assert forall i | 0 <= i < |UpToMail()| :: !UpToMail()[i].Claim?;
  }

  // With exclusive claims and one delivery for each release, a waiting enrolment can be mailed exactly
  // from its send time on.
  lemma {:induction false} MailedExactlyWhenDue(defined: set<int>, before: seq<Step>, at: int, t: int)
    requires Orderly(true, defined, Enrol(), before)
    ensures var e := Run(defined, Enrol(), before);
            Waits(e.row, at) && Unclaimed(e.claims) && !e.suppressed && e.row.step in defined ==>
              (at <= t <==> exists steps: seq<Step> ::
                 Orderly(true, defined, e, steps) && LooksBy(steps, t) && Run(defined, e, steps).mails != e.mails)
  {
    var e := Run(defined, Enrol(), before);
    FromEnrolmentInOrder(defined, before);
    if Waits(e.row, at) && Unclaimed(e.claims) && !e.suppressed && e.row.step in defined {
      if at <= t {
        DueIsMailed(defined, e, at);
        LooksOnce(e.row.state, at, t);
      } else {
        forall steps: seq<Step> | Orderly(true, defined, e, steps) && LooksBy(steps, t)
          ensures Run(defined, e, steps).mails == e.mails
        {
          HeldUntilDue(defined, e, steps, at, t);
        }
      }
    }
  }

  // ----- Two schedulers -----

  function TwoClaims(): seq<Step> { [Claim(true, 0), Claim(true, 0)] }

  function TwoReleases(): seq<Step> { [Release(QUEUED), Release(QUEUED)] }

  function ClaimedTwice(): seq<Step> { TwoClaims() + TwoReleases() }

  lemma {:induction false} ClaimsTwice(defined: set<int>)
    ensures Run(defined, Enrol(), TwoClaims()) == Enrol().(claims := Claims(2, 0))
    ensures Orderly(false, defined, Enrol(), TwoClaims())
  {
    RunTwo(defined, Enrol(), Claim(true, 0), Claim(true, 0));
    OrderlyTwo(false, defined, Enrol(), Claim(true, 0), Claim(true, 0));
  }

  lemma {:induction false} ReleasesTwice(defined: set<int>, e: Enrolment)
    requires e == Enrol().(claims := Claims(2, 0))
    ensures var e' := Run(defined, e, TwoReleases());
            e' == Enrol().(row := e'.row, deliveries := 2) && e'.row.state == READY && e'.row.step == 1
    ensures Orderly(false, defined, e, TwoReleases())
  {
    RunTwo(defined, e, Release(QUEUED), Release(QUEUED));
    OrderlyTwo(false, defined, e, Release(QUEUED), Release(QUEUED));
  }

  lemma {:induction false} ClaimedTwiceQueuesTwo(defined: set<int>)
    ensures Orderly(false, defined, Enrol(), ClaimedTwice())
    ensures var e := Run(defined, Enrol(), ClaimedTwice());
            e == Enrol().(row := e.row, deliveries := 2) && e.row.state == READY && e.row.step == 1
  {
    ClaimsTwice(defined);
    ReleasesTwice(defined, Run(defined, Enrol(), TwoClaims()));
    RunConcat(defined, Enrol(), TwoClaims(), TwoReleases());
    OrderlyConcat(false, defined, Enrol(), TwoClaims(), TwoReleases());
  }

  // A second queued delivery mails the next step at once: the task does not look at the time.
  lemma {:induction false} SecondDeliveryMails(defined: set<int>, e: Enrolment, at: int)
    requires Open(defined, e) && e.deliveries == 2 && e.row.step + 1 in defined
    ensures var steps := (UpToMail() + [Advance(at)]) + UpToMail();
            && Orderly(false, defined, e, steps)
            && Run(defined, e, steps).mails == e.mails + [e.row.step] + [e.row.step + 1]
  {
    var first := UpToMail() + [Advance(at)];
    CleanTask(defined, e, at);
    var e1 := Run(defined, e, first);
    CleanSend(defined, e1);
    RunConcat(defined, e, first, UpToMail());
    UpToMailIsOrderly(false, defined, e);
    QuietIsOrderly(false, defined, Run(defined, e, UpToMail()), [Advance(at)]);
    OrderlyConcat(false, defined, e, UpToMail(), [Advance(at)]);
    UpToMailIsOrderly(false, defined, e1);
    OrderlyConcat(false, defined, e, first, UpToMail());
  }

  // Two scheduler workers that both hold an enrolment before either releases it queue two deliveries, and
  // the second step is mailed however late it was put off to.  The scheduler's first commit gives up the
  // locks of its whole batch, so claims are not exclusive.
  lemma {:induction false} TwoSchedulersMailEarly(defined: set<int>, at: int)
    requires 1 in defined && 2 in defined
    ensures var steps := ClaimedTwice() + ((UpToMail() + [Advance(at)]) + UpToMail());
            && Orderly(false, defined, Enrol(), steps)
            && Run(defined, Enrol(), steps).mails == [1, 2]
  {
    ClaimedTwiceQueuesTwo(defined);
    var e := Run(defined, Enrol(), ClaimedTwice());
    var rest := (UpToMail() + [Advance(at)]) + UpToMail();
    SecondDeliveryMails(defined, e, at);
    RunConcat(defined, Enrol(), ClaimedTwice(), rest);
    OrderlyConcat(false, defined, Enrol(), ClaimedTwice(), rest);
  }

  // ----- The human-review halt -----

  // The halt takes effect exactly from these states of the task's copy; READY, which every release
  // writes, is not one.
  lemma {:induction false} ReviewHaltExactly(defined: set<int>, e: Enrolment)
    requires TaskInv(defined, e) && e.pc == Halting(HANDOFF)
    ensures Apply(defined, e, Prepare).row.state == HANDOFF <==>
              e.copy.WAITING? || e.copy.SENT? || e.copy.REPLIED? || e.row.state.HANDOFF?
    ensures e.copy == READY ==> Apply(defined, e, Prepare) == e.(pc := Idle)
  {
  }

  // With one delivery for each release that leaves only a restart of the task in SENT, or a reply.
  lemma {:induction false} ReviewHaltWhenOrderly(defined: set<int>, before: seq<Step>)
    requires Orderly(true, defined, Enrol(), before) && Run(defined, Enrol(), before).pc == Halting(HANDOFF)
    ensures var e := Run(defined, Enrol(), before);
            Apply(defined, e, Prepare).row.state == HANDOFF <==>
              e.copy.SENT? || e.copy.REPLIED? || e.row.state.HANDOFF?
  {
    FromEnrolmentInOrder(defined, before);
    ReviewHaltExactly(defined, Run(defined, Enrol(), before));
  }

  // A row in READY without a delivery, or one that was and has been stopped since.
  predicate Forgotten(e: Enrolment) {
    && Unclaimed(e.claims) && e.deliveries == 0 && e.pc.Idle?
    && (e.row.state.READY? || e.row.state.REPLIED? || IsTerminal(e.row.state))
  }

  lemma {:induction false} ForgottenStep(defined: set<int>, e: Enrolment, step: Step)
    requires Forgotten(e) && InOrder(true, e, step)
    ensures var e' := Apply(defined, e, step);
            Forgotten(e') && e'.mails == e.mails && e'.row.step == e.row.step
  {
  }

  // No claim picks such a row up again: it is never mailed, and only a reply or a booking moves it.
  lemma {:induction false} ForgottenStays(defined: set<int>, e: Enrolment, steps: seq<Step>)
    requires Forgotten(e) && Orderly(true, defined, e, steps)
    ensures var e' := Run(defined, e, steps);
            Forgotten(e') && e'.mails == e.mails && e'.row.step == e.row.step
    decreases |steps|
  {
    if steps != [] {
      ForgottenStep(defined, e, steps[0]);
      ForgottenStays(defined, Apply(defined, e, steps[0]), steps[1..]);
    }
  }

  // A release, a draft held for review, the refusal, and the retries given up.
  function Review(): seq<Step> { [Claim(true, 0), Release(QUEUED), Start(true, false, true, HeldForReview)] }

  function Refusal(): seq<Step> { [Prepare, GiveUp, GiveUp] }

  lemma {:induction false} ReviewIsRun(defined: set<int>)
    requires 1 in defined
    ensures var e := Run(defined, Enrol(), Review());
            && Orderly(true, defined, Enrol(), Review())
            && e.pc == Halting(HANDOFF) && e.copy == READY && e.row.state == READY
            && e.deliveries == 1 && Unclaimed(e.claims) && e.mails == []
  {
    var a := Review();
    RunThree(defined, Enrol(), a[0], a[1], a[2]);
    var e1 := Apply(defined, Enrol(), a[0]);
    var e2 := Apply(defined, e1, a[1]);
    assert a[1..] == [a[1], a[2]] && a[1..][1..] == [a[2]] && [a[2]][1..] == [];
    assert Orderly(true, defined, e2, [a[2]]);
    assert Orderly(true, defined, e1, a[1..]);
  }

  lemma {:induction false} RefusalForgets(defined: set<int>, e: Enrolment)
    requires e.pc == Halting(HANDOFF) && e.copy == READY && e.row.state == READY
    requires e.deliveries == 1 && Unclaimed(e.claims)
    ensures var e' := Run(defined, e, Refusal());
            Orderly(true, defined, e, Refusal()) && Forgotten(e') && e'.row.state == READY && e'.mails == e.mails
  {
    RunThree(defined, e, Prepare, GiveUp, GiveUp);
    QuietIsOrderly(true, defined, e, Refusal());
  }

  // The halt's refusal leads there, once the retries, which decide the same, are given up.
  lemma {:induction false} ReviewHaltForgets(defined: set<int>)
    requires 1 in defined
    ensures exists steps: seq<Step> ::
              var e := Run(defined, Enrol(), steps);
              Orderly(true, defined, Enrol(), steps) && Forgotten(e) && e.row.state == READY && e.mails == []
  {
    ReviewIsRun(defined);
    RefusalForgets(defined, Run(defined, Enrol(), Review()));
    RunConcat(defined, Enrol(), Review(), Refusal());
    OrderlyConcat(true, defined, Enrol(), Review(), Refusal());
  }
}
