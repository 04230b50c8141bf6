/**
What stops a sequence: which enrolments can still be mailed, which can be mailed once more at most, and
which stops a session with an old copy of the row can still write over.
*/
module Stopping {
  import opened Options
  import opened LeadStates
  import opened Sequences
  import opened CleanRuns

  // ----- Who can still be mailed -----

  // The task may hand over the mail it has in hand: it is past the suppression check, or will pass it.
  predicate MayMail(e: Enrolment) { e.pc.Gated? || (!e.suppressed && Loaded(e)) }

  // The task will write SENT, or has done so, and go on to a further step, by the copy it has or will
  // read from the row as it is now.
  predicate MovesOn(defined: set<int>, e: Enrolment) {
    && e.row.step + 1 in defined
    && match e.pc
       case Readied(_) => CanTransition(e.row.state, SENT)
       case Prepared(_) => CanTransition(e.copy, SENT)
       case Gated(_) => CanTransition(e.copy, SENT)
       case Mailed(_) => CanTransition(e.copy, SENT)
       case Recorded(_) => CanTransition(e.copy, SENT)
       case Stamped(_) => CanTransition(e.row.state, WAITING)
       case Confirmed(_) => CanTransition(e.copy, WAITING)
       case _ => false
  }

  // The row is due for a mail, or a release or the task will make it so, whatever it says now.
  predicate Reopens(defined: set<int>, e: Enrolment) {
    || (IsPending(e.row) && e.row.step in defined)
    || (!Unclaimed(e.claims) && e.row.step in defined)
    || (e.pc.Preparing? && Permits(e.copy, READY))
    || MovesOn(defined, e)
  }

  // At most the mail in hand goes out.
  predicate Contained(defined: set<int>, e: Enrolment) { e.suppressed || !Reopens(defined, e) }

  predicate Silent(defined: set<int>, e: Enrolment) { Contained(defined, e) && !MayMail(e) }

  // What one step does to a contained enrolment: nothing, or that mail.
  predicate LastMail(e: Enrolment, e': Enrolment) {
    || (e'.mails == e.mails && (MayMail(e') ==> MayMail(e) && e'.row.step == e.row.step))
    || (MayMail(e) && e'.mails == e.mails + [e.row.step] && !MayMail(e'))
  }

  lemma {:induction false} ContainedTaskStep(defined: set<int>, e: Enrolment, step: Step)
    requires PcInv(defined, e) && Ordinary(e.row.state) && Contained(defined, e) && IsTaskStep(step)
    ensures Contained(defined, ApplyTask(defined, e, step)) && LastMail(e, ApplyTask(defined, e, step))
  {
  }

  lemma {:induction false} ContainedOtherStep(defined: set<int>, e: Enrolment, step: Step)
    requires PcInv(defined, e) && Contained(defined, e) && !IsTaskStep(step)
    ensures Contained(defined, ApplyOther(e, step)) && LastMail(e, ApplyOther(e, step))
  {
    OtherStepKeepsTask(e, step);
  }

  lemma {:induction false} ContainedStep(defined: set<int>, e: Enrolment, step: Step)
    requires TaskInv(defined, e) && Contained(defined, e)
    ensures Contained(defined, Apply(defined, e, step)) && LastMail(e, Apply(defined, e, step))
  {
    if IsTaskStep(step) {
      ContainedTaskStep(defined, e, step);
    } else {
      ContainedOtherStep(defined, e, step);
    }
  }

  lemma {:induction false} ContainedRuns(defined: set<int>, e: Enrolment, steps: seq<Step>)
    requires TaskInv(defined, e) && Contained(defined, e)
    ensures var e' := Run(defined, e, steps);
            Contained(defined, e') && (e'.mails == e.mails || (MayMail(e) && e'.mails == e.mails + [e.row.step]))
    decreases |steps|
  {
    if steps != [] {
      ApplyKeepsTask(defined, e, steps[0]);
      ContainedStep(defined, e, steps[0]);
      ContainedRuns(defined, Apply(defined, e, steps[0]), steps[1..]);
    }
  }

  // The task and the scheduler alone.
  predicate IsOwn(steps: seq<Step>) { forall step <- steps :: IsTaskStep(step) || step.Release? }

  // The step that takes the task further, nothing failing.
  function NextStep(pc: Pc): Step {
    match pc
    case Preparing(_) => Prepare
    case Readied(_) => Refresh
    case Prepared(_) => Gate(true)
    case Gated(_) => Send(true)
    case Mailed(_) => Record
    case Recorded(_) => Confirm
    case Stamped(_) => Refresh
    case _ => Advance(0)
  }

  function Ahead(pc: Pc): nat {
    match pc
    case Preparing(_) => 8 case Readied(_) => 7 case Prepared(_) => 6 case Gated(_) => 5
    case Mailed(_) => 4 case Recorded(_) => 3 case Stamped(_) => 2 case Confirmed(_) => 1 case _ => 0
  }

  lemma {:induction false} NextMovesOn(defined: set<int>, e: Enrolment)
    requires TaskInv(defined, e) && !e.suppressed && MovesOn(defined, e)
    ensures var e' := Apply(defined, e, NextStep(e.pc));
            && !e'.suppressed && |e'.mails| >= |e.mails|
            && (if e.pc.Confirmed? then Open(defined, e') else MovesOn(defined, e') && Ahead(e'.pc) < Ahead(e.pc))
  {
  }

  lemma {:induction false} MovesOnOpens(defined: set<int>, e: Enrolment) returns (steps: seq<Step>)
    requires TaskInv(defined, e) && !e.suppressed && MovesOn(defined, e)
    ensures Open(defined, Run(defined, e, steps)) && |Run(defined, e, steps).mails| >= |e.mails| && IsOwn(steps)
    decreases Ahead(e.pc)
  {
    var next := NextStep(e.pc);
    var e1 := Apply(defined, e, next);
    ApplyKeepsTask(defined, e, next);
    NextMovesOn(defined, e);
    RunOne(defined, e, next);
    steps := [next];
    if !e.pc.Confirmed? {
      var rest := MovesOnOpens(defined, e1);
      RunConcat(defined, e, [next], rest);
      steps := [next] + rest;
    }
  }

  lemma {:induction false} PendingOpens(defined: set<int>, e: Enrolment) returns (steps: seq<Step>)
    requires TaskInv(defined, e) && !e.suppressed && Reopens(defined, e) && !MovesOn(defined, e)
    ensures Open(defined, Run(defined, e, steps)) && |Run(defined, e, steps).mails| >= |e.mails| && IsOwn(steps)
  {
    if IsPending(e.row) && e.row.step in defined {
      steps := [Die];
      RunOne(defined, e, Die);
    } else if e.pc.Preparing? && Permits(e.copy, READY) {
      steps := [Prepare, Die];
      RunTwo(defined, e, Prepare, Die);
    } else {
      var seen := if e.claims.queued > 0 then QUEUED else WAITING;
      steps := [Die, Release(seen)];
      RunTwo(defined, e, Die, Release(seen));
    }
  }

  // Reopening is exactly what the word says.
  lemma {:induction false} ReopensOpens(defined: set<int>, e: Enrolment) returns (steps: seq<Step>)
    requires TaskInv(defined, e) && !e.suppressed && Reopens(defined, e)
    ensures Open(defined, Run(defined, e, steps)) && |Run(defined, e, steps).mails| >= |e.mails| && IsOwn(steps)
  {
    if MovesOn(defined, e) {
      steps := MovesOnOpens(defined, e);
    } else {
      steps := PendingOpens(defined, e);
    }
  }

  lemma {:induction false} OpenMailsTwice(defined: set<int>, e: Enrolment) returns (steps: seq<Step>)
    requires Open(defined, e)
    ensures |Run(defined, e, steps).mails| == |e.mails| + 2 && IsOwn(steps)
  {
    DeadSendRepeats(defined, e);
    var e1 := Run(defined, e, DeadSend());
    DeadSendRepeats(defined, e1);
    RunConcat(defined, e, DeadSend(), DeadSend());
    steps := DeadSend() + DeadSend();
  }

  lemma {:induction false} NotContainedMailsTwice(defined: set<int>, e: Enrolment) returns (steps: seq<Step>)
    requires TaskInv(defined, e) && !Contained(defined, e)
    ensures |Run(defined, e, steps).mails| >= |e.mails| + 2 && IsOwn(steps)
  {
    var first := ReopensOpens(defined, e);
    var twice := OpenMailsTwice(defined, Run(defined, e, first));
    steps := first + twice;
    RunConcat(defined, e, first, twice);
  }

  lemma {:induction false} NextMails(defined: set<int>, e: Enrolment)
    requires TaskInv(defined, e) && MayMail(e)
    ensures var e' := Apply(defined, e, NextStep(e.pc));
            if e.pc.Gated? then e'.mails == e.mails + [e.row.step]
            else e'.mails == e.mails && MayMail(e') && Ahead(e'.pc) < Ahead(e.pc)
  {
  }

  lemma {:induction false} MayMailMails(defined: set<int>, e: Enrolment) returns (steps: seq<Step>)
    requires TaskInv(defined, e) && MayMail(e)
    ensures Run(defined, e, steps).mails == e.mails + [e.row.step]
    ensures forall step <- steps :: !step.Start?
    decreases Ahead(e.pc)
  {
    var next := NextStep(e.pc);
    var e1 := Apply(defined, e, next);
    ApplyKeepsTask(defined, e, next);
    NextMails(defined, e);
    RunOne(defined, e, next);
    steps := [next];
    if !e.pc.Gated? {
      var rest := MayMailMails(defined, e1);
      RunConcat(defined, e, [next], rest);
      steps := [next] + rest;
    }
  }

  // Which enrolments are mailed once more at most, however long the run.
  lemma {:induction false} OnceMoreExactly(defined: set<int>, before: seq<Step>)
    ensures var e := Run(defined, Enrol(), before);
            Contained(defined, e) <==> forall steps: seq<Step> :: |Run(defined, e, steps).mails| <= |e.mails| + 1
  {
    FromEnrolment(defined, before);
    var e := Run(defined, Enrol(), before);
    if Contained(defined, e) {
      forall steps: seq<Step>
        ensures |Run(defined, e, steps).mails| <= |e.mails| + 1
      {
        ContainedRuns(defined, e, steps);
      }
    } else {
      var steps := NotContainedMailsTwice(defined, e);
    }
  }

  // Which are never mailed again.
  lemma {:induction false} SilentExactly(defined: set<int>, before: seq<Step>)
    ensures var e := Run(defined, Enrol(), before);
            Silent(defined, e) <==> forall steps: seq<Step> :: Run(defined, e, steps).mails == e.mails
  {
    FromEnrolment(defined, before);
    var e := Run(defined, Enrol(), before);
    if Silent(defined, e) {
      forall steps: seq<Step>
        ensures Run(defined, e, steps).mails == e.mails
      {
        ContainedRuns(defined, e, steps);
      }
    } else if MayMail(e) {
      var steps := MayMailMails(defined, e);
    } else {
      var steps := NotContainedMailsTwice(defined, e);
    }
  }

  // ----- Suppression -----

  // Once suppression has committed, mails grow by at most one, and only if the task has passed the gate.
  lemma {:induction false} SuppressedMailsAtMostOneMore(defined: set<int>, before: seq<Step>, after: seq<Step>)
    ensures var e, e' := Run(defined, Enrol(), before), Run(defined, Enrol(), before + after);
            e.suppressed ==>
              e'.suppressed && (e'.mails == e.mails || (e.pc.Gated? && e'.mails == e.mails + [e.row.step]))
  {
    FromEnrolment(defined, before);
    RunConcat(defined, Enrol(), before, after);
    var e := Run(defined, Enrol(), before);
    if e.suppressed {
      ContainedRuns(defined, e, after);
      SuppressedStays(defined, e, after);
    }
  }

  lemma {:induction false} SuppressedStays(defined: set<int>, e: Enrolment, steps: seq<Step>)
    requires e.suppressed
    ensures Run(defined, e, steps).suppressed
    decreases |steps|
  {
    if steps != [] {
      if IsTaskStep(steps[0]) {
        TaskStepSees(defined, e, steps[0]);
      } else {
        OtherStepKeepsTask(e, steps[0]);
      }
      SuppressedStays(defined, Apply(defined, e, steps[0]), steps[1..]);
    }
  }

  // ----- Stops -----

  // The task will yet move the row by the copy it has, once it gets there.
  predicate TaskWrites(defined: set<int>, e: Enrolment) {
    match e.pc
    case Halting(to) => e.copy != to && CanTransition(e.copy, to)
    case Preparing(_) => CanTransition(e.copy, READY)
    case Prepared(_) => !e.suppressed && CanTransition(e.copy, SENT)
    case Gated(_) => CanTransition(e.copy, SENT)
    case Mailed(_) => CanTransition(e.copy, SENT)
    case Recorded(_) => CanTransition(e.copy, SENT)
    case Confirmed(_) => CanTransition(e.copy, if e.row.step + 1 in defined then WAITING else COMPLETED)
    case _ => false
  }

  // Some session will yet move the row by a copy from before it was stopped: a release, the handler of a
  // reply, or the task.
  predicate Overwritable(defined: set<int>, e: Enrolment) {
    || !Unclaimed(e.claims)
    || (exists i | 0 <= i < |e.replies| :: e.replies[i].Some? && !IsTerminal(e.replies[i].value))
    || TaskWrites(defined, e)
  }

  predicate Stopped(defined: set<int>, e: Enrolment) { IsTerminal(e.row.state) && !Overwritable(defined, e) }

  predicate SameStop(e: Enrolment, e': Enrolment) {
    e'.row.state == e.row.state && e'.row.events == e.row.events
  }

  lemma {:induction false} StoppedTaskStep(defined: set<int>, e: Enrolment, step: Step)
    requires PcInv(defined, e) && Stopped(defined, e) && IsTaskStep(step)
    ensures Stopped(defined, ApplyTask(defined, e, step)) && SameStop(e, ApplyTask(defined, e, step))
  {
    TaskStepSees(defined, e, step);
  }

  lemma {:induction false} StoppedOtherStep(defined: set<int>, e: Enrolment, step: Step)
    requires Stopped(defined, e) && !IsTaskStep(step)
    ensures Stopped(defined, ApplyOther(e, step)) && SameStop(e, ApplyOther(e, step))
  {
    OtherStepKeepsTask(e, step);
  }

  lemma {:induction false} StoppedRuns(defined: set<int>, e: Enrolment, steps: seq<Step>)
    requires TaskInv(defined, e) && Stopped(defined, e)
    ensures Stopped(defined, Run(defined, e, steps)) && SameStop(e, Run(defined, e, steps))
    decreases |steps|
  {
    if steps != [] {
      ApplyKeepsTask(defined, e, steps[0]);
      if IsTaskStep(steps[0]) {
        StoppedTaskStep(defined, e, steps[0]);
      } else {
        StoppedOtherStep(defined, e, steps[0]);
      }
      StoppedRuns(defined, Apply(defined, e, steps[0]), steps[1..]);
    }
  }

  lemma {:induction false} NextWrites(defined: set<int>, e: Enrolment)
    requires TaskInv(defined, e) && TaskWrites(defined, e)
    ensures var e' := Apply(defined, e, if e.pc.Halting? then Prepare else NextStep(e.pc));
            || |e'.row.events| > |e.row.events|
            || (e'.row.events == e.row.events && TaskWrites(defined, e') && Ahead(e'.pc) < Ahead(e.pc))
  {
  }

  lemma {:induction false} TaskWritesWrites(defined: set<int>, e: Enrolment) returns (steps: seq<Step>)
    requires TaskInv(defined, e) && TaskWrites(defined, e)
    ensures |Run(defined, e, steps).row.events| > |e.row.events|
    decreases Ahead(e.pc)
  {
    var next := if e.pc.Halting? then Prepare else NextStep(e.pc);
    var e1 := Apply(defined, e, next);
    ApplyKeepsTask(defined, e, next);
    NextWrites(defined, e);
    RunOne(defined, e, next);
    steps := [next];
    if |e1.row.events| == |e.row.events| {
      var rest := TaskWritesWrites(defined, e1);
      RunConcat(defined, e, [next], rest);
      steps := [next] + rest;
    }
  }

  lemma {:induction false} OverwritableWrites(defined: set<int>, e: Enrolment) returns (steps: seq<Step>)
    requires TaskInv(defined, e) && Overwritable(defined, e)
    ensures |Run(defined, e, steps).row.events| > |e.row.events|
  {
    if !Unclaimed(e.claims) {
      var seen := if e.claims.queued > 0 then QUEUED else WAITING;
      steps := [Release(seen)];
      RunOne(defined, e, Release(seen));
    } else if TaskWrites(defined, e) {
      steps := TaskWritesWrites(defined, e);
    } else {
      var i :| 0 <= i < |e.replies| && e.replies[i].Some? && !IsTerminal(e.replies[i].value);
      assert CanTransition(e.replies[i].value, UNSUBSCRIBED);
      steps := [Inbound(i, OptOut)];
      RunOne(defined, e, Inbound(i, OptOut));
    }
  }

  // Which terminal rows stay as they are, in every run: those that no session with an older copy will
  // still write over.
  lemma {:induction false} StopStaysExactly(defined: set<int>, before: seq<Step>)
    ensures var e := Run(defined, Enrol(), before);
            IsTerminal(e.row.state) ==>
              (!Overwritable(defined, e) <==> forall steps: seq<Step> :: SameStop(e, Run(defined, e, steps)))
  {
    FromEnrolment(defined, before);
    var e := Run(defined, Enrol(), before);
    if IsTerminal(e.row.state) {
      if Overwritable(defined, e) {
        var steps := OverwritableWrites(defined, e);
      } else {
        forall steps: seq<Step>
          ensures SameStop(e, Run(defined, e, steps))
        {
          StoppedRuns(defined, e, steps);
        }
      }
    }
  }

  // Such a stop lets out the mail in hand at most, and an unsubscribed row not even that before the gate.
  lemma {:induction false} StoppedMailsAtMostOneMore(defined: set<int>, before: seq<Step>, steps: seq<Step>)
    requires Stopped(defined, Run(defined, Enrol(), before))
    ensures var e := Run(defined, Enrol(), before);
            var e' := Run(defined, e, steps);
            && SameStop(e, e')
            && (e'.mails == e.mails || (MayMail(e) && e'.mails == e.mails + [e.row.step]))
            && (e.row.state == UNSUBSCRIBED && !e.pc.Gated? ==> e'.mails == e.mails)
  {
    FromEnrolment(defined, before);
    var e := Run(defined, Enrol(), before);
    StoppedRuns(defined, e, steps);
    StoppedIsContained(defined, e);
    ContainedRuns(defined, e, steps);
  }

  lemma {:induction false} StoppedIsContained(defined: set<int>, e: Enrolment)
    requires PcInv(defined, e) && Stopped(defined, e)
    ensures Contained(defined, e)
  {
  }

  // ----- The audit trail -----

  lemma {:induction false} TrailGrows(defined: set<int>, e: Enrolment, steps: seq<Step>)
    ensures e.row.events <= Run(defined, e, steps).row.events
    decreases |steps|
  {
    if steps != [] {
      RowAfterExact(defined, e, steps[0]);
      EventsAfter(defined, e, steps[0]);
      TrailGrows(defined, Apply(defined, e, steps[0]), steps[1..]);
    }
  }

  // No event can follow one that ends in a terminal state.
  lemma {:induction false} TerminalTrailBreaks(before: seq<Event>, after: seq<Event>)
    requires before <= after && |before| < |after| && IsTerminal(Replay(before))
    requires forall e <- after :: CanTransition(e.previous, e.current)
    ensures !IsChain(after)
  {
    var e := after[|before|];
    assert e in after && after[..|before|] == before;
    TerminalExactly(e.previous);
  }

  function TwoOptOuts(n: nat): seq<Step> { [Read, Read] + [Inbound(n, OptOut), Inbound(n + 1, OptOut)] }

  // Two handlers that read the same row move it twice from the same state.
  lemma {:induction false} TwoOptOutsBreak(defined: set<int>, e: Enrolment)
    requires Ordinary(e.row.state) && !IsTerminal(e.row.state)
    ensures !IsChain(Run(defined, e, TwoOptOuts(|e.replies|)).row.events)
  {
    var n, s := |e.replies|, e.row.state;
    RunTwo(defined, e, Read, Read);
    var e1 := Run(defined, e, [Read, Read]);
    assert e1 == e.(replies := e.replies + [Some(s)] + [Some(s)]);
    RunTwo(defined, e1, Inbound(n, OptOut), Inbound(n + 1, OptOut));
    RunConcat(defined, e, [Read, Read], [Inbound(n, OptOut), Inbound(n + 1, OptOut)]);
    var first := e.row.events + [StateTransition(s, UNSUBSCRIBED)];
    var events := Run(defined, e, TwoOptOuts(n)).row.events;
    assert events == first + [StateTransition(s, UNSUBSCRIBED)];
    BreaksExtend(e.row.events, StateTransition(s, UNSUBSCRIBED));
    BreaksExtend(first, StateTransition(s, UNSUBSCRIBED));
    ChainHasNoBreaks(events);
  }

  lemma {:induction false} NotStoppedBreaks(defined: set<int>, e: Enrolment) returns (steps: seq<Step>)
    requires Inv(defined, e) && Replay(e.row.events) == e.row.state && !Stopped(defined, e)
    ensures !IsChain(Run(defined, e, steps).row.events)
  {
    if IsTerminal(e.row.state) {
      steps := OverwritableWrites(defined, e);
      TrailGrows(defined, e, steps);
      RunKeepsInv(defined, e, steps);
      TerminalTrailBreaks(e.row.events, Run(defined, e, steps).row.events);
    } else {
      steps := TwoOptOuts(|e.replies|);
      TwoOptOutsBreak(defined, e);
    }
  }

  // From where a trail that is a chain up to the row's state stays one in every run: from stopped rows only.
  lemma {:induction false} ChainStaysExactly(defined: set<int>, before: seq<Step>)
    ensures var e := Run(defined, Enrol(), before);
            IsChain(e.row.events) && Replay(e.row.events) == e.row.state ==>
              (Stopped(defined, e) <==> forall steps: seq<Step> :: IsChain(Run(defined, e, steps).row.events))
  {
    FromEnrolment(defined, before);
    var e := Run(defined, Enrol(), before);
    if IsChain(e.row.events) && Replay(e.row.events) == e.row.state {
      if Stopped(defined, e) {
        forall steps: seq<Step>
          ensures IsChain(Run(defined, e, steps).row.events)
        {
          StoppedRuns(defined, e, steps);
        }
      } else {
        var steps := NotStoppedBreaks(defined, e);
      }
    }
  }

  // ----- Sessions that read the row afresh -----

  // Every move that goes through is made from the state the row is in.
  predicate ReadsAfresh(defined: set<int>, e: Enrolment, step: Step) {
    var a := Attempted(defined, e, step);
    Moved(a) == [] || a.value.seen == e.row.state
  }

  predicate AllReadAfresh(defined: set<int>, e: Enrolment, steps: seq<Step>)
    decreases |steps|
  {
    steps == [] || (ReadsAfresh(defined, e, steps[0]) && AllReadAfresh(defined, Apply(defined, e, steps[0]), steps[1..]))
  }

  lemma {:induction false} FreshReadsAreCurrent(defined: set<int>, e: Enrolment, under: LeadState, steps: seq<Step>)
    requires AllReadAfresh(defined, e, steps)
    ensures StaleWrites(defined, e, under, steps) == 0
    decreases |steps|
  {
    if steps != [] {
      FreshReadsAreCurrent(defined, Apply(defined, e, steps[0]), Under(e, under, steps[0]), steps[1..]);
    }
  }

  // Then a terminal row stays, and lets out the mail in hand at most.
  lemma {:induction false} FreshTerminalRow(defined: set<int>, e: Enrolment, step: Step)
    requires IsTerminal(e.row.state) && ReadsAfresh(defined, e, step)
    ensures RowAfter(defined, e, step).state == e.row.state && RowAfter(defined, e, step).events == e.row.events
  {
    TerminalExactly(e.row.state);
  }

  lemma {:induction false} FreshTerminalTaskStep(defined: set<int>, e: Enrolment, step: Step)
    requires TaskInv(defined, e) && IsTerminal(e.row.state) && ReadsAfresh(defined, e, step) && IsTaskStep(step)
    ensures LastMail(e, ApplyTask(defined, e, step))
  {
    TerminalExactly(e.row.state);
  }

  lemma {:induction false} FreshTerminalOtherStep(e: Enrolment, step: Step)
    requires IsTerminal(e.row.state) && !IsTaskStep(step)
    ensures LastMail(e, ApplyOther(e, step))
  {
    OtherStepKeepsTask(e, step);
  }

  lemma {:induction false} FreshTerminalRuns(defined: set<int>, e: Enrolment, steps: seq<Step>)
    requires TaskInv(defined, e) && IsTerminal(e.row.state) && AllReadAfresh(defined, e, steps)
    ensures var e' := Run(defined, e, steps);
            SameStop(e, e') && (e'.mails == e.mails || (MayMail(e) && e'.mails == e.mails + [e.row.step]))
    decreases |steps|
  {
    if steps != [] {
      RowAfterExact(defined, e, steps[0]);
      FreshTerminalRow(defined, e, steps[0]);
      ApplyKeepsTask(defined, e, steps[0]);
      if IsTaskStep(steps[0]) {
        FreshTerminalTaskStep(defined, e, steps[0]);
      } else {
        FreshTerminalOtherStep(e, steps[0]);
      }
      FreshTerminalRuns(defined, Apply(defined, e, steps[0]), steps[1..]);
    }
  }

  lemma {:induction false} AfreshConcat(defined: set<int>, e: Enrolment, a: seq<Step>, b: seq<Step>)
    requires AllReadAfresh(defined, e, a + b)
    ensures AllReadAfresh(defined, Run(defined, e, a), b)
    decreases |a|
  {
    if a == [] {
      assert a + b == b;
    } else {
      assert (a + b)[1..] == a[1..] + b;
      AfreshConcat(defined, Apply(defined, e, a[0]), a[1..], b);
    }
  }

  // Were every session to read the row afresh before it moves it, the trail would be a chain from QUEUED to
  // the row's state, a booking apart, and a terminal row would stay for good with one mail more at most.
  lemma {:induction false} FreshReadsKeepEveryPromise(defined: set<int>, before: seq<Step>, after: seq<Step>)
    requires AllReadAfresh(defined, Enrol(), before + after)
    ensures var e, e' := Run(defined, Enrol(), before), Run(defined, Enrol(), before + after);
            && IsChain(e'.row.events)
            && (Replay(e'.row.events) != e'.row.state ==> e'.row.state == MEETING_BOOKED)
            && (IsTerminal(e.row.state) ==>
                  SameStop(e, e') && (e'.mails == e.mails || (MayMail(e) && e'.mails == e.mails + [e.row.step])))
  {
    FreshReadsAreCurrent(defined, Enrol(), QUEUED, before + after);
    ChainExactly(defined, before + after);
    AuditReplays(defined, before + after);
    FromEnrolment(defined, before);
    RunConcat(defined, Enrol(), before, after);
    AfreshConcat(defined, Enrol(), before, after);
    var e := Run(defined, Enrol(), before);
    if IsTerminal(e.row.state) {
      FreshTerminalRuns(defined, e, after);
    }
  }

  // No release is pending, and the task, if it runs at all, will not write READY.
  predicate Stranded(e: Enrolment) {
    && Unclaimed(e.claims)
    && (e.pc.Idle? || e.pc.Halting? || (e.pc.Preparing? && !Permits(e.copy, READY)))
    && (e.row.state.SENT? || e.row.state.REPLIED? || IsTerminal(e.row.state))
  }

  lemma {:induction false} StrandedTaskStep(defined: set<int>, e: Enrolment, step: Step)
    requires PcInv(defined, e) && Stranded(e) && IsTaskStep(step)
    ensures Stranded(ApplyTask(defined, e, step)) && ApplyTask(defined, e, step).row.step == e.row.step
    ensures ApplyTask(defined, e, step).mails == e.mails
  {
    TaskStepSees(defined, e, step);
  }

  lemma {:induction false} StrandedOtherStep(e: Enrolment, step: Step)
    requires Stranded(e) && !IsTaskStep(step)
    ensures Stranded(ApplyOther(e, step))
  {
    OtherStepKeepsTask(e, step);
  }

  lemma {:induction false} StrandedStays(defined: set<int>, e: Enrolment, steps: seq<Step>)
    requires TaskInv(defined, e) && Stranded(e)
    ensures var e' := Run(defined, e, steps);
            Stranded(e') && e'.row.step == e.row.step && e'.mails == e.mails
    decreases |steps|
  {
    if steps != [] {
      ApplyKeepsTask(defined, e, steps[0]);
      if IsTaskStep(steps[0]) {
        StrandedTaskStep(defined, e, steps[0]);
      } else {
        StrandedOtherStep(e, steps[0]);
        OtherStepKeepsTask(e, steps[0]);
      }
      StrandedStays(defined, Apply(defined, e, steps[0]), steps[1..]);
    }
  }

  // A row that reads SENT or REPLIED while no task runs and no release is pending is never mailed or
  // moved to another step.
  lemma {:induction false} StrandedIsSilent(defined: set<int>, before: seq<Step>, after: seq<Step>)
    requires Stranded(Run(defined, Enrol(), before))
    ensures var e := Run(defined, Enrol(), before);
            var e' := Run(defined, Enrol(), before + after);
            && e'.mails == e.mails && e'.row.step == e.row.step
            && (e'.row.state.SENT? || e'.row.state.REPLIED? || IsTerminal(e'.row.state))
  {
    FromEnrolment(defined, before);
    RunConcat(defined, Enrol(), before, after);
    StrandedStays(defined, Run(defined, Enrol(), before), after);
  }

  // ----- Runs in which an old copy is written over a stop -----

  function FinishMail(): seq<Step> { Dispatch() + (Stamp() + [Advance(0)]) }

  // From READY by the task's copy to the next step, whatever the row says.
  lemma {:induction false} FinishWritesOver(defined: set<int>, e: Enrolment)
    requires e.pc.Prepared? && e.copy == READY && !e.suppressed && e.row.step + 1 in defined && e.row.step == e.pc.k
    ensures var e' := Run(defined, e, FinishMail());
            Open(defined, e') && e'.row.step == e.row.step + 1 && e'.mails == e.mails + [e.row.step]
  {
    CleanDispatch(defined, e);
    var e1 := Run(defined, e, Dispatch());
    CleanStamp(defined, e1);
    var e2 := Run(defined, e1, Stamp());
    RunConcat(defined, e, Dispatch(), Stamp() + [Advance(0)]);
    RunConcat(defined, e1, Stamp(), [Advance(0)]);
    CleanAdvance(defined, e2, 0);
  }

  lemma {:induction false} MailedOnAfter(defined: set<int>, e: Enrolment, first: seq<Step>)
    requires Open(defined, Run(defined, e, first))
    ensures var e', e'' := Run(defined, e, first), Run(defined, e, first + UpToMail());
            e''.mails == e'.mails + [e'.row.step] && e''.row.state == SENT
  {
    CleanSend(defined, Run(defined, e, first));
    RunConcat(defined, e, first, UpToMail());
  }

  lemma {:induction false} BookedPastReady(defined: set<int>)
    requires 1 in defined
    ensures var e := Run(defined, Enrol(), Load() + [Book]);
            && e.row.state == MEETING_BOOKED && e.row.step == 1 && e.mails == [] && !e.suppressed
            && e.pc == Prepared(1) && e.copy == READY
  {
    CleanLoad(defined, Enrol());
    RunThenOne(defined, Enrol(), Load(), Book);
  }

  // A meeting is booked while the task, past READY, drafts or sends: SENT is written over MEETING_BOOKED,
  // and the sequence mails on.
  lemma {:induction false} BookedInFlightMailsOn(defined: set<int>)
    requires 1 in defined && 2 in defined
    ensures var e := Run(defined, Enrol(), Load() + [Book]);
            && e.row.state == MEETING_BOOKED && e.mails == []
            && Run(defined, e, FinishMail() + UpToMail()).mails == [1, 2]
            && Run(defined, e, FinishMail() + UpToMail()).row.state == SENT
  {
    BookedPastReady(defined);
    var e := Run(defined, Enrol(), Load() + [Book]);
    FinishWritesOver(defined, e);
    MailedOnAfter(defined, e, FinishMail());
  }

  function Replying(): seq<Step> { [Read, Inbound(0, Interested)] }

  lemma {:induction false} ReplyLands(defined: set<int>, e: Enrolment)
    requires e.replies == [] && (e.row.state.SENT? || e.row.state.WAITING?)
    ensures Run(defined, e, Replying()) == e.(row := WriteOrStay(e.row, e.row.state, REPLIED), replies := [None])
  {
    RunTwo(defined, e, Read, Inbound(0, Interested));
  }

  lemma {:induction false} AdvanceOverReply(defined: set<int>, e: Enrolment)
    requires e.pc.Confirmed? && e.copy == SENT && !e.suppressed && e.row.step + 1 in defined
    requires Replay(e.row.events) == REPLIED
    ensures var e' := Run(defined, e, [Advance(0)]);
            && Open(defined, e') && e'.row.step == e.row.step + 1 && e'.mails == e.mails
            && Breaks(e'.row.events) > 0
  {
    CleanAdvance(defined, e, 0);
    BreaksExtend(e.row.events, StateTransition(SENT, WAITING));
  }

  // A reply is recorded after SENT has been read back: WAITING is written over it.
  lemma {:induction false} RepliedInFlightMailsOn(defined: set<int>)
    requires 1 in defined && 2 in defined
    ensures var e := Run(defined, Enrol(), UpToMail() + Replying());
            && e.row.state == REPLIED && e.mails == [1]
            && Run(defined, e, [Advance(0)] + UpToMail()).mails == [1, 2]
            && !IsChain(Run(defined, e, [Advance(0)]).row.events)
  {
    CleanSend(defined, Enrol());
    RunConcat(defined, Enrol(), UpToMail(), Replying());
    ReplyLands(defined, Run(defined, Enrol(), UpToMail()));
    var e := Run(defined, Enrol(), UpToMail() + Replying());
    AdvanceOverReply(defined, e);
    MailedOnAfter(defined, e, [Advance(0)]);
    ChainHasNoBreaks(Run(defined, e, [Advance(0)]).row.events);
  }

  function ToNextClaim(): seq<Step> { (UpToMail() + [Advance(0)]) + [Claim(true, 0)] }

  lemma {:induction false} NextIsClaimed(defined: set<int>)
    requires 1 in defined && 2 in defined
    ensures var e := Run(defined, Enrol(), ToNextClaim());
            && e.row.state == WAITING && e.row.step == 2 && e.claims == Claims(0, 1) && e.replies == []
            && e.pc.Idle? && !e.suppressed && e.mails == [1]
  {
    CleanTask(defined, Enrol(), 0);
    var e1 := Run(defined, Enrol(), UpToMail() + [Advance(0)]);
    RunConcat(defined, Enrol(), UpToMail() + [Advance(0)], [Claim(true, 0)]);
    RunOne(defined, e1, Claim(true, 0));
  }

  lemma {:induction false} ReleaseOverReply(defined: set<int>, e: Enrolment)
    requires e.claims == Claims(0, 1) && e.pc.Idle? && !e.suppressed && e.row.step in defined
    ensures var e' := Run(defined, e, [Release(WAITING)]);
            Open(defined, e') && e'.row.step == e.row.step && e'.mails == e.mails
  {
    RunOne(defined, e, Release(WAITING));
  }

  // A reply is recorded between a claim and its release: READY is written over it.
  lemma {:induction false} RepliedAfterClaimIsMailed(defined: set<int>)
    requires 1 in defined && 2 in defined
    ensures var e := Run(defined, Enrol(), ToNextClaim() + Replying());
            && e.row.state == REPLIED && e.mails == [1]
            && Run(defined, e, [Release(WAITING)] + UpToMail()).mails == [1, 2]
  {
    NextIsClaimed(defined);
    RunConcat(defined, Enrol(), ToNextClaim(), Replying());
    ReplyLands(defined, Run(defined, Enrol(), ToNextClaim()));
    var e := Run(defined, Enrol(), ToNextClaim() + Replying());
    ReleaseOverReply(defined, e);
    MailedOnAfter(defined, e, [Release(WAITING)]);
  }

  // The one mail after an opt-out is possible: it commits between the gate and the provider's answer.
  lemma {:induction false} SuppressedPastTheGateIsMailed(defined: set<int>)
    requires 1 in defined
    ensures var e := Run(defined, Enrol(), Load() + [Gate(true), Read, Inbound(0, OptOut)]);
            && e.suppressed && e.row.state == UNSUBSCRIBED && e.mails == []
            && Run(defined, e, [Send(true)]).mails == [1]
  {
    CleanLoad(defined, Enrol());
    var e1 := Run(defined, Enrol(), Load());
    RunConcat(defined, Enrol(), Load(), [Gate(true), Read, Inbound(0, OptOut)]);
    RunThree(defined, e1, Gate(true), Read, Inbound(0, OptOut));
    RunOne(defined, Run(defined, e1, [Gate(true), Read, Inbound(0, OptOut)]), Send(true));
  }
}
