/**
A whole workspace: the suppression database and any number of enrolments of any number of leads, run
together.  The send task's two suppression checks read the database at the moment they happen, and an
opt-out commits an enrolment's move together with its entry in the list.
*/
module Workspaces {
  import opened Options
  import opened LeadStates
  import opened Sequences
  import opened CleanRuns
  import opened Stopping
  import opened Text
  import C = CrmRecords
  import S = Suppression

  type Id = string

  // An enrolment with its lead's address and the step numbers its campaign defines.
  datatype Held = Held(lead: string, defined: set<int>, enrolment: Enrolment)

  datatype World = World(db: S.Db, held: map<Id, Held>)

  datatype Act =
    | EnrolLead(id: Id, lead: string, defined: set<int>)
    | On(id: Id, step: Sequences.Step)
    | BookLead(lead: string)
    | Write(write: S.Step)   // CRM sync, CRM webhook, inbound mail, addition to the list
    | OptOutOf(id: Id, handler: nat)  // this handler of an opt-out moves the enrolment and commits

  // What the checker now answers for the enrolment's address.
  function Answered(db: S.Db, h: Held): Held {
    h.(enrolment := h.enrolment.(suppressed := S.Blocked(db, Norm(h.lead))))
  }

  function Refresh(db: S.Db, held: map<Id, Held>): map<Id, Held> {
    map id | id in held :: Answered(db, held[id])
  }

  // Suppression comes from the database alone.
  predicate IsOwnStep(step: Sequences.Step) { !step.Suppress? && !(step.Inbound? && step.reply.OptOut?) }

  predicate Unsubscribes(e: Enrolment, handler: nat) {
    Handles(e, handler) && ReplyMove(e.row, e.replies[handler].value, Reply.OptOut).Some?
  }

  predicate OptsOut(w: World, id: Id, handler: nat) {
    id in w.held && '@' in w.held[id].lead && Unsubscribes(w.held[id].enrolment, handler)
  }

  function OptOutDb(w: World, id: Id): S.Db
    requires id in w.held
  {
    S.Apply(w.db, S.Inbound(w.held[id].lead, true))
  }

  function StepHeld(h: Held, step: Sequences.Step): Held {
    h.(enrolment := Sequences.Apply(h.defined, h.enrolment, step))
  }

  function BookHeld(h: Held, lead: string): Held {
    if h.lead == lead then h.(enrolment := h.enrolment.(row := BookRow(h.enrolment.row))) else h
  }

  // The world after a commit to the database.
  function Written(db: S.Db, held: map<Id, Held>): World { World(db, Refresh(db, held)) }

  function Moved(w: World, id: Id, handler: nat): map<Id, Held>
    requires id in w.held
  {
    w.held[id := StepHeld(w.held[id], Sequences.Inbound(handler, Reply.OptOut))]
  }

  function Do(w: World, act: Act): World {
    match act
    case EnrolLead(id, lead, defined) =>
      if id in w.held then w else w.(held := w.held[id := Answered(w.db, Held(lead, defined, Enrol()))])
    case On(id, step) =>
      if id in w.held && IsOwnStep(step) then w.(held := w.held[id := StepHeld(w.held[id], step)]) else w
    case BookLead(lead) => w.(held := map id | id in w.held :: BookHeld(w.held[id], lead))
    case Write(write) => Written(S.Apply(w.db, write), w.held)
    case OptOutOf(id, handler) =>
      if OptsOut(w, id, handler) then Written(OptOutDb(w, id), Moved(w, id, handler)) else w
  }

  function DoAll(w: World, acts: seq<Act>): World
    decreases |acts|
  {
    if acts == [] then w else DoAll(Do(w, acts[0]), acts[1..])
  }

  lemma {:induction false} DoAllConcat(w: World, a: seq<Act>, b: seq<Act>)
    ensures DoAll(w, a + b) == DoAll(DoAll(w, a), b)
    decreases |a|
  {
    if a == [] {
      assert a + b == b;
    } else {
      assert (a + b)[1..] == a[1..] + b;
      DoAllConcat(Do(w, a[0]), a[1..], b);
    }
  }

  // Every enrolment's bit is the checker's answer, and opted-out leads are do-not-contact.
  predicate Synced(w: World) {
    && S.OptOutIsFinal(w.db)
    && forall id <- w.held :: w.held[id].enrolment.suppressed == S.Blocked(w.db, Norm(w.held[id].lead))
  }

  lemma {:induction false} BitIsTheCheckersAnswer(w: World, id: Id)
    requires Synced(w) && id in w.held
    ensures w.held[id].enrolment.suppressed <==> S.Check(w.db, w.held[id].lead) != S.Clear
  {
    S.CheckExactly(w.db, w.held[id].lead);
  }

  // ----- A workspace run is a run of each enrolment -----

  function SuppressIf(blocked: bool): seq<Sequences.Step> { if blocked then [Suppress] else [] }

  // What one act does to one enrolment.
  function ProjectOne(w: World, id: Id, act: Act): seq<Sequences.Step>
    requires id in w.held
  {
    match act
    case EnrolLead(_, _, _) => []
    case On(i, step) => if i == id && IsOwnStep(step) then [step] else []
    case BookLead(lead) => if lead == w.held[id].lead then [Book] else []
    case Write(write) => SuppressIf(S.Blocked(S.Apply(w.db, write), Norm(w.held[id].lead)))
    case OptOutOf(i, handler) =>
      if !OptsOut(w, i, handler) then []
      else if i == id then [Sequences.Inbound(handler, Reply.OptOut)]
      else SuppressIf(S.Blocked(OptOutDb(w, i), Norm(w.held[id].lead)))
  }

  // h' is h after these steps.
  ghost predicate Follows(h: Held, h': Held, steps: seq<Sequences.Step>) {
    && h'.lead == h.lead && h'.defined == h.defined
    && h'.enrolment == Sequences.Run(h.defined, h.enrolment, steps)
  }

  lemma {:induction false} BlockedStays(db: S.Db, write: S.Step, address: string)
    requires S.OptOutIsFinal(db)
    ensures S.OptOutIsFinal(S.Apply(db, write))
    ensures S.Blocked(db, address) ==> S.Blocked(S.Apply(db, write), address)
  {
    S.StepKeepsOptOutFinal(db, write);
    if S.Blocked(db, address) {
      S.StepKeepsPermanent(db, write, address);
    }
  }

  // A write that blocks no less only ever suppresses: no bit is taken back.
  lemma {:induction false} AnswerProjects(db: S.Db, db': S.Db, h: Held)
    requires h.enrolment.suppressed == S.Blocked(db, Norm(h.lead))
    requires S.Blocked(db, Norm(h.lead)) ==> S.Blocked(db', Norm(h.lead))
    ensures Follows(h, Answered(db', h), SuppressIf(S.Blocked(db', Norm(h.lead))))
  {
    RunOne(h.defined, h.enrolment, Suppress);
  }

  lemma {:induction false} OptOutBlocks(db: S.Db, lead: string)
    requires '@' in lead
    ensures S.Blocked(S.Apply(db, S.Inbound(lead, true)), Norm(lead))
  {
    S.SuppressingBlocks(db, lead, C.HubSpot, map[]);
  }

  lemma {:induction false} MoveProjects(db: S.Db, h: Held, handler: nat)
    requires S.Blocked(db, Norm(h.lead)) && Unsubscribes(h.enrolment, handler)
    ensures var step := Sequences.Inbound(handler, Reply.OptOut); Follows(h, Answered(db, StepHeld(h, step)), [step])
  {
    RunOne(h.defined, h.enrolment, Sequences.Inbound(handler, Reply.OptOut));
  }

  lemma {:induction false} OwnStepKeepsBit(defined: set<int>, e: Enrolment, step: Sequences.Step)
    requires IsOwnStep(step)
    ensures Sequences.Apply(defined, e, step).suppressed == e.suppressed
  {
  }

  lemma {:induction false} DoKeepsSynced(w: World, act: Act)
    requires Synced(w)
    ensures Synced(Do(w, act))
  {
    match act
    case On(id, step) =>
      if id in w.held && IsOwnStep(step) {
        OwnStepKeepsBit(w.held[id].defined, w.held[id].enrolment, step);
      }
    case Write(write) => S.StepKeepsOptOutFinal(w.db, write);
    case OptOutOf(id, handler) =>
      if OptsOut(w, id, handler) {
        S.StepKeepsOptOutFinal(w.db, S.Inbound(w.held[id].lead, true));
      }
    case _ =>
  }

  lemma {:induction false} OnProjects(w: World, id: Id, i: Id, step: Sequences.Step)
    requires id in w.held
    ensures id in Do(w, On(i, step)).held
    ensures Follows(w.held[id], Do(w, On(i, step)).held[id], ProjectOne(w, id, On(i, step)))
  {
    RunOne(w.held[id].defined, w.held[id].enrolment, step);
  }

  // A booking is its lead's alone.
  lemma {:induction false} BookingSparesOthers(w: World, id: Id, lead: string)
    requires id in w.held && w.held[id].lead != lead
    ensures id in Do(w, BookLead(lead)).held && Do(w, BookLead(lead)).held[id] == w.held[id]
  {
  }

  lemma {:induction false} BookProjects(w: World, id: Id, lead: string)
    requires id in w.held
    ensures id in Do(w, BookLead(lead)).held
    ensures Follows(w.held[id], Do(w, BookLead(lead)).held[id], ProjectOne(w, id, BookLead(lead)))
  {
    RunOne(w.held[id].defined, w.held[id].enrolment, Book);
  }

  lemma {:induction false} WriteIsAnswered(w: World, id: Id, write: S.Step, db: S.Db)
    requires id in w.held && db == S.Apply(w.db, write)
    ensures id in Do(w, Write(write)).held && Do(w, Write(write)).held[id] == Answered(db, w.held[id])
    ensures ProjectOne(w, id, Write(write)) == SuppressIf(S.Blocked(db, Norm(w.held[id].lead)))
  {
  }

  lemma {:induction false} WriteProjects(w: World, id: Id, write: S.Step)
    requires Synced(w) && id in w.held
    ensures id in Do(w, Write(write)).held
    ensures Follows(w.held[id], Do(w, Write(write)).held[id], ProjectOne(w, id, Write(write)))
  {
    var db := S.Apply(w.db, write);
    WriteIsAnswered(w, id, write, db);
    BlockedStays(w.db, write, Norm(w.held[id].lead));
    AnswerProjects(w.db, db, w.held[id]);
  }

  lemma {:induction false} OwnOptOutProjects(w: World, id: Id, handler: nat)
    requires Synced(w) && OptsOut(w, id, handler)
    ensures id in Do(w, OptOutOf(id, handler)).held
    ensures Follows(w.held[id], Do(w, OptOutOf(id, handler)).held[id], [Sequences.Inbound(handler, Reply.OptOut)])
  {
    OptOutBlocks(w.db, w.held[id].lead);
    MoveProjects(OptOutDb(w, id), w.held[id], handler);
  }

  lemma {:induction false} OptOutKeepsBlocked(w: World, id: Id, address: string)
    requires Synced(w) && id in w.held
    ensures S.Blocked(w.db, address) ==> S.Blocked(OptOutDb(w, id), address)
  {
    BlockedStays(w.db, S.Inbound(w.held[id].lead, true), address);
  }

  lemma {:induction false} OtherIsAnswered(w: World, id: Id, i: Id, handler: nat)
    requires id in w.held && OptsOut(w, i, handler) && i != id
    ensures id in Do(w, OptOutOf(i, handler)).held
    ensures Do(w, OptOutOf(i, handler)).held[id] == Answered(OptOutDb(w, i), w.held[id])
  {
  }

  lemma {:induction false} OtherOptOutProjects(w: World, id: Id, i: Id, handler: nat)
    requires Synced(w) && id in w.held && OptsOut(w, i, handler) && i != id
    ensures id in Do(w, OptOutOf(i, handler)).held
    ensures Follows(w.held[id], Do(w, OptOutOf(i, handler)).held[id],
                    SuppressIf(S.Blocked(OptOutDb(w, i), Norm(w.held[id].lead))))
  {
    OtherIsAnswered(w, id, i, handler);
    OptOutKeepsBlocked(w, i, Norm(w.held[id].lead));
    AnswerProjects(w.db, OptOutDb(w, i), w.held[id]);
  }

  lemma {:induction false} OptOutProjectsTo(w: World, id: Id, i: Id, handler: nat)
    requires id in w.held && OptsOut(w, i, handler)
    ensures ProjectOne(w, id, OptOutOf(i, handler))
         == if i == id then [Sequences.Inbound(handler, Reply.OptOut)]
            else SuppressIf(S.Blocked(OptOutDb(w, i), Norm(w.held[id].lead)))
  {
  }

  lemma {:induction false} RefusedOptOutIsNothing(w: World, id: Id, i: Id, handler: nat)
    requires id in w.held && !OptsOut(w, i, handler)
    ensures Do(w, OptOutOf(i, handler)) == w && ProjectOne(w, id, OptOutOf(i, handler)) == []
  {
  }

  lemma {:induction false} OptOutActProjects(w: World, id: Id, i: Id, handler: nat)
    requires Synced(w) && id in w.held
    ensures id in Do(w, OptOutOf(i, handler)).held
    ensures Follows(w.held[id], Do(w, OptOutOf(i, handler)).held[id], ProjectOne(w, id, OptOutOf(i, handler)))
  {
    if OptsOut(w, i, handler) {
      OptOutProjectsTo(w, id, i, handler);
      if i == id {
        OwnOptOutProjects(w, id, handler);
      } else {
        OtherOptOutProjects(w, id, i, handler);
      }
    } else {
      RefusedOptOutIsNothing(w, id, i, handler);
    }
  }

  lemma {:induction false} ActProjects(w: World, id: Id, act: Act)
    requires Synced(w) && id in w.held
    ensures id in Do(w, act).held && Follows(w.held[id], Do(w, act).held[id], ProjectOne(w, id, act))
  {
    match act
    case EnrolLead(_, _, _) =>
    case On(i, step) => OnProjects(w, id, i, step);
    case BookLead(lead) => BookProjects(w, id, lead);
    case Write(write) => WriteProjects(w, id, write);
    case OptOutOf(i, handler) => OptOutActProjects(w, id, i, handler);
  }

  // What a run does to one enrolment.
  function Project(w: World, id: Id, acts: seq<Act>): seq<Sequences.Step>
    requires Synced(w) && id in w.held
    decreases |acts|
  {
    if acts == [] then []
    else
      DoKeepsSynced(w, acts[0]);
      ActProjects(w, id, acts[0]);
      ProjectOne(w, id, acts[0]) + Project(Do(w, acts[0]), id, acts[1..])
  }

  // So whatever holds in every run of one enrolment holds of each enrolment of the workspace.
  lemma {:induction false} WorkspaceRunsProject(w: World, id: Id, acts: seq<Act>)
    requires Synced(w) && id in w.held
    ensures id in DoAll(w, acts).held && Follows(w.held[id], DoAll(w, acts).held[id], Project(w, id, acts))
    decreases |acts|
  {
    if acts != [] {
      var h := w.held[id];
      DoKeepsSynced(w, acts[0]);
      ActProjects(w, id, acts[0]);
      WorkspaceRunsProject(Do(w, acts[0]), id, acts[1..]);
      Sequences.RunConcat(h.defined, h.enrolment, ProjectOne(w, id, acts[0]),
                          Project(Do(w, acts[0]), id, acts[1..]));
    }
  }

  lemma {:induction false} DoAllKeepsSynced(w: World, acts: seq<Act>)
    requires Synced(w)
    ensures Synced(DoAll(w, acts))
    decreases |acts|
  {
    if acts != [] {
      DoKeepsSynced(w, acts[0]);
      DoAllKeepsSynced(Do(w, acts[0]), acts[1..]);
    }
  }

  // ----- From an empty workspace -----

  function Empty(db: S.Db): World { World(db, map[]) }

  // Every enrolment a run has made is one run of the step system from its enrolment.
  ghost predicate IsHistory(h: Held, steps: seq<Sequences.Step>) {
    h.enrolment == Sequences.Run(h.defined, Enrol(), steps)
  }

  ghost predicate HasHistory(h: Held) { exists steps: seq<Sequences.Step> :: IsHistory(h, steps) }

  lemma {:induction false} FreshHasHistory(db: S.Db, lead: string, defined: set<int>)
    ensures HasHistory(Answered(db, Held(lead, defined, Enrol())))
  {
    RunOne(defined, Enrol(), Suppress);
    assert IsHistory(Answered(db, Held(lead, defined, Enrol())), SuppressIf(S.Blocked(db, Norm(lead))));
  }

  lemma {:induction false} DoKeepsHistory(w: World, act: Act, id: Id)
    requires Synced(w) && id in Do(w, act).held && (id in w.held ==> HasHistory(w.held[id]))
    ensures HasHistory(Do(w, act).held[id])
  {
    if id in w.held {
      var h := w.held[id];
      var steps: seq<Sequences.Step> :| IsHistory(h, steps);
      ActProjects(w, id, act);
      Sequences.RunConcat(h.defined, Enrol(), steps, ProjectOne(w, id, act));
      assert IsHistory(Do(w, act).held[id], steps + ProjectOne(w, id, act));
    } else {
      FreshHasHistory(w.db, act.lead, act.defined);
    }
  }

  lemma {:induction false} DoAllKeepsHistory(w: World, acts: seq<Act>)
    requires Synced(w) && forall id <- w.held :: HasHistory(w.held[id])
    ensures forall id <- DoAll(w, acts).held :: HasHistory(DoAll(w, acts).held[id])
    decreases |acts|
  {
    if acts != [] {
      var w' := Do(w, acts[0]);
      DoKeepsSynced(w, acts[0]);
      forall id | id in w'.held
        ensures HasHistory(w'.held[id])
      {
        DoKeepsHistory(w, acts[0], id);
      }
      DoAllKeepsHistory(w', acts[1..]);
    }
  }

  lemma {:induction false} EveryEnrolmentIsARun(db: S.Db, acts: seq<Act>, id: Id)
    requires S.OptOutIsFinal(db) && id in DoAll(Empty(db), acts).held
    ensures Synced(DoAll(Empty(db), acts)) && HasHistory(DoAll(Empty(db), acts).held[id])
    ensures Sequences.Inv(DoAll(Empty(db), acts).held[id].defined, DoAll(Empty(db), acts).held[id].enrolment)
  {
    DoAllKeepsSynced(Empty(db), acts);
    DoAllKeepsHistory(Empty(db), acts);
    var h := DoAll(Empty(db), acts).held[id];
    var steps: seq<Sequences.Step> :| IsHistory(h, steps);
    Sequences.FromEnrolment(h.defined, steps);
  }

  // The bound on mails, whatever else happens in the workspace.
  lemma {:induction false} EveryEnrolmentMailsOnce(db: S.Db, acts: seq<Act>, id: Id, k: int)
    requires S.OptOutIsFinal(db) && id in DoAll(Empty(db), acts).held
    ensures var e := DoAll(Empty(db), acts).held[id].enrolment;
            multiset(e.mails)[k] <= 1 + multiset(e.lost)[k] + multiset(e.revived)[k]
  {
    EveryEnrolmentIsARun(db, acts, id);
  }

  // ----- Suppression stops every sequence -----

  lemma {:induction false} FreshSuppressedIsNeverMailed(w: World, acts: seq<Act>, id: Id)
    requires Synced(w) && id in w.held && w.held[id].enrolment == Enrol().(suppressed := true)
    ensures id in DoAll(w, acts).held && DoAll(w, acts).held[id].enrolment.mails == []
  {
    var h := w.held[id];
    WorkspaceRunsProject(w, id, acts);
    Sequences.FromEnrolment(h.defined, [Suppress]);
    RunOne(h.defined, Enrol(), Suppress);
    ContainedRuns(h.defined, h.enrolment, Project(w, id, acts));
  }

  lemma {:induction false} BlockedAfterOne(w: World, act: Act, address: string)
    requires Synced(w) && S.Blocked(w.db, address)
    ensures Synced(Do(w, act)) && S.Blocked(Do(w, act).db, address)
  {
    DoKeepsSynced(w, act);
    match act
    case Write(write) => BlockedStays(w.db, write, address);
    case OptOutOf(id, handler) =>
      if OptsOut(w, id, handler) {
        BlockedStays(w.db, S.Inbound(w.held[id].lead, true), address);
      }
    case _ =>
  }

  lemma {:induction false} NewIsFresh(w: World, act: Act, id: Id)
    requires id !in w.held && id in Do(w, act).held
    ensures act.EnrolLead? && Do(w, act).held[id] == Answered(w.db, Held(act.lead, act.defined, Enrol()))
  {
  }

  // An enrolment of an address that is already blocked is never mailed.
  lemma {:induction false} LateEnrolmentIsNeverMailed(w: World, acts: seq<Act>, id: Id, lead: string)
    requires Synced(w) && id !in w.held && id in DoAll(w, acts).held
    requires DoAll(w, acts).held[id].lead == lead && S.Blocked(w.db, Norm(lead))
    ensures DoAll(w, acts).held[id].enrolment.mails == []
    decreases |acts|
  {
    var w' := Do(w, acts[0]);
    BlockedAfterOne(w, acts[0], Norm(lead));
    if id in w'.held {
      NewIsFresh(w, acts[0], id);
      WorkspaceRunsProject(w', id, acts[1..]);
      FreshSuppressedIsNeverMailed(w', acts[1..], id);
    } else {
      LateEnrolmentIsNeverMailed(w', acts[1..], id, lead);
    }
  }

  // Once an address is blocked, by whichever writer, each of its enrolments gets at most one more mail,
  // and only if its task had already passed the gate; later enrolments get none.
  lemma {:induction false} SuppressionStopsEverySequence(db: S.Db, before: seq<Act>, after: seq<Act>, id: Id)
    requires S.OptOutIsFinal(db)
    requires id in DoAll(Empty(db), before + after).held
    requires S.Blocked(DoAll(Empty(db), before).db, Norm(DoAll(Empty(db), before + after).held[id].lead))
    ensures var w1, w2 := DoAll(Empty(db), before), DoAll(Empty(db), before + after);
            var mails := w2.held[id].enrolment.mails;
            if id in w1.held then
              var e := w1.held[id].enrolment;
              mails == e.mails || (e.pc.Gated? && mails == e.mails + [e.row.step])
            else mails == []
  {
    var w1 := DoAll(Empty(db), before);
    DoAllConcat(Empty(db), before, after);
    DoAllKeepsSynced(Empty(db), before);
    if id in w1.held {
      var h := w1.held[id];
      EveryEnrolmentIsARun(db, before, id);
      WorkspaceRunsProject(w1, id, after);
      ContainedRuns(h.defined, h.enrolment, Project(w1, id, after));
    } else {
      LateEnrolmentIsNeverMailed(w1, after, id, DoAll(w1, after).held[id].lead);
    }
  }

  function OnAll(id: Id, steps: seq<Sequences.Step>): seq<Act> {
    if steps == [] then [] else [On(id, steps[0])] + OnAll(id, steps[1..])
  }

  lemma {:induction false} OnAllRuns(w: World, id: Id, steps: seq<Sequences.Step>)
    requires id in w.held && forall i | 0 <= i < |steps| :: IsOwnStep(steps[i])
    ensures var w' := DoAll(w, OnAll(id, steps));
            && w'.db == w.db && id in w'.held && Follows(w.held[id], w'.held[id], steps)
    decreases |steps|
  {
    if steps != [] {
      assert OnAll(id, steps)[1..] == OnAll(id, steps[1..]);
      assert forall i | 0 <= i < |steps[1..]| :: steps[1..][i] == steps[i + 1];
      OnAllRuns(Do(w, On(id, steps[0])), id, steps[1..]);
    }
  }

  // Up to the gate, with the handler of a reply that has read the row.
  function ToTheGate(): seq<Sequences.Step> { Load() + [Gate(true), Read] }

  predicate AtTheGate(e: Enrolment) {
    && e.pc == Gated(1) && e.row.step == 1 && e.row.state == READY && e.replies == [Some(READY)]
    && e.mails == [] && !e.suppressed
  }

  lemma {:induction false} FreshReachesTheGate(defined: set<int>)
    requires 1 in defined
    ensures AtTheGate(Sequences.Run(defined, Enrol(), ToTheGate()))
  {
    CleanLoad(defined, Enrol());
    Sequences.RunConcat(defined, Enrol(), Load(), [Gate(true), Read]);
    Sequences.RunTwo(defined, Sequences.Run(defined, Enrol(), Load()), Gate(true), Read);
  }

  lemma {:induction false} EnrolsFresh(db: S.Db, id: Id, lead: string, defined: set<int>)
    requires !S.Blocked(db, Norm(lead))
    ensures Do(Empty(db), EnrolLead(id, lead, defined)).db == db
    ensures id in Do(Empty(db), EnrolLead(id, lead, defined)).held
    ensures Do(Empty(db), EnrolLead(id, lead, defined)).held[id] == Held(lead, defined, Enrol())
  {
  }

  function EnrolToTheGate(id: Id, lead: string, defined: set<int>): seq<Act> {
    [EnrolLead(id, lead, defined)] + OnAll(id, ToTheGate())
  }

  lemma {:induction false} ReachesTheGate(db: S.Db, id: Id, lead: string, defined: set<int>)
    requires !S.Blocked(db, Norm(lead)) && 1 in defined
    ensures var w := DoAll(Empty(db), EnrolToTheGate(id, lead, defined));
            w.db == db && id in w.held && w.held[id].lead == lead && AtTheGate(w.held[id].enrolment)
  {
    var acts := EnrolToTheGate(id, lead, defined);
    assert acts[0] == EnrolLead(id, lead, defined) && acts[1..] == OnAll(id, ToTheGate());
    EnrolsFresh(db, id, lead, defined);
    OnAllRuns(Do(Empty(db), acts[0]), id, ToTheGate());
    FreshReachesTheGate(defined);
  }

  lemma {:induction false} SendPastTheGate(w: World, id: Id)
    requires id in w.held && w.held[id].enrolment.pc == Gated(1) && w.held[id].enrolment.mails == []
    ensures var w' := Do(w, On(id, Send(true)));
            id in w'.held && w'.held[id].enrolment.mails == [1]
  {
  }

  lemma {:induction false} GatedOptsOut(h: Held, h': Held)
    requires AtTheGate(h.enrolment) && Follows(h, h', [Sequences.Inbound(0, Reply.OptOut)])
    ensures h'.enrolment.row.state == UNSUBSCRIBED && h'.enrolment.suppressed
    ensures h'.enrolment.pc == Gated(1) && h'.enrolment.mails == []
  {
    RunOne(h.defined, h.enrolment, Sequences.Inbound(0, Reply.OptOut));
  }

  // An opt-out commits and then the mail goes out.
  ghost predicate MailedPastOptOut(w: World, id: Id, lead: string) {
    var w1 := Do(w, OptOutOf(id, 0));
    var w2 := Do(w1, On(id, Send(true)));
    && id in w1.held && id in w2.held && S.Blocked(w1.db, Norm(lead))
    && w1.held[id].enrolment.row.state == UNSUBSCRIBED && w1.held[id].enrolment.mails == []
    && w2.held[id].enrolment.mails == [1]
  }

  lemma {:induction false} GatedIsMailedPastOptOut(w: World, id: Id)
    requires Synced(w) && id in w.held && '@' in w.held[id].lead && AtTheGate(w.held[id].enrolment)
    ensures MailedPastOptOut(w, id, w.held[id].lead)
  {
    var w1 := Do(w, OptOutOf(id, 0));
    DoKeepsSynced(w, OptOutOf(id, 0));
    OwnOptOutProjects(w, id, 0);
    GatedOptsOut(w.held[id], w1.held[id]);
    SendPastTheGate(w1, id);
  }

  // That one mail is possible: the opt-out commits between the gate and the provider's answer.
  lemma {:induction false} OptOutPastTheGateIsMailed(db: S.Db, id: Id, lead: string, defined: set<int>)
    requires S.OptOutIsFinal(db) && '@' in lead && !S.Blocked(db, Norm(lead)) && 1 in defined
    ensures exists before: seq<Act> :: MailedPastOptOut(DoAll(Empty(db), before), id, lead)
  {
    ReachesTheGate(db, id, lead, defined);
    var before := EnrolToTheGate(id, lead, defined);
    DoAllKeepsSynced(Empty(db), before);
    GatedIsMailedPastOptOut(DoAll(Empty(db), before), id);
  }

  // ----- What a booking stops -----

  function Booked(w: World, lead: string): World { Do(w, BookLead(lead)) }

  lemma {:induction false} BookedEnrolment(db: S.Db, before: seq<Act>, lead: string, id: Id)
    requires S.OptOutIsFinal(db)
    requires id in DoAll(Empty(db), before).held && DoAll(Empty(db), before).held[id].lead == lead
    ensures var w, w1 := DoAll(Empty(db), before), Booked(DoAll(Empty(db), before), lead);
            && Synced(w1) && id in w1.held && w1.held[id] == BookHeld(w.held[id], lead)
            && TaskInv(w1.held[id].defined, w1.held[id].enrolment)
  {
    var w := DoAll(Empty(db), before);
    EveryEnrolmentIsARun(db, before, id);
    DoKeepsSynced(w, BookLead(lead));
    Sequences.ApplyKeepsTask(w.held[id].defined, w.held[id].enrolment, Book);
  }

  ghost predicate MailsOnceMore(w: World, id: Id)
    requires id in w.held
  {
    forall after: seq<Act> ::
      var w' := DoAll(w, after);
      id in w'.held && |w'.held[id].enrolment.mails| <= |w.held[id].enrolment.mails| + 1
  }

  lemma {:induction false} ContainedMailsOnceMore(w: World, id: Id)
    requires Synced(w) && id in w.held && TaskInv(w.held[id].defined, w.held[id].enrolment)
    requires Contained(w.held[id].defined, w.held[id].enrolment)
    ensures MailsOnceMore(w, id)
  {
    forall after: seq<Act>
      ensures var w' := DoAll(w, after);
              id in w'.held && |w'.held[id].enrolment.mails| <= |w.held[id].enrolment.mails| + 1
    {
      WorkspaceRunsProject(w, id, after);
      ContainedRuns(w.held[id].defined, w.held[id].enrolment, Project(w, id, after));
    }
  }

  lemma {:induction false} OtherwiseMailsOn(w: World, id: Id)
    requires id in w.held && TaskInv(w.held[id].defined, w.held[id].enrolment)
    requires !Contained(w.held[id].defined, w.held[id].enrolment)
    ensures !MailsOnceMore(w, id)
  {
    var steps := NotContainedMailsTwice(w.held[id].defined, w.held[id].enrolment);
    assert forall i | 0 <= i < |steps| :: steps[i] in steps;
    OnAllRuns(w, id, steps);
    assert !(|DoAll(w, OnAll(id, steps)).held[id].enrolment.mails| <= |w.held[id].enrolment.mails| + 1);
  }

  // After a booking an enrolment of the lead gets one mail more at most, whatever happens in the
  // workspace, exactly when its address is suppressed or neither a release nor the task will write over
  // the booking by an older copy of the row.
  lemma {:induction false} BookingStopsExactly(db: S.Db, before: seq<Act>, lead: string, id: Id)
    requires S.OptOutIsFinal(db)
    requires id in DoAll(Empty(db), before).held && DoAll(Empty(db), before).held[id].lead == lead
    ensures var w1 := Booked(DoAll(Empty(db), before), lead);
            && id in w1.held
            && (MailsOnceMore(w1, id) <==> Contained(w1.held[id].defined, w1.held[id].enrolment))
  {
    BookedEnrolment(db, before, lead, id);
    var w1 := Booked(DoAll(Empty(db), before), lead);
    if Contained(w1.held[id].defined, w1.held[id].enrolment) {
      ContainedMailsOnceMore(w1, id);
    } else {
      OtherwiseMailsOn(w1, id);
    }
  }

  // And an enrolment that no session will write over stays MEETING_BOOKED, or in the terminal state the
  // booking found it in.
  lemma {:induction false} BookingStays(db: S.Db, before: seq<Act>, lead: string, after: seq<Act>, id: Id)
    requires S.OptOutIsFinal(db)
    requires id in DoAll(Empty(db), before).held && DoAll(Empty(db), before).held[id].lead == lead
    ensures var w1 := Booked(DoAll(Empty(db), before), lead);
            var w2 := DoAll(w1, after);
            && id in w1.held && id in w2.held && IsTerminal(w1.held[id].enrolment.row.state)
            && (!Overwritable(w1.held[id].defined, w1.held[id].enrolment) ==>
                  SameStop(w1.held[id].enrolment, w2.held[id].enrolment))
  {
    BookedEnrolment(db, before, lead, id);
    var w1 := Booked(DoAll(Empty(db), before), lead);
    var h := w1.held[id];
    WorkspaceRunsProject(w1, id, after);
    if !Overwritable(h.defined, h.enrolment) {
      StoppedRuns(h.defined, h.enrolment, Project(w1, id, after));
    }
  }
}
