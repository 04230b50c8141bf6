/**
The states of a lead's enrolment in a campaign, the table of allowed moves, and the one routine that
makes a move: it changes the row and appends an audit event, or refuses and changes nothing.
*/
module LeadStates {
  import opened Options

  datatype LeadState =
    | QUEUED | WAITING | READY | SENT | REPLIED | PAUSED
    | UNSUBSCRIBED | BOUNCED | MEETING_BOOKED | QUALIFIED | DISQUALIFIED | HANDOFF | COMPLETED

  predicate IsTerminal(s: LeadState) {
    s.UNSUBSCRIBED? || s.BOUNCED? || s.MEETING_BOOKED? || s.QUALIFIED? || s.DISQUALIFIED? || s.HANDOFF? || s.COMPLETED?
  }

  // The table of allowed moves, a line for each state to move from.
  predicate CanTransition(from: LeadState, to: LeadState) {
    match from
    case QUEUED => to.WAITING? || to.READY? || to.PAUSED? || to.DISQUALIFIED? || to.UNSUBSCRIBED?
    case WAITING =>
      || to.READY? || to.PAUSED? || to.REPLIED? || to.UNSUBSCRIBED? || to.BOUNCED?
      || to.MEETING_BOOKED? || to.QUALIFIED? || to.DISQUALIFIED? || to.HANDOFF? || to.COMPLETED?
    case READY => to.SENT? || to.PAUSED? || to.DISQUALIFIED? || to.UNSUBSCRIBED? || to.BOUNCED?
    case SENT =>
      || to.WAITING? || to.REPLIED? || to.UNSUBSCRIBED? || to.BOUNCED? || to.MEETING_BOOKED?
      || to.QUALIFIED? || to.DISQUALIFIED? || to.HANDOFF? || to.COMPLETED? || to.PAUSED?
    case REPLIED =>
      || to.MEETING_BOOKED? || to.QUALIFIED? || to.DISQUALIFIED? || to.HANDOFF? || to.UNSUBSCRIBED? || to.COMPLETED?
    case PAUSED => to.QUEUED? || to.WAITING? || to.READY? || to.UNSUBSCRIBED? || to.DISQUALIFIED?
    case _ => false
  }

  datatype Event = StateTransition(previous: LeadState, current: LeadState)

  datatype Row = Row(state: LeadState, step: int, nextAt: Option<int>, events: seq<Event>)

  // A session moves the row from the state its own copy shows, which is the row's state when the session
  // last read it, and writes over whatever the row holds by now.  None is the source's
  // InvalidStateTransitionError.
  function Write(r: Row, seen: LeadState, to: LeadState): Option<Row> {
    if seen == to then Some(r)
    else if CanTransition(seen, to) then
      Some(r.(state := to,
              nextAt := if IsTerminal(to) then None else r.nextAt,
              events := r.events + [StateTransition(seen, to)]))
    else None
  }

  predicate Permits(seen: LeadState, to: LeadState) { seen == to || CanTransition(seen, to) }

  function WriteOrStay(r: Row, seen: LeadState, to: LeadState): Row {
    match Write(r, seen, to) case Some(r') => r' case None => r
  }

  class CampaignLead {
    var state: LeadState
    var currentStepNumber: int
    var nextActionAt: Option<int>
    var events: seq<Event>

    constructor ()
      ensures Value() == Row(QUEUED, 1, None, [])
    {
      state := QUEUED;
      currentStepNumber := 1;
      nextActionAt := None;
      events := [];
    }

    function Value(): Row
      reads this
    {
      Row(state, currentStepNumber, nextActionAt, events)
    }

    // current is the state the calling session's copy shows; after a commit the copy is read again.
    method TransitionLeadState(current: LeadState, newState: LeadState) returns (ok: bool, copy: LeadState)
      modifies this
      ensures ok == Write(old(Value()), current, newState).Some?
      ensures Value() == WriteOrStay(old(Value()), current, newState)
      ensures copy == if ok then newState else current
    {
      if current == newState {
        return true, current;
      }
      if !CanTransition(current, newState) {
        return false, current;
      }
      state := newState;
      if IsTerminal(newState) {
        nextActionAt := None;
      }
      events := events + [StateTransition(current, newState)];
      return true, state;
    }
  }

  // ----- Audit replay -----

  // The state an auditor reads off the events.
  function Replay(events: seq<Event>): LeadState {
    if events == [] then QUEUED else events[|events| - 1].current
  }

  // Each event starts in the state the one before it ended in, the first in QUEUED.
  predicate IsChain(events: seq<Event>) {
    forall i | 0 <= i < |events| :: events[i].previous == Replay(events[..i])
  }

  // Events that do not.
  function Breaks(events: seq<Event>): nat {
    if events == [] then 0
    else
      var before := events[..|events| - 1];
      Breaks(before) + if events[|events| - 1].previous == Replay(before) then 0 else 1
  }

  // Every event is a move of the table, and they replay to the current state; the one exception is a
  // confirmed meeting, whose booking writes MEETING_BOOKED over a state that is not terminal.
  predicate IsTrail(s: LeadState, events: seq<Event>) {
    && (forall e <- events :: CanTransition(e.previous, e.current))
    && (Replay(events) == s || (s == MEETING_BOOKED && !IsTerminal(Replay(events))))
  }

  predicate Audited(r: Row) { IsTrail(r.state, r.events) }

  lemma {:induction false} BreaksExtend(events: seq<Event>, e: Event)
    ensures Breaks(events + [e]) == Breaks(events) + if e.previous == Replay(events) then 0 else 1
    ensures Replay(events + [e]) == e.current
  {
    assert (events + [e])[..|events|] == events;
  }

  lemma {:induction false} ChainExtends(events: seq<Event>)
    requires events != []
    ensures var before := events[..|events| - 1];
            IsChain(events) <==> IsChain(before) && events[|events| - 1].previous == Replay(before)
  {
    var before := events[..|events| - 1];
    assert forall i | 0 <= i < |before| :: before[i] == events[i] && before[..i] == events[..i];
  }

  lemma {:induction false} ChainHasNoBreaks(events: seq<Event>)
    ensures IsChain(events) <==> Breaks(events) == 0
    decreases |events|
  {
    if events != [] {
      var before := events[..|events| - 1];
      ChainHasNoBreaks(before);
      ChainExtends(events);
    }
  }

  // The terminal states are exactly those the table gives no way out of.
  lemma {:induction false} TerminalExactly(s: LeadState)
    ensures IsTerminal(s) <==> forall to: LeadState :: !CanTransition(s, to)
  {
    if !IsTerminal(s) {
      assert CanTransition(s, UNSUBSCRIBED);
    }
  }

  // A move to the state already shown is no move, and none but those the table lacks are refused.
  lemma {:induction false} RefusedExactly(r: Row, seen: LeadState, to: LeadState)
    ensures Write(r, seen, seen) == Some(r)
    ensures Write(r, seen, to) == None <==> seen != to && !CanTransition(seen, to)
  {
  }

  // The table the other way round: the states from which each state can be reached.
  lemma {:induction false} EnteredFrom(from: LeadState, to: LeadState)
    ensures CanTransition(from, to) <==>
            match to
            case QUEUED => from.PAUSED?
            case WAITING => from.QUEUED? || from.SENT? || from.PAUSED?
            case READY => from.QUEUED? || from.WAITING? || from.PAUSED?
            case SENT => from.READY?
            case REPLIED => from.WAITING? || from.SENT?
            case PAUSED => from.QUEUED? || from.WAITING? || from.READY? || from.SENT?
            case UNSUBSCRIBED => !IsTerminal(from)
            case DISQUALIFIED => !IsTerminal(from)
            case BOUNCED => from.WAITING? || from.READY? || from.SENT?
            case _ => from.WAITING? || from.SENT? || from.REPLIED?
  {
  }

  // Whatever copy a move is made from, its event is a move of the table and names the new state.
  lemma {:induction false} WriteKeepsAudited(r: Row, seen: LeadState, to: LeadState)
    requires Audited(r)
    ensures Audited(WriteOrStay(r, seen, to))
  {
    if seen != to && CanTransition(seen, to) {
      assert Replay(r.events + [StateTransition(seen, to)]) == to;
    }
  }
}
