/** The append-only audit log, and the transitions that can be read back from it. */
module Audit {
  import opened StateMachine
  import opened Entities

  /** What an audit event says: its action together with the payload of that action. */
  datatype Action =
    | StateTransition(from: State, to: State, reason: string)
    | WebhookReject(why: string)
    | WebhookDuplicate(eventId: string)
    | WebhookAdvance(eventId: string, from: State, to: State)
    | WebhookAccept(eventId: string)
    | ScreeningRun(hits: nat, manualReview: bool)
    | ScreeningDisposition(disposition: string)
    | ReKYCScheduled
    | ReKYCTriggered(userId: string)
    | RetentionSweep(documents: nat, sessions: nat)
    | Note(action: string)

  datatype AuditEvent = AuditEvent(aggregate: string, action: Action, actor: string)

  function TransitionEvent(t: Transition): AuditEvent {
    AuditEvent(t.appId, StateTransition(t.from, t.to, t.reason), t.actor)
  }

  /** The transitions in a log, in order. */
  function Transitions(events: seq<AuditEvent>): seq<Transition> {
    if events == [] then []
    else
      var e := events[|events| - 1];
      Transitions(events[..|events| - 1])
      + (if e.action.StateTransition?
         then [Transition(e.aggregate, e.action.from, e.action.to, e.actor, e.action.reason)]
         else [])
  }

  lemma {:induction false} TransitionsConcat(a: seq<AuditEvent>, b: seq<AuditEvent>)
    ensures Transitions(a + b) == Transitions(a) + Transitions(b)
  {
    if b == [] {
      assert a + b == a;
    } else {
      assert (a + b)[..|a + b| - 1] == a + b[..|b| - 1];
      TransitionsConcat(a, b[..|b| - 1]);
    }
  }

  /** Logging a transition and reading the log back gives the transition. */
  lemma TransitionIsReadBack(events: seq<AuditEvent>, t: Transition)
    ensures Transitions(events + [TransitionEvent(t)]) == Transitions(events) + [t]
  {
    TransitionsConcat(events, [TransitionEvent(t)]);
    assert [TransitionEvent(t)][..0] == [];
  }

  /** Transitions as they are logged. */
  function AsEvents(ts: seq<Transition>): seq<AuditEvent> {
    if ts == [] then [] else [TransitionEvent(ts[0])] + AsEvents(ts[1..])
  }

  lemma Regroup<T>(a: seq<T>, b: seq<T>, c: seq<T>)
    ensures a + (b + c) == (a + b) + c
  {
  }

  /** A log that gains some transitions says just those more. */
  lemma {:induction false} LoggedAreReadBack(events: seq<AuditEvent>, ts: seq<Transition>)
    ensures Transitions(events + AsEvents(ts)) == Transitions(events) + ts
    decreases ts
  {
    if ts == [] {
      assert events + AsEvents(ts) == events;
    } else {
      var first, rest := [TransitionEvent(ts[0])], AsEvents(ts[1..]);
      TransitionIsReadBack(events, ts[0]);
      LoggedAreReadBack(events + first, ts[1..]);
      Regroup(events, first, rest);
      Regroup(Transitions(events), [ts[0]], ts[1..]);
    }
  }

  /** Any other event leaves the transitions as they were. */
  lemma OtherEventIsNoTransition(events: seq<AuditEvent>, e: AuditEvent)
    requires !e.action.StateTransition?
    ensures Transitions(events + [e]) == Transitions(events)
  {
    assert (events + [e])[..|events|] == events;
  }

  class AuditLog {
    var events: seq<AuditEvent>

    constructor ()
      ensures events == []
    {
      events := [];
    }

    method Record(aggregate: string, action: Action, actor: string)
      modifies this
      ensures events == old(events) + [AuditEvent(aggregate, action, actor)]
    {
      events := events + [AuditEvent(aggregate, action, actor)];
    }

    /** The sink of the repositories: a logged transition is what the log then says. */
    method RecordTransition(appId: string, from: State, to: State, actor: string, reason: string)
      modifies this
      ensures var t := Transition(appId, from, to, actor, reason);
        && events == old(events) + AsEvents([t])
        && Transitions(events) == old(Transitions(events)) + [t]
    {
      Record(appId, StateTransition(from, to, reason), actor);
      ghost var t := Transition(appId, from, to, actor, reason);
      assert AsEvents([t]) == [TransitionEvent(t)] + AsEvents([t][1..]);
      TransitionIsReadBack(old(events), t);
    }

    /** A copy: what is later recorded does not show in it. */
    method List() returns (copied: seq<AuditEvent>)
      ensures copied == events
    {
      copied := [];
      for i := 0 to |events|
        invariant copied == events[..i]
      {
        copied := copied + [events[i]];
      }
    }
  }
}
