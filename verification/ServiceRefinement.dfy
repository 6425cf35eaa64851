/** The step machine against the services run on their own: when one client's steps meet no
    others, they come to what the webhook service, the scheduler and the screening service
    are proved to do. */
module ServiceRefinement {
  import opened StateMachine
  import opened Entities
  import opened Repository
  import opened RepositoryRuns
  import opened Audit
  import opened Decisions
  import opened SanctionsHits
  import opened WebhookSignature
  import opened WebhookIngest
  import opened Scheduler
  import opened Screening
  import opened ServiceMachine

  // ---- webhooks ----

  /** Ingest, read and write in a row; a step that does not fit does nothing. */
  ghost function HookRun(w: World, c: nat, d: Delivery, verified: bool): World {
    Take(Take(Take(w, IngestStep(c, d.vendor, verified, d.eventId, d.parsed)), HookReadStep(c)), WriteStep(c, d.now))
  }

  lemma TakesHookRead(w: World, c: nat)
    requires c < |w.clients| && w.clients[c].HookSeen?
    ensures Take(w, HookReadStep(c)) == TakeHookRead(w, c)
  {
  }

  lemma TakesWrite(w: World, c: nat, now: Time)
    requires c < |w.clients| && now != ZERO_TIME && (w.clients[c].Ready? || w.clients[c] == Idle)
    ensures Take(w, WriteStep(c, now)) == if w.clients[c].Ready? then TakeWrite(w, c, now) else w
  {
  }

  /** The write a webhook client makes for an accepted event. */
  lemma HookMoves(w: World, c: nat, d: Delivery, e: VendorEvent)
    requires c < |w.clients| && Indexed(w.repo.store) && e.appId != ""
    requires w.clients[c] == HookSeen(d.vendor, EffectiveId(d.eventId), e.appId, e.outcome)
    ensures var w1 := TakeHookRead(w, c);
      var out := ReconcileEvent(w.repo.store, d, e);
      && w1.seen == w.seen && w1.repo.store == w.repo.store && w1.log == w.log && |w1.clients| == |w.clients|
      && (w1.clients[c].Ready? ==> Exec(w1.repo.store, WriteCall(w1.clients[c]), d.now) == out)
      && (!w1.clients[c].Ready? ==> w1.clients[c] == Idle && out.store == w.repo.store && out.events == [])
  {
  }

  lemma HookWrites(w: World, c: nat, d: Delivery, e: VendorEvent)
    requires c < |w.clients| && d.now != ZERO_TIME && Indexed(w.repo.store) && e.appId != ""
    requires w.clients[c] == HookSeen(d.vendor, EffectiveId(d.eventId), e.appId, e.outcome)
    ensures var w' := Take(Take(w, HookReadStep(c)), WriteStep(c, d.now));
      var out := ReconcileEvent(w.repo.store, d, e);
      && w'.seen == w.seen && w'.repo.store == out.store && w'.log == w.log + AsEvents(out.events)
  {
    TakesHookRead(w, c);
    HookMoves(w, c, d, e);
    var w1 := TakeHookRead(w, c);
    TakesWrite(w1, c, d.now);
    if w1.clients[c].Ready? {
      WrittenBy(w1, c, d.now);
    } else {
      assert w.log + [] == w.log;
    }
  }

  lemma WrittenBy(w: World, c: nat, now: Time)
    requires c < |w.clients| && w.clients[c].Ready?
    ensures var out := Exec(w.repo.store, WriteCall(w.clients[c]), now);
      var w' := TakeWrite(w, c, now);
      && w'.seen == w.seen && w'.hits == w.hits && w'.repo.store == out.store && w'.log == w.log + AsEvents(out.events)
      && |w'.clients| == |w.clients| && w'.clients[c] == Idle
  {
  }

  /** An uninterrupted webhook client leaves the seen set, the applications and the logged
      transitions that the webhook service leaves. */
  lemma HookRunsAsDelivered(w: World, c: nat, d: Delivery, check: Check)
    requires c < |w.clients| && w.clients[c] == Idle && d.now != ZERO_TIME && Indexed(w.repo.store)
    ensures var h := Deliver(check, Hooks(w.seen, w.repo.store, w.log), d).0;
      var w' := HookRun(w, c, d, check(d) == Valid);
      && w'.seen == h.seen && w'.repo.store == h.store && Transitions(w'.log) == Transitions(h.log)
  {
    var w1 := Take(w, IngestStep(c, d.vendor, check(d) == Valid, d.eventId, d.parsed));
    assert w1 == TakeIngest(w, c, d.vendor, check(d) == Valid, d.eventId, d.parsed);
    if w1.clients[c] == Idle {
      IdleRests(w1, c, d.now);
      IdleDelivers(w, d, check);
    } else {
      assert w1.repo == w.repo && w1.log == w.log;
      HookWrites(w1, c, d, d.parsed.value);
      AcceptedTransitions(w.log, w.repo.store, d, d.parsed.value);
    }
  }

  lemma IdleRests(w: World, c: nat, now: Time)
    requires c < |w.clients| && w.clients[c] == Idle
    ensures Take(Take(w, HookReadStep(c)), WriteStep(c, now)) == w
  {
  }

  /** A delivery that goes no further than the seen set moves nothing. */
  lemma IdleDelivers(w: World, d: Delivery, check: Check)
    requires check(d) != Valid || EffectiveId(d.eventId) in w.seen || d.parsed.None? || d.parsed.value.appId == ""
    ensures var h := Deliver(check, Hooks(w.seen, w.repo.store, w.log), d).0;
      && h.store == w.repo.store && Transitions(h.log) == Transitions(w.log)
      && h.seen == if check(d) != Valid then w.seen else w.seen + {EffectiveId(d.eventId)}
  {
    var before := Hooks(w.seen, w.repo.store, w.log);
    if check(d) == Valid && EffectiveId(d.eventId) !in w.seen && d.parsed.Some? {
      AcceptedTransitions(w.log, w.repo.store, d, d.parsed.value);
      assert Transitions(w.log) + [] == Transitions(w.log);
    } else {
      NoteOnly(check, before, d);
    }
  }

  lemma AcceptedTransitions(log: seq<AuditEvent>, s: Store, d: Delivery, e: VendorEvent)
    ensures Transitions(log + AcceptedEvents(s, d, e)) == Transitions(log) + ReconcileEvent(s, d, e).events
    ensures Transitions(log + AsEvents(ReconcileEvent(s, d, e).events))
         == Transitions(log) + ReconcileEvent(s, d, e).events
  {
    NewTransitions(log, s, d, e);
    LoggedAreReadBack(log, ReconcileEvent(s, d, e).events);
  }

  // ---- the scheduler ----

  function Names(order: seq<Application>): seq<ReKYCDue> {
    seq(|order|, i requires 0 <= i < |order| => ReKYCDue(order[i].id, order[i].version))
  }

  /** Listing what is due and re-opening the first `k` of it. */
  ghost function TickRun(w: World, c: nat, asOf: Time, order: seq<Application>, clock: nat -> Time, k: nat): World {
    if k == 0 then Take(w, TickListStep(c, asOf, order))
    else Take(TickRun(w, c, asOf, order, clock, k - 1), TickReopenStep(c, clock(k - 1)))
  }

  /** A list of the due, `k` of them done: what the client holds and the store is in. */
  ghost predicate Passed(w: World, w': World, c: nat, asOf: Time, order: seq<Application>, pass: TickResult, k: nat)
    requires k <= |order|
  {
    && w'.repo.store == pass.store && c < |w'.clients| && w'.returned == w.returned
    && w'.clients[c] == Ticking(asOf, order[k..], pass.reopened)
  }

  lemma TickReopensNext(w: World, w': World, c: nat, asOf: Time, order: seq<Application>, pass: TickResult, k: nat,
                        now: Time)
    requires k < |order| && Passed(w, w', c, asOf, order, pass, k) && now != ZERO_TIME
    ensures Take(w', TickReopenStep(c, now)) == TakeTickReopen(w', c, now)
    ensures Passed(w, TakeTickReopen(w', c, now), c, asOf, order,
                   TickStep(pass, ReKYCDue(order[k].id, order[k].version), now), k + 1)
  {
    assert order[k..][0] == order[k] && order[k..][1..] == order[k + 1..];
  }

  lemma TakesTickList(w: World, c: nat, asOf: Time, order: seq<Application>)
    requires c < |w.clients| && w.clients[c] == Idle && ServiceMachine.ListsDue(w.repo.store, asOf, order)
    ensures Take(w, TickListStep(c, asOf, order)) == Set(w, c, Ticking(asOf, order, 0))
  {
  }

  lemma {:induction false} TickRunsAsPass(w: World, c: nat, asOf: Time, order: seq<Application>, clock: nat -> Time,
                                          k: nat)
    requires c < |w.clients| && w.clients[c] == Idle && ServiceMachine.ListsDue(w.repo.store, asOf, order)
    requires k <= |order| && forall i :: clock(i) != ZERO_TIME
    ensures Passed(w, TickRun(w, c, asOf, order, clock, k), c, asOf, order,
                   Ticked(w.repo.store, Names(order)[..k], clock), k)
  {
    if k == 0 {
      TakesTickList(w, c, asOf, order);
      assert order[0..] == order && Names(order)[..0] == [];
    } else {
      TickRunsAsPass(w, c, asOf, order, clock, k - 1);
      var before := TickRun(w, c, asOf, order, clock, k - 1);
      var pass := Ticked(w.repo.store, Names(order)[..k - 1], clock);
      assert Names(order)[..k][..k - 1] == Names(order)[..k - 1];
      assert Names(order)[..k][k - 1] == ReKYCDue(order[k - 1].id, order[k - 1].version);
      TickReopensNext(w, before, c, asOf, order, pass, k - 1, clock(k - 1));
    }
  }

  lemma TickReturns(w: World, w': World, c: nat, asOf: Time, order: seq<Application>, pass: TickResult)
    requires Passed(w, w', c, asOf, order, pass, |order|)
    ensures var finish := Take(w', TickReturnStep(c));
      finish.repo.store == pass.store && finish.returned == w.returned + pass.reopened
  {
    assert order[|order|..] == [];
  }

  /** An uninterrupted tick leaves the applications the verified pass leaves, and returns its
      count. */
  lemma TickReturnsAsPass(w: World, c: nat, asOf: Time, order: seq<Application>, clock: nat -> Time)
    requires c < |w.clients| && w.clients[c] == Idle && Indexed(w.repo.store)
    requires ServiceMachine.ListsDue(w.repo.store, asOf, order) && forall i :: clock(i) != ZERO_TIME
    ensures NamesDue(w.repo.store, Names(order), asOf)
    ensures var pass := Ticked(w.repo.store, Names(order), clock);
      var w' := Take(TickRun(w, c, asOf, order, clock, |order|), TickReturnStep(c));
      && w'.repo.store == pass.store && w'.returned == w.returned + pass.reopened
  {
    NamesAreDue(w.repo.store, asOf, order);
    TickRunsAsPass(w, c, asOf, order, clock, |order|);
    assert Names(order)[..|order|] == Names(order);
    var pass := Ticked(w.repo.store, Names(order), clock);
    TickReturns(w, TickRun(w, c, asOf, order, clock, |order|), c, asOf, order, pass);
  }

  lemma NamesAreDue(s: Store, asOf: Time, order: seq<Application>)
    requires Indexed(s) && ServiceMachine.ListsDue(s, asOf, order)
    ensures NamesDue(s, Names(order), asOf)
  {
    var names := Names(order);
    forall d
      ensures d in names <==> d in DueSet(s, asOf)
    {
      if d in names {
        var i :| 0 <= i < |names| && names[i] == d;
        assert order[i] in order;
      }
      if d in DueSet(s, asOf) {
        var id :| id in s.apps && IsDue(s.apps[id], asOf) && d == ReKYCDue(s.apps[id].id, s.apps[id].version);
        assert s.apps[id] in order;
        var i :| 0 <= i < |order| && order[i] == s.apps[id];
        assert names[i] == d;
      }
    }
    forall i, j | 0 <= i < j < |names|
      ensures names[i].id != names[j].id
    {
      assert order[i] in order && order[j] in order;
    }
  }

  // ---- dispositions ----

  ghost function DispositionRun(w: World, c: nat, id: string, clear: bool, who: string, marked: Time, now: Time)
    : World
  {
    Take(Take(Take(w, ReadStep(c, Dispose(clear, who), id)), MarkHitsStep(c, marked)), WriteStep(c, now))
  }

  /** The read of a disposition, and what follows from it. */
  lemma DispositionReads(w: World, c: nat, id: string, clear: bool, who: string)
    requires c < |w.clients| && w.clients[c] == Idle
    ensures Take(w, ReadStep(c, Dispose(clear, who), id)) ==
      if DispositionReply(w.repo.store, id, ReviewOf(clear)).Err? then w
      else Set(w, c, Read(Dispose(clear, who), id, w.repo.store.apps[id]))
  {
    assert Take(w, ReadStep(c, Dispose(clear, who), id)) == TakeRead(w, c, Dispose(clear, who), id);
  }

  lemma TakesMark(w: World, c: nat, now: Time)
    requires c < |w.clients| && ((w.clients[c].Read? && w.clients[c].task.Dispose?) || w.clients[c] == Idle)
    ensures Take(w, MarkHitsStep(c, now)) == if w.clients[c] == Idle then w else TakeMarkHits(w, c, now)
  {
  }

  /** What an uninterrupted disposition leaves: what the screening service does, or nothing
      where that answers with an error. */
  ghost predicate ServedAs(w: World, id: string, review: Review, who: string, marked: Time, now: Time, w': World) {
    if DispositionReply(w.repo.store, id, review).Err? then w' == w
    else
      && Disposed(w.repo.store, id, review, now, w'.repo.store)
      && w'.hits == Marked(w.hits, id, who, review, marked)
      && Transitions(w'.log) == Transitions(w.log)
           + [Transition(id, ManualReview, TargetOf(review), who, DispositionReason(review))]
  }

  lemma DispositionRunsAsServed(w: World, c: nat, id: string, clear: bool, who: string, marked: Time, now: Time)
    requires c < |w.clients| && w.clients[c] == Idle && now != ZERO_TIME
    ensures ServedAs(w, id, ReviewOf(clear), who, marked, now, DispositionRun(w, c, id, clear, who, marked, now))
  {
    DispositionReads(w, c, id, clear, who);
    var w1 := Take(w, ReadStep(c, Dispose(clear, who), id));
    TakesMark(w1, c, marked);
    var w2 := Take(w1, MarkHitsStep(c, marked));
    TakesWrite(w2, c, now);
    if DispositionReply(w.repo.store, id, ReviewOf(clear)).Ok? {
      MarkedDecides(w, w1, c, id, clear, who, marked, now);
    }
  }

  lemma MarkedDecides(w: World, w1: World, c: nat, id: string, clear: bool, who: string, marked: Time, now: Time)
    requires c < |w.clients| && DispositionReply(w.repo.store, id, ReviewOf(clear)).Ok?
    requires w1 == Set(w, c, Read(Dispose(clear, who), id, w.repo.store.apps[id]))
    ensures ServedAs(w, id, ReviewOf(clear), who, marked, now, TakeWrite(TakeMarkHits(w1, c, marked), c, now))
  {
    var w2 := TakeMarkHits(w1, c, marked);
    var review := ReviewOf(clear);
    WrittenBy(w2, c, now);
    DispositionMoves(w.repo.store, id, w.repo.store.apps[id].version, review, who, now);
    LoggedAreReadBack(w.log, [Transition(id, ManualReview, TargetOf(review), who, DispositionReason(review))]);
    assert WriteCall(w2.clients[c])
        == UpdateState(id, w.repo.store.apps[id].version, TargetOf(review), who, DispositionReason(review));
  }
}
