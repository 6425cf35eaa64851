/** Whether the sanctions hits of a decided application say what was decided. Analysts mark
    the hits and decide in separate steps, webhooks decide without marking, and screening
    runs add hits at any time. */
module ReviewTheorems {
  import opened StateMachine
  import opened Entities
  import opened Repository
  import opened RepositoryRuns
  import opened Audit
  import opened Decisions
  import opened SanctionsHits
  import opened ServiceMachine
  import opened ServiceInvariants
  import opened ServiceFootprints
  import opened ServiceTheorems

  // ---- what the hits say, from what happened ----

  /** The review written on one hit. */
  datatype Mark = Mark(disposition: Option<Review>, who: string)

  const UNMARKED := Mark(None, "")

  function MarksOf(hits: seq<Hit>): seq<Mark> {
    seq(|hits|, i requires 0 <= i < |hits| => Mark(hits[i].disposition, hits[i].reviewedBy))
  }

  /** The marks on the hits of one application, worked out from the run alone. */
  function MarksFrom(trace: seq<Observation>, id: string): seq<Mark> {
    if trace == [] then []
    else
      var front := MarksFrom(trace[..|trace| - 1], id);
      match trace[|trace| - 1]
      case HitAdded(i) => if i == id then front + [UNMARKED] else front
      case HitsMarked(i, clear, who) => if i == id then seq(|front|, _ => Mark(Some(ReviewOf(clear)), who)) else front
      case _ => front
  }

  ghost predicate HitsOk(w: World) {
    forall id :: MarksOf(HitsOf(w.hits, id)) == MarksFrom(w.trace, id)
  }

  lemma MarksFromSnoc(trace: seq<Observation>, o: Observation, id: string)
    ensures MarksFrom(trace + [o], id) ==
      match o
      case HitAdded(i) => if i == id then MarksFrom(trace, id) + [UNMARKED] else MarksFrom(trace, id)
      case HitsMarked(i, clear, who) =>
        if i == id then seq(|MarksFrom(trace, id)|, _ => Mark(Some(ReviewOf(clear)), who)) else MarksFrom(trace, id)
      case _ => MarksFrom(trace, id)
  {
    assert (trace + [o])[..|trace|] == trace;
  }

  lemma AddHitKeepsHits(w: World, c: nat, hitId: string)
    requires HitsOk(w) && c < |w.clients| && w.clients[c].Adding? && w.clients[c].left != []
    ensures HitsOk(TakeAddHit(w, c, hitId))
  {
    var w' := TakeAddHit(w, c, hitId);
    var l := w.clients[c];
    forall id
      ensures MarksOf(HitsOf(w'.hits, id)) == MarksFrom(w'.trace, id)
    {
      MarksFromSnoc(w.trace, HitAdded(l.id), id);
      assert MarksOf(HitsOf(w.hits, id)) == MarksFrom(w.trace, id);
    }
  }

  lemma MarkHitsKeepsHits(w: World, c: nat, now: Time)
    requires HitsOk(w) && c < |w.clients| && w.clients[c].Read? && w.clients[c].task.Dispose?
    ensures HitsOk(TakeMarkHits(w, c, now))
  {
    var w' := TakeMarkHits(w, c, now);
    var l := w.clients[c];
    forall id
      ensures MarksOf(HitsOf(w'.hits, id)) == MarksFrom(w'.trace, id)
    {
      MarksFromSnoc(w.trace, HitsMarked(l.id, l.task.clear, l.task.reviewer), id);
      assert MarksOf(HitsOf(w.hits, id)) == MarksFrom(w.trace, id);
    }
  }

  /** All other steps leave the hits alone and observe nothing about them. */
  lemma OthersLeaveHits(w: World, s: Step)
    requires !s.AddHitStep? && !s.MarkHitsStep? && Take(w, s) != w
    ensures var w' := Take(w, s);
      && LeavesHits(w, w')
      && (w'.trace == w.trace || (w'.trace != [] && w'.trace == w.trace + [w'.trace[|w'.trace| - 1]]))
  {
    if Client(s).None? {
      NobodysFootprint(w, s);
    } else if s.WriteStep? || s.TickReopenStep? {
      WritesFootprint(w, s);
    } else {
      OthersFootprint(w, s);
    }
  }

  lemma TakeKeepsHits(w: World, s: Step)
    requires HitsOk(w)
    ensures HitsOk(Take(w, s))
  {
    var w' := Take(w, s);
    if w' == w {
    } else if s.AddHitStep? {
      AddHitKeepsHits(w, s.c, s.hitId);
    } else if s.MarkHitsStep? {
      MarkHitsKeepsHits(w, s.c, s.now);
    } else {
      OthersLeaveHits(w, s);
      if w'.trace != w.trace {
        forall id
          ensures MarksFrom(w'.trace, id) == MarksFrom(w.trace, id)
        {
          MarksFromSnoc(w.trace, w'.trace[|w'.trace| - 1], id);
        }
      }
    }
  }

  lemma {:induction false} ReachedHitsOk(clients: nat, steps: seq<Step>)
    ensures HitsOk(After(clients, steps))
  {
    if steps != [] {
      ReachedHitsOk(clients, steps[..|steps| - 1]);
      TakeKeepsHits(After(clients, steps[..|steps| - 1]), steps[|steps| - 1]);
    }
  }

  // ---- marks ----

  predicate MarksApp(o: Observation, id: string) {
    o.HitsMarked? && o.id == id
  }

  /** The last time anybody marked the hits of the application. */
  ghost predicate LastMark(trace: seq<Observation>, id: string, m: nat) {
    m < |trace| && MarksApp(trace[m], id) && forall e | m < e < |trace| :: !MarksApp(trace[e], id)
  }

  function AddedAfter(trace: seq<Observation>, id: string, m: nat): nat {
    if |trace| <= m then 0
    else AddedAfter(trace[..|trace| - 1], id, m) + (if trace[|trace| - 1] == HitAdded(id) then 1 else 0)
  }

  lemma {:induction false} MarksSinceLast(trace: seq<Observation>, id: string, m: nat)
    requires LastMark(trace, id, m)
    ensures var n := AddedAfter(trace, id, m);
      var marks := MarksFrom(trace, id);
      && n <= |marks|
      && (forall i | 0 <= i < |marks| - n :: marks[i] == Mark(Some(ReviewOf(trace[m].clear)), trace[m].reviewer))
      && (forall i | |marks| - n <= i < |marks| :: marks[i] == UNMARKED)
  {
    var n := |trace| - 1;
    if m < n {
      assert LastMark(trace[..n], id, m);
      MarksSinceLast(trace[..n], id, m);
    } else {
      assert trace[..m] == trace[..n] && AddedAfter(trace[..n], id, m) == 0;
    }
  }

  lemma {:induction false} NeverMarked(trace: seq<Observation>, id: string)
    requires forall e | 0 <= e < |trace| :: !MarksApp(trace[e], id)
    ensures forall i | 0 <= i < |MarksFrom(trace, id)| :: MarksFrom(trace, id)[i] == UNMARKED
  {
    if trace != [] {
      NeverMarked(trace[..|trace| - 1], id);
    }
  }

  lemma {:induction false} LastMarkExists(trace: seq<Observation>, id: string, e: nat)
    requires e < |trace| && MarksApp(trace[e], id)
    ensures exists m: nat :: LastMark(trace, id, m)
    decreases |trace| - e
  {
    if later: nat :| e < later < |trace| && MarksApp(trace[later], id) {
      LastMarkExists(trace, id, later);
    } else {
      assert LastMark(trace, id, e);
    }
  }

  /** In every run the last analyst to mark is the one named by every hit that was there; the
      hits added since, and only those, are unmarked. */
  lemma LastMarkStands(clients: nat, steps: seq<Step>, id: string, m: nat)
    requires LastMark(After(clients, steps).trace, id, m)
    ensures var w := After(clients, steps);
      var hits := HitsOf(w.hits, id);
      var known := |hits| - AddedAfter(w.trace, id, m);
      && 0 <= known
      && (forall i | 0 <= i < known ::
            hits[i].disposition == Some(ReviewOf(w.trace[m].clear)) && hits[i].reviewedBy == w.trace[m].reviewer)
      && (forall i | known <= i < |hits| :: hits[i].disposition == None)
  {
    var w := After(clients, steps);
    ReachedHitsOk(clients, steps);
    MarksSinceLast(w.trace, id, m);
    var hits := HitsOf(w.hits, id);
    assert MarksOf(hits) == MarksFrom(w.trace, id);
    assert forall i | 0 <= i < |hits| :: MarksOf(hits)[i] == Mark(hits[i].disposition, hits[i].reviewedBy);
  }

  // ---- decisions ----

  predicate MovesApp(o: Observation, id: string) {
    o.Advanced? && o.move.appId == id
  }

  ghost predicate LastMove(trace: seq<Observation>, id: string, d: nat) {
    d < |trace| && MovesApp(trace[d], id) && forall e | d < e < |trace| :: !MovesApp(trace[e], id)
  }

  lemma AppEventsSnoc(trace: seq<Observation>, o: Observation, id: string)
    ensures EventsOf(MovesOf(trace + [o]), id)
         == EventsOf(MovesOf(trace), id) + (if MovesApp(o, id) then [o.move] else [])
  {
    MovesOfSnoc(trace, o);
    if o.Advanced? {
      EventsOfSnoc(MovesOf(trace), o.move, id);
    } else {
      assert MovesOf(trace) + [] == MovesOf(trace);
    }
  }

  lemma {:induction false} LastMoveIsLastEvent(trace: seq<Observation>, id: string, d: nat)
    requires LastMove(trace, id, d)
    ensures var events := EventsOf(MovesOf(trace), id);
      events != [] && events[|events| - 1] == trace[d].move
  {
    var n := |trace| - 1;
    assert trace == trace[..n] + [trace[n]];
    AppEventsSnoc(trace[..n], trace[n], id);
    if d < n {
      LastMoveIsLastEvent(trace[..n], id, d);
    }
  }

  lemma {:induction false} LastMoveExists(trace: seq<Observation>, id: string)
    requires EventsOf(MovesOf(trace), id) != []
    ensures exists d: nat :: LastMove(trace, id, d)
  {
    var n := |trace| - 1;
    assert trace == trace[..n] + [trace[n]];
    AppEventsSnoc(trace[..n], trace[n], id);
    if MovesApp(trace[n], id) {
      assert LastMove(trace, id, n);
    } else {
      LastMoveExists(trace[..n], id);
      var d: nat :| LastMove(trace[..n], id, d);
      assert LastMove(trace, id, d);
    }
  }

  /** The decision in force: the last move of the application, which decided it. */
  ghost predicate Decision(trace: seq<Observation>, id: string, d: nat) {
    LastMove(trace, id, d) && IsTerminal(trace[d].move.to)
  }

  /** A stored application is decided exactly when there is a decision in force, and then it
      is in the state that decision led to. */
  lemma DecidedByDecision(clients: nat, steps: seq<Step>, id: string)
    requires id in After(clients, steps).repo.store.apps
    ensures var w := After(clients, steps);
      && (IsTerminal(w.repo.store.apps[id].state) <==> exists d: nat :: Decision(w.trace, id, d))
      && (forall d: nat | LastMove(w.trace, id, d) :: w.repo.store.apps[id].state == w.trace[d].move.to)
  {
    var w := After(clients, steps);
    ReachedStoreReplays(clients, steps);
    ObservedMovesAreTheLog(clients, steps);
    forall d: nat | LastMove(w.trace, id, d)
      ensures w.repo.store.apps[id].state == w.trace[d].move.to
    {
      LastMoveIsLastEvent(w.trace, id, d);
    }
    if IsTerminal(w.repo.store.apps[id].state) {
      LastMoveExists(w.trace, id);
      var d: nat :| LastMove(w.trace, id, d);
      assert Decision(w.trace, id, d);
    }
  }

  /** The outcome a deciding writer stands for: an analyst's own, or the class of the vendor's. */
  predicate Approves(writer: Writer) {
    && writer.ByTask?
    && match writer.task
       case Dispose(clear, _) => clear
       case Hook(_, _, outcome) => IsApproval(outcome)
       case _ => false
  }

  /** Only analysts and webhooks decide, and each decides as it stands for. */
  lemma WhoDecides(clients: nat, steps: seq<Step>, d: nat)
    requires var trace := After(clients, steps).trace;
      d < |trace| && trace[d].Advanced? && IsTerminal(trace[d].move.to)
    ensures var o := After(clients, steps).trace[d];
      && o.writer.ByTask? && (o.writer.task.Dispose? || o.writer.task.Hook?)
      && (o.move.to == Pass <==> Approves(o.writer))
  {
    EveryMoveIsJustified(clients, steps);
    var trace := After(clients, steps).trace;
    assert Justified(trace[..d], trace[d]);
    if trace[d].writer.ByTask? && trace[d].writer.task.Hook? {
      WebhookMovesByClass(trace[d].writer.task.outcome, trace[d].move.from);
    }
  }

  // ---- the first decision stands ----

  lemma {:induction false} EventsGrow(trace: seq<Observation>, id: string, k: nat)
    requires k <= |trace|
    ensures EventsOf(MovesOf(trace[..k]), id) <= EventsOf(MovesOf(trace), id)
  {
    var n := |trace| - 1;
    if k == |trace| {
      assert trace[..k] == trace;
    } else {
      EventsGrow(trace[..n], id, k);
      assert trace[..n][..k] == trace[..k] && trace == trace[..n] + [trace[n]];
      AppEventsSnoc(trace[..n], trace[n], id);
    }
  }

  lemma NextMoveIsNextEvent(trace: seq<Observation>, id: string, d: nat, e: nat)
    requires d < e < |trace| && LastMove(trace[..e], id, d) && MovesApp(trace[e], id)
    ensures var events := EventsOf(MovesOf(trace), id);
      exists i :: 0 < i < |events| && events[i - 1] == trace[d].move && events[i] == trace[e].move
  {
    var upTo := trace[..e];
    LastMoveIsLastEvent(upTo, id, d);
    var i := |EventsOf(MovesOf(upTo), id)|;
    assert trace[..e + 1] == upTo + [trace[e]];
    AppEventsSnoc(upTo, trace[e], id);
    EventsGrow(trace, id, e + 1);
    var events := EventsOf(MovesOf(trace), id);
    assert events[i - 1] == trace[d].move && events[i] == trace[e].move;
  }

  /** However many analysts and webhooks had read the application before it, the first to
      decide wins: the next move of the application, if there is one, is a re-opening. */
  lemma FirstDecisionStands(clients: nat, steps: seq<Step>, id: string, d: nat, e: nat)
    requires var trace := After(clients, steps).trace;
      && d < e < |trace| && LastMove(trace[..e], id, d) && MovesApp(trace[e], id)
      && IsTerminal(trace[d].move.to)
    ensures var trace := After(clients, steps).trace;
      trace[e].move.from == trace[d].move.to && trace[e].move.to == Started
  {
    var trace := After(clients, steps).trace;
    NextMoveIsNextEvent(trace, id, d, e);
    ReachedLogIsLegal(clients, steps, id);
    NextIsReopening(EventsOf(MovesOf(trace), id), trace[d].move, trace[e].move);
  }

  /** After a decision the only legal move is a re-opening. */
  lemma NextIsReopening(events: seq<Transition>, decision: Transition, next: Transition)
    requires Linked(events) && IsTerminal(decision.to)
    requires exists i :: 0 < i < |events| && events[i - 1] == decision && events[i] == next
    ensures next.from == decision.to && next.to == Started
  {
    var i :| 0 < i < |events| && events[i - 1] == decision && events[i] == next;
    assert CanTransition(events[i].from, events[i].to);
  }

  lemma ReachedLogIsLegal(clients: nat, steps: seq<Step>, id: string)
    ensures Linked(EventsOf(MovesOf(After(clients, steps).trace), id))
  {
    ObservedMovesAreTheEvents(clients, steps);
    ReachedSafe(clients, steps);
    EveryLogIsLegal(After(clients, steps).calls, id);
  }

  // ---- hits and decision ----

  /** Every hit of the application carries the disposition that was decided. */
  ghost predicate HitsAgree(w: World, id: string)
    requires id in w.repo.store.apps
  {
    forall h | h in HitsOf(w.hits, id) :: h.disposition == Some(ReviewOf(w.repo.store.apps[id].state == Pass))
  }

  /** Who marked the hits last stands for the same outcome as who decided, and no hit was
      added since. */
  ghost predicate MarkedAsDecided(trace: seq<Observation>, id: string, d: nat)
    requires Decision(trace, id, d)
  {
    exists m: nat :: LastMark(trace, id, m) && AddedAfter(trace, id, m) == 0
      && trace[m].clear == Approves(trace[d].writer)
  }

  /** In every interleaved run of all writers, analysts, webhooks and screening runs alike:
      the hits of a decided application agree with the decision in force exactly when there
      are none, or none was added after the last mark and whoever marked last stands for the
      same outcome as whoever decided. */
  lemma HitsAgreeExactly(clients: nat, steps: seq<Step>, id: string, d: nat)
    requires id in After(clients, steps).repo.store.apps && Decision(After(clients, steps).trace, id, d)
    ensures var w := After(clients, steps);
      HitsAgree(w, id) <==> HitsOf(w.hits, id) == [] || MarkedAsDecided(w.trace, id, d)
  {
    var w := After(clients, steps);
    var hits := HitsOf(w.hits, id);
    DecidedByDecision(clients, steps, id);
    WhoDecides(clients, steps, d);
    assert (w.repo.store.apps[id].state == Pass) == Approves(w.trace[d].writer);
    if m: nat :| LastMark(w.trace, id, m) {
      LastMarkStands(clients, steps, id, m);
      assert forall k: nat | LastMark(w.trace, id, k) :: k == m;
      MarkDecides(hits, AddedAfter(w.trace, id, m), ReviewOf(w.trace[m].clear),
                  ReviewOf(Approves(w.trace[d].writer)));
    } else {
      NoMarkYet(clients, steps, id);
      assert hits != [] ==> hits[0] in hits;
    }
  }

  lemma MarkDecides(hits: seq<Hit>, added: nat, last: Review, decided: Review)
    requires added <= |hits|
    requires forall i | 0 <= i < |hits| - added :: hits[i].disposition == Some(last)
    requires forall i | |hits| - added <= i < |hits| :: hits[i].disposition == None
    ensures (forall h | h in hits :: h.disposition == Some(decided))
       <==> hits == [] || (added == 0 && last == decided)
  {
    if hits != [] {
      assert hits[0] in hits && hits[|hits| - 1] in hits;
    }
  }

  lemma NoMarkYet(clients: nat, steps: seq<Step>, id: string)
    requires forall m: nat :: !LastMark(After(clients, steps).trace, id, m)
    ensures forall h | h in HitsOf(After(clients, steps).hits, id) :: h.disposition == None
  {
    var w := After(clients, steps);
    if e: nat :| e < |w.trace| && MarksApp(w.trace[e], id) {
      LastMarkExists(w.trace, id, e);
    }
    NeverMarked(w.trace, id);
    ReachedHitsOk(clients, steps);
    var hits := HitsOf(w.hits, id);
    assert MarksOf(hits) == MarksFrom(w.trace, id);
    assert forall i | 0 <= i < |hits| :: MarksOf(hits)[i] == Mark(hits[i].disposition, hits[i].reviewedBy);
  }
}
