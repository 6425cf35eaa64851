/** What the steps leave alone. Apart from the two that write transitions, a step logs none
    and observes at most one thing; each also keeps its hands off what is not its own. */
module ServiceFootprints {
  import opened Entities
  import opened Repository
  import opened Audit
  import opened ServiceMachine
  import opened ServiceInvariants

  predicate QuietlyGrown(before: seq<Observation>, after: seq<Observation>) {
    after == before
    || (after != [] && after == before + [after[|after| - 1]] && !after[|after| - 1].Advanced?)
  }

  /** What the tick of a client has re-opened so far. */
  function ReopenedBy(l: Local): nat {
    if l.Ticking? then l.reopened else 0
  }

  /** The event id a client is carrying to the repository. */
  function Carried(l: Local): Option<string> {
    if l.HookSeen? then Some(l.eventId)
    else if l.Ready? && l.task.Hook? then Some(l.task.eventId)
    else None
  }

  predicate AboutHits(o: Observation) {
    o.HitAdded? || o.HitsMarked?
  }

  /** No transition is logged, and the count of a tick is handed on. */
  predicate Footprint(w: World, w': World, c: nat) {
    && w'.repo.events == w.repo.events && w.log <= w'.log && QuietlyGrown(w.trace, w'.trace)
    && c < |w.clients| && |w'.clients| == |w.clients| && w'.clients == w.clients[c := w'.clients[c]]
    && w'.returned + ReopenedBy(w'.clients[c]) == w.returned + ReopenedBy(w.clients[c])
  }

  predicate LeavesHits(w: World, w': World) {
    w'.hits == w.hits && (w'.trace == w.trace || (w'.trace != [] && !AboutHits(w'.trace[|w'.trace| - 1])))
  }

  /** No event id is new, neither seen nor carried. */
  predicate CarriesOn(w: World, w': World, c: nat)
    requires c < |w.clients| && c < |w'.clients|
  {
    w'.seen == w.seen && (Carried(w'.clients[c]).None? || Carried(w'.clients[c]) == Carried(w.clients[c]))
  }

  predicate IsScreening(s: Step) {
    s.ScreenStep? || s.AddHitStep? || s.ScreenedStep? || s.MarkHitsStep?
  }

  lemma ReadFootprint(w: World, s: Step)
    requires (s.ReadStep? || s.TriggerReadStep?) && Take(w, s) != w
    ensures Footprint(w, Take(w, s), s.c) && LeavesHits(w, Take(w, s)) && CarriesOn(w, Take(w, s), s.c)
  {
  }

  lemma HookReadFootprint(w: World, s: Step)
    requires s.HookReadStep? && Take(w, s) != w
    ensures Footprint(w, Take(w, s), s.c) && LeavesHits(w, Take(w, s)) && CarriesOn(w, Take(w, s), s.c)
  {
    assert Take(w, s) == TakeHookRead(w, s.c);
  }

  lemma TickFootprint(w: World, s: Step)
    requires (s.TickListStep? || s.TickReturnStep?) && Take(w, s) != w
    ensures Footprint(w, Take(w, s), s.c) && LeavesHits(w, Take(w, s)) && CarriesOn(w, Take(w, s), s.c)
  {
  }

  lemma StoreDocumentFootprint(w: World, s: Step)
    requires s.StoreDocumentStep? && Take(w, s) != w
    ensures Footprint(w, Take(w, s), s.c) && LeavesHits(w, Take(w, s)) && CarriesOn(w, Take(w, s), s.c)
  {
    assert Take(w, s) == TakeStoreDocument(w, s.c, s.doc);
  }

  lemma CheckDocumentsFootprint(w: World, s: Step)
    requires s.CheckDocumentsStep? && Take(w, s) != w
    ensures Footprint(w, Take(w, s), s.c) && LeavesHits(w, Take(w, s))
    ensures LocalsOk(w) ==> CarriesOn(w, Take(w, s), s.c)
  {
    assert LocalsOk(w) ==> LocalOk(w.repo, w.trace, w.clients[s.c]);
  }

  lemma StoreSessionFootprint(w: World, s: Step)
    requires s.StoreSessionStep? && Take(w, s) != w
    ensures Footprint(w, Take(w, s), s.c) && LeavesHits(w, Take(w, s)) && CarriesOn(w, Take(w, s), s.c)
  {
  }

  lemma ScreeningFootprint(w: World, s: Step)
    requires IsScreening(s) && Take(w, s) != w
    ensures Footprint(w, Take(w, s), s.c)
    ensures s.ScreenStep? || s.ScreenedStep? ==> LeavesHits(w, Take(w, s))
    ensures LocalsOk(w) ==> CarriesOn(w, Take(w, s), s.c)
  {
    assert LocalsOk(w) ==> LocalOk(w.repo, w.trace, w.clients[s.c]);
  }

  lemma IngestFootprint(w: World, s: Step)
    requires s.IngestStep? && Take(w, s) != w
    ensures Footprint(w, Take(w, s), s.c) && LeavesHits(w, Take(w, s))
  {
    assert Take(w, s) == TakeIngest(w, s.c, s.vendor, s.verified, s.eventId, s.parsed);
  }

  lemma CreateFootprint(w: World, s: Step)
    requires s.CreateStep? && Take(w, s) != w
    ensures Footprint(w, Take(w, s), s.c) && LeavesHits(w, Take(w, s)) && CarriesOn(w, Take(w, s), s.c)
  {
  }

  lemma RegisterFootprint(w: World, s: Step)
    requires s.RegisterStep? && Take(w, s) != w
    ensures Footprint(w, Take(w, s), s.c) && LeavesHits(w, Take(w, s)) && CarriesOn(w, Take(w, s), s.c)
  {
    assert Take(w, s) == TakeRegister(w, s.c, s.vendorId, s.now);
  }

  /** Every client's step but the two that write transitions. */
  lemma OthersFootprint(w: World, s: Step)
    requires Client(s).Some? && Take(w, s) != w && !s.WriteStep? && !s.TickReopenStep?
    ensures Footprint(w, Take(w, s), s.c)
    ensures !s.AddHitStep? && !s.MarkHitsStep? ==> LeavesHits(w, Take(w, s))
    ensures LocalsOk(w) && !s.IngestStep? ==> CarriesOn(w, Take(w, s), s.c)
  {
    if s.ReadStep? || s.TriggerReadStep? {
      ReadFootprint(w, s);
    } else if s.HookReadStep? {
      HookReadFootprint(w, s);
    } else if s.TickListStep? || s.TickReturnStep? {
      TickFootprint(w, s);
    } else if s.StoreDocumentStep? {
      StoreDocumentFootprint(w, s);
    } else if s.CheckDocumentsStep? {
      CheckDocumentsFootprint(w, s);
    } else if s.StoreSessionStep? {
      StoreSessionFootprint(w, s);
    } else if IsScreening(s) {
      ScreeningFootprint(w, s);
    } else if s.IngestStep? {
      IngestFootprint(w, s);
    } else if s.CreateStep? {
      CreateFootprint(w, s);
    } else {
      RegisterFootprint(w, s);
    }
  }

  /** A step that writes transitions touches neither the hits nor the seen set, and observes
      at most one thing. */
  predicate WriteFootprint(w: World, w': World) {
    && w.log <= w'.log && LeavesHits(w, w') && w'.seen == w.seen
    && (w'.trace == w.trace || (w'.trace != [] && w'.trace == w.trace + [w'.trace[|w'.trace| - 1]]))
  }

  lemma WriteStepFootprint(w: World, s: Step)
    requires s.WriteStep? && Take(w, s) != w
    ensures WriteFootprint(w, Take(w, s))
  {
    assert Take(w, s) == TakeWrite(w, s.c, s.now);
  }

  lemma ReopenStepFootprint(w: World, s: Step)
    requires s.TickReopenStep? && Take(w, s) != w
    ensures WriteFootprint(w, Take(w, s))
  {
    assert Take(w, s) == TakeTickReopen(w, s.c, s.now);
  }

  lemma WritesFootprint(w: World, s: Step)
    requires (s.WriteStep? || s.TickReopenStep?) && Take(w, s) != w
    ensures WriteFootprint(w, Take(w, s))
  {
    if s.WriteStep? {
      WriteStepFootprint(w, s);
    } else {
      ReopenStepFootprint(w, s);
    }
  }

  /** A tick that re-opens moves nothing for a webhook. */
  lemma TickReopenFootprint(w: World, s: Step)
    requires s.TickReopenStep? && Take(w, s) != w
    ensures var w' := Take(w, s);
      && s.c < |w.clients| && |w'.clients| == |w.clients| && w'.clients == w.clients[s.c := w'.clients[s.c]]
      && CarriesOn(w, w', s.c)
      && (w'.trace != w.trace ==> w'.trace != [] && !MovedByHook(w'.trace[|w'.trace| - 1]))
  {
  }

  predicate MovedByHook(o: Observation) {
    o.Advanced? && o.writer.ByTask? && o.writer.task.Hook?
  }

  /** The sweeper and whoever notes other audit events. */
  lemma NobodysFootprint(w: World, s: Step)
    requires Client(s).None?
    ensures var w' := Take(w, s);
      && w'.repo == w.repo && w.log <= w'.log && w'.trace == w.trace && w'.hits == w.hits
      && w'.clients == w.clients && w'.returned == w.returned && w'.seen == w.seen
  {
  }
}
