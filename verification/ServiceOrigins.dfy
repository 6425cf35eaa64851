/** Where the stored applications of the service come from. */
module ServiceOrigins {
  import opened StateMachine
  import opened Entities
  import opened Repository
  import opened RepositoryRuns
  import opened RepositoryEffects
  import opened ServiceMachine
  import opened ServiceInvariants

  /** Every call so far was one the handlers make, with a running clock. */
  ghost predicate CallsServed(w: World) {
    forall c | c in w.calls :: ServiceCall(c.call) && c.now != ZERO_TIME
  }

  lemma ReadersCallNothing(w: World, s: Step)
    requires s.ReadStep? || s.HookReadStep? || s.TriggerReadStep? || s.TickListStep? || s.TickReturnStep?
          || s.IngestStep?
    ensures Take(w, s).calls == w.calls
  {
  }

  lemma ShelversCallNothing(w: World, s: Step)
    requires s.StoreDocumentStep? || s.CheckDocumentsStep? || s.StoreSessionStep? || s.SweepStep? || s.NoteStep?
    ensures Take(w, s).calls == w.calls
  {
  }

  lemma ScreenersCallNothing(w: World, s: Step)
    requires s.ScreenStep? || s.AddHitStep? || s.ScreenedStep? || s.MarkHitsStep?
    ensures Take(w, s).calls == w.calls
  {
  }

  /** The calls are as before, or one more that a handler makes. */
  predicate ServedNext(before: seq<TimedCall>, after: seq<TimedCall>) {
    after == before
    || (|after| == |before| + 1 && after[..|before|] == before
        && ServiceCall(after[|before|].call) && after[|before|].now != ZERO_TIME)
  }

  lemma CreateServes(w: World, s: Step)
    requires s.CreateStep?
    ensures ServedNext(w.calls, Take(w, s).calls)
  {
    assert Take(w, s) == w || Take(w, s) == TakeCreate(w, s.c, s.id, s.userId, s.vendor, s.now);
  }

  lemma RegisterServes(w: World, s: Step)
    requires s.RegisterStep?
    ensures ServedNext(w.calls, Take(w, s).calls)
  {
    assert Take(w, s) == w || (s.c < |w.clients| && w.clients[s.c].Created?
                               && Take(w, s) == TakeRegister(w, s.c, s.vendorId, s.now));
  }

  lemma WriteServes(w: World, s: Step)
    requires s.WriteStep? && Safe(w)
    ensures ServedNext(w.calls, Take(w, s).calls)
  {
    if s.c < |w.clients| && w.clients[s.c].Ready? {
      ReadyNeverAsksForStarted(w, s.c);
      assert Take(w, s) == w || Take(w, s) == TakeWrite(w, s.c, s.now);
    }
  }

  lemma TickReopenServes(w: World, s: Step)
    requires s.TickReopenStep?
    ensures ServedNext(w.calls, Take(w, s).calls)
  {
    assert Take(w, s) == w || (s.c < |w.clients| && w.clients[s.c].Ticking? && w.clients[s.c].listed != []
                               && Take(w, s) == TakeTickReopen(w, s.c, s.now));
  }

  lemma TakeServesNext(w: World, s: Step)
    requires Safe(w)
    ensures ServedNext(w.calls, Take(w, s).calls)
  {
    if s.CreateStep? {
      CreateServes(w, s);
    } else if s.RegisterStep? {
      RegisterServes(w, s);
    } else if s.WriteStep? {
      WriteServes(w, s);
    } else if s.TickReopenStep? {
      TickReopenServes(w, s);
    } else if s.ScreenStep? || s.AddHitStep? || s.ScreenedStep? || s.MarkHitsStep? {
      ScreenersCallNothing(w, s);
    } else if s.StoreDocumentStep? || s.CheckDocumentsStep? || s.StoreSessionStep? || s.SweepStep? || s.NoteStep? {
      ShelversCallNothing(w, s);
    } else {
      ReadersCallNothing(w, s);
    }
  }

  lemma ServedOn(before: seq<TimedCall>, after: seq<TimedCall>)
    requires ServedNext(before, after) && forall c | c in before :: ServiceCall(c.call) && c.now != ZERO_TIME
    ensures forall c | c in after :: ServiceCall(c.call) && c.now != ZERO_TIME
  {
    if after != before {
      assert after == before + [after[|before|]];
    }
  }

  lemma {:induction false} ReachedCallsServed(clients: nat, steps: seq<Step>)
    ensures CallsServed(After(clients, steps))
  {
    if steps != [] {
      var front := steps[..|steps| - 1];
      ReachedCallsServed(clients, front);
      ReachedSafe(clients, front);
      TakeServesNext(After(clients, front), steps[|steps| - 1]);
      ServedOn(After(clients, front).calls, After(clients, steps).calls);
    }
  }

  /** In every reachable world each stored application was created by exactly one call of the
      create handler, and its creation time is, and stays, the time of that call. */
  lemma CreatedWhenCreated(clients: nat, steps: seq<Step>, id: string) returns (k: nat)
    requires id in After(clients, steps).repo.store.apps
    ensures var w := After(clients, steps);
      var app := w.repo.store.apps[id];
      && k < |w.calls| && w.calls[k].call == Create(NewApplication(id, app.userId, app.vendor))
      && (forall j | 0 <= j < |w.calls| && w.calls[j].call.Create? && w.calls[j].call.app.id == id :: j == k)
      && app.createdAt == w.calls[k].now != ZERO_TIME && app.expiresAt == ZERO_TIME
  {
    ReachedSafe(clients, steps);
    ReachedCallsServed(clients, steps);
    var w := After(clients, steps);
    k := StoredAsCreated(w.calls, id);
    assert w.calls[k] in w.calls;
  }

  /** In every reachable world the due date of a decided application is 365 days, in
      nanoseconds, after its decision. */
  lemma DueInAYear(clients: nat, steps: seq<Step>, id: string)
    requires id in After(clients, steps).repo.store.apps
    ensures var app := After(clients, steps).repo.store.apps[id];
      if app.state == Pass || app.state == Fail
      then app.decidedAt > 0 && app.reKycDueAt == app.decidedAt + 31_536_000_000_000_000
      else app.decidedAt == 0 && app.reKycDueAt == 0
  {
    ReachedDatesOk(clients, steps, id);
  }
}
