/** What holds of every interleaved run of the service. */
module ServiceTheorems {
  import opened StateMachine
  import opened Entities
  import opened Repository
  import opened RepositoryRuns
  import opened Audit
  import opened Decisions
  import opened ServiceMachine
  import opened ServiceInvariants
  import opened ServiceFootprints

  // ---- read, decide, write ----

  /** What the write of a client that is ready is answered. */
  predicate WriteAnswer(apps: map<string, Application>, l: Local, r: Response)
    requires l.Ready?
  {
    var asRead := l.id in apps && apps[l.id] == l.app;
    && (r == Failed(NotFound) <==> l.id !in apps)
    && (r == Failed(Conflict) <==> l.id in apps && apps[l.id].version != l.app.version)
    && (r == Failed(IllegalTransition) <==> asRead && l.task == Liveness && l.app.state == Started)
    && (r == Failed(ReKYCNotTerminal) <==> asRead && l.task == Trigger && !IsTerminal(l.app.state))
    && (r.Record? ==> asRead)
    && (r.Record? || r.Failed?)
  }

  /** A client that is about to write either finds, field for field, the record it read, or
      has lost to another client: the record is gone or has a new version. Apart from that,
      only two writes can be refused: the liveness write of a client that read STARTED, which
      the table never allows, and a re-opening asked for an undecided application. */
  lemma WritesAreAtomic(clients: nat, steps: seq<Step>, c: nat, now: Time)
    requires c < |After(clients, steps).clients| && After(clients, steps).clients[c].Ready?
    ensures var w := After(clients, steps);
      WriteAnswer(w.repo.store.apps, w.clients[c], Answer(w, WriteCall(w.clients[c]), now))
  {
    var w := After(clients, steps);
    ReachedSafe(clients, steps);
    assert LocalOk(w.repo, w.trace, w.clients[c]);
    WriteAnswers(w.repo, w.trace, w.clients[c], now);
  }

  /** The same for a tick: re-opening the next application on its list either meets the
      record it listed, or fails because that is gone or has a new version; never because it
      is undecided. */
  lemma TickReopensWhatItListed(clients: nat, steps: seq<Step>, c: nat, now: Time)
    requires c < |After(clients, steps).clients| && After(clients, steps).clients[c].Ticking?
    requires After(clients, steps).clients[c].listed != []
    ensures var w := After(clients, steps);
      var due := w.clients[c].listed[0];
      ReopenAnswer(w.repo.store, due, Answer(w, TickCall(due), now), now)
  {
    var w := After(clients, steps);
    ReachedSafe(clients, steps);
    assert LocalOk(w.repo, w.trace, w.clients[c]);
    var due := w.clients[c].listed[0];
    assert due in w.clients[c].listed;
    SnapshotReopens(w.repo, due, now);
  }

  predicate ReopenAnswer(s: Store, due: Application, r: Response, now: Time) {
    && (r == Failed(NotFound) <==> due.id !in s.apps)
    && (r == Failed(Conflict) <==> due.id in s.apps && s.apps[due.id].version != due.version)
    && (r == Record(Reopened(due, now)) <==> due.id in s.apps && s.apps[due.id] == due)
    && (r == Failed(NotFound) || r == Failed(Conflict) || r == Record(Reopened(due, now)))
  }

  lemma SnapshotReopens(h: History, due: Application, now: Time)
    requires Snapshot(h, due) && IsTerminal(due.state)
    ensures ReopenAnswer(h.store, due, Exec(h.store, TickCall(due), now).response, now)
  {
  }

  lemma WriteAnswers(h: History, trace: seq<Observation>, l: Local, now: Time)
    requires l.Ready? && LocalOk(h, trace, l)
    ensures WriteAnswer(h.store.apps, l, Exec(h.store, WriteCall(l), now).response)
  {
    var apps := h.store.apps;
    if l.id in apps && apps[l.id].version == l.app.version {
      assert apps[l.id] == l.app;
      PreparedIsLegal(trace, l.task, l.id, l.app.state, l.to);
    }
    var call := WriteCall(l);
    assert if l.task.Trigger? then call.Reopen? else call.UpdateState? && call.to == l.to;
    assert WritesAt(call, l.id, l.app.version);
  }

  /** What was prepared is a legal move, but for liveness from STARTED and a trigger. */
  lemma PreparedIsLegal(trace: seq<Observation>, task: Task, id: string, state: State, to: State)
    requires Prepared(trace, task, id, state, to)
    ensures CanTransition(state, to) || task == Trigger || (task == Liveness && state == Started)
    ensures task == Liveness && state == Started ==> !CanTransition(state, to)
  {
  }

  /** Over all clients, at most one write that names an application at a version succeeds. */
  lemma AtMostOneClientWins(clients: nat, steps: seq<Step>, i: nat, j: nat, id: string, version: int)
    requires var calls := After(clients, steps).calls;
      && i < |calls| && j < |calls|
      && WritesAt(calls[i].call, id, version) && ResponseAt(calls, i).Record?
      && WritesAt(calls[j].call, id, version) && ResponseAt(calls, j).Record?
    ensures i == j
  {
    ReachedSafe(clients, steps);
    AtMostOneWriterWins(After(clients, steps).calls, i, j, id, version);
  }

  /** The audit log is append-only, whatever the clients do. */
  lemma {:induction false} AuditLogOnlyGrows(clients: nat, steps: seq<Step>, i: nat)
    requires i <= |steps|
    ensures After(clients, steps[..i]).log <= After(clients, steps).log
    decreases |steps|
  {
    var n := |steps|;
    if i == n {
      assert steps[..i] == steps;
    } else {
      assert steps[..n - 1][..i] == steps[..i];
      AuditLogOnlyGrows(clients, steps[..n - 1], i);
      TakeExtendsLog(After(clients, steps[..n - 1]), steps[n - 1]);
    }
  }

  lemma TakeExtendsLog(w: World, s: Step)
    ensures w.log <= Take(w, s).log
  {
    if Take(w, s) != w {
      if Client(s).None? {
        NobodysFootprint(w, s);
      } else if s.WriteStep? || s.TickReopenStep? {
        WritesFootprint(w, s);
      } else {
        OthersFootprint(w, s);
      }
    }
  }

  /** The bounds on one application's transitions. */
  predicate WithinBounds(events: seq<Transition>, state: State) {
    && 5 * Reopenings(events) <= |events| <= 7 * Reopenings(events) + 6
    && (IsTerminal(state) ==> 5 * Reopenings(events) + 4 <= |events|)
  }

  lemma ChainIsWithinBounds(events: seq<Transition>, state: State)
    requires Chain(Started, events, state)
    ensures WithinBounds(events, state)
  {
    ChainLength(events, state);
  }

  /** With k re-openings, an application's n logged transitions satisfy 5k <= n <= 7k + 6,
      and n >= 5k + 4 while it is decided. */
  lemma ServiceRunLengths(clients: nat, steps: seq<Step>, id: string)
    requires id in After(clients, steps).repo.store.apps
    ensures var w := After(clients, steps);
      WithinBounds(EventsOf(Transitions(w.log), id), w.repo.store.apps[id].state)
  {
    ReachedStoreReplays(clients, steps);
    var w := After(clients, steps);
    ChainIsWithinBounds(EventsOf(Transitions(w.log), id), w.repo.store.apps[id].state);
  }

  // ---- provenance ----

  /** Before `o`, there happened what `o` needs: documents before DOCUMENTS_UPLOADED, a
      session or a liveness webhook before LIVENESS_PASSED, a disposition or a webhook of
      the matching class before a decision, a date a year past before a scheduled re-KYC. */
  ghost predicate Justified(before: seq<Observation>, o: Observation) {
    o.Advanced? ==>
      var id := o.move.appId;
      match o.writer
      case ByScheduler(asOf, decidedAt) =>
        IsTerminal(o.move.from) && o.move.to == Started && decidedAt != ZERO_TIME && decidedAt + YEAR <= asOf
      case ByTask(Upload) =>
        && o.move.from == Started && o.move.to == DocumentsUploaded
        && DocumentStored(id, IdFront) in before && DocumentStored(id, Selfie) in before
      case ByTask(Liveness) =>
        o.move.from == DocumentsUploaded && o.move.to == LivenessPassed && SessionStored(id) in before
      case ByTask(Screen) => o.move.to == ManualReview || o.move.to == State.Screening
      case ByTask(Dispose(clear, reviewer)) =>
        && o.move.from == ManualReview && o.move.to == DispositionTarget(clear)
        && HitsMarked(id, clear, reviewer) in before
      case ByTask(Hook(_, eventId, outcome)) =>
        WebhookTarget(outcome, o.move.from) == Some(o.move.to) && HookAccepted(id, outcome, eventId) in before
      case ByTask(Trigger) => IsTerminal(o.move.from) && o.move.to == Started
  }

  ghost predicate AllJustified(trace: seq<Observation>) {
    forall i | 0 <= i < |trace| :: Justified(trace[..i], trace[i])
  }

  lemma JustifiedSnoc(trace: seq<Observation>, o: Observation)
    requires AllJustified(trace) && Justified(trace, o)
    ensures AllJustified(trace + [o])
  {
    var more := trace + [o];
    forall i | 0 <= i < |more|
      ensures Justified(more[..i], more[i])
    {
      if i < |trace| {
        assert more[..i] == trace[..i];
      } else {
        assert more[..i] == trace;
      }
    }
  }

  /** What a client that is ready writes, if its write succeeds: the move it prepared. */
  lemma ReadyMovesAsPrepared(h: History, trace: seq<Observation>, l: Local, now: Time)
    requires l.Ready? && LocalOk(h, trace, l)
    ensures var events := Exec(h.store, WriteCall(l), now).events;
      events == [] || (events == [events[0]] && events[0].appId == l.id
                       && events[0].from == l.app.state && events[0].to == l.to
                       && (l.task == Trigger ==> IsTerminal(l.app.state))
                       && CanTransition(l.app.state, l.to))
  {
    var call := WriteCall(l);
    assert if l.task.Trigger? then call.Reopen? && l.to == Started else call.UpdateState? && call.to == l.to;
    assert WritesAt(call, l.id, l.app.version);
    if l.id in h.store.apps && h.store.apps[l.id].version == l.app.version {
      assert h.store.apps[l.id] == l.app;
    }
  }

  lemma PreparedIsJustified(trace: seq<Observation>, l: Local, e: Transition)
    requires l.Ready? && Prepared(trace, l.task, l.id, l.app.state, l.to)
    requires e.appId == l.id && e.from == l.app.state && e.to == l.to
    requires CanTransition(e.from, e.to) && (l.task == Trigger ==> IsTerminal(e.from))
    ensures Justified(trace, Advanced(ByTask(l.task), e))
  {
    PreparedIsLegal(trace, l.task, l.id, l.app.state, l.to);
  }

  lemma WriteIsJustified(w: World, c: nat, now: Time)
    requires Safe(w) && AllJustified(w.trace) && c < |w.clients| && w.clients[c].Ready?
    ensures AllJustified(TakeWrite(w, c, now).trace)
  {
    var l := w.clients[c];
    assert LocalOk(w.repo, w.trace, l);
    ReadyMovesAsPrepared(w.repo, w.trace, l, now);
    var events := Exec(w.repo.store, WriteCall(l), now).events;
    if events != [] {
      PreparedIsJustified(w.trace, l, events[0]);
      JustifiedSnoc(w.trace, Advanced(ByTask(l.task), events[0]));
    }
  }

  lemma TickReopenIsJustified(w: World, c: nat, now: Time)
    requires Safe(w) && AllJustified(w.trace) && c < |w.clients|
    requires w.clients[c].Ticking? && w.clients[c].listed != []
    ensures AllJustified(TakeTickReopen(w, c, now).trace)
  {
    var l := w.clients[c];
    assert LocalOk(w.repo, w.trace, l);
    var due := l.listed[0];
    assert Snapshot(w.repo, due) && IsDue(due, l.asOf) && DatesOk(due);
    var events := Exec(w.repo.store, TickCall(due), now).events;
    if events != [] {
      assert w.repo.store.apps[due.id] == due;
      JustifiedSnoc(w.trace, Advanced(ByScheduler(l.asOf, due.decidedAt), events[0]));
    }
  }

  /** Steps other than the writes log no transition, and add at most one observation, of
      something else. */
  lemma OthersMoveNothing(w: World, s: Step)
    requires !s.WriteStep? && !s.TickReopenStep?
    ensures Take(w, s).repo.events == w.repo.events
    ensures QuietlyGrown(w.trace, Take(w, s).trace)
  {
    if Client(s).None? {
      NobodysFootprint(w, s);
    } else if Take(w, s) != w {
      OthersFootprint(w, s);
    }
  }

  lemma TakeKeepsJustified(w: World, s: Step)
    requires Safe(w) && AllJustified(w.trace)
    ensures AllJustified(Take(w, s).trace)
  {
    var w' := Take(w, s);
    if s.WriteStep? {
      if w' != w {
        WriteIsJustified(w, s.c, s.now);
      }
    } else if s.TickReopenStep? {
      if w' != w {
        TickReopenIsJustified(w, s.c, s.now);
      }
    } else {
      OthersMoveNothing(w, s);
      if w'.trace != w.trace {
        JustifiedSnoc(w.trace, w'.trace[|w'.trace| - 1]);
      }
    }
  }

  /** Over every interleaved run, each transition has its cause before it. */
  lemma {:induction false} EveryMoveIsJustified(clients: nat, steps: seq<Step>)
    ensures AllJustified(After(clients, steps).trace)
  {
    if steps != [] {
      var front := steps[..|steps| - 1];
      EveryMoveIsJustified(clients, front);
      ReachedSafe(clients, front);
      TakeKeepsJustified(After(clients, front), steps[|steps| - 1]);
    }
  }

  /** The transitions among the observations. */
  function MovesOf(trace: seq<Observation>): seq<Transition> {
    if trace == [] then []
    else
      var o := trace[|trace| - 1];
      MovesOf(trace[..|trace| - 1]) + (if o.Advanced? then [o.move] else [])
  }

  lemma MovesOfSnoc(trace: seq<Observation>, o: Observation)
    ensures MovesOf(trace + [o]) == MovesOf(trace) + (if o.Advanced? then [o.move] else [])
  {
    assert (trace + [o])[..|trace|] == trace;
  }

  lemma WriteObservesMove(w: World, c: nat, now: Time)
    requires c < |w.clients| && w.clients[c].Ready? && MovesOf(w.trace) == w.repo.events
    ensures var w' := TakeWrite(w, c, now); MovesOf(w'.trace) == w'.repo.events
  {
    var call := WriteCall(w.clients[c]);
    ExecLogsAtMostOne(w.repo.store, call, now);
    var events := Exec(w.repo.store, call, now).events;
    if events != [] {
      MovesOfSnoc(w.trace, Advanced(ByTask(w.clients[c].task), events[0]));
    }
  }

  lemma TickReopenObservesMove(w: World, c: nat, now: Time)
    requires c < |w.clients| && w.clients[c].Ticking? && w.clients[c].listed != []
    requires MovesOf(w.trace) == w.repo.events
    ensures var w' := TakeTickReopen(w, c, now); MovesOf(w'.trace) == w'.repo.events
  {
    var call := TickCall(w.clients[c].listed[0]);
    ExecLogsAtMostOne(w.repo.store, call, now);
    var events := Exec(w.repo.store, call, now).events;
    if events != [] {
      MovesOfSnoc(w.trace, TakeTickReopen(w, c, now).trace[|w.trace|]);
    }
  }

  lemma ExecLogsAtMostOne(s: Store, call: Call, now: Time)
    ensures var events := Exec(s, call, now).events; events == [] || events == [events[0]]
    ensures call.Create? || call.SetVendorApplicantId? ==> Exec(s, call, now).events == []
  {
  }

  lemma TakeObservesMoves(w: World, s: Step)
    requires MovesOf(w.trace) == w.repo.events
    ensures MovesOf(Take(w, s).trace) == Take(w, s).repo.events
  {
    var w' := Take(w, s);
    if w' == w {
    } else if s.WriteStep? {
      WriteObservesMove(w, s.c, s.now);
    } else if s.TickReopenStep? {
      TickReopenObservesMove(w, s.c, s.now);
    } else {
      OthersMoveNothing(w, s);
      if w'.trace != w.trace {
        MovesOfSnoc(w.trace, w'.trace[|w'.trace| - 1]);
      }
    }
  }

  /** No transition escapes the provenance theorem: those observed are those logged. */
  lemma ObservedMovesAreTheLog(clients: nat, steps: seq<Step>)
    ensures MovesOf(After(clients, steps).trace) == Transitions(After(clients, steps).log)
  {
    ObservedMovesAreTheEvents(clients, steps);
    ReachedSafe(clients, steps);
  }

  lemma {:induction false} ObservedMovesAreTheEvents(clients: nat, steps: seq<Step>)
    ensures MovesOf(After(clients, steps).trace) == After(clients, steps).repo.events
  {
    if steps != [] {
      ObservedMovesAreTheEvents(clients, steps[..|steps| - 1]);
      TakeObservesMoves(After(clients, steps[..|steps| - 1]), steps[|steps| - 1]);
    }
  }

  // ---- the scheduler ----

  predicate IsScheduled(t: Transition) {
    t.to == Started && t.actor == "scheduler"
  }

  function ScheduledCount(events: seq<Transition>): nat {
    if events == [] then 0
    else ScheduledCount(events[..|events| - 1]) + (if IsScheduled(events[|events| - 1]) then 1 else 0)
  }

  lemma ScheduledCountSnoc(events: seq<Transition>, t: Transition)
    ensures ScheduledCount(events + [t]) == ScheduledCount(events) + (if IsScheduled(t) then 1 else 0)
  {
    assert (events + [t])[..|events|] == events;
  }

  /** What the ticks in progress have re-opened so far. */
  function InProgress(clients: seq<Local>): nat {
    if clients == [] then 0 else InProgress(clients[..|clients| - 1]) + ReopenedBy(clients[|clients| - 1])
  }

  lemma {:induction false} InProgressUpdate(clients: seq<Local>, c: nat, l: Local)
    requires c < |clients|
    ensures InProgress(clients[c := l]) == InProgress(clients) - ReopenedBy(clients[c]) + ReopenedBy(l)
  {
    var n := |clients| - 1;
    if c == n {
      assert clients[c := l][..n] == clients[..n];
    } else {
      assert clients[c := l][..n] == clients[..n][c := l];
      InProgressUpdate(clients[..n], c, l);
    }
  }

  ghost predicate CountsAgree(w: World) {
    ScheduledCount(w.repo.events) == w.returned + InProgress(w.clients)
  }

  /** A reopening step counts exactly what it logs. */
  lemma TickReopenCounts(w: World, c: nat, now: Time)
    requires c < |w.clients| && w.clients[c].Ticking? && w.clients[c].listed != []
    ensures var w' := TakeTickReopen(w, c, now);
      var events := Exec(w.repo.store, TickCall(w.clients[c].listed[0]), now).events;
      && w'.repo.events == w.repo.events + events && w'.returned == w.returned
      && |w'.clients| == |w.clients| && w'.clients == w.clients[c := w'.clients[c]]
      && |events| <= 1 && ReopenedBy(w'.clients[c]) == ReopenedBy(w.clients[c]) + |events|
      && forall e | e in events :: IsScheduled(e)
  {
  }

  lemma TickReopenKeepsCounts(w: World, c: nat, now: Time)
    requires CountsAgree(w) && c < |w.clients| && w.clients[c].Ticking? && w.clients[c].listed != []
    ensures CountsAgree(TakeTickReopen(w, c, now))
  {
    TickReopenCounts(w, c, now);
    var w' := TakeTickReopen(w, c, now);
    var events := Exec(w.repo.store, TickCall(w.clients[c].listed[0]), now).events;
    ScheduledEventsCount(w.repo.events, events);
    InProgressUpdate(w.clients, c, w'.clients[c]);
  }

  lemma ScheduledEventsCount(before: seq<Transition>, events: seq<Transition>)
    requires |events| <= 1 && forall e | e in events :: IsScheduled(e)
    ensures ScheduledCount(before + events) == ScheduledCount(before) + |events|
  {
    if events == [] {
      assert before + events == before;
    } else {
      assert events == [events[0]];
      ScheduledCountSnoc(before, events[0]);
    }
  }

  /** No handler writes as the scheduler does: its writes never lead to STARTED, and a
      triggered re-opening carries another actor. */
  lemma HandlersDoNotSchedule(w: World, c: nat, now: Time, t: Transition)
    requires Safe(w) && c < |w.clients| && w.clients[c].Ready?
    requires Exec(w.repo.store, WriteCall(w.clients[c]), now).events == [t]
    ensures !IsScheduled(t)
  {
    ReadyNeverAsksForStarted(w, c);
    var call := WriteCall(w.clients[c]);
    if call.Reopen? {
      assert t.actor == "internal" && |"internal"| != |"scheduler"|;
    } else {
      assert call.UpdateState? && t.to == call.to;
    }
  }

  lemma WriteKeepsCounts(w: World, c: nat, now: Time)
    requires Safe(w) && CountsAgree(w) && c < |w.clients| && w.clients[c].Ready?
    ensures CountsAgree(TakeWrite(w, c, now))
  {
    var w' := TakeWrite(w, c, now);
    InProgressUpdate(w.clients, c, w'.clients[c]);
    var call := WriteCall(w.clients[c]);
    ExecLogsAtMostOne(w.repo.store, call, now);
    var events := Exec(w.repo.store, call, now).events;
    if events == [] {
      assert w'.repo.events == w.repo.events;
    } else {
      HandlersDoNotSchedule(w, c, now, events[0]);
      ScheduledCountSnoc(w.repo.events, events[0]);
    }
  }

  lemma TakeKeepsCounts(w: World, s: Step)
    requires Safe(w) && CountsAgree(w)
    ensures CountsAgree(Take(w, s))
  {
    var w' := Take(w, s);
    if w' == w {
    } else if s.WriteStep? {
      WriteKeepsCounts(w, s.c, s.now);
    } else if s.TickReopenStep? {
      TickReopenKeepsCounts(w, s.c, s.now);
    } else {
      if Client(s).Some? {
        OthersFootprint(w, s);
        InProgressUpdate(w.clients, s.c, w'.clients[s.c]);
      } else {
        NobodysFootprint(w, s);
      }
    }
  }

  lemma {:induction false} ReachedCountsAgree(clients: nat, steps: seq<Step>)
    ensures CountsAgree(After(clients, steps))
  {
    if steps == [] {
      NobodyTicks(clients);
    } else {
      var front := steps[..|steps| - 1];
      ReachedCountsAgree(clients, front);
      ReachedSafe(clients, front);
      TakeKeepsCounts(After(clients, front), steps[|steps| - 1]);
    }
  }

  lemma {:induction false} NobodyTicks(clients: nat)
    ensures InProgress(seq(clients, _ => Idle)) == 0
  {
    if clients > 0 {
      assert seq(clients, _ => Idle)[..clients - 1] == seq(clients - 1, _ => Idle);
      NobodyTicks(clients - 1);
    }
  }

  /** Over every interleaving of ticks with everything else, once no tick is in progress the
      counts the ticks returned add up to the re-openings the scheduler logged. */
  lemma ReturnedCountsAreLogged(clients: nat, steps: seq<Step>)
    ensures var w := After(clients, steps);
      w.returned + InProgress(w.clients) == ScheduledCount(Transitions(w.log))
  {
    ReachedCountsAgree(clients, steps);
    ReachedSafe(clients, steps);
  }

  // ---- webhooks, at most once ----

  ghost predicate HooksOnce(w: World) {
    && (forall i, j | 0 <= i < j < |w.trace| && MovedByHook(w.trace[i]) && MovedByHook(w.trace[j]) ::
          w.trace[i].writer.task.eventId != w.trace[j].writer.task.eventId)
    && (forall o | o in w.trace && MovedByHook(o) :: o.writer.task.eventId in w.seen)
    && (forall c | 0 <= c < |w.clients| && Carried(w.clients[c]).Some? ::
          && Carried(w.clients[c]).value in w.seen
          && forall o | o in w.trace && MovedByHook(o) :: o.writer.task.eventId != Carried(w.clients[c]).value)
    && (forall c, d | 0 <= c < d < |w.clients| && Carried(w.clients[c]).Some? ::
          Carried(w.clients[c]) != Carried(w.clients[d]))
  }

  lemma IngestKeepsOnce(w: World, c: nat, vendor: string, verified: bool, eventId: string, parsed: Option<VendorEvent>)
    requires HooksOnce(w) && c < |w.clients| && w.clients[c].Idle?
    ensures HooksOnce(TakeIngest(w, c, vendor, verified, eventId, parsed))
  {
  }

  /** A client that carried an event id and now carries none, having moved for it or not. */
  lemma MovedKeepsOnce(w: World, w': World, c: nat)
    requires HooksOnce(w) && c < |w.clients| && w'.seen == w.seen
    requires w'.clients == w.clients[c := Idle]
    requires w'.trace == w.trace
      || (w'.trace != [] && w'.trace == w.trace + [w'.trace[|w'.trace| - 1]]
          && (MovedByHook(w'.trace[|w'.trace| - 1]) ==>
                Carried(w.clients[c]) == Some(w'.trace[|w'.trace| - 1].writer.task.eventId)))
    ensures HooksOnce(w')
  {
    if w'.trace != w.trace {
      var o := w'.trace[|w.trace|];
      assert forall p | p in w'.trace && MovedByHook(p) :: p in w.trace || p == o;
      assert forall i | 0 <= i < |w.trace| :: w'.trace[i] == w.trace[i] && w.trace[i] in w.trace;
    }
  }

  lemma WriteKeepsOnce(w: World, c: nat, now: Time)
    requires HooksOnce(w) && c < |w.clients| && w.clients[c].Ready?
    ensures HooksOnce(TakeWrite(w, c, now))
  {
    MovedKeepsOnce(w, TakeWrite(w, c, now), c);
  }

  /** A step of client `c` that accepts no webhook and moves nothing for one. */
  lemma OtherStepKeepsOnce(w: World, w': World, c: nat)
    requires HooksOnce(w) && c < |w.clients|
    requires w'.seen == w.seen && |w'.clients| == |w.clients| && w'.clients == w.clients[c := w'.clients[c]]
    requires Carried(w'.clients[c]).None? || Carried(w'.clients[c]) == Carried(w.clients[c])
    requires w'.trace == w.trace
      || (|w'.trace| == |w.trace| + 1 && w'.trace[..|w.trace|] == w.trace && !MovedByHook(w'.trace[|w.trace|]))
    ensures HooksOnce(w')
  {
    forall o | o in w'.trace && MovedByHook(o)
      ensures o in w.trace
    {
    }
  }

  lemma TakeKeepsOnce(w: World, s: Step)
    requires LocalsOk(w) && HooksOnce(w)
    ensures HooksOnce(Take(w, s))
  {
    if Client(s).None? {
      NobodysFootprint(w, s);
    } else if Take(w, s) != w {
      if s.IngestStep? {
        IngestKeepsOnce(w, s.c, s.vendor, s.verified, s.eventId, s.parsed);
      } else if s.WriteStep? {
        WriteKeepsOnce(w, s.c, s.now);
      } else {
        if s.TickReopenStep? {
          TickReopenFootprint(w, s);
          WritesFootprint(w, s);
        } else {
          OthersFootprint(w, s);
        }
        OtherStepKeepsOnce(w, Take(w, s), s.c);
      }
    }
  }

  lemma {:induction false} ReachedHooksOnce(clients: nat, steps: seq<Step>)
    ensures HooksOnce(After(clients, steps))
  {
    if steps != [] {
      ReachedHooksOnce(clients, steps[..|steps| - 1]);
      ReachedSafe(clients, steps[..|steps| - 1]);
      TakeKeepsOnce(After(clients, steps[..|steps| - 1]), steps[|steps| - 1]);
    }
  }

  /** However deliveries repeat and interleave, one webhook event id advances the state
      machine at most once. */
  lemma OneEventMovesAtMostOnce(clients: nat, steps: seq<Step>, i: nat, j: nat)
    requires var trace := After(clients, steps).trace;
      && i < |trace| && j < |trace| && MovedByHook(trace[i]) && MovedByHook(trace[j])
      && trace[i].writer.task.eventId == trace[j].writer.task.eventId
    ensures i == j
  {
    ReachedHooksOnce(clients, steps);
  }

  function HookMoves(trace: seq<Observation>): nat {
    if trace == [] then 0
    else HookMoves(trace[..|trace| - 1]) + if MovedByHook(trace[|trace| - 1]) then 1 else 0
  }

  lemma {:induction false} HookMovesFit(trace: seq<Observation>, seen: set<string>)
    requires forall i, j | 0 <= i < j < |trace| && MovedByHook(trace[i]) && MovedByHook(trace[j]) ::
      trace[i].writer.task.eventId != trace[j].writer.task.eventId
    requires forall i | 0 <= i < |trace| && MovedByHook(trace[i]) :: trace[i].writer.task.eventId in seen
    ensures HookMoves(trace) <= |seen|
  {
    if trace != [] {
      var n := |trace| - 1;
      if MovedByHook(trace[n]) {
        HookMovesFit(trace[..n], seen - {trace[n].writer.task.eventId});
      } else {
        HookMovesFit(trace[..n], seen);
      }
    }
  }

  /** In every interleaved run, webhooks have moved applications no more often than there
      are event ids seen. */
  lemma HookMovesNeverExceedSeen(clients: nat, steps: seq<Step>)
    ensures HookMoves(After(clients, steps).trace) <= |After(clients, steps).seen|
  {
    ReachedHooksOnce(clients, steps);
    var w := After(clients, steps);
    forall i | 0 <= i < |w.trace| && MovedByHook(w.trace[i])
      ensures w.trace[i].writer.task.eventId in w.seen
    {
      assert w.trace[i] in w.trace;
    }
    HookMovesFit(w.trace, w.seen);
  }
}
