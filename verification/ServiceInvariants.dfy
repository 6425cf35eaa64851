/** What every reachable state of the service keeps. */
module ServiceInvariants {
  import opened StateMachine
  import opened Entities
  import opened Repository
  import opened RepositoryRuns
  import opened Audit
  import opened Decisions
  import opened Retention
  import opened SanctionsHits
  import opened ServiceMachine

  // ---- the repository under the service ----

  /** The shared store is that of a fresh run of calls, and the audit log says the same
      transitions as the repository logged. */
  ghost predicate RepoOk(w: World) {
    && w.repo == Run(w.calls)
    && FreshIds(w.calls)
    && Transitions(w.log) == w.repo.events
  }

  lemma PerformKeepsRepo(w: World, call: Call, now: Time)
    requires RepoOk(w) && FreshCall(w.repo, call)
    ensures RepoOk(Perform(w, call, now))
    ensures Evolves(w.repo, Perform(w, call, now).repo)
  {
    RunSnoc(w.calls, TimedCall(call, now));
    FreshSplits(w.calls, TimedCall(call, now));
    AdvanceEvolves(w.repo, TimedCall(call, now));
    LoggedAreReadBack(w.log, Exec(w.repo.store, call, now).events);
  }

  // ---- dates ----

  /** Decided exactly when the decision date is set, and then due a year later. */
  predicate DatesOk(app: Application) {
    && (IsTerminal(app.state) <==> app.decidedAt != ZERO_TIME)
    && app.reKycDueAt == (if IsTerminal(app.state) then app.decidedAt + YEAR else ZERO_TIME)
  }

  ghost predicate AllDatesOk(s: Store) {
    forall id | id in s.apps :: DatesOk(s.apps[id])
  }

  /** The calls the service makes: it creates applications as started ones, and only a
      re-opening leads back to started. */
  predicate ServiceCall(call: Call) {
    match call
    case Create(app) => app == NewApplication(app.id, app.userId, app.vendor)
    case UpdateState(_, _, to, _, _) => to != Started
    case _ => true
  }

  lemma ExecKeepsDates(s: Store, call: Call, now: Time)
    requires AllDatesOk(s) && ServiceCall(call) && now != ZERO_TIME
    ensures AllDatesOk(Exec(s, call, now).store)
  {
    var t := Exec(s, call, now).store;
    forall id | id in t.apps
      ensures DatesOk(t.apps[id])
    {
      if id in s.apps {
        assert DatesOk(s.apps[id]);
      }
      if call.UpdateState? && id == call.id && t.apps[id] != s.apps[id] {
        assert CanTransition(s.apps[id].state, call.to);
      }
    }
  }

  ghost predicate BirthsOk(h: History) {
    forall id | id in h.births :: h.births[id].state == Started && h.births[id].version == 1
  }

  // ---- what the clients hold ----

  /** A copy of a record: either it still is the stored record, or the stored record has
      moved on, or it is gone. */
  ghost predicate Snapshot(h: History, app: Application) {
    && app.id in h.issued
    && (app.id in h.store.apps ==>
          app == h.store.apps[app.id] || app.version < h.store.apps[app.id].version)
  }

  /** What a client that is about to write has established. */
  predicate Prepared(trace: seq<Observation>, task: Task, id: string, state: State, to: State) {
    match task
    case Upload =>
      && state == Started && to == DocumentsUploaded
      && DocumentStored(id, IdFront) in trace && DocumentStored(id, Selfie) in trace
    case Liveness =>
      (state == Started || state == DocumentsUploaded) && to == LivenessPassed && SessionStored(id) in trace
    case Screen => CanTransition(state, to) && (to == ManualReview || to == State.Screening)
    case Dispose(clear, reviewer) =>
      state == ManualReview && to == DispositionTarget(clear) && HitsMarked(id, clear, reviewer) in trace
    case Hook(_, eventId, outcome) =>
      WebhookTarget(outcome, state) == Some(to) && HookAccepted(id, outcome, eventId) in trace
    case Trigger => to == Started
  }

  ghost predicate LocalOk(h: History, trace: seq<Observation>, l: Local) {
    match l
    case Idle => true
    case Created(_) => true
    case HookSeen(_, eventId, appId, outcome) => HookAccepted(appId, outcome, eventId) in trace
    case Read(task, id, app) => Snapshot(h, app) && app.id == id && Admits(task, app.state)
    case Stored(task, id, app) => Snapshot(h, app) && app.id == id && task == Upload
    case Adding(task, id, app, _, _) => Snapshot(h, app) && app.id == id && task == Screen
    case Ready(task, id, app, to) => Snapshot(h, app) && app.id == id && Prepared(trace, task, id, app.state, to)
    case Ticking(asOf, listed, _) =>
      forall app | app in listed :: Snapshot(h, app) && IsDue(app, asOf) && DatesOk(app)
  }

  ghost predicate LocalsOk(w: World) {
    forall c | 0 <= c < |w.clients| :: LocalOk(w.repo, w.trace, w.clients[c])
  }

  lemma LocalOkLasts(h: History, trace: seq<Observation>, h': History, trace': seq<Observation>, l: Local)
    requires LocalOk(h, trace, l) && Evolves(h, h') && trace <= trace'
    ensures LocalOk(h', trace', l)
  {
    assert forall o | o in trace :: o in trace';
  }

  lemma LocalsLast(w: World, w': World)
    requires LocalsOk(w) && Evolves(w.repo, w'.repo) && w.trace <= w'.trace
    requires |w'.clients| == |w.clients|
    requires forall c | 0 <= c < |w.clients| ::
      w'.clients[c] == w.clients[c] || LocalOk(w'.repo, w'.trace, w'.clients[c])
    ensures LocalsOk(w')
  {
    forall c | 0 <= c < |w'.clients|
      ensures LocalOk(w'.repo, w'.trace, w'.clients[c])
    {
      if w'.clients[c] == w.clients[c] {
        LocalOkLasts(w.repo, w.trace, w'.repo, w'.trace, w.clients[c]);
      }
    }
  }

  /** Every document on the shelves was stored by an upload. */
  ghost predicate DocsOk(w: World) {
    forall id, h | id in w.docs && h in w.docs[id] :: DocumentStored(id, h.item) in w.trace
  }

  lemma {:induction false} KeptAreItems<T>(items: seq<Held<T>>, now: Time)
    ensures forall h | h in Kept(items, now) :: h in items && !Expired(h, now)
  {
    if items != [] {
      KeptAreItems(items[..|items| - 1], now);
    }
  }

  ghost predicate Safe(w: World) {
    && RepoOk(w)
    && Indexed(w.repo.store)
    && Accounted(w.repo)
    && AllDatesOk(w.repo.store)
    && BirthsOk(w.repo)
    && DocsOk(w)
    && LocalsOk(w)
  }

  // ---- each kind of step keeps it ----

  lemma PerformKeepsStore(w: World, call: Call, now: Time)
    requires Safe(w) && FreshCall(w.repo, call) && ServiceCall(call) && now != ZERO_TIME
    ensures var h := Perform(w, call, now).repo;
      Indexed(h.store) && Accounted(h) && AllDatesOk(h.store) && BirthsOk(h)
  {
    ExecKeepsIndexed(w.repo.store, call, now);
    AdvanceKeepsAccounted(w.repo, TimedCall(call, now));
    ExecKeepsDates(w.repo.store, call, now);
  }

  /** From `w` to `w'` the store evolved and nothing observed was forgotten. */
  ghost predicate Continues(w: World, w': World) {
    Evolves(w.repo, w'.repo) && w.trace <= w'.trace
  }

  /** A step of client `c` that leaves the repository alone. */
  lemma QuietMove(w: World, w': World, c: nat)
    requires Safe(w) && c < |w.clients| && w.trace <= w'.trace
    requires w'.repo == w.repo && w'.calls == w.calls && w'.log == w.log
    requires |w'.clients| == |w.clients| && w'.clients == w.clients[c := w'.clients[c]]
    requires LocalOk(w'.repo, w'.trace, w'.clients[c])
    requires w'.docs == w.docs || DocsOk(w')
    ensures Safe(w') && Continues(w, w')
  {
    LocalsLast(w, w');
    assert forall o | o in w.trace :: o in w'.trace;
  }

  /** A step of client `c` that runs one call. */
  lemma CallMove(w: World, w': World, c: nat, call: Call, now: Time)
    requires Safe(w) && c < |w.clients| && w.trace <= w'.trace
    requires FreshCall(w.repo, call) && ServiceCall(call) && now != ZERO_TIME
    requires var p := Perform(w, call, now);
      w'.repo == p.repo && w'.calls == p.calls && w'.log == p.log && w'.docs == w.docs
    requires |w'.clients| == |w.clients| && w'.clients == w.clients[c := w'.clients[c]]
    requires Evolves(w.repo, w'.repo) ==> LocalOk(w'.repo, w'.trace, w'.clients[c])
    ensures Safe(w') && Continues(w, w')
  {
    PerformKeepsRepo(w, call, now);
    PerformKeepsStore(w, call, now);
    LocalsLast(w, w');
    assert forall o | o in w.trace :: o in w'.trace;
  }

  lemma CreateKeepsSafe(w: World, c: nat, id: string, userId: string, vendor: string, now: Time)
    requires Safe(w) && c < |w.clients| && id != "" && id !in w.repo.issued && now != ZERO_TIME
    ensures var w' := TakeCreate(w, c, id, userId, vendor, now); Safe(w') && Continues(w, w')
  {
    CallMove(w, TakeCreate(w, c, id, userId, vendor, now), c, Create(NewApplication(id, userId, vendor)), now);
  }

  lemma RegisterKeepsSafe(w: World, c: nat, vendorId: Option<string>, now: Time)
    requires Safe(w) && c < |w.clients| && w.clients[c].Created? && now != ZERO_TIME
    ensures var w' := TakeRegister(w, c, vendorId, now); Safe(w') && Continues(w, w')
  {
    var w' := TakeRegister(w, c, vendorId, now);
    if vendorId.None? {
      QuietMove(w, w', c);
    } else {
      CallMove(w, w', c, SetVendorApplicantId(w.clients[c].id, vendorId.value), now);
    }
  }

  lemma ReadyNeverAsksForStarted(w: World, c: nat)
    requires Safe(w) && c < |w.clients| && w.clients[c].Ready?
    ensures ServiceCall(WriteCall(w.clients[c]))
  {
    var l := w.clients[c];
    assert LocalOk(w.repo, w.trace, l);
    if l.task.Hook? {
      WebhookMovesByClass(l.task.outcome, l.app.state);
    }
  }

  lemma WriteKeepsSafe(w: World, c: nat, now: Time)
    requires Safe(w) && c < |w.clients| && w.clients[c].Ready? && now != ZERO_TIME
    ensures var w' := TakeWrite(w, c, now); Safe(w') && Continues(w, w')
  {
    ReadyNeverAsksForStarted(w, c);
    CallMove(w, TakeWrite(w, c, now), c, WriteCall(w.clients[c]), now);
  }

  lemma RestOfListLasts(w: World, c: nat, h': History, trace': seq<Observation>, n: nat)
    requires LocalsOk(w) && c < |w.clients| && w.clients[c].Ticking? && w.clients[c].listed != []
    requires w.trace <= trace' && Evolves(w.repo, h')
    ensures var l := w.clients[c]; LocalOk(h', trace', Ticking(l.asOf, l.listed[1..], n))
  {
    var l := w.clients[c];
    LocalOkLasts(w.repo, w.trace, h', trace', l);
    assert forall app | app in l.listed[1..] :: app in l.listed;
  }

  lemma TickReopenKeepsSafe(w: World, c: nat, now: Time)
    requires Safe(w) && c < |w.clients| && w.clients[c].Ticking? && w.clients[c].listed != [] && now != ZERO_TIME
    ensures var w' := TakeTickReopen(w, c, now); Safe(w') && Continues(w, w')
  {
    var w' := TakeTickReopen(w, c, now);
    var call := TickCall(w.clients[c].listed[0]);
    TickReopenParts(w, c, now);
    PerformKeepsRepo(w, call, now);
    RestOfListLasts(w, c, w'.repo, w'.trace, w'.clients[c].reopened);
    CallMove(w, w', c, call, now);
  }

  lemma TickReopenParts(w: World, c: nat, now: Time)
    requires c < |w.clients| && w.clients[c].Ticking? && w.clients[c].listed != []
    ensures var l := w.clients[c];
      var w' := TakeTickReopen(w, c, now);
      var p := Perform(w, TickCall(l.listed[0]), now);
      && w'.repo == p.repo && w'.calls == p.calls && w'.log == p.log && w'.docs == w.docs && w.trace <= w'.trace
      && |w'.clients| == |w.clients| && w'.clients == w.clients[c := w'.clients[c]]
      && w'.clients[c].Ticking? && w'.clients[c] == Ticking(l.asOf, l.listed[1..], w'.clients[c].reopened)
  {
  }

  lemma StoredIsSnapshot(w: World, id: string)
    requires Safe(w) && id in w.repo.store.apps
    ensures Snapshot(w.repo, w.repo.store.apps[id]) && w.repo.store.apps[id].id == id
    ensures DatesOk(w.repo.store.apps[id])
  {
  }

  lemma ReadKeepsSafe(w: World, c: nat, task: Task, id: string)
    requires Safe(w) && c < |w.clients|
    ensures var w' := TakeRead(w, c, task, id); Safe(w') && Continues(w, w')
  {
    if id in w.repo.store.apps {
      StoredIsSnapshot(w, id);
    }
    assert LocalOk(w.repo, w.trace, w.clients[c]);
    QuietMove(w, TakeRead(w, c, task, id), c);
  }

  lemma HookReadKeepsSafe(w: World, c: nat)
    requires Safe(w) && c < |w.clients| && w.clients[c].HookSeen?
    ensures var w' := TakeHookRead(w, c); Safe(w') && Continues(w, w')
  {
    if w.clients[c].appId in w.repo.store.apps {
      StoredIsSnapshot(w, w.clients[c].appId);
    }
    assert LocalOk(w.repo, w.trace, w.clients[c]);
    QuietMove(w, TakeHookRead(w, c), c);
  }

  lemma TriggerReadKeepsSafe(w: World, c: nat, userId: string)
    requires Safe(w) && c < |w.clients|
    ensures var w' := TakeTriggerRead(w, c, userId); Safe(w') && Continues(w, w')
  {
    if FindByUser(w.repo.store, userId).Record? {
      StoredIsSnapshot(w, w.repo.store.byUser[userId]);
    }
    assert LocalOk(w.repo, w.trace, w.clients[c]);
    QuietMove(w, TakeTriggerRead(w, c, userId), c);
  }

  lemma TickListKeepsSafe(w: World, c: nat, asOf: Time, order: seq<Application>)
    requires Safe(w) && c < |w.clients| && ListsDue(w.repo.store, asOf, order)
    ensures var w' := Set(w, c, Ticking(asOf, order, 0)); Safe(w') && Continues(w, w')
  {
    forall app | app in order
      ensures Snapshot(w.repo, app) && DatesOk(app)
    {
      StoredIsSnapshot(w, app.id);
    }
    QuietMove(w, Set(w, c, Ticking(asOf, order, 0)), c);
  }

  lemma StoreDocumentKeepsSafe(w: World, c: nat, doc: Held<DocType>)
    requires Safe(w) && c < |w.clients| && w.clients[c].Read? && w.clients[c].task.Upload?
    ensures var w' := TakeStoreDocument(w, c, doc); Safe(w') && Continues(w, w')
  {
    var w' := TakeStoreDocument(w, c, doc);
    assert LocalOk(w.repo, w.trace, w.clients[c]);
    assert forall o | o in w.trace :: o in w'.trace;
    if w'.docs != w.docs {
      assert w'.trace[|w.trace|] in w'.trace;
    }
    QuietMove(w, w', c);
  }

  lemma StoreSessionKeepsSafe(w: World, c: nat, session: Option<Held<string>>)
    requires Safe(w) && c < |w.clients| && w.clients[c].Read? && w.clients[c].task.Liveness?
    ensures var w' := TakeStoreSession(w, c, session); Safe(w') && Continues(w, w')
  {
    var w' := TakeStoreSession(w, c, session);
    assert LocalOk(w.repo, w.trace, w.clients[c]);
    if session.Some? {
      assert w'.trace[|w.trace|] in w'.trace;
    }
    QuietMove(w, w', c);
  }

  lemma ScreenKeepsSafe(w: World, c: nat, found: Option<seq<Match>>)
    requires Safe(w) && c < |w.clients| && w.clients[c].Read? && w.clients[c].task.Screen?
    ensures var w' := TakeScreen(w, c, found); Safe(w') && Continues(w, w')
  {
    assert LocalOk(w.repo, w.trace, w.clients[c]);
    QuietMove(w, TakeScreen(w, c, found), c);
  }

  lemma AddHitKeepsSafe(w: World, c: nat, hitId: string)
    requires Safe(w) && c < |w.clients| && w.clients[c].Adding? && w.clients[c].left != []
    ensures var w' := TakeAddHit(w, c, hitId); Safe(w') && Continues(w, w')
  {
    assert LocalOk(w.repo, w.trace, w.clients[c]);
    QuietMove(w, TakeAddHit(w, c, hitId), c);
  }

  lemma ScreenedKeepsSafe(w: World, c: nat, threshold: nat)
    requires Safe(w) && c < |w.clients| && w.clients[c].Adding?
    ensures var w' := TakeScreened(w, c, threshold); Safe(w') && Continues(w, w')
  {
    assert LocalOk(w.repo, w.trace, w.clients[c]);
    QuietMove(w, TakeScreened(w, c, threshold), c);
  }

  lemma MarkHitsKeepsSafe(w: World, c: nat, now: Time)
    requires Safe(w) && c < |w.clients| && w.clients[c].Read? && w.clients[c].task.Dispose?
    ensures var w' := TakeMarkHits(w, c, now); Safe(w') && Continues(w, w')
  {
    var w' := TakeMarkHits(w, c, now);
    assert LocalOk(w.repo, w.trace, w.clients[c]);
    assert w'.trace[|w.trace|] in w'.trace;
    QuietMove(w, w', c);
  }

  lemma IngestKeepsSafe(w: World, c: nat, vendor: string, verified: bool, eventId: string, parsed: Option<VendorEvent>)
    requires Safe(w) && c < |w.clients|
    ensures var w' := TakeIngest(w, c, vendor, verified, eventId, parsed); Safe(w') && Continues(w, w')
  {
    var w' := TakeIngest(w, c, vendor, verified, eventId, parsed);
    assert LocalOk(w.repo, w.trace, w.clients[c]);
    if w'.trace != w.trace {
      assert w'.trace[|w.trace|] in w'.trace;
    }
    QuietMove(w, w', c);
  }

  lemma CheckKeepsSafe(w: World, c: nat)
    requires Safe(w) && c < |w.clients| && w.clients[c].Stored?
    ensures var w' := TakeCheckDocuments(w, c); Safe(w') && Continues(w, w')
  {
    assert LocalOk(w.repo, w.trace, w.clients[c]);
    TypesAreStored(w, w.clients[c].id);
    QuietMove(w, TakeCheckDocuments(w, c), c);
  }

  lemma TypesAreStored(w: World, id: string)
    requires DocsOk(w)
    ensures forall t | t in TypesOf(w.docs, id) :: DocumentStored(id, t) in w.trace
  {
    if id in w.docs {
      forall t | t in TypesOf(w.docs, id)
        ensures DocumentStored(id, t) in w.trace
      {
        var i :| 0 <= i < |w.docs[id]| && w.docs[id][i].item == t;
        assert w.docs[id][i] in w.docs[id];
      }
    }
  }

  lemma SweepKeepsSafe(w: World, now: Time)
    requires Safe(w)
    ensures var w' := w.(docs := Swept(w.docs, now), sessions := Swept(w.sessions, now));
      Safe(w') && Continues(w, w')
  {
    var w' := w.(docs := Swept(w.docs, now), sessions := Swept(w.sessions, now));
    LocalsLast(w, w');
    forall id, h | id in w'.docs && h in w'.docs[id]
      ensures DocumentStored(id, h.item) in w'.trace
    {
      KeptAreItems(w.docs[id], now);
    }
  }

  lemma NoteKeepsSafe(w: World, e: AuditEvent)
    requires Safe(w) && !e.action.StateTransition?
    ensures var w' := w.(log := w.log + [e]); Safe(w') && Continues(w, w')
  {
    LocalsLast(w, w.(log := w.log + [e]));
    OtherEventIsNoTransition(w.log, e);
  }

  lemma TickReturnKeepsSafe(w: World, c: nat)
    requires Safe(w) && c < |w.clients| && w.clients[c].Ticking?
    ensures var w' := Set(w, c, Idle).(returned := w.returned + w.clients[c].reopened); Safe(w') && Continues(w, w')
  {
    QuietMove(w, Set(w, c, Idle).(returned := w.returned + w.clients[c].reopened), c);
  }

  /** Reads and lookups. */
  lemma ReadingKeepsSafe(w: World, s: Step)
    requires Safe(w) && Take(w, s) != w
    requires s.ReadStep? || s.HookReadStep? || s.TriggerReadStep? || s.TickListStep? || s.IngestStep?
    ensures Safe(Take(w, s)) && Continues(w, Take(w, s))
  {
    match s
    case ReadStep(c, task, id) => ReadKeepsSafe(w, c, task, id);
    case HookReadStep(c) => HookReadKeepsSafe(w, c);
    case TriggerReadStep(c, userId) => TriggerReadKeepsSafe(w, c, userId);
    case TickListStep(c, asOf, order) => TickListKeepsSafe(w, c, asOf, order);
    case IngestStep(c, vendor, verified, eventId, parsed) =>
      IngestKeepsSafe(w, c, vendor, verified, eventId, parsed);
  }

  /** Steps that call the repository to write. */
  lemma WritingKeepsSafe(w: World, s: Step)
    requires Safe(w) && Take(w, s) != w
    requires s.CreateStep? || s.RegisterStep? || s.WriteStep? || s.TickReopenStep? || s.TickReturnStep?
    ensures Safe(Take(w, s)) && Continues(w, Take(w, s))
  {
    match s
    case CreateStep(c, id, userId, vendor, now) => CreateKeepsSafe(w, c, id, userId, vendor, now);
    case RegisterStep(c, vendorId, now) => RegisterKeepsSafe(w, c, vendorId, now);
    case WriteStep(c, now) => WriteKeepsSafe(w, c, now);
    case TickReopenStep(c, now) => TickReopenKeepsSafe(w, c, now);
    case TickReturnStep(c) => TickReturnKeepsSafe(w, c);
  }

  /** Steps on the shelves of documents and sessions. */
  lemma ShelvingKeepsSafe(w: World, s: Step)
    requires Safe(w) && Take(w, s) != w
    requires s.StoreDocumentStep? || s.CheckDocumentsStep? || s.StoreSessionStep? || s.SweepStep? || s.NoteStep?
    ensures Safe(Take(w, s)) && Continues(w, Take(w, s))
  {
    match s
    case StoreDocumentStep(c, doc) => StoreDocumentKeepsSafe(w, c, doc);
    case CheckDocumentsStep(c) => CheckKeepsSafe(w, c);
    case StoreSessionStep(c, session) => StoreSessionKeepsSafe(w, c, session);
    case SweepStep(now) => SweepKeepsSafe(w, now);
    case NoteStep(event) => NoteKeepsSafe(w, event);
  }

  /** Steps on the hits. */
  lemma ScreeningKeepsSafe(w: World, s: Step)
    requires Safe(w) && Take(w, s) != w
    requires s.ScreenStep? || s.AddHitStep? || s.ScreenedStep? || s.MarkHitsStep?
    ensures Safe(Take(w, s)) && Continues(w, Take(w, s))
  {
    match s
    case ScreenStep(c, found) => ScreenKeepsSafe(w, c, found);
    case AddHitStep(c, hitId) => AddHitKeepsSafe(w, c, hitId);
    case ScreenedStep(c, threshold) => ScreenedKeepsSafe(w, c, threshold);
    case MarkHitsStep(c, now) => MarkHitsKeepsSafe(w, c, now);
  }

  /** Every step, of whichever client, keeps all of it. */
  lemma TakeKeepsSafe(w: World, s: Step)
    requires Safe(w)
    ensures Safe(Take(w, s)) && Continues(w, Take(w, s))
  {
    if Take(w, s) != w {
      if s.ScreenStep? || s.AddHitStep? || s.ScreenedStep? || s.MarkHitsStep? {
        ScreeningKeepsSafe(w, s);
      } else if s.CreateStep? || s.RegisterStep? || s.WriteStep? || s.TickReopenStep? || s.TickReturnStep? {
        WritingKeepsSafe(w, s);
      } else if s.ReadStep? || s.HookReadStep? || s.TriggerReadStep? || s.TickListStep? || s.IngestStep? {
        ReadingKeepsSafe(w, s);
      } else {
        ShelvingKeepsSafe(w, s);
      }
    }
  }

  lemma {:induction false} ReachedSafe(clients: nat, steps: seq<Step>)
    ensures Safe(After(clients, steps))
  {
    if steps != [] {
      ReachedSafe(clients, steps[..|steps| - 1]);
      TakeKeepsSafe(After(clients, steps[..|steps| - 1]), steps[|steps| - 1]);
    }
  }

  /** What the repository alone guarantees of every fresh run holds in every reachable
      state of the service: the index is exact, and replaying the audit log gives every
      live application its state and its version. */
  lemma ReachedStoreReplays(clients: nat, steps: seq<Step>)
    ensures var w := After(clients, steps);
      && Indexed(w.repo.store) && NoDangling(w.repo.store)
      && Transitions(w.log) == w.repo.events
      && forall id | id in w.repo.store.apps ::
           && id in w.repo.births && w.repo.births[id].state == Started && w.repo.births[id].version == 1
           && Chain(Started, EventsOf(Transitions(w.log), id), w.repo.store.apps[id].state)
           && w.repo.store.apps[id].version
              == 1 + |EventsOf(Transitions(w.log), id)| + CountOf(w.repo.vendorWrites, id)
  {
    var w := After(clients, steps);
    ReachedSafe(clients, steps);
    FreshRunsNeverDangle(w.calls);
    forall id | id in w.repo.store.apps
      ensures Replays(w.repo, id)
    {
      ReplayRebuilds(w.calls, id);
    }
  }

  /** In every reachable state an application is PASS or FAIL exactly when its decision date
      is set, and it then falls due a year after it; otherwise it has neither date. */
  lemma ReachedDatesOk(clients: nat, steps: seq<Step>, id: string)
    requires id in After(clients, steps).repo.store.apps
    ensures var app := After(clients, steps).repo.store.apps[id];
      && (IsTerminal(app.state) <==> app.decidedAt != ZERO_TIME)
      && app.reKycDueAt == (if app.decidedAt != ZERO_TIME then app.decidedAt + YEAR else ZERO_TIME)
  {
    ReachedSafe(clients, steps);
  }
}
