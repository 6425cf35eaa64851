/** The service as a step machine. Any number of clients run handlers, webhooks, analyst
    dispositions and scheduler ticks against the shared stores; each client reads, decides
    and writes in separate steps, and the steps of all clients interleave freely. */
module ServiceMachine {
  import opened StateMachine
  import opened Entities
  import opened Repository
  import opened RepositoryRuns
  import opened Audit
  import opened Decisions
  import opened Retention
  import opened SanctionsHits

  /** What a client is doing for one application. */
  datatype Task =
    | Upload
    | Liveness
    | Screen
    | Dispose(clear: bool, reviewer: string)
    | Hook(vendor: string, eventId: string, outcome: VendorOutcome)
    | Trigger

  /** Where a client stands between two of its steps, with the copy it has read. */
  datatype Local =
    | Idle
    | Created(id: string)
    | HookSeen(vendor: string, eventId: string, appId: string, outcome: VendorOutcome)
    | Read(task: Task, id: string, app: Application)
    | Stored(task: Task, id: string, app: Application)
    | Adding(task: Task, id: string, app: Application, left: seq<Match>, added: nat)
    | Ready(task: Task, id: string, app: Application, to: State)
      /** A tick in progress. The scheduler holds only the id and version of each record. */
    | Ticking(asOf: Time, listed: seq<Application>, reopened: nat)

  datatype Writer = ByTask(task: Task) | ByScheduler(asOf: Time, decidedAt: Time)

  /** What happened, in order. */
  datatype Observation =
    | DocumentStored(id: string, docType: DocType)
    | SessionStored(id: string)
    | HitAdded(id: string)
    | HitsMarked(id: string, clear: bool, reviewer: string)
    | HookAccepted(appId: string, outcome: VendorOutcome, eventId: string)
    | Advanced(writer: Writer, move: Transition)

  datatype World = World(
    repo: History,
    calls: seq<TimedCall>,
    docs: Shelves<DocType>,
    sessions: Shelves<string>,
    hits: Hits,
    seen: set<string>,
    log: seq<AuditEvent>,
    trace: seq<Observation>,
    clients: seq<Local>,
    returned: nat
  )

  function Start(clients: nat): World {
    World(NO_HISTORY, [], map[], map[], map[], {}, [], [], seq(clients, _ => Idle), 0)
  }

  /** One step of one client, or of the retention sweeper. The arguments are what the
      outside supplies: request fields, vendor answers, fresh ids and clock readings. */
  datatype Step =
    | CreateStep(c: nat, id: string, userId: string, vendor: string, now: Time)
    | RegisterStep(c: nat, vendorId: Option<string>, now: Time)
    | ReadStep(c: nat, task: Task, id: string)
    | StoreDocumentStep(c: nat, doc: Held<DocType>)
    | CheckDocumentsStep(c: nat)
    | StoreSessionStep(c: nat, session: Option<Held<string>>)
    | ScreenStep(c: nat, found: Option<seq<Match>>)
    | AddHitStep(c: nat, hitId: string)
    | ScreenedStep(c: nat, threshold: nat)
    | MarkHitsStep(c: nat, now: Time)
    | IngestStep(c: nat, vendor: string, verified: bool, eventId: string, parsed: Option<VendorEvent>)
    | HookReadStep(c: nat)
    | TriggerReadStep(c: nat, userId: string)
    | WriteStep(c: nat, now: Time)
    | TickListStep(c: nat, asOf: Time, order: seq<Application>)
    | TickReopenStep(c: nat, now: Time)
    | TickReturnStep(c: nat)
    | SweepStep(now: Time)
    | NoteStep(event: AuditEvent)

  function Set(w: World, c: nat, l: Local): World
    requires c < |w.clients|
  {
    w.(clients := w.clients[c := l])
  }

  function Observe(w: World, o: Observation): World {
    w.(trace := w.trace + [o])
  }

  /** Runs one call on the shared repository. A transition reaches the audit log before the
      repository's lock is released. */
  function Perform(w: World, call: Call, now: Time): World {
    var out := Exec(w.repo.store, call, now);
    w.(
      repo := Advance(w.repo, TimedCall(call, now)),
      calls := w.calls + [TimedCall(call, now)],
      log := w.log + AsEvents(out.events)
    )
  }

  function Answer(w: World, call: Call, now: Time): Response {
    Exec(w.repo.store, call, now).response
  }

  /** The write a client that is ready will ask for. */
  function WriteCall(l: Local): Call
    requires l.Ready?
  {
    match l.task
    case Upload => UpdateState(l.id, l.app.version, l.to, "system", "required documents uploaded")
    case Liveness => UpdateState(l.id, l.app.version, l.to, "system", "liveness passed")
    case Screen => UpdateState(l.id, l.app.version, l.to, "system", "screening run")
    case Dispose(clear, reviewer) =>
      UpdateState(l.id, l.app.version, l.to, reviewer,
                  "screening disposition: " + if clear then "CLEAR" else "BLOCK")
    case Hook(vendor, eventId, _) =>
      UpdateState(l.id, l.app.version, l.to, "webhook:" + vendor, "webhook event " + eventId)
    case Trigger => Reopen(l.id, l.app.version, "internal")
  }

  /** Whether a handler goes on with the application it read. */
  predicate Admits(task: Task, state: State) {
    match task
    case Upload => true
    case Liveness => state == DocumentsUploaded || state == Started
    case Screen => true
    case Dispose(_, _) => state == ManualReview
    case Hook(_, _, _) => false
    case Trigger => false
  }

  function TypesOf(docs: Shelves<DocType>, id: string): seq<DocType> {
    if id in docs then seq(|docs[id]|, i requires 0 <= i < |docs[id]| => docs[id][i].item) else []
  }

  /** `order` lists each due record once. */
  ghost predicate ListsDue(s: Store, asOf: Time, order: seq<Application>) {
    && (forall app :: app in order <==> app.id in s.apps && s.apps[app.id] == app && IsDue(app, asOf))
    && (forall i, j | 0 <= i < j < |order| :: order[i] != order[j])
  }

  function Client(s: Step): Option<nat> {
    if s.SweepStep? || s.NoteStep? then None else Some(s.c)
  }

  /** What the outside guarantees: fresh ids, a running clock, honest listings, and that
      only the repository logs transitions. */
  ghost predicate Admissible(w: World, s: Step) {
    && (Client(s).Some? ==> Client(s).value < |w.clients|)
    && match s
       case CreateStep(_, id, userId, _, now) => id != "" && id !in w.repo.issued && userId != "" && now != ZERO_TIME
       case RegisterStep(_, _, now) => now != ZERO_TIME
       case WriteStep(_, now) => now != ZERO_TIME
       case TickReopenStep(_, now) => now != ZERO_TIME
       case TickListStep(_, asOf, order) => ListsDue(w.repo.store, asOf, order)
       case NoteStep(event) => !event.action.StateTransition?
       case _ => true
  }

  /** The effect of a step; a step that does not fit where its client stands does nothing. */
  ghost function Take(w: World, s: Step): World
  {
    if !Admissible(w, s) then w
    else if s.SweepStep? then w.(docs := Swept(w.docs, s.now), sessions := Swept(w.sessions, s.now))
    else if s.NoteStep? then w.(log := w.log + [s.event])
    else
      var l := w.clients[s.c];
      match s
      case CreateStep(c, id, userId, vendor, now) => if l.Idle? then TakeCreate(w, c, id, userId, vendor, now) else w
      case RegisterStep(c, vendorId, now) => if l.Created? then TakeRegister(w, c, vendorId, now) else w
      case ReadStep(c, task, id) => if l.Idle? then TakeRead(w, c, task, id) else w
      case StoreDocumentStep(c, doc) => if l.Read? && l.task.Upload? then TakeStoreDocument(w, c, doc) else w
      case CheckDocumentsStep(c) => if l.Stored? then TakeCheckDocuments(w, c) else w
      case StoreSessionStep(c, session) => if l.Read? && l.task.Liveness? then TakeStoreSession(w, c, session) else w
      case ScreenStep(c, found) => if l.Read? && l.task.Screen? then TakeScreen(w, c, found) else w
      case AddHitStep(c, hitId) => if l.Adding? && l.left != [] then TakeAddHit(w, c, hitId) else w
      case ScreenedStep(c, threshold) => if l.Adding? && l.left == [] then TakeScreened(w, c, threshold) else w
      case MarkHitsStep(c, now) => if l.Read? && l.task.Dispose? then TakeMarkHits(w, c, now) else w
      case IngestStep(c, vendor, verified, eventId, parsed) =>
        if l.Idle? then TakeIngest(w, c, vendor, verified, eventId, parsed) else w
      case HookReadStep(c) => if l.HookSeen? then TakeHookRead(w, c) else w
      case TriggerReadStep(c, userId) => if l.Idle? then TakeTriggerRead(w, c, userId) else w
      case WriteStep(c, now) => if l.Ready? then TakeWrite(w, c, now) else w
      case TickListStep(c, asOf, order) => if l.Idle? then Set(w, c, Ticking(asOf, order, 0)) else w
      case TickReopenStep(c, now) => if l.Ticking? && l.listed != [] then TakeTickReopen(w, c, now) else w
      case TickReturnStep(c) =>
        if l.Ticking? && l.listed == [] then Set(w, c, Idle).(returned := w.returned + l.reopened) else w
  }

  function NewApplication(id: string, userId: string, vendor: string): Application {
    Application(id, userId, vendor, "", Started, ZERO_TIME, ZERO_TIME, ZERO_TIME, ZERO_TIME, ZERO_TIME, 0)
  }

  function TakeCreate(w: World, c: nat, id: string, userId: string, vendor: string, now: Time): World
    requires c < |w.clients|
  {
    var call := Create(NewApplication(id, userId, vendor));
    Set(Perform(w, call, now), c, if Answer(w, call, now).Record? then Created(id) else Idle)
  }

  function TakeRegister(w: World, c: nat, vendorId: Option<string>, now: Time): World
    requires c < |w.clients| && w.clients[c].Created?
  {
    if vendorId.None? then Set(w, c, Idle)
    else Set(Perform(w, SetVendorApplicantId(w.clients[c].id, vendorId.value), now), c, Idle)
  }

  function TakeRead(w: World, c: nat, task: Task, id: string): World
    requires c < |w.clients|
  {
    var found := Find(w.repo.store, id);
    if found.Record? && Admits(task, found.app.state) then Set(w, c, Read(task, id, found.app)) else w
  }

  function TakeStoreDocument(w: World, c: nat, doc: Held<DocType>): World
    requires c < |w.clients| && w.clients[c].Read?
  {
    var l := w.clients[c];
    if !IsKnownDocType(doc.item) then Set(w, c, Idle)
    else
      var stored := Observe(w, DocumentStored(l.id, doc.item)).(docs := WithItem(w.docs, l.id, doc));
      Set(stored, c, Stored(l.task, l.id, l.app))
  }

  function TakeCheckDocuments(w: World, c: nat): World
    requires c < |w.clients| && w.clients[c].Stored?
  {
    var l := w.clients[c];
    Set(w, c, if l.app.state == Started && HasRequired(TypesOf(w.docs, l.id))
              then Ready(l.task, l.id, l.app, DocumentsUploaded) else Idle)
  }

  function TakeStoreSession(w: World, c: nat, session: Option<Held<string>>): World
    requires c < |w.clients| && w.clients[c].Read?
  {
    var l := w.clients[c];
    if session.None? then Set(w, c, Idle)
    else Set(Observe(w, SessionStored(l.id)).(sessions := WithItem(w.sessions, l.id, session.value)), c,
             Ready(l.task, l.id, l.app, LivenessPassed))
  }

  /** The screener's answer, if there is one: its matches are then kept one by one. */
  function TakeScreen(w: World, c: nat, found: Option<seq<Match>>): World
    requires c < |w.clients| && w.clients[c].Read?
  {
    var l := w.clients[c];
    Set(w, c, if found.Some? then Adding(l.task, l.id, l.app, found.value, 0) else Idle)
  }

  function TakeAddHit(w: World, c: nat, hitId: string): World
    requires c < |w.clients| && w.clients[c].Adding? && w.clients[c].left != []
  {
    var l := w.clients[c];
    var more := WithHit(w.hits, l.id, NewHit(hitId, l.id, l.left[0]));
    Set(Observe(w, HitAdded(l.id)).(hits := more), c, Adding(l.task, l.id, l.app, l.left[1..], l.added + 1))
  }

  function TakeScreened(w: World, c: nat, threshold: nat): World
    requires c < |w.clients| && w.clients[c].Adding?
  {
    var l := w.clients[c];
    var to := ScreeningTarget(l.added, threshold);
    Set(w, c, if CanTransition(l.app.state, to) then Ready(l.task, l.id, l.app, to) else Idle)
  }

  function ReviewOf(clear: bool): Review {
    if clear then Clear else Block
  }

  function TakeMarkHits(w: World, c: nat, now: Time): World
    requires c < |w.clients| && w.clients[c].Read? && w.clients[c].task.Dispose?
  {
    var l := w.clients[c];
    var marked := Marked(w.hits, l.id, l.task.reviewer, ReviewOf(l.task.clear), now);
    Set(Observe(w, HitsMarked(l.id, l.task.clear, l.task.reviewer)).(hits := marked), c,
        Ready(l.task, l.id, l.app, DispositionTarget(l.task.clear)))
  }

  function TakeIngest(w: World, c: nat, vendor: string, verified: bool, eventId: string, parsed: Option<VendorEvent>)
    : World
    requires c < |w.clients|
  {
    var id := EffectiveId(eventId);
    if !verified || id in w.seen then w
    else
      var marked := w.(seen := w.seen + {id});
      if parsed.None? || parsed.value.appId == "" then marked
      else Set(Observe(marked, HookAccepted(parsed.value.appId, parsed.value.outcome, id)), c,
               HookSeen(vendor, id, parsed.value.appId, parsed.value.outcome))
  }

  function TakeHookRead(w: World, c: nat): World
    requires c < |w.clients| && w.clients[c].HookSeen?
  {
    var l := w.clients[c];
    var found := Find(w.repo.store, l.appId);
    if !found.Record? then Set(w, c, Idle)
    else
      var to := WebhookTarget(l.outcome, found.app.state);
      Set(w, c, if to.Some? then Ready(Hook(l.vendor, l.eventId, l.outcome), found.app.id, found.app, to.value)
                else Idle)
  }

  function TakeTriggerRead(w: World, c: nat, userId: string): World
    requires c < |w.clients|
  {
    var found := FindByUser(w.repo.store, userId);
    if found.Record? then Set(w, c, Ready(Trigger, found.app.id, found.app, Started)) else w
  }

  function TakeWrite(w: World, c: nat, now: Time): World
    requires c < |w.clients| && w.clients[c].Ready?
  {
    var l := w.clients[c];
    var out := Exec(w.repo.store, WriteCall(l), now);
    var written := Set(Perform(w, WriteCall(l), now), c, Idle);
    if out.events == [] then written else Observe(written, Advanced(ByTask(l.task), out.events[0]))
  }

  function TickCall(due: Application): Call {
    Reopen(due.id, due.version, "scheduler")
  }

  function TakeTickReopen(w: World, c: nat, now: Time): World
    requires c < |w.clients| && w.clients[c].Ticking? && w.clients[c].listed != []
  {
    var l := w.clients[c];
    var due := l.listed[0];
    var call := TickCall(due);
    var out := Exec(w.repo.store, call, now);
    var next := Perform(w, call, now);
    if out.events == [] then Set(next, c, Ticking(l.asOf, l.listed[1..], l.reopened))
    else
      Observe(Set(next, c, Ticking(l.asOf, l.listed[1..], l.reopened + 1)),
              Advanced(ByScheduler(l.asOf, w.repo.store.apps[due.id].decidedAt), out.events[0]))
  }

  /** The world after a run; every sequence of steps is a run. */
  ghost function After(clients: nat, steps: seq<Step>): World {
    if steps == [] then Start(clients) else Take(After(clients, steps[..|steps| - 1]), steps[|steps| - 1])
  }
}
