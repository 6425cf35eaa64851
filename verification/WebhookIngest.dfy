/** Webhook ingestion, delivery by delivery: verify, drop what was seen, reconcile. */
module WebhookIngest {
  import opened StateMachine
  import opened Entities
  import opened Repository
  import opened RepositoryRuns
  import opened Audit
  import opened Decisions
  import opened InMemoryRepository
  import opened WebhookSignature

  /** A request as delivered, with what the vendor client makes of its body (None when it
      does not parse) and the clock readings of the verification and of the update. */
  datatype Delivery = Delivery(
    vendor: string,
    raw: string,
    sigHeader: string,
    tsHeader: string,
    eventId: string,
    parsed: Option<VendorEvent>,
    unixNow: int,
    now: Time
  )

  datatype IngestResult =
    | Accepted(eventId: string)
    | Repeated(eventId: string)
    | Unverified(verdict: Verdict)
    | Unparsed

  /** What ingestion reads and writes. */
  datatype Hooks = Hooks(seen: set<string>, store: Store, log: seq<AuditEvent>)

  /** How deliveries are verified. What follows holds however that is done. */
  type Check = Delivery -> Verdict

  /** The verification the service does. */
  function Checker(mac: Mac, secret: string, tolerance: int): Check {
    (d: Delivery) => Verify(mac, d.raw, d.sigHeader, d.tsHeader, secret, d.unixNow, tolerance)
  }

  /** The reconciling write of an accepted event: one read, one decision, one conditional
      update. */
  function ReconcileEvent(s: Store, d: Delivery, e: VendorEvent): Outcome {
    var found := Find(s, e.appId);
    if e.appId == "" || !found.Record? then Outcome(s, Done, [])
    else
      var to := WebhookTarget(e.outcome, found.app.state);
      if to.None? then Outcome(s, Done, [])
      else MoveApp(s, found.app.id, found.app.version, to.value, "webhook:" + d.vendor,
                   "webhook event " + EffectiveId(d.eventId), d.now)
  }

  /** What a reconciling write adds to the log. */
  function AdvanceEvents(out: Outcome, d: Delivery): seq<AuditEvent> {
    AsEvents(out.events)
    + (if out.events == [] then []
       else [AuditEvent(out.events[0].appId,
                        WebhookAdvance(EffectiveId(d.eventId), out.events[0].from, out.events[0].to), d.vendor)])
  }

  /** What an accepted delivery adds to the log. */
  function AcceptedEvents(s: Store, d: Delivery, e: VendorEvent): seq<AuditEvent> {
    AdvanceEvents(ReconcileEvent(s, d, e), d) + [AuditEvent(d.vendor, WebhookAccept(EffectiveId(d.eventId)), "system")]
  }

  function VerdictText(v: Verdict): string {
    match v
    case Valid => ""
    case BadSignature => "invalid webhook signature"
    case StaleTimestamp => "stale webhook timestamp"
    case MissingTimestamp => "missing webhook timestamp"
    case MissingSignature => "missing webhook signature"
  }

  function Deliver(check: Check, h: Hooks, d: Delivery): (Hooks, IngestResult) {
    var verdict := check(d);
    var id := EffectiveId(d.eventId);
    if verdict != Valid then
      (h.(log := h.log + [AuditEvent(d.vendor, WebhookReject(VerdictText(verdict)), "system")]), Unverified(verdict))
    else if id in h.seen then
      (h.(log := h.log + [AuditEvent(d.vendor, WebhookDuplicate(id), "system")]), Repeated(id))
    else if d.parsed.None? then
      (h.(seen := h.seen + {id}, log := h.log + [AuditEvent(d.vendor, WebhookReject("parse"), "system")]), Unparsed)
    else
      (Hooks(h.seen + {id}, ReconcileEvent(h.store, d, d.parsed.value).store,
             h.log + AcceptedEvents(h.store, d, d.parsed.value)),
       Accepted(id))
  }

  /** What reaches the service: webhook deliveries, and any other calls on the store. */
  datatype Input = Hook(d: Delivery) | Direct(call: Call, now: Time)

  function Feed(check: Check, h: Hooks, i: Input): Hooks {
    match i
    case Hook(d) => Deliver(check, h, d).0
    case Direct(call, now) =>
      var out := Exec(h.store, call, now);
      h.(store := out.store, log := h.log + AsEvents(out.events))
  }

  function FeedAll(check: Check, inputs: seq<Input>): Hooks {
    if inputs == [] then Hooks({}, EMPTY_STORE, [])
    else Feed(check, FeedAll(check, inputs[..|inputs| - 1]), inputs[|inputs| - 1])
  }

  // ---- one delivery ----

  /** What a delivery is answered, and what it leaves of the seen set and the applications. A
      delivery that is refused, or repeated, leaves both; one that does not parse is seen. */
  lemma DeliveryIsAnswered(check: Check, h: Hooks, d: Delivery)
    ensures var (h', r) := Deliver(check, h, d);
      var id := if d.eventId == "" then "no-id" else d.eventId;
      && (r.Unverified? <==> check(d) != Valid) && (r.Unverified? ==> r.verdict == check(d))
      && (r == Repeated(id) <==> check(d) == Valid && id in h.seen)
      && (r == Unparsed <==> check(d) == Valid && id !in h.seen && d.parsed.None?)
      && (r == Accepted(id) <==> check(d) == Valid && id !in h.seen && d.parsed.Some?)
      && (h'.seen == if check(d) == Valid then h.seen + {id} else h.seen)
      && (h'.store != h.store ==> r == Accepted(id))
      && h.log <= h'.log
  {
  }

  /** What a delivery leaves in the log, word for word: why it was refused, that it was a
      repeat, or that it was accepted, after the move it made, if any, and its note. */
  lemma DeliveryIsNoted(check: Check, h: Hooks, d: Delivery)
    ensures var (h', r) := Deliver(check, h, d);
      var id := if d.eventId == "" then "no-id" else d.eventId;
      && (r == Unverified(BadSignature) ==>
            h'.log == h.log + [AuditEvent(d.vendor, WebhookReject("invalid webhook signature"), "system")])
      && (r == Unverified(StaleTimestamp) ==>
            h'.log == h.log + [AuditEvent(d.vendor, WebhookReject("stale webhook timestamp"), "system")])
      && (r == Unverified(MissingTimestamp) ==>
            h'.log == h.log + [AuditEvent(d.vendor, WebhookReject("missing webhook timestamp"), "system")])
      && (r == Unverified(MissingSignature) ==>
            h'.log == h.log + [AuditEvent(d.vendor, WebhookReject("missing webhook signature"), "system")])
      && (r.Repeated? ==> h'.log == h.log + [AuditEvent(d.vendor, WebhookDuplicate(id), "system")])
      && (r.Unparsed? ==> h'.log == h.log + [AuditEvent(d.vendor, WebhookReject("parse"), "system")])
      && (r.Accepted? && ReconcileEvent(h.store, d, d.parsed.value).events == [] ==>
            h'.log == h.log + [AuditEvent(d.vendor, WebhookAccept(id), "system")])
      && (r.Accepted? && ReconcileEvent(h.store, d, d.parsed.value).events != [] ==>
            var e := ReconcileEvent(h.store, d, d.parsed.value).events[0];
            h'.log == h.log + [AuditEvent(e.appId, StateTransition(e.from, e.to, e.reason), e.actor),
                               AuditEvent(e.appId, WebhookAdvance(id, e.from, e.to), d.vendor),
                               AuditEvent(d.vendor, WebhookAccept(id), "system")])
  {
    if Deliver(check, h, d).1.Accepted? {
      AcceptedIsNoted(h.store, d, d.parsed.value);
    }
  }

  lemma AcceptedIsNoted(s: Store, d: Delivery, e: VendorEvent)
    ensures var moves := ReconcileEvent(s, d, e).events;
      var id := EffectiveId(d.eventId);
      var accepted := AuditEvent(d.vendor, WebhookAccept(id), "system");
      && (moves == [] ==> AcceptedEvents(s, d, e) == [accepted])
      && (moves != [] ==> AcceptedEvents(s, d, e) == [
            TransitionEvent(moves[0]),
            AuditEvent(moves[0].appId, WebhookAdvance(id, moves[0].from, moves[0].to), d.vendor),
            accepted])
  {
    var moves := ReconcileEvent(s, d, e).events;
    if moves != [] {
      assert moves == [moves[0]];
      assert AsEvents(moves) == [TransitionEvent(moves[0])] + AsEvents(moves[1..]);
    }
  }

  /** What an accepted event does: it moves the application it names to the state its outcome
      asks for there, if any, and nothing else. */
  lemma AcceptedEventMoves(check: Check, h: Hooks, d: Delivery)
    requires Indexed(h.store) && Deliver(check, h, d).1.Accepted?
    ensures var e := d.parsed.value;
      var id := if d.eventId == "" then "no-id" else d.eventId;
      var h' := Deliver(check, h, d).0;
      if e.appId != "" && e.appId in h.store.apps && WebhookTarget(e.outcome, h.store.apps[e.appId].state).Some?
      then
        var to := WebhookTarget(e.outcome, h.store.apps[e.appId].state).value;
        && h'.store == Put(h.store, e.appId, Moved(h.store.apps[e.appId], to, d.now))
        && Transitions(h'.log) == Transitions(h.log)
             + [Transition(e.appId, h.store.apps[e.appId].state, to, "webhook:" + d.vendor, "webhook event " + id)]
      else h'.store == h.store && Transitions(h'.log) == Transitions(h.log)
  {
    NewTransitions(h.log, h.store, d, d.parsed.value);
    assert Transitions(h.log) + [] == Transitions(h.log);
  }

  /** A delivery without a signature is refused as such and leaves the seen set and the
      applications alone. */
  lemma UnsignedIsRefused(mac: Mac, secret: string, tolerance: int, h: Hooks, d: Delivery)
    requires d.sigHeader == ""
    ensures var (h', r) := Deliver(Checker(mac, secret, tolerance), h, d);
      r == Unverified(MissingSignature) && h'.seen == h.seen && h'.store == h.store
      && Transitions(h'.log) == Transitions(h.log)
  {
    NoteOnly(Checker(mac, secret, tolerance), h, d);
  }

  // ---- redelivery ----

  predicate IsVerified(check: Check, i: Input) {
    i.Hook? && check(i.d) == Valid
  }

  /** A delivery that is not verified, or whose effective id an earlier verified delivery
      already had. */
  predicate Redundant(check: Check, earlier: seq<Input>, i: Input) {
    i.Hook? && (!IsVerified(check, i)
      || exists j | 0 <= j < |earlier| ::
           IsVerified(check, earlier[j]) && EffectiveId(earlier[j].d.eventId) == EffectiveId(i.d.eventId))
  }

  /** The inputs without the redundant deliveries. */
  function Essential(check: Check, inputs: seq<Input>): seq<Input> {
    if inputs == [] then []
    else
      var n := |inputs| - 1;
      Essential(check, inputs[..n]) + (if Redundant(check, inputs[..n], inputs[n]) then [] else [inputs[n]])
  }

  lemma FeedSnoc(check: Check, inputs: seq<Input>, i: Input)
    ensures FeedAll(check, inputs + [i]) == Feed(check, FeedAll(check, inputs), i)
  {
    assert (inputs + [i])[..|inputs|] == inputs;
  }

  /** The seen set is exactly the effective ids of the verified deliveries. */
  lemma {:induction false} SeenAreVerified(check: Check, inputs: seq<Input>, id: string)
    ensures id in FeedAll(check, inputs).seen
       <==> exists j :: 0 <= j < |inputs| && IsVerified(check, inputs[j]) && EffectiveId(inputs[j].d.eventId) == id
  {
    if inputs != [] {
      var n := |inputs| - 1;
      SeenAreVerified(check, inputs[..n], id);
      if j :| 0 <= j < |inputs| && IsVerified(check, inputs[j]) && EffectiveId(inputs[j].d.eventId) == id {
        assert j < n ==> inputs[..n][j] == inputs[j];
      }
      if j :| 0 <= j < n && IsVerified(check, inputs[..n][j]) && EffectiveId(inputs[..n][j].d.eventId) == id {
        assert inputs[j] == inputs[..n][j];
      }
      if id in FeedAll(check, inputs).seen && id !in FeedAll(check, inputs[..n]).seen {
        assert IsVerified(check, inputs[n]) && EffectiveId(inputs[n].d.eventId) == id;
      }
      if IsVerified(check, inputs[n]) && EffectiveId(inputs[n].d.eventId) == id {
        assert id in FeedAll(check, inputs).seen;
      }
    }
  }

  lemma NewTransitions(log: seq<AuditEvent>, s: Store, d: Delivery, e: VendorEvent)
    ensures Transitions(log + AcceptedEvents(s, d, e)) == Transitions(log) + ReconcileEvent(s, d, e).events
  {
    var out := ReconcileEvent(s, d, e);
    var accept := AuditEvent(d.vendor, WebhookAccept(EffectiveId(d.eventId)), "system");
    var logged := log + AsEvents(out.events);
    LoggedAreReadBack(log, out.events);
    if out.events == [] {
      assert log + AcceptedEvents(s, d, e) == logged + [accept];
      OtherEventIsNoTransition(logged, accept);
    } else {
      var t := out.events[0];
      var advance := AuditEvent(t.appId, WebhookAdvance(EffectiveId(d.eventId), t.from, t.to), d.vendor);
      assert log + AcceptedEvents(s, d, e) == logged + [advance] + [accept];
      OtherEventIsNoTransition(logged, advance);
      OtherEventIsNoTransition(logged + [advance], accept);
    }
  }

  /** The same in every respect but the notes in the audit log. */
  ghost predicate SameBusiness(a: Hooks, b: Hooks) {
    a.seen == b.seen && a.store == b.store && Transitions(a.log) == Transitions(b.log)
  }

  lemma RedundantChangesNothing(check: Check, h: Hooks, d: Delivery)
    requires check(d) == Valid ==> EffectiveId(d.eventId) in h.seen
    ensures SameBusiness(h, Deliver(check, h, d).0)
  {
    var log := Deliver(check, h, d).0.log;
    assert log == h.log + [log[|h.log|]];
    OtherEventIsNoTransition(h.log, log[|h.log|]);
  }

  lemma FeedKeepsSameBusiness(check: Check, a: Hooks, b: Hooks, i: Input)
    requires SameBusiness(a, b)
    ensures SameBusiness(Feed(check, a, i), Feed(check, b, i))
  {
    match i
    case Hook(d) =>
      if check(d) == Valid && EffectiveId(d.eventId) !in a.seen && d.parsed.Some? {
        NewTransitions(a.log, a.store, d, d.parsed.value);
        NewTransitions(b.log, b.store, d, d.parsed.value);
      } else {
        NoteOnly(check, a, d);
        NoteOnly(check, b, d);
      }
    case Direct(call, now) =>
      LoggedAreReadBack(a.log, Exec(a.store, call, now).events);
      LoggedAreReadBack(b.log, Exec(a.store, call, now).events);
  }

  lemma NoteOnly(check: Check, h: Hooks, d: Delivery)
    requires check(d) != Valid || EffectiveId(d.eventId) in h.seen || d.parsed.None?
    ensures Transitions(Deliver(check, h, d).0.log) == Transitions(h.log)
  {
    var log := Deliver(check, h, d).0.log;
    assert log == h.log + [log[|h.log|]];
    OtherEventIsNoTransition(h.log, log[|h.log|]);
  }

  /** Redelivery is harmless: whatever else happens in between, removing the redundant
      deliveries leaves the same applications, the same seen set and the same transitions. */
  lemma {:induction false} RedeliveryIsHarmless(check: Check, inputs: seq<Input>)
    ensures SameBusiness(FeedAll(check, inputs), FeedAll(check, Essential(check, inputs)))
  {
    if inputs != [] {
      var n := |inputs| - 1;
      var before := FeedAll(check, inputs[..n]);
      RedeliveryIsHarmless(check, inputs[..n]);
      if Redundant(check, inputs[..n], inputs[n]) {
        SeenAreVerified(check, inputs[..n], EffectiveId(inputs[n].d.eventId));
        RedundantChangesNothing(check, before, inputs[n].d);
        assert Essential(check, inputs) == Essential(check, inputs[..n]);
      } else {
        FeedKeepsSameBusiness(check, before, FeedAll(check, Essential(check, inputs[..n])), inputs[n]);
        FeedSnoc(check, Essential(check, inputs[..n]), inputs[n]);
      }
    }
  }

  lemma {:induction false} EssentialAreInputs(check: Check, inputs: seq<Input>)
    ensures forall i | i in Essential(check, inputs) :: i in inputs
  {
    if inputs != [] {
      EssentialAreInputs(check, inputs[..|inputs| - 1]);
    }
  }

  /** What is left is minimal: no delivery among the essential ones is redundant. */
  lemma {:induction false} EssentialIsMinimal(check: Check, inputs: seq<Input>)
    ensures Essential(check, Essential(check, inputs)) == Essential(check, inputs)
  {
    if inputs != [] {
      var n := |inputs| - 1;
      var front := Essential(check, inputs[..n]);
      EssentialIsMinimal(check, inputs[..n]);
      if !Redundant(check, inputs[..n], inputs[n]) {
        StillNeeded(check, inputs[..n], inputs[n]);
        assert (front + [inputs[n]])[..|front|] == front;
        assert Essential(check, inputs) == front + [inputs[n]];
      } else {
        assert Essential(check, inputs) == front;
      }
    }
  }

  lemma StillNeeded(check: Check, earlier: seq<Input>, i: Input)
    requires !Redundant(check, earlier, i)
    ensures !Redundant(check, Essential(check, earlier), i)
  {
    var front := Essential(check, earlier);
    EssentialAreInputs(check, earlier);
    forall j | 0 <= j < |front|
      ensures exists k :: 0 <= k < |earlier| && earlier[k] == front[j]
    {
      assert front[j] in front;
    }
  }

  // ---- counting ----

  function ResultAt(check: Check, inputs: seq<Input>, i: nat): Option<IngestResult>
    requires i < |inputs|
  {
    if inputs[i].Hook? then Some(Deliver(check, FeedAll(check, inputs[..i]), inputs[i].d).1) else None
  }

  /** The deliveries that got past the seen filter. */
  function Processed(check: Check, inputs: seq<Input>): nat {
    if inputs == [] then 0
    else
      var n := |inputs| - 1;
      var r := ResultAt(check, inputs, n);
      Processed(check, inputs[..n]) + (if r.Some? && (r.value.Accepted? || r.value.Unparsed?) then 1 else 0)
  }

  /** The transitions a delivery makes. */
  function MovesMade(check: Check, h: Hooks, d: Delivery): nat {
    if Deliver(check, h, d).1.Accepted? then |ReconcileEvent(h.store, d, d.parsed.value).events| else 0
  }

  lemma MovesMadeAreLogged(check: Check, h: Hooks, d: Delivery)
    ensures |Transitions(Deliver(check, h, d).0.log)| == |Transitions(h.log)| + MovesMade(check, h, d)
    ensures MovesMade(check, h, d) <= 1
  {
    if Deliver(check, h, d).1.Accepted? {
      NewTransitions(h.log, h.store, d, d.parsed.value);
    } else {
      NoteOnly(check, h, d);
    }
  }

  /** The transitions all webhooks made. */
  function HookMoves(check: Check, inputs: seq<Input>): nat {
    if inputs == [] then 0
    else
      var n := |inputs| - 1;
      HookMoves(check, inputs[..n])
      + (if inputs[n].Hook? then MovesMade(check, FeedAll(check, inputs[..n]), inputs[n].d) else 0)
  }

  /** The seen set counts the deliveries that were accepted or rejected as unparsable, and
      the webhooks never make more transitions than that. */
  lemma {:induction false} SeenCountsProcessed(check: Check, inputs: seq<Input>)
    ensures |FeedAll(check, inputs).seen| == Processed(check, inputs)
    ensures HookMoves(check, inputs) <= |FeedAll(check, inputs).seen|
  {
    if inputs != [] {
      var n := |inputs| - 1;
      SeenCountsProcessed(check, inputs[..n]);
      if inputs[n].Hook? {
        MovesMadeAreLogged(check, FeedAll(check, inputs[..n]), inputs[n].d);
      }
    }
  }

  // ---- the service itself ----

  class WebhookStore {
    var seen: set<string>

    constructor ()
      ensures seen == {}
    {
      seen := {};
    }

    /** Marks an id; true if it was marked before. The empty id is never marked. */
    method Seen(eventId: string) returns (already: bool)
      modifies this
      ensures already <==> eventId != "" && eventId in old(seen)
      ensures seen == if eventId == "" then old(seen) else old(seen) + {eventId}
    {
      if eventId == "" {
        return false;
      }
      if eventId in seen {
        return true;
      }
      seen := seen + {eventId};
      already := false;
    }
  }

  class WebhookService {
    const store: WebhookStore
    const repo: ApplicationRepository
    const audit: AuditLog
    const secret: string
    const tolerance: int

    /** The audit log is also where the repository sends its transitions. */
    constructor (store: WebhookStore, repo: ApplicationRepository, audit: AuditLog, secret: string)
      requires repo.sink == audit
      ensures this.store == store && this.repo == repo && this.audit == audit && this.tolerance == 300
      ensures this.secret == if secret == "" then DEV_SECRET else secret
    {
      this.store, this.repo, this.audit, this.tolerance := store, repo, audit, 300;
      this.secret := if secret == "" then DEV_SECRET else secret;
    }

    ghost function View(): Hooks
      reads store, repo, repo.apps.Values, audit
    {
      Hooks(store.seen, repo.View(), audit.events)
    }

    method Ingest(mac: Mac, d: Delivery) returns (r: IngestResult)
      requires repo.sink == audit && repo.Valid()
      modifies store, audit, repo.apps.Values
      ensures repo.Valid()
      ensures (View(), r) == old(Deliver(Checker(mac, secret, tolerance), View(), d))
    {
      var verdict := VerifyWebhook(mac, d.raw, d.sigHeader, d.tsHeader, secret, d.unixNow, tolerance);
      r := IngestChecked(verdict, d, Checker(mac, secret, tolerance));
    }

    /** The part after the signature check. */
    method IngestChecked(verdict: Verdict, d: Delivery, ghost check: Check) returns (r: IngestResult)
      requires repo.sink == audit && repo.Valid() && verdict == check(d)
      modifies store, audit, repo.apps.Values
      ensures repo.Valid()
      ensures (View(), r) == old(Deliver(check, View(), d))
    {
      if verdict != Valid {
        NoteBeside(repo, d.vendor, WebhookReject(VerdictText(verdict)), "system");
        return Unverified(verdict);
      }
      var id := if d.eventId == "" then NO_ID else d.eventId;
      var already := store.Seen(id);
      if already {
        assert store.seen == old(store.seen);
        NoteBeside(repo, d.vendor, WebhookDuplicate(id), "system");
        return Repeated(id);
      }
      if d.parsed.None? {
        NoteBeside(repo, d.vendor, WebhookReject("parse"), "system");
        return Unparsed;
      }
      Accept(id, d, d.parsed.value);
      r := Accepted(id);
    }

    method Accept(id: string, d: Delivery, e: VendorEvent)
      requires repo.sink == audit && repo.Valid() && id == EffectiveId(d.eventId)
      modifies audit, repo.apps.Values
      ensures repo.Valid() && repo.apps == old(repo.apps) && repo.byUser == old(repo.byUser)
      ensures repo.View() == old(ReconcileEvent(repo.View(), d, e)).store
      ensures audit.events == old(audit.events) + old(AcceptedEvents(repo.View(), d, e))
    {
      Reconcile(id, d, e);
      NoteBeside(repo, d.vendor, WebhookAccept(id), "system");
      assert audit.events == old(audit.events) + old(AcceptedEvents(repo.View(), d, e));
    }

    method Reconcile(id: string, d: Delivery, e: VendorEvent)
      requires repo.sink == audit && repo.Valid() && id == EffectiveId(d.eventId)
      modifies audit, repo.apps.Values
      ensures repo.Valid() && repo.apps == old(repo.apps) && repo.byUser == old(repo.byUser)
      ensures var out := old(ReconcileEvent(repo.View(), d, e));
        repo.View() == out.store && audit.events == old(audit.events) + AdvanceEvents(out, d)
    {
      ghost var s := repo.View();
      ghost var out := ReconcileEvent(s, d, e);
      if e.appId == "" {
        return;
      }
      var app := repo.Get(e.appId);
      if app.Err? {
        return;
      }
      var to := WebhookTarget(e.outcome, app.value.state);
      if to.None? {
        return;
      }
      Update(id, d, app.value, to.value);
    }

    /** The conditional update of the record just read, and its note. */
    method Update(id: string, d: Delivery, app: Application, to: State)
      requires repo.sink == audit && repo.Valid() && id == EffectiveId(d.eventId)
      requires Find(repo.View(), app.id) == Record(app)
      modifies audit, repo.apps.Values
      ensures repo.Valid() && repo.apps == old(repo.apps) && repo.byUser == old(repo.byUser)
      ensures var out := old(MoveApp(repo.View(), app.id, app.version, to, "webhook:" + d.vendor,
                                     "webhook event " + EffectiveId(d.eventId), d.now));
        repo.View() == out.store && audit.events == old(audit.events) + AdvanceEvents(out, d)
    {
      var u := repo.UpdateState(app.id, app.version, to, "webhook:" + d.vendor, "webhook event " + id, d.now);
      if u.Ok? {
        NoteBeside(repo, app.id, WebhookAdvance(id, app.state, to), d.vendor);
      }
    }
  }
}
