/** Concrete runs of the service: how an application comes to wait for review, races after
    which its hits contradict the decision, and the writes that are always refused. */
module ServiceWitnesses {
  import opened StateMachine
  import opened Entities
  import opened Repository
  import opened RepositoryRuns
  import opened Decisions
  import opened Retention
  import opened SanctionsHits
  import opened ServiceMachine
  import opened ReviewTheorems

  /** A world with the one application "a" of user "u", seen by two clients. */
  datatype Scene = Scene(
    app: Application,
    types: seq<DocType>,
    hits: seq<Hit>,
    seen: set<string>,
    c0: Local,
    c1: Local
  )

  ghost predicate Shows(w: World, v: Scene) {
    && w.clients == [v.c0, v.c1]
    && v.app.id == "a" && v.app.userId == "u"
    && w.repo.store == Store(map["a" := v.app], map["u" := "a"])
    && TypesOf(w.docs, "a") == v.types
    && HitsOf(w.hits, "a") == v.hits
    && w.seen == v.seen
  }

  lemma AfterSnoc(clients: nat, steps: seq<Step>, s: Step)
    ensures After(clients, steps + [s]) == Take(After(clients, steps), s)
  {
    assert (steps + [s])[..|steps|] == steps;
  }

  function With(v: Scene, c: nat, l: Local): Scene {
    if c == 0 then v.(c0 := l) else v.(c1 := l)
  }

  function LocalOf(v: Scene, c: nat): Local {
    if c == 0 then v.c0 else v.c1
  }

  // ---- what each step shows ----

  lemma ShowRead(w: World, v: Scene, c: nat, task: Task)
    requires Shows(w, v) && c < 2 && LocalOf(v, c) == Idle && Admits(task, v.app.state)
    ensures Shows(Take(w, ReadStep(c, task, "a")), With(v, c, Read(task, "a", v.app)))
  {
    assert Take(w, ReadStep(c, task, "a")) == TakeRead(w, c, task, "a");
  }

  lemma ShowStoreDocument(w: World, v: Scene, t: DocType)
    requires Shows(w, v) && v.c0 == Read(Upload, "a", v.app) && IsKnownDocType(t)
    ensures Shows(Take(w, StoreDocumentStep(0, Held(t, 1))),
                  v.(types := v.types + [t], c0 := Stored(Upload, "a", v.app)))
  {
    var w' := Take(w, StoreDocumentStep(0, Held(t, 1)));
    assert w' == TakeStoreDocument(w, 0, Held(t, 1));
    assert TypesOf(w'.docs, "a") == TypesOf(w.docs, "a") + [t];
  }

  lemma ShowCheck(w: World, v: Scene)
    requires Shows(w, v) && v.c0 == Stored(Upload, "a", v.app) && v.app.state == Started
    ensures Shows(Take(w, CheckDocumentsStep(0)),
                  v.(c0 := if HasRequired(v.types) then Ready(Upload, "a", v.app, DocumentsUploaded) else Idle))
  {
    assert Take(w, CheckDocumentsStep(0)) == TakeCheckDocuments(w, 0);
  }

  lemma TakesWrite(w: World, v: Scene, c: nat, now: Time)
    requires Shows(w, v) && c < 2 && now != ZERO_TIME && LocalOf(v, c).Ready?
    ensures Take(w, WriteStep(c, now)) == TakeWrite(w, c, now)
  {
  }

  /** A prepared write meets the record it was prepared from. */
  lemma ShowWrite(w: World, v: Scene, c: nat, now: Time)
    requires Shows(w, v) && c < 2 && now != ZERO_TIME
    requires var l := LocalOf(v, c);
      l.Ready? && l.task != Trigger && l.id == "a" && l.app == v.app && CanTransition(v.app.state, l.to)
    ensures Shows(Take(w, WriteStep(c, now)), With(v, c, Idle).(app := Moved(v.app, LocalOf(v, c).to, now)))
  {
    TakesWrite(w, v, c, now);
    WriteMoves(w.repo.store, v.app, w.clients[c], now);
  }

  lemma WriteMoves(s: Store, app: Application, l: Local, now: Time)
    requires s == Store(map["a" := app], map["u" := "a"])
    requires l.Ready? && l.task != Trigger && l.id == "a"
    ensures var out := Exec(s, WriteCall(l), now);
      if l.app.version != app.version then out.store == s && out.events == [] && out.response == Failed(Conflict)
      else CanTransition(app.state, l.to) ==> out.store == Store(map["a" := Moved(app, l.to, now)], map["u" := "a"])
  {
    var call := WriteCall(l);
    assert call.UpdateState? && call.id == "a" && call.version == l.app.version && call.to == l.to;
  }

  /** A prepared write that comes too late changes nothing. */
  lemma ShowLateWrite(w: World, v: Scene, c: nat, now: Time)
    requires Shows(w, v) && c < 2 && now != ZERO_TIME
    requires var l := LocalOf(v, c); l.Ready? && l.task != Trigger && l.id == "a" && l.app.version != v.app.version
    ensures Shows(Take(w, WriteStep(c, now)), With(v, c, Idle))
    ensures Answer(w, WriteCall(LocalOf(v, c)), now) == Failed(Conflict)
  {
    assert Take(w, WriteStep(c, now)) == TakeWrite(w, c, now);
    WriteMoves(w.repo.store, v.app, w.clients[c], now);
  }

  lemma ShowIngest(w: World, v: Scene, c: nat, eventId: string, outcome: VendorOutcome)
    requires Shows(w, v) && c < 2 && LocalOf(v, c) == Idle && eventId != "" && eventId !in v.seen
    ensures Shows(Take(w, IngestStep(c, "vendor", true, eventId, Some(VendorEvent("a", outcome)))),
                  With(v, c, HookSeen("vendor", eventId, "a", outcome)).(seen := v.seen + {eventId}))
  {
    var e := Some(VendorEvent("a", outcome));
    assert Take(w, IngestStep(c, "vendor", true, eventId, e)) == TakeIngest(w, c, "vendor", true, eventId, e);
  }

  lemma ShowHookRead(w: World, v: Scene, c: nat, eventId: string, outcome: VendorOutcome)
    requires Shows(w, v) && c < 2 && LocalOf(v, c) == HookSeen("vendor", eventId, "a", outcome)
    requires WebhookTarget(outcome, v.app.state).Some?
    ensures var to := WebhookTarget(outcome, v.app.state).value;
      Shows(Take(w, HookReadStep(c)), With(v, c, Ready(Hook("vendor", eventId, outcome), "a", v.app, to)))
  {
    assert Take(w, HookReadStep(c)) == TakeHookRead(w, c);
  }

  lemma ShowScreen(w: World, v: Scene, c: nat, found: seq<Match>)
    requires Shows(w, v) && c < 2 && LocalOf(v, c) == Read(Screen, "a", v.app)
    ensures Shows(Take(w, ScreenStep(c, Some(found))), With(v, c, Adding(Screen, "a", v.app, found, 0)))
  {
    assert Take(w, ScreenStep(c, Some(found))) == TakeScreen(w, c, Some(found));
  }

  lemma ShowAddHit(w: World, v: Scene, c: nat, m: Match)
    requires Shows(w, v) && c < 2 && LocalOf(v, c) == Adding(Screen, "a", v.app, [m], 0)
    ensures Shows(Take(w, AddHitStep(c, "h")),
                  With(v, c, Adding(Screen, "a", v.app, [], 1)).(hits := v.hits + [NewHit("h", "a", m)]))
  {
    assert [m][1..] == [];
    assert Take(w, AddHitStep(c, "h")) == TakeAddHit(w, c, "h");
  }

  lemma ShowScreened(w: World, v: Scene, c: nat)
    requires Shows(w, v) && c < 2 && LocalOf(v, c) == Adding(Screen, "a", v.app, [], 1)
    ensures Shows(Take(w, ScreenedStep(c, 1)),
                  With(v, c, if CanTransition(v.app.state, ManualReview)
                             then Ready(Screen, "a", v.app, ManualReview) else Idle))
  {
    assert Take(w, ScreenedStep(c, 1)) == TakeScreened(w, c, 1);
  }

  function MarkedAll(hits: seq<Hit>, who: string, review: Review, now: Time): seq<Hit> {
    seq(|hits|, i requires 0 <= i < |hits| => Reviewed(hits[i], who, review, now))
  }

  lemma ShowMark(w: World, v: Scene, c: nat, clear: bool, who: string, now: Time)
    requires Shows(w, v) && c < 2 && LocalOf(v, c) == Read(Dispose(clear, who), "a", v.app)
    ensures Shows(Take(w, MarkHitsStep(c, now)),
                  With(v, c, Ready(Dispose(clear, who), "a", v.app, DispositionTarget(clear)))
                  .(hits := MarkedAll(v.hits, who, ReviewOf(clear), now)))
  {
    assert Take(w, MarkHitsStep(c, now)) == TakeMarkHits(w, c, now);
  }

  // ---- waiting for review ----

  const MATCH := Match("internal_sanctions", "n", 1.0)

  /** The application waits for review with one unmarked hit, and both clients are idle. */
  ghost predicate Waiting(w: World, v: Scene) {
    Shows(w, v) && v.app.state == ManualReview && |v.hits| == 1 && v.c0 == Idle && v.c1 == Idle && v.seen == {"live"}
  }

  lemma CreatedAtFirst() returns (steps: seq<Step>, v: Scene)
    ensures Shows(After(2, steps), v) && v.app.state == Started && v.types == [] && v.hits == [] && v.seen == {}
    ensures v.c0 == Idle && v.c1 == Idle
  {
    var create, register := CreateStep(0, "a", "u", "vendor", 1), RegisterStep(0, None, 1);
    var app := WithDefaults(NewApplication("a", "u", "vendor"), 1);
    v := Scene(app, [], [], {}, Idle, Idle);
    var w := Start(2);
    var w1 := TakeCreate(w, 0, "a", "u", "vendor", 1);
    assert After(2, []) == w;
    AfterSnoc(2, [], create);
    assert Admissible(w, create) && Take(w, create) == w1;
    assert w1.repo.store == Store(map["a" := app], map["u" := "a"]);
    assert Shows(w1, v.(c0 := Created("a")));
    AfterSnoc(2, [create], register);
    assert Take(w1, register) == TakeRegister(w1, 0, None, 1);
    assert [] + [create] == [create];
    steps := [create] + [register];
  }

  lemma UploadOne(steps: seq<Step>, v: Scene, t: DocType) returns (more: seq<Step>, v': Scene)
    requires Shows(After(2, steps), v) && v.app.state == Started && v.c0 == Idle && IsKnownDocType(t)
    ensures Shows(After(2, more), v')
    ensures v' == v.(types := v.types + [t],
      c0 := if HasRequired(v.types + [t]) then Ready(Upload, "a", v.app, DocumentsUploaded) else Idle)
  {
    var read, store, check := ReadStep(0, Upload, "a"), StoreDocumentStep(0, Held(t, 1)), CheckDocumentsStep(0);
    var v1 := v.(c0 := Read(Upload, "a", v.app));
    var v2 := v1.(types := v1.types + [t], c0 := Stored(Upload, "a", v.app));
    AfterSnoc(2, steps, read);
    ShowRead(After(2, steps), v, 0, Upload);
    AfterSnoc(2, steps + [read], store);
    ShowStoreDocument(After(2, steps + [read]), v1, t);
    AfterSnoc(2, steps + [read] + [store], check);
    ShowCheck(After(2, steps + [read] + [store]), v2);
    more := steps + [read] + [store] + [check];
    v' := v2.(c0 := if HasRequired(v2.types) then Ready(Upload, "a", v.app, DocumentsUploaded) else Idle);
  }

  lemma WriteOne(steps: seq<Step>, v: Scene, c: nat, now: Time) returns (more: seq<Step>, v': Scene)
    requires Shows(After(2, steps), v) && c < 2 && now != ZERO_TIME
    requires var l := LocalOf(v, c);
      l.Ready? && l.task != Trigger && l.id == "a" && l.app == v.app && CanTransition(v.app.state, l.to)
    ensures Shows(After(2, more), v') && v' == With(v, c, Idle).(app := Moved(v.app, LocalOf(v, c).to, now))
  {
    AfterSnoc(2, steps, WriteStep(c, now));
    ShowWrite(After(2, steps), v, c, now);
    more := steps + [WriteStep(c, now)];
    v' := With(v, c, Idle).(app := Moved(v.app, LocalOf(v, c).to, now));
  }

  lemma HookOne(steps: seq<Step>, v: Scene, eventId: string, outcome: VendorOutcome)
    returns (more: seq<Step>, v': Scene)
    requires Shows(After(2, steps), v) && v.c1 == Idle && eventId != "" && eventId !in v.seen
    requires WebhookTarget(outcome, v.app.state).Some?
    ensures Shows(After(2, more), v')
    ensures v' == v.(seen := v.seen + {eventId},
      c1 := Ready(Hook("vendor", eventId, outcome), "a", v.app, WebhookTarget(outcome, v.app.state).value))
  {
    var ingest := IngestStep(1, "vendor", true, eventId, Some(VendorEvent("a", outcome)));
    var v1 := v.(seen := v.seen + {eventId}, c1 := HookSeen("vendor", eventId, "a", outcome));
    AfterSnoc(2, steps, ingest);
    ShowIngest(After(2, steps), v, 1, eventId, outcome);
    AfterSnoc(2, steps + [ingest], HookReadStep(1));
    ShowHookRead(After(2, steps + [ingest]), v1, 1, eventId, outcome);
    more := steps + [ingest] + [HookReadStep(1)];
    v' := v1.(c1 := Ready(Hook("vendor", eventId, outcome), "a", v.app, WebhookTarget(outcome, v.app.state).value));
  }

  /** A screening run with one match, up to its conditional write. */
  lemma ScreenOne(steps: seq<Step>, v: Scene, c: nat) returns (more: seq<Step>, v': Scene)
    requires Shows(After(2, steps), v) && c < 2 && LocalOf(v, c) == Idle
    ensures Shows(After(2, more), v')
    ensures v' == With(v, c, if CanTransition(v.app.state, ManualReview)
                             then Ready(Screen, "a", v.app, ManualReview) else Idle)
                  .(hits := v.hits + [NewHit("h", "a", MATCH)])
  {
    var read, screen, add, finish :=
      ReadStep(c, Screen, "a"), ScreenStep(c, Some([MATCH])), AddHitStep(c, "h"), ScreenedStep(c, 1);
    var v1 := With(v, c, Read(Screen, "a", v.app));
    var v2 := With(v, c, Adding(Screen, "a", v.app, [MATCH], 0));
    var v3 := With(v, c, Adding(Screen, "a", v.app, [], 1)).(hits := v.hits + [NewHit("h", "a", MATCH)]);
    AfterSnoc(2, steps, read);
    ShowRead(After(2, steps), v, c, Screen);
    AfterSnoc(2, steps + [read], screen);
    ShowScreen(After(2, steps + [read]), v1, c, [MATCH]);
    AfterSnoc(2, steps + [read] + [screen], add);
    ShowAddHit(After(2, steps + [read] + [screen]), v2, c, MATCH);
    AfterSnoc(2, steps + [read] + [screen] + [add], finish);
    ShowScreened(After(2, steps + [read] + [screen] + [add]), v3, c);
    more := steps + [read] + [screen] + [add] + [finish];
    v' := With(v3, c, if CanTransition(v.app.state, ManualReview)
                      then Ready(Screen, "a", v.app, ManualReview) else Idle);
  }

  /** A disposition up to its conditional write: the hits are marked. */
  lemma MarkOne(steps: seq<Step>, v: Scene, c: nat, clear: bool, who: string, now: Time)
    returns (more: seq<Step>, v': Scene)
    requires Shows(After(2, steps), v) && c < 2 && LocalOf(v, c) == Idle && v.app.state == ManualReview
    ensures Shows(After(2, more), v')
    ensures v' == With(v, c, Ready(Dispose(clear, who), "a", v.app, DispositionTarget(clear)))
                  .(hits := MarkedAll(v.hits, who, ReviewOf(clear), now))
  {
    var read, mark := ReadStep(c, Dispose(clear, who), "a"), MarkHitsStep(c, now);
    var v1 := With(v, c, Read(Dispose(clear, who), "a", v.app));
    AfterSnoc(2, steps, read);
    ShowRead(After(2, steps), v, c, Dispose(clear, who));
    AfterSnoc(2, steps + [read], mark);
    ShowMark(After(2, steps + [read]), v1, c, clear, who, now);
    more := steps + [read] + [mark];
    v' := With(v1, c, Ready(Dispose(clear, who), "a", v.app, DispositionTarget(clear)))
          .(hits := MarkedAll(v.hits, who, ReviewOf(clear), now));
  }

  lemma DocumentsAreReached() returns (steps: seq<Step>, v: Scene)
    ensures Shows(After(2, steps), v) && v.app.state == DocumentsUploaded && v.hits == [] && v.seen == {}
    ensures v.c0 == Idle && v.c1 == Idle
  {
    steps, v := CreatedAtFirst();
    steps, v := UploadOne(steps, v, IdFront);
    steps, v := UploadOne(steps, v, Selfie);
    assert CanTransition(Started, DocumentsUploaded);
    steps, v := WriteOne(steps, v, 0, 2);
  }

  lemma LivenessIsReached() returns (steps: seq<Step>, v: Scene)
    ensures Shows(After(2, steps), v) && v.app.state == LivenessPassed && v.hits == [] && v.seen == {"live"}
    ensures v.c0 == Idle && v.c1 == Idle
  {
    steps, v := DocumentsAreReached();
    assert CanTransition(DocumentsUploaded, LivenessPassed);
    steps, v := HookOne(steps, v, "live", VendorLivenessPass);
    steps, v := WriteOne(steps, v, 1, 3);
  }

  /** An application can come to wait for review, with a hit to look at. */
  lemma ReviewIsReached() returns (steps: seq<Step>, v: Scene)
    ensures Waiting(After(2, steps), v)
  {
    steps, v := LivenessIsReached();
    assert CanTransition(LivenessPassed, ManualReview);
    steps, v := ScreenOne(steps, v, 0);
    steps, v := WriteOne(steps, v, 0, 4);
  }

  /** What the hits of "a" say against what was decided. */
  ghost predicate Contradicts(w: World, decided: State, said: Option<Review>) {
    && "a" in w.repo.store.apps && w.repo.store.apps["a"].state == decided
    && exists h :: h in HitsOf(w.hits, "a") && h.disposition == said
  }

  /** Two analysts disagree. The one who clears decides first, the one who blocks marks last:
      the application passes and its hits say it was blocked. */
  lemma DisagreementShows() returns (steps: seq<Step>)
    ensures Contradicts(After(2, steps), Pass, Some(Block)) && !HitsAgree(After(2, steps), "a")
  {
    var v: Scene;
    steps, v := ReviewIsReached();
    steps, v := MarkOne(steps, v, 0, true, "ann", 5);
    steps, v := MarkOne(steps, v, 1, false, "bob", 6);
    assert CanTransition(ManualReview, Pass);
    steps, v := WriteOne(steps, v, 0, 7);
    assert v.hits[0] in v.hits;
  }

  /** A webhook decides between an analyst's mark and the analyst's write. The write is
      refused as a conflict, and the application passes with its hits marked as blocked. */
  lemma WebhookRaceShows() returns (steps: seq<Step>)
    ensures Contradicts(After(2, steps), Pass, Some(Block)) && !HitsAgree(After(2, steps), "a")
    ensures |After(2, steps).clients| == 2 && After(2, steps).clients[0].Ready?
    ensures Answer(After(2, steps), WriteCall(After(2, steps).clients[0]), 8) == Failed(Conflict)
  {
    var v: Scene;
    steps, v := ReviewIsReached();
    steps, v := MarkOne(steps, v, 0, false, "bob", 5);
    assert CanTransition(ManualReview, Pass);
    steps, v := HookOne(steps, v, "clear", VendorClear);
    steps, v := WriteOne(steps, v, 1, 6);
    ShowLateWrite(After(2, steps), v, 0, 8);
    assert v.hits[0] in v.hits;
  }

  /** A screening run adds a hit between an analyst's mark and the decision: the application
      passes with a hit nobody has reviewed. */
  lemma LateHitShows() returns (steps: seq<Step>)
    ensures Contradicts(After(2, steps), Pass, None) && !HitsAgree(After(2, steps), "a")
  {
    var v: Scene;
    steps, v := ReviewIsReached();
    steps, v := MarkOne(steps, v, 0, true, "ann", 5);
    steps, v := ScreenOne(steps, v, 1);
    assert CanTransition(ManualReview, Pass);
    steps, v := WriteOne(steps, v, 0, 6);
    assert v.hits[1] in v.hits;
  }

  // ---- writes that are always refused ----

  /** Liveness started from STARTED: the session is stored, and the write that follows can
      only be refused as illegal. */
  lemma LivenessFromStartedIsRefused() returns (steps: seq<Step>)
    ensures var w := After(2, steps);
      && |w.clients| == 2 && w.clients[0].Ready? && w.clients[0].task == Liveness && w.clients[0].app.state == Started
      && Answer(w, WriteCall(w.clients[0]), 3) == Failed(IllegalTransition)
  {
    var v: Scene;
    steps, v := CreatedAtFirst();
    var read, session := ReadStep(0, Liveness, "a"), StoreSessionStep(0, Some(Held("s", 1)));
    AfterSnoc(2, steps, read);
    ShowRead(After(2, steps), v, 0, Liveness);
    AfterSnoc(2, steps + [read], session);
    var w := After(2, steps + [read]);
    assert Take(w, session) == TakeStoreSession(w, 0, Some(Held("s", 1)));
    assert !CanTransition(Started, LivenessPassed);
    steps := steps + [read] + [session];
  }

  /** Re-KYC triggered for an application that is not decided is refused as such. */
  lemma UndecidedTriggerIsRefused() returns (steps: seq<Step>)
    ensures var w := After(2, steps);
      && |w.clients| == 2 && w.clients[0].Ready? && w.clients[0].task == Trigger
      && Answer(w, WriteCall(w.clients[0]), 3) == Failed(ReKYCNotTerminal)
  {
    var v: Scene;
    steps, v := CreatedAtFirst();
    var w := After(2, steps);
    AfterSnoc(2, steps, TriggerReadStep(0, "u"));
    assert Take(w, TriggerReadStep(0, "u")) == TakeTriggerRead(w, 0, "u");
    steps := steps + [TriggerReadStep(0, "u")];
  }
}
