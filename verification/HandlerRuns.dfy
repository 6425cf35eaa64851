/** What each handler does when no other client comes between its steps. */
module HandlerRuns {
  import opened StateMachine
  import opened Entities
  import opened Repository
  import opened RepositoryRuns
  import opened Audit
  import opened Decisions
  import opened Retention
  import opened SanctionsHits
  import opened ServiceMachine

  /** Nothing that clients share has changed. */
  predicate SameShared(w: World, w': World) {
    && w'.repo.store == w.repo.store && w'.log == w.log && w'.docs == w.docs
    && w'.sessions == w.sessions && w'.hits == w.hits && w'.seen == w.seen
  }

  /** The application has made this move and the log says so. */
  predicate HasMoved(w: World, w': World, id: string, to: State, reason: string, now: Time) {
    && id in w.repo.store.apps
    && w'.repo.store == Put(w.repo.store, id, Moved(w.repo.store.apps[id], to, now))
    && Transitions(w'.log) == Transitions(w.log) + [Transition(id, w.repo.store.apps[id].state, to, "system", reason)]
  }

  // ---- single steps, where they fit and where they do not ----

  lemma TakesRead(w: World, c: nat, task: Task, id: string)
    requires c < |w.clients| && w.clients[c] == Idle
    ensures Take(w, ReadStep(c, task, id)) ==
      if id in w.repo.store.apps && Admits(task, w.repo.store.apps[id].state)
      then Set(w, c, Read(task, id, w.repo.store.apps[id])) else w
  {
    assert Take(w, ReadStep(c, task, id)) == TakeRead(w, c, task, id);
  }

  lemma TakesStoreDocument(w: World, c: nat, doc: Held<DocType>)
    requires c < |w.clients|
    ensures w.clients[c] == Idle ==> Take(w, StoreDocumentStep(c, doc)) == w
    ensures w.clients[c].Read? && w.clients[c].task == Upload ==>
      Take(w, StoreDocumentStep(c, doc)) == TakeStoreDocument(w, c, doc)
  {
  }

  lemma TakesCheck(w: World, c: nat)
    requires c < |w.clients|
    ensures w.clients[c] == Idle ==> Take(w, CheckDocumentsStep(c)) == w
    ensures w.clients[c].Stored? ==> Take(w, CheckDocumentsStep(c)) == TakeCheckDocuments(w, c)
  {
  }

  lemma TakesStoreSession(w: World, c: nat, session: Option<Held<string>>)
    requires c < |w.clients|
    ensures w.clients[c] == Idle ==> Take(w, StoreSessionStep(c, session)) == w
    ensures w.clients[c].Read? && w.clients[c].task == Liveness ==>
      Take(w, StoreSessionStep(c, session)) == TakeStoreSession(w, c, session)
  {
  }

  lemma TakesWrite(w: World, c: nat, now: Time)
    requires c < |w.clients| && now != ZERO_TIME
    ensures w.clients[c] == Idle ==> Take(w, WriteStep(c, now)) == w
    ensures w.clients[c].Ready? ==> Take(w, WriteStep(c, now)) == TakeWrite(w, c, now)
  {
  }

  /** The write of a system handler that has just read the record it moves. */
  lemma SystemWrite(w: World, c: nat, now: Time, reason: string)
    requires c < |w.clients| && w.clients[c].Ready?
    requires var l := w.clients[c];
      && l.id in w.repo.store.apps && l.app == w.repo.store.apps[l.id]
      && WriteCall(l) == UpdateState(l.id, l.app.version, l.to, "system", reason)
    ensures var l := w.clients[c];
      var w' := TakeWrite(w, c, now);
      && w'.docs == w.docs && w'.sessions == w.sessions && w'.hits == w.hits && w'.seen == w.seen
      && (if CanTransition(l.app.state, l.to) then HasMoved(w, w', l.id, l.to, reason, now)
          else w'.repo.store == w.repo.store && w'.log == w.log)
  {
    var l := w.clients[c];
    var out := Exec(w.repo.store, WriteCall(l), now);
    assert out == MoveApp(w.repo.store, l.id, l.app.version, l.to, "system", reason, now);
    LoggedAreReadBack(w.log, out.events);
    assert w.log + [] == w.log;
  }

  // ---- upload ----

  ghost function UploadRun(w: World, c: nat, id: string, doc: Held<DocType>, now: Time): World {
    Take(Take(Take(Take(w, ReadStep(c, Upload, id)), StoreDocumentStep(c, doc)), CheckDocumentsStep(c)),
         WriteStep(c, now))
  }

  /** An upload for an unknown application or of an unknown type does nothing. Any other is
      stored; and it moves a started application on exactly when it completes the identity
      front and the selfie. */
  ghost predicate Uploaded(w: World, id: string, doc: Held<DocType>, now: Time, w': World) {
    if id !in w.repo.store.apps || doc.item.OtherType? then SameShared(w, w')
    else
      && w'.docs == WithItem(w.docs, id, doc) && w'.sessions == w.sessions && w'.hits == w.hits && w'.seen == w.seen
      && (if w.repo.store.apps[id].state == Started
             && IdFront in TypesOf(w'.docs, id) && Selfie in TypesOf(w'.docs, id)
          then HasMoved(w, w', id, DocumentsUploaded, "required documents uploaded", now)
          else w'.repo.store == w.repo.store && w'.log == w.log)
  }

  lemma StoredUpload(w: World, c: nat, id: string, doc: Held<DocType>, now: Time)
    requires c < |w.clients| && now != ZERO_TIME && id in w.repo.store.apps && !doc.item.OtherType?
    requires w.clients[c] == Read(Upload, id, w.repo.store.apps[id])
    ensures Uploaded(w, id, doc, now,
      Take(Take(Take(w, StoreDocumentStep(c, doc)), CheckDocumentsStep(c)), WriteStep(c, now)))
  {
    TakesStoreDocument(w, c, doc);
    var w1 := TakeStoreDocument(w, c, doc);
    TakesCheck(w1, c);
    var w2 := TakeCheckDocuments(w1, c);
    TakesWrite(w2, c, now);
    if w2.clients[c].Ready? {
      assert CanTransition(Started, DocumentsUploaded);
      SystemWrite(w2, c, now, "required documents uploaded");
    }
  }

  lemma UploadRuns(w: World, c: nat, id: string, doc: Held<DocType>, now: Time)
    requires c < |w.clients| && w.clients[c] == Idle && now != ZERO_TIME
    ensures Uploaded(w, id, doc, now, UploadRun(w, c, id, doc, now))
  {
    TakesRead(w, c, Upload, id);
    var w1 := Take(w, ReadStep(c, Upload, id));
    if id in w.repo.store.apps && !doc.item.OtherType? {
      StoredUpload(w1, c, id, doc, now);
    } else {
      TakesStoreDocument(w1, c, doc);
      var w2 := Take(w1, StoreDocumentStep(c, doc));
      TakesCheck(w2, c);
      TakesWrite(w2, c, now);
    }
  }

  // ---- liveness ----

  ghost function LivenessRun(w: World, c: nat, id: string, session: Option<Held<string>>, now: Time): World {
    Take(Take(Take(w, ReadStep(c, Liveness, id)), StoreSessionStep(c, session)), WriteStep(c, now))
  }

  /** Liveness is refused unless documents are uploaded or the application has just started,
      and leaves nothing where the vendor fails. Otherwise the session is stored, and the
      application moves on exactly when its documents are uploaded. */
  ghost predicate LivenessDone(w: World, id: string, session: Option<Held<string>>, now: Time, w': World) {
    if id !in w.repo.store.apps || session.None? || w.repo.store.apps[id].state !in {Started, DocumentsUploaded}
    then SameShared(w, w')
    else
      && w'.sessions == WithItem(w.sessions, id, session.value) && w'.docs == w.docs && w'.hits == w.hits
      && (if w.repo.store.apps[id].state == DocumentsUploaded
          then HasMoved(w, w', id, LivenessPassed, "liveness passed", now)
          else w'.repo.store == w.repo.store && w'.log == w.log)
  }

  lemma SessionRuns(w: World, c: nat, id: string, session: Held<string>, now: Time)
    requires c < |w.clients| && now != ZERO_TIME && id in w.repo.store.apps
    requires w.clients[c] == Read(Liveness, id, w.repo.store.apps[id])
    requires w.repo.store.apps[id].state in {Started, DocumentsUploaded}
    ensures LivenessDone(w, id, Some(session), now,
      Take(Take(w, StoreSessionStep(c, Some(session))), WriteStep(c, now)))
  {
    TakesStoreSession(w, c, Some(session));
    var w1 := TakeStoreSession(w, c, Some(session));
    TakesWrite(w1, c, now);
    assert CanTransition(DocumentsUploaded, LivenessPassed) && !CanTransition(Started, LivenessPassed);
    SystemWrite(w1, c, now, "liveness passed");
  }

  lemma LivenessRuns(w: World, c: nat, id: string, session: Option<Held<string>>, now: Time)
    requires c < |w.clients| && w.clients[c] == Idle && now != ZERO_TIME
    ensures LivenessDone(w, id, session, now, LivenessRun(w, c, id, session, now))
  {
    TakesRead(w, c, Liveness, id);
    var w1 := Take(w, ReadStep(c, Liveness, id));
    if session.Some? && w1.clients[c].Read? {
      SessionRuns(w1, c, id, session.value, now);
    } else {
      TakesStoreSession(w1, c, session);
      TakesWrite(Take(w1, StoreSessionStep(c, session)), c, now);
    }
  }

  // ---- screening ----

  /** The matches kept one by one, the ids of the hits given. */
  ghost function AddRun(w: World, c: nat, ids: nat -> string, k: nat): World {
    if k == 0 then w else Take(AddRun(w, c, ids, k - 1), AddHitStep(c, ids(k - 1)))
  }

  ghost function ScreenRun(w: World, c: nat, id: string, found: Option<seq<Match>>, ids: nat -> string,
                           threshold: nat, now: Time): World
  {
    var w1 := Take(Take(w, ReadStep(c, Screen, id)), ScreenStep(c, found));
    var w2 := AddRun(w1, c, ids, if found.Some? then |found.value| else 0);
    Take(Take(w2, ScreenedStep(c, threshold)), WriteStep(c, now))
  }

  /** Where a screening run with so many hits moves an application from, and to what. */
  function ScreenedTo(state: State, hits: nat, threshold: nat): Option<State> {
    if hits >= threshold
    then if state in {LivenessPassed, State.Screening, VendorDecision} then Some(ManualReview) else None
    else if state in {DocumentsUploaded, LivenessPassed} then Some(State.Screening) else None
  }

  /** A screening run for an unknown application, or whose screener fails, does nothing. Any
      other keeps each match as an unmarked hit behind those there, and moves the application
      to review from the threshold on and to screening below it, where the table allows. */
  ghost predicate Screened(w: World, id: string, found: Option<seq<Match>>, ids: nat -> string, threshold: nat,
                           now: Time, w': World)
  {
    if id !in w.repo.store.apps || found.None? then SameShared(w, w')
    else
      && HitsOf(w'.hits, id) == HitsOf(w.hits, id) + NewHits(id, found.value, ids)
      && (forall j | j != id :: HitsOf(w'.hits, j) == HitsOf(w.hits, j))
      && w'.docs == w.docs && w'.sessions == w.sessions && w'.seen == w.seen
      && var to := ScreenedTo(w.repo.store.apps[id].state, |found.value|, threshold);
         if to.Some? then HasMoved(w, w', id, to.value, "screening run", now)
         else w'.repo.store == w.repo.store && w'.log == w.log
  }

  /** After `k` hits: what the client still holds, and the hits so far. */
  ghost predicate Added(w: World, w': World, c: nat, id: string, app: Application, found: seq<Match>,
                        ids: nat -> string, k: nat)
    requires k <= |found|
  {
    && |w'.clients| == |w.clients| && c < |w'.clients|
    && w'.clients[c] == Adding(Screen, id, app, found[k..], k)
    && w'.repo == w.repo && w'.log == w.log && w'.docs == w.docs && w'.sessions == w.sessions && w'.seen == w.seen
    && HitsOf(w'.hits, id) == HitsOf(w.hits, id) + NewHits(id, found, ids)[..k]
    && forall j | j != id :: HitsOf(w'.hits, j) == HitsOf(w.hits, j)
  }

  lemma AddsOne(w: World, w': World, c: nat, id: string, app: Application, found: seq<Match>, ids: nat -> string,
                k: nat)
    requires k < |found| && Added(w, w', c, id, app, found, ids, k)
    ensures Added(w, Take(w', AddHitStep(c, ids(k))), c, id, app, found, ids, k + 1)
  {
    assert Take(w', AddHitStep(c, ids(k))) == TakeAddHit(w', c, ids(k));
    assert found[k..][0] == found[k] && found[k..][1..] == found[k + 1..];
    var hits := NewHits(id, found, ids);
    assert hits[..k + 1] == hits[..k] + [hits[k]];
  }

  lemma AddsNoneYet(w: World, c: nat, id: string, app: Application, found: seq<Match>, ids: nat -> string)
    requires c < |w.clients| && w.clients[c] == Adding(Screen, id, app, found, 0)
    ensures Added(w, w, c, id, app, found, ids, 0)
  {
    assert found[0..] == found && NewHits(id, found, ids)[..0] == [];
    assert HitsOf(w.hits, id) + [] == HitsOf(w.hits, id);
  }

  lemma {:induction false} AddsAll(w: World, c: nat, id: string, app: Application, found: seq<Match>,
                                   ids: nat -> string, k: nat)
    requires c < |w.clients| && w.clients[c] == Adding(Screen, id, app, found, 0) && k <= |found|
    ensures Added(w, AddRun(w, c, ids, k), c, id, app, found, ids, k)
  {
    if k == 0 {
      AddsNoneYet(w, c, id, app, found, ids);
    } else {
      AddsAll(w, c, id, app, found, ids, k - 1);
      AddsOne(w, AddRun(w, c, ids, k - 1), c, id, app, found, ids, k - 1);
    }
  }

  lemma TakesScreen(w: World, c: nat, found: Option<seq<Match>>)
    requires c < |w.clients|
    ensures w.clients[c] == Idle ==> Take(w, ScreenStep(c, found)) == w
    ensures w.clients[c].Read? && w.clients[c].task == Screen ==>
      Take(w, ScreenStep(c, found)) == TakeScreen(w, c, found)
  {
  }

  lemma TakesScreened(w: World, c: nat, threshold: nat)
    requires c < |w.clients|
    ensures w.clients[c] == Idle ==> Take(w, ScreenedStep(c, threshold)) == w
    ensures w.clients[c].Adding? && w.clients[c].left == [] ==>
      Take(w, ScreenedStep(c, threshold)) == TakeScreened(w, c, threshold)
  {
  }

  lemma TargetsAgree(state: State, hits: nat, threshold: nat)
    ensures ScreenedTo(state, hits, threshold) ==
      if CanTransition(state, ScreeningTarget(hits, threshold)) then Some(ScreeningTarget(hits, threshold)) else None
  {
  }

  /** The end of a screening run: the hits are kept, the decision remains. */
  lemma ScreenEnds(w: World, c: nat, id: string, app: Application, added: nat, threshold: nat, now: Time)
    requires c < |w.clients| && now != ZERO_TIME && id in w.repo.store.apps && app == w.repo.store.apps[id]
    requires w.clients[c] == Adding(Screen, id, app, [], added)
    ensures var w' := Take(Take(w, ScreenedStep(c, threshold)), WriteStep(c, now));
      var to := ScreenedTo(app.state, added, threshold);
      && w'.docs == w.docs && w'.sessions == w.sessions && w'.hits == w.hits && w'.seen == w.seen
      && if to.Some? then HasMoved(w, w', id, to.value, "screening run", now)
         else w'.repo.store == w.repo.store && w'.log == w.log
  {
    TakesScreened(w, c, threshold);
    TargetsAgree(app.state, added, threshold);
    var w1 := TakeScreened(w, c, threshold);
    TakesWrite(w1, c, now);
    if w1.clients[c].Ready? {
      SystemWrite(w1, c, now, "screening run");
    }
  }

  lemma ScreenRuns(w: World, c: nat, id: string, found: Option<seq<Match>>, ids: nat -> string, threshold: nat,
                   now: Time)
    requires c < |w.clients| && w.clients[c] == Idle && now != ZERO_TIME
    ensures Screened(w, id, found, ids, threshold, now, ScreenRun(w, c, id, found, ids, threshold, now))
  {
    TakesRead(w, c, Screen, id);
    var w1 := Take(w, ReadStep(c, Screen, id));
    TakesScreen(w1, c, found);
    var w2 := Take(w1, ScreenStep(c, found));
    if id in w.repo.store.apps && found.Some? {
      var app, n := w.repo.store.apps[id], |found.value|;
      AddsAll(w2, c, id, app, found.value, ids, n);
      var w3 := AddRun(w2, c, ids, n);
      assert found.value[n..] == [] && NewHits(id, found.value, ids)[..n] == NewHits(id, found.value, ids);
      ScreenEnds(w3, c, id, app, n, threshold, now);
    } else {
      IdleScreens(w2, c, ids, if found.Some? then |found.value| else 0, threshold, now);
    }
  }

  lemma {:induction false} IdleScreens(w: World, c: nat, ids: nat -> string, k: nat, threshold: nat, now: Time)
    requires c < |w.clients| && w.clients[c] == Idle && now != ZERO_TIME
    ensures AddRun(w, c, ids, k) == w
    ensures Take(Take(w, ScreenedStep(c, threshold)), WriteStep(c, now)) == w
  {
    TakesScreened(w, c, threshold);
    TakesWrite(w, c, now);
    if k > 0 {
      IdleScreens(w, c, ids, k - 1, threshold, now);
    }
  }

  // ---- the re-KYC trigger ----

  ghost function TriggerRun(w: World, c: nat, userId: string, now: Time): World {
    Take(Take(w, TriggerReadStep(c, userId)), WriteStep(c, now))
  }

  /** A trigger re-opens the application on file for the user exactly when it is decided, and
      otherwise does nothing. */
  ghost predicate Triggered(w: World, userId: string, now: Time, w': World) {
    var s := w.repo.store;
    var id := if userId in s.byUser then s.byUser[userId] else "";
    if userId in s.byUser && id in s.apps && (s.apps[id].state == Pass || s.apps[id].state == Fail)
    then
      && w'.repo.store == Put(s, id, Reopened(s.apps[id], now))
      && Transitions(w'.log) == Transitions(w.log) + [Transition(id, s.apps[id].state, Started, "internal", "re-kyc")]
      && w'.docs == w.docs && w'.sessions == w.sessions && w'.hits == w.hits && w'.seen == w.seen
    else SameShared(w, w')
  }

  lemma TakesTriggerRead(w: World, c: nat, userId: string)
    requires c < |w.clients| && w.clients[c] == Idle && Indexed(w.repo.store)
    ensures var s := w.repo.store;
      Take(w, TriggerReadStep(c, userId)) ==
        if userId in s.byUser && s.byUser[userId] in s.apps
        then Set(w, c, Ready(Trigger, s.byUser[userId], s.apps[s.byUser[userId]], Started)) else w
  {
    assert Take(w, TriggerReadStep(c, userId)) == TakeTriggerRead(w, c, userId);
  }

  lemma TriggerRuns(w: World, c: nat, userId: string, now: Time)
    requires c < |w.clients| && w.clients[c] == Idle && now != ZERO_TIME && Indexed(w.repo.store)
    ensures Triggered(w, userId, now, TriggerRun(w, c, userId, now))
  {
    TakesTriggerRead(w, c, userId);
    var w1 := Take(w, TriggerReadStep(c, userId));
    TakesWrite(w1, c, now);
    if w1.clients[c].Ready? {
      TriggerWrites(w1, c, now);
    }
  }

  lemma TriggerWrites(w: World, c: nat, now: Time)
    requires c < |w.clients| && w.clients[c].Ready? && w.clients[c].task == Trigger
    requires w.clients[c].id in w.repo.store.apps && w.clients[c].app == w.repo.store.apps[w.clients[c].id]
    ensures var l := w.clients[c];
      var w' := TakeWrite(w, c, now);
      && w'.docs == w.docs && w'.sessions == w.sessions && w'.hits == w.hits && w'.seen == w.seen
      && (if IsTerminal(l.app.state)
          then
            && w'.repo.store == Put(w.repo.store, l.id, Reopened(l.app, now))
            && Transitions(w'.log)
               == Transitions(w.log) + [Transition(l.id, l.app.state, Started, "internal", "re-kyc")]
          else w'.repo.store == w.repo.store && w'.log == w.log)
  {
    var l := w.clients[c];
    var out := Exec(w.repo.store, WriteCall(l), now);
    assert out == ReopenApp(w.repo.store, l.id, l.app.version, "internal", now);
    LoggedAreReadBack(w.log, out.events);
    assert w.log + [] == w.log;
  }

  // ---- creation ----

  ghost function CreateRun(w: World, c: nat, id: string, userId: string, vendor: string, vendorId: Option<string>,
                           now: Time, later: Time): World
  {
    Take(Take(w, CreateStep(c, id, userId, vendor, now)), RegisterStep(c, vendorId, later))
  }

  /** A create with a fresh id for a user without an undecided application leaves that user
      exactly one application: STARTED, dated now, without decision, with the vendor's id if
      the vendor gave one. For any other user it does nothing. */
  lemma CreateRuns(w: World, c: nat, id: string, userId: string, vendor: string, vendorId: Option<string>, now: Time,
                   later: Time)
    requires c < |w.clients| && w.clients[c] == Idle && now != ZERO_TIME && later != ZERO_TIME
    requires id != "" && userId != "" && id !in w.repo.issued && id !in w.repo.store.apps
    ensures var s := w.repo.store;
      var w' := CreateRun(w, c, id, userId, vendor, vendorId, now, later);
      var blocked := userId in s.byUser && s.byUser[userId] in s.apps
        && s.apps[s.byUser[userId]].state != Pass && s.apps[s.byUser[userId]].state != Fail;
      && w'.log == w.log
      && (blocked ==> w'.repo.store == s)
      && (!blocked ==>
            && id in w'.repo.store.apps && w'.repo.store.byUser == s.byUser[userId := id]
            && w'.repo.store.apps[id] ==
                 if vendorId.None? then Application(id, userId, vendor, "", Started, now, now, 0, 0, 0, 1)
                 else Application(id, userId, vendor, vendorId.value, Started, now, later, 0, 0, 0, 2))
  {
    var w1 := TakeCreate(w, c, id, userId, vendor, now);
    assert Take(w, CreateStep(c, id, userId, vendor, now)) == w1;
    assert w.log + [] == w.log;
    if w1.clients[c] == Idle {
      assert Take(w1, RegisterStep(c, vendorId, later)) == w1;
    } else {
      assert Take(w1, RegisterStep(c, vendorId, later)) == TakeRegister(w1, c, vendorId, later);
      assert w1.log + [] == w1.log;
    }
  }
}
