/** What each call on the application store answers and changes, field by field. */
module RepositoryEffects {
  import opened StateMachine
  import opened Entities
  import opened Repository
  import opened RepositoryRuns

  const NS_PER_YEAR: nat := 31_536_000_000_000_000

  /** The user's application on file is stored and undecided, so no other can be created. */
  predicate Blocked(s: Store, userId: string) {
    && userId in s.byUser && s.byUser[userId] in s.apps
    && s.apps[s.byUser[userId]].state != Pass && s.apps[s.byUser[userId]].state != Fail
  }

  /** When a create is refused, and how. */
  lemma CreateAnswersExactly(s: Store, app: Application, now: Time)
    ensures var r := Exec(s, Create(app), now).response;
      var own := app.userId in s.byUser && s.byUser[app.userId] == app.id;
      var taken := app.id in s.apps && !own;
      var invalid := app.userId == "" || (!Blocked(s, app.userId) && app.id == "");
      var duplicate := app.userId != "" && (Blocked(s, app.userId) || (app.id != "" && taken));
      && (r == Failed(InvalidArgument) <==> invalid)
      && (r == Failed(Duplicate) <==> duplicate)
      && (r.Record? <==> !invalid && !duplicate)
  {
  }

  /** The record a successful create stores and returns: what was asked for, with the creation
      time, the state and the version filled in where they were left out. */
  lemma CreateStoresFields(s: Store, app: Application, now: Time)
    requires Exec(s, Create(app), now).response.Record?
    ensures var out := Exec(s, Create(app), now);
      var r := out.response.app;
      && r.id == app.id && r.userId == app.userId && r.vendor == app.vendor
      && r.vendorApplicantId == app.vendorApplicantId && r.expiresAt == app.expiresAt
      && r.reKycDueAt == app.reKycDueAt && r.decidedAt == app.decidedAt
      && r.createdAt == (if app.createdAt == 0 then now else app.createdAt) && r.updatedAt == now
      && r.state == (if app.state == Other("") then Started else app.state)
      && r.version == (if app.version == 0 then 1 else app.version)
      && out.events == []
      && out.store.byUser == s.byUser[app.userId := app.id]
      && app.id in out.store.apps && out.store.apps[app.id] == r
  {
  }

  /** Of the others a create drops at most the one application on file for the user. */
  lemma CreateKeepsOthers(s: Store, app: Application, now: Time, id: string)
    requires id != app.id
    ensures var t := Exec(s, Create(app), now).store;
      && (id in t.apps ==> id in s.apps && t.apps[id] == s.apps[id])
      && (id in s.apps && id !in t.apps ==>
            app.userId in s.byUser && s.byUser[app.userId] == id && IsTerminal(s.apps[id].state))
  {
  }

  /** The store differs at this one id only, and there in these fields. */
  predicate OnlyChanges(s: Store, t: Store, id: string, app: Application) {
    && id in s.apps && t.byUser == s.byUser && t.apps == s.apps[id := app]
  }

  /** A state update: when it is refused, what it writes, and what it logs. A decision is dated,
      and due for renewal 365 days later. */
  lemma UpdateStateExactly(s: Store, id: string, version: int, to: State, actor: string, reason: string, now: Time)
    ensures var out := Exec(s, UpdateState(id, version, to, actor, reason), now);
      && (out.response == Failed(NotFound) <==> id !in s.apps)
      && (out.response == Failed(Conflict) <==> id in s.apps && s.apps[id].version != version)
      && (out.response == Failed(IllegalTransition) <==>
            id in s.apps && s.apps[id].version == version && !CanTransition(s.apps[id].state, to))
      && (out.response.Failed? ==> out.store == s && out.events == [])
      && (!out.response.Failed? ==>
            var was := s.apps[id];
            var decided := to == Pass || to == Fail;
            var app := Application(
              was.id, was.userId, was.vendor, was.vendorApplicantId, to, was.createdAt, now, was.expiresAt,
              if decided then now + NS_PER_YEAR else was.reKycDueAt, if decided then now else was.decidedAt,
              was.version + 1);
            && out.response == Record(app) && OnlyChanges(s, out.store, id, app)
            && out.events == [Transition(id, was.state, to, actor, reason)])
  {
  }

  /** A re-opening: when it is refused, and what it writes and logs. */
  lemma ReopenExactly(s: Store, id: string, version: int, actor: string, now: Time)
    ensures var out := Exec(s, Reopen(id, version, actor), now);
      && (out.response == Failed(NotFound) <==> id !in s.apps)
      && (out.response == Failed(Conflict) <==> id in s.apps && s.apps[id].version != version)
      && (out.response == Failed(ReKYCNotTerminal) <==>
            id in s.apps && s.apps[id].version == version && s.apps[id].state != Pass && s.apps[id].state != Fail)
      && (out.response.Failed? ==> out.store == s && out.events == [])
      && (!out.response.Failed? ==>
            var was := s.apps[id];
            var app := Application(
              was.id, was.userId, was.vendor, was.vendorApplicantId, Started, was.createdAt, now, was.expiresAt, 0, 0,
              was.version + 1);
            && out.response == Record(app) && OnlyChanges(s, out.store, id, app)
            && out.events == [Transition(id, was.state, Started, actor, "re-kyc")])
  {
  }

  /** A vendor id is written on a stored application, and raises its version; no other call
      answers without a record or an error. */
  lemma SetVendorIdExactly(s: Store, id: string, vendorId: string, now: Time)
    ensures var out := Exec(s, SetVendorApplicantId(id, vendorId), now);
      && out.events == [] && out.response == Done
      && (id !in s.apps ==> out.store == s)
      && (id in s.apps ==>
            var was := s.apps[id];
            OnlyChanges(s, out.store, id, Application(
              was.id, was.userId, was.vendor, vendorId, was.state, was.createdAt, now, was.expiresAt, was.reKycDueAt,
              was.decidedAt, was.version + 1)))
  {
  }

  /** Due are the decided applications whose due date is set and not after the given time. */
  lemma DueExactly(s: Store, asOf: Time, d: ReKYCDue)
    requires Indexed(s)
    ensures d in DueSet(s, asOf)
       <==> d.id in s.apps && s.apps[d.id].version == d.version
            && (s.apps[d.id].state == Pass || s.apps[d.id].state == Fail)
            && 0 < s.apps[d.id].reKycDueAt <= asOf
  {
    if d.id in s.apps && IsDue(s.apps[d.id], asOf) && s.apps[d.id].version == d.version {
      assert d == ReKYCDue(s.apps[d.id].id, s.apps[d.id].version);
    }
  }

  // ---- what stays of a create ----

  /** The fields no call changes once a record is stored. */
  predicate SameOrigin(a: Application, b: Application) {
    && a.id == b.id && a.userId == b.userId && a.vendor == b.vendor
    && a.createdAt == b.createdAt && a.expiresAt == b.expiresAt
  }

  ghost predicate OriginsKept(h: History) {
    forall id | id in h.store.apps :: id in h.births && SameOrigin(h.store.apps[id], h.births[id])
  }

  lemma AdvanceKeepsOrigins(h: History, c: TimedCall)
    requires OriginsKept(h) && Accounted(h) && FreshCall(h, c.call)
    ensures OriginsKept(Advance(h, c))
  {
    var h' := Advance(h, c);
    forall id | id in h'.store.apps
      ensures id in h'.births && SameOrigin(h'.store.apps[id], h'.births[id])
    {
      if c.call.Create? && c.call.app.id != id {
        CreateKeepsOthers(h.store, c.call.app, c.now, id);
      }
    }
  }

  lemma {:induction false} EveryRunKeepsOrigins(calls: seq<TimedCall>)
    requires FreshIds(calls)
    ensures OriginsKept(Run(calls))
  {
    if calls != [] {
      var n := |calls| - 1;
      FreshPrefix(calls, n);
      EveryRunIsAccounted(calls[..n]);
      EveryRunKeepsOrigins(calls[..n]);
      AdvanceKeepsOrigins(Run(calls[..n]), calls[n]);
    }
  }

  /** Over every run with fresh ids: a stored application was created by exactly one call, and
      still has the user, vendor and expiry that asked for, and the creation time it asked for
      or, if none, the time of that call. */
  lemma StoredAsCreated(calls: seq<TimedCall>, id: string) returns (k: nat)
    requires FreshIds(calls) && id in Run(calls).store.apps
    ensures k < |calls| && calls[k].call.Create? && calls[k].call.app.id == id
    ensures forall j | 0 <= j < |calls| && calls[j].call.Create? && calls[j].call.app.id == id :: j == k
    ensures var app := Run(calls).store.apps[id];
      var asked := calls[k].call.app;
      && app.id == id && app.userId == asked.userId && app.vendor == asked.vendor && app.expiresAt == asked.expiresAt
      && app.createdAt == if asked.createdAt == 0 then calls[k].now else asked.createdAt
  {
    EveryRunIsAccounted(calls);
    EveryRunKeepsOrigins(calls);
    IssuedAreCreated(calls, id);
    k :| k < |calls| && calls[k].call.Create? && calls[k].call.app.id == id;
    BirthIsItsCreate(calls, k, id);
  }
}
