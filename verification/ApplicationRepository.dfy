/** The in-memory application store: two maps, and records mutated in place behind them. */
module InMemoryRepository {
  import opened StateMachine
  import opened Entities
  import opened Repository
  import opened Audit

  /** A stored application, as an object whose fields are updated in place. */
  class ApplicationRecord {
    var id: string
    var userId: string
    var vendor: string
    var vendorApplicantId: string
    var state: State
    var createdAt: Time
    var updatedAt: Time
    var expiresAt: Time
    var reKycDueAt: Time
    var decidedAt: Time
    var version: int

    constructor (app: Application)
      ensures Value() == app
    {
      id, userId, vendor, vendorApplicantId := app.id, app.userId, app.vendor, app.vendorApplicantId;
      state, version := app.state, app.version;
      createdAt, updatedAt, expiresAt := app.createdAt, app.updatedAt, app.expiresAt;
      reKycDueAt, decidedAt := app.reKycDueAt, app.decidedAt;
    }

    /** A copy of the fields, as the readers are given. */
    function Value(): Application
      reads this
    {
      Application(id, userId, vendor, vendorApplicantId, state, createdAt, updatedAt,
                  expiresAt, reKycDueAt, decidedAt, version)
    }
  }

  // The in-place field updates, one method for each kind of write.

  method MoveRecord(app: ApplicationRecord, to: State, now: Time)
    modifies app
    ensures app.Value() == Moved(old(app.Value()), to, now)
  {
    app.state := to;
    app.version := app.version + 1;
    app.updatedAt := now;
    if IsTerminal(to) {
      app.decidedAt := app.updatedAt;
      app.reKycDueAt := app.decidedAt + YEAR;
    }
  }

  method ReopenRecord(app: ApplicationRecord, now: Time)
    modifies app
    ensures app.Value() == Reopened(old(app.Value()), now)
  {
    app.state := Started;
    app.version := app.version + 1;
    app.updatedAt := now;
    app.decidedAt := ZERO_TIME;
    app.reKycDueAt := ZERO_TIME;
  }

  method FillDefaults(app: ApplicationRecord, now: Time)
    modifies app
    ensures app.Value() == WithDefaults(old(app.Value()), now)
  {
    if app.state == Other("") {
      app.state := Started;
    }
    if app.createdAt == ZERO_TIME {
      app.createdAt := now;
    }
    app.updatedAt := now;
    if app.version == 0 {
      app.version := 1;
    }
  }

  method SetVendorIdOf(app: ApplicationRecord, vendorId: string, now: Time)
    modifies app
    ensures app.Value() == WithVendorId(old(app.Value()), vendorId, now)
  {
    app.vendorApplicantId := vendorId;
    app.version := app.version + 1;
    app.updatedAt := now;
  }

  /** What a caller sees, in the terms of the specification. */
  function AsResponse(r: Result<Application>): Response {
    match r
    case Ok(app) => Record(app)
    case Err(e) => Failed(e)
  }

  class ApplicationRepository {
    var apps: map<string, ApplicationRecord>
    var byUser: map<string, string>
    const sink: AuditLog

    constructor (sink: AuditLog)
      ensures Valid() && View() == EMPTY_STORE && this.sink == sink
    {
      apps, byUser := map[], map[];
      this.sink := sink;
    }

    ghost predicate Valid()
      reads this, apps.Values
    {
      && Distinct()
      && Indexed(View())
    }

    ghost function View(): Store
      reads this, apps.Values
    {
      Store(map id | id in apps :: apps[id].Value(), byUser)
    }

    ghost predicate Distinct()
      reads this
    {
      forall i, j | i in apps && j in apps && i != j :: apps[i] != apps[j]
    }

    /** Changing the fields of one stored record changes the view at that id only. */
    lemma OneRecordChanged(before: Store, id: string, app: Application)
      requires Distinct() && Indexed(before) && id in apps
      requires apps.Keys == before.apps.Keys && byUser == before.byUser
      requires forall j | j in apps :: apps[j].Value() == if j == id then app else before.apps[j]
      requires app.id == id && app.userId == before.apps[id].userId
      ensures Valid() && View() == Put(before, id, app)
    {
      assert View().apps == before.apps[id := app];
      assert before.apps[id].id == id;
    }

    /** Filing one more record adds it to the view. */
    lemma OneRecordAdded(kept: Store, id: string, app: Application)
      requires apps.Keys == kept.apps.Keys + {id}
      requires forall j | j in apps :: apps[j].Value() == if j == id then app else kept.apps[j]
      requires byUser == kept.byUser[app.userId := id]
      ensures View() == Store(kept.apps[id := app], kept.byUser[app.userId := id])
    {
      assert View().apps == kept.apps[id := app];
    }

    /** Forgets the application filed for the user. */
    method Drop(userId: string)
      requires Distinct() && userId in byUser
      modifies this
      ensures Distinct() && byUser == old(byUser) && apps == old(apps) - {byUser[userId]}
      ensures View() == DropFiled(old(View()), userId)
    {
      apps := apps - {byUser[userId]};
      assert View().apps == old(View()).apps - {byUser[userId]};
    }

    /** Files the caller's object under its id and its user. */
    method File(app: ApplicationRecord, now: Time)
      requires Distinct() && app !in apps.Values && app.id !in apps
      modifies this, app
      ensures Distinct() && apps == old(apps[app.id := app])
      ensures app.Value() == WithDefaults(old(app.Value()), now)
      ensures View() == Store(old(View()).apps[app.id := app.Value()], old(byUser)[app.userId := app.id])
    {
      ghost var kept := View();
      ghost var asked := app.Value();
      FillDefaults(app, now);
      assert forall j | j in apps :: apps[j] != app && apps[j].Value() == kept.apps[j];
      apps := apps[app.id := app];
      byUser := byUser[app.userId := app.id];
      OneRecordAdded(kept, asked.id, WithDefaults(asked, now));
    }

    /** Stores the caller's own object, which the repository owns from then on. An object it
        already holds is refused, or filed again once it is decided. */
    method Create(app: ApplicationRecord, now: Time) returns (r: Result<()>)
      requires Valid()
      modifies this, app
      ensures Valid()
      ensures apps.Values <= old(apps.Values) + {app}
      ensures Outcome(View(), if r.Ok? then Record(app.Value()) else Failed(r.error), [])
              == old(CreateApp(View(), app.Value(), now))
      ensures r.Ok? ==> app.id in apps && apps[app.id] == app
      ensures r.Err? ==> app.Value() == old(app.Value())
    {
      ghost var before := View();
      ghost var asked := app.Value();
      ExecKeepsIndexed(before, Repository.Create(asked), now);
      if app.userId == "" {
        return Err(InvalidArgument);
      }
      if app.userId in byUser {
        var existingId := byUser[app.userId];
        if existingId in apps && !IsTerminal(apps[existingId].state) {
          return Err(Duplicate);
        }
        Drop(app.userId);
      }
      ghost var kept := View();
      assert kept == DropFiled(before, asked.userId);
      if app.id == "" {
        return Err(InvalidArgument);
      }
      if app.id in apps {
        return Err(Duplicate);
      }
      assert forall id | id in apps :: apps[id].Value() == kept.apps[id] && kept.apps[id].id == id;
      File(app, now);
      r := Ok(());
    }

    method Get(id: string) returns (r: Result<Application>)
      requires Valid()
      ensures r.Ok? ==> Find(View(), id) == Record(r.value)
      ensures r.Err? ==> Find(View(), id) == Failed(r.error)
    {
      if id !in apps {
        return Err(NotFound);
      }
      r := Ok(apps[id].Value());
    }

    method GetByUserId(userId: string) returns (r: Result<Application>)
      requires Valid()
      ensures r.Ok? ==> FindByUser(View(), userId) == Record(r.value)
      ensures r.Err? ==> FindByUser(View(), userId) == Failed(r.error)
    {
      if userId !in byUser {
        return Err(NotFound);
      }
      var id := byUser[userId];
      if id !in apps {
        return Err(NotFound);
      }
      r := Ok(apps[id].Value());
    }

    method UpdateState(id: string, version: int, to: State, actor: string, reason: string, now: Time)
      returns (r: Result<Application>)
      requires Valid()
      modifies apps.Values, sink
      ensures Valid() && apps == old(apps) && byUser == old(byUser)
      ensures View() == old(MoveApp(View(), id, version, to, actor, reason, now).store)
      ensures AsResponse(r) == old(MoveApp(View(), id, version, to, actor, reason, now).response)
      ensures sink.events
           == old(sink.events) + AsEvents(old(MoveApp(View(), id, version, to, actor, reason, now).events))
    {
      ghost var before := View();
      if id !in apps {
        return Err(NotFound);
      }
      var app := apps[id];
      if app.version != version {
        return Err(Conflict);
      }
      var from := app.state;
      if !CanTransition(from, to) {
        return Err(IllegalTransition);
      }
      MoveRecord(app, to, now);
      sink.RecordTransition(id, from, to, actor, reason);
      OneRecordChanged(before, id, Moved(before.apps[id], to, now));
      r := Ok(app.Value());
    }

    method Reopen(id: string, version: int, actor: string, now: Time) returns (r: Result<Application>)
      requires Valid()
      modifies apps.Values, sink
      ensures Valid() && apps == old(apps) && byUser == old(byUser)
      ensures View() == old(ReopenApp(View(), id, version, actor, now).store)
      ensures AsResponse(r) == old(ReopenApp(View(), id, version, actor, now).response)
      ensures sink.events == old(sink.events) + AsEvents(old(ReopenApp(View(), id, version, actor, now).events))
    {
      ghost var before := View();
      if id !in apps {
        return Err(NotFound);
      }
      var app := apps[id];
      if app.version != version {
        return Err(Conflict);
      }
      if !IsTerminal(app.state) {
        return Err(ReKYCNotTerminal);
      }
      var from := app.state;
      ReopenRecord(app, now);
      sink.RecordTransition(id, from, Started, actor, "re-kyc");
      OneRecordChanged(before, id, Reopened(before.apps[id], now));
      r := Ok(app.Value());
    }

    method SetVendorApplicantId(id: string, vendorId: string, now: Time)
      requires Valid()
      modifies apps.Values
      ensures Valid() && apps == old(apps) && byUser == old(byUser)
      ensures View() == old(SetVendorId(View(), id, vendorId, now).store)
    {
      ghost var before := View();
      if id in apps {
        SetVendorIdOf(apps[id], vendorId, now);
        OneRecordChanged(before, id, WithVendorId(before.apps[id], vendorId, now));
      }
    }

    /** Every due application once, in whatever order the map is walked. */
    method ListDueForReKYC(asOf: Time) returns (out: seq<ReKYCDue>)
      requires Valid()
      ensures forall d :: d in out <==> d in DueSet(View(), asOf)
      ensures forall i, j | 0 <= i < j < |out| :: out[i].id != out[j].id
    {
      out := [];
      var left := apps.Keys;
      while left != {}
        invariant left <= apps.Keys
        invariant forall d :: d in out <==>
          exists id :: id in apps && id !in left && IsDue(apps[id].Value(), asOf)
            && d == ReKYCDue(apps[id].id, apps[id].version)
        invariant forall d | d in out :: d.id !in left
        invariant forall i, j | 0 <= i < j < |out| :: out[i].id != out[j].id
      {
        var id :| id in left;
        var app := apps[id];
        assert View().apps[id].id == id;
        if app.reKycDueAt != ZERO_TIME && !(app.reKycDueAt > asOf) && IsTerminal(app.state) {
          out := out + [ReKYCDue(app.id, app.version)];
        }
        left := left - {id};
      }
      forall d
        ensures d in out <==> d in DueSet(View(), asOf)
      {
        if d in DueSet(View(), asOf) {
          var id :| id in View().apps && IsDue(View().apps[id], asOf)
            && d == ReKYCDue(View().apps[id].id, View().apps[id].version);
          assert id in apps && id !in left && IsDue(apps[id].Value(), asOf);
        }
        if d in out {
          var id :| id in apps && id !in left && IsDue(apps[id].Value(), asOf)
            && d == ReKYCDue(apps[id].id, apps[id].version);
          assert id in View().apps && View().apps[id] == apps[id].Value();
        }
      }
    }
  }

  /** Records another event in the repository's log; the applications stay as they are. */
  method NoteBeside(repo: ApplicationRepository, aggregate: string, action: Action, actor: string)
    requires repo.Valid()
    modifies repo.sink
    ensures repo.Valid() && repo.View() == old(repo.View())
    ensures repo.sink.events == old(repo.sink.events) + [AuditEvent(aggregate, action, actor)]
  {
    repo.sink.Record(aggregate, action, actor);
  }
}
