/** The same interface over rows of a table: SQL statements as functions of the table, the
    NULL encoding of optional columns, and the proof that it answers as the in-memory
    store does. */
module DatabaseRepository {
  import opened StateMachine
  import opened Entities
  import opened Repository
  import opened RepositoryRuns
  import opened Audit
  import opened InMemoryRepository

  /** A row of kyc_applications; an optional column is None when it holds NULL. */
  datatype Row = Row(
    id: string,
    userId: string,
    vendor: Option<string>,
    vendorApplicantId: Option<string>,
    state: State,
    createdAt: Time,
    updatedAt: Time,
    expiresAt: Option<Time>,
    reKycDueAt: Option<Time>,
    decidedAt: Option<Time>,
    version: int
  )

  /** The table by primary key. */
  type Table = map<string, Row>

  function NullableString(s: string): Option<string> {
    if s == "" then None else Some(s)
  }

  function NullableTime(t: Time): Option<Time> {
    if t == ZERO_TIME then None else Some(t)
  }

  function StringOf(column: Option<string>): string {
    if column.Some? then column.value else ""
  }

  function TimeOf(column: Option<Time>): Time {
    if column.Some? then column.value else ZERO_TIME
  }

  function Coalesce(value: Option<Time>, column: Option<Time>): Option<Time> {
    if value.Some? then value else column
  }

  function ToRow(app: Application): Row {
    Row(app.id, app.userId, NullableString(app.vendor), NullableString(app.vendorApplicantId), app.state,
        app.createdAt, app.updatedAt, NullableTime(app.expiresAt), NullableTime(app.reKycDueAt),
        NullableTime(app.decidedAt), app.version)
  }

  function Scan(row: Row): Application {
    Application(row.id, row.userId, StringOf(row.vendor), StringOf(row.vendorApplicantId), row.state,
                row.createdAt, row.updatedAt, TimeOf(row.expiresAt), TimeOf(row.reKycDueAt),
                TimeOf(row.decidedAt), row.version)
  }

  ghost predicate Keyed(t: Table) {
    forall id | id in t :: t[id].id == id
  }

  // ---- statements ----

  /** `id` may be the answer of a query for the user's row, newest first, limited to one. */
  predicate Newest(t: Table, userId: string, id: string) {
    && id in t
    && t[id].userId == userId
    && forall j | j in t && t[j].userId == userId :: t[j].createdAt <= t[id].createdAt
  }

  /** Another undecided row of the user: what the partial unique index forbids. */
  predicate HasActiveRow(t: Table, userId: string) {
    exists id | id in t :: t[id].userId == userId && !IsTerminal(t[id].state)
  }

  predicate InsertRefused(t: Table, app: Application) {
    app.id in t || (!IsTerminal(app.state) && HasActiveRow(t, app.userId))
  }

  /** UPDATE by id and version, with COALESCE on both dates. */
  function UpdateRow(row: Row, to: State, now: Time, version: int, decidedAt: Option<Time>, dueAt: Option<Time>): Row {
    row.(state := to, updatedAt := now, version := version,
         decidedAt := Coalesce(decidedAt, row.decidedAt), reKycDueAt := Coalesce(dueAt, row.reKycDueAt))
  }

  function ReopenRow(row: Row, now: Time, version: int): Row {
    row.(state := Started, updatedAt := now, version := version, decidedAt := None, reKycDueAt := None)
  }

  predicate RowIsDue(row: Row, asOf: Time) {
    row.reKycDueAt.Some? && row.reKycDueAt.value <= asOf && (row.state == Pass || row.state == Fail)
  }

  function DueRows(t: Table, asOf: Time): set<ReKYCDue> {
    set id | id in t && RowIsDue(t[id], asOf) :: ReKYCDue(t[id].id, t[id].version)
  }

  // ---- operations ----

  /** What an operation leaves and answers. */
  datatype DbOutcome = DbOutcome(table: Table, response: Response, events: seq<Transition>)

  function DbInsert(t: Table, app: Application): DbOutcome {
    if InsertRefused(t, app) then DbOutcome(t, Failed(Duplicate), [])
    else DbOutcome(t[app.id := ToRow(app)], Record(app), [])
  }

  /** Create with both names given, for the row `newest` that the query found (None when it
      found no row). */
  function DbCreateWith(t: Table, app: Application, now: Time, newest: Option<string>): DbOutcome
    requires newest.Some? ==> newest.value in t
  {
    var stored := WithDefaults(app, now);
    match newest
    case None => DbInsert(t, stored)
    case Some(existing) =>
      if !IsTerminal(t[existing].state) then DbOutcome(t, Failed(Duplicate), [])
      else DbInsert(t - {existing}, stored)
  }

  /** A query for the newest row answers with one of the newest, or with none when the
      user has no row. */
  ghost predicate QueryNewest(t: Table, userId: string, answer: Option<string>) {
    match answer
    case Some(id) => Newest(t, userId, id)
    case None => forall id | id in t :: t[id].userId != userId
  }

  function DbFind(t: Table, id: string): Response {
    if id in t then Record(Scan(t[id])) else Failed(NotFound)
  }

  function DbMove(t: Table, id: string, version: int, to: State, actor: string, reason: string, now: Time): DbOutcome {
    if id !in t then DbOutcome(t, Failed(NotFound), [])
    else
      var app := Scan(t[id]);
      if app.version != version then DbOutcome(t, Failed(Conflict), [])
      else if !CanTransition(app.state, to) then DbOutcome(t, Failed(IllegalTransition), [])
      else
        var decided := IsTerminal(to);
        var row := UpdateRow(t[id], to, now, app.version + 1,
                             if decided then Some(now) else None, if decided then Some(now + YEAR) else None);
        var answer := app.(state := to, version := app.version + 1, updatedAt := now,
                           decidedAt := if decided then now else app.decidedAt,
                           reKycDueAt := if decided then now + YEAR else app.reKycDueAt);
        DbOutcome(t[id := row], Record(answer), [Transition(id, app.state, to, actor, reason)])
  }

  function DbReopen(t: Table, id: string, version: int, actor: string, now: Time): DbOutcome {
    if id !in t then DbOutcome(t, Failed(NotFound), [])
    else
      var app := Scan(t[id]);
      if app.version != version then DbOutcome(t, Failed(Conflict), [])
      else if !IsTerminal(app.state) then DbOutcome(t, Failed(ReKYCNotTerminal), [])
      else
        var answer := app.(state := Started, version := app.version + 1, updatedAt := now,
                           decidedAt := ZERO_TIME, reKycDueAt := ZERO_TIME);
        DbOutcome(t[id := ReopenRow(t[id], now, app.version + 1)], Record(answer),
                  [Transition(id, app.state, Started, actor, "re-kyc")])
  }

  function DbSetVendorId(t: Table, id: string, vendorId: string, now: Time): Table {
    if id in t
    then t[id := t[id].(vendorApplicantId := Some(vendorId), version := t[id].version + 1, updatedAt := now)]
    else t
  }

  /** `out` is a possible outcome of the call; only ties in a newest-first query leave a
      choice. */
  ghost predicate DbExec(t: Table, call: Call, now: Time, out: DbOutcome) {
    match call
    case Create(app) =>
      if app.userId == "" || app.id == "" then out == DbOutcome(t, Failed(InvalidArgument), [])
      else exists newest :: QueryNewest(t, app.userId, newest) && out == DbCreateWith(t, app, now, newest)
    case Get(id) => out == DbOutcome(t, DbFind(t, id), [])
    case GetByUserId(userId) =>
      exists newest :: QueryNewest(t, userId, newest)
        && out == DbOutcome(t, if newest.Some? then DbFind(t, newest.value) else Failed(NotFound), [])
    case UpdateState(id, version, to, actor, reason) => out == DbMove(t, id, version, to, actor, reason, now)
    case Reopen(id, version, actor) => out == DbReopen(t, id, version, actor, now)
    case SetVendorApplicantId(id, vendorId) => out == DbOutcome(DbSetVendorId(t, id, vendorId, now), Done, [])
    case ListDueForReKYC(asOf) => out == DbOutcome(t, Due(DueRows(t, asOf)), [])
  }

  lemma {:induction false} NewestAmong(t: Table, ids: set<string>) returns (newest: string)
    requires ids != {} && ids <= t.Keys
    ensures newest in ids && forall j | j in ids :: t[j].createdAt <= t[newest].createdAt
    decreases |ids|
  {
    newest :| newest in ids;
    if ids != {newest} {
      assert ids - {newest} != {};
      var other := NewestAmong(t, ids - {newest});
      if t[newest].createdAt <= t[other].createdAt {
        newest := other;
      }
    }
  }

  /** Every call has an outcome: a newest-first query always has an answer. */
  lemma DbExecAnswers(t: Table, call: Call, now: Time)
    ensures exists out :: DbExec(t, call, now, out)
  {
    if (call.Create? && call.app.userId != "" && call.app.id != "") || call.GetByUserId? {
      var userId := if call.Create? then call.app.userId else call.userId;
      var ids := set id | id in t && t[id].userId == userId;
      var answer: Option<string> := None;
      if ids != {} {
        var newest := NewestAmong(t, ids);
        answer := Some(newest);
      }
      assert forall id | id in t && t[id].userId == userId :: id in ids;
      assert QueryNewest(t, userId, answer);
      if call.Create? {
        assert DbExec(t, call, now, DbCreateWith(t, call.app, now, answer));
      } else {
        assert DbExec(t, call, now,
          DbOutcome(t, if answer.Some? then DbFind(t, answer.value) else Failed(NotFound), []));
      }
    } else {
      var out := match call
        case Create(_) => DbOutcome(t, Failed(InvalidArgument), [])
        case Get(id) => DbOutcome(t, DbFind(t, id), [])
        case GetByUserId(_) => DbOutcome(t, Done, [])
        case UpdateState(id, version, to, actor, reason) => DbMove(t, id, version, to, actor, reason, now)
        case Reopen(id, version, actor) => DbReopen(t, id, version, actor, now)
        case SetVendorApplicantId(id, vendorId) => DbOutcome(DbSetVendorId(t, id, vendorId, now), Done, [])
        case ListDueForReKYC(asOf) => DbOutcome(t, Due(DueRows(t, asOf)), []);
      assert DbExec(t, call, now, out);
    }
  }

  // ---- refinement ----

  /** The table and the in-memory store describe the same applications. */
  ghost predicate Coupled(s: Store, t: Table) {
    && t.Keys == s.apps.Keys
    && (forall id | id in t :: Scan(t[id]) == s.apps[id])
    && (forall id | id in t :: t[id].reKycDueAt != Some(ZERO_TIME))
    && Indexed(s)
    && NoDangling(s)
  }

  /** Writing a record and scanning the row gives the record back. */
  lemma ScanUndoesToRow(app: Application)
    ensures Scan(ToRow(app)) == app
    ensures ToRow(app).reKycDueAt != Some(ZERO_TIME)
  {
  }

  /** With one application a user, the newest-first query finds what the index names. */
  lemma QueryAgreesWithIndex(s: Store, t: Table, userId: string, answer: Option<string>)
    requires Coupled(s, t) && QueryNewest(t, userId, answer)
    ensures answer.Some? <==> userId in s.byUser
    ensures answer.Some? ==> answer.value == s.byUser[userId]
  {
    assert answer.Some? ==> Scan(t[answer.value]) == s.apps[answer.value];
    assert userId in s.byUser ==> Scan(t[s.byUser[userId]]) == s.apps[s.byUser[userId]];
  }

  lemma CreateRefines(s: Store, t: Table, app: Application, now: Time, newest: Option<string>)
    requires Coupled(s, t) && QueryNewest(t, app.userId, newest)
    requires app.userId != "" && app.id != "" && app.id !in s.apps
    ensures var mem := CreateApp(s, app, now);
      var out := DbCreateWith(t, app, now, newest);
      Coupled(mem.store, out.table) && out.response == mem.response && out.events == mem.events
  {
    QueryAgreesWithIndex(s, t, app.userId, newest);
    if HasActive(s, app.userId) {
      assert Scan(t[newest.value]) == s.apps[newest.value];
    } else {
      var kept := if newest.Some? then t - {newest.value} else t;
      DropRefines(s, t, app.userId, kept);
      InsertRefines(s, kept, app, now);
      assert newest.Some? ==> Scan(t[newest.value]) == s.apps[newest.value];
    }
  }

  /** The insert that follows, where the user's row is out of the way. */
  lemma InsertRefines(s: Store, kept: Table, app: Application, now: Time)
    requires Indexed(s) && NoDangling(s) && !HasActive(s, app.userId)
    requires app.userId != "" && app.id != "" && app.id !in s.apps
    requires kept.Keys == DropFiled(s, app.userId).apps.Keys
    requires forall id | id in kept :: kept[id].userId != app.userId
    requires forall id | id in kept :: Scan(kept[id]) == s.apps[id] && kept[id].reKycDueAt != Some(ZERO_TIME)
    ensures var mem := CreateApp(s, app, now);
      var out := DbInsert(kept, WithDefaults(app, now));
      Coupled(mem.store, out.table) && out.response == mem.response && out.events == mem.events
  {
    ExecKeepsIndexed(s, Create(app), now);
    CreateDanglesExactly(s, app, now);
    assert !DropsThenRefuses(s, app);
    assert !InsertRefused(kept, WithDefaults(app, now));
    RowAdded(CreateApp(s, app, now).store, kept, WithDefaults(app, now));
  }

  /** Inserting the row of a record that was just stored couples the two again. */
  lemma RowAdded(s: Store, kept: Table, app: Application)
    requires Indexed(s) && NoDangling(s)
    requires s.apps.Keys == kept.Keys + {app.id} && s.apps[app.id] == app
    requires forall id | id in kept && id != app.id ::
      Scan(kept[id]) == s.apps[id] && kept[id].reKycDueAt != Some(ZERO_TIME)
    ensures Coupled(s, kept[app.id := ToRow(app)])
  {
    ScanUndoesToRow(app);
  }

  /** Deleting the user's row leaves the rows of the others. */
  lemma DropRefines(s: Store, t: Table, userId: string, kept: Table)
    requires Coupled(s, t)
    requires kept == if userId in s.byUser then t - {s.byUser[userId]} else t
    ensures kept.Keys == DropFiled(s, userId).apps.Keys
    ensures forall id | id in kept :: kept[id].userId != userId
    ensures forall id | id in kept :: Scan(kept[id]) == s.apps[id] && kept[id].reKycDueAt != Some(ZERO_TIME)
  {
    forall id | id in kept
      ensures kept[id].userId != userId
    {
      assert Scan(t[id]) == s.apps[id];
    }
  }

  /** Replacing a record by one of the same id and user keeps the index exact both ways. */
  lemma PutKeepsIndexed(s: Store, id: string, app: Application)
    requires Indexed(s) && id in s.apps && app.id == id && app.userId == s.apps[id].userId
    ensures Indexed(Put(s, id, app))
  {
  }

  lemma PutKeepsNoDangling(s: Store, id: string, app: Application)
    requires NoDangling(s) && id in s.apps && app.userId == s.apps[id].userId
    ensures NoDangling(Put(s, id, app))
  {
    var s' := Put(s, id, app);
    forall u | u in s'.byUser
      ensures s'.byUser[u] in s'.apps && s'.apps[s'.byUser[u]].userId == u
    {
      assert s.byUser[u] in s.apps;
    }
  }

  /** Updating one row as its record is updated keeps the two coupled. */
  lemma OneRowChanged(s: Store, t: Table, id: string, app: Application, row: Row)
    requires Coupled(s, t) && id in t
    requires Scan(row) == app && row.reKycDueAt != Some(ZERO_TIME)
    requires app.id == id && app.userId == s.apps[id].userId
    ensures Coupled(Put(s, id, app), t[id := row])
  {
    PutKeepsIndexed(s, id, app);
    PutKeepsNoDangling(s, id, app);
  }

  lemma MoveRefines(s: Store, t: Table, id: string, version: int, to: State, actor: string, reason: string, now: Time)
    requires Coupled(s, t)
    ensures var mem := MoveApp(s, id, version, to, actor, reason, now);
      var out := DbMove(t, id, version, to, actor, reason, now);
      Coupled(mem.store, out.table) && out.response == mem.response && out.events == mem.events
  {
    var mem := MoveApp(s, id, version, to, actor, reason, now);
    var out := DbMove(t, id, version, to, actor, reason, now);
    if mem.events != [] {
      OneRowChanged(s, t, id, mem.response.app, out.table[id]);
    }
  }

  lemma ReopenRefines(s: Store, t: Table, id: string, version: int, actor: string, now: Time)
    requires Coupled(s, t)
    ensures var mem := ReopenApp(s, id, version, actor, now);
      var out := DbReopen(t, id, version, actor, now);
      Coupled(mem.store, out.table) && out.response == mem.response && out.events == mem.events
  {
    var mem := ReopenApp(s, id, version, actor, now);
    var out := DbReopen(t, id, version, actor, now);
    if mem.events != [] {
      OneRowChanged(s, t, id, mem.response.app, out.table[id]);
    }
  }

  lemma DueRefines(s: Store, t: Table, asOf: Time)
    requires Coupled(s, t)
    ensures DueRows(t, asOf) == DueSet(s, asOf)
  {
    forall d
      ensures d in DueRows(t, asOf) <==> d in DueSet(s, asOf)
    {
      if d in DueRows(t, asOf) {
        var id :| id in t && RowIsDue(t[id], asOf) && d == ReKYCDue(t[id].id, t[id].version);
        assert Scan(t[id]) == s.apps[id] && IsDue(s.apps[id], asOf);
      }
      if d in DueSet(s, asOf) {
        var id :| id in s.apps && IsDue(s.apps[id], asOf) && d == ReKYCDue(s.apps[id].id, s.apps[id].version);
        assert Scan(t[id]) == s.apps[id] && RowIsDue(t[id], asOf);
      }
    }
  }

  /** Every call, however the database breaks ties, answers and logs as the in-memory store
      does, and the two stay coupled. */
  lemma ExecRefines(s: Store, t: Table, call: Call, now: Time, out: DbOutcome)
    requires Coupled(s, t) && DbExec(t, call, now, out)
    requires call.Create? ==> call.app.id != "" && call.app.id !in s.apps
    ensures var mem := Exec(s, call, now);
      Coupled(mem.store, out.table) && out.response == mem.response && out.events == mem.events
  {
    match call
    case Create(app) =>
      if app.userId != "" {
        var newest :| QueryNewest(t, app.userId, newest) && out == DbCreateWith(t, app, now, newest);
        CreateRefines(s, t, app, now, newest);
      }
    case Get(id) =>
    case GetByUserId(userId) =>
      var newest :| QueryNewest(t, userId, newest)
        && out == DbOutcome(t, if newest.Some? then DbFind(t, newest.value) else Failed(NotFound), []);
      QueryAgreesWithIndex(s, t, userId, newest);
    case UpdateState(id, version, to, actor, reason) =>
      MoveRefines(s, t, id, version, to, actor, reason, now);
    case Reopen(id, version, actor) =>
      ReopenRefines(s, t, id, version, actor, now);
    case SetVendorApplicantId(id, vendorId) =>
      if id in t {
        OneRowChanged(s, t, id, WithVendorId(s.apps[id], vendorId, now), out.table[id]);
      }
    case ListDueForReKYC(asOf) =>
      DueRefines(s, t, asOf);
  }

  function TableAfter(outs: seq<DbOutcome>): Table {
    if outs == [] then map[] else outs[|outs| - 1].table
  }

  /** A run of the database: the outcome of each call is possible from the table the
      previous one left. */
  ghost predicate DbRun(calls: seq<TimedCall>, outs: seq<DbOutcome>) {
    && |outs| == |calls|
    && forall i | 0 <= i < |calls| :: DbExec(TableAfter(outs[..i]), calls[i].call, calls[i].now, outs[i])
  }

  lemma {:induction false} RunsStayCoupled(calls: seq<TimedCall>, outs: seq<DbOutcome>, n: nat)
    requires FreshIds(calls) && DbRun(calls, outs) && n <= |calls|
    ensures Coupled(Run(calls[..n]).store, TableAfter(outs[..n]))
  {
    if n > 0 {
      RunsStayCoupled(calls, outs, n - 1);
      StepAgrees(calls, outs, n - 1);
      RunGrows(calls, n - 1);
      assert TableAfter(outs[..n]) == outs[n - 1].table;
    } else {
      assert calls[..0] == [] && outs[..0] == [];
    }
  }

  lemma StepAgrees(calls: seq<TimedCall>, outs: seq<DbOutcome>, i: nat)
    requires FreshIds(calls) && DbRun(calls, outs) && i < |calls|
    requires Coupled(Run(calls[..i]).store, TableAfter(outs[..i]))
    ensures var mem := Exec(Run(calls[..i]).store, calls[i].call, calls[i].now);
      Coupled(mem.store, outs[i].table) && outs[i].response == mem.response && outs[i].events == mem.events
  {
    FreshPrefix(calls, i);
    EveryRunIsAccounted(calls[..i]);
    ExecRefines(Run(calls[..i]).store, TableAfter(outs[..i]), calls[i].call, calls[i].now, outs[i]);
  }

  lemma RunGrows(calls: seq<TimedCall>, i: nat)
    requires i < |calls|
    ensures var out := Exec(Run(calls[..i]).store, calls[i].call, calls[i].now);
      Run(calls[..i + 1]).store == out.store && Run(calls[..i + 1]).events == Run(calls[..i]).events + out.events
  {
    assert calls[..i + 1] == calls[..i] + [calls[i]];
    RunSnoc(calls[..i], calls[i]);
  }

  /** On every sequential run with fresh ids, the database answers every call as the
      in-memory store does, errors included, and logs the same transitions. */
  lemma DatabaseRefinesMemory(calls: seq<TimedCall>, outs: seq<DbOutcome>, i: nat)
    requires FreshIds(calls) && DbRun(calls, outs) && i < |calls|
    ensures outs[i].response == ResponseAt(calls, i)
    ensures Run(calls[..i + 1]).events == Run(calls[..i]).events + outs[i].events
  {
    RunsStayCoupled(calls, outs, i);
    StepAgrees(calls, outs, i);
    RunGrows(calls, i);
  }

  // ---- runs with reused ids ----

  ghost predicate OneRowPerUser(t: Table) {
    && Keyed(t)
    && forall i, j | i in t && j in t && t[i].userId == t[j].userId :: i == j
  }

  /** Whatever the id, a create neither replaces nor removes a row of anybody else, and leaves
      its user with at most one. */
  lemma CreateKeepsRowsApart(t: Table, app: Application, now: Time, newest: Option<string>)
    requires OneRowPerUser(t) && QueryNewest(t, app.userId, newest)
    ensures var out := DbCreateWith(t, app, now, newest);
      && OneRowPerUser(out.table)
      && (forall id | id in t && t[id].userId != app.userId :: id in out.table && out.table[id] == t[id])
      && (app.id in t && t[app.id].userId != app.userId ==> out.response == Failed(Duplicate))
  {
  }

  lemma OthersChangeNoOwner(t: Table, call: Call, now: Time, out: DbOutcome)
    requires Keyed(t) && DbExec(t, call, now, out) && !call.Create?
    ensures out.table.Keys == t.Keys
    ensures forall id | id in t :: out.table[id].userId == t[id].userId && out.table[id].id == id
  {
  }

  /** No other call changes whose a row is. */
  lemma OthersKeepRowsApart(t: Table, call: Call, now: Time, out: DbOutcome)
    requires OneRowPerUser(t) && DbExec(t, call, now, out) && !call.Create?
    ensures OneRowPerUser(out.table)
  {
    OthersChangeNoOwner(t, call, now, out);
  }

  /** Over every run, reused ids included: no user has two rows. */
  lemma {:induction false} EveryRunKeepsRowsApart(calls: seq<TimedCall>, outs: seq<DbOutcome>, n: nat)
    requires DbRun(calls, outs) && n <= |calls|
    ensures OneRowPerUser(TableAfter(outs[..n]))
  {
    if n > 0 {
      EveryRunKeepsRowsApart(calls, outs, n - 1);
      assert TableAfter(outs[..n]) == outs[n - 1].table;
      CallKeepsRowsApart(TableAfter(outs[..n - 1]), calls[n - 1].call, calls[n - 1].now, outs[n - 1]);
    } else {
      assert outs[..0] == [];
    }
  }

  lemma CallKeepsRowsApart(t: Table, call: Call, now: Time, out: DbOutcome)
    requires OneRowPerUser(t) && DbExec(t, call, now, out)
    ensures OneRowPerUser(out.table)
  {
    if !call.Create? {
      OthersKeepRowsApart(t, call, now, out);
    } else if call.app.userId != "" && call.app.id != "" {
      var newest :| QueryNewest(t, call.app.userId, newest) && out == DbCreateWith(t, call.app, now, newest);
      CreateKeepsRowsApart(t, call.app, now, newest);
    }
  }

  // ---- a create among other calls ----

  /** Whether a create that found this row deletes an undecided application, when its delete
      meets the table as `second`. */
  predicate DropsUndecided(second: Table, found: string) {
    found in second && !IsTerminal(second[found].state)
  }

  /** The other calls that run in between, none of which creates under an id in use. */
  ghost predicate Between(first: Table, calls: seq<TimedCall>, outs: seq<DbOutcome>) {
    && |outs| == |calls|
    && (outs != [] ==>
          var n := |outs| - 1;
          && Between(first, calls[..n], outs[..n])
          && DbExec(TableFrom(first, outs[..n]), calls[n].call, calls[n].now, outs[n])
          && (calls[n].call.Create? ==> calls[n].call.app.id !in first))
  }

  function TableFrom(first: Table, outs: seq<DbOutcome>): Table {
    if outs == [] then first else outs[|outs| - 1].table
  }

  function EventsFrom(outs: seq<DbOutcome>): seq<Transition> {
    if outs == [] then [] else EventsFrom(outs[..|outs| - 1]) + outs[|outs| - 1].events
  }

  /** One call leaves a row of another table gone or in the state its logged move led to. */
  lemma CallTellsState(t: Table, call: Call, now: Time, out: DbOutcome, id: string)
    requires DbExec(t, call, now, out) && (call.Create? ==> call.app.id != id) && id in out.table
    ensures id in t
    ensures |out.events| <= 1
    ensures out.table[id].state ==
      if out.events != [] && out.events[0].appId == id then out.events[0].to else t[id].state
  {
  }

  lemma EventsFromLast(outs: seq<DbOutcome>, id: string)
    requires outs != [] && |outs[|outs| - 1].events| <= 1
    ensures var n := |outs| - 1;
      EventsOf(EventsFrom(outs), id) == EventsOf(EventsFrom(outs[..n]), id)
        + (if outs[n].events != [] && outs[n].events[0].appId == id then outs[n].events else [])
  {
    var n := |outs| - 1;
    if outs[n].events == [] {
      assert EventsFrom(outs[..n]) + outs[n].events == EventsFrom(outs[..n]);
    } else {
      assert outs[n].events == [outs[n].events[0]];
      EventsOfSnoc(EventsFrom(outs[..n]), outs[n].events[0], id);
    }
  }

  /** The state of a row, as the transitions logged since tell it. */
  ghost predicate ToldBy(before: State, events: seq<Transition>, state: State) {
    state == if events == [] then before else events[|events| - 1].to
  }

  lemma {:induction false} EventsTellState(first: Table, calls: seq<TimedCall>, outs: seq<DbOutcome>, id: string)
    requires Between(first, calls, outs) && id in first && id in TableFrom(first, outs)
    ensures ToldBy(first[id].state, EventsOf(EventsFrom(outs), id), TableFrom(first, outs)[id].state)
  {
    if outs != [] {
      var n := |outs| - 1;
      CallTellsState(TableFrom(first, outs[..n]), calls[n].call, calls[n].now, outs[n], id);
      EventsTellState(first, calls[..n], outs[..n], id);
      EventsFromLast(outs, id);
    }
  }

  /** A create finds a decided row and deletes it in a later statement. It drops an undecided
      application exactly when the row is still there and the last transition logged for it
      in between, a re-opening or one after it, leads to a state that is not decided. */
  lemma CreateDropsUndecidedExactly(first: Table, calls: seq<TimedCall>, outs: seq<DbOutcome>, found: string)
    requires Between(first, calls, outs) && found in first && IsTerminal(first[found].state)
    ensures var second := TableFrom(first, outs);
      var events := EventsOf(EventsFrom(outs), found);
      var reopened := found in second && events != [] && !IsTerminal(events[|events| - 1].to);
      DropsUndecided(second, found) <==> reopened
  {
    if found in TableFrom(first, outs) {
      EventsTellState(first, calls, outs, found);
    }
  }

  /** One re-opening in between is enough. */
  lemma ReopenedIsDropped(first: Table, found: string, now: Time)
    requires found in first && IsTerminal(first[found].state)
    ensures var out := DbReopen(first, found, first[found].version, "scheduler", now);
      && DbExec(first, Call.Reopen(found, first[found].version, "scheduler"), now, out)
      && DropsUndecided(out.table, found)
  {
  }

  // ---- the repository itself ----

  class DBApplicationRepo {
    var table: Table
    const sink: AuditLog

    /** The primary key of a row is its own id. */
    ghost predicate Valid()
      reads this
    {
      Keyed(table)
    }

    constructor (sink: AuditLog)
      ensures Valid() && table == map[] && this.sink == sink
    {
      table := map[];
      this.sink := sink;
    }

    /** SELECT ... WHERE user_id = ... ORDER BY created_at DESC LIMIT 1, as a scan. */
    method SelectNewest(userId: string) returns (answer: Option<string>)
      ensures QueryNewest(table, userId, answer)
    {
      answer := None;
      var left := table.Keys;
      while left != {}
        invariant left <= table.Keys
        invariant answer.Some? ==> answer.value in table.Keys - left && table[answer.value].userId == userId
        invariant forall id | id in table.Keys - left && table[id].userId == userId ::
          answer.Some? && table[id].createdAt <= table[answer.value].createdAt
      {
        var id :| id in left;
        if table[id].userId == userId
           && (answer.None? || table[answer.value].createdAt < table[id].createdAt) {
          answer := Some(id);
        }
        left := left - {id};
      }
    }

    /** Unlike the in-memory store this fills in the caller's object before it knows
        whether the insert will succeed. */
    method Create(app: ApplicationRecord, now: Time) returns (r: Result<()>)
      requires Valid()
      modifies this, app
      ensures Valid()
      ensures DbExec(old(table), Call.Create(old(app.Value())), now,
                     DbOutcome(table, if r.Ok? then Record(app.Value()) else Failed(r.error), []))
      ensures app.Value() == if r == Err(InvalidArgument) then old(app.Value()) else WithDefaults(old(app.Value()), now)
    {
      ghost var asked := app.Value();
      ghost var before := table;
      if app.userId == "" {
        return Err(InvalidArgument);
      }
      if app.id == "" {
        return Err(InvalidArgument);
      }
      FillDefaults(app, now);
      var existing := SelectNewest(app.userId);
      assert QueryNewest(table, asked.userId, existing);
      if existing.Some? {
        if !IsTerminal(table[existing.value].state) {
          return Err(Duplicate);
        }
        table := table - {existing.value};
      }
      ghost var out := DbCreateWith(before, asked, now, existing);
      assert out == DbInsert(table, app.Value());
      if InsertRefused(table, app.Value()) {
        return Err(Duplicate);
      }
      table := table[app.id := ToRow(app.Value())];
      r := Ok(());
    }

    method Get(id: string) returns (r: Result<Application>)
      ensures DbExec(table, Call.Get(id), 0, DbOutcome(table, AsResponse(r), []))
    {
      if id !in table {
        return Err(NotFound);
      }
      r := Ok(Scan(table[id]));
    }

    method GetByUserId(userId: string) returns (r: Result<Application>)
      ensures DbExec(table, Call.GetByUserId(userId), 0, DbOutcome(table, AsResponse(r), []))
    {
      var newest := SelectNewest(userId);
      if newest.None? {
        return Err(NotFound);
      }
      r := Ok(Scan(table[newest.value]));
    }

    method UpdateState(id: string, version: int, to: State, actor: string, reason: string, now: Time)
      returns (r: Result<Application>)
      requires Valid()
      modifies this, sink
      ensures Valid()
      ensures var out := DbMove(old(table), id, version, to, actor, reason, now);
        DbExec(old(table), Call.UpdateState(id, version, to, actor, reason), now, out)
        && table == out.table && AsResponse(r) == out.response
        && sink.events == old(sink.events) + AsEvents(out.events)
    {
      if id !in table {
        return Err(NotFound);
      }
      var app := Scan(table[id]);
      if app.version != version {
        return Err(Conflict);
      }
      var from := app.state;
      if !CanTransition(from, to) {
        return Err(IllegalTransition);
      }
      app := app.(state := to, version := app.version + 1, updatedAt := now);
      var decidedAt: Option<Time>, dueAt: Option<Time> := None, None;
      if IsTerminal(to) {
        app := app.(decidedAt := now, reKycDueAt := now + YEAR);
        decidedAt, dueAt := Some(now), Some(app.reKycDueAt);
      }
      table := table[id := UpdateRow(table[id], to, now, app.version, decidedAt, dueAt)];
      sink.RecordTransition(id, from, to, actor, reason);
      r := Ok(app);
    }

    method Reopen(id: string, version: int, actor: string, now: Time) returns (r: Result<Application>)
      requires Valid()
      modifies this, sink
      ensures Valid()
      ensures var out := DbReopen(old(table), id, version, actor, now);
        DbExec(old(table), Call.Reopen(id, version, actor), now, out)
        && table == out.table && AsResponse(r) == out.response
        && sink.events == old(sink.events) + AsEvents(out.events)
    {
      if id !in table {
        return Err(NotFound);
      }
      var app := Scan(table[id]);
      if app.version != version {
        return Err(Conflict);
      }
      if !IsTerminal(app.state) {
        return Err(ReKYCNotTerminal);
      }
      var from := app.state;
      app := app.(state := Started, version := app.version + 1, updatedAt := now,
                  decidedAt := ZERO_TIME, reKycDueAt := ZERO_TIME);
      table := table[id := ReopenRow(table[id], now, app.version)];
      sink.RecordTransition(id, from, Started, actor, "re-kyc");
      r := Ok(app);
    }

    method SetVendorApplicantId(id: string, vendorId: string, now: Time)
      requires Valid()
      modifies this
      ensures Valid()
      ensures DbExec(old(table), Call.SetVendorApplicantId(id, vendorId), now, DbOutcome(table, Done, []))
    {
      if id in table {
        var row := table[id];
        table := table[id := row.(vendorApplicantId := Some(vendorId), version := row.version + 1, updatedAt := now)];
      }
    }

    method ListDueForReKYC(asOf: Time) returns (out: seq<ReKYCDue>)
      requires Valid()
      ensures forall d :: d in out <==> d in DueRows(table, asOf)
      ensures forall i, j | 0 <= i < j < |out| :: out[i].id != out[j].id
    {
      out := [];
      var left := table.Keys;
      while left != {}
        invariant left <= table.Keys
        invariant forall d :: d in out <==>
          exists id :: id in table && id !in left && RowIsDue(table[id], asOf)
            && d == ReKYCDue(table[id].id, table[id].version)
        invariant forall d | d in out :: d.id !in left
        invariant forall i, j | 0 <= i < j < |out| :: out[i].id != out[j].id
      {
        var id :| id in left;
        if RowIsDue(table[id], asOf) {
          out := out + [ReKYCDue(table[id].id, table[id].version)];
        }
        left := left - {id};
      }
    }
  }
}
