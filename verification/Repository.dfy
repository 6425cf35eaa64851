/** The application store as a value, and what each operation of its interface does to it. */
module Repository {
  import opened StateMachine
  import opened Entities

  /** Applications by id, and the application each user was last given. */
  datatype Store = Store(apps: map<string, Application>, byUser: map<string, string>)

  const EMPTY_STORE := Store(map[], map[])

  datatype Call =
    | Create(app: Application)
    | Get(id: string)
    | GetByUserId(userId: string)
    | UpdateState(id: string, version: int, to: State, actor: string, reason: string)
    | Reopen(id: string, version: int, actor: string)
    | SetVendorApplicantId(id: string, vendorId: string)
    | ListDueForReKYC(asOf: Time)

  datatype Response =
    | Record(app: Application)
    | Failed(error: Error)
    | Done
    | Due(due: set<ReKYCDue>)

  /** What a call leaves: the new store, its answer and the transitions it logged. */
  datatype Outcome = Outcome(store: Store, response: Response, events: seq<Transition>)

  /** The record as stored by a successful create. */
  function WithDefaults(app: Application, now: Time): Application {
    app.(
      state := if app.state == Other("") then Started else app.state,
      createdAt := if app.createdAt == ZERO_TIME then now else app.createdAt,
      updatedAt := now,
      version := if app.version == 0 then 1 else app.version
    )
  }

  /** The user has an application that is still undecided. */
  predicate HasActive(s: Store, userId: string) {
    userId in s.byUser && s.byUser[userId] in s.apps && !IsTerminal(s.apps[s.byUser[userId]].state)
  }

  /** The store after the application filed for the user, if any, is dropped. */
  function DropFiled(s: Store, userId: string): Store {
    if userId in s.byUser then s.(apps := s.apps - {s.byUser[userId]}) else s
  }

  function CreateApp(s: Store, app: Application, now: Time): Outcome {
    if app.userId == "" then Outcome(s, Failed(InvalidArgument), [])
    else if HasActive(s, app.userId) then Outcome(s, Failed(Duplicate), [])
    else
      var kept := DropFiled(s, app.userId);
      if app.id == "" then Outcome(kept, Failed(InvalidArgument), [])
      else if app.id in kept.apps then Outcome(kept, Failed(Duplicate), [])
      else
        var stored := WithDefaults(app, now);
        Outcome(Store(kept.apps[app.id := stored], kept.byUser[app.userId := app.id]), Record(stored), [])
  }

  function Find(s: Store, id: string): Response {
    if id in s.apps then Record(s.apps[id]) else Failed(NotFound)
  }

  function FindByUser(s: Store, userId: string): Response {
    if userId in s.byUser then Find(s, s.byUser[userId]) else Failed(NotFound)
  }

  /** A record moved to `to`; a decision stamps its date and the date it falls due again. */
  function Moved(app: Application, to: State, now: Time): Application {
    var moved := app.(state := to, version := app.version + 1, updatedAt := now);
    if IsTerminal(to) then moved.(decidedAt := now, reKycDueAt := now + YEAR) else moved
  }

  function Reopened(app: Application, now: Time): Application {
    app.(state := Started, version := app.version + 1, updatedAt := now,
         decidedAt := ZERO_TIME, reKycDueAt := ZERO_TIME)
  }

  function Put(s: Store, id: string, app: Application): Store {
    s.(apps := s.apps[id := app])
  }

  function MoveApp(s: Store, id: string, version: int, to: State, actor: string, reason: string, now: Time): Outcome {
    if id !in s.apps then Outcome(s, Failed(NotFound), [])
    else if s.apps[id].version != version then Outcome(s, Failed(Conflict), [])
    else if !CanTransition(s.apps[id].state, to) then Outcome(s, Failed(IllegalTransition), [])
    else
      var moved := Moved(s.apps[id], to, now);
      Outcome(Put(s, id, moved), Record(moved), [Transition(id, s.apps[id].state, to, actor, reason)])
  }

  function ReopenApp(s: Store, id: string, version: int, actor: string, now: Time): Outcome {
    if id !in s.apps then Outcome(s, Failed(NotFound), [])
    else if s.apps[id].version != version then Outcome(s, Failed(Conflict), [])
    else if !IsTerminal(s.apps[id].state) then Outcome(s, Failed(ReKYCNotTerminal), [])
    else
      var reopened := Reopened(s.apps[id], now);
      Outcome(Put(s, id, reopened), Record(reopened), [Transition(id, s.apps[id].state, Started, actor, "re-kyc")])
  }

  function WithVendorId(app: Application, vendorId: string, now: Time): Application {
    app.(vendorApplicantId := vendorId, version := app.version + 1, updatedAt := now)
  }

  function SetVendorId(s: Store, id: string, vendorId: string, now: Time): Outcome {
    if id !in s.apps then Outcome(s, Done, [])
    else Outcome(Put(s, id, WithVendorId(s.apps[id], vendorId, now)), Done, [])
  }

  predicate IsDue(app: Application, asOf: Time) {
    app.reKycDueAt != ZERO_TIME && app.reKycDueAt <= asOf && IsTerminal(app.state)
  }

  function DueSet(s: Store, asOf: Time): set<ReKYCDue> {
    set id | id in s.apps && IsDue(s.apps[id], asOf) :: ReKYCDue(s.apps[id].id, s.apps[id].version)
  }

  function Exec(s: Store, call: Call, now: Time): Outcome {
    match call
    case Create(app) => CreateApp(s, app, now)
    case Get(id) => Outcome(s, Find(s, id), [])
    case GetByUserId(userId) => Outcome(s, FindByUser(s, userId), [])
    case UpdateState(id, version, to, actor, reason) => MoveApp(s, id, version, to, actor, reason, now)
    case Reopen(id, version, actor) => ReopenApp(s, id, version, actor, now)
    case SetVendorApplicantId(id, vendorId) => SetVendorId(s, id, vendorId, now)
    case ListDueForReKYC(asOf) => Outcome(s, Due(DueSet(s, asOf)), [])
  }

  // ---- the index ----

  /** Every stored application is filed under its own id and is the one its user's
      index entry names. */
  ghost predicate Indexed(s: Store) {
    forall id | id in s.apps ::
      s.apps[id].id == id && s.apps[id].userId in s.byUser && s.byUser[s.apps[id].userId] == id
  }

  /** Conversely, every index entry names a stored application of that user. */
  ghost predicate NoDangling(s: Store) {
    forall u | u in s.byUser :: s.byUser[u] in s.apps && s.apps[s.byUser[u]].userId == u
  }

  /** Every call, failing ones and reused ids included, keeps the store indexed. */
  lemma ExecKeepsIndexed(s: Store, call: Call, now: Time)
    requires Indexed(s)
    ensures Indexed(Exec(s, call, now).store)
  {
    var t := Exec(s, call, now).store;
    forall id | id in t.apps
      ensures t.apps[id].id == id && t.apps[id].userId in t.byUser && t.byUser[t.apps[id].userId] == id
    {
      assert id in s.apps || call.Create?;
    }
  }

  /** In an indexed store no user owns two applications. */
  lemma OneApplicationPerUser(s: Store, i: string, j: string)
    requires Indexed(s) && i in s.apps && j in s.apps
    ensures s.apps[i].userId == s.apps[j].userId ==> i == j
  {
  }

  /** The create that loses track of a user: it drops the user's decided application
      and then refuses the new id. */
  predicate DropsThenRefuses(s: Store, app: Application) {
    && app.userId in s.byUser
    && !HasActive(s, app.userId)
    && app.userId != ""
    && (app.id == "" || app.id in DropFiled(s, app.userId).apps)
  }

  /** From an exact index, a create leaves an entry that names nothing exactly when it
      drops an application and then refuses the new id. */
  lemma CreateDanglesExactly(s: Store, app: Application, now: Time)
    requires Indexed(s) && NoDangling(s)
    ensures NoDangling(Exec(s, Create(app), now).store) <==> !DropsThenRefuses(s, app)
  {
    var t := CreateApp(s, app, now).store;
    if DropsThenRefuses(s, app) {
      assert app.userId in t.byUser && t.byUser[app.userId] !in t.apps;
    } else if t != s {
      forall u | u in t.byUser
        ensures t.byUser[u] in t.apps && t.apps[t.byUser[u]].userId == u
      {
        if u != app.userId {
          assert u in s.byUser;
        }
      }
    }
  }

  /** Every other call keeps the index exact. */
  lemma OtherCallsKeepNoDangling(s: Store, call: Call, now: Time)
    requires Indexed(s) && NoDangling(s) && !call.Create?
    ensures NoDangling(Exec(s, call, now).store)
  {
    var t := Exec(s, call, now).store;
    assert t.byUser == s.byUser && t.apps.Keys == s.apps.Keys;
    forall u | u in t.byUser
      ensures t.byUser[u] in t.apps && t.apps[t.byUser[u]].userId == u
    {
      assert s.byUser[u] in s.apps;
    }
  }

  /** With an exact index, the lookup by user is a search of all applications: it finds
      the one application of that user, and fails only when there is none. */
  lemma LookupIsSearch(s: Store, userId: string)
    requires Indexed(s) && NoDangling(s)
    ensures forall id | id in s.apps && s.apps[id].userId == userId :: FindByUser(s, userId) == Record(s.apps[id])
    ensures FindByUser(s, userId) == Failed(NotFound) <==>
            !exists id :: id in s.apps && s.apps[id].userId == userId
    ensures FindByUser(s, userId).Record? || FindByUser(s, userId) == Failed(NotFound)
  {
    if userId in s.byUser {
      assert s.byUser[userId] in s.apps && s.apps[s.byUser[userId]].userId == userId;
    }
  }

  // ---- atomic writes ----

  /** The id and version a conditional write names. */
  predicate WritesAt(call: Call, id: string, version: int) {
    (call.UpdateState? && call.id == id && call.version == version)
    || (call.Reopen? && call.id == id && call.version == version)
  }

  /** A call either stores a new record under the id, or leaves the one there as it was, or
      raises its version. */
  lemma ExecRaisesVersion(s: Store, call: Call, now: Time, id: string)
    requires id in Exec(s, call, now).store.apps
    ensures var app := Exec(s, call, now).store.apps[id];
      || (call.Create? && call.app.id == id && app == WithDefaults(call.app, now))
      || (id in s.apps && (app == s.apps[id] || app.version > s.apps[id].version))
  {
  }

  /** Only the id of the user's own decided application can be used again while it is stored,
      and then the version under that id starts over. */
  lemma ReusedIdStartsOver(s: Store, app: Application, now: Time)
    requires app.id in s.apps && app.userId != "" && app.id != "" && app.version == 0
    requires app.userId in s.byUser && s.byUser[app.userId] == app.id && IsTerminal(s.apps[app.id].state)
    ensures var out := Exec(s, Create(app), now);
      out.response.Record? && out.store.apps[app.id].version == 1
  {
  }
}
