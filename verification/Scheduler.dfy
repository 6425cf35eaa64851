/** One pass of the re-KYC scheduler, run with nothing in between. */
module Scheduler {
  import opened StateMachine
  import opened Entities
  import opened Repository
  import opened Audit
  import opened InMemoryRepository

  datatype TickResult = TickResult(store: Store, reopened: nat, events: seq<AuditEvent>)

  /** What reopening one listed application logs: nothing when it fails. */
  function OneReopened(s: Store, d: ReKYCDue, now: Time): seq<AuditEvent> {
    var r := ReopenApp(s, d.id, d.version, "scheduler", now);
    if r.response.Failed? then [] else AsEvents(r.events) + [AuditEvent(d.id, ReKYCScheduled, "scheduler")]
  }

  lemma ReopenLogs(s: Store, d: ReKYCDue, now: Time)
    ensures var r := ReopenApp(s, d.id, d.version, "scheduler", now);
      && (r.response.Failed? || r.response.Record?)
      && (r.response.Failed? ==> AsEvents(r.events) == [] == OneReopened(s, d, now))
      && (r.response.Record? ==>
            OneReopened(s, d, now) == AsEvents(r.events) + [AuditEvent(d.id, ReKYCScheduled, "scheduler")])
  {
  }

  function TickStep(prev: TickResult, d: ReKYCDue, now: Time): TickResult {
    var r := ReopenApp(prev.store, d.id, d.version, "scheduler", now);
    TickResult(r.store, prev.reopened + (if r.response.Failed? then 0 else 1),
               prev.events + OneReopened(prev.store, d, now))
  }

  /** The pass over a list of due applications; `clock` gives the time of each reopening. */
  function Ticked(s: Store, due: seq<ReKYCDue>, clock: nat -> Time): TickResult {
    if due == [] then TickResult(s, 0, [])
    else
      var n := |due| - 1;
      TickStep(Ticked(s, due[..n], clock), due[n], clock(n))
  }

  /** The list names different applications, each decided and at the version it has. */
  ghost predicate Current(s: Store, due: seq<ReKYCDue>) {
    && (forall i | 0 <= i < |due| ::
          due[i].id in s.apps && IsTerminal(s.apps[due[i].id].state) && s.apps[due[i].id].version == due[i].version)
    && forall i, j | 0 <= i < j < |due| :: due[i].id != due[j].id
  }

  predicate Listed(due: seq<ReKYCDue>, id: string) {
    exists i :: 0 <= i < |due| && due[i].id == id
  }

  /** The transition the pass logs for an application on its list. */
  function Reopening(s: Store, d: ReKYCDue): Transition
    requires d.id in s.apps
  {
    Transition(d.id, s.apps[d.id].state, Started, "scheduler", "re-kyc")
  }

  /** What a pass leaves: the listed applications reopened, the others as they were. */
  ghost predicate ReopensListed(s: Store, due: seq<ReKYCDue>, clock: nat -> Time, after: Store) {
    && after.byUser == s.byUser && after.apps.Keys == s.apps.Keys
    && (forall i | 0 <= i < |due| && due[i].id in s.apps ::
          after.apps[due[i].id] == Reopened(s.apps[due[i].id], clock(i)))
    && (forall id | id in s.apps && !Listed(due, id) :: after.apps[id] == s.apps[id])
  }

  lemma ReopensOneMore(s: Store, due: seq<ReKYCDue>, clock: nat -> Time, p: Store)
    requires due != [] && Current(s, due) && !Listed(due[..|due| - 1], due[|due| - 1].id)
    requires ReopensListed(s, due[..|due| - 1], clock, p)
    ensures var n := |due| - 1;
      && p.apps[due[n].id] == s.apps[due[n].id]
      && ReopensListed(s, due, clock, Put(p, due[n].id, Reopened(p.apps[due[n].id], clock(n))))
  {
    CurrentPrefix(s, due);
    var n := |due| - 1;
    var q := Put(p, due[n].id, Reopened(p.apps[due[n].id], clock(n)));
    assert q.apps.Keys == s.apps.Keys;
    forall i | 0 <= i < |due| && due[i].id in s.apps
      ensures q.apps[due[i].id] == Reopened(s.apps[due[i].id], clock(i))
    {
      assert i < n ==> due[..n][i] == due[i];
    }
    forall id | id in s.apps && !Listed(due, id)
      ensures q.apps[id] == s.apps[id]
    {
      assert !Listed(due[..n], id) && id != due[n].id;
    }
  }

  lemma CurrentPrefix(s: Store, due: seq<ReKYCDue>)
    requires due != [] && Current(s, due)
    ensures Current(s, due[..|due| - 1]) && !Listed(due[..|due| - 1], due[|due| - 1].id)
    ensures forall id :: Listed(due, id) <==> Listed(due[..|due| - 1], id) || id == due[|due| - 1].id
  {
    var n := |due| - 1;
    forall id | Listed(due, id) ensures Listed(due[..n], id) || id == due[n].id {
      var i :| 0 <= i < |due| && due[i].id == id;
      assert i < n ==> due[..n][i].id == id;
    }
  }

  lemma {:induction false} TickedReopens(s: Store, due: seq<ReKYCDue>, clock: nat -> Time)
    requires Current(s, due)
    ensures ReopensListed(s, due, clock, Ticked(s, due, clock).store)
    ensures Ticked(s, due, clock).reopened == |due|
  {
    if due != [] {
      var n := |due| - 1;
      CurrentPrefix(s, due);
      TickedReopens(s, due[..n], clock);
      ReopensOneMore(s, due, clock, Ticked(s, due[..n], clock).store);
    }
  }

  /** The pass logs one transition for each application on its list, in that order. */
  lemma {:induction false} TickedLogs(s: Store, due: seq<ReKYCDue>, clock: nat -> Time)
    requires Current(s, due)
    ensures Transitions(Ticked(s, due, clock).events) ==
            seq(|due|, i requires 0 <= i < |due| => Reopening(s, due[i]))
  {
    if due != [] {
      var n := |due| - 1;
      CurrentPrefix(s, due);
      TickedReopens(s, due[..n], clock);
      TickedLogs(s, due[..n], clock);
      var prev := Ticked(s, due[..n], clock);
      assert prev.store.apps[due[n].id] == s.apps[due[n].id];
      OneReopenedLogs(prev.store, due[n], clock(n), prev.events);
      assert Transitions(Ticked(s, due, clock).events) == Transitions(prev.events) + [Reopening(s, due[n])];
    }
  }

  lemma OneReopenedLogs(s: Store, d: ReKYCDue, now: Time, before: seq<AuditEvent>)
    requires d.id in s.apps && s.apps[d.id].version == d.version && IsTerminal(s.apps[d.id].state)
    ensures Transitions(before + OneReopened(s, d, now)) == Transitions(before) + [Reopening(s, d)]
  {
    var note := AuditEvent(d.id, ReKYCScheduled, "scheduler");
    var moved := AsEvents([Reopening(s, d)]);
    LoggedAreReadBack(before, [Reopening(s, d)]);
    OtherEventIsNoTransition(before + moved, note);
    Regroup(before, moved, [note]);
  }

  /** The list is the due set, each application once. */
  ghost predicate NamesDue(s: Store, due: seq<ReKYCDue>, asOf: Time) {
    && (forall d :: d in due <==> d in DueSet(s, asOf))
    && forall i, j | 0 <= i < j < |due| :: due[i].id != due[j].id
  }

  lemma DueIsCurrent(s: Store, due: seq<ReKYCDue>, asOf: Time)
    requires Indexed(s) && NamesDue(s, due, asOf)
    ensures Current(s, due)
    ensures forall id | id in s.apps :: Listed(due, id) <==> IsDue(s.apps[id], asOf)
  {
    forall i | 0 <= i < |due|
      ensures due[i].id in s.apps && IsDue(s.apps[due[i].id], asOf) && s.apps[due[i].id].version == due[i].version
    {
      assert due[i] in DueSet(s, asOf);
    }
    forall id | id in s.apps && IsDue(s.apps[id], asOf) ensures Listed(due, id) {
      assert ReKYCDue(s.apps[id].id, s.apps[id].version) in due;
    }
  }

  lemma {:induction false} SameSize(due: seq<ReKYCDue>, wanted: set<ReKYCDue>)
    requires forall d :: d in due <==> d in wanted
    requires forall i, j | 0 <= i < j < |due| :: due[i].id != due[j].id
    ensures |due| == |wanted|
  {
    if due == [] {
      assert wanted == {};
    } else {
      var n := |due| - 1;
      forall d ensures d in due[..n] <==> d in wanted - {due[n]} {
        if d in due[..n] {
          var i :| 0 <= i < n && due[i] == d;
        }
      }
      SameSize(due[..n], wanted - {due[n]});
    }
  }

  /** Exactly the due applications were reopened, each at some reading of the clock. */
  ghost predicate ReopensDue(s: Store, asOf: Time, after: Store) {
    && after.byUser == s.byUser && after.apps.Keys == s.apps.Keys
    && forall id | id in s.apps ::
         if IsDue(s.apps[id], asOf) then exists t :: after.apps[id] == Reopened(s.apps[id], t)
         else after.apps[id] == s.apps[id]
  }

  /** A pass over the due list reopens exactly the due applications and counts them, and
      no application is due after it. */
  lemma TickReopensExactly(s: Store, due: seq<ReKYCDue>, asOf: Time, clock: nat -> Time)
    requires Indexed(s) && NamesDue(s, due, asOf)
    ensures ReopensDue(s, asOf, Ticked(s, due, clock).store)
    ensures Ticked(s, due, clock).reopened == |DueSet(s, asOf)|
    ensures DueSet(Ticked(s, due, clock).store, asOf) == {}
  {
    DueIsCurrent(s, due, asOf);
    TickedReopens(s, due, clock);
    SameSize(due, DueSet(s, asOf));
    var after := Ticked(s, due, clock).store;
    forall id | id in s.apps && IsDue(s.apps[id], asOf)
      ensures exists t :: after.apps[id] == Reopened(s.apps[id], t)
    {
      var i :| 0 <= i < |due| && due[i].id == id;
      assert after.apps[id] == Reopened(s.apps[id], clock(i));
    }
  }

  /** Where nothing is due a pass finds nothing to do. */
  lemma QuietTick(s: Store, due: seq<ReKYCDue>, asOf: Time, clock: nat -> Time)
    requires DueSet(s, asOf) == {} && NamesDue(s, due, asOf)
    ensures Ticked(s, due, clock) == TickResult(s, 0, [])
  {
    SameSize(due, {});
  }

  /** The scheduler's service object. Its log is the one the repository writes to. */
  class ReKYCService {
    const repo: ApplicationRepository
    const audit: AuditLog

    constructor (repo: ApplicationRepository)
      ensures this.repo == repo && audit == repo.sink
    {
      this.repo := repo;
      audit := repo.sink;
    }

    /** The pass; `due` is the list it worked from. */
    method Tick(asOf: Time, clock: nat -> Time) returns (reopened: nat, ghost due: seq<ReKYCDue>)
      requires repo.Valid() && audit == repo.sink
      modifies repo.apps.Values, audit
      ensures repo.Valid() && repo.apps == old(repo.apps)
      ensures reopened == |DueSet(old(repo.View()), asOf)|
      ensures ReopensDue(old(repo.View()), asOf, repo.View())
      ensures DueSet(repo.View(), asOf) == {}
      ensures NamesDue(old(repo.View()), due, asOf)
      ensures audit.events == old(audit.events) + Ticked(old(repo.View()), due, clock).events
    {
      ghost var before := repo.View();
      var listed := repo.ListDueForReKYC(asOf);
      due := listed;
      TickReopensExactly(before, listed, asOf, clock);
      reopened := ReopenListed(listed, clock);
    }

    method ReopenListed(due: seq<ReKYCDue>, clock: nat -> Time) returns (reopened: nat)
      requires repo.Valid() && audit == repo.sink
      modifies repo.apps.Values, audit
      ensures repo.Valid() && repo.apps == old(repo.apps)
      ensures repo.View() == Ticked(old(repo.View()), due, clock).store
      ensures reopened == Ticked(old(repo.View()), due, clock).reopened
      ensures audit.events == old(audit.events) + Ticked(old(repo.View()), due, clock).events
    {
      ghost var before, logged := repo.View(), audit.events;
      reopened := 0;
      for i := 0 to |due|
        invariant repo.apps == old(repo.apps) && Reached(logged, Ticked(before, due[..i], clock), reopened)
      {
        reopened := ReopenNext(due[i], clock(i), reopened, logged, Ticked(before, due[..i], clock));
        assert due[..i + 1][..i] == due[..i];
      }
      assert due[..|due|] == due;
    }

    /** The pass has come as far as `at`. */
    ghost predicate Reached(logged: seq<AuditEvent>, at: TickResult, reopened: nat)
      reads repo, repo.apps.Values, audit
    {
      && repo.Valid() && audit == repo.sink
      && repo.View() == at.store && reopened == at.reopened && audit.events == logged + at.events
    }

    method ReopenNext(d: ReKYCDue, now: Time, reopened: nat, ghost logged: seq<AuditEvent>, ghost at: TickResult)
      returns (total: nat)
      requires Reached(logged, at, reopened)
      modifies repo.apps.Values, audit
      ensures repo.apps == old(repo.apps) && Reached(logged, TickStep(at, d, now), total)
    {
      Regroup(logged, at.events, OneReopened(at.store, d, now));
      var done := ReopenOne(d, now);
      total := if done then reopened + 1 else reopened;
    }

    method ReopenOne(d: ReKYCDue, now: Time) returns (done: bool)
      requires repo.Valid() && audit == repo.sink
      modifies repo.apps.Values, audit
      ensures repo.Valid() && repo.apps == old(repo.apps)
      ensures repo.View() == old(ReopenApp(repo.View(), d.id, d.version, "scheduler", now).store)
      ensures done == !old(ReopenApp(repo.View(), d.id, d.version, "scheduler", now).response.Failed?)
      ensures audit.events == old(audit.events) + old(OneReopened(repo.View(), d, now))
    {
      ReopenLogs(repo.View(), d, now);
      var reply := repo.Reopen(d.id, d.version, "scheduler", now);
      done := reply.Ok?;
      if done {
        NoteBeside(repo, d.id, ReKYCScheduled, "scheduler");
      }
    }
  }
}
