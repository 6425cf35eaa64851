/** Whole runs of the application store: any sequence of calls, by any callers, in any
    order. What every such run keeps, from the empty store. */
module RepositoryRuns {
  import opened StateMachine
  import opened Entities
  import opened Repository

  datatype TimedCall = TimedCall(call: Call, now: Time)

  /** A store with what happened to it: the transitions logged, each application as it was
      first stored, the ids given to a vendor-id write that took effect, and every id a
      create ever asked for. */
  datatype History = History(
    store: Store,
    events: seq<Transition>,
    births: map<string, Application>,
    vendorWrites: seq<string>,
    issued: set<string>
  )

  const NO_HISTORY := History(EMPTY_STORE, [], map[], [], {})

  function Advance(h: History, c: TimedCall): History {
    var out := Exec(h.store, c.call, c.now);
    History(
      out.store,
      h.events + out.events,
      if c.call.Create? && out.response.Record? then h.births[c.call.app.id := out.response.app] else h.births,
      if c.call.SetVendorApplicantId? && c.call.id in h.store.apps then h.vendorWrites + [c.call.id]
      else h.vendorWrites,
      if c.call.Create? then h.issued + {c.call.app.id} else h.issued
    )
  }

  function Run(calls: seq<TimedCall>): History {
    if calls == [] then NO_HISTORY else Advance(Run(calls[..|calls| - 1]), calls[|calls| - 1])
  }

  function ResponseAt(calls: seq<TimedCall>, i: nat): Response
    requires i < |calls|
  {
    Exec(Run(calls[..i]).store, calls[i].call, calls[i].now).response
  }

  /** No create reuses an id or leaves it empty, as generated ids guarantee. */
  ghost predicate FreshIds(calls: seq<TimedCall>) {
    forall j | 0 <= j < |calls| && calls[j].call.Create? ::
      && calls[j].call.app.id != ""
      && forall i | 0 <= i < j && calls[i].call.Create? :: calls[i].call.app.id != calls[j].call.app.id
  }

  /** The next call may follow history `h`: a create brings an id never asked for before. */
  predicate FreshCall(h: History, call: Call) {
    call.Create? ==> call.app.id != "" && call.app.id !in h.issued
  }

  lemma {:induction false} IssuedAreCreated(calls: seq<TimedCall>, id: string)
    ensures id in Run(calls).issued
       <==> exists i :: 0 <= i < |calls| && calls[i].call.Create? && calls[i].call.app.id == id
  {
    if calls != [] {
      var n := |calls| - 1;
      IssuedAreCreated(calls[..n], id);
      if i :| 0 <= i < |calls| && calls[i].call.Create? && calls[i].call.app.id == id {
        assert i < n ==> calls[..n][i] == calls[i];
      }
      if i :| 0 <= i < n && calls[..n][i].call.Create? && calls[..n][i].call.app.id == id {
        assert calls[i] == calls[..n][i];
      }
      if calls[n].call.Create? && calls[n].call.app.id == id {
        assert calls[n].call.app.id == id;
      }
    }
  }

  /** A fresh run is a fresh shorter run followed by a fresh call, and conversely. */
  lemma FreshSplits(calls: seq<TimedCall>, c: TimedCall)
    ensures FreshIds(calls + [c]) <==> FreshIds(calls) && FreshCall(Run(calls), c.call)
  {
    var all := calls + [c];
    var n := |calls|;
    assert forall i | 0 <= i < n :: all[i] == calls[i];
    if FreshIds(calls) && FreshCall(Run(calls), c.call) && c.call.Create? {
      IssuedAreCreated(calls, c.call.app.id);
    }
    if FreshIds(all) {
      assert FreshIds(calls);
      if c.call.Create? {
        assert all[n].call.app.id != "";
        IssuedAreCreated(calls, c.call.app.id);
      }
    }
  }

  lemma RunSnoc(calls: seq<TimedCall>, c: TimedCall)
    ensures Run(calls + [c]) == Advance(Run(calls), c)
  {
    assert (calls + [c])[..|calls|] == calls;
  }

  // ---- the index, over every run ----

  /** Over every run, reused ids and failed creates included, the store stays indexed;
      so no user ever owns two applications. */
  lemma {:induction false} EveryRunIsIndexed(calls: seq<TimedCall>)
    ensures Indexed(Run(calls).store)
  {
    if calls != [] {
      var n := |calls| - 1;
      EveryRunIsIndexed(calls[..n]);
      ExecKeepsIndexed(Run(calls[..n]).store, calls[n].call, calls[n].now);
    }
  }

  /** Every stored application was created under an id that was asked for. */
  ghost predicate Accounted(h: History) {
    && h.store.apps.Keys <= h.births.Keys
    && h.births.Keys <= h.issued
    && (forall e | e in h.events :: e.appId in h.births)
    && (forall id | id in h.vendorWrites :: id in h.births)
  }

  lemma AdvanceKeepsAccounted(h: History, c: TimedCall)
    requires Accounted(h)
    ensures Accounted(Advance(h, c))
  {
  }

  lemma {:induction false} EveryRunIsAccounted(calls: seq<TimedCall>)
    ensures Accounted(Run(calls))
  {
    if calls != [] {
      var n := |calls| - 1;
      EveryRunIsAccounted(calls[..n]);
      AdvanceKeepsAccounted(Run(calls[..n]), calls[n]);
    }
  }

  lemma FreshPrefix(calls: seq<TimedCall>, n: nat)
    requires FreshIds(calls) && n <= |calls|
    ensures FreshIds(calls[..n])
    ensures n < |calls| ==> FreshCall(Run(calls[..n]), calls[n].call)
  {
    assert forall i | 0 <= i < n :: calls[..n][i] == calls[i];
    if n < |calls| {
      assert calls[..n + 1] == calls[..n] + [calls[n]];
      assert forall i | 0 <= i < n + 1 :: calls[..n + 1][i] == calls[i];
      FreshSplits(calls[..n], calls[n]);
    }
  }

  /** With fresh ids the index is exact after every run, so the lookup by user is a search
      of all applications. */
  lemma {:induction false} FreshRunsNeverDangle(calls: seq<TimedCall>)
    requires FreshIds(calls)
    ensures NoDangling(Run(calls).store)
  {
    if calls != [] {
      var n := |calls| - 1;
      var h := Run(calls[..n]);
      FreshPrefix(calls, n);
      FreshRunsNeverDangle(calls[..n]);
      EveryRunIsIndexed(calls[..n]);
      EveryRunIsAccounted(calls[..n]);
      if calls[n].call.Create? {
        assert !DropsThenRefuses(h.store, calls[n].call.app);
        CreateDanglesExactly(h.store, calls[n].call.app, calls[n].now);
      } else {
        OtherCallsKeepNoDangling(h.store, calls[n].call, calls[n].now);
      }
    }
  }

  lemma FreshLookupIsSearch(calls: seq<TimedCall>, userId: string)
    requires FreshIds(calls)
    ensures var s := Run(calls).store;
      && (forall id | id in s.apps && s.apps[id].userId == userId :: FindByUser(s, userId) == Record(s.apps[id]))
      && (FindByUser(s, userId) == Failed(NotFound) <==> !exists id :: id in s.apps && s.apps[id].userId == userId)
  {
    EveryRunIsIndexed(calls);
    FreshRunsNeverDangle(calls);
    LookupIsSearch(Run(calls).store, userId);
  }

  // ---- versions ----

  /** From `h` to the later `h'`: an application known at `h` either is unchanged, or has a
      higher version, or is gone for good. */
  ghost predicate Evolves(h: History, h': History) {
    && h.issued <= h'.issued
    && h.events <= h'.events
    && forall id | id in h.issued && id in h'.store.apps ::
         && id in h.store.apps
         && (h'.store.apps[id] == h.store.apps[id] || h.store.apps[id].version < h'.store.apps[id].version)
  }

  lemma AdvanceEvolves(h: History, c: TimedCall)
    requires FreshCall(h, c.call)
    ensures Evolves(h, Advance(h, c))
  {
    var h' := Advance(h, c);
    forall id | id in h.issued && id in h'.store.apps
      ensures id in h.store.apps
      ensures h'.store.apps[id] == h.store.apps[id] || h.store.apps[id].version < h'.store.apps[id].version
    {
      assert !(c.call.Create? && c.call.app.id == id);
      ExecRaisesVersion(h.store, c.call, c.now, id);
    }
  }

  lemma EvolvesTransitive(a: History, b: History, c: History)
    requires Evolves(a, b) && Evolves(b, c)
    ensures Evolves(a, c)
  {
  }

  lemma {:induction false} RunsEvolve(calls: seq<TimedCall>, i: nat, j: nat)
    requires FreshIds(calls) && i <= j <= |calls|
    ensures Evolves(Run(calls[..i]), Run(calls[..j]))
    decreases j
  {
    if i < j {
      RunsEvolve(calls, i, j - 1);
      FreshPrefix(calls, j - 1);
      assert calls[..j] == calls[..j - 1] + [calls[j - 1]];
      RunSnoc(calls[..j - 1], calls[j - 1]);
      AdvanceEvolves(Run(calls[..j - 1]), calls[j - 1]);
      EvolvesTransitive(Run(calls[..i]), Run(calls[..j - 1]), Run(calls[..j]));
    }
  }

  /** Over every interleaving of callers: a conditional write that succeeds with the version
      read by an earlier call finds, field for field, the record that was read. */
  lemma WriteSeesWhatWasRead(calls: seq<TimedCall>, i: nat, j: nat, id: string)
    requires FreshIds(calls) && i <= j < |calls|
    requires id in Run(calls[..i]).store.apps
    requires WritesAt(calls[j].call, id, Run(calls[..i]).store.apps[id].version)
    requires ResponseAt(calls, j).Record?
    ensures id in Run(calls[..j]).store.apps
    ensures Run(calls[..j]).store.apps[id] == Run(calls[..i]).store.apps[id]
  {
    RunsEvolve(calls, i, j);
    EveryRunIsAccounted(calls[..i]);
  }

  /** Of all the writes that name the same application and version, at most one succeeds. */
  lemma AtMostOneWriterWins(calls: seq<TimedCall>, i: nat, j: nat, id: string, version: int)
    requires FreshIds(calls) && i < |calls| && j < |calls|
    requires WritesAt(calls[i].call, id, version) && ResponseAt(calls, i).Record?
    requires WritesAt(calls[j].call, id, version) && ResponseAt(calls, j).Record?
    ensures i == j
  {
    if i < j {
      WinnerShutsOut(calls, i, j, id, version);
    } else if j < i {
      WinnerShutsOut(calls, j, i, id, version);
    }
  }

  /** A conditional write that succeeds leaves the next version. */
  lemma SuccessRaisesVersion(s: Store, call: Call, now: Time, id: string, version: int)
    requires WritesAt(call, id, version) && Exec(s, call, now).response.Record?
    ensures id in Exec(s, call, now).store.apps && Exec(s, call, now).store.apps[id].version == version + 1
  {
  }

  lemma OtherVersionIsRefused(s: Store, call: Call, now: Time, id: string, version: int)
    requires WritesAt(call, id, version) && (id in s.apps ==> s.apps[id].version != version)
    ensures Exec(s, call, now).response.Failed?
  {
  }

  lemma WinnerShutsOut(calls: seq<TimedCall>, i: nat, j: nat, id: string, version: int)
    requires FreshIds(calls) && i < j < |calls|
    requires WritesAt(calls[i].call, id, version) && ResponseAt(calls, i).Record?
    requires WritesAt(calls[j].call, id, version)
    ensures ResponseAt(calls, j).Failed?
  {
    var won := Run(calls[..i + 1]);
    assert calls[..i + 1] == calls[..i] + [calls[i]];
    RunSnoc(calls[..i], calls[i]);
    SuccessRaisesVersion(Run(calls[..i]).store, calls[i].call, calls[i].now, id, version);
    EveryRunIsAccounted(calls[..i + 1]);
    assert id in won.issued;
    RunsEvolve(calls, i + 1, j);
    OtherVersionIsRefused(Run(calls[..j]).store, calls[j].call, calls[j].now, id, version);
  }

  /** The log is append-only: an earlier log is a prefix of every later one. */
  lemma {:induction false} LogOnlyGrows(calls: seq<TimedCall>, i: nat, j: nat)
    requires i <= j <= |calls|
    ensures Run(calls[..i]).events <= Run(calls[..j]).events
    decreases j
  {
    if i < j {
      LogOnlyGrows(calls, i, j - 1);
      assert calls[..j] == calls[..j - 1] + [calls[j - 1]];
      RunSnoc(calls[..j - 1], calls[j - 1]);
    }
  }

  // ---- replaying the log ----

  function EventsOf(events: seq<Transition>, id: string): seq<Transition> {
    if events == [] then []
    else
      var front := EventsOf(events[..|events| - 1], id);
      if events[|events| - 1].appId == id then front + [events[|events| - 1]] else front
  }

  lemma EventsOfSnoc(events: seq<Transition>, e: Transition, id: string)
    ensures EventsOf(events + [e], id) == EventsOf(events, id) + (if e.appId == id then [e] else [])
  {
    assert (events + [e])[..|events|] == events;
  }

  /** `events` lead from state `first` to state `last` by legal moves, each starting where
      the previous one ended. */
  ghost predicate Chain(first: State, events: seq<Transition>, last: State) {
    && (forall i | 0 <= i < |events| :: CanTransition(events[i].from, events[i].to))
    && (forall i | 0 < i < |events| :: events[i].from == events[i - 1].to)
    && (if events == [] then first == last else events[0].from == first && events[|events| - 1].to == last)
  }

  lemma ChainSnoc(first: State, events: seq<Transition>, last: State, e: Transition)
    requires Chain(first, events, last) && e.from == last && CanTransition(e.from, e.to)
    ensures Chain(first, events + [e], e.to)
  {
    var more := events + [e];
    assert forall i | 0 <= i < |events| :: more[i] == events[i];
  }

  function CountOf(ids: seq<string>, id: string): nat {
    if ids == [] then 0
    else CountOf(ids[..|ids| - 1], id) + (if ids[|ids| - 1] == id then 1 else 0)
  }

  lemma CountOfSnoc(ids: seq<string>, x: string, id: string)
    ensures CountOf(ids + [x], id) == CountOf(ids, id) + (if x == id then 1 else 0)
  {
    assert (ids + [x])[..|ids|] == ids;
  }

  lemma NothingBeforeBirth(h: History, id: string)
    requires Accounted(h) && id !in h.births
    ensures EventsOf(h.events, id) == []
    ensures CountOf(h.vendorWrites, id) == 0
  {
    NoEvents(h.events, id);
    NoWrites(h.vendorWrites, id);
  }

  lemma {:induction false} NoEvents(events: seq<Transition>, id: string)
    requires forall e | e in events :: e.appId != id
    ensures EventsOf(events, id) == []
  {
    if events != [] {
      NoEvents(events[..|events| - 1], id);
    }
  }

  lemma {:induction false} NoWrites(ids: seq<string>, id: string)
    requires id !in ids
    ensures CountOf(ids, id) == 0
  {
    if ids != [] {
      NoWrites(ids[..|ids| - 1], id);
    }
  }

  /** The log and the store agree about one live application. */
  ghost predicate Replays(h: History, id: string)
    requires id in h.store.apps
  {
    && id in h.births
    && Chain(h.births[id].state, EventsOf(h.events, id), h.store.apps[id].state)
    && h.store.apps[id].version
       == h.births[id].version + |EventsOf(h.events, id)| + CountOf(h.vendorWrites, id)
  }

  lemma NewbornReplays(h: History, c: TimedCall, id: string)
    requires Accounted(h) && FreshCall(h, c.call) && id in Advance(h, c).store.apps
    requires id !in h.store.apps
    ensures Replays(Advance(h, c), id)
  {
    assert c.call.Create? && id == c.call.app.id;
    NothingBeforeBirth(h, id);
    assert Advance(h, c).events == h.events;
  }

  lemma MoveKeepsReplay(h: History, c: TimedCall, id: string, e: Transition)
    requires Accounted(h) && id in h.store.apps && Replays(h, id)
    requires Exec(h.store, c.call, c.now).events == [e]
    ensures id in Advance(h, c).store.apps && Replays(Advance(h, c), id)
  {
    assert Advance(h, c).events == h.events + [e];
    assert CanTransition(e.from, e.to);
    EventsOfSnoc(h.events, e, id);
    if e.appId == id {
      ChainSnoc(h.births[id].state, EventsOf(h.events, id), h.store.apps[id].state, e);
    }
  }

  lemma SilentCallKeepsReplay(h: History, c: TimedCall, id: string)
    requires FreshCall(h, c.call) && Accounted(h) && id in h.store.apps && Replays(h, id)
    requires id in Advance(h, c).store.apps
    requires Exec(h.store, c.call, c.now).events == []
    ensures Replays(Advance(h, c), id)
  {
    var h' := Advance(h, c);
    assert h'.events == h.events;
    SilentCallCounts(h, c, id);
    assert Chain(h.births[id].state, EventsOf(h.events, id), h.store.apps[id].state);
  }

  /** A call that logs nothing keeps a live application's birth and state, and raises its
      version exactly by the vendor-id writes it adds. */
  lemma SilentCallCounts(h: History, c: TimedCall, id: string)
    requires FreshCall(h, c.call) && Accounted(h) && id in h.store.apps && id in Advance(h, c).store.apps
    requires Exec(h.store, c.call, c.now).events == [] && id in h.births
    ensures var h' := Advance(h, c);
      && id in h'.births && h'.births[id] == h.births[id]
      && h'.store.apps[id].state == h.store.apps[id].state
      && h'.store.apps[id].version - CountOf(h'.vendorWrites, id)
         == h.store.apps[id].version - CountOf(h.vendorWrites, id)
  {
    if c.call.SetVendorApplicantId? && c.call.id in h.store.apps {
      CountOfSnoc(h.vendorWrites, c.call.id, id);
    } else {
      assert Advance(h, c).store.apps[id] == h.store.apps[id];
    }
  }

  lemma AdvanceKeepsReplay(h: History, c: TimedCall, id: string)
    requires Accounted(h) && FreshCall(h, c.call) && id in Advance(h, c).store.apps
    requires id in h.store.apps ==> Replays(h, id)
    ensures Replays(Advance(h, c), id)
  {
    var events := Exec(h.store, c.call, c.now).events;
    if id !in h.store.apps {
      NewbornReplays(h, c, id);
    } else if events == [] {
      SilentCallKeepsReplay(h, c, id);
    } else {
      assert events == [events[0]];
      MoveKeepsReplay(h, c, id, events[0]);
    }
  }

  /** Replaying the log rebuilds the store: in every reachable state each live application's
      logged transitions chain by legal moves from the state it was created in to its state
      now, and its version counts them together with its vendor-id writes. */
  lemma {:induction false} ReplayRebuilds(calls: seq<TimedCall>, id: string)
    requires FreshIds(calls) && id in Run(calls).store.apps
    ensures Replays(Run(calls), id)
  {
    if calls != [] {
      var n := |calls| - 1;
      FreshPrefix(calls, n);
      EveryRunIsAccounted(calls[..n]);
      if id in Run(calls[..n]).store.apps {
        ReplayRebuilds(calls[..n], id);
      }
      AdvanceKeepsReplay(Run(calls[..n]), calls[n], id);
    }
  }

  /** The log of each application, dropped ones included, consists of legal moves, each
      starting where the previous one ended. */
  lemma {:induction false} EveryLogIsLegal(calls: seq<TimedCall>, id: string)
    requires FreshIds(calls)
    ensures Linked(EventsOf(Run(calls).events, id))
  {
    if calls != [] {
      var n := |calls| - 1;
      var h := Run(calls[..n]);
      FreshPrefix(calls, n);
      EveryLogIsLegal(calls[..n], id);
      LinkedByCall(h, calls[n], id) by {
        EveryRunIsAccounted(calls[..n]);
        if id in h.store.apps {
          ReplayRebuilds(calls[..n], id);
        }
      }
    }
  }

  ghost predicate Linked(events: seq<Transition>) {
    && (forall i | 0 <= i < |events| :: CanTransition(events[i].from, events[i].to))
    && (forall i | 0 < i < |events| :: events[i].from == events[i - 1].to)
  }

  lemma LinkedSnoc(first: State, events: seq<Transition>, last: State, e: Transition)
    requires Chain(first, events, last) && e.from == last && CanTransition(e.from, e.to)
    ensures Linked(events + [e])
  {
    ChainSnoc(first, events, last, e);
  }

  lemma LinkedByCall(h: History, c: TimedCall, id: string)
    requires Linked(EventsOf(h.events, id)) && (id in h.store.apps ==> Replays(h, id))
    ensures Linked(EventsOf(Advance(h, c).events, id))
  {
    var events := Exec(h.store, c.call, c.now).events;
    CallMovesLive(h.store, c.call, c.now);
    if events == [] {
      assert h.events + events == h.events;
    } else {
      EventsOfSnoc(h.events, events[0], id);
      if events[0].appId == id {
        LinkedSnoc(h.births[id].state, EventsOf(h.events, id), h.store.apps[id].state, events[0]);
      }
    }
  }

  /** A call logs at most one transition, a legal one of a stored application. */
  lemma CallMovesLive(s: Store, call: Call, now: Time)
    ensures var events := Exec(s, call, now).events;
      events == [] || (events == [events[0]] && CanTransition(events[0].from, events[0].to)
                       && events[0].appId in s.apps && s.apps[events[0].appId].state == events[0].from)
  {
  }

  /** For an application created as the handler does (no version of its own), the version is
      one plus its transitions plus its vendor-id writes. */
  lemma VersionCountsChanges(calls: seq<TimedCall>, k: nat, id: string)
    requires FreshIds(calls) && k < |calls|
    requires calls[k].call.Create? && calls[k].call.app.id == id && calls[k].call.app.version == 0
    requires id in Run(calls).store.apps
    ensures Run(calls).store.apps[id].version
            == 1 + |EventsOf(Run(calls).events, id)| + CountOf(Run(calls).vendorWrites, id)
  {
    ReplayRebuilds(calls, id);
    BirthIsItsCreate(calls, k, id);
  }

  lemma {:induction false} BirthIsItsCreate(calls: seq<TimedCall>, k: nat, id: string)
    requires FreshIds(calls) && k < |calls| && calls[k].call.Create? && calls[k].call.app.id == id
    requires id in Run(calls).births
    ensures Run(calls).births[id] == WithDefaults(calls[k].call.app, calls[k].now)
  {
    var n := |calls| - 1;
    FreshPrefix(calls, n);
    if k < n {
      assert calls[..n][k] == calls[k];
      assert !(calls[n].call.Create? && calls[n].call.app.id == id);
      BirthIsItsCreate(calls[..n], k, id);
    } else {
      EveryRunIsAccounted(calls[..n]);
    }
  }

  // ---- how long a run can be ----

  function Reopenings(events: seq<Transition>): nat {
    if events == [] then 0
    else Reopenings(events[..|events| - 1]) + (if events[|events| - 1].to == Started then 1 else 0)
  }

  lemma {:induction false} ChainLength(events: seq<Transition>, last: State)
    requires Chain(Started, events, last)
    ensures 5 * Reopenings(events) + FewestMoves(last) <= |events| <= 7 * Reopenings(events) + MostMoves(last)
  {
    if events != [] {
      var n := |events| - 1;
      var front := events[..n];
      assert forall i | 0 <= i < n :: front[i] == events[i];
      assert Chain(Started, front, events[n].from);
      ChainLength(front, events[n].from);
    }
  }

  /** An application created in Started, with k re-openings and n logged transitions, has
      5k <= n <= 7k + 6, and n >= 5k + 4 once it is decided. */
  lemma RunLengthBounds(calls: seq<TimedCall>, id: string)
    requires FreshIds(calls) && id in Run(calls).store.apps
    requires id in Run(calls).births && Run(calls).births[id].state == Started
    ensures var h := Run(calls);
      var n := |EventsOf(h.events, id)|;
      var k := Reopenings(EventsOf(h.events, id));
      && 5 * k <= n <= 7 * k + 6
      && (IsTerminal(h.store.apps[id].state) ==> 5 * k + 4 <= n)
  {
    ReplayRebuilds(calls, id);
    ChainLength(EventsOf(Run(calls).events, id), Run(calls).store.apps[id].state);
  }

  // ---- what fresh ids are needed for ----

  function NewApp(id: string, userId: string, state: State): Application {
    Application(id, userId, "", "", state, 0, 0, 0, 0, 0, 0)
  }

  /** Without fresh ids the lookup by user can find another user's application: a create
      that drops a decided application and then refuses the id it was given leaves an
      entry behind, and a later create may take that id. */
  lemma ReusedIdsMisleadLookup(a: string, b: string, u: string, v: string, w: string)
    requires a != "" && b != "" && a != b
    requires u != "" && v != "" && w != "" && u != v && v != w && u != w
    ensures var calls := [
        TimedCall(Create(NewApp(a, u, Pass)), 1), TimedCall(Create(NewApp(b, v, Started)), 1),
        TimedCall(Create(NewApp(b, u, Started)), 1), TimedCall(Create(NewApp(a, w, Started)), 1)];
      var found := FindByUser(Run(calls).store, u);
      ResponseAt(calls, 2) == Failed(Duplicate) && found.Record? && found.app.userId == w
  {
    var c0 := TimedCall(Create(NewApp(a, u, Pass)), 1);
    var c1 := TimedCall(Create(NewApp(b, v, Started)), 1);
    var c2 := TimedCall(Create(NewApp(b, u, Started)), 1);
    var c3 := TimedCall(Create(NewApp(a, w, Started)), 1);
    var appA := WithDefaults(NewApp(a, u, Pass), 1);
    var appB := WithDefaults(NewApp(b, v, Started), 1);
    var s2 := Store(map[a := appA, b := appB], map[u := a, v := b]);
    var s3 := Store(map[b := appB], map[u := a, v := b]);
    assert Exec(EMPTY_STORE, c0.call, 1).store == Store(map[a := appA], map[u := a]);
    assert Exec(Store(map[a := appA], map[u := a]), c1.call, 1).store == s2;
    assert Exec(s2, c2.call, 1) == Outcome(s3, Failed(Duplicate), []) by {
      assert DropFiled(s2, u) == s3;
    }
    var found := FindByUser(Exec(s3, c3.call, 1).store, u);
    assert found.Record? && found.app.userId == w;
    RunOfFour(c0, c1, c2, c3);
  }

  lemma RunOfFour(c0: TimedCall, c1: TimedCall, c2: TimedCall, c3: TimedCall)
    ensures var calls := [c0, c1, c2, c3];
      var s1 := Exec(EMPTY_STORE, c0.call, c0.now).store;
      var s2 := Exec(s1, c1.call, c1.now).store;
      var s3 := Exec(s2, c2.call, c2.now).store;
      && Run(calls[..2]).store == s2
      && Run(calls).store == Exec(s3, c3.call, c3.now).store
  {
    var calls := [c0, c1, c2, c3];
    assert calls[..0] == [] && calls[..1] == calls[..0] + [c0] && calls[..2] == calls[..1] + [c1];
    assert calls[..3] == calls[..2] + [c2] && calls == calls[..3] + [c3];
    RunSnoc(calls[..0], c0);
    RunSnoc(calls[..1], c1);
    RunSnoc(calls[..2], c2);
    RunSnoc(calls[..3], c3);
  }
}
