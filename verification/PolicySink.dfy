/** Delivery of events to the policy engine: a synchronous post, a bounded queue behind it,
    and one drainer that retries. Publishers, drainer and stop interleave freely. */
module PolicySink {
  import opened Int64

  /** Events are named by the order in which they were published. */
  type Event = nat

  const MAX_ATTEMPTS: nat := 5

  /** Where the drainer stands. The backoff is in seconds. */
  datatype Drainer =
    | Listening
    | Posting(event: Event, attempt: nat, backoff: nat)
    | BackingOff(event: Event, attempt: nat, backoff: nat)
    | Stopped

  datatype Fate = Delivered | Exhausted | Lost

  /** The sink: how many events were published; those a publisher is still posting; those
      acknowledged at once; the queue; the drainer; what the drainer is done with, in
      order, and how each ended; those dropped on a full queue. `posts` and `enqueued` are
      its history. */
  datatype Sink = Sink(
    capacity: nat,
    published: nat,
    posting: multiset<Event>,
    acknowledged: multiset<Event>,
    queue: seq<Event>,
    drainer: Drainer,
    finished: seq<Event>,
    fates: seq<Fate>,
    dropped: multiset<Event>,
    stopping: bool,
    posts: multiset<Event>,
    enqueued: seq<Event>
  )

  function NewSink(capacity: nat): Sink {
    Sink(capacity, 0, multiset{}, multiset{}, [], Listening, [], [], multiset{}, false, multiset{}, [])
  }

  datatype Action =
    | Publish
    | PostReturns(event: Event, ok: bool)
    | Take
    | AttemptReturns(ok: bool)
    | Retry
    | Stop
    | Quit

  /** The synchronous post of an event came back without an error. */
  function PostSucceeds(s: Sink, e: Event): Sink {
    s.(posting := s.posting - multiset{e}, posts := s.posts + multiset{e}, acknowledged := s.acknowledged + multiset{e})
  }

  function Enqueue(s: Sink, e: Event): Sink {
    s.(posting := s.posting - multiset{e}, posts := s.posts + multiset{e},
       queue := s.queue + [e], enqueued := s.enqueued + [e])
  }

  function DropEvent(s: Sink, e: Event): Sink {
    s.(posting := s.posting - multiset{e}, posts := s.posts + multiset{e}, dropped := s.dropped + multiset{e})
  }

  /** It failed: the event goes to the queue, or is dropped if the queue is full. */
  function PostFails(s: Sink, e: Event): Sink {
    if |s.queue| < s.capacity then Enqueue(s, e) else DropEvent(s, e)
  }

  /** The drainer is done with the event it holds. */
  function Finish(s: Sink, fate: Fate, next: Drainer): Sink
    requires s.drainer.Posting? || s.drainer.BackingOff?
  {
    s.(finished := s.finished + [s.drainer.event], fates := s.fates + [fate], drainer := next)
  }

  function TakeHead(s: Sink): Sink
    requires s.queue != []
  {
    s.(queue := s.queue[1..], drainer := Posting(s.queue[0], 1, 1))
  }

  function AttemptEnds(s: Sink, ok: bool): Sink
    requires s.drainer.Posting?
  {
    var t := s.(posts := s.posts + multiset{s.drainer.event});
    if ok then Finish(t, Delivered, Listening)
    else if s.drainer.attempt >= MAX_ATTEMPTS then Finish(t, Exhausted, Listening)
    else t.(drainer := BackingOff(s.drainer.event, s.drainer.attempt, s.drainer.backoff))
  }

  /** What an action does; one that is not possible does nothing. Once stopping, the drainer
      may still take an event instead of quitting: the choice is not the program's. */
  function Step(s: Sink, a: Action): Sink {
    match a
    case Publish => s.(published := s.published + 1, posting := s.posting + multiset{s.published})
    case PostReturns(e, ok) => if e !in s.posting then s else if ok then PostSucceeds(s, e) else PostFails(s, e)
    case Take => if s.drainer.Listening? && s.queue != [] then TakeHead(s) else s
    case AttemptReturns(ok) => if s.drainer.Posting? then AttemptEnds(s, ok) else s
    case Retry =>
      if s.drainer.BackingOff?
      then s.(drainer := Posting(s.drainer.event, s.drainer.attempt + 1, 2 * s.drainer.backoff))
      else s
    case Stop => s.(stopping := true)
    case Quit =>
      if s.stopping && s.drainer.Listening? then s.(drainer := Stopped)
      else if s.stopping && s.drainer.BackingOff? then Finish(s, Lost, Stopped)
      else s
  }

  function Run(s: Sink, actions: seq<Action>): Sink {
    if actions == [] then s else Step(Run(s, actions[..|actions| - 1]), actions[|actions| - 1])
  }

  // ---- conservation ----

  function InFlight(d: Drainer): seq<Event> {
    if d.Posting? || d.BackingOff? then [d.event] else []
  }

  /** In how many places an event is, all places counted. */
  function Places(s: Sink, e: Event): nat {
    s.posting[e] + s.acknowledged[e] + s.dropped[e]
    + multiset(s.queue)[e] + multiset(InFlight(s.drainer))[e] + multiset(s.finished)[e]
  }

  /** Every published event is in exactly one place, once; nothing else is anywhere. */
  ghost predicate Conserved(s: Sink) {
    forall e: Event :: Places(s, e) == if e < s.published then 1 else 0
  }

  /** The drainer works through the queue in the order of arrival. */
  ghost predicate InOrder(s: Sink) {
    |s.fates| == |s.finished| && s.finished + InFlight(s.drainer) + s.queue == s.enqueued
  }

  lemma CountSnoc(xs: seq<Event>, x: Event, e: Event)
    ensures multiset(xs + [x])[e] == multiset(xs)[e] + (if x == e then 1 else 0)
  {
  }

  lemma CountHead(xs: seq<Event>, e: Event)
    requires xs != []
    ensures multiset(xs)[e] == (if xs[0] == e then 1 else 0) + multiset(xs[1..])[e]
  {
    assert xs == [xs[0]] + xs[1..];
  }

  lemma PostPlaces(s: Sink, x: Event, e: Event)
    requires x in s.posting
    ensures Places(PostSucceeds(s, x), e) == Places(s, e)
    ensures Places(PostFails(s, x), e) == Places(s, e)
  {
    EnqueuePlaces(s, x, e);
    DropPlaces(s, x, e);
  }

  lemma EnqueuePlaces(s: Sink, x: Event, e: Event)
    requires x in s.posting
    ensures Places(Enqueue(s, x), e) == Places(s, e)
  {
    CountSnoc(s.queue, x, e);
  }

  lemma DropPlaces(s: Sink, x: Event, e: Event)
    requires x in s.posting
    ensures Places(DropEvent(s, x), e) == Places(s, e)
  {
  }

  lemma FinishPlaces(s: Sink, fate: Fate, next: Drainer, e: Event)
    requires (s.drainer.Posting? || s.drainer.BackingOff?) && InFlight(next) == []
    ensures Places(Finish(s, fate, next), e) == Places(s, e)
  {
    CountSnoc(s.finished, s.drainer.event, e);
  }

  lemma TakePlaces(s: Sink, e: Event)
    requires s.queue != [] && s.drainer.Listening?
    ensures Places(TakeHead(s), e) == Places(s, e)
  {
    CountHead(s.queue, e);
  }

  lemma AttemptPlaces(s: Sink, ok: bool, e: Event)
    requires s.drainer.Posting?
    ensures Places(AttemptEnds(s, ok), e) == Places(s, e)
  {
    var t := s.(posts := s.posts + multiset{s.drainer.event});
    assert Places(t, e) == Places(s, e);
    FinishPlaces(t, Delivered, Listening, e);
    FinishPlaces(t, Exhausted, Listening, e);
  }

  lemma AnswerPlaces(s: Sink, x: Event, ok: bool, e: Event)
    ensures Places(Step(s, PostReturns(x, ok)), e) == Places(s, e)
  {
    if x in s.posting {
      PostPlaces(s, x, e);
    }
  }

  lemma StepPlaces(s: Sink, a: Action, e: Event)
    ensures Places(Step(s, a), e) == Places(s, e) + (if a.Publish? && e == s.published then 1 else 0)
  {
    match a
    case Publish =>
    case PostReturns(x, ok) => AnswerPlaces(s, x, ok, e);
    case Take =>
      if s.drainer.Listening? && s.queue != [] {
        TakePlaces(s, e);
      }
    case AttemptReturns(ok) =>
      if s.drainer.Posting? {
        AttemptPlaces(s, ok, e);
      }
    case Retry =>
    case Stop =>
    case Quit =>
      if s.drainer.BackingOff? {
        FinishPlaces(s, Lost, Stopped, e);
      }
  }

  lemma OnlyPublishCounts(s: Sink, a: Action)
    ensures Step(s, a).published == s.published + (if a.Publish? then 1 else 0)
  {
  }

  lemma StepConserves(s: Sink, a: Action)
    requires Conserved(s)
    ensures Conserved(Step(s, a))
  {
    OnlyPublishCounts(s, a);
    var t := Step(s, a);
    forall e: Event
      ensures Places(t, e) == if e < t.published then 1 else 0
    {
      StepPlaces(s, a, e);
    }
  }

  lemma AnswerKeepsOrder(s: Sink, e: Event, ok: bool)
    requires InOrder(s)
    ensures InOrder(Step(s, PostReturns(e, ok)))
  {
    assert s.finished + InFlight(s.drainer) + (s.queue + [e]) == s.finished + InFlight(s.drainer) + s.queue + [e];
  }

  lemma TakeKeepsOrder(s: Sink)
    requires InOrder(s) && s.drainer.Listening? && s.queue != []
    ensures InOrder(TakeHead(s))
  {
    assert s.queue == [s.queue[0]] + s.queue[1..];
    assert s.finished + [s.queue[0]] + s.queue[1..] == s.finished + [] + s.queue;
  }

  lemma FinishKeepsOrder(s: Sink, fate: Fate, next: Drainer)
    requires InOrder(s) && (s.drainer.Posting? || s.drainer.BackingOff?) && InFlight(next) == []
    ensures InOrder(Finish(s, fate, next))
  {
    assert s.finished + [s.drainer.event] + [] + s.queue == s.finished + [s.drainer.event] + s.queue;
  }

  lemma AttemptKeepsOrder(s: Sink, ok: bool)
    requires InOrder(s) && s.drainer.Posting?
    ensures InOrder(AttemptEnds(s, ok))
  {
    var t := s.(posts := s.posts + multiset{s.drainer.event});
    FinishKeepsOrder(t, Delivered, Listening);
    FinishKeepsOrder(t, Exhausted, Listening);
  }

  lemma StepKeepsOrder(s: Sink, a: Action)
    requires InOrder(s)
    ensures InOrder(Step(s, a))
  {
    match a
    case PostReturns(e, ok) => AnswerKeepsOrder(s, e, ok);
    case Take =>
      if s.drainer.Listening? && s.queue != [] {
        TakeKeepsOrder(s);
      }
    case AttemptReturns(ok) =>
      if s.drainer.Posting? {
        AttemptKeepsOrder(s, ok);
      }
    case Quit =>
      if s.drainer.BackingOff? {
        FinishKeepsOrder(s, Lost, Stopped);
      }
    case _ =>
  }

  predicate IsDrainerAction(a: Action) {
    a.Take? || a.AttemptReturns? || a.Retry?
  }

  // ---- posts ----

  /** The stage an event has reached fixes how often it has been posted: once by its
      publisher, then at most five times by the drainer. */
  ghost predicate PostsOk(s: Sink) {
    && (forall e | e in s.posting || e >= s.published :: s.posts[e] == 0)
    && (forall e | e in s.acknowledged || e in s.dropped || e in s.queue :: s.posts[e] == 1)
    && (s.drainer.Posting? ==>
          1 <= s.drainer.attempt <= MAX_ATTEMPTS && s.posts[s.drainer.event] == s.drainer.attempt)
    && (s.drainer.BackingOff? ==>
          1 <= s.drainer.attempt < MAX_ATTEMPTS && s.posts[s.drainer.event] == s.drainer.attempt + 1)
    && |s.fates| == |s.finished|
    && (forall i | 0 <= i < |s.finished| :: FateOk(s.posts[s.finished[i]], s.fates[i]))
  }

  /** How often an event the drainer is done with has been posted. */
  predicate FateOk(posts: nat, fate: Fate) {
    match fate
    case Delivered => 2 <= posts <= MAX_ATTEMPTS + 1
    case Exhausted => posts == MAX_ATTEMPTS + 1
    case Lost => 2 <= posts <= MAX_ATTEMPTS
  }

  /** An event that is still being posted, or that the drainer holds, is nowhere else. */
  lemma HeldOnce(s: Sink, e: Event)
    requires Conserved(s) && (e in s.posting || e in InFlight(s.drainer))
    ensures e < s.published && s.posting[e] <= 1
    ensures e !in s.acknowledged && e !in s.dropped && e !in s.queue && e !in s.finished
    ensures e in s.posting ==> e !in InFlight(s.drainer)
  {
    assert Places(s, e) == if e < s.published then 1 else 0;
    assert e in InFlight(s.drainer) ==> e in multiset(InFlight(s.drainer));
    assert e in s.queue ==> e in multiset(s.queue);
    assert e in s.finished ==> e in multiset(s.finished);
  }

  lemma PostSucceedsKeepsPosts(s: Sink, e: Event)
    requires Conserved(s) && PostsOk(s) && e in s.posting
    ensures PostsOk(PostSucceeds(s, e))
  {
    HeldOnce(s, e);
    assert InFlight(s.drainer) != [] ==> s.drainer.event in InFlight(s.drainer);
    assert forall i | 0 <= i < |s.finished| :: s.finished[i] in s.finished;
  }

  lemma EnqueueKeepsPosts(s: Sink, e: Event)
    requires Conserved(s) && PostsOk(s) && e in s.posting
    ensures PostsOk(Enqueue(s, e))
  {
    HeldOnce(s, e);
    assert InFlight(s.drainer) != [] ==> s.drainer.event in InFlight(s.drainer);
    assert forall i | 0 <= i < |s.finished| :: s.finished[i] in s.finished;
  }

  lemma DropKeepsPosts(s: Sink, e: Event)
    requires Conserved(s) && PostsOk(s) && e in s.posting
    ensures PostsOk(DropEvent(s, e))
  {
    HeldOnce(s, e);
    assert InFlight(s.drainer) != [] ==> s.drainer.event in InFlight(s.drainer);
    assert forall i | 0 <= i < |s.finished| :: s.finished[i] in s.finished;
  }

  lemma PostReturnKeepsPosts(s: Sink, e: Event, ok: bool)
    requires Conserved(s) && PostsOk(s) && e in s.posting
    ensures PostsOk(if ok then PostSucceeds(s, e) else PostFails(s, e))
  {
    if ok {
      PostSucceedsKeepsPosts(s, e);
    } else if |s.queue| < s.capacity {
      EnqueueKeepsPosts(s, e);
    } else {
      DropKeepsPosts(s, e);
    }
  }

  lemma AttemptKeepsPosts(s: Sink, ok: bool)
    requires Conserved(s) && PostsOk(s) && s.drainer.Posting?
    ensures PostsOk(Step(s, AttemptReturns(ok)))
  {
    assert InFlight(s.drainer) == [s.drainer.event];
    HeldOnce(s, s.drainer.event);
    assert forall i | 0 <= i < |s.finished| :: s.finished[i] in s.finished;
  }

  lemma PublishKeepsPosts(s: Sink)
    requires Conserved(s) && PostsOk(s)
    ensures PostsOk(Step(s, Publish))
  {
  }

  lemma StepKeepsPosts(s: Sink, a: Action)
    requires Conserved(s) && PostsOk(s)
    ensures PostsOk(Step(s, a))
  {
    match a
    case Publish => PublishKeepsPosts(s);
    case PostReturns(e, ok) =>
      if e in s.posting {
        PostReturnKeepsPosts(s, e, ok);
      }
    case AttemptReturns(ok) =>
      if s.drainer.Posting? {
        AttemptKeepsPosts(s, ok);
      }
    case _ =>
  }

  // ---- every run ----

  ghost predicate SinkOk(s: Sink) {
    Conserved(s) && InOrder(s) && PostsOk(s) && BoundsOk(s)
  }

  /** The queue fits its channel, the backoff doubles, and only a stop loses an event. */
  ghost predicate BoundsOk(s: Sink) {
    && |s.queue| <= s.capacity
    && (s.drainer.Posting? || s.drainer.BackingOff? ==> s.drainer.backoff == Doubled(s.drainer.attempt))
    && (s.drainer.Stopped? || Lost in s.fates ==> s.stopping)
  }

  /** The backoff before the next attempt: a second, doubled each time. */
  function Doubled(attempt: nat): nat {
    if attempt <= 1 then 1 else 2 * Doubled(attempt - 1)
  }

  /** The first `n` waits between attempts. */
  function Backoffs(n: nat): seq<nat> {
    if n == 0 then [] else Backoffs(n - 1) + [Doubled(n)]
  }

  lemma {:induction false} DoubledIsPower(attempt: nat)
    requires attempt >= 1
    ensures Doubled(attempt) == Pow2(attempt - 1)
  {
    if attempt > 1 {
      DoubledIsPower(attempt - 1);
    }
  }

  /** The waits double: the first is one second, and wait i lasts 2^i seconds. */
  lemma {:induction false} WaitsDouble(n: nat)
    ensures |Backoffs(n)| == n
    ensures n > 0 ==> Backoffs(n)[0] == 1
    ensures forall i | 0 <= i < n :: Backoffs(n)[i] == Pow2(i)
    ensures forall i | 0 < i < n :: Backoffs(n)[i] == 2 * Backoffs(n)[i - 1]
  {
    if n > 0 {
      WaitsDouble(n - 1);
      DoubledIsPower(n);
      assert n > 1 ==> Pow2(n - 1) == 2 * Pow2(n - 2);
    }
  }

  lemma StepKeepsBounds(s: Sink, a: Action)
    requires BoundsOk(s) && PostsOk(s)
    ensures BoundsOk(Step(s, a)) && Step(s, a).capacity == s.capacity
  {
  }

  lemma NewSinkIsOk(capacity: nat)
    ensures SinkOk(NewSink(capacity))
  {
  }

  lemma StepKeepsOk(s: Sink, a: Action)
    requires SinkOk(s)
    ensures SinkOk(Step(s, a)) && Step(s, a).capacity == s.capacity
  {
    StepConserves(s, a);
    StepKeepsOrder(s, a);
    StepKeepsPosts(s, a);
    StepKeepsBounds(s, a);
  }

  lemma {:induction false} RunKeepsOk(s: Sink, actions: seq<Action>)
    requires SinkOk(s)
    ensures SinkOk(Run(s, actions)) && Run(s, actions).capacity == s.capacity
  {
    if actions != [] {
      var n := |actions| - 1;
      RunKeepsOk(s, actions[..n]);
      StepKeepsOk(Run(s, actions[..n]), actions[n]);
    }
  }

  lemma EveryRunIsOk(capacity: nat, actions: seq<Action>)
    ensures SinkOk(Run(NewSink(capacity), actions))
    ensures Run(NewSink(capacity), actions).capacity == capacity
  {
    NewSinkIsOk(capacity);
    RunKeepsOk(NewSink(capacity), actions);
  }

  /** In every run, the drainer that waits after attempt k waits 2^(k-1) seconds, as the loop
      does, and only after the first four. */
  lemma MachineWaitsAlike(capacity: nat, actions: seq<Action>)
    ensures var d := Run(NewSink(capacity), actions).drainer;
      d.BackingOff? ==> 1 <= d.attempt <= 4 && d.backoff == Pow2(d.attempt - 1)
  {
    EveryRunIsOk(capacity, actions);
    var d := Run(NewSink(capacity), actions).drainer;
    if d.BackingOff? {
      DoubledIsPower(d.attempt);
    }
  }

  datatype Place =
    | BeingPosted
    | AcknowledgedAtOnce
    | DroppedOnFullQueue
    | Queued
    | WithDrainer
    | AcknowledgedLater
    | DroppedAfterRetries
    | AbandonedInBackoff

  ghost predicate IsAt(s: Sink, e: Event, p: Place) {
    match p
    case BeingPosted => e in s.posting
    case AcknowledgedAtOnce => e in s.acknowledged
    case DroppedOnFullQueue => e in s.dropped
    case Queued => e in s.queue
    case WithDrainer => e in InFlight(s.drainer)
    case AcknowledgedLater => EndedAs(s, e, Delivered)
    case DroppedAfterRetries => EndedAs(s, e, Exhausted)
    case AbandonedInBackoff => EndedAs(s, e, Lost)
  }

  ghost predicate EndedAs(s: Sink, e: Event, fate: Fate) {
    exists i :: 0 <= i < |s.finished| && i < |s.fates| && s.finished[i] == e && s.fates[i] == fate
  }

  lemma TwiceCounts(xs: seq<Event>, i: nat, j: nat)
    requires i < j < |xs| && xs[i] == xs[j]
    ensures multiset(xs)[xs[i]] >= 2
  {
    assert xs == xs[..j] + xs[j..];
    assert xs[..j][i] in multiset(xs[..j]) && xs[j..][0] in multiset(xs[j..]);
  }

  /** An event the drainer is done with ended once, and is nowhere else. */
  lemma FinishedOnce(s: Sink, e: Event, i: nat)
    requires Conserved(s) && i < |s.finished| && s.finished[i] == e
    ensures forall j | 0 <= j < |s.finished| && s.finished[j] == e :: j == i
    ensures e !in s.posting && e !in s.acknowledged && e !in s.dropped && e !in s.queue && e !in InFlight(s.drainer)
  {
    assert Places(s, e) == if e < s.published then 1 else 0;
    assert e in multiset(s.finished);
    forall j | 0 <= j < |s.finished| && s.finished[j] == e
      ensures j == i
    {
      if j < i {
        TwiceCounts(s.finished, j, i);
      } else if i < j {
        TwiceCounts(s.finished, i, j);
      }
    }
    assert e !in multiset(s.queue) && e !in multiset(InFlight(s.drainer));
  }

  lemma OnlyPlace(s: Sink, e: Event, p: Place, q: Place)
    requires SinkOk(s) && IsAt(s, e, p) && IsAt(s, e, q)
    ensures p == q
    ensures e < s.published
  {
    assert Places(s, e) == if e < s.published then 1 else 0;
    assert e in s.queue ==> e in multiset(s.queue);
    assert e in InFlight(s.drainer) ==> e in multiset(InFlight(s.drainer));
    assert e in s.finished ==> e in multiset(s.finished);
    if i :| 0 <= i < |s.finished| && s.finished[i] == e {
      FinishedOnce(s, e, i);
    }
  }

  lemma SomePlace(s: Sink, e: Event)
    requires SinkOk(s) && e < s.published
    ensures exists p :: IsAt(s, e, p)
  {
    assert Places(s, e) == if e < s.published then 1 else 0;
    if e in s.posting {
      assert IsAt(s, e, BeingPosted);
    } else if e in s.acknowledged {
      assert IsAt(s, e, AcknowledgedAtOnce);
    } else if e in s.dropped {
      assert IsAt(s, e, DroppedOnFullQueue);
    } else if e in s.queue {
      assert IsAt(s, e, Queued);
    } else if e in InFlight(s.drainer) {
      assert IsAt(s, e, WithDrainer);
    } else {
      assert e in multiset(s.finished);
      var i :| 0 <= i < |s.finished| && s.finished[i] == e;
      assert EndedAs(s, e, s.fates[i]);
      match s.fates[i]
      case Delivered => assert IsAt(s, e, AcknowledgedLater);
      case Exhausted => assert IsAt(s, e, DroppedAfterRetries);
      case Lost => assert IsAt(s, e, AbandonedInBackoff);
    }
  }

  lemma PostedAtMostSixTimes(s: Sink, e: Event)
    requires SinkOk(s)
    ensures s.posts[e] <= 6
    ensures IsAt(s, e, DroppedAfterRetries) ==> s.posts[e] == 6
  {
    if e < s.published {
      SomePlace(s, e);
    }
    if i :| 0 <= i < |s.finished| && s.finished[i] == e {
      assert FateOk(s.posts[s.finished[i]], s.fates[i]);
    }
    if IsAt(s, e, DroppedAfterRetries) {
      var i :| 0 <= i < |s.finished| && i < |s.fates| && s.finished[i] == e && s.fates[i] == Exhausted;
      assert FateOk(s.posts[s.finished[i]], s.fates[i]);
    }
  }

  /** Over every interleaving of publishers, drainer and stop, each published event is in
      exactly one place; the queue stays within its capacity; no event is posted more than
      six times, and exactly six times if it was dropped after retries. */
  lemma EveryEventIsAccountedFor(capacity: nat, actions: seq<Action>, e: Event)
    ensures var s := Run(NewSink(capacity), actions);
      && |s.queue| <= capacity
      && s.posts[e] <= 6
      && (IsAt(s, e, DroppedAfterRetries) ==> s.posts[e] == 6)
      && (e < s.published <==> exists p :: IsAt(s, e, p))
      && (forall p, q :: IsAt(s, e, p) && IsAt(s, e, q) ==> p == q)
  {
    var s := Run(NewSink(capacity), actions);
    EveryRunIsOk(capacity, actions);
    PostedAtMostSixTimes(s, e);
    if e < s.published {
      SomePlace(s, e);
    }
    forall p, q | IsAt(s, e, p) && IsAt(s, e, q)
      ensures p == q && e < s.published
    {
      OnlyPlace(s, e, p, q);
    }
  }

  /** What the drainer acknowledged is a subsequence of what was enqueued, in that order:
      what it is done with, then what it holds, then the queue make up all that came in. */
  lemma DrainedInOrder(capacity: nat, actions: seq<Action>)
    ensures var s := Run(NewSink(capacity), actions);
      && |s.fates| == |s.finished|
      && s.finished + InFlight(s.drainer) + s.queue == s.enqueued
  {
    EveryRunIsOk(capacity, actions);
  }

  // ---- where a post leads ----

  /** The answer to a post decides where its event goes: acknowledged, or behind the queue
      while there is room, or dropped. */
  lemma AnswerDecides(s: Sink, e: Event, ok: bool)
    requires e in s.posting
    ensures var t := Step(s, PostReturns(e, ok));
      && t.acknowledged == (if ok then s.acknowledged + multiset{e} else s.acknowledged)
      && t.queue == (if !ok && |s.queue| < s.capacity then s.queue + [e] else s.queue)
      && t.dropped == (if !ok && |s.queue| >= s.capacity then s.dropped + multiset{e} else s.dropped)
      && t.posts[e] == s.posts[e] + 1
  {
  }

  /** In no run is an event dropped while the queue has room: a drop follows a failed post that
      met a full queue. */
  lemma DroppedOnlyWhenFull(capacity: nat, actions: seq<Action>, i: nat, e: Event)
    requires i < |actions|
    requires Run(NewSink(capacity), actions[..i + 1]).dropped[e] > Run(NewSink(capacity), actions[..i]).dropped[e]
    ensures actions[i] == PostReturns(e, false) && |Run(NewSink(capacity), actions[..i]).queue| == capacity
  {
    assert actions[..i + 1][..i] == actions[..i];
    EveryRunIsOk(capacity, actions[..i]);
    DropFollowsFullQueue(Run(NewSink(capacity), actions[..i]), actions[i], e);
  }

  lemma DropFollowsFullQueue(s: Sink, a: Action, e: Event)
    requires Step(s, a).dropped[e] > s.dropped[e]
    ensures a == PostReturns(e, false) && |s.queue| >= s.capacity
  {
  }

  // ---- going idle ----

  /** The posts the drainer can still make before it needs new events. */
  function PostBudget(s: Sink): nat {
    5 * |s.queue| + (match s.drainer
                     case Posting(_, attempt, _) => if attempt <= 6 then 6 - attempt else 0
                     case BackingOff(_, attempt, _) => if attempt <= 5 then 5 - attempt else 0
                     case _ => 0)
  }

  /** The steps it can still take. */
  function StepBudget(s: Sink): nat {
    11 * |s.queue| + (match s.drainer
                      case Posting(_, attempt, _) => if attempt <= 6 then 12 - 2 * attempt else 0
                      case BackingOff(_, attempt, _) => if attempt <= 5 then 11 - 2 * attempt else 0
                      case _ => 0)
  }

  function AttemptCount(actions: seq<Action>): nat {
    if actions == [] then 0
    else AttemptCount(actions[..|actions| - 1]) + (if actions[|actions| - 1].AttemptReturns? then 1 else 0)
  }

  /** The drainer can take the action here. */
  ghost predicate Possible(s: Sink, a: Action) {
    IsDrainerAction(a) && Step(s, a) != s
  }

  /** Each action of `actions` is the drainer's and was possible where it was taken. */
  ghost predicate Drains(s: Sink, actions: seq<Action>) {
    actions == []
    || (Drains(s, actions[..|actions| - 1]) && Possible(Run(s, actions[..|actions| - 1]), actions[|actions| - 1]))
  }

  lemma DrainStepUsesBudget(s: Sink, a: Action)
    requires PostsOk(s) && Possible(s, a)
    ensures StepBudget(Step(s, a)) < StepBudget(s)
    ensures PostBudget(Step(s, a)) + (if a.AttemptReturns? then 1 else 0) <= PostBudget(s)
  {
  }

  lemma {:induction false} DrainingUsesBudget(s: Sink, actions: seq<Action>)
    requires SinkOk(s) && Drains(s, actions)
    ensures AttemptCount(actions) + PostBudget(Run(s, actions)) <= PostBudget(s) <= 5 * (|s.queue| + 1)
    ensures |actions| + StepBudget(Run(s, actions)) <= StepBudget(s) < 11 * (|s.queue| + 1)
  {
    if actions != [] {
      var n := |actions| - 1;
      DrainingUsesBudget(s, actions[..n]);
      RunKeepsOk(s, actions[..n]);
      DrainStepUsesBudget(Run(s, actions[..n]), actions[n]);
    }
  }

  /** With no new events the drainer goes idle: from a sink with n queued events it makes
      fewer than 11(n + 1) steps and at most 5(n + 1) posts, however they turn out. */
  lemma GoesIdle(s: Sink, actions: seq<Action>)
    requires SinkOk(s) && Drains(s, actions)
    ensures AttemptCount(actions) + PostBudget(Run(s, actions)) <= PostBudget(s) <= 5 * (|s.queue| + 1)
    ensures |actions| + StepBudget(Run(s, actions)) <= StepBudget(s) < 11 * (|s.queue| + 1)
    ensures SinkOk(Run(s, actions))
  {
    DrainingUsesBudget(s, actions);
    RunKeepsOk(s, actions);
  }

  /** Until it is idle or stopped, the drainer has a step to take. */
  lemma NotIdleMeansBusy(s: Sink)
    ensures (exists a :: IsDrainerAction(a) && Step(s, a) != s)
       <==> !(s.drainer.Stopped? || (s.drainer.Listening? && s.queue == []))
  {
    assert IsDrainerAction(Take) && IsDrainerAction(AttemptReturns(true)) && IsDrainerAction(Retry);
    if s.drainer.Listening? && s.queue != [] {
      assert Step(s, Take) != s;
    } else if s.drainer.Posting? {
      assert Step(s, AttemptReturns(true)) != s;
    } else if s.drainer.BackingOff? {
      assert Step(s, Retry) != s;
    }
  }

  // ---- the sink itself ----

  /** The drainer's work on the event it holds, when nobody else moves: `outcomes` says which
      attempts succeed, `stops` after which a stop arrives during the wait. */
  function DrainFrom(s: Sink, outcomes: nat -> bool, stops: nat -> bool): Sink
    requires s.drainer.Posting?
    decreases MAX_ATTEMPTS - s.drainer.attempt
  {
    var attempt := s.drainer.attempt;
    var t := Step(s, AttemptReturns(outcomes(attempt)));
    if !t.drainer.BackingOff? then t
    else if stops(attempt) then Step(Step(t, Stop), Quit)
    else DrainFrom(Step(t, Retry), outcomes, stops)
  }

  /** How the attempts on one event end: with the first that succeeds, with the fifth that
      fails, or with the first wait a stop arrives in. */
  predicate Ends(outcomes: nat -> bool, stops: nat -> bool, attempts: nat, fate: Fate) {
    && 1 <= attempts <= MAX_ATTEMPTS
    && (forall i | 1 <= i < attempts :: !outcomes(i) && !stops(i))
    && match fate
       case Delivered => outcomes(attempts)
       case Exhausted => attempts == MAX_ATTEMPTS && !outcomes(attempts)
       case Lost => attempts < MAX_ATTEMPTS && !outcomes(attempts) && stops(attempts)
  }

  /** The sink after the drainer made so many attempts on the event it holds. */
  function Drained(s: Sink, attempts: nat, fate: Fate): Sink
    requires s.drainer.Posting?
  {
    var e := s.drainer.event;
    s.(
      posts := s.posts[e := s.posts[e] + attempts],
      finished := s.finished + [e],
      fates := s.fates + [fate],
      drainer := if fate.Lost? then Stopped else Listening,
      stopping := s.stopping || fate.Lost?
    )
  }

  lemma OneMorePost(posts: multiset<Event>, e: Event)
    ensures posts + multiset{e} == posts[e := posts[e] + 1]
  {
  }

  /** An attempt that succeeds, or the fifth. */
  lemma AttemptEndsIt(s: Sink, ok: bool)
    requires s.drainer.Posting? && (ok || s.drainer.attempt >= MAX_ATTEMPTS)
    ensures AttemptEnds(s, ok) == Drained(s, 1, if ok then Delivered else Exhausted)
  {
    OneMorePost(s.posts, s.drainer.event);
  }

  /** An attempt that fails and is not the fifth. */
  function Waiting(s: Sink): Sink
    requires s.drainer.Posting?
  {
    var e := s.drainer.event;
    s.(posts := s.posts[e := s.posts[e] + 1], drainer := BackingOff(e, s.drainer.attempt, s.drainer.backoff))
  }

  lemma AttemptFails(s: Sink)
    requires s.drainer.Posting? && s.drainer.attempt < MAX_ATTEMPTS
    ensures AttemptEnds(s, false) == Waiting(s)
  {
    OneMorePost(s.posts, s.drainer.event);
  }

  lemma StopEndsIt(s: Sink)
    requires s.drainer.Posting?
    ensures Step(Step(Waiting(s), Stop), Quit) == Drained(s, 1, Lost)
  {
  }

  lemma AttemptIsLast(s: Sink, outcomes: nat -> bool, stops: nat -> bool, fate: Fate)
    requires s.drainer.Posting? && s.drainer.attempt <= MAX_ATTEMPTS
    requires Ends(outcomes, stops, s.drainer.attempt, fate)
    ensures DrainFrom(s, outcomes, stops) == Drained(s, 1, fate)
  {
    if fate.Lost? {
      AttemptFails(s);
      StopEndsIt(s);
    } else {
      AttemptEndsIt(s, fate.Delivered?);
    }
  }

  function NextAttempt(s: Sink): Sink
    requires s.drainer.Posting?
  {
    Waiting(s).(drainer := Posting(s.drainer.event, s.drainer.attempt + 1, 2 * s.drainer.backoff))
  }

  lemma AttemptIsRetried(s: Sink, outcomes: nat -> bool, stops: nat -> bool)
    requires s.drainer.Posting? && s.drainer.attempt < MAX_ATTEMPTS
    requires !outcomes(s.drainer.attempt) && !stops(s.drainer.attempt)
    ensures DrainFrom(s, outcomes, stops) == DrainFrom(NextAttempt(s), outcomes, stops)
  {
    AttemptFails(s);
    var t := Step(s, AttemptReturns(outcomes(s.drainer.attempt)));
    assert t == Waiting(s) && t.drainer.BackingOff?;
    WaitingIsRetried(s);
    assert DrainFrom(s, outcomes, stops) == DrainFrom(Step(t, Retry), outcomes, stops);
  }

  lemma WaitingIsRetried(s: Sink)
    requires s.drainer.Posting?
    ensures Step(Waiting(s), Retry) == NextAttempt(s)
  {
  }

  lemma DrainedLater(s: Sink, n: nat, fate: Fate)
    requires s.drainer.Posting?
    ensures Drained(NextAttempt(s), n, fate) == Drained(s, n + 1, fate)
  {
    var e := s.drainer.event;
    assert NextAttempt(s).posts[e := s.posts[e] + 1 + n] == s.posts[e := s.posts[e] + (n + 1)];
  }

  /** The steps of the machine, nobody else moving, come to what the attempts come to. */
  lemma {:induction false} DrainIsDrained(s: Sink, outcomes: nat -> bool, stops: nat -> bool, attempts: nat, fate: Fate)
    requires s.drainer.Posting? && 1 <= s.drainer.attempt <= attempts && Ends(outcomes, stops, attempts, fate)
    ensures DrainFrom(s, outcomes, stops) == Drained(s, attempts - s.drainer.attempt + 1, fate)
    decreases attempts - s.drainer.attempt
  {
    if s.drainer.attempt == attempts {
      AttemptIsLast(s, outcomes, stops, fate);
    } else {
      AttemptIsRetried(s, outcomes, stops);
      DrainIsDrained(NextAttempt(s), outcomes, stops, attempts, fate);
      DrainedLater(s, attempts - s.drainer.attempt, fate);
    }
  }

  lemma {:induction false} DrainKeepsOk(s: Sink, outcomes: nat -> bool, stops: nat -> bool)
    requires SinkOk(s) && s.drainer.Posting?
    ensures SinkOk(DrainFrom(s, outcomes, stops))
    decreases MAX_ATTEMPTS - s.drainer.attempt
  {
    var t := Step(s, AttemptReturns(outcomes(s.drainer.attempt)));
    StepKeepsOk(s, AttemptReturns(outcomes(s.drainer.attempt)));
    if t.drainer.BackingOff? {
      if stops(s.drainer.attempt) {
        StepKeepsOk(t, Stop);
        StepKeepsOk(Step(t, Stop), Quit);
      } else {
        StepKeepsOk(t, Retry);
        DrainKeepsOk(Step(t, Retry), outcomes, stops);
      }
    }
  }

  /** Once the drainer has stopped and no publisher is waiting for an answer, every event is
      acknowledged, dropped, lost in a wait or still queued, and only one of these. */
  lemma StoppedAccounts(s: Sink, e: Event)
    requires SinkOk(s) && s.drainer.Stopped? && s.posting == multiset{} && e < s.published
    ensures exists p :: IsAt(s, e, p) && p != BeingPosted && p != WithDrainer
    ensures forall p, q :: IsAt(s, e, p) && IsAt(s, e, q) ==> p == q
  {
    SomePlace(s, e);
    forall p, q | IsAt(s, e, p) && IsAt(s, e, q)
      ensures p == q
    {
      OnlyPlace(s, e, p, q);
    }
  }

  /** A sink with no post outstanding, after an event was published and its post answered. */
  function Answered(s: Sink, ok: bool): Sink {
    var e := s.published;
    var t := s.(published := e + 1, posts := s.posts + multiset{e});
    if ok then t.(acknowledged := s.acknowledged + multiset{e})
    else if |s.queue| < s.capacity then t.(queue := s.queue + [e], enqueued := s.enqueued + [e])
    else t.(dropped := s.dropped + multiset{e})
  }

  /** What the object keeps: its fields and the posts the engine has received. */
  datatype Books = Books(
    published: nat,
    queue: seq<Event>,
    dropped: seq<Event>,
    finished: seq<Event>,
    fates: seq<Fate>,
    stopping: bool,
    exited: bool,
    posts: seq<Event>
  )

  /** The books say what the protocol state says, with no post outstanding. */
  predicate Records(b: Books, capacity: nat, s: Sink) {
    && s.posting == multiset{}
    && s.capacity == capacity && s.published == b.published && s.queue == b.queue
    && s.stopping == b.stopping && s.drainer == (if b.exited then Stopped else Listening)
    && s.posts == multiset(b.posts) && s.dropped == multiset(b.dropped)
    && s.finished == b.finished && s.fates == b.fates
  }

  /** The books after a post was answered. */
  function Booked(b: Books, capacity: nat, ok: bool): Books {
    var e := b.published;
    var t := b.(published := e + 1, posts := b.posts + [e]);
    if ok then t
    else if |b.queue| < capacity then t.(queue := b.queue + [e])
    else t.(dropped := b.dropped + [e])
  }

  lemma AnsweredRecords(b: Books, capacity: nat, s: Sink, ok: bool)
    requires Records(b, capacity, s)
    ensures Records(Booked(b, capacity, ok), capacity, Answered(s, ok))
  {
  }

  lemma PublishAnswered(s: Sink, ok: bool)
    requires s.posting == multiset{}
    ensures Answered(s, ok) == Step(Step(s, Publish), PostReturns(s.published, ok))
  {
    assert multiset{} + multiset{s.published} - multiset{s.published} == multiset{};
  }

  /** The risk engine at the other end: what was posted to it and what it accepted. */
  class RiskEngine {
    var posts: seq<Event>
    var accepted: seq<Event>

    constructor ()
      ensures posts == [] && accepted == []
    {
      posts, accepted := [], [];
    }

    method Post(e: Event, ok: bool) returns (accepts: bool)
      modifies this
      ensures accepts == ok && posts == old(posts) + [e]
      ensures accepted == old(accepted) + if ok then [e] else []
    {
      posts := posts + [e];
      if ok {
        accepted := accepted + [e];
      }
      accepts := ok;
    }
  }

  function Times(e: Event, n: nat): seq<Event> {
    seq(n, _ => e)
  }

  /** Posts the event up to five times, waiting between attempts a second at first and twice
      as long each time; a stop during a wait ends it. */
  method DeliverWithRetry(engine: RiskEngine, e: Event, outcomes: nat -> bool, stops: nat -> bool)
    returns (attempts: nat, fate: Fate, waits: seq<nat>)
    modifies engine
    ensures Ends(outcomes, stops, attempts, fate)
    ensures waits == Backoffs(if fate.Lost? then attempts else attempts - 1)
    ensures engine.posts == old(engine.posts) + Times(e, attempts)
    ensures engine.accepted == old(engine.accepted) + if fate.Delivered? then [e] else []
  {
    var backoff := 1;
    waits := [];
    attempts := 1;
    while attempts <= MAX_ATTEMPTS
      invariant 1 <= attempts <= MAX_ATTEMPTS
      invariant backoff == Doubled(attempts) && waits == Backoffs(attempts - 1)
      invariant forall i | 1 <= i < attempts :: !outcomes(i) && !stops(i)
      invariant engine.posts == old(engine.posts) + Times(e, attempts - 1)
      invariant engine.accepted == old(engine.accepted)
      decreases MAX_ATTEMPTS - attempts
    {
      var accepts := engine.Post(e, outcomes(attempts));
      if accepts {
        return attempts, Delivered, waits;
      }
      if attempts == MAX_ATTEMPTS {
        return attempts, Exhausted, waits;
      }
      waits := waits + [backoff];
      if stops(attempts) {
        return attempts, Lost, waits;
      }
      backoff := 2 * backoff;
      attempts := attempts + 1;
    }
    assert false;
  }

  class PolicyEventSink {
    const capacity: nat
    const engine: RiskEngine
    var published: nat
    var queue: seq<Event>
    var dropped: seq<Event>
    /** The events the drainer is done with, and what became of each. */
    var finished: seq<Event>
    var fates: seq<Fate>
    var stopping: bool
    var exited: bool
    /** The protocol state this object is in. */
    ghost var state: Sink

    function Kept(): Books
      reads this, engine
    {
      Books(published, queue, dropped, finished, fates, stopping, exited, engine.posts)
    }

    /** Between two of its methods no post is outstanding. */
    ghost predicate Valid()
      reads this, engine
    {
      Records(Kept(), capacity, state)
    }

    constructor (capacity: nat)
      ensures Valid() && fresh(engine) && state == NewSink(capacity)
    {
      this.capacity, published, queue, dropped := capacity, 0, [], [];
      finished, fates, stopping, exited := [], [], false, false;
      engine := new RiskEngine();
      state := NewSink(capacity);
    }

    /** Posts at once; on failure the event is queued, unless the queue is full. */
    method Publish(ok: bool)
      requires Valid()
      modifies this, engine
      ensures Valid() && engine.posts == old(engine.posts) + [old(published)]
      ensures queue == if !ok && |old(queue)| < capacity then old(queue) + [old(published)] else old(queue)
      ensures dropped == if !ok && |old(queue)| >= capacity then old(dropped) + [old(published)] else old(dropped)
      ensures state == Step(Step(old(state), Action.Publish), PostReturns(old(state).published, ok))
    {
      PublishAnswered(state, ok);
      AnsweredRecords(Kept(), capacity, state, ok);
      ghost var answered := Answered(state, ok);
      PostOrQueue(ok);
      state := answered;
    }

    /** The work itself, on the object's fields. */
    method PostOrQueue(ok: bool)
      modifies this, engine
      ensures published == old(published) + 1 && engine.posts == old(engine.posts) + [old(published)]
      ensures queue == if !ok && |old(queue)| < capacity then old(queue) + [old(published)] else old(queue)
      ensures dropped == if !ok && |old(queue)| >= capacity then old(dropped) + [old(published)] else old(dropped)
      ensures finished == old(finished) && fates == old(fates) && stopping == old(stopping) && exited == old(exited)
      ensures state == old(state)
    {
      var e := published;
      published := published + 1;
      var accepts := engine.Post(e, ok);
      if !accepts {
        if |queue| < capacity {
          queue := queue + [e];
        } else {
          dropped := dropped + [e];
        }
      }
    }

    /** Takes the event at the head of the queue and delivers it as best it can. */
    method DrainOne(outcomes: nat -> bool, stops: nat -> bool) returns (attempts: nat, fate: Fate, waits: seq<nat>)
      requires Valid() && !exited && queue != []
      modifies this, engine
      ensures Valid() && state == DrainFrom(Step(old(state), Take), outcomes, stops)
      ensures Ends(outcomes, stops, attempts, fate)
      ensures waits == Backoffs(if fate.Lost? then attempts else attempts - 1)
      ensures queue == old(queue)[1..] && finished == old(finished) + [old(queue)[0]] && fates == old(fates) + [fate]
      ensures engine.posts == old(engine.posts) + Times(old(queue)[0], attempts)
      ensures exited <==> fate.Lost?
      ensures stopping == (old(stopping) || fate.Lost?) && published == old(published) && dropped == old(dropped)
    {
      ghost var taken := TakeHead(state);
      var e := queue[0];
      ghost var before := engine.posts;
      attempts, fate, waits := DeliverWithRetry(engine, e, outcomes, stops);
      PostedTimes(before, e, attempts);
      DrainIsDrained(taken, outcomes, stops, attempts, fate);
      Finish(e, attempts, fate, before);
    }

    /** The books after an event: the posts have been made already. */
    method Finish(e: Event, ghost attempts: nat, fate: Fate, ghost posts: seq<Event>)
      requires Records(Kept().(posts := posts), capacity, state) && !exited
      requires queue != [] && e == queue[0]
      requires multiset(engine.posts) == multiset(posts)[e := multiset(posts)[e] + attempts]
      modifies this
      ensures Valid() && state == Drained(TakeHead(old(state)), attempts, fate)
      ensures queue == old(queue)[1..] && finished == old(finished) + [e] && fates == old(fates) + [fate]
      ensures exited <==> fate.Lost?
      ensures stopping == (old(stopping) || fate.Lost?) && published == old(published) && dropped == old(dropped)
    {
      state := Drained(TakeHead(state), attempts, fate);
      queue, finished, fates := queue[1..], finished + [e], fates + [fate];
      if fate.Lost? {
        stopping, exited := true, true;
      }
    }

    /** Stops the drainer and waits for it. Before it notices, the drainer may take further
        events: `takes` says whether it does, at each turn. */
    method Stop(takes: nat -> bool, outcomes: nat -> nat -> bool, stops: nat -> nat -> bool)
      requires Valid() && SinkOk(state) && !stopping && !exited
      modifies this, engine
      ensures Valid() && SinkOk(state) && stopping && exited
      ensures finished + queue == old(finished) + old(queue) && published == old(published) && dropped == old(dropped)
    {
      StepKeepsOk(state, Action.Stop);
      stopping := true;
      state := Step(state, Action.Stop);
      var turn := 0;
      while !exited
        invariant Valid() && SinkOk(state) && stopping
        invariant finished + queue == old(finished) + old(queue)
        invariant published == old(published) && dropped == old(dropped)
        decreases !exited, |queue|
      {
        TurnKeepsOk(state, outcomes(turn), stops(turn));
        if queue != [] && takes(turn) {
          TakeNext(outcomes(turn), stops(turn));
        } else {
          Exit();
        }
        turn := turn + 1;
      }
    }

    method TakeNext(outcomes: nat -> bool, stops: nat -> bool)
      requires Valid() && stopping && !exited && queue != []
      modifies this, engine
      ensures Valid() && stopping && |queue| < |old(queue)|
      ensures state == DrainFrom(Step(old(state), Take), outcomes, stops)
      ensures finished + queue == old(finished) + old(queue) && published == old(published) && dropped == old(dropped)
    {
      HeadMoves(finished, queue);
      var attempts, fate, waits := DrainOne(outcomes, stops);
    }

    method Exit()
      requires Valid() && stopping && !exited
      modifies this
      ensures Valid() && exited && state == Step(old(state), Quit)
      ensures stopping == old(stopping) && queue == old(queue) && finished == old(finished)
      ensures published == old(published) && dropped == old(dropped)
    {
      exited := true;
      state := Step(state, Quit);
    }
  }

  lemma HeadMoves(done: seq<Event>, queue: seq<Event>)
    requires queue != []
    ensures done + [queue[0]] + queue[1..] == done + queue
  {
    assert queue == [queue[0]] + queue[1..];
  }

  lemma TurnKeepsOk(s: Sink, outcomes: nat -> bool, stops: nat -> bool)
    requires SinkOk(s) && s.drainer.Listening?
    ensures SinkOk(Step(s, Quit))
    ensures s.queue != [] ==> SinkOk(DrainFrom(Step(s, Take), outcomes, stops))
  {
    StepKeepsOk(s, Quit);
    StepKeepsOk(s, Take);
    if s.queue != [] {
      DrainKeepsOk(Step(s, Take), outcomes, stops);
    }
  }

  lemma {:induction false} PostedTimes(posts: seq<Event>, e: Event, n: nat)
    ensures multiset(posts + Times(e, n)) == multiset(posts)[e := multiset(posts)[e] + n]
  {
    if n > 0 {
      PostedTimes(posts, e, n - 1);
      assert posts + Times(e, n) == posts + Times(e, n - 1) + [e];
    } else {
      assert posts + Times(e, 0) == posts;
    }
  }
}
