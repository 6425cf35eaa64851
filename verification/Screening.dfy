/** Sanctions screening: the hits found for an application, and what analysts make of them. */
module Screening {
  import opened StateMachine
  import opened Entities
  import opened Repository
  import opened Audit
  import opened Decisions
  import opened InMemoryRepository
  import opened SanctionsHits

  class ScreeningStore {
    var hits: Hits

    constructor ()
      ensures hits == map[]
    {
      hits := map[];
    }

    method Add(appId: string, hit: Hit)
      modifies this
      ensures hits == WithHit(old(hits), appId, hit)
    {
      hits := hits[appId := HitsOf(hits, appId) + [hit]];
    }

    method List(appId: string) returns (out: seq<Hit>)
      ensures out == HitsOf(hits, appId)
    {
      out := HitsOf(hits, appId);
    }

    method SetDisposition(appId: string, who: string, review: Review, now: Time)
      modifies this
      ensures hits == Marked(old(hits), appId, who, review, now)
    {
      if appId !in hits {
        return;
      }
      ghost var goal := Marked(hits, appId, who, review, now);
      for i := 0 to |hits[appId]|
        invariant hits.Keys == old(hits).Keys && |hits[appId]| == |old(hits)[appId]|
        invariant forall id | id in hits && id != appId :: hits[id] == old(hits)[id]
        invariant forall k | 0 <= k < |hits[appId]| ::
          hits[appId][k] == if k < i then goal[appId][k] else old(hits)[appId][k]
      {
        hits := hits[appId := hits[appId][i := Reviewed(hits[appId][i], who, review, now)]];
      }
      assert hits[appId] == goal[appId];
      assert hits == goal;
    }
  }

  /** The target of a disposition, for the two texts that name one. */
  function TargetOf(review: Review): State
    requires !review.OtherReview?
  {
    DispositionTarget(review.Clear?)
  }

  class ScreeningService {
    const repo: ApplicationRepository
    const store: ScreeningStore
    const audit: AuditLog

    constructor (repo: ApplicationRepository, store: ScreeningStore)
      ensures this.repo == repo && this.store == store && audit == repo.sink
    {
      this.repo, this.store := repo, store;
      audit := repo.sink;
    }

    /** Keeps every match the screener found as a new hit. It is for an analyst to look at
        exactly when there are at least `threshold`; a screener that fails leaves nothing. */
    method Run(appId: string, screened: Result<seq<Match>>, ids: nat -> string, threshold: nat)
      returns (r: Result<(seq<Hit>, bool)>)
      modifies store, audit
      ensures screened.Err? ==>
        r == Err(screened.error) && store.hits == old(store.hits) && audit.events == old(audit.events)
      ensures screened.Ok? ==>
        && r == Ok((NewHits(appId, screened.value, ids), |screened.value| >= threshold))
        && HitsOf(store.hits, appId) == old(HitsOf(store.hits, appId)) + NewHits(appId, screened.value, ids)
        && (forall id | id != appId :: HitsOf(store.hits, id) == HitsOf(old(store.hits), id))
        && audit.events == old(audit.events)
             + [AuditEvent(appId, ScreeningRun(|screened.value|, |screened.value| >= threshold), "system")]
    {
      if screened.Err? {
        return Err(screened.error);
      }
      var kept := AddAll(appId, screened.value, ids);
      var manualReview := |screened.value| >= threshold;
      audit.Record(appId, ScreeningRun(|screened.value|, manualReview), "system");
      r := Ok((kept, manualReview));
    }

    /** Keeps the matches one by one. */
    method AddAll(appId: string, found: seq<Match>, ids: nat -> string) returns (kept: seq<Hit>)
      modifies store
      ensures kept == NewHits(appId, found, ids)
      ensures HitsOf(store.hits, appId) == old(HitsOf(store.hits, appId)) + kept
      ensures forall id | id != appId :: HitsOf(store.hits, id) == HitsOf(old(store.hits), id)
    {
      kept := [];
      for i := 0 to |found|
        invariant kept == NewHits(appId, found, ids)[..i]
        invariant HitsOf(store.hits, appId) == old(HitsOf(store.hits, appId)) + kept
        invariant forall id | id != appId :: HitsOf(store.hits, id) == HitsOf(old(store.hits), id)
      {
        var hit := NewHit(ids(i), appId, found[i]);
        store.Add(appId, hit);
        kept := kept + [hit];
      }
    }

    /** Run with nothing in between, a disposition succeeds exactly when it names one and the
        application waits for it; it then marks all hits and decides. Otherwise it does
        nothing. */
    method Disposition(appId: string, review: Review, who: string, marked: Time, now: Time) returns (r: Result<()>)
      requires repo.Valid() && audit == repo.sink
      modifies repo.apps.Values, store, audit
      ensures repo.Valid() && repo.apps == old(repo.apps)
      ensures r == old(DispositionReply(repo.View(), appId, review))
      ensures r.Err? ==>
        repo.View() == old(repo.View()) && store.hits == old(store.hits) && audit.events == old(audit.events)
      ensures r.Ok? ==>
        && Disposed(old(repo.View()), appId, review, now, repo.View())
        && store.hits == Marked(old(store.hits), appId, who, review, marked)
        && audit.events == old(audit.events) + DispositionEvents(appId, review, who)
    {
      if review.OtherReview? {
        return Err(BadDisposition);
      }
      var found := repo.Get(appId);
      if found.Err? {
        return Err(found.error);
      }
      if found.value.state != ManualReview {
        return Err(NotInReview);
      }
      MarkAndDecide(appId, found.value.version, review, who, marked, now);
      r := Ok(());
    }

    method MarkAndDecide(appId: string, version: int, review: Review, who: string, marked: Time, now: Time)
      requires repo.Valid() && audit == repo.sink && !review.OtherReview?
      requires appId in repo.apps
      requires repo.View().apps[appId].state == ManualReview && repo.View().apps[appId].version == version
      modifies repo.apps.Values, store, audit
      ensures repo.Valid() && repo.apps == old(repo.apps)
      ensures Disposed(old(repo.View()), appId, review, now, repo.View())
      ensures store.hits == Marked(old(store.hits), appId, who, review, marked)
      ensures audit.events == old(audit.events) + DispositionEvents(appId, review, who)
    {
      store.SetDisposition(appId, who, review, marked);
      DecideReviewed(appId, version, review, who, now);
    }

    /** The write that follows, when it meets no other writer, and its two audit events. */
    method DecideReviewed(appId: string, version: int, review: Review, who: string, now: Time)
      requires repo.Valid() && audit == repo.sink && !review.OtherReview?
      requires appId in repo.apps
      requires repo.View().apps[appId].state == ManualReview && repo.View().apps[appId].version == version
      modifies repo.apps.Values, audit
      ensures repo.Valid() && repo.apps == old(repo.apps)
      ensures Disposed(old(repo.View()), appId, review, now, repo.View())
      ensures audit.events == old(audit.events) + DispositionEvents(appId, review, who)
    {
      DispositionMoves(repo.View(), appId, version, review, who, now);
      var moved := repo.UpdateState(appId, version, TargetOf(review), who, DispositionReason(review), now);
      assert moved.Ok? && audit.events == old(audit.events)
        + AsEvents([Transition(appId, ManualReview, TargetOf(review), who, DispositionReason(review))]);
      if moved.Ok? {
        NoteBeside(repo, appId, ScreeningDisposition(ReviewText(review)), who);
      }
    }
  }

  /** What a disposition logs: the transition, then the disposition itself. */
  function DispositionEvents(appId: string, review: Review, who: string): seq<AuditEvent>
    requires !review.OtherReview?
  {
    AsEvents([Transition(appId, ManualReview, TargetOf(review), who, DispositionReason(review))])
    + [AuditEvent(appId, ScreeningDisposition(ReviewText(review)), who)]
  }

  function ReviewText(review: Review): string {
    match review
    case Clear => "CLEAR"
    case Block => "BLOCK"
    case OtherReview(text) => text
  }

  function DispositionReason(review: Review): string {
    "screening disposition: " + ReviewText(review)
  }

  /** How a disposition that meets no other writer ends. */
  function DispositionReply(s: Store, appId: string, review: Review): Result<()> {
    if review.OtherReview? then Err(BadDisposition)
    else if appId !in s.apps then Err(NotFound)
    else if s.apps[appId].state != ManualReview then Err(NotInReview)
    else Ok(())
  }

  /** Which of the errors comes first: a text that names no disposition, an application nobody
      knows, one that does not wait for review. */
  lemma DispositionReplyExactly(s: Store, appId: string, review: Review)
    ensures var r := DispositionReply(s, appId, review);
      var named := review == Clear || review == Block;
      && (r == Err(BadDisposition) <==> !named)
      && (r == Err(NotFound) <==> named && appId !in s.apps)
      && (r == Err(NotInReview) <==> named && appId in s.apps && s.apps[appId].state != ManualReview)
      && (r == Ok(()) <==> named && appId in s.apps && s.apps[appId].state == ManualReview)
  {
  }

  /** The application is decided, dated and otherwise as it was, and no other has changed. */
  ghost predicate Disposed(before: Store, appId: string, review: Review, now: Time, after: Store) {
    && !review.OtherReview? && appId in before.apps
    && after == Put(before, appId, before.apps[appId].(
         state := if review.Clear? then Pass else Fail, version := before.apps[appId].version + 1,
         updatedAt := now, decidedAt := now, reKycDueAt := now + YEAR))
  }

  /** What a disposition leaves in the log, word for word. */
  lemma DispositionIsLogged(appId: string, who: string)
    ensures DispositionEvents(appId, Clear, who) == [
      AuditEvent(appId, StateTransition(ManualReview, Pass, "screening disposition: CLEAR"), who),
      AuditEvent(appId, ScreeningDisposition("CLEAR"), who)]
    ensures DispositionEvents(appId, Block, who) == [
      AuditEvent(appId, StateTransition(ManualReview, Fail, "screening disposition: BLOCK"), who),
      AuditEvent(appId, ScreeningDisposition("BLOCK"), who)]
  {
    var pass := Transition(appId, ManualReview, Pass, who, DispositionReason(Clear));
    var fail := Transition(appId, ManualReview, Fail, who, DispositionReason(Block));
    assert AsEvents([pass]) == [TransitionEvent(pass)] + AsEvents([pass][1..]);
    assert AsEvents([fail]) == [TransitionEvent(fail)] + AsEvents([fail][1..]);
    assert "screening disposition: " + "CLEAR" == "screening disposition: CLEAR";
    assert "screening disposition: " + "BLOCK" == "screening disposition: BLOCK";
  }

  /** From review, the write a disposition asks for is always allowed. */
  lemma DispositionMoves(s: Store, appId: string, version: int, review: Review, who: string, now: Time)
    requires !review.OtherReview? && appId in s.apps
    requires s.apps[appId].state == ManualReview && s.apps[appId].version == version
    ensures var out := MoveApp(s, appId, version, TargetOf(review), who, DispositionReason(review), now);
      && out.response.Record? && Disposed(s, appId, review, now, out.store)
      && out.events == [Transition(appId, ManualReview, TargetOf(review), who, DispositionReason(review))]
  {
    assert CanTransition(ManualReview, Pass) && CanTransition(ManualReview, Fail);
  }
}
