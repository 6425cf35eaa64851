/** Sanctions hits as records, and what a screening run and a disposition make of them. */
module SanctionsHits {
  import opened Entities

  datatype Match = Match(list: string, name: string, score: real)

  datatype Review = Clear | Block | OtherReview(text: string)

  datatype Hit = Hit(
    id: string,
    appId: string,
    found: Match,
    reviewedBy: string,
    reviewedAt: Time,
    disposition: Option<Review>
  )

  type Hits = map<string, seq<Hit>>

  function HitsOf(hits: Hits, appId: string): seq<Hit> {
    if appId in hits then hits[appId] else []
  }

  function NewHit(id: string, appId: string, found: Match): Hit {
    Hit(id, appId, found, "", ZERO_TIME, None)
  }

  function NewHits(appId: string, found: seq<Match>, ids: nat -> string): seq<Hit> {
    seq(|found|, i requires 0 <= i < |found| => NewHit(ids(i), appId, found[i]))
  }

  function WithHit(hits: Hits, appId: string, hit: Hit): Hits {
    hits[appId := HitsOf(hits, appId) + [hit]]
  }

  function Reviewed(h: Hit, who: string, review: Review, now: Time): Hit {
    h.(reviewedBy := who, reviewedAt := now, disposition := Some(review))
  }

  /** The hits after a disposition: all of the application's, and nothing else, are marked. */
  function Marked(hits: Hits, appId: string, who: string, review: Review, now: Time): Hits {
    if appId !in hits then hits
    else
      var known := hits[appId];
      hits[appId := seq(|known|, i requires 0 <= i < |known| => Reviewed(known[i], who, review, now))]
  }

  /** A mark writes reviewer, time and disposition on every hit of the application, keeps what
      the hit says otherwise, and touches no other application. */
  lemma MarkedExactly(hits: Hits, appId: string, who: string, review: Review, now: Time)
    ensures var t := Marked(hits, appId, who, review, now);
      && t.Keys == hits.Keys
      && (forall id | id in hits && id != appId :: t[id] == hits[id])
      && |HitsOf(t, appId)| == |HitsOf(hits, appId)|
      && forall i | 0 <= i < |HitsOf(hits, appId)| ::
           var h := hits[appId][i];
           t[appId][i] == Hit(h.id, h.appId, h.found, who, now, Some(review))
  {
  }

  /** New hits carry the matches in order, for the application, and no review. */
  lemma NewHitsExactly(appId: string, found: seq<Match>, ids: nat -> string)
    ensures |NewHits(appId, found, ids)| == |found|
    ensures forall i | 0 <= i < |found| :: NewHits(appId, found, ids)[i] == Hit(ids(i), appId, found[i], "", 0, None)
  {
  }
}
