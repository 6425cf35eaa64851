/** What each handler decides from what it read, apart from where it writes it. */
module Decisions {
  import opened StateMachine
  import opened Entities

  predicate IsApproval(outcome: VendorOutcome) {
    outcome.VendorClear? || outcome.VendorPass? || outcome.VendorApproved?
  }

  predicate IsRejection(outcome: VendorOutcome) {
    outcome.VendorFail? || outcome.VendorRejected?
  }

  predicate IsReview(outcome: VendorOutcome) {
    outcome.VendorConsider? || outcome.VendorReview? || outcome.VendorManualReview?
  }

  /** The state a vendor outcome asks for, if any. */
  function Reconcile(outcome: VendorOutcome, current: State): Option<State> {
    if IsApproval(outcome) then
      if CanTransition(current, Pass) then Some(Pass)
      else if CanTransition(current, VendorDecision) then Some(VendorDecision)
      else None
    else if IsRejection(outcome) then
      if CanTransition(current, Fail) then Some(Fail) else None
    else if IsReview(outcome) then Some(ManualReview)
    else if outcome.VendorLivenessPass? then
      if CanTransition(current, LivenessPassed) then Some(LivenessPassed) else None
    else None
  }

  /** What a webhook then writes: the reconciled state, if the table allows it. */
  function WebhookTarget(outcome: VendorOutcome, current: State): Option<State> {
    var to := Reconcile(outcome, current);
    if to.Some? && CanTransition(current, to.value) then to else None
  }

  /** A webhook moves an application exactly where its outcome allows: an approval advances
      a screened application and passes an adjudicated one, a rejection fails an adjudicated
      one, a review sends it to an analyst, a liveness pass follows its documents. Any other
      outcome moves nothing. */
  lemma WebhookMovesByClass(outcome: VendorOutcome, current: State)
    ensures WebhookTarget(outcome, current) == Some(Pass)
       <==> outcome in {VendorClear, VendorPass, VendorApproved} && current in {VendorDecision, ManualReview}
    ensures WebhookTarget(outcome, current) == Some(VendorDecision)
       <==> outcome in {VendorClear, VendorPass, VendorApproved} && current == Screening
    ensures WebhookTarget(outcome, current) == Some(Fail)
       <==> outcome in {VendorFail, VendorRejected} && current in {VendorDecision, ManualReview}
    ensures WebhookTarget(outcome, current) == Some(ManualReview)
       <==> outcome in {VendorConsider, VendorReview, VendorManualReview}
            && current in {LivenessPassed, Screening, VendorDecision}
    ensures WebhookTarget(outcome, current) == Some(LivenessPassed)
       <==> outcome == VendorLivenessPass && current == DocumentsUploaded
    ensures WebhookTarget(outcome, current).Some? ==>
      WebhookTarget(outcome, current).value in {Pass, VendorDecision, Fail, ManualReview, LivenessPassed}
    ensures forall text, s :: WebhookTarget(Unrecognised(text), s) == None
  {
    assert forall to | CanTransition(current, to) :: to in LegalTargets(current);
  }

  /** The outcomes that count as an approval, as the class of a deciding webhook. */
  lemma ApprovalsAre(outcome: VendorOutcome)
    ensures IsApproval(outcome) <==> outcome in {VendorClear, VendorPass, VendorApproved}
  {
  }

  const NO_ID := "no-id"

  /** The id under which a delivery is remembered. */
  function EffectiveId(eventId: string): string {
    if eventId == "" then NO_ID else eventId
  }

  /** Two deliveries are remembered as one exactly when they have the same id, or neither has
      one of its own: an empty id and the text no-id are the same. */
  lemma SameEffectiveIdExactly(a: string, b: string)
    ensures EffectiveId(a) == EffectiveId(b) <==> a == b || (a in {"", "no-id"} && b in {"", "no-id"})
    ensures EffectiveId(a) != ""
  {
  }

  /** Where a screening run sends the application. */
  function ScreeningTarget(hits: nat, threshold: nat): State {
    if hits >= threshold then ManualReview else Screening
  }

  function DispositionTarget(clear: bool): State {
    if clear then Pass else Fail
  }

  predicate IsKnownDocType(t: DocType) {
    !t.OtherType?
  }

  /** The required documents are an identity card's front and a selfie. */
  predicate HasRequired(types: seq<DocType>) {
    IdFront in types && Selfie in types
  }
}
