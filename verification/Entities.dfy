/** The records the service stores, with the errors its stores report. */
module Entities {
  import opened StateMachine

  datatype Option<+T> = None | Some(value: T)

  datatype Result<+T> = Ok(value: T) | Err(error: Error)

  datatype Error =
    | NotFound
    | Conflict
    | Duplicate
    | InvalidArgument
    | IllegalTransition
    | ReKYCNotTerminal
    | BadDisposition
    | NotInReview

  /** A byte is a number below 256. */
  type Byte = n: nat | n < 256

  /** An instant, in nanoseconds after the zero time; 0 is the zero time itself. */
  type Time = nat

  const ZERO_TIME: Time := 0

  /** 365 days in nanoseconds. */
  const YEAR: nat := 365 * 24 * 3600 * 1_000_000_000

  datatype Application = Application(
    id: string,
    userId: string,
    vendor: string,
    vendorApplicantId: string,
    state: State,
    createdAt: Time,
    updatedAt: Time,
    expiresAt: Time,
    reKycDueAt: Time,
    decidedAt: Time,
    version: int
  )

  /** Names one application, at one version, as due for re-KYC. */
  datatype ReKYCDue = ReKYCDue(id: string, version: int)

  /** One logged state transition. */
  datatype Transition = Transition(appId: string, from: State, to: State, actor: string, reason: string)

  datatype DocType = IdFront | IdBack | Selfie | ProofOfAddress | OtherType(text: string)

  /** The outcome named in a vendor report. `Unrecognised` stands for every other text. */
  datatype VendorOutcome =
    | VendorClear
    | VendorPass
    | VendorApproved
    | VendorFail
    | VendorRejected
    | VendorConsider
    | VendorReview
    | VendorManualReview
    | VendorLivenessPass
    | Unrecognised(text: string)

  /** What a webhook body says, once parsed. */
  datatype VendorEvent = VendorEvent(appId: string, outcome: VendorOutcome)
}
