/** The lifecycle of a KYC application: its states, the table of legal moves, and the
    measures on states that bound how long an application can run. */
module StateMachine {

  /** A state. The code uses strings; `Other` stands for every text that is not one of
      the eight names, the empty text included. */
  datatype State =
    | Started
    | DocumentsUploaded
    | LivenessPassed
    | Screening
    | VendorDecision
    | Pass
    | Fail
    | ManualReview
    | Other(text: string)

  predicate IsTerminal(s: State) {
    s.Pass? || s.Fail?
  }

  /** The row of the transition table for `from`; a text outside the table has no moves. */
  function LegalTargets(from: State): set<State> {
    match from
    case Started => {DocumentsUploaded}
    case DocumentsUploaded => {LivenessPassed, Screening}
    case LivenessPassed => {Screening, ManualReview}
    case Screening => {VendorDecision, ManualReview}
    case VendorDecision => {Pass, Fail, ManualReview}
    case ManualReview => {Pass, Fail}
    case Pass => {Started}
    case Fail => {Started}
    case Other(_) => {}
  }

  predicate CanTransition(from: State, to: State) {
    to in LegalTargets(from)
  }

  /** The fewest moves from Started to `s` without passing Started again. */
  function FewestMoves(s: State): nat {
    match s
    case Started => 0
    case DocumentsUploaded => 1
    case LivenessPassed => 2
    case Screening => 2
    case VendorDecision => 3
    case ManualReview => 3
    case Pass => 4
    case Fail => 4
    case Other(_) => 0
  }

  /** The most moves from Started to `s` without passing Started again. */
  function MostMoves(s: State): nat {
    match s
    case Started => 0
    case DocumentsUploaded => 1
    case LivenessPassed => 2
    case Screening => 3
    case VendorDecision => 4
    case ManualReview => 5
    case Pass => 6
    case Fail => 6
    case Other(_) => 0
  }

  /** `path` is a walk along legal moves that visits Started only at its beginning. */
  ghost predicate DecisionPath(path: seq<State>) {
    && |path| > 0
    && path[0] == Started
    && (forall i | 0 < i < |path| :: CanTransition(path[i - 1], path[i]) && path[i] != Started)
  }

  /** Every walk from Started is bounded both ways; in particular a decision takes from
      four to six moves. */
  lemma {:induction false} DecisionPathBounds(path: seq<State>)
    requires DecisionPath(path)
    ensures FewestMoves(path[|path| - 1]) <= |path| - 1 <= MostMoves(path[|path| - 1])
    ensures IsTerminal(path[|path| - 1]) ==> 4 <= |path| - 1 <= 6
  {
    if |path| > 1 {
      var shorter := path[..|path| - 1];
      assert DecisionPath(shorter);
      DecisionPathBounds(shorter);
      assert CanTransition(path[|path| - 2], path[|path| - 1]);
    }
  }

  /** Both decision bounds are reached, so neither can be tightened. */
  lemma DecisionBoundsAreTight()
    ensures exists p :: DecisionPath(p) && IsTerminal(p[|p| - 1]) && |p| - 1 == 4
    ensures exists p :: DecisionPath(p) && IsTerminal(p[|p| - 1]) && |p| - 1 == 6
  {
    var short := [Started, DocumentsUploaded, LivenessPassed, ManualReview, Pass];
    var long := [Started, DocumentsUploaded, LivenessPassed, Screening, VendorDecision, ManualReview, Fail];
    assert DecisionPath(short) && IsTerminal(short[|short| - 1]);
    assert DecisionPath(long) && IsTerminal(long[|long| - 1]);
  }

  lemma OneMoveFurther(path: seq<State>, to: State)
    requires DecisionPath(path) && CanTransition(path[|path| - 1], to) && to != Started
    ensures DecisionPath(path + [to])
  {
    var longer := path + [to];
    assert forall i | 0 <= i < |path| :: longer[i] == path[i];
  }

  /** The state to come from, on the way with the fewest or with the most moves. */
  function Before(s: State, most: bool): State {
    match s
    case DocumentsUploaded => Started
    case LivenessPassed => DocumentsUploaded
    case Screening => if most then LivenessPassed else DocumentsUploaded
    case VendorDecision => Screening
    case ManualReview => if most then VendorDecision else Screening
    case Pass => if most then ManualReview else VendorDecision
    case Fail => if most then ManualReview else VendorDecision
    case _ => Started
  }

  lemma {:induction false} WalkTo(s: State, most: bool) returns (path: seq<State>)
    requires !s.Other?
    ensures DecisionPath(path) && path[|path| - 1] == s
    ensures |path| - 1 == if most then MostMoves(s) else FewestMoves(s)
    decreases MostMoves(s)
  {
    if s == Started {
      path := [Started];
    } else {
      path := WalkTo(Before(s, most), most);
      assert CanTransition(Before(s, most), s);
      OneMoveFurther(path, s);
      path := path + [s];
    }
  }

  /** Each of the eight states is reached in exactly its fewest and exactly its most moves. */
  lemma EveryBoundIsTight(s: State)
    requires !s.Other?
    ensures exists p :: DecisionPath(p) && p[|p| - 1] == s && |p| - 1 == FewestMoves(s)
    ensures exists p :: DecisionPath(p) && p[|p| - 1] == s && |p| - 1 == MostMoves(s)
  {
    var short := WalkTo(s, false);
    var long := WalkTo(s, true);
  }

  /** No other text is ever reached. */
  lemma OtherTextsAreNeverReached(path: seq<State>, i: nat)
    requires DecisionPath(path) && i < |path|
    ensures !path[i].Other?
  {
    assert i > 0 ==> CanTransition(path[i - 1], path[i]);
  }
}
