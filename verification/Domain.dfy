/** Shared enumerations and money. */
module Domain {

  /** The exceptions this model distinguishes. */
  datatype Error =
    | AliasCycle
    | DuplicateIdentifier
    | MissingEvidencePolicy
    | InvalidFreshnessAllowance
    | EvidenceAfterEvaluation
    | InvalidPreferenceBounds
    | InvalidCoverage
    | InvalidCostBounds
    | UnparsableNumber
    | UnsupportedOperator
    | InvalidBoundedPlan
    | IncomparableCosts
    | InvalidCounterfactualLimit
    | MissingRequiredFields
    | MissingProfileLineage
    | MissingGoverningOwner
    | MissingAllowedRegions
    | UnboundAdapterSet
    | MissingRuntimeResult
    | InvalidGateResults
    | MissingRuntimeIdentity
    | SubstitutedDigest
    | MismatchedRegion
    | NoStableWinner

  datatype StackRisk = Low | Medium | High | Critical {
    function Rank(): int {
      match this
      case Low => 0
      case Medium => 1
      case High => 2
      case Critical => 3
    }
  }

  datatype CandidateStatus =
    | Eligible
    | EligibleWithException
    | Conditional
    | SiraIneligible
    | SeilPass
    | Unavailable
    | StaleEvidence
    | InsufficientEvidence
    | ConflictingEvidence
    | AuthorityRequired
    | AdvisoryOnly
  {
    /** Position in the status precedence; the smallest wins. */
    function Rank(): nat {
      match this
      case Unavailable => 0
      case ConflictingEvidence => 1
      case StaleEvidence => 2
      case InsufficientEvidence => 3
      case SiraIneligible => 4
      case SeilPass => 5
      case AuthorityRequired => 6
      case AdvisoryOnly => 7
      case Conditional => 8
      case EligibleWithException => 9
      case Eligible => 10
    }

    predicate IsEligible() {
      Eligible? || EligibleWithException?
    }
  }

  datatype TruthValue = True | False | Unknown | Conflict | Unresolved

  datatype RankStability = Stable | Unstable | Undetermined

  datatype PackAuthority = SellerSealed | PlatformCompiled | ExternalUnsealed {
    function Rank(): nat {
      match this
      case SellerSealed => 0
      case PlatformCompiled => 1
      case ExternalUnsealed => 2
    }
  }

  datatype SolutionAction =
    | ReuseExisting
    | ConfigureExisting
    | NoAction
    | Buy
    | Renew
    | Resize
    | Replace
    | Consolidate
    | Cancel
  {
    /** The enumeration value; the engine also uses its lower-case form as a stable identifier. */
    function Name(): string {
      match this
      case ReuseExisting => "REUSE_EXISTING"
      case ConfigureExisting => "CONFIGURE_EXISTING"
      case NoAction => "NO_ACTION"
      case Buy => "BUY"
      case Renew => "RENEW"
      case Resize => "RESIZE"
      case Replace => "REPLACE"
      case Consolidate => "CONSOLIDATE"
      case Cancel => "CANCEL"
    }

    function StableId(): string {
      match this
      case ReuseExisting => "reuse_existing"
      case ConfigureExisting => "configure_existing"
      case NoAction => "no_action"
      case Buy => "buy"
      case Renew => "renew"
      case Resize => "resize"
      case Replace => "replace"
      case Consolidate => "consolidate"
      case Cancel => "cancel"
    }
  }

  /** A non-negative amount with at most two decimals, held in hundredths. */
  datatype Money = Money(amount: nat, currency: string)
}
