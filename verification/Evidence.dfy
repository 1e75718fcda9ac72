/** Assessing the evidence behind every decision-material field. */
module Evidence {
  import opened Outcomes
  import opened Ordering
  import opened Domain
  import opened Bounds
  import opened GraphModels

  function Find<T>(s: seq<T>, wanted: T -> bool): (r: Option<T>)
    ensures r.Some? ==> r.value in s && wanted(r.value)
    ensures r.None? ==> forall i :: 0 <= i < |s| ==> !wanted(s[i])
  {
    if s == [] then None
    else if wanted(s[0]) then Some(s[0])
    else
      var rest := Find(s[1..], wanted);
      assert forall i :: 1 <= i < |s| ==> s[i] == s[1..][i - 1];
      rest
  }

  predicate ScopeMatches(host: Host, required: string, actual: string) {
    host.fold(required) == "*" || host.fold(required) == host.fold(actual)
  }

  function StateOf(allowed: bool, disputed: bool, current: Option<bool>): EvidenceState {
    if disputed then EvidenceState.Conflict
    else if current == Some(false) then EvidenceState.Stale
    else if !allowed || current.None? then EvidenceState.Unknown
    else Acceptable
  }

  function Assess(host: Host, evaluatedAt: int, r: EvidenceRecord, p: EvidencePolicy): Result<EvidenceAssessment, Error>
  {
    var allowed := r.sourceClass in p.allowedSourceClasses
                   && r.verificationMethod in p.allowedMethods
                   && ScopeMatches(host, p.requiredScope, r.verificationScope)
                   && r.reconstructable;
    match r.observed
    case None =>
      Ok(EvidenceAssessment(r.evidenceId, p.field, StateOf(allowed, r.disputed || r.revoked, None), true, None))
    case Some(t) =>
      var age :- EvidenceAge(evaluatedAt, t.lower, t.upper, p.freshnessSlaSeconds);
      Ok(EvidenceAssessment(r.evidenceId, p.field, StateOf(allowed, r.disputed || r.revoked, Some(age.high <= 1.0)),
        false, Some(age)))
  }

  /** The evidence may be used for the field at all: class, method, scope and reconstruction are in order. */
  predicate Allowed(host: Host, r: EvidenceRecord, p: EvidencePolicy) {
    && r.sourceClass in p.allowedSourceClasses && r.verificationMethod in p.allowedMethods
    && ScopeMatches(host, p.requiredScope, r.verificationScope) && r.reconstructable
  }

  /** Even the earliest instant the evidence may stem from lies within the freshness allowance. */
  predicate WithinAllowance(evaluatedAt: int, t: ObservedTime, p: EvidencePolicy) {
    evaluatedAt - t.lower <= p.freshnessSlaSeconds * 1_000_000
  }

  lemma PositiveFactor(a: real, b: real)
    requires b > 0.0 && a * b > 0.0
    ensures a > 0.0
  {
  }

  lemma QuotientAtMostOne(x: int, d: int)
    requires d > 0
    ensures x as real / d as real <= 1.0 <==> x <= d
  {
    if x <= d {
      DivideMonotone(x as real, d as real, d as real);
    } else {
      var q := x as real / d as real;
      assert (q - 1.0) * d as real == x as real - d as real;
      PositiveFactor(q - 1.0, d as real);
    }
  }

  /**
   * Disputed or revoked evidence is in conflict; other evidence is stale exactly when it has a time
   * outside the allowance, acceptable exactly when it is allowed and within it, and unknown otherwise.
   */
  lemma StateExact(host: Host, evaluatedAt: int, r: EvidenceRecord, p: EvidencePolicy)
    requires Assess(host, evaluatedAt, r, p).Ok?
    ensures var state := Assess(host, evaluatedAt, r, p).value.state;
            var timely := r.observed.Some? && WithinAllowance(evaluatedAt, r.observed.value, p);
            && (state == EvidenceState.Conflict <==> r.disputed || r.revoked)
            && (state == EvidenceState.Stale <==> !r.disputed && !r.revoked && r.observed.Some? && !timely)
            && (state == Acceptable <==> !r.disputed && !r.revoked && timely && Allowed(host, r, p))
  {
    if r.observed.Some? {
      QuotientAtMostOne(evaluatedAt - r.observed.value.lower, p.freshnessSlaSeconds * 1_000_000);
    }
  }

  /** An evidence identifier with the field it is offered for. */
  function Pair(evidenceId: string, field: string): seq<string> {
    [evidenceId, field]
  }

  function FactPairs(facts: seq<ProductFact>): set<seq<string>> {
    set f, e | f in facts && e in f.evidenceIds :: Pair(e, f.field)
  }

  function CriterionField(preferences: seq<PreferenceCriterion>, criterionId: string): Option<string> {
    match Find(preferences, (p: PreferenceCriterion) => p.criterionId == criterionId)
    case None => None
    case Some(p) => Some(p.field)
  }

  function OutcomePairs(context: DecisionContext): set<seq<string>> {
    set o, e | o in context.outcomes && e in o.evidenceIds && CriterionField(context.preferences, o.criterionId).Some?
      :: Pair(e, CriterionField(context.preferences, o.criterionId).value)
  }

  /** Every evidence and field pair the decision can depend on. */
  function MaterialPairs(context: DecisionContext, representatives: seq<RawCandidate>): set<seq<string>> {
    (set r, p | r in representatives && p in FactPairs(r.facts) :: p)
    + (set a, p | a in context.currentActions && p in FactPairs(a.facts) :: p)
    + OutcomePairs(context)
  }

  function AssessPair(host: Host, context: DecisionContext, evidenceId: string, field: string)
    : (a: Result<EvidenceAssessment, Error>)
    ensures a.Ok? ==> a.value.evidenceId == evidenceId && a.value.field == field
  {
    match Find(context.evidencePolicies, (p: EvidencePolicy) => p.field == field)
    case None => Raise(MissingEvidencePolicy)
    case Some(policy) =>
      match Find(context.evidence, (r: EvidenceRecord) => r.evidenceId == evidenceId)
      case None => Ok(EvidenceAssessment(evidenceId, field, EvidenceState.Unknown, true, None))
      case Some(record) => Assess(host, context.evaluatedAt, record, policy)
  }

  function Assessor(host: Host, context: DecisionContext): seq<string> -> Result<EvidenceAssessment, Error> {
    (p: seq<string>) => if |p| == 2 then AssessPair(host, context, p[0], p[1]) else Raise(MissingEvidencePolicy)
  }

  /** Assess each pair once, in order; the first exception aborts the stage. */
  function AssessEvidence(host: Host, context: DecisionContext, representatives: seq<RawCandidate>)
    : Result<seq<EvidenceAssessment>, Error>
  {
    Traverse(SortedTuples(MaterialPairs(context, representatives)), Assessor(host, context))
  }

  function IndexOf(assessments: seq<EvidenceAssessment>): AssessmentIndex {
    if assessments == [] then map[]
    else
      var last := assessments[|assessments| - 1];
      IndexOf(assessments[..|assessments| - 1])[(last.evidenceId, last.field) := last]
  }

  /** The index holds the assessments under their own identifiers, and nothing else. */
  lemma {:induction false} IndexHolds(assessments: seq<EvidenceAssessment>)
    ensures forall k :: k in IndexOf(assessments) ==>
              IndexOf(assessments)[k] in assessments
                && k == (IndexOf(assessments)[k].evidenceId, IndexOf(assessments)[k].field)
    ensures forall a :: a in assessments ==> (a.evidenceId, a.field) in IndexOf(assessments)
  {
    if assessments != [] {
      var before, last := assessments[..|assessments| - 1], assessments[|assessments| - 1];
      IndexHolds(before);
      assert assessments == before + [last];
    }
  }

  /** assessments[i] is the assessment of pairs[i]. */
  ghost predicate Assessed(host: Host, context: DecisionContext, pairs: seq<seq<string>>,
      assessments: seq<EvidenceAssessment>)
  {
    && |assessments| == |pairs|
    && forall i :: 0 <= i < |pairs| ==>
         |pairs[i]| == 2 && AssessPair(host, context, pairs[i][0], pairs[i][1]) == Ok(assessments[i])
  }

  lemma IndexAnswers(host: Host, context: DecisionContext, pairs: seq<seq<string>>,
      assessments: seq<EvidenceAssessment>, e: string, f: string)
    requires Assessed(host, context, pairs, assessments)
    ensures (e, f) in IndexOf(assessments) <==> Pair(e, f) in pairs
    ensures (e, f) in IndexOf(assessments) ==> AssessPair(host, context, e, f) == Ok(IndexOf(assessments)[(e, f)])
  {
    hide IndexOf, AssessPair;
    IndexHolds(assessments);
    if Pair(e, f) in pairs {
      var i :| 0 <= i < |pairs| && pairs[i] == Pair(e, f);
      assert assessments[i] in assessments;
    }
    if (e, f) in IndexOf(assessments) {
      var i :| 0 <= i < |assessments| && assessments[i] == IndexOf(assessments)[(e, f)];
      assert pairs[i] == Pair(e, f);
    }
  }

  lemma AssessedOver(host: Host, context: DecisionContext, material: set<seq<string>>)
    requires Traverse(SortedTuples(material), Assessor(host, context)).Ok?
    ensures var index := IndexOf(Traverse(SortedTuples(material), Assessor(host, context)).value);
            && (forall e, f :: (e, f) in index <==> Pair(e, f) in material)
            && (forall e, f :: (e, f) in index ==> AssessPair(host, context, e, f) == Ok(index[(e, f)]))
  {
    var pairs := SortedTuples(material);
    TraversePointwise(pairs, Assessor(host, context));
    var assessments := Traverse(pairs, Assessor(host, context)).value;
    assert Assessed(host, context, pairs, assessments);
    forall e, f
      ensures (e, f) in IndexOf(assessments) <==> Pair(e, f) in material
      ensures (e, f) in IndexOf(assessments) ==> AssessPair(host, context, e, f) == Ok(IndexOf(assessments)[(e, f)])
    {
      IndexAnswers(host, context, pairs, assessments, e, f);
    }
  }

  /** A stage that finishes has assessed exactly the material pairs, each by its own policy and record. */
  lemma AssessedExactly(host: Host, context: DecisionContext, representatives: seq<RawCandidate>)
    requires AssessEvidence(host, context, representatives).Ok?
    ensures var index := IndexOf(AssessEvidence(host, context, representatives).value);
            && (forall e, f :: (e, f) in index <==> Pair(e, f) in MaterialPairs(context, representatives))
            && (forall e, f :: (e, f) in index ==> AssessPair(host, context, e, f) == Ok(index[(e, f)]))
  {
    AssessedOver(host, context, MaterialPairs(context, representatives));
  }

  // ---- In terms of policy and record ----

  /** The first policy on the field, and the first record of the evidence. */
  ghost predicate Governed(context: DecisionContext, evidenceId: string, field: string, p: EvidencePolicy,
      r: EvidenceRecord)
  {
    && FirstWith(context.evidencePolicies, (x: EvidencePolicy) => x.field, field, p)
    && FirstWith(context.evidence, (x: EvidenceRecord) => x.evidenceId, evidenceId, r)
  }

  ghost predicate FirstWith<T>(s: seq<T>, key: T -> string, k: string, x: T) {
    exists i :: 0 <= i < |s| && s[i] == x && key(x) == k && forall j :: 0 <= j < i ==> key(s[j]) != k
  }

  lemma {:induction false} FirstIsFound<T>(s: seq<T>, key: T -> string, wanted: T -> bool, k: string, x: T)
    requires FirstWith(s, key, k, x) && forall y :: wanted(y) <==> key(y) == k
    ensures Find(s, wanted) == Some(x)
  {
    var i :| 0 <= i < |s| && s[i] == x && key(x) == k && forall j :: 0 <= j < i ==> key(s[j]) != k;
    if i > 0 {
      assert key(s[0]) != k;
      assert s[1..][i - 1] == x && forall j :: 0 <= j < i - 1 ==> s[1..][j] == s[j + 1];
      FirstIsFound(s[1..], key, wanted, k, x);
    }
  }

  lemma GovernedPair(host: Host, context: DecisionContext, evidenceId: string, field: string, p: EvidencePolicy,
      r: EvidenceRecord)
    requires Governed(context, evidenceId, field, p, r)
    ensures AssessPair(host, context, evidenceId, field) == Assess(host, context.evaluatedAt, r, p)
    ensures p.field == field && r.evidenceId == evidenceId
  {
    FirstIsFound(context.evidencePolicies, (x: EvidencePolicy) => x.field, (x: EvidencePolicy) => x.field == field,
      field, p);
    FirstIsFound(context.evidence, (x: EvidenceRecord) => x.evidenceId,
      (x: EvidenceRecord) => x.evidenceId == evidenceId, evidenceId, r);
  }

  /**
   * Evidence is acceptable for a field exactly when it is neither disputed nor revoked, of a class and method the
   * field's policy allows, reconstructable, verified in the required scope or in any if any will do, and observed
   * no longer ago than the allowance at the earliest. Its age is how long ago it was observed, in allowances.
   */
  lemma AcceptableExact(host: Host, context: DecisionContext, evidenceId: string, field: string, p: EvidencePolicy,
      r: EvidenceRecord)
    requires Governed(context, evidenceId, field, p, r) && AssessPair(host, context, evidenceId, field).Ok?
    ensures var a := AssessPair(host, context, evidenceId, field).value;
            && (a.state == Acceptable
                <==> && !r.disputed && !r.revoked && r.reconstructable
                     && r.sourceClass in p.allowedSourceClasses && r.verificationMethod in p.allowedMethods
                     && (host.fold(p.requiredScope) == "*"
                         || host.fold(p.requiredScope) == host.fold(r.verificationScope))
                     && r.observed.Some?
                     && context.evaluatedAt - r.observed.value.lower <= p.freshnessSlaSeconds * 1_000_000)
            && (a.timeUnavailable <==> r.observed.None?) && (a.ageBounds.None? <==> r.observed.None?)
            && (r.observed.Some? ==>
                  var sla := (p.freshnessSlaSeconds * 1_000_000) as real;
                  && sla > 0.0
                  && a.ageBounds.value.low == (context.evaluatedAt - r.observed.value.upper) as real / sla
                  && a.ageBounds.value.high == (context.evaluatedAt - r.observed.value.lower) as real / sla)
  {
    GovernedPair(host, context, evidenceId, field, p, r);
    StateExact(host, context.evaluatedAt, r, p);
  }

  /** Evidence nobody holds a record of is unknown, and nobody knows its age. */
  lemma UnrecordedExact(host: Host, context: DecisionContext, evidenceId: string, field: string)
    requires AssessPair(host, context, evidenceId, field).Ok?
    requires forall r :: r in context.evidence ==> r.evidenceId != evidenceId
    ensures var a := AssessPair(host, context, evidenceId, field).value;
            a.state == EvidenceState.Unknown && a.timeUnavailable && a.ageBounds.None?
  {
  }
}
