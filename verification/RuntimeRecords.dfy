// runtime/harness_runtime/runtime.py: the documents of the execution receipt
// runtime. Fields whose only rule is a fixed spelling are left to the parser.

module RuntimeRecords {
  import opened Wrappers
  import opened Json
  import opened WriteScopes

  const MAX_TEXT := 1024

  predicate BoundedText(s: string) {
    0 < |s| <= MAX_TEXT
  }

  /** `[A-Za-z0-9][A-Za-z0-9._-]{0,127}`. */
  predicate IsCaseId(s: string) {
    1 <= |s| <= 128 && IsAlphanumeric(s[0]) && forall i | 0 <= i < |s| :: IsAlphanumeric(s[i]) || s[i] in "._-"
  }

  predicate IsAlphanumeric(c: char) {
    'A' <= c <= 'Z' || 'a' <= c <= 'z' || '0' <= c <= '9'
  }

  // ---- receipts ----------------------------------------------------------------

  datatype Artifact = Artifact(digest: Hex64, size: int)

  datatype Artifacts = Artifacts(body: Artifact, stdout: Artifact, stderr: Artifact)

  datatype Execution = Execution(
    argv: seq<string>, argvDigest: Hex64,
    environment: map<string, string>, environmentDigest: Hex64,
    commit: string, tree: string, cwd: string, cwdDigest: Hex64)

  datatype EventKind = Dispatch | TerminalEvent

  datatype Status = Observed | Pass | Fail

  datatype Receipt = Receipt(
    sequence: int, event: EventKind, status: Status, caseId: string, consumer: string, recordedAt: int,
    exitCode: Option<int>, artifacts: Artifacts, execution: Option<Execution>,
    experience: Option<ExperienceBinding>, paired: Option<PairBinding>, evaluatorResult: Option<EvaluatorResult>)

  datatype Phase = BaselinePhase | CandidatePhase | RevertPhase

  datatype ExperienceBinding = ExperienceBinding(
    candidateRef: string, admissionDigest: Hex64, packetDigest: Hex64,
    correlationName: string, correlationValue: string,
    heldIn: bool, heldInRef: string, heldInDigest: Hex64,
    phase: Phase, sourceRevisionRef: string, retentionSeconds: int)

  // ---- the pair plan -------------------------------------------------------------

  /** `source-manifest:sha256:<digest>`, or any other text. */
  datatype RevisionRef = ManifestRef(digest: Hex64) | OtherRef(text: string)

  type SourceManifest = map<string, Hex64>

  datatype Revision = Revision(ref: RevisionRef, manifest: SourceManifest)

  datatype Decision = Decision(
    failureRef: string, failureDigest: Hex64, causalHypothesis: string,
    targetedRef: RevisionRef, targetedDigest: Hex64, predictedBenefit: string, atRiskRegression: string)

  datatype Criteria = Criteria(benefit: string, nonInferiority: string, regression: string, uncertainty: string)

  datatype PairPlan = PairPlan(
    pairRef: string, candidateRef: string, cRef: string, graphRef: string,
    admissionDigest: Hex64, packetDigest: Hex64,
    baseline: Revision, candidate: Revision,
    baselineRef: RevisionRef, candidateRevisionRef: RevisionRef,
    modelIdentity: string, modelDigest: Hex64,
    evaluatorIdentity: string, evaluatorDigest: Hex64,
    contractRef: string, contractDigest: Hex64,
    heldInRef: string, heldInDigest: Hex64, heldOutRef: string, heldOutDigest: Hex64,
    samplingIdentity: string, targetAcRefs: seq<string>, criteria: Criteria, preservedAcRefs: seq<string>,
    decision: Decision, retentionSeconds: int)

  datatype Arm = Baseline | Candidate

  datatype Split = HeldIn | HeldOut

  datatype Cell = Cell(arm: Arm, split: Split)

  datatype PairBinding = PairBinding(
    plan: PairPlan, planDigest: Hex64, decisionDigest: Hex64, arm: Arm, split: Split,
    sourceRevisionRef: RevisionRef, splitRef: string, splitDigest: Hex64)

  // ---- facts and holds --------------------------------------------------------------

  /** Acceptance criteria C-L3.4:AC<n> by number; a value that is not a boolean reads as None. */
  type Facts = map<int, Option<bool>>

  datatype Owner = ConstructorOwner | PairedReadbackOwner | VerifierOwner | EvaluatorOwner

  datatype Hold = Hold(owner: Owner, noValueAndOwnerHold: bool)

  const PHASE_ONE: set<int> := {1, 3, 4}

  const OWNER_HOLDS: map<int, Hold> := map[
    2 := Hold(ConstructorOwner, true), 6 := Hold(ConstructorOwner, true), 9 := Hold(ConstructorOwner, true),
    5 := Hold(PairedReadbackOwner, true), 7 := Hold(PairedReadbackOwner, true), 8 := Hold(PairedReadbackOwner, true),
    10 := Hold(PairedReadbackOwner, true), 11 := Hold(PairedReadbackOwner, true),
    12 := Hold(VerifierOwner, true), 13 := Hold(VerifierOwner, true),
    14 := Hold(EvaluatorOwner, true)]

  predicate AreBooleans(facts: Facts) {
    facts.Keys == PHASE_ONE && forall n | n in facts :: facts[n].Some?
  }

  datatype EvaluatorResult = EvaluatorResult(
    evaluatorIdentity: string, evaluatorDigest: string, contractRef: string, contractDigest: string,
    state: string, phase: string, observed: Facts, unresolved: map<int, Hold>)

  // ---- digests and encodings -----------------------------------------------------------

  /** The eight inputs of a cell identity. */
  datatype CellInputs = CellInputs(
    arm: Arm, sourceRevisionRef: RevisionRef, split: Split, splitRef: string, splitDigest: Hex64,
    modelIdentity: string, modelDigest: Hex64, samplingIdentity: string)

  datatype Library = Library(
    bytes: Bytes -> Hex64,
    argv: seq<string> -> Hex64,
    environment: map<string, string> -> Hex64,
    text: string -> Hex64,
    manifest: SourceManifest -> Hex64,
    decision: Decision -> Hex64,
    plan: PairPlan -> Hex64,
    cell: CellInputs -> Hex64,
    encodeResult: EvaluatorResult -> Bytes,
    decodeResult: Bytes -> Option<EvaluatorResult>,
    strippedLength: string -> nat,
    baseEnvironment: map<string, string>,
    evaluatorArgv: seq<string>)

  /** This result, written on an evaluator's standard output, parses back. */
  ghost predicate ResultReadsBack(lib: Library, r: EvaluatorResult) {
    lib.decodeResult(lib.encodeResult(r)) == Some(r)
  }

  // ---- validators of the plan, the binding and the result --------------------------------

  /** A nonempty manifest of plain relative paths, named by its own digest. */
  predicate ManifestValid(lib: Library, revision: Revision) {
    && revision.manifest != map[]
    && (forall path | path in revision.manifest :: BoundedText(path) && PlainPath(path))
    && revision.ref == ManifestRef(lib.manifest(revision.manifest))
  }

  predicate TextsValid(texts: seq<string>) {
    && 0 < |texts| <= 32
    && (forall i, j | 0 <= i < j < |texts| :: texts[i] != texts[j])
    && forall t | t in texts :: BoundedText(t)
  }

  predicate DecisionText(lib: Library, s: string) {
    BoundedText(s) && lib.strippedLength(s) >= 16
  }

  predicate DecisionValid(lib: Library, d: Decision) {
    BoundedText(d.failureRef) && DecisionText(lib, d.causalHypothesis)
    && DecisionText(lib, d.predictedBenefit) && DecisionText(lib, d.atRiskRegression)
  }

  predicate PlanValid(lib: Library, p: PairPlan) {
    && ManifestValid(lib, p.baseline) && ManifestValid(lib, p.candidate)
    && p.baseline.manifest.Keys == p.candidate.manifest.Keys
    && (forall t | t in [p.pairRef, p.candidateRef, p.cRef, p.graphRef, p.modelIdentity, p.evaluatorIdentity,
                         p.contractRef, p.heldInRef, p.heldOutRef, p.samplingIdentity] :: BoundedText(t))
    && p.baselineRef == p.baseline.ref && p.candidateRevisionRef == p.candidate.ref
    && TextsValid(p.targetAcRefs) && TextsValid(p.preservedAcRefs)
    && BoundedText(p.criteria.benefit) && BoundedText(p.criteria.nonInferiority)
    && BoundedText(p.criteria.regression) && BoundedText(p.criteria.uncertainty)
    && DecisionValid(lib, p.decision)
    && p.retentionSeconds > 0
  }

  function PairBindingOf(lib: Library, plan: PairPlan, digest: Hex64, cell: Cell): PairBinding {
    PairBinding(
      plan, digest, lib.decision(plan.decision), cell.arm, cell.split,
      if cell.arm == Baseline then plan.baselineRef else plan.candidateRevisionRef,
      if cell.split == HeldIn then plan.heldInRef else plan.heldOutRef,
      if cell.split == HeldIn then plan.heldInDigest else plan.heldOutDigest)
  }

  /** The candidate arm may carry any manifest ref of its own; everything else follows from the plan. */
  predicate PairBindingValid(lib: Library, b: PairBinding) {
    var expected := PairBindingOf(lib, b.plan, b.planDigest, Cell(b.arm, b.split));
    && PlanValid(lib, b.plan) && lib.plan(b.plan) == b.planDigest
    && lib.decision(b.plan.decision) == b.decisionDigest
    && if b.arm == Candidate
       then b.sourceRevisionRef.ManifestRef? && b == expected.(sourceRevisionRef := b.sourceRevisionRef)
       else b == expected
  }

  predicate EvaluatorResultValid(r: EvaluatorResult, plan: PairPlan) {
    && BoundedText(r.evaluatorIdentity) && BoundedText(r.contractRef)
    && r.evaluatorIdentity == plan.evaluatorIdentity && r.evaluatorDigest == plan.evaluatorDigest
    && r.contractRef == plan.contractRef && r.contractDigest == plan.contractDigest
    && r.state == "partial_unresolved" && r.phase == "phase_1_source_observation"
    && AreBooleans(r.observed)
    && r.unresolved == OWNER_HOLDS
    && r.observed.Keys !! r.unresolved.Keys
  }

  predicate ExperienceBindingValid(b: ExperienceBinding) {
    && (forall t | t in [b.candidateRef, b.correlationName, b.correlationValue, b.heldInRef, b.sourceRevisionRef]
          :: BoundedText(t))
    && b.heldIn && b.retentionSeconds > 0
  }

  // ---- execution metadata ------------------------------------------------------------------

  predicate IsObjectName(s: string) {
    40 <= |s| <= 64 && forall i | 0 <= i < |s| :: IsHexDigit(s[i])
  }

  const STATE_DIR := "HARNESS_STATE_DIR"

  predicate ExecutionValid(lib: Library, e: Execution) {
    && e.argv != [] && (forall item | item in e.argv :: item != "")
    && e.argvDigest == lib.argv(e.argv)
    && STATE_DIR in e.environment
    && e.environment == lib.baseEnvironment[STATE_DIR := e.environment[STATE_DIR]]
    && e.environmentDigest == lib.environment(e.environment)
    && e.cwdDigest == lib.text(e.cwd)
    && IsObjectName(e.commit) && IsObjectName(e.tree)
  }
}
