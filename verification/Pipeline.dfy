// runtime/harness_runtime/runtime.py and l3_ac14_evaluator.py: source output,
// constructor, evaluator and result validator of one paired cell.

module Pipeline {
  import opened Wrappers
  import opened Json
  import opened Ordering
  import opened RuntimeRecords

  // ---- documents -------------------------------------------------------------------

  datatype ProducerCell = ProducerCell(inputs: CellInputs, identity: Hex64)

  datatype Producer = Producer(declared: bool, candidate: Revision, cell: ProducerCell, preserved: Facts)

  datatype ObservationBinding = ObservationBinding(
    candidateRef: string, admissionDigest: Hex64, planDigest: Hex64, arm: Arm, split: Split,
    sourceRevisionRef: RevisionRef, splitRef: string, splitDigest: Hex64,
    modelIdentity: string, modelDigest: Hex64, evaluatorIdentity: string, evaluatorDigest: Hex64,
    contractRef: string, contractDigest: Hex64, targetAcRef: string)

  datatype SourceReadback = SourceReadback(
    schemaSupported: bool, caseId: string, stopped: bool, readAt: int, binding: ObservationBinding,
    dispatchDigest: Hex64, terminalDigest: Hex64, outputDigest: Hex64, artifacts: Artifacts)

  datatype Observation = Observation(
    binding: ObservationBinding, preserved: Facts, holds: map<int, Hold>, evidenceRefs: seq<string>)

  /** The admission and packet fields a pair plan must repeat; `shapesHold` stands for their other rules. */
  datatype PairAdmission = PairAdmission(
    shapesHold: bool, candidateRef: string, baselineCommit: string, candidateBaseline: string,
    allowedWriteRefs: seq<string>, causalHypothesis: string, cRef: string, acRef: string, expectedEffect: string,
    modelIdentity: string, modelDigest: Hex64, evaluatorIdentity: string, evaluatorDigest: Hex64,
    heldInRef: string, heldInDigest: Hex64, heldOutRef: string, heldOutDigest: Hex64, samplingIdentity: string,
    criteria: Criteria, preservedAcRefs: seq<string>,
    controlEvaluatorRef: string, controlHeldOutRef: string, receiptSchemaRef: string, retentionSeconds: int)

  datatype Packet = Packet(
    familySupported: bool, workId: string, graphRef: string, localNodes: seq<string>,
    sourceCandidateRef: string, sourceAdmissionDigest: Hex64, taskAc: seq<string>, allowedWriteRefs: seq<string>)

  /** Digests and exact-line parsers of the pipeline's own documents. */
  datatype Codec = Codec(
    lib: Library,
    admission: PairAdmission -> Hex64,
    packet: Packet -> Hex64,
    producer: Bytes -> Option<Producer>,
    receipt: Bytes -> Option<Receipt>,
    readback: Bytes -> Option<SourceReadback>,
    encodeObservation: Observation -> Bytes,
    decodeObservation: Bytes -> Option<Observation>)

  ghost predicate ReadsBack(codec: Codec, o: Observation) {
    codec.decodeObservation(codec.encodeObservation(o)) == Some(o)
  }

  datatype Inputs = Inputs(
    sourceCaseId: string, evaluatorCaseId: string, output: Bytes,
    dispatch: Bytes, terminal: Bytes, readback: Bytes,
    plan: PairPlan, planDigest: Hex64, cell: Cell,
    admission: PairAdmission, admissionDigest: Hex64, packet: Packet, packetDigest: Hex64)

  datatype Rejection =
    | CaseIdsInvalid | PlanRejected | ProducerRejected | ReceiptsRejected | ReadbackRejected

  // ---- the admitted plan -------------------------------------------------------------

  predicate PlanMatchesAdmission(
    p: PairPlan, a: PairAdmission, admissionDigest: Hex64, k: Packet, packetDigest: Hex64)
  {
    && p.candidateRef == a.candidateRef && p.cRef == a.cRef && p.graphRef == k.graphRef
    && p.admissionDigest == admissionDigest && p.packetDigest == packetDigest
    && p.modelIdentity == a.modelIdentity && p.modelDigest == a.modelDigest
    && p.evaluatorIdentity == a.evaluatorIdentity && p.evaluatorDigest == a.evaluatorDigest
    && p.contractRef == a.receiptSchemaRef
    && p.heldInRef == a.heldInRef && p.heldInDigest == a.heldInDigest
    && p.heldOutRef == a.heldOutRef && p.heldOutDigest == a.heldOutDigest
    && p.samplingIdentity == a.samplingIdentity && p.targetAcRefs == [a.acRef]
    && p.criteria == a.criteria && p.preservedAcRefs == a.preservedAcRefs
    && p.retentionSeconds == a.retentionSeconds
  }

  predicate PacketMatches(p: PairPlan, a: PairAdmission, admissionDigest: Hex64, k: Packet) {
    && k.familySupported && k.workId == a.cRef && k.localNodes == [a.cRef]
    && k.sourceCandidateRef == a.candidateRef && k.sourceAdmissionDigest == admissionDigest
    && k.taskAc == [a.acRef] && k.allowedWriteRefs == a.allowedWriteRefs && k.taskAc == p.targetAcRefs
    && p.baseline.manifest.Keys == (set ref | ref in a.allowedWriteRefs)
    && p.candidate.manifest.Keys == (set ref | ref in a.allowedWriteRefs)
  }

  predicate DecisionMatches(p: PairPlan, a: PairAdmission) {
    && p.decision.causalHypothesis == a.causalHypothesis
    && p.decision.predictedBenefit == a.expectedEffect
    && p.decision.atRiskRegression == a.criteria.nonInferiority
    && p.decision.targetedRef == p.candidate.ref
    && p.candidate.ref == ManifestRef(p.decision.targetedDigest)
  }

  predicate PlanAdmitted(codec: Codec, inputs: Inputs) {
    var p, a, k := inputs.plan, inputs.admission, inputs.packet;
    && PlanValid(codec.lib, p) && codec.lib.plan(p) == inputs.planDigest
    && codec.admission(a) == inputs.admissionDigest && a.shapesHold && a.candidateBaseline == a.baselineCommit
    && a.controlEvaluatorRef == a.evaluatorIdentity && a.controlHeldOutRef == a.heldOutRef
    && codec.packet(k) == inputs.packetDigest
    && PacketMatches(p, a, inputs.admissionDigest, k) && DecisionMatches(p, a)
    && PlanMatchesAdmission(p, a, inputs.admissionDigest, k, inputs.packetDigest)
  }

  // ---- the source producer -------------------------------------------------------------

  function CellInputsOf(b: PairBinding): CellInputs {
    CellInputs(b.arm, b.sourceRevisionRef, b.split, b.splitRef, b.splitDigest,
               b.plan.modelIdentity, b.plan.modelDigest, b.plan.samplingIdentity)
  }

  function ExpectedCell(lib: Library, plan: PairPlan, cell: Cell): ProducerCell {
    var inputs := CellInputsOf(PairBindingOf(lib, plan, lib.plan(plan), cell));
    ProducerCell(inputs, lib.cell(inputs))
  }

  /** The candidate arm's cell is read against its own manifest ref instead of the planned one. */
  predicate ProducerValid(lib: Library, p: Producer, expected: ProducerCell, allowed: SourceManifest) {
    && p.declared
    && ManifestValid(lib, p.candidate) && p.candidate.manifest.Keys == allowed.Keys
    && p.cell.identity == lib.cell(p.cell.inputs)
    && p.cell.inputs.sourceRevisionRef.ManifestRef?
    && BoundedText(p.cell.inputs.splitRef) && BoundedText(p.cell.inputs.modelIdentity)
    && BoundedText(p.cell.inputs.samplingIdentity)
    && (if p.cell.inputs.arm == Candidate
        then p.cell == ProducerCell(expected.inputs.(sourceRevisionRef := p.candidate.ref), p.cell.identity)
        else p.cell == expected)
    && AreBooleans(p.preserved)
  }

  predicate ProducerAdmitted(codec: Codec, inputs: Inputs, producer: Producer) {
    ProducerValid(codec.lib, producer, ExpectedCell(codec.lib, inputs.plan, inputs.cell),
                  inputs.plan.candidate.manifest)
  }

  // ---- the source receipts -------------------------------------------------------------

  predicate EmptyOutputs(lib: Library, a: Artifacts) {
    a.stdout == Artifact(lib.bytes([]), 0) && a.stderr == Artifact(lib.bytes([]), 0)
  }

  const SOURCE_ARGV: seq<string> := ["source-observation-producer", "--stdin-only"]

  predicate ReceiptsValid(lib: Library, inputs: Inputs, d: Receipt, t: Receipt) {
    && d.sequence == 1 && d.event == Dispatch && d.status == Observed && d.caseId == inputs.sourceCaseId
    && d.exitCode == None && d.execution == None
    && t.sequence == 2 && t.event == TerminalEvent && t.status == Status.Pass && t.exitCode == Some(0)
    && t.caseId == inputs.sourceCaseId && t.consumer == d.consumer && BoundedText(d.consumer)
    && d.experience == None && d.paired == None && d.evaluatorResult == None
    && t.experience == None && t.paired == None && t.evaluatorResult == None
    && d.recordedAt < t.recordedAt
    && t.execution.Some? && ExecutionValid(lib, t.execution.value) && t.execution.value.argv == SOURCE_ARGV
    && d.artifacts.body == t.artifacts.body && EmptyOutputs(lib, d.artifacts)
    && t.artifacts.stdout == Artifact(lib.bytes(inputs.output), |inputs.output|)
  }

  predicate ReceiptsAccepted(codec: Codec, inputs: Inputs) {
    && codec.receipt(inputs.dispatch).Some? && codec.receipt(inputs.terminal).Some?
    && ReceiptsValid(codec.lib, inputs, codec.receipt(inputs.dispatch).value, codec.receipt(inputs.terminal).value)
  }

  // ---- the constructor -------------------------------------------------------------------

  function BindingOf(inputs: Inputs, producer: Producer): ObservationBinding {
    var p := inputs.plan;
    ObservationBinding(
      p.candidateRef, inputs.admissionDigest, inputs.planDigest, inputs.cell.arm, inputs.cell.split,
      if producer.cell.inputs.arm == Candidate then producer.cell.inputs.sourceRevisionRef
      else if inputs.cell.arm == Baseline then p.baselineRef else p.candidateRevisionRef,
      if inputs.cell.split == HeldIn then p.heldInRef else p.heldOutRef,
      if inputs.cell.split == HeldIn then p.heldInDigest else p.heldOutDigest,
      p.modelIdentity, p.modelDigest, p.evaluatorIdentity, p.evaluatorDigest,
      p.contractRef, p.contractDigest, "AC14")
  }

  function ExpectedReadback(
    lib: Library, inputs: Inputs, binding: ObservationBinding, t: Receipt, readAt: int): SourceReadback
  {
    SourceReadback(true, inputs.sourceCaseId, true, readAt, binding, lib.bytes(inputs.dispatch),
                   lib.bytes(inputs.terminal), lib.bytes(inputs.output), t.artifacts)
  }

  predicate ReadbackAccepted(codec: Codec, inputs: Inputs, binding: ObservationBinding)
    requires codec.receipt(inputs.terminal).Some?
  {
    var terminal := codec.receipt(inputs.terminal).value;
    && codec.readback(inputs.readback).Some?
    && var readback := codec.readback(inputs.readback).value;
       && readback.readAt > terminal.recordedAt
       && readback == ExpectedReadback(codec.lib, inputs, binding, terminal, readback.readAt)
  }

  function EvidenceRefs(lib: Library, inputs: Inputs): seq<string> {
    Ascending([
      "pair-plan:sha256:" + inputs.planDigest,
      "source-observation-case:" + inputs.sourceCaseId,
      "source-observation-dispatch-receipt:sha256:" + lib.bytes(inputs.dispatch),
      "source-observation-terminal-receipt:sha256:" + lib.bytes(inputs.terminal),
      "source-observation-readback:sha256:" + lib.bytes(inputs.readback),
      "source-observation-output:sha256:" + lib.bytes(inputs.output)])
  }

  /** What the constructor encodes when it succeeds. */
  function Constructed(codec: Codec, inputs: Inputs, producer: Producer): Observation {
    Observation(BindingOf(inputs, producer), producer.preserved, OWNER_HOLDS, EvidenceRefs(codec.lib, inputs))
  }

  /** The checks before the receipts: case ids, plan and producer output. */
  function AdmittedProducer(codec: Codec, inputs: Inputs): (r: Result<Producer, Rejection>)
    ensures r.Success? <==>
      && IsCaseId(inputs.sourceCaseId) && IsCaseId(inputs.evaluatorCaseId)
      && inputs.sourceCaseId != inputs.evaluatorCaseId
      && PlanAdmitted(codec, inputs)
      && codec.producer(inputs.output).Some?
      && ProducerAdmitted(codec, inputs, codec.producer(inputs.output).value)
    ensures r.Success? ==> codec.producer(inputs.output) == Some(r.value)
  {
    var parsed := codec.producer(inputs.output);
    :- Need(IsCaseId(inputs.sourceCaseId) && IsCaseId(inputs.evaluatorCaseId)
            && inputs.sourceCaseId != inputs.evaluatorCaseId, CaseIdsInvalid);
    :- Need(PlanAdmitted(codec, inputs), PlanRejected);
    :- Need(parsed.Some? && ProducerAdmitted(codec, inputs, parsed.value), ProducerRejected);
    Success(parsed.value)
  }

  function Construct(codec: Codec, inputs: Inputs): (r: Result<Bytes, Rejection>)
    ensures r.Success? ==> AdmittedProducer(codec, inputs).Success?
    ensures r.Success? ==>
      r.value == codec.encodeObservation(Constructed(codec, inputs, AdmittedProducer(codec, inputs).value))
  {
    var producer :- AdmittedProducer(codec, inputs);
    :- Need(ReceiptsAccepted(codec, inputs), ReceiptsRejected);
    :- Need(ReadbackAccepted(codec, inputs, BindingOf(inputs, producer)), ReadbackRejected);
    Success(codec.encodeObservation(Constructed(codec, inputs, producer)))
  }

  // ---- the evaluator -----------------------------------------------------------------------

  /** The evaluator's own constants. */
  const EVALUATOR_IDENTITY := "maat:C-L3.4:AC14-direct-runtime-evaluator"
  const EVALUATOR_DIGEST := "5da3457d462cdfe75b792ed4b48dea7d872eae9ce66aba894b38442bfcb83994"
  const CONTRACT_REF := "harness.runtime.execution-receipt.v1"
  const CONTRACT_DIGEST := "928954a0f4ac84768e14b752386a6a6de2ae03fe43ac8e34d56384b941f305cb"

  predicate NamesThisEvaluator(identity: string, digest: Hex64, contract: string, contractDigest: Hex64) {
    identity == EVALUATOR_IDENTITY && digest == EVALUATOR_DIGEST
    && contract == CONTRACT_REF && contractDigest == CONTRACT_DIGEST
  }

  predicate Accepts(o: Observation) {
    var b := o.binding;
    && BoundedText(b.candidateRef) && BoundedText(b.splitRef) && BoundedText(b.modelIdentity)
    && b.sourceRevisionRef.ManifestRef?
    && NamesThisEvaluator(b.evaluatorIdentity, b.evaluatorDigest, b.contractRef, b.contractDigest)
    && b.targetAcRef == "AC14"
    && AreBooleans(o.preserved)
    && o.holds == OWNER_HOLDS
    && o.preserved.Keys !! o.holds.Keys
    && o.evidenceRefs != []
    && (forall ref | ref in o.evidenceRefs :: BoundedText(ref))
    && IsAscending(o.evidenceRefs)
  }

  function Evaluate(o: Observation): EvaluatorResult {
    EvaluatorResult(EVALUATOR_IDENTITY, EVALUATOR_DIGEST, CONTRACT_REF, CONTRACT_DIGEST,
                    "partial_unresolved", "phase_1_source_observation", o.preserved, o.holds)
  }

  datatype Completed = Completed(exitCode: int, stdout: Bytes)

  /** The evaluator process: exit 2 on anything that is not an accepted canonical observation. */
  function EvaluatorMain(codec: Codec, raw: Bytes): Completed {
    match codec.decodeObservation(raw)
    case None => Completed(2, [])
    case Some(o) =>
      if raw == codec.encodeObservation(o) && Accepts(o)
      then Completed(0, codec.lib.encodeResult(Evaluate(o)))
      else Completed(2, [])
  }

  // ---- composition ----------------------------------------------------------------------------

  /** Strictly ascending, which is what `sorted` and duplicate-free come to. */
  predicate IsAscending(refs: seq<string>) {
    forall i, j | 0 <= i < j < |refs| :: TextLe(refs[i], refs[j]) && refs[i] != refs[j]
  }

  function Place(x: string, s: seq<string>): seq<string> {
    if s == [] then [x]
    else if x == s[0] then s
    else if TextLe(x, s[0]) then [x] + s
    else [s[0]] + Place(x, s[1..])
  }

  /** `sorted({...})`. */
  function Ascending(s: seq<string>): seq<string> {
    if s == [] then [] else Place(s[0], Ascending(s[1..]))
  }

  lemma {:induction false} PlaceAscends(x: string, s: seq<string>)
    requires IsAscending(s)
    ensures IsAscending(Place(x, s))
    ensures forall y :: y in Place(x, s) <==> y == x || y in s
  {
    if s != [] && x != s[0] {
      TextTotal(x, s[0]);
      if TextLe(x, s[0]) {
        forall j | 0 <= j < |s| ensures TextLe(x, s[j]) && x != s[j] {
          if j > 0 {
            TextTransitive(x, s[0], s[j]);
            TextTotal(x, s[0]);
            assert s[0] != s[j];
          }
        }
      } else {
        PlaceAscends(x, s[1..]);
        var rest := Place(x, s[1..]);
        forall j | 0 <= j < |rest| ensures TextLe(s[0], rest[j]) && s[0] != rest[j] {
          assert rest[j] in rest;
        }
      }
    }
  }

  lemma {:induction false} AscendingAscends(s: seq<string>)
    ensures IsAscending(Ascending(s))
    ensures forall y :: y in Ascending(s) <==> y in s
  {
    if s != [] {
      AscendingAscends(s[1..]);
      PlaceAscends(s[0], Ascending(s[1..]));
    }
  }

  lemma EvidenceIsInOrder(lib: Library, inputs: Inputs)
    requires IsCaseId(inputs.sourceCaseId)
    ensures var refs := EvidenceRefs(lib, inputs);
      refs != [] && IsAscending(refs) && forall ref | ref in refs :: BoundedText(ref)
  {
    var raw := [
      "pair-plan:sha256:" + inputs.planDigest,
      "source-observation-case:" + inputs.sourceCaseId,
      "source-observation-dispatch-receipt:sha256:" + lib.bytes(inputs.dispatch),
      "source-observation-terminal-receipt:sha256:" + lib.bytes(inputs.terminal),
      "source-observation-readback:sha256:" + lib.bytes(inputs.readback),
      "source-observation-output:sha256:" + lib.bytes(inputs.output)];
    AscendingAscends(raw);
    assert raw[0] in Ascending(raw);
    forall ref | ref in raw ensures BoundedText(ref) {
      assert |ref| <= 200;
    }
  }

  /** The producer's facts as the observation carries them. */
  function ProducerFacts(codec: Codec, inputs: Inputs): Facts {
    match codec.producer(inputs.output)
    case Some(producer) => producer.preserved
    case None => map[]
  }

  predicate PlanNamesThisEvaluator(p: PairPlan) {
    NamesThisEvaluator(p.evaluatorIdentity, p.evaluatorDigest, p.contractRef, p.contractDigest)
  }

  /** The evaluator accepts exactly when the plan names it; then its result is valid and keeps the facts. */
  predicate Composed(codec: Codec, plan: PairPlan, facts: Facts, completed: Completed) {
    && completed.exitCode == (if PlanNamesThisEvaluator(plan) then 0 else 2)
    && (completed.exitCode == 0 ==>
          var result := codec.lib.decodeResult(completed.stdout);
          result.Some? && EvaluatorResultValid(result.value, plan) && result.value.observed == facts)
  }

  /** The two documents that one cell's pipeline writes parse back. */
  ghost predicate CellReadsBack(codec: Codec, inputs: Inputs)
    requires AdmittedProducer(codec, inputs).Success?
  {
    var o := Constructed(codec, inputs, AdmittedProducer(codec, inputs).value);
    ReadsBack(codec, o) && ResultReadsBack(codec.lib, Evaluate(o))
  }

  /**
   * Whatever the constructor builds, the evaluator accepts exactly when the plan names this very
   * evaluator and contract; then its result passes the validator and carries the producer's facts
   * unchanged, and otherwise it exits 2.
   */
  lemma PipelineComposes(codec: Codec, inputs: Inputs)
    requires Construct(codec, inputs).Success? && CellReadsBack(codec, inputs)
    ensures Composed(codec, inputs.plan, ProducerFacts(codec, inputs),
                     EvaluatorMain(codec, Construct(codec, inputs).value))
  {
    AdmittedComposes(codec, inputs);
  }

  lemma AdmittedComposes(codec: Codec, inputs: Inputs)
    requires AdmittedProducer(codec, inputs).Success? && CellReadsBack(codec, inputs)
    ensures var producer := AdmittedProducer(codec, inputs).value;
      Composed(codec, inputs.plan, ProducerFacts(codec, inputs),
               EvaluatorMain(codec, codec.encodeObservation(Constructed(codec, inputs, producer))))
  {
    var producer := AdmittedProducer(codec, inputs).value;
    var o := Constructed(codec, inputs, producer);
    AcceptedExactlyWhenNamed(codec, inputs, producer);
    EvaluatorRuns(codec, codec.encodeObservation(o), inputs.plan);
  }

  /**
   * On any bytes at all the evaluator exits 0 or 2, and 0 exactly on the canonical text of an observation
   * that it accepts. Its result then keeps the observed facts, and of all valid plans it satisfies exactly
   * those that name this evaluator.
   */
  lemma EvaluatorRuns(codec: Codec, raw: Bytes, plan: PairPlan)
    ensures var completed, parsed := EvaluatorMain(codec, raw), codec.decodeObservation(raw);
      && (completed.exitCode == 0 || completed.exitCode == 2)
      && (completed.exitCode == 0 <==>
            parsed.Some? && raw == codec.encodeObservation(parsed.value) && Accepts(parsed.value))
      && (completed.exitCode == 0 && ResultReadsBack(codec.lib, Evaluate(parsed.value)) ==>
            var result := codec.lib.decodeResult(completed.stdout);
            && result.Some? && result.value.observed == parsed.value.preserved
            && (PlanValid(codec.lib, plan) ==>
                  (EvaluatorResultValid(result.value, plan) <==> PlanNamesThisEvaluator(plan))))
  {
    var parsed := codec.decodeObservation(raw);
    if parsed.Some? && Accepts(parsed.value) && PlanNamesThisEvaluator(plan) && PlanValid(codec.lib, plan) {
      ResultIsValid(codec.lib, parsed.value, plan);
    }
  }

  lemma AcceptedExactlyWhenNamed(codec: Codec, inputs: Inputs, producer: Producer)
    requires PlanAdmitted(codec, inputs) && IsCaseId(inputs.sourceCaseId)
    requires ProducerAdmitted(codec, inputs, producer)
    ensures Accepts(Constructed(codec, inputs, producer)) <==> PlanNamesThisEvaluator(inputs.plan)
  {
    EvidenceIsInOrder(codec.lib, inputs);
    HoldsAreNotFacts();
    BindingIsBounded(codec, inputs, producer);
  }

  lemma ResultIsValid(lib: Library, o: Observation, plan: PairPlan)
    requires Accepts(o) && PlanNamesThisEvaluator(plan) && PlanValid(lib, plan)
    ensures EvaluatorResultValid(Evaluate(o), plan)
  {
  }

  /**
   * For one plan and one cell, two admitted producer outputs carry the same cell exactly when the cell is
   * of the baseline arm or they name the same candidate manifest: nothing else is left to the producer.
   */
  lemma AdmittedCellsAgreeExactly(codec: Codec, inputs: Inputs, others: Inputs)
    requires AdmittedProducer(codec, inputs).Success? && AdmittedProducer(codec, others).Success?
    requires inputs.plan == others.plan && inputs.cell == others.cell
    ensures var one, other := AdmittedProducer(codec, inputs).value, AdmittedProducer(codec, others).value;
      one.cell == other.cell <==> inputs.cell.arm == Baseline || one.candidate.ref == other.candidate.ref
  {
    var one, other := AdmittedProducer(codec, inputs).value, AdmittedProducer(codec, others).value;
    AdmittedCell(codec, inputs, one);
    AdmittedCell(codec, others, other);
  }

  /** The cell of an admitted producer, from plan, cell and candidate ref alone. */
  lemma AdmittedCell(codec: Codec, inputs: Inputs, producer: Producer)
    requires ProducerAdmitted(codec, inputs, producer)
    ensures var planned := ExpectedCell(codec.lib, inputs.plan, inputs.cell).inputs;
      && producer.cell.inputs == (if inputs.cell.arm == Candidate
                                  then planned.(sourceRevisionRef := producer.candidate.ref) else planned)
      && producer.cell.identity == codec.lib.cell(producer.cell.inputs)
  {
  }

  lemma HoldsAreNotFacts()
    ensures PHASE_ONE !! OWNER_HOLDS.Keys
  {
  }

  lemma BindingIsBounded(codec: Codec, inputs: Inputs, producer: Producer)
    requires PlanAdmitted(codec, inputs) && ProducerAdmitted(codec, inputs, producer)
    ensures var b := BindingOf(inputs, producer);
      && BoundedText(b.candidateRef) && BoundedText(b.splitRef) && BoundedText(b.modelIdentity)
      && BoundedText(b.evaluatorIdentity) && BoundedText(b.contractRef)
      && b.sourceRevisionRef.ManifestRef?
      && (inputs.cell.arm == Candidate ==> b.sourceRevisionRef == producer.candidate.ref)
  {
    var p := inputs.plan;
    assert p.candidateRef in [p.pairRef, p.candidateRef, p.cRef, p.graphRef, p.modelIdentity, p.evaluatorIdentity,
                              p.contractRef, p.heldInRef, p.heldOutRef, p.samplingIdentity];
  }
}
