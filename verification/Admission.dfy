// runtime/harness_runtime/l3_adaptation.py: admitting one candidate against a
// frozen cohort, and what the cohort compiler guarantees about that cohort.

module Admission {
  import opened Wrappers
  import opened Json
  import opened Ordering
  import opened Cohort
  import opened CohortProperties
  import opened WriteScopes

  const MAX_TEXT := 1024

  // ---- documents -----------------------------------------------------------

  /** A cohort member as an admission repeats it: no evidence, and a slug that is a text. */
  datatype Projection = Projection(
    projectId: string, nativeSlug: string, evaluationSlug: string, primaryRoot: string,
    classification: Classification, reason: Cause, gaps: seq<Gap>, approvalReference: Option<string>)

  /** The frozen artifact once parsed; a field that is missing or ill-typed reads as None. */
  datatype Frozen = Frozen(
    schemaSupported: bool, policyRevision: Option<Hex64>, cutoff: Option<string>,
    membershipDigest: Option<Hex64>, members: Option<seq<Member>>)

  datatype CohortBinding = CohortBinding(
    artifactRef: string, artifactDigest: Hex64, policyRevision: Hex64, cutoff: string,
    membershipDigest: Hex64, members: seq<Projection>)

  datatype Controls = Controls(
    evaluatorRef: string, heldOutRef: string, permissionBoundaryRef: string, maatDispositionRef: string,
    siaPromotionRef: string, cohortPolicyRef: string, receiptSchemaRef: string, additionalRefs: seq<string>)
  {
    function Fixed(): seq<string> {
      [evaluatorRef, heldOutRef, permissionBoundaryRef, maatDispositionRef, siaPromotionRef,
       cohortPolicyRef, receiptSchemaRef] + additionalRefs
    }
  }

  /** The parts of an admission with rules of their own; `shapesHold` stands for the remaining fixed fields. */
  datatype AdmissionRequest = AdmissionRequest(
    shapesHold: bool, cohort: CohortBinding, baselineCommit: string,
    candidateIdentity: string, candidateBaseline: string, allowedWriteRefs: seq<string>,
    evaluatorIdentity: string, heldOutRef: string, controls: Controls)

  datatype AdmissionError =
    | ShapeInvalid | ArtifactMalformed | ArtifactMismatch | IdentityMismatch
    | MemberHeld | MemberInvalid | MembersDuplicated | MembersMismatch
    | CandidateInvalid | WriteRefsInvalid | WriteRefsAmbiguous | ControlsMismatch | ControlsInvalid | ControlsOverlap

  datatype Codec = Codec(encode: Snapshot -> Bytes, decode: Bytes -> Option<Frozen>)

  function FrozenOf(s: Snapshot): Frozen {
    Frozen(true, Some(s.policyRevision), Some(s.cutoff), Some(s.membershipDigest), Some(s.members))
  }

  /** This serialized snapshot parses back to itself. */
  ghost predicate ReadsBack(codec: Codec, s: Snapshot) {
    codec.decode(codec.encode(s)) == Some(FrozenOf(s))
  }

  // ---- the cohort ------------------------------------------------------------

  predicate Bounded(lib: Library, s: string) {
    !lib.blank(s) && |s| <= MAX_TEXT
  }

  /** The named gaps have short fixed texts; another gap is its own text. */
  predicate GapBounded(lib: Library, gap: Gap) {
    gap.OtherGap? ==> Bounded(lib, gap.text)
  }

  predicate CauseBounded(lib: Library, cause: Cause) {
    cause.FirstGap? ==> GapBounded(lib, cause.gap)
  }

  function ProjectMember(lib: Library, m: Member): Result<Projection, AdmissionError> {
    var kind, reference := m.classification, m.approvalReference;
    :- Need(kind != HoldGap, MemberHeld);
    :- Need(kind == BaselineReady ==> reference == None, MemberInvalid);
    :- Need(kind == NonApplicableApproved ==> reference.Some?, MemberInvalid);
    :- Need(m.evaluationSlug.Some?, MemberInvalid);
    :- Need(Bounded(lib, m.projectId) && Bounded(lib, m.nativeSlug) && Bounded(lib, m.evaluationSlug.value)
            && Bounded(lib, m.primaryRoot) && CauseBounded(lib, m.reason), MemberInvalid);
    :- Need((forall gap | gap in m.gaps :: GapBounded(lib, gap)) && Distinct(m.gaps), MemberInvalid);
    :- Need(reference.Some? ==> Bounded(lib, reference.value), MemberInvalid);
    Success(Projection(m.projectId, m.nativeSlug, m.evaluationSlug.value, m.primaryRoot,
                       kind, m.reason, m.gaps, reference))
  }

  function ProjectMembers(lib: Library, members: seq<Member>): Result<seq<Projection>, AdmissionError> {
    if members == [] then Success([])
    else
      var first :- ProjectMember(lib, members[0]);
      var rest :- ProjectMembers(lib, members[1..]);
      Success([first] + rest)
  }

  function Locator(m: Member): (string, string, string) {
    (m.projectId, m.nativeSlug, m.primaryRoot)
  }

  function ValidateCohort(
    lib: Library, codec: Codec, binding: CohortBinding, artifact: Bytes, expected: Hex64)
    : Result<(), AdmissionError>
  {
    var parsed := codec.decode(artifact);
    :- Need(Bounded(lib, binding.artifactRef), ShapeInvalid);
    :- Need(parsed.Some?, ArtifactMalformed);
    var frozen := parsed.value;
    :- Need(lib.bytesDigest(artifact) == expected && binding.artifactDigest == expected, ArtifactMismatch);
    :- Need(frozen.schemaSupported && frozen.policyRevision == Some(binding.policyRevision)
            && frozen.cutoff == Some(binding.cutoff)
            && frozen.membershipDigest == Some(binding.membershipDigest), IdentityMismatch);
    :- Need(Bounded(lib, binding.cutoff), ShapeInvalid);
    :- Need(frozen.members.Some?, ShapeInvalid);
    var members := frozen.members.value;
    var projected :- ProjectMembers(lib, members);
    :- Need(Distinct(Map(Locator, members)), MembersDuplicated);
    :- Need(binding.members == projected, MembersMismatch);
    Success(())
  }

  lemma {:induction false} HeldMemberBlocksProjection(lib: Library, members: seq<Member>)
    requires exists m :: m in members && m.classification == HoldGap
    ensures ProjectMembers(lib, members).Failure?
  {
    if members[0].classification != HoldGap {
      HeldMemberBlocksProjection(lib, members[1..]);
    }
  }

  lemma {:induction false} ProjectionSucceeds(lib: Library, members: seq<Member>)
    requires forall m | m in members :: ProjectMember(lib, m).Success?
    ensures ProjectMembers(lib, members).Success?
  {
    if members != [] {
      ProjectionSucceeds(lib, members[1..]);
    }
  }

  // ---- the snapshot feeds the admission ----------------------------------------

  predicate MemberFits(m: Member) {
    && |m.projectId| <= MAX_TEXT && |m.nativeSlug| <= MAX_TEXT && |m.primaryRoot| <= MAX_TEXT
    && (m.evaluationSlug.Some? ==> |m.evaluationSlug.value| <= MAX_TEXT)
    && (m.approvalReference.Some? ==> |m.approvalReference.value| <= MAX_TEXT)
  }

  /** Records as `CollectNativeRecords` returns them. */
  predicate Collected(records: seq<Record>) {
    forall record, gap | record in records && gap in record.registryGaps :: IsRegistryGap(gap)
  }

  /** What classification leaves of a draft that ends up not held. */
  predicate Unheld(approvals: map<string, Approval>, draft: Member, m: Member) {
    && m.projectId == draft.projectId && m.nativeSlug == draft.nativeSlug
    && m.primaryRoot == draft.primaryRoot && m.evaluationSlug == draft.evaluationSlug
    && (if m.projectId in approvals
        then m.classification == NonApplicableApproved && m.reason == ExplicitNonApplicableApproval
             && m.approvalReference == approvals[m.projectId].reference
        else m.classification == BaselineReady && m.reason == SourceNativeActiveRecord
             && m.approvalReference == None)
  }

  lemma UnheldMember(lib: Library, r: Record, drafts: seq<Member>, approvals: map<string, Approval>)
    requires var m := Approved(approvals, Settled(drafts, Draft(lib, r))); m.classification != HoldGap
    ensures Unheld(approvals, Draft(lib, r), Approved(approvals, Settled(drafts, Draft(lib, r))))
  {
    var draft := Draft(lib, r);
    var marked := AddGaps(drafts, CONFLICT_FIELDS, draft);
    assert forall gap | gap in draft.gaps && Holds(gap) :: gap in HoldGaps(marked.gaps);
  }

  /** A compiled member that is not held is one the admission can repeat. */
  lemma UnheldMemberIsProjectable(lib: Library, inputs: Inputs, records: seq<Record>, i: nat)
    requires Compiles(lib, inputs, records) && Collected(records) && i < |records|
    requires var m := FinalMembers(lib, inputs, records)[i]; m.classification != HoldGap && MemberFits(m)
    ensures ProjectMember(lib, FinalMembers(lib, inputs, records)[i]).Success?
  {
    var r, drafts := records[i], Drafts(lib, records);
    var m := FinalMembers(lib, inputs, records)[i];
    assert r in records;
    assert Unheld(inputs.approvals, Draft(lib, r), m) by {
      MemberAt(lib, inputs, records, i);
      UnheldMember(lib, r, drafts, inputs.approvals);
    }
    assert m.gaps == ManifestGaps(lib, r) && Distinct(m.gaps) && Text(lib, m.evaluationSlug)
      && forall gap | gap in m.gaps :: !Holds(gap) by
    {
      HoldIsExact(lib, inputs, records, i);
      MemberAt(lib, inputs, records, i);
      SettledGaps(drafts, drafts[i], inputs.approvals);
      ConflictGapsAreDuplicates(drafts, drafts[i], CONFLICT_FIELDS);
      UnheldGaps(lib, r, ConflictGaps(drafts, drafts[i], CONFLICT_FIELDS), m.gaps);
    }
    ProjectableWhenUnheld(lib, inputs.approvals, r, m);
  }

  lemma ProjectableWhenUnheld(lib: Library, approvals: map<string, Approval>, r: Record, m: Member)
    requires Complete(lib, r) && Unheld(approvals, Draft(lib, r), m) && MemberFits(m)
    requires forall id | id in approvals :: ApprovalComplete(lib, approvals[id])
    requires Distinct(m.gaps) && Text(lib, m.evaluationSlug) && forall gap | gap in m.gaps :: !Holds(gap)
    ensures ProjectMember(lib, m).Success?
  {
    if m.projectId in approvals {
      assert ApprovalComplete(lib, approvals[m.projectId]);
    }
  }

  lemma UnheldGaps(lib: Library, r: Record, conflicts: seq<Gap>, gaps: seq<Gap>)
    requires gaps == (r.registryGaps + ManifestGaps(lib, r)) + conflicts
    requires forall gap | gap in gaps :: !Holds(gap)
    requires forall gap | gap in r.registryGaps :: IsRegistryGap(gap)
    requires forall gap | gap in conflicts :: IsDuplicateGap(gap)
    ensures gaps == ManifestGaps(lib, r) && Distinct(gaps)
    ensures Text(lib, EvaluationSlug(lib, r))
  {
    assert forall gap | gap in r.registryGaps || gap in conflicts || gap in ManifestGaps(lib, r) :: gap in gaps;
    if r.registryGaps != [] {
      HasElement(r.registryGaps);
    }
    if conflicts != [] {
      HasElement(conflicts);
    }
    assert ManifestGaps(lib, r) == [] || ManifestGaps(lib, r)[0] in gaps;
  }

  lemma HasElement<T>(s: seq<T>)
    requires s != []
    ensures exists x :: x in s
  {
    assert s[0] in s;
  }

  lemma {:induction false} DistinctPermutes<T>(s: seq<T>, t: seq<T>)
    requires multiset(s) == multiset(t) && Distinct(s)
    ensures Distinct(t)
  {
    forall i, j | 0 <= i < j < |t| ensures t[i] != t[j] {
      if t[i] == t[j] {
        CountsAboveOne(t, i);
        assert t[i] in multiset(s);
        var k :| 0 <= k < |s| && s[k] == t[i];
        CountsAboveOne(s, k);
        assert false;
      }
    }
  }

  /** No two members of a snapshot without holds share a project id. */
  lemma UnheldMembersAreDistinct(lib: Library, inputs: Inputs, records: seq<Record>)
    requires Compiles(lib, inputs, records)
    requires forall m | m in FinalMembers(lib, inputs, records) :: m.classification != HoldGap
    ensures Distinct(Map(Locator, FinalMembers(lib, inputs, records)))
  {
    var members := FinalMembers(lib, inputs, records);
    forall i, j | 0 <= i < j < |members| ensures Locator(members[i]) != Locator(members[j]) {
      if members[i].projectId == members[j].projectId {
        assert members[i] in members;
        SharedMembersAreHeld(lib, inputs, records, i, j);
        SettledHoldsAreFinal(lib, inputs, records, i);
      }
    }
  }

  lemma SettledHoldsAreFinal(lib: Library, inputs: Inputs, records: seq<Record>, i: nat)
    requires Compiles(lib, inputs, records) && i < |records|
    requires AllSettled(lib, records)[i].classification == HoldGap
    ensures FinalMembers(lib, inputs, records)[i].classification == HoldGap
  {
    assert AllSettled(lib, records)[i] in AllSettled(lib, records);
    MemberAt(lib, inputs, records, i);
  }

  /** The binding an honest admission of this snapshot carries. */
  function BindingOf(lib: Library, codec: Codec, artifactRef: string, snapshot: Snapshot): CohortBinding
    requires ProjectMembers(lib, snapshot.members).Success?
  {
    CohortBinding(artifactRef, lib.bytesDigest(codec.encode(snapshot)), snapshot.policyRevision, snapshot.cutoff,
                  snapshot.membershipDigest, ProjectMembers(lib, snapshot.members).value)
  }

  lemma ProjectableSnapshotIsAdmitted(lib: Library, codec: Codec, snapshot: Snapshot, artifactRef: string)
    requires ReadsBack(codec, snapshot) && Bounded(lib, artifactRef) && Bounded(lib, snapshot.cutoff)
    requires ProjectMembers(lib, snapshot.members).Success? && Distinct(Map(Locator, snapshot.members))
    ensures ValidateCohort(lib, codec, BindingOf(lib, codec, artifactRef, snapshot), codec.encode(snapshot),
                           lib.bytesDigest(codec.encode(snapshot))).Success?
  {
  }

  /** Of all bindings, the cohort check passes exactly the one that repeats the frozen snapshot. */
  lemma OnlyTheOwnBindingPasses(
    lib: Library, codec: Codec, snapshot: Snapshot, binding: CohortBinding, expected: Hex64)
    requires ReadsBack(codec, snapshot)
    ensures ValidateCohort(lib, codec, binding, codec.encode(snapshot), expected).Success? <==>
      && expected == lib.bytesDigest(codec.encode(snapshot))
      && Bounded(lib, binding.artifactRef) && Bounded(lib, snapshot.cutoff)
      && ProjectMembers(lib, snapshot.members).Success? && Distinct(Map(Locator, snapshot.members))
      && binding == BindingOf(lib, codec, binding.artifactRef, snapshot)
  {
  }

  lemma HeldSnapshotIsRefused(
    lib: Library, codec: Codec, snapshot: Snapshot, binding: CohortBinding, expected: Hex64)
    requires ReadsBack(codec, snapshot) && exists m :: m in snapshot.members && m.classification == HoldGap
    ensures ValidateCohort(lib, codec, binding, codec.encode(snapshot), expected).Failure?
  {
    HeldMemberBlocksProjection(lib, snapshot.members);
  }

  /** A snapshot of collected records that holds nobody is always admitted, texts permitting. */
  lemma SnapshotFeedsAdmission(
    lib: Library, codec: Codec, inputs: Inputs, records: seq<Record>, artifactRef: string)
    requires Compiles(lib, inputs, records) && Collected(records)
    requires ReadsBack(codec, SnapshotOf(lib, inputs, records))
    requires forall m | m in FinalMembers(lib, inputs, records) :: m.classification != HoldGap && MemberFits(m)
    requires Bounded(lib, artifactRef) && Bounded(lib, inputs.cutoff)
    ensures var snapshot := SnapshotOf(lib, inputs, records);
      ProjectMembers(lib, snapshot.members).Success?
      && ValidateCohort(lib, codec, BindingOf(lib, codec, artifactRef, snapshot), codec.encode(snapshot),
                        lib.bytesDigest(codec.encode(snapshot))).Success?
  {
    var snapshot := SnapshotOf(lib, inputs, records);
    UnheldSnapshotIsProjectable(lib, inputs, records);
    assert Distinct(Map(Locator, snapshot.members)) by {
      UnheldMembersAreDistinct(lib, inputs, records);
      LocatorsStayDistinct(FinalMembers(lib, inputs, records), snapshot.members);
    }
    ProjectableSnapshotIsAdmitted(lib, codec, snapshot, artifactRef);
  }

  lemma LocatorsStayDistinct(members: seq<Member>, others: seq<Member>)
    requires multiset(members) == multiset(others) && Distinct(Map(Locator, members))
    ensures Distinct(Map(Locator, others))
  {
    MapKeepsMultiset(Locator, members, others);
    DistinctPermutes(Map(Locator, members), Map(Locator, others));
  }

  lemma UnheldSnapshotIsProjectable(lib: Library, inputs: Inputs, records: seq<Record>)
    requires Compiles(lib, inputs, records) && Collected(records)
    requires forall m | m in FinalMembers(lib, inputs, records) :: m.classification != HoldGap && MemberFits(m)
    ensures ProjectMembers(lib, SnapshotOf(lib, inputs, records).members).Success?
  {
    var sorted, members := Sort(KeyOf, FinalMembers(lib, inputs, records)), FinalMembers(lib, inputs, records);
    SameElements(sorted, members);
    forall m | m in members ensures ProjectMember(lib, m).Success? {
      var i :| 0 <= i < |members| && members[i] == m;
      UnheldMemberIsProjectable(lib, inputs, records, i);
    }
    ProjectionSucceeds(lib, sorted);
  }

  /** A snapshot that holds anybody is never admitted, whatever the binding says. */
  lemma HoldBlocksAdmission(
    lib: Library, codec: Codec, inputs: Inputs, records: seq<Record>, binding: CohortBinding, expected: Hex64)
    requires ReadsBack(codec, SnapshotOf(lib, inputs, records))
    requires exists m :: m in FinalMembers(lib, inputs, records) && m.classification == HoldGap
    ensures ValidateCohort(lib, codec, binding, codec.encode(SnapshotOf(lib, inputs, records)), expected).Failure?
  {
    var snapshot := SnapshotOf(lib, inputs, records);
    SameElements(FinalMembers(lib, inputs, records), snapshot.members);
    HeldSnapshotIsRefused(lib, codec, snapshot, binding, expected);
  }

  // ---- the admission -------------------------------------------------------------

  function PolicyRef(revision: Hex64): string {
    "sha256:" + revision
  }

  function ValidateCandidate(lib: Library, a: AdmissionRequest): Result<seq<string>, AdmissionError> {
    var refs := a.allowedWriteRefs;
    :- Need(Bounded(lib, a.candidateIdentity) && a.candidateIdentity != a.baselineCommit, CandidateInvalid);
    :- Need(a.candidateBaseline == a.baselineCommit, CandidateInvalid);
    :- Need(refs != [] && (forall ref | ref in refs :: Bounded(lib, ref)) && Distinct(refs), WriteRefsInvalid);
    :- Need(forall ref | ref in refs :: PlainPath(ref), WriteRefsInvalid);
    :- Need(PairwiseUnrelated(refs), WriteRefsAmbiguous);
    Success(refs)
  }

  function ValidateControls(lib: Library, a: AdmissionRequest, mutable: seq<string>): Result<(), AdmissionError> {
    var controls := a.controls;
    :- Need(controls.evaluatorRef == a.evaluatorIdentity && controls.heldOutRef == a.heldOutRef
            && controls.cohortPolicyRef == PolicyRef(a.cohort.policyRevision), ControlsMismatch);
    :- Need((forall ref | ref in controls.Fixed() :: Bounded(lib, ref)) && Distinct(controls.Fixed()), ControlsInvalid);
    :- Need(Separate(mutable, controls.Fixed()), ControlsOverlap);
    Success(())
  }

  function CompileAdmission(
    lib: Library, codec: Codec, a: AdmissionRequest, artifact: Bytes, expectedArtifact: Hex64,
    expectedCommit: string): Result<AdmissionRequest, AdmissionError>
  {
    var commit := a.baselineCommit;
    :- Need(a.shapesHold, ShapeInvalid);
    var _ :- ValidateCohort(lib, codec, a.cohort, artifact, expectedArtifact);
    :- Need(commit == expectedCommit, IdentityMismatch);
    var mutable :- ValidateCandidate(lib, a);
    var _ :- ValidateControls(lib, a, mutable);
    Success(a)
  }

  /** In an accepted admission every path has at most one mutable owner, and no owner if a control covers it. */
  lemma AcceptedScopesAreDisjoint(
    lib: Library, codec: Codec, a: AdmissionRequest, artifact: Bytes, expectedArtifact: Hex64,
    expectedCommit: string, path: string)
    requires CompileAdmission(lib, codec, a, artifact, expectedArtifact, expectedCommit).Success?
    ensures forall i, j | 0 <= i < |a.allowedWriteRefs| && 0 <= j < |a.allowedWriteRefs|
      && Under(path, a.allowedWriteRefs[i]) && Under(path, a.allowedWriteRefs[j]) :: i == j
    ensures forall m, c | m in a.allowedWriteRefs && c in a.controls.Fixed() && Under(path, m) :: !Under(path, c)
  {
    UnrelatedRefsAreDisjoint(a.allowedWriteRefs);
    SeparateRefsAreDisjoint(a.allowedWriteRefs, a.controls.Fixed());
  }

  /** Refs that overlap nowhere are refused by no scope check: the two checks are exact. */
  lemma DisjointScopesAreAccepted(lib: Library, a: AdmissionRequest)
    requires forall path: string, i, j | 0 <= i < j < |a.allowedWriteRefs| ::
      !(Under(path, a.allowedWriteRefs[i]) && Under(path, a.allowedWriteRefs[j]))
    requires forall path: string, m, c | m in a.allowedWriteRefs && c in a.controls.Fixed() ::
      !(Under(path, m) && Under(path, c))
    ensures ValidateCandidate(lib, a) != Failure(WriteRefsAmbiguous)
    ensures ValidateControls(lib, a, a.allowedWriteRefs) != Failure(ControlsOverlap)
  {
    UnrelatedRefsAreDisjoint(a.allowedWriteRefs);
    SeparateRefsAreDisjoint(a.allowedWriteRefs, a.controls.Fixed());
  }
}
