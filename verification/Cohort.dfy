// runtime/harness_runtime/l3_cohort_snapshot.py: collecting native registry
// records and compiling them into a cohort snapshot.

module Cohort {
  import opened Wrappers
  import opened Json
  import opened Ordering

  // ---- documents -----------------------------------------------------------

  datatype Gap =
    | RegistryAliasMismatch
    | RegistryListMalformed | RegistryShowDuplicateField | DuplicateRegistryRecord
    | ManifestMissing | ManifestDuplicateKey | ManifestMalformed | ManifestSchemaInvalid
    | ManifestMissingRequiredFields | CanonicalRootMismatch
    | DuplicateProjectId | DuplicatePrimaryRoot | DuplicateManifestIdentity
    | OtherGap(text: string)

  /** A field that is absent or not a string reads as None. */
  datatype Record = Record(
    projectId: Option<string>, nativeSlug: Option<string>, primaryRoot: Option<string>,
    manifestBytes: Option<Bytes>, registryGaps: seq<Gap>)

  datatype Yaml =
    | DuplicateKey
    | Malformed
    | NotAMapping
    | Mapping(schemaSupported: bool, projectSlug: Option<string>, canonicalCwd: Option<string>)

  datatype Classification = HoldGap | BaselineReady | NonApplicableApproved

  datatype Cause = SourceNativeActiveRecord | FirstGap(gap: Gap) | ExplicitNonApplicableApproval

  datatype Approval = Approval(reference: Option<string>, candidateNonRegression: bool)

  datatype MemberEvidence = MemberEvidence(registryDigest: Hex64, manifestDigest: Option<Hex64>)

  datatype Member = Member(
    projectId: string, nativeSlug: string, evaluationSlug: Option<string>, primaryRoot: string,
    classification: Classification, reason: Cause, gaps: seq<Gap>,
    approvalReference: Option<string>, evidence: MemberEvidence)

  /** What the membership digest covers of a member. */
  datatype Identity = Identity(
    projectId: string, primaryRoot: string, nativeSlug: string, evaluationSlug: Option<string>)

  datatype DigestInput = DigestInput(policyRevision: Hex64, cutoff: string, members: seq<Identity>)

  datatype Snapshot = Snapshot(
    policyRevision: Hex64, cutoff: string, members: seq<Member>, membershipDigest: Hex64)

  datatype CompileError =
    | PolicyIncompatible | CutoffInvalid | ApprovalIncomplete | IdentityIncomplete
    | ApprovalWithoutMember | ApprovalOfHold

  /** Text, YAML and digest functions. */
  datatype Library = Library(
    blank: string -> bool,
    yaml: Bytes -> Yaml,
    identityDigest: (string, string, string) -> Hex64,
    bytesDigest: Bytes -> Hex64,
    membershipDigest: DigestInput -> Hex64)

  datatype Inputs = Inputs(
    policyCompatible: bool, policyRevision: Hex64, cutoffValid: bool, cutoff: string,
    approvals: map<string, Approval>)

  // ---- one record ------------------------------------------------------------

  predicate Text(lib: Library, v: Option<string>) {
    v.Some? && !lib.blank(v.value)
  }

  predicate Complete(lib: Library, r: Record) {
    Text(lib, r.projectId) && Text(lib, r.nativeSlug) && Text(lib, r.primaryRoot)
  }

  function ManifestGaps(lib: Library, r: Record): seq<Gap> {
    if r.manifestBytes == None then [ManifestMissing]
    else match lib.yaml(r.manifestBytes.value)
      case DuplicateKey => [ManifestDuplicateKey]
      case Malformed => [ManifestMalformed]
      case NotAMapping => [ManifestSchemaInvalid]
      case Mapping(supported, slug, cwd) =>
        if !supported then [ManifestSchemaInvalid]
        else if !Text(lib, slug) || !Text(lib, cwd) then [ManifestMissingRequiredFields]
        else if cwd != r.primaryRoot then [CanonicalRootMismatch]
        else if r.nativeSlug != slug then [RegistryAliasMismatch]
        else []
  }

  function EvaluationSlug(lib: Library, r: Record): Option<string> {
    if r.manifestBytes == None then None
    else match lib.yaml(r.manifestBytes.value)
      case Mapping(_, slug, _) => slug
      case _ => None
  }

  predicate Holds(gap: Gap) {
    gap != RegistryAliasMismatch
  }

  function HoldGaps(gaps: seq<Gap>): (r: seq<Gap>)
    ensures forall gap :: gap in r <==> gap in gaps && Holds(gap)
  {
    if gaps == [] then []
    else (if Holds(gaps[0]) then [gaps[0]] else []) + HoldGaps(gaps[1..])
  }

  function TextOf(v: Option<string>): string {
    if v.Some? then v.value else ""
  }

  /** The member a record starts as; compiled only from complete records. */
  function Draft(lib: Library, r: Record): Member {
    var gaps := r.registryGaps + ManifestGaps(lib, r);
    var held := exists gap | gap in gaps :: Holds(gap);
    Member(
      TextOf(r.projectId), TextOf(r.nativeSlug), EvaluationSlug(lib, r), TextOf(r.primaryRoot),
      if held then HoldGap else BaselineReady,
      if held then FirstGap(gaps[0]) else SourceNativeActiveRecord,
      gaps, None,
      MemberEvidence(lib.identityDigest(TextOf(r.projectId), TextOf(r.nativeSlug), TextOf(r.primaryRoot)),
                     if r.manifestBytes.Some? then Some(lib.bytesDigest(r.manifestBytes.value)) else None))
  }

  // ---- conflicts ---------------------------------------------------------------

  /** The identity fields that two records must not share, in the order in which they are checked. */
  datatype Field = ProjectIdField | PrimaryRootField | EvaluationSlugField

  const CONFLICT_FIELDS: seq<Field> := [ProjectIdField, PrimaryRootField, EvaluationSlugField]

  function ValueOf(m: Member, field: Field): Option<string> {
    match field
    case ProjectIdField => Some(m.projectId)
    case PrimaryRootField => Some(m.primaryRoot)
    case EvaluationSlugField => m.evaluationSlug
  }

  function DuplicateGap(field: Field): Gap {
    match field
    case ProjectIdField => DuplicateProjectId
    case PrimaryRootField => DuplicatePrimaryRoot
    case EvaluationSlugField => DuplicateManifestIdentity
  }

  function Counts(members: seq<Member>, field: Field): multiset<Option<string>> {
    multiset(Map((m: Member) => ValueOf(m, field), members))
  }

  predicate Conflicted(counts: multiset<Option<string>>, m: Member, field: Field) {
    ValueOf(m, field).Some? && counts[ValueOf(m, field)] > 1
  }

  function ConflictGaps(drafts: seq<Member>, m: Member, fields: seq<Field>): seq<Gap> {
    if fields == [] then []
    else
      var last := |fields| - 1;
      ConflictGaps(drafts, m, fields[..last])
      + if Conflicted(Counts(drafts, fields[last]), m, fields[last]) then [DuplicateGap(fields[last])] else []
  }

  function Held(m: Member): Member {
    if HoldGaps(m.gaps) == [] then m
    else m.(classification := HoldGap, reason := FirstGap(HoldGaps(m.gaps)[0]))
  }

  function Settled(drafts: seq<Member>, m: Member): Member {
    Held(AddGaps(drafts, CONFLICT_FIELDS, m))
  }

  function Approved(approvals: map<string, Approval>, m: Member): Member {
    if m.projectId in approvals
    then m.(classification := NonApplicableApproved, reason := ExplicitNonApplicableApproval,
            approvalReference := approvals[m.projectId].reference)
    else m
  }

  // ---- the compiled snapshot -----------------------------------------------------

  function KeyOf(m: Member): SortKey {
    [m.projectId, m.primaryRoot, m.nativeSlug, if m.evaluationSlug.Some? then m.evaluationSlug.value else ""]
  }

  function IdentityOf(m: Member): Identity {
    Identity(m.projectId, m.primaryRoot, m.nativeSlug, m.evaluationSlug)
  }

  predicate ApprovalComplete(lib: Library, a: Approval) {
    Text(lib, a.reference) && a.candidateNonRegression
  }

  function Drafts(lib: Library, records: seq<Record>): seq<Member> {
    Map((r: Record) => Draft(lib, r), records)
  }

  /** The members before approvals, in record order. */
  function AllSettled(lib: Library, records: seq<Record>): seq<Member> {
    var drafts := Drafts(lib, records);
    Map((m: Member) => Settled(drafts, m), drafts)
  }

  /** The members in record order; sorting them gives the snapshot's members. */
  function FinalMembers(lib: Library, inputs: Inputs, records: seq<Record>): seq<Member> {
    AllApproved(inputs.approvals, AllSettled(lib, records))
  }

  function AllApproved(approvals: map<string, Approval>, settled: seq<Member>): seq<Member> {
    Map((m: Member) => Approved(approvals, m), settled)
  }

  /** Exactly the inputs on which compilation succeeds. */
  ghost predicate Compiles(lib: Library, inputs: Inputs, records: seq<Record>) {
    && inputs.policyCompatible && inputs.cutoffValid
    && ApprovalsComplete(lib, inputs.approvals)
    && AllComplete(lib, records)
    && ApprovalsMatched(inputs.approvals, records)
    && NoneHeld(inputs.approvals, AllSettled(lib, records))
  }

  predicate ApprovalsComplete(lib: Library, approvals: map<string, Approval>) {
    forall id | id in approvals :: ApprovalComplete(lib, approvals[id])
  }

  predicate AllComplete(lib: Library, records: seq<Record>) {
    forall r | r in records :: Complete(lib, r)
  }

  /** Every approval names some record. */
  predicate ApprovalsMatched(approvals: map<string, Approval>, records: seq<Record>) {
    forall id | id in approvals :: HasRecord(records, id)
  }

  /** No approval names a held member. */
  predicate NoneHeld(approvals: map<string, Approval>, settled: seq<Member>) {
    forall m | m in settled && m.projectId in approvals :: m.classification != HoldGap
  }

  function DigestedMembers(members: seq<Member>, inputs: Inputs): DigestInput {
    DigestInput(inputs.policyRevision, inputs.cutoff, Map(IdentityOf, members))
  }

  function SnapshotOf(lib: Library, inputs: Inputs, records: seq<Record>): Snapshot {
    Assembled(lib, inputs, FinalMembers(lib, inputs, records))
  }

  /** The final sort and digest. */
  function Assembled(lib: Library, inputs: Inputs, members: seq<Member>): Snapshot {
    var sorted := Sort(KeyOf, members);
    Snapshot(inputs.policyRevision, inputs.cutoff, sorted, lib.membershipDigest(DigestedMembers(sorted, inputs)))
  }

  // ---- the compiler, loop by loop --------------------------------------------------

  method CompileSnapshot(lib: Library, inputs: Inputs, records: seq<Record>)
    returns (r: Result<Snapshot, CompileError>)
    ensures r.Success? <==> Compiles(lib, inputs, records)
    ensures r.Success? ==> r.value == SnapshotOf(lib, inputs, records)
  {
    if !inputs.policyCompatible {
      return Failure(PolicyIncompatible);
    }
    if !inputs.cutoffValid {
      return Failure(CutoffInvalid);
    }
    if !ApprovalsComplete(lib, inputs.approvals) {
      return Failure(ApprovalIncomplete);
    }
    var drafted := DraftKnownMembers(lib, inputs.approvals, records);
    if drafted.Failure? {
      return Failure(drafted.error);
    }
    var settled := SettleMembers(lib, records, drafted.value);
    var approved := ApplyApprovals(inputs.approvals, settled);
    if approved.Failure? {
      return Failure(ApprovalOfHold);
    }
    return Success(Assembled(lib, inputs, approved.value));
  }

  /** The members as drafted, provided that every approval names one of them. */
  method DraftKnownMembers(lib: Library, approvals: map<string, Approval>, records: seq<Record>)
    returns (r: Result<seq<Member>, CompileError>)
    ensures r.Success? <==> AllComplete(lib, records) && ApprovalsMatched(approvals, records)
    ensures r.Success? ==> r.value == Drafts(lib, records)
    ensures r.Failure? ==>
      r.error == if AllComplete(lib, records) then ApprovalWithoutMember else IdentityIncomplete
  {
    var drafted := DraftMembers(lib, records);
    if drafted.Failure? {
      return Failure(IdentityIncomplete);
    }
    KnownMembersAreRecords(lib, approvals, records);
    if !AllKnown(approvals, drafted.value) {
      return Failure(ApprovalWithoutMember);
    }
    return Success(drafted.value);
  }

  method SettleMembers(lib: Library, ghost records: seq<Record>, drafts: seq<Member>) returns (members: seq<Member>)
    requires AllComplete(lib, records)
    requires drafts == Drafts(lib, records)
    ensures members == AllSettled(lib, records)
  {
    members := MarkConflicts(drafts);
    members := MarkHolds(drafts, members);
  }

  method DraftMembers(lib: Library, records: seq<Record>) returns (r: Result<seq<Member>, ()>)
    ensures r.Success? <==> AllComplete(lib, records)
    ensures r.Success? ==> r.value == Drafts(lib, records)
  {
    var members: seq<Member> := [];
    for i := 0 to |records|
      invariant |members| == i
      invariant forall k | 0 <= k < i :: Complete(lib, records[k]) && members[k] == Draft(lib, records[k])
    {
      if !Complete(lib, records[i]) {
        return Failure(());
      }
      members := members + [Draft(lib, records[i])];
    }
    return Success(members);
  }

  predicate AllKnown(approvals: map<string, Approval>, members: seq<Member>) {
    forall id | id in approvals :: HasMember(members, id)
  }

  lemma KnownMembersAreRecords(lib: Library, approvals: map<string, Approval>, records: seq<Record>)
    requires AllComplete(lib, records)
    ensures AllKnown(approvals, Drafts(lib, records)) <==> ApprovalsMatched(approvals, records)
  {
    MembersComeFromRecords(lib, records);
  }

  predicate HasMember(members: seq<Member>, id: string) {
    exists m | m in members :: m.projectId == id
  }

  predicate HasRecord(records: seq<Record>, id: string) {
    exists r | r in records :: r.projectId == Some(id)
  }

  lemma MembersComeFromRecords(lib: Library, records: seq<Record>)
    requires AllComplete(lib, records)
    ensures forall id: string :: HasRecord(records, id) == HasMember(Drafts(lib, records), id)
  {
    var drafts := Drafts(lib, records);
    forall id: string ensures HasRecord(records, id) == HasMember(drafts, id) {
      if HasRecord(records, id) {
        var i :| 0 <= i < |records| && records[i].projectId == Some(id);
        assert drafts[i] in drafts;
      }
      if HasMember(drafts, id) {
        var i :| 0 <= i < |drafts| && drafts[i].projectId == id;
        assert records[i] in records;
      }
    }
  }

  function AddGap(counts: multiset<Option<string>>, field: Field, m: Member): Member {
    if Conflicted(counts, m, field) then m.(gaps := m.gaps + [DuplicateGap(field)]) else m
  }

  function AddGaps(drafts: seq<Member>, fields: seq<Field>, m: Member): Member {
    m.(gaps := m.gaps + ConflictGaps(drafts, m, fields))
  }

  /** Count one identity field and append its gap, in place, to every member that shares a value. */
  method MarkConflict(field: Field, unmarked: seq<Member>) returns (members: seq<Member>)
    ensures |members| == |unmarked|
    ensures forall k | 0 <= k < |unmarked| ::
      members[k] == AddGap(Counts(unmarked, field), field, unmarked[k])
  {
    members := unmarked;
    var counts := Counts(members, field);
    for i := 0 to |members|
      invariant |members| == |unmarked|
      invariant forall k | i <= k < |unmarked| :: members[k] == unmarked[k]
      invariant forall k | 0 <= k < i :: members[k] == AddGap(counts, field, unmarked[k])
    {
      if Conflicted(counts, members[i], field) {
        members := members[i := members[i].(gaps := members[i].gaps + [DuplicateGap(field)])];
      }
    }
  }

  lemma CountsIgnoreGaps(drafts: seq<Member>, members: seq<Member>, fields: seq<Field>, field: Field)
    requires |members| == |drafts|
    requires forall k | 0 <= k < |drafts| :: members[k] == AddGaps(drafts, fields, drafts[k])
    ensures Counts(members, field) == Counts(drafts, field)
  {
    var value := (m: Member) => ValueOf(m, field);
    forall k | 0 <= k < |drafts| ensures value(members[k]) == value(drafts[k]) {
      assert members[k] == AddGaps(drafts, fields, drafts[k]);
    }
    assert Map(value, members) == Map(value, drafts);
  }

  lemma OneMoreField(drafts: seq<Member>, fields: seq<Field>, m: Member)
    requires fields != []
    ensures var last := |fields| - 1;
      AddGap(Counts(drafts, fields[last]), fields[last], AddGaps(drafts, fields[..last], m))
        == AddGaps(drafts, fields, m)
  {
    var last := |fields| - 1;
    var gaps := ConflictGaps(drafts, m, fields[..last]);
    assert m.gaps + (gaps + [DuplicateGap(fields[last])]) == (m.gaps + gaps) + [DuplicateGap(fields[last])];
    assert gaps + [] == gaps;
  }

  /** The three passes over the members, one per identity field. */
  method MarkConflicts(drafts: seq<Member>) returns (members: seq<Member>)
    ensures |members| == |drafts|
    ensures forall k | 0 <= k < |drafts| :: members[k] == AddGaps(drafts, CONFLICT_FIELDS, drafts[k])
  {
    members := drafts;
    assert forall k | 0 <= k < |drafts| :: drafts[k] == AddGaps(drafts, CONFLICT_FIELDS[..0], drafts[k]);
    for f := 0 to |CONFLICT_FIELDS|
      invariant |members| == |drafts|
      invariant forall k | 0 <= k < |drafts| ::
        members[k] == AddGaps(drafts, CONFLICT_FIELDS[..f], drafts[k])
    {
      CountsIgnoreGaps(drafts, members, CONFLICT_FIELDS[..f], CONFLICT_FIELDS[f]);
      ghost var before := members;
      members := MarkConflict(CONFLICT_FIELDS[f], members);
      ghost var fields := CONFLICT_FIELDS[..f + 1];
      assert fields[..f] == CONFLICT_FIELDS[..f] && fields[f] == CONFLICT_FIELDS[f];
      forall k | 0 <= k < |drafts| ensures members[k] == AddGaps(drafts, fields, drafts[k]) {
        assert members[k] == AddGap(Counts(before, fields[f]), fields[f], before[k]);
        OneMoreField(drafts, fields, drafts[k]);
      }
    }
    assert CONFLICT_FIELDS[..|CONFLICT_FIELDS|] == CONFLICT_FIELDS;
  }

  method MarkHolds(ghost drafts: seq<Member>, marked: seq<Member>) returns (members: seq<Member>)
    requires |marked| == |drafts|
    requires forall k | 0 <= k < |drafts| :: marked[k] == AddGaps(drafts, CONFLICT_FIELDS, drafts[k])
    ensures |members| == |drafts|
    ensures forall k | 0 <= k < |drafts| :: members[k] == Settled(drafts, drafts[k])
  {
    members := marked;
    for i := 0 to |members|
      invariant |members| == |marked|
      invariant forall k | i <= k < |marked| :: members[k] == marked[k]
      invariant forall k | 0 <= k < i :: members[k] == Held(marked[k])
    {
      var holdGaps := HoldGaps(members[i].gaps);
      if holdGaps != [] {
        members := members[i := members[i].(classification := HoldGap, reason := FirstGap(holdGaps[0]))];
      }
    }
  }

  /** Approvals override the classification, and none may target a held member. */
  method ApplyApprovals(approvals: map<string, Approval>, settled: seq<Member>)
    returns (r: Result<seq<Member>, ()>)
    ensures r.Success? <==> NoneHeld(approvals, settled)
    ensures r.Success? ==> r.value == AllApproved(approvals, settled)
  {
    var members := settled;
    for i := 0 to |members|
      invariant |members| == |settled|
      invariant forall k | i <= k < |settled| :: members[k] == settled[k]
      invariant forall k | 0 <= k < i :: members[k] == Approved(approvals, settled[k])
      invariant forall k | 0 <= k < i && settled[k].projectId in approvals ::
        settled[k].classification != HoldGap
    {
      if members[i].projectId in approvals {
        if members[i].classification == HoldGap {
          assert settled[i] in settled;
          return Failure(());
        }
        members := members[i := Approved(approvals, members[i])];
      }
    }
    return Success(members);
  }

  // ---- collecting the records --------------------------------------------------------

  /** One line of `hermes project list`: its slug, when it has one, and whether the rest is well formed. */
  datatype Listed = Listed(slug: Option<string>, wellFormed: bool)

  /** What `hermes project show <slug>` matches: the identities and primary roots it prints. */
  datatype Shown = Shown(identities: seq<string>, primaries: seq<string>)

  function RegistryGaps(listing: seq<Listed>, shown: Shown, i: nat): seq<Gap>
    requires i < |listing|
  {
    (if listing[i].wellFormed then [] else [RegistryListMalformed])
    + (if |shown.identities| > 1 || |shown.primaries| > 1 then [RegistryShowDuplicateField] else [])
    + (if multiset(Map((l: Listed) => l.slug, listing))[listing[i].slug] > 1 then [DuplicateRegistryRecord] else [])
  }

  predicate IsRegistryGap(gap: Gap) {
    gap in {RegistryListMalformed, RegistryShowDuplicateField, DuplicateRegistryRecord}
  }

  /** One record per listed line, in order, each with only the three registry gaps; or nothing at all. */
  method CollectNativeRecords(
    listing: seq<Listed>, show: string -> Shown, readManifest: string -> Option<Bytes>)
    returns (r: Result<seq<Record>, CompileError>)
    ensures r.Success? <==> forall line | line in listing ::
      line.slug.Some? && show(line.slug.value).identities != [] && show(line.slug.value).primaries != []
    ensures r.Success? ==> |r.value| == |listing| && forall i | 0 <= i < |listing| ::
      var shown := show(listing[i].slug.value);
      r.value[i] == Record(Some(shown.identities[0]), listing[i].slug, Some(shown.primaries[0]),
                           readManifest(shown.primaries[0]), RegistryGaps(listing, shown, i))
    ensures r.Success? ==> forall record, gap | record in r.value && gap in record.registryGaps :: IsRegistryGap(gap)
  {
    for i := 0 to |listing|
      invariant forall k | 0 <= k < i :: listing[k].slug.Some?
    {
      if listing[i].slug == None {
        assert listing[i] in listing;
        return Failure(IdentityIncomplete);
      }
    }
    var counts := multiset(Map((l: Listed) => l.slug, listing));
    var records: seq<Record> := [];
    for i := 0 to |listing|
      invariant |records| == i
      invariant forall k | 0 <= k < i ::
        var shown := show(listing[k].slug.value);
        shown.identities != [] && shown.primaries != []
        && records[k] == Record(Some(shown.identities[0]), listing[k].slug, Some(shown.primaries[0]),
                                readManifest(shown.primaries[0]), RegistryGaps(listing, shown, k))
    {
      var slug := listing[i].slug.value;
      var shown := show(slug);
      if shown.identities == [] || shown.primaries == [] {
        assert listing[i] in listing;
        return Failure(IdentityIncomplete);
      }
      var gaps: seq<Gap> := if listing[i].wellFormed then [] else [RegistryListMalformed];
      if |shown.identities| > 1 || |shown.primaries| > 1 {
        gaps := gaps + [RegistryShowDuplicateField];
      }
      if counts[Some(slug)] > 1 {
        gaps := gaps + [DuplicateRegistryRecord];
      }
      var root := shown.primaries[0];
      records := records + [Record(Some(shown.identities[0]), Some(slug), Some(root), readManifest(root), gaps)];
    }
    return Success(records);
  }
}
