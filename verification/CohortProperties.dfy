// What a compiled cohort snapshot says about its records, and how little it
// depends on the order in which they were listed.

module CohortProperties {
  import opened Wrappers
  import opened Ordering
  import opened Cohort

  // ---- conservation, conflicts and approvals -----------------------------------

  function RecordIdentity(lib: Library, r: Record): Identity {
    Identity(TextOf(r.projectId), TextOf(r.primaryRoot), TextOf(r.nativeSlug), EvaluationSlug(lib, r))
  }

  /** Every record appears exactly once in the snapshot, with its identity unchanged. */
  lemma RecordsAreConserved(lib: Library, inputs: Inputs, records: seq<Record>)
    ensures var snapshot := SnapshotOf(lib, inputs, records);
      && multiset(snapshot.members) == multiset(FinalMembers(lib, inputs, records))
      && multiset(Map(IdentityOf, snapshot.members))
         == multiset(Map((r: Record) => RecordIdentity(lib, r), records))
  {
    var final := FinalMembers(lib, inputs, records);
    MapKeepsMultiset(IdentityOf, SnapshotOf(lib, inputs, records).members, final);
    assert Map(IdentityOf, final) == Map((r: Record) => RecordIdentity(lib, r), records);
  }

  lemma CountsAboveOne<T>(s: seq<T>, i: nat)
    requires i < |s|
    ensures multiset(s)[s[i]] > 1 <==> exists j :: 0 <= j < |s| && j != i && s[j] == s[i]
  {
    WithoutKeepsTheRest(s, i);
    var rest := Without(s, i);
    if multiset(s)[s[i]] > 1 {
      assert s[i] in multiset(rest);
      var k :| 0 <= k < |rest| && rest[k] == s[i];
      assert s[if k < i then k else k + 1] == s[i];
    }
    if j :| 0 <= j < |s| && j != i && s[j] == s[i] {
      assert rest[if j < i then j else j - 1] == s[i];
      assert s[i] in multiset(rest);
    }
  }

  /** Record i shares this identity field with another record. */
  ghost predicate Shared(lib: Library, records: seq<Record>, field: Field, i: nat)
    requires i < |records|
  {
    var value := ValueOf(Draft(lib, records[i]), field);
    value.Some? && exists j :: 0 <= j < |records| && j != i && ValueOf(Draft(lib, records[j]), field) == value
  }

  lemma ConflictIsSharing(lib: Library, records: seq<Record>, field: Field, i: nat)
    requires i < |records|
    ensures var drafts := Drafts(lib, records);
      Conflicted(Counts(drafts, field), drafts[i], field) <==> Shared(lib, records, field, i)
  {
    var drafts := Drafts(lib, records);
    var values := Map((m: Member) => ValueOf(m, field), drafts);
    CountsAboveOne(values, i);
    assert forall j | 0 <= j < |records| :: values[j] == ValueOf(Draft(lib, records[j]), field);
  }

  lemma MemberAt(lib: Library, inputs: Inputs, records: seq<Record>, i: nat)
    requires i < |records|
    ensures var drafts := Drafts(lib, records);
      && drafts[i] == Draft(lib, records[i])
      && AllSettled(lib, records)[i] == Settled(drafts, drafts[i])
      && FinalMembers(lib, inputs, records)[i] == Approved(inputs.approvals, Settled(drafts, drafts[i]))
  {
  }

  lemma {:induction false} GapsOfConflicts(drafts: seq<Member>, m: Member, fields: seq<Field>, field: Field)
    ensures DuplicateGap(field) in ConflictGaps(drafts, m, fields) <==>
      field in fields && Conflicted(Counts(drafts, field), m, field)
  {
    if fields != [] {
      var last := |fields| - 1;
      GapsOfConflicts(drafts, m, fields[..last], field);
      assert fields == fields[..last] + [fields[last]];
    }
  }

  predicate IsDuplicateGap(gap: Gap) {
    gap in {DuplicateProjectId, DuplicatePrimaryRoot, DuplicateManifestIdentity}
  }

  lemma {:induction false} ConflictGapsAreDuplicates(drafts: seq<Member>, m: Member, fields: seq<Field>)
    ensures forall gap | gap in ConflictGaps(drafts, m, fields) :: IsDuplicateGap(gap)
  {
    if fields != [] {
      ConflictGapsAreDuplicates(drafts, m, fields[..|fields| - 1]);
    }
  }

  lemma SettledGaps(drafts: seq<Member>, m: Member, approvals: map<string, Approval>)
    ensures Approved(approvals, Settled(drafts, m)).gaps == m.gaps + ConflictGaps(drafts, m, CONFLICT_FIELDS)
  {
  }

  /** A member carries a duplicate gap exactly when another record shares the field, or it was listed with one. */
  lemma ConflictsAreExact(lib: Library, inputs: Inputs, records: seq<Record>, field: Field, i: nat)
    requires i < |records|
    ensures DuplicateGap(field) in FinalMembers(lib, inputs, records)[i].gaps <==>
      DuplicateGap(field) in records[i].registryGaps || Shared(lib, records, field, i)
  {
    var drafts := Drafts(lib, records);
    var own, added := drafts[i].gaps, ConflictGaps(drafts, drafts[i], CONFLICT_FIELDS);
    assert FinalMembers(lib, inputs, records)[i].gaps == own + added by {
      MemberAt(lib, inputs, records, i);
      SettledGaps(drafts, drafts[i], inputs.approvals);
    }
    assert DuplicateGap(field) in added <==> Shared(lib, records, field, i) by {
      EveryFieldIsChecked(field);
      GapsOfConflicts(drafts, drafts[i], CONFLICT_FIELDS, field);
      ConflictIsSharing(lib, records, field, i);
    }
    assert DuplicateGap(field) in own <==> DuplicateGap(field) in records[i].registryGaps by {
      DraftGaps(lib, records[i], field);
    }
  }

  lemma EveryFieldIsChecked(field: Field)
    ensures field in CONFLICT_FIELDS
  {
    assert CONFLICT_FIELDS[0] == ProjectIdField && CONFLICT_FIELDS[1] == PrimaryRootField
      && CONFLICT_FIELDS[2] == EvaluationSlugField;
  }

  lemma DraftGaps(lib: Library, r: Record, field: Field)
    ensures DuplicateGap(field) in Draft(lib, r).gaps <==> DuplicateGap(field) in r.registryGaps
  {
    assert DuplicateGap(field) !in ManifestGaps(lib, r);
  }

  /** A settled member is held exactly when it has a hold gap, and its reason is then the first one. */
  lemma SettledHold(lib: Library, drafts: seq<Member>, r: Record)
    ensures var m := Settled(drafts, Draft(lib, r));
      if HoldGaps(m.gaps) == [] then m.classification == BaselineReady
      else m.classification == HoldGap && m.reason == FirstGap(HoldGaps(m.gaps)[0])
  {
    var draft := Draft(lib, r);
    var marked := AddGaps(drafts, CONFLICT_FIELDS, draft);
    if HoldGaps(marked.gaps) == [] {
      forall gap | gap in draft.gaps ensures !Holds(gap) {
        assert gap in marked.gaps;
      }
    }
  }

  lemma HoldGapsHold(gaps: seq<Gap>)
    ensures HoldGaps(gaps) != [] <==> exists gap :: gap in gaps && Holds(gap)
    ensures HoldGaps(gaps) != [] ==> HoldGaps(gaps)[0] in gaps && Holds(HoldGaps(gaps)[0])
  {
    if HoldGaps(gaps) != [] {
      assert HoldGaps(gaps)[0] in HoldGaps(gaps);
    }
  }

  /** On success a member is held exactly when some gap other than the alias mismatch is present. */
  lemma HoldIsExact(lib: Library, inputs: Inputs, records: seq<Record>, i: nat)
    requires Compiles(lib, inputs, records) && i < |records|
    ensures var m := FinalMembers(lib, inputs, records)[i];
      && (m.classification == HoldGap <==> exists gap :: gap in m.gaps && Holds(gap))
      && (m.classification == HoldGap ==> m.reason.FirstGap? && m.reason.gap in m.gaps && Holds(m.reason.gap))
  {
    var drafts := Drafts(lib, records);
    var settled := Settled(drafts, drafts[i]);
    assert FinalMembers(lib, inputs, records)[i] == Approved(inputs.approvals, settled)
        && settled in AllSettled(lib, records) && drafts[i] == Draft(lib, records[i]) by {
      MemberAt(lib, inputs, records, i);
    }
    SettledHold(lib, drafts, records[i]);
    HoldGapsHold(settled.gaps);
    assert NoneHeld(inputs.approvals, AllSettled(lib, records));
  }

  /** A supported manifest with both texts, whose root is the registered one; its slug may be another. */
  predicate ManifestNamesRoot(lib: Library, r: Record) {
    && r.manifestBytes.Some?
    && var yaml := lib.yaml(r.manifestBytes.value);
       && yaml.Mapping? && yaml.schemaSupported
       && Text(lib, yaml.projectSlug) && Text(lib, yaml.canonicalCwd) && yaml.canonicalCwd == r.primaryRoot
  }

  lemma ManifestHoldsExactly(lib: Library, r: Record)
    ensures (forall gap | gap in ManifestGaps(lib, r) :: !Holds(gap)) <==> ManifestNamesRoot(lib, r)
  {
    assert ManifestGaps(lib, r) == [] || ManifestGaps(lib, r)[0] in ManifestGaps(lib, r);
  }

  /** On success a member escapes the hold exactly when its listing, its manifest and its identity are all clean. */
  lemma UnheldExactly(lib: Library, inputs: Inputs, records: seq<Record>, i: nat)
    requires Compiles(lib, inputs, records) && i < |records|
    ensures FinalMembers(lib, inputs, records)[i].classification != HoldGap <==>
      && (forall gap | gap in records[i].registryGaps :: !Holds(gap))
      && ManifestNamesRoot(lib, records[i])
      && forall field :: !Shared(lib, records, field, i)
  {
    var drafts := Drafts(lib, records);
    var m := FinalMembers(lib, inputs, records)[i];
    var conflicts := ConflictGaps(drafts, drafts[i], CONFLICT_FIELDS);
    assert m.gaps == (records[i].registryGaps + ManifestGaps(lib, records[i])) + conflicts by {
      MemberAt(lib, inputs, records, i);
      SettledGaps(drafts, drafts[i], inputs.approvals);
    }
    HoldIsExact(lib, inputs, records, i);
    ManifestHoldsExactly(lib, records[i]);
    NoConflictsExactly(lib, records, i);
    assert (exists gap :: gap in m.gaps && Holds(gap)) <==>
      (exists gap :: gap in records[i].registryGaps && Holds(gap))
      || (exists gap :: gap in ManifestGaps(lib, records[i]) && Holds(gap))
      || (exists gap :: gap in conflicts && Holds(gap));
  }

  lemma NoConflictsExactly(lib: Library, records: seq<Record>, i: nat)
    requires i < |records|
    ensures var conflicts := ConflictGaps(Drafts(lib, records), Drafts(lib, records)[i], CONFLICT_FIELDS);
      (exists gap :: gap in conflicts && Holds(gap)) <==> exists field :: Shared(lib, records, field, i)
  {
    var drafts := Drafts(lib, records);
    ConflictGapsAreDuplicates(drafts, drafts[i], CONFLICT_FIELDS);
    forall field: Field
      ensures DuplicateGap(field) in ConflictGaps(drafts, drafts[i], CONFLICT_FIELDS)
        <==> Shared(lib, records, field, i)
      ensures Holds(DuplicateGap(field))
    {
      EveryFieldIsChecked(field);
      GapsOfConflicts(drafts, drafts[i], CONFLICT_FIELDS, field);
      ConflictIsSharing(lib, records, field, i);
    }
    assert DuplicateGap(ProjectIdField) == DuplicateProjectId && DuplicateGap(PrimaryRootField) == DuplicatePrimaryRoot
        && DuplicateGap(EvaluationSlugField) == DuplicateManifestIdentity;
  }

  // The approved members are in bijection with the approvals: the next three lemmas.

  lemma ApprovedExactly(lib: Library, inputs: Inputs, records: seq<Record>, i: nat)
    requires i < |records|
    ensures var m := FinalMembers(lib, inputs, records)[i];
      m.classification == NonApplicableApproved <==> m.projectId in inputs.approvals
  {
    MemberAt(lib, inputs, records, i);
  }

  lemma EveryApprovalIsUsed(lib: Library, inputs: Inputs, records: seq<Record>, id: string) returns (i: nat)
    requires Compiles(lib, inputs, records) && id in inputs.approvals
    ensures i < |records|
    ensures var m := FinalMembers(lib, inputs, records)[i];
      m.projectId == id && m.classification == NonApplicableApproved
      && m.approvalReference == inputs.approvals[id].reference
  {
    assert HasRecord(records, id);
    i :| 0 <= i < |records| && records[i].projectId == Some(id);
    MemberAt(lib, inputs, records, i);
  }

  lemma OneMemberPerApproval(lib: Library, inputs: Inputs, records: seq<Record>, i: nat, j: nat)
    requires Compiles(lib, inputs, records) && i < |records| && j < |records|
    requires var members := FinalMembers(lib, inputs, records);
      members[i].projectId in inputs.approvals && members[i].projectId == members[j].projectId
    ensures i == j
  {
    var settled := AllSettled(lib, records);
    assert settled[i] in settled;
    if i != j {
      SharedMembersAreHeld(lib, inputs, records, i, j);
    }
  }

  lemma SharedMembersAreHeld(lib: Library, inputs: Inputs, records: seq<Record>, i: nat, j: nat)
    requires i < |records| && j < |records| && i != j
    requires var members := FinalMembers(lib, inputs, records); members[i].projectId == members[j].projectId
    ensures var settled := AllSettled(lib, records);
      settled[i].classification == HoldGap
      && settled[i].projectId == FinalMembers(lib, inputs, records)[i].projectId
  {
    var drafts := Drafts(lib, records);
    MemberAt(lib, inputs, records, i);
    MemberAt(lib, inputs, records, j);
    assert Shared(lib, records, ProjectIdField, i) by {
      assert ValueOf(Draft(lib, records[j]), ProjectIdField) == ValueOf(Draft(lib, records[i]), ProjectIdField);
    }
    ConflictsAreExact(lib, inputs, records, ProjectIdField, i);
    SettledGaps(drafts, drafts[i], inputs.approvals);
    var marked := AddGaps(drafts, CONFLICT_FIELDS, drafts[i]);
    ConflictIsSharing(lib, records, ProjectIdField, i);
    GapsOfConflicts(drafts, drafts[i], CONFLICT_FIELDS, ProjectIdField);
    EveryFieldIsChecked(ProjectIdField);
    assert DuplicateProjectId in HoldGaps(marked.gaps);
  }

  // ---- order independence ----------------------------------------------------------

  lemma {:induction false} SameCountsSameGaps(drafts: seq<Member>, others: seq<Member>, m: Member, fields: seq<Field>)
    requires multiset(drafts) == multiset(others)
    ensures ConflictGaps(drafts, m, fields) == ConflictGaps(others, m, fields)
  {
    if fields != [] {
      var last := |fields| - 1;
      SameCountsSameGaps(drafts, others, m, fields[..last]);
      MapKeepsMultiset((x: Member) => ValueOf(x, fields[last]), drafts, others);
    }
  }

  /** Permuted records give permuted members. */
  lemma PermutedMembers(lib: Library, inputs: Inputs, records: seq<Record>, others: seq<Record>)
    requires multiset(records) == multiset(others)
    ensures multiset(AllSettled(lib, records)) == multiset(AllSettled(lib, others))
    ensures multiset(FinalMembers(lib, inputs, records)) == multiset(FinalMembers(lib, inputs, others))
  {
    var drafts, drafts' := Drafts(lib, records), Drafts(lib, others);
    MapKeepsMultiset((r: Record) => Draft(lib, r), records, others);
    var settle := (m: Member) => Settled(drafts, m);
    MapKeepsMultiset(settle, drafts, drafts');
    forall m: Member ensures Settled(drafts, m) == Settled(drafts', m) {
      SameCountsSameGaps(drafts, drafts', m, CONFLICT_FIELDS);
    }
    assert Map(settle, drafts') == AllSettled(lib, others);
    MapKeepsMultiset((m: Member) => Approved(inputs.approvals, m), AllSettled(lib, records), AllSettled(lib, others));
  }

  lemma SameElements<T>(s: seq<T>, t: seq<T>)
    requires multiset(s) == multiset(t)
    ensures forall x :: x in s <==> x in t
  {
    forall x ensures x in s <==> x in t {
      assert x in multiset(s) <==> x in multiset(t);
    }
  }

  /** Listing the records in another order changes neither success nor failure. */
  lemma SuccessIgnoresOrder(lib: Library, inputs: Inputs, records: seq<Record>, others: seq<Record>)
    requires multiset(records) == multiset(others)
    ensures Compiles(lib, inputs, records) <==> Compiles(lib, inputs, others)
  {
    SameElements(records, others);
    PermutedMembers(lib, inputs, records, others);
    SameElements(AllSettled(lib, records), AllSettled(lib, others));
  }

  /** Two members that the sort cannot tell apart but the digest can: no slug against an empty one. */
  ghost predicate AmbiguousTie(members: seq<Member>) {
    exists i, j :: 0 <= i < j < |members| && KeyOf(members[i]) == KeyOf(members[j])
      && (members[i].evaluationSlug == None) != (members[j].evaluationSlug == None)
  }

  lemma TiesDifferOnlyByEmptySlug(x: Member, y: Member)
    requires KeyOf(x) == KeyOf(y)
    ensures IdentityOf(x) != IdentityOf(y) <==> (x.evaluationSlug == None) != (y.evaluationSlug == None)
    ensures IdentityOf(x) != IdentityOf(y) ==>
      (x.evaluationSlug == Some("") && y.evaluationSlug == None)
      || (x.evaluationSlug == None && y.evaluationSlug == Some(""))
  {
    var k, l := KeyOf(x), KeyOf(y);
    assert k[0] == l[0] && k[1] == l[1] && k[2] == l[2] && k[3] == l[3];
  }

  function Digested(lib: Library, inputs: Inputs, records: seq<Record>): DigestInput {
    DigestedMembers(SnapshotOf(lib, inputs, records).members, inputs)
  }

  /** The digest's input, and so the digest, ignores the order of the records exactly when no tie is ambiguous. */
  lemma DigestIgnoresOrderExactlyWithoutAmbiguousTies(lib: Library, inputs: Inputs, records: seq<Record>)
    ensures (forall others: seq<Record> | multiset(others) == multiset(records) ::
              Digested(lib, inputs, others) == Digested(lib, inputs, records))
      <==> !AmbiguousTie(FinalMembers(lib, inputs, records))
  {
    var members := FinalMembers(lib, inputs, records);
    if AmbiguousTie(members) {
      var i, j :| 0 <= i < j < |members| && KeyOf(members[i]) == KeyOf(members[j])
        && (members[i].evaluationSlug == None) != (members[j].evaluationSlug == None);
      TiesDifferOnlyByEmptySlug(members[i], members[j]);
      ExchangedRecordsShow(lib, inputs, records, i, j);
    } else {
      TiesAreFaithful(members);
      forall others: seq<Record> | multiset(others) == multiset(records)
        ensures Digested(lib, inputs, others) == Digested(lib, inputs, records)
      {
        PermutedMembers(lib, inputs, records, others);
        SortedViewsAgree(KeyOf, IdentityOf, members, FinalMembers(lib, inputs, others));
      }
    }
  }

  lemma TiesAreFaithful(members: seq<Member>)
    requires !AmbiguousTie(members)
    ensures TiesLookAlike(KeyOf, IdentityOf, members)
  {
    forall x, y | x in members && y in members && KeyOf(x) == KeyOf(y) ensures IdentityOf(x) == IdentityOf(y) {
      var i :| 0 <= i < |members| && members[i] == x;
      var j :| 0 <= j < |members| && members[j] == y;
      TiesDifferOnlyByEmptySlug(x, y);
      assert i < j ==> (members[i].evaluationSlug == None) == (members[j].evaluationSlug == None);
      assert j < i ==> (members[j].evaluationSlug == None) == (members[i].evaluationSlug == None);
    }
  }

  lemma ExchangedRecordsShow(lib: Library, inputs: Inputs, records: seq<Record>, i: nat, j: nat)
    requires i < j < |records|
    requires var members := FinalMembers(lib, inputs, records);
      KeyOf(members[i]) == KeyOf(members[j]) && IdentityOf(members[i]) != IdentityOf(members[j])
    ensures multiset(Exchange(records, i, j)) == multiset(records)
    ensures Digested(lib, inputs, Exchange(records, i, j)) != Digested(lib, inputs, records)
  {
    var others := Exchange(records, i, j);
    ExchangeKeepsMultiset(records, i, j);
    var members, members' := FinalMembers(lib, inputs, records), FinalMembers(lib, inputs, others);
    assert members' == Exchange(members, i, j) by {
      ExchangedMembers(lib, inputs, records, i, j);
    }
    ExchangedTieShows(KeyOf, IdentityOf, members, i, j);
  }

  lemma ExchangedMembers(lib: Library, inputs: Inputs, records: seq<Record>, i: nat, j: nat)
    requires i < j < |records|
    ensures FinalMembers(lib, inputs, Exchange(records, i, j)) == Exchange(FinalMembers(lib, inputs, records), i, j)
  {
    var members, members' := FinalMembers(lib, inputs, records), FinalMembers(lib, inputs, Exchange(records, i, j));
    forall k | 0 <= k < |records| ensures members'[k] == Exchange(members, i, j)[k] {
      ExchangedMemberAt(lib, inputs, records, i, j, k);
    }
  }

  lemma ExchangedMemberAt(lib: Library, inputs: Inputs, records: seq<Record>, i: nat, j: nat, k: nat)
    requires i < j < |records| && k < |records|
    ensures FinalMembers(lib, inputs, Exchange(records, i, j))[k]
         == FinalMembers(lib, inputs, records)[if k == i then j else if k == j then i else k]
  {
    ExchangeKeepsMultiset(records, i, j);
    MovedMember(lib, inputs, records, Exchange(records, i, j), if k == i then j else if k == j then i else k, k);
  }

  /** A record at another place of a permuted list becomes the same member. */
  lemma MovedMember(lib: Library, inputs: Inputs, records: seq<Record>, others: seq<Record>, from: nat, to: nat)
    requires multiset(records) == multiset(others)
    requires from < |records| && to < |others| && records[from] == others[to]
    ensures FinalMembers(lib, inputs, records)[from] == FinalMembers(lib, inputs, others)[to]
  {
    MemberAt(lib, inputs, records, from);
    MemberAt(lib, inputs, others, to);
    MapKeepsMultiset((r: Record) => Draft(lib, r), records, others);
    SameCountsSameGaps(Drafts(lib, records), Drafts(lib, others), Draft(lib, records[from]), CONFLICT_FIELDS);
  }

  /** With pairwise distinct sort keys the whole snapshot ignores the order of the records. */
  lemma SnapshotIgnoresOrder(lib: Library, inputs: Inputs, records: seq<Record>, others: seq<Record>)
    requires multiset(records) == multiset(others)
    requires var members := FinalMembers(lib, inputs, records);
      forall i, j | 0 <= i < j < |members| :: KeyOf(members[i]) != KeyOf(members[j])
    ensures SnapshotOf(lib, inputs, records) == SnapshotOf(lib, inputs, others)
  {
    var members, members' := FinalMembers(lib, inputs, records), FinalMembers(lib, inputs, others);
    PermutedMembers(lib, inputs, records, others);
    DistinctKeysSortAlike(members, members');
  }

  lemma DistinctKeysSortAlike(members: seq<Member>, others: seq<Member>)
    requires multiset(members) == multiset(others)
    requires forall i, j | 0 <= i < j < |members| :: KeyOf(members[i]) != KeyOf(members[j])
    ensures Sort(KeyOf, members) == Sort(KeyOf, others)
  {
    var whole := (m: Member) => m;
    forall x, y | x in members && y in members && KeyOf(x) == KeyOf(y) ensures whole(x) == whole(y) {
      var i :| 0 <= i < |members| && members[i] == x;
      var j :| 0 <= j < |members| && members[j] == y;
    }
    SortedViewsAgree(KeyOf, whole, members, others);
    var a, b := Sort(KeyOf, members), Sort(KeyOf, others);
    assert |a| == |Map(whole, a)| == |Map(whole, b)| == |b|;
    forall k | 0 <= k < |a| ensures a[k] == b[k] {
      assert a[k] == Map(whole, a)[k] && b[k] == Map(whole, b)[k];
    }
  }
}
