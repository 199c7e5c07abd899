// runtime/harness_runtime/capability_transport.py: the claim, seal and result
// documents, the functions that build them and the functions that judge them.

module ClaimRecords {
  import opened Wrappers
  import opened Json

  const RECEIPT_SCHEMA := "harness.capability-transport.immutable-receipt.v1"
  const RESULT_SCHEMA := "harness.capability-transport.result.v1"
  const CLAIM_SCHEMA := "harness.capability-transport.claim.v1"
  const CLAIM_TTL := 5 * 60
  const MAX_TEXT := 256

  /** What a call works on once its host context, capability ref and binding are accepted. */
  datatype Request = Request(
    ref: string, profile: string, session: string, task: string,
    project: string, operation: string, producer: string, consumer: string)
  {
    function Host(): Value {
      Obj(map[Profile := Str(profile), SessionId := Str(session), TaskId := Str(task)])
    }

    /** The text bounds that `_validate_host_context`, `consume_capability` and `_load_binding` enforce. */
    predicate Bounded() {
      && BoundedText(ref) && BoundedText(profile) && BoundedText(session) && BoundedText(task)
      && BoundedText(project) && BoundedText(operation) && BoundedText(producer) && BoundedText(consumer)
    }
  }

  predicate BoundedText(s: string) {
    0 < |s| <= MAX_TEXT
  }

  /** The digest function and the clock's text format. */
  datatype Library = Library(sha: Sha256, stamp: int -> string, parse: string -> Option<int>)

  // ---- builders ----------------------------------------------------------

  function BoundedRef(ref: Value): Value {
    if ref.Str? && ref.s != "" then Str(if |ref.s| <= MAX_TEXT then ref.s else ref.s[..MAX_TEXT])
    else Str("invalid")
  }

  function Bounded(v: Value): Value {
    if v.Str? && BoundedText(v.s) then v else Null
  }

  function Correlation(sha: Sha256, ref: Value, host: Value, project: Value, action: Value): Value {
    var h: Fields := if host.Obj? then host.fields else map[];
    var base: Fields := map[
      ProjectId := Bounded(project), Profile := Bounded(Get(h, Profile)),
      SessionId := Bounded(Get(h, SessionId)), TaskId := Bounded(Get(h, TaskId)),
      Action := Bounded(action)];
    Obj(base[DigestKey := Str(sha.document(Obj(base[CapabilityRef := BoundedRef(ref)])))])
  }

  function RequestCorrelation(sha: Sha256, req: Request): Value {
    Correlation(sha, Str(req.ref), req.Host(), Str(req.project), Str(req.operation))
  }

  function RepairEnvelope(
    sha: Sha256, ref: Value, reason: string, host: Value, project: Value, action: Value): Fields
  {
    var correlation := Correlation(sha, ref, host, project, action);
    map[
      Schema := Str(RESULT_SCHEMA),
      CapabilityRef := BoundedRef(ref),
      CorrelationKey := correlation,
      Status := Str("foundation_repair_required"),
      DigestKey := Str(sha.document(Obj(map[
        CorrelationKey := Get(correlation.fields, DigestKey), Reason := Str(reason)]))),
      Size := Int(0),
      Assessment := Str("foundation_repair_required"),
      Repair := Obj(map[Ref := BoundedRef(ref), Reason := Str(reason)])]
  }

  function RequestRepair(sha: Sha256, req: Request, reason: string): Fields {
    RepairEnvelope(sha, Str(req.ref), reason, req.Host(), Str(req.project), Str(req.operation))
  }

  function Prepared(): Fields {
    map[Schema := Str(CLAIM_SCHEMA), Status := Str("prepared")]
  }

  function RepairTerminal(sha: Sha256, req: Request, reason: string): Fields {
    map[Schema := Str(CLAIM_SCHEMA), Status := Str("terminal"),
        Terminal := Obj(RequestRepair(sha, req, reason))]
  }

  /** The receipt before its own digest is added. */
  function UnsignedReceipt(sha: Sha256, req: Request, expiresAt: string): Fields {
    map[
      Schema := Str(RECEIPT_SCHEMA),
      CapabilityRef := Str(req.ref),
      Producer := Str(req.producer),
      Recipient := Str(req.consumer),
      Action := Str(req.operation),
      ExpiresAt := Str(expiresAt),
      CorrelationKey := RequestCorrelation(sha, req)]
  }

  function SealedReceipt(sha: Sha256, req: Request, expiresAt: string): Fields {
    var unsigned := UnsignedReceipt(sha, req, expiresAt);
    unsigned[SealDigest := Str(sha.document(Obj(unsigned)))]
  }

  const SEALED_FIELDS: seq<Key> :=
    [CapabilityRef, Producer, Recipient, Action, ExpiresAt, CorrelationKey, SealDigest]

  function SealedClaim(sha: Sha256, req: Request, expiresAt: string): Fields {
    var receipt := SealedReceipt(sha, req, expiresAt);
    map[
      Schema := Str(CLAIM_SCHEMA), Status := Str("sealed"),
      CapabilityRef := receipt[CapabilityRef], Producer := receipt[Producer],
      Recipient := receipt[Recipient], Action := receipt[Action],
      ExpiresAt := receipt[ExpiresAt], CorrelationKey := receipt[CorrelationKey],
      SealDigest := receipt[SealDigest],
      Receipt := Obj(receipt)]
  }

  /** How `_run_delivery` ended. */
  datatype Delivery =
    | Completed(returncode: int, output: Bytes)
    | TimedOut(output: Bytes)
    | Raised(errorName: Bytes, signal: bool)

  function DeliveryStatus(how: Delivery): string {
    if how.Completed? && how.returncode == 0 then "delivered" else "failed"
  }

  function DeliveryAssessment(how: Delivery): string {
    match how
    case TimedOut(_) => "delivery_timeout"
    case Raised(_, signal) => if signal then "delivery_signal" else "delivery_failure"
    case Completed(code, _) =>
      if code == 0 then "consumer_delivered"
      else if code < 0 then "delivery_signal"
      else "delivery_failure"
  }

  function DeliveryOutput(how: Delivery): Bytes {
    if how.Raised? then how.errorName else how.output
  }

  function TerminalResult(sha: Sha256, req: Request, how: Delivery): Fields {
    map[
      Schema := Str(RESULT_SCHEMA),
      CapabilityRef := Str(req.ref),
      CorrelationKey := RequestCorrelation(sha, req),
      Status := Str(DeliveryStatus(how)),
      DigestKey := Str(sha.raw(DeliveryOutput(how))),
      Size := Int(|DeliveryOutput(how)|),
      Assessment := Str(DeliveryAssessment(how)),
      Repair := Null]
  }

  /** The sealed claim updated in place with the delivery's result. */
  function DeliveredClaim(sha: Sha256, req: Request, claim: Fields, how: Delivery): Fields {
    claim[Status := Str("terminal")][Terminal := Obj(TerminalResult(sha, req, how))]
  }

  // ---- judges ------------------------------------------------------------

  function ExpectedSeal(sha: Sha256, req: Request, claim: Fields): Option<Fields> {
    var receipt, expiresAt := Get(claim, Receipt), Get(claim, ExpiresAt);
    if !receipt.Obj? || !expiresAt.Str? then None
    else
      var expected := SealedReceipt(sha, req, expiresAt.s);
      if receipt.fields != expected then None
      else if exists key | key in SEALED_FIELDS :: Get(claim, key) != Get(expected, key) then None
      else Some(expected)
  }

  const REPAIR_REASONS: set<string> := {
    "binding_invalid", "capability_ref_invalid", "claim_malformed", "host_context_invalid",
    "sealed_claim_corrupt", "sealed_claim_expired", "sealed_delivery_unresolved",
    "state_dir_unavailable", "terminal_claim_corrupt", "tool_arguments_invalid"}

  const RESULT_KEYS: set<Key> :=
    {Schema, CapabilityRef, CorrelationKey, Status, DigestKey, Size, Assessment, Repair}

  /** A membership test raises TypeError on a list or dict, which no caller catches. */
  datatype Verdict = Accepted | Rejected | Raises

  predicate Hashable(v: Value) {
    !v.Arr? && !v.Obj?
  }

  predicate TextIn(v: Value, texts: set<string>) {
    v.Str? && v.s in texts
  }

  predicate NonNegativeInt(v: Value) {
    v.Bool? || (v.Int? && v.n >= 0)
  }

  function JudgeTerminal(sha: Sha256, req: Request, value: Fields): Verdict {
    if value.Keys != RESULT_KEYS
      || value[Schema] != Str(RESULT_SCHEMA)
      || value[CapabilityRef] != Str(req.ref)
      || value[CorrelationKey] != RequestCorrelation(sha, req) then Rejected
    else if !Hashable(value[Status]) then Raises
    else if !TextIn(value[Status], {"delivered", "failed", "foundation_repair_required"})
      || !(value[DigestKey].Str? && IsHex64(value[DigestKey].s))
      || !NonNegativeInt(value[Size]) then Rejected
    else if value[Status] == Str("foundation_repair_required") then
      var repair := value[Repair];
      if value[Assessment] != Str("foundation_repair_required")
        || !repair.Obj? || repair.fields.Keys != {Ref, Reason}
        || repair.fields[Ref] != Str(req.ref) then Rejected
      else if !Hashable(repair.fields[Reason]) then Raises
      else if TextIn(repair.fields[Reason], REPAIR_REASONS) then Accepted
      else Rejected
    else if value[Repair] != Null then Rejected
    else if !Hashable(value[Assessment]) then Raises
    else if TextIn(value[Assessment],
                   {"consumer_delivered", "delivery_failure", "delivery_timeout", "delivery_signal"})
    then Accepted
    else Rejected
  }

  // ---- every claim the code writes is accepted by its own judges ---------

  lemma BoundedFieldsAreKept(sha: Sha256, req: Request)
    requires req.Bounded()
    ensures BoundedRef(Str(req.ref)) == Str(req.ref)
    ensures RequestCorrelation(sha, req).Obj?
    ensures var c := RequestCorrelation(sha, req).fields;
      && c.Keys == {ProjectId, Profile, SessionId, TaskId, Action, DigestKey}
      && c[ProjectId] == Str(req.project) && c[Profile] == Str(req.profile)
      && c[SessionId] == Str(req.session) && c[TaskId] == Str(req.task)
      && c[Action] == Str(req.operation)
  {
  }

  lemma RepairTerminalIsAccepted(sha: Sha256, req: Request, reason: string)
    requires req.Bounded() && reason in REPAIR_REASONS
    ensures JudgeTerminal(sha, req, RequestRepair(sha, req, reason)) == Accepted
  {
    var value := RequestRepair(sha, req, reason);
    assert value.Keys == RESULT_KEYS;
    assert value[Repair].fields.Keys == {Ref, Reason};
  }

  lemma DeliveredTerminalIsAccepted(sha: Sha256, req: Request, how: Delivery)
    requires req.Bounded()
    ensures JudgeTerminal(sha, req, TerminalResult(sha, req, how)) == Accepted
    ensures TerminalResult(sha, req, how)[Status] == Str("delivered") <==> how.Completed? && how.returncode == 0
  {
    assert TerminalResult(sha, req, how).Keys == RESULT_KEYS;
  }

  lemma OwnSealIsAccepted(sha: Sha256, req: Request, expiresAt: string)
    ensures ExpectedSeal(sha, req, SealedClaim(sha, req, expiresAt)) == Some(SealedReceipt(sha, req, expiresAt))
    ensures Get(SealedClaim(sha, req, expiresAt), Status) == Str("sealed")
  {
    var seal, receipt := SealedClaim(sha, req, expiresAt), SealedReceipt(sha, req, expiresAt);
    assert forall key | key in SEALED_FIELDS :: Get(seal, key) == Get(receipt, key);
  }

  /** A claim passes the seal check exactly when it agrees with some seal of this very request. */
  lemma SealIsAcceptedExactlyWhenIntact(sha: Sha256, req: Request, claim: Fields)
    ensures ExpectedSeal(sha, req, claim).Some? <==>
      exists expiresAt: string :: AgreesWithSeal(claim, SealedClaim(sha, req, expiresAt))
    ensures forall expiresAt: string :: AgreesWithSeal(claim, SealedClaim(sha, req, expiresAt)) ==>
      ExpectedSeal(sha, req, claim) == Some(SealedReceipt(sha, req, expiresAt))
  {
    if ExpectedSeal(sha, req, claim).Some? {
      var expiresAt := claim[ExpiresAt].s;
      var seal := SealedClaim(sha, req, expiresAt);
      forall key | key in SEALED_FIELDS ensures Get(claim, key) == Get(seal, key) {
        assert Get(seal, key) == Get(SealedReceipt(sha, req, expiresAt), key);
      }
      assert AgreesWithSeal(claim, seal);
    }
    forall expiresAt: string | AgreesWithSeal(claim, SealedClaim(sha, req, expiresAt))
      ensures ExpectedSeal(sha, req, claim) == Some(SealedReceipt(sha, req, expiresAt))
    {
      var seal, receipt := SealedClaim(sha, req, expiresAt), SealedReceipt(sha, req, expiresAt);
      assert ExpiresAt in SEALED_FIELDS;
      assert Get(claim, ExpiresAt) == Str(expiresAt);
      forall key | key in SEALED_FIELDS ensures Get(claim, key) == Get(receipt, key) {
        assert Get(seal, key) == Get(receipt, key);
      }
    }
  }

  /** Agreement on the receipt and on every sealed field. */
  ghost predicate AgreesWithSeal(claim: Fields, seal: Fields) {
    && Get(claim, Receipt) == Get(seal, Receipt)
    && forall key | key in SEALED_FIELDS :: Get(claim, key) == Get(seal, key)
  }

  /** An accepted terminal names its request in clear text, so no other request accepts it. */
  lemma TerminalBelongsToOneRequest(sha: Sha256, req: Request, other: Request, value: Fields)
    requires req.Bounded() && other.Bounded()
    requires JudgeTerminal(sha, req, value) == Accepted
    ensures JudgeTerminal(sha, other, value) == Accepted <==>
      && other.ref == req.ref && other.Host() == req.Host()
      && other.project == req.project && other.operation == req.operation
  {
    BoundedFieldsAreKept(sha, req);
    BoundedFieldsAreKept(sha, other);
    if other.Host() == req.Host() {
      assert other.Host().fields[Profile] == req.Host().fields[Profile];
      assert other.Host().fields[SessionId] == req.Host().fields[SessionId];
      assert other.Host().fields[TaskId] == req.Host().fields[TaskId];
    }
  }
}
