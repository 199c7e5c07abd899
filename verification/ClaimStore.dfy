// runtime/harness_runtime/capability_transport.py: one call of
// `consume_capability` and the atomic write it uses, over the claims directory.

module ClaimStore {
  import opened Wrappers
  import opened Json
  import opened ClaimRecords

  /** What a claim file holds when it exists: a JSON object, or anything else. */
  datatype Content = Malformed | Document(fields: Fields)

  /** The only states in which a call goes on to deliver: no file, or the bare prepared claim. */
  predicate Fresh(file: Option<Content>) {
    file == None || file == Some(Document(Prepared()))
  }

  // ---- what a call decides after reading the claim -----------------------

  datatype Decision =
    | Answer(result: Fields)
    | TypeError
    | Amend(reason: string)
    | Seal(claim: Fields)

  function Decide(lib: Library, req: Request, file: Option<Content>, now: int): Decision {
    match file
    case None => Seal(SealedClaim(lib.sha, req, lib.stamp(now + CLAIM_TTL)))
    case Some(Malformed) => Amend("claim_malformed")
    case Some(Document(claim)) =>
      if Get(claim, Status) == Str("terminal") then DecideTerminal(lib, req, Get(claim, Terminal))
      else if Get(claim, Status) == Str("sealed") then DecideSealed(lib, req, claim, now)
      else if claim != Prepared() then Amend("claim_malformed")
      else Seal(SealedClaim(lib.sha, req, lib.stamp(now + CLAIM_TTL)))
  }

  function DecideTerminal(lib: Library, req: Request, terminal: Value): Decision {
    if !terminal.Obj? then Amend("terminal_claim_corrupt")
    else match JudgeTerminal(lib.sha, req, terminal.fields)
      case Accepted => Answer(terminal.fields)
      case Raises => TypeError
      case Rejected => Amend("terminal_claim_corrupt")
  }

  function DecideSealed(lib: Library, req: Request, claim: Fields, now: int): Decision {
    match ExpectedSeal(lib.sha, req, claim)
    case None => Amend("sealed_claim_corrupt")
    case Some(receipt) =>
      var expiry := if receipt[ExpiresAt].Str? then lib.parse(receipt[ExpiresAt].s) else None;
      if expiry == None || expiry.value <= now then Amend("sealed_claim_expired")
      else Amend("sealed_delivery_unresolved")
  }

  // ---- one uninterrupted call --------------------------------------------

  /** `_atomic_write` either lands, fails with the old file in place, or fails with the new one. */
  datatype Write = Written | FailedBefore | FailedAfter

  function After(file: Option<Content>, document: Fields, write: Write): Option<Content> {
    if write == FailedBefore then file else Some(Document(document))
  }

  datatype Reply = Settled(result: Fields) | Unavailable | Uncaught

  datatype Effect = Effect(file: Option<Content>, sent: seq<Fields>, reply: Reply)

  function ReplyAfter(write: Write, result: Fields): Reply {
    if write == Written then Settled(result) else Unavailable
  }

  /** The effect of one call that holds the lock, given how each of its I/O steps ends. */
  function Call(
    lib: Library, req: Request, file: Option<Content>, readable: bool, now: int,
    first: Write, how: Delivery, second: Write): Effect
  {
    if !readable then Effect(file, [], Unavailable)
    else match Decide(lib, req, file, now)
      case Answer(result) => Effect(file, [], Settled(result))
      case TypeError => Effect(file, [], Uncaught)
      case Amend(reason) =>
        Effect(After(file, RepairTerminal(lib.sha, req, reason), first), [],
               ReplyAfter(first, RequestRepair(lib.sha, req, reason)))
      case Seal(claim) =>
        SealedEffect(lib, req, file, claim, first, how, second)
  }

  function SealedEffect(
    lib: Library, req: Request, file: Option<Content>, claim: Fields,
    first: Write, how: Delivery, second: Write): Effect
    requires Receipt in claim && claim[Receipt].Obj?
  {
    if first != Written then Effect(After(file, claim, first), [], Unavailable)
    else
      Effect(After(Some(Document(claim)), DeliveredClaim(lib.sha, req, claim, how), second),
             [claim[Receipt].fields],
             ReplyAfter(second, TerminalResult(lib.sha, req, how)))
  }

  /** The terminal a file holds for this request, if its judge accepts it. */
  function TerminalOnDisk(sha: Sha256, req: Request, file: Option<Content>): Option<Fields> {
    if file.Some? && file.value.Document? && Get(file.value.fields, Status) == Str("terminal")
      && Get(file.value.fields, Terminal).Obj?
      && JudgeTerminal(sha, req, Get(file.value.fields, Terminal).fields) == Accepted
    then Some(Get(file.value.fields, Terminal).fields)
    else None
  }

  lemma TerminalIsAnswered(lib: Library, req: Request, file: Option<Content>, now: int)
    requires TerminalOnDisk(lib.sha, req, file).Some?
    ensures Decide(lib, req, file, now) == Answer(TerminalOnDisk(lib.sha, req, file).value)
  {
  }

  lemma AnswerIsTerminal(lib: Library, req: Request, file: Option<Content>, now: int)
    requires Decide(lib, req, file, now).Answer?
    ensures TerminalOnDisk(lib.sha, req, file) == Some(Decide(lib, req, file, now).result)
  {
  }

  /** Both terminals the code writes are on disk what it returned. */
  lemma RepairIsOnDisk(sha: Sha256, req: Request, reason: string)
    requires req.Bounded() && reason in REPAIR_REASONS
    ensures TerminalOnDisk(sha, req, Some(Document(RepairTerminal(sha, req, reason))))
         == Some(RequestRepair(sha, req, reason))
  {
    RepairTerminalIsAccepted(sha, req, reason);
  }

  lemma DeliveryIsOnDisk(sha: Sha256, req: Request, claim: Fields, how: Delivery)
    requires req.Bounded()
    ensures TerminalOnDisk(sha, req, Some(Document(DeliveredClaim(sha, req, claim, how))))
         == Some(TerminalResult(sha, req, how))
  {
    DeliveredTerminalIsAccepted(sha, req, how);
  }

  lemma AmendmentIsKnown(lib: Library, req: Request, file: Option<Content>, now: int)
    requires Decide(lib, req, file, now).Amend?
    ensures Decide(lib, req, file, now).reason in REPAIR_REASONS
  {
  }

  /**
   * A claim left sealed by a call that stopped before its terminal is never delivered again: before its
   * expiry the delivery is reported unresolved, from then on expired.
   */
  lemma InterruptedDeliveryIsRepaired(lib: Library, req: Request, sealedAt: int, now: int)
    requires forall t: int :: lib.parse(lib.stamp(t)) == Some(t)
    ensures Decide(lib, req, Some(Document(SealedClaim(lib.sha, req, lib.stamp(sealedAt + CLAIM_TTL)))), now)
         == Amend(if now < sealedAt + CLAIM_TTL then "sealed_delivery_unresolved" else "sealed_claim_expired")
  {
    OwnSealIsAccepted(lib.sha, req, lib.stamp(sealedAt + CLAIM_TTL));
  }

  /** A second call after a settled one delivers nothing, changes nothing and repeats the answer. */
  lemma SettledCallIsRepeated(
    lib: Library, req: Request, file: Option<Content>, readable: bool, now: int,
    first: Write, how: Delivery, second: Write,
    now': int, first': Write, how': Delivery, second': Write)
    requires req.Bounded()
    ensures var once := Call(lib, req, file, readable, now, first, how, second);
      once.reply.Settled? ==>
        Call(lib, req, once.file, true, now', first', how', second') == once.(sent := [])
  {
    var once := Call(lib, req, file, readable, now, first, how, second);
    if once.reply.Settled? {
      assert TerminalOnDisk(lib.sha, req, once.file) == Some(once.reply.result) by {
        match Decide(lib, req, file, now)
        case Answer(_) => AnswerIsTerminal(lib, req, file, now);
        case TypeError =>
        case Amend(reason) =>
          AmendmentIsKnown(lib, req, file, now);
          RepairIsOnDisk(lib.sha, req, reason);
        case Seal(claim) => DeliveryIsOnDisk(lib.sha, req, claim, how);
      }
      TerminalIsAnswered(lib, req, once.file, now');
    }
  }

  // ---- the calls made before any claim file is opened --------------------

  /** What `_load_binding` returns or raises. */
  datatype Binding =
    | NoCapability
    | Invalid
    | Bound(project: string, operation: string, producer: string, consumer: string)

  predicate ValidHost(host: Value) {
    && host.Obj?
    && host.fields.Keys == {Profile, SessionId, TaskId}
    && forall key | key in host.fields :: host.fields[key].Str? && BoundedText(host.fields[key].s)
  }

  predicate BoundedBinding(binding: Binding) {
    binding.Bound? ==>
      && BoundedText(binding.project) && BoundedText(binding.operation)
      && BoundedText(binding.producer) && BoundedText(binding.consumer)
  }

  /** The request a call goes on with, or the reason it stops before touching the claim. */
  function Admit(ref: Value, host: Value, binding: Binding): (r: Result<Request, string>)
    requires BoundedBinding(binding)
    ensures r.Success? ==> r.value.Bounded() && Str(r.value.ref) == ref && r.value.Host() == host
  {
    if !ValidHost(host) then Failure("host_context_invalid")
    else if !ref.Str? || !BoundedText(ref.s) then Failure("capability_ref_invalid")
    else match binding
      case NoCapability => Failure("capability_ref_invalid")
      case Invalid => Failure("binding_invalid")
      case Bound(project, operation, producer, consumer) =>
        assert Profile in host.fields && SessionId in host.fields && TaskId in host.fields;
        Success(Request(ref.s, host.fields[Profile].s, host.fields[SessionId].s, host.fields[TaskId].s,
                        project, operation, producer, consumer))
  }

  /** The document whose digest names the claim: host context, ref and project. */
  function KeyDocument(req: Request): Value {
    Obj(req.Host().fields[CapabilityRef := Str(req.ref)][ProjectId := Str(req.project)])
  }

  function ClaimKey(sha: Sha256, req: Request): Hex64 {
    sha.document(KeyDocument(req))
  }

  /**
   * Two requests share a claim file exactly when they agree on ref, host and project, or their key
   * documents collide.
   */
  lemma KeyNamesOneClaim(sha: Sha256, req: Request, other: Request)
    ensures KeyDocument(req) == KeyDocument(other) <==>
      req.ref == other.ref && req.project == other.project && req.Host() == other.Host()
    ensures ClaimName(sha, req) == ClaimName(sha, other) <==>
      KeyDocument(req) == KeyDocument(other) || Collide(sha, KeyDocument(req), KeyDocument(other))
  {
    var left, right := KeyDocument(req).fields, KeyDocument(other).fields;
    if left == right {
      assert left[CapabilityRef] == right[CapabilityRef] && left[ProjectId] == right[ProjectId]
          && left[Profile] == right[Profile] && left[SessionId] == right[SessionId] && left[TaskId] == right[TaskId];
    }
    assert ClaimName(sha, req)[..64] == ClaimKey(sha, req) && ClaimName(sha, other)[..64] == ClaimKey(sha, other);
  }

  function ClaimName(sha: Sha256, req: Request): string {
    ClaimKey(sha, req) + ".json"
  }

  function Lookup(entries: map<string, Content>, name: string): Option<Content> {
    if name in entries then Some(entries[name]) else None
  }

  function Store(entries: map<string, Content>, name: string, file: Option<Content>): map<string, Content> {
    if file.Some? then entries[name := file.value] else entries - {name}
  }

  // ---- the claims directory ----------------------------------------------

  /** Where an atomic write is cut short by an OSError. */
  datatype Fault = NoFault | AtEntryCheck | AtOpen | AtWrite | AtReplace | AfterReplace

  const ATTEMPTS := 8

  function Candidate(name: string, token: string): string {
    "." + name + "." + token
  }

  function WriteOutcome(entries: map<string, Content>, name: string, tokens: seq<string>, fault: Fault): Write {
    if fault == AtEntryCheck || forall token | token in tokens :: Candidate(name, token) in entries
    then FailedBefore
    else match fault
      case NoFault => Written
      case AfterReplace => FailedAfter
      case _ => FailedBefore
  }

  /** The I/O outcomes of one call, in the order in which the call meets them. */
  datatype Weather = Weather(
    stateRoot: bool, lock: bool, readable: bool, now: int,
    tokens: seq<string>, fault: Fault, how: Delivery, tokens': seq<string>, fault': Fault)
  {
    predicate Complete() {
      |tokens| == ATTEMPTS && |tokens'| == ATTEMPTS
    }
  }

  class ClaimDirectory {
    var entries: map<string, Content>
    var sent: seq<Fields>  // the receipts handed to the consumer, oldest first

    /** Write under a fresh temporary name, then rename; the temporary never survives. */
    method AtomicWrite(name: string, document: Fields, tokens: seq<string>, fault: Fault)
      returns (written: bool)
      requires |tokens| == ATTEMPTS
      modifies this`entries
      ensures var outcome := WriteOutcome(old(entries), name, tokens, fault);
        && entries == Store(old(entries), name, After(Lookup(old(entries), name), document, outcome))
        && written == (outcome == Written)
    {
      if fault == AtEntryCheck {
        return false;
      }
      var temporary := "";
      var attempt := 0;
      while attempt < ATTEMPTS && temporary == ""
        invariant 0 <= attempt <= ATTEMPTS
        invariant entries == old(entries)
        invariant temporary == "" ==>
          forall i | 0 <= i < attempt :: Candidate(name, tokens[i]) in entries
        invariant temporary != "" ==>
          fault != AtOpen && temporary !in entries && temporary != name &&
          exists i :: 0 <= i < attempt && temporary == Candidate(name, tokens[i])
      {
        var candidate := Candidate(name, tokens[attempt]);
        if candidate !in entries {
          if fault == AtOpen {
            return false;
          }
          assert |candidate| > |name|;
          temporary := candidate;
        }
        attempt := attempt + 1;
      }
      if temporary == "" {
        return false;
      }
      ghost var i :| 0 <= i < attempt && temporary == Candidate(name, tokens[i]);
      assert tokens[i] in tokens && Candidate(name, tokens[i]) !in old(entries);
      entries := entries[temporary := Malformed];
      if fault == AtWrite {
        entries := entries - {temporary};
        return false;
      }
      entries := entries[temporary := Document(document)];
      if fault == AtReplace {
        entries := entries - {temporary};
        return false;
      }
      entries := entries[name := entries[temporary]] - {temporary};
      return fault != AfterReplace;
    }

    /** One call of the public entry point. Only the caller's own claim file can change. */
    method ConsumeCapability(lib: Library, ref: Value, host: Value, binding: Binding, w: Weather)
      returns (reply: Reply)
      requires BoundedBinding(binding) && w.Complete()
      modifies this
      ensures var admitted := Admit(ref, host, binding);
        if admitted.Failure? then
          reply == Settled(RepairEnvelope(lib.sha, ref, admitted.error, host, Null, Null))
          && entries == old(entries) && sent == old(sent)
        else if !w.stateRoot || !w.lock || !w.readable then
          reply == Unavailable && entries == old(entries) && sent == old(sent)
        else
          var name := ClaimName(lib.sha, admitted.value);
          var effect := SpecifiedEffect(lib, admitted.value, old(entries), w);
          && entries == Store(old(entries), name, effect.file)
          && sent == old(sent) + effect.sent
          && reply == effect.reply
    {
      var admitted := Admit(ref, host, binding);
      if admitted.Failure? {
        return Settled(RepairEnvelope(lib.sha, ref, admitted.error, host, Null, Null));
      }
      if !w.stateRoot || !w.lock || !w.readable {
        return Unavailable;
      }
      reply := ResolveClaim(lib, admitted.value, w);
    }

    /** The part of a call that runs under the exclusive lock, once the claim is readable. */
    method ResolveClaim(lib: Library, req: Request, w: Weather) returns (reply: Reply)
      requires w.Complete() && w.readable
      modifies this
      ensures var effect := SpecifiedEffect(lib, req, old(entries), w);
        && entries == Store(old(entries), ClaimName(lib.sha, req), effect.file)
        && sent == old(sent) + effect.sent
        && reply == effect.reply
    {
      var name := ClaimName(lib.sha, req);
      var decision := Decide(lib, req, Lookup(entries, name), w.now);
      match decision {
        case Answer(result) =>
          reply := Settled(result);
        case TypeError =>
          reply := Uncaught;
        case Amend(reason) =>
          var written := AtomicWrite(name, RepairTerminal(lib.sha, req, reason), w.tokens, w.fault);
          reply := if written then Settled(RequestRepair(lib.sha, req, reason)) else Unavailable;
        case Seal(claim) =>
          reply := SealAndDeliver(lib, req, claim, w);
      }
    }

    /** Seal first, deliver second, record the terminal third. */
    method SealAndDeliver(lib: Library, req: Request, claim: Fields, w: Weather) returns (reply: Reply)
      requires w.Complete()
      requires Receipt in claim && claim[Receipt].Obj?
      modifies this
      ensures var name := ClaimName(lib.sha, req);
        var writes := Outcomes(old(entries), name, Some(claim), w);
        var effect := SealedEffect(lib, req, Lookup(old(entries), name), claim, writes.0, w.how, writes.1);
        && entries == Store(old(entries), name, effect.file)
        && sent == old(sent) + effect.sent
        && reply == effect.reply
    {
      var name := ClaimName(lib.sha, req);
      var written := AtomicWrite(name, claim, w.tokens, w.fault);
      if !written {
        return Unavailable;
      }
      sent := sent + [claim[Receipt].fields];
      var result := TerminalResult(lib.sha, req, w.how);
      written := AtomicWrite(name, DeliveredClaim(lib.sha, req, claim, w.how), w.tokens', w.fault');
      reply := ReplyAfter(if written then Written else FailedBefore, result);
    }
  }

  /** How the two writes of a call end; the second runs on the directory that the seal left. */
  function Outcomes(entries: map<string, Content>, name: string, seal: Option<Fields>, w: Weather): (Write, Write) {
    var sealed := if seal.Some? then entries[name := Document(seal.value)] else entries;
    (WriteOutcome(entries, name, w.tokens, w.fault), WriteOutcome(sealed, name, w.tokens', w.fault'))
  }

  /** `Call` on the caller's claim file, with both writes resolved against the directory. */
  function SpecifiedEffect(lib: Library, req: Request, entries: map<string, Content>, w: Weather): Effect {
    var name := ClaimName(lib.sha, req);
    var file := Lookup(entries, name);
    var decision := Decide(lib, req, file, w.now);
    var writes := Outcomes(entries, name, if decision.Seal? then Some(decision.claim) else None, w);
    Call(lib, req, file, w.readable, w.now, writes.0, w.how, writes.1)
  }
}
