// runtime/harness_runtime/ingress.py: `process_bound_ingress`, one event from its
// lifecycle receipt through the intake to a hold or a packet.

module Ingress {
  import opened Wrappers
  import opened Json
  import L = Lifecycle
  import opened Intake

  /** The texts of receipts: what the intake found, and the reply to a hold. */
  datatype Wording = Wording(intake: IntakeResult -> Value, hold: string -> Value, blank: string -> bool)

  /** The clock readings and mishaps of one call. */
  datatype Moment = Moment(
    pruneNow: int, monotonic: int, stuck: set<string>, torn: bool,
    startNow: int, intakeNow: int, firstNow: int, lastNow: int)

  datatype Reply = Held(reason: string) | Packet(intent: string, intake: IntakeResult)

  datatype Error = AlreadyStarted | WriteFailed | NoIntent

  const HOLD_STAGES: seq<Value> := [Str("received"), Str("intake-hold"), Str("terminal")]
  const READY_STAGES: seq<Value> := [Str("received"), Str("intake-ready")]

  /** The parts of an event that name its receipt. */
  datatype Event = Event(eventId: string, payloadHash: Hex64)

  /** Only twelve digits of the payload hash go into the receipt id. */
  function CpsReceiptId(e: Event): string {
    "cps-" + e.eventId + "-" + e.payloadHash[..12]
  }

  /** Two events share a receipt exactly when they share the event id and those twelve digits. */
  lemma ReceiptIdsAgreeExactly(a: Event, b: Event)
    ensures CpsReceiptId(a) == CpsReceiptId(b) <==>
      a.eventId == b.eventId && a.payloadHash[..12] == b.payloadHash[..12]
  {
    var left, right := CpsReceiptId(a), CpsReceiptId(b);
    if left == right {
      assert |left| == 4 + |a.eventId| + 1 + 12 && |right| == 4 + |b.eventId| + 1 + 12;
      assert a.eventId == left[4..4 + |a.eventId|] && b.eventId == right[4..4 + |b.eventId|];
      assert a.payloadHash[..12] == left[|left| - 12..] && b.payloadHash[..12] == right[|right| - 12..];
    }
  }

  function EventEvidence(e: Event): Value {
    Obj(map[EventId := Str(e.eventId), PayloadHash := Str(e.payloadHash)])
  }

  /** What the prune that precedes a start leaves. */
  function Kept(lib: L.Library, files: L.Directory, lastPrune: int, m: Moment): L.Directory {
    if m.monotonic - lastPrune >= L.PRUNE_INTERVAL then L.Applied(lib, files, L.Prune(m.pruneNow, m.stuck)) else files
  }

  /** Everything but one receipt is as it was. */
  predicate OthersKept(before: L.Directory, after: L.Directory, path: string) {
    before - {path} == after - {path}
  }

  /** The receipt of this id is a readable chain with these stages. */
  predicate HasReached(lib: L.Library, files: L.Directory, id: string, stages: seq<Value>) {
    L.Acceptable(lib, L.FileAt(lib, files, id), id) && L.Stages(L.FileAt(lib, files, id).entries) == stages
  }

  /** Start the receipt; a refused start changes nothing but what was due for pruning. */
  method Begin(lib: L.Library, receipts: L.ExecutionReceipts, event: Event, m: Moment)
    returns (failed: Option<Error>)
    modifies receipts
    ensures var kept := Kept(lib, old(receipts.files), old(receipts.lastPrune), m);
      var id := CpsReceiptId(event);
      && failed == (if lib.path(id) in kept then Some(AlreadyStarted) else if m.torn then Some(WriteFailed) else None)
      && OthersKept(kept, receipts.files, lib.path(id))
      && (failed == Some(AlreadyStarted) ==> receipts.files == kept)
      && (failed == None ==> HasReached(lib, receipts.files, id, [Str("received")]))
  {
    var id, evidence := CpsReceiptId(event), EventEvidence(event);
    L.OpenedIsAcceptable(lib, id, evidence, m.startNow);
    var started := receipts.Start(lib, id, evidence, m.pruneNow, m.monotonic, m.stuck, m.startNow, m.torn);
    if started.Failure? {
      return Some(if started.error == L.AlreadyExists then AlreadyStarted else WriteFailed);
    }
    return None;
  }

  /** One more stage on a readable receipt. */
  method Advance(
    lib: L.Library, receipts: L.ExecutionReceipts, id: string, stages: seq<Value>, stage: string, evidence: Value,
    now: int)
    requires HasReached(lib, receipts.files, id, stages)
    modifies receipts`files
    ensures HasReached(lib, receipts.files, id, stages + [Str(stage)])
    ensures OthersKept(old(receipts.files), receipts.files, lib.path(id))
  {
    L.AppendKeepsTheChain(lib, L.FileAt(lib, receipts.files, id), id, stage, evidence, now);
    var _ := receipts.Transition(lib, id, stage, evidence, now);
  }

  /** The hold path: two stages, then a readback that accepts the finished lifecycle. */
  method RecordHold(
    lib: L.Library, receipts: L.ExecutionReceipts, id: string, found: Value, reply: Value, m: Moment)
    requires HasReached(lib, receipts.files, id, [Str("received")])
    modifies receipts`files
    ensures HasReached(lib, receipts.files, id, HOLD_STAGES) && HOLD_STAGES in L.COMPLETE_LIFECYCLES
    ensures OthersKept(old(receipts.files), receipts.files, lib.path(id))
  {
    Advance(lib, receipts, id, [Str("received")], "intake-hold", found, m.firstNow);
    Advance(lib, receipts, id, [Str("received"), Str("intake-hold")], "terminal", reply, m.lastNow);
    assert HOLD_STAGES == [Str("received"), Str("intake-hold")] + [Str("terminal")];
    var readback := receipts.Read(lib, id, true);
    assert readback.Success?;
  }

  /**
   * A refused start changes nothing but what was due for pruning. A hold ends with a complete, readable
   * lifecycle. A ready intake leaves the receipt unfinished, also when the missing intent then fails the call.
   */
  method ProcessBoundIngress(
    lib: L.Library, words: Wording, receipts: L.ExecutionReceipts, intake: IngressIntake, event: Event,
    ref: ProjectRef, intent: string, seen: Observation, git: GitRead, m: Moment)
    returns (r: Result<Reply, Error>)
    requires intake.Valid() && intake.OnlyBound()
    requires Intake.Lawful(intake.facts) && ref.manifest == ManifestOf(ref.root)
    requires forall read | read in intake.gitReads :: read.1 <= m.intakeNow
    modifies receipts, intake
    ensures intake.Valid() && intake.OnlyBound()
    // a hold is the uncached answer, unless two manifests read here share a digest
    ensures r.Success? ==>
      (r.value.Held? <==> Uncached(intake.facts, ref, seen).Hold?)
      || SharesDigest(intake.facts, old(intake.validated), ref, seen)
    ensures var kept := Kept(lib, old(receipts.files), old(receipts.lastPrune), m);
      var id := CpsReceiptId(event);
      && OthersKept(kept, receipts.files, lib.path(id))
      && (lib.path(id) in kept ==> r == Failure(AlreadyStarted) && receipts.files == kept)
      && (lib.path(id) !in kept && m.torn ==> r == Failure(WriteFailed))
      && (lib.path(id) !in kept && !m.torn ==>
            if r.Success? && r.value.Held? then HasReached(lib, receipts.files, id, HOLD_STAGES)
            else (r == Failure(NoIntent) <==> words.blank(intent)) && HasReached(lib, receipts.files, id, READY_STAGES))
  {
    var id := CpsReceiptId(event);
    var failed := Begin(lib, receipts, event, m);
    if failed.Some? {
      return Failure(failed.value);
    }
    var result := EvaluateBound(intake, ref, seen, m.intakeNow, git);
    if result.answer.Hold? {
      RecordHold(lib, receipts, id, words.intake(result), words.hold(result.answer.reason), m);
      return Success(Held(result.answer.reason));
    }
    Advance(lib, receipts, id, [Str("received")], "intake-ready", words.intake(result), m.firstNow);
    if words.blank(intent) {
      return Failure(NoIntent);
    }
    return Success(Packet(intent, result));
  }

  /**
   * A receipt that stopped short of its terminal stage, as the missing intent leaves it, is never pruned:
   * until somebody appends to it, it stays as it is and every further start of its id is refused.
   */
  lemma {:induction false} UnfinishedBlocksEveryStart(
    lib: L.Library, files: L.Directory, ops: seq<L.Op>, id: string, i: nat, j: nat)
    requires i <= j <= |ops|
    requires lib.path(id) in L.Before(lib, files, ops, i)
    requires !L.EndsTerminal(L.Before(lib, files, ops, i)[lib.path(id)])
    requires forall k | i <= k < j && ops[k].Append? :: lib.path(ops[k].id) != lib.path(id)
    ensures var now := L.Before(lib, files, ops, j);
      && lib.path(id) in now && now[lib.path(id)] == L.Before(lib, files, ops, i)[lib.path(id)]
    ensures forall k | i <= k < j :: !L.Starts(lib, L.Before(lib, files, ops, k), ops[k], id)
    decreases j
  {
    if i < j {
      UnfinishedBlocksEveryStart(lib, files, ops, id, i, j - 1);
      L.UnfinishedSurvivesOneStep(lib, L.Before(lib, files, ops, j - 1), ops[j - 1], lib.path(id));
    }
  }

  lemma ReadyIsUnfinished(lib: L.Library, files: L.Directory, id: string)
    requires HasReached(lib, files, id, READY_STAGES)
    ensures lib.path(id) in files && !L.EndsTerminal(files[lib.path(id)])
  {
    var file := L.FileAt(lib, files, id);
    assert L.Stages(file.entries)[1] == READY_STAGES[1] == Str("intake-ready");
    assert |file.entries| == |L.Stages(file.entries)| == 2;
  }
}
