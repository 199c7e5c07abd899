// runtime/harness_runtime/capability_transport.py: any number of processes
// calling `consume_capability` on one claim key, one I/O step at a time.
//
// A run is any sequence of events. An event whose process is not at the matching
// step changes nothing, so a sequence of events is the same thing as an
// interleaving. A process may crash at any step, which frees its lock; whether a
// crash comes before or after the delivery or a rename is a matter of where the
// crash stands in the sequence.

module ClaimProtocol {
  import opened Wrappers
  import opened Json
  import opened ClaimRecords
  import opened ClaimStore

  /** Where a process stands. Every step but the first is taken while holding the lock. */
  datatype Step =
    | Idle
    | Reading(req: Request)
    | Amending(document: Fields, result: Fields)
    | Sealing(req: Request, claim: Fields)
    | Delivering(req: Request, claim: Fields)
    | Settling(document: Fields, result: Fields)
    | Leaving(reply: Reply)

  datatype State = State(
    file: Option<Content>,
    lock: Option<nat>,
    steps: map<nat, Step>,
    deliveries: nat,
    replies: seq<Fields>)  // results of the calls that returned a persisted answer
  {
    function At(p: nat): Step {
      if p in steps then steps[p] else Idle
    }

    function Move(p: nat, step: Step): State {
      this.(steps := steps[p := step])
    }
  }

  datatype Event =
    | Enter(p: nat, req: Request)
    | Read(p: nat, readable: bool, now: int)
    | Store(p: nat, write: Write)
    | Deliver(p: nat, how: Delivery)
    | Leave(p: nat)
    | Crash(p: nat)
    | Tamper(file: Option<Content>)  // an outsider rewrites the claim file

  function Next(lib: Library, s: State, e: Event): State {
    match e
    case Enter(p, req) =>
      if s.At(p).Idle? && s.lock == None then s.Move(p, Reading(req)).(lock := Some(p)) else s
    case Read(p, readable, now) =>
      if s.At(p).Reading? then s.Move(p, AfterRead(lib, s.At(p).req, s.file, readable, now)) else s
    case Store(p, write) =>
      (match s.At(p)
       case Amending(document, result) =>
         s.Move(p, Leaving(ReplyAfter(write, result))).(file := After(s.file, document, write))
       case Sealing(req, claim) =>
         s.Move(p, if write == Written then Delivering(req, claim) else Leaving(Unavailable))
          .(file := After(s.file, claim, write))
       case Settling(document, result) =>
         s.Move(p, Leaving(ReplyAfter(write, result))).(file := After(s.file, document, write))
       case _ => s)
    case Deliver(p, how) =>
      if s.At(p).Delivering? then
        var req, claim := s.At(p).req, s.At(p).claim;
        s.Move(p, Settling(DeliveredClaim(lib.sha, req, claim, how), TerminalResult(lib.sha, req, how)))
         .(deliveries := s.deliveries + 1)
      else s
    case Leave(p) =>
      if s.At(p).Leaving? then
        s.Move(p, Idle)
         .(lock := None, replies := s.replies + (if s.At(p).reply.Settled? then [s.At(p).reply.result] else []))
      else s
    case Crash(p) =>
      if s.At(p).Idle? then s else s.Move(p, Idle).(lock := None)
    case Tamper(file) => s.(file := file)
  }

  function AfterRead(lib: Library, req: Request, file: Option<Content>, readable: bool, now: int): Step {
    if !readable then Leaving(Unavailable)
    else match Decide(lib, req, file, now)
      case Answer(result) => Leaving(Settled(result))
      case TypeError => Leaving(Uncaught)
      case Amend(reason) =>
        Amending(RepairTerminal(lib.sha, req, reason), RequestRepair(lib.sha, req, reason))
      case Seal(claim) => Sealing(req, claim)
  }

  function Run(lib: Library, s: State, events: seq<Event>): State
    decreases |events|
  {
    if events == [] then s else Run(lib, Next(lib, s, events[0]), events[1..])
  }

  /** Any claim file, nobody inside. */
  predicate Initial(s: State) {
    s.lock == None && s.steps == map[] && s.deliveries == 0 && s.replies == []
  }

  lemma {:induction false} RunAppend(lib: Library, s: State, before: seq<Event>, after: seq<Event>)
    ensures Run(lib, s, before + after) == Run(lib, Run(lib, s, before), after)
    decreases |before|
  {
    if before == [] {
      assert before + after == after;
    } else {
      RunAppend(lib, Next(lib, s, before[0]), before[1..], after);
      assert (before + after)[1..] == before[1..] + after;
    }
  }

  // ---- at most one delivery ----------------------------------------------

  /** Outsiders may do anything to the file except make it deliverable again. */
  predicate NoReset(events: seq<Event>) {
    forall e | e in events :: e.Tamper? ==> !Fresh(e.file)
  }

  ghost predicate Exclusive(s: State) {
    forall p: nat :: !s.At(p).Idle? ==> s.lock == Some(p)
  }

  /** A step never writes the prepared claim, and stands before its delivery only while none happened. */
  predicate StepIsSafe(s: State, step: Step) {
    match step
    case Amending(document, _) => document != Prepared()
    case Sealing(_, claim) => claim != Prepared() && s.deliveries == 0
    case Delivering(_, _) => s.deliveries == 0 && !Fresh(s.file)
    case Settling(document, _) => document != Prepared()
    case _ => true
  }

  ghost predicate Safe(s: State) {
    && Exclusive(s)
    && s.deliveries <= 1
    && (s.deliveries == 1 ==> !Fresh(s.file))
    && forall p: nat :: StepIsSafe(s, s.At(p))
  }

  lemma SealIsNotPrepared(lib: Library, req: Request, file: Option<Content>, now: int)
    requires Decide(lib, req, file, now).Seal?
    ensures Fresh(file) && Decide(lib, req, file, now).claim != Prepared()
  {
    assert Get(Decide(lib, req, file, now).claim, Status) == Str("sealed");
    assert Get(Prepared(), Status) == Str("prepared");
  }

  lemma ReadIsSafe(lib: Library, s: State, req: Request, readable: bool, now: int)
    requires s.deliveries >= 1 ==> !Fresh(s.file)
    ensures StepIsSafe(s, AfterRead(lib, req, s.file, readable, now))
  {
    if readable {
      match Decide(lib, req, s.file, now)
      case Answer(_) =>
      case TypeError =>
      case Amend(reason) =>
        assert Get(RepairTerminal(lib.sha, req, reason), Status) == Str("terminal");
        assert Get(Prepared(), Status) == Str("prepared");
      case Seal(_) => SealIsNotPrepared(lib, req, s.file, now);
    }
  }

  lemma NextIsSafe(lib: Library, s: State, e: Event)
    requires Safe(s) && NoReset([e])
    ensures Safe(Next(lib, s, e))
  {
    var t := Next(lib, s, e);
    if e.Read? && s.At(e.p).Reading? {
      ReadIsSafe(lib, s, s.At(e.p).req, e.readable, e.now);
    }
    if e.Deliver? && s.At(e.p).Delivering? {
      var step := s.At(e.p);
      assert Get(DeliveredClaim(lib.sha, step.req, step.claim, e.how), Status) == Str("terminal");
      assert Get(Prepared(), Status) == Str("prepared");
    }
    if e.Tamper? {
      assert e in [e];
    }
    forall p: nat ensures StepIsSafe(t, t.At(p)) {
      assert StepIsSafe(s, s.At(p));
      if !e.Tamper? && p != e.p && !s.At(p).Idle? {
        assert s.lock == Some(p);
      }
    }
  }

  lemma {:induction false} RunIsSafe(lib: Library, s: State, events: seq<Event>)
    requires Safe(s) && NoReset(events)
    ensures Safe(Run(lib, s, events))
    decreases |events|
  {
    if events != [] {
      assert events[0] in events;
      NextIsSafe(lib, s, events[0]);
      RunIsSafe(lib, Next(lib, s, events[0]), events[1..]);
    }
  }

  /** In every interleaving the consumer is invoked at most once for the key. */
  lemma AtMostOneDelivery(lib: Library, s: State, events: seq<Event>)
    requires Initial(s) && NoReset(events)
    ensures Run(lib, s, events).deliveries <= 1
    ensures forall p: nat, q: nat :: !Run(lib, s, events).At(p).Idle? && !Run(lib, s, events).At(q).Idle? ==> p == q
  {
    RunIsSafe(lib, s, events);
  }

  /** The hypothesis is needed: one outside reset between two calls gives a second delivery. */
  lemma ResetAllowsSecondDelivery(lib: Library, req: Request, how: Delivery)
    ensures exists events: seq<Event> ::
      Run(lib, State(None, None, map[], 0, []), events).deliveries == 2
  {
    var s := State(None, None, map[], 0, []);
    var call := Alone(0, req, true, 0, Written, how, Written) + [Tamper(None)];
    DeliverThenReset(lib, s, req, how);
    DeliverThenReset(lib, Run(lib, s, call), req, how);
    RunAppend(lib, s, call, call);
    assert Run(lib, s, call + call).deliveries == 2;
  }

  lemma DeliverThenReset(lib: Library, s: State, req: Request, how: Delivery)
    requires s.file == None && s.lock == None && s.At(0).Idle?
    ensures var t := Run(lib, s, Alone(0, req, true, 0, Written, how, Written) + [Tamper(None)]);
      t.file == None && t.lock == None && t.At(0).Idle? && t.deliveries == s.deliveries + 1
  {
    var call := Alone(0, req, true, 0, Written, how, Written);
    AloneIsTheCall(lib, s, 0, req, true, 0, Written, how, Written);
    UnclaimedCallDelivers(lib, req, how);
    ThenReset(lib, s, call);
  }

  lemma ThenReset(lib: Library, s: State, call: seq<Event>)
    ensures Run(lib, s, call + [Tamper(None)]) == Run(lib, s, call).(file := None)
  {
    RunAppend(lib, s, call, [Tamper(None)]);
    RunOne(lib, Run(lib, s, call), Tamper(None));
  }

  lemma UnclaimedCallDelivers(lib: Library, req: Request, how: Delivery)
    ensures |Call(lib, req, None, true, 0, Written, how, Written).sent| == 1
  {
  }

  lemma RunOne(lib: Library, s: State, e: Event)
    ensures Run(lib, s, [e]) == Next(lib, s, e)
  {
    assert [e][1..] == [];
  }

  // ---- every call on one key gives the same answer -----------------------

  /** The same accepted binding throughout, and nobody else writes the file. */
  predicate Undisturbed(events: seq<Event>, req: Request) {
    forall e | e in events :: !e.Tamper? && (e.Enter? ==> e.req == req)
  }

  predicate StepAgrees(lib: Library, req: Request, file: Option<Content>, step: Step) {
    match step
    case Idle => true
    case Reading(r) => r == req
    case Amending(document, result) =>
      TerminalOnDisk(lib.sha, req, file) == None
      && TerminalOnDisk(lib.sha, req, Some(Document(document))) == Some(result)
    case Sealing(r, claim) =>
      r == req && IsSealOf(lib.sha, req, claim) && TerminalOnDisk(lib.sha, req, file) == None
    case Delivering(r, claim) =>
      r == req && IsSealOf(lib.sha, req, claim) && file == Some(Document(claim))
    case Settling(document, result) =>
      TerminalOnDisk(lib.sha, req, file) == None
      && TerminalOnDisk(lib.sha, req, Some(Document(document))) == Some(result)
    case Leaving(reply) =>
      reply.Settled? ==> TerminalOnDisk(lib.sha, req, file) == Some(reply.result)
  }

  /** A sealed claim that the code's own seal check accepts for this request. */
  predicate IsSealOf(sha: Sha256, req: Request, claim: Fields) {
    Get(claim, Status) == Str("sealed") && ExpectedSeal(sha, req, claim).Some?
  }

  ghost predicate Agreeing(lib: Library, req: Request, s: State) {
    && Exclusive(s)
    && (forall r | r in s.replies :: TerminalOnDisk(lib.sha, req, s.file) == Some(r))
    && forall p: nat :: StepAgrees(lib, req, s.file, s.At(p))
  }

  lemma SealIsASeal(lib: Library, req: Request, file: Option<Content>, now: int)
    requires Decide(lib, req, file, now).Seal?
    ensures IsSealOf(lib.sha, req, Decide(lib, req, file, now).claim)
    ensures TerminalOnDisk(lib.sha, req, file) == None
  {
    OwnSealIsAccepted(lib.sha, req, lib.stamp(now + CLAIM_TTL));
  }

  lemma ReadAgrees(lib: Library, req: Request, file: Option<Content>, readable: bool, now: int)
    requires req.Bounded()
    ensures StepAgrees(lib, req, file, AfterRead(lib, req, file, readable, now))
  {
    if readable {
      match Decide(lib, req, file, now)
      case Answer(_) => AnswerIsTerminal(lib, req, file, now);
      case TypeError =>
      case Amend(reason) =>
        AmendmentIsKnown(lib, req, file, now);
        RepairIsOnDisk(lib.sha, req, reason);
        if TerminalOnDisk(lib.sha, req, file).Some? {
          TerminalIsAnswered(lib, req, file, now);
        }
      case Seal(_) => SealIsASeal(lib, req, file, now);
    }
  }

  lemma NextAgrees(lib: Library, req: Request, s: State, e: Event)
    requires req.Bounded() && Agreeing(lib, req, s)
    requires !e.Tamper? && (e.Enter? ==> e.req == req)
    ensures Agreeing(lib, req, Next(lib, s, e))
    ensures TerminalOnDisk(lib.sha, req, s.file).Some? ==> Next(lib, s, e).file == s.file
  {
    var t := Next(lib, s, e);
    var step := s.At(e.p);
    assert StepAgrees(lib, req, s.file, step);
    if e.Read? && step.Reading? {
      ReadAgrees(lib, req, s.file, e.readable, e.now);
    }
    if e.Deliver? && step.Delivering? {
      DeliveryIsOnDisk(lib.sha, req, step.claim, e.how);
    }
    forall p: nat ensures StepAgrees(lib, req, t.file, t.At(p)) {
      assert StepAgrees(lib, req, s.file, s.At(p));
      if p != e.p && !s.At(p).Idle? {
        assert s.lock == Some(p);
      }
    }
  }

  lemma {:induction false} RunAgrees(lib: Library, req: Request, s: State, events: seq<Event>)
    requires req.Bounded() && Agreeing(lib, req, s) && Undisturbed(events, req)
    ensures Agreeing(lib, req, Run(lib, s, events))
    ensures TerminalOnDisk(lib.sha, req, s.file).Some? ==> Run(lib, s, events).file == s.file
    decreases |events|
  {
    if events != [] {
      assert events[0] in events;
      NextAgrees(lib, req, s, events[0]);
      RunAgrees(lib, req, Next(lib, s, events[0]), events[1..]);
    }
  }

  /** From any claim file, all persisted answers of a run are one answer, and it is the one on disk. */
  lemma AllRepliesAgree(lib: Library, req: Request, s: State, events: seq<Event>)
    requires req.Bounded() && Initial(s) && Undisturbed(events, req)
    ensures var t := Run(lib, s, events);
      && (forall r | r in t.replies :: TerminalOnDisk(lib.sha, req, t.file) == Some(r))
      && (forall i, j | 0 <= i < |t.replies| && 0 <= j < |t.replies| :: t.replies[i] == t.replies[j])
  {
    RunAgrees(lib, req, s, events);
    var t := Run(lib, s, events);
    forall i, j | 0 <= i < |t.replies| && 0 <= j < |t.replies| ensures t.replies[i] == t.replies[j] {
      assert t.replies[i] in t.replies && t.replies[j] in t.replies;
    }
  }

  /** Once an accepted terminal is on disk, no later event of the run changes the file. */
  lemma TerminalIsPermanent(lib: Library, req: Request, s: State, before: seq<Event>, after: seq<Event>)
    requires req.Bounded() && Initial(s) && Undisturbed(before + after, req)
    requires TerminalOnDisk(lib.sha, req, Run(lib, s, before).file).Some?
    ensures Run(lib, s, before + after).file == Run(lib, s, before).file
  {
    forall e | e in before || e in after ensures e in before + after {}
    RunAppend(lib, s, before, after);
    RunAgrees(lib, req, s, before);
    RunAgrees(lib, req, Run(lib, s, before), after);
  }

  // ---- every delivery is sealed first ----------------------------------------

  /** Nobody else writes the file; callers, requests and bindings are any. */
  predicate Untampered(events: seq<Event>) {
    forall e | e in events :: !e.Tamper?
  }

  /** A process that is about to deliver has its own seal on disk. */
  predicate StepIsSealed(sha: Sha256, file: Option<Content>, step: Step) {
    match step
    case Sealing(req, claim) => IsSealOf(sha, req, claim)
    case Delivering(req, claim) => IsSealOf(sha, req, claim) && file == Some(Document(claim))
    case _ => true
  }

  ghost predicate Sealed(lib: Library, s: State) {
    Exclusive(s) && forall p: nat :: StepIsSealed(lib.sha, s.file, s.At(p))
  }

  lemma ReadIsSealed(lib: Library, req: Request, file: Option<Content>, readable: bool, now: int)
    ensures StepIsSealed(lib.sha, file, AfterRead(lib, req, file, readable, now))
  {
    if readable && Decide(lib, req, file, now).Seal? {
      SealIsASeal(lib, req, file, now);
    }
  }

  lemma NextIsSealed(lib: Library, s: State, e: Event)
    requires Sealed(lib, s) && !e.Tamper?
    ensures Sealed(lib, Next(lib, s, e))
  {
    var t := Next(lib, s, e);
    if e.Read? && s.At(e.p).Reading? {
      ReadIsSealed(lib, s.At(e.p).req, s.file, e.readable, e.now);
    }
    forall p: nat ensures StepIsSealed(lib.sha, t.file, t.At(p)) {
      assert StepIsSealed(lib.sha, s.file, s.At(p));
      if p != e.p && !s.At(p).Idle? {
        assert s.lock == Some(p);
      }
    }
  }

  lemma {:induction false} RunIsSealed(lib: Library, s: State, events: seq<Event>)
    requires Sealed(lib, s) && Untampered(events)
    ensures Sealed(lib, Run(lib, s, events))
    decreases |events|
  {
    if events != [] {
      assert events[0] in events;
      NextIsSealed(lib, s, events[0]);
      RunIsSealed(lib, Next(lib, s, events[0]), events[1..]);
    }
  }

  /**
   * Whenever the consumer is invoked, for any callers with any requests and from any claim file, the disk
   * holds the invoking process's own claim, and the seal check accepts it for that process's request.
   */
  lemma EveryDeliveryIsSealed(lib: Library, s: State, before: seq<Event>, e: Event)
    requires Initial(s) && Untampered(before)
    requires Next(lib, Run(lib, s, before), e).deliveries > Run(lib, s, before).deliveries
    ensures var t := Run(lib, s, before);
      && e.Deliver? && t.At(e.p).Delivering? && t.lock == Some(e.p)
      && t.file == Some(Document(t.At(e.p).claim))
      && IsSealOf(lib.sha, t.At(e.p).req, t.At(e.p).claim)
  {
    RunIsSealed(lib, s, before);
    var t := Run(lib, s, before);
    assert StepIsSealed(lib.sha, t.file, t.At(e.p));
  }

  /** When all callers bring one request, the seal on disk is a seal of that request. */
  lemma DeliveryIsSealed(lib: Library, req: Request, s: State, before: seq<Event>, e: Event)
    requires req.Bounded() && Initial(s) && Undisturbed(before, req)
    requires Next(lib, Run(lib, s, before), e).deliveries > Run(lib, s, before).deliveries
    ensures var file := Run(lib, s, before).file;
      file.Some? && file.value.Document? && IsSealOf(lib.sha, req, file.value.fields)
  {
    EveryDeliveryIsSealed(lib, s, before, e);
    RunAgrees(lib, req, s, before);
    var t := Run(lib, s, before);
    assert StepAgrees(lib, req, t.file, t.At(e.p));
  }

  // ---- one process alone is the sequential call --------------------------

  /** The events of one call that is neither interrupted nor interleaved. */
  function Alone(
    p: nat, req: Request, readable: bool, now: int, first: Write, how: Delivery, second: Write): seq<Event>
  {
    [Enter(p, req), Read(p, readable, now)] + Rest(p, first, how, second)
  }

  function Rest(p: nat, first: Write, how: Delivery, second: Write): seq<Event> {
    [Store(p, first), Deliver(p, how), Store(p, second), Leave(p)]
  }

  lemma RunFour(lib: Library, s: State, events: seq<Event>)
    requires |events| == 4
    ensures Run(lib, s, events) ==
      Next(lib, Next(lib, Next(lib, Next(lib, s, events[0]), events[1]), events[2]), events[3])
  {
    var s1 := Next(lib, s, events[0]);
    var s2 := Next(lib, s1, events[1]);
    var s3 := Next(lib, s2, events[2]);
    var s4 := Next(lib, s3, events[3]);
    assert Run(lib, s4, events[4..]) == s4;
    assert Run(lib, s3, events[3..]) == s4 by { assert events[3..][1..] == events[4..]; }
    assert Run(lib, s2, events[2..]) == s4 by { assert events[2..][1..] == events[3..]; }
    assert Run(lib, s1, events[1..]) == s4 by { assert events[1..][1..] == events[2..]; }
  }

  /** What the calls before and after an effect have in common. */
  ghost predicate Effected(s: State, t: State, p: nat, effect: Effect) {
    && t.file == effect.file
    && t.deliveries == s.deliveries + |effect.sent|
    && t.replies == s.replies + (if effect.reply.Settled? then [effect.reply.result] else [])
    && t.lock == None && t.At(p).Idle?
  }

  lemma RestOfSealing(
    lib: Library, s: State, p: nat, req: Request, claim: Fields, first: Write, how: Delivery, second: Write)
    requires s.At(p) == Sealing(req, claim) && Receipt in claim && claim[Receipt].Obj?
    ensures Effected(s, Run(lib, s, Rest(p, first, how, second)), p,
                     SealedEffect(lib, req, s.file, claim, first, how, second))
  {
    RunFour(lib, s, Rest(p, first, how, second));
  }

  lemma RestOfAmending(
    lib: Library, s: State, p: nat, document: Fields, result: Fields, first: Write, how: Delivery, second: Write)
    requires s.At(p) == Amending(document, result)
    ensures Effected(s, Run(lib, s, Rest(p, first, how, second)), p,
                     Effect(After(s.file, document, first), [], ReplyAfter(first, result)))
  {
    RunFour(lib, s, Rest(p, first, how, second));
  }

  lemma RestOfLeaving(lib: Library, s: State, p: nat, reply: Reply, first: Write, how: Delivery, second: Write)
    requires s.At(p) == Leaving(reply)
    ensures Effected(s, Run(lib, s, Rest(p, first, how, second)), p, Effect(s.file, [], reply))
  {
    RunFour(lib, s, Rest(p, first, how, second));
  }

  /** A call that nobody interrupts does in the protocol exactly what `Call` says. */
  lemma AloneIsTheCall(
    lib: Library, s: State, p: nat, req: Request, readable: bool, now: int,
    first: Write, how: Delivery, second: Write)
    requires s.lock == None && s.At(p).Idle?
    ensures Effected(s, Run(lib, s, Alone(p, req, readable, now, first, how, second)), p,
                     Call(lib, req, s.file, readable, now, first, how, second))
  {
    var head, rest := [Enter(p, req), Read(p, readable, now)], Rest(p, first, how, second);
    var s1 := Next(lib, s, head[0]);
    var s2 := Next(lib, s1, head[1]);
    assert Run(lib, s, head) == s2 by {
      assert Run(lib, s1, head[1..]) == Run(lib, s2, []) by { assert head[1..][1..] == []; }
    }
    RunAppend(lib, s, head, rest);
    if !readable {
      RestOfLeaving(lib, s2, p, Unavailable, first, how, second);
    } else {
      match Decide(lib, req, s.file, now)
      case Answer(result) => RestOfLeaving(lib, s2, p, Settled(result), first, how, second);
      case TypeError => RestOfLeaving(lib, s2, p, Uncaught, first, how, second);
      case Amend(reason) =>
        RestOfAmending(lib, s2, p, RepairTerminal(lib.sha, req, reason), RequestRepair(lib.sha, req, reason),
                       first, how, second);
      case Seal(claim) => RestOfSealing(lib, s2, p, req, claim, first, how, second);
    }
  }
}
