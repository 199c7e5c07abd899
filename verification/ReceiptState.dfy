// runtime/harness_runtime/runtime.py: the state directory and the operations that
// write, read and clean its cases. The command, the clock and the Git queries are
// parameters.

module ReceiptState {
  import opened Wrappers
  import opened Json
  import opened WriteScopes
  import opened RuntimeRecords
  import Pipeline
  import opened Receipts
  import opened ReceiptProperties

  const EMPTY := CaseDir(Journal([], false), None, None)

  /** The caller's experience binding, and the one its admission, packet, phase and revision project. */
  datatype Experience = Experience(binding: ExperienceBinding, projected: ExperienceBinding)

  /** The three clock readings of a run. */
  datatype Clock = Clock(dispatchedAt: int, endedAt: int, readAt: int)

  /** What a whole run does to its case and returns. */
  datatype Effect = Effect(dir: CaseDir, result: Result<Receipt, Error>)

  function ReceiptOf(result: Result<Reading, Error>): Result<Receipt, Error> {
    if result.Success? then Success(result.value.receipt) else Failure(result.error)
  }

  function EffectOf(lib: Library, dir: CaseDir, job: Job, ending: Ending, clock: Clock): Effect {
    var launched := Launched(lib, dir, job, clock.dispatchedAt);
    match Evaluated(lib, job, ending)
    case Failure(error) => Effect(Ended(launched, ending), Failure(error))
    case Success(evaluated) =>
      var finished := Finished(lib, launched, job, ending, evaluated, clock.endedAt);
      var readout := Readback(lib, finished, Closing(job, clock.readAt));
      Effect(readout.dir, ReceiptOf(readout.result))
  }

  class ReceiptDirectory {
    const codec: Pipeline.Codec
    const stateRoot: string
    var dirs: map<Hex64, CaseDir>

    constructor (codec: Pipeline.Codec, stateRoot: string)
      ensures this.codec == codec && this.stateRoot == stateRoot && dirs == map[]
    {
      this.codec := codec;
      this.stateRoot := stateRoot;
      dirs := map[];
    }

    /** A case directory is named by the digest of its case id. */
    function KeyOf(caseId: string): Hex64 {
      codec.lib.text(caseId)
    }

    function At(key: Hex64): CaseDir
      reads this
    {
      if key in dirs then dirs[key] else EMPTY
    }

    method Write(key: Hex64, slot: Slot, content: Bytes)
      modifies this
      ensures dirs == old(dirs)[key := Put(old(At(key)), slot, content)]
    {
      var dir := At(key);
      var files := dir.Files()[Temporary(slot) := content];
      dirs := dirs[key := dir.(artifacts := Some(files))];
      files := (files - {Temporary(slot)})[Final(slot) := files[Temporary(slot)]];
      dirs := dirs[key := dir.(artifacts := Some(files))];
      assert files == dir.Files()[Final(slot) := content] - {Temporary(slot)};
    }

    method Append(key: Hex64, receipt: Receipt)
      modifies this
      ensures dirs == old(dirs)[key := Recorded(old(At(key)), receipt)]
    {
      var dir := At(key);
      dirs := dirs[key := dir.(journal := Appended(dir.journal, Entry(receipt)))];
      dirs := dirs[key := dirs[key].(current := Some(Entry(receipt)))];
    }

    /** Unlinks both names of each slot, then the directory; False means something else was left in it. */
    method RemoveRawArtifacts(key: Hex64) returns (complete: bool)
      requires key in dirs
      modifies this
      ensures dirs == old(dirs)[key := Cleaned(old(dirs)[key])]
      ensures complete == NoForeign(old(dirs)[key])
    {
      var slots := [Body, Stdout, Stderr];
      var dir := dirs[key];
      var files := dir.Files();
      for i := 0 to |slots|
        invariant dirs == old(dirs)
        invariant files == dir.Files() - (set file | file in RAW && file.slot in slots[..i])
      {
        files := files - {Final(slots[i])};
        files := files - {Temporary(slots[i])};
        assert slots[..i + 1] == slots[..i] + [slots[i]];
      }
      assert files == dir.Files() - RAW by {
        assert slots[..|slots|] == [Body, Stdout, Stderr];
      }
      NothingLeft(dir);
      complete := files == map[];
      dirs := dirs[key := dir.(artifacts := if complete then None else Some(files))];
    }

    /** Reads each slot and compares it with its recorded size and digest. */
    method VerifiedArtifacts(key: Hex64, artifacts: Artifacts) returns (contents: Option<Contents>)
      ensures contents.Some? <==> At(key).HasRaw() && Measure(codec.lib, At(key)) == artifacts
      ensures contents.Some? ==> contents.value == Raw(At(key))
    {
      var slots := [Body, Stdout, Stderr];
      var recorded := map[Body := artifacts.body, Stdout := artifacts.stdout, Stderr := artifacts.stderr];
      var files := At(key).Files();
      var read: map<Slot, Bytes> := map[];
      for i := 0 to |slots|
        invariant forall j | 0 <= j < i ::
          Final(slots[j]) in files && slots[j] in read && read[slots[j]] == files[Final(slots[j])]
          && Measured(codec.lib, read[slots[j]]) == recorded[slots[j]]
      {
        if Final(slots[i]) !in files || Measured(codec.lib, files[Final(slots[i])]) != recorded[slots[i]] {
          return None;
        }
        read := read[slots[i] := files[Final(slots[i])]];
      }
      assert slots[0] == Body && slots[1] == Stdout && slots[2] == Stderr;
      contents := Some(Contents(read[Body], read[Stdout], read[Stderr]));
    }

    /** `_readback`. Only the case it reads can change, and only by losing its raw artifacts. */
    method Verify(q: Query) returns (result: Result<Reading, Error>)
      modifies this
      ensures var key := KeyOf(q.caseId);
        && result == Readback(codec.lib, old(At(key)), q).result
        && dirs == (if key in old(dirs) then old(dirs)[key := Readback(codec.lib, old(dirs)[key], q).dir]
                    else old(dirs))
    {
      var key := KeyOf(q.caseId);
      var dir := At(key);
      if !Matched(codec.lib, dir, q.caseId) {
        assert key in dirs ==> dirs == dirs[key := dirs[key]];
        return Failure(Unmatched);
      }
      var d, t := dir.journal.lines[0].receipt, dir.journal.lines[1].receipt;
      if !Expected(t, q) {
        assert dirs == dirs[key := dirs[key]];
        return Failure(Invalid);
      }
      if HasExpired(d, t, q.readAt) {
        var complete := RemoveRawArtifacts(key);
        if !complete {
          return Failure(Incomplete);
        }
        return if q.requireArtifacts then Failure(Expired) else Success(Reading(t, Some(false), None));
      }
      assert dirs == dirs[key := dirs[key]];
      var contents := VerifiedArtifacts(key, t.artifacts);
      if contents == None {
        return Failure(Invalid);
      }
      if t.evaluatorResult.Some? && codec.lib.decodeResult(contents.value.stdout) != t.evaluatorResult {
        return Failure(Invalid);
      }
      return Success(Reading(t, if Expiry(d, t).Some? then Some(true) else None, contents));
    }

    method Launch(job: Job, at: int)
      modifies this
      ensures var key := KeyOf(job.caseId);
        dirs == old(dirs)[key := Launched(codec.lib, old(At(key)), job, at)]
    {
      var key := KeyOf(job.caseId);
      Write(key, Body, job.body);
      Write(key, Stdout, []);
      Write(key, Stderr, []);
      Append(key, DispatchOf(job, Measure(codec.lib, At(key)), at));
    }

    method StoreOutput(key: Hex64, ending: Ending)
      requires key in dirs
      modifies this
      ensures dirs == old(dirs)[key := Ended(old(dirs)[key], ending)]
    {
      Write(key, Stdout, ending.stdout);
      Write(key, Stderr, ending.stderr);
    }

    /** The terminal receipt, then the closing readback. */
    method Conclude(job: Job, exitCode: int, evaluated: Option<EvaluatorResult>, clock: Clock)
      returns (result: Result<Receipt, Error>)
      requires KeyOf(job.caseId) in dirs && dirs[KeyOf(job.caseId)].HasRaw()
      modifies this
      ensures var key := KeyOf(job.caseId);
        var terminal := TerminalOf(job, Measure(codec.lib, old(dirs)[key]), exitCode, evaluated, clock.endedAt);
        var readout := Readback(codec.lib, Recorded(old(dirs)[key], terminal), Closing(job, clock.readAt));
        result == ReceiptOf(readout.result) && dirs == old(dirs)[key := readout.dir]
    {
      var key := KeyOf(job.caseId);
      Append(key, TerminalOf(job, Measure(codec.lib, At(key)), exitCode, evaluated, clock.endedAt));
      var reading := Verify(Closing(job, clock.readAt));
      return ReceiptOf(reading);
    }

    /** What `execute` and `execute_paired_cell` share, from the first write on. */
    method RunJob(job: Job, ending: Ending, clock: Clock) returns (result: Result<Receipt, Error>)
      modifies this
      ensures var key := KeyOf(job.caseId);
        var effect := EffectOf(codec.lib, old(At(key)), job, ending, clock);
        result == effect.result && dirs == old(dirs)[key := effect.dir]
    {
      var key := KeyOf(job.caseId);
      ghost var launched := Launched(codec.lib, old(At(key)), job, clock.dispatchedAt);
      LaunchedFiles(codec.lib, old(At(key)), job, clock.dispatchedAt);
      EndedFiles(launched, ending);
      Launch(job, clock.dispatchedAt);
      StoreOutput(key, ending);
      assert dirs == old(dirs)[key := Ended(launched, ending)];
      var evaluated := Evaluated(codec.lib, job, ending);
      if evaluated.Failure? {
        return Failure(evaluated.error);
      }
      result := Conclude(job, ending.exitCode, evaluated.value, clock);
    }

    predicate Runnable(caseId: string, consumer: string, argv: seq<string>, worktree: Option<Worktree>) {
      && IsCaseId(caseId) && consumer != ""
      && argv != [] && (forall item | item in argv :: item != "")
      && worktree.Some? && !Under(stateRoot, worktree.value.path)
    }

    /** `execute`: bad input and a case that already has a receipt change nothing; the rest is one run. */
    method Execute(caseId: string, consumer: string, body: Bytes, argv: seq<string>, worktree: Option<Worktree>,
                   experience: Option<Experience>, ending: Ending, clock: Clock)
      returns (result: Result<Receipt, Error>)
      modifies this
      ensures var key := KeyOf(caseId);
        if !Runnable(caseId, consumer, argv, worktree) || !Trusted(experience) then
          result == Failure(BadInput) && dirs == old(dirs)
        else if old(At(key)).current.Some? then
          result == Failure(CaseExists) && dirs == old(dirs)
        else
          var job := PlainJob(codec.lib, stateRoot, caseId, consumer, body, argv, worktree.value, experience);
          var effect := EffectOf(codec.lib, old(At(key)), job, ending, clock);
          result == effect.result && dirs == old(dirs)[key := effect.dir]
    {
      if !Runnable(caseId, consumer, argv, worktree) || !Trusted(experience) {
        return Failure(BadInput);
      }
      if At(KeyOf(caseId)).current.Some? {
        return Failure(CaseExists);
      }
      result := RunJob(PlainJob(codec.lib, stateRoot, caseId, consumer, body, argv, worktree.value, experience),
                       ending, clock);
    }

    /** `execute_paired_cell`: the same run on the observation that the constructor builds. */
    method ExecutePairedCell(consumer: string, argv: seq<string>, worktree: Option<Worktree>,
                             inputs: Pipeline.Inputs, ending: Ending, clock: Clock)
      returns (result: Result<Receipt, Error>)
      modifies this
      ensures var key := KeyOf(inputs.evaluatorCaseId);
        if consumer == "" || argv != codec.lib.evaluatorArgv || worktree == None
           || Under(stateRoot, worktree.value.path) || Pipeline.Construct(codec, inputs).Failure? then
          result == Failure(BadInput) && dirs == old(dirs)
        else if old(At(key)).current.Some? then
          result == Failure(CaseExists) && dirs == old(dirs)
        else
          var effect := EffectOf(codec.lib, old(At(key)),
                                 CellJob(codec, stateRoot, consumer, worktree.value, inputs), ending, clock);
          result == effect.result && dirs == old(dirs)[key := effect.dir]
    {
      if consumer == "" || argv != codec.lib.evaluatorArgv {
        return Failure(BadInput);
      }
      var observation := Pipeline.Construct(codec, inputs);
      if observation.Failure? || worktree == None || Under(stateRoot, worktree.value.path) {
        return Failure(BadInput);
      }
      if At(KeyOf(inputs.evaluatorCaseId)).current.Some? {
        return Failure(CaseExists);
      }
      result := RunJob(CellJob(codec, stateRoot, consumer, worktree.value, inputs), ending, clock);
    }
  }

  predicate Trusted(experience: Option<Experience>) {
    experience.Some? ==>
      ExperienceBindingValid(experience.value.binding) && experience.value.binding == experience.value.projected
  }

  function PlainJob(lib: Library, stateRoot: string, caseId: string, consumer: string, body: Bytes, argv: seq<string>,
                    worktree: Worktree, experience: Option<Experience>): Job
  {
    Job(caseId, consumer, body, ExecutionOf(lib, argv, worktree, stateRoot),
        if experience.Some? then Experienced(experience.value.binding) else Plain)
  }

  /** The binding carries the observation's own source revision, which the candidate arm may override. */
  function CellBinding(codec: Pipeline.Codec, inputs: Pipeline.Inputs): PairBinding
    requires Pipeline.AdmittedProducer(codec, inputs).Success?
  {
    var observation := Pipeline.Constructed(codec, inputs, Pipeline.AdmittedProducer(codec, inputs).value);
    PairBindingOf(codec.lib, inputs.plan, inputs.planDigest, inputs.cell)
      .(sourceRevisionRef := observation.binding.sourceRevisionRef)
  }

  function CellJob(
    codec: Pipeline.Codec, stateRoot: string, consumer: string, worktree: Worktree, inputs: Pipeline.Inputs): Job
    requires Pipeline.Construct(codec, inputs).Success?
  {
    Job(inputs.evaluatorCaseId, consumer, Pipeline.Construct(codec, inputs).value,
        ExecutionOf(codec.lib, codec.lib.evaluatorArgv, worktree, stateRoot), PairedCell(CellBinding(codec, inputs)))
  }

  // ---- the round trip of the two operations ------------------------------------------

  predicate Commits(worktree: Worktree) {
    IsObjectName(worktree.commit) && IsObjectName(worktree.tree)
  }

  /** `execute` on an unused case: any ending, and the closing readback accepts and returns the terminal receipt. */
  lemma ExecuteRoundTrip(
    lib: Library, stateRoot: string, dir: CaseDir, caseId: string, consumer: string, body: Bytes, argv: seq<string>,
    worktree: Worktree, experience: Option<Experience>, ending: Ending, clock: Clock)
    requires Trusted(experience) && argv != [] && forall item | item in argv :: item != ""
    ensures var job := PlainJob(lib, stateRoot, caseId, consumer, body, argv, worktree, experience);
      var effect := EffectOf(lib, dir, job, ending, clock);
      && (effect.result.Success? <==>
            dir.journal.lines == [] && Commits(worktree) && !ExpiredAt(job, clock.dispatchedAt, clock.readAt))
      && (effect.result.Success? ==>
            effect.result.value == TerminalReceipt(lib, job, ending, None, clock.endedAt))
  {
    var job := PlainJob(lib, stateRoot, caseId, consumer, body, argv, worktree, experience);
    RunPassesItsReadback(lib, dir, job, worktree, stateRoot, clock.dispatchedAt, ending, clock.endedAt, clock.readAt);
  }

  /**
   * Which plain runs the constructor takes as its source: exactly the successful ones of the fixed
   * producer command on a committed worktree, ended after they began, whose output it is given.
   */
  lemma SourceRunsAreAcceptedExactly(
    codec: Pipeline.Codec, stateRoot: string, consumer: string, body: Bytes, argv: seq<string>, worktree: Worktree,
    ending: Ending, clock: Clock, inputs: Pipeline.Inputs)
    requires argv != [] && forall item | item in argv :: item != ""
    ensures
      var job := PlainJob(codec.lib, stateRoot, inputs.sourceCaseId, consumer, body, argv, worktree, None);
      Pipeline.ReceiptsValid(codec.lib, inputs, DispatchReceipt(codec.lib, job, clock.dispatchedAt),
                             TerminalReceipt(codec.lib, job, ending, None, clock.endedAt))
      <==> argv == Pipeline.SOURCE_ARGV && ending.exitCode == 0 && BoundedText(consumer)
           && Commits(worktree) && clock.dispatchedAt < clock.endedAt
           && Measured(codec.lib, ending.stdout) == Measured(codec.lib, inputs.output)
  {
  }

  /** The binding a paired cell records passes its own validator, the overridden candidate revision included. */
  lemma CellBindingIsValid(codec: Pipeline.Codec, inputs: Pipeline.Inputs)
    requires Pipeline.AdmittedProducer(codec, inputs).Success?
    ensures PairBindingValid(codec.lib, CellBinding(codec, inputs))
    ensures CellBinding(codec, inputs).plan == inputs.plan
    ensures inputs.cell.arm == Candidate ==>
      CellBinding(codec, inputs).sourceRevisionRef == Pipeline.AdmittedProducer(codec, inputs).value.candidate.ref
    ensures inputs.cell.arm == Baseline ==> CellBinding(codec, inputs).sourceRevisionRef == inputs.plan.baselineRef
  {
    Pipeline.BindingIsBounded(codec, inputs, Pipeline.AdmittedProducer(codec, inputs).value);
  }

  predicate EvaluatorCommand(lib: Library) {
    lib.evaluatorArgv != [] && forall item | item in lib.evaluatorArgv :: item != ""
  }

  /** `execute_paired_cell`: every run that appends its terminal receipt. */
  lemma PairedRoundTrip(
    codec: Pipeline.Codec, stateRoot: string, dir: CaseDir, consumer: string, worktree: Worktree,
    inputs: Pipeline.Inputs, ending: Ending, clock: Clock)
    requires Pipeline.Construct(codec, inputs).Success? && EvaluatorCommand(codec.lib)
    requires Evaluated(codec.lib, CellJob(codec, stateRoot, consumer, worktree, inputs), ending).Success?
    ensures var job := CellJob(codec, stateRoot, consumer, worktree, inputs);
      var effect := EffectOf(codec.lib, dir, job, ending, clock);
      var evaluated := Evaluated(codec.lib, job, ending).value;
      && (effect.result.Success? <==>
            dir.journal.lines == [] && Commits(worktree) && !ExpiredAt(job, clock.dispatchedAt, clock.readAt))
      && (effect.result.Success? ==>
            effect.result.value == TerminalReceipt(codec.lib, job, ending, evaluated, clock.endedAt))
  {
    var job := CellJob(codec, stateRoot, consumer, worktree, inputs);
    CellBindingIsValid(codec, inputs);
    RunPassesItsReadback(codec.lib, dir, job, worktree, stateRoot, clock.dispatchedAt, ending, clock.endedAt,
                         clock.readAt);
  }

  /** How the fixed evaluator ends on the observation of a cell. */
  function EvaluatorEnding(codec: Pipeline.Codec, inputs: Pipeline.Inputs, stderr: Bytes): Ending
    requires Pipeline.Construct(codec, inputs).Success?
  {
    var completed := Pipeline.EvaluatorMain(codec, Pipeline.Construct(codec, inputs).value);
    Ending(completed.exitCode, completed.stdout, stderr)
  }

  /** What the fixed evaluator makes of a cell: always a terminal receipt, passing exactly when the plan names it. */
  lemma EvaluatorAlwaysEnds(codec: Pipeline.Codec, job: Job, inputs: Pipeline.Inputs, stderr: Bytes)
    requires Pipeline.Construct(codec, inputs).Success? && Pipeline.CellReadsBack(codec, inputs)
    requires job.family.PairedCell? && job.family.pair.plan == inputs.plan
    requires |EvaluatorEnding(codec, inputs, stderr).stdout| <= MAX_RESULT
    ensures var evaluated := Evaluated(codec.lib, job, EvaluatorEnding(codec, inputs, stderr));
      && evaluated.Success?
      && (EvaluatorEnding(codec, inputs, stderr).exitCode == 0 <==> Pipeline.PlanNamesThisEvaluator(inputs.plan))
      && (Pipeline.PlanNamesThisEvaluator(inputs.plan) ==>
            evaluated.value.Some? && evaluated.value.value.observed == Pipeline.ProducerFacts(codec, inputs))
  {
    Pipeline.PipelineComposes(codec, inputs);
    var completed := Pipeline.EvaluatorMain(codec, Pipeline.Construct(codec, inputs).value);
    ComposedIsEvaluated(codec, job, completed, Pipeline.ProducerFacts(codec, inputs), stderr);
  }

  lemma ComposedIsEvaluated(
    codec: Pipeline.Codec, job: Job, completed: Pipeline.Completed, facts: Facts, stderr: Bytes)
    requires job.family.PairedCell? && Pipeline.Composed(codec, job.family.pair.plan, facts, completed)
    requires |completed.stdout| <= MAX_RESULT
    ensures var evaluated := Evaluated(codec.lib, job, Ending(completed.exitCode, completed.stdout, stderr));
      && evaluated.Success?
      && (completed.exitCode == 0 <==> Pipeline.PlanNamesThisEvaluator(job.family.pair.plan))
      && (completed.exitCode == 0 ==> evaluated.value.Some? && evaluated.value.value.observed == facts)
  {
  }

  /**
   * End to end: on an unused case the paired cell returns a receipt, it passes exactly when the plan names
   * the fixed evaluator, and a passing receipt carries the source producer's facts unchanged.
   */
  lemma PairedCellDeliversTheFacts(
    codec: Pipeline.Codec, stateRoot: string, dir: CaseDir, consumer: string, worktree: Worktree,
    inputs: Pipeline.Inputs, stderr: Bytes, clock: Clock)
    requires Pipeline.Construct(codec, inputs).Success? && Pipeline.CellReadsBack(codec, inputs)
    requires EvaluatorCommand(codec.lib)
    requires |EvaluatorEnding(codec, inputs, stderr).stdout| <= MAX_RESULT
    requires dir.journal.lines == [] && Commits(worktree)
    requires clock.readAt < clock.dispatchedAt + inputs.plan.retentionSeconds * MICROSECONDS
    ensures var result := EffectOf(codec.lib, dir, CellJob(codec, stateRoot, consumer, worktree, inputs),
                                   EvaluatorEnding(codec, inputs, stderr), clock).result;
      && result.Success?
      && (result.value.status == Status.Pass <==> Pipeline.PlanNamesThisEvaluator(inputs.plan))
      && (result.value.status == Status.Pass ==>
            && result.value.evaluatorResult.Some?
            && result.value.evaluatorResult.value.observed == Pipeline.ProducerFacts(codec, inputs))
  {
    var job := CellJob(codec, stateRoot, consumer, worktree, inputs);
    CellJobIsValid(codec, stateRoot, consumer, worktree, inputs);
    EvaluatorAlwaysEnds(codec, job, inputs, stderr);
    JobDelivers(codec.lib, dir, job, worktree, stateRoot, EvaluatorEnding(codec, inputs, stderr), clock);
  }

  lemma CellJobIsValid(
    codec: Pipeline.Codec, stateRoot: string, consumer: string, worktree: Worktree, inputs: Pipeline.Inputs)
    requires Pipeline.Construct(codec, inputs).Success?
    ensures var job := CellJob(codec, stateRoot, consumer, worktree, inputs);
      && job.family.Valid(codec.lib)
      && job.family.PairedCell? && job.family.pair.plan == inputs.plan
      && job.execution == ExecutionOf(codec.lib, codec.lib.evaluatorArgv, worktree, stateRoot)
  {
    CellBindingIsValid(codec, inputs);
  }

  lemma JobDelivers(
    lib: Library, dir: CaseDir, job: Job, worktree: Worktree, stateRoot: string, ending: Ending, clock: Clock)
    requires job.family.Valid(lib) && Evaluated(lib, job, ending).Success?
    requires job.execution == ExecutionOf(lib, job.execution.argv, worktree, stateRoot)
    requires job.execution.argv != [] && forall item | item in job.execution.argv :: item != ""
    requires dir.journal.lines == [] && Commits(worktree) && !ExpiredAt(job, clock.dispatchedAt, clock.readAt)
    ensures EffectOf(lib, dir, job, ending, clock).result ==
      Success(TerminalReceipt(lib, job, ending, Evaluated(lib, job, ending).value, clock.endedAt))
  {
    RunPassesItsReadback(lib, dir, job, worktree, stateRoot, clock.dispatchedAt, ending, clock.endedAt, clock.readAt);
  }
}
