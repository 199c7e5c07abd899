// runtime/harness_runtime/runtime.py: the files of one case, the receipts a run
// leaves in them, and the readback that judges them.
//
// Times are integers in microseconds.

module Receipts {
  import opened Wrappers
  import opened Json
  import opened RuntimeRecords

  // ---- a case directory --------------------------------------------------------

  /** One journal line, or the projection file: a receipt, or text that is not one. */
  datatype Line = Entry(receipt: Receipt) | Unreadable

  /** `unterminated` says that the last line lacks its newline. */
  datatype Journal = Journal(lines: seq<Line>, unterminated: bool)

  datatype Slot = Body | Stdout | Stderr

  /** What may lie in the artifacts directory: `<slot>.bin`, `<slot>.bin.tmp`, anything else. */
  datatype File = Final(slot: Slot) | Temporary(slot: Slot) | Foreign(name: string)

  /** `artifacts` is None while there is no artifacts directory. */
  datatype CaseDir = CaseDir(journal: Journal, current: Option<Line>, artifacts: Option<map<File, Bytes>>) {
    function Files(): map<File, Bytes> {
      if artifacts.Some? then artifacts.value else map[]
    }

    predicate HasRaw() {
      Final(Body) in Files() && Final(Stdout) in Files() && Final(Stderr) in Files()
    }
  }

  /** A line written after an unterminated one ends up on that line, which then is no JSON text. */
  function Appended(journal: Journal, line: Line): Journal {
    if journal.unterminated && journal.lines != [] then
      Journal(journal.lines[..|journal.lines| - 1] + [Unreadable], false)
    else
      Journal(journal.lines + [line], false)
  }

  /** `_write`: temporary file, then rename. */
  function Put(dir: CaseDir, slot: Slot, content: Bytes): CaseDir {
    dir.(artifacts := Some(dir.Files()[Final(slot) := content] - {Temporary(slot)}))
  }

  /** `_append`: journal line, then projection. */
  function Recorded(dir: CaseDir, receipt: Receipt): CaseDir {
    dir.(journal := Appended(dir.journal, Entry(receipt)), current := Some(Entry(receipt)))
  }

  // ---- what a run writes -----------------------------------------------------------

  datatype Family =
    | Plain
    | Experienced(experience: ExperienceBinding)
    | PairedCell(pair: PairBinding)
  {
    function Experience(): Option<ExperienceBinding> {
      if Experienced? then Some(experience) else None
    }

    function Pair(): Option<PairBinding> {
      if PairedCell? then Some(pair) else None
    }

    /** Seconds for which raw artifacts are kept; None means for good. */
    function Retention(): Option<int> {
      match this
      case Plain => None
      case Experienced(e) => Some(e.retentionSeconds)
      case PairedCell(b) => Some(b.plan.retentionSeconds)
    }

    predicate Valid(lib: Library) {
      match this
      case Plain => true
      case Experienced(e) => ExperienceBindingValid(e)
      case PairedCell(b) => PairBindingValid(lib, b)
    }
  }

  /** A clean worktree root, as Git names its commit and tree. */
  datatype Worktree = Worktree(path: string, commit: string, tree: string)

  function ExecutionOf(lib: Library, argv: seq<string>, worktree: Worktree, stateRoot: string): Execution {
    var environment := lib.baseEnvironment[STATE_DIR := stateRoot];
    Execution(argv, lib.argv(argv), environment, lib.environment(environment),
              worktree.commit, worktree.tree, worktree.path, lib.text(worktree.path))
  }

  datatype Job = Job(caseId: string, consumer: string, body: Bytes, execution: Execution, family: Family)

  /** How the command ended; a command that could not start has exit code 127 and a one-line stderr. */
  datatype Ending = Ending(exitCode: int, stdout: Bytes, stderr: Bytes)

  function Measured(lib: Library, content: Bytes): Artifact {
    Artifact(lib.bytes(content), |content|)
  }

  function Measure(lib: Library, dir: CaseDir): Artifacts
    requires dir.HasRaw()
  {
    Artifacts(Measured(lib, dir.Files()[Final(Body)]), Measured(lib, dir.Files()[Final(Stdout)]),
              Measured(lib, dir.Files()[Final(Stderr)]))
  }

  function DispatchOf(job: Job, artifacts: Artifacts, recordedAt: int): Receipt {
    Receipt.Receipt(1, Dispatch, Observed, job.caseId, job.consumer, recordedAt, None, artifacts, None,
            job.family.Experience(), job.family.Pair(), None)
  }

  function TerminalOf(
    job: Job, artifacts: Artifacts, exitCode: int, evaluated: Option<EvaluatorResult>, recordedAt: int): Receipt
  {
    Receipt.Receipt(2, TerminalEvent, if exitCode == 0 then Status.Pass else Status.Fail, job.caseId, job.consumer,
            recordedAt, Some(exitCode), artifacts, Some(job.execution),
            job.family.Experience(), job.family.Pair(), evaluated)
  }

  const MAX_RESULT := 65536

  /** A passing paired cell must print one valid evaluator result; nothing else is evaluated. */
  function Evaluated(lib: Library, job: Job, ending: Ending): Result<Option<EvaluatorResult>, Error> {
    if !job.family.PairedCell? || ending.exitCode != 0 then Success(None)
    else
      :- Need(|ending.stdout| <= MAX_RESULT, ResultRejected);
      var result := lib.decodeResult(ending.stdout);
      :- Need(result.Some? && EvaluatorResultValid(result.value, job.family.pair.plan), ResultRejected);
      Success(result)
  }

  /** The directory when the command starts. */
  function Launched(lib: Library, dir: CaseDir, job: Job, at: int): CaseDir {
    var written := Put(Put(Put(dir, Body, job.body), Stdout, []), Stderr, []);
    Recorded(written, DispatchOf(job, Measure(lib, written), at))
  }

  /** The directory when the command has ended and its output is stored. */
  function Ended(dir: CaseDir, ending: Ending): CaseDir {
    Put(Put(dir, Stdout, ending.stdout), Stderr, ending.stderr)
  }

  /** The directory after the terminal receipt. */
  function Finished(
    lib: Library, dir: CaseDir, job: Job, ending: Ending, evaluated: Option<EvaluatorResult>, at: int): CaseDir
  {
    var ended := Ended(dir, ending);
    if ended.HasRaw() then Recorded(ended, TerminalOf(job, Measure(lib, ended), ending.exitCode, evaluated, at))
    else ended
  }

  datatype Error =
    | BadInput | CaseExists | Invalid | Unmatched | Incomplete | Expired | ResultRejected

  // ---- the readback ---------------------------------------------------------------------

  datatype Query = Query(
    caseId: string, consumer: Option<string>, experience: Option<ExperienceBinding>, readAt: int,
    requireArtifacts: bool)

  datatype Contents = Contents(body: Bytes, stdout: Bytes, stderr: Bytes)

  /** `contents` is None for the empty dictionary that an expired read returns. */
  datatype Reading = Reading(receipt: Receipt, rawAvailable: Option<bool>, contents: Option<Contents>)

  predicate DispatchValid(d: Receipt, t: Receipt, caseId: string) {
    && d.sequence == 1 && d.event == Dispatch && d.status == Observed && d.caseId == caseId
    && d.consumer == t.consumer && d.exitCode == None && d.execution == None && d.evaluatorResult == None
  }

  predicate TerminalValid(lib: Library, t: Receipt, caseId: string) {
    && t.sequence == 2 && t.event == TerminalEvent && t.caseId == caseId
    && t.status != Observed && t.exitCode.Some? && (t.status == Status.Pass <==> t.exitCode == Some(0))
    && t.execution.Some? && ExecutionValid(lib, t.execution.value)
    && (t.evaluatorResult.Some? <==> t.paired.Some? && t.status == Status.Pass)
  }

  predicate ArtifactsAgree(lib: Library, d: Receipt, t: Receipt) {
    && t.artifacts.body.size >= 0 && t.artifacts.stdout.size >= 0 && t.artifacts.stderr.size >= 0
    && d.artifacts.body == t.artifacts.body
    && d.artifacts.stdout == Measured(lib, []) && d.artifacts.stderr == Measured(lib, [])
  }

  predicate FamiliesAgree(lib: Library, d: Receipt, t: Receipt) {
    && !(t.experience.Some? && t.paired.Some?)
    && d.experience == t.experience && d.paired == t.paired
    && (t.experience.Some? ==> ExperienceBindingValid(t.experience.value))
    && (t.paired.Some? ==> PairBindingValid(lib, t.paired.value))
    && (t.paired.Some? && t.evaluatorResult.Some? ==>
          EvaluatorResultValid(t.evaluatorResult.value, t.paired.value.plan))
  }

  /** The two receipts of a case whose journal and projection hold exactly one whole run. */
  predicate Matched(lib: Library, dir: CaseDir, caseId: string) {
    && |dir.journal.lines| == 2
    && dir.journal.lines[0].Entry? && dir.journal.lines[1].Entry?
    && dir.current == Some(dir.journal.lines[1])
    && var d, t := dir.journal.lines[0].receipt, dir.journal.lines[1].receipt;
       && DispatchValid(d, t, caseId) && TerminalValid(lib, t, caseId)
       && ArtifactsAgree(lib, d, t) && FamiliesAgree(lib, d, t)
  }

  predicate Expected(t: Receipt, q: Query) {
    && (q.consumer.Some? ==> q.consumer == Some(t.consumer))
    && (q.experience.Some? ==> q.experience == t.experience)
  }

  const MICROSECONDS := 1_000_000

  function Expiry(d: Receipt, t: Receipt): Option<int> {
    if t.experience.Some? then Some(d.recordedAt + t.experience.value.retentionSeconds * MICROSECONDS)
    else if t.paired.Some? then Some(d.recordedAt + t.paired.value.plan.retentionSeconds * MICROSECONDS)
    else None
  }

  predicate HasExpired(d: Receipt, t: Receipt, readAt: int) {
    Expiry(d, t).Some? && readAt >= Expiry(d, t).value
  }

  const RAW: set<File> := {
    Final(Body), Temporary(Body), Final(Stdout), Temporary(Stdout), Final(Stderr), Temporary(Stderr)}

  predicate NoForeign(dir: CaseDir) {
    forall file | file in dir.Files() :: !file.Foreign?
  }

  /** `_remove_raw_artifacts`: the directory itself goes only when nothing else lies in it. */
  function Cleaned(dir: CaseDir): CaseDir {
    dir.(artifacts := if NoForeign(dir) then None else Some(dir.Files() - RAW))
  }

  /** `_verified_artifacts`, then the evaluator's own bytes against the recorded result. */
  predicate ArtifactsIntact(lib: Library, dir: CaseDir, t: Receipt) {
    && dir.HasRaw() && Measure(lib, dir) == t.artifacts
    && (t.evaluatorResult.Some? ==> lib.decodeResult(dir.Files()[Final(Stdout)]) == t.evaluatorResult)
  }

  function Raw(dir: CaseDir): Contents
    requires dir.HasRaw()
  {
    Contents(dir.Files()[Final(Body)], dir.Files()[Final(Stdout)], dir.Files()[Final(Stderr)])
  }

  datatype Readout = Readout(dir: CaseDir, result: Result<Reading, Error>)

  function Readback(lib: Library, dir: CaseDir, q: Query): Readout {
    if !Matched(lib, dir, q.caseId) then Readout(dir, Failure(Unmatched))
    else
      var d, t := dir.journal.lines[0].receipt, dir.journal.lines[1].receipt;
      if !Expected(t, q) then Readout(dir, Failure(Invalid))
      else if HasExpired(d, t, q.readAt) then
        Readout(Cleaned(dir),
                if !NoForeign(dir) then Failure(Incomplete)
                else if q.requireArtifacts then Failure(Expired)
                else Success(Reading(t, Some(false), None)))
      else if !ArtifactsIntact(lib, dir, t) then Readout(dir, Failure(Invalid))
      else Readout(dir, Success(Reading(t, if Expiry(d, t).Some? then Some(true) else None, Some(Raw(dir)))))
  }
}
