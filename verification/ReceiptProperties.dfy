// runtime/harness_runtime/runtime.py: what a whole run leaves behind is what the
// readback accepts, and what retention keeps and removes.

module ReceiptProperties {
  import opened Wrappers
  import opened Json
  import opened RuntimeRecords
  import opened Receipts

  // ---- produce, then verify -----------------------------------------------------

  /** The whole run: dispatch, command, terminal receipt. */
  function Produced(
    lib: Library, dir: CaseDir, job: Job, dispatchedAt: int, ending: Ending, evaluated: Option<EvaluatorResult>,
    endedAt: int): CaseDir
  {
    Finished(lib, Launched(lib, dir, job, dispatchedAt), job, ending, evaluated, endedAt)
  }

  predicate ExpiredAt(job: Job, dispatchedAt: int, readAt: int) {
    job.family.Retention().Some? && readAt >= dispatchedAt + job.family.Retention().value * MICROSECONDS
  }

  /** The readback that closes a run. */
  function Closing(job: Job, readAt: int): Query {
    Query(job.caseId, Some(job.consumer), None, readAt, true)
  }

  function TerminalReceipt(
    lib: Library, job: Job, ending: Ending, evaluated: Option<EvaluatorResult>, endedAt: int): Receipt
  {
    var artifacts := Artifacts(Measured(lib, job.body), Measured(lib, ending.stdout), Measured(lib, ending.stderr));
    TerminalOf(job, artifacts, ending.exitCode, evaluated, endedAt)
  }

  function DispatchReceipt(lib: Library, job: Job, dispatchedAt: int): Receipt {
    DispatchOf(job, Artifacts(Measured(lib, job.body), Measured(lib, []), Measured(lib, [])), dispatchedAt)
  }

  lemma LaunchedFiles(lib: Library, dir: CaseDir, job: Job, at: int)
    ensures var launched := Launched(lib, dir, job, at);
      && launched.HasRaw() && Raw(launched) == Contents(job.body, [], [])
      && launched.journal == Appended(dir.journal, Entry(DispatchReceipt(lib, job, at)))
      && launched.current == Some(Entry(DispatchReceipt(lib, job, at)))
  {
  }

  lemma EndedFiles(dir: CaseDir, ending: Ending)
    requires dir.HasRaw()
    ensures var ended := Ended(dir, ending);
      && ended.HasRaw() && Raw(ended) == Contents(dir.Files()[Final(Body)], ending.stdout, ending.stderr)
      && ended.journal == dir.journal
  {
  }

  lemma ProducedFiles(
    lib: Library, dir: CaseDir, job: Job, dispatchedAt: int, ending: Ending, evaluated: Option<EvaluatorResult>,
    endedAt: int)
    ensures var produced := Produced(lib, dir, job, dispatchedAt, ending, evaluated, endedAt);
      var t := Entry(TerminalReceipt(lib, job, ending, evaluated, endedAt));
      && produced.HasRaw() && Raw(produced) == Contents(job.body, ending.stdout, ending.stderr)
      && produced.current == Some(t)
      && produced.journal == Appended(Appended(dir.journal, Entry(DispatchReceipt(lib, job, dispatchedAt))), t)
  {
    LaunchedFiles(lib, dir, job, dispatchedAt);
    EndedFiles(Launched(lib, dir, job, dispatchedAt), ending);
  }

  /** Two more lines on any journal: exactly those two exactly when there was no line before. */
  lemma TwoLines(journal: Journal, d: Line, t: Line)
    ensures var lines := Appended(Appended(journal, d), t).lines;
      if journal.lines == [] then lines == [d, t]
      else |lines| > 2 || (|lines| == 2 && lines[0] == Unreadable)
  {
  }

  /**
   * The produce/verify round trip. The closing readback of an uninterrupted run that appended its
   * terminal receipt succeeds exactly when no line was in the journal before, Git printed object
   * names, and retention had not run out; it then returns exactly the terminal receipt and the
   * bytes of the run, and changes nothing.
   */
  lemma RunPassesItsReadback(
    lib: Library, dir: CaseDir, job: Job, worktree: Worktree, stateRoot: string,
    dispatchedAt: int, ending: Ending, endedAt: int, readAt: int)
    requires job.family.Valid(lib) && Evaluated(lib, job, ending).Success?
    requires job.execution == ExecutionOf(lib, job.execution.argv, worktree, stateRoot)
    requires job.execution.argv != [] && forall item | item in job.execution.argv :: item != ""
    ensures var evaluated := Evaluated(lib, job, ending).value;
      var produced := Produced(lib, dir, job, dispatchedAt, ending, evaluated, endedAt);
      var outcome := Readback(lib, produced, Closing(job, readAt));
      && (outcome.result.Success? <==>
            dir.journal.lines == [] && IsObjectName(worktree.commit) && IsObjectName(worktree.tree)
            && !ExpiredAt(job, dispatchedAt, readAt))
      && (outcome.result.Success? ==>
            && outcome.dir == produced
            && outcome.result.value.receipt == TerminalReceipt(lib, job, ending, evaluated, endedAt)
            && outcome.result.value.contents == Some(Contents(job.body, ending.stdout, ending.stderr)))
  {
    var evaluated := Evaluated(lib, job, ending).value;
    var produced := Produced(lib, dir, job, dispatchedAt, ending, evaluated, endedAt);
    var d, t := DispatchReceipt(lib, job, dispatchedAt), TerminalReceipt(lib, job, ending, evaluated, endedAt);
    ProducedFiles(lib, dir, job, dispatchedAt, ending, evaluated, endedAt);
    TwoLines(dir.journal, Entry(d), Entry(t));
    if dir.journal.lines == [] {
      ReceiptsMatch(lib, job, worktree, stateRoot, dispatchedAt, ending, endedAt);
      assert ArtifactsIntact(lib, produced, t);
    }
  }

  lemma ReceiptsMatch(
    lib: Library, job: Job, worktree: Worktree, stateRoot: string, dispatchedAt: int, ending: Ending, endedAt: int)
    requires job.family.Valid(lib) && Evaluated(lib, job, ending).Success?
    requires job.execution == ExecutionOf(lib, job.execution.argv, worktree, stateRoot)
    requires job.execution.argv != [] && forall item | item in job.execution.argv :: item != ""
    ensures var d, t := DispatchReceipt(lib, job, dispatchedAt),
                        TerminalReceipt(lib, job, ending, Evaluated(lib, job, ending).value, endedAt);
      && DispatchValid(d, t, job.caseId) && ArtifactsAgree(lib, d, t) && FamiliesAgree(lib, d, t)
      && (TerminalValid(lib, t, job.caseId) <==> IsObjectName(worktree.commit) && IsObjectName(worktree.tree))
      && Expiry(d, t).Some? == job.family.Retention().Some?
      && (Expiry(d, t).Some? ==>
            Expiry(d, t).value == dispatchedAt + job.family.Retention().value * MICROSECONDS)
      && (t.evaluatorResult.Some? ==> lib.decodeResult(ending.stdout) == t.evaluatorResult)
  {
  }

  /**
   * So the round trip fails without any outside interference: a run stopped between its journal line
   * and its projection leaves a case that `execute` accepts again, and every retry fails its readback.
   */
  lemma RetryAfterOrphanFails(
    lib: Library, unused: CaseDir, job: Job, worktree: Worktree, stateRoot: string,
    stoppedAt: int, dispatchedAt: int, ending: Ending, endedAt: int, readAt: int)
    requires unused.journal.lines == [] && unused.current == None
    requires job.family.Valid(lib) && Evaluated(lib, job, ending).Success?
    requires job.execution == ExecutionOf(lib, job.execution.argv, worktree, stateRoot)
    requires job.execution.argv != [] && forall item | item in job.execution.argv :: item != ""
    ensures var orphaned := Launched(lib, unused, job, stoppedAt).(current := None);
      var retried := Produced(lib, orphaned, job, dispatchedAt, ending, Evaluated(lib, job, ending).value, endedAt);
      Readback(lib, retried, Closing(job, readAt)).result.Failure?
  {
    var orphaned := Launched(lib, unused, job, stoppedAt).(current := None);
    LaunchedFiles(lib, unused, job, stoppedAt);
    RunPassesItsReadback(lib, orphaned, job, worktree, stateRoot, dispatchedAt, ending, endedAt, readAt);
  }

  /** The family of a receipt whose two binding fields are not both present. */
  function FamilyOf(t: Receipt): Family {
    if t.experience.Some? then Experienced(t.experience.value)
    else if t.paired.Some? then PairedCell(t.paired.value)
    else Plain
  }

  /**
   * The converse of the round trip: a readback returns bytes only for a case that a run could have
   * produced, receipt by receipt and byte by byte; of the producer's own checks only the bound on the
   * evaluator's output is not repeated.
   */
  lemma AcceptedWasProduced(lib: Library, dir: CaseDir, q: Query)
    requires ReturnsBytes(Readback(lib, dir, q))
    ensures |dir.journal.lines| == 2 && dir.journal.lines[1].Entry? && dir.journal.lines[0].Entry?
    ensures var d, t := Dispatched(dir), Ran(dir);
      var contents := Readback(lib, dir, q).result.value.contents.value;
      && t.execution.Some? && ExecutionValid(lib, t.execution.value) && t.exitCode.Some?
      && var job := Job(q.caseId, t.consumer, contents.body, t.execution.value, FamilyOf(t));
         var ending := Ending(t.exitCode.value, contents.stdout, contents.stderr);
         && job.family.Valid(lib)
         && d == DispatchReceipt(lib, job, d.recordedAt)
         && t == TerminalReceipt(lib, job, ending, t.evaluatorResult, t.recordedAt)
         && (Evaluated(lib, job, ending) == Success(t.evaluatorResult) <==>
               (job.family.PairedCell? && ending.exitCode == 0 ==> |ending.stdout| <= MAX_RESULT))
         && (q.consumer.Some? ==> q.consumer.value == job.consumer)
         && (q.experience.Some? ==> job.family == Experienced(q.experience.value))
  {
  }

  // ---- retention ------------------------------------------------------------------

  /** The two receipts of an accepted case. */
  function Dispatched(dir: CaseDir): Receipt
    requires |dir.journal.lines| == 2 && dir.journal.lines[0].Entry?
  {
    dir.journal.lines[0].receipt
  }

  function Ran(dir: CaseDir): Receipt
    requires |dir.journal.lines| == 2 && dir.journal.lines[1].Entry?
  {
    dir.journal.lines[1].receipt
  }

  /** A read that gets as far as removing the raw artifacts. */
  predicate Removes(lib: Library, dir: CaseDir, q: Query) {
    && Matched(lib, dir, q.caseId) && Expected(Ran(dir), q)
    && HasExpired(Dispatched(dir), Ran(dir), q.readAt)
  }

  predicate ReturnsBytes(outcome: Readout) {
    outcome.result.Success? && outcome.result.value.contents.Some?
  }

  /** One case read any number of times. */
  function After(lib: Library, dir: CaseDir, queries: seq<Query>): CaseDir
    decreases |queries|
  {
    if queries == [] then dir else After(lib, Readback(lib, dir, queries[0]).dir, queries[1..])
  }

  /** What no read ever changes. */
  ghost predicate SameButCleaned(before: CaseDir, after: CaseDir) {
    && after.journal == before.journal && after.current == before.current
    && (after == before || after == Cleaned(before))
  }

  lemma CleanupIsIdempotent(dir: CaseDir)
    ensures Cleaned(Cleaned(dir)) == Cleaned(dir) && NoForeign(Cleaned(dir)) == NoForeign(dir)
    ensures !Cleaned(dir).HasRaw() && Cleaned(dir).Files() == dir.Files() - RAW
  {
    forall file: File | !file.Foreign? ensures file in RAW {
      assert file == Final(file.slot) || file == Temporary(file.slot);
      assert file.slot == Body || file.slot == Stdout || file.slot == Stderr;
    }
    if NoForeign(dir) {
      assert dir.Files() - RAW == map[];
    }
    assert dir.Files() - RAW - RAW == dir.Files() - RAW;
    assert Final(Body) in RAW;
  }

  lemma NothingLeft(dir: CaseDir)
    ensures dir.Files() - RAW == map[] <==> NoForeign(dir)
  {
    CleanupIsIdempotent(dir);
    if file :| file in dir.Files() && file.Foreign? {
      assert file in dir.Files() - RAW;
    }
  }

  lemma {:induction false} ReadsOnlyClean(lib: Library, dir: CaseDir, queries: seq<Query>)
    ensures SameButCleaned(dir, After(lib, dir, queries))
    decreases |queries|
  {
    if queries != [] {
      ReadsOnlyClean(lib, Readback(lib, dir, queries[0]).dir, queries[1..]);
      CleanupIsIdempotent(dir);
    }
  }

  predicate SomeRemoves(lib: Library, dir: CaseDir, queries: seq<Query>) {
    exists q | q in queries :: Removes(lib, dir, q)
  }

  /** A sequence of reads cleans the case exactly when one of them, judged on the case as it was, removes. */
  lemma {:induction false} ReadsCleanExactly(lib: Library, dir: CaseDir, queries: seq<Query>)
    ensures After(lib, dir, queries) == if SomeRemoves(lib, dir, queries) then Cleaned(dir) else dir
    decreases |queries|
  {
    if queries != [] {
      var next := Readback(lib, dir, queries[0]).dir;
      CleanupIsIdempotent(dir);
      ReadsCleanExactly(lib, next, queries[1..]);
      assert queries == [queries[0]] + queries[1..];
      assert SomeRemoves(lib, dir, queries) <==> Removes(lib, dir, queries[0]) || SomeRemoves(lib, dir, queries[1..]);
      assert forall q :: Removes(lib, next, q) == Removes(lib, dir, q);
    }
  }

  /**
   * After any reads, in any order of read times, a read returns bytes exactly when it would have done so
   * at once and none of those reads removed; it is then earlier than dispatch time plus retention, and
   * the bytes are the case's own.
   */
  lemma BytesAreInTime(lib: Library, dir: CaseDir, queries: seq<Query>, q: Query)
    ensures var late := Readback(lib, After(lib, dir, queries), q);
      && (ReturnsBytes(late) <==> ReturnsBytes(Readback(lib, dir, q)) && !SomeRemoves(lib, dir, queries))
      && (ReturnsBytes(late) ==>
            && Matched(lib, dir, q.caseId) && dir.HasRaw()
            && (Expiry(Dispatched(dir), Ran(dir)).Some? ==> q.readAt < Expiry(Dispatched(dir), Ran(dir)).value)
            && late.result.value.contents == Some(Raw(dir)) && Measure(lib, dir) == Ran(dir).artifacts
            && late.dir == dir)
  {
    ReadsCleanExactly(lib, dir, queries);
    CleanupIsIdempotent(dir);
  }

  /**
   * After one read past expiry no later read of the case ever returns bytes, whatever read times,
   * consumers and expectations the later reads name, and whether or not that one read succeeded.
   */
  lemma ExpiredBytesNeverReturn(
    lib: Library, dir: CaseDir, before: seq<Query>, expired: Query, between: seq<Query>, later: Query)
    requires Removes(lib, After(lib, dir, before), expired)
    ensures var removed := Readback(lib, After(lib, dir, before), expired).dir;
      !ReturnsBytes(Readback(lib, After(lib, removed, between), later))
  {
    var at := After(lib, dir, before);
    var removed := Readback(lib, at, expired).dir;
    CleanupIsIdempotent(at);
    ReadsOnlyClean(lib, removed, between);
  }

  /**
   * Verified metadata outlives the bytes exactly when nothing foreign lies in the artifacts directory:
   * then every matching read at or after expiry returns the terminal receipt, after any earlier reads;
   * otherwise every such read fails.
   */
  lemma MetadataSurvives(lib: Library, dir: CaseDir, queries: seq<Query>, q: Query)
    requires Removes(lib, dir, q) && !q.requireArtifacts
    ensures var outcome := Readback(lib, After(lib, dir, queries), q);
      outcome.result == if NoForeign(dir) then Success(Reading(Ran(dir), Some(false), None)) else Failure(Incomplete)
  {
    ReadsOnlyClean(lib, dir, queries);
    CleanupIsIdempotent(dir);
  }

  /** A case that only runs have written to holds nothing foreign. */
  lemma RunsLeaveNothingForeign(
    lib: Library, dir: CaseDir, job: Job, dispatchedAt: int, ending: Ending, evaluated: Option<EvaluatorResult>,
    endedAt: int)
    requires NoForeign(dir)
    ensures NoForeign(Produced(lib, dir, job, dispatchedAt, ending, evaluated, endedAt))
  {
    var written := Put(Put(Put(dir, Body, job.body), Stdout, []), Stderr, []);
    PutIsNotForeign(dir, Body, job.body);
    PutIsNotForeign(Put(dir, Body, job.body), Stdout, []);
    PutIsNotForeign(Put(Put(dir, Body, job.body), Stdout, []), Stderr, []);
    var launched := Launched(lib, dir, job, dispatchedAt);
    assert launched.artifacts == written.artifacts;
    PutIsNotForeign(launched, Stdout, ending.stdout);
    PutIsNotForeign(Put(launched, Stdout, ending.stdout), Stderr, ending.stderr);
    LaunchedFiles(lib, dir, job, dispatchedAt);
  }

  lemma PutIsNotForeign(dir: CaseDir, slot: Slot, content: Bytes)
    requires NoForeign(dir)
    ensures NoForeign(Put(dir, slot, content))
  {
  }
}
