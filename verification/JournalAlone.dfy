// What one run or one readback does when nothing interrupts it: exactly what the
// sequential model says.

module JournalAlone {
  import opened Wrappers
  import opened Json
  import opened RuntimeRecords
  import opened Receipts
  import opened ReceiptProperties
  import opened JournalProtocol

  // ---- one run alone is the sequential run ---------------------------------------------------

  function PerformAll(lib: Library, dir: CaseDir, todo: seq<FileStep>, digests: map<Slot, Artifact>)
    : Option<(CaseDir, map<Slot, Artifact>)>
    decreases |todo|
  {
    if todo == [] then Some((dir, digests))
    else
      match Perform(lib, dir, todo[0], digests)
      case None => None
      case Some((after, measured)) => PerformAll(lib, after, todo[1..], measured)
  }

  lemma {:induction false} PerformBoth(
    lib: Library, dir: CaseDir, first: seq<FileStep>, second: seq<FileStep>, digests: map<Slot, Artifact>)
    requires PerformAll(lib, dir, first, digests).Some?
    ensures var middle := PerformAll(lib, dir, first, digests).value;
      PerformAll(lib, dir, first + second, digests) == PerformAll(lib, middle.0, second, middle.1)
    decreases |first|
  {
    if first == [] {
      assert first + second == second;
    } else {
      var after := Perform(lib, dir, first[0], digests).value;
      PerformBoth(lib, after.0, first[1..], second, after.1);
      assert (first + second)[1..] == first[1..] + second;
    }
  }

  lemma StorePerforms(lib: Library, dir: CaseDir, slot: Slot, content: Bytes, digests: map<Slot, Artifact>)
    ensures PerformAll(lib, dir, StoreSteps(slot, content), digests) == Some((Put(dir, slot, content), digests))
  {
    var steps := StoreSteps(slot, content);
    var written := Perform(lib, dir, steps[0], digests).value;
    var renamed := Perform(lib, written.0, steps[1], digests).value;
    assert renamed.0.Files() == Put(dir, slot, content).Files();
    assert steps[1..][1..] == [];
    assert PerformAll(lib, renamed.0, [], digests) == Some(renamed);
    assert PerformAll(lib, written.0, steps[1..], digests) == Some(renamed);
  }

  function Digested(lib: Library, dir: CaseDir, digests: map<Slot, Artifact>): map<Slot, Artifact>
    requires dir.HasRaw()
  {
    digests[Body := Measured(lib, dir.Files()[Final(Body)])]
      [Stdout := Measured(lib, dir.Files()[Final(Stdout)])][Stderr := Measured(lib, dir.Files()[Final(Stderr)])]
  }

  lemma DigestsPerform(lib: Library, dir: CaseDir, digests: map<Slot, Artifact>)
    requires dir.HasRaw()
    ensures PerformAll(lib, dir, DIGESTS, digests) == Some((dir, Digested(lib, dir, digests)))
  {
    var one := digests[Body := Measured(lib, dir.Files()[Final(Body)])];
    var two := one[Stdout := Measured(lib, dir.Files()[Final(Stdout)])];
    assert DIGESTS[1..] == [Digest(Stdout), Digest(Stderr)] && DIGESTS[1..][1..] == [Digest(Stderr)];
    assert PerformAll(lib, dir, [Digest(Stderr)], two) == Some((dir, Digested(lib, dir, digests))) by {
      assert [Digest(Stderr)][1..] == [];
    }
    assert PerformAll(lib, dir, DIGESTS[1..], one) == Some((dir, Digested(lib, dir, digests)));
  }

  function Touches(p: nat, n: nat): (events: seq<Event>)
    ensures |events| == n
  {
    if n == 0 then [] else [Touch(p)] + Touches(p, n - 1)
  }

  /** A run does the first part of what it has to do, and nobody else moves. */
  lemma {:induction false} TouchesPart(
    lib: Library, jobs: nat -> Job, s: State, p: nat, stage: Stage, part: seq<FileStep>, rest: seq<FileStep>,
    digests: map<Slot, Artifact>)
    requires s.At(p) == Storing(stage, part + rest, digests) && PerformAll(lib, s.dir, part, digests).Some?
    ensures var t := RunAll(lib, jobs, s, Touches(p, |part|));
      var performed := PerformAll(lib, s.dir, part, digests).value;
      && t.dir == performed.0 && t.At(p) == Storing(stage, rest, performed.1)
      && t.dir.current == s.dir.current && forall q: nat | q != p :: t.At(q) == s.At(q)
    decreases |part|
  {
    if part == [] {
      assert part + rest == rest;
    } else {
      var after := Perform(lib, s.dir, part[0], digests).value;
      assert (part + rest)[0] == part[0] && (part + rest)[1..] == part[1..] + rest;
      TouchesPart(lib, jobs, Next(lib, jobs, s, Touch(p)), p, stage, part[1..], rest, after.1);
      assert Touches(p, |part|)[1..] == Touches(p, |part| - 1);
    }
  }

  /** The four steps that turn digests into a receipt in the journal and the projection. */
  function Publish(p: nat, at: int): seq<Event> {
    [Compose(p, at), Append(p, Whole), WriteProjection(p), Replace(p)]
  }

  lemma PublishRecords(lib: Library, jobs: nat -> Job, s: State, p: nat, at: int)
    requires s.At(p).Storing? && s.At(p).todo == []
    requires Composed(lib, jobs(p), s.At(p).stage, s.At(p).digests, at).Some?
    ensures var t := RunAll(lib, jobs, s, Publish(p, at));
      var receipt := Composed(lib, jobs(p), s.At(p).stage, s.At(p).digests, at).value;
      && t.dir == Recorded(s.dir, receipt)
      && t.At(p) == if s.At(p).stage.Opening? then Running(receipt) else Done(s.At(p).stage.dispatch, receipt)
  {
    var events := Publish(p, at);
    var s1 := Next(lib, jobs, s, events[0]);
    var s2 := Next(lib, jobs, s1, events[1]);
    var s3 := Next(lib, jobs, s2, events[2]);
    var s4 := Next(lib, jobs, s3, events[3]);
    assert RunAll(lib, jobs, s4, events[4..]) == s4;
    assert RunAll(lib, jobs, s3, events[3..]) == s4 by { assert events[3..][1..] == events[4..]; }
    assert RunAll(lib, jobs, s2, events[2..]) == s4 by { assert events[2..][1..] == events[3..]; }
    assert RunAll(lib, jobs, s1, events[1..]) == s4 by { assert events[1..][1..] == events[2..]; }
  }

  lemma OpeningPerforms(lib: Library, dir: CaseDir, job: Job)
    ensures var written := Put(Put(Put(dir, Body, job.body), Stdout, []), Stderr, []);
      && written.HasRaw()
      && PerformAll(lib, dir, OpeningSteps(job), map[]) == Some((written, Digested(lib, written, map[])))
  {
    var one := Put(dir, Body, job.body);
    var two := Put(one, Stdout, []);
    StorePerforms(lib, dir, Body, job.body, map[]);
    StorePerforms(lib, one, Stdout, [], map[]);
    StorePerforms(lib, two, Stderr, [], map[]);
    DigestsPerform(lib, Put(two, Stderr, []), map[]);
    PerformBoth(lib, dir, StoreSteps(Body, job.body), StoreSteps(Stdout, []), map[]);
    PerformBoth(lib, dir, StoreSteps(Body, job.body) + StoreSteps(Stdout, []), StoreSteps(Stderr, []), map[]);
    PerformBoth(lib, dir, StoreSteps(Body, job.body) + StoreSteps(Stdout, []) + StoreSteps(Stderr, []), DIGESTS, map[]);
  }

  lemma ClosingPerforms(lib: Library, dir: CaseDir, ending: Ending)
    requires dir.HasRaw()
    ensures var ended := Ended(dir, ending);
      && ended.HasRaw()
      && PerformAll(lib, dir, ClosingSteps(ending), map[]) == Some((ended, Digested(lib, ended, map[])))
  {
    var one := Put(dir, Stdout, ending.stdout);
    StorePerforms(lib, dir, Stdout, ending.stdout, map[]);
    StorePerforms(lib, one, Stderr, ending.stderr, map[]);
    DigestsPerform(lib, Put(one, Stderr, ending.stderr), map[]);
    PerformBoth(lib, dir, StoreSteps(Stdout, ending.stdout), StoreSteps(Stderr, ending.stderr), map[]);
    PerformBoth(lib, dir, StoreSteps(Stdout, ending.stdout) + StoreSteps(Stderr, ending.stderr), DIGESTS, map[]);
  }

  /** The events of one half of a run: its first event, its file operations, its receipt. */
  function Half(first: Event, p: nat, n: nat, at: int): seq<Event> {
    [first] + Touches(p, n) + Publish(p, at)
  }

  lemma HalfRuns(
    lib: Library, jobs: nat -> Job, s: State, first: Event, p: nat, stage: Stage, todo: seq<FileStep>, at: int)
    requires Next(lib, jobs, s, first).At(p) == Storing(stage, todo, map[]) && Next(lib, jobs, s, first).dir == s.dir
    requires PerformAll(lib, s.dir, todo, map[]).Some?
    requires Composed(lib, jobs(p), stage, PerformAll(lib, s.dir, todo, map[]).value.1, at).Some?
    ensures var t := RunAll(lib, jobs, s, Half(first, p, |todo|, at));
      var receipt := Composed(lib, jobs(p), stage, PerformAll(lib, s.dir, todo, map[]).value.1, at).value;
      && t.dir == Recorded(PerformAll(lib, s.dir, todo, map[]).value.0, receipt)
      && t.At(p) == if stage.Opening? then Running(receipt) else Done(stage.dispatch, receipt)
  {
    var s1 := Next(lib, jobs, s, first);
    var work := Touches(p, |todo|) + Publish(p, at);
    assert Half(first, p, |todo|, at) == [first] + work;
    assert ([first] + work)[0] == first && ([first] + work)[1..] == work;
    WorkRuns(lib, jobs, s1, p, stage, todo, at);
  }

  lemma WorkRuns(lib: Library, jobs: nat -> Job, s: State, p: nat, stage: Stage, todo: seq<FileStep>, at: int)
    requires s.At(p) == Storing(stage, todo, map[]) && PerformAll(lib, s.dir, todo, map[]).Some?
    requires Composed(lib, jobs(p), stage, PerformAll(lib, s.dir, todo, map[]).value.1, at).Some?
    ensures var t := RunAll(lib, jobs, s, Touches(p, |todo|) + Publish(p, at));
      var receipt := Composed(lib, jobs(p), stage, PerformAll(lib, s.dir, todo, map[]).value.1, at).value;
      && t.dir == Recorded(PerformAll(lib, s.dir, todo, map[]).value.0, receipt)
      && t.At(p) == if stage.Opening? then Running(receipt) else Done(stage.dispatch, receipt)
  {
    assert todo + [] == todo;
    TouchesPart(lib, jobs, s, p, stage, todo, [], map[]);
    RunAppend(lib, jobs, s, Touches(p, |todo|), Publish(p, at));
    PublishRecords(lib, jobs, RunAll(lib, jobs, s, Touches(p, |todo|)), p, at);
  }

  /** All the events of one run. */
  function Alone(p: nat, dispatchedAt: int, ending: Ending, endedAt: int): seq<Event> {
    Half(Start(p), p, 9, dispatchedAt) + Half(Finish(p, ending), p, 7, endedAt)
  }

  lemma OpeningRuns(lib: Library, jobs: nat -> Job, s: State, p: nat, at: int)
    requires s.At(p).Idle? && s.dir.current == None
    ensures var t := RunAll(lib, jobs, s, Half(Start(p), p, 9, at));
      t.dir == Launched(lib, s.dir, jobs(p), at) && t.At(p).Running?
  {
    OpeningPerforms(lib, s.dir, jobs(p));
    HalfRuns(lib, jobs, s, Start(p), p, Opening, OpeningSteps(jobs(p)), at);
  }

  lemma ClosingRuns(lib: Library, jobs: nat -> Job, s: State, p: nat, ending: Ending, at: int)
    requires s.At(p).Running? && s.dir.HasRaw() && Evaluated(lib, jobs(p), ending).Success?
    ensures var t := RunAll(lib, jobs, s, Half(Finish(p, ending), p, 7, at));
      t.dir == Finished(lib, s.dir, jobs(p), ending, Evaluated(lib, jobs(p), ending).value, at) && t.At(p).Done?
  {
    ClosingPerforms(lib, s.dir, ending);
    HalfRuns(lib, jobs, s, Finish(p, ending), p, Closing(s.At(p).dispatch, ending), ClosingSteps(ending), at);
  }

  /** A run that nothing interrupts writes in the protocol exactly what the sequential run writes. */
  lemma AloneIsTheRun(
    lib: Library, jobs: nat -> Job, s: State, p: nat, dispatchedAt: int, ending: Ending, endedAt: int)
    requires s.At(p).Idle? && s.dir.current == None && Evaluated(lib, jobs(p), ending).Success?
    ensures var t := RunAll(lib, jobs, s, Alone(p, dispatchedAt, ending, endedAt));
      var evaluated := Evaluated(lib, jobs(p), ending).value;
      && t.dir == Produced(lib, s.dir, jobs(p), dispatchedAt, ending, evaluated, endedAt)
      && t.At(p).Done?
  {
    LaunchedFiles(lib, s.dir, jobs(p), dispatchedAt);
    OpeningRuns(lib, jobs, s, p, dispatchedAt);
    ClosingRuns(lib, jobs, RunAll(lib, jobs, s, Half(Start(p), p, 9, dispatchedAt)), p, ending, endedAt);
    RunAppend(lib, jobs, s, Half(Start(p), p, 9, dispatchedAt), Half(Finish(p, ending), p, 7, endedAt));
  }
}
