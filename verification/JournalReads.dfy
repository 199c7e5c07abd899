// Readbacks taken one file step at a time, between the steps of runs and of other
// readbacks.

module JournalReads {
  import opened Wrappers
  import opened Json
  import opened RuntimeRecords
  import opened Receipts
  import opened ReceiptProperties
  import opened JournalProtocol
  import opened JournalAlone

  // ---- what a read may rely on ---------------------------------------------------

  /** While every line is readable, a terminal receipt is in the journal before it is anywhere else. */
  ghost predicate Journaled(s: State) {
    Readable(s) ==>
      && (forall p: nat | TerminalAt(s.At(p)).Some? :: Entry(TerminalAt(s.At(p)).value) in s.dir.journal.lines)
      && (IsTerminal(s.temporary) ==> s.temporary.value in s.dir.journal.lines)
      && (IsTerminal(s.dir.current) ==> s.dir.current.value in s.dir.journal.lines)
  }

  /** Some run finished both appends, wrote the journal's first two lines, and this is its terminal receipt. */
  ghost predicate WroteBoth(s: State, t: Receipt) {
    exists p: nat :: WroteFirst(s, p, t)
  }

  predicate WroteFirst(s: State, p: nat, t: Receipt) {
    [p, p] <= s.owners && s.At(p).Done? && s.At(p).terminal == t
  }

  predicate Matches(lib: Library, t: Receipt, taken: seq<Bytes>) {
    |taken| <= 3 && forall i | 0 <= i < |taken| :: Measured(lib, taken[i]) == RecordedFor(t, SLOTS[i])
  }

  ghost predicate ReaderFits(lib: Library, s: State, step: ReadStep) {
    match step
    case Away => true
    case Looked(_, projection) =>
      Readable(s) && IsTerminal(projection) && |s.owners| <= 2 ==> projection == s.dir.current
    case Taking(_, _, t, taken) => WroteBoth(s, t) && |taken| < 3 && Matches(lib, t, taken)
    case Removing(_, t, _) => WroteBoth(s, t)
    case Answered(result) =>
      result.Success? ==>
        && WroteBoth(s, result.value.receipt)
        && (result.value.contents.Some? ==>
              var c := result.value.contents.value;
              Matches(lib, result.value.receipt, [c.body, c.stdout, c.stderr]))
  }

  ghost predicate ReadInv(lib: Library, s: State) {
    Inv(s) && Journaled(s) && forall r: nat :: ReaderFits(lib, s, s.ReaderAt(r))
  }

  // ---- every step keeps it ---------------------------------------------------------

  lemma StillJournaled(lib: Library, jobs: nat -> Job, s: State, e: Event)
    requires Inv(s) && Journaled(s)
    ensures Journaled(Next(lib, jobs, s, e))
  {
    var t := Next(lib, jobs, s, e);
    NextKeeps(lib, jobs, s, e);
    if Readable(t) {
      forall line | line in s.dir.journal.lines ensures line in t.dir.journal.lines {}
      forall p: nat | TerminalAt(t.At(p)).Some? ensures Entry(TerminalAt(t.At(p)).value) in t.dir.journal.lines {
        if TerminalAt(s.At(p)) != TerminalAt(t.At(p)) {
          NewTerminalIsWritten(lib, jobs, s, e, p);
        }
      }
      ProjectionsMove(lib, jobs, s, e);
    }
  }

  /** A terminal receipt reaches the temporary from its run, and the projection from the temporary. */
  lemma ProjectionsMove(lib: Library, jobs: nat -> Job, s: State, e: Event)
    requires Inv(s)
    ensures var t := Next(lib, jobs, s, e);
      && (t.dir.current == s.dir.current || t.dir.current == s.temporary)
      && (t.temporary == s.temporary || t.temporary == None
          || (IsTerminal(t.temporary) ==>
                exists p: nat :: TerminalAt(s.At(p)) == Some(t.temporary.value.receipt)))
  {
    if e.WriteProjection? && s.At(e.p).WritingProjection? {
      assert ReceiptFits(s.At(e.p));
      if s.At(e.p).stage.Closing? {
        assert TerminalAt(s.At(e.p)) == Some(s.At(e.p).receipt);
      }
    }
  }

  lemma NewTerminalIsWritten(lib: Library, jobs: nat -> Job, s: State, e: Event, p: nat)
    requires |s.owners| == |s.dir.journal.lines|
    requires var t := Next(lib, jobs, s, e);
      Readable(t) && TerminalAt(t.At(p)).Some? && TerminalAt(s.At(p)) != TerminalAt(t.At(p))
    ensures Entry(TerminalAt(Next(lib, jobs, s, e).At(p)).value) in Next(lib, jobs, s, e).dir.journal.lines
  {
    assert e.Append? && e.p == p && e.reach == Whole;
    if Merges(s.dir.journal) {
      MergeIsUnreadable(lib, jobs, s, p, e.reach);
    }
  }

  lemma SecondOfTwo(owners: seq<nat>, i: nat)
    requires |owners| <= 2 && i < |owners| && owners[i] in owners[..i]
    ensures owners == [owners[i], owners[i]]
  {
  }

  lemma LoneWriterIsDone(s: State, p: nat)
    requires Inv(s) && Readable(s) && s.owners == [p, p] && IsTerminal(s.dir.current)
    ensures s.At(p).Done?
  {
    assert OwnedBy(s, p);
    assert ProjectionFits(s, s.At(p));
  }

  /** A terminal projection over at most two readable lines belongs to the one run that wrote them, which is done. */
  lemma TerminalProjectionIsDone(s: State) returns (p: nat)
    requires Inv(s) && Journaled(s) && Readable(s) && IsTerminal(s.dir.current) && |s.owners| <= 2
    ensures s.owners == [p, p] && s.At(p).Done?
  {
    assert s.dir.current.value in s.dir.journal.lines;
    var i :| 0 <= i < |s.dir.journal.lines| && s.dir.journal.lines[i] == s.dir.current.value;
    TerminalFollowsItsOwner(s, i);
    SecondOfTwo(s.owners, i);
    p := s.owners[i];
    LoneWriterIsDone(s, p);
  }

  lemma TerminalFollowsItsOwner(s: State, i: nat)
    requires Owned(s) && Ordered(s) && Readable(s)
    requires i < |s.dir.journal.lines| && IsTerminal(Some(s.dir.journal.lines[i]))
    ensures s.owners[i] in s.owners[..i]
  {
  }

  lemma OthersAreBeforeDispatch(s: State, p: nat)
    requires Inv(s) && Readable(s) && s.owners == [p, p] && s.At(p).Done?
    ensures forall q: nat :: !s.At(q).Replacing?
  {
    assert forall q: nat | PastDispatch(s.At(q)) :: q in s.owners;
  }

  lemma OnlyAReplacementMoves(lib: Library, jobs: nat -> Job, s: State, e: Event)
    requires forall q: nat :: !s.At(q).Replacing?
    ensures Next(lib, jobs, s, e).dir.current == s.dir.current
  {
  }

  /** While the journal has at most two lines, all readable, a terminal projection is never replaced. */
  lemma TerminalProjectionStays(lib: Library, jobs: nat -> Job, s: State, e: Event)
    requires Inv(s) && Journaled(s) && IsTerminal(s.dir.current)
    requires Readable(Next(lib, jobs, s, e)) && |Next(lib, jobs, s, e).owners| <= 2
    ensures Next(lib, jobs, s, e).dir.current == s.dir.current
  {
    NextKeeps(lib, jobs, s, e);
    var p := TerminalProjectionIsDone(s);
    OthersAreBeforeDispatch(s, p);
    OnlyAReplacementMoves(lib, jobs, s, e);
  }

  lemma StillWroteBoth(lib: Library, jobs: nat -> Job, s: State, e: Event, t: Receipt)
    requires Inv(s) && WroteBoth(s, t)
    ensures WroteBoth(Next(lib, jobs, s, e), t)
  {
    var p: nat :| WroteFirst(s, p, t);
    NextKeeps(lib, jobs, s, e);
    assert WroteFirst(Next(lib, jobs, s, e), p, t);
  }

  /** A reader that does nothing itself still fits. */
  lemma WaitingReaderFits(lib: Library, jobs: nat -> Job, s: State, e: Event, step: ReadStep)
    requires Inv(s) && Journaled(s) && ReaderFits(lib, s, step)
    ensures ReaderFits(lib, Next(lib, jobs, s, e), step)
  {
    var t := Next(lib, jobs, s, e);
    NextKeeps(lib, jobs, s, e);
    match step
    case Away =>
    case Looked(_, projection) =>
      if Readable(t) && IsTerminal(projection) && |t.owners| <= 2 {
        TerminalProjectionStays(lib, jobs, s, e);
      }
    case Taking(_, _, terminal, _) => StillWroteBoth(lib, jobs, s, e, terminal);
    case Removing(_, terminal, _) => StillWroteBoth(lib, jobs, s, e, terminal);
    case Answered(result) =>
      if result.Success? {
        StillWroteBoth(lib, jobs, s, e, result.value.receipt);
      }
  }

  /** What a scan accepts is, then and there, one whole run: the projection read before is still the current one. */
  lemma ScanFindsOneRun(lib: Library, s: State, query: Query, projection: Option<Line>)
    requires Inv(s) && ReaderFits(lib, s, Looked(query, projection))
    requires Matched(lib, s.dir.(current := projection), query.caseId)
    ensures projection == s.dir.current && Matched(lib, s.dir, query.caseId) && OneWholeRun(s)
    ensures WroteBoth(s, s.dir.journal.lines[1].receipt)
  {
    assert Readable(s) && IsTerminal(projection) && |s.owners| == 2;
    assert s.dir.(current := projection) == s.dir;
    MatchedIsOneRun(lib, s, query.caseId);
    var p: nat :| s.owners == [p, p]
      && s.At(p) == Done(s.dir.journal.lines[0].receipt, s.dir.journal.lines[1].receipt);
    assert WroteFirst(s, p, s.dir.journal.lines[1].receipt);
  }

  /** A reader that acts fits again. */
  lemma ActingReaderFits(lib: Library, s: State, step: ReadStep, act: ReadAct)
    requires Inv(s) && ReaderFits(lib, s, step)
    ensures ReaderFits(lib, s, Reads(lib, s.dir, step, act).1)
  {
    if step.Looked? && act.Scan? && Matched(lib, s.dir.(current := step.projection), step.query.caseId) {
      ScanFindsOneRun(lib, s, step.query, step.projection);
    }
  }

  lemma NextKeepsReadInv(lib: Library, jobs: nat -> Job, s: State, e: Event)
    requires ReadInv(lib, s)
    ensures ReadInv(lib, Next(lib, jobs, s, e))
  {
    var t := Next(lib, jobs, s, e);
    NextKeepsInv(lib, jobs, s, e);
    StillJournaled(lib, jobs, s, e);
    forall r: nat ensures ReaderFits(lib, t, t.ReaderAt(r)) {
      if e.Read? && e.reader == r {
        ActingReaderFits(lib, s, s.ReaderAt(r), e.act);
        WaitingReaderFits(lib, jobs, s, e, t.ReaderAt(r));
      } else {
        WaitingReaderFits(lib, jobs, s, e, s.ReaderAt(r));
      }
    }
  }

  lemma {:induction false} RunKeepsReadInv(lib: Library, jobs: nat -> Job, s: State, events: seq<Event>)
    requires ReadInv(lib, s)
    ensures ReadInv(lib, RunAll(lib, jobs, s, events))
    decreases |events|
  {
    if events != [] {
      NextKeepsReadInv(lib, jobs, s, events[0]);
      RunKeepsReadInv(lib, jobs, Next(lib, jobs, s, events[0]), events[1..]);
    }
  }

  // ---- what a read answers -----------------------------------------------------------

  /**
   * However runs and readbacks interleave, a readback that answers does so with the terminal receipt of a
   * run that finished both appends and wrote the journal's first two lines, and any bytes it returns have
   * the recorded sizes and digests.
   */
  lemma AnswerIsOfOneRun(lib: Library, jobs: nat -> Job, s: State, events: seq<Event>, r: nat)
    requires Unused(s)
    ensures var t := RunAll(lib, jobs, s, events);
      t.ReaderAt(r).Answered? && t.ReaderAt(r).result.Success? ==>
        var reading := t.ReaderAt(r).result.value;
        && WroteBoth(t, reading.receipt)
        && (reading.contents.Some? ==>
              var c := reading.contents.value;
              Matches(lib, reading.receipt, [c.body, c.stdout, c.stderr]))
  {
    RunKeepsReadInv(lib, jobs, s, events);
    var t := RunAll(lib, jobs, s, events);
    assert ReaderFits(lib, t, t.ReaderAt(r));
  }

  /** At the moment a scan accepts, the two lines are the whole journal and the run's projection is current. */
  lemma ScanAcceptsOneWholeRun(lib: Library, jobs: nat -> Job, s: State, events: seq<Event>, r: nat)
    requires Unused(s) && RunAll(lib, jobs, s, events).ReaderAt(r).Looked?
    ensures var t := RunAll(lib, jobs, s, events);
      !Scanned(lib, t.dir, t.ReaderAt(r).query, t.ReaderAt(r).projection).Answered? ==> OneWholeRun(t)
  {
    RunKeepsReadInv(lib, jobs, s, events);
    var t := RunAll(lib, jobs, s, events);
    var reader := t.ReaderAt(r);
    assert ReaderFits(lib, t, reader);
    if Matched(lib, t.dir.(current := reader.projection), reader.query.caseId) {
      ScanFindsOneRun(lib, t, reader.query, reader.projection);
    }
  }

  /** Once a run has stopped with its dispatch line written, no scan accepts, whenever its projection was read. */
  lemma OrphanIsNeverScanned(
    lib: Library, jobs: nat -> Job, s: State, before: seq<Event>, p: nat, after: seq<Event>, r: nat)
    requires Unused(s)
    requires LeftBehind(RunAll(lib, jobs, s, before), p)
    requires forall e | e in after :: Actor(e) != Some(p)
    requires RunAll(lib, jobs, RunAll(lib, jobs, s, before), after).ReaderAt(r).Looked?
    ensures var t := RunAll(lib, jobs, RunAll(lib, jobs, s, before), after);
      Scanned(lib, t.dir, t.ReaderAt(r).query, t.ReaderAt(r).projection) == Answered(Failure(Unmatched))
  {
    var orphaned := RunAll(lib, jobs, s, before);
    RunKeepsReadInv(lib, jobs, s, before);
    RunKeepsReadInv(lib, jobs, orphaned, after);
    StillLeftBehind(lib, jobs, orphaned, p, after);
    var t := RunAll(lib, jobs, orphaned, after);
    assert ReaderFits(lib, t, t.ReaderAt(r));
    LeftBehindIsRefused(lib, t, p, t.ReaderAt(r).query, t.ReaderAt(r).projection);
  }

  lemma LeftBehindIsRefused(lib: Library, s: State, p: nat, query: Query, projection: Option<Line>)
    requires Inv(s) && ReaderFits(lib, s, Looked(query, projection)) && LeftBehind(s, p)
    ensures Scanned(lib, s.dir, query, projection) == Answered(Failure(Unmatched))
  {
    LeftBehindIsUnmatched(lib, s, p, query.caseId);
    if Matched(lib, s.dir.(current := projection), query.caseId) {
      ScanFindsOneRun(lib, s, query, projection);
    }
  }

  // ---- one read alone is the readback ---------------------------------------------------

  function ReadAll(lib: Library, dir: CaseDir, step: ReadStep, acts: seq<ReadAct>): (CaseDir, ReadStep)
    decreases |acts|
  {
    if acts == [] then (dir, step)
    else
      var next := Reads(lib, dir, step, acts[0]);
      ReadAll(lib, next.0, next.1, acts[1..])
  }

  lemma {:induction false} AnsweredStays(lib: Library, dir: CaseDir, result: Result<Reading, Error>, acts: seq<ReadAct>)
    ensures ReadAll(lib, dir, Answered(result), acts) == (dir, Answered(result))
    decreases |acts|
  {
    if acts != [] {
      AnsweredStays(lib, dir, result, acts[1..]);
    }
  }

  lemma {:induction false} ReadAppend(
    lib: Library, dir: CaseDir, step: ReadStep, first: seq<ReadAct>, second: seq<ReadAct>)
    ensures ReadAll(lib, dir, step, first + second) ==
      ReadAll(lib, ReadAll(lib, dir, step, first).0, ReadAll(lib, dir, step, first).1, second)
    decreases |first|
  {
    if first == [] {
      assert first + second == second;
    } else {
      var next := Reads(lib, dir, step, first[0]);
      ReadAppend(lib, next.0, next.1, first[1..], second);
      assert (first + second)[1..] == first[1..] + second;
    }
  }

  const TAKES: seq<ReadAct> := [Take, Take, Take]

  lemma TakesAlone(lib: Library, dir: CaseDir, query: Query, d: Receipt, t: Receipt)
    ensures ReadAll(lib, dir, Taking(query, d, t, []), TAKES) ==
      (dir, Answered(
         if ArtifactsIntact(lib, dir, t)
         then Success(Reading(t, if Expiry(d, t).Some? then Some(true) else None, Some(Raw(dir))))
         else Failure(Invalid)))
  {
    var one := Taken(lib, dir, query, d, t, []);
    assert TAKES[1..] == [Take, Take] && TAKES[1..][1..] == [Take] && TAKES[1..][1..][1..] == [];
    if one.Answered? {
      AnsweredStays(lib, dir, one.result, TAKES[1..]);
    } else {
      assert one.taken == [dir.Files()[Final(Body)]];
      var two := Taken(lib, dir, query, d, t, one.taken);
      if two.Answered? {
        AnsweredStays(lib, dir, two.result, TAKES[1..][1..]);
      } else {
        assert two.taken == [dir.Files()[Final(Body)], dir.Files()[Final(Stdout)]];
      }
    }
  }

  function Removes(n: nat): (acts: seq<ReadAct>)
    ensures |acts| == n
  {
    if n == 0 then [] else [Remove] + Removes(n - 1)
  }

  lemma WithoutTargets(files: map<File, Bytes>, targets: seq<File>)
    requires targets != []
    ensures files - {targets[0]} - (set f | f in targets[1..]) == files - (set f | f in targets)
  {
    assert (set f | f in targets) == {targets[0]} + (set f | f in targets[1..]) by {
      assert targets == [targets[0]] + targets[1..];
    }
  }

  lemma {:induction false} UnlinksAlone(lib: Library, dir: CaseDir, query: Query, t: Receipt, targets: seq<File>)
    ensures ReadAll(lib, dir, Removing(query, t, targets), Removes(|targets|)) ==
      (dir.(artifacts := if dir.artifacts == None then None else Some(dir.Files() - (set f | f in targets))),
       Removing(query, t, []))
    decreases |targets|
  {
    if targets == [] {
      assert dir.Files() - (set f | f in targets) == dir.Files();
    } else {
      var next := Removed(dir, query, t, targets).0;
      UnlinksAlone(lib, next, query, t, targets[1..]);
      assert Removes(|targets|)[1..] == Removes(|targets| - 1);
      WithoutTargets(dir.Files(), targets);
    }
  }

  lemma RemovalsAreRaw()
    ensures (set f | f in REMOVALS) == RAW && |REMOVALS| == 6
  {
  }

  lemma UnlinkedDir(dir: CaseDir, unlinked: CaseDir)
    requires unlinked == dir.(artifacts := if dir.artifacts == None then None else Some(dir.Files() - RAW))
    ensures unlinked.Files() == dir.Files() - RAW
    ensures NoForeign(dir) ==> unlinked.Files() == map[] && unlinked.(artifacts := None) == Cleaned(dir)
    ensures !NoForeign(dir) ==> unlinked.Files() != map[] && unlinked == Cleaned(dir)
  {
    assert unlinked.Files() == dir.Files() - RAW;
    NothingLeft(dir);
  }

  lemma RemovesAlone(lib: Library, dir: CaseDir, query: Query, t: Receipt)
    ensures ReadAll(lib, dir, Removing(query, t, REMOVALS), Removes(7)) ==
      (Cleaned(dir), Answered(
         if !NoForeign(dir) then Failure(Incomplete)
         else if query.requireArtifacts then Failure(Expired)
         else Success(Reading(t, Some(false), None))))
  {
    RemovalsAreRaw();
    UnlinksAlone(lib, dir, query, t, REMOVALS);
    var unlinked := ReadAll(lib, dir, Removing(query, t, REMOVALS), Removes(6)).0;
    UnlinkedDir(dir, unlinked);
    RemovesSplit(6);
    ReadAppend(lib, dir, Removing(query, t, REMOVALS), Removes(6), [Remove]);
    ReadOne(lib, unlinked, Removing(query, t, []), Remove);
  }

  lemma ReadOne(lib: Library, dir: CaseDir, step: ReadStep, act: ReadAct)
    ensures ReadAll(lib, dir, step, [act]) == Reads(lib, dir, step, act)
  {
    assert [act][1..] == [];
  }

  lemma {:induction false} RemovesSplit(n: nat)
    ensures Removes(n + 1) == Removes(n) + [Remove]
  {
    if n > 0 {
      RemovesSplit(n - 1);
    }
  }

  /** Look, scan, then whichever applies of taking three artifacts and removing six files and their directory. */
  function WholeRead(query: Query): seq<ReadAct> {
    [Look(query), Scan] + (TAKES + Removes(7))
  }

  lemma {:induction false} IdleTakes(lib: Library, dir: CaseDir, step: ReadStep, acts: seq<ReadAct>)
    requires step.Removing? && forall act | act in acts :: act.Take?
    ensures ReadAll(lib, dir, step, acts) == (dir, step)
    decreases |acts|
  {
    if acts != [] {
      assert acts[0] in acts;
      IdleTakes(lib, dir, step, acts[1..]);
    }
  }

  lemma LookAndScan(lib: Library, dir: CaseDir, query: Query, rest: seq<ReadAct>)
    ensures ReadAll(lib, dir, Away, [Look(query), Scan] + rest) ==
      ReadAll(lib, dir, Scanned(lib, dir, query, dir.current), rest)
  {
    var acts := [Look(query), Scan] + rest;
    assert acts[1..] == [Scan] + rest && ([Scan] + rest)[1..] == rest;
  }

  /** What the rest of a read makes of the scan's verdict. */
  lemma RestAlone(lib: Library, dir: CaseDir, scanned: ReadStep)
    requires scanned.Answered? || (scanned.Taking? && scanned.taken == [])
          || (scanned.Removing? && scanned.targets == REMOVALS)
    ensures var done := ReadAll(lib, dir, scanned, TAKES + Removes(7));
      && (scanned.Answered? ==> done == (dir, scanned))
      && (scanned.Taking? ==> done == ReadAll(lib, dir, scanned, TAKES))
      && (scanned.Removing? ==> done == ReadAll(lib, dir, scanned, Removes(7)))
  {
    ReadAppend(lib, dir, scanned, TAKES, Removes(7));
    match scanned
    case Answered(result) => AnsweredStays(lib, dir, result, TAKES + Removes(7));
    case Taking(query, d, t, _) =>
      TakesAlone(lib, dir, query, d, t);
      AnsweredStays(lib, dir, ReadAll(lib, dir, scanned, TAKES).1.result, Removes(7));
    case Removing(_, _, _) => IdleTakes(lib, dir, scanned, TAKES);
  }

  /** A readback that nothing interrupts answers and leaves behind exactly what the sequential readback does. */
  lemma AloneIsTheReadback(lib: Library, dir: CaseDir, query: Query)
    ensures ReadAll(lib, dir, Away, WholeRead(query)) ==
      (Readback(lib, dir, query).dir, Answered(Readback(lib, dir, query).result))
  {
    var scanned := Scanned(lib, dir, query, dir.current);
    LookAndScan(lib, dir, query, TAKES + Removes(7));
    RestAlone(lib, dir, scanned);
    assert dir.(current := dir.current) == dir;
    match scanned
    case Answered(_) =>
    case Taking(_, d, t, _) => TakesAlone(lib, dir, query, d, t);
    case Removing(_, t, _) => RemovesAlone(lib, dir, query, t);
  }

  function ReadEvents(r: nat, acts: seq<ReadAct>): seq<Event> {
    if acts == [] then [] else [Read(r, acts[0])] + ReadEvents(r, acts[1..])
  }

  /** The same in the protocol. */
  lemma {:induction false} ReadsRun(lib: Library, jobs: nat -> Job, s: State, r: nat, acts: seq<ReadAct>)
    ensures var t := RunAll(lib, jobs, s, ReadEvents(r, acts));
      t.dir == ReadAll(lib, s.dir, s.ReaderAt(r), acts).0 && t.ReaderAt(r) == ReadAll(lib, s.dir, s.ReaderAt(r), acts).1
    decreases |acts|
  {
    if acts != [] {
      ReadsRun(lib, jobs, Next(lib, jobs, s, Read(r, acts[0])), r, acts[1..]);
      assert ReadEvents(r, acts)[1..] == ReadEvents(r, acts[1..]);
    }
  }
}
