// runtime/harness_runtime/runtime.py: any number of runs on one case id and any
// number of readbacks, all of them one file step at a time.
//
// A run or a read that stops is one that no later event names; a retry is another
// run. The journal append may also stop half way.

module JournalProtocol {
  import opened Wrappers
  import opened Json
  import opened RuntimeRecords
  import opened Receipts
  import opened ReceiptProperties

  datatype FileStep = WriteTemporary(slot: Slot, content: Bytes) | Rename(slot: Slot) | Digest(slot: Slot)

  /** Which of its two receipts a run is working on. */
  datatype Stage = Opening | Closing(dispatch: Receipt, ending: Ending)

  datatype Step =
    | Idle
    | Storing(stage: Stage, todo: seq<FileStep>, digests: map<Slot, Artifact>)
    | Appending(stage: Stage, receipt: Receipt)
    | WritingProjection(stage: Stage, receipt: Receipt)
    | Replacing(stage: Stage, receipt: Receipt)
    | Running(dispatch: Receipt)
    | Done(dispatch: Receipt, terminal: Receipt)
    | Stopped

  /** Where a readback stands: projection read, then journal read and judged, then artifacts read or removed. */
  datatype ReadStep =
    | Away
    | Looked(query: Query, projection: Option<Line>)
    | Taking(query: Query, dispatch: Receipt, terminal: Receipt, taken: seq<Bytes>)
    | Removing(query: Query, terminal: Receipt, targets: seq<File>)
    | Answered(result: Result<Reading, Error>)

  /** `temporary` is `current.tmp`; `owners` remembers which run wrote each journal line. */
  datatype State = State(
    dir: CaseDir, temporary: Option<Line>, steps: map<nat, Step>, owners: seq<nat>, readers: map<nat, ReadStep>)
  {
    function At(p: nat): Step {
      if p in steps then steps[p] else Idle
    }

    function ReaderAt(r: nat): ReadStep {
      if r in readers then readers[r] else Away
    }

    function Move(p: nat, step: Step): State {
      this.(steps := steps[p := step])
    }
  }

  /** How far an append gets: all of the line, all but its newline, or less. */
  datatype Reach = Whole | Unended | Torn

  datatype ReadAct = Look(query: Query) | Scan | Take | Remove

  datatype Event =
    | Start(p: nat)
    | Touch(p: nat)
    | Compose(p: nat, at: int)
    | Append(p: nat, reach: Reach)
    | WriteProjection(p: nat)
    | Replace(p: nat)
    | Finish(p: nat, ending: Ending)
    | Read(reader: nat, act: ReadAct)

  function StoreSteps(slot: Slot, content: Bytes): seq<FileStep> {
    [WriteTemporary(slot, content), Rename(slot)]
  }

  const DIGESTS: seq<FileStep> := [Digest(Body), Digest(Stdout), Digest(Stderr)]

  function OpeningSteps(job: Job): seq<FileStep> {
    StoreSteps(Body, job.body) + StoreSteps(Stdout, []) + StoreSteps(Stderr, []) + DIGESTS
  }

  function ClosingSteps(ending: Ending): seq<FileStep> {
    StoreSteps(Stdout, ending.stdout) + StoreSteps(Stderr, ending.stderr) + DIGESTS
  }

  /** One file operation; None when the file it needs is gone. */
  function Perform(lib: Library, dir: CaseDir, step: FileStep, digests: map<Slot, Artifact>)
    : Option<(CaseDir, map<Slot, Artifact>)>
  {
    var files := dir.Files();
    match step
    case WriteTemporary(slot, content) => Some((dir.(artifacts := Some(files[Temporary(slot) := content])), digests))
    case Rename(slot) =>
      if Temporary(slot) !in files then None
      else Some((dir.(artifacts := Some((files - {Temporary(slot)})[Final(slot) := files[Temporary(slot)]])), digests))
    case Digest(slot) =>
      if Final(slot) !in files then None else Some((dir, digests[slot := Measured(lib, files[Final(slot)])]))
  }

  /** The receipt made from the digests; None when the evaluator's output is refused. */
  function Composed(lib: Library, job: Job, stage: Stage, digests: map<Slot, Artifact>, at: int): Option<Receipt> {
    if Body !in digests || Stdout !in digests || Stderr !in digests then None
    else
      var artifacts := Artifacts(digests[Body], digests[Stdout], digests[Stderr]);
      match stage
      case Opening => Some(DispatchOf(job, artifacts, at))
      case Closing(_, ending) =>
        var evaluated := Evaluated(lib, job, ending);
        if evaluated.Failure? then None
        else Some(TerminalOf(job, artifacts, ending.exitCode, evaluated.value, at))
  }

  /** The journal after an append that gets so far. */
  function AppendedUpTo(journal: Journal, receipt: Receipt, reach: Reach): Journal {
    Appended(journal, if reach == Torn then Unreadable else Entry(receipt)).(unterminated := reach != Whole)
  }

  predicate Merges(journal: Journal) {
    journal.unterminated && journal.lines != []
  }

  /** The journal judged against the projection that was read before it. */
  function Scanned(lib: Library, dir: CaseDir, query: Query, projection: Option<Line>): ReadStep {
    if !Matched(lib, dir.(current := projection), query.caseId) then Answered(Failure(Unmatched))
    else
      var d, t := dir.journal.lines[0].receipt, dir.journal.lines[1].receipt;
      if !Expected(t, query) then Answered(Failure(Invalid))
      else if HasExpired(d, t, query.readAt) then Removing(query, t, REMOVALS)
      else Taking(query, d, t, [])
  }

  const SLOTS: seq<Slot> := [Body, Stdout, Stderr]

  const REMOVALS: seq<File> :=
    [Final(Body), Temporary(Body), Final(Stdout), Temporary(Stdout), Final(Stderr), Temporary(Stderr)]

  function RecordedFor(t: Receipt, slot: Slot): Artifact {
    match slot
    case Body => t.artifacts.body
    case Stdout => t.artifacts.stdout
    case Stderr => t.artifacts.stderr
  }

  /** The next artifact read and compared; after the last one, the evaluator's own bytes too. */
  function Taken(lib: Library, dir: CaseDir, query: Query, d: Receipt, t: Receipt, taken: seq<Bytes>): ReadStep {
    if |taken| >= 3 || Final(SLOTS[|taken|]) !in dir.Files()
       || Measured(lib, dir.Files()[Final(SLOTS[|taken|])]) != RecordedFor(t, SLOTS[|taken|])
    then Answered(Failure(Invalid))
    else
      var more := taken + [dir.Files()[Final(SLOTS[|taken|])]];
      if |more| < 3 then Taking(query, d, t, more)
      else if t.evaluatorResult.Some? && lib.decodeResult(more[1]) != t.evaluatorResult then Answered(Failure(Invalid))
      else
        Answered(Success(Reading(t, if Expiry(d, t).Some? then Some(true) else None,
                                 Some(Contents(more[0], more[1], more[2])))))
  }

  /** One unlink, or at last the directory itself. */
  function Removed(dir: CaseDir, query: Query, t: Receipt, targets: seq<File>): (CaseDir, ReadStep) {
    if targets != [] then
      (dir.(artifacts := if dir.artifacts == None then None else Some(dir.Files() - {targets[0]})),
       Removing(query, t, targets[1..]))
    else if dir.Files() != map[] then (dir, Answered(Failure(Incomplete)))
    else
      (dir.(artifacts := None),
       Answered(if query.requireArtifacts then Failure(Expired) else Success(Reading(t, Some(false), None))))
  }

  function Reads(lib: Library, dir: CaseDir, step: ReadStep, act: ReadAct): (r: (CaseDir, ReadStep))
    ensures r.0.journal == dir.journal && r.0.current == dir.current
  {
    match (step, act)
    case (Away, Look(query)) => (dir, Looked(query, dir.current))
    case (Looked(query, projection), Scan) => (dir, Scanned(lib, dir, query, projection))
    case (Taking(query, d, t, taken), Take) => (dir, Taken(lib, dir, query, d, t, taken))
    case (Removing(query, t, targets), Remove) => Removed(dir, query, t, targets)
    case _ => (dir, step)
  }

  function Next(lib: Library, jobs: nat -> Job, s: State, e: Event): State {
    match e
    case Start(p) =>
      if !s.At(p).Idle? then s
      else if s.dir.current.Some? then s.Move(p, Stopped)
      else s.Move(p, Storing(Opening, OpeningSteps(jobs(p)), map[]))
    case Touch(p) =>
      if !s.At(p).Storing? || s.At(p).todo == [] then s
      else
        (match Perform(lib, s.dir, s.At(p).todo[0], s.At(p).digests)
         case None => s.Move(p, Stopped)
         case Some((dir, digests)) => s.Move(p, Storing(s.At(p).stage, s.At(p).todo[1..], digests)).(dir := dir))
    case Compose(p, at) =>
      if !s.At(p).Storing? || s.At(p).todo != [] then s
      else
        (match Composed(lib, jobs(p), s.At(p).stage, s.At(p).digests, at)
         case None => s.Move(p, Stopped)
         case Some(receipt) => s.Move(p, Appending(s.At(p).stage, receipt)))
    case Append(p, reach) =>
      if !s.At(p).Appending? then s
      else
        s.Move(p, if reach == Whole then WritingProjection(s.At(p).stage, s.At(p).receipt) else Stopped)
         .(dir := s.dir.(journal := AppendedUpTo(s.dir.journal, s.At(p).receipt, reach)),
           owners := if Merges(s.dir.journal) then s.owners else s.owners + [p])
    case WriteProjection(p) =>
      if !s.At(p).WritingProjection? then s
      else s.Move(p, Replacing(s.At(p).stage, s.At(p).receipt)).(temporary := Some(Entry(s.At(p).receipt)))
    case Replace(p) =>
      if !s.At(p).Replacing? then s
      else if s.temporary == None then s.Move(p, Stopped)
      else
        s.Move(p, if s.At(p).stage.Opening? then Running(s.At(p).receipt)
                  else Done(s.At(p).stage.dispatch, s.At(p).receipt))
         .(dir := s.dir.(current := s.temporary), temporary := None)
    case Finish(p, ending) =>
      if !s.At(p).Running? then s
      else s.Move(p, Storing(Closing(s.At(p).dispatch, ending), ClosingSteps(ending), map[]))
    case Read(r, act) =>
      var read := Reads(lib, s.dir, s.ReaderAt(r), act);
      s.(dir := read.0, readers := s.readers[r := read.1])
  }

  function RunAll(lib: Library, jobs: nat -> Job, s: State, events: seq<Event>): State
    decreases |events|
  {
    if events == [] then s else RunAll(lib, jobs, Next(lib, jobs, s, events[0]), events[1..])
  }

  lemma {:induction false} RunAppend(
    lib: Library, jobs: nat -> Job, s: State, before: seq<Event>, after: seq<Event>)
    ensures RunAll(lib, jobs, s, before + after) == RunAll(lib, jobs, RunAll(lib, jobs, s, before), after)
    decreases |before|
  {
    if before == [] {
      assert before + after == after;
    } else {
      RunAppend(lib, jobs, Next(lib, jobs, s, before[0]), before[1..], after);
      assert (before + after)[1..] == before[1..] + after;
    }
  }

  /** No receipt written yet; artifacts of any kind may lie about. */
  predicate Unused(s: State) {
    s.dir.journal == Journal([], false) && s.dir.current == None && s.temporary == None
    && s.steps == map[] && s.owners == [] && s.readers == map[]
  }

  // ---- the invariant ------------------------------------------------------------------

  predicate Readable(s: State) {
    forall line | line in s.dir.journal.lines :: line.Entry?
  }

  predicate IsTerminal(line: Option<Line>) {
    line.Some? && line.value.Entry? && line.value.receipt.event == TerminalEvent
  }

  /** A run past its first append has a line, unless some line is unreadable. */
  predicate PastDispatch(step: Step) {
    match step
    case Storing(stage, _, _) => stage.Closing?
    case Appending(stage, _) => stage.Closing?
    case WritingProjection(_, _) => true
    case Replacing(_, _) => true
    case Running(_) => true
    case Done(_, _) => true
    case _ => false
  }

  /** The dispatch receipt a run remembers. */
  function DispatchAt(step: Step): Option<Receipt> {
    match step
    case Storing(Closing(d, _), _, _) => Some(d)
    case Appending(Closing(d, _), _) => Some(d)
    case WritingProjection(stage, receipt) => Some(if stage.Closing? then stage.dispatch else receipt)
    case Replacing(stage, receipt) => Some(if stage.Closing? then stage.dispatch else receipt)
    case Running(d) => Some(d)
    case Done(d, _) => Some(d)
    case _ => None
  }

  /** The terminal receipt a run has appended. */
  function TerminalAt(step: Step): Option<Receipt> {
    match step
    case WritingProjection(Closing(_, _), receipt) => Some(receipt)
    case Replacing(Closing(_, _), receipt) => Some(receipt)
    case Done(_, t) => Some(t)
    case _ => None
  }

  predicate ReceiptFits(step: Step) {
    match step
    case Appending(stage, receipt) => receipt.event == (if stage.Opening? then Dispatch else TerminalEvent)
    case WritingProjection(stage, receipt) => receipt.event == (if stage.Opening? then Dispatch else TerminalEvent)
    case Replacing(stage, receipt) => receipt.event == (if stage.Opening? then Dispatch else TerminalEvent)
    case _ => true
  }

  /** What a line says about the run that wrote it. */
  predicate LineFits(line: Line, step: Step) {
    line.Entry? ==>
      if line.receipt.event == Dispatch then step.Stopped? || DispatchAt(step) == Some(line.receipt)
      else step.Stopped? || TerminalAt(step) == Some(line.receipt)
  }

  /** While one run alone has written lines, the projection shows how far it is. */
  predicate ProjectionFits(s: State, step: Step) {
    match step
    case Replacing(_, receipt) => s.temporary == Some(Entry(receipt)) && !IsTerminal(s.dir.current)
    case Done(_, _) => true
    case _ => s.temporary == None && !IsTerminal(s.dir.current)
  }

  ghost predicate OwnedBy(s: State, p: nat) {
    Readable(s) && forall owner | owner in s.owners :: owner == p
  }

  /** Every line has an owner, and says what its owner has done. */
  ghost predicate Owned(s: State) {
    && |s.owners| == |s.dir.journal.lines|
    && (forall p: nat :: ReceiptFits(s.At(p)))
    && (forall i | 0 <= i < |s.owners| :: LineFits(s.dir.journal.lines[i], s.At(s.owners[i])))
  }

  /** While every line is readable, a run past its dispatch has a line, and its terminal line comes later. */
  ghost predicate Ordered(s: State)
    requires |s.owners| == |s.dir.journal.lines|
  {
    Readable(s) ==>
      && (forall p: nat | PastDispatch(s.At(p)) :: p in s.owners)
      && (forall i | 0 <= i < |s.owners| && IsTerminal(Some(s.dir.journal.lines[i])) :: s.owners[i] in s.owners[..i])
  }

  ghost predicate Inv(s: State) {
    Owned(s) && Ordered(s) && forall p: nat | OwnedBy(s, p) :: ProjectionFits(s, s.At(p))
  }

  /** Which run an event belongs to; a step of a readback belongs to none. */
  function Actor(e: Event): Option<nat> {
    match e
    case Start(p) => Some(p)
    case Touch(p) => Some(p)
    case Compose(p, _) => Some(p)
    case Append(p, _) => Some(p)
    case WriteProjection(p) => Some(p)
    case Replace(p) => Some(p)
    case Finish(p, _) => Some(p)
    case Read(_, _) => None
  }

  /** The journal only grows, unreadable lines stay unreadable, and other runs stay where they are. */
  lemma NextKeeps(lib: Library, jobs: nat -> Job, s: State, e: Event)
    requires |s.owners| == |s.dir.journal.lines|
    ensures var t := Next(lib, jobs, s, e);
      && |t.owners| == |t.dir.journal.lines|
      && s.owners <= t.owners && (forall owner | owner in s.owners :: owner in t.owners)
      && (Readable(t) ==> s.dir.journal.lines <= t.dir.journal.lines)
      && (Readable(t) ==> Readable(s))
      && (forall p: nat | Some(p) != Actor(e) :: t.At(p) == s.At(p))
  {
    var t := Next(lib, jobs, s, e);
    if e.Append? && s.At(e.p).Appending? {
      var lines := s.dir.journal.lines;
      if Merges(s.dir.journal) {
        MergeIsUnreadable(lib, jobs, s, e.p, e.reach);
      } else {
        forall line | line in lines ensures line in t.dir.journal.lines {}
      }
    }
  }

  lemma StillOwned(lib: Library, jobs: nat -> Job, s: State, e: Event)
    requires Owned(s)
    ensures Owned(Next(lib, jobs, s, e))
  {
    var t := Next(lib, jobs, s, e);
    NextKeeps(lib, jobs, s, e);
    forall p: nat ensures ReceiptFits(t.At(p)) {
      assert ReceiptFits(s.At(p));
    }
    forall i | 0 <= i < |t.owners| ensures LineFits(t.dir.journal.lines[i], t.At(t.owners[i])) {
      LineStillFits(lib, jobs, s, e, i);
    }
  }

  lemma LineStillFits(lib: Library, jobs: nat -> Job, s: State, e: Event, i: nat)
    requires Owned(s)
    requires i < |Next(lib, jobs, s, e).owners| == |Next(lib, jobs, s, e).dir.journal.lines|
    ensures LineFits(Next(lib, jobs, s, e).dir.journal.lines[i],
                     Next(lib, jobs, s, e).At(Next(lib, jobs, s, e).owners[i]))
  {
    if i == |s.owners| {
      assert ReceiptFits(s.At(e.p));
    } else {
      assert LineFits(s.dir.journal.lines[i], s.At(s.owners[i]));
      OldLineStands(lib, jobs, s, e, i);
      if Actor(e) == Some(s.owners[i]) {
        StepKeepsWhatIsWritten(lib, jobs, s, e, s.owners[i]);
      } else {
        NextKeeps(lib, jobs, s, e);
      }
    }
  }

  lemma OldLineStands(lib: Library, jobs: nat -> Job, s: State, e: Event, i: nat)
    requires |s.owners| == |s.dir.journal.lines| && i < |s.owners|
    ensures var t := Next(lib, jobs, s, e);
      i < |t.owners| && t.owners[i] == s.owners[i] && i < |t.dir.journal.lines|
      && (t.dir.journal.lines[i] == s.dir.journal.lines[i] || t.dir.journal.lines[i] == Unreadable)
  {
  }

  /** A run forgets neither receipt it has written, unless it stops. */
  lemma StepKeepsWhatIsWritten(lib: Library, jobs: nat -> Job, s: State, e: Event, p: nat)
    requires Actor(e) == Some(p)
    ensures var t := Next(lib, jobs, s, e);
      t.At(p).Stopped?
      || ((DispatchAt(s.At(p)).Some? ==> DispatchAt(t.At(p)) == DispatchAt(s.At(p)))
          && (TerminalAt(s.At(p)).Some? ==> TerminalAt(t.At(p)) == TerminalAt(s.At(p))))
  {
  }

  lemma StillOrdered(lib: Library, jobs: nat -> Job, s: State, e: Event)
    requires Owned(s) && Ordered(s)
    requires |Next(lib, jobs, s, e).owners| == |Next(lib, jobs, s, e).dir.journal.lines|
    ensures Ordered(Next(lib, jobs, s, e))
  {
    var t := Next(lib, jobs, s, e);
    NextKeeps(lib, jobs, s, e);
    if Readable(t) {
      forall p: nat | PastDispatch(t.At(p)) ensures p in t.owners {
        if PastDispatch(s.At(p)) {
          assert p in s.owners;
        } else {
          AppendLeavesATrace(lib, jobs, s, p, e.reach);
        }
      }
      forall i | 0 <= i < |t.owners| && IsTerminal(Some(t.dir.journal.lines[i])) ensures t.owners[i] in t.owners[..i] {
        TerminalFollows(lib, jobs, s, e, i);
      }
    }
  }

  lemma TerminalFollows(lib: Library, jobs: nat -> Job, s: State, e: Event, i: nat)
    requires Owned(s) && Ordered(s)
    requires var t := Next(lib, jobs, s, e);
      && |t.owners| == |t.dir.journal.lines| && s.owners <= t.owners && Readable(s) && Readable(t)
      && s.dir.journal.lines <= t.dir.journal.lines
      && i < |t.owners| && IsTerminal(Some(t.dir.journal.lines[i]))
    ensures Next(lib, jobs, s, e).owners[i] in Next(lib, jobs, s, e).owners[..i]
  {
    var t := Next(lib, jobs, s, e);
    if i < |s.owners| {
      assert t.dir.journal.lines[i] == s.dir.journal.lines[i];
      assert t.owners[..i] == s.owners[..i];
    } else {
      assert ReceiptFits(s.At(e.p));
      assert t.owners[..i] == s.owners;
    }
  }

  lemma NextKeepsInv(lib: Library, jobs: nat -> Job, s: State, e: Event)
    requires Inv(s)
    ensures Inv(Next(lib, jobs, s, e))
  {
    var t := Next(lib, jobs, s, e);
    StillOwned(lib, jobs, s, e);
    StillOrdered(lib, jobs, s, e);
    forall p: nat | OwnedBy(t, p) ensures ProjectionFits(t, t.At(p)) {
      ProjectionStillFits(lib, jobs, s, e, p);
    }
  }

  lemma ProjectionStillFits(lib: Library, jobs: nat -> Job, s: State, e: Event, p: nat)
    requires Inv(s) && OwnedBy(Next(lib, jobs, s, e), p)
    ensures ProjectionFits(Next(lib, jobs, s, e), Next(lib, jobs, s, e).At(p))
  {
    NextKeeps(lib, jobs, s, e);
    assert OwnedBy(s, p);
    assert ProjectionFits(s, s.At(p));
    assert ReceiptFits(s.At(p));
    if Actor(e).Some? && Actor(e) != Some(p) {
      var q := Actor(e).value;
      assert PastDispatch(s.At(q)) ==> q in s.owners;
    }
  }

  lemma {:induction false} RunKeepsInv(lib: Library, jobs: nat -> Job, s: State, events: seq<Event>)
    requires Inv(s)
    ensures Inv(RunAll(lib, jobs, s, events))
    decreases |events|
  {
    if events != [] {
      NextKeepsInv(lib, jobs, s, events[0]);
      RunKeepsInv(lib, jobs, Next(lib, jobs, s, events[0]), events[1..]);
    }
  }

  // ---- crash safety ------------------------------------------------------------------------

  /** The journal is one run's dispatch and terminal line, and that run finished both appends. */
  ghost predicate OneWholeRun(s: State) {
    && |s.dir.journal.lines| == 2 && s.dir.journal.lines[0].Entry? && s.dir.journal.lines[1].Entry?
    && s.dir.current == Some(s.dir.journal.lines[1])
    && exists p: nat ::
         s.owners == [p, p] && s.At(p) == Done(s.dir.journal.lines[0].receipt, s.dir.journal.lines[1].receipt)
  }

  lemma MatchedIsOneRun(lib: Library, s: State, caseId: string)
    requires Inv(s) && Matched(lib, s.dir, caseId)
    ensures OneWholeRun(s)
  {
    var lines := s.dir.journal.lines;
    var p := s.owners[1];
    assert Readable(s);
    assert IsTerminal(Some(lines[1]));
    assert s.owners[..1] == [s.owners[0]];
    assert s.owners == [p, p];
    assert OwnedBy(s, p);
    assert ProjectionFits(s, s.At(p));
    assert LineFits(lines[0], s.At(s.owners[0])) && LineFits(lines[1], s.At(s.owners[1]));
  }

  /** Whatever the interleaving and wherever runs stop, the readback accepts only one whole run. */
  lemma AcceptedIsOneRun(lib: Library, jobs: nat -> Job, s: State, events: seq<Event>, q: Query)
    requires Unused(s)
    ensures var t := RunAll(lib, jobs, s, events);
      Readback(lib, t.dir, q).result.Success? ==> OneWholeRun(t)
  {
    RunKeepsInv(lib, jobs, s, events);
    var t := RunAll(lib, jobs, s, events);
    if Readback(lib, t.dir, q).result.Success? {
      MatchedIsOneRun(lib, t, q.caseId);
    }
  }

  /** A run that has begun its dispatch line, or spoilt another one, without finishing. */
  predicate LeftBehind(s: State, p: nat) {
    (p in s.owners || !Readable(s)) && !s.At(p).Done?
  }

  lemma MergeIsUnreadable(lib: Library, jobs: nat -> Job, s: State, p: nat, reach: Reach)
    requires s.At(p).Appending? && Merges(s.dir.journal)
    ensures !Readable(Next(lib, jobs, s, Append(p, reach)))
  {
    var lines := Next(lib, jobs, s, Append(p, reach)).dir.journal.lines;
    assert lines[|lines| - 1] in lines && !lines[|lines| - 1].Entry?;
  }

  lemma AppendLeavesATrace(lib: Library, jobs: nat -> Job, s: State, p: nat, reach: Reach)
    requires s.At(p).Appending? && |s.owners| == |s.dir.journal.lines|
    ensures LeftBehind(Next(lib, jobs, s, Append(p, reach)), p)
  {
    var t := Next(lib, jobs, s, Append(p, reach));
    if Merges(s.dir.journal) {
      MergeIsUnreadable(lib, jobs, s, p, reach);
    }
  }

  lemma {:induction false} StillLeftBehind(lib: Library, jobs: nat -> Job, s: State, p: nat, events: seq<Event>)
    requires LeftBehind(s, p) && |s.owners| == |s.dir.journal.lines|
    requires forall e | e in events :: Actor(e) != Some(p)
    ensures LeftBehind(RunAll(lib, jobs, s, events), p)
    decreases |events|
  {
    if events != [] {
      assert events[0] in events;
      NextKeeps(lib, jobs, s, events[0]);
      StillLeftBehind(lib, jobs, Next(lib, jobs, s, events[0]), p, events[1..]);
    }
  }

  /** Once a run stops with its dispatch line written, no retry and no reader ever makes the case acceptable. */
  lemma OrphanIsNeverAccepted(
    lib: Library, jobs: nat -> Job, s: State, before: seq<Event>, p: nat, after: seq<Event>, q: Query)
    requires Unused(s)
    requires LeftBehind(RunAll(lib, jobs, s, before), p)
    requires forall e | e in after :: Actor(e) != Some(p)
    ensures Readback(lib, RunAll(lib, jobs, RunAll(lib, jobs, s, before), after).dir, q).result.Failure?
  {
    var orphaned := RunAll(lib, jobs, s, before);
    RunKeepsInv(lib, jobs, s, before);
    RunKeepsInv(lib, jobs, orphaned, after);
    StillLeftBehind(lib, jobs, orphaned, p, after);
    LeftBehindIsUnmatched(lib, RunAll(lib, jobs, orphaned, after), p, q.caseId);
  }

  lemma LeftBehindIsUnmatched(lib: Library, s: State, p: nat, caseId: string)
    requires Inv(s) && LeftBehind(s, p)
    ensures !Matched(lib, s.dir, caseId)
  {
    if Matched(lib, s.dir, caseId) {
      MatchedIsOneRun(lib, s, caseId);
    }
  }
}
