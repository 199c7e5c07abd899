// Whose bytes an accepted case holds: concurrent runs share the artifact files, so
// a run can digest what another run put in place of its own.

module JournalBytes {
  import opened Wrappers
  import opened Json
  import opened RuntimeRecords
  import opened Receipts
  import opened ReceiptProperties
  import opened JournalProtocol
  import opened JournalAlone
  import opened JournalReads

  // ---- where bytes come from -------------------------------------------------------

  /** Bytes that lay there before, or the write of a run: before its command, or with the command's output. */
  datatype Origin = Found(content: Bytes) | By(run: nat, closing: bool)

  /** The origin of each artifact file, the outcome of each command, and what each run digested last. */
  datatype Trail = Trail(
    origins: map<File, Origin>, endings: map<nat, Ending>, sources: map<(nat, Slot), Origin>)

  const NO_TRAIL := Trail(map[], map[], map[])

  function OriginOf(trail: Trail, files: map<File, Bytes>, file: File): Origin
    requires file in files
  {
    if file in trail.origins then trail.origins[file] else Found(files[file])
  }

  /** What a run stores in a slot at each of its two stages. */
  function Stored(job: Job, ending: Ending, slot: Slot, closing: bool): Bytes {
    match slot
    case Body => job.body
    case Stdout => if closing then ending.stdout else []
    case Stderr => if closing then ending.stderr else []
  }

  /** The bytes that an origin stands for. */
  function ContentOf(jobs: nat -> Job, trail: Trail, slot: Slot, origin: Origin): Bytes {
    match origin
    case Found(content) => content
    case By(run, closing) =>
      Stored(jobs(run), if run in trail.endings then trail.endings[run] else Ending(0, [], []), slot, closing)
  }

  /** How a step of the protocol extends the trail. */
  function Followed(lib: Library, s: State, trail: Trail, e: Event): Trail {
    match e
    case Touch(p) =>
      if !s.At(p).Storing? || s.At(p).todo == [] || Perform(lib, s.dir, s.At(p).todo[0], s.At(p).digests) == None
      then trail
      else
        (match s.At(p).todo[0]
         case WriteTemporary(slot, _) =>
           trail.(origins := trail.origins[Temporary(slot) := By(p, s.At(p).stage.Closing?)])
         case Rename(slot) =>
           trail.(origins := trail.origins[Final(slot) := OriginOf(trail, s.dir.Files(), Temporary(slot))])
         case Digest(slot) =>
           trail.(sources := trail.sources[(p, slot) := OriginOf(trail, s.dir.Files(), Final(slot))]))
    case Finish(p, ending) =>
      if s.At(p).Running? then trail.(endings := trail.endings[p := ending]) else trail
    case _ => trail
  }

  function FollowAll(lib: Library, jobs: nat -> Job, s: State, trail: Trail, events: seq<Event>): Trail
    decreases |events|
  {
    if events == [] then trail
    else FollowAll(lib, jobs, Next(lib, jobs, s, events[0]), Followed(lib, s, trail, events[0]), events[1..])
  }

  // ---- the trail tells the truth ---------------------------------------------------------

  /** An ending is set once, when the command ends, and a closing write comes after it. */
  predicate Dated(trail: Trail, origin: Origin) {
    origin.By? && origin.closing ==> origin.run in trail.endings
  }

  predicate StepDated(trail: Trail, p: nat, step: Step) {
    match step
    case Idle => p !in trail.endings
    case Running(_) => p !in trail.endings
    case Storing(stage, _, _) => StageDated(trail, p, stage)
    case Appending(stage, _) => StageDated(trail, p, stage)
    case WritingProjection(stage, _) => StageDated(trail, p, stage)
    case Replacing(stage, _) => StageDated(trail, p, stage)
    case _ => true
  }

  predicate StageDated(trail: Trail, p: nat, stage: Stage) {
    if stage.Closing? then p in trail.endings && trail.endings[p] == stage.ending else p !in trail.endings
  }

  /** Every artifact file holds what its origin stands for. */
  ghost predicate FilesTrue(jobs: nat -> Job, s: State, trail: Trail) {
    forall file | file in s.dir.Files() && !file.Foreign? ::
      Dated(trail, OriginOf(trail, s.dir.Files(), file))
      && s.dir.Files()[file] == ContentOf(jobs, trail, file.slot, OriginOf(trail, s.dir.Files(), file))
  }

  /** What a run is still to write is its own. */
  predicate TodoTrue(jobs: nat -> Job, trail: Trail, p: nat, step: Step) {
    step.Storing? ==>
      forall i | 0 <= i < |step.todo| && step.todo[i].WriteTemporary? ::
        step.todo[i].content == ContentOf(jobs, trail, step.todo[i].slot, By(p, step.stage.Closing?))
  }

  predicate SourceTrue(lib: Library, jobs: nat -> Job, trail: Trail, p: nat, slot: Slot, artifact: Artifact) {
    && (p, slot) in trail.sources && Dated(trail, trail.sources[(p, slot)])
    && artifact == Measured(lib, ContentOf(jobs, trail, slot, trail.sources[(p, slot)]))
  }

  predicate ArtifactsTrue(lib: Library, jobs: nat -> Job, trail: Trail, p: nat, artifacts: Artifacts) {
    && SourceTrue(lib, jobs, trail, p, Body, artifacts.body)
    && SourceTrue(lib, jobs, trail, p, Stdout, artifacts.stdout)
    && SourceTrue(lib, jobs, trail, p, Stderr, artifacts.stderr)
  }

  /** Digests and terminal receipts measure what the run's sources stand for. */
  predicate DigestsTrue(lib: Library, jobs: nat -> Job, trail: Trail, p: nat, step: Step) {
    match step
    case Storing(_, _, digests) =>
      forall slot | slot in digests :: SourceTrue(lib, jobs, trail, p, slot, digests[slot])
    case Appending(Closing(_, _), receipt) => ArtifactsTrue(lib, jobs, trail, p, receipt.artifacts)
    case WritingProjection(Closing(_, _), receipt) => ArtifactsTrue(lib, jobs, trail, p, receipt.artifacts)
    case Replacing(Closing(_, _), receipt) => ArtifactsTrue(lib, jobs, trail, p, receipt.artifacts)
    case Done(_, receipt) => p in trail.endings && ArtifactsTrue(lib, jobs, trail, p, receipt.artifacts)
    case _ => true
  }

  ghost predicate StepTrue(lib: Library, jobs: nat -> Job, trail: Trail, p: nat, step: Step) {
    StepDated(trail, p, step) && TodoTrue(jobs, trail, p, step) && DigestsTrue(lib, jobs, trail, p, step)
  }

  ghost predicate TrailTrue(lib: Library, jobs: nat -> Job, s: State, trail: Trail) {
    && FilesTrue(jobs, s, trail)
    && forall p: nat :: StepTrue(lib, jobs, trail, p, s.At(p))
  }

  // ---- every step keeps it true ----------------------------------------------------------

  predicate Extends(trail: Trail, longer: Trail) {
    forall run | run in trail.endings :: run in longer.endings && longer.endings[run] == trail.endings[run]
  }

  lemma FollowedExtends(lib: Library, s: State, trail: Trail, e: Event)
    requires e.Finish? ==> StepDated(trail, e.p, s.At(e.p))
    ensures Extends(trail, Followed(lib, s, trail, e))
  {
  }

  lemma ContentStands(jobs: nat -> Job, trail: Trail, longer: Trail, slot: Slot, origin: Origin)
    requires Extends(trail, longer) && Dated(trail, origin)
    ensures Dated(longer, origin) && ContentOf(jobs, longer, slot, origin) == ContentOf(jobs, trail, slot, origin)
  {
  }

  /** Files that stay as they are, with the origins they had, stay true. */
  lemma KeptFilesTrue(jobs: nat -> Job, s: State, trail: Trail, t: State, longer: Trail, file: File)
    requires FilesTrue(jobs, s, trail) && Extends(trail, longer) && !file.Foreign?
    requires file in s.dir.Files() && file in t.dir.Files() && t.dir.Files()[file] == s.dir.Files()[file]
    requires OriginOf(longer, t.dir.Files(), file) == OriginOf(trail, s.dir.Files(), file)
    ensures Dated(longer, OriginOf(longer, t.dir.Files(), file))
    ensures t.dir.Files()[file] == ContentOf(jobs, longer, file.slot, OriginOf(longer, t.dir.Files(), file))
  {
    ContentStands(jobs, trail, longer, file.slot, OriginOf(trail, s.dir.Files(), file));
  }

  lemma PerformedFilesTrue(lib: Library, jobs: nat -> Job, s: State, trail: Trail, p: nat)
    requires TrailTrue(lib, jobs, s, trail)
    ensures FilesTrue(jobs, Next(lib, jobs, s, Touch(p)), Followed(lib, s, trail, Touch(p)))
  {
    var t, longer := Next(lib, jobs, s, Touch(p)), Followed(lib, s, trail, Touch(p));
    var step := s.At(p);
    if step.Storing? && step.todo != [] && Perform(lib, s.dir, step.todo[0], step.digests).Some? {
      assert StepTrue(lib, jobs, trail, p, step);
      forall file | file in t.dir.Files() && !file.Foreign?
        ensures Dated(longer, OriginOf(longer, t.dir.Files(), file))
             && t.dir.Files()[file] == ContentOf(jobs, longer, file.slot, OriginOf(longer, t.dir.Files(), file))
      {
        PerformedFileTrue(lib, jobs, s, trail, p, file);
      }
    }
  }

  /** The file that an operation is about gets the origin it should; the others are kept. */
  lemma PerformedFileTrue(lib: Library, jobs: nat -> Job, s: State, trail: Trail, p: nat, file: File)
    requires FilesTrue(jobs, s, trail) && StepDated(trail, p, s.At(p)) && TodoTrue(jobs, trail, p, s.At(p))
    requires s.At(p).Storing? && s.At(p).todo != [] && Perform(lib, s.dir, s.At(p).todo[0], s.At(p).digests).Some?
    requires file in Next(lib, jobs, s, Touch(p)).dir.Files() && !file.Foreign?
    ensures var after, longer := Next(lib, jobs, s, Touch(p)).dir.Files(), Followed(lib, s, trail, Touch(p));
      && Dated(longer, OriginOf(longer, after, file))
      && after[file] == ContentOf(jobs, longer, file.slot, OriginOf(longer, after, file))
  {
    var t, longer := Next(lib, jobs, s, Touch(p)), Followed(lib, s, trail, Touch(p));
    match s.At(p).todo[0]
    case WriteTemporary(slot, content) =>
      if file != Temporary(slot) {
        KeptFilesTrue(jobs, s, trail, t, longer, file);
      }
    case Rename(slot) =>
      if file == Final(slot) {
        assert Dated(trail, OriginOf(trail, s.dir.Files(), Temporary(slot)));
      } else {
        KeptFilesTrue(jobs, s, trail, t, longer, file);
      }
    case Digest(slot) => KeptFilesTrue(jobs, s, trail, t, longer, file);
  }

  lemma FilesStillTrue(lib: Library, jobs: nat -> Job, s: State, trail: Trail, e: Event)
    requires TrailTrue(lib, jobs, s, trail)
    ensures FilesTrue(jobs, Next(lib, jobs, s, e), Followed(lib, s, trail, e))
  {
    var t, longer := Next(lib, jobs, s, e), Followed(lib, s, trail, e);
    if e.Finish? {
      assert StepTrue(lib, jobs, trail, e.p, s.At(e.p));
    }
    FollowedExtends(lib, s, trail, e);
    if e.Touch? {
      PerformedFilesTrue(lib, jobs, s, trail, e.p);
    } else {
      OnlyTouchesWrite(lib, jobs, s, trail, e);
      forall file | file in t.dir.Files() && !file.Foreign?
        ensures Dated(longer, OriginOf(longer, t.dir.Files(), file))
             && t.dir.Files()[file] == ContentOf(jobs, longer, file.slot, OriginOf(longer, t.dir.Files(), file))
      {
        KeptFilesTrue(jobs, s, trail, t, longer, file);
      }
    }
  }

  lemma OnlyTouchesWrite(lib: Library, jobs: nat -> Job, s: State, trail: Trail, e: Event)
    requires !e.Touch?
    ensures var t, longer := Next(lib, jobs, s, e), Followed(lib, s, trail, e);
      longer.origins == trail.origins && longer.sources == trail.sources
      && forall file | file in t.dir.Files() :: file in s.dir.Files() && t.dir.Files()[file] == s.dir.Files()[file]
  {
  }

  lemma SourceStands(
    lib: Library, jobs: nat -> Job, trail: Trail, longer: Trail, p: nat, slot: Slot, artifact: Artifact)
    requires Extends(trail, longer) && SourceTrue(lib, jobs, trail, p, slot, artifact)
    requires (p, slot) in longer.sources && longer.sources[(p, slot)] == trail.sources[(p, slot)]
    ensures SourceTrue(lib, jobs, longer, p, slot, artifact)
  {
    ContentStands(jobs, trail, longer, slot, trail.sources[(p, slot)]);
  }

  /** What was true of a step stays true of it in a longer trail with the same sources for its run. */
  lemma StepStands(lib: Library, jobs: nat -> Job, trail: Trail, longer: Trail, p: nat, step: Step)
    requires Extends(trail, longer) && (p in longer.endings ==> p in trail.endings)
    requires forall slot | (p, slot) in trail.sources ::
      (p, slot) in longer.sources && longer.sources[(p, slot)] == trail.sources[(p, slot)]
    requires StepTrue(lib, jobs, trail, p, step)
    ensures StepTrue(lib, jobs, longer, p, step)
  {
    if step.Storing? {
      forall slot | slot in step.digests ensures SourceTrue(lib, jobs, longer, p, slot, step.digests[slot]) {
        SourceStands(lib, jobs, trail, longer, p, slot, step.digests[slot]);
      }
    } else if TerminalInHand(step).Some? {
      var artifacts := TerminalInHand(step).value.artifacts;
      SourceStands(lib, jobs, trail, longer, p, Body, artifacts.body);
      SourceStands(lib, jobs, trail, longer, p, Stdout, artifacts.stdout);
      SourceStands(lib, jobs, trail, longer, p, Stderr, artifacts.stderr);
    }
  }

  /** The terminal receipt that a run has composed. */
  function TerminalInHand(step: Step): Option<Receipt> {
    match step
    case Appending(Closing(_, _), receipt) => Some(receipt)
    case WritingProjection(Closing(_, _), receipt) => Some(receipt)
    case Replacing(Closing(_, _), receipt) => Some(receipt)
    case Done(_, receipt) => Some(receipt)
    case _ => None
  }

  lemma StartedStepTrue(lib: Library, jobs: nat -> Job, trail: Trail, p: nat)
    requires p !in trail.endings
    ensures StepTrue(lib, jobs, trail, p, Storing(Opening, OpeningSteps(jobs(p)), map[]))
  {
    var todo := OpeningSteps(jobs(p));
    assert todo == [
      WriteTemporary(Body, jobs(p).body), Rename(Body), WriteTemporary(Stdout, []), Rename(Stdout),
      WriteTemporary(Stderr, []), Rename(Stderr), Digest(Body), Digest(Stdout), Digest(Stderr)];
  }

  lemma EndedStepTrue(lib: Library, jobs: nat -> Job, trail: Trail, p: nat, dispatch: Receipt, ending: Ending)
    requires p in trail.endings && trail.endings[p] == ending
    ensures StepTrue(lib, jobs, trail, p, Storing(Closing(dispatch, ending), ClosingSteps(ending), map[]))
  {
    var todo := ClosingSteps(ending);
    assert todo == [
      WriteTemporary(Stdout, ending.stdout), Rename(Stdout), WriteTemporary(Stderr, ending.stderr), Rename(Stderr),
      Digest(Body), Digest(Stdout), Digest(Stderr)];
  }

  /** One file operation of a run: what is left to do, and a digest that measures its new source. */
  lemma TouchedStepTrue(lib: Library, jobs: nat -> Job, s: State, trail: Trail, p: nat)
    requires TrailTrue(lib, jobs, s, trail)
    requires s.At(p).Storing? && s.At(p).todo != [] && Perform(lib, s.dir, s.At(p).todo[0], s.At(p).digests).Some?
    ensures StepTrue(lib, jobs, Followed(lib, s, trail, Touch(p)), p, Next(lib, jobs, s, Touch(p)).At(p))
  {
    var step, longer := s.At(p), Followed(lib, s, trail, Touch(p));
    var digests := Perform(lib, s.dir, step.todo[0], step.digests).value.1;
    assert StepTrue(lib, jobs, trail, p, step);
    assert Next(lib, jobs, s, Touch(p)).At(p) == Storing(step.stage, step.todo[1..], digests);
    assert longer.endings == trail.endings;
    forall slot | slot in digests ensures SourceTrue(lib, jobs, longer, p, slot, digests[slot]) {
      TouchedSourceTrue(lib, jobs, s, trail, p, slot);
    }
  }

  lemma TouchedSourceTrue(lib: Library, jobs: nat -> Job, s: State, trail: Trail, p: nat, slot: Slot)
    requires FilesTrue(jobs, s, trail) && DigestsTrue(lib, jobs, trail, p, s.At(p))
    requires s.At(p).Storing? && s.At(p).todo != [] && Perform(lib, s.dir, s.At(p).todo[0], s.At(p).digests).Some?
    requires slot in Perform(lib, s.dir, s.At(p).todo[0], s.At(p).digests).value.1
    ensures SourceTrue(lib, jobs, Followed(lib, s, trail, Touch(p)), p, slot,
                       Perform(lib, s.dir, s.At(p).todo[0], s.At(p).digests).value.1[slot])
  {
    var step, longer := s.At(p), Followed(lib, s, trail, Touch(p));
    if step.todo[0] == Digest(slot) {
      assert Final(slot) in s.dir.Files();
    } else {
      SourceStands(lib, jobs, trail, longer, p, slot, step.digests[slot]);
    }
  }

  lemma ComposedStepTrue(lib: Library, jobs: nat -> Job, trail: Trail, p: nat, step: Step, at: int)
    requires StepTrue(lib, jobs, trail, p, step) && step.Storing?
    requires Composed(lib, jobs(p), step.stage, step.digests, at).Some?
    ensures StepTrue(lib, jobs, trail, p,
                     Appending(step.stage, Composed(lib, jobs(p), step.stage, step.digests, at).value))
  {
  }

  /** The run that acts. */
  lemma ActorStepTrue(lib: Library, jobs: nat -> Job, s: State, trail: Trail, e: Event, p: nat)
    requires TrailTrue(lib, jobs, s, trail) && Actor(e) == Some(p)
    ensures StepTrue(lib, jobs, Followed(lib, s, trail, e), p, Next(lib, jobs, s, e).At(p))
  {
    var step := s.At(p);
    assert StepTrue(lib, jobs, trail, p, step);
    match e
    case Start(_) => StartedOrNot(lib, jobs, s, trail, p);
    case Touch(_) =>
      if step.Storing? && step.todo != [] && Perform(lib, s.dir, step.todo[0], step.digests).Some? {
        TouchedStepTrue(lib, jobs, s, trail, p);
      }
    case Compose(_, at) =>
      if step.Storing? && step.todo == [] && Composed(lib, jobs(p), step.stage, step.digests, at).Some? {
        ComposedStepTrue(lib, jobs, trail, p, step, at);
      }
    case Append(_, _) =>
    case WriteProjection(_) =>
    case Replace(_) =>
    case Finish(_, ending) =>
      if step.Running? {
        EndedStepTrue(lib, jobs, Followed(lib, s, trail, e), p, step.dispatch, ending);
      }
  }

  lemma StartedOrNot(lib: Library, jobs: nat -> Job, s: State, trail: Trail, p: nat)
    requires StepTrue(lib, jobs, trail, p, s.At(p))
    ensures StepTrue(lib, jobs, trail, p, Next(lib, jobs, s, Start(p)).At(p))
  {
    if s.At(p).Idle? {
      StartedStepTrue(lib, jobs, trail, p);
    }
  }

  /** Every other run. */
  lemma WaitingStepTrue(lib: Library, jobs: nat -> Job, s: State, trail: Trail, e: Event, p: nat)
    requires TrailTrue(lib, jobs, s, trail) && Actor(e) != Some(p) && |s.owners| == |s.dir.journal.lines|
    ensures StepTrue(lib, jobs, Followed(lib, s, trail, e), p, Next(lib, jobs, s, e).At(p))
  {
    NextKeeps(lib, jobs, s, e);
    if e.Finish? {
      assert StepTrue(lib, jobs, trail, e.p, s.At(e.p));
    }
    FollowedExtends(lib, s, trail, e);
    assert StepTrue(lib, jobs, trail, p, s.At(p));
    StepStands(lib, jobs, trail, Followed(lib, s, trail, e), p, s.At(p));
  }

  lemma NextKeepsTrail(lib: Library, jobs: nat -> Job, s: State, trail: Trail, e: Event)
    requires TrailTrue(lib, jobs, s, trail) && |s.owners| == |s.dir.journal.lines|
    ensures TrailTrue(lib, jobs, Next(lib, jobs, s, e), Followed(lib, s, trail, e))
  {
    FilesStillTrue(lib, jobs, s, trail, e);
    forall p: nat ensures StepTrue(lib, jobs, Followed(lib, s, trail, e), p, Next(lib, jobs, s, e).At(p)) {
      if Actor(e) == Some(p) {
        ActorStepTrue(lib, jobs, s, trail, e, p);
      } else {
        WaitingStepTrue(lib, jobs, s, trail, e, p);
      }
    }
  }

  lemma {:induction false} RunKeepsTrail(lib: Library, jobs: nat -> Job, s: State, trail: Trail, events: seq<Event>)
    requires TrailTrue(lib, jobs, s, trail) && |s.owners| == |s.dir.journal.lines|
    ensures TrailTrue(lib, jobs, RunAll(lib, jobs, s, events), FollowAll(lib, jobs, s, trail, events))
    decreases |events|
  {
    if events != [] {
      NextKeepsTrail(lib, jobs, s, trail, events[0]);
      NextKeeps(lib, jobs, s, events[0]);
      RunKeepsTrail(lib, jobs, Next(lib, jobs, s, events[0]), Followed(lib, s, trail, events[0]), events[1..]);
    }
  }

  // ---- whose bytes a finished run has recorded ------------------------------------------------

  /** The write of a run that its terminal receipt is about. */
  function Own(p: nat, slot: Slot): Origin {
    By(p, slot != Body)
  }

  function OwnArtifacts(lib: Library, job: Job, ending: Ending): Artifacts {
    Artifacts(Measured(lib, job.body), Measured(lib, ending.stdout), Measured(lib, ending.stderr))
  }

  /** The bytes that a run had before it when it last digested a slot. */
  function SourceContent(jobs: nat -> Job, trail: Trail, p: nat, slot: Slot): Bytes
    requires (p, slot) in trail.sources
  {
    ContentOf(jobs, trail, slot, trail.sources[(p, slot)])
  }

  /**
   * A finished run's receipt measures, in each slot, the bytes that lay there when the run digested it; so
   * it is about the run's own bytes exactly when these measure the same, and surely when they are its own.
   */
  lemma RecordedBytesAreOwnExactly(lib: Library, jobs: nat -> Job, s: State, events: seq<Event>, p: nat)
    requires Unused(s) && RunAll(lib, jobs, s, events).At(p).Done?
    ensures var trail := FollowAll(lib, jobs, s, NO_TRAIL, events);
      var recorded := RunAll(lib, jobs, s, events).At(p).terminal.artifacts;
      && p in trail.endings && (forall slot: Slot :: (p, slot) in trail.sources)
      && var own := OwnArtifacts(lib, jobs(p), trail.endings[p]);
         && (recorded == own <==>
               && Measured(lib, SourceContent(jobs, trail, p, Body)) == own.body
               && Measured(lib, SourceContent(jobs, trail, p, Stdout)) == own.stdout
               && Measured(lib, SourceContent(jobs, trail, p, Stderr)) == own.stderr)
         && ((forall slot: Slot :: trail.sources[(p, slot)] == Own(p, slot)) ==> recorded == own)
  {
    NothingFollowed(lib, jobs, s);
    RunKeepsTrail(lib, jobs, s, NO_TRAIL, events);
    var t, trail := RunAll(lib, jobs, s, events), FollowAll(lib, jobs, s, NO_TRAIL, events);
    assert StepTrue(lib, jobs, trail, p, t.At(p));
    forall slot: Slot ensures (p, slot) in trail.sources {
      assert slot == Body || slot == Stdout || slot == Stderr;
    }
  }

  /** And so are the bytes that any readback returns with that receipt, however its steps were interleaved. */
  lemma ReturnedBytesAreOwnExactly(lib: Library, jobs: nat -> Job, s: State, events: seq<Event>, r: nat, p: nat)
    requires Unused(s)
    requires var t := RunAll(lib, jobs, s, events);
      && t.ReaderAt(r).Answered? && t.ReaderAt(r).result.Success? && t.ReaderAt(r).result.value.contents.Some?
      && t.At(p).Done? && t.At(p).terminal == t.ReaderAt(r).result.value.receipt
    ensures var trail := FollowAll(lib, jobs, s, NO_TRAIL, events);
      var c := RunAll(lib, jobs, s, events).ReaderAt(r).result.value.contents.value;
      && p in trail.endings && (forall slot: Slot :: (p, slot) in trail.sources)
      && var own := OwnArtifacts(lib, jobs(p), trail.endings[p]);
         Artifacts(Measured(lib, c.body), Measured(lib, c.stdout), Measured(lib, c.stderr)) == own <==>
           && Measured(lib, SourceContent(jobs, trail, p, Body)) == own.body
           && Measured(lib, SourceContent(jobs, trail, p, Stdout)) == own.stdout
           && Measured(lib, SourceContent(jobs, trail, p, Stderr)) == own.stderr
  {
    RecordedBytesAreOwnExactly(lib, jobs, s, events, p);
    AnswerIsOfOneRun(lib, jobs, s, events, r);
    var reading := RunAll(lib, jobs, s, events).ReaderAt(r).result.value;
    MatchedContents(lib, reading.receipt, reading.contents.value);
  }

  lemma MatchedContents(lib: Library, t: Receipt, c: Contents)
    requires Matches(lib, t, [c.body, c.stdout, c.stderr])
    ensures t.artifacts == Artifacts(Measured(lib, c.body), Measured(lib, c.stdout), Measured(lib, c.stderr))
  {
    var taken := [c.body, c.stdout, c.stderr];
    assert taken[0] == c.body && taken[1] == c.stdout && taken[2] == c.stderr;
  }

  lemma NothingFollowed(lib: Library, jobs: nat -> Job, s: State)
    requires Unused(s)
    ensures TrailTrue(lib, jobs, s, NO_TRAIL)
  {
  }

  // ---- a quiet slot is the run's own -----------------------------------------------------------

  /** The step writes the slot's temporary or renames it into place. */
  predicate Disturbs(s: State, e: Event, slot: Slot) {
    && e.Touch? && s.At(e.p).Storing? && s.At(e.p).todo != []
    && !s.At(e.p).todo[0].Digest? && s.At(e.p).todo[0].slot == slot
  }

  predicate Quiet(lib: Library, jobs: nat -> Job, s: State, events: seq<Event>, slot: Slot)
    decreases |events|
  {
    events == []
    || (!Disturbs(s, events[0], slot) && Quiet(lib, jobs, Next(lib, jobs, s, events[0]), events[1..], slot))
  }

  /** What is recorded of a file of the slot. */
  function OriginAt(trail: Trail, file: File): Option<Origin> {
    if file in trail.origins then Some(trail.origins[file]) else None
  }

  lemma UndisturbedOrigins(lib: Library, s: State, trail: Trail, e: Event, slot: Slot)
    requires !Disturbs(s, e, slot)
    ensures var after := Followed(lib, s, trail, e);
      && OriginAt(after, Final(slot)) == OriginAt(trail, Final(slot))
      && OriginAt(after, Temporary(slot)) == OriginAt(trail, Temporary(slot))
  {
  }

  lemma {:induction false} QuietKeepsOrigins(
    lib: Library, jobs: nat -> Job, s: State, trail: Trail, events: seq<Event>, slot: Slot)
    requires Quiet(lib, jobs, s, events, slot)
    ensures var after := FollowAll(lib, jobs, s, trail, events);
      && OriginAt(after, Final(slot)) == OriginAt(trail, Final(slot))
      && OriginAt(after, Temporary(slot)) == OriginAt(trail, Temporary(slot))
    decreases |events|
  {
    if events != [] {
      UndisturbedOrigins(lib, s, trail, events[0], slot);
      QuietKeepsOrigins(lib, jobs, Next(lib, jobs, s, events[0]), Followed(lib, s, trail, events[0]),
                        events[1..], slot);
    }
  }

  /** The run stands before this file operation. */
  predicate Before(s: State, p: nat, step: FileStep) {
    s.At(p).Storing? && s.At(p).todo != [] && s.At(p).todo[0] == step
  }

  /**
   * If nobody writes or renames a slot between a run's write and its rename, nor between its rename and its
   * digest, then what the run digests there is what it wrote.
   */
  lemma QuietSlotIsOwn(
    lib: Library, jobs: nat -> Job, s: State, trail: Trail, p: nat, slot: Slot, content: Bytes,
    first: seq<Event>, second: seq<Event>)
    requires Before(s, p, WriteTemporary(slot, content))
    requires var s1 := Next(lib, jobs, s, Touch(p));
      Quiet(lib, jobs, s1, first, slot) && Before(RunAll(lib, jobs, s1, first), p, Rename(slot))
    requires var s2 := RunAll(lib, jobs, Next(lib, jobs, s, Touch(p)), first);
      && Temporary(slot) in s2.dir.Files()
      && Quiet(lib, jobs, Next(lib, jobs, s2, Touch(p)), second, slot)
    requires var s2 := RunAll(lib, jobs, Next(lib, jobs, s, Touch(p)), first);
      var s3 := RunAll(lib, jobs, Next(lib, jobs, s2, Touch(p)), second);
      Before(s3, p, Digest(slot)) && Final(slot) in s3.dir.Files()
    ensures var events := [Touch(p)] + first + [Touch(p)] + second + [Touch(p)];
      var after := FollowAll(lib, jobs, s, trail, events);
      (p, slot) in after.sources && after.sources[(p, slot)] == By(p, s.At(p).stage.Closing?)
  {
    var s1, t1 := Next(lib, jobs, s, Touch(p)), Followed(lib, s, trail, Touch(p));
    var s2, t2 := RunAll(lib, jobs, s1, first), FollowAll(lib, jobs, s1, t1, first);
    var s3, t3 := Next(lib, jobs, s2, Touch(p)), Followed(lib, s2, t2, Touch(p));
    var s4, t4 := RunAll(lib, jobs, s3, second), FollowAll(lib, jobs, s3, t3, second);
    QuietKeepsOrigins(lib, jobs, s1, t1, first, slot);
    QuietKeepsOrigins(lib, jobs, s3, t3, second, slot);
    FollowOne(lib, jobs, s, trail, Touch(p));
    FollowOne(lib, jobs, s2, t2, Touch(p));
    FollowOne(lib, jobs, s4, t4, Touch(p));
    FollowBoth(lib, jobs, s, trail, [Touch(p)], first);
    FollowBoth(lib, jobs, s, trail, [Touch(p)] + first, [Touch(p)]);
    FollowBoth(lib, jobs, s, trail, [Touch(p)] + first + [Touch(p)], second);
    FollowBoth(lib, jobs, s, trail, [Touch(p)] + first + [Touch(p)] + second, [Touch(p)]);
  }

  lemma FollowOne(lib: Library, jobs: nat -> Job, s: State, trail: Trail, e: Event)
    ensures FollowAll(lib, jobs, s, trail, [e]) == Followed(lib, s, trail, e)
    ensures RunAll(lib, jobs, s, [e]) == Next(lib, jobs, s, e)
  {
    assert [e][1..] == [];
  }

  lemma {:induction false} FollowBoth(
    lib: Library, jobs: nat -> Job, s: State, trail: Trail, before: seq<Event>, after: seq<Event>)
    ensures RunAll(lib, jobs, s, before + after) == RunAll(lib, jobs, RunAll(lib, jobs, s, before), after)
    ensures FollowAll(lib, jobs, s, trail, before + after) ==
      FollowAll(lib, jobs, RunAll(lib, jobs, s, before), FollowAll(lib, jobs, s, trail, before), after)
    decreases |before|
  {
    RunAppend(lib, jobs, s, before, after);
    if before == [] {
      assert before + after == after;
    } else {
      FollowBoth(lib, jobs, Next(lib, jobs, s, before[0]), Followed(lib, s, trail, before[0]), before[1..], after);
      assert (before + after)[1..] == before[1..] + after;
    }
  }

  // ---- and a disturbed one need not be ---------------------------------------------------------

  function StoreFirst(p: nat): seq<Event> {
    [Start(p)] + Touches(p, 6)
  }

  function StoreOver(q: nat): seq<Event> {
    [Start(q)] + Touches(q, 2)
  }

  function GoOn(p: nat, at: int): seq<Event> {
    Touches(p, 3) + Publish(p, at)
  }

  /**
   * Run p stores its artifacts, run q stores its own body over p's and stops, and p goes on. Both runs
   * start on an unused case, and q never writes a receipt.
   */
  function Race(p: nat, q: nat, dispatchedAt: int, ending: Ending, endedAt: int): seq<Event> {
    StoreFirst(p) + StoreOver(q) + GoOn(p, dispatchedAt) + Half(Finish(p, ending), p, 7, endedAt)
  }

  function StoreAll(job: Job): seq<FileStep> {
    StoreSteps(Body, job.body) + StoreSteps(Stdout, []) + StoreSteps(Stderr, [])
  }

  lemma StoresPerform(lib: Library, dir: CaseDir, job: Job)
    ensures PerformAll(lib, dir, StoreAll(job), map[]) ==
      Some((Put(Put(Put(dir, Body, job.body), Stdout, []), Stderr, []), map[]))
  {
    var one := Put(dir, Body, job.body);
    var two := Put(one, Stdout, []);
    StorePerforms(lib, dir, Body, job.body, map[]);
    StorePerforms(lib, one, Stdout, [], map[]);
    StorePerforms(lib, two, Stderr, [], map[]);
    PerformBoth(lib, dir, StoreSteps(Body, job.body), StoreSteps(Stdout, []), map[]);
    PerformBoth(lib, dir, StoreSteps(Body, job.body) + StoreSteps(Stdout, []), StoreSteps(Stderr, []), map[]);
  }

  lemma Stores(lib: Library, jobs: nat -> Job, s: State, p: nat)
    requires s.At(p).Idle? && s.dir.current == None
    ensures var t := RunAll(lib, jobs, s, StoreFirst(p));
      && t.dir == Put(Put(Put(s.dir, Body, jobs(p).body), Stdout, []), Stderr, [])
      && t.At(p) == Storing(Opening, DIGESTS, map[])
      && t.dir.current == None && forall q: nat | q != p :: t.At(q) == s.At(q)
  {
    var s1 := Next(lib, jobs, s, Start(p));
    StoresPerform(lib, s.dir, jobs(p));
    assert OpeningSteps(jobs(p)) == StoreAll(jobs(p)) + DIGESTS;
    TouchesPart(lib, jobs, s1, p, Opening, StoreAll(jobs(p)), DIGESTS, map[]);
    assert StoreFirst(p)[1..] == Touches(p, 6);
  }

  lemma Overwrites(lib: Library, jobs: nat -> Job, s: State, q: nat)
    requires s.At(q).Idle? && s.dir.current == None
    ensures var t := RunAll(lib, jobs, s, StoreOver(q));
      t.dir == Put(s.dir, Body, jobs(q).body) && forall p: nat | p != q :: t.At(p) == s.At(p)
  {
    var s1 := Next(lib, jobs, s, Start(q));
    var part, rest := StoreSteps(Body, jobs(q).body), StoreSteps(Stdout, []) + StoreSteps(Stderr, []) + DIGESTS;
    assert OpeningSteps(jobs(q)) == part + rest;
    StorePerforms(lib, s.dir, Body, jobs(q).body, map[]);
    TouchesPart(lib, jobs, s1, q, Opening, part, rest, map[]);
    assert StoreOver(q)[1..] == Touches(q, 2);
  }

  lemma LaunchesOn(lib: Library, jobs: nat -> Job, s: State, dir: CaseDir, p: nat, job: Job, at: int)
    requires s.At(p) == Storing(Opening, DIGESTS, map[])
    requires job == jobs(p).(body := job.body)
    requires s.dir == Put(Put(Put(dir, Body, job.body), Stdout, []), Stderr, [])
    ensures var t := RunAll(lib, jobs, s, GoOn(p, at));
      t.dir == Launched(lib, dir, job, at) && t.At(p).Running?
  {
    DigestsPerform(lib, s.dir, map[]);
    WorkRuns(lib, jobs, s, p, Opening, DIGESTS, at);
  }

  lemma RaceLaunches(lib: Library, jobs: nat -> Job, s: State, p: nat, q: nat, at: int)
    requires p != q && s.At(p).Idle? && s.At(q).Idle? && s.dir.current == None
    ensures var t := RunAll(lib, jobs, s, StoreFirst(p) + StoreOver(q) + GoOn(p, at));
      t.dir == Launched(lib, s.dir, jobs(p).(body := jobs(q).body), at) && t.At(p).Running?
  {
    var mixed := jobs(p).(body := jobs(q).body);
    var stored := RunAll(lib, jobs, s, StoreFirst(p));
    var over := RunAll(lib, jobs, stored, StoreOver(q));
    Stores(lib, jobs, s, p);
    Overwrites(lib, jobs, stored, q);
    OverwritingBody(s.dir, jobs(p).body, jobs(q).body);
    LaunchesOn(lib, jobs, over, s.dir, p, mixed, at);
    RunAppend(lib, jobs, s, StoreFirst(p), StoreOver(q));
    RunAppend(lib, jobs, s, StoreFirst(p) + StoreOver(q), GoOn(p, at));
  }

  lemma OverwritingBody(dir: CaseDir, own: Bytes, other: Bytes)
    ensures Put(Put(Put(Put(dir, Body, own), Stdout, []), Stderr, []), Body, other)
         == Put(Put(Put(dir, Body, other), Stdout, []), Stderr, [])
  {
    assert Put(Put(Put(Put(dir, Body, own), Stdout, []), Stderr, []), Body, other).Files()
        == Put(Put(Put(dir, Body, other), Stdout, []), Stderr, []).Files();
  }

  /** What the race leaves is what p alone would have left with q's body in place of its own. */
  lemma RaceMixesBytes(
    lib: Library, jobs: nat -> Job, s: State, p: nat, q: nat, dispatchedAt: int, ending: Ending, endedAt: int)
    requires p != q && s.At(p).Idle? && s.At(q).Idle? && s.dir.current == None
    requires Evaluated(lib, jobs(p), ending).Success?
    ensures var t := RunAll(lib, jobs, s, Race(p, q, dispatchedAt, ending, endedAt));
      && t.dir == Produced(lib, s.dir, jobs(p).(body := jobs(q).body), dispatchedAt, ending,
                           Evaluated(lib, jobs(p), ending).value, endedAt)
      && t.At(p).Done?
  {
    var mixed := jobs(p).(body := jobs(q).body);
    var begun := StoreFirst(p) + StoreOver(q) + GoOn(p, dispatchedAt);
    RaceLaunches(lib, jobs, s, p, q, dispatchedAt);
    LaunchedFiles(lib, s.dir, mixed, dispatchedAt);
    var launched := RunAll(lib, jobs, s, begun);
    ClosingRuns(lib, jobs, launched, p, ending, endedAt);
    FinishIgnoresBody(lib, launched.dir, jobs(p), jobs(q).body, ending, Evaluated(lib, jobs(p), ending).value, endedAt);
    RunAppend(lib, jobs, s, begun, Half(Finish(p, ending), p, 7, endedAt));
  }

  lemma FinishIgnoresBody(
    lib: Library, dir: CaseDir, job: Job, body: Bytes, ending: Ending, evaluated: Option<EvaluatorResult>, at: int)
    ensures Finished(lib, dir, job.(body := body), ending, evaluated, at)
         == Finished(lib, dir, job, ending, evaluated, at)
  {
  }

  /** So the readback accepts p's receipts and returns q's body as p's, although q never wrote a receipt. */
  lemma RaceIsAccepted(
    lib: Library, jobs: nat -> Job, s: State, p: nat, q: nat, worktree: Worktree, stateRoot: string,
    dispatchedAt: int, ending: Ending, endedAt: int, readAt: int)
    requires p != q && Unused(s) && jobs(p).family.Valid(lib) && Evaluated(lib, jobs(p), ending).Success?
    requires jobs(p).execution == ExecutionOf(lib, jobs(p).execution.argv, worktree, stateRoot)
    requires jobs(p).execution.argv != [] && forall item | item in jobs(p).execution.argv :: item != ""
    requires IsObjectName(worktree.commit) && IsObjectName(worktree.tree)
    requires !ExpiredAt(jobs(p), dispatchedAt, readAt)
    ensures var t := RunAll(lib, jobs, s, Race(p, q, dispatchedAt, ending, endedAt));
      var result := Readback(lib, t.dir, ReceiptProperties.Closing(jobs(p), readAt)).result;
      && result.Success? && t.At(p).Done? && result.value.receipt == t.At(p).terminal
      && result.value.contents == Some(Contents(jobs(q).body, ending.stdout, ending.stderr))
  {
    var t := RunAll(lib, jobs, s, Race(p, q, dispatchedAt, ending, endedAt));
    RaceMixesBytes(lib, jobs, s, p, q, dispatchedAt, ending, endedAt);
    MixedIsAccepted(lib, s.dir, jobs(p), jobs(q).body, worktree, stateRoot, dispatchedAt, ending, endedAt, readAt);
    UnusedIsInv(s);
    RunKeepsInv(lib, jobs, s, Race(p, q, dispatchedAt, ending, endedAt));
    FinishedRunIsTheMatch(lib, t, jobs(p).caseId, p);
  }

  lemma MixedIsAccepted(
    lib: Library, dir: CaseDir, job: Job, body: Bytes, worktree: Worktree, stateRoot: string,
    dispatchedAt: int, ending: Ending, endedAt: int, readAt: int)
    requires dir.journal.lines == [] && job.family.Valid(lib) && Evaluated(lib, job, ending).Success?
    requires job.execution == ExecutionOf(lib, job.execution.argv, worktree, stateRoot)
    requires job.execution.argv != [] && forall item | item in job.execution.argv :: item != ""
    requires IsObjectName(worktree.commit) && IsObjectName(worktree.tree) && !ExpiredAt(job, dispatchedAt, readAt)
    ensures var evaluated := Evaluated(lib, job, ending).value;
      var produced := Produced(lib, dir, job.(body := body), dispatchedAt, ending, evaluated, endedAt);
      var result := Readback(lib, produced, ReceiptProperties.Closing(job, readAt)).result;
      && Matched(lib, produced, job.caseId)
      && result.Success? && produced.current == Some(Entry(result.value.receipt))
      && result.value.contents == Some(Contents(body, ending.stdout, ending.stderr))
  {
    var mixed := job.(body := body);
    assert Evaluated(lib, mixed, ending) == Evaluated(lib, job, ending);
    assert ReceiptProperties.Closing(mixed, readAt) == ReceiptProperties.Closing(job, readAt);
    RunPassesItsReadback(lib, dir, mixed, worktree, stateRoot, dispatchedAt, ending, endedAt, readAt);
  }

  /** A finished run in a case that matches is the run that matches. */
  lemma FinishedRunIsTheMatch(lib: Library, s: State, caseId: string, p: nat)
    requires Inv(s) && Matched(lib, s.dir, caseId) && s.At(p).Done?
    ensures s.dir.current == Some(Entry(s.At(p).terminal))
  {
    MatchedIsOneRun(lib, s, caseId);
    assert Readable(s);
    assert p in s.owners;
  }

  lemma UnusedIsInv(s: State)
    requires Unused(s)
    ensures Inv(s)
  {
  }
}
