// runtime/harness_runtime/ingress.py: `IngressIntake`, whose two in-process
// caches must not be visible in its answers.

module Intake {
  import opened Wrappers
  import opened Json

  const BASELINE_CACHE := 2_000_000  // microseconds of the monotonic clock

  /** What Git and the file system say; fixed for the life of an intake. */
  datatype Facts = Facts(
    resolve: string -> string,
    isDirectory: string -> bool,
    isSymlink: string -> bool,
    topLevel: string -> Option<string>,     // resolved worktree root, None when Git fails
    decode: Bytes -> Option<string>,
    blank: string -> bool,
    sha: Bytes -> Hex64)

  datatype ProjectRef = ProjectRef(root: string, manifest: string, allowBootstrap: bool)

  function ManifestOf(root: string): string {
    root + "/manifest.yml"
  }

  function BindCwd(root: string, allowBootstrap: bool): ProjectRef {
    ProjectRef(root, ManifestOf(root), allowBootstrap)
  }

  /** Path resolution goes through the resolved parent, and links are a property of the file reached. */
  ghost predicate Lawful(facts: Facts) {
    forall root: string ::
      var m := ManifestOf(root);
      var n := ManifestOf(facts.resolve(root));
      facts.resolve(m) == facts.resolve(n) && facts.isSymlink(m) == facts.isSymlink(n)
      && facts.resolve(facts.resolve(root)) == facts.resolve(root)
  }

  datatype BindingEvidence = BindingEvidence(root: string, manifestEntry: string, manifestHash: Hex64)

  type Verdict = Result<BindingEvidence, string>

  function Validate(facts: Facts, ref: ProjectRef, content: Bytes, hash: Hex64): Verdict {
    var root := facts.resolve(ref.root);
    var expected := ManifestOf(root);
    if !facts.isDirectory(root) then Failure("binding root is not a directory")
    else if facts.resolve(ref.manifest) != expected || facts.isSymlink(ref.manifest) then
      Failure("manifest boundary must be <root>/manifest.yml")
    else match facts.decode(content)
      case None => Failure("manifest must be UTF-8")
      case Some(text) =>
        if facts.blank(text) then Failure("manifest must not be empty")
        else if facts.topLevel(root) != Some(root) then
          Failure("binding root must be the Git worktree root")
        else Success(BindingEvidence(root, expected, hash))
  }

  /** The one check that reads the manifest path of a ref. */
  predicate Boundary(facts: Facts, ref: ProjectRef) {
    facts.resolve(ref.manifest) == ManifestOf(facts.resolve(ref.root)) && !facts.isSymlink(ref.manifest)
  }

  /**
   * Two refs with one resolved root get one verdict exactly when they agree on the boundary, or the root is
   * no directory.
   */
  lemma VerdictsAgreeExactly(facts: Facts, a: ProjectRef, b: ProjectRef, content: Bytes, hash: Hex64)
    requires facts.resolve(a.root) == facts.resolve(b.root)
    ensures Validate(facts, a, content, hash) == Validate(facts, b, content, hash) <==>
      !facts.isDirectory(facts.resolve(a.root)) || Boundary(facts, a) == Boundary(facts, b)
  {
    assert |"manifest boundary must be <root>/manifest.yml"| == 45 && |"manifest must be UTF-8"| == 22
        && |"manifest must not be empty"| == 26 && |"binding root must be the Git worktree root"| == 42;
  }

  /** Refs built by `bind_cwd` always agree on the boundary. */
  lemma BoundRefsAgree(facts: Facts, a: ProjectRef, b: ProjectRef)
    requires Lawful(facts) && facts.resolve(a.root) == facts.resolve(b.root)
    requires a.manifest == ManifestOf(a.root) && b.manifest == ManifestOf(b.root)
    ensures Boundary(facts, a) == Boundary(facts, b)
  {
  }

  /** For refs built by `bind_cwd` the verdict is a function of the cache key's root and the content. */
  lemma VerdictFollowsResolvedRoot(facts: Facts, ref: ProjectRef, content: Bytes, hash: Hex64)
    requires Lawful(facts) && ref.manifest == ManifestOf(ref.root)
    ensures Validate(facts, ref, content, hash)
         == Validate(facts, BindCwd(facts.resolve(ref.root), false), content, hash)
  {
  }

  /** How looking at the manifest went: two reads around an optional bootstrap. */
  datatype Look = Found(content: Bytes, modified: int) | Missing(errorName: string) | Failed(errorName: string)

  datatype Observation = Observation(first: Look, bootstrap: Result<bool, string>, second: Look)

  datatype Manifest = Manifest(content: Bytes, modified: int, created: bool)

  function ReadManifest(ref: ProjectRef, seen: Observation): Result<Manifest, string> {
    match seen.first
    case Found(content, modified) => Success(Manifest(content, modified, false))
    case Failed(name) => Failure("manifest unavailable: " + name)
    case Missing(name) =>
      if !ref.allowBootstrap then Failure("manifest unavailable: " + name)
      else if seen.bootstrap.Failure? then Failure("manifest unavailable: " + seen.bootstrap.error)
      else match seen.second
        case Found(content, modified) => Success(Manifest(content, modified, seen.bootstrap.value))
        case Missing(name') => Failure("manifest unavailable: " + name')
        case Failed(name') => Failure("manifest unavailable: " + name')
  }

  /** The part of an intake result that no cache may influence. */
  datatype Answer =
    | Ready(evidence: BindingEvidence, created: bool)
    | Hold(reason: string, manifestHash: Option<Hex64>)

  function AnswerOf(manifest: Manifest, hash: Hex64, verdict: Verdict): Answer {
    if verdict.Success? then Ready(verdict.value, manifest.created) else Hold(verdict.error, Some(hash))
  }

  function Uncached(facts: Facts, ref: ProjectRef, seen: Observation): Answer {
    var manifest := ReadManifest(ref, seen);
    if manifest.Failure? then Hold(manifest.error, None)
    else
      var hash := facts.sha(manifest.value.content);
      AnswerOf(manifest.value, hash, Validate(facts, ref, manifest.value.content, hash))
  }

  datatype Baseline = Unreadable | Worktree(head: string, changes: seq<string>)

  /** `git rev-parse HEAD` and `git status` either both work or there is no baseline. */
  datatype GitRead = GitRead(head: Option<string>, status: Option<seq<string>>)

  function BaselineOf(git: GitRead): Baseline {
    if git.head == None || git.status == None then Unreadable
    else Worktree(git.head.value, git.status.value)
  }

  datatype IntakeResult = IntakeResult(
    answer: Answer, manifestRef: string, baseline: Baseline, cacheKey: Option<(string, int, Hex64)>)

  /** The ref and the manifest content that a cached verdict was computed from. */
  datatype Validated = Validated(ref: ProjectRef, content: Bytes)

  class IngressIntake {
    const facts: Facts
    var bindings: map<(string, Hex64), Verdict>
    var baselines: map<string, (int, Baseline)>
    ghost var validated: map<(string, Hex64), Validated>
    ghost var gitReads: set<(string, int, Baseline)>  // every baseline ever read, and when

    constructor (facts: Facts)
      ensures this.facts == facts && Valid() && validated == map[] && gitReads == {}
    {
      this.facts := facts;
      bindings, baselines, validated, gitReads := map[], map[], map[], {};
    }

    /** Every cached verdict is the one on the ref and content it was computed from. */
    ghost predicate Valid()
      reads this
    {
      && bindings.Keys == validated.Keys
      && (forall key | key in bindings :: CachedFor(key))
      && (forall root | root in baselines :: (root, baselines[root].0, baselines[root].1) in gitReads)
    }

    ghost predicate CachedFor(key: (string, Hex64))
      requires key in bindings && key in validated
      reads this
    {
      var from := validated[key];
      && facts.resolve(from.ref.root) == key.0 && facts.sha(from.content) == key.1
      && bindings[key] == Validate(facts, from.ref, from.content, key.1)
    }

    /** All cached verdicts come from refs built by `bind_cwd`. */
    ghost predicate OnlyBound()
      reads this
    {
      forall key | key in validated :: validated[key].ref.manifest == ManifestOf(validated[key].ref.root)
    }

    /** The baseline of `root`, at most two seconds old. */
    method BaselineFor(root: string, now: int, git: GitRead) returns (baseline: Baseline)
      requires Valid()
      requires forall read | read in gitReads :: read.1 <= now
      modifies this
      ensures Valid() && bindings == old(bindings) && validated == old(validated)
      ensures gitReads == old(gitReads) || gitReads == old(gitReads) + {(root, now, BaselineOf(git))}
      ensures exists at :: (root, at, baseline) in gitReads && now - BASELINE_CACHE < at <= now
    {
      if root in baselines && now - baselines[root].0 < BASELINE_CACHE {
        assert (root, baselines[root].0, baselines[root].1) in gitReads;
        return baselines[root].1;
      }
      baseline := BaselineOf(git);
      baselines := baselines[root := (now, baseline)];
      gitReads := gitReads + {(root, now, baseline)};
      assert (root, now, baseline) in gitReads;
    }

    /**
     * No hypothesis on the ref. Without a cached verdict the answer is the uncached one; with one computed
     * from this very content, it is so exactly when the two refs agree on the boundary or the root is no
     * directory; and a cached verdict on other content means that two manifests read here share a digest.
     */
    method Evaluate(ref: ProjectRef, seen: Observation, now: int, git: GitRead) returns (r: IntakeResult)
      requires Valid()
      requires forall read | read in gitReads :: read.1 <= now
      modifies this
      ensures Valid() && forall read | read in gitReads :: read.1 <= now
      ensures validated == Remembered(facts, old(validated), ref, seen)
      ensures Unseen(facts, old(validated), ref, seen) ==> r.answer == Uncached(facts, ref, seen)
      ensures SameContent(facts, old(validated), ref, seen) ==>
        && r.answer == FirstAnswer(facts, old(validated), ref, seen)
        && (r.answer == Uncached(facts, ref, seen) <==> SameBoundary(facts, old(validated), ref, seen))
      ensures !Unseen(facts, old(validated), ref, seen) && !SameContent(facts, old(validated), ref, seen) ==>
        SharesDigest(facts, old(validated), ref, seen)
      ensures exists at ::
        (facts.resolve(ref.root), at, r.baseline) in gitReads && now - BASELINE_CACHE < at <= now
      ensures r.manifestRef == facts.resolve(ref.manifest)
    {
      var root := facts.resolve(ref.root);
      var manifestRef := facts.resolve(ref.manifest);
      var baseline := BaselineFor(root, now, git);
      var manifest := ReadManifest(ref, seen);
      if manifest.Failure? {
        return IntakeResult(Hold(manifest.error, None), manifestRef, baseline, None);
      }
      var content := manifest.value.content;
      var hash := facts.sha(content);
      var key := (root, hash);
      if key in bindings {
        assert CachedFor(key);
        VerdictsAgreeExactly(facts, ref, validated[key].ref, content, hash);
      } else {
        bindings := bindings[key := Validate(facts, ref, content, hash)];
        validated := validated[key := Validated(ref, content)];
      }
      r := IntakeResult(AnswerOf(manifest.value, hash, bindings[key]), manifestRef, baseline,
                        Some((root, manifest.value.modified, hash)));
    }
  }

  type Memory = map<(string, Hex64), Validated>

  function CacheKey(facts: Facts, ref: ProjectRef, content: Bytes): (string, Hex64) {
    (facts.resolve(ref.root), facts.sha(content))
  }

  /** There is no manifest to validate, or its key is not cached. */
  predicate Unseen(facts: Facts, memory: Memory, ref: ProjectRef, seen: Observation) {
    var manifest := ReadManifest(ref, seen);
    manifest.Failure? || CacheKey(facts, ref, manifest.value.content) !in memory
  }

  predicate SameContent(facts: Facts, memory: Memory, ref: ProjectRef, seen: Observation) {
    !Unseen(facts, memory, ref, seen)
    && var content := ReadManifest(ref, seen).value.content;
       memory[CacheKey(facts, ref, content)].content == content
  }

  /** The manifest just read, and a different one read before, with the same SHA-256. */
  predicate SharesDigest(facts: Facts, memory: Memory, ref: ProjectRef, seen: Observation) {
    !Unseen(facts, memory, ref, seen)
    && var content := ReadManifest(ref, seen).value.content;
       var before := memory[CacheKey(facts, ref, content)].content;
       before != content && facts.sha(before) == facts.sha(content)
  }

  /** The cached verdict's ref and this one agree on the boundary, or the root is no directory. */
  predicate SameBoundary(facts: Facts, memory: Memory, ref: ProjectRef, seen: Observation)
    requires !Unseen(facts, memory, ref, seen)
  {
    var from := memory[CacheKey(facts, ref, ReadManifest(ref, seen).value.content)].ref;
    !facts.isDirectory(facts.resolve(ref.root)) || Boundary(facts, ref) == Boundary(facts, from)
  }

  /** The answer with the verdict that the cached ref gets on this manifest. */
  function FirstAnswer(facts: Facts, memory: Memory, ref: ProjectRef, seen: Observation): Answer
    requires SameContent(facts, memory, ref, seen)
  {
    var manifest := ReadManifest(ref, seen).value;
    var hash := facts.sha(manifest.content);
    var from := memory[CacheKey(facts, ref, manifest.content)].ref;
    AnswerOf(manifest, hash, Validate(facts, from, manifest.content, hash))
  }

  function Remembered(facts: Facts, memory: Memory, ref: ProjectRef, seen: Observation): Memory {
    var manifest := ReadManifest(ref, seen);
    if Unseen(facts, memory, ref, seen) && manifest.Success?
    then memory[CacheKey(facts, ref, manifest.value.content) := Validated(ref, manifest.value.content)]
    else memory
  }

  /** With refs built by `bind_cwd` only, every answer is the uncached one, or two manifests read share a digest. */
  method EvaluateBound(intake: IngressIntake, ref: ProjectRef, seen: Observation, now: int, git: GitRead)
    returns (r: IntakeResult)
    requires intake.Valid() && intake.OnlyBound() && Lawful(intake.facts) && ref.manifest == ManifestOf(ref.root)
    requires forall read | read in intake.gitReads :: read.1 <= now
    modifies intake
    ensures intake.Valid() && intake.OnlyBound() && forall read | read in intake.gitReads :: read.1 <= now
    ensures r.answer == Uncached(intake.facts, ref, seen)
         || SharesDigest(intake.facts, old(intake.validated), ref, seen)
  {
    ghost var memory := intake.validated;
    r := intake.Evaluate(ref, seen, now, git);
    if SameContent(intake.facts, memory, ref, seen) {
      BoundRefsAgree(intake.facts, ref, memory[CacheKey(intake.facts, ref, ReadManifest(ref, seen).value.content)].ref);
    }
  }

  /**
   * What happens otherwise: of two calls with one manifest and one root, on refs that disagree on the
   * boundary, the second repeats the answer of the first although its own uncached answer is another.
   */
  method ForeignRefGetsTheOtherAnswer(
    facts: Facts, own: ProjectRef, foreign: ProjectRef, content: Bytes, modified: int, git: GitRead)
    returns (first: IntakeResult, second: IntakeResult)
    requires facts.resolve(own.root) == facts.resolve(foreign.root) && facts.isDirectory(facts.resolve(own.root))
    requires Boundary(facts, own) != Boundary(facts, foreign)
    ensures first.answer == Uncached(facts, own, Sees(content, modified))
    ensures second.answer == first.answer && second.answer != Uncached(facts, foreign, Sees(content, modified))
  {
    var intake := new IngressIntake(facts);
    first := intake.Evaluate(own, Sees(content, modified), 0, git);
    second := intake.Evaluate(foreign, Sees(content, modified), 0, git);
  }

  /** A manifest that is there, so nothing else is looked at. */
  function Sees(content: Bytes, modified: int): Observation {
    Observation(Found(content, modified), Failure(""), Missing(""))
  }

  /**
   * A ref not built by `bind_cwd` can share a cache key with one that was, and be judged
   * differently: the hypothesis on the ref is needed.
   */
  lemma ForeignManifestSharesTheKey(content: Bytes)
    ensures exists facts: Facts, own: ProjectRef, foreign: ProjectRef ::
      && Lawful(facts) && own == BindCwd(own.root, false)
      && facts.resolve(own.root) == facts.resolve(foreign.root)
      && Validate(facts, own, content, facts.sha(content)).Success?
      && Validate(facts, foreign, content, facts.sha(content)).Failure?
  {
    var zero: Hex64 := seq(64, _ => '0');
    var facts := Facts(
      p => p, p => true, p => false, p => Some(p), c => Some("schema"), t => false, c => zero);
    var own, foreign := BindCwd("/p", false), ProjectRef("/p", "/q/manifest.yml", false);
    assert Validate(facts, own, content, facts.sha(content)).Success?;
    assert foreign.manifest[1] != ManifestOf("/p")[1];
    assert Validate(facts, foreign, content, facts.sha(content)).Failure?;
  }
}
