// runtime/harness_runtime/ingress.py: `ExecutionReceipts`, the hash-chained
// lifecycle receipts, their retention and the replay window it leaves.

module Lifecycle {
  import opened Wrappers
  import opened Json

  const RECEIPT_SCHEMA := "harness.cps.execution-receipt.v1"
  const RETENTION := 7 * 24 * 60 * 60
  const PRUNE_INTERVAL := 5 * 60

  /** The digests of documents and of file names, and the clock's text format. */
  datatype Library = Library(
    sha: Sha256, path: string -> string, stamp: int -> string, parse: string -> Option<int>)

  /** A written time reads back. */
  ghost predicate Lawful(lib: Library) {
    forall t: int :: lib.parse(lib.stamp(t)) == Some(t)
  }

  /** A receipt file: what `json.loads` makes of it, or a file that cannot be used at all. */
  datatype File =
    | Damaged
    | Stored(schema: Value, id: Value, entries: seq<Value>)

  type Directory = map<string, File>

  // ---- the chain -----------------------------------------------------------

  /** The part of an entry that its digest covers. */
  function Body(entry: Value): Value {
    if entry.Obj? then Obj(entry.fields - {ReceiptHash}) else entry
  }

  function HashOf(sha: Sha256, entries: seq<Value>): Value {
    if entries == [] then Null else Str(sha.document(Body(entries[|entries| - 1])))
  }

  predicate LinkHolds(sha: Sha256, entries: seq<Value>, k: nat)
    requires k < |entries|
  {
    && entries[k].Obj?
    && EqualsInt(Get(entries[k].fields, Sequence), k + 1)
    && Get(entries[k].fields, PreviousHash) == HashOf(sha, entries[..k])
    && Get(entries[k].fields, ReceiptHash) == HashOf(sha, entries[..k + 1])
  }

  predicate ChainHolds(sha: Sha256, entries: seq<Value>) {
    forall k | 0 <= k < |entries| :: LinkHolds(sha, entries, k)
  }

  function Stages(entries: seq<Value>): seq<Value> {
    seq(|entries|, i requires 0 <= i < |entries| =>
      if entries[i].Obj? then Get(entries[i].fields, Stage) else Null)
  }

  const COMPLETE_LIFECYCLES: set<seq<Value>> := {
    [Str("received"), Str("intake-ready"), Str("route"), Str("running"), Str("terminal")],
    [Str("received"), Str("intake-ready"), Str("consumer-running"), Str("terminal")],
    [Str("received"), Str("intake-ready"), Str("terminal")],
    [Str("received"), Str("intake-hold"), Str("terminal")]}

  predicate HasStages(entries: seq<Value>) {
    forall entry | entry in entries :: entry.Obj? && Stage in entry.fields
  }

  /** What `read` accepts without asking for a finished lifecycle. */
  predicate Acceptable(lib: Library, file: File, id: string) {
    && file.Stored? && file.schema == Str(RECEIPT_SCHEMA) && file.id == Str(id)
    && ChainHolds(lib.sha, file.entries) && HasStages(file.entries)
  }

  /** Two accepted chains with one final hash are one chain, or two of their bodies collide. */
  lemma {:induction false} ChainCommits(sha: Sha256, left: seq<Value>, right: seq<Value>)
    requires ChainHolds(sha, left) && ChainHolds(sha, right)
    requires left != [] && right != [] && HashOf(sha, left) == HashOf(sha, right)
    ensures left == right || exists i, j ::
      && 0 <= i < |left| && 0 <= j < |right| && Collide(sha, Body(left[i]), Body(right[j]))
    decreases |left|
  {
    var m, n := |left| - 1, |right| - 1;
    assert LinkHolds(sha, left, m) && LinkHolds(sha, right, n);
    assert left[..m + 1] == left && right[..n + 1] == right;
    if Body(left[m]) != Body(right[n]) {
      assert Collide(sha, Body(left[m]), Body(right[n]));
    } else {
      var l, r := left[m].fields, right[n].fields;
      assert Get(Body(left[m]).fields, Sequence) == Get(l, Sequence);
      assert Get(Body(right[n]).fields, Sequence) == Get(r, Sequence);
      assert m == n;
      assert l == Body(left[m]).fields[ReceiptHash := HashOf(sha, left)];
      assert r == Body(right[n]).fields[ReceiptHash := HashOf(sha, right)];
      assert left[m] == right[n];
      if m > 0 {
        assert Get(Body(left[m]).fields, PreviousHash) == Get(l, PreviousHash);
        assert Get(Body(right[n]).fields, PreviousHash) == Get(r, PreviousHash);
        PrefixHolds(sha, left, m);
        PrefixHolds(sha, right, n);
        ChainCommits(sha, left[..m], right[..n]);
      }
      assert left == left[..m] + [left[m]] && right == right[..n] + [right[n]];
    }
  }

  lemma PrefixHolds(sha: Sha256, entries: seq<Value>, m: nat)
    requires ChainHolds(sha, entries) && m <= |entries|
    ensures ChainHolds(sha, entries[..m])
  {
    forall k | 0 <= k < m ensures LinkHolds(sha, entries[..m], k) {
      assert LinkHolds(sha, entries, k);
      assert entries[..m][..k] == entries[..k] && entries[..m][..k + 1] == entries[..k + 1];
    }
  }

  // ---- appending -----------------------------------------------------------

  function NewEntry(lib: Library, entries: seq<Value>, stage: string, evidence: Value, now: int): Value {
    var body: Fields := map[
      Sequence := Int(|entries| + 1), Stage := Str(stage), RecordedAt := Str(lib.stamp(now)),
      PreviousHash := LastHash(entries), Evidence := evidence];
    Obj(body[ReceiptHash := Str(lib.sha.document(Obj(body)))])
  }

  /** `entries[-1]["receipt_hash"] if entries else None`. */
  function LastHash(entries: seq<Value>): Value {
    if entries == [] || !entries[|entries| - 1].Obj? then Null
    else Get(entries[|entries| - 1].fields, ReceiptHash)
  }

  function Appended(lib: Library, file: File, stage: string, evidence: Value, now: int): File
    requires file.Stored?
  {
    file.(entries := file.entries + [NewEntry(lib, file.entries, stage, evidence, now)])
  }

  function Opened(lib: Library, id: string, evidence: Value, now: int): File {
    Appended(lib, Stored(Str(RECEIPT_SCHEMA), Str(id), []), "received", evidence, now)
  }

  /** Appending keeps every earlier entry and leaves a chain that `read` accepts. */
  lemma AppendKeepsTheChain(lib: Library, file: File, id: string, stage: string, evidence: Value, now: int)
    requires Acceptable(lib, file, id)
    ensures var next := Appended(lib, file, stage, evidence, now);
      && Acceptable(lib, next, id)
      && file.entries < next.entries && |next.entries| == |file.entries| + 1
      && Stages(next.entries) == Stages(file.entries) + [Str(stage)]
  {
    var kept, entry := file.entries, NewEntry(lib, file.entries, stage, evidence, now);
    var longer := kept + [entry];
    forall k | 0 <= k < |longer| ensures LinkHolds(lib.sha, longer, k) {
      assert longer[..k] == kept[..k] && longer[..|longer|] == longer;
      if k < |kept| {
        assert LinkHolds(lib.sha, kept, k) && longer[..k + 1] == kept[..k + 1];
      } else {
        NewEntryLinks(lib, kept, stage, evidence, now);
        assert longer[..k] == kept && longer[..k + 1] == longer;
      }
    }
  }

  lemma NewEntryLinks(lib: Library, entries: seq<Value>, stage: string, evidence: Value, now: int)
    requires ChainHolds(lib.sha, entries)
    ensures var entry := NewEntry(lib, entries, stage, evidence, now);
      && EqualsInt(Get(entry.fields, Sequence), |entries| + 1)
      && Get(entry.fields, PreviousHash) == HashOf(lib.sha, entries)
      && Get(entry.fields, ReceiptHash) == HashOf(lib.sha, entries + [entry])
  {
    var entry := NewEntry(lib, entries, stage, evidence, now);
    var body := entry.fields - {ReceiptHash};
    assert entry.fields[ReceiptHash] == Str(lib.sha.document(Obj(body))) by {
      assert body == map[
        Sequence := Int(|entries| + 1), Stage := Str(stage), RecordedAt := Str(lib.stamp(now)),
        PreviousHash := LastHash(entries), Evidence := evidence];
    }
    if entries != [] {
      assert LinkHolds(lib.sha, entries, |entries| - 1);
      assert entries[..|entries|] == entries;
    }
  }

  lemma OpenedIsAcceptable(lib: Library, id: string, evidence: Value, now: int)
    ensures Acceptable(lib, Opened(lib, id, evidence, now), id)
  {
    AppendKeepsTheChain(lib, Stored(Str(RECEIPT_SCHEMA), Str(id), []), id, "received", evidence, now);
  }

  // ---- retention -----------------------------------------------------------

  function LastField(file: File, key: Key): Value {
    if file.Stored? && file.entries != [] && file.entries[|file.entries| - 1].Obj?
    then Get(file.entries[|file.entries| - 1].fields, key)
    else Null
  }

  predicate EndsTerminal(file: File) {
    LastField(file, Stage) == Str("terminal")
  }

  function LastTime(lib: Library, file: File): Option<int> {
    if LastField(file, RecordedAt).Str? then lib.parse(LastField(file, RecordedAt).s) else None
  }

  predicate Prunable(lib: Library, file: File, cutoff: int) {
    EndsTerminal(file) && LastTime(lib, file).Some? && LastTime(lib, file).value <= cutoff
  }

  function Expired(lib: Library, files: Directory, cutoff: int, stuck: set<string>): set<string> {
    set path | path in files && path !in stuck && Prunable(lib, files[path], cutoff)
  }

  lemma OneLess<V>(start: map<string, V>, expired: set<string>, left: set<string>, todo: set<string>, path: string)
    requires path in todo && left == expired * todo && todo <= start.Keys
    ensures var files := start - (expired - left);
      path in files && files[path] == start[path]
      && (path in expired ==> files - {path} == start - (expired - (left - {path})))
    ensures expired * (todo - {path}) == if path in expired then left - {path} else left
  {
    if path in expired {
      assert expired - (left - {path}) == (expired - left) + {path};
    }
  }

  datatype ReadError = Unavailable | IdentityMismatch | Discontinuous | DigestMismatch | NotTerminal | Uncaught
  datatype StartError = AlreadyExists | Torn

  function FileAt(lib: Library, files: Directory, id: string): File {
    if lib.path(id) in files then files[lib.path(id)] else Damaged
  }

  class ExecutionReceipts {
    var files: Directory
    var lastPrune: int  // on the monotonic clock, 0 before the first prune

    constructor ()
      ensures files == map[] && lastPrune == 0
    {
      files, lastPrune := map[], 0;
    }

    /** Accepts exactly the well-formed chains of this id, and finished ones only when asked to. */
    method Read(lib: Library, id: string, requireTerminal: bool) returns (r: Result<File, ReadError>)
      ensures r.Success? <==>
        && Acceptable(lib, FileAt(lib, files, id), id)
        && (requireTerminal ==> Stages(FileAt(lib, files, id).entries) in COMPLETE_LIFECYCLES)
      ensures r.Success? ==> r.value == FileAt(lib, files, id)
    {
      var file := FileAt(lib, files, id);
      if file.Damaged? {
        return Failure(Unavailable);
      }
      if file.schema != Str(RECEIPT_SCHEMA) || file.id != Str(id) {
        return Failure(IdentityMismatch);
      }
      var previous: Value := Null;
      var k := 0;
      while k < |file.entries|
        invariant 0 <= k <= |file.entries|
        invariant previous == HashOf(lib.sha, file.entries[..k])
        invariant forall i | 0 <= i < k :: LinkHolds(lib.sha, file.entries, i)
      {
        var entry := file.entries[k];
        if !entry.Obj? {
          return Failure(Uncaught);
        }
        if !EqualsInt(Get(entry.fields, Sequence), k + 1) || Get(entry.fields, PreviousHash) != previous {
          assert !LinkHolds(lib.sha, file.entries, k);
          return Failure(Discontinuous);
        }
        var expected := Str(lib.sha.document(Body(entry)));
        assert file.entries[..k + 1][k] == entry;
        assert expected == HashOf(lib.sha, file.entries[..k + 1]);
        if Get(entry.fields, ReceiptHash) != expected {
          assert !LinkHolds(lib.sha, file.entries, k);
          return Failure(DigestMismatch);
        }
        previous := expected;
        k := k + 1;
      }
      if exists entry | entry in file.entries :: !entry.Obj? || Stage !in entry.fields {
        return Failure(Uncaught);
      }
      if requireTerminal && Stages(file.entries) !in COMPLETE_LIFECYCLES {
        return Failure(NotTerminal);
      }
      return Success(file);
    }

    /** Append one stage to a readable receipt; otherwise fail and change nothing. */
    method Transition(lib: Library, id: string, stage: string, evidence: Value, now: int)
      returns (r: Result<(), ReadError>)
      modifies this`files
      ensures files == Applied(lib, old(files), Append(id, stage, evidence, now))
      ensures r.Success? <==> Acceptable(lib, FileAt(lib, old(files), id), id)
    {
      var receipt := Read(lib, id, false);
      if receipt.Failure? {
        return Failure(receipt.error);
      }
      files := files[lib.path(id) := Appended(lib, receipt.value, stage, evidence, now)];
      return Success(());
    }

    /** Unlink every receipt whose last entry is an old enough terminal one, except those that resist. */
    method PruneTerminal(lib: Library, retention: int, now: int, stuck: set<string>)
      returns (r: Result<nat, ()>)
      modifies this`files
      ensures r.Failure? <==> retention < 0
      ensures var gone := if retention < 0 then {} else Expired(lib, old(files), now - retention, stuck);
        files == old(files) - gone && (r.Success? ==> r.value == |gone|)
    {
      if retention < 0 {
        return Failure(());
      }
      ghost var expired := Expired(lib, files, now - retention, stuck);
      var removed := UnlinkExpired(lib, now - retention, stuck, expired);
      return Success(removed);
    }

    /** The loop over the directory, in any order. */
    method UnlinkExpired(lib: Library, cutoff: int, stuck: set<string>, ghost expired: set<string>)
      returns (removed: nat)
      requires expired <= files.Keys
      requires forall path | path in files ::
        path in expired <==> Prunable(lib, files[path], cutoff) && path !in stuck
      modifies this`files
      ensures files == old(files) - expired && removed == |expired|
    {
      removed := 0;
      var todo := files.Keys;
      ghost var start := files;
      ghost var left := expired;
      while todo != {}
        invariant left == expired * todo && todo <= start.Keys
        invariant files == start - (expired - left)
        invariant removed + |left| == |expired|
        decreases todo
      {
        var path :| path in todo;
        OneLess(start, expired, left, todo, path);
        var unlinked := UnlinkIfExpired(lib, path, cutoff, stuck);
        if unlinked {
          removed := removed + 1;
          left := left - {path};
        }
        todo := todo - {path};
      }
    }

    method UnlinkIfExpired(lib: Library, path: string, cutoff: int, stuck: set<string>) returns (unlinked: bool)
      requires path in files
      modifies this`files
      ensures unlinked == (Prunable(lib, old(files)[path], cutoff) && path !in stuck)
      ensures files == if unlinked then old(files) - {path} else old(files)
    {
      unlinked := Prunable(lib, files[path], cutoff) && path !in stuck;
      if unlinked {
        files := files - {path};
      }
    }

    /** Prune with the default retention, at most once per interval of the monotonic clock. */
    method PruneTerminalIfDue(lib: Library, now: int, monotonic: int, stuck: set<string>)
      modifies this
      ensures var due := monotonic - old(lastPrune) >= PRUNE_INTERVAL;
        && files == (if due then Applied(lib, old(files), Prune(now, stuck)) else old(files))
        && lastPrune == (if due then monotonic else old(lastPrune))
    {
      if monotonic - lastPrune < PRUNE_INTERVAL {
        return;
      }
      var _ := PruneTerminal(lib, RETENTION, now, stuck);
      lastPrune := monotonic;
    }

    /** Prune if due, then create the receipt exclusively. `torn`: stopped between create and write. */
    method Start(lib: Library, id: string, evidence: Value, pruneNow: int, monotonic: int,
                 stuck: set<string>, now: int, torn: bool)
      returns (r: Result<(), StartError>)
      modifies this
      ensures var due := monotonic - old(lastPrune) >= PRUNE_INTERVAL;
        var kept := if due then Applied(lib, old(files), Prune(pruneNow, stuck)) else old(files);
        && files == Applied(lib, kept, Create(id, evidence, now, torn))
        && r == (if lib.path(id) in kept then Failure(AlreadyExists) else if torn then Failure(Torn) else Success(()))
    {
      PruneTerminalIfDue(lib, pruneNow, monotonic, stuck);
      var path := lib.path(id);
      if path in files {
        return Failure(AlreadyExists);
      }
      if torn {
        files := files[path := Damaged];
        return Failure(Torn);
      }
      files := files[path := Opened(lib, id, evidence, now)];
      return Success(());
    }
  }

  // ---- runs ------------------------------------------------------------------

  datatype Op =
    | Create(id: string, evidence: Value, now: int, torn: bool)
    | Append(id: string, stage: string, evidence: Value, now: int)
    | Prune(now: int, stuck: set<string>)

  function Applied(lib: Library, files: Directory, op: Op): Directory {
    match op
    case Create(id, evidence, now, torn) =>
      if lib.path(id) in files then files
      else files[lib.path(id) := if torn then Damaged else Opened(lib, id, evidence, now)]
    case Append(id, stage, evidence, now) =>
      if Acceptable(lib, FileAt(lib, files, id), id)
      then files[lib.path(id) := Appended(lib, FileAt(lib, files, id), stage, evidence, now)]
      else files
    case Prune(now, stuck) => files - Expired(lib, files, now - RETENTION, stuck)
  }

  /** The directory before step k. */
  function Before(lib: Library, files: Directory, ops: seq<Op>, k: nat): Directory
    requires k <= |ops|
  {
    if k == 0 then files else Applied(lib, Before(lib, files, ops, k - 1), ops[k - 1])
  }

  ghost predicate ClockNeverGoesBack(ops: seq<Op>) {
    forall i, j | 0 <= i < j < |ops| :: ops[i].now <= ops[j].now
  }

  predicate Starts(lib: Library, files: Directory, op: Op, id: string) {
    op.Create? && op.id == id && !op.torn && lib.path(id) !in files
  }

  /** Only a prune at least the retention period after a terminal last entry removes a receipt. */
  lemma RemovalNeedsAnOldTerminal(lib: Library, files: Directory, op: Op, path: string)
    requires path in files && path !in Applied(lib, files, op)
    ensures op.Prune? && EndsTerminal(files[path])
    ensures LastTime(lib, files[path]).Some? && op.now >= LastTime(lib, files[path]).value + RETENTION
  {
  }

  /** This id's receipt, begun no earlier than `since`, and every entry of it recorded since. */
  predicate LiveSince(lib: Library, files: Directory, id: string, since: int) {
    var path := lib.path(id);
    path in files ==>
      && Acceptable(lib, files[path], id)
      && LastTime(lib, files[path]).Some? && LastTime(lib, files[path]).value >= since
  }

  lemma AppliedStaysLive(lib: Library, files: Directory, op: Op, id: string, since: int)
    requires Lawful(lib) && lib.path(id) in files && LiveSince(lib, files, id, since) && op.now >= since
    ensures LiveSince(lib, Applied(lib, files, op), id, since)
  {
    if op.Append? && Acceptable(lib, FileAt(lib, files, op.id), op.id) && lib.path(op.id) == lib.path(id) {
      AppendKeepsTheChain(lib, files[lib.path(id)], id, op.stage, op.evidence, op.now);
    }
  }

  lemma {:induction false} LivesUntil(lib: Library, files: Directory, ops: seq<Op>, id: string, i: nat, k: nat)
    requires i < k <= |ops| && Lawful(lib) && ClockNeverGoesBack(ops)
    requires Starts(lib, Before(lib, files, ops, i), ops[i], id)
    requires forall m | i < m < k :: lib.path(id) in Before(lib, files, ops, m)
    ensures LiveSince(lib, Before(lib, files, ops, k), id, ops[i].now)
  {
    if k == i + 1 {
      OpenedIsAcceptable(lib, id, ops[i].evidence, ops[i].now);
    } else {
      LivesUntil(lib, files, ops, id, i, k - 1);
      AppliedStaysLive(lib, Before(lib, files, ops, k - 1), ops[k - 1], id, ops[i].now);
    }
  }

  lemma {:induction false} FirstAbsence(lib: Library, files: Directory, ops: seq<Op>, path: string, i: nat, j: nat)
    returns (k: nat)
    requires i < j <= |ops|
    requires path in Before(lib, files, ops, i + 1) && path !in Before(lib, files, ops, j)
    ensures i < k < j && path in Before(lib, files, ops, k) && path !in Before(lib, files, ops, k + 1)
    ensures forall m | i < m <= k :: path in Before(lib, files, ops, m)
    decreases j
  {
    if path in Before(lib, files, ops, j - 1) && forall m | i < m < j :: path in Before(lib, files, ops, m) {
      k := j - 1;
    } else {
      var m :| i < m < j && path !in Before(lib, files, ops, m);
      k := FirstAbsence(lib, files, ops, path, i, m);
    }
  }

  /**
   * Two successful starts of one id are separated by a prune that removes the first receipt, at
   * least the retention period after its terminal entry, which is itself no earlier than the first start.
   */
  lemma ReplayWindow(lib: Library, files: Directory, ops: seq<Op>, id: string, i: nat, j: nat)
    requires i < j < |ops| && Lawful(lib) && ClockNeverGoesBack(ops)
    requires Starts(lib, Before(lib, files, ops, i), ops[i], id)
    requires Starts(lib, Before(lib, files, ops, j), ops[j], id)
    ensures exists k, file ::
      (i < k < j && RemovedBy(lib, files, ops, id, k, file) && LastTime(lib, file).value >= ops[i].now)
    ensures ops[j].now >= ops[i].now + RETENTION
  {
    var path := lib.path(id);
    var k := FirstAbsence(lib, files, ops, path, i, j);
    var before := Before(lib, files, ops, k);
    LivesUntil(lib, files, ops, id, i, k);
    RemovalNeedsAnOldTerminal(lib, before, ops[k], path);
    assert RemovedBy(lib, files, ops, id, k, before[path]);
  }

  ghost predicate RemovedBy(lib: Library, files: Directory, ops: seq<Op>, id: string, k: nat, file: File) {
    && k < |ops| && ops[k].Prune?
    && lib.path(id) in Before(lib, files, ops, k) && Before(lib, files, ops, k)[lib.path(id)] == file
    && Acceptable(lib, file, id) && EndsTerminal(file)
    && LastTime(lib, file).Some? && ops[k].now >= LastTime(lib, file).value + RETENTION
  }

  lemma UnfinishedSurvivesOneStep(lib: Library, files: Directory, op: Op, path: string)
    requires path in files && !EndsTerminal(files[path])
    ensures var next := Applied(lib, files, op);
      && path in next && Extends(files[path], next[path])
      && (!(op.Append? && lib.path(op.id) == path) ==> next[path] == files[path])
  {
    if path !in Applied(lib, files, op) {
      RemovalNeedsAnOldTerminal(lib, files, op, path);
    }
  }

  /** While its last stage is not terminal, a receipt is neither removed nor restarted, only extended. */
  lemma {:induction false} UnfinishedIsKept(
    lib: Library, files: Directory, ops: seq<Op>, path: string, i: nat, j: nat)
    requires i <= j <= |ops| && path in Before(lib, files, ops, i)
    requires forall m | i <= m < j && path in Before(lib, files, ops, m) ::
      !EndsTerminal(Before(lib, files, ops, m)[path])
    ensures path in Before(lib, files, ops, j)
    ensures Extends(Before(lib, files, ops, i)[path], Before(lib, files, ops, j)[path])
    decreases j
  {
    if i < j {
      UnfinishedIsKept(lib, files, ops, path, i, j - 1);
      var before := Before(lib, files, ops, j - 1);
      UnfinishedSurvivesOneStep(lib, before, ops[j - 1], path);
      ExtendsIsTransitive(Before(lib, files, ops, i)[path], before[path], Applied(lib, before, ops[j - 1])[path]);
    }
  }

  lemma ExtendsIsTransitive(a: File, b: File, c: File)
    requires Extends(a, b) && Extends(b, c)
    ensures Extends(a, c)
  {
  }

  predicate Extends(before: File, after: File) {
    if before.Damaged? then after == before
    else after.Stored? && after.schema == before.schema && after.id == before.id && before.entries <= after.entries
  }
}
