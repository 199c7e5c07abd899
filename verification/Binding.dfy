// runtime/harness_runtime/project_binding.py: the four managed files of a project
// binding, planned and written for one Git HEAD.

module Binding {
  import opened Wrappers
  import opened Json

  datatype Managed = BindingLauncher | SandboxLauncher | BindingFile | LockFile

  /** `MANAGED_PATHS`, in order. */
  const MANAGED_PATHS: seq<Managed> := [BindingLauncher, SandboxLauncher, BindingFile, LockFile]

  datatype Place = Final(path: Managed) | Temporary(path: Managed)

  datatype Node = File(content: string, mode: int) | Directory

  type Tree = map<Place, Node>

  /** Inputs after normalization. */
  datatype Inputs = Inputs(
    projectId: string, protectedBranch: string, railwayService: string, runtimeVersion: string,
    providerTargets: map<string, Option<string>>)

  /** What reading a JSON file comes to: a document, a JSON error, or bytes that are no UTF-8. */
  datatype Decoded = Document(value: Value) | NotJson | NotText

  /**
   * The JSON writer and reader, the fields of the two documents besides `managed_by`, and the
   * launcher lines after the marker.
   */
  datatype Codec = Codec(
    encode: Value -> string, decode: string -> Decoded,
    bindingFields: (Inputs, string) -> Fields, lockFields: (Inputs, string) -> Fields,
    bindingScript: string, sandboxScript: string)

  ghost predicate ReadsBack(codec: Codec, v: Value) {
    codec.decode(codec.encode(v)) == Document(v)
  }

  function BindingDocument(codec: Codec, inputs: Inputs, head: string): Value {
    Obj(codec.bindingFields(inputs, head)[ManagedBy := Str(TOOL_ID)])
  }

  function LockDocument(codec: Codec, inputs: Inputs, head: string): Value {
    Obj(codec.lockFields(inputs, head)[ManagedBy := Str(TOOL_ID)])
  }

  /** The two documents that this program writes parse back. */
  ghost predicate Lawful(codec: Codec) {
    forall inputs: Inputs, head: string ::
      ReadsBack(codec, BindingDocument(codec, inputs, head)) && ReadsBack(codec, LockDocument(codec, inputs, head))
  }

  const TOOL_ID := "harness-project-binding"
  const SHEBANG := "#!/bin/sh"
  const MARKER := "\n# managed-by: harness-project-binding\n"
  const MARKER_WINDOW := 128

  /** Contents and mode of a managed file. */
  function Desired(codec: Codec, inputs: Inputs, head: string, path: Managed): Node {
    match path
    case BindingLauncher => File(SHEBANG + MARKER + codec.bindingScript, 0x1ed)
    case SandboxLauncher => File(SHEBANG + MARKER + codec.sandboxScript, 0x1ed)
    case BindingFile => File(codec.encode(BindingDocument(codec, inputs, head)), 0x1a4)
    case LockFile => File(codec.encode(LockDocument(codec, inputs, head)), 0x1a4)
  }

  predicate Contains(s: string, part: string) {
    exists i | 0 <= i <= |s| :: OccursAt(s, part, i)
  }

  predicate OccursAt(s: string, part: string, i: nat) {
    i + |part| <= |s| && s[i..i + |part|] == part
  }

  datatype Ownership = Owned | Foreign | Raises

  /** `_owned`: JSON that is no object has no `get`, and undecodable text is not a caught error. */
  function OwnershipOf(codec: Codec, path: Managed, node: Node): Ownership {
    if node.Directory? then Foreign
    else if path.BindingLauncher? || path.SandboxLauncher? then
      if Contains(Window(node.content), MARKER) then Owned else Foreign
    else
      match codec.decode(node.content)
      case NotJson => Foreign
      case NotText => Raises
      case Document(Obj(fields)) => if Get(fields, ManagedBy) == Str(TOOL_ID) then Owned else Foreign
      case Document(_) => Raises
  }

  datatype Operation = Create | Noop | Update | Conflict

  datatype Error = NoHead | Raised | Refused(paths: seq<Managed>) | Interrupted

  /** What the plan says of one path. */
  function Planned(codec: Codec, tree: Tree, path: Managed, desired: Node): Result<Operation, Error>
    requires desired.File?
  {
    if Final(path) !in tree then Success(Create)
    else if tree[Final(path)].File? && tree[Final(path)].content == desired.content then Success(Noop)
    else
      match OwnershipOf(codec, path, tree[Final(path)])
      case Owned => Success(Update)
      case Foreign => Success(Conflict)
      case Raises => Failure(Raised)
  }

  function PlannedFor(codec: Codec, tree: Tree, inputs: Inputs, head: string, path: Managed): Result<Operation, Error> {
    Planned(codec, tree, path, Desired(codec, inputs, head, path))
  }

  // ---- ownership -------------------------------------------------------------------

  /** Every managed path is free or owned. */
  predicate Adoptable(codec: Codec, tree: Tree) {
    forall path | path in MANAGED_PATHS :: OwnedAt(codec, tree, path)
  }

  function Window(content: string): string {
    content[..if |content| < MARKER_WINDOW then |content| else MARKER_WINDOW]
  }

  lemma MarkerIsSeen(script: string)
    ensures Contains(Window(SHEBANG + MARKER + script), MARKER)
  {
    var content := SHEBANG + MARKER + script;
    assert Window(content)[|SHEBANG|..|SHEBANG| + |MARKER|] == content[|SHEBANG|..|SHEBANG| + |MARKER|] == MARKER;
    assert OccursAt(Window(content), MARKER, |SHEBANG|);
  }

  /** A written JSON document is owned exactly when it is an object managed by this tool; no object at all raises. */
  lemma JsonOwnershipIsExact(codec: Codec, path: Managed, value: Value, mode: int)
    requires ReadsBack(codec, value) && (path.BindingFile? || path.LockFile?)
    ensures OwnershipOf(codec, path, File(codec.encode(value), mode)) ==
      if !value.Obj? then Raises else if Get(value.fields, ManagedBy) == Str(TOOL_ID) then Owned else Foreign
  {
  }

  /** A launcher is owned exactly when the whole marker lies in its first 128 characters. */
  lemma LauncherOwnershipIsExact(codec: Codec, path: Managed, content: string, mode: int)
    requires path.BindingLauncher? || path.SandboxLauncher?
    ensures OwnershipOf(codec, path, File(content, mode)) == Owned <==>
      exists i: nat :: i + |MARKER| <= MARKER_WINDOW && OccursAt(content, MARKER, i)
  {
    var window := Window(content);
    forall i: nat
      ensures OccursAt(window, MARKER, i) <==> i + |MARKER| <= MARKER_WINDOW && OccursAt(content, MARKER, i)
    {
      if i + |MARKER| <= |window| {
        assert window[i..i + |MARKER|] == content[i..i + |MARKER|];
      }
    }
    if i: nat :| i + |MARKER| <= MARKER_WINDOW && OccursAt(content, MARKER, i) {
      assert OccursAt(window, MARKER, i);
    }
  }

  /** The code owns what it writes, whatever the inputs. */
  lemma DesiredIsOwned(codec: Codec, inputs: Inputs, head: string, path: Managed)
    requires Lawful(codec)
    ensures OwnershipOf(codec, path, Desired(codec, inputs, head, path)) == Owned
  {
    MarkerIsSeen(codec.bindingScript);
    MarkerIsSeen(codec.sandboxScript);
    assert ReadsBack(codec, BindingDocument(codec, inputs, head));
    assert ReadsBack(codec, LockDocument(codec, inputs, head));
  }

  /** A path gets through the plan exactly when it is free or owned: the inputs make no difference. */
  lemma PlannedExactlyWhenAdoptable(codec: Codec, tree: Tree, inputs: Inputs, head: string, path: Managed)
    requires Lawful(codec)
    ensures var planned := PlannedFor(codec, tree, inputs, head, path);
      planned.Success? && planned.value != Conflict <==>
        (Final(path) in tree ==> OwnershipOf(codec, path, tree[Final(path)]) == Owned)
  {
    DesiredIsOwned(codec, inputs, head, path);
    if Final(path) in tree && tree[Final(path)].File? {
      OwnershipReadsContent(codec, path, tree[Final(path)], Desired(codec, inputs, head, path));
    }
  }

  lemma OwnershipReadsContent(codec: Codec, path: Managed, a: Node, b: Node)
    requires a.File? && b.File?
    ensures a.content == b.content ==> OwnershipOf(codec, path, a) == OwnershipOf(codec, path, b)
  {
  }

  // ---- writing --------------------------------------------------------------------------

  /** The tree after the first steps of one write. */
  function Stored(tree: Tree, path: Managed, node: Node, steps: nat): Tree {
    if steps == 0 then tree
    else if steps == 1 then tree[Temporary(path) := node]
    else (tree - {Temporary(path)})[Final(path) := node]
  }

  predicate SameAt(before: Tree, after: Tree, path: Managed) {
    if Final(path) in before then Final(path) in after && after[Final(path)] == before[Final(path)]
    else Final(path) !in after
  }

  predicate HoldsAt(tree: Tree, path: Managed, node: Node) {
    Final(path) in tree && tree[Final(path)] == node
  }

  predicate OwnedAt(codec: Codec, tree: Tree, path: Managed) {
    Final(path) in tree ==> OwnershipOf(codec, path, tree[Final(path)]) == Owned
  }

  predicate AllowedAt(codec: Codec, tree: Tree, inputs: Inputs, head: string, path: Managed) {
    var planned := PlannedFor(codec, tree, inputs, head, path);
    planned.Success? && planned.value != Conflict
  }

  /** Every managed file has its desired contents. */
  predicate Settled(codec: Codec, tree: Tree, inputs: Inputs, head: string) {
    forall path | path in MANAGED_PATHS ::
      PlannedFor(codec, tree, inputs, head, path) == Success(Noop)
  }

  /** What a completed run leaves at a path: the desired file, except that right contents keep their mode. */
  function Repaired(codec: Codec, before: Tree, inputs: Inputs, head: string, path: Managed): Node {
    var desired := Desired(codec, inputs, head, path);
    if PlannedFor(codec, before, inputs, head, path) == Success(Noop) then before[Final(path)] else desired
  }

  /** Positions of the conflicts in a plan. */
  function ConflictsOf(plan: seq<Operation>): (conflicts: seq<nat>)
    ensures forall i | 0 <= i < |conflicts| :: conflicts[i] < |plan| && plan[conflicts[i]] == Conflict
    ensures conflicts == [] ==> forall i | 0 <= i < |plan| :: plan[i] != Conflict
  {
    if plan == [] then []
    else
      var before := ConflictsOf(plan[..|plan| - 1]);
      if plan[|plan| - 1] == Conflict then before + [|plan| - 1] else before
  }

  /** What any number of file steps of one run may have done. */
  predicate Reached(codec: Codec, before: Tree, after: Tree, inputs: Inputs, head: string) {
    forall path | path in MANAGED_PATHS ::
      SameAt(before, after, path) || HoldsAt(after, path, Desired(codec, inputs, head, path))
  }

  /** What a completed run has done. */
  predicate Completed(codec: Codec, before: Tree, after: Tree, inputs: Inputs, head: string) {
    forall path | path in MANAGED_PATHS :: HoldsAt(after, path, Repaired(codec, before, inputs, head, path))
  }

  /** After a completed run the plan is all noop. */
  lemma CompletedIsSettled(codec: Codec, before: Tree, after: Tree, inputs: Inputs, head: string)
    requires Completed(codec, before, after, inputs, head)
    ensures Settled(codec, after, inputs, head)
  {
  }

  /** Stopping anywhere never makes a conflict, not even for a rerun with other inputs on another HEAD. */
  lemma StoppedRunIsAdoptable(
    codec: Codec, before: Tree, after: Tree, inputs: Inputs, head: string, others: Inputs, otherHead: string)
    requires Lawful(codec) && Adoptable(codec, before) && Reached(codec, before, after, inputs, head)
    ensures Adoptable(codec, after)
    ensures forall path | path in MANAGED_PATHS :: AllowedAt(codec, after, others, otherHead, path)
  {
    forall path | path in MANAGED_PATHS
      ensures OwnedAt(codec, after, path) && AllowedAt(codec, after, others, otherHead, path)
    {
      DesiredIsOwned(codec, inputs, head, path);
      assert OwnedAt(codec, before, path);
      PlannedExactlyWhenAdoptable(codec, after, others, otherHead, path);
    }
  }

  /** A completed run leaves the desired modes exactly where the contents were not right already or the mode was. */
  lemma ModesAreDesiredExactly(codec: Codec, before: Tree, after: Tree, inputs: Inputs, head: string, path: Managed)
    requires Completed(codec, before, after, inputs, head) && path in MANAGED_PATHS
    ensures var desired := Desired(codec, inputs, head, path);
      HoldsAt(after, path, desired) <==>
        (HoldsAt(before, path, File(desired.content, desired.mode))
         || !(Final(path) in before && before[Final(path)].File? && before[Final(path)].content == desired.content))
  {
  }

  class Project {
    const codec: Codec
    var tree: Tree

    constructor (codec: Codec, tree: Tree)
      ensures this.codec == codec && this.tree == tree
    {
      this.codec := codec;
      this.tree := tree;
    }

    /** `plan_binding`: one operation for each managed path, or the first thing that raised. */
    method Plan(inputs: Inputs, head: Option<string>) returns (plan: Result<seq<Operation>, Error>)
      ensures head == None ==> plan == Failure(NoHead)
      ensures plan.Success? ==> head.Some? && |plan.value| == |MANAGED_PATHS|
      ensures plan.Success? ==> forall i | 0 <= i < |MANAGED_PATHS| ::
        PlannedFor(codec, tree, inputs, head.value, MANAGED_PATHS[i]) == Success(plan.value[i])
      ensures head.Some? && plan.Failure? ==> plan.error == Raised && exists i | 0 <= i < |MANAGED_PATHS| ::
        PlannedFor(codec, tree, inputs, head.value, MANAGED_PATHS[i]) == Failure(Raised)
    {
      if head == None {
        return Failure(NoHead);
      }
      var actions: seq<Operation> := [];
      for i := 0 to |MANAGED_PATHS|
        invariant |actions| == i
        invariant forall j | 0 <= j < i ::
          PlannedFor(codec, tree, inputs, head.value, MANAGED_PATHS[j]) == Success(actions[j])
      {
        var action := PlannedFor(codec, tree, inputs, head.value, MANAGED_PATHS[i]);
        if action.Failure? {
          return Failure(action.error);
        }
        actions := actions + [action.value];
      }
      return Success(actions);
    }

    /** `_write`, which may stop before either of its two file steps. */
    method Write(path: Managed, node: Node, steps: nat) returns (left: nat, finished: bool)
      modifies this
      ensures tree == Stored(old(tree), path, node, steps)
      ensures finished == (steps >= 2) && left == if finished then steps - 2 else 0
    {
      if steps == 0 {
        return 0, false;
      }
      tree := tree[Temporary(path) := node];
      if steps == 1 {
        return 0, false;
      }
      tree := (tree - {Temporary(path)})[Final(path) := node];
      assert tree == Stored(old(tree), path, node, steps);
      return steps - 2, true;
    }

    /** The plan, refused when it holds a conflict. */
    method PlanWithoutConflict(inputs: Inputs, head: Option<string>) returns (plan: Result<seq<Operation>, Error>)
      requires Lawful(codec)
      ensures plan.Success? <==> head.Some? && Adoptable(codec, tree)
      ensures plan.Failure? ==> plan.error != Interrupted
      ensures plan.Success? ==> |plan.value| == |MANAGED_PATHS| && forall i | 0 <= i < |MANAGED_PATHS| ::
        plan.value[i] != Conflict
        && PlannedFor(codec, tree, inputs, head.value, MANAGED_PATHS[i]) == Success(plan.value[i])
    {
      plan := Plan(inputs, head);
      if head == None {
        return;
      }
      forall path | path in MANAGED_PATHS
        ensures AllowedAt(codec, tree, inputs, head.value, path) <==> OwnedAt(codec, tree, path)
      {
        PlannedExactlyWhenAdoptable(codec, tree, inputs, head.value, path);
      }
      if plan.Failure? {
        ghost var i :| 0 <= i < |MANAGED_PATHS| &&
          PlannedFor(codec, tree, inputs, head.value, MANAGED_PATHS[i]) == Failure(Raised);
        assert !AllowedAt(codec, tree, inputs, head.value, MANAGED_PATHS[i]);
        return;
      }
      var conflicts := ConflictsOf(plan.value);
      if conflicts != [] {
        assert !AllowedAt(codec, tree, inputs, head.value, MANAGED_PATHS[conflicts[0]]);
        return Failure(Refused(seq(|conflicts|, i requires 0 <= i < |conflicts| => MANAGED_PATHS[conflicts[i]])));
      }
    }

    /**
     * `apply_binding`, stopped after any number of file steps. Nothing is written unless every path is
     * free or owned, and a stop leaves each path as it was or as desired.
     */
    method Apply(inputs: Inputs, head: Option<string>, steps: nat) returns (result: Result<seq<Operation>, Error>)
      requires Lawful(codec)
      modifies this
      ensures result.Failure? && result.error != Interrupted <==> head == None || !Adoptable(codec, old(tree))
      ensures result.Failure? && result.error != Interrupted ==> tree == old(tree)
      ensures result == Failure(Interrupted) ==> steps < 2 * |MANAGED_PATHS|
      ensures result.Success? ==> Completed(codec, old(tree), tree, inputs, head.value)
      ensures head.Some? ==> Reached(codec, old(tree), tree, inputs, head.value)
    {
      var plan := PlanWithoutConflict(inputs, head);
      if plan.Failure? {
        return Failure(plan.error);
      }
      var left: nat := steps;
      for i := 0 to |MANAGED_PATHS|
        invariant left + 2 * i >= steps
        invariant forall j | 0 <= j < i ::
          HoldsAt(tree, MANAGED_PATHS[j], Repaired(codec, old(tree), inputs, head.value, MANAGED_PATHS[j]))
        invariant forall j | i <= j < |MANAGED_PATHS| :: SameAt(old(tree), tree, MANAGED_PATHS[j])
      {
        var path := MANAGED_PATHS[i];
        if plan.value[i] == Create || plan.value[i] == Update {
          var finished;
          left, finished := Write(path, Desired(codec, inputs, head.value, path), left);
          if !finished {
            return Failure(Interrupted);
          }
        }
      }
      return Success(plan.value);
    }
  }

  /** A run stopped anywhere, then a rerun with any inputs: the rerun completes and the plan is all noop. */
  method Rerun(
    project: Project, first: Inputs, firstHead: string, steps: nat, second: Inputs, secondHead: string)
    returns (result: Result<seq<Operation>, Error>)
    requires Lawful(project.codec) && Adoptable(project.codec, project.tree)
    modifies project
    ensures result.Success? && Settled(project.codec, project.tree, second, secondHead)
  {
    ghost var before := project.tree;
    result := project.Apply(first, Some(firstHead), steps);
    StoppedRunIsAdoptable(project.codec, before, project.tree, first, firstHead, second, secondHead);
    ghost var stopped := project.tree;
    result := project.Apply(second, Some(secondHead), 2 * |MANAGED_PATHS|);
    CompletedIsSettled(project.codec, stopped, project.tree, second, secondHead);
  }
}
