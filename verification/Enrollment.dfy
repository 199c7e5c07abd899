// runtime/harness_runtime/project_enrollment.py: manifest, project registry and
// channel mapping reconciled through adapters that may fail at any call.

module Enrollment {
  import opened Wrappers

  // ---- the outside world ------------------------------------------------------

  /** What the YAML loader makes of the manifest. */
  datatype Manifest = Malformed | NotAMapping | NoWorkspace | Workspace(cwd: string)

  datatype ManifestFile = Absent | Nonregular | Regular(manifest: Manifest)

  /** `project list`, and `project show` by slug; a shown project may have no primary path. */
  datatype Registry = Registry(listed: seq<string>, shown: map<string, Option<string>>)

  /** A stored setting; everything but a string is one case, JSON null included. */
  datatype Setting = Text(slug: string) | OtherValue

  datatype Request = Request(projectSlug: string, root: string, configTarget: string)

  // ---- how the adapter calls of one run go --------------------------------------

  datatype CreateFate = Written | FoundThere(file: ManifestFile) | NotWritten(file: ManifestFile)

  /** The registry afterwards is whatever the command left, whether it reported success or not. */
  datatype ProjectFate = ProjectFate(reported: bool, registry: Registry)

  /** Whether the command reports success, and the setting it leaves: the requested one or another. */
  datatype SetFate = SetFate(reported: bool, kept: bool, otherwise: Option<Setting>) {
    function Left(slug: string): Option<Setting> {
      if kept then Some(Text(slug)) else otherwise
    }
  }

  datatype Fates = Fates(
    pathRead: Option<string>,          // None: the call failed
    manifestReadable: bool,
    mappingReadable: bool, mappedShown: bool,
    listed: bool, hidden: set<string>,  // slugs whose `show` fails
    create: CreateFate, manifestReadableAgain: bool,
    project: ProjectFate,
    listedAgain: bool, hiddenAgain: set<string>,
    write: SetFate, mappingReadableAgain: bool)

  // ---- components -----------------------------------------------------------------

  datatype Operation = Noop | Create | Reconcile

  datatype Observation =
    | TargetMismatch | NonregularFile | MalformedFile | InvalidForm | WorkspaceFormMismatch | RootMismatch
    | RegistrySlugUnresolved

  datatype Problem =
    | PathFailed | ManifestFailed | MappingReadFailed | ShowFailed | ListFailed | CreateFailed | ProjectFailed
    | Unresolved | SetFailed | ReadbackFailed | ReadbackMismatch

  /** A component's `receipts` hold one partial receipt per problem. */
  datatype Component = Component(operation: Operation, observations: seq<Observation>, receipts: seq<Problem>) {
    function Observed(o: Observation): Component {
      this.(observations := observations + [o])
    }

    function Failed(p: Problem): Component {
      this.(receipts := receipts + [p])
    }
  }

  datatype Status = Partial | Planned | Applied | Unchanged

  datatype Report = Report(
    status: Status, configTarget: Component, manifest: Component, registry: Component, mapping: Component)
  {
    predicate HasPartialReceipt() {
      configTarget.receipts != [] || manifest.receipts != [] || registry.receipts != [] || mapping.receipts != []
    }
  }

  // ---- what the enumeration means -------------------------------------------------

  predicate ResolvesTo(registry: Registry, slug: string, root: string) {
    slug in registry.listed && slug in registry.shown && registry.shown[slug] == Some(root)
  }

  /** `list` and `show` know the same projects. */
  ghost predicate Consistent(registry: Registry) {
    forall slug :: slug in registry.listed <==> slug in registry.shown
  }

  /** The first listed project at the root; a listed project that cannot be shown raises. */
  function Enumerated(listed: seq<string>, registry: Registry, root: string, hidden: set<string>)
    : Result<Option<string>, Problem>
  {
    if listed == [] then Success(None)
    else if listed[0] in hidden || listed[0] !in registry.shown then Failure(ShowFailed)
    else if registry.shown[listed[0]] == Some(root) then Success(Some(listed[0]))
    else Enumerated(listed[1..], registry, root, hidden)
  }

  lemma {:induction false} EnumerationResolves(
    listed: seq<string>, registry: Registry, root: string, hidden: set<string>)
    requires forall slug | slug in listed :: slug in registry.listed
    ensures var found := Enumerated(listed, registry, root, hidden);
      && (found.Success? && found.value.Some? ==> ResolvesTo(registry, found.value.value, root))
      && (found == Success(None) ==> forall slug | slug in listed :: !ResolvesTo(registry, slug, root))
      && (found.Success? ==> Enumerated(listed, registry, root, {}) == found)
      && (hidden == {} && Consistent(registry) ==> found.Success?)
  {
    if listed != [] {
      EnumerationResolves(listed[1..], registry, root, hidden);
    }
  }

  /** Everything an enrolment is for: a manifest, a listed project at the root, and the channel mapped to such a one. */
  predicate Converged(manifest: ManifestFile, registry: Registry, mapping: Option<Setting>, root: string) {
    var found := Enumerated(registry.listed, registry, root, {});
    && manifest != Absent
    && found.Success? && found.value.Some?
    && MapsTo(registry, mapping, root)
  }

  /** The channel is mapped to a project that shows the root. */
  predicate MapsTo(registry: Registry, mapping: Option<Setting>, root: string) {
    && mapping.Some? && mapping.value.Text?
    && mapping.value.slug in registry.shown && registry.shown[mapping.value.slug] == Some(root)
  }

  /** No call fails. */
  predicate FaultFree(f: Fates) {
    && f.pathRead.Some? && f.manifestReadable && f.mappingReadable && f.mappedShown && f.listed && f.hidden == {}
    && f.create == Written && f.manifestReadableAgain && f.project.reported && f.listedAgain && f.hiddenAgain == {}
    && f.write.reported && f.mappingReadableAgain
  }

  /** The commands that change something leave what they were asked for. */
  ghost predicate Obeyed(f: Fates, request: Request) {
    Consistent(f.project.registry) && ResolvesTo(f.project.registry, request.projectSlug, request.root) && f.write.kept
  }

  class Host {
    var manifest: ManifestFile
    var registry: Registry
    var mapping: Option<Setting>
    var creations: nat         // manifests and projects this program has asked for
    var writes: seq<string>    // slugs it has written to the mapping

    constructor (manifest: ManifestFile, registry: Registry, mapping: Option<Setting>)
      ensures this.manifest == manifest && this.registry == registry && this.mapping == mapping
      ensures creations == 0 && writes == []
    {
      this.manifest, this.registry, this.mapping := manifest, registry, mapping;
      creations, writes := 0, [];
    }

    method ConfigTargetComponent(request: Request, pathRead: Option<string>) returns (c: Component)
      ensures c.operation == Noop && (c.receipts == [] <==> pathRead.Some?)
      ensures c.observations ==
        if pathRead.Some? && pathRead.value != request.configTarget then [TargetMismatch] else []
    {
      c := Component(Noop, [], []);
      if pathRead == None {
        c := c.Failed(PathFailed);
      } else if pathRead.value != request.configTarget {
        c := c.Observed(TargetMismatch);
      }
    }

    method ManifestComponent(request: Request, readable: bool) returns (c: Component)
      ensures c.operation == if readable && manifest == Absent then Create else Noop
      ensures c.receipts == [] <==> readable
      ensures c.observations == [] <==> !readable || manifest == Absent || manifest == Regular(Workspace(request.root))
    {
      c := Component(Noop, [], []);
      if !readable {
        return c.Failed(ManifestFailed);
      }
      match manifest
      case Absent => c := c.(operation := Create);
      case Nonregular => c := c.Observed(NonregularFile);
      case Regular(Malformed) => c := c.Observed(MalformedFile);
      case Regular(NotAMapping) => c := c.Observed(InvalidForm);
      case Regular(NoWorkspace) => c := c.Observed(WorkspaceFormMismatch);
      case Regular(Workspace(cwd)) =>
        if cwd != request.root {
          c := c.Observed(RootMismatch);
        }
    }

    method ProjectPrimary(slug: string, answers: bool, missingOk: bool) returns (r: Result<Option<string>, Problem>)
      ensures r == if !answers || (slug !in registry.shown && !missingOk) then Failure(ShowFailed)
                   else Success(if slug in registry.shown then registry.shown[slug] else None)
    {
      if !answers {
        return Failure(ShowFailed);
      }
      if slug !in registry.shown {
        return if missingOk then Success(None) else Failure(ShowFailed);
      }
      return Success(registry.shown[slug]);
    }

    method RootProjectSlug(root: string, lists: bool, hidden: set<string>) returns (r: Result<Option<string>, Problem>)
      ensures r == if lists then Enumerated(registry.listed, registry, root, hidden) else Failure(ListFailed)
    {
      if !lists {
        return Failure(ListFailed);
      }
      for i := 0 to |registry.listed|
        invariant Enumerated(registry.listed, registry, root, hidden)
               == Enumerated(registry.listed[i..], registry, root, hidden)
      {
        var slug := registry.listed[i];
        var primary := ProjectPrimary(slug, slug !in hidden, false);
        if primary.Failure? {
          return Failure(primary.error);
        }
        if primary.value == Some(root) {
          return Success(Some(slug));
        }
      }
      return Success(None);
    }

    method MappingComponent(request: Request, readable: bool, shown: bool) returns (c: Component)
      ensures c.operation == Noop <==> readable && shown && MapsTo(registry, mapping, request.root)
      ensures c.operation == Create <==> readable && mapping == None
      ensures c.receipts == [] <==> readable && (mapping.Some? && mapping.value.Text? ==> shown)
    {
      c := Component(Noop, [], []);
      if !readable {
        return c.(operation := Reconcile).Failed(MappingReadFailed);
      }
      match mapping
      case None => c := c.(operation := Create);
      case Some(OtherValue) => c := c.(operation := Reconcile).Observed(TargetMismatch);
      case Some(Text(slug)) =>
        var primary := ProjectPrimary(slug, shown, true);
        if primary.Failure? {
          c := c.(operation := Reconcile).Failed(primary.error);
        } else if primary.value != Some(request.root) {
          c := c.(operation := Reconcile).Observed(TargetMismatch);
        }
    }

    method RegistryComponent(request: Request, lists: bool, hidden: set<string>)
      returns (c: Component, slug: Option<string>)
      ensures var found :=
          if lists then Enumerated(registry.listed, registry, request.root, hidden) else Failure(ListFailed);
        && c.operation == (if found.Failure? then Reconcile else if found.value.Some? then Noop else Create)
        && (c.receipts == [] <==> found.Success?)
        && slug == (if found.Success? then found.value else None)
    {
      c := Component(Create, [], []);
      var found := RootProjectSlug(request.root, lists, hidden);
      if found.Failure? {
        return c.(operation := Reconcile).Failed(found.error), None;
      }
      if found.value.Some? {
        c := c.(operation := Noop);
      }
      slug := found.value;
    }

    /** `plan_enrollment` changes nothing. */
    method Plan(request: Request, f: Fates) returns (report: Report)
      ensures report.status == if report.HasPartialReceipt() then Partial else Planned
      ensures report.manifest.operation == Create <==> f.manifestReadable && manifest == Absent
      ensures report.mapping.operation == Noop <==>
        f.mappingReadable && f.mappedShown && MapsTo(registry, mapping, request.root)
      ensures Converged(manifest, registry, mapping, request.root) && FaultFree(f) ==>
        report.status == Planned && report.manifest.operation == Noop && report.registry.operation == Noop
        && report.mapping.operation == Noop
    {
      var mapped := MappingComponent(request, f.mappingReadable, f.mappedShown);
      var registered, _ := RegistryComponent(request, f.listed, f.hidden);
      var target := ConfigTargetComponent(request, f.pathRead);
      var file := ManifestComponent(request, f.manifestReadable);
      report := Report(Planned, target, file, registered, mapped);
      if report.HasPartialReceipt() {
        report := report.(status := Partial);
      }
    }

    method CreateManifest(component: Component, fate: CreateFate, request: Request, readableAgain: bool)
      returns (c: Component, changed: bool)
      requires manifest == Absent && component.operation == Create && component.receipts == []
      modifies this`manifest, this`creations
      ensures creations == old(creations) + 1 && c.operation == Create
      ensures changed <==> fate == Written
      ensures c.receipts == [] <==> !fate.NotWritten? && readableAgain
      ensures manifest == match fate
        case Written => Regular(Workspace(request.root))
        case FoundThere(file) => file
        case NotWritten(file) => file
    {
      c, changed := component, false;
      creations := creations + 1;
      match fate {
        case Written =>
          manifest := Regular(Workspace(request.root));
          changed := true;
        case FoundThere(file) => manifest := file;
        case NotWritten(file) =>
          manifest := file;
          c := c.Failed(CreateFailed);
      }
      var observed := ManifestComponent(request, readableAgain);
      c := c.(observations := c.observations + observed.observations, receipts := c.receipts + observed.receipts);
    }

    method CreateProject(component: Component, fate: ProjectFate) returns (c: Component, changed: bool)
      modifies this`registry, this`creations
      ensures creations == old(creations) + 1 && registry == fate.registry
      ensures changed == fate.reported && c.operation == component.operation
      ensures c.receipts == [] <==> component.receipts == [] && fate.reported
    {
      c, changed := component, false;
      creations := creations + 1;
      registry := fate.registry;
      if fate.reported {
        changed := true;
      } else {
        c := c.Failed(ProjectFailed);
      }
    }

    method WriteMapping(component: Component, slug: string, fate: SetFate, readable: bool)
      returns (c: Component, changed: bool)
      modifies this`mapping, this`writes
      ensures writes == old(writes) + [slug] && mapping == fate.Left(slug)
      ensures changed == fate.reported
      ensures c.receipts == [] <==>
        component.receipts == [] && fate.reported && readable && mapping == Some(Text(slug))
    {
      c, changed := component, false;
      writes := writes + [slug];
      mapping := fate.Left(slug);
      if !fate.reported {
        return c.Failed(SetFailed), changed;
      }
      changed := true;
      if !readable {
        return c.Failed(ReadbackFailed), changed;
      }
      if mapping != Some(Text(slug)) {
        c := c.Failed(ReadbackMismatch);
      }
    }

    /** Whatever is found missing is asked for, once each. */
    method CreateMissing(request: Request, f: Fates, manifested: Component, registered: Component)
      returns (file: Component, project: Component, changed: bool)
      requires f.create.FoundThere? ==> f.create.file != Absent
      requires manifested.operation == Create ==> manifest == Absent && manifested.receipts == []
      modifies this`manifest, this`registry, this`creations
      ensures manifested.operation != Create ==> manifest == old(manifest) && file == manifested
      ensures manifested.operation == Create ==>
        (file.receipts == [] <==> !f.create.NotWritten? && f.manifestReadableAgain)
        && (file.receipts == [] ==> manifest != Absent)
      ensures registry == if registered.operation == Create then f.project.registry else old(registry)
      ensures project.receipts == [] <==>
        registered.receipts == [] && (registered.operation == Create ==> f.project.reported)
      ensures changed == ((manifested.operation == Create && f.create == Written)
                          || (registered.operation == Create && f.project.reported))
      ensures creations == old(creations) + (if manifested.operation == Create then 1 else 0)
                           + (if registered.operation == Create then 1 else 0)
    {
      var made, created := false, false;
      file, project := manifested, registered;
      if file.operation == Create {
        file, made := CreateManifest(file, f.create, request, f.manifestReadableAgain);
      }
      if project.operation == Create {
        project, created := CreateProject(project, f.project);
      }
      changed := made || created;
    }

    /** The last enumeration, and the mapping write that may follow; `resolved` stays when it raises. */
    method ResolveAndMap(
      request: Request, f: Fates, registered: Component, resolved: Option<string>, mapped: Component)
      returns (r: Component, m: Component, changed: bool)
      modifies this`mapping, this`writes
      ensures var found := if f.listedAgain then Enumerated(registry.listed, registry, request.root, f.hiddenAgain)
                           else Failure(ListFailed);
        var slug := if found.Success? then found.value else resolved;
        && (r.receipts == [] <==> registered.receipts == [] && found.Success? && slug.Some?)
        && if slug == None || mapped.operation == Noop then
             !changed && writes == old(writes) && mapping == old(mapping) && m.receipts == mapped.receipts
           else
             && changed == f.write.reported
             && writes == old(writes) + [slug.value] && mapping == f.write.Left(slug.value)
             && (m.receipts == [] <==> mapped.receipts == [] && f.write.reported && f.mappingReadableAgain
                                       && mapping == Some(Text(slug.value)))
    {
      r, m, changed := registered, mapped, false;
      var slug := resolved;
      var found := RootProjectSlug(request.root, f.listedAgain, f.hiddenAgain);
      if found.Failure? {
        r := r.Failed(found.error);
      } else {
        slug := found.value;
        if slug == None {
          r := r.Failed(Unresolved);
        }
      }
      if slug == None {
        m := m.Observed(RegistrySlugUnresolved);
      } else if m.operation != Noop {
        m, changed := WriteMapping(m, slug.value, f.write, f.mappingReadableAgain);
      }
    }

    /** `apply_enrollment`. A file that `create_exclusive` runs into is there. */
    method Apply(request: Request, f: Fates) returns (report: Report)
      requires f.create.FoundThere? ==> f.create.file != Absent
      modifies this
      ensures report.status == Partial <==> report.HasPartialReceipt()
      ensures report.status != Planned
      // at most one mapping write, failures included, and only of a slug that the registry then shows at the root
      ensures writes == old(writes)
           || (|writes| == |old(writes)| + 1 && writes[..|old(writes)|] == old(writes)
               && ResolvesTo(registry, writes[|old(writes)|], request.root))
      ensures writes == old(writes) ==> mapping == old(mapping)
      // nothing that is there is replaced
      ensures old(manifest) != Absent ==> manifest == old(manifest)
      ensures (exists slug :: ResolvesTo(old(registry), slug, request.root)) ==> registry == old(registry)
      // a run without a partial receipt converges
      ensures Consistent(old(registry)) && report.status != Partial ==>
        Converged(manifest, registry, mapping, request.root)
      // a run in which every call does its work has no partial receipt
      ensures Consistent(old(registry)) && FaultFree(f) && Obeyed(f, request) ==> report.status != Partial
      // a converged run asks for nothing and writes nothing
      ensures Converged(old(manifest), old(registry), old(mapping), request.root) && FaultFree(f) ==>
        && report.status == Unchanged && creations == old(creations) && writes == old(writes)
        && manifest == old(manifest) && registry == old(registry) && mapping == old(mapping)
    {
      var target := ConfigTargetComponent(request, f.pathRead);
      var file := ManifestComponent(request, f.manifestReadable);
      var mapped := MappingComponent(request, f.mappingReadable, f.mappedShown);
      var registered, resolved := RegistryComponent(request, f.listed, f.hidden);
      EnumerationResolves(registry.listed, registry, request.root, f.hidden);
      var created, written;
      file, registered, created := CreateMissing(request, f, file, registered);
      EnumerationResolves(registry.listed, registry, request.root, f.hiddenAgain);
      registered, mapped, written := ResolveAndMap(request, f, registered, resolved, mapped);
      report := Report(if created || written then Applied else Unchanged, target, file, registered, mapped);
      if report.HasPartialReceipt() {
        report := report.(status := Partial);
      }
    }
  }

  /** All that a host holds. */
  datatype World = World(
    manifest: ManifestFile, registry: Registry, mapping: Option<Setting>, creations: nat, writes: seq<string>)

  /**
   * From any consistent state: once a run ends without a partial receipt, the next one reports noop, and
   * leaves the host exactly as it found it `between` the two, with nothing created and nothing written.
   */
  method ApplyTwice(host: Host, request: Request, first: Fates, second: Fates)
    returns (before: Report, between: World, after: Report)
    requires first.create.FoundThere? ==> first.create.file != Absent
    requires FaultFree(second) && Consistent(host.registry)
    modifies host
    ensures before.status != Partial ==>
      after.status == Unchanged && Converged(host.manifest, host.registry, host.mapping, request.root)
    ensures before.status != Partial ==>
      between == World(host.manifest, host.registry, host.mapping, host.creations, host.writes)
    ensures |between.writes| <= |old(host.writes)| + 1
  {
    before := host.Apply(request, first);
    between := World(host.manifest, host.registry, host.mapping, host.creations, host.writes);
    after := host.Apply(request, second);
  }
}
