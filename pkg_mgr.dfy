/**
 * Descriptor ingestion of the ML agent's package manager: when a resource
 * package finishes installing, its JSON descriptor files are turned into calls
 * on the ml-service database.
 *
 * The pure parts (file names, directory convention, flag test, record
 * validation, which calls a record produces) are functions; ParseJson and
 * HandleEvent are the loops that make the calls, each proved to append exactly
 * what those functions describe.
 */
module PkgMgr {
  import opened Wrappers
  import opened CStrings
  import opened JsonValues
  import opened AppInfoJson
  import opened ServiceDb

  /** Where the platform installs global applications, and the resource area under a package. */
  const GlobalApps: CStr := "/opt/usr/globalapps/"
  const ResGlobal: CStr := "/res/global"

  /** The descriptor kinds, numbered as mlsvc_json_type_e numbers them. */
  datatype ArtifactKind = Model | Pipeline | Resource

  /** The kinds an install event ingests, in the order it ingests them. */
  const Kinds: seq<ArtifactKind> := [Model, Pipeline, Resource]

  /** The position of a kind in mlsvc_json_type_e. */
  function KindIndex(kind: ArtifactKind): (i: nat)
    ensures i < |Kinds| && Kinds[i] == kind
  {
    match kind
    case Model => 0
    case Pipeline => 1
    case Resource => 2
  }

  /** Which kind, if any, a file name is the descriptor of. */
  function DescriptorKind(name: string): Option<ArtifactKind> {
    if name == "model_description.json" then Some(Model)
    else if name == "pipeline_description.json" then Some(Pipeline)
    else if name == "resource_description.json" then Some(Resource)
    else None
  }

  /** The fixed descriptor file name of a kind; no two kinds share one. */
  function DescriptorFileName(kind: ArtifactKind): (name: CStr)
    ensures DescriptorKind(name) == Some(kind)
  {
    match kind
    case Model => "model_description.json"
    case Pipeline => "pipeline_description.json"
    case Resource => "resource_description.json"
  }

  /** Where the descriptor of `kind` lives under the artifact directory. */
  function DescriptorPath(dir: CStr, kind: ArtifactKind): (path: CStr)
    ensures |path| > |dir| && path[..|dir|] == dir && path[|dir|] == '/'
    ensures DescriptorKind(path[|dir| + 1..]) == Some(kind)
  {
    BuildFilename(dir, DescriptorFileName(kind))
  }

  /**
   * The global resource area of a package: the fixed prefix, the package id,
   * then "/res/global"; the package id can be read back from it.
   */
  function PackagePath(packageName: CStr): (path: CStr)
    ensures |path| == |GlobalApps| + |packageName| + |ResGlobal|
    ensures path[..|GlobalApps|] == GlobalApps
    ensures path[|GlobalApps|..|GlobalApps| + |packageName|] == packageName
    ensures path[|GlobalApps| + |packageName|..] == ResGlobal
  {
    GlobalApps + packageName + ResGlobal
  }

  /** The artifact directory of a package: its global resource area, then the resource type. */
  function ResourceDir(packageName: CStr, resType: CStr): (dir: CStr)
    ensures dir == "/opt/usr/globalapps/" + packageName + "/res/global/" + resType
  {
    BuildFilename(PackagePath(packageName), resType)
  }

  /**
   * The "activate"/"clear" test: the member is present and equals "true" with
   * ASCII case ignored. An absent member and every other string give false.
   */
  function IsTrueFlag(member: Option<CStr>): (flag: bool)
    ensures flag <==> member.Some? && CaseFoldEqual(member.value, "true")
  {
    if member.None? then false
    else AsciiStrCaseCmp(member.value, "true") == 0
  }

  /** The package-type filter: the type is "rpk" with ASCII case ignored. */
  function IsRpkType(pkgType: CStr): (rpk: bool)
    ensures rpk <==> CaseFoldEqual(pkgType, "rpk")
  {
    AsciiStrCaseCmp(pkgType, "rpk") == 0
  }

  /* ---------------------------------------------------------------------- */
  /* Records and what each produces                                          */
  /* ---------------------------------------------------------------------- */

  /** The records of a descriptor: an array's elements in order, any other root as one record. */
  function Records(root: Json): (records: seq<Json>)
    ensures root.JArray? ==> records == root.elems
    ensures !root.JArray? ==> records == [root]
  {
    if root.JArray? then root.elems else [root]
  }

  /** The string members a record of each kind must carry. */
  function RequiredMembers(kind: ArtifactKind): seq<CStr> {
    match kind
    case Model => ["name", "model"]
    case Pipeline => ["name", "description"]
    case Resource => ["name", "path"]
  }

  /** Every required member of the kind is present as a string. */
  predicate HasRequiredMembers(kind: ArtifactKind, record: Json) {
    forall m :: m in RequiredMembers(kind) ==> StringMember(record, m).Some?
  }

  /** A record that passed validation, with its flags decided. */
  datatype Entry =
    | ModelEntry(name: CStr, model: CStr, description: CStr, active: bool, clearOld: bool)
    | PipelineEntry(name: CStr, description: CStr)
    | ResourceEntry(name: CStr, path: CStr, description: CStr, clearOld: bool)
  {
    function Kind(): ArtifactKind {
      match this
      case ModelEntry(_, _, _, _, _) => Model
      case PipelineEntry(_, _) => Pipeline
      case ResourceEntry(_, _, _, _) => Resource
    }

    /** Whether earlier entries of the same name are deleted first. */
    predicate ClearsOld() {
      !PipelineEntry? && clearOld
    }
  }

  /**
   * Validation of one record: an entry exactly when every required member is a
   * string; the entry has the record's kind, name and flags, and an absent
   * optional description becomes "".
   */
  function Validate(kind: ArtifactKind, record: Json): (entry: Option<Entry>)
    ensures entry.Some? <==> HasRequiredMembers(kind, record)
    ensures entry.Some? ==> entry.value.Kind() == kind && Some(entry.value.name) == StringMember(record, "name")
    ensures entry.Some? && !entry.value.PipelineEntry? ==>
              entry.value.clearOld == IsTrueFlag(StringMember(record, "clear"))
    ensures entry.Some? && entry.value.ModelEntry? ==>
              entry.value.active == IsTrueFlag(StringMember(record, "activate"))
    ensures entry.Some? && !entry.value.PipelineEntry? ==>
              entry.value.description == StringMember(record, "description").GetOr("")
    ensures entry.Some? && entry.value.ModelEntry? ==> Some(entry.value.model) == StringMember(record, "model")
    ensures entry.Some? && entry.value.PipelineEntry? ==> Some(entry.value.description) == StringMember(record, "description")
    ensures entry.Some? && entry.value.ResourceEntry? ==> Some(entry.value.path) == StringMember(record, "path")
  {
    var name := StringMember(record, "name");
    var desc := StringMember(record, "description");
    match kind
    case Model =>
      var model := StringMember(record, "model");
      if name.None? || model.None? then None
      else Some(ModelEntry(name.value, model.value, desc.GetOr(""),
                           IsTrueFlag(StringMember(record, "activate")),
                           IsTrueFlag(StringMember(record, "clear"))))
    case Pipeline =>
      if name.None? || desc.None? then None
      else Some(PipelineEntry(name.value, desc.value))
    case Resource =>
      var path := StringMember(record, "path");
      if name.None? || path.None? then None
      else Some(ResourceEntry(name.value, path.value, desc.GetOr(""),
                              IsTrueFlag(StringMember(record, "clear"))))
  }

  /** Every call of the trace is about `kind`. */
  predicate AllOfKind(ops: seq<RegistryOp>, kind: ArtifactKind) {
    forall op :: op in ops ==> OpKind(op) == kind
  }

  /** The kind of artifact a database call is about. */
  function OpKind(op: RegistryOp): ArtifactKind {
    match op
    case ModelDelete(_, _) => Model
    case ModelAdd(_, _, _, _, _) => Model
    case PipelineSet(_, _) => Pipeline
    case ResourceDelete(_) => Resource
    case ResourceAdd(_, _, _, _) => Resource
  }

  /**
   * The database calls for one valid entry: a delete (of every version, for a
   * model) when the entry clears old ones, then one registration. Every call is
   * about the entry's name and kind, and the registration comes last.
   */
  function EntryOps(entry: Entry, appInfo: AppInfo): (ops: seq<RegistryOp>)
    ensures |ops| == if entry.ClearsOld() then 2 else 1
    ensures forall i :: 0 <= i < |ops| ==> ops[i].name == entry.name && OpKind(ops[i]) == entry.Kind()
    ensures ops[|ops| - 1].IsRegistration() && (|ops| == 2 ==> ops[0].IsDelete())
  {
    match entry
    case ModelEntry(name, model, description, active, clearOld) =>
      (if clearOld then [ModelDelete(name, 0)] else [])
      + [ModelAdd(name, model, active, description, appInfo)]
    case PipelineEntry(name, description) =>
      [PipelineSet(name, description)]
    case ResourceEntry(name, path, description, clearOld) =>
      (if clearOld then [ResourceDelete(name)] else [])
      + [ResourceAdd(name, path, description, appInfo)]
  }

  /**
   * The calls for one record: none exactly when it fails validation, otherwise
   * one or two, all about the kind being ingested.
   */
  function RecordOps(kind: ArtifactKind, record: Json, appInfo: AppInfo): (ops: seq<RegistryOp>)
    ensures ops != [] <==> HasRequiredMembers(kind, record)
    ensures |ops| <= 2
    ensures AllOfKind(ops, kind)
  {
    match Validate(kind, record)
    case None => []
    case Some(entry) => EntryOps(entry, appInfo)
  }

  /**
   * The calls for a run of records, one record after another: at most two per
   * record, all about the kind being ingested.
   */
  function RecordsOps(kind: ArtifactKind, records: seq<Json>, appInfo: AppInfo): (ops: seq<RegistryOp>)
    ensures |ops| <= 2 * |records|
    ensures AllOfKind(ops, kind)
    decreases |records|
  {
    if records == [] then []
    else RecordsOps(kind, records[..|records| - 1], appInfo) + RecordOps(kind, records[|records| - 1], appInfo)
  }

  /** Appending to a trace in two steps is appending the two parts at once. */
  lemma AppendAssoc(a: seq<RegistryOp>, b: seq<RegistryOp>, c: seq<RegistryOp>)
    ensures (a + b) + c == a + (b + c)
  {
  }

  /** The calls for the first i + 1 records are those for the first i, then those of record i. */
  lemma RecordsOpsSnoc(kind: ArtifactKind, records: seq<Json>, i: nat, record: Json, appInfo: AppInfo)
    requires i < |records| && records[i] == record
    ensures RecordsOps(kind, records[..i + 1], appInfo)
         == RecordsOps(kind, records[..i], appInfo) + RecordOps(kind, record, appInfo)
  {
    assert records[..i + 1][..i] == records[..i];
  }

  /**
   * What the filesystem and the JSON parser give for each path: a path that is
   * not a key does not exist; a key maps to the parsed root or to the parser's
   * error message.
   */
  type DescriptorFiles = map<CStr, Result<Json, CStr>>

  /**
   * The calls for one kind under a directory: none when its descriptor is
   * missing or does not parse, otherwise those of its records.
   */
  function DescriptorOps(files: DescriptorFiles, dir: CStr, kind: ArtifactKind, appInfo: AppInfo): (ops: seq<RegistryOp>)
    ensures DescriptorPath(dir, kind) !in files ==> ops == []
    ensures DescriptorPath(dir, kind) in files && files[DescriptorPath(dir, kind)].Failure? ==> ops == []
    ensures AllOfKind(ops, kind)
  {
    var path := DescriptorPath(dir, kind);
    if path !in files then []
    else
      match files[path]
      case Failure(_) => []
      case Success(root) => RecordsOps(kind, Records(root), appInfo)
  }

  /** The calls for several kinds, in the order given: every call is about one of those kinds. */
  function KindsOps(files: DescriptorFiles, dir: CStr, kinds: seq<ArtifactKind>, appInfo: AppInfo): (ops: seq<RegistryOp>)
    ensures forall op :: op in ops ==> OpKind(op) in kinds
    decreases |kinds|
  {
    if kinds == [] then []
    else KindsOps(files, dir, kinds[..|kinds| - 1], appInfo) + DescriptorOps(files, dir, kinds[|kinds| - 1], appInfo)
  }

  /**
   * One pass of _parse_json's record loop: reads the kind's members, skips a
   * record that lacks a required one, decides the flags and makes the record's
   * calls, so the trace grows by exactly RecordOps.
   */
  method IngestRecord(reg: Registry, kind: ArtifactKind, obj: Json, appInfo: AppInfo)
    modifies reg
    ensures reg.trace == old(reg.trace) + RecordOps(kind, obj, appInfo)
  {
    match kind {
      case Model =>
        var name := StringMember(obj, "name");
        var model := StringMember(obj, "model");
        var desc := StringMember(obj, "description");
        var activate := StringMember(obj, "activate");
        var clear := StringMember(obj, "clear");
        if name.None? || model.None? {
          return;
        }
        var active := IsTrueFlag(activate);
        var clearOld := IsTrueFlag(clear);
        if clearOld {
          reg.DeleteModel(name.value, 0);
        }
        reg.AddModel(name.value, model.value, active, desc.GetOr(""), appInfo);
      case Pipeline =>
        var name := StringMember(obj, "name");
        var desc := StringMember(obj, "description");
        if name.None? || desc.None? {
          return;
        }
        reg.SetPipeline(name.value, desc.value);
      case Resource =>
        var name := StringMember(obj, "name");
        var path := StringMember(obj, "path");
        var desc := StringMember(obj, "description");
        var clear := StringMember(obj, "clear");
        if name.None? || path.None? {
          return;
        }
        var clearOld := IsTrueFlag(clear);
        if clearOld {
          reg.DeleteResource(name.value);
        }
        reg.AddResource(name.value, path.value, desc.GetOr(""), appInfo);
    }
  }

  /** The calls for the first t + 1 kinds are those for the first t, then those of kind t. */
  lemma KindsOpsSnoc(files: DescriptorFiles, dir: CStr, kinds: seq<ArtifactKind>, t: nat, appInfo: AppInfo)
    requires t < |kinds|
    ensures KindsOps(files, dir, kinds[..t + 1], appInfo)
         == KindsOps(files, dir, kinds[..t], appInfo) + DescriptorOps(files, dir, kinds[t], appInfo)
  {
    assert kinds[..t + 1][..t] == kinds[..t];
  }

  /**
   * The record loop of _parse_json: an array root is walked element by element
   * in index order, any other root is taken as the one record, and the trace
   * grows by exactly the calls of those records.
   */
  method IngestRoot(reg: Registry, kind: ArtifactKind, root: Json, appInfo: AppInfo)
    modifies reg
    ensures reg.trace == old(reg.trace) + RecordsOps(kind, Records(root), appInfo)
  {
    var elements: Option<seq<Json>> := None;
    var jsonLen := 1;
    if root.JArray? {
      elements := Some(root.elems);
      jsonLen := |root.elems|;
    }
    ghost var records := Records(root);

    ghost var done: seq<RegistryOp> := [];
    for i := 0 to jsonLen
      invariant jsonLen == |records| && (elements.Some? ==> elements.value == records)
      invariant elements.None? ==> records == [root]
      invariant done == RecordsOps(kind, records[..i], appInfo)
      invariant reg.trace == old(reg.trace) + done
    {
      var obj := if elements.Some? then elements.value[i] else root;
      RecordsOpsSnoc(kind, records, i, obj, appInfo);
      IngestRecord(reg, kind, obj, appInfo);
      AppendAssoc(old(reg.trace), done, RecordOps(kind, obj, appInfo));
      done := done + RecordOps(kind, obj, appInfo);
    }
    assert records[..jsonLen] == records;
  }

  /**
   * _parse_json: ingests the descriptor of `kind` under `jsonPath`, making on the
   * database exactly the calls DescriptorOps describes (none when the file is
   * missing or does not parse).
   */
  method ParseJson(reg: Registry, jsonPath: CStr, kind: ArtifactKind, appInfo: AppInfo, files: DescriptorFiles)
    modifies reg
    ensures reg.trace == old(reg.trace) + DescriptorOps(files, jsonPath, kind, appInfo)
  {
    var jsonFile := DescriptorPath(jsonPath, kind);
    if jsonFile !in files {
      return;
    }
    if files[jsonFile].Failure? {
      return;
    }
    var root := files[jsonFile].value;
    IngestRoot(reg, kind, root, appInfo);
  }

  /* ---------------------------------------------------------------------- */
  /* Package events                                                          */
  /* ---------------------------------------------------------------------- */

  /** package_manager_event_type_e. */
  datatype EventType = Install | Uninstall | Update | Move | Clear | ResCopy | ResCreateDir | ResRemove | ResUninstall

  /** package_manager_event_state_e. */
  datatype EventState = Started | Processing | Completed | Failed

  /** A package-manager notification: package type tag, package id, event type and state. */
  datatype PackageEvent = PackageEvent(pkgType: CStr, packageName: CStr, eventType: EventType, eventState: EventState)

  /**
   * What the package-info service answers for the event's package: the outcome
   * of package_info_create, and within it those of get_res_type and
   * get_res_version (errors as their codes).
   */
  datatype PackageInfo = PackageInfo(resType: Result<CStr, int>, resVersion: Result<CStr, int>)

  /** The resource type and version, when all three lookups succeed. */
  function ResourceInfo(info: Result<PackageInfo, int>): (found: Option<(CStr, CStr)>)
    ensures found.Some? <==> info.Success? && info.value.resType.Success? && info.value.resVersion.Success?
    ensures found.Some? ==> found.value == (info.value.resType.value, info.value.resVersion.value)
  {
    if info.Failure? || info.value.resType.Failure? || info.value.resVersion.Failure? then None
    else Some((info.value.resType.value, info.value.resVersion.value))
  }

  /** An install of a resource package that has completed. */
  predicate IsResourceInstallCompleted(ev: PackageEvent) {
    ev.eventType == Install && ev.eventState == Completed && IsRpkType(ev.pkgType)
  }

  /**
   * The database calls one event causes: only a completed install of an rpk
   * package whose resource type and version can be looked up causes any; it
   * ingests every kind in order under the package's artifact directory with one
   * app-info built from the package id, type and version.
   */
  function EventOps(ev: PackageEvent, info: Result<PackageInfo, int>, files: DescriptorFiles): (ops: seq<RegistryOp>)
    ensures ops != [] ==> IsResourceInstallCompleted(ev) && ResourceInfo(info).Some?
  {
    if ev.eventType == ResCopy || !IsRpkType(ev.pkgType) then []
    else if ev.eventType == Install && ev.eventState == Completed then
      match ResourceInfo(info)
      case None => []
      case Some((resType, resVersion)) =>
        KindsOps(files, ResourceDir(ev.packageName, resType), Kinds,
                 ComposeAppInfo(ev.packageName, resType, resVersion))
    else []
  }

  /** The directory an event lists: the package's resource area, on an rpk uninstall start or update completion. */
  function EventListing(ev: PackageEvent): (listed: Option<CStr>)
    ensures listed.Some? <==> IsRpkType(ev.pkgType)
                              && ((ev.eventType == Uninstall && ev.eventState == Started)
                                  || (ev.eventType == Update && ev.eventState == Completed))
    ensures listed.Some? ==> listed.value == PackagePath(ev.packageName)
  {
    if ev.eventType == ResCopy || !IsRpkType(ev.pkgType) then None
    else if (ev.eventType == Uninstall && ev.eventState == Started)
         || (ev.eventType == Update && ev.eventState == Completed) then
      Some(PackagePath(ev.packageName))
    else None
  }

  /**
   * _pkg_mgr_event_cb: makes on the database exactly the calls EventOps
   * describes, and returns the directory it lists, if any.
   */
  method HandleEvent(reg: Registry, ev: PackageEvent, info: Result<PackageInfo, int>, files: DescriptorFiles)
    returns (listed: Option<CStr>)
    modifies reg
    ensures reg.trace == old(reg.trace) + EventOps(ev, info, files)
    ensures listed == EventListing(ev)
  {
    listed := None;
    if ev.eventType == ResCopy {
      return;
    }
    if AsciiStrCaseCmp(ev.pkgType, "rpk") != 0 {
      return;
    }
    var pkgPath := PackagePath(ev.packageName);

    if ev.eventType == Install && ev.eventState == Completed {
      if info.Failure? {
        return;
      }
      var pkgInfo := info.value;
      if pkgInfo.resType.Failure? {
        return;
      }
      var resType := pkgInfo.resType.value;
      if pkgInfo.resVersion.Failure? {
        return;
      }
      var resVersion := pkgInfo.resVersion.value;

      var appInfo := ComposeAppInfo(ev.packageName, resType, resVersion);
      var jsonPath := BuildFilename(pkgPath, resType);
      ghost var done: seq<RegistryOp> := [];
      for t := 0 to |Kinds|
        invariant done == KindsOps(files, jsonPath, Kinds[..t], appInfo)
        invariant reg.trace == old(reg.trace) + done
      {
        KindsOpsSnoc(files, jsonPath, Kinds, t, appInfo);
        ParseJson(reg, jsonPath, Kinds[t], appInfo, files);
        AppendAssoc(old(reg.trace), done, DescriptorOps(files, jsonPath, Kinds[t], appInfo));
        done := done + DescriptorOps(files, jsonPath, Kinds[t], appInfo);
      }
      assert Kinds[..|Kinds|] == Kinds;
      assert jsonPath == ResourceDir(ev.packageName, resType);
    } else if ev.eventType == Uninstall && ev.eventState == Started {
      listed := Some(pkgPath);
    } else if ev.eventType == Update && ev.eventState == Completed {
      listed := Some(pkgPath);
    }
  }
}
