/**
 * What descriptor ingestion guarantees, stated over the functions of PkgMgr
 * (which ParseJson and HandleEvent are proved to follow): where descriptors are
 * looked for, how roots and records are walked, which records are skipped, what
 * the flags do, and in which order and with which app-info an install event
 * calls the database.
 */
module PkgMgrProperties {
  import opened Wrappers
  import opened CStrings
  import opened JsonValues
  import opened AppInfoJson
  import opened ServiceDb
  import opened PkgMgr

  /* ---------------------------------------------------------------------- */
  /* Locating descriptors                                                    */
  /* ---------------------------------------------------------------------- */

  /** Under one directory, the three kinds are looked for at three different paths. */
  lemma DescriptorPathsDistinct(dir: CStr, k1: ArtifactKind, k2: ArtifactKind)
    requires DescriptorPath(dir, k1) == DescriptorPath(dir, k2)
    ensures k1 == k2
  {
    var p1, p2 := DescriptorPath(dir, k1), DescriptorPath(dir, k2);
    assert DescriptorFileName(k1) == p1[|dir| + 1..] == p2[|dir| + 1..] == DescriptorFileName(k2);
    assert Some(k1) == DescriptorKind(DescriptorFileName(k1)) == Some(k2);
  }

  /* ---------------------------------------------------------------------- */
  /* Walking the records                                                     */
  /* ---------------------------------------------------------------------- */

  /** The calls for one record standing alone. */
  lemma RecordsOpsSingleton(kind: ArtifactKind, record: Json, appInfo: AppInfo)
    ensures RecordsOps(kind, [record], appInfo) == RecordOps(kind, record, appInfo)
  {
    assert [record][..0] == [];
  }

  /** The calls for two runs of records are those of the first run, then those of the second. */
  lemma {:induction false} RecordsOpsAppend(kind: ArtifactKind, a: seq<Json>, b: seq<Json>, appInfo: AppInfo)
    ensures RecordsOps(kind, a + b, appInfo) == RecordsOps(kind, a, appInfo) + RecordsOps(kind, b, appInfo)
    decreases |b|
  {
    if b == [] {
      assert a + b == a;
    } else {
      var init, last := b[..|b| - 1], b[|b| - 1];
      assert (a + b)[..|a + b| - 1] == a + init;
      assert (a + b)[|a + b| - 1] == last;
      RecordsOpsAppend(kind, a, init, appInfo);
      AppendAssoc(RecordsOps(kind, a, appInfo), RecordsOps(kind, init, appInfo), RecordOps(kind, last, appInfo));
    }
  }

  /**
   * A single (non-array) root is ingested exactly like a one-element array
   * holding it.
   */
  lemma SingleRootIsOneElementArray(files: DescriptorFiles, dir: CStr, kind: ArtifactKind, appInfo: AppInfo, root: Json)
    requires !root.JArray?
    ensures var path := DescriptorPath(dir, kind);
            DescriptorOps(files[path := Success(root)], dir, kind, appInfo)
            == DescriptorOps(files[path := Success(JArray([root]))], dir, kind, appInfo)
            == RecordOps(kind, root, appInfo)
  {
    RecordsOpsSingleton(kind, root, appInfo);
  }

  /**
   * Array order: the calls of record i come after those of every earlier record
   * and before those of every later one.
   */
  lemma RecordCallsInIndexOrder(kind: ArtifactKind, records: seq<Json>, i: nat, appInfo: AppInfo)
    requires i < |records|
    ensures RecordsOps(kind, records, appInfo)
         == RecordsOps(kind, records[..i], appInfo) + RecordOps(kind, records[i], appInfo)
            + RecordsOps(kind, records[i + 1..], appInfo)
  {
    assert records == records[..i] + [records[i]] + records[i + 1..];
    RecordsOpsAppend(kind, records[..i] + [records[i]], records[i + 1..], appInfo);
    RecordsOpsAppend(kind, records[..i], [records[i]], appInfo);
    RecordsOpsSingleton(kind, records[i], appInfo);
  }

  /**
   * Skip and continue: a record lacking a required member leaves no call, and
   * the records around it are ingested as if it were not there.
   */
  lemma SkippedRecordLeavesNoTrace(kind: ArtifactKind, before: seq<Json>, record: Json, after: seq<Json>, appInfo: AppInfo)
    requires !HasRequiredMembers(kind, record)
    ensures RecordOps(kind, record, appInfo) == []
    ensures RecordsOps(kind, before + [record] + after, appInfo) == RecordsOps(kind, before + after, appInfo)
  {
    assert Validate(kind, record).None?;
    RecordsOpsSingleton(kind, record, appInfo);
    RecordsOpsAppend(kind, before, [record], appInfo);
    assert RecordsOps(kind, before + [record], appInfo) == RecordsOps(kind, before, appInfo);
    RecordsOpsAppend(kind, before + [record], after, appInfo);
    RecordsOpsAppend(kind, before, after, appInfo);
  }

  /* ---------------------------------------------------------------------- */
  /* Which records get registered                                            */
  /* ---------------------------------------------------------------------- */

  /** The names registered by a trace (model adds, pipeline sets, resource adds), in order. */
  function Registered(ops: seq<RegistryOp>): seq<CStr>
    decreases |ops|
  {
    if ops == [] then []
    else
      var last := ops[|ops| - 1];
      Registered(ops[..|ops| - 1]) + (if last.IsRegistration() then [last.name] else [])
  }

  /** The names of the records that pass validation, in record order. */
  function ValidNames(kind: ArtifactKind, records: seq<Json>): seq<CStr>
    decreases |records|
  {
    if records == [] then []
    else
      ValidNames(kind, records[..|records| - 1])
      + match Validate(kind, records[|records| - 1])
        case None => []
        case Some(entry) => [entry.name]
  }

  /** How many records lack a required member. */
  function SkippedCount(kind: ArtifactKind, records: seq<Json>): nat
    decreases |records|
  {
    if records == [] then 0
    else SkippedCount(kind, records[..|records| - 1]) + (if HasRequiredMembers(kind, records[|records| - 1]) then 0 else 1)
  }

  /** The names registered by two traces in a row are those of the first, then those of the second. */
  lemma {:induction false} RegisteredAppend(a: seq<RegistryOp>, b: seq<RegistryOp>)
    ensures Registered(a + b) == Registered(a) + Registered(b)
    decreases |b|
  {
    if b == [] {
      assert a + b == a;
    } else {
      var init := b[..|b| - 1];
      assert (a + b)[..|a + b| - 1] == a + init;
      assert (a + b)[|a + b| - 1] == b[|b| - 1];
      RegisteredAppend(a, init);
    }
  }

  /** A valid entry registers its name exactly once, whether or not it clears first. */
  lemma RegisteredByEntry(entry: Entry, appInfo: AppInfo)
    ensures Registered(EntryOps(entry, appInfo)) == [entry.name]
  {
    var ops := EntryOps(entry, appInfo);
    if |ops| == 2 {
      assert ops[..1][..0] == [];
      assert Registered(ops[..1]) == [];
    } else {
      assert ops[..0] == [];
    }
  }

  /**
   * Every record that passes validation is registered once, in record order, and
   * nothing else is registered.
   */
  lemma {:induction false} RegisteredInRecordOrder(kind: ArtifactKind, records: seq<Json>, appInfo: AppInfo)
    ensures Registered(RecordsOps(kind, records, appInfo)) == ValidNames(kind, records)
    decreases |records|
  {
    if records != [] {
      var init, last := records[..|records| - 1], records[|records| - 1];
      RegisteredInRecordOrder(kind, init, appInfo);
      RegisteredAppend(RecordsOps(kind, init, appInfo), RecordOps(kind, last, appInfo));
      match Validate(kind, last)
      case None =>
      case Some(entry) => RegisteredByEntry(entry, appInfo);
    }
  }

  /** Every record is either registered or skipped. */
  lemma {:induction false} ValidNamesCount(kind: ArtifactKind, records: seq<Json>)
    ensures |ValidNames(kind, records)| == |records| - SkippedCount(kind, records)
    decreases |records|
  {
    if records != [] {
      ValidNamesCount(kind, records[..|records| - 1]);
    }
  }

  /** Of N records of which M lack a required member, exactly N - M are registered. */
  lemma RegistrationCount(kind: ArtifactKind, records: seq<Json>, appInfo: AppInfo)
    ensures |Registered(RecordsOps(kind, records, appInfo))| == |records| - SkippedCount(kind, records)
  {
    RegisteredInRecordOrder(kind, records, appInfo);
    ValidNamesCount(kind, records);
  }

  /* ---------------------------------------------------------------------- */
  /* The calls of one record                                                 */
  /* ---------------------------------------------------------------------- */

  /**
   * A model record with a name and a model: a delete of every version of the
   * name exactly when "clear" is true, then one add carrying the model path, the
   * "activate" flag, the description ("" when absent) and the app-info.
   */
  lemma ModelRecordOps(record: Json, appInfo: AppInfo)
    requires StringMember(record, "name").Some? && StringMember(record, "model").Some?
    ensures var name := StringMember(record, "name").value;
            RecordOps(Model, record, appInfo)
            == (if IsTrueFlag(StringMember(record, "clear")) then [ModelDelete(name, 0)] else [])
               + [ModelAdd(name, StringMember(record, "model").value, IsTrueFlag(StringMember(record, "activate")),
                           StringMember(record, "description").GetOr(""), appInfo)]
  {
  }

  /** A pipeline record with a name and a description: one set, never a delete. */
  lemma PipelineRecordOps(record: Json, appInfo: AppInfo)
    requires StringMember(record, "name").Some? && StringMember(record, "description").Some?
    ensures RecordOps(Pipeline, record, appInfo)
            == [PipelineSet(StringMember(record, "name").value, StringMember(record, "description").value)]
  {
  }

  /**
   * A resource record with a name and a path: a delete of the name exactly when
   * "clear" is true, then one add carrying the path, the description ("" when
   * absent) and the app-info.
   */
  lemma ResourceRecordOps(record: Json, appInfo: AppInfo)
    requires StringMember(record, "name").Some? && StringMember(record, "path").Some?
    ensures var name := StringMember(record, "name").value;
            RecordOps(Resource, record, appInfo)
            == (if IsTrueFlag(StringMember(record, "clear")) then [ResourceDelete(name)] else [])
               + [ResourceAdd(name, StringMember(record, "path").value,
                              StringMember(record, "description").GetOr(""), appInfo)]
  {
  }

  /** `add` is the registration that the delete `del` clears the way for. */
  predicate ClearsFor(del: RegistryOp, add: RegistryOp) {
    match del
    case ModelDelete(name, version) => version == 0 && add.ModelAdd? && add.name == name
    case ResourceDelete(name) => add.ResourceAdd? && add.name == name
    case _ => false
  }

  /** Every delete in a trace is immediately followed by the add of the same name it clears for. */
  ghost predicate DeletesPaired(ops: seq<RegistryOp>) {
    forall i :: 0 <= i < |ops| && ops[i].IsDelete() ==> i + 1 < |ops| && ClearsFor(ops[i], ops[i + 1])
  }

  /** Pairing survives concatenation: a paired trace cannot end with a delete. */
  lemma DeletesPairedAppend(a: seq<RegistryOp>, b: seq<RegistryOp>)
    requires DeletesPaired(a) && DeletesPaired(b)
    ensures DeletesPaired(a + b)
  {
    forall i | 0 <= i < |a + b| && (a + b)[i].IsDelete()
      ensures i + 1 < |a + b| && ClearsFor((a + b)[i], (a + b)[i + 1])
    {
      if i < |a| {
        assert (a + b)[i] == a[i] && (a + b)[i + 1] == a[i + 1];
      } else {
        assert (a + b)[i] == b[i - |a|] && (a + b)[i + 1] == b[i + 1 - |a|];
      }
    }
  }

  /**
   * In everything one kind's records produce, a delete is issued only
   * immediately before the add of the same name (of every model version, for a
   * model), never on its own.
   */
  lemma {:induction false} DeleteImmediatelyBeforeAdd(kind: ArtifactKind, records: seq<Json>, appInfo: AppInfo)
    ensures DeletesPaired(RecordsOps(kind, records, appInfo))
    decreases |records|
  {
    if records != [] {
      var init, last := records[..|records| - 1], records[|records| - 1];
      DeleteImmediatelyBeforeAdd(kind, init, appInfo);
      var ops := RecordOps(kind, last, appInfo);
      assert DeletesPaired(ops) by {
        if ops != [] {
          var entry := Validate(kind, last).value;
          assert ops == EntryOps(entry, appInfo);
        }
      }
      DeletesPairedAppend(RecordsOps(kind, init, appInfo), ops);
    }
  }

  /* ---------------------------------------------------------------------- */
  /* Kind and app-info of every call                                         */
  /* ---------------------------------------------------------------------- */

  /** Every call is about the kind being ingested, and every add carries the given app-info. */
  ghost predicate CallsOf(ops: seq<RegistryOp>, kind: ArtifactKind, appInfo: AppInfo) {
    forall i :: 0 <= i < |ops| ==>
      OpKind(ops[i]) == kind && (ops[i].ModelAdd? || ops[i].ResourceAdd? ==> ops[i].appInfo == appInfo)
  }

  /** A run of records produces only calls about its kind, carrying the given app-info. */
  lemma {:induction false} RecordsOpsCallsOf(kind: ArtifactKind, records: seq<Json>, appInfo: AppInfo)
    ensures CallsOf(RecordsOps(kind, records, appInfo), kind, appInfo)
    decreases |records|
  {
    if records != [] {
      var init, last := records[..|records| - 1], records[|records| - 1];
      RecordsOpsCallsOf(kind, init, appInfo);
      var a, b := RecordsOps(kind, init, appInfo), RecordOps(kind, last, appInfo);
      forall i | 0 <= i < |a + b|
        ensures OpKind((a + b)[i]) == kind
        ensures (a + b)[i].ModelAdd? || (a + b)[i].ResourceAdd? ==> (a + b)[i].appInfo == appInfo
      {
        if i >= |a| {
          assert (a + b)[i] == b[i - |a|];
        }
      }
    }
  }

  /** The descriptor of one kind produces only calls about that kind, carrying the given app-info. */
  lemma DescriptorOpsCallsOf(files: DescriptorFiles, dir: CStr, kind: ArtifactKind, appInfo: AppInfo)
    ensures CallsOf(DescriptorOps(files, dir, kind, appInfo), kind, appInfo)
  {
    var path := DescriptorPath(dir, kind);
    if path in files && files[path].Success? {
      RecordsOpsCallsOf(kind, Records(files[path].value), appInfo);
    }
  }

  /** Pipelines are only ever set: a pipeline descriptor causes no delete and no add. */
  lemma PipelinesOnlySet(files: DescriptorFiles, dir: CStr, appInfo: AppInfo)
    ensures forall op :: op in DescriptorOps(files, dir, Pipeline, appInfo) ==> op.PipelineSet?
  {
    DescriptorOpsCallsOf(files, dir, Pipeline, appInfo);
  }

  /* ---------------------------------------------------------------------- */
  /* Package events                                                          */
  /* ---------------------------------------------------------------------- */

  /** The three kinds, one after another. */
  lemma AllKindsOps(files: DescriptorFiles, dir: CStr, appInfo: AppInfo)
    ensures KindsOps(files, dir, Kinds, appInfo)
         == DescriptorOps(files, dir, Model, appInfo) + DescriptorOps(files, dir, Pipeline, appInfo)
            + DescriptorOps(files, dir, Resource, appInfo)
  {
    assert Kinds[..2] == [Model, Pipeline] && [Model, Pipeline][..1] == [Model] && [Model][..0] == [];
    assert KindsOps(files, dir, [Model], appInfo) == DescriptorOps(files, dir, Model, appInfo);
    assert KindsOps(files, dir, [Model, Pipeline], appInfo)
        == KindsOps(files, dir, [Model], appInfo) + DescriptorOps(files, dir, Pipeline, appInfo);
  }

  /**
   * A completed install of an rpk package whose type and version are found
   * ingests models, then pipelines, then resources, all from
   * /opt/usr/globalapps/<package>/res/global/<type>, all with the app-info
   * composed from the package id, type and version.
   */
  lemma InstallIngestsModelPipelineResource(ev: PackageEvent, info: Result<PackageInfo, int>, files: DescriptorFiles,
                                            resType: CStr, resVersion: CStr)
    requires IsResourceInstallCompleted(ev)
    requires ResourceInfo(info) == Some((resType, resVersion))
    ensures var dir := "/opt/usr/globalapps/" + ev.packageName + "/res/global/" + resType;
            var appInfo := ComposeAppInfo(ev.packageName, resType, resVersion);
            EventOps(ev, info, files)
            == DescriptorOps(files, dir, Model, appInfo) + DescriptorOps(files, dir, Pipeline, appInfo)
               + DescriptorOps(files, dir, Resource, appInfo)
  {
    var dir, appInfo := ResourceDir(ev.packageName, resType), ComposeAppInfo(ev.packageName, resType, resVersion);
    assert EventOps(ev, info, files) == KindsOps(files, dir, Kinds, appInfo);
    AllKindsOps(files, dir, appInfo);
  }

  /** Every model call precedes every pipeline call, which precedes every resource call. */
  ghost predicate InKindOrder(ops: seq<RegistryOp>) {
    forall i, j :: 0 <= i < j < |ops| ==> KindIndex(OpKind(ops[i])) <= KindIndex(OpKind(ops[j]))
  }

  /** Model calls, then pipeline calls, then resource calls, all with one app-info, are in kind order and all carry it. */
  lemma ThreeKindsInOrder(a: seq<RegistryOp>, b: seq<RegistryOp>, c: seq<RegistryOp>, appInfo: AppInfo)
    requires CallsOf(a, Model, appInfo) && CallsOf(b, Pipeline, appInfo) && CallsOf(c, Resource, appInfo)
    ensures InKindOrder(a + b + c)
    ensures forall i :: 0 <= i < |a + b + c| && ((a + b + c)[i].ModelAdd? || (a + b + c)[i].ResourceAdd?) ==>
              (a + b + c)[i].appInfo == appInfo
  {
    var ops := a + b + c;
    forall i | 0 <= i < |ops|
      ensures KindIndex(OpKind(ops[i])) == (if i < |a| then 0 else if i < |a| + |b| then 1 else 2)
      ensures ops[i].ModelAdd? || ops[i].ResourceAdd? ==> ops[i].appInfo == appInfo
    {
      if i < |a| {
        assert ops[i] == a[i];
      } else if i < |a| + |b| {
        assert ops[i] == b[i - |a|];
      } else {
        assert ops[i] == c[i - |a| - |b|];
      }
    }
  }

  /** The calls of any event are grouped by kind: models first, then pipelines, then resources. */
  lemma EventCallsInKindOrder(ev: PackageEvent, info: Result<PackageInfo, int>, files: DescriptorFiles)
    ensures InKindOrder(EventOps(ev, info, files))
  {
    if EventOps(ev, info, files) != [] {
      var (resType, resVersion) := ResourceInfo(info).value;
      EventCallsOfInstall(ev, info, files, resType, resVersion);
    }
  }

  /** Every artifact an event adds carries the same app-info: the one composed from the event's package. */
  lemma EventAppInfoUniform(ev: PackageEvent, info: Result<PackageInfo, int>, files: DescriptorFiles,
                            resType: CStr, resVersion: CStr)
    requires ResourceInfo(info) == Some((resType, resVersion))
    ensures var ops := EventOps(ev, info, files);
            forall i :: 0 <= i < |ops| && (ops[i].ModelAdd? || ops[i].ResourceAdd?) ==>
              ops[i].appInfo == ComposeAppInfo(ev.packageName, resType, resVersion)
  {
    if EventOps(ev, info, files) != [] {
      EventCallsOfInstall(ev, info, files, resType, resVersion);
    }
  }

  /** The install case of the two lemmas above. */
  lemma EventCallsOfInstall(ev: PackageEvent, info: Result<PackageInfo, int>, files: DescriptorFiles,
                            resType: CStr, resVersion: CStr)
    requires IsResourceInstallCompleted(ev)
    requires ResourceInfo(info) == Some((resType, resVersion))
    ensures var ops := EventOps(ev, info, files);
            InKindOrder(ops)
            && forall i :: 0 <= i < |ops| && (ops[i].ModelAdd? || ops[i].ResourceAdd?) ==>
                 ops[i].appInfo == ComposeAppInfo(ev.packageName, resType, resVersion)
  {
    var dir, appInfo := ResourceDir(ev.packageName, resType), ComposeAppInfo(ev.packageName, resType, resVersion);
    InstallIngestsModelPipelineResource(ev, info, files, resType, resVersion);
    DescriptorOpsCallsOf(files, dir, Model, appInfo);
    DescriptorOpsCallsOf(files, dir, Pipeline, appInfo);
    DescriptorOpsCallsOf(files, dir, Resource, appInfo);
    ThreeKindsInOrder(DescriptorOps(files, dir, Model, appInfo), DescriptorOps(files, dir, Pipeline, appInfo),
                      DescriptorOps(files, dir, Resource, appInfo), appInfo);
  }

  /** The calls of a trace that are about one kind, in order. */
  function OfKind(ops: seq<RegistryOp>, kind: ArtifactKind): seq<RegistryOp>
    decreases |ops|
  {
    if ops == [] then []
    else OfKind(ops[..|ops| - 1], kind) + (if OpKind(ops[|ops| - 1]) == kind then [ops[|ops| - 1]] else [])
  }

  /** Filtering by kind distributes over concatenation. */
  lemma {:induction false} OfKindAppend(a: seq<RegistryOp>, b: seq<RegistryOp>, kind: ArtifactKind)
    ensures OfKind(a + b, kind) == OfKind(a, kind) + OfKind(b, kind)
    decreases |b|
  {
    if b == [] {
      assert a + b == a;
    } else {
      var init := b[..|b| - 1];
      assert (a + b)[..|a + b| - 1] == a + init;
      assert (a + b)[|a + b| - 1] == b[|b| - 1];
      OfKindAppend(a, init, kind);
    }
  }

  /** Filtering calls that are all of one kind keeps all of them for that kind and none for another. */
  lemma {:induction false} OfKindUniform(ops: seq<RegistryOp>, opsKind: ArtifactKind, kind: ArtifactKind)
    requires forall i :: 0 <= i < |ops| ==> OpKind(ops[i]) == opsKind
    ensures OfKind(ops, kind) == if kind == opsKind then ops else []
    decreases |ops|
  {
    if ops != [] {
      OfKindUniform(ops[..|ops| - 1], opsKind, kind);
    }
  }

  /**
   * Kinds do not interfere: the calls an install event makes about one kind are
   * exactly those that kind's descriptor alone produces, so a missing or broken
   * descriptor of one kind does not keep the others from being registered.
   */
  lemma KindsIngestedIndependently(ev: PackageEvent, info: Result<PackageInfo, int>, files: DescriptorFiles,
                                   resType: CStr, resVersion: CStr, kind: ArtifactKind)
    requires IsResourceInstallCompleted(ev)
    requires ResourceInfo(info) == Some((resType, resVersion))
    ensures OfKind(EventOps(ev, info, files), kind)
         == DescriptorOps(files, ResourceDir(ev.packageName, resType), kind,
                          ComposeAppInfo(ev.packageName, resType, resVersion))
  {
    var dir, appInfo := ResourceDir(ev.packageName, resType), ComposeAppInfo(ev.packageName, resType, resVersion);
    InstallIngestsModelPipelineResource(ev, info, files, resType, resVersion);
    DescriptorOpsCallsOf(files, dir, Model, appInfo);
    DescriptorOpsCallsOf(files, dir, Pipeline, appInfo);
    DescriptorOpsCallsOf(files, dir, Resource, appInfo);
    OfKindOfThree(DescriptorOps(files, dir, Model, appInfo), DescriptorOps(files, dir, Pipeline, appInfo),
                  DescriptorOps(files, dir, Resource, appInfo), appInfo, kind);
  }

  /** Model calls, then pipeline calls, then resource calls, split back by kind. */
  lemma OfKindOfThree(a: seq<RegistryOp>, b: seq<RegistryOp>, c: seq<RegistryOp>, appInfo: AppInfo, kind: ArtifactKind)
    requires CallsOf(a, Model, appInfo) && CallsOf(b, Pipeline, appInfo) && CallsOf(c, Resource, appInfo)
    ensures OfKind(a + b + c, kind) == match kind case Model => a case Pipeline => b case Resource => c
  {
    OfKindAppend(a + b, c, kind);
    OfKindAppend(a, b, kind);
    OfKindUniform(a, Model, kind);
    OfKindUniform(b, Pipeline, kind);
    OfKindUniform(c, Resource, kind);
    match kind
    case Model => assert a + [] + [] == a;
    case Pipeline => assert [] + b + [] == b;
    case Resource => assert [] + [] + c == c;
  }

  /** Uninstall-started and update-completed events never call the database; for an rpk package they list its resource area. */
  lemma UninstallAndUpdateOnlyList(ev: PackageEvent, info: Result<PackageInfo, int>, files: DescriptorFiles)
    requires (ev.eventType == Uninstall && ev.eventState == Started) || (ev.eventType == Update && ev.eventState == Completed)
    ensures EventOps(ev, info, files) == []
    ensures EventListing(ev) == if IsRpkType(ev.pkgType) then Some("/opt/usr/globalapps/" + ev.packageName + "/res/global") else None
  {
  }

  /** A package whose only descriptor is the model descriptor: ingesting every kind makes exactly that descriptor's calls. */
  lemma OnlyModelDescriptor(dir: CStr, root: Json, appInfo: AppInfo)
    ensures KindsOps(map[DescriptorPath(dir, Model) := Success(root)], dir, Kinds, appInfo)
            == RecordsOps(Model, Records(root), appInfo)
  {
    var files: DescriptorFiles := map[DescriptorPath(dir, Model) := Success(root)];
    AllKindsOps(files, dir, appInfo);
    if DescriptorPath(dir, Pipeline) in files {
      DescriptorPathsDistinct(dir, Pipeline, Model);
    }
    if DescriptorPath(dir, Resource) in files {
      DescriptorPathsDistinct(dir, Resource, Model);
    }
    var ops := RecordsOps(Model, Records(root), appInfo);
    assert DescriptorOps(files, dir, Model, appInfo) == ops;
    assert ops + [] + [] == ops;
  }

  /**
   * The worked example: a completed install of rpk package "app1" with
   * resource type "rpk" and version "2", whose only descriptor is a model
   * descriptor {"name": "m1", "model": "m1.tflite", "activate": "true"}, makes
   * exactly one call: an active add of model m1 with an empty description and
   * the app-info of app1.
   */
  lemma InstallScenario()
    ensures EventOps(ScenarioEvent, ScenarioInfo, ScenarioFiles)
            == [ModelAdd("m1", "m1.tflite", true, "", ScenarioAppInfo)]
  {
    ScenarioIngestsKinds();
    OnlyModelDescriptor(ScenarioDir, ScenarioRecord, ScenarioAppInfo);
    RecordsOpsSingleton(Model, ScenarioRecord, ScenarioAppInfo);
    ScenarioRecordMembers();
    ScenarioRecordOptionals();
    ModelRecordOps(ScenarioRecord, ScenarioAppInfo);
  }

  /** The example event passes every filter and ingests the three kinds under app1's rpk directory. */
  lemma ScenarioIngestsKinds()
    ensures EventOps(ScenarioEvent, ScenarioInfo, ScenarioFiles)
            == KindsOps(ScenarioFiles, ScenarioDir, Kinds, ScenarioAppInfo)
  {
    assert CaseFoldEqual(ScenarioEvent.pkgType, "rpk");
    assert ResourceInfo(ScenarioInfo) == Some(("rpk", "2"));
  }

  /** The worked example's event, package-info answers, directory, model record and files. */
  const ScenarioEvent := PackageEvent("rpk", "app1", Install, Completed)
  const ScenarioInfo: Result<PackageInfo, int> := Success(PackageInfo(Success("rpk"), Success("2")))
  const ScenarioAppInfo := ComposeAppInfo("app1", "rpk", "2")
  const ScenarioDir: CStr := ResourceDir("app1", "rpk")
  const ScenarioRecord: Json := JObject(map["name" := JString("m1"), "model" := JString("m1.tflite"), "activate" := JString("true")])
  const ScenarioFiles: DescriptorFiles := map[DescriptorPath(ScenarioDir, Model) := Success(ScenarioRecord)]

  /** The example record has the required members, and its "activate" member reads as true. */
  lemma ScenarioRecordMembers()
    ensures StringMember(ScenarioRecord, "name") == Some("m1")
    ensures StringMember(ScenarioRecord, "model") == Some("m1.tflite")
    ensures IsTrueFlag(StringMember(ScenarioRecord, "activate"))
  {
    assert StringMember(ScenarioRecord, "activate") == Some("true");
  }

  /** The example record has neither "clear" nor "description". */
  lemma ScenarioRecordOptionals()
    ensures StringMember(ScenarioRecord, "clear") == None
    ensures StringMember(ScenarioRecord, "description") == None
  {
  }
}
