# Resource-package descriptor ingestion (ML agent package manager)

This project models the part of the ML agent daemon that watches the platform
package manager. When a resource package ("rpk") finishes installing, the
daemon reads up to three JSON descriptor files from the package's resource
directory: `model_description.json`, `pipeline_description.json` and
`resource_description.json`. It turns their records into calls on the
ml-service database: model delete/add, pipeline set, and resource delete/add.
Every model and resource it adds carries an app-info JSON object that records
the package's provenance.

The model has these layers:

- `Wrappers`: `Option` and `Result`.
- `CStrings`: NUL-free strings (`CStr`), `g_ascii_strcasecmp` and `g_build_filename`.
- `JsonValues`: a parsed JSON value, and `json_object_get_string_member` as `StringMember`.
- `AppInfoJson`: `_get_app_info`, as an ordered list of members, plus a reader that gets the provenance back.
- `ServiceDb`: the database as a class `Registry`. Each of its methods appends the call it receives to a `trace`.
- `PkgMgr`: the logic of `_parse_json` and `_pkg_mgr_event_cb`.
  - Pure functions say which calls a record, a descriptor and an event make: `Validate`, `EntryOps`, `RecordOps`, `RecordsOps`, `DescriptorOps`, `KindsOps` and `EventOps`.
  - The methods `IngestRecord`, `IngestRoot`, `ParseJson` and `HandleEvent` follow the source's control flow: the early returns, `continue` on a missing member, and the `for` loops over array elements and over the three kinds.
  - Each method is proved to append exactly what those functions describe.
- `PkgMgrProperties`: lemmas about those functions.
  - Where descriptors are looked for.
  - Array and single-object roots.
  - Which records are skipped and which are registered, in record order.
  - The delete/add pairing of the "clear" flag.
  - Kind order and a uniform app-info across an install.
  - Each kind is ingested independently.
  - A worked install example.

The filesystem and the JSON parser are a parameter `files: map<CStr, Result<Json, CStr>>`:
- A path that is not a key fails `g_file_test`.
- A key mapped to `Failure` is a file that does not parse.
- A key mapped to `Success(root)` is a parsed document.

The package-info service is a parameter `info: Result<PackageInfo, int>`. It holds the outcomes of `package_info_create`, `package_info_get_res_type` and `package_info_get_res_version`.

Two behaviours of the code that a reader might not expect:
- A record's `name` only has to be present as a string; an empty string is accepted.
- The file test `G_FILE_TEST_EXISTS | G_FILE_TEST_IS_REGULAR` passes when either flag holds, so an existing directory passes the test. Such a path then fails to load, and the outcome is the same: no calls. The model folds both into "no call".

## Model

| member | source | states |
|---|---|---|
| CStrings.AsciiStrCaseCmp | daemon/pkg-mgr.cc:143-144 | `g_ascii_strcasecmp` returns 0 exactly when the strings have equal length and are equal character by character after ASCII lower-casing (both directions); the same call is the filter at line 266 and the clear test at line 191 |
| CStrings.BuildFilename | daemon/pkg-mgr.cc:78 | the built path is the directory, one '/', then the file name, and both parts can be read back from it |
| JsonValues.StringMember | daemon/pkg-mgr.cc:131-135 | a member reads as a string exactly when the record is an object and the member is present and holds a string, and then it is that string; a missing member, a non-string member or a record that is not an object reads as NULL (the same reads are at lines 163-164 and 181-184) |
| AppInfoJson.ComposeAppInfo | daemon/pkg-mgr.cc:39-65 | the app-info object has the members is_rpk, app_id, res_type, res_version in that order; reading it back gives "T", the package id, the resource type and the resource version |
| PkgMgr.DescriptorFileName | daemon/pkg-mgr.cc:76-85 | each kind has its fixed descriptor file name, and the name determines the kind back |
| PkgMgr.DescriptorPath | daemon/pkg-mgr.cc:76-85 | a descriptor path is the directory, one '/', then a file name from which the kind is read back |
| PkgMgr.PackagePath | daemon/pkg-mgr.cc:274 | the package path is /opt/usr/globalapps/, the package id, then /res/global, and the package id can be read back from it |
| PkgMgr.ResourceDir | daemon/pkg-mgr.cc:318 | the artifact directory is /opt/usr/globalapps/<package>/res/global/<res_type> |
| PkgMgr.IsTrueFlag | daemon/pkg-mgr.cc:143-144 | a flag is set if and only if its member is present and equals "true" ignoring ASCII case |
| PkgMgr.IsRpkType | daemon/pkg-mgr.cc:266 | an event passes the package-type filter if and only if the type equals "rpk" ignoring ASCII case |
| PkgMgr.Validate | daemon/pkg-mgr.cc:128-189 | a record yields an entry if and only if every required member of its kind is a string; the entry keeps the kind, the name and the model, path or pipeline description member; clear and activate are the "true" test; an absent optional description becomes "" |
| PkgMgr.Records | daemon/pkg-mgr.cc:109-126 | an array root's records are its elements in order; any other root is the one record |
| PkgMgr.EntryOps | daemon/pkg-mgr.cc:142-199 | a valid entry makes one call, or two when it clears old ones; every call has the entry's name and kind; the registration comes last, after the delete when there is one |
| PkgMgr.RecordOps | daemon/pkg-mgr.cc:128-210 | one record makes no call exactly when it lacks a required member, otherwise one or two calls, all about the kind being ingested |
| PkgMgr.RecordsOps | daemon/pkg-mgr.cc:122-211 | a run of records makes at most two calls per record, all about the kind being ingested |
| PkgMgr.DescriptorOps | daemon/pkg-mgr.cc:91-104 | a missing descriptor file or one that fails to parse makes no call; every call is about the descriptor's kind |
| PkgMgr.KindsOps | daemon/pkg-mgr.cc:320-321 | ingesting several kinds makes only calls about those kinds |
| PkgMgr.EventOps | daemon/pkg-mgr.cc:260-334 | an event makes database calls only if it is a completed install of an rpk package whose type and version were both found |
| PkgMgr.ResourceInfo | daemon/pkg-mgr.cc:279-305 | the resource type and version are available exactly when package_info_create, get_res_type and get_res_version all succeed, and they are the values those lookups returned |
| PkgMgr.EventListing | daemon/pkg-mgr.cc:322-331 | an event lists a directory exactly when it is an uninstall start or an update completion of an rpk package, and the directory is the package path |
| PkgMgr.IngestRecord | daemon/pkg-mgr.cc:128-210 | one loop pass appends exactly the calls of the record: none when a required member is missing, otherwise an optional delete and one registration |
| PkgMgr.IngestRoot | daemon/pkg-mgr.cc:106-126 | an array root is walked element by element in index order and any other root is the one record; the trace grows by exactly those records' calls |
| PkgMgr.ParseJson | daemon/pkg-mgr.cc:70-212 | the trace grows by exactly the calls of the descriptor of the kind under the directory; a missing or unparsable file adds nothing |
| PkgMgr.HandleEvent | daemon/pkg-mgr.cc:248-335 | the trace grows by exactly the event's calls, the three kinds in order; the method returns the listed directory for an rpk uninstall start or update completion, and nothing otherwise |
| ServiceDb.Registry.DeleteModel | daemon/pkg-mgr.cc:149 | the database receives a delete of the model name (version 0: every version), and nothing else |
| ServiceDb.Registry.AddModel | daemon/pkg-mgr.cc:152-153 | the database receives one model add with its path, activation, description and app-info |
| ServiceDb.Registry.SetPipeline | daemon/pkg-mgr.cc:171 | the database receives one pipeline set with its description |
| ServiceDb.Registry.DeleteResource | daemon/pkg-mgr.cc:196 | the database receives a delete of the resource name |
| ServiceDb.Registry.AddResource | daemon/pkg-mgr.cc:199 | the database receives one resource add with its path, description and app-info |
| PkgMgrProperties.DescriptorPathsDistinct | daemon/pkg-mgr.cc:76-85 | under one directory, two kinds are looked for at the same path only if they are the same kind |
| PkgMgrProperties.RecordsOpsAppend | daemon/pkg-mgr.cc:122-211 | the calls of a run of records split at any point into those of the first part followed by those of the second |
| PkgMgrProperties.SingleRootIsOneElementArray | daemon/pkg-mgr.cc:106-126 | a descriptor whose root is not an array is ingested exactly like a one-element array holding that root |
| PkgMgrProperties.RecordCallsInIndexOrder | daemon/pkg-mgr.cc:122-126 | the calls of record i come after those of every earlier record and before those of every later one |
| PkgMgrProperties.SkippedRecordLeavesNoTrace | daemon/pkg-mgr.cc:137-140 | a record lacking a required member makes no call, and the records around it are ingested as if it were absent |
| PkgMgrProperties.RegisteredInRecordOrder | daemon/pkg-mgr.cc:122-211 | the names registered are exactly the names of the records that pass validation, once each, in record order |
| PkgMgrProperties.RegistrationCount | daemon/pkg-mgr.cc:122-211 | of N records of which M lack a required member, exactly N - M registrations are made |
| PkgMgrProperties.ModelRecordOps | daemon/pkg-mgr.cc:129-159 | a model record with name and model makes a delete of every version exactly when clear is true, then one add with the model path, the activate flag, the description or "" and the app-info |
| PkgMgrProperties.PipelineRecordOps | daemon/pkg-mgr.cc:161-177 | a pipeline record with name and description makes exactly one pipeline set |
| PkgMgrProperties.ResourceRecordOps | daemon/pkg-mgr.cc:179-205 | a resource record with name and path makes a delete exactly when clear is true, then one add with the path, the description or "" and the app-info |
| PkgMgrProperties.DeleteImmediatelyBeforeAdd | daemon/pkg-mgr.cc:146-153 | every delete in a descriptor's calls is immediately followed by the add of the same name it clears for |
| PkgMgrProperties.RecordsOpsCallsOf | daemon/pkg-mgr.cc:128-210 | every call a run of records makes is about the kind being ingested, and every add carries the given app-info |
| PkgMgrProperties.DescriptorOpsCallsOf | daemon/pkg-mgr.cc:70-212 | every call a descriptor causes is about its own kind, and every add carries the given app-info |
| PkgMgrProperties.PipelinesOnlySet | daemon/pkg-mgr.cc:161-177 | a pipeline descriptor causes only pipeline sets, never a delete or an add |
| PkgMgrProperties.AllKindsOps | daemon/pkg-mgr.cc:320-321 | ingesting all kinds is ingesting models, then pipelines, then resources |
| PkgMgrProperties.InstallIngestsModelPipelineResource | daemon/pkg-mgr.cc:276-321 | a completed rpk install with type and version found makes the model, then pipeline, then resource descriptor calls, all from /opt/usr/globalapps/<package>/res/global/<type>, all with the app-info composed from the package id, type and version |
| PkgMgrProperties.EventCallsInKindOrder | daemon/pkg-mgr.cc:320-321 | in any event's calls, every model call precedes every pipeline call, which precedes every resource call |
| PkgMgrProperties.EventAppInfoUniform | daemon/pkg-mgr.cc:317-321 | every model or resource an event adds carries the app-info composed from the event's package, type and version |
| PkgMgrProperties.KindsIngestedIndependently | daemon/pkg-mgr.cc:320-321 | the calls an install makes about one kind are exactly those of that kind's descriptor alone, so a missing or broken descriptor does not stop the others |
| PkgMgrProperties.UninstallAndUpdateOnlyList | daemon/pkg-mgr.cc:322-331 | uninstall-started and update-completed events make no database call; for an rpk package they list /opt/usr/globalapps/<package>/res/global |
| PkgMgrProperties.OnlyModelDescriptor | daemon/pkg-mgr.cc:91-95 | when only the model descriptor exists, whatever its root, ingesting every kind makes exactly that descriptor's calls, because the pipeline and resource descriptors are missing |
| PkgMgrProperties.InstallScenario | daemon/pkg-mgr.cc:248-335 | a completed install of rpk package app1 (type rpk, version 2) with a single model record m1 with "activate": "true" makes exactly one call: an active add of m1 with an empty description and app1's app-info |

## Left out

- CStrings.BuildFilename: `g_build_filename` skips empty elements, strips the leading separators of every element after the first, and does not double a separator that is already there. The model always joins with exactly one '/'. The strings differ when the resource type is empty, starts with '/' or ends with '/': for an empty type the source looks for `/opt/usr/globalapps/<package>/res/global/model_description.json` and the model for `.../res/global//model_description.json`. The two paths name the same file, but the model's `files` map is keyed by the model's string.
- PkgMgr.ResourceDir: its ensures states the exact string `/opt/usr/globalapps/<package>/res/global/<res_type>`. Line 318's string differs from it only when the resource type is empty, where the model adds a trailing '/', or starts with '/', where the model doubles the separator. In both cases the two strings name the same directory. A trailing '/' on the type first makes a difference in the descriptor path, as the `CStrings.BuildFilename` line says.
- CStrings.AsciiStrCaseCmp: the difference it returns is computed on code points, not on `guchar` bytes. Only its zero test is used by the daemon, and that test is exact.
- PkgMgr.DescriptorOps: the file test and the parse are one lookup. An existing path that is not a regular file is modelled as a parse failure, which has the same outcome.
- JSON lexing and `json_parser_load_from_file` are not modelled: a parsed document is an input. Numbers are integers. A document whose root is neither an array nor an object, including an empty one, yields one record that fails validation.
- The `!array` branch at daemon/pkg-mgr.cc:113-116 is not modelled: `json_node_get_array` on an array node always returns an array.
- The `default` branches for an unknown kind (daemon/pkg-mgr.cc:86-88, 207-209) are not modelled: `ArtifactKind` has only the three kinds.
- The `app_info ? app_info : ""` fallback is not modelled: `_get_app_info` always produces a value in this path.
- ServiceDb.Registry.AddModel: the version the database assigns and every database return code are not modelled. The daemon only logs them, so the result and later calls do not depend on them.
- The database's own behaviour (versioning, storage, activation semantics) is not modelled: only the sequence of calls is.
- AppInfoJson.ComposeAppInfo: the pretty-printed text of the generator is not modelled. The app-info is the ordered member list that would be serialised.
- Logging (`ml_logi`, `ml_logw`, `ml_loge`) is not modelled: it is output only.
- `_pkg_mgr_echo_pkg_path_info` is not modelled beyond the directory it is asked to list. Its directory walk only logs file names.
- `package_info_destroy` is not modelled: it only releases memory, and its failure is only logged.
- The event's `progress`, `error` and `user_data` arguments are not modelled: the callback never reads them.
- A NULL `type`, NULL `package_name`, or strings holding NUL are not modelled: C strings are modelled as NUL-free sequences.
- `pkg_mgr_init`, `pkg_mgr_deinit` and daemon/main.c are not modelled: they register and unregister the callback and run the main loop.
