/**
 * The ml-service database as the package manager sees it: each call it makes is
 * appended to a trace, so the order and the arguments of the calls can be stated.
 * What the database stores, and which versions it assigns, is not modelled.
 */
module ServiceDb {
  import opened CStrings
  import opened AppInfoJson

  /** One database call and its arguments. */
  datatype RegistryOp =
    | ModelDelete(name: CStr, version: nat)
    | ModelAdd(name: CStr, path: CStr, active: bool, description: CStr, appInfo: AppInfo)
    | PipelineSet(name: CStr, description: CStr)
    | ResourceDelete(name: CStr)
    | ResourceAdd(name: CStr, path: CStr, description: CStr, appInfo: AppInfo)
  {
    /** True for the calls that register an artifact: model add, pipeline set, resource add. */
    predicate IsRegistration() {
      ModelAdd? || PipelineSet? || ResourceAdd?
    }

    /** True for the calls that remove earlier entries. */
    predicate IsDelete() {
      ModelDelete? || ResourceDelete?
    }
  }

  /** The database handle: the calls made on it so far, oldest first. */
  class Registry {
    var trace: seq<RegistryOp>

    constructor ()
      ensures trace == []
    {
      trace := [];
    }

    /** svcdb_model_delete; version 0 stands for every version of `name`. */
    method DeleteModel(name: CStr, version: nat)
      modifies this
      ensures trace == old(trace) + [ModelDelete(name, version)]
    {
      trace := trace + [ModelDelete(name, version)];
    }

    /** svcdb_model_add. */
    method AddModel(name: CStr, path: CStr, active: bool, description: CStr, appInfo: AppInfo)
      modifies this
      ensures trace == old(trace) + [ModelAdd(name, path, active, description, appInfo)]
    {
      trace := trace + [ModelAdd(name, path, active, description, appInfo)];
    }

    /** svcdb_pipeline_set: insert or replace the pipeline named `name`. */
    method SetPipeline(name: CStr, description: CStr)
      modifies this
      ensures trace == old(trace) + [PipelineSet(name, description)]
    {
      trace := trace + [PipelineSet(name, description)];
    }

    /** svcdb_resource_delete. */
    method DeleteResource(name: CStr)
      modifies this
      ensures trace == old(trace) + [ResourceDelete(name)]
    {
      trace := trace + [ResourceDelete(name)];
    }

    /** svcdb_resource_add. */
    method AddResource(name: CStr, path: CStr, description: CStr, appInfo: AppInfo)
      modifies this
      ensures trace == old(trace) + [ResourceAdd(name, path, description, appInfo)]
    {
      trace := trace + [ResourceAdd(name, path, description, appInfo)];
    }
  }
}
