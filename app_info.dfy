/**
 * The app-info object attached to every artifact registered from a resource
 * package: where the artifact came from (package id, resource type and version).
 */
module AppInfoJson {
  import opened Wrappers
  import opened CStrings

  /** One member of a JSON object, as a builder writes it. */
  datatype Member = Member(key: CStr, value: CStr)

  /** An app-info object: its members in document order. */
  type AppInfo = seq<Member>

  /** What a reader recovers from an app-info object. */
  datatype Provenance = Provenance(isRpk: CStr, appId: CStr, resType: CStr, resVersion: CStr)

  /** The member names, in document order. */
  function Keys(info: AppInfo): (keys: seq<CStr>)
    ensures |keys| == |info|
    ensures forall i :: 0 <= i < |info| ==> keys[i] == info[i].key
  {
    if info == [] then [] else [info[0].key] + Keys(info[1..])
  }

  /** The value of the first member named `key`, as a JSON reader looks a member up. */
  function Lookup(info: AppInfo, key: CStr): Option<CStr> {
    if info == [] then None
    else if info[0].key == key then Some(info[0].value)
    else Lookup(info[1..], key)
  }

  /** Reads the four provenance members back; None when one is missing. */
  function ReadAppInfo(info: AppInfo): Option<Provenance> {
    match (Lookup(info, "is_rpk"), Lookup(info, "app_id"), Lookup(info, "res_type"), Lookup(info, "res_version"))
    case (Some(r), Some(a), Some(t), Some(v)) => Some(Provenance(r, a, t, v))
    case _ => None
  }

  /**
   * The app-info composer: an object with exactly the members is_rpk = "T",
   * app_id, res_type and res_version, in that order; reading it back yields the
   * package id, resource type and resource version it was built from.
   */
  function ComposeAppInfo(packageName: CStr, resType: CStr, resVersion: CStr): (info: AppInfo)
    ensures Keys(info) == ["is_rpk", "app_id", "res_type", "res_version"]
    ensures ReadAppInfo(info) == Some(Provenance("T", packageName, resType, resVersion))
  {
    var info := [Member("is_rpk", "T"), Member("app_id", packageName),
                 Member("res_type", resType), Member("res_version", resVersion)];
    assert info[1..][1..][1..] == [info[3]];
    assert "is_rpk"[0] != "app_id"[0] && "is_rpk"[0] != "res_type"[0] && "is_rpk"[0] != "res_version"[0];
    assert "app_id"[0] != "res_type"[0] && "app_id"[0] != "res_version"[0];
    assert "res_type"[4] != "res_version"[4];
    assert Lookup(info, "is_rpk") == Some("T");
    assert Lookup(info, "app_id") == Lookup(info[1..], "app_id") == Some(packageName);
    assert Lookup(info, "res_type") == Lookup(info[1..][1..], "res_type") == Some(resType);
    assert Lookup(info, "res_version") == Lookup(info[1..], "res_version") == Lookup(info[1..][1..], "res_version")
        == Lookup(info[1..][1..][1..], "res_version") == Some(resVersion);
    info
  }
}
