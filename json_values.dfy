/** Parsed JSON documents, as json-glib hands them to the package manager. */
module JsonValues {
  import opened Wrappers
  import opened CStrings

  /**
   * A JSON node. Numbers and booleans matter here only as "not a string", so a
   * number is kept as an integer; an empty document behaves like JNull.
   */
  datatype Json =
    | JNull
    | JBool(b: bool)
    | JNumber(n: int)
    | JString(s: CStr)
    | JArray(elems: seq<Json>)
    | JObject(members: map<CStr, Json>)

  /**
   * json_object_get_string_member on the object a node holds: the member's text
   * when the node is an object whose member `key` is a string, nothing otherwise
   * (a missing member, a null, a number, a nested value, or a node that is not an
   * object all read as NULL).
   */
  function StringMember(node: Json, key: CStr): (member: Option<CStr>)
    ensures member.Some? <==> node.JObject? && key in node.members && node.members[key].JString?
    ensures member.Some? ==> node.members[key] == JString(member.value)
  {
    if node.JObject? && key in node.members && node.members[key].JString? then
      Some(node.members[key].s)
    else
      None
  }
}
