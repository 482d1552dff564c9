/** The JSON values the plugin keeps in its `JSONField`s (a source's
    processing settings, an import's content), with the Python operations
    the code applies to them: `key in value`, `value[key]`, `isinstance`. */
module Json {
  import opened Wrappers
  import Text

  datatype Json =
    | JNull
    | JBool(b: bool)
    | JInt(i: int)
    | JString(s: string)
    | JList(items: seq<Json>)
    | JObject(fields: map<string, Json>)

  /** `isinstance(j, dict) and key in j` */
  predicate HasKey(j: Json, key: string) {
    j.JObject? && key in j.fields
  }

  /** `key in j` for a string key: membership for a dict, element test for a
      list, substring test for a string; any other value raises TypeError,
      written here as None. */
  function PyIn(key: string, j: Json): (r: Option<bool>)
    ensures j.JObject? ==> r == Some(key in j.fields)
    ensures j.JList? ==> r == Some(JString(key) in j.items)
    ensures (j.JNull? || j.JBool? || j.JInt?) ==> r == None
    ensures j.JString? ==> (r == Some(true) <==> exists k :: Text.OccursAt(j.s, key, k))
    ensures r.None? <==> !(j.JObject? || j.JList? || j.JString?)
  {
    match j
    case JObject(m) => Some(key in m)
    case JList(xs) => Some(JString(key) in xs)
    case JString(s) => Some(Text.Find(s, key, 0) != -1)
    case _ => None
  }

  /** `j[key]` for a string key: only a dict holding the key answers; a
      missing key raises KeyError and any other value TypeError, both
      written here as None. */
  function PyGet(j: Json, key: string): (r: Option<Json>)
    ensures r.Some? <==> HasKey(j, key)
    ensures r.Some? ==> r.value == j.fields[key]
  {
    if HasKey(j, key) then Some(j.fields[key]) else None
  }

  /** `j[key]` where the value is needed as a string. */
  function GetString(j: Json, key: string): (r: Option<string>)
    ensures r.Some? <==> HasKey(j, key) && j.fields[key].JString?
    ensures r.Some? ==> j.fields[key] == JString(r.value)
  {
    if HasKey(j, key) && j.fields[key].JString? then Some(j.fields[key].s) else None
  }

  /** `j[key] if key in j else j[other]`, the target-or-source choice the
      plugin makes for a field's stored name, when both are strings. */
  function TargetOrSource(j: Json): (r: Option<string>)
    ensures HasKey(j, "target") ==> r == GetString(j, "target")
    ensures !HasKey(j, "target") ==> r == GetString(j, "source")
  {
    if HasKey(j, "target") then GetString(j, "target") else GetString(j, "source")
  }
}
