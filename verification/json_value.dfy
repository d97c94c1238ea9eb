/** The parsed form of a JSON response, as far as the deprecation checker looks into it. */
module JsonValue {

  /** A parsed JSON value: a string leaf, a dictionary (JSON object) of named
      members, or any other JSON value (number, boolean, null, array), whose
      contents the checker never inspects. */
  datatype Value =
    | Str(s: string)
    | Dict(members: map<string, Value>)
    | Other
}
