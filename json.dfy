/**
 * JSON values as JSON.parse hands them to the catalog builder, with the two
 * JavaScript operations the builder applies to them: optional property
 * access (`v?.key`) and truthiness (`!x`).
 */
module Json {
  import opened Wrappers
  import opened Text

  /** A parsed JSON document. JSON has no NaN, so a number is falsy exactly when it is zero. */
  datatype Value =
    | JNull
    | JBool(b: bool)
    | JNumber(n: real)
    | JString(s: string)
    | JArray(items: seq<Value>)
    | JObject(fields: map<string, Value>)

  /**
   * `v?.key`: the property `key` of `v`, or None for `undefined`. Only the own
   * properties of an object are found: the builder reads `tools`, `name`,
   * `description`, `usage` and `command`, which no null, boolean, number,
   * string or array carries (nor their prototypes).
   */
  function Member(v: Value, key: string): Option<Value>
  {
    if v.JObject? && key in v.fields then Some(v.fields[key]) else None
  }

  /** JavaScript's ToBoolean on a JSON value. */
  predicate IsTruthy(v: Value)
  {
    match v
    case JNull => false
    case JBool(b) => b
    case JNumber(n) => n != 0.0
    case JString(s) => s != ""
    case JArray(_) => true
    case JObject(_) => true
  }

  /** ToBoolean on an optional property, where an absent property (`undefined`) is falsy. */
  predicate IsTruthyMember(v: Value, key: string)
  {
    Member(v, key).Some? && IsTruthy(Member(v, key).value)
  }

  /**
   * `typeof v?.key === "string" ? v.key.trim() : ""`: only a genuine string is
   * honoured, and it comes back trimmed.
   */
  function StringMember(v: Value, key: string): string
  {
    match Member(v, key)
    case Some(JString(s)) => Trim(s)
    case _ => ""
  }

  /**
   * A string member comes back trimmed, and it is non-empty exactly when the
   * property is a string holding some character other than white space.
   */
  lemma StringMemberSpec(v: Value, key: string)
    ensures IsTrimmed(StringMember(v, key))
    ensures StringMember(v, key) != "" <==>
      Member(v, key).Some? && Member(v, key).value.JString? && !AllWhiteSpace(Member(v, key).value.s)
  {
    if Member(v, key).Some? && Member(v, key).value.JString? {
      TrimSpec(Member(v, key).value.s);
    }
  }
}
