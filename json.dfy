/**
 * JSON values as the two JSON libraries of the system (Gson and org.json)
 * hand them over after parsing. Parsing itself is a collaborator: every
 * component that reads JSON text receives a `JsonParser`, a function from
 * text to the parsed value, or None when the library throws.
 */
module Json {
  import opened Wrappers

  /** A number keeps its decimal value and the lexeme it was written with. */
  datatype Json =
    | JNull
    | JBool(b: bool)
    | JNum(value: real, lexeme: string)
    | JStr(s: string)
    | JArr(elems: seq<Json>)
    | JObj(fields: map<string, Json>)

  /** Text-to-JSON parsing, left to the library: None when it throws. */
  type JsonParser = string -> Option<Json>

  /**
   * Gson's `JsonElement.getAsString()`: primitives give their text, a
   * one-element array gives its element's text, anything else throws (None).
   */
  function GsonString(j: Json): (r: Option<string>)
    ensures j.JStr? ==> r == Some(j.s)
    ensures j.JNull? || j.JObj? ==> r == None
  {
    match j
    case JStr(s) => Some(s)
    case JNum(_, lexeme) => Some(lexeme)
    case JBool(b) => Some(if b then "true" else "false")
    case JArr(elems) => if |elems| == 1 then GsonString(elems[0]) else None
    case _ => None
  }
}
