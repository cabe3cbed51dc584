/**
 * The parsed JSON document as `JSON.parse` hands it to the tree view. Numbers are
 * integers; an object is its members in the order `Object.keys` enumerates them.
 */
module JsonValues {

  datatype JsonValue =
    | JNull
    | JBool(b: bool)
    | JNum(n: int)
    | JStr(s: string)
    | JArr(items: seq<JsonValue>)
    | JObj(members: seq<(string, JsonValue)>)
  {
    /** `value !== null && typeof value === 'object'`: arrays and objects, never `null`. */
    predicate IsContainer()
    {
      JArr? || JObj?
    }

    /** `Object.keys(value).length` for a container. */
    function KeyCount(): nat
      requires IsContainer()
    {
      if JArr? then |items| else |members|
    }
  }
}
