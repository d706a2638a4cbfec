/** The wire format as the converters see it.

    A `Utf8JsonReader` hands a converter one token at a time; the model keeps
    the whole token stream as a sequence and the reader's position as an
    index into it. Values that an encoder produces are `Json` trees, and
    `Tokens` flattens a tree into the token stream a reader would see. */
module JsonTokens {

  /** One reader token. Numbers, booleans and `null` are all `Other`: the
      modelled code never looks inside them. */
  datatype Token =
    | StartObj
    | EndObj
    | StartArr
    | EndArr
    | Prop(name: string)
    | Str(s: string)
    | Other

  /** A JSON value. An object keeps its members in document order. */
  datatype Json =
    | JStr(s: string)
    | JOther
    | JArr(items: seq<Json>)
    | JObj(members: seq<(string, Json)>)

  /** The token stream of a value, in reading order. */
  function Tokens(j: Json): (ts: seq<Token>)
    decreases j
    ensures |ts| > 0
  {
    match j
    case JStr(s) => [Str(s)]
    case JOther => [Other]
    case JArr(items) => [StartArr] + ItemsTokens(items) + [EndArr]
    case JObj(members) => [StartObj] + MembersTokens(members) + [EndObj]
  }

  function ItemsTokens(items: seq<Json>): seq<Token>
    decreases items
  {
    if |items| == 0 then [] else Tokens(items[0]) + ItemsTokens(items[1..])
  }

  /** Each member is its property-name token followed by its value's tokens. */
  function MembersTokens(members: seq<(string, Json)>): seq<Token>
    decreases members
  {
    if |members| == 0 then []
    else
      assert members[0].1 < members[0];
      [Prop(members[0].0)] + Tokens(members[0].1) + MembersTokens(members[1..])
  }

  /** A value without nested objects or arrays. */
  predicate IsScalar(j: Json) {
    j.JStr? || j.JOther?
  }

  /** A scalar, or an array whose items are all scalars: a value whose tokens
      hold no object and no property name. */
  predicate IsFlat(j: Json) {
    IsScalar(j) || (j.JArr? && forall i :: 0 <= i < |j.items| ==> IsScalar(j.items[i]))
  }

  /** The strings among a list of values, in order. */
  function StringItems(items: seq<Json>): seq<string>
  {
    if |items| == 0 then []
    else (if items[0].JStr? then [items[0].s] else []) + StringItems(items[1..])
  }
}
