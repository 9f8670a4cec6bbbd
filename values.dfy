/** The values the core passes around: parsed JSON documents and the
    metadata dictionaries attached to documents and chunks, with the
    `str()` rendering Python applies when they are put into f-strings. */
module Values {
  import opened Text

  /** A document as `json.load` returns it. A number carries the text
      Python's `str()` gives for it (`1`, `2.5`, `100000.0`); an object is
      the parsed dictionary, its members in insertion order. */
  datatype Json =
    | JNull
    | JBool(b: bool)
    | JNumber(repr: string)
    | JString(s: string)
    | JArray(items: seq<Json>)
    | JObject(members: seq<Member>)

  datatype Member = Member(key: string, value: Json)

  /** `isinstance(v, (dict, list))`. */
  predicate IsContainer(j: Json) {
    j.JArray? || j.JObject?
  }

  /** `str(v)` of a scalar: `None`, `True`/`False`, the number, the string
      itself. */
  function ScalarStr(j: Json): string
    requires !IsContainer(j)
  {
    match j
    case JNull => "None"
    case JBool(b) => if b then "True" else "False"
    case JNumber(r) => r
    case JString(s) => s
  }

  /** `repr(s)` of a string (single quotes, escapes not modelled). */
  function QuoteStr(s: string): string {
    "'" + s + "'"
  }

  /** `str(v)` of any parsed value: containers print as Python literals. */
  function PyStr(j: Json): string
    decreases j, 1
  {
    if IsContainer(j) then PyRepr(j) else ScalarStr(j)
  }

  /** `repr(v)`: strings are quoted, everything else prints as `str`. */
  function PyRepr(j: Json): string
    decreases j, 0
  {
    match j
    case JString(s) => QuoteStr(s)
    case JArray(items) =>
      "[" + Join(seq(|items|, i requires 0 <= i < |items| => PyRepr(items[i])), ", ") + "]"
    case JObject(ms) =>
      "{" + Join(seq(|ms|, i requires 0 <= i < |ms| =>
                       QuoteStr(ms[i].key) + ": " + PyRepr(ms[i].value)), ", ") + "}"
    case _ => ScalarStr(j)
  }

  /** A value stored in a document's or a chunk's metadata dictionary. */
  datatype MetaValue =
    | MStr(s: string)
    | MInt(i: int)
    | MStrList(strs: seq<string>)
    | MJson(j: Json)

  type Metadata = map<string, MetaValue>

  /** What an f-string makes of a metadata value. */
  function Render(v: MetaValue): string {
    match v
    case MStr(s) => s
    case MInt(i) => IntToString(i)
    case MStrList(strs) =>
      "[" + Join(seq(|strs|, i requires 0 <= i < |strs| => QuoteStr(strs[i])), ", ") + "]"
    case MJson(j) => PyStr(j)
  }

  /** `d.get(key, default)`. */
  function Get(m: Metadata, key: string, default: MetaValue): MetaValue {
    if key in m then m[key] else default
  }
}
