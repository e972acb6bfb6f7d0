/** The JavaScript values the frontend reads from a decoded reply, and the
    verse record it keeps in its state. */
module JsValues {

  /** A property read from a decoded JSON object: missing (`undefined`),
      `null`, or a value. */
  datatype Nullish<T> = Undefined | Null | Value(value: T)

  /** JavaScript truthiness of a string-valued property: a non-empty string. */
  predicate Truthy(v: Nullish<string>) {
    v.Value? && v.value != ""
  }

  /** `v ?? fallback`: only `undefined` and `null` are replaced. */
  function Coalesce<T>(v: Nullish<T>, fallback: T): T {
    if v.Value? then v.value else fallback
  }

  /** How a property prints inside a template literal `${v}`. */
  function Show(v: Nullish<string>): string {
    match v
    case Undefined => "undefined"
    case Null => "null"
    case Value(s) => s
  }

  /** The properties of one decoded reply that the frontend reads. A decoded
      value that is truthy but not an object (a number, a string, an array)
      reads as a message whose properties are all `undefined`. */
  datatype Message = Message(
    error: Nullish<string>,
    citation: Nullish<string>,
    passage: Nullish<string>,
    images: Nullish<seq<string>>,
    version: Nullish<string>,
    status: Nullish<string>,
    localVersion: Nullish<string>,
    githubVersion: Nullish<string>)

  /** One socket frame: text `JSON.parse` rejects, the JSON literal `null`
      (reading `data.error` on it throws), or any other decoded value. */
  datatype Frame = Unparseable | JsonNull | Decoded(m: Message)

  /** The verse-of-the-day record held in the frontend's state. */
  datatype Verse = Verse(citation: string, passage: string, images: seq<string>, version: string)

  /** The normalised record: `citation.toString()`, `passage.toString()`,
      `images ?? []` and `version ?? "Unknown"`. */
  function Normalised(citation: string, passage: string, m: Message): (v: Verse)
    ensures v.citation == citation && v.passage == passage
    ensures m.images.Value? ==> v.images == m.images.value
    ensures !m.images.Value? ==> v.images == []
    ensures m.version.Value? ==> v.version == m.version.value
    ensures !m.version.Value? ==> v.version == "Unknown"
  {
    Verse(citation, passage, Coalesce(m.images, []), Coalesce(m.version, "Unknown"))
  }
}
