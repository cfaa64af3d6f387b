/** JavaScript values as the handlers receive them from a parsed request body. */
module JsValues {

  /** A request field: a string that was sent, or a field that is missing
      (`undefined`). For the message body in the TypeScript handler every
      non-string value behaves like a missing field, since all of its `===`
      tests and its `typeof` guard fail alike; a non-string location field
      would be printed instead, which this type does not represent. */
  datatype Field = Given(text: string) | Absent

  /** The text a template literal `${f}` produces for a field. */
  function TemplateText(f: Field): (s: string)
    ensures f.Given? ==> s == f.text
    ensures f.Absent? ==> s == "undefined"
  {
    match f
    case Given(t) => t
    case Absent => "undefined"
  }

  /** The value of `f || ''`: a missing field and the empty string both give ''. */
  function OrEmpty(f: Field): (s: string)
    ensures f.Given? ==> s == f.text
    ensures f.Absent? ==> s == ""
  {
    match f
    case Given(t) => t
    case Absent => ""
  }
}
