/** ZIP extraction of utilities.js: the same pattern logic as src/utilities.ts
    but without a type guard, so `message.toString()` is called on whatever
    the caller passes. A missing value (`undefined`) makes that call throw a
    TypeError, which the model gives as `None`. */
module UtilitiesJs {
  import opened JsValues
  import opened ZipPattern
  import UtilitiesTs

  /** `parseZipCode(message)`: `None` when `message.toString()` throws,
      otherwise the last global match or ''. */
  function ParseZipCode(message: Field): (r: Option<string>)
    ensures r.None? <==> message.Absent?
    ensures r.Some? ==> r.value == "" || IsZip(r.value)
    ensures r.Some? ==> (r.value == "" <==> !ContainsZip(message.text))
    ensures r.Some? && r.value != "" ==> exists i :: ZipAt(message.text, i) && r.value == message.text[i..i + 5]
  {
    match message
    case Absent => None
    case Given(s) =>
      if Test(s) then
        var matches := MatchAll(s).value;
        ZipAtIsZip(s, MatchStarts(s, 0)[|matches| - 1]);
        Some(UtilitiesTs.Pop(matches))
      else
        Some("")
  }

  /** `hasValidZipCode(message)`: `None` when `parseZipCode` throws. */
  function HasValidZipCode(message: Field): (r: Option<bool>)
    ensures r.None? <==> message.Absent?
    ensures r == Some(true) <==> message.Given? && ContainsZip(message.text)
    ensures r.Some? ==> (r.value <==> ParseZipCode(message).value != "")
  {
    match ParseZipCode(message)
    case None => None
    case Some(z) => Some(|z| > 0)
  }

  /** On every string the two versions extract the same ZIP, and on a
      missing value the TypeScript guard turns the JavaScript TypeError
      into ''. */
  lemma {:induction false} AgreesWithTypeScript(message: Field)
    ensures message.Given? ==> ParseZipCode(message) == Some(UtilitiesTs.ParseZipCode(message))
    ensures message.Given? ==> HasValidZipCode(message) == Some(UtilitiesTs.HasValidZipCode(message))
    ensures message.Absent? ==> ParseZipCode(message).None? && UtilitiesTs.ParseZipCode(message) == ""
  {
  }
}
