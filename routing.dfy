/** What src/server.ts and server.js share: the webhook request, the four
    keywords, the reply texts, and what each kind of message answers. */
module Routing {
  import opened JsValues

  /** A webhook request: the message body, the sender and the sender's
      location fields, each of which may be missing. */
  datatype SmsRequest = SmsRequest(
    body: Field, from: Field, fromCity: Field, fromState: Field, fromZip: Field, fromCountry: Field)

  /** The bodies the handlers compare against, exactly and case-sensitively. */
  predicate IsKeyword(body: Field) {
    body == Given("LOCATE") || body == Given("STATS") || body == Given("GEO") || body == Given("TWO")
  }

  const LocatePrompt: string :=
    "We can do that! This is The Right Time clinic finder. Please send your zip code to find a clinic near you."
  const TwoFirstPart: string := "I can do that!"
  const TwoSecondPart: string := "This is the second message part."

  /** The carrier-reported location of the sender, as the reply prints it. */
  datatype Location = Location(city: string, state: string, zip: string, country: string)

  function GeoText(loc: Location): string {
    "Your location is " + loc.city + ", " + loc.state + ", " + loc.zip + ", " + loc.country + "."
  }

  const ZipTextPrefix: string := "Thanks! We found a clinic near you. The zip code you provided is "

  function ZipText(zip: string): string {
    ZipTextPrefix + zip + "."
  }

  /** What a message body asks for, in the order the handlers test it. */
  datatype Intent = Locate | Stats | Geo | Two | ZipCode(zip: string) | Unrecognised

  /** The replies pushed for each kind of message. The STATS reply is
      commented out in both handlers, so STATS answers nothing. */
  function RepliesFor(intent: Intent, loc: Location): seq<string> {
    match intent
    case Locate => [LocatePrompt]
    case Stats => []
    case Geo => [GeoText(loc)]
    case Two => [TwoFirstPart, TwoSecondPart]
    case ZipCode(z) => [ZipText(z)]
    case Unrecognised => []
  }
}
