/** Message handling of server.js: `incomingMessageHandler`, which reads the
    request fields itself, routes on the body and writes the reply. */
module ServerJs {
  import opened JsValues
  import opened ZipPattern
  import opened Routing
  import opened Twiml
  import UtilitiesJs
  import ServerTs

  /** How a request ends: a response carrying the messages, or a TypeError
      thrown before anything is sent. */
  datatype Outcome = Sent(messages: seq<string>) | TypeErrorThrown

  /** The if/else chain of the handler: `None` when the ZIP test throws, which
      happens exactly for a missing body (no keyword equals `undefined`). */
  function Classify(body: Field): (r: Option<Intent>)
    ensures r.None? <==> body.Absent?
    ensures r == Some(Locate) <==> body == Given("LOCATE")
    ensures r == Some(Stats) <==> body == Given("STATS")
    ensures r == Some(Geo) <==> body == Given("GEO")
    ensures r == Some(Two) <==> body == Given("TWO")
    ensures r.Some? && r.value.ZipCode? <==> !IsKeyword(body) && body.Given? && ContainsZip(body.text)
    ensures r.Some? && r.value.ZipCode? ==> IsZip(r.value.zip) && Some(r.value.zip) == UtilitiesJs.ParseZipCode(body)
  {
    if body == Given("LOCATE") then Some(Locate)
    else if body == Given("STATS") then Some(Stats)
    else if body == Given("GEO") then Some(Geo)
    else if body == Given("TWO") then Some(Two)
    else
      match UtilitiesJs.HasValidZipCode(body)
      case None => None
      case Some(valid) =>
        if valid then Some(ZipCode(UtilitiesJs.ParseZipCode(body).value)) else Some(Unrecognised)
  }

  /** The location the GEO reply prints: each field through a template
      literal, with no default for a missing one. */
  function TemplateLocation(req: SmsRequest): Location {
    Location(TemplateText(req.fromCity), TemplateText(req.fromState),
             TemplateText(req.fromZip), TemplateText(req.fromCountry))
  }

  /** What the handler does with a request. */
  function Respond(req: SmsRequest): (out: Outcome)
    ensures out.TypeErrorThrown? <==> req.body.Absent?
    ensures out.Sent? ==> |out.messages| <= 2
    ensures req.body == Given("LOCATE") ==> out == Sent([LocatePrompt])
    ensures req.body == Given("STATS") ==> out == Sent([])
    ensures req.body == Given("GEO") ==> out == Sent([GeoText(TemplateLocation(req))])
    ensures req.body == Given("TWO") ==> out == Sent([TwoFirstPart, TwoSecondPart])
    ensures !IsKeyword(req.body) && req.body.Given? && ContainsZip(req.body.text) ==>
      exists z :: IsZip(z) && out == Sent([ZipTextPrefix + z + "."]) && UtilitiesJs.ParseZipCode(req.body) == Some(z)
    ensures !IsKeyword(req.body) && req.body.Given? && !ContainsZip(req.body.text) ==> out == Sent([])
  {
    match Classify(req.body)
    case None => TypeErrorThrown
    case Some(intent) => Sent(RepliesFor(intent, TemplateLocation(req)))
  }

  /** `incomingMessageHandler`: reads the body, pushes replies across the
      if/else chain (reading the location fields only for GEO), then adds
      each reply, in order, to the response. */
  method IncomingMessageHandler(req: SmsRequest) returns (out: Outcome)
    ensures out == Respond(req)
  {
    var twiml := new MessagingResponse();
    var messageBody := req.body;
    var messages: seq<string> := [];
    if messageBody == Given("LOCATE") {
      messages := messages + [LocatePrompt];
    } else if messageBody == Given("STATS") {
    } else if messageBody == Given("GEO") {
      var fromCity := req.fromCity;
      var fromState := req.fromState;
      var fromZip := req.fromZip;
      var fromCountry := req.fromCountry;
      messages := messages + [GeoText(Location(TemplateText(fromCity), TemplateText(fromState),
                                               TemplateText(fromZip), TemplateText(fromCountry)))];
    } else if messageBody == Given("TWO") {
      messages := messages + [TwoFirstPart];
      messages := messages + [TwoSecondPart];
    } else {
      var valid := UtilitiesJs.HasValidZipCode(messageBody);
      if valid.None? {
        return TypeErrorThrown;
      }
      if valid.value == true {
        var zipCode := UtilitiesJs.ParseZipCode(messageBody).value;
        messages := messages + [ZipText(zipCode)];
      }
    }
    var i := 0;
    while i < |messages|
      invariant 0 <= i <= |messages|
      invariant twiml.messages == messages[..i]
    {
      twiml.Message(messages[i]);
      i := i + 1;
    }
    out := Sent(twiml.messages);
  }

  /** A request without a Body field reaches `hasValidZipCode(undefined)`,
      whose `toString` call throws: no response is written. */
  lemma MissingBodyThrows(req: SmsRequest)
    requires req.body.Absent?
    ensures Respond(req) == TypeErrorThrown
  {
  }

  /** GEO with missing location fields prints the word "undefined" for each. */
  lemma GeoWithMissingFieldsPrintsUndefined(req: SmsRequest)
    requires req.body == Given("GEO")
    requires req.fromCity.Absent? && req.fromState.Absent? && req.fromZip.Absent? && req.fromCountry.Absent?
    ensures Respond(req) == Sent([GeoText(Location("undefined", "undefined", "undefined", "undefined"))])
  {
  }

  /** When the body and all four location fields are present, server.js
      answers exactly what the webhook controller of src/server.ts answers. */
  lemma {:induction false} AgreesWithTypeScriptWhenFieldsGiven(req: SmsRequest)
    requires req.body.Given?
    requires req.fromCity.Given? && req.fromState.Given? && req.fromZip.Given? && req.fromCountry.Given?
    ensures Respond(req) == Sent(ServerTs.Replies(req.body, Location(OrEmpty(req.fromCity), OrEmpty(req.fromState),
                                                                     OrEmpty(req.fromZip), OrEmpty(req.fromCountry))))
  {
  }
}
