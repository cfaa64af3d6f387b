/** Message handling of src/server.ts: `handleMessage` and the two
    controllers that feed it from the webhook and from the dev endpoint. */
module ServerTs {
  import opened JsValues
  import opened ZipPattern
  import opened Routing
  import opened Twiml
  import UtilitiesTs

  /** The if/else chain of `handleMessage` as a classification: the four
      keywords compared exactly and case-sensitively, before any ZIP test. */
  function Classify(body: Field): (intent: Intent)
    ensures intent == Locate <==> body == Given("LOCATE")
    ensures intent == Stats <==> body == Given("STATS")
    ensures intent == Geo <==> body == Given("GEO")
    ensures intent == Two <==> body == Given("TWO")
    ensures intent.ZipCode? <==> !IsKeyword(body) && body.Given? && ContainsZip(body.text)
    ensures intent.ZipCode? ==> intent.zip == UtilitiesTs.ParseZipCode(body) && IsZip(intent.zip)
    ensures intent == Unrecognised <==> !IsKeyword(body) && !(body.Given? && ContainsZip(body.text))
  {
    if body == Given("LOCATE") then Locate
    else if body == Given("STATS") then Stats
    else if body == Given("GEO") then Geo
    else if body == Given("TWO") then Two
    else if UtilitiesTs.HasValidZipCode(body) then ZipCode(UtilitiesTs.ParseZipCode(body))
    else Unrecognised
  }

  /** The replies `handleMessage` sends for a body and a location. */
  function Replies(body: Field, loc: Location): (r: seq<string>)
    ensures |r| <= 2
    ensures body == Given("LOCATE") ==> r == [LocatePrompt]
    ensures body == Given("STATS") ==> r == []
    ensures body == Given("GEO") ==> r == [GeoText(loc)]
    ensures body == Given("TWO") ==> r == [TwoFirstPart, TwoSecondPart]
    ensures !IsKeyword(body) && body.Given? && ContainsZip(body.text) ==>
      r == [ZipTextPrefix + UtilitiesTs.ParseZipCode(body) + "."]
    ensures !IsKeyword(body) && !(body.Given? && ContainsZip(body.text)) ==> r == []
  {
    RepliesFor(Classify(body), loc)
  }

  /** `handleMessage`: pushes the replies for the body onto a local list
      across the if/else chain, then hands each one, in order, to the
      response object. The result is the response's message list. */
  method HandleMessage(body: Field, from: Field, city: string, state: string, zip: string, country: string)
    returns (sent: seq<string>)
    ensures sent == Replies(body, Location(city, state, zip, country))
  {
    var twiml := new MessagingResponse();
    var messages: seq<string> := [];
    if body == Given("LOCATE") {
      messages := messages + [LocatePrompt];
    } else if body == Given("STATS") {
    } else if body == Given("GEO") {
      messages := messages + [GeoText(Location(city, state, zip, country))];
    } else if body == Given("TWO") {
      messages := messages + [TwoFirstPart];
      messages := messages + [TwoSecondPart];
    } else if UtilitiesTs.HasValidZipCode(body) == true {
      var zipCode := UtilitiesTs.ParseZipCode(body);
      messages := messages + [ZipText(zipCode)];
    }
    assert messages == RepliesFor(Classify(body), Location(city, state, zip, country));
    var i := 0;
    while i < |messages|
      invariant 0 <= i <= |messages|
      invariant twiml.messages == messages[..i]
    {
      twiml.Message(messages[i]);
      i := i + 1;
    }
    sent := twiml.messages;
  }

  /** A dev-endpoint request: a JSON body with `message` and `from`. */
  datatype DevRequest = DevRequest(message: Field, from: Field)

  /** `incomingMessageController`: missing location fields default to ''. */
  method IncomingMessageController(req: SmsRequest) returns (sent: seq<string>)
    ensures sent == Replies(req.body, Location(OrEmpty(req.fromCity), OrEmpty(req.fromState),
                                               OrEmpty(req.fromZip), OrEmpty(req.fromCountry)))
    ensures (req.body == Given("GEO") && req.fromCity.Absent? && req.fromState.Absent? &&
             req.fromZip.Absent? && req.fromCountry.Absent?) ==> sent == [GeoText(Location("", "", "", ""))]
  {
    var city := OrEmpty(req.fromCity);
    var state := OrEmpty(req.fromState);
    var zip := OrEmpty(req.fromZip);
    var country := OrEmpty(req.fromCountry);
    sent := HandleMessage(req.body, req.from, city, state, zip, country);
  }

  /** `incomingMessageControllerDev`: the location is always four empty strings. */
  method IncomingMessageControllerDev(req: DevRequest) returns (sent: seq<string>)
    ensures sent == Replies(req.message, Location("", "", "", ""))
    ensures req.message == Given("GEO") ==> sent == [GeoText(Location("", "", "", ""))]
  {
    sent := HandleMessage(req.message, req.from, "", "", "", "");
  }

  /** A request without a body gets no reply: every keyword test fails and
      the type guard of `hasValidZipCode` answers false. */
  lemma MissingBodyGetsNoReply(loc: Location)
    ensures Replies(Absent, loc) == []
  {
  }
}
