/** The part of the messaging library's `MessagingResponse` that the handlers
    use: each `message(text)` call adds one message to the response. */
module Twiml {

  class MessagingResponse {
    /** The message texts added so far, in call order. */
    var messages: seq<string>

    constructor ()
      ensures messages == []
    {
      messages := [];
    }

    method Message(text: string)
      modifies this
      ensures messages == old(messages) + [text]
    {
      messages := messages + [text];
    }
  }
}
