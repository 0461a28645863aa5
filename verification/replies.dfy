/** The answer engine's chat-completion reply envelope and the errors the
    discovery and enrichment paths throw. The HTTP exchange itself is not
    modelled: a reply is a value handed to the operations. */
module Replies {
  import opened Wrappers

  /** One completion choice; only its message content is read. */
  datatype Choice = Choice(content: string)

  datatype Reply = Reply(choices: seq<Choice>)

  datatype Error =
    | NoValidJson          // thrown when the reply holds no array-shaped text
    | NameRequired         // thrown by enrichment before any request is made
    | MissingContent       // `choices[0].message.content` read off a reply without choices
    | InvalidJson(detail: string)  // the syntax error JSON parsing reports

  /** The message text the service writes for the errors it throws itself.
      A missing choice and a parse failure are raised by the JavaScript
      runtime, whose message text is not part of the service. */
  function Message(e: Error): (m: Option<string>)
    ensures m.Some? <==> e == NoValidJson || e == NameRequired
  {
    match e
    case NoValidJson => Some("No valid JSON found in response")
    case NameRequired => Some("Founder name is required for enrichment")
    case MissingContent => None
    case InvalidJson(_) => None
  }

  /** `reply.choices[0].message.content`, failing when there is no first
      choice. */
  function Content(reply: Reply): (r: Result<string, Error>)
    ensures r.Failure? <==> |reply.choices| == 0
    ensures r.Failure? ==> r.error == MissingContent
    ensures r.Success? ==> r.value == reply.choices[0].content
  {
    if |reply.choices| == 0 then Failure(MissingContent)
    else Success(reply.choices[0].content)
  }
}
