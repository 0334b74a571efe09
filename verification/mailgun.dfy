/** mailgun/client.go: validating the Mailgun settings and translating a
    request into a Mailgun message.

    Every To, CC and BCC mailbox is added to its list in input order, as
    its `Email.String()` form (passed in as `show`), with no deduplication.
    The SDK's `Send` is a `Client` from the message to the error it
    returned, if any; the request timeout is not modelled. */
module Mailgun {
  import opened Wrappers
  import Common

  const ErrDomainRequired: Error := "MAILGUN_DOMAIN is required"
  const ErrApiKeyRequired: Error := "MAILGUN_API_KEY is required"

  /** `Config`; `timeout` is the duration in nanoseconds. */
  datatype Config = Config(domain: string, apiKey: string, baseUrl: string, timeout: int)

  /** `Config.Validate`: the domain is checked first, then the key. */
  function Validate(c: Config): (r: Outcome)
    ensures r == Pass <==> c.domain != "" && c.apiKey != ""
    ensures c.domain == "" ==> r == Fail(ErrDomainRequired)
    ensures c.domain != "" && c.apiKey == "" ==> r == Fail(ErrApiKeyRequired)
  {
    if c.domain == "" then Fail(ErrDomainRequired)
    else if c.apiKey == "" then Fail(ErrApiKeyRequired)
    else Pass
  }

  /** `mailgun.Message`, restricted to the fields the adapter sets; `html`
      is `None` when `SetHtml` was not called. */
  datatype Message = Message(from: string, subject: string, text: string, html: Option<string>,
                             to: seq<string>, cc: seq<string>, bcc: seq<string>)

  type Client = Message -> Option<Error>

  /** `buildEmailRequest`. */
  function BuildEmailRequest(input: Common.SendRequest, show: Common.Email -> string): (m: Message)
    ensures m.from == Common.FormatAddress(input.fromName, input.from)
    ensures m.subject == input.subject && m.text == input.plainTextContent
    ensures m.html.Some? <==> input.htmlContent != ""
    ensures m.html.Some? ==> m.html.value == input.htmlContent
    ensures m.to == Common.Shown(input.to, show)
    ensures m.cc == Common.Shown(input.cc, show)
    ensures m.bcc == Common.Shown(input.bcc, show)
  {
    Message(Common.FormatAddress(input.fromName, input.from), input.subject, input.plainTextContent,
            if input.htmlContent != "" then Some(input.htmlContent) else None,
            Common.Shown(input.to, show), Common.Shown(input.cc, show), Common.Shown(input.bcc, show))
  }

  /** Each list keeps its length and order: the i-th mailbox of a list is
      the i-th entry of the matching message list, duplicates included. */
  lemma RecipientsInOrder(input: Common.SendRequest, show: Common.Email -> string)
    ensures var m := BuildEmailRequest(input, show);
            && |m.to| == |input.to| && |m.cc| == |input.cc| && |m.bcc| == |input.bcc|
            && (forall i | 0 <= i < |input.to| :: m.to[i] == show(input.to[i]))
            && (forall i | 0 <= i < |input.cc| :: m.cc[i] == show(input.cc[i]))
            && (forall i | 0 <= i < |input.bcc| :: m.bcc[i] == show(input.bcc[i]))
  {
  }

  /** The sender string parses back to the sender, for a name that does not
      start with a space and an address with no space. */
  lemma SenderParsesBack(input: Common.SendRequest, show: Common.Email -> string)
    requires input.fromName != "" && input.fromName[0] != ' ' && ' ' !in input.from
    ensures Common.ParseEmail(BuildEmailRequest(input, show).from)
              == Ok(Common.Email(input.from, input.fromName))
  {
    Common.ParseFormatRoundTrip(input.fromName, input.from);
  }

  /** `Client.Send`: the SDK's error, if any, else success. */
  function Send(input: Common.SendRequest, show: Common.Email -> string, client: Client): (r: Outcome)
    ensures r == Pass <==> client(BuildEmailRequest(input, show)).None?
    ensures r.Fail? ==> Some(r.error) == client(BuildEmailRequest(input, show))
  {
    match client(BuildEmailRequest(input, show))
    case Some(e) => Fail(e)
    case None => Pass
  }
}
