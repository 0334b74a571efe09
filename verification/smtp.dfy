/** smtp/builder.go and smtp/client.go: building the envelope and MIME
    message for a plain SMTP relay, and handing them to `smtp.SendMail`.

    The envelope lists every To, CC and BCC address; the headers name only
    To and CC, which keeps BCC recipients hidden. MIME serialization
    (go-message) is a `Serializer` from the header and parts to the message
    text, or the writer's error; `smtp.SendMail` is a `Transport`. */
module Smtp {
  import opened Wrappers
  import opened Strings
  import Common

  const ErrUserRequired: Error := "SMTP_USER is required"
  const ErrPasswordRequired: Error := "SMTP_PASSWORD is required"

  /** `Config`: relay host and port, and the PLAIN credentials. */
  datatype Config = Config(host: string, port: int, user: string, password: string)

  /** `Config.Validate`: the user is checked first, then the password. */
  function Validate(c: Config): (r: Outcome)
    ensures r == Pass <==> c.user != "" && c.password != ""
    ensures c.user == "" ==> r == Fail(ErrUserRequired)
    ensures c.user != "" && c.password == "" ==> r == Fail(ErrPasswordRequired)
  {
    if c.user == "" then Fail(ErrUserRequired)
    else if c.password == "" then Fail(ErrPasswordRequired)
    else Pass
  }

  /** A `Content-Type` value with its `charset` parameter. */
  datatype MediaType = MediaType(value: string, charset: string)

  const Utf8: string := "utf-8"
  const Alternative := MediaType("multipart/alternative", Utf8)
  const PlainType := MediaType("text/plain", Utf8)
  const HtmlType := MediaType("text/html", Utf8)

  /** The top-level headers the builder sets; `cc` is `None` when the
      header is not set at all. */
  datatype Header = Header(subject: string, from: string, contentType: MediaType, to: string, cc: Option<string>)

  datatype Part = Part(contentType: MediaType, body: string)

  /** The message before serialization: headers and the alternative parts. */
  datatype Message = Message(header: Header, parts: seq<Part>)

  type Serializer = Message -> Result<string>

  /** What `buildEmailRequest` returns on success. */
  datatype Envelope = Envelope(recipients: seq<string>, message: Message, data: string)

  /** The envelope recipients: To, then CC, then BCC addresses, in order. */
  function Recipients(input: Common.SendRequest): seq<string>
  {
    Common.Addresses(input.to) + Common.Addresses(input.cc) + Common.Addresses(input.bcc)
  }

  /** The headers and parts; `show` is `Email.String()`. */
  function BuildMessage(input: Common.SendRequest, show: Common.Email -> string): Message
  {
    var header := Header(
      input.subject,
      Common.FormatAddress(input.fromName, input.from),
      Alternative,
      Join(Common.Shown(input.to, show), ", "),
      if |input.cc| > 0 then Some(Join(Common.Shown(input.cc, show), ", ")) else None);
    var parts := (if input.plainTextContent != "" then [Part(PlainType, input.plainTextContent)] else [])
                 + (if input.htmlContent != "" then [Part(HtmlType, input.htmlContent)] else []);
    Message(header, parts)
  }

  /** `buildEmailRequest`: the recipients and the serialized message, or
      the writer's error. */
  function BuildEmailRequest(input: Common.SendRequest, show: Common.Email -> string,
                             serialize: Serializer): (r: Result<Envelope>)
    ensures r.Ok? <==> serialize(BuildMessage(input, show)).Ok?
    ensures r.Err? ==> r.error == serialize(BuildMessage(input, show)).error
    ensures r.Ok? ==> r.value.recipients == Recipients(input)
    ensures r.Ok? ==> r.value.message == BuildMessage(input, show)
    ensures r.Ok? ==> Ok(r.value.data) == serialize(BuildMessage(input, show))
  {
    var message := BuildMessage(input, show);
    var data :- serialize(message);
    Ok(Envelope(Recipients(input), message, data))
  }

  /** Every mailbox of every list is an envelope recipient, in list order,
      with nothing dropped or deduplicated. */
  lemma RecipientsCoverAllLists(input: Common.SendRequest)
    ensures var r := Recipients(input);
            var nt := |input.to|;
            var nc := |input.cc|;
            && |r| == |input.to| + |input.cc| + |input.bcc|
            && (forall i | 0 <= i < |input.to| :: r[i] == input.to[i].address)
            && (forall i | 0 <= i < |input.cc| :: r[nt + i] == input.cc[i].address)
            && (forall i | 0 <= i < |input.bcc| :: r[nt + nc + i] == input.bcc[i].address)
  {
  }

  /** BCC stays hidden: the headers and parts do not depend on the BCC list. */
  lemma BccNotInHeaders(input: Common.SendRequest, show: Common.Email -> string, bcc: seq<Common.Email>)
    ensures BuildMessage(input, show) == BuildMessage(input.(bcc := bcc), show)
  {
  }

  /** The header values: subject as given, sender in display form, the To
      header always set (empty for no To), the Cc header set iff there is a
      CC; both list the mailboxes' display forms joined by `", "`. */
  lemma HeaderValues(input: Common.SendRequest, show: Common.Email -> string)
    ensures var h := BuildMessage(input, show).header;
            && h.subject == input.subject
            && h.from == input.fromName + " <" + input.from + ">"
            && h.contentType == MediaType("multipart/alternative", "utf-8")
            && (|input.to| == 0 ==> h.to == "")
            && (|input.to| == 1 ==> h.to == show(input.to[0]))
            && (|input.to| >= 2 ==>
                  h.to == show(input.to[0]) + ", " + BuildMessage(input.(to := input.to[1..]), show).header.to)
            && (h.cc.Some? <==> |input.cc| > 0)
            && (|input.cc| == 1 ==> h.cc == Some(show(input.cc[0])))
            && (|input.cc| >= 2 ==>
                  h.cc == Some(show(input.cc[0]) + ", " + BuildMessage(input.(cc := input.cc[1..]), show).header.cc.value))
  {
    if |input.to| > 0 {
      assert Common.Shown(input.to, show)[1..] == Common.Shown(input.to[1..], show);
    }
    if |input.cc| > 0 {
      assert Common.Shown(input.cc, show)[1..] == Common.Shown(input.cc[1..], show);
    }
  }

  /** A plain part iff there is plain text, an HTML part iff there is HTML,
      plain first, both utf-8. */
  lemma MessageParts(input: Common.SendRequest, show: Common.Email -> string)
    ensures var parts := BuildMessage(input, show).parts;
            && (Part(PlainType, input.plainTextContent) in parts <==> input.plainTextContent != "")
            && (Part(HtmlType, input.htmlContent) in parts <==> input.htmlContent != "")
            && |parts| == (if input.plainTextContent != "" then 1 else 0) + (if input.htmlContent != "" then 1 else 0)
            && (forall i | 0 <= i < |parts| :: parts[i].contentType.charset == "utf-8")
            && (input.plainTextContent != "" ==> parts[0].contentType.value == "text/plain")
  {
  }

  /** What `smtp.SendMail` is asked to do. */
  datatype Delivery = Delivery(host: string, port: int, user: string, password: string,
                               from: string, recipients: seq<string>, data: string)

  type Transport = Delivery -> Option<Error>

  /** A send: the delivery attempted, if any, and the error returned. */
  datatype Attempt = Attempt(delivery: Option<Delivery>, outcome: Outcome)

  /** `Client.Send`: build first; a build error is returned without
      contacting the relay; otherwise deliver from `input.From` to the
      built recipient list and return the relay's answer. */
  function Send(c: Config, input: Common.SendRequest, show: Common.Email -> string,
                serialize: Serializer, transport: Transport): (r: Attempt)
    ensures BuildEmailRequest(input, show, serialize).Err? ==>
              r == Attempt(None, Fail(BuildEmailRequest(input, show, serialize).error))
    ensures BuildEmailRequest(input, show, serialize).Ok? ==>
              && r.delivery.Some?
              && r.delivery.value.from == input.from
              && r.delivery.value.recipients == Recipients(input)
              && Ok(r.delivery.value.data) == serialize(BuildMessage(input, show))
              && r.delivery.value.host == c.host && r.delivery.value.port == c.port
              && r.delivery.value.user == c.user && r.delivery.value.password == c.password
              && (r.outcome == Pass <==> transport(r.delivery.value).None?)
              && (r.outcome.Fail? ==> Some(r.outcome.error) == transport(r.delivery.value))
  {
    match BuildEmailRequest(input, show, serialize)
    case Err(e) => Attempt(None, Fail(e))
    case Ok(envelope) =>
      var delivery := Delivery(c.host, c.port, c.user, c.password, input.from, envelope.recipients, envelope.data);
      match transport(delivery)
      case Some(e) => Attempt(Some(delivery), Fail(e))
      case None => Attempt(Some(delivery), Pass)
  }
}
