# mailer — a Dafny model of the dispatch core

This project models the pure logic of `nexlabhq/mailer`, a Go library that
sends transactional email through one of several vendors. The model covers:

- the vendor-neutral request and mailbox types, and the free-text address
  parser `ParseEmail` (package `common`);
- the `email` package's own request type, vendor selection (`getIEmail`),
  stored templates, and the `uniqueStrings` set;
- template rendering (`ParseTemplate`), where the Go template engines are
  abstract render functions;
- the `Emailer` pipeline: sender defaults, sending in order until the first
  error, template lookup and locale selection (`Send`, `SendQueue`,
  `SendWithTemplates`, `getLocaleContent`);
- the three vendor adapters: the SendGrid request builder with its CC/BCC
  deduplication and status check, the SMTP envelope/header/part builder and
  its send step, and the Mailgun message builder; plus both config validators.

Modules follow the Go packages: `Wrappers` (error-carrying results),
`Strings` (the parts of Go's `strings` and `sort` used here), `Common`
(common/), `MailerTypes` (type.go, util.go), `Templates` (helper.go),
`Emailer` (email.go), `SendGrid`, `Smtp`, `Mailgun`.

Everything is a pure function over immutable datatypes. Whatever the Go code
gets from outside becomes a parameter:

- Go's map iteration order is a `Common.Choice`: a function that names, out of
  the keys still to visit, the one visited first. `ValidChoice` only asks that
  it picks a member. Every property is proved for every valid choice.
- `Email.String()` is a parameter `show`.
- The text and HTML template engines are `Templates.Engine` functions, from
  (template name, template text, variables) to the rendered text or an error.
- The vendor behind `IEmailer` is an `Emailer.Vendor` function, from the call
  number and the request to the vendor's error, if any.
- The template store is a map from template id to template.
- SendGrid's HTTP client, go-message's MIME writer, `smtp.SendMail` and
  Mailgun's `Send` are function parameters of their adapters.

Go updates the `*SendRequest` values in place. `Emailer.Send` returns the
updated request list instead.

Two behaviours of the code are worth stating plainly:

- `getIEmail` (type.go:47-62) builds only a SendGrid client. It rejects every
  other vendor name, including `mailgun` and `smtp`, whose adapters exist.
- `getLocaleContent` (email.go:206-214) falls back, when the configured
  locale is missing, to whichever key the map range visits first. Go does not
  fix that order, so the model leaves the choice open.

## Model

| member | source | states |
|---|---|---|
| Strings.Join | common/type.go:37 | no contract of its own: `JoinSplit` and `SplitJoin` prove it is the inverse of `Split` on separator-free parts |
| Strings.Split | common/type.go:26 | splitting on one separator always gives at least one part; no part holds the separator; the first part is empty exactly when the string is empty or starts with the separator |
| Strings.JoinSplit | common/type.go:26-37 | joining the parts back with the separator restores the string |
| Strings.SplitJoin | common/type.go:26-37 | parts free of the separator come back unchanged from splitting their join |
| Strings.TrimPrefix | common/type.go:41 | a string with the prefix is the prefix followed by the result; a string without it is returned unchanged |
| Strings.TrimSuffix | common/type.go:41 | a string with the suffix is the result followed by the suffix; a string without it is returned unchanged |
| Strings.Sort | type.go:140-144 | `sort.Strings` yields an ascending arrangement of the same strings |
| Strings.SortedUnique | type.go:140-144 | two ascending arrangements of the same strings are equal, so the sorted result does not depend on input order |
| Strings.SortIsCanonical | type.go:140-144 | sorting any two arrangements of the same strings gives the same list |
| Common.ParseEmail | common/type.go:25-44 | the parse fails exactly on empty input or input with a leading space, and then with "email input is empty" |
| Common.TrimAngles | common/type.go:41 | exactly one leading `<` is removed when present; after that, one character is removed from the end exactly when the rest ends in `>`; what remains is a contiguous, unchanged slice of the address |
| Common.TrimAnglesBracketed | common/type.go:41 | `<a>` becomes exactly `a` |
| Common.TrimAnglesPlain | common/type.go:41 | an address with no bracket at either end is left unchanged |
| Common.ParseSingleToken | common/type.go:33-34 | input with no space is all address, with name `""` |
| Common.ParseSeveralTokens | common/type.go:35-38 | the text after the last space is the address; everything before that space is the name, its own spaces kept |
| Common.ParseTrailingSpace | common/type.go:35-41 | a trailing space gives an empty address and no error |
| Common.ParseFormatRoundTrip | common/type.go:25-44 | parsing `name <addr>` returns the mailbox `{addr, name}`, for a non-empty name with no leading space and an address with no space |
| Common.ParseEmailBareExample | common/type_test.go:15-16 | `test@example.com` parses to that address with no name |
| Common.ParseEmailBracketedExample | common/type_test.go:19-20 | `<test@example.com>` parses to `test@example.com` with no name |
| Common.ParseEmailNamedExample | common/type_test.go:23-24 | `Test user <user@example.com>` parses to the address and name `Test user` |
| Common.ParseEmailUnbracketedExample | common/type_test.go:27-28 | `Test user 2 user2@example.com` parses to the last token and name `Test user 2` |
| Common.FormatAddress | smtp/builder.go:20 | no contract of its own: `ParseFormatRoundTrip` and `Mailgun.SenderParsesBack` prove that `ParseEmail` turns `name <address>` back into the mailbox |
| Common.HasString | common/util.go:4-12 | true exactly when some element equals the item; false on an empty list |
| Common.GetFirstStringInMap | common/util.go:15-21 | `""` for an empty map, otherwise one of the map's values |
| Common.GetFirstStringAnyValue | common/util.go:15-18 | every value of the map is the answer under some iteration order |
| MailerTypes.Model | type.go:24-27 | the converted request has every field of the original |
| MailerTypes.ModelRoundTrip | type.go:24-27 | the conversion and its reverse are inverse, so nothing is lost |
| MailerTypes.ModelInjective | type.go:24-27 | requests that convert alike were alike |
| MailerTypes.GetIEmail | type.go:47-62 | succeeds exactly for vendor `sendgrid` with a non-empty key, building a SendGrid client for that key; `sendgrid` without a key fails with "SendGrid API Key is required"; any other vendor fails with "invalid vendor <name>" |
| MailerTypes.Add | type.go:117-123 | afterwards the set is the earlier members plus every added value |
| MailerTypes.AddIdempotent | type.go:117-123 | adding values already present leaves the set unchanged |
| MailerTypes.IsEmpty | type.go:126-128 | true exactly when the set has no member |
| MailerTypes.Value | type.go:131-137 | the listing holds each member exactly once, so its length is the set size |
| MailerTypes.ValueEnumerates | type.go:131-137 | a string is in the listing exactly when it is a member, and at most once |
| MailerTypes.ToString | type.go:140-144 | no contract of its own: `ToStringCanonical`, `ToStringIgnoresOrder` and `ToStringIgnoresInsertionOrder` prove it is the one sorted, comma-joined listing of the members |
| MailerTypes.ToStringCanonical | type.go:140-144 | `String` is the members' unique ascending listing joined by `,` |
| MailerTypes.ToStringIgnoresOrder | type.go:140-144 | `String` does not depend on the map's iteration order |
| MailerTypes.ToStringIgnoresInsertionOrder | type.go:117-144 | adding the same values in any order, with repeats, gives the same `String` |
| MailerTypes.NewEmail | util.go:14-19 | the mailbox has the given address and name |
| MailerTypes.NewEmails | util.go:5-12 | a list of length one whose element is `NewEmail` of the same address and name |
| Templates.TemplateNamesDistinct | helper.go:16-42 | the names `id:kind:locale` under which a template's entries are rendered differ whenever the kind or the locale differs |
| Templates.RenderLocales | helper.go:15-25 | succeeds exactly when every entry renders; the result has the input's keys (none for a nil map), each mapped to its rendered value; a failure carries the error of some failing entry |
| Templates.ParseTemplate | helper.go:10-60 | succeeds exactly when every subject, content and HTML content renders, with the text engine for the first two and the HTML engine for the third; the id is kept; each output map is non-nil with exactly the input map's keys and rendered values; otherwise no template is returned |
| Templates.ParseTemplateSubjectErrorFirst | helper.go:15-25 | a failing subject is reported before any content is rendered |
| Templates.ParseTemplatePlainIsIdentity | helper_test.go:119-126 | with a text engine that leaves action-free text alone, and HTML entries that all render, a template whose subjects and contents hold no placeholder parses successfully, keeping its id, subjects and contents (a nil map becoming an empty one) and its HTML locales |
| Emailer.New | email.go:22-40 | no vendor is built when none is named; a named vendor must be one `getIEmail` accepts, and its error is returned; the locale and data client are taken from the configuration |
| Emailer.WithDefaults | email.go:48-53 | an empty sender address or name becomes the configured one; non-empty ones and every other field are unchanged |
| Emailer.WithDefaultsIdempotent | email.go:48-53 | applying the defaults twice is applying them once |
| Emailer.DeliverAll | email.go:47-61 | a prefix of the requests is prepared and sent in order; the rest is untouched; every call before the last was accepted; the loop stops early only on an error, which is the last call's |
| Emailer.Send | email.go:42-62 | with no vendor, fails with "required emailer vendor" before any call; otherwise each request is defaulted and sent in order until the first error |
| Emailer.SendStopsAtFirstError | email.go:47-61 | when call j is the first the vendor rejects, exactly j+1 requests are sent, its error is returned, and later requests are neither defaulted nor sent |
| Emailer.SendAllAccepted | email.go:47-61 | when the vendor accepts every call, every request is sent and no error is returned |
| Emailer.SendQueue | email.go:64-77 | without a data client, fails with "DATA_CLIENT is required"; otherwise sends the requests as they are, without defaults, until the first error |
| Emailer.LocaleContent | email.go:206-214 | the configured locale's text when a locale is configured and present; otherwise `""` for no locales, or one of the available texts |
| Emailer.TemplateIds | email.go:88-95 | the collected ids are exactly the requests' distinct non-empty template ids |
| Emailer.FetchTemplates | email.go:154-160 | the fetched map holds exactly the stored templates whose ids were asked for |
| Emailer.FetchedTemplatesMatchRequests | email.go:88-97 | the lookup sees exactly the stored templates for the requests' non-empty template ids |
| Emailer.ApplyTemplate | email.go:102-119 | an untemplated request passes through; a missing template fails with "email template not found: <id>"; otherwise success exactly when the template renders, and only subject, plain and HTML content change; each of the three is the render of the configured locale's text when that locale is configured and present, otherwise `""` for an empty map or the render of some locale's text |
| Emailer.ApplyTemplates | email.go:102-121 | succeeds exactly when every request transforms, keeping length and order; otherwise fails with the error of the first request that fails |
| Emailer.ApplyTemplatesFirstFailure | email.go:102-111 | when request j is the first that does not transform, the whole transformation fails with exactly that request's error |
| Emailer.SendWithTemplates | email.go:79-124 | no requests: success with no lookup and no send; without a data client: "DATA_CLIENT is required" |
| Emailer.SendWithTemplatesMissingTemplate | email.go:102-107 | a request naming a template the store lacks fails the batch, and nothing is sent |
| Emailer.SendWithTemplatesFailsAtFirstError | email.go:102-121 | when request j is the first that does not transform, the batch fails with that request's error and nothing is sent |
| Emailer.SendWithTemplatesTemplateNotFound | email.go:104-107 | a request whose template the store lacks, after requests that all transform, fails the batch with "email template not found: <id>" and nothing is sent |
| Emailer.SendWithTemplatesRenderFailure | email.go:108-111 | a found template that does not render, after requests that all transform, fails the batch with the render error and nothing is sent |
| Emailer.SendWithTemplatesForwardsInOrder | email.go:96-123 | when some request names a template and all transform, the transformed requests are sent in input order: untemplated ones unchanged, templated ones with only their texts replaced |
| Emailer.SendWithTemplatesDropsUntemplatedBatch | email.go:96-123 | as written, a non-empty batch where no request names a template, with a data client and a vendor, sends nothing and reports success |
| Emailer.SendWithTemplatesFixed | email.go:79-124 | the corrected pipeline keeps the empty-input and data-client checks |
| Emailer.SendWithTemplatesFixedSendsUntemplated | email.go:117-119 | the corrected pipeline sends an untemplated batch exactly as `Send` would |
| Emailer.SendWithTemplatesFixedAgrees | email.go:96-123 | the correction changes nothing for a batch in which some request names a template |
| SendGrid.KeepUnseen | sendgrid/sendgrid.go:68-79 | the kept mailboxes have distinct addresses, none already collected; collected plus kept addresses cover all the list's addresses; the collected list grows by the kept addresses |
| SendGrid.KeepUnseenIsFirstUnseen | sendgrid/sendgrid.go:68-79 | the loop keeps exactly the mailboxes that are first with their address and whose address was not collected before, in list order |
| SendGrid.KeptIffUnseen | sendgrid/sendgrid.go:68-79 | a CC or BCC mailbox is kept exactly when its address is neither already collected nor that of a mailbox kept before it |
| SendGrid.Contents | sendgrid/sendgrid.go:54-59 | no contract of its own: `BuildContents` proves a plain part exactly when there is plain text, an HTML part exactly when there is HTML, plain first |
| SendGrid.BuildEmailRequest | sendgrid/sendgrid.go:50-84 | subject and sender are copied; exactly one personalization; every To mailbox in order, duplicates included; CC deduplicated against To; BCC against To and the kept CCs |
| SendGrid.BuildContents | sendgrid/sendgrid.go:54-59 | a text/plain part exists exactly when there is plain text, a text/html part exactly when there is HTML, plain first |
| SendGrid.BuildNoDuplicateCopies | sendgrid/sendgrid.go:62-79 | kept CC and BCC addresses are distinct, none repeats a To address, and no BCC repeats a kept CC |
| SendGrid.BuildKeepsEveryAddress | sendgrid/sendgrid.go:62-79 | every CC or BCC address still reaches SendGrid in some list |
| SendGrid.BuildSameAddressEverywhere | sendgrid/sendgrid_test.go:18-33 | one address given as To, CC and BCC is sent once, as To |
| SendGrid.Send | sendgrid/sendgrid.go:27-48 | a transport error is returned as it is; a status above 299 gives an error carrying the body; anything else is success |
| Smtp.Validate | smtp/client.go:21-30 | succeeds exactly when user and password are set; the user is checked first ("SMTP_USER is required"), then the password ("SMTP_PASSWORD is required") |
| Smtp.Recipients | smtp/builder.go:23-46 | no contract of its own: `RecipientsCoverAllLists` proves it lists the To, then CC, then BCC addresses in order |
| Smtp.BuildMessage | smtp/builder.go:19-77 | no contract of its own: `HeaderValues` proves its Subject, From, content type, and its To and Cc headers as the mailboxes' display forms joined by `, `, Cc only when there is a CC; `MessageParts` proves its parts; `BccNotInHeaders` proves BCC never reaches either |
| Smtp.BuildEmailRequest | smtp/builder.go:13-82 | fails exactly when the MIME writer fails; otherwise returns the To, CC, BCC address list and the serialized message |
| Smtp.RecipientsCoverAllLists | smtp/builder.go:23-46 | the envelope lists the To, then CC, then BCC addresses, in order and without dedup |
| Smtp.BccNotInHeaders | smtp/builder.go:40-46 | headers and parts do not depend on the BCC list |
| Smtp.HeaderValues | smtp/builder.go:19-38 | Subject as given; From is `FromName <From>`; multipart/alternative in utf-8; To always set: `""` for no To, otherwise the display forms joined by `, `; Cc set exactly when there is a CC, to the display forms joined by `, ` |
| Smtp.MessageParts | smtp/builder.go:53-77 | a plain part exactly when there is plain text, an HTML part exactly when there is HTML, plain first, both utf-8 |
| Smtp.Send | smtp/client.go:45-75 | a build error is returned with no delivery attempted; otherwise delivery goes from `input.From` to the built recipients with the configured server and credentials, and the relay's answer is returned |
| Mailgun.Validate | mailgun/client.go:21-30 | succeeds exactly when domain and key are set; the domain is checked first ("MAILGUN_DOMAIN is required"), then the key ("MAILGUN_API_KEY is required") |
| Mailgun.BuildEmailRequest | mailgun/client.go:88-110 | sender is `FromName <From>`; subject and plain text are copied; HTML is set exactly when non-empty; To, CC and BCC are listed in input order |
| Mailgun.RecipientsInOrder | mailgun/client.go:99-107 | each list keeps its length and order, duplicates included |
| Mailgun.SenderParsesBack | mailgun/client.go:90-94 | the sender string parses back to the sender's mailbox |
| Mailgun.Send | mailgun/client.go:54-86 | the SDK's error if any, else success |

## Left out

- client.go (`Client.Send`, `CancelEmails`): GraphQL mutations. The only local logic is in `Send`: it returns early on an empty batch, and it sets a zero `SendAfter` to the current time, which needs the clock.
- `GetTemplateByIDs`, `UpsertTemplates`, `EmailTemplateRaw.Parse`: network and JSON decoding. The store is a map input, and query and decoding errors are not modelled.
- Vendor SDK internals: SendGrid's and Mailgun's HTTP clients and their constructors (`New`, `SetAPIBase`), MIME bytes and boundaries, `smtp.SendMail`, SASL PLAIN, context timeouts. Each is an abstract parameter or absent.
- Logging (`SetLogger`, logrus calls): it has no effect on results.
- The SMTP server address: Go formats `host:port` with `fmt.Sprintf`. The model hands host and port to the transport as separate fields.
- A nil `*SendRequest`, a nil template, or a nil `*Email` in a recipient list: in Go these panic. The model has no nil requests, templates or mailboxes.
- Templates.ParseTemplatePlainIsIdentity: it says nothing about the rendered HTML values beyond their locales. html/template does not return action-free text unchanged: it strips comments and fails on text that ends inside a tag, attribute or script. So the lemma assumes only that every HTML entry renders. The package's own test checks only the id, subjects and contents.
- Text encoding: Go strings are byte strings, while the model uses sequences of Unicode scalar values. Only valid UTF-8 text is modelled. Invalid byte sequences in addresses, names or template ids are out of scope.
- Templates.Engine: Go's text/template and html/template are abstract. The only assumption is `RendersPlainTextVerbatim`, made of the text engine alone and a hypothesis of the lemma that uses it.
- Common.GetFirstStringInMap: within one call a `Choice` function picks the same key for the same key set, while Go may differ on every range. No lemma relies on that consistency.
- Common.ParseEmail: its contract covers only the error cases. Its successful results are stated by `ParseSingleToken`, `ParseSeveralTokens`, `ParseTrailingSpace` and `ParseFormatRoundTrip`.
- Emailer.SendWithTemplates: the model returns the forwarded requests and the delivery trace. It does not return the caller's slice as changed in place by templating.
- Emailer.SendQueue: when a data client is present, input is non-empty and no vendor is configured, Go calls a method on a nil interface and panics. The precondition excludes that case.
- Emailer.New: `Config.Logger` is not modelled.
- Templates.RenderLocales: Go's error is that of the first failing entry in iteration order. The model names the failing entry through the same `Choice`.

## Findings

| source | as written | input that shows it | evidently intended | confidence | as-written member | corrected member |
|---|---|---|---|---|---|---|
| email.go:96-123 | the loop that forwards requests sits inside `if !templateIDs.IsEmpty()`, so with no templated request nothing is forwarded and `Send` of an empty list reports success (`SendWithTemplatesDropsUntemplatedBatch`) | one request with an empty `TemplateID`, a data client and a vendor: nothing is sent and `nil` is returned | requests without a template are sent as they are, as the loop's else-branch shows (`SendWithTemplatesFixedSendsUntemplated`) | medium; not executed | Emailer.SendWithTemplates | Emailer.SendWithTemplatesFixed |
