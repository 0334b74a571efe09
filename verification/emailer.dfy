/** email.go: the `Emailer`, which fills in sender defaults, renders stored
    templates by locale, and hands each request to the configured vendor.

    The vendor behind the `IEmailer` interface is a `Vendor` function: given
    the number of the call (0 for the first) and the request, it answers with
    the error the vendor returned, or `None`. The template store is a map
    from template id to template; the GraphQL query that reads it is not
    modelled. Go updates each `*SendRequest` in place; those updates are returned
    as the updated request list. */
module Emailer {
  import opened Wrappers
  import opened MailerTypes
  import opened Templates
  import Common

  const ErrVendorRequired: Error := "required emailer vendor"
  const ErrDataClientRequired: Error := "DATA_CLIENT is required"
  const ErrTemplateNotFound: Error := "email template not found: "

  /** `Config`: the email settings, and whether a data client is attached. */
  datatype Config = Config(email: EmailConfig, hasDataClient: bool)

  datatype Emailer = Emailer(
    config: EmailConfig,
    vendor: Option<VendorClient>,
    locale: string,
    hasDataClient: bool)

  type Vendor = (nat, Common.SendRequest) -> Option<Error>

  /** What a batch send leaves behind: the caller's requests as updated in
      place, the requests handed to the vendor in call order, and the error
      returned (`None` for `nil`). */
  datatype SendResult = SendResult(
    requests: seq<SendRequest>,
    delivered: seq<Common.SendRequest>,
    err: Option<Error>)

  /** `New`: no vendor is needed when none is named; a named vendor must be
      one `getIEmail` can build. */
  function New(config: Config): (r: Result<Emailer>)
    ensures config.email.emailVendor == "" ==> r.Ok? && r.value.vendor == None
    ensures config.email.emailVendor != "" ==> (r.Ok? <==> GetIEmail(config.email).Ok?)
    ensures config.email.emailVendor != "" && r.Err? ==> r.error == GetIEmail(config.email).error
    ensures r.Ok? && config.email.emailVendor != "" ==> r.value.vendor == Some(GetIEmail(config.email).value)
    ensures r.Ok? ==> r.value.config == config.email && r.value.locale == config.email.emailLocale
    ensures r.Ok? ==> r.value.hasDataClient == config.hasDataClient
  {
    var vendor :- if config.email.emailVendor == "" then Ok(None)
                  else match GetIEmail(config.email)
                       case Ok(client) => Ok(Some(client))
                       case Err(e) => Err(e);
    Ok(Emailer(config.email, vendor, config.email.emailLocale, config.hasDataClient))
  }

  /** The defaulting step of `Send`: an empty sender address or name is
      replaced by the configured one; nothing else changes. */
  function WithDefaults(config: EmailConfig, input: SendRequest): (r: SendRequest)
    ensures input.from != "" ==> r.from == input.from
    ensures input.from == "" ==> r.from == config.emailFrom
    ensures input.fromName != "" ==> r.fromName == input.fromName
    ensures input.fromName == "" ==> r.fromName == config.emailFromName
    ensures r == input.(from := r.from, fromName := r.fromName)
  {
    var from := if input.from == "" then config.emailFrom else input.from;
    var fromName := if input.fromName == "" then config.emailFromName else input.fromName;
    input.(from := from, fromName := fromName)
  }

  /** Defaulting twice is defaulting once. */
  lemma WithDefaultsIdempotent(config: EmailConfig, input: SendRequest)
    ensures WithDefaults(config, WithDefaults(config, input)) == WithDefaults(config, input)
  {
  }

  /** Applies the sender defaults when `defaults` carries a configuration. */
  function Prepare(defaults: Option<EmailConfig>, input: SendRequest): SendRequest
  {
    if defaults.Some? then WithDefaults(defaults.value, input) else input
  }

  /** The shape of a stop-at-first-error loop over `requests`, whose first
      call is number `offset`: a prefix was prepared and delivered in order,
      the rest is untouched, every call but a failing last one was accepted,
      and the loop stops early only on an error, which is the last call's. */
  ghost predicate DeliveryTrace(requests: seq<SendRequest>, offset: nat, defaults: Option<EmailConfig>,
                                vendor: Vendor, r: SendResult)
  {
    && PreparedPrefix(requests, defaults, r)
    && UntouchedRest(requests, r)
    && AcceptedCalls(offset, vendor, r)
    && StopsOnlyOnError(requests, offset, vendor, r)
  }

  /** The delivered prefix: each request prepared, and its model sent. */
  ghost predicate PreparedPrefix(requests: seq<SendRequest>, defaults: Option<EmailConfig>, r: SendResult)
  {
    && |r.requests| == |requests|
    && |r.delivered| <= |requests|
    && forall k | 0 <= k < |r.delivered| ::
         r.requests[k] == Prepare(defaults, requests[k]) && r.delivered[k] == Model(r.requests[k])
  }

  /** The requests after the delivered prefix are left as they were. */
  ghost predicate UntouchedRest(requests: seq<SendRequest>, r: SendResult)
  {
    && |r.requests| == |requests|
    && forall k | |r.delivered| <= k < |requests| :: r.requests[k] == requests[k]
  }

  /** Every call but a failing last one was accepted. */
  ghost predicate AcceptedCalls(offset: nat, vendor: Vendor, r: SendResult)
  {
    forall k | 0 <= k < |r.delivered| && (r.err.None? || k < |r.delivered| - 1) ::
      vendor(offset + k, r.delivered[k]).None?
  }

  /** The loop ends early only on an error, which is the last call's. */
  ghost predicate StopsOnlyOnError(requests: seq<SendRequest>, offset: nat, vendor: Vendor, r: SendResult)
  {
    && (r.err.None? ==> |r.delivered| == |requests|)
    && (r.err.Some? ==> 0 < |r.delivered| <= |requests|
                        && vendor(offset + |r.delivered| - 1, r.delivered[|r.delivered| - 1]) == r.err)
  }

  /** One accepted call in front of the rest of the loop's result. */
  function Prepended(request: SendRequest, rest: SendResult): (r: SendResult)
    ensures |r.requests| == |rest.requests| + 1 && |r.delivered| == |rest.delivered| + 1
    ensures r.requests[0] == request && r.delivered[0] == Model(request) && r.err == rest.err
    ensures forall k | 0 <= k < |rest.requests| :: r.requests[k + 1] == rest.requests[k]
    ensures forall k | 0 <= k < |rest.delivered| :: r.delivered[k + 1] == rest.delivered[k]
  {
    SendResult([request] + rest.requests, [Model(request)] + rest.delivered, rest.err)
  }

  lemma PreparedPrefixAccepted(requests: seq<SendRequest>, defaults: Option<EmailConfig>, rest: SendResult)
    requires |requests| > 0
    requires PreparedPrefix(requests[1..], defaults, rest)
    ensures PreparedPrefix(requests, defaults, Prepended(Prepare(defaults, requests[0]), rest))
  {
    var r := Prepended(Prepare(defaults, requests[0]), rest);
    forall k | 1 <= k < |r.delivered|
      ensures r.requests[k] == Prepare(defaults, requests[k]) && r.delivered[k] == Model(r.requests[k])
    {
      assert r.requests[k] == rest.requests[k - 1] && requests[k] == requests[1..][k - 1];
      assert r.delivered[k] == rest.delivered[k - 1];
    }
  }

  lemma UntouchedRestAccepted(requests: seq<SendRequest>, request: SendRequest, rest: SendResult)
    requires |requests| > 0
    requires UntouchedRest(requests[1..], rest)
    ensures UntouchedRest(requests, Prepended(request, rest))
  {
    var r := Prepended(request, rest);
    forall k | |r.delivered| <= k < |requests|
      ensures r.requests[k] == requests[k]
    {
      assert r.requests[k] == rest.requests[k - 1] && requests[k] == requests[1..][k - 1];
    }
  }

  lemma AcceptedCallsAccepted(offset: nat, vendor: Vendor, request: SendRequest, rest: SendResult)
    requires vendor(offset, Model(request)).None?
    requires AcceptedCalls(offset + 1, vendor, rest)
    ensures AcceptedCalls(offset, vendor, Prepended(request, rest))
  {
    var r := Prepended(request, rest);
    forall k | 1 <= k < |r.delivered| && (r.err.None? || k < |r.delivered| - 1)
      ensures vendor(offset + k, r.delivered[k]).None?
    {
      assert r.delivered[k] == rest.delivered[k - 1] && offset + k == (offset + 1) + (k - 1);
    }
  }

  lemma StopsOnlyOnErrorAccepted(requests: seq<SendRequest>, offset: nat, vendor: Vendor,
                                 request: SendRequest, rest: SendResult)
    requires |requests| > 0
    requires StopsOnlyOnError(requests[1..], offset + 1, vendor, rest)
    ensures StopsOnlyOnError(requests, offset, vendor, Prepended(request, rest))
  {
    var r := Prepended(request, rest);
    if r.err.Some? {
      assert r.delivered[|r.delivered| - 1] == rest.delivered[|rest.delivered| - 1];
    }
  }

  /** An accepted first call followed by the trace of the remaining calls
      is a trace of the whole loop. */
  lemma DeliveryTraceAccepted(requests: seq<SendRequest>, offset: nat, defaults: Option<EmailConfig>,
                              vendor: Vendor, rest: SendResult)
    requires |requests| > 0
    requires vendor(offset, Model(Prepare(defaults, requests[0]))).None?
    requires DeliveryTrace(requests[1..], offset + 1, defaults, vendor, rest)
    ensures DeliveryTrace(requests, offset, defaults, vendor, Prepended(Prepare(defaults, requests[0]), rest))
  {
    var request := Prepare(defaults, requests[0]);
    PreparedPrefixAccepted(requests, defaults, rest);
    UntouchedRestAccepted(requests, request, rest);
    AcceptedCallsAccepted(offset, vendor, request, rest);
    StopsOnlyOnErrorAccepted(requests, offset, vendor, request, rest);
  }

  /** The loop body shared by `Send` and `SendQueue`: prepare a request,
      hand its model to the vendor, stop on the first error. */
  function DeliverAll(requests: seq<SendRequest>, offset: nat, defaults: Option<EmailConfig>,
                      vendor: Vendor): (r: SendResult)
    ensures DeliveryTrace(requests, offset, defaults, vendor, r)
    decreases |requests|
  {
    if |requests| == 0 then SendResult([], [], None)
    else
      var request := Prepare(defaults, requests[0]);
      var message := Model(request);
      match vendor(offset, message)
      case Some(e) => SendResult([request] + requests[1..], [message], Some(e))
      case None =>
        var rest := DeliverAll(requests[1..], offset + 1, defaults, vendor);
        DeliveryTraceAccepted(requests, offset, defaults, vendor, rest);
        Prepended(request, rest)
  }

  /** `Emailer.Send`: without a vendor nothing is sent; otherwise each
      request gets the sender defaults and goes to the vendor, in order,
      until the first error, which is returned. */
  function Send(em: Emailer, inputs: seq<SendRequest>, vendor: Vendor): (r: SendResult)
    ensures em.vendor.None? ==> r == SendResult(inputs, [], Some(ErrVendorRequired))
    ensures em.vendor.Some? ==> DeliveryTrace(inputs, 0, Some(em.config), vendor, r)
  {
    if em.vendor.None? then SendResult(inputs, [], Some(ErrVendorRequired))
    else DeliverAll(inputs, 0, Some(em.config), vendor)
  }

  /** The call that fails first decides the outcome: exactly the requests
      up to and including it are sent, later ones are neither defaulted nor
      sent, and its error is returned. */
  lemma SendStopsAtFirstError(em: Emailer, inputs: seq<SendRequest>, vendor: Vendor, j: nat)
    requires em.vendor.Some? && j < |inputs|
    requires forall k | 0 <= k < j :: vendor(k, Model(WithDefaults(em.config, inputs[k]))).None?
    requires vendor(j, Model(WithDefaults(em.config, inputs[j]))).Some?
    ensures |Send(em, inputs, vendor).delivered| == j + 1
    ensures Send(em, inputs, vendor).err == vendor(j, Model(WithDefaults(em.config, inputs[j])))
    ensures forall k | j < k < |inputs| :: Send(em, inputs, vendor).requests[k] == inputs[k]
  {
    var r := Send(em, inputs, vendor);
    assert forall k | 0 <= k < |r.delivered| :: r.delivered[k] == Model(WithDefaults(em.config, inputs[k]));
  }

  /** When the vendor accepts every call, every request is sent, in order. */
  lemma SendAllAccepted(em: Emailer, inputs: seq<SendRequest>, vendor: Vendor)
    requires em.vendor.Some?
    requires forall k | 0 <= k < |inputs| :: vendor(k, Model(WithDefaults(em.config, inputs[k]))).None?
    ensures Send(em, inputs, vendor).err.None?
    ensures |Send(em, inputs, vendor).delivered| == |inputs|
  {
    var r := Send(em, inputs, vendor);
    assert forall k | 0 <= k < |r.delivered| :: r.delivered[k] == Model(WithDefaults(em.config, inputs[k]));
  }

  /** `Emailer.SendQueue`: needs a data client, then sends each request as
      it is, without sender defaults, until the first error. Go calls the
      vendor through a nil interface when none is configured, which panics,
      so callers must not reach that case. */
  function SendQueue(em: Emailer, inputs: seq<SendRequest>, vendor: Vendor): (r: SendResult)
    requires em.hasDataClient && |inputs| > 0 ==> em.vendor.Some?
    ensures !em.hasDataClient ==> r == SendResult(inputs, [], Some(ErrDataClientRequired))
    ensures em.hasDataClient ==> DeliveryTrace(inputs, 0, None, vendor, r)
    ensures em.hasDataClient ==> r.requests == inputs
  {
    if !em.hasDataClient then SendResult(inputs, [], Some(ErrDataClientRequired))
    else
      var r := DeliverAll(inputs, 0, None, vendor);
      assert r.requests == inputs;
      r
  }

  /** `getLocaleContent`: the configured locale's text when a locale is
      configured and present, otherwise the text of whichever locale the map
      range visits first (`""` for no locales). */
  function LocaleContent(em: Emailer, contents: Locales, choose: Common.Choice): (r: string)
    requires Common.ValidChoice(choose)
    ensures em.config.emailLocale != "" && em.locale in contents ==> r == contents[em.locale]
    ensures contents == map[] ==> r == ""
    ensures contents != map[] ==> r in contents.Values
  {
    if em.config.emailLocale == "" then Common.GetFirstStringInMap(contents, choose)
    else if em.locale in contents then contents[em.locale]
    else Common.GetFirstStringInMap(contents, choose)
  }

  /** The ids the first loop of `SendWithTemplates` collects. */
  function TemplateIds(inputs: seq<SendRequest>): (us: UniqueStrings)
    ensures us.members == set i | 0 <= i < |inputs| && inputs[i].templateId != "" :: inputs[i].templateId
    decreases |inputs|
  {
    if |inputs| == 0 then NoStrings
    else
      var n := |inputs| - 1;
      var earlier := TemplateIds(inputs[..n]);
      assert forall i | 0 <= i < n :: inputs[..n][i] == inputs[i];
      if inputs[n].templateId != "" then Add(earlier, [inputs[n].templateId]) else earlier
  }

  /** `GetTemplateByIDs` against the store: the stored templates among `ids`. */
  function FetchTemplates(store: map<string, EmailTemplate>, ids: seq<string>): (r: map<string, EmailTemplate>)
    ensures forall id :: id in r <==> id in ids && id in store
    ensures forall id | id in r :: r[id] == store[id]
  {
    map id | id in ids && id in store :: store[id]
  }

  /** The second loop's body for one request: a request without a template
      passes through; one whose template is missing fails; otherwise its
      subject and contents are replaced by the rendered, locale-selected texts. */
  function ApplyTemplate<V>(em: Emailer, item: SendRequest, templates: map<string, EmailTemplate>, vars: V,
                            text: Engine<V>, html: Engine<V>, choose: Common.Choice): (r: Result<SendRequest>)
    requires Common.ValidChoice(choose)
    ensures item.templateId == "" ==> r == Ok(item)
    ensures item.templateId != "" && item.templateId !in templates ==>
              r == Err(ErrTemplateNotFound + item.templateId)
    ensures item.templateId != "" && item.templateId in templates ==>
              (r.Ok? <==> RendersCleanly(templates[item.templateId], vars, text, html))
    ensures r.Ok? ==> r.value == item.(subject := r.value.subject,
                                       plainTextContent := r.value.plainTextContent,
                                       htmlContent := r.value.htmlContent)
    ensures r.Ok? && item.templateId != "" && em.config.emailLocale != "" ==>
              var t := templates[item.templateId];
              && (em.locale in Entries(t.subjects) ==>
                    text(TemplateName(t.id, SubjectKind, em.locale), Entries(t.subjects)[em.locale], vars)
                      == Ok(r.value.subject))
              && (em.locale in Entries(t.contents) ==>
                    text(TemplateName(t.id, ContentKind, em.locale), Entries(t.contents)[em.locale], vars)
                      == Ok(r.value.plainTextContent))
              && (em.locale in Entries(t.htmlContents) ==>
                    html(TemplateName(t.id, HtmlKind, em.locale), Entries(t.htmlContents)[em.locale], vars)
                      == Ok(r.value.htmlContent))
    ensures r.Ok? && item.templateId != "" ==>
              var t := templates[item.templateId];
              && (Entries(t.subjects) == map[] ==> r.value.subject == "")
              && (Entries(t.subjects) != map[] ==> exists k | k in Entries(t.subjects) ::
                    text(TemplateName(t.id, SubjectKind, k), Entries(t.subjects)[k], vars) == Ok(r.value.subject))
              && (Entries(t.contents) == map[] ==> r.value.plainTextContent == "")
              && (Entries(t.contents) != map[] ==> exists k | k in Entries(t.contents) ::
                    text(TemplateName(t.id, ContentKind, k), Entries(t.contents)[k], vars) == Ok(r.value.plainTextContent))
              && (Entries(t.htmlContents) == map[] ==> r.value.htmlContent == "")
              && (Entries(t.htmlContents) != map[] ==> exists k | k in Entries(t.htmlContents) ::
                    html(TemplateName(t.id, HtmlKind, k), Entries(t.htmlContents)[k], vars) == Ok(r.value.htmlContent))
  {
    if item.templateId == "" then Ok(item)
    else if item.templateId !in templates then Err(ErrTemplateNotFound + item.templateId)
    else
      var t :- ParseTemplate(templates[item.templateId], vars, text, html, choose);
      Ok(item.(subject := LocaleContent(em, t.subjects.value, choose),
               plainTextContent := LocaleContent(em, t.contents.value, choose),
               htmlContent := LocaleContent(em, t.htmlContents.value, choose)))
  }

  /** The second loop of `SendWithTemplates`: every request transformed in
      order, or the error of the first one that fails. */
  function ApplyTemplates<V>(em: Emailer, items: seq<SendRequest>, templates: map<string, EmailTemplate>, vars: V,
                             text: Engine<V>, html: Engine<V>, choose: Common.Choice): (r: Result<seq<SendRequest>>)
    requires Common.ValidChoice(choose)
    ensures r.Ok? <==> forall k | 0 <= k < |items| :: ApplyTemplate(em, items[k], templates, vars, text, html, choose).Ok?
    ensures r.Ok? ==> |r.value| == |items|
    ensures r.Ok? ==> forall k | 0 <= k < |items| ::
              ApplyTemplate(em, items[k], templates, vars, text, html, choose) == Ok(r.value[k])
    ensures r.Err? ==> exists j | 0 <= j < |items| ::
              && ApplyTemplate(em, items[j], templates, vars, text, html, choose) == Err(r.error)
              && forall k | 0 <= k < j :: ApplyTemplate(em, items[k], templates, vars, text, html, choose).Ok?
    decreases |items|
  {
    if |items| == 0 then Ok([])
    else
      var head :- ApplyTemplate(em, items[0], templates, vars, text, html, choose);
      var tail :- ApplyTemplates(em, items[1..], templates, vars, text, html, choose);
      assert forall k | 1 <= k < |items| :: items[k] == items[1..][k - 1];
      Ok([head] + tail)
  }

  /** The transformation of a list fails with the error of its first
      request that does not transform. */
  lemma ApplyTemplatesFirstFailure<V>(em: Emailer, items: seq<SendRequest>, templates: map<string, EmailTemplate>,
                                      vars: V, text: Engine<V>, html: Engine<V>, choose: Common.Choice, j: nat)
    requires Common.ValidChoice(choose)
    requires j < |items|
    requires forall k | 0 <= k < j :: ApplyTemplate(em, items[k], templates, vars, text, html, choose).Ok?
    requires ApplyTemplate(em, items[j], templates, vars, text, html, choose).Err?
    ensures ApplyTemplates(em, items, templates, vars, text, html, choose)
              == Err(ApplyTemplate(em, items[j], templates, vars, text, html, choose).error)
  {
    var r := ApplyTemplates(em, items, templates, vars, text, html, choose);
    var first :| 0 <= first < |items|
                 && ApplyTemplate(em, items[first], templates, vars, text, html, choose) == Err(r.error)
                 && forall k | 0 <= k < first :: ApplyTemplate(em, items[k], templates, vars, text, html, choose).Ok?;
    assert first == j;
  }

  /** `Emailer.SendWithTemplates`, as written: nothing to do for no
      requests; a data client is required; the distinct non-empty template
      ids are looked up; and only when there is at least one are the
      requests transformed and sent. */
  function SendWithTemplates<V>(em: Emailer, inputs: seq<SendRequest>, vars: V, store: map<string, EmailTemplate>,
                                text: Engine<V>, html: Engine<V>, choose: Common.Choice, vendor: Vendor): (r: SendResult)
    requires Common.ValidChoice(choose)
    ensures |inputs| == 0 ==> r == SendResult([], [], None)
    ensures |inputs| > 0 && !em.hasDataClient ==> r == SendResult([], [], Some(ErrDataClientRequired))
  {
    if |inputs| == 0 then SendResult([], [], None)
    else if !em.hasDataClient then SendResult([], [], Some(ErrDataClientRequired))
    else
      var ids := TemplateIds(inputs);
      if IsEmpty(ids) then Send(em, [], vendor)
      else
        var templates := FetchTemplates(store, Value(ids, choose));
        match ApplyTemplates(em, inputs, templates, vars, text, html, choose)
        case Err(e) => SendResult([], [], Some(e))
        case Ok(forwarded) => Send(em, forwarded, vendor)
  }

  /** The template lookup sees exactly the store's templates for the
      requests' distinct non-empty template ids. */
  lemma FetchedTemplatesMatchRequests(inputs: seq<SendRequest>, store: map<string, EmailTemplate>,
                                      choose: Common.Choice, id: string)
    requires Common.ValidChoice(choose)
    ensures id in FetchTemplates(store, Value(TemplateIds(inputs), choose)) <==>
              id in store && exists i | 0 <= i < |inputs| :: inputs[i].templateId == id && id != ""
  {
    ValueEnumerates(TemplateIds(inputs), choose, id);
  }

  /** A request naming a template the store lacks fails the whole batch
      before anything is sent. */
  lemma SendWithTemplatesMissingTemplate<V>(em: Emailer, inputs: seq<SendRequest>, vars: V,
                                            store: map<string, EmailTemplate>, text: Engine<V>, html: Engine<V>,
                                            choose: Common.Choice, vendor: Vendor, j: nat)
    requires Common.ValidChoice(choose)
    requires j < |inputs| && inputs[j].templateId != "" && inputs[j].templateId !in store
    ensures SendWithTemplates(em, inputs, vars, store, text, html, choose, vendor).err.Some?
    ensures SendWithTemplates(em, inputs, vars, store, text, html, choose, vendor).delivered == []
  {
    if em.hasDataClient {
      var ids := TemplateIds(inputs);
      assert inputs[j].templateId in ids.members;
      var templates := FetchTemplates(store, Value(ids, choose));
      assert ApplyTemplate(em, inputs[j], templates, vars, text, html, choose).Err?;
    }
  }

  /** The batch fails with the error of its first request that does not
      transform, and nothing is sent. */
  lemma SendWithTemplatesFailsAtFirstError<V>(em: Emailer, inputs: seq<SendRequest>, vars: V,
                                              store: map<string, EmailTemplate>, text: Engine<V>, html: Engine<V>,
                                              choose: Common.Choice, vendor: Vendor, j: nat)
    requires Common.ValidChoice(choose)
    requires em.hasDataClient && j < |inputs|
    requires forall k | 0 <= k < j ::
               ApplyTemplate(em, inputs[k], FetchTemplates(store, Value(TemplateIds(inputs), choose)),
                             vars, text, html, choose).Ok?
    requires ApplyTemplate(em, inputs[j], FetchTemplates(store, Value(TemplateIds(inputs), choose)),
                           vars, text, html, choose).Err?
    ensures SendWithTemplates(em, inputs, vars, store, text, html, choose, vendor)
              == SendResult([], [], Some(ApplyTemplate(em, inputs[j], FetchTemplates(store, Value(TemplateIds(inputs), choose)),
                                                       vars, text, html, choose).error))
  {
    var ids := TemplateIds(inputs);
    assert inputs[j].templateId in ids.members;
    ApplyTemplatesFirstFailure(em, inputs, FetchTemplates(store, Value(ids, choose)), vars, text, html, choose, j);
  }

  /** A request naming a template the store lacks, after requests that all
      transform, fails the batch with "email template not found: <id>". */
  lemma SendWithTemplatesTemplateNotFound<V>(em: Emailer, inputs: seq<SendRequest>, vars: V,
                                             store: map<string, EmailTemplate>, text: Engine<V>, html: Engine<V>,
                                             choose: Common.Choice, vendor: Vendor, j: nat)
    requires Common.ValidChoice(choose)
    requires em.hasDataClient && j < |inputs|
    requires inputs[j].templateId != "" && inputs[j].templateId !in store
    requires forall k | 0 <= k < j ::
               ApplyTemplate(em, inputs[k], FetchTemplates(store, Value(TemplateIds(inputs), choose)),
                             vars, text, html, choose).Ok?
    ensures SendWithTemplates(em, inputs, vars, store, text, html, choose, vendor)
              == SendResult([], [], Some(ErrTemplateNotFound + inputs[j].templateId))
  {
    SendWithTemplatesFailsAtFirstError(em, inputs, vars, store, text, html, choose, vendor, j);
  }

  /** A found template that does not render, after requests that all
      transform, fails the batch with the render error; nothing is sent. */
  lemma SendWithTemplatesRenderFailure<V>(em: Emailer, inputs: seq<SendRequest>, vars: V,
                                          store: map<string, EmailTemplate>, text: Engine<V>, html: Engine<V>,
                                          choose: Common.Choice, vendor: Vendor, j: nat)
    requires Common.ValidChoice(choose)
    requires em.hasDataClient && j < |inputs|
    requires inputs[j].templateId != "" && inputs[j].templateId in store
    requires !RendersCleanly(store[inputs[j].templateId], vars, text, html)
    requires forall k | 0 <= k < j ::
               ApplyTemplate(em, inputs[k], FetchTemplates(store, Value(TemplateIds(inputs), choose)),
                             vars, text, html, choose).Ok?
    ensures SendWithTemplates(em, inputs, vars, store, text, html, choose, vendor)
              == SendResult([], [], Some(ParseTemplate(store[inputs[j].templateId], vars, text, html, choose).error))
  {
    var id := inputs[j].templateId;
    assert id in TemplateIds(inputs).members;
    ValueEnumerates(TemplateIds(inputs), choose, id);
    SendWithTemplatesFailsAtFirstError(em, inputs, vars, store, text, html, choose, vendor, j);
  }

  /** When at least one request names a template and every request
      transforms cleanly, the transformed requests are sent in their
      original order: untemplated ones unchanged, templated ones with only
      subject and contents replaced. */
  lemma SendWithTemplatesForwardsInOrder<V>(em: Emailer, inputs: seq<SendRequest>, vars: V,
                                            store: map<string, EmailTemplate>, text: Engine<V>, html: Engine<V>,
                                            choose: Common.Choice, vendor: Vendor, j: nat)
    requires Common.ValidChoice(choose)
    requires em.hasDataClient
    requires j < |inputs| && inputs[j].templateId != ""
    requires ApplyTemplates(em, inputs, FetchTemplates(store, Value(TemplateIds(inputs), choose)),
                            vars, text, html, choose).Ok?
    ensures var forwarded := ApplyTemplates(em, inputs, FetchTemplates(store, Value(TemplateIds(inputs), choose)),
                                            vars, text, html, choose).value;
            && SendWithTemplates(em, inputs, vars, store, text, html, choose, vendor) == Send(em, forwarded, vendor)
            && |forwarded| == |inputs|
            && (forall k | 0 <= k < |inputs| && inputs[k].templateId == "" :: forwarded[k] == inputs[k])
            && (forall k | 0 <= k < |inputs| ::
                  forwarded[k] == inputs[k].(subject := forwarded[k].subject,
                                             plainTextContent := forwarded[k].plainTextContent,
                                             htmlContent := forwarded[k].htmlContent))
  {
    assert inputs[j].templateId in TemplateIds(inputs).members;
  }

  /** As written, a batch in which no request names a template is not
      sent at all: the second loop sits inside the check for template ids. */
  lemma SendWithTemplatesDropsUntemplatedBatch<V>(em: Emailer, inputs: seq<SendRequest>, vars: V,
                                                  store: map<string, EmailTemplate>, text: Engine<V>, html: Engine<V>,
                                                  choose: Common.Choice, vendor: Vendor)
    requires Common.ValidChoice(choose)
    requires em.hasDataClient && em.vendor.Some? && |inputs| > 0
    requires forall k | 0 <= k < |inputs| :: inputs[k].templateId == ""
    ensures SendWithTemplates(em, inputs, vars, store, text, html, choose, vendor) == SendResult([], [], None)
  {
    assert TemplateIds(inputs).members == {};
  }

  /** `SendWithTemplates` as evidently intended: the lookup is skipped when
      no request names a template, but every request still goes through the
      second loop, so untemplated requests are sent as they are. */
  function SendWithTemplatesFixed<V>(em: Emailer, inputs: seq<SendRequest>, vars: V, store: map<string, EmailTemplate>,
                                     text: Engine<V>, html: Engine<V>, choose: Common.Choice, vendor: Vendor): (r: SendResult)
    requires Common.ValidChoice(choose)
    ensures |inputs| == 0 ==> r == SendResult([], [], None)
    ensures |inputs| > 0 && !em.hasDataClient ==> r == SendResult([], [], Some(ErrDataClientRequired))
  {
    if |inputs| == 0 then SendResult([], [], None)
    else if !em.hasDataClient then SendResult([], [], Some(ErrDataClientRequired))
    else
      var ids := TemplateIds(inputs);
      var templates := if IsEmpty(ids) then map[] else FetchTemplates(store, Value(ids, choose));
      match ApplyTemplates(em, inputs, templates, vars, text, html, choose)
      case Err(e) => SendResult([], [], Some(e))
      case Ok(forwarded) => Send(em, forwarded, vendor)
  }

  /** The corrected pipeline sends an untemplated batch exactly as `Send` would. */
  lemma SendWithTemplatesFixedSendsUntemplated<V>(em: Emailer, inputs: seq<SendRequest>, vars: V,
                                                  store: map<string, EmailTemplate>, text: Engine<V>, html: Engine<V>,
                                                  choose: Common.Choice, vendor: Vendor)
    requires Common.ValidChoice(choose)
    requires em.hasDataClient && |inputs| > 0
    requires forall k | 0 <= k < |inputs| :: inputs[k].templateId == ""
    ensures SendWithTemplatesFixed(em, inputs, vars, store, text, html, choose, vendor) == Send(em, inputs, vendor)
  {
    var r := ApplyTemplates(em, inputs, map[], vars, text, html, choose);
    assert r.Ok?;
    assert r.value == inputs;
  }

  /** The correction changes nothing for batches that name a template. */
  lemma SendWithTemplatesFixedAgrees<V>(em: Emailer, inputs: seq<SendRequest>, vars: V,
                                        store: map<string, EmailTemplate>, text: Engine<V>, html: Engine<V>,
                                        choose: Common.Choice, vendor: Vendor, j: nat)
    requires Common.ValidChoice(choose)
    requires j < |inputs| && inputs[j].templateId != ""
    ensures SendWithTemplatesFixed(em, inputs, vars, store, text, html, choose, vendor)
              == SendWithTemplates(em, inputs, vars, store, text, html, choose, vendor)
  {
    assert inputs[j].templateId in TemplateIds(inputs).members;
  }
}
