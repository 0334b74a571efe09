/** The `email` package's types (type.go) and constructors (util.go):
    the package's own request type, configuration and vendor selection,
    stored templates, and the `uniqueStrings` set. */
module MailerTypes {
  import opened Wrappers
  import opened Strings
  import Common

  const VendorSendGrid: string := "sendgrid"
  const ErrSendGridKeyRequired: Error := "SendGrid API Key is required"

  /** The package's own request type, field for field the same as
      `Common.SendRequest`. */
  datatype SendRequest = SendRequest(
    templateId: string,
    from: string,
    fromName: string,
    to: seq<Common.Email>,
    cc: seq<Common.Email>,
    bcc: seq<Common.Email>,
    subject: string,
    plainTextContent: string,
    htmlContent: string)

  /** `SendRequest.Model`: the same request as the vendor-neutral type. */
  function Model(sr: SendRequest): (r: Common.SendRequest)
    ensures r.templateId == sr.templateId && r.from == sr.from && r.fromName == sr.fromName
    ensures r.to == sr.to && r.cc == sr.cc && r.bcc == sr.bcc
    ensures r.subject == sr.subject
    ensures r.plainTextContent == sr.plainTextContent && r.htmlContent == sr.htmlContent
  {
    Common.SendRequest(sr.templateId, sr.from, sr.fromName, sr.to, sr.cc, sr.bcc,
                       sr.subject, sr.plainTextContent, sr.htmlContent)
  }

  /** Go's conversion `SendRequest(x)` in the other direction. */
  function FromModel(m: Common.SendRequest): SendRequest
  {
    SendRequest(m.templateId, m.from, m.fromName, m.to, m.cc, m.bcc,
                m.subject, m.plainTextContent, m.htmlContent)
  }

  /** `Model` loses nothing: the two conversions are inverse. */
  lemma ModelRoundTrip(sr: SendRequest, m: Common.SendRequest)
    ensures FromModel(Model(sr)) == sr
    ensures Model(FromModel(m)) == m
  {
  }

  /** Requests that convert alike were alike. */
  lemma ModelInjective(a: SendRequest, b: SendRequest)
    requires Model(a) == Model(b)
    ensures a == b
  {
    ModelRoundTrip(a, Model(a));
    ModelRoundTrip(b, Model(b));
  }

  /** The environment-driven part of the configuration. */
  datatype EmailConfig = EmailConfig(
    emailVendor: string,
    emailFrom: string,
    emailFromName: string,
    sendGridApiKey: string,
    emailLocale: string)

  /** The only vendor `getIEmail` can build: a SendGrid client for a key. */
  datatype VendorClient = SendGridClient(apiKey: string)

  /** `Config.getIEmail`: picks the vendor client the configuration names. */
  function GetIEmail(c: EmailConfig): (r: Result<VendorClient>)
    ensures r.Ok? <==> c.emailVendor == VendorSendGrid && c.sendGridApiKey != ""
    ensures r.Ok? ==> r.value == SendGridClient(c.sendGridApiKey)
    ensures c.emailVendor == VendorSendGrid && c.sendGridApiKey == "" ==>
              r == Err(ErrSendGridKeyRequired)
    ensures c.emailVendor != VendorSendGrid ==> r == Err("invalid vendor " + c.emailVendor)
  {
    if c.emailVendor == VendorSendGrid then
      if c.sendGridApiKey == "" then Err(ErrSendGridKeyRequired)
      else Ok(SendGridClient(c.sendGridApiKey))
    else Err("invalid vendor " + c.emailVendor)
  }

  /** Per-locale strings; Go's `nil` map is `None`. */
  type Locales = map<string, string>

  /** `EmailTemplate`: subjects, plain contents and HTML contents by locale. */
  datatype EmailTemplate = EmailTemplate(
    id: string,
    subjects: Option<Locales>,
    contents: Option<Locales>,
    htmlContents: Option<Locales>)

  /** What ranging over a possibly-nil map visits: nothing for `nil`. */
  function Entries(m: Option<Locales>): Locales
  {
    if m.Some? then m.value else map[]
  }

  /** `uniqueStrings`: a `map[string]bool` used as a set; only its keys matter. */
  datatype UniqueStrings = UniqueStrings(members: set<string>)

  const NoStrings := UniqueStrings({})

  /** One step of `Add`: a value already present changes nothing. */
  function AddOne(us: UniqueStrings, v: string): UniqueStrings
  {
    if v in us.members then us else UniqueStrings(us.members + {v})
  }

  /** `uniqueStrings.Add`: afterwards every value is a member, the earlier
      members are still there, and nothing else was added. */
  function Add(us: UniqueStrings, values: seq<string>): (r: UniqueStrings)
    ensures r.members == us.members + (set v | v in values)
    decreases |values|
  {
    if |values| == 0 then us
    else
      var r := Add(AddOne(us, values[0]), values[1..]);
      assert values == [values[0]] + values[1..];
      r
  }

  /** Adding values that are all present already leaves the set as it was. */
  lemma AddIdempotent(us: UniqueStrings, values: seq<string>)
    requires forall v | v in values :: v in us.members
    ensures Add(us, values) == us
  {
  }

  /** `uniqueStrings.IsEmpty`. */
  function IsEmpty(us: UniqueStrings): (r: bool)
    ensures r <==> forall v :: v !in us.members
  {
    |us.members| == 0
  }

  /** `uniqueStrings.Value`: the members in the order the map is ranged
      over, each exactly once. */
  function Value(us: UniqueStrings, choose: Common.Choice): (r: seq<string>)
    requires Common.ValidChoice(choose)
    ensures multiset(r) == multiset(us.members)
    ensures |r| == |us.members|
    decreases |us.members|
  {
    if us.members == {} then []
    else
      var k := choose(us.members);
      var rest := Value(UniqueStrings(us.members - {k}), choose);
      assert us.members == (us.members - {k}) + {k};
      assert multiset(us.members) == multiset(us.members - {k}) + multiset{k};
      [k] + rest
  }

  /** Each member appears in `Value` once and nothing else does. */
  lemma ValueEnumerates(us: UniqueStrings, choose: Common.Choice, v: string)
    requires Common.ValidChoice(choose)
    ensures v in Value(us, choose) <==> v in us.members
    ensures multiset(Value(us, choose))[v] <= 1
  {
    var r := Value(us, choose);
    assert v in r <==> v in multiset(r);
  }

  /** `uniqueStrings.String`: the sorted members joined by commas. */
  function ToString(us: UniqueStrings, choose: Common.Choice): string
    requires Common.ValidChoice(choose)
  {
    Join(Sort(Value(us, choose)), ",")
  }

  /** `String` is the one sorted listing of the members, whatever order the
      map was ranged over and whatever order the members were added in. */
  lemma ToStringCanonical(us: UniqueStrings, choose: Common.Choice, listing: seq<string>)
    requires Common.ValidChoice(choose)
    requires Sorted(listing) && multiset(listing) == multiset(us.members)
    ensures ToString(us, choose) == Join(listing, ",")
  {
    SortedUnique(Sort(Value(us, choose)), listing);
  }

  /** Two iteration orders give the same `String`. */
  lemma ToStringIgnoresOrder(us: UniqueStrings, c1: Common.Choice, c2: Common.Choice)
    requires Common.ValidChoice(c1) && Common.ValidChoice(c2)
    ensures ToString(us, c1) == ToString(us, c2)
  {
    SortIsCanonical(Value(us, c1), Value(us, c2));
  }

  /** Adding the same values in any order, with any repeats, gives the same `String`. */
  lemma ToStringIgnoresInsertionOrder(a: seq<string>, b: seq<string>, choose: Common.Choice)
    requires Common.ValidChoice(choose)
    requires forall v :: v in a <==> v in b
    ensures ToString(Add(NoStrings, a), choose) == ToString(Add(NoStrings, b), choose)
  {
    assert Add(NoStrings, a) == Add(NoStrings, b);
  }

  /** `NewEmail`. */
  function NewEmail(address: string, name: string): (e: Common.Email)
    ensures e.address == address && e.name == name
  {
    Common.Email(address, name)
  }

  /** `NewEmails`: a list holding the one mailbox `NewEmail` builds. */
  function NewEmails(address: string, name: string): (r: seq<Common.Email>)
    ensures |r| == 1
    ensures r[0].address == address && r[0].name == name
    ensures r[0] == NewEmail(address, name)
  {
    [Common.Email(address, name)]
  }
}
