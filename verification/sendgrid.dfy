/** sendgrid/sendgrid.go: translating a request into a SendGrid v3 mail and
    reading SendGrid's answer.

    The request body is built with one personalization. Every To mailbox is
    kept; a CC or BCC mailbox is dropped when its address is already among
    the addresses collected so far (To, then the kept CCs, then the kept
    BCCs). The HTTP client is a `Client` function from the built mail to the
    HTTP response or the transport error. */
module SendGrid {
  import opened Wrappers
  import Common

  /** `mail.Email`: a name and an address. */
  datatype Address = Address(name: string, address: string)

  /** `mail.Content`: a MIME type and the body in it. */
  datatype Content = Content(mediaType: string, value: string)

  datatype Personalization = Personalization(to: seq<Address>, cc: seq<Address>, bcc: seq<Address>)

  /** `mail.SGMailV3`, restricted to the fields the adapter sets. */
  datatype Mail = Mail(subject: string, contents: seq<Content>, from: Address,
                       personalizations: seq<Personalization>)

  datatype Response = Response(statusCode: int, body: string)

  type Client = Mail -> Result<Response>

  const PlainType: string := "text/plain"
  const HtmlType: string := "text/html"

  function ToAddress(e: Common.Email): Address
  {
    Address(e.name, e.address)
  }

  function ToAddresses(list: seq<Common.Email>): (r: seq<Address>)
    ensures |r| == |list|
    ensures forall i | 0 <= i < |list| :: r[i] == ToAddress(list[i])
  {
    seq(|list|, i requires 0 <= i < |list| => ToAddress(list[i]))
  }

  function AddressSet(list: seq<Common.Email>): set<string>
  {
    set i | 0 <= i < |list| :: list[i].address
  }

  /** The mailboxes a dedup loop kept and the address list it grew. */
  datatype Kept = Kept(entries: seq<Common.Email>, seen: seq<string>)

  /** One of the CC/BCC loops: keeps each mailbox whose address is not yet
      in `seen`, and appends its address to `seen`. */
  function KeepUnseen(list: seq<Common.Email>, seen: seq<string>): (r: Kept)
    ensures r.seen == seen + Common.Addresses(r.entries)
    ensures AddressSet(r.entries) + (set a | a in seen) == AddressSet(list) + (set a | a in seen)
    ensures forall i | 0 <= i < |r.entries| :: r.entries[i].address !in seen
    ensures forall i, j | 0 <= i < j < |r.entries| :: r.entries[i].address != r.entries[j].address
    decreases |list|
  {
    if |list| == 0 then Kept([], seen)
    else if Common.HasString(seen, list[0].address) then
      var r := KeepUnseen(list[1..], seen);
      assert AddressSet(list) == AddressSet(list[1..]) + {list[0].address} by {
        assert forall i | 1 <= i < |list| :: list[i] == list[1..][i - 1];
      }
      r
    else
      var rest := KeepUnseen(list[1..], seen + [list[0].address]);
      var r := Kept([list[0]] + rest.entries, rest.seen);
      assert AddressSet(list) == AddressSet(list[1..]) + {list[0].address} by {
        assert forall i | 1 <= i < |list| :: list[i] == list[1..][i - 1];
      }
      assert AddressSet(r.entries) == AddressSet(rest.entries) + {list[0].address} by {
        assert r.entries[0] == list[0];
        assert forall i | 1 <= i < |r.entries| :: r.entries[i] == rest.entries[i - 1];
        forall a | a in AddressSet(rest.entries) ensures a in AddressSet(r.entries) {
          var i :| 0 <= i < |rest.entries| && rest.entries[i].address == a;
          assert r.entries[i + 1].address == a;
        }
      }
      assert Common.Addresses(r.entries) == [list[0].address] + Common.Addresses(rest.entries);
      r
  }

  /** Whether `list[i]` is the first mailbox in `list` with its address and
      that address is not in `seen`. */
  predicate FirstUnseen(list: seq<Common.Email>, seen: seq<string>, i: nat)
    requires i < |list|
  {
    list[i].address !in seen && forall j | 0 <= j < i :: list[j].address != list[i].address
  }

  /** Reference definition of the dedup: the mailboxes that are the first
      with their address and whose address is not in `seen`, in list order. */
  function FirstUnseenEntries(list: seq<Common.Email>, seen: seq<string>): seq<Common.Email>
    decreases |list|
  {
    if |list| == 0 then []
    else
      var n := |list| - 1;
      FirstUnseenEntries(list[..n], seen) + (if FirstUnseen(list, seen, n) then [list[n]] else [])
  }

  /** The Go loop seen from its last step: the last mailbox is kept exactly
      when its address is not among those collected before it. */
  lemma {:induction false} KeepUnseenSnoc(list: seq<Common.Email>, x: Common.Email, seen: seq<string>)
    ensures var k := KeepUnseen(list, seen);
            KeepUnseen(list + [x], seen).entries
              == k.entries + (if x.address in k.seen then [] else [x])
    decreases |list|
  {
    var l := list + [x];
    if |list| == 0 {
      assert l == [x];
      assert l[1..] == [];
    } else {
      assert l[0] == list[0];
      assert l[1..] == list[1..] + [x];
      if Common.HasString(seen, list[0].address) {
        KeepUnseenSnoc(list[1..], x, seen);
      } else {
        KeepUnseenSnoc(list[1..], x, seen + [list[0].address]);
      }
    }
  }

  /** The Go loop keeps exactly the reference entries. */
  lemma {:induction false} KeepUnseenIsFirstUnseen(list: seq<Common.Email>, seen: seq<string>)
    ensures KeepUnseen(list, seen).entries == FirstUnseenEntries(list, seen)
    decreases |list|
  {
    if |list| > 0 {
      var n := |list| - 1;
      var prefix := list[..n];
      var x := list[n];
      assert list == prefix + [x];
      KeepUnseenIsFirstUnseen(prefix, seen);
      KeepUnseenSnoc(prefix, x, seen);
      var k := KeepUnseen(prefix, seen);
      assert x.address in k.seen <==> x.address in seen || x.address in AddressSet(k.entries);
      assert x.address in AddressSet(prefix) <==> exists j | 0 <= j < n :: list[j].address == x.address by {
        assert forall j | 0 <= j < n :: prefix[j] == list[j];
      }
    }
  }

  /** The dedup rule as stated for the CC and BCC loops: a mailbox is kept
      exactly when its address is neither in `seen` nor the address of a
      mailbox kept before it. */
  lemma KeptIffUnseen(list: seq<Common.Email>, seen: seq<string>, i: nat)
    requires i < |list|
    ensures var before := KeepUnseen(list[..i], seen).entries;
            FirstUnseen(list, seen, i) <==> list[i].address !in seen && list[i].address !in AddressSet(before)
  {
    var before := KeepUnseen(list[..i], seen);
    assert forall j | 0 <= j < i :: list[..i][j] == list[j];
    assert list[i].address in AddressSet(list[..i]) <==> exists j | 0 <= j < i :: list[j].address == list[i].address;
  }

  /** The body contents: plain text first, then HTML, each only when non-empty. */
  function Contents(plain: string, html: string): seq<Content>
  {
    (if plain != "" then [Content(PlainType, plain)] else [])
      + (if html != "" then [Content(HtmlType, html)] else [])
  }

  /** `buildEmailRequest`. */
  function BuildEmailRequest(input: Common.SendRequest): (m: Mail)
    ensures m.subject == input.subject
    ensures m.from == Address(input.fromName, input.from)
    ensures |m.personalizations| == 1
    ensures m.personalizations[0].to == ToAddresses(input.to)
    ensures m.personalizations[0].cc == ToAddresses(FirstUnseenEntries(input.cc, Common.Addresses(input.to)))
    ensures m.personalizations[0].bcc
              == ToAddresses(FirstUnseenEntries(input.bcc, Common.Addresses(input.to)
                                                  + Common.Addresses(FirstUnseenEntries(input.cc, Common.Addresses(input.to)))))
  {
    var toAddresses := Common.Addresses(input.to);
    var cc := KeepUnseen(input.cc, toAddresses);
    var bcc := KeepUnseen(input.bcc, cc.seen);
    KeepUnseenIsFirstUnseen(input.cc, toAddresses);
    KeepUnseenIsFirstUnseen(input.bcc, cc.seen);
    var p := Personalization(ToAddresses(input.to), ToAddresses(cc.entries), ToAddresses(bcc.entries));
    Mail(input.subject, Contents(input.plainTextContent, input.htmlContent),
         Address(input.fromName, input.from), [p])
  }

  /** A plain part exists iff there is plain text, an HTML part iff there
      is HTML, and plain comes first. */
  lemma BuildContents(input: Common.SendRequest)
    ensures var c := BuildEmailRequest(input).contents;
            && (Content(PlainType, input.plainTextContent) in c <==> input.plainTextContent != "")
            && (Content(HtmlType, input.htmlContent) in c <==> input.htmlContent != "")
            && |c| == (if input.plainTextContent != "" then 1 else 0) + (if input.htmlContent != "" then 1 else 0)
            && (input.plainTextContent != "" ==> c[0] == Content(PlainType, input.plainTextContent))
  {
  }

  /** No address reaches SendGrid twice through CC or BCC: kept CC and BCC
      addresses are distinct, none repeats a To address, and no BCC repeats
      a CC. */
  lemma BuildNoDuplicateCopies(input: Common.SendRequest)
    ensures var p := BuildEmailRequest(input).personalizations[0];
            && (forall i, j | 0 <= i < |p.cc| && 0 <= j < |p.to| :: p.cc[i].address != p.to[j].address)
            && (forall i, j | 0 <= i < |p.bcc| && 0 <= j < |p.to| :: p.bcc[i].address != p.to[j].address)
            && (forall i, j | 0 <= i < |p.bcc| && 0 <= j < |p.cc| :: p.bcc[i].address != p.cc[j].address)
            && (forall i, j | 0 <= i < j < |p.cc| :: p.cc[i].address != p.cc[j].address)
            && (forall i, j | 0 <= i < j < |p.bcc| :: p.bcc[i].address != p.bcc[j].address)
  {
    var toAddresses := Common.Addresses(input.to);
    var cc := KeepUnseen(input.cc, toAddresses);
    var bcc := KeepUnseen(input.bcc, cc.seen);
    KeepUnseenIsFirstUnseen(input.cc, toAddresses);
    KeepUnseenIsFirstUnseen(input.bcc, cc.seen);
    assert forall j | 0 <= j < |input.to| :: input.to[j].address in toAddresses;
    assert forall j | 0 <= j < |cc.entries| :: cc.entries[j].address in cc.seen;
    assert forall j | 0 <= j < |input.to| :: input.to[j].address in cc.seen;
  }

  /** No recipient is lost: every CC or BCC address reaches SendGrid in
      some list of the personalization. */
  lemma BuildKeepsEveryAddress(input: Common.SendRequest, a: string)
    requires a in AddressSet(input.cc) || a in AddressSet(input.bcc)
    ensures var p := BuildEmailRequest(input).personalizations[0];
            (exists i | 0 <= i < |p.to| :: p.to[i].address == a)
            || (exists i | 0 <= i < |p.cc| :: p.cc[i].address == a)
            || (exists i | 0 <= i < |p.bcc| :: p.bcc[i].address == a)
  {
    var toAddresses := Common.Addresses(input.to);
    var cc := KeepUnseen(input.cc, toAddresses);
    var bcc := KeepUnseen(input.bcc, cc.seen);
    KeepUnseenIsFirstUnseen(input.cc, toAddresses);
    KeepUnseenIsFirstUnseen(input.bcc, cc.seen);
    var p := BuildEmailRequest(input).personalizations[0];
    assert a in AddressSet(input.to) ==> exists i | 0 <= i < |p.to| :: p.to[i].address == a;
    assert a in AddressSet(cc.entries) ==> exists i | 0 <= i < |p.cc| :: p.cc[i].address == a;
    assert a in AddressSet(bcc.entries) ==> exists i | 0 <= i < |p.bcc| :: p.bcc[i].address == a;
    assert a in toAddresses ==> a in AddressSet(input.to);
    assert a in cc.seen ==> a in toAddresses || a in AddressSet(cc.entries);
  }

  /** The package's test case: one address as To, CC and BCC reaches
      SendGrid once, as To. */
  lemma BuildSameAddressEverywhere(input: Common.SendRequest)
    requires |input.to| == 1 && |input.cc| == 1 && |input.bcc| == 1
    requires input.cc[0].address == input.to[0].address == input.bcc[0].address
    ensures BuildEmailRequest(input).personalizations[0]
              == Personalization([Address(input.to[0].name, input.to[0].address)], [], [])
  {
    var toAddresses := Common.Addresses(input.to);
    assert FirstUnseenEntries(input.cc, toAddresses) == [] by {
      assert input.cc[..0] == [];
    }
    assert FirstUnseenEntries(input.bcc, toAddresses) == [] by {
      assert input.bcc[..0] == [];
    }
    assert toAddresses + Common.Addresses([]) == toAddresses;
  }

  /** `SendGrid.Send`: a transport error as it is, an error carrying the
      response body for a status above 299, success otherwise. */
  function Send(input: Common.SendRequest, client: Client): (r: Outcome)
    ensures client(BuildEmailRequest(input)).Err? ==> r == Fail(client(BuildEmailRequest(input)).error)
    ensures client(BuildEmailRequest(input)).Ok? ==>
              var response := client(BuildEmailRequest(input)).value;
              (r == Pass <==> response.statusCode <= 299)
              && (r.Fail? ==> r.error == response.body)
  {
    match client(BuildEmailRequest(input))
    case Err(e) => Fail(e)
    case Ok(response) => if response.statusCode > 299 then Fail(response.body) else Pass
  }
}
