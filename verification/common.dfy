/** Package `common`: the vendor-neutral request and address types, the
    free-text address parser, and two small collection helpers. */
module Common {
  import opened Wrappers
  import opened Strings

  /** A mailbox: an address and an optional display name (`""` for none). */
  datatype Email = Email(address: string, name: string)

  /** The vendor-neutral send request every adapter translates. */
  datatype SendRequest = SendRequest(
    templateId: string,
    from: string,
    fromName: string,
    to: seq<Email>,
    cc: seq<Email>,
    bcc: seq<Email>,
    subject: string,
    plainTextContent: string,
    htmlContent: string)

  /** The bare addresses of a mailbox list, in order. */
  function Addresses(list: seq<Email>): (r: seq<string>)
    ensures |r| == |list|
    ensures forall i | 0 <= i < |list| :: r[i] == list[i].address
  {
    seq(|list|, i requires 0 <= i < |list| => list[i].address)
  }

  /** The display strings (`Email.String()`, passed in as `show`) of a list. */
  function Shown(list: seq<Email>, show: Email -> string): (r: seq<string>)
    ensures |r| == |list|
    ensures forall i | 0 <= i < |list| :: r[i] == show(list[i])
  {
    seq(|list|, i requires 0 <= i < |list| => show(list[i]))
  }

  const ErrEmailInputEmpty: Error := "email input is empty"

  /** Go ranges over a map in an order the runtime picks afresh. The model
      receives that pick as a choice function: given the keys still to be
      visited it names the one visited first. Every property is proved for
      every valid choice function. */
  type Choice = set<string> -> string

  ghost predicate ValidChoice(choose: Choice)
  {
    forall keys: set<string> | keys != {} :: choose(keys) in keys
  }

  /** `fmt.Sprintf("%s <%s>", name, address)`, the display form the SMTP
      and Mailgun adapters build for the sender. */
  function FormatAddress(name: string, address: string): string
  {
    name + " <" + address + ">"
  }

  /** Removes one leading `<` and then one trailing `>`, when present. */
  function TrimAngles(address: string): (r: string)
    ensures var lead := if IsPrefix("<", address) then 1 else 0;
      && lead + |r| <= |address| <= lead + |r| + 1
      && r == address[lead..lead + |r|]
      && (lead + |r| < |address| <==> |address| > lead && address[|address| - 1] == '>')
  {
    var inner := TrimPrefix(address, "<");
    var i := |address| - |inner|;
    assert inner == address[i..];
    TrimSuffix(inner, ">")
  }

  /** A bracketed address loses exactly its two brackets. */
  lemma TrimAnglesBracketed(a: string)
    ensures TrimAngles("<" + a + ">") == a
  {
    var s := "<" + a + ">";
    assert IsPrefix("<", s);
    assert TrimPrefix(s, "<") == a + ">";
    assert IsSuffix(">", a + ">");
  }

  /** An address without brackets at its ends is left alone. */
  lemma TrimAnglesPlain(a: string)
    requires a == "" || (a[0] != '<' && a[|a| - 1] != '>')
    ensures TrimAngles(a) == a
  {
  }

  /** `ParseEmail`: splits on single spaces; the last piece, with its angle
      brackets trimmed, is the address and the pieces before it, joined with
      single spaces, are the name. Empty input, or input that starts with a
      space, is rejected because the first piece is empty. */
  function ParseEmail(input: string): (r: Result<Email>)
    ensures r.Err? <==> (input == "" || input[0] == ' ')
    ensures r.Err? ==> r.error == ErrEmailInputEmpty
  {
    var parts := Split(input, ' ');
    if parts[0] == "" then Err(ErrEmailInputEmpty)
    else
      var address := if |parts| == 1 then parts[0] else parts[|parts| - 1];
      var name := if |parts| == 1 then "" else Join(parts[..|parts| - 1], " ");
      Ok(Email(TrimAngles(address), name))
  }

  /** A single token is all address, with no name. */
  lemma ParseSingleToken(input: string)
    requires input != "" && ' ' !in input
    ensures ParseEmail(input) == Ok(Email(TrimAngles(input), ""))
  {
    SplitNoSeparator(input, ' ');
  }

  /** With several tokens, the text after the last space is the address and
      everything before that space is the name, whatever spaces it holds. */
  lemma ParseSeveralTokens(name: string, token: string)
    requires name != "" && name[0] != ' ' && ' ' !in token
    ensures ParseEmail(name + " " + token) == Ok(Email(TrimAngles(token), name))
  {
    var input := name + " " + token;
    assert input == name + [' '] + token;
    SplitAround(name, token, ' ');
    SplitNoSeparator(token, ' ');
    var parts := Split(input, ' ');
    assert parts == Split(name, ' ') + [token];
    assert parts[..|parts| - 1] == Split(name, ' ');
    JoinSplit(name, ' ');
  }

  /** A trailing space leaves an empty address, and no error. */
  lemma ParseTrailingSpace(name: string)
    requires name != "" && name[0] != ' '
    ensures ParseEmail(name + " ") == Ok(Email("", name))
  {
    ParseSeveralTokens(name, "");
    assert name + " " + "" == name + " ";
  }

  /** Parsing the display form `name <address>` gives back the mailbox, for
      a name that does not start with a space and an address with no space. */
  lemma ParseFormatRoundTrip(name: string, address: string)
    requires name != "" && name[0] != ' ' && ' ' !in address
    ensures ParseEmail(FormatAddress(name, address)) == Ok(Email(address, name))
  {
    var token := "<" + address + ">";
    assert FormatAddress(name, address) == name + " " + token;
    ParseSeveralTokens(name, token);
    TrimAnglesBracketed(address);
  }

  /** The cases the package's own tests check. */
  lemma ParseEmailBareExample()
    ensures ParseEmail("test@example.com") == Ok(Email("test@example.com", ""))
  {
    ParseSingleToken("test@example.com");
    TrimAnglesPlain("test@example.com");
  }

  lemma ParseEmailBracketedExample()
    ensures ParseEmail("<test@example.com>") == Ok(Email("test@example.com", ""))
  {
    assert "<test@example.com>" == "<" + "test@example.com" + ">";
    ParseSingleToken("<test@example.com>");
    TrimAnglesBracketed("test@example.com");
  }

  lemma ParseEmailNamedExample()
    ensures ParseEmail("Test user <user@example.com>") == Ok(Email("user@example.com", "Test user"))
  {
    assert FormatAddress("Test user", "user@example.com") == "Test user <user@example.com>";
    ParseFormatRoundTrip("Test user", "user@example.com");
  }

  lemma ParseEmailUnbracketedExample()
    ensures ParseEmail("Test user 2 user2@example.com") == Ok(Email("user2@example.com", "Test user 2"))
  {
    assert "Test user 2" + " " + "user2@example.com" == "Test user 2 user2@example.com";
    ParseSeveralTokens("Test user 2", "user2@example.com");
    TrimAnglesPlain("user2@example.com");
  }

  /** `HasString`: whether `item` occurs in `list`. */
  function HasString(list: seq<string>, item: string): (r: bool)
    ensures r <==> exists i | 0 <= i < |list| :: list[i] == item
    ensures |list| == 0 ==> !r
  {
    if |list| == 0 then false
    else if list[0] == item then true
    else
      var rest := HasString(list[1..], item);
      assert forall i | 1 <= i < |list| :: list[i] == list[1..][i - 1];
      rest
  }

  /** `GetFirstStringInMap`: the value under the key visited first, or `""`
      for an empty map. */
  function GetFirstStringInMap(input: map<string, string>, choose: Choice): (r: string)
    requires ValidChoice(choose)
    ensures input == map[] ==> r == ""
    ensures input != map[] ==> r in input.Values
  {
    if input == map[] then ""
    else
      assert exists k :: k in input.Keys;
      var k := choose(input.Keys);
      input[k]
  }

  /** No value is favoured: each value of a non-empty map is the answer
      under some iteration order. */
  lemma GetFirstStringAnyValue(input: map<string, string>, v: string)
    requires v in input.Values
    ensures exists choose: Choice :: ValidChoice(choose) && GetFirstStringInMap(input, choose) == v
  {
    var k :| k in input && input[k] == v;
    var choose: Choice := keys => if k in keys then k else if keys == {} then "" else var x :| x in keys; x;
    assert ValidChoice(choose);
    assert GetFirstStringInMap(input, choose) == v;
  }
}
