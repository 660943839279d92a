/** The opaque refresh token `<family_id>.<token_id>.<hmac>`: printing, parsing, checking.

    The keyed hash is a parameter, `Mac`: any function from the signed text to a string. */
module RefreshToken {
  datatype Parsed = Malformed | Parts(family: string, token: string, mac: string)

  /** `Raised` is the TypeError of `hmac.compare_digest` for strings that are not ASCII, which no caller
      expects as an invalid token. */
  datatype Checked = Rejected | Raised | Valid(family: string, token: string)

  datatype Signed = DotInId | Token(text: string)

  type Mac = string -> string

  const DOT: char := '.'

  function Sign(mac: Mac, family: string, token: string): Signed {
    if DOT in family || DOT in token then DotInId
    else Token(family + [DOT] + token + [DOT] + mac(family + [DOT] + token))
  }

  /** Index of the first dot, or the length when there is none. */
  function FirstDot(text: string): (i: nat)
    ensures i <= |text| && DOT !in text[..i]
    ensures i < |text| ==> text[i] == DOT
  {
    if text == [] || text[0] == DOT then 0 else FirstDot(text[1..]) + 1
  }

  /** `split(".", 2)`, then three non-empty parts or nothing. */
  function Parse(text: string): Parsed {
    var i := FirstDot(text);
    if i == |text| then Malformed else
    var rest := text[i + 1..];
    var j := FirstDot(rest);
    if j == |rest| then Malformed else
    var parts := Parts(text[..i], rest[..j], rest[j + 1..]);
    if parts.family == [] || parts.token == [] || parts.mac == [] then Malformed else parts
  }

  /** `rsplit(".", 1)[1]`: what follows the last dot. */
  function AfterLastDot(text: string): (last: string) {
    if DOT !in text then text else AfterLastDot(text[FirstDot(text) + 1..])
  }

  predicate Ascii(s: string) {
    forall i :: 0 <= i < |s| ==> s[i] < 128 as char
  }

  /** `_parse_refresh` followed by `_verify_refresh_hmac`. */
  function Check(mac: Mac, text: string): Checked {
    match Parse(text)
    case Malformed => Rejected
    case Parts(family, token, provided) =>
      match Sign(mac, family, token)
      case DotInId => Rejected
      case Token(expected) =>
        if !Ascii(AfterLastDot(expected)) || !Ascii(provided) then Raised
        else if AfterLastDot(expected) == provided then Valid(family, token)
        else Rejected
  }

  lemma {:induction false} FirstDotAfterPrefix(prefix: string, rest: string)
    requires DOT !in prefix
    ensures FirstDot(prefix + [DOT] + rest) == |prefix|
  {
    if prefix != [] {
      FirstDotAfterPrefix(prefix[1..], rest);
      assert (prefix + [DOT] + rest)[1..] == prefix[1..] + [DOT] + rest;
    }
  }

  lemma AfterLastDotSkips(prefix: string, rest: string)
    requires DOT !in prefix
    ensures AfterLastDot(prefix + [DOT] + rest) == AfterLastDot(rest)
  {
    var text := prefix + [DOT] + rest;
    FirstDotAfterPrefix(prefix, rest);
    assert text[|prefix|] == DOT && text[|prefix| + 1..] == rest;
  }

  lemma ParseJoined(family: string, token: string, mac: string)
    requires DOT !in family && DOT !in token
    ensures Parse(family + [DOT] + token + [DOT] + mac) ==
            if family == [] || token == [] || mac == [] then Malformed else Parts(family, token, mac)
  {
    var rest := token + [DOT] + mac;
    var text := family + [DOT] + token + [DOT] + mac;
    assert text == family + [DOT] + rest;
    FirstDotAfterPrefix(family, rest);
    FirstDotAfterPrefix(token, mac);
    assert text[..|family|] == family && text[|family| + 1..] == rest;
    assert rest[..|token|] == token && rest[|token| + 1..] == mac;
  }

  lemma JoinParsed(text: string)
    requires Parse(text).Parts?
    ensures var p := Parse(text);
            && DOT !in p.family && DOT !in p.token && p.family != [] && p.token != [] && p.mac != []
            && text == p.family + [DOT] + p.token + [DOT] + p.mac
  {
  }

  lemma LastDotOfSigned(family: string, token: string, mac: string)
    requires DOT !in family && DOT !in token && DOT !in mac
    ensures AfterLastDot(family + [DOT] + token + [DOT] + mac) == mac
  {
    AfterLastDotSkips(token, mac);
    AfterLastDotSkips(family, token + [DOT] + mac);
    assert family + [DOT] + token + [DOT] + mac == family + [DOT] + (token + [DOT] + mac);
  }

  /** A digest as `hexdigest` prints it: not empty, no dot, ASCII. */
  ghost predicate HexMac(mac: Mac) {
    forall m :: mac(m) != [] && DOT !in mac(m) && Ascii(mac(m))
  }

  lemma CheckOfParts(mac: Mac, text: string)
    requires HexMac(mac) && Parse(text).Parts?
    ensures var p := Parse(text);
            Check(mac, text) == if !Ascii(p.mac) then Raised
                                else if mac(p.family + [DOT] + p.token) == p.mac then Valid(p.family, p.token)
                                else Rejected
  {
    var p := Parse(text);
    JoinParsed(text);
    LastDotOfSigned(p.family, p.token, mac(p.family + [DOT] + p.token));
  }

  lemma AcceptedIsSigned(mac: Mac, text: string, family: string, token: string)
    requires HexMac(mac) && Check(mac, text) == Valid(family, token)
    ensures family != [] && token != [] && Sign(mac, family, token) == Token(text)
  {
    CheckOfParts(mac, text);
    JoinParsed(text);
  }

  lemma ParsedIsAccepted(mac: Mac, text: string, family: string, token: string)
    requires HexMac(mac) && Parse(text) == Parts(family, token, mac(family + [DOT] + token))
    ensures Check(mac, text) == Valid(family, token)
  {
    CheckOfParts(mac, text);
  }

  lemma SignedIsAccepted(mac: Mac, text: string, family: string, token: string)
    requires HexMac(mac) && family != [] && token != [] && Sign(mac, family, token) == Token(text)
    ensures Check(mac, text) == Valid(family, token)
  {
    assert Parse(text) == Parts(family, token, mac(family + [DOT] + token)) by {
      ParseJoined(family, token, mac(family + [DOT] + token));
    }
    ParsedIsAccepted(mac, text, family, token);
  }

  /** Signing and parsing are inverse, and a string is accepted exactly when it is the signature of
      the two non-empty ids that it names: nothing else passes, whatever dots it contains. */
  lemma AcceptedExactlyWhenSigned(mac: Mac, text: string, family: string, token: string)
    requires HexMac(mac)
    ensures Check(mac, text) == Valid(family, token)
            <==> family != [] && token != [] && Sign(mac, family, token) == Token(text)
  {
    if Check(mac, text) == Valid(family, token) {
      AcceptedIsSigned(mac, text, family, token);
    } else if family != [] && token != [] && Sign(mac, family, token) == Token(text) {
      SignedIsAccepted(mac, text, family, token);
    }
  }

  /** Different ids never share a token string. */
  lemma SignIsInjective(mac: Mac, f1: string, t1: string, f2: string, t2: string)
    requires HexMac(mac) && f1 != [] && t1 != [] && f2 != [] && t2 != []
    requires Sign(mac, f1, t1).Token? && Sign(mac, f1, t1) == Sign(mac, f2, t2)
    ensures f1 == f2 && t1 == t2
  {
    var text := Sign(mac, f1, t1).text;
    AcceptedExactlyWhenSigned(mac, text, f1, t1);
    AcceptedExactlyWhenSigned(mac, text, f2, t2);
  }

  /** A text of three non-empty fields, the first two without dots. */
  ghost predicate Fields(text: string, family: string, token: string, provided: string) {
    && text == family + [DOT] + token + [DOT] + provided
    && family != [] && token != [] && provided != [] && DOT !in family && DOT !in token
  }

  /** The check raises exactly for well-formed texts whose last field is not ASCII. */
  lemma RaisesExactly(mac: Mac, text: string)
    requires HexMac(mac)
    ensures Check(mac, text) == Raised
            <==> exists family, token, provided :: Fields(text, family, token, provided) && !Ascii(provided)
  {
    if Check(mac, text) == Raised {
      var parts := Parse(text);
      JoinParsed(text);
      assert Fields(text, parts.family, parts.token, parts.mac);
      CheckOfParts(mac, text);
    }
    if family, token, provided :| Fields(text, family, token, provided) && !Ascii(provided) {
      ParseJoined(family, token, provided);
      CheckOfParts(mac, text);
    }
  }
}
