/**
 * The Authorization header of the HTTP Basic scheme (RFC 7617, section 2) as the build trigger
 * composes it: "Basic " followed by the Base64 encoding of the UTF-8 octets of "user:token".
 * A parser recovers the credentials, which shows what the header carries and where it is ambiguous.
 */
module BasicAuth {
  import opened Wrappers
  import opened JavaText
  import Utf8
  import Base64

  const SCHEME := "Basic "

  /** The header value for a user and an API token. */
  function AuthorizationHeader(user: string, token: string): (r: string)
    ensures |r| >= |SCHEME| && r[..|SCHEME|] == SCHEME
    ensures forall i :: |SCHEME| <= i < |r| ==> Base64.InAlphabet(r[i]) || r[i] == '='
  {
    var encoded := Base64.Encode(Utf8.Encode(user + ":" + token));
    Base64.EncodeAlphabet(Utf8.Encode(user + ":" + token));
    SCHEME + encoded
  }

  /** Reads a Basic header back: the user-id is everything before the first ':', the password the rest. */
  function ParseBasic(h: string): Option<(string, string)> {
    if |h| < |SCHEME| || h[..|SCHEME|] != SCHEME then None
    else match Base64.Decode(h[|SCHEME|..])
      case None => None
      case Some(octets) =>
        match Utf8.Decode(octets)
        case None => None
        case Some(pass) =>
          var k := IndexOf(pass, ':');
          if k == |pass| then None else Some((pass[..k], pass[k + 1..]))
  }

  /**
   * For every user and token, the text after the scheme decodes to the UTF-8 octets of
   * user ":" token, and those octets decode to that text.
   */
  lemma AuthorizationHeaderContent(user: string, token: string)
    ensures var h := AuthorizationHeader(user, token);
      Base64.Decode(h[|SCHEME|..]) == Some(Utf8.Encode(user + ":" + token)) &&
      Utf8.Decode(Utf8.Encode(user + ":" + token)) == Some(user + ":" + token)
  {
    var octets := Utf8.Encode(user + ":" + token);
    assert AuthorizationHeader(user, token)[|SCHEME|..] == Base64.Encode(octets);
    Base64.DecodeEncode(octets);
    Utf8.DecodeEncode(user + ":" + token);
  }

  /** A user name without ':' and any token are carried by the header and read back unchanged. */
  lemma ParseAuthorizationHeader(user: string, token: string)
    requires ':' !in user
    ensures ParseBasic(AuthorizationHeader(user, token)) == Some((user, token))
  {
    var pass := user + ":" + token;
    var octets := Utf8.Encode(pass);
    var h := AuthorizationHeader(user, token);
    assert h[|SCHEME|..] == Base64.Encode(octets);
    Base64.DecodeEncode(octets);
    Utf8.DecodeEncode(pass);
    assert pass == user + [':'] + token;
    IndexOfAfter(user, ':', token);
    assert pass[..|user|] == user;
    assert pass[|user| + 1..] == token;
  }

  /** For user names without ':', distinct credentials give distinct headers. */
  lemma AuthorizationHeaderInjective(u1: string, t1: string, u2: string, t2: string)
    requires ':' !in u1 && ':' !in u2
    ensures AuthorizationHeader(u1, t1) == AuthorizationHeader(u2, t2) <==> u1 == u2 && t1 == t2
  {
    ParseAuthorizationHeader(u1, t1);
    ParseAuthorizationHeader(u2, t2);
  }

  /**
   * A ':' in the user name is not escaped: the header cannot tell it from a ':' in the token,
   * and a receiver reading it as RFC 7617 prescribes takes the user name to end at the first ':'.
   */
  lemma ColonInUserIsAmbiguous()
    ensures AuthorizationHeader("a:b", "c") == AuthorizationHeader("a", "b:c")
    ensures ParseBasic(AuthorizationHeader("a:b", "c")) == Some(("a", "b:c"))
  {
    assert "a:b" + ":" + "c" == "a" + ":" + "b:c";
    ParseAuthorizationHeader("a", "b:c");
  }
}
