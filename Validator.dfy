/**
 * The target-URL validator: an ordered chain of lexical checks over an
 * already parsed URL (protocol, hostname), guarding against requests to the
 * local machine and to private networks.
 */
module Validator {
  import opened Wrappers
  import opened Text

  /** The two parts of a WHATWG URL the validator reads; `None` where `new URL` throws. */
  datatype ParsedUrl = ParsedUrl(protocol: string, hostname: string)

  /** `{ valid, error? }`: success is `{valid: true}` with no error. */
  datatype Validation = Validation(valid: bool, error: Option<string>)

  const MalformedMessage := "URL malformée."
  const ProtocolMessage := "Protocole invalide. Utilisez http:// ou https://"
  const LocalMessage := "Accès interdit aux adresses locales (localhost)."
  const PrivateMessage := "Accès interdit aux réseaux privés (IP locale)."

  const AllowedProtocols: seq<string> := ["http:", "https:"]

  const LocalHostnames: seq<string> := ["localhost", "local", "intranet", "router", "gateway"]

  /**
   * One anchored pattern of the private-range list: a literal prefix, or the
   * 172.16.0.0/12 block `^172\.(1[6-9]|2[0-9]|3[0-1])\.`.
   */
  datatype HostPattern = Prefix(p: string) | Block172

  const PrivateIpRanges: seq<HostPattern> :=
    [Prefix("127."), Prefix("10."), Block172, Prefix("192.168."), Prefix("0.0.0.0"),
     Prefix("fc00:"), Prefix("fe80:")]

  /** The alternation `1[6-9]|2[0-9]|3[0-1]` over two characters. */
  predicate SecondOctet172(a: char, b: char) {
    || (a == '1' && '6' <= b <= '9')
    || (a == '2' && '0' <= b <= '9')
    || (a == '3' && '0' <= b <= '1')
  }

  /** `regex.test(hostname)` for one pattern; every pattern is anchored at the start. */
  predicate Matches(pat: HostPattern, host: string) {
    match pat
    case Prefix(p) => StartsWith(host, p)
    case Block172 => 7 <= |host| && host[..4] == "172." && SecondOctet172(host[4], host[5]) && host[6] == '.'
  }

  /** `patterns.some(regex => regex.test(hostname))`. */
  predicate AnyMatches(pats: seq<HostPattern>, host: string) {
    if pats == [] then false else Matches(pats[0], host) || AnyMatches(pats[1..], host)
  }

  /** `some` holds exactly when one of the patterns matches. */
  lemma {:induction false} AnyMatchesExists(pats: seq<HostPattern>, host: string)
    ensures AnyMatches(pats, host) <==> exists i :: 0 <= i < |pats| && Matches(pats[i], host)
  {
    if pats != [] {
      AnyMatchesExists(pats[1..], host);
      if exists i :: 0 <= i < |pats| && Matches(pats[i], host) {
        var i :| 0 <= i < |pats| && Matches(pats[i], host);
        if i > 0 {
          assert pats[1..][i - 1] == pats[i];
        }
      }
      if AnyMatches(pats[1..], host) {
        var i :| 0 <= i < |pats[1..]| && Matches(pats[1..][i], host);
        assert pats[i + 1] == pats[1..][i];
      }
    }
  }

  predicate IsPrivateHost(host: string) {
    AnyMatches(PrivateIpRanges, host)
  }

  /**
   * isValidTargetUrl: protocol first, then the lowercased hostname against the
   * local names, then the raw hostname against the private ranges.
   */
  function IsValidTargetUrl(url: Option<ParsedUrl>): (r: Validation)
    ensures r.valid <==> r.error.None?
    ensures r.valid ==>
      && url.Some?
      && url.value.protocol in AllowedProtocols
      && Lower(url.value.hostname) !in LocalHostnames
      && !IsPrivateHost(url.value.hostname)
  {
    match url
    case None => Validation(false, Some(MalformedMessage))
    case Some(u) =>
      if u.protocol !in AllowedProtocols then Validation(false, Some(ProtocolMessage))
      else if Lower(u.hostname) in LocalHostnames then Validation(false, Some(LocalMessage))
      else if IsPrivateHost(u.hostname) then Validation(false, Some(PrivateMessage))
      else Validation(true, None)
  }

  /** The message of the first failing check in the chain, or `None` when all pass. */
  function FirstFailure(url: Option<ParsedUrl>): Option<string> {
    if url.None? then Some(MalformedMessage)
    else if url.value.protocol != "http:" && url.value.protocol != "https:" then Some(ProtocolMessage)
    else if exists k :: 0 <= k < |LocalHostnames| && LocalHostnames[k] == Lower(url.value.hostname) then Some(LocalMessage)
    else if exists i :: 0 <= i < |PrivateIpRanges| && Matches(PrivateIpRanges[i], url.value.hostname) then Some(PrivateMessage)
    else None
  }

  /**
   * The validator agrees with the first-failure reading of the chain: its error
   * is the first failing check's message, and it is valid exactly when no check fails.
   */
  lemma ValidationIsFirstFailure(url: Option<ParsedUrl>)
    ensures IsValidTargetUrl(url).error == FirstFailure(url)
    ensures IsValidTargetUrl(url).valid <==> FirstFailure(url).None?
  {
    if url.Some? {
      AnyMatchesExists(PrivateIpRanges, url.value.hostname);
    }
  }

  /** The protocol check runs first: a wrong protocol is reported whatever the hostname. */
  lemma ProtocolCheckedFirst(protocol: string, hostname: string)
    requires protocol != "http:" && protocol != "https:"
    ensures IsValidTargetUrl(Some(ParsedUrl(protocol, hostname))) == Validation(false, Some(ProtocolMessage))
  {
  }

  /** The local names are compared case-insensitively, and before the private ranges. */
  lemma LocalNameRejected(protocol: string, hostname: string)
    requires protocol in AllowedProtocols
    requires Lower(hostname) in LocalHostnames
    ensures IsValidTargetUrl(Some(ParsedUrl(protocol, hostname))) == Validation(false, Some(LocalMessage))
  {
  }

  /** An unparseable input is reported as malformed. */
  lemma MalformedRejected()
    ensures IsValidTargetUrl(None) == Validation(false, Some(MalformedMessage))
  {
  }

  /** The value of a decimal digit character. */
  function DigitValue(c: char): int {
    c as int - '0' as int
  }

  /**
   * The 172 pattern is a lexical test of the second octet: it matches exactly
   * when `172.` is followed by a two-digit number from 16 to 31 and a dot.
   */
  lemma Block172Numeric(host: string)
    ensures Matches(Block172, host) <==>
      && 7 <= |host| && host[..4] == "172." && host[6] == '.'
      && IsDigit(host[4]) && IsDigit(host[5])
      && 16 <= 10 * DigitValue(host[4]) + DigitValue(host[5]) <= 31
  {
  }

  /** The private ranges are tested as text: `10.example.com` is a "private" hostname. */
  lemma LexicalPrefixOnly(h: string)
    requires h == "10.example.com"
    ensures IsValidTargetUrl(Some(ParsedUrl("https:", h))) == Validation(false, Some(PrivateMessage))
  {
    IsPrivateTen(h);
    NotLocal(h);
  }

  lemma IsPrivateTen(h: string)
    requires StartsWith(h, "10.")
    ensures IsPrivateHost(h)
  {
    assert Matches(PrivateIpRanges[1], h);
    AnyMatchesExists(PrivateIpRanges, h);
  }

  /** No local name contains a dot, so a dotted hostname is never one of them. */
  lemma NotLocal(h: string)
    requires '.' in h
    ensures Lower(h) !in LocalHostnames
  {
    var i :| 0 <= i < |h| && h[i] == '.';
    LowerCharFacts(h[i]);
    assert Lower(h)[i] == '.';
    forall k | 0 <= k < |LocalHostnames| ensures '.' !in LocalHostnames[k] {
    }
  }

  /** `172.16.0.1` and `172.31.255.255` are private; `172.15.0.1` and `172.32.0.1` are not. */
  lemma Block172Edges(a: string, b: string, c: string, d: string)
    requires a == "172.16.0.1" && b == "172.31.255.255" && c == "172.15.0.1" && d == "172.32.0.1"
    ensures Matches(Block172, a) && Matches(Block172, b)
    ensures !Matches(Block172, c) && !Matches(Block172, d)
  {
    assert a[..4] == "172." && b[..4] == "172.";
  }

  /** Hostnames starting with `172.` match no pattern other than the 172 block. */
  lemma Only172Applies(h: string)
    requires StartsWith(h, "172.")
    ensures IsPrivateHost(h) <==> Matches(Block172, h)
  {
    AnyMatchesExists(PrivateIpRanges, h);
    assert h[0] == '1' && h[1] == '7';
    forall i | 0 <= i < |PrivateIpRanges| && i != 2
      ensures !Matches(PrivateIpRanges[i], h)
    {
      var p := PrivateIpRanges[i].p;
      assert p[0] != '1' || p[1] != '7';
    }
    assert PrivateIpRanges[2] == Block172;
    if IsPrivateHost(h) {
      var i :| 0 <= i < |PrivateIpRanges| && Matches(PrivateIpRanges[i], h);
      assert i == 2;
    }
  }

  /** So `https://172.15.0.1` and `https://172.32.0.1` are accepted. */
  lemma Outside172Accepted(h: string)
    requires h == "172.15.0.1" || h == "172.32.0.1"
    ensures IsValidTargetUrl(Some(ParsedUrl("https:", h))) == Validation(true, None)
  {
    assert h[..4] == "172.";
    Only172Applies(h);
    NotLocal(h);
  }
}
