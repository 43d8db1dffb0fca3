/**
 * The public-hostname grammar of PublishingValidator: validateHostname runs a
 * fixed series of tests and reports the first that fails; its last test is
 * validateHostnamePattern, which sorts the hostname into one of three
 * categories (the reserved default host, a subdomain of the reserved base
 * domain, or a custom fully qualified name).
 */
module Hostnames {
  import opened Wrappers
  import opened Strings
  import opened PublishingErrors

  /** The gateway's own hostname, accepted without further checks. */
  const DefaultHostname: string := "api.router.inference-in-a-box"
  /** The reserved base domain, with its leading dot. */
  const BaseSuffix: string := ".inference-in-a-box"
  /** Limits on a whole name and on the prefix before the base domain, in bytes. */
  const MaxHostnameBytes: nat := 253
  const MaxSubdomainBytes: nat := 63

  /** The tests of validateHostname are the HostnameProblem constructors, ranked in source order. */
  function Rank(f: HostnameProblem): nat
  {
    match f
    case Protocol => 0
    case Path => 1
    case Empty => 2
    case TooLong => 3
    case BadCharacters => 4
    case Consecutive => 5
    case BadEdge => 6
    case EmptySubdomain => 7
    case LongSubdomain => 8
    case NotQualified => 9
  }

  predicate Alnum(c: char)
  {
    'a' <= c <= 'z' || 'A' <= c <= 'Z' || '0' <= c <= '9'
  }

  predicate HostChar(c: char)
  {
    Alnum(c) || c == '-' || c == '.'
  }

  /**
   * The pattern ^[a-zA-Z0-9]([a-zA-Z0-9\-\.]*[a-zA-Z0-9])?$ : a non-empty
   * name of letters, digits, hyphens and dots that starts and ends with a
   * letter or digit.
   */
  predicate MatchesHostPattern(h: string)
  {
    && |h| > 0
    && Alnum(h[0])
    && Alnum(h[|h| - 1])
    && forall i | 0 <= i < |h| :: HostChar(h[i])
  }

  predicate BadEnds(h: string)
  {
    HasPrefix(h, ".") || HasSuffix(h, ".") || HasPrefix(h, "-") || HasSuffix(h, "-")
  }

  /** The ValidationError a failed test produces. */
  function Report(fault: Option<HostnameProblem>): Option<ValidationError>
  {
    match fault
    case None => None
    case Some(f) => Some(ValidationError(PublicHostname, BadHostname(f)))
  }

  /** validateHostnamePattern, as the test that fails (if any). */
  function CategoryFault(h: string): Option<HostnameProblem>
  {
    if h == DefaultHostname then None
    else if HasSuffix(h, BaseSuffix) then
      var subdomain := TrimSuffix(h, BaseSuffix);
      if ByteLen(subdomain) == 0 then Some(EmptySubdomain)
      else if ByteLen(subdomain) > MaxSubdomainBytes then Some(LongSubdomain)
      else None
    else if '.' !in h then Some(NotQualified)
    else None
  }

  /** validateHostnamePattern */
  function ValidateHostnamePattern(h: string): (r: Option<ValidationError>)
    ensures r.Some? ==> r.value.field == PublicHostname
    ensures r.None? <==> CategoryFault(h).None?
    ensures r.Some? ==> r.value.reason == BadHostname(CategoryFault(h).value)
  {
    Report(CategoryFault(h))
  }

  /** validateHostname, as the first test that fails (if any). */
  function HostnameFault(h: string): Option<HostnameProblem>
  {
    if ContainsProtocol(h) then Some(Protocol)
    else if '/' in h then Some(Path)
    else if ByteLen(h) == 0 then Some(Empty)
    else if ByteLen(h) > MaxHostnameBytes then Some(TooLong)
    else if !MatchesHostPattern(h) then Some(BadCharacters)
    else if Doubled(h, '.') || Doubled(h, '-') then Some(Consecutive)
    else if BadEnds(h) then Some(BadEdge)
    else CategoryFault(h)
  }

  /** validateHostname: at most one error, always about publicHostname. */
  function ValidateHostname(h: string): (r: Option<ValidationError>)
    ensures r.Some? ==> r.value.field == PublicHostname
    ensures r.None? <==> HostnameFault(h).None?
    ensures r.Some? ==> r.value.reason == BadHostname(HostnameFault(h).value)
  {
    Report(HostnameFault(h))
  }

  /** Each test of validateHostname taken on its own. */
  predicate Fails(f: HostnameProblem, h: string)
  {
    match f
    case Protocol => ContainsProtocol(h)
    case Path => '/' in h
    case Empty => ByteLen(h) == 0
    case TooLong => ByteLen(h) > MaxHostnameBytes
    case BadCharacters => !MatchesHostPattern(h)
    case Consecutive => Doubled(h, '.') || Doubled(h, '-')
    case BadEdge => BadEnds(h)
    case EmptySubdomain =>
      h != DefaultHostname && HasSuffix(h, BaseSuffix) && ByteLen(TrimSuffix(h, BaseSuffix)) == 0
    case LongSubdomain =>
      h != DefaultHostname && HasSuffix(h, BaseSuffix) && ByteLen(TrimSuffix(h, BaseSuffix)) > MaxSubdomainBytes
    case NotQualified =>
      h != DefaultHostname && !HasSuffix(h, BaseSuffix) && '.' !in h
  }

  /** The category tests are exclusive, and the source's order among them is immaterial. */
  lemma CategoryFaultFails(h: string)
    ensures forall f :: CategoryFault(h) == Some(f) <==> f in {EmptySubdomain, LongSubdomain, NotQualified} && Fails(f, h)
  {
  }

  /** What validateHostname reports is a failing test preceded only by passing ones. */
  lemma ReportedTestFails(h: string)
    ensures HostnameFault(h).Some? ==>
              var f := HostnameFault(h).value;
              Fails(f, h) && forall g :: Rank(g) < Rank(f) ==> !Fails(g, h)
  {
    CategoryFaultFails(h);
    if HostnameFault(h).Some? {
      var f := HostnameFault(h).value;
      forall g | Rank(g) < Rank(f) ensures !Fails(g, h) {
      }
    }
  }

  /** validateHostname accepts exactly the hostnames that pass every test. */
  lemma AcceptedIffAllPass(h: string)
    ensures HostnameFault(h).None? <==> forall f :: !Fails(f, h)
  {
    CategoryFaultFails(h);
    if HostnameFault(h).None? {
      forall f ensures !Fails(f, h) {
      }
    } else {
      ReportedTestFails(h);
    }
  }

  /** validateHostname reports test f exactly when f fails and every earlier test passes. */
  lemma FirstFailingCheck(h: string, f: HostnameProblem)
    ensures HostnameFault(h) == Some(f) <==> Fails(f, h) && forall g :: Rank(g) < Rank(f) ==> !Fails(g, h)
  {
    ReportedTestFails(h);
    AcceptedIffAllPass(h);
    if Fails(f, h) && forall g :: Rank(g) < Rank(f) ==> !Fails(g, h) {
      var f' := HostnameFault(h).value;
      assert Rank(f') <= Rank(f);
    }
  }

  lemma PatternExcludesBadEnds(h: string)
    requires MatchesHostPattern(h)
    ensures !BadEnds(h)
  {
    assert h[..1][0] == h[0] && h[|h| - 1..][0] == h[|h| - 1];
  }

  lemma PatternExcludesEmptySubdomain(h: string)
    requires MatchesHostPattern(h)
    ensures !Fails(EmptySubdomain, h)
  {
    if HasSuffix(h, BaseSuffix) {
      var subdomain := TrimSuffix(h, BaseSuffix);
      ByteLenBounds(subdomain);
    }
  }

  /**
   * Two tests can never decide the outcome: once the character class holds,
   * the name starts and ends with a letter or digit, so it neither has a
   * dot or hyphen at an end nor is exactly ".inference-in-a-box".
   */
  lemma UnreachableChecks(h: string)
    ensures HostnameFault(h) != Some(BadEdge)
    ensures HostnameFault(h) != Some(EmptySubdomain)
  {
    FirstFailingCheck(h, BadEdge);
    if HostnameFault(h) == Some(BadEdge) {
      assert Rank(BadCharacters) < Rank(BadEdge);
      PatternExcludesBadEnds(h);
    }
    FirstFailingCheck(h, EmptySubdomain);
    if HostnameFault(h) == Some(EmptySubdomain) {
      assert Rank(BadCharacters) < Rank(EmptySubdomain);
      PatternExcludesEmptySubdomain(h);
    }
  }

  /** The shape of a hostname that passes every test. */
  lemma PassingShape(h: string)
    requires forall f :: !Fails(f, h)
    ensures 1 <= |h| == ByteLen(h) <= MaxHostnameBytes
    ensures Alnum(h[0]) && Alnum(h[|h| - 1])
    ensures forall i | 0 <= i < |h| :: HostChar(h[i])
    ensures '/' !in h && !Doubled(h, '.') && !Doubled(h, '-')
  {
    assert !Fails(BadCharacters, h);
    assert !Fails(TooLong, h);
    assert !Fails(Path, h);
    assert !Fails(Consecutive, h);
    PatternByteLen(h);
  }

  /** A name matching the character class is ASCII, so its byte length is its length. */
  lemma PatternByteLen(h: string)
    requires MatchesHostPattern(h)
    ensures ByteLen(h) == |h|
  {
    assert forall i | 0 <= i < |h| :: IsAscii(h[i]);
    ByteLenAscii(h);
  }

  /** A hostname that passes every test contains a dot, whichever category it is in. */
  lemma PassingHasDot(h: string)
    requires forall f :: !Fails(f, h)
    ensures '.' in h
  {
    assert !Fails(NotQualified, h);
    if h == DefaultHostname {
      assert h[3] == '.';
    } else if HasSuffix(h, BaseSuffix) {
      assert h[|h| - |BaseSuffix|] == BaseSuffix[0];
    }
  }

  /**
   * Every accepted hostname is 1 to 253 bytes (one byte per character) of
   * letters, digits, hyphens and dots, starts and ends with a letter or
   * digit, has no '/', "..", or "--", and contains at least one dot.
   */
  lemma AcceptedShape(h: string)
    ensures HostnameFault(h).None? ==>
              && 1 <= |h| == ByteLen(h) <= MaxHostnameBytes
              && Alnum(h[0]) && Alnum(h[|h| - 1])
              && (forall i | 0 <= i < |h| :: HostChar(h[i]))
              && '/' !in h && !Doubled(h, '.') && !Doubled(h, '-')
              && '.' in h
  {
    if HostnameFault(h).None? {
      AcceptedIffAllPass(h);
      PassingShape(h);
      PassingHasDot(h);
    }
  }

  /**
   * The category rule of validateHostnamePattern, stated by decomposing the
   * name: the default host, or a prefix of 1 to 63 bytes followed by the
   * base domain, or a name that is not under the base domain at all and
   * contains a dot.
   */
  lemma CategoryRule(h: string)
    ensures CategoryFault(h).None? <==>
              || h == DefaultHostname
              || (exists sub :: h == sub + BaseSuffix && 1 <= ByteLen(sub) <= MaxSubdomainBytes)
              || ((forall sub :: h != sub + BaseSuffix) && '.' in h)
  {
    if HasSuffix(h, BaseSuffix) {
      var sub := TrimSuffix(h, BaseSuffix);
      assert h == sub + BaseSuffix;
      forall sub' | h == sub' + BaseSuffix ensures sub' == sub {
        assert sub' == h[..|h| - |BaseSuffix|];
      }
    } else {
      forall sub ensures h != sub + BaseSuffix {
      }
    }
  }

  /** Letters, digits, hyphens and dots include no '/', so neither a protocol nor a path. */
  lemma HostCharsHaveNoSlash(h: string)
    requires forall i | 0 <= i < |h| :: HostChar(h[i])
    ensures !ContainsProtocol(h) && '/' !in h
  {
  }

  /**
   * Once a name of at most 253 characters matches the character class and
   * has no doubled dot or hyphen, only the category rule can reject it.
   */
  lemma CategoryDecides(h: string)
    requires |h| <= MaxHostnameBytes && MatchesHostPattern(h)
    requires !Doubled(h, '.') && !Doubled(h, '-')
    ensures HostnameFault(h) == CategoryFault(h)
  {
    HostCharsHaveNoSlash(h);
    assert forall i | 0 <= i < |h| :: IsAscii(h[i]);
    ByteLenAscii(h);
    assert 0 < ByteLen(h) <= MaxHostnameBytes;
    PatternExcludesBadEnds(h);
  }

  /** The hostname passes the character class and has no doubled dot or hyphen. */
  predicate WellFormed(h: string)
  {
    MatchesHostPattern(h) && !Doubled(h, '.') && !Doubled(h, '-')
  }

  lemma DefaultHostPattern()
    ensures MatchesHostPattern(DefaultHostname)
  {
  }

  lemma DefaultHostNoDoubles()
    ensures !Doubled(DefaultHostname, '.') && !Doubled(DefaultHostname, '-')
  {
  }

  /** The reserved default hostname is accepted. */
  lemma DefaultHostAccepted()
    ensures HostnameFault(DefaultHostname) == None
  {
    DefaultHostPattern();
    DefaultHostNoDoubles();
    CategoryDecides(DefaultHostname);
  }

  lemma CustomHostWellFormed()
    ensures WellFormed("valid.example.com")
  {
  }

  lemma CustomHostAccepted()
    ensures HostnameFault("valid.example.com") == None
  {
    CustomHostWellFormed();
    CategoryDecides("valid.example.com");
  }

  lemma BaseSubdomainWellFormed()
    ensures WellFormed("foo.inference-in-a-box")
  {
  }

  lemma BaseSubdomainCategory()
    ensures CategoryFault("foo.inference-in-a-box") == None
  {
    assert TrimSuffix("foo.inference-in-a-box", BaseSuffix) == "foo";
    ByteLenBounds("foo");
  }

  lemma BaseSubdomainAccepted()
    ensures HostnameFault("foo.inference-in-a-box") == None
  {
    BaseSubdomainWellFormed();
    BaseSubdomainCategory();
    CategoryDecides("foo.inference-in-a-box");
  }

  lemma UnqualifiedWellFormed()
    ensures WellFormed("not-fqdn")
  {
  }

  /** A name without a dot outside the base domain is not fully qualified. */
  lemma UnqualifiedRejected()
    ensures HostnameFault("not-fqdn") == Some(NotQualified)
  {
    UnqualifiedWellFormed();
    CategoryDecides("not-fqdn");
  }

  lemma ProtocolRejected()
    ensures HostnameFault("http://x.com") == Some(Protocol)
  {
    var h := "http://x.com";
    assert h[4] == ':' && h[5] == '/' && h[6] == '/';
  }

  lemma DoubledDotPattern()
    ensures MatchesHostPattern("a..b.com")
  {
  }

  lemma DoubledDotRejected()
    ensures HostnameFault("a..b.com") == Some(Consecutive)
  {
    var h := "a..b.com";
    DoubledDotPattern();
    HostCharsHaveNoSlash(h);
    PatternByteLen(h);
    assert h[1] == '.' && h[2] == '.';
  }

  /** A rejection by the character class, for a name of at most 253 bytes with no '/'. */
  lemma BadCharactersFirst(h: string)
    requires 0 < |h| && ByteLen(h) <= MaxHostnameBytes && '/' !in h && !MatchesHostPattern(h)
    ensures HostnameFault(h) == Some(BadCharacters)
  {
    ByteLenBounds(h);
  }

  /** A name of at most 63 characters fits in 253 bytes, whatever its characters. */
  lemma ShortNameFits(h: string)
    requires |h| <= MaxHostnameBytes / 4
    ensures ByteLen(h) <= MaxHostnameBytes
  {
    ByteLenBounds(h);
  }

  /** A leading hyphen or dot is caught by the character class, before the edge test. */
  lemma LeadingHyphenRejected()
    ensures HostnameFault("-a.com") == Some(BadCharacters)
    ensures HostnameFault(".inference-in-a-box") == Some(BadCharacters)
    ensures ValidateHostname("-a.com") == Some(ValidationError(PublicHostname, BadHostname(BadCharacters)))
  {
    BadFirstCharRejected("-a.com");
    BadFirstCharRejected(".inference-in-a-box");
  }

  /** A short name with no '/' that starts with a hyphen or a dot fails the character class. */
  lemma BadFirstCharRejected(h: string)
    requires 0 < |h| <= MaxHostnameBytes / 4 && '/' !in h && (h[0] == '-' || h[0] == '.')
    ensures HostnameFault(h) == Some(BadCharacters)
  {
    ShortNameFits(h);
    BadCharactersFirst(h);
  }

  lemma LabelWellFormed(sub: string)
    requires 1 <= |sub|
    requires forall i | 0 <= i < |sub| :: Alnum(sub[i])
    ensures WellFormed(sub + BaseSuffix)
  {
    var h := sub + BaseSuffix;
    assert forall i | 0 <= i < |sub| :: h[i] == sub[i];
    assert forall i | |sub| <= i < |h| :: h[i] == BaseSuffix[i - |sub|];
  }

  lemma LabelCategory(sub: string)
    requires 1 <= |sub|
    requires forall i | 0 <= i < |sub| :: Alnum(sub[i])
    ensures CategoryFault(sub + BaseSuffix) == if |sub| <= MaxSubdomainBytes then None else Some(LongSubdomain)
  {
    var h := sub + BaseSuffix;
    ByteLenAscii(sub);
    assert TrimSuffix(h, BaseSuffix) == sub;
  }

  /**
   * A single label of letters and digits under the reserved base domain is
   * accepted when it has at most 63 characters and rejected by the
   * subdomain-length test when it has more (up to the 253-byte limit).
   */
  lemma BaseDomainLabel(sub: string)
    requires 1 <= |sub| <= MaxHostnameBytes - |BaseSuffix|
    requires forall i | 0 <= i < |sub| :: Alnum(sub[i])
    ensures |sub| <= MaxSubdomainBytes ==> HostnameFault(sub + BaseSuffix) == None
    ensures |sub| > MaxSubdomainBytes ==> HostnameFault(sub + BaseSuffix) == Some(LongSubdomain)
  {
    LabelWellFormed(sub);
    LabelCategory(sub);
    CategoryDecides(sub + BaseSuffix);
  }
}
