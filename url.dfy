// GMURL, the dial-string resolver, and the decision part of the URL
// handler thread. A GMURL holds the address text, a port, a type ("sip",
// "h323", "callto", "shortcut" or none) and whether the type is supported.
// The configuration and account lookups `Parse` reads are parameters.

module Url {
  import opened Base
  import opened Text
  import opened Accounts

  const SipKind := "sip"
  const H323Kind := "h323"
  const CalltoKind := "callto"
  const ShortcutKind := "shortcut"

  const SipDefaultPort := "5060"
  const H323DefaultPort := "1720"

  /** The fields of a GMURL, as a value. */
  datatype UrlState = UrlState(url: string, port: string, kind: string, supported: bool)

  /**
   * What `Parse` reads from outside: the H.323 gateway key (a NULL string
   * reads as ""), the default SIP account, the "ekiga.net" account and the
   * "eugw.ast.diamondcard.us" (PC-to-phone) account.
   */
  datatype UrlConfig = UrlConfig(
    gateway: string,
    sipDefault: Option<Account>,
    ekiga: Option<Account>,
    phone: Option<Account>)

  /** `s.Find(c)` for a one-character pattern is membership. */
  lemma ContainsChar(s: string, c: char)
    ensures Contains(s, [c]) <==> c in s
  {
    FindCharIsFind(s, c);
  }

  /** Replacing a prefix (its first occurrence) removes it. */
  lemma ReplacePrefix(s: string, pat: string)
    requires StartsWith(s, pat)
    ensures ReplaceFirst(s, pat, "") == s[|pat|..]
  {
  }

  // ---- construction ----

  /** GMURL(): empty and unsupported. */
  function EmptyUrl(): UrlState
  {
    UrlState("", "", "", false)
  }

  /** The text the constructor classifies: the first "//" removed, then trimmed. */
  function Cleaned(base: string): string
  {
    Trim(ReplaceFirst(base, "//", ""))
  }

  /** The first '#' is the last character. */
  predicate EndsShortcut(u: string)
  {
    u != [] && FindChar(u, '#') == Some(|u| - 1)
  }

  /** None of the three scheme names occurs anywhere. */
  predicate NoScheme(u: string)
  {
    !Contains(u, "h323:") && !Contains(u, "sip:") && !Contains(u, "callto:")
  }

  /** GMURL(base): classification by the cleaned text. */
  function Construct(base: string): (r: UrlState)
    ensures r.port == []
    ensures r.supported <==> r.kind != []
  {
    Classified(Cleaned(base))
  }

  /** The type and address the constructor gives cleaned text. */
  function Classified(u: string): (r: UrlState)
    ensures r.port == []
    ensures r.supported <==> r.kind != []
  {
    if EndsShortcut(u) then
      UrlState(ReplaceFirst(ReplaceFirst(ReplaceFirst(u, "callto:", ""), "h323:", ""), "sip:", ""), "", ShortcutKind, true)
    else if StartsWith(u, "callto:") then UrlState(ReplaceFirst(u, "callto:", ""), "", CalltoKind, true)
    else if StartsWith(u, "h323:") then UrlState(ReplaceFirst(u, "h323:", ""), "", H323Kind, true)
    else if StartsWith(u, "sip:") then UrlState(ReplaceFirst(u, "sip:", ""), "", SipKind, true)
    else if NoScheme(u) then UrlState(u, "", if '/' in u then CalltoKind else SipKind, true)
    else UrlState(u, "", "", false)
  }

  /**
   * A scheme at the start of the cleaned text sets the type and is
   * stripped; callto is tested before h323, and h323 before sip.
   */
  lemma ConstructSchemePrefix(base: string)
    requires !EndsShortcut(Cleaned(base))
    ensures var u := Cleaned(base);
            (StartsWith(u, "callto:") ==> Construct(base) == UrlState(u[7..], "", CalltoKind, true))
            && (!StartsWith(u, "callto:") && StartsWith(u, "h323:") ==> Construct(base) == UrlState(u[5..], "", H323Kind, true))
            && (!StartsWith(u, "callto:") && !StartsWith(u, "h323:") && StartsWith(u, "sip:") ==>
                  Construct(base) == UrlState(u[4..], "", SipKind, true))
  {
    var u := Cleaned(base);
    if StartsWith(u, "callto:") { ReplacePrefix(u, "callto:"); }
    if StartsWith(u, "h323:") { ReplacePrefix(u, "h323:"); }
    if StartsWith(u, "sip:") { ReplacePrefix(u, "sip:"); }
  }

  /**
   * Without any scheme name the text is kept as it is: a callto address
   * when it holds a '/', else a SIP address. A scheme name that occurs
   * only after the start makes the URL unsupported.
   */
  lemma ConstructWithoutLeadingScheme(base: string)
    requires var u := Cleaned(base);
             !EndsShortcut(u) && !StartsWith(u, "callto:") && !StartsWith(u, "h323:") && !StartsWith(u, "sip:")
    ensures var u := Cleaned(base);
            Construct(base).url == u
            && (Construct(base).supported <==> NoScheme(u))
            && (NoScheme(u) ==> Construct(base).kind == (if '/' in u then CalltoKind else SipKind))
  {
  }

  /** Replacing the first occurrence, found at `j`, cuts exactly that occurrence out. */
  lemma ReplaceAtFirst(s: string, pat: string, j: nat)
    requires Text.Find(s, pat) == Some(j)
    ensures j + |pat| <= |s| && ReplaceFirst(s, pat, "") == s[..j] + s[j + |pat|..]
  {
  }

  /**
   * A shortcut is supported, and the first occurrence of each scheme name
   * is cut out in turn (callto, then h323, then sip): a text holding one
   * scheme name loses exactly its first occurrence, as long as the cut
   * does not bring a later scheme name together.
   */
  lemma ConstructShortcut(base: string)
    requires EndsShortcut(Cleaned(base))
    ensures Construct(base).kind == ShortcutKind && Construct(base).supported
    ensures NoScheme(Cleaned(base)) ==> Construct(base).url == Cleaned(base)
    ensures var u := Cleaned(base);
            Text.Find(u, "callto:").Some? ==>
              var j := Text.Find(u, "callto:").value;
              var v := u[..j] + u[j + 7..];
              !Contains(v, "h323:") && !Contains(v, "sip:") ==> Construct(base).url == v
    ensures var u := Cleaned(base);
            !Contains(u, "callto:") && Text.Find(u, "h323:").Some? ==>
              var j := Text.Find(u, "h323:").value;
              var v := u[..j] + u[j + 5..];
              !Contains(v, "sip:") ==> Construct(base).url == v
    ensures var u := Cleaned(base);
            !Contains(u, "callto:") && !Contains(u, "h323:") && Text.Find(u, "sip:").Some? ==>
              var j := Text.Find(u, "sip:").value;
              Construct(base).url == u[..j] + u[j + 4..]
  {
    var u := Cleaned(base);
    if Text.Find(u, "callto:").Some? {
      var j := Text.Find(u, "callto:").value;
      ReplaceAtFirst(u, "callto:", j);
    }
    if !Contains(u, "callto:") && Text.Find(u, "h323:").Some? {
      var j := Text.Find(u, "h323:").value;
      ReplaceAtFirst(u, "h323:", j);
    }
    if !Contains(u, "callto:") && !Contains(u, "h323:") && Text.Find(u, "sip:").Some? {
      var j := Text.Find(u, "sip:").value;
      ReplaceAtFirst(u, "sip:", j);
    }
  }

  /** The copy constructor copies the address, type and support flag, but not the port. */
  function CopyOf(u: UrlState): (r: UrlState)
    ensures r.port == [] && r.url == u.url && r.kind == u.kind && r.supported == u.supported
  {
    UrlState(u.url, "", u.kind, u.supported)
  }

  // ---- Parse ----

  /** The dirty PC-to-phone workaround applies: ekiga.net enabled and default, the phone account enabled. */
  predicate PhoneRewrite(url: string, cfg: UrlConfig)
  {
    StartsWith(url, "00")
    && cfg.ekiga.Some? && cfg.ekiga.value.enabled && cfg.ekiga.value.isDefault
    && cfg.phone.Some? && cfg.phone.value.enabled
  }

  /** A SIP address gets a domain: a default SIP account with a host, and no '@', '.' or '+'. */
  predicate SipNeedsDomain(url: string, cfg: UrlConfig)
  {
    cfg.sipDefault.Some? && cfg.sipDefault.value.host.Some?
    && !Contains(url, "@") && !Contains(url, ".") && !Contains(url, "+")
  }

  /** An H.323 address gets the gateway: one is set and it does not occur already. */
  predicate H323NeedsGateway(url: string, cfg: UrlConfig)
  {
    cfg.gateway != [] && !Contains(url, cfg.gateway)
  }

  /** The address after the first half of Parse: a default domain or gateway appended. */
  function Completed(s: UrlState, cfg: UrlConfig): (r: string)
    ensures s.url == [] || (s.kind != SipKind && s.kind != H323Kind) ==> r == s.url
    ensures s.kind == SipKind && s.url != [] && !SipNeedsDomain(s.url, cfg) ==> r == s.url
    ensures s.kind == SipKind && s.url != [] && SipNeedsDomain(s.url, cfg) ==> '@' in r
    ensures s.kind == H323Kind && s.url != [] ==> (r != s.url <==> H323NeedsGateway(s.url, cfg))
  {
    if s.url == [] then s.url
    else if s.kind == SipKind then
      if SipNeedsDomain(s.url, cfg) then
        if PhoneRewrite(s.url, cfg) then MidFrom(s.url, 2) + "@" + cfg.phone.value.host.GetOr("")
        else s.url + "@" + cfg.sipDefault.value.host.value
      else s.url
    else if s.kind == H323Kind then
      if H323NeedsGateway(s.url, cfg) then s.url + "@" + cfg.gateway else s.url
    else s.url
  }

  /**
   * GMURL::Parse: complete the address, then split it at the first ':'
   * into address and port. Without a ':' the port keeps its old value.
   */
  function Parsed(s: UrlState, cfg: UrlConfig): (r: UrlState)
    ensures r.kind == s.kind && r.supported == s.supported
    ensures ':' !in r.url
    ensures ':' !in Completed(s, cfg) ==> r.url == Completed(s, cfg) && r.port == s.port
    ensures ':' in Completed(s, cfg) ==> r.url + ":" + r.port == Completed(s, cfg)
  {
    var w := Completed(s, cfg);
    match FindChar(w, ':')
    case Some(j) => s.(url := Left(w, j), port := MidFrom(w, j + 1))
    case None => s.(url := w)
  }

  /** A SIP address without '@', '.' or '+' is completed with the default account's host. */
  lemma SipDefaultDomain(s: UrlState, cfg: UrlConfig)
    requires s.kind == SipKind && s.url != [] && SipNeedsDomain(s.url, cfg) && !PhoneRewrite(s.url, cfg)
    ensures Completed(s, cfg) == s.url + "@" + cfg.sipDefault.value.host.value
  {
  }

  /** A "00" number, with the PC-to-phone accounts set up, goes to the phone account's host without the "00". */
  lemma SipPhoneNumber(s: UrlState, cfg: UrlConfig)
    requires s.kind == SipKind && s.url != [] && SipNeedsDomain(s.url, cfg) && PhoneRewrite(s.url, cfg)
    ensures Completed(s, cfg) == s.url[2..] + "@" + cfg.phone.value.host.GetOr("")
  {
    StartsWithIsPrefix(s.url, "00");
  }

  /** An H.323 address without the gateway in it gets "@gateway". */
  lemma H323Gateway(s: UrlState, cfg: UrlConfig)
    requires s.kind == H323Kind && s.url != [] && H323NeedsGateway(s.url, cfg)
    ensures Completed(s, cfg) == s.url + "@" + cfg.gateway
  {
  }

  /**
   * The canonical form rebuilds the completed address when it had a ':'
   * with text on both sides of it.
   */
  lemma CanonicalOfParsed(s: UrlState, cfg: UrlConfig)
    requires var w := Completed(s, cfg);
             ':' in w && w[0] != ':' && w[|w| - 1] != ':' && FindChar(w, ':').value < |w| - 1
    ensures Canonical(Parsed(s, cfg)) == Completed(s, cfg)
  {
    var w := Completed(s, cfg);
    var j := FindChar(w, ':').value;
    assert j > 0;
  }

  /**
   * Parsing an address a second time changes nothing once the first parse
   * left nothing to complete (a SIP address with an '@', an H.323 address
   * holding the gateway).
   */
  lemma ParseSettles(s: UrlState, cfg: UrlConfig)
    requires Completed(Parsed(s, cfg), cfg) == Parsed(s, cfg).url
    ensures Parsed(Parsed(s, cfg), cfg) == Parsed(s, cfg)
  {
  }

  /**
   * It is not idempotent in general: "a:b.c" keeps its '.' only until the
   * split, so a second parse appends the default host.
   */
  lemma ParseNotIdempotent(cfg: UrlConfig)
    requires cfg.sipDefault.Some? && cfg.sipDefault.value.host == Some("h")
    ensures var s := UrlState("a:b.c", "", SipKind, true);
            Parsed(s, cfg) == UrlState("a", "b.c", SipKind, true)
            && Parsed(Parsed(s, cfg), cfg) == UrlState("a@h", "b.c", SipKind, true)
  {
    ParseDotted(cfg);
    ParseBare(cfg);
  }

  lemma ParseDotted(cfg: UrlConfig)
    ensures Parsed(UrlState("a:b.c", "", SipKind, true), cfg) == UrlState("a", "b.c", SipKind, true)
  {
    var u := "a:b.c";
    ContainsChar(u, '.');
    assert u[3] == '.';
    assert Completed(UrlState(u, "", SipKind, true), cfg) == u;
    assert u == "a" + [':'] + "b.c";
    FindCharOfConcat("a", ':', "b.c");
  }

  lemma ParseBare(cfg: UrlConfig)
    requires cfg.sipDefault.Some? && cfg.sipDefault.value.host == Some("h")
    ensures Parsed(UrlState("a", "b.c", SipKind, true), cfg) == UrlState("a@h", "b.c", SipKind, true)
  {
    ContainsChar("a", '@');
    ContainsChar("a", '.');
    ContainsChar("a", '+');
    assert !StartsWith("a", "00") by { StartsWithIsPrefix("a", "00"); }
    assert Completed(UrlState("a", "b.c", SipKind, true), cfg) == "a@h";
    assert ':' !in "a@h";
  }

  // ---- rendering ----

  /** GetFullURL's first step: an empty port of a SIP or H.323 address becomes the default one. */
  function WithDefaultPort(s: UrlState): (r: UrlState)
    ensures r.url == s.url && r.kind == s.kind && r.supported == s.supported
    ensures s.port != [] || (s.kind != SipKind && s.kind != H323Kind) ==> r.port == s.port
    ensures s.kind == SipKind && s.port == [] ==> r.port == SipDefaultPort
    ensures s.kind == H323Kind && s.port == [] ==> r.port == H323DefaultPort
  {
    if s.kind == SipKind && s.port == [] then s.(port := SipDefaultPort)
    else if s.kind == H323Kind && s.port == [] then s.(port := H323DefaultPort)
    else s
  }

  /** The state GetFullURL leaves behind: parsed when supported, defaulted port. */
  function Prepared(s: UrlState, cfg: UrlConfig): UrlState
  {
    WithDefaultPort(if s.supported then Parsed(s, cfg) else s)
  }

  function DefaultPortOf(kind: string): string
  {
    if kind == SipKind then SipDefaultPort else H323DefaultPort
  }

  /** The text GetFullURL builds from a prepared state. */
  function FullText(p: UrlState, includeDefaultPort: bool): (r: string)
    ensures (!p.supported && p.kind != ShortcutKind && p.kind != SipKind && p.kind != H323Kind
             && !(p.kind == CalltoKind && '/' in p.url && !Contains(p.url, "type"))) ==> r == []
    ensures p.kind == ShortcutKind ==> r == Left(p.url, |p.url| - 1)
    ensures p.supported && p.kind == CalltoKind && !('/' in p.url && !Contains(p.url, "type")) ==> r == "callto:" + p.url
    ensures p.kind == SipKind || p.kind == H323Kind ==>
              |r| >= |p.kind| + 1 + |p.url| && r[..|p.kind| + 1 + |p.url|] == p.kind + ":" + p.url
  {
    if p.kind == ShortcutKind then Left(p.url, |p.url| - 1)
    else if p.kind == CalltoKind && '/' in p.url && !Contains(p.url, "type") then "callto:" + p.url + "+type=directory"
    else if p.kind == SipKind || p.kind == H323Kind then
      if includeDefaultPort || p.port != DefaultPortOf(p.kind) then p.kind + ":" + p.url + ":" + p.port
      else p.kind + ":" + p.url
    else if p.supported then p.kind + ":" + p.url
    else ""
  }

  /** GMURL::GetFullURL. */
  function FullUrl(s: UrlState, includeDefaultPort: bool, cfg: UrlConfig): string
  {
    FullText(Prepared(s, cfg), includeDefaultPort)
  }

  /** FullText on a prepared SIP or H.323 state: the port suffix and when it appears. */
  lemma FullTextPort(p: UrlState, includeDefaultPort: bool)
    requires p.kind == SipKind || p.kind == H323Kind
    ensures var r := FullText(p, includeDefaultPort);
            (includeDefaultPort || p.port != DefaultPortOf(p.kind) <==> |r| > |p.kind| + 1 + |p.url| + |p.port|)
            && (|r| > |p.kind| + 1 + |p.url| ==> r[|p.kind| + 1 + |p.url|..] == ":" + p.port)
            && (|r| == |p.kind| + 1 + |p.url| ==> p.port == DefaultPortOf(p.kind))
  {
    var n := |p.kind| + 1 + |p.url|;
    if includeDefaultPort || p.port != DefaultPortOf(p.kind) {
      var r := p.kind + ":" + p.url + ":" + p.port;
      assert FullText(p, includeDefaultPort) == r;
      assert r[n..] == ":" + p.port;
    } else {
      assert FullText(p, includeDefaultPort) == p.kind + ":" + p.url;
    }
  }

  /**
   * For a SIP or H.323 address the port is written exactly when it is
   * asked for or is not the protocol's default; it is then the text after
   * the last ':'.
   */
  lemma FullUrlPort(s: UrlState, includeDefaultPort: bool, cfg: UrlConfig)
    requires s.supported && (s.kind == SipKind || s.kind == H323Kind)
    ensures var p := Prepared(s, cfg);
            var r := FullUrl(s, includeDefaultPort, cfg);
            p.port != []
            && (includeDefaultPort || p.port != DefaultPortOf(s.kind) <==> |r| > |s.kind| + 1 + |p.url|)
            && (|r| > |s.kind| + 1 + |p.url| ==> r[|s.kind| + 1 + |p.url|..] == ":" + p.port)
            && (|r| == |s.kind| + 1 + |p.url| ==> p.port == DefaultPortOf(s.kind))
  {
    var q := Parsed(s, cfg);
    assert q.kind == s.kind;
    var p := WithDefaultPort(q);
    assert p == Prepared(s, cfg) && p.kind == s.kind && p.port != [];
    FullTextPort(p, includeDefaultPort);
  }

  /** A URL that is not supported renders as the empty text. */
  lemma FullUrlUnsupported(base: string, includeDefaultPort: bool, cfg: UrlConfig)
    requires !Construct(base).supported
    ensures FullUrl(Construct(base), includeDefaultPort, cfg) == []
  {
  }

  /** A callto directory address without a "type" gets "+type=directory". */
  lemma FullUrlDirectory(s: UrlState, includeDefaultPort: bool, cfg: UrlConfig)
    requires s.kind == CalltoKind
    requires var u := Prepared(s, cfg).url; '/' in u && !Contains(u, "type")
    ensures FullUrl(s, includeDefaultPort, cfg) == "callto:" + Prepared(s, cfg).url + "+type=directory"
  {
  }

  /** Text the constructor keeps as it is: no "//", nothing to trim, not a shortcut. */
  predicate Clean(t: string)
  {
    !Contains(t, "//") && Trim(t) == t && !EndsShortcut(t)
  }

  lemma CleanIsCleaned(t: string)
    requires Clean(t)
    ensures Cleaned(t) == t && !EndsShortcut(t)
  {
  }

  /** Text starting with "sip:" starts with neither of the schemes tested before it. */
  lemma SipTextSchemes(t: string)
    requires |t| >= 4 && t[..4] == "sip:"
    ensures !StartsWith(t, "callto:") && !StartsWith(t, "h323:") && StartsWith(t, "sip:")
  {
    assert t[0] == 's';
    StartsWithIsPrefix(t, "callto:");
    StartsWithIsPrefix(t, "h323:");
    StartsWithIsPrefix(t, "sip:");
  }

  /** The classification of cleaned text that starts with "sip:". */
  lemma ConstructOfSipScheme(t: string)
    requires Cleaned(t) == t && !EndsShortcut(t)
    requires !StartsWith(t, "callto:") && !StartsWith(t, "h323:") && StartsWith(t, "sip:")
    ensures Construct(t) == UrlState(t[4..], "", SipKind, true)
  {
    ReplacePrefix(t, "sip:");
  }

  /** Clean text starting with "sip:" constructs a SIP URL of the rest. */
  lemma ConstructSipText(t: string)
    requires Clean(t) && |t| >= 4 && t[..4] == "sip:"
    ensures Construct(t) == UrlState(t[4..], "", SipKind, true)
  {
    CleanIsCleaned(t);
    SipTextSchemes(t);
    ConstructOfSipScheme(t);
  }

  /** A SIP address "user@host:port" parses into its address and port. */
  lemma ParseSipAddress(u: string, port: string, cfg: UrlConfig)
    requires '@' in u && ':' !in u
    ensures Parsed(UrlState(u + ":" + port, "", SipKind, true), cfg) == UrlState(u, port, SipKind, true)
  {
    var v := u + [':'] + port;
    assert v == u + ":" + port;
    var s := UrlState(v, "", SipKind, true);
    assert '@' in v by { var k :| 0 <= k < |u| && u[k] == '@'; assert v[k] == '@'; }
    ContainsChar(v, '@');
    assert Completed(s, cfg) == v;
    FindCharOfConcat(u, ':', port);
    assert v[..|u|] == u && v[|u| + 1..] == port;
  }

  /**
   * A full SIP address "sip:user@host:port", given to the constructor and
   * parsed, names the same address and port again.
   */
  lemma SipTextRoundTrip(u: string, port: string, cfg: UrlConfig)
    requires '@' in u && ':' !in u && Clean("sip:" + u + ":" + port)
    ensures Parsed(Construct("sip:" + u + ":" + port), cfg) == UrlState(u, port, SipKind, true)
  {
    var t := "sip:" + u + ":" + port;
    SipTextParts(t, u, port);
    ConstructSipText(t);
    ParseSipAddress(u, port, cfg);
  }

  lemma SipTextParts(t: string, u: string, port: string)
    requires t == "sip:" + u + ":" + port
    ensures |t| >= 4 && t[..4] == "sip:" && t[4..] == u + ":" + port
  {
  }

  /**
   * The full URL of a parsed SIP address with a port, constructed and
   * parsed again, gives the address and port it was rendered from.
   */
  lemma SipFullUrlRoundTrip(s: UrlState, cfg: UrlConfig)
    requires s.supported && s.kind == SipKind
    requires var p := Prepared(s, cfg); '@' in p.url && Clean("sip:" + p.url + ":" + p.port)
    ensures var p := Prepared(s, cfg);
            Parsed(Construct(FullUrl(s, true, cfg)), cfg) == p
  {
    var p := Prepared(s, cfg);
    SipFullTextWithPort(s, cfg);
    SipTextRoundTrip(p.url, p.port, cfg);
  }

  lemma SipFullTextWithPort(s: UrlState, cfg: UrlConfig)
    requires s.supported && s.kind == SipKind
    ensures var p := Prepared(s, cfg);
            FullUrl(s, true, cfg) == "sip:" + p.url + ":" + p.port && ':' !in p.url
            && p == UrlState(p.url, p.port, SipKind, true)
  {
  }

  // ---- canonical form, callto parts, matching ----

  /** GetCanonicalURL: "url:port" when both are set, else the address alone. */
  function Canonical(s: UrlState): (r: string)
    ensures |r| >= |s.url| && r[..|s.url|] == s.url
    ensures |r| > |s.url| <==> s.url != [] && s.port != []
    ensures |r| > |s.url| ==> r[|s.url|..] == ":" + s.port
  {
    if s.url != [] && s.port != [] then s.url + ":" + s.port else s.url
  }

  /** GetCalltoServer: the part before the first '/' of a callto address. */
  function CalltoServer(s: UrlState): (r: string)
    ensures s.kind != CalltoKind ==> r == []
    ensures '/' !in r
    ensures s.kind == CalltoKind ==> |r| <= |s.url| && r == s.url[..|r|]
    ensures s.kind == CalltoKind && '/' !in s.url ==> r == s.url
  {
    if s.kind == CalltoKind then
      match FindChar(s.url, '/')
      case Some(i) => Left(s.url, i)
      case None => s.url
    else []
  }

  /** GetCalltoEmail: the part after the first '/' of a callto address. */
  function CalltoEmail(s: UrlState): (r: string)
    ensures s.kind != CalltoKind || '/' !in s.url ==> r == []
  {
    if s.kind == CalltoKind then
      match FindChar(s.url, '/')
      case Some(i) => MidFrom(s.url, i + 1)
      case None => []
    else []
  }

  /** The server and the e-mail part with the '/' between them make up a callto directory address. */
  lemma CalltoParts(s: UrlState)
    requires s.kind == CalltoKind && '/' in s.url
    ensures CalltoServer(s) + "/" + CalltoEmail(s) == s.url
  {
    var u := s.url;
    var i := FindChar(u, '/').value;
    assert i < |u| && u[i] == '/';
    assert CalltoServer(s) == u[..i];
    assert CalltoEmail(s) == u[i + 1..];
    assert u[..i] + "/" + u[i + 1..] == u by {
      assert u[..i] + [u[i]] + u[i + 1..] == u[..i + 1] + u[i + 1..];
    }
  }

  /**
   * GMURL::Find(u). The argument is passed by value, so the copy (with no
   * port) is what is matched: canonical form of the copy is its address.
   */
  function Matches(s: UrlState, u: UrlState): bool
  {
    var c := CopyOf(u);
    var e := CalltoEmail(s);
    if e != [] then
      if CalltoEmail(c) != [] then StartsWith(e, CalltoEmail(c)) else StartsWith(e, Canonical(c))
    else StartsWith(s.url, Canonical(c))
  }

  /** `p` is a non-empty prefix of `t`. */
  predicate NonEmptyPrefix(p: string, t: string)
  {
    p != [] && |p| <= |t| && t[..|p|] == p
  }

  /**
   * Matching is a prefix test: of the other's e-mail part (or address) on
   * this URL's e-mail part when it has one, else of the other's address on
   * this address.
   */
  lemma MatchesIsPrefix(s: UrlState, u: UrlState)
    ensures Matches(s, u) <==>
      if CalltoEmail(s) != [] then
        if CalltoEmail(u) != [] then NonEmptyPrefix(CalltoEmail(u), CalltoEmail(s))
        else NonEmptyPrefix(u.url, CalltoEmail(s))
      else NonEmptyPrefix(u.url, s.url)
  {
    var c := CopyOf(u);
    assert CalltoEmail(c) == CalltoEmail(u);
    assert Canonical(c) == u.url;
    StartsWithIsPrefix(CalltoEmail(s), CalltoEmail(u));
    StartsWithIsPrefix(CalltoEmail(s), u.url);
    StartsWithIsPrefix(s.url, u.url);
  }

  /** The other URL's port plays no part in matching. */
  lemma MatchesIgnoresPort(s: UrlState, u: UrlState, port: string)
    ensures Matches(s, u) == Matches(s, u.(port := port))
  {
  }

  // ---- comparison ----

  /**
   * operator==: the full URLs of this URL and of the argument's copy,
   * compared ignoring case. The default of the port argument is not part
   * of this model; it is a parameter.
   */
  function Equal(s: UrlState, u: UrlState, includeDefaultPort: bool, cfg: UrlConfig): bool
  {
    EqualsIgnoreCase(FullUrl(s, includeDefaultPort, cfg), FullUrl(CopyOf(u), includeDefaultPort, cfg))
  }

  /** A URL not yet parsed (no port set) equals itself. */
  lemma EqualReflexiveBeforeParse(s: UrlState, includeDefaultPort: bool, cfg: UrlConfig)
    requires s.port == []
    ensures Equal(s, s, includeDefaultPort, cfg)
  {
    assert CopyOf(s) == s;
  }

  /**
   * Once parsed with a port other than 5060, a SIP URL no longer equals
   * itself: its copy has lost the port and renders with the default one.
   */
  lemma SelfComparisonAfterParse(s: UrlState, includeDefaultPort: bool, cfg: UrlConfig)
    requires s.supported && s.kind == SipKind && '@' in s.url && ':' !in s.url
    requires s.port != [] && s.port != SipDefaultPort
    ensures !Equal(s, s, includeDefaultPort, cfg)
  {
    var c := CopyOf(s);
    assert c.url == s.url && c.kind == SipKind && c.supported && c.port == [];
    ParsedAddressSettled(s, cfg);
    ParsedAddressSettled(c, cfg);
    assert Prepared(s, cfg) == s;
    assert Prepared(c, cfg) == c.(port := SipDefaultPort);
    var a := FullText(s, includeDefaultPort);
    var b := FullText(c.(port := SipDefaultPort), includeDefaultPort);
    assert FullUrl(s, includeDefaultPort, cfg) == a && FullUrl(c, includeDefaultPort, cfg) == b;
    assert a == "sip:" + s.url + ":" + s.port;
    if includeDefaultPort {
      assert b == "sip:" + s.url + ":" + SipDefaultPort;
      DifferentPortsDiffer(s.url, s.port);
    } else {
      assert b == "sip:" + s.url;
      assert |ToLower(a)| != |ToLower(b)|;
    }
  }

  /** A SIP address with an '@' and no ':' is left as it is by Parse. */
  lemma ParsedAddressSettled(s: UrlState, cfg: UrlConfig)
    requires s.kind == SipKind && '@' in s.url && ':' !in s.url
    ensures Parsed(s, cfg) == s
  {
    ContainsChar(s.url, '@');
  }

  /** Two SIP texts that differ in their port, other than in letter case, are not equal ignoring case. */
  lemma DifferentPortsDiffer(url: string, port: string)
    requires port != SipDefaultPort
    ensures !EqualsIgnoreCase("sip:" + url + ":" + port, "sip:" + url + ":" + SipDefaultPort)
  {
    var a := "sip:" + url + ":" + port;
    var b := "sip:" + url + ":" + SipDefaultPort;
    var k := 5 + |url|;
    if |a| == |b| {
      var i :| 0 <= i < 4 && port[i] != SipDefaultPort[i];
      assert a[k + i] == port[i] && b[k + i] == SipDefaultPort[i];
      assert ToLower(a)[k + i] == LowerChar(port[i]) && ToLower(b)[k + i] == LowerChar(SipDefaultPort[i]);
      assert '0' <= SipDefaultPort[i] <= '9';
    } else {
      assert |ToLower(a)| != |ToLower(b)|;
    }
  }

  /** GetURL: parse when supported, then "type:" and the canonical form. */
  function UrlText(s: UrlState, cfg: UrlConfig): string
  {
    var p := if s.supported then Parsed(s, cfg) else s;
    p.kind + ":" + Canonical(p)
  }

  /** The fields of one GMURL object. */
  class GMURL {
    var url: string
    var port: string
    var kind: string
    var isSupported: bool

    function State(): UrlState
      reads this
    {
      UrlState(url, port, kind, isSupported)
    }

    /** GMURL(): unsupported, empty. */
    constructor Empty()
      ensures State() == EmptyUrl()
    {
      url := "";
      port := "";
      kind := "";
      isSupported := false;
    }

    /** GMURL(base). */
    constructor (base: string)
      ensures State() == Construct(base)
    {
      var b := ReplaceFirst(base, "//", "");
      var u := Trim(b);
      url := u;
      port := "";
      kind := "";
      isSupported := false;
      new;
      Classify(u);
    }

    /** The constructor's tests on the cleaned text, in their order. */
    method Classify(u: string)
      modifies this
      ensures State() == Classified(u)
    {
      port := "";
      if EndsShortcut(u) {
        var v := ReplaceFirst(u, "callto:", "");
        v := ReplaceFirst(v, "h323:", "");
        v := ReplaceFirst(v, "sip:", "");
        url := v;
        kind := ShortcutKind;
        isSupported := true;
      } else if StartsWith(u, "callto:") {
        url := ReplaceFirst(u, "callto:", "");
        kind := CalltoKind;
        isSupported := true;
      } else if StartsWith(u, "h323:") {
        url := ReplaceFirst(u, "h323:", "");
        kind := H323Kind;
        isSupported := true;
      } else if StartsWith(u, "sip:") {
        url := ReplaceFirst(u, "sip:", "");
        kind := SipKind;
        isSupported := true;
      } else if NoScheme(u) {
        url := u;
        kind := if FindChar(u, '/').Some? then CalltoKind else SipKind;
        isSupported := true;
      } else {
        url := u;
        kind := "";
        isSupported := false;
      }
    }

    /** GMURL(const GMURL &): the port is not copied. */
    constructor Copy(u: GMURL)
      ensures State() == CopyOf(u.State())
    {
      isSupported := u.isSupported;
      kind := u.kind;
      url := u.url;
      port := "";
    }

    /** GMURL::Parse. */
    method Parse(cfg: UrlConfig)
      modifies this
      ensures State() == Parsed(old(State()), cfg)
    {
      Complete(cfg);
      var j := FindChar(url, ':');
      if j.Some? {
        port := MidFrom(url, j.value + 1);
        url := Left(url, j.value);
      }
    }

    /** The first half of Parse: append a default domain or the gateway. */
    method Complete(cfg: UrlConfig)
      modifies this
      ensures State() == old(State()).(url := Completed(old(State()), cfg))
    {
      if url != [] {
        if kind == SipKind {
          if cfg.sipDefault.Some? && cfg.sipDefault.value.host.Some?
             && Text.Find(url, "@").None? && Text.Find(url, ".").None? && Text.Find(url, "+").None?
          {
            if Text.Find(url, "00") == Some(0)
               && cfg.ekiga.Some? && cfg.ekiga.value.enabled && cfg.ekiga.value.isDefault
               && cfg.phone.Some? && cfg.phone.value.enabled
            {
              url := MidFrom(url, 2) + "@" + cfg.phone.value.host.GetOr("");
            } else {
              url := url + "@" + cfg.sipDefault.value.host.value;
            }
          }
        } else if kind == H323Kind {
          if cfg.gateway != [] && Text.Find(url, cfg.gateway).None? {
            url := url + "@" + cfg.gateway;
          }
        }
      }
    }

    /** GMURL::GetFullURL: parses a supported URL and sets the default port as it renders. */
    method GetFullURL(includeDefaultPort: bool, cfg: UrlConfig) returns (fullUrl: string)
      modifies this
      ensures fullUrl == FullUrl(old(State()), includeDefaultPort, cfg)
      ensures State() == Prepared(old(State()), cfg)
    {
      fullUrl := "";
      if isSupported {
        Parse(cfg);
      }
      if kind == ShortcutKind {
        fullUrl := Left(url, |url| - 1);
      } else if kind == CalltoKind && FindChar(url, '/').Some? && Text.Find(url, "type").None? {
        fullUrl := "callto:" + url + "+type=directory";
      } else if kind == SipKind {
        if port == [] {
          port := SipDefaultPort;
        }
        if includeDefaultPort || port != SipDefaultPort {
          fullUrl := kind + ":" + url + ":" + port;
        } else {
          fullUrl := kind + ":" + url;
        }
      } else if kind == H323Kind {
        if port == [] {
          port := H323DefaultPort;
        }
        if includeDefaultPort || port != H323DefaultPort {
          fullUrl := kind + ":" + url + ":" + port;
        } else {
          fullUrl := kind + ":" + url;
        }
      } else if isSupported {
        fullUrl := kind + ":" + url;
      }
    }

    /** GMURL::GetURL: parses a supported URL. */
    method GetURL(cfg: UrlConfig) returns (r: string)
      modifies this
      ensures r == UrlText(old(State()), cfg)
      ensures State() == if old(State()).supported then Parsed(old(State()), cfg) else old(State())
    {
      if isSupported {
        Parse(cfg);
      }
      r := kind + ":" + Canonical(State());
    }

    /** GMURL::Find(u), on the argument's copy. */
    method Find(u: GMURL) returns (r: bool)
      ensures r == Matches(State(), u.State())
    {
      var c := new GMURL.Copy(u);
      var email := CalltoEmail(State());
      if email != [] {
        var other := CalltoEmail(c.State());
        if other != [] {
          r := StartsWith(email, other);
        } else {
          r := StartsWith(email, Canonical(c.State()));
        }
      } else {
        r := StartsWith(url, Canonical(c.State()));
      }
    }

    /** operator== (and, negated, operator!=): renders this URL, and the argument's copy. */
    method Equals(u: GMURL, includeDefaultPort: bool, cfg: UrlConfig) returns (r: bool)
      modifies this
      ensures r == Equal(old(State()), old(u.State()), includeDefaultPort, cfg)
      ensures State() == Prepared(old(State()), cfg)
    {
      var c := new GMURL.Copy(u);
      var mine := GetFullURL(includeDefaultPort, cfg);
      var theirs := c.GetFullURL(includeDefaultPort, cfg);
      r := EqualsIgnoreCase(mine, theirs);
    }
  }

  // ---- the URL handler ----

  /** What GMURLHandler::Main does. */
  datatype HandlerAction =
    | AcceptIncoming            // answer the call ringing now
    | NoAction                  // empty URL
    | InvalidUrl                // error dialog: handler not supported
    | PlaceCall(address: string)
    | ForwardTo(address: string)
    | TransferTo(address: string)

  /** The address the handler dials: GetURL is called twice, so a supported URL is parsed twice. */
  function HandlerAddress(s: UrlState, cfg: UrlConfig): string
  {
    UrlText(if s.supported then Parsed(s, cfg) else s, cfg)
  }

  /** GMURLHandler(c, transfer) followed by Main, in calling state `state`. */
  function Dispatch(c: string, transfer: bool, state: CallingState, cfg: UrlConfig): (r: HandlerAction)
    ensures r == AcceptIncoming <==> state == Called && !transfer
    ensures r == NoAction <==> !(state == Called && !transfer) && Construct(c).url == []
    ensures r == InvalidUrl <==> !(state == Called && !transfer) && Construct(c).url != [] && !Construct(c).supported
    ensures r.PlaceCall? <==> !transfer && state != Called && Construct(c).url != [] && Construct(c).supported
    ensures r.ForwardTo? <==> transfer && state == Called && Construct(c).url != [] && Construct(c).supported
    ensures r.TransferTo? <==> transfer && state != Called && Construct(c).url != [] && Construct(c).supported
    ensures r.PlaceCall? || r.ForwardTo? || r.TransferTo? ==> r.address == HandlerAddress(Construct(c), cfg)
  {
    var s := Construct(c);
    if state == Called && !transfer then AcceptIncoming
    else if s.url == [] then NoAction
    else if !s.supported then InvalidUrl
    else if !transfer then PlaceCall(HandlerAddress(s, cfg))
    else if state == Called then ForwardTo(HandlerAddress(s, cfg))
    else TransferTo(HandlerAddress(s, cfg))
  }

  /** The handler thread's decisions, on its own GMURL object. */
  method HandleUrl(c: string, transfer: bool, state: CallingState, cfg: UrlConfig) returns (action: HandlerAction)
    ensures action == Dispatch(c, transfer, state, cfg)
  {
    var url := new GMURL(c);
    if state == Called && !transfer {
      return AcceptIncoming;
    }
    if url.url == [] {
      return NoAction;
    }
    var address := url.GetURL(cfg);
    if !url.isSupported {
      return InvalidUrl;
    }
    address := url.GetURL(cfg);
    if !transfer {
      action := PlaceCall(address);
    } else if state == Called {
      action := ForwardTo(address);
    } else {
      action := TransferTo(address);
    }
  }
}
