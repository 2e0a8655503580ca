/**
  Sign-in challenges: composing a message, keeping it in the cache under the normalised
  wallet, and taking it out again.
 */
module Siwe {
  import opened Wrappers
  import opened Text
  import opened Encoding
  import opened TtlCache
  import opened SiweMessage

  const NONCE_LENGTH := 8

  datatype Url = Url(scheme: string, hostname: string, path: string, rawQuery: string, fragment: string)

  /** The URL library: parsing a request URI, and printing a URL again. */
  datatype Web = Web(parse: string -> Option<Url>, show: Url -> string)

  /** Neither parsing nor printing lets a line break through. */
  ghost predicate NoControlCharacters(web: Web) {
    && (forall s :: web.parse(s).Some? ==> OneLine(web.parse(s).value.hostname))
    && (forall u :: OneLine(web.show(u)))
  }

  datatype Config = Config(serviceName: string, development: bool, allowedOrigins: seq<string>,
                           chainSupported: nat -> bool)

  function TrimWww(host: string): string { if HasPrefix(host, "www.") then host[4..] else host }

  /* ---------- Allowed domains ---------- */

  /** A malformed origin in the configuration crashes the search that reaches it. */
  datatype DomainVerdict = Allowed | NotAllowed | Crash

  function Origin(web: Web, origin: string): Option<string> {
    match web.parse(TrimSpace(origin))
    case None => None
    case Some(url) => Some(TrimWww(url.hostname))
  }

  function SearchOrigins(web: Web, domain: string, origins: seq<string>): DomainVerdict {
    if origins == [] then NotAllowed
    else if Origin(web, origins[0]).None? then Crash
    else if Origin(web, origins[0]).value == domain then Allowed
    else SearchOrigins(web, domain, origins[1..])
  }

  /** siwe.go, isDomainAllowed */
  method IsDomainAllowed(web: Web, domain: string, allowedOrigins: seq<string>) returns (verdict: DomainVerdict)
    ensures verdict == SearchOrigins(web, domain, allowedOrigins)
  {
    for i := 0 to |allowedOrigins|
      invariant SearchOrigins(web, domain, allowedOrigins) == SearchOrigins(web, domain, allowedOrigins[i..])
    {
      var parsedOrigin := web.parse(TrimSpace(allowedOrigins[i]));
      if parsedOrigin.None? {
        return Crash;
      }
      if TrimWww(parsedOrigin.value.hostname) == domain {
        return Allowed;
      }
    }
    return NotAllowed;
  }

  /** An origin that ends the search. */
  predicate Deciding(web: Web, domain: string, origin: string) {
    Origin(web, origin).None? || Origin(web, origin).value == domain
  }

  /** The first origin that is malformed or matches decides; i is its position, or the length. */
  lemma {:induction false} FirstOriginDecides(web: Web, domain: string, origins: seq<string>, i: nat)
    requires i <= |origins| && forall j | 0 <= j < i :: !Deciding(web, domain, origins[j])
    requires i < |origins| ==> Deciding(web, domain, origins[i])
    ensures SearchOrigins(web, domain, origins)
         == if i == |origins| then NotAllowed else if Origin(web, origins[i]).None? then Crash else Allowed
  {
    if i > 0 {
      assert !Deciding(web, domain, origins[0]);
      assert forall j | 0 <= j < i - 1 :: origins[1..][j] == origins[j + 1];
      FirstOriginDecides(web, domain, origins[1..], i - 1);
    }
  }

  /* ---------- Composing a challenge ---------- */

  datatype Refusal = BadWallet | DomainRefused | ChainRefused | UriMalformed | HostMismatch | SchemeRefused
                   | Crashed | CacheFailed | NotFound

  /** What a client asks for; `draw` is the random number behind the nonce. */
  datatype Request = Request(domain: string, uri: string, chainId: nat, wallet: string, draw: nat)

  datatype Challenge = Challenge(wallet: string, message: string, nonce: string, issuedAt: int, expiresAt: int)

  /** The checks of a request, in the order they are made; Ok carries the URL without query and fragment. */
  function CheckedUrl(web: Web, config: Config, r: Request): Result<Url, Refusal> {
    if !IsHexAddress(NormalizeHex(r.wallet)) then Err(BadWallet) else
    match SearchOrigins(web, r.domain, config.allowedOrigins)
    case Crash => Err(Crashed)
    case NotAllowed => Err(DomainRefused)
    case Allowed =>
      if !config.chainSupported(r.chainId) then Err(ChainRefused) else
      match web.parse(TrimSpace(r.uri))
      case None => Err(UriMalformed)
      case Some(url) =>
        if TrimWww(url.hostname) != r.domain then Err(HostMismatch)
        else if url.scheme != "https" && !config.development then Err(SchemeRefused)
        else Ok(url.(rawQuery := "", fragment := ""))
  }

  function ChallengeFields(web: Web, calendar: Calendar, r: Request, url: Url, now: int): Fields {
    FieldsAt(calendar, r.domain, NormalizeHex(r.wallet), web.show(url), r.chainId,
             ZeroPadded(r.draw, NONCE_LENGTH), now)
  }

  /** The challenge a request gets at a given time, or why it gets none. */
  function Compose(web: Web, calendar: Calendar, config: Config, r: Request, now: int): Result<Challenge, Refusal> {
    match CheckedUrl(web, config, r)
    case Err(refusal) => Err(refusal)
    case Ok(url) =>
      var f := ChallengeFields(web, calendar, r, url, now);
      Ok(Challenge(f.wallet, Render(f), f.nonce, now, now + EXPIRATION))
  }

  /* ---------- When a challenge is composed ---------- */

  /** The host names the domain, as it is or after one `www.`. */
  predicate NamesDomain(host: string, domain: string) {
    host == "www." + domain || (host == domain && !HasPrefix(host, "www."))
  }

  lemma TrimWwwExact(host: string, domain: string)
    ensures TrimWww(host) == domain <==> NamesDomain(host, domain)
  {
    if HasPrefix(host, "www.") {
      assert host == "www." + host[4..];
      assert ("www." + domain)[4..] == domain;
    }
    assert HasPrefix("www." + domain, "www.");
  }

  /** Origin i names the domain, and no origin before it does or is malformed. */
  predicate FirstNames(web: Web, origins: seq<string>, domain: string, i: nat) {
    && i < |origins|
    && web.parse(TrimSpace(origins[i])).Some? && NamesDomain(web.parse(TrimSpace(origins[i])).value.hostname, domain)
    && forall j | 0 <= j < i ::
         && web.parse(TrimSpace(origins[j])).Some?
         && !NamesDomain(web.parse(TrimSpace(origins[j])).value.hostname, domain)
  }

  lemma DecidingExact(web: Web, domain: string, origin: string)
    ensures var url := web.parse(TrimSpace(origin));
            Deciding(web, domain, origin) <==> url.None? || NamesDomain(url.value.hostname, domain)
  {
    var url := web.parse(TrimSpace(origin));
    if url.Some? {
      TrimWwwExact(url.value.hostname, domain);
    }
  }

  /** The position of the first origin that ends the search, or the length. */
  lemma {:induction false} FirstDeciding(web: Web, domain: string, origins: seq<string>) returns (i: nat)
    ensures i <= |origins| && forall j | 0 <= j < i :: !Deciding(web, domain, origins[j])
    ensures i < |origins| ==> Deciding(web, domain, origins[i])
  {
    if origins == [] || Deciding(web, domain, origins[0]) {
      i := 0;
    } else {
      i := FirstDeciding(web, domain, origins[1..]);
      i := i + 1;
      assert forall j | 1 <= j < |origins| :: origins[1..][j - 1] == origins[j];
    }
  }

  lemma AllowedExact(web: Web, domain: string, origins: seq<string>)
    ensures SearchOrigins(web, domain, origins).Allowed? <==> exists i :: FirstNames(web, origins, domain, i)
  {
    hide TrimSpace, NamesDomain, TrimWww, Deciding, SearchOrigins;
    forall o ensures var url := web.parse(TrimSpace(o));
                     Deciding(web, domain, o) <==> url.None? || NamesDomain(url.value.hostname, domain)
    {
      DecidingExact(web, domain, o);
    }
    var i := FirstDeciding(web, domain, origins);
    FirstOriginDecides(web, domain, origins, i);
    if i < |origins| && web.parse(TrimSpace(origins[i])).Some? {
      assert FirstNames(web, origins, domain, i);
    }
    forall k: nat | FirstNames(web, origins, domain, k) ensures k == i && web.parse(TrimSpace(origins[k])).Some? {
      assert !(i < k);
      assert !(k < i);
    }
  }

  /** What a request must bring; `url` is its parsed URI and `i` the origin that allows it. */
  predicate Entitled(web: Web, config: Config, r: Request, url: Url, i: nat) {
    && IsHexAddress(NormalizeHex(r.wallet)) && FirstNames(web, config.allowedOrigins, r.domain, i)
    && config.chainSupported(r.chainId)
    && web.parse(TrimSpace(r.uri)) == Some(url) && NamesDomain(url.hostname, r.domain)
    && (url.scheme == "https" || config.development)
  }

  /** The challenge of siwe.go, lines 91 to 131, with its constants written out. */
  function ChallengeAt(web: Web, calendar: Calendar, r: Request, url: Url, now: int): Challenge {
    var wallet, nonce := NormalizeHex(r.wallet), ZeroPadded(r.draw, 8);
    var f := Fields(r.domain, wallet, web.show(Url(url.scheme, url.hostname, url.path, "", "")), r.chainId, nonce,
                    calendar.show(now / 1_000_000_000), calendar.show((now + 900_000_000_000) / 1_000_000_000));
    Challenge(wallet, Template(f), nonce, now, now + 900_000_000_000)
  }

  /**
    Composition, for every request and time: a challenge is composed exactly when the wallet is
    an address, the first origin that decides names the domain, the chain is supported, the
    URI parses with the domain as its host, and its scheme is https or the service in development;
    and then it is the template with these fields, and without the URI's query and fragment.
   */
  lemma ComposeExact(web: Web, calendar: Calendar, config: Config, r: Request, now: int)
    ensures Compose(web, calendar, config, r, now).Ok? <==> exists url, i :: Entitled(web, config, r, url, i)
    ensures forall url, i | Entitled(web, config, r, url, i) ::
              Compose(web, calendar, config, r, now) == Ok(ChallengeAt(web, calendar, r, url, now))
  {
    hide NormalizeHex, IsHexAddress, SearchOrigins, TrimSpace, TrimWww, NamesDomain, FirstNames, Render, Template;
    hide ZeroPadded;
    AllowedExact(web, r.domain, config.allowedOrigins);
    var parsed := web.parse(TrimSpace(r.uri));
    if parsed.Some? {
      TrimWwwExact(parsed.value.hostname, r.domain);
    }
    if Compose(web, calendar, config, r, now).Ok? {
      var i :| FirstNames(web, config.allowedOrigins, r.domain, i);
      assert Entitled(web, config, r, parsed.value, i);
    }
    forall url, i | Entitled(web, config, r, url, i)
      ensures Compose(web, calendar, config, r, now) == Ok(ChallengeAt(web, calendar, r, url, now))
    {
      RenderExact(ChallengeFields(web, calendar, r, url.(rawQuery := "", fragment := ""), now));
    }
  }

  /** Origin i is malformed, and no origin before it is or names the domain. */
  predicate FirstMalformed(web: Web, origins: seq<string>, domain: string, i: nat) {
    && i < |origins| && web.parse(TrimSpace(origins[i])).None?
    && forall j | 0 <= j < i ::
         && web.parse(TrimSpace(origins[j])).Some?
         && !NamesDomain(web.parse(TrimSpace(origins[j])).value.hostname, domain)
  }

  /**
    Which requests crash: those for a wallet that is an address, and a domain that no origin names
    before a malformed one. Every other check comes later or needs no origin.
   */
  lemma CrashExact(web: Web, calendar: Calendar, config: Config, r: Request, now: int)
    ensures Compose(web, calendar, config, r, now) == Err(Crashed) <==>
      && IsHexAddress(NormalizeHex(r.wallet))
      && exists i :: FirstMalformed(web, config.allowedOrigins, r.domain, i)
    ensures Compose(web, calendar, config, r, now) == Err(BadWallet) <==> !IsHexAddress(NormalizeHex(r.wallet))
  {
    hide NormalizeHex, IsHexAddress, TrimSpace, NamesDomain, TrimWww, Deciding, SearchOrigins, Render;
    var origins := config.allowedOrigins;
    forall o ensures var url := web.parse(TrimSpace(o));
                     Deciding(web, r.domain, o) <==> url.None? || NamesDomain(url.value.hostname, r.domain)
    {
      DecidingExact(web, r.domain, o);
    }
    var i := FirstDeciding(web, r.domain, origins);
    FirstOriginDecides(web, r.domain, origins, i);
    if i < |origins| && web.parse(TrimSpace(origins[i])).None? {
      assert FirstMalformed(web, origins, r.domain, i);
    }
    forall k: nat | FirstMalformed(web, origins, r.domain, k) ensures k == i {
      assert !(i < k);
      assert !(k < i);
    }
  }

  /** An answer, with the cache and the time after it. */
  datatype Outcome<T> = Outcome(answer: Result<T, Refusal>, entries: Entries, later: int)

  /**
    What a request leaves behind: a composed challenge replaces whatever its wallet had. The
    message is dated first; `gap` is the time until the cache writes it.
   */
  function Issue(web: Web, calendar: Calendar, config: Config, entries: Entries, r: Request, now: int, gap: nat,
                 fault: Fault): (o: Outcome<Challenge>)
    ensures now <= o.later
  {
    match Compose(web, calendar, config, r, now)
    case Err(refusal) => Outcome(Err(refusal), entries, now)
    case Ok(c) =>
      Outcome(if fault.NoFault? then Ok(c) else Err(CacheFailed),
              Put(entries, SiweKey(config.serviceName, c.wallet), c.message, now + gap + EXPIRATION, fault), now + gap)
  }

  /**
    Issuing: a composed challenge is answered exactly when the cache reports success, and
    unless the call failed before it, it replaces its wallet's entry for fifteen minutes from
    the writing. A request that is refused leaves the cache as it was.
   */
  lemma IssueExact(web: Web, calendar: Calendar, config: Config, entries: Entries, r: Request, now: int, gap: nat,
                   fault: Fault)
    ensures var o := Issue(web, calendar, config, entries, r, now, gap, fault);
            var c := Compose(web, calendar, config, r, now);
            && (o.answer.Ok? <==> c.Ok? && fault.NoFault?) && (o.answer.Ok? ==> o.answer == c)
            && (c.Err? || fault.FailsBefore? ==> o.entries == entries)
            && (c.Ok? && !fault.FailsBefore? ==>
                  o.later == now + gap
                  && o.entries == entries[config.serviceName + "-siwe-message:" + c.value.wallet
                                          := Entry(c.value.message, now + gap + 900_000_000_000)])
  {
    hide Compose;
    var c := Compose(web, calendar, config, r, now);
    if c.Ok? {
      KeyTexts(config.serviceName, c.value.wallet);
    }
  }

  /** siwe.go, lines 69 to 101: the query and fragment of the parsed URL are cleared in place. */
  method CheckRequest(web: Web, config: Config, r: Request) returns (url: Result<Url, Refusal>)
    ensures url == CheckedUrl(web, config, r)
  {
    if !IsHexAddress(NormalizeHex(r.wallet)) {
      return Err(BadWallet);
    }
    var isDomainAllowed := IsDomainAllowed(web, r.domain, config.allowedOrigins);
    match isDomainAllowed {
      case Crash => return Err(Crashed);
      case NotAllowed => return Err(DomainRefused);
      case Allowed =>
    }
    if !config.chainSupported(r.chainId) {
      return Err(ChainRefused);
    }
    var parsed := web.parse(TrimSpace(r.uri));
    if parsed.None? {
      return Err(UriMalformed);
    }
    var parsedUri := parsed.value;
    if TrimWww(parsedUri.hostname) != r.domain {
      return Err(HostMismatch);
    }
    if parsedUri.scheme != "https" && !config.development {
      return Err(SchemeRefused);
    }
    parsedUri := parsedUri.(rawQuery := "");
    parsedUri := parsedUri.(fragment := "");
    return Ok(parsedUri);
  }

  /** siwe.go, GenerateSIWEPayload */
  method GeneratePayload(web: Web, calendar: Calendar, config: Config, cache: Cache, r: Request, now: int, gap: nat,
                         fault: Fault) returns (payload: Result<Challenge, Refusal>, later: int)
    modifies cache
    ensures Outcome(payload, cache.entries, later)
         == Issue(web, calendar, config, old(cache.entries), r, now, gap, fault)
  {
    hide CheckedUrl, Render, FieldsAt, SiweKey;
    var checked := CheckRequest(web, config, r);
    if checked.Err? {
      return Err(checked.error), now;
    }
    var f := ChallengeFields(web, calendar, r, checked.value, now);
    var message := Render(f);
    var stored := cache.Set(SiweKey(config.serviceName, f.wallet), message, now + gap, EXPIRATION, fault);
    if !stored {
      return Err(CacheFailed), now + gap;
    }
    return Ok(Challenge(f.wallet, message, f.nonce, now, now + EXPIRATION)), now + gap;
  }

  /** A draw below 10^8 gives a nonce of exactly eight digits that determines the draw. */
  lemma ComposedNonce(web: Web, calendar: Calendar, config: Config, r: Request, now: int)
    requires r.draw < Pow10(NONCE_LENGTH) && Compose(web, calendar, config, r, now).Ok?
    ensures var nonce := Compose(web, calendar, config, r, now).value.nonce;
            |nonce| == NONCE_LENGTH && IsNumeral(nonce) && Value(nonce) == r.draw
  {
    ZeroPaddedRoundTrip(r.draw, NONCE_LENGTH);
  }

  lemma NumeralOneLine(s: string)
    requires IsNumeral(s)
    ensures OneLine(s)
  {
    forall c | c in s ensures c != '\n' {
      var i :| 0 <= i < |s| && s[i] == c;
    }
  }

  lemma ComposedFieldsPrintable(web: Web, calendar: Calendar, config: Config, r: Request, now: int)
    requires NoControlCharacters(web) && Readable(calendar) && CheckedUrl(web, config, r).Ok?
    ensures Printable(ChallengeFields(web, calendar, r, CheckedUrl(web, config, r).value, now))
  {
    NormalWallet(r.wallet);
    DecimalRoundTrip(r.draw);
    var digits := Decimal(r.draw);
    ZerosAreWorthless(if |digits| < NONCE_LENGTH then NONCE_LENGTH - |digits| else 0, digits);
    NumeralOneLine(ZeroPadded(r.draw, NONCE_LENGTH));
    var host := web.parse(TrimSpace(r.uri)).value.hostname;
    assert OneLine(host) && r.domain == TrimWww(host);
    assert OneLine(calendar.show(WholeSeconds(now))) && OneLine(calendar.show(WholeSeconds(now + EXPIRATION)));
  }

  /** What a reader of the fields learns about the request. */
  predicate Tells(calendar: Calendar, f: Fields, r: Request, c: Challenge, now: int) {
    && f.domain == r.domain && f.wallet == c.wallet == NormalizeHex(r.wallet)
    && f.chainId == r.chainId && f.nonce == c.nonce
    && calendar.read(f.issuedAt) == Some(WholeSeconds(now))
    && calendar.read(f.expiresAt) == Some(WholeSeconds(now) + 900)
  }

  lemma ComposedFieldsTell(web: Web, calendar: Calendar, config: Config, r: Request, now: int)
    requires Readable(calendar) && Compose(web, calendar, config, r, now).Ok?
    ensures Tells(calendar, ChallengeFields(web, calendar, r, CheckedUrl(web, config, r).value, now), r,
                  Compose(web, calendar, config, r, now).value, now)
  {
    assert WholeSeconds(now + EXPIRATION) == WholeSeconds(now) + 900;
  }

  /**
    A client can read its request back from the challenge: the domain, the normalised wallet,
    the URI without query and fragment, the chain and the nonce, and printed times that lie 900
    seconds apart.
   */
  lemma ComposedMessageReadable(web: Web, calendar: Calendar, config: Config, r: Request, now: int)
    requires NoControlCharacters(web) && Readable(calendar) && Compose(web, calendar, config, r, now).Ok?
    ensures var c := Compose(web, calendar, config, r, now).value;
            && Parse(c.message).Some? && Tells(calendar, Parse(c.message).value, r, c, now)
            && web.parse(TrimSpace(r.uri)).Some?
            && var url := web.parse(TrimSpace(r.uri)).value;
               Parse(c.message).value.uri == web.show(Url(url.scheme, url.hostname, url.path, "", ""))
  {
    var f := ChallengeFields(web, calendar, r, CheckedUrl(web, config, r).value, now);
    ComposedFieldsPrintable(web, calendar, config, r, now);
    ComposedFieldsTell(web, calendar, config, r, now);
    ParseRender(f);
    assert Compose(web, calendar, config, r, now).value.message == Render(f);
  }

  /* ---------- Taking a challenge ---------- */

  /** What a fetch meets: the time until the cache is read, and the faults of its two calls. */
  datatype FetchWeather = FetchWeather(getGap: nat, getFails: bool, delFault: Fault)

  /** The message, or why there is none, with the cache and the time afterwards. */
  function Fetch(config: Config, entries: Entries, wallet: string, now: int, weather: FetchWeather)
    : (o: Outcome<string>)
    ensures now <= o.later
  {
    var w := NormalizeHex(wallet);
    var key := SiweKey(config.serviceName, w);
    var read := now + weather.getGap;
    if !IsHexAddress(w) then Outcome(Err(BadWallet), entries, now)
    else if weather.getFails then Outcome(Err(CacheFailed), entries, read)
    else
      match Lookup(entries, key, read)
      case None => Outcome(Err(NotFound), entries, read)
      case Some(message) =>
        Outcome(if weather.delFault.NoFault? then Ok(message) else Err(CacheFailed),
                Drop(entries, key, weather.delFault), read)
  }

  /** The fetch finds a readable entry under its wallet's key. */
  predicate Finds(config: Config, entries: Entries, wallet: string, now: int, weather: FetchWeather) {
    var key := config.serviceName + "-siwe-message:" + NormalizeHex(wallet);
    && IsHexAddress(NormalizeHex(wallet)) && !weather.getFails
    && key in entries && now + weather.getGap <= entries[key].expiresAt
  }

  /**
    Taking, for every wallet, cache, time, delay and fault: the message is handed out exactly
    when it is found and its deletion reports success. Whatever is found is gone unless the
    deletion failed before it took effect, and nothing else changes.
   */
  lemma FetchExact(config: Config, entries: Entries, wallet: string, now: int, weather: FetchWeather)
    ensures var o := Fetch(config, entries, wallet, now, weather);
            var key, found := config.serviceName + "-siwe-message:" + NormalizeHex(wallet),
                              Finds(config, entries, wallet, now, weather);
            && (o.answer.Ok? <==> found && weather.delFault.NoFault?)
            && (o.answer.Ok? ==> o.answer.value == entries[key].value && o.later == now + weather.getGap)
            && (o.answer == Err(BadWallet) <==> !IsHexAddress(NormalizeHex(wallet)))
            && o.entries == if found && !weather.delFault.FailsBefore? then entries - {key} else entries
  {
    hide NormalizeHex, IsHexAddress;
    KeyTexts(config.serviceName, NormalizeHex(wallet));
  }

  /** siwe.go, FetchSIWEMessage */
  method FetchMessage(config: Config, cache: Cache, wallet: string, now: int, weather: FetchWeather)
    returns (message: Result<string, Refusal>, later: int)
    modifies cache
    ensures Outcome(message, cache.entries, later) == Fetch(config, old(cache.entries), wallet, now, weather)
  {
    var walletAddress := NormalizeHex(wallet);
    if !IsHexAddress(walletAddress) {
      return Err(BadWallet), now;
    }
    later := now + weather.getGap;
    var key := SiweKey(config.serviceName, walletAddress);
    var res := cache.Get(key, later, weather.getFails);
    if res.Err? {
      return Err(CacheFailed), later;
    }
    if res.value.None? {
      return Err(NotFound), later;
    }
    var deleted := cache.Del(key, weather.delFault);
    if !deleted {
      return Err(CacheFailed), later;
    }
    return Ok(res.value.value), later;
  }
}
