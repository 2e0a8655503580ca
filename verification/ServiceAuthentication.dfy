/**
  Service-to-service authentication: a payload `name.timestamp.nonce.signature` is printed
  by one service, and split, dated, verified and remembered by another.
 */
module ServiceAuthentication {
  import opened Wrappers
  import opened Text
  import opened Encoding
  import opened TtlCache

  type PublicKey = nat
  type PrivateKey = nat

  const NONCE_LENGTH := 10
  const MILLISECOND := 1_000_000
  const PAYLOAD_DURATION := 60_000 * MILLISECOND

  /** Configuration lists, PEM parsing and ECDSA. The last argument of `sign` is its randomness. */
  datatype Keyring = Keyring(
    setting: string -> seq<string>,
    parsePublic: string -> Option<PublicKey>,
    parsePrivate: string -> Option<PrivateKey>,
    publicKey: PrivateKey -> PublicKey,
    sign: (PrivateKey, string, nat) -> Option<Bytes>,
    verify: (PublicKey, string, Bytes) -> bool
  ) {
    function PublicKeys(name: string): seq<string> { setting("SERVICE_" + name + "_PUBLIC_KEYS") }

    function PrivateKeys(name: string): seq<string> { setting("SERVICE_" + name + "_PRIVATE_KEYS") }
  }

  /** Verification accepts what the matching key signed. */
  ghost predicate Ideal(ring: Keyring) {
    forall k, m, r :: ring.sign(k, m, r).Some? ==> ring.verify(ring.publicKey(k), m, ring.sign(k, m, r).value)
  }

  /* ---------- Time ---------- */

  /** The value a 64-bit signed register holds after an operation whose exact result is n. */
  function Wrap64(n: int): int {
    (n + 0x8000_0000_0000_0000) % 0x1_0000_0000_0000_0000 - 0x8000_0000_0000_0000
  }

  /** The only number of 64 bits that differs from n by a multiple of 2^64. */
  lemma Wrap64Exact(n: int)
    ensures -9223372036854775808 <= Wrap64(n) <= 9223372036854775807
    ensures (Wrap64(n) - n) % 18446744073709551616 == 0
  {
    var m := n + 0x8000_0000_0000_0000;
    assert m == m / 0x1_0000_0000_0000_0000 * 0x1_0000_0000_0000_0000 + m % 0x1_0000_0000_0000_0000;
    assert Wrap64(n) - n == 0x1_0000_0000_0000_0000 * -(m / 0x1_0000_0000_0000_0000);
  }

  /** The instant a payload is dated, in nanoseconds: the product is taken in 64 bits. */
  function Dated(millis: int): int { Wrap64(millis * MILLISECOND) }

  predicate Fresh(millis: int, now: int) { now <= Dated(millis) + PAYLOAD_DURATION }

  /** The product is exact for precisely these timestamps, so there Fresh is the unbounded test. */
  lemma TimestampExact(millis: int)
    ensures Dated(millis) == millis * MILLISECOND <==> -9223372036854 <= millis <= 9223372036854
    ensures -9223372036854 <= millis <= 9223372036854 ==>
      forall now :: Fresh(millis, now) <==> now <= millis * MILLISECOND + PAYLOAD_DURATION
  {
  }

  /**
    Cutting a generation time to milliseconds costs less than one millisecond: the payload
    is not dated in the future, and stays fresh for 60 s - 1 ms at the least.
   */
  lemma TruncationCost(generated: int)
    requires 0 <= generated <= MAX_INT64
    ensures generated - MILLISECOND < Dated(generated / MILLISECOND) <= generated
    ensures forall now | now <= generated + PAYLOAD_DURATION - MILLISECOND :: Fresh(generated / MILLISECOND, now)
  {
    TimestampExact(generated / MILLISECOND);
  }

  /* ---------- Payload text ---------- */

  datatype Payload = Payload(name: string, timestamp: string, nonce: string, signature: string)

  function SplitPayload(text: string): Option<Payload> {
    var parts := Split(text, '.');
    if |parts| != 4 then None else Some(Payload(parts[0], parts[1], parts[2], parts[3]))
  }

  function JoinPayload(p: Payload): string { Join([p.name, p.timestamp, p.nonce, p.signature], '.') }

  /** The part of a payload that its signature covers. */
  function SignedPart(p: Payload): string { p.name + "." + p.timestamp + "." + p.nonce }

  predicate DotFree(p: Payload) {
    '.' !in p.name && '.' !in p.timestamp && '.' !in p.nonce && '.' !in p.signature
  }

  /** Payload texts and dot-free fields correspond one to one. */
  lemma PayloadTextRoundTrip(p: Payload)
    requires DotFree(p)
    ensures SplitPayload(JoinPayload(p)) == Some(p)
  {
    SplitJoin([p.name, p.timestamp, p.nonce, p.signature], '.');
  }

  lemma SplitPayloadExact(text: string)
    requires SplitPayload(text).Some?
    ensures JoinPayload(SplitPayload(text).value) == text && DotFree(SplitPayload(text).value)
  {
    JoinSplit(text, '.');
    var parts := Split(text, '.');
    assert parts == [parts[0], parts[1], parts[2], parts[3]];
    assert '.' !in parts[0] && '.' !in parts[1] && '.' !in parts[2] && '.' !in parts[3];
  }

  /* ---------- Nonces (util.go, GenerateRandomAlphanumericString) ---------- */

  const CHARSET := "abcdefghijklmnopqrstuvwxyz" + "ABCDEFGHIJKLMNOPQRSTUVWXYZ" + "0123456789"

  predicate Alphanumeric(s: string) { forall i | 0 <= i < |s| :: s[i] in CHARSET }

  method RandomAlphanumeric(length: nat, draws: seq<nat>) returns (s: string)
    requires |draws| == length && forall i | 0 <= i < length :: draws[i] < |CHARSET|
    ensures |s| == length && Alphanumeric(s)
    ensures forall i | 0 <= i < length :: s[i] == CHARSET[draws[i]]
  {
    var result := new char[length](_ => 'a');
    for i := 0 to length
      invariant forall j | 0 <= j < i :: result[j] == CHARSET[draws[j]]
    {
      result[i] := CHARSET[draws[i]];
    }
    s := result[..];
  }

  /* ---------- Generation ---------- */

  /** service_authentication.go, GenerateServiceAuthenticationPayload; None stands for any of its errors. */
  function GeneratePayload(ring: Keyring, service: string, now: nat, nonce: string, entropy: nat): Option<string> {
    var name := CanonicalName(service);
    var keys := ring.PrivateKeys(name);
    if keys == [] then None else
    match ring.parsePrivate(keys[|keys| - 1])
    case None => None
    case Some(key) =>
      var unsigned := Payload(name, SignedDecimal(now / MILLISECOND), nonce, "");
      match ring.sign(key, SignedPart(unsigned), entropy)
      case None => None
      case Some(bytes) => Some(JoinPayload(unsigned.(signature := EncodeBase64(bytes))))
  }

  /* ---------- Verification ---------- */

  datatype Refusal = NoPayload | Malformed | BadTimestamp | BlankName | Expired | BadNonce | NoKeys | BadKey
                   | BadSignatureText | BadSignature | CacheUnreadable | AlreadySeen | CacheUnwritable

  predicate AllParse(ring: Keyring, keys: seq<string>) {
    forall i | 0 <= i < |keys| :: ring.parsePublic(keys[i]).Some?
  }

  /**
    What the key loop concludes for a non-empty list of any length: every key must parse
    and the signature must decode, and then only the last key decides.
   */
  function KeyVerdict(ring: Keyring, keys: seq<string>, message: string, signature: string): Result<bool, Refusal>
    requires keys != []
  {
    var bytes := DecodeBase64(signature);
    if bytes.None? then Err(if ring.parsePublic(keys[0]).None? then BadKey else BadSignatureText)
    else if !AllParse(ring, keys) then Err(BadKey)
    else Ok(ring.verify(ring.parsePublic(keys[|keys| - 1]).value, message, bytes.value))
  }

  /** The verdicts in the order of the loop: a bad key stops it, and so does a bad signature at the first key. */
  lemma KeyVerdictExact(ring: Keyring, keys: seq<string>, message: string, signature: string)
    requires keys != []
    ensures var verdict, parse := KeyVerdict(ring, keys, message, signature), ring.parsePublic;
            && (verdict == Err(BadSignatureText) <==> parse(keys[0]).Some? && DecodeBase64(signature).None?)
            && (verdict == Err(BadKey) <==>
                  parse(keys[0]).None?
                  || (DecodeBase64(signature).Some? && exists i | 0 < i < |keys| :: parse(keys[i]).None?))
            && (verdict.Ok? ==>
                  verdict.value == ring.verify(parse(keys[|keys| - 1]).value, message, DecodeBase64(signature).value))
            && (verdict.Err? ==> verdict.error == BadKey || verdict.error == BadSignatureText)
  {
    hide DecodeBase64;
  }

  /** The loop of lines 92 to 104, which overwrites its verdict with each key. */
  method VerifyWithKeys(ring: Keyring, keys: seq<string>, message: string, signature: string)
    returns (verdict: Result<bool, Refusal>)
    requires keys != []
    ensures verdict == KeyVerdict(ring, keys, message, signature)
  {
    var isSignatureValid := false;
    for i := 0 to |keys|
      invariant AllParse(ring, keys[..i])
      invariant i > 0 ==> DecodeBase64(signature).Some?
      invariant i > 0 ==>
        isSignatureValid == ring.verify(ring.parsePublic(keys[i - 1]).value, message, DecodeBase64(signature).value)
    {
      var publicKey := ring.parsePublic(keys[i]);
      if publicKey.None? {
        return Err(BadKey);
      }
      var bytes := DecodeBase64(signature);
      if bytes.None? {
        assert i == 0;
        return Err(BadSignatureText);
      }
      isSignatureValid := ring.verify(publicKey.value, message, bytes.value);
      assert keys[..i + 1] == keys[..i] + [keys[i]];
    }
    assert keys[..|keys|] == keys;
    return Ok(isSignatureValid);
  }

  /** Every check that comes before the cache is asked. */
  function Inspect(ring: Keyring, payload: Option<string>, now: int): Result<Payload, Refusal> {
    if payload.None? then Err(NoPayload) else
    match SplitPayload(payload.value)
    case None => Err(Malformed)
    case Some(p) =>
      var millis := ParseInt64(p.timestamp);
      if millis.None? then Err(BadTimestamp)
      else if TrimSpace(p.name) == "" then Err(BlankName)
      else if !Fresh(millis.value, now) then Err(Expired)
      else if |p.nonce| != NONCE_LENGTH then Err(BadNonce)
      else if ring.PublicKeys(p.name) == [] then Err(NoKeys)
      else
        match KeyVerdict(ring, ring.PublicKeys(p.name), SignedPart(p), p.signature)
        case Err(refusal) => Err(refusal)
        case Ok(valid) => if valid then Ok(p) else Err(BadSignature)
  }

  /**
    What a call meets at the cache: the time that passes between its freshness check and the
    cache's reading, and between that and the cache's writing, and the faults of both.
   */
  datatype Weather = Weather(getGap: nat, getFails: bool, setGap: nat, setFault: Fault)

  predicate Calm(weather: Weather) { !weather.getFails && weather.setFault.NoFault? }

  /** The authenticated service, or why there is none, with the cache and the time afterwards. */
  datatype Admission = Admission(service: Result<string, Refusal>, entries: Entries, later: int)

  function Admit(ring: Keyring, entries: Entries, payload: Option<string>, now: int, weather: Weather): (a: Admission)
    ensures now <= a.later
  {
    match Inspect(ring, payload, now)
    case Err(refusal) => Admission(Err(refusal), entries, now)
    case Ok(p) =>
      var key := ServiceKey(p.name, p.signature);
      var read := now + weather.getGap;
      if weather.getFails then Admission(Err(CacheUnreadable), entries, read)
      else if Lookup(entries, key, read).Some? then Admission(Err(AlreadySeen), entries, read)
      else
        var written := read + weather.setGap;
        var after := Put(entries, key, p.signature, written + PAYLOAD_DURATION, weather.setFault);
        Admission(if weather.setFault.NoFault? then Ok(CanonicalName(p.name)) else Err(CacheUnwritable), after, written)
  }

  /** service_authentication.go, authenticateService */
  method AuthenticateService(ring: Keyring, cache: Cache, payload: Option<string>, now: int, weather: Weather)
    returns (service: Result<string, Refusal>, later: int)
    modifies cache
    ensures Admission(service, cache.entries, later) == Admit(ring, old(cache.entries), payload, now, weather)
  {
    hide SplitPayload, ParseInt64, TrimSpace, Fresh, KeyVerdict, SignedPart, ServiceKey, CanonicalName;
    later := now;
    if payload.None? {
      return Err(NoPayload), now;
    }
    var split := SplitPayload(payload.value);
    if split.None? {
      return Err(Malformed), now;
    }
    var p := split.value;
    var millis := ParseInt64(p.timestamp);
    if millis.None? {
      return Err(BadTimestamp), now;
    }
    if TrimSpace(p.name) == "" {
      return Err(BlankName), now;
    }
    if !Fresh(millis.value, now) {
      return Err(Expired), now;
    }
    if |p.nonce| != NONCE_LENGTH {
      return Err(BadNonce), now;
    }
    var keys := ring.PublicKeys(p.name);
    if keys == [] {
      return Err(NoKeys), now;
    }
    var verdict := VerifyWithKeys(ring, keys, SignedPart(p), p.signature);
    if verdict.Err? {
      return Err(verdict.error), now;
    }
    if !verdict.value {
      return Err(BadSignature), now;
    }
    var key := ServiceKey(p.name, p.signature);
    later := later + weather.getGap;
    var cached := cache.Get(key, later, weather.getFails);
    if cached.Err? {
      return Err(CacheUnreadable), later;
    }
    if cached.value.Some? {
      return Err(AlreadySeen), later;
    }
    later := later + weather.setGap;
    var stored := cache.Set(key, p.signature, later, PAYLOAD_DURATION, weather.setFault);
    if !stored {
      return Err(CacheUnwritable), later;
    }
    return Ok(CanonicalName(p.name)), later;
  }

  /* ---------- Which payloads pass ---------- */

  function TextOf(p: Payload): string { p.name + "." + p.timestamp + "." + p.nonce + "." + p.signature }

  /** The text of a payload and the text that its signature covers, as both ends write them. */
  lemma PayloadTexts(p: Payload)
    ensures JoinPayload(p) == TextOf(p)
    ensures SignedPart(p) == p.name + "." + p.timestamp + "." + p.nonce
  {
    var parts := [p.name, p.timestamp, p.nonce, p.signature];
    assert parts[1..][1..][1..] == [p.signature];
    assert Join(parts[1..][1..], '.') == p.nonce + "." + p.signature;
    assert Join(parts[1..], '.') == p.timestamp + "." + (p.nonce + "." + p.signature);
    assert Join(parts, '.') == p.name + "." + (p.timestamp + "." + (p.nonce + "." + p.signature));
  }

  /** The fields are those of a payload that may pass at the given instant. */
  predicate Presentable(ring: Keyring, p: Payload, now: int) {
    var keys := ring.setting("SERVICE_" + p.name + "_PUBLIC_KEYS");
    var millis, bytes := ParseInt64(p.timestamp), DecodeBase64(p.signature);
    && DotFree(p) && !AllSpace(p.name) && |p.nonce| == 10
    && millis.Some? && now <= Wrap64(millis.value * 1_000_000) + 60_000_000_000
    && keys != [] && (forall i | 0 <= i < |keys| :: ring.parsePublic(keys[i]).Some?)
    && bytes.Some?
    && ring.verify(ring.parsePublic(keys[|keys| - 1]).value, p.name + "." + p.timestamp + "." + p.nonce, bytes.value)
  }

  lemma InspectExact(ring: Keyring, text: string, p: Payload, now: int)
    ensures Inspect(ring, Some(text), now) == Ok(p) <==> text == TextOf(p) && Presentable(ring, p, now)
  {
    hide ParseInt64, Split, Join, DecodeBase64, TrimSpace, Wrap64;
    PayloadTexts(p);
    BlankExact(p.name);
    if Inspect(ring, Some(text), now) == Ok(p) {
      SplitPayloadExact(text);
    } else if text == TextOf(p) && Presentable(ring, p, now) {
      PayloadTextRoundTrip(p);
    }
  }

  /** A call in which this payload passes: presentable, not in the cache when that is read, and written to it. */
  predicate Passes(ring: Keyring, entries: Entries, p: Payload, now: int, weather: Weather) {
    var key := p.name + "-service-authentication:" + p.signature;
    && Presentable(ring, p, now) && !weather.getFails && weather.setFault.NoFault?
    && (key in entries ==> entries[key].expiresAt < now + weather.getGap)
  }

  /** What it leaves in the cache: its signature, for a minute from the writing. */
  function Remembered(entries: Entries, p: Payload, at: int): Entries {
    entries[p.name + "-service-authentication:" + p.signature := Entry(p.signature, at + 60_000_000_000)]
  }

  /**
    Admission, for every payload text, cache, time, delay and fault: a call is admitted exactly
    when its text is four dot-free fields that may pass and are not in the cache, under the
    name in lower case without white space, and leaves its signature there; a refused call
    leaves the cache as it was, unless a writing that reported a failure took effect.
   */
  lemma AdmitExact(ring: Keyring, entries: Entries, payload: Option<string>, now: int, weather: Weather)
    ensures var a, written := Admit(ring, entries, payload, now, weather), now + weather.getGap + weather.setGap;
            && (a.service.Ok? <==>
                  exists p :: payload == Some(TextOf(p)) && Passes(ring, entries, p, now, weather))
            && (forall p :: payload == Some(TextOf(p)) && Passes(ring, entries, p, now, weather) ==>
                  && a.service == Ok(ToLower(TrimSpace(p.name))) && a.later == written
                  && a.entries == Remembered(entries, p, written))
            && (a.service.Err? && !weather.setFault.FailsAfter? ==> a.entries == entries)
  {
    hide Inspect, Presentable, ServiceKey, TrimSpace, ToLower, TextOf;
    var a := Admit(ring, entries, payload, now, weather);
    if a.service.Ok? {
      var p := Inspect(ring, payload, now).value;
      InspectedSome(ring, payload, now);
      InspectExact(ring, payload.value, p, now);
      KeyTexts(p.name, p.signature);
      assert payload == Some(TextOf(p)) && Passes(ring, entries, p, now, weather);
    }
    forall p | payload == Some(TextOf(p)) && Passes(ring, entries, p, now, weather)
      ensures a.service == Ok(ToLower(TrimSpace(p.name))) && a.later == now + weather.getGap + weather.setGap
      ensures a.entries == Remembered(entries, p, now + weather.getGap + weather.setGap)
    {
      InspectExact(ring, payload.value, p, now);
      KeyTexts(p.name, p.signature);
    }
  }

  lemma InspectedSome(ring: Keyring, payload: Option<string>, now: int)
    requires Inspect(ring, payload, now).Ok?
    ensures payload.Some?
  {
  }

  /** A payload that passed every check has a signature that decodes, hence no colon in it. */
  lemma InspectedPayload(ring: Keyring, text: string, now: int)
    requires Inspect(ring, Some(text), now).Ok?
    ensures var p := Inspect(ring, Some(text), now).value;
            && SplitPayload(text) == Some(p) && ':' !in p.signature
            && ParseInt64(p.timestamp).Some? && Fresh(ParseInt64(p.timestamp).value, now)
  {
    DecodableText(Inspect(ring, Some(text), now).value.signature);
  }

  /* ---------- Printer and verifier together ---------- */

  predicate IsNonce(nonce: string) { |nonce| == NONCE_LENGTH && Alphanumeric(nonce) }

  lemma NonceDotFree(nonce: string)
    requires Alphanumeric(nonce)
    ensures '.' !in nonce
  {
    assert '.' !in "abcdefghijklmnopqrstuvwxyz" && '.' !in "ABCDEFGHIJKLMNOPQRSTUVWXYZ" && '.' !in "0123456789";
    assert '.' !in CHARSET;
  }

  /** The fields of a generated payload, recovered by splitting its text. */
  lemma GeneratedFields(ring: Keyring, service: string, generated: nat, nonce: string, entropy: nat)
    returns (p: Payload, key: PrivateKey, bytes: Bytes)
    requires generated <= MAX_INT64 && '.' !in CanonicalName(service) && IsNonce(nonce)
    requires GeneratePayload(ring, service, generated, nonce, entropy).Some?
    ensures SplitPayload(GeneratePayload(ring, service, generated, nonce, entropy).value) == Some(p)
    ensures p.name == CanonicalName(service) && p.nonce == nonce
    ensures p.timestamp == SignedDecimal(generated / MILLISECOND) && p.signature == EncodeBase64(bytes)
    ensures ring.PrivateKeys(p.name) != []
    ensures var keys := ring.PrivateKeys(p.name); ring.parsePrivate(keys[|keys| - 1]) == Some(key)
    ensures ring.sign(key, SignedPart(p), entropy) == Some(bytes)
  {
    var name := CanonicalName(service);
    var keys := ring.PrivateKeys(name);
    key := ring.parsePrivate(keys[|keys| - 1]).value;
    var unsigned := Payload(name, SignedDecimal(generated / MILLISECOND), nonce, "");
    bytes := ring.sign(key, SignedPart(unsigned), entropy).value;
    p := unsigned.(signature := EncodeBase64(bytes));
    SignedDecimalRoundTrip(generated / MILLISECOND);
    NonceDotFree(nonce);
    Base64RoundTrip(bytes);
    DecodableText(p.signature);
    PayloadTextRoundTrip(p);
  }

  /**
    Generation, for every service, time, nonce and chance: a payload is made exactly when the
    last private key of the canonical name parses and signs, and it is that name, the
    milliseconds, the nonce and the base64 of the signature over the first three.
   */
  lemma GenerateExact(ring: Keyring, service: string, now: nat, nonce: string, entropy: nat, text: string)
    ensures var name, millis := ToLower(TrimSpace(service)), Decimal(now / 1_000_000);
            var keys := ring.setting("SERVICE_" + name + "_PRIVATE_KEYS");
            GeneratePayload(ring, service, now, nonce, entropy) == Some(text) <==>
              && keys != [] && ring.parsePrivate(keys[|keys| - 1]).Some?
              && var key, signed := ring.parsePrivate(keys[|keys| - 1]).value, name + "." + millis + "." + nonce;
                 && ring.sign(key, signed, entropy).Some?
                 && text == signed + "." + EncodeBase64(ring.sign(key, signed, entropy).value)
  {
    hide ToLower, TrimSpace, EncodeBase64, Decimal;
    var name := CanonicalName(service);
    forall signature ensures JoinPayload(Payload(name, Decimal(now / 1_000_000), nonce, signature))
                          == name + "." + Decimal(now / 1_000_000) + "." + nonce + "." + signature
    {
      PayloadTexts(Payload(name, Decimal(now / 1_000_000), nonce, signature));
    }
  }

  /** The characters of a nonce: 62 in all, the digits last. */
  lemma CharsetExact(i: nat)
    ensures |CHARSET| == 62 && NONCE_LENGTH == 10
    ensures i < 26 ==> CHARSET[i] == LOWER[i] && CHARSET[26 + i] == UPPER[i]
    ensures i < 10 ==> CHARSET[52 + i] == "0123456789"[i]
  {
    assert CHARSET == LOWER + UPPER + "0123456789";
  }

  /** The last public key of a service belongs to its last private key, and every public key parses. */
  ghost predicate Paired(ring: Keyring, name: string) {
    var publics, privates := ring.PublicKeys(name), ring.PrivateKeys(name);
    && publics != [] && AllParse(ring, publics)
    && forall k :: privates != [] && ring.parsePrivate(privates[|privates| - 1]) == Some(k) ==>
         ring.parsePublic(publics[|publics| - 1]) == Some(ring.publicKey(k))
  }

  /**
    Payload round trip. When the last public key pairs with the last private key and every
    public key parses, a generated payload is accepted under its canonical name exactly when
    it is fresh when it is checked and its signature is not in the cache when that is read.
   */
  lemma GeneratedPayloadAccepted(ring: Keyring, service: string, generated: nat, nonce: string, entropy: nat,
                                 entries: Entries, now: int, weather: Weather)
    requires Calm(weather) && Ideal(ring) && generated <= MAX_INT64 && IsNonce(nonce)
    requires CanonicalName(service) != "" && '.' !in CanonicalName(service)
    requires GeneratePayload(ring, service, generated, nonce, entropy).Some?
    requires Paired(ring, CanonicalName(service))
    ensures var text := GeneratePayload(ring, service, generated, nonce, entropy).value;
            && SplitPayload(text).Some? && SplitPayload(text).value.name == CanonicalName(service)
            && (var p := SplitPayload(text).value;
                var timely := now <= generated / MILLISECOND * MILLISECOND + PAYLOAD_DURATION;
                var unseen := Lookup(entries, ServiceKey(p.name, p.signature), now + weather.getGap).None?;
                var service' := Admit(ring, entries, Some(text), now, weather).service;
                && (service'.Ok? <==> timely && unseen)
                && (timely && unseen ==> service' == Ok(CanonicalName(service))))
  {
    hide ParseInt64, SplitPayload, GeneratePayload, DecodeBase64, EncodeBase64, SignedPart, ServiceKey, TrimSpace;
    hide ToLower;
    var p, key, bytes := GeneratedFields(ring, service, generated, nonce, entropy);
    SignedDecimalRoundTrip(generated / MILLISECOND);
    TimestampExact(generated / MILLISECOND);
    CanonicalNameIdempotent(service);
    TrimSpaceTrims(p.name);
    Base64RoundTrip(bytes);
    var publics := ring.PublicKeys(p.name);
    assert KeyVerdict(ring, publics, SignedPart(p), p.signature) == Ok(true);
  }
}
