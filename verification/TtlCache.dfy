/**
  The cache contract: keys hold a value until it expires. An entry is readable up to and
  including its last instant, and a failing call may fail before or after taking effect.
 */
module TtlCache {
  import opened Wrappers
  import opened Text

  datatype Entry = Entry(value: string, expiresAt: int)

  type Entries = map<string, Entry>

  datatype Fault = NoFault | FailsBefore | FailsAfter

  function Lookup(entries: Entries, key: string, now: int): Option<string> {
    if key in entries && now <= entries[key].expiresAt then Some(entries[key].value) else None
  }

  function Put(entries: Entries, key: string, value: string, expiresAt: int, fault: Fault): Entries {
    if fault.FailsBefore? then entries else entries[key := Entry(value, expiresAt)]
  }

  function Drop(entries: Entries, key: string, fault: Fault): Entries {
    if fault.FailsBefore? then entries else entries - {key}
  }

  /** A cache together with the calls of cache.go, lines 10 to 18. */
  class Cache {
    var entries: Entries

    constructor ()
      ensures entries == map[]
    {
      entries := map[];
    }

    method Set(key: string, value: string, now: int, ttl: nat, fault: Fault) returns (ok: bool)
      modifies this
      ensures ok == fault.NoFault?
      ensures fault.FailsBefore? ==> entries == old(entries)
      ensures !fault.FailsBefore? ==> entries == old(entries)[key := Entry(value, now + ttl)]
      ensures entries == Put(old(entries), key, value, now + ttl, fault)
    {
      if !fault.FailsBefore? {
        entries := entries[key := Entry(value, now + ttl)];
      }
      ok := fault.NoFault?;
    }

    method Get(key: string, now: int, fails: bool) returns (found: Result<Option<string>, ()>)
      ensures fails ==> found == Err(())
      ensures !fails && (key !in entries || entries[key].expiresAt < now) ==> found == Ok(None)
      ensures !fails && key in entries && now <= entries[key].expiresAt ==> found == Ok(Some(entries[key].value))
    {
      found := if fails then Err(()) else Ok(Lookup(entries, key, now));
    }

    method Del(key: string, fault: Fault) returns (ok: bool)
      modifies this
      ensures ok == fault.NoFault?
      ensures fault.FailsBefore? ==> entries == old(entries)
      ensures !fault.FailsBefore? ==> entries == old(entries) - {key}
      ensures entries == Drop(old(entries), key, fault)
    {
      if !fault.FailsBefore? {
        entries := entries - {key};
      }
      ok := fault.NoFault?;
    }
  }

  /* ---------- The two families of keys ---------- */

  /** service_authentication.go, line 109 */
  function ServiceKey(service: string, signature: string): string {
    service + "-" + "service-authentication" + ":" + signature
  }

  /** siwe.go, lines 119 and 147 */
  function SiweKey(service: string, wallet: string): string {
    service + "-" + "siwe-message" + ":" + wallet
  }

  /** The two formats of the source, with the name before the prefix and the last field after the colon. */
  lemma KeyTexts(service: string, field: string)
    ensures ServiceKey(service, field) == service + "-service-authentication:" + field
    ensures SiweKey(service, field) == service + "-siwe-message:" + field
  {
    assert "-" + "service-authentication" + ":" == "-service-authentication:";
    assert "-" + "siwe-message" + ":" == "-siwe-message:";
    assert ServiceKey(service, field) == service + ("-" + "service-authentication" + ":") + field;
    assert SiweKey(service, field) == service + ("-" + "siwe-message" + ":") + field;
  }

  lemma SuffixCut(a: string, b: string, suffix: string)
    requires a + suffix == b + suffix
    ensures a == b
  {
    assert |a| == |b|;
    assert a == (a + suffix)[..|a|] && b == (b + suffix)[..|b|];
  }

  /** Service keys determine the service name, whatever it holds, and the signature. */
  lemma ServiceKeyInjective(n: string, s: string, n': string, s': string)
    requires ':' !in s && ':' !in s' && ServiceKey(n, s) == ServiceKey(n', s')
    ensures n == n' && s == s'
  {
    LastCutUnique(n + "-" + "service-authentication", s, n' + "-" + "service-authentication", s', ':');
    SuffixCut(n + "-", n' + "-", "service-authentication");
    SuffixCut(n, n', "-");
  }

  lemma SiweKeyInjective(n: string, w: string, n': string, w': string)
    requires ':' !in w && ':' !in w' && SiweKey(n, w) == SiweKey(n', w')
    ensures n == n' && w == w'
  {
    LastCutUnique(n + "-" + "siwe-message", w, n' + "-" + "siwe-message", w', ':');
    SuffixCut(n + "-", n' + "-", "siwe-message");
    SuffixCut(n, n', "-");
  }

  /** No key belongs to both families, for any two service names. */
  lemma KeyFamiliesDisjoint(n: string, s: string, n': string, w: string)
    requires ':' !in s && ':' !in w
    ensures ServiceKey(n, s) != SiweKey(n', w)
  {
    var a, b := n + "-" + "service-authentication", n' + "-" + "siwe-message";
    assert a[|a| - 1] == 'n' && b[|b| - 1] == 'e';
    if ServiceKey(n, s) == SiweKey(n', w) {
      LastCutUnique(a, s, b, w, ':');
    }
  }
}
