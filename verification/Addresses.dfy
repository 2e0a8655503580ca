/**
  Credentials are kept per wallet string, signatures per address: one address has several
  spellings, and each of them can be bound to a user of its own.
 */
module Addresses {
  import opened Wrappers
  import opened Text
  import opened Encoding
  import opened Tokens
  import opened Sessions
  import opened SessionTheorems
  import opened SignUp
  import EthereumWallet

  /** Two wallet strings spell one address, in whatever letter case and with or without the prefix. */
  predicate SameAddress(w: string, w': string) { ToLower(NormalizeHex(w)) == ToLower(NormalizeHex(w')) }

  /** A wallet string that request validation and the wallet checks let through. */
  predicate Passable(w: string) { IsHexAddress(w) && IsHexAddress(NormalizeHex(w)) }

  /** Letter case does not decide whether a character is a hexadecimal digit. */
  lemma LowerDigit(c: char)
    ensures HexDigit(c).Some? <==> HexDigit(LowerChar(c)).Some?
  {
  }

  lemma SameAddressIsHex(w: string, w': string)
    requires SameAddress(w, w') && IsHexAddress(NormalizeHex(w))
    ensures IsHexAddress(NormalizeHex(w'))
  {
    NormalWallet(w);
    NormalWallet(w');
    var a, b := NormalizeHex(w), NormalizeHex(w');
    assert |a| == |ToLower(a)| == |ToLower(b)| == |b|;
    forall i | 0 <= i < |b[2..]| ensures HexDigit(b[2..][i]).Some? {
      assert ToLower(a)[i + 2] == ToLower(b)[i + 2];
      assert LowerChar(a[i + 2]) == LowerChar(b[i + 2]) && a[i + 2] == a[2..][i];
      LowerDigit(a[i + 2]);
      LowerDigit(b[i + 2]);
    }
  }

  /** A signature is accepted for every spelling of an address, or for none. */
  lemma SameAddressSameVerdict(curve: EthereumWallet.Curve, w: string, w': string, message: string, signature: string)
    requires SameAddress(w, w')
    ensures EthereumWallet.Check(curve, w, message, signature) == EthereumWallet.Check(curve, w', message, signature)
  {
    if IsHexAddress(NormalizeHex(w)) {
      SameAddressIsHex(w, w');
    } else if IsHexAddress(NormalizeHex(w')) {
      SameAddressIsHex(w', w);
    }
  }

  /** Every address has two spellings that pass the wallet checks: with the prefix and without. */
  lemma TwoSpellings(a: Bytes)
    requires |a| == 20
    ensures var w, w' := "0x" + EncodeHex(a), EncodeHex(a);
            w != w' && SameAddress(w, w') && Passable(w) && Passable(w')
  {
    hide EncodeHex, HexDigit, IsSpace, TrimSpace, LowerChar, DecodeHex;
    var w, w' := "0x" + EncodeHex(a), EncodeHex(a);
    HexRoundTrip(a);
    EthereumWallet.PrintedSignature(a);
    assert HexDigit(w'[0]).Some? && HexDigit(w'[1]).Some? && HexDigit(w'[|w'| - 1]).Some?;
    EthereumWallet.HexDigitNotSpace(w'[0]);
    EthereumWallet.HexDigitNotSpace(w'[|w'| - 1]);
    TrimSpaceTrims(w');
    NotADigit(w'[1]);
    assert NormalizeHex(w') == w == NormalizeHex(w);
    LowerPrefixed(w');
    EthereumWallet.FoldedAddress(w, a);
  }

  lemma NotADigit(c: char)
    requires HexDigit(c).Some?
    ensures c != 'x' && c != 'X'
  {
  }

  lemma LowerPrefixed(s: string)
    ensures ToLower("0x" + s) == "0x" + ToLower(s)
  {
    assert ToLower("0x" + s)[..2] == "0x";
  }

  /* ---------- Which spellings callers use ---------- */

  ghost predicate UsesOnly(events: seq<Event>, used: string -> bool) {
    forall i | 0 <= i < |events| :: events[i].Begin? ==> used(events[i].wallet)
  }

  function WalletAt(stage: Stage): Option<string> {
    match stage
    case Entered(wallet, _) => Some(wallet)
    case Unknown(wallet, _) => Some(wallet)
    case Bound(c, _) => Some(c.wallet)
    case OneToken(c, _, _) => Some(c.wallet)
    case TwoTokens(c, _, _, _) => Some(c.wallet)
    case Recorded(c, _, _, _) => Some(c.wallet)
    case _ => None
  }

  ghost predicate OnlyUsed(s: State, used: string -> bool) {
    && (forall c | c in s.credentials :: used(c.wallet))
    && (forall k | k in s.calls && WalletAt(s.calls[k]).Some? :: used(WalletAt(s.calls[k]).value))
  }

  lemma OnlyUsedStep(cfg: Config, s: State, e: Event, used: string -> bool)
    requires OnlyUsed(s, used) && (e.Begin? ==> used(e.wallet))
    ensures OnlyUsed(Apply(cfg, s, e), used)
  {
    var s' := Apply(cfg, s, e);
    forall k | k in s'.calls && WalletAt(s'.calls[k]).Some? ensures used(WalletAt(s'.calls[k]).value) {
      if k in s.calls {
        assert WalletAt(s.calls[k]).Some? && WalletAt(s'.calls[k]) == WalletAt(s.calls[k]);
      }
    }
  }

  lemma {:induction false} OnlyUsedRun(cfg: Config, s: State, events: seq<Event>, used: string -> bool)
    requires OnlyUsed(s, used) && UsesOnly(events, used)
    ensures OnlyUsed(Run(cfg, s, events), used)
    decreases |events|
  {
    if events != [] {
      OnlyUsedStep(cfg, s, events[0], used);
      OnlyUsedRun(cfg, Apply(cfg, s, events[0]), events[1..], used);
    }
  }

  /* ---------- Binding per address ---------- */

  /** No two credentials spell one address. */
  predicate OneEach(credentials: set<Credential>) {
    forall c, d | c in credentials && d in credentials && SameAddress(c.wallet, d.wallet) :: c == d
  }

  predicate AddressesBound(s: State) { OneEach(s.credentials) }

  /** In every run from the state whose callers use these wallet strings, an address has at most one credential. */
  ghost predicate AlwaysBound(cfg: Config, s0: State, used: string -> bool) {
    forall events | UsesOnly(events, used) :: AddressesBound(Run(cfg, s0, events))
  }

  ghost predicate OneSpelling(used: string -> bool) {
    forall w, w' | used(w) && used(w') && SameAddress(w, w') :: w == w'
  }

  predicate HasWallet(s: State, w: string) { exists c | c in s.credentials :: c.wallet == w }

  /** The wallet strings that callers use or that credentials carry already. */
  function InUse(s0: State, used: string -> bool): string -> bool {
    w => used(w) || HasWallet(s0, w)
  }

  /** A wallet string in use gets a credential, unless it has one. */
  lemma SignedUp(cfg: Config, s: State, w: string, used: string -> bool) returns (events: seq<Event>)
    requires !cfg.foreignKeys && (used(w) || HasWallet(s, w)) && s.calls == map[]
    ensures UsesOnly(events, used)
    ensures var s' := Run(cfg, s, events);
            s'.calls == map[] && s.credentials <= s'.credentials && HasWallet(s', w)
  {
    if HasWallet(s, w) {
      events := [];
    } else {
      var users := set c | c in s.credentials :: c.userId;
      var u := UnusedNumber(users);
      var n := UnusedNumber(s.sessions.Keys);
      var c := Credential(u, w, User);
      events := Script(0, w, u, None, n, n);
      assert !Violates(s, c) by {
        forall d | d in s.credentials ensures !Conflict(d, c) {
          assert d.userId in users && !(d.wallet == w);
        }
      }
      SignUpWorksIffUnchecked(cfg, s, 0, c, n, n);
      assert c in Run(cfg, s, events).credentials;
    }
  }

  lemma OneSpellingBinds(cfg: Config, s0: State, events: seq<Event>, used: string -> bool)
    requires Initial(s0) && OneSpelling(InUse(s0, used)) && UsesOnly(events, used)
    ensures AddressesBound(Run(cfg, s0, events))
  {
    assert UsesOnly(events, InUse(s0, used));
    assert forall c | c in s0.credentials :: HasWallet(s0, c.wallet) && InUse(s0, used)(c.wallet);
    OnlyUsedRun(cfg, s0, events, InUse(s0, used));
    WalletBinding(cfg, s0, events, []);
    var s := Run(cfg, s0, events);
    forall c, d | c in s.credentials && d in s.credentials && SameAddress(c.wallet, d.wallet) ensures c == d {
      assert InUse(s0, used)(c.wallet) && InUse(s0, used)(d.wallet);
      assert Conflict(c, d);
    }
  }

  /** Two spellings in use end up with a credential each. */
  lemma TwoSpellingsBreak(cfg: Config, s0: State, w: string, w': string, used: string -> bool)
    returns (events: seq<Event>)
    requires !cfg.foreignKeys && s0.calls == map[] && SameAddress(w, w') && w != w'
    requires InUse(s0, used)(w) && InUse(s0, used)(w')
    ensures UsesOnly(events, used) && !AddressesBound(Run(cfg, s0, events))
  {
    var first := SignedUp(cfg, s0, w, used);
    var s1 := Run(cfg, s0, first);
    var second := SignedUp(cfg, s1, w', used);
    events := first + second;
    RunConcat(cfg, s0, first, second);
    var s := Run(cfg, s0, events);
    var c :| c in s1.credentials && c.wallet == w;
    var d :| d in s.credentials && d.wallet == w';
    assert c in s.credentials && c != d && SameAddress(c.wallet, d.wallet);
  }

  /**
    Binding per address, from any table that satisfies its unique columns. On a store on which
    sign-up works an address has at most one credential in every run if and only if the wallet
    strings in use, those of the table included, hold at most one spelling of each address;
    under the foreign keys, if and only if the table does.
   */
  lemma AddressBindingIffOneSpelling(cfg: Config, s0: State, used: string -> bool)
    requires Initial(s0) && forall w | used(w) :: Passable(w)
    ensures !cfg.foreignKeys ==> (AlwaysBound(cfg, s0, used) <==> OneSpelling(InUse(s0, used)))
    ensures cfg.foreignKeys ==> (AlwaysBound(cfg, s0, used) <==> OneEach(s0.credentials))
  {
    if cfg.foreignKeys {
      assert Run(cfg, s0, []) == s0 && UsesOnly([], used);
      forall events ensures Run(cfg, s0, events).credentials == s0.credentials {
        NoCredentialUnderForeignKeys(cfg, s0, events);
      }
    } else if OneSpelling(InUse(s0, used)) {
      forall events | UsesOnly(events, used) ensures AddressesBound(Run(cfg, s0, events)) {
        OneSpellingBinds(cfg, s0, events, used);
      }
    } else {
      var w, w' :| InUse(s0, used)(w) && InUse(s0, used)(w') && SameAddress(w, w') && w != w';
      var events := TwoSpellingsBreak(cfg, s0, w, w', used);
    }
  }
}
