/**
  Signing and checking wallet messages: the EIP-191 text prefix, the 65-byte signature in
  hexadecimal and its two recovery-id conventions.
 */
module EthereumWallet {
  import opened Wrappers
  import opened Text
  import opened Encoding

  type PrivateKey = nat
  type PublicKey = nat

  const SIGNATURE_LENGTH := 65
  const RECOVERY_ID_OFFSET := 64

  /** The libraries behind the wallet functions: Keccak-256, secp256k1 and EIP-55 printing. */
  datatype Curve = Curve(
    keccak: string -> Bytes,
    sign: (PrivateKey, Bytes) -> Option<Bytes>,
    recover: (Bytes, Bytes) -> Option<PublicKey>,
    publicKey: PrivateKey -> PublicKey,
    address: PublicKey -> Bytes,
    checksummed: Bytes -> string
  )

  /** Addresses have twenty bytes, and the checksum shows only in the case of their digits. */
  ghost predicate Printable(curve: Curve) {
    && (forall p :: |curve.address(p)| == 20)
    && (forall a :: ToLower(curve.checksummed(a)) == "0x" + EncodeHex(a))
  }

  /** Recovery undoes signing, and a fresh signature carries recovery id 0 or 1. */
  ghost predicate Ideal(curve: Curve) {
    && Printable(curve)
    && forall k, d :: curve.sign(k, d).Some? ==>
         var s := curve.sign(k, d).value;
         |s| == SIGNATURE_LENGTH && s[RECOVERY_ID_OFFSET] < 2 && curve.recover(d, s) == Some(curve.publicKey(k))
  }

  const PREFIX := "\U{19}Ethereum Signed Message:\n"

  /** The text that is hashed: version 0x45 of EIP-191, with the length in decimal. */
  function SignedText(message: string): string { PREFIX + Decimal(|message|) + message }

  /**
    Distinct messages have distinct signed texts. The printed length has no terminator, but
    a longer message makes the whole text longer, so the two lengths must agree.
   */
  lemma SignedTextInjective(m: string, m': string)
    requires SignedText(m) == SignedText(m')
    ensures m == m'
  {
    if |m| <= |m'| {
      DecimalLengthMonotone(|m|, |m'|);
    } else {
      DecimalLengthMonotone(|m'|, |m|);
    }
    var cut := |PREFIX| + |Decimal(|m|)|;
    assert m == SignedText(m)[cut..] && m' == SignedText(m')[cut..];
  }

  /* ---------- A reader of signed texts ---------- */

  /** The first k characters are a plain numeral, and the text after them is as long as it says. */
  predicate Counts(text: string, k: nat) {
    1 <= k <= |text| && IsPlain(text[..k]) && Value(text[..k]) == |text| - k
  }

  /** A message with its length in front, read by trying numerals of every length up to k. */
  function ReadCounted(text: string, k: nat): Option<string> {
    if k == 0 then None
    else if Counts(text, k) then Some(text[k..])
    else ReadCounted(text, k - 1)
  }

  /** A reader of version 0x45 of EIP-191: byte 19, the name, the length in decimal, and as many characters. */
  function ReadSigned(text: string): Option<string> {
    var start := "\U{19}Ethereum Signed Message:\n";
    if HasPrefix(text, start) then ReadCounted(text[|start|..], |text| - |start|) else None
  }

  lemma CountedIsPlain(m: string)
    ensures Counts(Decimal(|m|) + m, |Decimal(|m|)|)
  {
    var d := Decimal(|m|);
    DecimalIsPlain(|m|);
    DecimalRoundTrip(|m|);
    assert (d + m)[..|d|] == d;
  }

  /** A text has one reading: a longer numeral would announce a longer message. */
  lemma OneCount(text: string, k: nat, k': nat)
    requires Counts(text, k) && Counts(text, k')
    ensures k == k'
  {
    PlainIsDecimal(text[..k]);
    PlainIsDecimal(text[..k']);
    if |text| - k <= |text| - k' {
      DecimalLengthMonotone(|text| - k, |text| - k');
    } else {
      DecimalLengthMonotone(|text| - k', |text| - k);
    }
  }

  lemma {:induction false} ReadCountedFinds(text: string, k: nat, n: nat)
    requires Counts(text, k) && k <= n
    ensures ReadCounted(text, n) == Some(text[k..])
  {
    if Counts(text, n) {
      OneCount(text, k, n);
    } else {
      ReadCountedFinds(text, k, n - 1);
    }
  }

  lemma {:induction false} ReadCountedOnly(text: string, n: nat)
    requires ReadCounted(text, n).Some?
    ensures var m := ReadCounted(text, n).value; text == Decimal(|m|) + m
  {
    if Counts(text, n) {
      PlainIsDecimal(text[..n]);
      assert text == text[..n] + text[n..];
    } else {
      ReadCountedOnly(text, n - 1);
    }
  }

  /** The reader gives back every message from the text that signing and checking hash, and reads no other text. */
  lemma SignedTextExact(text: string, message: string)
    ensures ReadSigned(text) == Some(message) <==> text == SignedText(message)
  {
    hide Decimal, ReadCounted;
    var start, counted := "\U{19}Ethereum Signed Message:\n", Decimal(|message|) + message;
    CountedIsPlain(message);
    assert start == PREFIX && SignedText(message) == start + counted;
    if text == SignedText(message) {
      assert text[|start|..] == counted;
      assert counted[|Decimal(|message|)|..] == message;
      ReadCountedFinds(counted, |Decimal(|message|)|, |counted|);
    }
    if ReadSigned(text) == Some(message) {
      ReadCountedOnly(text[|start|..], |text| - |start|);
      assert text == start + text[|start|..];
    }
  }

  datatype Refusal = BadWallet | BadSignatureText | BadSignatureLength | Unrecoverable | WalletMismatch

  /** ethereum_wallet.go, SignMessageEthereum; the error is the library's. */
  function SignMessage(curve: Curve, key: PrivateKey, message: string): Option<string> {
    match curve.sign(key, curve.keccak(SignedText(message)))
    case None => None
    case Some(bytes) => Some("0x" + EncodeHex(bytes))
  }

  /** Recovery ids 27 and 28 are the older spelling of 0 and 1. */
  function CanonicalRecovery(b: Bytes): Bytes
    requires |b| == SIGNATURE_LENGTH
  {
    if b[RECOVERY_ID_OFFSET] == 27 || b[RECOVERY_ID_OFFSET] == 28
    then b[RECOVERY_ID_OFFSET := b[RECOVERY_ID_OFFSET] - 27] else b
  }

  /** The last part of a wallet check, for a normalised wallet and canonical signature bytes. */
  function CheckRecovered(curve: Curve, w: string, message: string, b: Bytes): Result<PublicKey, Refusal> {
    match curve.recover(curve.keccak(SignedText(message)), b)
    case None => Err(Unrecoverable)
    case Some(p) => if EqualFold(w, curve.checksummed(curve.address(p))) then Ok(p) else Err(WalletMismatch)
  }

  /** What a wallet check concludes; Ok carries the recovered key. */
  function Check(curve: Curve, wallet: string, message: string, signature: string): Result<PublicKey, Refusal> {
    var w := NormalizeHex(wallet);
    if !IsHexAddress(w) then Err(BadWallet) else
    match DecodePrefixedHex(NormalizeHex(signature))
    case None => Err(BadSignatureText)
    case Some(b) =>
      if |b| != SIGNATURE_LENGTH then Err(BadSignatureLength)
      else CheckRecovered(curve, w, message, CanonicalRecovery(b))
  }

  /** ethereum_wallet.go, IsEthereumSignatureValid: the recovery byte is rewritten in place. */
  method IsSignatureValid(curve: Curve, wallet: string, message: string, signature: string)
    returns (verdict: Result<PublicKey, Refusal>)
    ensures verdict == Check(curve, wallet, message, signature)
  {
    hide NormalizeHex, IsHexAddress, DecodePrefixedHex, SignedText, EqualFold;
    var walletAddress := NormalizeHex(wallet);
    if !IsHexAddress(walletAddress) {
      return Err(BadWallet);
    }
    var decoded := DecodePrefixedHex(NormalizeHex(signature));
    if decoded.None? {
      return Err(BadSignatureText);
    }
    var b := decoded.value;
    var signatureBytes := new byte[|b|](i requires 0 <= i < |b| => b[i]);
    assert signatureBytes[..] == b;
    if signatureBytes.Length != SIGNATURE_LENGTH {
      return Err(BadSignatureLength);
    }
    if signatureBytes[RECOVERY_ID_OFFSET] == 27 || signatureBytes[RECOVERY_ID_OFFSET] == 28 {
      signatureBytes[RECOVERY_ID_OFFSET] := signatureBytes[RECOVERY_ID_OFFSET] - 27;
    }
    assert signatureBytes[..] == CanonicalRecovery(b);
    var recovered := curve.recover(curve.keccak(SignedText(message)), signatureBytes[..]);
    if recovered.None? {
      return Err(Unrecoverable);
    }
    if !EqualFold(walletAddress, curve.checksummed(curve.address(recovered.value))) {
      return Err(WalletMismatch);
    }
    return Ok(recovered.value);
  }

  lemma HexDigitNotSpace(c: char)
    requires HexDigit(c).Some?
    ensures !IsSpace(c)
  {
  }

  lemma PrintedHexTrimmed(b: Bytes)
    ensures Trimmed("0x" + EncodeHex(b))
  {
    HexRoundTrip(b);
    if b != [] {
      HexDigitNotSpace(EncodeHex(b)[|EncodeHex(b)| - 1]);
    }
  }

  /** Printed signatures survive normalisation and decoding. */
  lemma PrintedSignature(b: Bytes)
    ensures NormalizeHex("0x" + EncodeHex(b)) == "0x" + EncodeHex(b)
    ensures DecodePrefixedHex("0x" + EncodeHex(b)) == Some(b)
  {
    HexRoundTrip(b);
    PrintedHexTrimmed(b);
    TrimSpaceTrims("0x" + EncodeHex(b));
    assert ("0x" + EncodeHex(b))[2..] == EncodeHex(b);
  }

  /** A text that reads 0x and the digits of an address, in any case, is an address. */
  lemma FoldedAddress(w: string, a: Bytes)
    requires |a| == 20 && HasPrefix(w, "0x") && ToLower(w) == "0x" + EncodeHex(a)
    ensures IsHexAddress(w)
  {
    HexRoundTrip(a);
    assert |ToLower(w)| == |w|;
    forall i | 0 <= i < |w[2..]| ensures HexDigit(w[2..][i]).Some? {
      assert ToLower(w)[i + 2] == EncodeHex(a)[i];
      assert LowerChar(w[i + 2]) == EncodeHex(a)[i];
    }
  }

  /**
    A signature made with a key is accepted for a wallet exactly when the normalised wallet
    is the signer's address, whatever the letter case of its digits.
   */
  lemma SignThenCheck(curve: Curve, key: PrivateKey, message: string, wallet: string)
    requires Ideal(curve) && SignMessage(curve, key, message).Some?
    ensures var signature := SignMessage(curve, key, message).value;
            var signer := "0x" + EncodeHex(curve.address(curve.publicKey(key)));
            Check(curve, wallet, message, signature).Ok? <==> ToLower(NormalizeHex(wallet)) == signer
  {
    var digest := curve.keccak(SignedText(message));
    var b := curve.sign(key, digest).value;
    PrintedSignature(b);
    assert CanonicalRecovery(b) == b;
    var a := curve.address(curve.publicKey(key));
    var w := NormalizeHex(wallet);
    NormalWallet(wallet);
    assert ToLower(curve.checksummed(a)) == "0x" + EncodeHex(a);
    if ToLower(w) == "0x" + EncodeHex(a) {
      FoldedAddress(w, a);
    }
  }

  /** Signing: the key's signature on the hash of a text that reads as the message, printed after 0x. */
  lemma SignExact(curve: Curve, key: PrivateKey, message: string, signature: string)
    ensures SignMessage(curve, key, message) == Some(signature) <==>
      exists text | ReadSigned(text) == Some(message) ::
        && curve.sign(key, curve.keccak(text)).Some?
        && signature == "0x" + EncodeHex(curve.sign(key, curve.keccak(text)).value)
  {
    hide SignedText, ReadSigned, EncodeHex;
    SignedTextExact(SignedText(message), message);
    forall text | ReadSigned(text) == Some(message) ensures text == SignedText(message) {
      SignedTextExact(text, message);
    }
  }

  /** The signature bytes as the recovery takes them: 27 and 28 in the last place mean 0 and 1. */
  predicate Canonised(b: Bytes, b': Bytes) {
    && |b| == |b'| == 65 && b[..64] == b'[..64]
    && b'[64] == (if b[64] == 27 then 0 else if b[64] == 28 then 1 else b[64])
  }

  lemma CanonisedExact(b: Bytes, b': Bytes)
    requires |b| == 65
    ensures Canonised(b, b') <==> b' == CanonicalRecovery(b)
  {
    var c := CanonicalRecovery(b);
    assert c[..64] == b[..64];
    if Canonised(b, b') {
      assert b' == b'[..64] + [b'[64]] && c == c[..64] + [c[64]];
    }
  }

  /** Key p is recovered from the signature bytes and the hash of a text that reads as the message. */
  predicate Recovers(curve: Curve, message: string, b: Bytes, b': Bytes, text: string, p: PublicKey) {
    Canonised(b, b') && ReadSigned(text) == Some(message) && curve.recover(curve.keccak(text), b') == Some(p)
  }

  /**
    Checking, for every wallet, message and signature text: it ends in key p exactly when the
    normalised wallet is an address, the signature is 0x and the hexadecimal of 65 bytes, p is
    recovered from them and the message, and p's address reads as the wallet but for letter case.
   */
  lemma CheckExact(curve: Curve, wallet: string, message: string, signature: string, p: PublicKey)
    ensures Check(curve, wallet, message, signature) == Ok(p) <==>
      && IsHexAddress(NormalizeHex(wallet)) && DecodePrefixedHex(NormalizeHex(signature)).Some?
      && EqualFold(NormalizeHex(wallet), curve.checksummed(curve.address(p)))
      && exists b', text ::
           Recovers(curve, message, DecodePrefixedHex(NormalizeHex(signature)).value, b', text, p)
  {
    hide SignedText, ReadSigned, NormalizeHex, IsHexAddress, DecodePrefixedHex, Canonised, CanonicalRecovery, ToLower;
    var decoded := DecodePrefixedHex(NormalizeHex(signature));
    SignedTextExact(SignedText(message), message);
    if decoded.Some? && |decoded.value| == 65 {
      var b := decoded.value;
      CanonisedExact(b, CanonicalRecovery(b));
      forall b', text, q | Recovers(curve, message, b, b', text, q)
        ensures b' == CanonicalRecovery(b) && text == SignedText(message)
      {
        CanonisedExact(b, b');
        SignedTextExact(text, message);
      }
      if Check(curve, wallet, message, signature) == Ok(p) {
        assert Recovers(curve, message, b, CanonicalRecovery(b), SignedText(message), p);
      }
    } else if decoded.Some? {
      forall b', text, q ensures !Recovers(curve, message, decoded.value, b', text, q) {
        OtherLength(decoded.value, b');
      }
    }
  }

  lemma OtherLength(b: Bytes, b': Bytes)
    requires |b| != 65
    ensures !Canonised(b, b')
  {
  }

  /** Whatever is accepted was recovered from the exact message, and its address is the wallet. */
  lemma AcceptedWalletSigned(curve: Curve, wallet: string, message: string, signature: string)
    requires Printable(curve) && Check(curve, wallet, message, signature).Ok?
    ensures IsHexAddress(NormalizeHex(wallet))
    ensures var p := Check(curve, wallet, message, signature).value;
            && ToLower(NormalizeHex(wallet)) == "0x" + EncodeHex(curve.address(p))
            && exists b | |b| == SIGNATURE_LENGTH && DecodePrefixedHex(NormalizeHex(signature)) == Some(b) ::
                 curve.recover(curve.keccak(SignedText(message)), CanonicalRecovery(b)) == Some(p)
  {
    var b := DecodePrefixedHex(NormalizeHex(signature)).value;
    assert |b| == SIGNATURE_LENGTH;
  }

  /** Recovery ids 0/1 and 27/28 give the same verdict, for every wallet and message. */
  lemma RecoveryIdsAgree(curve: Curve, wallet: string, message: string, b: Bytes)
    requires |b| == SIGNATURE_LENGTH && b[RECOVERY_ID_OFFSET] < 2
    ensures Check(curve, wallet, message, "0x" + EncodeHex(b))
         == Check(curve, wallet, message, "0x" + EncodeHex(b[RECOVERY_ID_OFFSET := b[RECOVERY_ID_OFFSET] + 27]))
  {
    var legacy := b[RECOVERY_ID_OFFSET := b[RECOVERY_ID_OFFSET] + 27];
    PrintedSignature(b);
    PrintedSignature(legacy);
    assert CanonicalRecovery(legacy) == b == CanonicalRecovery(b);
  }
}
