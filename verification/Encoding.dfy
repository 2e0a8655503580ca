/**
  The two byte encodings: base64 with the standard alphabet (section 4 of RFC 4648), as
  Go's StdEncoding reads and writes it, and the 0x-prefixed hexadecimal of Ethereum.
 */
module Encoding {
  import opened Wrappers
  import opened Text

  newtype byte = b: int | 0 <= b < 256

  type Bytes = seq<byte>

  /* ---------- base64 ---------- */

  /** The base64 alphabet is numbered 0 to 63; the padding sign is symbol 64. */
  type Symbol = v: nat | v <= 64

  const PAD: Symbol := 64

  function SymbolChar(v: Symbol): char {
    if v < 26 then ('A' as int + v) as char
    else if v < 52 then ('a' as int + v - 26) as char
    else if v < 62 then ('0' as int + v - 52) as char
    else if v == 62 then '+'
    else if v == 63 then '/'
    else '='
  }

  function CharSymbol(c: char): Option<Symbol> {
    if 'A' <= c <= 'Z' then Some(c as int - 'A' as int)
    else if 'a' <= c <= 'z' then Some(c as int - 'a' as int + 26)
    else if '0' <= c <= '9' then Some(c as int - '0' as int + 52)
    else if c == '+' then Some(62)
    else if c == '/' then Some(63)
    else if c == '=' then Some(PAD)
    else None
  }

  predicate IsLineBreak(c: char) { c == '\r' || c == '\n' }

  /** Three bytes as four sextets. */
  function Sextets(x: byte, y: byte, z: byte): (q: seq<Symbol>)
    ensures |q| == 4 && forall i | 0 <= i < 4 :: q[i] < 64
  {
    var (x, y, z) := (x as int, y as int, z as int);
    [x / 4, x % 4 * 16 + y / 16, y % 16 * 4 + z / 64, z % 64]
  }

  /** Four sextets as three bytes. */
  function Joined(q0: nat, q1: nat, q2: nat, q3: nat): (b: Bytes)
    requires q0 < 64 && q1 < 64 && q2 < 64 && q3 < 64
    ensures |b| == 3
  {
    [(q0 * 4 + q1 / 16) as byte, (q1 % 16 * 16 + q2 / 4) as byte, (q2 % 4 * 64 + q3) as byte]
  }

  /** Three bytes at a time, the last group padded. */
  function Pack(b: Bytes): seq<Symbol> {
    if |b| == 0 then []
    else if |b| == 1 then Sextets(b[0], 0, 0)[..2] + [PAD, PAD]
    else if |b| == 2 then Sextets(b[0], b[1], 0)[..3] + [PAD]
    else Sextets(b[0], b[1], b[2]) + Pack(b[3..])
  }

  /** The inverse; the unused low bits of a padded group are ignored, as in Go. */
  function Unpack(q: seq<Symbol>): Option<Bytes> {
    if q == [] then Some([])
    else if |q| < 4 || q[0] == PAD || q[1] == PAD then None
    else if q[2] == PAD then
      if q[3] == PAD && |q| == 4 then Some(Joined(q[0], q[1], 0, 0)[..1]) else None
    else if q[3] == PAD then
      if |q| == 4 then Some(Joined(q[0], q[1], q[2], 0)[..2]) else None
    else
      match Unpack(q[4..])
      case None => None
      case Some(rest) => Some(Joined(q[0], q[1], q[2], q[3]) + rest)
  }

  function Write(q: seq<Symbol>): string {
    if q == [] then "" else [SymbolChar(q[0])] + Write(q[1..])
  }

  /** Line breaks are skipped wherever they stand; any other foreign character is an error. */
  function Read(s: string): Option<seq<Symbol>> {
    if s == "" then Some([])
    else if IsLineBreak(s[0]) then Read(s[1..])
    else
      match (CharSymbol(s[0]), Read(s[1..]))
      case (Some(v), Some(rest)) => Some([v] + rest)
      case _ => None
  }

  /** StdEncoding.EncodeToString */
  function EncodeBase64(b: Bytes): string { Write(Pack(b)) }

  /** StdEncoding.DecodeString */
  function DecodeBase64(s: string): Option<Bytes> {
    match Read(s)
    case None => None
    case Some(q) => Unpack(q)
  }

  /** A number in two digits, for the three bases in which bytes and sextets overlap. */
  lemma TwoDigits(hi: nat, lo: nat)
    ensures lo < 4 ==> (hi * 4 + lo) / 4 == hi && (hi * 4 + lo) % 4 == lo
    ensures lo < 16 ==> (hi * 16 + lo) / 16 == hi && (hi * 16 + lo) % 16 == lo
    ensures lo < 64 ==> (hi * 64 + lo) / 64 == hi && (hi * 64 + lo) % 64 == lo
  {
  }

  /** Cutting bytes into sextets and joining the sextets again. */
  lemma JoinedSextets(x: byte, y: byte, z: byte)
    ensures var q := Sextets(x, y, z);
            && Joined(q[0], q[1], q[2], q[3]) == [x, y, z]
            && (z == 0 ==> q[3] == 0) && (y == 0 && z == 0 ==> q[2] == 0)
  {
    TwoDigits(x as int % 4, y as int / 16);
    TwoDigits(y as int % 16, z as int / 64);
  }

  lemma {:induction false} UnpackPack(b: Bytes)
    ensures Unpack(Pack(b)) == Some(b)
  {
    hide Sextets, Joined;
    if |b| >= 3 {
      var q := Sextets(b[0], b[1], b[2]);
      JoinedSextets(b[0], b[1], b[2]);
      UnpackPack(b[3..]);
      assert Pack(b)[4..] == Pack(b[3..]);
      assert b == [b[0], b[1], b[2]] + b[3..];
    } else if |b| == 2 {
      JoinedSextets(b[0], b[1], 0);
      assert b == [b[0], b[1], 0][..2];
    } else if |b| == 1 {
      JoinedSextets(b[0], 0, 0);
      assert b == [b[0], 0, 0][..1];
    }
  }

  lemma {:induction false} ReadWrite(q: seq<Symbol>)
    ensures Read(Write(q)) == Some(q)
  {
    if q != [] {
      ReadWrite(q[1..]);
      assert q == [q[0]] + q[1..];
      assert Write(q)[1..] == Write(q[1..]);
      assert CharSymbol(SymbolChar(q[0])) == Some(q[0]);
    }
  }

  lemma Base64RoundTrip(b: Bytes)
    ensures DecodeBase64(EncodeBase64(b)) == Some(b)
  {
    UnpackPack(b);
    ReadWrite(Pack(b));
  }

  /** The alphabet of table 1 in section 4 of RFC 4648. */
  const ALPHABET := "ABCDEFGHIJKLMNOPQRSTUVWXYZ" + "abcdefghijklmnopqrstuvwxyz" + "0123456789+/"

  lemma AlphabetExact(v: Symbol)
    requires v < 64
    ensures |ALPHABET| == 64 && SymbolChar(v) == ALPHABET[v]
  {
    var upper, lower, rest := "ABCDEFGHIJKLMNOPQRSTUVWXYZ", "abcdefghijklmnopqrstuvwxyz", "0123456789+/";
    assert ALPHABET == upper + lower + rest;
    if v < 26 {
      assert ALPHABET[v] == upper[v];
    } else if v < 52 {
      assert ALPHABET[v] == lower[v - 26];
    } else {
      assert ALPHABET[v] == rest[v - 52];
    }
  }

  /** Four characters for a number below 2^24: its digits in base 64, the highest first. */
  function Group(n: nat): string
    requires n < 0x100_0000
  {
    [ALPHABET[n / 262144], ALPHABET[n / 4096 % 64], ALPHABET[n / 64 % 64], ALPHABET[n % 64]]
  }

  /** Numbers in base 64, cut after one, two and three digits. */
  lemma FourDigits(q0: nat, q1: nat, q2: nat, q3: nat)
    requires q0 < 64 && q1 < 64 && q2 < 64 && q3 < 64
    ensures var n := 262144 * q0 + 4096 * q1 + 64 * q2 + q3;
            q0 == n / 262144 && q1 == n / 4096 % 64 && q2 == n / 64 % 64 && q3 == n % 64
  {
    TwoDigits(4096 * q0 + 64 * q1 + q2, q3);
    TwoDigits(64 * q0 + q1, q2);
    TwoDigits(q0, q1);
  }

  lemma SextetsValue(x: byte, y: byte, z: byte)
    ensures var q := Sextets(x, y, z);
            65536 * x as int + 256 * y as int + z as int
            == 262144 * q[0] as int + 4096 * q[1] as int + 64 * q[2] as int + q[3] as int
  {
  }

  lemma SextetsAreDigits(x: byte, y: byte, z: byte)
    ensures var n, q := 65536 * x as int + 256 * y as int + z as int, Sextets(x, y, z);
            q[0] == n / 262144 && q[1] == n / 4096 % 64 && q[2] == n / 64 % 64 && q[3] == n % 64
  {
    hide Sextets;
    var q := Sextets(x, y, z);
    SextetsValue(x, y, z);
    FourDigits(q[0], q[1], q[2], q[3]);
  }

  lemma WriteFour(q: seq<Symbol>, rest: seq<Symbol>)
    requires |q| == 4
    ensures var t := [SymbolChar(q[0]), SymbolChar(q[1]), SymbolChar(q[2]), SymbolChar(q[3])];
            Write(q + rest) == t + Write(rest) && Write(q[..3] + rest) == t[..3] + Write(rest)
            && Write(q[..2] + rest) == t[..2] + Write(rest)
  {
    hide SymbolChar;
    WriteConcat(q, rest);
    WriteConcat(q[..3], rest);
    WriteConcat(q[..2], rest);
    assert q == [q[0], q[1], q[2], q[3]] && q[..3] == [q[0], q[1], q[2]] && q[..2] == [q[0], q[1]];
    assert Write([q[3]]) == [SymbolChar(q[3])] && Write([q[2], q[3]]) == [SymbolChar(q[2])] + Write([q[3]]);
    assert Write([q[1], q[2], q[3]]) == [SymbolChar(q[1])] + Write([q[2], q[3]]);
    assert Write([q[2]]) == [SymbolChar(q[2])] && Write([q[1], q[2]]) == [SymbolChar(q[1])] + Write([q[2]]);
    assert Write([q[1]]) == [SymbolChar(q[1])];
  }

  lemma WriteSextets(x: byte, y: byte, z: byte, rest: seq<Symbol>)
    ensures var n, q := 65536 * x as int + 256 * y as int + z as int, Sextets(x, y, z);
            && Write(q + rest) == Group(n) + Write(rest)
            && Write(q[..3] + rest) == Group(n)[..3] + Write(rest)
            && Write(q[..2] + rest) == Group(n)[..2] + Write(rest)
  {
    hide Sextets, Write, SymbolChar;
    var q := Sextets(x, y, z);
    SextetsAreDigits(x, y, z);
    forall i | 0 <= i < 4 ensures SymbolChar(q[i]) == ALPHABET[q[i]] {
      AlphabetExact(q[i]);
    }
    WriteFour(q, rest);
  }

  lemma {:induction false} WriteConcat(q: seq<Symbol>, r: seq<Symbol>)
    ensures Write(q + r) == Write(q) + Write(r)
  {
    if q == [] {
      assert q + r == r;
    } else {
      assert (q + r)[1..] == q[1..] + r;
      WriteConcat(q[1..], r);
    }
  }

  /**
    The encoding of section 4 of RFC 4648: three bytes become the base-64 digits of the number
    they denote, and one or two bytes at the end are filled with zeros and marked by padding.
   */
  lemma Base64Exact(b: Bytes)
    ensures b == [] ==> EncodeBase64(b) == ""
    ensures |b| == 1 ==> EncodeBase64(b) == Group(65536 * b[0] as int)[..2] + "=="
    ensures |b| == 2 ==> EncodeBase64(b) == Group(65536 * b[0] as int + 256 * b[1] as int)[..3] + "="
    ensures |b| >= 3 ==>
      EncodeBase64(b) == Group(65536 * b[0] as int + 256 * b[1] as int + b[2] as int) + EncodeBase64(b[3..])
  {
    hide Sextets, Group;
    assert Write([PAD]) == "=" && Write([PAD, PAD]) == ['='] + Write([PAD]);
    if |b| == 1 {
      WriteSextets(b[0], 0, 0, [PAD, PAD]);
    } else if |b| == 2 {
      WriteSextets(b[0], b[1], 0, [PAD]);
    } else if |b| >= 3 {
      WriteSextets(b[0], b[1], b[2], Pack(b[3..]));
    }
  }

  lemma {:induction false} ReadableText(s: string)
    requires Read(s).Some?
    ensures ':' !in s && '.' !in s
  {
    if s != "" {
      ReadableText(s[1..]);
      assert s == [s[0]] + s[1..];
    }
  }

  /** Whatever decodes is free of the characters that delimit payloads and cache keys. */
  lemma DecodableText(s: string)
    requires DecodeBase64(s).Some?
    ensures ':' !in s && '.' !in s
  {
    ReadableText(s);
  }

  /* ---------- Other spellings of the same bytes ---------- */

  predicate LineBreakFree(s: string) { '\r' !in s && '\n' !in s }

  lemma {:induction false} WriteRead(s: string)
    requires LineBreakFree(s) && Read(s).Some?
    ensures Write(Read(s).value) == s
  {
    if s != "" {
      WriteRead(s[1..]);
      var q := Read(s).value;
      assert SymbolChar(q[0]) == s[0] && q[1..] == Read(s[1..]).value;
    }
  }

  /** Joining sextets and cutting the bytes again. */
  lemma SextetsJoined(q0: nat, q1: nat, q2: nat, q3: nat)
    requires q0 < 64 && q1 < 64 && q2 < 64 && q3 < 64
    ensures var b := Joined(q0, q1, q2, q3); Sextets(b[0], b[1], b[2]) == [q0, q1, q2, q3]
  {
    TwoDigits(q0, q1 / 16);
    TwoDigits(q1 % 16, q2 / 4);
    TwoDigits(q2 % 4, q3);
  }

  /** More than two bytes, or none, come from symbols that begin without padding. */
  lemma UnpackHead(q: seq<Symbol>)
    requires q != [] && Unpack(q).Some? && |Unpack(q).value| != 1 && |Unpack(q).value| != 2
    ensures |q| >= 4 && q[0] < 64 && q[1] < 64 && q[2] < 64 && q[3] < 64 && Unpack(q[4..]).Some?
    ensures Unpack(q).value == Joined(q[0], q[1], q[2], q[3]) + Unpack(q[4..]).value
  {
    hide Sextets, Joined;
  }

  lemma ThreeMore(n: nat, m: nat)
    requires n % 3 == 0 && n == 3 + m
    ensures m % 3 == 0
  {
  }

  /** Without padding nothing is ignored. */
  lemma {:induction false} PackUnpack(q: seq<Symbol>)
    requires Unpack(q).Some? && |Unpack(q).value| % 3 == 0
    ensures Pack(Unpack(q).value) == q
  {
    hide Sextets, Joined;
    if q != [] {
      UnpackHead(q);
      var rest := Unpack(q[4..]).value;
      ThreeMore(|Unpack(q).value|, |rest|);
      PackUnpack(q[4..]);
      PackGroup(q[0], q[1], q[2], q[3], rest);
      assert q == [q[0], q[1], q[2], q[3]] + q[4..];
    }
  }

  lemma PackGroup(q0: Symbol, q1: Symbol, q2: Symbol, q3: Symbol, rest: Bytes)
    requires q0 < 64 && q1 < 64 && q2 < 64 && q3 < 64
    ensures Pack(Joined(q0, q1, q2, q3) + rest) == [q0, q1, q2, q3] + Pack(rest)
  {
    hide Sextets, Joined;
    SextetsJoined(q0, q1, q2, q3);
    assert (Joined(q0, q1, q2, q3) + rest)[3..] == rest;
  }

  /** Bytes that fill their last group have one spelling without line breaks. */
  lemma OnlySpelling(s: string)
    requires LineBreakFree(s) && DecodeBase64(s).Some? && |DecodeBase64(s).value| % 3 == 0
    ensures s == EncodeBase64(DecodeBase64(s).value)
  {
    WriteRead(s);
    PackUnpack(Read(s).value);
  }

  /** The symbols of some bytes, with one unused bit of the last group set. */
  function Repack(b: Bytes): seq<Symbol>
    requires |b| % 3 != 0
  {
    if |b| == 1 then [Sextets(b[0], 0, 0)[0], Sextets(b[0], 0, 0)[1] + 1, PAD, PAD]
    else if |b| == 2 then Sextets(b[0], b[1], 64)[..3] + [PAD]
    else Sextets(b[0], b[1], b[2]) + Repack(b[3..])
  }

  /** The unused bits of a padded group do not reach its bytes. */
  lemma UnusedBits(x: byte, y: byte)
    ensures var q, r := Sextets(x, 0, 0), Sextets(x, y, 64);
            && q[1] < 63 && Joined(q[0], q[1] + 1, 0, 0)[..1] == [x]
            && r[2] != Sextets(x, y, 0)[2] && Joined(r[0], r[1], r[2], 0)[..2] == [x, y]
  {
  }

  lemma {:induction false} UnpackRepack(b: Bytes)
    requires |b| % 3 != 0
    ensures Unpack(Repack(b)) == Some(b) && Repack(b) != Pack(b)
  {
    hide Sextets, Joined;
    if |b| == 1 {
      UnusedBits(b[0], 0);
      assert b == [b[0]];
    } else if |b| == 2 {
      UnusedBits(b[0], b[1]);
      assert b == [b[0], b[1]];
    } else {
      UnpackRepack(b[3..]);
      JoinedSextets(b[0], b[1], b[2]);
      assert Repack(b)[4..] == Repack(b[3..]) && Pack(b)[4..] == Pack(b[3..]);
      assert b == [b[0], b[1], b[2]] + b[3..];
    }
  }

  lemma {:induction false} WrittenLineBreakFree(q: seq<Symbol>)
    ensures LineBreakFree(Write(q))
  {
    if q != [] {
      WrittenLineBreakFree(q[1..]);
    }
  }

  /** Bytes have a second spelling without line breaks exactly when their last group is padded. */
  lemma SecondSpellingIff(b: Bytes)
    ensures (exists s | LineBreakFree(s) && DecodeBase64(s) == Some(b) :: s != EncodeBase64(b)) <==> |b| % 3 != 0
  {
    if |b| % 3 != 0 {
      var q := Repack(b);
      UnpackRepack(b);
      ReadWrite(q);
      ReadWrite(Pack(b));
      WrittenLineBreakFree(q);
      assert DecodeBase64(Write(q)) == Some(b) && Write(q) != EncodeBase64(b);
    } else {
      forall s | LineBreakFree(s) && DecodeBase64(s) == Some(b) ensures s == EncodeBase64(b) {
        OnlySpelling(s);
      }
    }
  }

  function LineBreaks(n: nat): string { seq(n, _ => '\n') }

  /** Line breaks at the end do not change what a text decodes to, so every text has many spellings. */
  lemma {:induction false} LineBreaksIgnored(s: string, n: nat)
    ensures DecodeBase64(s + LineBreaks(n)) == DecodeBase64(s)
  {
    ReadSkips(s, n);
  }

  lemma {:induction false} ReadSkips(s: string, n: nat)
    ensures Read(s + LineBreaks(n)) == Read(s)
    decreases |s|, n
  {
    var t := s + LineBreaks(n);
    if s != "" {
      ReadSkips(s[1..], n);
      assert t[1..] == s[1..] + LineBreaks(n);
    } else if n > 0 {
      ReadSkips("", n - 1);
      assert t[1..] == "" + LineBreaks(n - 1);
    }
  }

  /** A line break of either kind may stand anywhere. */
  lemma {:induction false} LineBreakAnywhere(a: string, c: char, b: string)
    requires c == '\r' || c == '\n'
    ensures DecodeBase64(a + [c] + b) == DecodeBase64(a + b)
  {
    ReadSkipsOne(a, c, b);
  }

  lemma {:induction false} ReadSkipsOne(a: string, c: char, b: string)
    requires c == '\r' || c == '\n'
    ensures Read(a + [c] + b) == Read(a + b)
  {
    if a == "" {
      assert a + [c] + b == [c] + b && a + b == b;
      assert ([c] + b)[1..] == b;
    } else {
      ReadSkipsOne(a[1..], c, b);
      assert (a + [c] + b)[1..] == a[1..] + [c] + b && (a + b)[1..] == a[1..] + b;
    }
  }

  /* ---------- hexadecimal ---------- */

  function HexChar(v: nat): char
    requires v < 16
  {
    if v < 10 then ('0' as int + v) as char else ('a' as int + v - 10) as char
  }

  function HexDigit(c: char): Option<nat> {
    if '0' <= c <= '9' then Some(c as int - '0' as int)
    else if 'a' <= c <= 'f' then Some(c as int - 'a' as int + 10)
    else if 'A' <= c <= 'F' then Some(c as int - 'A' as int + 10)
    else None
  }

  predicate IsHex(s: string) { forall i | 0 <= i < |s| :: HexDigit(s[i]).Some? }

  function EncodeHex(b: Bytes): (s: string)
    ensures |s| == 2 * |b|
  {
    if b == [] then ""
    else [HexChar(b[0] as int / 16), HexChar(b[0] as int % 16)] + EncodeHex(b[1..])
  }

  function DecodeHex(s: string): Option<Bytes> {
    if s == "" then Some([])
    else if |s| < 2 || HexDigit(s[0]).None? || HexDigit(s[1]).None? then None
    else
      match DecodeHex(s[2..])
      case None => None
      case Some(rest) => Some([(16 * HexDigit(s[0]).value + HexDigit(s[1]).value) as byte] + rest)
  }

  /** hexutil.Decode: the prefix is required, in either case. */
  function DecodePrefixedHex(s: string): Option<Bytes> {
    if HasPrefix(s, "0x") || HasPrefix(s, "0X") then DecodeHex(s[2..]) else None
  }

  lemma {:induction false} HexRoundTrip(b: Bytes)
    ensures DecodeHex(EncodeHex(b)) == Some(b) && IsHex(EncodeHex(b))
    ensures ToLower(EncodeHex(b)) == EncodeHex(b)
  {
    if b != [] {
      hide HexChar, HexDigit, LowerChar;
      HexRoundTrip(b[1..]);
      var s := EncodeHex(b);
      assert s[2..] == EncodeHex(b[1..]);
      assert b == [b[0]] + b[1..];
      HexCharRead(b[0] as int / 16);
      HexCharRead(b[0] as int % 16);
      forall i | 0 <= i < |s| ensures HexDigit(s[i]).Some? && LowerChar(s[i]) == s[i] {
        if i >= 2 {
          assert s[i] == s[2..][i - 2] && LowerChar(s[2..][i - 2]) == ToLower(s[2..])[i - 2];
        }
      }
    }
  }

  lemma HexCharRead(v: nat)
    requires v < 16
    ensures HexDigit(HexChar(v)) == Some(v) && LowerChar(HexChar(v)) == HexChar(v)
  {
  }

  const SMALL_DIGITS := "0123456789abcdef"
  const CAPITAL_DIGITS := "0123456789ABCDEF"

  /** The sixteen digits by name: printed small, read in either case. */
  lemma HexDigitsExact(v: nat, c: char)
    requires v < 16
    ensures HexChar(v) == SMALL_DIGITS[v]
    ensures HexDigit(c) == Some(v) <==> c == SMALL_DIGITS[v] || c == CAPITAL_DIGITS[v]
    ensures HexDigit(c).Some? ==> HexDigit(c).value < 16
  {
  }

  /** Two digits for each byte, the higher one first. */
  lemma {:induction false} EncodeHexAt(b: Bytes, i: nat)
    requires i < |b|
    ensures EncodeHex(b)[2 * i] == SMALL_DIGITS[b[i] as int / 16]
    ensures EncodeHex(b)[2 * i + 1] == SMALL_DIGITS[b[i] as int % 16]
  {
    HexDigitsExact(b[i] as int / 16, '0');
    HexDigitsExact(b[i] as int % 16, '0');
    if i > 0 {
      EncodeHexAt(b[1..], i - 1);
      assert EncodeHex(b)[2..] == EncodeHex(b[1..]);
    }
  }

  /** The characters that name a hexadecimal digit. */
  predicate HexName(c: char) { c in "0123456789abcdefABCDEF" }

  lemma HexNamed(c: char)
    ensures HexDigit(c).Some? <==> HexName(c)
    ensures HexDigit(c).Some? ==> HexDigit(c).value < 16 && HexChar(HexDigit(c).value) == LowerChar(c)
  {
  }

  lemma HexPair(c: char, d: char)
    requires HexDigit(c).Some? && HexDigit(d).Some?
    ensures var n := 16 * HexDigit(c).value + HexDigit(d).value;
            n < 256 && HexChar(n / 16) == LowerChar(c) && HexChar(n % 16) == LowerChar(d)
  {
    hide HexDigit, LowerChar, HexName;
    HexNamed(c);
    HexNamed(d);
    TwoDigits(HexDigit(c).value, HexDigit(d).value);
  }

  /** Decoding takes pairs of hexadecimal digits in either case, and nothing else. */
  lemma {:induction false} DecodeHexExact(s: string)
    ensures DecodeHex(s).Some? <==> |s| % 2 == 0 && forall i | 0 <= i < |s| :: HexName(s[i])
    ensures DecodeHex(s).Some? ==> EncodeHex(DecodeHex(s).value) == ToLower(s)
  {
    hide HexDigit, LowerChar, HexName, HexChar;
    if |s| >= 2 {
      var rest := s[2..];
      DecodeHexExact(rest);
      HexNamed(s[0]);
      HexNamed(s[1]);
      assert s == [s[0], s[1]] + rest;
      if DecodeHex(s).Some? {
        HexPair(s[0], s[1]);
        DecodedPair(s);
        assert ToLower(s) == [LowerChar(s[0]), LowerChar(s[1])] + ToLower(rest);
      }
    } else if s != "" {
      assert |s| % 2 == 1;
    }
  }

  lemma DecodedFirst(s: string)
    requires |s| >= 2 && DecodeHex(s).Some? && HexDigit(s[0]).Some? && HexDigit(s[1]).Some?
    requires 16 * HexDigit(s[0]).value + HexDigit(s[1]).value < 256
    ensures DecodeHex(s[2..]).Some?
    ensures DecodeHex(s) == Some([(16 * HexDigit(s[0]).value + HexDigit(s[1]).value) as byte] + DecodeHex(s[2..]).value)
  {
    hide HexDigit;
  }

  lemma DecodedPair(s: string)
    requires |s| >= 2 && DecodeHex(s).Some? && HexDigit(s[0]).Some? && HexDigit(s[1]).Some?
    requires 16 * HexDigit(s[0]).value + HexDigit(s[1]).value < 256
    ensures DecodeHex(s[2..]).Some?
    ensures var n := 16 * HexDigit(s[0]).value + HexDigit(s[1]).value;
            EncodeHex(DecodeHex(s).value) == [HexChar(n / 16), HexChar(n % 16)] + EncodeHex(DecodeHex(s[2..]).value)
  {
    hide HexDigit, HexChar, DecodeHex;
    DecodedFirst(s);
    var n, rest := 16 * HexDigit(s[0]).value + HexDigit(s[1]).value, DecodeHex(s[2..]).value;
    assert ([n as byte] + rest)[1..] == rest;
  }

  /** The prefix 0x is required, with a small or a capital x. */
  lemma DecodePrefixedExact(s: string, b: Bytes)
    ensures DecodePrefixedHex(s) == Some(b) <==> exists d | DecodeHex(d) == Some(b) :: s == "0x" + d || s == "0X" + d
  {
    hide DecodeHex;
    assert HasPrefix(s, "0x") ==> s == "0x" + s[2..];
    assert HasPrefix(s, "0X") ==> s == "0X" + s[2..];
    forall d ensures DecodePrefixedHex("0x" + d) == DecodePrefixedHex("0X" + d) == DecodeHex(d) {
      assert ("0x" + d)[2..] == d && ("0X" + d)[2..] == d;
    }
  }

  /* ---------- wallet addresses ---------- */

  const ADDRESS_DIGITS := 40

  /** util.go, NormalizeHexString */
  function NormalizeHex(s: string): string {
    var t := TrimSpace(s);
    if HasPrefix(t, "0x") then t else "0x" + t
  }

  /** common.IsHexAddress: the prefix is optional, in either case. */
  predicate IsHexAddress(s: string) {
    var digits := if HasPrefix(s, "0x") || HasPrefix(s, "0X") then s[2..] else s;
    |digits| == ADDRESS_DIGITS && IsHex(digits)
  }

  /** A normalised wallet is 0x and forty hexadecimal digits, in whatever case they were sent. */
  lemma NormalWallet(s: string)
    ensures HasPrefix(NormalizeHex(s), "0x") && NormalizeHex(NormalizeHex(s)) == NormalizeHex(s)
    ensures IsHexAddress(NormalizeHex(s)) ==> ':' !in NormalizeHex(s) && '\n' !in NormalizeHex(s)
  {
    TrimSpaceTrims(s);
    var w := NormalizeHex(s);
    assert Trimmed(w);
    TrimSpaceTrims(w);
    if IsHexAddress(w) {
      assert w == "0x" + w[2..];
    }
  }

  /** What normalisation does to a text in any white space: the prefix is added unless it is there. */
  lemma NormalizeHexExact(l: string, t: string, r: string)
    requires AllSpace(l) && AllSpace(r) && Trimmed(t) && t != ""
    ensures NormalizeHex(l + t + r) == if HasPrefix(t, "0x") then t else "0x" + t
  {
    TrimSpaceExact(l, t, r);
  }

  predicate FortyDigits(d: string) { |d| == 40 && forall i | 0 <= i < 40 :: HexName(d[i]) }

  /** An address is forty hexadecimal digits, bare or after 0x or 0X. */
  lemma HexAddressExact(s: string)
    ensures IsHexAddress(s) <==> exists d | FortyDigits(d) :: s == d || s == "0x" + d || s == "0X" + d
  {
    hide HexDigit, HexName;
    assert HasPrefix(s, "0x") ==> s[..2] == "0x";
    assert HasPrefix(s, "0X") ==> s[..2] == "0X";
    if IsHexAddress(s) {
      var d := if HasPrefix(s, "0x") || HasPrefix(s, "0X") then s[2..] else s;
      forall i | 0 <= i < 40 ensures HexName(d[i]) {
        HexNamed(d[i]);
      }
      assert FortyDigits(d);
      if d != s {
        assert s == s[..2] + d;
      }
    }
    forall d | FortyDigits(d) ensures IsHexAddress(d) && IsHexAddress("0x" + d) && IsHexAddress("0X" + d) {
      DigitsAreAddress(d);
    }
  }

  lemma DigitsAreAddress(d: string)
    requires FortyDigits(d)
    ensures IsHexAddress(d) && IsHexAddress("0x" + d) && IsHexAddress("0X" + d)
  {
    hide HexDigit;
    forall i | 0 <= i < 40 ensures HexDigit(d[i]).Some? {
      HexNamed(d[i]);
    }
    assert d[1] != 'x' && d[1] != 'X';
    assert ("0x" + d)[2..] == d && ("0X" + d)[2..] == d;
  }
}
