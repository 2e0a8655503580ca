/**
  Strings as the services use them: decimal numerals, zero padding, splitting on a
  separator, trimming and ASCII case. A Go string is a sequence of bytes, so one `char`
  stands for one byte wherever a length is printed.
 */
module Text {
  import opened Wrappers

  /* ---------- Decimal numerals ---------- */

  predicate IsDigit(c: char) { '0' <= c <= '9' }

  predicate IsNumeral(s: string) { forall i | 0 <= i < |s| :: IsDigit(s[i]) }

  function DigitChar(d: nat): char
    requires d < 10
  {
    ('0' as int + d) as char
  }

  function DigitValue(c: char): nat
    requires IsDigit(c)
  {
    c as int - '0' as int
  }

  /** The text `%d` prints for a non-negative number. */
  function Decimal(n: nat): string {
    if n < 10 then [DigitChar(n)] else Decimal(n / 10) + [DigitChar(n % 10)]
  }

  /** The number a string of digits denotes; leading zeros are allowed. */
  function Value(s: string): nat
    requires IsNumeral(s)
  {
    if s == "" then 0 else 10 * Value(s[..|s| - 1]) + DigitValue(s[|s| - 1])
  }

  function Pow10(n: nat): nat { if n == 0 then 1 else 10 * Pow10(n - 1) }

  lemma {:induction false} DecimalRoundTrip(n: nat)
    ensures |Decimal(n)| >= 1 && IsNumeral(Decimal(n)) && Value(Decimal(n)) == n
  {
    if n < 10 {
      assert Value([DigitChar(n)]) == 10 * Value([DigitChar(n)][..0]) + n;
    } else {
      DecimalRoundTrip(n / 10);
      assert Decimal(n)[..|Decimal(n)| - 1] == Decimal(n / 10);
    }
  }

  /** Digits, and no leading zero but for zero itself. */
  predicate IsPlain(s: string) { s != "" && IsNumeral(s) && (|s| == 1 || s[0] != '0') }

  lemma {:induction false} DecimalIsPlain(n: nat)
    ensures IsPlain(Decimal(n))
    ensures n >= 1 ==> Decimal(n)[0] != '0'
  {
    DecimalRoundTrip(n);
    if n >= 10 {
      DecimalIsPlain(n / 10);
    }
  }

  lemma {:induction false} PlainIsDecimal(s: string)
    requires IsPlain(s)
    ensures Decimal(Value(s)) == s
    ensures s[0] != '0' ==> Value(s) >= 1
  {
    hide IsNumeral, DigitChar, DigitValue;
    var front, d := s[..|s| - 1], s[|s| - 1];
    PlainFront(s);
    assert s == front + [d];
    if front != "" {
      PlainIsDecimal(front);
      TenDigits(Value(front), DigitValue(d));
    }
  }

  /** A plain numeral without its last digit. */
  lemma PlainFront(s: string)
    requires IsPlain(s)
    ensures var front, d := s[..|s| - 1], s[|s| - 1];
            && IsNumeral(s) && IsNumeral(front) && IsDigit(d) && DigitValue(d) < 10 && DigitChar(DigitValue(d)) == d
            && (front != "" ==> IsPlain(front) && front[0] == s[0] && front[0] != '0')
            && Value(s) == 10 * Value(front) + DigitValue(d)
            && (front == "" ==> Value(front) == 0 && (s[0] != '0' ==> DigitValue(d) >= 1))
  {
  }

  lemma TenDigits(hi: nat, lo: nat)
    requires lo < 10
    ensures (10 * hi + lo) / 10 == hi && (10 * hi + lo) % 10 == lo
  {
  }

  /** The ten digits, by name. */
  lemma DigitsExact(d: nat)
    requires d < 10
    ensures DigitChar(d) == "0123456789"[d] && DigitValue("0123456789"[d]) == d
  {
  }

  lemma {:induction false} DecimalFits(n: nat, width: nat)
    requires width >= 1 && n < Pow10(width)
    ensures |Decimal(n)| <= width
  {
    if n >= 10 {
      DecimalFits(n / 10, width - 1);
    }
  }

  lemma {:induction false} DecimalLengthMonotone(m: nat, n: nat)
    requires m <= n
    ensures |Decimal(m)| <= |Decimal(n)|
  {
    if m >= 10 {
      DecimalLengthMonotone(m / 10, n / 10);
    }
  }

  lemma {:induction false} ValueBound(s: string)
    requires IsNumeral(s)
    ensures Value(s) < Pow10(|s|)
  {
    if s != "" {
      ValueBound(s[..|s| - 1]);
    }
  }

  /** Numerals of one length are determined by their value. */
  lemma {:induction false} NumeralDetermined(s: string, t: string)
    requires IsNumeral(s) && IsNumeral(t) && |s| == |t| && Value(s) == Value(t)
    ensures s == t
  {
    if s != "" {
      var a, b := s[..|s| - 1], t[..|t| - 1];
      NumeralDetermined(a, b);
      assert s == a + [s[|s| - 1]] && t == b + [t[|t| - 1]];
    }
  }

  /* ---------- Zero-padded numerals (util.go, GenerateRandomNumericString) ---------- */

  function Zeros(n: nat): string { seq(n, _ => '0') }

  /** The text `%0*s` prints for a number in a field of the given width. */
  function ZeroPadded(n: nat, width: nat): string {
    var digits := Decimal(n);
    Zeros(if |digits| < width then width - |digits| else 0) + digits
  }

  lemma {:induction false} ZerosAreWorthless(k: nat, s: string)
    requires IsNumeral(s)
    ensures IsNumeral(Zeros(k) + s) && Value(Zeros(k) + s) == Value(s)
    decreases |s|, k
  {
    var t := Zeros(k) + s;
    if s != "" {
      ZerosAreWorthless(k, s[..|s| - 1]);
      assert t[..|t| - 1] == Zeros(k) + s[..|s| - 1];
    } else if k > 0 {
      ZerosAreWorthless(k - 1, "");
      assert t[..|t| - 1] == Zeros(k - 1) + "";
    }
  }

  /**
    Padding is a bijection between the numbers below 10^width and the numerals of exactly
    `width` digits, for every positive width: this direction is "number to text to number".
   */
  lemma ZeroPaddedRoundTrip(n: nat, width: nat)
    requires width >= 1 && n < Pow10(width)
    ensures |ZeroPadded(n, width)| == width && IsNumeral(ZeroPadded(n, width))
    ensures Value(ZeroPadded(n, width)) == n
  {
    DecimalFits(n, width);
    DecimalRoundTrip(n);
    ZerosAreWorthless(width - |Decimal(n)|, Decimal(n));
  }

  /** The other direction of the bijection: every numeral of `width` digits is some padded number. */
  lemma ZeroPaddedOnto(s: string)
    requires |s| >= 1 && IsNumeral(s)
    ensures Value(s) < Pow10(|s|) && ZeroPadded(Value(s), |s|) == s
  {
    ValueBound(s);
    ZeroPaddedRoundTrip(Value(s), |s|);
    NumeralDetermined(ZeroPadded(Value(s), |s|), s);
  }

  /* ---------- Signed 64-bit numerals (strconv.ParseInt with base 10) ---------- */

  const MIN_INT64: int := -0x8000_0000_0000_0000
  const MAX_INT64: int := 0x7fff_ffff_ffff_ffff

  function SignedDecimal(n: int): string { if n < 0 then "-" + Decimal(-n) else Decimal(n) }

  /** None stands for either parse error: malformed text or a number outside 64 bits. */
  function ParseInt64(s: string): Option<int> {
    var negative := s != "" && s[0] == '-';
    var digits := if s != "" && (s[0] == '-' || s[0] == '+') then s[1..] else s;
    if digits == "" || !IsNumeral(digits) then None else
    var magnitude: int := Value(digits);
    var n := if negative then -magnitude else magnitude;
    if MIN_INT64 <= n <= MAX_INT64 then Some(n) else None
  }

  lemma SignedDecimalRoundTrip(n: int)
    requires MIN_INT64 <= n <= MAX_INT64
    ensures ParseInt64(SignedDecimal(n)) == Some(n)
    ensures forall c | c in SignedDecimal(n) :: IsDigit(c) || c == '-'
  {
    var m: nat := if n < 0 then -n else n;
    DecimalRoundTrip(m);
    assert IsDigit(Decimal(m)[0]);
    assert n < 0 ==> ("-" + Decimal(m))[1..] == Decimal(m);
  }

  /** A text parses exactly when it is an optional sign and digits of a number within 64 bits. */
  lemma ParseInt64Exact(s: string, n: int)
    ensures ParseInt64(s) == Some(n) <==>
      && -9223372036854775808 <= n <= 9223372036854775807
      && exists digits | digits != "" && IsNumeral(digits) ::
           (n == Value(digits) && (s == digits || s == "+" + digits)) || (n + Value(digits) == 0 && s == "-" + digits)
  {
    if ParseInt64(s) == Some(n) {
      var digits := if s[0] == '-' || s[0] == '+' then s[1..] else s;
      assert s == digits || s == [s[0]] + digits;
      assert digits != "" && IsNumeral(digits);
    }
    forall digits | digits != "" && IsNumeral(digits)
      ensures (s == digits || s == "+" + digits) && n == Value(digits) && n <= MAX_INT64 ==> ParseInt64(s) == Some(n)
      ensures s == "-" + digits && n + Value(digits) == 0 && n >= MIN_INT64 ==> ParseInt64(s) == Some(n)
    {
      assert IsDigit(digits[0]);
      assert ("+" + digits)[1..] == digits && ("-" + digits)[1..] == digits;
    }
  }

  /* ---------- Splitting and joining ---------- */

  /** strings.Split with a one-character separator. */
  function Split(s: string, sep: char): (parts: seq<string>)
    ensures |parts| >= 1
  {
    if s == "" then [""] else
    var rest := Split(s[1..], sep);
    if s[0] == sep then [""] + rest else [[s[0]] + rest[0]] + rest[1..]
  }

  function Join(parts: seq<string>, sep: char): string
    requires |parts| >= 1
  {
    if |parts| == 1 then parts[0] else parts[0] + [sep] + Join(parts[1..], sep)
  }

  lemma {:induction false} SplitUnseparated(p: string, sep: char)
    requires sep !in p
    ensures Split(p, sep) == [p]
  {
    if p != "" {
      SplitUnseparated(p[1..], sep);
      assert [p[0]] + p[1..] == p;
    }
  }

  lemma {:induction false} SplitFirst(p: string, rest: string, sep: char)
    requires sep !in p
    ensures Split(p + [sep] + rest, sep) == [p] + Split(rest, sep)
  {
    var s := p + [sep] + rest;
    if p == "" {
      assert s[1..] == rest;
    } else {
      SplitFirst(p[1..], rest, sep);
      assert s[1..] == p[1..] + [sep] + rest;
      assert [p[0]] + p[1..] == p;
    }
  }

  /** Splitting undoes joining when no part holds the separator. */
  lemma {:induction false} SplitJoin(parts: seq<string>, sep: char)
    requires |parts| >= 1 && forall i | 0 <= i < |parts| :: sep !in parts[i]
    ensures Split(Join(parts, sep), sep) == parts
  {
    if |parts| == 1 {
      SplitUnseparated(parts[0], sep);
    } else {
      SplitFirst(parts[0], Join(parts[1..], sep), sep);
      SplitJoin(parts[1..], sep);
    }
  }

  /** Joining undoes splitting, and no part of a split holds the separator. */
  lemma {:induction false} JoinSplit(s: string, sep: char)
    ensures Join(Split(s, sep), sep) == s
    ensures forall i | 0 <= i < |Split(s, sep)| :: sep !in Split(s, sep)[i]
  {
    if s != "" {
      JoinSplit(s[1..], sep);
      var rest := Split(s[1..], sep);
      assert s == [s[0]] + s[1..];
      if s[0] == sep {
        assert ([""] + rest)[1..] == rest;
      } else {
        var parts := [[s[0]] + rest[0]] + rest[1..];
        assert parts[1..] == rest[1..];
        if |rest| > 1 {
          assert Join(parts, sep) == [s[0]] + (rest[0] + [sep] + Join(rest[1..], sep));
        }
      }
    }
  }

  /** The position of the last separator. */
  function LastIndex(s: string, sep: char): (i: nat)
    requires sep in s
    ensures i < |s|
  {
    if s[|s| - 1] == sep then |s| - 1 else LastIndex(s[..|s| - 1], sep)
  }

  lemma {:induction false} LastIndexAt(a: string, b: string, sep: char)
    requires sep !in b
    ensures LastIndex(a + [sep] + b, sep) == |a|
  {
    var s := a + [sep] + b;
    if b != "" {
      LastIndexAt(a, b[..|b| - 1], sep);
      assert s[..|s| - 1] == a + [sep] + b[..|b| - 1];
    }
  }

  /** Where the last separator stands is determined by the text, so the cut there is unique. */
  lemma LastCutUnique(a: string, b: string, a': string, b': string, sep: char)
    requires sep !in b && sep !in b' && a + [sep] + b == a' + [sep] + b'
    ensures a == a' && b == b'
  {
    LastIndexAt(a, b, sep);
    LastIndexAt(a', b', sep);
    var s := a + [sep] + b;
    assert a == s[..|a|] && b == s[|a| + 1..];
    assert a' == s[..|a'|] && b' == s[|a'| + 1..];
  }

  /* ---------- Trimming and case ---------- */

  /** The Unicode White Space characters that strings.TrimSpace removes. */
  predicate IsSpace(c: char) {
    || '\t' <= c <= '\r' || c == ' ' || c == '\U{0085}' || c == '\U{00A0}' || c == '\U{1680}'
    || '\U{2000}' <= c <= '\U{200A}' || c == '\U{2028}' || c == '\U{2029}' || c == '\U{202F}'
    || c == '\U{205F}' || c == '\U{3000}'
  }

  function TrimLeft(s: string): string {
    if s != "" && IsSpace(s[0]) then TrimLeft(s[1..]) else s
  }

  function TrimRight(s: string): string {
    if s != "" && IsSpace(s[|s| - 1]) then TrimRight(s[..|s| - 1]) else s
  }

  function TrimSpace(s: string): string { TrimRight(TrimLeft(s)) }

  predicate Trimmed(s: string) { s == "" || (!IsSpace(s[0]) && !IsSpace(s[|s| - 1])) }

  lemma {:induction false} TrimLeftStart(s: string)
    ensures TrimLeft(s) == "" || !IsSpace(TrimLeft(s)[0])
  {
    if s != "" && IsSpace(s[0]) { TrimLeftStart(s[1..]); }
  }

  lemma {:induction false} TrimRightKeepsStart(s: string)
    requires s == "" || !IsSpace(s[0])
    ensures Trimmed(TrimRight(s))
  {
    if s != "" && IsSpace(s[|s| - 1]) { TrimRightKeepsStart(s[..|s| - 1]); }
  }

  lemma TrimSpaceTrims(s: string)
    ensures Trimmed(TrimSpace(s))
    ensures Trimmed(s) ==> TrimSpace(s) == s
  {
    TrimLeftStart(s);
    TrimRightKeepsStart(TrimLeft(s));
  }

  predicate AllSpace(s: string) { forall i | 0 <= i < |s| :: IsSpace(s[i]) }

  lemma {:induction false} TrimLeftSkips(l: string, t: string)
    requires AllSpace(l) && (t == "" || !IsSpace(t[0]))
    ensures TrimLeft(l + t) == t
  {
    if l == "" {
      assert l + t == t;
    } else {
      assert (l + t)[1..] == l[1..] + t;
      TrimLeftSkips(l[1..], t);
    }
  }

  lemma {:induction false} TrimRightSkips(t: string, r: string)
    requires AllSpace(r) && (t == "" || !IsSpace(t[|t| - 1]))
    ensures TrimRight(t + r) == t
  {
    if r == "" {
      assert t + r == t;
    } else {
      assert (t + r)[..|t + r| - 1] == t + r[..|r| - 1];
      TrimRightSkips(t, r[..|r| - 1]);
    }
  }

  /** Trimming takes away the white space at both ends, and nothing else. */
  lemma TrimSpaceExact(l: string, t: string, r: string)
    requires AllSpace(l) && AllSpace(r) && Trimmed(t) && t != ""
    ensures TrimSpace(l + t + r) == t
  {
    assert l + t + r == l + (t + r);
    TrimLeftSkips(l, t + r);
    TrimRightSkips(t, r);
  }

  /** What trims to nothing is white space. */
  lemma {:induction false} BlankExact(s: string)
    ensures TrimSpace(s) == "" <==> AllSpace(s)
  {
    TrimLeftStart(s);
    if AllSpace(s) {
      assert s + "" == s;
      TrimLeftSkips(s, "");
    } else {
      TrimLeftKeeps(s);
      TrimRightKeepsStart(TrimLeft(s));
      TrimRightKeeps(TrimLeft(s));
    }
  }

  lemma {:induction false} TrimLeftKeeps(s: string)
    requires !AllSpace(s)
    ensures !AllSpace(TrimLeft(s))
  {
    if s != "" && IsSpace(s[0]) {
      assert s == [s[0]] + s[1..];
      TrimLeftKeeps(s[1..]);
    }
  }

  lemma {:induction false} TrimRightKeeps(s: string)
    requires !AllSpace(s)
    ensures TrimRight(s) != ""
  {
    if s != "" && IsSpace(s[|s| - 1]) {
      assert s == s[..|s| - 1] + [s[|s| - 1]];
      TrimRightKeeps(s[..|s| - 1]);
    }
  }

  /** The characters with Unicode's property White_Space. */
  const WHITE_SPACE := "\t\n\U{0B}\U{0C}\r \U{85}\U{A0}\U{1680}" + "\U{2000}\U{2001}\U{2002}\U{2003}\U{2004}\U{2005}"
                       + "\U{2006}\U{2007}\U{2008}\U{2009}\U{200A}\U{2028}\U{2029}\U{202F}\U{205F}\U{3000}"

  lemma WhiteSpaceExact(c: char)
    ensures IsSpace(c) <==> c in WHITE_SPACE
  {
  }

  const UPPER := "ABCDEFGHIJKLMNOPQRSTUVWXYZ"
  const LOWER := "abcdefghijklmnopqrstuvwxyz"

  /** Each capital letter has its small one, and every other character stays. */
  lemma LowerCharExact(c: char)
    ensures forall i | 0 <= i < |UPPER| :: c == UPPER[i] ==> LowerChar(c) == LOWER[i]
    ensures c !in UPPER ==> LowerChar(c) == c
  {
    if 'A' <= c <= 'Z' {
      assert UPPER[c as int - 'A' as int] == c;
    }
  }

  function LowerChar(c: char): char { if 'A' <= c <= 'Z' then (c as int + 32) as char else c }

  function ToLower(s: string): string { seq(|s|, i requires 0 <= i < |s| => LowerChar(s[i])) }

  /** strings.EqualFold on ASCII text. */
  predicate EqualFold(s: string, t: string) { ToLower(s) == ToLower(t) }

  /** The form in which a service name is signed and announced. */
  function CanonicalName(s: string): string { ToLower(TrimSpace(s)) }

  lemma CanonicalNameIdempotent(s: string)
    ensures Trimmed(CanonicalName(s)) && CanonicalName(CanonicalName(s)) == CanonicalName(s)
  {
    TrimSpaceTrims(s);
    var t := TrimSpace(s);
    assert Trimmed(ToLower(t));
    TrimSpaceTrims(ToLower(t));
    assert ToLower(ToLower(t)) == ToLower(t);
  }

  /** The canonical form of a name in any white space: the name itself, letter by letter in lower case. */
  lemma CanonicalNameExact(l: string, t: string, r: string)
    requires AllSpace(l) && AllSpace(r) && Trimmed(t) && t != ""
    ensures var c := CanonicalName(l + t + r);
            && |c| == |t|
            && forall i | 0 <= i < |t| ::
                 if t[i] in UPPER then exists k | 0 <= k < 26 :: t[i] == UPPER[k] && c[i] == LOWER[k] else c[i] == t[i]
  {
    TrimSpaceExact(l, t, r);
    var c := CanonicalName(l + t + r);
    forall i | 0 <= i < |t|
      ensures if t[i] in UPPER then exists k | 0 <= k < 26 :: t[i] == UPPER[k] && c[i] == LOWER[k] else c[i] == t[i]
    {
      LowerCharExact(t[i]);
      assert c[i] == LowerChar(t[i]);
    }
  }

  predicate HasPrefix(s: string, prefix: string) { prefix <= s }

  predicate HasSuffix(s: string, suffix: string) {
    |suffix| <= |s| && s[|s| - |suffix|..] == suffix
  }
}
