/**
  The text of a sign-in challenge, as ERC-4361 lays it out, and a parser for the part of
  its "ABNF Message Format" that the template uses.
 */
module SiweMessage {
  import opened Wrappers
  import opened Text

  const VERSION := 1
  const SECOND := 1_000_000_000
  const EXPIRATION := 15 * 60 * SECOND

  /** The values a challenge is filled with; times are already printed. */
  datatype Fields = Fields(domain: string, wallet: string, uri: string, chainId: nat, nonce: string,
                           issuedAt: string, expiresAt: string)

  const ASKS := " wants you to sign in" + " with your Ethereum account:"
  const ACCEPTS := "I accept the "
  const TERMS := " Terms of Service"

  const LINES := 11

  function Line(f: Fields, i: nat): string
    requires i < LINES
  {
    match i
    case 0 => f.domain + ASKS
    case 1 => f.wallet
    case 3 => ACCEPTS + f.domain + TERMS
    case 5 => "URI: " + f.uri
    case 6 => "Version: " + Decimal(VERSION)
    case 7 => "Chain ID: " + Decimal(f.chainId)
    case 8 => "Nonce: " + f.nonce
    case 9 => "Issued At: " + f.issuedAt
    case 10 => "Expiration Time: " + f.expiresAt
    case _ => ""
  }

  function Lines(f: Fields): seq<string> { seq(LINES, i requires 0 <= i < LINES => Line(f, i)) }

  /** siwe.go, the template with its nine verbs filled in. */
  function Render(f: Fields): string { Join(Lines(f), '\n') }

  /** The eleven lines of the template in siwe.go, with its nine verbs filled in. */
  function Template(f: Fields): string {
    Join([f.domain + " wants you to sign in with your Ethereum account:",
          f.wallet,
          "",
          "I accept the " + f.domain + " Terms of Service",
          "",
          "URI: " + f.uri,
          "Version: 1",
          "Chain ID: " + Decimal(f.chainId),
          "Nonce: " + f.nonce,
          "Issued At: " + f.issuedAt,
          "Expiration Time: " + f.expiresAt], '\n')
  }

  /** What is rendered is the template, word for word. */
  lemma RenderExact(f: Fields)
    ensures Render(f) == Template(f)
  {
    hide Decimal;
    assert ASKS == " wants you to sign in with your Ethereum account:";
    VersionLine();
    var l := Lines(f);
    assert l == [l[0], l[1], l[2], l[3], l[4], l[5], l[6], l[7], l[8], l[9], l[10]];
  }

  lemma VersionLine()
    ensures "Version: " + Decimal(VERSION) == "Version: 1"
  {
  }

  predicate OneLine(s: string) { '\n' !in s }

  predicate Printable(f: Fields) {
    && OneLine(f.domain) && OneLine(f.wallet) && OneLine(f.uri) && OneLine(f.nonce)
    && OneLine(f.issuedAt) && OneLine(f.expiresAt)
  }

  /** The rest of a line after its label. */
  function After(line: string, tag: string): Option<string> {
    if HasPrefix(line, tag) then Some(line[|tag|..]) else None
  }

  function Before(line: string, tag: string): Option<string> {
    if HasSuffix(line, tag) then Some(line[..|line| - |tag|]) else None
  }

  /** A plain numeral: digits without leading zeros, as `%d` prints them. */
  function PlainNumber(s: string): Option<nat> {
    if IsPlain(s) then Some(Value(s)) else None
  }

  function Parse(message: string): Option<Fields> {
    var l := Split(message, '\n');
    if |l| != LINES || l[2] != "" || l[4] != "" || l[6] != "Version: 1" then None else
    match (Before(l[0], ASKS), After(l[5], "URI: "), After(l[7], "Chain ID: "), After(l[8], "Nonce: "),
           After(l[9], "Issued At: "), After(l[10], "Expiration Time: "))
    case (Some(domain), Some(uri), Some(chain), Some(nonce), Some(issued), Some(expires)) =>
      if PlainNumber(chain).None? || l[3] != ACCEPTS + domain + TERMS then None
      else Some(Fields(domain, l[1], uri, PlainNumber(chain).value, nonce, issued, expires))
    case _ => None
  }

  lemma AfterTag(tag: string, rest: string)
    ensures After(tag + rest, tag) == Some(rest)
  {
    assert (tag + rest)[|tag|..] == rest;
  }

  lemma BeforeTag(start: string, tag: string)
    ensures Before(start + tag, tag) == Some(start)
  {
    var s := start + tag;
    assert s[|s| - |tag|..] == tag && s[..|s| - |tag|] == start;
  }

  lemma PlainNumberDecimal(n: nat)
    ensures PlainNumber(Decimal(n)) == Some(n) && OneLine(Decimal(n))
  {
    DecimalRoundTrip(n);
    DecimalIsPlain(n);
    assert forall i | 0 <= i < |Decimal(n)| :: IsDigit(Decimal(n)[i]);
  }

  lemma LiteralsOneLine()
    ensures OneLine(ASKS) && OneLine(ACCEPTS) && OneLine(TERMS)
  {
    assert OneLine(" wants you to sign in") && OneLine(" with your Ethereum account:");
  }

  lemma JoinedOneLine(a: string, b: string)
    requires OneLine(a) && OneLine(b)
    ensures OneLine(a + b)
  {
  }

  lemma LinesOneLine(f: Fields)
    requires Printable(f)
    ensures forall i | 0 <= i < |Lines(f)| :: OneLine(Lines(f)[i])
  {
    LiteralsOneLine();
    PlainNumberDecimal(f.chainId);
    PlainNumberDecimal(VERSION);
    JoinedOneLine(f.domain, ASKS);
    JoinedOneLine(ACCEPTS, f.domain);
    JoinedOneLine(ACCEPTS + f.domain, TERMS);
    JoinedOneLine("URI: ", f.uri);
    JoinedOneLine("Version: ", Decimal(VERSION));
    JoinedOneLine("Chain ID: ", Decimal(f.chainId));
    JoinedOneLine("Nonce: ", f.nonce);
    JoinedOneLine("Issued At: ", f.issuedAt);
    JoinedOneLine("Expiration Time: ", f.expiresAt);
  }

  /** The parser recovers the fields of every printed challenge, whatever text they hold. */
  lemma ParseRender(f: Fields)
    requires Printable(f)
    ensures Parse(Render(f)) == Some(f)
  {
    LinesOneLine(f);
    SplitJoin(Lines(f), '\n');
    PlainNumberDecimal(f.chainId);
    BeforeTag(f.domain, ASKS);
    AfterTag("URI: ", f.uri);
    AfterTag("Chain ID: ", Decimal(f.chainId));
    AfterTag("Nonce: ", f.nonce);
    AfterTag("Issued At: ", f.issuedAt);
    AfterTag("Expiration Time: ", f.expiresAt);
    assert "Version: " + Decimal(VERSION) == "Version: 1";
  }

  lemma TagAfter(line: string, tag: string)
    requires After(line, tag).Some?
    ensures line == tag + After(line, tag).value
  {
  }

  lemma TagBefore(line: string, tag: string)
    requires Before(line, tag).Some?
    ensures line == Before(line, tag).value + tag
  {
  }

  /** And nothing else parses: a text with parsed fields is the print of exactly those fields. */
  lemma RenderParse(message: string)
    requires Parse(message).Some?
    ensures Render(Parse(message).value) == message && Printable(Parse(message).value)
  {
    var l := Split(message, '\n');
    var f := Parse(message).value;
    JoinSplit(message, '\n');
    TagBefore(l[0], ASKS);
    TagAfter(l[5], "URI: ");
    TagAfter(l[7], "Chain ID: ");
    PlainIsDecimal(After(l[7], "Chain ID: ").value);
    TagAfter(l[8], "Nonce: ");
    TagAfter(l[9], "Issued At: ");
    TagAfter(l[10], "Expiration Time: ");
    assert "Version: " + Decimal(VERSION) == "Version: 1";
    assert Lines(f) == l;
    assert forall i | 0 <= i < |l| :: OneLine(l[i]);
  }

  /** Two different challenges never have the same text. */
  lemma DistinctFieldsDistinctMessages(f: Fields, g: Fields)
    requires Printable(f) && Printable(g) && Render(f) == Render(g)
    ensures f == g
  {
    ParseRender(f);
    ParseRender(g);
  }

  /* ---------- Times ---------- */

  /**
    Calendar printing to whole seconds, with its reader (section 5.6 of RFC 3339). The
    printed text depends on the second only, so a printed time loses its fraction.
   */
  datatype Calendar = Calendar(show: int -> string, read: string -> Option<int>)

  ghost predicate Readable(calendar: Calendar) {
    forall second :: OneLine(calendar.show(second)) && calendar.read(calendar.show(second)) == Some(second)
  }

  /** Rounds towards the past, as cutting the fraction of a printed time does. */
  function WholeSeconds(nanos: int): int { nanos / SECOND }

  function FieldsAt(calendar: Calendar, domain: string, wallet: string, uri: string, chainId: nat, nonce: string,
                    now: int): Fields {
    Fields(domain, wallet, uri, chainId, nonce,
           calendar.show(WholeSeconds(now)), calendar.show(WholeSeconds(now + EXPIRATION)))
  }

  /** Read back from the message, the challenge lasts exactly 900 seconds at any issue time. */
  lemma PrintedLifetime(calendar: Calendar, domain: string, wallet: string, uri: string, chainId: nat,
                        nonce: string, now: int)
    requires Readable(calendar)
    requires OneLine(domain) && OneLine(wallet) && OneLine(uri) && OneLine(nonce)
    ensures var parsed := Parse(Render(FieldsAt(calendar, domain, wallet, uri, chainId, nonce, now)));
            && parsed.Some?
            && calendar.read(parsed.value.issuedAt).Some? && calendar.read(parsed.value.expiresAt).Some?
            && calendar.read(parsed.value.expiresAt).value - calendar.read(parsed.value.issuedAt).value == 900
  {
    var f := FieldsAt(calendar, domain, wallet, uri, chainId, nonce, now);
    assert OneLine(calendar.show(WholeSeconds(now))) && OneLine(calendar.show(WholeSeconds(now + EXPIRATION)));
    ParseRender(f);
    assert WholeSeconds(now + EXPIRATION) == WholeSeconds(now) + 900;
  }
}
