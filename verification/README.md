# Verified model of the authentication service

A client signs in with an Ethereum wallet. It asks for a challenge, signs it, and the service `users`
passes the signature on to the auth service, which answers with an access token and a refresh token.
This project models that service together with the common library it stands on, and proves what its
clients and operators rely on. Verify it with `dafny verify dfyconfig.toml`.

## How the model is laid out

| module | models |
|---|---|
| `Text`, `Encoding`, `Wrappers` | decimal and zero-padded numerals, splitting, trimming, base64, hexadecimal, wallet addresses |
| `TtlCache` | the cache contract, with expiry and with calls that fail before or after taking effect; the two families of keys |
| `ServiceAuthentication` | the payload `name.timestamp.nonce.signature`: its printer, its parser, the key loop, the window, the memory of seen signatures |
| `SiweMessage`, `Siwe` | the challenge text and a parser for it, the checks of a request, issuing and fetching |
| `EthereumWallet` | the EIP-191 prefix, signing, recovery and comparison of addresses |
| `Protocol`, `CacheSafety` | all work at the cache as a machine of small steps, one for each clock reading and cache call of a request; what holds in every reachable state |
| `Challenges`, `SerialFetches`, `Agreement` | the challenge store against its simple form (one pending challenge per wallet), the fates of challenges, also when fetches do not get in each other's way, and agreement of successes with requests |
| `Replay`, `Signatures` | when a payload text, or the signed part of one under any signature, is accepted again |
| `CacheCalls` | the cache calls of a request that nobody interrupts are a run of those steps |
| `HonestSignIn`, `BusySignIn` | a sign-in by an honest client in any state, in one go and among any other requests, and exactly when it passes |
| `Tokens`, `Sessions` | bearer tokens; credentials, sessions and tokens as a machine of small steps whose calls interleave freely |
| `SessionSafety`, `SessionTheorems`, `Lifetime`, `Revocation`, `TokenWallets`, `SignUp`, `Addresses` | what holds in every reachable state of that machine |
| `Handlers` | the store and the handlers as classes; every handler is a run of the machine |
| `EndToEnd`, `TwoSessions`, `TwoUsers`, `Witnesses` | cache and database on one clock, all their steps interleaved: each token goes back to a signed challenge; one signature opens two sessions; one key signs up two users; both in a concrete world |
| `RateLimiter`, `RateTables`, `RateBudget`, `RateExact`, `RateRefusals` | the rate tables, the order of Go's map loops, the budget of a client and of an endpoint, when exactly it holds, and refusals |

Code that works step by step has the same form here: `authenticateService`, the key loop, the nonce
buffer, the recovery byte, the SIWE functions, the handlers, the transaction and `InitializeLimiters` are
methods (on classes where they change state). Each is proved equal to a specification function or to a run
of a machine, and the theorems are about those.

Time is in nanoseconds and only moves forward. A request reads the clock several times, and any time may pass
and any other request may act between the readings: the freshness check of a service payload, the cache's
reading and its writing of the signature; the dating of a challenge and its writing to the cache; the reading and
the deletion of a challenge. Between the two readings in `NewPayload`, inside one step, time may pass too.
Database calls, commits and cache calls may fail before or after they take effect.

## What is taken for granted

- Cryptography is ideal: verification and recovery undo signing, a token the service sealed decrypts to its
  payload and no other text decrypts, and only tokens that were handed out can be presented.
- A key may accept several signatures on one message, as ECDSA accepts (r, s) and (r, n - s). Results that need
  one accepted byte string per signed part carry that assumption, `Signatures.OneSignature`, in their contracts.
- `BusySignIn.BusySignInPasses` assumes that a wallet signature is good for no other message among the challenges written
  so far, `BusySignIn.GoodForOnly`; `BusySignIn.BusyCallPasses` needs no such assumption.
- A cache entry is readable up to and including its last instant.
- URL parsing and printing let no line break through, and calendar printing can be read back to the second.
- The database keeps the unique columns and, when `foreignKeys` is set, the foreign keys of the migration;
  an insert that meets an uncommitted row with the same user or wallet waits for it.
- A run starts from any credentials that satisfy the unique columns, and from no sessions.

## What the proofs brought to light

- **Sign-up and the foreign keys.** `AfterCreate` writes the session row through `h.store`, on another
  connection than the transaction that holds the new credential (`rpc_authenticate.go`, lines 155 to 158).
  The migration makes sessions refer to credentials (`000001_init_schema.up.sql`, lines 42 to 44), so the row
  is refused until the credential is committed, and the credential is rolled back because the row was refused.
  `SignUp.NoCredentialUnderForeignKeys` shows that no run commits a new credential under these keys;
  `SignUp.SignUpWorksIffUnchecked` shows that a faultless sign-up works exactly when they are not enforced.
  All other theorems hold for both settings, or say what holds for each, but for those of `TwoUsers` and
  `Witnesses.TwoUsersExist`, which are about stores on which sign-up works.
- **One challenge, two sessions.** Reading a challenge and deleting it are two cache calls, and deleting an absent key
  is no error. Two fetches that both read before either deletes are both handed the message, so one signature passes
  twice; `Challenges.OverlapReturnsTwice` is that run at the cache, and `TwoSessions.OneSignatureTwoSessions` takes two calls
  with one signature on to a session each. `Challenges.HandedOutOnceExact` gives the exact condition for a
  challenge to be handed out at most once in every continuation: no reader can find it any more, and at most one fetch
  has read it. By `Challenges.ReturnedOnce` an overlap is the only way. A deletion that comes late also sweeps a newer
  challenge; `Challenges.ChallengesConserved` counts these. When no write
  or deletion for the wallet comes between a fetch's reading and its deletion, and the deletion is in time, each challenge
  has one fate (`SerialFetches.UndisturbedConserved`). When returned fetches of a wallet do not overlap, each challenge
  backs one success at most (`SerialFetches.SerialFetchesHandOutOnce`, `Agreement.SerialInjectiveAgreement`).
- **A client can lose its challenge to others.** Anyone may ask for a challenge of any wallet, and a new one replaces the
  old. `BusySignIn.BusySignInPasses` lets any requests act between the steps of an honest call: it passes exactly when its
  payload is timely and unseen, its message is still pending when the challenge is read, and the wallet is its key's address.
- **One payload, two acceptances.** Reading the cache and writing the signature to it are two calls as well:
  `Replay.OverlapAcceptsTwice` has two copies of a payload accepted. `Replay.AcceptedOnceExact` gives the exact condition,
  for any class of payload texts, for at most one acceptance in every continuation.
- **Accepted once is a matter of time.** The freshness test has no lower end, and the cache entry lasts 60 s from
  its writing. `Signatures.AcceptedAgainIffPostdated` says when the same text is accepted again, no other copy being under
  way: it is still fresh, and its cache entry ends less than `delay` after its window, where `delay` is what a call may
  take from its freshness check to the cache's reading. Right after an acceptance that is, by
  `Signatures.PostdatedAfterWriting`: dated less than `delay` before the writing of the entry, or after it.
- **Accepted once is a matter of the signature's text.** The cache remembers neither the nonce nor the signed part, only
  the text of the signature. So the same name, timestamp and nonce are accepted again, postdated or not, under any other
  text that verifies: another spelling of the same bytes, since Go's base64 reader ignores line breaks and the unused bits
  of a padded group, or other bytes that the key accepts on the same fields. `Signatures.SignedPartAgainExact` is the exact
  condition for any set of texts that a transport carries: still fresh, and some carried signature text that verifies on
  the fields has no cache entry lasting until the window plus the delay. Where canonical base64 alone is carried and the
  key accepts one byte string, only the time matters (`Signatures.CanonicalReplayIffPostdated`); with a key that accepts
  two, `Signatures.TwofoldRingReplays` shows a run in which canonical base64 does not help.
  `Signatures.HeaderReplayExact` is for header lines, `Signatures.AnySpellingReplays` for arbitrary texts, where freshness
  is the only limit.
- **A late refresh outlives its session.** A refresh checks its token and reads the clock again for the new one, so
  an access token can be accepted after the session's expiry plus the access duration.
  `Lifetime.LateRefreshOutlives` is such a run for every configuration. `Lifetime.SessionLifetimeExact` shows that the
  bound holds, through all waits after every event of a run, exactly when every refresh dates its token no later than
  its session's expiry; for handlers that run one at a time, with no time passing inside a refresh, it is unconditional.
- **Revocation races with a refresh.** A refresh that has passed its session check still gets a token after a
  revocation. `Revocation.RevocationBoundExact` shows that the bound holds in every continuation exactly
  when no such refresh is under way; for handlers that run one at a time it is unconditional.
- **A revoked session of its own.** `Revocation.SessionRevocationExact` says it per session and through later sign-ins: what
  descends from a revoked session is accepted for one more access duration at most, in every continuation, exactly when
  no refresh of that session has passed its check.
- **A refreshed token names any wallet.** `RefreshAccessToken` takes the wallet of the new token from the request and
  compares it with nothing, and `VerifyAccessToken` answers with it. `TokenWallets.AnyWalletIsVerified` is a run that ends
  in an accepted token with a wallet of the client's choice; `TokenWallets.WalletsAgreeExact` shows that each access token
  has its session's wallet exactly when every completed refresh asked for that wallet.
- **One address, several credentials.** Credentials are bound to the raw wallet string, signatures to the address. Two
  spellings of an address (letter case, with or without 0x) can be committed for two users.
  `Addresses.AddressBindingIffOneSpelling` shows, from any table that keeps its unique columns, that an address has at most
  one credential in every run exactly when the wallet strings in use, those of the table included, hold at most one
  spelling of each address; under the foreign keys, where nobody new signs up, exactly when the table does.
  `TwoUsers.TwoUsersSignIn` walks the whole way with one key, signatures included, to credentials of two users.
- **Identifiers with colons can share a counter.** The counter key is `identifier:client`. When two identifiers share
  keys, the shorter period of one resets the budget of the other. At most Limit runs in a window hold all the same
  (`RateBudget.WindowBudget`). `RateExact.BudgetHoldsExact` decides for each
  configuration whether the two-budgets bound holds: every identifier in use that shares a key must have a period that is
  not positive, or at least Period - 1, unless Limit is at most one, or Limit is two and twice that period exceeds
  Period - 2. `RateExact.ThreeWindowsBreak` and `RateExact.FourWindowsBreak` are the runs that break it.
- **A malformed origin crashes the domain search.** `isDomainAllowed` drops the parse error and uses the
  missing URL. `Siwe.FirstOriginDecides` says for which configurations and domains this happens.

## Model

| member | source | states |
|---|---|---|
| Text.ZeroPaddedRoundTrip | libs/common/util/util.go:25-36 | for every width n >= 1 and number below 10^n, the padded text has exactly n digits and denotes the number |
| Text.ZeroPaddedOnto | libs/common/util/util.go:25-36 | the other half of the bijection: every string of n digits is the padded text of a number below 10^n |
| Text.SignedDecimalRoundTrip | libs/common/middleware/service_authentication.go:54-58 | every 64-bit number survives printing and parsing, and its text holds digits and a minus sign only |
| Text.ParseInt64Exact | libs/common/middleware/service_authentication.go:54-58 | a text parses exactly when it is an optional sign and digits, leading zeros allowed, of a number from -2^63 to 2^63 - 1 |
| Text.CanonicalNameIdempotent | libs/common/middleware/service_authentication.go:152-155 | a trimmed, lower-cased service name is trimmed and stays as it is when put in that form again |
| Text.CanonicalNameExact | libs/common/middleware/service_authentication.go:129 | a name in any white space becomes the name itself with each capital letter made small and every other character kept |
| Text.TrimSpaceExact | libs/common/util/util.go:39 | trimming takes the white space at both ends and nothing else |
| Encoding.Base64RoundTrip | libs/common/util/ecdsa.go:24-33 | base64 decoding undoes encoding for every byte string |
| Encoding.Base64Exact | libs/common/util/ecdsa.go:24 | three bytes become the base-64 digits, in the standard alphabet, of the 24-bit number they denote; one or two bytes at the end are filled with zeros and marked by padding |
| Encoding.DecodableText | libs/common/util/ecdsa.go:29-33 | a text that decodes as base64 holds neither a colon nor a dot, so it delimits neither keys nor payloads |
| Encoding.OnlySpelling | libs/common/util/ecdsa.go:24-33 | bytes that fill their last base64 group have one spelling without line breaks, the encoder's |
| Encoding.SecondSpellingIff | libs/common/util/ecdsa.go:24-33 | bytes have a second spelling without line breaks if and only if their number is no multiple of three |
| Encoding.LineBreaksIgnored | libs/common/util/ecdsa.go:29-33 | line breaks at the end of a text do not change what it decodes to |
| Encoding.LineBreakAnywhere | libs/common/util/ecdsa.go:29-33 | a carriage return or line feed anywhere in a text does not change what it decodes to |
| Encoding.HexRoundTrip | libs/common/util/ethereum_wallet.go:68-83 | hexadecimal decoding undoes encoding, and the printed digits are lower-case hexadecimal |
| Encoding.EncodeHexAt | libs/common/util/ethereum_wallet.go:68 | each byte is printed as its two hexadecimal digits, the higher one first |
| Encoding.DecodeHexExact | libs/common/util/ethereum_wallet.go:79-83 | a text decodes exactly when it is an even number of hexadecimal digits in either case, and the bytes print back as the text in lower case |
| Encoding.NormalWallet | libs/common/util/util.go:38-44 | normalisation is idempotent, gives a 0x prefix, and a normalised address holds no colon and no line break |
| Encoding.NormalizeHexExact | libs/common/util/util.go:38-44 | a text in any white space is normalised to itself with 0x in front, unless it has that already |
| Encoding.HexAddressExact | libs/common/util/ethereum_wallet.go:74-77 | an address is forty hexadecimal digits, bare or after 0x or 0X |
| TtlCache.Cache.Set | libs/common/cache/cache.go:10-12 | the entry gets the value and its last instant, other entries stay; an error may come before or after the write |
| TtlCache.Cache.Get | libs/common/cache/cache.go:13-15 | a failing call gives an error; an absent or expired key gives nothing and no error; a key in time, its last instant included, gives its value |
| TtlCache.Cache.Del | libs/common/cache/cache.go:16-18 | exactly the key goes; an absent key changes nothing |
| TtlCache.ServiceKeyInjective | libs/common/middleware/service_authentication.go:109 | service keys determine the service name, whatever it holds, and the colon-free signature |
| TtlCache.SiweKeyInjective | services/auth/internal/siwe/siwe.go:119 | challenge keys determine the service name and the wallet |
| TtlCache.KeyFamiliesDisjoint | services/auth/internal/siwe/siwe.go:147 | no service key equals a challenge key, for any two service names |
| TtlCache.KeyTexts | libs/common/middleware/service_authentication.go:109 | the two key formats, word for word |
| ServiceAuthentication.TimestampExact | libs/common/middleware/service_authentication.go:54-72 | the 64-bit product is exact for precisely the magnitudes up to 9223372036854, and there freshness is the unbounded test now <= ts + 60 s |
| ServiceAuthentication.Wrap64Exact | libs/common/middleware/service_authentication.go:60 | the product in 64 bits is the one 64-bit number that differs from the exact product by a multiple of 2^64 |
| ServiceAuthentication.TruncationCost | libs/common/middleware/service_authentication.go:167-168 | cutting to milliseconds dates a payload less than 1 ms early and never late, so it stays fresh for at least 60 s - 1 ms |
| ServiceAuthentication.PayloadTextRoundTrip | libs/common/middleware/service_authentication.go:183-185 | a payload printed from dot-free fields splits into exactly those fields |
| ServiceAuthentication.SplitPayloadExact | libs/common/middleware/service_authentication.go:41-50 | a text that splits into four fields is the print of them, and none holds a dot |
| ServiceAuthentication.RandomAlphanumeric | libs/common/util/util.go:12-23 | the buffer loop gives a string of the asked length whose characters are the drawn characters of the set, in order |
| ServiceAuthentication.VerifyWithKeys | libs/common/middleware/service_authentication.go:81-107 | for key lists of any length the loop's verdict is verification under the last key, once all keys parse and the signature decodes; otherwise it is the first error met |
| ServiceAuthentication.KeyVerdictExact | libs/common/middleware/service_authentication.go:90-107 | the errors in the order of the loop: a first key that does not parse, then a signature that does not decode, then any later key; and the last key's verdict otherwise |
| ServiceAuthentication.AuthenticateService | libs/common/middleware/service_authentication.go:33-132 | verdict, cache and time afterwards, for every payload text, time, cache fault and delay between the freshness check, the cache's reading and its writing, in the order of the checks |
| ServiceAuthentication.AdmitExact | libs/common/middleware/service_authentication.go:33-132 | for every payload text, cache, time, delay and fault: a call is admitted exactly when the text is four dot-free fields, the timestamp 64-bit and within its minute, the name not blank, the nonce ten characters, the keys present and parsing, the signature good under the last, no entry readable, and no cache call fails; then the service is the name in lower case without white space and the signature is kept for a minute from its writing; a refused call leaves the cache alone unless a failing write took effect |
| ServiceAuthentication.InspectedPayload | libs/common/middleware/service_authentication.go:41-107 | whatever passes the checks splits, has a 64-bit timestamp within the window, and a signature without a colon |
| ServiceAuthentication.GeneratedFields | libs/common/middleware/service_authentication.go:151-185 | a generated payload splits into the canonical name, the millisecond timestamp, the nonce and the base64 of a signature over the first three by the last private key |
| ServiceAuthentication.GenerateExact | libs/common/middleware/service_authentication.go:151-186 | a payload is made exactly when the last private key of the canonical name parses and signs, and it is the name, the milliseconds, the nonce and the base64 of the signature over these three in this order, between dots |
| ServiceAuthentication.GeneratedPayloadAccepted | libs/common/middleware/service_authentication.go:151-186 | when the last keys pair and all public keys parse, a generated payload is accepted in a faultless call, and under its canonical name, if and only if it is checked within 60 s of its date and its signature is not in the cache when that is read |
| SiweMessage.ParseRender | services/auth/internal/siwe/siwe.go:28-38 | a parser of the message undoes the template for all newline-free fields |
| SiweMessage.RenderExact | services/auth/internal/siwe/siwe.go:28-38 | a rendered message is the template word for word, line by line |
| SiweMessage.RenderParse | services/auth/internal/siwe/siwe.go:28-38 | nothing else parses: a parsed text is the print of exactly its fields |
| SiweMessage.DistinctFieldsDistinctMessages | services/auth/internal/siwe/siwe.go:114-117 | distinct field tuples give distinct messages |
| SiweMessage.PrintedLifetime | services/auth/internal/siwe/siwe.go:108-112 | read back from the message, expiry minus issue time is exactly 900 s although both are cut to seconds |
| Siwe.IsDomainAllowed | services/auth/internal/siwe/siwe.go:171-181 | the loop's verdict for every list of origins, the crash on a malformed one included |
| Siwe.FirstOriginDecides | services/auth/internal/siwe/siwe.go:171-181 | the first origin that is malformed or names the domain decides; without one the domain is refused |
| Siwe.CheckRequest | services/auth/internal/siwe/siwe.go:70-101 | the outcome of the checks in their order, and the URL without query and fragment when none refuses |
| Siwe.ComposeExact | services/auth/internal/siwe/siwe.go:61-131 | a challenge is composed exactly when the wallet is an address, the first origin that decides names the domain, the chain is supported, the URI parses with the domain as its host but for one www., and its scheme is https or the service in development; it is then the template with the normalised wallet, the URL without query and fragment, an eight-digit nonce and times 900 s apart |
| Siwe.CrashExact | services/auth/internal/siwe/siwe.go:171-181 | a request crashes the search exactly when its wallet is an address and a malformed origin stands before any that names its domain |
| Siwe.GeneratePayload | services/auth/internal/siwe/siwe.go:61-134 | answer, cache and time afterwards, with any delay between dating the message and writing it: a composed challenge replaces whatever its normalised wallet had, for 15 minutes from the writing, and nothing else changes |
| Siwe.IssueExact | services/auth/internal/siwe/siwe.go:119-123 | a composed challenge is answered exactly when the cache reports success, and unless the call failed before it, replaces its wallet's entry for 900 s from the writing; a refused request leaves the cache alone |
| Siwe.ComposedNonce | services/auth/internal/siwe/siwe.go:103-106 | the nonce has exactly eight digits and determines the random draw |
| Siwe.ComposedMessageReadable | services/auth/internal/siwe/siwe.go:99-117 | parsing the issued message gives back the request's domain, normalised wallet, URI without query and fragment, chain and nonce, and times 900 s apart that start at the second of issue |
| Siwe.FetchMessage | services/auth/internal/siwe/siwe.go:136-169 | answer, cache and time afterwards: a message is handed out only after its deletion reported success |
| Siwe.FetchExact | services/auth/internal/siwe/siwe.go:136-169 | a message is handed out exactly when the wallet is an address, no cache call fails, and an entry is readable under its key; a found entry is gone unless the deletion failed before it took effect, and nothing else changes |
| EthereumWallet.SignedTextInjective | libs/common/util/ethereum_wallet.go:60 | the EIP-191 version 0x45 encoding is injective over all messages although the length has no terminator |
| EthereumWallet.SignedTextExact | libs/common/util/ethereum_wallet.go:60 | a reader of EIP-191 version 0x45, which takes the prefix, a plain decimal numeral and as many characters as it says, gives back every message from its signed text and reads no other text |
| EthereumWallet.SignExact | libs/common/util/ethereum_wallet.go:54-71 | a signature is 0x and the hexadecimal of the key's signature on the hash of a text that reads as the message |
| EthereumWallet.CheckExact | libs/common/util/ethereum_wallet.go:73-107 | a check ends in a key exactly when the wallet is an address, the signature is 65 bytes in hexadecimal, the key is recovered from them, with 27 and 28 in the last place read as 0 and 1, and the hash of a text that reads as the message, and its address is the wallet but for letter case |
| EthereumWallet.IsSignatureValid | libs/common/util/ethereum_wallet.go:73-107 | the verdict for every wallet, message and signature text, with the recovery byte rewritten in place |
| EthereumWallet.SignThenCheck | libs/common/util/ethereum_wallet.go:54-107 | a signature is accepted for a wallet if and only if the normalised wallet is the signer's address in some letter case |
| EthereumWallet.AcceptedWalletSigned | libs/common/util/ethereum_wallet.go:89-106 | whatever is accepted was recovered from the exact message out of a 65-byte signature, and the recovered address is the wallet |
| EthereumWallet.RecoveryIdsAgree | libs/common/util/ethereum_wallet.go:90-92 | recovery ids 0/1 and 27/28 give the same verdict for every wallet and message |
| CacheSafety.StepSound | libs/common/middleware/service_authentication.go:109-126 | every step at the cache, in any interleaving and with any fault, keeps: the cache holds the simple form; each stage of each request is what its own steps found; each acceptance is remembered |
| Challenges.CacheRefinesPending | services/auth/internal/siwe/siwe.go:119-168 | after every run, in any interleaving and with any faults, the shared string-keyed cache holds for each wallet exactly the challenge of the simple form "latest written and not deleted since" |
| Challenges.PendingSource | services/auth/internal/siwe/siwe.go:114-123 | a pending challenge is the message composed by the request it is attributed to, for that wallet, and good for 15 minutes from its writing |
| Challenges.FetchIsExact | services/auth/internal/siwe/siwe.go:142-168 | in every run a fetch reads exactly the challenge that is pending and unexpired at its reading, or the matching error, and hands out what it read exactly when its deletion reports success |
| Challenges.ReturnedOnce | services/auth/internal/siwe/siwe.go:149-168 | two fetches that return one challenge overlap, each having read before the other deleted, however cache calls fail |
| Challenges.OverlapReturnsTwice | services/auth/internal/siwe/siwe.go:149-168 | from any sound state with a readable challenge, so from any reachable one: read, read, delete, delete hands it out to two fetches |
| Challenges.HandedOutOnceExact | services/auth/internal/siwe/siwe.go:149-168 | a written challenge is handed out at most once in every continuation if and only if no reader can find it and at most one fetch has read it |
| Challenges.ChallengesConserved | services/auth/internal/siwe/siwe.go:119-168 | per wallet, in every interleaving: challenges written + messages handed out late = pending + returned + superseded + expired + lost to a deletion that worked and reported an error + swept by the deletion of another |
| Challenges.NothingLost | services/auth/internal/siwe/siwe.go:163-168 | without a deletion that works and reports an error, nothing is lost |
| SerialFetches.UndisturbedConserved | services/auth/internal/siwe/siwe.go:149-168 | when, in a run with anything else in between, no write and no deletion for its wallet takes effect between the reading and the deletion of a fetch, and the deletion is within the challenge's 15 minutes: written = pending + returned + superseded + expired + lost, and no challenge is handed out twice |
| SerialFetches.PromptlyConserved | services/auth/internal/siwe/siwe.go:149-168 | the same when no event at all stands between the reading and the deletion of a fetch |
| SerialFetches.SerialFetchesHandOutOnce | services/auth/internal/siwe/siwe.go:149-168 | when returned fetches of one wallet do not overlap, however much time passes in them: no challenge is handed out twice, and messages handed out for a wallet are at most the challenges written for it |
| Agreement.AcceptedIsRemembered | libs/common/middleware/service_authentication.go:109-126 | from its acceptance on, a signature text stays in the cache for 60 s from its writing, whatever any other call does in between |
| Agreement.AcceptedAtMostOnce | libs/common/middleware/service_authentication.go:60-126 | two acceptances, the second of which read the cache after the first had written it and did not outlast its entry, are of different payload texts |
| Agreement.PassAgrees | services/auth/internal/api/handler/rpc_authenticate.go:47-69 | in every sound state, so in every reachable one, a successful call goes back to an earlier request for the same normalised wallet, read at most 15 minutes after its writing, whose exact message the signature recovers the wallet from, presented by the service users |
| Agreement.InjectiveAgreement | services/auth/internal/api/handler/rpc_authenticate.go:47-74 | in every run and interleaving, each success agrees with such a request and with an accepted payload; two successes share the request only if their fetches overlap, and the payload text only if the second check read before the first wrote, or outlasted its entry |
| Agreement.SerialInjectiveAgreement | services/auth/internal/api/handler/rpc_authenticate.go:47-74 | when returned fetches of one wallet do not overlap and checks follow one another within their entries, however much time passes in them, successes map one to one into requests and one to one into payload texts |
| Agreement.MiddlewareIgnoresChallenges | libs/common/middleware/service_authentication.go:109-126 | the middleware's verdict depends on no challenge entry of the cache |
| Agreement.FetchIgnoresSignatures | services/auth/internal/siwe/siwe.go:147-168 | a fetch depends on no service entry of the cache |
| Replay.AcceptedOnceExact | libs/common/middleware/service_authentication.go:60-126 | in every interleaving, for any class of payload texts and any delay from freshness check to reading: at most one acceptance in every continuation if and only if no text of the class is fresh with an entry that ends before the delay after its window, and at most one check of the class has passed or still can |
| Replay.OverlapAcceptsTwice | libs/common/middleware/service_authentication.go:109-126 | from a state in which a text of the class can pass, some continuation accepts two copies of it |
| Replay.AgainExact | libs/common/middleware/service_authentication.go:60-126 | with no check of the class under way, one more acceptance is possible if and only if some text of the class is fresh and not covered by the cache |
| Signatures.SignedPartAgainExact | libs/common/middleware/service_authentication.go:84-126 | after an acceptance with no other check of its signed part under way, the same name, timestamp and nonce are accepted again in some continuation if and only if they are still fresh and some carried signature text that verifies on them has no cache entry lasting until the window plus the delay; for every set of carried texts and every delay |
| Signatures.AcceptedAgainIffPostdated | libs/common/middleware/service_authentication.go:68-126 | the same text is accepted again in some continuation if and only if it is still fresh and its entry ends before the delay after its window |
| Signatures.PostdatedAfterWriting | libs/common/middleware/service_authentication.go:122-126 | right after the writing, an entry ends before the delay after the window exactly when the payload is dated less than the delay before the writing, or later |
| Signatures.CanonicalReplayIffPostdated | libs/common/middleware/service_authentication.go:84-126 | with canonical base64 carried alone and one byte string accepted by the key, the same condition holds of the signed part, however it is presented |
| Signatures.TwoSignaturesReplay | libs/common/util/ecdsa.go:29-39 | when the key accepts a second canonical signature that is not in the cache, a signed part that is still fresh is accepted again, postdated or not |
| Signatures.TwofoldRingReplays | libs/common/util/ecdsa.go:29-39 | for any two byte strings, under keys that accept both, a run accepts a payload that is not postdated and, in canonical base64, its fields can be accepted again |
| Signatures.SignedPartAcceptedOnce | libs/common/middleware/service_authentication.go:84-126 | in every run two acceptances in canonical base64 differ in a signed field when the key accepts one byte string, the second read after the first had written and did not outlast its entry |
| Signatures.HeaderReplayExact | libs/common/middleware/service_authentication.go:97-126 | in header lines, with one byte string accepted by the key: bytes that fill their last base64 group are accepted again if and only if postdated; others have a second spelling, and are accepted again exactly when still fresh and some spelling is not covered by the cache |
| Signatures.AnySpellingReplays | libs/common/middleware/service_authentication.go:97-126 | with arbitrary texts carried, a signed part is accepted again if and only if it is still fresh |
| CacheCalls.AskInOneGo | services/auth/internal/siwe/siwe.go:61-134 | the steps of a request for a challenge, taken in one go with any delay and fault, give the answer, cache and time of the function it is proved to compute |
| CacheCalls.CheckInOneGo | libs/common/middleware/service_authentication.go:33-132 | likewise for the check of a service payload: verdict, cache and time |
| CacheCalls.FetchInOneGo | services/auth/internal/siwe/siwe.go:136-169 | likewise for the fetch of a challenge |
| CacheCalls.CheckAuthenticate | services/auth/internal/api/handler/rpc_authenticate.go:47-69 | middleware and handler up to the signature check: answer, cache and time are those after the steps of one call in the order of the code; verified exactly when that call passes, and exactly when the payload is admitted as users, a challenge found and deleted, and the signature good for it |
| CacheCalls.AuthenticExact | services/auth/internal/api/handler/rpc_authenticate.go:47-69 | a call is verified exactly when its payload is admitted under the name users, a challenge of its wallet is then found and deleted, and the signature is good for that challenge |
| HonestSignIn.WelcomeReaches | libs/common/middleware/service_authentication.go:33-132 | in any state and at any pace, a call with a generated payload of users reaches the challenges if and only if the payload is timely when checked and unseen when the cache is read |
| HonestSignIn.ArrivalFinds | services/auth/internal/siwe/siwe.go:136-169 | a fetch that reads a challenge up to its last instant hands out exactly that challenge, and a later one finds nothing |
| HonestSignIn.HonestSignInPasses | services/auth/internal/api/handler/rpc_authenticate.go:47-69 | in any state, with whatever other requests under way: request, wait and a call signed with a key, at any pace, pass if and only if the entry is at most 15 minutes old when read, the payload timely and unseen, and the wallet the key's address in some letter case |
| BusySignIn.BusyCheck | libs/common/middleware/service_authentication.go:33-132 | with any other requests between its steps, the check of a generated payload ends in users if and only if the payload is timely when checked and its signature not in the cache when that is read |
| BusySignIn.BusyFetch | services/auth/internal/siwe/siwe.go:136-169 | with any other requests between its steps, a fetch returns the challenge that is pending and unexpired when it reads, and fails if there is none |
| BusySignIn.BusyCallPasses | services/auth/internal/api/handler/rpc_authenticate.go:47-69 | with any other requests between its steps, a faultless call of users passes if and only if its payload is timely and unseen, a challenge of its wallet is pending and unexpired when read, and the signature is good for that challenge |
| BusySignIn.BusySignInPasses | services/auth/internal/api/handler/rpc_authenticate.go:47-69 | a client that has asked, signed and come back, with any other requests before and between the steps of its call, passes if and only if its payload is timely and unseen, the message it signed is still pending and unexpired when the challenge is read, and the wallet is the key's address in some letter case |
| BusySignIn.UndisturbedIsPending | services/auth/internal/siwe/siwe.go:119-123 | a challenge that is in its wallet's cell is still pending up to 15 minutes after its writing, and not later |
| SessionSafety.StepSound | services/auth/internal/api/handler/rpc_authenticate.go:98-178 | every step of every handler, at any point of any interleaving and with any fault, keeps rows, tokens, descents and running calls sound |
| SessionTheorems.Reachable | services/auth/internal/api/handler/rpc_authenticate.go:98-178 | every reachable state is sound, has no two credentials in conflict (uncommitted ones included), and traces every credential to a row and every access token to a session |
| SessionTheorems.WalletBinding | services/auth/internal/api/handler/rpc_authenticate.go:98-178 | under every interleaving: at most one committed credential per raw wallet string and per user, never changed later; released sessions of a wallet belong to its user; every new committed credential has a session row of its user and wallet |
| SessionTheorems.Provenance | services/auth/internal/api/middleware/token_authorization.go:53-65 | every token in a client's hands has the user and role of a committed credential, and VerifyAccessToken accepts only unexpired access tokens of the named user |
| Tokens.AuthorizeTokenExact | services/auth/internal/api/middleware/token_authorization.go:48-65 | a token is authorised exactly when the service sealed it, it is unexpired, of the asked type, for the asked user and of an allowed role |
| SessionTheorems.RefreshChainsInherit | services/auth/internal/api/handler/rpc_refresh_access_token.go:55-57 | through any number of refreshes an access token keeps the user and the role its session was opened with |
| SessionTheorems.RowsAndTokensAgree | services/auth/internal/api/handler/session.go:40-65 | each row holds a refresh token with the row's id, user, wallet and expiry, and each released refresh token is the one in its row |
| SessionTheorems.TokensLastTheirDuration | services/auth/internal/token/payload.go:49-67 | every released token is good for its configured duration from some instant since it was issued, no less and no more |
| SessionTheorems.RefreshingChangesNoRow | services/auth/internal/api/handler/rpc_refresh_access_token.go:38-72 | any sequence of interleaved refreshes leaves all session rows and credentials as they are |
| Lifetime.SessionLifetime | services/auth/internal/api/handler/rpc_refresh_access_token.go:38-72 | through any number of refreshes, in every run whose refreshes date their tokens by their session's expiry (plus a delay): an accepted access token descends from a recorded session of the user, and every session it descends from has an expiry no earlier than now minus the access duration (and the delay) |
| Lifetime.SessionLifetimeExact | services/auth/internal/api/handler/rpc_refresh_access_token.go:38-61 | the bound expiry + AccessTokenDuration (+ delay) holds after every event of a run and every wait if and only if every refresh dates its token no later than its session's expiry (+ delay) |
| Lifetime.RefreshOutlivesIffLate | services/auth/internal/api/handler/rpc_refresh_access_token.go:55-61 | over all continuations, the token of one refresh is accepted within the bound if and only if the refresh's second clock reading is no later than its session's expiry |
| Lifetime.DelaysBoundLateness | services/auth/internal/api/handler/rpc_refresh_access_token.go:38-61 | refreshes that take at most some delay from their token check to their new token exceed the plain bound by no more than that delay |
| Lifetime.PromptRefreshIsInTime | services/auth/internal/api/handler/rpc_refresh_access_token.go:38-61 | a refresh in which no time passes is in time |
| Lifetime.SerialSessionLifetime | services/auth/internal/api/handler/rpc_refresh_access_token.go:38-72 | for handlers that run one at a time, with no time passing inside a refresh, the plain bound holds in every run |
| Lifetime.LateRefreshOutlives | services/auth/internal/api/handler/rpc_refresh_access_token.go:38-61 | for every configuration and credential, a run from its start whose token is accepted one nanosecond after its session's expiry plus the access duration |
| Revocation.RevocationBound | services/auth/internal/api/handler/rpc_revoke_refresh_tokens.go:34-44 | after a revocation for u at r, until the next successful Authenticate of u, no refresh of u yields a token and no access token of u is accepted after r + AccessTokenDuration, when no refresh of u stood past its session check |
| Revocation.ClearedRefreshEscapes | services/auth/internal/api/handler/rpc_refresh_access_token.go:44-57 | a refresh past its session check breaks the bound in some continuation |
| Revocation.RevocationBoundExact | services/auth/internal/api/handler/rpc_revoke_refresh_tokens.go:34-44 | the bound holds in every continuation if and only if no refresh of u stood past its session check |
| Revocation.SerialRevocationBound | services/auth/internal/api/handler/rpc_revoke_refresh_tokens.go:34-44 | the bound is unconditional when handlers run one at a time |
| Revocation.SecondRevocationChangesNothing | services/auth/internal/db/sqlc/session.sql.go:87-91 | a second revocation, when no session of the user was recorded since the first, changes no row and so answers 0 |
| Revocation.SessionRevocationExact | services/auth/internal/api/handler/rpc_refresh_access_token.go:44-57 | per session, new sign-ins included: what descends from a revoked session is accepted for one more access duration at most in every continuation, if and only if no refresh of it stood past its session check |
| Revocation.ClearedSessionEscapes | services/auth/internal/api/handler/rpc_refresh_access_token.go:44-57 | such a refresh breaks the bound in some continuation |
| Revocation.RevokedSessionIsRefreshedNoMore | services/auth/internal/api/handler/rpc_revoke_refresh_tokens.go:34-44 | otherwise no refresh of the session releases a token in any step from then on: whatever is released for it comes from its own sign-in |
| TokenWallets.WalletsAgreeExact | services/auth/internal/api/handler/rpc_refresh_access_token.go:55-57 | in every run, each access token has the wallet of the session it descends from if and only if every completed refresh asked for that wallet |
| TokenWallets.AnyWalletIsVerified | services/auth/internal/api/handler/rpc_refresh_access_token.go:56 | for every configuration, credential and wallet string, a run from its start whose client holds an accepted access token with that wallet, descending from a session of the credential's own wallet |
| SignUp.NoCredentialUnderForeignKeys | services/auth/internal/db/migration/000001_init_schema.up.sql:42-44 | with the migration's foreign keys enforced, no run ever commits a new credential |
| SignUp.SignUpWorksIffUnchecked | services/auth/internal/api/handler/rpc_authenticate.go:150-168 | a faultless sign-up commits its credential and releases its session if and only if the foreign keys are not enforced; under them it leaves the tables as they were |
| Addresses.SameAddressSameVerdict | libs/common/util/ethereum_wallet.go:73-107 | a signature check gives one verdict for all spellings of an address |
| Addresses.TwoSpellings | libs/common/util/util.go:38-44 | every address has two different wallet strings that pass the wallet checks |
| Addresses.AddressBindingIffOneSpelling | services/auth/internal/api/handler/rpc_authenticate.go:104-115 | from any table that keeps its unique columns: without enforced foreign keys an address has at most one credential in every run if and only if the wallet strings in use, which all pass the wallet checks, and those of the table hold at most one spelling of each address; under the foreign keys, if and only if the table does |
| Handlers.Store.GetCredentialByWallet | services/auth/internal/db/sqlc/credential.sql.go:38-57 | a committed credential with this raw wallet string, or the knowledge that there is none |
| Handlers.Store.InsertCredential | services/auth/internal/db/sqlc/tx_create_credential.go:27-45 | succeeds exactly when neither unique column conflicts, and then holds the row uncommitted |
| Handlers.Store.Commit | services/auth/internal/db/sqlc/store.go:43 | ends the transaction; a failed commit may or may not have taken effect |
| Handlers.Store.Rollback | services/auth/internal/db/sqlc/store.go:35-41 | drops the uncommitted credential and touches nothing else, so session rows stay |
| Handlers.Store.CreateSession | services/auth/internal/db/migration/000001_init_schema.up.sql:18-44 | the row goes in exactly when its id is new and, with foreign keys, committed credentials carry its user and its wallet |
| Handlers.Store.RevokeSessions | services/auth/internal/db/sqlc/session.sql.go:87-95 | every row of the user becomes revoked and nothing else changes; the answer is the number of rows that differ before and after |
| Handlers.Handler.NewSession | services/auth/internal/api/handler/session.go:24-78 | a run of the machine's minting steps, and a session exactly when both tokens are made and the row goes in: an access and a refresh token of the credential with their durations, and one new unrevoked row that seals the refresh token under its own id |
| Handlers.Handler.HandleExisting | services/auth/internal/api/handler/rpc_authenticate.go:118-140 | another user, and only that, is refused with nothing changed; otherwise the run of an existing credential, with its tokens released exactly on success, and exactly when no step fails; on success the first token is an access token that verification accepts until it expires and refreshing refuses, the second a refresh token that refreshing takes and verification refuses, sealed in a new unrevoked row under its own id |
| Handlers.Handler.CreateCredentialAndSession | services/auth/internal/api/handler/rpc_authenticate.go:142-178 | insert, session, commit or rollback are the machine's steps; "already exists" exactly on a conflict, success exactly when no step fails and no foreign key is enforced, with the credential committed; on success the first token is an access token that verification accepts until it expires and refreshing refuses, the second a refresh token that refreshing takes and verification refuses, sealed in a new unrevoked row under its own id |
| Handlers.Handler.HandleCredentialAndSession | services/auth/internal/api/handler/rpc_authenticate.go:98-116 | a call is a run of the machine's events, for every fault, so all session theorems hold of it; which answer it gives, exactly; on success the credential has the request's user and raw wallet; on success the first token is an access token that verification accepts until it expires and refreshing refuses, the second a refresh token that refreshing takes and verification refuses, sealed in a new unrevoked row under its own id |
| Handlers.Handler.RefreshAccessToken | services/auth/internal/api/handler/rpc_refresh_access_token.go:38-72 | a call is a run of the machine's refresh events; it answers exactly for an unexpired refresh token of the user with an unrevoked row and no failing step, with that row's refresh token and one new access token of the user, the asked wallet and the old role, accepted by verification |
| Handlers.Handler.RevokeRefreshTokens | services/auth/internal/api/handler/rpc_revoke_refresh_tokens.go:34-52 | a call is a run of the machine's revocation events; it answers exactly for an accepted access token and a faultless update, with the number of rows that differ before and after; then all rows of the user are revoked, and other users' rows never change |
| Handlers.Handler.VerifyAccessToken | services/auth/internal/api/handler/rpc_verify_access_token.go:36-61 | answers exactly for a sealed, unexpired access token of the user, with the token's own payload |
| EndToEnd.FrontIsProtocolRun | services/auth/internal/api/handler/rpc_authenticate.go:47-74 | seen from the cache, every joint run is a run of the cache protocol's small steps on the same clock |
| EndToEnd.EverySessionWasSignedFor | services/auth/internal/api/handler/rpc_authenticate.go:31-96 | in every interleaving of all steps at cache and database, with every fault and any payloads: a released refresh token goes back to a call for its wallet and user, by users, whose signature recovers that wallet over an earlier challenge; no call backs two sessions; two sessions share a challenge only if their fetches overlap, and a payload text only if the second check read before the first wrote, or outlasted its entry |
| EndToEnd.EveryTokenWasSignedFor | services/auth/internal/api/handler/rpc_verify_access_token.go:36-61 | in every interleaving and with every fault, each released token, after any number of refreshes, and each access token that verification accepts for a user, belongs to a session of the same user and role whose call passed its checks with a signature recovering that session's wallet over an earlier challenge |
| EndToEnd.OnlyUsersTouchChallenges | services/auth/internal/api/handler/rpc_authenticate.go:47-53 | in every interleaving, no challenge is read or deleted but by a call that was admitted as users before |
| EndToEnd.Authenticate | services/auth/internal/api/handler/rpc_authenticate.go:31-96 | one call in one go: refused by a check it leaves database and clients as they are, but for the time it took; let in exactly when its payload is admitted as users, a challenge of its wallet found and deleted, and its signature good for it; then it runs the credential step for its own wallet and user; on success the first token is an access token that verification accepts until it expires and refreshing refuses, the second a refresh token that refreshing takes and verification refuses, sealed in a new unrevoked row under its own id; the cache is that after the call's steps |
| TwoSessions.OneSignatureTwoSessions | services/auth/internal/api/handler/rpc_authenticate.go:31-96 | in any sound joint state with a readable challenge: two admitted calls with one good signature for it, for the user and wallet of a committed credential, can overlap so that both return that challenge and each hands out a session |
| TwoUsers.WholeSignInCommits | services/auth/internal/api/handler/rpc_authenticate.go:31-178 | in any state of the joint machine, an honest client that is in time, with a new user and a new wallet string, walks all steps from request to commit: exactly its credential and its session are added |
| TwoUsers.TwoUsersSignIn | services/auth/internal/api/handler/rpc_authenticate.go:104-115 | one key signs up two users under two spellings of its address: both calls pass every check, signatures included, and both credentials are committed |
| Witnesses.TwoSessionsExist | services/auth/internal/api/handler/rpc_authenticate.go:31-96 | in a concrete world a run from a service that has just come up leads to two released sessions that go back to one challenge and one signature, under either setting of the foreign keys |
| Witnesses.TwoUsersExist | services/auth/internal/api/handler/rpc_authenticate.go:104-115 | in a concrete world a run from a service that has just come up commits credentials of two users for one key |
| RateLimiter.Tables.InstallRate | libs/common/middleware/rate_limiter.go:60-68 | one turn writes the endpoint and its aliases, a repeated name included, and nothing else |
| RateLimiter.Tables.InstallRates | libs/common/middleware/rate_limiter.go:59-69 | the loop over an unordered map is the installation in some order that lists every key once |
| RateLimiter.Tables.BuildLimiters | libs/common/middleware/rate_limiter.go:71-85 | likewise for the second loop: the first entry with an identifier sets its limiter |
| RateLimiter.Tables.InitializeLimiters | libs/common/middleware/rate_limiter.go:56-88 | the limiters are rebuilt while the active table accumulates, each loop in an order of its own |
| RateTables.LastWriterDecides | libs/common/middleware/rate_limiter.go:59-69 | an endpoint's rate comes from some entry that writes it, or is the old one if none does |
| RateTables.WritesExact | libs/common/middleware/rate_limiter.go:60-68 | one turn writes the entry under its name and, for each alias, its limit, period and identifier with the aliases followed by the name |
| RateTables.FirstEntryDecides | libs/common/middleware/rate_limiter.go:71-85 | the first entry in the order with an identifier sets its limiter, and no other identifier has one |
| RateTables.AliasesShareSetting | libs/common/middleware/rate_limiter.go:59-69 | with distinct names, in every order of the loop an endpoint and its aliases end up under the endpoint's identifier, limit and period |
| RateTables.InstallDeterministicIff | libs/common/middleware/rate_limiter.go:59-69 | the active table is the same in every order if and only if entries that write one endpoint write the same rate |
| RateTables.BuildDeterministicIff | libs/common/middleware/rate_limiter.go:71-85 | the limiters are the same in every order if and only if entries with one identifier agree on limit and period |
| RateTables.InitializeOrderFree | libs/common/middleware/rate_limiter.go:56-88 | with distinct names and aliases and an agreeing table, every order of both loops gives the same table and the same settings |
| RateTables.LookupNeverFails | libs/common/middleware/rate_limiter.go:90-106 | after any non-empty sequence of initialisations with any tables in any order, every endpoint string has a limiter, and unknown ones have the default |
| RateTables.StartExact | libs/common/middleware/rate_limiter.go:31-35 | before any initialisation every endpoint has the default of 1000 calls an hour |
| RateBudget.Limiter.Get | libs/common/middleware/rate_limiter.go:108-110 | the fixed-window contract of the store: the count after the call, and the store with a failure before or after counting |
| RateBudget.Limiter.Limit | libs/common/middleware/rate_limiter.go:117-169 | verdict and store afterwards for every request and every fault, in the order of the checks |
| RateBudget.ServeExact | libs/common/middleware/rate_limiter.go:117-169 | without service authentication a handler runs exactly when the call has a client and a limiter, store and headers do not fail, and the count that this call raised by one under its client's key is at most the limit; a call without a client never runs and changes no window |
| RateBudget.ClientsApart | libs/common/middleware/rate_limiter.go:143 | under one identifier two clients never share a counter |
| RateBudget.WindowBudget | libs/common/middleware/rate_limiter.go:112-169 | for every configuration with a positive period, whoever else is counted under the key: each window the key has had in the run holds at most Limit handler runs of the identifier and client |
| RateBudget.SharedBudget | libs/common/middleware/rate_limiter.go:112-169 | per identifier and client, over all endpoints and aliases and whoever else is counted under the key: at most Limit handler runs in every window when the period is positive and, when the key-sharing periods fit, at most 2*Limit in any half-open span of one Period |
| RateBudget.EndpointSharesCounter | libs/common/middleware/rate_limiter.go:59-106 | after InitializeLimiters, in whatever order its loops ran, calls to an endpoint and to its aliases are counted under one key and one setting for each client |
| RateBudget.EndpointBudget | libs/common/middleware/rate_limiter.go:56-169 | after InitializeLimiters, an endpoint and its aliases together run their handlers, for each client, at most Limit times in every window when the period is positive and, when the key-sharing periods fit, at most 2*Limit times in any half-open span of one Period |
| RateBudget.KeysMeetExactly | libs/common/middleware/rate_limiter.go:143 | which identifiers can have a counter key in common: one is the other followed by a colon and more |
| RateBudget.ColonFreeIsApart | libs/common/middleware/rate_limiter.go:143 | colon-free identifiers share no counter key, whatever the client keys hold |
| RateExact.BudgetHoldsExact | libs/common/middleware/rate_limiter.go:112-169 | for each configuration and identifier in use: the 2*Limit bound holds for every client and every run if and only if each identifier in use that shares a counter key has a period that is not positive or at least Period - 1, or Limit is at most one, or Limit is two and twice that period exceeds Period - 2 |
| RateExact.ThreeWindowsBreak | libs/common/middleware/rate_limiter.go:143-168 | a limit of three or more and a positive period of at most Period - 2 on a shared key: a run over three windows exceeds 2*Limit |
| RateExact.FourWindowsBreak | libs/common/middleware/rate_limiter.go:143-168 | a limit of two and a positive period at most half of Period - 2 on a shared key: a run over four windows exceeds 2*Limit |
| RateExact.BudgetedIffKeysApart | libs/common/middleware/rate_limiter.go:112-169 | the 2*Limit bound holds under all settings of the limiters if and only if no other identifier in use shares a counter key |
| RateRefusals.RefusedOnlyWhenSpent | libs/common/middleware/rate_limiter.go:163-168 | a call is turned away only when more than its Limit calls were counted under its key within the period of some call counted there, its own period when the key is not shared |
| RateBudget.ServicesUseNoBudget | libs/common/middleware/rate_limiter.go:112-125 | calls of authenticated services always run, and every count is as if they had not been made |

## Left out

- The libraries behind the code: PASETO, ECDSA, secp256k1 recovery, Keccak, PEM and X.509, URL parsing,
  calendar printing and the rate-limit library are parameters or contracts. Their facts are listed above.
- Redis, JSON, the Postgres driver, the gRPC and HTTP servers, CORS, graceful shutdown, logging, configuration
  loading, the swagger bundle and the users worker.
- EndToEnd.EverySessionWasSignedFor: does not say that two sessions never share a challenge, because overlapping fetches
  make them share one in the code, as `TwoSessions.OneSignatureTwoSessions` shows; `Challenges.HandedOutOnceExact` gives the
  exact condition for a challenge.
- Agreement.AcceptedAtMostOnce: is about one text; other signatures on its fields are the subject of `Signatures`.
- RateBudget.SharedBudget: bounds a span of one Period only when the periods on a shared key fit;
  `RateExact.BudgetHoldsExact` shows that this is exactly when the span bound holds.
- RateBudget.EndpointBudget: bounds such a span under the same condition.
- RateBudget.WindowBudget: is about positive periods, for the reason that follows.
- Periods that are not positive begin a new window with every call here; what the rate store does with them is not modelled.
- Expiry of a cache entry is by the same clock as the service's; a cache whose clock runs apart is not modelled.
- Encoding.DecodableText: speaks of the standard alphabet only, the one the services use.
- The header parts of `AuthorizeToken` (metadata, the two fields, the word bearer), request validation, UUID
  parsing and the role names of the protocol buffers; a call that fails there changes nothing.
- `getChain` and the environments are one predicate on chain numbers.
- A random source that fails while a nonce is drawn; the call then ends before the cache is written.
- A non-ASCII service name is not case-folded, and one `char` stands for one byte where a length is printed.
- User agent, client address and creation times of a session row, and the timestamps of responses.
- A second refresh-token text equal to another one: token texts are unique because their payload ids are.
- A database that loses rows, unrevokes sessions or deletes credentials; no statement of the service does that.
- Negative token durations, and windows of the rate store that overlap a change of its settings.
