# Verified model of the identity server

Dafny models of the parts of the server whose correctness depends on more than one function: the
session and credential protocol, the LDAP front end, the TOTP factor, the choice of forward-auth
policies, the audit export and the rate limiter. `dafny verify dfyconfig.toml` checks everything.

## What is modelled

**Sessions and credentials** (`Credential*.dfy`). A login fixes a deadline, an authentication time
and the user's generation. From it grow access tokens, rotating refresh tokens, authorization codes
with their OIDC and ID tokens, and forward-auth handoffs and sessions. `CredentialStore` holds the
tables and each SQL statement as a function on them. `CredentialMachine` is the protocol: a request
is a task stopped between two statements, any number of tasks interleave, and each statement reads
the clock for itself. A browser rotation is one event, because it runs in one write transaction.
`CredentialInvariant`, `CredentialSteps` and `CredentialRuns` prove one invariant statement by
statement; `CredentialTheorems`, `CredentialSweep` and `CredentialExposure` draw the guarantees from
it. `CredentialServer` is the code in its own form, a class over the tables, and each method is
proved to end in the state and outcome of the corresponding task.

**LDAP** (`Ber.dfy`, `LdapFilter.dfy`, `LdapDn.dfy`, `LdapSearch.dfy`). The BER guard is an
explicit-stack walk compared with a grammar; the framing is compared with one pass over the whole
stream; the greedy substring matcher with the existence of a placement; the pruned search with a
scan of the whole directory.

**TOTP** (`Totp.dfy`, `TotpProtocol.dfy`, `Base32.dfy`). Verification, the compare-and-set protocol
for one-time steps and recovery codes under interleaving, and the Base32 encoder against bit strings.

**Forward-auth policies** (`PolicyPath.dfy`, `PathDecoding.dfy`, `PathDots.dfy`,
`PolicySelection.dfy`). Canonical paths, how far encodings are seen through, dot segments, and the
single pass that picks a policy.

**Audit export and rate limiter** (`AuditCsv.dfy`, `RateLimiter.dfy`). `Text.dfy`, `Bytes.dfy` and
`Wrappers.dfy` are shared.

## Assumptions

- A signed token is accepted only if it was signed; tokens are the claims they carry. SHA-256 is
  injective on tokens, states and verifiers; the retry pair and the TOTP secret decrypt to what was
  encrypted; random identifiers, secrets and ciphertexts are fresh.
- Clock readings are parameters. The protocol theorems hold for any readings of different
  statements. Whether the JWT library still accepts a token in the very second it expires is a
  parameter (`exactExpiry`), and nothing is claimed about that second.
- A database error other than a missing foreign key does not happen.
- At the upgrade, existing tokens and codes have no generation; each counts as a login of its own,
  and codes and OIDC tokens of that time have no known deadline.
- The keyed hash, the host regular expression, the percent-decoder and the library's frame limit are
  arbitrary parameters of the theorems that involve them. `PathDecoding.StrDecode` is one decoder.
- Strings are sequences of Unicode characters. Where the source counts or slices UTF-8 octets the
  two agree, because prefixes, suffixes and occurrences of whole strings do; prefix lengths are only
  compared between prefixes of one path.

## Where the code and its comments differ

The model follows the code.

- `server/src/user/auth/token.rs:599-601` promises the identical replacement within the window; the
  code follows the chain and returns the current live pair.
- `server/src/ldap/handler.rs:386-390` speaks of requiring a bind for anything but the Root DSE; the
  condition lets an unbound search with an empty base through whatever its scope, and the model does
  the same.
- `server/src/ldap/filter.rs:4-7` says unsupported filters are false; under a negation they
  therefore hold. It also counts approximate filters as unsupported; the code treats them as
  equality.
- `server/src/ldap/schema.rs:74-76` mentions escaped commas; the parser lets a backslash escape any
  character.

## Model

| member | source | states |
|---|---|---|
| CredentialTheorems.LineageIsOneChain | server/src/user/auth/token.rs:512-659 | Over every run of interleaved statements, the refresh tokens of a login form one unforked chain: every one is in it, each has at most one successor, and only the last can be unrevoked. |
| CredentialTheorems.BrowserReturnsLiveEnd | server/src/user/auth/token.rs:602-659 | Whenever a browser rotation succeeds in a reachable state, the refresh token it returns is the unrevoked end of the presented token's chain; an answer from the retry window changes no row. |
| CredentialTheorems.RetryFindsLiveEnd | server/src/user/auth/token.rs:617-643 | The retry does find that end when every window on the way is open, the end is one to sixteen hops away, the generation still holds, and every reading lies before the session's deadline and within 895 seconds of the first (the access-token lifetime less the retry window). |
| CredentialTheorems.NoResurrection | server/src/user/auth/token.rs:469-501 | After a user's generation was bumped, every credential that descends from an earlier login, by any steps and even when signed by a request in flight across the bump, fails the session check in every later state; credentials without a generation included. |
| CredentialTheorems.RevokedForGood | server/src/user/auth/token.rs:469-575 | As requests see it: a rotation, logout, verification, handoff, redemption or authorization on such a credential is rejected and changes nothing. |
| CredentialTheorems.RevokedBrowserForGood | server/src/user/auth/token.rs:602-659 | The same at the browser endpoint: a browser rotation of a refresh token that descends from a login before the bump is rejected and changes nothing, also while its retry window is open and although the bump revoked no refresh row. |
| CredentialTheorems.RevokedCodeForGood | server/src/handlers/oauth.rs:738-751 | The same for authorization codes: exchanging one that descends from a login before the bump is rejected and signs nothing. |
| CredentialTheorems.StaleRequestFails | server/src/user/auth/forward.rs:86-200 | A request on a credential whose generation does not hold is rejected and leaves the state as it was, whatever the clock reads. |
| CredentialTheorems.StaleCodeFails | server/src/handlers/oauth.rs:738-751 | Exchanging a code whose generation does not hold signs no token, though the code is spent. |
| CredentialTheorems.DeadlineIsAbsolute | server/src/user/auth/token.rs:242-405 | Every access, refresh, handoff, forward, code, OIDC and ID credential of a run expires no later than the deadline its login fixed, for any number of derivations and any later setting, and carries its user, generation and authentication time. |
| CredentialTheorems.NothingOutlivesItsLogin | server/src/user/auth/token.rs:413-458 | Past the deadline of its login, a rotation, logout, verification, handoff, redemption or authorization on a central token, a handoff, a forward session or an OIDC access token is rejected and changes nothing. |
| CredentialTheorems.NoBrowserOutlivesItsLogin | server/src/user/auth/token.rs:602-659 | Past that deadline a browser rotation of a refresh token is rejected and changes nothing either, retry window or not. |
| CredentialTheorems.NoCodeOutlivesItsLogin | server/src/oidc/codes.rs:109-142 | From the deadline of its login on, exchanging an authorization code is rejected and changes nothing. |
| CredentialTheorems.RotationInherits | server/src/user/auth/token.rs:577-597 | A refresh token that replaced another keeps its user, absolute deadline and authentication time, and expires at that deadline. |
| CredentialTheorems.RevokeAllRevokes | server/src/user/auth/token.rs:735-752 | Revoking a user bumps the generation by one and leaves no refresh token of theirs unrevoked. |
| CredentialTheorems.LateReplayRevokes | server/src/user/auth/token.rs:534-574 | Presenting a consumed refresh token, at the JSON endpoint or at the browser endpoint outside its window, is rejected, bumps the generation and revokes every refresh token of the user. |
| CredentialTheorems.RedeemedOnce | server/src/oidc/codes.rs:109-171 | Over every interleaving no code is exchanged twice and no handoff redeemed twice, and every exchange carried the client, redirect URI and verifier the code was issued for. |
| CredentialTheorems.WrongBindingChangesNothing | server/src/oidc/codes.rs:131-152 | An exchange with the wrong client, redirect URI or verifier is rejected and changes no table, so the code stays redeemable. |
| CredentialTheorems.RightBindingRedeems | server/src/oidc/codes.rs:109-171 | An unspent, unexpired code of a valid session is redeemed by a request that meets its bindings, for the client and user it names. |
| CredentialTheorems.ValidAccessPasses | server/src/user/auth/token.rs:413-458 | An access token of the current generation is accepted before its expiry and its session's deadline. |
| CredentialTheorems.Reachable | server/src/user/auth/token.rs:512-752 | The protocol invariant (generations, lineage, rows, codes, handoffs and requests in flight fit together) holds after every run from an upgraded database. |
| CredentialRuns.RunKeepsInv | server/src/user/auth/token.rs:512-752 | Every event of a run, one SQL statement at a time, keeps that invariant. |
| CredentialRuns.BrowserKeepsInv | server/src/user/auth/token.rs:602-659 | A browser rotation, run inside its write transaction, keeps it too. |
| CredentialTheorems.RunGrows | server/src/user/auth/token.rs:460-466 | Along every run, logins and signed tokens are never rewritten and generations never fall. |
| CredentialSweep.SweepsAreInvisible | server/src/user/auth/token.rs:694-707 | Inserting any number of sweeps into a run takes every request in flight to the same point with the same outcome and leaves the same history, generations and revocations, when statements read the clock strictly later than the sweeps before them and no statement of the run is the replay lookup of a refresh token, or the guarded update of a code read over an hour before, whose row a sweep has deleted. |
| CredentialSweep.StepSees | server/src/oidc/codes.rs:175-184 | One statement made after a sweep sees and leaves the same whether or not the sweep happened. |
| CredentialExposure.SweepVisibleIffExposed | server/src/user/auth/token.rs:534-544 | Which requests in flight a sweep is visible to: in every reachable state, the outcome or the revocation changes if and only if the request would reach the lookup of an expired refresh token, or the guarded update of a code, whose row the sweep deletes. |
| CredentialExposure.SweepInFlightIsVisible | server/src/user/auth/token.rs:534-544 | A run from an upgraded database in which a refresh token expires while its replay is in flight: swept in between, it ends with the generation unchanged; unswept, with the generation bumped. |
| CredentialServer.Server.VerifyUserSession | server/src/user/auth/token.rs:469-501 | The two statements of the session check, as the protocol machine takes them. |
| CredentialServer.Server.VerifyAccessToken | server/src/user/auth/token.rs:413-458 | The imperative verification ends exactly as the machine's access request does and changes nothing. |
| CredentialServer.Server.GenerateTokenPair | server/src/user/auth/token.rs:347-365 | A login: setting, generation and both tokens, ending in the machine's state and outcome. |
| CredentialServer.Server.GenerateTokenPairForSession | server/src/user/auth/token.rs:367-405 | Both tokens of a pair under one absolute deadline; a session that is over or a missing user is refused. |
| CredentialServer.Server.ConsumeRefreshToken | server/src/user/auth/token.rs:512-574 | The guarded update that spends a refresh token, or the revocation a replay triggers, leaves the state the machine is in. |
| CredentialServer.Server.RotateTokenPair | server/src/user/auth/token.rs:577-597 | Consume, then issue: the whole rotation ends as the machine's does. |
| CredentialServer.Server.RotateBrowserTokenPair | server/src/user/auth/token.rs:602-659 | The retry loop that reassigns the pair, and the transaction around a fresh rotation, compute the machine's browser rotation; a failed transaction leaves every table as it was. |
| CredentialServer.Server.LogOutWith | server/src/handlers/auth.rs:228-248 | Logging out with a refresh token spends it, bumps the generation and records the revocation. |
| CredentialServer.Server.RevokeAllUserTokens | server/src/user/auth/token.rs:735-752 | Refresh rows revoked, generation bumped, revocation recorded, in that order. |
| CredentialServer.Server.RevokeUserAccessTokens | server/src/user/auth/token.rs:714-732 | Generation bumped and revocation recorded, refresh rows untouched. |
| CredentialServer.Server.SweepExpiredSessions | server/src/user/auth/token.rs:694-707 | A row goes exactly when it has expired and a retry pair exactly when its window has closed; at no later instant is a token less spendable, a retry less open or a handoff less redeemable for it. |
| CredentialServer.Server.IssueForwardHandoff | server/src/user/auth/forward.rs:86-137 | A handoff for a browser state, never valid beyond a minute or the session's deadline, with a clock reading of its own for the expiry, the purge and the deadline check. |
| CredentialServer.Server.RedeemForwardHandoff | server/src/user/auth/forward.rs:139-180 | A handoff is deleted and its session signed in one guarded statement, for the origin and state it was issued for. |
| CredentialServer.Server.VerifyForwardSession | server/src/user/auth/forward.rs:182-200 | A forward session passes for its own origin while its generation holds. |
| CredentialServer.Server.IssueAuthorizationCode | server/src/handlers/oauth.rs:476-545 | With a session that verifies, an active user and an application that admits the user, a code is issued, bound to its client, redirect URI, challenge and session and never outliving the session; otherwise the request is refused, and a user who is not admitted changes nothing. |
| CredentialServer.Server.ConsumeAuthorizationCode | server/src/oidc/codes.rs:109-171 | Bindings are checked on the row read, then the guarded update is tried; run alone, the two end where the machine's do. |
| CredentialServer.Server.TakeAuthorizationCode | server/src/oidc/codes.rs:144-171 | The guarded update on whatever other requests have left: it wins exactly when the code is still unspent and unexpired, then nobody wins it again, and a loser changes nothing. |
| CredentialServer.Server.ExchangeAuthorizationCode | server/src/handlers/oauth.rs:725-793 | Consume, check the session, mint an ID token and an access token capped by the session's deadline; a redirect URI no longer listed or a user no longer admitted is refused with nothing signed. |
| CredentialServer.Server.SweepExpiredCodes | server/src/oidc/codes.rs:175-184 | A code goes exactly when it expired more than an hour ago, and no code redeemable at a reading of the last hour is lost. |
| Ber.HeaderIsExact | server/src/ldap/server.rs:35-55 | A header is read if and only if the bytes begin with an identifier octet and definite length octets for exactly that length (sections 8.1.2 and 8.1.3 of X.690), whatever follows. |
| Ber.HeaderIsStable | server/src/ldap/server.rs:35-55 | Neither a header nor a refusal is revised when more bytes arrive. |
| Ber.PrefixFitsUsize | server/src/ldap/server.rs:50-53 | The checked multiplication and addition never overflow, so that error branch is unreachable. |
| Ber.BerHeader | server/src/ldap/server.rs:35-55 | The length loop computes the big-endian length of the reference header. |
| Ber.ValidateBerStructure | server/src/ldap/server.rs:59-85 | The explicit-stack walk ends, by the bytes left and then the stack height, and accepts exactly what the recursive recogniser accepts. |
| Ber.RecognisedIffEncoding | server/src/ldap/server.rs:59-85 | Bytes are recognised if and only if they encode a sequence of definite-length values whose constructed bodies are recursively of the same form, within the depth. |
| Ber.AcceptedIffElements | server/src/ldap/server.rs:59-85 | For the walker the depth is at most MAX_BER_DEPTH - 1 = 31. |
| Ber.EncodingIsUnique | server/src/ldap/server.rs:59-85 | No two well-formed trees share an encoding. |
| Ber.DecideIsStable | server/src/ldap/server.rs:96-107 | A frame boundary or size rejection stands whatever bytes follow. |
| Ber.ChunkingIsInvisible | server/src/ldap/server.rs:96-109 | However a stream is cut into chunks, the same frames are delivered and the same refusal is made. |
| Ber.WaitingIsBounded | server/src/ldap/server.rs:99-106 | While more is needed, less than one maximal frame (or ten octets) is buffered. |
| Ber.Framer.Decode | server/src/ldap/server.rs:96-109 | One call delivers the first frame, waits or refuses, with the checks in the source's order. |
| Ber.Framer.Feed | server/src/ldap/server.rs:96-109 | Calling it until it waits drains the buffer to the reference result. |
| LdapFilter.SubstringMatches | server/src/ldap/filter.rs:44-72 | The greedy cursor loop answers true if and only if some placement has the initial part at the start, the middle parts in order without overlap and the final part at the end after them (section 4.5.1.7.2 of RFC 4511). |
| LdapFilter.Evaluate | server/src/ldap/filter.rs:15-42 | Evaluation agrees with what the filter means: all, any and not over its parts, first attribute of a name, ordering and extensible filters never holding. |
| LdapFilter.CaseIsIrrelevant | server/src/ldap/filter.rs:12-28 | Putting a filter in lower case, names and values, never changes what it matches. |
| LdapDn.ParseDnLoop | server/src/ldap/schema.rs:77-105 | The character loop yields the components between unescaped commas, backslashes dropped, or a syntax error. |
| LdapDn.ParsePrint | server/src/ldap/schema.rs:77-115 | Printing a name with commas and backslashes escaped and parsing it gives the name back. |
| LdapDn.ParseIsStable | server/src/ldap/schema.rs:77-115 | What parsing yields survives being printed and parsed again. |
| LdapDn.BaseParsesIff | server/src/settings.rs:230-251 | Exactly when an accepted base DN parses: when every component between its unescaped commas, escaping backslashes dropped, passes the test that the check applies to the pieces between all its commas. |
| LdapDn.BaseParses | server/src/settings.rs:230-251 | In particular every accepted base DN without a backslash parses, to one component per comma-separated piece. |
| LdapDn.EscapedBaseNeedNotParse | server/src/settings.rs:230-251 | With a backslash it need not: a concrete base DN is accepted and does not parse. |
| LdapDn.StoredBase | server/src/settings.rs:230-251 | The trimmed form that is stored is accepted again. |
| LdapDn.BuiltNamesParse | server/src/ldap/schema.rs:118-125 | For every plain user or role name and every base DN that parses, escapes included, the built DN parses to exactly one RDN, with that name, below its organisational unit; when the base does not parse, no built name does. |
| LdapSearch.UnreachedOutOfScope | server/src/ldap/handler.rs:410-423 | No entry below an organisational unit that the base and scope do not reach is in scope. |
| LdapSearch.HandleSearch | server/src/ldap/handler.rs:377-525 | For every accepted base DN, every parseable search base and every scope, the pruned search returns exactly the entries, in order, that testing every user and role for scope and filter returns, with the source's result codes; a configured base DN that does not parse is an operations error. |
| LdapSearch.ValidIsPlain | server/src/user/mod.rs:14-17 | The user-name rule guarantees what the search assumes of names. |
| LdapSearch.MatchingUsers | server/src/ldap/handler.rs:454-479 | The loop over users appends exactly the wanted entries. |
| LdapSearch.MatchingGroups | server/src/ldap/handler.rs:482-521 | The loop over roles appends exactly the wanted entries, members gathered user by user. |
| LdapSearch.MembershipAgrees | server/src/ldap/schema.rs:170-218 | A user entry lists a group if and only if that group's entry lists the user. |
| Totp.VerifyCodeLoop | server/src/user/auth/totp.rs:96-130 | The loop over three steps returns the earliest step that is in the window, unused and matched by the code. |
| Totp.VerifyCodeIsEarliest | server/src/user/auth/totp.rs:96-130 | Nothing is returned only when no step is eligible, and the step returned is the earliest eligible one. |
| Totp.Truncate | server/src/user/auth/totp.rs:81-92 | Dynamic truncation (section 5.3 of RFC 4226) always reads inside the digest and yields six digits. |
| Totp.TruncateExample | server/src/user/auth/totp.rs:81-92 | It yields 872921 on the worked example of section 5.4 of RFC 4226. |
| TotpProtocol.StepsAcceptedOnce | server/src/user/auth/totp.rs:291-332 | From any well-formed tables and over every interleaving of logins, enrolments, activations and disabling, the steps accepted for one enrolment strictly increase, activation included, and each matched its code within one step of its verification time (section 5.2 of RFC 6238). |
| TotpProtocol.RecoveryCodesAcceptedOnce | server/src/user/auth/totp.rs:360-405 | From any well-formed tables, no recovery code of an enrolment is accepted twice. |
| TotpProtocol.RaceHasOneWinner | server/src/user/auth/totp.rs:312-332 | Of two logins that verified the same code, at most one records it. |
| TotpProtocol.UndisturbedCodePasses | server/src/handlers/auth.rs:28-66 | Left alone, a login with a code that an unused step matches passes. |
| TotpProtocol.RunKeepsInv | server/src/user/auth/totp.rs:255-342 | The invariant tying rows, recorded steps and recovery codes together holds after every run. |
| TotpProtocol.TotpStore.UpsertPendingRow | server/src/user/auth/totp.rs:255-288 | An active factor stays untouched; otherwise the pending factor is new and unused, no recovery code of the user works any more, and those of others are as before. |
| TotpProtocol.TotpStore.ActivateRow | server/src/user/auth/totp.rs:291-310 | Only the pending factor whose secret was verified is activated; afterwards no code of the step used or an earlier one is eligible, and activating again fails. |
| TotpProtocol.TotpStore.RecordUsedStep | server/src/user/auth/totp.rs:312-332 | Succeeds exactly for the active factor of that secret and a later step than its last; afterwards no code of that step or an earlier one is eligible or can be recorded, and nothing else has changed. |
| TotpProtocol.TotpStore.StoreRecoveryCodes | server/src/user/auth/totp.rs:360-384 | The insert loop replaces the user's codes by exactly the new ones. |
| TotpProtocol.TotpStore.ConsumeRecoveryCode | server/src/user/auth/totp.rs:388-405 | Succeeds exactly for a stored unused code; afterwards no spelling of it (white space, dashes, letter case) succeeds, and all other codes are as before. |
| TotpProtocol.TotpStore.Delete | server/src/user/auth/totp.rs:334-342 | The factor goes with its recovery codes, and other users keep theirs. |
| TotpProtocol.TotpStore.EnforceMfa | server/src/handlers/auth.rs:28-66 | Undisturbed, the second-factor check ends as the login task does. |
| Base32.EncodeBase32 | server/src/user/auth/totp.rs:48-66 | Through a 32-bit buffer that is shifted and never masked, the output has ceil(8n/5) symbols and spells the octets' bits followed by the fewest zeros (section 6 of RFC 4648). |
| Base32.EncodingIsUnique | server/src/user/auth/totp.rs:48-66 | That determines the text. |
| Base32.DecodeBase32 | server/tests/totp_flow.rs:100-115 | The tests' decoder returns the whole octets the symbols spell. |
| Base32.DecodeEncode | server/tests/totp_flow.rs:100-115 | Decoding an encoding returns the original octets, for every input. |
| Base32.ShiftIn | server/src/user/auth/totp.rs:52-54 | Wrapping shifts lose only bits that were no longer waiting. |
| PolicyPath.NormalizePolicyPath | server/src/handlers/auth.rs:678-707 | The decoding loop, the check and the segment loop compute the normalised path or the source's error. |
| PolicyPath.NormalizedIsCanonical | server/src/handlers/auth.rs:678-707 | Every accepted result has no percent sign and no empty, "." or ".." segment, save a trailing slash. |
| PolicyPath.FixedIffCanonical | server/src/handlers/auth.rs:678-707 | The canonical paths are exactly those that normalisation returns unchanged. |
| PolicyPath.NormalizeIsIdempotent | server/src/handlers/auth.rs:678-707 | Normalising twice is normalising once. |
| PathDecoding.OnceDecodedAgrees | server/src/handlers/auth.rs:679-692 | A path and its once-decoded form get the same answer if and only if no sixth round of decoding would still change the text into something acceptable. |
| PathDecoding.SixFoldEncodingDiffers | server/src/handlers/auth.rs:679-692 | A concrete six-fold encoding for which they differ. |
| PathDecoding.EncodingIsSeenThrough | server/src/handlers/auth.rs:679-692 | A plain path percent-encoded up to five times over is normalised like the path itself; more often, it is refused unless encoding changed nothing. |
| PathDots.AgreesWithRfc3986 | server/src/handlers/auth.rs:693-706 | On every path that passes the check, the segment stack computes the dot-segment removal of section 5.2.4 of RFC 3986, except that a final dot segment leaves no trailing slash. |
| PolicySelection.FindMatching | server/src/application.rs:293-324 | The single pass refuses exactly when the best rank is attained twice, and otherwise yields the one best match if it is enabled. |
| PolicySelection.MostSpecificDecides | server/src/application.rs:306-319 | A match with a longer path prefix than every other, or an equally long one and the only literal host among those, decides. |
| PolicySelection.OrderIsIrrelevant | server/src/application.rs:293-324 | Rearranging the list of policies changes nothing. |
| PolicySelection.FlagsNeverRedirect | server/src/application.rs:290-323 | Flipping enabled flags never makes a different policy apply and never changes whether the choice is ambiguous. |
| PolicySelection.LiteralTies | server/src/application.rs:327-355 | Two literal-host policies can tie on some request if and only if their hosts agree ignoring case and their prefixes are equal, none counting as empty. |
| AuditCsv.RecordsToCsv | server/src/handlers/admin.rs:169-221 | A reader of section 2 of RFC 4180 that also accepts bare line feeds recovers from the text exactly the header and one ten-field row per record. |
| AuditCsv.ReadBack | server/src/handlers/admin.rs:169-221 | The same for every list of records, each field equal to its guarded original whatever commas, quotes and line ends it holds. |
| AuditCsv.FieldCell | server/src/handlers/admin.rs:200-221 | One printed field is read back as its guarded value, wherever a field may end. |
| AuditCsv.GuardedIsInert | server/src/handlers/admin.rs:203-210 | No guarded field can be taken for a formula, and the guard adds one apostrophe exactly where it is needed. |
| RateLimiter.WindowLimit | server/src/rate_limit.rs:54-99 | With clock readings in lock order, no window of an address allows more than the maximum, unless the failures recorded in that very window can wrap its counter. |
| RateLimiter.IntervalLimit | server/src/rate_limit.rs:54-99 | In any interval one window long an address is allowed at most twice the maximum less one, unless the failures of a window that meets the interval can wrap its counter. |
| RateLimiter.WindowLimitIff | server/src/rate_limit.rs:54-99 | Exactly when every window with at most n recorded failures is limited, in all runs: nothing is ever allowed, or the window is positive and maximum plus n stays below the 32-bit counter's range. The failing run allows the maximum, wraps the counter with failures and allows it again. |
| RateLimiter.IntervalLimitIff | server/src/rate_limit.rs:54-99 | The same for intervals that meet only such windows; windows of no length are limited too. |
| RateLimiter.IntervalLimitIsReached | server/src/rate_limit.rs:54-80 | The interval bound is attained, without any failure, for every positive maximum and every window of two ticks or more. |
| RateLimiter.RetryAfterIsExact | server/src/rate_limit.rs:69-73 | Left alone, a refused address is allowed again once the time named in the refusal has passed, and no earlier. |
| RateLimiter.CleanupIsInvisible | server/src/rate_limit.rs:102-107 | Removing every cleanup from a run changes no result. |
| RateLimiter.Limiter.Check | server/src/rate_limit.rs:54-80 | Allow and count, or refuse with the time left; neither subtraction underflows, whatever the clock reads. |
| RateLimiter.Limiter.RecordFailure | server/src/rate_limit.rs:83-99 | A failure counts in the current window, wrapping at 32 bits. |
| RateLimiter.Limiter.Cleanup | server/src/rate_limit.rs:102-107 | An address stays, unchanged, exactly while its window is open, and no later attempt can tell that others have gone. |

## Left out

- LdapDn.BaseParses: stated for base DNs without a backslash, because the base-DN check ignores escapes while the parser processes them; LdapDn.BaseParsesIff is the exact condition for all of them, and the search is proved for every accepted base DN.
- LdapDn.BuiltNamesParse: role names are any nonempty strings without commas, backslashes and white space; the Unicode notion of an alphanumeric character is not modelled.
- RateLimiter.WindowLimit: stated for positive windows with fewer recorded failures than the 32-bit counter has values left; with a window of zero every request opens a new one, so the limit fails there too, and RateLimiter.WindowLimitIff gives the exact condition.
- RateLimiter.IntervalLimit: the same bound on the failures of each window that meets the interval, exact by RateLimiter.IntervalLimitIff.
- CredentialSweep.SweepsAreInvisible: excluded are only runs that reach the replay lookup of a refresh token, or the guarded update of a code read over an hour before, whose row a sweep has deleted; CredentialExposure.SweepVisibleIffExposed says exactly which requests a sweep is visible to.
- CredentialServer.Server.GenerateTokenPair: password checking before the generation is read is not part of this model.
- CredentialServer.Server.RotateTokenPair: the handlers' verification of the new access token after a rotation is not part of it.
- CredentialServer.Server.IssueAuthorizationCode: the session cookie path; with a refresh cookie the endpoint first does a browser rotation, which is an event of its own, and then continues with the new access token. Whether the application admits the user is a parameter.
- CredentialServer.Server.ConsumeAuthorizationCode: run alone, its update always wins; the losing branch is CredentialServer.Server.TakeAuthorizationCode and the interleaved machine.
- CredentialServer.Server.ExchangeAuthorizationCode: client authentication precedes it, and scopes and nonces only fill claims; whether the redirect URI is still listed and the user still admitted are parameters.
- TotpProtocol.TotpStore.ConsumeRecoveryCode: letter case is folded for ASCII only.
- AuditCsv.RecordsToCsv: identifiers arrive in textual form.
- Cryptography, key storage, HTTP, cookies, HTML, the SQL and regex engines, and the LDAP message parser behind the guard.
- Passkeys, invitations and app passwords: their cores consume one row once, as codes and handoffs do.
- How roles and application access are decided, and the response fields of a token pair.
- The last-admin guard, which is only sequential, and per-field input validators.
- LDAP binds and password modes, attribute selection in answers, and database errors during a search.
