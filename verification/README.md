# Verified models of the Abrchin server rules

This project models the parts of the Abrchin repository whose correctness is not visible from any one
function, and proves what they promise: two rate limiters, the one-time-code login, the canonical JSON
behind idempotency fingerprints, the profit-curve band editor, two text normalisers, two worker loops, and
the rounding of money and of resource tiers. `dafny verify dfyconfig.toml` checks all of it.

- **Rate limiting** (`FixedWindow`, `MemoryRateLimit`, `PostgresRateLimit`). The limiter of one key is
  specified once; the window guarantees, and the fact that they cannot be improved, are proved about it. The
  in-process limiter is a class over an insertion-ordered map whose `Check` and `Prune` run the source's
  loops; the shared limiter is a list of SQL statements under any interleaving, clean-ups included. Both
  refine the one-key limiter, which makes them agree with each other.
- **Login** (`OtpRules`, `LoginProtocol`, `LoginSafety`, `AuthService`). The protocol is a state machine of
  16 kinds of step on shared rows, one per SQL statement; the issue transaction is a read under the advisory
  lock and then a commit or an abort. Any number of calls may be under way and any of them may stop anywhere.
  Eight invariants are kept by every step, and the safety results hold over every run. `AuthService` has the
  procedures as the source writes them, on mutable tables, proves that run alone they do and answer what the
  protocol's steps do, and says exactly which tries with a sent code log in.
- **Canonical JSON** (`JsonText`, `StableJson`, `CanonicalJson`). The printer with its string escapes
  (section 7 of RFC 8259), a reader for it, and the proof that reading gives the value back; equality of
  values is defined without the printer and without any order on keys.
- **Band editor** (`ProfitCurve`, `ProfitBands`, `ProfitConfig`). Percent texts, the parsing and the counting
  loop, boundary edits, and the way from a configuration to a draft and back.
- **Worker loops** (`ProvisioningWorker`, `CatalogScheduler`). The worker's log is tied cycle by cycle to the
  outcomes of its tasks; due times and idle rounds are then computed from the log alone.
- **Normalisers** (`JsStrings`, `ClientIp`, `Mobile`), **arithmetic** (`CheckoutMoney`, `Compass`), and the
  stable sort two of the areas use (`StableSort`).

A few expectations turned out not to hold of the code as written. They are kept as results:

- A comment in `components/account/order-checkout-panel.tsx:12-19` says that flooring keeps the displayed
  lines summing to the displayed total. `CheckoutMoney.DisplayedLinesCanFallShort` is a counterexample and
  `CheckoutMoney.DisplayedLinesAgreeIff` says exactly when the lines do add up.
- `OTP_MAX_ATTEMPTS` is 5, but parallel verify calls read the row before any of them adds to it. With k calls
  guessing at once the attempts can reach 4 + k and no more.
- A fixed window of `limit` calls admits up to 2 * `limit` - 1 in an interval of the window's length.
- A limit below one makes the two rate limiters differ on a first call.
- A verify call can read a consumed challenge instead of the live one of the same millisecond:
  `LoginSafety.ConsumedTwinIsReachable` is such a run, `LoginSafety.VerifyReadsTheLiveChallenge` says exactly
  at which commits this cannot happen.
- An overflow of the in-process limiter gives a key a fresh count (`MemoryRateLimit.EvictionRestartsTheCount`);
  `MemoryRateLimit.EvictedIff` says exactly when.
- The two copies of the forwarded-address rule record different addresses (`ClientIp.CopiesDiffer`);
  `ClientIp.CopiesAgreeIff` gives the condition on the headers.

The clock is one non-decreasing integer of milliseconds. JavaScript's truncating division and remainder are
written out where an operand may be negative. Cost and duration bounds are exact integers.

## Model

| member | source | states |
|---|---|---|
| FixedWindow.LifetimeBound | lib/rate-limit.ts:36-49 | for any later calls, from the call that starts a bucket until it resets at most max(1, limit) calls are admitted |
| FixedWindow.WindowBound | lib/rate-limit.ts:32-50 | for any trace, any half-open interval as long as the window admits at most twice the capacity less one |
| FixedWindow.WindowBoundIsTight | lib/rate-limit.ts:32-50 | every limit of at least 1 with a window of at least 2 ms has a trace that reaches that bound |
| FixedWindow.RetryAfterIsLeastWait | lib/rate-limit.ts:41-46 | a refusal names the least positive whole number of seconds after which the same call is admitted |
| MemoryRateLimit.PruneKeepsNewest | lib/rate-limit.ts:61-77 | a sweep removes every expired bucket, keeps the smaller of the live count and 5,000, evicts none that resets later than one it keeps, and leaves survivors unchanged and in place |
| MemoryRateLimit.DropOldestKeepsNewest | lib/rate-limit.ts:72-76 | evicting the first n of the sorted entries evicts no bucket that resets after a survivor |
| StableSort.SortOrdered | lib/rate-limit.ts:73 | the stable insertion model of the sort orders any entries by a numeric key; also used for the bands |
| StableSort.SortKeepsOrdered | components/admin/profit-curve-panel-section.tsx:667 | stability: what is already in order is left as it is |
| StableSort.SortStable | components/admin/profit-curve-panel-section.tsx:667 | elements with the same key keep their order |
| MemoryRateLimit.CheckSettles | lib/rate-limit.ts:32-50 | a check keeps the invariant: insertion order is reset order, no reset further off than a window, at most 5,001 buckets |
| MemoryRateLimit.RunSettles | lib/rate-limit.ts:32-77 | the invariant holds over every run whose clock does not go back |
| MemoryRateLimit.RunPrunesOldestFirst | lib/rate-limit.ts:61-77 | in every run a sweep drops a prefix of the insertion order and evicts at most one bucket that is still counting |
| MemoryRateLimit.MemoryRefines | lib/rate-limit.ts:32-50 | a key that overflow never evicts gets, whatever other keys do, the verdicts of a limiter kept for it alone |
| MemoryRateLimit.MemoryWindowBound | lib/rate-limit.ts:32-50 | over any run such a key is admitted at most twice the capacity less one per window length |
| MemoryRateLimit.FewKeysNeverEvicted | lib/rate-limit.ts:68-76 | a caller that uses at most 5,000 different keys never has one evicted |
| MemoryRateLimit.FewKeysWindowBound | lib/rate-limit.ts:32-50 | for such a caller the window bound holds for every key with no further condition |
| MemoryRateLimit.EvictedIff | lib/rate-limit.ts:68-76 | in every run a counting bucket is evicted exactly if 5,001 are counting and none was inserted before it |
| MemoryRateLimit.EvictionRestartsTheCount | lib/rate-limit.ts:68-76 | a run in which a used-up key is admitted again while its bucket would still be counting |
| MemoryRateLimit.MemoryRateLimiter.constructor | lib/rate-limit.ts:23-30 | a new limiter holds no bucket and keeps its limit and window |
| MemoryRateLimit.MemoryRateLimiter.Check | lib/rate-limit.ts:32-50 | the map after the call and the verdict are those of the specification the run lemmas are about |
| MemoryRateLimit.MemoryRateLimiter.Prune | lib/rate-limit.ts:61-77 | the two deletion loops leave exactly the swept map |
| MemoryRateLimit.MemoryRateLimiter.SweepExpired | lib/rate-limit.ts:62-66 | deleting while iterating removes exactly the expired buckets and keeps the order of the rest |
| MemoryRateLimit.MemoryRateLimiter.Size | lib/rate-limit.ts:52-54 | the number of buckets held |
| MemoryRateLimit.MemoryRateLimiter.Reset | lib/rate-limit.ts:57-59 | nothing is left |
| PostgresRateLimit.ExecuteTracks | lib/rate-limit.ts:99-139 | one statement keeps the relation "bucket count = min(limit, row count), same expiry" and answers as the one-key limiter does |
| PostgresRateLimit.PostgresRefines | lib/rate-limit.ts:99-176 | under any interleaving of checks and clean-ups a key not evicted while counting gets the verdicts of a limiter kept for it alone |
| PostgresRateLimit.MemoryAndPostgresAgree | lib/rate-limit.ts:22-177 | both limiters give a key called at the same times identical answers, retry times included |
| PostgresRateLimit.FirstCallAgreesIffLimitPositive | lib/rate-limit.ts:36-39 | the limiters agree on a first call exactly when the limit is at least one |
| PostgresRateLimit.PostgresWindowBound | lib/rate-limit.ts:99-176 | the shared limiter admits at most 2 * limit - 1 calls of a key per window length, clean-ups included |
| PostgresRateLimit.CleanupsDelete | lib/rate-limit.ts:157-171 | a clean-up leaves exactly the rows that expire after its time, an overflow delete all but the keys it picked, both unchanged |
| PostgresRateLimit.FewKeysNeverEvicted | lib/rate-limit.ts:160-172 | callers that use at most 50,000 different keys never have a row evicted |
| OtpRules.ResendWaitIsLeast | lib/otp-rules.ts:28-32 | the wait is the least whole number of seconds after which none is left, and none is left exactly after 60 s |
| LoginProtocol.NextKeepsRows | lib/auth-service.ts:75-92 | every step keeps: rows carry what was issued under their id, and are marked consumed exactly when won |
| LoginProtocol.NextKeepsOrder | lib/auth-service.ts:52-82 | every step keeps: challenges of a mobile are issued in order of creation time, and after what the lock holder read |
| LoginProtocol.NextKeepsLatest | lib/auth-service.ts:84-92 | every step keeps: only the challenge issued last for a mobile can be unconsumed |
| LoginProtocol.NextAccounts | lib/auth-service.ts:84-115 | every step keeps: the last challenge of a mobile is still there, was consumed, or its delivery failed |
| LoginProtocol.CooldownCovers | lib/auth-service.ts:59-73 | the check under the lock passes only if every earlier challenge of the mobile is 60 s old or used up |
| LoginProtocol.NextKeepsSpacing | lib/auth-service.ts:52-95 | every step keeps: two challenges of a mobile are 60 s apart unless the earlier one was used up |
| LoginProtocol.NextKeepsVerifiers | lib/auth-service.ts:131-168 | every step keeps: what a verify call has established by its phase, right code and unexpired copy among it |
| LoginProtocol.NextKeepsClaims | lib/auth-service.ts:161-205 | every step keeps: a consumed challenge has one call that may open a session, or one session, never two |
| LoginProtocol.NextKeepsSessions | lib/auth-service.ts:203-205 | every step keeps: a session belongs to a consumed challenge of its own mobile |
| LoginProtocol.NextKeepsInv | lib/auth-service.ts:30-212 | all eight invariants are kept by all sixteen steps, an abort of the issue transaction among them |
| LoginProtocol.RunKeepsInv | lib/auth-service.ts:30-212 | and so by every run |
| LoginSafety.AtMostOneUnconsumed | lib/auth-service.ts:52-95 | in every reachable state a mobile has at most one unconsumed challenge, the last issued, with none created later |
| LoginSafety.VerifyReadsTheLiveChallenge | lib/auth-service.ts:75-134 | a challenge issued in any run is what every later verify call reads while it is unconsumed, exactly if its commit gave it a creation time after every consumed challenge of the mobile |
| LoginSafety.OtherReadIsConsumedTwin | lib/auth-service.ts:131-134 | in every reachable state the only other row a verify call may read is consumed and of the same millisecond |
| LoginSafety.ConsumedTwinIsReachable | lib/auth-service.ts:131-143 | a run after which a verify call may read a consumed row although a live code is there, and refuse it |
| LoginSafety.SessionsAreEarned | lib/auth-service.ts:161-205 | every session comes from one consumed challenge of its mobile, with the issued code, before expiry; no two from the same |
| LoginSafety.FirstConsumeWins | lib/auth-service.ts:161-168 | in every reachable state a call with the right code wins exactly if the row is still there and was not won before |
| LoginSafety.ConsumedAtMostOnce | lib/auth-service.ts:161-168 | over any run at most one step consumes a challenge, and once one did none does in any continuation |
| LoginSafety.DeletedNeverYields | lib/auth-service.ts:85-115 | a challenge deleted before it was consumed never yields a session, even to a call that had read it |
| LoginSafety.AttemptsNeverExceed | lib/auth-service.ts:140-159 | with at most k calls guessing at a time, attempts never exceed 4 + k in any run |
| LoginSafety.AttemptsBoundIsTight | lib/otp-rules.ts:21-26 | for every k there is a run with at most k guessing calls that ends with 4 + k attempts |
| LoginSafety.IssueRate | lib/auth-service.ts:52-73 | in T seconds at most T / 60 rounded down, plus one, codes are created for a mobile, unless one of them was used up |
| LoginSafety.CloseIssuesWereUsedUp | lib/auth-service.ts:59-73 | two codes closer than 60 s: the earlier one was consumed or not delivered |
| LoginSafety.RefusalNamesLeastWait | lib/auth-service.ts:64-72 | a refusal names the least whole number of seconds after which the request passes, and none is given exactly if it passes now |
| LoginSafety.InvalidForever | lib/session-rules.ts:1-9 | a session that was revoked or ran out is not found in any later state of any run |
| LoginSafety.RevokedForever | lib/session-store.ts:32-52 | a revoked token finds no session ever again |
| LoginSafety.BlockedUsersAreOut | lib/auth-service.ts:170-176 | from being blocked until unblocked no session of the user is found in any run, and none is opened by a call that had not passed the account check |
| LoginSafety.UnblockRestores | lib/session-store.ts:49-50 | unblocking brings back exactly the sessions still valid; blocking one user hides nobody else's |
| LoginSafety.DeliverySettlesOnce | lib/auth-service.ts:105-115 | in any run a delivered code is never taken back as failed, a failed one stays failed, and its row goes exactly with the compensating delete |
| LoginSafety.LockIsHeld | lib/auth-service.ts:52-57 | in any run no other issue of the mobile gets between the read under the lock and its commit or abort |
| LoginSafety.LockIsFreed | lib/auth-service.ts:52-95 | commit and abort free the lock, and an abort leaves the rows alone |
| AuthService.ReserveIsProtocol | lib/auth-service.ts:52-95 | the reservation on the tables is what the protocol's read and commit do one after the other |
| AuthService.DeliveryIsProtocol | lib/auth-service.ts:105-115 | after the reservation only a failed delivery that is cleaned up changes the tables, and it takes back only the new challenge |
| AuthService.FailedDeliveryLeavesNothing | lib/auth-service.ts:107-115 | after that the mobile has no unconsumed challenge |
| AuthService.VerifyIsProtocol | lib/auth-service.ts:131-205 | the verification on the tables is what the protocol's steps of one verify call do one after the other |
| AuthService.AnswerIsProtocol | lib/auth-service.ts:140-211 | its answer says what those steps did: logged in exactly if the session is there, consumed, counted, or refused |
| AuthService.ReserveKeeps | lib/auth-service.ts:75-92 | a reservation keeps the tables valid, touches no other mobile's row and no consumed row, and leaves one unconsumed row of the mobile |
| AuthService.SentCodeWorksIff | lib/auth-service.ts:120-212 | the first try with a sent code logs in exactly if it is among the first five and in time, no other try does; before a login each try is told expired, too many attempts or wrong code exactly by its time and place; after one it is told consumed |
| AuthService.WinnerLogsIn | lib/auth-service.ts:140-211 | the same for any unconsumed challenge and however many attempts it has left |
| AuthService.AnswersInTurn | lib/otp-rules.ts:21-26 | the answers to tries on any unconsumed challenge until one is right: expired from the expiry on, too many attempts after the fifth or at a wrong fifth, wrong code before that |
| AuthService.TriesRunOut | lib/otp-rules.ts:21-26 | once as many tries as were left have been made, right or wrong, every further one is refused |
| AuthService.TriesAreAnswered | lib/auth-service.ts:120-212 | every list of tries has answers, so the statements above are about something |
| AuthService.LoginOpensSession | lib/session-store.ts:10-52 | the session a login opens is found exactly until it runs out |
| AuthService.NewestExists | lib/auth-service.ts:131-134 | among any rows one was created last, so the query finds a row exactly if there is one |
| AuthService.SixDigitsIff | lib/auth-service.ts:127-129 | a code is well formed exactly if it is six of the ten ASCII digits |
| AuthService.LoginTables.FindNewest | lib/auth-service.ts:59-62 | a newest row of the mobile, or none exactly if it has no row |
| AuthService.LoginTables.RequestLoginOtp | lib/auth-service.ts:30-118 | refused and unchanged when blocked or cooling down; else the new challenge replaces all unconsumed ones of its mobile and is deleted again when delivery fails; other mobiles' rows and consumed rows are never touched |
| AuthService.LoginTables.VerifyLoginOtp | lib/auth-service.ts:120-212 | malformed code and missing challenge change nothing; else the tables and the answer follow the newest row: refusal, one more attempt, or consumption and session |
| AuthService.LoginTables.CreateUserSession | lib/session-store.ts:6-30 | one new session row that runs out the set number of days from now, for a consumed challenge, found at once; others unchanged |
| AuthService.LoginTables.RevokeSessionByToken | lib/session-store.ts:32-39 | marks this session revoked now unless it was before, after which it is not found; other rows and unknown tokens are left alone; this is what the protocol's step does |
| AuthService.LoginTables.FindValidSession | lib/session-store.ts:41-52 | found exactly if the row exists, is not revoked, has not run out and its user is not blocked; agrees with the protocol's |
| JsonText.HexRoundTrip | lib/idempotency.ts:21-24 | the four digits of a unit escape read back as that unit |
| JsonText.ReadsEscaped | lib/idempotency.ts:21-24 | an escaped string reads back as itself, up to its closing quote and no further, lone surrogates included |
| JsonText.EscapesAre | lib/idempotency.ts:21-24 | what is written for each code unit: the seven short escapes, lower-case four-digit escapes for other controls and lone surrogates, any other unit itself |
| JsonText.EscapeSteps | lib/idempotency.ts:21-24 | a surrogate pair is written as it is, everything else unit by unit |
| JsonText.LessIsBefore | lib/idempotency.ts:19-20 | the order of keys is the code unit order, said outright: equal up to a place where one ends or has the smaller unit |
| CanonicalJson.StableReads | lib/idempotency.ts:12-25 | whatever may follow it, the text reads as the value with undefined as null and keys in order, and nothing more is used |
| CanonicalJson.StableKeysInOrder | lib/idempotency.ts:17-23 | the whole text reads as a value whose keys come one after the other in code unit order at every depth |
| CanonicalJson.JsonWordsAre | lib/idempotency.ts:13-24 | the words and quotes written are JSON's, undefined as null |
| CanonicalJson.JsonMarksAre | lib/idempotency.ts:14-23 | so are brackets, commas and colons, with nothing between them |
| CanonicalJson.JsonFieldsAre | lib/idempotency.ts:19-22 | two fields are written with the earlier key first, in whichever order they were given |
| CanonicalJson.SortUnique | lib/idempotency.ts:19-20 | the same entries in any two orders sort to the same sequence |
| CanonicalJson.SamePrintsAlike | lib/idempotency.ts:12-25 | the same value, whatever the order of its entries at any depth, has one text |
| CanonicalJson.NormalFormDecides | lib/idempotency.ts:12-25 | values with one normal form are the same value |
| CanonicalJson.StableJsonDecidesEquality | lib/idempotency.ts:12-25 | texts are equal exactly for the same JSON value |
| CanonicalJson.FingerprintDecidesEquality | lib/idempotency.ts:27-29 | fingerprints are equal exactly for the same JSON value, given no hash collision on the two texts |
| ProfitCurve.PercentRoundTrip | components/admin/profit-curve-panel-section.tsx:65-82 | an integer survives being shown as a percentage and parsed exactly if it lies in 0..100000; any other is refused |
| ProfitCurve.FractionalPercent | components/admin/profit-curve-panel-section.tsx:65-74 | a whole part and a fraction of a percent parse to their basis points up to the maximum |
| ProfitCurve.PercentShown | components/admin/profit-curve-panel-section.tsx:76-82 | a non-negative value is shown as its whole percents and, if any, its shortest fraction |
| ProfitCurve.TypedIsRead | components/admin/profit-curve-panel-section.tsx:65-74 | digits, at most two more after a point, and any white space around them are read as written, up to 100,000 basis points |
| ProfitCurve.ReadIsTyped | components/admin/profit-curve-panel-section.tsx:65-74 | nothing else is read |
| ProfitBands.DraftsToBands | components/admin/profit-curve-panel-section.tsx:101-117 | the loop gives every draft's band in order, or nothing if some percentage does not parse |
| ProfitBands.AmountsRead | components/admin/profit-curve-panel-section.tsx:103-114 | amounts typed in toman become rial, only digits count, an empty minimum is nothing and an empty maximum no bound; refused exactly for a bad percentage |
| ProfitBands.ExactlyOneBand | components/admin/profit-curve-panel-section.tsx:171-173 | contiguous increasing bands from 0 without upper end put every non-negative cost in one band and no other |
| ProfitBands.BandPlanCounts | components/admin/profit-curve-panel-section.tsx:162-181 | each count is the number of rows with a digit-only cost whose first band this is |
| ProfitBands.FirstBandTakes | components/admin/profit-curve-panel-section.tsx:169-178 | the band a row is counted in takes its cost and no earlier one does |
| ProfitBands.CostsAre | components/admin/profit-curve-panel-section.tsx:166-168 | a row has a cost exactly if its text is digits, and it is their value |
| ProfitBands.CountsAddUp | components/admin/profit-curve-panel-section.tsx:162-181 | over a partition the counts add up to the number of rows with a digit-only cost |
| ProfitBands.EditMaxKeepsPartitionIff | components/admin/profit-curve-panel-section.tsx:366-381 | editing a maximum keeps a partition exactly if the amount is not empty and strictly between its neighbours |
| ProfitBands.EditMinKeepsPartitionIff | components/admin/profit-curve-panel-section.tsx:345-349 | editing a minimum keeps a partition exactly if the amount is the one that was there |
| ProfitBands.EditsTouchOnly | components/admin/profit-curve-panel-section.tsx:214-218 | an edit changes the amounts it is about and nothing else |
| ProfitConfig.AmountSurvivesIff | components/admin/profit-curve-panel-section.tsx:671-675 | an amount survives the editor exactly if non-negative and a multiple of 10 rial; others lose less than 10 rial, and a negative one its sign |
| ProfitConfig.BandThroughEditor | components/admin/profit-curve-panel-section.tsx:668-677 | what a band becomes on its way through draft and candidate, and that it is refused exactly for invalid basis points |
| ProfitConfig.ConfigSurvivesIff | components/admin/profit-curve-panel-section.tsx:600-705 | a configuration comes back unchanged exactly if complete, five bands in sort order, basis points valid and amounts non-negative multiples of 10 in canonical form |
| ProfitConfig.ConfigPartitionShownIff | components/admin/profit-curve-panel-section.tsx:660-677 | bands that are a partition in rial are one in the editor exactly if their bounds stay apart when cut to whole toman |
| ProfitConfig.DefaultsArePartition | components/admin/profit-curve-panel-section.tsx:619-658 | the default bands, used unless five are stored, are shown as a partition |
| ProfitConfig.DefaultDraftsAre | components/admin/profit-curve-panel-section.tsx:619-677 | the five bands shown to whoever has not stored five, text by text |
| ProfitConfig.AbsentIsShown | components/admin/profit-curve-panel-section.tsx:660-664 | the curve is shown disabled exactly if the configuration says so, and an absent floor as 20 percent |
| ProfitConfig.ShownInSortOrder | components/admin/profit-curve-panel-section.tsx:665-677 | bands are shown in order of their sort orders, an absent one counting as zero |
| ProfitConfig.SerializesExactly | components/admin/profit-curve-panel-section.tsx:683-705 | a candidate is made exactly if the floor and every margin parse, with the draft's bands in order |
| ClientIp.ReadRequestMetaIp | lib/session.ts:60-72 | the branches that assign the address give the function the comparison below is about |
| ClientIp.ClientTextIsIgnored | lib/session.ts:60-72 | behind h proxies both copies take the first of their h entries, whatever text the client sent |
| ClientIp.FirstProxyAddressIsTaken | lib/client-ip.ts:4-7 | the same with the addresses as proxies write them: the first of the h is returned without the white space around it |
| ClientIp.OtherwiseRealIp | lib/client-ip.ts:4-9 | an absent, empty or untrusted forwarded header leaves the real-IP header, and "unknown" without it |
| ClientIp.BlankHeaderIsUnknown | lib/client-ip.ts:5-7 | a trusted header of white space and commas names nobody |
| ClientIp.ShortChainTakesFirst | lib/client-ip.ts:5-7 | with no more non-blank entries than hops the first of them is taken |
| ClientIp.UntrustedHeaderIsIgnored | lib/client-ip.ts:4-9 | without trusted hops the forwarded header changes nothing, in either copy |
| ClientIp.CopiesAgreeIff | lib/session.ts:53-75 | the two copies record the same address exactly under a condition on the headers alone |
| ClientIp.CopiesDiffer | lib/client-ip.ts:4-9 | an input for each way in which they do not |
| JsStrings.TrimDropsBlanks | lib/client-ip.ts:5 | trimming removes the white space around a text and nothing of the text; also used for percentages |
| Mobile.NormalizeIranMobile | lib/mobile.ts:12-36 | the branches that reassign the candidate give the function the lemmas are about; a non-string is refused |
| Mobile.AcceptsExactlyTheSpellings | lib/mobile.ts:17-35 | accepted exactly if the cleaned text is 09, +989, 00989 or 989 and nine digits; the answer is 09 and those digits |
| Mobile.NormalFormIsFixed | lib/mobile.ts:12-36 | normalising is idempotent |
| Mobile.SameMobileIffSameSubscriber | lib/mobile.ts:12-36 | two accepted inputs have one normal form exactly if their nine digits agree |
| Mobile.SpellingDoesNotMatter | lib/mobile.ts:17-18 | a separator anywhere, or a Persian digit for an ASCII one, does not change the answer |
| Mobile.CleanedIs | lib/mobile.ts:17-18 | character by character: white space, hyphens and parentheses go, Persian digits become ASCII digits, everything else stays |
| ProvisioningWorker.FirstTasks | scripts/provisioning-worker-entry.ts:64-70 | goes through exactly if every due task does, and moves the lifecycle due time only when the pass was due and went through |
| ProvisioningWorker.BillingTask | scripts/provisioning-worker-entry.ts:71-89 | goes through exactly if no due step fails, and moves the billing due time only when the pass was due and completed |
| ProvisioningWorker.RunCycle | scripts/provisioning-worker-entry.ts:62-121 | what one round logs, what it leaves in the loop's variables, and when it crashes the worker |
| ProvisioningWorker.RunWorker | scripts/provisioning-worker-entry.ts:58-122 | the log of a run is, cycle by cycle, what the outcomes put there, up to the first round that is stopped or crashes and no further |
| ProvisioningWorker.LogTells | scripts/provisioning-worker-entry.ts:63-121 | an event is in a cycle's log exactly if the outcomes of its round made it happen, with the times read there |
| ProvisioningWorker.DueTimesFollowLog | scripts/provisioning-worker-entry.ts:58-89 | the loop's due times are an interval after the last completion in the log; what failed moves nothing |
| ProvisioningWorker.BillingFollowsOutcomes | scripts/provisioning-worker-entry.ts:71-89 | in any run each settlement is reached exactly if billing was due by the log and every step before it succeeded, and the pass is completed exactly if all did |
| ProvisioningWorker.LifecycleFollowsOutcomes | scripts/provisioning-worker-entry.ts:66-70 | in any run the lifecycle pass is done exactly if due by the log and it went through |
| ProvisioningWorker.DailyFollowsHourly | scripts/provisioning-worker-entry.ts:73-86 | a daily settlement directly follows an hourly one that went through in the same cycle with the same instant |
| ProvisioningWorker.DunningFollowsDaily | scripts/provisioning-worker-entry.ts:80-88 | suspension reviews are queued directly after the daily settlement of that instant went through and directly before the pass is marked done |
| ProvisioningWorker.CycleInOrder | scripts/provisioning-worker-entry.ts:63-121 | in every cycle of any run provisioning, alerts, lifecycle, each billing step, purge, heartbeat and sleeps stand in this order, each at most once |
| ProvisioningWorker.LifecyclePassesKeepAMinute | scripts/provisioning-worker-entry.ts:66-70 | completed lifecycle passes are at least a minute apart |
| ProvisioningWorker.FailedPassStaysDue | scripts/provisioning-worker-entry.ts:71-89 | after a pass that was not completed the next cycle that gets as far starts one again instead of skipping it |
| ProvisioningWorker.PassesKeepTheInterval | scripts/provisioning-worker-entry.ts:71-89 | every pass, completed or not, starts at least the interval after every earlier completed one |
| ProvisioningWorker.BillingRate | scripts/provisioning-worker-entry.ts:71-89 | in any period billing completes at most once per interval and once more |
| ProvisioningWorker.GoodHeartbeatIsHonest | scripts/provisioning-worker-entry.ts:63-91 | a cycle is reported good exactly if every task due by the log went through; skipped tasks were not due, due ones were completed |
| ProvisioningWorker.ReportedOnce | scripts/provisioning-worker-entry.ts:91-121 | every cycle that does not end the worker is reported once, good or stale, a stale one backs off, and each ends with the pause |
| ProvisioningWorker.IdleRoundsBounded | scripts/provisioning-worker-entry.ts:92-100 | a stretch of the log without found work and without an idle sleep has fewer idle good cycles than the maximum, whatever failing cycles lie between |
| ProvisioningWorker.IdleSleepIsEarned | scripts/provisioning-worker-entry.ts:95-99 | an idle sleep comes only after exactly that many idle good cycles since the last reset |
| CatalogScheduler.IntervalIs | scripts/catalog-sync-scheduler-entry.ts:15-19 | a setting of a minute or more is used, a smaller one counts as a minute, none or zero as five |
| CatalogScheduler.SlicedSleep | scripts/catalog-sync-scheduler-entry.ts:100-102 | sleeps exactly the time asked for in slices of at most a second, or up to the first test that finds the flag up |
| CatalogScheduler.RunScheduler | scripts/catalog-sync-scheduler-entry.ts:88-103 | how far apart cycles start, exactly, and that they go on up to the first stopped round and no further |
| CatalogScheduler.GapIsIntervalIff | scripts/catalog-sync-scheduler-entry.ts:99 | that distance is never below the interval, and equal to it exactly if the cycle leaves a second of it |
| CheckoutMoney.DisplayIsFloor | components/account/order-checkout-panel.tsx:20-24 | the displayed amount is the floor in toman, for either sign |
| CheckoutMoney.DisplayedLinesAgreeIff | components/account/order-checkout-panel.tsx:12-24 | displayed lines fall short of the displayed total by exactly the whole tomans in their remainders, and agree exactly if those stay below one |
| CheckoutMoney.DisplayedLinesCanFallShort | components/account/order-checkout-panel.tsx:12-19 | two lines for which the comment's claim fails |
| CheckoutMoney.TopUpIsLeast | components/account/order-checkout-panel.tsx:108-127 | the suggested top-up is the least whole toman that covers the amount, less than 10 rial to spare |
| CheckoutMoney.DerivedIs | components/account/order-checkout-panel.tsx:108-127 | nothing is derived while amount or balance is unknown; then the gap or the rest is exact |
| CheckoutMoney.DisplayedBalanceAgreesIff | components/account/order-checkout-panel.tsx:380-404 | displayed balance less price is the displayed remainder, or one toman more exactly if the rial of the price exceed those of the balance |
| Compass.NextTierIsLeast | components/compass-wizard.tsx:172-174 | for any ascending tiers, the least tier or later multiple of 16 that is not below the value |
| Compass.NextTierIsClosure | components/compass-wizard.tsx:172-174 | extensive, monotone and idempotent, past the last tier too |
| Compass.PlansOrderedHoweverRounded | components/compass-wizard.tsx:227-253 | whatever rounding the products suffer, as long as it does not carry them past the plan, lean is at most it and growth at least it |
| Compass.PlansOrdered | components/compass-wizard.tsx:227-253 | lean is at most balanced and balanced at most growth, in every resource, for every plan that can be shown |
| Compass.LeanIsLeast | components/compass-wizard.tsx:228-235 | the lean plan is the least that can be shown with six tenths of the compute and seven of the storage |
| Compass.GrowthIsLeast | components/compass-wizard.tsx:245-252 | the growth plan is the least that can be shown with half as much again |
| Compass.TiersAre | components/compass-wizard.tsx:169-174 | which sizes can be shown, number by number |
| Compass.RoundedIsLeast | components/compass-wizard.tsx:223-225 | the rounded plan is the least one that can be shown and covers what was asked for |
| Compass.Estimate | components/compass-wizard.tsx:177-221 | the running totals give a base and one supplement per answer, capped for a thrifty start |
| Compass.NothingAnswered | components/compass-wizard.tsx:177-179 | what someone gets who answered nothing |
| Compass.ProjectsAdd | components/compass-wizard.tsx:181-185 | what each project adds |
| Compass.StagesAdd | components/compass-wizard.tsx:187-197 | what each stage adds |
| Compass.ScalesAdd | components/compass-wizard.tsx:199-208 | what each scale adds |
| Compass.PrioritiesAdd | components/compass-wizard.tsx:210-216 | what each priority adds |
| Compass.ThriftIs | components/compass-wizard.tsx:218-221 | the cap of a thrifty start |
| Compass.BuildResult | components/compass-wizard.tsx:176-253 | the recommended plan is the least that can be shown and covers the answers; lean and growth are the least with their shares of it |

## Left out

- MemoryRateLimit.MemoryRefines: excludes keys that an overflow evicts while they count, because for those the source does restart the count; EvictedIff and FewKeysNeverEvicted say when that can happen.
- MemoryRateLimit.MemoryWindowBound: the same; FewKeysWindowBound has no such condition.
- PostgresRateLimit.MemoryAndPostgresAgree: the same, for both limiters.
- PostgresRateLimit.PostgresWindowBound: the same; FewKeysNeverEvicted gives a condition on the keys used.
- PostgresRateLimit.PostgresRefines: asks for a limit of at least one and for no overflow delete of a counting row; clean-ups may run at any point, so the counter that runs them every 64 checks is not modelled, nor is which rows an overflow picks, the missing-row answer, or the 32-bit width of the count.
- PostgresRateLimit.ExecuteTracks: the columns `windowStartAt` and `updatedAt` are left out; nothing reads them.
- LoginProtocol.NextKeepsOrder: a creation time lies between the read under the lock and the commit, as when the database client fills it in for the insert; a database that stamped the start of the transaction instead, before it waited for the lock, is not modelled.
- LoginProtocol.RunKeepsInv: the clocks of application and database are one. A request's check for a blocked user before it issues is left out of the protocol, which only adds runs; it is in AuthService.LoginTables.RequestLoginOtp.
- AuthService.SentCodeWorksIff: tries one after the other with no newer code sent and no challenge of the same millisecond; tries in parallel are the protocol's.
- AuthService.LoginTables.VerifyLoginOtp: the token is required to be new, as a random one is; user upsert, role, wallet creation and the second look at the account status after the upsert are left out.
- AuthService.LoginTables.CreateUserSession: the address and user agent kept with a session are left out.
- CanonicalJson.StableJsonDecidesEquality: numbers are given by the text JavaScript prints for them; NaN, infinities, negative zero, BigInt, functions, symbols, Date and sparse arrays are outside the value type.
- CanonicalJson.FingerprintDecidesEquality: the hash is a parameter, assumed not to collide on the two texts.
- JsonText.ReadsEscaped: the reader accepts compact JSON only, which is all the printer writes.
- ProfitCurve.PercentRoundTrip: basis points are integers; a fraction of a basis point is not modelled.
- ProfitConfig.ConfigSurvivesIff: amounts are decimal integer texts; hexadecimal, empty or padded texts that BigInt also parses, and texts on which it throws, are not modelled, nor are the revision id and the time stamp, which pass through.
- ClientIp.ClientTextIsIgnored: the setting and the headers are parameters, the hop count already parsed.
- Mobile.AcceptsExactlyTheSpellings: the wording of the error messages is left out.
- ProvisioningWorker.RunWorker: a finite part of a run, with task outcomes and clock readings as inputs; the first heartbeat, signal handlers, log lines and the limit on catch-up periods are left out, and the billing interval is a number.
- CatalogScheduler.RunScheduler: sleeps last exactly as long as asked, a cycle is its duration, and a stop signal is only looked at where the sleep loop looks at it.
- Compass.PlansOrdered: the factors 0.6, 0.7 and 1.5 are exact; PlansOrderedHoweverRounded keeps the order under any rounding, but which tier a rounded product falls in is not modelled.
- Compass.BuildResult: answers are enumerations of those that make a difference.
- CheckoutMoney.DisplayedLinesAgreeIff: Persian digits and grouping of the displayed numbers are left out.
- React rendering, fetch calls, styling, charts, transitions between bands and the question flow of the wizard and the conversation builder.
- The pricing engine, billing settlement, wallet ledger, provisioning and the other services these files call; where they matter they are steps that succeed or fail.
- HMAC, SHA-256, random tokens and codes: hashes are opaque texts, compared for equality. SMS delivery is an outcome given from outside.
- OTP purposes other than login, which do not share rows with it.
