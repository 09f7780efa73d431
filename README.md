# FocusDock in Dafny

FocusDock is a productivity dashboard. It stores a user's GitHub commits, focus-mode work sessions and Spotify listening per day, and draws them as "grass" graphs. A Stripe subscription tier (`free`, `monthly`, `lifetime`) gates the Spotify features. Sign-up goes through an emailed six-digit code.

This project models the server route handlers and the client logic around them:

- **Entitlement webhook** (`StripeWebhook`): the tier transitions driven by four Stripe event kinds, behind the signature gate.
- **Verification-code gate** (`SendCode`, `VerifyCode`, `Cipher`): issuing codes, and redeeming them with account and profile creation and rollback of the account. `Cipher` models how each route derives the password-blob key.
- **Activity synchronisers** (`GithubSync`, `SpotifySync`): page loops, commit classification, grouping by day, and the delete-then-upsert or delete-then-insert of the user's rows.
- **Profile mutations**: `DisconnectGithub`, `DisconnectSpotify`, `PaymentIntent`, `WorkSession`, `SpotifyCallback`.
- **Dashboard**:
  - `DashboardPage`: the page queries and the artist ranking;
  - `DashboardClient`: the graph series and the "last synced" text;
  - `GrassGraph`: day columns and blocks;
  - `SpotifyArtists`: the artist card;
  - `FocusTimer`: the duration text and the displayed-duration effect.
- **Client state**:
  - `FocusStore`, `SettingsStore`: the two zustand stores;
  - `I18n`: the provider and dotted-key lookup;
  - `VerifyPage`: the code-entry page;
  - `Browser`: `localStorage`.

How the model is built:

- **Route handlers** are methods over a `Schema.Db` object that holds the tables. Supabase, Stripe, GitHub and Spotify answers are parameters of the methods.
- **Pure parts** are functions. Each loop in the source is a method proved equal to a recursive specification function, and the properties are lemmas about that function.
- **Timestamps** are integer milliseconds. A day is `DayOf(ms) = ms / 86400000`, the date part of the ISO string. That is a UTC day, and so are the rows' dates and the `today` that `DashboardClient.WorkData` and `GrassGraph.WorkGraphValue` take. The grass graph's columns are local-time dates (date-fns `format`), so the `today` of `GrassGraph.Days` is the local day. Outside UTC the two differ for part of each day; the model keeps them as separate parameters and does not relate them.
- **JavaScript semantics** are written out where they matter:
  - truthiness (`""`, `0`, `null`);
  - `%`, which truncates toward zero;
  - `value || key`;
  - `Array.prototype.find`, which takes the first match;
  - the insertion order of `Map`.

## Model

| member | source | states |
|---|---|---|
| StripeWebhook.SetTier | app/api/webhooks/stripe/route.ts:55-58 | only the given profile's tier changes; an unknown id changes nothing |
| StripeWebhook.CustomerOwner | app/api/webhooks/stripe/route.ts:102-106 | `.single()` finds a profile exactly when one profile holds the customer id, and it is that profile; with zero or several holders nothing is found |
| StripeWebhook.FindByCustomer | app/api/webhooks/stripe/route.ts:102-106 | the query with `.single()` returns the owner exactly when one profile holds the customer id, none with zero or several; it is the owner the event transitions use |
| StripeWebhook.Post | app/api/webhooks/stripe/route.ts:14-142 | missing signature: 400, no change; `constructEvent` throws: 400, no change; a failed retrieve: 500; otherwise the profiles become the event's transition and the reply is `received` |
| StripeWebhook.HandleChangesOnlyOneTier | app/api/webhooks/stripe/route.ts:36-132 | every transition rewrites at most one profile, and only its tier |
| StripeWebhook.LifetimePaymentIdempotent | app/api/webhooks/stripe/route.ts:44-60 | a lifetime payment makes an existing profile lifetime; delivering it twice equals once |
| StripeWebhook.OtherPaymentsChangeNothing | app/api/webhooks/stripe/route.ts:43-44 | donate or monthly plans, or missing user or plan metadata, change no tier |
| StripeWebhook.InvoiceRespectsLifetime | app/api/webhooks/stripe/route.ts:66-94 | an invoice payment makes its user monthly unless they are lifetime, who stay lifetime |
| StripeWebhook.InvoiceRetrieveFailure | app/api/webhooks/stripe/route.ts:72 | a throwing `subscriptions.retrieve` aborts before any write |
| StripeWebhook.DeletionDowngradesToFree | app/api/webhooks/stripe/route.ts:108-114 | cancellation sets the customer's profile to free, whatever its tier |
| StripeWebhook.UpdateDowngradesLifetime | app/api/webhooks/stripe/route.ts:115-123 | an active update writes monthly with no lifetime check, so a lifetime user is downgraded |
| StripeWebhook.InactiveUpdateChangesNothing | app/api/webhooks/stripe/route.ts:115 | an update whose status is not `active` writes nothing |
| StripeWebhook.UnhandledChangesNothing | app/api/webhooks/stripe/route.ts:130-134 | unknown event types change nothing |
| SendCode.CodeNumber | app/api/auth/send-verification-code/route.ts:32 | the code number lies in [100000, 999999] |
| SendCode.CodeText | app/api/auth/send-verification-code/route.ts:32 | the code text is six digits that parse back to the number |
| SendCode.Post | app/api/auth/send-verification-code/route.ts:4-86 | the reply and the new code table are those of the issuing function |
| SendCode.RefusalsChangeNothing | app/api/auth/send-verification-code/route.ts:8-29 | a missing email or password, or an existing user, gives 400 and no new row |
| SendCode.IssueAppendsOneRow | app/api/auth/send-verification-code/route.ts:48-66 | success iff both fields are given, the email is not listed, the key is accepted and the insert succeeds; then exactly one row is appended, with the email, a six-digit code, `used = false`, expiry now + 10 minutes and a blob that decrypts to the password; earlier rows are untouched; any failure adds no row |
| VerifyCode.Newest | app/api/auth/verify-code/route.ts:21-30 | the chosen row is eligible (email and code match, unused, unexpired) and the newest such row; none only when no row is eligible |
| VerifyCode.Post | app/api/auth/verify-code/route.ts:4-110 | the reply and the new store are those of the redeeming function |
| VerifyCodeFacts.DeadRowNeverChosen | app/api/auth/verify-code/route.ts:26-27 | a used or expired row is never redeemed |
| VerifyCodeFacts.NoLiveRowRefused | app/api/auth/verify-code/route.ts:32-37 | without an eligible row: 400 "Invalid or expired verification code", nothing changes |
| VerifyCodeFacts.FailureChangesNothing | app/api/auth/verify-code/route.ts:69-94 | a failed account or profile creation leaves the accounts, profiles and codes as they were (the account is rolled back) |
| VerifyCodeFacts.SuccessShape | app/api/auth/verify-code/route.ts:63-102 | success adds one confirmed account and one free profile, and marks only the chosen row used |
| VerifyCodeFacts.SecondRedemptionFails | app/api/auth/verify-code/route.ts:97-102 | after a success a second redemption for that email fails |
| VerifyCodeFacts.SignUpRoundTrip | app/api/auth/verify-code/route.ts:39-67 | with one key derivation, sending a code and redeeming it in time creates the account with the sign-up password |
| VerifyCodeFacts.SignUpFailsAsWritten | app/api/auth/verify-code/route.ts:51-54 | as written, without ENCRYPTION_KEY an accepted sign-up always fails at redemption and creates no account |
| Cipher.HexBytes | app/api/auth/send-verification-code/route.ts:41 | `Buffer.from(s, 'hex')` gives at most half as many bytes as characters |
| Cipher.DecryptEncrypt | app/api/auth/send-verification-code/route.ts:43-46 | encryption succeeds iff the key is accepted; decrypting with the same key gives back the plaintext |
| Cipher.HexBytesPrefix | app/api/auth/send-verification-code/route.ts:41 | decoding the first 2k characters gives the first k bytes |
| Cipher.KeysAgreeWithEncryptionKey | app/api/auth/verify-code/route.ts:45-47 | with ENCRYPTION_KEY set, both routes derive the same key |
| Cipher.KeysDisagreeWithoutEncryptionKey | app/api/auth/verify-code/route.ts:51-54 | without it, a valid hex service key seals with one key and redemption opens with another: decryption fails |
| Cipher.JwtServiceKeyBlocksIssue | app/api/auth/send-verification-code/route.ts:40-43 | a service key starting `ey` (a JWT) gives an empty key, so issuing throws |
| Cipher.CipherKeyRoundTrip | app/api/auth/verify-code/route.ts:51-54 | the single derivation opens what it seals, and is always accepted when ENCRYPTION_KEY is unset |
| PaymentIntent.StoredCustomer | app/api/create-payment-intent/route.ts:21-29 | a stored customer id is reused iff the profile has a non-empty one |
| PaymentIntent.Post | app/api/create-payment-intent/route.ts:9-69 | no user: 401 and nothing created; a stored customer is reused with no customer created; otherwise one customer is created and persisted; the intent carries amount, `usd`, customer and `{user, plan}` metadata, with no tier check |
| DisconnectGithub.Unlinked | app/api/disconnect/github/route.ts:14-21 | the three GitHub link fields are cleared; every other profile field is kept |
| DisconnectGithub.Post | app/api/disconnect/github/route.ts:4-44 | no user: 401, no change; update error: 500, no commits deleted; otherwise success, and the user's commits are deleted unless that deletion fails |
| DisconnectGithub.DeletionRemovesAllOfUser | app/api/disconnect/github/route.ts:29-32 | no commit row of the user is left, with no date filter; other users' rows stay |
| DisconnectSpotify.Unlinked | app/api/disconnect/spotify/route.ts:14-21 | the Spotify flag and both tokens are cleared; every other field is kept |
| DisconnectSpotify.Post | app/api/disconnect/spotify/route.ts:4-34 | no user: 401; update error: 500; otherwise the profile is unlinked; listening rows are never touched |
| WorkSession.Round | app/api/save-work-session/route.ts:35 | `Math.round` gives the integer within a half below or at it |
| WorkSession.RoundFacts | app/api/save-work-session/route.ts:35 | whole numbers are unchanged and halves round up |
| WorkSession.Post | app/api/save-work-session/route.ts:7-56 | no user: 401; a missing start or end, or an undefined duration: 400 and no insert (0 is accepted); otherwise one row with the user, the start's day and the rounded duration, or 500 on an insert error |
| SpotifyCallback.Linked | app/integrations/spotify/callback/route.ts:56-63 | the profile is connected and stores the given tokens; everything else is kept |
| SpotifyCallback.Gate | app/integrations/spotify/callback/route.ts:8-31 | gates in order: code, user, then tier; pricing iff the user's profile is free; connected iff the token exchange succeeds past the gates |
| SpotifyCallback.Get | app/integrations/spotify/callback/route.ts:4-70 | the redirect is the gate's; the profile changes only on `connected`, and then it is linked |
| SpotifyCallback.MissingProfileNotRejected | app/integrations/spotify/callback/route.ts:27-31 | a user without a profile row passes the tier gate |
| GithubSync.ClassificationMeaning | app/api/sync/github/route.ts:143-146 | squash iff the lower-cased message contains `squash` or `fixup`; merge iff the message starts with `Merge`; bot iff the login ends with `[bot]` |
| GithubSync.FetchCommits | app/api/sync/github/route.ts:85-122 | the page loop returns exactly the pages' collection |
| GithubSync.PagingStops | app/api/sync/github/route.ts:100-118 | full pages then a non-OK, empty or short page: all earlier commits plus the last page's are kept, and the result is the same whatever pages would follow |
| GithubSync.GroupByDate | app/api/sync/github/route.ts:134-161 | the grouping loop builds the grouping function's buckets |
| GithubSync.BucketsSummarize | app/api/sync/github/route.ts:134-174 | grouping succeeds iff every date parses; then one bucket per day with in-window commits, holding that day's count and the OR of its flags, with counts adding up to the in-window total |
| GithubSync.StepSummarizes | app/api/sync/github/route.ts:148-160 | one more commit keeps the buckets a summary of the commits seen |
| GithubSync.RowsOf | app/api/sync/github/route.ts:164-174 | one row per bucket, with the user, the repository name, and the bucket's date, count and flags |
| GithubSync.Post | app/api/sync/github/route.ts:26-215 | no user: 401; no token: 400 before any fetch; a failed repository list: 500 with nothing deleted; otherwise the user's rows from the start day are deleted and the collected rows upserted, replying with their number; a failed upsert replies 500 after the delete |
| GithubSyncFacts.OutOfWindowIgnored | app/api/sync/github/route.ts:139-141 | a commit dated outside the window changes no bucket |
| GithubSyncFacts.SyncRowsAppend | app/api/sync/github/route.ts:82-182 | the rows of a list of repositories are the rows of each part, in order |
| GithubSyncFacts.FailingRepoSkipped | app/api/sync/github/route.ts:178-181 | a repository whose fetch throws adds nothing, and the others contribute as before |
| GithubSyncFacts.CountedDayInWindow | app/api/sync/github/route.ts:139-141 | a day with a counted commit lies between the window's first and last day |
| GithubSyncFacts.RepoRowsShape | app/api/sync/github/route.ts:164-174 | one repository's rows are the user's, in the window, of that repository, with distinct keys |
| GithubSyncFacts.SyncRowsShape | app/api/sync/github/route.ts:82-182 | all rows are the user's, in the window, from a listed repository; distinct repository names give distinct keys |
| GithubSyncFacts.UpsertAllFresh | app/api/sync/github/route.ts:193-197 | upserting rows whose keys are new appends them |
| GithubSyncFacts.DistinctNamesReplace | app/api/sync/github/route.ts:185-197 | with distinct repository names the table's result is the rows kept by the delete followed by the new rows |
| GithubSyncFacts.SameNameReposCollide | app/api/sync/github/route.ts:169 | two repositories of the same name and a shared commit day make the batch hit one key twice, so the upsert fails |
| SpotifySync.ArtistOf | app/api/sync/spotify/route.ts:176 | the first artist's name, or `Unknown Artist` when it is missing or empty; never empty |
| SpotifySync.ScanPage | app/api/sync/spotify/route.ts:161-183 | the track loop gives the scanning function's rows and flags |
| SpotifySync.Acquire | app/api/sync/spotify/route.ts:43-46 | the stored token when the probe succeeds, else the refresh's result |
| SpotifySync.ObtainToken | app/api/sync/spotify/route.ts:42-61 | the profile token is written only when the obtained token differs from the stored one |
| SpotifySync.FetchSessions | app/api/sync/spotify/route.ts:78-192 | the `while (hasMore)` loop collects the run's rows and persists the last refreshed token |
| SpotifySync.Post | app/api/sync/spotify/route.ts:17-223 | no user: 401; missing tokens: 400; token failure: 401, nothing changed; otherwise the last obtained token is stored, the user's rows from the start day are deleted and the collected rows inserted, replying with their number; a failed insert replies 500 after the delete |
| SpotifySyncFacts.ScanIsFilter | app/api/sync/spotify/route.ts:161-183 | on dated tracks the scan keeps exactly the in-window tracks in order, and clears `hasMore` iff one is older than the window |
| SpotifySyncFacts.BadDateKeepsEarlierRows | app/api/sync/spotify/route.ts:188-191 | an unparsable date ends the scan, keeping the rows of the earlier tracks |
| SpotifySyncFacts.NormalPathOnePage | app/api/sync/spotify/route.ts:185-187 | a non-401 response ends the loop: nothing after it is requested |
| SpotifySyncFacts.OnlyRetryContinues | app/api/sync/spotify/route.ts:140-144 | the loop continues only after a refreshed retry of a full page with no older or undated track |
| SpotifySyncFacts.RunRowsInWindow | app/api/sync/spotify/route.ts:116-183 | every collected row is the user's, played inside the window, and names an artist |
| DashboardPage.TallyMeaning | app/dashboard/page.tsx:62-70 | one entry per played artist, each once, with play time the sum of its durations and count its number of plays |
| DashboardPage.AggregateArtists | app/dashboard/page.tsx:62-70 | the `forEach` filling `artistMap` gives the tally |
| DashboardPage.SortPermutes | app/dashboard/page.tsx:78 | sorting is a permutation into non-increasing play time |
| DashboardPage.SortDistinct | app/dashboard/page.tsx:78 | sorting keeps the names distinct |
| DashboardPage.Ranked | app/dashboard/page.tsx:79-83 | at most ten entries, the first ones of the sorted list, ranked 1..n in order |
| DashboardPage.TopArtistsMeaning | app/dashboard/page.tsx:61-83 | at most ten artists, each played, each once, with its totals, in non-increasing play time, ranked 1..n |
| DashboardPage.TopArtistsNonEmpty | app/dashboard/page.tsx:61-83 | some session gives some ranked artist |
| DashboardPage.TopArtistsCut | app/dashboard/page.tsx:78-79 | an unlisted played artist has no more play time than any listed one; fewer than ten listed means every artist is listed |
| DashboardPage.Load | app/dashboard/page.tsx:5-97 | no user: login redirect; commits only when connected; Spotify sessions and artists only when paid; a failed query gives an empty list; artists only for non-empty sessions |
| DashboardPage.LoadedRowsAreOwn | app/dashboard/page.tsx:28-56 | each query returns exactly the user's rows from the start day |
| DashboardClient.LastSyncedBands | app/dashboard/dashboard-client.tsx:87-103 | a null or empty timestamp gives the never-synced text and an unparsable one `NaNd ago`; otherwise `Just now` under a minute, then `Nm ago`, `Nh ago`, `Nd ago`, each with the floored count |
| DashboardClient.IndexOfDate | app/dashboard/dashboard-client.tsx:129 | `find` returns the first entry with that date, or none |
| DashboardClient.AccumulateTotals | app/dashboard/dashboard-client.tsx:128-136 | the reduce gives one point per date that occurs, holding that date's total |
| DashboardClient.Reduce | app/dashboard/dashboard-client.tsx:128-136 | the accumulator loop gives the reduce's result |
| DashboardClient.CommitPoints | app/dashboard/dashboard-client.tsx:122-127 | per day, the points of the kept rows add up to the kept commit count |
| DashboardClient.GithubData | app/dashboard/dashboard-client.tsx:120-137 | unique dates, each valued at the sum of `commit_count` over that day's kept rows |
| DashboardClient.UnitMinutes | app/dashboard/dashboard-client.tsx:142 | 15 iff `15min`, 30 iff `30min`, otherwise 60 |
| DashboardClient.UnitMs | app/dashboard/dashboard-client.tsx:190 | the same unit in milliseconds |
| DashboardClient.SpotifyPoints | app/dashboard/dashboard-client.tsx:195 | each session becomes its duration in units, on its day |
| DashboardClient.SpotifyData | app/dashboard/dashboard-client.tsx:188-203 | the reduce of the session points |
| DashboardClient.MinutePoints | app/dashboard/dashboard-client.tsx:154-161 | each session becomes its minutes on its day |
| DashboardClient.Scaled | app/dashboard/dashboard-client.tsx:165-168 | each day's minutes divided by the unit, in order |
| DashboardClient.WorkData | app/dashboard/dashboard-client.tsx:140-184 | the work series is the today rule over the scaled per-day sums |
| DashboardClient.ScaledKeepsDays | app/dashboard/dashboard-client.tsx:165-168 | scaling keeps the set of days and their uniqueness |
| DashboardClient.WithTodayFacts | app/dashboard/dashboard-client.tsx:171-177 | today's entry takes the stored blocks; it is appended only when absent and positive; other entries are unchanged |
| DashboardClient.WorkDataMeaning | app/dashboard/dashboard-client.tsx:152-177 | unique days; each other day is valued at its minutes over the unit; today holds the stored blocks |
| DashboardClient.IsPaidProfile | app/dashboard/dashboard-client.tsx:205 | paid iff the profile exists with tier monthly or lifetime |
| GrassGraph.DaysMeaning | components/grass-graph.tsx:27-30 | thirty consecutive days, oldest first, ending today |
| GrassGraph.ValueForDay | components/grass-graph.tsx:32-35 | the value of the first entry of that day, or 0 |
| GrassGraph.GetBlocks | components/grass-graph.tsx:37-41 | blocks are min(value, 10); overflow is value - 10 when above 10, else 0; for value >= 0 they add up to the value |
| GrassGraph.BlockRules | components/grass-graph.tsx:72-73 | block i is active iff i < value, and active blocks form a prefix; the shimmer is only on block 9, and only on overflow |
| GrassGraph.ColumnsMeaning | components/grass-graph.tsx:58-116 | one column per day, in order, with its value; each block's active and shimmer flags follow the block rules for that value; a tooltip iff the day is hovered and its value is positive, so on at most one column |
| GrassGraph.CommitGraphValue | components/grass-graph.tsx:32-35 | a commit column shows that day's kept commit count |
| GrassGraph.WorkGraphValue | components/grass-graph.tsx:32-35 | a work column shows the day's minutes in units, and today shows the stored blocks |
| SpotifyArtists.SplitPlayTime | components/spotify-artists.tsx:18-20 | hours are floor(ms / 3600000) and minutes floor((ms mod 3600000) / 60000) < 60 (for ms >= 0) |
| SpotifyArtists.FormatPlayTimeReadsBack | components/spotify-artists.tsx:21 | the text `Hh Mm` reads back to the hours and minutes |
| SpotifyArtists.Render | components/spotify-artists.tsx:27-63 | not paid: upgrade card, checked before the empty list; empty: no-data card; otherwise one entry per artist, highlighted iff rank <= 3 |
| SpotifyArtists.RankingHighlights | components/spotify-artists.tsx:63-86 | over ranks 1..n the highlighted entries are exactly the first three, each with its own badge |
| SpotifyArtists.RankingHighlightsTopThree | components/spotify-artists.tsx:62-86 | the page's ranking of non-empty plays highlights exactly its first three entries, with distinct badges |
| FocusTimer.Decompose | components/focus-timer.tsx:9-12 | minutes and seconds < 60, and hours*3600 + minutes*60 + seconds = floor(ms / 1000) |
| FocusTimer.FormatDurationReadsBack | components/focus-timer.tsx:14-17 | `H:MM:SS` when hours > 0, else `M:SS`; the seconds field has two digits; every field reads back to its value |
| FocusTimer.TimerDisplay.Effect | components/focus-timer.tsx:36-51 | active: a ticking interval from start and pauses; paused: frozen at pause-start - start - paused; idle: 0; otherwise unchanged |
| FocusTimer.TimerDisplay.Tick | components/focus-timer.tsx:38-41 | a tick shows now - start - paused |
| FocusTimer.TotalTodayLine | components/focus-timer.tsx:154-158 | the line is shown iff the total is > 0, with `{duration}` replaced at its first occurrence |
| FocusStore.Store.constructor | lib/store/use-focus-store.ts:17-21 | not focusing, no start, zero total, activity now |
| FocusStore.Store.StartFocus | lib/store/use-focus-store.ts:23-29 | focusing, with start and last activity now; the total is unchanged |
| FocusStore.Store.StopFocus | lib/store/use-focus-store.ts:31-41 | with a start the elapsed time is credited and focus cleared; without one, nothing changes; the total never drops |
| FocusStore.Store.UpdateActivity | lib/store/use-focus-store.ts:43-61 | idle for more than 5 minutes: stop and credit only up to the last activity; otherwise record the activity; not focusing: nothing changes; the total never drops |
| FocusStore.Store.ResetDailyFocus | lib/store/use-focus-store.ts:63-65 | the total becomes 0; the other fields are unchanged |
| SettingsStore.Settings.constructor | lib/store/use-settings-store.ts:30-40 | squash on, merge and bot off, the three default colours, all graphs shown |
| SettingsStore.Settings.SetGitHubSetting | lib/store/use-settings-store.ts:42-43 | only that key changes; setting the current value changes nothing |
| SettingsStore.Settings.SetGrassColor | lib/store/use-settings-store.ts:45-46 | only that key changes; setting the current value changes nothing |
| SettingsStore.Settings.SetDisplaySetting | lib/store/use-settings-store.ts:48-49 | only that key changes; repeating the call is idempotent |
| I18n.ParseLocale | lib/i18n.tsx:301-302 | a stored locale is adopted iff it is `en` or `ja` |
| I18n.CodeRoundTrip | lib/i18n.tsx:307-310 | a locale saved by `setLocale` reads back as itself |
| I18n.Provider.constructor | lib/i18n.tsx:297 | the locale starts as `en` |
| I18n.Provider.LoadSaved | lib/i18n.tsx:299-305 | a saved `en` or `ja` is adopted; anything else keeps the locale |
| I18n.Provider.SetLocale | lib/i18n.tsx:307-310 | sets the locale and persists the same value under `locale` |
| I18n.Provider.T | lib/i18n.tsx:312-319 | the loop's result is what the walk of the split key over the locale's table gives, or the key itself |
| I18n.TMeaning | lib/i18n.tsx:312-319 | a missing segment, or a leaf reached before the last segment, gives the key itself; a non-empty leaf at the end gives its text |
| I18n.UseI18n | lib/i18n.tsx:328-334 | outside the provider it throws with the source's message; inside it gives the context |
| VerifyPage.Sanitize | app/auth/verify/page.tsx:137 | all digits, at most six, and a prefix of the input's digits |
| VerifyPage.SanitizeIdempotent | app/auth/verify/page.tsx:137 | sanitising twice equals sanitising once |
| VerifyPage.SubmitAfterTyping | app/auth/verify/page.tsx:157 | submit is enabled iff not loading and at least six digits were typed |
| VerifyPage.ResentIsSuccess | app/auth/verify/page.tsx:103 | the resend confirmation is styled as success |
| VerifyPage.Page.constructor | app/auth/verify/page.tsx:18-32 | the email is the URL parameter and is saved; without one it is the stored email, or empty |
| VerifyPage.Page.OnCodeChange | app/auth/verify/page.tsx:137 | the code becomes the sanitised input; nothing else changes |
| VerifyPage.Page.HandleVerify | app/auth/verify/page.tsx:34-71 | an empty email gives "Email is required" and no request; success removes both pending keys; errors show the server's message or a fallback |
| VerifyPage.Page.HandleResend | app/auth/verify/page.tsx:73-113 | an empty email or no stored password sends no request ("Please sign up again"); otherwise the reply's message; loading always ends |
| Browser.Storage.SetItem | app/auth/verify/page.tsx:24 | the key maps to the value; other keys are unchanged |
| JsNumber.Rem | components/focus-timer.tsx:11-12 | JavaScript `%`: the dividend is the divisor times the quotient truncated toward zero plus the remainder, which takes the dividend's sign and is smaller than the divisor in magnitude |

## Left out

- Message tables: the English and Japanese strings of `lib/i18n.tsx` are a parameter of `I18n.Provider`; they are not transcribed.
- I18n.Provider.T: JavaScript property lookup on a string value (`length`, indices, prototype members) is treated as a missing segment. So is a segment that names an `Object.prototype` member on a table (`t('toString')` returns a function in the source, not the key).
- Query ordering (`.order(...)`) is not modelled. Rows come back in table order.
- Text.Lower: lower-cases ASCII letters only, where JavaScript's `toLowerCase` folds all of Unicode. No other character lower-cases into a letter of `squash` or `fixup`, so commit classification is the same.
- The GitHub page list and the Spotify response list are finite. A request past the end of the list reads as a non-OK response (GitHub) or a failed fetch (Spotify), so the model says nothing about a remote that never stops returning full pages.
- The focus timer reads `state`, `pauseFocus` and `resumeFocus`, which the focus store does not define. `FocusTimer` models the timer as written on its own inputs and is not connected to `FocusStore`.
- FocusStore.Store.StopFocus: the total is proved never to drop only for a clock that has not gone back. `Date.now()` is a parameter, so monotonicity is a hypothesis.
- FocusStore.Store.UpdateActivity: the timestamp invariant is kept only for a clock that has not gone back, for the same reason.
- SettingsStore.Settings.SetGitHubSetting: the key is an enumeration of the group's own keys. The source types it as any string, but every call site passes one of these keys.
- The stores' persistence (the zustand `persist` middleware) is not modelled.
- The settings store has no `workHoursBlockUnit` or `spotifyBlockUnit`, so the dashboard reads `undefined`. `DashboardClient.UnitMinutes` therefore takes an optional string.
- DashboardPage.SortByPlayTime: the sort is stable, as `Array.prototype.sort` is, but the order of equal play times is not stated as a property.
- VerifyPage.Page.constructor: the `useState` initializer is a function, which React calls once when the component mounts; the constructor runs once in the same way. The second call React makes in development StrictMode is not modelled.
- Rendering, styling and animation are not modelled: progress-bar widths, tooltip text and date-fns formatting, the "+N more" overflow label, colour classes.
- The dashboard's manual sync button and the URL-parameter reload effect are not modelled.
- The lifetime downgrade through `customer.subscription.updated` is kept as written (`StripeWebhook.UpdateDowngradesLifetime`). It is not corrected.
- Nothing writes `github_last_synced_at`; the GitHub sync route does not set it either.
- `listUsers` is modelled as returning one list of emails. Supabase pages this list, so users beyond the first page are not seen, as in the source.
- Spotify's `after` cursor: the source sends `after=<time of the last kept track>` on every request that follows a continued retry. The model does not build the URL; the response list `rs` of `SpotifySync.FetchSessions` stands for whatever those requests return. Because `after` asks for plays newer than that time, a continued loop can collect the same plays twice; an arbitrary response list allows this, and no property claims the rows are free of duplicates.
- GithubSync.Post: the 500 texts drop the appended detail (`Failed to fetch repositories: ...`, `Failed to insert commits: ...`), since those messages come from GitHub and PostgreSQL.
- SpotifySync.Post: the 500 text of a failed insert drops the PostgreSQL detail in the same way.
- Supabase filters are oracles. Writes whose error the source ignores are modelled as succeeding. `deleteUser` in the rollback always succeeds.
- GithubSync.Post: two repositories with the same name and a shared commit day make the upsert fail, as PostgreSQL would reject the batch (`GithubSyncFacts.SameNameReposCollide`).
- AES-256-CBC and SHA-256 are opaque. Only the key derivation from the environment is modelled; a blob remembers the key that sealed it.
- Stripe signature checking, `subscriptions.retrieve`, the GitHub and Spotify HTTP calls, `lib/spotify.ts` and all I/O are parameters of the methods.
- The rate-limit delays (`setTimeout`) and the development-mode log of the code are not modelled.
- `Math.random` is a parameter in [0, 1).
- Dates are integer milliseconds. The start of the 50-day window (local-time `setDate`) is a parameter.
- Floating-point rounding is not modelled. Block values are Dafny `real`s, and durations and amounts are integers.

## Findings

| source | as written | input that shows it | evidently intended | confidence | as-written member | corrected member |
|---|---|---|---|---|---|---|
| app/api/auth/verify-code/route.ts:51-54 | without ENCRYPTION_KEY the issuing route uses the hex of the service-role key's first 64 characters, but the redeeming route uses its SHA-256 | ENCRYPTION_KEY unset and a service-role key of 64 `0` characters: the password sealed at issue fails to decrypt at redemption, so every sign-up returns 500 | both routes derive the key the same way, so a sealed password opens | not executed | VerifyCodeFacts.SignUpFailsAsWritten | VerifyCodeFacts.SignUpRoundTrip |
| app/api/auth/send-verification-code/route.ts:40-43 | the service-role key is decoded as hex; a Supabase service-role key is a JWT (`eyJ...`), which is not hex, so the key is empty | ENCRYPTION_KEY unset and a service-role key starting `ey`: `createCipheriv` throws and every code request returns 500 | a 32-byte key derived from the secret, such as its SHA-256 | not executed | Cipher.JwtServiceKeyBlocksIssue | Cipher.CipherKeyRoundTrip |
