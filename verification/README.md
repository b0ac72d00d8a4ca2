# Verified model of the expense bot

A Dafny model of a Telegram expense bot: users keep expences in named categories, in a currency of their
choice and under a monthly limit, and ask for reports by day, month or year. The model follows the Go code
branch by branch and proves what its storage, its report cache, its report route and its arithmetic promise
over every run. `dafny verify dfyconfig.toml` checks it.

## What is modelled

**The ledger.** `Postgres` holds the four tables as fields, and the repositories (`UsersDB`, `CategoriesDB`,
`CurrenciesDB`, `ExpencesDB`) change them in place. Each method is proved against the meaning of its statement in
`Tables`: generated ids that are not given back, the unique pair of user and category name, both cascades, column
defaults, and the transaction that debits the limit and inserts the row. The storage operations are an alphabet of
steps (`Steps`). `Refinement` shows that every step on the tables is the same step on a map from users to simple
ledgers (`Ledgers`): currency, two limits, and a list of expences per category name. Isolation, conservation and the
rounding bounds are proved on ledgers and carried over to the tables.

**Accounts.** `Journals` keeps, beside a run, the expences that were accepted for each user and the point at which
the current limit period starts. The limit columns, the stored lists and the reports are measured against it.

**The report cache.** Keys are strings, the user's decimal digits directly followed by the cut-off's; values are
decimal texts. `ReportCache` is the machine made of tables and cache, with expiry at any time. Adding an expence and
changing the currency delete the user's keys by prefix; resetting a user and updating rates do not. `LateReports`
takes a report apart into its reads, its reply and its cache write, with background services in between.

**Whole runs in small steps.** `Interleaving` lets refills, rate updates and expiries fall between any two calls of any
command (reads, reply, statement, invalidation) and finds the serial run of the same commands.

**The report route.** `Pipeline` is a step system of bot, producer, topic with two partitions, consumer claims and gRPC
handlers, connected by unbuffered channels. The producer may still wait for an acknowledgement, and claims may still have
to mark their message, when the next request starts.

**The transaction.** `Transaction` runs the statements of `AddExpence` against the monthly refill row by row, with row
locks, failing statements and rate updates in between.

**Arithmetic.** Amounts are parsed and printed in hundredths (`Money`), conversions truncate (`Conversion`). Bounds are
in exact reals. `Binary64` is the round trip of amounts with both operations rounded to nearest, ties to even
(section 4.3.1 of IEEE 754-2019), and the round trip of conversions under any rounding within 2^-53.

**Commands.** `Commands` and `Messages` are the handlers, with their argument checks and answers; `CommandLaws` says what
each command does to the ledgers and the cache and what the user is told; `Sessions` are
everything that reaches the bot over time, and `SessionReports` what users are told there.

## What turned out not to hold

- The cache key does not identify user and cut-off. It does so exactly when no cut-off in use ends in the digits of
  another (`ReportKey.InjectiveIffSuffixFree`), and the cached program equals the cacheless one on all steady runs
  exactly then (`CacheTransparency.TransparentIffSuffixFree`). A run is steady when no user with a live entry is reset or
  has their own rate changed; the next two points are about the others. In a zone with offset zero the all-time
  cut-off 0 clashes with every midnight (`ReportKey.AllTimeClashesWithMidnights`), and one user is served another's
  report.
- Resetting a user does not clear the cache. A report after a reset is right exactly when no entry for it was live
  (`CacheTransparency.ResetReportIff`).
- Updating rates does not clear the cache. A report after an update is right exactly when no entry for it was live, or
  none of the user's expences in it shows the difference between the old and the new rate
  (`CacheTransparency.UpdateReportIff`, and over any number of updates `CacheTransparency.AnswerRightIff`).
- Amounts of 1 to 9 hundredths print as tenths. Printing and parsing give the amount back exactly for 0 and from 10 on
  (`Money.PrintParseExactIff`). In binary floating point some amounts come back one hundredth short, 0.29 for one
  (`Binary64.TwentyNineComesBackShort`). Double the amount until its hundredth part has 53 bits: it comes back short
  exactly when the result is below 2^59 and its last two decimal digits are strictly between 32 and 50
  (`Binary64.RoundTripIff`).
- The schema does not make an expence's category belong to the expence's user
  (`Tables.SchemaAllowsForeignCategory`); the storage operations do (`Tables.ReachableOwned`).
- Rates are stored by id but fetched by code, and a conflicting row keeps its old code. Rows carry the rates of their own
  codes exactly when the configured order agrees with the rows already there (`ExchangeRates.OwnRatesIffSameCodes`).

## Model

| member | source | states |
|---|---|---|
| ReportKey.InjectiveIffSuffixFree | internal/database/cache_report.go:25 | over any set of cut-offs and all positive user ids, equal keys mean equal user and cut-off if and only if no cut-off's digits end in another's |
| ReportKey.SuffixFreeSeparates | internal/database/cache_report.go:51 | with such cut-offs two equal keys come from one user and one cut-off |
| ReportKey.ClashCollides | internal/database/cache_report.go:25 | for any two clashing cut-offs there are two different users who meet under one key |
| ReportKey.SameWidthIsSuffixFree | internal/helpers/datetime_helpers.go:12-25 | cut-offs whose non-negative members have one digit count never clash; negative ones never do |
| ReportKey.AllTimeClashesWithMidnights | internal/model/messages/incoming_msg.go:248-259 | cut-off 0, the all-time one at offset zero, clashes with every positive multiple of a day |
| ReportKey.ClashIsCongruence | internal/database/cache_report.go:25 | a smaller cut-off clashes with a larger one if and only if it is the larger one modulo the power of ten of its own width |
| ReportKey.DeletionReach | internal/database/cache_report.go:69-79 | exactly which keys of another user a deletion by prefix removes |
| Decimal.ParseFormat | internal/database/cache_report.go:36-44 | parsing the decimal text of any integer gives the integer back |
| Decimal.ParseIntIff | internal/database/cache_report.go:36-44 | a text is read as an integer if and only if it is an optional sign and digits that spell it |
| Money.TypedWhole | internal/helpers/money_helpers.go:16-26 | digits alone are whole units: one hundred times the number they spell |
| Money.TypedDecimal | internal/helpers/money_helpers.go:16-26 | digits around one dot are units and hundredths, cut off after the second decimal; either part may be missing |
| Money.AcceptedIff | internal/helpers/money_helpers.go:16-22 | a text is accepted as an amount if and only if it holds a digit and at most one dot |
| Money.PrintedText | internal/helpers/money_helpers.go:29-36 | what is printed is the units, a point and two digits, but one digit below ten hundredths |
| Money.PrintParse | internal/helpers/money_helpers.go:16-36 | a printed non-negative amount parses to itself, or to ten times itself below ten hundredths |
| Money.PrintParseExactIff | internal/helpers/money_helpers.go:16-36 | over all integers the round trip is exact if and only if the amount is 0 or at least 10 |
| Money.SeparatorsIgnored | internal/helpers/money_helpers.go:12-21 | characters other than digits and dots may be put in or left out anywhere without changing what is parsed |
| Money.AmountsNonNegative | internal/helpers/money_helpers.go:13-26 | no accepted amount is negative |
| Money.PrintedValue | internal/helpers/money_helpers.go:29-36 | the decimal value of a printed amount is its hundredth part, or its tenth part below ten hundredths |
| Binary64.PrintParseRounded | internal/helpers/money_helpers.go:16-26 | with the parse of the printed text and the product each rounded to within 2^-53, amounts from 10 below 2^51 come back exact or one short |
| Binary64.NearestIsRounded | internal/helpers/money_helpers.go:16 | rounding to nearest is such a rounding |
| Binary64.RoundTripIff | internal/helpers/money_helpers.go:16-36 | with both rounded to nearest, ties to even, an amount from 10 below 2^51 comes back one short if and only if its widened form (doubled until the hundredth part has 53 bits) is below 2^59 and ends in two digits strictly between 32 and 50; otherwise it comes back exact |
| Binary64.RoundTripRuns | internal/helpers/money_helpers.go:16-26 | both roundings have a result for every such amount |
| Binary64.QuartersComeBack | internal/helpers/money_helpers.go:16-36 | whole amounts, halves and quarters are never short |
| Binary64.TwentyNineComesBackShort | internal/helpers/money_helpers.go:16-36 | 29 prints as 0.29 and is read as 28 |
| Conversion.ToBaseBracket | internal/storage/storage.go:196 | a stored total is the number of whole base units in the entered amount |
| Conversion.TruncTowardZero | internal/storage/storage.go:196 | conversion to an integer keeps the whole part, on both sides of zero |
| Conversion.ConversionError | internal/storage/storage.go:259-262 | entering and showing at one rate loses less than one unit plus the rate, and never gains |
| Binary64.ConversionErrorRounded | internal/storage/storage.go:196 | with quotient and product each rounded to within 2^-53, amounts below 2^51 are still never shown larger than they were entered, and lose less than the rate and two units |
| Conversion.DifferentRatesShow | internal/storage/storage.go:260 | any two different rates show some stored total differently |
| Steps.UpdateWritesEach | internal/database/currencies.go:57-76 | an update writes every fetched rate, adds missing rows with their codes and touches no other; an empty or repeating one fails and changes nothing |
| Steps.RatesAfterKeeps | internal/database/currencies.go:57-76 | an update of rates removes no currency and changes no code |
| Tables.ApplyKeepsInvariants | internal/storage/storage.go:94-211 | every storage step keeps foreign keys, uniqueness, id bounds, and that an expence's category belongs to its user |
| Tables.ReachableOwned | internal/storage/storage.go:171-197 | the same in every reachable state |
| Tables.SchemaAllowsForeignCategory | migrations/20221012013259_init_expences.go:18-19 | the two foreign keys alone accept an expence filed under another user's category |
| Refinement.StepRefines | internal/storage/storage.go:94-211 | each step on the tables, seen as ledgers, is that step on the ledgers, with the same failure |
| Refinement.RunRefines | internal/model/userdata/userdata.go:5-8 | whole runs on the tables refine whole runs on the ledgers |
| Refinement.RefinesResetUser | migrations/20221012013259_init_expences.go:18-19 | the cascades of deleting one user leave every other user's lists as they were |
| Refinement.RefinesInsertExpence | internal/database/expences.go:46-70 | a new expence row extends exactly the list of its user under its category's name |
| Refinement.RateAlwaysFound | internal/storage/storage.go:180-190 | in every reachable state every user has a base currency with a rate |
| Isolation.RunAlone | internal/storage/storage.go:105-211 | erasing all other users' steps from a run leaves a user's ledger, recomputed reports and step outcomes as they were |
| Sessions.SessionIsolation | internal/model/messages/incoming_msg.go:92-119 | the same for commands: leaving everyone else's out of a session changes neither the ledger, nor recomputed reports, nor the answer to the user's next command other than a report |
| SessionReports.SessionIsEvents | internal/model/messages/incoming_msg.go:80-133 | every session is a run of the machine of tables and cache, so what is proved of such runs holds of sessions |
| SessionReports.ReportIsolation | internal/model/messages/incoming_msg.go:238-259 | with clash-free cut-offs, leaving everyone else's commands out of a session does not change the answer to a user's `/report`, if that user was neither reset nor had their rate changed while an entry of theirs was live |
| Journals.LimitConserved | internal/database/expences.go:34-44 | in every reachable state default minus current limit is the sum charged since the limit was last filled, 0 <= current <= default, and each stored list is the accepted expences in order |
| Journals.PostBalances | internal/database/expences.go:34-70 | posting an expence keeps a ledger in balance with its journal |
| Journals.ReachableReportMonotone | internal/database/expences.go:81-83 | in every reachable state an earlier cut-off drops no report line and lowers none |
| Sessions.SessionIsRun | internal/model/messages/incoming_msg.go:80-133 | every session is a run of storage steps in which no amount is negative |
| Sessions.SessionConservesLimit | internal/model/messages/incoming_msg.go:195-235 | conservation of the limit holds whatever users send |
| Sessions.PeriodsNest | internal/model/messages/incoming_msg.go:248-261 | in every session the recomputed report of the day is, line by line, within that of the month, of the year and of all time |
| Sessions.SessionAddressable | internal/model/messages/incoming_msg.go:162-172 | every category name stored in a session is non-empty and free of spaces |
| Sessions.StoredCategoryIsReachable | internal/model/messages/incoming_msg.go:199-226 | joined with a space-free amount and date, the name of any stored category leads `/add_expence` to that category of that user |
| Commands.JoinSplit | internal/model/messages/incoming_msg.go:165 | splitting loses nothing, and its tokens are free of spaces |
| Commands.SplitJoin | internal/model/messages/incoming_msg.go:202 | splitting a text joined from space-free tokens gives the tokens back |
| CommandLaws.FirstStart | internal/model/messages/incoming_msg.go:92-101 | an unknown sender gets the default currency, a limit of 1000000 and no categories, and nobody else is touched |
| CommandLaws.NoDefaultCurrency | internal/model/messages/incoming_msg.go:92-96 | while the default currency is missing an unknown sender stays unknown |
| CommandLaws.FirstCommand | internal/model/messages/incoming_msg.go:92-96 | a first command is `/start` followed by that command |
| CommandLaws.OnlyTalk | internal/model/messages/incoming_msg.go:100-118 | `/start` and unknown commands of a known user change nothing |
| CommandLaws.WrongFormat | internal/model/messages/incoming_msg.go:162-309 | a wrong number of arguments is told and changes nothing |
| CommandLaws.ResetErases | internal/model/messages/incoming_msg.go:147-155 | `/reset` removes the sender's ledger, no other, and clears no cache entry |
| CommandLaws.ResetLimitFills | internal/model/messages/incoming_msg.go:326-334 | `/reset_limit` makes the current limit the default one and changes nothing else |
| CommandLaws.SetLimitSets | internal/model/messages/incoming_msg.go:299-324 | `/set_limit` makes both limits the whole base units of what was typed, refuses less than one hundredth, and changes nothing else |
| CommandLaws.SetCurrencySets | internal/model/messages/incoming_msg.go:281-297 | `/set_currency` gives the sender a currency of that code and removes exactly the cache entries with the sender's digits in front, or changes nothing |
| CommandLaws.NewCategoryOpens | internal/model/messages/incoming_msg.go:158-173 | `/add_category` opens an empty list under that name, or says that there is one |
| CommandLaws.ExpenceTurnedDown | internal/model/messages/incoming_msg.go:199-224 | category, amount and date are checked in that order, and a wrong one changes nothing |
| CommandLaws.ExpenceFiled | internal/model/messages/incoming_msg.go:213-234 | an accepted `/add_expence` appends the whole base units to the list of that name, takes them off the limit if dated after the start of the month, and removes the sender's cache entries |
| CommandLaws.ReportShows | internal/model/messages/incoming_msg.go:237-279 | `/report` shows, line by line as money, the live entry for the start of the named period or else the report computed from there, says so if it is empty, and leaves the tables alone |
| Commands.RefusedIffOverLimit | internal/model/messages/incoming_msg.go:195-235 | a well-formed `/add_expence` for a known category is refused, changing nothing, if and only if it is dated strictly after the start of the month and exceeds the current limit |
| RoundingBounds.OverspendBound | internal/storage/storage.go:289-293 | in any period of a limit that was set to L at rate r, from one of its fillings on, if n expences were accepted and charged, all at rate r, they sum, in the user's currency, to less than L + n*r |
| RoundingBounds.ReportError | internal/storage/storage.go:259-262 | if the n accepted expences of a report line were entered at rate r, the line at r is above their typed sum minus n*(r+1), and not above it, whatever the rate was at other times |
| RoundingBounds.LineError | internal/storage/storage.go:196 | the same bound for any list of postings, by induction on it |
| Reports.AnswerFoldsToReport | internal/storage/storage.go:259-262 | in whatever order the query lists its rows, the loop computes the per-name sums of individually converted totals |
| Reports.FoldConservesTotal | internal/storage/storage.go:259-262 | the lines of the folded report add up to the converted rows |
| Reports.JoinFaithful | internal/database/expences.go:81-83 | the join drops no expence of the user, and lines by name are lines by category |
| Reports.ReportMonotone | internal/database/expences.go:82 | with non-negative totals a later cut-off gives fewer and smaller lines |
| Reports.SameReportIff | internal/storage/storage.go:259-262 | two rates give one report if and only if every single entry shows the same at both: differences never cancel |
| ReportCache.WrittenIsRead | internal/database/cache_report.go:47-63 | a report written where there was none is read back as it was, an empty one is not written, and no other key is touched |
| ReportCache.FieldsJoin | internal/database/cache_report.go:51-55 | fields written to an existing entry join the ones there and replace those of the same name |
| ReportCache.HitIff | internal/database/cache_report.go:28-44 | a lookup is a hit if and only if the entry has fields and all of them are integers, and gives those integers |
| ReportCache.DecodeEncode | internal/database/cache_report.go:36-44 | reading the cached texts gives back exactly the report that was written |
| ReportCache.CacheAgrees | internal/storage/storage.go:213-271 | over every run with clash-free cut-offs: a miss is the recomputed report, a hit on an entry filled since the last reset is the report of the present expences at the rate its fill read, and only entries that outlived a reset are left |
| ReportCache.ReportFrame | internal/storage/storage.go:199-208 | only an accepted expence or a reset changes a user's report at a given rate |
| CacheTransparency.TransparentIffSuffixFree | internal/storage/storage.go:213-271 | cached and cacheless answers agree on all steady runs if and only if the cut-offs are clash-free |
| CacheTransparency.ClashServesWrongReport | internal/database/cache_report.go:25 | for any clashing cut-offs tables that commands lead to and a run on them in which a user without expences is answered with another user's report |
| CacheTransparency.ResetReportIff | internal/storage/storage.go:105-114 | after a reset a report is the empty one it should be if and only if its key was not in the cache |
| CacheTransparency.SeededIsReachable | internal/storage/storage.go:94-211 | the starting states of the failing runs come about from empty tables by commands and updates |
| CacheTransparency.UpdateReportIff | internal/storage/storage.go:300-322 | after any update of rates in any reachable steady state, a user's report is right if and only if its key was not in the cache or none of the user's expences since the cut-off converts differently at the user's old and new rate |
| CacheTransparency.AnswerRightIff | internal/storage/storage.go:213-271 | over every run, for a user who was not reset, a report is right if and only if its key is not in the cache or none of those expences converts differently at the rate of the fill and the present rate |
| CacheTransparency.HarmlessIffSameRate | internal/storage/storage.go:300-322 | for any two different rates there is a steady run after which rewriting a currency from the one to the other leaves a cached report wrong; rewriting a rate to itself never does |
| LateReports.LateReport | internal/storage/storage.go:218-268 | refills, updates and expiries between the cache read, the rate read, the reply and the cache write leave a serial order: expiries, the whole report, background steps |
| Interleaving.RunIsSerial | internal/storage/storage.go:94-315 | however background events fall between the calls of the commands, there is a run of whole events, with the same commands in order and the same background events, that tells every command the same and ends in the same tables and cache |
| Interleaving.NeverStuck | internal/storage/storage.go:167-294 | a command that has begun can take its next step and needs at most four |
| Interleaving.CommandStarts | internal/model/messages/incoming_msg.go:98-119 | between commands any command can start |
| Interleaving.LateCommand | internal/storage/storage.go:167-294 | an expence or limit converted at a rate that was read before refills, updates and expiries is the whole command between them: expiries and refills, command, updates |
| Transaction.Serializable | internal/database/expences.go:28-72 | in every interleaving with row-wise refills, rate updates and failing statements the committed tables are those of whole operations run one after another, debit and row together or neither; the operations are the committed attempts as they were begun, the refills and the updates, in their order, and no attempt is posted twice |
| Transaction.AloneIsPost | internal/database/expences.go:28-72 | an acceptable attempt that nothing gets in the way of goes through and leaves debit and row |
| Transaction.RefillAlone | internal/database/users.go:111-117 | a refill that nothing gets in the way of, row by row, fills every limit |
| Transaction.RefusalIsSerial | internal/database/expences.go:36-44 | whenever the limit is found exceeded, or the user missing, the whole operation run after the committed ones fails in the same way |
| Transaction.CommitIsPost | internal/database/expences.go:36-70 | what a commit publishes is exactly the debit and the row of the atomic operation on the tables of that moment |
| Transaction.NeverStuck | internal/database/users.go:111-117 | bot and refill never wait for each other's locks in a circle |
| Transaction.LateBackground | internal/storage/storage.go:171-199 | refills and rate updates between the reads and the transaction leave a serial order: refills, the whole command, rates |
| ReportWire.RequestRoundTrip | cmd/report_generator/main.go:106-113 | the consumer decodes the request that the producer encoded |
| ReportWire.WireRoundTrip | internal/services/grpc_server/grpc_server.go:43-55 | expences of one user survive message and reconstruction unchanged |
| ReportWire.ReplyIsAnonymous | cmd/report_generator/main.go:135-158 | a reply's user id is 0, or -1 when empty, whoever asked |
| Pipeline.RepliesMatch | internal/storage/storage.go:241-253 | in every run the answered requests and then the pending one are those that were asked, in order, and each list the bot received answers its request on the tables of that moment |
| Pipeline.AskStarts | internal/storage/storage.go:241-244 | an idle bot may ask for any report, and that request is then under way |
| Pipeline.AtMostOneUnanswered | internal/clients/tg/tgclient.go:59-68 | in every reachable state one request is under way while the bot awaits a reply, and none otherwise |
| Pipeline.AnsweredWithinThirteen | internal/services/report_request_producer/report_request_producer.go:65-76 | from any reachable blocked state at most thirteen pipeline steps are possible, and they cannot end before the bot has its reply |
| Pipeline.StepDecreases | cmd/report_generator/main.go:190-204 | every pipeline step lowers the measure of remaining stages, acknowledgements and marks |
| Pipeline.NeverStuck | internal/services/grpc_server/grpc_server.go:57-62 | while the bot is blocked some pipeline step is possible |
| Pipeline.ReplyFoldsToReport | internal/storage/storage.go:259-262 | what the bot makes of a reply is the report of the user it asked about |
| ExchangeRates.RatesAreLatest | internal/services/exchange_rate_fetcher_service/exchange_rate_fetcher_service.go:121-128 | after any rounds each configured id has the rate last fetched for its code, or 1, and rows keep their codes |
| ExchangeRates.RatesAmongCommands | internal/storage/storage.go:300-322 | commands and refills in between change nothing about that |
| ExchangeRates.OwnRatesIffSameCodes | internal/database/currencies.go:66 | every configured row carries the rate of its own code if and only if the rows already there agree with the configuration |
| ExchangeRates.ExchangeFetcherService.FillAvailableCurrenciesWithUpdatedRates | internal/services/exchange_rate_fetcher_service/exchange_rate_fetcher_service.go:121-128 | the array afterwards is the old one with the rates of the fetched codes replaced |
| Refinement.SimulatesAddUser | internal/database/users.go:39-53 | inserting a row with the column defaults opens a fresh, empty ledger and leaves all others, with the same failures |
| Database.UsersDB.ResetUser | internal/database/users.go:55-71 | deletes the user with both cascades |
| Refinement.SimulatesLimits | internal/database/users.go:111-143 | setting and filling limits, of one user or of all, changes the limits of those ledgers and no list of expences |
| Journals.RefilledBalances | internal/database/users.go:111-143 | a limit that is set or filled starts a new period in which nothing is charged yet, and the ledger stays in balance |
| Refinement.SimulatesChangeCurrency | internal/database/users.go:73-88 | a new base currency changes that field of one ledger, and neither its limits nor its expences |
| Database.CategoriesDB.IsCategoryExists | internal/database/categories.go:20-41 | finds the one category of that owner and name, or none |
| Database.CategoriesDB.AddCategory | internal/database/categories.go:43-57 | inserts under a fresh id, or fails on the unique pair or a missing user |
| Database.CurrenciesDB.UpdateRates | internal/database/currencies.go:57-76 | inserts new currencies and rewrites the rates of old ones, or fails on an empty or repeating list |
| Database.ExpencesDB.AddExpence | internal/database/expences.go:24-73 | debits and inserts, or leaves all rows as they were |
| Database.ExpencesDB.GetUserExpences | internal/database/expences.go:75-113 | returns each selected row once, in some order, with only name and total filled in |
| RedisCache.ReportCacheDb.GetUserExpences | internal/database/cache_report.go:21-45 | returns the decoded entry, and nothing for a missing, empty or unreadable one |
| RedisCache.ReportCacheDb.DeleteUserReports | internal/database/cache_report.go:65-81 | removes the keys that start with the user's digits and no others |
| ReportService.Consumer.CreateMessage | cmd/report_generator/main.go:135-158 | builds the wire form of a list of expences |
| ReportService.Consumer.ProcessMessage | cmd/report_generator/main.go:104-129 | sends an answer to the decoded request, or nothing for an unreadable one |
| ReportService.GrpcReportServer.SendReport | internal/services/grpc_server/grpc_server.go:40-65 | rebuilds the list that goes to the bot |
| Storage.Storage.AddCategory | internal/storage/storage.go:152-165 | performs the step, and reports success exactly when it did not fail |
| Storage.Storage.AddExpence | internal/storage/storage.go:167-211 | performs the step, invalidating the cache exactly on success, and returns its failure |
| Storage.Storage.ChangeCurrency | internal/storage/storage.go:116-135 | takes a currency of that code and invalidates, or changes nothing |
| Storage.Storage.GetExpencesMap | internal/storage/storage.go:213-271 | returns the machine's answer and leaves the cache as the machine does |
| Storage.Storage.SumUp | internal/storage/storage.go:259-262 | the sums are the fold of the rows, and the texts encode the sums |
| Storage.Storage.SetUserLimit | internal/storage/storage.go:273-294 | performs the step, silently doing nothing for a missing user |
| Storage.Storage.OnExchangeRates | internal/storage/storage.go:307-315 | performs the rate update and leaves the cache alone |
| Storage.Storage.OnNewMonth | internal/storage/storage.go:331-339 | performs the monthly refill |
| Storage.Storage.ResetUser | internal/storage/storage.go:105-114 | performs the step and leaves the cache alone |
| Messages.Model.IncomingCommandMessage | internal/model/messages/incoming_msg.go:80-133 | adds an unknown sender, then changes the state and answers as the command says |

## Left out

- 64-bit overflow of amounts, sums and ids, and float conversions out of range: amounts and totals are unbounded integers.
- Conversion.ToBase: exact division, because the promised bounds are about truncation; `Binary64.ConversionErrorRounded` is the bound with rounding. The rounding of the 4-byte rate column is not modelled.
- Conversion.FromBase: exact multiplication, for the same reason.
- Money.ConvertStringAmountToSub: exact value of the decimal text; rounding of printed amounts is the subject of `Binary64`, and the range error for amounts above the largest float64 is not modelled.
- Decimal.ParseInt: no 64-bit range error, because cached totals are themselves 64-bit integers.
- Storage.Storage.ChangeCurrency: equals one step only if currency codes are distinct, because the schema does not declare them unique and any matching row may be found.
- Messages.Model.IncomingCommandMessage: under the same condition for `/set_currency`.
- Sessions.SessionIsolation: leaves out the answer to a report, because with clashing cut-offs another user's report may be served from the cache; `SessionReports.ReportIsolation` covers it where it holds.
- Interleaving.RunIsSerial: the statements of the expence transaction, the rows of a refill and the stages of the pipeline are one step each there; `Transaction` and `Pipeline` take these apart, one at a time.
- Zero, negative and NaN rates: a rate is a positive real.
- Errors of PostgreSQL and Redis outside the transaction, and of Kafka, gRPC, HTTP and Telegram: operations succeed; no message is lost or delivered twice; topic and channels are empty at the start.
- Cancellation and shutdown, and a consumer claim that ends because a query, a parse or a call failed.
- User ids below 1 in statements about the cache: Telegram ids are positive.
- Calendar arithmetic, time zones and date parsing: starts of day, month and year are parameters, and so is the date parser.
- Users added or removed while a refill statement is running: the set of users is fixed in `Transaction`.
- That a cache entry does disappear after ten minutes: entries may expire at any time.
- The slice of currencies that the rate service sends by reference while it may overwrite it later.
- NULL columns, the 3-character code column and the small-integer currency id.
- Configuration files, logging, metrics, tracing, the help text and the order of report lines.
