# Verified models of the ORBI banking core

This project models the parts of the ORBI backend whose correctness is an algorithm or a protocol, and
proves what they are meant to keep: the query compiler, the job broker, refresh-token rotation, automatic
allocation, treasury sweeps and withdrawals, the ledger, settlement payouts, two rate limiters and the
administrator's configuration synchroniser. `dafny verify dfyconfig.toml` checks everything.

## How the files fit together

| files | component |
|---|---|
| `basics.dfy`, `outcomes.dfy`, `words.dfy`, `keyed_table.dfy` | numbers and lists; options, results and the fates of a call; trimming and letter case; tables written by "find, then update or insert" |
| `sql_text.dfy`, `sql_lexer.dfy`, `sql_grammar.dfy`, `where_clause.dfy`, `filter_words.dfy`, `spliced_text.dfy`, `or_expression.dfy`, `statement_text.dfy`, `query_builder.dfy` | the query compiler. SQL is a token sequence, and text spliced into it is cut into tokens; a parser with SQL's precedence and an evaluator with three-valued logic say what a condition means, a list of what each operator word asks for says which rows it should select, and a grammar of INSERT and UPDATE says what a statement writes |
| `broker.dfy` | the job queue: workers interleave reads, compare-and-sets, outcomes and crashes |
| `auth_sessions.dfy`, `auth_races.dfy` | login, refresh, reuse detection, logout and access checks over the session table, one transaction after another; the same transactions interleaved statement by statement, with snapshots and row locks |
| `auto_allocation.dfy`, `allocation_laws.dfy`, `allocation_order.dfy`, `allocation_history.dfy`, `allocation_races.dfy`, `allocation_targets.dfy` | one allocation run with every database call free to fail; its laws; its reasons, its order and what its tables show of it; histories of runs, replays and edits; runs interleaved statement by statement, each deciding from what it read; the caps on a goal in such runs |
| `treasury_sweep.dfy`, `sweep_races.dfy`, `treasury_withdrawal.dfy` | the sweep loop; sweeps beside other movements and each other; the withdrawal as interleaved steps of any number of workers |
| `transaction_status.dfy`, `ledger.dfy`, `ledger_acceptance.dfy`, `reversal_guard.dfy` | the status table; the balance fold, atomic posting in several currencies, and reversal; exactly which postings are accepted; how often a transaction is reversed by interleaved workers that act on statuses they read before |
| `settlement.dfy`, `settlement_races.dfy` | payouts run undivided; payouts interleaved call by call |
| `sliding_limiter.dfy`, `limiter_races.dfy`, `waf_limiter.dfy` | the sliding-log limiter, its checks with reads and writes interleaved, and the fixed-window limiter |
| `admin_config.dfy`, `admin_races.dfy` | configuration versions, routing rules, rail capabilities, partner-bank rules; saves of versions and rules interleaved statement by statement |

Objects whose methods update fields are classes. Each method is proved equal to a function of the old
state, and the lemmas about runs and histories are about those functions. Failures of the database and of
the network are inputs: a call that writes works, is refused, or is carried out with its answer lost. What
is not covered by them is listed under "Left out".

## What the code does not do

Where a property one would expect is false, the code is modelled as it is, the exact condition is proved,
and a lemma gives the input:

- The text after IS is spliced into the statement. An IS filter is one test exactly when that text, comments
  counting as blanks, is one of four words, with or without NOT. `null or true` as the text of a filter of its
  own selects every row, and `null or $1` uses a placeholder nothing is bound to. An OR expression can carry
  such text (`backend/features/MessageAudienceService.ts:53-54` puts a caller's search text into one): there
  `null or true` opens its own group and no more, while `null) or (true` closes the group and leaves only the
  groups that follow, so that without any every row is selected: `WhereClause.IsFilterReadsExactly`,
  `WhereClause.SplicedOrSelectsEveryRow`, `WhereClause.SplicedPlaceholder`, `OrExpression.OrSplicesText`,
  `OrExpression.OrSplicesParentheses`, `SplicedText.OrTrueOpensItsGroup`, `SplicedText.BreakOutSelectsExactly`.
- Operator names that every object inherits, such as `constructor` or `toString`, are not refused by the
  builder; the text of a function is spliced in, which the database refuses: `WhereClause.InheritedIsUnreadable`.
- An OR group without parts makes the whole condition unreadable, `in` inside an OR group matches no row
  (it is used so in `src/routes/public/coreFinance.ts:478`), and `not.` inside an OR group is refused:
  `WhereClause.ReadableExactly`, `OrExpression.OrInMatchesNothing`, `OrExpression.OrRefusesNot`.
- A COMPLETED job can become FAILED exactly when a worker is still running it, which a takeover of an idle
  claim allows; a retry delivered when it is due is refused, because the row is claimable only after twice
  the delay: `Broker.CompletedIsFinalExactly`, `Broker.TakeoverSharesAJob`, `Broker.ScheduledRetryIsRefused`.
- A user can have two live sessions: exactly when a login or a refresh of theirs is committed while another
  login of theirs is between the beginning of its revoking UPDATE and its end, because that UPDATE never sees the
  new row. In the same way a family outlives the detection of a reuse when one of its tokens is exchanged
  meanwhile: `AuthRaces.OneLiveRowExactly`, `AuthRaces.LoginLeavesOneExactly`,
  `AuthRaces.EndingLeavesNoneExactly`, `AuthRaces.ReuseBesideExchange`.
- The sliding limiter passes its limit as soon as one read or one write misses the shared store, or one check
  reads while another is between its read and its write, and in memory alone because deletion timers of earlier
  writes are never cancelled: `LimiterRaces.LimitsExactly`, `LimiterRaces.OverlapExceeds`,
  `SlidingLimiter.MissedReadExceeds`, `SlidingLimiter.MissedWriteExceeds`, `SlidingLimiter.MemoryExceeds`.
- The fixed-window limiter lets 119, not 60 and not 120, requests through in a closed minute:
  `WafLimiter.BoundedExactly`.
- An allocation that moves its money and then fails leaves the money available to the next goal; two rules
  for one budget report two allocations and move one: `AllocationHistory.LostAnswerMovesTwice`,
  `AllocationHistory.SharedReferenceMovesOnce`.
- A goal's monthly target is filled twice after a month that cannot be read, an allocation that is not marked,
  an answer that is lost, or, with every call working, when a run reads the month while another is between
  reading and marking; and a goal goes past its target when a run decides from a balance that has changed since
  it started: `AllocationTargets.MovesWithinExactly`, `AllocationTargets.CompletesWithinExactly`,
  `AllocationTargets.SlipFillsTwice`, `AllocationTargets.StaysWithinExactly`,
  `AllocationTargets.OutdatedFillsTwice`.
- A sweep writes a goal's `current` as what it read and the amount it moved. A movement of the goal meanwhile is
  overwritten and can take the goal past its target; a movement of the vault can take it below a threshold:
  `SweepRaces.NeverExactly`, `SweepRaces.CreditBeside`, `SweepRaces.DebitBeside`.
- A withdrawal is paid once because of two unique indexes, of which either is enough; reading the legs first
  would not be: `TreasuryWithdrawal.PaysAtMostOnceExactly`, `TreasuryWithdrawal.ReadingIsNotEnough`.
- A reversal without a look at the status (`ledger/disputeService.ts:49`,
  `backend/ledger/reconciliationService.ts:146`) can be repeated. So can a guarded one: when another worker
  reverses the transaction between its look and its posting, when its posting's answer is lost, its marking
  fails, or the transaction is PENDING, since that status cannot become REVERSED; and, though every call works
  and looks first, when a review lock or a status change that looked earlier writes over REVERSED:
  `Ledger.ReversedTwice`, `ReversalGuard.ReversedOnceExactly`, `ReversalGuard.LapseReversesTwice`,
  `ReversalGuard.StaleTwice`.
- An allocation to a budget, whose credit is on no wallet, cannot be reversed:
  `Ledger.ReversalAcceptedExactly`, `Ledger.BudgetAllocationIsNotReversed`.
- A payout's gross amount is what was pending when it was read, not what is linked later; two callers can
  be paid for the same transactions; a record or a link whose answer is lost, and a refused link that is not
  undone, leave payouts and transactions that do not agree: `SettlementRaces.GrossMatchesLinksExactly`,
  `SettlementRaces.TwoCallersPayTwice`, `Settlement.PayoffKeepsBackedExactly`,
  `Settlement.CallsThatDoNotSettle`.
- Two saves that both look for a routing rule before either inserts it leave two rows with its key, and no later
  save of that key succeeds; versions are kept apart by their unique indexes:
  `AdminRaces.KeysStayUniqueExactly`, `AdminRaces.TwoSavesDouble`, `AdminRaces.DoubledIsNeverSaved`,
  `AdminRaces.VersionsStayInOrder`.
- Routing rules that a later configuration leaves out stay in force, unlike capabilities:
  `AdminConfig.RoutingConvergesExactly`, `AdminConfig.OmittedRuleStays`.

A reversal looks at the exact entry type while the balance looks at the upper-cased side or type. The
procedures modelled here write words that agree, so `Ledger.ReversalRestoresExactly` is the law that
reversal relies on rather than a failure, and `Ledger.PostedTransactionsAreUndone` is its consequence for
every posted transaction.

## Model

| member | source | states |
|---|---|---|
| WhereClause.MemberMeans | services/localPostgresClient.ts:227-235 | IN over the bound parameters is true exactly when some item equals the value, and false exactly when every item is known to differ; a NULL makes it neither |
| WhereClause.PieceMeans | services/localPostgresClient.ts:216-255 | one compiled filter whose IS text is a single test is read by the SQL grammar, wherever it stands, exactly when its operator is one of the listed ones, and is then true of exactly the rows that meet the filter, negated forms and NULL columns included |
| WhereClause.GroupMeans | services/localPostgresClient.ts:210-212 | a parenthesised OR group of such filters is readable exactly when it has parts and all are, and then true of exactly the rows that meet at least one |
| WhereClause.TextMeans | services/localPostgresClient.ts:208-255 | the whole condition text, with any parameters before and after its own and single-test IS texts, is readable exactly when every clause is, and then means the conjunction of its clauses under SQL precedence |
| WhereClause.ReadableExactly | services/localPostgresClient.ts:208-226 | where every IS text is a single test, the condition can be read exactly when no OR group is empty and no operator is an inherited name |
| WhereClause.WhereSelectsExactly | services/localPostgresClient.ts:208-255 | for all filters, groups, rows and parameter contexts, the text is true of a row exactly when the row meets every filter and at least one filter of each group |
| FilterWords.FilterIsWanted | services/localPostgresClient.ts:216-255 | by operator word, under every rule that reads SQL's `=` as equality, `<>` as its negation, `<`, `<=`, `>`, `>=` as an order and LIKE, ILIKE and `@>` as themselves: an `eq` filter is met by exactly the rows whose column is the value, `neq` by those whose column is known to differ, `gt`, `gte`, `lt`, `lte` by order, `like`, `ilike`, `contains` by their own operators, `in` by membership, `is` by its word, and a `not.` form by the rows for which the filter is known to fail |
| WhereClause.IsFilterReadsExactly | services/localPostgresClient.ts:221-225 | the database reads an IS filter, negated or not, as one test wherever it stands exactly when the text spliced in, with comments for blanks, is NULL, TRUE, FALSE or UNKNOWN in any letter case, or NOT and one of them, up to blanks |
| WhereClause.DecimalReads | services/localPostgresClient.ts:222-223 | a number after IS is printed as its decimal digits, without needless zeros |
| WhereClause.SignPrinted | services/localPostgresClient.ts:222-223 | a text is printed as it is, and a number below zero with its sign |
| WhereClause.ItemsPrinted | services/localPostgresClient.ts:222-223 | a list is printed as its items in order, a comma between two of them and nothing for a null |
| WhereClause.InheritedIsUnreadable | services/localPostgresClient.ts:238-254 | a filter whose operator is a name that every object inherits, such as `constructor`, is not refused, and the database can never read its text |
| WhereClause.InheritedPrinted | services/localPostgresClient.ts:250-254 | the inherited function is printed under its own name, the constructor under that of objects |
| WhereClause.SplicedOrSelectsEveryRow | services/localPostgresClient.ts:221-225 | behind any filters, `null or true` as the value of an IS filter of its own makes the whole condition true of every row |
| SqlLexer.OneTestExactly | services/localPostgresClient.ts:222-223 | the tokens of a spliced text, with closed comments as blanks and quoted names and strings as single tokens, are one test exactly when its blank-separated parts are one of the four words, or NOT and one of them |
| WhereClause.PieceNumbers | services/localPostgresClient.ts:227-254 | a filter's placeholders are the next numbers in order, one per bound value, followed by whatever its IS text splices in: no more exactly when it splices in none |
| WhereClause.WhereNumbers | services/localPostgresClient.ts:208-255 | the placeholders of the condition are consecutive from the given base, each used once, in the order of the bound values, exactly when no IS text splices in a placeholder |
| WhereClause.SplicedPlaceholder | services/localPostgresClient.ts:221-225 | the value `null or $1` of an IS filter puts a placeholder into the text and binds nothing |
| SplicedText.OrTrueOpensItsGroup | services/localPostgresClient.ts:208-225 | for all filters and groups, `null or true` in a part of an OR group makes the condition true of exactly the rows that meet every filter and every other group |
| SplicedText.BreakOutSelectsExactly | services/localPostgresClient.ts:208-225 | for all filters and groups, `null) or (true` in a part makes the condition true of exactly the rows that meet every later group, or meet every filter, every earlier group, and an earlier part of this group or a NULL column: of every row where no group follows |
| OrExpression.SplitTopLevel | services/localPostgresClient.ts:25-41 | the character loop computes the split at commas outside parentheses, trimmed and without empty parts |
| Words.TrimExactly | services/localPostgresClient.ts:25-41 | trimming takes off the blanks of the language at both ends, all of them, and nothing else |
| Words.SpaceExactly | services/localPostgresClient.ts:25-41 | those blanks by their codes |
| OrExpression.SplitInvertsJoin | services/localPostgresClient.ts:25-41 | splitting comma-joined parts gives them back exactly when each is trimmed, not empty, keeps its commas inside parentheses, and all but the last balance |
| OrExpression.ParseOrFilterMatches | services/localPostgresClient.ts:197-206 | a part that matches the pattern is read as its one column, operator and literal |
| OrExpression.ParsedMatches | services/localPostgresClient.ts:197-206 | whatever is read as a filter matches the pattern |
| OrExpression.PatternExactly | services/localPostgresClient.ts:197-200 | the operator of a part is one or more ASCII letters, and its literal any characters but the four line ends |
| OrExpression.LiteralExactly | services/localPostgresClient.ts:201-204 | a literal is read as null or a Boolean exactly when it is that word, and as its own text otherwise |
| OrExpression.OrRecoversExactly | services/localPostgresClient.ts:148-153 | printing a group as column.operator.text and reading it back recovers it exactly when every filter is printable (no literal word, no line break, trimmed) and all texts but the last balance |
| OrExpression.OrInMatchesNothing | services/localPostgresClient.ts:227-229 | `in` inside an OR expression matches no row, whatever list is written |
| OrExpression.OrHasNoNegation | services/localPostgresClient.ts:198-205 | no filter read from an OR expression is negated |
| OrExpression.OrRefusesNot | services/localPostgresClient.ts:198-251 | a part column.not.operator.value is read with operator `not` and then refused |
| OrExpression.OrSplicesText | services/localPostgresClient.ts:197-206 | a part column.is.null or true of an OR expression is read, as the IS filter that carries this text |
| OrExpression.OrSplicesParentheses | services/localPostgresClient.ts:197-206 | so is a part column.is.null) or (true |
| OrExpression.ParenthesesKeepTheirPlace | services/localPostgresClient.ts:25-41 | that part is trimmed, has no comma and ends at depth zero, so the split of the expression leaves it whole |
| QueryBuilder.Parameters.Push | services/localPostgresClient.ts:231-232 | a value is appended and its placeholder is the new length |
| QueryBuilder.Builder.AddFilter | services/localPostgresClient.ts:191-195 | a safe column adds one filter; an unsafe one throws and changes nothing |
| WhereClause.IdentifierExactly | services/localPostgresClient.ts:16-23 | a column is safe exactly when it is one or more ASCII letters, digits and underscores, of which the first is no digit |
| QueryBuilder.Builder.AddOrGroup | services/localPostgresClient.ts:148-153 | an expression whose parts are all read adds exactly its group; otherwise nothing changes |
| QueryBuilder.Builder.FilterSql | services/localPostgresClient.ts:216-255 | the imperative compilation of one filter appends exactly its values and returns exactly its piece, or fails exactly when the column is unsafe or looking up the operator finds nothing; the text of a filter with one of the listed words selects the rows that the word asks for |
| QueryBuilder.Builder.BuildFilterSql | services/localPostgresClient.ts:208-214 | the whole condition text and parameter list, for all filters and groups; it fails exactly when some filter is not supported; for filters with the listed words it is empty without filters, and otherwise selects the rows that the words ask for |
| QueryBuilder.Builder.CompileInsert | services/localPostgresClient.ts:277-299 | insert and upsert produce the specified text and one value per row and column, nothing for no rows, an error for an unsafe column; the text, read as SQL, stores exactly the submitted rows exactly when some row has a key |
| QueryBuilder.Builder.CompileUpdate | services/localPostgresClient.ts:300-307 | update binds the submitted values first and the filter values after them; the text, read as SQL, assigns to every submitted key its value in the rows that the words of the filters ask for |
| QueryBuilder.Builder.CompileFiltered | services/localPostgresClient.ts:270-276 | select and delete append the condition text to their opening and bind exactly the filter values; they select the rows that the words of the filters ask for |
| QueryBuilder.FiltersSelectWanted | services/localPostgresClient.ts:208-255 | among any other parameters, the condition text of any filters and groups with the listed words is true of exactly the rows they ask for |
| QueryBuilder.FilterSelectsWanted | services/localPostgresClient.ts:216-255 | so is the text of one filter by itself |
| QueryBuilder.DistinctExactly | services/localPostgresClient.ts:279-279 | the column list has every key of every row once and nothing else |
| QueryBuilder.AllCellsAt | services/localPostgresClient.ts:281-285 | the value at position row * columns + column is that row's value for that column |
| QueryBuilder.ConflictHasNoParams | services/localPostgresClient.ts:289-299 | an ON CONFLICT part uses no placeholder |
| QueryBuilder.InsertBindsEachCell | services/localPostgresClient.ts:277-299 | cell (r, c) is $(r * columns + c + 1), bound to the row's value or null, and the placeholders are exactly $1 to $n |
| QueryBuilder.InsertStoresExactly | services/localPostgresClient.ts:277-299 | read back by a grammar of INSERT and ON CONFLICT, the text and its values store exactly the submitted rows, each key in its column and null where a row has none; on a conflict nothing happens, or the stored row keeps the conflict columns and what was not submitted and takes all else from the submitted row; the text can be read exactly when some row has a key |
| QueryBuilder.UpdateAssigns | services/localPostgresClient.ts:300-307 | read back by a grammar of UPDATE, the text assigns to each key of the submitted row its own value, null for undefined, in the named table |
| QueryBuilder.UpdateBindsInOrder | services/localPostgresClient.ts:300-307 | SET placeholders come first and are bound to the submitted values; the WHERE part, under the full parameter list, selects exactly the rows that meet the filters |
| QueryBuilder.UpdateNumbers | services/localPostgresClient.ts:300-307 | the placeholders of an update are exactly $1 to $n, each once, in order, exactly when no IS text of its filters splices in a placeholder |
| Broker.JobTable.Push | BROKER/InternalBroker.ts:41-59 | a new job is PENDING with no attempts |
| Broker.JobTable.ReadForClaim | BROKER/InternalBroker.ts:250-258 | a job is offered exactly when it is pending, failed with attempts left and its window elapsed, or processing and idle too long |
| Broker.JobTable.CompareAndSet | BROKER/InternalBroker.ts:260-273 | the claim succeeds exactly when the status is still the one that was read |
| Broker.JobTable.WriteCompleted | BROKER/InternalBroker.ts:285-292 | the outcome is written by id alone |
| Broker.JobTable.WriteFailed | BROKER/InternalBroker.ts:293-303 | the attempt count written is one more than it was at the claim |
| Broker.ClaimableExactly | BROKER/InternalBroker.ts:309-375 | a job may be claimed exactly when it is PENDING, FAILED with attempts left and the delay of its next attempt over, or PROCESSING and idle long enough; the delay is the base at first and doubles with every attempt |
| Broker.WritesAreTimed | BROKER/InternalBroker.ts:260-303 | each write changes the row of its job alone, and its time |
| Broker.WorkerGoesOn | BROKER/InternalBroker.ts:260-303 | after its update a worker runs the job exactly if the status was still what it had read, and after an outcome, written or lost, it is free |
| Broker.ClaimsArePaid | BROKER/InternalBroker.ts:244-303 | in every interleaving, a job's row goes from PENDING or FAILED to PROCESSING at most once more than failures are written for it |
| Broker.CompletedIsFinalExactly | BROKER/InternalBroker.ts:285-303 | a COMPLETED row can never change again exactly when no worker is running the job |
| Broker.AtMostOneRunner | BROKER/InternalBroker.ts:244-303 | if no PROCESSING row ages past the idle time, a job has at most one runner and is PROCESSING exactly while it has one or its run was abandoned |
| Broker.CompletedStaysInTimelyRuns | BROKER/InternalBroker.ts:285-303 | in such runs a COMPLETED row never changes, whatever follows |
| Broker.AttemptsAreBounded | BROKER/InternalBroker.ts:250-303 | in such runs with W workers, attempts never exceed the limit + W - 1 |
| Broker.AttemptBoundIsReached | BROKER/InternalBroker.ts:250-303 | for every W, every retry base and every positive idle time, some such run reaches limit + W - 1 |
| Broker.AtomicClaimsMeetTheLimit | BROKER/InternalBroker.ts:250-271 | with read and update as one step, attempts never exceed the limit, in every interleaving |
| Broker.TakeoverSharesAJob | BROKER/InternalBroker.ts:348-351 | without the timing condition two workers can run one job, and one completes it under the other |
| Broker.ScheduledRetryIsRefused | BROKER/InternalBroker.ts:309-375 | a failed job is claimable exactly from twice its scheduled delay on, so a retry delivered on time is refused |
| AuthSessions.AuthService.CreateRefreshSession | iam/orbiAuthService.ts:170-196 | the new row is live, has the given family and device, and expires after the refresh lifetime |
| AuthSessions.AuthService.IssueAccessToken | iam/orbiAuthService.ts:146-168 | the token carries the user's current version and expires after the access lifetime |
| AuthSessions.AuthService.FindIdentity | iam/orbiAuthService.ts:122-134 | the identity is the user's row at that moment |
| AuthSessions.AuthService.Login | iam/orbiAuthService.ts:326-366 | with the identity read before it, login refuses wrong credentials and inactive accounts, revokes every live session of the user, and opens a new family |
| AuthSessions.AuthService.Refresh | iam/orbiAuthService.ts:394-485 | refresh refuses unknown and expired tokens, kills the family on reuse or another device, and otherwise rotates |
| AuthSessions.AuthService.Logout | iam/orbiAuthService.ts:487-527 | logout revokes the presented refresh session if live and records the presented access token until it expires |
| AuthSessions.AuthService.GetSession | iam/orbiAuthService.ts:368-392 | an access token is accepted exactly when it is genuine, unexpired, not revoked, of the current version, and the account is neither blocked nor frozen |
| AuthSessions.RefreshAnswersExactly | iam/orbiAuthService.ts:394-485 | each answer of a refresh is given exactly when it should be: unknown or expired, used up, another device, account not active, or granted |
| AuthSessions.RefusedRefreshLeaves | iam/orbiAuthService.ts:420-455 | a used token ends every session of its family and every access token of its user, another device ends the sessions alone, any other refusal changes nothing, and other families and users stay as they were |
| AuthSessions.GrantedRefreshLeaves | iam/orbiAuthService.ts:456-485 | a granted refresh revokes the presented token in favour of the new one, which keeps user and family, keeps a known device or binds a new one, and leaves every other session alone |
| AuthSessions.LoginAnswersExactly | iam/orbiAuthService.ts:326-366 | each answer of a login is given exactly when it should be; one that is granted leaves the new session the user's only live one and revokes just those that were live |
| AuthSessions.LoginTokensLast | iam/orbiAuthService.ts:146-196 | with nothing else happening, the access token of a login is accepted exactly for the access lifetime, and whatever happens never longer; its refresh token is answered as unknown or expired exactly from the end of the refresh lifetime on, whatever happens |
| AuthSessions.RefreshTokensLast | iam/orbiAuthService.ts:146-196 | so are the tokens of a refresh |
| AuthSessions.StepKeepsInv | iam/orbiAuthService.ts:326-527 | every step keeps families as chains, one live session per user, and token versions no later than the user's |
| AuthSessions.FamiliesAreChains | iam/orbiAuthService.ts:335-477 | over any run of transactions one after another, with identities read at any earlier time, each family is one acyclic chain of replacements whose last row alone can be live and whose device is absent up to a point and then constant; no user has two live sessions |
| AuthSessions.ExchangedAtMostOnce | iam/orbiAuthService.ts:394-477 | a refresh token that was exchanged is never exchanged again, whatever happens in between |
| AuthSessions.ReuseIsFinal | iam/orbiAuthService.ts:420-433 | presenting a revoked or replaced unexpired token leaves its family without a live row for ever, and every access token issued to the user before is refused for ever |
| AuthSessions.LogoutIsFinal | iam/orbiAuthService.ts:487-527 | an access token given to logout is refused from then on |
| AuthSessions.AccessEndsExactlyWhen | iam/orbiAuthService.ts:368-527 | an accepted access token becomes refused exactly by reuse detected for its user, a logout presenting it, or a block or freeze |
| AuthRaces.OneLiveRowExactly | iam/orbiAuthService.ts:335-477 | in every interleaving of the statements of any number of logins, refreshes and logouts, no user has two live rows exactly when no login and no exchange is committed while another login of the user is between the beginning of its UPDATE and its end |
| AuthRaces.TwoLogins | iam/orbiAuthService.ts:335-353 | two logins whose UPDATEs both begin before either commits leave two live rows |
| AuthRaces.LoginBesideExchange | iam/orbiAuthService.ts:335-477 | a login that waits for a row being exchanged leaves the new row live beside its own |
| AuthRaces.LoginLeavesOneExactly | iam/orbiAuthService.ts:335-353 | in every interleaving, a login's commit leaves its own row alone live exactly when every live row of the user was committed as its UPDATE began |
| AuthRaces.EndingLeavesNoneExactly | iam/orbiAuthService.ts:420-449 | in every interleaving, the end of a family after a reuse or another device leaves none of its rows live exactly when every live one was committed as its UPDATE began |
| AuthRaces.ReuseBesideExchange | iam/orbiAuthService.ts:394-477 | a reuse detected while a token of the family is being exchanged leaves the new row live |
| AuthRaces.ExchangedOnceInAllInterleavings | iam/orbiAuthService.ts:398-477 | in every interleaving a refresh token is exchanged at most once |
| AuthRaces.LoginIsSteps | iam/orbiAuthService.ts:335-345 | a login by itself is the run of its statements |
| AuthRaces.LogoutIsSteps | iam/orbiAuthService.ts:487-500 | a logout of a session by itself is the run of its statements |
| AuthRaces.RefreshIsSteps | iam/orbiAuthService.ts:394-477 | a refresh of an active account by itself is the run of its statements, in every branch |
| AutoAllocation.DecideGoal | strategy/goalService.ts:175-256 | an amount taken is positive, within what is left, within the goal's room and, for a fixed goal, within the month's target |
| AutoAllocation.DecideBudget | strategy/goalService.ts:319-354 | an amount taken is positive, within what is left and within the budget's limit |
| AutoAllocation.Share | strategy/goalService.ts:35-37 | a percentage is rounded to the nearest minor unit, halves up |
| AutoAllocation.GoalService.ReserveAutoAllocationEvent | strategy/goalService.ts:63-87 | at most one event per goal and transaction is ever inserted; a duplicate is reported as none, another error as an error, whether or not the event was inserted |
| AutoAllocation.GoalService.MarkAutoAllocationEvent | strategy/goalService.ts:89-107 | only the event's status and amount change, and a failed update changes nothing |
| AutoAllocation.GoalService.AllocateFunds | strategy/goalService.ts:716-836 | the money moves unless the call failed before the posting, even when the call reports failure |
| AutoAllocation.GoalService.ChooseAmount | strategy/goalService.ts:203-256 | the branches decide the amount or the reason exactly as specified |
| AutoAllocation.GoalService.ConsiderGoal | strategy/goalService.ts:175-285 | one turn of the goal loop, with every failure, takes the state to exactly the specified one |
| AutoAllocation.GoalService.ConsiderRule | strategy/goalService.ts:303-395 | one turn of the budget loop, likewise |
| AutoAllocation.GoalService.SharedBudgetAllocate | database/main.sql:9210-9360 | the budget procedure moves money once per reference, repeats succeed without moving for the same amount and fail for another, and the limit is never passed |
| AutoAllocation.GoalService.RunAutoAllocationsForCredit | strategy/goalService.ts:109-419 | the two loops take the books to exactly the specified state and return exactly the applied and skipped lists and the remainder, or an error exactly when one left a loop |
| AllocationLaws.GoalGetsLargestAllowed | strategy/goalService.ts:203-256 | a goal is given exactly the largest amount that its room, the remainder and its strategy allow, and nothing when none is allowed |
| AllocationLaws.BudgetGetsLargestAllowed | strategy/goalService.ts:319-354 | a budget is given exactly the largest amount that its limit, the remainder, its threshold and the rule allow |
| AllocationOrder.GoalReasonExactly | strategy/goalService.ts:203-256 | a goal is given nothing for exactly the first reason that applies, each reason in terms of the goal, the remainder and the month |
| AllocationOrder.BudgetReasonExactly | strategy/goalService.ts:319-354 | so is a budget |
| AllocationOrder.UndecidedTurns | strategy/goalService.ts:182-330 | a goal that has its event already, a rule without a budget, a rule after the money is gone, and a rule for an unknown budget are reported with their reasons and change nothing else |
| AllocationOrder.RunAccounts | strategy/goalService.ts:164-411 | a run that reaches its end reports every enabled goal, oldest first, and then every rule: each is among the applied or the skipped, and both lists are in that order |
| AllocationOrder.RunMatchesPostings | strategy/goalService.ts:171-395 | whatever fails, every goal's balance and every budget's funds grow by exactly what the run posted to them for this credit, and nothing else in them changes |
| AllocationOrder.BudgetProcedureExactly | database/main.sql:9210-9360 | the budget procedure succeeds exactly when the same amount was moved before under the reference, or none was and the limit leaves room, and moves money only in the second case |
| AllocationLaws.RunConserves | strategy/goalService.ts:171-395 | whatever fails, the credit is exactly what was applied plus what is left, what is left is not negative, and every applied amount is positive |
| AllocationLaws.RunStaysCapped | strategy/goalService.ts:171-395 | in one undisturbed run, whatever fails, no goal is raised above its target and no budget above its limit, and none is lowered |
| AllocationLaws.GoalReportsWhatMoved | strategy/goalService.ts:258-284 | a turn on a goal reports what it moved, except exactly when the money moved and the call failed |
| AllocationLaws.RuleReportsWhatMoved | strategy/goalService.ts:355-394 | a turn on a rule reports what it moved, except exactly when the answer was lost after a move or the same amount had gone to the budget before |
| AllocationLaws.RunMovesWhatItReports | strategy/goalService.ts:171-395 | with every answer arriving, one rule per budget and no earlier budget posting, a run moves exactly what it reports |
| AllocationHistory.FundedAtMostOnce | strategy/goalService.ts:182-201 | in every history of whole runs, replays and edits, with any failures, one transaction moves money to a goal or budget at most once |
| AllocationRaces.PaidOnceInAllInterleavings | strategy/goalService.ts:182-285 | in every interleaving of the statements of any number of runs, each deciding from the goals and the months it read, with failures, lost answers and stops anywhere, one transaction moves money to a goal or budget at most once |
| AllocationRaces.GoalTurnIsSteps | strategy/goalService.ts:175-285 | one turn of the goal loop is the run of its statements: reserve, read the month if it matters, decide and post, mark; it leaves the same books and the same remainder |
| AllocationRaces.RuleTurnIsSteps | strategy/goalService.ts:303-395 | one turn of the budget loop is the run of its interleaved statements, and leaves the same books and the same remainder |
| AllocationRaces.RunIsSteps | strategy/goalService.ts:109-419 | every run by itself, with every failure, is a run of these statements from its start to its end |
| AllocationRaces.MonthMattersExactly | strategy/goalService.ts:222-238 | the month is read for exactly the decisions that depend on it |
| AllocationRaces.TakesEnabledGoals | strategy/goalService.ts:160-173 | in every interleaving a run takes only goals that were enabled when it started |
| AllocationRaces.BudgetsStayCapped | database/main.sql:9210-9360 | in every interleaving, whatever amounts runs ask for, no budget passes its limit unless somebody edits it |
| AllocationHistory.RunReserves | strategy/goalService.ts:175-201 | a run that reaches its end has an event for every enabled goal |
| AllocationHistory.ReplayFundsNoGoal | strategy/goalService.ts:421-467 | replaying a run that reached its end, with any amount and any failures, changes no goal and applies only to budgets |
| AllocationLaws.GoalTurnSums | strategy/goalService.ts:45-61 | a turn adds to the month's moved money exactly what it pays, and to the month's completed allocations exactly what it pays, hears back and marks |
| AllocationTargets.MovesWithinExactly | strategy/goalService.ts:45-285 | in all interleaved runs, the money moved to a goal in a month stays within its monthly target exactly when every month is read, every allocation marked, no answer lost, and no month read while another run is between reading it and marking |
| AllocationTargets.CompletesWithinExactly | strategy/goalService.ts:45-272 | in all interleaved runs, the completed allocations of a month stay within the monthly target exactly when every month is read, and none while another run is between reading it and marking |
| AllocationTargets.SlipFillsTwice | strategy/goalService.ts:45-272 | for every monthly target, one slip of any of these kinds lets two credits move twice the target; an unread or overlapped month lets both be marked as completed |
| AllocationTargets.StaysWithinExactly | strategy/goalService.ts:160-264 | in all interleaved runs, allocations keep a goal within its target exactly when none is decided from a balance that has changed since its run started |
| AllocationTargets.OutdatedFillsTwice | strategy/goalService.ts:160-264 | for every target, two runs that start before either pays fill a goal twice |
| AllocationHistory.LostAnswerMovesTwice | strategy/goalService.ts:818-824 | a failure after the posting lets one credit be moved twice while half is reported |
| AllocationHistory.SharedReferenceMovesOnce | strategy/goalService.ts:356-379 | two rules for one budget are both reported as applied and only the first moves money |
| TreasurySweep.Treasury.Post | backend/enterprise/treasuryService.ts:211-220 | one posting moves the amount from the vault to the goal, and refuses to overdraw the vault |
| TreasurySweep.Treasury.ExecuteAutoSweep | backend/enterprise/treasuryService.ts:141-246 | the loop takes the books to exactly the specified state and reports whether anything moved, or fails where a posting fails |
| TreasurySweep.SweepGoalsDistinct | backend/enterprise/treasuryService.ts:148-158 | each goal is swept at most once, and only if it is active, has automatic sweeps on, and a positive threshold |
| TreasurySweep.SweepGoalsComplete | backend/enterprise/treasuryService.ts:148-158 | every such goal is swept |
| TreasurySweep.SweepGoalsInOrder | backend/enterprise/treasuryService.ts:148-180 | the goals are taken in the order in which the database returns them |
| TreasurySweep.SweepIsSafe | backend/enterprise/treasuryService.ts:180-247 | wherever an undisturbed sweep stops, vault plus goals is conserved, no goal passes its target, nothing else changes, and the balance stays at or above the smaller of its start and the smallest threshold |
| TreasurySweep.SweepReachesFixedPoint | backend/enterprise/treasuryService.ts:180-244 | a sweep that reaches its end leaves every swept goal full or with threshold at or above the balance, and a second sweep moves nothing and changes nothing |
| TreasurySweep.SweepMovesExactlyWhen | backend/enterprise/treasuryService.ts:180-244 | where the vault covers its ledger balance, an unhindered sweep completes and moves something exactly when some goal is not full and has threshold below the balance |
| SweepRaces.NeverExactly | backend/enterprise/treasuryService.ts:148-241 | in all interleavings of sweeps with other movements, `current` stays what the entries say and no sweep fills a goal past its target exactly when no goal's money is moved by others while a sweep goes by what it read of it; no sweep leaves less than a threshold exactly when the vault's is not |
| SweepRaces.CreditBeside | backend/enterprise/treasuryService.ts:236-239 | a credit of the goal between a sweep's reading and its write is overwritten, and the sweep takes the goal past its target |
| SweepRaces.DebitBeside | backend/enterprise/treasuryService.ts:181-194 | a debit of the vault between a sweep's reading and its posting lets it leave less than the threshold |
| SweepRaces.TurnIsSteps | backend/enterprise/treasuryService.ts:180-241 | undisturbed, the posting and the write for one goal are the turn of the loop |
| SweepRaces.SweepIsSteps | backend/enterprise/treasuryService.ts:141-246 | every sweep by itself, with every failure, is a run of these steps from its reading of the goals to its end |
| SweepRaces.SweepsEnabledGoals | backend/enterprise/treasuryService.ts:148-158 | in every interleaving a sweep posts only to goals that were active, swept automatically and had a positive threshold when it read them |
| TreasuryWithdrawal.Withdrawal.Approve | database/main.sql:9998-10116 | an approval counts once per eligible administrator other than the maker, and the one that reaches the quorum on a held withdrawal starts an execution |
| TreasuryWithdrawal.Withdrawal.ClaimExecution | database/main.sql:10132-10191 | a recovery claim succeeds exactly when the withdrawal is processing, claimed and its lease has run out |
| TreasuryWithdrawal.Withdrawal.LedgerAlreadyApplied | backend/enterprise/treasuryService.ts:20-27 | the legs count as applied exactly when both directions are found; unreadable legs count as none |
| TreasuryWithdrawal.Withdrawal.AppendLedgerEntries | database/main.sql:4510-4797 | the pair is appended with its balances, its key and its phase, or nothing changes; either unique index refuses a second append, and a locked account or a lack of funds any |
| TreasuryWithdrawal.Withdrawal.Complete | ledger/transactionService.ts:853-857 | the status is written by id, whatever it has become since it was checked |
| TreasuryWithdrawal.Withdrawal.CloseExecution | backend/enterprise/treasuryService.ts:54-62 | the claim is closed only on a completed withdrawal |
| TreasuryWithdrawal.AppliedExactly | backend/enterprise/treasuryService.ts:20-27 | the pair counts as posted exactly when the goal has at least one debit and the destination at least one credit |
| TreasuryWithdrawal.RefusedExactly | database/main.sql:1085-1100 | the indexes refuse an append exactly when its marker would repeat a key or a phase that they keep unique |
| TreasuryWithdrawal.ChecksExactly | ledger/transactionService.ts:841-851 | a worker goes on to write the status exactly when it can be read and may become completed, and closes the execution otherwise |
| TreasuryWithdrawal.PaidOnceInAllRuns | backend/enterprise/treasuryService.ts:11-63 | with either unique index, in every interleaving with crashes, takeovers, lost answers, other status changes, locks and outside movements, the ledger holds no leg or exactly one pair of the requested amount, the balances are the outside movements and that pair, and completed implies the pair |
| TreasuryWithdrawal.PaidOnlyAfterQuorum | database/main.sql:9998-10116 | in every interleaving, legs exist only once at least two, and as many as required, have approved at steps of the run at which the withdrawal was held and they were eligible, none of them the maker |
| TreasuryWithdrawal.ApproversWereEligible | database/main.sql:10040-10070 | in every run, whoever counts as an approver has approved in it while the withdrawal was held, was eligible then, and is not the maker |
| TreasuryWithdrawal.ApprovalCountsExactly | database/main.sql:9998-10116 | after every run, an approval counts exactly when the withdrawal is held and the approver eligible, new and not the maker, and starts the execution, with a lease of two minutes, exactly when it reaches the quorum |
| TreasuryWithdrawal.RecoveryClaimsExactly | database/main.sql:10132-10191 | a recovery takes an execution over exactly when it is processing, claimed and out of its lease, and renews the lease |
| TreasuryWithdrawal.ReadingIsNotEnough | backend/enterprise/treasuryService.ts:20-52 | without both unique indexes, a takeover between reading and posting pays twice |
| TreasuryWithdrawal.PaysAtMostOnceExactly | database/main.sql:1085-1100 | no run pays twice exactly when the append key or the pair of transaction and phase is unique |
| TreasuryWithdrawal.RecoveryCompletesExactly | backend/enterprise/treasuryService.ts:364-375 | wherever earlier workers crashed, an unhindered recovery completes the withdrawal exactly when the pair is there, or no account of it is locked and the goal can pay it, and otherwise only renews the lease |
| Ledger.TransactionService.CalculateBalanceFromLedger | ledger/transactionService.ts:319-350 | the loop computes the signed sum of the wallet's rows, passing over unknown words |
| LedgerAcceptance.BalanceByWords | ledger/transactionService.ts:319-350 | the balance of a wallet is the sum of its rows that read as credits less the sum of those that read as debits, by the upper-cased side, or the type where the side is empty |
| Ledger.TransactionService.SettleLegs | database/main.sql:4342-4440 | the loop over the legs yields the new balances exactly when every leg goes through and credits equal debits in total and in each currency |
| Ledger.TransactionService.PostTransactionWithLedger | ledger/transactionService.ts:612-678 | a posting is all or nothing, and refused when empty, on an unknown or locked wallet, not positive, in another currency than the wallet's, overdrawing, unbalanced in total or in some currency, or under a used identifier or reference; its answer may be lost |
| LedgerAcceptance.NoNamePostsTwice | database/main.sql:4325-4330 | in every run from empty tables no two accepted postings share an identifier or an effective reference: the trimmed reference, or the identifier where that is blank |
| LedgerAcceptance.AcceptedExactly | database/main.sql:4119-4440 | a posting is accepted exactly when its identifier and effective reference are new, it has legs on wallets, each of a positive amount on a known wallet that is not locked and in no currency or the wallet's, no wallet that its header names is locked, every debit is covered by its wallet and the legs up to it, and the legs balance in total and in each currency |
| LedgerAcceptance.StrippedExactly | database/main.sql:4158-4162 | trimming a reference takes the blanks off both its ends and nothing else |
| LedgerAcceptance.LocksExactly | database/main.sql:4222-4242 | after every run a wallet is locked exactly as its last lock or unlock in the run says, and as before without one |
| Ledger.TransactionService.UpdateTransactionStatus | ledger/transactionService.ts:837-857 | with nothing in between, the status changes exactly when the table of transitions allows it and the write works |
| Ledger.TransactionService.CheckTransition | ledger/transactionService.ts:841-851 | the status is read, and a change is allowed exactly when the table of transitions says so |
| Ledger.TransactionService.WriteStatus | ledger/transactionService.ts:853-857 | the status is written by id alone, whatever it has become since |
| Ledger.TransactionService.LockTransactionForReview | ledger/transactionService.ts:1888-1960 | with nothing in between, the review lock writes HELD_FOR_REVIEW exactly when the status could still be reversed |
| Ledger.TransactionService.ReverseTransaction | ledger/transactionService.ts:1853-1886 | a reversal posts the mirrored legs of the transaction's rows, or changes nothing, and marks the transaction only when its posting is known to have worked |
| LedgerAcceptance.MirrorsExactly | ledger/transactionService.ts:1862-1874 | a reversal asks for one leg for each row of the transaction, in order, of the same wallet and amount and the opposite type, in the row's currency, or else the transaction's, or else TZS |
| Ledger.TransactionService.ReverseTransactionWithReason | ledger/transactionService.ts:2147-2160 | with nothing in between, the guarded reversal does so only while the status is eligible |
| Ledger.PostKeepsBalances | database/main.sql:4119-4508 | a posting changes the kept and the folded balance of a wallet by the same amount and leaves no negative balance |
| Ledger.RunConserves | ledger/transactionService.ts:612-678 | over any run of postings, mirror postings, status writes and locks as single statements, and so over every interleaving of calls, accepted, refused or with lost answers, the sum of all ledger balances of each currency is unchanged, kept and folded balances stay equally far apart, and none turns negative |
| Ledger.UndoneExactly | ledger/transactionService.ts:1863-1874 | a row's effect is undone by its mirror exactly when it counts as a credit just where its type is the exact word CREDIT and as a debit elsewhere |
| Ledger.ReversalLeaves | ledger/transactionService.ts:1853-1886 | after a reversal a wallet has exactly what the other transactions give it plus what the rows' words leave over |
| Ledger.ReversalRestores | ledger/transactionService.ts:1853-1886 | a reversal of rows whose words agree restores every balance to what it is without the transaction |
| Ledger.ReversalRestoresExactly | ledger/transactionService.ts:1853-1886 | for rows on distinct wallets, the reversal restores all balances exactly when the words of every row agree |
| Ledger.PostedTransactionsAreUndone | ledger/transactionService.ts:1853-1886 | after any run, an accepted reversal of any transaction posted in it restores every balance |
| Ledger.RepeatedReversals | ledger/transactionService.ts:1853-1886 | n reversals take the effect out n times |
| Ledger.RestoredByOneReversalExactly | ledger/transactionService.ts:1853-1886 | a balance the transaction changed is restored exactly by one reversal, not by none or more |
| Ledger.ReversedTwice | ledger/transactionService.ts:1853-1886 | a funded transfer can be reversed twice without a look at its status, and the payer ends with the amount more than before |
| Ledger.SettlesExactly | database/main.sql:4342-4427 | the legs go through exactly when each is positive, on a known wallet and in its currency, and every debit is covered by the legs up to it |
| Ledger.ReversalAcceptedExactly | ledger/transactionService.ts:1853-1886 | a reversal is accepted exactly when the transaction is known and the identifiers new, some row is on a wallet, no such wallet is locked, the rows on no wallet carry the whole imbalance, the mirrored legs balance in each currency, and they are covered |
| Ledger.PostedReversalsNeedOnlyFunds | ledger/transactionService.ts:1853-1886 | after any run, the reversal of a transaction posted in it is accepted exactly when its identifiers are new, its wallets not locked and its credits still there |
| Ledger.BudgetAllocationIsNotReversed | database/main.sql:9343-9353 | an allocation to a budget, which credits no wallet, is never reversed, whatever the funds |
| LedgerAcceptance.BudgetAllocationExactly | database/main.sql:9259-9353 | an allocation to a budget is made exactly when its identifier and reference are new and its wallet is known, not locked, of the budget's currency, and covers a positive amount; it takes the amount from that wallet's kept and folded balance, and from no other |
| TransactionStatus.IneligibleStays | backend/ledger/stateMachine.ts:62-82 | no allowed change of status makes a transaction eligible for reversal again |
| TransactionStatus.TransitionsBothWays | backend/ledger/stateMachine.ts:61-78 | the table of transitions says for each status which may follow it just where its columns say which may come before it |
| ReversalGuard.LeaksExactly | ledger/transactionService.ts:2147-2160 | one undisturbed guarded reversal leaves the transaction eligible exactly when its posting's answer is lost, its marking fails, or its status cannot become REVERSED |
| ReversalGuard.ClosedStays | ledger/transactionService.ts:837-857 | a transaction that cannot be reversed, or is just being marked, stays so by every step of every worker that is no lapse |
| ReversalGuard.ReversalsBounded | ledger/transactionService.ts:2147-2160 | in every interleaving of reversals, status changes and review locks, a transaction is reversed at most once more than lapses happen to it |
| ReversalGuard.LapseReversesTwice | backend/ledger/stateMachine.ts:62-82 | with any one lapse (no look at the status, another reversal between the look and the posting, a lost answer, a failed marking, a status that cannot become REVERSED, a status written after a look that is out of date) a funded transfer is reversed twice, and the payer ends with the amount more than before |
| ReversalGuard.StaleTwice | ledger/transactionService.ts:1888-1960 | a review lock that looked before a guarded reversal and writes after it lets a second guarded reversal post |
| ReversalGuard.GuardedCallIsSteps | ledger/transactionService.ts:2147-2160 | a guarded reversal by itself is the run of its statements |
| ReversalGuard.ChangeIsSteps | ledger/transactionService.ts:837-857 | a change of status by itself is the run of its look and its write |
| ReversalGuard.ReviewIsSteps | ledger/transactionService.ts:1888-1960 | so is a review lock |
| ReversalGuard.ReversedOnceExactly | ledger/transactionService.ts:2147-2160 | no transaction is reversed twice in any interleaving of any number of workers exactly when none of these lapses happens |
| Settlement.SettlementEngine.CalculatePendingSettlement | backend/core/SettlementEngine.ts:71-94 | the loop computes the sum of the pending credits less the sum of the pending debits |
| Settlement.SumsByKind | backend/core/SettlementEngine.ts:71-94 | what is pending, and what is linked to a payout, are the amounts of the credits less those of the debits; rows of other kinds add nothing |
| Settlement.PayoutIsCreditsLessDebits | backend/core/SettlementEngine.ts:119-157 | a payout is recorded exactly when the pending credits less debits, and what the fee leaves of them, are positive and the insert is not refused; its gross is that sum and its net what the fee leaves |
| Settlement.SettlementEngine.RecordPayout | backend/core/SettlementEngine.ts:142-157 | the payout is recorded, or refused, or recorded with its answer lost |
| Settlement.SettlementEngine.LinkTransactions | backend/core/SettlementEngine.ts:159-169 | every pending transaction is linked to the payout, or none; the answer may be lost |
| Settlement.SettlementEngine.TriggerPayout | backend/core/SettlementEngine.ts:119-180 | an undivided payout, with each of its calls answered, refused or lost, takes the books to exactly the specified state |
| Settlement.PayoffKeepsBackedExactly | backend/core/SettlementEngine.ts:119-174 | a payable attempt keeps every payout backed by its transactions, and payouts plus pending equal to everything completed, exactly when the record is refused, or answered and then the link answered, refused and undone, or lost and not undone |
| Settlement.CallsThatDoNotSettle | backend/core/SettlementEngine.ts:136-174 | a lost record and a refused link that is not undone leave a payout without transactions; a lost link that is undone leaves transactions linked to a deleted payout |
| Settlement.UndonePayoffChangesNothing | backend/core/SettlementEngine.ts:169-174 | a failed link that is undone leaves transactions and payouts as they were |
| Settlement.HistoryStaysBacked | backend/core/SettlementEngine.ts:71-174 | over any run of completions and undivided payouts whose calls settle, all payouts stay backed and every link stays |
| Settlement.HistoryKeepsTransactions | backend/core/SettlementEngine.ts:71-174 | over any such run the transactions are those there were and those that completed, and only their links have changed |
| SettlementRaces.LinksStay | backend/core/SettlementEngine.ts:160-167 | in every interleaving of any number of callers, a transaction once linked is never linked elsewhere |
| SettlementRaces.RunFlows | backend/core/SettlementEngine.ts:71-167 | the pending sum after any interleaved run is the sum before plus what completed less what was linked |
| SettlementRaces.GrossMatchesLinksExactly | backend/core/SettlementEngine.ts:119-167 | a payout's gross equals its linked transactions exactly when, between reading and linking, what completed equals what other callers linked |
| SettlementRaces.TwoCallersPayTwice | backend/core/SettlementEngine.ts:119-167 | two callers that read the same sum record it twice |
| SettlementRaces.PayoffIsSteps | backend/core/SettlementEngine.ts:119-180 | a payout with nothing else happening, whatever its calls meet, is the run of its calls |
| SlidingLimiter.Limiter.CheckRateLimit | backend/avpc.ts:191-204 | one check reads from the store its read reaches and rewrites its key's list in the store its write reaches, or nothing when it refuses |
| SlidingLimiter.Limiter.Get | backend/enterprise/infrastructure/RedisManager.ts:16-33 | the list comes from the shared store, or from the process's memory when that call misses it |
| SlidingLimiter.Limiter.Set | backend/enterprise/infrastructure/RedisManager.ts:36-56 | the list is written to the shared store, to memory when that call misses it, or to both when its answer is lost |
| SlidingLimiter.Limiter.Expire | backend/enterprise/infrastructure/RedisManager.ts:36-56 | a deletion that has fallen due empties its key in its store only |
| LimiterRaces.DecidesAsFullLog | backend/avpc.ts:191-204 | in every run without lapses, a check is allowed exactly when fewer than the limit of all accepted times lie in the window that ends with it |
| SlidingLimiter.MissedReadExceeds | backend/enterprise/infrastructure/RedisManager.ts:16-33 | for every limit, one read that misses the full shared list accepts one request too many |
| SlidingLimiter.MissedWriteExceeds | backend/enterprise/infrastructure/RedisManager.ts:36-56 | for every limit, one write that misses the shared store lets one request too many follow |
| SlidingLimiter.MemoryExceeds | backend/enterprise/infrastructure/RedisManager.ts:52-55 | for every limit, memory alone has a run with one request too many in a window, through a deletion timer that is never cancelled |
| LimiterRaces.LimitsExactly | backend/avpc.ts:191-204 | every half-open window of every interleaving holds at most the limit exactly when every read and write reaches the shared store and no check reads while another is between its read and its write, or the limit admits nothing, or the window is empty |
| LimiterRaces.OverlapExceeds | backend/avpc.ts:191-204 | for every limit, two checks that both read before either writes let one request too many through |
| LimiterRaces.CheckIsSteps | backend/avpc.ts:191-204 | a check by itself is the run of its read and its write |
| WafLimiter.Firewall.IsRateLimited | backend/waf.ts:71-84 | one call updates only its address's counter and is limited exactly as specified |
| WafLimiter.AtMostMaxPerCounter | backend/waf.ts:71-84 | a counter lets at most 60 requests through |
| WafLimiter.TwoFullCounters | backend/waf.ts:71-84 | 120 requests let through in a row take more than a window |
| WafLimiter.BoundedExactly | backend/waf.ts:71-84 | a number bounds the requests let through in every closed window of every run exactly when it is at least 119 |
| KeyedTable.PutEachLookup | backend/admin/AdminConfigBootstrapService.ts:638-653 | find-then-write of a list maps each key to its last entry and keeps every other key |
| KeyedTable.PutEachRows | backend/admin/AdminConfigBootstrapService.ts:638-653 | keys stay unique, no row moves or disappears, and new rows are submitted entries |
| KeyedTable.PutEachTwice | backend/admin/AdminConfigBootstrapService.ts:638-653 | writing the same list again changes nothing |
| KeyedTable.PutEachResumes | backend/admin/AdminConfigBootstrapService.ts:638-653 | writing a list after a first attempt stopped anywhere gives what one undisturbed attempt gives |
| AdminConfig.Bootstrap.SaveProviderConfigVersion | backend/admin/AdminConfigBootstrapService.ts:568-610 | a save archives and inserts exactly as specified, with either write failing |
| AdminConfig.Bootstrap.SaveRoutingRules | backend/admin/AdminConfigBootstrapService.ts:612-654 | the loop writes the rules one by one as specified, up to where an error ends it |
| AdminConfig.Bootstrap.SaveRailCapabilities | backend/admin/AdminConfigBootstrapService.ts:465-566 | retirement and upserts as specified, up to where an error ends either, and the number of entries written |
| AdminConfig.VersionsAreNumbered | backend/admin/AdminConfigBootstrapService.ts:578-609 | after any saves by any providers with any failures, a provider's versions are those of its saves that went through, numbered 1 to n in order, each with its own configuration; drafts stay drafts, and the one active version is the last saved as active unless a later attempt archived it and failed |
| AdminConfig.UpperCodeTwice | backend/admin/AdminConfigBootstrapService.ts:7-7 | normalising a code is idempotent |
| AdminConfig.CapabilitiesConverge | backend/admin/AdminConfigBootstrapService.ts:476-565 | each submitted code has a row, which is its last entry: its own status, or that of the save where it has none, in capitals; every other row of the provider is inactive, other providers are untouched, and none is deleted |
| AdminConfig.CapabilitiesSavedTwice | backend/admin/AdminConfigBootstrapService.ts:476-565 | saving the same capabilities again changes nothing |
| AdminConfig.InterruptedCapabilitiesConverge | backend/admin/AdminConfigBootstrapService.ts:465-566 | a save of capabilities that stopped anywhere and is done again ends where an undisturbed save would have |
| AdminConfig.RulesAreLastWins | backend/admin/AdminConfigBootstrapService.ts:616-653 | of the rules with the same rail, operation, country and currency, an empty one of the last two standing for null, the last one submitted is stored; other keys keep theirs, and saving again changes nothing |
| AdminConfig.InterruptedRulesConverge | backend/admin/AdminConfigBootstrapService.ts:612-654 | a save of rules that stopped anywhere and is done again ends where an undisturbed save would have |
| AdminConfig.RoutingConvergesExactly | backend/admin/AdminConfigBootstrapService.ts:616-653 | the provider's routing table becomes what was submitted exactly when every key it had is submitted again |
| AdminConfig.OmittedRuleStays | backend/admin/AdminConfigBootstrapService.ts:616-653 | a routing rule left out of the next configuration stays in force |
| AdminConfig.HistoryKeepsKeys | backend/admin/AdminConfigBootstrapService.ts:465-654 | from empty tables, every history of saves one after another, interrupted anywhere, keeps one row per routing key and per provider and code |
| AdminConfig.HistoryThenRules | backend/admin/AdminConfigBootstrapService.ts:612-654 | after every such history, a finished save of rules decides every key it has and touches neither other keys nor other tables |
| AdminConfig.HistoryThenCapabilities | backend/admin/AdminConfigBootstrapService.ts:465-566 | after every such history, a finished save of capabilities leaves the provider the last entry for each submitted code and everything else inactive, and touches no other table |
| AdminRaces.VersionsStayInOrder | backend/admin/AdminConfigBootstrapService.ts:578-609 | in every interleaving of any number of saves, with any failures and the two unique indexes of database/main.sql:2110-2139, a provider's versions are 1 to n in the order they were inserted, and at most one is active |
| AdminRaces.KeysStayUniqueExactly | backend/admin/AdminConfigBootstrapService.ts:612-654 | in every interleaving, routing keys stay unique exactly when no save finds no row for a key while another has found none and has yet to insert it |
| AdminRaces.TwoSavesDouble | backend/admin/AdminConfigBootstrapService.ts:638-653 | two saves of any rule that both look before either stores leave two rows with its key |
| AdminRaces.DoubledIsNeverSaved | backend/admin/AdminConfigBootstrapService.ts:638-648 | once two rows have a key, whatever follows, looking for the key fails and nothing is saved under it |
| AdminRaces.SaveIsSteps | backend/admin/AdminConfigBootstrapService.ts:568-610 | a save of a version by itself is the run of its statements, each enabled only after the one before, and is never refused by the indexes |
| AdminRaces.RuleSaveIsSteps | backend/admin/AdminConfigBootstrapService.ts:612-654 | a save of a rule by itself is the run of its look and its store |
| AdminConfig.ProductAt | backend/admin/AdminConfigBootstrapService.ts:286-303 | a partner bank's rules are every combination of operation, country and currency, each exactly at its place |

## Left out

- Reading and printing of the selected columns, `ORDER BY`, `LIMIT`, `OFFSET`, `range`, `single`, `RETURNING`, `COUNT` and the shaping of results: text that takes no parameters.
- SqlLexer.OneTestExactly: does not cover a comment or a quote that the spliced text leaves open, nor dollar-quoted and escape strings: such text counts as no single test, and what it makes of the statement behind it is not modelled.
- Letters outside ASCII in upper-casing: only the long s and the dotless i, which become letters of the words that are compared, change case.
- The comparison of two database values: an arbitrary rule over known values; NULL and three-valued logic are modelled.
- Redis streams, consumer groups, the dead-letter stream and the capped recovery query of the broker: only claims and outcomes of jobs are modelled, which may be requested at any time.
- Hashing, token signing and identifier generation: fresh values, and a session row is kept under its token's hash.
- AuthSessions.FamiliesAreChains: covers transactions one after another, as do the other lemmas of AuthSessions; what overlapping transactions leave live, and that a token is exchanged once, is in AuthRaces, while the chain of a whole family is not stated there.
- Locks of the user's own row, which only order the commits of overlapping transactions, and deadlocks, which end one of them: a transaction of AuthRaces may end without a commit at any step.
- Sign-up, profiles, keycloak, biometrics and devices: calls to other services.
- The checks that come before the two allocation loops (trigger type, owner and status of the source transaction, operating wallet): lookups that end the run without touching anything.
- AllocationTargets.MovesWithinExactly: does not cover a run that crosses a month boundary between inserting an event and reading the month, because a run has one month here.
- Goal withdrawals: a guard and one posting, whose laws are those of the ledger.
- Amounts are integers (minor units, or ten-thousandths in the ledger): floating-point error is not modelled, nor stored values with more decimals.
- Ledger.TransactionService.ReverseTransactionWithReason: does not model the note that is written afterwards, nor the notes and metadata of a review lock; the lock's own status update before its last write is a status change by another worker in ReversalGuard.
- Status changes made by other procedures than the status update and the review lock, leases by clock skew, notifications and audit records.
- Payout fees are an input; provider callbacks that finish a payout are not modelled.
- The policies of the access engine other than the rate limit, and the pattern checks of the firewall.
- LimiterRaces.LimitsExactly: takes the clock of a check when it reads the list, although the program looks at the clock just before.
- SweepRaces.NeverExactly: does not cover changes of a goal's threshold or target while a sweep is at work.
- AdminConfig.CapabilitiesConverge: covers saves one after another; two overlapping saves of one provider's capabilities are not modelled.
- The choice of provider row, secrets, foreign-exchange settings and the copied columns of a capability or rule, which are one value here.
