# Nordavix close platform: a verified model

A Dafny model of eight cores of the close platform's backend, each a state
machine, a protocol or a tree walk whose claim spans several functions:

- `Canonical`, `AuditChain`, `AuditLog`, `AuditRecords`: the per-tenant audit hash
  chain. What the verifier's "intact" means, which edits, deletions and reorderings
  survive it, when concurrent writers keep it intact, and that no event is lost.
- `TrialBalance`, `TrialBalanceReport`, `Snapshot` (with `Text`): the trial-balance
  parser as a declarative map, what it reads from which cell, the resolver, and
  conservation into the snapshot table.
- `TokenRefresh`, `TokenHistory`: serialized OAuth token refresh as interleaved callers
  against a server that rotates refresh tokens (section 6 of RFC 6749), and where the
  tokens that calls return and rows store come from.
- `Adjustments`, `AdjustmentDuties`, `PostingCheck`: the adjusting-entry lifecycle and
  segregation of duties over whole runs, the export, the posting check and what it resets.
- `GraphSchema`, `Graph`, `GraphEffects`: the knowledge graph's registry, edges,
  neighbours and bounded walk.
- `RateLimit`: the fixed-window limiter over timed traces with failures.
- `Fiscal`, `GlReport`, `GlReportReading`: fiscal years and year-to-date figures; the two
  general-ledger walkers, the columns they read and the batching of accounts.
- `Tenancy`: tenant scoping as non-interference of whole programs.

Code that updates objects or tables in place is a class whose methods are proved equal
to a step function of the old state; lemmas then speak about steps and about every run of
steps. Amounts are whole cents, instants and identifiers are numbers, text is ASCII.
SHA-256, JSON text, ISO rendering, the decimal reader and the ISO date reader are
parameters. What is assumed of the hash is said in `AuditChain.Sound`: 64 digits, no
collision and no genesis value among the strings actually hashed, one-to-one rendering.

`dafny verify dfyconfig.toml` checks the project.

## Where the code does less than its documentation

- The audit lock's comment says serializing writers prevents a false tamper alarm
  (core/audit/log.py:65-70). The stamp is taken before the lock, so it does not:
  `AuditLog.FalseAlarm` is a two-writer run that raises one, and
  `AuditLog.IntactIffInOrder` is the exact condition.
- The refresh comment says that without a reload the worst case is one extra refresh
  (core/qbo_auth.py:80-85). `TokenRefresh.FailedReloadPostsStale` is a run in which the
  caller posts a token already rotated away, although a fresh one is stored.
- A pull of many accounts promises the shape of a single pull, newest first
  (core/qbo_gl.py:66, 147). Beyond fifty ids the batches are only concatenated:
  `GlReport.SortedExactlyInOneCall`.
- A dismissal reason is stripped and then cut at 500 characters, so it may end in a
  space (modules/adjustments/router.py:289): `Adjustments.ReasonTrimmedExactly`.
- The export says posted entries cannot be imported twice (router.py:853-855). Accepting
  a posted entry is allowed and returns it to the export: `Adjustments.FoundReturnsExactly`.
- Tamper evidence stops at blank hashes. Any rows in place of a prefix of the chain, with
  blank hashes, leave the log intact; they only raise the unchained count
  (`AuditChain.BlankedPrefixSurvives`). Intact with none unchained is what rules edits out:
  `AuditChain.EditIsCaught`.
- A UUID, date or fractional number equals the string it renders to
  (`Canonical.RenderingIsConfused`); `Canonical.CanonIffSame` is the exact condition. A null,
  empty and genesis predecessor are one to the hash, as are absent and empty event data.
- The limiter's bounds hold when no increment reaches the store after its window's counter
  expired. The clock is read before an await, so one may: `RateLimit.LateIncrementStartsAgain`;
  `RateLimit.CountIsExact` is the exact condition.
- A chart account without a row of its own takes the balance of an account rendered under
  its leaf name, which the snapshot then counts twice (`Snapshot.LeafTakesAnother`); a nameless
  account is not written at all (`Snapshot.NamelessIsDropped`). `Snapshot.ConservesExactly` is
  the exact condition for conservation.
- Entries are drafted with balanced lines by the shared producer
  (modules/adjustments/service.py:268-271), but modules/gl_accuracy/service.py:906-925 adds
  lines unchecked. Drafting is therefore unrestricted here; editing never unbalances an entry
  (`Adjustments.LinesAreBalanced`, `Adjustments.BalanceLostExactly`).

## Model

| member | source | states |
|---|---|---|
| Canonical.CanonIdempotent | backend/core/audit/chain.py:47-61 | canonicalising a value twice gives what once gives |
| Canonical.SameCanon | backend/core/audit/chain.py:47-61 | values that differ only in the order of members, at any depth, share a canonical form |
| Canonical.JsonCanonIffSame | backend/core/audit/chain.py:53-60 | on values without renderings, exactly the reorderings of members share a canonical form |
| Canonical.CanonIffSame | backend/core/audit/chain.py:47-61 | for all string-keyed values, those with UUIDs, dates and fractional numbers included: exactly the values that render alike, up to the order of members, share a canonical form |
| Canonical.RenderingIsConfused | backend/core/audit/chain.py:49-61 | so a rendered value and its text, which are different, share a form |
| Canonical.RepeatedKeyTakesLast | backend/core/audit/chain.py:55-56 | where keys of a dictionary render alike the last one listed decides, at its own canonical value; no key is lost or invented |
| AuditChain.VerifyChain | backend/core/audit/chain.py:111-181 | verified, unchained and broken rows add up to all rows; the breaks are exactly the failing rows; intact holds exactly when the hashed rows rehash and link; the head is the last row's hash, hashed or not |
| AuditChain.BreaksAreVerdicts | backend/core/audit/chain.py:131-171 | a break is reported at a position exactly when that row's content fails or does not link to the hashed row before it |
| AuditChain.NoBreaksIsOk | backend/core/audit/chain.py:131-178 | no breaks is the same as every hashed row rehashing and linking to its predecessor |
| AuditChain.VerdictMeans | backend/core/audit/chain.py:131-171 | a row is altered exactly when its hash is not that of its content and predecessor, unlinked exactly when it is but does not name the hash of the nearest hashed row before it |
| AuditChain.RowHashIs | backend/core/audit/chain.py:98-108 | the hash is taken of the predecessor followed by the fingerprint; absent, blank and genesis predecessors give one hash |
| AuditChain.PayloadSays | backend/core/audit/chain.py:76-91 | the fingerprint covers version 1 and every field; absent event data counts as an empty object |
| AuditChain.EqualHashes | backend/core/audit/chain.py:64-108 | rows with equal stored hashes that rehash have equal content and equal predecessor |
| AuditChain.PayloadFields | backend/core/audit/chain.py:64-95 | equal serialisations mean equal fields, event data up to the order of members and the rendering of what is not JSON, and conversely |
| AuditChain.PinnedHead | backend/core/audit/chain.py:98-181 | against a published head a log is intact exactly when its hashed rows are record for record a suffix of the honest chain, the whole of it when they start at genesis |
| AuditChain.EditIsCaught | backend/core/audit/chain.py:131-178 | a log as long as the honest chain with the last row standing is intact exactly when its hashed rows are the last ones of the chain, and intact with none unchained exactly when no row was edited |
| AuditChain.BlankedPrefixSurvives | backend/core/audit/chain.py:132-137 | any rows in place of a prefix, their hashes blank, leave the log intact and are only counted as unchained |
| AuditChain.ForgedFirstRow | backend/core/audit/chain.py:132-137 | for one: the first row rewritten and its hash blanked, in any chain of two rows or more, is reported intact |
| AuditChain.SelectionIsSegment | backend/core/audit/chain.py:151-171 | rows picked from an honest chain in any order and number are intact exactly when they are one contiguous segment |
| AuditChain.DeletionIsCaught | backend/core/audit/chain.py:158-166 | a gap inside the remaining rows breaks the chain |
| AuditChain.PermutationIsIdentity | backend/core/audit/chain.py:158-178 | a reordering of a whole honest chain is intact only as the chain itself |
| AuditChain.HashesDiffer | backend/core/audit/chain.py:98-108 | no two rows of an honest chain have the same hash |
| AuditLog.AuditDb.constructor | backend/core/audit/log.py:41-53 | a new log is empty, with no transaction open and the lock free |
| AuditLog.AuditDb.StampEntry | backend/core/audit/log.py:41-53 | an entry is made with the clock's instant before any lock is taken |
| AuditLog.AuditDb.TakeLock | backend/core/audit/log.py:78-84 | the tenant's lock passes to the transaction |
| AuditLog.AuditDb.ChainEntry | backend/core/audit/log.py:89-112 | the entry links to the head in (created_at, id) order as its transaction sees it, is hashed and flushed |
| AuditLog.AuditDb.WriteUnchained | backend/core/audit/log.py:113-117 | after a failure the entry is written without a hash |
| AuditLog.AuditDb.CommitTxn | backend/core/audit/log.py:55-59 | the transaction's rows become visible to all and the lock is released |
| AuditLog.AuditDb.RollbackTxn | backend/core/audit/log.py:55-59 | the transaction's rows vanish and the lock is released |
| AuditLog.RunKeeps | backend/core/audit/log.py:62-117 | in every reachable state row ids are unique and each hashed row links to the head its writer saw |
| AuditLog.IntactIffInOrder | backend/core/audit/log.py:62-117 | in every reachable state the verifier, reading by (created_at, id), reports intact exactly when the hashed rows were committed in that order; then they form one honest chain |
| AuditLog.TurnsKeepOrder | backend/core/audit/log.py:41-53 | if each entry is stamped after all hashed rows its writer sees, commit order is stamp order |
| AuditLog.NeverForks | backend/core/audit/log.py:62-77 | with any writers, interleavings, rollbacks and hashing failures, stamps in lock order keep the committed log intact |
| AuditLog.FalseAlarm | backend/core/audit/log.py:49-53 | two writers that stamp in one order and lock in the other leave a log that is reported broken |
| AuditRecords.FailWritesUnhashed | backend/core/audit/log.py:57-57 | an entry whose hashing failed is written behind the rows before it, with its content and without a hash |
| AuditRecords.ChainWritesHashed | backend/core/audit/log.py:89-112 | a chained entry is written with its content, linked to the head and hashed over that link |
| AuditRecords.EndFreesLock | backend/core/audit/log.py:55-59 | the end of a transaction frees its own lock only; a commit publishes its rows, a rollback none |
| AuditRecords.LogIsWhatWasWritten | backend/core/audit/log.py:41-117 | over every run the committed log is, entry for entry and in commit order, what was stamped and written in the transactions that committed, hashed or not |
| AuditRecords.CommittedOfIs | backend/core/audit/log.py:41-117 | an entry is among those exactly when it was stamped, then written, and its transaction committed before ending in any other way |
| AuditRecords.CommittedOnce | backend/core/audit/log.py:41-117 | and it is there once |
| AuditRecords.BeforeMeans | backend/core/audit/log.py:92-92 | the head query orders by instant and, within one, by id |
| AuditRecords.HeadIsLast | backend/core/audit/log.py:89-95 | the head is the hash of the hashed row behind all others in that order |
| TokenRefresh.AuthService.EnterCall | backend/core/qbo_auth.py:69-72 | a caller with a fresh token returns it; any other waits on the realm's one lock |
| TokenRefresh.AuthService.EnterLock | backend/core/qbo_auth.py:73-78 | inside the lock a token made fresh meanwhile ends the call |
| TokenRefresh.AuthService.ReloadConn | backend/core/qbo_auth.py:86-91 | a reload takes over the stored tokens and ends the call when they are fresh; a failed one goes on |
| TokenRefresh.AuthService.PostRefresh | backend/core/qbo_auth.py:93-105 | the object's refresh token is sent and the instant noted |
| TokenRefresh.AuthService.ReceiveReply | backend/core/qbo_auth.py:108-111 | access token, refresh token (kept when none is sent) and expiry are taken from the reply |
| TokenRefresh.AuthService.CommitConn | backend/core/qbo_auth.py:112-113 | the object's tokens reach the database and the lock is free |
| TokenRefresh.AuthService.RefuseCall | backend/core/qbo_auth.py:106-107 | a refused request ends the call, changes no token and frees the lock |
| TokenRefresh.StepKeeps | backend/core/qbo_auth.py:48-113 | every step keeps: a held lock has exactly one caller inside, and a caller that reloaded agrees with the row |
| TokenRefresh.AtMostOneRefreshing | backend/core/qbo_auth.py:65-68 | in every reachable state at most one caller of a realm is between POST and commit |
| TokenRefresh.SyncLostExactly | backend/core/qbo_auth.py:93-113 | stored and server token stay in step exactly while no issued token is thrown away |
| TokenRefresh.StoredIsCurrent | backend/core/qbo_auth.py:93-113 | in such runs the stored refresh token is the server's whenever no caller is between POST and commit |
| TokenRefresh.PostSendsCurrent | backend/core/qbo_auth.py:79-105 | a POST sends the server's current token exactly when the object agrees with the row, as after a reload; after a reload none is sent while the stored token is fresh |
| TokenRefresh.EveryPostIsCurrent | backend/core/qbo_auth.py:65-113 | while reloads work and no issued token is thrown away, every POST of any run sends the server's current token, and none is sent while the stored one is fresh |
| TokenRefresh.NoPostWhileFresh | backend/core/qbo_auth.py:69-91 | once quiet with a fresh stored token, a realm stays quiet while it is fresh, whatever callers come, if reloads work |
| TokenRefresh.RefreshedOnce | backend/core/qbo_auth.py:66-68 | after a commit nobody posts for the realm until that token is within five minutes of expiry, if reloads work |
| TokenRefresh.FailedReloadPostsStale | backend/core/qbo_auth.py:79-91 | a failed reload lets a caller post a token rotated away |
| TokenHistory.FreshMeans | backend/core/qbo_auth.py:57-62 | a token is fresh when more than five minutes are left |
| TokenHistory.ReplyIsStored | backend/core/qbo_auth.py:108-113 | after an accepted reply and its commit the call returns the reply's access token, and the row has it, its refresh token (the held one when none is sent) and an expiry counted from the POST |
| TokenHistory.FinishedReturnsHeld | backend/core/qbo_auth.py:69-113 | whichever way a call ends it returns the access token its object then holds, which is fresh or was just committed |
| TokenHistory.FreshEndsTheCall | backend/core/qbo_auth.py:69-78 | a fresh token ends the call on entering and inside the lock; any other call waits and then holds its realm's lock |
| TokenHistory.ReloadTakesRow | backend/core/qbo_auth.py:86-88 | a reload takes over the whole row, and ends the call exactly when it is fresh |
| TokenHistory.GivingUp | backend/core/qbo_auth.py:106-107 | a call that fails changes no token and frees its lock |
| TokenHistory.CommitStoresReply | backend/core/qbo_auth.py:92-113 | in every run a commit stores and returns what the server answered this caller's own request for this realm |
| TokenHistory.RowIsLastReply | backend/core/qbo_auth.py:92-113 | in every run a row stores what the last committed reply of its realm issued, and before any what it had |
| TokenHistory.CallsReturnIssuedTokens | backend/core/qbo_auth.py:65-113 | in every run a call returns an access token its realm had at the start or was issued, and it is fresh or was issued to this call |
| TrialBalance.TbParser.ClaimAlias | backend/core/qbo_tb.py:201-209 | an alias goes to its first owner; a second owner makes it ambiguous and changes no balance |
| TrialBalance.TbParser.Record | backend/core/qbo_tb.py:224-242 | a line updates totals, its id, its own name and its aliases |
| TrialBalance.TbParser.ClaimAliases | backend/core/qbo_tb.py:236-242 | the aliases claimed are the collapsed name, the leaf and a leading number |
| TrialBalance.TbParser.Walk | backend/core/qbo_tb.py:211-246 | the walk of a tree is the scan of its lines in order |
| TrialBalance.TbParser.WalkRow | backend/core/qbo_tb.py:213-246 | one row's own line, then those nested under it |
| TrialBalance.ParseTrialBalance | backend/core/qbo_tb.py:167-255 | for every report tree the maps and totals are the declarative ones: a rendered name has its own balance, another alias that of the one name deriving it or none |
| TrialBalance.ScanKnows | backend/core/qbo_tb.py:201-246 | after any lines owners, balances and ambiguity of every key are what the lines' names say |
| TrialBalance.DropGivesMeaning | backend/core/qbo_tb.py:250-251 | dropping ambiguous aliases but not rendered names leaves exactly the keys that resolve |
| TrialBalance.RowOrderIrrelevant | backend/core/qbo_tb.py:193-251 | when each rendered name has one balance the name map is the same for every order of the rows |
| TrialBalance.MovedLast | backend/core/qbo_tb.py:232-235 | a row moved last decides the balance of its name |
| TrialBalance.OrderIrrelevantExactly | backend/core/qbo_tb.py:193-251 | for every list of rows: all its orders give the same name map exactly when each rendered name has one balance |
| TrialBalance.LookupIsSound | backend/core/qbo_tb.py:269-307 | a balance found is the id's, the rendered row's or the only deriving row's; none is found exactly when nothing resolves |
| TrialBalanceReport.RowIsRead | backend/core/qbo_tb.py:213-227 | a row counts exactly when its name is neither blank nor a summary's; its debit is in the second column, its credit in the third |
| TrialBalanceReport.SummaryExactly | backend/core/qbo_tb.py:219-221 | a summary is a name starting with one of the four words, in any case |
| TrialBalanceReport.LinesAreAccounts | backend/core/qbo_tb.py:211-246 | the parser reads the account rows, each before those nested under it, once each |
| TrialBalanceReport.TotalsAreColumns | backend/core/qbo_tb.py:222-227 | for every report the totals are the sums of the second and third columns over the account rows |
| TrialBalanceReport.BalanceIsColumns | backend/core/qbo_tb.py:224-233 | the balance under an id or name is second column less third of the last account row with it |
| TrialBalanceReport.IdsAreColumns | backend/core/qbo_tb.py:228-229 | an id is known exactly when an account row has it |
| TrialBalanceReport.LeafIsAlias | backend/core/qbo_tb.py:237-238 | the text behind the last colon is an alias |
| TrialBalanceReport.NumberIsAlias | backend/core/qbo_tb.py:239-242 | a leading number, with dashes or dots in it, is an alias |
| TrialBalanceReport.OnlyThoseAreAliases | backend/core/qbo_tb.py:236-242 | and beside the collapsed name nothing else is |
| TrialBalanceReport.LookupOrder | backend/core/qbo_tb.py:289-307 | which of the id, the number and the six name forms decides, in terms of what the report answers to each |
| Snapshot.SnapshotDb.CaptureAccount | backend/core/gl_snapshot.py:124-171 | one account updates or adds exactly its row and notes a balance-sheet miss |
| Snapshot.SnapshotDb.CaptureSnapshot | backend/core/gl_snapshot.py:80-188 | the whole chart is written, counted and its misses listed in order; without a connection nothing is written; a failed pull or commit leaves the table as it was and says so |
| Snapshot.ChartHolds | backend/core/gl_snapshot.py:107-107 | the chart holds, once, exactly the last account listed under each id |
| Snapshot.CapturedAt | backend/core/gl_snapshot.py:124-171 | under each listed account's key stands that account's row; every other row is untouched |
| Snapshot.RowsAreStored | backend/core/gl_snapshot.py:124-171 | after a capture a named account's row holds what the resolver found, or zero; a nameless account's row is as before |
| Snapshot.RecaptureChangesNothing | backend/core/gl_snapshot.py:114-171 | capturing the same report again changes nothing |
| Snapshot.SnapshotConserves | backend/core/gl_snapshot.py:124-171 | the table's rows of the listed accounts add up to the report's imbalance, plus what accounts outside the report picked up, plus the exact correction for nameless accounts; with all named and nothing picked up, to the imbalance |
| Snapshot.ConservesExactly | backend/core/gl_snapshot.py:124-171 | with all accounts named, the table conserves the report for every choice of its amounts exactly when no listed account outside the report resolves |
| Snapshot.NamelessIsDropped | backend/core/gl_snapshot.py:131-132 | a nameless account of the report is missing from the table, and the sum with it |
| Snapshot.LeafTakesAnother | backend/core/qbo_tb.py:293-306 | an account without a row takes the balance of the row rendered under its name |
| Snapshot.SnapSays | backend/core/gl_snapshot.py:125-170 | a row carries the stripped number, name and type and the balance found |
| Snapshot.MissesAre | backend/core/gl_snapshot.py:131-144 | the misses are the named balance-sheet accounts not resolved, in the chart's order; the count is of the named accounts |
| Snapshot.LabelSays | backend/core/gl_snapshot.py:143-143 | a miss is labelled with its number and most specific name |
| Snapshot.PutInPlace | backend/core/gl_snapshot.py:107-107 | an account listed again takes the place of the first |
| Adjustments.AdjustmentStore.Transition | backend/modules/adjustments/router.py:157-225 | which guard refuses, and the fields a transition assigns |
| Adjustments.AdjustmentStore.AcceptProposal | backend/modules/adjustments/router.py:250-262 | accepting is a reviewer's step under maker/checker |
| Adjustments.AdjustmentStore.DismissProposal | backend/modules/adjustments/router.py:271-298 | dismissal needs a reason of three characters, cut at 500 |
| Adjustments.AdjustmentStore.MarkPostedProposal | backend/modules/adjustments/router.py:301-312 | marking posted from any status |
| Adjustments.AdjustmentStore.ReopenProposal | backend/modules/adjustments/router.py:315-340 | only an accepted entry reopens, and it leaves its saved batch |
| Adjustments.AdjustmentStore.EditProposal | backend/modules/adjustments/router.py:346-390 | only an open entry is edited, with balanced lines; the editor becomes its preparer |
| Adjustments.AdjustmentStore.SaveBatch | backend/modules/adjustments/router.py:792-842 | every entry not dismissed is stamped, once, when none is open |
| Adjustments.AdjustmentStore.CheckPostedEntries | backend/modules/adjustments/router.py:1020-1081 | saved entries found in QuickBooks keep the proof and become posted |
| Adjustments.AdjustmentStore.ExportCsv | backend/modules/adjustments/router.py:846-876 | the file holds exactly the saved and still accepted entries of the period, and there is none when no entry is |
| Adjustments.MovedKeeps | backend/modules/adjustments/router.py:157-225 | a transition its guards let through keeps the lifecycle of its entry |
| Adjustments.StepEntryOk | backend/modules/adjustments/router.py:157-225 | every request keeps the lifecycle of every entry |
| Adjustments.LifecycleHolds | backend/modules/adjustments/router.py:157-390 | in every reachable state: saved means accepted or posted; open means no approver, reason or batch; accepted means an approver; dismissed means a reason of 3 to 500 characters; an entry approved by its preparer was approved by an admin |
| Adjustments.LinesAreBalanced | backend/modules/adjustments/router.py:370-378 | in every reachable state an entry's lines balance or are still those it was drafted with |
| Adjustments.BalanceLostExactly | backend/modules/adjustments/router.py:370-378 | balance of all entries is lost exactly by drafting an unbalanced one |
| Adjustments.ClosedUnchanged | backend/modules/adjustments/router.py:169-177 | no endpoint changes an entry while its period is closed |
| Adjustments.ReasonTrimmedExactly | backend/modules/adjustments/router.py:289-289 | the stored reason is trimmed exactly when the cut does not fall behind a space |
| Adjustments.FoundReturnsExactly | backend/modules/adjustments/router.py:859-867 | an entry found in QuickBooks leaves posted only by being accepted, and is then exported again |
| Adjustments.FoundNeverExported | backend/modules/adjustments/router.py:852-867 | in a run that never accepts a found entry none is exported |
| Adjustments.ConfirmationStays | backend/modules/adjustments/router.py:1055-1067 | the proof of posting is never erased |
| AdjustmentDuties.EditorCannotAccept | backend/modules/adjustments/router.py:192-390 | whoever edits an entry, unless an admin, is then refused its approval |
| AdjustmentDuties.PreparerIsLastEditor | backend/modules/adjustments/router.py:380-390 | in every reachable state the preparer is the user of the last edit let through, and nobody without one |
| AdjustmentDuties.LastEditorIsRefused | backend/modules/adjustments/router.py:185-201 | in every run the last editor, unless an admin, is refused until somebody else edits |
| AdjustmentDuties.UneditedIsApprovable | backend/modules/adjustments/service.py:331-333 | an entry nobody edited may be approved by any reviewer |
| AdjustmentDuties.AcceptExactly | backend/modules/adjustments/router.py:169-262 | an approval goes through exactly for a reviewer or admin, in an open period, and but for an admin not for the preparer |
| AdjustmentDuties.DismissExactly | backend/modules/adjustments/router.py:169-298 | a dismissal goes through exactly for a reviewer or admin with a reason, on an unsaved entry of an open period |
| AdjustmentDuties.OthersExactly | backend/modules/adjustments/router.py:301-376 | exactly when posting, reopening and editing go through |
| AdjustmentDuties.SaveExactly | backend/modules/adjustments/router.py:792-822 | a batch is saved exactly when its period is open and its entries, of which there are some, are all decided |
| AdjustmentDuties.RefusalsInOrder | backend/modules/adjustments/router.py:169-360 | role, absence, reason and closed period are refused in this order |
| AdjustmentDuties.DecisionEffects | backend/modules/adjustments/router.py:209-224 | approval stamps its reviewer, dismissal the reason, posting the status, and nothing else changes |
| AdjustmentDuties.ChangeEffects | backend/modules/adjustments/router.py:202-390 | reopening withdraws approval, reason and batch but keeps the preparer; an edit replaces lines and preparer |
| AdjustmentDuties.SaveEffects | backend/modules/adjustments/router.py:824-830 | every entry in play ends saved, at the instant first saved |
| AdjustmentDuties.CheckEffects | backend/modules/adjustments/router.py:1053-1070 | exactly the saved entries found are confirmed, with a hundred characters of the document |
| AdjustmentDuties.ExportedExactly | backend/modules/adjustments/router.py:859-867 | exactly the saved and accepted entries of the period are exported |
| AdjustmentDuties.TwoLinesBalance | backend/modules/adjustments/service.py:131-137 | two lines balance when debits are positive and within a cent of credits; fewer never do |
| Adjustments.PartitionBooked | backend/modules/adjustments/router.py:579-615 | the booked entries and their three dispositions |
| Adjustments.PartsAreExact | backend/modules/adjustments/service.py:294-322 | the dispositions split the booked entries; exactly those never found are applied on the baseline |
| PostingCheck.CloseDb.ReopenRecons | backend/modules/adjustments/router.py:888-939 | the reconciliations of the accounts at the period that had left pending are reset, all others kept |
| PostingCheck.CloseDb.ReopenFlux | backend/modules/adjustments/router.py:942-1001 | variances with work to undo are reset and exactly their analyses un-signed |
| PostingCheck.CloseDb.CheckPosted | backend/modules/adjustments/router.py:1004-1100 | resets happen exactly when every saved entry is posted, on exactly the accounts they touch |
| PostingCheck.ResetOnce | backend/modules/adjustments/router.py:888-1001 | a second reset finds nothing to do; rows of other accounts or periods, and analyses of other periods or without such a row, are untouched |
| PostingCheck.ReconsAreClear | backend/modules/adjustments/router.py:911-930 | a reset reconciliation is pending with nothing left but its account and period |
| PostingCheck.VariancesAreClear | backend/modules/adjustments/router.py:966-1001 | a reset variance is pending with nothing left, and the analysis it had work in is un-signed |
| PostingCheck.AffectedExactly | backend/modules/adjustments/router.py:1093-1097 | an account is affected exactly when a saved entry of the period has a line on it |
| PostingCheck.PostedExactly | backend/modules/adjustments/router.py:1082-1092 | resets wait until every saved entry of the period is posted |
| GraphSchema.InversePointsBack | backend/core/graph/schema.py:145-151 | every relation's inverse exists and points back |
| GraphSchema.PermittedFromBothEnds | backend/core/graph/schema.py:129-142 | a triple is permitted exactly when its inverse triple is |
| GraphSchema.PermittedExactly | backend/core/graph/schema.py:129-142 | a triple is permitted exactly when the registry lists both ends; the error names the first thing wrong |
| GraphSchema.EntryTriples | backend/core/graph/schema.py:71-91 | what a journal entry may explain, be considered for and affect |
| GraphSchema.SupportTriples | backend/core/graph/schema.py:94-101 | what supports a reconciliation, is found on an account or belongs to a period |
| GraphSchema.WorkTriples | backend/core/graph/schema.py:103-110 | what may block, be covered and be documented |
| GraphSchema.Inverses | backend/core/graph/schema.py:71-112 | each relation's inverse; only the catch-all is its own |
| Graph.GraphStore.Link | backend/core/graph/service.py:66-130 | the errors in order; otherwise the one live edge of the triple is returned with the attributes given, and the table is as `Stored` says |
| Graph.GraphStore.Store | backend/core/graph/service.py:88-118 | an existing live edge is refreshed, otherwise one is added |
| Graph.GraphStore.Unlink | backend/core/graph/service.py:133-160 | true exactly when a live edge existed; none is left; the row stays with its deletion time |
| Graph.LinkKeeps | backend/core/graph/service.py:66-130 | a link keeps one live edge per triple, permitted triples only, and history |
| Graph.UnlinkKeeps | backend/core/graph/service.py:133-160 | an unlink keeps the same and leaves no live edge of the triple |
| Graph.LinkIdempotent | backend/core/graph/service.py:77-105 | linking again changes nothing |
| Graph.RunKeeps | backend/core/graph/service.py:66-160 | over every run at most one live edge per tenant and triple, only permitted triples, and soft-deleted rows never change |
| Graph.GraphStore.NeighborsOf | backend/core/graph/service.py:163-205 | outbound then inbound neighbours, filtered on the stored relation, cut at the limit |
| Graph.NeighborsAre | backend/core/graph/service.py:179-203 | the neighbours are exactly the live edges at the node, each read from its end |
| Graph.BothEndsAgree | backend/core/graph/service.py:180-203 | m is an outbound neighbour of n under r exactly when n is an inbound neighbour of m under the inverse |
| Graph.GraphStore.Subgraph | backend/core/graph/service.py:208-267 | the answer lies in the ball of the clamped depth, is connected through its own edges and has min(ball, cap) nodes; when the ball fits it is the ball with exactly the edges incident to the ball one smaller |
| Graph.GraphStore.Query | backend/core/graph/service.py:229-239 | the live edges at a node |
| Graph.GraphStore.Expand | backend/core/graph/service.py:240-249 | a node's edges are all kept; neighbours are queued while there is room, all of them if none was turned away |
| Graph.GraphStore.Round | backend/core/graph/service.py:226-250 | one round carries the walk from radius k to radius k + 1 |
| Graph.WalkResult | backend/core/graph/service.py:250-252 | stopping on an empty frontier loses nothing |
| Graph.PathStaysInBall | backend/core/graph/service.py:215-218 | what a path of k edges reaches is in the ball of radius k |
| Graph.BallHasPaths | backend/core/graph/service.py:215-218 | every node of the ball is reached by such a path |
| GraphEffects.LinkEffects | backend/core/graph/service.py:77-118 | a link adds one row as asked for, or gives the live row new attributes and keeps its origin; nothing else changes |
| GraphEffects.UnlinkEffects | backend/core/graph/service.py:143-160 | an unlink stamps the live row's deletion and changes nothing else |
| GraphEffects.OutwardAre | backend/core/graph/service.py:180-190 | outward neighbours, row by row: the tenant's live rows from the node with a relation asked for, as stored |
| GraphEffects.InwardAre | backend/core/graph/service.py:192-203 | inward neighbours, row by row, under the inverse of the stored relation |
| GraphEffects.LimitIs | backend/core/graph/service.py:205-205 | the limit cuts from the front, below zero from the end |
| GraphEffects.DepthAndRoom | backend/core/graph/service.py:220-248 | depth is brought into one to three, and the node itself always has room |
| GraphEffects.OneStepIs | backend/core/graph/service.py:229-247 | two nodes are a step apart exactly when a live row of the tenant joins them, either way |
| RateLimit.Limiter.CheckRateLimit | backend/core/ratelimit/limiter.py:34-62 | verdict and new counters for every failure, with the clock read before the increment lands; a refusal says how long to wait, and that wait reaches the next window |
| RateLimit.WaitReachesNextWindow | backend/core/ratelimit/limiter.py:55-57 | waiting `retry_after` reaches the next window and any shorter whole wait does not |
| RateLimit.CountIsExact | backend/core/ratelimit/limiter.py:50-54 | for every trace: a window's count is right at every moment exactly when none of its increments reaches the store after its counter expired |
| RateLimit.CounterOutlives | backend/core/ratelimit/limiter.py:52-54 | however late its EXPIRE comes, a counter outlives its window |
| RateLimit.PromptIsNeverLate | backend/core/ratelimit/limiter.py:47-54 | increments that land before their window ends never find it expired |
| RateLimit.LateIncrementStartsAgain | backend/core/ratelimit/limiter.py:47-54 | without that a window of limit one admits two, no failure involved |
| RateLimit.PassesExactly | backend/core/ratelimit/limiter.py:50-62 | when no increment is late, a request passes exactly when its check failed or fewer than the limit were counted before it |
| RateLimit.WindowAdmits | backend/core/ratelimit/limiter.py:34-39 | when no increment is late, each window admits min(limit, arrivals); failures add at most one each |
| RateLimit.AtMostTwice | backend/core/ratelimit/limiter.py:5-8 | when no increment is late, any interval of one window's length admits at most twice the limit, plus failures |
| RateLimit.TwiceIsReached | backend/core/ratelimit/limiter.py:5-8 | for every limit and window a trace without failures or late increments reaches that bound |
| RateLimit.CounterEffects | backend/core/ratelimit/limiter.py:51-54 | an increment adds one and keeps the expiry, or starts again; an EXPIRE ends the counter one window later and not before |
| RateLimit.SlotSpans | backend/core/ratelimit/limiter.py:47-49 | a window spans exactly one window length from a multiple of it |
| Fiscal.ParseFye | backend/core/fiscal.py:31-50 | the result is always a month and a day of it, 29 February included |
| Fiscal.FyeRoundTrip | backend/core/fiscal.py:31-50 | every year end written MM-DD is read back |
| Fiscal.FyeExactly | backend/core/fiscal.py:41-50 | a setting that does not name a month and a day of it, blank or absent ones included, means 31 December |
| Fiscal.FyeIsRead | backend/core/fiscal.py:44-48 | a setting of two numbers around one dash, a month and a day of it, is read |
| Fiscal.YearIsTwelveMonths | backend/core/fiscal.py:53-70 | for every setting the dates of one fiscal year are exactly the twelve months from its start |
| Fiscal.StartExists | backend/core/fiscal.py:66-70 | the start is missing only before the opening month of year 1 |
| Fiscal.YearClosesInItsMonth | backend/core/fiscal.py:64-70 | the twelfth month from every year start is the month of the setting |
| Fiscal.NextYearOpensExactly | backend/core/fiscal.py:64-70 | from one day to the next the fiscal year changes exactly at the end of the year-end month, and then that next day is its first |
| Fiscal.DecemberIsCalendar | backend/core/fiscal.py:60-62 | a December year end gives the calendar year |
| Fiscal.YtdDifference | backend/core/fiscal.py:73-81 | the difference of two year-to-date figures is the activity between, less what was booked from one year start to the other |
| Fiscal.DifferenceIsActivityExactly | backend/core/fiscal.py:73-81 | differencing is right on every ledger exactly when both dates share a fiscal year |
| Fiscal.OpeningMonthExactly | backend/core/fiscal.py:84-93 | year-to-date is the month's activity on every ledger exactly in the opening month |
| GlReport.ReadRoles | backend/core/qbo_gl.py:88-95 | each column with a role is mapped to it, and no other |
| GlReport.RowToTxn | backend/core/qbo_gl.py:261-284 | each field is the last column of its role, the id the first under a column with a role; empty rows are dropped |
| GlReport.PlainWalker.Walk | backend/core/qbo_gl.py:99-112 | the single-account walk appends the tree's transactions in order |
| GlReport.TaggedWalker.Walk | backend/core/qbo_gl.py:208-236 | the multi-account walk appends them with the account in force |
| GlReport.ParseReport | backend/core/qbo_gl.py:86-114 | the single-account parse, newest first |
| GlReport.ParseReportWithAccount | backend/core/qbo_gl.py:189-238 | the multi-account parse, newest first |
| GlReport.WalkersAgree | backend/core/qbo_gl.py:86-238 | without its tags the multi-account parse is the single-account parse, rows and order, for every report |
| GlReport.TagsAreNearest | backend/core/qbo_gl.py:208-236 | each row's id and name come independently from the nearest enclosing Section that gives one |
| GlReport.SortIsStable | backend/core/qbo_gl.py:113-113 | sorting orders by date and keeps the order of rows within a date |
| GlReport.SortIsUnique | backend/core/qbo_gl.py:113-113 | those two facts determine the sorted list |
| GlReport.PullMulti | backend/core/qbo_gl.py:135-186 | the answers of the batches, in order; a failed call contributes nothing |
| GlReport.BatchesCover | backend/core/qbo_gl.py:157-167 | each id is asked for exactly once, at most fifty to a call |
| GlReport.SortedExactlyInOneCall | backend/core/qbo_gl.py:147-167 | the whole answer is newest first for every response exactly when fifty ids or fewer are asked for |
| GlReportReading.RequestedColumns | backend/core/qbo_gl.py:241-250 | the seven columns asked for are read by type, whatever their title |
| GlReportReading.UntypedColumns | backend/core/qbo_gl.py:251-258 | a column without a type is read by its title, in this order of words |
| GlReportReading.StandardRow | backend/core/qbo_gl.py:261-284 | what a row under the seven columns says, cell by cell, and when it says nothing |
| GlReportReading.RowsRead | backend/core/qbo_gl.py:103-106 | which rows are read: data or ungrouped, not headed by a total or running balance |
| GlReportReading.PlainAre | backend/core/qbo_gl.py:99-112 | rows are taken in order, each before those under it |
| GlReportReading.ChainsAreNested | backend/core/qbo_gl.py:208-236 | each transaction is found in the last row of a chain that goes down one nesting at a time |
| GlReportReading.NearestIs | backend/core/qbo_gl.py:212-221 | the id, and the name, come from the last Section of that chain whose header gives one |
| GlReportReading.CallsMade | backend/core/qbo_gl.py:157-167 | one call for every fifty ids begun |
| GlReportReading.AnswersAre | backend/core/qbo_gl.py:157-186 | answers stand in the order of the calls |
| GlReportReading.OneAnswerIs | backend/core/qbo_gl.py:171-186 | each is newest first, or empty when the call failed |
| Tenancy.Session.Execute | backend/core/db/session.py:84-119 | without an ambient tenant a select is refused; with one it returns, in store order, exactly the rows asked for that belong to it |
| Tenancy.Session.AssertTenantOwns | backend/core/db/session.py:140-175 | the check passes exactly when the pinned or ambient tenant owns the row, and leaves the ambient tenant alone |
| Tenancy.Session.Run | backend/core/db/base.py:51-79 | programs of scopes, selects, edits, purges and exceptions run as `Exec` says |
| Tenancy.AmbientRestored | backend/core/db/base.py:73-79 | the ambient tenant is restored on every exit, by exception too |
| Tenancy.ReadOnlyWritesNothing | backend/core/db/session.py:85-137 | a read-only request leaves the store as it was |
| Tenancy.ReadOnlyHandlers | backend/core/db/session.py:85-137 | such code in a read-only request writes nothing, however long it runs |
| Tenancy.ProgramsAreIsolated | backend/core/db/session.py:65-175 | a run gives the same results with other tenants' rows removed, and those rows are unchanged |
| Tenancy.HandlersAreIsolated | backend/core/db/session.py:65-175 | any number of steps of code that chooses each statement from what it has read: the same reads, choices and outcome with other tenants' rows removed, and those rows unchanged |
| Tenancy.SameView | backend/core/db/session.py:65-119 | databases that agree on a program's tenants cannot be told apart by it |
| Tenancy.SameViewSameReads | backend/core/db/session.py:65-119 | such code cannot tell apart databases that agree on its tenants |
| Tenancy.PurgeSparesOthersExactly | backend/core/db/session.py:140-160 | a bulk delete spares other tenants exactly when none of their rows hangs from the checked parent |
| Tenancy.SelectShows | backend/core/db/base.py:73-79 | a scope shows its body that tenant's rows asked for and nobody else's after it; a null scope is refused unrun |
| Tenancy.WritesExactly | backend/core/db/session.py:85-175 | exactly when an edit and a purge go through, and that they then do what they say and otherwise nothing |
| Tenancy.EditedAt | backend/core/db/session.py:94-119 | an edit sets the value of exactly the ambient tenant's rows asked for, in place |
| Tenancy.InSequence | backend/core/db/base.py:75-79 | after an exception the rest does not run; a caught one undoes nothing |

## Left out

- HTTP, QuickBooks, Postgres and Redis transport, JSON, authentication: each is the result it returns.
- SHA-256, JSON text, ISO rendering, decimal and date readers: parameters; Unicode white space, digits and case folding beyond ASCII.
- Audit: the advisory lock's hash collisions between tenants and the tenant filter of the head query; one tenant's log is modelled.
- TokenRefresh: the lock is per process, and so is the model; two server processes refreshing one realm, and two rows for one realm, are not modelled.
- TrialBalance: fetching the report, and the unused P&L fetch; a cell value that is not text.
- Snapshot: `captured_at`; rounding to cents, since amounts are cents.
- Adjustments: `normalize_lines`, descriptions, memos, `status_changed_by` and `saved_by`; audit events, client memory and `sync_entry_graph`, which are side effects on other tables; the matcher is the map of entries it found; 400 and 502 answers of the QuickBooks connection.
- Adjustments: creating, discarding and closing are actions of the environment; the statement totals around the partition are not modelled.
- Graph: `created_by`, the audit event of a user's link, and the order of a set's listing; the rows of the walk are a set, as ids are unique.
- RateLimit: the application's clock and the store's agree, though they are read at different moments; a counter whose EXPIRE never arrives stays stored, which no later decision sees.
- Fiscal: `fiscal_year_label`; a year end inside a month is read but, as in the code, only its month is used.
- GlReport: the text of the `account` parameter; a cell value that is not text.
- Tenancy: `skip_tenant_filter`, the exemption of column and relationship loads, inserts, row-level security and the transaction setting; a caller's rollback after an exception; that children share their parent's tenant (`Coherent`) is assumed of the database and proved to be kept.
- Retry, caches, email, exports' file formats, links, configuration and the frontend.
