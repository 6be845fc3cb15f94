# A model of the wallet's database and its protocols

The wallet keeps everything it knows in one SQLite database: accounts, addresses, transactions,
notes, spends, witnesses and a table of text properties. This project models the parts of it
whose correctness is not visible in one function, and proves what they promise. Tables are maps
from row id to row, rows are datatypes, and each operation performs the SQL effects of the
original in the original order.

- **Backups** (`Tables`, `Schema`, `Backup`, `BackupExport`, `Wallet`): an account is flattened
  into a record and rebuilt under fresh row ids through five hash maps, spends and witnesses in a
  second pass. `BackupFold` gives the loops in closed form, `BackupRecord` shows that a record
  exported from an intact database cannot collide with itself, `BackupRelocation` relates restored
  rows to originals, `BackupRoundTrip` states the round trip and exactly when it succeeds,
  `BackupErrors` what an import of any other record still guarantees,
  `BackupRuns` shows what restores, deletions and trims keep, and `WalletRuns` adds rewinds, which
  delete headers all accounts share, and follows referential integrity through whole runs.
- **Accounting** (`Sums`, `Accounting`, `Spendable`, `Fees`): the ledger of notes and spends, its
  split into available, locked and pending value, and the maximum a payment can spend against the
  fee it really pays (section "Fee calculation" of ZIP 317).
- **Transparent addresses** (`Decimals`, `Text`, `Coverage`, `CatchUp`, `Backfill`, `Receive`,
  `Allocator`): the coverage certificate and the incarnation counter as text properties, the
  catch-up debts beside them, the backfill markers,
  the lowest-unused selector and the allocator that races on a UNIQUE constraint.
- **Ledger seed recovery** (`Recover`): 256-bit little-endian carry loops, hardened derivation in
  reused buffers, and the scalar bound behind the clamping of section 5.1.5 of RFC 8032.
- **OA1 records** (`OpenAlias`): quote-aware splitting, escapes, and two printers to invert it.
- **Mempool** (`MempoolReader`, `MempoolSubscription`): the events of a reader, its one verdict,
  and the start/next/stop protocol in every interleaving.
- **Account order** (`AccountOrder`) and **historical prices** (`Prices`).

HMAC, address derivation and note decryption are function parameters; injectivity of the address
derivation is a stated assumption of the selector's lemmas. Loops are methods proved against
functions; the properties are lemmas about those functions. A `None` that travels through the
loops of an import stands for the violated constraint or failed look-up that rolls it back.

## Where the code and its documentation disagree

The model follows the code.

- A backup of an account is not always restorable. Deleting an account leaves its `user_memos`
  rows, ids are reused, and the restored rows then meet the UNIQUE (account, id_tx) constraint
  (`BackupRuns.DeletedMemoBlocksRestore`); and an asset whose base another stored asset holds is
  silently not inserted and then not found (`BackupRuns.AssetBaseBlocksRestore`).
  `BackupRoundTrip.RestoreSucceedsIff` shows that nothing else makes a restore fail.
- A restore that succeeds can still differ from the original: a leftover memo under the ids of a
  transaction without one is taken over silently (`BackupRuns.ForeignMemoAppears`).
  `BackupRoundTrip.UserMemosIsomorphicIff` and `OnlyOwnMemosIff` give the exact conditions.
- `rewind_sync` deletes the headers above the height "because there are no accounts using them"
  (rust/rlz/src/sync.rs:1403-1408). Other accounts may be using them: then a checkpoint is left
  without its header and their backups fail (`WalletRuns.RewindBreaksOther`).
  `WalletRuns.RewindIntactIff` gives the exact condition.
- `certified` is documented to mean also that no announced transaction is still owed
  (rust/rlz/src/db.rs:898-902). The code compares the two trim stamps and nothing else, so a walk
  that saw a payment above the seam certifies an account that owes it
  (`CatchUp.CertifiedDespiteDebt`). `CatchUp.OwesNothingIff` says when nothing is owed.
- `next` is documented to see a closed queue only after a panic (rust/zcash-jni/src/mempool.rs:105-106).
  The verdict's destructor reports the panic first, so a closed queue means only that the verdict
  has already been delivered (`MempoolSubscription.EndIsNeverInvented`); it follows a mere failure
  as well (`MempoolSubscription.ClosedQueueWithoutPanic`).
- "Two runs" can live at once: a stop empties the slot before the old reader is gone
  (`MempoolSubscription.StopAndStartOverlap`). They share neither queue nor cancellation.
- Amounts are grouped by account and name, so an account renamed between the two reads of its name
  gets two entries (`MempoolReader.RenamedAccountHasTwo`); the exact condition is
  `MempoolReader.OneEntryIffNamesAgree`.
- An import puts the new account at position 1; it collides exactly when somebody stands at
  position 0, which a reordering to 0 permits (`AccountOrder.ImportDistinctIff`).
- The price merge panics for a transaction at the largest 32-bit time, besides for no quotes.

## Model

| member | source | states |
|---|---|---|
| Schema.CastRoundTrip | rust/rlz/src/io.rs:305-414 | a signed 64-bit value survives its trip through the unsigned column of the record |
| Tables.InsertUnique | rust/rlz/src/db.rs:1229-1254 | an INSERT under UNIQUE is refused exactly when a stored row has the key, and then changes nothing |
| BackupExport.ExportTxs | rust/rlz/src/io.rs:270-414 | every transaction of the account once, each with all its notes, outputs and spends and their memos |
| BackupExport.ExportBlocks | rust/rlz/src/io.rs:178-228 | one block per checkpoint height with the header and all witnesses; fails exactly when a header is missing |
| BackupExport.ExportAccount | rust/rlz/src/io.rs:22-481 | succeeds exactly when the account exists and every checkpoint has its header; the record then lists all rows of the account |
| BackupExport.IntactHasOneMemoEach | rust/rlz/src/io.rs:305-392 | by UNIQUE no output has two memos; as no note of an intact database has two either, the LEFT JOINs duplicate nothing |
| Backup.MergeCategories | rust/rlz/src/io.rs:499-513 | stored categories stay, every category of the record is found under its name, and each added row is a category of the record, income flag included |
| Backup.MergeAssets | rust/rlz/src/io.rs:515-536 | for any record: succeeds exactly when each asset, beside the stored ones and those merged before it, is stored or its base is free; the table is the fold of the insertions |
| Backup.DistinctAssetsFit | rust/rlz/src/io.rs:515-536 | for a record of distinct assets the table before the import decides |
| Backup.ImportTaddrs | rust/rlz/src/io.rs:622-639 | the loop inserts the rows in order and fills the id map with consecutive ids |
| Backup.ImportTxs | rust/rlz/src/io.rs:653-762 | the first pass is the fold of its row insertions, aborted by the first violated constraint |
| Backup.ImportTx | rust/rlz/src/io.rs:656-762 | one transaction: its row, its notes with memos, its outputs with memos |
| Backup.ImportSpends | rust/rlz/src/io.rs:764-787 | the second pass resolves every spend against the completed id maps |
| Backup.ImportUserMemos | rust/rlz/src/io.rs:789-802 | memos of unknown transactions are skipped, a taken key aborts |
| Backup.ImportBlocks | rust/rlz/src/io.rs:804-828 | stored headers win, witnesses are resolved through the note map |
| Wallet.Connection.ImportAccount | rust/rlz/src/io.rs:483-828 | all or nothing: success is the complete import, failure leaves the database unchanged and has one of the listed causes; a backup goes into an intact database if and only if neither obstacle is there |
| Wallet.Connection.DeleteAccount | rust/rlz/src/db.rs:1650-1743 | exactly the rows of other accounts are left, unchanged, and all user memos |
| Wallet.Connection.TrimSyncData | rust/rlz/src/sync.rs:1273-1339 | exactly the rows at or below the height and those of other accounts are left; every pool of the account resumes at the height and no other account's moves; whatever is gone lies above, so the next scan meets it again; headers stay |
| Wallet.Connection.ResetSync | rust/rlz/src/account.rs:1064-1118 | a trim to 0, then every pool of the account restarts at the later of birthday and activation, and no other account's moves; fails without effect for an unknown account |
| Wallet.Connection.RewindSync | rust/rlz/src/sync.rs:1378-1410 | resumes at the last checkpoint below the height with exactly what the account had there, whatever is gone lies above; starts over without one; deletes exactly the headers above the height |
| Wallet.Connection.RewindAccounts | rust/rlz/src/sync.rs:1230-1235 | the accounts of a reorganisation are rewound in turn |
| Wallet.RewindResumes | rust/rlz/src/sync.rs:1378-1410 | a rewind fails exactly for an unknown account without a checkpoint below the height, and resumes as above |
| Wallet.ResetRescansIff | rust/rlz/src/account.rs:1064-1118 | every note a reset drops lies above the new sync height of its pool if and only if the account has no notes from before its birthday or the activation |
| BackupFold.TxsAdded | rust/rlz/src/io.rs:653-762 | with distinct keys and a new account the first pass extends every table by one translated row per record, in order, with consecutive ids |
| BackupFold.SpendsAdded | rust/rlz/src/io.rs:764-787 | when all notes and transactions resolve, every spend is stored under the mapped note, wherever its transaction stands |
| BackupFold.UserMemosAdded | rust/rlz/src/io.rs:789-802 | the user memos go in if and only if none of their new keys is taken |
| BackupFold.BlocksAdded | rust/rlz/src/io.rs:804-828 | when all notes resolve, every witness is stored under its mapped note |
| BackupFold.HeadersAdded | rust/rlz/src/io.rs:804-814 | headers are the union, stored ones unchanged |
| BackupRecord.TxsAreOk | rust/rlz/src/io.rs:270-414 | a record exported from an intact database has no two rows with the same unique key |
| BackupRecord.NotesOfAccount | rust/rlz/src/io.rs:303-356 | the notes of all exported transactions are exactly the notes of the account, each once |
| BackupRecord.SpendsOfAccount | rust/rlz/src/io.rs:392-412 | the spends of all exported transactions are exactly the spends of the account, each once |
| BackupRelocation.AllMemosListed | rust/rlz/src/io.rs:706-760 | the memo rows the import builds are the memos of the account with mapped references |
| BackupRoundTrip.FirstPass | rust/rlz/src/io.rs:653-762 | on any exported record and any intact target no INSERT of the first pass fails |
| BackupRoundTrip.SecondPass | rust/rlz/src/io.rs:764-828 | every look-up of spends, transactions and witnesses succeeds, so the panics behind them are unreachable |
| BackupRoundTrip.RestoreSucceedsIff | rust/rlz/src/io.rs:483-828 | restoring succeeds if and only if no asset base and no leftover user memo stands in the way |
| BackupRoundTrip.RoundTrip | rust/rlz/src/io.rs:22-828 | the account row, keys, addresses, sync heights and all history tables of the restored account are the original's row for row under injective id maps, all user memos of the original arrive, and all other rows are untouched but for position + 1 |
| BackupRoundTrip.RestoredCategory | rust/rlz/src/io.rs:499-513 | the category of a restored transaction has the original's name, and is the original row, income flag included, unless that name was stored already |
| BackupRoundTrip.RestoredFolder | rust/rlz/src/io.rs:538-552 | the restored account is in a folder of the original's name, and in none if the original is in none or its folder has no name |
| BackupRoundTrip.UserMemosIsomorphicIff | rust/rlz/src/io.rs:788-801 | a restored transaction has a user memo exactly where the original has one, if and only if no leftover memo sits under the new ids of a memo-less transaction |
| BackupRoundTrip.OnlyOwnMemosIff | rust/rlz/src/io.rs:788-801 | the restored account has no other user memo at all if and only if no leftover memo sits under its new id |
| BackupRoundTrip.AccountIsRestored | rust/rlz/src/io.rs:539-652 | account row, folder name, keys, addresses and sync heights are those of the original |
| BackupRoundTrip.HistoryIsRestored | rust/rlz/src/io.rs:653-828 | transactions, notes, outputs, memos, spends and witnesses are copied one for one |
| BackupErrors.ImportedIsClosed | rust/rlz/src/io.rs:653-828 | of any record: an import succeeds only if every spend and witness names a note of the record and every note memo has bytes |
| BackupErrors.NothingIsDropped | rust/rlz/src/io.rs:622-828 | of any record: a successful import adds exactly one row for each row of the record, so a collision is never skipped or overwritten |
| BackupErrors.ImportKeepsConstraints | rust/rlz/src/io.rs:483-828 | of any record, into any database: no two rows with the same unique key afterwards |
| BackupErrors.ImportLeavesNothingDangling | rust/rlz/src/io.rs:499-828 | of any record: an import into a database without dangling references leaves none; a category, asset or address the record does not list is dropped from the row that names it |
| BackupErrors.OldRecordRestoresIff | rust/rlz/src/io.rs:553-558 | a record older than version 10 gives back the account row if and only if the account can sign exactly when it has a fingerprint; one of version 10 always does |
| BackupRuns.NoReferenceLost | rust/rlz/src/io.rs:653-828 | a restored row has a reference exactly where the original has one, categories included |
| BackupRuns.TrimKeepsIntact | rust/rlz/src/sync.rs:1273-1339 | a trim of one account, which leaves headers alone, never leaves a dangling reference |
| BackupRuns.DeleteKeepsIntact | rust/rlz/src/db.rs:1650-1743 | a deletion never leaves a dangling reference and keeps exactly the rows of other accounts |
| BackupRuns.RestoreKeepsIntact | rust/rlz/src/io.rs:483-828 | a restored database is intact again, so it can be exported and restored in turn |
| WalletRuns.RewindIntactIff | rust/rlz/src/sync.rs:1378-1410 | rewinding any accounts of an intact database leaves it intact if and only if no other account has a checkpoint above the height |
| WalletRuns.RewindExportableIff | rust/rlz/src/sync.rs:1378-1410 | another account can be backed up afterwards if and only if all its checkpoints are at or below the height |
| WalletRuns.RewindBreaksOther | rust/rlz/src/sync.rs:1403-1408 | with two accounts, rewinding one below a checkpoint of the other leaves a dangling reference and fails the other's backup |
| WalletRuns.RunIntactIff | rust/rlz/src/sync.rs:1230-1410 | over any run of restores, deletions, trims and rewinds every state is intact if and only if no rewind takes headers another account needs |
| BackupRuns.DeleteUndoesRestore | rust/rlz/src/db.rs:1650-1743 | deleting the restored account gives back every account-keyed table and the accounts; user memos, shared rows and the shift stay |
| BackupRuns.DeletedMemoBlocksRestore | rust/rlz/src/db.rs:1650-1743 | an account with a user memo, deleted from a one-account wallet, cannot be restored there from its own backup |
| BackupRuns.ForeignMemoAppears | rust/rlz/src/io.rs:788-801 | a backup without memos goes in there and its transaction takes over the deleted account's text |
| BackupRuns.AssetBaseBlocksRestore | rust/rlz/src/io.rs:515-536 | an asset base held by another asset makes the look-up fail |
| Accounting.LedgerCancels | rust/rlz/src/db.rs:1837-1840 | the sum over notes and negated spends is the sum of what is left of each note |
| Accounting.BalanceNonNegative | rust/rlz/src/db.rs:1829-1849 | at every height cut-off the balance is non-negative, so its unsigned cast is safe |
| Accounting.RestoreKeepsBalance | rust/rlz/src/db.rs:1829-1849 | a restored account has the original's balance in every pool at every height |
| Accounting.RestoreKeepsOtherBalances | rust/rlz/src/db.rs:1829-1849 | no other account's balance changes |
| Accounting.TrimRestoresBalance | rust/rlz/src/sync.rs:1273-1339 | after a rewind the balance is the one the account had at that height |
| Spendable.JoinUnspent | rust/rlz/src/db.rs:1806-1813 | the two LEFT JOINs give each unspent note once, with its reservation |
| Spendable.Breakdown | rust/rlz/src/db.rs:1856-1898 | each pool gets the four conditional sums of its rows |
| Spendable.PartsMean | rust/rlz/src/db.rs:1806-1868 | each part is the sum over the unspent notes of the pool it is documented to be: available ones are confirmed, unlocked and named by no active reservation; change has scope 1 |
| Spendable.ReservingMoves | rust/rlz/src/db.rs:1806-1868 | one more reservation moves exactly the value of the note it names from available to locked, and nothing if it has expired |
| Spendable.ReleasedIff | rust/rlz/src/db.rs:487-495 | a reservation is released exactly when it can expire and every pool of its account has reached its expiry |
| Spendable.TrimReactivatesIff | rust/rlz/src/sync.rs:1331-1335 | a trim brings back exactly the reservations that expire above its height |
| Spendable.PartitionIsBalance | rust/rlz/src/db.rs:1806-1898 | available, locked and both pending parts add up to the balance, for NULL scopes and any cut-off |
| Spendable.MoreConfirmations | rust/rlz/src/db.rs:1815-1827 | more confirmations only move value from the confirmed parts to the pending ones |
| Spendable.MoreConfirmationsLowerCutoff | rust/rlz/src/db.rs:1818-1827 | more confirmations never raise the cut-off height |
| Spendable.ConfirmedIff | rust/rlz/src/db.rs:1795-1827 | a block counts as confirmed exactly when every pool has scanned that many blocks beyond it |
| Fees.MaxSpendable | rust/rlz/src/db.rs:2743-2765 | the loop over groups in any order gives the value of the chosen pools less four actions more than they need |
| Fees.MaxSpendableFromPools | rust/rlz/src/db.rs:2720-2765 | filter, grouping and loop together give that maximum |
| Fees.PoolBits | rust/rlz/src/db.rs:2748-2750 | bit p of the mask stands for pool p |
| Fees.GroupByPool | rust/rlz/src/db.rs:2727-2742 | one group per pool with its value and count |
| Fees.CountedMeans | rust/rlz/src/db.rs:2727-2738 | what is counted is exactly the available unspent notes worth at least one action, each once |
| Fees.MaxSpendableOfAccount | rust/rlz/src/db.rs:2720-2765 | query and loop together, as sums over the notes of the database |
| Fees.FeeIsLeast | rust/rlz/src/pay/fee.rs:45-86 | the fee is the lowest of any choice of actions that carries all inputs and outputs, also for a migration, where an action carries only one of them |
| Fees.FeeBounds | rust/rlz/src/pay/fee.rs:45-86 | counted without overflow, the real fee pays at least for the inputs and at most for four more actions, in both modes |
| Fees.WrappedFeeIff | rust/rlz/src/pay/fee.rs:9-31 | with wrapping 8-bit counters the fee stays below the bound, and pays for the inputs if and only if no pool has more than 255 |
| Fees.MaximumIsFundable | rust/rlz/src/db.rs:2718-2765 | a positive maximum is covered together with its fee for any recipient and change pool, and is within four actions of the true one |
| Fees.BoundIsReached | rust/rlz/src/db.rs:2761-2764 | the four extra actions are really needed for some recipients |
| Fees.CountedIsAvailable | rust/rlz/src/db.rs:2727-2738 | only available value is counted |
| Recover.AddScalar | rust/rlz/src/recover.rs:133-140 | the carry loop computes the sum modulo 2^256 |
| Recover.AddScalarMul8 | rust/rlz/src/recover.rs:143-153 | three doublings and an addition compute 8 b + a modulo 2^256, and no doubling overflows |
| Recover.DeriveHardened | rust/rlz/src/recover.rs:72-130 | the loop over reused buffers is the fold of one-step derivations |
| Recover.DeriveOneMore | rust/rlz/src/recover.rs:82-127 | one more index: the chain code becomes the upper half of the HMAC of 1, key and index; 8 times the first 28 bytes of that of 0, key and index goes to kL and its upper half to kR, modulo 2^256 |
| Recover.MessageIs | rust/rlz/src/recover.rs:84-95 | the 69 bytes are prefix, key and the index in little-endian order |
| Recover.DerivedOkIff | rust/rlz/src/recover.rs:82-83 | a derivation aborts if and only if some index is not hardened |
| Recover.DeriveAppend | rust/rlz/src/recover.rs:72-130 | deriving a concatenated path is deriving its parts in turn |
| Recover.LedgerMaster | rust/rlz/src/recover.rs:26-69 | the retry loop stops at the first HMAC with the bit clear; clamping changes five bits and no other, and the result is a multiple of 8 in [2^254, 2^254 + 2^253) |
| Recover.ChildScalar | rust/rlz/src/recover.rs:105-113 | one level adds a multiple of 8 below 2^227 to kL and drops no carry |
| Recover.ScalarBound | rust/rlz/src/recover.rs:72-130 | for at most 2^26 levels below a clamped master, kL stays a multiple of 8 in [2^254, 2^255) |
| OpenAlias.SplitPairs | rust/rlz/src/openalias.rs:50-76 | the index loop gives the non-empty, left-trimmed segments between unquoted semicolons |
| OpenAlias.SplitHomomorphism | rust/rlz/src/openalias.rs:50-76 | splitting `a;b` is splitting `a` then `b` if and only if the quotes of `a` are balanced |
| OpenAlias.BlankPartsAreDropped | rust/rlz/src/openalias.rs:60-76 | a blank part of a body has no pair, at the end or in front |
| OpenAlias.PairsAreTrimmed | rust/rlz/src/openalias.rs:60-76 | no pair is empty or starts with white space |
| OpenAlias.UnescapeValue | rust/rlz/src/openalias.rs:103-112 | the loop over trailing escapes is the peeling function |
| OpenAlias.ParseOa1 | rust/rlz/src/openalias.rs:117-150 | the parser with its mutable options is the record function |
| OpenAlias.ReadAsIff | rust/rlz/src/openalias.rs:117-150 | a text is read as a record if and only if it has a header with a lower-case currency, every pair has a `=`, and the last address and description are the record's; other keys are ignored |
| OpenAlias.QuotedDecodes | rust/rlz/src/openalias.rs:82-96 | a quoted value is its text with the escapes decoded |
| OpenAlias.SpacesAreIgnored | rust/rlz/src/openalias.rs:82-96 | white space around a key and a quoted value means nothing |
| OpenAlias.SpacesAroundEscapedIff | rust/rlz/src/openalias.rs:103-112 | around an escaped value neither, unless the value ends in a space, or in a backslash with a single space behind it |
| OpenAlias.EscapedValueRoundTrip | rust/rlz/src/openalias.rs:103-112 | escaping spaces and unescaping is the identity, spaces at the ends included |
| OpenAlias.QuotedPair | rust/rlz/src/openalias.rs:82-96 | a quoted value is read back if and only if it holds no backslash-space |
| OpenAlias.EscapedRecordRoundTrip | rust/rlz/src/openalias.rs:117-150 | printing with escapes and parsing gives the record back |
| OpenAlias.QuotedRecordRoundTrip | rust/rlz/src/openalias.rs:117-150 | printing with quotes and parsing gives the record back, semicolons included |
| Decimals.ReadBack | rust/rlz/src/db.rs:929-957 | a printed counter is read back by both parsers and by the database's own cast |
| Decimals.CastAgrees | rust/rlz/src/sync.rs:1321-1330 | wherever the program reads a number, the database's cast reads the same |
| Decimals.AcceptedIff | rust/rlz/src/db.rs:929-957 | the parsers accept digits behind an optional sign, within their width |
| Decimals.CastReadsPrefix | rust/rlz/src/sync.rs:1321-1330 | the cast reads the number behind blanks and ignores what follows |
| Coverage.KeysApart | rust/rlz/src/db.rs:910-919 | no two accounts and no two kinds share a property row |
| Coverage.UnreadableIsUnwalked | rust/rlz/src/db.rs:937-982 | a stored record that is not two numbers with a colon between reads as never walked |
| Coverage.PropTable.WriteTransparentCoverage | rust/rlz/src/db.rs:984-1004 | the account reads as certified under its live counter, with the wider gap; no other account's rows change |
| Coverage.PropTable.RetireTransparentWalks | rust/rlz/src/db.rs:1008-1020 | the incarnation moves on by one, wrapping; coverage and other accounts stay |
| Coverage.PropTable.ClearTransparentCoverage | rust/rlz/src/db.rs:1023-1034 | the account reads as never walked, the incarnation moves on |
| Coverage.PropTable.BumpTrim | rust/rlz/src/sync.rs:1321-1330 | the counter rises by one, a certified account is no longer certified, gap and other accounts stay |
| Coverage.CertificateMeansWalked | rust/rlz/src/db.rs:937-1034 | over every run: certified exactly when a walk completed since the last clear and no trim landed after it; gap is the widest since; no stamp is ahead of the counter |
| Coverage.IncarnationCounts | rust/rlz/src/db.rs:917-935 | the counter is the number of retirements modulo 2^32, through clears and id reuse |
| Coverage.SnapshotMatchesIff | rust/rlz/src/sync.rs:1670-1715 | a snapshot matches later exactly when a multiple of 2^32 retirements lies between |
| Coverage.RecordedWalkUndisturbed | rust/rlz/src/sync.rs:2178-2207 | nothing was trimmed, cleared or retired while a recorded walk ran, if it ran for less than 2^32 retirements of its account |
| Coverage.CertificateIsSound | rust/rlz/src/sync.rs:2178-2207 | a certificate always rests on a walk with no trim and no clear since it began |
| CatchUp.DebtsAreOpenRaises | rust/rlz/src/db.rs:1036-1055 | over every run an address owes the highest sighting or dropped note that no pass has paid and no reset forgiven since, and nothing without one |
| CatchUp.OwesNothingIff | rust/rlz/src/db.rs:898-908 | an account, certified or not, owes nothing if and only if everything raised has been paid, forgiven or deleted |
| CatchUp.SettledOwesNothingIff | rust/rlz/src/sync.rs:754-777 | at the end of a sync pass nothing is owed if and only if every marker reaches its debt |
| CatchUp.DebtEndsIff | rust/rlz/src/sync.rs:754-777 | a debt ends exactly with a marker that reaches it at the end of a pass, a reset, or a deletion |
| CatchUp.TrimDebtOutlivesPass | rust/rlz/src/sync.rs:1281-1319 | what a trim drops stays owed through the next pass: the clamped marker cannot pay it |
| CatchUp.TrimKeepsCertificateIff | rust/rlz/src/sync.rs:1294-1330 | over every run a trim keeps a certificate exactly when it deleted nothing and clamped no marker |
| CatchUp.EventOnCertificate | rust/rlz/src/account.rs:1064-1081 | a reset starts a new incarnation and keeps the coverage; a birthday change or deletion clears it; sightings and passes leave it alone |
| CatchUp.CertifiedDebtsAreSightings | rust/rlz/src/sync.rs:1273-1339 | what a certified account came to owe after its walk was seen above the seam, for a trim that drops a note ends the certificate |
| CatchUp.CertifiedDespiteDebt | rust/rlz/src/sync.rs:1616-1641 | a walk that sees a payment above the seam certifies the account and leaves it in debt |
| Backfill.Markers.AdvanceBackfilledHeight | rust/rlz/src/db.rs:1317-1350 | a claim lands if and only if every height between birthday and claim is proven already and its end is not; no marker is ever lowered |
| Backfill.Markers.ClampMarkers | rust/rlz/src/sync.rs:1308-1319 | markers of the account above the height come down to it, and no other marker changed |
| Backfill.Markers.UpdateBirth | rust/rlz/src/api/account.rs:266-284 | birthday and markers change together, other accounts' not at all |
| Backfill.MarkersAreContiguous | rust/rlz/src/db.rs:1317-1350 | over every run each height from the birthday to a marker is covered by a claim nothing has voided |
| Backfill.OthersStay | rust/rlz/src/db.rs:1317-1350 | no event touches the birthday or a marker of another account; storing a stored address keeps its marker |
| Backfill.StaleBirthBreaks | rust/rlz/src/db.rs:1317-1350 | a claim made with any birthday later than the live one would break that |
| Receive.AddressBook.StoreTransparentAddr | rust/rlz/src/db.rs:1229-1254 | stores exactly when the index is free; afterwards the index has a row |
| Receive.AddressBook.NextUnusedReceiveAddress | rust/rlz/src/account.rs:881-939 | the answer is the least index neither used nor excluded, before and after its row is stored, so asking again gives it again; the errors mean that none was in range, and below the 32-bit wrap the error behind the loop never comes |
| Receive.SelectorNeverExhausted | rust/rlz/src/account.rs:903-907 | by pigeonhole a least free index lies within the bound, so the error behind the loop is unreachable |
| Receive.MoreTakenNeverLowers | rust/rlz/src/account.rs:871-880 | using or excluding more never lowers the answer |
| Receive.TouchedIsNotReused | rust/rlz/src/db.rs:2322-2343 | once the chosen address is marked, paid or spent from, every later answer is strictly higher |
| Receive.UntouchedIsFree | rust/rlz/src/db.rs:2322-2343 | an index is never skipped unless excluded or touched |
| Receive.RowHoldsChosenIff | rust/rlz/src/account.rs:920-930 | the row under the chosen index holds the chosen address unless it holds that of the uncompressed key, flag or no flag |
| Allocator.GenerateNext | rust/rlz/src/account.rs:942-989 | every attempt picks the index directly above all stored ones; the first that no other stores in between is stored, and eight losses give up |
| Allocator.PickIsNext | rust/rlz/src/account.rs:955-985 | in every interleaving a pick is directly above all stored indices, and an INSERT right behind it succeeds |
| Allocator.SuccessesAreDistinct | rust/rlz/src/account.rs:942-989 | in every interleaving two successful calls have different indices |
| Allocator.GivingUpMeansEightOthers | rust/rlz/src/account.rs:850-989 | each retry is strictly higher, and giving up means eight rows stored by others since the call began |
| AccountOrder.AccountTable.StoreAccount | rust/rlz/src/db.rs:1098-1123 | a new account goes directly behind the last one, the first to position 1; nobody else moves |
| AccountOrder.AccountTable.ReorderAccount | rust/rlz/src/db.rs:1745-1793 | moves the account at the old position; fails without effect when there is none |
| AccountOrder.MoveKeepsOrder | rust/rlz/src/db.rs:1745-1793 | all other accounts keep their relative order, gaps or not |
| AccountOrder.MoveIsLocal | rust/rlz/src/db.rs:1745-1793 | accounts outside the two positions stay, those between make one step |
| AccountOrder.MoveBack | rust/rlz/src/db.rs:1745-1793 | moving there and back is the identity |
| AccountOrder.ImportDistinctIff | rust/rlz/src/io.rs:494-497 | an import keeps positions distinct if and only if nobody stands at 0 |
| AccountOrder.RunsKeepPositionsDistinct | rust/rlz/src/db.rs:1098-1793 | over any run with targets of at least 1 positions are pairwise distinct |
| AccountOrder.ReorderToZeroCollides | rust/rlz/src/db.rs:1745-1793 | a move to 0 and an import give two accounts one position |
| MempoolReader.RunMempool | rust/rlz/src/mempool.rs:29-145 | the nested loops send each height and each transaction they are told exactly once, in order and nothing else, as (Epoch Unconfirmed*)*; they end only for a panic, a cancellation or a failed await |
| MempoolReader.AliveIff | rust/rlz/src/mempool.rs:36-142 | a reader lives exactly as long as each answer is the awaited one |
| MempoolReader.PhaseMeans | rust/rlz/src/mempool.rs:36-142 | it loads at the start and behind the end of a stream, opens behind a height, and drains the stream otherwise |
| MempoolReader.Reader | rust/zcash-jni/src/mempool.rs:80-85 | a reader that is over has sent what it was told and then exactly one Ended that says why it ended; one that is not has sent all it was told |
| MempoolReader.Verdict.Send | rust/zcash-jni/src/mempool.rs:41-47 | the verdict is sent once; the destructor after it adds nothing |
| MempoolReader.Verdict.Drop | rust/zcash-jni/src/mempool.rs:51-57 | an unreported verdict is a panic report |
| MempoolReader.GroupAmounts | rust/rlz/src/mempool.rs:117-127 | one entry per account and name with the sum of its notes |
| MempoolReader.AmountsConserveValue | rust/rlz/src/mempool.rs:117-127 | the amounts add up to the notes |
| MempoolReader.OneEntryIffNamesAgree | rust/rlz/src/mempool.rs:117-127 | an account has one entry if and only if its notes agree on its name |
| MempoolReader.RenamedAccountHasTwo | rust/rlz/src/mempool.rs:276-305 | a rename in between gives it two |
| MempoolSubscription.Subscription.StartRun | rust/zcash-jni/src/mempool.rs:71-92 | refused while a run is in the slot |
| MempoolSubscription.Subscription.NextEvent | rust/zcash-jni/src/mempool.rs:97-117 | the next event of the slot's run, a timeout, or an end |
| MempoolSubscription.Subscription.TakeRun | rust/zcash-jni/src/mempool.rs:119-121 | empties the slot |
| MempoolSubscription.Subscription.CancelRun | rust/zcash-jni/src/mempool.rs:119-124 | cancels the run a stop has taken |
| MempoolSubscription.LogsAreWellFormed | rust/zcash-jni/src/mempool.rs:38-124 | in every interleaving a finished run's log is (Epoch Unconfirmed*)* Ended, an unfinished one has no Ended |
| MempoolSubscription.LoopIsAReader | rust/rlz/src/mempool.rs:29-145 | whatever the loop has sent, the readers of the interleavings can send, in the same phase |
| MempoolSubscription.PollMeans | rust/zcash-jni/src/mempool.rs:97-117 | in every execution a poll delivers the next event, times out only on a live reader that has nothing left to deliver, and answers a plain end without a run |
| MempoolSubscription.DeliveredIsPrefix | rust/zcash-jni/src/mempool.rs:97-117 | polls deliver a prefix of the run's own log |
| MempoolSubscription.EndIsNeverInvented | rust/zcash-jni/src/mempool.rs:97-117 | in every execution an end is answered only for a run that is over, and a synthetic one only after the whole log has been delivered |
| MempoolSubscription.ClosedQueueWithoutPanic | rust/zcash-jni/src/mempool.rs:105-117 | after a reader that merely failed a second poll finds the closed queue |
| MempoolSubscription.CleanEndMeansCancelled | rust/zcash-jni/src/mempool.rs:80-85 | a clean verdict means that the run was cancelled |
| MempoolSubscription.StopLeavesNoReader | rust/zcash-jni/src/mempool.rs:119-124 | once a stop has returned, its run is over and out of the slot for good |
| MempoolSubscription.StopCanFinish | rust/zcash-jni/src/mempool.rs:119-124 | a stop is never stuck: once it has cancelled, the reader can end cleanly and the stop return, whatever other runs do |
| MempoolSubscription.StopAndStartOverlap | rust/zcash-jni/src/mempool.rs:119-124 | two readers can live at once |
| Prices.SkipQuotes | rust/rlz/src/budget.rs:81-91 | the inner loop stops at the first later quote and runs off the end only for the largest time |
| Prices.FillHistoricalPrices | rust/rlz/src/budget.rs:77-96 | fails exactly without quotes or for a transaction at the largest time; otherwise each price is the quote for the latest time so far |
| Prices.QuoteIsLastBefore | rust/rlz/src/budget.rs:77-96 | for sorted quotes that is the last one at or before the time, or the first |
| Prices.SortedLatest | rust/rlz/src/budget.rs:77-96 | for sorted transactions the latest time so far is their own |
| Prices.LatestIs | rust/rlz/src/budget.rs:77-96 | in any order, the running time is the latest so far and one of theirs |

## Left out

- Compression, serialisation and encryption of backups, and the two DKG tables: the record is structured data.
- Columns a backup does not carry (`uncompressed`, markers, debts, `seen_used`, the sapling address, the income flag of an existing category): the round trip is over the carried ones, and an uncompressed address comes back without its flag.
- Tables a deletion also empties or keeps that no other part of the model reads: reservations of pending spends, pending transactions, DKG state.
- Row ids and heights are unbounded integers; the truncation of a new row id to 32 bits is not modelled.
- `INSERT OR IGNORE` into folders: the table has no UNIQUE name, so a row is always added, and which of several folders of a name is taken is left open.
- NULL times and kinds of transactions, which are read as 0.
- Recover.LedgerMaster: the retry loop ends only with probability one; a bound on the number of retries is assumed as a ghost parameter.
- BackupExport.IntactHasOneMemoEach: that a note has at most one memo is part of integrity here; the schema alone does not enforce it.
- Fees.MaxSpendable: 64-bit sums do not wrap.
- Fees.MaximumIsFundable: the fee is the one without counter overflow; what wrapping does to it is `Fees.WrappedFeeIff`, and a checked build panics instead.
- Receive.AddressBook.NextUnusedReceiveAddress: key look-up and secret-key derivation; an index of 2^31 or more, which derivation rejects by a panic, is an error value.
- Coverage.CertificateMeansWalked: at most 2^63 events, so that the trim counter stays an integer in the database.
- The discovery sweep over candidates and the scan set of addresses: walks appear through their claims, sightings, guard and record.
- Backfill.MarkersAreContiguous: that a claim is made with the live birthday is an admissibility condition; the walk checks the identity, birthday included, in the critical section of its claim (rust/rlz/src/sync.rs:1796-1801).
- Allocator.GenerateNext: others' INSERTs arrive as a parameter, one set before each of its own; the interleavings themselves are the state machine beside it.
- MempoolReader.RunMempool: which ready branch of a select is taken is up to the answers; that a cancelled reader is ever scheduled is not claimed.
- Decoding of mempool transactions and the look-up of spent notes: the notes are inputs.
- Spendable.Breakdown: pools are 0 to 3; a row of another pool, which would index out of bounds, is excluded.
- Float arithmetic of prices: reals.
- Migration, DNS, pools and proxies, voting, contacts, budgets, GraphQL and the user interfaces.
