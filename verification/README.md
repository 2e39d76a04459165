# Wallet verification

A Dafny model of the wallet's durable state and of the algorithms around it, with proofs.

* The EVM journal (`Records`, `Journal`, `JournalStore`): signed transactions in journal.json and
  archive files, under one lock. `WalletRuns` is the transition system of Send, Retry and History over
  it: each step is one critical section, the chain is an oracle, a write either succeeds or fails
  leaving the old or the new file, and a crash drops memory and reloads the files. `JournalInvariant`,
  `JournalArchiving`, `WalletInvariant` and `WalletSteps` carry the invariant; `WalletTheorems` and
  `JournalDecisions` hold what follows for every run. `WalletService` runs the same steps as the service
  does, in place; `JournalContents` and `WalletAnswers` say, without those steps, what each operation must
  leave written and answer. `Replacement` has the fee bumps.
* The activity index (`ActivityFiles`, `ActivityCompaction`, `ActivityStore`, `ActivityCache`,
  `ActivityPages`) and the finalized-block scanner (`ScanRuns`, `Scanner`).
* The TRON encoder and journal (`ByteStrings`, `ProtoWire`, `TronTransfer`, `TronWallet`), the Solana
  journal (`SolanaWallet`) and the refresh rotation of both (`Rotation`, `Modular`).
* What several of these share: loops over prefixes (`Sequences`) and word sizes (`Words`).
* Decimal amounts (`Decimal`), receipt ledgers (`Ledger`), RPC failover (`Failover`) and ERC-4337
  packing (`UserOperation`).

`dafny verify dfyconfig.toml` checks everything.

Where the code does not do what one might expect, the model keeps the code and says exactly when:

* Adding a fifth to a replacement's gas estimate can wrap 64 bits (`Replacement.ReplacementGasCovers`).
* A Solana status of an unknown confirmation level is stored as it is, and the next start then refuses
  the whole journal (`SolanaWallet.UnknownLevelLocksOut`, `SolanaWallet.LockedOutByEmptyLevel`).
* A Solana record counted as expired can turn up again after another was sent, so that two are open
  (`SolanaWallet.OneOpenExactly`, `SolanaWallet.TwoOpenAfterReopening`).
* On a chain of at most 19 finalized blocks an unchosen scan starts at the finalized block, not at the
  first one (`ScanRuns.CursorMoves`).
* A negative amount with a fraction is misprinted, or cannot be printed (`Decimal.NegativePrinted`,
  `Decimal.NegativePanics`).
* A contract creation that pays its new contract has no receiving entry (`Ledger.DoubleEntry`).
* Unpacking accepts operations that packing refuses (`UserOperation.UnpackThenPack`).

## Model

| member | source | states |
|---|---|---|
| WalletTheorems.BroadcastsStayOnDisk | internal/wallet/service.go:556-579 | in every run of quoting, Send, Retry, History and archiving, with failed writes and crashes anywhere, every hash ever broadcast is in journal.json or an archive file |
| WalletTheorems.RestartAlwaysLoads | internal/wallet/journal.go:173-199 | in every run a restart accepts the files, and while no storage fault is signalled journal.json is what memory holds |
| WalletTheorems.OnePaymentPerQuote | internal/wallet/service.go:335-352 | in every run there is at most one record and one broadcast hash per quote ID |
| WalletTheorems.OneOpenNonce | internal/wallet/nonce.go:20-58 | in every run in which the chain never took back an inclusion, at most one recorded nonce at or above the highest finalized nonce seen has no included transaction, before and after a restart |
| WalletTheorems.WritesMatchReads | internal/wallet/journal.go:426-485 | a step changes a record in place only if it is as the operation read it: a broadcast outcome never overwrites an inclusion, and a finalized record is never overwritten |
| WalletTheorems.FinalizedStaysFrozen | internal/wallet/journal.go:426-485 | while the wallet runs, a finalized record stays known exactly as it is, active or archived |
| WalletTheorems.NextFollows | internal/wallet/service.go:576-588 | every step of the running wallet only appends, updates unfinalized records in their mutable part, or archives |
| WalletTheorems.ReplacementsOutbid | internal/wallet/service.go:386-394 | a replacement about to be signed outbids every transaction recorded at its nonce, however old its quote |
| WalletTheorems.ReplacementsClimb | internal/wallet/replacement.go:65-88 | k successive replacements in any run raise the fee cap by at least (6/5)^k |
| WalletTheorems.Remembered | internal/wallet/service.go:331-711 | what the theorems above speak of is what happened: a pair counts as broadcast when it is handed over, a record as sent when its append succeeds, a finalized nonce as seen when it came in, an inclusion as taken back only when a chain answer overwrites one |
| WalletTheorems.FaultMeans | internal/wallet/service.go:555-588 | in a wallet that keeps the invariant a storage fault is signalled only when a write failed, or for a record the journal does not take |
| WalletSteps.NextInv | internal/wallet/service.go:331-711 | every step, faulty write and crash keeps the invariant the theorems rest on |
| WalletSteps.CrashInv | internal/wallet/journal.go:151-199 | a restart reloads a journal that keeps the invariant |
| WalletSteps.UpdateSucceeds | internal/wallet/journal.go:426-485 | a version-checked update keeps the journal good and its files at most one write ahead, whichever way the write fails |
| WalletSteps.ArchiveSucceeds | internal/wallet/journal.go:568-615 | so does archiving, with either of its two writes failing either way |
| JournalDecisions.ArchivingInvisibleInRuns | internal/wallet/journal.go:527-615 | in every run, after storage faults too, archiving, cut anywhere, leaves the mined and final nonces, every in-flight verdict, every hash and quote answer and the refresh list the same; so does a restart then: it decides as memory did if the files were in step or archiving went through, and otherwise as a restart before archiving |
| JournalDecisions.ArchivingInvisible | internal/wallet/journal.go:568-615 | the same for the running wallet, from any good journal |
| JournalDecisions.ArchivingInvisibleAfterRestart | internal/wallet/journal.go:527-566 | every archive file written is accepted by the next start, and which of the two it decides as |
| JournalDecisions.KeptRefreshable | internal/wallet/journal.go:399-422 | archived records were not due for a refresh |
| JournalArchiving.BackingFileSurvives | internal/wallet/journal.go:605-608 | a repeated archive that overwrites a file of the same name overwrites no record that is only there |
| JournalArchiving.GoodStored | internal/wallet/journal.go:568-608 | writing the archive file alone keeps the journal good |
| JournalArchiving.GoodShortened | internal/wallet/journal.go:609-615 | shortening the active file after it keeps the journal good |
| JournalArchiving.FirstHashRetired | internal/wallet/journal.go:605-606 | after shortening, the hash that names the archive file is no longer active |
| JournalArchiving.ShortenedKnown | internal/wallet/journal.go:582-593 | archiving loses no payment, and changes no mined or final nonce |
| JournalArchiving.ReloadKnown | internal/wallet/journal.go:527-566 | merging the files at start-up loses no payment and changes no mined or final nonce |
| JournalArchiving.LoadSucceeds | internal/wallet/journal.go:173-199 | the files of a good journal pass every check of the loader |
| JournalInvariant.GoodAppend | internal/wallet/journal.go:286-306 | appending a new record keeps the journal good |
| JournalInvariant.GoodUpdate | internal/wallet/journal.go:446-484 | updating an unfinalized record keeps the journal good |
| WalletInvariant.BaseGood | internal/wallet/journal.go:487-497 | files left by a failed write still hold a good journal |
| JournalContents.UpdateStores | internal/wallet/journal.go:446-484 | an update stores state, finality, confirmations, fee and error as reported in the first active record of its hash, keeps the payment and every other record, and moves the version exactly if one of the five is new; it is stale exactly for another version or an archived hash |
| JournalContents.ArchivingMakesRoom | internal/wallet/journal.go:568-615 | from 900 records on, archiving moves exactly the finalized or overtaken records older than the last 100, in order, the overtaken ones as replaced; the others stay in order, and none of them before the last 100 is done |
| JournalStore.JournalManager.Open | internal/wallet/journal.go:151-199 | start-up loads exactly what the loader specification says, or refuses the files; records from before versions get version 1 |
| JournalStore.LoadArchives | internal/wallet/journal.go:527-566 | the walk over the archive files keeps the first copy of each hash that is not active |
| JournalStore.JournalManager.HasInFlightTx | internal/wallet/journal.go:225-242 | true exactly if some record has no included transaction at its nonce and no finalized account nonce of its signer and chain past it |
| JournalStore.JournalManager.FindByQuoteID | internal/wallet/journal.go:245-262 | the first record of a quote, archived ones first |
| JournalStore.JournalManager.FindByHash | internal/wallet/journal.go:265-283 | the first record of a hash, archived ones first |
| JournalStore.JournalManager.NonceRecords | internal/wallet/journal.go:499-510 | every record at a nonce, in order |
| JournalStore.JournalManager.NonceMined | internal/wallet/journal.go:512-524 | whether some record at a nonce is included |
| JournalStore.JournalManager.ToRefresh | internal/wallet/journal.go:399-422 | exactly the active records that are not finalized and at no final nonce, newest first |
| JournalStore.JournalManager.AppendAtomic | internal/wallet/journal.go:286-306 | an append succeeds exactly below 1000 records, for a valid record and a written file; it adds the record as version 1 in memory and file, and nothing otherwise |
| JournalStore.JournalManager.UpdateStateAtomicIfVersion | internal/wallet/journal.go:426-485 | the whole new state of a version-checked update, by write outcome; what was reported is in the record, field by field, and no other record changed |
| JournalStore.JournalManager.ArchiveFinalized | internal/wallet/journal.go:568-615 | the whole new state of archiving, by the outcomes of both writes; what leaves and what stays, in order, and that there is room |
| WalletService.Service.Send | internal/wallet/service.go:331-589 | Send is a run of the wallet's steps; it is rejected exactly unless the quote is there, the checks pass and nothing on record stands in its way; a transaction that was sent is on record as quoted, as submitted if the node took it and otherwise as unknown with the node's words, and so is the answer; a rejected, existing or faulted request changes nothing |
| WalletService.Service.Retry | internal/wallet/service.go:591-652 | Retry is a run of the wallet's steps; which of the answers is given when; a known hash is sent again unless its nonce is included, and the active record and the answer then say what the node said |
| WalletService.Service.History | internal/wallet/service.go:654-711 | History is a run of the wallet's steps; from where it stopped it visits the listed records once around, and each one visited shows what the chain answered, or is archived as replaced; if no write fails it succeeds; it offers a new transaction exactly when finality evidence alone clears what is in flight |
| WalletService.Service.QuoteReplacement | internal/wallet/replacement.go:19-88 | a replacement is quoted exactly for a known hash whose nonce has nothing included, for that nonce and all hashes recorded there, at the least fees that suffice |
| WalletAnswers.AnswerShown | internal/wallet/service.go:674-690 | an answer about a record that is as it was listed is written down for it, an inclusion the chain lost becomes unknown again, and nobody else's record changes |
| Replacement.QuoteFees | internal/wallet/replacement.go:61-88 | the bump loop ends at the least fees that are a fifth above every recorded transaction and cover the suggestion, the tip and twice the base fee |
| Replacement.ReplacementOutbids | internal/wallet/replacement.go:66-88 | tip and fee cap at least 6/5 of, and above, every recorded one; fee cap covers tip and twice the base fee |
| Replacement.LeastReplacement | internal/wallet/replacement.go:61-88 | those fees suffice, and any that do are no lower |
| Replacement.LadderGrowth | internal/wallet/replacement.go:73-84 | a chain of replacements grows the fee cap by (6/5)^k |
| Replacement.ReplacementGasCovers | internal/wallet/replacement.go:131-137 | the gas limit covers the estimate exactly when adding a fifth does not wrap 64 bits |
| Replacement.ReplacementGasWraps | internal/wallet/replacement.go:131-137 | an estimate and block limit for which it does not |
| ActivityCompaction.CutOff | internal/wallet/activity.go:206-308 | cut off between any two files, or before activity.json, the index is the old one followed by a prefix of the new hashes, every file is readable, and what is left to add is the rest |
| ActivityCompaction.RetriesConverge | internal/wallet/activity.go:206-308 | after any number of cut-off calls, one that completes leaves exactly old ++ new |
| ActivityCompaction.StoredReadable | internal/wallet/activity.go:61-104 | every file written is within the size and count limits and holds valid hashes |
| ActivityCompaction.ChunksExactly | internal/wallet/activity.go:96-104 | the chunks join to the input, none is empty or above 1000 |
| ActivityCompaction.JsonFits | internal/wallet/activity.go:95-104 | the JSON text of n hashes is 69n+1 bytes, so 1000 fit |
| ActivityFiles.FreshTail | internal/wallet/activity.go:252-259 | once a prefix of the new hashes is known, the rest is what is new |
| ActivityStore.ActivityStore.AddActivityHashes | internal/wallet/activity.go:206-308 | for every clock and write outcome: the index afterwards is the old one plus a prefix of the new hashes, all of them on success, and it succeeds if no write fails; activity.json then holds what is not archived, cut to the newest 200 above 1000; the generation moves if files do |
| ActivityStore.ActivityStore.WriteArchives | internal/wallet/activity.go:283-297 | archives are only added, in order, under names above every existing one |
| ActivityStore.ActivityStore.NextActivityArchiveName | internal/wallet/activity.go:126-142 | the least name above the clock, the last name and every existing name |
| ActivityStore.ActivityStore.LoadActivityIndex | internal/wallet/activity.go:159-195 | returns the index of the files, cached or rebuilt |
| ActivityStore.ReadActivityFile | internal/wallet/activity.go:61-93 | accepts exactly files within the limits whose hashes are valid; a missing file is empty |
| ActivityStore.SplitChunks | internal/wallet/activity.go:96-104 | the chunking loop computes the chunks |
| ActivityStore.Collect | internal/wallet/activity.go:226-259 | the deduplicating loops keep the first occurrence of every unseen hash |
| ActivityCache.CacheMatchesFiles | internal/wallet/activity.go:146-195 | in every interleaving of readers, writers, failed writes and restarts, a cache of the current generation is the index rebuilt from the files |
| ActivityCache.NextInv | internal/wallet/activity.go:144-195 | every step keeps that the archives a reader listed are still there unchanged |
| ActivityPages.AllPages | internal/wallet/activity.go:367-415 | all pages one after the other are the reverse of the index and the journal-only hashes, each hash once |
| ActivityPages.Activity | internal/wallet/activity.go:359-404 | a page, its bounds and its errors |
| ScanRuns.NoGaps | internal/wallet/scanner.go:148-221 | in every run, with failed writes, crashes and settings changed meanwhile, every related hash of every block in [start, next) is in the durable index |
| ScanRuns.CursorMoves | internal/wallet/scanner.go:121-221 | the cursor moves only where settings put it, one block on over a finalized block, or from an unchosen start to an empty range 19 blocks back, on a chain of at most 19 at the finalized block, and at most one block on; an overtaken scan moves nothing |
| ScanRuns.ScansAdvance | internal/wallet/scanner.go:148-221 | k undisturbed scans over final blocks take the cursor from n to n + k, and every related hash of those blocks is in the index |
| ScanRuns.NextInv | internal/wallet/scanner.go:121-221 | every step keeps the coverage of the stored cursor and of the cursor in hand |
| ScanRuns.TokensKept | internal/wallet/scanner.go:191-205 | no listed token is lost, and a found one is listed unless there are 200 |
| Scanner.Scanner.ConfigureScan | internal/wallet/scanner.go:121-146 | the settings call is that step, stores the settings and the start if they can be written, and always moves the generation |
| Scanner.Scanner.BeginScan | internal/wallet/scanner.go:148-163 | the first critical section of a scan is that step |
| Scanner.Scanner.FinishScan | internal/wallet/scanner.go:182-221 | the second is a run of the recording steps, and does nothing when the settings changed; if it succeeds, the block it went on at is in the index, its tokens are listed up to the limit and the cursor is one further, or nothing moved because that block is not final; it succeeds if no write fails and the chain answered |
| TronTransfer.RawReads | internal/wallet/tron_rpc.go:224-256 | a Protocol Buffers reader recovers owner, recipient, amount, contract, block reference, times and fee limit from the body to be signed |
| TronTransfer.TronRaw | internal/wallet/tron_rpc.go:224-256 | the buffer-growing encoder yields such a body, or refuses the block ID |
| TronTransfer.CallReads | internal/wallet/tron_rpc.go:235-243 | the call data of a token transfer reads back recipient and amount |
| ProtoWire.MessageReads | internal/wallet/tron_rpc.go:210-223 | every encoded message reads back as its fields ('Base 128 Varints' and 'Length-Delimited Records') |
| ProtoWire.VarintReads | internal/wallet/tron_rpc.go:213-222 | a varint reads back its number, whatever follows |
| ProtoWire.Appends | internal/wallet/tron_rpc.go:212-223 | appending a field to a buffer appends it to the message; zero is left out |
| TronWallet.AcceptedExactly | internal/wallet/tron.go:125-146 | the restart check passes exactly if the stored bytes are the body with a signature of its hash by the sender |
| TronWallet.TronWallet.Open | internal/wallet/tron.go:94-148 | start-up accepts exactly files whose records all pass, and every file the wallet leaves |
| TronWallet.TronWallet.Send | internal/wallet/tron.go:381-459 | the whole new state for every outcome: the record is in the file before the network gets it, and says afterwards whether the network took it; one record per quote, one open at a time; all stored records keep passing the restart check, whichever write fails; the bandwidth the quote reserved is the signed length plus 64 |
| TronWallet.TronWallet.Broadcast | internal/wallet/tron.go:460-487 | only the stored bytes are transmitted, and the outcome becomes the state, or a fault is signalled |
| TronWallet.TronWallet.Retry | internal/wallet/tron.go:488-508 | rebroadcasts exactly the first record of that ID, if it is open; the whole new state |
| TronWallet.TronWallet.History | internal/wallet/tron.go:509-551 | the refresh tries unfinalized records in turn from where the last one stopped, each at most once, and all of them unless the deadline cuts it short; each tried record is expired, finalized or failed exactly as its verdict says, the others are as before, and nothing moves on the wrong network |
| TronWallet.TronWallet.NoTurnRepeated | internal/wallet/tron.go:509-551 | over all refreshes since the wallet's list last grew, however deadlines cut them, no record is tried twice before every other one that is still unfinalized |
| TronWallet.TronWallet.Save | internal/wallet/tron.go:202-220 | the file after a write, and the fault on failure |
| Rotation.NoTurnTwice | internal/wallet/tron.go:515-537 | however deadlines cut the refreshes of a list, no record is tried twice before every other record that stays unfinalized |
| Rotation.TracedFair | internal/wallet/tron.go:515-537 | the same about any list that refreshes change as they go, seen from its present flags |
| Rotation.TryInTurn | internal/wallet/tron.go:515-537 | the loop makes exactly the tries specified, takes over each answer, and leaves the turn after the last try |
| Rotation.TriesEnough | internal/wallet/tron.go:515-537 | no try is at a finalized record, and unless the deadline cuts the turn short every other record is tried once |
| Rotation.RefreshesCover | internal/wallet/solana.go:363-387 | while the list grows from n to m records, ceil((2m-n)/256) refreshes ask about every record that stays unfinalized, whatever the answers; without appends that is ceil(n/256) |
| Rotation.AskedSince | internal/wallet/solana.go:363-387 | the same about any list that refreshes and appends change as they go: whoever is unfinalized now was asked about within that many refreshes |
| Rotation.NextBatch | internal/wallet/solana.go:363-387 | the visiting loop builds the batch, each record once, and moves the offset past the visited positions |
| Rotation.AppendKeepsQueue | internal/wallet/solana.go:368-386 | an append keeps the order in which the others come up: nobody is skipped |
| SolanaWallet.SolanaWallet.Send | internal/wallet/solana.go:262-355 | the whole new state for every outcome: a transaction is handed to the network only once it is in the file, and every one handed over so far is in it afterwards; one record per quote; nothing while one is open |
| SolanaWallet.SolanaWallet.Quote | internal/wallet/solana.go:175-243 | a quote is refused while a record is open or a fault is signalled, drops the expired ones, and is kept while there are fewer than 64 |
| SolanaWallet.SolanaWallet.Retry | internal/wallet/solana.go:429-475 | retransmits exactly the first record of that signature, if it is open and within its block height; every one handed over stays in the file; the whole new state |
| SolanaWallet.SolanaWallet.History | internal/wallet/solana.go:357-428 | whom it asks, taking up the rotation where the last refresh left it; each record asked about shows the level or failure answered at its place, or that it is past its height, the others are as before; what is written; with at most one record open before, two are open afterwards exactly if an expired one turns up unfinalized while another is open or turns up too; with known states before, one is unknown afterwards exactly if an unknown level was answered; so over any run of the wallet two records come to be open exactly if some refresh made records collide, and a state unknown exactly if some level answered was |
| SolanaWallet.SolanaWallet.AskedWithinEight | internal/wallet/solana.go:363-387 | of any eight refreshes in a row, with sends in between, one asked about every record that was there for all of them and is still unfinalized |
| SolanaWallet.SolanaWallet.Restart | internal/wallet/solana.go:101-125 | the next start accepts the file exactly if every stored state is a known one, so always if no unknown level was ever answered; every transaction handed over is in that file |
| SolanaWallet.RestartExactly | internal/wallet/crosschain_journal.go:16-23 | a file of signed records is refused exactly for an unknown state |
| SolanaWallet.UnknownLevelLocksOut | internal/wallet/solana.go:399-414 | a refresh keeps the whole file acceptable exactly if every level answered is known or comes with a failure |
| SolanaWallet.TwoOpenAfterReopening | internal/wallet/solana.go:167-174 | a run of Quote, Send and History that ends with two open records: the first expires, the second is sent, the first turns up |
| SolanaWallet.OneOpenExactly | internal/wallet/solana.go:397-414 | with at most one record open before, two are open after a refresh exactly if records collide, for every list and every replies |
| SolanaWallet.LockedOutByEmptyLevel | internal/wallet/solana.go:399-414 | a run of Quote, Send and History, answered with an empty level, whose file the next start refuses |
| SolanaWallet.RepliesAt | internal/wallet/solana.go:397-399 | each status goes to the record asked about at its place, and to no other |
| Decimal.FormatThenParse | internal/wallet/decimal.go:45-90 | ParseUnits(FormatUnits(n, d), d) = n for every 256-bit n and every d up to 36 |
| Decimal.ParseThenFormat | internal/wallet/decimal.go:45-90 | FormatUnits(ParseUnits(s, d), d) is s without redundant zeros |
| Decimal.ParseExactly | internal/wallet/decimal.go:45-69 | parsing accepts exactly plain decimals that fit the scale and 256 bits, and yields what they denote; why it refuses the others |
| Decimal.FormatDenotes | internal/wallet/decimal.go:72-90 | the printed text denotes the amount; FormatETH prints the same at 18 decimals |
| Decimal.NegativePrinted | internal/wallet/decimal.go:72-90 | a negative amount prints as the sign and the positive amount exactly if it has no fraction |
| Decimal.NegativePanics | internal/wallet/decimal.go:83-90 | printing a negative amount panics exactly if its fraction fills the scale |
| Ledger.DoubleEntry | internal/chain/activity.go:140-206 | the sends to b in a's ledger are, entry by entry, the receives from a in b's, exactly unless a creation pays its new contract |
| Ledger.LedgerBalances | internal/chain/activity.go:140-206 | per asset and other address, the receives and sends of an owner's ledger come to the Transfer events to and from the owner, WETH deposits and withdrawals, value in and out and unwrapped ether, and the fee to gas used times price; there is nothing else |
| Ledger.ReceiptMovements | internal/chain/activity.go:140-206 | the loop builds the ledger, or refuses a foreign, removed or repeated log; of a reverted receipt only the sender's fee is left; every total of the ledger is the one read off the receipt |
| Ledger.EntriesOf | internal/chain/activity.go:178-203 | the entries of one log, whose totals are what the log says came in and went out |
| Failover.PayloadsGoToProbedEndpoints | internal/chain/fallback.go:114-177 | in every interleaving of requests a payload goes unchanged, only to an endpoint that passed the probe before, at most once per target plus once |
| Failover.ActiveStaysProbed | internal/chain/fallback.go:130-172 | once healthy has been true, active points at a probed endpoint |
| Failover.ProbedMeans | internal/chain/fallback.go:150-160 | in every run, what counts as probed is exactly what passed a probe made in its turn |
| Failover.EveryTargetOnce | internal/chain/fallback.go:149-153 | the tries of a search are at pairwise different endpoints, one at each |
| Failover.NextInv | internal/chain/fallback.go:114-177 | every atomic operation keeps the invariant these rest on |
| Failover.FallbackTransport.RoundTrip | internal/chain/fallback.go:114-177 | one undisturbed request is a run of those operations; it is served by the first endpoint in cyclic order, from the active one or from the one after it if that has just failed, whose probe and send succeed, and by none exactly if there is no such endpoint or it is cancelled or too large; a failover is counted exactly when active changes |
| UserOperation.PairRoundTrip | internal/wallet/erc4337/encoding.go:31-56 | packing and unpacking a pair of 128-bit numbers undo each other, both ways |
| UserOperation.PackUint128Pair | internal/wallet/erc4337/encoding.go:31-49 | the copied bytes are both halves in full width, with each error in order |
| UserOperation.ToPackedExactly | internal/wallet/erc4337/types.go:143-228 | what can be packed, both directions |
| UserOperation.RefusedFirst | internal/wallet/erc4337/types.go:143-216 | an operation that cannot be packed is refused for the first of its problems, in the order of the checks |
| UserOperation.PartsInPlace | internal/wallet/erc4337/types.go:190-253 | verification limit and priority fee are the upper halves, call limit and fee the lower ones, and every other part stays as it is, in both directions |
| UserOperation.PackThenUnpack | internal/wallet/erc4337/types.go:190-253 | every operation that can be packed unpacks to itself |
| UserOperation.UnpackThenPack | internal/wallet/erc4337/types.go:190-253 | a packed operation packs again to itself exactly if its priority fee is within its fee and its paymaster data is empty or at least 52 bytes; the error otherwise |

## Left out

- Network, clocks, randomness and cryptography: answers, times and signatures are inputs. That a hash
  appended to the journal is new, and that a signature recovers to its key's address, are conditions,
  as the code does not check them.
- JSON text, file names as text and file-system calls: a file is a list of records, a directory an
  ordered list of files, and a write has one of three outcomes. Files put there by others are not modelled.
- Record pointers and their copies: records are values.
- 64-bit wrap-around of nonces, versions, block numbers, archive names and counters, except for a
  replacement's gas.
- Building quotes for transfers, exchanges, vaults and escrows, and the checks Send repeats: one input
  says whether they pass. A quote may be added whenever the store takes it.
- UpdateStateAtomic, which only tests call, and the display part of listHistory.
- The rollup fee, the vault events and the totals in the activity view; fetching a page's rows.
- Retry backoff of the scanner and the maintenance loop: timing only.
- Refresh verdicts of a TRON receipt and Solana block heights come in as inputs; and so does what a
  TRON quote computes.
- HTTP headers, timeouts and statistics of the RPC transport, and the failover count under concurrency.
- JSON, hashing and deep copies of user operations.
- WalletService.Service.Send: states one undisturbed call; interleavings are in WalletRuns.
- WalletService.Service.Retry: states one undisturbed call, and whether the stored bytes decode is an input; interleavings are in WalletRuns.
- WalletService.Service.History: states one undisturbed call and not the displayed list; interleavings are in WalletRuns.
- WalletService.Service.QuoteReplacement: the balance, escrow and token checks of a replacement quote are left out.
- WalletTheorems.OneOpenNonce: supposes that no inclusion was taken back, since a reorganisation can open a nonce again.
- Decimal.FormatThenParse: is about amounts that are not negative, as parsing yields no others.
- Ledger.DoubleEntry: leaves out the wrapping contract, whose own ledger has no entries for wrapping.
- Failover.FallbackTransport.RoundTrip: states one undisturbed call; interleavings are in Failover.PayloadsGoToProbedEndpoints.
- SolanaWallet.SolanaWallet.Quote: the remote checks of a quote are one input.
- SolanaWallet.SolanaWallet.History: a record whose signature does not parse cannot be loaded or made, so none is skipped for it.
