# Verified models of the custody vault, the signature ceremony, the component updater and the ABI book

Dafny 4.11 models of the four parts of the application that hold its state and its hardest
arithmetic, with proofs of what each promises. `dafny verify dfyconfig.toml` checks everything.

| part | files | form |
|---|---|---|
| custody vault | `CustodySealing`, `CustodyLedger`, `CustodyVault`, `CustodyRuns`, `CustodyThrottle` | a class over keyring, disk and session; every call to the outside may fail or be where the process stops |
| signature ceremony | `CeremonyChain`, `CeremonyBook`, `CeremonyStore`, `CeremonyMachine`, `CeremonyRuns`, `CeremonySend` | classes for the books under their locks, a machine of small steps for the interleavings |
| component updater | `Manifest`, `InstallStore`, `InstallRuns` | a class over the directory tree and the state file |
| archive extraction | `ExtractPath`, `ExtractFs`, `ExtractTree`, `ExtractUnpack`, `ExtractEntries`, `ExtractArchive` | a class over a file system of directories, files and links |
| ABI book | `Numerals`, `AbiDecimal`, `AbiWords`, `AbiCall`, `AbiText`, `AbiJson`, `AbiBook` | loops proved against the encoding of the ABI specification, a class for the bounded book |

## What is proved

**Custody.** Sealing is symbolic: a sealed piece is a key, a fresh nonce, an AAD and a plaintext, and
opens only under the same key and AAD. A ledger that exists only in proofs records what was sealed.
Between operations the file may be replaced by any mixture of pieces of earlier envelopes and of bytes
nobody sealed, by nothing, or by garbage; the process may stop before any keyring or disk call. Every
run is explained by a plain map (`CustodyRuns.Run`) whose log holds what the vault answered, so a value
read is always the newest (`CustodyRuns.ReadsAreTheNewestWrite`). An interrupted operation leaves the old vault, the new vault,
or one that gives nothing as long as the file is left alone. A vault whose generation counter is gone
gives nothing, whatever file is presented. Undisturbed runs answer exactly like a map behind a passphrase
(`CustodyThrottle.CalmRun`), and while the lockout counter stays in the keyring a success-free stretch
shorter than the cooloff makes at most five passphrase trials, whatever lockout blocks are presented, when
every keyring and disk call takes effect (`CustodyThrottle.GuessingRun`).

**Ceremony.** Any number of concurrent calls, each step one section under one lock, one clock reading
or one call outside. The log of every run is orderly: one signature and then one send per id, nothing
after a reject, expiry is final, every signature is timely on both clocks and commits only to the chain
shown, and every "not submitted" is true (`CeremonyRuns`, `CeremonySend`). It is also stated exactly when
an approval signs, when a parked transaction is sent, and when a refusal is reported as "not submitted".

**Updater.** In every run, failing or stopping anywhere, each recorded current version is on disk,
unpacked from bytes that passed the size, hash and signature checks (`InstallRuns.Run`); recorded
manifests never go back. The version recorded as previous stays there to go back to, unless an install
that failed was to take its place. Extraction decides exactly which archives it accepts, by a condition on
the archive and the file system before the call; it leaves the one tree the entries describe, every entry
at its own path under real directories, and changes nothing outside (`ExtractEntries.UnpackEntries`).

**ABI book.** The decoder accepts exactly the canonical encodings of the "Formal Specification of the
Encoding" in the Solidity Contract ABI Specification; it shows different calls of one function
differently, and it is stated exactly which ABIs have two calls with one text; the carry loops print the
unique numeral; the stamped book is the plain "last 256".

## Where the code says less than its own words

- `clear_slot` answers `Ok` before anything is verified when the presented file does not list the name
  (kit/src/custody.rs:1628-1630). Presented with an older file it leaves a live secret in place;
  `CustodyVault.Vault.ClearSlot` states exactly when an `Ok` means removal, and
  `CustodyRuns.ClearOnAnOlderFile` is the concrete run.
- The comment on the lockout counter (kit/src/custody.rs:140-146) says that deleting it is caught; the
  code reads only the generation counter (kit/src/custody.rs:926). The bound of five trials rests on it:
  `CustodyThrottle.GuessingRun` proves the bound for every run in which the lockout counter stays in the
  keyring, and `CustodyThrottle.TrialsWithoutTheCounter` makes any number of trials at one reading of
  the clock when it may be deleted. A trial also goes uncounted when the process stops, or a keyring call
  fails, after it and before its failure is written: `CustodyThrottle.TrialsStoppedUnwritten` makes any
  number of trials so, and the bound of `CustodyThrottle.GuessingRun` on wrong guesses grows by one for
  each keyring or disk call that did not take effect.
- A vault created where a counter of a wiped vault is left above zero is dead (`CustodyVault.Vault.Init`
  states the exact condition) and stays so as long as its files are left alone
  (`CustodyRuns.InitOnLeftovers`): without an unlock there is no mutation that could carry it past the old
  counter, contrary to the comment at kit/src/custody.rs:831-834.
- Type names that are not canonical are read (kit/src/abi_book.rs:43-52): `AbiWords.ReadsExactlyNames` says
  which names are read, `AbiWords.CanonicalNames` exactly when a name read is the canonical one, and
  `AbiWords.LooseNamesAreRead` is one that is not. Selectors are computed from the canonical name, so
  decoding is not affected.
- Calls of two functions of one contract can show the same text (`AbiCall.OverloadsCanShowTheSame` is one
  such pair). `AbiText.TextIsAmbiguousWhen` gives the exact condition on an ABI: two functions with one
  name, one list of argument names, and types that are position by position both integers, both booleans,
  or byte strings of one length.
- A version directory carries twelve digits of the hash. The tree under a recorded version is always one
  of checked bytes, and agrees with the record in the version and in these digits; it agrees in the full
  hash as long as no two artifacts that installs were asked for share component, version and twelve digits
  (`InstallRuns.Run`), and `InstallRuns.CollisionShows` makes the two differ when they do.
- The previous version is said to stay on disk for a rollback (components/src/install.rs:14-16), but an
  install into its directory removes it before the rename and the commit (components/src/install.rs:337).
  `InstallRuns.Run` says that it stands unless an install that recorded nothing was to take its place;
  `InstallRuns.RollbackLost` is the run in which the rollback is then refused.

## Model

| member | source | states |
|---|---|---|
| CustodyLedger.HeaderNamesItsGeneration | kit/src/custody.rs:1090-1098 | a header that verifies names, nonce for nonce, the one slot map of the generation it carries, whatever known pieces the envelope is made of |
| CustodyLedger.SlotIsTheLedgers | kit/src/custody.rs:1071-1098 | in an envelope whose header verifies, a genuine slot is the very piece that generation was committed with, and the slot names are exactly that generation's |
| CustodyLedger.VerifiedReadIsNewest | kit/src/custody.rs:1594-1602 | when the header verifies at the newest generation, the envelope lists exactly the live names, and a slot either fails to unseal or yields the newest secret of that name |
| CustodyLedger.UnwrappedKeyIsTheLedgers | kit/src/custody.rs:1376-1387 | a data key that unwraps is the vault's own, and only the right passphrase unwraps it |
| CustodyLedger.LockoutIsKnown | kit/src/custody.rs:1107-1111 | a lockout block that opens was sealed under the vault's master key and is marked or of an earlier release; while its counter was never lost it is not ahead of it, and at the counter it carries the one current throttle |
| CustodyLedger.NextGenerationOk | kit/src/custody.rs:1519-1532 | one new header for one new slot map keeps the ledger: still one slot map per generation and one piece per nonce |
| CustodyLedger.SetThrottleOk | kit/src/custody.rs:1288-1295 | advancing the lockout counter outdates every earlier block, so the throttle may change with it; a ledger stays one even when that counter was lost |
| CustodyVault.Vault.BumpAnchor | kit/src/custody.rs:816-822 | the counter becomes the larger of its value and the new one; a failed keyring call leaves it alone |
| CustodyVault.Vault.SeedAnchor | kit/src/custody.rs:835-843 | an absent counter is set, a present one is only raised |
| CustodyVault.Vault.MasterKey | kit/src/custody.rs:760-776 | answers the stored key, or an error that says the keyring call failed or the key is absent |
| CustodyVault.Vault.BlockNamesItsKey | kit/src/custody.rs:1107-1111 | a file whose lockout block opens belongs to a vault with its master key; while the lockout counter was never lost, an accepted file shows the throttle of the last write, and a sound one is the newest |
| CustodyVault.Vault.LoadEnvelope | kit/src/custody.rs:719-732 | answers exactly the envelope on disk when its version is the supported one |
| CustodyVault.Vault.SaveEnvelope | kit/src/custody.rs:738-757 | temporary file and rename are two steps; whatever a failure or stop in either leaves in the temporary file, the envelope is the old one, and on success the new one |
| CustodyVault.Vault.EnforceHighWater | kit/src/custody.rs:880-885 | a generation below the counter is refused, any other one raises the counter to it |
| CustodyVault.Vault.HealLegacyAnchor | kit/src/custody.rs:949-961 | on success the file is the same envelope with its lockout block marked and otherwise unchanged; on failure it is untouched |
| CustodyVault.Vault.EnforceAnchorInitialized | kit/src/custody.rs:917-937 | passes only while the generation counter is there, and then an unmarked block has been replaced on disk by the marked one and a marked one left alone; a missing counter is answered `Corrupt` |
| CustodyVault.Vault.SealNextLockout | kit/src/custody.rs:1288-1303 | the lockout counter moves by one before the block stamped with it is sealed; with the counter never lost, no block runs ahead of it |
| CustodyVault.Vault.WriteLockout | kit/src/custody.rs:1288-1307 | the throttle is stored under the advanced counter; interrupted in between, a healthy vault admits no passphrase any more; a failure leaves counter and throttle both old or both new |
| CustodyVault.Vault.TryDeriveSession | kit/src/custody.rs:1366-1420 | a session is given for the right passphrase only, with the vault's own key and a header not behind the counter; on the newest envelope exactly for the right passphrase |
| CustodyVault.Vault.OpenForUnlock | kit/src/custody.rs:1241-1271 | without failing calls passes exactly the files whose lockout block opens and is not behind its counter while the generation counter is there; what passes is marked on disk, and its throttle is the one the file showed |
| CustodyVault.Vault.RecordFailure | kit/src/custody.rs:1345-1356 | a failed trial raises the count, and the fifth one starts the cooloff from the reading after the trial; only a failing call can leave it uncounted |
| CustodyVault.Vault.TryPassphrase | kit/src/custody.rs:1324-1358 | one trial: success resets the throttle on disk and opens the session, failure records it; on a sound file exactly the right passphrase succeeds; secrets are untouched |
| CustodyVault.Vault.TryOutsideCooloff | kit/src/custody.rs:1309-1358 | inside the cooloff answers `LockedOut` and changes nothing; outside it makes exactly one trial |
| CustodyVault.Vault.Unlock | kit/src/custody.rs:1220-1359 | for any file: a passphrase is tried exactly when the file is accepted and the throttle it shows admits a trial; an `Ok` needs, and without failing calls is given for, a file that passes the guards and opens with this passphrase; success means the right passphrase, a marked block and a reset throttle on disk; a healthy vault unlocks exactly for the right passphrase outside the cooloff, answers `LockedOut` inside it and `Denied` for a wrong one; a stop inside ends the session |
| CustodyVault.Vault.SessionKey | kit/src/custody.rs:1675-1682 | gives the session key exactly inside the auto-lock window and ends the session outside it |
| CustodyVault.Vault.GuardAnchor | kit/src/custody.rs:1583-1588 | what passes opened the vault's own lockout block, found the generation counter in place and left a marked block on disk |
| CustodyVault.Vault.VerifyNewest | kit/src/custody.rs:1594-1600 | passes only for a header at the newest generation, and always for the newest envelope |
| CustodyVault.Vault.SealNextHeader | kit/src/custody.rs:1519-1528 | the counter moves to the next generation only together with a header sealed for exactly the new slots |
| CustodyVault.Vault.ReadSlot | kit/src/custody.rs:1571-1603 | for any file, a value read is the newest committed one, and one is read only, and without failing calls always, when the session is live, the guards pass and the slot opens; an interrupted or outdated file, or a lost generation counter, gives nothing; a healthy unlocked vault answers exactly the live names; the lockout block stays or is marked |
| CustodyVault.Vault.CommitSlots | kit/src/custody.rs:1519-1532 | answers `Ok` exactly when the new generation is committed and its file in place; otherwise nothing happened, or the counter is ahead of the disk and nothing on it can be read |
| CustodyVault.Vault.StoreSlot | kit/src/custody.rs:1504-1532 | on success, and only then, the map with exactly this name changed is on disk; interrupted, it is the old map, or the new one with nothing readable; without failing calls it succeeds exactly for a file at the newest generation |
| CustodyVault.Vault.Put | kit/src/custody.rs:1462-1533 | refines map update: an `Ok` says exactly that the new generation reached the file, with this name changed; it needs, and without failing calls follows from, a live session, a legal name and a file that passes the guards; every failure leaves the old map, or the new one with nothing readable |
| CustodyVault.Vault.DropSlot | kit/src/custody.rs:1645-1651 | refines map removal, with the same outcomes and the same exact condition |
| CustodyVault.Vault.ClearSlot | kit/src/custody.rs:1614-1652 | an `Ok` removed the newest secret exactly when the presented file listed the name or the name was not live; the exact condition for an `Ok` without failing calls; for a listed name an `Ok` says exactly that the new generation reached the file |
| CustodyVault.Vault.List | kit/src/custody.rs:1655-1671 | the names on disk without the reserved one; in a healthy vault exactly the live names |
| CustodyVault.Vault.MintMasterKey | kit/src/custody.rs:969-977 | never replaces a master key |
| CustodyVault.Vault.SealFirstEnvelope | kit/src/custody.rs:1005-1046 | the first envelope: generation 0, no secrets, wrapped for this passphrase |
| CustodyVault.Vault.Init | kit/src/custody.rs:993-1064 | success only on a new store; the vault is healthy when no counter of an earlier vault is above zero, and otherwise dead; stopped anywhere, the disk is unchanged, the vault is healthy, or dead |
| CustodyVault.Vault.LoseGenerationAnchor | kit/src/custody.rs:926-935 | with the generation counter gone nothing can be read |
| CustodyVault.Vault.LoseLockoutAnchor | kit/src/custody.rs:1266-1270 | with the lockout counter gone the vault keeps all that does not rest on it |
| CustodyRuns.MixIsKnown | kit/src/custody.rs:719-732 | an envelope put together from archived pieces and junk holds no genuine piece the vault did not seal |
| CustodyRuns.Perform | kit/src/custody.rs:1137-1671 | every operation, restart, disk replacement or loss of a counter is accounted for by one step of a plain map, and its event is what the vault answered: whatever fails, a write is reported as done exactly when it reached the file and an unlock of a closed vault exactly when a session is open; without failing calls every answer is determined by the state; a dead vault that is left alone gives nothing |
| CustodyRuns.SnapshotWords | kit/src/custody.rs:1137-1671 | the conditions on which answers are judged, read off a state, are those of the vault's own operations |
| CustodyRuns.Run | kit/src/custody.rs:1137-1671 | every run, with the disk exchanged, either counter lost and the process stopping anywhere, is explained by a plain map, and the log holds what the vault answered in each state it went through; a dead vault stays dead; a vault without its generation counter gives nothing more whatever file it is shown; a healthy vault whose files are left alone is healthy or dead whenever no session is open |
| CustodyRuns.HeldMeansWritten | kit/src/custody.rs:1462-1533 | what the explaining map holds was put by an event after which no effective overwrite or removal follows |
| CustodyRuns.ReadsAreTheNewestWrite | kit/src/custody.rs:1571-1603 | in every run from an empty vault a value read is that of a put not followed by an answered put to the name or an effective removal |
| CustodyRuns.ClearOnAnOlderFile | kit/src/custody.rs:1628-1630 | the concrete run in which clearing is answered `Ok` on an older file and the newest secrets keep the name |
| CustodyRuns.InitOnLeftovers | kit/src/custody.rs:1048-1063 | a vault created beside a counter of a wiped vault above zero never gives anything while its files are left alone; beside counters at zero it starts healthy and is later healthy or interrupted |
| CustodyRuns.CounterLostAfterUse | kit/src/custody.rs:904-937 | one answered unlock or read, reported as the vault answered it, marks the lockout block; when the generation counter is lost after it, the next attempt is answered `Corrupt` and nothing is given any more, whatever file is presented |
| CustodyRuns.EarlierVaultIsMarked | kit/src/custody.rs:949-961 | the concrete vault of an earlier release whose unmarked block the first unlock marks |
| CustodyThrottle.CalmStep | kit/src/custody.rs:1137-1671 | without faults or tampering one operation is one step of a map behind a passphrase, a session and a throttle, with the same answer; the names refused are those starting with NUL and, for storing, the three reserved ones |
| CustodyThrottle.CalmRun | kit/src/custody.rs:1137-1671 | a whole calm run answers exactly as the plain machine does |
| CustodyThrottle.FiveWrongThenWait | kit/src/custody.rs:1310-1358 | on the answers alone: when no failure counts or the cooloff is over, wrong passphrases are `Denied` up to five times; after fewer the next guess is decided by its passphrase; after five every guess is `LockedOut` for 300000 ms from the end of the fifth, without prolonging it, and then the passphrase decides again |
| CustodyThrottle.TrialsWithinAllowance | kit/src/custody.rs:1313-1357 | attempts that obey the throttle make no more trials before a moment than the throttle still allows |
| CustodyThrottle.AtMostFiveTrials | kit/src/custody.rs:1313-1357 | a stretch of failed attempts shorter than the cooloff holds at most five trials |
| CustodyThrottle.GuessingRun | kit/src/custody.rs:1220-1359 | with any mix of pieces the file ever held presented (also blocks written during the run), files deleted or damaged, the generation counter lost, restarts, and failing or stopping calls: while the lockout counter stays in the keyring, a stretch of wrong guesses shorter than the cooloff makes at most five passphrase trials, and one more for each keyring or disk call that did not take effect; when all calls take effect at most five, whatever is guessed; a stretch that ends inside held the right passphrase |
| CustodyThrottle.TrialsWithoutTheCounter | kit/src/custody.rs:1266-1295 | once the lockout counter may be lost there is no bound: for every n, losing it, presenting one old envelope and guessing, n times at one reading of the clock, makes n trials |
| CustodyThrottle.TrialsStoppedUnwritten | kit/src/custody.rs:1313-1357 | for every n: stopped after each trial of a wrong passphrase and before its failure is written, the process makes n trials at one reading of the clock, with file and counters unchanged |
| CeremonyChain.FirstLine | kit/src/ceremony.rs:1501 | a line ends at the first line feed and nothing is lost |
| CeremonyChain.LineIsRead | kit/src/ceremony.rs:1501 | a line of a message is among the lines looked at |
| CeremonyChain.ChainTextsRead | kit/src/ceremony.rs:1473-1490 | a number, its decimal numeral and its hexadecimal numeral after `0x` or `0X` name the chain of that number |
| CeremonyChain.ChainLineNames | kit/src/ceremony.rs:1501-1510 | a line `Chain ID: n`, also in lower or upper case, names chain n |
| CeremonyChain.MessageNamesItsChain | kit/src/ceremony.rs:1496-1517 | a message with a line `Chain ID: n` commits to no chain but n |
| CeremonyChain.PayloadChainId | kit/src/ceremony.rs:1473-1490 | refused exactly when the payload or the value under its key cannot be read |
| CeremonyChain.MessageChainIds | kit/src/ceremony.rs:1496-1517 | the loop answers one chain exactly when every `Chain ID:` line reads as that chain, none when there is no such line, and refuses unreadable or conflicting lines |
| CeremonyChain.CommittedChain | kit/src/ceremony.rs:1450-1469 | the chain ids collected all equal a chain exactly when the signed bytes commit to no other |
| CeremonyChain.BindChain | kit/src/ceremony.rs:846-855 | the check passes exactly when the bytes commit to no chain but the one the card shows |
| CeremonyBook.KeepBounded | kit/src/ceremony.rs:562-564 | trimming keeps the bound |
| CeremonyBook.ElapsedOnBothClocks | kit/src/ceremony.rs:798-802 | less than the limit has passed exactly when it has on the monotonic and on the wall clock |
| CeremonyBook.KeepOneMore | kit/src/ceremony.rs:561-564 | dropping the smallest member after each insertion keeps the largest members of everything inserted |
| CeremonyBook.RememberOneMore | kit/src/ceremony.rs:816-819 | remembering ids one by one is remembering them together |
| CeremonyBook.WatchingOk | kit/src/ceremony.rs:567-574 | watching keeps the books disjoint and bounded, and the watched expired ids among the watched |
| CeremonyBook.RememberingOk | kit/src/ceremony.rs:556-565 | remembering expired ids keeps the books disjoint and bounded |
| CeremonyBook.SweptOk | kit/src/ceremony.rs:807-821 | a sweep keeps the books disjoint and bounded |
| CeremonyBook.SweptIsWithin | kit/src/ceremony.rs:807-821 | a sweep leaves pending exactly what is in time on both clocks |
| CeremonyBook.LiveIsTaken | kit/src/ceremony.rs:807-834 | a request is taken exactly when it is pending and in time on both clocks |
| CeremonyBook.PopFirst | kit/src/ceremony.rs:563 | takes out the smallest member |
| CeremonyBook.Book.RememberExpired | kit/src/ceremony.rs:556-565 | a watched id joins the watched memory; otherwise the bounded memory becomes the 4096 largest of old members and this id |
| CeremonyBook.Book.Watch | kit/src/ceremony.rs:567-574 | the watched ids become the 64 largest; dropped ones leave the expired memory with them |
| CeremonyBook.Book.Live | kit/src/ceremony.rs:807-821 | exactly the requests that outlived their time on either clock leave the pending map and are remembered, whatever the order |
| CeremonyBook.Book.TakeLive | kit/src/ceremony.rs:826-834 | takes a request exactly when it is pending and in time on both clocks; after the sweep an id is answered as expired, taken out, or unknown, and only this id leaves |
| CeremonyStore.PreparedStore.Sweep | kit/src/ceremony.rs:662-678 | the two passes, with the clocks read for each slot, leave live exactly what was live and less than 120 s old on both clocks, and of the rest exactly the tombstones less than an hour after their parking |
| CeremonyStore.ReflectsOneMore | kit/src/ceremony.rs:631-678 | after every operation each slot goes back to the last operation on its id, which parked it; it is that transaction when every sweep found it in time and its tombstone otherwise, and one always in time is still there |
| CeremonyStore.AnswerReflects | kit/src/ceremony.rs:643-650 | what is handed out or discarded is what the last parking of the id left |
| CeremonyStore.RunStore | kit/src/ceremony.rs:621-678 | in every run of a new store an id leaves it at most once between two parkings; what is handed out alive was parked last and found in time by every sweep since, and a transaction always found in time is handed out |
| CeremonyMachine.LockBookInv | kit/src/ceremony.rs:807-821 | locking the book with its sweep keeps the invariant of all interleavings |
| CeremonyMachine.LockStoreInv | kit/src/ceremony.rs:952-957 | locking the store with its sweep keeps the invariant, and what is live afterwards is within its time |
| CeremonyMachine.MintInv | kit/src/ceremony.rs:977 | minting an id keeps it: the id is new |
| CeremonyMachine.InsertInv | kit/src/ceremony.rs:987-1000 | opening a request keeps it: the id is placed once |
| CeremonyMachine.TakeInv | kit/src/ceremony.rs:826-834 | taking a request keeps it: the call is the only holder |
| CeremonyMachine.GateInv | kit/src/ceremony.rs:1059-1062 | the raw-ack gate keeps it: a request put back has its own opening time |
| CeremonyMachine.CheckInv | kit/src/ceremony.rs:841-856 | the last check keeps it: what is cleared is within its time and on the chain shown |
| CeremonyMachine.RememberLateInv | kit/src/ceremony.rs:842-844 | remembering a request that expired in a call keeps it |
| CeremonyMachine.SignInv | kit/src/ceremony.rs:1236-1237 | signing keeps it: nothing but the opening was logged for the id before |
| CeremonyMachine.ParkInv | kit/src/ceremony.rs:1142 | parking keeps it: the id is in no other place |
| CeremonyMachine.TakeSignedInv | kit/src/ceremony.rs:1272-1280 | taking a parked transaction keeps it: only a live slot goes on to a send |
| CeremonyMachine.SendInv | kit/src/ceremony.rs:1319 | sending keeps it: nothing can follow for the id |
| CeremonyMachine.DiscardParkedInv | kit/src/ceremony.rs:1414-1416 | rejecting a parked transaction keeps it |
| CeremonyMachine.RejectPendingInv | kit/src/ceremony.rs:1417 | rejecting a pending request keeps it |
| CeremonyMachine.StepInv | kit/src/ceremony.rs:974-1418 | every step of every call, in any interleaving, keeps the invariant |
| CeremonyMachine.RunInv | kit/src/ceremony.rs:974-1418 | the invariant holds after every run |
| CeremonyRuns.OneSignatureOneSend | kit/src/ceremony.rs:1047-1281 | in every run an id has at most one signature and then at most one send, and nothing follows a send or a successful reject |
| CeremonyRuns.ExpiryIsFinal | kit/src/ceremony.rs:798-834 | an id once reported as expired is never signed, sent or rejected, whatever the wall clock does |
| CeremonyRuns.SignaturesAreTimelyAndOnChain | kit/src/ceremony.rs:841-856 | every signature rests on an opening whose last check reads less than 15 minutes later on the monotonic clock and on the wall clock, raw-ack retries included, and commits only to the chain shown |
| CeremonyRuns.SendsAreSignedAndTimely | kit/src/ceremony.rs:1265-1319 | every send is of a transaction signed before; a parked one is taken out less than 120 s after its parking on the monotonic clock and on the wall clock |
| CeremonyRuns.OthersKeepStage | kit/src/ceremony.rs:826-834 | no step of another call moves a call |
| CeremonyRuns.ApprovalSigns | kit/src/ceremony.rs:1047-1237 | an approval whose own calls do not fail signs exactly when its request is pending and in time, acknowledged where that is asked for and of the right kind, and the last check finds it in time and on the chain shown, whatever other calls do in between |
| CeremonyRuns.ParkedIsSent | kit/src/ceremony.rs:1265-1281 | a parked transaction that the sweep of its taking finds in time is sent, and no other, whatever other calls do in between |
| CeremonyRuns.SignedGoesOn | kit/src/ceremony.rs:1142-1319 | what was signed for a later send is parked, and what was signed to be sent at once is sent, whatever other calls do in between |
| CeremonyRuns.OpenedIsPending | kit/src/ceremony.rs:974-1000 | a request that was opened is pending with its own reading, and can be taken for 15 minutes on both clocks |
| CeremonyRuns.RefusedIsPendingAgain | kit/src/ceremony.rs:1059-1062 | a request refused for a missing acknowledgement is pending again, unchanged and with its own deadline |
| CeremonyRuns.RejectTakesOut | kit/src/ceremony.rs:1410-1418 | rejecting takes out a parked transaction at once and a pending request when it is in time, and nothing of the id is pending afterwards |
| CeremonyRuns.ExpiredIsReported | kit/src/ceremony.rs:807-834 | an approval or a query of an id remembered as expired reports it so, and every watched request out of time is remembered |
| CeremonyRuns.LateIsReported | kit/src/ceremony.rs:841-845 | a request out of time at the last check is reported as expired, and remembered when it is watched |
| CeremonyRuns.OnePlace | kit/src/ceremony.rs:826-834 | at any moment an id is pending, or in one call, or parked, never two of these |
| CeremonyRuns.BooksHold | kit/src/ceremony.rs:544-579 | at any moment the three books are disjoint and bounded, and no signed or rejected id reads as expired |
| CeremonyRuns.StepKeepsWatched | kit/src/ceremony.rs:567-574 | a step never forgets a watched expired id that is still among the watched |
| CeremonyRuns.WatchedExpiryIsKept | kit/src/ceremony.rs:536-574 | a watched id that reads as expired does so for good, until 64 larger ids were watched |
| CeremonySend.RecordInv | kit/src/submitted_log.rs:739-805 | recording an attempt keeps the invariant: a second attempt on the same bytes is counted before it can send |
| CeremonySend.AcceptInv | kit/src/ceremony.rs:1319-1320 | an acceptance keeps it |
| CeremonySend.ReportInv | kit/src/ceremony.rs:1323-1342 | the verdict keeps it: "not submitted" needs a first, sole and definitively refused attempt |
| CeremonySend.RestartInv | kit/src/submitted_log.rs:575-616 | a restart keeps it: counts are lost, the durable record or its loss of certainty is not |
| CeremonySend.AcceptedIsReported | kit/src/ceremony.rs:1319-1322 | an attempt whose bytes the node takes and answers for is reported as submitted |
| CeremonySend.ReportSaysWhich | kit/src/ceremony.rs:1323-1342 | an attempt not answered with success reports "not submitted" exactly when it was first, sole and definitively refused, and otherwise an unknown outcome |
| CeremonySend.SoleRefusalIsReported | kit/src/ceremony.rs:1323-1338 | the first submission of some bytes, definitively refused while no other attempt submits them, is reported as not submitted, whatever happens to other bytes |
| CeremonySend.NotSubmittedMeansNotAccepted | kit/src/ceremony.rs:1319-1342 | in every run, when an attempt reports the bytes as not submitted, no attempt has had them accepted |
| Manifest.CheckEntrypoints | components/src/manifest.rs:361-373 | passes exactly for at most 32 safe relative paths |
| Manifest.ValidateArtifacts | components/src/manifest.rs:416-437 | passes exactly when every artifact is on a known platform and keeps its field rules |
| Manifest.HttpsUrlsHaveAHost | components/src/manifest.rs:348-359 | accepted are exactly the printable addresses of at most 2048 characters that are `https://`, a host that is not empty and holds no user information, and nothing or a path, query or fragment |
| Manifest.Validate | components/src/manifest.rs:376-440 | passes exactly for a document that keeps every field rule and names no component twice |
| Manifest.VerifyStream | components/src/manifest.rs:284-315 | for any way the reads cut the stream: answers the length and hash of exactly the bytes read, when no read fails and the signature covers them in the right domain; a failing read is reported as such |
| Manifest.DomainEnds | components/src/manifest.rs:257-263 | a trusted comment is in a domain exactly when it is the domain, or the domain and a space or tab begin it |
| Manifest.DomainsDiffer | components/src/manifest.rs:257-263 | no signature serves both a manifest and an artifact |
| Manifest.VerifyManifest | components/src/manifest.rs:193-220 | accepts exactly: small enough, signed in the manifest domain, valid, issued by now, not expired, and not behind the last one seen |
| Manifest.Find | components/src/manifest.rs:128-130 | the first component of that name, no earlier one having it; none when there is none |
| Manifest.DirNameStaysBelow | components/src/install.rs:314-322 | a version directory is one normal path component |
| Manifest.NameStaysBelow | components/src/manifest.rs:317-324 | a component directory is one normal path component, apart from staging and the state file |
| Manifest.DirNameTellsApart | components/src/install.rs:314-322 | one directory name means one version and the same twelve hash digits |
| InstallStore.Store.ReadState | components/src/install.rs:140-153 | the recorded state, the empty one when nothing is recorded, an error when it is damaged |
| InstallStore.Store.WriteState | components/src/install.rs:155-167 | the new state or the old one, never a mixture; recorded manifests stay in order; a single failing call among its three makes it fail |
| InstallStore.Store.RecordManifest | components/src/install.rs:170-179 | records a manifest exactly when none is recorded, it is newer, or it is the recorded one, and changes nothing else |
| InstallStore.Store.CheckDownload | components/src/install.rs:269-300 | passes only for bytes of the right size, hash and signature; without failing calls exactly for these, and names the most precise cause |
| InstallStore.Store.Stage | components/src/install.rs:262-309 | a staged tree is unpacked from checked bytes |
| InstallStore.Store.FreeTarget | components/src/install.rs:329-338 | frees the place of a new version and never touches the current one |
| InstallStore.Store.PlaceTree | components/src/install.rs:329-340 | the tree stands in its place, everything current stands as before |
| InstallStore.Store.Undo | components/src/install.rs:358-365 | a tree that was not committed is removed, for certain when no further call fails; when the state still refers to its place nothing changes |
| InstallStore.Store.Commit | components/src/install.rs:341-374 | the state file decides: the new version is recorded, or the recorded state is the old one and every current version stands |
| InstallStore.Store.DropOld | components/src/install.rs:367-373 | after the commit exactly the version that fell off is removed |
| InstallStore.Store.Swap | components/src/install.rs:314-378 | the state is the old one or the committed one; the current version is untouched until the commit; an uncommitted swap takes no tree but one in its own place, and leaves none behind when at most one call failed |
| InstallStore.Store.Choose | components/src/install.rs:202-229 | without failing calls records the manifest exactly when it is in sequence and offers the component for the platform, before anything else happens; a missing component and a component without an artifact for the platform or for any platform are each answered as such, and nothing else is |
| InstallStore.ChosenIsListed | components/src/manifest.rs:97-106 | the artifact chosen is the one listed for the platform, or where none is the one listed for any platform; there is one exactly when either is listed |
| InstallStore.Store.Install | components/src/install.rs:192-246 | for any failures: every current version stays in place until a new one from checked bytes is recorded, and every previous version unless a failed install was to take its place; every `Ok` means that the version of the component and the hash of the artifact listed for the platform are recorded, of the one for any platform only where none is listed, and an installation leaves the tree of that artifact; without failing calls an installation succeeds exactly when everything it needs goes well, and keeps a clean store clean; a failed one leaves no unreferenced tree in a clean store when at most one call failed; the answer names the version and the one it replaced, and what is missing from the manifest |
| InstallStore.SwapFailed | components/src/install.rs:337-366 | a swap that is not committed leaves every other tree; with its place empty or referenced it leaves nothing unreferenced |
| InstallStore.PreviousAfter | components/src/install.rs:351-374 | after a commit the previous version is the one that was current and stands; without one it stands unless it was to be replaced |
| InstallStore.Store.Rollback | components/src/install.rs:381-400 | exchanges current and previous, exactly when the previous tree is there; a failure changes nothing |
| InstallStore.RollbackUndoesItself | components/src/install.rs:396-397 | a second rollback restores the state |
| InstallStore.Store.ClearComponent | components/src/install.rs:421-443 | removes exactly what the state does not keep and counts it |
| InstallStore.Store.Recover | components/src/install.rs:404-446 | from any state: staging is empty, exactly the unreferenced entries are gone, the report counts them; also when it fails nothing kept is lost |
| InstallStore.Store.RecoverTwice | components/src/install.rs:404-446 | a second recovery removes nothing |
| InstallStore.CleanHoldsTwo | components/src/install.rs:367-373 | a clean store holds at most two versions of a component |
| InstallStore.EntryAdded | components/src/install.rs:339 | adding a checked tree keeps every current version in place |
| InstallStore.EntryRemoved | components/src/install.rs:337 | removing an entry that is not current keeps every current version in place |
| InstallStore.MonotoneGrows | components/src/manifest.rs:223-238 | a manifest in sequence extends a monotone history |
| InstallRuns.InvMeansChecked | components/src/install.rs:182-188 | a recorded current version stands on disk, unpacked from checked bytes, under its own version and hash digits, and with its full hash when no two artifacts asked for collide in twelve digits |
| InstallRuns.Run | components/src/install.rs:155-446 | after any run of record, install, rollback and recover, failing or stopping anywhere: every current version is there and checked, record and tree agree in the full hash unless artifacts asked for collide in twelve digits, and of two recorded manifests the later has no smaller sequence and the same sequence means the same digest; a recorded previous version stands unless an install that recorded nothing was to take its place; each operation leaves the recorded state or takes it one step: manifest noted, planned version committed, or current and previous exchanged |
| InstallRuns.InstallKeepsPrevious | components/src/install.rs:329-374 | an install keeps every previous version, but perhaps its own component's when it was to replace it and recorded nothing |
| InstallRuns.ReinstallFails | components/src/install.rs:192-374 | the run of three installs whose last fails in exactly one call: at the rename the place of the previous version is empty, at the state file it holds the new tree |
| InstallRuns.CollisionShows | components/src/install.rs:329-400 | from a new store, by three installs and a rollback: an artifact shares version and twelve digits with the previous version, the write of the state file fails after it took its place, and the rollback leaves a current record whose hash is not that of its tree |
| InstallRuns.RollbackLost | components/src/install.rs:337-394 | from a new store: the previous version is installed again and the rename fails after its directory was removed; it is still recorded, and the rollback is refused |
| InstallRuns.OlderManifestStaysOut | components/src/install.rs:170-179 | once a manifest was recorded, an older one is refused after any run |
| ExtractPath.Split | components/src/extract.rs:53 | no component holds a separator |
| ExtractPath.SafeRelativePath | components/src/extract.rs:42-67 | accepts exactly the safe paths and answers their normal components |
| ExtractPath.SafePathStaysBelow | components/src/extract.rs:40-67 | every component of a safe path, at most 32 of them, names an entry of its own directory; the path is no longer than 1024 bytes, is relative, and holds no NUL, backslash or colon |
| ExtractPath.PlainPathIsSafe | components/src/extract.rs:42-67 | every path of at most 32 plain components and 1024 bytes is accepted, as these components |
| ExtractPath.SplitJoin | components/src/extract.rs:52-63 | writing normal components out and reading them back gives the same components |
| ExtractPath.LexicalTarget | components/src/extract.rs:376-394 | the loop is the walk over the target's parts, and fails exactly when it climbs above the root |
| ExtractUnpack.StayingIsRelative | components/src/extract.rs:376-394 | a target that stays in the tree is relative and holds no NUL, backslash or colon |
| ExtractUnpack.PlainTargetStays | components/src/extract.rs:376-394 | a target of plain components after at most as many steps up as the link lies deep is accepted |
| ExtractFs.ResolvesToItself | components/src/extract.rs:422-432 | a path without links leads to itself, or nowhere when it does not exist |
| ExtractFs.LexicalIsPhysical | components/src/extract.rs:374-394 | where no link is followed, a target leads to the place it reads as |
| ExtractFs.Disk.CreateDirAll | components/src/extract.rs:275-277 | makes exactly the missing directories of the path; without failing calls it succeeds exactly when no part of the path is a file |
| ExtractFs.Disk.CreateNew | components/src/extract.rs:274-289 | creates a file that was not there, under real directories; without failing calls exactly when there is room |
| ExtractFs.Disk.MakeLink | components/src/extract.rs:413-419 | creates a link at its own path, exactly when its directory is there and the path is free |
| ExtractUnpack.PlaceEntry | components/src/extract.rs:335-367 | one entry: it stands at its own path and the tree stays free of links; without failing calls accepted exactly when it is acceptable and there is room |
| ExtractUnpack.ParentHasNoLink | components/src/extract.rs:438-458 | passes only when no part of the parent path is a link |
| ExtractUnpack.PlaceLink | components/src/extract.rs:398-420 | a link stands at its own path under real directories; nothing outside the tree changes |
| ExtractUnpack.MakeLinks | components/src/extract.rs:397-434 | every link is placed at its own path and resolves inside the tree |
| ExtractTree.DescribedIsTree | components/src/extract.rs:308-372 | only one tree fits the description: every entry at its path, and nothing new but the entries and the directories above them |
| ExtractEntries.BothPasses | components/src/extract.rs:308-372 | what both loops leave is the tree the entries describe |
| ExtractEntries.NoRoom | components/src/extract.rs:337-353 | an entry for which there is no room clashes with an earlier one or exceeds the size |
| ExtractEntries.StuckIsUnacceptable | components/src/extract.rs:398-420 | a link that cannot be placed clashes with another entry or leaves the tree as text |
| ExtractEntries.PlacedWithoutClash | components/src/extract.rs:308-372 | where every entry stands at its own path no entry is in the way of another |
| ExtractEntries.FirstPassOver | components/src/extract.rs:313-368 | the loop over the entries, with its counters, refuses only unacceptable archives |
| ExtractEntries.PassesDescribe | components/src/extract.rs:308-420 | when both passes placed everything, what stands is exactly the tree computed from the entries |
| ExtractEntries.UnpackEntries | components/src/extract.rs:308-372 | nothing outside the destination changes; on success every entry stands at its own path under real directories, nothing else is there, links resolve inside and the bytes are the sum of the lengths within the cap; the tree is the one computed from the entries; without failing calls exactly the acceptable archives whose links resolve in that tree are unpacked, a condition on the archive and the file system before the call |
| ExtractArchive.ZipCentralRecords | components/src/extract.rs:146-173 | the number of records back to back from the start, refused above the limit |
| ExtractArchive.LaidOutIsRecord | components/src/extract.rs:146-173 | the mark, 24 bytes, three little-endian lengths, 12 bytes, then name, extra field and comment of these lengths are one record |
| ExtractArchive.CountsEveryRecord | components/src/extract.rs:146-173 | records written one after another are all counted, and nothing after them |
| ExtractArchive.NamesCount | components/src/extract.rs:181-188 | as many names as records means no name twice |
| ExtractArchive.RecordIsEntry | components/src/extract.rs:193-245 | exactly these records are acceptable, by path and unix mode: a path ending in a slash of directory type or none, otherwise a readable file or typeless one, or a link whose readable target has at most 1024 bytes; and they stand as directory, file of their length, and link to their content |
| ExtractArchive.UnpackZip | components/src/extract.rs:175-251 | the same guarantees and the same tree as for tar, and every record stands as the directory, file or link its path and unix mode say; no name twice, and no record that the reader left out: a reader that stopped early is refused; without failing calls exactly the archives that meet these conditions are unpacked |
| ExtractArchive.ExtractInto | components/src/extract.rs:85-129 | each format leaves the one tree its entries describe, and without failing calls exactly the archives that fit are unpacked; a raw artifact is one file |
| ExtractArchive.Extract | components/src/extract.rs:71-83 | only what lies under the destination changes, and a failure removes it again; an unpacked zip was read in full and each record stands as what it is; without failing calls it succeeds exactly when the destination can be made and the archive fits |
| Numerals.NumeralReadsBack | kit/src/abi_book.rs:125-140 | a numeral has no leading zero and reads as its number |
| Numerals.NumeralIsUnique | kit/src/abi_book.rs:125-140 | a numeral without leading zero is the numeral of its value |
| Numerals.HexNumeralReadsBack | kit/src/ceremony.rs:1484 | a hexadecimal numeral has hexadecimal digits and reads as its number |
| Numerals.ParsesSpellings | kit/src/abi_book.rs:45-60 | the integer parser reads a text as a number exactly when it is the numeral of the number after zeros and an optional plus sign |
| AbiDecimal.TimesByte | kit/src/abi_book.rs:127-138 | one round of the nested carry loops multiplies by 256 and adds the byte, with carries below 256 and no leading zero |
| AbiDecimal.WordDecimal | kit/src/abi_book.rs:125-140 | the unique decimal numeral of the big-endian value |
| AbiWords.ReadsExactlyNames | kit/src/abi_book.rs:44-64 | a name is read as a type exactly when it is one of its names: `address`, `bool`, or base and width, the width of `uint` and `int` absent for 256, otherwise a numeral after zeros and an optional plus sign, within the legal widths |
| AbiWords.CanonicalReadsBack | kit/src/abi_book.rs:66-74 | the canonical name of a type reads back as the type |
| AbiWords.CanonicalNames | kit/src/abi_book.rs:43-74 | a name that is read is the canonical one exactly when it has no width or its width is written as a numeral: not absent, no leading zero, no plus sign |
| AbiWords.CanonicalNamesTellApart | kit/src/abi_book.rs:66-74 | different types have different canonical names |
| AbiWords.LooseNamesAreRead | kit/src/abi_book.rs:45-52 | the concrete name with a leading zero that is read and not canonical |
| AbiWords.PositiveRange | kit/src/abi_book.rs:101-110 | zero padding with a clear top bit is the positive half range |
| AbiWords.NegativeRange | kit/src/abi_book.rs:101-110 | one padding with a set top bit is the negative half range |
| AbiWords.ReadIsEncode | kit/src/abi_book.rs:77-121 | a word reads as a value exactly when it is the encoding of that value in the ABI specification |
| AbiWords.HexSpells | kit/src/abi_book.rs:80-92 | two lower-case hexadecimal digits for each byte, the high half first |
| AbiWords.ShownIsSaid | kit/src/abi_book.rs:77-121 | the text of a word says what it holds: the digits of its address or bytes after `0x`, `true` for one and `false` for zero, the numeral of its unsigned or signed number |
| AbiWords.ShowTellsApart | kit/src/abi_book.rs:77-121 | two values of one type with the same text are the same value |
| AbiWords.Negated | kit/src/abi_book.rs:110-117 | the two's complement loop gives the magnitude of every negative word, the smallest included |
| AbiWords.DecodeInt | kit/src/abi_book.rs:100-120 | succeeds exactly when the signed value fits the width, and prints it |
| AbiWords.Decode | kit/src/abi_book.rs:77-121 | succeeds exactly on canonical encodings, and the text says what the word holds, digit by digit |
| AbiCall.ReadArgumentsIsEncode | kit/src/abi_book.rs:254-257 | argument words read as values exactly when they are their encoding |
| AbiCall.DecodesExactlyEncodings | kit/src/abi_book.rs:245-258 | a call is decoded exactly when it is the selector followed by the canonical encoding of each argument, and the value sent is allowed |
| AbiCall.DecodeArguments | kit/src/abi_book.rs:253-257 | the loop gives label and text of every argument word, and nothing when one does not read |
| AbiCall.DecodeCall | kit/src/abi_book.rs:245-259 | the function and arguments that the call reads as, each with the text that says what its word holds, and nothing for any other data |
| AbiCall.TransferText | kit/src/abi_book.rs:245-259 | the concrete form of the text: name, and label and value of every argument in order |
| AbiCall.FindFunction | kit/src/abi_book.rs:249 | the first function with this selector, no earlier one having it; none when there is none |
| AbiCall.ArgumentsTellApart | kit/src/abi_book.rs:253-258 | one argument text is the text of one list of values |
| AbiCall.OneTextOneCall | kit/src/abi_book.rs:245-259 | for one function, two different calls never show the same text |
| AbiCall.OverloadsCanShowTheSame | kit/src/abi_book.rs:245-259 | the concrete pair of overloads whose calls show the same text |
| AbiText.JoinedTellsApart | kit/src/abi_book.rs:253-258 | parts without commas are determined by their joined text |
| AbiText.TextTellsParts | kit/src/abi_book.rs:245-259 | for plain names, two calls show one text exactly when function name, argument names and the text of each value agree |
| AbiText.CompatibleShowAlike | kit/src/abi_book.rs:77-121 | two types can show the same text exactly when both are integers, both booleans, or both byte strings of one length |
| AbiText.LookAlikesAreTwoCalls | kit/src/abi_book.rs:177-259 | two functions of one name, one list of argument names and compatible types have two different calls with one text |
| AbiText.TwoCallsLookAlike | kit/src/abi_book.rs:177-259 | two different calls with one text come from two such functions |
| AbiText.TextIsAmbiguousWhen | kit/src/abi_book.rs:177-259 | an ABI as it is read has two different calls with one text exactly when two of its functions look alike |
| AbiJson.ReadEntry | kit/src/abi_book.rs:183-236 | an entry gives the one function it describes, or describes none |
| AbiJson.TransferSignature | kit/src/abi_book.rs:218-229 | the text that is hashed for the selector: name and canonical types, separated by commas |
| AbiJson.ArgumentNames | kit/src/abi_book.rs:199-214 | an argument keeps a safe name, and is named by its position otherwise |
| AbiJson.OnceIsAlone | kit/src/abi_book.rs:230-238 | a selector counted once is a function alone with its selector |
| AbiJson.Retain | kit/src/abi_book.rs:238 | keeps exactly the functions whose selector occurs once |
| AbiJson.FromAbiJson | kit/src/abi_book.rs:177-240 | exactly the described functions among the first 512 entries that are alone with their selector; no two share one, and all names are plain |
| AbiBook.OldestGoes | kit/src/abi_book.rs:283-293 | the smallest stamp belongs to the address that all others were registered after |
| AbiBook.Book.Register | kit/src/abi_book.rs:278-296 | the book is the 256 most recently registered distinct addresses, each with its latest ABI |
| AbiBook.Book.Get | kit/src/abi_book.rs:299-302 | answers exactly the recent addresses, with the ABI registered last |
| AbiBook.RegisterAll | kit/src/abi_book.rs:278-296 | the same after any sequence of registrations |

## Left out

- Cryptographic primitives: Argon2id, AES-GCM, minisign, Keccak, SHA-256 and ECDSA are symbolic sealing, an
  abstract verifier or a hash given as a function.
- Threads inside the vault: each public custody operation is one step. The mutex is released inside a read
  before the file is loaded, which the model does not show.
- CustodyVault.Vault.MasterKey: a stored key of a wrong length, which the code answers like an absent one
  (kit/src/custody.rs:763-765), is not modelled; keyring entries have the right form here, so the `Corrupt`
  answer of `read_anchor` to a malformed counter (kit/src/custody.rs:801-803) is left out too.
- Keyring entries deleted by others, except the two counters.
- Stepping past a generation of 2^64 - 1 is refused as in the code; the lockout counter is unbounded here.
- `custody_get` and `wallet_slot_get` gate reads by name prefix, `ensure_auto_unlocked` supplies a stored
  passphrase; neither adds state.
- The order of `list` and the ciphertext sizes it shows.
- `request_siwe_budgeted` and `SessionBudget`: counters that the signer does not consult.
- Human-readable decoding of requests; whether a request needs the raw-data acknowledgement is an input.
- Restarts of the ceremony: everything in it is in memory, and ids start at a random base.
- CeremonySend.RecordInv: the durable record is its set of hashes, whether it is complete, and the attempt
  counts; eviction by nonce, network sections and file formats are left out. Which node errors are
  definitive is an input.
- CeremonySend.RestartInv: a record that is opened again is kept or known to be incomplete; the bound on
  upgrades and the file set aside are left out.
- Receipt polling and the values reported after a send.
- InstallStore.Store.Stage: unpacking and the health check are inputs of an install; extraction is modelled by itself.
- Removing a directory is one step; the contents of the temporary state file are not shown.
- `rename` and `read_dir` on a store that other processes change at the same time.
- Byte decoding of tar, gzip, xz and zip, and the cap on the decompressed xz stream: archives are entry lists,
  apart from the walk over the zip central directory.
- File modes, and the branches for other systems than unix. The destination is given at its canonical place.
- ExtractArchive.ExtractInto: a raw artifact has no size cap of its own; its guarantee about the reported
  bytes is stated for artifacts within the cap, which a valid manifest implies.
- Network transport, the operating system keyring, the command layer and everything outside these files.
