# Keyhotee: verified models

Dafny models of the algorithms and protocols inside Keyhotee, with proofs of what they promise.
`dafny verify dfyconfig.toml` checks all of it.

| files | what they model |
|---|---|
| `MerkleDamgard.dfy`, `Sha2.dfy`, `Sha2Families.dfy` | the SHA-2 engine of the miner: padding, unrolled rounds, streaming contexts |
| `OutboxProtocol.dfy`, `OutboxTurns.dfy`, `OutboxQueue.dfy` | the outbox as a state machine over all interleavings and failures, its turns whole and broken off, and the queue object that performs its steps |
| `Momentum.dfy`, `MomentumComplete.dfy` | the proof-of-work search by many threads over one shared lossy table: what it reports is true, and what it misses |
| `Text.dfy`, `VCard.dfy`, `VCardRoundTrip.dfy`, `VCardExact.dfy`, `ContactVCard.dfy` | the vCard printer and parser, and contacts through them |
| `Mailbox.dfy`, `AddressBook.dfy` | the indexes of a mail folder and of the address book |
| `PoolServer.dfy`, `Reward.dfy` | share accounting of the mining pool, and the block reward |
| `Authorization.dfy` | the authorization handshake of two contacts |
| `ReplyAll.dfy`, `Base64.dfy`, `Basics.dfy` | the recipients of a reply, base64, shared types |

Each component has a specification on values, and, where the source changes objects or arrays, a class
or a loop that is proved against it. The main theorems are about the specification: over every run,
every interleaving or every input.

## What the code does not do

Some properties one might expect are false of the code. Each has a lemma with an input or a run that
shows it, and the exact condition under which the property holds.

- The bit length that `final` stores has 32 bits, so the padding is that of the standard exactly below
  2^29 bytes (`PadIsFips`).
- `sha512_update_final` does not check that its input fits one block, and hashes the right number of
  blocks exactly when it does (`UpdateFinalLimit`).
- An authorization request can be removed from the outbox unsent (`RequestLost`): in its turn exactly
  when its sender has no identity and the removal succeeds (`RequestTurn`), and in no run without such a
  sender (`NoRequestLost`).
- Delivery is not exactly once: a mail whose turn broke off is sent again to those already served. It is
  delivered once exactly when no broken turn had handed over a copy (`RetrySendsAgain`, `CopiesMadeNone`).
  That includes a turn cut off by a stop, when the program is started again.
- A stop is not noticed by a queue that is idle; it silences the queue exactly when the loop or the
  connection check is running (`StopSilences`).
- The search looks at nonce 0 (`NonceZeroRefused`); the verifier accepts a reported pair exactly when it
  has no nonce 0 (`SearchSound`).
- The search misses pairs, since a hash for the same slot drives out the one that is there. The nonces of
  a hash are all reported with one of them exactly when no such hash comes between two of them
  (`FoundExactly`; for one thread told from the hashes alone, `OneThreadExact`).
- A replaced draft is not found by its new digest (`ReplaceLosesKey`, exactly: `ReplaceKeyed`,
  `FolderViews`), and the unread counter is right exactly when the flags balance (`ReplaceCounts`).
- `removeRows` skips rows exactly when asked for more than one (`RemoveLoopIsRange`); its callers ask for
  one.
- Base64 decodes what it encoded exactly when the encoding has neither `+` nor `/` (`Base64.RoundTrip`).
- A second card in one text comes back with the properties of the first, unless their keys are those with
  which it begins (`TwoCards`).
- The pool counts a winning share before it is submitted (`ShareLost`; the books agree exactly when every
  step was smooth, `Accounting`), and forgets its hash when the work changes (`WorkReturns`, exactly:
  `AcceptedAgain`).
- The reward starts again at 50 coins (`RewardRestarts`) when the week leaves 32 bits, exactly:
  `RewardIsDecay`.
- A contact whose last name is empty does come back from its vCard, although its FN line changes: FN is
  never read (`ContactVCard.RoundTrip`).

## Model

| member | source | states |
|---|---|---|
| `MerkleDamgard.FoldAppend` | miner/sha2.cpp:372-379 | hashing two runs of blocks one after the other is hashing their concatenation |
| `MerkleDamgard.AbsorbBlocks` | miner/sha2.cpp:358-385 | the completed buffer block followed by the whole blocks of the input are the next blocks of the message |
| `MerkleDamgard.ShortestPadding` | miner/sha2.cpp:398-402 | padding as in section 5.1 of FIPS 180-2 fills whole blocks with no more zero bytes than any other filling |
| `MerkleDamgard.ProgramPadLength` | miner/sha2.cpp:398-403 | the blocks that final appends are whole, and as many as the standard asks for, at any length |
| `MerkleDamgard.PadIsFips` | miner/sha2.cpp:398-408 | the program pads as the standard does if and only if the message has fewer than 2^29 bytes, since its bit length has 32 bits |
| `MerkleDamgard.PadInjective` | miner/sha2.cpp:597-607 | two different messages are never padded to the same bytes, whatever their lengths |
| `MerkleDamgard.PadTail` | miner/sha2.cpp:404-408 | the blocks already hashed and the padded buffer together are the whole padded message |
| `Sha2.ExpIsRound` | miner/sha2.cpp:112-119 | writing two registers and rotating the names of all eight is one round of section 6.2.2 |
| `Sha2.ExpMacro` | miner/sha2.cpp:112-128 | one macro with its index list rotated by r stores a round in place, in the registers named after r rounds |
| `Sha2.UnrolledRounds` | miner/sha2.cpp:285-316 | the unrolled rounds with renamed registers leave the eight registers of the recursive definition, for every state, schedule and constant table |
| `Sha2.RolledRounds` | miner/sha2.cpp:239-252 | the shifting loop leaves the same eight registers; so the two branches agree |
| `Sha2.LoadSchedule` | miner/sha2.cpp:228-237 | the array w holds the message schedule of the block |
| `Sha2.Context.Init` | miner/sha2.cpp:335-351 | a context that has been fed nothing, with the initial value of its hash |
| `Sha2.Context.Transf` | miner/sha2.cpp:212-324 | h becomes the fold of the compression function over the given blocks |
| `Sha2.Context.TransfBlock` | miner/sha2.cpp:428-522 | one turn of the block loop is one application of the compression function |
| `Sha2.Context.Update` | miner/sha2.cpp:353-386 | the bytes fed so far grow by the input; h is the fold over the complete blocks, the buffer holds the rest, tot_len counts whole blocks |
| `Sha2.Context.Final` | miner/sha2.cpp:388-424 | the digest is that of all bytes fed, padded as the program pads |
| `Sha2.Context.UpdateFinal` | miner/sha2.cpp:625-683 | with the buffered total below one block this is the digest of update followed by final |
| `Sha2.UpdateFinalLimit` | miner/sha2.cpp:633-650 | update_final hashes as many blocks for n buffered bytes as the standard pads them to if and only if they are fewer than one block |
| `Sha2.DigestLength` | miner/sha2.cpp:411-423 | the digest has 4 or 8 bytes for each word asked for |
| `Sha2.DigestIsFips` | miner/sha2.cpp:388-424 | below 2^29 bytes the digest is the one defined in sections 6.2 to 6.4 of FIPS 180-2 |
| `Sha2.HashChunks` | miner/sha2.cpp:326-424 | for every way to cut a message into update calls the digest is that of the whole message, and the standard's one below 2^29 bytes |
| `Sha2Families.Rotations32` | miner/sha2.cpp:42-51 | the shift-built rotations are the rotations of section 4.1.2 |
| `Sha2Families.Rotations64` | miner/sha2.cpp:53-56 | the same for section 4.1.3 |
| `Sha2Families.PackUnpack32` | miner/sha2.cpp:58-72 | UNPACK32 and PACK32 undo each other |
| `Sha2Families.PackUnpack64` | miner/sha2.cpp:74-98 | UNPACK64 and PACK64 undo each other |
| `Sha2Families.Sha224` | miner/sha2.cpp:788-796 | 28 bytes, the SHA-224 digest below 2^29 bytes |
| `Sha2Families.Sha256` | miner/sha2.cpp:326-333 | 32 bytes, the SHA-256 digest below 2^29 bytes |
| `Sha2Families.Sha384` | miner/sha2.cpp:687-695 | 48 bytes, the SHA-384 digest below 2^29 bytes |
| `Sha2Families.Sha512` | miner/sha2.cpp:524-532 | 64 bytes, the SHA-512 digest below 2^29 bytes |
| `OutboxProtocol.StepKeepsInv` | ConnectionProcessor.cpp:662-713 | each step of the user, the loop, the connection check or a failure keeps the protocol invariant |
| `OutboxProtocol.RunKeepsInv` | ConnectionProcessor.cpp:662-713 | so does every run |
| `OutboxProtocol.NoMailLost` | ConnectionProcessor.cpp:609-634 | in every reachable state a queued mail is unchanged in Outbox, or in Sent with its own recipients, or was deleted by the user |
| `OutboxProtocol.SentAfterFullPass` | ConnectionProcessor.cpp:756-811 | a mail is in Sent only after one pass handed over exactly one copy for each to, cc and bcc key in order |
| `OutboxProtocol.BccNeverTransmitted` | ConnectionProcessor.cpp:756-811 | no transmitted copy names a bcc recipient, and each goes to a recipient of its mail |
| `OutboxProtocol.PassesInOrder` | ConnectionProcessor.cpp:756-811 | in every run each pass, also one that broke off, handed over copies of one queued mail for a first part of its recipients, in order and none twice |
| `OutboxProtocol.SilentAfterCancel` | ConnectionProcessor.cpp:571-574 | after a cancel at most one more message is handed over |
| `OutboxProtocol.RequestsAccounted` | ConnectionProcessor.cpp:679-683 | over every run a request that is neither waiting, deleted by the user nor handed over was looked up in vain: its sender has no identity |
| `OutboxProtocol.NoRequestLost` | ConnectionProcessor.cpp:813-835 | so none is lost in a run without such a lookup |
| `OutboxProtocol.RequestTurn` | ConnectionProcessor.cpp:679-683 | however the calls of its turn end, a request leaves Outbox with nothing handed over if and only if its sender has no identity and the removal succeeds |
| `OutboxProtocol.RequestLost` | ConnectionProcessor.cpp:813-835 | a run that loses a request |
| `OutboxTurns.UndisturbedTurn` | ConnectionProcessor.cpp:671-694 | left alone, a turn takes a mail to all its recipients, into Sent and out of Outbox |
| `OutboxTurns.BreakRun` | ConnectionProcessor.cpp:756-811 | what a turn leaves that breaks off at the key, at a send, at one of the three database calls, or by a stop before the program starts again: the mail in Outbox, and the copies and records made so far |
| `OutboxTurns.RetrySendsAgain` | ConnectionProcessor.cpp:662-698 | after any number of turns that broke off, the recipients have the copies the lists name and no more if and only if none of those turns had handed any over; Sent has one record if and only if none broke off after storing it |
| `OutboxTurns.CopiesMadeNone` | ConnectionProcessor.cpp:756-811 | such a turn handed nothing over exactly when it had nobody to serve, found no key, threw at the first recipient before handing over, or was stopped before it |
| `OutboxTurns.StopSilences` | ConnectionProcessor.cpp:512-532 | after a stop at most one more message is handed over, however this queue runs on, if and only if the stop found the loop or the connection check running or was made before |
| `OutboxQueue.TOutboxQueue.Reopen` | ConnectionProcessor.cpp:471-482 | a new queue over the databases of an earlier one: not cancelled, checking for a connection, with what Outbox and Sent held |
| `OutboxQueue.TOutboxQueue.AddPending` | ConnectionProcessor.cpp:609-646 | the entry is in Outbox under a new id and the connection check runs |
| `OutboxQueue.TOutboxQueue.StopTransmission` | ConnectionProcessor.cpp:512-532 | the cancel flag is set if and only if the loop or the connection check is running, or it was set before; nothing else changes |
| `OutboxQueue.TOutboxQueue.ConnectionCheck` | ConnectionProcessor.cpp:700-713 | the loop is started exactly when there is a mail connection and no loop runs |
| `OutboxQueue.TOutboxQueue.SendMail` | ConnectionProcessor.cpp:838-849 | one blind copy is handed over, or the call throws, with its copy handed over or not, and the connection check is started |
| `OutboxQueue.TOutboxQueue.SendList` | ConnectionProcessor.cpp:756-811 | one loop over a recipient list is a run of the protocol |
| `OutboxQueue.TOutboxQueue.TransferMessage` | ConnectionProcessor.cpp:756-811 | true only when this call began a pass, and in it handed over a copy without bcc for every to, cc and bcc key |
| `OutboxQueue.TOutboxQueue.FindIdentityPrivateKey` | ConnectionProcessor.cpp:882-895 | the lookup of the sender's key is a protocol step |
| `OutboxQueue.TOutboxQueue.FetchNextMessage` | ConnectionProcessor.cpp:715-754 | mail before requests; nothing is fetched exactly when Outbox has nothing, its database fails or the queue is cancelled |
| `OutboxQueue.TOutboxQueue.TransferAuthMsg` | ConnectionProcessor.cpp:813-836 | true also for a sender without identity; one copy is handed over exactly when the key was found and the send returned or had handed it over |
| `OutboxQueue.TOutboxQueue.MoveMsgToSentDB` | ConnectionProcessor.cpp:897-923 | Sent grows by a record of this pass exactly when the first call succeeds; the mail is out of Outbox when all three do; each may fail and end it |
| `OutboxQueue.TOutboxQueue.TransmissionLoop` | ConnectionProcessor.cpp:662-698 | whatever the environment does, the loop performs a run of the protocol |
| `OutboxQueue.TOutboxQueue.Guarantees` | ConnectionProcessor.cpp:609-634 | so the object never loses a queued mail, never transmits a bcc list, and loses a request only after a lookup in vain |
| `Momentum.HashTable.Reset` | miner/hashtable.hpp:21-24 | every slot is zero |
| `Momentum.HashTable.Store` | miner/hashtable.hpp:26-38 | the old value on a matching key, otherwise -1 and the slot overwritten; no other slot changes |
| `Momentum.GroupOf` | miner/fast_momentum.cpp:64-77 | word x of the hash of i, cut to 50 bits, is the birthday hash that the verifier computes for nonce i + x |
| `Momentum.StrideSkips` | miner/fast_momentum.cpp:78-78 | between two groups of one thread lie only groups of other threads |
| `Momentum.ActKeepsInv` | miner/fast_momentum.cpp:38-81 | each atomic store, loop test or cancellation of any thread keeps the invariant |
| `Momentum.SearchSound` | miner/fast_momentum.cpp:83-137 | under every interleaving and cancellation a reported pair has two different nonces below 2^26 with the same birthday, and the verifier accepts it if and only if neither is nonce 0 |
| `Momentum.NoncesPartitioned` | miner/fast_momentum.cpp:42-78 | uncancelled, every nonce below 2^26 is looked at exactly once, by exactly one thread, and no counter leaves 32 bits |
| `Momentum.DoneMeansPast` | miner/fast_momentum.cpp:42-42 | without a cancellation a thread stops only past the end of the nonce space |
| `Momentum.NonceZeroRefused` | miner/fast_momentum.cpp:126-129 | a run that reports nonce 0, which the verifier refuses |
| `Momentum.Search` | miner/fast_momentum.cpp:38-81 | the next step of one thread of search is the step of the interleaving model |
| `Momentum.MomentumSearch` | miner/fast_momentum.cpp:83-107 | the results are those of the threads, in the order in which they are waited for |
| `MomentumComplete.TenancyStep` | miner/hashtable.hpp:26-38 | one look at a nonce keeps what slot, reports and order say of a hash: the tenant is paired with each newcomer of its hash, and is driven out by any other hash for its slot |
| `MomentumComplete.FoundExactly` | miner/fast_momentum.cpp:38-81 | in every run, cancelled or not: the nonces of a hash that were looked at are all paired with one of them if and only if no other hash came for their slot between two of them |
| `MomentumComplete.OrderComplete` | miner/fast_momentum.cpp:42-78 | a completed search has looked at exactly the nonces below 2^26 |
| `MomentumComplete.SearchComplete` | miner/fast_momentum.cpp:83-107 | under every interleaving, a completed search reports one nonce with all others of its hash when no other hash needs the slot |
| `MomentumComplete.OneThreadExact` | miner/fast_momentum.cpp:83-107 | with one thread it does so if and only if no nonce of another hash for the slot lies between two nonces of the hash |
| `VCard.Card.AddProperty` | vCard/vcard.cpp:44-59 | the first property with equal name and parameters is replaced, otherwise the new one is appended |
| `VCard.Card.AddProperties` | vCard/vcard.cpp:61-65 | the properties are added in turn |
| `VCard.Card.GetProperty` | vCard/vcard.cpp:72-100 | the first property with the name, or with name and parameters when strict, or an invalid one |
| `VCard.Card.ToByteArray` | vCard/vcard.cpp:154-180 | begin, version, the properties in order, end, joined by newlines |
| `VCard.FromByteArray` | vCard/vcard.cpp:196-224 | the cards that the line automaton of the parser yields; a second card starts with the properties of the first |
| `VCardRoundTrip.TokenReprint` | vCard/vcardparam.cpp:189-212 | an upper-case parameter token survives parsing and printing if and only if it is stable |
| `VCardRoundTrip.ParamsReprint` | vCard/vcardparam.cpp:128-212 | so does a whole parameter list of stable tokens |
| `VCardRoundTrip.ParseOnePrinted` | vCard/vcardproperty.cpp:108-164 | a printed property parses to one equal property that prints the same |
| `VCardRoundTrip.PrintParsePrint` | vCard/vcard.cpp:154-224 | a printed card of well-formed properties parses to one card of equal properties that prints as the same bytes |
| `VCardRoundTrip.TwoCards` | vCard/vcard.cpp:196-224 | of two printed cards the second comes back with the properties of the first added to; alone if and only if the first has no other keys than those with which the second begins |
| `VCardExact.ParamsExact` | vCard/vcardparam.cpp:72-212 | a parameter text left alone by simplified() comes back if and only if all its tokens are stable |
| `VCardExact.SurvivesExactly` | vCard/vcardproperty.cpp:108-164 | a property whose line and parameters simplified() leaves alone comes back equal and with the same text if and only if it is well-formed |
| `VCardExact.CountLines` | vCard/vcard.cpp:192-224 | a card is read with at most one property a line; with as many as lines, each line held one and no two agree in name and parameters |
| `VCardExact.CardSurvivesExactly` | vCard/vcard.cpp:154-224 | a card whose lines and parameters simplified() leaves alone comes back as one card of equal properties and the same bytes if and only if each property is well-formed and no two print the same name and parameters |
| `ContactVCard.NotesRoundTrip` | AddressBook/ContactvCard.cpp:93-100 | notes survive the newline escape if and only if they hold no literal backslash-n |
| `ContactVCard.ExportContact` | AddressBook/ContactvCard.cpp:18-43 | the card holds the six properties of the contact |
| `ContactVCard.ImportContact` | AddressBook/ContactvCard.cpp:45-63 | the contact read from the first card of the data, if it has one that is valid |
| `ContactVCard.ParsedCardsClean` | vCard/vcard.cpp:196-224 | whatever the bytes, no component of a parsed property holds a colon, a semicolon or a newline |
| `ContactVCard.ImportedIsCarriable` | AddressBook/ContactvCard.cpp:45-100 | whatever is imported is a contact that the format can carry |
| `ContactVCard.ImportOfExport` | AddressBook/ContactvCard.cpp:18-100 | a carriable contact comes back with its runs of white space settled |
| `ContactVCard.RoundTrip` | AddressBook/ContactvCard.cpp:18-100 | a contact comes back from its own vCard if and only if it is faithful: no separator where it would cut, and each line fixed by simplified(), FN excepted |
| `Mailbox.DoKeeps` | Mail/MailboxModel.cpp:74-215 | every add, single-row removal, mark and replacement keeps list, vector and map paired; the counter drifts by the replacement's flags only; the map stays keyed if and only if no row is rewritten |
| `Mailbox.DoDistinct` | Mail/MailboxModel.cpp:74-166 | the row digests stay distinct if and only if the operation takes no digest that another row has |
| `Mailbox.FolderViews` | Mail/MailboxModel.cpp:140-166 | over every run without such a clash, replacements included: views paired, digests distinct, the counter right if and only if the replacements' flags balance, and a row found by its digest if and only if the map holds it under that digest |
| `Mailbox.ViewsAgree` | Mail/MailboxModel.cpp:485-497 | over every run that rewrites no row the counter is right and the lookup by digest answers exactly the row that has it, or that there is none |
| `Mailbox.IntendedCounts` | Mail/MailboxModel.cpp:152-153 | over every run whose replacements pass the row's own flag and an unread message the counter is right |
| `Mailbox.ReplaceCounts` | Mail/MailboxModel.cpp:140-166 | after a replacement the counter is right if and only if the three read flags add up |
| `Mailbox.ReplaceCountsUnread` | Mail/MailboxModel.cpp:152-153 | with the row's own flag that is: if and only if the new message is unread |
| `Mailbox.ReplaceLosesKey` | Mail/MailboxModel.cpp:145-158 | the first or a later replacement leaves the map as it is: the new digest is not found, the key under which the row was added is, and the overwritten digest if and only if it is that key |
| `Mailbox.ReplaceKeyed` | Mail/MailboxModel.cpp:145-158 | the map holds every row under its digest after a replacement if and only if it did before and no row was rewritten |
| `Mailbox.ReplaceThenDuplicate` | Mail/MailboxModel.cpp:79-80 | the same message can then be added once more if and only if it replaced another |
| `Mailbox.RemoveLoopIsRange` | Mail/MailboxModel.cpp:194-203 | removeRows removes the rows asked for, in general, if and only if count is at most 1 |
| `Mailbox.RemoveAllRows` | Mail/MailboxModel.cpp:194-215 | the loop of removeRows treats list and map alike, and for one row is the removal of that row |
| `Mailbox.BatchDelete` | Mail/Mailbox.cpp:301-310 | descending single removals leave exactly the unselected messages in order, in list, vector, map and database, and the counter as right as it was |
| `Mailbox.MailboxModel.FillMailHeader` | Mail/MailboxModel.cpp:74-105 | refuses a known digest and one without data, and changes nothing |
| `Mailbox.MailboxModel.AddMailHeader` | Mail/MailboxModel.cpp:108-127 | the new state of all four views |
| `Mailbox.MailboxModel.PushBack` | Mail/MailboxModel.cpp:129-138 | list, map and vector grow by the same node |
| `Mailbox.MailboxModel.RemoveRow` | Mail/MailboxModel.cpp:205-215 | the row leaves list, map, vector and database; the counter follows |
| `Mailbox.MailboxModel.RemoveRows` | Mail/MailboxModel.cpp:194-203 | the loop over removeRow, with its shifting indexes |
| `Mailbox.MailboxModel.MarkRead` | Mail/MailboxModel.cpp:417-441 | flag, counter and database change together, or nothing does |
| `Mailbox.MailboxModel.MarkAnswered` | Mail/MailboxModel.cpp:443-467 | the same for replied and forwarded |
| `Mailbox.MailboxModel.ReplaceMessage` | Mail/MailboxModel.cpp:140-166 | in place when found, otherwise added |
| `Mailbox.MailboxModel.FindModelIndex` | Mail/MailboxModel.cpp:469-483 | the first list node with the digest, or -1 |
| `Mailbox.MailboxModel.FindByDigest` | Mail/MailboxModel.cpp:485-497 | the row that the map leads to, or -1 |
| `Mailbox.MailboxModel.DeleteMail` | Mail/Mailbox.cpp:289-311 | the loop performs the batch delete |
| `AddressBook.StoreKeepsOrder` | AddressBook/AddressBookModel.cpp:287-325 | a new contact gets an index above all present ones, and the vector stays sorted |
| `AddressBook.BookUnique` | AddressBook/AddressBookModel.cpp:360-374 | a sorted vector determines the address book it agrees with |
| `AddressBook.AddressBookModel.constructor` | AddressBook/AddressBookModel.cpp:34-49 | a valid model of the address book |
| `AddressBook.AddressBookModel.ReloadContacts` | AddressBook/AddressBookModel.cpp:360-374 | the vector is the sorted content of the address book |
| `AddressBook.AddressBookModel.LowerBound` | AddressBook/AddressBookModel.cpp:327-352 | the first row whose index is not below the one sought |
| `AddressBook.AddressBookModel.GetContactRow` | AddressBook/AddressBookModel.cpp:327-337 | what the commented linear scan answers, found or not |
| `AddressBook.AddressBookModel.GetContactById` | AddressBook/AddressBookModel.cpp:339-352 | the contact stored under the index, or the failure the source throws |
| `AddressBook.AddressBookModel.StoreContact` | AddressBook/AddressBookModel.cpp:287-325 | append with a fresh index, or replace the row with the index; vector and address book agree afterwards |
| `AddressBook.AddressBookModel.RemoveRows` | AddressBook/AddressBookModel.cpp:64-75 | exactly the range goes, from the vector and from the address book |
| `Base64.Encode` | miner/base64.hpp:47-89 | the characters of all sextets and the padding |
| `Base64.Decode` | miner/base64.hpp:91-135 | the bytes of the characters up to the first refused one |
| `Base64.GroupRoundTrip` | miner/base64.hpp:60-63 | four sextets give back three bytes, and fewer give those they cover, whatever is read for the missing ones |
| `Base64.DecodePrefix` | miner/base64.hpp:100-132 | the first p characters of an encoding decode to the bytes that they cover |
| `Base64.RoundTrip` | miner/base64.hpp:42-135 | decoding an encoding gives a prefix of the bytes, and all of them if and only if it has neither + nor / |
| `PoolServer.StepKeepsInv` | miner/server.cpp:353-440 | each packet step, payment, new work or change of server_ok keeps the balance of users and totals and examines no hash twice in one work |
| `PoolServer.Accounting` | miner/server.cpp:353-440 | over every run, once no packet is under way, users never have more than the pool counted, and the books agree if and only if every step was smooth; stale is at most total_invalid when no late share was dropped |
| `PoolServer.ShareLost` | miner/server.cpp:432-436 | all_shares is raised before submit_work, which may throw: a share of the pool and of no user |
| `PoolServer.AcceptedOnce` | miner/server.cpp:392-440 | when no work returns, no header is accepted twice in a whole run |
| `PoolServer.WorkReturns` | miner/server.cpp:319-328 | when a work returns, a counted share counts again |
| `PoolServer.AcceptedAgain` | miner/server.cpp:319-328 | a share accepted before is accepted again after a new work if and only if it builds on that work; without a new work never, while the shares accepted for the current work are remembered (Once) |
| `PoolServer.CreditsOneUser` | miner/server.cpp:361-374 | a share is credited to the user it names and to no other |
| `PoolServer.SumTakesOut` | miner/server.cpp:107-118 | the total over the users does not depend on the order in which the database lists them |
| `PoolServer.Server.LoadDatabase` | miner/server.cpp:107-118 | the totals grow by what the users were paid and have earned |
| `PoolServer.Server.Pay` | miner/server.cpp:148-173 | total and user grow by the amount once it was sent; only the total when the database refuses |
| `PoolServer.Server.UpdateWork` | miner/server.cpp:319-334 | new work, no recent shares |
| `PoolServer.Server.VerifyShare` | miner/server.cpp:416-440 | stale, valid and submitted exactly as the header and the oracle say, and the two counters |
| `PoolServer.Server.Receive` | miner/server.cpp:386-396 | a repeated hash changes nothing; otherwise the packet is examined |
| `PoolServer.Server.IncrementShareCount` | miner/server.cpp:353-375 | nothing when the server is not ok; otherwise one point for the user |
| `PoolServer.Server.Count` | miner/server.cpp:398-407 | the packet is done, and the record sent back is the user's |
| `Reward.GetReward` | miner/server.cpp:41-51 | the reward of the block's week; no product leaves 64 bits |
| `Reward.RewardFalls` | miner/server.cpp:41-51 | below block 2016*2^31 the reward never grows, and falls strictly each week until zero |
| `Reward.RewardNearIdeal` | miner/server.cpp:45-49 | it is never above 50*10^8*0.95^week and less than 20 below |
| `Reward.RunsOut` | miner/server.cpp:45-49 | it is zero from week 389 on and in no earlier week |
| `Reward.RewardIsDecay` | miner/server.cpp:43-43 | for every 64-bit block number: it is that of the week if and only if the week fits the int, or its low 32 bits are a week without reward |
| `Reward.RewardRestarts` | miner/server.cpp:43-43 | the blocks from 2016*2^31 on get the full reward after a week of blocks that got none |
| `Authorization.BoxesRoundTrip` | AddressBook/authorization.cpp:161-163 | the boxes as initialised send back the chat, mail and extended-key bits |
| `Authorization.StepKeepsInv` | AddressBook/authorization.cpp:185-277 | each act of a user and each delivery keeps the provenance of statuses, keys and messages |
| `Authorization.Provenance` | AddressBook/authorization.cpp:30-99 | over every run of two sides with messages delivered in any order, repeated or lost: blocked_me, denied, accepted, i_block and sent_request each come from an act of the right side, and a key from a message of the peer |
| `Authorization.BlockHolds` | ConnectionProcessor.cpp:1157-1165 | nothing that the peer sends changes a side that blocks it |
| `Authorization.Exchange` | AddressBook/authorization.cpp:69-82 | after a request and an acceptance the asking side has what the answer offers, the accepting side what the request asked |
| `Authorization.SameStatus` | AddressBook/authorization.cpp:261-264 | both have the same accepted status if and only if the answer has the request's chat and mail boxes (or, with neither asked, the side had that status before) |
| `Authorization.ExchangeOpens` | ConnectionProcessor.cpp:1070-1114 | after the exchange the chat and mail filters of each side let through exactly what the other's boxes say |
| `Authorization.NothingPassesUnasked` | ConnectionProcessor.cpp:1057-1126 | over every run, with the filters on, chat or mail of the peer passes only when one side asked, the other agreed, and the peer set the box for it |
| `Authorization.Client.ReceivedText` | ConnectionProcessor.cpp:1057-1092 | a chat message is shown exactly for a contact with chat accepted, or without the filter for any contact |
| `Authorization.Client.ReceivedEmail` | ConnectionProcessor.cpp:1094-1119 | a mail reaches the inbox exactly for a contact with mail accepted, or without the filter |
| `Authorization.Client.AddAsNewContact` | AddressBook/authorization.cpp:212-228 | the peer becomes a contact if it was none and the box is set |
| `Authorization.Client.AcceptExtendedPubKey` | AddressBook/authorization.cpp:44-57 | the key is kept exactly with bit 8 and for a contact |
| `Authorization.Client.SetAuthorizationStatus` | AddressBook/authorization.cpp:59-99 | the contact has the status of the answer, or nothing changes without one |
| `Authorization.Client.StoreAuthorization` | ConnectionProcessor.cpp:1007-1027 | the request moves to the authorization database |
| `Authorization.Client.SendReply` | AddressBook/authorization.cpp:243-277 | nothing without an identity; a denial is stored but never sent |
| `Authorization.Client.OnAccept` | AddressBook/authorization.cpp:185-193 | the new state of contact, databases and outbox |
| `Authorization.Client.OnDeny` | AddressBook/authorization.cpp:195-201 | the same for a denial |
| `Authorization.Client.OnBlock` | AddressBook/authorization.cpp:203-210 | the same for a block |
| `Authorization.Client.ProcessResponse` | AddressBook/authorization.cpp:30-42 | an answer takes effect on the contact |
| `Authorization.Client.ReceivedRequest` | ConnectionProcessor.cpp:1147-1176 | a blocked contact is ignored, a request waits for the user, an answer is processed |
| `Authorization.Client.OnSend` | AddressBook/RequestAuthorization.cpp:127-159 | the request is sent and the contact is marked as asked |
| `Authorization.Client.OnBlockContact` | KeyhoteeMainWindow.cpp:698-721 | the contact is blocked |
| `Authorization.Client.OnUnblockContact` | KeyhoteeMainWindow.cpp:723-746 | a blocked contact is unauthorized again, any other stays |
| `ReplyAll.TransformRecipientList` | Mail/maileditorwindow.cpp:527-570 | the three results of the recipient loops |
| `ReplyAll.LoadMessage` | Mail/maileditorwindow.cpp:333-348 | reply to all passes both lists, a plain reply goes to the sender and the first recipient only |
| `ReplyAll.ReplyGoesToAll` | Mail/maileditorwindow.cpp:551-567 | the sender first, then every other source recipient that is not oneself, exactly once and in source order |
| `ReplyAll.FirstOwnMeans` | Mail/maileditorwindow.cpp:558-559 | the new sender is the first to recipient that is an own identity, and there is none only when no recipient is |
| `ReplyAll.SenderRepeats` | Mail/maileditorwindow.cpp:551-556 | the sender appears again if and only if it also was a recipient and is not oneself |
| `ReplyAll.AnswerParticipants` | Mail/maileditorwindow.cpp:527-570 | a reply to all keeps everyone if and only if no second own identity took part, and adds only the one who replies |
| `ReplyAll.ThreadKeepsGroup` | Mail/maileditorwindow.cpp:527-570 | a thread of replies to all goes to the same people, however long |

## Left out

- Sha2.Context.Update: requires an input below 2^31 bytes, because `i << 6` in the block loop overflows an int from there on.
- Sha2.Context.UpdateFinal: requires the buffered total to stay below one block, because the copy behind the buffer is not checked and can leave it.
- Sha2.Context.Transf: the textually equal copies for the two word sizes are one class over a family of operations; the 64 straight-line macros of SHA-256 are written as eight groups of eight, as the SHA-512 code writes them.
- MerkleDamgard.PadIsFips: the standard's own limits of 2^61 and 2^125 bytes bound the claim.
- OutboxProtocol.NoMailLost: a user may delete a mail in the Outbox folder; such a mail is accounted for as deleted.
- OutboxQueue.TOutboxQueue.TransmissionLoop: runs as long as a script of the environment's answers lasts; the 250 ms pauses and the notifications to the window are not modelled. A mail has an id of its own, since its digest changes between Outbox and Sent.
- Momentum.SearchSound: `store` is atomic, as the source assumes without taking its lock; the table of the WIN32 build, whose `reset` clears one of two arrays, is not modelled. SHA-512 of a nonce and the head is an arbitrary function to eight words.
- VCard.Card.ToByteArray: version 2.1 only, the one the program prints; property equality by name and value, as in the source, ignores parameters.
- VCardExact.SurvivesExactly: speaks of lines and parameter texts that simplified() leaves alone; a line it changes is changed before it is parsed.
- VCardExact.CardSurvivesExactly: the same.
- OutboxProtocol.SilentAfterCancel: speaks of one run of the program; a new queue starts without the cancellation.
- ContactVCard.ImportContact: the icon, and the status for a text that is no public key, are left out.
- ContactVCard.RoundTrip: the icon is any base64 text, and a public key is its text form; image codecs and key parsing are not part of this model. Strings are ASCII and upper case is ASCII upper case.
- Mailbox.FolderViews: the columns shown, sorting and the proxy model are left out, and the unread counter is an unbounded integer.
- AddressBook.AddressBookModel.StoreContact: the wallet index is an unbounded integer; WALLET_INVALID_INDEX is taken as -1, its definition is not part of this model.
- Base64.Encode: the inner loops over the three or four slots of a group are one expression each.
- PoolServer.Accounting: the 64-bit counters are unbounded; the momentum check and both hashes of a header are arbitrary functions; connections, the daemon's answers and the pauses are events. A packet that cannot be unpacked ends its connection and changes nothing here.
- PoolServer.Server.LoadDatabase: its call of `print_stats`, and the shares per minute, are left out.
- Authorization.Provenance: statuses stored by editing a contact in its window are left out; two views of one request count as one.
- Authorization.Client.ReceivedEmail: a mail from one of the reader's own identities, which always passes, and the spam folder are left out.
- Authorization.Client.StoreAuthorization: a failing database is not modelled here.
- ReplyAll.LoadMessage: drafts and forwarding do not use the transformation; the mail body is left out.
- `get_next_nonce` and `selectNextRow`: would add only easy members.
- The windows, dialogs, painting, settings and wallets: user interface, no property beyond the above.
- The JSON-RPC client and the miner's socket loop: thin wrappers.
- `AnyOperationsPending` and `GetLength`: the model uses the loop's state itself.
- The total size of attachments: adding a card and removing its file use different sizes, so nothing is conserved.
- The protobuf reader of the wallet importer: not an encoding with an inverse beyond one byte.
