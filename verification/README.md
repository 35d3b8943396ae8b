# Formal model of the game server

A Dafny model of the state that the server keeps: sessions, rooms, relationships, account documents,
prison rentals and rate limits, with proofs of what every step and every run of it keeps. Each module
models one part of the source; `dafny verify dfyconfig.toml` checks them all.

Where the source changes things in place, a class has the source's own fields and its methods the source's
own branches, and each method is proved to do to them what a function on a simpler state says. The
properties over whole runs are then proved of those functions.

| file | part of the server | simpler state |
|---|---|---|
| `Limits.dfy` | message rate limiter, connections by address | the list of all calls so far |
| `JsonPaths.dfy` | dotted paths into JSON objects | a recursive write on a tree |
| `AccountRows.dfy`, `AccountTables.dfy` | SQLite rows with duplicated columns | a map from account names to documents |
| `AccountNumbers.dfy` | member numbers from the counter to the rows | the rows, the counter and who is online |
| `UpdateKeys.dfy`, `DelayedWrites.dfy` | the keys of an account update, the write-back cache for `Appearance`, `Skill`, `Game` | a store that is written at once |
| `Ownership.dfy` | the ownership protocol | a machine of four shapes of bond |
| `Lovership.dfy` | the lovership protocol, NPC lovers | lists of three shapes of entry; what each two members have |
| `Sectors.dfy`, `Prison.dfy` | sector sessions, rentals, money | who is where; a ledger |
| `Rooms.dfy`, `Server.dfy`, `Worlds.dfy` | sessions, rooms, administration | users and rooms without indexes or back-pointers |
| `Numbers.dfy`, `Names.dfy`, `Lists.dfy`, `Options.dfy` | machine integers and their printed form, upper case, lists | |

Handlers are atomic steps, the clock is a parameter, and writes to the store succeed.

Where the code does not keep what one might expect of it, the code is modelled as it is, and the model says
exactly when it does keep it:

- A dotted key, such as `.Creation`, gives an account a protected field that it lacks
  (`AccountRows.AbsentColumnIff`). Sent to a row without a number, `.MemberNumber` can so have the whole set refused
  (`AccountTables.TakenNumberFails`), but everybody online has a number stored, and no update of theirs is refused
  (`AccountNumbers.OnlineUpdatesGoThrough`).
- The order of a set matters exactly when two of its keys write at or below one another
  (`JsonPaths.OrderIrrelevantIff`).
- An update that holds `AccountName` and also a dotted spelling of it is written to the row of that name: no account
  is ever renamed (`AccountTables.NamesNeverChange`), but another account's row is overwritten
  (`AccountTables.OwnRowIffSafe`). No caller of the server sends such a set: a client's `AccountName` is dropped as
  immutable, and the server's own sets do not name it.
- A key with a leading dot can make the session's copy of `extra` differ from the store's
  (`JsonPaths.ExtraMatchesDirectWrite`).
- What a dotted key writes below a delayed field that is held back is lost on the next flush
  (`DelayedWrites.NoClashIsExact`, `DelayedWrites.DottedWriteIsLost`), and a duplicate login drops what the old session held back
  (`DelayedWrites.KickIsInvisibleIff`).
- An NPC break with an unknown name removes the last entry, which may be a partner
  (`Lovership.NpcBreakIsMutualIff`).
- An NPC lover sent together with exactly one delayed key is not stored with it, and is lost at the logout unless
  a later step of the session stores the member's list (`Lovership.NpcOutlivesSessionIff`).
- Two accounts can own each other (`Ownership.MutualOwnershipReachable`); they come to exactly by accepting a trial
  from an account that the accepting one owns (`Ownership.StepOneWayIff`).
- A banned member can be inside a room, exactly by a creation or an update that bans somebody there
  (`Server.StepNoBannedIff`).
- Disconnects let an address connect more often than its rate limit in a second, by exactly the times they drop
  (`Limits.BoundIsExact`).
- A rent can leave another's guest in the sector without a rental (`Prison.RentKeepsGuestsPaidIff`).

## Model

| member | source | states |
|---|---|---|
| `Limits.MessageRateLimiter.constructor` | src/limits/mod.rs:49-56 | A new limiter has seen no call; its ring of `limit` zeros stands for that. |
| `Limits.MessageRateLimiter.Check` | src/limits/mod.rs:59-64 | The call is over the limit exactly when the call `limit` places earlier (the epoch, when there were fewer) was at most 1000 ms ago, whatever is in the ring. |
| `Limits.AcceptedIffWindows` | src/limits/mod.rs:43-65 | With a limit above 0 and a clock above 1000 that does not run back, no call of a run is rejected if and only if every closed window of 1000 ms holds at most `limit` calls. |
| `Limits.ZeroLimitAcceptsAll` | src/limits/mod.rs:63 | With limit 0 nothing is ever rejected. |
| `Limits.SpacedIffWindows` | src/limits/mod.rs:7-30 | Times `n` places apart always differ by more than a window exactly when no window holds more than `n` of them. |
| `Limits.IpConnections.CheckIpConnectionLimit` | src/limits/mod.rs:7-30 | Rejects exactly at the concurrency limit or when the connection `rate_limit` places earlier was at most 1000 ms ago; a rejected attempt is not stored, and stored times stay spaced and within the limit. |
| `Limits.IpConnections.OnIpDisconnect` | src/limits/mod.rs:32-40 | Drops the oldest stored time, forgets an address without any, and touches no other address. |
| `Limits.AdmitKeepsBucket` | src/limits/mod.rs:16-29 | An admitted connection keeps the spacing and the bound of its address. |
| `Limits.StoredTimesPerSecond` | src/limits/mod.rs:16-24 | No closed 1000 ms window holds more than `rate_limit` of the stored connection times of an address. |
| `Limits.RefusedIffTooMany` | src/limits/mod.rs:7-30 | With times in order, a connection is refused exactly when the queue is full or when, with it, more than `rate_limit` stored times would lie in the 1000 ms that end now. |
| `Limits.QueueIsSuffix` | src/limits/mod.rs:7-40 | Over every run, the queue of an address is the times admitted without the oldest, one for each that a disconnect dropped, and never longer than the connection limit. |
| `Limits.AdmittedPerSecond` | src/limits/mod.rs:7-40 | With a clock that does not run back, no closed 1000 ms window holds more admitted connections of an address than `rate_limit` plus the times its disconnects dropped from the queue. |
| `Limits.BoundIsExact` | src/limits/mod.rs:7-40 | No smaller number bounds them, when the connection limit is at least the rate limit; so the rate limit itself bounds all runs exactly when nothing is dropped. |
| `JsonPaths.SegmentsOfDotted` | src/util/json_path.rs:14 | Joining proper segments with dots and splitting again gives the segments back. |
| `JsonPaths.ApplyDottedPath` | src/util/json_path.rs:13-39 | The cursor walking down, inserting objects on its way, is one recursive write of the value at the path. |
| `JsonPaths.ReadBack` | src/util/json_path.rs:13-39 | Reading the path just written gives the value. |
| `JsonPaths.ReadElsewhere` | src/util/json_path.rs:13-39 | Every path that is neither above nor below the written one reads as before. |
| `JsonPaths.WritesCommute` | src/util/json_path.rs:13-39 | Writes at two paths of which neither is a prefix of the other commute. |
| `JsonPaths.LaterWriteWins` | src/util/json_path.rs:13-39 | A write at a prefix hides an earlier write below it. |
| `JsonPaths.MergeSetIntoObject` | src/util/json_path.rs:43-54 | The loop over the set is the fold of the single writes, without `_id`, `MapData` and `AccountName`. |
| `JsonPaths.WriteCommutesWithMerge` | src/util/json_path.rs:43-54 | A write beside all targets of a set can be made before or after merging it. |
| `JsonPaths.MergeOrderIrrelevant` | src/util/json_path.rs:43-54 | A set without overlapping targets gives the same object in every iteration order. |
| `JsonPaths.OrderIrrelevantIff` | src/util/json_path.rs:43-54 | The keys of a set give the same object in every order, for all objects and values, exactly when no two of them write at or below one another. |
| `JsonPaths.OverlapDependsOnOrder` | src/util/json_path.rs:43-54 | For example the set `{A: null, A.B: v}` depends on the order. |
| `JsonPaths.ApplyToExtra` | src/account/mod.rs:187-199 | The session's seed, apply and copy-back steps compute the reseeded object. |
| `JsonPaths.ExtraMatchesDirectWrite` | src/account/mod.rs:187-199 | Those steps equal the direct write exactly when the key has no leading dot, or has fewer than two segments, or the object below its first segment holds nothing off the path. |
| `AccountRows.RowToJson` | src/db/sqlite.rs:573-615 | The assignments one by one give the blob overridden by the non-null columns, with an email in any case. |
| `AccountRows.ReadBackRow` | src/db/sqlite.rs:446-615 | Storing a well-typed document and reading it back gives the document, with an email added if it had none; columns and blob agree. |
| `AccountRows.ColumnReads` | src/db/sqlite.rs:573-615 | Each column of a stored document reads as the document's field, and is null exactly when that is absent. |
| `AccountRows.RestoreProtected` | src/db/sqlite.rs:480-513 | The seven checks in turn restore exactly the protected fields that the old document has and the set does not name; every other field is as merged. |
| `AccountRows.MergeRowWithSet` | src/db/sqlite.rs:446-542 | The step-by-step merge is the update of the document by the set: merged, then protected fields not literally named restored; an emptied password or a lost account name is an error. |
| `AccountRows.UpdatedWellTyped` | src/db/sqlite.rs:446-542 | A well-typed document stays so exactly when what the merge leaves in each protected field that the set names or the document lacks has its column's type. |
| `AccountRows.RegularKeepsTyped` | src/db/sqlite.rs:446-542 | That is so for sets whose protected fields have their column's type and no dotted key beside them, and that aim no dotted key at a protected field the document lacks. |
| `AccountRows.TidyIff` | src/db/sqlite.rs:446-615 | A document comes back unchanged from being stored exactly when it has a non-empty name and an email, and each field that reads as its column's type is of that type. |
| `AccountRows.NormalIsTidy` | src/db/sqlite.rs:446-615 | Whatever is stored, what is read back is unchanged by storing it again. |
| `AccountRows.KeptColumn` | src/db/sqlite.rs:480-513 | A protected field that is there and not literally in the set keeps its value, even when a dotted key of the set aims below it. |
| `AccountRows.AbsentColumnIff` | src/db/sqlite.rs:480-513 | A protected field other than the password that is neither there nor in the set stays absent exactly when no dotted key of the set writes at or below it. |
| `AccountRows.DottedCreates` | src/db/sqlite.rs:480-513 | Otherwise it happens: a key such as `.Creation` gives a document the field it lacks. |
| `AccountRows.NamedColumn` | src/db/sqlite.rs:446-542 | A protected field other than the account name that is in the set, with no dotted key beside it, is afterwards the value given. |
| `AccountRows.NameKeptIffSafe` | src/db/sqlite.rs:476-521 | The merge yields the row's own account name, under which the update then looks for its row, for every document and values exactly when the key set does not hold both `AccountName` and a dotted spelling of it. |
| `AccountTables.NamesNeverChange` | src/db/sqlite.rs:304-333 | No update, whatever its keys, changes the name of any account. |
| `AccountTables.OwnRowIffSafe` | src/db/sqlite.rs:296-340 | A key set never writes another account's row, in any table and with any values, exactly when it does not hold both `AccountName` and a dotted spelling of it. |
| `AccountTables.UnsafeOverwrites` | src/db/sqlite.rs:296-340 | For every other key set there are a table and values whose update of one account overwrites the row of another. |
| `AccountTables.AccountTable.Find` | src/db/sqlite.rs:137-148 | Finds the document of the account of that name whatever its case, and none when there is none. |
| `AccountTables.AccountTable.Locate` | src/db/sqlite.rs:150-164 | Finds a row with that member number if there is one. |
| `AccountTables.AccountTable.InsertAccount` | src/db/sqlite.rs:228-275 | Succeeds exactly for a document with name and password whose name and number no row has; adds its row and nothing else. |
| `AccountTables.AccountTable.UpdateFields` | src/db/sqlite.rs:277-340 | Rewrites the one row as the merge says, or changes nothing on an error. |
| `AccountTables.AccountTable.PullLovershipMember` | src/db/sqlite.rs:358-433 | The target's stored list loses exactly the entries whose `MemberNumber` reads as the source, the rest staying in order; every other document stays. |
| `AccountTables.AgreeingDocument` | src/db/sqlite.rs:573-615 | The document of a row whose columns agree with its blob is its blob as read back, comes back unchanged from being stored, and has the row's name and number and an email. |
| `AccountTables.StoreReplaces` | src/db/sqlite.rs:296-340 | Storing a document under its account's name replaces that document, by itself as read back, and no other, unless its number is another's; rows stay valid. |
| `AccountTables.UpdateRefines` | src/db/sqlite.rs:296-340 | For key sets without both `AccountName` and a dotted spelling of it, dotted keys into protected fields included: an update of the table is an update of one document in a map of documents, read back in its columns' types. It fails exactly for a lost name, an emptied password or a number that is taken, and rows stay valid. |
| `AccountTables.ClientUpdateSucceeds` | src/db/sqlite.rs:296-340 | A set that names neither password, member number nor account name goes through exactly when the number it leads to is not taken; that is the account's own whenever it has one or no dotted key writes there, and then the set always goes through. |
| `AccountTables.TakenNumberFails` | src/db/sqlite.rs:296-340 | Otherwise the table can refuse it: a row without a number, sent a taken one as `.MemberNumber`. No session updates such a row; see the next two. |
| `AccountTables.NumberingStores` | src/auth/login.rs:141-153 | The number a login stores for an account without one is the row's number, and no other row changes. |
| `AccountNumbers.StepKeepsNumbers` | src/auth/login.rs:135-170 | Every creation, login, logout, update of a session's account and pull keeps: rows valid, numbers below the counter, everybody online with a number, and each number as it was. An update of an account online is stored, whatever its dotted keys. |
| `AccountNumbers.OnlineUpdatesGoThrough` | src/auth/login.rs:135-170 | So over every run, while numbers fit 64 bits: all of that holds throughout, and no update of an account online fails. |
| `AccountTables.InsertRefines` | src/db/sqlite.rs:228-275 | An insert adds one document as read back, with its email added when it is well typed, to the map of documents, and rows stay valid. |
| `AccountTables.PullStores` | src/db/sqlite.rs:358-433 | A pull always goes through and replaces one document by itself without the source's entries. |
| `AccountTables.PulledIsFrom` | src/db/sqlite.rs:383-387 | The list loses exactly the entries whose `MemberNumber` reads as the source, the rest staying in order; a list that is absent or no array stays, and every other field. |
| `DelayedWrites.WriteBack.HandleAccountUpdate` | src/account/mod.rs:59-291 | An update loses its immutable keys and a `Lover` that is a string, and is then delayed, or written with the lovers an NPC joined and with the delayed values it names forgotten. |
| `DelayedWrites.DelaysIffOnlyDelayed` | src/account/mod.rs:218-244 | It is delayed exactly when the keys left are one of the three delayed ones. |
| `DelayedWrites.HeldBackIff` | src/account/mod.rs:218-251 | A lone `Appearance`, `Skill` or `Game`, once the server's own keys and a textual `Lover` are gone, is held back and nothing is stored; every other update is stored at once, and one of several keys lets go of the held values it brings. |
| `DelayedWrites.ClientCannotWrite` | src/account/mod.rs:71-75 | No update changes a stored field of the server's own by naming it: identity, credentials, relations, session. |
| `DelayedWrites.ClientWrites` | src/account/mod.rs:276-282 | Every other field it names without a dot is stored as sent. |
| `UpdateKeys.OnlyDelayedIff` | src/account/mod.rs:218-228 | The delayed keys are exactly `Appearance`, `Skill` and `Game`, each alone. |
| `DelayedWrites.WriteBack.HandleCharacterUpdate` | src/chat/mod.rs:171-173 | A character update replaces the target's delayed appearance and writes nothing. |
| `DelayedWrites.WriteBack.FlushDelayedUpdates` | src/account/mod.rs:2016-2059 | The two loops leave no delayed value and store each one that was there. |
| `DelayedWrites.WriteBack.OnDisconnectCleanup` | src/handlers.rs:211-242 | A disconnect stores what the session held back, and the session is gone. |
| `DelayedWrites.UpdateUnderHeld` | src/account/mod.rs:218-244 | Merging and restoring under held values and then laying over those the set does not replace is merging into the overlaid document, when no dotted key reaches below a held one. |
| `DelayedWrites.WrittenUnderHeld` | src/account/mod.rs:218-282 | So is writing and reading back, whatever dotted keys into protected fields the set has. |
| `DelayedWrites.UpdateIsThrough` | src/account/mod.rs:218-282 | An update changes the overlaid store as writing at once would, when no dotted key reaches below a held field it does not replace and no NPC lover comes with a single delayed key. |
| `DelayedWrites.CharacterUpdateIsThrough` | src/chat/mod.rs:171-173 | A character update is held back, with nothing stored, and changes the overlaid store as writing at once would. |
| `DelayedWrites.FlushIsInvisible` | src/account/mod.rs:2016-2059 | A flush does not change the overlaid store; afterwards the store is that, and no session holds anything. |
| `DelayedWrites.DisconnectIsInvisible` | src/handlers.rs:211-242 | Nor does a disconnect, after which the account's document is complete. |
| `DelayedWrites.KickIsInvisibleIff` | src/auth/login.rs:99-133 | A duplicate login, which drops what the old session held back, is invisible exactly when each held value is what the store has. |
| `DelayedWrites.LoginIsInvisible` | src/auth/login.rs:135-170 | A login holds nothing back. |
| `DelayedWrites.StepRefines` | src/account/mod.rs:218-282 | Each step is one step of a server that writes at once: any such update, any character update, flush and disconnect, a duplicate login of a session that holds nothing new, a login of an account not online. |
| `DelayedWrites.RunRefines` | src/account/mod.rs:2016-2059 | So is each run of those steps; and flushed at its end, the store is the one written at once. |
| `DelayedWrites.NoClashIsExact` | src/account/mod.rs:218-244 | Holding back is invisible for all stored documents and all values exactly when no dotted key reaches below a held field that the update does not also replace. |
| `DelayedWrites.DottedWriteIsLost` | src/account/mod.rs:218-282 | Otherwise a write is lost: an appearance is held back, a dotted key writes below it, and after the flush the store has the held value, where a server that writes at once has what the dotted key wrote. |
| `Ownership.OwnershipDesk.HandleAccountOwnership` | src/relations/mod.rs:17-445 | On records of optional fields in memory and store, every request does what one move of the four-shape machine does; only the four shapes occur, and the store is memory without offers. |
| `Ownership.OwnershipDesk.HandleBreak` | src/relations/mod.rs:39-78 | A break clears both copies exactly in trial, or in full after the delay at difficulty 2 or less. |
| `Ownership.OwnershipDesk.HandlePropose` | src/relations/mod.rs:231-331 | Offers the start of a trial to an unowned target, or its end to one in trial for at least the delay; memory only. |
| `Ownership.OwnershipDesk.HandleAccept` | src/relations/mod.rs:333-442 | Accepts the start or the end offered by that target; the two never apply at once. |
| `Ownership.OwnershipDesk.HandleUpdateNotes` | src/relations/mod.rs:127-171 | The full holder sets or clears the notes, cut to 4000 characters, in both copies. |
| `Ownership.OwnershipDesk.ReleaseInRoom` | src/relations/mod.rs:173-226 | Decides from memory, clears both copies. |
| `Ownership.OwnershipDesk.ReleaseOffline` | src/relations/mod.rs:447-545 | Decides from the store, clears both copies, whether the target is online or not. |
| `Ownership.OffersExclude` | src/relations/mod.rs:350-442 | No record of the four shapes holds both offers, so the two branches of accepting never both apply. |
| `Ownership.OfferMadeIff` | src/relations/mod.rs:231-282 | A free account, or one with an offer, gets the offer of a member exactly by that member's proposal: both online, in one room, no black list, not itself, and not owned by it. |
| `Ownership.OfferEndsIff` | src/relations/mod.rs:333-394 | An offer is dropped exactly at a logout; else it stays, is replaced by an offer, or becomes a trial. |
| `Ownership.TrialBeginsIff` | src/relations/mod.rs:350-394 | A trial starts exactly by accepting the offer there is, in the offering member's name and at that time. |
| `Ownership.EndOfferedIff` | src/relations/mod.rs:283-306 | The end of a trial is offered exactly by its holder's proposal, 604800000 ms after the start or later. |
| `Ownership.EndOfferLostIff` | src/handlers.rs:244-269 | That offer is dropped, and the trial goes on, exactly at a logout. |
| `Ownership.FullBeginsIff` | src/relations/mod.rs:395-442 | A full bond starts exactly by accepting the end of the trial, without notes and at that time. |
| `Ownership.TrialEndsIff` | src/relations/mod.rs:39-78 | A trial ends exactly by the account's break, at any time and difficulty, or by its holder's release. |
| `Ownership.NotesChange` | src/relations/mod.rs:127-171 | The holder's request sets the notes to the first 4000 characters sent, or to none when that is empty or missing; nothing else changes them. |
| `Ownership.FullReachable` | src/relations/mod.rs:231-442 | A run from two new accounts to a full bond: offer, acceptance, end offer after the delay, acceptance. |
| `Ownership.SessionsAfter` | src/handlers.rs:244-269 | Who is online after a step, and which accounts there are; a login or a new account changes no bond that was there. |
| `Ownership.FullInBothCopies` | src/relations/mod.rs:395-442 | A full bond is in the store, and in memory while online, with holder, name, start, stage 1, notes and owner name. |
| `Ownership.SameHolder` | src/relations/mod.rs:173-226 | Memory and store always name the same holder, or none. |
| `Ownership.ReleasePathsAgree` | src/relations/mod.rs:108-112 | So both release paths do the same for the same member. |
| `Ownership.OwnershipDesk.LoadSession` | src/state/account.rs:53-130 | A login takes the stored record to memory and changes no bond. |
| `Ownership.OwnershipDesk.EndSession` | src/handlers.rs:244-269 | The end of a session loses pending offers and nothing else. |
| `Ownership.FullEndsIff` | src/relations/mod.rs:39-78 | A full bond keeps holder, name and start in every step but two: the holder's release, and the owned account's break after the delay at difficulty 2 or less; in those it is gone. |
| `Ownership.FullStays` | src/relations/mod.rs:17-445 | Over every run without such a step a full bond is as it began. |
| `Ownership.ExtremeNeedsRelease` | src/relations/mod.rs:58-67 | At difficulty 3 only the holder's release ends it. |
| `Ownership.RunKeepsNobodyOwnsSelf` | src/relations/mod.rs:250-253 | On no run does an account own itself or have its own offer. |
| `Ownership.EveryBondIsMade` | src/relations/mod.rs:231-442 | Whatever bond a run ends with, its requests made it step by step: offer, acceptance, end offer at least the delay after the start, acceptance. |
| `Ownership.FullTakesTheDelay` | src/relations/mod.rs:283-331 | With a clock that does not run back, a full bond starts at least the delay after its trial was accepted. |
| `Ownership.StepOneWayIff` | src/relations/mod.rs:333-394 | From where no two accounts own each other, a step leads to two that do exactly when it accepts the start of a trial offered by an account that the accepting one owns. |
| `Ownership.RunOneWayIff` | src/relations/mod.rs:17-445 | Along a run no two accounts ever own each other exactly when none of its steps does that. |
| `Ownership.MutualOwnershipReachable` | src/relations/mod.rs:231-394 | A run that does: each of two new accounts offers, and both accept. |
| `Lovership.LoverIndexFinds` | src/relations/mod.rs:1120-1127 | On entries of the three shapes, the search finds the first entry about that member. |
| `Lovership.LovershipDesk.CleanLovership` | src/relations/mod.rs:1130-1145 | The loop leaves out pending dating offers and strikes the other offers. |
| `Lovership.LovershipDesk.ApplyMutualLover` | src/relations/mod.rs:1026-1086 | Puts the new entry in both lists, in place of the old one where there is one, and stores both cleaned. |
| `Lovership.LovershipDesk.HandleAccountLovership` | src/relations/mod.rs:578-903 | On entries of optional fields in memory and store, proposals and acceptances do what the machine on lists of three shapes does. |
| `Lovership.LovershipDesk.HandleLoverBreak` | src/relations/mod.rs:906-1023 | So do breaks: of a partner from both lists wherever the partner's is kept, and of an NPC by name, or of the last entry when the name is unknown. |
| `Lovership.LovershipDesk.PullLovershipMember` | src/db/sqlite.rs:383-387 | Removes the partner's entry from the stored list of a member who is not online. |
| `Lovership.LovershipDesk.TakeNpcLover` | src/account/mod.rs:86-113 | Adds an NPC when there is room and the name is new, dropping pending offers from memory; it is stored unless the keys of its update, less immutable ones and `Lover`, are one delayed key. |
| `Lovership.NpcOutlivesSessionIff` | src/relations/mod.rs:1147-1157 | Over every run that begins with taking an NPC and keeps it to the end, it is in the store after the logout exactly when some step, the taking included, stored that member's list: an acceptance, a break, or an NPC whose update was not delayed. |
| `Lovership.ListOrStore` | src/relations/mod.rs:578-1118 | Every step either stores a member's list as it then is, or leaves the stored list as it is and every NPC in memory. |
| `Lovership.RunKeepsNpcsInMemory` | src/relations/mod.rs:578-1118 | On every run, an NPC in the stored list of a member online is in memory too. |
| `Lovership.StepIsOneChange` | src/relations/mod.rs:578-1118 | Every step but an NPC break that hits a partner is one change, the same seen from both sides, of what two members have with each other: acceptances set stage and start, breaks end it, all else leaves it. |
| `Lovership.BreakIsMutual` | src/relations/mod.rs:951-1015 | After a break neither side has the other, and nothing else changed, whether the partner is online or not. |
| `Lovership.LoverIsMutual` | src/relations/mod.rs:578-1118 | On every run whose NPC breaks hit no partner: A has B at stage s since t exactly when B has A so; one entry a partner; at most five entries; stored lists equal memory but for offers and NPCs. |
| `Lovership.EntriesAreFound` | src/relations/mod.rs:823-903 | Accepting an engagement or a wedding finds the entry on both sides, so the appending branches are never taken, and no list grows past five. |
| `Lovership.NpcBreakIsMutualIff` | src/relations/mod.rs:913-945 | An NPC break keeps lovership mutual exactly when the entry it removes is not a partner's. |
| `Lovership.NpcBreakRemoves` | src/relations/mod.rs:913-945 | An NPC break takes out the first entry of that name, or the last when there is none, keeps the others in order and stores them cleaned. |
| `Lovership.SessionsAfter` | src/state/account.rs:53-130 | A login brings the stored list to memory, a logout leaves it in the store, a new account has an empty list, and no other list changes. |
| `Lovership.NpcBreakHitsPartner` | src/relations/mod.rs:921-930 | It does happen: an unknown name removes the only partner, who keeps the other. |
| `Lovership.DatingPair` | src/relations/mod.rs:644-822 | An offer and its acceptance make two new members partners at stage 0, in both memories and both stored lists. |
| `Lovership.WeddingReachable` | src/relations/mod.rs:639-903 | Two new members date, become engaged seven days later and marry seven days after that: stage 2 in both memories and both stored lists. |
| `Lovership.DatingOfferedIff` | src/relations/mod.rs:639-673 | A stranger gets an offer to date exactly by the member's proposal: both online, in one room, no black list, and a place in both lists. |
| `Lovership.NextOfferedIff` | src/relations/mod.rs:674-760 | An engagement, or a wedding, is offered exactly by the partner's proposal, seven days after the stage before began or later. |
| `Lovership.VowsChangeIff` | src/relations/mod.rs:578-1118 | What two members have with each other after a step, read off the entries of both lists: stage 0, 1 or 2 since now when one accepts the other's pending offer, nothing when one breaks, a marriage only after seven days, and else what it was. |
| `Lovership.NpcTakenIff` | src/account/mod.rs:86-113 | An NPC joins exactly when its name begins with `NPC-` and is new and there are fewer than five entries. The list loses its dating offers and the other offers, keeps its order, gets the NPC at the end, and is stored unless the update is one delayed key. |
| `Lovership.CleanKeeps` | src/relations/mod.rs:1130-1145 | A cleaned list is the entries that are no dating offers, in order, with no next step on offer. |
| `Lovership.ForsakenKeeps` | src/relations/mod.rs:951-1015 | A break takes exactly the partner's entry out of a list and leaves the others in order. |
| `Lovership.EntryFields` | src/relations/mod.rs:644-760 | Which JSON fields an entry of each shape has: an engagement offered at stage 0, a wedding at stage 1, both by the partner. |
| `Lovership.EveryTieIsMade` | src/relations/mod.rs:639-903 | Whatever tie a run ends with, its requests made it: for each stage an offer and its acceptance from opposite parties, each offer at least the delay after the stage before; a pending offer is one more, by the other member, on stage 0 or 1. |
| `Lovership.StagesTakeTheDelay` | src/relations/mod.rs:674-760 | With a clock that does not run back, stage s starts at least s times the delay after dating was accepted: a wedding at least two. |
| `Lovership.RunKeepsShaped` | src/relations/mod.rs:578-1118 | On every run, NPC breaks included, only the three shapes occur, no two entries are about the same member, and stored lists agree with memory. |
| `Sectors.KeyInjective` | src/account/mod.rs:1377-1379 | Different sectors print to different keys. |
| `Sectors.OneSessionEach` | src/state/world.rs:29-33 | A member is in one session at most. |
| `Sectors.SectorRegistry.JoinSector` | src/account/mod.rs:1201-1226 | Joining leaves the sector before, which is returned, and drops a session left empty. |
| `Sectors.SectorRegistry.RemovePrisonSectorMember` | src/account/mod.rs:1461-1483 | The member is gone from that sector; the answer says whether it was there. |
| `Sectors.SectorRegistry.RemoveAccount` | src/state/world.rs:101-122 | A departing account changes at most one sector, the one it was in, which is returned. |
| `Sectors.SessionPlaces` | src/account/mod.rs:1488-1495 | The sectors with a session are exactly those somebody is in. |
| `Prison.FeeIsLeast` | src/account/mod.rs:1342-1349 | The ransom of a running rental is the least amount, from 100 up, that covers 500 a day for the time that remains. |
| `Prison.FeeInRange` | src/account/mod.rs:1342-1349 | With at most a day left the ransom is between 100 and 500 while the rental runs, is 0 afterwards, and never grows with time. |
| `Prison.RansomsAreFair` | src/account/mod.rs:604-1047 | Over every run with a clock that does not run back, no rental runs past a day from now if none did at first, and every ransom paid is 0 or between 100 and 500. |
| `Prison.StepKeepsTerms` | src/account/mod.rs:677 | Each step keeps the first and meets the second. |
| `Prison.FeeFitsIff` | src/account/mod.rs:1342-1349 | Its product and sum fit `i64` exactly up to a bound on the remaining time. |
| `Prison.PrisonDesk.RetainActive` | src/account/mod.rs:1513-1521 | The loop splits rentals into running and lapsed, in order. |
| `Prison.PrisonDesk.HandlePrisonRent` | src/account/mod.rs:604-863 | The refusals in their order; a rent that passes drops the lapsed rentals of the sector, adds one for a day and moves 500 to the vault, in memory and store. |
| `Prison.PrisonDesk.HandlePrisonRelease` | src/account/mod.rs:866-1047 | The refusals in their order; a release that passes takes the rental out, charges the ransom, and ends the visit of the member released. |
| `Prison.PrisonDesk.HandleJoinSector` | src/account/mod.rs:1049-1245 | Only the host or a member with a running rental of its own may join. |
| `Prison.PrisonDesk.HandleLeaveSector` | src/account/mod.rs:1088-1107 | Leaving ends the visit to that sector and no other. |
| `Prison.PrisonDesk.ExpirePrisonSectorRentals` | src/account/mod.rs:1487-1561 | The sweep, sector by sector in any order, prunes every sector that has a session and sends out exactly the members whose rental there had lapsed. |
| `Prison.SweepOne` | src/account/mod.rs:1497-1529 | Sweeping one more sector is one more write, of that sector only. |
| `Prison.RentConserves` | src/account/mod.rs:807-839 | A rent moves 500 from the renter, who is left with none owed, to the vault of the host; nobody else pays, and the total is the same. |
| `Prison.ReleaseBurnsTheFee` | src/account/mod.rs:967-1010 | A release takes exactly the fee out of circulation, and nobody else pays. |
| `Prison.RunConserves` | src/account/mod.rs:604-1047 | Over every run money in hands and vaults plus the ransoms paid is constant. |
| `Prison.RunKeepsLimits` | src/account/mod.rs:761-797 | Over every run nobody goes into debt and no sector exceeds max(base,5)+max(extra,0). |
| `Prison.ReleaseTakesOne` | src/account/mod.rs:1320-1340 | A release removes exactly one entry, the first that matches, and no other sector changes. |
| `Prison.RunningEndsOnlySo` | src/account/mod.rs:929-1010 | A rental that is still running ends only by its host's dismissal or by the ransom of its own renter, one at a time; who is ransomed pays the least amount from 100 up that covers 500 a day for the time left, who dismisses pays nothing. |
| `Prison.NobodyElseEnds` | src/account/mod.rs:604-1561 | Over every run, whatever others rent, release or sweep, a running rental stays until then. |
| `Prison.RentPassesIff` | src/account/mod.rs:604-806 | Exactly when a rent passes, by the fields of renter, prison and sector; then the sector has its running rentals in order and the new one for a day. |
| `Prison.ReleasePassesIff` | src/account/mod.rs:866-1000 | Exactly when a release passes: the host of the prison dismisses, or a renter in person ransoms himself and can pay, and there is such a rental. |
| `Prison.JoinPassesIff` | src/account/mod.rs:1049-1245 | A member may work in a sector exactly when it is unlocked and his own, or he has a running rental there in person. |
| `Prison.SweepSendsOutIff` | src/account/mod.rs:1513-1561 | A sweep sends out exactly the members with a lapsed rental in the sector they are in. |
| `Prison.VisitsAfter` | src/account/mod.rs:1049-1245 | Joining, leaving, logging out, being released and being swept are the only things that move a member, each as it should. |
| `Prison.SessionsAfter` | src/account/mod.rs:604-1561 | Only logins and logouts change who is online, and no request makes or removes an account. |
| `Prison.ActiveKeeps` | src/account/mod.rs:594-602 | The rentals kept are those whose time is missing, zero, negative or yet to come, in order. |
| `Prison.RentKeepsGuestsPaidIff` | src/account/mod.rs:783 | After a rent every guest of the sector still has a rental exactly when each was the host, the renter for himself, or held one still running. |
| `Prison.GuestWithoutRental` | src/account/mod.rs:783 | Otherwise it happens: a guest whose lapsed rental another's rent drops stays in the sector through the next sweep. |
| `Prison.SweepEvicts` | src/account/mod.rs:1487-1561 | When all guests had paid, the sweep leaves only hosts and guests with a running rental. |
| `Prison.OnlyPaidGuests` | src/account/mod.rs:604-1561 | Over every run whose rents leave nobody unpaid, only hosts and renters are in sectors, all of them online. |
| `Rooms.LimitOf` | src/room/admin.rs:316-328 | Whatever is asked for, the limit is between 2 and 20. |
| `Rooms.LimitIsWrapped` | src/room/mod.rs:427-437 | Numbers of 64 bits are cut to 32 first: exactly those within a multiple of 2^32 of the range are taken, all other numbers give the default. |
| `Rooms.RequestsKeepRoomsOk` | src/room/mod.rs:338-437 | Created and updated rooms have their limit in range, are private exactly without "All" in visibility and locked exactly without "All" in access; an update leaves the members. |
| `Rooms.ReorderedPermutes` | src/room/admin.rs:388-548 | Swap, MoveLeft, MoveRight and Shuffle only permute the members. |
| `Rooms.ManagedKeepsOk` | src/room/admin.rs:425-700 | No action on the lists changes name, environment or who is a member. |
| `Rooms.MovesAt` | src/room/admin.rs:388-548 | MoveLeft exchanges a member with the one before, MoveRight with the one after, and at the end nothing. |
| `Rooms.SwapsAt` | src/room/admin.rs:94-165 | Swap exchanges two members who are in the room, and nobody else. |
| `Rooms.OrderStays` | src/room/admin.rs:388-548 | Every other action leaves the order, and so do moves of somebody outside and shuffles that are no permutation. |
| `Rooms.ListsAfter` | src/room/admin.rs:425-700 | Who is administrator, whitelisted or banned after an action, member by member; promoting and demoting only inside, unbanning only outside. |
| `Rooms.CreatedAs` | src/room/mod.rs:367-446 | A new room has what was asked for, the creator as administrator by default, and the roles given or those that the old flags stand for. |
| `Rooms.UpdatedAs` | src/room/admin.rs:167-386 | An update sets name, administrators and bans, and the whitelist and roles only if asked; members stay. |
| `Rooms.ValidIff` | src/room/mod.rs:267-366 | What a valid request has: one of visibility and the private flag, not both of access and the locked flag, and a name of 1 to 20 printable ASCII characters. |
| `Rooms.LimitAsked` | src/room/mod.rs:427-437 | A limit from 2 to 20, as number or text, is taken; without one it is 10. |
| `Server.RunKeepsInv` | src/state/world.rs:36-177 | Over every run: numbers and accounts unique, everybody in a room online, nobody in two rooms or twice in one, no room empty, names unique whatever their case, limits in [2,20], at most 20 members, flags as the role lists say. |
| `Server.StepKeepsInv` | src/room/mod.rs:367-769 | Each of the operations keeps all of that, an update that lowers the limit below the occupancy included. |
| `Server.OnlyMoversMove` | src/room/mod.rs:664-769 | Everybody but the member an operation is about stays where they are. |
| `Server.JoinLands` | src/room/mod.rs:497-560 | Which answer a join gets, by the room's own lists: full, banned, or locked unless its access names "All", "Admin" and the member is an administrator, or "Whitelist" and the member is listed. When it succeeds, the member is last in that room and in no other. |
| `Server.JoinFindsNone` | src/room/mod.rs:497-513 | The answers without a name, without a session, and without a room of that name, whatever its case, in the client's environment. |
| `Server.EntersByJoinOnly` | src/room/mod.rs:497-560 | Nobody enters an existing room but by joining it, let in by its access, not banned, and with a place free. |
| `Server.OnlyWelcomeEnter` | src/room/mod.rs:24-35 | Over every run in which a room that is not for "All" keeps its access and lists, whoever comes into it is on the list, administrators or whitelist, that its access names. |
| `Server.CreateLands` | src/room/mod.rs:367-459 | The creator of a new room is alone in it and in no other. |
| `Server.CreateAnswers` | src/room/mod.rs:267-366 | Which answer a creation gets: invalid, no session, name taken whatever its case, done. |
| `Server.AdministersIff` | src/room/admin.rs:35-90 | Who may administer: an administrator in the room, and on himself only to exchange places or move. |
| `Server.UpdateAppliesIff` | src/room/admin.rs:167-386 | An update is applied exactly when it is a valid object and its name is the room's own or free; else nothing changes. |
| `Server.LoginLands` | src/auth/login.rs:99-170 | After a login the account has this session and no other, with its number or the next, its member is in no room, and nobody else's session or number changed. |
| `Server.DisconnectLands` | src/handlers.rs:244-269 | After a disconnect the session is gone and its member in no room. |
| `Server.EnvTextInjective` | src/auth/create.rs:158-174 | Clients from different sites never share an environment. |
| `Names.UpperAt` | src/state/world.rs:128-130 | Only the letters a to z change, each to its capital. |
| `Server.AdminKeepsItsRoom` | src/room/admin.rs:35-90 | No administrator's action empties or deletes its room; its members stay, each once, but for a banned or kicked target; no other room changes. |
| `Server.BanLasts` | src/room/admin.rs:440-466 | A banned member stays out of that room on every continuation without an update of the room or an unban of the member there, even once the room is gone. |
| `Server.StepNoBannedIff` | src/room/admin.rs:167-386 | From where no banned member is inside a room, a step leads to one who is exactly when it creates a room that bans its creator, or is an update whose list of the banned has a member of the room. |
| `Server.RunNoBannedIff` | src/room/admin.rs:35-90 | Along a run no banned member is ever inside a room exactly when none of its steps does that. |
| `Server.LateDisconnectChangesNothing` | src/auth/login.rs:99-170 | After a duplicate login, the first socket's disconnect, however late, changes no session and no room. |
| `Server.NumbersLast` | src/state/world.rs:72-74 | An account keeps its member number over every run. |
| `Server.StepKeepsNumbers` | src/auth/create.rs:84-123 | A number given out is one no account ever had. |
| `Worlds.KeysAgreeIff` | src/state/world.rs:128-130 | Two rooms share a key exactly when they share environment and upper-cased name. |
| `Worlds.IndexIsScan` | src/state/world.rs:132-138 | Looking a name up in the index finds what a scan of all rooms finds. |
| `Worlds.PlaceIsRoomOf` | src/state/world.rs:160-177 | The back-pointer of an account is exactly the room whose members list it. |
| `Worlds.World.GetRoomByName` | src/state/world.rs:132-138 | Returns the unique room with that environment and upper-cased name, if there is one. |
| `Worlds.World.InsertRoom` | src/state/world.rs:147-151 | Adds the room, and the name index stays exact. |
| `Worlds.World.RemoveRoom` | src/state/world.rs:153-158 | Removes the room, and the name index stays exact. |
| `Worlds.World.RemoveMemberFromAllRooms` | src/state/world.rs:160-177 | The two loops take the member out of every room and drop those left empty; all indexes and pointers stay exact. |
| `Worlds.World.InsertAccount` | src/state/world.rs:90-97 | Adds one session; both indexes stay exact inverses. |
| `Worlds.World.RemoveAccount` | src/state/world.rs:101-122 | Removes one session; both indexes stay exact inverses. |
| `Worlds.World.LeaveRoomInner` | src/room/mod.rs:664-769 | Takes the member out of its room, clears its pointer, drops an empty room with its name. |
| `Worlds.World.HandleChatRoomLeave` | src/room/mod.rs:631-641 | Leaving is eviction from the room the member is in. |
| `Worlds.World.BuildRoom` | src/room/mod.rs:381-446 | The fields set one by one give the room the request asks for. |
| `Worlds.World.HandleChatRoomCreate` | src/room/mod.rs:267-475 | The answers in their order; a success leaves the room before and enters the new one. |
| `Worlds.World.CheckJoin` | src/room/mod.rs:497-520 | The checks of a join, in their order. |
| `Worlds.World.HandleChatRoomJoin` | src/room/mod.rs:477-545 | A join that passes leaves the room before and enters the one found. |
| `Worlds.World.KickDuplicate` | src/auth/login.rs:99-133 | The session online for the account leaves its room and is gone. |
| `Worlds.World.HandleAccountLogin` | src/auth/login.rs:57-170 | Takes the account over, with a number if it had none, in no room. |
| `Worlds.World.HandleAccountCreate` | src/auth/create.rs:59-123 | A new account gets the next number and is online. |
| `Worlds.World.OnDisconnectCleanup` | src/handlers.rs:244-269 | Leaves the room and ends the session; without a session, nothing. |
| `Worlds.World.ApplyUpdate` | src/room/admin.rs:167-386 | Replaces the room's fields, and its name in the index with them, unless the name is another room's. |
| `Worlds.World.EditRoom` | src/room/admin.rs:440-700 | The edits of the lists and the order for a target inside or outside the room. |
| `Worlds.World.ApplyMemberOrOffline` | src/room/admin.rs:388-700 | Then a banned or kicked target inside leaves. |
| `Worlds.World.HandleChatRoomAdmin` | src/room/admin.rs:35-90 | Only an administrator in the room acts, on himself only to swap or move. |
| `Server.EnvHasNoColon` | src/auth/create.rs:158-174 | No environment has a colon in it. |
| `Numbers.ColonSplits` | src/state/world.rs:128-130 | Two parts joined by a colon determine both, when the first has none. |
| `Numbers.ParseDecimal` | src/db/sqlite.rs:552-561 | A printed number parses to itself, within `i64`. |

## Left out

- Sockets, Socket.IO rooms, events and their payloads and order, and response codes other than those of room creation, joining, renting and releasing.
- Interleavings within a handler: a snapshot taken before a wait and used after it is not modelled.
- MongoDB, SQL text, transactions and retries; a SQLite row is a record, and store writes succeed, except in `AccountTables`, where the two refusals of the table itself are modelled.
- Passwords, login queue and pending logins, password resets, limits on account creation by address, and e-mail: a login or creation here is one that passes them.
- Random room ids: `Worlds.World.HandleChatRoomCreate` takes an id never given before.
- Room search, chat, games, beeps, allow-item rules, difficulty changes and the synchronised character.
- Room fields without a guard (description, background, language, game, space, map data, custom, blocked categories); that the texts are there and within their lengths is one flag of a request.
- Stored account names that are not in upper case: the server makes none, but a database from elsewhere may have some. `Server` and `Worlds` take a registered name to be in upper case; a duplicate login would not find the session of one that is not, since that is kept under the stored name.
- The session of an account just created has no `Money` until the client sends it, while the store has 100: `Prison.PrisonDesk` has no creation, and takes the purses in memory and store to agree.
- Upper case beyond ASCII: names of rooms and accounts are ASCII, but a join may ask for any text.
- The text form of JSON, and fractional numbers: vaults, money and JSON numbers are integers, and the overflow of a sector's `BaseSlaveCapacity + ExtraCapacity` is not modelled.
- Client updates that write below `Ownership`, `Lovership`, `Money` or `ExtensionSettings` between the requests of `Ownership`, `Lovership` and `Prison`.
- Owner names, appearances and the other display fields of rentals; the snapshots of a sector and its Sync request.
- DelayedWrites.WriteBack.HandleAccountUpdate: keeps the order of the entries when it drops keys, where the source's map moves its last entry into the gap; the order matters only to a set with overlapping keys (`JsonPaths.MergeOrderIrrelevant`). The list of lovers that goes with an NPC is a parameter; `Lovership` computes it.
- A session's fields other than identity, room, relationships and the delayed values.
- Reloading a session that is online: a duplicate login is the end of one session and the start of another in `Ownership` and `Lovership`.
