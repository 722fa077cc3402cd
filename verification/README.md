# Verification of the Odyssey DataStore server

This project models the Balloon World server: the DataStore records and every handler that
reads or changes them, the data file, the object tokens and the found-marks they lead to, the
balloon search, the structure framing of requests and answers, the avatar scaler, and the call
counters of the dashboard. `dafny verify dfyconfig.toml` checks it.

The records exist twice. `RecordStore.DataStore` is a class of mutable records with one method
per handler; each method is proved against an operation of `Balloons.Apply`. `RecordSteps` cuts
the same handlers at their lock boundaries into atomic steps over the same operations, for any
number of requests in flight; `FindSteps` does so for tokens, downloads and searches; `System`
puts both together with restarts of the process and states what holds in every run.
`Agreement` shows that a post run alone is one schedule of the steps. What the operations and the
answers mean is stated in the fields of the records: `Meanings` for the operations, `Layout` for
the bytes, and the handlers' own contracts for what they answer.

| file | holds |
|---|---|
| Words, Balloons | widths and wrap-around; records, operations, the data file |
| Meanings | what each operation, the load and the flush come to, field by field |
| History | what a log of operations says about queues and ratings |
| RecordSteps, RecordInvariants | the interleaved record handlers and flusher, and what each step keeps |
| FindSteps, FindInvariants, Tokens | tokens, downloads, found-marks |
| Flushing | turns of the flusher and exactly when they complete the file |
| System, Echo, Races, Agreement | theorems over all runs, survival of a post and the stats echo, runs that show what fails and what happens |
| RecordStore, ObjectStore, Search | the handlers as they run, the download request, the search pipeline |
| BufferSlices | buffer queues as slices over shared backing arrays |
| Wire, Framing, Streams | fields and structures; readers and writers with an advancing cursor |
| Layout | where the fields of each structure stand, in bytes |
| PostRequests | the whole parameter of a post, from the bytes of the request to the record |
| BoxFilter | the avatar scaler |
| Dashboard | the call counters |

`System.Reachable` is the entry point of the run theorems: every state that any run from any
data file reaches, through any number of crashes and restarts, satisfies `System.Inv`; the
other theorems of `System` and `Echo` follow from `System.Inv`.

Where code and comments disagree, the model follows the code:

- The comment on `dsDeletePreviousBalloon` promises one active balloon per player
  (datastore.go:599-604). Completed uploads never reach that clean-up, and a file may already hold
  two, so the bound has terms for both (`System.AtMostOneActive`). `Races.UploadsLeaveTwoActive`
  is a run with two; `System.CompletionKeepsRule` says that a completion keeps the rule if and only
  if nothing of that owner and type was active before. `Races.OverlappingPostsLoseBoth` is a run
  that ends with none; `Echo.PostCanBeLostExactlyWhen` says that a post can be lost to another
  request's clean-up if and only if one of that owner and type is due when it inserts.
- The comment on `dsDeletePreviousBalloon` gives 0 as the answer for "nothing replaced". A file may
  hold a record with id 0, whose removal is then not marked (`System.ZeroMeansNothingReplaced`);
  `Races.ZeroStaysInFile` is a run whose writes all succeed and which ends at rest with that record
  in the file alone. Ids drawn by the server are never 0 (`RecordInvariants.ZeroFreeStep`).
- A flush that fails is not reported and not tried again before the next change
  (datastore.go:173-175): `Races.FailedWriteIsForgotten` is a run that ends at rest with the flag
  clear and the file behind. `Flushing.FlushCompletesExactlyWhen` says for every state when the
  flusher, left alone, completes the file, and `Flushing.FailedFlushExactlyWhen` when it does in
  spite of a failure; `System.HealthyFromStart` says that without faults it always does.
- `os.WriteFile` empties the file before it writes, and a start that cannot read the file goes on
  with no record and ids from 1 (datastore.go:125-133, 174). `Races.CrashInWriteLosesAll` is, for any
  file, a run without a failure in which a crash loses all of it; `System.CrashRecoversPrefix` and
  `System.CrashKeepsFileExactlyWhen` say exactly when a crash does not.
- The comment on `splitIntoSets` promises one envelope set for an empty pool
  (datastore.go:1115-1116); the code makes as many empty sets as requested
  (`Search.EmptyPoolSets` says exactly when there is one).
- The comment on `isCleared` says it tells whether someone popped the player's own balloon
  (datastore.go:1221); the code looks the balloon up among the player's own finds, where it can
  never be (`System.NoSelfMarks`), so the bit is right if and only if no one holds a mark on the
  balloon (`System.ClearedBitIsRightWhenUnfound`); `Races.FoundIsNotShown` is a run in which someone
  does and the listing does not say so.

## Model

| member | source | states |
|---|---|---|
| System.Reachable | datastore.go:125-181 | the invariant holds in every state of every run from any data file, whatever the interleaving, through any number of crashes and restarts |
| System.InvStep | datastore.go:522-642 | one step of any request, the flusher or a restart keeps every invariant |
| RecordInvariants.IdsStep | datastore.go:522-531 | all live and in-flight ids are below the counter; posts in flight, before and after their insert, have distinct positive ids; each record is under its own id |
| System.InFlightIdsDiffer | datastore.go:522-531 | two posts in flight never share an id, even after another request removed a record of theirs |
| System.InsertsAreFresh | datastore.go:586-588 | an insert stores the record that was built under its id, never overwrites one, and changes nothing else, however requests interleave |
| System.RemovalsRemove | datastore.go:636-682 | in every state, a deletion and a failed upload leave no record under the id, complete or not, and every other as it was |
| System.CompletionsComplete | datastore.go:631-635 | in every state, a successful upload completes exactly the record under the id, if there is one |
| System.BatchesApply | datastore.go:819-854 | ratings and buffers take effect and are logged, all of them and in order |
| System.ZeroMeansNothingReplaced | datastore.go:605-620 | the clean-up owes a dirty mark exactly when it removed a record, if and only if that record is not one with id 0; from a file without id 0 it never is |
| RecordInvariants.ZeroFreeStep | datastore.go:100-102 | no step brings id 0 into records, snapshots or the file |
| RecordInvariants.NoLostUpdateStep | datastore.go:155-181 | any difference between the records and the last list taken leaves the flag set, a mark owed, or a flush under way: kept by every step but a failing flush and the removal of id 0 |
| RecordInvariants.ForgetsExactlyWhen | datastore.go:173-175 | exactly when a failing open, a failing write or the removal of id 0 loses an update |
| Flushing.QuiescentFlushIsComplete | datastore.go:159-176 | once all marks are set, the flusher's current turn and one more make the file equal the records if and only if no update was lost, and then a restart loses nothing persisted |
| Flushing.FlushCompletesExactlyWhen | datastore.go:159-176 | in every state, the flusher left alone makes the file equal the records if and only if the flag is set, a turn has begun, or the list under way, or else the file, equals them already |
| Flushing.FailedFlushExactlyWhen | datastore.go:173-175 | after a failing open with no mark set the file equals the records if and only if it held the list already, after a failing write if and only if there is no record |
| Flushing.StartIsCompleteExactlyWhen | datastore.go:125-152 | a process that has just loaded has lost no update if and only if no stored posting time is zero or the clock reads zero |
| System.HealthyFromStart | datastore.go:125-181 | from a file with positive ids and posting times, in runs whose flushes do not fail and whose posts have a time: any difference between records and file has a flag, a mark owed or a turn to notice it, and once all marks are set the completed file equals the records and a restart loses nothing persisted |
| System.HealthyRun | datastore.go:155-181 | the same freedom from faults from any reachable state that has it, through restarts |
| System.NoticedSinceSnapshot | datastore.go:162-181 | whatever was lost before, from a snapshot on no update is lost by any run without a failing flush, a removal of id 0 or a restart |
| Races.FailedWriteIsForgotten | datastore.go:173-175 | a run at rest, flag clear, whose only flush failed: the file lacks the post |
| Races.CrashInWriteLosesAll | datastore.go:125-133 | for any file, a run in which the process dies between emptying and writing it, and the next one has no record and starts at id 1 |
| Races.ZeroStaysInFile | datastore.go:605-621 | a run at rest with every write done: the record with id 0 is in the file and no more in memory |
| System.CrashRecoversPrefix | datastore.go:125-152 | a crash at any point recovers the effect of a whole prefix of the operations if and only if the file can be read, unless there was no record at some point; from an unreadable file the process starts empty at id 1 |
| System.RecoveryNeverShrinks | datastore.go:159-175 | a step of a process makes a readable file unreadable exactly by opening it for a write or breaking one off, and otherwise never shortens the prefix it holds |
| System.CrashKeepsFileExactlyWhen | datastore.go:159-175 | over any steps of a process: a crash keeps all that the file held if and only if the file can still be read, or there was no record since |
| Flushing.TurnRecoversSnapshot | datastore.go:162-175 | whatever runs between a snapshot, the opening of the file and the end of its write, the write makes everything logged at the snapshot recoverable |
| RecordInvariants.LoadedIsCurrent | datastore.go:137-140 | a loaded process has nothing to flush if and only if no stored posting time is zero (or the clock itself reads zero) |
| Balloons.SaveLoadRoundTrip | datastore.go:136-147 | for any flush order, loading restores every field, with buffers empty and time cut to seconds, or set to now if it was zero |
| Balloons.LoadReseedsIds | datastore.go:148-150 | loading keeps records under their ids, below a counter just above the largest |
| Balloons.ReseedIgnoresOrder | datastore.go:148-150 | the reseeded counter does not depend on the order the file was written in |
| Balloons.NextAfterIsLeast | datastore.go:148-150 | the counter is the least number from 1 up that exceeds every stored id |
| Meanings.LoadMeans | datastore.go:136-147 | the last entry of an id is loaded field by field, a zero time as now, and no other id |
| Meanings.FlushMeans | datastore.go:162-172 | a flush holds each record once with its fields, the time cut to seconds |
| Meanings.RestartMeans | datastore.go:136-147 | what a save and a load make of a record, field by field |
| Meanings.CompletionMeans | datastore.go:631-635 | exactly the record under the id becomes complete |
| Meanings.RemovalMeans | datastore.go:636 | exactly the record under the id is gone, complete or not |
| Meanings.RatingMeans | datastore.go:746-751 | a rating adds to the record's totals and to one slot, which starts from zero, modulo 2^64 and 2^32, and changes nothing else |
| Meanings.QueueingMeans | datastore.go:877-884 | a buffer goes to the end of the one queue congruent to its slot modulo 256, and nothing else changes |
| Meanings.ClearingMeans | datastore.go:990-1000 | exactly that queue is forgotten |
| System.AtMostOneActive | datastore.go:605-621 | active records per owner and type are at most max(1, loaded) plus clean-ups due plus completed uploads; at most one at quiescence without the last two |
| System.CompletionKeepsRule | datastore.go:631-638 | a completed upload leaves at most one active record if and only if none of its owner and type was active before |
| System.CleanupSpares | datastore.go:608-614 | a clean-up never touches its own record, an incomplete one, another owner's, or another type's |
| System.CleanupFinds | datastore.go:608-614 | a clean-up removes its victim alone, and finds none only if there is no other complete record of the owner and type |
| RecordInvariants.OneActiveStep | datastore.go:586-590 | each step keeps the bound for every owner and type at once |
| Echo.OneActiveAfterPost | datastore.go:586-590 | a post run alone leaves max(1, active before): exactly one if and only if there was at most one |
| Echo.PostSurvives | datastore.go:586-590 | if no clean-up of the owner and type is due when a post inserts, its record is kept by every later run without a restart, without another record of that key becoming active, and without a request to remove this one |
| Echo.PostCanBeLostExactlyWhen | datastore.go:586-614 | some such run loses the record if and only if a clean-up of the owner and type is due at the insert |
| Races.OverlappingPostsLoseBoth | datastore.go:586-590 | a run of two overlapping posts in which each deletes the other and none is left |
| Races.UploadsLeaveTwoActive | datastore.go:631-638 | a run of two completed uploads that leaves two active at rest |
| Echo.PostedStatsComeBack | datastore.go:1181-1192 | after a stats post with at most one predecessor and no other clean-up due, the record survives with what was posted and is the only newest stats record, whatever the clocks and the other requests did |
| Echo.ListingEchoesPost | datastore.go:1234-1241 | whatever the listing then answers carries the posted id, type 200, the posted payload and the record's ratings |
| Agreement.PostAloneAgrees | datastore.go:576-590 | the post's steps taken alone have the net effect the handler method promises, down to the same replacement of a predecessor |
| History.QueueRefinesLog | datastore.go:872-883 | a queue holds, in order, what was added at slots congruent modulo 256 since it was last emptied |
| System.QueuesInEveryRun | datastore.go:931-935 | the same for every queue in every reachable state |
| History.SlotRefinesLog | datastore.go:335-343 | a slot is its state at birth plus everything logged for it, modulo 2^64 and 2^32, across saves and loads |
| History.RateKeepsLedger | datastore.go:746-751 | one rating keeps the per-record totals equal to the sums over slots, with wrap-around |
| History.PostedLedger | datastore.go:832-834 | for posted records totals agree with slots, and slots with initial value plus logged ratings |
| System.LedgersInEveryRun | datastore.go:249-269 | the same in every reachable state |
| System.NoSelfMarks | datastore.go:1177-1186 | no player ever holds a mark on an own record, so the cleared bit is never set |
| System.ClearedBitIsRightWhenUnfound | datastore.go:1219-1222 | the cleared bit tells whether anyone popped the balloon if and only if no one holds a mark on it |
| Races.FoundIsNotShown | datastore.go:1219-1222 | a run in which a find is credited and the owner's listing reads its cleared bit as false |
| System.MarkHasHistory | objectstore.go:96-143 | every mark goes back to a download prepared while complete, its token, and a GET no later than the expiry, with the lookup and the clock reading as separate steps |
| System.NeverOfferedAgain | datastore.go:1029-1046 | once marked, a record is in no answer to a later search by that player in the process |
| System.AlwaysOffered | datastore.go:1034-1046 | a live, complete, matching balloon of another that the player never downloaded is always offered |
| System.OfferedOnlyWhen | datastore.go:1034-1046 | in every reachable state, what a search reads as eligible is exactly what is stored, complete, another's, not of type 200, of the type asked for, and not found |
| System.CreditedExactlyWhen | objectstore.go:136-143 | a served download goes on to a credit if and only if its record is still there and another's |
| System.CreditMarks | datastore.go:1257-1264 | the credit makes exactly one mark |
| System.IssuesForTenMinutes | objectstore.go:45-52 | a token is issued for its request's record and player, and for ten minutes |
| System.SweptTableDecidesAlike | objectstore.go:53-57 | in every reachable state the swept token table decides as one never swept |
| System.LookupDecidesAlike | objectstore.go:95-143 | whatever runs between a request's token lookup and its clock reading, it goes on to the owner check if and only if the never-swept table at the lookup held a download token for the record and a player that had not expired at the reading |
| Tokens.SweepingIsInvisible | objectstore.go:96-103 | a table missing only expired tokens accepts the same requests from then on: those whose token names the record and has not expired |
| Tokens.IssueMirrors | objectstore.go:45-60 | issuing and sweeping, with a clock that advances during the sweep, keeps the two tables in step |
| Tokens.ObjectTokens.NewToken | objectstore.go:45-60 | inserts the token with an expiry ten minutes on and sweeps only tokens expired by the end, all that were expired at the start |
| Tokens.ObjectTokens.Check | objectstore.go:96-103 | answers as the never-swept table does at the moment of the clock reading |
| ObjectStore.Download | objectstore.go:98-145 | which GETs are served, forbidden or missing, in the fields of the token, and exactly when a find is credited |
| FindInvariants.MarksFindStep | objectstore.go:136-143 | token, download and credit steps keep all marks on foreign, inserted records |
| FindInvariants.EvidenceStep | objectstore.go:45-143 | every step keeps the history behind tokens, lookups, downloads and marks complete |
| RecordStore.DataStore.constructor | datastore.go:125-152 | a fresh process holds exactly the records of any list and the reseeded counter |
| RecordStore.DataStore.Flush | datastore.go:159-173 | takes the flag; if it was set, lists every record once |
| RecordStore.DataStore.DrawId | datastore.go:522 | a drawn id is in no record and no found-mark |
| RecordStore.DataStore.PreparePostObject | datastore.go:522-532 | adds one incomplete record under a fresh id |
| RecordStore.DataStore.PostMetaBinary | datastore.go:576-596 | adds one complete record and removes at most one predecessor, none only if there is none, and reports its id or 0 |
| RecordStore.DataStore.DeletePreviousBalloon | datastore.go:605-621 | removes one other complete record of the owner and type and nothing else, or finds that none exists, returns its id or 0, and marks dirty for any id but 0 |
| RecordStore.DataStore.CompletePostObject | datastore.go:631-639 | completes exactly the record, or removes it complete or not, nothing else, and marks dirty even for an unknown id |
| RecordStore.DataStore.DeleteObject | datastore.go:680-683 | removes exactly the record, complete or not, and marks dirty |
| RecordStore.BalloonRecord.AddRating | datastore.go:335-343 | changes one slot, which starts from zero if absent |
| RecordStore.DataStore.RateObject | datastore.go:746-753 | rates one slot of one record and keeps every other |
| RecordStore.DataStore.RateObjects | datastore.go:819-854 | the fold of single ratings over the paired prefix, results by index, totals as after the whole batch |
| RecordStore.DataStore.AddToBufferQueue | datastore.go:877-884 | appends to the queue at the slot cut to eight bits |
| RecordStore.DataStore.AddToBufferQueues | datastore.go:904-917 | the sequence of single adds; a parameter without a buffer or a record is answered NotFound |
| RecordStore.DataStore.GetBufferQueue | datastore.go:931-936 | the queue, empty for an unknown record |
| RecordStore.DataStore.GetBufferQueues | datastore.go:956-967 | each queue and result code at its parameter's index |
| RecordStore.DataStore.ClearBufferQueues | datastore.go:990-1000 | the sequence of single clears with result codes by index |
| RecordStore.DataStore.SearchBalloon | datastore.go:1025-1104 | every offer is the record stored under its id, complete, another player's, not of type 200, of the type asked for and not found; every such record is offered, once; newest first, dealt round-robin, each with its owner's name and stats |
| RecordStore.OffersAreEligible | datastore.go:1033-1046 | the same for any order in which the map may yield the records |
| RecordStore.OffersAreDealt | datastore.go:1107-1125 | as many sets as asked for, at most one a record, each newest first |
| RecordStore.OfferMeans | datastore.go:1053-1060 | an offer carries the id and ratings of a complete type-200 record of its owner, none newer, or zeros if there is none |
| RecordStore.OfferedExactlyOnce | datastore.go:1033-1070 | each eligible record is at exactly one place of the result sets, and nothing else is |
| RecordStore.DataStore.SearchObject | datastore.go:704-715 | at most a hundred complete records of the type as stored, each once, newest first; any left out is no newer than all of a full hundred |
| RecordStore.DataStore.FetchMyInfos | datastore.go:1177-1246 | lists exactly the player's complete balloons of the types asked for, none of type 200, each once with its stored fields, newest first, never cleared and without buffers; and the stored id, type, payload and ratings of a newest stats record at the time of the answer, or zeros |
| RecordStore.ListingMeans | datastore.go:1193-1232 | the same list for any order in which the map may yield the records |
| RecordStore.StatsAreSent | datastore.go:1234-1246 | the stats part sends the fields of the record that was chosen |
| RecordStore.DataStore.GetPersistenceInfo | datastore.go:292-308 | a newest complete balloon of the owner posted with the slot or with none, never one of type 200 or of another slot; none only if there is none |
| RecordStore.DataStore.CreditDownload | datastore.go:1257-1264 | marks the record for the player if it exists and is someone else's |
| Search.SortByTimeSorts | datastore.go:1062 | sorting permutes and orders newest first |
| Search.SplitIntoSets | datastore.go:1107-1125 | set j position k holds pool index k*n+j, and the sets hold the pool's multiset |
| Search.SetsAreBalanced | datastore.go:1117-1124 | no empty set for a non-empty pool, sizes differing by at most one |
| Search.RoundRobinRestores | datastore.go:1121-1123 | reading the sets round-robin gives back the pool |
| Search.SetsKeepOrder | datastore.go:1062-1070 | no set has an older record before a newer one |
| Search.RoundRobinPositions | datastore.go:1121-1123 | position k of set j holds what the sorted pool has at k*n+j |
| Search.EmptyPoolSets | datastore.go:1117-1120 | an empty pool yields the requested number of empty sets: one if and only if at most one was requested |
| BufferSlices.BufferQueues.Append | datastore.go:882 | appending in place or to a copy adds at the end, changes no other queue and no slice handed out |
| BufferSlices.BufferQueues.Clear | datastore.go:994 | forgets the queue and changes no slice handed out |
| BufferSlices.Serialise | datastore.go:937-938 | a slice header taken earlier reads element by element as the queue was then, whatever appends, clears and other readers run before each element |
| BufferSlices.ReadDuring | datastore.go:931-938 | the read answers with the queue at its start, whatever runs from the lock to the last element |
| Framing.PermissionRoundTrip | datastore.go:241-245 | the reader lands exactly behind a permission if and only if headers are on or nothing trails |
| Framing.PersistenceRoundTrip | datastore.go:272-280 | a slot reads back, 0xFFFF as none, and leaves exactly what follows |
| Framing.InitParamsRoundTrip | datastore.go:249-269 | a written list of rating initialisers reads back and leaves exactly what follows, unknown trailing fields included |
| Framing.LastInitWins | datastore.go:263-265 | the last entry of a repeated slot decides |
| Framing.RatingsRoundTrip | datastore.go:346-354 | a ratings map written in any order reads back entry by entry |
| Wire.OpenWrapped | datastore.go:374-395 | opening a written structure gives exactly its body and leaves exactly what follows |
| Layout.HeaderLayout | datastore.go:374-395 | a version byte, a length in four bytes, then the structure |
| Layout.PermissionLayout | datastore.go:241-245 | a byte, a count in four, eight bytes for each player |
| Layout.PersistenceLayout | datastore.go:272-280 | a slot in two bytes, then one more |
| Layout.InitLayout | datastore.go:255-262 | the initial value stands behind three bytes, eleven follow it |
| Layout.ShortInitIsSkipped | datastore.go:263-265 | an element with an error adds nothing, and the next one is read in any case |
| Layout.RatingLayout | datastore.go:346-354 | total in eight bytes, count in four, initial value in eight |
| Layout.PostLayout | datastore.go:504-515 | the order and widths of a post's fields |
| PostRequests.RequestRoundTrip | datastore.go:504-520 | every field of a whole post arrives, whatever trailing fields its nested structures carry behind headers |
| PostRequests.StoredAsWritten | datastore.go:504-590 | the record that a post leaves has the written size, name, type, meta and tags, the sender as owner, both times of the post, no slot for 0xFFFF, no buffers, and for each slot the last initial value as total and initial with count 0, and no other slot |
| PostRequests.CutShortRefused | datastore.go:505-518 | with headers, a request cut short at any byte is answered as an invalid argument |
| PostRequests.CutShortExactlyWhen | datastore.go:505-520 | without headers, a request cut short is refused if and only if it ends before the end of its tags |
| PostRequests.EndsBehindTags | datastore.go:516-520 | errors are tested before the ratings: a request that ends behind its tags is accepted with no ratings and no slot |
| PostRequests.ReadPostParam | datastore.go:504-520 | the reader with its cursor reads what the function reads |
| PostRequests.HandlePrepare | datastore.go:503-532 | a refused request changes nothing; a read one adds exactly one record, incomplete, built from its fields |
| PostRequests.HandleMetaBinary | datastore.go:557-596 | a refused request changes nothing; a read one adds a complete record built from its fields, which stays, and removes at most one predecessor |
| Streams.ReadStructHeader | datastore.go:374-380 | a substream with headers, the same stream without |
| Streams.ReadPermission | datastore.go:241-245 | the loop over the cursor reads what the function reads |
| Streams.ReadPersistenceSlot | datastore.go:272-280 | the same for the persistence slot |
| Streams.ReadRatingInitParams | datastore.go:249-269 | the same for the list of rating initialisers |
| Streams.WriteRatings | datastore.go:346-354 | writes each entry of the map once, in some order |
| BoxFilter.WindowsStayInside | avatar.go:100-112 | every window of a non-empty source is non-empty and inside its bounds |
| BoxFilter.WindowsAbut | avatar.go:104-107 | shrinking an axis, windows abut from the first coordinate to the last |
| BoxFilter.WindowIsItsShare | avatar.go:100-112 | on each axis output pixel i samples from i/n of the source, rounded down, to (i+1)/n, or one coordinate if that is none |
| BoxFilter.CoveredOnce | avatar.go:104-107 | shrinking an axis, every source coordinate lies in exactly one window |
| BoxFilter.AreasSumToSource | avatar.go:103-112 | shrinking both axes, window areas sum to the source area |
| BoxFilter.PixelHeldOnce | avatar.go:100-112 | shrinking both axes, each source pixel lies in the window of exactly one output pixel |
| BoxFilter.PartitionExactlyWhen | avatar.go:100-112 | every source pixel lies in exactly one window if and only if neither axis is enlarged |
| BoxFilter.SingleWhenEnlarging | avatar.go:105-107 | enlarging an axis, every window is one coordinate |
| BoxFilter.HitWhenEnlarging | avatar.go:105-107 | enlarging an axis, every source coordinate is sampled |
| BoxFilter.MeanIsBetween | avatar.go:113-120 | an output channel lies between its window's extremes, each shifted right by 8 |
| BoxFilter.MeanFits | avatar.go:117-120 | no division by zero, and every output channel fits in 8 bits |
| BoxFilter.SumsFitIn64Bits | avatar.go:113-117 | windows of up to 2^48 pixels cannot overflow the accumulators |
| BoxFilter.ConstantStaysConstant | avatar.go:113-120 | an output pixel of a source that has one colour inside its bounds is that colour |
| BoxFilter.PlainStaysPlain | avatar.go:100-123 | such an image scales to an image of that colour everywhere |
| BoxFilter.SumWindow | avatar.go:113-119 | the two inner loops compute the window's channel sums and pixel count |
| BoxFilter.SumOfOne | avatar.go:113-119 | the sum over one pixel is that pixel |
| BoxFilter.SumSplitsAtRow | avatar.go:113-119 | a sum splits at every row |
| BoxFilter.SumSplitsAtColumn | avatar.go:113-119 | a sum splits at every column |
| BoxFilter.PixelCountsOnce | avatar.go:113-119 | a change of one pixel inside the window moves the sum by as much, outside it not at all |
| BoxFilter.ScaleInto | avatar.go:100-123 | every output pixel holds its window's means and is opaque |
| BoxFilter.SampledMeans | avatar.go:120 | each output channel is its own channel's mean over the window, rounded down to the top eight bits, and opaque |
| BoxFilter.EveryPixelCountsOnce | avatar.go:113-120 | raising one source pixel moves the three sums behind exactly the output pixels whose windows hold it, by as much |
| Dashboard.CountersAreOrdered | dashboard.go:54-84 | in every run methods <= player calls <= total, equal when nothing is in flight; sessions count known players; events are the newest hundred of those logged, or all |
| Dashboard.InvStep | dashboard.go:59-83 | each counter lags the one before it by exactly the calls between their sections |
| Dashboard.SeeingMeans | dashboard.go:61-75 | what the player section does to each field and leaves alone |
| Dashboard.LoggingMeans | dashboard.go:77-83 | the event goes to the end, the oldest is dropped at a hundred, one count grows by one |
| Dashboard.Counters.NoteCall | dashboard.go:54-84 | the three sections in order, nothing for a call without a player id |
| Dashboard.Counters.NotePlayer | dashboard.go:61-75 | first and last sight, calls, last method, and address if given |
| Dashboard.Counters.NoteEvent | dashboard.go:77-83 | appends the event, keeps the last hundred, counts the method |

## Left out

- Flushing.QuiescentFlushIsComplete: JSON is the identity on the list of records, and a strict part of its text cannot be read; the file is written by this process alone.
- System.CrashRecoversPrefix: the snapshot is taken to be a deep copy. The source shares the ratings maps with the live records until the list is marshalled, so a rating in that gap is an unsynchronised access, whose outcome is not modelled.
- System.NeverOfferedAgain: the finds a search or listing reads are a live map, read after its lock is released (datastore.go:1029-1046, 1178-1222); the theorems about them hold for any set between the finds at the look and those at the reading, while the handlers of RecordStore read them at once.
- System.MarkHasHistory: a record is read as it was when its lock was held; an upload token may be asked for at any time, not only after a prepared post.
- RecordSteps.Next: the id counter does not wrap, and loaded files come from one process at a time.
- RecordStore.DataStore.FetchMyInfos: the fields of the answer, not their encoding; the time of the answer is a parameter.
- RecordStore.DataStore.SearchBalloon: records are copied under the lock, so later changes of a record between the lock and the encoding are not visible; the name lookup is a parameter.
- Search.SortSlice: stands for the library sort; callers learn only that it permutes and orders.
- PostRequests.RequestRoundTrip: strings and blobs have a primitive form here, two bytes of length and then the bytes, one per character; the stream library's own form is not part of this model.
- Streams.ReadRatingInitParams: the stream library is not part of this model; a failed read is taken to return zero and to make every later read of that stream fail.
- BoxFilter.ScaleInto: accumulators are unbounded; they cannot overflow up to 2^48 pixels a window.
- Dashboard.CountersAreOrdered: counters are unbounded rather than 64-bit.
- Handlers other than the two posts start after their parameters are decoded; a malformed request gets a constant error.
- GetMeta, GetMetas and GetRating read one record without a condition and add only easy members.
- The byte layout of record metadata rests on library level encoding.
- Uploads (PUT), blob files and their deletion, URLs, and random token strings are outside.
- Name and avatar fetching, JPEG encoding, presence, caches, identity checks, gates, the dashboard routes and the settings table are outside.
