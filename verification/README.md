# A verified model of KSMPPD

KSMPPD is an SMPP server between SMPP clients (ESMEs), Kannel bearerboxes and a SQL or Redis store. What is hard
about it is the passing of message ownership between queues, maps, threads and stores, and a few exact algorithms
on text. This project models both in Dafny and proves what they promise.

`dafny verify dfyconfig.toml` checks everything.

| file | what it models |
|---|---|
| `Bearerbox.dfy`, `BearerboxSafety.dfy`, `BearerboxLoss.dfy`, `BearerboxOutcomes.dfy`, `BearerboxServer.dfy` | the outbound MT protocol: every lock-protected section is a step of a state machine over any number of bearerboxes, with the messages in a thread's hand as a place of their own; its safety over whole runs; what stale releases and failed deletions cost it; what each outcome leaves of one message; and a class whose methods and loops perform exactly those steps |
| `SqlStore.dfy`, `SqlOverlap.dfy` | the SQL message store and its claims; fetches that overlap |
| `RedisStore.dfy`, `RedisRequest.dfy`, `RedisReader.dfy`, `RedisIndex.dfy` | the Redis message store at the grain of single commands, pushes that fail included, what a request asks for, the reader loop, and the PDU lists with their poll set |
| `EsmeWindow.dfy`, `EsmeTimeouts.dfy`, `EsmeOutbound.dfy` | one client's outbound queue and window of open acknowledgements, when a PDU in it times out, and the code that works on them |
| `EsmeLifecycle.dfy`, `EsmeSplit.dfy`, `EsmePass.dfy` | binds, reference counters and the cleanup pass that destroys a connection; exactly when a pass destroys one that is still listed; the pass as code |
| `SubmitFlow.dfy`, `CreditRace.dfy`, `SubmitServer.dfy` | submit_sm and data_sm from request to response, prepaid credit, and how far it can be overdrawn |
| `Scanning.dfy`, `Receipt.dfy`, `ReceiptFields.dfy`, `ReceiptRoundTrip.dfy`, `ReceiptParser.dfy` | the delivery receipts of SMPP v3.4 Appendix B: an interpreter for the one sscanf pattern used, the key-search fallback, the printer, the parser over its fixed buffers |
| `DlrReport.dfy`, `Addresses.dfy` | correlation of reports with submitted messages, address normalisation |
| `Routing.dfy` | first-match routing behind the cache of outbound routes |
| `UrlCodec.dfy` | the %XX codec of stored fields |

## Assumptions

- Bearerbox protocol: the UUIDs of distinct submits differ; a write that returned -1 is never acknowledged, one that
  succeeded may be acknowledged before the writer knows; store inserts may fail, DELETE statements do not
  (`BearerboxLoss.FailedDeleteIff` says what one that fails costs); nobody but the server deletes rows.
- SQL message store: a table never gives a number to two rows; the fetches of the two requeue threads do not overlap
  (`SqlOverlap.OverlappingFetchesIff` says exactly when that matters). Releases may be repeated.
- Redis message store: every entry pushed as a new message, by the server or by an outside client, has a number that
  was not used before. The server's come from INCR; an outside client chooses its own
  (database-schemas/redis/keys.md). `RedisStore.ClaimConservesIff` says what a number in use costs. Outside entries may
  come without their SADD.
- ESME window: a client acknowledges only sequence numbers it has been sent, a PDU enters without a time stamp, and no
  sending thread holds a PDU for longer than the 10 seconds of the cleanup delay when its ESME is destroyed. What
  happens without each of the three is stated as an if-and-only-if beside the main result.
- Cleanup pass: the queue threads are as prompt as above; no routing callback is between lowering its counter and its
  answer when its ESME is swept; the pass does not give up an ESME it has already kept for another bind, and the
  listener, which looks at `authenticated` and then acts (smpp/libsmpp/smpp_listener.c:301-308), does not hand one over
  that the scan has kept in the meantime. None of them is true of every run; `SweepIsSafeIff` and
  `DestroyedWhileListedIff` say exactly what then happens. The listener may queue PDUs of an ESME after it was told to
  stop, but not after the ESME was destroyed.
- Costs and credit are integers of millionths, which is the precision of the store's `%f`.

## What does not hold

The code is modelled as it is. Where a promise fails the project has the failing case and the exact condition.

- `EsmeLifecycle.SplitVerdictDestroysListedEsme`: a client bound twice that goes away while the cleanup pass is between
  its two entries (also when the wait-ack action of the first entry disconnects it) is destroyed by that pass while the
  first entry is still listed. `EsmeSplit.DestroyedWhileListedIff` is the condition, whatever runs beside the pass: an
  ESME is destroyed while listed exactly when it was handed over for cleanup after the scan had kept it for a bind and
  it may be destroyed when it is swept. `SingleBindIsSafe` shows one bind is enough.
- `EsmeLifecycle.RoutingCallbackCanOutliveItsEsme`: a routing callback lowers the counter before it answers
  (smpp/libsmpp/smpp_queues.c:252), so a sweep in between destroys the ESME it is about to use. That is real for HTTP and
  plugin routing; with database routing the callback runs in the inbound thread, which holds the read lock on the ESME
  data (smpp/libsmpp/smpp_queues.c:887-917). `SweepIsSafeIff` is the condition.
- `EsmeLifecycle.LateCleanupIsForgotten`: a connection that no account lists, handed over for cleanup while the pass
  replaces the queue, is lost with the old queue, exactly then.
- `EsmeWindow.StampedPduIsFreedInQueue`: the Redis loader copies the stored time stamp
  (smpp/libsmpp/smpp_database_redis.c:640), so that a PDU can time out, and be freed, while it is still queued.
- `RedisIndex.AccountNamedLikeTheIndex`: the list key of an account called "esmes" is the key of the poll set. If it is
  the first to store a PDU, nobody is polled. `AddKeepsInvIff` is the condition.
- `RedisIndex.RaceHidesAPush`: with two clients at the grain of commands, a push between LLEN and SREM is not polled.
  `LatePushIff` is the condition: with adds by others in between, the poll stays complete exactly when none of them was
  for that account; `LateRemovalIff` is the same with fetches as well.
- `RedisStore.NothingIsLostOrCopied`: an entry whose push back on the list or temporary release fails is in no container
  any more; nothing is lost exactly when every push worked. `ClaimConservesIff`: a claim under a number that is already
  claimed overwrites that claim, and its entry is gone.
- `RedisStore.PollFindsEveryEntry`, `MergedPollFindsEveryEntry`: the reserved service name, to which the empty service
  also normalises, is not polled, and neither is an entry that an outside client pushed without SADD, until something of
  its service is indexed. The lemmas state the exact condition.
- `SqlStore.SecondReleaseDeletesAnotherRow`, `BearerboxLoss.SecondReleaseLosesAMessage`: all parts of a multi-part MO or
  report share a number (smpp/libsmpp/smpp_bearerbox.c:251-262, smpp/libsmpp/smpp_esme.c:405-419) and the callback of each
  releases it. After the first release the requeue thread may claim the queue table's row of that number; the second
  release deletes that row, and if a bearerbox then refuses the message for now, an accepted message is lost.
  `StaleReleaseIsHarmlessIff` and `StaleReleaseHitsIff` say when and what a repeated release deletes;
  `BearerboxLoss.AcceptedAreKeptIff` is the condition over whole runs, `StaleReleaseRobsIff` the one before the call, and
  `OneTableLosesNothing` shows that it holds always when no queue table is configured.
- `SqlOverlap.OverlappingFetchesIff`: the two requeue threads fetch concurrently. Claims are exclusive, and a release
  deletes its own row and no other, exactly when no number is selected in two tables.
- `BearerboxLoss.FailedDeleteIff`: when the DELETE for a requeued message fails, its row stays unclaimed. UUIDs stay unique
  exactly when no other row, message on its way or row about to be produced has this one; a message that was parked again
  under a new number has.
- `CreditRace.OverdraftIsReached`: a deduction reads the balance and updates it in two statements without a lock
  (smpp/libsmpp/smpp_database_mysql.c:1310-1359), and the callbacks of several inbound queue threads overlap. With k
  deductions of at most C at once the balance can go down to -(k-1)*C and no further (`OverdraftIsBounded`); it never
  goes below zero exactly when k is 1 or C is 0 (`NeverOverdrawnIff`).
- `ReceiptFields.DatesAreNotRecovered`: the key search for dates never copies anything, because it ends at the blank in
  the key. `AnyOrderIsParsed`: a field that a receipt does not have is looked for in its text, and found if the text
  contains its key. `ReceiptRoundTrip.ErrReturnsIff`: an error code above 0xFFF (a negative one) is cut when read again.
- `EsmeOutbound.ReplacementIsNotAnOrder`: the choice among receivers may be replaced by a busier one in two steps. Where
  queued and open counts never disagree on which bind is busier the chosen one is the least busy, as `FindBestReceiver`
  states, with what it promises otherwise.
- `UrlCodec.FieldsSurviveIff`: a user data header that is present and empty comes back from SQL as not present, and an
  absent body as an empty one; nothing else is lost.
- A malformed destination address is refused with RINVSRCADR (smpp/libsmpp/smpp_pdu_util.c:197), not RINVDSTADR.

## Model

| member | source | states |
|---|---|---|
| BearerboxSafety.EveryContextIsInOnePlace | smpp/libsmpp/smpp_bearerbox.c:354-518 | in every run with any number of bearerboxes a message that entered is held by exactly one of queue, hand, open_acks or completed, once; no callback context completes twice |
| BearerboxSafety.NoAckEntryIsOverwritten | smpp/libsmpp/smpp_bearerbox.c:380 | whenever a writer puts a message into open_acks, no bearerbox has a message under its UUID |
| BearerboxSafety.NoAcceptedMessageIsLost | smpp/libsmpp/smpp_bearerbox.c:161-193 | in any run, repeated releases by others included, a UUID answered with status 0 was buffered or sent by a bearerbox that held it open (ack_buffered, ack_success), failed for good at one on a requeue (ack_failed), has exactly one fallback row that outlives the callbacks in progress, or rested on a row that a stale release deleted |
| BearerboxLoss.AcceptedAreKeptIff | smpp/libsmpp/smpp_bearerbox.c:161-193 | in every state of a run all that was answered for is delivered, refused or has a row that stays, exactly when no stale release of the run deletes the row of a message that was neither delivered nor refused |
| BearerboxLoss.StaleReleaseRobsIff | smpp/libsmpp/smpp_database_mysql.c:1129-1135 | the repeated release of an MO or report deletes an MT row exactly when the claim dictionary has its number for the fallback table |
| BearerboxLoss.OneTableLosesNothing | smpp/libsmpp/smpp_database.c:91-104 | without a queue table no run with such releases ever loses an accepted message |
| BearerboxLoss.SecondReleaseLosesAMessage | smpp/libsmpp/smpp_bearerbox.c:251-262 | with two tables, from every start with a parked message under a number the primary table has not used, some run loses it: answered for, not delivered, not refused, in no row and held nowhere |
| BearerboxLoss.FailedDeleteIff | smpp/libsmpp/smpp_bearerbox.c:642-662 | UUIDs stay unique after a failed DELETE exactly when no other row that stays, message on its way or row about to be produced has this one |
| BearerboxSafety.OutcomesSettleOpenMessages | smpp/libsmpp/smpp_bearerbox.c:485-528 | over every run, what counts as delivered was an ack_buffered or ack_success that found its message in open_acks, and what counts as refused an ack_failed that found one from the store; stray acks and every other kind count for nothing |
| BearerboxOutcomes.AckAnswers | smpp/libsmpp/smpp_bearerbox.c:500-517 | the answer to the message an ack finds, by the kind of the ack, and that nothing else moves |
| BearerboxOutcomes.AckReleases | smpp/libsmpp/smpp_bearerbox.c:642-662 | the row and claim of a requeued message go exactly when the ack was buffered, success or failed; an ack for a submit touches no row |
| BearerboxOutcomes.FlushAnswers | smpp/libsmpp/smpp_bearerbox.c:439-457 | a flushed message is answered with the temporary failure and keeps its row and claim |
| BearerboxOutcomes.OfferAnswers | smpp/libsmpp/smpp_bearerbox.c:161-193 | without a bearerbox the answer is 0 exactly when the message could be parked; its row has its service and UUID, and takes the place of the row it came from |
| BearerboxOutcomes.ParkedComesBack | smpp/libsmpp/smpp_bearerbox.c:664-704 | whatever happens in between, a message produced from a parked row has the service and the UUID of the one that was parked |
| BearerboxSafety.StepKeepsInv | smpp/libsmpp/smpp_bearerbox.c:373-518 | each of the fifteen steps, stale releases included, keeps places unique, the rows of messages on their way claimed or gone, and live UUIDs distinct |
| BearerboxSafety.RunKeepsInv | smpp/libsmpp/smpp_bearerbox.c:354-704 | so does every run |
| BearerboxServer.BearerboxState.AddToQueue | smpp/libsmpp/smpp_bearerbox.c:161-193 | queues when some bearerbox is online, else parks or rejects and completes the callback at once |
| BearerboxServer.BearerboxState.SearchOnline | smpp/libsmpp/smpp_bearerbox.c:150-159 | finds an online bearerbox exactly when there is one |
| BearerboxServer.BearerboxState.AddMessage | smpp/libsmpp/smpp_bearerbox.c:195-201 | a submit followed by one offer to the queue |
| BearerboxServer.BearerboxState.WriteSection | smpp/libsmpp/smpp_bearerbox.c:374-402 | the writer's locked section: registered before it is written, taken back by a failed write, and when it asks for a requeue |
| BearerboxServer.BearerboxState.WriterRound | smpp/libsmpp/smpp_bearerbox.c:373-408 | a whole round of the writer is take, write and, if the write did not happen, one offer |
| BearerboxServer.BearerboxState.HandleAck | smpp/libsmpp/smpp_bearerbox.c:485-528 | an unknown ack changes nothing; a known one completes its message once, with 0 exactly for ack_buffered and ack_success, RSUBMITFAIL exactly for ack_failed and RSYSERR for any other kind; a stored message keeps row and claim exactly in that last case |
| BearerboxServer.BearerboxState.FlushOpenAcks | smpp/libsmpp/smpp_bearerbox.c:439-457 | every message waiting for an ack is completed with a temporary failure, each once, and nothing else |
| BearerboxServer.BearerboxState.Reconnect | smpp/libsmpp/smpp_bearerbox.c:433-476 | a reconnect flushes first and starts with no open ack |
| BearerboxServer.BearerboxState.RunCallback | smpp/libsmpp/smpp_bearerbox.c:642-662 | the callback of a stored row deletes it and its claim for the statuses 0 and RSUBMITFAIL, only the claim when the DELETE fails, and neither for any other status; that of a submit answers it |
| BearerboxServer.BearerboxState.RequeueStored | smpp/libsmpp/smpp_bearerbox.c:664-704 | without an online bearerbox, or with a primary store and no queueing, nothing; else every selected row is claimed and queued once, in order, with its stored UUID |
| SqlStore.DrainReadsWhatParkWrites | smpp/libsmpp/smpp_database.c:91-104 | in every configuration the requeue thread reads the table that parking writes, which is the queue table if one is set and the primary table otherwise; MO and reports are read from the primary table |
| SqlStore.AutoReadsQueueTableIff | smpp/libsmpp/smpp_database.c:91-104 | a fetch without a table of its own reads the queue table exactly for MT, when the store is not primary and a queue table is set |
| SqlStore.ClaimsStayExclusive | smpp/libsmpp/smpp_database_mysql.c:440-515 | over every run of inserts, fetches one after the other, and releases, repeated ones included, two live claims never share a number, and the two claim dictionaries have the same keys |
| SqlOverlap.OverlappingFetchesIff | smpp/libsmpp/smpp_database_mysql.c:429-515 | for any number of overlapping fetches whose entries come in any order: each release would delete its own row and no other, exactly when no number was selected in two tables |
| SqlOverlap.OverlappingFetchesStayExclusive | smpp/libsmpp/smpp_database_mysql.c:429-515 | over every run at the grain of single entries, if no number is selected while another thread is about to enter it, an entry finds its number free and its row there, and claims stay exclusive |
| SqlStore.ReleaseIsExact | smpp/libsmpp/smpp_database_mysql.c:1115-1161 | a final release deletes exactly the claimed row from the table it came from, a temporary one deletes nothing |
| SqlStore.FinalRemoveHitsUnclaimedRowIff | smpp/libsmpp/smpp_database_mysql.c:1115-1161 | a final remove deletes a row that is not claimed exactly when the number is not claimed and the primary table has such a row |
| SqlStore.StaleReleaseIsHarmlessIff | smpp/libsmpp/smpp_database_mysql.c:1115-1161 | a release of a claim that is over changes no row and no claim exactly when its number is not claimed again and the primary table has no row of it |
| SqlStore.StaleReleaseHitsIff | smpp/libsmpp/smpp_database_mysql.c:1129-1135 | the row it deletes is the one claimed under its number now, by whomever, or else the primary table's; for a claim of the primary table only the first |
| SqlStore.SecondReleaseDeletesAnotherRow | smpp/libsmpp/smpp_queues.c:146-204 | for any two tables and any number, a run from the empty store after which the second release of a two-part MO deletes an MT row claimed by the requeue thread, with its claim |
| SqlStore.SqlDatabase.AddMessage | smpp/libsmpp/smpp_database_mysql.c:1215-1289 | inserts one row into the queue table if that is asked for and set, else into the primary one; or nothing |
| SqlStore.SqlDatabase.GetStored | smpp/libsmpp/smpp_database_mysql.c:364-526 | claims exactly the selected rows and returns them in order: of the type and service asked for, from the table that the kind and the configuration name, none claimed before |
| SqlStore.SqlDatabase.RemoveMessage | smpp/libsmpp/smpp_database_mysql.c:1115-1161 | drops the claim and, unless temporary or the DELETE fails, the row; and what it reports, success for a claimed row even when the DELETE failed |
| RedisStore.NothingIsLostOrCopied | smpp/libsmpp/smpp_database_redis.c:364-540 | over every run of any clients: added = in the list + in hands + claimed + removed + lost, as multisets, and no entry twice; nothing is lost exactly when every push worked |
| RedisStore.ClaimIsFresh | smpp/libsmpp/smpp_database_redis.c:409-455 | a claim never overwrites another one |
| RedisStore.ClaimConservesIff | smpp/libsmpp/smpp_database_redis.c:409-455 | a claim conserves the entries exactly when its number is not claimed already |
| RedisStore.TemporaryReleaseUndoesClaim | smpp/libsmpp/smpp_database_redis.c:512-540 | claim then temporary release is a push-back: list and dictionary are as if there had been no claim, and the service is indexed |
| RedisStore.PollFindsEveryEntry | smpp/libsmpp/smpp_database_redis.c:330-342 | after every run, outside entries without SADD included, a stored entry's service is polled exactly when it is not the reserved name and something of that service was indexed; the server's own entries always are |
| RedisStore.MergedPollFindsEveryEntry | smpp/libsmpp/smpp_database_redis.c:829-857 | the same for the merged indexes of two message stores, after any runs of both |
| RedisStore.ReservedNameIsNeverPolled | smpp/libsmpp/smpp_database_redis.c:800-816 | an account really called like the reserved name is never polled |
| RedisRequest.MatchesIff | smpp/libsmpp/smpp_database_redis.c:344-362 | an entry is taken exactly if it is an object of the type asked for and, with a filter, its service is the same name in whatever case, where no service counts as the reserved name |
| RedisReader.ReadInClosedForm | smpp/libsmpp/smpp_database_redis.c:479-505 | with exclusive access the reader claims exactly the entries asked for among the first min(limit, length), in order, and leaves the list itself if there is none, else the declined ones reversed before the rest |
| RedisReader.ClosedFormConserves | smpp/libsmpp/smpp_database_redis.c:457-510 | what it claims and what it leaves are together the list it found |
| RedisReader.ClosedFormTakes | smpp/libsmpp/smpp_database_redis.c:457-510 | entry by entry: what is asked for among the first min(limit, length) is taken, as often as it is there, and nothing else; every other entry is still in the list |
| RedisReader.StoreClient.GetStored | smpp/libsmpp/smpp_database_redis.c:457-510 | whatever other clients do in between and whichever pushes fail: every entry returned is a message of the type and service asked for, there are at most as many as asked for (0 means 1000) and at most 32 non-empty pops for each, and every step is one of the store's commands; alone, all that is asked for among the first min(limit, length) entries is taken and nothing else leaves the list |
| RedisReader.StoreClient.DisposeBatch | smpp/libsmpp/smpp_database_redis.c:490-498 | claims the matching entries of a batch in order and leaves the others reversed on the head of the list |
| RedisReader.StoreClient.AddMessage | smpp/libsmpp/smpp_database_redis.c:364-407 | one new entry at the head, indexed, or nothing but a used number when the push fails; the result says which |
| RedisReader.StoreClient.RemoveMessage | smpp/libsmpp/smpp_database_redis.c:512-540 | releases a claim, and fails without one; a temporary release whose push fails reports failure and loses the entry |
| RedisIndex.PollFindsEveryList | smpp/libsmpp/smpp_database_redis.c:829-857 | over every run in which no add takes the poll set's key, every system id with stored PDUs is polled |
| RedisIndex.AddKeepsInvIff | smpp/libsmpp/smpp_database_redis.c:542-586 | storing a PDU keeps that so exactly when it does not create a list under the poll set's key |
| RedisIndex.FetchKeepsInv | smpp/libsmpp/smpp_database_redis.c:607-673 | fetching keeps it so always: only an empty list is taken out of the poll |
| RedisIndex.IndexTakenHidesEveryone | smpp/libsmpp/smpp_database_redis.c:571-582 | while that key holds a list, PDUs are stored and nobody is polled |
| RedisIndex.AccountNamedLikeTheIndex | smpp/libsmpp/smpp_database_redis.c:135-146 | this happens for an account called "esmes" |
| RedisIndex.RaceHidesAPush | smpp/libsmpp/smpp_database_redis.c:656-669 | a push between LLEN and SREM is stored and not polled |
| RedisIndex.LateRemovalIff | smpp/libsmpp/smpp_database_redis.c:656-669 | with adds and fetches by others between LLEN == 0 and SREM, the poll stays complete exactly when the list is still empty |
| RedisIndex.LatePushIff | smpp/libsmpp/smpp_database_redis.c:656-669 | with adds by others in between, exactly when none of them was for that list |
| RedisIndex.PduTable.AddQueuedPdu | smpp/libsmpp/smpp_database_redis.c:542-586 | count, push in front of its own list and of no other and, if the push worked, index; the result says whether it did, which is when the key had no other type |
| RedisIndex.PduTable.GetStoredPdu | smpp/libsmpp/smpp_database_redis.c:607-673 | what is popped and what stays are together the list before, in order; min(limit or 1000, length) entries are popped, the objects among them are returned in order, and no other list changes; an account found empty is unlisted |
| RedisIndex.FetchCutsTheList | smpp/libsmpp/smpp_database_redis.c:607-652 | a fetch cuts the list after its first min(limit or 1000, length) entries; no other list changes, and a key of another type gives nothing |
| RedisIndex.AddPutsInFront | smpp/libsmpp/smpp_database_redis.c:542-586 | a stored PDU is the first entry of its list, no other list changes, and it is stored exactly if its key has no value of another type |
| RedisIndex.ListIsAStack | smpp/libsmpp/smpp_database_redis.c:542-673 | over every run of adds and fetches for any accounts: what is fetched under an ordinary key comes off the top, the last put first, and the entries put are those in the list and those fetched, each once |
| RedisIndex.FetchUnpollsIff | smpp/libsmpp/smpp_database_redis.c:655-669 | a fetch takes its system id out of the poll exactly if it popped no object and found the list empty, and nobody else's |
| RedisIndex.UsableKeepsOrder | smpp/libsmpp/smpp_database_redis.c:619-652 | the usable entries of a batch are its objects, in order |
| EsmeWindow.WindowNeverOverflows | smpp/libsmpp/smpp_esme.c:556-575 | with k admitters that add up to P PDUs after a pick, open_acks never exceeds max_open_acks - 1 + k*P, in any run |
| EsmeWindow.WindowBoundIsReached | smpp/libsmpp/smpp_bearerbox.c:544-564 | some run reaches that bound, for every k, P and max_open_acks |
| EsmeWindow.CallbacksRunOnce | smpp/libsmpp/smpp_queues.c:117-144 | in every orderly run a deliver_sm's callback runs at most once, exactly once when it has left the window or the ESME is destroyed; nothing is freed twice or before it is sent |
| EsmeWindow.SequenceNumberIsFree | smpp/libsmpp/smpp_queues.c:79-94 | the number of the next deliver_sm is not in the window, so dict_put replaces nothing |
| EsmeWindow.AckIsSafeIff | smpp/libsmpp/smpp_queues.c:117-144 | an acknowledgement frees a PDU still to be sent exactly when its number was not sent |
| EsmeWindow.QueuedPduExpiresIff | smpp/libsmpp/smpp_esme.c:688-704 | a queued PDU can time out exactly when it came in stamped |
| EsmeTimeouts.SentPduExpiresIff | smpp/libsmpp/smpp_queues.c:950-960 | a deliver_sm in the window that is written now is overdue after d seconds exactly when d is more than the time allowed; one whose client had gone starts no wait |
| EsmeTimeouts.WrittenPduExpiresIff | smpp/libsmpp/smpp_esme.c:688-704 | over every orderly run a deliver_sm in the window of a connected client can time out exactly when it was written, once, longer ago than the time allowed; one never written cannot |
| EsmeWindow.StampedPduIsFreedInQueue | smpp/libsmpp/smpp_database_redis.c:640 | a PDU loaded with an old stamp is freed in the queue |
| EsmeWindow.DestroyIsSafeIff | smpp/libsmpp/smpp_esme.c:1068-1091 | destroying frees a PDU still to be sent exactly when some sending thread holds a deliver_sm |
| EsmeOutbound.FindBestReceiver | smpp/libsmpp/smpp_esme.c:535-604 | some bind is chosen exactly when one has room in queue and window; the chosen one has room and no later one with room replaces it; where the two counts never disagree it is the least busy |
| EsmeOutbound.ReplacementIsNotAnOrder | smpp/libsmpp/smpp_esme.c:584-589 | where they do, a chain of replacements can end at a bind worse in both counts than where it began |
| EsmeOutbound.Esme.AddOutbound | smpp/libsmpp/smpp_queues.c:79-94 | window entry for a PDU with a callback, counter and queue together |
| EsmeOutbound.Esme.AddDeliver | smpp/libsmpp/smpp_bearerbox.c:549-564 | an admitter's PDU gets the next number, one window entry and one queue element |
| EsmeOutbound.Esme.Consume | smpp/libsmpp/smpp_queues.c:940-948 | queue to hand, with the counter and the time of processing |
| EsmeOutbound.Esme.SendHeld | smpp/libsmpp/smpp_queues.c:950-989 | stamps a deliver_sm with the time exactly if it is written, which is if the client is connected; frees what has no callback; leaves the window as it is |
| EsmeOutbound.Esme.ProcessAck | smpp/libsmpp/smpp_queues.c:117-144 | takes a known number out of the window and runs its callback, ignores others, and notes the time |
| EsmeOutbound.Esme.ExpireAcks | smpp/libsmpp/smpp_esme.c:688-704 | exactly the PDUs stamped longer ago than the time allowed leave the window, and their callbacks run |
| EsmeOutbound.Esme.DestroyOpenAcks | smpp/libsmpp/smpp_esme.c:1068-1091 | every callback still due runs, once |
| EsmeLifecycle.DestroyedIsUnreferenced | smpp/libsmpp/smpp_esme.c:732-757 | an ESME destroyed by the pass is in no bind list, was in the cleanup queue once, and no queue element, pending route, routing callback or queue thread refers to it |
| EsmeLifecycle.DestroyedAtMostOnce | smpp/libsmpp/smpp_esme.c:152-160 | no ESME is destroyed twice, and none is connected or listed afterwards |
| EsmeLifecycle.ConnectedNeverReturns | smpp/libsmpp/smpp_listener.c:374-380 | whatever happens, a connection once gone stays gone |
| EsmeLifecycle.StepKeepsInv | smpp/libsmpp/smpp_esme.c:649-757 | every step, also those beside the pass, keeps the counters equal to the queued elements and the cleanup queue free of duplicates, listed and connected ESMEs |
| EsmeLifecycle.SplitVerdictIff | smpp/libsmpp/smpp_esme.c:663-725 | a step of the scan keeps the invariant of the runs exactly when it does not give up an ESME already kept for another bind |
| EsmeSplit.DestroyedWhileListedIff | smpp/libsmpp/smpp_esme.c:649-757 | a pass, whatever runs beside it, destroys an ESME that an account still lists exactly when it was handed over, by the scan or the listener, after the scan had kept it for a bind, and it may be destroyed when it is swept |
| EsmeLifecycle.SweepIsSafeIff | smpp/libsmpp/smpp_esme.c:735-744 | a sweep leaves nothing referring to a destroyed ESME exactly when it spares the next one, or no routing callback is about to answer for it and no queue thread has held it for over 10 seconds |
| EsmeLifecycle.RoutingCallbackCanOutliveItsEsme | smpp/libsmpp/smpp_queues.c:250-252 | an ESME that a pending route protects is destroyed if its callback has lowered the counter and not answered yet |
| EsmeLifecycle.SingleBindIsSafe | smpp/libsmpp/smpp_esme.c:444-462 | with every ESME listed once the condition always holds |
| EsmeLifecycle.SplitVerdictDestroysListedEsme | smpp/libsmpp/smpp_esme.c:682-757 | with two entries a disconnect in between leads to destruction while listed |
| EsmeLifecycle.LateCleanupIsForgotten | smpp/libsmpp/smpp_esme.c:734-756 | a connection handed over for cleanup is forgotten exactly when the queue is being replaced and no account lists it |
| EsmePass.EsmeData.ScanBinds | smpp/libsmpp/smpp_esme.c:649-728 | alone, the scan keeps the entries of connected ESMEs that are not given up, and hands over exactly those found disconnected or given up, also when an overdue acknowledgement disconnects an ESME in the middle |
| EsmePass.EsmeData.SweepQueue | smpp/libsmpp/smpp_esme.c:730-757 | exactly the queued ESMEs with no references and a quiet time over 10 seconds are destroyed; the others stay in order |
| EsmePass.EsmeData.CleanupPass | smpp/libsmpp/smpp_esme.c:632-759 | the whole pass is a run of the state machine, and the entries left are those of connected ESMEs that are neither dead nor dropped |
| EsmePass.EsmeData.GlobalAdd | smpp/libsmpp/smpp_esme.c:444-462 | a bind adds an entry even for an ESME already listed |
| EsmePass.EsmeData.Dispose | smpp/libsmpp/smpp_esme.c:152-160 | disconnected, and in the queue once |
| EsmePass.KeptAreConnected | smpp/libsmpp/smpp_esme.c:682-722 | every entry kept was there and its ESME connected; every ESME listed is kept or handed over, those not connected always |
| EsmePass.KeptIff | smpp/libsmpp/smpp_esme.c:663-722 | an entry is kept exactly if its ESME was connected, is not dead, and was not dead or dropped at an earlier entry |
| EsmePass.GivenUpIff | smpp/libsmpp/smpp_esme.c:663-722 | the ESMEs handed over are exactly those of the other entries |
| EsmePass.SweptIff | smpp/libsmpp/smpp_esme.c:735-757 | what is destroyed is exactly what is in the queue, has counters that add up to nothing and was last processed over 10 seconds ago |
| SubmitFlow.OneResponseEach | smpp/libsmpp/smpp_queues.c:206-686 | over every run a request gets at most one response, with its own sequence number, and exactly one unless it is being routed, charged or delivered; a message id is present exactly when the status is 0 |
| SubmitFlow.CreditIsConserved | smpp/libsmpp/smpp_database_mysql.c:1291-1376 | however the two statements of the deductions overlap, what is gone is, over the routing callbacks of exactly the messages that passed, parts times the cost of the route, or times the account's default cost where there was no route; each is charged for once, and an account without prepaid billing for nothing |
| SubmitFlow.RoutingReadsBalance | smpp/libsmpp/smpp_queues.c:253-330 | with prepaid billing a routed message, or an unrouted one with an SMSC, goes on only if the balance is readable and covers parts times cost, or parts times default cost; else it is refused with RSUBMITFAIL |
| SubmitFlow.RoutingWithoutCharge | smpp/libsmpp/smpp_queues.c:253-330 | a message with neither route nor SMSC is refused with the status of the route; without prepaid billing any other passes |
| SubmitFlow.UpdateTakesWhatIsDue | smpp/libsmpp/smpp_database_mysql.c:1345-1376 | the update takes exactly parts times cost, or times default cost, and the message passes; if it fails nothing is taken and the message is refused |
| CreditRace.OverdraftIsBounded | smpp/libsmpp/smpp_database_mysql.c:1310-1359 | with at most k deductions between their two statements, each of at most C, every run keeps the balance at -(k-1)*C or above |
| CreditRace.OverdraftIsReached | smpp/libsmpp/smpp_database_mysql.c:1310-1359 | some run reaches that bound, for every k and C |
| CreditRace.NeverOverdrawnIff | smpp/libsmpp/smpp_server.c:212 | the balance of no account goes below zero in any run exactly when k is 1 or C is 0 |
| SubmitFlow.Convert | smpp/libsmpp/smpp_pdu_util.c:760-880 | when a request is refused, and that a refusal never carries status 0 |
| SubmitFlow.ConversionTable | smpp/libsmpp/smpp_pdu_util.c:760-880 | the reason of each refusal in the order of the checks, and the message that is made otherwise |
| SubmitFlow.HandlingTable | smpp/libsmpp/smpp_queues.c:445-686 | the status of every immediate answer in the order of the checks, and which requests wait for a route |
| SubmitFlow.SimulationTable | smpp/libsmpp/smpp_queues.c:499-590 | a simulated report or reply comes exactly with a success, each at its own frequency, the reply with sender and receiver exchanged |
| SubmitServer.Session.ToMsg | smpp/libsmpp/smpp_pdu_util.c:760-880 | the checks in the order of the code give that conversion |
| SubmitServer.Session.HandleSubmitSm | smpp/libsmpp/smpp_queues.c:445-628 | bind type (RINVBNDSTS), throughput (RTHROTTLED), simulated failures (RMSGQFUL, RSUBMITFAIL), conversion, then routing: one response or one pending context, and what the simulation thread gets |
| SubmitServer.Session.Simulate | smpp/libsmpp/smpp_queues.c:481-590 | a success is answered once, with a report every so many requests and a reply with swapped addresses every so many others |
| SubmitFlow.SimulatedAreAnswered | smpp/libsmpp/smpp_queues.c:499-590 | over every run a simulated message is about a request that was answered with status 0 and its id |
| SubmitServer.Session.HandleDataSm | smpp/libsmpp/smpp_queues.c:629-686 | the same without simulation |
| SubmitServer.Session.DeductCredit | smpp/libsmpp/smpp_database_mysql.c:1291-1376 | deducts exactly when the balance is readable and covers the cost and the update succeeds |
| SubmitServer.Session.RoutingDone | smpp/libsmpp/smpp_queues.c:250-442 | the message passes exactly if it has a route or an SMSC and, with prepaid billing, the balance is readable and covers parts times cost, or times default cost without a route, which is then what is taken; it is stored and answered, or waits for a bearerbox; else it is refused with RSUBMITFAIL, or without route and SMSC with the status of the route |
| SubmitServer.Session.Delivered | smpp/libsmpp/smpp_queues.c:206-240 | a failure is answered with its status and drops the message id, a success with 0 and keeps it |
| Addresses.ConvertAddr | smpp/libsmpp/smpp_pdu_util.c:167-224 | refuses an international address exactly if it is long enough and not made of digits, and gives every other one its plus |
| Addresses.RefusedIff | smpp/libsmpp/smpp_pdu_util.c:174-206 | an address is refused, with RINVSRCADR, exactly if it is international, has 7 characters or more, and something other than a digit is among the 256 after an optional plus |
| Addresses.AcceptedForm | smpp/libsmpp/smpp_pdu_util.c:207-224 | what is accepted begins with a plus, in the place of "00" or in front |
| Addresses.OutboundTypes | smpp/libsmpp/smpp_pdu_util.c:361-402 | types of number and addresses of a deliver_sm by plus sign and digits |
| Addresses.SourceReturnsIff | smpp/libsmpp/smpp_pdu_util.c:361-389 | an accepted international source comes back unchanged exactly when it is digits without a leading "00" |
| Addresses.DestReturnsIff | smpp/libsmpp/smpp_pdu_util.c:391-402 | a destination exactly when it begins with neither '+' nor "00" |
| Addresses.DigitStringsReturn | smpp/libsmpp/smpp_pdu_util.c:174-217 | digit strings of 7 to 20 without "00" come back with TON international (SMPP v3.4 section 5.2.5) |
| DlrReport.SystemIdReturnsIff | smpp/libsmpp/smpp_pdu_util.c:314-328 | the URL yields its system id exactly when that has no bar |
| DlrReport.ReportsAnswerTheirMessages | smpp/libsmpp/smpp_pdu_util.c:470-631 | a report with the submit's URL yields one deliver_sm for each id, in order, with addresses swapped and, above version 3.3, that receipted_message_id; whatever status, dates and text say, the receipt in it is parsed back to that id |
| DlrReport.DeliverTells | smpp/libsmpp/smpp_pdu_util.c:560-631 | each PDU field by field: addresses, id and message_state above version 3.3, and the receipt with the status and text of the report's own receipt, its dates, the count that the mask stands for and, for a failure, an error that is not 0 |
| DlrReport.AddressesReturnSwapped | smpp/libsmpp/smpp_pdu_util.c:606-614 | addresses submitted as international digit strings come back swapped and as first written |
| DlrReport.ReportToPdus | smpp/libsmpp/smpp_pdu_util.c:330-646 | PDUs are made exactly when addresses fit, the URL is long enough and has three parts, and the receipt is parseable; each carries the receipt and, above version 3.3, its id and the message_state of the mask |
| DlrReport.SplitAt | smpp/libsmpp/smpp_pdu_util.c:470 | splitting at a separator |
| DlrReport.SplitFirst | smpp/libsmpp/smpp_pdu_util.c:470 | what comes before the first separator is the first part, and the rest is split the same way |
| DlrReport.SplitJoinedIds | smpp/libsmpp/smpp_pdu_util.c:586-589 | ids joined by ';' are split again into the same ids |
| Receipt.KeyValue | smpp/libsmpp/smpp_pdu_util.c:1097-1108 | the fallback never copies more than the buffer holds |
| ReceiptFields.AnyOrderIsParsed | smpp/libsmpp/smpp_pdu_util.c:1083-1176 | for fields in any order, some or all missing, with or without a text after them: id, sub, dlvrd, stat and err come out as written, cut to 64, 3, 3, 15 and 3, by the pattern or by the keys; what is missing comes out as the text has it, or empty |
| ReceiptFields.KeySearchFinds | smpp/libsmpp/smpp_pdu_util.c:1097-1176 | the key search alone finds the value as written, whatever text follows the fields |
| ReceiptFields.ScanFinds | smpp/libsmpp/smpp_pdu_util.c:1086-1090 | whatever the pattern stores before it stops matching is the value of that key, and not part of the text |
| ReceiptFields.DatesAreNotRecovered | smpp/libsmpp/smpp_pdu_util.c:1130-1153 | the key search never copies a date |
| ReceiptRoundTrip.PrintedReceiptIsParsed | smpp/libsmpp/smpp_pdu_util.c:627 | a printed receipt is parsed back to the same strings and numbers, its text cut at 64 octets or a NUL |
| ReceiptRoundTrip.PrintedText | smpp/libsmpp/smpp_pdu_util.c:627 | the printed receipt in one piece |
| ReceiptRoundTrip.ErrPrinted | smpp/libsmpp/smpp_pdu_util.c:627 | an error code up to 0xFFF is printed as three hexadecimal digits in lower case |
| ReceiptRoundTrip.HexIsPlaces | smpp/libsmpp/smpp_pdu_util.c:627 | a greater one as its digits without leading zeroes |
| ReceiptRoundTrip.PrintedIdIsParsed | smpp/libsmpp/smpp_pdu_util.c:627 | the id of a printed receipt is parsed back whatever its other parts are, also when the pattern does not match them |
| ReceiptRoundTrip.TextAfterFields | smpp/libsmpp/smpp_pdu_util.c:1177-1188 | after fields in any order the text comes out as written, cut at 64 octets or a NUL |
| ReceiptRoundTrip.TextInAnyCase | smpp/libsmpp/smpp_pdu_util.c:1177-1188 | also if its label is written in any mixture of cases |
| ReceiptRoundTrip.SecondPassChangesNothing | smpp/libsmpp/smpp_pdu_util.c:1073-1200 | however long text and error code were, parsing and printing a second time changes nothing |
| ReceiptRoundTrip.ErrReturnsIff | smpp/libsmpp/smpp_pdu_util.c:1194 | an error code is read back exactly when it is at most 0xFFF |
| Scanning.StrtolReads | smpp/libsmpp/smpp_pdu_util.c:1189-1194 | white space, a sign and "0x" are passed over, digits of either case are read up to the first other character, and a negative number wraps around in 32 bits |
| ReceiptParser.ParseDlrShortMessage | smpp/libsmpp/smpp_pdu_util.c:1073-1201 | the parser over its buffers computes that parse, and refuses what has neither id nor status |
| ReceiptParser.CopyKey | smpp/libsmpp/smpp_pdu_util.c:1097-1108 | overwrites the beginning of a buffer with a key's value and keeps the rest |
| ReceiptParser.ReadText | smpp/libsmpp/smpp_pdu_util.c:1177-1188 | the text after the first "text:" in either case, up to a NUL, at most 64 octets |
| Routing.Router.Search | smpp/libsmpp/smpp_route.c:182-263 | the first route in order that takes SMSC, receiver and sender; else RINVSRCADR exactly when some route took the receiver but declined the sender, else RINVDSTADR |
| Routing.Router.RouteMessage | smpp/libsmpp/smpp_route.c:158-263 | with the table unchanged since the last rebuild the outcome is the table's own; a cached account keeps its routes |
| Routing.Router.RouteAll | smpp/libsmpp/smpp_route.c:138-263 | so for any sequence of requests, with one table lookup for each account not cached |
| Routing.Router.Rebuild | smpp/libsmpp/smpp_route.c:138-156 | makes the cache agree with the table, with no outbound routes kept |
| Routing.FollowsIsUnique | smpp/libsmpp/smpp_route.c:182-263 | the outcome is determined by the table and the request |
| Routing.FollowsIff | smpp/libsmpp/smpp_route.c:182-263 | an outcome is the right one exactly if it has target and cost of the first route that carries the message, by SMSC in whatever case, receiver and sender; or, if none does, the status that says whether some route declined the sender |
| UrlCodec.DecodeEncode | smpp/libsmpp/smpp_database_util.c:107-148 | decoding undoes encoding for every octet string |
| UrlCodec.EncodedAt | smpp/libsmpp/smpp_database_util.c:107-119 | each octet becomes a percent sign and its two digits, the high one first, in upper case |
| UrlCodec.WellFormedIff | smpp/libsmpp/smpp_database_util.c:121-148 | what is decoded consists of percent signs followed by two hexadecimal digits of either case |
| UrlCodec.DecodedAt | smpp/libsmpp/smpp_database_util.c:134-142 | each three become sixteen times the first digit plus the second |
| UrlCodec.UnchangedIff | smpp/libsmpp/smpp_database_util.c:121-148 | decoding leaves a string alone exactly when it is empty or not all well-formed triples |
| UrlCodec.EncodeDecodeIff | smpp/libsmpp/smpp_database_util.c:96-148 | encoding undoes decoding of triples exactly when the digits are upper case |
| UrlCodec.FieldsSurviveIff | smpp/libsmpp/smpp_database_mysql.c:481-505 | udhdata survives add_message then get_stored exactly when it is not present and empty, msgdata exactly when it is present; octets always survive |
| UrlCodec.Encode | smpp/libsmpp/smpp_database_util.c:107-119 | the loop computes the encoding |
| UrlCodec.Decode | smpp/libsmpp/smpp_database_util.c:121-148 | the loop computes the decoding, giving its input back as soon as something is not a triple |

## Left out

- Sockets, libevent, HTTP, plugins, configuration, logging, IP block list, status pages, schema migration and both shutdown paths: input and output, or incidental.
- Kannel's own code (`sms_split`, regular expressions, charsets, PDU packing, JSON, SQL text) is not part of this model; parts counts, matches and stored payloads are parameters or opaque values. octstr_get_many_chars is taken to copy nothing for a length of 0 or less, and octstr_split to yield one part more than there are separators.
- Calendar time: dates are digit strings, and the conversion from and to time stamps is not modelled.
- Priorities of the shared queues: a queue is a multiset or a set, and any element may be taken next.
- BearerboxServer.BearerboxState.AddToQueue: searches for an online bearerbox and queues without a step of another thread in between; in the state machine the answer is free, so that the safety results also cover one that is stale. The boxes are values in a sequence, so aliasing between box objects is not modelled.
- BearerboxServer.BearerboxState.RequeueStored: is the MT half of a round of the requeue thread; the MO half hands each stored MO to the router and is left out.
- BearerboxSafety.NoAcceptedMessageIsLost: an outside client that picks up rows of store-primary accounts, and fetches that overlap, are left out of its runs; SqlOverlap has the latter.
- A temporary failure on a requeue leaves the row claimed for the rest of the run, as in the code; it is still a fallback row after a restart, which is not modelled.
- SqlStore.SqlDatabase.GetStored: takes the rows that the database selects as given, ignores the limit argument as the code does, and compares services exactly, not by a collation.
- RedisStore.NothingIsLostOrCopied: is about one store prefix; two prefixes share the claim dictionary, and their numbers may collide.
- RedisStore.MergedPollFindsEveryEntry: takes each store's runs by themselves and leaves out the PDU and report indexes that the same poll merges; those are in RedisIndex.
- An admitter that still holds an ESME it has picked when that ESME is destroyed, and an ESME referred to by a submit that waits for a bearerbox, are not ruled out by the code: both models let nothing be added to a destroyed ESME, and pending bearerbox contexts are not counted as references.
- EsmeWindow.CallbacksRunOnce: what the callbacks do besides freeing the PDU (acks to the bearerbox, database removals, counters) is left out.
- EsmePass.EsmeData.CleanupPass: has nothing else running between its steps; the steps beside it are in EsmeLifecycle. Account lists are one list of entries.
- SubmitFlow.CreditIsConserved: the account's settings do not change during a run, and nobody tops the balance up.
- SubmitServer.Session.HandleSubmitSm: a simulated message is what it is made of, not its octets, and the thread that sends it later is left out.
- One bearerbox acknowledgement for each MO or report, and the survival of SQL PDU rows without a receiver, are not promised by the code and not modelled.
- ReceiptParser.ParseDlrShortMessage: matches the pattern by calling the function that specifies sscanf.
- The effective store of an account, `smpp_esme_effective_database_store_primary`, is a two-way choice and would add an easy member.
