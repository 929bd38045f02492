# Verified model of the chat system

Eight parts of the chat system, modelled in Dafny and proved against what their design promises.

- **Room queries** (`SqlAst`, `SqlSemantics`, `RoomSchema`, `RoomLinks`, `RoomScope`, `RoomExact`, `RoomQuery`,
  `RoomGuarantee`, `RoomOuterJoins`). The agent may run a SELECT written by a language model if
  `validate_room_select` accepts its syntax tree. The model has the tree with positions as node identity, SQL's
  three-valued conditions, inner, left and right joins as nested loops over rows, and the validator with its
  searches and its climbs towards the root. The result is semantic: an accepted query with inner and cross
  joins, or with outer joins whose users links bind, yields the same surviving row tuples, in the same order,
  from the whole database and from the database cut down to one room, so every projection, grouping, ordering
  and limit of it agrees too. The links of a users table fail to bind only if each stands in the ON of a LEFT
  JOIN of another users table that may itself stay unmatched; the validator accepts such statements, and the
  property can then fail. Collations, text-to-number conversion and the value of every operator but `=`, AND, OR,
  NOT and parentheses are parameters.
- **Upload hashing** (`Fips180`, `JsWords`, `Uploader`). The browser's streaming SHA-256 on its typed arrays,
  proved equal to sections 4.1.2, 4.2.2, 5.1.1, 5.2.1, 5.3.3 and 6.2.2 of FIPS 180-4 for every message shorter
  than 2^53 bytes and every way of cutting it into `update` calls.
- **WebSocket hub** (`HubSharding`, `HubLocks`, `HubSafety`, `HubBreaks`, `Hub`, `HubFanout`, `HubOrder`). The
  hub three times over: as a class whose calls run whole; as threads that take one lock at a time, for agreement
  of the two indexes and freedom from deadlock; and as a dispatch loop over a whole run, for delivery order.
- **Agent inbox** (`AgentConsumer`, `AgentPipeline`, `AgentVerdicts`, `AgentStore`). Kafka redelivery into a
  table with a unique index, and any number of workers moving rows to a verdict; each database transaction is
  one atomic step.
- **Archiver** (`ArchiverIds`, `Archiver`), **history** (`History`), **login limiter** (`LoginLimiter`) and
  **online lease** (`OnlineLease`).
- `Options` and `Sequences` hold the shared option type and the flattening of batches.

Clocks, the LLM's decisions, map iteration orders, lock scheduling, crashes and the records a broker delivers
are parameters or free choices of the model, so each result covers all of them.

Where a promise does not hold of the code as it stands, the model keeps the code and states the exact condition:

- The validator accepts a users link that stands only in the ON of a LEFT JOIN of another users table, where it
  need not hold of any row, and the statement then reads users outside the room.
  `RoomOuterJoins.OuterLinkMayNotBind` gives such a statement and a database; `RoomLinks.LooseLinks` says which
  links these are, and `RoomGuarantee.AcceptedExact` that for conditions made of scope and link terms they are
  exactly the failures.
- Registering an active client forgets its rooms without leaving them, and adding a client to a room while a
  `DisbandRoom` of it still has to erase the room from that client leaves the indexes apart.
  `HubSafety.StepKeeps` and `HubSafety.StepBreaks` show that these two steps, and no others, break the
  invariant; `HubBreaks.Disagreement` follows each of them to a state in which the client's lock is free and the
  indexes disagree.
- Between the two phases of `DisbandRoom` a client still lists a room that no longer lists it.
  `HubSafety.RunAgrees` states the agreement with exactly that exception.
- With the configured `auto_offset_reset` of `latest` (services/agent/runtime/app/settings.py:60), records older
  than the first session of the group are passed over. `AgentConsumer.ExactlyOnce` says when nothing is missed,
  and `AgentConsumer.LatestPassesOver` gives a run in which something is.
- The saved archive offset skips messages exactly when a flush job submitted earlier has not stored its batch
  (`Archiver.ResumeExact`).
- The login limiter reads its clock before it takes its lock (services/auth/security/login_protector.go:68-70),
  so the times it counts may go back, and a collection that an earlier call made can then be seen.
  `LoginLimiter.CollectExact` and `LoginLimiter.CollectionExact` say exactly when,
  `LoginLimiter.BackwardClockShows` gives a run for every configuration, and the sliding bound depends on how
  far times go back. All orders of calls here are lock orders.
- Message ids increase exactly as long as the clock never goes back behind the last id's millisecond
  (`ArchiverIds.IdsIncrease`).

## Model

| member | source | states |
|---|---|---|
| RoomQuery.IsUnconditionalWhereTerm | services/agent/runtime/app/storage/room_query.py:177-183 | the climb accepts an equality if and only if the WHERE lies above it with nothing but AND and parentheses between |
| RoomQuery.IsUnconditionalConditionTerm | services/agent/runtime/app/storage/room_query.py:148-157 | the climb accepts an equality if and only if some WHERE or JOIN of this very SELECT holds it under nothing but AND and parentheses |
| SqlSemantics.ConjunctForced | services/agent/runtime/app/storage/room_query.py:148-157 | under three-valued logic a condition that is TRUE makes every term reached through AND and parentheses TRUE, on every row and for every value of the other operators |
| RoomQuery.WhereRoomScopeEquality | services/agent/runtime/app/storage/room_query.py:186-199 | returns the first position, in search order, of an unconditional scope equality of the WHERE, or nothing if there is none |
| RoomQuery.HasEquality | services/agent/runtime/app/storage/room_query.py:160-174 | true exactly when some unconditional equality of this SELECT links the two columns, in either order |
| RoomQuery.FillAliases | services/agent/runtime/app/storage/room_query.py:231-239 | succeeds exactly when every table is known and all aliases differ, and then the dictionary maps each alias to its table and holds nothing else |
| RoomQuery.CheckNesting | services/agent/runtime/app/storage/room_query.py:219-220 | true exactly when the tree has no SELECT besides its root and no subquery |
| RoomQuery.CheckIntoLock | services/agent/runtime/app/storage/room_query.py:221-225 | true exactly when the tree has no INTO and no locking read |
| RoomQuery.CheckStars | services/agent/runtime/app/storage/room_query.py:241-243 | true exactly when every star stands inside COUNT |
| RoomQuery.CheckColumns | services/agent/runtime/app/storage/room_query.py:245-257 | succeeds exactly when every column but the room marker is qualified by a known alias and exposed by that alias's table, and returns all the markers |
| RoomQuery.CheckFunctions | services/agent/runtime/app/storage/room_query.py:259-270 | true exactly when every function rendered as a call is on the allow list |
| RoomQuery.CheckScopes | services/agent/runtime/app/storage/room_query.py:272-291 | true exactly when each alias of a table with a scope column has its scope equality, and then returns exactly the equalities taken |
| RoomQuery.CheckUsers | services/agent/runtime/app/storage/room_query.py:293-300 | true exactly when each users alias is linked to some room_members alias |
| RoomQuery.CheckMarkers | services/agent/runtime/app/storage/room_query.py:302-306 | true exactly when every marker's nearest equality is one of those taken |
| RoomQuery.CheckLimit | services/agent/runtime/app/storage/room_query.py:308-316 | succeeds exactly when LIMIT is absent or an integer literal within the maximum |
| RoomQuery.ValidateRoomSelect | services/agent/runtime/app/storage/room_query.py:215-319 | accepts exactly when all twelve conditions hold; otherwise the error names the first condition that fails; an accepted statement comes back with a limit |
| RoomGuarantee.LimitKeepsQuery | services/agent/runtime/app/storage/room_query.py:308-310 | the LIMIT added to a statement leaves its tables, joins and condition as they were |
| RoomGuarantee.AcceptedScoped | services/agent/runtime/app/storage/room_query.py:272-291 | in an accepted statement every scoped alias carries its scope term as a conjunct of the WHERE |
| RoomGuarantee.AcceptedLinks | services/agent/runtime/app/storage/room_query.py:293-300 | with inner and cross joins every users alias of an accepted statement has its link in the WHERE or in the ON of a join that drops unmatched tuples |
| RoomScope.RoomIsolation | services/agent/runtime/app/storage/room_query.py:116-133 | a query whose scope and link terms are in place has the same surviving tuples on every database and on its restriction to any room |
| RoomGuarantee.AcceptedQueryIsRoomLocal | services/agent/runtime/app/storage/room_query.py:202-319 | scope non-interference: an accepted statement with inner and cross joins has the same surviving tuples, in the same order, on the whole database and on the room's own |
| RoomGuarantee.AcceptedOuterQueryIsRoomLocal | services/agent/runtime/app/storage/room_query.py:202-319 | the same for any joins, as long as the links bind |
| RoomLinks.LooseLinks | services/agent/runtime/app/storage/room_query.py:160-174 | the links bind unless some users alias is linked only loosely: each of its links stands in the ON of a LEFT JOIN of another users alias which nothing forces to match |
| RoomExact.LinksExact | services/agent/runtime/app/storage/room_query.py:116-174 | a scoped query made of scope and link terms is the same on every database and its restriction to any room if and only if its links bind |
| RoomGuarantee.AcceptedExact | services/agent/runtime/app/storage/room_query.py:202-319 | an accepted statement made of scope and link terms is room-local on every database if and only if its links bind |
| RoomGuarantee.AcceptedScopedRows | services/agent/runtime/app/storage/room_query.py:186-199 | whatever the joins, in every surviving tuple of an accepted statement each scoped alias holds a row of the room |
| RoomOuterJoins.OuterLinkMayNotBind | services/agent/runtime/app/storage/room_query.py:293-300 | a concrete SELECT that the validator accepts for every row limit, and a database: its links do not bind, and the database and its restriction to the room give it different tuples under every collation |
| JsWords.RotrLowBits | frontend/src/services/uploader.js:33 | bit i of the shift-and-or is bit i+n of the word, for the bits that do not wrap |
| JsWords.RotrHighBits | frontend/src/services/uploader.js:33 | and bit i+n-32 for those that do: `rotr` is 32-bit rotation |
| JsWords.LoadIsWord | frontend/src/services/uploader.js:50-53 | the four shifted and ORed bytes are the number b0·2^24 + b1·2^16 + b2·2^8 + b3, the big-endian word of FIPS 180-4 section 5.2.1 |
| JsWords.SmallSigmas | frontend/src/services/uploader.js:57-58 | the schedule's two mixing functions are those of section 4.1.2 |
| JsWords.BigSigmas | frontend/src/services/uploader.js:66-69 | the round's two mixing functions are those of section 4.1.2 |
| JsWords.ExactSum5 | frontend/src/services/uploader.js:68 | the sum as an exact number, reduced by `>>> 0`, is addition modulo 2^32 |
| Uploader.SameConstants | frontend/src/services/uploader.js:22-31 | the table K is that of section 4.2.2 |
| Uploader.RoundParts | frontend/src/services/uploader.js:65-73 | one turn of the eight-variable loop is one round of section 6.2.2 |
| Uploader.SHA256.Schedule | frontend/src/services/uploader.js:48-60 | the in-place loops leave the recursive message schedule of section 6.2.2 in w |
| Uploader.SHA256.Compression | frontend/src/services/uploader.js:62-73 | after the loop the eight variables are the state after sixty-four rounds |
| Uploader.SHA256.Process | frontend/src/services/uploader.js:48-79 | the chaining value becomes the standard's compression of the block |
| Uploader.SHA256.Update | frontend/src/services/uploader.js:81-105 | the bytes fed so far grow by exactly the data, on the buffered and on the direct block path; a finished hasher refuses |
| Uploader.PaddingSplit | frontend/src/services/uploader.js:114-120 | both branches write the number of zeros of section 5.1.1 |
| Uploader.LengthField | frontend/src/services/uploader.js:111-125 | bitsHi·2^32 + bitsLo is eight times the byte count, and the eight bytes written are its big-endian form, for counts below 2^53 |
| Uploader.PaddedHex | frontend/src/services/uploader.js:128-130 | `toString(16).padStart(k, '0')` is the k-digit hexadecimal form |
| Uploader.SHA256.DigestHex | frontend/src/services/uploader.js:107-131 | the result is the SHA-256 digest in hexadecimal of all bytes fed, however they were cut; a second call is refused |
| Uploader.HashFile | frontend/src/services/uploader.js:134-152 | for every file below 2^53 bytes and every chunk size the worker posts the file's SHA-256 |
| HubSharding.ShardOf | services/gateway/websocket/hub.go:124-130 | the shard index is in range for every int64 id, negative ones included |
| HubSafety.LocksKept | services/gateway/websocket/hub.go:165-327 | every step of every thread keeps the lock table exact: each lock has at most one writer, and none while it is read |
| HubSafety.LockOrder | services/gateway/websocket/hub.go:165-327 | a thread that waits while holding a lock holds a client lock and waits for a shard lock; none holds two shard locks |
| HubSafety.NoLongWait | services/gateway/websocket/hub.go:165-327 | chains of waiting threads have at most two links, so there is no cycle |
| HubSafety.RunMoves | services/gateway/websocket/hub.go:165-327 | in every reachable state, disciplined or not, a call under way, or one it waits for, can take its next step |
| HubSafety.PlacedKept | services/gateway/websocket/hub.go:377-397 | every step keeps users and rooms in their own hash shard and stores no empty room set |
| HubSafety.ActRooms | services/gateway/websocket/hub.go:377-397 | an action inside a shard keeps a room's agreement exactly when it does not add a client that a disband still owes |
| HubSafety.EraseRooms | services/gateway/websocket/hub.go:321-325 | the second phase of a disband restores the agreement for its client |
| HubSafety.StepKeeps | services/gateway/websocket/hub.go:165-327 | every disciplined step of any interleaving keeps lock table, placement, room agreement modulo unfinished work, and the users index |
| HubSafety.StepBreaks | services/gateway/websocket/hub.go:175-180 | every undisciplined step breaks the invariant: the condition is exact |
| HubBreaks.Disagreement | services/gateway/websocket/hub.go:165-327 | from every undisciplined step a run leads to a state in which the client's lock is free and the indexes disagree about it, unless a disband just taking its snapshot of the dropped room stands in a Register's way |
| HubSafety.RunAgrees | services/gateway/websocket/hub.go:165-327 | in every state of every run of disciplined steps, for every client whose lock is free: it is in a room's set if and only if it is active, lists the room and no disband still owes it that room; the users index names only active clients of that user; no room set is empty |
| Hub.Client.TrySend | services/gateway/websocket/client.go:134-146 | never waits: appends exactly when the channel is open and has room, and says so |
| Hub.Hub.AddClientToRoom | services/gateway/websocket/hub.go:377-385 | exactly this room gains exactly this client |
| Hub.Hub.RemoveClientFromRoom | services/gateway/websocket/hub.go:387-397 | exactly this room loses exactly this client, and an emptied entry goes |
| Hub.Hub.Register | services/gateway/websocket/hub.go:165-193 | the new membership of every room and user, and the indexes agree afterwards if and only if an active client's old rooms are among the new ones |
| Hub.Hub.Unregister | services/gateway/websocket/hub.go:196-227 | the client leaves every room, its user entry goes only if it is its own, its channel is closed; an inactive client changes nothing |
| Hub.Hub.UpdateRooms | services/gateway/websocket/hub.go:230-260 | an active client is afterwards in exactly the given rooms, and nobody else moved |
| Hub.Hub.JoinRoom | services/gateway/websocket/hub.go:263-285 | the user's current client, if any, joins this room in both indexes |
| Hub.Hub.LeaveRoom | services/gateway/websocket/hub.go:288-307 | and leaves it in both |
| Hub.Hub.DisbandRoom | services/gateway/websocket/hub.go:310-327 | the room is empty and no active client lists it; all other rooms are as before |
| Hub.Hub.StatsOf | services/gateway/websocket/hub.go:456-465 | the counts are the number of users with a current connection and of rooms some active client lists, each once |
| HubFanout.Batches | services/gateway/websocket/hub.go:543-552 | the slices are contiguous and cover the snapshot, each has between one and batch-size clients, and from two clients on there are exactly max(2, ceil(n/b)) of them |
| HubFanout.BalancedCount | services/gateway/websocket/hub.go:543-550 | the rounded-up division yields exactly the planned number of slices |
| HubFanout.SendInTurn | services/gateway/websocket/hub.go:525-537 | the small-room loop offers the payload once to each client and counts the takers and the refusers |
| HubFanout.RunTasks | services/gateway/websocket/hub.go:549-570 | with any unfinished batch free to move next, the outcome for queues and counts is the same as the loop's |
| HubFanout.Dispatch | services/gateway/websocket/hub.go:506-572 | on either path every member of the room is offered the payload exactly once, delivered and dropped counts are those of the members' queues, and the indexes are untouched |
| HubFanout.RequestEvict | services/gateway/websocket/hub.go:574-579 | never waits: the request joins the client's own shard's queue within its capacity, or is swallowed |
| HubOrder.RoomOrder | services/gateway/websocket/hub.go:146-162 | over every run, with draining, closing, other shards' traffic and tasks interleaved, each client receives a room's messages in forward order, none twice, none invented, and never beyond its capacity |
| HubOrder.ServedInTime | services/gateway/websocket/hub.go:541-571 | every client in a message's snapshot is offered it before the next message is taken, and gets it exactly when its channel is open and has room |
| AgentConsumer.Inbox.Consume | services/agent/runtime/app/workers/consumer.py:54-84 | a delivered stretch leaves one row for each eligible record that had none and commits past its end |
| AgentConsumer.AgainAddsNothing | services/agent/runtime/app/workers/consumer.py:80-84 | delivering a stretch again adds no row |
| AgentConsumer.StepKeeps | services/agent/runtime/app/workers/consumer.py:54-84 | producing, opening, skipping, inserting, committing and crashing all keep rows unique, true to the log, and complete from each session's base |
| AgentConsumer.ExactlyOnce | services/agent/runtime/app/storage/models.py:87-95 | over every run no offset has two rows, each row holds its own record, and everything below the committed offset is handled if and only if that is so below the group's first position; with `earliest` it always is |
| AgentConsumer.LatestPassesOver | services/agent/runtime/app/settings.py:60 | a concrete run under `latest` in which a committed-past record was never handled |
| AgentStore.Store.ClaimRoom | services/agent/runtime/app/workers/pipeline.py:133-159 | the claimed rows become ignored or processing by their sender, and the user messages come back in order |
| AgentStore.Store.SaveModeration | services/agent/runtime/app/workers/pipeline.py:199-241 | either every message gets record, status and any removal request, or, if one already had a record, nothing changes |
| AgentStore.Store.MarkChunked | services/agent/runtime/app/workers/pipeline.py:352-358 | exactly the given rows become chunked |
| AgentVerdicts.JudgeOneKeeps | services/agent/runtime/app/workers/pipeline.py:202-238 | one judgement keeps all table invariants, settles only an unsettled row, and adds a removal request exactly for a rejection that asks for one |
| AgentVerdicts.StepKeeps | services/agent/runtime/app/workers/pipeline.py:48-358 | every transaction of any worker, stale requeues and crashes included, keeps the invariants and never takes a verdict back |
| AgentVerdicts.OneVerdict | services/agent/runtime/app/storage/models.py:111-113 | over every run a row has at most one record, has one exactly when it is approved, rejected, needs review or chunked, and its status is the record's verdict or chunked over approved |
| AgentVerdicts.OneRemoval | services/agent/runtime/app/workers/pipeline.py:230-238 | over every run a row has at most one removal request, only if it is rejected, and against its own sender |
| AgentVerdicts.VerdictFinal | services/agent/runtime/app/workers/pipeline.py:48-59 | a record once made stays as it is, and its row keeps that verdict or goes on from approved to chunked |
| ArchiverIds.PackValue | services/messages/archiver/worker-kafka.go:49 | shift and OR make ms·1024 + sequence modulo 2^64, and that number itself within 2^53 ms of the epoch |
| ArchiverIds.Generator.NextID | services/messages/archiver/worker-kafka.go:32-50 | the call leaves the next stamp: the next sequence number, a new millisecond after a full one, or a fresh sequence |
| ArchiverIds.IdsIncrease | services/messages/archiver/worker-kafka.go:32-50 | over any series of calls the ids increase strictly if and only if no call first reads a time before the last stamp |
| ArchiverIds.IdDecodes | services/messages/archiver/worker-kafka.go:24-49 | every id fits an int64, is positive after the epoch, and gives back its millisecond and sequence |
| Archiver.Start | services/messages/archiver/worker-kafka.go:152-240 | for every pattern of ticks, read errors and unreadable records the batches concatenate to the decoded stream in offset order, each of 1 to 1000 messages and carrying its last offset |
| Archiver.ResumeExact | services/messages/archiver/worker-kafka.go:157-190 | nothing up to the saved offset is missing from the store if and only if every flush job submitted before the one that saved it has stored its batch, whether or not it saved its own offset |
| Archiver.NeverSkips | services/messages/archiver/worker-kafka.go:60-72 | over any number of restarts at `saved + 1`, if jobs store without gaps, every readable message up to the saved offset has been stored |
| History.ReverseInPlace | services/messages/api/mysql_repository.go:56-58 | the two-index loop leaves the reversed slice |
| History.GetHistoryByCursor | services/messages/api/mysql_repository.go:35-62 | the newest `limit` live messages of the room below the cursor, oldest first, for each of the three cursor branches |
| History.GetChatHistory | services/messages/api/history_handler.go:92-120 | the page, the id of its oldest message as next cursor, and whether it was full |
| History.OlderShrinks | services/messages/api/mysql_repository.go:39-47 | below a message of the history lies exactly what comes before it in (created_at, id) order |
| History.WalkReadsAll | services/messages/api/history_handler.go:103-106 | following next_cursor ends, and what was read, oldest first, is everything below the first cursor |
| History.HistoryComplete | services/messages/api/history_handler.go:103-106 | from the first page, for every limit parameter, the walk reads every live message of the room and nothing else, in strictly ascending order |
| LoginLimiter.LoginProtector.Allow | services/auth/security/login_protector.go:67-91 | the new maps, the next collection time and the answer are those of the step function |
| LoginLimiter.LoginProtector.CleanOne | services/auth/security/login_protector.go:118-129 | exactly the entries whose window is over are deleted |
| LoginLimiter.CollectExact | services/auth/security/login_protector.go:118-129 | a collection at one time cannot be seen at another, by any key, if and only if every entry stale at the first is still stale at the second |
| LoginLimiter.CollectionExact | services/auth/security/login_protector.go:71-74 | over every run, with times going anyhow, the limiter and one that never collects count every key alike at every call if and only if all that was collected is stale at every call; they then answer alike |
| LoginLimiter.CollectionInvisible | services/auth/security/login_protector.go:71-74 | every series in which no call's time is before a collection made by an earlier call gets the answers of a limiter that never collects |
| LoginLimiter.SteadyClock | services/auth/security/login_protector.go:68-74 | a clock that never goes back gives only such series |
| LoginLimiter.BackwardClockShows | services/auth/security/login_protector.go:68-74 | for every configuration a series whose times go back by one nanosecond, in which the collecting limiter answers otherwise |
| LoginLimiter.SlidingBound | services/auth/security/login_protector.go:77-89 | with times that go back by at most d < W, in every interval of one window W at most limit · (1 + ⌊(2W + d - 2) / (W - d)⌋) calls pass, for each address and for each address and normalised name |
| LoginLimiter.SteadyBound | services/auth/security/login_protector.go:77-89 | with times that never go back, at most twice the limit |
| LoginLimiter.RefusedOnlyWhenFull | services/auth/security/login_protector.go:131-137 | with times that go back by at most d, a call is turned away only when a whole limit has passed for its key less than W + d before it, or up to d after it |
| OnlineLease.OwnerInjective | cache/redisconfig.go:76-78 | two connections never write the same value |
| OnlineLease.ConnIDPlain | services/gateway/handlers/ws_handler.go:88 | a connection id holds no colon, which is what the injectivity needs |
| OnlineLease.Store.SetUserConnectionOnline | cache/redisconfig.go:46-49 | this user's key names the connection for one TTL; other keys are untouched |
| OnlineLease.Store.RenewUserConnectionOnline | cache/redisconfig.go:71-74 | the deadline moves exactly when the live value is this connection's |
| OnlineLease.Store.SetUserConnectionOffline | cache/redisconfig.go:58-61 | the key goes exactly when the live value is this connection's |
| OnlineLease.HolderExact | cache/redisconfig.go:24-36 | after any run the key names the last connection that set it if that connection was heard from within one TTL at every moment since and has not gone offline, and is absent otherwise |
| OnlineLease.KeyExact | cache/redisconfig.go:24-36 | at any time a user is online under a name if and only if that names a connection that set the key last and has kept its lease |
| OnlineLease.OthersChangeNothing | cache/redisconfig.go:24-36 | a renewal or deletion by any other connection changes neither value nor deadline |
| OnlineLease.HeartbeatKeeps | services/gateway/websocket/client.go:311-322 | a connection that renews at most 27 s apart keeps the key its own until it leaves or is superseded |

## Left out

- RoomGuarantee.AcceptedOuterQueryIsRoomLocal: one way when a WHERE or ON holds other terms as well, which may
  or may not be TRUE on the tuples a loose link lets through; for scope and link terms alone
  RoomGuarantee.AcceptedExact has both ways.
- RoomGuarantee.AcceptedQueryIsRoomLocal: assumes MySQL's own rule that an ON condition names only aliases
  already joined. Nested joins (a join under a table), index hints and a FILTER (WHERE ...) inside an expression
  are left out of the room guarantees, though not of the validator; joins are taken from left to right, also
  where a comma, which MySQL binds less tightly, stands beside explicit joins.
- RoomQuery.ValidateRoomSelect: starts from the parsed tree. The checks on the text (empty, too long, comments,
  syntax), sqlglot's parsing and rendering, and the final substitution of the marker are not modelled; whether a
  function renders as a call is a flag of its node. Of a tree only this is asked: two kids to `=` and a kid to
  LIMIT.
- USING and NATURAL joins, and case folding beyond ASCII, in room queries.
- Hub.Client.TrySend: a client without a Send channel is not modelled; the gateway always makes one.
- HubBreaks.Disagreement: does not follow a Register into whose way a disband's snapshot of the dropped room
  comes; the snapshot may then owe the client that very room, which repairs the step.
- HubSafety.RunMoves: says that some call can go on, not that each one eventually does; a writer waiting on a
  read-write lock does not hold back new readers in the model.
- HubOrder.RoomOrder: a room's snapshot is any list of clients without repetition.
- HubFanout.Dispatch: which refusing clients a full eviction queue swallows depends on the interleaving and is
  left open.
- Metrics, usernames, connection snapshots, and the pumps' socket I/O.
- AgentConsumer.ExactlyOnce: one topic partition; the unique index separates partitions. Decoding a record is a
  free message or a crash.
- AgentVerdicts.StepKeeps: transactions are atomic and serialised by the row locks and the unique index;
  replies, chunk records and vectors written between them are not modelled, and which rows count as stale is
  free.
- Archiver.NeverSkips: assumes flush jobs that store without gaps. A batch that fails, for instance because an
  earlier life had already stored one of its messages, is a gap in the sense of Archiver.ResumeExact.
- The Redis list of latest messages, which serves a first page when it is full: it is filled on top of what it
  holds, so agreement with the store is not an invariant. The walk starts from the store.
- History.WalkReadsAll: the cursor it starts from is absent or names a live message. For another cursor the
  store falls back to comparing ids, and the page is as History.GetHistoryByCursor says.
- LoginLimiter.SlidingBound: an upper bound, not claimed to be reached when times go back. User names are
  trimmed and lowered as ASCII; saturation of time differences beyond 292 years is not modelled.
- The bcrypt slots of `Compare`, JWT handling, room and user administration, storage providers, Prometheus code
  and the Vue frontend besides the hash worker.
