# A model of the transactional key/value server

This project models the server side of a multi-client key/value store and proves
what its layers are for.

* **Tables and server** (`Tables`, `Servers`): a table is committed data under an
  overlay of pending changes, with a mutex that is an optional owner; the server maps
  names to tables and clients to lock sets. The classes are imperative, each method
  ends in a state named by a function on values, and the theorems are about those
  functions.
* **Transactions** (`Transactions`, `Replies`, `Names`, `Locking`, `SerialRuns`,
  `Settling`, `OpenTransactions`, `PendingChanges`, `Serializability`, `Endings`,
  `Progress`, `Programs`, `Applications`): any number of clients take interleaved steps over the server state. A
  server method under the guard is one step; commit and rollback hold the guard and go
  table by table, so clients that need no guard step in between. Each session records, for
  its transaction, the requests on the stack and the tables with their replies, the values
  its GETs fetched and the stacks it began and ends with. The log records what was made
  permanent, in order, and the serial database is what the log makes of the database: all
  the SETs of a transaction count from its commit on. These are history that no step reads.
  The settled database is the one there is: committed data, except that tables a commit
  loop has still to publish count with their pending changes.
* **Stack machine** (`Handlers`, `ValueStacks`, `StackLaws`, `Accounting`, `Histories`,
  `Compiler`, `Connections`): the value stack, the request handlers, what a session's
  replies say of its stack, and programs of assignments compiled to postfix requests.
  A handler that may block is cut where it does, one method a piece.
* **Wire** (`Messages`, `Serialization`, `Lines`, `Rio`, `Framing`): messages, their
  printer and tokenizing parser, the lines of the protocol spelled out, the buffered reader over a descriptor that delivers short counts,
  is interrupted or fails, and the session on top: a LOGIN, then the request loop. A
  `char` stands for a byte.
* **Numbers** (`Numerals`, `Sio`): the in-place base-b printer, and the decimal
  conversions the arithmetic handler uses.
* `EndToEnd` carries a program of assignments through compiler, printer, reader and
  stack machine; `StaleReplies`, `Fallbacks`, `EarlyCommits` and `Departures` hold the
  concrete runs, built from the steps of `Witnesses`, in which shortcuts of the handlers
  break what is promised.

## Where the handlers leave the stated discipline

`table.h:37-38` asks that a table be read or changed only with its lock held, and
`exceptions.h:45-48` that a transaction fail when a lock cannot be had at once;
`README.txt:20-23` rests the absence of deadlock on the same trylock design. The steps
of `Transactions` other than `BareGet` and `FallBack` follow that discipline. The handlers
do not in these places:

* A GET inside a transaction takes no lock (`client_connection.cpp:249-252`). It is the
  step `BareGet`. `StaleReplies.LockFreeGetReadsDirty` and `LockFreeGetGoesStale` are runs
  in which it makes the log unserializable, and `Serializability.SerialExactly` says, for
  every run, exactly when it does; without fallbacks that is when a commit no longer finds
  in the committed data what its transaction's lock-free GETs found
  (`Serializability.SerialWithoutFallbacks`).
* A SET falls back to a blocking `Table::lock` when the trylock fails
  (`client_connection.cpp:219-221`). It is the step `FallBack`. A client that sets the
  same table twice in one transaction waits for itself for ever, and two transactions
  that set each other's tables wait for one another (`Fallbacks.SecondSetDeadlocks`,
  `CrossedSetsDeadlock`). `Progress.DrainsExactly` says exactly which states are lost,
  and `Fallbacks.FallbackDeadlocks` exactly when a fallback leads to one.
* A SET that fell back and got its lock commits its value and unlocks at once
  (`client_connection.cpp:228-231`), ahead of its transaction. A rollback does not undo it
  (`EarlyCommits.FallbackEscapesRollback`). A commit may still be serializable
  (`EarlyCommits.EarlyCommitIsSerializable`), or come after somebody else has set the cell
  again, and then it is not (`EarlyCommits.OverwrittenIsNotSerializable`);
  `Serializability.CommitAfterFallbacks` says exactly when it is, and
  `Serializability.SettledExactly` the same of every run.
* `ClientConnection::in_transaction` is never set (`client_connection.h:18`), so a SET
  commits and unlocks at once and may unlock a second time
  (`client_connection.cpp:228-243`), and no exception rolls anything back
  (`client_connection.cpp:371-373, 383-389`). The model's only flag is the server's.
* A SET outside a transaction goes through `lock_table` as well, which puts the name into
  the client's `transaction_locks` (`server.cpp:175-177`), where it stays after the table is
  unlocked. A later GET of the table by the client that fails outside a transaction then
  unlocks it twice, the second time through `unlock_table` (`client_connection.cpp:260-268`),
  when the mutex may be another client's.
  The model takes the lock of a request outside a transaction by `Table::lock` alone.
* A session that is closed inside a transaction rolls nothing back: not after BYE
  (`client_connection.cpp:363-366`), not after an ERROR, where the descriptor is already
  gone when the next read fails and so a rollback would name no client
  (`client_connection.cpp:141-143, 391-397`), and not after an exception that only
  `std::exception` catches (`client_connection.cpp:53-57`). Its tables stay locked for ever
  and whoever needs one waits for ever: `Departures.GoneBlocks`, and the run of
  `Departures.ByeLeavesTableLocked`. A rollback is a step of sessions that are open only,
  and `Progress.DrainsExactly` counts these clients in.

Whether a table exists is asked without a lock (`server.cpp:113-121`), so a transaction
that keeps to the discipline can be told that a table is missing and commit after
another client has created it (`StaleReplies.MissingTableIsCreated`). Such replies are
part of the record; the serializability theorems say exactly when they hold, and what
holds without them. A CREATE takes effect at once, also inside a transaction, and a
rollback does not undo it (`client_connection.cpp:180-188`, `server.cpp:100-110`): in the
log it is an entry of its own.

Further, `rollback_transaction` asks `is_transaction_active` while holding the
non-recursive guard (`server.cpp:151-152`); the check is modelled as a plain lookup.
`encode` and `decode` allow 1024 bytes but `read_message` passes a 1024-byte buffer to a
reader that keeps one byte for the terminator, so a message of exactly 1024 bytes is
encoded and never received: `Framing.LongestPushIsLost` is one, and
`Framing.ReceivedExactly` has the exact condition.

## Model

| member | source | states |
|---|---|---|
| `Serializability.Serializable` | server.cpp:123-180 | after every run of any clients whose table accesses are covered by their locks, replaying the logged transactions one at a time in commit order gives each the values it read, the replies it got and the stack it ended with, and leaves exactly the committed data of all tables whenever no commit is inside its loop; replies that a table is missing are part of that exactly when none of the tables was created before the commit |
| `Serializability.SerialExactly` | client_connection.cpp:218-275 | the same for every run at all, with lock-free GETs and fallbacks anywhere, as an equivalence: the log has a serial run with its values, replies and stacks if and only if each commit, and each request outside a transaction, had read what the commits before it make of the database, and no table a commit was told is missing had been created; a SET that fell back is part of its transaction's record, and what the serial run leaves is the serial database |
| `Serializability.SettledExactly` | client_connection.cpp:218-234 | for every run, the log has a serial run that leaves the settled database if and only if in addition the last step that matters for each cell leaves it in step: a SET outside a transaction, a fallen-back SET of the value already there, or a commit that finds the last value its transaction gave the cell, committed early or pending |
| `Serializability.AgreementStep` | client_connection.cpp:223-234 | step by step and cell by cell, exactly when the serial and the settled database have the same: a fallen-back SET parts them unless the value is there already, its commit joins them if the cell still holds the transaction's last value, a SET outside a transaction joins them, nothing else matters |
| `Serializability.CommitAfterFallbacks` | client_connection.cpp:223-234 | when only the committing transaction's cells are out of step, the log with its commit has a serial run that leaves the settled database if and only if what it read holds and every cell it set still has its last value, committed early or pending |
| `Serializability.SerialWithoutFallbacks` | client_connection.cpp:246-275 | without fallbacks, with lock-free GETs anywhere: the log has a serial run if and only if each commit finds in the committed data what its lock-free GETs had found, and no table it was told is missing had been created; then it leaves the settled database |
| `SerialRuns.SerialMeans` | server.cpp:133-148 | what a serial run says of each logged transaction: alone on what its predecessors left, from its first stack, it gets every reply and value on record and ends with its last stack |
| `Serializability.SerialStep` | server.cpp:133-148 | every step either leaves the log and the serial database alone or logs one entry that leads from the one to the next, exactly when what its transaction read and was told holds |
| `OpenTransactions.TransactionsStep` | table.h:37-38 | the invariant behind it, whatever anyone does about locks: on every database that has the tables, an open transaction run alone gets the replies it got exactly when its GETs find there what they found, and then it reaches its stack and leaves its writes |
| `PendingChanges.LinksStep` | table.cpp:45-49 | in every open transaction what is pending in a locked table is the last value it set, and what it read under the lock is still committed; without fallbacks every value it set is pending in a table it holds |
| `SerialRuns.ReplayForgiven` | server.cpp:113-121 | a trace replays exactly when it does without the missing-table replies and those tables are still missing |
| `Serializability.MissingIsNotLogged` | server.cpp:113-121 | a valid GET or SET, in a transaction or outside, with the lock or without, is told that its table is missing if and only if the log has not created it |
| `Settling.StartCommitSettles` | server.cpp:133-148 | entering the commit loop is the moment what the client sees becomes the settled database, which until then is the committed data |
| `Endings.CommitRound` | server.cpp:136-142 | in mid-commit a released table already shows its final contents with nothing pending, the ones still to do stay locked by the committer, and neither the log nor the settled database moves |
| `Endings.LoopIsAtomic` | server.cpp:133-166 | the commit and rollback loops, in any order of the lock set and from first step to last, amount to the one atomic change that the server's methods make; commit adds one log entry, rollback none |
| `Endings.RollbackRestores` | server.cpp:150-166 | from any moment a transaction holds a table, however everyone's steps interleave, when its rollback reaches the table it is free and shows exactly the committed data of that moment |
| `Endings.FrozenRun` | table.cpp:75-88 | committed data of a table held by a transaction stays put over every run in which that transaction neither commits nor gives the table up |
| `Endings.LogGrows` | server.cpp:133-148 | what was made permanent stays in its place in the log over every continuation |
| `Locking.LocksAlwaysInOrder` | server.cpp:100-189 | in every reachable state, covered accesses or not, owned tables exist and are held by their owner, so commit never meets a missing table; a table in no lock set has nothing pending |
| `Locking.MutualExclusion` | table.cpp:27-43 | two clients never own the same table |
| `Locking.LocalStepKeepsLockInv` | server.cpp:168-189 | a step that changes only one client's session, lock set and own tables keeps the order of everyone else's |
| `Progress.DrainsExactly` | client_connection.cpp:218-221 | a reachable state, fallbacks and closed sessions included, can bring every client to rest outside a transaction if and only if it has no cycle of waits, of any length and self-waits included, and no closed session is inside a transaction |
| `Progress.StuckForever` | table.cpp:27-31 | a group of clients each of whom is gone inside a transaction or waits for a table of the group, and the tables it holds, are as they are after every run |
| `Progress.DeadlockIsForever` | table.cpp:27-31 | clients that wait in a cycle are as they are after every run, whatever anyone does |
| `Progress.NoWaitCycle` | table.cpp:27-43 | without fallbacks the waits-for relation of every reachable state has no cycle and no chain longer than two hops |
| `Progress.NoHoldAndWait` | exceptions.h:45-48 | without fallbacks a client blocked on a table holds no table and not the guard |
| `Progress.DrainsWithoutFallbacks` | server.cpp:168-180 | without fallbacks a reachable state can bring every client to rest outside a transaction if and only if no closed session is inside one |
| `Progress.StuckMeansDone` | server.cpp:168-180 | a reachable state with no enabled finishing step has nothing left to finish, or a closed session inside a transaction, or, where somebody fell back, a cycle of waits |
| `Progress.FinishingStepWorks` | server.cpp:133-166 | every finishing step strictly reduces the work left, so no sequence of them goes on forever |
| `Departures.GoneBlocks` | client_connection.cpp:391-397 | a client that waits for a table of a transaction whose client is gone waits after every run, and the table stays locked as it is |
| `Departures.ByeLeavesTableLocked` | client_connection.cpp:363-366 | a concrete run, BEGIN, PUSH, SET, BYE, after which a GET of another client outside a transaction waits for ever |
| `Applications.NoLostUpdate` | incr_value.cpp:92-105 | over any interleaving whose reads hold, covered ones among them, if what was made permanent in between are completed increments of a cell or transactions that leave it alone, its numeral in the serial database rose by exactly the number of increments; without fallbacks that is the numeral in the settled database, and in the committed one when no commit is inside its loop |
| `Applications.IncrementRequests` | incr_value.cpp:98-101 | the increment program is the request sequence GET, PUSH 1, ADD, SET |
| `Programs.AccessIsServed` | exceptions.h:45-48 | an access of a transaction that passes its checks fails if and only if another client holds the table, and then changes nothing; on a free table and on one the client already has, reply, stack and effect are those of a client alone with the committed data under its own changes, and the table is in its lock set from then on |
| `Programs.RequestsAreServed` | client_connection.cpp:200-275 | requests of a transaction that a lone client with its view would have acknowledged throughout are a run of that client, acknowledged throughout with the same effect, when nobody else holds their tables; nothing is committed and no other client is touched |
| `Programs.ProgramCompletes` | client_connection.cpp:190-275 | every program of assignments that has a meaning on the committed data, and whose tables nobody holds, has a run from BEGIN to the end of COMMIT: the committed data becomes what the assignments make of it, the log has it as a completed transaction, and its tables are free again |
| `Programs.IncrementCompletes` | incr_value.cpp:92-105 | an increment of a cell that holds a number, with the table free, runs to a completed entry of the log and leaves the number one higher |
| `Programs.BlockedIsServed` | client_connection.cpp:223-234 | a request that has its table by Table::lock is answered as to a client alone with the committed data, and what it sets is committed |
| `Programs.AutoCompletes` | client_connection.cpp:246-275 | a GET or SET outside a transaction that passes its checks, with the table free, runs through, is answered and committed as for a client alone, and leaves the table free |
| `Replies.CheckLaw` | client_connection.cpp:200-216 | exactly which GETs and SETs pass the checks: table's name, key and table, and for a SET a key that is an identifier and a value; bad names end the session, a missing table or value does not |
| `Replies.FailedCheckAnswers` | client_connection.cpp:200-216 | a request that fails its checks, in a transaction or outside, does nothing but answer, and closes the session exactly when the reply does |
| `Replies.BadKeyCloses` | client_connection.cpp:206-208 | a SET of an existing table with a key that is no identifier is answered ERROR and closes the session, and no table, lock or stack changes, in a transaction or outside |
| `Replies.TableRequestLaw` | client_connection.cpp:223-259 | GET pushes the value of the cell or fails and keeps the session; SET puts the top of the stack into that cell, changes no other and removes the value |
| `Replies.EveryRequestIsTaken` | client_connection.cpp:101-137 | an open session between requests, with the guard free, has a step for every valid request |
| `Replies.CreateAnswers` | server.cpp:100-110 | CREATE makes an empty free table or fails on an existing name, and changes no other table, lock set or transaction |
| `Replies.BeginAnswers` | server.cpp:123-131 | BEGIN opens a transaction with nothing locked, or fails in one, and changes no table and no other client's transaction |
| `Replies.CommitOutsideAnswers` | server.cpp:145-147 | COMMIT outside a transaction fails, keeps the session and changes no table, lock set or transaction |
| `Replies.ByeAnswers` | client_connection.cpp:363-366 | BYE is acknowledged, closes the session and does nothing else |
| `Names.NamesAreIdentifiers` | client_connection.cpp:200-208 | in every run, whatever anyone does about locks, every table's name and every key of committed data, pending changes and the serial database is an identifier |
| `Applications.MoneyConserved` | scripts/server_concurrency_trans_multiple_tables.sh:25-31 | over any interleaving whose reads hold, covered ones among them, if what was made permanent in between are completed three-cell transfers or transactions that leave the balances alone, the total of the balances in the serial database is unchanged, whatever was rolled back or is still open; without fallbacks that is the total in the settled database, and in the committed one when no commit is inside its loop |
| `Serializability.CoveredIsClean` | table.h:37-38 | in a run whose accesses are covered by locks nobody falls back and every commit reads what the log makes of the database |
| `Applications.TransferKeepsTotal` | scripts/multi_table_worker.sh:49-67 | debiting two cells and crediting a third with the sum keeps the total of any listing of distinct cells that includes them |
| `StaleReplies.LockFreeGetReadsDirty` | client_connection.cpp:246-275 | a concrete run with one lock-free GET whose log has no serial run: a committed transaction read a value that was rolled back |
| `StaleReplies.LockFreeGetGoesStale` | client_connection.cpp:246-275 | a concrete run whose lock-free GET meets no pending change and whose log has no serial run either: the key was set and committed before the reader committed |
| `StaleReplies.MissingTableIsCreated` | server.cpp:100-121 | a concrete covered run whose log has no serial run with a reply that a table is missing, and has one without it |
| `StaleReplies.LockFreeGetIsServed` | client_connection.cpp:249-258 | at the moment it is made, a lock-free GET gets what the settled database holds if and only if no other transaction's pending change gives the key another value |
| `Fallbacks.FallbackDeadlocks` | client_connection.cpp:218-221 | a SET that falls back deadlocks if and only if the holder of the table is the client itself or waits, through any number of others, for it |
| `Fallbacks.SecondSetDeadlocks` | client_connection.cpp:218-221 | a reachable self-wait: a second SET of the same table in one transaction |
| `Fallbacks.CrossedSetsDeadlock` | client_connection.cpp:218-221 | a reachable cycle of two transactions that set each other's tables |
| `EarlyCommits.FallbackEscapesRollback` | client_connection.cpp:223-234 | a SET that fell back is committed data at once and stays so when its transaction rolls back, which undoes everything in the lock set |
| `EarlyCommits.EarlyCommitIsSerializable` | client_connection.cpp:218-234 | a concrete run in which a SET was committed ahead of its transaction and whose log has a serial run that leaves the settled database |
| `EarlyCommits.OverwrittenIsNotSerializable` | client_connection.cpp:218-234 | the same run with another client's SET of the cell before the commit: the serial run of its log leaves another database than the settled one |
| `Servers.WhatEndingDoes` | server.cpp:133-166 | rollback leaves the tables of the lock set free and showing their committed data, commit makes what was visible committed, the lock set is empty, and nothing of any other client changes |
| `Servers.EndingKeepsLocksHeld` | server.cpp:133-166 | after either, every name left in a lock set is still a created table held by that client |
| `Servers.Server.CreateTable` | server.cpp:100-110 | refuses an existing name, otherwise adds an empty free table |
| `Servers.Server.BeginTransaction` | server.cpp:123-131 | refuses a second transaction of a client, otherwise starts one with an empty lock set |
| `Servers.Server.CommitTransaction` | server.cpp:133-148 | the loop ends in the atomic commit of the whole lock set; every round's table exists and is held |
| `Servers.Server.RollbackTransaction` | server.cpp:150-166 | the loop ends in the atomic rollback of the whole lock set, or nothing changes when no transaction is active |
| `Servers.Server.LockTable` | server.cpp:168-180 | takes a free existing table into the lock set, reports a missing one, and changes nothing when it is held |
| `Servers.Server.UnlockTable` | server.cpp:182-189 | releases a table only from the client's own lock set, and that table is free then |
| `Servers.LockThenUnlock` | server.cpp:168-189 | locking passes the table from free to the client and its lock set, unlocking passes it back, so that any client can lock it then; contents and everything else stay |
| `Servers.Server.IsTransactionActive` | server.cpp:191-194 | the flag of the client, false when there is none |
| `Servers.Server.FindTable` | server.cpp:113-121 | the table of the name, or none |
| `Tables.TableRefinesLog` | table.cpp:45-88 | for every history of sets, commits and rollbacks, get returns the last set of the key that no later rollback cancelled, and the committed value is what get would return after one more rollback |
| `Tables.Table.CommitChanges` | table.cpp:75-82 | the copy loop moves the overlay into the data without changing what any reader sees |
| `Tables.Table.Get` | table.cpp:51-67 | the visible value of the key, none when absent |
| `Tables.Table.HasKey` | table.cpp:69-73 | true exactly when get finds a value |
| `Tables.Table.TryLock` | table.cpp:39-43 | succeeds exactly on a free mutex, so fails for the holder too |
| `Connections.ClientConnection.HandleAccess` | exceptions.h:45-48 | a GET or SET in a transaction takes the table by trylock unless the client has it, and leaves server, stack and reply as the step of the transition system says |
| `Connections.ClientConnection.EnterAuto` | client_connection.cpp:246-252 | a GET or SET outside a transaction up to Table::lock: the reply when a check fails, else it waits |
| `Connections.ClientConnection.TakeLock` | table.cpp:27-31 | when Table::lock returns the table is this client's, as the step says |
| `Connections.ClientConnection.OperateAuto` | client_connection.cpp:223-234 | with the lock in hand the request is carried out and a SET committed, as the steps say |
| `Connections.ClientConnection.ReleaseAuto` | client_connection.cpp:240-243 | the table is released, as the step says |
| `Connections.ClientConnection.HandleBegin` | client_connection.cpp:190-193 | the begin step, on the shared objects |
| `Connections.ClientConnection.HandleCommit` | client_connection.cpp:195-198 | the whole commit under the guard, and its reply |
| `Connections.ClientConnection.HandleCreate` | client_connection.cpp:180-188 | the create step, on the shared objects |
| `Connections.ClientConnection.Check` | client_connection.cpp:200-216 | the checks before locking, in the code's order |
| `Compiler.CompileCorrect` | client_connection.cpp:311-360 | the postfix program of any expression over literals and cells is acknowledged throughout if and only if the expression has a value, and then leaves the old stack plus that value |
| `Compiler.CompileAllCorrect` | client_connection.cpp:200-360 | the same for programs of assignments: the effect on the database is that of the assignments and the stack is as before |
| `Compiler.ArithmeticCorrect` | client_connection.cpp:336-358 | a tree whose literals and intermediates are ints pushes the numeral of its integer value, left operand first, division truncating |
| `Compiler.ComputeMeans` | client_connection.cpp:338-357 | the switch has a result exactly when the operation on integers has one inside int, with the quotient the one truncated toward zero, and fails exactly on a zero divisor or outside int |
| `Accounting.StackAccounting` | client_connection.cpp:277-360 | over any run of all clients, the height of a client's stack is what the replies of its session account for, operands dropped by failed arithmetic, refused locks, commits and rollbacks included, and nothing below the lowest cut changes |
| `Histories.StackIsHistory` | client_connection.cpp:277-360 | over any run of all clients, the values on a client's stack are what its replies say: pushed by PUSH, GET and operations, removed by POP, SET, operations and what failed operations had taken |
| `Histories.StackReplies` | client_connection.cpp:292-308 | at any moment of any session TOP answers the value of the last PUSH, GET or result not removed since, POP removes it, both fail exactly when there is none, and every other stack request is answered as on those values |
| `Handlers.TruncDivTowardZero` | client_connection.cpp:353 | the remainder is smaller than the divisor and has the sign of the dividend |
| `ValueStacks.HandleArithmetic` | client_connection.cpp:311-360 | the handler leaves on the stack what the specification says, on each failing check too |
| `StackLaws.ArithmeticLaw` | client_connection.cpp:311-360 | an arithmetic request is refused and keeps the session with none, one or both values gone exactly as an operand is missing, is no number, or the divisor is zero; it is acknowledged exactly when the operation on the numbers the two texts start with is an int, and that replaces them; else a number is outside int and the session is lost |
| `StackLaws.TopAndPopLaw` | value_stack.cpp:32-48 | on every stack TOP answers the value pushed last and POP takes it away, and both refuse exactly the empty stack |
| `StackLaws.PushLaw` | client_connection.cpp:277-290 | PUSH adds its one non-empty argument; an empty one pushes nothing and keeps the session, a wrong number of arguments ends it |
| `Numerals.StoiReads` | client_connection.cpp:319-333 | by the characters of the text: std::stoi refuses exactly when no digit, or sign and digit, follows the leading blanks; otherwise it gives the number the text starts with, or fails out of range |
| `ValueStacks.HandlePush` | client_connection.cpp:277-290 | pushes a non-empty argument and acknowledges, else replies with an error that keeps the session and the stack |
| `ValueStacks.HandlePop` | client_connection.cpp:292-295 | acknowledges and leaves what was under the top, or fails on exactly the empty stack |
| `ValueStacks.HandleTop` | client_connection.cpp:297-308 | answers the last value of the stack, or fails on exactly the empty one, and leaves the stack |
| `ValueStacks.ValueStack.Pop` | value_stack.cpp:41-48 | removes the top, and only reports when there is none |
| `ValueStacks.ValueStack.GetTop` | value_stack.cpp:32-39 | the last value pushed, or none |
| `ValueStacks.ValueStack.Push` | value_stack.cpp:26-30 | adds on top |
| `Serialization.RoundTrip` | message_serialization.cpp:117-184 | a valid message that fits survives encode and decode if and only if its arguments are all words and the first does not start with a quote |
| `Serialization.DecodeOfEncode` | message_serialization.cpp:117-184 | decode after encode re-tokenizes: it succeeds exactly when the message of the arguments' words is valid, and yields that message |
| `Serialization.CanonicalForm` | message_serialization.cpp:144-184 | reprinting any accepted line with a known command is never longer than the line, and stands for the same message if and only if the arguments are printable |
| `Serialization.Encode` | message_serialization.cpp:117-134 | the loop prints the type and arguments, and fails exactly above 1024 bytes |
| `Serialization.Decode` | message_serialization.cpp:144-184 | the stream operations compute the parse, and what is left in the message object on each failure |
| `Serialization.NamesInvert` | message_serialization.cpp:25-108 | the two tables invert each other: on every type, and on exactly the known names and NONE |
| `Lines.TablesSpell` | message_serialization.cpp:25-74 | each command word stands for its type of message in both tables, "ADD" for ADD and so on, and any other word for none |
| `Lines.AcceptedLines` | message_serialization.cpp:144-184 | a line of a command word and words separated by blanks of any kind and number decodes to the message of that command with those words when the command takes that many, and an identifier where it wants one, and is invalid otherwise |
| `Lines.QuotedLineStandsFor` | message_serialization.cpp:144-184 | one argument in quotes may hold blanks, what follows the closing quote is ignored |
| `Lines.LineLimits` | message_serialization.cpp:144-152 | a line has to end in a newline and to be no longer than 1024 bytes |
| `Lines.EveryTextIsSpaced` | message_serialization.cpp:144-184 | every argument text is words after blanks, so the accepted lines are all there are |
| `Lines.BareLine` | message_serialization.cpp:25-74 | the lines POP, TOP, ADD, SUB, MUL, DIV, BEGIN, COMMIT, BYE and OK, literally, decode to their message and are what encode prints for it |
| `Lines.OneArgumentLine` | message_serialization.cpp:117-184 | the same for LOGIN, CREATE, PUSH and DATA with any word that fits |
| `Lines.TableLine` | message_serialization.cpp:117-184 | the same for GET and SET with any table and key that fit |
| `Lines.IdentifierCharacters` | client_connection.cpp:166-178 | an identifier is a letter followed by letters, digits and underscores, by their characters |
| `Messages.IsValidUsername` | client_connection.cpp:166-178 | the scan accepts exactly the identifiers |
| `Framing.FramingRoundTrip` | client_connection.cpp:31-77 | the concatenated encodings of any sendable messages are read back as exactly that list, then end of file, or up to the BYE that ends it, or up to what is no message |
| `Framing.RawLines` | client_connection.cpp:61-77 | any line of at most 1023 bytes without NULs is received as decode takes it, whatever follows; a stream that ends within a line is rejected, an empty one is the end |
| `Framing.ReceivedExactly` | client_connection.cpp:61-77 | an encodable valid message is received as sent, whatever follows it, if and only if it is printable, free of NUL and at most 1023 bytes encoded |
| `Framing.LongestPushIsLost` | client_connection.cpp:61-77 | a concrete PUSH of 1018 bytes encodes to exactly 1024 and is rejected as a line without an end |
| `Framing.SessionRoundTrip` | client_connection.cpp:31-45 | a session that opens with a LOGIN of a valid user name gets as far as its requests; one that opens with another LOGIN or another message serves none |
| `Framing.ReadMessage` | client_connection.cpp:61-77 | what is received, and what stays in the stream, depend only on the bytes sent and not on how they arrive |
| `Framing.ChatWithClient` | client_connection.cpp:31-45 | after a LOGIN with a valid user name the session handles the requests of the stream up to BYE or the first failed read, however the bytes arrive, and otherwise none |
| `Framing.Exchange` | csapp.c:781-899 | a LOGIN and a list of messages written with short counts and interruptions, and read with others, give the list as sent |
| `EndToEnd.ProgramOverTheWire` | client_connection.cpp:41-77 | the bytes of a program's requests, read back by the request loop and served in turn, have the effect of its assignments |
| `Rio.RioReadn` | csapp.c:755-774 | without a hard error, the longest available prefix up to n bytes; after one, what was consumed is in the caller's buffer |
| `Rio.RioWriten` | csapp.c:781-798 | success writes exactly the bytes once and in order, failure a proper prefix, and failure needs a failed or empty write |
| `Rio.Reader.RioRead` | csapp.c:811-836 | between one and n bytes of the stream, nothing lost or repeated across refills and interruptions, 0 only at its end |
| `Rio.Reader.RioReadnb` | csapp.c:855-870 | min(n, available) bytes of the stream, independent of chunks |
| `Rio.Reader.RioReadlineb` | csapp.c:877-899 | the next line cut at maxlen - 1 bytes and terminated, independent of chunks; at end of file nothing is stored |
| `Rio.LineLength` | csapp.c:882-896 | where the scan for a newline may stop |
| `Sio.SioLtoa` | csapp.c:244-261 | writes the base-b text and a NUL, and leaves the rest of the buffer alone |
| `Sio.SioReverse` | csapp.c:232-241 | exact in-place reversal up to the terminator |
| `Sio.SioPutl` | csapp.c:282-288 | 128 bytes always suffice, and the text handed to write parses back to the number |
| `Numerals.PrintedNumber` | csapp.c:244-261 | the printed text parses back in its base, has no leading zero except for 0, and takes at most 65 bytes with its NUL |
| `Numerals.DigitCharacters` | csapp.c:252-254 | the digits are 0 to 9 and then a to z |
| `Numerals.DigitsByPlace` | csapp.c:252-254 | what a digit counts for goes up by the base with every digit after it |
| `Numerals.StoiInvertsToString` | client_connection.cpp:320-358 | reading back a printed int gives the int, and fails exactly outside the int range |

## Left out

- Sockets, the accept loop, thread creation, descriptor closing and logging are not
  modelled; threads are the interleaving of steps.
- Serializability.SerialExactly: of the replies inside a transaction, those to CREATE and
  to a second BEGIN are not recorded, and a CREATE is a log entry of its own, as above; a
  refused trylock is not recorded either, since in the serial run it would succeed; nor
  are the checks that fail outside a transaction.
- Connections.ClientConnection.EnterAuto: does not model that a SET outside a transaction
  enters the table's name into `transaction_locks` through `lock_table`, nor what
  `unlock_table` makes of it after a failing GET, since unlocking a mutex one does not hold
  has no defined meaning.
- After a rollback the model lets the session go on, as `exceptions.h:45-48` has it; in the
  source the handler that rolls back is the end of the session.
- Connections.ClientConnection.HandleAccess: models the stated lock discipline and not
  the locking of the handlers, whose differences are listed above; these are steps of the
  transition system and have no method here.
- `handle_set_request`'s double unlock is not modelled; unlocking a mutex one does not
  hold has no defined meaning. For the same reason a SET in a transaction that gets its
  lock by trylock keeps it to the end.
- Framing.ChatWithClient: that a handled request may itself close the session is not
  modelled here; the steps of `Transactions` do, through a session's `open`.
- The dispatch of `handle_request` by message type is modelled only as far as a reply says
  whether the session goes on.
- Client numbers are not reused after a disconnect; the server reuses descriptors.
- Signed overflow is undefined in the source; the model loses the session there, as it
  does when `std::stoi` is out of range, which no handler catches.
- `sio_ltoa` at LONG_MIN, where the negation overflows, is excluded.
- Text in quotes is printed without quotes by `encode`, so a FAILED or ERROR reply of
  several words is covered by `Serialization.DecodeOfEncode` and not by a round trip.
- EndToEnd.ProgramOverTheWire: is about the requests; the replies the client programs wait
  for after each are not sent back.
- `std::regex` and locales are replaced by the ASCII identifier predicate.
- The client programs, the test scripts and the rest of csapp.c are not modelled, except
  for the request sequences cited above.
