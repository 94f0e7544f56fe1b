# Verified model of RTags

RTags keeps a cross-reference index of C and C++ code up to date while the code changes. A
server indexes translation units in a pool of threads, merges their symbols into one index,
purges what has become stale, and answers queries by walking the index; clients talk to it over
a socket. A smaller tool, grtags, does the same without a compiler.

This project models the parts of it that keep state over time and proves what they promise:

- `Locations`, `Cursors`: the order of locations, the record of a symbol, the lookup by location.
- `SymbolIndex`, `ProjectIndex`, `ProjectLife`: merging and purging, and the life of a project.
  The tables are described by sets of facts (this is a symbol, with this record, this targets
  that, this has that USR), and every state reached by any sequence of purges and merges says
  exactly the facts that some unit declared since the files they are about were last purged.
- `References`: the walk behind "find all references" as reachability in the graph of records.
- `JobProtocol`, `LastRequest`, `IndexedRuns`, `UnitCache`, `UnitRuns`: which reindex runs next, whose
  arguments win, what the index holds of its result, and who owns a parsed translation unit.
- `ThreadPool`, `ReadWriteLock`: step systems in which the scheduler picks every step. The
  classes of the same names make one step per method.
- `Timevals`, `Timers`: deadlines and the pass over the due timers.
- `Native`, `Sets`, `Options`: integers in memory, and two helpers.
- `Framing`, `Wire`: framing of messages over a socket that fragments at will.
- `Codecs`, `ProjectFile`: the serializer and the file a project is saved in.
- `Matching`, `GRParser`, `GRNames`, `GRScopes`, `GRParses`: the parser of grtags, which tokens name
  what it records, what its scopes mean, and that files can be parsed one after the other into the
  same symbols.
- `GRTags`, `GRUpdates`, `PathCodec`: the update of its database, any sequence of updates, and the
  encoding of paths as file names.

What clang, the operating system, the network, the clock and the scheduler answer are inputs:
records, results of `send` and `recv`, times, choices of the next step. A loop over a hash or a
tree container goes through its elements in an arbitrary order. Mutable objects are classes;
where a method of the source works on one of its maps, the model has a method on that map, and
the class stores the result.

## Where the code does not do what one would expect

Each of these is stated in the model with the exact condition, or with a run that shows it.

- The index need not end with the arguments a file was last requested with. A request that comes
  while a job waits to start is dropped (`LastRequest.LaterArgsCanBeDropped`); and
  `onJobFinished` lets go of the mutex before it restarts an aborted job, so an older request can
  come back behind a newer one, abort its job and win (`LastRequest.OlderArgsCanWin`).
  `LastRequest.LastRequestWinsIff` says exactly when neither can happen.
- A source whose result waits to be merged is not indexed again when a file of its include tree is
  modified, because only merged units are recorded as including it: the result is merged, although
  it is stale (`ProjectLife.StaleUnitIsMerged`). `ProjectIndex.Project.OnFilesModified` says exactly
  which sources are: those modified, and those of which a unit merged before includes a modified file.
- `Location::compare` and `operator<` disagree on the sign (`Locations.CompareVersusLess`); its
  one caller only tests for zero.
- `operator<` is a total order for up to 2^31 files (`Locations.OrderIsTotalIff`), and the lookup
  answers with its floor, although that covers nothing there, exactly when the floor is 2^31 or more
  bytes away (`Cursors.FindMatchesScanIff`).
- A repeating timer keeps its schedule exactly as long as no firing is later than its period
  (`Timevals.NoDriftIff`); `timevalAdd` of a negative difference leaves the microseconds negative
  unless they need no borrow (`Timevals.PlusIsExact`).
- If the size of a message meets a hard error its data is never queued, but `mPendingWrite` keeps
  counting it. `Wire.Connection.Send` says exactly when; `Wire.Session` that a finished connection
  closes at the first moment at which nothing is left to be sent, unless it has happened by then, and
  stays open if it has; `Wire.StaysOpen` shows one that has sent everything and waits for ever.
- A read buffer with 16 MB of unread bytes is dropped, but not the position in it. What was
  received is then lost, and `bytesAvailable` can be negative (`Wire.LocalClient.Append`,
  `Wire.LocalClient.ReadMore`).
- A closing brace that meets with a pending state does not take its container or function off the
  stack, as in a class that ends with a macro call without a semicolon
  (`GRScopes.MacroKeepsScope`): what follows is recorded as if it were inside. It happens exactly
  then (`GRScopes.StackIsEnclosingIff`).
- In `GRTags::load` the keys of times sort before those of paths, so the branch that would delete
  the time of a vanished file is dead. The time stays under its id, and a new file that is given
  that id, and is not younger than the time, is taken for current and never parsed
  (`GRTags.LeftoverTimeHides`). In the same way an update that filters out a source, and parses
  another, drops what the table had about it and keeps its time, so the next update does not parse
  it either (`GRUpdates.SkippedIsLost`). `GRUpdates.TableIsOfTreeIff` says of any sequence of updates
  when each leaves the right table.
- `GRTags::exec` saves only when it has parsed something. When nothing is pending, what was found
  in vanished files stays in the table (`GRTags.VanishedStays`). `GRTags.Run` says exactly when
  the table after a run is that of the tree.
- `Location::init` starts handing out ids after the number of known paths. Once a file has
  vanished, two files can share an id (`GRTags.AssignIds` says exactly when,
  `GRTags.IdsCanCollide` shows one case).

## Model

| member | source | states |
|---|---|---|
| Locations.OrderIsTotalIff | src/Location.h:120-141 | the order of locations is irreflexive, total and transitive, with `>` its converse, exactly while at most 2^31 files have ids |
| Locations.CompareVersusLess | src/Location.h:104-130 | `compare` finds the same locations equal as `<` does, and when its sign agrees with it |
| Locations.PackIsInjective | src/Location.h:25-27 | file id and offset are recovered from the one word they are packed in |
| Cursors.CursorInfo.Unite | src/CursorInfo.h:93-133 | uniting joins the sets, keeps a description or an extent that was set and takes the other's where none was, and reports a change exactly when there is one |
| Cursors.CursorInfo.Dirty | src/CursorInfo.h:33-50 | exactly the targets and references in dirty files go, and a change is reported exactly when there is one |
| Cursors.FindMatchesScanIff | src/RTagsClang.cpp:87-110 | the lookup answers as a scan for the nearest entry at or below the location would, except exactly when that entry is 2^31 or more bytes before it |
| Cursors.FindsUniqueCover | src/RTagsClang.cpp:87-110 | when extents in a file do not overlap, the symbol that covers a location is found, and it is the only one |
| SymbolIndex.DirtySymbols | src/RTags.cpp:391-403 | purging drops the symbols of dirty files and cleans the records of the others |
| SymbolIndex.DirtyRepresents | src/RTags.cpp:391-423 | tables that say a set of facts say, once purged, the facts that do not touch a dirty file; links between siblings stay complete |
| SymbolIndex.WriteCursors | src/Project.cpp:570-608 | each symbol comes in with the word for its kind of type before its name: as it is where there was none, united with the one there was otherwise; all others stay |
| SymbolIndex.WriteCursorsHolds | src/Project.cpp:570-608 | after merging symbols the tables say the old facts and those of the new symbols |
| SymbolIndex.WriteCursorsRecords | src/Project.cpp:570-608 | after merging symbols every record has its description and its extent, with the type prefix, from some unit that described the symbol, and has them if any unit did |
| SymbolIndex.DirtyRecordsHold | src/RTags.cpp:391-403 | purging keeps the records of clean files as they were described |
| SymbolIndex.JoinCursors | src/Project.cpp:541-554 | every symbol of a group gets all the others as targets, and nothing else changes |
| SymbolIndex.WriteUsr | src/Project.cpp:556-568 | after filing locations under USRs, also where the join is skipped because nothing was new, the tables say the old facts and the new ones, with all siblings linked |
| SymbolIndex.WriteReferences | src/Project.cpp:610-623 | after merging references the tables say them as well |
| SymbolIndex.UniteGroups | src/Project.cpp:427-446 | each group of locations or dependents becomes the union of the old and the new one |
| ProjectIndex.VisitInclusions | src/IndexerJob.cpp:41-67 | the dependencies of a unit are exactly all files of the include stacks, and its main file is included by itself |
| ProjectIndex.FactsIffDeclared | src/Project.cpp:625-657 | a fact holds after any rounds of purging and merging exactly if some round added it and no later one purged a file it touches |
| ProjectIndex.MergeUnit | src/Project.cpp:638-646 | merging one unit adds exactly the facts of that unit |
| ProjectIndex.PurgeAndMerge | src/Project.cpp:625-657 | one write purges first and then adds the facts of all pending units |
| ProjectIndex.IndexIsDeclared | src/Project.cpp:625-657 | tables that agree with any rounds hold, entry by entry, what was declared, and targets besides exactly between locations that share a USR, all of which are linked; length, kind, name and extent of each record come from units that described that symbol since its file was last purged, and are there if any gave them |
| ProjectIndex.WriteAll | src/Project.cpp:625-657 | from an empty index, any sequence of writes, purging and merging anything, leaves exactly the index of what was declared |
| ProjectLife.Live | src/Project.cpp:236-528 | whatever happens to a new project, in any order, its tables are the index of what its events declared: the units that waited when all jobs had finished, by the events alone, as far as nothing later purged them |
| ProjectLife.HistoryDeclares | src/Project.cpp:236-528 | after any events a fact holds exactly if a unit was finished that has it, was not requested or replaced before the next write, and no later purge, at once or with a write, was of a file it touches |
| ProjectLife.StaleUnitIsMerged | src/Project.cpp:491-528 | a source whose result waits, with a file of its include tree modified then, is not passed to index(), and its stale unit is merged |
| ProjectIndex.Project.Write | src/Project.cpp:625-657 | the object keeps its tables in agreement with the rounds so far and takes exactly one more, and records every file of a merged include tree as included |
| ProjectIndex.Project.OnFilesModified | src/Project.cpp:491-528 | what is passed to index() is exactly the known sources that are modified or have had a unit merged that includes a modified file; if there is none, everything dirty is purged at once |
| ProjectIndex.DependentsAreIncluders | src/Project.cpp:427-446 | recorded as depending on a file are exactly those ever merged with it in their include tree |
| References.TargetInfos | src/CursorInfo.cpp:80-94 | every target with the record found for it, or the default record |
| References.ReferenceInfos | src/CursorInfo.cpp:96-106 | every reference that is found, with its record |
| References.AllImpl | src/CursorInfo.cpp:133-179 | the walk ends on cyclic graphs, lists only what the start reaches, and lists whatever those it went through lead to |
| References.AllReferences | src/CursorInfo.cpp:181-200 | the answer holds true records: for classes, constructors and destructors of locations reached over these, among them all of these the symbol leads to and, for a class, all that refers to it; for everything else of exactly what is reached over symbols of its kind |
| References.Virtuals | src/CursorInfo.cpp:202-212 | for a method exactly the methods it reaches, for others itself and the direct targets of its kind |
| JobProtocol.NextKeeps | src/Project.cpp:236-404 | every step keeps, file by file, the agreement of mJobs, mPendingJobs and mPendingData with what became of the last request |
| JobProtocol.NoRequestIsLost | src/Project.cpp:236-404 | in every run a file requested after its last job started has an unstarted job, a pending entry behind an aborted job or a restart in flight; one live job per file; no file both in mJobs and mPendingData; waiting results answer the last request |
| JobProtocol.SettledIsIndexed | src/Project.cpp:236-317 | in every run that has come to rest each requested file is in the index as of its last request, unless its last job gave up by itself |
| JobProtocol.SettlesEventually | src/Project.cpp:236-404 | without new requests every run comes to rest after a bounded number of steps, and is never stuck before |
| LastRequest.LastRequestWinsIff | src/Project.cpp:236-277 | after any run, every way on without a further request for the file that comes to rest has it indexed with the arguments of the last request, or its last job gave up, exactly if no job of the file waits to start with others and no restart with others is in flight |
| LastRequest.OlderArgsCanWin | src/Project.cpp:272-276 | a run from the start, requests a, b, c, that comes to rest with the index holding the result for b |
| LastRequest.LaterArgsCanBeDropped | src/Project.cpp:376-384 | a run from the start that comes to rest with the index holding the result for the first of two requests |
| IndexedRuns.IndexOfRun | src/Project.cpp:236-317 | the index after any run is that of what was declared, whatever unit each job makes of its file, and at rest it holds, of each file requested whose last job did not give up, the unit of the last job that left a result, as far as no later write purged it |
| JobProtocol.Reindexer.Enter | src/Project.cpp:376-404 | index() makes the step of the model |
| JobProtocol.Reindexer.AbortIfStarted | src/IndexerJob.cpp:935-941 | a started job is aborted, and the answer says whether it is |
| JobProtocol.Reindexer.OnJobFinished | src/Project.cpp:236-277 | makes the step of the model; an aborted job leaves no result |
| JobProtocol.Reindexer.FinishAll | src/Project.cpp:279-306 | writes exactly when no job is left, and then everything that waits |
| UnitCache.Cache.AddCachedUnit | src/Project.cpp:676-712 | the list stays a chain from first to last of the right size, the new unit is the last, and if the list was full exactly the first goes |
| UnitCache.Cache.InitJobFromCache | src/Project.cpp:714-747 | hands out the first unit of the path with these arguments, or with any if none are given, and takes just that out; there is none exactly if none fits |
| UnitCache.Cache.Unlink | src/Project.cpp:725-734 | taking out any node keeps the chain, its tail pointer and its size |
| UnitCache.FirstMatch | src/Project.cpp:717-720 | the first match and no earlier one |
| UnitRuns.EveryUnitIsSomewhere | src/Project.cpp:676-747 | in every run each unit is cached once, held by a job or disposed of, and never two of these; the bound holds |
| UnitRuns.CachedInOrder | src/Project.cpp:676-747 | in every run the cached units are in the order in which they came in, so the one that is found or thrown out first is the oldest |
| ThreadPool.PoolIsSafe | src/ThreadPool.cpp:47-163 | in every run no queued job lacks a worker on its way while one sleeps, the queue is sorted, mBusyThreads counts the workers with a job, and each job is as often queued, running, finished or cleared as submitted |
| ThreadPool.TakesHighest | src/ThreadPool.cpp:54-84 | a stopped worker takes no job, another takes one of the highest priority or, if there is none, sleeps |
| ThreadPool.QueueDrains | src/ThreadPool.cpp:54-84 | left alone the workers take a bounded number of steps, and once none can take one the queue is empty, unless all were stopped |
| ThreadPool.EnqueueSorts | src/ThreadPool.cpp:149-160 | queueing keeps the queue sorted and adds the one job, whatever an unstable sort does, last if no other has a lower priority and first if all have |
| ThreadPool.Pool.constructor | src/ThreadPool.cpp:86-93 | a new pool has as many workers as asked for, and is in a state that a run leads to |
| ThreadPool.Pool.IsSafe | src/ThreadPool.cpp:47-163 | between any two calls, whatever was called, no job is stranded, the queue is sorted and mBusyThreads is right |
| ThreadPool.Pool.Start | src/ThreadPool.cpp:140-163 | start() makes the step of the model |
| ThreadPool.Pool.Enter | src/ThreadPool.cpp:62-79 | one round of a worker makes the step of the model and takes the first job |
| ThreadPool.Pool.GrowTo | src/ThreadPool.cpp:113-119 | adds as many workers as are missing |
| ThreadPool.Pool.StopLast | src/ThreadPool.cpp:47-52 | stops a worker and wakes all sleepers |
| ThreadPool.Pool.ClearBackLog | src/ThreadPool.cpp:212-216 | empties the queue |
| ReadWriteLock.LockIsSafe | src/ReadWriteLock.cpp:10-62 | in every run, with timed-out and spurious wake-ups, a writer is alone, mCount is the number of holders, who sleeps waits for a holder, and no assertion fires |
| ReadWriteLock.FreeLockIsTaken | src/ReadWriteLock.cpp:10-44 | once nobody holds the lock nobody sleeps, and the first waiting thread to run gets it |
| ReadWriteLock.TimeOutLeavesNoTrace | src/ReadWriteLock.cpp:13-24 | a wait that times out leaves no trace: whatever other threads do during it, and however often it is woken, they can do the same without it, and the lock ends as if the call had not been made |
| ReadWriteLock.RWLock.TestLoop | src/ReadWriteLock.cpp:10-29 | lock() makes the step of the model, returns true exactly if nothing was in its way, and then with the lock held, else with the thread asleep |
| ReadWriteLock.RWLock.TryLock | src/ReadWriteLock.cpp:46-62 | as lock(), but leaves everything alone exactly where that would wait |
| ReadWriteLock.RWLock.Unlock | src/ReadWriteLock.cpp:31-44 | makes the step of the model; its assertions hold, and the sleepers are woken, all of them, exactly by the last holder to go |
| Timevals.PlusIsExact | src/EventLoop.cpp:29-37 | the sum is exact, and exactly when it is normalised |
| Timevals.MinusSaturates | src/EventLoop.cpp:39-52 | the difference, or zero |
| Timevals.DiffIsExactIff | src/EventLoop.cpp:54-64 | the difference in milliseconds is right exactly if it fits an int |
| Timevals.RearmedDeadline | src/EventLoop.cpp:355-360 | the next deadline is the old one plus the timeout, or now if that is later, to the millisecond |
| Timevals.NoDriftIff | src/EventLoop.cpp:344-366 | after k firings the deadline is not before the k-th of the schedule, and on it exactly if no firing was later than the period |
| Timevals.ErrorBelowOneMillisecond | src/EventLoop.cpp:344-366 | in that case the total error is below one millisecond |
| Timers.EventLoop.AddTimer | src/EventLoop.cpp:131-159 | a new timer gets the next handle not in use, and the list stays sorted with exactly the handles of the map |
| Timers.EventLoop.RemoveTimer | src/EventLoop.cpp:161-174 | takes out that timer and no other; its assertions hold |
| Timers.EventLoop.ReinsertTimer | src/EventLoop.cpp:344-372 | rearms that timer, if it is there: one that is due, and less than 2^31 ms late, is due next a period after its deadline or now, whichever is later, to the millisecond; it keeps its period, and the list stays sorted |
| Timers.EventLoop.Pass | src/EventLoop.cpp:271-304 | whatever callbacks add and remove, the calls of one pass are those of the specification; afterwards exactly those timers are there that were and that no callback removed, those called with their next deadline and all others as they were, and those that callbacks have added and not removed, with theirs; the list stays tidy |
| Timers.PassCallsExactly | src/EventLoop.cpp:271-304 | these are the timers due at the snapshot, each once and in list order, except exactly those an earlier callback removed |
| Timers.KeepSchedule | src/EventLoop.cpp:271-366 | over any passes of the event loop a timer that nobody removes is called in exactly those in which it is due; its deadline is never before its schedule, and is on it exactly if no call was later than its period |
| Native.SignedNumberOfLayout | src/Serializer.h:100-116 | an integer is recovered from its bytes in memory |
| Framing.ChunksDoNotMatter | src/Connection.cpp:81-116 | how the bytes were cut does not matter: the state of a receiver depends on the bytes alone |
| Framing.DeliveredIsSent | src/Connection.cpp:81-116 | what was delivered is a prefix of what was sent, unchanged, and all of it once all bytes are there |
| Framing.AllReceivable | src/Messages.cpp:50-73 | no message with content and a known id is dropped |
| Framing.StreamSends | src/Connection.cpp:57-69 | sending a message appends four bytes with the size of the rest, the id and the content, or four zero bytes if it is empty |
| Framing.OnTrackOfFirst | src/Connection.cpp:81-116 | a receiver that has got bytes of the first few messages only is where it would be if there were no others |
| Wire.LocalClient.Read | src/LocalClient.cpp:129-141 | gives the next bytes received, in order, as many as there are |
| Wire.LocalClient.Append | src/LocalClient.cpp:179-190 | making room at the front of the buffer does not change the unread bytes; where there are too many they are lost, and what is lost stays lost |
| Wire.LocalClient.ReadMore | src/LocalClient.cpp:156-196 | everything received is there to be read, in order, exactly if the chunks fit |
| Wire.LocalClient.WriteMore | src/LocalClient.cpp:198-232 | under any partial sends every byte queued is on the wire or still held, in order, the count returned is that of the bytes that came onto the wire, and it goes on until nothing is left or the socket takes nothing, with false exactly for an error |
| Wire.SendingTakes | src/LocalClient.cpp:213-227 | after one send what is left is what there was without as many bytes as the socket took of the first buffer |
| Wire.SendingOn | src/LocalClient.cpp:207-229 | sending with some results and then with others is sending with all of them |
| Wire.LocalClient.Write | src/LocalClient.cpp:143-149 | queues the data behind everything else, then sends |
| Wire.Connection.DataAvailable | src/Connection.cpp:81-116 | takes every complete message and nothing more |
| Wire.Connection.Send | src/Connection.cpp:47-69 | keeps the accounting, sends what the socket takes of size and data, gives the data up exactly if the size meets with an error, and closes a finished connection exactly if that leaves nothing to be sent |
| Wire.Connection.DataWritten | src/Connection.cpp:118-130 | the assertion holds; it closes a finished connection exactly when nothing is pending |
| Wire.Connection.OnWritable | src/LocalClient.cpp:198-232 | a finished connection closes exactly when every byte was sent |
| Wire.Connection.Finish | src/Connection.cpp:75-79 | closes at once exactly if every byte was sent already |
| Wire.EndToEnd | src/Connection.cpp:47-130 | from sender to receiver, however much is still to be sent or to arrive: what was delivered is a prefix of what was to be sent so far, and all of that once nothing is pending and all has arrived |
| Wire.Session | src/Connection.cpp:47-130 | whatever is sent, before and after finish(), and whatever the socket answers, the connection closes at finish() or the first moment after it at which these answers leave nothing to be sent, if no message was given up by then, and otherwise stays open |
| Wire.StaysOpen | src/Connection.cpp:67-68 | a connection that met one error, has sent all that was queued, is finished, and still counts the bytes of the message given up |
| Codecs.PairValid | src/Serializer.h:186-191 | a pair decodes to itself, leaving what follows, if its parts do |
| Codecs.ListValid | src/Serializer.h:157-173 | a list decodes to itself, leaving what follows, if its elements do |
| Codecs.SetValid | src/Serializer.h:194-203 | a set does, in whatever order its elements are written |
| Codecs.MapValid | src/Serializer.h:175-184 | a map does, in whatever order its entries are written |
| Codecs.TextValid | src/Serializer.h:135-154 | a byte array does |
| Codecs.BlockIsElements | src/Serializer.h:157-173 | writing a list of elements of a fixed size as one block gives the bytes of writing them one by one |
| Codecs.BlockReadsElements | src/Serializer.h:222-239 | reading them as one block gives the same, for any type of fixed size and any bytes, as reading them one by one |
| Codecs.BlockRoundTrip | src/Serializer.h:157-239 | the block of a list of such elements is its elements one by one, and reads back, leaving what follows |
| Codecs.NativeListRoundTrip | src/Serializer.h:157-239 | so it is for lists of native integers, signed or not, whose blocks are their encodings |
| Codecs.Serializer.WriteList | src/Serializer.h:157-173 | the loop writes the encoding of the list |
| Codecs.Serializer.WriteSet | src/Serializer.h:194-203 | the loop writes the encoding of some enumeration of the set |
| Codecs.Deserializer.ReadList | src/Serializer.h:222-239 | the loop reads what decoding gives |
| Codecs.Deserializer.ReadMap | src/Serializer.h:205-220 | the loop inserts the entries decoding gives |
| ProjectFile.SymbolsValid | src/CursorInfo.h:153-168 | a symbol record decodes to itself |
| ProjectFile.SymbolLayout | src/CursorInfo.h:153-158 | its fields follow each other in the order of the source, with their sizes |
| ProjectFile.SourcesValid | src/SourceInformation.h:39-49 | a source record decodes to itself |
| ProjectFile.LocationsValid | src/Location.h:252-262 | a location decodes to itself |
| ProjectFile.BodyValid | src/Project.cpp:342-353 | all tables of a project decode to themselves |
| ProjectFile.Save | src/Project.cpp:321-362 | the file is version, size and body, with the right size |
| ProjectFile.Restore | src/Project.cpp:51-84 | refuses a wrong version and a wrong size, else decodes the body, also where the file is too short for them |
| ProjectFile.RestoreOfSave | src/Project.cpp:40-84 | a saved file restores to equal tables; longer ones and those cut off anywhere are refused |
| ProjectFile.OtherVersionRefused | src/Project.cpp:51-58 | a file of another version is refused |
| Matching.FindMatching | src/GRParser.cpp:156-211 | ends, and finds the nearest balanced partner on either side, of the same sort of bracket, or -1 exactly if there is none |
| Matching.PartnersBackwards | src/GRParser.cpp:156-211 | scanning from either bracket of a pair finds the other by the same balance |
| Matching.FindTwice | src/GRParser.cpp:156-211 | searching from the partner leads back |
| GRParser.AddEntry | src/GRParser.cpp:133-147 | a definition is recorded under its name and every qualification by an end of the scope, and nothing else changes |
| GRParser.PushKeepsShape | src/GRParser.cpp:213-403 | pushing keeps the shape of the stack: global, then containers and bodies, then at most one pending state; the scope holds the names of the containers |
| GRParser.PopKeepsShape | src/GRParser.cpp:342-354 | so does popping, and the stack is never emptied |
| GRParser.DefinitionIsSound | src/GRParser.cpp:133-147 | whatever is recorded for a definition ends with an identifier of the file and has its place |
| GRParser.Parser.AddContext | src/GRParser.cpp:388-403 | appends exactly the names that qualify the token |
| GRParser.Parser.Define | src/GRParser.cpp:257-260 | records within scope and context and leaves the scope as it was |
| GRParser.Parser.HandleLeftBrace | src/GRParser.cpp:244-289 | keeps shape and soundness; a pending container or function is recorded with the context that qualifies it and becomes open, unless its name is a keyword |
| GRParser.Parser.HandleLeftParen | src/GRParser.cpp:300-341 | keeps shape and soundness; in a body the callee is recorded as a reference, outside a function may begin |
| GRParser.Parser.Callee | src/GRParser.cpp:304-319 | the identifier before the parenthesis, or before the template arguments that end there |
| GRParser.Parser.HandleRightBrace | src/GRParser.cpp:342-354 | pops exactly the state of this brace; its assertions hold |
| GRParser.Parser.HandleSemi | src/GRParser.cpp:356-387 | ends exactly a pending state, and records a declaration within the scope if it looks like one |
| GRParser.Parser.Parse | src/GRParser.cpp:102-131 | on any tokens the machine goes through a run of one step a token, with the shape kept before and after each, so no assertion fires, and all that is recorded stands for identifiers of the file |
| GRNames.BeginsIff | src/GRParser.cpp:213-341 | while nothing is pending, a container begins exactly at one of the four key words not behind a comma or an opening angle bracket, and a function exactly at a parenthesis behind an identifier outside of functions |
| GRNames.PendingIs | src/GRParser.cpp:213-341 | in every run what is pending began at such a token, nothing was recorded since, and it is about the identifier before the first colon that follows one, or before the parenthesis |
| GRNames.ContainerIsNamed | src/GRParser.cpp:244-298 | in every run a container gets the name of the identifier before the first colon that follows one after its key word or, without such a colon, before its brace: that is the last of the scope within, and is recorded at its place with all it is qualified by; without a name, or with a key word, it is none |
| GRNames.FunctionIsNamed | src/GRParser.cpp:268-284 | in every run a function with a body is recorded as the identifier before its parenthesis, with its tilde if it has one, within the scope and the names that qualify it |
| GRNames.DeclarationIsNamed | src/GRParser.cpp:356-387 | in every run a semicolon ends what is pending, and records a function as declared exactly behind a closing parenthesis or an equals sign |
| GRNames.CallIsRecorded | src/GRParser.cpp:300-331 | in every run a parenthesis in a function records exactly the identifier it calls, which is before it or before template arguments |
| GRNames.OthersRecordNothing | src/GRParser.cpp:102-131 | in every run no other token records anything |
| GRNames.DefinedWithin | src/GRParser.cpp:133-147 | what is recorded is found under its name and under that behind the innermost scope |
| GRScopes.OpenIff | src/GRParser.cpp:156-211 | the braces counted as open before a token are exactly those without a partner before it |
| GRScopes.StackIsEnclosingIff | src/GRParser.cpp:102-131 | in every run the stack has been, token by token, that of the containers, by the names their tokens give them, and functions whose brace is open there exactly if no brace that closes one met with a pending state |
| GRScopes.ScopeIsEnclosing | src/GRParser.cpp:244-289 | so long, the scope at a token is the names of the containers whose brace is open there, outermost first |
| GRScopes.MacroKeepsScope | src/GRParser.cpp:342-354 | a class with a macro call before its brace, after which the class stays on the stack |
| GRParses.ParsesInto | src/GRParser.cpp:102-147 | parsing a file into the symbols found so far ends with these merged with what parsing the file on its own finds |
| GRParses.OneParse | src/GRParser.cpp:102-131 | parsing a file on its own can find only one thing |
| GRTags.SaveValue | src/GRTags.cpp:396-415 | the value keeps what is in clean files and gets what was found; a change is reported exactly when there is one |
| GRTags.SaveSymbols | src/GRTags.cpp:381-438 | all keys get these values, none is left empty, and a key is written exactly if its value changed |
| GRTags.SavedIsUnion | src/GRTags.cpp:381-438 | saving replaces what dirty files had in the table by what was parsed |
| GRTags.MergedIsUnion | src/GRTags.cpp:503-513 | parsing one more file adds it to the union |
| GRTags.LoadPaths | src/GRTags.cpp:317-327 | the ids of existing paths, and those of vanished ones dirty |
| GRTags.VisitAll | src/GRTags.cpp:256-287 | exactly the new and stale sources are pending, exactly the current ones are not dirty |
| GRTags.ParseSource | src/GRTags.cpp:503-513 | what the parser finds in a file, on its own, is that of a run over its tokens from no symbols, lies in that file, and has no empty key |
| GRTags.Run | src/GRTags.cpp:174-183 | if ids given out are not in use, exactly the new and stale sources are parsed; if there are any, all ids are saved, and of each source the time and the parse, which are new if it was parsed and as before if not, and if there are none only vanished paths go; the table says about each source in the tree what parsing it says and nothing else exactly if it did about every source taken for current and, if nothing was parsed, nothing was ever found in files that have gone |
| GRTags.GRTags.Update | src/GRTags.cpp:165-183 | the object keeps its database the union of parses from run to run, and paths, times, parses and table are after each run as for that run |
| GRTags.CurrentAreThereIf | src/GRTags.cpp:266-281 | it is right about those if files that had an id still have what was found in them and no new one meets with a leftover time |
| GRTags.LeftoverTimeHides | src/GRTags.cpp:330-343 | a database and a tree in which a new file is given the id and time of a vanished one, and is never parsed |
| GRTags.VanishedStays | src/GRTags.cpp:181-183 | a database whose one file has gone, and whose symbol stays in the table |
| GRUpdates.TableIsOfTreeIff | src/GRTags.cpp:165-183 | after any updates of an empty database, with honest modification times, the table an update leaves is that of its tree exactly if it happens to be right about the sources that are taken for current but were not parsed, or not visited by an update that saved since, or had vanished, and, if nothing was parsed, nothing was ever found in files that have gone |
| GRUpdates.UpdateAll | src/GRTags.cpp:165-183 | any updates of an empty database, up to the first that gives out an id in use: every one that parses something leaves the table of its tree, if no source meets with such a leftover time |
| GRUpdates.SkippedIsLost | src/GRTags.cpp:256-287 | two updates, of which the first filters out a source and the second takes it for current, although its symbols are gone |
| GRTags.AssignIds | src/Location.h:67-81 | two paths get the same id exactly if an id that follows the number of known paths was in use |
| GRTags.IdsCanCollide | src/Location.h:229-238 | a database and a tree in which they do |
| PathCodec.EncodePath | src/RTags.h:93-117 | the loop with its moving index and size encodes as the specification does |
| PathCodec.DecodePath | src/RTags.h:119-137 | so does the other |
| PathCodec.EncodeOneMore | src/RTags.h:93-117 | one more character adds an underscore for a slash, the marker for an underscore, and itself otherwise, unless it completes a marker |
| PathCodec.EncodeOfPlain | src/RTags.h:93-117 | a path without underscores and markers is itself, with an underscore for each slash |
| PathCodec.EncodeFailsIff | src/RTags.h:93-117 | encoding fails exactly on paths that contain the marker, and yields no slash |
| PathCodec.DecodeOfEncode | src/RTags.h:93-137 | decoding undoes encoding |
| PathCodec.EncodeOfDecodeIff | src/RTags.h:93-137 | encoding undoes decoding exactly for names without a slash |
| PathCodec.Bijection | src/RTags.h:93-137 | the two are inverse bijections between paths without the marker and names without a slash |

## Left out

- References.AllReferences: for classes, constructors and destructors only that the walk ends and lists nothing unreachable, because there a location that was listed directly is not walked any more.
- Wire.Connection.OnReadable: requires that the chunks fit the buffer; after a drop the assertion of `dataAvailable` need not hold.
- Cursors.FindMatchesScanIff: needs an empty table or a key at or below the location, because the lookup steps back from the first key otherwise.
- GRTags.Run: requires that ids handed out in the run are not those of paths that still exist; when that fails is said exactly, and shown, but not what the table then holds. GRUpdates.UpdateAll stops there.
- ThreadPool.Pool.Start: priorities below zero other than the one for threads of their own, which the unsigned comparison of the sort would put first.
- Timers.EventLoop.AddTimer: handles are unbounded, so they are never given out twice; the counter of the source overflows after 2^31 timers.
- Codecs.Deserializer.ReadList: a read past the end of the data is an answer rather than an assertion.
- `Project::unload`, the RTAGS_FILE_FILTER early return of index(), mVisitedFiles and the visited-file check of a job, job counters and log messages.
- Restoring into a live project: `ProjectIndex.Project` starts empty, and `ProjectFile` stands for itself.
- Diagnostics, fix-its, watched paths and the files newly seen by a merge.
- Reading and writing from threads other than the loop thread, and the order of signals of one connection among others.
- Everything clang does: cursor visiting, name building, parsing, and the completion job.
- Sockets, pipes, select, file watching, processes, paths and leveldb beyond what they answer.
- The pool's destructor, joining of stopped threads, and the mutex of a job.
- What `GRParser` makes of the contents of a file as text: its tokens are the input; names that begin below the letter A in the database order.
- Message contents, the queries that only print, configuration, logging and option parsing, which would add easy members.
