# Verified models of D++

D++ is a C++ library for Discord bots. This project models, in Dafny, the parts of the repository
that hold real state and branching, and proves what they promise.

**Object caches** (`include/dpp/cache.h`, `src/dpp/cache.cpp`). Every `cache<T>` owns a map from id
to pointer behind a shared mutex; all caches put replaced and removed objects into one global
deletion queue behind a second mutex, and a collector frees them later.

- `CacheLedger` is the atomic view: where every object ever stored is, action by action.
- `CacheObjects` is the code as it runs in one thread: classes, loops and in-place updates, proved
  against the functions of the ledger; `CacheDriver` drives several caches through any calls and
  shows that together they go through a run of the ledger.
- `CacheThreads` is the code as any number of threads run it, one memory access at a time: taking
  and releasing each mutex, looking up, writing the map, writing the queue, copying one element,
  deleting the old map, swapping the pointer. `CacheRefinement` proves that each step keeps the lock
  and map invariants and is one ledger action or none; `CacheLinearizability` that every history is
  linearizable; `CacheGuarantees` carries all of it to every execution and every reachable state;
  `CacheProgress` shows that the operations in progress can always be finished, `CacheCollections` what
  a whole collection achieves among other threads and when what a caller takes out of a cache is
  freed, `CacheAnswers` what find and count answer in terms of the stores and removes alone, and
  `CacheLateReturn` how much of the grace period is left when a lookup returns.

**Event collector** (`include/dpp/collector.h`, `include/dpp/timed_listener.h`,
`src/dpp/cluster/timer.cpp`, `src/dpp/cluster.cpp`). `CollectorRuns` is a machine driven by events,
timer passes, cancels, destruction and shutdown in any order; `CollectorObjects` holds the classes
that take it from input to input, and the reaction collector with its one reused buffer.

**Coroutine-header generator** (`buildtools/make_struct.php`). `StructScanner` is the three-state
line scanner; `HeaderComments` the backward comment scan that rewrites the shared header array, and
the parameter lookup that reads it afterwards, for any kind of line; `HeaderSyntax` the script's own
patterns and replacements on lines of text, and `HeaderPatterns` spells out what those match and
what they yield; `HeaderLookups` says of any header, from its lines as they stand in the file, which
lookups find what the header declares; `Generator` is the main loop that puts them together.

**Changelog generator** (`buildtools/changelog.php`). `ChangelogDedup` holds the two deduplication
passes, `ChangelogFiling` the filing of commits under headings and scopes, `ChangelogTable` the
script's own table of category names.

## Where the code and its documentation differ

The models follow the code. Two promises of the documentation, two expectations of the scripts and
one of the timer loop turn out not to hold as stated; what does hold is proved exactly:

- `cache::store` and `cache::remove` are documented to delete an object within the next 60 seconds
  (include/dpp/cache.h:90-93, 120-124). The collector frees an object only once it has been queued
  for more than 60 seconds (src/dpp/cache.cpp:60); `CacheLedger.GracePeriod` proves that it is never
  freed sooner.
- `collector` is documented to call `completed()` when the timeout is reached, when it is cancelled
  and when it is destroyed (include/dpp/collector.h:48-50, 144, 153). Stopping a timer only marks
  its handle; the stop callback runs when the timer next comes due, which after an ordinary expiry
  is a second full duration later, or at shutdown. `CollectorRuns.CompletedExactlyWhen` states
  exactly when `completed()` has run; a collector destroyed before that never has its list delivered.
  Worse, the callback still runs then, on a `this` that is gone (include/dpp/collector.h:94-98): it
  reads and may write a destroyed collector. `CollectorRuns.StopCallbackRunsOnce` says exactly when
  that happens, which it calls `late`.
- The parameters written for a coroutine wrapper are meant to be those the header declares, but the
  lookup reads a header in which comments have been rewritten, declarations included
  (buildtools/make_struct.php:115-116, 180-188): a line with a success remark is blanked, and a see
  tag breaks the line. `HeaderLookups.MisledLookup` is a header of two lines on which the lookup
  fails. `HeaderLookups.ParametersSurvive` says for every header exactly when it succeeds, from the
  declaring line alone: its text up to the first tag must still declare the function, with the same
  parameters, and no remark may stand in what the first rewriting keeps. Without tags on
  declarations that is: no success remark (`HeaderLookups.ParametersUnremarked`).
- `cluster::tick_timers` leaves its loop only by looking at the head of the timer queue
  (src/dpp/cluster/timer.cpp:63-72). If a pass takes out the last timer it looks at the head of an
  empty queue, which C++ leaves undefined. `CollectorRuns.QueueEmptiedExactlyWhen` says when a
  collector's timer is the one taken out: in every pass that runs its stop callback.
- A commit scope made of digits becomes an integer key of a PHP array and can meet a plain entry
  there, which ends the script (buildtools/changelog.php:91-99). `ChangelogFiling.FilingConserves`
  proves that filing fails exactly in that case and loses nothing otherwise.

`remove` erases by id but queues the pointer it was given (include/dpp/cache.h:134-137). Ownership
therefore rests on a contract with the callers, made explicit as `CacheLedger.Contract`, and
`OwnershipStep` shows that no weaker contract would do.

## Model

| member | source | states |
|---|---|---|
| CacheLedger.OwnershipStep | include/dpp/cache.h:101-139 | from a state in which every stored object is in exactly one place, an operation leaves such a state if and only if the caller obeyed the contract: storing only the cached pointer or one that nobody holds, removing only the cached pointer |
| CacheLedger.OwnershipConservation | include/dpp/cache.h:79-139 | over whole runs on any number of caches: every object ever stored is live in one cache under its own id, queued, freed once, or returned to its allocator, and exactly one of these, at every moment, iff every call obeys the contract |
| CacheLedger.RestoreIsNoOp | include/dpp/cache.h:101-115 | storing the cached pointer again changes nothing and queues nothing |
| CacheLedger.WrongPointerIsLost | include/dpp/cache.h:128-139 | a run in which removing a different pointer with the same id loses the cached object and queues one that was never stored |
| CacheLedger.GracePeriod | src/dpp/cache.cpp:52-67 | an object cached at some moment of a contract-obeying run is freed only by a collection whose clock reading is more than 60 seconds later, whatever happened in between |
| CacheLedger.GraceIsTight | src/dpp/cache.cpp:60-66 | a contract-obeying run in which an object replaced at time 0 is freed at time 61 |
| CacheLedger.QueueLeavesOnlyByFree | src/dpp/cache.cpp:56-67 | no entry leaves the deletion queue except by its object being freed |
| CacheLedger.QueuedStampIsFinal | include/dpp/cache.h:109-137 | under the contract a queued object's time stamp never moves, so its deletion is never postponed |
| CacheLedger.TakenOutIsStampedNow | include/dpp/cache.h:109-137 | an object that a store or a remove of an obeying caller takes out of a cache is queued with the time of that moment, and expires for exactly the clock readings more than 60 seconds later |
| CacheLedger.DueAfterSixtySeconds | src/dpp/cache.cpp:52-67 | in any obeying run, as long as such an object has not been freed, the collections that may free it are exactly those whose clock reading is more than 60 seconds after it was taken out |
| CacheLedger.HistoryRefinement | include/dpp/cache.h:101-161 | after any run a cache maps an id to the object of the latest store of that id that no later remove of that id follows, and to nothing otherwise |
| CacheLedger.CountRefinement | include/dpp/cache.h:171-174 | the count is the number of ids whose latest store stands |
| CacheObjects.Cache.Store | include/dpp/cache.h:101-115 | null does nothing; otherwise the id maps to the pointer given, a different pointer it mapped to before is queued at the current time, nothing else is queued and nothing freed |
| CacheObjects.Cache.Remove | include/dpp/cache.h:128-139 | null does nothing; otherwise the entry under the id goes and, if there was one, the given pointer is queued at the current time, and nothing is otherwise |
| CacheObjects.Cache.Find | include/dpp/cache.h:154-161 | the cached object of that id, or null exactly when there is none |
| CacheObjects.Cache.Count | include/dpp/cache.h:171-174 | the number of entries |
| CacheObjects.Cache.Rehash | include/dpp/cache.h:233-242 | for any iteration order the copy loop ends with a new map equal to the old one |
| CacheObjects.DeleteOneDue | src/dpp/cache.cpp:58-66 | one pass deletes and unqueues one entry that is due, or finds that none is |
| CacheObjects.DeleteDue | src/dpp/cache.cpp:56-71 | the repeated passes end with exactly the entries queued no more than 60 seconds before the clock reading, their stamps unmoved, and free each other object once |
| CacheObjects.GarbageCollection | src/dpp/cache.cpp:52-77 | a collection frees exactly what is due and leaves the contents of every cache as they were |
| CacheObjects.CollectionIsFrees | src/dpp/cache.cpp:52-67 | a collection is a run of single deletions of the ledger, all permitted at its clock reading |
| CacheDriver.Drive | include/dpp/cache.h:79-242 | any number of cache objects, driven by any sequence of store, remove, find, count, rehash, collection and passing time, go through a run of the ledger that does what the calls do, a collection leaving exactly the entries not over 60 seconds old, answer by it, share no map, and end as it does |
| CacheRefinement.MoveRefines | include/dpp/cache.h:101-242 | every step of every thread keeps the lock and map invariants and is, on the abstract state, one atomic action or nothing |
| CacheGuarantees.ExecutionRefinesRun | include/dpp/cache.h:101-242 | every interleaving of any number of threads is a run of the ledger |
| CacheGuarantees.ThreadedOwnership | include/dpp/cache.h:101-139 | in every interleaving, no object is lost, duplicated or freed twice at any moment iff every operation obeyed the contract at the instant it took effect |
| CacheGuarantees.ThreadedGrace | include/dpp/cache.h:154-161 | in every interleaving, an object looked up by find is freed only by a collection that read the clock more than 60 seconds after the lookup |
| CacheLateReturn.GraceFromReturnExactly | include/dpp/cache.h:154-161 | counted from the return of find: if it comes a given delay after the lookup, a given number of seconds after it are safe in all executions of obeying callers iff delay and seconds together are at most 60 |
| CacheGuarantees.Linearizable | include/dpp/cache.h:101-242 | every history of calls and returns has an order of its operations in which each took effect once between its call and its return, each returned what plain maps would return, and the maps end as the caches do |
| CacheLinearizability.RealTimeOrder | include/dpp/cache.h:101-242 | in such an order, an operation that returned before another was called comes first |
| CacheGuarantees.DeadlockFree | include/dpp/cache.h:101-242 | every reachable state with an unfinished operation has a thread that can take its next step |
| CacheProgress.FinishOne | include/dpp/cache.h:101-242 | a thread whose mutexes nobody else holds finishes its operation by its own steps alone, leaving the others where they are |
| CacheProgress.EveryOperationCanFinish | include/dpp/cache.h:101-242 | from every reachable state some schedule of the running threads finishes every operation in progress, without a new call |
| CacheGuarantees.AlwaysSafe | include/dpp/cache.h:233-242 | in no reachable state is a thread about to follow a deleted map, is a writer not alone with its cache, or are two threads on the deletion queue |
| CacheGuarantees.QueueEntryLeaves | src/dpp/cache.cpp:56-67 | among all steps only a collection's erase of an object it has just deleted, queued for over 60 seconds, takes an entry out of the queue |
| CacheCollections.CollectionFreesExactlyTheDue | src/dpp/cache.cpp:52-71 | whatever other threads do meanwhile, a collection that has ended its scan leaves in the queue exactly the entries with stamps no more than 60 seconds before its clock reading, unmoved, and has freed each other one once and nothing else |
| CacheCollections.CollectionReadsClock | src/dpp/cache.cpp:52-56 | the clock reading a collection goes by is the time at which it was entered, however long it waits for the deletion mutex |
| CacheCollections.TakenOutIsCollected | src/dpp/cache.cpp:52-71 | in every execution of obeying callers, an object that a store or remove took out of a cache has been freed, and once, when a collection entered more than 60 seconds later ends its scan; a collection entered sooner leaves it as it was |
| CacheAnswers.FindAnswers | include/dpp/cache.h:154-161 | in any legal order of operations a find gives the object of the latest store of its id that no remove of that id follows, and nothing iff there is none |
| CacheAnswers.CountAnswers | include/dpp/cache.h:171-174 | and a count gives the number of ids with such a store |
| CacheAnswers.AnswersInExecution | include/dpp/cache.h:101-174 | every execution has an order of its operations, each between its call and its return, by which its finds and counts answer so |
| CollectorRuns.Delivery | include/dpp/collector.h:87-100 | however inputs interleave, completed() is called at most once and then with exactly the objects selected from the events before the first stop, in order |
| CollectorRuns.CollectedSpelled | include/dpp/collector.h:87-93 | those objects, entry by entry: one for each event that the filter selects and that no expiry, cancel, destruction or shutdown precedes, in order of arrival |
| CollectorRuns.CompletedExactlyWhen | src/dpp/cluster/timer.cpp:57-101 | completed() has been called iff, while the collector was alive, the cluster shut down or a timer pass came at or after one duration (if cut short) or two (if left to expire) |
| CollectorRuns.DueSpelled | src/dpp/cluster/timer.cpp:71-98 | the callback falls due one duration after the start iff the collector was cancelled or destroyed before any tick found the duration over, and two durations after it otherwise |
| CollectorRuns.StopCallbackRunsOnce | src/dpp/cluster/timer.cpp:82-98 | the stop callback fires once in all, and finds the collector gone iff it fires only after the destruction |
| CollectorRuns.ListenerReleasedOnce | include/dpp/collector.h:146-157 | the timed listener is deleted at most once, and by the destruction at the latest |
| CollectorRuns.ExpiryFindsItsListener | include/dpp/timed_listener.h:80-102 | the expiry callback never runs after its timed listener has been deleted |
| CollectorRuns.QueueEmptiedExactlyWhen | src/dpp/cluster/timer.cpp:63-101 | a timer pass takes the collector's timer out of the queue iff the stop callback falls due in it and has not run before; with no other timer the source then reads the head of an empty queue |
| CollectorRuns.DestroyedBeforeDelivery | include/dpp/collector.h:146-157 | a run in which an event is collected, the collector cancelled and destroyed, and nothing is delivered |
| CollectorObjects.Collector.OnEvent | include/dpp/collector.h:88-93 | what the filter selects is appended, once; the list stays if it selects nothing |
| CollectorObjects.Collector.OnStop | include/dpp/collector.h:94-99 | the list is delivered unless it was before |
| CollectorObjects.Session.Dispatch | include/dpp/event_router.h:297-312 | an event reaches the collector only while its listener is attached |
| CollectorObjects.Session.StopCallback | include/dpp/collector.h:94-99 | the callback delivers on a live collector and otherwise only counts as late |
| CollectorObjects.Session.TickTimers | src/dpp/cluster/timer.cpp:57-101 | the loop takes the machine through as many expiries and stops as are due at that time, and reports exactly when it has taken the timer out, after which the source looks at the head of a queue that is empty unless there are other timers |
| CollectorObjects.Session.DeleteListener | include/dpp/timed_listener.h:98-102 | the listener detaches and its timer is marked once; a second deletion does nothing |
| CollectorObjects.Session.Cancel | include/dpp/collector.h:146-149 | cancelling releases the listener and delivers nothing |
| CollectorObjects.Session.Destroy | include/dpp/collector.h:155-157 | destruction releases a listener still there and delivers nothing |
| CollectorObjects.Session.ShutdownCluster | src/dpp/cluster.cpp:447-466 | shutdown fires the stop callback of a timer still queued |
| CollectorObjects.Play | include/dpp/collector.h:87-157 | a collector driven through any inputs ends as the machine does, so what it delivered is nothing or the selected events before the first stop |
| CollectorObjects.ReactionCollector.Filter | include/dpp/collector.h:303-317 | null exactly for reactions to another message than the one named; otherwise the one buffer, whose message, user, guild, member, channel, emoji and author are those of this event |
| CollectorObjects.WantedFields | include/dpp/collector.h:303-317 | what a wanted event contributes, field by field; every event is wanted if no message is named |
| CollectorObjects.ReactionCollector.OnEvent | include/dpp/collector.h:88-93 | a copy of the event's own data is appended exactly when the event is wanted |
| CollectorObjects.ReactionCollector.Receive | include/dpp/collector.h:268-317 | after any events the list holds each wanted event's own data in order, although every event overwrote the same buffer |
| CollectorObjects.WantedOfSplits | include/dpp/collector.h:303-317 | what is collected from two stretches of events is what is collected from each, one after the other |
| StructScanner.ScannerExactness | buildtools/make_struct.php:58-134 | the script avoids the fatal exit iff the lines are some sequence of other lines (blacklisted heads included) and whole functions with a usable name and return type |
| StructScanner.ScannerOutput | buildtools/make_struct.php:62-106 | the emitted definitions are then exactly those functions, in order, with their names, types and the parameter lists of the source lines |
| StructScanner.FunctionIsEmitted | buildtools/make_struct.php:62-130 | a whole function met between functions adds one definition at the end of the output: name and parameters of its head, type of its body |
| StructScanner.EmittedType | buildtools/make_struct.php:81-130 | so a function without a forced type whose last matching line asks for a list of T is emitted as returning T_map, for a vector T_list, and so on for the four patterns |
| StructScanner.AbsorbingFailure | buildtools/make_struct.php:73-84 | once a function has closed without a usable name or type, no continuation of the input changes anything |
| StructScanner.OutputOnlyGrows | buildtools/make_struct.php:104-130 | what any prefix emits is a prefix of what the whole input emits |
| StructScanner.LastMatchDecides | buildtools/make_struct.php:81-101 | without a forced type the last matching line of the body decides: the type of rest_request<T> is T, failing that rest_request_list<T> gives T_map, failing that rest_request_vector<T> gives T_list, failing that the type of the confirmation callback |
| StructScanner.NoMatchNoType | buildtools/make_struct.php:81-101 | a body without a match yields no type |
| StructScanner.ForcedTypeDecides | buildtools/make_struct.php:98-101 | a forced type that is neither empty nor "0" overrules every match but one on the last line of the body, which gives T, T_map, T_list or the confirmation type as above |
| StructScanner.ScanLines | buildtools/make_struct.php:58-134 | the loop yields definitions iff the lines are such a sequence, and then those of its functions, parameters as scanned |
| HeaderComments.GetComments | buildtools/make_struct.php:174-199 | finds the first declaring line; returns the block of the nearest comment opener above it; rewrites the lines from that opener (or from line 1) to the declaration and no others |
| HeaderComments.ScanBack | buildtools/make_struct.php:180-195 | the backward scan ends at the nearest opener, never looking at line 0 |
| HeaderComments.BlockIsTheComment | buildtools/make_struct.php:189-193 | the block is the comment's rewritten lines in order with the generator's lines before the last one, and of a comment without lines the generator's lines |
| HeaderComments.GetFullParameters | buildtools/make_struct.php:155-164 | the parameters captured on the first declaring line, or nothing exactly when no line declares the function |
| HeaderComments.LookupAgreement | buildtools/make_struct.php:115-116 | after a comment is taken the parameter lookup selects the same line iff the rewritten declaration is still one and no rewritten comment line became one |
| HeaderComments.RunAgreement | buildtools/make_struct.php:155-199 | a lookup after any number of comments depends only on the lines rewritten so far: it finds the original line iff, as rewritten, that one still declares the function and none before it came to |
| HeaderComments.RunUndeclared | buildtools/make_struct.php:155-199 | likewise a function no line declares stays unfound iff no line, as rewritten, came to declare it |
| HeaderComments.LineHistory | buildtools/make_struct.php:180-188 | at any time each header line is the original one rewritten for exactly the functions whose scans met it, in order |
| HeaderComments.LookupsNeverDrift | buildtools/make_struct.php:155-199 | if the header's lines lie in a set that rewriting for the run's functions keeps, and on which it makes and unmakes no declaration of them, every lookup selects the line it would have selected in the untouched header |
| HeaderComments.EmitOne | buildtools/make_struct.php:115-116 | one function's comment is taken, and its parameters are then the text captured on the first line that declares it in the rewritten header, or nothing if none does |
| HeaderComments.EmitAll | buildtools/make_struct.php:104-130 | for any header and list of functions: each comment comes from the header as the earlier ones left it, and each parameter text is what the first declaring line of the header then captures |
| HeaderComments.EmittedAsRead | buildtools/make_struct.php:104-130 | under the condition of LookupsNeverDrift, and if rewriting leaves the text of declarations alone, each parameter text is word for word that of the header as read |
| HeaderSyntax.HarmlessRewrite | buildtools/make_struct.php:183-188 | a line that does not begin as a declaration, or has no tag to replace, stays such a line, declares what it declared, with the same parameter text, whatever function it is rewritten for |
| HeaderSyntax.RemarkUnmakesDeclaration | buildtools/make_struct.php:183-188 | without the see and callback tags, a declaration survives the rewriting iff it carries no success remark |
| HeaderSyntax.HarmlessLinesAreSteady | buildtools/make_struct.php:155-188 | for any functions, the set of such lines meets the conditions of LookupsNeverDrift and EmittedAsRead with the script's own patterns |
| HeaderPatterns.DeclarationSpelled | buildtools/make_struct.php:159 | a line declares a function iff it is spaces, "void", spaces, the name, spaces, a parenthesis, text on one line that holds the parameter names one after another, "command_completion_event_t", spaces, "callback" and anything |
| HeaderPatterns.InOrderSpelled | buildtools/make_struct.php:159 | looking for each name as early as possible finds all of them iff the text is some text, the first name, some text, the second name, and so on |
| HeaderPatterns.DropCommaSpelled | buildtools/make_struct.php:160 | a captured text loses exactly one comma at its end with the spaces after it: base, a comma and spaces become base, any other text stays |
| HeaderPatterns.ParametersSpelled | buildtools/make_struct.php:159-160 | the parameters of a declaration are the longest text such a layout of the line has, without its final comma |
| HeaderPatterns.TextBeforeCallback | buildtools/make_struct.php:159-160 | so if nothing of the event type follows the callback parameter, the parameters are the text before it without the comma in between |
| HeaderPatterns.FullParametersSpelled | buildtools/make_struct.php:155-164 | the lookup yields that text for the first line of the header laid out as a declaration of the function, and nothing iff no line is |
| HeaderPatterns.OpensSpelled | buildtools/make_struct.php:189 | a line opens a comment iff it is any text, a slash, two stars and spaces |
| HeaderPatterns.SeeSpelled | buildtools/make_struct.php:184 | of the first see tag that text follows on its row, "@see x" becomes "@see dpp::cluster::" and the function, a new row, and " * @see x"; without one the line stays |
| HeaderPatterns.CallbackSpelled | buildtools/make_struct.php:185 | the first "@param callback " becomes, with the rest of its row, "@return ", the type and " returned object on completion"; without one the line stays |
| HeaderPatterns.RewriteSpelled | buildtools/make_struct.php:183-188 | a line loses its leading tabs, then the see tag is replaced, then the callback tag, and what then says "* on success " in any case becomes empty |
| HeaderLookups.RewriteAllSettles | buildtools/make_struct.php:183-188 | however often a header line is rewritten and for whichever functions, what it declares is settled by the first time: it is blank iff its kept text carries a success remark, and otherwise begins with its text before the first tag |
| HeaderLookups.LookupSurvives | buildtools/make_struct.php:115-199 | for any header and any functions with plain names, a function's parameters are looked up on the line that declared it in the header as read iff that line survives, a condition on its text alone, or is the first of the file |
| HeaderLookups.ParametersSurvive | buildtools/make_struct.php:115-199 | and they are the parameters of the header as read iff moreover the surviving text yields the same |
| HeaderLookups.UndeclaredStays | buildtools/make_struct.php:155-199 | a function the header as read does not declare is never found |
| HeaderLookups.ParametersUnremarked | buildtools/make_struct.php:115-199 | if no declaration carries a see or callback tag, whatever the names: the parameters are those of the header as read iff the declaring line carries no success remark or is the first of the file |
| HeaderLookups.MisledLookup | buildtools/make_struct.php:115-199 | a header of two lines that declares a function on the second, of which nothing is found after its own comment is taken |
| Generator.Generate | buildtools/make_struct.php:58-134 | definitions are written iff the source is accepted; then one for each of its functions, in order, under its name and type, with its comment, and with the parameters the first declaring line then yields if they are there and neither empty nor "0", else the scanned ones |
| Generator.AcceptedOnce | buildtools/make_struct.php:58-134 | the source determines the functions, however its lines are taken apart |
| Generator.ScriptWritesAsRead | buildtools/make_struct.php:115-125 | for any header: the full parameters of an emitted function are those the header declares iff the declaring line survives with its text or is the first of the file; a function the header does not declare gets the scanned ones |
| Generator.UntaggedHeader | buildtools/make_struct.php:115-125 | if no declaration carries a tag: iff the declaring line carries no success remark or is the first |
| Generator.HarmlessHeader | buildtools/make_struct.php:115-125 | if no line of the header both begins as a declaration and carries a tag or a remark, they always are |
| ChangelogDedup.CaseDedupKeepsFirsts | buildtools/changelog.php:69-70 | exactly the first line of each class of lines equal up to case is kept, in order and under its key |
| ChangelogDedup.CaseDedupIsExact | buildtools/changelog.php:69-70 | no two kept lines are equal up to case, and every line has a kept one equal to it up to case |
| ChangelogDedup.SameUpToCase | buildtools/changelog.php:70 | equal up to case means: of equal length and, character by character, equal or the two cases of one ASCII letter |
| ChangelogDedup.StripTakesOneLink | buildtools/changelog.php:74-77 | an entry strips to a base iff it is that base followed by one link; so the stripped form is unique and shorter |
| ChangelogDedup.LinkSpelled | buildtools/changelog.php:74 | a link is a space, "(#", one or more digits, and ")" |
| ChangelogDedup.RemoveFirst | buildtools/changelog.php:79-85 | the inner loop leaves exactly the other entries, in order |
| ChangelogDedup.RemoveLinkless | buildtools/changelog.php:72-86 | the nested loops leave exactly the entries that are not the stripped form of any original entry, in order |
| ChangelogDedup.Dedup | buildtools/changelog.php:69-86 | both passes on any list of subjects |
| ChangelogDedup.RemovedHasSurvivor | buildtools/changelog.php:72-86 | every removed entry has a survivor that extends it by one or more links |
| ChangelogDedup.ExtendsAddsLinks | buildtools/changelog.php:72-86 | extending means being the same text followed by one or more links |
| ChangelogDedup.EverySubjectSurvives | buildtools/changelog.php:69-86 | every commit subject is still represented, up to case and up to links at its end |
| ChangelogFiling.EachCommitIsFiled | buildtools/changelog.php:118-190 | a commit with a section is filed once under the heading the table first gives its first tag's name (Misc if none), with that tag's scope, unless the text begins with "bump" or "version bump"; before that once under the breaking changes, same scope and text, for each further tag whose name the table first gives that heading; a commit without a section is filed under the heading of the first name that it begins with as a word (Misc if none), unless it has no space, is a merge or such a bump |
| ChangelogFiling.CategoryIsFirstNamed | buildtools/changelog.php:146-152 | a name has the heading of the first row of that name, and none iff there is no such row |
| ChangelogFiling.KeywordIsFirstBegun | buildtools/changelog.php:165-177 | a text has the heading of the first row whose name it begins with, in any case, before a space, and none iff there is no such row |
| ChangelogFiling.UnlistedSpelled | buildtools/changelog.php:167 | left out are texts without a space, those that begin with "Merge branch ", "Merge pull request " or "Merge remote-tracking branch ", and those that begin with "bump" or "version bump" in any case |
| ChangelogFiling.CountBreakingCounts | buildtools/changelog.php:138-145 | the number of breaking entries is the number of further tags whose first row is a breaking one |
| ChangelogTable.TableSpelled | buildtools/changelog.php:20-57 | in the script's table a name leads to a heading iff it is one of the names listed for that heading; no name leads to two |
| ChangelogTable.WordHeading | buildtools/changelog.php:20-57 | with that table a commit without a section goes under a heading iff it begins with one of its names as a word, or under Misc if it begins with no name, whatever the order of the rows |
| ChangelogFiling.ScopeKeySpelled | buildtools/changelog.php:91-97 | a scope is an integer key iff it is how PHP writes a positive integer, and that integer; any other scope is its own key |
| ChangelogFiling.NextIndexIsNext | buildtools/changelog.php:99 | a plain entry takes key 0 if no integer key is in use under the heading, else one more than the largest |
| ChangelogFiling.ItemSpelled | buildtools/changelog.php:91-99 | an entry is printed plainly iff its scope is missing, empty or "0", and else under its scope as a key, with its own text |
| ChangelogFiling.FilingConserves | buildtools/changelog.php:88-100 | filing under a heading fails iff a numeric scope is a key that an earlier plain entry took; otherwise the heading lists each filing, in order within its scope |
| ChangelogFiling.OutputConserves | buildtools/changelog.php:209-223 | the nested output loops list exactly the multiset filed, in order within each scope |
| ChangelogFiling.NamedScopesNeverCollide | buildtools/changelog.php:91-97 | without numeric scopes filing cannot fail |
| ChangelogFiling.NumericScopeCollides | buildtools/changelog.php:91-99 | with the script's own category table, the commits "break: drop a", "break: drop b", "break(1): drop c" make filing fail |
| ChangelogFiling.Listing.AddChange | buildtools/changelog.php:88-100 | one more filing is held under its heading and all others are kept, or that heading cannot take it |
| ChangelogFiling.Listing.AddBreaking | buildtools/changelog.php:138-145 | one breaking entry, under the first tag's scope, for each further tag that says so |
| ChangelogFiling.Listing.Guess | buildtools/changelog.php:163-189 | the loop over the table leaves an unsectioned commit out exactly by the rules above, and otherwise finds the heading of the first name that it begins with as a word, Misc if there is none |
| ChangelogFiling.Listing.FileCommit | buildtools/changelog.php:118-189 | all filings of a commit are held and the earlier ones kept, or some heading cannot take them |
| ChangelogFiling.Listing.FileCommits | buildtools/changelog.php:102-190 | any list of commits is filed as the rules say, and the script dies iff some heading meets a collision |
| ChangelogFiling.ListHeading | buildtools/changelog.php:212-221 | the nested loops go through a heading's groups and plain entries in order |

## Left out

- CacheGuarantees.ThreadedGrace: the 60 seconds count from the lookup under the lock; counted from the return only what the delay has left of them holds, which GraceFromReturnExactly proves.
- HeaderComments.LookupsNeverDrift: asks for a set of lines that rewriting treats well, as do EmittedAsRead and Generator.WrittenAsRead; the exact condition, for any header, is HeaderLookups.ParametersSurvive.
- HeaderSyntax.HarmlessRewrite: names and types are plain text; a pattern or replacement that reads a character of theirs as special is not modelled.
- HeaderPatterns.DeclarationSpelled: the function's name begins with no space, as in ParametersSpelled, TextBeforeCallback and FullParametersSpelled; the scanner would capture such a name only from a space after `cluster::`.
- HeaderLookups.LookupSurvives: function names and return types have no at sign, star or newline and do not contain the event type's name; ParametersUnremarked needs none of that.
- ChangelogFiling.FilingConserves: integer keys are unbounded; a scope beyond PHP's largest integer would stay a string key.
- ChangelogDedup.StripTakesOneLink: a subject is one line, so the end-of-line anchor never matches before a final newline.
- Pointers stand for allocations: an address reused after being freed is a new object here, and an object's id is fixed.
- The threads share memory sequentially consistently; every shared access of the modelled code is under a mutex, and the mutexes guarantee no order among waiters.
- A cache is destroyed only when no operation on it is in progress, as C++ demands of its callers.
- After its deletion loop the collector rehashes five caches; in the threaded model those are further rehash operations of the same thread.
- cache::get_container, get_mutex and bytes, and the lazily created global caches: raw access and accounting.
- Ticks of other timers, what follows the read of an emptied timer queue (QueueEmptiedExactlyWhen says when that happens), and a cancel from inside an event handler or from completed(): the collector model has one timer and callbacks that do not re-enter.
- Widths of time_t, uint64_t and size_t: times, counts and handles are unbounded.
- The other collectors of collector.h: their filters are plain projections.
- Splitting of C++ parameter lists (a parameter of Generator.Generate), the parameter types, joining of comment lines into one string, the generator classes and the saving of files.
- The regular expressions of both PHP scripts, except those applied to the header, pull request links, category words, version bumps and merge commits: lines and commits come with what the patterns capture.
- The wording fixes of commit subjects, the order of headings, the final filter and the formatting of the printed changelog.
- Discord events, REST calls, voice, sockets, JSON and the other parts of the library.
