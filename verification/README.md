# Cerverus, verified model

A Dafny model of the Cerverus web server: its event loop over io_uring, the protothreads that serve
files, the file cache, the HTTP parser and printer, the router with its route trie, and the containers
underneath. `dafny verify dfyconfig.toml` checks everything.

How the files build on each other:

- `Wrappers` (the option type).
- `Probing`, `HashMap`: the open-addressing table, first as functions on a sequence of slots, for an
  arbitrary hash function, then as loops over an array equated with them.
- `DoublyLinkedList`: heap nodes with a ghost sequence.
- `LruCache`: what an LRU cache is meant to be (`RecencyList`), the cache as shown with exact conditions,
  and a repaired twin.
- `Request`, `HeadInFull`, `RequestParser`, `Receiving`: the grammar of a request head (sections 2.2, 3 and
  5 of RFC 9112, as far as the code implements them), the same written out in bytes, the parser, and the
  receive loop over chunks.
- `Response`: printing, and the header round trip.
- `SpliceAll`: the fill/drain machine by itself.
- `EventLoop`, `EventLoopSafety`: the event loop as a state machine whose steps complete any operation
  in flight with any result the kernel may give; its invariant over every run.
- `Delivery`, `DeliverySteps`: who answers for which descriptor, and how each handler moves a chain from
  one stage of its delivery to the next.
- `Frames`: what the routines of a chain leave alone, with no invariant needed.
- `OpenRecords`, `DeliveryRuns`: what the records of files hold until they are opened, and what reaches a
  client over whole runs.
- `Completions`: what every completion leads to in every reachable state, errors included.
- `FileNames`: the name a file's record carries and the type its response announces.
- `CacheTrace` (how the event loop uses the cache, and when the cache as shown serves it), `ServedFile`
  (which file a chain serves), `FailedOpen` (what a failed open leads to), `ZeroDescriptor` (how
  descriptor 0 comes to be shared), `Connections` (accepts and receives across everything else).
- `Route`, `RouteTable`, `RouteTrie`, `UriRoutes`, `Router`: routes, the flat list a trie stands for, the
  trie on the heap, static routing in terms of URIs, and what a parsed request sets going.
- `DArray`, `BitArray`, `PoolAllocator`: the supporting containers.

Three departures of the cache code from its intent are kept as they are: moving the tail node to the
front leaves the tail pointer behind; the index never reuses a tombstone and the result of setting it is
ignored; adding a label that is present does not stop. `LruCache.Get` and `LruCache.Add` say exactly what
the code does wherever its tail pointer is and whatever its index has lost. Members named `...Repaired`
are the twin that mends them; nothing in the source corresponds to the repair itself.

That the cache as shown answers a run as an LRU cache should is false, in two ways. A get of the last pair
leaves the tail pointer behind, and a later add to a full list evicts the pair it is at
(`RecencyList.WrongPairWitness`). An add that finds no slot in the index leaves a pair that no get finds
(`RecencyList.LostLabelWitness`); with 23 slots that concerns every add from the 24th on.
`RecencyList.ShownExactly` and `LruCaching.RunAsShown` give the exact condition on the operations, and
`CacheTrace.ShownAnswers` and `CacheTrace.ReplayAsShown` the same for what a run of the event loop asks.
The event loop is written over the intended cache. Its results, delivery included, are about the server
as shown on the runs of which that condition (`CacheTrace.ShownServes`) holds.

`ServedFile` takes what successful opens of the path in question yield to be one content; `DeliveryRuns`
needs no such assumption and speaks of the content a descriptor had when it was opened.

The hypotheses of the delivery results, and what shows that the source needs them:

- the chain's client is not descriptor 0. A failed open leaves a record with descriptor 0 in the cache,
  and its eviction closes 0, whoever has it by then (`ZeroDescriptor.TwoChainsShareZero`). The server
  starts with standard input, or failing that its ring, at 0; the first such eviction frees it.
- no open and no statx of the path in question has failed, and no open of it has returned descriptor 0.
  After a failure its record is cached with a wrong descriptor or size and served (`FailedOpen`). Opens of
  other paths may fail, and other chains may have descriptor 0.
- of the chain in question, the completions carry no error, the file is at most 64 KiB, as the offset of
  a fill is never advanced (`SpliceAll.DeliveredIsFile`), its fills and drains are full, as a short
  drain can make the next fill length negative (`SpliceAll.ShortDrainLosesCount`), and its file is not
  evicted while it is being sent, as the descriptor would be closed.

Where code and documentation disagree the model follows the code. The project's README says that only
GET requests are allowed; all nine methods are parsed and dispatched, and "/" is served for any of them.
The comment on `request_parse` (webserver/src/network/http/request.h:9) speaks of -1 for missing headers;
-1 means a malformed head or 4096 bytes without a blank line, and a head without field lines is fine. The
NOTE above `trie_add_route` calls the search "first match"; it is greedy and does not backtrack.

## Model

| member | source | states |
|---|---|---|
| `Probing.ProbeAtIsModular` | webserver/src/core/containers/hashmap.c:55-58 | the i-th slot of the probe loop is the (start + i) mod size of the source, also past the wrap-around |
| `Probing.LookupIsMapLookup` | webserver/src/core/containers/hashmap.c:83-99 | for any hash function, a lookup on a well-formed table returns exactly what the finite map it stands for holds |
| `Probing.StoreIsMapUpdate` | webserver/src/core/containers/hashmap.c:54-81 | a set succeeds iff the key is present or a never-used slot is left; it updates that key and no other, and uses up one such slot iff the key was absent |
| `Probing.RemoveIsMapRemoval` | webserver/src/core/containers/hashmap.c:120-138 | a delete succeeds iff the key is present; it removes that key, no other, and frees no slot |
| `Probing.HistoryInvariant` | webserver/src/core/containers/hashmap.c:54-138 | after every history of sets and deletes: keys unique, no gap on the probe path of a live key, every key has the value last written and not deleted, used-up slots = successful sets of absent keys |
| `Probing.GetReturnsLastWritten` | webserver/src/core/containers/hashmap.c:83-99 | a get after any history returns the last value set and not since deleted |
| `Probing.SlotBudget` | webserver/src/core/containers/hashmap.c:54-81 | after any history a set of an absent key succeeds iff fewer than `size` such sets have succeeded, whatever was deleted: tombstones are never reused |
| `Probing.RehashKeepsMap` | webserver/src/core/containers/hashmap.c:101-118 | rehashing keeps the whole map, leaves no tombstone, and exactly size minus live entries slots unused; no inner set fails |
| `HashTable.HashMap.Set` | webserver/src/core/containers/hashmap.c:54-81 | the loop over the array computes the slot-level store, and so the map update and the budget above |
| `HashTable.HashMap.Get` | webserver/src/core/containers/hashmap.c:83-99 | the loop computes the slot-level lookup and the map lookup |
| `HashTable.HashMap.Delete` | webserver/src/core/containers/hashmap.c:120-138 | the loop computes the slot-level removal and the map removal |
| `HashTable.HashMap.Rehash` | webserver/src/core/containers/hashmap.c:101-118 | the new table has the same map, no tombstone, and all slots unused but one per live key |
| `DoublyLinkedList.LinkedList.Get` | webserver/src/core/containers/doubly_linked_list.c:47-73 | the node at an index, null for every index out of bounds, negative ones included |
| `DoublyLinkedList.LinkedList.PushFront` | webserver/src/core/containers/doubly_linked_list.c:76-96 | prepends one new node; keeps the list valid iff it was valid or empty |
| `DoublyLinkedList.LinkedList.PushBack` | webserver/src/core/containers/doubly_linked_list.c:98-120 | appends one new node behind the node the tail pointer is at, wherever that is; whatever stood behind it drops out of the list but not out of its length; the list is valid afterwards iff it was before |
| `DoublyLinkedList.LinkedList.PopHead` | webserver/src/core/containers/doubly_linked_list.c:123-143 | removes and returns the first element of any linked list, nothing on an empty one; valid afterwards iff valid before, wherever the tail pointer is |
| `DoublyLinkedList.LinkedList.PopTail` | webserver/src/core/containers/doubly_linked_list.c:145-165 | removes and returns the element the tail pointer is at, the last one iff the pointer is right; what stands behind it drops out too. Only a tail pointer at the head of several nodes is excluded, where the source follows a null `prev` |
| `DoublyLinkedList.LinkedList.MoveToFront` | webserver/src/core/containers/doubly_linked_list.c:167-180 | as shown: the forward order is always the intended one, the tail pointer never changes, and a valid list stays valid iff the node is the head or not the tail |
| `DoublyLinkedList.LinkedList.MoveToFrontRepaired` | webserver/src/core/containers/doubly_linked_list.c:167-180 | repaired twin: the intended order and a valid list, always |
| `DoublyLinkedList.MovedAt` | webserver/src/core/containers/doubly_linked_list.c:167-180 | what moving to the front means position by position; distinct elements stay distinct |
| `DoublyLinkedList.WalksMirror` | webserver/src/core/containers/doubly_linked_list.c:76-180 | on a list whose links are right, the walk back from the tail is the reverse of the walk from the head iff the tail pointer is right |
| `DoublyLinkedList.StaleTailWitness` | webserver/src/core/containers/doubly_linked_list.c:167-180 | a concrete list of two on which the move leaves the tail pointing at the head |
| `DoublyLinkedList.StaleTailLosesElement` | webserver/src/core/containers/doubly_linked_list.c:145-165 | a concrete move, push and pop, as the cache makes them, that return the wrong element and lose the last one |
| `RecencyList.RunInvariant` | webserver/src/core/containers/LRU_cache.c:35-73 | the intended cache never holds a key twice nor more than `size` pairs, over every run |
| `RecencyList.RecentFirst` | webserver/src/core/containers/LRU_cache.c:35-73 | over every run the list is in strict order of use, the latest first, a use being a get that finds its key or an add of an absent one, and each pair has the value stored last |
| `RecencyList.EvictsLeastRecent` | webserver/src/core/containers/LRU_cache.c:63-70 | what is evicted was used longest ago of all that is listed; the list was full, and every other pair stays |
| `RecencyList.AnswersStored` | webserver/src/core/containers/LRU_cache.c:35-73 | after any run a get answers with the value stored last iff its key is listed and loses no pair; an add of an absent key lists it in front and evicts iff the list is full |
| `RecencyList.ShownExactly` | webserver/src/core/containers/LRU_cache.c:35-73 | over every run without a duplicate add, however many adds, the cache as shown (tail pointer where the code leaves it, index that never gives a slot back) gives the intended answers and evicts the intended pairs iff at each add to a full list the designated pair (the first one added; after an eviction, the new last one) is the last, and each get of a listed key is of one whose latest add was among the first `slots` adds |
| `RecencyList.ShownDiffers` | webserver/src/core/containers/LRU_cache.c:35-73 | otherwise some answer that both caches give is different, whatever comes later |
| `RecencyList.WrongPairWitness` | webserver/src/core/containers/LRU_cache.c:35-73 | the first way to fail, for any keys: two adds, a get of the last pair, and the next add evicts that pair instead of the other |
| `RecencyList.LostLabelWitness` | webserver/src/core/containers/LRU_cache.c:35-73 | the second way to fail, for any keys: with one slot, the second key is listed but a get of it finds nothing |
| `LruCaching.LruCache.Get` | webserver/src/core/containers/LRU_cache.c:35-47 | as shown, with the tail pointer at any node and labels possibly missing from the index: what the index has is returned and moved to the front, what it lacks is not found; with a full index, answer and new order are the intended ones; the cache stays valid iff the pair found was not the last of two or more |
| `LruCaching.LruCache.Add` | webserver/src/core/containers/LRU_cache.c:49-73 | as shown, with the tail pointer at any node and labels possibly missing from the index: prepends; when full, drops the pair the tail pointer is at and all behind it, hands that pair to the eviction handler and forgets its label; labels the new node iff the label is there or a slot is left; exactly when the cache is fit to go on, when its index is right and when it is valid |
| `LruCaching.LruCache.GetRepaired` | webserver/src/core/containers/LRU_cache.c:35-47 | repaired twin: refines the intended get unconditionally |
| `LruCaching.LruCache.AddRepaired` | webserver/src/core/containers/LRU_cache.c:49-73 | repaired twin (stops on a present label, rehashes when the index is full): refines the intended add unconditionally |
| `LruCaching.IndexAfterAdd` | webserver/src/core/containers/LRU_cache.c:63-72 | the index maps exactly the listed keys to their own nodes after an add iff the set found a slot and the key was absent or the evicted one |
| `LruCaching.RunAsShown` | webserver/src/core/containers/LRU_cache.c:35-73 | the code as shown, run on any operations at all, duplicate adds and lost labels included, gives the answers of its list model up to the eviction of a wrong pair, if there is one; so, without a duplicate add, the intended ones iff the condition of `ShownExactly` holds |
| `LruCaching.RunRepaired` | webserver/src/core/containers/LRU_cache.c:35-73 | the repaired twin answers every run as the intended cache does |
| `Request.ParsesExactlyTheGrammar` | webserver/src/network/http/request.c:53-135 | a positive result n with these slices iff the first n bytes are method, space, URI, space, HTTP/1.1, line end, field lines with a name before the first colon, blank line |
| `Request.HeadUnique` | webserver/src/network/http/request.c:111-135 | no buffer starts with two different grammatical heads |
| `HeadInFull.AcceptedExactly` | webserver/src/network/http/request.c:53-135 | in bytes, no parsing function named: a positive result n with this method, URI and list of fields iff the first n bytes are one of the nine method names, a space, a URI without spaces, " HTTP/1.1" and its line end, one line "name:" blanks value blanks per field, and the blank line, each name non-empty and without colon, each value without outer blanks |
| `Request.IncompleteExactly` | webserver/src/network/http/request.c:115-117 | the result is zero iff there are fewer than 4096 bytes and no blank line among them |
| `Request.TrimExactly` | webserver/src/network/http/request.c:94-98 | a value trimmed is t iff it is spaces and tabs, t, spaces and tabs, where t is empty or has a non-blank at both ends |
| `Request.FallbacksUnreachable` | webserver/src/network/http/request.c:86-122 | once the blank line is found, the missing-line-end fallbacks are never taken |
| `Request.LineEndFound` | webserver/src/network/http/request.c:86-88 | in a terminated section every line has its end, and what follows it is terminated again |
| `Request.RawFieldsComplete` | webserver/src/network/http/request.c:81-106 | every list of valid field lines is read back as itself |
| `Request.RawFieldsSound` | webserver/src/network/http/request.c:81-106 | whatever is accepted is the concatenation of the lines reported, each with a non-empty name |
| `RequestParser.ParsedRequest.ParseStatusLine` | webserver/src/network/http/request.c:53-79 | accepts iff the specification does, with its method and URI |
| `RequestParser.ParsedRequest.ParseHeaders` | webserver/src/network/http/request.c:81-106 | the pointer-advancing loop computes the specified fields or fails where the specification does; in bytes: of a section of whole lines, the i-th line is the i-th name, a colon, and the i-th value with any blanks around it, and it fails only if no fields make up the section |
| `RequestParser.ParsedRequest.Parse` | webserver/src/network/http/request.c:111-135 | the return code and every field of the request, the empty body slice behind the head included, are those of the specification; in bytes: a positive code is the length of a head with this method, URI and fields, 0 means fewer than 4096 bytes without a blank line, -1 that the bytes begin with no head |
| `RequestParser.ParsedRequest.GetHeaderValue` | webserver/src/network/http/request.c:144-151 | the value of the first field whose name is the one asked for, letter by letter in either case, nothing if none is |
| `Receiving.PositiveStable` | webserver/src/network/http/request.c:111-135 | a positive result is unchanged by appending bytes |
| `Receiving.IncompletePrefixes` | webserver/src/network/http/request.c:115-117 | a zero result implies zero on every prefix |
| `Receiving.PrefixVerdict` | webserver/src/network/http/request.c:111-135 | the verdict on every prefix of a stream, before and after its blank line is in |
| `Receiving.ChunkingIrrelevant` | webserver/src/network/IO/async_io.c:150-183 | for a stream of any length: every chunking that fits the room offered reaches the verdict on the whole stream, with the same head, iff the blank line ends within 4096 bytes or the head is malformed; and all chunkings lead to the same result iff that holds or the blank line ends beyond the 8192 bytes a buffer can hold |
| `Receiving.TwoChunks` | webserver/src/network/IO/async_io.c:150-183 | otherwise the stream cut at 4096 is dropped, and with its whole head in one chunk, if that fits 8192 bytes, it is dispatched |
| `Receiving.RoomStays` | webserver/src/network/IO/async_io.c:142-146 | the allocation made for the first receive, 8192 bytes, lasts for the whole exchange, so a buffer never exceeds it and the 16 KiB limit is never reached |
| `Receiving.LongPathDependsOnChunking` | webserver/src/network/IO/async_io.c:150-183 | a concrete request, a GET with a path of 5000 letters, whose fate depends on the chunking, both chunkings fitting the room offered |
| `Response.DecimalRoundTrip` | webserver/src/network/routing/router.c:102 | the printed length reads back as the number |
| `Response.DecimalDigits` | webserver/src/network/http/response.c:55 | the digits of a number, written out: the last one stands for the units, those before it for the tens |
| `Response.CStringExactly` | webserver/src/network/http/response.c:55-60 | a "%s" prints r iff r has no NUL and is all of the string or what stands before its first NUL |
| `Response.SerializeInFull` | webserver/src/network/http/response.c:48-70 | the whole response in bytes, for all heads, fields and bodies: "HTTP/1.1 ", the code, the reason, one line "name: value" per field, the blank line, the body; nothing at all for an unknown version |
| `Response.ResponseObject.Print` | webserver/src/network/http/response.c:48-70 | the loop prints what `SerializeInFull` writes out: status line, one line per field in order, the blank line and the body |
| `Response.ResponseObject.AddHeader` | webserver/src/network/http/response.c:28-30 | adds one header behind those there are |
| `Response.HeaderRoundTrip` | webserver/src/network/http/response.c:57-61 | parsing the printed header section gives back the very same list iff every name is non-empty without colon, line end or NUL and every value without line end, NUL or outer blanks |
| `Response.ParsedIsSafe` | webserver/src/network/http/request.c:90-101 | what the parser reports survives being printed and parsed again, if the bytes hold no NUL |
| `SpliceAll.SpliceAllContext.OnCompletion` | webserver/src/network/IO/async_io.c:283-305 | the context is updated as specified, with the wrap-around of its fields, and the end is signalled as specified |
| `SpliceAll.StepConserves` | webserver/src/network/IO/async_io.c:259-305 | a step whose fill cannot bring more than is left keeps delivered + in pipe + unread equal to the file size and the pipe within 64 KiB, lowers 2 * nbytes + in_pipe by its result, and signals the end iff everything has been delivered |
| `SpliceAll.FillRequest` | webserver/src/network/IO/async_io.c:275-276 | the fill length is non-negative, and the length asked for no more than what is left, iff in_pipe <= nbytes |
| `SpliceAll.DrainRequest` | webserver/src/network/IO/async_io.c:268-270 | a drain asks for all that is in the pipe |
| `SpliceAll.RunConserves` | webserver/src/network/IO/async_io.c:259-305 | the conservation law and the measure over every run whose fills fit |
| `SpliceAll.SignalledOnce` | webserver/src/network/IO/async_io.c:291-296 | over every run whatsoever: one splice is in flight until the end has been signalled, none from then on, so the end is signalled at most once, and then with nothing left to read and nothing in the pipe |
| `SpliceAll.ShortDrainLosesCount` | webserver/src/network/IO/async_io.c:275-305 | the condition is exact: in any accounted-for state, the kernel has an answer, within the length asked for and the room in the pipe, after which the count is lost iff the fill in flight does not fit: its length has wrapped and the pipe has room for more than is left |
| `SpliceAll.ShortDrainWitness` | webserver/src/network/IO/async_io.c:275-305 | the smallest instance: a two-byte file of which one byte is drained first |
| `SpliceAll.DeliveredIsFile` | webserver/src/network/IO/async_io.c:272-303 | when every splice is full, as many bytes arrive as the file has, and they are the file iff it repeats its first 64 KiB, because the offset never advances |
| `SpliceAll.SmallFileRepeats` | webserver/src/network/IO/async_io.c:272-277 | files of at most 64 KiB meet that condition |
| `EventLoopSafety.StepSafe` | webserver/src/network/IO/async_io.c:113-342 | every handler, with any result the kernel may give, keeps the invariant |
| `EventLoopSafety.RunSafe` | webserver/src/network/IO/async_io.c:344-365 | the invariant holds in every reachable state, for every order of completions |
| `EventLoopSafety.OperationsMatchLeaves` | webserver/src/network/IO/async_io.c:61-73 | in every reachable state the operations carrying a protothread correspond one to one to the suspended leaf protothreads |
| `EventLoopSafety.CallerChainsEnd` | webserver/src/core/util/protothread.h:24-46 | callers are live, have no caller of their own and wait for exactly this child: chains are acyclic |
| `EventLoopSafety.WaitsResumedOnce` | webserver/src/core/util/protothread.h:34-46 | over every run waits and resumptions of each protothread alternate; error exits, resubmissions and cache hits included. That an error does resume its waiter is `Completions.ErrorResumes` |
| `Completions.ErrorResumes` | webserver/src/network/IO/async_io.c:61-73 | in every reachable state, a completion with an error of any operation that has a waiter: the first thing logged is that it is resumed, no client gets a byte, and no operation of that kind is in flight for it any more |
| `Completions.SendLeads` | webserver/src/network/IO/async_io.c:218-234 | any completed send: the client gets the bytes counted and no other client any; unsent bytes are sent again for the same waiter; after the last one, and after an error, the waiter is resumed and gone, and its root waits at the body with a splice of its own file to its own client in flight |
| `Completions.SpliceLeads` | webserver/src/network/IO/async_io.c:283-305 | any completed splice: the client gets what was drained and no other client any; the machine goes on for the same waiter, or, after the last drain and after an error, the waiter is resumed and gone, and its root waits for the close of its client, which is in flight |
| `Completions.OpenLeads` | webserver/src/network/IO/async_io.c:197-204 | any completed open or statx resumes its waiter; a path that is cached by now is served from the cache, an open is otherwise followed by the statx of its descriptor, which is 0 after an error, and a statx by the head of the record, cached as it then is |
| `Completions.CloseLeads` | webserver/src/network/IO/async_io.c:316-321 | any completed close takes its descriptor away and submits nothing; if a chain waits for it, the chain is resumed and gone |
| `EventLoopSafety.NoDuplicateAdd` | webserver/src/network/IO/async_io.c:367-398 | over every run, whatever opens of one path overlap, the labels of the intended cache stay distinct and at most 16, and adding a label that is present, which would be a fault, does not happen; `CacheTrace.CacheFollowsTrace` states it of the adds themselves, and `CacheTrace.ShownServes` is what it takes for the cache as shown |
| `EventLoopSafety.Server.constructor` | webserver/src/network/server.c:80-90 | the state with the first accepts submitted satisfies the invariant |
| `EventLoopSafety.Server.Process` | webserver/src/network/IO/async_io.c:344-365 | the loop over the completion ring is the composition of the steps and keeps the invariant |
| `Connections.AcceptsConserved` | webserver/src/network/IO/async_io.c:122-128 | over every run, accepts in flight + accepts that failed = accepts submitted at the start: a successful one is replaced at once, a failed one never |
| `Connections.AcceptLeads` | webserver/src/network/IO/async_io.c:122-128 | a failed accept submits nothing; any other a receive on the new connection with an empty buffer, and the next accept |
| `Connections.ReceivesConserved` | webserver/src/network/IO/async_io.c:150-183 | over every run, receives in flight + receives that were a last one = connections accepted, where a last one is the end of the stream, an error, or bytes that are 4096 or more or hold a blank line |
| `Connections.RecvEnds` | webserver/src/network/IO/async_io.c:154-158 | a receive that ends the stream or fails takes its operation away in every reachable state, whatever is in the buffer, and changes nothing else |
| `Connections.RecvLeads` | webserver/src/network/IO/async_io.c:160-183 | any other completed receive, in terms of the bytes received so far: short of 4096 and without a blank line, they are received into again; if they begin with a head whose URI is "/", a chain for the index page is started on this client, sending it from the cache or opening it; the same for a GET with a dot and a public file; and nothing happens for any other head or for no head |
| `Connections.BufferIsOwnStream` | webserver/src/network/IO/async_io.c:130-148 | whatever else completes in between, the buffer of a receive in flight is what its own connection has sent so far, undecided, and its chunks fit the room offered |
| `Connections.ChunksDecide` | webserver/src/network/IO/async_io.c:150-183 | what a completed receive leads to is what the receive loop makes of the chunks of that connection alone; `Connections.RecvEnds` and `Connections.RecvLeads` say it in bytes |
| `Connections.StreamDecides` | webserver/src/network/IO/async_io.c:150-183 | end to end: however a stream of any length is cut and whatever other connections do, once its last chunk is in, the connection is dealt with as the whole stream deserves, if its blank line ends within 4096 bytes or its head is malformed |
| `Frames.DeliverGrows` | webserver/src/network/IO/async_io.c:61-73 | a completion removes its own operation and no other, and brings about no accept and no receive |
| `CacheTrace.CacheFollowsTrace` | webserver/src/network/IO/async_io.c:367-398 | over every run, the intended cache, asked exactly the lookups and adds the run performs, gives the answers the run has gone by (files found, entries evicted) and ends up as the cache of the event loop, and every add finds its label absent |
| `CacheTrace.AnswersAreUsed` | webserver/src/network/IO/async_io.c:367-398 | these answers are what a step goes by: a file found is the one whose headers the chain goes on to send, an entry evicted the one whose descriptor is submitted for closing |
| `CacheTrace.ShownAnswers` | webserver/src/network/IO/async_io.c:367-398 | over every run and for every number of slots, the cache as shown, asked what the run asks, gives the answers the run has gone by iff `ShownServes` holds: at each add to a full list the designated entry is the last, and no lookup is of a label that found no slot; it then ends up with the same entries |
| `CacheTrace.ReplayAsShown` | webserver/src/core/containers/LRU_cache.c:35-73 | the code of the cache as shown, on the heap and for any hash function and any index, replayed on what a run asks, however many adds: its answers are those of the run iff `ShownServes` holds |
| `Delivery.CallBackIs` | webserver/src/core/util/protothread.h:42-46 | a routine that returns leaves its root at the next stage: from open to headers, from headers to body, from body to close |
| `Delivery.OpenEntryFd` | webserver/src/network/IO/async_io.c:367-398 | entering the open routine, at any of its points and after any failure, keeps every descriptor but 0 accounted for and touches no other chain; its own chain waits, or starts to send the file that is first in the cache |
| `DeliverySteps.StepDelivers` | webserver/src/network/IO/async_io.c:113-342 | every step, whatever it returns or fails at, keeps every descriptor but 0 accounted for and moves only the chain it belongs to; a chain whose completion is clean and whose path is sound moves from one stage of its delivery to the next |
| `DeliveryRuns.RunAccountsForFds` | webserver/src/network/IO/async_io.c:75-77 | over every run, whatever fails and whatever descriptors the kernel returns: a cached descriptor other than 0 is open and the cache answers for it; a close never takes such a descriptor from anyone else; receiving connections and chains have their clients, other than 0, to themselves |
| `ZeroDescriptor.TwoChainsShareZero` | webserver/src/network/IO/async_io.c:75-77 | client 0 is shared: a run of the server as it starts (8 accepts, standard input at descriptor 0), in which a missing file and sixteen more get 0 closed, a connection is accepted under 0, and the same once more closes 0 under the chain that sends to it and gives it to another |
| `OpenRecords.OpenRecordsUntouched` | webserver/src/network/IO/async_io.c:372-386 | in every reachable state the record of a file whose open is in flight is as it was created, with descriptor 0 and size 0 |
| `DeliveryRuns.RunKeepsPath` | webserver/src/network/IO/async_io.c:367-398 | over every run in which the opens and statxs of one path succeed, its opens with descriptors other than 0, whatever is cached for that path has a descriptor other than 0 and the recorded size, whatever happens to other paths |
| `DeliveryRuns.RunKeepsChain` | webserver/src/network/routing/router.c:66-134 | over every run, a chain whose client is not 0, whose own completions are clean and whose path has had no failed open is at a stage in which what has been sent is right |
| `DeliveryRuns.OutputIsPrefix` | webserver/src/network/routing/router.c:100-127 | for every interleaving, whatever of other chains and other paths fails or is given descriptor 0, the bytes on the client of such a chain are a prefix of serialized headers + file, and equal to them when the close is submitted |
| `DeliveryRuns.HeadAnnouncesSize` | webserver/src/network/routing/router.c:81-108 | the printed head is the status line "HTTP/1.1 200 OK" and a header section that parses back to two fields: Content-Type, whose value `FileNames.TypeByPath` gives, and Content-Length, whose value is the file size |
| `FileNames.TypeTable` | webserver/src/network/network_util.c:7-27 | the eleven extensions and their types, written out |
| `FileNames.TypeByPath` | webserver/src/network/routing/router.c:90-98 | for a path dir/stem.ext, no slash in stem and ext and no dot in ext, the name cut at the last slash and the extension cut at its last dot yield the type in the table for ext, application/octet-stream for an ext it lacks |
| `FileNames.TypeAnnounced` | webserver/src/network/routing/router.c:90-98 | in every reachable state, whatever has failed, the type a chain prints is that of its own path |
| `FileNames.TypeIsDelivered` | webserver/src/network/routing/router.c:66-134 | a clean chain at its close has sent a complete response whose first field is Content-Type with the type of its path |
| `DeliveryRuns.ContentLengthIsDelivered` | webserver/src/network/routing/router.c:100-127 | at the close, under the same hypotheses, the client has received a head that parses back to Content-Type and Content-Length, the latter being the number of body bytes that follow |
| `DeliveryRuns.ClientsNotShared` | webserver/src/network/routing/router.c:188-194 | in every run, whatever fails, two live send-file chains share a client only if it is client 0 |
| `ServedFile.OpenEntryNamed` | webserver/src/network/IO/async_io.c:367-398 | entering the open routine, on a hit, a miss or a finished open of any path, keeps every descriptor cached for a given path, and every chain sending for it, tied to the content under that path |
| `ServedFile.ServesOwnPath` | webserver/src/network/IO/async_io.c:372-395 | over every run in which the opens of one path succeed, with descriptors other than 0, and yield one content, what a chain for that path past its open sends is that content, whoever opened the file and whatever happens to other files |
| `ServedFile.WholeFileIsServed` | webserver/src/network/routing/router.c:66-134 | a clean chain for such a path at its close has sent a complete response: status line, the Content-Type that the table has for the extension of the path, if it ends in one, the length of the content as Content-Length, and the content under the path |
| `FailedOpen.FailedOpenIsMeasured` | webserver/src/network/IO/async_io.c:197-204 | after a failed open the descriptor left in the record is measured, whatever it is |
| `FailedOpen.MeasuredIsServed` | webserver/src/network/IO/async_io.c:335-342 | after a statx, failed or not, the record is cached as it is, with its size filled in iff the statx has succeeded, and its headers are sent |
| `FailedOpen.MissingFileIsServed` | webserver/src/network/IO/async_io.c:388-395 | in every reachable state, a chain whose open fails answers "200 OK" all the same and caches a record with descriptor 0, its size being that of whatever is behind descriptor 0 if the statx of it succeeds; if it fails, the response is complete and announces a length of zero |
| `Route.SplitExactly` | webserver/src/network/routing/route.c:11 | a list of segments is what a URI is cut into iff no segment has a slash and it is not the single empty segment; the URI is then their join |
| `Route.Create` | webserver/src/network/routing/route.c:7-30 | the loop yields the segments of the URI, each flagged dynamic iff it is a colon with anything behind it |
| `Route.DynamicExactly` | webserver/src/network/routing/route.c:19 | a segment is dynamic iff it is a colon with anything behind it |
| `RouteTable.RegisteredIsLast` | webserver/src/network/routing/route_trie.c:80 | the callback at a node is that of the last route added for exactly its path |
| `RouteTable.KidsExactly` | webserver/src/network/routing/route_trie.c:56-75 | a segment is a child of a node iff some route goes that way |
| `RouteTable.KidsInOrder` | webserver/src/network/routing/route_trie.c:66-75 | children stand in the order in which routes first used them |
| `RouteTable.ChoiceIsEarliest` | webserver/src/network/routing/route_trie.c:91-103 | the search takes, among the children equal or dynamic, the one used first |
| `RouteTable.ChoiceFails` | webserver/src/network/routing/route_trie.c:105-109 | the search gives up at a node with children iff no route goes on from it with an equal or dynamic segment |
| `RouteTable.LandingMatches` | webserver/src/network/routing/route_trie.c:89-111 | the node a search ends at matches the URI segment by segment, and segments are left over only at a node without children, which absorbs them |
| `RouteTable.StaticLookup` | webserver/src/network/routing/route_trie.c:83-114 | for static routes a lookup is the callback registered at exactly these segments if a route passes there, else that of the registered proper prefix that no route extends, else null |
| `RouteTable.AbsorberUnique` | webserver/src/network/routing/route_trie.c:91 | that prefix is unique |
| `UriRoutes.SegmentsGoOn` | webserver/src/network/routing/route_trie.c:85 | the segments of one URI are a proper prefix of those of another iff the other goes on behind a slash after it, or it is empty and the other is not |
| `UriRoutes.UriLookup` | webserver/src/network/routing/route_trie.c:83-114 | in URIs alone, for routes of a method no segment of which starts with a colon: a lookup gives the callback of the last route with the very URI; else, if no route goes on from it, that of the last route for the URI from which the request goes on and no route does; else null |
| `RouteTable.OtherMethods` | webserver/src/network/routing/route_trie.c:49 | adding a route leaves every lookup for another method alone |
| `RouteTable.LandingStaysExactly` | webserver/src/network/routing/route_trie.c:48-81 | adding a route moves the end of a search that had one iff segments were left over there and the new route extends that node |
| `RouteTable.AddKeepsLookups` | webserver/src/network/routing/route_trie.c:48-81 | a lookup whose end does not move gets the new callback iff the route is for the very node it ends at, and is unchanged otherwise |
| `RouteTable.AddKeepsStatic` | webserver/src/network/routing/route_trie.c:48-81 | among static routes the lookups of other registered paths are unchanged |
| `RouteTable.OrderIrrelevant` | webserver/src/network/routing/route_trie.c:48-114 | for static routes with distinct paths no lookup depends on the order of registration |
| `RouteTable.OrderMatters` | webserver/src/network/routing/route_trie.c:47-114 | with a dynamic route it does: a concrete pair |
| `RouteTrie.Trie.constructor` | webserver/src/network/routing/route_trie.c:30-38 | one root per method, no routes |
| `RouteTrie.Trie.Attach` | webserver/src/network/routing/route_trie.c:66-75 | a new child keeps siblings distinct, flags right and every other node unchanged |
| `RouteTrie.Trie.AddRoute` | webserver/src/network/routing/route_trie.c:48-81 | the heap of nodes grown in place stands for the old list of routes with the new one appended |
| `RouteTrie.Trie.Find` | webserver/src/network/routing/route_trie.c:83-114 | the nested loops return the lookup in the flat list |
| `UriRoutes.FindAmong` | webserver/src/network/routing/route_trie.c:48-114 | routes created from URIs, added to an empty trie on the heap and one URI looked up: the answer is that one |
| `Router.Router.HandleRequest` | webserver/src/network/routing/router.c:197-235 | starts exactly the protothreads of the specification, in its order |
| `Router.DispatchedOnce` | webserver/src/network/routing/router.c:197-235 | at most one send-file chain, the one the event loop runs, then at most one handler |
| `Router.OwnsClientAlone` | webserver/src/network/routing/router.c:197-235 | a send-file chain has its client to itself iff the trie finds no handler |
| `Router.OwnsClientAmongStatic` | webserver/src/network/routing/router.c:197-235 | for static routes, in terms of the registered paths alone |
| `Router.NothingStarted` | webserver/src/network/routing/router.c:233-235 | a request that matches nothing starts nothing, not even a 404 |
| `DArray.GrowthAccounts` | webserver/src/core/containers/darray.c:54-63 | after n adds: n < size = initial + resizes + elements copied, and the size is the initial one or at most 2n |
| `DArray.AmortisedCopies` | webserver/src/core/containers/darray.c:31-38 | n adds copy fewer than 2n elements in total |
| `DArray.RoomExactly` | webserver/src/core/containers/darray.c:55-57 | an add has room for its element iff the array was not created with size zero |
| `DArray.DArray.Resize` | webserver/src/core/containers/darray.c:31-38 | a larger array with the same elements; every element is copied once |
| `DArray.DArray.Add` | webserver/src/core/containers/darray.c:54-63 | appends, keeping length < size |
| `DArray.AddAll` | webserver/src/core/containers/darray.c:54-63 | appending a list gives exactly that list with fewer than 2n copies |
| `BitArray.BitAtPlace` | webserver/src/core/util/bitwise.c:26-28 | bit k of a byte is that of value 2 to the k |
| `BitArray.SetBit` | webserver/src/core/util/bitwise.c:14-16 | or-ing the mask in sets that bit of the byte and no other |
| `BitArray.ClearBit` | webserver/src/core/util/bitwise.c:18-20 | and-ing its complement clears that bit and no other |
| `BitArray.ToggleBit` | webserver/src/core/util/bitwise.c:22-24 | xor-ing it flips that bit and no other |
| `BitArray.BitArray.Set` | webserver/src/core/util/bitwise.c:14-16 | on the packed bytes: exactly this bit of the sequence becomes true |
| `BitArray.BitArray.Clear` | webserver/src/core/util/bitwise.c:18-20 | exactly this bit becomes false |
| `BitArray.BitArray.Toggle` | webserver/src/core/util/bitwise.c:22-24 | exactly this bit is flipped |
| `BitArray.BitArray.Get` | webserver/src/core/util/bitwise.c:26-28 | the bit of the sequence |
| `PoolAllocator.RunRight` | webserver/src/core/memory/pool_allocator.c:22-42 | from a cleared bit array, over every run: the bits are exactly the slots handed out and not given back, none of them twice |
| `PoolAllocator.AllocAfterRun` | webserver/src/core/memory/pool_allocator.c:22-30 | an alloc hands out the lowest slot that is not out, and none iff all are out |
| `PoolAllocator.OutstandingApart` | webserver/src/core/memory/pool_allocator.c:22-30 | outstanding blocks lie within the pool and do not overlap |
| `PoolAllocator.SlotOfAddress` | webserver/src/core/memory/pool_allocator.c:40 | the index computed from an address is that of the block that contains it |
| `PoolAllocator.PoolAllocator.Alloc` | webserver/src/core/memory/pool_allocator.c:22-30 | the scan finds the lowest clear bit, sets it and returns its address, null iff all are set |
| `PoolAllocator.PoolAllocator.Free` | webserver/src/core/memory/pool_allocator.c:32-42 | out of bounds: nothing changes; otherwise one block length is zeroed, nothing else, and the bit of the block that contains the address is cleared |
| `PoolAllocator.RunPool` | webserver/src/core/memory/pool_allocator.c:22-42 | the allocator on a cleared bit array gives, over every run, the answers of the intended one |

## Left out

- The kernel, sockets, signals and ring setup: a completion is any result within the bounds of `EventLoop.Allowed`; submission slots are assumed available, which is also why a null submission entry is not modelled.
- The sds library, memchr, memmem and libc: small specified operations (of sds, the growth of an allocation); bytes are chars, "%s" stops at a NUL.
- Raw memory layout, strides, alignment, allocation failure, frees and leaks: typed values in place of byte copies. Null callbacks and null results are `None`. An array of trie nodes stored by value is a sequence of nodes.
- FNV-1a and the division of the table size by the load factor: any hash function, any positive slot count. Table, cache and stride sizes are assumed non-zero, and the initial size of an array (`DArray.RoomExactly` says why).
- EventLoop: the state machine is written on values rather than on mutable contexts; in-place update of a context by its handler and aliasing of the locals are not captured there. `SpliceAll.SpliceAllContext` and `EventLoopSafety.Server` carry the updates of the splice context and the processing loop in place.
- EventLoop: the fields `fault`, `log`, `suspended`, `op`, `body` and the holder of a descriptor are auxiliary; no handler's outcome depends on them except that `fault` records what must not happen.
- EventLoop.OpenEntry: uses the intended cache, not the one as shown; `CacheTrace.ShownAnswers` and `CacheTrace.ReplayAsShown` say exactly on which runs the two give the same answers.
- EventLoop.ContentType: a file name without a dot is undefined behaviour in the source; here it is treated as an unknown extension.
- EventLoop: handlers of registered routes are not started there (they are arbitrary callbacks); `Router.OwnsClientAlone` says when none is started beside a send-file chain. The 404 routine is never started by the source and is not modelled.
- EventLoop: the plain splice operation (webserver/src/network/IO/async_io.c:236-257) is submitted by nothing that is modelled.
- RecencyList.ShownStep: nothing is said of the cache as shown once an eviction has taken a pair other than the last: the index then leads to nodes that are no longer listed, one of them freed.
- RequestParser.ParsedRequest.Parse: leaves the request fields unspecified after a result of -1, where the source leaves some of them filled in. A message body is not handled by the source.
- PoolAllocator.PoolAllocator.constructor: the source never clears its bit array; the statements over whole runs start from a cleared one. Freeing an address inside a block is modelled (it zeroes one block length from there), though the run statements free whole blocks.
- Directory walking (`_list_files`), logger, timer, profiler: the set of public files is a parameter.
- GPA.c (unfinished), queue.c, bump_allocator.c, sv.c, network_util.c beyond the content types: they would add only easy members.
