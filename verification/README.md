# AOLserver core: models and proofs

A Dafny 4.11 project about the parts of the web server that keep its state: the cache monitor
and its two single-flight clients, the communication drivers with their admission scheduler
and request reader, the list sorts, getopt's permutation, the response writer, the ADP page
parser, DES crypt and integer printf. `dafny verify dfyconfig.toml` checks all of it.

Most components come in two forms. A *specification* file holds datatypes and functions on
values, a *laws* file holds what is proved of them for all inputs, states and runs; and a file
with classes, arrays and loops holds the code in the form the server has it, each method proved
to compute or to do what the specification says.

| component | on values | laws | as built |
|---|---|---|---|
| cache | CacheSpec | CacheLaws, CacheLookup, CacheHistory | Cache (linked list and hash table) |
| file cache, DNS cache | SingleFlight, FastPath, Dns | FastPathLaws, FastPathVerdicts, DnsLaws, DnsVerdicts | FastReturn, DnsGet (on the class of Cache) |
| drivers | Driver | DriverLaws, DriverSteps, DriverAdmission, DriverTheorems, DriverVerdicts, DriverFairness, DriverScene, DriverLeak, DriverCrash | DriverLists, DriverTurns, DriverThread (Socks linked through one nextPtr) |
| request reader | RequestSpec | RequestLaws, RequestRoundTrip, RequestVerdicts, RequestGrowth | RequestReader |
| lists | ListSpec | ListSpec | Lists, ListDelete (relinked nodes) |
| getopt | GetoptSpec | GetoptSpec, GetoptLaws | Getopt (argv permuted in place) |
| response writer | Chunked, ConnIo | Chunked, ConnIo, ConnRun | ConnIo, ConnRun (buffers advanced in place) |
| ADP parser | AdpSpec | AdpLaws | AdpParse |
| DES crypt | DesSpec, CryptSpec | DesLaws, DesTables, CryptSpec | Crypt (arrays) |
| integer printf | PrintfSpec | PrintfLaws | Dsprintf |

## How to read the models

**Threads.** A critical section is one atomic step, and a run is any sequence of steps of any
number of threads. Clocks, poll results, receives, sends, stat, file reads and name lookups
are inputs of the steps, so that what is proved holds whatever they answer. The steps of the
file cache, the DNS cache and the driver thread are also methods on linked structures
(FastReturn, DnsGet, DriverThread), each proved to do exactly its step; DriverThread.Thread.Turn
is a whole turn of the driver thread's loop, with any number of steps of the readers, the
connection threads and of shutdown between any two of its own.

**Drivers.** A Sock's `place` says which list it is on. `Parked` and `Held` are the two ways of
being on no list and yet reachable, from the FIFO of Conns and from a Conn that has been given
to the connection threads; `Lost` is unreachable. EachSockHasOneOwner and LostIsUnreachable say
what these bookkeeping fields mean in terms of the lists.

**Verdicts.** What the specification functions decide is also said without them: in the files
called Verdicts there is, for each decision, the exact condition of each outcome, in terms of
counters, flags, fields, lookups and times (DriverVerdicts, RequestVerdicts, FastPathVerdicts,
DnsVerdicts); CacheHistory, GetoptLaws, DesTables and ConnIo.IsResponse do the same for
storing in the cache, for command lines, for the tables and for what a client gets.

**The request reader** is a function of the buffer's state, the bytes still to come and how
many the peer delivers at once (`wish`).

## Where the code is not what one would expect

These are proved, each with the exact condition.

* A connection refused for lack of room or for waiting too long costs its Sock. NsSockClose
  finds it neither running nor on any list and only marks it (nsd/driver.c:941-982), so it is
  never reused and counts as active for ever: SocksAreLostByRefusal, LostForever, and the
  concrete run OneRefusalLosesTheSock.
* After shutdown has been requested a keep-alive Sock can be put back on the wait list without
  a Conn (nsd/driver.c:1551-1563), and input for it follows a NULL pointer
  (nsd/driver.c:1441). BareIsPutBack and CrashIsNullConn say of every step of every run whether
  it does the one or the other; before shutdown neither happens (NoCrashBeforeShutdown), and
  ShutdownCanCrash is a run from startup, with the default limits, in which both do.
* What a request is read as can depend on how the network splits it: exactly if the head ends
  beyond maxinput within a larger buffer (AgreementIsFairness). A Conn meets such inputs exactly
  if its buffer holds more than maxinput bytes (OversizedConnsDisagree), which that of a new one
  never does (FreshConnsAgree). A Conn that is used again comes to it, after one accepted
  request or two, exactly if 200 + bufsize is less than maxinput and twice that is neither
  maxinput nor maxinput + 1 (ReuseIsExact, given a request line, a host, numbers and uploads that
  are accepted); with other sizes nothing it is used for brings it
  there (ReusedConnsAgree). The default sizes, 16000 and 1024000, are of the first kind.
* A caller that goes on after a streaming flush has failed, as NsAdpFlush does without
  ADP_AUTOABORT (nsd/adprequest.c:247-273), can have a final flush succeed for a response with
  content missing: in LostChunk the client decodes a complete body, of nothing, though "ab" was
  flushed. A final flush with content that succeeds has completed the response exactly if no
  flush before it was cut short (SuccessIsUncut). The wire stays a beginning of the response
  exactly if no content is taken after some has been cut off (PrefixIsClean), and whatever is
  flushed exactly if the driver takes nothing more once it has failed (PrefixIsSteady).
* A flush of headers that no content follows reports success even if the driver failed in the
  middle of the headers: exactly if more than one byte was queued and there is no content
  (SuccessIsComplete, TruncatedHeaders).
* A password enciphered with a salt of one character is stored with that character twice
  (nsd/crypt.c:422-423), but was enciphered with its NUL as the second. Checked against what was
  stored, as in nsperm/nsperm.c:302, it is then enciphered with another E, exactly unless the
  character is 'G' or has its six bits; with two characters every password is accepted against
  its own hash (OwnHashIsAccepted).
* The comment in nsd/lisp.c:376-379 has the two sublists the wrong way round; the code, and
  the model, put larger or equal weights first.
* `%#.0o` of zero prints nothing, where section 7.19.6.1 of ISO C99 has it print `0`
  (AlternateOctal).

## Model

| member | source | states |
|---|---|---|
| CacheLaws.EvictionIsExact | nsd/cache.c:521-527 | the eviction loop removes exactly the shortest least-recently-used tail that gets the cache within maxSize without passing the entry being set, keeps that entry, and frees every removed value once; it ends within maxSize or with that entry last |
| CacheHistory.SetEvicts | nsd/cache.c:514-529 | storing a value gives the entry that value and size and, in a sized cache, keeps the longest beginning of the list that fits or that ends with the entry; the old value and those of the entries cut off are freed, each once |
| CacheHistory.RunEvicts | nsd/cache.c:514-529 | so it does after every history of calls |
| CacheHistory.TimeIsLastUse | nsd/cache.c:1311-1325 | after any history of calls an entry's mtime is, in a timed cache, the time of its latest find or create |
| CacheLaws.RunKeepsShape | nsd/cache.c:334-394 | after any history of calls no two entries have the same key, and a NULL value accounts for no bytes |
| CacheLaws.ListOrderIsRecency | nsd/cache.c:1311-1325 | after any history of calls the entries are in the order of their latest find or create |
| CacheLaws.RunKeepsTimeOrder | nsd/cache.c:1311-1325 | with a clock that does not go back, a timed cache is sorted by mtime in every reachable state |
| CacheLaws.PurgeSplits | nsd/cache.c:1376-1401 | on a list sorted by mtime the purge that stops at the first live entry keeps exactly the live ones |
| CacheLaws.PurgeIsComplete | nsd/cache.c:1376-1401 | after any history of calls, a purge deletes exactly the entries with mtime <= now - timeout, early exit notwithstanding, and frees each of their values once |
| CacheLaws.StepConserves | nsd/cache.c:514-621 | a call's live values before, and the one it is given, are the live values after and those handed to the free proc, as multisets |
| CacheLaws.ValuesAreConserved | nsd/cache.c:514-621 | over any history every value stored is either still live or has been freed, exactly once |
| CacheLookup.AfterSet | nsd/cache.c:514-529 | the entry just set is found with its new value whatever its size; any other is found as before or has been evicted |
| CacheLookup.AfterFind | nsd/cache.c:334-351 | a find changes no lookup |
| CacheLookup.AfterCreate | nsd/cache.c:373-394 | a create adds an entry with a NULL value if the key has none, and changes no other lookup |
| CacheLookup.AfterUnset | nsd/cache.c:550-566 | the entry stays, with NULL, and all others are found as before |
| CacheLookup.AfterFlushEntry | nsd/cache.c:614-621 | only the flushed key is no longer found |
| Cache.Cache.Delink | nsd/cache.c:1276-1289 | the links still form one list, of all entries but this one, in order |
| Cache.Cache.Push | nsd/cache.c:1311-1325 | the entry is linked in front of the list, stamped if the cache is timed |
| Cache.Cache.MoveToFront | nsd/cache.c:334-394 | the entry comes first and the others keep their order; list, table and size stay consistent |
| Cache.Cache.FindEntry | nsd/cache.c:334-351 | NULL exactly if the key is absent; the heap then holds what the specified find leaves |
| Cache.Cache.CreateEntry | nsd/cache.c:373-394 | the key's entry is in front, fresh exactly if the key was absent |
| Cache.Cache.UnsetValue | nsd/cache.c:550-566 | the value, if any, goes to the free proc and its size off currentSize |
| Cache.Cache.DeleteEntry | nsd/cache.c:586-593 | list and table both lose the entry, and currentSize still counts what the entry held |
| Cache.Cache.FlushEntry | nsd/cache.c:614-621 | as the specification of the flush by key says, value freed |
| Cache.Cache.Prune | nsd/cache.c:521-527 | the eviction loop terminates, computes the specified eviction, and leaves the cache within maxSize or the entry last |
| Cache.Cache.SetValueSz | nsd/cache.c:514-529 | the heap then holds what the specified set leaves, and the free proc has had what it frees; a sized cache is within maxSize, or the entry set is the last |
| Cache.Cache.Flush | nsd/cache.c:704-714 | nothing is left, and every live value has been freed once, in some order |
| Cache.Cache.Purge | nsd/cache.c:1376-1401 | the scan from the tail does the specified purge |
| SingleFlight.PublishStep | nsd/fastpath.c:592-599 | the critical section in which a loader publishes and broadcasts leaves no waiter and no NULL entry without a loader |
| FastPathLaws.StepKeepsInv | nsd/fastpath.c:551-608 | every critical section of every thread, and every flush, keeps the invariant of the file cache |
| FastPathLaws.RunKeepsInv | nsd/fastpath.c:551-608 | so it holds in every interleaving of any number of threads |
| FastPathLaws.NoLostWakeUp | nsd/fastpath.c:551-600 | in every interleaving a key with a NULL entry, or with a blocked thread, has a loader that has not broadcast yet |
| FastPathLaws.NeverDeadlocked | nsd/fastpath.c:551-608 | while a request is under way some thread can step |
| FastPathLaws.ReferencesAreExact | nsd/fastpath.c:390-419 | in every interleaving no freed File is touched; a File's count is 1 if cached plus one per thread loading or sending it; it is freed exactly when that is 0 |
| FastPathLaws.SendsAreFresh | nsd/fastpath.c:560-607 | what a thread sends is an unfreed File of its key whose mtime and size are those of its own stat |
| FastPathLaws.CachedFilesAreAlive | nsd/fastpath.c:551-566 | a lookup never finds a freed File or one of another key |
| FastPathVerdicts.BeginVerdict | nsd/fastpath.c:552-567 | a request for a key without an entry makes one and reads the file; else the thread waits if and only if the value is NULL, sends the File if and only if its mtime and size are those of stat, and else drops it and reads again |
| FastPathVerdicts.ResumeVerdict | nsd/fastpath.c:555-567 | after a wait likewise, and without an entry there is no file |
| FastPathVerdicts.ReadVerdict | nsd/fastpath.c:573-591 | a file read becomes a File of that key with what stat found and one reference, and nothing else changes |
| FastPathVerdicts.PublishVerdict | nsd/fastpath.c:592-604 | the File enters the cache with its size and is sent, or the entry goes; all waiting threads are woken; no other entry changes but by eviction |
| FastPathVerdicts.OtherVerdicts | nsd/fastpath.c:606-609 | a sent file was found, a woken thread asks again for what it asked, and a flush removes that entry, or all, and changes no thread |
| FastReturn.Server.Enter | nsd/fastpath.c:552-566 | the first critical section, on the linked cache, is the specified step |
| FastReturn.Server.Resume | nsd/fastpath.c:555-566 | the critical section after a wait is the specified step |
| FastReturn.Server.PublishFile | nsd/fastpath.c:592-602 | publishing or giving up, with the evictions it causes and the reference taken, is the specified step |
| FastReturn.Server.FreeSince | nsd/fastpath.c:390-419 | the free proc drops one reference for every value the cache let go |
| DnsLaws.RunKeepsInv | nsd/dns.c:138-181 | the invariant of the DNS cache holds in every interleaving |
| DnsLaws.NoLostWakeUp | nsd/dns.c:147-181 | as for files: whoever waits has a resolver that has not broadcast yet |
| DnsLaws.AnswersAreCurrent | nsd/dns.c:147-180 | no record is used or freed after being freed, none leaks, and every answer is a record of the name asked for, not expired when the asking began |
| DnsVerdicts.BeginVerdict | nsd/dns.c:147-164 | a request for a name without an entry makes one and resolves it; else the thread waits if and only if the value is NULL, answers with the record if and only if it has not expired, and else drops it and resolves again |
| DnsVerdicts.ResumeVerdict | nsd/dns.c:151-164 | after a wait likewise, and without an entry it fails |
| DnsVerdicts.StoreVerdict | nsd/dns.c:167-179 | a name resolved is stored as one record more, of size 1, with that name, that text and the time of the lookup plus the timeout, and is the answer; all waiting threads are woken |
| DnsVerdicts.GiveUpVerdict | nsd/dns.c:171-179 | if it could not be resolved the entry goes, and so wakes them |
| DnsVerdicts.OtherVerdicts | nsd/dns.c:151-168 | what was resolved is what is stored, a woken thread asks again for what it asked, and a flush removes that entry, or all |
| DnsGet.Resolver.Enter | nsd/dns.c:140-166 | the first critical section, on the linked cache, is the specified step |
| DnsGet.Resolver.PublishRecord | nsd/dns.c:167-181 | storing the answer or giving up is the specified step |
| DriverSteps.StepKeepsInv | nsd/driver.c:1113-1732 | every step of the driver thread, its readers and the connection threads keeps ownership: each Sock on the one list its place says, in a state that fits it |
| DriverTheorems.RunKeepsInv | nsd/driver.c:1113-1732 | it holds in every run of any number of drivers, with the counters exact |
| DriverTheorems.EachSockHasOneOwner | nsd/driver.c:930-1001 | in every run no Sock is on two lists, or on a list and held by a Conn, or held twice; active and free Socks add up to maxsock; none is closed twice for one accept; the fatal "impossible state" is never met |
| DriverTheorems.LostIsUnreachable | nsd/driver.c:941-982 | the bookkeeping place Lost means that no list, queue or Conn leads to the Sock |
| DriverTheorems.CountersAreExact | nsd/driver.c:1617-1720 | in every run of any number of drivers sharing a Limits, nrunning is the number of Conns admitted and not reclaimed, nwaiting that of Socks in RUNWAIT, and neither exceeds its maximum |
| DriverAdmission.StepTracks | nsd/driver.c:1247-1308 | every step changes a Limits' counters by exactly the change in the Conns and Socks they count |
| DriverAdmission.JudgeCounts | nsd/driver.c:1661-1687 | a decision changes nrunning only by letting the Conn run, and nwaiting only by its leaving the wait or joining it, both within their maxima |
| DriverVerdicts.AdmissionVerdicts | nsd/driver.c:1617-1720 | in every reached world the first Conn of the FIFO is dropped if and only if it was waiting and its client has sent more or gone; else it runs if and only if there is room, times out if and only if there is none and its time is over, waits, again in the FIFO and on the wait list, if and only if there is none, it has time and there is a place, and overflows in the remaining case; the counters change by just that |
| DriverVerdicts.ReadyVerdicts | nsd/driver.c:1354-1478 | when the next Sock of the old wait list is closed, read, kept waiting, queued or put aside for a reader thread, each exactly |
| DriverVerdicts.CloseVerdicts | nsd/driver.c:1551-1563 | a returned Sock waits for its next request with a new Conn, waits for its client to go, or is closed at once, each exactly when |
| DriverVerdicts.QueueVerdicts | nsd/driver.c:1569-1611 | a Sock whose request could not be read is closed, and any other joins the end of the FIFO |
| DriverVerdicts.AcceptVerdicts | nsd/driver.c:1726-1732 | a connection is accepted if and only if there is one, a Sock is free and the driver is not stopping |
| DriverVerdicts.TopVerdicts | nsd/driver.c:1218-1241 | a turn ends the loop if and only if the driver stops and no Sock is active; else it takes over all that other threads have left |
| DriverVerdicts.HandOverVerdicts | nsd/driver.c:1521-1546 | the Socks that need a reader thread join the readers' queue, and nothing else changes |
| DriverVerdicts.FreeVerdicts | nsd/driver.c:1247-1308 | a returned Conn gives back its place in its Limits if it was admitted, and its Sock, if it still has one, is to be shut down |
| DriverVerdicts.PassVerdicts | nsd/driver.c:1113-1732 | a pass over an empty list changes nothing and leads to the next one |
| DriverVerdicts.ConnCloseVerdicts | nsd/driver.c:931-1001 | a running Sock goes back to the driver to be kept or closed as asked, and a refused one is only marked |
| DriverVerdicts.ReaderVerdicts | nsd/driver.c:3123-3257 | a Sock read by a reader thread comes back with its Limits known, or in error |
| DriverTheorems.WaitersAreNotRefused | nsd/driver.c:1660-1683 | in every run a Conn that has been told to wait next stays waiting, runs, times out or is dropped; it never overflows |
| DriverFairness.FirstComeFirstServed | nsd/driver.c:1617-1720 | in every run in which one driver uses a Limits, whenever nrunning grows it is for the earliest arrival of all that are queued for it, across any number of passes |
| DriverTheorems.NoCrashBeforeShutdown | nsd/driver.c:1391-1464 | before shutdown is requested, the driver thread never follows the NULL connPtr of a Sock waiting for a request |
| DriverCrash.CrashIsNullConn | nsd/driver.c:1391-1464 | in every run a step makes a driver follow a NULL connPtr if and only if it finds input for the next ready Sock while that waits for a request without a Conn |
| DriverCrash.BareIsPutBack | nsd/driver.c:1551-1563 | in every run a step leaves a Sock waiting for a request without a Conn if and only if the driver, told to stop, puts the Sock back after it was returned for keep-alive and shut down gracefully |
| DriverCrash.ShutdownCanCrash | nsd/driver.c:1551-1563 | a concrete run from startup with the default limits: one request is served, its Conn is closed for keep-alive, shutdown is requested, and the client's next bytes end the process |
| DriverTheorems.SocksAreLostByRefusal | nsd/driver.c:941-982 | a step makes a Sock unreachable if and only if it closes the Conn of that Sock when it has timed out or overflowed |
| DriverTheorems.LostForever | nsd/driver.c:1113 | an unreachable Sock stays so and stays active, and the driver thread's loop never ends |
| DriverLeak.OneRefusalLosesTheSock | nsd/driver.c:1698-1713 | a concrete run from startup of 34 steps, with room for one request to run and none to wait: the second connection is refused, and its Sock is lost for every continuation |
| DriverLists.ChainsPushed | nsd/driver.c:233 | SockPush through the Sock's one nextPtr leaves every list's links right, because the Sock is on none of them |
| DriverThread.Thread.constructor | nsd/driver.c:491-502 | all Socks start linked on the free list |
| DriverThread.Thread.SockPush | nsd/driver.c:233 | the list pointers and links spell out the specified lists again |
| DriverThread.Thread.SockTake | nsd/driver.c:1551-1553 | so they do when the first Sock of a list is taken off it |
| DriverThread.Thread.Close | nsd/driver.c:2105-2152 | SockClose on the linked lists is the specified one |
| DriverThread.Thread.NsSockClose | nsd/driver.c:931-1001 | the close by a connection thread is the specified one, deferred branch included |
| DriverThread.Thread.PollNext | nsd/driver.c:1354-1478 | one Sock of the old wait list is dealt with as specified |
| DriverThread.Thread.Decide | nsd/driver.c:1661-1687 | on the counters the object has, each of the five decisions is taken exactly under its condition, and the counters change by it |
| DriverThread.Thread.AdmitNext | nsd/driver.c:1617-1720 | one Conn of the FIFO is run, kept or refused as specified |
| DriverThread.Thread.Other | nsd/driver.c:3123-3257 | an action of a reader thread, a connection thread or of shutdown, on linked Socks, is the specified step and touches nothing the driver thread is working on |
| DriverThread.Thread.Turn | nsd/driver.c:1113-1732 | whatever the environment decides and whatever the other threads do between any two steps, a turn of the loop on linked Socks terminates and is a run of steps of the state machine |
| DriverTurns.StepsAreARun | nsd/driver.c:1113-1732 | such steps are a run of the world of drivers, of which the theorems speak |
| RequestLaws.SplitsAgree | nsd/driver.c:2209-2259 | every way of splitting a fair input into receives ends with what one look at the whole input says: request line, headers, content length, body, or error; in memory or in a file alike |
| RequestLaws.AgreementIsFairness | nsd/driver.c:2282-2606 | all splits of an input agree if and only if its head does not end beyond maxinput within the buffer |
| RequestLaws.FreshConnsAgree | nsd/driver.c:2825-2869 | on a Conn used for the first time all splits of every input agree |
| RequestLaws.RoomSettles | nsd/driver.c:2282-2345 | after its first receive the buffer's size does not change any more during a head |
| RequestLaws.StopsAtMaxinput | nsd/driver.c:2282-2345 | stopping at maxinput bytes refuses an input that is not fair |
| RequestLaws.ReadsOn | nsd/driver.c:2282-2345 | stopping at one byte accepts what the whole of that input says |
| RequestRoundTrip.HeadIsRead | nsd/driver.c:2282-2606 | the head of a request, as a client writes it, gives exactly its line and fields |
| RequestVerdicts.LookupIsFirst | nsd/set.c:402-406 | a lookup finds the value of the first field whose name has the key's length and the same letters in either case, and nothing if and only if there is none |
| RequestVerdicts.ChecksAre | nsd/driver.c:2488-2573 | each of the five checks refuses exactly when what it is for is the case and the earlier ones have passed; else the content length is the number in the field, or 0 without one |
| RequestVerdicts.RequestVerdict | nsd/driver.c:2209-2606 | whatever the receives, a well-formed head that fits, with any content behind it, is refused exactly for what it lacks, and else accepted with its line, its fields and as much content as it announces, once that has come |
| RequestVerdicts.RequestIsRead | nsd/driver.c:2209-2606 | so a request for a known host, with a method, whose Content-Length in any casing is that of its body is read as exactly that |
| RequestVerdicts.LineVerdict | nsd/driver.c:2418-2480 | a further line is refused if and only if it is too long or is neither a field nor the continuation of one; else it gives the field it spells, also if it ends in a bare newline |
| RequestVerdicts.OldRequestIsRead | nsd/driver.c:2418-2480 | a request line without a version of 1.0 or later is all of its head, and accepted without fields or content |
| RequestVerdicts.UnfinishedVerdict | nsd/driver.c:2282-2345 | a head that has begun but does not end is refused as too long if and only if maxinput bytes have come and the buffer holds as many; else the driver waits or finds the connection closed |
| RequestVerdicts.NoLineVerdict | nsd/driver.c:2282-2345 | and so is an input without any line |
| RequestRoundTrip.OversizedConnsDisagree | nsd/driver.c:2282-2345 | there are inputs that a Conn does not read alike if and only if its buffer holds more than maxinput bytes |
| RequestGrowth.ReusedConnsAgree | nsd/driver.c:3005-3077 | unless the sizes let a buffer outgrow maxinput, a Conn reads every input alike after any history of uses, complete or not |
| RequestGrowth.Outgrown | nsd/driver.c:2577-2606 | if they do, one or two accepted requests make a new Conn's buffer hold more than maxinput bytes |
| RequestGrowth.ReuseIsExact | nsd/driver.c:2282-2606 | so all Conns, new or used, read every input alike if and only if the sizes do not let a buffer outgrow maxinput |
| RequestGrowth.ServeAll | nsd/driver.c:2825-2869 | a Conn that is read with, freed and taken again, on the heap, has the space that its history says |
| RequestReader.Conn.ReadLine | nsd/driver.c:2282-2606 | one line at the read offset advances the offset and adds the header, or fails, as specified |
| RequestReader.Conn.ScanLines | nsd/driver.c:2282-2606 | the loop over lines stops at the end of the head, of the complete lines, or at the specified error |
| RequestReader.Conn.SockReadLine | nsd/driver.c:2282-2606 | one receive of the head: the state, the error and the bytes taken are the specified ones |
| RequestReader.Conn.SockReadContent | nsd/driver.c:2627-2667 | one receive of the content, into the buffer or the file, likewise |
| RequestReader.Conn.SockRead | nsd/driver.c:2209-2259 | the whole callback is one step of the specification |
| RequestReader.Conn.Reuse | nsd/driver.c:3005-3077 | a freed Conn is as good as new but for the space of its buffer, which it keeps |
| RequestReader.Conn.ReadRequest | nsd/driver.c:3123-3257 | the reader's loop ends in the state that all its receives lead to |
| ListSpec.QuickSortLaw | nsd/lisp.c:427-464 | for every total preorder the quicksort is the stable sort of the reversed list |
| ListSpec.QuickSortSorts | nsd/lisp.c:427-464 | its result is in order |
| ListSpec.TiesAreReversed | nsd/lisp.c:427-464 | elements that compare equal come out in the reverse of their input order |
| ListSpec.PlacesSorted | nsd/lisp.c:427-464 | of any two places of the result the first is no later in the order, and if the two tie it comes from behind the second |
| ListSpec.QuickSortPermutes | nsd/lisp.c:427-464 | whatever the comparison answers, the result has exactly the original nodes |
| ListSpec.StableSortPermutes | nsd/lisp.c:427-464 | the reference sort keeps exactly the elements |
| ListSpec.StableSortSorts | nsd/lisp.c:427-464 | it sorts |
| ListSpec.StableSortIsStable | nsd/lisp.c:427-464 | and keeps the order of elements that compare equal |
| Lists.WeightSortLaw | nsd/lisp.c:356-407 | the weight sort obeys the same law, descending by weight |
| Lists.Partition | nsd/lisp.c:447-460 | following links that are one step stale, the loop builds two well-formed lists, of the nodes before and after the axis, each in input order |
| Lists.SortBy | nsd/lisp.c:427-464 | relinking in place, the recursive sort returns one acyclic list of exactly the given nodes in quicksort order, and writes no other node |
| Lists.ListSort | nsd/lisp.c:427-464 | so does Ns_ListSort, for any comparison callback: a permutation; and if the callback's answers are consistent, of any two nodes it says at most zero of the first and the second, and those it tells apart in neither direction are in the reverse of their order |
| Lists.ListWeightSort | nsd/lisp.c:356-407 | and Ns_ListWeightSort: a permutation with the heaviest nodes first, and those of equal weight in the reverse of their order |
| Lists.Nconc | nsd/lisp.c:59-71 | the second list is linked behind the first |
| Lists.Nreverse | nsd/lisp.c:119-135 | the links form the reversed list |
| ListDelete.DeleteWithTest | nsd/lisp.c:523-540 | just the nodes for which the test equates the given element, as its first argument, with theirs are unlinked and freed; the others stay in order |
| ListDelete.DeleteDuplicates | nsd/lisp.c:597-606 | the list left is the specified one |
| ListDelete.UniqueHasNoTwins | nsd/lisp.c:597-606 | in it no node is equated with a later one |
| ListDelete.UniqueCovers | nsd/lisp.c:597-606 | and every node of the input is in it or equated with one that is |
| ListDelete.UniqueIsFirst | nsd/lisp.c:597-606 | a node is left if and only if no node left before it is equated with it |
| ListDelete.UniqueKeepsOrder | nsd/lisp.c:597-606 | and those left stay in order |
| GetoptSpec.ReadPartitions | nsd/getopt.c:438-495 | reading a command line splits it into options and others, both in their original order |
| GetoptSpec.MergesPermute | nsd/getopt.c:438-495 | so that nothing is lost or doubled |
| GetoptLaws.KindsAreDeclared | nsd/getopt.c:664-688 | a colon behind an option's letter declares a required argument, two an optional one, none no argument, and what is not declared is no option, with or without a leading colon |
| GetoptLaws.LineIsRead | nsd/getopt.c:415-734 | a command line written from groups of flags, options with an argument behind them or in the next element, other arguments and any of three ends is reported as it was written, errors included |
| GetoptLaws.EveryLineIsWritten | nsd/getopt.c:415-734 | and every command line is written so |
| Getopt.SwapTop | nsd/getopt.c:258-273 | swapping the short bottom segment to the top leaves a smaller exchange with the same result |
| Getopt.SwapBottom | nsd/getopt.c:274-289 | swapping the short top segment to the bottom likewise |
| Getopt.Rotate | nsd/getopt.c:243-296 | the loop of swaps terminates and is exactly the rotation of two adjacent segments, however long |
| Getopt.Scanner.Exchange | nsd/getopt.c:243-296 | as it is used in the scanner, the records of where the non-options are included |
| Getopt.Scanner.NextElement | nsd/getopt.c:438-530 | moving on never changes what is still to be reported, nor the order of options and of others |
| Getopt.Scanner.Decode | nsd/getopt.c:661-733 | one option character with its argument is reported, and exactly that is taken from what is to come |
| Getopt.Scanner.Getopt | nsd/getopt.c:415-734 | one call reports the next event; at the end argv is partitioned |
| Getopt.GetAll | nsd/getopt.c:415-734 | all calls up to EOF report what one reading of the command line gives, and leave argv as options, their arguments and "--" before optind, the other elements from optind on, both in original order |
| ConnIo.Collect | nsd/connio.c:355-372 | the buffers sent are those that are not empty, in order, the queued output first, up to 16 of them |
| ConnIo.Advance | nsd/connio.c:407-419 | the buffers then hold exactly what has not been taken |
| ConnIo.Conn.SendAll | nsd/connio.c:399-420 | whatever the driver answers, what it has taken is the first so many bytes of the buffers |
| ConnIo.Conn.ConnSend | nsd/connio.c:344-447 | wire and queue afterwards are wire and queue before and the bytes reported as written |
| ConnIo.Conn.FlushDirect | nsd/connio.c:228-321 | one flush: headers queued at most once, content framed, as many of the driver's answers used up as it asked for, and success if and only if all was taken, or some bytes of headers that no content follows |
| ConnIo.FlushIsRead | nsd/connio.c:263-291 | what a flush adds: nothing for HEAD, the content as it is, or a chunk that the client decodes before whatever follows; the final one ends the chunks |
| ConnIo.Conn.Respond | nsd/connio.c:228-321 | over any streaming flushes and a final one, up to the first that fails, the wire always holds a beginning of the response, and on success of a flush that ends with content all of it: the headers, and all that was flushed, as it is or in chunks that decode to it |
| ConnIo.ResponseIs | nsd/connio.c:263-291 | which is what the response is: for HEAD the headers alone, in chunks exactly if it was streamed to a client later than HTTP/1.0 |
| ConnRun.RespondOn | nsd/adprequest.c:247-273 | all the flushes, whether those before have succeeded or not: wire, queue and result are those of the specified run |
| ConnRun.RunOfResponse | nsd/connio.c:228-321 | of such a run: the wire is a beginning of the response if nothing is taken after content was cut off, and a final flush with content that succeeds has completed the response if and only if no flush before it was cut |
| ConnRun.PrefixIsClean | nsd/connio.c:228-321 | for all contents of given lengths the wire stays a beginning of the response if and only if no content is taken after content of an earlier flush was cut off |
| ConnRun.PrefixIsSteady | nsd/connio.c:228-321 | for all headers and flushes it does so if and only if the driver takes nothing more once it has failed |
| ConnRun.SuccessIsUncut | nsd/connio.c:313-320 | a last flush with content that succeeds leaves the whole response on the wire if and only if no flush before it was cut |
| ConnRun.LostChunk | nsd/adprequest.c:247-273 | a concrete run in which a streaming flush fails, the final one succeeds, and the client decodes a complete body without the content |
| ConnIo.SuccessIsComplete | nsd/connio.c:313-320 | success means that all was sent, for every behaviour of the driver, if and only if there is content or no more than one byte is queued |
| ConnIo.SuccessIs | nsd/connio.c:313-320 | a flush succeeds if and only if all was taken, or there is no content and something was |
| ConnRun.WillingGetsAll | nsd/connio.c:399-420 | a driver that always takes something gets the whole response through, and the last flush succeeds |
| ConnIo.TruncatedHeaders | nsd/connio.c:263-320 | otherwise a HEAD response of one byte is reported as a success |
| ConnIo.StreamDecodes | nsd/connio.c:271-291 | a streamed response decodes, by section 4.1 of RFC 7230, to all that was flushed |
| ConnIo.CutStreamIsNoticed | nsd/connio.c:284-291 | and no shorter part of it decodes |
| Chunked.DecodeChunks | nsd/connio.c:272-290 | any sequence of chunks decodes to their concatenation |
| Chunked.HexIsRead | nsd/connio.c:277 | the size of a chunk is written in lower-case hexadecimal without leading zeros, and reads back |
| Chunked.CompleteIsFinal | nsd/connio.c:284-291 | a complete chunked body cannot be continued |
| AdpLaws.BlocksCover | nsd/adpparse.c:274-438 | the blocks with their delimiters put back are the page, nothing lost, doubled or reordered |
| AdpLaws.EndIsMatched | nsd/adpparse.c:286-301 | a script ends at the %> before which, behind its opening, there are as many others as there are <% before the first of all, and nowhere else |
| AdpLaws.BlocksAreRight | nsd/adpparse.c:274-328 | every script is delimited so, and no script is passed over in a text block |
| AdpLaws.CompilationCuts | nsd/adpparse.c:498-523 | the recorded lengths, which add up to that of the compiled text, cut it into the blocks, those of <%= behind `ns_adp_append` |
| AdpLaws.LinesAreRight | nsd/adpparse.c:516-521 | each recorded line is the number of newlines before the block in the page |
| AdpLaws.PageIsCompiled | nsd/adpparse.c:238-453 | all of this for the compilation of every page |
| AdpParse.Parse.AppendBlock | nsd/adpparse.c:498-523 | the text, the lengths and the counters are the specified ones |
| AdpParse.Parse.FindEnd | nsd/adpparse.c:291-301 | the two search loops find the specified end of a script |
| AdpParse.Parse.ParsePage | nsd/adpparse.c:238-453 | the one-pass scanner compiles exactly the specified blocks |
| DesLaws.TablesUndo | nsd/crypt.c:43-66 | the initial and final permutations are inverse to each other |
| DesLaws.RoundsUndone | nsd/crypt.c:288-354 | the sixteen rounds with reversed keys undo the sixteen rounds, whatever is selected |
| DesLaws.DesIsInverted | nsd/crypt.c:262-361 | enciphering then deciphering, or the reverse, restores every block, for every key schedule and every E, so for every salt |
| DesLaws.DesComplements | nsd/crypt.c:262-361 | complementing all bits of block and keys complements all bits of the result |
| DesLaws.ScheduleComplements | nsd/crypt.c:150-195 | a complemented key has the complemented schedule |
| DesLaws.FullTurn | nsd/crypt.c:168-182 | C and D are back at their start after the sixteenth key |
| DesLaws.SaltedIsE | nsd/crypt.c:388-403 | every salt leaves E selecting from 32 bits, and salting again restores it |
| DesTables.SixSelectFour | nsd/crypt.c:318-330 | of each six bits the outer two name the row of the selection function, the inner four the column, and the entry's bits follow from the highest |
| DesTables.RowsArePermutations | nsd/crypt.c:201-241 | each row of each selection function holds each value |
| DesTables.OneBitChangesTwo | nsd/crypt.c:201-241 | one bit more or less of the 48 changes at least two of the four bits selected by its six, and no others |
| DesTables.MiddleBitsChangeTwo | nsd/crypt.c:201-241 | and so do the two bits in the middle of six together |
| DesTables.InitialIs | nsd/crypt.c:43-52 | the initial permutation takes the even columns of the block, then the odd ones, from below |
| DesTables.ExpansionIs | nsd/crypt.c:134-143 | E takes each four bits with their two neighbours, in a ring |
| DesTables.PNamesAll | nsd/crypt.c:246-255 | P loses none of the selected bits |
| Crypt.SetKey | nsd/crypt.c:150-195 | the loops of rotations compute the closed-form selection of key bits for all sixteen keys, and return C and D to their start |
| Crypt.EncryptRound | nsd/crypt.c:288-345 | one turn of the loop on the arrays is one round |
| Crypt.Encrypt | nsd/crypt.c:262-361 | in place and in either direction, the block becomes the specified one |
| Crypt.PutPassword | nsd/crypt.c:375-381 | the loops spread the password over a clear block as the specified key |
| Crypt.SaltE | nsd/crypt.c:388-403 | the loops decode two characters and exchange exactly the entries of E whose bit is set in them |
| Crypt.WriteChars | nsd/crypt.c:408-419 | the loops write the block as its eleven characters |
| Crypt.NsEncrypt | nsd/crypt.c:364-426 | for every password and salt, iobuf holds the specified hash and its NUL |
| CryptSpec.CharsAreRead | nsd/crypt.c:408-419 | decoded as a salt is, the eleven characters give back all bits of the block |
| CryptSpec.HashIsUndone | nsd/crypt.c:364-426 | the characters behind the salt, deciphered 25 times with the password's keys and the salt's E, are 64 bits of zero, and two more |
| CryptSpec.HashIsBlock | nsd/crypt.c:364-426 | so with one salt two passwords have the same hash if and only if they leave the same block |
| CryptSpec.OwnHashIsAccepted | nsd/crypt.c:388-423 | a password enciphered with its own hash as the salt gives that hash again if the salt had two characters; the two use the same E if and only if it had, or its one character has the low bits of 'G' |
| CryptSpec.KeyIsEightChars | nsd/crypt.c:375-381 | two passwords have the same key if and only if the first eight characters of the one and the other agree in their low seven bits |
| CryptSpec.LongPasswordsAreCut | nsd/crypt.c:375-381 | a password of more than eight characters has the hash of its first eight, for every salt |
| PrintfLaws.FieldLength | nsd/dsprintf.c:469-499 | the field has length max(width, max(precision, digits) + sign or prefix) |
| PrintfLaws.OnePadding | nsd/dsprintf.c:475-499 | exactly one padding rule applies, in its place |
| PrintfLaws.DigitsFit | nsd/dsprintf.c:399-439 | a 64-bit argument has at most 22 digits, so generation never runs below the start of the buffer |
| PrintfLaws.DigitsAreRead | nsd/dsprintf.c:399-439 | the digits evaluate back to the number, in every base |
| PrintfLaws.NumberIs | nsd/dsprintf.c:399-441 | the digits are in the case asked for, without leading zeros but the one of the alternate octal form, and are left out exactly for zero with precision 0 |
| PrintfLaws.PrefixIs | nsd/dsprintf.c:275-386 | exactly when a minus, a plus, a blank, 0x or 0X goes before the number |
| PrintfLaws.FieldIsRead | nsd/dsprintf.c:391-499 | whatever the flags, width and precision, the field reads back as the argument, the most negative one included |
| PrintfLaws.AlternateOctal | nsd/dsprintf.c:400-415 | `#` makes an octal number begin with 0 except when zero is printed with precision 0 |
| Dsprintf.PutNumber | nsd/dsprintf.c:399-441 | the digits written backward into the buffer are the specified number, within its bounds |
| Dsprintf.DString.Emit | nsd/dsprintf.c:469-499 | paddings, prefix, zeros and digits are appended in the specified layout |
| Dsprintf.DString.FormatInteger | nsd/dsprintf.c:391-499 | a conversion appends the specified field and nothing else |

## Left out

- DriverTheorems.EachSockHasOneOwner: does not say that every Sock returns to the free list, because that is false; SocksAreLostByRefusal says exactly when it is not.
- DriverFairness.FirstComeFirstServed: needs the Limits to be used by one driver only, because drivers that share one do not order their arrivals against each other.
- DriverThread.Thread.Turn: other drivers that share its Limits do not act between its steps; that is proved of the steps. The FIFO of Conns, the returned Conns and the Socks that reader threads have are sequences, not links.
- RequestGrowth.ReuseIsExact: a Conn is used again by drivers with the same sizes only; uses by HTTP/2 are not modelled.
- Lists.ListWeightSort: weights are real numbers, so that neither NaN nor rounding is modelled.
- FastReturn.Server.Enter: the key and the stat result are given; the branch without a cache, or for a file over cachemaxentry, sends directly and is not modelled.
- ConnIo.Conn.SendAll: a driver that answers 0 would be asked again for ever; answers that are not positive are errors here. Write filters are not modelled.
- Cache.Cache.DeleteEntry: exact for every entry; but the histories that CacheLaws speaks of delete only entries without a value, as the server does, because with one currentSize stays too large.
- Cache.Cache.SetValueSz: sizes are unbounded, so a wrap of currentSize is not modelled, nor is storing NULL with a size; a cache whose free proc is NULL is modelled as one whose free proc does nothing.
- Cache.Cache.Flush: the hash table's order of iteration is unspecified, so is that of freeing.
- Cache lookups by search, statistics, naming and the Tcl commands.
- HTTP/2 and HTTP/3 in the driver, the reader and the writer, and TLS.
- Read, pre-queue and write filters, queue-wait callbacks, and the creation of reader threads.
- Parsing of the request line, virtual servers, integer scanning and upload limits: parameters of the request reader. Decoding of the Authorization header, receives that fail with an error rather than an end of file, and errors of the temporary file.
- getopt: long options, orderings other than PERMUTE, flags from the environment, moving optind between calls, and messages.
- CryptSpec.OwnHashIsAccepted: that another E leaves another block is not shown; it could fail for a password by chance.
- DesTables.OneBitChangesTwo: the entries of the DES tables are data; the regular tables are shown to follow their rules and the selection functions to have properties they were chosen for, which other entries could have too. The key tables PC-1 and PC-2 are only shown to fit.
- ADP: registered tags, `<script runat=server>`, safe and single-script modes, attributes, and the copy of the lengths behind the text.
- dsprintf: scanning the format, fetching arguments by length modifier, and the conversions c, s, n and those for floating point.
- List copying, printing and mapping, and Ns_ListDeleteIf and Ns_ListDeleteLowElements, which repeat Ns_ListDeleteWithTest.
- nsd/index.c, the configuration, the loggers, sockets, poll, mmap and the resolver.
