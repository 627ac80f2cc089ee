# Tracee event processor, modelled in Dafny

This project models the user-space event-processing core of tracee-ebpf, a
kernel-event tracer. Every decoded kernel event passes through two steps:

* **the drop filter** (`shouldProcessEvent`). The event is dropped when the
  return-value filter of its event type or one of its argument filters rejects
  it. The return-value filter has an accept list, a reject list and strict
  lower and upper bounds, each bound with an "unset" sentinel. The argument
  filters apply accept and reject patterns to each argument's printed form. A
  pattern ending in `*` matches by prefix.
* **the dispatcher** (`processEvent`) and its helper `updateProfile`. By event
  type:
  * A write event indexes the written file under its (mount namespace,
    device, inode) key.
  * An exec event first records the PID in its mount namespace's bucket. A
    namespace's init process is inserted by force. Then the handler:
    * copies the executable through `/proc/<pid>/root` unless its change time
      (ctime) is the one recorded at its last capture;
    * counts the execution in the profile;
    * reuses or recomputes its SHA-256 hash, depending on ctime;
    * adds the hash to the outgoing event as a `sha256` argument, together with
      its metadata and one more argument in the count.
  * The first socket event removes a tail-call entry from a kernel map, once.

Modules:

* `Events`: the event context and its dynamically-typed argument map, the Go
  type assertions, `fmt.Sprint` and `filepath.Base`.
* `Filters`: the drop filter. The method keeps the source's loops and is
  proved equal to a declarative predicate. Lemmas state the pass and drop
  rules.
* `Caches`: the two containers the processor reaches only through get, add
  and force-add calls: the per-namespace PID buckets and the bounded hash
  cache.
* `Handlers`: what each handler reads from an event and decides. It covers:
  * the argument checks;
  * the capture and hashing steps as functions on a snapshot of the tables;
  * their properties across repeated executions.
* `Processor`: the `Tracee` class. Its map fields are updated in place by the
  dispatcher's methods. Each method is proved against the `Handlers`
  functions.
* `Scenarios`: short concrete runs: a write seen twice, a file executed twice,
  and any number of socket events.

The keys the source builds with `Sprintf` are modelled as datatypes of their
fields:

* `"%d/write.dev-%d.inode-%d"` becomes `WriteKey`;
* `"/proc/%s/root%s"` becomes `ProcRoot`;
* `"%d:%s"` becomes `CapturedFileId`;
* `"exec.%d.%s"` becomes `CaptureDest`;
* `"…exec.%s:%d"` becomes `ProfileKey`.

Each format is injective in its fields, because each separator follows a
decimal number or precedes the last field. So equal strings and equal
datatypes coincide.

Where the source's own comments and its statements disagree, the model
follows the statements:

* The comments at `events_processor.go` lines 138 and 140 say the exec handler
  tries another process of the namespace and that the loop "will break on
  success". The loop body, however, ends in an unconditional `break` (line 198),
  and every error inside it returns at once (lines 145, 152, 167). So only the
  first PID of the bucket is ever tried.
* `ctime` is read inside that loop (line 143), after the path check (line 133).
  So it is checked only for an absolute path and a non-empty bucket. With an
  empty bucket the loop body never runs, and the handler returns no error and
  does nothing more (line 200).

Calls into the operating system and the kernel are handled as follows:

* Their answers come in as a `HostReplies` parameter: whether creating the
  capture directory succeeds, whether the copy succeeds, and the digest the
  file would hash to.
* Each call made is appended to a ghost log, `hostCalls`, so that properties
  can count copies and hash computations.

## Model

| member | source | states |
|---|---|---|
| Events.AsString | tracee-ebpf/tracee/events_processor.go:89-92 | the `.(string)` assertion succeeds iff the argument is present and holds a string, and then yields that string |
| Events.AsU32 | tracee-ebpf/tracee/events_processor.go:97-100 | the `.(uint32)` assertion succeeds iff the argument is present and holds a uint32, and then yields it |
| Events.AsU64 | tracee-ebpf/tracee/events_processor.go:101-104 | the `.(uint64)` assertion succeeds iff the argument is present and holds a uint64, and then yields it |
| Events.AsI64 | tracee-ebpf/tracee/events_processor.go:143-146 | the `.(int64)` assertion succeeds iff the argument is present and holds an int64, and then yields it |
| Events.Decimal | tracee-ebpf/tracee/events_processor.go:61 | an unsigned integer prints as a non-empty string of digits without a leading zero, one digit exactly for values below ten |
| Events.Sprint | tracee-ebpf/tracee/events_processor.go:61 | a string argument prints as itself; an unsigned or non-negative integer starts with a digit; a negative integer starts with '-' |
| Events.AfterLastSlash | tracee-ebpf/tracee/events_processor.go:154 | the result is the longest suffix of the path free of '/' |
| Events.TrimTrailingSlashes | tracee-ebpf/tracee/events_processor.go:154 | the result is the path's longest prefix not ending in '/', and only '/' characters were removed |
| Events.BaseName | tracee-ebpf/tracee/events_processor.go:154 | the base name of the executable is never empty, and is "/", "." or an element free of '/' |
| Filters.ArgFiltersFor | tracee-ebpf/tracee/events_processor.go:55 | an event type's argument filters are its configured ones, none when it has no entry, and every pattern in them is non-empty |
| Filters.CheckRetval | tracee-ebpf/tracee/events_processor.go:29-50 | the accept-list loop with its match flag, the reject-list loop and the two bound checks pass exactly the values RetvalPasses accepts |
| Filters.CheckArg | tracee-ebpf/tracee/events_processor.go:61-76 | the accept and reject pattern loops pass a printed argument exactly when some accept pattern matches (or there are none) and no reject pattern does |
| Filters.ShouldProcessEvent | tracee-ebpf/tracee/events_processor.go:26-81 | the event passes iff the enabled return-value filter of its type passes its return value and every enabled argument filter of an argument it carries passes that argument, in any order of the names |
| Filters.AcceptListDrops | tracee-ebpf/tracee/events_processor.go:31-39 | a non-empty accept list drops every return value not on it |
| Filters.RejectListDrops | tracee-ebpf/tracee/events_processor.go:40-44 | a return value on the reject list is dropped whatever the accept list holds |
| Filters.BoundsAreStrict | tracee-ebpf/tracee/events_processor.go:45-50 | an event that passes lies strictly above a set lower bound and strictly below a set upper bound |
| Filters.RetFamilyOffNeverDrops | tracee-ebpf/tracee/events_processor.go:27-28 | with return-value filtering disabled or no filter for the type, only the argument filters decide |
| Filters.RejectOnlyFilter | tracee-ebpf/tracee/events_processor.go:37-50 | with an empty accept list and both bounds unset, a value passes iff it is not rejected |
| Filters.BothBoundsSet | tracee-ebpf/tracee/events_processor.go:31-50 | with both bounds set, a value passes iff it lies strictly between them, is not rejected and is accepted or the accept list is empty |
| Filters.WildcardMatchesPrefix | tracee-ebpf/tracee/events_processor.go:64 | a pattern made of a prefix and '*' matches exactly the strings that start with the prefix |
| Filters.ExactPatternMatchesOnlyEqual | tracee-ebpf/tracee/events_processor.go:64 | a pattern not ending in '*' matches only the string equal to it |
| Filters.AbsentArgumentsSkipped | tracee-ebpf/tracee/events_processor.go:55-59 | removing the filters of argument names the event does not carry changes no verdict |
| Caches.PidBuckets.constructor | tracee-ebpf/tracee/events_processor.go:139 | a new bucket table has every bucket empty and no force-inserted PID |
| Caches.PidBuckets.AddBucketItem | tracee-ebpf/tracee/events_processor.go:123 | the call at line 123, under an assumed contract since the container's code is not in this file: below its limit the bucket gains the PID at its end; a full bucket may evict PIDs that were not force-inserted and does not grow; it gains no other PID, keeps every force-inserted PID, and other namespaces are untouched |
| Caches.PidBuckets.ForceAddBucketItem | tracee-ebpf/tracee/events_processor.go:121 | the call at line 121, under the same assumed contract: the PID ends up in the bucket and is recorded as force-inserted; the bucket gains no other PID and keeps every force-inserted PID; other namespaces are untouched |
| Caches.HashCache.constructor | tracee-ebpf/tracee/events_processor.go:177 | a new cache is empty and within its capacity |
| Caches.HashCache.Get | tracee-ebpf/tracee/events_processor.go:177-182 | a lookup finds a value iff the key is cached, and then the cached value |
| Caches.HashCache.Add | tracee-ebpf/tracee/events_processor.go:189 | after adding, the key holds the new value, the cache stays within capacity, and every other entry kept is unchanged |
| Caches.InitPidSurvivesChurn | tracee-ebpf/tracee/events_processor.go:120-124 | from the assumed insertion contract: whatever insertions built the table, a PID force-inserted into a bucket is still there after any number of later insertions, conditional or forced, into any buckets |
| Handlers.ParseWrite | tracee-ebpf/tracee/events_processor.go:89-104 | an error iff pathname is missing or not a string, or the path is absolute and dev is not a uint32 or inode is not a uint64; nothing to do iff the path is not absolute; otherwise the target carries the event's own pathname, dev and inode |
| Handlers.ParseExec | tracee-ebpf/tracee/events_processor.go:127-146 | nothing happens while capture and hashing are off; the arguments error iff pathname is missing or not a string; the ctime error iff the path is absolute, the bucket non-empty and ctime not an int64; an empty bucket ends quietly; a target is the pathname, the bucket's first PID and the ctime |
| Handlers.ParseExecAccepts | tracee-ebpf/tracee/events_processor.go:127-146 | an absolute string pathname, an int64 ctime and a non-empty bucket always yield the target of the bucket's first PID |
| Handlers.ProfileUpdated | tracee-ebpf/tracee/events_processor.go:226-236 | a new key gets count 1 and this execution's time; an existing key has its count raised by one and its first execution time kept; no other key changes |
| Handlers.ProfileCountsExecutions | tracee-ebpf/tracee/events_processor.go:226-236 | after n executions the profile counts n more and keeps the first execution's time; other entries are untouched |
| Handlers.CopyCountAppend | tracee-ebpf/tracee/events_processor.go:165 | copies among host calls add up over concatenation |
| Handlers.SuccessfulCaptureRecordsCtime | tracee-ebpf/tracee/events_processor.go:161-171 | a successful capture records the current ctime and copies once iff the recorded ctime was not the current one |
| Handlers.FailedCaptureKeepsEntry | tracee-ebpf/tracee/events_processor.go:149-168 | a failed capture changes no capture entry; a failed directory creation happens before the profile and the copy; a failed copy happens after the profile counted the execution |
| Handlers.CopiesFollowCtimeChanges | tracee-ebpf/tracee/events_processor.go:161-171 | over successive successful executions of one file, the copies are one for the first execution (unless already captured with that ctime) plus one per change of ctime |
| Handlers.RepeatedHashReusesCachedValue | tracee-ebpf/tracee/events_processor.go:177-195 | a second hashing with an unchanged ctime reuses the stored hash without hashing the file; with a changed ctime it hashes the file again and uses the fresh digest |
| Handlers.HashStepStores | tracee-ebpf/tracee/events_processor.go:184-195 | after hashing, the file's cache entry holds the current ctime and the hash the event received |
| Handlers.SuccessfulCaptureThenHash | tracee-ebpf/tracee/events_processor.go:149-174 | with capture and hashing on and the directory and copy succeeding, there is no error and the hashing step follows the capture step |
| Handlers.SuccessfulExec | tracee-ebpf/tracee/events_processor.go:148-196 | a successful execution records the ctime, caches the hash, adds it to the event with one more argument, and makes the directory call, the copy iff needed and the hash call iff the cached one is stale |
| Handlers.RepeatedExecCopiesAndHashesOnce | tracee-ebpf/tracee/events_processor.go:137-199 | a new file executed twice with the same ctime is copied once and hashed once, and the second event carries the first hash |
| Processor.Event.constructor | tracee-ebpf/tracee/events_processor.go:83 | an outgoing event holds the given context, arguments and metadata |
| Processor.Tracee.constructor | tracee-ebpf/tracee/events_processor.go:83 | a new processor starts with empty tables, an unset once-flag (per processor here; package-wide in the source, see Left out) and no host calls |
| Processor.Tracee.ProcessEvent | tracee-ebpf/tracee/events_processor.go:83-208 | writes, execs and socket events have their handler's effect; every other event type succeeds and changes nothing |
| Processor.Tracee.ProcessWrite | tracee-ebpf/tracee/events_processor.go:86-115 | with write capture on, a valid absolute target is indexed under its key with its path, and argument errors are returned; nothing else changes |
| Processor.Tracee.ProcessExec | tracee-ebpf/tracee/events_processor.go:117-201 | the PID goes into its namespace's bucket first (forced for PID 1); then the exec handler's outcome is the one its arguments and the updated bucket determine |
| Processor.Tracee.RunExecPlan | tracee-ebpf/tracee/events_processor.go:127-201 | argument errors are returned unchanged, a target not to be captured ends the handler with no error, and a target is captured and hashed |
| Processor.Tracee.ProcessTarget | tracee-ebpf/tracee/events_processor.go:148-199 | the capture step runs if capture is on, and the hashing step follows iff capture succeeded (or is off) and hashing is on |
| Processor.Tracee.CaptureExecutable | tracee-ebpf/tracee/events_processor.go:149-172 | the capture step makes the directory, counts the profile, and copies the file and records its ctime unless the recorded ctime is the current one; errors are returned where they occur |
| Processor.Tracee.HashExecutable | tracee-ebpf/tracee/events_processor.go:174-196 | the cached hash is used while its ctime is current, otherwise the file is hashed and the entry replaced; the event gains "sha256", one metadata entry and one argument |
| Processor.Tracee.UpdateProfile | tracee-ebpf/tracee/events_processor.go:226-236 | the profile table becomes ProfileUpdated of the old one |
| Scenarios.FeedWrite | tracee-ebpf/tracee/events_processor.go:88-114 | a well-formed write with an absolute path succeeds and sets its key's entry to the path |
| Scenarios.WriteTwiceIndexesOnce | tracee-ebpf/tracee/events_processor.go:106-114 | the same write twice succeeds both times and leaves one index entry |
| Scenarios.FeedInitExec | tracee-ebpf/tracee/events_processor.go:117-146 | an init-process exec of an absolute path goes on to capture with that process as the target |
| Scenarios.ExecTwiceCopiesOnce | tracee-ebpf/tracee/events_processor.go:117-199 | two executions with an unchanged ctime make one copy and one hash call; the second event carries the first digest with its argument count raised by one |
| Scenarios.SocketTailRemovedOnce | tracee-ebpf/tracee/events_processor.go:203-204 | any number of socket events succeed and remove the socket tail exactly once |

## Left out

- `processLostEvents` (lines 18-23) is left out. It drains a channel forever into a metrics counter, so it has no result to state.
- `removeSocketTail` (lines 210-224) calls the BPF map API through `unsafe.Pointer`. It is modelled only as the `RemoveSocketTail` host call. The `sync.Once` guarding it is a boolean done flag, and its thread safety is not modelled.
- `removeSocketTailOnce` (line 16) is a package-level variable shared by every processor in the program. The model moves it into each `Tracee` as the field `socketTailRemoved`, which the constructor clears. So a second processor removes the tail once more in the model, where in Go it never would.
- `CopyFileByPath`, `os.MkdirAll` and `getFileHash` are file-system I/O. They are not modelled. Their outcomes are the `HostReplies` parameter, and each call is recorded in the ghost `hostCalls` log.
- The capture output directory (`Capture.OutputPath`) is a constant of the configuration. The `CaptureDest` and `ProfileKey` keys leave it out.
- `filepath.Join` drops the slash of a base name "/" (`exec.<ts>./` becomes `exec.<ts>.`). The model keeps the base as "/". This does not make two keys collide.
- The bucket container is defined outside this file. Its behaviour is an assumption, stated in full by `InsertedInto` and relied on by everything after it:
  - below its limit a bucket appends the PID;
  - a full bucket may evict PIDs that were not force-inserted, and does not grow;
  - force-inserted PIDs, recorded in the `pinned` table, are never evicted.
  The body of `Caches.PidBuckets.AddBucketItem` is one policy meeting that contract: it evicts the oldest PID not force-inserted. The real container's eviction order is not modelled.
- Caches.InitPidSurvivesChurn: proves that a force-inserted PID survives churn from the assumed contract above. It does not prove that the real container keeps that contract.
- The exec handler reads the bucket as a value (`BucketIn`) rather than through `GetBucket`. Any recency bookkeeping a real cache does on reads is not modelled.
- Caches.HashCache.Add: may evict any other entry when the cache is full. LRU order is not modelled.
- Filters.ShouldProcessEvent: requires every argument pattern to be non-empty. Go would panic indexing `f[len(f)-1]` on an empty pattern, unless the printed argument were itself empty.
- Events.Sprint: covers strings and the integer types the handlers read. Every other dynamic type carries its printed form in `Other`.
- `GreaterNotSetInt` and `LessNotSetInt` are declared outside this file. They are taken as the int64 extremes.
- The argument count `Argnum` is a nat. The model does not bound its width.
- `fmt.Errorf` messages are modelled as distinct `Error` values, not as strings.
