// Short runs of the processor on concrete event sequences, each stating what
// the run leaves behind.

module Scenarios {
  import opened Events
  import opened Filters
  import opened Caches
  import opened Handlers
  import opened Processor

  const NoFilters := FilterConfig(RetFilterConfig(false, map[]), ArgFilterConfig(false, map[]))

  /** Hands the processor a write event of an absolute path with its device and
      inode, write capture on: the write is indexed under its key, without error. */
  method FeedWrite(tracee: Tracee, ctx: Context, path: string, dev: uint32, inode: uint64) returns (status: Status)
    requires tracee.Valid() && ctx.eventId.IsWrite() && tracee.config.captureFileWrite && IsAbsolute(path)
    modifies tracee, tracee.pidsInMntns, tracee.fileHashes
    ensures tracee.Valid() && status == NoError
    ensures tracee.writtenFiles == old(tracee.writtenFiles)[WriteKey(ctx.mntId, dev, inode) := path]
  {
    var args := map["pathname" := Str(path), "dev" := U32(dev), "inode" := U64(inode)];
    assert ParseWrite(args) == Parsed(Some(WriteTarget(path, dev, inode)));
    var ev := new Event(ctx, args, []);
    status := tracee.ProcessEvent(ev, HostReplies(true, true, ""));
  }

  /** The same write seen twice, write capture on: one index entry, no error
      either time. */
  method WriteTwiceIndexesOnce(path: string, dev: uint32, inode: uint64) returns (first: Status, second: Status, indexed: nat)
    requires IsAbsolute(path)
    ensures first == NoError && second == NoError && indexed == 1
  {
    var tracee := new Tracee(Config(NoFilters, true, false, false, false), 4, 16);
    var ctx := Context(VfsWrite, 42, 42, 7, 1, 0, 3);
    first := FeedWrite(tracee, ctx, path, dev, inode);
    var indexAfterFirst := tracee.writtenFiles;
    assert indexAfterFirst == map[WriteKey(7, dev, inode) := path];
    second := FeedWrite(tracee, ctx, path, dev, inode);
    assert tracee.writtenFiles == indexAfterFirst;
    indexed := |tracee.writtenFiles|;
  }

  /** Hands the processor an exec event of a namespace's init process (PID 1 in
      the namespace) for an absolute path, in a namespace whose bucket holds no
      other PID: the handler goes on with that process as the target. */
  method FeedInitExec(tracee: Tracee, ctx: Context, path: string, ctime: int64, host: HostReplies) returns (status: Status, ev: Event)
    requires tracee.Valid() && ctx.eventId == SchedProcessExec && ctx.pid == 1 && IsAbsolute(path)
    requires tracee.config.captureExec
    requires forall p :: p in BucketIn(tracee.pidsInMntns.buckets, ctx.mntId) ==> p == ctx.hostPid
    modifies tracee, tracee.pidsInMntns, tracee.fileHashes
    ensures tracee.Valid() && fresh(ev)
    ensures forall p :: p in BucketIn(tracee.pidsInMntns.buckets, ctx.mntId) ==> p == ctx.hostPid
    ensures var args := map["pathname" := Str(path), "ctime" := I64(ctime)];
      ExecOutcome(tracee.config, host, ctx, Parsed(Some(ExecTarget(path, ctx.hostPid, ctime))),
        ExecState(old(tracee.capturedFiles), old(tracee.profiledFiles), old(tracee.fileHashes.entries), old(tracee.hostCalls), ctx, args, []),
        tracee.ExecStateOf(ev), status)
  {
    var args := map["pathname" := Str(path), "ctime" := I64(ctime)];
    ev := new Event(ctx, args, []);
    status := tracee.ProcessEvent(ev, host);
    var bucket := BucketIn(tracee.pidsInMntns.buckets, ctx.mntId);
    assert bucket[0] in bucket;
    ParseExecAccepts(args, path, ctime, bucket);
  }

  /** An absolute path executed twice by a namespace's init process with an
      unchanged change time, capture and hashing on: one copy, one hash
      computation, the second event gets the first hash even though the file
      would now hash differently, and each event gains exactly one argument. */
  method ExecTwiceCopiesOnce(path: string, digest1: string, digest2: string)
      returns (first: Status, second: Status, argnum: nat, sha: ArgValue, ghost calls: seq<HostCall>)
    requires IsAbsolute(path)
    ensures first == NoError && second == NoError
    ensures argnum == 4 && sha == Str(digest1)
    ensures var src := ProcRoot(500, path);
      calls == [MkdirAll(7), CopyFile(src, CaptureDest(7, 1, BaseName(path))), FileHash(src), MkdirAll(7)]
  {
    var tracee := new Tracee(Config(NoFilters, false, true, false, true), 4, 16);
    var args := map["pathname" := Str(path), "ctime" := I64(1000)];
    ghost var t := ExecTarget(path, 500, 1000);

    var ctx1 := Context(SchedProcessExec, 1, 500, 7, 1, 0, 3);
    var host1 := HostReplies(true, true, digest1);
    ghost var s0 := ExecState(tracee.capturedFiles, tracee.profiledFiles, tracee.fileHashes.entries, tracee.hostCalls, ctx1, args, []);
    var ev1;
    first, ev1 := FeedInitExec(tracee, ctx1, path, 1000, host1);
    ghost var s1 := tracee.ExecStateOf(ev1);

    var ctx2 := Context(SchedProcessExec, 1, 500, 7, 2, 0, 3);
    var host2 := HostReplies(true, true, digest2);
    ghost var s2 := ExecState(tracee.capturedFiles, tracee.profiledFiles, tracee.fileHashes.entries, tracee.hostCalls, ctx2, args, []);
    var ev2;
    second, ev2 := FeedInitExec(tracee, ctx2, path, 1000, host2);
    RepeatedExecCopiesAndHashesOnce(tracee.config, t, ctx1, ctx2, host1, host2, s0, s1, s2, tracee.ExecStateOf(ev2), first, second);
    argnum := ev2.ctx.argnum;
    sha := ev2.args["sha256"];
    calls := tracee.hostCalls;
  }

  /** Any number of socket events remove the socket tail exactly once. */
  method SocketTailRemovedOnce(n: nat) returns (statuses: seq<Status>, ghost removals: nat)
    requires 1 <= n
    ensures |statuses| == n && forall i :: 0 <= i < n ==> statuses[i] == NoError
    ensures removals == 1
  {
    var tracee := new Tracee(Config(NoFilters, true, true, true, true), 4, 16);
    var host := HostReplies(true, true, "");
    statuses := [];
    while |statuses| < n
      invariant |statuses| <= n && forall i :: 0 <= i < |statuses| ==> statuses[i] == NoError
      invariant tracee.Valid() && fresh(tracee.pidsInMntns) && fresh(tracee.fileHashes)
      invariant tracee.hostCalls == if statuses == [] then [] else [RemoveSocketTail]
      invariant tracee.socketTailRemoved == (statuses != [])
    {
      var ev := new Event(Context(Socket, 42, 42, 7, 1, 0, 3), map[], []);
      var status := tracee.ProcessEvent(ev, host);
      statuses := statuses + [status];
    }
    removals := |tracee.hostCalls|;
  }
}
