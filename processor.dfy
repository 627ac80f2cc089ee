// The event dispatcher: write-target dedup, per-namespace PID bookkeeping,
// executable capture by change time, the hash cache with argument
// enrichment, the execution profile and the one-time socket tail removal.

module Processor {
  import opened Events
  import opened Filters
  import opened Caches
  import opened Handlers

  // ---- The processed event and the processor ----

  /** The three things a handler may change in the outgoing event: the context
      (its argument count), the argument map and the argument metadata list. */
  class Event {
    var ctx: Context
    var args: map<string, ArgValue>
    var argMetas: seq<ArgMeta>

    constructor (ctx: Context, args: map<string, ArgValue>, argMetas: seq<ArgMeta>)
      ensures this.ctx == ctx && this.args == args && this.argMetas == argMetas
    {
      this.ctx := ctx;
      this.args := args;
      this.argMetas := argMetas;
    }
  }

  class Tracee {
    const config: Config
    const pidsInMntns: PidBuckets
    const fileHashes: HashCache<CapturedFileId, FileExecInfo>
    var writtenFiles: map<WriteKey, string>
    var capturedFiles: map<CapturedFileId, int64>
    var profiledFiles: map<ProfileKey, ProfilerInfo>
    /** The done flag of the once-only socket tail removal. */
    var socketTailRemoved: bool
    ghost var hostCalls: seq<HostCall>

    ghost predicate Valid()
      reads this, fileHashes
    {
      fileHashes.Valid()
    }

    constructor (config: Config, bucketLimit: nat, hashCacheSize: nat)
      requires 0 < hashCacheSize
      ensures Valid() && fresh(pidsInMntns) && fresh(fileHashes)
      ensures this.config == config
      ensures writtenFiles == map[] && capturedFiles == map[] && profiledFiles == map[]
      ensures fileHashes.entries == map[] && !socketTailRemoved && hostCalls == []
      ensures pidsInMntns.buckets == map[] && pidsInMntns.pinned == map[]
    {
      this.config := config;
      pidsInMntns := new PidBuckets(bucketLimit);
      fileHashes := new HashCache(hashCacheSize);
      writtenFiles := map[];
      capturedFiles := map[];
      profiledFiles := map[];
      socketTailRemoved := false;
      hostCalls := [];
    }

    /** The write handler: with write capture on, a valid absolute target is
        indexed under its (mount, dev, inode) key; nothing else changes. */
    twostate predicate WriteEffect(ev: Event, status: Status)
      reads this, pidsInMntns, fileHashes, ev
    {
      && unchanged(pidsInMntns, fileHashes, ev)
      && capturedFiles == old(capturedFiles) && profiledFiles == old(profiledFiles)
      && socketTailRemoved == old(socketTailRemoved) && hostCalls == old(hostCalls)
      && if !config.captureFileWrite then status == NoError && writtenFiles == old(writtenFiles)
         else match ParseWrite(old(ev.args))
           case ParseError(e) => status == Failed(e) && writtenFiles == old(writtenFiles)
           case Parsed(None) => status == NoError && writtenFiles == old(writtenFiles)
           case Parsed(Some(t)) =>
             status == NoError && writtenFiles == old(writtenFiles)[WriteKey(old(ev.ctx.mntId), t.dev, t.inode) := t.path]
    }

    ghost function ExecStateOf(ev: Event): ExecState
      reads this, fileHashes, ev
    {
      ExecState(capturedFiles, profiledFiles, fileHashes.entries, hostCalls, ev.ctx, ev.args, ev.argMetas)
    }

    /** The exec handler: the PID is recorded in its namespace's bucket (forced for
        PID 1), then the arguments are parsed against the bucket as it now is. */
    twostate predicate ExecEffect(ev: Event, host: HostReplies, status: Status)
      reads this, pidsInMntns, fileHashes, ev
    {
      var s := old(ExecStateOf(ev));
      && InsertedInto(old(pidsInMntns.buckets), pidsInMntns.buckets, old(pidsInMntns.pinned), pidsInMntns.pinned,
                      pidsInMntns.bucketLimit, s.ctx.mntId, s.ctx.hostPid, s.ctx.pid == 1)
      && writtenFiles == old(writtenFiles) && socketTailRemoved == old(socketTailRemoved)
      && ExecOutcome(config, host, s.ctx,
           ParseExec(config.captureExec || config.outputExecHash, s.args, BucketIn(pidsInMntns.buckets, s.ctx.mntId)),
           s, ExecStateOf(ev), status)
    }

    /** The socket handler: the tail entry is removed on the first socket event only. */
    twostate predicate SocketEffect(ev: Event, status: Status)
      reads this, pidsInMntns, fileHashes, ev
    {
      && status == NoError && socketTailRemoved
      && hostCalls == old(hostCalls) + (if old(socketTailRemoved) then [] else [RemoveSocketTail])
      && unchanged(pidsInMntns, fileHashes, ev)
      && writtenFiles == old(writtenFiles) && capturedFiles == old(capturedFiles) && profiledFiles == old(profiledFiles)
    }

    /** processEvent: dispatch on the event type; other types are a no-op. */
    method ProcessEvent(ev: Event, host: HostReplies) returns (status: Status)
      requires Valid()
      modifies this, pidsInMntns, fileHashes, ev
      ensures Valid()
      ensures old(ev.ctx.eventId).IsWrite() ==> WriteEffect(ev, status)
      ensures old(ev.ctx.eventId) == SchedProcessExec ==> ExecEffect(ev, host, status)
      ensures old(ev.ctx.eventId) == Socket ==> SocketEffect(ev, status)
      ensures old(ev.ctx.eventId).OtherEvent? ==> status == NoError && unchanged(this, pidsInMntns, fileHashes, ev)
    {
      match ev.ctx.eventId
      case VfsWrite =>
        status := ProcessWrite(ev);
      case VfsWritev =>
        status := ProcessWrite(ev);
      case SchedProcessExec =>
        status := ProcessExec(ev, host);
      case Socket =>
        if !socketTailRemoved {
          socketTailRemoved := true;
          hostCalls := hostCalls + [RemoveSocketTail];
        }
        status := NoError;
      case OtherEvent(_) =>
        status := NoError;
    }

    method ProcessWrite(ev: Event) returns (status: Status)
      requires Valid()
      modifies this`writtenFiles
      ensures Valid()
      ensures WriteEffect(ev, status)
    {
      if !config.captureFileWrite {
        return NoError;
      }
      var pathname := AsString(ev.args, "pathname");
      if pathname.None? {
        return Failed(WriteArgsError);
      }
      var filePath := pathname.value;
      // memfd_create files and the like have no absolute path
      if filePath == [] || filePath[0] != '/' {
        return NoError;
      }
      var dev := AsU32(ev.args, "dev");
      if dev.None? {
        return Failed(WriteArgsError);
      }
      var inode := AsU64(ev.args, "inode");
      if inode.None? {
        return Failed(WriteArgsError);
      }
      var fileName := WriteKey(ev.ctx.mntId, dev.value, inode.value);
      if fileName in writtenFiles && writtenFiles[fileName] == filePath {
        return NoError;
      }
      writtenFiles := writtenFiles[fileName := filePath];
      return NoError;
    }

    method ProcessExec(ev: Event, host: HostReplies) returns (status: Status)
      requires Valid()
      modifies this, pidsInMntns, fileHashes, ev
      ensures Valid()
      ensures ExecEffect(ev, host, status)
    {
      var ctx := ev.ctx;
      ghost var s0 := ExecStateOf(ev);
      if ctx.pid == 1 {
        pidsInMntns.ForceAddBucketItem(ctx.mntId, ctx.hostPid);
      } else {
        pidsInMntns.AddBucketItem(ctx.mntId, ctx.hostPid);
      }
      assert ExecStateOf(ev) == s0;
      // The argument checks of lines 127-146 of events_processor.go. The bucket
      // is read once the PID is in it. The source's range loop over the bucket
      // ends in an unconditional break, so only its first PID is ever tried.
      var pids := BucketIn(pidsInMntns.buckets, ctx.mntId);
      var plan := ParseExec(config.captureExec || config.outputExecHash, ev.args, pids);
      status := RunExecPlan(ev, host, plan, s0);
    }

    /** The exec handler once its arguments are checked: an argument error is
        returned, a target that is not to be captured ends the handler, and a
        target is captured and hashed. */
    method RunExecPlan(ev: Event, host: HostReplies, plan: Parse<Option<ExecTarget>>, ghost s: ExecState) returns (status: Status)
      requires Valid()
      requires s == ExecStateOf(ev)
      modifies this, fileHashes, ev
      ensures Valid()
      ensures writtenFiles == old(writtenFiles) && socketTailRemoved == old(socketTailRemoved)
      ensures ExecOutcome(config, host, s.ctx, plan, s, ExecStateOf(ev), status)
    {
      match plan
      case ParseError(e) =>
        status := Failed(e);
      case Parsed(None) =>
        status := NoError;
      case Parsed(Some(target)) =>
        status := ProcessTarget(ev, host, target, s);
    }

    /** Capture, then hashing if capture succeeded (or is off) and hashing is on. */
    method ProcessTarget(ev: Event, host: HostReplies, t: ExecTarget, ghost s0: ExecState) returns (status: Status)
      requires fileHashes.Valid()
      requires s0 == ExecStateOf(ev)
      modifies this`capturedFiles, this`profiledFiles, this`hostCalls, fileHashes, ev
      ensures fileHashes.Valid()
      ensures ExecOutcome(config, host, s0.ctx, Parsed(Some(t)), s0, ExecStateOf(ev), status)
    {
      var source := ProcRoot(t.pid, t.path);
      var capturedFileId := CapturedFileId(ev.ctx.mntId, source);
      status := NoError;
      if config.captureExec {
        status := CaptureExecutable(ev, host, t);
        if status != NoError {
          return;
        }
      } else {
        assert AfterCapture(config, host, ev.ctx, t, s0) == s0;
      }
      if config.outputExecHash {
        HashExecutable(ev, host, capturedFileId, source, t.ctime);
      }
    }

    /** The capture step: create the namespace's directory, update the profile,
        and copy the file unless its change time is the one recorded at its last
        capture. */
    method CaptureExecutable(ev: Event, host: HostReplies, t: ExecTarget) returns (status: Status)
      requires config.captureExec
      modifies this`capturedFiles, this`profiledFiles, this`hostCalls
      ensures var id := CapturedFileId(ev.ctx.mntId, ProcRoot(t.pid, t.path));
        status == CaptureStatus(true, host, NeedsCopy(old(capturedFiles), id, t.ctime))
      ensures ExecStateOf(ev) == AfterCapture(config, host, ev.ctx, t, old(ExecStateOf(ev)))
    {
      var ctx := ev.ctx;
      var source := ProcRoot(t.pid, t.path);
      var capturedFileId := CapturedFileId(ctx.mntId, source);
      hostCalls := hostCalls + [MkdirAll(ctx.mntId)];
      if !host.mkdirOk {
        return Failed(MkdirError);
      }
      var base := BaseName(t.path);
      var destinationFilePath := CaptureDest(ctx.mntId, ctx.ts, base);
      if config.captureProfile {
        UpdateProfile(ProfileKey(ctx.mntId, base, t.ctime), ctx.ts);
      }
      if capturedFileId !in capturedFiles || capturedFiles[capturedFileId] != t.ctime {
        hostCalls := hostCalls + [CopyFile(source, destinationFilePath)];
        if !host.copyOk {
          return Failed(CopyError);
        }
        capturedFiles := capturedFiles[capturedFileId := t.ctime];
      }
      return NoError;
    }

    /** The hashing step: the cached hash while the change time is unchanged,
        otherwise a fresh one that replaces the entry; then the event gains the
        argument "sha256". */
    method HashExecutable(ev: Event, host: HostReplies, id: CapturedFileId, source: SourcePath, ctime: int64)
      requires fileHashes.Valid()
      modifies this`hostCalls, fileHashes, ev
      ensures fileHashes.Valid()
      ensures HashStep(host, id, source, ctime, old(ExecStateOf(ev)), ExecStateOf(ev))
    {
      var cached := fileHashes.Get(id);
      var currentHash;
      if cached.Some? && cached.value.lastCtime == ctime {
        currentHash := cached.value.hash;
      } else {
        hostCalls := hostCalls + [FileHash(source)];
        currentHash := host.digest;
        fileHashes.Add(id, FileExecInfo(ctime, currentHash));
      }
      ev.argMetas := ev.argMetas + [Sha256Meta];
      ev.ctx := ev.ctx.(argnum := ev.ctx.argnum + 1);
      ev.args := ev.args["sha256" := Str(currentHash)];
    }

    /** updateProfile: count one more execution of the profiled file. */
    method UpdateProfile(key: ProfileKey, executionTs: uint64)
      modifies this`profiledFiles
      ensures profiledFiles == ProfileUpdated(old(profiledFiles), key, executionTs)
    {
      if key !in profiledFiles {
        profiledFiles := profiledFiles[key := ProfilerInfo(1, executionTs)];
      } else {
        var pf := profiledFiles[key];
        pf := pf.(times := pf.times + 1);
        profiledFiles := profiledFiles[key := pf];
      }
    }
  }
}
