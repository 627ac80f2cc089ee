// What each event handler reads from an event and decides, as values: the
// argument checks, the capture and hashing steps of the exec handler over a
// snapshot of the processor's tables, and their properties.

module Handlers {
  import opened Events
  import opened Filters
  import opened Caches

  datatype Config = Config(
    filter: FilterConfig,
    captureFileWrite: bool,
    captureExec: bool,
    captureProfile: bool,
    outputExecHash: bool)

  datatype Error = WriteArgsError | ExecArgsError | ExecCtimeError | MkdirError | CopyError

  /** The error a handler returns; NoError is Go's nil. */
  datatype Status = NoError | Failed(error: Error)

  datatype Parse<T> = Parsed(value: T) | ParseError(error: Error)

  // The keys the source builds with Sprintf. Each format is injective in its
  // fields (every field but the last is a decimal number followed by a fixed
  // separator), so a datatype of the fields stands for the string.

  /** "<mnt>/write.dev-<dev>.inode-<inode>" */
  datatype WriteKey = WriteKey(mntId: uint32, dev: uint32, inode: uint64)

  /** "/proc/<pid>/root<path>": the executable seen through a process of its namespace. */
  datatype SourcePath = ProcRoot(pid: uint32, path: string)

  /** "<mnt>:<source path>" */
  datatype CapturedFileId = CapturedFileId(mntId: uint32, source: SourcePath)

  /** "<output>/<mnt>/exec.<ts>.<base name>" */
  datatype CaptureDest = CaptureDest(mntId: uint32, ts: uint64, base: string)

  /** "<output>/<mnt>/exec.<base name>:<ctime>" */
  datatype ProfileKey = ProfileKey(mntId: uint32, base: string, ctime: int64)

  datatype ProfilerInfo = ProfilerInfo(times: nat, firstExecutionTs: uint64)

  datatype FileExecInfo = FileExecInfo(lastCtime: int64, hash: string)

  /** Calls into the operating system and the kernel, in the order they are made. */
  datatype HostCall =
    | MkdirAll(mntId: uint32)
    | CopyFile(src: SourcePath, dst: CaptureDest)
    | FileHash(src: SourcePath)
    | RemoveSocketTail

  /** What the operating system answers for this event: whether creating the
      capture directory and copying the file succeed, and the file's digest. */
  datatype HostReplies = HostReplies(mkdirOk: bool, copyOk: bool, digest: string)

  const Sha256Meta := ArgMeta("sha256", "const char*")

  // ---- Parsing the arguments a handler needs ----

  datatype WriteTarget = WriteTarget(path: string, dev: uint32, inode: uint64)

  /** The write handler's argument checks: a string pathname first; a relative or
      empty path is ignored before dev and inode are looked at. */
  function ParseWrite(args: map<string, ArgValue>): (r: Parse<Option<WriteTarget>>)
    ensures r.ParseError? ==> r.error == WriteArgsError
    ensures r.ParseError? <==>
      || AsString(args, "pathname").None?
      || (IsAbsolute(AsString(args, "pathname").value) && (AsU32(args, "dev").None? || AsU64(args, "inode").None?))
    ensures r == Parsed(None) <==>
      AsString(args, "pathname").Some? && !IsAbsolute(AsString(args, "pathname").value)
    ensures r.Parsed? && r.value.Some? ==>
      var t := r.value.value;
      && IsAbsolute(t.path)
      && "pathname" in args && args["pathname"] == Str(t.path)
      && "dev" in args && args["dev"] == U32(t.dev)
      && "inode" in args && args["inode"] == U64(t.inode)
  {
    var path := AsString(args, "pathname");
    if path.None? then ParseError(WriteArgsError)
    else if !IsAbsolute(path.value) then Parsed(None)
    else
      var dev := AsU32(args, "dev");
      var inode := AsU64(args, "inode");
      if dev.None? || inode.None? then ParseError(WriteArgsError)
      else Parsed(Some(WriteTarget(path.value, dev.value, inode.value)))
  }

  datatype ExecTarget = ExecTarget(path: string, pid: uint32, ctime: int64)

  /** The exec handler's checks once capture or hashing is on: a string pathname;
      a relative path or an empty bucket ends the handler quietly; only then must
      ctime be an int64. The bucket's first PID is the only one tried. */
  function ParseExec(enabled: bool, args: map<string, ArgValue>, bucket: seq<uint32>): (r: Parse<Option<ExecTarget>>)
    ensures !enabled ==> r == Parsed(None)
    ensures r == ParseError(ExecArgsError) <==> enabled && AsString(args, "pathname").None?
    ensures r == ParseError(ExecCtimeError) <==>
      && enabled && AsString(args, "pathname").Some? && IsAbsolute(AsString(args, "pathname").value)
      && bucket != [] && AsI64(args, "ctime").None?
    ensures r.ParseError? ==> r.error == ExecArgsError || r.error == ExecCtimeError
    ensures enabled && AsString(args, "pathname").Some? && bucket == [] ==> r == Parsed(None)
    ensures r.Parsed? && r.value.Some? ==>
      var t := r.value.value;
      && enabled && bucket != [] && t.pid == bucket[0] && IsAbsolute(t.path)
      && "pathname" in args && args["pathname"] == Str(t.path)
      && "ctime" in args && args["ctime"] == I64(t.ctime)
  {
    if !enabled then Parsed(None)
    else
      var path := AsString(args, "pathname");
      if path.None? then ParseError(ExecArgsError)
      else if !IsAbsolute(path.value) || bucket == [] then Parsed(None)
      else
        var ctime := AsI64(args, "ctime");
        if ctime.None? then ParseError(ExecCtimeError)
        else Parsed(Some(ExecTarget(path.value, bucket[0], ctime.value)))
  }

  /** With a string pathname that is absolute, an int64 ctime and a non-empty
      bucket, the exec handler goes on with the bucket's first PID. */
  lemma ParseExecAccepts(args: map<string, ArgValue>, path: string, ctime: int64, bucket: seq<uint32>)
    requires "pathname" in args && args["pathname"] == Str(path) && IsAbsolute(path)
    requires "ctime" in args && args["ctime"] == I64(ctime)
    requires bucket != []
    ensures ParseExec(true, args, bucket) == Parsed(Some(ExecTarget(path, bucket[0], ctime)))
  {
  }

  // ---- Decisions of the exec handler ----

  /** A file is copied again unless the change time recorded at its last capture is the current one. */
  predicate NeedsCopy(captured: map<CapturedFileId, int64>, id: CapturedFileId, ctime: int64)
  {
    id !in captured || captured[id] != ctime
  }

  /** The outcome of the capture step: directory creation, then the copy if one is needed. */
  function CaptureStatus(captureExec: bool, host: HostReplies, copy: bool): Status
  {
    if !captureExec then NoError
    else if !host.mkdirOk then Failed(MkdirError)
    else if copy && !host.copyOk then Failed(CopyError)
    else NoError
  }

  /** The host calls of the capture step. */
  function CaptureCalls(captureExec: bool, host: HostReplies, mnt: uint32, src: SourcePath, dst: CaptureDest, copy: bool): seq<HostCall>
  {
    if !captureExec then []
    else [MkdirAll(mnt)] + if host.mkdirOk && copy then [CopyFile(src, dst)] else []
  }

  /** A cached hash is trusted only while its recorded change time is the current one. */
  predicate CacheHit(entry: Option<FileExecInfo>, ctime: int64)
  {
    entry.Some? && entry.value.lastCtime == ctime
  }

  function HashFor(entry: Option<FileExecInfo>, ctime: int64, digest: string): string
  {
    if CacheHit(entry, ctime) then entry.value.hash else digest
  }

  /** updateProfile's effect on the profile table. */
  function ProfileUpdated(profiles: map<ProfileKey, ProfilerInfo>, key: ProfileKey, ts: uint64): (r: map<ProfileKey, ProfilerInfo>)
    ensures r.Keys == profiles.Keys + {key}
    ensures key !in profiles ==> r[key] == ProfilerInfo(1, ts)
    ensures key in profiles ==> r[key].times == profiles[key].times + 1
    ensures key in profiles ==> r[key].firstExecutionTs == profiles[key].firstExecutionTs
    ensures forall k :: k in profiles && k != key ==> r[k] == profiles[k]
  {
    if key !in profiles then profiles[key := ProfilerInfo(1, ts)]
    else profiles[key := profiles[key].(times := profiles[key].times + 1)]
  }

  /** What the exec handler's capture and hashing steps read and write: the
      processor's captured-file, profile and hash tables, the host calls made so
      far, and the outgoing event. */
  datatype ExecState = ExecState(
    captured: map<CapturedFileId, int64>,
    profiled: map<ProfileKey, ProfilerInfo>,
    hashes: map<CapturedFileId, FileExecInfo>,
    calls: seq<HostCall>,
    ctx: Context,
    args: map<string, ArgValue>,
    argMetas: seq<ArgMeta>)

  /** The capture step (directory, profile, copy unless the change time is the
      recorded one) on the state s; only the tables and the calls change. */
  function AfterCapture(cfg: Config, host: HostReplies, ctx: Context, t: ExecTarget, s: ExecState): ExecState
  {
    var source := ProcRoot(t.pid, t.path);
    var id := CapturedFileId(ctx.mntId, source);
    var base := BaseName(t.path);
    var copy := NeedsCopy(s.captured, id, t.ctime);
    s.(
      profiled :=
        if cfg.captureExec && host.mkdirOk && cfg.captureProfile
        then ProfileUpdated(s.profiled, ProfileKey(ctx.mntId, base, t.ctime), ctx.ts)
        else s.profiled,
      captured :=
        if CaptureStatus(cfg.captureExec, host, copy) == NoError && cfg.captureExec && copy
        then s.captured[id := t.ctime]
        else s.captured,
      calls := s.calls + CaptureCalls(cfg.captureExec, host, ctx.mntId, source, CaptureDest(ctx.mntId, ctx.ts, base), copy))
  }

  /** The hashing step from s to s': reuse the cached hash while the change time
      is unchanged, otherwise hash the file and replace the entry; then add the
      hash to the event as the argument "sha256", with its metadata and count. */
  predicate HashStep(host: HostReplies, id: CapturedFileId, source: SourcePath, ctime: int64, s: ExecState, s': ExecState)
  {
    var entry := if id in s.hashes then Some(s.hashes[id]) else None;
    var h := HashFor(entry, ctime, host.digest);
    && s'.captured == s.captured && s'.profiled == s.profiled
    && s'.calls == s.calls + (if CacheHit(entry, ctime) then [] else [FileHash(source)])
    && (if CacheHit(entry, ctime) then s'.hashes == s.hashes else StoredIn(s.hashes, s'.hashes, id, FileExecInfo(ctime, h)))
    && s'.args == s.args["sha256" := Str(h)]
    && s'.argMetas == s.argMetas + [Sha256Meta]
    && s'.ctx == s.ctx.(argnum := s.ctx.argnum + 1)
  }

  /** The exec handler once the arguments are parsed: capture, then hashing if
      capture succeeded and hashing is on. */
  predicate ExecOutcome(cfg: Config, host: HostReplies, ctx: Context, plan: Parse<Option<ExecTarget>>, s: ExecState, s': ExecState, status: Status)
  {
    match plan
    case ParseError(e) => status == Failed(e) && s' == s
    case Parsed(None) => status == NoError && s' == s
    case Parsed(Some(t)) =>
      var source := ProcRoot(t.pid, t.path);
      var id := CapturedFileId(ctx.mntId, source);
      var mid := AfterCapture(cfg, host, ctx, t, s);
      && status == CaptureStatus(cfg.captureExec, host, NeedsCopy(s.captured, id, t.ctime))
      && if status == NoError && cfg.outputExecHash then HashStep(host, id, source, t.ctime, mid, s') else s' == mid
  }

  // ---- Properties of the exec handler's steps ----

  /** The profile table after successive executions of one file, at the given times. */
  function ProfileAfterRun(profiles: map<ProfileKey, ProfilerInfo>, key: ProfileKey, tss: seq<uint64>): map<ProfileKey, ProfilerInfo>
    decreases |tss|
  {
    if tss == [] then profiles else ProfileAfterRun(ProfileUpdated(profiles, key, tss[0]), key, tss[1..])
  }

  /** The profile counts every execution and keeps the time of the first one;
      other entries are untouched. */
  lemma {:induction false} ProfileCountsExecutions(profiles: map<ProfileKey, ProfilerInfo>, key: ProfileKey, tss: seq<uint64>)
    ensures var r := ProfileAfterRun(profiles, key, tss);
      && (key in r <==> key in profiles || tss != [])
      && (key in profiles ==> r[key] == ProfilerInfo(profiles[key].times + |tss|, profiles[key].firstExecutionTs))
      && (key !in profiles && tss != [] ==> r[key] == ProfilerInfo(|tss|, tss[0]))
      && (forall k :: k != key ==> (k in r <==> k in profiles) && (k in r ==> r[k] == profiles[k]))
    decreases |tss|
  {
    if tss != [] {
      ProfileCountsExecutions(ProfileUpdated(profiles, key, tss[0]), key, tss[1..]);
    }
  }

  /** The number of file copies among host calls. */
  function CopyCount(calls: seq<HostCall>): nat
  {
    if calls == [] then 0
    else CopyCount(calls[..|calls| - 1]) + if calls[|calls| - 1].CopyFile? then 1 else 0
  }

  lemma {:induction false} CopyCountAppend(a: seq<HostCall>, b: seq<HostCall>)
    ensures CopyCount(a + b) == CopyCount(a) + CopyCount(b)
    decreases |b|
  {
    if b != [] {
      assert (a + b)[..|a + b| - 1] == a + b[..|b| - 1];
      CopyCountAppend(a, b[..|b| - 1]);
    } else {
      assert a + b == a;
    }
  }

  /** The number of times the change time differs from the one before it. */
  function CtimeChanges(ctimes: seq<int64>): nat
  {
    if |ctimes| < 2 then 0
    else (if ctimes[0] != ctimes[1] then 1 else 0) + CtimeChanges(ctimes[1..])
  }

  /** The capture step run for successive executions of one file, seen with the given change times. */
  function CaptureRun(cfg: Config, host: HostReplies, ctx: Context, pid: uint32, path: string, ctimes: seq<int64>, s: ExecState): ExecState
    decreases |ctimes|
  {
    if ctimes == [] then s
    else CaptureRun(cfg, host, ctx, pid, path, ctimes[1..], AfterCapture(cfg, host, ctx, ExecTarget(path, pid, ctimes[0]), s))
  }

  /** One successful capture step records the change time, and copies iff the
      recorded change time was not the current one. */
  lemma SuccessfulCaptureRecordsCtime(cfg: Config, host: HostReplies, ctx: Context, t: ExecTarget, s: ExecState)
    requires cfg.captureExec && host.mkdirOk && host.copyOk
    ensures var id := CapturedFileId(ctx.mntId, ProcRoot(t.pid, t.path));
      var s' := AfterCapture(cfg, host, ctx, t, s);
      && s'.captured == s.captured[id := t.ctime]
      && CopyCount(s'.calls) == CopyCount(s.calls) + if NeedsCopy(s.captured, id, t.ctime) then 1 else 0
  {
    var id := CapturedFileId(ctx.mntId, ProcRoot(t.pid, t.path));
    var s' := AfterCapture(cfg, host, ctx, t, s);
    var added := s'.calls[|s.calls|..];
    assert s'.calls == s.calls + added;
    CopyCountAppend(s.calls, added);
    if NeedsCopy(s.captured, id, t.ctime) {
      assert added == [MkdirAll(ctx.mntId)] + [CopyFile(ProcRoot(t.pid, t.path), CaptureDest(ctx.mntId, ctx.ts, BaseName(t.path)))];
      CopyCountAppend([MkdirAll(ctx.mntId)], [CopyFile(ProcRoot(t.pid, t.path), CaptureDest(ctx.mntId, ctx.ts, BaseName(t.path)))]);
    } else {
      assert added == [MkdirAll(ctx.mntId)];
    }
  }

  /** A failed capture step changes no capture entry. A failed directory creation
      comes before everything else; a failed copy comes after the profile has
      counted the execution. */
  lemma FailedCaptureKeepsEntry(cfg: Config, host: HostReplies, ctx: Context, t: ExecTarget, s: ExecState)
    requires cfg.captureExec
    requires var id := CapturedFileId(ctx.mntId, ProcRoot(t.pid, t.path));
      CaptureStatus(true, host, NeedsCopy(s.captured, id, t.ctime)) != NoError
    ensures var source := ProcRoot(t.pid, t.path);
      var s' := AfterCapture(cfg, host, ctx, t, s);
      var key := ProfileKey(ctx.mntId, BaseName(t.path), t.ctime);
      && s'.captured == s.captured && s'.hashes == s.hashes && s'.args == s.args && s'.ctx == s.ctx
      && (!host.mkdirOk ==> s'.profiled == s.profiled && s'.calls == s.calls + [MkdirAll(ctx.mntId)])
      && (host.mkdirOk ==>
            && !host.copyOk
            && s'.calls == s.calls + [MkdirAll(ctx.mntId), CopyFile(source, CaptureDest(ctx.mntId, ctx.ts, BaseName(t.path)))]
            && s'.profiled == if cfg.captureProfile then ProfileUpdated(s.profiled, key, ctx.ts) else s.profiled)
  {
    var source := ProcRoot(t.pid, t.path);
    if host.mkdirOk {
      assert [MkdirAll(ctx.mntId)] + [CopyFile(source, CaptureDest(ctx.mntId, ctx.ts, BaseName(t.path)))]
          == [MkdirAll(ctx.mntId), CopyFile(source, CaptureDest(ctx.mntId, ctx.ts, BaseName(t.path)))];
    }
  }

  /** Executions of one file with every host call succeeding copy it once at
      first (unless already captured with that change time) and then once more
      per change of its change time, never otherwise. */
  lemma {:induction false} CopiesFollowCtimeChanges(cfg: Config, host: HostReplies, ctx: Context, pid: uint32, path: string, ctimes: seq<int64>, s: ExecState)
    requires cfg.captureExec && host.mkdirOk && host.copyOk && ctimes != []
    ensures var id := CapturedFileId(ctx.mntId, ProcRoot(pid, path));
      CopyCount(CaptureRun(cfg, host, ctx, pid, path, ctimes, s).calls)
        == CopyCount(s.calls) + (if NeedsCopy(s.captured, id, ctimes[0]) then 1 else 0) + CtimeChanges(ctimes)
    decreases |ctimes|
  {
    var id := CapturedFileId(ctx.mntId, ProcRoot(pid, path));
    var s1 := AfterCapture(cfg, host, ctx, ExecTarget(path, pid, ctimes[0]), s);
    SuccessfulCaptureRecordsCtime(cfg, host, ctx, ExecTarget(path, pid, ctimes[0]), s);
    if |ctimes| >= 2 {
      CopiesFollowCtimeChanges(cfg, host, ctx, pid, path, ctimes[1..], s1);
      assert NeedsCopy(s1.captured, id, ctimes[1]) <==> ctimes[0] != ctimes[1];
    }
  }

  /** A second hashing of the same file reuses the stored hash, without hashing
      the file again, iff its change time is unchanged; otherwise the fresh digest
      is used. */
  lemma RepeatedHashReusesCachedValue(host1: HostReplies, host2: HostReplies, id: CapturedFileId, source: SourcePath,
                                      c1: int64, c2: int64, s: ExecState, s': ExecState, s'': ExecState)
    requires HashStep(host1, id, source, c1, s, s') && HashStep(host2, id, source, c2, s', s'')
    ensures "sha256" in s'.args && "sha256" in s''.args
    ensures c2 == c1 ==> s''.calls == s'.calls && s''.args["sha256"] == s'.args["sha256"]
    ensures c2 != c1 ==> s''.calls == s'.calls + [FileHash(source)] && s''.args["sha256"] == Str(host2.digest)
  {
  }

  /** The hashing step leaves the hashed file's entry holding the current change
      time and the hash the event received. */
  lemma HashStepStores(host: HostReplies, id: CapturedFileId, source: SourcePath, ctime: int64, s: ExecState, s': ExecState)
    requires HashStep(host, id, source, ctime, s, s')
    ensures var entry := if id in s.hashes then Some(s.hashes[id]) else None;
      var h := HashFor(entry, ctime, host.digest);
      && id in s'.hashes && s'.hashes[id] == FileExecInfo(ctime, h)
      && s'.args == s.args["sha256" := Str(h)]
  {
  }

  /** With capture and hashing on and directory creation and copying succeeding,
      the exec handler reports no error and goes on from the capture step to the
      hashing step. */
  lemma SuccessfulCaptureThenHash(cfg: Config, host: HostReplies, ctx: Context, t: ExecTarget, s: ExecState, s': ExecState, status: Status)
    requires cfg.captureExec && cfg.outputExecHash && host.mkdirOk && host.copyOk
    requires ExecOutcome(cfg, host, ctx, Parsed(Some(t)), s, s', status)
    ensures var source := ProcRoot(t.pid, t.path);
      && status == NoError
      && HashStep(host, CapturedFileId(ctx.mntId, source), source, t.ctime, AfterCapture(cfg, host, ctx, t, s), s')
  {
  }

  /** A successful capture step followed by the hashing step: the change time
      recorded, the hash cached and added to the event with one more argument, and
      the host calls made: the directory, the copy iff the file was not captured
      with this change time, the hash iff the cached one is stale. */
  lemma SuccessfulExec(cfg: Config, host: HostReplies, ctx: Context, t: ExecTarget, s: ExecState, s': ExecState)
    requires cfg.captureExec && host.mkdirOk && host.copyOk
    requires var source := ProcRoot(t.pid, t.path);
      HashStep(host, CapturedFileId(ctx.mntId, source), source, t.ctime, AfterCapture(cfg, host, ctx, t, s), s')
    ensures var source := ProcRoot(t.pid, t.path);
      var id := CapturedFileId(ctx.mntId, source);
      var entry := if id in s.hashes then Some(s.hashes[id]) else None;
      var h := HashFor(entry, t.ctime, host.digest);
      && s'.captured == s.captured[id := t.ctime]
      && id in s'.hashes && s'.hashes[id] == FileExecInfo(t.ctime, h)
      && s'.args == s.args["sha256" := Str(h)]
      && s'.ctx == s.ctx.(argnum := s.ctx.argnum + 1)
      && s'.calls == s.calls
        + ([MkdirAll(ctx.mntId)] + if NeedsCopy(s.captured, id, t.ctime) then [CopyFile(source, CaptureDest(ctx.mntId, ctx.ts, BaseName(t.path)))] else [])
        + (if CacheHit(entry, t.ctime) then [] else [FileHash(source)])
  {
    var source := ProcRoot(t.pid, t.path);
    var id := CapturedFileId(ctx.mntId, source);
    var mid := AfterCapture(cfg, host, ctx, t, s);
    SuccessfulCaptureRecordsCtime(cfg, host, ctx, t, s);
    HashStepStores(host, id, source, t.ctime, mid, s');
  }

  /** A file not yet captured or hashed, executed twice with the same change time,
      every host call succeeding: both executions succeed, the file is copied and
      hashed once, and the second event carries the first hash whatever the file
      would hash to now. */
  lemma RepeatedExecCopiesAndHashesOnce(cfg: Config, t: ExecTarget, ctx1: Context, ctx2: Context, host1: HostReplies, host2: HostReplies,
                                        s0: ExecState, s1: ExecState, s2: ExecState, s3: ExecState, status1: Status, status2: Status)
    requires cfg.captureExec && cfg.outputExecHash
    requires host1.mkdirOk && host1.copyOk && host2.mkdirOk && host2.copyOk
    requires ctx1.mntId == ctx2.mntId
    requires var id := CapturedFileId(ctx1.mntId, ProcRoot(t.pid, t.path)); id !in s0.captured && id !in s0.hashes
    requires ExecOutcome(cfg, host1, ctx1, Parsed(Some(t)), s0, s1, status1)
    requires s2 == s1.(ctx := ctx2, args := s2.args, argMetas := s2.argMetas)
    requires ExecOutcome(cfg, host2, ctx2, Parsed(Some(t)), s2, s3, status2)
    ensures status1 == NoError && status2 == NoError
    ensures var source := ProcRoot(t.pid, t.path);
      s3.calls == s0.calls + [MkdirAll(ctx1.mntId), CopyFile(source, CaptureDest(ctx1.mntId, ctx1.ts, BaseName(t.path))),
                              FileHash(source), MkdirAll(ctx1.mntId)]
    ensures s3.args == s2.args["sha256" := Str(host1.digest)]
    ensures s3.ctx == ctx2.(argnum := ctx2.argnum + 1)
  {
    SuccessfulCaptureThenHash(cfg, host1, ctx1, t, s0, s1, status1);
    SuccessfulExec(cfg, host1, ctx1, t, s0, s1);
    SuccessfulCaptureThenHash(cfg, host2, ctx2, t, s2, s3, status2);
    SuccessfulExec(cfg, host2, ctx2, t, s2, s3);
  }

}
