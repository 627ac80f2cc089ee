// Values that travel with one kernel event: its context record, its
// dynamically-typed argument map, and the text forms the filters compare.

module Events {

  datatype Option<T> = None | Some(value: T)

  type uint32 = x: int | 0 <= x < 0x1_0000_0000
  type uint64 = x: int | 0 <= x < 0x1_0000_0000_0000_0000
  type int64 = x: int | -0x8000_0000_0000_0000 <= x < 0x8000_0000_0000_0000

  /** Event-type identifiers the dispatcher switches on; every other id is OtherEvent. */
  datatype EventId = VfsWrite | VfsWritev | SchedProcessExec | Socket | OtherEvent(id: int)
  {
    predicate IsWrite() { this == VfsWrite || this == VfsWritev }
  }

  /** The decoded context of one event. argnum is the only field the processor changes. */
  datatype Context = Context(
    eventId: EventId,
    pid: uint32,
    hostPid: uint32,
    mntId: uint32,
    ts: uint64,
    retval: int64,
    argnum: nat)

  /** An argument value as the decoder hands it over: one Go dynamic type per tag.
      Other stands for a value of any other type, carrying its printed form. */
  datatype ArgValue =
    | Str(s: string)
    | U32(u32: uint32)
    | U64(u64: uint64)
    | I64(i64: int64)
    | Other(text: string)

  datatype ArgMeta = ArgMeta(name: string, argType: string)

  /** The type assertion args[name].(string): fails when the key is absent or holds another type. */
  function AsString(args: map<string, ArgValue>, name: string): (r: Option<string>)
    ensures r.Some? <==> name in args && args[name].Str?
    ensures r.Some? ==> args[name] == Str(r.value)
  {
    if name in args && args[name].Str? then Some(args[name].s) else None
  }

  /** The type assertion args[name].(uint32). */
  function AsU32(args: map<string, ArgValue>, name: string): (r: Option<uint32>)
    ensures r.Some? <==> name in args && args[name].U32?
    ensures r.Some? ==> args[name] == U32(r.value)
  {
    if name in args && args[name].U32? then Some(args[name].u32) else None
  }

  /** The type assertion args[name].(uint64). */
  function AsU64(args: map<string, ArgValue>, name: string): (r: Option<uint64>)
    ensures r.Some? <==> name in args && args[name].U64?
    ensures r.Some? ==> args[name] == U64(r.value)
  {
    if name in args && args[name].U64? then Some(args[name].u64) else None
  }

  /** The type assertion args[name].(int64). */
  function AsI64(args: map<string, ArgValue>, name: string): (r: Option<int64>)
    ensures r.Some? <==> name in args && args[name].I64?
    ensures r.Some? ==> args[name] == I64(r.value)
  {
    if name in args && args[name].I64? then Some(args[name].i64) else None
  }

  predicate IsDigit(c: char) { '0' <= c <= '9' }

  /** Decimal digits of n without leading zeros, as fmt prints an unsigned integer. */
  function Decimal(n: nat): (r: string)
    ensures |r| > 0 && (forall i :: 0 <= i < |r| ==> IsDigit(r[i]))
    ensures |r| > 1 ==> r[0] != '0'
    ensures n < 10 <==> |r| == 1
  {
    if n < 10 then [('0' as int + n) as char]
    else Decimal(n / 10) + [('0' as int + n % 10) as char]
  }

  /** fmt.Sprint of an argument value: strings print as themselves, integers in decimal. */
  function Sprint(v: ArgValue): (r: string)
    ensures v.Str? ==> r == v.s
    ensures v.U32? || v.U64? || (v.I64? && v.i64 >= 0) ==> |r| > 0 && IsDigit(r[0])
    ensures v.I64? && v.i64 < 0 ==> |r| > 1 && r[0] == '-'
  {
    match v
    case Str(s) => s
    case U32(n) => Decimal(n)
    case U64(n) => Decimal(n)
    case I64(n) => if n < 0 then "-" + Decimal(-(n as int)) else Decimal(n)
    case Other(text) => text
  }

  /** The part of s after its last '/', or all of s when it has none. */
  function AfterLastSlash(s: string): (r: string)
    ensures |r| <= |s| && r == s[|s| - |r|..]
    ensures forall i :: 0 <= i < |r| ==> r[i] != '/'
    ensures |r| < |s| ==> s[|s| - |r| - 1] == '/'
  {
    if s == [] || s[|s| - 1] == '/' then []
    else AfterLastSlash(s[..|s| - 1]) + [s[|s| - 1]]
  }

  /** The part of s left after removing every trailing '/'. */
  function TrimTrailingSlashes(s: string): (r: string)
    ensures |r| <= |s| && r == s[..|r|]
    ensures r == [] || r[|r| - 1] != '/'
    ensures forall i :: |r| <= i < |s| ==> s[i] == '/'
  {
    if s != [] && s[|s| - 1] == '/' then
      var r := TrimTrailingSlashes(s[..|s| - 1]);
      assert s[..|s| - 1][..|r|] == s[..|r|];
      r
    else s
  }

  /** filepath.Base on a Unix path: the last element, trailing slashes removed;
      "." for the empty path and "/" for a path made only of slashes. */
  function BaseName(path: string): (r: string)
    ensures r != []
    ensures r == "/" || r == "." || forall i :: 0 <= i < |r| ==> r[i] != '/'
  {
    if path == [] then "."
    else
      var trimmed := TrimTrailingSlashes(path);
      if trimmed == [] then "/"
      else AfterLastSlash(trimmed)
  }

  predicate IsAbsolute(path: string) { path != [] && path[0] == '/' }
}
