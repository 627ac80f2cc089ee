// The drop filter: decides from an event's return value and its arguments
// whether the event is processed at all.

module Filters {
  import opened Events

  /** Sentinels meaning "no Greater bound" and "no Less bound" (the int64 extremes). */
  const GreaterNotSetInt: int64 := -0x8000_0000_0000_0000
  const LessNotSetInt: int64 := 0x7FFF_FFFF_FFFF_FFFF

  /** Return-value filter of one event type: accept list, reject list, strict bounds. */
  datatype RetFilter = RetFilter(equal: seq<int64>, notEqual: seq<int64>, greater: int64, less: int64)

  datatype RetFilterConfig = RetFilterConfig(enabled: bool, filters: map<EventId, RetFilter>)

  /** Argument filter of one argument name: accept and reject pattern lists. */
  datatype ArgFilter = ArgFilter(equal: seq<string>, notEqual: seq<string>)

  datatype ArgFilterConfig = ArgFilterConfig(enabled: bool, filters: map<EventId, map<string, ArgFilter>>)

  datatype FilterConfig = FilterConfig(retFilter: RetFilterConfig, argFilter: ArgFilterConfig)

  /** Every pattern has a last character for the wildcard test to look at. */
  predicate PatternsNonEmpty(f: ArgFilter)
  {
    && (forall i :: 0 <= i < |f.equal| ==> f.equal[i] != [])
    && (forall i :: 0 <= i < |f.notEqual| ==> f.notEqual[i] != [])
  }

  predicate WellFormed(cfg: ArgFilterConfig)
  {
    forall id, name :: id in cfg.filters && name in cfg.filters[id] ==> PatternsNonEmpty(cfg.filters[id][name])
  }

  /** The argument filters of one event type; a type without an entry has none. */
  function ArgFiltersFor(cfg: ArgFilterConfig, id: EventId): (r: map<string, ArgFilter>)
    requires WellFormed(cfg)
    ensures id !in cfg.filters ==> r == map[]
    ensures id in cfg.filters ==> r == cfg.filters[id]
    ensures forall name :: name in r ==> PatternsNonEmpty(r[name])
  {
    if id in cfg.filters then cfg.filters[id] else map[]
  }

  /** Pattern p matches s when equal to it, or when p ends in '*' and s starts with the rest of p. */
  predicate PatternMatches(p: string, s: string)
    requires p != []
  {
    s == p || (p[|p| - 1] == '*' && p[..|p| - 1] <= s)
  }

  predicate RetvalPasses(f: RetFilter, v: int64)
  {
    && (|f.equal| == 0 || v in f.equal)
    && v !in f.notEqual
    && (f.greater == GreaterNotSetInt || v > f.greater)
    && (f.less == LessNotSetInt || v < f.less)
  }

  predicate ArgPasses(f: ArgFilter, s: string)
    requires PatternsNonEmpty(f)
  {
    && (|f.equal| == 0 || exists i :: 0 <= i < |f.equal| && PatternMatches(f.equal[i], s))
    && !(exists i :: 0 <= i < |f.notEqual| && PatternMatches(f.notEqual[i], s))
  }

  /** The return-value family drops nothing unless it is enabled and has a filter for the event. */
  predicate RetFamilyPasses(cfg: RetFilterConfig, ctx: Context)
  {
    cfg.enabled && ctx.eventId in cfg.filters ==> RetvalPasses(cfg.filters[ctx.eventId], ctx.retval)
  }

  /** The argument family checks only the configured names that the event carries. */
  predicate ArgFamilyPasses(cfg: ArgFilterConfig, ctx: Context, args: map<string, ArgValue>)
    requires WellFormed(cfg)
  {
    var filters := ArgFiltersFor(cfg, ctx.eventId);
    cfg.enabled ==> forall name :: name in filters && name in args ==> ArgPasses(filters[name], Sprint(args[name]))
  }

  /** The event is processed iff neither family rejects it. */
  predicate ShouldProcess(cfg: FilterConfig, ctx: Context, args: map<string, ArgValue>)
    requires WellFormed(cfg.argFilter)
  {
    RetFamilyPasses(cfg.retFilter, ctx) && ArgFamilyPasses(cfg.argFilter, ctx, args)
  }

  /** The return-value checks of one filter, in the source's order: accept list,
      reject list, lower bound, upper bound. */
  method CheckRetval(filter: RetFilter, retVal: int64) returns (pass: bool)
    ensures pass == RetvalPasses(filter, retVal)
  {
    var matched := false;
    var i := 0;
    while i < |filter.equal|
      invariant 0 <= i <= |filter.equal|
      invariant !matched
      invariant retVal !in filter.equal[..i]
    {
      if retVal == filter.equal[i] {
        matched := true;
        break;
      }
      i := i + 1;
    }
    assert matched ==> retVal in filter.equal;
    assert !matched ==> filter.equal[..i] == filter.equal;
    if !matched && |filter.equal| > 0 {
      return false;
    }
    i := 0;
    while i < |filter.notEqual|
      invariant 0 <= i <= |filter.notEqual|
      invariant retVal !in filter.notEqual[..i]
    {
      if retVal == filter.notEqual[i] {
        return false;
      }
      i := i + 1;
    }
    assert filter.notEqual[..i] == filter.notEqual;
    if filter.greater != GreaterNotSetInt && retVal <= filter.greater {
      return false;
    }
    if filter.less != LessNotSetInt && retVal >= filter.less {
      return false;
    }
    return true;
  }

  /** The checks of one argument's filter against the argument's printed value:
      some accept pattern must match (when there are any), no reject pattern may. */
  method CheckArg(filter: ArgFilter, argValStr: string) returns (pass: bool)
    requires PatternsNonEmpty(filter)
    ensures pass == ArgPasses(filter, argValStr)
  {
    var matched := false;
    var i := 0;
    while i < |filter.equal|
      invariant 0 <= i <= |filter.equal|
      invariant !matched
      invariant forall j :: 0 <= j < i ==> !PatternMatches(filter.equal[j], argValStr)
    {
      var f := filter.equal[i];
      if argValStr == f || (f[|f| - 1] == '*' && f[..|f| - 1] <= argValStr) {
        matched := true;
        break;
      }
      i := i + 1;
    }
    if !matched && |filter.equal| > 0 {
      return false;
    }
    i := 0;
    while i < |filter.notEqual|
      invariant 0 <= i <= |filter.notEqual|
      invariant forall j :: 0 <= j < i ==> !PatternMatches(filter.notEqual[j], argValStr)
    {
      var f := filter.notEqual[i];
      if argValStr == f || (f[|f| - 1] == '*' && f[..|f| - 1] <= argValStr) {
        return false;
      }
      i := i + 1;
    }
    return true;
  }

  /** shouldProcessEvent: the return-value family, then every configured argument
      the event carries. */
  method ShouldProcessEvent(cfg: FilterConfig, ctx: Context, args: map<string, ArgValue>) returns (pass: bool)
    requires WellFormed(cfg.argFilter)
    ensures pass == ShouldProcess(cfg, ctx, args)
  {
    if cfg.retFilter.enabled && ctx.eventId in cfg.retFilter.filters {
      pass := CheckRetval(cfg.retFilter.filters[ctx.eventId], ctx.retval);
      if !pass {
        return;
      }
    }

    if cfg.argFilter.enabled {
      var filters := ArgFiltersFor(cfg.argFilter, ctx.eventId);
      // Go ranges over the map in no fixed order: any order of the names is allowed here.
      var pending := filters.Keys;
      while pending != {}
        invariant pending <= filters.Keys
        invariant forall name :: name in filters && name !in pending && name in args ==>
                    ArgPasses(filters[name], Sprint(args[name]))
        decreases pending
      {
        var argName :| argName in pending;
        pending := pending - {argName};
        if argName !in args {
          continue;
        }
        pass := CheckArg(filters[argName], Sprint(args[argName]));
        if !pass {
          return;
        }
      }
    }

    return true;
  }

  // Properties of the filter.

  /** A non-empty accept list drops every return value it does not list. */
  lemma AcceptListDrops(cfg: FilterConfig, ctx: Context, args: map<string, ArgValue>)
    requires WellFormed(cfg.argFilter)
    requires cfg.retFilter.enabled && ctx.eventId in cfg.retFilter.filters
    requires var f := cfg.retFilter.filters[ctx.eventId]; |f.equal| > 0 && ctx.retval !in f.equal
    ensures !ShouldProcess(cfg, ctx, args)
  {
  }

  /** A listed rejected value drops the event whatever the accept list says. */
  lemma RejectListDrops(cfg: FilterConfig, ctx: Context, args: map<string, ArgValue>)
    requires WellFormed(cfg.argFilter)
    requires cfg.retFilter.enabled && ctx.eventId in cfg.retFilter.filters
    requires ctx.retval in cfg.retFilter.filters[ctx.eventId].notEqual
    ensures !ShouldProcess(cfg, ctx, args)
  {
  }

  /** A set bound is strict: a processed event lies strictly inside it. */
  lemma BoundsAreStrict(cfg: FilterConfig, ctx: Context, args: map<string, ArgValue>)
    requires WellFormed(cfg.argFilter)
    requires cfg.retFilter.enabled && ctx.eventId in cfg.retFilter.filters
    requires ShouldProcess(cfg, ctx, args)
    ensures var f := cfg.retFilter.filters[ctx.eventId];
      && (f.greater != GreaterNotSetInt ==> ctx.retval > f.greater)
      && (f.less != LessNotSetInt ==> ctx.retval < f.less)
  {
  }

  /** Without an enabled return-value filter for the event type, only the argument family decides. */
  lemma RetFamilyOffNeverDrops(cfg: FilterConfig, ctx: Context, args: map<string, ArgValue>)
    requires WellFormed(cfg.argFilter)
    requires !cfg.retFilter.enabled || ctx.eventId !in cfg.retFilter.filters
    ensures ShouldProcess(cfg, ctx, args) == ArgFamilyPasses(cfg.argFilter, ctx, args)
  {
  }

  /** With only a reject list, a value is dropped exactly when it is listed. */
  lemma RejectOnlyFilter(f: RetFilter, v: int64)
    requires f.equal == [] && f.greater == GreaterNotSetInt && f.less == LessNotSetInt
    ensures RetvalPasses(f, v) <==> v !in f.notEqual
  {
  }

  /** With both bounds set, a value passes iff it lies strictly between them, is not
      rejected and is accepted. */
  lemma BothBoundsSet(f: RetFilter, v: int64)
    requires f.greater != GreaterNotSetInt && f.less != LessNotSetInt
    ensures RetvalPasses(f, v) <==>
      f.greater < v < f.less && v !in f.notEqual && (f.equal == [] || v in f.equal)
  {
  }

  /** A pattern ending in '*' matches exactly the strings starting with the rest of it. */
  lemma WildcardMatchesPrefix(prefix: string, s: string)
    ensures PatternMatches(prefix + "*", s) <==> prefix <= s
  {
    var p := prefix + "*";
    assert p[..|p| - 1] == prefix;
    if s == p {
      assert s[..|prefix|] == prefix;
    }
  }

  /** A pattern not ending in '*' matches only itself. */
  lemma ExactPatternMatchesOnlyEqual(p: string, s: string)
    requires p != [] && p[|p| - 1] != '*'
    ensures PatternMatches(p, s) <==> s == p
  {
  }

  /** Configured names the event does not carry neither accept nor reject: dropping
      their filters changes nothing. */
  lemma AbsentArgumentsSkipped(cfg: ArgFilterConfig, ctx: Context, args: map<string, ArgValue>, absent: set<string>)
    requires WellFormed(cfg) && ctx.eventId in cfg.filters
    requires forall name :: name in absent ==> name !in args
    ensures var restricted := cfg.(filters := cfg.filters[ctx.eventId := cfg.filters[ctx.eventId] - absent]);
      WellFormed(restricted) && (ArgFamilyPasses(restricted, ctx, args) <==> ArgFamilyPasses(cfg, ctx, args))
  {
  }
}
