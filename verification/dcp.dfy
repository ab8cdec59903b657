/** The decisions `main` in src/dcp/dcp.c makes before it hands over to the
    copy library: option handling, walk-or-read, usage and the exit code.
    `getopt_long` is represented by the sequence of options it returns; the
    outcome of `mfu_param_path_check_copy` is the given flag `valid`. */
module Dcp {
  import opened Wrappers
  import opened HandleArgs

  /** libcircle's log levels. */
  datatype CircleLevel = CircleFatal | CircleErr | CircleWarn | CircleInfo | CircleDbg

  /** mfu's log levels. */
  datatype MfuLevel = MfuFatal | MfuErr | MfuWarn | MfuInfo | MfuVerbose | MfuDbg

  /** One option as `getopt_long` returns it. `Other` is any code the switch
      does not handle: `-u` and, in a build without Lustre support, `-g`. */
  datatype Token =
    | Debug(level: string)
    | Input(file: string)
    | Preserve
    | Synchronous
    | Sparse
    | Verbose
    | Help
    | Unrecognized
    | Other(code: char)

  /** The state the option loop builds up. */
  datatype Settings = Settings(
    circle: CircleLevel,
    mfu: MfuLevel,
    input: Option<string>,
    preserve: bool,
    synchronous: bool,
    sparse: bool,
    usage: bool)

  /** Before any option: info for mfu, one level quieter (warn) for libcircle. */
  const Defaults := Settings(CircleWarn, MfuInfo, None, false, false, false, false)

  /** The chunk size `main` stores in the options record: 1 MiB. */
  const DefaultChunkSize: nat := 1024 * 1024

  /** The `-d` keywords in the order they are tried, with the levels they set. */
  const DebugTable: seq<(string, CircleLevel, MfuLevel)> := [
    ("fatal", CircleFatal, MfuFatal),
    ("err", CircleErr, MfuErr),
    ("warn", CircleWarn, MfuWarn),
    ("info", CircleWarn, MfuInfo),
    ("dbg", CircleDbg, MfuDbg)
  ]

  /** The levels `-d arg` selects: the first keyword that `arg` starts with
      (`strncmp` over the keyword's length), or nothing for an unknown level. */
  function DebugLevels(arg: string): (r: Option<(CircleLevel, MfuLevel)>)
    ensures r.None? <==> forall i :: 0 <= i < |DebugTable| ==> !(DebugTable[i].0 <= arg)
    ensures r.Some? ==>
              exists i :: 0 <= i < |DebugTable| && DebugTable[i].0 <= arg
                && r.value == (DebugTable[i].1, DebugTable[i].2)
  {
    assert |DebugTable| == 5;
    assert DebugTable[0].0 == "fatal" && DebugTable[1].0 == "err" && DebugTable[2].0 == "warn";
    assert DebugTable[3].0 == "info" && DebugTable[4].0 == "dbg";
    if "fatal" <= arg then Some((CircleFatal, MfuFatal))
    else if "err" <= arg then Some((CircleErr, MfuErr))
    else if "warn" <= arg then Some((CircleWarn, MfuWarn))
    else if "info" <= arg then Some((CircleWarn, MfuInfo))
    else if "dbg" <= arg then Some((CircleDbg, MfuDbg))
    else None
  }

  /** No string starts with two of the keywords, so the order in which the
      chain tries them never decides the outcome. */
  lemma DebugKeywordsExclusive(arg: string, i: nat, j: nat)
    requires i < j < |DebugTable|
    ensures !(DebugTable[i].0 <= arg && DebugTable[j].0 <= arg)
  {
    assert DebugTable[i].0[0] != DebugTable[j].0[0];
  }

  /** One pass of the option switch. */
  function ApplyToken(s: Settings, t: Token): Settings {
    match t
    case Debug(level) =>
      (match DebugLevels(level)
       case Some(levels) => s.(circle := levels.0, mfu := levels.1)
       case None => s)
    case Input(file) => s.(input := Some(file))
    case Preserve => s.(preserve := true)
    case Synchronous => s.(synchronous := true)
    case Sparse => s.(sparse := true)
    case Verbose => s.(mfu := MfuVerbose)
    case Help => s.(usage := true)
    case Unrecognized => s.(usage := true)
    case Other(_) => s
  }

  /** The option loop: the options applied left to right. */
  function ApplyAll(s: Settings, ts: seq<Token>): Settings
    decreases |ts|
  {
    if ts == [] then s else ApplyAll(ApplyToken(s, ts[0]), ts[1..])
  }

  function ParseOptions(ts: seq<Token>): Settings {
    ApplyAll(Defaults, ts)
  }

  /*
   * A reference reading of the option loop, from the right: each setting is
   * decided by the last option that touches it.
   */

  /** The value set by the last option with an effect, or `dflt`. */
  function LastEffect<T>(ts: seq<Token>, effect: Token -> Option<T>, dflt: T): T
    decreases |ts|
  {
    if ts == [] then dflt
    else
      match effect(ts[|ts| - 1])
      case Some(v) => v
      case None => LastEffect(ts[..|ts| - 1], effect, dflt)
  }

  function CircleEffect(t: Token): Option<CircleLevel> {
    match t
    case Debug(level) => if DebugLevels(level).Some? then Some(DebugLevels(level).value.0) else None
    case _ => None
  }

  function MfuEffect(t: Token): Option<MfuLevel> {
    match t
    case Debug(level) => if DebugLevels(level).Some? then Some(DebugLevels(level).value.1) else None
    case Verbose => Some(MfuVerbose)
    case _ => None
  }

  function InputEffect(t: Token): Option<Option<string>> {
    match t
    case Input(file) => Some(Some(file))
    case _ => None
  }

  predicate RequestsUsage(t: Token) {
    t == Help || t == Unrecognized
  }

  lemma {:induction false} ApplyAllSnoc(s: Settings, ts: seq<Token>, t: Token)
    ensures ApplyAll(s, ts + [t]) == ApplyToken(ApplyAll(s, ts), t)
    decreases |ts|
  {
    if ts == [] {
      assert ([] + [t])[1..] == [];
    } else {
      assert (ts + [t])[0] == ts[0];
      assert (ts + [t])[1..] == ts[1..] + [t];
      ApplyAllSnoc(ApplyToken(s, ts[0]), ts[1..], t);
    }
  }

  /** The option loop agrees with the reference reading: the last `-d` or
      `-v` decides the levels, the last `--input` names the list, and the
      flags and the usage request are set once any option asks for them. */
  lemma {:induction false} ApplyAllLastWins(s: Settings, ts: seq<Token>)
    ensures ApplyAll(s, ts).circle == LastEffect(ts, CircleEffect, s.circle)
    ensures ApplyAll(s, ts).mfu == LastEffect(ts, MfuEffect, s.mfu)
    ensures ApplyAll(s, ts).input == LastEffect(ts, InputEffect, s.input)
    ensures ApplyAll(s, ts).preserve == (s.preserve || Preserve in ts)
    ensures ApplyAll(s, ts).synchronous == (s.synchronous || Synchronous in ts)
    ensures ApplyAll(s, ts).sparse == (s.sparse || Sparse in ts)
    ensures ApplyAll(s, ts).usage == (s.usage || exists i :: 0 <= i < |ts| && RequestsUsage(ts[i]))
    decreases |ts|
  {
    if ts != [] {
      var init := ts[..|ts| - 1];
      var t := ts[|ts| - 1];
      assert ts == init + [t];
      ApplyAllSnoc(s, init, t);
      ApplyAllLastWins(s, init);
      SnocMembership(init, t);
      ApplyTokenEffects(ApplyAll(s, init), t);
    }
  }

  /** One option changes exactly the settings its effect names. */
  lemma ApplyTokenEffects(s: Settings, t: Token)
    ensures ApplyToken(s, t).circle == (if CircleEffect(t).Some? then CircleEffect(t).value else s.circle)
    ensures ApplyToken(s, t).mfu == (if MfuEffect(t).Some? then MfuEffect(t).value else s.mfu)
    ensures ApplyToken(s, t).input == (if InputEffect(t).Some? then InputEffect(t).value else s.input)
    ensures ApplyToken(s, t).preserve == (s.preserve || t == Preserve)
    ensures ApplyToken(s, t).synchronous == (s.synchronous || t == Synchronous)
    ensures ApplyToken(s, t).sparse == (s.sparse || t == Sparse)
    ensures ApplyToken(s, t).usage == (s.usage || RequestsUsage(t))
  {
  }

  lemma SnocMembership(init: seq<Token>, t: Token)
    ensures Preserve in init + [t] <==> Preserve in init || t == Preserve
    ensures Synchronous in init + [t] <==> Synchronous in init || t == Synchronous
    ensures Sparse in init + [t] <==> Sparse in init || t == Sparse
    ensures (exists i :: 0 <= i < |init + [t]| && RequestsUsage((init + [t])[i])) <==>
            (exists i :: 0 <= i < |init| && RequestsUsage(init[i])) || RequestsUsage(t)
  {
    var ts := init + [t];
    if RequestsUsage(t) {
      assert RequestsUsage(ts[|ts| - 1]);
    }
    forall i | 0 <= i < |init| && RequestsUsage(init[i])
      ensures RequestsUsage(ts[i])
    {
      assert ts[i] == init[i];
    }
  }

  /** `-p`, `-s` and `-S` only ever switch their flag on. */
  lemma ParseOptionsFlags(ts: seq<Token>)
    ensures ParseOptions(ts).preserve <==> Preserve in ts
    ensures ParseOptions(ts).synchronous <==> Synchronous in ts
    ensures ParseOptions(ts).sparse <==> Sparse in ts
    ensures ParseOptions(ts).input.Some? <==> exists i :: 0 <= i < |ts| && ts[i].Input?
  {
    ApplyAllLastWins(Defaults, ts);
    LastInputIsSome(ts);
  }

  lemma {:induction false} LastInputIsSome(ts: seq<Token>)
    ensures LastEffect(ts, InputEffect, None).Some? <==> exists i :: 0 <= i < |ts| && ts[i].Input?
    decreases |ts|
  {
    if ts != [] {
      var init := ts[..|ts| - 1];
      LastInputIsSome(init);
      if !ts[|ts| - 1].Input? {
        assert forall i :: 0 <= i < |init| ==> init[i] == ts[i];
      }
    }
  }

  /** A later `-d` with a known level overrides everything before it, as long
      as no `-d` or `-v` follows it. */
  lemma LaterDebugOverrides(before: seq<Token>, level: string, after: seq<Token>)
    requires DebugLevels(level).Some?
    requires forall i :: 0 <= i < |after| ==> MfuEffect(after[i]).None? && CircleEffect(after[i]).None?
    ensures ParseOptions(before + [Debug(level)] + after).circle == DebugLevels(level).value.0
    ensures ParseOptions(before + [Debug(level)] + after).mfu == DebugLevels(level).value.1
  {
    var ts := before + [Debug(level)] + after;
    ApplyAllLastWins(Defaults, ts);
    LastEffectSkipsSilentSuffix(before + [Debug(level)], after, CircleEffect, CircleWarn);
    LastEffectSkipsSilentSuffix(before + [Debug(level)], after, MfuEffect, MfuInfo);
  }

  lemma {:induction false} LastEffectSkipsSilentSuffix<T>(
    prefix: seq<Token>, suffix: seq<Token>, effect: Token -> Option<T>, dflt: T)
    requires forall i :: 0 <= i < |suffix| ==> effect(suffix[i]).None?
    ensures LastEffect(prefix + suffix, effect, dflt) == LastEffect(prefix, effect, dflt)
    decreases |suffix|
  {
    if suffix != [] {
      var ts := prefix + suffix;
      var init := suffix[..|suffix| - 1];
      assert ts[|ts| - 1] == suffix[|suffix| - 1];
      assert ts[..|ts| - 1] == prefix + init;
      LastEffectSkipsSilentSuffix(prefix, init, effect, dflt);
    } else {
      assert prefix + suffix == prefix;
    }
  }

  /*
   * From the options to the exit code.
   */

  /** What the run does: a walk of the given sources into the destination,
      or a replay of a saved list. */
  datatype Mode = Walk(sources: seq<string>, dest: string) | ReadList(file: string)

  /** How `main` ends. `Copy` returns 0 whatever the copy itself reports. */
  datatype Outcome = InvalidPaths | PrintUsage | Copy(mode: Mode, preserve: bool, opts: Options)

  function ExitCode(r: Outcome): int {
    if r.Copy? then 0 else 1
  }

  /** `main`'s decision chain: the options, then the path arguments (walk iff
      there are any; usage when paths and `--input` meet, or when neither is
      given), then `!valid` before usage. The copy receives the preserve flag
      of the global options record, which the option loop never writes. */
  function Run(ts: seq<Token>, paths: seq<string>, valid: bool, user: Options): (r: Outcome)
    ensures r == InvalidPaths <==> !valid
    ensures r == PrintUsage <==>
              valid && (|| (exists i :: 0 <= i < |ts| && RequestsUsage(ts[i]))
                        || (|paths| > 0 && exists i :: 0 <= i < |ts| && ts[i].Input?)
                        || (|paths| == 0 && forall i :: 0 <= i < |ts| ==> !ts[i].Input?))
    ensures ExitCode(r) == 0 <==> r.Copy?
    ensures r.Copy? ==> r.preserve == user.preserve && r.opts == user.(chunkSize := DefaultChunkSize)
    ensures r.Copy? && r.mode.Walk? ==> |paths| > 0 && r.mode.sources + [r.mode.dest] == paths
    ensures r.Copy? && r.mode.ReadList? ==>
              |paths| == 0 && Some(r.mode.file) == ParseOptions(ts).input
  {
    var s := ParseOptions(ts);
    ApplyAllLastWins(Defaults, ts);
    ParseOptionsFlags(ts);
    var walk := |paths| > 0;
    var usage := if walk then s.usage || s.input.Some? else s.usage || s.input.None?;
    var opts := user.(chunkSize := DefaultChunkSize);
    if !valid then InvalidPaths
    else if usage then PrintUsage
    else if walk then
      assert paths[..|paths| - 1] + [paths[|paths| - 1]] == paths;
      Copy(Walk(paths[..|paths| - 1], paths[|paths| - 1]), opts.preserve, opts)
    else
      Copy(ReadList(s.input.value), opts.preserve, opts)
  }

  /** The arguments `main` hands to `mfu_param_path_check_copy`: the number
      of source paths and the index of the destination within the paths. */
  datatype CheckCopyCall = CheckCopyCall(numSources: int, destIndex: int)

  /** The call is made with `numpaths - 1` sources and `&paths[numpaths - 1]`
      as destination, before the walk-or-replay choice is acted on. With
      paths the sources are all but the last path and the destination is the
      last one; without paths both are -1, so the destination lies outside
      the array. */
  function CheckCopyArgs(paths: seq<string>): (c: CheckCopyCall)
    ensures c.numSources == c.destIndex
    ensures paths != [] ==>
              0 <= c.destIndex < |paths| && paths[..c.numSources] + [paths[c.destIndex]] == paths
    ensures paths == [] ==> c.destIndex < 0
  {
    assert paths != [] ==> paths[..|paths| - 1] + [paths[|paths| - 1]] == paths;
    CheckCopyCall(|paths| - 1, |paths| - 1)
  }

  /** The paths checked before the copy are those the copy uses when walking;
      a replay is only reached after the destination was taken from outside
      the (empty) path array. */
  lemma CheckCopyMatchesRun(ts: seq<Token>, paths: seq<string>, valid: bool, user: Options)
    requires Run(ts, paths, valid, user).Copy?
    ensures var r := Run(ts, paths, valid, user);
            var c := CheckCopyArgs(paths);
            && (r.mode.Walk? ==>
                  0 <= c.destIndex < |paths| && r.mode.dest == paths[c.destIndex]
                  && r.mode.sources == paths[..c.numSources])
            && (r.mode.ReadList? ==> !(0 <= c.destIndex < |paths|))
  {
    var r := Run(ts, paths, valid, user);
    var c := CheckCopyArgs(paths);
    if r.mode.Walk? {
      assert r.mode.sources + [r.mode.dest] == paths[..c.numSources] + [paths[c.destIndex]];
      assert |r.mode.sources| == c.numSources;
      assert r.mode.sources == (r.mode.sources + [r.mode.dest])[..c.numSources];
    }
  }

  /** As written, `-p` does not reach the copy: with the global flag clear,
      a run given `-p` copies without preserving. */
  lemma PreserveOptionIgnored(ts: seq<Token>, paths: seq<string>, user: Options)
    requires !user.preserve && Preserve in ts
    requires Run(ts, paths, true, user).Copy?
    ensures ParseOptions(ts).preserve
    ensures !Run(ts, paths, true, user).preserve
  {
    ParseOptionsFlags(ts);
  }

  /** `main` as intended: the copy receives the preserve flag that `-p`
      sets. Everything else, the exit code and the mode included, is as in
      `Run`. */
  function RunIntended(ts: seq<Token>, paths: seq<string>, valid: bool, user: Options): (r: Outcome)
    ensures r.Copy? <==> Run(ts, paths, valid, user).Copy?
    ensures !r.Copy? ==> r == Run(ts, paths, valid, user)
    ensures r.Copy? ==>
              && r.mode == Run(ts, paths, valid, user).mode
              && r.opts == Run(ts, paths, valid, user).opts.(preserve := r.preserve)
              && r.opts.preserve == r.preserve
              && (r.preserve <==> Preserve in ts)
  {
    ParseOptionsFlags(ts);
    var s := ParseOptions(ts);
    match Run(ts, paths, valid, user)
    case Copy(mode, _, opts) => Copy(mode, s.preserve, opts.(preserve := s.preserve))
    case other => other
  }
}
