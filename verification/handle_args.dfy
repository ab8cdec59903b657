/** The destination-topology classifier and path-argument handling of
    src/handle_args.c.

    The C code keeps everything in one global options record and stops the
    program with `exit(EXIT_FAILURE)` on a bad argument. Here the record is an
    immutable `Options` value, every step returns the updated record, and an
    exit becomes an `Err(Failure)`. The array of source pointers becomes a
    sequence whose elements are `None` where `realpath` returned NULL. */
module HandleArgs {
  import opened Wrappers
  import opened PathString
  import opened FileSystem

  /** The fields of `DCOPY_options_t` that these functions read or write. */
  datatype Options = Options(
    destPath: Option<string>,
    srcPaths: seq<Option<string>>,
    destBaseIndex: nat,
    recursive: bool,
    recursiveUnspecified: bool,
    preserve: bool,
    chunkSize: nat)

  /** Why the argument handling stops the program. */
  datatype Failure =
    | Usage                                    // fewer than a source and a destination
    | UnresolvedPath(path: string)             // "Could not determine the path for ..."
    | CannotOverwrite(dest: string, src: string) // "Cannot overwrite non-directory ... with directory ..."

  /** Which branch of `DCOPY_enqueue_work_objects` was taken. */
  datatype Branch = Overwrite | FanOut | ImpossibleCondition | UnsupportedFiletype

  /** The outcome of `DCOPY_enqueue_work_objects`: the branch, the options
      record afterwards, and the source paths it announces for enqueueing. */
  datatype Enqueued = Enqueued(branch: Branch, opts: Options, announced: seq<Option<string>>)

  /*
   * Counting and scanning the sources.
   */

  /** `DCOPY_source_file_count`: one increment per source path. */
  function SourceFileCount(srcs: seq<Option<string>>): (n: nat)
    ensures n == |srcs|
  {
    if srcs == [] then 0 else 1 + SourceFileCount(srcs[1..])
  }

  /** Whether the scan in `DCOPY_dest_is_dir` meets a regular file. */
  function AnyRegularFile(fs: Fs, srcs: seq<Option<string>>): (r: bool)
    ensures r <==> exists i :: 0 <= i < |srcs| && IsRegularFile(fs, srcs[i])
  {
    if srcs == [] then false else IsRegularFile(fs, srcs[0]) || AnyRegularFile(fs, srcs[1..])
  }

  /*
   * Destination classification.
   */

  /** `DCOPY_dest_is_dir`, with its booleans as written: an existing directory
      gives false and an existing regular file gives true. For any other
      destination the answer is false unless recursion is on, in which case it
      is true exactly when no source is a regular file. */
  function DestIsDir(opts: Options, fs: Fs): (r: bool)
    ensures KindOf(fs, opts.destPath) in {Directory, RegularFile} ==>
              (r <==> KindOf(fs, opts.destPath) == RegularFile)
    ensures KindOf(fs, opts.destPath) !in {Directory, RegularFile} ==>
              (r <==> (opts.recursive || opts.recursiveUnspecified)
                      && forall i :: 0 <= i < |opts.srcPaths| ==> !IsRegularFile(fs, opts.srcPaths[i]))
  {
    if IsDirectory(fs, opts.destPath) then false
    else if IsRegularFile(fs, opts.destPath) then true
    else if opts.recursive || opts.recursiveUnspecified then !AnyRegularFile(fs, opts.srcPaths)
    else false
  }

  /** For an existing destination the classification reads nothing but the
      destination's kind: neither the sources nor the recursion flags. */
  lemma DestIsDirIgnoresSources(a: Options, b: Options, fs: Fs)
    requires a.destPath == b.destPath
    requires KindOf(fs, a.destPath) in {Directory, RegularFile}
    ensures DestIsDir(a, fs) == DestIsDir(b, fs)
  {
  }

  /** The branch logic of `DCOPY_enqueue_work_objects` once the destination
      has been classified. */
  function Dispatch(destIsDir: bool, opts: Options, fs: Fs): (r: Enqueued)
    requires opts.destPath.Some?
    ensures r.branch != UnsupportedFiletype
    ensures r.branch == Overwrite <==>
              !destIsDir && |opts.srcPaths| == 1 && IsRegularFile(fs, opts.srcPaths[0])
    ensures r.branch == FanOut <==> destIsDir
    ensures r.branch == Overwrite ==>
              r.opts == opts.(destBaseIndex := |Basename(opts.destPath.value)|)
              && r.announced == opts.srcPaths
    ensures r.branch == FanOut ==>
              r.opts == opts.(destBaseIndex := |opts.destPath.value|) && r.announced == opts.srcPaths
    ensures r.branch == ImpossibleCondition ==> r.opts == opts && r.announced == []
  {
    var destIsFile := !destIsDir;
    var count := SourceFileCount(opts.srcPaths);
    if destIsFile then
      if count == 1 && IsRegularFile(fs, opts.srcPaths[0]) then
        Enqueued(Overwrite, opts.(destBaseIndex := |Basename(opts.destPath.value)|), [opts.srcPaths[0]])
      else
        Enqueued(ImpossibleCondition, opts, [])
    else if destIsDir then
      Enqueued(FanOut, opts.(destBaseIndex := |opts.destPath.value|), opts.srcPaths)
    else
      Enqueued(UnsupportedFiletype, opts, [])
  }

  /** `DCOPY_enqueue_work_objects` as written. Because the classification is
      inverted for existing destinations, an existing directory only accepts
      a single regular-file source (as an overwrite), and an existing regular
      file always takes the fan-out branch. */
  function Enqueue(opts: Options, fs: Fs): (r: Enqueued)
    requires opts.destPath.Some?
    ensures r.branch != UnsupportedFiletype
    ensures IsDirectory(fs, opts.destPath) ==>
              (r.branch == Overwrite <==> |opts.srcPaths| == 1 && IsRegularFile(fs, opts.srcPaths[0]))
              && (r.branch == ImpossibleCondition <==> !(|opts.srcPaths| == 1 && IsRegularFile(fs, opts.srcPaths[0])))
    ensures IsRegularFile(fs, opts.destPath) ==>
              r.branch == FanOut && r.opts.destBaseIndex == |opts.destPath.value|
    ensures KindOf(fs, opts.destPath) !in {Directory, RegularFile}
            && !opts.recursive && !opts.recursiveUnspecified ==>
              r.branch in {Overwrite, ImpossibleCondition}
    ensures r.branch == ImpossibleCondition ==> r.opts == opts
  {
    Dispatch(DestIsDir(opts, fs), opts, fs)
  }

  /** A missing destination under recursion: the copy fans out when no source
      is a regular file, overwrites when the single source is one, and is
      refused whenever a regular file sits among several sources. */
  lemma EnqueueMissingDestination(opts: Options, fs: Fs)
    requires opts.destPath.Some? && KindOf(fs, opts.destPath) !in {Directory, RegularFile}
    requires opts.recursive || opts.recursiveUnspecified
    ensures Enqueue(opts, fs).branch == FanOut <==>
              forall i :: 0 <= i < |opts.srcPaths| ==> !IsRegularFile(fs, opts.srcPaths[i])
    ensures Enqueue(opts, fs).branch == Overwrite <==>
              |opts.srcPaths| == 1 && IsRegularFile(fs, opts.srcPaths[0])
    ensures |opts.srcPaths| > 1 && AnyRegularFile(fs, opts.srcPaths) ==>
              Enqueue(opts, fs).branch == ImpossibleCondition
  {
  }

  /*
   * Resolving the path arguments.
   */

  /** `DCOPY_parse_dest_path`: the destination's `realpath` when it resolves
      (the base index is then its length); otherwise the `realpath` of its
      `dirname` joined with its `basename` (the base index is left alone);
      otherwise the program stops. */
  function ParseDestPath(path: string, fs: Fs, opts: Options): (r: Result<Options, Failure>)
    ensures r.Ok? <==> fs.realpath(path).Some? || fs.realpath(Dirname(path)).Some?
    ensures r.Err? ==> r.error == UnresolvedPath(path)
    ensures r.Ok? ==> r.value.destPath.Some?
                      && r.value == opts.(destPath := r.value.destPath, destBaseIndex := r.value.destBaseIndex)
    ensures fs.realpath(path).Some? ==>
              r == Ok(opts.(destPath := fs.realpath(path), destBaseIndex := |fs.realpath(path).value|))
    ensures fs.realpath(path).None? && fs.realpath(Dirname(path)).Some? ==>
              r == Ok(opts.(destPath := Some(fs.realpath(Dirname(path)).value + "/" + Basename(path))))
    ensures fs.realpath(path).None? && r.Ok? ==>
              var base := fs.realpath(Dirname(path)).value;
              var dest := r.value.destPath.value;
              && r.value.destBaseIndex == opts.destBaseIndex
              && (Basename(path) != "/" ==> Basename(dest) == Basename(path))
              && (Basename(path) != "/" && CanonicalDir(base) ==> Dirname(dest) == base)
  {
    match fs.realpath(path)
    case Some(resolved) =>
      Ok(opts.(destPath := Some(resolved), destBaseIndex := |resolved|))
    case None =>
      match fs.realpath(Dirname(path))
      case None => Err(UnresolvedPath(path))
      case Some(base) =>
        var name := Basename(path);
        JoinedPathParts(base, name);
        Ok(opts.(destPath := Some(base + "/" + name)))
  }

  /** The parts of the fallback destination `base + "/" + name` read back. */
  lemma JoinedPathParts(base: string, name: string)
    requires name != [] && (name == "/" || SlashFree(name))
    ensures name != "/" ==> Basename(base + "/" + name) == name
    ensures name != "/" && CanonicalDir(base) ==> Dirname(base + "/" + name) == base
  {
    if name != "/" {
      BasenameOfJoin(base, name);
      if CanonicalDir(base) {
        DirnameBasenameJoin(base, name);
      }
    }
  }

  /** Every argument mapped through `realpath`, in order. */
  function ResolveAll(fs: Fs, args: seq<string>): (srcs: seq<Option<string>>)
    ensures |srcs| == |args|
    ensures forall i :: 0 <= i < |args| ==> srcs[i] == fs.realpath(args[i])
  {
    seq(|args|, i requires 0 <= i < |args| => fs.realpath(args[i]))
  }

  /** The refusal of `DCOPY_parse_src_paths`: the destination is an existing
      regular file and some source is a directory. */
  predicate OverwritesFileWithDirectory(fs: Fs, dest: Option<string>, srcs: seq<Option<string>>) {
    IsRegularFile(fs, dest) && exists i :: 0 <= i < |srcs| && IsDirectory(fs, srcs[i])
  }

  /** When `DCOPY_parse_src_paths` lets its arguments through. The null test
      looks at the destination, so a source that does not resolve is never
      refused on that account. */
  predicate SrcPathsAccepted(args: seq<string>, fs: Fs, opts: Options) {
    (args == [] || opts.destPath.Some?)
    && !OverwritesFileWithDirectory(fs, opts.destPath, ResolveAll(fs, args))
  }

  /** `DCOPY_parse_src_paths` over the source arguments `args` (the slice
      `argv[optind_local .. last_arg_index)`). */
  method ParseSrcPaths(args: seq<string>, fs: Fs, opts: Options) returns (r: Result<Options, Failure>)
    ensures r.Ok? <==> SrcPathsAccepted(args, fs, opts)
    ensures r.Ok? ==> r.value == opts.(srcPaths := ResolveAll(fs, args))
    ensures opts.destPath.None? && args != [] ==> r == Err(UnresolvedPath(args[0]))
    ensures r.Err? && opts.destPath.Some? ==>
              exists i :: 0 <= i < |args|
                && IsDirectory(fs, fs.realpath(args[i]))
                && r.error == CannotOverwrite(opts.destPath.value, fs.realpath(args[i]).value)
                && forall j :: 0 <= j < i ==> !IsDirectory(fs, fs.realpath(args[j]))
  {
    var destinationIsFile := IsRegularFile(fs, opts.destPath);
    var srcs: seq<Option<string>> := [];
    var i := 0;
    while i < |args|
      invariant 0 <= i <= |args|
      invariant |srcs| == i
      invariant forall j :: 0 <= j < i ==> srcs[j] == fs.realpath(args[j])
      invariant i > 0 ==> opts.destPath.Some?
      invariant destinationIsFile ==> forall j :: 0 <= j < i ==> !IsDirectory(fs, fs.realpath(args[j]))
    {
      var src := fs.realpath(args[i]);
      srcs := srcs + [src];
      if opts.destPath.None? {
        return Err(UnresolvedPath(args[i]));
      }
      if destinationIsFile && IsDirectory(fs, src) {
        return Err(CannotOverwrite(opts.destPath.value, src.value));
      }
      i := i + 1;
    }
    assert srcs == ResolveAll(fs, args);
    return Ok(opts.(srcPaths := srcs));
  }

  /** `DCOPY_parse_path_args`, with `argc` the length of `argv`: the last
      argument is the destination, the arguments from `optind` up to it are
      the sources. Fewer than two path arguments, or no `argv`, is a usage
      error. Only the destination can stop the program for not resolving. */
  method ParsePathArgs(argv: Option<seq<string>>, optind: nat, fs: Fs, opts: Options)
    returns (r: Result<Options, Failure>)
    requires argv.Some? ==> optind <= |argv.value|
    ensures argv.None? || |argv.value| - optind < 2 ==> r == Err(Usage)
    ensures argv.Some? && |argv.value| - optind >= 2 ==>
              var last := |argv.value| - 1;
              var parsed := ParseDestPath(argv.value[last], fs, opts);
              && (r.Ok? <==> parsed.Ok? && SrcPathsAccepted(argv.value[optind..last], fs, parsed.value))
              && (r.Ok? ==> r.value == parsed.value.(srcPaths := ResolveAll(fs, argv.value[optind..last])))
    ensures r.Err? && r.error.UnresolvedPath? ==>
              argv.Some? && r.error.path == argv.value[|argv.value| - 1]
  {
    if argv.None? || |argv.value| - optind < 2 {
      return Err(Usage);
    }
    var args := argv.value;
    var last := |args| - 1;
    var parsed := ParseDestPath(args[last], fs, opts);
    if parsed.Err? {
      return Err(parsed.error);
    }
    r := ParseSrcPaths(args[optind..last], fs, parsed.value);
  }

  /*
   * Corrected readings of two defects in the code as written. The functions
   * above follow the code; the ones below state what its comments intend.
   */

  /** `DCOPY_dest_is_dir` as its comment describes it: an existing directory
      is a directory and an existing regular file is a file. */
  function DestIsDirIntended(opts: Options, fs: Fs): (r: bool)
    ensures IsDirectory(fs, opts.destPath) ==> r
    ensures IsRegularFile(fs, opts.destPath) ==> !r
    ensures KindOf(fs, opts.destPath) !in {Directory, RegularFile} ==>
              (r <==> (opts.recursive || opts.recursiveUnspecified) && !AnyRegularFile(fs, opts.srcPaths))
  {
    if IsDirectory(fs, opts.destPath) then true
    else if IsRegularFile(fs, opts.destPath) then false
    else (opts.recursive || opts.recursiveUnspecified) && !AnyRegularFile(fs, opts.srcPaths)
  }

  /** The two classifications differ exactly on existing destinations, where
      the code's answer is the negation of the intended one. */
  lemma DestIsDirInverted(opts: Options, fs: Fs)
    ensures KindOf(fs, opts.destPath) in {Directory, RegularFile} <==>
              DestIsDir(opts, fs) != DestIsDirIntended(opts, fs)
  {
  }

  /** As written, copying two or more sources into an existing directory is
      refused as an impossible condition. */
  lemma ExistingDirectoryRefusesManySources(opts: Options, fs: Fs)
    requires opts.destPath.Some? && IsDirectory(fs, opts.destPath)
    requires |opts.srcPaths| >= 2
    ensures Enqueue(opts, fs).branch == ImpossibleCondition
    ensures EnqueueIntended(opts, fs).branch == FanOut
  {
  }

  /** `DCOPY_enqueue_work_objects` over the intended classification: every
      source goes into an existing directory, and an existing regular file is
      overwritten only by a single regular file. */
  function EnqueueIntended(opts: Options, fs: Fs): (r: Enqueued)
    requires opts.destPath.Some?
    ensures IsDirectory(fs, opts.destPath) ==>
              r.branch == FanOut && r.announced == opts.srcPaths
              && r.opts == opts.(destBaseIndex := |opts.destPath.value|)
    ensures IsRegularFile(fs, opts.destPath) ==>
              (r.branch == Overwrite <==> |opts.srcPaths| == 1 && IsRegularFile(fs, opts.srcPaths[0]))
              && (r.branch != Overwrite ==> r.branch == ImpossibleCondition && r.opts == opts)
  {
    Dispatch(DestIsDirIntended(opts, fs), opts, fs)
  }

  /** The first reason, scanning left to right, to refuse the sources when
      the null test looks at each source's own `realpath`. */
  function CheckSources(fs: Fs, destIsFile: bool, dest: string, args: seq<string>): (r: Option<Failure>)
    ensures r.None? <==>
              forall i :: 0 <= i < |args| ==>
                fs.realpath(args[i]).Some? && !(destIsFile && IsDirectory(fs, fs.realpath(args[i])))
    ensures r.Some? ==> r.value.UnresolvedPath? || r.value.CannotOverwrite?
  {
    if args == [] then None
    else
      var src := fs.realpath(args[0]);
      if src.None? then Some(UnresolvedPath(args[0]))
      else if destIsFile && IsDirectory(fs, src) then Some(CannotOverwrite(dest, src.value))
      else CheckSources(fs, destIsFile, dest, args[1..])
  }

  /** `DCOPY_parse_src_paths` with the null test on the source, as its log
      message (which names the source argument) intends: every source that
      gets through has resolved. */
  function ParseSrcPathsChecked(args: seq<string>, fs: Fs, opts: Options): (r: Result<Options, Failure>)
    requires opts.destPath.Some?
    ensures r.Ok? <==>
              (forall i :: 0 <= i < |args| ==> fs.realpath(args[i]).Some?)
              && !OverwritesFileWithDirectory(fs, opts.destPath, ResolveAll(fs, args))
    ensures r.Ok? ==>
              r.value == opts.(srcPaths := ResolveAll(fs, args))
              && forall i :: 0 <= i < |r.value.srcPaths| ==> r.value.srcPaths[i].Some?
  {
    match CheckSources(fs, IsRegularFile(fs, opts.destPath), opts.destPath.value, args)
    case Some(failure) => Err(failure)
    case None => Ok(opts.(srcPaths := ResolveAll(fs, args)))
  }

  /** As written, a source whose `realpath` fails is accepted and recorded as
      NULL whenever the destination is not a regular file; the checked
      version refuses it. */
  lemma UnresolvedSourceIsAccepted(args: seq<string>, fs: Fs, opts: Options, k: nat)
    requires opts.destPath.Some? && !IsRegularFile(fs, opts.destPath)
    requires k < |args| && fs.realpath(args[k]).None?
    ensures SrcPathsAccepted(args, fs, opts)
    ensures ResolveAll(fs, args)[k].None?
    ensures ParseSrcPathsChecked(args, fs, opts).Err?
  {
  }
}
