# dcp argument handling and input-list filter, in Dafny

This project models two decision layers of `dcp`, the parallel copy tool of
mpiFileUtils. Both layers are sequential and deterministic once the file
system is given as data.

- **Path arguments and destination topology** (`src/handle_args.c`). The
  argument vector is split into sources and a destination. The destination
  is resolved with `realpath`, falling back to `realpath(dirname) + "/" + basename`.
  A directory source over a regular-file destination is refused. The
  destination is then classified as a directory or a file. That decides
  whether the copy is a single-file overwrite, a fan-out into a directory,
  or an "impossible condition", and what `dest_base_index` becomes.
- **`main` of `dcp`** (`src/dcp/dcp.c`). It covers:
  - the option loop: `-d` level by keyword prefix, `-v`, `-i`, `-p`, `-s`, `-S`, `-h`;
  - the choice between walking the path arguments and replaying a saved list;
  - when usage is printed, and the exit code;
  - `DCOPY_input_flist_skip`, which keeps a replayed entry only if it lies at
    or under one of the source paths, compared component by component.

Files:

- `wrappers.dfy`: `Option` and `Result`.
- `path_string.dfy`: the POSIX `dirname`/`basename` pair and the split of a
  path into components.
- `file_system.dfy`: the file system as data. `stat` gives a `Kind`
  (directory, regular file, other, missing) and `realpath` may fail.
- `handle_args.dfy`: `src/handle_args.c`.
- `skip_filter.dfy`: `DCOPY_input_flist_skip` and the path comparison it uses.
- `dcp.dfy`: `main`'s decisions.

The C code keeps its state in the global `DCOPY_user_opts` and stops with
`exit(EXIT_FAILURE)`. Here the state is an immutable `Options` value and
each step returns the new one. An exit is an `Err` of `Failure`: `Usage`,
`UnresolvedPath`, or `CannotOverwrite`.

The main chain of steps follows the code as written. That includes the
inverted booleans in `DCOPY_dest_is_dir` and the null test on `dest_path`
in `DCOPY_parse_src_paths`. The corrected readings sit beside them; see
"## Findings".

Where the source's comments and its code disagree, the model follows the
code. The case list at handle_args.c:40-46 places every source inside an
existing directory destination. The code classes such a destination as a
file, so several sources into an existing directory end in the impossible
condition (see "## Findings").

## Model

| member | source | states |
|---|---|---|
| PathString.Basename | src/handle_args.c:184-186 | the last component of a path, ignoring trailing slashes: once trailing slashes are stripped, the result is a slash-free suffix that is either the whole path or follows a '/'; "/" for a path of slashes only; "." for the empty string |
| PathString.BasenameOfJoin | src/handle_args.c:184-190 | the fallback destination `base + "/" + basename(path)` has `basename(path)` as its own basename, whatever `base` is |
| PathString.DirnameBasenameJoin | src/handle_args.c:172-190 | round trip: a path built as `d + "/" + b` (d the root or not ending in '/', b one component) has dirname `d` and basename `b` |
| PathString.Components | src/dcp/dcp.c:36-44 | an mfu path's components are non-empty and slash-free (empty pieces from repeated or trailing slashes are dropped) |
| PathString.ComponentsOfJoin | src/dcp/dcp.c:36-44 | joining two path strings with "/" concatenates their component lists |
| HandleArgs.SourceFileCount | src/handle_args.c:144-154 | counting one per source path yields exactly the number of sources |
| HandleArgs.AnyRegularFile | src/handle_args.c:125-130 | the scan over the sources finds a regular file iff some source is a regular file |
| HandleArgs.DestIsDir | src/handle_args.c:95-142 | as written: an existing directory gives false, an existing regular file gives true (so for existing destinations only the kind matters); otherwise false without recursion, and with either recursion flag true iff no source is a regular file |
| HandleArgs.DestIsDirIgnoresSources | src/handle_args.c:105-110 | for an existing destination the classification does not depend on the sources or the recursion flags |
| HandleArgs.Dispatch | src/handle_args.c:47-93 | overwrite iff classed as a file with exactly one source that is a regular file, then `dest_base_index = |basename(dest_path)|`; impossible condition otherwise on the file side, `dest_base_index` unchanged; fan-out iff classed as a directory, `dest_base_index = |dest_path|`; the unsupported-filetype branch is never taken |
| HandleArgs.Enqueue | src/handle_args.c:47-110 | as written, an existing directory destination is overwritten by a single regular-file source and refuses anything else as impossible; an existing regular file always takes the fan-out branch with `dest_base_index = |dest_path|`; without recursion a missing destination never fans out |
| HandleArgs.EnqueueMissingDestination | src/handle_args.c:111-131 | missing destination under recursion: fan-out iff no source is a regular file, overwrite iff the single source is one, impossible whenever a regular file is among several sources |
| HandleArgs.ParseDestPath | src/handle_args.c:159-195 | succeeds iff `realpath(path)` or `realpath(dirname(path))` does; on the first, `dest_path` is the resolved path and `dest_base_index` its length; on the fallback, `dest_path` is exactly `realpath(dirname(path)) + "/" + basename(path)`, `dest_base_index` is untouched, and the new path reads back as the argument's basename under the resolved parent (the root included); otherwise stops naming the path; no other field changes |
| HandleArgs.ParseSrcPaths | src/handle_args.c:200-234 | accepts iff the destination pointer is set (or there are no sources) and not (destination is a regular file and some source is a directory); on success the sources are the resolved arguments; a NULL destination stops at the first source; a refusal names the destination and the first directory source |
| HandleArgs.ParsePathArgs | src/handle_args.c:239-270 | no `argv` or fewer than two path arguments is a usage error; otherwise the last argument is the destination and the arguments `[optind, last)` the sources, accepted as the two steps above decide; only the destination can stop the program for not resolving |
| HandleArgs.DestIsDirIntended | src/handle_args.c:99-110 | corrected classification: an existing directory is a directory, an existing regular file is a file, otherwise as written |
| HandleArgs.DestIsDirInverted | src/handle_args.c:105-110 | the written and the intended classification disagree exactly on existing destinations |
| HandleArgs.ExistingDirectoryRefusesManySources | src/handle_args.c:40-69 | as written, two or more sources into an existing directory are refused as impossible, while the intended reading fans them out |
| HandleArgs.EnqueueIntended | src/handle_args.c:25-93 | over the intended classification, every set of sources fans out into an existing directory with `dest_base_index = |dest_path|`, and an existing regular file is overwritten only by a single regular-file source |
| HandleArgs.CheckSources | src/handle_args.c:217-232 | with the null test on each source, no refusal iff every source resolves and none is a directory over a regular-file destination |
| HandleArgs.ParseSrcPathsChecked | src/handle_args.c:217-233 | corrected source parsing: succeeds iff every source resolves and no directory overwrites a regular file; every accepted source is resolved |
| HandleArgs.UnresolvedSourceIsAccepted | src/handle_args.c:218-225 | as written, a source whose `realpath` fails is accepted and stored as NULL unless the destination is a regular file; the checked version refuses it |
| SkipFilter.CommonPrefixLength | src/dcp/dcp.c:46-49 | the length of the longest common prefix of two component lists: they agree up to it and differ right after it |
| SkipFilter.PathCmp | src/dcp/dcp.c:46-49 | the comparison says equal iff the paths are equal, source-child iff the first lies strictly beneath the second, and dest-child for the converse |
| SkipFilter.InputFlistSkip | src/dcp/dcp.c:34-64 | returns 0 iff the entry equals or lies beneath at least one source path (component-wise), 1 otherwise; always 1 with no sources |
| SkipFilter.CopiesIgnoresSourceOrder | src/dcp/dcp.c:41-57 | the copy/skip decision depends only on which source paths are given, not on their order or repetition |
| SkipFilter.ChildIsCopied | src/dcp/dcp.c:46-55 | any path spelled as a source, "/", and more is copied because of that source |
| SkipFilter.SiblingWithSharedPrefixIsSkipped | src/dcp/dcp.c:46-63 | with source "/data/foo", the entry "/data/foobar/x" is skipped: no character-prefix false match |
| SkipFilter.DescendantIsCopied | src/dcp/dcp.c:46-55 | with source "/data/foo", the entry "/data/foo/x" is copied |
| Dcp.DebugLevels | src/dcp/dcp.c:155-197 | the `-d` argument selects the levels of the first keyword (fatal, err, warn, info, dbg) it starts with, per the table; info sets mfu INFO with libcircle at WARN; no keyword prefix means no change |
| Dcp.DebugKeywordsExclusive | src/dcp/dcp.c:156-184 | no argument starts with two keywords, so the order of the chain never matters |
| Dcp.ApplyTokenEffects | src/dcp/dcp.c:154-245 | one option changes exactly the setting it names: `-d` both levels (if known), `-v` the mfu level, `-i` the input, `-p`/`-s`/`-S` their flag, `-h` and unknown options the usage flag |
| Dcp.ApplyAllLastWins | src/dcp/dcp.c:107-110 | options applied left to right equal the reference reading from the right: the last known `-d` or `-v` sets the levels (defaults INFO and WARN), the last `-i` names the list, flags and usage are set once asked for |
| Dcp.ParseOptionsFlags | src/dcp/dcp.c:207-230 | after the loop, preserve, synchronous and sparse are set iff their option occurs, and an input list is named iff some `-i` occurs |
| Dcp.LaterDebugOverrides | src/dcp/dcp.c:155-197 | a known `-d` followed by no `-d`/`-v` determines both final levels, whatever came before |
| Dcp.Run | src/dcp/dcp.c:247-345 | exit 1 without usage iff not valid; exit 1 with usage iff valid and (`-h` or unknown option, or paths together with `-i`, or neither paths nor `-i`); otherwise exit 0 with walk mode iff paths are present (sources plus destination give back the paths), or replay of the named list; the copy receives the global preserve flag and a 1 MiB chunk size |
| Dcp.CheckCopyArgs | src/dcp/dcp.c:280-285 | the path check is called with `numpaths-1` sources and the destination at index `numpaths-1`: with paths, the sources and the destination split the paths back exactly; without paths, the destination index lies outside the array |
| Dcp.CheckCopyMatchesRun | src/dcp/dcp.c:264-285 | a walk copies exactly the sources and destination that were checked; a replay is only reached after the destination was taken from outside the empty path array |
| Dcp.PreserveOptionIgnored | src/dcp/dcp.c:121-327 | as written, with the global flag clear, a run given `-p` parses preserve as set yet copies without preserving |
| Dcp.RunIntended | src/dcp/dcp.c:213-214 | corrected `main`: same outcome, exit code and mode as the run as written, but the copy (and its options record) preserves iff `-p` was given |

## Findings

| source | as written | input that shows it | evidently intended | confidence | as-written member | corrected member |
|---|---|---|---|---|---|---|
| src/handle_args.c:105-110 | an existing directory destination sets `dest_path_is_dir = false`, and an existing regular file sets it true | two sources and an existing directory as destination: the enqueue step reports the impossible condition | an existing directory is a directory and an existing file a file, as the comment at lines 99-103 and the case list at lines 40-46 say | high; not executed | HandleArgs.DestIsDir, HandleArgs.ExistingDirectoryRefusesManySources | HandleArgs.DestIsDirIntended, HandleArgs.EnqueueIntended |
| src/handle_args.c:220 | the null test after `realpath` of a source checks `dest_path` | a source argument that does not resolve, with a destination that does and is not a regular file: it is accepted and stored as NULL | test the source just resolved; the log message names that source argument | high; not executed | HandleArgs.ParseSrcPaths, HandleArgs.UnresolvedSourceIsAccepted | HandleArgs.ParseSrcPathsChecked |
| src/dcp/dcp.c:213-214 | `-p` sets a local `preserve`, and the copy at line 327 is passed `DCOPY_user_opts.preserve` instead | `dcp -p src dst` with the global flag clear: the copy runs without preserving | pass the flag `-p` sets, as the usage text at line 87 promises | high; not executed | Dcp.Run, Dcp.PreserveOptionIgnored | Dcp.RunIntended |

The main chain of steps (`Enqueue`, `ParsePathArgs`, `Run`) keeps the as-written
behaviour, because it models what the program does. The corrected members
are defined next to it, and their intended properties are proved.

## Left out

- MPI start-up and shutdown, rank-conditional logging, `print_usage` and
  `printf`: I/O without decisions.
- The mfu and libcircle calls whose bodies are not part of this model:
  - `mfu_param_path_set_all`, `mfu_param_path_walk`, `mfu_flist_read_cache`,
    `mfu_flist_stat`, `mfu_flist_copy`;
  - `mfu_param_path_check_copy`, whose result enters `Run` as the flag `valid`.
- The copy's own outcome. `Run` ends in exit code 0 whatever the copy
  reports, as the code does.
- The work-stealing scheduler, termination detection, enumeration and
  chunked copy I/O. They are not in these files, and they are concurrent
  and bound to the file system.
- `getopt_long` itself. Its output is a sequence of `Token`s.
- `-g`: the `LUSTRE_SUPPORT` grouplock option is conditional compilation.
  It is modelled as the non-Lustre build, where `-g` falls to the default
  branch (`Other`).
- `-s` and `-S`: they set locals that nothing reads. `Run` parses them,
  but they do not reach the outcome, as in the code.
- `realpath` and `stat` are given functions (`Fs`).
- `DCOPY_is_directory` and `DCOPY_is_regular_file` (filestat.h) are not
  part of this model. They are read as the `stat` kind of the path. A NULL
  path counts as missing.
- `dirname` and `basename` follow the POSIX rules. The
  implementation-defined leading "//" is read as "/".
- PATH_MAX truncation by `strncpy`, and the overflow of the
  `realpath`-sized buffer at handle_args.c:190, are not modelled. Paths
  are unbounded strings.
- C memory and pointer defects are not modelled bit for bit:
  - the `ARG_MAX` allocation and undersized `memset` (handle_args.c:214-215);
  - the pointer loops at handle_args.c:79, 126 and 149, which run forever
    and skip element 0. They are read as "for each source", as the comment
    at lines 25-46 describes.
- The read of `paths[numpaths-1]` with no paths in replay mode
  (dcp.c:281). `Dcp.CheckCopyArgs` records the out-of-range index; what
  `mfu_param_path_check_copy` does with it is not modelled.
- The source list that `DCOPY_input_flist_skip` reads through
  `params_ptr` is set outside these files. It is an argument of
  `SkipFilter.InputFlistSkip`.
- `mfu_path_from_str` and `mfu_path_cmp` are not part of this model.
  Their reading as components plus an absolute flag, with
  equal/child-of-source/child-of-destination answers, follows the comment
  at dcp.c:46-47.
- HandleArgs.SourceFileCount: does not model the `uint32_t` wrap-around,
  because the number of arguments is bounded far below 2^32.
