/** The file system as the argument handling sees it: what `stat` says a path
    is, and what `realpath` resolves it to. Both are given, not computed; the
    model never touches a disk. */
module FileSystem {
  import opened Wrappers

  /** What `stat` reports for a path. `OtherKind` covers objects that exist
      but are neither a directory nor a regular file (fifos, sockets, devices);
      `Missing` covers every path `stat` fails on. */
  datatype Kind = Directory | RegularFile | OtherKind | Missing

  /** A snapshot of the file system: `stat` and `realpath` as total functions
      of the path string. `realpath` yields `None` where the C call returns NULL. */
  datatype Fs = Fs(stat: string -> Kind, realpath: string -> Option<string>)

  /** The kind of a possibly-NULL path; `stat(NULL)` fails, so NULL is `Missing`. */
  function KindOf(fs: Fs, p: Option<string>): Kind {
    match p
    case None => Missing
    case Some(s) => fs.stat(s)
  }

  predicate IsDirectory(fs: Fs, p: Option<string>) {
    KindOf(fs, p) == Directory
  }

  predicate IsRegularFile(fs: Fs, p: Option<string>) {
    KindOf(fs, p) == RegularFile
  }
}
