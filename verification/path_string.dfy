/** Path strings: the POSIX `dirname`/`basename` pair used by handle_args.c and
    the split of a path into its components used by the mfu path comparison.
    Both are pure string functions; no file system is consulted here. */
module PathString {

  predicate SlashFree(s: string) {
    forall i :: 0 <= i < |s| ==> s[i] != '/'
  }

  /** The index of the first '/' in `s`, or `|s|` when there is none. */
  function FirstSlash(s: string): (k: nat)
    ensures k <= |s|
    ensures k < |s| ==> s[k] == '/'
    ensures forall i :: 0 <= i < k ==> s[i] != '/'
  {
    if s == [] || s[0] == '/' then 0 else 1 + FirstSlash(s[1..])
  }

  /** The index of the last '/' in `s`, or -1 when there is none. */
  function LastSlash(s: string): (k: int)
    ensures -1 <= k < |s|
    ensures k >= 0 ==> s[k] == '/'
    ensures forall i :: k < i < |s| ==> s[i] != '/'
  {
    if s == [] then -1
    else if s[|s| - 1] == '/' then |s| - 1
    else LastSlash(s[..|s| - 1])
  }

  /** `s` without its run of trailing slashes. */
  function StripTrailingSlashes(s: string): (t: string)
    ensures t <= s
    ensures t == [] || t[|t| - 1] != '/'
    ensures forall i :: |t| <= i < |s| ==> s[i] == '/'
  {
    if s != [] && s[|s| - 1] == '/' then StripTrailingSlashes(s[..|s| - 1]) else s
  }

  /** POSIX `basename`: the last component of `s`, ignoring trailing slashes;
      "." for the empty string and "/" for a string of slashes only. */
  function Basename(s: string): (b: string)
    ensures b != []
    ensures b == "/" || SlashFree(b)
    ensures s == [] ==> b == "."
    ensures s != [] && StripTrailingSlashes(s) == [] ==> b == "/"
    ensures var t := StripTrailingSlashes(s);
            t != [] ==>
              && SlashFree(b)
              && |b| <= |t| && b == t[|t| - |b|..]
              && (|b| == |t| || t[|t| - |b| - 1] == '/')
  {
    if s == [] then "."
    else
      var t := StripTrailingSlashes(s);
      if t == [] then "/" else t[LastSlash(t) + 1..]
  }

  /** POSIX `dirname`: everything before the last component of `s`, without
      trailing slashes; "." when there is no slash and "/" when only the root
      is left. The implementation-defined case of a leading "//" is read as "/". */
  function Dirname(s: string): (d: string)
    ensures d != []
  {
    if s == [] then "."
    else
      var t := StripTrailingSlashes(s);
      if t == [] then "/"
      else
        var k := LastSlash(t);
        if k < 0 then "."
        else
          var u := StripTrailingSlashes(t[..k]);
          if u == [] then "/" else u
  }

  lemma {:induction false} LastSlashOfJoin(x: string, y: string)
    requires SlashFree(y)
    ensures LastSlash(x + "/" + y) == |x|
    decreases |y|
  {
    var s := x + "/" + y;
    if y == [] {
      assert s[|s| - 1] == '/';
    } else {
      assert s[|s| - 1] == y[|y| - 1] != '/';
      var y' := y[..|y| - 1];
      assert s[..|s| - 1] == x + "/" + y';
      LastSlashOfJoin(x, y');
    }
  }

  lemma NoTrailingSlashIsStripped(s: string)
    requires s == [] || s[|s| - 1] != '/'
    ensures StripTrailingSlashes(s) == s
  {
  }

  /** The basename of `d + "/" + b` is `b` for any directory part `d` and any
      non-empty slash-free `b`. */
  lemma BasenameOfJoin(d: string, b: string)
    requires b != [] && SlashFree(b)
    ensures Basename(d + "/" + b) == b
  {
    var s := d + "/" + b;
    assert s[|s| - 1] == b[|b| - 1];
    NoTrailingSlashIsStripped(s);
    LastSlashOfJoin(d, b);
    assert s[|d| + 1..] == b;
  }

  /** A directory part as `realpath` produces it: the root, or a path that
      does not end in '/'. */
  predicate CanonicalDir(d: string) {
    d == "/" || (d != [] && d[|d| - 1] != '/')
  }

  /** Round trip: a path built from a canonical directory part and a
      slash-free last component splits back into exactly those parts. */
  lemma DirnameBasenameJoin(d: string, b: string)
    requires CanonicalDir(d)
    requires b != [] && SlashFree(b)
    ensures Dirname(d + "/" + b) == d
    ensures Basename(d + "/" + b) == b
  {
    var s := d + "/" + b;
    assert s[|s| - 1] == b[|b| - 1];
    NoTrailingSlashIsStripped(s);
    LastSlashOfJoin(d, b);
    assert s[..|d|] == d;
    if d == "/" {
      RootStripsToEmpty();
    } else {
      NoTrailingSlashIsStripped(d);
    }
    BasenameOfJoin(d, b);
  }

  lemma RootStripsToEmpty()
    ensures StripTrailingSlashes("/") == []
  {
    assert "/"[..0] == [];
  }

  /** The components of a path: the non-empty pieces between slashes, so that
      "/data/foo/" and "/data//foo" both give ["data", "foo"]. */
  function Components(s: string): (cs: seq<string>)
    ensures forall i :: 0 <= i < |cs| ==> cs[i] != [] && SlashFree(cs[i])
    decreases |s|
  {
    if s == [] then []
    else if s[0] == '/' then Components(s[1..])
    else
      var k := FirstSlash(s);
      [s[..k]] + Components(s[k..])
  }

  lemma {:induction false} FirstSlashAppend(a: string, t: string)
    ensures FirstSlash(a + t) == if FirstSlash(a) < |a| then FirstSlash(a) else |a| + FirstSlash(t)
  {
    if a == [] {
      assert a + t == t;
    } else if a[0] != '/' {
      assert (a + t)[1..] == a[1..] + t;
      FirstSlashAppend(a[1..], t);
    }
  }

  /** Joining two paths with a slash concatenates their components. */
  lemma {:induction false} ComponentsOfJoin(a: string, b: string)
    ensures Components(a + "/" + b) == Components(a) + Components(b)
    decreases |a|
  {
    var s := a + "/" + b;
    if a == [] {
      assert s == "/" + b;
      assert s[1..] == b;
    } else if a[0] == '/' {
      assert s[1..] == a[1..] + "/" + b;
      ComponentsOfJoin(a[1..], b);
    } else {
      assert s == a + ("/" + b);
      FirstSlashAppend(a, "/" + b);
      var k := FirstSlash(s);
      if FirstSlash(a) < |a| {
        assert k == FirstSlash(a);
        assert s[..k] == a[..k];
        assert s[k..] == a[k..] + "/" + b;
        ComponentsOfJoin(a[k..], b);
      } else {
        assert k == |a|;
        assert s[..k] == a;
        assert s[k..] == "/" + b;
        assert ("/" + b)[1..] == b;
        assert Components("/" + b) == Components(b);
        assert a[..FirstSlash(a)] == a && a[FirstSlash(a)..] == [];
        assert Components(a) == [a];
      }
    }
  }
}
