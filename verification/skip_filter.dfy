/** The input-list skip filter of src/dcp/dcp.c (`DCOPY_input_flist_skip`)
    and the path comparison it relies on. Paths are compared component by
    component, so "/data/foobar" is not under "/data/foo". */
module SkipFilter {
  import opened PathString

  /** An mfu path: whether the string was absolute, and its components. */
  datatype MfuPath = MfuPath(absolute: bool, parts: seq<string>)

  /** `mfu_path_from_str`. */
  function FromStr(s: string): MfuPath {
    MfuPath(s != [] && s[0] == '/', Components(s))
  }

  /** The answers of `mfu_path_cmp(src, dst)`: equal, `src` strictly below
      `dst`, `dst` strictly below `src`, or unrelated. */
  datatype PathResult = Equal | SrcChild | DestChild | Different

  /** How many leading components two paths share. */
  function CommonPrefixLength(a: seq<string>, b: seq<string>): (n: nat)
    ensures n <= |a| && n <= |b|
    ensures a[..n] == b[..n]
    ensures n < |a| && n < |b| ==> a[n] != b[n]
  {
    if a == [] || b == [] || a[0] != b[0] then 0
    else 1 + CommonPrefixLength(a[1..], b[1..])
  }

  /** `mfu_path_cmp`: walk both component lists while they agree, then read
      the relation off whichever list ran out. */
  function PathCmp(src: MfuPath, dst: MfuPath): (r: PathResult)
    ensures r == Equal <==> src == dst
    ensures r == SrcChild <==> src.absolute == dst.absolute && dst.parts < src.parts
    ensures r == DestChild <==> src.absolute == dst.absolute && src.parts < dst.parts
  {
    if src.absolute != dst.absolute then Different
    else
      var n := CommonPrefixLength(src.parts, dst.parts);
      if n == |src.parts| && n == |dst.parts| then Equal
      else if n == |dst.parts| then SrcChild
      else if n == |src.parts| then DestChild
      else Different
  }

  /** The reference notion of containment: `entry` is `src` itself or lies
      somewhere beneath it. */
  predicate AtOrUnder(entry: MfuPath, src: MfuPath) {
    entry.absolute == src.absolute && src.parts <= entry.parts
  }

  /** Whether an entry named `name` belongs to the copy of `srcNames`. */
  predicate Copies(name: string, srcNames: seq<string>) {
    exists i :: 0 <= i < |srcNames| && AtOrUnder(FromStr(name), FromStr(srcNames[i]))
  }

  /** `DCOPY_input_flist_skip`: 0 (copy) as soon as one source holds the
      entry, 1 (skip) when none does. */
  method InputFlistSkip(name: string, srcNames: seq<string>) returns (skip: int)
    ensures skip == 0 || skip == 1
    ensures skip == 0 <==> Copies(name, srcNames)
    ensures srcNames == [] ==> skip == 1
  {
    var path := FromStr(name);
    var i := 0;
    while i < |srcNames|
      invariant 0 <= i <= |srcNames|
      invariant forall j :: 0 <= j < i ==> !AtOrUnder(path, FromStr(srcNames[j]))
    {
      var srcPath := FromStr(srcNames[i]);
      var result := PathCmp(path, srcPath);
      if result == SrcChild || result == Equal {
        return 0;
      }
      i := i + 1;
    }
    return 1;
  }

  /** The filter reads the source list as a set: reordering or repeating
      sources does not change which entries are copied. */
  lemma {:induction false} CopiesIgnoresSourceOrder(name: string, a: seq<string>, b: seq<string>)
    requires forall s :: s in a <==> s in b
    ensures Copies(name, a) <==> Copies(name, b)
  {
    if Copies(name, a) {
      var i :| 0 <= i < |a| && AtOrUnder(FromStr(name), FromStr(a[i]));
      assert a[i] in b;
      var j :| 0 <= j < |b| && b[j] == a[i];
    }
    if Copies(name, b) {
      var j :| 0 <= j < |b| && AtOrUnder(FromStr(name), FromStr(b[j]));
      assert b[j] in a;
      var i :| 0 <= i < |a| && a[i] == b[j];
    }
  }

  /** Anything written as a source followed by "/" and more lies under it. */
  lemma ChildIsCopied(src: string, rest: string)
    requires src != []
    ensures AtOrUnder(FromStr(src + "/" + rest), FromStr(src))
    ensures Copies(src + "/" + rest, [src])
  {
    ComponentsOfJoin(src, rest);
    assert (src + "/" + rest)[0] == src[0];
    assert AtOrUnder(FromStr(src + "/" + rest), FromStr([src][0]));
  }

  lemma ComponentsOfName(w: string)
    requires w != [] && SlashFree(w)
    ensures Components(w) == [w]
    ensures Components("/" + w) == [w]
  {
    assert w[..FirstSlash(w)] == w;
    assert ("/" + w)[1..] == w;
  }

  lemma ComponentsOfAbsolute(ws: seq<string>, path: string)
    requires forall k :: 0 <= k < |ws| ==> ws[k] != [] && SlashFree(ws[k])
    requires path == JoinAbsolute(ws)
    ensures Components(path) == ws
    ensures ws != [] ==> path != [] && path[0] == '/'
    decreases |ws|
  {
    if ws != [] {
      var init := ws[..|ws| - 1];
      var last := ws[|ws| - 1];
      ComponentsOfAbsolute(init, JoinAbsolute(init));
      ComponentsOfJoin(JoinAbsolute(init), last);
      ComponentsOfName(last);
      assert ws == init + [last];
      if init == [] {
        assert path == "/" + last;
      }
    }
  }

  /** "/" followed by the components joined with "/". */
  function JoinAbsolute(ws: seq<string>): string {
    if ws == [] then [] else JoinAbsolute(ws[..|ws| - 1]) + "/" + ws[|ws| - 1]
  }

  lemma ComponentsOfDataFoo()
    ensures Components("/data/foo") == ["data", "foo"]
  {
    var src := ["data", "foo"];
    assert JoinAbsolute(src) == "/data/foo";
    ComponentsOfAbsolute(src, "/data/foo");
  }

  lemma ComponentsOfDataFoobarX()
    ensures Components("/data/foobar/x") == ["data", "foobar", "x"]
  {
    var entry := ["data", "foobar", "x"];
    assert entry[..2] == ["data", "foobar"];
    assert ["data", "foobar"][..1] == ["data"];
    assert JoinAbsolute(["data", "foobar"]) == "/data" + "/" + "foobar";
    assert JoinAbsolute(entry) == "/data/foobar/x";
    ComponentsOfAbsolute(entry, "/data/foobar/x");
  }

  /** Containment is by component, not by character prefix: a sibling whose
      name merely starts with the source's name is skipped. */
  lemma SiblingWithSharedPrefixIsSkipped()
    ensures !Copies("/data/foobar/x", ["/data/foo"])
  {
    ComponentsOfDataFoo();
    ComponentsOfDataFoobarX();
    var src: seq<string> := ["data", "foo"];
    var entry: seq<string> := ["data", "foobar", "x"];
    assert src[1] != entry[1];
    assert !(src <= entry);
  }

  /** ... while a true descendant of the source is copied. */
  lemma DescendantIsCopied()
    ensures Copies("/data/foo/x", ["/data/foo"])
  {
    ChildIsCopied("/data/foo", "x");
    assert "/data/foo" + "/" + "x" == "/data/foo/x";
  }
}
