/** POSIX path arithmetic: the parts of `os.path` that queries and the play command use.
    A path is a string with `/` separators; the working directory is a parameter. */
module Paths {
  import opened Text

  /** The non-empty pieces of a path, as `[x for x in p.split('/') if x]`. Every run of
      leading separators collapses to one root, so a path starting with exactly two
      slashes, which POSIX `normpath` keeps as `//`, is normalised to `/` here. */
  function Components(p: string): seq<string> {
    NonEmpty(Split(p, '/'))
  }

  function NonEmpty(xs: seq<string>): seq<string> {
    if xs == [] then [] else (if xs[0] == "" then [] else [xs[0]]) + NonEmpty(xs[1..])
  }

  /** A non-empty component without separators. */
  predicate Piece(c: string) {
    c != "" && '/' !in c
  }

  predicate AllPieces(cs: seq<string>) {
    forall i :: 0 <= i < |cs| ==> Piece(cs[i])
  }

  /** A component that survives normalisation unchanged. */
  predicate Clean(c: string) {
    Piece(c) && c != "." && c != ".."
  }

  predicate AllClean(cs: seq<string>) {
    forall i :: 0 <= i < |cs| ==> Clean(cs[i])
  }

  /** `normpath` on the components of an absolute path: `.` is dropped and `..`
      climbs one level, stopping at the root. */
  function Resolve(acc: seq<string>, cs: seq<string>): seq<string>
    decreases |cs|
  {
    if cs == [] then acc
    else if cs[0] == "" || cs[0] == "." then Resolve(acc, cs[1..])
    else if cs[0] == ".." then Resolve(if acc == [] then [] else acc[..|acc| - 1], cs[1..])
    else Resolve(acc + [cs[0]], cs[1..])
  }

  /** The absolute path spelled by a component list. */
  function FromComponents(cs: seq<string>): string {
    "/" + Join(cs, "/")
  }

  function AbsComponents(cwd: string, p: string): seq<string> {
    if |p| > 0 && p[0] == '/' then Components(p) else Components(cwd) + Components(p)
  }

  /** `os.path.abspath`: a relative path is taken against `cwd`, then normalised. */
  function AbsPath(cwd: string, p: string): string {
    FromComponents(Resolve([], AbsComponents(cwd, p)))
  }

  // ---------------------------------------------------------------------------
  // Normalisation

  lemma {:induction false} NonEmptyAppend(a: seq<string>, b: seq<string>)
    ensures NonEmpty(a + b) == NonEmpty(a) + NonEmpty(b)
  {
    if a == [] {
      assert a + b == b;
    } else {
      assert (a + b)[1..] == a[1..] + b;
      NonEmptyAppend(a[1..], b);
    }
  }

  lemma {:induction false} NonEmptyKeeps(xs: seq<string>)
    requires forall i :: 0 <= i < |xs| ==> xs[i] != ""
    ensures NonEmpty(xs) == xs
  {
    if xs != [] {
      NonEmptyKeeps(xs[1..]);
    }
  }

  lemma {:induction false} NonEmptyOfPieces(xs: seq<string>)
    requires forall i :: 0 <= i < |xs| ==> '/' !in xs[i]
    ensures AllPieces(NonEmpty(xs))
  {
    if xs != [] {
      NonEmptyOfPieces(xs[1..]);
    }
  }

  /** Every component read from a path is a non-empty, separator-free piece. */
  lemma ComponentsArePieces(p: string)
    ensures AllPieces(Components(p))
  {
    SplitPiecesLackSeparator(p, '/');
    NonEmptyOfPieces(Split(p, '/'));
  }

  lemma {:induction false} ResolveClean(acc: seq<string>, cs: seq<string>)
    requires AllClean(cs)
    ensures Resolve(acc, cs) == acc + cs
    decreases |cs|
  {
    if cs != [] {
      ResolveClean(acc + [cs[0]], cs[1..]);
      assert acc + [cs[0]] + cs[1..] == acc + cs;
    }
  }

  lemma {:induction false} ResolveIsClean(acc: seq<string>, cs: seq<string>)
    requires AllClean(acc) && AllPieces(cs)
    ensures AllClean(Resolve(acc, cs))
    decreases |cs|
  {
    if cs != [] {
      if cs[0] == "" || cs[0] == "." {
        ResolveIsClean(acc, cs[1..]);
      } else if cs[0] == ".." {
        ResolveIsClean(if acc == [] then [] else acc[..|acc| - 1], cs[1..]);
      } else {
        ResolveIsClean(acc + [cs[0]], cs[1..]);
      }
    }
  }

  lemma {:induction false} ResolveAppend(acc: seq<string>, a: seq<string>, b: seq<string>)
    ensures Resolve(acc, a + b) == Resolve(Resolve(acc, a), b)
    decreases |a|
  {
    if a == [] {
      assert a + b == b;
    } else {
      assert (a + b)[1..] == a[1..] + b;
      if a[0] == "" || a[0] == "." {
        ResolveAppend(acc, a[1..], b);
      } else if a[0] == ".." {
        ResolveAppend(if acc == [] then [] else acc[..|acc| - 1], a[1..], b);
      } else {
        ResolveAppend(acc + [a[0]], a[1..], b);
      }
    }
  }

  function Parents(k: nat): (r: seq<string>)
    ensures |r| == k && forall i :: 0 <= i < k ==> r[i] == ".."
  {
    if k == 0 then [] else [".."] + Parents(k - 1)
  }

  lemma {:induction false} ResolveParents(acc: seq<string>, k: nat)
    requires k <= |acc|
    ensures Resolve(acc, Parents(k)) == acc[..|acc| - k]
  {
    if k > 0 {
      assert Parents(k)[1..] == Parents(k - 1);
      ResolveParents(acc[..|acc| - 1], k - 1);
      assert acc[..|acc| - 1][..|acc| - 1 - (k - 1)] == acc[..|acc| - k];
    }
  }

  lemma {:induction false} JoinEndsInPiece(cs: seq<string>)
    requires |cs| >= 1 && AllPieces(cs)
    ensures |Join(cs, "/")| > 0 && Join(cs, "/")[|Join(cs, "/")| - 1] != '/'
  {
    if |cs| > 1 {
      JoinEndsInPiece(cs[1..]);
    } else {
      assert cs[0][|cs[0]| - 1] in cs[0];
    }
  }

  /** The pieces of an absolute path: an empty one before the leading separator, then
      the components. */
  lemma SplitAbsolute(cs: seq<string>)
    requires AllPieces(cs)
    ensures Split(FromComponents(cs), '/') == [""] + (if cs == [] then [""] else cs)
  {
    var j := Join(cs, "/");
    assert FromComponents(cs) == "" + ['/'] + j;
    SplitConcat("", j, '/');
    if cs == [] {
      assert j == "";
    } else {
      SplitJoin(cs, '/');
    }
  }

  /** Reading the components back from a component list's path gives the list. */
  lemma ComponentsOfPath(cs: seq<string>)
    requires AllPieces(cs)
    ensures Components(FromComponents(cs)) == cs
  {
    SplitAbsolute(cs);
    if cs == [] {
      assert NonEmpty(["", ""]) == [];
    } else {
      NonEmptyKeeps(cs);
      assert NonEmpty([""] + cs) == [] + NonEmpty(cs);
    }
  }

  /** An absolute path is the path of its own clean components. */
  lemma AbsPathShape(cwd: string, p: string)
    ensures AllClean(Components(AbsPath(cwd, p)))
    ensures AbsPath(cwd, p) == FromComponents(Components(AbsPath(cwd, p)))
  {
    var full := AbsComponents(cwd, p);
    ComponentsArePieces(p);
    ComponentsArePieces(cwd);
    assert AllPieces(full);
    ResolveIsClean([], full);
    ComponentsOfPath(Resolve([], full));
  }

  /** Normalising an already normalised path changes nothing. */
  lemma AbsPathIdempotent(cwd: string, p: string)
    ensures AbsPath(cwd, AbsPath(cwd, p)) == AbsPath(cwd, p)
  {
    var cs := Components(AbsPath(cwd, p));
    AbsPathShape(cwd, p);
    assert AbsComponents(cwd, AbsPath(cwd, p)) == cs;
    ResolveClean([], cs);
    assert [] + cs == cs;
  }

  // ---------------------------------------------------------------------------
  // Path queries: a file, or everything below a directory

  /** `os.path.join(p, "")`: the path with one trailing separator added when missing. */
  function DirPrefix(p: string): string {
    if |p| > 0 && p[|p| - 1] == '/' then p else p + "/"
  }

  /** A path query on `file` accepts `p` when `p` is that file or lies below that directory. */
  predicate AtOrBelow(file: string, p: string) {
    p == file || DirPrefix(file) <= p
  }

  lemma ExtendedPathIsBelow(cs: seq<string>, ds: seq<string>)
    requires AllPieces(ds) && |cs| >= 1 && cs < ds
    ensures DirPrefix(FromComponents(cs)) <= FromComponents(ds)
  {
    JoinEndsInPiece(cs);
    var rest := ds[|cs|..];
    assert ds == cs + rest;
    JoinAppend(cs, rest, "/");
    assert FromComponents(ds) == "/" + Join(cs, "/") + "/" + Join(rest, "/");
  }

  lemma SamePathSameComponents(cs: seq<string>, ds: seq<string>)
    requires AllPieces(cs) && AllPieces(ds)
    requires FromComponents(cs) == FromComponents(ds)
    ensures cs == ds
  {
    ComponentsOfPath(cs);
    ComponentsOfPath(ds);
  }

  lemma DropLeadingSeparator(jc: string, jd: string, rest: string)
    requires "/" + jd == "/" + jc + "/" + rest
    ensures jd == jc + ['/'] + rest
  {
    assert ("/" + jd)[1..] == jd;
    assert ("/" + jc + "/" + rest)[1..] == jc + ['/'] + rest;
  }

  lemma SplitExtends(cs: seq<string>, ds: seq<string>, rest: string)
    requires AllPieces(cs) && AllPieces(ds) && |cs| >= 1 && |ds| >= 1
    requires Join(ds, "/") == Join(cs, "/") + ['/'] + rest
    ensures cs <= ds
  {
    SplitJoin(ds, '/');
    SplitJoin(cs, '/');
    SplitConcat(Join(cs, "/"), rest, '/');
    assert ds == cs + Split(rest, '/');
    assert ds[..|cs|] == cs;
  }

  lemma BelowPathExtends(cs: seq<string>, ds: seq<string>)
    requires AllPieces(cs) && AllPieces(ds) && |cs| >= 1
    requires DirPrefix(FromComponents(cs)) <= FromComponents(ds)
    ensures cs <= ds
  {
    var jc := Join(cs, "/");
    var jd := Join(ds, "/");
    JoinEndsInPiece(cs);
    var pre := "/" + jc + "/";
    assert DirPrefix(FromComponents(cs)) == pre;
    var whole := "/" + jd;
    var rest := whole[|pre|..];
    assert whole == pre + rest;
    DropLeadingSeparator(jc, jd, rest);
    if ds == [] {
      assert false;
    }
    SplitExtends(cs, ds, rest);
  }

  /** On normalised paths a path query compares whole components: it accepts exactly
      the paths whose component list extends the query's. */
  lemma AtOrBelowIsComponentPrefix(cs: seq<string>, ds: seq<string>)
    requires AllPieces(cs) && AllPieces(ds)
    ensures AtOrBelow(FromComponents(cs), FromComponents(ds)) <==> cs <= ds
  {
    if cs == [] {
      assert FromComponents(cs) == "/";
      assert DirPrefix(FromComponents(cs)) == "/";
    } else {
      if cs <= ds && cs != ds {
        ExtendedPathIsBelow(cs, ds);
      }
      if FromComponents(ds) == FromComponents(cs) {
        SamePathSameComponents(cs, ds);
      } else if DirPrefix(FromComponents(cs)) <= FromComponents(ds) {
        BelowPathExtends(cs, ds);
      }
    }
  }

  // ---------------------------------------------------------------------------
  // Relative paths

  function CommonPrefixLength(a: seq<string>, b: seq<string>): (n: nat)
    ensures n <= |a| && n <= |b| && a[..n] == b[..n]
  {
    if a == [] || b == [] || a[0] != b[0] then 0
    else
      var n := CommonPrefixLength(a[1..], b[1..]);
      assert a[..n + 1] == [a[0]] + a[1..][..n];
      assert b[..n + 1] == [b[0]] + b[1..][..n];
      n + 1
  }

  /** The components `relpath` emits: climb out of `start` to the common ancestor,
      then descend to `path`. */
  function RelComponents(sl: seq<string>, pl: seq<string>): seq<string> {
    var i := CommonPrefixLength(sl, pl);
    Parents(|sl| - i) + pl[i..]
  }

  /** The relative path text between two normalised component lists. */
  function RelText(sl: seq<string>, pl: seq<string>): string {
    var rel := RelComponents(sl, pl);
    if rel == [] then "." else Join(rel, "/")
  }

  /** `os.path.relpath(path, start)`; `.` when the two coincide. */
  function RelPath(cwd: string, path: string, start: string): string {
    RelText(Components(AbsPath(cwd, start)), Components(AbsPath(cwd, path)))
  }

  lemma ResolveCleanFromRoot(sl: seq<string>)
    requires AllClean(sl)
    ensures Resolve([], sl) == sl
  {
    ResolveClean([], sl);
    assert [] + sl == sl;
  }

  lemma ResolveDot(sl: seq<string>)
    requires AllClean(sl)
    ensures Resolve([], sl + ["."]) == sl
  {
    ResolveAppend([], sl, ["."]);
    ResolveCleanFromRoot(sl);
  }

  lemma CleanSuffix(pl: seq<string>, i: nat)
    requires AllClean(pl) && i <= |pl|
    ensures AllClean(pl[i..])
  {
    forall k | 0 <= k < |pl| - i ensures Clean(pl[i..][k]) {
      assert pl[i..][k] == pl[i + k];
    }
  }

  lemma ResolveClimbThenDescend(sl: seq<string>, pl: seq<string>, i: nat)
    requires AllClean(pl) && i <= |sl| && i <= |pl| && sl[..i] == pl[..i]
    ensures Resolve(sl, Parents(|sl| - i) + pl[i..]) == pl
  {
    CleanSuffix(pl, i);
    ResolveAppend(sl, Parents(|sl| - i), pl[i..]);
    ResolveParents(sl, |sl| - i);
    assert sl[..|sl| - (|sl| - i)] == pl[..i];
    ResolveClean(pl[..i], pl[i..]);
    assert pl[..i] + pl[i..] == pl;
  }

  lemma ResolveRelComponents(sl: seq<string>, pl: seq<string>)
    requires AllClean(sl) && AllClean(pl)
    ensures Resolve([], sl + RelComponents(sl, pl)) == pl
  {
    ResolveAppend([], sl, RelComponents(sl, pl));
    ResolveCleanFromRoot(sl);
    ResolveClimbThenDescend(sl, pl, CommonPrefixLength(sl, pl));
  }

  lemma ComponentsOfJoined(sl: seq<string>, rc: seq<string>)
    requires AllPieces(sl) && AllPieces(rc) && |rc| >= 1
    ensures Components(FromComponents(sl) + "/" + Join(rc, "/")) == sl + rc
  {
    var s := FromComponents(sl);
    var r := Join(rc, "/");
    assert s + "/" + r == s + ['/'] + r;
    SplitConcat(s, r, '/');
    SplitJoin(rc, '/');
    NonEmptyKeeps(rc);
    NonEmptyAppend(Split(s, '/'), Split(r, '/'));
    ComponentsOfPath(sl);
  }

  lemma RelComponentsArePieces(sl: seq<string>, pl: seq<string>)
    requires AllClean(pl)
    ensures AllPieces(RelComponents(sl, pl))
  {
    var i := CommonPrefixLength(sl, pl);
    CleanSuffix(pl, i);
    var rel := RelComponents(sl, pl);
    forall k | 0 <= k < |rel| ensures Piece(rel[k]) {
      if k >= |sl| - i {
        assert rel[k] == pl[i..][k - (|sl| - i)];
      }
    }
  }

  /** The components of `abs + "/" + rel`, for an absolute `abs`, are `abs`'s followed
      by `rel`'s. */
  lemma AbsComponentsOfJoined(cwd: string, sl: seq<string>, rc: seq<string>)
    requires AllPieces(sl) && AllPieces(rc) && |rc| >= 1
    ensures AbsComponents(cwd, FromComponents(sl) + "/" + Join(rc, "/")) == sl + rc
  {
    ComponentsOfJoined(sl, rc);
    assert (FromComponents(sl) + "/" + Join(rc, "/"))[0] == '/';
  }

  lemma RelTextRoundTrip(cwd: string, sl: seq<string>, pl: seq<string>)
    requires AllClean(sl) && AllClean(pl)
    ensures AbsPath(cwd, FromComponents(sl) + "/" + RelText(sl, pl)) == FromComponents(pl)
  {
    var rel := RelComponents(sl, pl);
    RelComponentsArePieces(sl, pl);
    ResolveRelComponents(sl, pl);
    if rel == [] {
      assert RelText(sl, pl) == Join(["."], "/");
      AbsComponentsOfJoined(cwd, sl, ["."]);
      ResolveDot(sl);
      ResolveCleanFromRoot(sl);
      assert sl + rel == sl;
      assert sl == pl;
    } else {
      AbsComponentsOfJoined(cwd, sl, rel);
    }
  }

  /** Joining `start` with the relative path leads back to `path`. */
  lemma RelPathRoundTrip(cwd: string, path: string, start: string)
    ensures AbsPath(cwd, AbsPath(cwd, start) + "/" + RelPath(cwd, path, start)) == AbsPath(cwd, path)
  {
    AbsPathShape(cwd, start);
    AbsPathShape(cwd, path);
    RelTextRoundTrip(cwd, Components(AbsPath(cwd, start)), Components(AbsPath(cwd, path)));
  }

  // ---------------------------------------------------------------------------
  // Parent directory

  /** The position just after the last separator, or 0 when there is none. */
  function AfterLastSeparator(p: string): (n: nat)
    ensures n <= |p|
  {
    if p == [] then 0 else if p[|p| - 1] == '/' then |p| else AfterLastSeparator(p[..|p| - 1])
  }

  predicate OnlySeparators(p: string) {
    forall k :: 0 <= k < |p| ==> p[k] == '/'
  }

  function StripTrailingSeparators(p: string): string {
    if p != [] && p[|p| - 1] == '/' then StripTrailingSeparators(p[..|p| - 1]) else p
  }

  /** `os.path.dirname`: everything before the last separator, trailing separators
      removed unless the head is nothing but separators. */
  function Dirname(p: string): string {
    var head := p[..AfterLastSeparator(p)];
    if head != [] && !OnlySeparators(head) then StripTrailingSeparators(head) else head
  }

  lemma {:induction false} AfterLastSeparatorSkips(x: string, y: string)
    requires '/' !in y
    ensures AfterLastSeparator(x + "/" + y) == |x| + 1
    decreases |y|
  {
    var p := x + "/" + y;
    if y != [] {
      assert p[..|p| - 1] == x + "/" + y[..|y| - 1];
      assert y[|y| - 1] in y;
      AfterLastSeparatorSkips(x, y[..|y| - 1]);
    } else {
      assert p == x + "/";
    }
  }

  lemma DirnameOfTopLevel(c: string)
    requires Piece(c)
    ensures Dirname(FromComponents([c])) == FromComponents([])
  {
    assert FromComponents([c]) == "" + "/" + c;
    AfterLastSeparatorSkips("", c);
    assert FromComponents([c])[..1] == "/";
  }

  lemma DirnameOfNested(init: seq<string>, c: string)
    requires |init| >= 1 && AllPieces(init) && Piece(c)
    ensures Dirname(FromComponents(init + [c])) == FromComponents(init)
  {
    JoinAppend(init, [c], "/");
    var x := FromComponents(init);
    assert FromComponents(init + [c]) == x + "/" + c;
    AfterLastSeparatorSkips(x, c);
    var head := x + "/";
    assert FromComponents(init + [c])[..|x| + 1] == head;
    JoinEndsInPiece(init);
    var j := Join(init, "/");
    assert x[|x| - 1] == j[|j| - 1];
    assert head[|head| - 2] != '/';
    assert !OnlySeparators(head);
    assert head[..|head| - 1] == x;
    assert StripTrailingSeparators(head) == StripTrailingSeparators(x);
    assert StripTrailingSeparators(x) == x;
  }

  /** The parent of a normalised path drops its last component. */
  lemma DirnameDropsLast(cs: seq<string>)
    requires |cs| >= 1 && AllPieces(cs)
    ensures Dirname(FromComponents(cs)) == FromComponents(cs[..|cs| - 1])
  {
    if |cs| == 1 {
      DirnameOfTopLevel(cs[0]);
    } else {
      assert cs == cs[..|cs| - 1] + [cs[|cs| - 1]];
      DirnameOfNested(cs[..|cs| - 1], cs[|cs| - 1]);
    }
  }
}
