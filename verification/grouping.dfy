/**
 * Album discovery in a directory tree: the tree is walked top-down with
 * each directory's entries in case-insensitive name order, every directory
 * that directly holds files becomes an album, and the directories of a
 * multi-disc album (nested disc folders, or sibling folders named like
 * consecutive discs) are coalesced into one album.
 */
module Grouping {
  import opened Results
  import Text

  /** A directory: its name, the names of the files directly in it, and its subdirectories. */
  datatype Dir = Dir(name: string, files: seq<string>, subdirs: seq<Dir>)

  /** A path, as the list of its components. */
  type Path = seq<string>

  /*** Case-insensitive ordering ***/

  /** Lexicographic order on character codes. */
  predicate LexLe(a: string, b: string) {
    a == [] || (b != [] && (a[0] < b[0] || (a[0] == b[0] && LexLe(a[1..], b[1..]))))
  }

  /** Names are ordered by their lower-cased form (ASCII letters only are folded). */
  predicate NameLe(a: string, b: string) {
    LexLe(Text.Lower(a), Text.Lower(b))
  }

  lemma {:induction false} LexTotal(a: string, b: string)
    ensures LexLe(a, b) || LexLe(b, a)
  {
    if a != [] && b != [] && a[0] == b[0] {
      LexTotal(a[1..], b[1..]);
    }
  }

  lemma {:induction false} LexCommonPrefix(p: string, x: string, y: string)
    requires LexLe(x, y)
    ensures LexLe(p + x, p + y)
  {
    if p == [] {
      assert p + x == x && p + y == y;
    } else {
      assert (p + x)[0] == p[0] && (p + y)[0] == p[0];
      assert (p + x)[1..] == p[1..] + x;
      assert (p + y)[1..] == p[1..] + y;
      LexCommonPrefix(p[1..], x, y);
    }
  }

  /** Adjacent entries are in name order. */
  predicate SortedBy<T>(xs: seq<T>, key: T -> string) {
    forall i :: 0 <= i < |xs| - 1 ==> NameLe(key(xs[i]), key(xs[i + 1]))
  }

  /** Inserts `x` before the first entry whose name does not precede it. */
  function Insert<T>(x: T, xs: seq<T>, key: T -> string): (r: seq<T>)
    requires SortedBy(xs, key)
    ensures SortedBy(r, key) && multiset(r) == multiset(xs) + multiset{x}
    ensures r != [] && (r[0] == x || (xs != [] && r[0] == xs[0]))
  {
    if xs == [] then [x]
    else if NameLe(key(x), key(xs[0])) then [x] + xs
    else
      LexTotal(Text.Lower(key(x)), Text.Lower(key(xs[0])));
      var rest := Insert(x, xs[1..], key);
      assert xs == [xs[0]] + xs[1..];
      [xs[0]] + rest
  }

  /**
   * A stable insertion sort by name. The walk sorts both file and
   * directory names this way before visiting them.
   */
  function SortBy<T>(xs: seq<T>, key: T -> string): (r: seq<T>)
    ensures SortedBy(r, key) && multiset(r) == multiset(xs)
  {
    if xs == [] then []
    else
      assert xs == [xs[0]] + xs[1..];
      Insert(xs[0], SortBy(xs[1..], key), key)
  }

  lemma {:induction false} SortSorted<T>(xs: seq<T>, key: T -> string)
    requires SortedBy(xs, key)
    ensures SortBy(xs, key) == xs
  {
    if xs != [] {
      SortSorted(xs[1..], key);
      assert xs == [xs[0]] + xs[1..];
    }
  }

  function FileName(f: string): string { f }

  function DirName(d: Dir): string { d.name }

  /** The tree with every directory's files and subdirectories in name order. */
  function SortTree(d: Dir): Dir
    decreases d
  {
    Dir(d.name,
        SortBy(d.files, FileName),
        SortBy(seq(|d.subdirs|, i requires 0 <= i < |d.subdirs| => SortTree(d.subdirs[i])), DirName))
  }

  /** Every directory's entries are already in name order. */
  predicate SortedTree(d: Dir)
    decreases d
  {
    && SortedBy(d.files, FileName)
    && SortedBy(d.subdirs, DirName)
    && forall i :: 0 <= i < |d.subdirs| ==> SortedTree(d.subdirs[i])
  }

  lemma {:induction false} SortTreeOfSorted(d: Dir)
    requires SortedTree(d)
    ensures SortTree(d) == d
    decreases d
  {
    var kids := seq(|d.subdirs|, i requires 0 <= i < |d.subdirs| => SortTree(d.subdirs[i]));
    forall i | 0 <= i < |d.subdirs|
      ensures kids[i] == d.subdirs[i]
    {
      SortTreeOfSorted(d.subdirs[i]);
    }
    assert kids == d.subdirs;
    SortSorted(d.files, FileName);
    SortSorted(d.subdirs, DirName);
  }

  /*** The walk ***/

  /** What the walk reports for one directory: its path and the names of its subdirectories and files. */
  datatype Visit = Visit(path: Path, dirs: seq<string>, files: seq<string>)

  function Names(ds: seq<Dir>): (ns: seq<string>)
    ensures |ns| == |ds| && forall i :: 0 <= i < |ds| ==> ns[i] == ds[i].name
  {
    seq(|ds|, i requires 0 <= i < |ds| => ds[i].name)
  }

  function Concat<T>(xss: seq<seq<T>>): seq<T> {
    if xss == [] then [] else xss[0] + Concat(xss[1..])
  }

  /** Pre-order walk: a directory, then the walks of its subdirectories in order. */
  function Walk(d: Dir, parent: Path): (vs: seq<Visit>)
    ensures vs != [] && vs[0] == Visit(parent + [d.name], Names(d.subdirs), d.files)
    decreases d
  {
    var path := parent + [d.name];
    [Visit(path, Names(d.subdirs), d.files)]
      + Concat(seq(|d.subdirs|, i requires 0 <= i < |d.subdirs| => Walk(d.subdirs[i], path)))
  }

  /** The walk over the tree with each directory's entries sorted by name. */
  function SortedWalk(d: Dir, parent: Path): seq<Visit> {
    Walk(SortTree(d), parent)
  }

  /*** Grouping ***/

  /**
   * The disc-marker recogniser: `rec(m, name)` is the text before the disc
   * number when `name` matches disc marker `m` (0 for "disc" or "disk",
   * 1 for "cd", case-insensitively, optionally followed by punctuation),
   * and `None` when it does not match.
   */
  type Recogniser = (nat, string) -> Option<string>

  /** The number of disc markers the recogniser knows. */
  const MarkerCount: nat := 2

  /** An album found by the scan: the directories it spans and its files. */
  datatype Group = Group(roots: seq<Path>, items: seq<Path>)

  /** The multi-disc album being collected: the prefix later disc folders must share, if any, and what it has so far. */
  datatype Collapse = Collapse(prefix: Option<string>, paths: seq<Path>, items: seq<Path>)

  /** The files directly in a visited directory, as paths. */
  function Items(v: Visit): (ps: seq<Path>)
    ensures |ps| == |v.files| && forall i :: 0 <= i < |v.files| ==> ps[i] == v.path + [v.files[i]]
  {
    seq(|v.files|, i requires 0 <= i < |v.files| => v.path + [v.files[i]])
  }

  function Basename(p: Path): string {
    if p == [] then "" else p[|p| - 1]
  }

  /** `name` continues the disc series: it starts with `prefix`, ignoring ASCII case, and then a digit. */
  predicate SeriesMatch(prefix: string, name: string) {
    |name| > |prefix| && Text.Lower(name[..|prefix|]) == Text.Lower(prefix) && Text.IsDigit(name[|prefix|])
  }

  /** `p` lies strictly inside one of the directories `roots`. */
  predicate UnderAny(p: Path, roots: seq<Path>) {
    exists k :: 0 <= k < |roots| && roots[k] < p
  }

  /** All subdirectories continue the series that the first one starts under marker `m`. */
  predicate NestedSeries(dirs: seq<string>, m: nat, rec: Recogniser) {
    && dirs != []
    && rec(m, dirs[0]).Some?
    && forall k :: 1 <= k < |dirs| ==> SeriesMatch(rec(m, dirs[0]).value, dirs[k])
  }

  /** How a visited directory can begin a multi-disc album. */
  datatype Start = NoStart | Nested | Flattened(prefix: string)

  /**
   * A directory with subdirectories but no files begins a nested multi-disc
   * album when its subdirectories form a disc series under some marker; any
   * other directory begins a flattened one when its own name carries a disc
   * marker, the first marker that matches giving the series prefix.
   */
  function StartOf(v: Visit, rec: Recogniser): (st: Start)
    ensures st.Nested? ==> v.files == [] && v.dirs != []
    ensures st.Flattened? ==>
      !(v.dirs != [] && v.files == []) && (rec(0, Basename(v.path)) == Some(st.prefix) || rec(1, Basename(v.path)) == Some(st.prefix))
    ensures st.NoStart? && (v.dirs == [] || v.files != []) ==> rec(0, Basename(v.path)).None? && rec(1, Basename(v.path)).None?
  {
    if v.dirs != [] && v.files == [] then
      if NestedSeries(v.dirs, 0, rec) || NestedSeries(v.dirs, 1, rec) then Nested else NoStart
    else if rec(0, Basename(v.path)).Some? then Flattened(rec(0, Basename(v.path)).value)
    else if rec(1, Basename(v.path)).Some? then Flattened(rec(1, Basename(v.path)).value)
    else NoStart
  }

  /** A multi-disc album in progress keeps collecting a directory inside it or one continuing its series. */
  predicate Continues(c: Collapse, v: Visit) {
    UnderAny(v.path, c.paths) || (c.prefix.Some? && SeriesMatch(c.prefix.value, Basename(v.path)))
  }

  /** Ends a multi-disc album in progress; it becomes a group only if it collected files. */
  function Flush(state: Option<Collapse>): (gs: seq<Group>)
    ensures |gs| <= 1 && forall g :: g in gs ==> g.items != [] && g.roots != []
  {
    match state
    case Some(c) => if c.items != [] && c.paths != [] then [Group(c.paths, c.items)] else []
    case None => []
  }

  /** The files of an album in progress. */
  function Pending(state: Option<Collapse>): seq<Path> {
    match state
    case Some(c) => c.items
    case None => []
  }

  /** Every album in progress spans at least one directory. */
  predicate ValidState(state: Option<Collapse>) {
    state.Some? ==> state.value.paths != []
  }

  /** Processes one visited directory: the groups it completes, and the next state. */
  function Step(v: Visit, state: Option<Collapse>, rec: Recogniser): (r: (seq<Group>, Option<Collapse>))
    requires ValidState(state)
    ensures ValidState(r.1)
    ensures forall g :: g in r.0 ==> g.items != [] && g.roots != []
  {
    var items := Items(v);
    if state.Some? && Continues(state.value, v) then
      var c := state.value;
      ([], Some(c.(paths := c.paths + [v.path], items := c.items + items)))
    else
      var done := Flush(state);
      match StartOf(v, rec)
      case Nested => (done, Some(Collapse(None, [v.path], items)))
      case Flattened(p) => (done, Some(Collapse(Some(p), [v.path], items)))
      case NoStart => (done + (if items != [] then [Group([v.path], items)] else []), None)
  }

  /** The groups found from the visits `vs` on, given the album in progress. */
  function ScanFrom(vs: seq<Visit>, state: Option<Collapse>, rec: Recogniser): (gs: seq<Group>)
    requires ValidState(state)
    ensures forall g :: g in gs ==> g.items != [] && g.roots != []
    decreases |vs|
  {
    if vs == [] then Flush(state)
    else
      var (done, next) := Step(vs[0], state, rec);
      done + ScanFrom(vs[1..], next, rec)
  }

  /** The albums in the tree rooted at `d`, whose parent directory is `parent`. */
  function AlbumsInDir(d: Dir, parent: Path, rec: Recogniser): (gs: seq<Group>)
    ensures forall g :: g in gs ==> g.items != [] && g.roots != []
  {
    ScanFrom(SortedWalk(d, parent), None, rec)
  }

  /*** Laws ***/

  function AllItems(gs: seq<Group>): seq<Path> {
    if gs == [] then [] else gs[0].items + AllItems(gs[1..])
  }

  function VisitItems(vs: seq<Visit>): seq<Path> {
    if vs == [] then [] else Items(vs[0]) + VisitItems(vs[1..])
  }

  lemma {:induction false} AllItemsAppend(a: seq<Group>, b: seq<Group>)
    ensures AllItems(a + b) == AllItems(a) + AllItems(b)
  {
    if a == [] {
      assert a + b == b;
    } else {
      assert (a + b)[0] == a[0];
      assert (a + b)[1..] == a[1..] + b;
      AllItemsAppend(a[1..], b);
    }
  }

  lemma Regroup<T>(a: seq<T>, b: seq<T>, c: seq<T>, d: seq<T>, e: seq<T>)
    requires a + b == d + e
    ensures a + (b + c) == d + (e + c)
  {
    calc {
      a + (b + c);
      (a + b) + c;
      (d + e) + c;
      d + (e + c);
    }
  }

  lemma StepKeepsItems(v: Visit, state: Option<Collapse>, rec: Recogniser)
    requires ValidState(state)
    ensures AllItems(Step(v, state, rec).0) + Pending(Step(v, state, rec).1) == Pending(state) + Items(v)
  {
    var items := Items(v);
    var flushed := Flush(state);
    assert AllItems(flushed) == Pending(state) || (Pending(state) == [] && flushed == []) by {
      if flushed != [] {
        assert flushed == [Group(state.value.paths, state.value.items)];
      }
    }
    if !(state.Some? && Continues(state.value, v)) && StartOf(v, rec) == NoStart {
      var own := if items != [] then [Group([v.path], items)] else [];
      AllItemsAppend(flushed, own);
      if items != [] {
        assert AllItems(own) == items;
      }
    }
  }

  /**
   * The groups partition the files: listed group by group, they are
   * exactly the files of the visited directories in walk order.
   */
  lemma {:induction false} ScanKeepsItems(vs: seq<Visit>, state: Option<Collapse>, rec: Recogniser)
    requires ValidState(state)
    ensures AllItems(ScanFrom(vs, state, rec)) == Pending(state) + VisitItems(vs)
    decreases |vs|
  {
    if vs == [] {
      if Flush(state) != [] {
        assert Flush(state) == [Group(state.value.paths, state.value.items)];
      }
    } else {
      var r := Step(vs[0], state, rec);
      var rest := ScanFrom(vs[1..], r.1, rec);
      assert ScanFrom(vs, state, rec) == r.0 + rest;
      StepKeepsItems(vs[0], state, rec);
      ScanKeepsItems(vs[1..], r.1, rec);
      AllItemsAppend(r.0, rest);
      Regroup(AllItems(r.0), Pending(r.1), VisitItems(vs[1..]), Pending(state), Items(vs[0]));
    }
  }

  /** Every file of the tree belongs to exactly one album, and the albums list the files in walk order. */
  lemma AlbumsPartitionFiles(d: Dir, parent: Path, rec: Recogniser)
    ensures AllItems(AlbumsInDir(d, parent, rec)) == VisitItems(SortedWalk(d, parent))
  {
    ScanKeepsItems(SortedWalk(d, parent), None, rec);
  }

  /** A tree without files yields no album. */
  lemma NoFilesNoAlbums(d: Dir, parent: Path, rec: Recogniser)
    requires VisitItems(SortedWalk(d, parent)) == []
    ensures AlbumsInDir(d, parent, rec) == []
  {
    AlbumsPartitionFiles(d, parent, rec);
  }

  /** No directory anywhere in the tree holds a file. */
  predicate NoFiles(d: Dir)
    decreases d
  {
    d.files == [] && forall i :: 0 <= i < |d.subdirs| ==> NoFiles(d.subdirs[i])
  }

  lemma {:induction false} VisitItemsAppend(a: seq<Visit>, b: seq<Visit>)
    ensures VisitItems(a + b) == VisitItems(a) + VisitItems(b)
  {
    if a == [] {
      assert a + b == b;
    } else {
      assert (a + b)[0] == a[0];
      assert (a + b)[1..] == a[1..] + b;
      VisitItemsAppend(a[1..], b);
    }
  }

  lemma {:induction false} ConcatWithoutItems(xss: seq<seq<Visit>>)
    requires forall i :: 0 <= i < |xss| ==> VisitItems(xss[i]) == []
    ensures VisitItems(Concat(xss)) == []
  {
    if xss != [] {
      ConcatWithoutItems(xss[1..]);
      VisitItemsAppend(xss[0], Concat(xss[1..]));
    }
  }

  lemma {:induction false} WalkWithoutFiles(d: Dir, parent: Path)
    requires NoFiles(d)
    ensures VisitItems(Walk(d, parent)) == []
    decreases d
  {
    var path := parent + [d.name];
    var kids := seq(|d.subdirs|, i requires 0 <= i < |d.subdirs| => Walk(d.subdirs[i], path));
    forall i | 0 <= i < |kids|
      ensures VisitItems(kids[i]) == []
    {
      WalkWithoutFiles(d.subdirs[i], path);
    }
    ConcatWithoutItems(kids);
    VisitItemsAppend([Visit(path, Names(d.subdirs), d.files)], Concat(kids));
  }

  lemma {:induction false} SortTreeWithoutFiles(d: Dir)
    requires NoFiles(d)
    ensures NoFiles(SortTree(d))
    decreases d
  {
    var kids := seq(|d.subdirs|, i requires 0 <= i < |d.subdirs| => SortTree(d.subdirs[i]));
    forall i | 0 <= i < |kids|
      ensures NoFiles(kids[i])
    {
      SortTreeWithoutFiles(d.subdirs[i]);
    }
    var sorted := SortBy(kids, DirName);
    forall j | 0 <= j < |sorted|
      ensures NoFiles(sorted[j])
    {
      assert sorted[j] in multiset(kids);
    }
  }

  /** A tree in which no directory holds a file yields no album, however its directories are named. */
  lemma EmptyTreeNoAlbums(d: Dir, parent: Path, rec: Recogniser)
    requires NoFiles(d)
    ensures AlbumsInDir(d, parent, rec) == []
  {
    SortTreeWithoutFiles(d);
    WalkWithoutFiles(SortTree(d), parent);
    NoFilesNoAlbums(d, parent, rec);
  }

  /** No directory name the scan looks at carries a disc marker. */
  predicate NoMarkers(vs: seq<Visit>, rec: Recogniser) {
    forall i :: 0 <= i < |vs| ==>
      && (forall m :: 0 <= m < MarkerCount ==> rec(m, Basename(vs[i].path)).None?)
      && (vs[i].dirs != [] ==> forall m :: 0 <= m < MarkerCount ==> rec(m, vs[i].dirs[0]).None?)
  }

  /** One group per directory that directly holds files, in walk order. */
  function PlainGroups(vs: seq<Visit>): seq<Group> {
    if vs == [] then []
    else (if vs[0].files != [] then [Group([vs[0].path], Items(vs[0]))] else []) + PlainGroups(vs[1..])
  }

  /** Without disc markers, every directory that directly holds files is an album of its own. */
  lemma {:induction false} NoMarkersOneGroupPerDirectory(vs: seq<Visit>, rec: Recogniser)
    requires NoMarkers(vs, rec)
    ensures ScanFrom(vs, None, rec) == PlainGroups(vs)
    decreases |vs|
  {
    if vs != [] {
      assert forall m :: 0 <= m < MarkerCount ==> rec(m, Basename(vs[0].path)).None?;
      assert rec(0, Basename(vs[0].path)).None? && rec(1, Basename(vs[0].path)).None?;
      if vs[0].dirs != [] {
        assert rec(0, vs[0].dirs[0]).None? && rec(1, vs[0].dirs[0]).None?;
      }
      assert StartOf(vs[0], rec) == NoStart;
      assert NoMarkers(vs[1..], rec) by {
        forall i | 0 <= i < |vs[1..]|
          ensures vs[1..][i] == vs[i + 1]
        {
        }
      }
      NoMarkersOneGroupPerDirectory(vs[1..], rec);
    }
  }
}
