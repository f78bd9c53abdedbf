/**
 * Worked examples of album discovery: a tree of single-disc albums, and a
 * tree mixing nested and flattened multi-disc albums with look-alike names.
 */
module GroupingExamples {
  import opened Results
  import Text
  import opened Grouping

  /*** Example: four single-disc albums, two of them one level deeper ***/

  function Leaf(name: string, files: seq<string>): Dir {
    Dir(name, files, [])
  }

  function SimpleTree(): Dir {
    Dir("tempdir", [], [
      Leaf("album1", ["album1song1.mp3", "album1song2.mp3"]),
      Leaf("album2", ["album2song.mp3"]),
      Dir("more", [], [Leaf("album3", ["album3song.mp3"]), Leaf("album4", ["album4song.mp3"])])])
  }

  lemma {:induction false} WalkOfLeaf(d: Dir, parent: Path)
    requires d.subdirs == []
    ensures Walk(d, parent) == [Visit(parent + [d.name], [], d.files)]
  {
    assert Concat<Visit>([]) == [];
  }

  lemma ConcatOfTwo<T>(a: seq<T>, b: seq<T>)
    ensures Concat([a, b]) == a + b
  {
    assert [a, b][1..] == [b];
    assert [b][1..] == [];
    assert Concat<T>([]) == [];
    assert Concat([b]) == b + [] == b;
  }

  lemma ConcatOfThree<T>(a: seq<T>, b: seq<T>, c: seq<T>)
    ensures Concat([a, b, c]) == a + b + c
  {
    assert [a, b, c][1..] == [b, c];
    ConcatOfTwo(b, c);
  }

  /** Two names sharing a prefix are ordered by what follows it. */
  lemma NameLeAfterPrefix(p: string, x: string, y: string)
    requires forall i :: 0 <= i < |p + x| ==> !('A' <= (p + x)[i] <= 'Z')
    requires forall i :: 0 <= i < |p + y| ==> !('A' <= (p + y)[i] <= 'Z')
    requires x != [] && y != [] && x[0] < y[0]
    ensures NameLe(p + x, p + y)
  {
    Text.LowerUnchanged(p + x);
    Text.LowerUnchanged(p + y);
    LexCommonPrefix(p, x, y);
  }

  lemma OneFileLeafSorted(name: string, f: string)
    ensures SortedTree(Leaf(name, [f]))
  {
  }

  /** A directory without subdirectories holding two files in name order is sorted. */
  lemma TwoFileLeafSorted(name: string, f: string, g: string)
    requires NameLe(f, g)
    ensures SortedTree(Leaf(name, [f, g]))
  {
    var d := Leaf(name, [f, g]);
    assert SortedBy(d.files, FileName) by {
      assert FileName(d.files[0]) == f && FileName(d.files[1]) == g;
    }
  }

  lemma FirstAlbumSorted()
    ensures SortedTree(SimpleTree().subdirs[0])
  {
    assert "album1song" + "1.mp3" == "album1song1.mp3";
    assert "album1song" + "2.mp3" == "album1song2.mp3";
    NameLeAfterPrefix("album1song", "1.mp3", "2.mp3");
    TwoFileLeafSorted("album1", "album1song1.mp3", "album1song2.mp3");
    assert SimpleTree().subdirs[0] == Leaf("album1", ["album1song1.mp3", "album1song2.mp3"]);
  }

  lemma MoreSorted()
    ensures SortedTree(SimpleTree().subdirs[2])
  {
    OneFileLeafSorted("album3", "album3song.mp3");
    OneFileLeafSorted("album4", "album4song.mp3");
    assert "album" + "3" == "album3";
    assert "album" + "4" == "album4";
    NameLeAfterPrefix("album", "3", "4");
  }

  lemma TopLevelSorted()
    ensures SortedBy(SimpleTree().subdirs, DirName)
  {
    assert "album" + "1" == "album1";
    assert "album" + "2" == "album2";
    NameLeAfterPrefix("album", "1", "2");
    assert NameLe("album2", "more") by {
      Text.LowerUnchanged("album2");
      Text.LowerUnchanged("more");
    }
  }

  lemma SimpleTreeIsSorted()
    ensures SortedTree(SimpleTree())
  {
    FirstAlbumSorted();
    OneFileLeafSorted("album2", "album2song.mp3");
    MoreSorted();
    TopLevelSorted();
  }

  /** The walks of a directory's subdirectories, one per subdirectory. */
  function SubWalks(d: Dir, path: Path): (ks: seq<seq<Visit>>)
    ensures |ks| == |d.subdirs| && forall i :: 0 <= i < |d.subdirs| ==> ks[i] == Walk(d.subdirs[i], path)
  {
    seq(|d.subdirs|, i requires 0 <= i < |d.subdirs| => Walk(d.subdirs[i], path))
  }

  lemma WalkUnfold(d: Dir, parent: Path)
    ensures Walk(d, parent) == [Visit(parent + [d.name], Names(d.subdirs), d.files)] + Concat(SubWalks(d, parent + [d.name]))
  {
  }

  lemma WalkOfTwo(d: Dir, parent: Path)
    requires |d.subdirs| == 2
    ensures Walk(d, parent) == [Visit(parent + [d.name], Names(d.subdirs), d.files)]
      + Walk(d.subdirs[0], parent + [d.name]) + Walk(d.subdirs[1], parent + [d.name])
  {
    var ks := SubWalks(d, parent + [d.name]);
    WalkUnfold(d, parent);
    assert ks == [ks[0], ks[1]];
    ConcatOfTwo(ks[0], ks[1]);
  }

  lemma WalkOfThree(d: Dir, parent: Path)
    requires |d.subdirs| == 3
    ensures Walk(d, parent) == [Visit(parent + [d.name], Names(d.subdirs), d.files)]
      + Walk(d.subdirs[0], parent + [d.name]) + Walk(d.subdirs[1], parent + [d.name]) + Walk(d.subdirs[2], parent + [d.name])
  {
    var ks := SubWalks(d, parent + [d.name]);
    WalkUnfold(d, parent);
    assert ks == [ks[0], ks[1], ks[2]];
    ConcatOfThree(ks[0], ks[1], ks[2]);
  }

  lemma MoreWalk()
    ensures Walk(SimpleTree().subdirs[2], ["tempdir"]) == [
      Visit(["tempdir", "more"], ["album3", "album4"], []),
      Visit(["tempdir", "more", "album3"], [], ["album3song.mp3"]),
      Visit(["tempdir", "more", "album4"], [], ["album4song.mp3"])]
  {
    var more := SimpleTree().subdirs[2];
    WalkOfTwo(more, ["tempdir"]);
    assert Names(more.subdirs) == ["album3", "album4"];
    assert ["tempdir"] + ["more"] == ["tempdir", "more"];
    WalkOfLeaf(more.subdirs[0], ["tempdir", "more"]);
    WalkOfLeaf(more.subdirs[1], ["tempdir", "more"]);
    assert ["tempdir", "more"] + ["album3"] == ["tempdir", "more", "album3"];
    assert ["tempdir", "more"] + ["album4"] == ["tempdir", "more", "album4"];
  }

  function SimpleVisits(): seq<Visit> {
    [ Visit(["tempdir"], ["album1", "album2", "more"], []),
      Visit(["tempdir", "album1"], [], ["album1song1.mp3", "album1song2.mp3"]),
      Visit(["tempdir", "album2"], [], ["album2song.mp3"]),
      Visit(["tempdir", "more"], ["album3", "album4"], []),
      Visit(["tempdir", "more", "album3"], [], ["album3song.mp3"]),
      Visit(["tempdir", "more", "album4"], [], ["album4song.mp3"]) ]
  }

  lemma SimpleTreeUnsortedWalk()
    ensures Walk(SimpleTree(), []) == SimpleVisits()
  {
    var t := SimpleTree();
    WalkOfThree(t, []);
    assert Names(t.subdirs) == ["album1", "album2", "more"];
    assert [] + ["tempdir"] == ["tempdir"];
    WalkOfLeaf(t.subdirs[0], ["tempdir"]);
    WalkOfLeaf(t.subdirs[1], ["tempdir"]);
    assert ["tempdir"] + ["album1"] == ["tempdir", "album1"];
    assert ["tempdir"] + ["album2"] == ["tempdir", "album2"];
    MoreWalk();
  }

  /** The tree's entries are already in name order, so the walk visits them as listed. */
  lemma SimpleTreeWalk()
    ensures SortedWalk(SimpleTree(), []) == SimpleVisits()
  {
    SimpleTreeIsSorted();
    SortTreeOfSorted(SimpleTree());
    SimpleTreeUnsortedWalk();
  }

  lemma ItemsOfOne(v: Visit)
    requires |v.files| == 1
    ensures Items(v) == [v.path + [v.files[0]]]
  {
  }

  lemma ItemsOfTwo(v: Visit)
    requires |v.files| == 2
    ensures Items(v) == [v.path + [v.files[0]], v.path + [v.files[1]]]
  {
  }

  lemma SimpleVisitsPlainGroups()
    ensures PlainGroups(SimpleVisits()) == [
      Group([["tempdir", "album1"]], [["tempdir", "album1", "album1song1.mp3"], ["tempdir", "album1", "album1song2.mp3"]]),
      Group([["tempdir", "album2"]], [["tempdir", "album2", "album2song.mp3"]]),
      Group([["tempdir", "more", "album3"]], [["tempdir", "more", "album3", "album3song.mp3"]]),
      Group([["tempdir", "more", "album4"]], [["tempdir", "more", "album4", "album4song.mp3"]])]
  {
    var vs := SimpleVisits();
    ItemsOfTwo(vs[1]);
    assert ["tempdir", "album1"] + ["album1song1.mp3"] == ["tempdir", "album1", "album1song1.mp3"];
    assert ["tempdir", "album1"] + ["album1song2.mp3"] == ["tempdir", "album1", "album1song2.mp3"];
    ItemsOfOne(vs[2]);
    assert ["tempdir", "album2"] + ["album2song.mp3"] == ["tempdir", "album2", "album2song.mp3"];
    ItemsOfOne(vs[4]);
    assert ["tempdir", "more", "album3"] + ["album3song.mp3"] == ["tempdir", "more", "album3", "album3song.mp3"];
    ItemsOfOne(vs[5]);
    assert ["tempdir", "more", "album4"] + ["album4song.mp3"] == ["tempdir", "more", "album4", "album4song.mp3"];
    assert vs[1..][1..][1..][1..][1..][1..] == [];
  }

  lemma SimpleVisitsNoMarkers(rec: Recogniser)
    requires forall m: nat, n: string :: m < MarkerCount && n in ["tempdir", "album1", "album2", "more", "album3", "album4"] ==> rec(m, n).None?
    ensures NoMarkers(SimpleVisits(), rec)
  {
    var vs := SimpleVisits();
    forall i | 0 <= i < |vs|
      ensures Basename(vs[i].path) in ["tempdir", "album1", "album2", "more", "album3", "album4"]
      ensures vs[i].dirs != [] ==> vs[i].dirs[0] in ["tempdir", "album1", "album2", "more", "album3", "album4"]
    {
    }
  }

  /**
   * With no disc marker in any name, the tree yields four albums, one per
   * directory holding files, and the first of them holds both its songs.
   */
  lemma SimpleTreeAlbums(rec: Recogniser)
    requires forall m: nat, n: string :: m < MarkerCount && n in ["tempdir", "album1", "album2", "more", "album3", "album4"] ==> rec(m, n).None?
    ensures AlbumsInDir(SimpleTree(), [], rec) == [
      Group([["tempdir", "album1"]], [["tempdir", "album1", "album1song1.mp3"], ["tempdir", "album1", "album1song2.mp3"]]),
      Group([["tempdir", "album2"]], [["tempdir", "album2", "album2song.mp3"]]),
      Group([["tempdir", "more", "album3"]], [["tempdir", "more", "album3", "album3song.mp3"]]),
      Group([["tempdir", "more", "album4"]], [["tempdir", "more", "album4", "album4song.mp3"]])]
  {
    SimpleTreeWalk();
    var vs := SimpleVisits();
    SimpleVisitsNoMarkers(rec);
    NoMarkersOneGroupPerDirectory(vs, rec);
    SimpleVisitsPlainGroups();
  }

  /*** Example: nested and flattened multi-disc albums ***/

  /**
   * `name` and `nameAlt` differ only in ASCII case (the second disc of the
   * flattened album has a case typo); both are left open so the example
   * covers any spelling, including non-ASCII ones.
   */
  function MultiDiscTree(name: string, nameAlt: string): Dir {
    Dir("tempdir", [], [NestedAlbum(), SingleSubdirAlbum(), ArtistDir(name, nameAlt)])
  }

  /** A nested album with two disc folders; the parent's own name looks like a disc marker too. */
  function NestedAlbum(): Dir {
    Dir("ABCD1234", [], [Leaf("cd 1", ["song1.mp3"]), Leaf("cd 3 - bonus", ["song2.mp3", "song3.mp3"])])
  }

  /** A nested album with a single disc folder, punctuation between marker and number. */
  function SingleSubdirAlbum(): Dir {
    Dir("album", [], [Leaf("cd _ 1", ["song4.mp3"])])
  }

  /** A flattened two-disc album next to a single-disc album whose name shares its stem. */
  function ArtistDir(name: string, nameAlt: string): Dir {
    Dir("artist [CD5]", [], [
      Leaf(name + " disc 1", ["song5.mp3"]),
      Leaf(nameAlt + " disc 2", ["song6.mp3"]),
      Leaf(name + "S", ["song7.mp3"])])
  }

  function MultiDiscVisits(name: string, nameAlt: string): seq<Visit> {
    [ Visit(["tempdir"], ["ABCD1234", "album", "artist [CD5]"], []),
      Visit(["tempdir", "ABCD1234"], ["cd 1", "cd 3 - bonus"], []),
      Visit(["tempdir", "ABCD1234", "cd 1"], [], ["song1.mp3"]),
      Visit(["tempdir", "ABCD1234", "cd 3 - bonus"], [], ["song2.mp3", "song3.mp3"]),
      Visit(["tempdir", "album"], ["cd _ 1"], []),
      Visit(["tempdir", "album", "cd _ 1"], [], ["song4.mp3"]),
      Visit(["tempdir", "artist [CD5]"], [name + " disc 1", nameAlt + " disc 2", name + "S"], []),
      Visit(["tempdir", "artist [CD5]", name + " disc 1"], [], ["song5.mp3"]),
      Visit(["tempdir", "artist [CD5]", nameAlt + " disc 2"], [], ["song6.mp3"]),
      Visit(["tempdir", "artist [CD5]", name + "S"], [], ["song7.mp3"]) ]
  }

  /** Names with equal folded stems are ordered by what follows the stems. */
  lemma SameFoldedStem(a: string, b: string, x: string, y: string)
    requires Text.Lower(a) == Text.Lower(b)
    requires x != [] && y != [] && Text.LowerChar(x[0]) < Text.LowerChar(y[0])
    ensures NameLe(a + x, b + y)
  {
    Text.LowerAppend(a, x);
    Text.LowerAppend(b, y);
    LexCommonPrefix(Text.Lower(a), Text.Lower(x), Text.Lower(y));
  }

  lemma MultiDiscTopSorted(name: string, nameAlt: string)
    ensures SortedBy(MultiDiscTree(name, nameAlt).subdirs, DirName)
  {
    assert "A" + "BCD1234" == "ABCD1234";
    assert "a" + "lbum" == "album";
    SameFoldedStem("A", "a", "BCD1234", "lbum");
    assert "a" + "rtist [CD5]" == "artist [CD5]";
    SameFoldedStem("a", "a", "lbum", "rtist [CD5]");
  }

  lemma BonusDiscSorted()
    ensures SortedTree(Leaf("cd 3 - bonus", ["song2.mp3", "song3.mp3"]))
  {
    assert "song" + "2.mp3" == "song2.mp3";
    assert "song" + "3.mp3" == "song3.mp3";
    SameFoldedStem("song", "song", "2.mp3", "3.mp3");
    TwoFileLeafSorted("cd 3 - bonus", "song2.mp3", "song3.mp3");
  }

  lemma NestedAlbumSorted()
    ensures SortedTree(NestedAlbum())
  {
    var d := NestedAlbum();
    assert SortedBy(d.subdirs, DirName) by {
      DiscOneBeforeThree();
    }
    assert SortedTree(d.subdirs[0]) by {
      OneFileLeafSorted("cd 1", "song1.mp3");
    }
    assert SortedTree(d.subdirs[1]) by {
      BonusDiscSorted();
    }
  }

  lemma DiscOneBeforeThree()
    ensures NameLe("cd 1", "cd 3 - bonus")
  {
    assert "cd " + "1" == "cd 1";
    assert "cd " + "3 - bonus" == "cd 3 - bonus";
    SameFoldedStem("cd ", "cd ", "1", "3 - bonus");
  }

  lemma ArtistDirSorted(name: string, nameAlt: string)
    requires Text.Lower(nameAlt) == Text.Lower(name)
    ensures SortedTree(ArtistDir(name, nameAlt))
  {
    OneFileLeafSorted(name + " disc 1", "song5.mp3");
    OneFileLeafSorted(nameAlt + " disc 2", "song6.mp3");
    OneFileLeafSorted(name + "S", "song7.mp3");
    Text.LowerAppend(name, " disc ");
    Text.LowerAppend(nameAlt, " disc ");
    assert name + " disc 1" == (name + " disc ") + "1";
    assert nameAlt + " disc 2" == (nameAlt + " disc ") + "2";
    SameFoldedStem(name + " disc ", nameAlt + " disc ", "1", "2");
    SameFoldedStem(nameAlt, name, " disc 2", "S");
  }

  lemma MultiDiscSorted(name: string, nameAlt: string)
    requires Text.Lower(nameAlt) == Text.Lower(name)
    ensures SortedTree(MultiDiscTree(name, nameAlt))
  {
    MultiDiscTopSorted(name, nameAlt);
    NestedAlbumSorted();
    OneFileLeafSorted("cd _ 1", "song4.mp3");
    ArtistDirSorted(name, nameAlt);
  }

  lemma NestedAlbumWalk()
    ensures Walk(NestedAlbum(), ["tempdir"]) == MultiDiscVisits("", "")[1..4]
  {
    var d := NestedAlbum();
    WalkOfTwo(d, ["tempdir"]);
    assert Names(d.subdirs) == ["cd 1", "cd 3 - bonus"];
    assert ["tempdir"] + ["ABCD1234"] == ["tempdir", "ABCD1234"];
    WalkOfLeaf(d.subdirs[0], ["tempdir", "ABCD1234"]);
    WalkOfLeaf(d.subdirs[1], ["tempdir", "ABCD1234"]);
    assert ["tempdir", "ABCD1234"] + ["cd 1"] == ["tempdir", "ABCD1234", "cd 1"];
    assert ["tempdir", "ABCD1234"] + ["cd 3 - bonus"] == ["tempdir", "ABCD1234", "cd 3 - bonus"];
  }

  lemma SingleSubdirAlbumWalk()
    ensures Walk(SingleSubdirAlbum(), ["tempdir"]) == MultiDiscVisits("", "")[4..6]
  {
    var d := SingleSubdirAlbum();
    var path := ["tempdir", "album"];
    assert ["tempdir"] + ["album"] == path;
    var kids := seq(|d.subdirs|, i requires 0 <= i < |d.subdirs| => Walk(d.subdirs[i], path));
    WalkOfLeaf(d.subdirs[0], path);
    assert kids == [Walk(d.subdirs[0], path)];
    assert Concat(kids) == Walk(d.subdirs[0], path) + Concat<Visit>([]);
    assert Names(d.subdirs) == ["cd _ 1"];
    assert path + ["cd _ 1"] == ["tempdir", "album", "cd _ 1"];
  }

  lemma ArtistDirWalk(name: string, nameAlt: string)
    ensures Walk(ArtistDir(name, nameAlt), ["tempdir"]) == MultiDiscVisits(name, nameAlt)[6..]
  {
    var d := ArtistDir(name, nameAlt);
    var path := ["tempdir", "artist [CD5]"];
    assert ["tempdir"] + ["artist [CD5]"] == path;
    WalkOfThree(d, ["tempdir"]);
    assert Names(d.subdirs) == [name + " disc 1", nameAlt + " disc 2", name + "S"];
    WalkOfLeaf(d.subdirs[0], path);
    WalkOfLeaf(d.subdirs[1], path);
    WalkOfLeaf(d.subdirs[2], path);
    assert path + [name + " disc 1"] == ["tempdir", "artist [CD5]", name + " disc 1"];
    assert path + [nameAlt + " disc 2"] == ["tempdir", "artist [CD5]", nameAlt + " disc 2"];
    assert path + [name + "S"] == ["tempdir", "artist [CD5]", name + "S"];
  }

  lemma MultiDiscUnsortedWalk(name: string, nameAlt: string)
    ensures Walk(MultiDiscTree(name, nameAlt), []) == MultiDiscVisits(name, nameAlt)
  {
    var t := MultiDiscTree(name, nameAlt);
    WalkOfThree(t, []);
    assert [] + ["tempdir"] == ["tempdir"];
    assert Names(t.subdirs) == ["ABCD1234", "album", "artist [CD5]"];
    NestedAlbumWalk();
    SingleSubdirAlbumWalk();
    ArtistDirWalk(name, nameAlt);
    var vs := MultiDiscVisits(name, nameAlt);
    assert MultiDiscVisits("", "")[1..4] == vs[1..4];
    assert MultiDiscVisits("", "")[4..6] == vs[4..6];
    assert vs == [vs[0]] + vs[1..4] + vs[4..6] + vs[6..];
  }

  /** The entries are already in case-insensitive name order, so the walk visits them as listed. */
  lemma MultiDiscWalk(name: string, nameAlt: string)
    requires Text.Lower(nameAlt) == Text.Lower(name)
    ensures SortedWalk(MultiDiscTree(name, nameAlt), []) == MultiDiscVisits(name, nameAlt)
  {
    MultiDiscSorted(name, nameAlt);
    SortTreeOfSorted(MultiDiscTree(name, nameAlt));
    MultiDiscUnsortedWalk(name, nameAlt);
  }

  /**
   * What the disc-marker recogniser says about the names the scan looks
   * at: "ABCD1234" carries the "cd" marker with prefix "ABCD", the nested
   * disc folders carry it with their own prefixes, and only the first
   * flattened disc folder carries the "disc" marker.
   */
  predicate MultiDiscMarkers(rec: Recogniser, name: string) {
    && rec(0, "ABCD1234") == None && rec(1, "ABCD1234") == Some("ABCD")
    && rec(0, "cd 1") == None && rec(1, "cd 1") == Some("cd ")
    && rec(0, "cd _ 1") == None && rec(1, "cd _ 1") == Some("cd _ ")
    && rec(0, name + " disc 1") == Some(name + " disc ") && rec(1, name + " disc 1") == None
    && rec(0, name + "S") == None && rec(1, name + "S") == None
  }

  /** The scan from visit `i` on is the step at `i` followed by the scan from `i + 1`. */
  lemma ScanAt(vs: seq<Visit>, i: nat, state: Option<Collapse>, rec: Recogniser)
    requires i < |vs| && ValidState(state)
    ensures ScanFrom(vs[i..], state, rec) == Step(vs[i], state, rec).0 + ScanFrom(vs[i + 1..], Step(vs[i], state, rec).1, rec)
  {
    assert vs[i..][0] == vs[i];
    assert vs[i..][1..] == vs[i + 1..];
  }

  /** The top directory's subdirectories do not form a disc series: "album" does not continue "ABCD". */
  lemma TopIsNoAlbum(name: string, nameAlt: string, rec: Recogniser)
    requires MultiDiscMarkers(rec, name)
    ensures Step(MultiDiscVisits(name, nameAlt)[0], None, rec) == ([], None)
  {
    var v := MultiDiscVisits(name, nameAlt)[0];
    assert v.dirs[0] == "ABCD1234" && v.dirs[1] == "album";
    assert !SeriesMatch("ABCD", "album") by {
      assert Text.Lower("album"[..4])[1] == 'l';
      assert Text.Lower("ABCD")[1] == 'b';
    }
    assert !NestedSeries(v.dirs, 1, rec);
    assert StartOf(v, rec) == NoStart;
    assert Items(v) == [];
    assert Flush(None) == [];
    assert Step(v, None, rec).1 == None;
    assert Step(v, None, rec).0 == [];
  }

  /** "ABCD1234" holds only "cd 1" and "cd 3 - bonus", a series under the "cd" marker. */
  lemma NestedStarts(name: string, nameAlt: string, rec: Recogniser)
    requires MultiDiscMarkers(rec, name)
    ensures Step(MultiDiscVisits(name, nameAlt)[1], None, rec)
         == ([], Some(Collapse(None, [["tempdir", "ABCD1234"]], [])))
  {
    assert "cd 3 - bonus"[..3] == "cd ";
    assert SeriesMatch("cd ", "cd 3 - bonus");
  }

  lemma NestedFirstDisc(name: string, nameAlt: string, rec: Recogniser)
    ensures Step(MultiDiscVisits(name, nameAlt)[2], Some(Collapse(None, [["tempdir", "ABCD1234"]], [])), rec)
         == ([], Some(Collapse(None, [["tempdir", "ABCD1234"], ["tempdir", "ABCD1234", "cd 1"]],
                                     [["tempdir", "ABCD1234", "cd 1", "song1.mp3"]])))
  {
    var v := MultiDiscVisits(name, nameAlt)[2];
    var c := Collapse(None, [["tempdir", "ABCD1234"]], []);
    assert c.paths[0] < v.path;
    assert Continues(c, v);
    ItemsOfOne(v);
    assert v.path + ["song1.mp3"] == ["tempdir", "ABCD1234", "cd 1", "song1.mp3"];
    assert c.paths + [v.path] == [["tempdir", "ABCD1234"], ["tempdir", "ABCD1234", "cd 1"]];
    assert c.items + Items(v) == [["tempdir", "ABCD1234", "cd 1", "song1.mp3"]];
  }

  lemma NestedBonusDisc(name: string, nameAlt: string, rec: Recogniser)
    ensures Step(MultiDiscVisits(name, nameAlt)[3],
                 Some(Collapse(None, [["tempdir", "ABCD1234"], ["tempdir", "ABCD1234", "cd 1"]],
                                     [["tempdir", "ABCD1234", "cd 1", "song1.mp3"]])), rec)
         == ([], Some(NestedAlbumCollected()))
  {
    var v := MultiDiscVisits(name, nameAlt)[3];
    var c := Collapse(None, [["tempdir", "ABCD1234"], ["tempdir", "ABCD1234", "cd 1"]],
                            [["tempdir", "ABCD1234", "cd 1", "song1.mp3"]]);
    assert c.paths[0] < v.path;
    assert Continues(c, v);
    ItemsOfTwo(v);
    assert v.path + ["song2.mp3"] == ["tempdir", "ABCD1234", "cd 3 - bonus", "song2.mp3"];
    assert v.path + ["song3.mp3"] == ["tempdir", "ABCD1234", "cd 3 - bonus", "song3.mp3"];
    assert c.paths + [v.path] == NestedAlbumCollected().paths;
    assert c.items + Items(v) == NestedAlbumCollected().items;
  }

  /** The nested album once both its disc folders are collected. */
  function NestedAlbumCollected(): Collapse {
    Collapse(None,
      [["tempdir", "ABCD1234"], ["tempdir", "ABCD1234", "cd 1"], ["tempdir", "ABCD1234", "cd 3 - bonus"]],
      [["tempdir", "ABCD1234", "cd 1", "song1.mp3"],
       ["tempdir", "ABCD1234", "cd 3 - bonus", "song2.mp3"],
       ["tempdir", "ABCD1234", "cd 3 - bonus", "song3.mp3"]])
  }

  /** "album" is not inside "ABCD1234", so the nested album ends, and "album" starts one of its own. */
  lemma SingleSubdirStarts(name: string, nameAlt: string, rec: Recogniser)
    requires MultiDiscMarkers(rec, name)
    ensures Step(MultiDiscVisits(name, nameAlt)[4], Some(NestedAlbumCollected()), rec)
         == ([Group(NestedAlbumCollected().paths, NestedAlbumCollected().items)],
             Some(Collapse(None, [["tempdir", "album"]], [])))
  {
    var v := MultiDiscVisits(name, nameAlt)[4];
    var c := NestedAlbumCollected();
    assert !UnderAny(v.path, c.paths) by {
      forall k | 0 <= k < |c.paths|
        ensures !(c.paths[k] < v.path)
      {
        assert |c.paths[k]| >= |v.path|;
      }
    }
    assert v.dirs[0] == "cd _ 1";
    assert NestedSeries(v.dirs, 1, rec);
    assert StartOf(v, rec) == Nested;
    assert Items(v) == [];
    assert Flush(Some(c)) == [Group(c.paths, c.items)];
  }

  lemma SingleSubdirDisc(name: string, nameAlt: string, rec: Recogniser)
    ensures Step(MultiDiscVisits(name, nameAlt)[5], Some(Collapse(None, [["tempdir", "album"]], [])), rec)
         == ([], Some(SingleSubdirCollected()))
  {
    var v := MultiDiscVisits(name, nameAlt)[5];
    var c := Collapse(None, [["tempdir", "album"]], []);
    assert c.paths[0] < v.path;
    assert Continues(c, v);
    ItemsOfOne(v);
    assert v.path + ["song4.mp3"] == ["tempdir", "album", "cd _ 1", "song4.mp3"];
    assert c.paths + [v.path] == SingleSubdirCollected().paths;
    assert c.items + Items(v) == SingleSubdirCollected().items;
  }

  function SingleSubdirCollected(): Collapse {
    Collapse(None, [["tempdir", "album"], ["tempdir", "album", "cd _ 1"]], [["tempdir", "album", "cd _ 1", "song4.mp3"]])
  }

  /**
   * "artist [CD5]" ends the second album. It holds no files, so its own
   * marker-like name is not consulted, and its subdirectories are no disc
   * series because the last of them does not continue the first.
   */
  lemma ArtistIsNoAlbum(name: string, nameAlt: string, rec: Recogniser)
    requires MultiDiscMarkers(rec, name)
    ensures Step(MultiDiscVisits(name, nameAlt)[6], Some(SingleSubdirCollected()), rec)
         == ([Group(SingleSubdirCollected().paths, SingleSubdirCollected().items)], None)
  {
    var v := MultiDiscVisits(name, nameAlt)[6];
    var c := SingleSubdirCollected();
    assert !UnderAny(v.path, c.paths) by {
      forall k | 0 <= k < |c.paths|
        ensures !(c.paths[k] < v.path)
      {
        assert |c.paths[k]| >= |v.path|;
      }
    }
    assert v.dirs[0] == name + " disc 1" && v.dirs[2] == name + "S";
    assert !SeriesMatch(name + " disc ", name + "S");
    assert !NestedSeries(v.dirs, 0, rec);
    assert !NestedSeries(v.dirs, 1, rec);
    assert StartOf(v, rec) == NoStart;
    assert Items(v) == [];
    assert !Continues(c, v);
    assert Flush(Some(c)) == [Group(c.paths, c.items)];
    assert Step(v, Some(c), rec) == ([Group(c.paths, c.items)] + [], None);
    assert [Group(c.paths, c.items)] + [] == [Group(c.paths, c.items)];
  }

  /** The first flattened disc folder names the series the next folders must continue. */
  lemma FlattenedStarts(name: string, nameAlt: string, rec: Recogniser)
    requires MultiDiscMarkers(rec, name)
    ensures Step(MultiDiscVisits(name, nameAlt)[7], None, rec)
         == ([], Some(Collapse(Some(name + " disc "), [["tempdir", "artist [CD5]", name + " disc 1"]],
                                [["tempdir", "artist [CD5]", name + " disc 1", "song5.mp3"]])))
  {
    var v := MultiDiscVisits(name, nameAlt)[7];
    assert Basename(v.path) == name + " disc 1";
    assert StartOf(v, rec) == Flattened(name + " disc ");
    ItemsOfOne(v);
    assert v.path + ["song5.mp3"] == ["tempdir", "artist [CD5]", name + " disc 1", "song5.mp3"];
  }

  /** The second flattened disc folder continues the series despite its case typo. */
  lemma FlattenedSecondDisc(name: string, nameAlt: string, rec: Recogniser)
    requires Text.Lower(nameAlt) == Text.Lower(name)
    ensures Step(MultiDiscVisits(name, nameAlt)[8],
                 Some(Collapse(Some(name + " disc "), [["tempdir", "artist [CD5]", name + " disc 1"]],
                               [["tempdir", "artist [CD5]", name + " disc 1", "song5.mp3"]])), rec)
         == ([], Some(FlattenedCollected(name, nameAlt)))
  {
    var v := MultiDiscVisits(name, nameAlt)[8];
    var c := Collapse(Some(name + " disc "), [["tempdir", "artist [CD5]", name + " disc 1"]],
                      [["tempdir", "artist [CD5]", name + " disc 1", "song5.mp3"]]);
    assert Basename(v.path) == nameAlt + " disc 2";
    CaseTypoContinues(name, nameAlt);
    assert Continues(c, v);
    ItemsOfOne(v);
    assert v.path + ["song6.mp3"] == ["tempdir", "artist [CD5]", nameAlt + " disc 2", "song6.mp3"];
    assert c.paths + [v.path] == FlattenedCollected(name, nameAlt).paths;
    assert c.items + Items(v) == FlattenedCollected(name, nameAlt).items;
  }

  /** A disc folder whose stem differs only in ASCII case still continues the series. */
  lemma CaseTypoContinues(name: string, nameAlt: string)
    requires Text.Lower(nameAlt) == Text.Lower(name)
    ensures SeriesMatch(name + " disc ", nameAlt + " disc 2")
  {
    var p := name + " disc ";
    var q := nameAlt + " disc 2";
    assert |nameAlt| == |name|;
    assert q[..|p|] == nameAlt + " disc ";
    Text.LowerAppend(name, " disc ");
    Text.LowerAppend(nameAlt, " disc ");
    assert q[|p|] == '2';
  }

  function FlattenedCollected(name: string, nameAlt: string): Collapse {
    Collapse(Some(name + " disc "),
      [["tempdir", "artist [CD5]", name + " disc 1"], ["tempdir", "artist [CD5]", nameAlt + " disc 2"]],
      [["tempdir", "artist [CD5]", name + " disc 1", "song5.mp3"], ["tempdir", "artist [CD5]", nameAlt + " disc 2", "song6.mp3"]])
  }

  /** A name sharing the stem but not followed by a disc number ends the series and is an album of its own. */
  lemma LookAlikeIsOwnAlbum(name: string, nameAlt: string, rec: Recogniser)
    requires MultiDiscMarkers(rec, name)
    ensures Step(MultiDiscVisits(name, nameAlt)[9], Some(FlattenedCollected(name, nameAlt)), rec)
         == ([Group(FlattenedCollected(name, nameAlt).paths, FlattenedCollected(name, nameAlt).items),
              Group([["tempdir", "artist [CD5]", name + "S"]], [["tempdir", "artist [CD5]", name + "S", "song7.mp3"]])],
             None)
  {
    var v := MultiDiscVisits(name, nameAlt)[9];
    var c := FlattenedCollected(name, nameAlt);
    assert !UnderAny(v.path, c.paths) by {
      forall k | 0 <= k < |c.paths|
        ensures !(c.paths[k] < v.path)
      {
        assert |c.paths[k]| >= |v.path|;
      }
    }
    assert Basename(v.path) == name + "S";
    assert !SeriesMatch(name + " disc ", name + "S");
    assert StartOf(v, rec) == NoStart;
    ItemsOfOne(v);
    assert v.path + ["song7.mp3"] == ["tempdir", "artist [CD5]", name + "S", "song7.mp3"];
    assert !Continues(c, v);
    assert Flush(Some(c)) == [Group(c.paths, c.items)];
    assert Step(v, Some(c), rec) == ([Group(c.paths, c.items)] + [Group([v.path], Items(v))], None);
    assert [Group(c.paths, c.items)] + [Group([v.path], Items(v))] == [Group(c.paths, c.items), Group([v.path], Items(v))];
    assert Items(v) == [["tempdir", "artist [CD5]", name + "S", "song7.mp3"]];
  }

  /** The albums the scan finds in the multi-disc tree. */
  function MultiDiscAlbums(name: string, nameAlt: string): seq<Group> {
    [ Group(NestedAlbumCollected().paths, NestedAlbumCollected().items),
      Group(SingleSubdirCollected().paths, SingleSubdirCollected().items),
      Group(FlattenedCollected(name, nameAlt).paths, FlattenedCollected(name, nameAlt).items),
      Group([["tempdir", "artist [CD5]", name + "S"]], [["tempdir", "artist [CD5]", name + "S", "song7.mp3"]]) ]
  }

  lemma MultiDiscScanTail(name: string, nameAlt: string, rec: Recogniser)
    requires MultiDiscMarkers(rec, name) && Text.Lower(nameAlt) == Text.Lower(name)
    ensures ScanFrom(MultiDiscVisits(name, nameAlt)[6..], Some(SingleSubdirCollected()), rec)
         == MultiDiscAlbums(name, nameAlt)[1..]
  {
    var vs := MultiDiscVisits(name, nameAlt);
    var s8 := Some(Collapse(Some(name + " disc "), [["tempdir", "artist [CD5]", name + " disc 1"]],
                            [["tempdir", "artist [CD5]", name + " disc 1", "song5.mp3"]]));
    ScanAt(vs, 6, Some(SingleSubdirCollected()), rec);
    ArtistIsNoAlbum(name, nameAlt, rec);
    ScanAt(vs, 7, None, rec);
    FlattenedStarts(name, nameAlt, rec);
    ScanAt(vs, 8, s8, rec);
    FlattenedSecondDisc(name, nameAlt, rec);
    ScanAt(vs, 9, Some(FlattenedCollected(name, nameAlt)), rec);
    LookAlikeIsOwnAlbum(name, nameAlt, rec);
    assert vs[10..] == [];
  }

  lemma MultiDiscScanMiddle(name: string, nameAlt: string, rec: Recogniser)
    requires MultiDiscMarkers(rec, name) && Text.Lower(nameAlt) == Text.Lower(name)
    ensures ScanFrom(MultiDiscVisits(name, nameAlt)[4..], Some(NestedAlbumCollected()), rec)
         == MultiDiscAlbums(name, nameAlt)
  {
    var vs := MultiDiscVisits(name, nameAlt);
    ScanAt(vs, 4, Some(NestedAlbumCollected()), rec);
    SingleSubdirStarts(name, nameAlt, rec);
    ScanAt(vs, 5, Some(Collapse(None, [["tempdir", "album"]], [])), rec);
    SingleSubdirDisc(name, nameAlt, rec);
    MultiDiscScanTail(name, nameAlt, rec);
    var albums := MultiDiscAlbums(name, nameAlt);
    assert albums == [albums[0]] + albums[1..];
  }

  lemma MultiDiscScan(name: string, nameAlt: string, rec: Recogniser)
    requires MultiDiscMarkers(rec, name) && Text.Lower(nameAlt) == Text.Lower(name)
    ensures ScanFrom(MultiDiscVisits(name, nameAlt), None, rec) == MultiDiscAlbums(name, nameAlt)
  {
    var vs := MultiDiscVisits(name, nameAlt);
    var s3 := Some(Collapse(None, [["tempdir", "ABCD1234"], ["tempdir", "ABCD1234", "cd 1"]],
                                  [["tempdir", "ABCD1234", "cd 1", "song1.mp3"]]));
    assert vs[0..] == vs;
    ScanAt(vs, 0, None, rec);
    TopIsNoAlbum(name, nameAlt, rec);
    ScanAt(vs, 1, None, rec);
    NestedStarts(name, nameAlt, rec);
    ScanAt(vs, 2, Some(Collapse(None, [["tempdir", "ABCD1234"]], [])), rec);
    NestedFirstDisc(name, nameAlt, rec);
    ScanAt(vs, 3, s3, rec);
    NestedBonusDisc(name, nameAlt, rec);
    MultiDiscScanMiddle(name, nameAlt, rec);
  }

  /**
   * The tree yields four albums: the nested album spanning "ABCD1234" and
   * both its disc folders with three songs, the single-folder nested album
   * with one, the two flattened disc folders with two, and the look-alike
   * single-disc album with one.
   */
  lemma MultiDiscAlbumsInDir(name: string, nameAlt: string, rec: Recogniser)
    requires MultiDiscMarkers(rec, name) && Text.Lower(nameAlt) == Text.Lower(name)
    ensures var gs := AlbumsInDir(MultiDiscTree(name, nameAlt), [], rec);
      && |gs| == 4
      && gs[0].roots == [["tempdir", "ABCD1234"], ["tempdir", "ABCD1234", "cd 1"], ["tempdir", "ABCD1234", "cd 3 - bonus"]]
      && |gs[0].items| == 3
      && gs[1].roots == [["tempdir", "album"], ["tempdir", "album", "cd _ 1"]] && |gs[1].items| == 1
      && gs[2].roots == [["tempdir", "artist [CD5]", name + " disc 1"], ["tempdir", "artist [CD5]", nameAlt + " disc 2"]]
      && |gs[2].items| == 2
      && gs[3].roots == [["tempdir", "artist [CD5]", name + "S"]] && |gs[3].items| == 1
  {
    MultiDiscWalk(name, nameAlt);
    MultiDiscScan(name, nameAlt, rec);
    assert AlbumsInDir(MultiDiscTree(name, nameAlt), [], rec) == MultiDiscAlbums(name, nameAlt);
    MultiDiscAlbumsShape(name, nameAlt);
  }

  lemma MultiDiscAlbumsShape(name: string, nameAlt: string)
    ensures var gs := MultiDiscAlbums(name, nameAlt);
      && |gs| == 4
      && gs[0].roots == [["tempdir", "ABCD1234"], ["tempdir", "ABCD1234", "cd 1"], ["tempdir", "ABCD1234", "cd 3 - bonus"]]
      && |gs[0].items| == 3
      && gs[1].roots == [["tempdir", "album"], ["tempdir", "album", "cd _ 1"]] && |gs[1].items| == 1
      && gs[2].roots == [["tempdir", "artist [CD5]", name + " disc 1"], ["tempdir", "artist [CD5]", nameAlt + " disc 2"]]
      && |gs[2].items| == 2
      && gs[3].roots == [["tempdir", "artist [CD5]", name + "S"]] && |gs[3].items| == 1
  {
  }

  /** The same layout with directories only yields no album. */
  lemma MultiDiscWithoutFiles(rec: Recogniser)
    ensures AlbumsInDir(Dir("tempdir", [], [
        Dir("ABCD1234", [], [Leaf("cd 1", []), Leaf("cd 3 - bonus", [])]),
        Dir("album", [], [Leaf("cd _ 1", [])])]), [], rec) == []
  {
    var t := Dir("tempdir", [], [
        Dir("ABCD1234", [], [Leaf("cd 1", []), Leaf("cd 3 - bonus", [])]),
        Dir("album", [], [Leaf("cd _ 1", [])])]);
    assert NoFiles(t.subdirs[0]);
    assert NoFiles(t.subdirs[1]);
    EmptyTreeNoAlbums(t, [], rec);
  }
}
