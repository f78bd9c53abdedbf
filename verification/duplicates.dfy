/**
 * Duplicate detection and resolution: before an import unit is committed,
 * the catalog is searched for entries with the same duplicate key, and the
 * configured resolution decides what happens to the unit and to them.
 */
module Duplicates {
  import opened Results
  import Paths
  import Align

  /** A catalog entry (an album, or a singleton item): its field values and the paths of its files. */
  datatype Entry = Entry(fields: map<string, string>, paths: seq<string>)

  /** Album units and singleton units are keyed and compared differently. */
  datatype UnitKind = AlbumUnit | SingletonUnit

  /** What to do when duplicates are found. */
  datatype Resolution = SkipNew | KeepBoth | RemoveOld | MergeAll

  /** The value of one field, or `None` when the entry lacks it. */
  function FieldValue(e: Entry, f: string): Option<string> {
    if f in e.fields then Some(e.fields[f]) else None
  }

  /** The duplicate key: the entry's values for the configured fields, in order. */
  function Key(e: Entry, keys: seq<string>): (k: seq<Option<string>>)
    ensures |k| == |keys| && forall i :: 0 <= i < |keys| ==> k[i] == FieldValue(e, keys[i])
  {
    seq(|keys|, i requires 0 <= i < |keys| => FieldValue(e, keys[i]))
  }

  /** The values an album unit is looked up with: its artist also stands for its album artist. */
  function Probe(u: Entry, kind: UnitKind): Entry {
    if kind == AlbumUnit && "artist" in u.fields then u.(fields := u.fields["albumartist" := u.fields["artist"]])
    else u
  }

  /** Every file of `a` is also a file of `b`. */
  predicate PathsWithin(a: seq<string>, b: seq<string>) {
    forall p :: p in a ==> p in b
  }

  /**
   * Whether catalog entry `e` duplicates the incoming unit `u`. An album
   * unit without an artist has no duplicates, and an album all of whose
   * files the unit re-imports is being replaced rather than duplicated; a
   * singleton is not a duplicate of the item at its own path.
   */
  predicate IsDuplicate(e: Entry, u: Entry, keys: seq<string>, kind: UnitKind)
    ensures IsDuplicate(e, u, keys, kind) ==> e.paths != u.paths && Key(e, keys) == Key(Probe(u, kind), keys)
  {
    match kind
    case AlbumUnit =>
      && "artist" in u.fields
      && Key(e, keys) == Key(Probe(u, kind), keys)
      && !PathsWithin(e.paths, u.paths)
    case SingletonUnit =>
      Key(e, keys) == Key(u, keys) && e.paths != u.paths
  }

  /** The entries of `es` on which `dup` is `want`, in order. */
  function Select(es: seq<Entry>, dup: Entry -> bool, want: bool): (r: seq<Entry>)
    ensures forall e :: e in r <==> e in es && dup(e) == want
    ensures |r| <= |es|
  {
    if es == [] then []
    else (if dup(es[0]) == want then [es[0]] else []) + Select(es[1..], dup, want)
  }

  /** The entries a selection keeps and the ones it drops make up the whole sequence. */
  lemma {:induction false} SelectPartition(es: seq<Entry>, dup: Entry -> bool)
    ensures multiset(Select(es, dup, true)) + multiset(Select(es, dup, false)) == multiset(es)
  {
    if es != [] {
      SelectPartition(es[1..], dup);
      var t := Select(es[1..], dup, true);
      var f := Select(es[1..], dup, false);
      assert es == [es[0]] + es[1..];
      assert multiset(es) == multiset{es[0]} + multiset(es[1..]);
      if dup(es[0]) {
        assert Select(es, dup, true) == [es[0]] + t;
        assert Select(es, dup, false) == [] + f;
      } else {
        assert Select(es, dup, true) == [] + t;
        assert Select(es, dup, false) == [es[0]] + f;
      }
    }
  }

  function DupTest(u: Entry, keys: seq<string>, kind: UnitKind): Entry -> bool {
    e => IsDuplicate(e, u, keys, kind)
  }

  /** The duplicates of `u` in the catalog, in catalog order. */
  function Duplicates(catalog: seq<Entry>, u: Entry, keys: seq<string>, kind: UnitKind): (ds: seq<Entry>)
    ensures forall e :: e in ds <==> e in catalog && IsDuplicate(e, u, keys, kind)
  {
    Select(catalog, DupTest(u, keys, kind), true)
  }

  /** The catalog entries that are not duplicates of `u`. */
  function Others(catalog: seq<Entry>, u: Entry, keys: seq<string>, kind: UnitKind): (rest: seq<Entry>)
    ensures forall e :: e in rest <==> e in catalog && !IsDuplicate(e, u, keys, kind)
  {
    Select(catalog, DupTest(u, keys, kind), false)
  }

  /** The duplicates and the others partition the catalog. */
  lemma DuplicatesPartition(catalog: seq<Entry>, u: Entry, keys: seq<string>, kind: UnitKind)
    ensures multiset(Others(catalog, u, keys, kind)) + multiset(Duplicates(catalog, u, keys, kind)) == multiset(catalog)
    ensures |Others(catalog, u, keys, kind)| + |Duplicates(catalog, u, keys, kind)| == |catalog|
  {
    SelectPartition(catalog, DupTest(u, keys, kind));
    assert |multiset(Others(catalog, u, keys, kind)) + multiset(Duplicates(catalog, u, keys, kind))| == |multiset(catalog)|;
  }

  /** All files of the given entries, entry by entry. */
  function AllPaths(es: seq<Entry>): seq<string> {
    if es == [] then [] else es[0].paths + AllPaths(es[1..])
  }

  /** The files among `ps` that lie below the library directory; only those are deleted from disk. */
  function InLibrary(ps: seq<string>, libDir: string): (r: seq<string>)
    ensures forall p :: p in r <==> p in ps && Paths.DirPrefix(libDir) <= p
  {
    if ps == [] then []
    else (if Paths.DirPrefix(libDir) <= ps[0] then [ps[0]] else []) + InLibrary(ps[1..], libDir)
  }

  /** The fate of an incoming unit. */
  datatype Outcome = NotImported | Imported | ImportedReplacing | ImportedMerging

  /**
   * Duplicates are only looked for when the unit is imported as-is, with a
   * chosen candidate, or re-tagged; a skipped unit is never imported.
   */
  function Decide(action: Align.Action, found: bool, resolution: Resolution): (o: Outcome)
    ensures action == Align.Skip ==> o == NotImported
    ensures o != Imported && o != NotImported ==> found && action in {Align.AsIs, Align.Apply, Align.Retag}
    ensures !found && action != Align.Skip ==> o == Imported
  {
    if action == Align.Skip then NotImported
    else if found && action in {Align.AsIs, Align.Apply, Align.Retag} then
      match resolution
      case SkipNew => NotImported
      case KeepBoth => Imported
      case RemoveOld => ImportedReplacing
      case MergeAll => ImportedMerging
    else Imported
  }

  /** The catalog after committing a unit, and the files deleted from disk on the way. */
  datatype Committed = Committed(catalog: seq<Entry>, deleted: seq<string>)

  /**
   * Commits unit `u` to the catalog. Replacing removes the duplicates from
   * the catalog and deletes their files that lie inside the library
   * directory; merging removes them and imports one entry holding the
   * unit's files followed by theirs.
   */
  function Commit(catalog: seq<Entry>, u: Entry, keys: seq<string>, kind: UnitKind,
                  action: Align.Action, resolution: Resolution, libDir: string): (r: Committed)
    requires action in {Align.Skip, Align.AsIs, Align.Apply, Align.Retag}
    ensures forall d :: d in r.deleted ==> d in AllPaths(Duplicates(catalog, u, keys, kind)) && Paths.DirPrefix(libDir) <= d
    ensures |r.catalog| <= |catalog| + 1
    ensures action == Align.Skip ==> r == Committed(catalog, [])
    ensures Duplicates(catalog, u, keys, kind) == [] && action != Align.Skip ==> r == Committed(catalog + [u], [])
  {
    var dups := Duplicates(catalog, u, keys, kind);
    var rest := Others(catalog, u, keys, kind);
    DuplicatesPartition(catalog, u, keys, kind);
    if dups == [] then
      assert rest == catalog by { OthersWithoutDuplicates(catalog, u, keys, kind); }
      match Decide(action, false, resolution)
      case NotImported => Committed(catalog, [])
      case _ => Committed(catalog + [u], [])
    else
      match Decide(action, true, resolution)
      case NotImported => Committed(catalog, [])
      case Imported => Committed(catalog + [u], [])
      case ImportedReplacing => Committed(rest + [u], InLibrary(AllPaths(dups), libDir))
      case ImportedMerging => Committed(rest + [Entry(u.fields, u.paths + AllPaths(dups))], [])
  }

  /**
   * One unit through the importer. With autotagging on, the chosen action
   * and the duplicate resolution apply as in `Commit`; with it off the unit
   * is imported as-is without ever reaching the duplicate check.
   */
  function ImportUnit(catalog: seq<Entry>, u: Entry, keys: seq<string>, kind: UnitKind, autotag: bool,
                      action: Align.Action, resolution: Resolution, libDir: string): (r: Committed)
    requires action in {Align.Skip, Align.AsIs, Align.Apply, Align.Retag}
    ensures |r.catalog| <= |catalog| + 1
    ensures forall d :: d in r.deleted ==> d in AllPaths(catalog) && Paths.DirPrefix(libDir) <= d
    ensures !autotag ==> u in r.catalog && r.deleted == []
  {
    FilesPartition(catalog, u, keys, kind);
    assert forall d :: d in AllPaths(Duplicates(catalog, u, keys, kind)) ==> d in AllPaths(catalog) by {
      forall d | d in AllPaths(Duplicates(catalog, u, keys, kind)) ensures d in AllPaths(catalog) {
        var own, dup := AllPaths(Others(catalog, u, keys, kind)), AllPaths(Duplicates(catalog, u, keys, kind));
        assert multiset(dup)[d] > 0;
        assert multiset(AllPaths(catalog))[d] == multiset(own)[d] + multiset(dup)[d];
      }
    }
    if autotag then Commit(catalog, u, keys, kind, action, resolution, libDir)
    else Committed(catalog + [u], [])
  }

  /*** Laws ***/

  lemma {:induction false} SelectAll(es: seq<Entry>, dup: Entry -> bool)
    requires forall e :: e in es ==> !dup(e)
    ensures Select(es, dup, false) == es
  {
    if es != [] {
      SelectAll(es[1..], dup);
      assert es == [es[0]] + es[1..];
    }
  }

  lemma {:induction false} SelectNothing(es: seq<Entry>, dup: Entry -> bool)
    requires forall e :: e in es ==> !dup(e)
    ensures Select(es, dup, true) == []
  {
    if es != [] {
      SelectNothing(es[1..], dup);
    }
  }

  lemma {:induction false} OthersWithoutDuplicates(catalog: seq<Entry>, u: Entry, keys: seq<string>, kind: UnitKind)
    requires Duplicates(catalog, u, keys, kind) == []
    ensures Others(catalog, u, keys, kind) == catalog
  {
    DuplicatesPartition(catalog, u, keys, kind);
    SelectAll(catalog, DupTest(u, keys, kind));
  }

  lemma {:induction false} AllPathsAppend(a: seq<Entry>, b: seq<Entry>)
    ensures AllPaths(a + b) == AllPaths(a) + AllPaths(b)
  {
    if a == [] {
      assert a + b == b;
    } else {
      assert (a + b)[0] == a[0];
      assert (a + b)[1..] == a[1..] + b;
      AllPathsAppend(a[1..], b);
    }
  }

  lemma {:induction false} SelectFilesPartition(es: seq<Entry>, dup: Entry -> bool)
    ensures multiset(AllPaths(Select(es, dup, false))) + multiset(AllPaths(Select(es, dup, true)))
         == multiset(AllPaths(es))
  {
    if es != [] {
      SelectFilesPartition(es[1..], dup);
      var o := Select(es[1..], dup, false);
      var d := Select(es[1..], dup, true);
      assert AllPaths(es) == es[0].paths + AllPaths(es[1..]);
      assert AllPaths([es[0]]) == es[0].paths;
      if dup(es[0]) {
        assert Select(es, dup, false) == o;
        assert Select(es, dup, true) == [es[0]] + d;
        AllPathsAppend([es[0]], d);
        assert AllPaths(Select(es, dup, true)) == es[0].paths + AllPaths(d);
      } else {
        assert Select(es, dup, false) == [es[0]] + o;
        assert Select(es, dup, true) == d;
        AllPathsAppend([es[0]], o);
        assert AllPaths(Select(es, dup, false)) == es[0].paths + AllPaths(o);
      }
    }
  }

  /** Splitting the catalog into duplicates and others loses and invents no file. */
  lemma FilesPartition(catalog: seq<Entry>, u: Entry, keys: seq<string>, kind: UnitKind)
    ensures multiset(AllPaths(Others(catalog, u, keys, kind))) + multiset(AllPaths(Duplicates(catalog, u, keys, kind)))
         == multiset(AllPaths(catalog))
  {
    SelectFilesPartition(catalog, DupTest(u, keys, kind));
  }

  /** Skipping a duplicate leaves the catalog as it was. */
  lemma SkipKeepsCatalog(catalog: seq<Entry>, u: Entry, keys: seq<string>, kind: UnitKind, action: Align.Action, libDir: string)
    requires action in {Align.AsIs, Align.Apply, Align.Retag}
    requires Duplicates(catalog, u, keys, kind) != []
    ensures Commit(catalog, u, keys, kind, action, SkipNew, libDir) == Committed(catalog, [])
  {
  }

  /** Keeping both adds the unit after the existing entries, duplicates included. */
  lemma KeepBothAddsEntry(catalog: seq<Entry>, u: Entry, keys: seq<string>, kind: UnitKind, action: Align.Action, libDir: string)
    requires action in {Align.AsIs, Align.Apply, Align.Retag}
    ensures var r := Commit(catalog, u, keys, kind, action, KeepBoth, libDir);
      |r.catalog| == |catalog| + 1 && r.catalog[..|catalog|] == catalog && r.catalog[|catalog|] == u && r.deleted == []
  {
  }

  /**
   * Removing the old entries keeps every other entry in order and appends
   * the unit, so no duplicate of the unit is left besides itself; the
   * catalog shrinks by the number of duplicates less one; exactly the
   * duplicates' files inside the library directory are deleted.
   */
  lemma RemoveReplacesDuplicates(catalog: seq<Entry>, u: Entry, keys: seq<string>, kind: UnitKind, action: Align.Action, libDir: string)
    requires action in {Align.AsIs, Align.Apply, Align.Retag}
    requires Duplicates(catalog, u, keys, kind) != []
    ensures var r := Commit(catalog, u, keys, kind, action, RemoveOld, libDir);
      && r.catalog == Others(catalog, u, keys, kind) + [u]
      && |r.catalog| == |catalog| - |Duplicates(catalog, u, keys, kind)| + 1
      && r.catalog[|r.catalog| - 1] == u
      && (forall i :: 0 <= i < |r.catalog| - 1 ==> r.catalog[i] in catalog && !IsDuplicate(r.catalog[i], u, keys, kind))
      && (forall d :: d in r.deleted <==> d in AllPaths(Duplicates(catalog, u, keys, kind)) && Paths.DirPrefix(libDir) <= d)
  {
    var rest := Others(catalog, u, keys, kind);
    var dups := Duplicates(catalog, u, keys, kind);
    DuplicatesPartition(catalog, u, keys, kind);
    var r := Commit(catalog, u, keys, kind, action, RemoveOld, libDir);
    assert r.catalog == rest + [u];
    forall i | 0 <= i < |r.catalog| - 1
      ensures r.catalog[i] in catalog && !IsDuplicate(r.catalog[i], u, keys, kind)
    {
      assert r.catalog[i] == rest[i];
    }
  }

  /**
   * Merging keeps every other entry in order and leaves a single entry, with
   * the unit's fields and the unit's files followed by the duplicates',
   * in place of the unit and its duplicates; no file is lost: the catalog's
   * files afterwards are its files before plus the unit's.
   */
  lemma MergeKeepsEveryFile(catalog: seq<Entry>, u: Entry, keys: seq<string>, kind: UnitKind, action: Align.Action, libDir: string)
    requires action in {Align.AsIs, Align.Apply, Align.Retag}
    requires Duplicates(catalog, u, keys, kind) != []
    ensures var r := Commit(catalog, u, keys, kind, action, MergeAll, libDir);
      && r.catalog == Others(catalog, u, keys, kind) + [Entry(u.fields, u.paths + AllPaths(Duplicates(catalog, u, keys, kind)))]
      && |r.catalog| == |catalog| - |Duplicates(catalog, u, keys, kind)| + 1
      && (forall i :: 0 <= i < |r.catalog| - 1 ==> !IsDuplicate(r.catalog[i], u, keys, kind))
      && multiset(AllPaths(r.catalog)) == multiset(AllPaths(catalog)) + multiset(u.paths)
      && r.deleted == []
  {
    var rest := Others(catalog, u, keys, kind);
    var dups := Duplicates(catalog, u, keys, kind);
    DuplicatesPartition(catalog, u, keys, kind);
    var merged := Entry(u.fields, u.paths + AllPaths(dups));
    var r := Commit(catalog, u, keys, kind, action, MergeAll, libDir);
    assert r.catalog == rest + [merged];
    forall i | 0 <= i < |r.catalog| - 1
      ensures !IsDuplicate(r.catalog[i], u, keys, kind)
    {
      assert r.catalog[i] == rest[i];
    }
    AllPathsAppend(rest, [merged]);
    assert AllPaths([merged]) == merged.paths;
    FilesPartition(catalog, u, keys, kind);
  }

  /** A duplicate under a longer key is a duplicate under the shorter one: extra fields only narrow. */
  lemma ExtraKeyNarrows(e: Entry, u: Entry, keys: seq<string>, extra: string, kind: UnitKind)
    requires IsDuplicate(e, u, keys + [extra], kind)
    ensures IsDuplicate(e, u, keys, kind)
  {
    var p := if kind == AlbumUnit then Probe(u, kind) else u;
    assert Key(e, keys) == Key(e, keys + [extra])[..|keys|];
    assert Key(p, keys) == Key(p, keys + [extra])[..|keys|];
  }

  /** An entry whose value for the extra key field differs from the unit's is not a duplicate. */
  lemma DifferingExtraFieldIsNoDuplicate(e: Entry, u: Entry, keys: seq<string>, extra: string, kind: UnitKind)
    requires FieldValue(e, extra) != FieldValue(Probe(u, kind), extra)
    ensures !IsDuplicate(e, u, keys + [extra], kind)
  {
    assert Key(e, keys + [extra])[|keys|] == FieldValue(e, extra);
    assert Key(Probe(u, kind), keys + [extra])[|keys|] == FieldValue(Probe(u, kind), extra);
  }

  /** Hence the duplicates found with a longer key are among those found with the shorter one. */
  lemma ExtraKeyFindsFewer(catalog: seq<Entry>, u: Entry, keys: seq<string>, extra: string, kind: UnitKind)
    ensures forall e :: e in Duplicates(catalog, u, keys + [extra], kind) ==> e in Duplicates(catalog, u, keys, kind)
  {
    forall e | e in Duplicates(catalog, u, keys + [extra], kind)
      ensures e in Duplicates(catalog, u, keys, kind)
    {
      ExtraKeyNarrows(e, u, keys, extra, kind);
    }
  }

  /**
   * Without autotagging no resolution is applied: every catalog entry,
   * duplicates included, stays, the unit is added, and nothing is deleted.
   */
  lemma NoAutotagKeepsDuplicates(catalog: seq<Entry>, u: Entry, keys: seq<string>, kind: UnitKind,
                                 action: Align.Action, resolution: Resolution, libDir: string)
    requires action in {Align.Skip, Align.AsIs, Align.Apply, Align.Retag}
    ensures var r := ImportUnit(catalog, u, keys, kind, false, action, resolution, libDir);
      && |r.catalog| == |catalog| + 1
      && (forall e :: e in Duplicates(catalog, u, keys, kind) ==> e in r.catalog)
      && u in r.catalog && r.deleted == []
  {
    var r := ImportUnit(catalog, u, keys, kind, false, action, resolution, libDir);
    assert r.catalog[|catalog|] == u;
  }

  /** An album unit with no artist finds no duplicates. */
  lemma NoArtistNoDuplicates(catalog: seq<Entry>, u: Entry, keys: seq<string>)
    requires "artist" !in u.fields
    ensures Duplicates(catalog, u, keys, AlbumUnit) == []
  {
    SelectNothing(catalog, DupTest(u, keys, AlbumUnit));
  }

  /*** Examples: one album in the library, one album being imported ***/

  const AlbumKeys: seq<string> := ["albumartist", "album"]

  function OldAlbum(): Entry {
    Entry(map["albumartist" := "artist", "album" := "album", "artist" := "artist"], ["/lib/artist/album/track 0.mp3"])
  }

  function NewAlbum(): Entry {
    Entry(map["artist" := "artist", "album" := "album"], ["/import/album/track 1.mp3"])
  }

  lemma OldAlbumIsDuplicate()
    ensures Duplicates([OldAlbum()], NewAlbum(), AlbumKeys, AlbumUnit) == [OldAlbum()]
  {
    var p := Probe(NewAlbum(), AlbumUnit);
    assert p.fields["albumartist"] == "artist";
    assert Key(OldAlbum(), AlbumKeys) == [Some("artist"), Some("album")];
    assert Key(p, AlbumKeys) == [Some("artist"), Some("album")];
    assert "/lib/artist/album/track 0.mp3" !in NewAlbum().paths;
  }

  /** REMOVE: one album remains, the new one, and the old file is deleted. */
  lemma RemoveExample()
    ensures Commit([OldAlbum()], NewAlbum(), AlbumKeys, AlbumUnit, Align.AsIs, RemoveOld, "/lib")
         == Committed([NewAlbum()], ["/lib/artist/album/track 0.mp3"])
  {
    OldAlbumIsDuplicate();
    assert Others([OldAlbum()], NewAlbum(), AlbumKeys, AlbumUnit) == [];
    assert AllPaths([OldAlbum()]) == ["/lib/artist/album/track 0.mp3"];
    assert Paths.DirPrefix("/lib") == "/lib/";
    assert "/lib/" <= "/lib/artist/album/track 0.mp3";
  }

  /** Without autotagging, REMOVE has no effect: both albums are kept and no file is deleted. */
  lemma NoAutotagExample()
    ensures ImportUnit([OldAlbum()], NewAlbum(), AlbumKeys, AlbumUnit, false, Align.AsIs, RemoveOld, "/lib")
         == Committed([OldAlbum(), NewAlbum()], [])
  {
  }

  /** SKIP keeps the old album alone; KEEPBOTH holds two albums; MERGE holds one. */
  lemma OtherResolutionsExample()
    ensures Commit([OldAlbum()], NewAlbum(), AlbumKeys, AlbumUnit, Align.AsIs, SkipNew, "/lib").catalog == [OldAlbum()]
    ensures |Commit([OldAlbum()], NewAlbum(), AlbumKeys, AlbumUnit, Align.AsIs, KeepBoth, "/lib").catalog| == 2
    ensures |Commit([OldAlbum()], NewAlbum(), AlbumKeys, AlbumUnit, Align.AsIs, MergeAll, "/lib").catalog| == 1
  {
    OldAlbumIsDuplicate();
    assert Others([OldAlbum()], NewAlbum(), AlbumKeys, AlbumUnit) == [];
  }

  /** With an extra key field on which the two albums differ, SKIP still imports the new album. */
  lemma ExtraKeyExample()
    ensures |Commit([OldAlbum()], NewAlbum().(fields := NewAlbum().fields["flex" := "different"]),
                    AlbumKeys + ["flex"], AlbumUnit, Align.AsIs, SkipNew, "/lib").catalog| == 2
  {
    var u := NewAlbum().(fields := NewAlbum().fields["flex" := "different"]);
    DifferingExtraFieldIsNoDuplicate(OldAlbum(), u, AlbumKeys, "flex", AlbumUnit);
    assert Duplicates([OldAlbum()], u, AlbumKeys + ["flex"], AlbumUnit) == [];
  }

  /*** Examples: one item in the library, one singleton being imported ***/

  const ItemKeys: seq<string> := ["artist", "title"]

  function OldItem(): Entry {
    Entry(map["artist" := "artist", "title" := "title", "mb_trackid" := "old trackid"], ["/lib/artist/title.mp3"])
  }

  function NewItem(): Entry {
    Entry(map["artist" := "artist", "title" := "title", "mb_trackid" := "new trackid"], ["/import/track_1.mp3"])
  }

  lemma OldItemIsDuplicate()
    ensures Duplicates([OldItem()], NewItem(), ItemKeys, SingletonUnit) == [OldItem()]
  {
    assert Key(OldItem(), ItemKeys) == [Some("artist"), Some("title")];
    assert Key(NewItem(), ItemKeys) == [Some("artist"), Some("title")];
  }

  /** REMOVE replaces the old item and deletes its file; SKIP keeps it; KEEPBOTH holds both. */
  lemma SingletonExample()
    ensures Commit([OldItem()], NewItem(), ItemKeys, SingletonUnit, Align.AsIs, RemoveOld, "/lib")
         == Committed([NewItem()], ["/lib/artist/title.mp3"])
    ensures Commit([OldItem()], NewItem(), ItemKeys, SingletonUnit, Align.AsIs, SkipNew, "/lib").catalog == [OldItem()]
    ensures |Commit([OldItem()], NewItem(), ItemKeys, SingletonUnit, Align.AsIs, KeepBoth, "/lib").catalog| == 2
  {
    OldItemIsDuplicate();
    assert Others([OldItem()], NewItem(), ItemKeys, SingletonUnit) == [];
    assert AllPaths([OldItem()]) == ["/lib/artist/title.mp3"];
    assert Paths.DirPrefix("/lib") == "/lib/";
    assert "/lib/" <= "/lib/artist/title.mp3";
  }

  /** An old item whose extra key field differs is no duplicate, so SKIP still imports. */
  lemma SingletonExtraKeyExample()
    ensures |Commit([OldItem().(fields := OldItem().fields["flex" := "different"])], NewItem(),
                    ItemKeys + ["flex"], SingletonUnit, Align.AsIs, SkipNew, "/lib").catalog| == 2
  {
    var e := OldItem().(fields := OldItem().fields["flex" := "different"]);
    DifferingExtraFieldIsNoDuplicate(e, NewItem(), ItemKeys, "flex", SingletonUnit);
    assert Duplicates([e], NewItem(), ItemKeys + ["flex"], SingletonUnit) == [];
  }
}
