/**
 * The `play` command: it queries tracks or albums, turns them into a list of
 * paths, writes those to a playlist (or passes them raw), builds the player
 * command from the configured template and the `-A` arguments, and hands both
 * to the system opener, asking first when the selection is large.
 *
 * The library query, the temporary file and the opener itself are outside
 * the model: the selection, the user's answer and whether the opener fails
 * are parameters, and the playlist is its text.
 */
module Play {
  import opened Results
  import Text
  import Paths

  /** The placeholder in the command template that the `-A` arguments replace. */
  const ArgsMarker: string := "$args"

  /** The byte-order mark written at the head of the playlist when `bom` is set. */
  const Bom: string := "\U{FEFF}"

  /** The plugin's settings; `warningThreshold` 0 turns the prompt off. */
  datatype Config = Config(command: Option<string>, useFolders: bool, relativeTo: Option<string>,
                           raw: bool, warningThreshold: int, bom: bool)

  function DefaultConfig(): Config {
    Config(None, false, None, false, 100, false)
  }

  datatype Item = Item(path: string)

  /** An album, with its items in the library's default sort order. */
  datatype Album = Album(items: seq<Item>)

  /** What the query matched: tracks, or albums with `-a`. */
  datatype Selection = Tracks(items: seq<Item>) | Albums(albums: seq<Album>)

  /** What the opener is given: the paths themselves, or one playlist file. */
  datatype OpenArgs = RawPaths(paths: seq<string>) | PlaylistFile(text: string)

  /**
   * How a `play` invocation ends: nothing matched; the user declined the
   * prompt; the opener ran with these arguments and this command; the
   * opener failed and the command reports a user error; or an album without
   * items was asked for its folder.
   */
  datatype Outcome = NothingToPlay | Declined | Opened(args: OpenArgs, command: string) | UserError | EmptyAlbum

  /** Python truthiness of an optional string: present and non-empty. */
  predicate Given(s: Option<string>) {
    s.Some? && s.value != ""
  }

  // ---------------------------------------------------------------------------
  // The command

  /**
   * The player command: the system opener when no command is configured;
   * otherwise the template with `$args` replaced by the arguments, the
   * arguments appended when the template has no placeholder, and the
   * placeholder and the space before it removed when there are no arguments.
   */
  function CommandStr(command: Option<string>, args: Option<string>, openAnything: string): (r: string)
    ensures !Given(command) ==> r == openAnything
    ensures Given(command) && Given(args) && !Text.Contains(command.value, ArgsMarker)
            ==> r == command.value + " " + args.value
  {
    if !Given(command) then openAnything
    else if Given(args) then
      if Text.Contains(command.value, ArgsMarker) then Text.Replace(command.value, ArgsMarker, args.value)
      else command.value + " " + args.value
    else Text.Replace(command.value, " " + ArgsMarker, "")
  }

  /** Whatever the template, the arguments given end up in a configured command. */
  lemma ArgsReachCommand(command: Option<string>, args: Option<string>, openAnything: string)
    requires Given(command) && Given(args)
    ensures Text.Contains(CommandStr(command, args, openAnything), args.value)
  {
    var c := command.value;
    var a := args.value;
    if Text.Contains(c, ArgsMarker) {
      Text.ReplaceIntroduces(c, ArgsMarker, a);
    } else {
      SuffixContained(c + " ", a);
    }
  }

  lemma {:induction false} SuffixContained(x: string, y: string)
    ensures Text.Contains(x + y, y)
    decreases |x|
  {
    if x == [] {
      assert y <= x + y;
    } else {
      assert (x + y)[1..] == x[1..] + y;
      SuffixContained(x[1..], y);
    }
  }

  /** A template without the placeholder is used as it is when no arguments are given. */
  lemma TemplateKeptWithoutArgs(command: string, args: Option<string>, openAnything: string)
    requires command != "" && !Given(args) && !Text.Contains(command, " " + ArgsMarker)
    ensures CommandStr(Some(command), args, openAnything) == command
  {
    Text.ReplaceAbsent(command, " " + ArgsMarker, "");
  }

  // ---------------------------------------------------------------------------
  // The playlist

  /** The playlist body: every path followed by a newline. */
  function Lines(paths: seq<string>): (text: string)
    ensures paths == [] <==> text == []
    ensures paths != [] ==> text[|text| - 1] == '\n'
  {
    if paths == [] then "" else paths[0] + "\n" + Lines(paths[1..])
  }

  /** The playlist file's text, behind a byte-order mark when `bom` is set. */
  function PlaylistText(paths: seq<string>, bom: bool): (text: string)
    ensures bom ==> Bom <= text
    ensures !bom ==> text == Lines(paths)
  {
    (if bom then Bom else "") + Lines(paths)
  }

  /** The playlist is the paths joined by newlines, with one more newline at the end. */
  lemma {:induction false} LinesAsJoin(paths: seq<string>)
    ensures Lines(paths) == Text.Join(paths + [""], "\n")
  {
    if paths != [] {
      LinesAsJoin(paths[1..]);
      assert (paths + [""])[1..] == paths[1..] + [""];
    }
  }

  /** Reading a playlist back line by line gives the paths, then the empty piece after the last newline. */
  lemma PlaylistRoundTrip(paths: seq<string>)
    requires forall i :: 0 <= i < |paths| ==> '\n' !in paths[i]
    ensures Text.Split(PlaylistText(paths, false), '\n') == paths + [""]
  {
    LinesAsJoin(paths);
    Text.SplitJoin(paths + [""], '\n');
  }

  // ---------------------------------------------------------------------------
  // The entries

  /** How many tracks or albums matched: the count the threshold is checked against. */
  function Count(sel: Selection): nat {
    match sel
    case Tracks(items) => |items|
    case Albums(albums) => |albums|
  }

  function PathsOfItems(items: seq<Item>): (r: seq<string>)
    ensures |r| == |items| && forall i :: 0 <= i < |items| ==> r[i] == items[i].path
  {
    if items == [] then [] else [items[0].path] + PathsOfItems(items[1..])
  }

  /** The directory of an album's items, taken from its first item; an empty album has none. */
  function ItemDir(album: Album): Option<string> {
    if album.items == [] then None else Some(Paths.Dirname(album.items[0].path))
  }

  /** With `-a`: each album's folder, or every item of each album in order. */
  function AlbumPaths(albums: seq<Album>, useFolders: bool): (r: Option<seq<string>>)
    ensures r.None? <==> useFolders && exists i :: 0 <= i < |albums| && albums[i].items == []
    ensures r.Some? && useFolders ==>
              |r.value| == |albums| && forall i :: 0 <= i < |albums| ==> ItemDir(albums[i]) == Some(r.value[i])
  {
    if albums == [] then Some([])
    else
      var rest := AlbumPaths(albums[1..], useFolders);
      var head: Option<seq<string>> :=
        if !useFolders then Some(PathsOfItems(albums[0].items))
        else if albums[0].items == [] then None
        else Some([ItemDir(albums[0]).value]);
      if head.None? then
        assert albums[0].items == [];
        None
      else if rest.None? then
        assert useFolders && exists i :: 0 <= i < |albums| && albums[i].items == [] by {
          var j :| 0 <= j < |albums[1..]| && albums[1..][j].items == [];
          assert albums[j + 1].items == [];
        }
        None
      else
        var r := head.value + rest.value;
        assert useFolders ==> |r| == |albums| && forall i :: 0 <= i < |albums| ==> albums[i].items != [] && ItemDir(albums[i]) == Some(r[i]) by {
          if useFolders {
            forall i | 0 <= i < |albums|
              ensures albums[i].items != [] && ItemDir(albums[i]) == Some(r[i])
            {
              if i > 0 {
                assert albums[i] == albums[1..][i - 1];
                assert r[i] == rest.value[i - 1];
              }
            }
          }
        }
        Some(r)
  }

  /** The paths the selection stands for, before `relative_to`. */
  function SelectionPaths(sel: Selection, useFolders: bool): Option<seq<string>> {
    match sel
    case Tracks(items) => Some(PathsOfItems(items))
    case Albums(albums) => AlbumPaths(albums, useFolders)
  }

  /** Each path taken relative to `start` (a directory), as `os.path.relpath` does. */
  function Relative(cwd: string, paths: seq<string>, start: string): (r: seq<string>)
    ensures |r| == |paths| && forall i :: 0 <= i < |paths| ==> r[i] == Paths.RelPath(cwd, paths[i], start)
  {
    if paths == [] then [] else [Paths.RelPath(cwd, paths[0], start)] + Relative(cwd, paths[1..], start)
  }

  /** The playlist entries: the selection's paths, relative to `relative_to` when it is set. */
  function Entries(cfg: Config, sel: Selection, cwd: string): (r: Option<seq<string>>)
    ensures sel.Tracks? ==> r.Some? && |r.value| == |sel.items|
    ensures r.None? <==> sel.Albums? && cfg.useFolders && exists i :: 0 <= i < |sel.albums| && sel.albums[i].items == []
  {
    var paths := SelectionPaths(sel, cfg.useFolders);
    if paths.Some? && Given(cfg.relativeTo) then Some(Relative(cwd, paths.value, cfg.relativeTo.value))
    else paths
  }

  // ---------------------------------------------------------------------------
  // The command run

  /** A selection larger than a non-zero threshold needs the user's consent. */
  predicate ExceedsThreshold(threshold: int, count: nat)
    ensures threshold == 0 ==> !ExceedsThreshold(threshold, count)
  {
    threshold != 0 && count > threshold
  }

  /** A selection larger than one that needs consent needs it too. */
  lemma ThresholdMonotone(threshold: int, count: nat, larger: nat)
    requires count <= larger && ExceedsThreshold(threshold, count)
    ensures ExceedsThreshold(threshold, larger)
  {
  }

  /**
   * One `play` invocation. `yes` is the `-y` flag, `declines` the user's
   * answer should the prompt appear, `openerFails` whether the opener
   * raises, `cwd` the working directory and `openAnything` the system's
   * default opener command.
   */
  function PlayCommand(cfg: Config, sel: Selection, args: Option<string>, yes: bool, declines: bool,
                       openerFails: bool, cwd: string, openAnything: string): (o: Outcome)
    ensures o.Opened? ==> Count(sel) > 0 && !openerFails
    ensures o.Declined? ==> !yes && declines
  {
    var entries := Entries(cfg, sel, cwd);
    if entries.None? then EmptyAlbum
    else if Count(sel) == 0 then NothingToPlay
    else
      var openArgs := if cfg.raw then RawPaths(entries.value) else PlaylistFile(PlaylistText(entries.value, cfg.bom));
      var command := CommandStr(cfg.command, args, openAnything);
      if !yes && ExceedsThreshold(cfg.warningThreshold, Count(sel)) && declines then Declined
      else if openerFails then UserError
      else Opened(openArgs, command)
  }

  /*** Laws ***/

  /**
   * The opener is reached exactly when the entries can be formed, something
   * matched, the prompt was skipped, not needed or accepted, and the opener
   * does not fail.
   */
  lemma OpenedExactly(cfg: Config, sel: Selection, args: Option<string>, yes: bool, declines: bool,
                      openerFails: bool, cwd: string, openAnything: string)
    ensures PlayCommand(cfg, sel, args, yes, declines, openerFails, cwd, openAnything).Opened?
        <==> && Entries(cfg, sel, cwd).Some?
             && Count(sel) > 0
             && (yes || !ExceedsThreshold(cfg.warningThreshold, Count(sel)) || !declines)
             && !openerFails
  {
  }

  /** With `-y` the answer to the prompt plays no part. */
  lemma YesSkipsPrompt(cfg: Config, sel: Selection, args: Option<string>, openerFails: bool,
                       cwd: string, openAnything: string)
    ensures PlayCommand(cfg, sel, args, true, true, openerFails, cwd, openAnything)
         == PlayCommand(cfg, sel, args, true, false, openerFails, cwd, openAnything)
  {
  }

  /** A selection within the threshold is never prompted for. */
  lemma SmallSelectionNotPrompted(cfg: Config, sel: Selection, args: Option<string>, yes: bool,
                                  openerFails: bool, cwd: string, openAnything: string)
    requires !ExceedsThreshold(cfg.warningThreshold, Count(sel))
    ensures PlayCommand(cfg, sel, args, yes, true, openerFails, cwd, openAnything)
         == PlayCommand(cfg, sel, args, true, false, openerFails, cwd, openAnything)
  {
  }

  /** In raw mode the opener gets the entries themselves; otherwise a playlist of them. */
  lemma OpenerGetsEntries(cfg: Config, sel: Selection, args: Option<string>, yes: bool, declines: bool,
                          cwd: string, openAnything: string)
    requires PlayCommand(cfg, sel, args, yes, declines, false, cwd, openAnything).Opened?
    ensures var o := PlayCommand(cfg, sel, args, yes, declines, false, cwd, openAnything);
      && o.command == CommandStr(cfg.command, args, openAnything)
      && (cfg.raw ==> o.args == RawPaths(Entries(cfg, sel, cwd).value))
      && (!cfg.raw ==> o.args == PlaylistFile(PlaylistText(Entries(cfg, sel, cwd).value, cfg.bom)))
  {
  }

  /** Without `relative_to` and `-a`, the entries are the matched tracks' paths in order. */
  lemma TrackEntries(cfg: Config, items: seq<Item>, cwd: string)
    requires !Given(cfg.relativeTo)
    ensures Entries(cfg, Tracks(items), cwd) == Some(PathsOfItems(items))
  {
  }

  /** With `relative_to`, each entry leads from that directory back to the item it stands for. */
  lemma RelativeEntriesResolve(cfg: Config, sel: Selection, cwd: string, i: nat)
    requires Given(cfg.relativeTo)
    requires SelectionPaths(sel, cfg.useFolders).Some? && i < |SelectionPaths(sel, cfg.useFolders).value|
    ensures var paths := SelectionPaths(sel, cfg.useFolders).value;
      var start := cfg.relativeTo.value;
      && Entries(cfg, sel, cwd).Some?
      && |Entries(cfg, sel, cwd).value| == |paths|
      && Paths.AbsPath(cwd, Paths.AbsPath(cwd, start) + "/" + Entries(cfg, sel, cwd).value[i])
         == Paths.AbsPath(cwd, paths[i])
  {
    var paths := SelectionPaths(sel, cfg.useFolders).value;
    Paths.RelPathRoundTrip(cwd, paths[i], cfg.relativeTo.value);
  }

  /** With `use_folders`, an album whose first item is at a normalised path plays the folder holding it. */
  lemma FolderEntry(albums: seq<Album>, i: nat, cs: seq<string>)
    requires i < |albums| && AlbumPaths(albums, true).Some?
    requires |cs| >= 1 && Paths.AllPieces(cs)
    requires albums[i].items != [] && albums[i].items[0].path == Paths.FromComponents(cs)
    ensures AlbumPaths(albums, true).value[i] == Paths.FromComponents(cs[..|cs| - 1])
  {
    Paths.DirnameDropsLast(cs);
  }

  /*** The plugin's scenarios ***/

  /** The configuration of the scenarios: the command `echo`, everything else default. */
  function Echo(): Config {
    DefaultConfig().(command := Some("echo"))
  }

  lemma EchoHasNoMarker()
    ensures !Text.Contains("echo", " " + ArgsMarker)
    ensures !Text.Contains("echo", ArgsMarker)
  {
    if Text.Contains("echo", " " + ArgsMarker) {
      Text.ContainsNeedsRoom("echo", " " + ArgsMarker);
    }
    if Text.Contains("echo", ArgsMarker) {
      Text.ContainsNeedsRoom("echo", ArgsMarker);
    }
  }

  /** Without arguments the command is the template itself. */
  lemma PlainCommand(openAnything: string)
    ensures CommandStr(Some("echo"), None, openAnything) == "echo"
  {
    EchoHasNoMarker();
    TemplateKeptWithoutArgs("echo", None, openAnything);
  }

  /** `-A foo` with a template lacking the placeholder appends the arguments. */
  lemma ArgsAppended(openAnything: string)
    ensures CommandStr(Some("echo"), Some("foo"), openAnything) == "echo foo"
  {
    EchoHasNoMarker();
  }

  lemma MarkerInMiddle()
    ensures Text.Contains("echo $args other", ArgsMarker)
  {
    assert "echo $args other"[5..] == "$args other";
    assert ArgsMarker <= "$args other";
    assert "echo $args other"[1..][1..][1..][1..][1..] == "$args other";
  }

  lemma ReplaceMarkerInMiddle()
    ensures Text.Replace("echo $args other", ArgsMarker, "foo") == "echo foo other"
  {
    Text.ReplaceWithoutFirstChar(" other", ArgsMarker, "foo");
    Text.ReplaceOnce("echo ", " other", ArgsMarker, "foo");
    assert "echo " + ArgsMarker + " other" == "echo $args other";
    assert "echo " + "foo" + " other" == "echo foo other";
  }

  /** `-A foo` with `$args` in the middle of the template puts the arguments there. */
  lemma ArgsInMiddle(openAnything: string)
    ensures CommandStr(Some("echo $args other"), Some("foo"), openAnything) == "echo foo other"
  {
    MarkerInMiddle();
    ReplaceMarkerInMiddle();
  }

  lemma RemoveMarkerInMiddle()
    ensures Text.Replace("echo $args other", " " + ArgsMarker, "") == "echo other"
  {
    var m := " " + ArgsMarker;
    assert m == " $args";
    Text.ReplaceWithoutFirstChar("other", m, "");
    assert !(m <= [' '] + "other") by { assert m[1] != ([' '] + "other")[1]; }
    Text.ReplaceMismatch(' ', "other", m, "");
    Text.ReplaceOnce("echo", " other", m, "");
    assert "echo" + m + " other" == "echo $args other";
    assert "echo" + "" + " other" == "echo other";
  }

  /** Without arguments the placeholder and the space before it vanish: no double space remains. */
  lemma UnsetArgsInMiddle(openAnything: string)
    ensures CommandStr(Some("echo $args other"), None, openAnything) == "echo other"
  {
    RemoveMarkerInMiddle();
  }

  /** A run that gets past every gate opens the entries with the built command. */
  lemma PlaysEntries(cfg: Config, sel: Selection, args: Option<string>, yes: bool, declines: bool,
                     cwd: string, openAnything: string, entries: seq<string>)
    requires Entries(cfg, sel, cwd) == Some(entries) && Count(sel) > 0
    requires yes || !ExceedsThreshold(cfg.warningThreshold, Count(sel)) || !declines
    ensures PlayCommand(cfg, sel, args, yes, declines, false, cwd, openAnything)
         == Opened(if cfg.raw then RawPaths(entries) else PlaylistFile(PlaylistText(entries, cfg.bom)),
                   CommandStr(cfg.command, args, openAnything))
  {
  }

  lemma OneLine(p: string)
    ensures PlaylistText([p], false) == p + "\n"
  {
    assert [p][1..] == [];
    assert Lines([p]) == p + "\n" + "";
  }

  /** One matching track: the opener gets a playlist holding its path and the command `echo`. */
  lemma Basic(p: string, declines: bool, cwd: string, openAnything: string)
    ensures PlayCommand(Echo(), Tracks([Item(p)]), None, false, declines, false, cwd, openAnything)
         == Opened(PlaylistFile(p + "\n"), "echo")
  {
    PlainCommand(openAnything);
    OneLine(p);
    assert PathsOfItems([Item(p)]) == [p];
    PlaysEntries(Echo(), Tracks([Item(p)]), None, false, declines, cwd, openAnything, [p]);
  }

  /** `-a`: the matching album's items are played. */
  lemma AlbumOption(p: string, declines: bool, cwd: string, openAnything: string)
    ensures PlayCommand(Echo(), Albums([Album([Item(p)])]), None, false, declines, false, cwd, openAnything)
         == Opened(PlaylistFile(p + "\n"), "echo")
  {
    PlainCommand(openAnything);
    OneLine(p);
    var albums := [Album([Item(p)])];
    assert PathsOfItems([Item(p)]) == [p];
    assert AlbumPaths(albums[1..], false) == Some([]);
    assert AlbumPaths(albums, false) == Some([p] + []);
    PlaysEntries(Echo(), Albums(albums), None, false, declines, cwd, openAnything, [p]);
  }

  /** `relative_to`: the playlist holds the path relative to that directory. */
  lemma RelativeTo(p: string, declines: bool, cwd: string, openAnything: string)
    ensures PlayCommand(Echo().(relativeTo := Some("/something")), Tracks([Item(p)]), None, false, declines, false, cwd, openAnything)
         == Opened(PlaylistFile(Paths.RelPath(cwd, p, "/something") + "\n"), "echo")
  {
    var cfg := Echo().(relativeTo := Some("/something"));
    var e := Paths.RelPath(cwd, p, "/something");
    PlainCommand(openAnything);
    OneLine(e);
    assert PathsOfItems([Item(p)]) == [p];
    assert Relative(cwd, [p], "/something") == [e];
    assert Entries(cfg, Tracks([Item(p)]), cwd) == Some([e]);
    PlaysEntries(cfg, Tracks([Item(p)]), None, false, declines, cwd, openAnything, [e]);
  }

  /** `use_folders` without a command: the system opener plays the album's folder. */
  lemma UseFolders(p: string, declines: bool, cwd: string, openAnything: string)
    ensures PlayCommand(DefaultConfig().(useFolders := true), Albums([Album([Item(p)])]), None, false, declines, false, cwd, openAnything)
         == Opened(PlaylistFile(Paths.Dirname(p) + "\n"), openAnything)
  {
    var cfg := DefaultConfig().(useFolders := true);
    var albums := [Album([Item(p)])];
    var d := Paths.Dirname(p);
    OneLine(d);
    assert ItemDir(albums[0]) == Some(d);
    assert AlbumPaths(albums[1..], true) == Some([]);
    assert AlbumPaths(albums, true) == Some([d] + []);
    assert [d] + [] == [d];
    assert SelectionPaths(Albums(albums), cfg.useFolders) == Some([d]);
    assert !Given(cfg.relativeTo);
    PlaysEntries(cfg, Albums(albums), None, false, declines, cwd, openAnything, [d]);
  }

  /** Raw mode: the opener gets the item paths themselves. */
  lemma Raw(p: string, declines: bool, cwd: string, openAnything: string)
    ensures PlayCommand(Echo().(raw := true), Tracks([Item(p)]), None, false, declines, false, cwd, openAnything)
         == Opened(RawPaths([p]), "echo")
  {
    PlainCommand(openAnything);
    assert PathsOfItems([Item(p)]) == [p];
    PlaysEntries(Echo().(raw := true), Tracks([Item(p)]), None, false, declines, cwd, openAnything, [p]);
  }

  /** No match: the opener is not called. */
  lemma NotFound(declines: bool, openerFails: bool, cwd: string, openAnything: string)
    ensures PlayCommand(Echo(), Tracks([]), None, false, declines, openerFails, cwd, openAnything) == NothingToPlay
  {
  }

  /** Two tracks over a threshold of one, and the user aborts: the opener is not called. */
  lemma WarningThreshold(p: string, q: string, cwd: string, openAnything: string)
    ensures PlayCommand(Echo().(warningThreshold := 1), Tracks([Item(p), Item(q)]), None, false, true, false, cwd, openAnything)
         == Declined
  {
  }

  /** The same with `-y`: no prompt, and both paths are played in order. */
  lemma SkipWarningThreshold(p: string, q: string, cwd: string, openAnything: string)
    ensures PlayCommand(Echo().(warningThreshold := 1), Tracks([Item(p), Item(q)]), None, true, true, false, cwd, openAnything)
         == Opened(PlaylistFile(p + "\n" + q + "\n"), "echo")
  {
    var cfg := Echo().(warningThreshold := 1);
    PlainCommand(openAnything);
    assert PathsOfItems([Item(p), Item(q)]) == [p, q];
    assert [p, q][1..] == [q];
    OneLine(q);
    assert PlaylistText([p, q], false) == p + "\n" + q + "\n";
    PlaysEntries(cfg, Tracks([Item(p), Item(q)]), None, true, true, cwd, openAnything, [p, q]);
  }

  /** The opener failing surfaces as a user error. */
  lemma CommandFailed(p: string, declines: bool, cwd: string, openAnything: string)
    ensures PlayCommand(Echo(), Tracks([Item(p)]), None, false, declines, true, cwd, openAnything) == UserError
  {
  }
}
