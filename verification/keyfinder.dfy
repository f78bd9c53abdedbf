/**
 * The `keyfinder` plugin: for each item without a musical key (or every
 * item, with `overwrite`), run the external analyser on the item's file,
 * take the last word of its output as the key, and store it in the item's
 * `initial_key` field, which spells keys with sharps and a capital letter.
 *
 * The analyser is a parameter: a function from the command line to its
 * output, or `None` when it cannot be run.
 */
module KeyFinder {
  import opened Results
  import Text

  /** The analyser binary used unless configured otherwise. */
  const DefaultBin: string := "KeyFinder"

  /** An item of the library, with the field the plugin fills. */
  datatype Item = Item(path: string, initialKey: Option<string>)

  /** `bin` is the analyser, `overwrite` allows replacing a key already set, `auto` runs the plugin on import. */
  datatype Config = Config(bin: string, overwrite: bool, auto: bool)

  function DefaultConfig(): Config {
    Config(DefaultBin, false, true)
  }

  /** The result of analysing one item: the item as stored, and the command line run, if any. */
  datatype Analysis = Analysis(item: Item, command: Option<seq<string>>)

  /** A field counts as set when it holds a non-empty value. */
  predicate HasKey(item: Item) {
    item.initialKey.Some? && item.initialKey.value != ""
  }

  // ---------------------------------------------------------------------------
  // Key spelling

  /** The letters whose flat is spelled as the sharp of the letter below. */
  predicate FlatLetter(c: char) {
    c == 'd' || c == 'e' || c == 'g' || c == 'a' || c == 'b'
  }

  /** The letter whose sharp sounds as the flat of `c`. */
  function SharpOf(c: char): char
    requires FlatLetter(c)
  {
    match c
    case 'd' => 'c'
    case 'e' => 'd'
    case 'g' => 'f'
    case 'a' => 'g'
    case 'b' => 'a'
  }

  /** A flat spelling starts at `i`: one of `db`, `eb`, `gb`, `ab`, `bb`. */
  predicate FlatAt(s: string, i: int) {
    0 <= i && i + 1 < |s| && FlatLetter(s[i]) && s[i + 1] == 'b'
  }

  predicate NoFlat(s: string) {
    forall i :: 0 <= i < |s| ==> !FlatAt(s, i)
  }

  predicate NoUpper(s: string) {
    forall i :: 0 <= i < |s| ==> !('A' <= s[i] <= 'Z')
  }

  /**
   * Rewrites every flat spelling as the enharmonic sharp, left to right:
   * `db` becomes `c#`, `eb` `d#`, `gb` `f#`, `ab` `g#` and `bb` `a#`.
   */
  function Sharpen(s: string): (r: string)
    ensures |r| == |s|
    ensures NoUpper(s) ==> NoUpper(r)
    decreases |s|
  {
    if s == [] then []
    else if FlatAt(s, 0) then [SharpOf(s[0]), '#'] + Sharpen(s[2..])
    else [s[0]] + Sharpen(s[1..])
  }

  /** Python's `str.capitalize`: the first letter upper-case, the rest lower-case. */
  function Capitalize(s: string): (r: string)
    ensures |r| == |s|
  {
    if s == [] then [] else [Text.UpperChar(s[0])] + Text.Lower(s[1..])
  }

  /** The spelling a key is stored in: folded, flats turned into sharps, capitalised. */
  function NormaliseKey(key: string): (r: string)
    ensures |r| == |key|
    ensures NoFlat(Text.Lower(r))
    ensures forall i :: 1 <= i < |r| ==> !('A' <= r[i] <= 'Z')
  {
    var t := Sharpen(Text.Lower(key));
    LowerHasNoUpper(key);
    LowerCapitalize(t);
    SharpenLeavesNoFlat(Text.Lower(key));
    if t != [] then LowerHasNoUpper(t[1..]); Capitalize(t) else Capitalize(t)
  }

  /** Sharpening leaves no flat behind. */
  lemma {:induction false} SharpenLeavesNoFlat(s: string)
    ensures NoFlat(Sharpen(s))
    decreases |s|
  {
    if s != [] {
      var r := Sharpen(s);
      if FlatAt(s, 0) {
        SharpenLeavesNoFlat(s[2..]);
        assert forall i :: 2 <= i < |r| ==> !FlatAt(r, i) by {
          forall i | 2 <= i < |r| ensures !FlatAt(r, i) {
            assert !FlatAt(Sharpen(s[2..]), i - 2);
          }
        }
        assert r[1] == '#';
      } else {
        SharpenLeavesNoFlat(s[1..]);
        var t := Sharpen(s[1..]);
        assert forall i :: 1 <= i < |r| ==> !FlatAt(r, i) by {
          forall i | 1 <= i < |r| ensures !FlatAt(r, i) {
            assert !FlatAt(t, i - 1);
          }
        }
        if |r| > 1 && FlatLetter(r[0]) {
          SharpenFirst(s[1..]);
        }
      }
    }
  }

  /** A sharpened string starts with `b` only where the input did and no flat starts there. */
  lemma SharpenFirst(s: string)
    requires |s| > 0
    ensures Sharpen(s)[0] == 'b' ==> s[0] == 'b'
  {
  }

  /** A string without flats is its own sharpening. */
  lemma {:induction false} SharpenKeepsSharps(s: string)
    requires NoFlat(s)
    ensures Sharpen(s) == s
    decreases |s|
  {
    if s != [] {
      assert !FlatAt(s, 0);
      assert forall i :: 0 <= i < |s| - 1 ==> FlatAt(s[1..], i) == FlatAt(s, i + 1);
      SharpenKeepsSharps(s[1..]);
      assert [s[0]] + s[1..] == s;
    }
  }

  lemma LowerUpperChar(c: char)
    requires !('A' <= c <= 'Z')
    ensures Text.LowerChar(Text.UpperChar(c)) == c
  {
  }

  /** Folding a capitalised string without other capitals gives the string back. */
  lemma LowerCapitalize(s: string)
    requires NoUpper(s)
    ensures Text.Lower(Capitalize(s)) == s
  {
    if s != [] {
      LowerUpperChar(s[0]);
      Text.LowerUnchanged(s[1..]);
      Text.LowerAppend([Text.UpperChar(s[0])], s[1..]);
      assert [s[0]] + s[1..] == s;
    }
  }

  lemma LowerHasNoUpper(s: string)
    ensures NoUpper(Text.Lower(s))
  {
  }

  /** A stored key reads back as itself: normalising is idempotent. */
  lemma NormaliseIdempotent(key: string)
    ensures NormaliseKey(NormaliseKey(key)) == NormaliseKey(key)
  {
    var t := Sharpen(Text.Lower(key));
    LowerHasNoUpper(key);
    LowerCapitalize(t);
    SharpenLeavesNoFlat(Text.Lower(key));
    SharpenKeepsSharps(t);
  }

  /** The stored spelling has no flats and no capital past the first letter. */
  lemma NormalisedShape(key: string)
    ensures var r := NormaliseKey(key);
      && NoFlat(Text.Lower(r))
      && forall i :: 1 <= i < |r| ==> !('A' <= r[i] <= 'Z')
  {
    var t := Sharpen(Text.Lower(key));
    LowerHasNoUpper(key);
    LowerCapitalize(t);
    SharpenLeavesNoFlat(Text.Lower(key));
    if t != [] {
      LowerHasNoUpper(t[1..]);
    }
  }

  // ---------------------------------------------------------------------------
  // The analyser's output

  /** Where the last word of `s` starts: after its last white-space character. */
  function WordStart(s: string): (n: nat)
    ensures n <= |s|
    ensures n == 0 || Text.IsSpace(s[n - 1])
    ensures forall i :: n <= i < |s| ==> !Text.IsSpace(s[i])
  {
    if s == [] || Text.IsSpace(s[|s| - 1]) then |s| else WordStart(s[..|s| - 1])
  }

  /** Python's `output.rsplit(None, 1)[-1]`: the last white-space separated word; none when the output is blank. */
  function LastWord(output: string): (r: Option<string>)
    ensures r.None? <==> forall i :: 0 <= i < |output| ==> Text.IsSpace(output[i])
    ensures r.Some? ==> r.value != [] && forall i :: 0 <= i < |r.value| ==> !Text.IsSpace(r.value[i])
  {
    var t := Text.TrimRight(output);
    if t == [] then None
    else
      assert output[..|t|] == t;
      Some(t[WordStart(t)..])
  }

  lemma {:induction false} WordStartOfWord(pre: string, word: string)
    requires pre == [] || Text.IsSpace(pre[|pre| - 1])
    requires forall i :: 0 <= i < |word| ==> !Text.IsSpace(word[i])
    ensures WordStart(pre + word) == |pre|
    decreases |word|
  {
    if word == [] {
      assert pre + word == pre;
    } else {
      assert (pre + word)[..|pre + word| - 1] == pre + word[..|word| - 1];
      WordStartOfWord(pre, word[..|word| - 1]);
    }
  }

  lemma {:induction false} TrimRightOfBlank(s: string, post: string)
    requires s == [] || !Text.IsSpace(s[|s| - 1])
    requires forall i :: 0 <= i < |post| ==> Text.IsSpace(post[i])
    ensures Text.TrimRight(s + post) == s
    decreases |post|
  {
    if post == [] {
      assert s + post == s;
    } else {
      assert (s + post)[..|s + post| - 1] == s + post[..|post| - 1];
      TrimRightOfBlank(s, post[..|post| - 1]);
    }
  }

  /** Any output ending in a word followed only by white space yields that word. */
  lemma LastWordOf(pre: string, word: string, post: string)
    requires pre == [] || Text.IsSpace(pre[|pre| - 1])
    requires word != [] && forall i :: 0 <= i < |word| ==> !Text.IsSpace(word[i])
    requires forall i :: 0 <= i < |post| ==> Text.IsSpace(post[i])
    ensures LastWord(pre + word + post) == Some(word)
  {
    TrimRightOfBlank(pre + word, post);
    WordStartOfWord(pre, word);
    assert (pre + word)[|pre|..] == word;
  }

  // ---------------------------------------------------------------------------
  // Analysing items

  /** The analyser's command line: the binary, `-f`, then the file. */
  function Argv(bin: string, path: string): (argv: seq<string>)
    ensures |argv| == 3 && argv[0] == bin && argv[2] == path
  {
    [bin, "-f", path]
  }

  /**
   * One item: skipped when it has a key and `overwrite` is off; otherwise
   * the analyser runs, and its last word, spelled as keys are stored,
   * becomes the item's key. A failed run or blank output leaves the item
   * as it was.
   */
  function FindKey(item: Item, cfg: Config, analyse: seq<string> -> Option<string>): (a: Analysis)
    ensures a.item.path == item.path
    ensures a.command.None? <==> HasKey(item) && !cfg.overwrite
    ensures a.command.Some? ==> a.command.value == Argv(cfg.bin, item.path)
    ensures a.item != item ==> a.item.initialKey.Some? && a.command.Some?
    ensures a.command.Some? && analyse(a.command.value).Some? && LastWord(analyse(a.command.value).value).Some? ==>
      a.item == item.(initialKey := Some(NormaliseKey(LastWord(analyse(a.command.value).value).value)))
    ensures !(a.command.Some? && analyse(a.command.value).Some? && LastWord(analyse(a.command.value).value).Some?) ==>
      a.item == item
  {
    if HasKey(item) && !cfg.overwrite then Analysis(item, None)
    else
      var argv := Argv(cfg.bin, item.path);
      match analyse(argv)
      case None => Analysis(item, Some(argv))
      case Some(output) =>
        match LastWord(output)
        case None => Analysis(item, Some(argv))
        case Some(word) => Analysis(item.(initialKey := Some(NormaliseKey(word))), Some(argv))
  }

  /** The `keyfinder` command, and the import hook: every item in turn. */
  function FindKeys(items: seq<Item>, cfg: Config, analyse: seq<string> -> Option<string>): (r: seq<Item>)
    ensures |r| == |items| && forall i :: 0 <= i < |items| ==> r[i] == FindKey(items[i], cfg, analyse).item
  {
    if items == [] then [] else [FindKey(items[0], cfg, analyse).item] + FindKeys(items[1..], cfg, analyse)
  }

  /** The items an import stores: analysed when `auto` is on. */
  function OnImport(items: seq<Item>, cfg: Config, analyse: seq<string> -> Option<string>): (r: seq<Item>)
    ensures |r| == |items|
    ensures !cfg.auto ==> r == items
  {
    if cfg.auto then FindKeys(items, cfg, analyse) else items
  }

  /*** Laws ***/

  /** A key already set survives unless `overwrite` is on. */
  lemma KeepsExistingKey(item: Item, cfg: Config, analyse: seq<string> -> Option<string>)
    requires HasKey(item) && !cfg.overwrite
    ensures FindKey(item, cfg, analyse) == Analysis(item, None)
  {
  }

  /** Whenever the key changes, it becomes the stored spelling of the output's last word. */
  lemma NewKeyIsLastWord(item: Item, cfg: Config, analyse: seq<string> -> Option<string>)
    requires FindKey(item, cfg, analyse).item != item
    ensures var out := analyse(Argv(cfg.bin, item.path));
      && out.Some? && LastWord(out.value).Some?
      && FindKey(item, cfg, analyse).item.initialKey == Some(NormaliseKey(LastWord(out.value).value))
  {
  }

  /** With `overwrite` on, a non-blank analysis replaces whatever key the item had. */
  lemma OverwriteReplacesKey(item: Item, cfg: Config, analyse: seq<string> -> Option<string>)
    requires cfg.overwrite
    requires var out := analyse(Argv(cfg.bin, item.path)); out.Some? && LastWord(out.value).Some?
    ensures var out := analyse(Argv(cfg.bin, item.path));
      FindKey(item, cfg, analyse).item == item.(initialKey := Some(NormaliseKey(LastWord(out.value).value)))
  {
  }

  /** Blank output or a failed run changes nothing. */
  lemma BlankOutputChangesNothing(item: Item, cfg: Config, analyse: seq<string> -> Option<string>)
    requires var out := analyse(Argv(cfg.bin, item.path));
      out.None? || forall i :: 0 <= i < |out.value| ==> Text.IsSpace(out.value[i])
    ensures FindKey(item, cfg, analyse).item == item
  {
  }

  /** Analysing twice stores what analysing once did. */
  lemma FindKeyTwice(item: Item, cfg: Config, analyse: seq<string> -> Option<string>)
    ensures var once := FindKey(item, cfg, analyse).item;
      FindKey(once, cfg, analyse).item == once
  {
    var once := FindKey(item, cfg, analyse).item;
    if once != item {
      var out := analyse(Argv(cfg.bin, item.path));
      var word := LastWord(out.value).value;
      assert once.initialKey == Some(NormaliseKey(word));
      assert |NormaliseKey(word)| == |word| > 0;
    }
  }

  /*** The plugin's scenarios ***/

  /** An analyser answering `out` whatever it is given. */
  function Answer(out: string): seq<string> -> Option<string> {
    argv => Some(out)
  }

  lemma SpellDbMinor()
    ensures NormaliseKey("dbm") == "C#m"
  {
    assert Text.Lower("dbm") == "dbm";
    assert FlatAt("dbm", 0);
    assert "dbm"[2..] == "m";
    assert Sharpen("m") == "m";
    assert Sharpen("dbm") == "c#m";
    assert Text.Lower("#m") == "#m";
  }

  lemma SpellCSharpMinor()
    ensures NormaliseKey("C#m") == "C#m"
  {
    assert Text.Lower("C#m") == "c#m";
    assert !FlatAt("c#m", 0) && !FlatAt("#m", 0);
    assert Sharpen("m") == "m";
    assert Sharpen("#m") == "#m";
    assert Sharpen("c#m") == "c#m";
    assert Text.Lower("#m") == "#m";
  }

  lemma WordOf(w: string)
    requires w != [] && forall i :: 0 <= i < |w| ==> !Text.IsSpace(w[i])
    ensures LastWord(w) == Some(w)
  {
    LastWordOf("", w, "");
    assert "" + w + "" == w;
  }

  /** Output `dbm` on an item without a key: the key `C#m` is stored, after running `KeyFinder -f` on the file. */
  lemma AddKey()
    ensures FindKey(Item("/file", None), DefaultConfig(), Answer("dbm"))
         == Analysis(Item("/file", Some("C#m")), Some(["KeyFinder", "-f", "/file"]))
  {
    WordOf("dbm");
    SpellDbMinor();
  }

  /** The same on import: the imported item gets the key. */
  lemma AddKeyOnImport(path: string)
    ensures OnImport([Item(path, None)], DefaultConfig(), Answer("dbm")) == [Item(path, Some("C#m"))]
  {
    WordOf("dbm");
    SpellDbMinor();
  }

  /** With `overwrite`, output `C#m` replaces the key `F`. */
  lemma ForceOverwrite()
    ensures FindKey(Item("/file", Some("F")), DefaultConfig().(overwrite := true), Answer("C#m")).item
         == Item("/file", Some("C#m"))
  {
    WordOf("C#m");
    SpellCSharpMinor();
  }

  /** Without `overwrite`, the key `F` stays and the analyser is not run. */
  lemma DoNotOverwrite()
    ensures FindKey(Item("/file", Some("F")), DefaultConfig(), Answer("dbm"))
         == Analysis(Item("/file", Some("F")), None)
  {
  }

  /** Empty output leaves the key unset. */
  lemma NoKey()
    ensures FindKey(Item("/file", None), DefaultConfig(), Answer("")).item == Item("/file", None)
  {
  }
}
