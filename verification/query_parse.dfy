/** Reading a query string: shell-style tokenising, implicit path queries, comma-separated
    alternatives, and the grammar of one query part. */
module QueryParse {
  import opened Results
  import opened Text
  import opened Paths
  import opened Queries

  datatype ParseError =
    | UnclosedQuote           // shell syntax: a quote left open
    | DanglingEscape          // shell syntax: a backslash at the very end
    | NotANumber(text: string)
    | NotARegex(text: string)

  /** An error in the shell syntax of the whole query string. */
  predicate ShellError(e: ParseError) {
    e.UnclosedQuote? || e.DanglingEscape?
  }

  /** An error in the pattern of one term: a bad number or a bad regular expression. */
  predicate PatternError(e: ParseError) {
    e.NotANumber? || e.NotARegex?
  }

  /** The query class a field's type selects. */
  datatype Kind =
    | SubstringKind | RegexpKind | ExactKind | ExactNoCaseKind
    | NumericKind | BooleanKind | PathKind | SingletonKind

  /** The query class of each known field, looked up by the key as written. */
  type Schema = map<string, Kind>

  /** What parsing may consult beyond the text: the regular-expression engine and its
      compiler, whether a path names an existing file, the file system's case
      sensitivity, and the working
      directory. */
  datatype Env = Env(
    search: Search,
    compiles: string -> bool,
    present: string -> bool,
    caseSensitive: string -> bool,
    cwd: string)

  /** The fields an unkeyed term searches on items, and on albums. */
  const ItemSearchFields: seq<string> := ["artist", "title", "comments", "album", "albumartist", "genre"]
  const AlbumSearchFields: seq<string> := ["album", "albumartist", "genre"]

  // ---------------------------------------------------------------------------
  // Shell-style tokenising (POSIX `shlex.split`)

  /** shlex's whitespace set. */
  predicate IsBlank(c: char) {
    c == ' ' || c == '\t' || c == '\r' || c == '\n'
  }

  predicate AllBlank(s: string) {
    forall i :: 0 <= i < |s| ==> IsBlank(s[i])
  }

  datatype LexState = Between | Word | Quoted(quote: char) | Escaped(resume: LexState)

  /** One pass of shlex over the rest of the input. `tok` is the token being built,
      `quoted` whether it contained a quote (so an empty one still counts). */
  function Lex(s: string, st: LexState, tok: string, quoted: bool, acc: seq<string>): (r: Result<seq<string>, ParseError>)
    ensures r.Err? ==> ShellError(r.error)
    decreases |s|
  {
    if s == [] then
      match st
      case Quoted(_) => Err(UnclosedQuote)
      case Escaped(_) => Err(DanglingEscape)
      case _ => Ok(if tok != "" || quoted then acc + [tok] else acc)
    else
      var c, rest := s[0], s[1..];
      match st
      case Between =>
        if IsBlank(c) then Lex(rest, Between, "", false, acc)
        else if c == '\\' then Lex(rest, Escaped(Word), "", false, acc)
        else if c == '\'' || c == '"' then Lex(rest, Quoted(c), "", true, acc)
        else Lex(rest, Word, [c], false, acc)
      case Word =>
        if IsBlank(c) then Lex(rest, Between, "", false, if tok != "" || quoted then acc + [tok] else acc)
        else if c == '\'' || c == '"' then Lex(rest, Quoted(c), tok, true, acc)
        else if c == '\\' then Lex(rest, Escaped(Word), tok, quoted, acc)
        else Lex(rest, Word, tok + [c], quoted, acc)
      case Quoted(q) =>
        if c == q then Lex(rest, Word, tok, true, acc)
        else if c == '\\' && q == '"' then Lex(rest, Escaped(Quoted(q)), tok, true, acc)
        else Lex(rest, Quoted(q), tok + [c], true, acc)
      case Escaped(resume) =>
        // Inside double quotes only a quote or a backslash can be escaped; before any
        // other character the backslash stays.
        var kept := if resume.Quoted? && c != '\\' && c != resume.quote then "\\" else "";
        Lex(rest, resume, tok + kept + [c], quoted, acc)
  }

  /** The shell words of a query string; a blank string has none. */
  function Tokenize(s: string): (r: Result<seq<string>, ParseError>)
    ensures r.Err? ==> ShellError(r.error)
    ensures AllBlank(s) ==> r == Ok([])
  {
    if AllBlank(s) then LexBlank(s, []); Lex(s, Between, "", false, [])
    else Lex(s, Between, "", false, [])
  }

  lemma {:induction false} LexBlank(s: string, acc: seq<string>)
    requires AllBlank(s)
    ensures Lex(s, Between, "", false, acc) == Ok(acc)
    decreases |s|
  {
    if s != [] {
      assert IsBlank(s[0]);
      LexBlank(s[1..], acc);
    }
  }

  /** A word shlex passes through unchanged. */
  predicate PlainWord(w: string) {
    forall i :: 0 <= i < |w| ==> !IsBlank(w[i]) && w[i] != '\\' && w[i] != '\'' && w[i] != '"'
  }

  lemma {:induction false} LexPlainWord(w: string, rest: string, tok: string, acc: seq<string>)
    requires PlainWord(w)
    ensures Lex(w + rest, Word, tok, false, acc) == Lex(rest, Word, tok + w, false, acc)
    decreases |w|
  {
    if w == [] {
      assert w + rest == rest;
      assert tok + w == tok;
    } else {
      assert (w + rest)[0] == w[0];
      assert (w + rest)[1..] == w[1..] + rest;
      LexPlainWord(w[1..], rest, tok + [w[0]], acc);
      assert tok + [w[0]] + w[1..] == tok + w;
    }
  }

  lemma LexStartsPlainWord(w: string, rest: string, acc: seq<string>)
    requires |w| > 0 && PlainWord(w)
    ensures Lex(w + rest, Between, "", false, acc) == Lex(rest, Word, w, false, acc)
  {
    assert (w + rest)[0] == w[0];
    assert (w + rest)[1..] == w[1..] + rest;
    LexPlainWord(w[1..], rest, [w[0]], acc);
    assert [w[0]] + w[1..] == w;
  }

  /** Words without blanks, quotes or backslashes, joined by spaces, tokenise back to
      the same words. */
  lemma {:induction false} TokenizeJoin(words: seq<string>, acc: seq<string>)
    requires |words| >= 1
    requires forall i :: 0 <= i < |words| ==> |words[i]| > 0 && PlainWord(words[i])
    ensures Lex(Join(words, " "), Between, "", false, acc) == Ok(acc + words)
  {
    var w := words[0];
    if |words| == 1 {
      LexStartsPlainWord(w, "", acc);
      assert w + "" == w;
      assert Join(words, " ") == w;
      assert Lex("", Word, w, false, acc) == Ok(acc + [w]);
      assert words == [w];
    } else {
      var tail := Join(words[1..], " ");
      assert Join(words, " ") == w + (" " + tail);
      LexStartsPlainWord(w, " " + tail, acc);
      assert (" " + tail)[1..] == tail;
      TokenizeJoin(words[1..], acc + [w]);
      assert acc + [w] + words[1..] == acc + words;
    }
  }

  /** A double-quoted text without quotes or backslashes is one token, blanks included. */
  lemma QuotedToken(w: string)
    requires forall i :: 0 <= i < |w| ==> w[i] != '"' && w[i] != '\\'
    ensures Tokenize("\"" + w + "\"") == Ok([w])
  {
    var s := "\"" + w + "\"";
    QuotedRun(w, "\"", "");
    assert s[0] == '"';
    assert s[1..] == w + "\"";
    assert "" + w == w;
  }

  lemma {:induction false} QuotedRun(w: string, rest: string, tok: string)
    requires forall i :: 0 <= i < |w| ==> w[i] != '"' && w[i] != '\\'
    requires rest == "\""
    ensures Lex(w + rest, Quoted('"'), tok, true, []) == Ok([tok + w])
    decreases |w|
  {
    if w == [] {
      assert w + rest == rest;
      assert tok + w == tok;
      assert rest[0] == '"' && rest[1..] == [];
      assert Lex(rest, Quoted('"'), tok, true, []) == Lex(rest[1..], Word, tok, true, []);
      assert Lex(rest[1..], Word, tok, true, []) == Ok([] + [tok]);
      assert [] + [tok] == [tok + w];
    } else {
      assert (w + rest)[0] == w[0];
      assert (w + rest)[1..] == w[1..] + rest;
      QuotedRun(w[1..], rest, tok + [w[0]]);
      assert tok + [w[0]] + w[1..] == tok + w;
    }
  }

  // ---------------------------------------------------------------------------
  // Implicit path queries

  /** The text before the first `stop`, or all of it: the longest prefix without `stop`. */
  function UpTo(s: string, stop: char): (r: string)
    ensures r <= s && stop !in r
    ensures |r| < |s| ==> s[|r|] == stop
  {
    if s == [] || s[0] == stop then [] else [s[0]] + UpTo(s[1..], stop)
  }

  /** A part is read as a path when what precedes its first colon contains a separator
      and names an existing file or directory. */
  predicate IsPathQuery(part: string, env: Env) {
    var head := UpTo(part, ':');
    '/' in head && env.present(AbsPath(env.cwd, head))
  }

  // ---------------------------------------------------------------------------
  // Comma-separated alternatives

  /** A sort part ends in `+` or `-`, names no field and is more than the sign. */
  predicate IsSortPart(p: string) {
    |p| > 1 && (p[|p| - 1] == '+' || p[|p| - 1] == '-') && ':' !in p
  }

  predicate EndsWithComma(p: string) {
    |p| > 0 && p[|p| - 1] == ','
  }

  /** Collects the query parts between commas; a part ending in a comma closes the
      current alternative, and sort parts are set aside. */
  function GroupParts(parts: seq<string>, current: seq<string>, done: seq<seq<string>>): (r: seq<seq<string>>)
    ensures |r| >= |done|
  {
    if parts == [] then done
    else
      var p := parts[0];
      if EndsWithComma(p) then
        var last := p[..|p| - 1];
        GroupParts(parts[1..], [], done + [current + (if last != "" then [last] else [])])
      else if IsSortPart(p) then GroupParts(parts[1..], current, done)
      else GroupParts(parts[1..], current + [p], done)
  }

  /** The alternatives of a query: a final comma closes the last one. */
  function Alternatives(parts: seq<string>): (r: seq<seq<string>>)
    ensures |r| >= 1
  {
    var all := parts + [","];
    assert all[|all| - 1] == ",";
    GroupPartsCloses(all, [], []);
    GroupParts(all, [], [])
  }

  /** A list of parts whose last one ends in a comma closes at least one alternative. */
  lemma {:induction false} GroupPartsCloses(parts: seq<string>, current: seq<string>, done: seq<seq<string>>)
    requires |parts| >= 1 && EndsWithComma(parts[|parts| - 1])
    ensures |GroupParts(parts, current, done)| >= |done| + 1
    decreases |parts|
  {
    var p := parts[0];
    if |parts| > 1 {
      assert parts[1..][|parts| - 2] == parts[|parts| - 1];
      if EndsWithComma(p) {
        GroupPartsCloses(parts[1..], [], done + [current + (if p[..|p| - 1] != "" then [p[..|p| - 1]] else [])]);
      } else if IsSortPart(p) {
        GroupPartsCloses(parts[1..], current, done);
      } else {
        GroupPartsCloses(parts[1..], current + [p], done);
      }
    }
  }

  // ---------------------------------------------------------------------------
  // One query part

  /** The end of a `key:` prefix: the shortest run of one or more non-blank characters
      followed by a colon that no backslash escapes. */
  function KeyEnd(body: string, k: nat): (r: Option<nat>)
    requires 1 <= k
    ensures r.Some? ==> k <= r.value < |body| && body[r.value] == ':' && body[r.value - 1] != '\\'
    decreases |body| - k
  {
    if k >= |body| then None
    else if IsStrSpace(body[k - 1]) then None
    else if body[k] == ':' && body[k - 1] != '\\' then Some(k)
    else KeyEnd(body, k + 1)
  }

  /** Splits a part into its optional key and the rest. */
  function SplitKey(body: string): (r: (Option<string>, string)) {
    match KeyEnd(body, 1)
    case Some(k) => (Some(body[..k]), body[k + 1..])
    case None => (None, body)
  }

  /** The query class and pattern a term selects: the prefixes `:`, `=~` and `=` in
      that order, else the key's class from the schema, else a substring test. */
  function ChooseKind(key: Option<string>, term: string, schema: Schema): (r: (Kind, string))
    ensures key.None? ==> r.0 in {SubstringKind, RegexpKind, ExactKind, ExactNoCaseKind}
    ensures |r.1| <= |term| && r.1 == term[|term| - |r.1|..]
    ensures r.1 != term ==> r.0 in {RegexpKind, ExactKind, ExactNoCaseKind}
    ensures r.0 == SubstringKind ==> r.1 == term
  {
    if ":" <= term then (RegexpKind, term[1..])
    else if "=~" <= term then (ExactNoCaseKind, term[2..])
    else if "=" <= term then (ExactKind, term[1..])
    else if key.Some? && key.value in schema then (schema[key.value], term)
    else (SubstringKind, term)
  }

  /** Python's `util.str2bool`. */
  predicate Str2Bool(s: string) {
    Lower(s) in {"yes", "1", "true", "t", "y"}
  }

  /** The position of the first `..`, if any. */
  function FindDots(s: string, i: nat): (r: Option<nat>)
    requires i <= |s|
    ensures r.Some? ==> i <= r.value && r.value + 2 <= |s| && s[r.value] == '.' && s[r.value + 1] == '.'
    ensures r.None? ==> forall j :: i <= j < |s| - 1 ==> !(s[j] == '.' && s[j + 1] == '.')
    decreases |s| - i
  {
    if i + 2 > |s| then None
    else if s[i] == '.' && s[i + 1] == '.' then Some(i)
    else FindDots(s, i + 1)
  }

  /** One end of a numeric pattern: empty is open, otherwise an integer. */
  function NumericEnd(s: string): (r: Result<Option<int>, ParseError>)
    ensures r.Ok? && r.value.Some? ==> ParseInt(s) == r.value
    ensures r.Ok? && r.value.None? <==> s == ""
  {
    if s == "" then Ok(None)
    else match ParseInt(s)
      case Some(n) => Ok(Some(n))
      case None => Err(NotANumber(s))
  }

  /** A numeric pattern: a value, or two ends split at the first `..`. */
  function ParseBounds(pattern: string): (r: Result<Bounds, ParseError>)
    ensures r.Err? ==> r.error.NotANumber?
  {
    match FindDots(pattern, 0)
    case None =>
      var v :- NumericEnd(pattern);
      Ok(Point(v))
    case Some(i) =>
      var lo :- NumericEnd(pattern[..i]);
      var hi :- NumericEnd(pattern[i + 2..]);
      Ok(Range(lo, hi))
  }

  /** The test a query class builds from a pattern; regular expressions must compile
      and numbers must read as integers. */
  function MakeTest(kind: Kind, pattern: string, env: Env): (r: Result<Test, ParseError>)
    requires kind != SingletonKind
    ensures r.Err? ==> PatternError(r.error)
  {
    match kind
    case SubstringKind => Ok(Substring(pattern))
    case RegexpKind => if env.compiles(pattern) then Ok(Regexp(pattern)) else Err(NotARegex(pattern))
    case ExactKind => Ok(Exact(pattern))
    case ExactNoCaseKind => Ok(ExactNoCase(pattern))
    case NumericKind =>
      var b :- ParseBounds(pattern);
      Ok(Numeric(b))
    case BooleanKind => Ok(Boolean(Str2Bool(pattern)))
    case PathKind =>
      var norm := AbsPath(env.cwd, pattern);
      var cs := env.caseSensitive(norm);
      Ok(PathUnder(if cs then norm else Lower(norm), cs))
  }

  /** `singleton:x` asks whether the item belongs to no album, or (when `x` is false)
      to one. */
  function SingletonQuery(pattern: string): Query {
    if Str2Bool(pattern) then Field("album_id", IsNone) else Not(Field("album_id", IsNone))
  }

  /** The query for a term, on the named field (lower-cased) or on every search field. */
  function TermQuery(key: Option<string>, kind: Kind, pattern: string, searchFields: seq<string>, env: Env): (r: Result<Query, ParseError>)
    requires key.None? ==> kind != SingletonKind
    ensures r.Err? ==> PatternError(r.error)
  {
    if kind == SingletonKind then Ok(SingletonQuery(pattern))
    else
      var t :- MakeTest(kind, pattern, env);
      Ok(if key.Some? then Field(Lower(key.value), t) else AnyField(searchFields, t))
  }

  function NegateIf(negate: bool, r: Result<Query, ParseError>): Result<Query, ParseError> {
    match r
    case Ok(q) => Ok(if negate then Not(q) else q)
    case Err(e) => Err(e)
  }

  /** The term a part's text after its key stands for: up to the first newline, with
      `\:` unescaped. */
  function TermText(rest: string): string {
    Replace(UpTo(rest, '\n'), "\\:", ":")
  }

  /** One query part: an optional `-` or `^` negation, an optional `key:`, then the
      term with `\:` unescaped. An empty part selects everything. */
  function ConstructPart(part: string, schema: Schema, searchFields: seq<string>, env: Env): (r: Result<Query, ParseError>)
    ensures part == "" ==> r == Ok(All)
    ensures r.Err? ==> PatternError(r.error)
  {
    if part == "" then Ok(All)
    else
      var p := Strip(part);
      var negate := |p| > 0 && (p[0] == '-' || p[0] == '^');
      NegateIf(negate, PartQuery(if negate then p[1..] else p, schema, searchFields, env))
  }

  /** The query of a stripped part without its negation sign: its key, if any, and
      the class and pattern its term selects. */
  function PartQuery(body: string, schema: Schema, searchFields: seq<string>, env: Env): (r: Result<Query, ParseError>)
    ensures r.Err? ==> PatternError(r.error)
  {
    var (key, rest) := SplitKey(body);
    var (kind, pattern) := ChooseKind(key, TermText(rest), schema);
    TermQuery(key, kind, pattern, searchFields, env)
  }

  /** The parts of one alternative, conjoined; no parts select everything. */
  function ConstructAll(parts: seq<string>, schema: Schema, searchFields: seq<string>, env: Env): (r: Result<seq<Query>, ParseError>)
    ensures r.Ok? ==> |r.value| == |parts|
    ensures r.Err? ==> PatternError(r.error)
  {
    if parts == [] then Ok([])
    else
      var q :- ConstructPart(parts[0], schema, searchFields, env);
      var qs :- ConstructAll(parts[1..], schema, searchFields, env);
      Ok([q] + qs)
  }

  function AlternativeQuery(parts: seq<string>, schema: Schema, searchFields: seq<string>, env: Env): (r: Result<Query, ParseError>)
    ensures r.Err? ==> PatternError(r.error)
  {
    var qs :- ConstructAll(parts, schema, searchFields, env);
    Ok(And(if qs == [] then [All] else qs))
  }

  function AlternativeQueries(groups: seq<seq<string>>, schema: Schema, searchFields: seq<string>, env: Env): (r: Result<seq<Query>, ParseError>)
    ensures r.Ok? ==> |r.value| == |groups|
    ensures r.Err? ==> PatternError(r.error)
  {
    if groups == [] then Ok([])
    else
      var q :- AlternativeQuery(groups[0], schema, searchFields, env);
      var qs :- AlternativeQueries(groups[1..], schema, searchFields, env);
      Ok([q] + qs)
  }

  /** Parts after path detection: alternatives become an `Or` when there is more than
      one. */
  function ParseSortedQuery(parts: seq<string>, schema: Schema, searchFields: seq<string>, env: Env): (r: Result<Query, ParseError>)
    ensures r.Err? ==> PatternError(r.error)
  {
    var groups := Alternatives(parts);
    var qs :- AlternativeQueries(groups, schema, searchFields, env);
    Ok(if |qs| > 1 then Or(qs) else qs[0])
  }

  function MarkPaths(parts: seq<string>, env: Env): (r: seq<string>)
    ensures |r| == |parts|
    ensures forall i :: 0 <= i < |parts| ==> r[i] == (if IsPathQuery(parts[i], env) then "path:" + parts[i] else parts[i])
  {
    seq(|parts|, i requires 0 <= i < |parts| => if IsPathQuery(parts[i], env) then "path:" + parts[i] else parts[i])
  }

  /** A list of query parts: implicit paths are made explicit, then parsed. */
  function ParseQueryParts(parts: seq<string>, schema: Schema, searchFields: seq<string>, env: Env): (r: Result<Query, ParseError>)
    ensures r.Err? ==> PatternError(r.error)
  {
    ParseSortedQuery(MarkPaths(parts, env), schema, searchFields, env)
  }

  /** A query string, split as a shell would split it. */
  function ParseQueryString(s: string, schema: Schema, searchFields: seq<string>, env: Env): (r: Result<Query, ParseError>)
    ensures r.Err? ==> (ShellError(r.error) <==> Tokenize(s).Err?)
    ensures r.Err? ==> ShellError(r.error) || PatternError(r.error)
  {
    var parts :- Tokenize(s);
    ParseQueryParts(parts, schema, searchFields, env)
  }

  // ---------------------------------------------------------------------------
  // Laws of the part grammar

  lemma StripUnchanged(p: string)
    requires p != "" && !IsStrSpace(p[0]) && !IsStrSpace(p[|p| - 1])
    ensures Strip(p) == p
  {
    assert StripLeft(p) == p;
  }

  /** `-` and `^` both negate exactly the one part they precede, keyed or not. */
  lemma NegationPrefix(sign: char, p: string, schema: Schema, searchFields: seq<string>, env: Env)
    requires sign == '-' || sign == '^'
    requires p != "" && !IsStrSpace(p[0]) && !IsStrSpace(p[|p| - 1]) && p[0] != '-' && p[0] != '^'
    ensures ConstructPart([sign] + p, schema, searchFields, env) == NegateIf(true, ConstructPart(p, schema, searchFields, env))
  {
    var sp := [sign] + p;
    StripUnchanged(p);
    StripUnchanged(sp);
    assert sp[1..] == p;
  }

  /** A key with no colon, blank or trailing backslash, followed by a colon, is split
      off; the rest is the term. */
  lemma KeyedPart(k: string, t: string)
    requires |k| >= 1 && ':' !in k && k[|k| - 1] != '\\'
    requires forall i :: 0 <= i < |k| ==> !IsStrSpace(k[i])
    ensures SplitKey(k + ":" + t) == (Some(k), t)
  {
    var body := k + ":" + t;
    KeyEndFinds(body, k, 1);
    assert body[..|k|] == k;
    assert body[|k| + 1..] == t;
  }

  lemma {:induction false} KeyEndFinds(body: string, k: string, j: nat)
    requires 1 <= j <= |k| && k + ":" <= body && ':' !in k && k[|k| - 1] != '\\'
    requires forall i :: 0 <= i < |k| ==> !IsStrSpace(k[i])
    ensures KeyEnd(body, j) == Some(|k|)
    decreases |k| - j
  {
    assert body[j - 1] == k[j - 1];
    if j < |k| {
      assert body[j] == k[j];
      KeyEndFinds(body, k, j + 1);
    } else {
      assert body[j] == ':';
    }
  }

  /** A part without any colon has no key. */
  lemma UnkeyedPart(body: string)
    requires ':' !in body
    ensures SplitKey(body) == (None, body)
  {
    KeyEndAbsent(body, 1);
  }

  /** A part whose only colon is its first character has no key either: `:x$` is an
      unkeyed regular expression. */
  lemma UnkeyedRegexpPart(v: string)
    requires ':' !in v
    ensures SplitKey(":" + v) == (None, ":" + v)
  {
    KeyEndAbsent(":" + v, 1);
  }

  lemma {:induction false} KeyEndAbsent(body: string, j: nat)
    requires 1 <= j && forall i :: 1 <= i < |body| ==> body[i] != ':'
    ensures KeyEnd(body, j) == None
    decreases |body| - j
  {
    if j < |body| {
      KeyEndAbsent(body, j + 1);
    }
  }

  // ---------------------------------------------------------------------------
  // Laws of query-kind selection

  /** The query class a key selects for a term without a prefix: the key's class as
      written in the schema, else a substring test. */
  function FieldKind(key: Option<string>, schema: Schema): (k: Kind)
    ensures key.None? ==> k == SubstringKind
  {
    if key.Some? && key.value in schema then schema[key.value] else SubstringKind
  }

  /** `:` selects a regular expression on the rest of the term, keyed or not. */
  lemma RegexpPrefixKind(key: Option<string>, v: string, schema: Schema)
    ensures ChooseKind(key, ":" + v, schema) == (RegexpKind, v)
  {
    assert ":" <= ":" + v;
  }

  /** `=~` selects a case-insensitive exact test on the rest of the term. */
  lemma ExactNoCasePrefixKind(key: Option<string>, v: string, schema: Schema)
    ensures ChooseKind(key, "=~" + v, schema) == (ExactNoCaseKind, v)
  {
    assert "=~" <= "=~" + v;
    assert ("=~" + v)[0] == '=';
  }

  /** `=` not followed by `~` selects an exact test on the rest of the term. */
  lemma ExactPrefixKind(key: Option<string>, v: string, schema: Schema)
    requires !("~" <= v)
    ensures ChooseKind(key, "=" + v, schema) == (ExactKind, v)
  {
    var t := "=" + v;
    assert "=" <= t && t[0] == '=' && t[1..] == v;
    assert |v| > 0 ==> t[1] == v[0] && ("~" <= v <==> v[0] == '~');
  }

  /** A term without a prefix keeps its whole text, and the key's class decides. */
  lemma UnprefixedKind(key: Option<string>, term: string, schema: Schema)
    requires !(":" <= term) && !("=" <= term)
    ensures ChooseKind(key, term, schema) == (FieldKind(key, schema), term)
  {
    assert |term| > 0 ==> ("=" <= term <==> term[0] == '=');
  }

  /** A key as the part grammar splits it off: no blank, colon or trailing backslash,
      and no leading negation sign. */
  predicate PlainKey(k: string) {
    |k| >= 1 && ':' !in k && k[|k| - 1] != '\\' && k[0] != '-' && k[0] != '^'
    && forall i :: 0 <= i < |k| ==> !IsStrSpace(k[i])
  }

  /** A term that needs no unescaping, has no newline and ends in no blank. */
  predicate PlainTerm(t: string) {
    '\n' !in t && '\\' !in t && (t == "" || !IsStrSpace(t[|t| - 1]))
  }

  lemma {:induction false} UpToAbsent(s: string, stop: char)
    requires stop !in s
    ensures UpTo(s, stop) == s
  {
    if s != [] {
      assert s[0] != stop && stop !in s[1..];
      UpToAbsent(s[1..], stop);
      assert [s[0]] + s[1..] == s;
    }
  }

  lemma TermTextPlain(t: string)
    requires '\n' !in t && '\\' !in t
    ensures TermText(t) == t
  {
    UpToAbsent(t, '\n');
    ReplaceWithoutFirstChar(t, "\\:", ":");
  }

  lemma PlainTermPrefixed(pre: string, v: string)
    requires pre != "" && '\n' !in pre && '\\' !in pre && !IsStrSpace(pre[|pre| - 1]) && PlainTerm(v)
    ensures PlainTerm(pre + v)
  {
    var t := pre + v;
    if v == "" {
      assert t == pre;
    } else {
      assert t[|t| - 1] == v[|v| - 1];
    }
  }

  /** A keyed part queries the key's own field, named in lower case, with the test its
      term selects; only `singleton` ignores the key. */
  lemma {:induction false} KeyedQuery(k: string, t: string, schema: Schema, searchFields: seq<string>, env: Env)
    requires PlainKey(k) && PlainTerm(t)
    ensures var c := ChooseKind(Some(k), t, schema);
      ConstructPart(k + ":" + t, schema, searchFields, env) == TermQuery(Some(k), c.0, c.1, searchFields, env)
    ensures var c := ChooseKind(Some(k), t, schema);
      var r := ConstructPart(k + ":" + t, schema, searchFields, env);
      && (c.0 == SingletonKind ==> r == Ok(SingletonQuery(c.1)))
      && (c.0 != SingletonKind ==> (r.Ok? <==> MakeTest(c.0, c.1, env).Ok?))
      && (c.0 != SingletonKind && r.Ok? ==> r.value == Field(Lower(k), MakeTest(c.0, c.1, env).value))
  {
    var part := k + ":" + t;
    assert part[0] == k[0];
    assert part[|part| - 1] == if t == "" then ':' else t[|t| - 1];
    BarePart(part, schema, searchFields, env);
    KeyedPart(k, t);
    PartQueryOf(part, Some(k), t, schema, searchFields, env);
    TermTextPlain(t);
    var c := ChooseKind(Some(k), t, schema);
    TermQueryShape(Some(k), c.0, c.1, searchFields, env);
  }

  /** A part that stripping leaves alone and that has no negation sign is the term
      query its key and term select. */
  lemma {:induction false} BarePart(part: string, schema: Schema, searchFields: seq<string>, env: Env)
    requires part != "" && !IsStrSpace(part[0]) && !IsStrSpace(part[|part| - 1]) && part[0] != '-' && part[0] != '^'
    ensures ConstructPart(part, schema, searchFields, env) == PartQuery(part, schema, searchFields, env)
  {
    StripUnchanged(part);
    var p := Strip(part);
    assert p == part && !(|p| > 0 && (p[0] == '-' || p[0] == '^'));
    var q := PartQuery(p, schema, searchFields, env);
    assert NegateIf(false, q) == q;
  }

  /** Unfolds the query of a part whose key split is known. */
  lemma {:induction false} PartQueryOf(body: string, key: Option<string>, rest: string, schema: Schema, searchFields: seq<string>, env: Env)
    requires SplitKey(body) == (key, rest)
    ensures var c := ChooseKind(key, TermText(rest), schema);
      (key.None? ==> c.0 != SingletonKind)
      && PartQuery(body, schema, searchFields, env) == TermQuery(key, c.0, c.1, searchFields, env)
  {
  }

  /** A term query on a key is a test on the key's field in lower case, and without a
      key a test on every search field; it fails exactly when its test does. */
  lemma {:induction false} TermQueryShape(key: Option<string>, kind: Kind, pattern: string, searchFields: seq<string>, env: Env)
    requires key.None? ==> kind != SingletonKind
    ensures var r := TermQuery(key, kind, pattern, searchFields, env);
      && (kind == SingletonKind ==> r == Ok(SingletonQuery(pattern)))
      && (kind != SingletonKind ==> (r.Ok? <==> MakeTest(kind, pattern, env).Ok?))
      && (kind != SingletonKind && r.Ok? && key.Some? ==> r.value == Field(Lower(key.value), MakeTest(kind, pattern, env).value))
      && (kind != SingletonKind && r.Ok? && key.None? ==> r.value == AnyField(searchFields, MakeTest(kind, pattern, env).value))
  {
  }

  /** An unkeyed part searches every search field with the test its term selects. */
  lemma {:induction false} UnkeyedQuery(t: string, schema: Schema, searchFields: seq<string>, env: Env)
    requires t != "" && !IsStrSpace(t[0]) && t[0] != '-' && t[0] != '^' && PlainTerm(t)
    requires SplitKey(t).0.None?
    ensures var c := ChooseKind(None, t, schema);
      ConstructPart(t, schema, searchFields, env) == TermQuery(None, c.0, c.1, searchFields, env)
    ensures var c := ChooseKind(None, t, schema);
      var r := ConstructPart(t, schema, searchFields, env);
      && (r.Ok? <==> MakeTest(c.0, c.1, env).Ok?)
      && (r.Ok? ==> r.value == AnyField(searchFields, MakeTest(c.0, c.1, env).value))
  {
    BarePart(t, schema, searchFields, env);
    PartQueryOf(t, None, SplitKey(t).1, schema, searchFields, env);
    assert SplitKey(t).1 == t;
    TermTextPlain(t);
    var c := ChooseKind(None, t, schema);
    TermQueryShape(None, c.0, c.1, searchFields, env);
  }

  /** `k:=v` is the exact test on field `k`, in lower case. */
  lemma {:induction false} KeyedExactQuery(k: string, v: string, schema: Schema, searchFields: seq<string>, env: Env)
    requires PlainKey(k) && PlainTerm(v) && !("~" <= v)
    ensures ConstructPart(k + ":" + ("=" + v), schema, searchFields, env) == Ok(Field(Lower(k), Exact(v)))
  {
    var t := "=" + v;
    PlainTermPrefixed("=", v);
    ExactPrefixKind(Some(k), v, schema);
    assert MakeTest(ExactKind, v, env) == Ok(Exact(v));
    KeyedQuery(k, t, schema, searchFields, env);
  }

  /** `k:=~v` is the case-insensitive exact test on field `k`, in lower case. */
  lemma {:induction false} KeyedExactNoCaseQuery(k: string, v: string, schema: Schema, searchFields: seq<string>, env: Env)
    requires PlainKey(k) && PlainTerm(v)
    ensures ConstructPart(k + ":" + ("=~" + v), schema, searchFields, env) == Ok(Field(Lower(k), ExactNoCase(v)))
  {
    var t := "=~" + v;
    PlainTermPrefixed("=~", v);
    ExactNoCasePrefixKind(Some(k), v, schema);
    assert MakeTest(ExactNoCaseKind, v, env) == Ok(ExactNoCase(v));
    KeyedQuery(k, t, schema, searchFields, env);
  }

  /** `k::v` is the regular expression `v` on field `k`, in lower case, and is rejected
      when `v` does not compile. */
  lemma {:induction false} KeyedRegexpQuery(k: string, v: string, schema: Schema, searchFields: seq<string>, env: Env)
    requires PlainKey(k) && PlainTerm(v)
    ensures ConstructPart(k + ":" + (":" + v), schema, searchFields, env)
         == if env.compiles(v) then Ok(Field(Lower(k), Regexp(v))) else Err(NotARegex(v))
  {
    var t := ":" + v;
    PlainTermPrefixed(":", v);
    RegexpPrefixKind(Some(k), v, schema);
    KeyedQuery(k, t, schema, searchFields, env);
  }

  /** A keyed term without a prefix on a key the schema does not know is a substring
      test on that field, in lower case. */
  lemma {:induction false} KeyedDefaultQuery(k: string, v: string, schema: Schema, searchFields: seq<string>, env: Env)
    requires PlainKey(k) && PlainTerm(v) && !(":" <= v) && !("=" <= v)
    requires k !in schema
    ensures ConstructPart(k + ":" + v, schema, searchFields, env) == Ok(Field(Lower(k), Substring(v)))
  {
    UnprefixedKind(Some(k), v, schema);
    assert MakeTest(SubstringKind, v, env) == Ok(Substring(v));
    KeyedQuery(k, v, schema, searchFields, env);
  }

  /** Without a key, `=v` is the exact test on every search field. */
  lemma {:induction false} UnkeyedExactQuery(v: string, schema: Schema, searchFields: seq<string>, env: Env)
    requires PlainTerm(v) && ':' !in v && !("~" <= v)
    ensures ConstructPart("=" + v, schema, searchFields, env) == Ok(AnyField(searchFields, Exact(v)))
  {
    PlainTermPrefixed("=", v);
    ExactPrefixKind(None, v, schema);
    assert MakeTest(ExactKind, v, env) == Ok(Exact(v));
    UnkeyedPart("=" + v);
    UnkeyedQuery("=" + v, schema, searchFields, env);
  }

  /** Without a key, `=~v` is the case-insensitive exact test on every search field. */
  lemma {:induction false} UnkeyedExactNoCaseQuery(v: string, schema: Schema, searchFields: seq<string>, env: Env)
    requires PlainTerm(v) && ':' !in v
    ensures ConstructPart("=~" + v, schema, searchFields, env) == Ok(AnyField(searchFields, ExactNoCase(v)))
  {
    PlainTermPrefixed("=~", v);
    ExactNoCasePrefixKind(None, v, schema);
    assert MakeTest(ExactNoCaseKind, v, env) == Ok(ExactNoCase(v));
    UnkeyedPart("=~" + v);
    UnkeyedQuery("=~" + v, schema, searchFields, env);
  }

  /** Without a key, `:v` is the regular expression `v` on every search field. */
  lemma {:induction false} UnkeyedRegexpQuery(v: string, schema: Schema, searchFields: seq<string>, env: Env)
    requires PlainTerm(v) && ':' !in v
    ensures ConstructPart(":" + v, schema, searchFields, env)
         == if env.compiles(v) then Ok(AnyField(searchFields, Regexp(v))) else Err(NotARegex(v))
  {
    PlainTermPrefixed(":", v);
    RegexpPrefixKind(None, v, schema);
    UnkeyedRegexpPart(v);
    UnkeyedQuery(":" + v, schema, searchFields, env);
  }

  /** A plain term with no colon and no prefix is a substring test on every search
      field. */
  lemma {:induction false} UnkeyedDefaultQuery(v: string, schema: Schema, searchFields: seq<string>, env: Env)
    requires PlainTerm(v) && ':' !in v && v != "" && !IsStrSpace(v[0])
    requires v[0] != '-' && v[0] != '^' && v[0] != '='
    ensures ConstructPart(v, schema, searchFields, env) == Ok(AnyField(searchFields, Substring(v)))
  {
    UnprefixedKind(None, v, schema);
    assert MakeTest(SubstringKind, v, env) == Ok(Substring(v));
    UnkeyedPart(v);
    UnkeyedQuery(v, schema, searchFields, env);
  }

  /** A word of ASCII letters is a plain key and a plain term without a prefix. */
  lemma LettersArePlain(w: string)
    requires |w| >= 1 && forall i :: 0 <= i < |w| ==> 'a' <= w[i] <= 'z' || 'A' <= w[i] <= 'Z'
    ensures PlainKey(w) && PlainTerm(w) && ':' !in w && !(":" <= w) && !("=" <= w)
  {
    assert w[0] != ':' && w[0] != '=';
  }

  /** Field names are case-insensitive: two spellings of a key that select the same
      class build the same query, on the lower-cased field. */
  lemma {:induction false} KeyCaseInsensitive(k1: string, k2: string, t: string, schema: Schema, searchFields: seq<string>, env: Env)
    requires PlainKey(k1) && PlainKey(k2) && PlainTerm(t) && Lower(k1) == Lower(k2)
    requires FieldKind(Some(k1), schema) == FieldKind(Some(k2), schema)
    ensures ConstructPart(k1 + ":" + t, schema, searchFields, env) == ConstructPart(k2 + ":" + t, schema, searchFields, env)
  {
    var c := ChooseKind(Some(k1), t, schema);
    assert ChooseKind(Some(k2), t, schema) == c;
    KeyedQuery(k1, t, schema, searchFields, env);
    KeyedQuery(k2, t, schema, searchFields, env);
    assert TermQuery(Some(k1), c.0, c.1, searchFields, env) == TermQuery(Some(k2), c.0, c.1, searchFields, env);
  }

  /** `ArTiST:three` is `artist:three`: a substring test on the `artist` field. */
  lemma {:induction false} KeyCaseExample(schema: Schema, searchFields: seq<string>, env: Env)
    requires "ArTiST" !in schema && "artist" !in schema
    ensures ConstructPart("ArTiST:three", schema, searchFields, env) == ConstructPart("artist:three", schema, searchFields, env)
    ensures ConstructPart("artist:three", schema, searchFields, env) == Ok(Field("artist", Substring("three")))
  {
    assert "ArTiST:three" == "ArTiST" + ":" + "three";
    assert "artist:three" == "artist" + ":" + "three";
    LettersArePlain("ArTiST");
    LettersArePlain("artist");
    LettersArePlain("three");
    assert Lower("ArTiST") == "artist" == Lower("artist");
    KeyCaseInsensitive("ArTiST", "artist", "three", schema, searchFields, env);
    KeyedDefaultQuery("artist", "three", schema, searchFields, env);
  }

  /** `xyzzy:nonsense`, on a key the schema does not know, is a substring test on the
      `xyzzy` field, which `Queries.UnknownFieldMatchesNothing` shows selects no item
      without that field. */
  lemma {:induction false} UnknownFieldExample(schema: Schema, searchFields: seq<string>, env: Env)
    requires "xyzzy" !in schema
    ensures ConstructPart("xyzzy:nonsense", schema, searchFields, env) == Ok(Field("xyzzy", Substring("nonsense")))
  {
    assert "xyzzy:nonsense" == "xyzzy" + ":" + "nonsense";
    assert Lower("xyzzy") == "xyzzy";
    LettersArePlain("xyzzy");
    LettersArePlain("nonsense");
    KeyedDefaultQuery("xyzzy", "nonsense", schema, searchFields, env);
  }

  /** A part means the same with `str` white space after it, whichever white space
      that is: the part is stripped before it is read. */
  lemma {:induction false} TrailingBlankIgnored(part: string, blank: string, schema: Schema, searchFields: seq<string>, env: Env)
    requires part != "" && AllStrSpace(blank)
    ensures ConstructPart(part + blank, schema, searchFields, env) == ConstructPart(part, schema, searchFields, env)
  {
    StripIgnoresTrailingBlank(part, blank);
    var p := Strip(part);
    var negate := |p| > 0 && (p[0] == '-' || p[0] == '^');
    var q := NegateIf(negate, PartQuery(if negate then p[1..] else p, schema, searchFields, env));
    assert part + blank != "" && Strip(part + blank) == p;
    assert ConstructPart(part + blank, schema, searchFields, env) == q;
    assert ConstructPart(part, schema, searchFields, env) == q;
  }

  /** Any `str` white space ends a term, the no-break space U+00A0 and the separators
      U+001C to U+001F included: `artist:foo` followed by it is the substring test for
      `foo`. */
  lemma {:induction false} TrailingSpaceEndsTerm(blank: string, schema: Schema, searchFields: seq<string>, env: Env)
    requires "artist" !in schema && AllStrSpace(blank)
    ensures ConstructPart("artist:foo" + blank, schema, searchFields, env) == Ok(Field("artist", Substring("foo")))
  {
    TrailingBlankIgnored("artist:foo", blank, schema, searchFields, env);
    UnknownFieldFoo(schema, searchFields, env);
  }

  /** The white space the reader strips includes the non-ASCII kinds. */
  lemma NonAsciiSpaces()
    ensures AllStrSpace("\U{00A0}\U{001C}\U{1680}\U{2003}\U{3000}")
    ensures !IsSpace('\U{00A0}') && !IsSpace('\U{001C}')
  {
  }

  lemma {:induction false} UnknownFieldFoo(schema: Schema, searchFields: seq<string>, env: Env)
    requires "artist" !in schema
    ensures ConstructPart("artist:foo", schema, searchFields, env) == Ok(Field("artist", Substring("foo")))
  {
    assert "artist:foo" == "artist" + ":" + "foo";
    assert Lower("artist") == "artist";
    LettersArePlain("artist");
    LettersArePlain("foo");
    KeyedDefaultQuery("artist", "foo", schema, searchFields, env);
  }

  /** A no-break space stops a key: in `a`, U+00A0, `b:c` there is no key. */
  lemma {:induction false} NoBreakSpaceStopsKey()
    ensures SplitKey("a\U{00A0}b:c") == (None, "a\U{00A0}b:c")
  {
    assert KeyEnd("a\U{00A0}b:c", 2) == None;
  }

  /** On a numeric field, `k:n` is the point test for the integer `n` on field `k`, in
      lower case. */
  lemma {:induction false} NumericPartQuery(k: string, n: int, schema: Schema, searchFields: seq<string>, env: Env)
    requires PlainKey(k) && k in schema && schema[k] == NumericKind
    ensures ConstructPart(k + ":" + IntToString(n), schema, searchFields, env) == Ok(Field(Lower(k), Numeric(Point(Some(n)))))
  {
    var t := IntToString(n);
    IntTextPlain(n);
    UnprefixedKind(Some(k), t, schema);
    assert ChooseKind(Some(k), t, schema) == (NumericKind, t);
    BoundsOfValue(n);
    assert MakeTest(NumericKind, t, env) == Ok(Numeric(Point(Some(n))));
    KeyedQuery(k, t, schema, searchFields, env);
  }

  /** A numeric part compares values, not text: `k:n` selects an item whose field holds
      the integer `m` exactly when `m == n`. */
  lemma {:induction false} NumericPartComparesValues(k: string, n: int, m: int, schema: Schema, searchFields: seq<string>, env: Env, item: Item)
    requires PlainKey(k) && k in schema && schema[k] == NumericKind
    requires Lower(k) in item && item[Lower(k)] == Num(m)
    ensures Matches(Field(Lower(k), Numeric(Point(Some(n)))), item, env.search) <==> m == n
  {
    var f, b := Lower(k), Point(Some(n));
    assert NumericValue(item[f]) == Some(m);
    assert Matches(Field(f, Numeric(b)), item, env.search) == TestMatches(Numeric(b), item, f, env.search);
    assert TestMatches(Numeric(b), item, f, env.search) == WithinBounds(m, b);
  }

  /** The text of an integer is a plain term with no prefix. */
  lemma IntTextPlain(n: int)
    ensures var t := IntToString(n); PlainTerm(t) && !(":" <= t) && !("=" <= t)
  {
    var t := IntToString(n);
    var d := NatToString(if n < 0 then -n else n);
    assert AllDigits(d);
    assert t == (if n < 0 then "-" else "") + d;
    assert forall i :: 0 <= i < |t| ==> t[i] == '-' || IsDigit(t[i]);
    assert t[0] != ':' && t[0] != '=';
    assert !IsStrSpace(t[|t| - 1]);
  }

  /** `bpm:12` is the point test for 12 and does not select a track at 120 bpm;
      `bpm:120` does. */
  lemma {:induction false} NoSubstringMatchExample(schema: Schema, searchFields: seq<string>, env: Env, item: Item)
    requires "bpm" in schema && schema["bpm"] == NumericKind
    requires "bpm" in item && item["bpm"] == Num(120)
    ensures ConstructPart("bpm:12", schema, searchFields, env) == Ok(Field("bpm", Numeric(Point(Some(12)))))
    ensures !Matches(Field("bpm", Numeric(Point(Some(12)))), item, env.search)
    ensures ConstructPart("bpm:120", schema, searchFields, env) == Ok(Field("bpm", Numeric(Point(Some(120)))))
    ensures Matches(Field("bpm", Numeric(Point(Some(120)))), item, env.search)
  {
    assert Lower("bpm") == "bpm";
    assert IntToString(12) == "12" && IntToString(120) == "120";
    assert "bpm:12" == "bpm" + ":" + IntToString(12);
    assert "bpm:120" == "bpm" + ":" + IntToString(120);
    NumericPartQuery("bpm", 12, schema, searchFields, env);
    NumericPartQuery("bpm", 120, schema, searchFields, env);
    NumericPartComparesValues("bpm", 12, 120, schema, searchFields, env, item);
    NumericPartComparesValues("bpm", 120, 120, schema, searchFields, env, item);
  }


  // ---------------------------------------------------------------------------
  // Laws of alternatives and conjunction

  /** Parts with no comma and no sort suffix. */
  predicate PlainParts(parts: seq<string>) {
    forall i :: 0 <= i < |parts| ==> !EndsWithComma(parts[i]) && !IsSortPart(parts[i])
  }

  lemma {:induction false} GroupPlainPrefix(a: seq<string>, rest: seq<string>, current: seq<string>, done: seq<seq<string>>)
    requires PlainParts(a)
    ensures GroupParts(a + rest, current, done) == GroupParts(rest, current + a, done)
    decreases |a|
  {
    if a == [] {
      assert a + rest == rest;
      assert current + a == current;
    } else {
      assert (a + rest)[0] == a[0];
      assert (a + rest)[1..] == a[1..] + rest;
      GroupPlainPrefix(a[1..], rest, current + [a[0]], done);
      assert current + [a[0]] + a[1..] == current + a;
    }
  }

  lemma CloseGroup(rest: seq<string>, current: seq<string>, done: seq<seq<string>>)
    ensures GroupParts([","] + rest, current, done) == GroupParts(rest, [], done + [current])
  {
    var all := [","] + rest;
    assert all[0] == "," && all[1..] == rest;
    assert ","[..0] == "";
    assert current + [] == current;
  }

  /** Without commas the parts form one alternative. */
  lemma OneAlternative(parts: seq<string>)
    requires PlainParts(parts)
    ensures Alternatives(parts) == [parts]
  {
    GroupPlainPrefix(parts, [","], [], []);
    CloseGroup([], [] + parts, []);
    assert [] + parts == parts;
  }

  /** A comma between two runs of parts makes two alternatives. */
  lemma TwoAlternatives(a: seq<string>, b: seq<string>)
    requires PlainParts(a) && PlainParts(b)
    ensures Alternatives(a + [","] + b) == [a, b]
  {
    var r := [","] + (b + [","]);
    assert a + [","] + b + [","] == a + r;
    assert [] + a == a && [] + b == b;
    GroupPlainPrefix(a, r, [], []);
    assert Alternatives(a + [","] + b) == GroupParts(r, a, []);
    CloseGroup(b + [","], a, []);
    assert [] + [a] == [a] && [a] + [b] == [a, b];
    assert GroupParts(r, a, []) == GroupParts(b + [","], [], [a]);
    GroupPlainPrefix(b, [","], [], [a]);
    assert GroupParts(b + [","], [], [a]) == GroupParts([","], b, [a]);
    CloseGroup([], b, [a]);
    assert GroupParts([","], b, [a]) == GroupParts([], [], [a, b]);
  }

  lemma MarkNoPaths(parts: seq<string>, env: Env)
    requires forall i :: 0 <= i < |parts| ==> !IsPathQuery(parts[i], env)
    ensures MarkPaths(parts, env) == parts
  {
  }

  /** Space-separated parts with no commas, sort suffixes or paths are conjoined. */
  lemma ConjoinedParts(parts: seq<string>, schema: Schema, searchFields: seq<string>, env: Env)
    requires PlainParts(parts)
    requires forall i :: 0 <= i < |parts| ==> !IsPathQuery(parts[i], env)
    ensures ParseQueryParts(parts, schema, searchFields, env) == AlternativeQuery(parts, schema, searchFields, env)
  {
    MarkNoPaths(parts, env);
    OneAlternative(parts);
    assert [parts][0] == parts && [parts][1..] == [];
    var r := AlternativeQueries([parts], schema, searchFields, env);
    match AlternativeQuery(parts, schema, searchFields, env)
    case Ok(q) =>
      assert AlternativeQueries([], schema, searchFields, env) == Ok([]);
      assert [q] + [] == [q];
      assert r == Ok([q]);
    case Err(e) =>
      assert r == Err(e);
  }

  /** A blank query string parses, and the query it gives selects every item. */
  lemma EmptyQueryMatchesAll(s: string, schema: Schema, searchFields: seq<string>, env: Env, item: Item)
    requires AllBlank(s)
    ensures var r := ParseQueryString(s, schema, searchFields, env);
      r.Ok? && Matches(r.value, item, env.search)
  {
    var none: seq<string> := [];
    assert Tokenize(s) == Ok(none);
    assert MarkPaths(none, env) == none;
    assert Alternatives(none) == [none] by {
      assert none + [","] == [","];
      var comma: seq<string> := [","];
      assert EndsWithComma(comma[0]) && comma[0][..0] == "" && comma[1..] == [];
      var empty: seq<seq<string>> := [];
      var closed: seq<string> := [];
      assert none + closed == none;
      assert empty + [none + closed] == [none];
      assert GroupParts(comma, [], empty) == GroupParts([], [], [none]);
    }
    assert ConstructAll(none, schema, searchFields, env) == Ok([]);
    var q := And([All]);
    assert AlternativeQuery(none, schema, searchFields, env) == Ok(q);
    assert [none][0] == none && [none][1..] == [];
    assert AlternativeQueries([none], schema, searchFields, env) == Ok([q] + []);
    assert [q] + [] == [q];
    assert ParseSortedQuery(none, schema, searchFields, env) == Ok(q);
    assert Matches([All][0], item, env.search);
  }

  /** Two comma-separated runs of parts are the disjunction of their conjunctions. */
  lemma CommaIsDisjunction(a: seq<string>, b: seq<string>, schema: Schema, searchFields: seq<string>, env: Env)
    requires PlainParts(a) && PlainParts(b)
    requires AlternativeQuery(a, schema, searchFields, env).Ok? && AlternativeQuery(b, schema, searchFields, env).Ok?
    ensures ParseSortedQuery(a + [","] + b, schema, searchFields, env)
         == Ok(Or([AlternativeQuery(a, schema, searchFields, env).value, AlternativeQuery(b, schema, searchFields, env).value]))
  {
    TwoAlternatives(a, b);
    assert [a, b][0] == a && [a, b][1..] == [b];
    assert [b][0] == b && [b][1..] == [];
    var qa := AlternativeQuery(a, schema, searchFields, env).value;
    var qb := AlternativeQuery(b, schema, searchFields, env).value;
    assert AlternativeQueries([], schema, searchFields, env) == Ok([]);
    assert AlternativeQueries([b], schema, searchFields, env) == Ok([qb] + []);
    assert AlternativeQueries([a, b], schema, searchFields, env) == Ok([qa] + ([qb] + []));
    assert [qa] + ([qb] + []) == [qa, qb];
  }

  lemma ConstructAllStep(parts: seq<string>, schema: Schema, searchFields: seq<string>, env: Env)
    requires parts != []
    ensures ConstructAll(parts, schema, searchFields, env).Ok?
        <==> ConstructPart(parts[0], schema, searchFields, env).Ok? && ConstructAll(parts[1..], schema, searchFields, env).Ok?
    ensures ConstructAll(parts, schema, searchFields, env).Ok? ==>
      ConstructAll(parts, schema, searchFields, env).value
        == [ConstructPart(parts[0], schema, searchFields, env).value] + ConstructAll(parts[1..], schema, searchFields, env).value
  {
  }

  lemma {:induction false} ConstructAllSnoc(parts: seq<string>, t: string, schema: Schema, searchFields: seq<string>, env: Env)
    requires ConstructAll(parts, schema, searchFields, env).Ok? && ConstructPart(t, schema, searchFields, env).Ok?
    ensures ConstructAll(parts + [t], schema, searchFields, env)
         == Ok(ConstructAll(parts, schema, searchFields, env).value + [ConstructPart(t, schema, searchFields, env).value])
  {
    if parts == [] {
      ConstructAllSingle(t, schema, searchFields, env);
      assert parts + [t] == [t];
      assert ConstructAll(parts, schema, searchFields, env).value == [];
      var qt := ConstructPart(t, schema, searchFields, env).value;
      assert [] + [qt] == [qt];
    } else {
      ConstructAllStep(parts, schema, searchFields, env);
      ConstructAllSnoc(parts[1..], t, schema, searchFields, env);
      ConstructAllSnocStep(parts, t, schema, searchFields, env);
    }
  }

  /** The inductive step of `ConstructAllSnoc`: appending to the tail appends to the whole. */
  lemma ConstructAllSnocStep(parts: seq<string>, t: string, schema: Schema, searchFields: seq<string>, env: Env)
    requires parts != []
    requires ConstructAll(parts, schema, searchFields, env).Ok? && ConstructPart(t, schema, searchFields, env).Ok?
    requires ConstructAll(parts[1..], schema, searchFields, env).Ok?
    requires ConstructAll(parts[1..] + [t], schema, searchFields, env)
          == Ok(ConstructAll(parts[1..], schema, searchFields, env).value + [ConstructPart(t, schema, searchFields, env).value])
    ensures ConstructAll(parts + [t], schema, searchFields, env)
         == Ok(ConstructAll(parts, schema, searchFields, env).value + [ConstructPart(t, schema, searchFields, env).value])
  {
    var longer := parts + [t];
    assert longer[0] == parts[0] && longer[1..] == parts[1..] + [t];
    ConstructAllStep(parts, schema, searchFields, env);
    ConstructAllStep(longer, schema, searchFields, env);
    var q := ConstructPart(parts[0], schema, searchFields, env).value;
    var rest := ConstructAll(parts[1..], schema, searchFields, env).value;
    var qt := ConstructPart(t, schema, searchFields, env).value;
    assert ConstructAll(longer, schema, searchFields, env).value == [q] + (rest + [qt]);
    assert [q] + (rest + [qt]) == [q] + rest + [qt];
  }

  /** A single part constructs the one-query sequence. */
  lemma ConstructAllSingle(t: string, schema: Schema, searchFields: seq<string>, env: Env)
    requires ConstructPart(t, schema, searchFields, env).Ok?
    ensures ConstructAll([t], schema, searchFields, env) == Ok([ConstructPart(t, schema, searchFields, env).value])
  {
    ConstructAllStep([t], schema, searchFields, env);
    assert [t][0] == t && [t][1..] == [];
    assert ConstructAll([], schema, searchFields, env) == Ok([]);
    var qt := ConstructPart(t, schema, searchFields, env).value;
    assert [qt] + [] == [qt];
  }

  /** Each extra term narrows a query: the results of the longer query are those of
      the shorter one that also match the new term, in the same order. */
  lemma ExtraTermNarrows(parts: seq<string>, t: string, items: seq<Item>, schema: Schema, searchFields: seq<string>, env: Env)
    requires |parts| >= 1 && PlainParts(parts + [t])
    requires forall i :: 0 <= i < |parts + [t]| ==> !IsPathQuery((parts + [t])[i], env)
    requires ParseQueryParts(parts, schema, searchFields, env).Ok? && ConstructPart(t, schema, searchFields, env).Ok?
    ensures ParseQueryParts(parts + [t], schema, searchFields, env).Ok?
    ensures Filter(items, ParseQueryParts(parts + [t], schema, searchFields, env).value, env.search)
         == Filter(Filter(items, ParseQueryParts(parts, schema, searchFields, env).value, env.search),
                   ConstructPart(t, schema, searchFields, env).value, env.search)
  {
    assert PlainParts(parts) by {
      forall i | 0 <= i < |parts| ensures !EndsWithComma(parts[i]) && !IsSortPart(parts[i]) {
        assert parts[i] == (parts + [t])[i];
      }
    }
    forall i | 0 <= i < |parts| ensures !IsPathQuery(parts[i], env) {
      assert parts[i] == (parts + [t])[i];
    }
    ConjoinedParts(parts, schema, searchFields, env);
    ConjoinedParts(parts + [t], schema, searchFields, env);
    ConstructAllSnoc(parts, t, schema, searchFields, env);
    AndNarrows(items, ConstructAll(parts, schema, searchFields, env).value, ConstructPart(t, schema, searchFields, env).value, env.search);
  }

  // ---------------------------------------------------------------------------
  // Laws of numeric patterns

  lemma {:induction false} FindDotsAbsent(s: string, i: nat)
    requires i <= |s| && '.' !in s
    ensures FindDots(s, i) == None
    decreases |s| - i
  {
    if i + 2 <= |s| {
      assert s[i] in s;
      FindDotsAbsent(s, i + 1);
    }
  }

  lemma {:induction false} FindDotsAfter(x: string, y: string, i: nat)
    requires i <= |x| && '.' !in x
    ensures FindDots(x + ".." + y, i) == Some(|x|)
    decreases |x| - i
  {
    var s := x + ".." + y;
    if i < |x| {
      assert s[i] == x[i] && x[i] in x;
      FindDotsAfter(x, y, i + 1);
    } else {
      assert s[i] == '.' && s[i + 1] == '.';
    }
  }

  lemma IntTextHasNoDot(n: int)
    ensures '.' !in IntToString(n) && IntToString(n) != ""
  {
    var d := NatToString(if n < 0 then -n else n);
    assert AllDigits(d);
  }

  /** A single integer is an exact-value pattern. */
  lemma BoundsOfValue(n: int)
    ensures ParseBounds(IntToString(n)) == Ok(Point(Some(n)))
  {
    IntTextHasNoDot(n);
    FindDotsAbsent(IntToString(n), 0);
    ParseIntToString(n);
  }

  /** `lo..hi` is the inclusive range between the two integers. */
  lemma BoundsOfRange(lo: int, hi: int)
    ensures ParseBounds(IntToString(lo) + ".." + IntToString(hi)) == Ok(Range(Some(lo), Some(hi)))
  {
    var x, y := IntToString(lo), IntToString(hi);
    var s := x + ".." + y;
    IntTextHasNoDot(lo);
    IntTextHasNoDot(hi);
    FindDotsAfter(x, y, 0);
    assert s[..|x|] == x;
    assert s[|x| + 2..] == y;
    ParseIntToString(lo);
    ParseIntToString(hi);
  }

  /** `lo..` is accepted as a range open at the top. */
  lemma BoundsOfOpenRange(lo: int)
    ensures ParseBounds(IntToString(lo) + "..") == Ok(Range(Some(lo), None))
  {
    var x := IntToString(lo);
    IntTextHasNoDot(lo);
    FindDotsAfter(x, "", 0);
    assert x + ".." + "" == x + "..";
    assert (x + "..")[..|x|] == x;
    assert (x + "..")[|x| + 2..] == "";
    ParseIntToString(lo);
  }

  /** A pattern without `..` that does not read as an integer is rejected. */
  lemma NonIntegerRejected(s: string)
    requires s != "" && '.' !in s && ParseInt(s).None?
    ensures ParseBounds(s) == Err(NotANumber(s))
  {
    FindDotsAbsent(s, 0);
  }

  // ---------------------------------------------------------------------------
  // Path patterns

  /** On a case-sensitive file system a parsed `path:` pattern selects exactly the items
      whose normalised path extends the pattern's normalised components. */
  lemma PathPatternByComponents(pattern: string, env: Env, item: Item, ds: seq<string>)
    requires env.caseSensitive(AbsPath(env.cwd, pattern))
    requires AllPieces(ds) && "path" in item && item["path"] == Str(FromComponents(ds))
    ensures MakeTest(PathKind, pattern, env).Ok?
    ensures TestMatches(MakeTest(PathKind, pattern, env).value, item, "path", env.search)
        <==> Components(AbsPath(env.cwd, pattern)) <= ds
  {
    var norm := AbsPath(env.cwd, pattern);
    var cs := Components(norm);
    PathTestMatches(pattern, env, item);
    NormalisedPieces(env.cwd, pattern);
    AtOrBelowIsComponentPrefix(cs, ds);
  }

  lemma PathTestMatches(pattern: string, env: Env, item: Item)
    requires env.caseSensitive(AbsPath(env.cwd, pattern))
    ensures MakeTest(PathKind, pattern, env) == Ok(PathUnder(AbsPath(env.cwd, pattern), true))
    ensures TestMatches(MakeTest(PathKind, pattern, env).value, item, "path", env.search)
        == AtOrBelow(AbsPath(env.cwd, pattern), FieldText(item, "path"))
  {
  }

  lemma NormalisedPieces(cwd: string, pattern: string)
    ensures AllPieces(Components(AbsPath(cwd, pattern)))
    ensures AbsPath(cwd, pattern) == FromComponents(Components(AbsPath(cwd, pattern)))
  {
    AbsPathShape(cwd, pattern);
  }

  // ---------------------------------------------------------------------------
  // Examples

  /** `true`, `1`, `yes` read as true. */
  lemma TrueWords()
    ensures Str2Bool("true") && Str2Bool("1") && Str2Bool("yes")
  {
    LowerUnchanged("true");
    LowerUnchanged("1");
    LowerUnchanged("yes");
  }

  /** `false`, `0` and any other word read as false. */
  lemma FalseWords()
    ensures !Str2Bool("false") && !Str2Bool("0") && !Str2Bool("something")
  {
    LowerUnchanged("false");
    LowerUnchanged("0");
    LowerUnchanged("something");
  }

  lemma {:induction false} BeforeColonOf(x: string, y: string)
    requires ':' !in x
    ensures UpTo(x + y, ':') == (if y != [] && y[0] == ':' then x else x + UpTo(y, ':'))
  {
    if x != [] {
      assert (x + y)[0] == x[0] && (x + y)[1..] == x[1..] + y;
      assert x[0] in x;
      BeforeColonOf(x[1..], y);
      assert [x[0]] + x[1..] == x;
    } else {
      assert x + y == y;
    }
  }

  /** A part without a colon is a path query exactly when it has a separator and exists. */
  lemma PathWithoutColon(x: string, env: Env)
    requires ':' !in x
    ensures IsPathQuery(x, env) <==> '/' in x && env.present(AbsPath(env.cwd, x))
  {
    BeforeColonOf(x, "");
    assert x + "" == x;
  }

  /** Only the text before the first colon decides whether a part is a path query. */
  lemma PathBeforeColon(x: string, y: string, env: Env)
    requires ':' !in x
    ensures IsPathQuery(x + ":" + y, env) <==> '/' in x && env.present(AbsPath(env.cwd, x))
  {
    assert x + ":" + y == x + (":" + y);
    BeforeColonOf(x, ":" + y);
  }

  /** A name without colons or separators, such as `foo` or `bar`. */
  predicate PlainName(n: string) {
    n != [] && ':' !in n && '/' !in n
  }

  /** Joining two colon-free texts with a separator gives a colon-free text with a separator. */
  lemma JoinWithSeparator(a: string, b: string)
    requires ':' !in a && ':' !in b
    ensures ':' !in a + "/" + b && '/' in a + "/" + b
  {
    assert (a + "/" + b)[|a|] == '/';
    assert forall c :: c in a + "/" + b ==> c in a || c == '/' || c in b;
  }

  /** Implicit path detection on a directory `a` holding a file `b` (`foo` and `bar`
      in the library's own examples): a separator makes an existing path a path query. */
  lemma PathDetectionFile(a: string, b: string, env: Env)
    requires PlainName(a) && PlainName(b)
    requires env.present(AbsPath(env.cwd, a + "/" + b))
    ensures IsPathQuery(a + "/" + b, env)
  {
    JoinWithSeparator(a, b);
    PathWithoutColon(a + "/" + b, env);
  }

  /** An existing directory written with a trailing separator is a path query, and
      text after a colon does not change that. */
  lemma PathDetectionDirectory(a: string, b: string, env: Env)
    requires PlainName(a) && PlainName(b)
    requires env.present(AbsPath(env.cwd, a + "/"))
    ensures IsPathQuery(a + "/", env) && IsPathQuery(a + "/" + ":" + b, env)
  {
    JoinWithSeparator(a, "");
    assert a + "/" + "" == a + "/";
    PathWithoutColon(a + "/", env);
    PathBeforeColon(a + "/", b, env);
  }

  /** Only the text before the first colon counts: a separator after it, or none at
      all, is not a path query. */
  lemma PathDetectionNegative(a: string, b: string, env: Env)
    requires PlainName(a) && PlainName(b)
    ensures !IsPathQuery(a, env) && !IsPathQuery(a + ":" + (b + "/"), env) && !IsPathQuery(a + ":" + ("/" + b), env)
  {
    PathWithoutColon(a, env);
    PathBeforeColon(a, b + "/", env);
    PathBeforeColon(a, "/" + b, env);
  }
}
