/** String helpers: the slice of Python's `str` behaviour the rest of the model relies on. */
module Text {
  import opened Results

  // ---------------------------------------------------------------------------
  // Characters

  /** The six ASCII white-space characters: Python's `bytes.isspace`. */
  predicate IsSpace(c: char) {
    c == ' ' || c == '\t' || c == '\n' || c == '\r' || c == '\U{000B}' || c == '\U{000C}'
  }

  /** Python's `str.isspace`, which is also what a regular expression's `\s` matches in
      a `str`: the ASCII white space, the separators U+001C to U+001F, and the Unicode
      spaces and line or paragraph separators. */
  predicate IsStrSpace(c: char) {
    IsSpace(c) || '\U{001C}' <= c <= '\U{001F}' || c == '\U{0085}' || c == '\U{00A0}'
    || c == '\U{1680}' || '\U{2000}' <= c <= '\U{200A}' || c == '\U{2028}' || c == '\U{2029}'
    || c == '\U{202F}' || c == '\U{205F}' || c == '\U{3000}'
  }

  predicate IsDigit(c: char) {
    '0' <= c <= '9'
  }

  /** Regular-expression `\w` on the ASCII range: letters, digits and the underscore. */
  predicate IsWordChar(c: char) {
    ('a' <= c <= 'z') || ('A' <= c <= 'Z') || IsDigit(c) || c == '_'
  }

  /** Case folding is modelled on ASCII letters only. */
  function LowerChar(c: char): char {
    if 'A' <= c <= 'Z' then (c as int + 32) as char else c
  }

  function UpperChar(c: char): char {
    if 'a' <= c <= 'z' then (c as int - 32) as char else c
  }

  function Lower(s: string): (r: string)
    ensures |r| == |s| && forall i :: 0 <= i < |s| ==> r[i] == LowerChar(s[i])
  {
    if s == [] then [] else [LowerChar(s[0])] + Lower(s[1..])
  }

  lemma {:induction false} LowerAppend(a: string, b: string)
    ensures Lower(a + b) == Lower(a) + Lower(b)
  {
    if a == [] {
      assert a + b == b;
    } else {
      assert (a + b)[1..] == a[1..] + b;
      LowerAppend(a[1..], b);
    }
  }

  /** Folding is idempotent: a folded string is its own folding. */
  lemma {:induction false} LowerIdempotent(s: string)
    ensures Lower(Lower(s)) == Lower(s)
  {
    if s != [] {
      LowerIdempotent(s[1..]);
    }
  }

  /** A string without upper-case ASCII letters is its own folding. */
  lemma LowerUnchanged(s: string)
    requires forall i :: 0 <= i < |s| ==> !('A' <= s[i] <= 'Z')
    ensures Lower(s) == s
  {
    if s != [] {
      LowerUnchanged(s[1..]);
    }
  }

  // ---------------------------------------------------------------------------
  // Substrings and replacement

  /** Python's `p in s`. */
  predicate Contains(s: string, p: string)
    decreases |s|
  {
    p <= s || (|s| > 0 && Contains(s[1..], p))
  }

  /** Python's `s.replace(p, r)` for a non-empty pattern: every occurrence, scanning
      left to right without overlaps. */
  function Replace(s: string, p: string, r: string): string
    requires |p| > 0
    decreases |s|
  {
    if |s| < |p| then s
    else if p <= s then r + Replace(s[|p|..], p, r)
    else [s[0]] + Replace(s[1..], p, r)
  }

  /** Replacing a pattern that does not occur changes nothing. */
  lemma {:induction false} ReplaceAbsent(s: string, p: string, r: string)
    requires |p| > 0 && !Contains(s, p)
    ensures Replace(s, p, r) == s
    decreases |s|
  {
    if |s| >= |p| {
      ReplaceAbsent(s[1..], p, r);
    }
  }

  /** A string without the pattern's first character is left as it is. */
  lemma {:induction false} ReplaceWithoutFirstChar(s: string, p: string, r: string)
    requires |p| > 0 && p[0] !in s
    ensures Replace(s, p, r) == s
    decreases |s|
  {
    if |s| >= |p| {
      assert forall c :: c in s[1..] ==> c in s;
      ReplaceWithoutFirstChar(s[1..], p, r);
    }
  }

  /** No occurrence can start inside a prefix lacking the pattern's first character. */
  lemma {:induction false} ReplaceAfterPrefix(x: string, y: string, p: string, r: string)
    requires |p| > 0 && p[0] !in x
    ensures Replace(x + y, p, r) == x + Replace(y, p, r)
    decreases |x|
  {
    if x != [] {
      assert (x + y)[0] == x[0];
      assert (x + y)[1..] == x[1..] + y;
      assert forall c :: c in x[1..] ==> c in x;
      ReplaceAfterPrefix(x[1..], y, p, r);
      if |x + y| < |p| {
        assert |y| < |p|;
        assert Replace(x[1..] + y, p, r) == x[1..] + y;
      }
    } else {
      assert x + y == y;
    }
  }

  /** One occurrence between two stretches the replacement leaves alone is replaced. */
  lemma ReplaceOnce(x: string, y: string, p: string, r: string)
    requires |p| > 0 && p[0] !in x && Replace(y, p, r) == y
    ensures Replace(x + p + y, p, r) == x + r + y
  {
    assert x + p + y == x + (p + y);
    ReplaceAfterPrefix(x, p + y, p, r);
    assert (p + y)[|p|..] == y;
  }

  /** A string that does not start with the pattern keeps its first character. */
  lemma ReplaceMismatch(c: char, z: string, p: string, r: string)
    requires |p| > 0 && !(p <= [c] + z) && Replace(z, p, r) == z
    ensures Replace([c] + z, p, r) == [c] + z
  {
    assert ([c] + z)[1..] == z;
  }

  /** A string shorter than the pattern does not contain it. */
  lemma {:induction false} ContainsNeedsRoom(s: string, p: string)
    requires Contains(s, p)
    ensures |p| <= |s|
    decreases |s|
  {
    if !(p <= s) {
      ContainsNeedsRoom(s[1..], p);
    }
  }

  lemma ContainsAfter(c: char, s: string, p: string)
    requires Contains(s, p)
    ensures Contains([c] + s, p)
  {
    assert ([c] + s)[1..] == s;
  }

  /** Replacing a pattern that occurs leaves the replacement in the result. */
  lemma {:induction false} ReplaceIntroduces(s: string, p: string, r: string)
    requires |p| > 0 && Contains(s, p)
    ensures Contains(Replace(s, p, r), r)
    decreases |s|
  {
    ContainsNeedsRoom(s, p);
    if p <= s {
      assert r <= Replace(s, p, r);
    } else {
      ReplaceIntroduces(s[1..], p, r);
      ContainsAfter(s[0], Replace(s[1..], p, r), r);
    }
  }

  // ---------------------------------------------------------------------------
  // Splitting and joining

  /** Python's `s.split(c)`: the pieces between occurrences of `c`, always at least one. */
  function Split(s: string, c: char): (parts: seq<string>)
    ensures |parts| >= 1
  {
    if s == [] then [""]
    else
      var rest := Split(s[1..], c);
      if s[0] == c then [""] + rest else [[s[0]] + rest[0]] + rest[1..]
  }

  /** Python's `sep.join(parts)`. */
  function Join(parts: seq<string>, sep: string): string {
    if |parts| == 0 then ""
    else if |parts| == 1 then parts[0]
    else parts[0] + sep + Join(parts[1..], sep)
  }

  /** No piece of a split contains the separator. */
  lemma {:induction false} SplitPiecesLackSeparator(s: string, c: char)
    ensures forall i :: 0 <= i < |Split(s, c)| ==> c !in Split(s, c)[i]
  {
    if s != [] {
      SplitPiecesLackSeparator(s[1..], c);
    }
  }

  lemma {:induction false} SplitNoSeparator(s: string, c: char)
    requires c !in s
    ensures Split(s, c) == [s]
  {
    if s != [] {
      SplitNoSeparator(s[1..], c);
      assert [s[0]] + s[1..] == s;
    }
  }

  /** Splitting at a separator splits the two halves independently. */
  lemma {:induction false} SplitConcat(x: string, y: string, c: char)
    ensures Split(x + [c] + y, c) == Split(x, c) + Split(y, c)
  {
    if x == [] {
      assert ([c] + y)[1..] == y;
    } else {
      assert (x + [c] + y)[1..] == x[1..] + [c] + y;
      SplitConcat(x[1..], y, c);
    }
  }

  /** Joining and splitting at a character the pieces do not contain is a round trip. */
  lemma {:induction false} SplitJoin(parts: seq<string>, c: char)
    requires |parts| >= 1
    requires forall i :: 0 <= i < |parts| ==> c !in parts[i]
    ensures Split(Join(parts, [c]), c) == parts
  {
    if |parts| == 1 {
      SplitNoSeparator(parts[0], c);
    } else {
      SplitNoSeparator(parts[0], c);
      SplitJoin(parts[1..], c);
      SplitConcat(parts[0], Join(parts[1..], [c]), c);
    }
  }

  lemma {:induction false} JoinAppend(a: seq<string>, b: seq<string>, sep: string)
    requires |a| >= 1 && |b| >= 1
    ensures Join(a + b, sep) == Join(a, sep) + sep + Join(b, sep)
  {
    if |a| == 1 {
      assert (a + b)[1..] == b;
    } else {
      assert (a + b)[1..] == a[1..] + b;
      JoinAppend(a[1..], b, sep);
    }
  }

  /** Python's `str.strip()`: drops the `str.isspace` characters at both ends. */
  function Strip(s: string): string {
    StripRight(StripLeft(s))
  }

  function StripLeft(s: string): string {
    if s != [] && IsStrSpace(s[0]) then StripLeft(s[1..]) else s
  }

  function StripRight(s: string): string {
    if s != [] && IsStrSpace(s[|s| - 1]) then StripRight(s[..|s| - 1]) else s
  }

  predicate AllStrSpace(s: string) {
    forall i :: 0 <= i < |s| ==> IsStrSpace(s[i])
  }

  lemma {:induction false} StripLeftAppend(s: string, t: string)
    ensures StripLeft(s + t) == if StripLeft(s) == [] then StripLeft(t) else StripLeft(s) + t
  {
    if s == [] {
      assert s + t == t;
    } else {
      assert (s + t)[0] == s[0] && (s + t)[1..] == s[1..] + t;
      StripLeftAppend(s[1..], t);
    }
  }

  lemma {:induction false} StripLeftOfBlank(s: string)
    requires AllStrSpace(s)
    ensures StripLeft(s) == []
  {
    if s != [] {
      assert IsStrSpace(s[0]);
      StripLeftOfBlank(s[1..]);
    }
  }

  lemma {:induction false} StripRightOfBlank(s: string, blank: string)
    requires AllStrSpace(blank)
    ensures StripRight(s + blank) == StripRight(s)
    decreases |blank|
  {
    if blank == [] {
      assert s + blank == s;
    } else {
      assert (s + blank)[|s + blank| - 1] == blank[|blank| - 1];
      assert (s + blank)[..|s + blank| - 1] == s + blank[..|blank| - 1];
      StripRightOfBlank(s, blank[..|blank| - 1]);
    }
  }

  /** White space appended to a text does not survive `strip()`. */
  lemma {:induction false} StripIgnoresTrailingBlank(s: string, blank: string)
    requires AllStrSpace(blank)
    ensures Strip(s + blank) == Strip(s)
  {
    StripLeftAppend(s, blank);
    if StripLeft(s) == [] {
      StripLeftOfBlank(blank);
    } else {
      StripRightOfBlank(StripLeft(s), blank);
    }
  }

  /** Python's `bytes.rstrip()`: drops the ASCII white space at the end. */
  function TrimRight(s: string): (r: string)
    ensures r <= s
    ensures r == [] || !IsSpace(r[|r| - 1])
    ensures forall i :: |r| <= i < |s| ==> IsSpace(s[i])
  {
    if s != [] && IsSpace(s[|s| - 1]) then TrimRight(s[..|s| - 1]) else s
  }

  // ---------------------------------------------------------------------------
  // Decimal integers

  predicate AllDigits(s: string) {
    forall i :: 0 <= i < |s| ==> IsDigit(s[i])
  }

  function DigitsValue(s: string): nat
    requires AllDigits(s)
  {
    if s == [] then 0 else DigitsValue(s[..|s| - 1]) * 10 + (s[|s| - 1] as int - '0' as int)
  }

  /** Reads an optional sign followed by ASCII decimal digits; anything else is
      rejected. Python's `int` also accepts surrounding blanks and `_` between digits,
      which this reading leaves out. */
  function ParseInt(s: string): Option<int> {
    if |s| > 1 && (s[0] == '-' || s[0] == '+') && AllDigits(s[1..]) then
      Some(if s[0] == '-' then -(DigitsValue(s[1..]) as int) else DigitsValue(s[1..]))
    else if |s| > 0 && AllDigits(s) then Some(DigitsValue(s))
    else None
  }

  function NatToString(n: nat): (s: string)
    ensures |s| > 0 && AllDigits(s)
  {
    if n < 10 then [('0' as int + n) as char]
    else NatToString(n / 10) + [('0' as int + n % 10) as char]
  }

  /** Python's `str(n)` for an integer. */
  function IntToString(n: int): string {
    if n < 0 then "-" + NatToString(-n) else NatToString(n)
  }

  lemma {:induction false} DigitsOfNat(n: nat)
    ensures DigitsValue(NatToString(n)) == n
  {
    if n >= 10 {
      var s := NatToString(n);
      assert s[..|s| - 1] == NatToString(n / 10);
      DigitsOfNat(n / 10);
    }
  }

  /** Printing an integer and reading it back gives the same integer. */
  lemma ParseIntToString(n: int)
    ensures ParseInt(IntToString(n)) == Some(n)
  {
    if n < 0 {
      var s := IntToString(n);
      assert s[1..] == NatToString(-n);
      DigitsOfNat(-n);
    } else {
      DigitsOfNat(n);
    }
  }
}
