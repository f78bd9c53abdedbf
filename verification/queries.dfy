/** The query engine's matching semantics: field tests, the query combinators and the
    order-preserving selection of a catalog's items. */
module Queries {
  import opened Results
  import opened Text
  import opened Paths

  /** A stored field value: text, an integer, a flag, or a multi-valued text field. */
  datatype Value = Str(s: string) | Num(n: int) | Flag(b: bool) | List(ss: seq<string>)

  /** An item is its set of fields; a field that is absent (or `None`) has no entry. */
  type Item = map<string, Value>

  /** The separator the catalog stores between the entries of a multi-valued field. */
  const MultiValueDelimiter: string := "\\\U{2400}"

  /** The text the catalog stores for a value: integers in decimal, flags as `1`/`0`,
      multi-valued fields joined by the delimiter. */
  function Render(v: Value): string {
    match v
    case Str(s) => s
    case Num(n) => IntToString(n)
    case Flag(b) => if b then "1" else "0"
    case List(ss) => Join(ss, MultiValueDelimiter)
  }

  /** `as_string(item.get(field))`: the empty string for a missing field. */
  function FieldText(item: Item, field: string): string {
    if field in item then Render(item[field]) else ""
  }

  /** The value a numeric query compares: integers, flags as 0/1, and text that reads
      as an integer. */
  function NumericValue(v: Value): Option<int> {
    match v
    case Num(n) => Some(n)
    case Flag(b) => Some(if b then 1 else 0)
    case Str(s) => ParseInt(s)
    case List(_) => None
  }

  /** A numeric pattern: one value (`None` for an empty pattern) or an inclusive range
      whose missing ends are open. */
  datatype Bounds = Point(value: Option<int>) | Range(lo: Option<int>, hi: Option<int>)

  predicate WithinBounds(v: int, b: Bounds) {
    match b
    case Point(p) => p.None? || v == p.value
    case Range(lo, hi) => (lo.None? || lo.value <= v) && (hi.None? || v <= hi.value)
  }

  /** The test a field query applies to one field. */
  datatype Test =
    | Substring(pattern: string)     // case-insensitive containment
    | Regexp(pattern: string)        // regular-expression search
    | Exact(pattern: string)         // equality with the stored text
    | ExactNoCase(pattern: string)   // case-insensitive equality
    | Numeric(bounds: Bounds)
    | Boolean(truth: bool)
    | PathUnder(file: string, caseSensitive: bool)
    | IsNone

  /** The regular-expression engine: does `pattern` occur in `text`. */
  type Search = (string, string) -> bool

  predicate TestMatches(t: Test, item: Item, field: string, search: Search) {
    match t
    case Substring(p) => Contains(Lower(FieldText(item, field)), Lower(p))
    case Regexp(p) => search(p, FieldText(item, field))
    case Exact(p) => field in item && Render(item[field]) == p
    case ExactNoCase(p) => Lower(FieldText(item, field)) == Lower(p)
    case Numeric(b) =>
      field in item && NumericValue(item[field]).Some? && WithinBounds(NumericValue(item[field]).value, b)
    case Boolean(truth) =>
      field in item && (item[field] == Flag(truth) || item[field] == Num(if truth then 1 else 0))
    case PathUnder(file, cs) =>
      AtOrBelow(file, if cs then FieldText(item, field) else Lower(FieldText(item, field)))
    case IsNone => field !in item
  }

  /** A query: the constants, a test on one field or on any of several, and the
      Boolean combinators. */
  datatype Query =
    | All
    | Nothing
    | Field(field: string, test: Test)
    | AnyField(fields: seq<string>, test: Test)
    | Not(sub: Query)
    | And(subs: seq<Query>)
    | Or(subs: seq<Query>)

  predicate Matches(q: Query, item: Item, search: Search)
    ensures q.And? && q.subs == [] ==> Matches(q, item, search)
    ensures q.Or? && q.subs == [] ==> !Matches(q, item, search)
    ensures q.AnyField? && q.fields == [] ==> !Matches(q, item, search)
    decreases q
  {
    match q
    case All => true
    case Nothing => false
    case Field(f, t) => TestMatches(t, item, f, search)
    case AnyField(fs, t) => exists i :: 0 <= i < |fs| && TestMatches(t, item, fs[i], search)
    case Not(sub) => !Matches(sub, item, search)
    case And(qs) => forall i :: 0 <= i < |qs| ==> Matches(qs[i], item, search)
    case Or(qs) => exists i :: 0 <= i < |qs| && Matches(qs[i], item, search)
  }

  /** The items a query selects, in catalog order. */
  function Filter(items: seq<Item>, q: Query, search: Search): (r: seq<Item>)
    ensures forall x :: x in r <==> x in items && Matches(q, x, search)
    ensures |r| <= |items|
  {
    if items == [] then []
    else (if Matches(q, items[0], search) then [items[0]] else []) + Filter(items[1..], q, search)
  }

  /** Each query of a list, negated. */
  function Negated(qs: seq<Query>): (r: seq<Query>)
    ensures |r| == |qs| && forall i :: 0 <= i < |qs| ==> r[i] == Not(qs[i])
  {
    seq(|qs|, i requires 0 <= i < |qs| => Not(qs[i]))
  }

  // ---------------------------------------------------------------------------
  // Laws of the combinators

  /** A query and its negation split the catalog: every item lands in exactly one of
      the two results. */
  lemma {:induction false} ComplementPartition(items: seq<Item>, q: Query, search: Search)
    ensures multiset(Filter(items, q, search)) + multiset(Filter(items, Not(q), search)) == multiset(items)
  {
    if items != [] {
      ComplementPartition(items[1..], q, search);
      FilterCons(items, q, search);
      FilterCons(items, Not(q), search);
      HeadLandsOnce(items[0], q, search);
      CombineParts(items, Kept(items[0], q, search), Kept(items[0], Not(q), search),
        Filter(items[1..], q, search), Filter(items[1..], Not(q), search),
        Filter(items, q, search), Filter(items, Not(q), search));
    }
  }

  /** The head of a catalog as the filter keeps it: itself or nothing. */
  function Kept(h: Item, q: Query, search: Search): (r: seq<Item>)
    ensures r == [] || r == [h]
  {
    if Matches(q, h, search) then [h] else []
  }

  lemma FilterCons(items: seq<Item>, q: Query, search: Search)
    requires items != []
    ensures Filter(items, q, search) == Kept(items[0], q, search) + Filter(items[1..], q, search)
  {
  }

  lemma HeadLandsOnce(h: Item, q: Query, search: Search)
    ensures multiset(Kept(h, q, search)) + multiset(Kept(h, Not(q), search)) == multiset{h}
  {
  }

  lemma CombineParts<T>(s: seq<T>, xa: seq<T>, xb: seq<T>, ya: seq<T>, yb: seq<T>, ra: seq<T>, rb: seq<T>)
    requires s != [] && ra == xa + ya && rb == xb + yb
    requires multiset(xa) + multiset(xb) == multiset{s[0]}
    requires multiset(ya) + multiset(yb) == multiset(s[1..])
    ensures multiset(ra) + multiset(rb) == multiset(s)
  {
    assert s == [s[0]] + s[1..];
  }

  /** No item is selected both by a query and by its negation. */
  lemma ComplementDisjoint(items: seq<Item>, q: Query, search: Search)
    ensures forall x :: !(x in Filter(items, q, search) && x in Filter(items, Not(q), search))
  {
  }

  /** `q or not q` selects the whole catalog. */
  lemma {:induction false} ExcludedMiddle(items: seq<Item>, q: Query, search: Search)
    ensures Filter(items, Or([q, Not(q)]), search) == items
  {
    if items != [] {
      ExcludedMiddle(items[1..], q, search);
      assert Matches(Or([q, Not(q)]), items[0], search) by {
        if !Matches(q, items[0], search) {
          assert [q, Not(q)][1] == Not(q);
        } else {
          assert [q, Not(q)][0] == q;
        }
      }
      assert items == [items[0]] + items[1..];
    }
  }

  /** `q and not q` selects nothing. */
  lemma {:induction false} NoContradiction(items: seq<Item>, q: Query, search: Search)
    ensures Filter(items, And([q, Not(q)]), search) == []
  {
    if items != [] {
      NoContradiction(items[1..], q, search);
      assert !Matches(And([q, Not(q)]), items[0], search) by {
        assert [q, Not(q)][0] == q && [q, Not(q)][1] == Not(q);
      }
    }
  }

  /** Negating twice selects exactly what the query selects, in the same order. */
  lemma {:induction false} DoubleNegation(items: seq<Item>, q: Query, search: Search)
    ensures Filter(items, Not(Not(q)), search) == Filter(items, q, search)
  {
    if items != [] {
      DoubleNegation(items[1..], q, search);
      assert Matches(Not(Not(q)), items[0], search) == Matches(q, items[0], search);
    }
  }

  /** De Morgan: `not (a and b ...)` is `(not a) or (not b) ...`, and dually. */
  lemma DeMorgan(qs: seq<Query>, item: Item, search: Search)
    ensures Matches(Not(And(qs)), item, search) <==> Matches(Or(Negated(qs)), item, search)
    ensures Matches(Not(Or(qs)), item, search) <==> Matches(And(Negated(qs)), item, search)
  {
    var nq := Negated(qs);
    if !Matches(And(qs), item, search) {
      var i :| 0 <= i < |qs| && !Matches(qs[i], item, search);
      assert Matches(nq[i], item, search);
    }
    if Matches(Or(qs), item, search) {
      var i :| 0 <= i < |qs| && Matches(qs[i], item, search);
      assert !Matches(nq[i], item, search);
    }
  }

  lemma AndSnoc(qs: seq<Query>, q: Query, item: Item, search: Search)
    ensures Matches(And(qs + [q]), item, search) <==> Matches(And(qs), item, search) && Matches(q, item, search)
  {
    var all := qs + [q];
    assert all[|qs|] == q;
    if Matches(And(qs), item, search) && Matches(q, item, search) {
      forall i | 0 <= i < |all| ensures Matches(all[i], item, search) {
        if i < |qs| {
          assert all[i] == qs[i];
        }
      }
    }
    if Matches(And(all), item, search) {
      forall i | 0 <= i < |qs| ensures Matches(qs[i], item, search) {
        assert all[i] == qs[i];
      }
    }
  }

  /** One more conjunct filters the previous result further: the selection narrows and
      keeps its order. */
  lemma {:induction false} AndNarrows(items: seq<Item>, qs: seq<Query>, q: Query, search: Search)
    ensures Filter(items, And(qs + [q]), search) == Filter(Filter(items, And(qs), search), q, search)
  {
    if items != [] {
      var h, t := items[0], items[1..];
      AndNarrows(t, qs, q, search);
      AndSnoc(qs, q, h, search);
      if Matches(And(qs), h, search) {
        assert Filter(items, And(qs), search) == [h] + Filter(t, And(qs), search);
        assert ([h] + Filter(t, And(qs), search))[1..] == Filter(t, And(qs), search);
      } else {
        assert Filter(items, And(qs), search) == Filter(t, And(qs), search);
      }
    }
  }

  /** The empty conjunction selects everything and the empty disjunction nothing. */
  lemma {:induction false} EmptyCombinators(items: seq<Item>, search: Search)
    ensures Filter(items, And([]), search) == items
    ensures Filter(items, Or([]), search) == []
  {
    if items != [] {
      EmptyCombinators(items[1..], search);
    }
  }

  // ---------------------------------------------------------------------------
  // Laws of the field tests

  /** A field the item lacks matches no substring, exact or case-insensitive exact
      test with a non-empty pattern. */
  lemma {:induction false} UnknownFieldMatchesNothing(item: Item, field: string, p: string, search: Search)
    requires field !in item && p != ""
    ensures !TestMatches(Substring(p), item, field, search)
    ensures !TestMatches(Exact(p), item, field, search)
    ensures !TestMatches(ExactNoCase(p), item, field, search)
    ensures forall t :: t in {Substring(p), Exact(p), ExactNoCase(p)} ==> !Matches(Field(field, t), item, search)
  {
    assert FieldText(item, field) == "";
    assert |Lower(p)| > 0;
  }

  /** A single numeric value is the degenerate range from that value to itself, and
      both select exactly the items whose field holds that number. */
  lemma PointIsDegenerateRange(item: Item, field: string, n: int, search: Search)
    ensures TestMatches(Numeric(Point(Some(n))), item, field, search)
        <==> TestMatches(Numeric(Range(Some(n), Some(n))), item, field, search)
    ensures TestMatches(Numeric(Point(Some(n))), item, field, search)
        <==> field in item && NumericValue(item[field]) == Some(n)
  {
  }

  /** A fact of the test definitions: a numeric test compares values, not text, so it
      never matches a value that merely starts with the pattern's digits. The parsed
      form of this is `QueryParse.NumericPartComparesValues`. */
  lemma NumericIsNotSubstring(item: Item, field: string, n: int, m: int, search: Search)
    requires field in item && item[field] == Num(m) && m != n
    ensures !TestMatches(Numeric(Point(Some(n))), item, field, search)
  {
  }

  /** A fact of the test definitions: a numeric test never matches a field the item
      lacks, whatever the bounds. */
  lemma NumericNeedsField(item: Item, field: string, b: Bounds, search: Search)
    requires field !in item
    ensures !TestMatches(Numeric(b), item, field, search)
    ensures TestMatches(IsNone, item, field, search)
  {
  }

  /** On a flag or integer field, a Boolean test is an exact match on the stored 1 or 0. */
  lemma BooleanIsExactOnStoredInt(item: Item, field: string, truth: bool, search: Search)
    requires field in item && (item[field].Flag? || item[field].Num?)
    ensures TestMatches(Boolean(truth), item, field, search)
        <==> TestMatches(Exact(if truth then "1" else "0"), item, field, search)
  {
    var v := item[field];
    if v.Num? {
      assert Render(v) == IntToString(v.n);
      ParseIntToString(v.n);
      if truth {
        assert ParseInt("1") == Some(1) && IntToString(1) == "1";
        assert Render(v) == "1" <==> v.n == 1;
      } else {
        assert ParseInt("0") == Some(0) && IntToString(0) == "0";
        assert Render(v) == "0" <==> v.n == 0;
      }
    }
  }

  /** A fact of the test definitions: a Boolean test and its opposite split the
      flag-valued items. */
  lemma BooleanComplement(item: Item, field: string, search: Search)
    requires field in item && item[field].Flag?
    ensures TestMatches(Boolean(true), item, field, search) != TestMatches(Boolean(false), item, field, search)
  {
  }

  /** The case-insensitive exact test agrees with the case-sensitive one on folded
      text, and is implied by it. */
  lemma ExactImpliesExactNoCase(item: Item, field: string, p: string, search: Search)
    requires TestMatches(Exact(p), item, field, search)
    ensures TestMatches(ExactNoCase(p), item, field, search)
    ensures TestMatches(Substring(p), item, field, search)
  {
    var s := FieldText(item, field);
    assert Lower(s) <= Lower(s);
  }
}
