/**
 * Album-level field alignment of an import unit (an album task): before an
 * album is committed, its tracks are made to agree on the album artist and
 * on the compilation flag.
 */
module Align {
  import opened Results

  /** The decision taken for an import unit. `Apply` is implied by choosing a candidate. */
  datatype Action = Skip | AsIs | Tracks | Albums | Apply | Retag

  /** A track's metadata: the fields alignment reads or writes, plus its title. */
  datatype Track = Track(
    title: string,
    artist: string,
    artists: seq<string>,
    mbArtistId: string,
    mbArtistIds: seq<string>,
    albumArtist: string,
    albumArtists: seq<string>,
    mbAlbumArtistId: string,
    mbAlbumArtistIds: seq<string>,
    comp: bool)

  /** The default label of a various-artists album. */
  const VariousArtists := "Various Artists"

  datatype AlignError = EmptyUnit

  /*** Plurality ***/

  /** Index of the first occurrence of `v` in `xs`. */
  function FirstIndex<T(==,!new)>(xs: seq<T>, v: T): (i: nat)
    requires v in xs
    ensures i < |xs| && xs[i] == v && v !in xs[..i]
  {
    if xs[0] == v then 0
    else
      var k := FirstIndex(xs[1..], v);
      assert xs[..k + 1] == [xs[0]] + xs[1..][..k];
      k + 1
  }

  /** A value whose first occurrence comes first among the most frequent values. */
  ghost predicate IsPlurality<T(!new)>(xs: seq<T>, v: T, freq: nat) {
    && v in xs
    && freq == multiset(xs)[v]
    && (forall w :: multiset(xs)[w] <= freq)
    && (forall j :: 0 <= j < FirstIndex(xs, v) ==> multiset(xs)[xs[j]] < freq)
  }

  lemma FirstIndexOfNew<T(!new)>(xs: seq<T>, i: nat)
    requires i < |xs| && xs[i] !in xs[..i]
    ensures FirstIndex(xs, xs[i]) == i
  {
    var k := FirstIndex(xs, xs[i]);
  }

  lemma BoundedEverywhere<T(!new)>(xs: seq<T>, freq: nat)
    requires forall j :: 0 <= j < |xs| ==> multiset(xs)[xs[j]] <= freq
    ensures forall w :: multiset(xs)[w] <= freq
  {
    forall w
      ensures multiset(xs)[w] <= freq
    {
      if w in xs {
        var j :| 0 <= j < |xs| && xs[j] == w;
      }
    }
  }

  /** Scans `xs` from index `i`, keeping the first most frequent value seen so far. */
  function PluralityFrom<T(==,!new)>(xs: seq<T>, i: nat, best: T): (r: (T, nat))
    requires 0 < i <= |xs| && best in xs[..i]
    requires forall j :: 0 <= j < i ==> multiset(xs)[xs[j]] <= multiset(xs)[best]
    requires forall j :: 0 <= j < FirstIndex(xs, best) ==> multiset(xs)[xs[j]] < multiset(xs)[best]
    ensures IsPlurality(xs, r.0, r.1)
    decreases |xs| - i
  {
    if i == |xs| then
      assert xs[..i] == xs;
      BoundedEverywhere(xs, multiset(xs)[best]);
      (best, multiset(xs)[best])
    else if multiset(xs)[xs[i]] > multiset(xs)[best] then
      assert forall j :: 0 <= j < i ==> xs[..i][j] == xs[j];
      FirstIndexOfNew(xs, i);
      assert xs[..i + 1][i] == xs[i];
      PluralityFrom(xs, i + 1, xs[i])
    else
      assert xs[..i] <= xs[..i + 1];
      PluralityFrom(xs, i + 1, best)
  }

  /**
   * The most common value and its count; among equally common values the
   * one seen first wins. An empty sequence has no plurality.
   */
  function Plurality<T(==,!new)>(xs: seq<T>): (r: Option<(T, nat)>)
    ensures r.None? <==> xs == []
    ensures r.Some? ==> IsPlurality(xs, r.value.0, r.value.1)
  {
    if xs == [] then None
    else
      assert xs[..1] == [xs[0]];
      Some(PluralityFrom(xs, 1, xs[0]))
  }

  /*** Alignment ***/

  /** The artist a track names for its album: its album artist, or else its artist. */
  function AlbumArtistKey(t: Track): string {
    if t.albumArtist != "" then t.albumArtist else t.artist
  }

  function Keys(ts: seq<Track>): (ks: seq<string>)
    ensures |ks| == |ts| && forall i :: 0 <= i < |ts| ==> ks[i] == AlbumArtistKey(ts[i])
  {
    seq(|ts|, i requires 0 <= i < |ts| => AlbumArtistKey(ts[i]))
  }

  /**
   * Whether the most common artist, appearing `freq` times among `n` tracks,
   * makes the album a single-artist album: it covers every track, or it
   * appears at least twice and on at least a quarter of the tracks.
   */
  predicate SingleArtist(freq: nat, n: nat) {
    freq == n || (freq > 1 && 4 * freq >= n)
  }

  /** Track-level fields alignment never writes. */
  predicate TrackFieldsKept(a: Track, b: Track) {
    && a.title == b.title
    && a.artist == b.artist
    && a.artists == b.artists
    && a.mbArtistId == b.mbArtistId
    && a.mbArtistIds == b.mbArtistIds
  }

  /** Under APPLY or RETAG, the album-artist fields empty on the first track are copied from its artist fields. */
  function FillFromFirst(t: Track, first: Track): Track {
    t.(albumArtist := if first.albumArtist == "" then first.artist else t.albumArtist,
       albumArtists := if first.albumArtists == [] then first.artists else t.albumArtists,
       mbAlbumArtistId := if first.mbAlbumArtistId == "" then first.mbArtistId else t.mbAlbumArtistId,
       mbAlbumArtistIds := if first.mbAlbumArtistIds == [] then first.mbArtistIds else t.mbAlbumArtistIds)
  }

  /**
   * Aligns the album-level fields of a unit's tracks for the unit's action.
   * AS-IS guesses between a single-artist album and a various-artists
   * compilation from the tracks' artists; APPLY and RETAG fill missing
   * album-artist fields from the first track; other actions change nothing.
   * Guessing or filling needs at least one track.
   */
  function AlignAlbumFields(ts: seq<Track>, action: Action, vaName: string): (r: Result<seq<Track>, AlignError>)
    ensures r.Err? <==> ts == [] && action in {AsIs, Apply, Retag}
    ensures r.Ok? ==> |r.value| == |ts| && forall i :: 0 <= i < |ts| ==> TrackFieldsKept(r.value[i], ts[i])
    ensures r.Ok? && action !in {AsIs, Apply, Retag} ==> r.value == ts
    ensures r.Ok? && action == AsIs ==>
      forall i :: 0 <= i < |ts| ==>
        && r.value[i].albumArtist == r.value[0].albumArtist && r.value[i].comp == r.value[0].comp
        && r.value[i].albumArtists == ts[i].albumArtists
        && r.value[i].mbAlbumArtistId == ts[i].mbAlbumArtistId
        && r.value[i].mbAlbumArtistIds == ts[i].mbAlbumArtistIds
    ensures r.Ok? && action in {Apply, Retag} ==>
      forall i :: 0 <= i < |ts| ==> r.value[i].comp == ts[i].comp
  {
    match action
    case AsIs =>
      (match Plurality(Keys(ts))
       case None => Err(EmptyUnit)
       case Some(p) =>
         var single := SingleArtist(p.1, |ts|);
         var aa := if single then p.0 else vaName;
         Ok(seq(|ts|, i requires 0 <= i < |ts| => ts[i].(albumArtist := aa, comp := !single))))
    case Apply =>
      if ts == [] then Err(EmptyUnit)
      else Ok(seq(|ts|, i requires 0 <= i < |ts| => FillFromFirst(ts[i], ts[0])))
    case Retag =>
      if ts == [] then Err(EmptyUnit)
      else Ok(seq(|ts|, i requires 0 <= i < |ts| => FillFromFirst(ts[i], ts[0])))
    case _ => Ok(ts)
  }

  /*** Laws ***/

  lemma {:induction false} CountsAtMostLength<T>(xs: seq<T>, a: T, b: T)
    requires a != b
    ensures multiset(xs)[a] + multiset(xs)[b] <= |xs|
  {
    if xs != [] {
      CountsAtMostLength(xs[1..], a, b);
      assert xs == [xs[0]] + xs[1..];
    }
  }

  lemma {:induction false} CountOfUniform<T>(xs: seq<T>, a: T)
    requires forall i :: 0 <= i < |xs| ==> xs[i] == a
    ensures multiset(xs)[a] == |xs|
  {
    if xs != [] {
      CountOfUniform(xs[1..], a);
      assert xs == [xs[0]] + xs[1..];
    }
  }

  lemma CountOfDistinct<T>(xs: seq<T>, i: nat)
    requires i < |xs|
    requires forall j, k :: 0 <= j < k < |xs| ==> xs[j] != xs[k]
    ensures multiset(xs)[xs[i]] == 1
  {
    var x, a, b := xs[i], xs[..i], xs[i + 1..];
    assert xs == a + [x] + b;
    assert x !in a by {
      forall k | 0 <= k < |a| ensures a[k] != x {
        assert a[k] == xs[k];
      }
    }
    assert x !in b by {
      forall k | 0 <= k < |b| ensures b[k] != x {
        assert b[k] == xs[i + 1 + k];
      }
    }
    assert multiset(xs) == multiset(a) + multiset{x} + multiset(b);
  }

  /** The first most frequent value is unique: the plurality is a function of the sequence. */
  lemma PluralityUnique<T(!new)>(xs: seq<T>, v: T, f: nat, w: T, g: nat)
    requires IsPlurality(xs, v, f) && IsPlurality(xs, w, g)
    ensures v == w && f == g
  {
    assert f == g by {
      assert multiset(xs)[w] <= f && multiset(xs)[v] <= g;
    }
    var i, j := FirstIndex(xs, v), FirstIndex(xs, w);
    assert !(j < i) by {
      assert forall k :: 0 <= k < i ==> multiset(xs)[xs[k]] < f;
      assert multiset(xs)[xs[j]] == g;
    }
    assert !(i < j) by {
      assert forall k :: 0 <= k < j ==> multiset(xs)[xs[k]] < g;
      assert multiset(xs)[xs[i]] == f;
    }
    assert v == xs[i] == xs[j] == w;
  }

  /**
   * AS-IS decides from the plurality of the tracks' artist keys: its artist
   * becomes every track's album artist when it covers all tracks, or appears
   * at least twice on at least a quarter of them; otherwise every track gets
   * the various-artists label. The compilation flag is set exactly in the
   * second case.
   */
  lemma AsIsChoosesPlurality(ts: seq<Track>, vaName: string, v: string, freq: nat)
    requires IsPlurality(Keys(ts), v, freq)
    ensures var r := AlignAlbumFields(ts, AsIs, vaName);
      && r.Ok?
      && forall i :: 0 <= i < |ts| ==>
        && r.value[i].albumArtist == (if SingleArtist(freq, |ts|) then v else vaName)
        && r.value[i].comp == !SingleArtist(freq, |ts|)
  {
    var p := Plurality(Keys(ts)).value;
    PluralityUnique(Keys(ts), p.0, p.1, v, freq);
  }

  /**
   * AS-IS with every track naming the same artist (through its album artist,
   * or its artist when that is empty) yields that artist as album artist and
   * clears the compilation flag; a one-track album is the smallest case.
   */
  lemma AsIsUniformArtist(ts: seq<Track>, a: string, vaName: string)
    requires ts != [] && forall i :: 0 <= i < |ts| ==> AlbumArtistKey(ts[i]) == a
    ensures var r := AlignAlbumFields(ts, AsIs, vaName);
      r.Ok? && forall i :: 0 <= i < |ts| ==> r.value[i].albumArtist == a && !r.value[i].comp
  {
    var ks := Keys(ts);
    CountOfUniform(ks, a);
    var p := Plurality(ks).value;
    assert p.0 == a by {
      if p.0 != a {
        CountsAtMostLength(ks, p.0, a);
      }
    }
  }

  /** AS-IS with an artist named by more than half the tracks makes it the album artist, not a compilation. */
  lemma AsIsMajorityArtist(ts: seq<Track>, a: string, vaName: string)
    requires 2 * multiset(Keys(ts))[a] > |ts|
    ensures var r := AlignAlbumFields(ts, AsIs, vaName);
      r.Ok? && forall i :: 0 <= i < |ts| ==> r.value[i].albumArtist == a && !r.value[i].comp
  {
    var ks := Keys(ts);
    var p := Plurality(ks).value;
    if p.0 != a {
      CountsAtMostLength(ks, p.0, a);
      assert false;
    }
    assert SingleArtist(p.1, |ts|);
  }

  /** AS-IS over two or more tracks that all name different artists makes a various-artists compilation. */
  lemma AsIsDistinctArtists(ts: seq<Track>, vaName: string)
    requires |ts| >= 2
    requires forall j, k :: 0 <= j < k < |ts| ==> AlbumArtistKey(ts[j]) != AlbumArtistKey(ts[k])
    ensures var r := AlignAlbumFields(ts, AsIs, vaName);
      r.Ok? && forall i :: 0 <= i < |ts| ==> r.value[i].albumArtist == vaName && r.value[i].comp
  {
    var ks := Keys(ts);
    var p := Plurality(ks).value;
    var j := FirstIndex(ks, p.0);
    CountOfDistinct(ks, j);
    assert !SingleArtist(p.1, |ts|);
  }

  /**
   * Under APPLY or RETAG, the first track decides: when its album artist is
   * empty every track gets the first track's artist, and otherwise every
   * track keeps its own album artist; the same holds for the album-artist id.
   */
  lemma ApplyTakesFirstTrack(ts: seq<Track>, action: Action, vaName: string)
    requires ts != [] && action in {Apply, Retag}
    ensures var r := AlignAlbumFields(ts, action, vaName);
      && r.Ok?
      && forall i :: 0 <= i < |ts| ==>
        && r.value[i].albumArtist == (if ts[0].albumArtist != "" then ts[i].albumArtist else ts[0].artist)
        && r.value[i].mbAlbumArtistId == (if ts[0].mbAlbumArtistId != "" then ts[i].mbAlbumArtistId else ts[0].mbArtistId)
  {
  }

  /** Aligning twice under APPLY or RETAG changes nothing more. */
  lemma ApplyIdempotent(ts: seq<Track>, action: Action, vaName: string)
    requires ts != [] && action in {Apply, Retag}
    ensures var r := AlignAlbumFields(ts, action, vaName);
      r.Ok? && AlignAlbumFields(r.value, action, vaName) == r
  {
    var r := AlignAlbumFields(ts, action, vaName).value;
    var r2 := AlignAlbumFields(r, action, vaName).value;
    assert r2 == r by {
      forall i | 0 <= i < |r|
        ensures r2[i] == r[i]
      {
      }
    }
  }

  /**
   * Aligning an AS-IS album twice keeps its album artist, as long as the
   * first pass chose a non-empty one.
   */
  lemma AsIsRealignKeepsAlbumArtist(ts: seq<Track>, vaName: string)
    requires ts != []
    ensures var r := AlignAlbumFields(ts, AsIs, vaName);
      && r.Ok?
      && (r.value[0].albumArtist != "" ==>
            var r2 := AlignAlbumFields(r.value, AsIs, vaName);
            r2.Ok? && forall i :: 0 <= i < |ts| ==> r2.value[i].albumArtist == r.value[i].albumArtist)
  {
    var r := AlignAlbumFields(ts, AsIs, vaName).value;
    if r[0].albumArtist != "" {
      AsIsUniformArtist(r, r[0].albumArtist, vaName);
    }
  }

  /**
   * Aligning twice is not idempotent on the compilation flag: a
   * various-artists album aligned again is seen as a single-artist album
   * named after the various-artists label, and its flag is cleared.
   */
  lemma AsIsRealignClearsCompilation(ts: seq<Track>, vaName: string)
    requires ts != [] && vaName != ""
    ensures var r := AlignAlbumFields(ts, AsIs, vaName);
      && r.Ok?
      && (r.value[0].comp ==>
            var r2 := AlignAlbumFields(r.value, AsIs, vaName);
            r2.Ok? && forall i :: 0 <= i < |ts| ==> !r2.value[i].comp && r2.value[i].albumArtist == vaName)
  {
    var r := AlignAlbumFields(ts, AsIs, vaName).value;
    if r[0].comp {
      AsIsUniformArtist(r, vaName, vaName);
    }
  }

  /*** Examples ***/

  function Plain(title: string, artist: string): Track {
    Track(title, artist, [], "", [], "", [], "", [], false)
  }

  /** Two of three tracks by one artist: that artist, no compilation. */
  lemma MajorityExample()
    ensures var r := AlignAlbumFields([Plain("first item", "another artist"), Plain("second item", "the artist"), Plain("third item", "the artist")], AsIs, VariousArtists);
      r.Ok? && r.value[0].albumArtist == "the artist" && !r.value[0].comp
  {
    var ts := [Plain("first item", "another artist"), Plain("second item", "the artist"), Plain("third item", "the artist")];
    assert Keys(ts) == ["another artist", "the artist", "the artist"];
    assert multiset(Keys(ts))["the artist"] == 2;
    AsIsMajorityArtist(ts, "the artist", VariousArtists);
  }

  /** Two of four tracks by one artist, a quarter or more: that artist, no compilation. */
  lemma QuarterArtistExample()
    ensures var r := AlignAlbumFields([Plain("1", "A"), Plain("2", "A"), Plain("3", "B"), Plain("4", "C")], AsIs, VariousArtists);
      r.Ok? && forall i :: 0 <= i < 4 ==> r.value[i].albumArtist == "A" && !r.value[i].comp
  {
    var ts := [Plain("1", "A"), Plain("2", "A"), Plain("3", "B"), Plain("4", "C")];
    var ks := Keys(ts);
    assert ks == ["A", "A", "B", "C"];
    assert multiset(ks) == multiset{"A", "A", "B", "C"};
    assert FirstIndex(ks, "A") == 0;
    forall w
      ensures multiset(ks)[w] <= 2
    {
    }
    AsIsChoosesPlurality(ts, VariousArtists, "A", 2);
  }

  /** Three different artists: "Various Artists" and a compilation. */
  lemma VariousArtistsExample()
    ensures var r := AlignAlbumFields([Plain("first item", "another artist"), Plain("second item", "some other artist"), Plain("third item", "the artist")], AsIs, VariousArtists);
      r.Ok? && forall i :: 0 <= i < 3 ==> r.value[i].albumArtist == "Various Artists" && r.value[i].comp
  {
    var ts := [Plain("first item", "another artist"), Plain("second item", "some other artist"), Plain("third item", "the artist")];
    AsIsDistinctArtists(ts, VariousArtists);
  }
}
