# beets import core, queries, pipeline, play and keyfinder — a Dafny model

This project models, as pure functions over immutable data, the behaviour
that the beets music organiser's own test suite pins down. It covers:

- **Album-level field alignment** (`Align`): how an import unit's album
  artist and compilation flag are chosen under AS-IS, APPLY and RETAG.
- **Duplicate detection and resolution** (`Duplicates`): the duplicate key
  as a projection onto configured fields, and the SKIP, KEEPBOTH, REMOVE
  and MERGE resolutions as catalog transformers.
- **Album discovery** (`Grouping`): `albums_in_dir` over a directory
  tree, sorted by name, with multi-disc coalescing of nested and flattened
  disc folders.
- **Resume bookkeeping** (`Resume`): the recorded progress of an import
  session, and a re-run that skips what was committed before an abort.
- **The query language** (`Queries`, `QueryParse`): query values and their
  `Matches` semantics, the Not/And/Or combinators, and the parsing of query
  strings into them. Parsing covers shell splitting, `key:` prefixes, the
  `-`/`^` negations, `=`, `=~` and `:` kinds, numeric ranges, boolean
  words, path queries and comma alternatives.
- **The sequential pipeline** (`Pipeline`): `pull` and `run_sequential`
  over producer, worker and consumer stages, with `BUBBLE`, `multiple`,
  the `stage` and `mutator_stage` decorators, and raised exceptions.
- **The play plugin** (`Play`): the `$args` command template, the
  playlist text, `relative_to`, `use_folders`, raw mode and the
  warning-threshold prompt.
- **The keyfinder plugin** (`KeyFinder`): the analyser's command line,
  taking the last word of its output, key-name normalisation, and the
  overwrite rule.

`Results`, `Text` and `Paths` hold the shared vocabulary:

- `Option`/`Result`;
- Python's `str` operations (`replace`, `split`, `join`, `strip`, `int`);
- POSIX path handling (`abspath`, `normpath`, `relpath`, `dirname`).

The outside world is a parameter of the model:

- the file system's case sensitivity and which paths exist;
- the regular-expression engine;
- the disc-marker pattern;
- the analyser the keyfinder runs;
- the user's answers to prompts;
- whether the opener fails.

Each operation comes with laws relating it to a partner: an inverse, a
reference definition or a preserved invariant. Lemmas in `*_examples.dfy`
and the example sections reproduce the tests' concrete scenarios.

## Model

| member | source | states |
|---|---|---|
| Align.AlignAlbumFields | test/test_importer.py:809-901 | An empty unit is an error exactly for AS-IS, APPLY and RETAG. Otherwise every track comes back with its track-level fields unchanged. Other actions change nothing. AS-IS gives all tracks one album artist and one compilation flag and keeps the album-artist ids and lists. APPLY/RETAG never touch the flag. |
| Align.AsIsChoosesPlurality | test/test_importer.py:828-862 | AS-IS takes the most frequent artist key, first seen on ties. It becomes every track's album artist, without the compilation flag, when it covers all tracks or appears at least twice on at least a quarter of them. Otherwise every track gets the various-artists label and the flag. |
| Align.PluralityUnique | test/test_importer.py:855-862 | Only one value and count satisfy the plurality rule, so the chosen artist is determined by the tracks alone |
| Align.Plurality | test/test_importer.py:855-862 | The most frequent album-artist key, ties going to the first seen; none exactly for an empty album |
| Align.AsIsUniformArtist | test/test_importer.py:828-832 | AS-IS over tracks that all name one artist (through album artist, else artist) sets that artist and clears the compilation flag, the one-track album included (lines 896-901, 545-550, 864-875) |
| Align.AsIsMajorityArtist | test/test_importer.py:855-862 | AS-IS with an artist on more than half the tracks makes it the album artist, not a compilation (also lines 575-585) |
| Align.AsIsDistinctArtists | test/test_importer.py:834-853 | AS-IS over two or more tracks with pairwise different artists sets the various-artists label and the compilation flag on every track (also lines 552-573) |
| Align.ApplyTakesFirstTrack | test/test_importer.py:877-894 | Under APPLY/RETAG an empty album artist (id) on the first track is filled on every track from the first track's artist (id); a set one leaves each track's own value |
| Align.ApplyIdempotent | test/test_importer.py:877-894 | Aligning an APPLY/RETAG unit a second time changes nothing |
| Align.AsIsRealignKeepsAlbumArtist | test/test_importer.py:828-862 | Re-aligning an AS-IS result keeps the album artist it chose |
| Align.AsIsRealignClearsCompilation | test/test_importer.py:834-853 | Re-aligning a various-artists AS-IS result keeps the label but clears the compilation flag: alignment is not idempotent on the flag |
| Align.MajorityExample | test/test_importer.py:855-862 | The three-track scenario with one dissenting artist: the majority artist, no compilation |
| Align.VariousArtistsExample | test/test_importer.py:834-853 | The three-distinct-artists scenario: "Various Artists" and a compilation on every track |
| Duplicates.Select | test/test_importer.py:919-933 | The kept entries are exactly those of the catalog on which the test holds, and no more of them than there were |
| Duplicates.SelectPartition | test/test_importer.py:919-933 | An entry selection and its complement together make up the whole catalog, as multisets |
| Duplicates.DuplicatesPartition | test/test_importer.py:919-933 | Duplicates and non-duplicates partition the catalog, in number and as multisets |
| Duplicates.FilesPartition | test/test_importer.py:919-933 | Splitting the catalog into duplicates and others neither loses nor invents a file |
| Duplicates.InLibrary | test/test_importer.py:934-946 | The files deleted are exactly the given ones lying below the library directory |
| Duplicates.IsDuplicate | test/test_importer.py:919-1017 | A duplicate agrees with the unit on every key field, the album's artist standing in for its album artist. It never has exactly the unit's files. |
| Duplicates.ImportUnit | test/test_importer.py:948-970 | One unit through the importer: the catalog grows by at most one entry, and only catalog files inside the library are ever deleted. With autotagging off the unit is added and nothing is deleted. |
| Duplicates.Decide | test/test_importer.py:934-995 | A skipped unit is never imported. A resolution other than plain import needs a duplicate and an importing action. Without duplicates an imported unit is simply added. |
| Duplicates.Commit | test/test_importer.py:934-995 | Only duplicates' files inside the library are deleted, and the catalog grows by at most one entry. A skip changes nothing. Without duplicates the unit is appended. |
| Duplicates.SkipKeepsCatalog | test/test_importer.py:979-989 | SKIP on a found duplicate leaves the catalog untouched and deletes nothing |
| Duplicates.KeepBothAddsEntry | test/test_importer.py:972-977 | KEEPBOTH appends exactly the unit after all existing entries and deletes nothing |
| Duplicates.RemoveReplacesDuplicates | test/test_importer.py:934-946 | REMOVE leaves exactly the non-duplicate entries, in catalog order, followed by the unit. It deletes exactly the duplicates' files inside the library. |
| Duplicates.MergeKeepsEveryFile | test/test_importer.py:991-995 | MERGE leaves exactly the non-duplicate entries, in order, followed by one entry. That entry has the unit's fields, then the unit's files followed by the duplicates' files. No file is lost or deleted: afterwards the catalog's files are those before plus the unit's. |
| Duplicates.NoAutotagKeepsDuplicates | test/test_importer.py:948-970 | Without autotagging the duplicate check is not reached: every entry stays, the unit is added, nothing is deleted |
| Duplicates.ExtraKeyNarrows | test/test_importer.py:1000-1017 | A duplicate under a key with one more field is a duplicate under the shorter key |
| Duplicates.DifferingExtraFieldIsNoDuplicate | test/test_importer.py:1087-1097 | Differing on the extra key field rules out being a duplicate |
| Duplicates.ExtraKeyFindsFewer | test/test_importer.py:1000-1017 | The duplicates found with a longer key are among those found with the shorter one |
| Duplicates.NoArtistNoDuplicates | test/test_importer.py:919-933 | An album unit without an artist has no duplicates |
| Duplicates.RemoveExample | test/test_importer.py:934-946 | One album in the library, REMOVE: only the new album remains and the old file is deleted |
| Duplicates.OtherResolutionsExample | test/test_importer.py:972-995 | The same setup: SKIP keeps one album, KEEPBOTH holds two, MERGE holds one |
| Duplicates.NoAutotagExample | test/test_importer.py:948-970 | The same setup with autotagging off and REMOVE: both albums are kept and nothing is deleted |
| Duplicates.ExtraKeyExample | test/test_importer.py:1000-1017 | An extra key field on which the albums differ: SKIP still imports, giving two albums |
| Duplicates.SingletonExample | test/test_importer.py:1055-1085 | One item in the library: REMOVE replaces it and deletes its file, SKIP keeps it alone, KEEPBOTH holds both |
| Duplicates.SingletonExtraKeyExample | test/test_importer.py:1087-1097 | An old item differing on the extra key field is no duplicate, so SKIP still imports |
| Resume.RunFrom | test/test_importer.py:1126-1169 | A run only adds imports, and at most one per remaining unit. A completed run clears the record. An aborted run ends on the unit it aborted at. |
| Resume.Run | test/test_importer.py:1126-1169 | A session run imports at most one entry per unit. A run that completes with resume on clears the record. An aborted run ends on the unit it aborted at. |
| Resume.ResumeAfterAbort | test/test_importer.py:1128-1147 | Aborting after unit k commits units up to k and records their paths. The resumed run imports exactly the rest and clears the record, so every unit is imported exactly once. |
| Resume.ResumedRunImportsRest | test/test_importer.py:1140-1147 | A resumed run skips every recorded unit and imports the others in order |
| Resume.NeverIgnoresRecord | test/test_importer.py:1126-1169 | With resume off every unit is imported and the record is left as it was |
| Resume.TwoAlbumsExample | test/test_importer.py:1128-1169 | Two albums, abort after the first: the first run imports "Album 1" only, the second "Album 2" only |
| Grouping.Insert | test/test_importer.py:1211-1250 | Insertion into a name-sorted list keeps it sorted and adds exactly the new element |
| Grouping.SortBy | test/test_importer.py:1211-1250 | The walk's name sort yields a sorted permutation of its input |
| Grouping.SortSorted | test/test_importer.py:1211-1250 | Sorting an already sorted list returns it unchanged |
| Grouping.SortTreeOfSorted | test/test_importer.py:1211-1250 | Sorting a tree whose directories are already sorted returns it unchanged |
| Grouping.Walk | test/test_importer.py:1211-1250 | The walk starts with the directory itself, its subdirectory names and its files |
| Grouping.ScanKeepsItems | test/test_importer.py:1231-1350 | The scan emits every file it is shown, in order, after those of the album in progress |
| Grouping.AlbumsPartitionFiles | test/test_importer.py:1231-1250 | Every file of the tree lies in exactly one album, and the albums list the files in sorted walk order |
| Grouping.AlbumsInDir | test/test_importer.py:1352-1355 | Every album found holds at least one file and one root directory |
| Grouping.StartOf | test/test_importer.py:1253-1350 | Only a directory with subdirectories and no files begins a nested multi-disc album. A flattened one begins at a directory whose own name matches a disc marker, and takes that match's series prefix. A directory of any other shape begins nothing only when its own name matches no marker. |
| Grouping.ScanFrom | test/test_importer.py:1211-1350 | Every group the scan emits holds at least one file and one root directory |
| Grouping.EmptyTreeNoAlbums | test/test_importer.py:1352-1355 | A tree without files yields no album, whatever its directories are called |
| Grouping.NoMarkersOneGroupPerDirectory | test/test_importer.py:1231-1250 | Without disc markers each directory that directly holds files is one album, in walk order |
| GroupingExamples.SimpleTreeAlbums | test/test_importer.py:1211-1250 | The four-album tree yields four albums, with their roots and files, one per leaf directory |
| GroupingExamples.MultiDiscAlbumsInDir | test/test_importer.py:1253-1350 | The multi-disc tree: two nested albums coalesce with their disc folders, the flattened pair differing in case is merged, and the look-alike stays separate |
| GroupingExamples.MultiDiscWithoutFiles | test/test_importer.py:1352-1355 | The same disc folders without files yield no album |
| Queries.Filter | test/test_query.py:90-263 | The selected items are exactly the catalog's items that the query matches |
| Queries.Matches | test/test_query.py:630-729 | An empty conjunction matches every item. An empty disjunction, or a term searched on no field, matches none. |
| Queries.ComplementPartition | test/test_query.py:705-729 | A query and its negation split the catalog: their results together are the catalog, as a multiset |
| Queries.ComplementDisjoint | test/test_query.py:722-725 | No item is selected by both a query and its negation |
| Queries.ExcludedMiddle | test/test_query.py:714-719 | `q or not q` selects the whole catalog |
| Queries.NoContradiction | test/test_query.py:714-719 | `q and not q` selects nothing |
| Queries.DoubleNegation | test/test_query.py:727-729 | `not not q` selects what `q` selects, in the same order |
| Queries.DeMorgan | test/test_query.py:709-729 | Negated conjunction is disjunction of negations, and dually |
| Queries.AndNarrows | test/test_query.py:245-263 | One more conjunct filters the previous result further |
| Queries.PointIsDegenerateRange | test/test_query.py:435-438 | A point query on n and the range n..n select the same items: exactly those whose field holds the number n |
| Queries.NumericIsNotSubstring | test/test_query.py:460-463 | A numeric query never matches a different number, even one whose text contains it |
| Queries.NumericNeedsField | test/test_query.py:455-458 | A numeric query never matches an item lacking the field, which a none-query does match |
| Queries.BooleanComplement | test/test_query.py:281-309 | On a flag field exactly one of the true and false queries matches |
| Queries.ExactImpliesExactNoCase | test/test_query.py:106-120 | An exact match is also a case-insensitive exact match and a substring match |
| Queries.UnknownFieldMatchesNothing | test/test_query.py:152-157 | A field the item lacks matches no substring, exact or case-insensitive exact test with a non-empty pattern |
| QueryParse.TokenizeJoin | test/test_query.py:245-263 | Plain words joined by spaces split back into exactly those words |
| QueryParse.QuotedToken | test/test_query.py:106-120 | A double-quoted text without quotes or backslashes is one token, blanks included |
| QueryParse.KeyedPart | test/test_query.py:101-104 | A key without colon, blank or trailing backslash followed by a colon splits into key and term |
| QueryParse.UnkeyedPart | test/test_query.py:127-130 | A part without a colon has no key |
| QueryParse.NegationPrefix | test/test_query.py:735-761 | `-` and `^` each negate exactly the part they precede, keyed or not |
| QueryParse.ConjoinedParts | test/test_query.py:245-263 | Space-separated parts without commas, sort suffixes or paths are conjoined |
| QueryParse.Tokenize | test/test_query.py:101-145 | Tokenising fails only on shell syntax (an unclosed quote or a dangling escape), and a blank string has no words |
| QueryParse.ChooseKind | test/test_query.py:101-145 | The pattern is what is left of the term after its prefix. A prefix is stripped only for the regexp, exact and case-insensitive exact kinds. The substring kind takes the whole term. Without a key only those four kinds are chosen. Which prefix selects which kind is stated by the four lemmas that follow. |
| QueryParse.RegexpPrefixKind | test/test_query.py:122-125 | A term starting with `:` is a regular expression on the rest of the term, keyed or not |
| QueryParse.ExactNoCasePrefixKind | test/test_query.py:117-120 | A term starting with `=~` is a case-insensitive exact test on the rest |
| QueryParse.ExactPrefixKind | test/test_query.py:106-115 | A term starting with `=` and not `=~` is an exact test on the rest |
| QueryParse.UnprefixedKind | test/test_query.py:101-104 | A term without a prefix is kept whole. The key's class in the schema decides, as the key is written; with no key or an unknown key it is a substring test. |
| QueryParse.ConstructPart | test/test_query.py:99-150 | An empty part selects everything. A part fails only on a bad number or a bad regular expression. The part is stripped of Python's `str` white space (ASCII white space, U+001C-U+001F and the Unicode spaces), and a key may contain none of it. Keyed and unkeyed parts are described by the lemmas that follow. |
| QueryParse.KeyedQuery | test/test_query.py:230-240 | A keyed part tests only the key's field, named in lower case, with the test its term selects. It fails exactly when that test cannot be built. Only `singleton` ignores the key. |
| QueryParse.UnkeyedQuery | test/test_query.py:208-228 | An unkeyed part applies the test its term selects to every search field, and fails exactly when that test cannot be built |
| QueryParse.KeyedExactQuery | test/test_query.py:106-115 | `k:=v` is the exact test for `v` on field `k`, in lower case |
| QueryParse.KeyedExactNoCaseQuery | test/test_query.py:197-206 | `k:=~v` is the case-insensitive exact test for `v` on field `k`, in lower case |
| QueryParse.KeyedRegexpQuery | test/test_query.py:122-125 | `k::v` is the regular expression `v` on field `k`, in lower case, and an error when `v` does not compile |
| QueryParse.KeyedDefaultQuery | test/test_query.py:101-104 | `k:v` on a key the schema does not know is a substring test for `v` on field `k`, in lower case |
| QueryParse.UnkeyedExactQuery | test/test_query.py:132-135 | `=v` is the exact test for `v` on every search field |
| QueryParse.UnkeyedExactNoCaseQuery | test/test_query.py:137-140 | `=~v` is the case-insensitive exact test for `v` on every search field |
| QueryParse.UnkeyedRegexpQuery | test/test_query.py:142-145 | `:v` is the regular expression `v` on every search field, and an error when `v` does not compile |
| QueryParse.UnkeyedDefaultQuery | test/test_query.py:127-130 | A plain word is a substring test on every search field |
| QueryParse.UnkeyedRegexpPart | test/test_query.py:142-145 | A part whose only colon is its first character, such as `:x$`, has no key |
| QueryParse.KeyCaseInsensitive | test/test_query.py:192-195 | Two spellings of a key that differ only in case and select the same class build the same query |
| QueryParse.KeyCaseExample | test/test_query.py:192-195 | `ArTiST:three` builds the same query as `artist:three`: a substring test for `three` on `artist` |
| QueryParse.UnknownFieldExample | test/test_query.py:311-315 | `xyzzy:nonsense` on an unknown key is a substring test on the `xyzzy` field |
| QueryParse.TrailingBlankIgnored | test/test_query.py:99-150 | Any `str` white space after a non-empty part, Unicode spaces included, leaves its query unchanged |
| QueryParse.TrailingSpaceEndsTerm | test/test_query.py:101-104 | `artist:foo` followed by any `str` white space, such as a no-break space, is the substring test for `foo` on `artist` |
| QueryParse.NoBreakSpaceStopsKey | test/test_query.py:101-104 | A no-break space before the colon means the part has no key |
| QueryParse.NumericPartQuery | test/test_query.py:435-438 | On a numeric field, `k:n` is the point test for the integer `n` on field `k`, in lower case |
| QueryParse.NumericPartComparesValues | test/test_query.py:459-463 | A numeric point test selects an item whose field holds the integer `m` exactly when `m` is the pattern's integer |
| QueryParse.NoSubstringMatchExample | test/test_query.py:459-463 | `bpm:12` does not select a track at 120 bpm, and `bpm:120` does |
| QueryParse.ParseQueryString | test/test_query.py:356-358 | A query string fails with a shell-syntax error exactly when tokenising fails. Otherwise it fails only on a bad number or regular expression. |
| QueryParse.EmptyQueryMatchesAll | test/test_query.py:90-99 | A blank query string parses, and its query matches every item |
| QueryParse.ExtraTermNarrows | test/test_query.py:763-771 | Adding a term keeps the query parseable and selects the previous results that the new term matches |
| QueryParse.TwoAlternatives | test/test_query.py:906-917 | A comma between two runs of parts makes exactly two alternatives |
| QueryParse.CommaIsDisjunction | test/test_query.py:906-917 | Two comma-separated runs parse to the disjunction of their conjunctions |
| QueryParse.BoundsOfValue | test/test_query.py:265-268 | A single integer parses to an exact-value pattern |
| QueryParse.BoundsOfRange | test/test_query.py:270-279 | `lo..hi` parses to the inclusive range between the integers (also lines 412-418) |
| QueryParse.BoundsOfOpenRange | test/test_query.py:420-421 | `lo..` parses to a range open at the top |
| QueryParse.NonIntegerRejected | test/test_query.py:356-358 | A pattern without `..` that is not an integer is rejected with an error naming it |
| QueryParse.NumericEnd | test/test_query.py:412-421 | A range end is open exactly when empty, and otherwise is the integer the text reads as |
| QueryParse.FindDots | test/test_query.py:270-279 | The position found is the first `..`; none means there is no `..` |
| QueryParse.TrueWords | test/test_query.py:468-494 | "true", "1" and "yes" read as true |
| QueryParse.FalseWords | test/test_query.py:482-509 | "false", "0" and any other word read as false |
| QueryParse.PathPatternByComponents | test/test_query.py:861-902 | On a case-sensitive file system a `path:` pattern always parses, and it matches an item exactly when the item's normalised path components extend the pattern's: the file itself or anything below that directory, never a sibling that merely shares a name prefix |
| QueryParse.PathWithoutColon | test/test_query.py:935-952 | A colon-free term is a path query exactly when it contains a separator and names an existing path |
| QueryParse.PathBeforeColon | test/test_query.py:935-952 | For `x:y` only the text before the first colon decides: it is a path query exactly when `x` contains a separator and names an existing path, whatever `y` holds |
| QueryParse.PathDetectionFile | test/test_query.py:935-952 | For any two plain names `a` and `b`, an existing `a/b` is detected as a path query |
| QueryParse.PathDetectionDirectory | test/test_query.py:935-952 | For an existing directory `a/`, both `a/` and `a/:b` are path queries |
| QueryParse.PathDetectionNegative | test/test_query.py:935-952 | For plain names `a` and `b`, none of `a`, `a:b/` and `a:/b` is a path query: a separator only counts before the first colon |
| QueryParse.MarkPaths | test/test_query.py:906-917 | Exactly the parts detected as paths get an explicit `path:` key |
| Pipeline.Feed | test/test_pipeline.py:61-68 | The consumer receives a prefix of the messages. It raises exactly when some message is refused, at the first refused one. Otherwise it receives everything. |
| Pipeline.PullIsStageByStage | test/test_pipeline.py:103-105 | A pull succeeds exactly when the producer does not raise and the stages pass its messages. Its output is those messages through the stages. |
| Pipeline.Pull | test/test_pipeline.py:95-110 | A pull that does not raise met no raising producer answer |
| Pipeline.RunSequential | test/test_pipeline.py:135-154 | The consumer accepted every message it received. A run that does not raise met no raising producer answer. |
| Pipeline.ThroughConcatStages | test/test_pipeline.py:107-110 | Running two stage lists one after the other is running their concatenation |
| Pipeline.PullChain | test/test_pipeline.py:107-110 | Pulling a pulled pipeline through more stages is pulling through all of them |
| Pipeline.PullAppend | test/test_pipeline.py:134-170 | The output for two parts of the producer's messages is the first part's output followed by the second's |
| Pipeline.RaiseKeepsCompletedPrefix | test/test_pipeline.py:164-170 | A raise at message k (in the producer or a worker) yields the outputs of the messages before k, then raises |
| Pipeline.BubbleDropsMessage | test/test_pipeline.py:214-231 | A worker bubbling on some messages drops exactly those and keeps the others' order |
| Pipeline.MultipleExpandsInOrder | test/test_pipeline.py:234-251 | A worker answering with multiples yields their messages back to back, in order |
| Pipeline.PullOneStage | test/test_pipeline.py:95-105 | Pulling a list through one worker that never raises yields each message's answer in order |
| Pipeline.DecoratedStageMaps | test/test_pipeline.py:255-261 | A `stage`-decorated function applied to `n` maps each message `i` to `f(n, i)` |
| Pipeline.MutatorStageForwards | test/test_pipeline.py:263-271 | A `mutator_stage` forwards every message, mutated, in production order |
| Pipeline.RunCollectsPull | test/test_pipeline.py:95-105 | A run whose consumer accepts everything receives exactly what the pull yields |
| Pipeline.RunCollectsPrefix | test/test_pipeline.py:148-154 | A run's consumer receives a prefix of the pull's output, and all of it when the run does not raise |
| PipelineExamples.SimpleRun | test/test_pipeline.py:95-97 | Producing 0..4 through a doubling worker delivers 0, 2, 4, 6, 8 |
| PipelineExamples.PullChainExample | test/test_pipeline.py:107-110 | Pulling that pipeline through another doubling worker yields 0, 4, 8, 12, 16 |
| PipelineExamples.ParallelStageExample | test/test_pipeline.py:113-131 | A stage of two doubling workers behaves, run sequentially, like one |
| PipelineExamples.ProducerRaises | test/test_pipeline.py:134-154 | A producer raising after its messages: the consumer got them all, and the run raises |
| PipelineExamples.WorkerRaises | test/test_pipeline.py:164-170 | A worker raising on 3: the pull yields 0, 2, 4 and then raises |
| PipelineExamples.ConsumerRaises | test/test_pipeline.py:61-68 | A consumer raising on 4 has collected 0, 2 and the run raises |
| PipelineExamples.BubbleExample | test/test_pipeline.py:214-231 | A worker bubbling on 3 yields 0, 2, 4, 8 |
| PipelineExamples.MultipleExample | test/test_pipeline.py:234-251 | A worker answering `[i, -i]` yields 0, 0, 1, -1, …, 4, -4 |
| PipelineExamples.StageDecoratorExample | test/test_pipeline.py:254-261 | `add(2)` over 1, 2, 3 yields 3, 4, 5 |
| PipelineExamples.MutatorStageExample | test/test_pipeline.py:263-271 | The key-setting mutator sets "x" in every dictionary and keeps the rest |
| Play.CommandStr | test/plugins/test_play.py:62-77 | Without a command the system opener is used. With arguments and a template lacking `$args`, they are appended after a space. |
| Play.ArgsReachCommand | test/plugins/test_play.py:62-72 | Whatever the template, given arguments appear in the built command |
| Play.TemplateKeptWithoutArgs | test/plugins/test_play.py:56-58 | Without arguments a template lacking ` $args` is used as it is |
| Play.ArgsAppended | test/plugins/test_play.py:62-65 | `echo` with `-A foo` builds `echo foo` |
| Play.ArgsInMiddle | test/plugins/test_play.py:67-72 | `echo $args other` with `-A foo` builds `echo foo other` |
| Play.UnsetArgsInMiddle | test/plugins/test_play.py:74-77 | `echo $args other` without arguments builds `echo other`, with no double space |
| Play.Lines | test/plugins/test_play.py:41-57 | The playlist body is empty exactly when there are no paths, and otherwise ends in a newline |
| Play.LinesAsJoin | test/plugins/test_play.py:41-57 | The playlist body is the paths joined by newlines plus a final newline |
| Play.PlaylistRoundTrip | test/plugins/test_play.py:41-57 | Reading a playlist back line by line gives the paths, then the empty piece after the last newline |
| Play.AlbumPaths | test/plugins/test_play.py:91-101 | With `use_folders` the selection fails exactly when some album is empty, and each entry is that album's folder |
| Play.Relative | test/plugins/test_play.py:81-89 | Each entry is its path relative to the `relative_to` directory |
| Play.Entries | test/plugins/test_play.py:41-101 | Tracks always give one entry each. The entries are missing exactly when `use_folders` is on and some selected album is empty. |
| Play.ExceedsThreshold | test/plugins/test_play.py:115-137 | A threshold of zero never asks for consent |
| Play.ThresholdMonotone | test/plugins/test_play.py:115-137 | A selection larger than one that needs consent needs it too |
| Play.PlayCommand | test/plugins/test_play.py:110-143 | The opener is called only for a non-empty selection and only when it does not fail. A decline happens only without `-y` and when the user says no. |
| Play.OpenedExactly | test/plugins/test_play.py:110-137 | The opener is called exactly when the selection is non-empty, every album has items, the prompt is passed or skipped, and the opener does not fail |
| Play.YesSkipsPrompt | test/plugins/test_play.py:124-137 | With `-y` the answer to the prompt plays no part |
| Play.SmallSelectionNotPrompted | test/plugins/test_play.py:115-137 | A selection within the threshold is never prompted for |
| Play.OpenerGetsEntries | test/plugins/test_play.py:103-108 | In raw mode the opener gets the entries themselves, otherwise a playlist of them |
| Play.TrackEntries | test/plugins/test_play.py:41-57 | Without `relative_to` and `-a`, the entries are the matched tracks' paths in order |
| Play.RelativeEntriesResolve | test/plugins/test_play.py:81-89 | With `relative_to`, each entry joined back onto that directory resolves to the path it stands for |
| Play.FolderEntry | test/plugins/test_play.py:91-101 | With `use_folders`, an album's entry is the directory holding its first item |
| Play.Basic | test/plugins/test_play.py:56-57 | One matching track: the opener gets a playlist holding its path, with the command `echo` |
| Play.AlbumOption | test/plugins/test_play.py:59-60 | `-a`: the matching album's item is played |
| Play.RelativeTo | test/plugins/test_play.py:81-89 | `relative_to` `/something`: the playlist holds the path relative to it |
| Play.UseFolders | test/plugins/test_play.py:91-101 | `use_folders` without a command: the system opener plays the album's folder |
| Play.Raw | test/plugins/test_play.py:103-108 | Raw mode: the opener gets the item path itself |
| Play.NotFound | test/plugins/test_play.py:110-113 | No match: nothing is played |
| Play.WarningThreshold | test/plugins/test_play.py:115-122 | Two tracks over a threshold of one and the user aborts: nothing is played |
| Play.SkipWarningThreshold | test/plugins/test_play.py:124-137 | The same with `-y`: both paths are played, in order |
| Play.CommandFailed | test/plugins/test_play.py:139-143 | The opener failing surfaces as a user error |
| Paths.RelPathRoundTrip | test/plugins/test_play.py:81-89 | A relative path computed from a directory, joined back onto it, resolves to the original absolute path |
| KeyFinder.Sharpen | test/plugins/test_keyfinder.py:27-38 | The flat-to-sharp respelling keeps the length and adds no capital |
| KeyFinder.NormaliseKey | test/plugins/test_keyfinder.py:27-57 | A stored key keeps the output word's length, has no flat spelling and no capital past its first letter |
| KeyFinder.SharpenLeavesNoFlat | test/plugins/test_keyfinder.py:27-38 | After respelling no flat is left |
| KeyFinder.SharpenKeepsSharps | test/plugins/test_keyfinder.py:47-57 | A key without flats is its own respelling |
| KeyFinder.NormaliseIdempotent | test/plugins/test_keyfinder.py:47-57 | Normalising a stored key gives it back: normalisation is idempotent |
| KeyFinder.NormalisedShape | test/plugins/test_keyfinder.py:27-57 | A stored key has no flats and no capital past its first letter |
| KeyFinder.LastWord | test/plugins/test_keyfinder.py:69-77 | There is no last word exactly when the output is blank; otherwise it is a non-empty word without white space. The analyser's output is bytes, so white space is the six ASCII characters |
| KeyFinder.LastWordOf | test/plugins/test_keyfinder.py:27-38 | Output ending in a word followed only by white space yields that word |
| KeyFinder.FindKey | test/plugins/test_keyfinder.py:27-77 | The path is kept. The analyser is run exactly when the item has no key or `overwrite` is on, with `[bin, "-f", path]`. When it runs and its output has a last word, the item's key becomes that word normalised. Otherwise the item is returned unchanged. |
| KeyFinder.OverwriteReplacesKey | test/plugins/test_keyfinder.py:47-57 | With `overwrite` on, a non-blank analysis replaces whatever key the item had |
| KeyFinder.FindKeys | test/plugins/test_keyfinder.py:27-38 | The command analyses every item in turn |
| KeyFinder.OnImport | test/plugins/test_keyfinder.py:40-45 | The import hook analyses every imported item when `auto` is on and none otherwise |
| KeyFinder.KeepsExistingKey | test/plugins/test_keyfinder.py:59-67 | A key already set survives, without running the analyser, unless `overwrite` is on |
| KeyFinder.NewKeyIsLastWord | test/plugins/test_keyfinder.py:27-57 | A changed key is the normalised last word of the analyser's output |
| KeyFinder.BlankOutputChangesNothing | test/plugins/test_keyfinder.py:69-77 | Blank output, or a failed run, leaves the item as it was |
| KeyFinder.FindKeyTwice | test/plugins/test_keyfinder.py:47-57 | Analysing again stores what analysing once did |
| KeyFinder.SpellDbMinor | test/plugins/test_keyfinder.py:31-35 | `dbm` is stored as `C#m` |
| KeyFinder.AddKey | test/plugins/test_keyfinder.py:27-38 | Output `dbm` on an item without a key stores `C#m`, after running `KeyFinder -f` on the file |
| KeyFinder.AddKeyOnImport | test/plugins/test_keyfinder.py:40-45 | The same on import |
| KeyFinder.ForceOverwrite | test/plugins/test_keyfinder.py:47-57 | With `overwrite`, output `C#m` replaces the key `F` |
| KeyFinder.DoNotOverwrite | test/plugins/test_keyfinder.py:59-67 | Without `overwrite`, the key `F` stays and the analyser is not run |
| KeyFinder.NoKey | test/plugins/test_keyfinder.py:69-77 | Empty output leaves the key unset |

The implementation modules these tests exercise are not part of this
model: the importer's task and session code, `dbcore`'s query parser and
query classes, `util.pipeline`, and the play and keyfinder plugins. The
citations point at the tests that pin each behaviour down.

Two behaviours of the alignment are worth noting:

- AS-IS alignment decides the compilation flag even when every track has
  an explicit album artist, and uniform keys clear it.
- Alignment is not idempotent on the flag, as
  `Align.AsIsRealignClearsCompilation` states.

## Left out

- File placement (copy, move, link, hardlink, reflink, deleting sources) and
  clutter removal: file-system side effects. The only file effect modelled is
  the list of files REMOVE deletes.
- Archive extraction (zip, tar, rar, 7z) and temporary-directory cleanup:
  external archivers.
- Candidate lookup, distance scoring, choosing a numbered candidate, and the
  TRACKS/ALBUMS choices: remote services and floating-point arithmetic. An
  action is a parameter.
- Re-import preservation of flexible attributes, art and added dates: the
  catalog storage engine.
- Logging, `tag_log`, pretend mode and the empty-directory warnings:
  presentation only.
- Parallel pipeline execution, bounded queues and coroutine state: the model
  covers only the sequential run.
- The `scrub` plugin: tag deletion delegated to the audio-tag library.
- SQL "fast" evaluation versus in-memory "slow" evaluation, date queries,
  float fields, album/item joins and sorting: only the `Matches` semantics
  is modelled.
- The regular-expression engine, the disc-marker pattern, the file
  system's case sensitivity and which paths exist: all are parameters.
- Unicode normalisation is left out, and case folding is ASCII only
  (`Text.Lower`), both in queries and in the album walk's name sort.
- The walk's ignore and hidden-file filters and its handling of
  non-audio files: every listed file counts as audio.
- Incremental import and the invalid state file: only resume bookkeeping is
  modelled.
- Pipeline.Pull: only the first worker of a parallel stage is used, as the
  sequential pull does. A consumer's return value is not modelled.
- Duplicates.IsDuplicate: a field missing on both entries compares equal.
  MERGE for singletons is treated like albums. The case of two duplicates
  inside one import directory is not modelled, because its tests are
  skipped.
- Duplicates.ImportUnit: autotagging off forces the AS-IS path; the
  alignment of that path is `Align`'s business and is not applied here.
- Align.AlignAlbumFields: the single-artist test `freq / n >= 0.25` is
  written `4 * freq >= n` on integers. The `albumartists` and id-list fields
  are filled under APPLY as the other album-artist fields are.
- QueryParse.NumericEnd: float patterns such as `1.5` or `110.5..120` are
  rejected with `NotANumber`; only `[+-]?digits` ends are read, because the
  model has no floating-point numbers.
- Queries.NumericValue: stored text is read as a number the same restricted
  way (`Text.ParseInt`). Python's `int` also accepts surrounding blanks and
  `_` between digits, so ` 12` or `1_000` stored as text is not numeric here.
- QueryParse.MakeTest: a `path:` pattern is made absolute with `AbsPath`
  only. `~` is not expanded to the home directory, so `path:~/music` is read
  relative to the working directory.
- Paths.Components: a path starting with exactly two slashes is normalised
  to a single root, where POSIX `normpath` keeps `//`.
- Play.PlayCommand: `~` expansion in `relative_to`, the `keep_open` loop,
  and the playlist's temporary file are left out. The opener is a
  success/failure parameter. Album items are taken in the order given.
- Play.ExceedsThreshold: the threshold counts the selected tracks or
  albums, not the entries; 0 turns the prompt off.
- KeyFinder.FindKey: the `keyfinder-cli` binary (called without `-f`),
  UTF-8 decoding of the output, writing the tags and the spelled-out
  "minor"/"major" forms of key parsing are left out. The analyser is a
  function from command line to output, or none when it fails.
