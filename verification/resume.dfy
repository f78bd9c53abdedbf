/**
 * Resume bookkeeping of an import session over one top-level path: the
 * paths of every committed unit are recorded, a run that resumes skips the
 * units whose paths are all recorded, and a run that reaches the end of the
 * path clears the record.
 */
module Resume {
  import opened Results

  /** An import unit, identified in the record by its paths (its directories, or a singleton's file). */
  datatype Unit = Unit(name: string, paths: seq<string>)

  /** The session's resume setting; `Ask` carries the user's answer to the prompt. */
  datatype ResumeMode = Never | Always | Ask(answer: bool)

  /** The units committed by a run, the record it leaves, and whether an observer aborted it. */
  datatype RunResult = RunResult(imported: seq<Unit>, progress: set<string>, aborted: bool)

  /** The paths of one unit, as a set. */
  function PathSet(u: Unit): (r: set<string>)
    ensures forall p :: p in r <==> p in u.paths
  {
    set j | 0 <= j < |u.paths| :: u.paths[j]
  }

  /** The paths of all the given units. */
  function PathsOf(us: seq<Unit>): set<string> {
    if us == [] then {} else PathsOf(us[..|us| - 1]) + PathSet(us[|us| - 1])
  }

  lemma {:induction false} PathsOfHas(us: seq<Unit>, j: nat)
    requires j < |us|
    ensures PathSet(us[j]) <= PathsOf(us)
    decreases |us|
  {
    if j < |us| - 1 {
      assert us[..|us| - 1][j] == us[j];
      PathsOfHas(us[..|us| - 1], j);
    }
  }

  lemma {:induction false} PathsOfOnly(us: seq<Unit>, p: string)
    requires forall j :: 0 <= j < |us| ==> p !in us[j].paths
    ensures p !in PathsOf(us)
    decreases |us|
  {
    if us != [] {
      var init := us[..|us| - 1];
      assert forall j :: 0 <= j < |init| ==> init[j] == us[j];
      PathsOfOnly(init, p);
    }
  }

  /** Only a session whose setting is not `Never` reads or writes the record. */
  predicate Recording(mode: ResumeMode) {
    mode != Never
  }

  /** A session resumes when there is recorded progress and it is told to, or the user agrees. */
  predicate Resuming(mode: ResumeMode, progress: set<string>) {
    progress != {} && (mode == Always || mode == Ask(true))
  }

  /** Declining to resume discards the recorded progress; every other case keeps it. */
  function StartProgress(mode: ResumeMode, progress: set<string>): set<string> {
    if mode == Ask(false) then {} else progress
  }

  /** A unit is skipped when the run resumes and all its paths are recorded. */
  predicate AlreadyImported(u: Unit, resuming: bool, progress: set<string>) {
    resuming && forall p :: p in u.paths ==> p in progress
  }

  /**
   * Processes the units from index `i` on. A committed unit's paths are
   * recorded before observers hear of it; when the observers abort after
   * unit `abortAt` is committed, the run stops there and keeps the record;
   * a run that reaches the end clears it.
   */
  function RunFrom(units: seq<Unit>, i: nat, resuming: bool, recording: bool, progress: set<string>,
                   abortAt: Option<nat>, imported: seq<Unit>): (r: RunResult)
    requires i <= |units|
    ensures imported <= r.imported && |r.imported| <= |imported| + |units| - i
    ensures !r.aborted ==> r.progress == (if recording then {} else progress)
    ensures r.aborted ==> abortAt.Some? && i <= abortAt.value < |units| && |r.imported| > 0 && r.imported[|r.imported| - 1] == units[abortAt.value]
    decreases |units| - i
  {
    if i == |units| then RunResult(imported, if recording then {} else progress, false)
    else if AlreadyImported(units[i], resuming, progress) then
      RunFrom(units, i + 1, resuming, recording, progress, abortAt, imported)
    else
      var recorded := if recording then progress + PathSet(units[i]) else progress;
      if abortAt == Some(i) then RunResult(imported + [units[i]], recorded, true)
      else RunFrom(units, i + 1, resuming, recording, recorded, abortAt, imported + [units[i]])
  }

  /** One run of the session over the units of a top-level path, starting from the recorded progress. */
  function Run(units: seq<Unit>, mode: ResumeMode, progress: set<string>, abortAt: Option<nat>): (r: RunResult)
    ensures |r.imported| <= |units|
    ensures !r.aborted && mode != Never ==> r.progress == {}
    ensures r.aborted ==> abortAt.Some? && abortAt.value < |units| && |r.imported| > 0 && r.imported[|r.imported| - 1] == units[abortAt.value]
  {
    RunFrom(units, 0, Resuming(mode, progress), Recording(mode), StartProgress(mode, progress), abortAt, [])
  }

  /*** Laws ***/

  /** Each unit has a first path that no earlier unit has. */
  predicate DistinctUnits(units: seq<Unit>) {
    forall j :: 0 <= j < |units| ==>
      |units[j].paths| > 0 && forall i :: 0 <= i < j ==> units[j].paths[0] !in units[i].paths
  }

  lemma PathsOfSnoc(units: seq<Unit>, i: nat)
    requires i < |units|
    ensures PathsOf(units[..i + 1]) == PathsOf(units[..i]) + PathSet(units[i])
  {
    assert units[..i + 1][..i] == units[..i];
  }

  /** A run that does not resume commits units in order up to the aborting one, recording their paths. */
  lemma {:induction false} FreshRunUntilAbort(units: seq<Unit>, i: nat, k: nat, acc: seq<Unit>)
    requires i <= k < |units|
    ensures RunFrom(units, i, false, true, PathsOf(units[..i]), Some(k), acc)
         == RunResult(acc + units[i..k + 1], PathsOf(units[..k + 1]), true)
    decreases k - i
  {
    PathsOfSnoc(units, i);
    if i == k {
      assert units[i..k + 1] == [units[i]];
    } else {
      FreshRunUntilAbort(units, i + 1, k, acc + [units[i]]);
      assert (acc + [units[i]]) + units[i + 1..k + 1] == acc + units[i..k + 1];
    }
  }

  /** A resumed run passes over every unit whose paths are all recorded. */
  lemma {:induction false} ResumedRunSkipsRecorded(units: seq<Unit>, i: nat, m: nat, acc: seq<Unit>)
    requires i <= m <= |units|
    ensures RunFrom(units, i, true, true, PathsOf(units[..m]), None, acc)
         == RunFrom(units, m, true, true, PathsOf(units[..m]), None, acc)
    decreases m - i
  {
    if i < m {
      PathsOfHas(units[..m], i);
      assert units[..m][i] == units[i];
      ResumedRunSkipsRecorded(units, i + 1, m, acc);
    }
  }

  /** A resumed run imports every unit not yet recorded, in order, and clears the record at the end. */
  lemma {:induction false} ResumedRunImportsRest(units: seq<Unit>, i: nat, acc: seq<Unit>)
    requires i <= |units| && DistinctUnits(units)
    ensures RunFrom(units, i, true, true, PathsOf(units[..i]), None, acc) == RunResult(acc + units[i..], {}, false)
    decreases |units| - i
  {
    if i == |units| {
      assert units[i..] == [];
    } else {
      PathsOfOnly(units[..i], units[i].paths[0]);
      PathsOfSnoc(units, i);
      ResumedRunImportsRest(units, i + 1, acc + [units[i]]);
      assert (acc + [units[i]]) + units[i + 1..] == acc + units[i..];
    }
  }

  /**
   * Aborting after unit `k` and running again with resume on imports every
   * unit exactly once: the first run commits `units[..k + 1]`, the second
   * the rest, and the record is cleared at the end.
   */
  lemma ResumeAfterAbort(units: seq<Unit>, k: nat)
    requires k < |units| && DistinctUnits(units)
    ensures var first := Run(units, Always, {}, Some(k));
      && first == RunResult(units[..k + 1], PathsOf(units[..k + 1]), true)
      && var second := Run(units, Always, first.progress, None);
      && second == RunResult(units[k + 1..], {}, false)
      && first.imported + second.imported == units
  {
    assert units[..0] == [];
    FreshRunUntilAbort(units, 0, k, []);
    var p := PathsOf(units[..k + 1]);
    PathsOfHas(units[..k + 1], 0);
    assert units[..k + 1][0].paths[0] in p;
    ResumedRunSkipsRecorded(units, 0, k + 1, []);
    ResumedRunImportsRest(units, k + 1, []);
    assert units[..k + 1] + units[k + 1..] == units;
  }

  /** Without resuming, a run that is not aborted imports every unit, whatever was recorded. */
  lemma {:induction false} PlainRunImportsAll(units: seq<Unit>, i: nat, progress: set<string>, acc: seq<Unit>)
    requires i <= |units|
    ensures RunFrom(units, i, false, false, progress, None, acc) == RunResult(acc + units[i..], progress, false)
    decreases |units| - i
  {
    if i == |units| {
      assert units[i..] == [];
    } else {
      PlainRunImportsAll(units, i + 1, progress, acc + [units[i]]);
      assert (acc + [units[i]]) + units[i + 1..] == acc + units[i..];
    }
  }

  /** With resume off the record is neither consulted nor changed. */
  lemma NeverIgnoresRecord(units: seq<Unit>, progress: set<string>)
    ensures Run(units, Never, progress, None) == RunResult(units, progress, false)
  {
    PlainRunImportsAll(units, 0, progress, []);
  }

  /*** Example: two albums, the observer aborts after the first ***/

  lemma TwoAlbumsExample()
    ensures var units := [Unit("Album 1", ["/import/album 1"]), Unit("Album 2", ["/import/album 2"])];
      && var first := Run(units, Always, {}, Some(0));
      && |first.imported| == 1 && first.imported[0].name == "Album 1"
      && var second := Run(units, Always, first.progress, None);
      && |second.imported| == 1 && second.imported[0].name == "Album 2"
  {
    var units := [Unit("Album 1", ["/import/album 1"]), Unit("Album 2", ["/import/album 2"])];
    assert units[1].paths[0] !in units[0].paths;
    ResumeAfterAbort(units, 0);
  }
}
