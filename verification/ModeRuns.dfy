/** Running several modes off one solve, and the parity check. */
module ModeRuns {
  import opened ByteStrings
  import opened RowTables
  import opened BoardReuse

  /** A field that has to be exactly True or exactly False. */
  datatype Flag = Yes | No | Missing

  datatype BoardEvidence = BoardEvidence(solveIdentity: Bytes, rest: Bytes)

  datatype Mark = SourceSolve | ExactReuse | BlockerReused | OtherMark

  /** The fields that a reused rail has to share with its source: indices, names, object flags, and eleven hashes. */
  datatype Exact = Exact(group: int, profile: Bytes, source: int, rail: Bytes, selected: Bytes, reference: Bytes, port: Bytes,
                         positive: Bytes, negative: Bytes, objects: seq<Flag>, hashes: seq<Bytes>)

  datatype Details = Details(guard: bool, mark: Mark, requested: Option<int>, exact: Exact, board: Option<BoardEvidence>,
                             numerical: Flag, grid: Flag, impedance: Flag, identity: Flag,
                             projectionExact: Flag, metricsRecomputed: Flag, projectionRecomputed: Flag)

  datatype Convergence = Convergence(lowerX: int, lowerY: int, finalX: int, finalY: int, still: bool)

  datatype Diagnostics = Diagnostics(board: Option<BoardEvidence>, rest: Bytes)

  /** The keys of a solver's provenance that the code reads, and any other key. */
  datatype Key = RailId | SelectedNet | RailPorts | ProfileKey | Applicability | Invariance | SolveCount | SourceSha | AlgorithmSha
               | SubstrateSha | ManifestSha | BoundSubstrateSha | LayerwiseSha | OtherKey(name: Bytes)

  /** A solver's provenance: the text of each value by its key. */
  type Told = map<Key, Bytes>

  datatype Report = Report(provenance: Told, metrics: Bytes, bandMetrics: Bytes, diagnostics: Option<Diagnostics>, modeCount: int,
                           convergence: Option<Convergence>, details: Option<Details>)

  datatype BlockNote = BlockNote(guard: bool, mark: Mark, numerical: Flag)

  datatype Cell = Blocked(error: Bytes, reason: Bytes, note: Option<BlockNote>) | Completed(report: Report) | OtherStatus

  datatype RunStatus = SourceRun | ReusedRun | RecomputedRun

  datatype Run = Run(mode: int, guard: bool, status: RunStatus, source: Option<int>, rails: map<Bytes, Cell>)

  /** The runs by mode, in the dictionary's order. */
  type Runs = seq<(int, Run)>

  // ---- the checks on one rail of one run ----

  predicate EvidenceFits(env: Env, mode: int, status: RunStatus, rail: Bytes, report: Report) {
    && report.details.Some? && report.diagnostics.Some? && report.convergence == Some(Convergence(mode, mode, mode, mode, true))
    && DetailsFit(env, status, rail, report.details.value) && report.diagnostics.value.board == report.details.value.board
  }

  predicate DetailsFit(env: Env, status: RunStatus, rail: Bytes, d: Details) {
    && d.guard && d.mark == (if status.ReusedRun? then ExactReuse else SourceSolve)
    && env.fold(d.exact.rail) == env.fold(rail) && d.exact.port != [] && d.exact.positive != [] && d.exact.negative != []
    && d.exact.objects == [Yes, Yes, Yes, Yes]
    && d.board.Some? && ValidSha(env, d.board.value.solveIdentity)
  }

  predicate ClaimsNoReuse(d: Details) {
    d.projectionExact == No && d.metricsRecomputed == No && d.projectionRecomputed == No
  }

  predicate ClaimsReuse(d: Details, mode: int) {
    && d.numerical == Yes && d.grid == Yes && d.impedance == Yes && d.identity == Yes
    && d.projectionExact == Yes && d.metricsRecomputed == Yes && d.projectionRecomputed == No && d.requested == Some(mode)
  }

  predicate ReuseFits(env: Env, mode: int, source: Report, report: Report)
    requires report.details.Some?
  {
    && ClaimsReuse(report.details.value, mode)
    && source.details.Some? && SameEvidence(env, source.details.value, report.details.value)
    && report.provenance == source.provenance && report.metrics == source.metrics && report.bandMetrics == source.bandMetrics
    && report.diagnostics == source.diagnostics && report.modeCount == 1 && source.modeCount == 1
  }

  predicate SameEvidence(env: Env, source: Details, d: Details) {
    && d.exact == source.exact && d.guard == source.guard
    && |d.exact.hashes| == 11 && (forall i :: 0 <= i < 11 ==> ValidSha(env, d.exact.hashes[i]))
    && d.board.Some? && d.board == source.board && ValidSha(env, d.board.value.solveIdentity)
  }

  predicate BlockerFits(status: RunStatus, source: Cell, cell: Cell)
    requires source.Blocked?
  {
    && cell.Blocked? && cell.error == source.error && cell.reason == source.reason
    && (status.ReusedRun? ==>
          cell.note.Some? && cell.note.value.guard && cell.note.value.mark == BlockerReused && cell.note.value.numerical == No)
  }

  predicate CellFits(env: Env, mode: int, status: RunStatus, rail: Bytes, source: Cell, cell: Cell) {
    match source
    case Blocked(_, _, _) => BlockerFits(status, source, cell)
    case Completed(original) =>
      && cell.Completed? && EvidenceFits(env, mode, status, rail, cell.report)
      && (if status.ReusedRun? then ReuseFits(env, mode, original, cell.report) else ClaimsNoReuse(cell.report.details.value))
    case OtherStatus => false
  }

  predicate RailFits(env: Env, mode: int, status: RunStatus, rail: Bytes, source: map<Bytes, Cell>, rails: map<Bytes, Cell>) {
    rail in source && rail in rails && CellFits(env, mode, status, rail, source[rail], rails[rail])
  }

  predicate HeaderFits(source: int, mode: int, run: Run) {
    && run.guard && run.mode == mode
    && (if mode == source then run.status.SourceRun? else run.status.ReusedRun? || run.status.RecomputedRun?)
    && (run.status.RecomputedRun? || run.source == Some(source))
  }

  predicate RunFits(env: Env, source: int, original: map<Bytes, Cell>, entry: (int, Run), rails: seq<Bytes>) {
    && HeaderFits(source, entry.0, entry.1)
    && forall j :: 0 <= j < |rails| ==> RailFits(env, entry.0, entry.1.status, rails[j], original, entry.1.rails)
  }

  function Find(runs: Runs, mode: int): Option<Run> {
    if runs == [] then None else if runs[0].0 == mode then Some(runs[0].1) else Find(runs[1..], mode)
  }

  /** The source run is there, and every run fits it. */
  predicate Passes(env: Env, runs: Runs, rails: seq<Bytes>, source: int) {
    var original := Find(runs, source);
    && original.Some? && HeaderFits(source, source, original.value)
    && forall i :: 0 <= i < |runs| ==> RunFits(env, source, original.value.rails, runs[i], rails)
  }

  // ---- the counters ----

  datatype Counts = Counts(reused: nat, compared: nat, blockers: nat)

  function CompletedRails(cells: map<Bytes, Cell>, rails: seq<Bytes>): nat {
    if rails == [] then 0
    else
      var rail := rails[|rails| - 1];
      CompletedRails(cells, rails[..|rails| - 1]) + (if rail in cells && cells[rail].Completed? then 1 else 0)
  }

  function BlockedRails(cells: map<Bytes, Cell>, rails: seq<Bytes>): nat {
    if rails == [] then 0
    else
      var rail := rails[|rails| - 1];
      BlockedRails(cells, rails[..|rails| - 1]) + (if rail in cells && cells[rail].Blocked? then 1 else 0)
  }

  function ReusedRuns(runs: Runs): nat {
    if runs == [] then 0 else ReusedRuns(runs[..|runs| - 1]) + (if runs[|runs| - 1].1.status.ReusedRun? then 1 else 0)
  }

  function OtherRuns(runs: Runs, source: int): nat {
    if runs == [] then 0 else OtherRuns(runs[..|runs| - 1], source) + (if runs[|runs| - 1].0 != source then 1 else 0)
  }

  function Tally(runs: Runs, source: int, completed: nat, blocked: nat): Counts {
    Counts(ReusedRuns(runs) * completed, ReusedRuns(runs) * completed, OtherRuns(runs, source) * blocked)
  }

  lemma TallyStep(runs: Runs, i: nat, source: int, completed: nat, blocked: nat)
    requires i < |runs|
    ensures var before, after := Tally(runs[..i], source, completed, blocked), Tally(runs[..i + 1], source, completed, blocked);
            var more := if runs[i].1.status.ReusedRun? then completed else 0;
            after == Counts(before.reused + more, before.compared + more, before.blockers + (if runs[i].0 != source then blocked else 0))
  {
    assert runs[..i + 1][..i] == runs[..i];
  }

  /** The rails of one run: each counter goes up by the run's share. */
  method CompareRun(env: Env, original: map<Bytes, Cell>, entry: (int, Run), rails: seq<Bytes>, source: int, start: Counts)
    returns (counts: Option<Counts>)
    ensures counts.Some? <==> RunFits(env, source, original, entry, rails)
    ensures counts.Some? ==>
              var more := if entry.1.status.ReusedRun? then CompletedRails(original, rails) else 0;
              counts.value == Counts(start.reused + more, start.compared + more,
                                     start.blockers + (if entry.0 != source then BlockedRails(original, rails) else 0))
  {
    hide CellFits;
    var mode, run := entry.0, entry.1;
    if !HeaderFits(source, mode, run) {
      return None;
    }
    var reused, compared, blockers := start.reused, start.compared, start.blockers;
    for j := 0 to |rails|
      invariant forall k :: 0 <= k < j ==> RailFits(env, mode, run.status, rails[k], original, run.rails)
      invariant reused - start.reused == (if run.status.ReusedRun? then CompletedRails(original, rails[..j]) else 0)
      invariant compared - start.compared == reused - start.reused
      invariant blockers - start.blockers == (if mode != source then BlockedRails(original, rails[..j]) else 0)
    {
      var rail := rails[j];
      assert rails[..j + 1][..j] == rails[..j];
      if !RailFits(env, mode, run.status, rail, original, run.rails) {
        return None;
      }
      if original[rail].Blocked? {
        blockers := blockers + (if mode != source then 1 else 0);
      } else if original[rail].Completed? && run.status.ReusedRun? {
        reused := reused + 1;
        compared := compared + 1;
      }
    }
    assert rails[..|rails|] == rails;
    return Some(Counts(reused, compared, blockers));
  }

  /** The parity check: it passes exactly when every run fits, and then counts rails by run. */
  method Parity(env: Env, runs: Runs, rails: seq<Bytes>, source: int) returns (counts: Option<Counts>)
    ensures counts.Some? <==> Passes(env, runs, rails, source)
    ensures counts.Some? ==>
              var original := Find(runs, source).value.rails;
              counts.value == Tally(runs, source, CompletedRails(original, rails), BlockedRails(original, rails))
  {
    hide RunFits, CompletedRails, BlockedRails, Tally;
    var found := Find(runs, source);
    if found.None? || !HeaderFits(source, source, found.value) {
      return None;
    }
    var original := found.value.rails;
    ghost var completed, blocked := CompletedRails(original, rails), BlockedRails(original, rails);
    NothingCounted(runs, source, completed, blocked);
    var total := Counts(0, 0, 0);
    for i := 0 to |runs|
      invariant forall k :: 0 <= k < i ==> RunFits(env, source, original, runs[k], rails)
      invariant total == Tally(runs[..i], source, completed, blocked)
    {
      TallyStep(runs, i, source, completed, blocked);
      var next := CompareRun(env, original, runs[i], rails, source, total);
      if next.None? {
        return None;
      }
      total := next.value;
    }
    assert runs[..|runs|] == runs;
    return Some(total);
  }

  lemma NothingCounted(runs: Runs, source: int, completed: nat, blocked: nat)
    ensures Tally(runs[..0], source, completed, blocked) == Counts(0, 0, 0)
  {
  }

  /**
   What passing guarantees for a reused run: every rail the source completed carries the source's
   metrics, provenance, board evidence and identities, and every blocked rail the source's blocker.
   */
  lemma ReusedRunsRepeatTheSource(env: Env, runs: Runs, rails: seq<Bytes>, source: int, i: nat, rail: Bytes)
    requires Passes(env, runs, rails, source) && i < |runs| && runs[i].1.status.ReusedRun? && rail in rails
    ensures Find(runs, source).Some? && rail in Find(runs, source).value.rails && rail in runs[i].1.rails
    ensures var was, now := Find(runs, source).value.rails[rail], runs[i].1.rails[rail];
            && (was.Completed? ==>
                  && now.Completed? && now.report.metrics == was.report.metrics && now.report.bandMetrics == was.report.bandMetrics
                  && now.report.provenance == was.report.provenance && now.report.diagnostics == was.report.diagnostics
                  && now.report.details.Some? && was.report.details.Some?
                  && now.report.details.value.exact == was.report.details.value.exact
                  && now.report.details.value.board == was.report.details.value.board && now.report.details.value.board.Some?)
            && (was.Blocked? ==> now.Blocked? && now.error == was.error && now.reason == was.reason)
            && (was.Completed? || was.Blocked?) && runs[i].0 != source
  {
    var j :| 0 <= j < |rails| && rails[j] == rail;
    var original := Find(runs, source).value.rails;
    assert RunFits(env, source, original, runs[i], rails);
    assert RailFits(env, runs[i].0, runs[i].1.status, rails[j], original, runs[i].1.rails);
  }
}
