/**
 What parity makes of the runner's own runs: when a mode is reused, when its run fits, and when a whole
 batch passes.
 */
module ModeBatches {
  import opened ByteStrings
  import opened RowTables
  import opened BoardReuse
  import opened ModeRuns
  import opened ModeAccounts
  import opened ModeReuse

  ghost predicate Founded(t: Tools, groups: seq<Group>) {
    forall i :: 0 <= i < |groups| ==> Sound(t.env, groups[i])
  }

  // ---- one rail ----

  predicate AuditSound(env: Env, audit: Audit) {
    PortNamed(audit.port) && |audit.hashes| == 7 && forall i :: 0 <= i < 7 ==> ValidSha(env, audit.hashes[i])
  }

  /** An audit names its port in full and carries valid digests, because its group does. */
  lemma AuditsAreSound(t: Tools, groups: seq<Group>, index: nat, source: RailSource)
    requires Founded(t, groups) && AuditFor(t, groups, index, source).Audited?
    ensures AuditSound(t.env, AuditFor(t, groups, index, source).audit)
    ensures AuditFor(t, groups, index, source).audit.index == index
  {
    hide ValidSha;
    assert Sound(t.env, groups[index]);
  }

  predicate SolvedSound(t: Tools, rail: Bytes, solved: Solved) {
    && AuditSound(t.env, solved.audit) && t.env.fold(solved.audit.rail) == t.env.fold(rail)
    && ValidSha(t.env, solved.board.solveIdentity)
    && ValidSha(t.env, solved.evidence) && ValidSha(t.env, solved.grid) && ValidSha(t.env, solved.impedance)
    && ValidSha(t.env, solved.provenance)
  }

  lemma CapturesAreSound(t: Tools, rail: Bytes, view: View, audit: Audit, mode: int)
    requires Digests(t) && AuditSound(t.env, audit) && Capture(t, rail, view, audit, mode).Some?
    ensures SolvedSound(t, rail, Capture(t, rail, view, audit, mode).value)
    ensures view.outcome.modeCount == 1 && view.outcome.convergence == Some(Convergence(mode, mode, mode, mode, true))
  {
    hide ValidSha, NOT_APPLICABLE, EXTERNAL_PORT, ZERO, REQUIRED;
  }

  /** Whatever is captured, its details pass the checks on details. */
  lemma DetailsAreFit(t: Tools, rail: Bytes, solved: Solved, mark: Mark, status: RunStatus)
    requires SolvedSound(t, rail, solved) && mark == if status.ReusedRun? then ExactReuse else SourceSolve
    ensures DetailsFit(t.env, status, rail, DetailsOf(solved, mark))
    ensures mark.SourceSolve? ==> ClaimsNoReuse(DetailsOf(solved, mark))
    ensures forall i :: 0 <= i < 11 ==> ValidSha(t.env, DetailsOf(solved, mark).exact.hashes[i])
  {
    hide ValidSha;
    var hashes := DetailsOf(solved, mark).exact.hashes;
    assert hashes == solved.audit.hashes + [solved.evidence, solved.grid, solved.impedance, solved.provenance];
    assert hashes[7] == solved.evidence && hashes[8] == solved.grid && hashes[9] == solved.impedance && hashes[10] == solved.provenance;
  }

  /** What solving a rail leaves behind: a blocker, or the report of what was captured. */
  lemma SettledRail(t: Tools, s: Solving, rail: Bytes, mode: int)
    requires Digests(t) && Founded(t, s.groups) && SolveRail(t, s, rail, mode).Some?
    ensures var settled := SolveRail(t, s, rail, mode).value;
            && !settled.cell.OtherStatus? && (settled.cell.Completed? <==> settled.solved.Some?)
            && (settled.cell.Completed? ==>
                  var view, solved := s.attempt(rail).view, settled.solved.value;
                  && s.attempt(rail).Evaluated? && SolvedSound(t, rail, solved)
                  && AuditFor(t, s.groups, solved.audit.index, view.source) == Audited(solved.audit)
                  && Capture(t, rail, view, solved.audit, mode) == Some(solved)
                  && settled.cell.report == ReportOf(t, rail, view.outcome, mode, DetailsOf(solved, SourceSolve)))
  {
    hide AuditFor, Capture, ReportOf, DetailsOf, SolvedSound, REUSE_ERROR;
    match s.attempt(rail)
    case Unsolved(_, _) =>
    case Evaluated(index, view) =>
      match AuditFor(t, s.groups, index, view.source)
      case Unaudited(_) =>
      case Audited(audit) =>
        AuditsAreSound(t, s.groups, index, view.source);
        CapturesAreSound(t, rail, view, audit, mode);
        CaptureKeepsAudit(t, rail, view, audit, mode);
  }

  lemma CaptureKeepsAudit(t: Tools, rail: Bytes, view: View, audit: Audit, mode: int)
    requires Capture(t, rail, view, audit, mode).Some?
    ensures Capture(t, rail, view, audit, mode).value.audit == audit
    ensures Capture(t, rail, view, audit, mode).value.rail == rail && Capture(t, rail, view, audit, mode).value.mode == mode
  {
  }

  /** A solved rail's cell passes every check of a source run or a recomputed run. */
  lemma SettledCellFits(t: Tools, s: Solving, rail: Bytes, mode: int)
    requires Digests(t) && Founded(t, s.groups) && SolveRail(t, s, rail, mode).Some?
    ensures var cell := SolveRail(t, s, rail, mode).value.cell;
            && CellFits(t.env, mode, SourceRun, rail, cell, cell)
            && (cell.Completed? ==> EvidenceFits(t.env, mode, RecomputedRun, rail, cell.report)
                                    && cell.report.details.Some? && ClaimsNoReuse(cell.report.details.value))
  {
    hide SolveRail, AuditFor, SolvedSound, DetailsFit, Capture;
    SettledRail(t, s, rail, mode);
    var settled := SolveRail(t, s, rail, mode).value;
    if settled.cell.Completed? {
      var view, solved := s.attempt(rail).view, settled.solved.value;
      CaptureIsModal(t, rail, view, solved.audit, mode);
      DetailsAreFit(t, rail, solved, SourceSolve, SourceRun);
      DetailsAreFit(t, rail, solved, SourceSolve, RecomputedRun);
    }
  }

  lemma CaptureIsModal(t: Tools, rail: Bytes, view: View, audit: Audit, mode: int)
    requires Capture(t, rail, view, audit, mode).Some?
    ensures view.outcome.modeCount == 1 && view.outcome.convergence == Some(Convergence(mode, mode, mode, mode, true))
  {
  }

  /**
   The same audit, evidence, vectors, provenance and board evidence as at first, and a capture that would
   succeed again.
   */
  predicate Unmoved(t: Tools, groups: seq<Group>, rail: Bytes, first: View, now: View, audit: Audit, mode: int) {
    && AuditFor(t, groups, audit.index, now.source) == Audited(audit) && Capturable(t, rail, now, audit, mode)
    && t.env.fold(now.source.evidence) == t.env.fold(first.source.evidence)
    && now.outcome.grid == first.outcome.grid && now.outcome.impedance == first.outcome.impedance
    && now.outcome.told == first.outcome.told
    && FoldedBoard(t.env, now.board) == FoldedBoard(t.env, first.board)
  }

  /** A captured rail is matched exactly by a view in which nothing identified has moved. */
  lemma MatchesUnchanged(t: Tools, groups: seq<Group>, rail: Bytes, first: View, now: View, audit: Audit, mode: int)
    requires CollisionFree(t) && Capture(t, rail, first, audit, mode).Some?
    ensures Matches(t, groups, Capture(t, rail, first, audit, mode).value, now) <==> Unmoved(t, groups, rail, first, now, audit, mode)
  {
    hide AuditFor, ProvesInvariance, SourceAgrees;
    var solved := Capture(t, rail, first, audit, mode).value;
    assert t.ids.vector(now.outcome.grid) == Some(solved.grid) <==> now.outcome.grid == first.outcome.grid;
    assert t.ids.vector(now.outcome.impedance) == Some(solved.impedance) <==> now.outcome.impedance == first.outcome.impedance;
    assert t.ids.json(now.outcome.told) == Some(solved.provenance) <==> now.outcome.told == first.outcome.told;
  }

  predicate SameDiagnostics(cell: Cell, now: View) {
    cell.Completed? ==> cell.report.diagnostics.Some? && now.outcome.rest == cell.report.diagnostics.value.rest
  }

  /** A reused report fits its source exactly if the numerical diagnostics, which no identity covers, are the same. */
  lemma ReusedReportFits(t: Tools, s: Solving, rail: Bytes, source: int, now: View, mode: int)
    requires Digests(t) && CollisionFree(t) && Founded(t, s.groups) && SolveRail(t, s, rail, source).Some?
    requires var settled := SolveRail(t, s, rail, source).value;
             settled.cell.Completed? && settled.solved.Some? && Matches(t, s.groups, settled.solved.value, now)
    ensures var settled := SolveRail(t, s, rail, source).value;
            var cell := Completed(ReportOf(t, rail, now.outcome, mode, ReuseClaims(settled.solved.value, mode)));
            CellFits(t.env, mode, ReusedRun, rail, settled.cell, cell) <==> SameDiagnostics(settled.cell, now)
  {
    hide SolveRail, AuditFor, SolvedSound, DetailsFit, Capture, Matches, ValidSha;
    SettledRail(t, s, rail, source);
    var settled := SolveRail(t, s, rail, source).value;
    var first, solved := s.attempt(rail).view, settled.solved.value;
    MatchesUnchanged(t, s.groups, rail, first, now, solved.audit, source);
    CaptureIsModal(t, rail, first, solved.audit, source);
    CapturableIsModal(t, rail, now, solved.audit, source);
    ClaimsAreFit(t, rail, solved, mode);
  }

  lemma CapturableIsModal(t: Tools, rail: Bytes, view: View, audit: Audit, mode: int)
    requires Capturable(t, rail, view, audit, mode)
    ensures view.outcome.modeCount == 1 && view.outcome.convergence == Some(Convergence(mode, mode, mode, mode, true))
  {
  }

  lemma ClaimsAreFit(t: Tools, rail: Bytes, solved: Solved, mode: int)
    requires SolvedSound(t, rail, solved)
    ensures DetailsFit(t.env, ReusedRun, rail, ReuseClaims(solved, mode)) && ClaimsReuse(ReuseClaims(solved, mode), mode)
    ensures SameEvidence(t.env, DetailsOf(solved, SourceSolve), ReuseClaims(solved, mode))
  {
    hide ValidSha;
    DetailsAreFit(t, rail, solved, ExactReuse, ReusedRun);
  }

  /** The cell of a reused run: a blocker always fits, a report exactly with the source's diagnostics. */
  lemma ReusedCellFits(t: Tools, s: Solving, rails: seq<Bytes>, rail: Bytes, source: int, now: View, mode: int)
    requires Digests(t) && CollisionFree(t) && Founded(t, s.groups) && rail in rails && SolveRail(t, s, rail, source).Some?
    requires ReuseRail(t, s.groups, CellsOf(t, s, rails, source), SolvedOf(t, s, rails, source), rail, now, mode).Some?
    ensures var cells := CellsOf(t, s, rails, source);
            var cell := ReuseRail(t, s.groups, cells, SolvedOf(t, s, rails, source), rail, now, mode).value;
            rail in cells && (CellFits(t.env, mode, ReusedRun, rail, cells[rail], cell) <==> SameDiagnostics(cells[rail], now))
  {
    hide SolveRail, Matches, ReportOf, ReuseClaims, EvidenceFits, ReuseFits;
    SettledRail(t, s, rail, source);
    var cell := SolveRail(t, s, rail, source).value.cell;
    assert CellsOf(t, s, rails, source)[rail] == cell;
    if cell.Completed? {
      ReusedReportFits(t, s, rail, source, now, mode);
    }
  }

  /** The view with other numerical diagnostics. */
  function Drifted(view: View, rest: Bytes): View {
    view.(outcome := view.outcome.(rest := rest))
  }

  /** Diagnostics that drift are not noticed by the reuse; parity refuses the report made of them. */
  lemma DriftIsReused(t: Tools, s: Solving, rails: seq<Bytes>, rail: Bytes, source: int, rest: Bytes, mode: int)
    requires Digests(t) && CollisionFree(t) && Founded(t, s.groups) && rail in rails && SolveRail(t, s, rail, source).Some?
    requires SolveRail(t, s, rail, source).value.cell.Completed? && s.attempt(rail).Evaluated? && rest != s.attempt(rail).view.outcome.rest
    ensures var cells := CellsOf(t, s, rails, source);
            var cell := ReuseRail(t, s.groups, cells, SolvedOf(t, s, rails, source), rail, Drifted(s.attempt(rail).view, rest), mode);
            rail in cells && cell.Some? && !CellFits(t.env, mode, ReusedRun, rail, cells[rail], cell.value)
  {
    hide SolveRail, Matches, AuditFor, Capture, Capturable, ReuseClaims, DetailsOf, SolvedSound, CellFits;
    SettledRail(t, s, rail, source);
    var settled, now := SolveRail(t, s, rail, source).value, Drifted(s.attempt(rail).view, rest);
    assert CellsOf(t, s, rails, source)[rail] == settled.cell;
    DriftIsCapturable(t, rail, s.attempt(rail).view, rest, settled.solved.value.audit, source);
    MatchesUnchanged(t, s.groups, rail, s.attempt(rail).view, now, settled.solved.value.audit, source);
    ReusedCellFits(t, s, rails, rail, source, now, mode);
  }

  lemma DriftIsCapturable(t: Tools, rail: Bytes, view: View, rest: Bytes, audit: Audit, mode: int)
    requires Capture(t, rail, view, audit, mode).Some?
    ensures Capturable(t, rail, Drifted(view, rest), audit, mode)
  {
  }

  /** Two passes agree on a rail when both complete it or both give the same blocker. */
  predicate SameFate(a: Cell, b: Cell) {
    (a.Completed? && b.Completed?) || (a.Blocked? && b.Blocked? && a.error == b.error && a.reason == b.reason)
  }

  /** The cell of a recomputed run fits exactly if the rail's fate is the source's. */
  lemma RecomputedCellFits(t: Tools, s: Solving, again: Solving, rail: Bytes, source: int, mode: int)
    requires Digests(t) && Founded(t, s.groups) && Founded(t, again.groups)
    requires SolveRail(t, s, rail, source).Some? && SolveRail(t, again, rail, mode).Some?
    ensures var cell, other := SolveRail(t, s, rail, source).value.cell, SolveRail(t, again, rail, mode).value.cell;
            CellFits(t.env, mode, RecomputedRun, rail, cell, other) <==> SameFate(cell, other)
  {
    hide SolveRail, EvidenceFits, ClaimsNoReuse;
    SettledRail(t, s, rail, source);
    SettledRail(t, again, rail, mode);
    SettledCellFits(t, again, rail, mode);
  }

  // ---- a batch of modes ----

  /** The source pass, what is seen at later modes, the passes that would recompute them, the rails, and the ceiling. */
  datatype Batch = Batch(source: Solving, later: Later, again: int -> Solving, rails: seq<Bytes>, ceiling: Option<int>)

  function SourcePass(t: Tools, b: Batch, source: int): Pass {
    Pass(CellsOf(t, b.source, b.rails, source), SolvedOf(t, b.source, b.rails, source))
  }

  predicate Reuses(t: Tools, b: Batch, source: int, mode: int) {
    Reusable(t, b.source.groups, SourcePass(t, b, source), b.rails, b.later, mode, b.ceiling)
  }

  /** How a mode of the batch turns out. */
  function BatchSolver(t: Tools, b: Batch, source: int): Solver {
    var pass := SourcePass(t, b, source);
    Solver(mode => if Reuses(t, b, source, mode) then Some(ReusedCells(t, b.source.groups, pass, b.rails, b.later, mode)) else None,
           mode => if Finishes(t, b.again(mode), b.rails, mode, b.ceiling) then Some(CellsOf(t, b.again(mode), b.rails, mode)) else None)
  }

  ghost predicate Assumed(t: Tools, b: Batch) {
    Digests(t) && CollisionFree(t) && Founded(t, b.source.groups) && forall mode :: Founded(t, b.again(mode).groups)
  }

  /** A reused mode finds the diagnostics unchanged; a recomputed one repeats every rail's fate. */
  predicate ModeAgrees(t: Tools, b: Batch, source: int, mode: int) {
    var cells := CellsOf(t, b.source, b.rails, source);
    forall rail :: rail in b.rails && rail in cells ==>
      if Reuses(t, b, source, mode) then SameDiagnostics(cells[rail], b.later(mode, rail))
      else
        var again := CellsOf(t, b.again(mode), b.rails, mode);
        rail in again && SameFate(cells[rail], again[rail])
  }

  lemma SolvedCells(t: Tools, s: Solving, rails: seq<Bytes>, mode: int, ceiling: Option<int>, rail: Bytes)
    requires Finishes(t, s, rails, mode, ceiling) && rail in rails
    ensures SolveRail(t, s, rail, mode).Some?
    ensures rail in CellsOf(t, s, rails, mode) && CellsOf(t, s, rails, mode)[rail] == SolveRail(t, s, rail, mode).value.cell
  {
    hide SolveRail;
    var j :| 0 <= j < |rails| && rails[j] == rail;
  }

  lemma SourceRunFits(t: Tools, b: Batch, source: int)
    requires Assumed(t, b) && Finishes(t, b.source, b.rails, source, b.ceiling)
    ensures var cells := CellsOf(t, b.source, b.rails, source);
            RunFits(t.env, source, cells, (source, SourceOf(source, cells)), b.rails)
  {
    hide SolveRail, CellFits;
    var cells := CellsOf(t, b.source, b.rails, source);
    forall j | 0 <= j < |b.rails| ensures RailFits(t.env, source, SourceRun, b.rails[j], cells, cells) {
      SolvedCells(t, b.source, b.rails, source, b.ceiling, b.rails[j]);
      SettledCellFits(t, b.source, b.rails[j], source);
    }
  }

  lemma ReusedRailFits(t: Tools, b: Batch, source: int, mode: int, rail: Bytes)
    requires Assumed(t, b) && Finishes(t, b.source, b.rails, source, b.ceiling) && Reuses(t, b, source, mode) && rail in b.rails
    ensures var cells := CellsOf(t, b.source, b.rails, source);
            && rail in cells
            && (RailFits(t.env, mode, ReusedRun, rail, cells, BatchSolver(t, b, source).reuse(mode).value) <==>
                SameDiagnostics(cells[rail], b.later(mode, rail)))
  {
    hide SolveRail, ReuseRail, CellFits, SameDiagnostics;
    var j :| 0 <= j < |b.rails| && b.rails[j] == rail;
    var pass := SourcePass(t, b, source);
    SolvedCells(t, b.source, b.rails, source, b.ceiling, rail);
    assert ReuseRail(t, b.source.groups, pass.cells, pass.solved, b.rails[j], b.later(mode, b.rails[j]), mode).Some?;
    ReusedCellFits(t, b.source, b.rails, rail, source, b.later(mode, rail), mode);
  }

  lemma RecomputedRailFits(t: Tools, b: Batch, source: int, mode: int, rail: Bytes)
    requires Assumed(t, b) && Finishes(t, b.source, b.rails, source, b.ceiling)
    requires Finishes(t, b.again(mode), b.rails, mode, b.ceiling) && rail in b.rails
    ensures var cells, again := CellsOf(t, b.source, b.rails, source), CellsOf(t, b.again(mode), b.rails, mode);
            && rail in cells && rail in again
            && (RailFits(t.env, mode, RecomputedRun, rail, cells, again) <==> SameFate(cells[rail], again[rail]))
  {
    hide SolveRail, CellFits;
    SolvedCells(t, b.source, b.rails, source, b.ceiling, rail);
    SolvedCells(t, b.again(mode), b.rails, mode, b.ceiling, rail);
    RecomputedCellFits(t, b.source, b.again(mode), rail, source, mode);
  }

  /** The run the runner makes of a later mode fits the source run exactly if the mode agrees. */
  lemma LaterRunFits(t: Tools, b: Batch, source: int, mode: int)
    requires Assumed(t, b) && Finishes(t, b.source, b.rails, source, b.ceiling) && mode != source
    requires Reuses(t, b, source, mode) || Finishes(t, b.again(mode), b.rails, mode, b.ceiling)
    ensures RunFits(t.env, source, CellsOf(t, b.source, b.rails, source), (mode, RunFor(BatchSolver(t, b, source), source, mode)), b.rails)
            <==> ModeAgrees(t, b, source, mode)
  {
    hide CellsOf, ReusedCells, RailFits, SameDiagnostics, SameFate, Finishes, Reuses, Assumed;
    var cells, run := CellsOf(t, b.source, b.rails, source), RunFor(BatchSolver(t, b, source), source, mode);
    assert HeaderFits(source, mode, run);
    forall j | 0 <= j < |b.rails|
      ensures b.rails[j] in cells
      ensures Reuses(t, b, source, mode) ==>
                (RailFits(t.env, mode, run.status, b.rails[j], cells, run.rails) <==>
                 SameDiagnostics(cells[b.rails[j]], b.later(mode, b.rails[j])))
      ensures !Reuses(t, b, source, mode) ==>
                b.rails[j] in run.rails && (RailFits(t.env, mode, run.status, b.rails[j], cells, run.rails) <==>
                                            SameFate(cells[b.rails[j]], run.rails[b.rails[j]]))
    {
      if Reuses(t, b, source, mode) {
        ReusedRailFits(t, b, source, mode, b.rails[j]);
      } else {
        RecomputedRailFits(t, b, source, mode, b.rails[j]);
      }
    }
  }

  /** The first mode is not requested again, and every later mode agrees with it. */
  predicate Agrees(t: Tools, b: Batch, modes: seq<int>)
    requires modes != []
  {
    forall i :: 1 <= i < |modes| ==> modes[i] != modes[0] && ModeAgrees(t, b, modes[0], modes[i])
  }

  /** Parity passes on the runner's runs exactly if the modes agree. */
  lemma PassesIff(t: Tools, b: Batch, modes: seq<int>)
    requires modes != [] && Assumed(t, b) && Finishes(t, b.source, b.rails, modes[0], b.ceiling)
    requires Completes(BatchSolver(t, b, modes[0]), modes, |modes|)
    ensures Passes(t.env, RunsOf(BatchSolver(t, b, modes[0]), CellsOf(t, b.source, b.rails, modes[0]), modes, |modes|), b.rails, modes[0])
            <==> Agrees(t, b, modes)
  {
    hide Passes, RunsOf, CellsOf, BatchSolver, ModeAgrees, Finishes, Assumed, Completes;
    if exists i :: 1 <= i < |modes| && modes[i] == modes[0] {
      RepeatedSourceFails(t.env, BatchSolver(t, b, modes[0]), CellsOf(t, b.source, b.rails, modes[0]), b.rails, modes);
    } else {
      PassesWithoutRepeat(t, b, modes);
    }
  }

  lemma PassesWithoutRepeat(t: Tools, b: Batch, modes: seq<int>)
    requires modes != [] && Assumed(t, b) && Finishes(t, b.source, b.rails, modes[0], b.ceiling)
    requires Completes(BatchSolver(t, b, modes[0]), modes, |modes|) && forall i :: 1 <= i < |modes| ==> modes[i] != modes[0]
    ensures Passes(t.env, RunsOf(BatchSolver(t, b, modes[0]), CellsOf(t, b.source, b.rails, modes[0]), modes, |modes|), b.rails, modes[0])
            <==> Agrees(t, b, modes)
  {
    hide CellsOf, BatchSolver, RunFits, Agrees, Finishes, Assumed, Completes, RunsOf, Entries, Keys, ModeSet, DistinctModes, HeaderFits;
    var cells, solver := CellsOf(t, b.source, b.rails, modes[0]), BatchSolver(t, b, modes[0]);
    var runs := RunsOf(solver, cells, modes, |modes|);
    RunsShape(solver, cells, modes, |modes|);
    SourceIsFound(solver, cells, modes, runs);
    SourceRunFits(t, b, modes[0]);
    LaterRuns(t, b, modes, runs);
  }

  lemma SourceIsFound(solver: Solver, cells: Cells, modes: seq<int>, runs: Runs)
    requires modes != [] && DistinctModes(runs) && Keys(runs) == ModeSet(modes, |modes|)
    requires Entries(solver, SourceOf(modes[0], cells), modes[0], runs)
    ensures Find(runs, modes[0]) == Some(SourceOf(modes[0], cells)) && HeaderFits(modes[0], modes[0], SourceOf(modes[0], cells))
  {
    assert modes[0] in ModeSet(modes, |modes|);
    var at :| 0 <= at < |runs| && runs[at].0 == modes[0];
    FindSource(runs, at);
  }

  /** Run by run, the entries for later modes fit exactly if the modes agree. */
  lemma LaterRuns(t: Tools, b: Batch, modes: seq<int>, runs: Runs)
    requires modes != [] && Assumed(t, b) && Finishes(t, b.source, b.rails, modes[0], b.ceiling)
    requires var cells := CellsOf(t, b.source, b.rails, modes[0]);
             RunFits(t.env, modes[0], cells, (modes[0], SourceOf(modes[0], cells)), b.rails)
    requires Completes(BatchSolver(t, b, modes[0]), modes, |modes|)
    requires forall i :: 1 <= i < |modes| ==> modes[i] != modes[0]
    requires Keys(runs) == ModeSet(modes, |modes|)
    requires Entries(BatchSolver(t, b, modes[0]), SourceOf(modes[0], CellsOf(t, b.source, b.rails, modes[0])), modes[0], runs)
    ensures (forall i :: 0 <= i < |runs| ==> RunFits(t.env, modes[0], CellsOf(t, b.source, b.rails, modes[0]), runs[i], b.rails))
            <==> Agrees(t, b, modes)
  {
    hide CellsOf, ReusedCells, RunFits, ModeAgrees, Finishes, Reuses, Assumed, RunFor, SourceOf;
    var source, cells, solver := modes[0], CellsOf(t, b.source, b.rails, modes[0]), BatchSolver(t, b, modes[0]);
    forall i | 1 <= i < |modes|
      ensures RunFits(t.env, source, cells, (modes[i], RunFor(solver, source, modes[i])), b.rails) <==> ModeAgrees(t, b, source, modes[i])
    {
      assert solver.reuse(modes[i]).Some? || solver.recompute(modes[i]).Some?;
      LaterRunFits(t, b, source, modes[i]);
    }
    forall k | 0 <= k < |runs|
      ensures runs[k].0 == source || exists i :: 1 <= i < |modes| && modes[i] == runs[k].0
    {
      assert runs[k].0 in Keys(runs);
    }
    forall i | 1 <= i < |modes| ensures exists k :: 0 <= k < |runs| && runs[k] == (modes[i], RunFor(solver, source, modes[i])) {
      assert modes[i] in ModeSet(modes, |modes|);
      var k :| 0 <= k < |runs| && runs[k].0 == modes[i];
      assert runs[k] == (modes[i], RunFor(solver, source, modes[i]));
    }
  }

  /** A completed rail is still as the source pass saw it. */
  predicate RailUnmoved(t: Tools, b: Batch, source: int, mode: int, rail: Bytes) {
    var settled := SolveRail(t, b.source, rail, source);
    settled.Some? && settled.value.solved.Some? && b.source.attempt(rail).Evaluated? ==>
      Unmoved(t, b.source.groups, rail, b.source.attempt(rail).view, b.later(mode, rail), settled.value.solved.value.audit, source)
  }

  lemma RailReuses(t: Tools, b: Batch, source: int, mode: int, rail: Bytes)
    requires Assumed(t, b) && Finishes(t, b.source, b.rails, source, b.ceiling) && rail in b.rails
    ensures var pass := SourcePass(t, b, source);
            ReuseRail(t, b.source.groups, pass.cells, pass.solved, rail, b.later(mode, rail), mode).Some? <==>
            RailUnmoved(t, b, source, mode, rail)
  {
    hide SolveRail, Matches, AuditFor, Capture, Capturable, ReuseClaims, DetailsOf, SolvedSound, Unmoved;
    SolvedCells(t, b.source, b.rails, source, b.ceiling, rail);
    SettledRail(t, b.source, rail, source);
    var settled := SolveRail(t, b.source, rail, source).value;
    if settled.cell.Completed? {
      MatchesUnchanged(t, b.source.groups, rail, b.source.attempt(rail).view, b.later(mode, rail), settled.solved.value.audit, source);
    }
  }

  /** The runner gives a reuse up exactly if the ceiling is below the mode or something identified of a completed rail has moved. */
  lemma ReusesIff(t: Tools, b: Batch, source: int, mode: int)
    requires Assumed(t, b) && Finishes(t, b.source, b.rails, source, b.ceiling)
    ensures Reuses(t, b, source, mode) <==>
            Below(mode, b.ceiling) && forall rail :: rail in b.rails ==> RailUnmoved(t, b, source, mode, rail)
  {
    hide ReuseRail, RailUnmoved, Finishes, Assumed, SourcePass;
    forall rail | rail in b.rails
      ensures var pass := SourcePass(t, b, source);
              ReuseRail(t, b.source.groups, pass.cells, pass.solved, rail, b.later(mode, rail), mode).Some? <==>
              RailUnmoved(t, b, source, mode, rail)
    {
      RailReuses(t, b, source, mode, rail);
    }
  }

  // ---- batches in which nothing changes ----

  /** At every later mode the rails are seen as the source pass saw them. */
  ghost predicate Unchanged(b: Batch, modes: seq<int>) {
    forall i, rail :: 1 <= i < |modes| && rail in b.rails && b.source.attempt(rail).Evaluated? ==>
      b.later(modes[i], rail) == b.source.attempt(rail).view
  }

  predicate Admitted(b: Batch, modes: seq<int>) {
    forall i :: 0 <= i < |modes| ==> Below(modes[i], b.ceiling)
  }

  /** A rail that is seen unchanged is reused. */
  lemma UnchangedRail(t: Tools, s: Solving, rails: seq<Bytes>, rail: Bytes, source: int, now: View, mode: int)
    requires Digests(t) && CollisionFree(t) && Founded(t, s.groups) && rail in rails && SolveRail(t, s, rail, source).Some?
    requires s.attempt(rail).Evaluated? ==> now == s.attempt(rail).view
    ensures ReuseRail(t, s.groups, CellsOf(t, s, rails, source), SolvedOf(t, s, rails, source), rail, now, mode).Some?
    ensures SameDiagnostics(SolveRail(t, s, rail, source).value.cell, now)
  {
    hide SolveRail, Matches, AuditFor, Capture, Capturable, ReuseClaims, DetailsOf, SolvedSound;
    SettledRail(t, s, rail, source);
    var settled := SolveRail(t, s, rail, source).value;
    assert CellsOf(t, s, rails, source)[rail] == settled.cell;
    if settled.cell.Completed? {
      CaptureIsCapturable(t, rail, now, settled.solved.value.audit, source);
      MatchesUnchanged(t, s.groups, rail, now, now, settled.solved.value.audit, source);
    }
  }

  lemma CaptureIsCapturable(t: Tools, rail: Bytes, view: View, audit: Audit, mode: int)
    requires Capture(t, rail, view, audit, mode).Some?
    ensures Capturable(t, rail, view, audit, mode)
  {
  }

  lemma UnchangedMode(t: Tools, b: Batch, source: int, mode: int)
    requires Assumed(t, b) && Finishes(t, b.source, b.rails, source, b.ceiling) && Below(mode, b.ceiling)
    requires forall rail :: rail in b.rails && b.source.attempt(rail).Evaluated? ==> b.later(mode, rail) == b.source.attempt(rail).view
    ensures Reuses(t, b, source, mode) && ModeAgrees(t, b, source, mode)
  {
    hide SolveRail, ReuseRail, SameDiagnostics;
    forall rail | rail in b.rails
      ensures ReuseRail(t, b.source.groups, CellsOf(t, b.source, b.rails, source), SolvedOf(t, b.source, b.rails, source), rail,
                        b.later(mode, rail), mode).Some?
      ensures rail in CellsOf(t, b.source, b.rails, source)
              && SameDiagnostics(CellsOf(t, b.source, b.rails, source)[rail], b.later(mode, rail))
    {
      SolvedCells(t, b.source, b.rails, source, b.ceiling, rail);
      UnchangedRail(t, b.source, b.rails, rail, source, b.later(mode, rail), mode);
    }
  }

  /** When nothing changes, every mode is reused, none is recomputed, and parity passes. */
  lemma UnchangedBatchPasses(t: Tools, b: Batch, modes: seq<int>)
    requires modes != [] && Assumed(t, b) && Finishes(t, b.source, b.rails, modes[0], b.ceiling)
    requires Unchanged(b, modes) && Admitted(b, modes) && forall i :: 1 <= i < |modes| ==> modes[i] != modes[0]
    ensures var solver := BatchSolver(t, b, modes[0]);
            && Completes(solver, modes, |modes|) && FallbacksOf(solver, modes, |modes|) == {}
            && Passes(t.env, RunsOf(solver, CellsOf(t, b.source, b.rails, modes[0]), modes, |modes|), b.rails, modes[0])
  {
    hide Passes, RunsOf, CellsOf, ReusedCells, Finishes, Reuses, ModeAgrees, Assumed, SourcePass;
    forall i | 1 <= i < |modes| ensures Reuses(t, b, modes[0], modes[i]) && ModeAgrees(t, b, modes[0], modes[i]) {
      UnchangedMode(t, b, modes[0], modes[i]);
    }
    PassesIff(t, b, modes);
  }

  /** The whole batch: solve the first mode, then run the others off it. */
  method RunBatch(t: Tools, b: Batch, modes: seq<int>) returns (runs: Option<Runs>, accounts: Option<Accounts>)
    requires modes != []
    ensures runs.Some? <==> Finishes(t, b.source, b.rails, modes[0], b.ceiling) && Completes(BatchSolver(t, b, modes[0]), modes, |modes|)
    ensures runs.Some? ==> runs.value == RunsOf(BatchSolver(t, b, modes[0]), CellsOf(t, b.source, b.rails, modes[0]), modes, |modes|)
    ensures Assumed(t, b) ==> (accounts.Some? <==> runs.Some? && Agrees(t, b, modes))
    ensures accounts.Some? ==> runs.Some?
    ensures accounts.Some? ==>
              var cells, a := CellsOf(t, b.source, b.rails, modes[0]), accounts.value;
              && a.requested == |b.rails| * |modes| && a.executed == |b.rails| * (1 + a.fallbacks)
              && a.requested == a.executed + a.reusedResults
              && a.fallbacks == |FallbacksOf(BatchSolver(t, b, modes[0]), modes, |modes|)|
              && (a.parity.reused + a.parity.blockers == a.reusedResults + BlockedRails(cells, b.rails) * a.fallbacks <==>
                  NoRepeats(modes) || b.rails == [])
  {
    hide Passes, RunsOf, CellsOf, ReusedCells, Finishes, Reuses, Agrees, FallbacksOf, Tally, CompletedRails, BlockedRails, NoRepeats, Assumed;
    var source := modes[0];
    var pass := RunOne(t, b.source, b.rails, source, b.ceiling);
    if pass.None? {
      return None, None;
    }
    runs, accounts := RunModes(t.env, BatchSolver(t, b, source), pass.value.cells, b.rails, modes);
    if runs.Some? && Assumed(t, b) {
      PassesIff(t, b, modes);
    }
    if accounts.Some? {
      TallyOfRuns(t.env, BatchSolver(t, b, source), pass.value.cells, b.rails, modes);
      Accounting(t.env, BatchSolver(t, b, source), pass.value.cells, b.rails, modes, accounts.value);
    }
  }

  // ---- a repeated mode, and how the caller avoids it ----

  /** A batch of one rail that is blocked. */
  function BlockedBatch(rail: Bytes, error: Bytes, reason: Bytes, view: View): Batch {
    var solving := Solving([], _ => Unsolved(error, reason));
    Batch(solving, (_, _) => view, _ => solving, [rail], None)
  }

  /** With a mode requested twice parity passes, and the counters miss one of the two reused results they should make up. */
  lemma RepeatedModeMiscounts(t: Tools, rail: Bytes, error: Bytes, reason: Bytes, view: View)
    requires Digests(t) && CollisionFree(t)
    ensures var b, modes := BlockedBatch(rail, error, reason, view), [6, 12, 12];
            var cells, solver := CellsOf(t, b.source, b.rails, 6), BatchSolver(t, b, 6);
            var runs := RunsOf(solver, cells, modes, 3);
            && Finishes(t, b.source, b.rails, 6, b.ceiling) && FallbacksOf(solver, modes, 3) == {}
            && Passes(t.env, runs, b.rails, 6)
            && Tally(runs, 6, CompletedRails(cells, b.rails), BlockedRails(cells, b.rails)) == Counts(0, 0, 1)
            && |b.rails| * |modes| - |b.rails| == 2
  {
    var b, modes := BlockedBatch(rail, error, reason, view), [6, 12, 12];
    var cells, solver := CellsOf(t, b.source, b.rails, 6), BatchSolver(t, b, 6);
    UnchangedBatchPasses(t, b, modes);
    BlockedCells(t, b, cells, rail);
    TallyOfRuns(t.env, solver, cells, b.rails, modes);
    assert ModeSet(modes, 3) == {6, 12};
  }

  lemma BlockedCells(t: Tools, b: Batch, cells: Cells, rail: Bytes)
    requires b.rails == [rail] && b.source.attempt(rail).Unsolved? && cells == CellsOf(t, b.source, b.rails, 6)
    ensures CompletedRails(cells, b.rails) == 0 && BlockedRails(cells, b.rails) == 1
  {
    assert rail in b.rails && cells[rail].Blocked?;
    assert b.rails[..0] == [];
  }

  /** The command line's modes: without repeats, the first occurrence counting, and two defaults if none is given. */
  function RequestedModes(args: seq<int>): seq<int> {
    FromKeys(if args == [] then [6, 12] else args)
  }

  /** The program: refuse a ceiling below a mode, then run the batch; its counters always add up. */
  method RunRequested(t: Tools, b: Batch, args: seq<int>) returns (runs: Option<Runs>, accounts: Option<Accounts>)
    ensures accounts.Some? ==>
              var modes := RequestedModes(args);
              && modes != [] && runs.Some? && Admitted(b, modes)
              && accounts.value.parity.reused + accounts.value.parity.blockers ==
                 accounts.value.reusedResults + BlockedRails(CellsOf(t, b.source, b.rails, modes[0]), b.rails) * accounts.value.fallbacks
    ensures var modes := RequestedModes(args);
            Assumed(t, b) && modes != [] && Admitted(b, modes) && Unchanged(b, modes) && Finishes(t, b.source, b.rails, modes[0], b.ceiling) ==>
              && accounts.Some? && accounts.value.fallbacks == 0 && accounts.value.executed == |b.rails|
              && accounts.value.reusedResults == |b.rails| * (|modes| - 1)
  {
    hide Passes, RunsOf, CellsOf, BatchSolver, Finishes, Agrees, FallbacksOf, BlockedRails, Assumed, Unchanged, FromKeys;
    var modes := RequestedModes(args);
    FirstOccurrences(if args == [] then [6, 12] else args);
    for i := 0 to |modes|
      invariant forall k :: 0 <= k < i ==> Below(modes[k], b.ceiling)
    {
      if b.ceiling.Some? && modes[i] > b.ceiling.value {
        return None, None;
      }
    }
    runs, accounts := RunBatch(t, b, modes);
    if Assumed(t, b) && Unchanged(b, modes) && Finishes(t, b.source, b.rails, modes[0], b.ceiling) {
      UnchangedBatchPasses(t, b, modes);
      PassesIff(t, b, modes);
      assert accounts.Some? && accounts.value.fallbacks == 0;
      assert |b.rails| * (1 + 0) == |b.rails| && |b.rails| * (|modes| - 1) == |b.rails| * |modes| - |b.rails|;
    }
  }
}
