/** What the parity check asks, written out. */
module ParityRules {
  import opened ByteStrings
  import opened RowTables
  import opened BoardReuse
  import opened ModeRuns

  /** The run is the mode's: the source's own, or one reused from the source or recomputed. */
  predicate HeaderOk(source: int, mode: int, run: Run) {
    && run.guard == true && run.mode == mode
    && (mode == source ==> run.status == SourceRun && run.source == Some(source))
    && (mode != source ==> (run.status == ReusedRun && run.source == Some(source)) || run.status == RecomputedRun)
  }

  /** A completed rail's evidence: which rail and port, from exact objects and one board solve, without any modal difference. */
  predicate EvidenceOk(env: Env, mode: int, mark: Mark, rail: Bytes, now: Report) {
    && now.details.Some? && now.diagnostics.Some?
    && var d := now.details.value;
    && d.guard == true && d.mark == mark && env.fold(d.exact.rail) == env.fold(rail)
    && |d.exact.port| > 0 && |d.exact.positive| > 0 && |d.exact.negative| > 0
    && |d.exact.objects| == 4 && (forall i :: 0 <= i < 4 ==> d.exact.objects[i] == Yes)
    && d.board.Some? && Digest(env, d.board.value.solveIdentity) && now.diagnostics.value.board == d.board
    && now.convergence.Some? && now.convergence.value.still
    && now.convergence.value.lowerX == mode && now.convergence.value.lowerY == mode
    && now.convergence.value.finalX == mode && now.convergence.value.finalY == mode
  }

  /** A reused rail: every claim of exact reuse, valid digests, and the source's own data. */
  predicate ReuseOk(env: Env, mode: int, was: Report, now: Report)
    requires now.details.Some?
  {
    && var d := now.details.value;
    && d.numerical == Yes && d.grid == Yes && d.impedance == Yes && d.identity == Yes && d.projectionExact == Yes
    && d.metricsRecomputed == Yes && d.projectionRecomputed == No && d.requested == Some(mode)
    && was.details.Some?
    && var e := was.details.value;
    && d.guard == e.guard && d.exact == e.exact && d.board == e.board
    && |d.exact.hashes| == 11 && (forall i :: 0 <= i < 11 ==> Digest(env, d.exact.hashes[i]))
    && d.board.Some? && Digest(env, d.board.value.solveIdentity)
    && now.provenance == was.provenance && now.metrics == was.metrics && now.bandMetrics == was.bandMetrics
    && now.diagnostics == was.diagnostics && now.modeCount == 1 && was.modeCount == 1
  }

  /** A rail of the source that is blocked stays blocked alike, one that is completed stays completed. */
  predicate RailOk(env: Env, mode: int, status: RunStatus, rail: Bytes, was: Cell, now: Cell) {
    || (&& was.Blocked? && now.Blocked? && now.error == was.error && now.reason == was.reason
        && (status == ReusedRun ==> now.note == Some(BlockNote(true, BlockerReused, No))))
    || (&& was.Completed? && now.Completed?
        && EvidenceOk(env, mode, if status == ReusedRun then ExactReuse else SourceSolve, rail, now.report)
        && (status == ReusedRun ==> ReuseOk(env, mode, was.report, now.report))
        && (status != ReusedRun ==>
              && now.report.details.value.projectionExact == No && now.report.details.value.metricsRecomputed == No
              && now.report.details.value.projectionRecomputed == No))
  }

  lemma EvidenceIs(env: Env, mode: int, status: RunStatus, rail: Bytes, now: Report)
    ensures EvidenceFits(env, mode, status, rail, now) <==>
            EvidenceOk(env, mode, if status == ReusedRun then ExactReuse else SourceSolve, rail, now)
  {
    hide ValidSha, Digest;
    if now.details.Some? {
      var d := now.details.value;
      if d.board.Some? {
        ShaIs(env, d.board.value.solveIdentity);
      }
      assert d.exact.objects == [Yes, Yes, Yes, Yes] <==>
             |d.exact.objects| == 4 && forall i :: 0 <= i < 4 ==> d.exact.objects[i] == Yes;
    }
  }

  lemma ReuseIs(env: Env, mode: int, was: Report, now: Report)
    requires now.details.Some?
    ensures ReuseFits(env, mode, was, now) <==> ReuseOk(env, mode, was, now)
  {
    hide ValidSha, Digest;
    var d := now.details.value;
    if d.board.Some? {
      ShaIs(env, d.board.value.solveIdentity);
    }
    forall i | 0 <= i < |d.exact.hashes| ensures ValidSha(env, d.exact.hashes[i]) <==> Digest(env, d.exact.hashes[i]) {
      ShaIs(env, d.exact.hashes[i]);
    }
  }

  lemma RailIs(env: Env, mode: int, status: RunStatus, rail: Bytes, was: Cell, now: Cell)
    ensures CellFits(env, mode, status, rail, was, now) <==> RailOk(env, mode, status, rail, was, now)
  {
    hide EvidenceFits, EvidenceOk, ReuseFits, ReuseOk;
    if was.Completed? && now.Completed? {
      EvidenceIs(env, mode, status, rail, now.report);
      if EvidenceFits(env, mode, status, rail, now.report) {
        assert now.report.details.Some? by { EvidenceHasDetails(env, mode, status, rail, now.report); }
        ReuseIs(env, mode, was.report, now.report);
      }
    }
  }

  lemma EvidenceHasDetails(env: Env, mode: int, status: RunStatus, rail: Bytes, now: Report)
    requires EvidenceFits(env, mode, status, rail, now)
    ensures now.details.Some?
  {
  }

  /** The parity check passes exactly if the source run is there and every run and rail is as written out. */
  lemma PassesIs(env: Env, runs: Runs, rails: seq<Bytes>, source: int)
    ensures Passes(env, runs, rails, source) <==>
            && Find(runs, source).Some? && HeaderOk(source, source, Find(runs, source).value)
            && var original := Find(runs, source).value.rails;
            && forall i :: 0 <= i < |runs| ==>
                 && HeaderOk(source, runs[i].0, runs[i].1)
                 && forall j :: 0 <= j < |rails| ==>
                      && rails[j] in original && rails[j] in runs[i].1.rails
                      && RailOk(env, runs[i].0, runs[i].1.status, rails[j], original[rails[j]], runs[i].1.rails[rails[j]])
  {
    hide CellFits, RailOk;
    forall mode, run ensures HeaderFits(source, mode, run) <==> HeaderOk(source, mode, run) {
    }
    forall mode, status, rail, was, now
      ensures CellFits(env, mode, status, rail, was, now) <==> RailOk(env, mode, status, rail, was, now)
    {
      RailIs(env, mode, status, rail, was, now);
    }
  }
}
