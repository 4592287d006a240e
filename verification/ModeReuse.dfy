/** Solving a mode, capturing its rails, and reusing them for another mode. */
module ModeReuse {
  import opened ByteStrings
  import opened RowTables
  import opened BoardReuse
  import opened ModeRuns
  import opened ModeAccounts

  // ---- what the code sees of a rail: its source model, the solver's outcome, and the board result ----

  datatype Port = Port(id: Bytes, positive: Bytes, negative: Bytes)

  /** A substrate's port selector maps; `sealed` where the maps, the ports and the network's inventory are immutable and the same objects. */
  datatype Selectors = Selectors(sealed: bool, ports: map<Bytes, Port>, selected: map<Bytes, Bytes>, references: map<Bytes, Bytes>)

  datatype Connectivity = Connectivity(source: Bytes, reference: Bytes)

  /** A rail's source model: `connectivity` where it is frozen, `told` where the provenance is a read-only mapping. */
  datatype RailSource = RailSource(substrate: Address, network: Address, manifest: Address, selectors: Selectors, rail: Bytes,
                                   selected: Bytes, connectivity: Option<Connectivity>, told: Option<Told>, evidence: Bytes)

  /** A solver's outcome; arrays are their byte images, and `rest` the two numerical diagnostics of the report. */
  datatype Solution = Solution(rail: Bytes, profile: Bytes, told: Told, modal: bool, convergence: Option<Convergence>,
                               grid: Bytes, impedance: Bytes, modeCount: int, rest: Bytes)

  /**
   An all-port board result: `projected` is the inverse of a port's admittance; `checked` that its
   diagnostics are frozen, `sane` that their three ratios are finite and not negative.
   */
  datatype BoardResult = BoardResult(frozen: bool, grid: Bytes, projected: Bytes -> Bytes, checked: bool, evidence: BoardEvidence, sane: bool)

  datatype View = View(source: RailSource, outcome: Solution, board: BoardResult)

  // ---- identities ----

  /** SHA-256 of a numerical vector, of a JSON mapping (each None where refused), and of the selector rows. */
  datatype Identities = Identities(vector: Bytes -> Option<Bytes>, json: Told -> Option<Bytes>, selectors: Selectors -> Bytes)

  datatype Metrics = Metrics(critical: Bytes, bands: Bytes)

  /** What a batch has at hand; `measure` compares a grid and an impedance with the reference of a rail's port. */
  datatype Tools = Tools(env: Env, ids: Identities, profile: Profile, measure: (Bytes, Bytes, Bytes) -> Metrics)

  /** Digests are 64 hexadecimal digits. */
  ghost predicate Digests(t: Tools) {
    && (forall v :: t.ids.vector(v).Some? ==> ValidSha(t.env, t.ids.vector(v).value))
    && (forall told :: t.ids.json(told).Some? ==> ValidSha(t.env, t.ids.json(told).value))
  }

  /** Different vectors and different mappings have different digests. */
  ghost predicate CollisionFree(t: Tools) {
    && (forall v, w :: t.ids.vector(v).Some? && t.ids.vector(v) == t.ids.vector(w) ==> v == w)
    && (forall a, b :: t.ids.json(a).Some? && t.ids.json(a) == t.ids.json(b) ==> a == b)
  }

  // ---- the audit of a rail against its board group ----

  function Get<K>(told: map<K, Bytes>, key: K): Bytes {
    if key in told then told[key] else []
  }

  predicate PortNamed(port: Port) {
    port.id != [] && port.positive != [] && port.negative != [] && port.positive != port.negative
  }

  function SelectorIdentity(ids: Identities, s: Selectors): Option<Bytes> {
    if s.sealed && s.ports != map[] && s.ports.Keys == s.selected.Keys == s.references.Keys
       && forall key :: key in s.ports ==> PortNamed(s.ports[key])
    then Some(ids.selectors(s)) else None
  }

  datatype Audit = Audit(index: nat, profile: Bytes, hashes: seq<Bytes>, rail: Bytes, selected: Bytes, reference: Bytes, port: Port)

  datatype Audited = Audited(audit: Audit) | Unaudited(reason: Bytes)

  const UNKNOWN_GROUP: Bytes := Ascii("unknown board reuse group")
  const OTHER_OBJECTS: Bytes := Ascii("rail source no longer references") + Ascii(" its exact board reuse group")
  const OTHER_SELECTOR: Bytes := Ascii("rail source port selector/provenance") + Ascii(" does not match its board group")

  predicate SelectsRail(t: Tools, group: Group, source: RailSource) {
    var rail := t.env.strip(source.rail);
    var key := t.env.fold(rail);
    var s := source.selectors;
    && rail != [] && source.connectivity.Some? && source.told.Some? && key in s.ports
    && t.env.fold(source.selected) == t.env.fold(Get(s.selected, key))
    && t.env.fold(source.connectivity.value.source) == t.env.fold(Get(s.selected, key))
    && t.env.fold(source.connectivity.value.reference) == t.env.fold(Get(s.references, key))
    && t.env.fold(Get(source.told.value, RailId)) == key
    && t.env.fold(Get(source.told.value, SelectedNet)) == t.env.fold(Get(s.selected, key))
    && t.env.fold(Get(source.told.value, RailPorts)) == group.railPorts
    && SelectorIdentity(t.ids, s) == Some(group.selector)
  }

  function AuditFor(t: Tools, groups: seq<Group>, index: nat, source: RailSource): Audited {
    if index >= |groups| then Unaudited(UNKNOWN_GROUP)
    else
      var g := groups[index];
      if source.substrate != g.substrate.at || source.network != g.network.at || source.manifest != g.manifest.at
      then Unaudited(OTHER_OBJECTS)
      else if !SelectsRail(t, g, source) then Unaudited(OTHER_SELECTOR)
      else
        var rail := t.env.strip(source.rail);
        var key := t.env.fold(rail);
        Audited(Audit(index, g.profile,
                      [g.algorithm, g.source, g.substrateId, g.scenario, g.manifestId, g.railPorts, g.selector],
                      rail, Get(source.selectors.selected, key), Get(source.selectors.references, key), source.selectors.ports[key]))
  }

  // ---- capturing a solved rail ----

  const NOT_APPLICABLE: Bytes := Ascii("not_applicable")
  const EXTERNAL_PORT: Bytes := Ascii("analytic_terminal_complete") + Ascii("_external_device_port")
  const ZERO: Bytes := Ascii("0")

  /** The keys under which outcome and source model have to agree. */
  const REQUIRED: seq<Key> := [SourceSha, AlgorithmSha, SubstrateSha, ManifestSha, BoundSubstrateSha, LayerwiseSha]

  /** The outcome is the rail's, of the terminal-complete profile, and independent of the modal order. */
  predicate ProvesInvariance(t: Tools, rail: Bytes, view: View, audit: Audit, mode: int) {
    var outcome := view.outcome;
    && outcome.rail == rail && t.env.fold(view.source.rail) == t.env.fold(rail) && t.env.fold(audit.rail) == t.env.fold(rail)
    && t.env.fold(Get(outcome.told, RailId)) == t.env.fold(rail)
    && t.env.fold(Get(outcome.told, SelectedNet)) == t.env.fold(audit.selected)
    && |audit.hashes| == 7 && t.env.fold(Get(outcome.told, RailPorts)) == t.env.fold(audit.hashes[5])
    && outcome.profile == t.profile.key && view.source.told.Some? && Get(outcome.told, ProfileKey) == t.profile.key
    && outcome.modal && outcome.convergence == Some(Convergence(mode, mode, mode, mode, true))
    && Get(outcome.told, Applicability) == NOT_APPLICABLE && Get(outcome.told, Invariance) == EXTERNAL_PORT
    && Get(outcome.told, SolveCount) == ZERO && outcome.modeCount == 1
  }

  /** The outcome was computed from the source model at hand. */
  predicate SourceAgrees(t: Tools, view: View)
    requires view.source.told.Some?
  {
    && ValidSha(t.env, t.env.fold(view.source.evidence))
    && forall i :: 0 <= i < |REQUIRED| ==>
         t.env.fold(Get(view.outcome.told, REQUIRED[i])) == t.env.fold(Get(view.source.told.value, REQUIRED[i]))
  }

  /** The outcome is the board result's projection to the rail's port. */
  predicate BoardAgrees(t: Tools, view: View, port: Port) {
    var board := view.board;
    && board.frozen && board.checked && board.sane && ValidSha(t.env, t.env.fold(board.evidence.solveIdentity))
    && t.ids.vector(view.outcome.grid).Some? && t.ids.vector(board.grid) == t.ids.vector(view.outcome.grid)
    && t.ids.vector(view.outcome.impedance).Some? && t.ids.vector(board.projected(port.id)) == t.ids.vector(view.outcome.impedance)
    && t.ids.json(view.outcome.told).Some?
  }

  predicate Capturable(t: Tools, rail: Bytes, view: View, audit: Audit, mode: int) {
    ProvesInvariance(t, rail, view, audit, mode) && SourceAgrees(t, view) && BoardAgrees(t, view, audit.port)
  }

  /** What is kept of a solved rail: its audit and the identities of everything a reuse has to find unchanged. */
  datatype Solved = Solved(rail: Bytes, audit: Audit, mode: int, grid: Bytes, impedance: Bytes, evidence: Bytes, provenance: Bytes,
                           board: BoardEvidence)

  function FoldedBoard(env: Env, board: BoardResult): BoardEvidence {
    board.evidence.(solveIdentity := env.fold(board.evidence.solveIdentity))
  }

  function Capture(t: Tools, rail: Bytes, view: View, audit: Audit, mode: int): Option<Solved> {
    if !Capturable(t, rail, view, audit, mode) then None
    else Some(Solved(rail, audit, mode, t.ids.vector(view.outcome.grid).value, t.ids.vector(view.outcome.impedance).value,
                     t.env.fold(view.source.evidence), t.ids.json(view.outcome.told).value, FoldedBoard(t.env, view.board)))
  }

  // ---- reports ----

  function DetailsOf(solved: Solved, mark: Mark): Details {
    var claim := if mark.ExactReuse? then Yes else No;
    var audit := solved.audit;
    Details(true, mark, None,
            Exact(audit.index, audit.profile, solved.mode, audit.rail, audit.selected, audit.reference, audit.port.id, audit.port.positive,
                  audit.port.negative, [Yes, Yes, Yes, Yes],
                  audit.hashes + [solved.evidence, solved.grid, solved.impedance, solved.provenance]),
            Some(solved.board), Missing, Missing, Missing, Missing, claim, claim, No)
  }

  /** The report of a completed rail: the modal indices become the reported mode's, and the board evidence is the captured one. */
  function ReportOf(t: Tools, rail: Bytes, outcome: Solution, mode: int, details: Details): Report {
    var metrics := t.measure(outcome.grid, outcome.impedance, rail);
    var convergence := if outcome.convergence.None? then None
                       else Some(Convergence(mode, mode, mode, mode, outcome.convergence.value.still));
    Report(outcome.told, metrics.critical, metrics.bands, Some(Diagnostics(details.board, outcome.rest)), outcome.modeCount,
           convergence, Some(details))
  }

  // ---- solving a mode ----

  datatype Attempt = Unsolved(error: Bytes, reason: Bytes) | Evaluated(index: nat, view: View)

  /** One pass over the rails: its board groups, and what evaluating a rail leads to. */
  datatype Solving = Solving(groups: seq<Group>, attempt: Bytes -> Attempt)

  const REUSE_ERROR: Bytes := Ascii("_TerminalCompleteReuseError")

  datatype Settled = Settled(cell: Cell, solved: Option<Solved>)

  /** One rail: its cell and what is captured of it, or None where the capture's error ends the whole pass. */
  function SolveRail(t: Tools, s: Solving, rail: Bytes, mode: int): Option<Settled> {
    match s.attempt(rail)
    case Unsolved(error, reason) => Some(Settled(Blocked(error, reason, None), None))
    case Evaluated(index, view) =>
      match AuditFor(t, s.groups, index, view.source)
      case Unaudited(reason) => Some(Settled(Blocked(REUSE_ERROR, reason, None), None))
      case Audited(audit) =>
        var solved := Capture(t, rail, view, audit, mode);
        if solved.None? then None
        else Some(Settled(Completed(ReportOf(t, rail, view.outcome, mode, DetailsOf(solved.value, SourceSolve))), solved))
  }

  predicate Below(mode: int, ceiling: Option<int>) {
    ceiling.Some? ==> mode <= ceiling.value
  }

  /** No error ends the pass. */
  predicate Finishes(t: Tools, s: Solving, rails: seq<Bytes>, mode: int, ceiling: Option<int>) {
    Below(mode, ceiling) && forall j :: 0 <= j < |rails| ==> SolveRail(t, s, rails[j], mode).Some?
  }

  function CellsOf(t: Tools, s: Solving, rails: seq<Bytes>, mode: int): Cells {
    map rail | rail in rails && SolveRail(t, s, rail, mode).Some? :: SolveRail(t, s, rail, mode).value.cell
  }

  type SolvedRails = map<Bytes, Solved>

  function SolvedOf(t: Tools, s: Solving, rails: seq<Bytes>, mode: int): SolvedRails {
    map rail | rail in rails && SolveRail(t, s, rail, mode).Some? && SolveRail(t, s, rail, mode).value.solved.Some? ::
      SolveRail(t, s, rail, mode).value.solved.value
  }

  datatype Pass = Pass(cells: Cells, solved: SolvedRails)

  /** All rails at one mode, one by one. */
  method RunOne(t: Tools, s: Solving, rails: seq<Bytes>, mode: int, ceiling: Option<int>) returns (done: Option<Pass>)
    ensures done.Some? <==> Finishes(t, s, rails, mode, ceiling)
    ensures done.Some? ==> done.value == Pass(CellsOf(t, s, rails, mode), SolvedOf(t, s, rails, mode))
    ensures done.Some? ==> done.value.cells.Keys == set rail | rail in rails
    ensures done.Some? ==> forall rail :: rail in rails ==>
              match s.attempt(rail)
              case Unsolved(error, reason) => done.value.cells[rail] == Blocked(error, reason, None) && rail !in done.value.solved
              case Evaluated(_, view) => if rail in done.value.solved then SolvedCell(t, rail, view, mode, done.value.cells[rail])
                                         else RefusedCell(done.value.cells[rail])
  {
    hide SolveRail;
    if ceiling.Some? && ceiling.value < mode {
      return None;
    }
    var cells: Cells, solved: SolvedRails := map[], map[];
    for j := 0 to |rails|
      invariant forall k :: 0 <= k < j ==> SolveRail(t, s, rails[k], mode).Some?
      invariant cells == CellsOf(t, s, rails[..j], mode) && solved == SolvedOf(t, s, rails[..j], mode)
    {
      var settled := SolveRail(t, s, rails[j], mode);
      if settled.None? {
        return None;
      }
      cells := cells[rails[j] := settled.value.cell];
      if settled.value.solved.Some? {
        solved := solved[rails[j] := settled.value.solved.value];
      }
      assert forall rail :: rail in rails[..j + 1] <==> rail in rails[..j] || rail == rails[j];
    }
    assert rails[..|rails|] == rails;
    forall rail | rail in rails
      ensures rail in cells
      ensures match s.attempt(rail)
              case Unsolved(error, reason) => cells[rail] == Blocked(error, reason, None) && rail !in solved
              case Evaluated(_, view) => if rail in solved then SolvedCell(t, rail, view, mode, cells[rail]) else RefusedCell(cells[rail])
    {
      var j :| 0 <= j < |rails| && rails[j] == rail;
      CellIs(t, s, rail, mode);
    }
    return Some(Pass(cells, solved));
  }

  /** A completed rail reports the outcome's own data, at this mode, marked as a source solve without any claim of reuse. */
  ghost predicate SolvedCell(t: Tools, rail: Bytes, view: View, mode: int, cell: Cell) {
    && cell.Completed? && cell.report.provenance == view.outcome.told && cell.report.modeCount == view.outcome.modeCount == 1
    && cell.report.metrics == t.measure(view.outcome.grid, view.outcome.impedance, rail).critical
    && cell.report.bandMetrics == t.measure(view.outcome.grid, view.outcome.impedance, rail).bands
    && cell.report.convergence == Some(Convergence(mode, mode, mode, mode, true))
    && cell.report.details.Some?
    && var d := cell.report.details.value;
    && cell.report.diagnostics == Some(Diagnostics(d.board, view.outcome.rest))
    && d.guard && d.mark == SourceSolve && d.requested == None && d.numerical == Missing && d.projectionExact == No
    && d.metricsRecomputed == No && d.projectionRecomputed == No
    && d.exact.source == mode && t.env.fold(d.exact.rail) == t.env.fold(rail) && d.exact.rail == t.env.strip(view.source.rail)
    && d.board == Some(BoardEvidence(t.env.fold(view.board.evidence.solveIdentity), view.board.evidence.rest))
    && |d.exact.hashes| == 11 && d.exact.hashes[7] == t.env.fold(view.source.evidence)
    && Some(d.exact.hashes[8]) == t.ids.vector(view.outcome.grid) && Some(d.exact.hashes[9]) == t.ids.vector(view.outcome.impedance)
    && Some(d.exact.hashes[10]) == t.ids.json(view.outcome.told)
  }

  /** A rail whose audit is refused is blocked with the name of that error. */
  predicate RefusedCell(cell: Cell) {
    cell.Blocked? && cell.error == Ascii("_TerminalCompleteReuseError") && cell.note == None
  }

  lemma CellIs(t: Tools, s: Solving, rail: Bytes, mode: int)
    requires SolveRail(t, s, rail, mode).Some?
    ensures var settled := SolveRail(t, s, rail, mode).value;
            match s.attempt(rail)
            case Unsolved(error, reason) => settled == Settled(Blocked(error, reason, None), None)
            case Evaluated(_, view) =>
              if settled.solved.Some? then SolvedCell(t, rail, view, mode, settled.cell) else RefusedCell(settled.cell)
  {
    hide ValidSha, Ascii, NOT_APPLICABLE, EXTERNAL_PORT, ZERO, REQUIRED, UNKNOWN_GROUP, OTHER_OBJECTS, OTHER_SELECTOR, SelectsRail;
    match s.attempt(rail)
    case Unsolved(_, _) =>
    case Evaluated(index, view) =>
      if AuditFor(t, s.groups, index, view.source).Audited? {
        AuditRail(t, s.groups, index, view.source);
      }
  }

  lemma AuditRail(t: Tools, groups: seq<Group>, index: nat, source: RailSource)
    requires AuditFor(t, groups, index, source).Audited?
    ensures AuditFor(t, groups, index, source).audit.rail == t.env.strip(source.rail)
  {
  }

  // ---- reusing a solved mode ----

  /** Everything the captured rail identifies is found unchanged, and the capture itself would succeed again. */
  predicate Matches(t: Tools, groups: seq<Group>, solved: Solved, now: View) {
    && AuditFor(t, groups, solved.audit.index, now.source) == Audited(solved.audit)
    && t.env.fold(now.source.evidence) == solved.evidence
    && t.ids.vector(now.outcome.grid) == Some(solved.grid) && t.ids.vector(now.outcome.impedance) == Some(solved.impedance)
    && t.ids.json(now.outcome.told) == Some(solved.provenance)
    && var verified := Capture(t, solved.rail, now, solved.audit, solved.mode);
    && verified.Some? && verified.value.board == solved.board && verified.value.grid == solved.grid
    && verified.value.impedance == solved.impedance && verified.value.provenance == solved.provenance
  }

  function ReuseClaims(solved: Solved, mode: int): Details {
    DetailsOf(solved, ExactReuse).(requested := Some(mode), numerical := Yes, grid := Yes, impedance := Yes, identity := Yes)
  }

  /** One rail of a reused run: the blocker carried over, or the retained outcome reported for the new mode; None on a mismatch. */
  function ReuseRail(t: Tools, groups: seq<Group>, primary: Cells, solved: SolvedRails, rail: Bytes, now: View, mode: int): Option<Cell> {
    if rail !in primary then None
    else if primary[rail].Blocked? then
      Some(Blocked(primary[rail].error, primary[rail].reason, Some(BlockNote(true, BlockerReused, No))))
    else if !primary[rail].Completed? || rail !in solved || !Matches(t, groups, solved[rail], now) then None
    else Some(Completed(ReportOf(t, rail, now.outcome, mode, ReuseClaims(solved[rail], mode))))
  }

  /** A later pass: what is seen of a rail when a mode is requested again. */
  type Later = (int, Bytes) -> View

  predicate Reusable(t: Tools, groups: seq<Group>, pass: Pass, rails: seq<Bytes>, later: Later, mode: int, ceiling: Option<int>) {
    Below(mode, ceiling) && forall j :: 0 <= j < |rails| ==>
      ReuseRail(t, groups, pass.cells, pass.solved, rails[j], later(mode, rails[j]), mode).Some?
  }

  function ReusedCells(t: Tools, groups: seq<Group>, pass: Pass, rails: seq<Bytes>, later: Later, mode: int): Cells {
    map rail | rail in rails && ReuseRail(t, groups, pass.cells, pass.solved, rail, later(mode, rail), mode).Some? ::
      ReuseRail(t, groups, pass.cells, pass.solved, rail, later(mode, rail), mode).value
  }

  /** The reused run, rail by rail; a mismatch gives it up. */
  method RunReused(t: Tools, groups: seq<Group>, pass: Pass, rails: seq<Bytes>, later: Later, mode: int, ceiling: Option<int>)
    returns (cells: Option<Cells>)
    ensures cells.Some? <==> Reusable(t, groups, pass, rails, later, mode, ceiling)
    ensures cells.Some? ==> cells.value == ReusedCells(t, groups, pass, rails, later, mode)
    ensures cells.Some? ==> cells.value.Keys == set rail | rail in rails
    ensures cells.Some? ==> forall rail :: rail in rails ==>
              && rail in pass.cells
              && match pass.cells[rail]
                 case Blocked(error, reason, _) => cells.value[rail] == Blocked(error, reason, Some(BlockNote(true, BlockerReused, No)))
                 case Completed(_) => rail in pass.solved && ReusedCell(t, rail, pass.solved[rail], later(mode, rail), mode, cells.value[rail])
                 case OtherStatus => false
  {
    hide ReuseRail;
    if ceiling.Some? && ceiling.value < mode {
      return None;
    }
    var made: Cells := map[];
    for j := 0 to |rails|
      invariant forall k :: 0 <= k < j ==> ReuseRail(t, groups, pass.cells, pass.solved, rails[k], later(mode, rails[k]), mode).Some?
      invariant made == ReusedCells(t, groups, pass, rails[..j], later, mode)
    {
      var cell := ReuseRail(t, groups, pass.cells, pass.solved, rails[j], later(mode, rails[j]), mode);
      if cell.None? {
        return None;
      }
      made := made[rails[j] := cell.value];
      assert forall rail :: rail in rails[..j + 1] <==> rail in rails[..j] || rail == rails[j];
    }
    assert rails[..|rails|] == rails;
    forall rail | rail in rails
      ensures rail in made && rail in pass.cells
      ensures match pass.cells[rail]
              case Blocked(error, reason, _) => made[rail] == Blocked(error, reason, Some(BlockNote(true, BlockerReused, No)))
              case Completed(_) => rail in pass.solved && ReusedCell(t, rail, pass.solved[rail], later(mode, rail), mode, made[rail])
              case OtherStatus => false
    {
      var j :| 0 <= j < |rails| && rails[j] == rail;
      ReusedIs(t, groups, pass, rail, later(mode, rail), mode);
    }
    return Some(made);
  }

  /** A reused rail reports the retained outcome at the new mode, with the captured identities and every claim of exact reuse. */
  ghost predicate ReusedCell(t: Tools, rail: Bytes, solved: Solved, now: View, mode: int, cell: Cell) {
    && cell.Completed? && cell.report.provenance == now.outcome.told && cell.report.modeCount == now.outcome.modeCount
    && cell.report.metrics == t.measure(now.outcome.grid, now.outcome.impedance, rail).critical
    && cell.report.bandMetrics == t.measure(now.outcome.grid, now.outcome.impedance, rail).bands
    && (now.outcome.convergence.Some? ==>
          cell.report.convergence == Some(Convergence(mode, mode, mode, mode, now.outcome.convergence.value.still)))
    && cell.report.diagnostics == Some(Diagnostics(Some(solved.board), now.outcome.rest))
    && cell.report.details.Some?
    && var d := cell.report.details.value;
    && d.guard && d.mark == ExactReuse && d.requested == Some(mode) && d.numerical == Yes && d.grid == Yes && d.impedance == Yes
    && d.identity == Yes && d.projectionExact == Yes && d.metricsRecomputed == Yes && d.projectionRecomputed == No
    && d.board == Some(solved.board) && d.exact.source == solved.mode && d.exact.group == solved.audit.index
    && d.exact.rail == solved.audit.rail && d.exact.selected == solved.audit.selected && d.exact.reference == solved.audit.reference
    && d.exact.port == solved.audit.port.id && d.exact.positive == solved.audit.port.positive
    && d.exact.negative == solved.audit.port.negative && d.exact.profile == solved.audit.profile
    && d.exact.hashes == solved.audit.hashes + [solved.evidence, solved.grid, solved.impedance, solved.provenance]
  }

  lemma ReusedIs(t: Tools, groups: seq<Group>, pass: Pass, rail: Bytes, now: View, mode: int)
    requires ReuseRail(t, groups, pass.cells, pass.solved, rail, now, mode).Some?
    ensures var cell := ReuseRail(t, groups, pass.cells, pass.solved, rail, now, mode).value;
            && rail in pass.cells
            && match pass.cells[rail]
               case Blocked(error, reason, _) => cell == Blocked(error, reason, Some(BlockNote(true, BlockerReused, No)))
               case Completed(_) => rail in pass.solved && ReusedCell(t, rail, pass.solved[rail], now, mode, cell)
               case OtherStatus => false
  {
    hide Matches;
  }
}
