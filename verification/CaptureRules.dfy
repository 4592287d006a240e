/** When a rail is audited, captured and matched, written out. */
module CaptureRules {
  import opened ByteStrings
  import opened RowTables
  import opened BoardReuse
  import opened ModeRuns
  import opened ModeReuse

  // ---- the audit ----

  function TextAt(texts: map<Bytes, Bytes>, key: Bytes): Bytes {
    if key in texts then texts[key] else []
  }

  function ToldAt(told: Told, key: Key): Bytes {
    if key in told then told[key] else []
  }

  /** The selector maps are sealed, not empty, of one key set, and name every port by an id and two different nodes. */
  predicate Selectable(s: Selectors) {
    && s.sealed && |s.ports| > 0 && s.ports.Keys == s.selected.Keys && s.ports.Keys == s.references.Keys
    && forall key :: key in s.ports ==> |s.ports[key].id| > 0 && |s.ports[key].positive| > 0 && |s.ports[key].negative| > 0
                                        && s.ports[key].positive != s.ports[key].negative
  }

  /** The source's rail is one of the selector's, with its nets, under the group's port manifest and selector identity. */
  predicate RailSelected(t: Tools, g: Group, source: RailSource) {
    && var f, rail := t.env.fold, t.env.strip(source.rail);
    && var net, reference := TextAt(source.selectors.selected, f(rail)), TextAt(source.selectors.references, f(rail));
    && |rail| > 0 && f(rail) in source.selectors.ports && source.connectivity.Some? && source.told.Some?
    && f(source.selected) == f(net) && f(source.connectivity.value.source) == f(net)
    && f(source.connectivity.value.reference) == f(reference)
    && f(ToldAt(source.told.value, RailId)) == f(rail) && f(ToldAt(source.told.value, SelectedNet)) == f(net)
    && f(ToldAt(source.told.value, RailPorts)) == g.railPorts
    && Selectable(source.selectors) && t.ids.selectors(source.selectors) == g.selector
  }

  predicate SameObjects(g: Group, source: RailSource) {
    source.substrate == g.substrate.at && source.network == g.network.at && source.manifest == g.manifest.at
  }

  /** The audit lists the group's identities and the rail's nets and port. */
  predicate AuditLists(t: Tools, g: Group, index: nat, source: RailSource, audit: Audit) {
    var rail := t.env.strip(source.rail);
    && audit.index == index && audit.rail == rail && audit.profile == g.profile
    && audit.hashes == [g.algorithm, g.source, g.substrateId, g.scenario, g.manifestId, g.railPorts, g.selector]
    && audit.selected == TextAt(source.selectors.selected, t.env.fold(rail))
    && audit.reference == TextAt(source.selectors.references, t.env.fold(rail))
    && t.env.fold(rail) in source.selectors.ports && audit.port == source.selectors.ports[t.env.fold(rail)]
  }

  /** A source is audited exactly against a known group whose objects it has and which selects its rail. */
  lemma AuditIs(t: Tools, groups: seq<Group>, index: nat, source: RailSource)
    ensures AuditFor(t, groups, index, source).Audited? <==>
            index < |groups| && SameObjects(groups[index], source) && RailSelected(t, groups[index], source)
    ensures AuditFor(t, groups, index, source).Audited? ==>
              AuditLists(t, groups[index], index, source, AuditFor(t, groups, index, source).audit)
  {
    hide Ascii, UNKNOWN_GROUP, OTHER_OBJECTS, OTHER_SELECTOR;
    if index < |groups| {
      SelectionIs(t, groups[index], source);
    }
  }

  /** The three reasons for which an audit is refused. */
  lemma UnknownGroupIs(t: Tools, groups: seq<Group>, index: nat, source: RailSource)
    requires index >= |groups|
    ensures AuditFor(t, groups, index, source) == Unaudited(Ascii("unknown board reuse group"))
  {
  }

  lemma OtherObjectsAre(t: Tools, groups: seq<Group>, index: nat, source: RailSource)
    requires index < |groups| && !SameObjects(groups[index], source)
    ensures AuditFor(t, groups, index, source) ==
            Unaudited(Ascii("rail source no longer references") + Ascii(" its exact board reuse group"))
  {
    hide Ascii;
  }

  lemma OtherSelectorIs(t: Tools, groups: seq<Group>, index: nat, source: RailSource)
    requires index < |groups| && SameObjects(groups[index], source) && !RailSelected(t, groups[index], source)
    ensures AuditFor(t, groups, index, source) ==
            Unaudited(Ascii("rail source port selector/provenance") + Ascii(" does not match its board group"))
  {
    hide Ascii, RailSelected, SelectsRail;
    SelectionIs(t, groups[index], source);
  }

  lemma SelectionIs(t: Tools, g: Group, source: RailSource)
    ensures SelectsRail(t, g, source) <==> RailSelected(t, g, source)
  {
    assert SelectorIdentity(t.ids, source.selectors).Some? <==> Selectable(source.selectors);
  }

  // ---- the capture ----

  /** What the provenance of a terminal-complete solve says of modal convergence. */
  predicate SaysInvariant(told: Told) {
    && ToldAt(told, Applicability) == Ascii("not_applicable")
    && ToldAt(told, Invariance) == Ascii("analytic_terminal_complete") + Ascii("_external_device_port")
    && ToldAt(told, SolveCount) == Ascii("0")
  }

  /** Outcome, source model and board result of a rail that can be captured at a mode. */
  predicate Provable(t: Tools, rail: Bytes, view: View, audit: Audit, mode: int) {
    && var o, s, b, f := view.outcome, view.source, view.board, t.env.fold;
    && o.rail == rail && f(s.rail) == f(rail) && f(audit.rail) == f(rail) && f(ToldAt(o.told, RailId)) == f(rail)
    && f(ToldAt(o.told, SelectedNet)) == f(audit.selected)
    && |audit.hashes| == 7 && f(ToldAt(o.told, RailPorts)) == f(audit.hashes[5])
    && o.profile == t.profile.key && ToldAt(o.told, ProfileKey) == t.profile.key && SaysInvariant(o.told)
    && o.modal && o.convergence == Some(Convergence(mode, mode, mode, mode, true)) && o.modeCount == 1
    && s.told.Some? && Digest(t.env, f(s.evidence))
    && (forall key :: key in {SourceSha, AlgorithmSha, SubstrateSha, ManifestSha, BoundSubstrateSha, LayerwiseSha} ==>
          f(ToldAt(o.told, key)) == f(ToldAt(s.told.value, key)))
    && b.frozen && b.checked && b.sane && Digest(t.env, f(b.evidence.solveIdentity))
    && t.ids.vector(o.grid).Some? && t.ids.vector(o.grid) == t.ids.vector(b.grid)
    && t.ids.vector(o.impedance).Some? && t.ids.vector(o.impedance) == t.ids.vector(b.projected(audit.port.id))
    && t.ids.json(o.told).Some?
  }

  lemma InvarianceIs(t: Tools, rail: Bytes, view: View, audit: Audit, mode: int)
    ensures ProvesInvariance(t, rail, view, audit, mode) <==>
            && view.outcome.rail == rail && t.env.fold(view.source.rail) == t.env.fold(rail) && t.env.fold(audit.rail) == t.env.fold(rail)
            && t.env.fold(ToldAt(view.outcome.told, RailId)) == t.env.fold(rail)
            && t.env.fold(ToldAt(view.outcome.told, SelectedNet)) == t.env.fold(audit.selected)
            && |audit.hashes| == 7 && t.env.fold(ToldAt(view.outcome.told, RailPorts)) == t.env.fold(audit.hashes[5])
            && view.outcome.profile == t.profile.key && ToldAt(view.outcome.told, ProfileKey) == t.profile.key
            && SaysInvariant(view.outcome.told) && view.source.told.Some?
            && view.outcome.modal && view.outcome.convergence == Some(Convergence(mode, mode, mode, mode, true)) && view.outcome.modeCount == 1
  {
    hide Ascii;
  }

  lemma AgreementIs(t: Tools, view: View)
    requires view.source.told.Some?
    ensures SourceAgrees(t, view) <==>
            && Digest(t.env, t.env.fold(view.source.evidence))
            && forall key :: key in {SourceSha, AlgorithmSha, SubstrateSha, ManifestSha, BoundSubstrateSha, LayerwiseSha} ==>
                 t.env.fold(ToldAt(view.outcome.told, key)) == t.env.fold(ToldAt(view.source.told.value, key))
  {
    hide Digest, ValidSha;
    ShaIs(t.env, t.env.fold(view.source.evidence));
    assert forall key :: key in {SourceSha, AlgorithmSha, SubstrateSha, ManifestSha, BoundSubstrateSha, LayerwiseSha} <==> key in REQUIRED;
    if SourceAgrees(t, view) {
      forall key | key in REQUIRED
        ensures t.env.fold(ToldAt(view.outcome.told, key)) == t.env.fold(ToldAt(view.source.told.value, key))
      {
        var i :| 0 <= i < |REQUIRED| && REQUIRED[i] == key;
      }
    } else if Digest(t.env, t.env.fold(view.source.evidence)) {
      var i :| 0 <= i < |REQUIRED| && t.env.fold(Get(view.outcome.told, REQUIRED[i])) != t.env.fold(Get(view.source.told.value, REQUIRED[i]));
      var key := REQUIRED[i];
      assert key in REQUIRED;
      assert t.env.fold(ToldAt(view.outcome.told, key)) != t.env.fold(ToldAt(view.source.told.value, key));
    }
  }

  /** A rail is captured exactly if it is provable, and what is kept are its audit and the identities of what it was proved from. */
  lemma CaptureIs(t: Tools, rail: Bytes, view: View, audit: Audit, mode: int)
    ensures Capture(t, rail, view, audit, mode).Some? <==> Provable(t, rail, view, audit, mode)
    ensures Capture(t, rail, view, audit, mode).Some? ==>
              var solved := Capture(t, rail, view, audit, mode).value;
              && solved.rail == rail && solved.audit == audit && solved.mode == mode
              && Some(solved.grid) == t.ids.vector(view.outcome.grid) && Some(solved.impedance) == t.ids.vector(view.outcome.impedance)
              && Some(solved.provenance) == t.ids.json(view.outcome.told) && solved.evidence == t.env.fold(view.source.evidence)
              && solved.board.solveIdentity == t.env.fold(view.board.evidence.solveIdentity) && solved.board.rest == view.board.evidence.rest
  {
    hide ProvesInvariance, SourceAgrees, SaysInvariant, Digest, ValidSha;
    InvarianceIs(t, rail, view, audit, mode);
    if view.source.told.Some? {
      AgreementIs(t, view);
    }
    ShaIs(t.env, t.env.fold(view.board.evidence.solveIdentity));
  }

  // ---- the match ----

  /** Everything identified is as captured, and the rail is still provable with the same board evidence. */
  lemma MatchIs(t: Tools, groups: seq<Group>, solved: Solved, now: View)
    ensures Matches(t, groups, solved, now) <==>
            && AuditFor(t, groups, solved.audit.index, now.source) == Audited(solved.audit)
            && t.env.fold(now.source.evidence) == solved.evidence
            && t.ids.vector(now.outcome.grid) == Some(solved.grid) && t.ids.vector(now.outcome.impedance) == Some(solved.impedance)
            && t.ids.json(now.outcome.told) == Some(solved.provenance)
            && Provable(t, solved.rail, now, solved.audit, solved.mode)
            && t.env.fold(now.board.evidence.solveIdentity) == solved.board.solveIdentity
            && now.board.evidence.rest == solved.board.rest
  {
    hide AuditFor, Capture, Provable;
    CaptureIs(t, solved.rail, now, solved.audit, solved.mode);
  }

  // ---- one rail of a pass ----

  /** A pass completes a rail exactly if it was evaluated, audited and provable; it ends on one that is audited and not provable. */
  lemma SolvedIf(t: Tools, s: Solving, rail: Bytes, mode: int)
    ensures var settled := SolveRail(t, s, rail, mode);
            match s.attempt(rail)
            case Unsolved(error, reason) => settled == Some(Settled(Blocked(error, reason, None), None))
            case Evaluated(index, view) =>
              match AuditFor(t, s.groups, index, view.source)
              case Unaudited(reason) =>
                settled == Some(Settled(Blocked(Ascii("_TerminalCompleteReuseError"), reason, None), None))
              case Audited(audit) =>
                && (settled.Some? <==> Provable(t, rail, view, audit, mode))
                && (settled.Some? ==> settled.value.solved == Capture(t, rail, view, audit, mode)
                                      && SolvedCell(t, rail, view, mode, settled.value.cell))
  {
    hide Ascii, Provable, AuditFor, SolvedCell, Capture, DetailsOf, ReportOf;
    match s.attempt(rail)
    case Unsolved(_, _) =>
    case Evaluated(index, view) =>
      match AuditFor(t, s.groups, index, view.source)
      case Unaudited(_) =>
      case Audited(audit) =>
        CaptureIs(t, rail, view, audit, mode);
        if SolveRail(t, s, rail, mode).Some? {
          CellIs(t, s, rail, mode);
        }
  }
}
