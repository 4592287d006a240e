/** The mode runner, and what its counters add up to. */
module ModeAccounts {
  import opened ByteStrings
  import opened RowTables
  import opened BoardReuse
  import opened ModeRuns

  type Cells = map<Bytes, Cell>

  /** How one more mode turns out: its reused cells, or None on a mismatch; and the cells computed afresh, or None on an error. */
  datatype Solver = Solver(reuse: int -> Option<Cells>, recompute: int -> Option<Cells>)

  function Put(runs: Runs, mode: int, run: Run): Runs {
    if runs == [] then [(mode, run)]
    else if runs[0].0 == mode then [(mode, run)] + runs[1..]
    else [runs[0]] + Put(runs[1..], mode, run)
  }

  function RunFor(solver: Solver, source: int, mode: int): Run {
    match solver.reuse(mode)
    case Some(cells) => Run(mode, true, ReusedRun, Some(source), cells)
    case None => Run(mode, true, RecomputedRun, None, if solver.recompute(mode).Some? then solver.recompute(mode).value else map[])
  }

  /** No error stops the batch: every mode among the first n is reused or computed afresh. */
  predicate Completes(solver: Solver, modes: seq<int>, n: nat)
    requires n <= |modes|
  {
    forall i :: 1 <= i < n ==> solver.reuse(modes[i]).Some? || solver.recompute(modes[i]).Some?
  }

  function SourceOf(source: int, cells: Cells): Run {
    Run(source, true, SourceRun, Some(source), cells)
  }

  /** The runs dictionary after the first n modes. */
  function RunsOf(solver: Solver, cells: Cells, modes: seq<int>, n: nat): Runs
    requires 1 <= n <= |modes|
  {
    if n == 1 then [(modes[0], SourceOf(modes[0], cells))]
    else Put(RunsOf(solver, cells, modes, n - 1), modes[n - 1], RunFor(solver, modes[0], modes[n - 1]))
  }

  /** The keys of the fallback dictionary after the first n modes. */
  function FallbacksOf(solver: Solver, modes: seq<int>, n: nat): set<int>
    requires n <= |modes|
  {
    set i | 1 <= i < n && solver.reuse(modes[i]).None? :: modes[i]
  }

  datatype Accounts = Accounts(requested: int, executed: int, reusedResults: int, fallbacks: nat, parity: Counts)

  /** The runner: solve the first mode, reuse or recompute the others, and account for them if parity holds. */
  method RunModes(env: Env, solver: Solver, cells: Cells, rails: seq<Bytes>, modes: seq<int>)
    returns (done: Option<Runs>, accounts: Option<Accounts>)
    requires modes != []
    ensures done.Some? <==> Completes(solver, modes, |modes|)
    ensures done.Some? ==> done.value == RunsOf(solver, cells, modes, |modes|)
    ensures accounts.Some? <==> done.Some? && Passes(env, done.value, rails, modes[0])
    ensures accounts.Some? ==>
              var runs, a := done.value, accounts.value;
              && a.fallbacks == |FallbacksOf(solver, modes, |modes|)|
              && a.requested == |rails| * |modes| && a.executed == |rails| * (1 + a.fallbacks)
              && a.requested == a.executed + a.reusedResults
              && Find(runs, modes[0]).Some?
              && var original := Find(runs, modes[0]).value.rails;
                 a.parity == Tally(runs, modes[0], CompletedRails(original, rails), BlockedRails(original, rails))
  {
    hide Passes, Tally, CompletedRails, BlockedRails;
    var source := modes[0];
    var runs: Runs := [(source, SourceOf(source, cells))];
    var fallbacks: set<int> := {};
    for i := 1 to |modes|
      invariant runs == RunsOf(solver, cells, modes, i) && fallbacks == FallbacksOf(solver, modes, i)
      invariant Completes(solver, modes, i)
    {
      var mode := modes[i];
      match solver.reuse(mode) {
        case Some(reused) =>
          runs := Put(runs, mode, Run(mode, true, ReusedRun, Some(source), reused));
        case None =>
          fallbacks := fallbacks + {mode};
          var again := solver.recompute(mode);
          if again.None? {
            return None, None;
          }
          runs := Put(runs, mode, Run(mode, true, RecomputedRun, None, again.value));
      }
      FallbacksStep(solver, modes, i);
    }
    var executed := |rails| * (1 + |fallbacks|);
    var requested := |rails| * |modes|;
    var counts := Parity(env, runs, rails, source);
    if counts.None? {
      return Some(runs), None;
    }
    PassingHasSource(env, runs, rails, source);
    return Some(runs), Some(Accounts(requested, executed, requested - executed, |fallbacks|, counts.value));
  }

  lemma PassingHasSource(env: Env, runs: Runs, rails: seq<Bytes>, source: int)
    requires Passes(env, runs, rails, source)
    ensures Find(runs, source).Some?
  {
  }

  lemma FallbacksStep(solver: Solver, modes: seq<int>, n: nat)
    requires 1 <= n < |modes|
    ensures FallbacksOf(solver, modes, n + 1) ==
            FallbacksOf(solver, modes, n) + (if solver.reuse(modes[n]).None? then {modes[n]} else {})
  {
  }

  // ---- the shape of the runs dictionary ----

  predicate DistinctModes(runs: Runs) {
    forall i, j :: 0 <= i < j < |runs| ==> runs[i].0 != runs[j].0
  }

  predicate NoRepeats(modes: seq<int>) {
    forall i, j :: 0 <= i < j < |modes| ==> modes[i] != modes[j]
  }

  function ModeSet(modes: seq<int>, n: nat): set<int>
    requires n <= |modes|
  {
    set i | 0 <= i < n :: modes[i]
  }

  function Keys(runs: Runs): set<int> {
    set i | 0 <= i < |runs| :: runs[i].0
  }

  /** Each entry is the source's run or what the runner makes of its mode. */
  predicate Entries(solver: Solver, first: Run, source: int, runs: Runs) {
    forall i :: 0 <= i < |runs| ==> runs[i].1 == (if runs[i].0 == source then first else RunFor(solver, source, runs[i].0))
  }

  /** Putting a mode that is there with the same run changes nothing; a new mode goes to the end. */
  lemma {:induction false} PutIs(runs: Runs, mode: int, run: Run)
    requires forall i :: 0 <= i < |runs| && runs[i].0 == mode ==> runs[i].1 == run
    ensures Put(runs, mode, run) == if mode in Keys(runs) then runs else runs + [(mode, run)]
  {
    if runs != [] {
      if runs[0].0 == mode {
        assert runs[0] == (mode, run) && runs == [runs[0]] + runs[1..];
        assert mode in Keys(runs);
      } else {
        PutIs(runs[1..], mode, run);
        KeysOfTail(runs);
        assert runs == [runs[0]] + runs[1..];
      }
    }
  }

  lemma KeysOfTail(runs: Runs)
    requires runs != []
    ensures Keys(runs) == {runs[0].0} + Keys(runs[1..])
  {
    assert forall i :: 0 < i < |runs| ==> runs[i] == runs[1..][i - 1];
  }

  lemma {:induction false} RunsShape(solver: Solver, cells: Cells, modes: seq<int>, n: nat)
    requires 1 <= n <= |modes| && forall i :: 1 <= i < n ==> modes[i] != modes[0]
    ensures var runs := RunsOf(solver, cells, modes, n);
            && DistinctModes(runs) && Keys(runs) == ModeSet(modes, n)
            && Entries(solver, SourceOf(modes[0], cells), modes[0], runs)
    decreases n
  {
    hide RunFor, SourceOf, Put;
    if n == 1 {
      var runs := RunsOf(solver, cells, modes, 1);
      assert runs[0].0 == modes[0];
      assert ModeSet(modes, 1) == {modes[0]} && Keys(runs) == {modes[0]};
    } else {
      RunsShape(solver, cells, modes, n - 1);
      var before, mode := RunsOf(solver, cells, modes, n - 1), modes[n - 1];
      PutIs(before, mode, RunFor(solver, modes[0], mode));
      assert ModeSet(modes, n) == ModeSet(modes, n - 1) + {mode};
      KeysAppend(before, (mode, RunFor(solver, modes[0], mode)));
    }
  }

  lemma KeysAppend(runs: Runs, entry: (int, Run))
    ensures Keys(runs + [entry]) == Keys(runs) + {entry.0}
    ensures DistinctModes(runs) && entry.0 !in Keys(runs) ==> DistinctModes(runs + [entry])
  {
    var more := runs + [entry];
    assert more[|runs|] == entry;
    assert forall i :: 0 <= i < |runs| ==> more[i] == runs[i];
  }

  /** The first mode's entry survives exactly if no later mode repeats it; otherwise parity refuses. */
  lemma {:induction false} RepeatedSource(solver: Solver, cells: Cells, modes: seq<int>, n: nat)
    requires 1 <= n <= |modes| && exists i :: 1 <= i < n && modes[i] == modes[0]
    ensures Find(RunsOf(solver, cells, modes, n), modes[0]) == Some(RunFor(solver, modes[0], modes[0]))
    decreases n
  {
    var before := RunsOf(solver, cells, modes, n - 1);
    FindAfterPut(before, modes[n - 1], RunFor(solver, modes[0], modes[n - 1]), modes[0]);
    if modes[n - 1] != modes[0] {
      RepeatedSource(solver, cells, modes, n - 1);
    }
  }

  lemma {:induction false} FindAfterPut(runs: Runs, mode: int, run: Run, wanted: int)
    ensures Find(Put(runs, mode, run), wanted) == if mode == wanted then Some(run) else Find(runs, wanted)
  {
    if runs != [] && runs[0].0 != mode {
      FindAfterPut(runs[1..], mode, run, wanted);
    }
  }

  /** Parity never passes when the first mode is requested again. */
  lemma RepeatedSourceFails(env: Env, solver: Solver, cells: Cells, rails: seq<Bytes>, modes: seq<int>)
    requires modes != [] && exists i :: 1 <= i < |modes| && modes[i] == modes[0]
    ensures !Passes(env, RunsOf(solver, cells, modes, |modes|), rails, modes[0])
  {
    RepeatedSource(solver, cells, modes, |modes|);
  }

  // ---- counting ----

  lemma {:induction false} FindSource(runs: Runs, i: nat)
    requires i < |runs| && DistinctModes(runs)
    ensures Find(runs, runs[i].0) == Some(runs[i].1)
  {
    if i > 0 {
      FindSource(runs[1..], i - 1);
      assert runs[0].0 != runs[i].0;
    }
  }

  /** Every rail of a passing source is completed or blocked. */
  lemma {:induction false} RailsSplit(cells: Cells, rails: seq<Bytes>)
    requires forall j :: 0 <= j < |rails| ==> rails[j] in cells && !cells[rails[j]].OtherStatus?
    ensures CompletedRails(cells, rails) + BlockedRails(cells, rails) == |rails|
    decreases |rails|
  {
    if rails != [] {
      RailsSplit(cells, rails[..|rails| - 1]);
    }
  }

  function Recomputed(solver: Solver, source: int, keys: set<int>): set<int> {
    set k | k in keys && k != source && solver.reuse(k).None?
  }

  lemma RunForStatus(solver: Solver, source: int, mode: int)
    ensures RunFor(solver, source, mode).status == if solver.reuse(mode).Some? then ReusedRun else RecomputedRun
  {
  }

  /** Distinct entries, counted by status. */
  lemma {:induction false} StatusCounts(solver: Solver, first: Run, source: int, runs: Runs)
    requires DistinctModes(runs) && Entries(solver, first, source, runs) && first.status.SourceRun?
    ensures |Keys(runs)| == |runs|
    ensures OtherRuns(runs, source) == |runs| - (if source in Keys(runs) then 1 else 0)
    ensures OtherRuns(runs, source) == ReusedRuns(runs) + |Recomputed(solver, source, Keys(runs))|
    decreases |runs|
  {
    hide RunFor;
    if runs != [] {
      var n := |runs| - 1;
      var head, last := runs[..n], runs[n];
      assert runs == head + [last];
      RunForStatus(solver, source, last.0);
      StatusCounts(solver, first, source, head);
      KeysAppend(head, last);
      assert last.0 !in Keys(head);
      if last.0 != source && solver.reuse(last.0).None? {
        assert Recomputed(solver, source, Keys(runs)) == Recomputed(solver, source, Keys(head)) + {last.0};
      } else {
        assert Recomputed(solver, source, Keys(runs)) == Recomputed(solver, source, Keys(head));
      }
    }
  }

  /** A list has as many distinct modes as entries exactly if nothing repeats. */
  lemma {:induction false} DistinctCount(modes: seq<int>, n: nat)
    requires n <= |modes|
    ensures |ModeSet(modes, n)| <= n
    ensures |ModeSet(modes, n)| == n <==> NoRepeats(modes[..n])
    decreases n
  {
    if n > 0 {
      DistinctCount(modes, n - 1);
      assert ModeSet(modes, n) == ModeSet(modes, n - 1) + {modes[n - 1]};
      if modes[n - 1] in ModeSet(modes, n - 1) {
        var i :| 0 <= i < n - 1 && modes[i] == modes[n - 1];
        assert modes[..n][i] == modes[..n][n - 1];
      } else {
        forall i | 0 <= i < n - 1 ensures modes[i] != modes[n - 1] {
          assert modes[i] in ModeSet(modes, n - 1);
        }
        NoRepeatsStep(modes, n);
      }
    }
  }

  lemma NoRepeatsStep(modes: seq<int>, n: nat)
    requires 0 < n <= |modes| && forall i :: 0 <= i < n - 1 ==> modes[i] != modes[n - 1]
    ensures NoRepeats(modes[..n]) <==> NoRepeats(modes[..n - 1])
  {
    assert forall i :: 0 <= i < n - 1 ==> modes[..n][i] == modes[..n - 1][i];
  }

  /** The products behind the identity: with k runs, f of them recomputed, c rails completed and b blocked. */
  lemma Products(k: int, f: int, m: int, c: int, b: int)
    ensures (k - 1 - f) * c + (k - 1) * b - ((c + b) * m - (c + b) * (1 + f) + b * f) == (k - m) * (c + b)
  {
    assert (k - 1 - f) * c == k * c - c - f * c;
    assert (k - 1) * b == k * b - b;
    assert (c + b) * m == c * m + b * m;
    assert (c + b) * (1 + f) == c + b + c * f + b * f;
    assert (k - m) * (c + b) == k * c + k * b - m * c - m * b;
  }

  /** What the shape of the runs says about the parity counters. */
  lemma TallyOfRuns(env: Env, solver: Solver, cells: Cells, rails: seq<Bytes>, modes: seq<int>)
    requires modes != [] && Passes(env, RunsOf(solver, cells, modes, |modes|), rails, modes[0])
    ensures var runs := RunsOf(solver, cells, modes, |modes|);
            var f := |FallbacksOf(solver, modes, |modes|)|;
            var k := |ModeSet(modes, |modes|)|;
            && Find(runs, modes[0]) == Some(SourceOf(modes[0], cells))
            && ReusedRuns(runs) == k - 1 - f && OtherRuns(runs, modes[0]) == k - 1
            && CompletedRails(cells, rails) + BlockedRails(cells, rails) == |rails|
  {
    var runs, source := RunsOf(solver, cells, modes, |modes|), modes[0];
    if exists i :: 1 <= i < |modes| && modes[i] == source {
      RepeatedSourceFails(env, solver, cells, rails, modes);
    }
    RunsShape(solver, cells, modes, |modes|);
    assert modes[0] in ModeSet(modes, |modes|);
    var at :| 0 <= at < |runs| && runs[at].0 == source;
    FindSource(runs, at);
    StatusCounts(solver, SourceOf(source, cells), source, runs);
    assert Recomputed(solver, source, Keys(runs)) == FallbacksOf(solver, modes, |modes|);
    SourceRails(env, runs, at, rails, source);
    RailsSplit(cells, rails);
  }

  lemma SourceRails(env: Env, runs: Runs, at: nat, rails: seq<Bytes>, source: int)
    requires Passes(env, runs, rails, source) && at < |runs| && runs[at].0 == source && Find(runs, source) == Some(runs[at].1)
    ensures forall j :: 0 <= j < |rails| ==> rails[j] in runs[at].1.rails && !runs[at].1.rails[rails[j]].OtherStatus?
  {
    assert RunFits(env, source, runs[at].1.rails, runs[at], rails);
    forall j | 0 <= j < |rails| ensures rails[j] in runs[at].1.rails && !runs[at].1.rails[rails[j]].OtherStatus? {
      assert RailFits(env, source, runs[at].1.status, rails[j], runs[at].1.rails, runs[at].1.rails);
    }
  }

  /**
   The accounting identity. In a run that passes parity, exactly reused rails plus retained blockers
   are the reused results plus the blocked rails of every fallback mode, exactly if no mode was
   requested twice (or there are no rails).
   */
  lemma Accounting(env: Env, solver: Solver, cells: Cells, rails: seq<Bytes>, modes: seq<int>, a: Accounts)
    requires modes != [] && Passes(env, RunsOf(solver, cells, modes, |modes|), rails, modes[0])
    requires a.fallbacks == |FallbacksOf(solver, modes, |modes|)|
    requires a.reusedResults == |rails| * |modes| - |rails| * (1 + a.fallbacks)
    requires a.parity == Tally(RunsOf(solver, cells, modes, |modes|), modes[0], CompletedRails(cells, rails), BlockedRails(cells, rails))
    ensures a.parity.reused + a.parity.blockers == a.reusedResults + BlockedRails(cells, rails) * a.fallbacks <==>
            NoRepeats(modes) || rails == []
  {
    hide Passes, RunsOf, FallbacksOf, CompletedRails, BlockedRails, ModeSet, ReusedRuns, OtherRuns, NoRepeats;
    TallyOfRuns(env, solver, cells, rails, modes);
    var k := |ModeSet(modes, |modes|)|;
    Products(k, a.fallbacks, |modes|, CompletedRails(cells, rails), BlockedRails(cells, rails));
    DistinctCount(modes, |modes|);
    assert modes[..|modes|] == modes;
    ZeroProduct(k - |modes|, |rails|);
  }

  lemma ZeroProduct(x: int, y: int)
    ensures x * y == 0 <==> x == 0 || y == 0
  {
  }

  // ---- requested modes ----

  /** The keys of a dictionary filled from a list: first occurrences, in order. */
  function FromKeys(args: seq<int>): seq<int> {
    if args == [] then []
    else
      var before, last := FromKeys(args[..|args| - 1]), args[|args| - 1];
      if last in before then before else before + [last]
  }

  /** Nothing repeats, nothing is lost, and the first mode stays first. */
  lemma {:induction false} FirstOccurrences(args: seq<int>)
    ensures NoRepeats(FromKeys(args)) && (args != [] ==> FromKeys(args) != [] && FromKeys(args)[0] == args[0])
    ensures forall mode :: mode in FromKeys(args) <==> mode in args
    decreases |args|
  {
    if args != [] {
      var front, last := args[..|args| - 1], args[|args| - 1];
      FirstOccurrences(front);
      assert args == front + [last];
    }
  }
}
