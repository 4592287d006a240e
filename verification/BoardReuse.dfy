/** Sharing board solves between rails: one group per exact immutable mounted-board state. */
module BoardReuse {
  import opened ByteStrings
  import opened RowTables

  /** The address of a Python object: what `is` compares. */
  type Address = nat

  /** An object is frozen when it is an instance of a frozen dataclass. */
  datatype Network = Network(at: Address, frozen: bool)

  datatype Manifest = Manifest(at: Address, frozen: bool, sha: Bytes)

  datatype Binding = Binding(at: Address, frozen: bool, network: Network, manifest: Manifest, scenario: Bytes)

  /** `selector` is the identity of the port selector maps, or None where computing it is refused. */
  datatype Substrate = Substrate(at: Address, frozen: bool, network: Network, manifest: Manifest, identity: Bytes, selector: Option<Bytes>)

  datatype Provenance = Provenance(profile: Bytes, algorithm: Bytes, source: Bytes, boundSubstrate: Bytes, scenario: Bytes,
                                   manifest: Bytes, railPorts: Bytes)

  /** A rail's bound source model; `evidence` stands for everything specific to the rail. */
  datatype Source<E> = Source(frozen: bool, external: bool, required: bool, substrate: Substrate, manifest: Manifest,
                              provenance: Option<Provenance>, evidence: E)

  datatype Group = Group(binding: Binding, substrate: Substrate, network: Network, manifest: Manifest, profile: Bytes, algorithm: Bytes,
                         source: Bytes, substrateId: Bytes, scenario: Bytes, manifestId: Bytes, railPorts: Bytes, selector: Bytes)

  datatype Profile = Profile(key: Bytes, algorithm: Bytes)

  datatype Input<E> = Input(source: Source<E>, binding: Binding)

  datatype Answer<E> = Answer(source: Source<E>, index: nat)

  datatype Outcome<E> = Bound(answer: Answer<E>) | Refused | RebindingFailed

  predicate Hexadecimal(b: byte) {
    48 <= b <= 57 || 97 <= b <= 102
  }

  predicate ValidSha(env: Env, s: Bytes) {
    var text := env.fold(env.strip(s));
    |text| == 64 && forall i :: 0 <= i < |text| ==> Hexadecimal(text[i])
  }

  /** The candidate group of a source and binding, if every object is frozen and every identity agrees. */
  function Candidate<E>(env: Env, p: Profile, input: Input<E>): Option<Group> {
    var source, binding := input.source, input.binding;
    var substrate, manifest := source.substrate, source.manifest;
    if !(source.frozen && binding.frozen && substrate.frozen && substrate.network.frozen && manifest.frozen) then None
    else if !source.external || !source.required || manifest.at != substrate.manifest.at
            || substrate.network.at != binding.network.at || manifest.at != binding.manifest.at then None
    else if source.provenance.None? || substrate.selector.None? then None
    else
      var told := source.provenance.value;
      var g := Group(binding, substrate, substrate.network, manifest, told.profile, env.fold(told.algorithm), env.fold(told.source),
                     env.fold(substrate.identity), env.fold(binding.scenario), env.fold(manifest.sha), env.fold(told.railPorts),
                     substrate.selector.value);
      if g.profile == p.key && g.algorithm == p.algorithm && g.scenario == g.substrateId
         && env.fold(told.boundSubstrate) == g.substrateId && env.fold(told.scenario) == g.scenario
         && env.fold(told.manifest) == g.manifestId
         && ValidSha(env, g.algorithm) && ValidSha(env, g.source) && ValidSha(env, g.substrateId) && ValidSha(env, g.scenario)
         && ValidSha(env, g.manifestId) && ValidSha(env, g.railPorts) && ValidSha(env, g.selector)
      then Some(g) else None
  }

  /** The same binding, network and manifest objects, and the same identities. */
  predicate Same(a: Group, b: Group) {
    && a.binding.at == b.binding.at && a.network.at == b.network.at && a.manifest.at == b.manifest.at
    && a.profile == b.profile && a.algorithm == b.algorithm && a.source == b.source && a.substrateId == b.substrateId
    && a.scenario == b.scenario && a.manifestId == b.manifestId && a.railPorts == b.railPorts && a.selector == b.selector
  }

  /** The source with the group's substrate and manifest in place of its own. */
  function Shared<E>(source: Source<E>, group: Group): Source<E> {
    source.(substrate := group.substrate, manifest := group.manifest)
  }

  /** A group as some earlier binding left it. */
  predicate Sound(env: Env, g: Group) {
    && g.substrate.frozen && g.network == g.substrate.network && g.network.frozen && g.manifest.frozen
    && g.manifest.at == g.substrate.manifest.at && env.fold(g.substrate.identity) == g.substrateId
    && env.fold(g.manifest.sha) == g.manifestId && g.substrate.selector == Some(g.selector)
    && ValidSha(env, g.algorithm) && ValidSha(env, g.source) && ValidSha(env, g.substrateId) && ValidSha(env, g.scenario)
    && ValidSha(env, g.manifestId) && ValidSha(env, g.railPorts) && ValidSha(env, g.selector)
  }

  lemma CandidateIsSound<E>(env: Env, p: Profile, input: Input<E>)
    requires Candidate(env, p, input).Some?
    ensures Sound(env, Candidate(env, p, input).value)
    ensures Candidate(env, p, input).value.substrate == input.source.substrate
  {
  }

  /** Validation after the substitution cannot fail: it gives the group's own substrate and an equivalent group. */
  lemma RebindingSucceeds<E>(env: Env, p: Profile, input: Input<E>, group: Group)
    requires Candidate(env, p, input).Some? && Sound(env, group) && Same(group, Candidate(env, p, input).value)
    ensures var verified := Candidate(env, p, Input(Shared(input.source, group), input.binding));
            verified.Some? && verified.value.substrate == group.substrate && Same(group, verified.value)
  {
  }

  datatype Board = Board(groups: seq<Group>, reused: nat)

  predicate Inequivalent(groups: seq<Group>) {
    forall i, j :: 0 <= i < j < |groups| ==> !Same(groups[i], groups[j])
  }

  predicate Valid(env: Env, board: Board) {
    Inequivalent(board.groups) && forall i :: 0 <= i < |board.groups| ==> Sound(env, board.groups[i])
  }

  /** What one call does to the groups and counter: from a to b. */
  ghost predicate Binds<E>(env: Env, p: Profile, input: Input<E>, a: Board, b: Board, outcome: Outcome<E>) {
    && a.groups <= b.groups && !outcome.RebindingFailed?
    && (outcome.Refused? <==> Candidate(env, p, input).None?)
    && (outcome.Refused? ==> b == a)
    && (outcome.Bound? ==>
          var candidate := Candidate(env, p, input).value;
          var index := outcome.answer.index;
          && index < |b.groups| && Same(b.groups[index], candidate)
          && (forall k :: 0 <= k < |b.groups| && Same(b.groups[k], candidate) ==> k == index)
          && outcome.answer.source == Shared(input.source, b.groups[index])
          && |b.groups| + b.reused == |a.groups| + a.reused + 1
          && b.groups == (if index < |a.groups| then a.groups else a.groups + [candidate]))
  }

  /** The class with the two fields that binding updates. */
  class Reuse<E> {
    const env: Env
    const profile: Profile
    var groups: seq<Group>
    var reused: nat

    function Contents(): Board
      reads this
    {
      Board(groups, reused)
    }

    constructor (env: Env, profile: Profile)
      ensures this.env == env && this.profile == profile && Contents() == Board([], 0)
      ensures Valid(env, Contents())
    {
      this.env, this.profile, groups, reused := env, profile, [], 0;
    }

    method Bind(input: Input<E>) returns (outcome: Outcome<E>)
      requires Valid(env, Contents())
      modifies this
      ensures Valid(env, Contents())
      ensures Binds(env, profile, input, old(Contents()), Contents(), outcome)
    {
      var candidate := Candidate(env, profile, input);
      if candidate.None? {
        return Refused;
      }
      CandidateIsSound(env, profile, input);
      var index := 0;
      while index < |groups|
        invariant index <= |groups| && Contents() == old(Contents())
        invariant forall k :: 0 <= k < index ==> !Same(groups[k], candidate.value)
      {
        var group := groups[index];
        if Same(group, candidate.value) {
          var shared := Shared(input.source, group);
          var verified := Candidate(env, profile, Input(shared, input.binding));
          RebindingSucceeds(env, profile, input, group);
          var ok := verified.Some? && verified.value.substrate.at == group.substrate.at && Same(group, verified.value);
          outcome := if ok then Bound(Answer(shared, index)) else RebindingFailed;
          reused := reused + 1;
          OnlyOne(groups, index, candidate.value);
          return;
        }
        index := index + 1;
      }
      groups := groups + [candidate.value];
      assert Shared(input.source, candidate.value) == input.source by {
        OwnSubstrate(env, profile, input);
      }
      return Bound(Answer(input.source, |groups| - 1));
    }
  }

  lemma OwnSubstrate<E>(env: Env, p: Profile, input: Input<E>)
    requires Candidate(env, p, input).Some?
    ensures Shared(input.source, Candidate(env, p, input).value) == input.source
  {
  }

  /** Equivalence is symmetric and transitive, so at most one stored group matches. */
  lemma OnlyOne(groups: seq<Group>, index: nat, candidate: Group)
    requires Inequivalent(groups) && index < |groups| && Same(groups[index], candidate)
    ensures forall k :: 0 <= k < |groups| && Same(groups[k], candidate) ==> k == index
  {
    forall k | 0 <= k < |groups| && k != index ensures !Same(groups[k], candidate) {
      assert if k < index then !Same(groups[k], groups[index]) else !Same(groups[index], groups[k]);
    }
  }

  // ---- runs of bindings ----

  /** A history: boards[i] is the state before call i. */
  ghost predicate History<E>(env: Env, p: Profile, inputs: seq<Input<E>>, boards: seq<Board>, outcomes: seq<Outcome<E>>) {
    && |boards| == |inputs| + 1 && |outcomes| == |inputs| && boards[0] == Board([], 0)
    && (forall i :: 0 <= i < |boards| ==> Valid(env, boards[i]))
    && forall i :: 0 <= i < |inputs| ==> Binds(env, p, inputs[i], boards[i], boards[i + 1], outcomes[i])
  }

  /** Calling Bind over and over makes a history. */
  method BindAll<E>(env: Env, p: Profile, inputs: seq<Input<E>>) returns (outcomes: seq<Outcome<E>>, ghost boards: seq<Board>)
    ensures History(env, p, inputs, boards, outcomes)
    ensures |outcomes| == |inputs| && forall i :: 0 <= i < |inputs| ==>
              !outcomes[i].RebindingFailed? && (outcomes[i].Bound? <==> Candidate(env, p, inputs[i]).Some?)
    ensures forall i :: 0 <= i < |inputs| ==> (outcomes[i].Bound? <==> Bindable(env, p, inputs[i]))
  {
    var reuse := new Reuse<E>(env, p);
    outcomes, boards := [], [reuse.Contents()];
    for i := 0 to |inputs|
      invariant History(env, p, inputs[..i], boards, outcomes) && boards[i] == reuse.Contents()
      invariant reuse.env == env && reuse.profile == p
    {
      var outcome := reuse.Bind(inputs[i]);
      outcomes, boards := outcomes + [outcome], boards + [reuse.Contents()];
    }
    assert inputs[..|inputs|] == inputs;
    forall i | 0 <= i < |inputs|
      ensures !outcomes[i].RebindingFailed? && (outcomes[i].Bound? <==> Candidate(env, p, inputs[i]).Some?)
    {
      assert Binds(env, p, inputs[i], boards[i], boards[i + 1], outcomes[i]);
    }
    forall i | 0 <= i < |inputs| ensures Candidate(env, p, inputs[i]).Some? <==> Bindable(env, p, inputs[i]) {
      CandidateIs(env, p, inputs[i]);
    }
  }

  // ---- what is bound, and what is shared, written out ----

  /** Stripped and folded, the text is 64 of the digits 0 to 9 and a to f. */
  predicate Digest(env: Env, s: Bytes) {
    var text := env.fold(env.strip(s));
    |text| == 64 && forall i :: 0 <= i < 64 ==> text[i] in {48, 49, 50, 51, 52, 53, 54, 55, 56, 57, 97, 98, 99, 100, 101, 102}
  }

  /** A source and binding that can be bound: all five objects frozen, one network and one manifest, and every identity a digest and consistent. */
  predicate Bindable<E>(env: Env, p: Profile, input: Input<E>) {
    var s, b := input.source, input.binding;
    && s.frozen && b.frozen && s.substrate.frozen && s.substrate.network.frozen && s.manifest.frozen
    && s.external && s.required && s.substrate.network.at == b.network.at
    && s.manifest.at == s.substrate.manifest.at && s.manifest.at == b.manifest.at
    && s.provenance.Some? && s.substrate.selector.Some?
    && var told, f := s.provenance.value, env.fold;
    && told.profile == p.key && f(told.algorithm) == p.algorithm
    && f(b.scenario) == f(s.substrate.identity) && f(told.boundSubstrate) == f(s.substrate.identity)
    && f(told.scenario) == f(b.scenario) && f(told.manifest) == f(s.manifest.sha)
    && Digest(env, f(told.algorithm)) && Digest(env, f(told.source)) && Digest(env, f(s.substrate.identity)) && Digest(env, f(b.scenario))
    && Digest(env, f(s.manifest.sha)) && Digest(env, f(told.railPorts)) && Digest(env, s.substrate.selector.value)
  }

  /** The same binding, network and manifest objects, and the same eight identities. */
  predicate Equivalent<E>(env: Env, x: Input<E>, y: Input<E>)
    requires x.source.provenance.Some? && y.source.provenance.Some?
  {
    var a, b, t, u, f := x.source, y.source, x.source.provenance.value, y.source.provenance.value, env.fold;
    && x.binding.at == y.binding.at && a.substrate.network.at == b.substrate.network.at && a.manifest.at == b.manifest.at
    && t.profile == u.profile && f(t.algorithm) == f(u.algorithm) && f(t.source) == f(u.source)
    && f(a.substrate.identity) == f(b.substrate.identity) && f(x.binding.scenario) == f(y.binding.scenario)
    && f(a.manifest.sha) == f(b.manifest.sha) && f(t.railPorts) == f(u.railPorts) && a.substrate.selector == b.substrate.selector
  }

  lemma ShaIs(env: Env, s: Bytes)
    ensures ValidSha(env, s) <==> Digest(env, s)
  {
  }

  lemma CandidateIs<E>(env: Env, p: Profile, input: Input<E>)
    ensures Candidate(env, p, input).Some? <==> Bindable(env, p, input)
  {
    hide ValidSha, Digest;
    if input.source.provenance.Some? && input.source.substrate.selector.Some? {
      var told, f := input.source.provenance.value, env.fold;
      ShaIs(env, f(told.algorithm));
      ShaIs(env, f(told.source));
      ShaIs(env, f(input.source.substrate.identity));
      ShaIs(env, f(input.binding.scenario));
      ShaIs(env, f(input.source.manifest.sha));
      ShaIs(env, f(told.railPorts));
      ShaIs(env, input.source.substrate.selector.value);
    }
  }

  lemma SameIs<E>(env: Env, p: Profile, x: Input<E>, y: Input<E>)
    requires Candidate(env, p, x).Some? && Candidate(env, p, y).Some?
    ensures x.source.provenance.Some? && y.source.provenance.Some?
    ensures Same(Candidate(env, p, x).value, Candidate(env, p, y).value) <==> Equivalent(env, x, y)
  {
    hide ValidSha;
  }

  /** Groups are only ever appended. */
  lemma {:induction false} GroupsGrow<E>(env: Env, p: Profile, inputs: seq<Input<E>>, boards: seq<Board>, outcomes: seq<Outcome<E>>, i: nat, j: nat)
    requires History(env, p, inputs, boards, outcomes) && i <= j < |boards|
    ensures boards[i].groups <= boards[j].groups
    decreases j
  {
    if i < j {
      GroupsGrow(env, p, inputs, boards, outcomes, i, j - 1);
      assert Binds(env, p, inputs[j - 1], boards[j - 1], boards[j], outcomes[j - 1]);
    }
  }

  function Successes<E>(outcomes: seq<Outcome<E>>): nat {
    if outcomes == [] then 0
    else Successes(outcomes[..|outcomes| - 1]) + (if outcomes[|outcomes| - 1].Bound? then 1 else 0)
  }

  /** Groups and reuses together count the successful calls. */
  lemma {:induction false} CountsAreConserved<E>(env: Env, p: Profile, inputs: seq<Input<E>>, boards: seq<Board>, outcomes: seq<Outcome<E>>, n: nat)
    requires History(env, p, inputs, boards, outcomes) && n <= |inputs|
    ensures |boards[n].groups| + boards[n].reused == Successes(outcomes[..n])
    decreases n
  {
    if n > 0 {
      CountsAreConserved(env, p, inputs, boards, outcomes, n - 1);
      assert outcomes[..n][..n - 1] == outcomes[..n - 1];
      assert Binds(env, p, inputs[n - 1], boards[n - 1], boards[n], outcomes[n - 1]);
    }
  }

  /** Where a successful call's answer stands in the final groups. */
  lemma AnswerPersists<E>(env: Env, p: Profile, inputs: seq<Input<E>>, boards: seq<Board>, outcomes: seq<Outcome<E>>, i: nat)
    requires History(env, p, inputs, boards, outcomes) && i < |inputs| && outcomes[i].Bound?
    ensures var groups, index := boards[|inputs|].groups, outcomes[i].answer.index;
            && index < |groups| && Candidate(env, p, inputs[i]).Some? && Same(groups[index], Candidate(env, p, inputs[i]).value)
            && outcomes[i].answer.source == Shared(inputs[i].source, groups[index])
  {
    assert Binds(env, p, inputs[i], boards[i], boards[i + 1], outcomes[i]);
    GroupsGrow(env, p, inputs, boards, outcomes, i + 1, |inputs|);
  }

  /**
   Over any sequence of calls, two successful calls get the same index exactly when their board
   states are equivalent, and then their sources carry the very same substrate.
   */
  lemma SharingIsExact<E>(env: Env, p: Profile, inputs: seq<Input<E>>, boards: seq<Board>, outcomes: seq<Outcome<E>>, i: nat, j: nat)
    requires History(env, p, inputs, boards, outcomes) && i < |inputs| && j < |inputs| && outcomes[i].Bound? && outcomes[j].Bound?
    ensures Candidate(env, p, inputs[i]).Some? && Candidate(env, p, inputs[j]).Some?
    ensures outcomes[i].answer.index == outcomes[j].answer.index <==>
            Same(Candidate(env, p, inputs[i]).value, Candidate(env, p, inputs[j]).value)
    ensures outcomes[i].answer.index == outcomes[j].answer.index ==>
              outcomes[i].answer.source.substrate == outcomes[j].answer.source.substrate
    ensures inputs[i].source.provenance.Some? && inputs[j].source.provenance.Some?
    ensures outcomes[i].answer.index == outcomes[j].answer.index <==> Equivalent(env, inputs[i], inputs[j])
  {
    hide Candidate, Equivalent;
    AnswerPersists(env, p, inputs, boards, outcomes, i);
    AnswerPersists(env, p, inputs, boards, outcomes, j);
    SameIs(env, p, inputs[i], inputs[j]);
    var a, b := Candidate(env, p, inputs[i]).value, Candidate(env, p, inputs[j]).value;
    var groups := boards[|inputs|].groups;
    assert Valid(env, boards[|inputs|]);
    if Same(a, b) {
      OnlyOne(groups, outcomes[j].answer.index, b);
      assert Same(groups[outcomes[i].answer.index], b);
    }
  }

  /** The first call answered with an index founded that group, and its substrate is the one shared. */
  lemma FirstFounds<E>(env: Env, p: Profile, inputs: seq<Input<E>>, boards: seq<Board>, outcomes: seq<Outcome<E>>, i: nat)
    requires History(env, p, inputs, boards, outcomes) && i < |inputs| && outcomes[i].Bound?
    requires forall k :: 0 <= k < i && outcomes[k].Bound? ==> outcomes[k].answer.index != outcomes[i].answer.index
    ensures outcomes[i].answer.index == |boards[i].groups|
    ensures outcomes[i].answer.source == inputs[i].source
    ensures outcomes[i].answer.index < |boards[|inputs|].groups|
            && boards[|inputs|].groups[outcomes[i].answer.index].substrate == inputs[i].source.substrate
  {
    var index := outcomes[i].answer.index;
    assert Binds(env, p, inputs[i], boards[i], boards[i + 1], outcomes[i]);
    if index < |boards[i].groups| {
      var k := FirstUse(env, p, inputs, boards, outcomes, i, index);
    }
    OwnSubstrate(env, p, inputs[i]);
    CandidateIsSound(env, p, inputs[i]);
    GroupsGrow(env, p, inputs, boards, outcomes, i + 1, |inputs|);
  }

  /** Every stored group has been returned by some call. */
  lemma {:induction false} FirstUse<E>(env: Env, p: Profile, inputs: seq<Input<E>>, boards: seq<Board>, outcomes: seq<Outcome<E>>,
                                       n: nat, index: nat) returns (k: nat)
    requires History(env, p, inputs, boards, outcomes) && n <= |inputs| && index < |boards[n].groups|
    ensures k < n && outcomes[k].Bound? && outcomes[k].answer.index == index
    decreases n
  {
    assert Binds(env, p, inputs[n - 1], boards[n - 1], boards[n], outcomes[n - 1]);
    if index < |boards[n - 1].groups| {
      k := FirstUse(env, p, inputs, boards, outcomes, n - 1, index);
    } else {
      k := n - 1;
    }
  }
}
