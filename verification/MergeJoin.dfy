/** The single-pass merge-join of links and owners. */
module MergeJoin {
  // Loading the links of a compiled topology: one pass over the link rows and, in step with it, one
  // pass over the owner rows, both sorted by key.

  import opened ByteStrings
  import opened KeyOrder
  import opened RowTables

  /** A number column: null, a finite real, or one of the infinities and NaN. */
  datatype Cell = Null | Finite(x: real) | NonFinite

  datatype LinkCells = LinkCells(id: Bytes, first: int, second: int, count: int, resistance: Cell, inductance: Cell)

  type LinkRow = Row<int, LinkCells>

  /** An owner row's group is the kind and ordinal of its link. */
  type OwnerRow = Row<(int, int), Bytes>

  datatype Impedance = Ideal | FiniteRL(resistance: real, inductance: real)

  /** A vertical link object; its constructor strips the texts and sorts the owners. */
  datatype Link = Link(id: Bytes, first: Bytes, second: Bytes, count: int, impedance: Impedance, owners: seq<Bytes>)

  const VIA_PREFIX: Bytes := [118, 105, 97, 58]

  function LinkKey(row: LinkRow): (int, int) {
    (row.group, row.ordinal)
  }

  predicate Less(a: (int, int), b: (int, int)) {
    a.0 < b.0 || (a.0 == b.0 && a.1 < b.1)
  }

  // ---- the order both queries ask for ----

  predicate LinksSorted(links: seq<LinkRow>) {
    forall i, j {:trigger Less(LinkKey(links[i]), LinkKey(links[j]))} :: 0 <= i < j < |links| ==> Less(LinkKey(links[i]), LinkKey(links[j]))
  }

  predicate OwnersSorted(owners: seq<OwnerRow>) {
    forall i, j {:trigger Less(owners[i].group, owners[j].group)} :: 0 <= i < j < |owners| ==>
      owners[i].group == owners[j].group || Less(owners[i].group, owners[j].group)
  }

  // ---- constructing one link ----

  function InsertText(x: Bytes, sorted: seq<Bytes>): seq<Bytes> {
    if sorted == [] || Before(x, sorted[0]) then [x] + sorted
    else if x == sorted[0] then sorted
    else [sorted[0]] + InsertText(x, sorted[1..])
  }

  /** The distinct texts of a list in ascending order. */
  function SortedSet(texts: seq<Bytes>): seq<Bytes> {
    if texts == [] then [] else InsertText(texts[0], SortedSet(texts[1..]))
  }

  /** The constructor refuses blank texts and a link from a node to itself. */
  predicate Constructible(env: Env, id: Bytes, first: Bytes, second: Bytes, owners: seq<Bytes>) {
    && env.strip(id) != [] && env.strip(first) != [] && env.strip(second) != []
    && env.strip(first) != env.strip(second)
    && forall i :: 0 <= i < |owners| ==> env.strip(owners[i]) != []
  }

  /** What the name of a link's own owner starts with: "via-link:". */
  const LINK_PREFIX: Bytes := [118, 105, 97, 45, 108, 105, 110, 107, 58]

  /** The owners given, or the link itself if there are none. */
  function OwnersOf(env: Env, id: Bytes, owners: seq<Bytes>): seq<Bytes> {
    if owners == [] then [LINK_PREFIX + env.strip(id)] else SortedSet(Stripped(env, owners))
  }

  function Construct(env: Env, id: Bytes, first: Bytes, second: Bytes, count: int, impedance: Impedance, owners: seq<Bytes>): Link {
    Link(env.strip(id), env.strip(first), env.strip(second), count, impedance, OwnersOf(env, id, owners))
  }

  // ---- what a consistent pair of tables is ----

  predicate Passive(c: LinkCells) {
    && c.resistance.Finite? && c.inductance.Finite? && c.resistance.x >= 0.0 && c.inductance.x >= 0.0
    && (c.resistance.x != 0.0 || c.inductance.x != 0.0)
  }

  /** The columns of a link row taken by themselves. */
  predicate LinkCellsOk(nodes: seq<Bytes>, row: LinkRow) {
    && (row.group == 0 || row.group == 1)
    && 0 <= row.value.first < |nodes| && 0 <= row.value.second < |nodes| && row.value.count >= 1
    && ValidText(row.value.id)
  }

  /** A link row together with all owners filed under it. */
  predicate LinkFits(env: Env, nodes: seq<Bytes>, row: LinkRow, owners: seq<Bytes>) {
    && LinkCellsOk(nodes, row)
    && owners != []
    && (row.group == 0 ==> row.value.count == 1 && row.value.resistance.Null? && row.value.inductance.Null?)
    && (row.group == 1 ==> row.value.count <= |owners| && |owners| % row.value.count == 0 && Passive(row.value))
    && Constructible(env, row.value.id, nodes[row.value.first], nodes[row.value.second], owners)
  }

  predicate OwnerOk(row: OwnerRow) {
    ValidText(row.value) && (row.group.0 == 1 ==> VIA_PREFIX <= row.value)
  }

  function LinkIds(links: seq<LinkRow>): (r: seq<Bytes>)
    ensures |r| == |links| && forall i :: 0 <= i < |r| ==> r[i] == links[i].value.id
  {
    seq(|links|, i requires 0 <= i < |links| => links[i].value.id)
  }

  function OwnerIds(owners: seq<OwnerRow>): (r: seq<Bytes>)
    ensures |r| == |owners| && forall i :: 0 <= i < |r| ==> r[i] == owners[i].value
  {
    Values(owners)
  }

  predicate Attached(links: seq<LinkRow>, group: (int, int)) {
    exists i :: 0 <= i < |links| && LinkKey(links[i]) == group
  }

  /**
   The two tables fit together: link ordinals count up per kind, every owner row belongs to an
   existing link, every link has at least one owner and fits all of them, and no link or owner
   name is used twice.
   */
  predicate Consistent(env: Env, nodes: seq<Bytes>, links: seq<LinkRow>, owners: seq<OwnerRow>) {
    && Contiguous(links) && Contiguous(owners)
    && (forall i :: 0 <= i < |links| ==> LinkFits(env, nodes, links[i], Group(owners, LinkKey(links[i]))))
    && (forall q :: 0 <= q < |owners| ==> Attached(links, owners[q].group) && OwnerOk(owners[q]))
    && DistinctFolds(env, LinkIds(links)) && DistinctFolds(env, OwnerIds(owners))
  }

  function ImpedanceOf(row: LinkRow): Impedance
    requires row.group == 1 ==> Passive(row.value)
  {
    if row.group == 1 then FiniteRL(row.value.resistance.x, row.value.inductance.x) else Ideal
  }

  /** The link a row stands for, with precisely the owners filed under it. */
  function Rebuilt(env: Env, nodes: seq<Bytes>, row: LinkRow, owners: seq<Bytes>): Link
    requires LinkFits(env, nodes, row, owners)
  {
    Construct(env, row.value.id, nodes[row.value.first], nodes[row.value.second], row.value.count, ImpedanceOf(row), owners)
  }

  // ---- the state of the pass ----

  /** Everything read so far is consistent, and the owner pointer stands exactly behind the last link's owners. */
  predicate Joined(env: Env, nodes: seq<Bytes>, links: seq<LinkRow>, owners: seq<OwnerRow>, i: nat, p: nat) {
    && i <= |links| && p <= |owners|
    && Contiguous(links[..i]) && Contiguous(owners[..p])
    && (forall k :: 0 <= k < i ==> LinkFits(env, nodes, links[k], Group(owners, LinkKey(links[k]))))
    && (forall q :: 0 <= q < p ==> Attached(links, owners[q].group) && OwnerOk(owners[q]))
    && DistinctFolds(env, LinkIds(links[..i])) && DistinctFolds(env, OwnerIds(owners[..p]))
    && (forall q, k {:trigger Less(LinkKey(links[k]), owners[q].group)} :: p <= q < |owners| && 0 <= k < i ==> Less(LinkKey(links[k]), owners[q].group))
    && (forall q, k {:trigger Less(owners[q].group, LinkKey(links[k]))} :: 0 <= q < p && i <= k < |links| ==> Less(owners[q].group, LinkKey(links[k])))
  }

  /** The owners of one key lie together from p to e. */
  predicate Run(owners: seq<OwnerRow>, key: (int, int), p: nat, e: nat) {
    && p <= e <= |owners|
    && (forall q :: 0 <= q < p ==> owners[q].group != key)
    && (forall q :: p <= q < e ==> owners[q].group == key)
  }

  lemma {:induction false} GroupOfRun(owners: seq<OwnerRow>, key: (int, int), p: nat, e: nat)
    requires Run(owners, key, p, e)
    ensures Group(owners[..e], key) == OwnerIds(owners[p..e])
    decreases e
  {
    if e == p {
      GroupIsEmpty(owners[..e], key);
    } else {
      assert owners[..e][..e - 1] == owners[..e - 1];
      GroupOfRun(owners, key, p, e - 1);
      assert OwnerIds(owners[p..e]) == OwnerIds(owners[p..e - 1]) + [owners[e - 1].value];
    }
  }

  lemma GroupEnds(owners: seq<OwnerRow>, key: (int, int), e: nat)
    requires e <= |owners| && forall q :: e <= q < |owners| ==> owners[q].group != key
    ensures Group(owners, key) == Group(owners[..e], key)
  {
    assert owners == owners[..e] + owners[e..];
    GroupOfConcat(owners[..e], owners[e..], key);
    GroupIsEmpty(owners[e..], key);
  }

  lemma {:induction false} OwnersSplit(owners: seq<OwnerRow>, e: nat)
    requires e < |owners|
    ensures OwnerIds(owners[..e + 1]) == OwnerIds(owners[..e]) + [owners[e].value]
  {
  }

  /** One more owner row of the current link. */
  lemma TakeStep(env: Env, owners: seq<OwnerRow>, key: (int, int), p: nat, e: nat)
    requires Run(owners, key, p, e) && e < |owners| && owners[e].group == key
    requires Contiguous(owners[..e]) && DistinctFolds(env, OwnerIds(owners[..e]))
    ensures owners[e].ordinal == e - p <==> Counts(owners, e)
    ensures Counts(owners, e) ==> Contiguous(owners[..e + 1])
    ensures env.fold(owners[e].value) !in Folds(env, OwnerIds(owners[..e])) <==> DistinctFolds(env, OwnerIds(owners[..e + 1]))
    ensures Folds(env, OwnerIds(owners[..e + 1])) == Folds(env, OwnerIds(owners[..e])) + {env.fold(owners[e].value)}
  {
    GroupOfRun(owners, key, p, e);
    if Counts(owners, e) {
      ContiguousExtend(owners, e);
    }
    FoldsStep(env, OwnerIds(owners[..e]), owners[e].value);
    OwnersSplit(owners, e);
  }

  lemma FoldsStep(env: Env, names: seq<Bytes>, name: Bytes)
    requires DistinctFolds(env, names)
    ensures env.fold(name) !in Folds(env, names) <==> DistinctFolds(env, names + [name])
    ensures Folds(env, names + [name]) == Folds(env, names) + {env.fold(name)}
  {
    var more := names + [name];
    assert forall k :: 0 <= k < |names| ==> more[k] == names[k];
    assert more[|names|] == name;
  }

  lemma PrefixIsDistinct(env: Env, names: seq<Bytes>, more: seq<Bytes>)
    requires DistinctFolds(env, names + more)
    ensures DistinctFolds(env, names)
  {
    assert forall k :: 0 <= k < |names| ==> (names + more)[k] == names[k];
  }

  lemma OwnersDistinct(env: Env, owners: seq<OwnerRow>, e: nat)
    requires e <= |owners| && DistinctFolds(env, OwnerIds(owners))
    ensures DistinctFolds(env, OwnerIds(owners[..e]))
  {
    assert OwnerIds(owners) == OwnerIds(owners[..e]) + OwnerIds(owners[e..]);
    PrefixIsDistinct(env, OwnerIds(owners[..e]), OwnerIds(owners[e..]));
  }

  lemma LinksDistinct(env: Env, links: seq<LinkRow>, i: nat)
    requires i <= |links| && DistinctFolds(env, LinkIds(links))
    ensures DistinctFolds(env, LinkIds(links[..i]))
  {
    assert LinkIds(links) == LinkIds(links[..i]) + LinkIds(links[i..]);
    PrefixIsDistinct(env, LinkIds(links[..i]), LinkIds(links[i..]));
  }

  predicate OwnersConsistent(env: Env, owners: seq<OwnerRow>) {
    Contiguous(owners) && DistinctFolds(env, OwnerIds(owners)) && forall q :: 0 <= q < |owners| ==> OwnerOk(owners[q])
  }

  /** The owners of one key read from p up to e, all of them good. */
  predicate Taking(env: Env, owners: seq<OwnerRow>, key: (int, int), p: nat, e: nat, list: seq<Bytes>, keys: set<Bytes>) {
    && Run(owners, key, p, e) && list == OwnerIds(owners[p..e])
    && Contiguous(owners[..e]) && DistinctFolds(env, OwnerIds(owners[..e])) && keys == Folds(env, OwnerIds(owners[..e]))
    && forall q :: p <= q < e ==> OwnerOk(owners[q])
  }

  lemma Taken(env: Env, owners: seq<OwnerRow>, key: (int, int), p: nat, e: nat, list: seq<Bytes>, keys: set<Bytes>)
    requires Taking(env, owners, key, p, e, list, keys) && e < |owners| && owners[e].group == key
    requires owners[e].ordinal == |list| && OwnerOk(owners[e]) && env.fold(owners[e].value) !in keys
    ensures Taking(env, owners, key, p, e + 1, list + [owners[e].value], keys + {env.fold(owners[e].value)})
  {
    TakeStep(env, owners, key, p, e);
    assert owners[p..e + 1] == owners[p..e] + [owners[e]];
  }

  lemma Refused(env: Env, owners: seq<OwnerRow>, key: (int, int), p: nat, e: nat, list: seq<Bytes>, keys: set<Bytes>)
    requires Taking(env, owners, key, p, e, list, keys) && e < |owners| && owners[e].group == key
    ensures OwnersConsistent(env, owners) ==>
              owners[e].ordinal == |list| && OwnerOk(owners[e]) && env.fold(owners[e].value) !in keys
  {
    TakeStep(env, owners, key, p, e);
    if OwnersConsistent(env, owners) {
      OwnersDistinct(env, owners, e + 1);
    }
  }

  /** The inner loop: the owners of one link, or None at the first bad one. */
  method TakeOwners(env: Env, owners: seq<OwnerRow>, key: (int, int), p: nat, ownerKeys: set<Bytes>)
    returns (taken: Option<seq<Bytes>>, e: nat, keys: set<Bytes>)
    requires Taking(env, owners, key, p, p, [], ownerKeys)
    ensures taken.None? ==> !OwnersConsistent(env, owners)
    ensures taken.Some? ==> Taking(env, owners, key, p, e, taken.value, keys) && (e < |owners| ==> owners[e].group != key)
  {
    hide Taking, OwnersConsistent;
    var list: seq<Bytes> := [];
    e, keys := p, ownerKeys;
    while e < |owners| && owners[e].group == key
      invariant Taking(env, owners, key, p, e, list, keys)
    {
      var row := owners[e];
      Refused(env, owners, key, p, e, list, keys);
      if row.ordinal != |list| {
        return None, e, keys;
      }
      if !ValidText(row.value) {
        return None, e, keys;
      }
      if env.fold(row.value) in keys {
        return None, e, keys;
      }
      if row.group.0 == 1 && !(VIA_PREFIX <= row.value) {
        return None, e, keys;
      }
      Taken(env, owners, key, p, e, list, keys);
      keys := keys + {env.fold(row.value)};
      list := list + [row.value];
      e := e + 1;
    }
    taken := Some(list);
  }

  lemma StartTaking(env: Env, owners: seq<OwnerRow>, key: (int, int), p: nat, keys: set<Bytes>)
    requires Run(owners, key, p, p) && Contiguous(owners[..p]) && DistinctFolds(env, OwnerIds(owners[..p]))
    requires keys == Folds(env, OwnerIds(owners[..p]))
    ensures Taking(env, owners, key, p, p, [], keys)
  {
  }

  lemma TakenAll(env: Env, owners: seq<OwnerRow>, key: (int, int), p: nat, e: nat, list: seq<Bytes>, keys: set<Bytes>)
    requires Taking(env, owners, key, p, e, list, keys)
    ensures p <= e <= |owners| && Run(owners, key, p, e) && list == OwnerIds(owners[p..e])
    ensures Contiguous(owners[..e]) && DistinctFolds(env, OwnerIds(owners[..e])) && keys == Folds(env, OwnerIds(owners[..e]))
    ensures forall q :: p <= q < e ==> OwnerOk(owners[q])
  {
  }

  // ---- the outer loop ----

  /** Owners of the next link, if there are any, lie at or behind the owner pointer. */
  lemma FreshRun(env: Env, nodes: seq<Bytes>, links: seq<LinkRow>, owners: seq<OwnerRow>, i: nat, p: nat)
    requires Joined(env, nodes, links, owners, i, p) && i < |links|
    ensures Run(owners, LinkKey(links[i]), p, p)
  {
    forall q | 0 <= q < p ensures owners[q].group != LinkKey(links[i]) {
      assert Less(owners[q].group, LinkKey(links[i]));
    }
  }

  /** An owner row that the pointer stands on, before the next link's key, belongs to no link. */
  lemma Dangling(env: Env, nodes: seq<Bytes>, links: seq<LinkRow>, owners: seq<OwnerRow>, i: nat, p: nat)
    requires LinksSorted(links) && Joined(env, nodes, links, owners, i, p) && i < |links| && p < |owners|
    requires Less(owners[p].group, LinkKey(links[i]))
    ensures !Attached(links, owners[p].group)
  {
    forall j | 0 <= j < |links| ensures LinkKey(links[j]) != owners[p].group {
      if j < i {
        assert Less(LinkKey(links[j]), owners[p].group);
      } else if j > i {
        assert Less(LinkKey(links[i]), LinkKey(links[j]));
      }
    }
  }

  /** A link at which the owner pointer finds nothing has no owners, or an owner row is left dangling. */
  lemma NothingTaken(env: Env, nodes: seq<Bytes>, links: seq<LinkRow>, owners: seq<OwnerRow>, i: nat, p: nat)
    requires LinksSorted(links) && OwnersSorted(owners) && Joined(env, nodes, links, owners, i, p) && i < |links|
    requires p < |owners| ==> owners[p].group != LinkKey(links[i])
    ensures !Consistent(env, nodes, links, owners)
  {
    var key := LinkKey(links[i]);
    FreshRun(env, nodes, links, owners, i, p);
    GroupIsEmpty(owners, key);
    if q :| p <= q < |owners| && owners[q].group == key {
      assert owners[p].group == owners[q].group || Less(owners[p].group, owners[q].group);
      Dangling(env, nodes, links, owners, i, p);
    }
  }

  /** The owners taken are all the link has. */
  lemma TakenIsGroup(links: seq<LinkRow>, owners: seq<OwnerRow>, key: (int, int), p: nat, e: nat)
    requires OwnersSorted(owners) && Run(owners, key, p, e) && p < e && (e < |owners| ==> owners[e].group != key)
    ensures Group(owners, key) == OwnerIds(owners[p..e])
    ensures forall q :: e <= q < |owners| ==> Less(key, owners[q].group)
  {
    forall q | e <= q < |owners| ensures Less(key, owners[q].group) {
      assert owners[e - 1].group == key;
      assert owners[e - 1].group == owners[e].group || Less(owners[e - 1].group, owners[e].group);
      if e < q {
        assert owners[e].group == owners[q].group || Less(owners[e].group, owners[q].group);
      }
    }
    GroupOfRun(owners, key, p, e);
    GroupEnds(owners, key, e);
  }

  lemma JoinStep(env: Env, nodes: seq<Bytes>, links: seq<LinkRow>, owners: seq<OwnerRow>, i: nat, p: nat, e: nat)
    requires LinksSorted(links) && OwnersSorted(owners) && Joined(env, nodes, links, owners, i, p) && i < |links|
    requires Run(owners, LinkKey(links[i]), p, e) && p < e && (e < |owners| ==> owners[e].group != LinkKey(links[i]))
    requires Contiguous(owners[..e]) && DistinctFolds(env, OwnerIds(owners[..e])) && forall q :: p <= q < e ==> OwnerOk(owners[q])
    requires Counts(links, i) && LinkFits(env, nodes, links[i], OwnerIds(owners[p..e]))
    requires env.fold(links[i].value.id) !in Folds(env, LinkIds(links[..i]))
    ensures Joined(env, nodes, links, owners, i + 1, e)
  {
    TakenIsGroup(links, owners, LinkKey(links[i]), p, e);
    ContiguousExtend(links, i);
    FoldsStep(env, LinkIds(links[..i]), links[i].value.id);
    assert LinkIds(links[..i + 1]) == LinkIds(links[..i]) + [links[i].value.id];
    forall q | 0 <= q < e ensures Attached(links, owners[q].group) && OwnerOk(owners[q]) {
      if q >= p {
        assert LinkKey(links[i]) == owners[q].group;
      }
    }
    JoinStepOrder(env, nodes, links, owners, i, p, e);
  }

  lemma JoinStepOrder(env: Env, nodes: seq<Bytes>, links: seq<LinkRow>, owners: seq<OwnerRow>, i: nat, p: nat, e: nat)
    requires LinksSorted(links) && OwnersSorted(owners) && Joined(env, nodes, links, owners, i, p) && i < |links|
    requires Run(owners, LinkKey(links[i]), p, e) && p < e && (e < |owners| ==> owners[e].group != LinkKey(links[i]))
    ensures forall q, k {:trigger Less(LinkKey(links[k]), owners[q].group)} :: e <= q < |owners| && 0 <= k < i + 1 ==> Less(LinkKey(links[k]), owners[q].group)
    ensures forall q, k {:trigger Less(owners[q].group, LinkKey(links[k]))} :: 0 <= q < e && i + 1 <= k < |links| ==> Less(owners[q].group, LinkKey(links[k]))
  {
    TakenIsGroup(links, owners, LinkKey(links[i]), p, e);
    forall q, k | 0 <= q < e && i + 1 <= k < |links| ensures Less(owners[q].group, LinkKey(links[k])) {
      if q >= p {
        assert owners[q].group == LinkKey(links[i]);
        assert Less(LinkKey(links[i]), LinkKey(links[k]));
      }
    }
  }

  /** The rows of one kind become its list of links. */
  function RebuiltRows(env: Env, nodes: seq<Bytes>, links: seq<LinkRow>, owners: seq<OwnerRow>, n: nat): seq<Row<int, Link>>
    requires n <= |links| && forall k :: 0 <= k < n ==> LinkFits(env, nodes, links[k], Group(owners, LinkKey(links[k])))
  {
    seq(n, k requires 0 <= k < n =>
      Row(links[k].group, links[k].ordinal, Rebuilt(env, nodes, links[k], Group(owners, LinkKey(links[k])))))
  }

  lemma {:induction false} RebuiltSizes(env: Env, nodes: seq<Bytes>, links: seq<LinkRow>, owners: seq<OwnerRow>, n: nat, kind: int)
    requires n <= |links| && forall k :: 0 <= k < n ==> LinkFits(env, nodes, links[k], Group(owners, LinkKey(links[k])))
    ensures |Group(RebuiltRows(env, nodes, links, owners, n), kind)| == |Group(links[..n], kind)|
    decreases n
  {
    if n > 0 {
      RebuiltSizes(env, nodes, links, owners, n - 1, kind);
      assert RebuiltRows(env, nodes, links, owners, n)[..n - 1] == RebuiltRows(env, nodes, links, owners, n - 1);
      assert links[..n][..n - 1] == links[..n - 1];
    }
  }

  /** The columns of one link row against what has been read before it. */
  method CheckLinkRow(env: Env, nodes: seq<Bytes>, row: LinkRow, position: nat, linkKeys: set<Bytes>) returns (ok: bool)
    ensures ok <==> row.ordinal == position && LinkCellsOk(nodes, row) && env.fold(row.value.id) !in linkKeys
  {
    var c := row.value;
    if (row.group != 0 && row.group != 1) || row.ordinal != position {
      return false;
    }
    if !(0 <= c.first < |nodes|) || !(0 <= c.second < |nodes|) || c.count < 1 {
      return false;
    }
    if !ValidText(c.id) {
      return false;
    }
    return env.fold(c.id) !in linkKeys;
  }

  /** The link object for a row and the owners taken for it, or None if they do not fit. */
  method BuildLink(env: Env, nodes: seq<Bytes>, row: LinkRow, taken: seq<Bytes>) returns (link: Option<Link>)
    requires LinkCellsOk(nodes, row)
    ensures link.Some? <==> LinkFits(env, nodes, row, taken)
    ensures link.Some? ==> link.value == Rebuilt(env, nodes, row, taken)
  {
    var c := row.value;
    if taken == [] {
      return None;
    }
    if row.group == 0 {
      if c.count != 1 || !c.resistance.Null? || !c.inductance.Null? {
        return None;
      }
    } else {
      if c.count > |taken| || |taken| % c.count != 0 || !Passive(c) {
        return None;
      }
    }
    if !Constructible(env, c.id, nodes[c.first], nodes[c.second], taken) {
      return None;
    }
    return Some(Construct(env, c.id, nodes[c.first], nodes[c.second], c.count, ImpedanceOf(row), taken));
  }

  lemma AcceptedRow(env: Env, nodes: seq<Bytes>, links: seq<LinkRow>, owners: seq<OwnerRow>, i: nat)
    requires i < |links| && DistinctFolds(env, LinkIds(links[..i]))
    ensures Consistent(env, nodes, links, owners) ==>
              Counts(links, i) && LinkCellsOk(nodes, links[i]) && env.fold(links[i].value.id) !in Folds(env, LinkIds(links[..i]))
  {
    FoldsStep(env, LinkIds(links[..i]), links[i].value.id);
    assert LinkIds(links[..i + 1]) == LinkIds(links[..i]) + [links[i].value.id];
    if Consistent(env, nodes, links, owners) {
      LinksDistinct(env, links, i + 1);
    }
  }

  lemma RebuiltStep(env: Env, nodes: seq<Bytes>, links: seq<LinkRow>, owners: seq<OwnerRow>, i: nat, kind: int)
    requires i < |links| && forall k :: 0 <= k < i + 1 ==> LinkFits(env, nodes, links[k], Group(owners, LinkKey(links[k])))
    ensures Group(RebuiltRows(env, nodes, links, owners, i + 1), kind) ==
            Group(RebuiltRows(env, nodes, links, owners, i), kind) +
            (if links[i].group == kind then [Rebuilt(env, nodes, links[i], Group(owners, LinkKey(links[i])))] else [])
  {
    var rows := RebuiltRows(env, nodes, links, owners, i + 1);
    assert rows[..i] == RebuiltRows(env, nodes, links, owners, i);
  }

  /** Owners that do not fit the link they are filed under. */
  lemma Misfit(env: Env, nodes: seq<Bytes>, links: seq<LinkRow>, owners: seq<OwnerRow>, i: nat)
    requires i < |links|
    ensures Consistent(env, nodes, links, owners) ==> LinkFits(env, nodes, links[i], Group(owners, LinkKey(links[i])))
    ensures Consistent(env, nodes, links, owners) ==> OwnersConsistent(env, owners)
  {
  }

  /** The names of the links read so far, after one more. */
  lemma LinkFolds(env: Env, links: seq<LinkRow>, i: nat)
    requires i < |links| && DistinctFolds(env, LinkIds(links[..i]))
    ensures Folds(env, LinkIds(links[..i + 1])) == Folds(env, LinkIds(links[..i])) + {env.fold(links[i].value.id)}
  {
    FoldsStep(env, LinkIds(links[..i]), links[i].value.id);
    assert LinkIds(links[..i + 1]) == LinkIds(links[..i]) + [links[i].value.id];
  }

  /** What the pass knows about the rows it has read, without the order of the two tables. */
  lemma ReadSoFar(env: Env, nodes: seq<Bytes>, links: seq<LinkRow>, owners: seq<OwnerRow>, i: nat, p: nat)
    requires Joined(env, nodes, links, owners, i, p)
    ensures p <= |owners| && Contiguous(owners[..p]) && DistinctFolds(env, OwnerIds(owners[..p])) && DistinctFolds(env, LinkIds(links[..i]))
  {
  }

  /** One link row: check it, take its owners, and build the link. */
  method JoinOne(env: Env, nodes: seq<Bytes>, links: seq<LinkRow>, owners: seq<OwnerRow>, i: nat, p: nat, position: nat,
                 linkKeys: set<Bytes>, ownerKeys: set<Bytes>)
    returns (link: Option<Link>, e: nat, moreLinks: set<Bytes>, moreOwners: set<Bytes>)
    requires LinksSorted(links) && OwnersSorted(owners) && Joined(env, nodes, links, owners, i, p) && i < |links| && p <= |owners|
    requires position == |Group(links[..i], links[i].group)|
    requires linkKeys == Folds(env, LinkIds(links[..i])) && ownerKeys == Folds(env, OwnerIds(owners[..p]))
    ensures link.None? ==> !Consistent(env, nodes, links, owners)
    ensures link.Some? ==>
              && e <= |owners| && Joined(env, nodes, links, owners, i + 1, e)
              && moreLinks == Folds(env, LinkIds(links[..i + 1])) && moreOwners == Folds(env, OwnerIds(owners[..e]))
              && LinkFits(env, nodes, links[i], Group(owners, LinkKey(links[i])))
              && link.value == Rebuilt(env, nodes, links[i], Group(owners, LinkKey(links[i])))
  {
    hide Joined, Consistent, OwnersConsistent, Taking, Contiguous, DistinctFolds, Folds, LinkFits, LinkCellsOk, Run, LinksSorted, OwnersSorted, Group,
         LinkIds, OwnerIds, Rebuilt;
    var row := links[i];
    ReadSoFar(env, nodes, links, owners, i, p);
    AcceptedRow(env, nodes, links, owners, i);
    FreshRun(env, nodes, links, owners, i, p);
    StartTaking(env, owners, LinkKey(row), p, ownerKeys);
    Misfit(env, nodes, links, owners, i);
    e, moreLinks, moreOwners := p, linkKeys, ownerKeys;
    var rowOk := CheckLinkRow(env, nodes, row, position, linkKeys);
    if !rowOk {
      return None, e, moreLinks, moreOwners;
    }
    var taken;
    taken, e, moreOwners := TakeOwners(env, owners, LinkKey(row), p, ownerKeys);
    if taken.None? {
      return None, e, moreLinks, moreOwners;
    }
    TakenAll(env, owners, LinkKey(row), p, e, taken.value, moreOwners);
    if e == p {
      NothingTaken(env, nodes, links, owners, i, p);
      return None, e, moreLinks, moreOwners;
    }
    TakenIsGroup(links, owners, LinkKey(row), p, e);
    link := BuildLink(env, nodes, row, taken.value);
    if link.Some? {
      JoinStep(env, nodes, links, owners, i, p, e);
      LinkFolds(env, links, i);
      moreLinks := moreLinks + {env.fold(row.value.id)};
    }
  }

  /** The links of the two kinds, in ordinal order. */
  datatype LinksByKind = LinksByKind(topology: seq<Link>, finite: seq<Link>)

  /** The lists hold the links built from the first i rows. */
  predicate Collected(env: Env, nodes: seq<Bytes>, links: seq<LinkRow>, owners: seq<OwnerRow>, i: nat, lists: LinksByKind) {
    && i <= |links| && (forall k :: 0 <= k < i ==> LinkFits(env, nodes, links[k], Group(owners, LinkKey(links[k]))))
    && lists == LinksByKind(Group(RebuiltRows(env, nodes, links, owners, i), 0), Group(RebuiltRows(env, nodes, links, owners, i), 1))
  }

  lemma CollectStep(env: Env, nodes: seq<Bytes>, links: seq<LinkRow>, owners: seq<OwnerRow>, i: nat, lists: LinksByKind)
    requires i < |links| && Collected(env, nodes, links, owners, i, lists)
    requires LinkFits(env, nodes, links[i], Group(owners, LinkKey(links[i])))
    ensures var link := Rebuilt(env, nodes, links[i], Group(owners, LinkKey(links[i])));
            Collected(env, nodes, links, owners, i + 1,
                      if links[i].group == 0 then lists.(topology := lists.topology + [link]) else lists.(finite := lists.finite + [link]))
  {
    RebuiltStep(env, nodes, links, owners, i, 0);
    RebuiltStep(env, nodes, links, owners, i, 1);
  }

  /** How many links of the next row's kind there are so far. */
  lemma Position(env: Env, nodes: seq<Bytes>, links: seq<LinkRow>, owners: seq<OwnerRow>, i: nat, lists: LinksByKind)
    requires i < |links| && Collected(env, nodes, links, owners, i, lists)
    ensures links[i].group == 0 ==> |lists.topology| == |Group(links[..i], 0)|
    ensures links[i].group == 1 ==> |lists.finite| == |Group(links[..i], 1)|
  {
    RebuiltSizes(env, nodes, links, owners, i, links[i].group);
  }

  lemma UnknownKind(env: Env, nodes: seq<Bytes>, links: seq<LinkRow>, owners: seq<OwnerRow>, i: nat)
    requires i < |links| && links[i].group != 0 && links[i].group != 1
    ensures !Consistent(env, nodes, links, owners)
  {
  }

  /** After the last link the tables are consistent exactly when no owner row is left over. */
  lemma JoinEnds(env: Env, nodes: seq<Bytes>, links: seq<LinkRow>, owners: seq<OwnerRow>, p: nat)
    requires Joined(env, nodes, links, owners, |links|, p)
    ensures Consistent(env, nodes, links, owners) <==> p == |owners|
  {
    assert links[..|links|] == links;
    if p == |owners| {
      assert owners[..p] == owners;
    } else {
      forall k | 0 <= k < |links| ensures LinkKey(links[k]) != owners[p].group {
        assert Less(LinkKey(links[k]), owners[p].group);
      }
      assert !Attached(links, owners[p].group);
    }
  }

  lemma NothingRead(env: Env, nodes: seq<Bytes>, links: seq<LinkRow>, owners: seq<OwnerRow>)
    ensures Joined(env, nodes, links, owners, 0, 0) && Collected(env, nodes, links, owners, 0, LinksByKind([], []))
    ensures Folds(env, LinkIds(links[..0])) == {} && Folds(env, OwnerIds(owners[..0])) == {}
  {
  }

  /**
   The merge-join. Over sorted tables it accepts exactly the consistent ones, and gives each link
   precisely the owners filed under it.
   */
  method JoinLinks(env: Env, nodes: seq<Bytes>, links: seq<LinkRow>, owners: seq<OwnerRow>) returns (joined: Option<LinksByKind>)
    requires LinksSorted(links) && OwnersSorted(owners)
    ensures joined.Some? <==> Consistent(env, nodes, links, owners)
    ensures joined.Some? ==> Collected(env, nodes, links, owners, |links|, joined.value)
  {
    hide Joined, Consistent, Contiguous, DistinctFolds, Folds, LinkFits, LinkIds, OwnerIds, LinksSorted, OwnersSorted, Group, Rebuilt, Collected;
    var lists := LinksByKind([], []);
    var linkKeys: set<Bytes>, ownerKeys: set<Bytes> := {}, {};
    var i: nat, p: nat := 0, 0;
    NothingRead(env, nodes, links, owners);
    while i < |links|
      invariant i <= |links| && p <= |owners| && Joined(env, nodes, links, owners, i, p)
      invariant linkKeys == Folds(env, LinkIds(links[..i])) && ownerKeys == Folds(env, OwnerIds(owners[..p]))
      invariant Collected(env, nodes, links, owners, i, lists)
    {
      var kind := links[i].group;
      if kind != 0 && kind != 1 {
        UnknownKind(env, nodes, links, owners, i);
        return None;
      }
      Position(env, nodes, links, owners, i, lists);
      var link, e, moreLinks, moreOwners :=
        JoinOne(env, nodes, links, owners, i, p, if kind == 0 then |lists.topology| else |lists.finite|, linkKeys, ownerKeys);
      if link.None? {
        return None;
      }
      CollectStep(env, nodes, links, owners, i, lists);
      lists := if kind == 0 then lists.(topology := lists.topology + [link.value]) else lists.(finite := lists.finite + [link.value]);
      i, p, linkKeys, ownerKeys := i + 1, e, moreLinks, moreOwners;
    }
    JoinEnds(env, nodes, links, owners, p);
    if p < |owners| {
      return None;
    }
    return Some(lists);
  }
}
