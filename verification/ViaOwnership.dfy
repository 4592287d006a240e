/** Counting which Vias belong to Device and decap terminals. */
module ViaOwnership {
  import opened ByteStrings

  type Fold = Bytes -> Bytes
  type Key = (Bytes, Bytes)

  datatype DecapVia = DecapVia(net: Bytes, padstack: Bytes, via: Bytes)

  /** A Device terminal row; absent columns read as empty texts. */
  datatype Terminal = Terminal(endpoint: Bytes, net: Bytes, padstack: Bytes, via: Bytes, opposite: Bytes, complete: bool)

  datatype ViaGroup = ViaGroup(net: Bytes, padstack: Bytes, count: int, complete: bool)

  type Owner = (Bytes, Bytes, Bytes, Bytes)

  datatype Issue = CountExceeded | IncompleteEndpoint

  datatype Owned = Owned(group: ViaGroup, owned: nat, incomplete: nat, issues: seq<Issue>, substrate: Option<int>)

  datatype Certificate = Certificate(groups: seq<Owned>, deviceTotal: nat, affecting: set<Bytes>, nonaffecting: set<Bytes>, complete: bool)

  type Ids = map<Key, set<Bytes>>

  function At(ids: Ids, key: Key): set<Bytes> {
    if key in ids then ids[key] else {}
  }

  function Joined(ids: Ids, key: Key, id: Bytes): (r: Ids)
    ensures forall k :: At(r, k) == if k == key then At(ids, k) + {id} else At(ids, k)
  {
    ids[key := At(ids, key) + {id}]
  }

  // ---- what the rows say ----

  function KeyOf(fold: Fold, t: Terminal): Key {
    (fold(t.net), fold(t.padstack))
  }

  function OwnerOf(fold: Fold, t: Terminal): Owner {
    (fold(t.endpoint), fold(t.net), fold(t.padstack), fold(t.opposite))
  }

  function GroupKey(fold: Fold, g: ViaGroup): Key {
    (fold(g.net), fold(g.padstack))
  }

  function DecapIds(fold: Fold, rows: seq<DecapVia>, key: Key): set<Bytes> {
    set i | 0 <= i < |rows| && (fold(rows[i].net), fold(rows[i].padstack)) == key :: fold(rows[i].via)
  }

  function DeviceIds(fold: Fold, rows: seq<Terminal>, key: Key): set<Bytes> {
    set i | 0 <= i < |rows| && rows[i].complete && KeyOf(fold, rows[i]) == key :: fold(rows[i].via)
  }

  function CompleteIds(fold: Fold, rows: seq<Terminal>): set<Bytes> {
    set i | 0 <= i < |rows| && rows[i].complete :: fold(rows[i].via)
  }

  /** An incomplete endpoint that can be filed under a net and padstack. */
  predicate Mapped(fold: Fold, t: Terminal) {
    !t.complete && t.endpoint != [] && fold(t.net) != [] && fold(t.padstack) != []
  }

  predicate Unmapped(fold: Fold, t: Terminal) {
    !t.complete && t.endpoint != [] && !(fold(t.net) != [] && fold(t.padstack) != [])
  }

  function IncompleteIds(fold: Fold, rows: seq<Terminal>, key: Key): set<Bytes> {
    set i | 0 <= i < |rows| && Mapped(fold, rows[i]) && KeyOf(fold, rows[i]) == key :: rows[i].endpoint
  }

  function UnmappedIds(fold: Fold, rows: seq<Terminal>): set<Bytes> {
    set i | 0 <= i < |rows| && Unmapped(fold, rows[i]) :: rows[i].endpoint
  }

  /** Identified endpoints of incomplete rows. */
  function IdentifiedIncomplete(rows: seq<Terminal>): set<Bytes> {
    set i | 0 <= i < |rows| && !rows[i].complete && rows[i].endpoint != [] :: rows[i].endpoint
  }

  /** No Via id is claimed for two different owners. */
  predicate OneOwner(fold: Fold, rows: seq<Terminal>) {
    forall i, j :: 0 <= i < j < |rows| && rows[i].complete && rows[j].complete && fold(rows[i].via) == fold(rows[j].via) ==>
      OwnerOf(fold, rows[i]) == OwnerOf(fold, rows[j])
  }

  // ---- the three loops ----

  method CollectDecaps(fold: Fold, rows: seq<DecapVia>) returns (ids: Ids)
    ensures forall key :: At(ids, key) == DecapIds(fold, rows, key)
  {
    ids := map[];
    for i := 0 to |rows|
      invariant forall key :: At(ids, key) == DecapIds(fold, rows[..i], key)
    {
      DecapStep(fold, rows, i);
      ids := Joined(ids, (fold(rows[i].net), fold(rows[i].padstack)), fold(rows[i].via));
    }
    assert rows[..|rows|] == rows;
  }

  lemma DecapStep(fold: Fold, rows: seq<DecapVia>, i: nat)
    requires i < |rows|
    ensures forall key :: DecapIds(fold, rows[..i + 1], key) ==
                          DecapIds(fold, rows[..i], key) + (if (fold(rows[i].net), fold(rows[i].padstack)) == key then {fold(rows[i].via)} else {})
  {
    var more := rows[..i + 1];
    assert forall k :: 0 <= k < i ==> more[k] == rows[..i][k];
    assert more[i] == rows[i];
  }

  /** The dictionaries filled from the Device terminals. */
  datatype Devices = Devices(device: Ids, incomplete: Ids, unmapped: set<Bytes>, complete: set<Bytes>, owners: map<Bytes, Owner>)

  /** The dictionaries hold what the rows say. */
  ghost predicate Holds(fold: Fold, rows: seq<Terminal>, d: Devices) {
    && (forall key :: At(d.device, key) == DeviceIds(fold, rows, key))
    && (forall key :: At(d.incomplete, key) == IncompleteIds(fold, rows, key))
    && d.unmapped == UnmappedIds(fold, rows) && d.complete == CompleteIds(fold, rows) && d.owners.Keys == d.complete
    && OneOwner(fold, rows)
    && forall i :: 0 <= i < |rows| && rows[i].complete ==> fold(rows[i].via) in d.owners && d.owners[fold(rows[i].via)] == OwnerOf(fold, rows[i])
  }

  lemma TerminalStep(fold: Fold, rows: seq<Terminal>, i: nat)
    requires i < |rows|
    ensures var t, before, after := rows[i], rows[..i], rows[..i + 1];
            && (forall key :: DeviceIds(fold, after, key) ==
                              DeviceIds(fold, before, key) + (if t.complete && KeyOf(fold, t) == key then {fold(t.via)} else {}))
            && (forall key :: IncompleteIds(fold, after, key) ==
                              IncompleteIds(fold, before, key) + (if Mapped(fold, t) && KeyOf(fold, t) == key then {t.endpoint} else {}))
            && UnmappedIds(fold, after) == UnmappedIds(fold, before) + (if Unmapped(fold, t) then {t.endpoint} else {})
            && CompleteIds(fold, after) == CompleteIds(fold, before) + (if t.complete then {fold(t.via)} else {})
  {
    var more := rows[..i + 1];
    assert forall k :: 0 <= k < i ==> more[k] == rows[..i][k];
    assert more[i] == rows[i];
  }

  /** One row: None if its Via belongs to somebody else already. */
  function Absorb(fold: Fold, d: Devices, t: Terminal): Option<Devices> {
    if t.complete then
      var via, owner := fold(t.via), OwnerOf(fold, t);
      if via in d.owners && d.owners[via] != owner then None
      else Some(d.(device := Joined(d.device, KeyOf(fold, t), via), complete := d.complete + {via}, owners := d.owners[via := owner]))
    else if t.endpoint != [] && fold(t.net) != [] && fold(t.padstack) != [] then
      Some(d.(incomplete := Joined(d.incomplete, KeyOf(fold, t), t.endpoint)))
    else if t.endpoint != [] then Some(d.(unmapped := d.unmapped + {t.endpoint}))
    else Some(d)
  }

  lemma AbsorbKeeps(fold: Fold, rows: seq<Terminal>, i: nat, d: Devices)
    requires i < |rows| && Holds(fold, rows[..i], d)
    ensures Absorb(fold, d, rows[i]).Some? ==> Holds(fold, rows[..i + 1], Absorb(fold, d, rows[i]).value)
    ensures Absorb(fold, d, rows[i]).None? ==> !OneOwner(fold, rows)
  {
    hide DeviceIds, IncompleteIds, UnmappedIds, CompleteIds;
    TerminalStep(fold, rows, i);
    OwnersStep(fold, rows, i, d);
  }

  lemma OwnersStep(fold: Fold, rows: seq<Terminal>, i: nat, d: Devices)
    requires i < |rows| && Holds(fold, rows[..i], d)
    ensures Absorb(fold, d, rows[i]).Some? ==>
              var owners := Absorb(fold, d, rows[i]).value.owners;
              && OneOwner(fold, rows[..i + 1])
              && forall k :: 0 <= k < i + 1 && rows[k].complete ==> fold(rows[k].via) in owners && owners[fold(rows[k].via)] == OwnerOf(fold, rows[k])
    ensures Absorb(fold, d, rows[i]).None? ==> !OneOwner(fold, rows)
  {
    hide DeviceIds, IncompleteIds, UnmappedIds;
    assert forall k :: 0 <= k < i ==> rows[..i][k] == rows[k];
    if Absorb(fold, d, rows[i]).None? {
      var via := fold(rows[i].via);
      assert via in CompleteIds(fold, rows[..i]);
      var k :| 0 <= k < i && rows[..i][k].complete && fold(rows[..i][k].via) == via;
      assert OwnerOf(fold, rows[k]) != OwnerOf(fold, rows[i]);
    }
  }

  method CollectDevices(fold: Fold, rows: seq<Terminal>) returns (d: Option<Devices>)
    ensures d.Some? <==> OneOwner(fold, rows)
    ensures d.Some? ==> Holds(fold, rows, d.value)
  {
    hide Holds, OneOwner;
    var found := Devices(map[], map[], {}, {}, map[]);
    NothingHeld(fold, rows);
    for i := 0 to |rows|
      invariant Holds(fold, rows[..i], found)
    {
      var next := Absorb(fold, found, rows[i]);
      AbsorbKeeps(fold, rows, i, found);
      if next.None? {
        return None;
      }
      found := next.value;
    }
    assert rows[..|rows|] == rows;
    HeldHasOneOwner(fold, rows, found);
    return Some(found);
  }

  lemma NothingHeld(fold: Fold, rows: seq<Terminal>)
    ensures Holds(fold, rows[..0], Devices(map[], map[], {}, {}, map[]))
  {
  }

  lemma HeldHasOneOwner(fold: Fold, rows: seq<Terminal>, d: Devices)
    requires Holds(fold, rows, d)
    ensures OneOwner(fold, rows)
  {
  }

  /** A group's counts from the ids filed under its key. */
  function Certify(group: ViaGroup, owned: set<Bytes>, incomplete: set<Bytes>): Owned {
    var issues := (if |owned| > group.count then [CountExceeded] else []) + (if incomplete != {} then [IncompleteEndpoint] else []);
    Owned(group, |owned|, |incomplete|, issues, if issues == [] then Some(group.count - |owned|) else None)
  }

  function GroupKeys(fold: Fold, groups: seq<ViaGroup>): set<Key> {
    set i | 0 <= i < |groups| :: GroupKey(fold, groups[i])
  }

  /** The endpoints filed under the given keys, and under others. */
  function FiledWithin(ids: Ids, keys: set<Key>): set<Bytes> {
    set key, endpoint | key in ids && key in keys && endpoint in ids[key] :: endpoint
  }

  function FiledOutside(ids: Ids, keys: set<Key>): set<Bytes> {
    set key, endpoint | key in ids && key !in keys && endpoint in ids[key] :: endpoint
  }

  method Certified(fold: Fold, decaps: seq<DecapVia>, terminals: seq<Terminal>, groups: seq<ViaGroup>, sourceOk: bool, missingPower: bool)
    returns (certificate: Option<Certificate>)
    ensures certificate.Some? <==> OneOwner(fold, terminals)
    ensures certificate.None? <==> exists i, j :: 0 <= i < j < |terminals| && Contested(fold, terminals[i], terminals[j])
    ensures certificate.Some? ==> IsCertificate(fold, decaps, terminals, groups, sourceOk, missingPower, certificate.value)
    ensures certificate.Some? ==> Reports(fold, decaps, terminals, groups, sourceOk, missingPower, certificate.value)
    ensures certificate.Some? ==> TotalOwned(certificate.value.groups) == OwnedIds(fold, decaps, terminals, groups)
    ensures certificate.Some? ==>
              var c := certificate.value;
              && (forall k :: 0 <= k < |groups| ==> k < |c.groups| && Balanced(fold, terminals, groups[k], c.groups[k]))
              && c.affecting + c.nonaffecting == IdentifiedIncomplete(terminals)
              && (c.complete ==> c.affecting == {} && Counted(groups) == TotalOwned(c.groups) + TotalSubstrate(c.groups))
  {
    hide Holds, OneOwner, DecapIds, DeviceIds, IncompleteIds, UnmappedIds, CompleteIds, Affects, Spares, FiledWithin, FiledOutside,
         GroupKeys, Certify, Balanced, IdentifiedIncomplete, Counted, TotalOwned, TotalSubstrate, Contested, Reports;
    OwnersAreContested(fold, terminals);
    var decapIds := CollectDecaps(fold, decaps);
    var devices := CollectDevices(fold, terminals);
    if devices.None? {
      return None;
    }
    var d := devices.value;
    HeldIds(fold, terminals, d);
    var owned: seq<Owned>, resolved, whole := [], true, true;
    for i := 0 to |groups|
      invariant |owned| == i && forall k :: 0 <= k < i ==> owned[k] == GroupResult(fold, decaps, terminals, groups[k])
      invariant resolved <==> forall k :: 0 <= k < i ==> owned[k].issues == []
      invariant whole <==> forall k :: 0 <= k < i ==> groups[k].complete
    {
      var key := GroupKey(fold, groups[i]);
      var result := Certify(groups[i], At(decapIds, key) + At(d.device, key), At(d.incomplete, key));
      resolved, whole := resolved && result.issues == [], whole && groups[i].complete;
      owned := owned + [result];
    }
    var keys := GroupKeys(fold, groups);
    var affecting := FiledWithin(d.incomplete, keys);
    var nonaffecting := d.unmapped + FiledOutside(d.incomplete, keys);
    EndpointsAre(fold, terminals, d, keys);
    var c := Certificate(owned, |d.complete|, affecting, nonaffecting, sourceOk && whole && resolved && !missingPower && groups != []);
    CertificateIsConserved(fold, decaps, terminals, groups, sourceOk, missingPower, c);
    CertificateReports(fold, decaps, terminals, groups, sourceOk, missingPower, c);
    TotalIsOfIds(fold, decaps, terminals, groups, c.groups);
    return Some(c);
  }

  lemma HeldIds(fold: Fold, rows: seq<Terminal>, d: Devices)
    requires Holds(fold, rows, d)
    ensures forall key :: At(d.device, key) == DeviceIds(fold, rows, key)
    ensures forall key :: At(d.incomplete, key) == IncompleteIds(fold, rows, key)
    ensures d.unmapped == UnmappedIds(fold, rows) && d.complete == CompleteIds(fold, rows)
  {
  }

  // ---- what the certificate is ----

  function GroupResult(fold: Fold, decaps: seq<DecapVia>, terminals: seq<Terminal>, group: ViaGroup): Owned {
    var key := GroupKey(fold, group);
    Certify(group, DecapIds(fold, decaps, key) + DeviceIds(fold, terminals, key), IncompleteIds(fold, terminals, key))
  }

  /** Incomplete endpoints filed under the key of a group. */
  predicate Affects(fold: Fold, terminals: seq<Terminal>, keys: set<Key>, endpoint: Bytes) {
    exists i :: 0 <= i < |terminals| && Mapped(fold, terminals[i]) && KeyOf(fold, terminals[i]) in keys && terminals[i].endpoint == endpoint
  }

  /** Incomplete endpoints filed under no group, or not filed at all. */
  predicate Spares(fold: Fold, terminals: seq<Terminal>, keys: set<Key>, endpoint: Bytes) {
    exists i :: 0 <= i < |terminals| && terminals[i].endpoint == endpoint
                && (Unmapped(fold, terminals[i]) || (Mapped(fold, terminals[i]) && KeyOf(fold, terminals[i]) !in keys))
  }

  ghost predicate IsCertificate(fold: Fold, decaps: seq<DecapVia>, terminals: seq<Terminal>, groups: seq<ViaGroup>,
                                sourceOk: bool, missingPower: bool, c: Certificate) {
    && |c.groups| == |groups| && (forall k :: 0 <= k < |groups| ==> c.groups[k] == GroupResult(fold, decaps, terminals, groups[k]))
    && c.deviceTotal == |CompleteIds(fold, terminals)|
    && (forall e :: e in c.affecting <==> Affects(fold, terminals, GroupKeys(fold, groups), e))
    && (forall e :: e in c.nonaffecting <==> Spares(fold, terminals, GroupKeys(fold, groups), e))
    && (c.complete <==> sourceOk && !missingPower && groups != [] && forall k :: 0 <= k < |groups| ==> groups[k].complete && c.groups[k].issues == [])
  }

  lemma EndpointsAre(fold: Fold, rows: seq<Terminal>, d: Devices, keys: set<Key>)
    requires forall key :: At(d.incomplete, key) == IncompleteIds(fold, rows, key)
    requires d.unmapped == UnmappedIds(fold, rows)
    ensures forall e :: e in FiledWithin(d.incomplete, keys) <==> Affects(fold, rows, keys, e)
    ensures forall e :: e in d.unmapped + FiledOutside(d.incomplete, keys) <==> Spares(fold, rows, keys, e)
  {
    forall e ensures e in FiledWithin(d.incomplete, keys) <==> Affects(fold, rows, keys, e) {
      if e in FiledWithin(d.incomplete, keys) {
        var key :| key in d.incomplete && key in keys && e in d.incomplete[key];
        var i := Filer(fold, rows, d.incomplete, key, e);
      }
      if Affects(fold, rows, keys, e) {
        var i :| 0 <= i < |rows| && Mapped(fold, rows[i]) && KeyOf(fold, rows[i]) in keys && rows[i].endpoint == e;
        Filed(fold, rows, d.incomplete, i);
      }
    }
    forall e ensures e in d.unmapped + FiledOutside(d.incomplete, keys) <==> Spares(fold, rows, keys, e) {
      if e in FiledOutside(d.incomplete, keys) {
        var key :| key in d.incomplete && key !in keys && e in d.incomplete[key];
        var i := Filer(fold, rows, d.incomplete, key, e);
      }
      if Spares(fold, rows, keys, e) && e !in d.unmapped {
        var i :| 0 <= i < |rows| && rows[i].endpoint == e
                 && (Unmapped(fold, rows[i]) || (Mapped(fold, rows[i]) && KeyOf(fold, rows[i]) !in keys));
        assert !Unmapped(fold, rows[i]);
        Filed(fold, rows, d.incomplete, i);
      }
    }
  }

  /** The row that filed an endpoint. */
  lemma Filer(fold: Fold, rows: seq<Terminal>, ids: Ids, key: Key, endpoint: Bytes) returns (i: nat)
    requires forall k :: At(ids, k) == IncompleteIds(fold, rows, k)
    requires key in ids && endpoint in ids[key]
    ensures i < |rows| && Mapped(fold, rows[i]) && KeyOf(fold, rows[i]) == key && rows[i].endpoint == endpoint
  {
    assert endpoint in At(ids, key) && At(ids, key) == IncompleteIds(fold, rows, key);
    i :| 0 <= i < |rows| && Mapped(fold, rows[i]) && KeyOf(fold, rows[i]) == key && rows[i].endpoint == endpoint;
  }

  lemma Filed(fold: Fold, rows: seq<Terminal>, ids: Ids, i: nat)
    requires forall k :: At(ids, k) == IncompleteIds(fold, rows, k)
    requires i < |rows| && Mapped(fold, rows[i])
    ensures KeyOf(fold, rows[i]) in ids && rows[i].endpoint in ids[KeyOf(fold, rows[i])]
  {
    var key := KeyOf(fold, rows[i]);
    assert rows[i].endpoint in IncompleteIds(fold, rows, key);
    assert rows[i].endpoint in At(ids, key);
  }

  // ---- the certificate written out ----

  /** Two complete rows name one Via, and differ in endpoint, net, padstack or opposite node. */
  predicate Contested(fold: Fold, t: Terminal, u: Terminal) {
    && t.complete && u.complete && fold(t.via) == fold(u.via)
    && (fold(t.endpoint) != fold(u.endpoint) || fold(t.net) != fold(u.net) || fold(t.padstack) != fold(u.padstack)
        || fold(t.opposite) != fold(u.opposite))
  }

  lemma OwnersAreContested(fold: Fold, rows: seq<Terminal>)
    ensures OneOwner(fold, rows) <==> !exists i, j :: 0 <= i < j < |rows| && Contested(fold, rows[i], rows[j])
  {
  }

  /** The Vias of a group's net and padstack that a decap or a complete Device terminal owns. */
  function OwnedBy(fold: Fold, decaps: seq<DecapVia>, terminals: seq<Terminal>, g: ViaGroup): set<Bytes> {
    (set i | 0 <= i < |decaps| && fold(decaps[i].net) == fold(g.net) && fold(decaps[i].padstack) == fold(g.padstack) :: fold(decaps[i].via))
    + (set i | 0 <= i < |terminals| && terminals[i].complete && fold(terminals[i].net) == fold(g.net)
               && fold(terminals[i].padstack) == fold(g.padstack) :: fold(terminals[i].via))
  }

  /** An incomplete row with an endpoint, a net and a padstack. */
  predicate Filing(fold: Fold, t: Terminal) {
    !t.complete && t.endpoint != [] && fold(t.net) != [] && fold(t.padstack) != []
  }

  /** The endpoints left incomplete at a group's net and padstack. */
  function OpenAt(fold: Fold, terminals: seq<Terminal>, g: ViaGroup): set<Bytes> {
    set i | 0 <= i < |terminals| && Filing(fold, terminals[i]) && fold(terminals[i].net) == fold(g.net)
            && fold(terminals[i].padstack) == fold(g.padstack) :: terminals[i].endpoint
  }

  predicate GroupReported(fold: Fold, decaps: seq<DecapVia>, terminals: seq<Terminal>, g: ViaGroup, r: Owned) {
    var owned, open := OwnedBy(fold, decaps, terminals, g), OpenAt(fold, terminals, g);
    && r.group == g && r.owned == |owned| && r.incomplete == |open|
    && (CountExceeded in r.issues <==> |owned| > g.count) && (IncompleteEndpoint in r.issues <==> open != {})
    && (r.issues == [] <==> |owned| <= g.count && open == {})
    && r.substrate == (if |owned| <= g.count && open == {} then Some(g.count - |owned|) else None)
  }

  predicate InSomeGroup(fold: Fold, groups: seq<ViaGroup>, t: Terminal) {
    exists k :: 0 <= k < |groups| && fold(t.net) == fold(groups[k].net) && fold(t.padstack) == fold(groups[k].padstack)
  }

  /** What the certificate reports, group by group and in total, read off the rows. */
  ghost predicate Reports(fold: Fold, decaps: seq<DecapVia>, terminals: seq<Terminal>, groups: seq<ViaGroup>,
                          sourceOk: bool, missingPower: bool, c: Certificate) {
    && |c.groups| == |groups| && (forall k :: 0 <= k < |groups| ==> GroupReported(fold, decaps, terminals, groups[k], c.groups[k]))
    && c.deviceTotal == |set i | 0 <= i < |terminals| && terminals[i].complete :: fold(terminals[i].via)|
    && (forall e :: e in c.affecting <==>
          exists i :: 0 <= i < |terminals| && terminals[i].endpoint == e && Filing(fold, terminals[i])
                      && InSomeGroup(fold, groups, terminals[i]))
    && (forall e :: e in c.nonaffecting <==>
          exists i :: 0 <= i < |terminals| && terminals[i].endpoint == e && e != [] && !terminals[i].complete
                      && !(Filing(fold, terminals[i]) && InSomeGroup(fold, groups, terminals[i])))
    && (c.complete <==> sourceOk && !missingPower && groups != []
                        && forall k :: 0 <= k < |groups| ==> groups[k].complete && c.groups[k].issues == [])
  }

  lemma IdsAre(fold: Fold, decaps: seq<DecapVia>, terminals: seq<Terminal>, g: ViaGroup)
    ensures DecapIds(fold, decaps, GroupKey(fold, g)) + DeviceIds(fold, terminals, GroupKey(fold, g)) == OwnedBy(fold, decaps, terminals, g)
    ensures IncompleteIds(fold, terminals, GroupKey(fold, g)) == OpenAt(fold, terminals, g)
  {
  }

  lemma GroupIsReported(fold: Fold, decaps: seq<DecapVia>, terminals: seq<Terminal>, g: ViaGroup)
    ensures GroupReported(fold, decaps, terminals, g, GroupResult(fold, decaps, terminals, g))
  {
    hide OwnedBy, OpenAt, DecapIds, DeviceIds, IncompleteIds;
    IdsAre(fold, decaps, terminals, g);
  }

  lemma GroupKeysAre(fold: Fold, groups: seq<ViaGroup>, t: Terminal)
    ensures KeyOf(fold, t) in GroupKeys(fold, groups) <==> InSomeGroup(fold, groups, t)
  {
    if InSomeGroup(fold, groups, t) {
      var k :| 0 <= k < |groups| && fold(t.net) == fold(groups[k].net) && fold(t.padstack) == fold(groups[k].padstack);
      assert GroupKey(fold, groups[k]) == KeyOf(fold, t);
    }
  }

  lemma EndpointsReported(fold: Fold, terminals: seq<Terminal>, groups: seq<ViaGroup>, e: Bytes)
    ensures Affects(fold, terminals, GroupKeys(fold, groups), e) <==>
            exists i :: 0 <= i < |terminals| && terminals[i].endpoint == e && Filing(fold, terminals[i])
                        && InSomeGroup(fold, groups, terminals[i])
    ensures Spares(fold, terminals, GroupKeys(fold, groups), e) <==>
            exists i :: 0 <= i < |terminals| && terminals[i].endpoint == e && e != [] && !terminals[i].complete
                        && !(Filing(fold, terminals[i]) && InSomeGroup(fold, groups, terminals[i]))
  {
    hide GroupKeys, InSomeGroup;
    forall i | 0 <= i < |terminals|
      ensures KeyOf(fold, terminals[i]) in GroupKeys(fold, groups) <==> InSomeGroup(fold, groups, terminals[i])
    {
      GroupKeysAre(fold, groups, terminals[i]);
    }
  }

  lemma CertificateReports(fold: Fold, decaps: seq<DecapVia>, terminals: seq<Terminal>, groups: seq<ViaGroup>,
                           sourceOk: bool, missingPower: bool, c: Certificate)
    requires IsCertificate(fold, decaps, terminals, groups, sourceOk, missingPower, c)
    ensures Reports(fold, decaps, terminals, groups, sourceOk, missingPower, c)
  {
    hide GroupResult, GroupReported, Affects, Spares, Filing, InSomeGroup, GroupKeys;
    forall k | 0 <= k < |groups| ensures GroupReported(fold, decaps, terminals, groups[k], c.groups[k]) {
      GroupIsReported(fold, decaps, terminals, groups[k]);
    }
    forall e
      ensures e in c.affecting <==>
              exists i :: 0 <= i < |terminals| && terminals[i].endpoint == e && Filing(fold, terminals[i])
                          && InSomeGroup(fold, groups, terminals[i])
      ensures e in c.nonaffecting <==>
              exists i :: 0 <= i < |terminals| && terminals[i].endpoint == e && e != [] && !terminals[i].complete
                          && !(Filing(fold, terminals[i]) && InSomeGroup(fold, groups, terminals[i]))
    {
      EndpointsReported(fold, terminals, groups, e);
    }
  }

  /** The owned ids of all groups, counted group by group. */
  function OwnedIds(fold: Fold, decaps: seq<DecapVia>, terminals: seq<Terminal>, groups: seq<ViaGroup>): nat {
    if groups == [] then 0
    else
      var n := |groups| - 1;
      OwnedIds(fold, decaps, terminals, groups[..n]) + |OwnedBy(fold, decaps, terminals, groups[n])|
  }

  lemma {:induction false} TotalIsOfIds(fold: Fold, decaps: seq<DecapVia>, terminals: seq<Terminal>, groups: seq<ViaGroup>, results: seq<Owned>)
    requires |results| == |groups|
    requires forall k :: 0 <= k < |groups| ==> results[k] == GroupResult(fold, decaps, terminals, groups[k])
    ensures TotalOwned(results) == OwnedIds(fold, decaps, terminals, groups)
    decreases |groups|
  {
    hide GroupResult, OwnedBy;
    if groups != [] {
      var n := |groups| - 1;
      TotalIsOfIds(fold, decaps, terminals, groups[..n], results[..n]);
      GroupIsReported(fold, decaps, terminals, groups[n]);
    }
  }

  // ---- conservation ----

  /** With one owner per Via, no Via id lies under two keys. */
  lemma KeysShareNoVia(fold: Fold, rows: seq<Terminal>, a: Key, b: Key)
    requires OneOwner(fold, rows) && a != b
    ensures DeviceIds(fold, rows, a) !! DeviceIds(fold, rows, b)
  {
    forall via | via in DeviceIds(fold, rows, a) ensures via !in DeviceIds(fold, rows, b) {
      var i :| 0 <= i < |rows| && rows[i].complete && KeyOf(fold, rows[i]) == a && fold(rows[i].via) == via;
      forall j | 0 <= j < |rows| && rows[j].complete && fold(rows[j].via) == via ensures KeyOf(fold, rows[j]) == a {
        assert OwnerOf(fold, rows[i]) == OwnerOf(fold, rows[j]);
      }
    }
  }

  function DeviceKeys(fold: Fold, rows: seq<Terminal>): set<Key> {
    set i | 0 <= i < |rows| && rows[i].complete :: KeyOf(fold, rows[i])
  }

  ghost function SumOver(fold: Fold, rows: seq<Terminal>, keys: set<Key>): nat {
    if keys == {} then 0
    else
      var key :| key in keys;
      |DeviceIds(fold, rows, key)| + SumOver(fold, rows, keys - {key})
  }

  function IdsOver(fold: Fold, rows: seq<Terminal>, keys: set<Key>): set<Bytes> {
    set i | 0 <= i < |rows| && rows[i].complete && KeyOf(fold, rows[i]) in keys :: fold(rows[i].via)
  }

  lemma {:induction false} SumIsUnion(fold: Fold, rows: seq<Terminal>, keys: set<Key>)
    requires OneOwner(fold, rows)
    ensures SumOver(fold, rows, keys) == |IdsOver(fold, rows, keys)|
  {
    if keys == {} {
      assert IdsOver(fold, rows, keys) == {};
    } else {
      var key :| key in keys && SumOver(fold, rows, keys) == |DeviceIds(fold, rows, key)| + SumOver(fold, rows, keys - {key});
      SumIsUnion(fold, rows, keys - {key});
      assert IdsOver(fold, rows, keys) == DeviceIds(fold, rows, key) + IdsOver(fold, rows, keys - {key});
      RestIsDisjoint(fold, rows, key, keys);
    }
  }

  lemma RestIsDisjoint(fold: Fold, rows: seq<Terminal>, key: Key, keys: set<Key>)
    requires OneOwner(fold, rows)
    ensures DeviceIds(fold, rows, key) !! IdsOver(fold, rows, keys - {key})
  {
    forall via | via in IdsOver(fold, rows, keys - {key}) ensures via !in DeviceIds(fold, rows, key) {
      var j :| 0 <= j < |rows| && rows[j].complete && KeyOf(fold, rows[j]) in keys - {key} && fold(rows[j].via) == via;
      KeysShareNoVia(fold, rows, KeyOf(fold, rows[j]), key);
      assert via in DeviceIds(fold, rows, KeyOf(fold, rows[j]));
    }
  }

  /** Device Via ids, counted key by key, add up to the total that is reported. */
  lemma DeviceIdsAreConserved(fold: Fold, rows: seq<Terminal>)
    requires OneOwner(fold, rows)
    ensures SumOver(fold, rows, DeviceKeys(fold, rows)) == |CompleteIds(fold, rows)|
  {
    SumIsUnion(fold, rows, DeviceKeys(fold, rows));
    assert IdsOver(fold, rows, DeviceKeys(fold, rows)) == CompleteIds(fold, rows);
  }

  /** Affecting and nonaffecting endpoints together are the identified incomplete ones. */
  lemma EndpointsAreCovered(fold: Fold, decaps: seq<DecapVia>, terminals: seq<Terminal>, groups: seq<ViaGroup>,
                            sourceOk: bool, missingPower: bool, c: Certificate)
    requires IsCertificate(fold, decaps, terminals, groups, sourceOk, missingPower, c)
    ensures c.affecting + c.nonaffecting == IdentifiedIncomplete(terminals)
  {
    var keys := GroupKeys(fold, groups);
    forall e | e in IdentifiedIncomplete(terminals) ensures e in c.affecting + c.nonaffecting {
      var i :| 0 <= i < |terminals| && !terminals[i].complete && terminals[i].endpoint != [] && terminals[i].endpoint == e;
      assert Mapped(fold, terminals[i]) || Unmapped(fold, terminals[i]);
      if Mapped(fold, terminals[i]) && KeyOf(fold, terminals[i]) in keys {
        assert Affects(fold, terminals, keys, e);
      } else {
        assert Spares(fold, terminals, keys, e);
      }
    }
  }

  /** A group is resolved exactly if its substrate count is given; then owned and substrate Vias make up its count, and no endpoint is open. */
  predicate Balanced(fold: Fold, terminals: seq<Terminal>, group: ViaGroup, g: Owned) {
    && g.group == group && (g.issues == [] <==> g.substrate.Some?)
    && (g.substrate.Some? ==>
          && g.substrate.value >= 0 && g.owned + g.substrate.value == group.count
          && IncompleteIds(fold, terminals, GroupKey(fold, group)) == {})
    && (g.substrate.None? ==> g.owned > group.count || IncompleteIds(fold, terminals, GroupKey(fold, group)) != {})
  }

  lemma GroupsAreConserved(fold: Fold, decaps: seq<DecapVia>, terminals: seq<Terminal>, groups: seq<ViaGroup>,
                           sourceOk: bool, missingPower: bool, c: Certificate, k: nat)
    requires IsCertificate(fold, decaps, terminals, groups, sourceOk, missingPower, c) && k < |groups|
    ensures Balanced(fold, terminals, groups[k], c.groups[k])
  {
    assert c.groups[k] == GroupResult(fold, decaps, terminals, groups[k]);
  }

  /** A complete certificate has no affecting endpoint, and every group is resolved. */
  lemma CompleteHasNoAffecting(fold: Fold, decaps: seq<DecapVia>, terminals: seq<Terminal>, groups: seq<ViaGroup>,
                               sourceOk: bool, missingPower: bool, c: Certificate)
    requires IsCertificate(fold, decaps, terminals, groups, sourceOk, missingPower, c) && c.complete
    ensures c.affecting == {}
    ensures c.nonaffecting == IdentifiedIncomplete(terminals)
  {
    var keys := GroupKeys(fold, groups);
    forall i | 0 <= i < |terminals| && Mapped(fold, terminals[i]) ensures KeyOf(fold, terminals[i]) !in keys {
      assert terminals[i].endpoint in IncompleteIds(fold, terminals, KeyOf(fold, terminals[i]));
      forall k | 0 <= k < |groups| ensures GroupKey(fold, groups[k]) != KeyOf(fold, terminals[i]) {
        GroupsAreConserved(fold, decaps, terminals, groups, sourceOk, missingPower, c, k);
      }
    }
    assert forall e :: !Affects(fold, terminals, keys, e);
    EndpointsAreCovered(fold, decaps, terminals, groups, sourceOk, missingPower, c);
  }

  // ---- totals over the groups ----

  function Counted(groups: seq<ViaGroup>): int {
    if groups == [] then 0 else Counted(groups[..|groups| - 1]) + groups[|groups| - 1].count
  }

  function TotalOwned(groups: seq<Owned>): nat {
    if groups == [] then 0 else TotalOwned(groups[..|groups| - 1]) + groups[|groups| - 1].owned
  }

  function TotalSubstrate(groups: seq<Owned>): int {
    if groups == [] then 0
    else
      var last := groups[|groups| - 1].substrate;
      TotalSubstrate(groups[..|groups| - 1]) + (if last.Some? then last.value else 0)
  }

  lemma {:induction false} TotalsAreConserved(fold: Fold, terminals: seq<Terminal>, groups: seq<ViaGroup>, results: seq<Owned>)
    requires |results| == |groups|
    requires forall k :: 0 <= k < |groups| ==> Balanced(fold, terminals, groups[k], results[k]) && results[k].issues == []
    ensures Counted(groups) == TotalOwned(results) + TotalSubstrate(results)
    decreases |groups|
  {
    if groups != [] {
      var n := |groups| - 1;
      TotalsAreConserved(fold, terminals, groups[..n], results[..n]);
      assert Balanced(fold, terminals, groups[n], results[n]);
    }
  }

  /** What a certificate conserves, group by group and in total. */
  lemma CertificateIsConserved(fold: Fold, decaps: seq<DecapVia>, terminals: seq<Terminal>, groups: seq<ViaGroup>,
                               sourceOk: bool, missingPower: bool, c: Certificate)
    requires IsCertificate(fold, decaps, terminals, groups, sourceOk, missingPower, c)
    ensures forall k :: 0 <= k < |groups| ==> Balanced(fold, terminals, groups[k], c.groups[k])
    ensures c.affecting + c.nonaffecting == IdentifiedIncomplete(terminals)
    ensures c.complete ==> c.affecting == {} && Counted(groups) == TotalOwned(c.groups) + TotalSubstrate(c.groups)
  {
    hide Balanced, IdentifiedIncomplete, Affects, Spares, CompleteIds, GroupResult;
    forall k | 0 <= k < |groups| ensures Balanced(fold, terminals, groups[k], c.groups[k]) {
      GroupsAreConserved(fold, decaps, terminals, groups, sourceOk, missingPower, c, k);
    }
    EndpointsAreCovered(fold, decaps, terminals, groups, sourceOk, missingPower, c);
    if c.complete {
      CompleteHasNoAffecting(fold, decaps, terminals, groups, sourceOk, missingPower, c);
      TotalsAreConserved(fold, terminals, groups, c.groups);
    }
  }

  /** The reported Device total is the ids under the groups' keys, key by key, and those under keys of no group. */
  lemma DeviceTotalSplits(fold: Fold, decaps: seq<DecapVia>, terminals: seq<Terminal>, groups: seq<ViaGroup>,
                          sourceOk: bool, missingPower: bool, c: Certificate)
    requires OneOwner(fold, terminals) && IsCertificate(fold, decaps, terminals, groups, sourceOk, missingPower, c)
    ensures var keys := GroupKeys(fold, groups);
            c.deviceTotal == SumOver(fold, terminals, keys) + SumOver(fold, terminals, DeviceKeys(fold, terminals) - keys)
  {
    hide IsCertificate;
    assert c.deviceTotal == |CompleteIds(fold, terminals)| by { TotalIs(fold, decaps, terminals, groups, sourceOk, missingPower, c); }
    var keys := GroupKeys(fold, groups);
    var others := DeviceKeys(fold, terminals) - keys;
    SumIsUnion(fold, terminals, keys);
    SumIsUnion(fold, terminals, others);
    assert CompleteIds(fold, terminals) == IdsOver(fold, terminals, keys) + IdsOver(fold, terminals, others);
    ApartIsDisjoint(fold, terminals, keys, others);
  }

  lemma TotalIs(fold: Fold, decaps: seq<DecapVia>, terminals: seq<Terminal>, groups: seq<ViaGroup>,
                sourceOk: bool, missingPower: bool, c: Certificate)
    requires IsCertificate(fold, decaps, terminals, groups, sourceOk, missingPower, c)
    ensures c.deviceTotal == |CompleteIds(fold, terminals)|
  {
  }

  lemma ApartIsDisjoint(fold: Fold, rows: seq<Terminal>, a: set<Key>, b: set<Key>)
    requires OneOwner(fold, rows) && a !! b
    ensures IdsOver(fold, rows, a) !! IdsOver(fold, rows, b)
  {
    forall via | via in IdsOver(fold, rows, a) ensures via !in IdsOver(fold, rows, b) {
      var i :| 0 <= i < |rows| && rows[i].complete && KeyOf(fold, rows[i]) in a && fold(rows[i].via) == via;
      forall j | 0 <= j < |rows| && rows[j].complete && fold(rows[j].via) == via ensures KeyOf(fold, rows[j]) in a {
        assert OwnerOf(fold, rows[i]) == OwnerOf(fold, rows[j]);
      }
    }
  }
}
