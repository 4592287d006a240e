/**
 The payload that binds a store to a project, field by field, and how its numbers are spelled.
 */
module BindingNames {
  import opened ByteStrings
  import opened KeyOrder
  import opened RowTables
  import opened CanonicalJson
  import opened JsonObjects
  import opened MultisetSort
  import opened ProjectBinding

  // ---- decimal numerals ----

  /** The number a row of decimal digits stands for. */
  function ValueOf(digits: Bytes): int {
    if digits == [] then 0 else 10 * ValueOf(digits[..|digits| - 1]) + (digits[|digits| - 1] as int - 48)
  }

  /** A numeral is digits without a leading zero that stand for the number. */
  lemma {:induction false} DecimalIs(n: nat)
    ensures var r := Decimal(n);
            && ValueOf(r) == n && r != [] && (n > 0 ==> r[0] != 48) && (n == 0 ==> r == [48])
            && forall i :: 0 <= i < |r| ==> 48 <= r[i] <= 57
  {
    var r := Decimal(n);
    if n >= 10 {
      DecimalIs(n / 10);
      var head := Decimal(n / 10);
      assert r == head + [(48 + n % 10) as byte];
      assert r[..|r| - 1] == head;
      assert forall i :: 0 <= i < |head| ==> r[i] == head[i];
    } else {
      assert r[..0] == [];
    }
  }

  // ---- fields ----

  lemma PairUp(keys: seq<Bytes>, values: seq<Json>, i: nat)
    requires |keys| == |values| && i < |keys|
    ensures Keyed(keys, values)[i] == Pair(keys[i], values[i])
  {
  }

  lemma PayloadNames()
    ensures PAYLOAD_KEYS == [Ascii("schema"), Ascii("surface_schema"), Ascii("surface_compiler"), Ascii("source_sha256"),
                             Ascii("certificate_evidence_sha256"), Ascii("geometry"), Ascii("stackup"), Ascii("rails"),
                             Ascii("gnd_aliases")]
  {
  }

  lemma LayerNames()
    ensures LAYER_KEYS == [Ascii("ordinal"), Ascii("name"), Ascii("thickness_um"), Ascii("conductivity_s_m"), Ascii("dk"), Ascii("df"),
                           Ascii("material"), Ascii("dielectric_properties"), Ascii("pwr_nets")]
    ensures FREQUENCY == Ascii("frequency_hz") && DK == LAYER_KEYS[4] && DF == LAYER_KEYS[5]
  {
  }

  /** The payload: three schema texts, source and evidence, and the project's four parts under their names. */
  lemma PayloadIs(env: Env, s: Schema, source: Bytes, evidence: Bytes, p: Project)
    ensures var f := Payload(env, s, source, evidence, p).fields;
            && |f| == 9 && (forall i :: 0 <= i < 9 ==> f[i].key == PAYLOAD_KEYS[i])
            && f[0].value == String(s.binding) && f[1].value == String(s.surface) && f[2].value == String(s.compiler)
            && f[3].value == String(source) && f[4].value == String(evidence)
            && f[5].value == GeometryPart(env, p) && f[6].value == StackupPart(env, p)
            && f[7].value == RailPart(env, p) && f[8].value == AliasPart(env, p)
  {
    hide Ascii, GeometryPart, StackupPart, RailPart, AliasPart;
  }

  /** No part loses or gains a row. */
  lemma PartsAreWhole(env: Env, p: Project)
    ensures GeometryPart(env, p).Array? && |GeometryPart(env, p).items| == |p.geometry|
    ensures StackupPart(env, p).Array? && |StackupPart(env, p).items| == |p.stackup|
    ensures RailPart(env, p).Array? && |RailPart(env, p).items| == |p.rails|
    ensures AliasPart(env, p).Array? && |AliasPart(env, p).items| == |p.aliases|
  {
    SortBySize(TupleBefore, GeometryRows(env, p));
    SortBySize(TupleBefore, RailRows(env, p));
    SortBySize(Before, Stripped(env, p.aliases));
  }

  lemma SortBySize<T(!new)>(less: (T, T) -> bool, items: seq<T>)
    ensures |SortBy(less, items)| == |items|
  {
    assert |multiset(SortBy(less, items))| == |multiset(items)|;
  }

  /** A stackup layer: its position, its name stripped, its numbers and material as they are, its dielectrics and its nets. */
  lemma LayerIs(env: Env, p: Project, i: nat)
    requires i < |p.stackup|
    ensures var l := p.stackup[i];
            var layer := StackupPart(env, p).items[i];
            && layer.Object? && |layer.fields| == 9 && (forall k :: 0 <= k < 9 ==> layer.fields[k].key == LAYER_KEYS[k])
            && layer.fields[0].value == Number(Decimal(i)) && layer.fields[1].value == String(env.strip(l.name))
            && layer.fields[2].value == l.thickness && layer.fields[3].value == l.conductivity && layer.fields[4].value == l.dk
            && layer.fields[5].value == l.df && layer.fields[6].value == l.material
            && layer.fields[7].value.Array? && |layer.fields[7].value.items| == |l.properties|
            && (forall k :: 0 <= k < |l.properties| ==>
                  layer.fields[7].value.items[k] == Object([Pair(FREQUENCY, l.properties[k].frequency), Pair(DK, l.properties[k].dk),
                                                            Pair(DF, l.properties[k].df)]))
            && layer.fields[8].value.Array? && |layer.fields[8].value.items| == |l.nets|
            && (forall k :: 0 <= k < |l.nets| ==> layer.fields[8].value.items[k] == String(env.strip(l.nets[k])))
  {
    hide Ascii, Decimal;
    var l := p.stackup[i];
    forall k | 0 <= k < |l.properties|
      ensures DielectricJson(l.properties[k]) ==
              Object([Pair(FREQUENCY, l.properties[k].frequency), Pair(DK, l.properties[k].dk), Pair(DF, l.properties[k].df)])
    {
      var d := l.properties[k];
      assert Keyed([FREQUENCY, DK, DF], [d.frequency, d.dk, d.df]) ==
             [Pair(FREQUENCY, d.frequency), Pair(DK, d.dk), Pair(DF, d.df)];
    }
  }

  /** Each geometry record is there as a row: two folded texts, the asset, a folded digest, and the islands stripped. */
  lemma RecordIsThere(env: Env, p: Project, i: nat)
    requires i < |p.geometry|
    ensures var r := p.geometry[i];
            exists k :: 0 <= k < |GeometryPart(env, p).items| &&
              var row := GeometryPart(env, p).items[k];
              && row.Array? && |row.items| == 5
              && row.items[0] == String(env.fold(env.strip(r.layer))) && row.items[1] == String(env.fold(env.strip(r.net)))
              && row.items[2] == String(env.strip(r.asset)) && row.items[3] == String(env.fold(env.strip(r.sha)))
              && row.items[4] == Array(Texts(SortedTexts(env, r.islands)))
  {
    hide Ascii, SortedTexts;
    var rows := GeometryRows(env, p);
    var sorted := SortBy(TupleBefore, rows);
    SortedRowsAreLong(env, p);
    assert rows[i] in multiset(rows);
    assert rows[i] in multiset(sorted);
    var k :| 0 <= k < |sorted| && sorted[k] == rows[i];
    var row := GeometryJson(sorted[k]);
    var r := p.geometry[i];
    assert sorted[k][..4] == [env.fold(env.strip(r.layer)), env.fold(env.strip(r.net)), env.strip(r.asset), env.fold(env.strip(r.sha))];
    assert sorted[k][4..] == SortedTexts(env, r.islands);
    assert GeometryPart(env, p).items[k] == row;
  }
}
