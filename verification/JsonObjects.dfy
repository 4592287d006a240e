/**
 Reading and building JSON objects field by field, and what normalising leaves of them: the tools
 that the project payload and the certificate views are built with.
 */
module JsonObjects {
  import opened ByteStrings
  import opened KeyOrder
  import opened CanonicalJson

  predicate DistinctTexts(keys: seq<Bytes>) {
    forall i, j :: 0 <= i < j < |keys| ==> keys[i] != keys[j]
  }

  function Keyed(keys: seq<Bytes>, values: seq<Json>): (r: seq<Pair<Json>>)
    requires |keys| == |values|
    ensures |r| == |keys| && forall i :: 0 <= i < |r| ==> r[i] == Pair(keys[i], values[i])
  {
    seq(|keys|, i requires 0 <= i < |keys| => Pair(keys[i], values[i]))
  }

  /** Objects with the same keys in the same order agree exactly if their values do. */
  lemma KeyedSame(keys: seq<Bytes>, a: seq<Json>, b: seq<Json>)
    requires |keys| == |a| == |b| && DistinctTexts(keys)
    ensures Same(Object(Keyed(keys, a)), Object(Keyed(keys, b))) <==> forall i :: 0 <= i < |keys| ==> Same(a[i], b[i])
  {
    var f, g := Keyed(keys, a), Keyed(keys, b);
    forall key ensures HasKey(f, key) <==> HasKey(g, key) {
      if HasKey(f, key) {
        var i :| 0 <= i < |f| && f[i].key == key;
        assert g[i].key == key;
      }
      if HasKey(g, key) {
        var i :| 0 <= i < |g| && g[i].key == key;
        assert f[i].key == key;
      }
    }
    if Same(Object(f), Object(g)) {
      forall i | 0 <= i < |keys| ensures Same(a[i], b[i]) {
        assert f[i].key == g[i].key;
      }
    }
  }

  lemma KeyedIsWellFormed(keys: seq<Bytes>, values: seq<Json>)
    requires |keys| == |values| && DistinctTexts(keys) && forall i :: 0 <= i < |values| ==> WellFormed(values[i])
    ensures WellFormed(Object(Keyed(keys, values)))
  {
  }

  // ---- fields ----

  function Lookup(fields: seq<Pair<Json>>, key: Bytes): (r: Option<Json>)
    ensures r.Some? <==> exists i :: 0 <= i < |fields| && fields[i].key == key
    ensures r.Some? ==> Pair(key, r.value) in fields
  {
    if fields == [] then None
    else if fields[0].key == key then Some(fields[0].value)
    else
      var r := Lookup(fields[1..], key);
      assert forall i :: 0 < i < |fields| ==> fields[i] == fields[1..][i - 1];
      r
  }

  /** The value under a key, if the value is an object that has it. */
  function Field(v: Json, key: Bytes): Option<Json> {
    if v.Object? then Lookup(v.fields, key) else None
  }

  lemma LookupIs(fields: seq<Pair<Json>>, key: Bytes, value: Json)
    requires DistinctKeys(fields)
    ensures Lookup(fields, key) == Some(value) <==> Pair(key, value) in fields
  {
    if Pair(key, value) in fields {
      var i :| 0 <= i < |fields| && fields[i] == Pair(key, value);
      var j :| 0 <= j < |fields| && fields[j] == Pair(key, Lookup(fields, key).value);
      assert i == j;
    }
  }

  function NormalOption(v: Option<Json>): Option<Json> {
    match v
    case None => None
    case Some(x) => Some(Normal(x))
  }

  /** Normalising an object normalises its fields and moves them about. */
  lemma FieldOfNormal(v: Json, key: Bytes)
    requires WellFormed(v)
    ensures Field(Normal(v), key) == NormalOption(Field(v, key))
  {
    if v.Object? {
      var f, n := v.fields, NormalFields(v.fields);
      var sorted := Sort(n);
      NormalKeys(f);
      SortAscends(n);
      AscendingAreDistinct(sorted);
      if Field(v, key).Some? {
        var i :| 0 <= i < |f| && f[i] == Pair(key, Field(v, key).value);
        assert n[i] in sorted;
        LookupIs(sorted, key, n[i].value);
      }
    }
  }

  lemma LookupWellFormed(v: Json, key: Bytes)
    requires WellFormed(v)
    ensures Field(v, key).Some? ==> WellFormed(Field(v, key).value)
  {
    if Field(v, key).Some? {
      var i :| 0 <= i < |v.fields| && v.fields[i] == Pair(key, Field(v, key).value);
    }
  }

  /** The object without one key. */
  function Without(fields: seq<Pair<Json>>, key: Bytes): seq<Pair<Json>> {
    if fields == [] then []
    else (if fields[0].key == key then [] else [fields[0]]) + Without(fields[1..], key)
  }

  lemma {:induction false} WithoutIs(fields: seq<Pair<Json>>, key: Bytes)
    requires DistinctKeys(fields)
    ensures forall p :: p in Without(fields, key) <==> p in fields && p.key != key
    ensures DistinctKeys(Without(fields, key))
  {
    if fields != [] {
      WithoutIs(fields[1..], key);
      assert fields == [fields[0]] + fields[1..];
      var rest := Without(fields[1..], key);
      forall j | 0 <= j < |rest| ensures rest[j].key != fields[0].key {
        assert rest[j] in rest;
        assert rest[j] in fields[1..];
      }
    }
  }

  lemma WithoutWellFormed(fields: seq<Pair<Json>>, key: Bytes)
    requires WellFormed(Object(fields))
    ensures WellFormed(Object(Without(fields, key)))
    ensures forall k :: Lookup(Without(fields, key), k) == if k == key then None else Lookup(fields, k)
  {
    WithoutIs(fields, key);
    var rest := Without(fields, key);
    forall j | 0 <= j < |rest| ensures WellFormed(rest[j].value) {
      assert rest[j] in rest;
      assert rest[j] in fields;
    }
    forall k ensures Lookup(rest, k) == if k == key then None else Lookup(fields, k) {
      if Lookup(rest, k).Some? {
        assert Pair(k, Lookup(rest, k).value) in rest;
        LookupIs(fields, k, Lookup(rest, k).value);
      }
    }
  }

  ghost predicate SameOption(a: Option<Json>, b: Option<Json>) {
    (a.None? && b.None?) || (a.Some? && b.Some? && Same(a.value, b.value))
  }

  /** Objects agree if they agree field by field. */
  lemma SameByFields(f: seq<Pair<Json>>, g: seq<Pair<Json>>)
    requires DistinctKeys(f) && DistinctKeys(g) && forall key :: SameOption(Lookup(f, key), Lookup(g, key))
    ensures Same(Object(f), Object(g))
  {
    forall key ensures HasKey(f, key) <==> HasKey(g, key) {
      assert SameOption(Lookup(f, key), Lookup(g, key));
    }
    forall i, j | 0 <= i < |f| && 0 <= j < |g| && f[i].key == g[j].key ensures Same(f[i].value, g[j].value) {
      LookupIs(f, f[i].key, f[i].value);
      LookupIs(g, g[j].key, g[j].value);
      assert f[i] == Pair(f[i].key, f[i].value) && g[j] == Pair(g[j].key, g[j].value);
      assert SameOption(Lookup(f, f[i].key), Lookup(g, f[i].key));
    }
  }

  lemma NormalIsSame(v: Json)
    requires WellFormed(v)
    ensures Same(Normal(v), v) && WellFormed(Normal(v)) && Normal(Normal(v)) == Normal(v)
  {
    NormalIsFixed(v);
    NormalIsWellFormed(v);
    SameNormal(Normal(v), v);
  }

  /** Dropping a key commutes with normalising, as far as the encoding goes. */
  lemma WithoutOfNormal(fields: seq<Pair<Json>>, key: Bytes)
    requires WellFormed(Object(fields))
    ensures Encode(Object(Without(Normal(Object(fields)).fields, key))) == Encode(Object(Without(fields, key)))
  {
    hide Normal, Encode, Same, WellFormed;
    var n := NormalObject(fields);
    NormalIsSame(Object(fields));
    WithoutWellFormed(fields, key);
    WithoutWellFormed(n, key);
    var f, g := Without(n, key), Without(fields, key);
    forall k ensures SameOption(Lookup(f, k), Lookup(g, k)) {
      FieldOfNormal(Object(fields), k);
      LookupWellFormed(Object(fields), k);
      if Lookup(fields, k).Some? {
        NormalIsSame(Lookup(fields, k).value);
      }
    }
    KeysAreDistinct(f);
    KeysAreDistinct(g);
    SameByFields(f, g);
    EncodeIsCanonical(Object(f), Object(g));
  }

  lemma NormalObject(fields: seq<Pair<Json>>) returns (n: seq<Pair<Json>>)
    ensures Normal(Object(fields)) == Object(n)
  {
    n := Normal(Object(fields)).fields;
  }

  lemma KeysAreDistinct(fields: seq<Pair<Json>>)
    requires WellFormed(Object(fields))
    ensures DistinctKeys(fields)
  {
  }

  // ---- picking fields ----

  /** The fields under the given keys, in their order, as far as they are there. */
  function Pick(v: Json, keys: seq<Bytes>): seq<Pair<Json>> {
    if keys == [] then []
    else (match Field(v, keys[0]) case None => [] case Some(x) => [Pair(keys[0], x)]) + Pick(v, keys[1..])
  }

  lemma {:induction false} PickIs(v: Json, keys: seq<Bytes>)
    requires DistinctTexts(keys)
    ensures DistinctKeys(Pick(v, keys))
    ensures forall p :: p in Pick(v, keys) <==> p.key in keys && Field(v, p.key) == Some(p.value)
  {
    if keys != [] {
      PickIs(v, keys[1..]);
      assert keys == [keys[0]] + keys[1..];
      var rest := Pick(v, keys[1..]);
      forall j | 0 <= j < |rest| ensures rest[j].key != keys[0] {
        assert rest[j] in rest;
      }
    }
  }

  lemma PickedFields(v: Json, keys: seq<Bytes>)
    requires WellFormed(v) && DistinctTexts(keys)
    ensures WellFormed(Object(Pick(v, keys)))
    ensures forall key :: Lookup(Pick(v, keys), key) == if key in keys then Field(v, key) else None
  {
    PickIs(v, keys);
    var f := Pick(v, keys);
    forall j | 0 <= j < |f| ensures WellFormed(f[j].value) {
      assert f[j] in f;
      LookupWellFormed(v, f[j].key);
    }
    forall key ensures Lookup(f, key) == if key in keys then Field(v, key) else None {
      if Lookup(f, key).Some? {
        assert Pair(key, Lookup(f, key).value) in f;
      }
    }
  }

  /** Appending one new field. */
  lemma AppendField(fields: seq<Pair<Json>>, key: Bytes, value: Json)
    requires WellFormed(Object(fields)) && WellFormed(value) && Lookup(fields, key).None?
    ensures WellFormed(Object(fields + [Pair(key, value)]))
    ensures forall k :: Lookup(fields + [Pair(key, value)], k) == if k == key then Some(value) else Lookup(fields, k)
    ensures Without(fields + [Pair(key, value)], key) == fields
  {
    hide Without;
    forall k ensures Lookup(fields + [Pair(key, value)], k) == if k == key then Some(value) else Lookup(fields, k) {
      LookupConcat(fields, [Pair(key, value)], k);
    }
    LastOne(key, value);
    WithoutAbsent(fields, key);
    WithoutConcat(fields, [Pair(key, value)], key);
  }

  lemma LastOne(key: Bytes, value: Json)
    ensures Without([Pair(key, value)], key) == []
  {
  }

  lemma {:induction false} LookupConcat(a: seq<Pair<Json>>, b: seq<Pair<Json>>, key: Bytes)
    ensures Lookup(a + b, key) == if Lookup(a, key).Some? then Lookup(a, key) else Lookup(b, key)
  {
    if a == [] {
      assert a + b == b;
    } else {
      assert (a + b)[1..] == a[1..] + b;
      LookupConcat(a[1..], b, key);
    }
  }

  lemma {:induction false} WithoutAbsent(fields: seq<Pair<Json>>, key: Bytes)
    requires Lookup(fields, key).None?
    ensures Without(fields, key) == fields
  {
    if fields != [] {
      WithoutAbsent(fields[1..], key);
    }
  }

  lemma {:induction false} WithoutConcat(a: seq<Pair<Json>>, b: seq<Pair<Json>>, key: Bytes)
    ensures Without(a + b, key) == Without(a, key) + Without(b, key)
  {
    if a == [] {
      assert a + b == b;
    } else {
      assert (a + b)[1..] == a[1..] + b;
      WithoutConcat(a[1..], b, key);
    }
  }
}
