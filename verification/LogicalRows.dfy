/** The hashed stream of logical database rows, and why no two databases share one. */
module LogicalRows {
  import opened ByteStrings
  import opened CanonicalJson

  type Row = seq<Json>

  const NUL: byte := 0
  const NEWLINE: byte := 10

  /** The nine sections, in the order they are hashed. */
  const SECTIONS: seq<Bytes> := [
    Ascii("meta"), Ascii("nodes"), Ascii("links"), Ascii("link_owners"), Ascii("rail_ports"),
    Ascii("rail_port_members"), Ascii("omitted_rails"), Ascii("landing_bindings"), Ascii("views")]

  /** A database cell is a scalar: text, a number or null. */
  predicate Cell(v: Json) {
    !v.Array? && !v.Object? && WellFormed(v)
  }

  predicate ValidRow(row: Row) {
    forall i :: 0 <= i < |row| ==> Cell(row[i])
  }

  predicate ValidTables(tables: seq<seq<Row>>) {
    forall i, j :: 0 <= i < |tables| && 0 <= j < |tables[i]| ==> ValidRow(tables[i][j])
  }

  function RowText(row: Row): Bytes {
    Encode(Array(row)) + [NEWLINE]
  }

  function RowsText(rows: seq<Row>): Bytes {
    if rows == [] then [] else RowText(rows[0]) + RowsText(rows[1..])
  }

  /** The sections from the k-th on: name, NUL, rows. */
  function Stream(names: seq<Bytes>, tables: seq<seq<Row>>, k: nat): Bytes
    requires |tables| == |names| && k <= |names|
    decreases |names| - k
  {
    if k == |names| then [] else names[k] + ([NUL] + (RowsText(tables[k]) + Stream(names, tables, k + 1)))
  }

  /** Section names are nonempty and do not open like a row. */
  predicate Names(names: seq<Bytes>) {
    forall k :: 0 <= k < |names| ==> names[k] != [] && names[k][0] != OPEN_BRACKET
  }

  lemma RowIsNormal(row: Row)
    requires ValidRow(row)
    ensures Normal(Array(row)) == Array(row) && WellFormed(Array(row))
  {
    assert NormalItems(row) == row;
  }

  /** A row opens with a bracket and can be told apart from whatever follows its newline. */
  lemma RowIsReadable(a: Row, b: Row, r: Bytes, s: Bytes)
    requires ValidRow(a) && ValidRow(b) && RowText(a) + r == RowText(b) + s
    ensures a == b && r == s
  {
    RowIsNormal(a);
    RowIsNormal(b);
    assert RowText(a) + r == Print(Array(a)) + ([NEWLINE] + r);
    assert RowText(b) + s == Print(Array(b)) + ([NEWLINE] + s);
    PrintIsReadable(Array(a), Array(b), [NEWLINE] + r, [NEWLINE] + s);
    CancelByte(NEWLINE, NEWLINE, r, s);
  }

  /** What may follow the rows of a section: nothing, or the next section's name. */
  predicate SectionEnd(r: Bytes) {
    r == [] || r[0] != OPEN_BRACKET
  }

  lemma RowsStart(rows: seq<Row>, r: Bytes)
    requires rows != [] && ValidRow(rows[0])
    ensures RowsText(rows) + r == RowText(rows[0]) + (RowsText(rows[1..]) + r)
    ensures !SectionEnd(RowsText(rows) + r)
  {
    RowIsNormal(rows[0]);
    assert RowText(rows[0])[0] == OPEN_BRACKET;
    StartsWith(RowText(rows[0]), RowsText(rows[1..]), r);
  }

  lemma StartsWith(a: Bytes, b: Bytes, c: Bytes)
    requires a != []
    ensures (a + b) + c == a + (b + c) && (a + (b + c))[0] == a[0]
  {
  }

  lemma {:induction false} RowsAreReadable(a: seq<Row>, b: seq<Row>, r: Bytes, s: Bytes)
    requires SectionEnd(r) && SectionEnd(s)
    requires (forall i :: 0 <= i < |a| ==> ValidRow(a[i])) && (forall i :: 0 <= i < |b| ==> ValidRow(b[i]))
    requires RowsText(a) + r == RowsText(b) + s
    ensures a == b && r == s
    decreases |a|
  {
    assert RowsText([]) + r == r && RowsText([]) + s == s;
    if a != [] {
      RowsStart(a, r);
    }
    if b != [] {
      RowsStart(b, s);
    }
    if a != [] {
      RowIsReadable(a[0], b[0], RowsText(a[1..]) + r, RowsText(b[1..]) + s);
      RowsAreReadable(a[1..], b[1..], r, s);
      assert a == [a[0]] + a[1..] && b == [b[0]] + b[1..];
    }
  }

  lemma NamesAreNoRows(names: seq<Bytes>, tables: seq<seq<Row>>, k: nat)
    requires Names(names) && |tables| == |names| && k <= |names|
    ensures SectionEnd(Stream(names, tables, k))
  {
    if k < |names| {
      StartsWith(names[k], [NUL] + (RowsText(tables[k]) + Stream(names, tables, k + 1)), []);
    }
  }

  lemma {:induction false} StreamIsReadable(names: seq<Bytes>, a: seq<seq<Row>>, b: seq<seq<Row>>, k: nat)
    requires Names(names) && |a| == |names| && |b| == |names| && ValidTables(a) && ValidTables(b) && k <= |names|
    requires Stream(names, a, k) == Stream(names, b, k)
    ensures forall i :: k <= i < |names| ==> a[i] == b[i]
    decreases |names| - k
  {
    if k < |names| {
      var x, y := RowsText(a[k]) + Stream(names, a, k + 1), RowsText(b[k]) + Stream(names, b, k + 1);
      Cancel(names[k], [NUL] + x, [NUL] + y);
      CancelByte(NUL, NUL, x, y);
      NamesAreNoRows(names, a, k + 1);
      NamesAreNoRows(names, b, k + 1);
      RowsAreReadable(a[k], b[k], Stream(names, a, k + 1), Stream(names, b, k + 1));
      StreamIsReadable(names, a, b, k + 1);
    }
  }

  lemma SectionNames()
    ensures Names(SECTIONS)
  {
  }

  /** The logical-row stream is injective: equal streams come from equal rows in every section. */
  lemma StreamIsInjective(a: seq<seq<Row>>, b: seq<seq<Row>>)
    requires |a| == |SECTIONS| && |b| == |SECTIONS| && ValidTables(a) && ValidTables(b)
    ensures Stream(SECTIONS, a, 0) == Stream(SECTIONS, b, 0) <==> a == b
  {
    SectionNames();
    if Stream(SECTIONS, a, 0) == Stream(SECTIONS, b, 0) {
      StreamIsReadable(SECTIONS, a, b, 0);
      assert a == b;
    }
  }

  // ---- no control byte survives the encoding ----

  predicate Printable(s: Bytes) {
    forall i :: 0 <= i < |s| ==> s[i] >= 32
  }

  lemma {:induction false} EscapesArePrintable(text: Bytes)
    ensures Printable(EscapeAll(text))
  {
    if text != [] {
      EscapesArePrintable(text[1..]);
      assert Printable(Escape(text[0]));
    }
  }

  lemma {:induction false} PrintIsPrintable(v: Json)
    requires WellFormed(v)
    ensures Printable(Print(v))
    decreases v, 1
  {
    match v
    case String(text) => EscapesArePrintable(text);
    case Array(items) => ItemsArePrintable(items, true);
    case Object(fields) => FieldsArePrintable(fields, true);
    case _ =>
  }

  lemma {:induction false} ItemsArePrintable(items: seq<Json>, first: bool)
    requires forall i :: 0 <= i < |items| ==> WellFormed(items[i])
    ensures Printable(PrintItems(items, first))
    decreases items, 0
  {
    if items != [] {
      PrintIsPrintable(items[0]);
      ItemsArePrintable(items[1..], false);
    }
  }

  lemma {:induction false} FieldsArePrintable(fields: seq<KeyOrder.Pair<Json>>, first: bool)
    requires forall i :: 0 <= i < |fields| ==> WellFormed(fields[i].value)
    ensures Printable(PrintFields(fields, first))
    decreases fields, 0
  {
    if fields != [] {
      EscapesArePrintable(fields[0].key);
      PrintIsPrintable(fields[0].value);
      FieldsArePrintable(fields[1..], false);
      var key := Quote(fields[0].key);
      assert Printable(key);
      assert Printable([COLON] + (Print(fields[0].value) + PrintFields(fields[1..], false)));
      assert Printable(key + ([COLON] + (Print(fields[0].value) + PrintFields(fields[1..], false))));
    }
  }

  /** So the NUL and newline marks of the stream are never part of a row. */
  lemma EncodeIsPrintable(v: Json)
    requires WellFormed(v)
    ensures Printable(Encode(v)) && NUL !in Encode(v) && NEWLINE !in Encode(v)
  {
    NormalIsWellFormed(v);
    PrintIsPrintable(Normal(v));
  }

  // ---- the hashing loop ----

  import KeyOrder

  // ---- the stream letter by letter ----

  /** Each row in canonical form, ended by a line feed. */
  function Lines(rows: seq<Row>): Bytes {
    if rows == [] then [] else Lines(rows[..|rows| - 1]) + (Encode(Array(rows[|rows| - 1])) + [10])
  }

  function Section(name: Bytes, rows: seq<Row>): Bytes {
    name + ([0] + Lines(rows))
  }

  /** The nine sections by name, in the order in which they are hashed. */
  function NineSections(tables: seq<seq<Row>>): (r: seq<Bytes>)
    requires |tables| == 9
    ensures |r| == 9
  {
    [Section(Ascii("meta"), tables[0]), Section(Ascii("nodes"), tables[1]), Section(Ascii("links"), tables[2]),
     Section(Ascii("link_owners"), tables[3]), Section(Ascii("rail_ports"), tables[4]), Section(Ascii("rail_port_members"), tables[5]),
     Section(Ascii("omitted_rails"), tables[6]), Section(Ascii("landing_bindings"), tables[7]), Section(Ascii("views"), tables[8])]
  }

  function Concat(parts: seq<Bytes>): Bytes {
    if parts == [] then [] else parts[0] + Concat(parts[1..])
  }

  lemma {:induction false} LinesAre(rows: seq<Row>)
    ensures RowsText(rows) == Lines(rows)
    decreases |rows|
  {
    if rows != [] {
      var n := |rows| - 1;
      LinesAre(rows[..n]);
      RowsAppend(rows[..n], rows[n]);
      assert rows[..n] + [rows[n]] == rows;
    }
  }

  lemma {:induction false} RowsAppend(rows: seq<Row>, row: Row)
    ensures RowsText(rows + [row]) == RowsText(rows) + (Encode(Array(row)) + [10])
  {
    if rows == [] {
      assert rows + [row] == [row] && RowsText([row][1..]) == [];
    } else {
      assert (rows + [row])[1..] == rows[1..] + [row];
      RowsAppend(rows[1..], row);
    }
  }

  lemma OneSection(tables: seq<seq<Row>>, k: nat)
    requires |tables| == |SECTIONS| && k < |SECTIONS|
    ensures Stream(SECTIONS, tables, k) == Section(SECTIONS[k], tables[k]) + Stream(SECTIONS, tables, k + 1)
  {
    hide SECTIONS, Ascii;
    LinesAre(tables[k]);
    Regrouped(SECTIONS[k], [NUL], RowsText(tables[k]), Stream(SECTIONS, tables, k + 1));
  }

  lemma Regrouped(a: Bytes, b: Bytes, c: Bytes, d: Bytes)
    ensures a + (b + (c + d)) == (a + (b + c)) + d
  {
  }

  lemma NineNames(tables: seq<seq<Row>>, k: nat)
    requires |tables| == 9 && k < 9
    ensures |SECTIONS| == 9 && NineSections(tables)[k] == Section(SECTIONS[k], tables[k])
  {
    hide Ascii, Section;
  }

  lemma {:induction false} StreamIsConcat(tables: seq<seq<Row>>, k: nat)
    requires |tables| == 9 == |SECTIONS| && k <= 9
    ensures Stream(SECTIONS, tables, k) == Concat(NineSections(tables)[k..])
    decreases 9 - k
  {
    hide SECTIONS, NineSections, Section, Stream;
    if k < 9 {
      NineNames(tables, k);
      OneSection(tables, k);
      StreamIsConcat(tables, k + 1);
      assert NineSections(tables)[k..][1..] == NineSections(tables)[k + 1..];
    } else {
      assert Stream(SECTIONS, tables, k) == [] by { StreamEnds(tables); }
    }
  }

  lemma StreamEnds(tables: seq<seq<Row>>)
    requires |tables| == 9 == |SECTIONS|
    ensures Stream(SECTIONS, tables, 9) == []
  {
  }

  /** The stream is the nine sections one after another. */
  lemma StreamIsSections(tables: seq<seq<Row>>)
    requires |tables| == 9
    ensures |SECTIONS| == 9 && Stream(SECTIONS, tables, 0) == Concat(NineSections(tables))
  {
    NineNames(tables, 0);
    StreamIsConcat(tables, 0);
    assert NineSections(tables)[0..] == NineSections(tables);
  }

  /** Feeds the digest section by section and row by row. */
  method LogicalRowsDigest(tables: seq<seq<Row>>, digest: Bytes -> Bytes) returns (sha: Bytes)
    requires |tables| == |SECTIONS|
    ensures sha == digest(Stream(SECTIONS, tables, 0))
    ensures sha == digest(Concat(NineSections(tables)))
  {
    StreamIsSections(tables);
    var fed := FeedSections(SECTIONS, tables);
    return digest(fed);
  }

  method FeedSections(names: seq<Bytes>, tables: seq<seq<Row>>) returns (fed: Bytes)
    requires |tables| == |names|
    ensures fed == Stream(names, tables, 0)
  {
    fed := [];
    var k := 0;
    while k < |names|
      invariant 0 <= k <= |names|
      invariant fed + Stream(names, tables, k) == Stream(names, tables, 0)
    {
      ghost var start := fed;
      ghost var rest := Stream(names, tables, k + 1);
      fed := fed + names[k];
      fed := fed + [NUL];
      Regroup(start, names[k], [NUL], RowsText(tables[k]), rest);
      fed := FeedRows(fed, tables[k]);
      k := k + 1;
    }
    assert fed + [] == fed;
  }

  lemma Regroup(a: Bytes, b: Bytes, c: Bytes, d: Bytes, e: Bytes)
    ensures a + (b + (c + (d + e))) == (((a + b) + c) + d) + e
  {
  }

  method FeedRows(start: Bytes, rows: seq<Row>) returns (fed: Bytes)
    ensures fed == start + RowsText(rows)
  {
    fed := start;
    var i := 0;
    assert rows[0..] == rows;
    while i < |rows|
      invariant 0 <= i <= |rows|
      invariant fed + RowsText(rows[i..]) == start + RowsText(rows)
    {
      assert rows[i..][1..] == rows[i + 1..];
      ghost var before := fed;
      fed := fed + Encode(Array(rows[i]));
      fed := fed + [NEWLINE];
      Regroup(before, Encode(Array(rows[i])), [NEWLINE], RowsText(rows[i + 1..]), []);
      assert before + RowsText(rows[i..]) == fed + RowsText(rows[i + 1..]) by {
        assert before + (RowText(rows[i]) + RowsText(rows[i + 1..])) == (before + RowText(rows[i])) + RowsText(rows[i + 1..]);
        assert before + RowText(rows[i]) == fed;
      }
      i := i + 1;
    }
    assert fed + [] == fed;
  }
}
