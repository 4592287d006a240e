/** The grammar of documents, leaf by leaf. */
module JsonGrammar {
  import opened ByteStrings
  import opened JsonText

  // ---- string bodies ----

  /** One character of a string body: a byte that is no quote and no backslash, or a backslash and any byte. */
  predicate Piece(p: Bytes) {
    (|p| == 1 && p[0] != 34 && p[0] != 92) || (|p| == 2 && p[0] == 92)
  }

  function Joined(pieces: seq<Bytes>): Bytes {
    if pieces == [] then [] else pieces[0] + Joined(pieces[1..])
  }

  ghost predicate Spells(pieces: seq<Bytes>, body: Bytes) {
    Joined(pieces) == body && forall i :: 0 <= i < |pieces| ==> Piece(pieces[i])
  }

  lemma {:induction false} Split(body: Bytes) returns (pieces: seq<Bytes>)
    requires StringBody(body)
    ensures Spells(pieces, body)
    decreases |body|
  {
    if body == [] {
      pieces := [];
    } else {
      var n := if body[0] == BACKSLASH then 2 else 1;
      var rest := Split(body[n..]);
      pieces := [body[..n]] + rest;
      assert pieces[1..] == rest && body == body[..n] + body[n..];
    }
  }

  lemma {:induction false} SpelledIsBody(pieces: seq<Bytes>)
    requires forall i :: 0 <= i < |pieces| ==> Piece(pieces[i])
    ensures StringBody(Joined(pieces))
  {
    if pieces != [] {
      SpelledIsBody(pieces[1..]);
      var body := Joined(pieces);
      assert body[|pieces[0]|..] == Joined(pieces[1..]);
    }
  }

  /** A string body is a row of such characters, so every string of section 7 of RFC 8259 is one. */
  lemma BodyIsPieces(body: Bytes)
    ensures StringBody(body) <==> exists pieces :: Spells(pieces, body)
  {
    if StringBody(body) {
      var pieces := Split(body);
    }
    forall pieces | Spells(pieces, body) ensures StringBody(body) {
      SpelledIsBody(pieces);
    }
  }

  // ---- leaves ----

  /** Everything between the tokens of a value. */
  function Pads(v: Value): seq<Bytes> {
    match v
    case Array(pad, items) => [pad] + ItemPads(items)
    case Object(pad, members) => [pad] + MemberPads(members)
    case _ => []
  }

  function ItemPads(items: Items): seq<Bytes> {
    match items
    case NoItems => []
    case Item(before, value, after, rest) => [before, after] + (Pads(value) + ItemPads(rest))
  }

  function MemberPads(members: Members): seq<Bytes> {
    match members
    case NoMembers => []
    case Member(before, _, mid, gap, value, after, rest) => [before, mid, gap, after] + (Pads(value) + MemberPads(rest))
  }

  /** The bodies of all strings, keys included. */
  function Bodies(v: Value): seq<Bytes> {
    match v
    case Scalar(_) => []
    case Text(body) => [body]
    case Array(_, items) => ItemBodies(items)
    case Object(_, members) => MemberBodies(members)
  }

  function ItemBodies(items: Items): seq<Bytes> {
    match items
    case NoItems => []
    case Item(_, value, _, rest) => Bodies(value) + ItemBodies(rest)
  }

  function MemberBodies(members: Members): seq<Bytes> {
    match members
    case NoMembers => []
    case Member(_, key, _, _, value, _, rest) => [key] + (Bodies(value) + MemberBodies(rest))
  }

  function Scalars(v: Value): seq<Bytes> {
    match v
    case Scalar(text) => [text]
    case Text(_) => []
    case Array(_, items) => ItemScalars(items)
    case Object(_, members) => MemberScalars(members)
  }

  function ItemScalars(items: Items): seq<Bytes> {
    match items
    case NoItems => []
    case Item(_, value, _, rest) => Scalars(value) + ItemScalars(rest)
  }

  function MemberScalars(members: Members): seq<Bytes> {
    match members
    case NoMembers => []
    case Member(_, _, _, _, value, _, rest) => Scalars(value) + MemberScalars(rest)
  }

  predicate AllPadding(pads: seq<Bytes>) {
    forall i, k :: 0 <= i < |pads| && 0 <= k < |pads[i]| ==> pads[i][k] in {32, 9, 10, 13}
  }

  predicate AllBodies(bodies: seq<Bytes>) {
    forall i :: 0 <= i < |bodies| ==> StringBody(bodies[i]) && ValidUtf8(KeyToken(bodies[i]))
  }

  /** No scalar is empty or holds a byte that ends one. */
  predicate AllScalars(texts: seq<Bytes>) {
    && (forall i :: 0 <= i < |texts| ==> texts[i] != [])
    && forall i, k :: 0 <= i < |texts| && 0 <= k < |texts[i]| ==> texts[i][k] !in {9, 10, 13, 32, 34, 44, 58, 91, 92, 93, 123, 125}
  }

  predicate Leaves(pads: seq<Bytes>, bodies: seq<Bytes>, scalars: seq<Bytes>) {
    AllPadding(pads) && AllBodies(bodies) && AllScalars(scalars)
  }

  lemma LeavesSplit(p: seq<Bytes>, q: seq<Bytes>, b: seq<Bytes>, c: seq<Bytes>, s: seq<Bytes>, t: seq<Bytes>)
    ensures Leaves(p + q, b + c, s + t) <==> Leaves(p, b, s) && Leaves(q, c, t)
  {
    PaddingSplit(p, q);
    BodiesSplit(b, c);
    ScalarsSplit(s, t);
  }

  lemma PaddingSplit(p: seq<Bytes>, q: seq<Bytes>)
    ensures AllPadding(p + q) <==> AllPadding(p) && AllPadding(q)
  {
    assert forall i :: 0 <= i < |p| ==> (p + q)[i] == p[i];
    assert forall i :: 0 <= i < |q| ==> (p + q)[|p| + i] == q[i];
  }

  lemma BodiesSplit(p: seq<Bytes>, q: seq<Bytes>)
    ensures AllBodies(p + q) <==> AllBodies(p) && AllBodies(q)
  {
    assert forall i :: 0 <= i < |p| ==> (p + q)[i] == p[i];
    assert forall i :: 0 <= i < |q| ==> (p + q)[|p| + i] == q[i];
  }

  lemma ScalarsSplit(p: seq<Bytes>, q: seq<Bytes>)
    ensures AllScalars(p + q) <==> AllScalars(p) && AllScalars(q)
  {
    assert forall i :: 0 <= i < |p| ==> (p + q)[i] == p[i];
    assert forall i :: 0 <= i < |q| ==> (p + q)[|p| + i] == q[i];
  }

  lemma PadsAre(pads: seq<Bytes>)
    ensures AllPadding(pads) <==> forall i :: 0 <= i < |pads| ==> Padding(pads[i])
  {
    if forall i :: 0 <= i < |pads| ==> Padding(pads[i]) {
      forall i, k | 0 <= i < |pads| && 0 <= k < |pads[i]| ensures pads[i][k] in {32, 9, 10, 13} {
        assert Padding(pads[i]);
      }
    }
  }

  lemma ScalarLeaf(text: Bytes)
    ensures Leaves([], [], [text]) <==> text != [] && forall k :: 0 <= k < |text| ==> ScalarByte(text[k])
  {
    var texts := [text];
    assert texts[0] == text;
    if AllScalars(texts) {
      forall k | 0 <= k < |text| ensures ScalarByte(text[k]) {
        assert texts[0][k] == text[k];
      }
    }
  }

  /** A value is well formed exactly if its leaves are: what is between tokens is space, strings are string bodies, scalars hold no other token. */
  lemma {:induction false} WellFormedByLeaves(v: Value)
    ensures WellFormed(v) <==> Leaves(Pads(v), Bodies(v), Scalars(v))
    decreases v
  {
    match v
    case Scalar(text) =>
      ScalarLeaf(text);
    case Text(body) =>
      KeyLeaves([], body, [], []);
      assert [body] + [] == [body] && Leaves([], [], []);
      assert WellFormed(v) <==> WellFormedString(body);
    case Array(pad, items) =>
      ItemsByLeaves(items);
      PadLeaves([pad], ItemPads(items), ItemBodies(items), ItemScalars(items));
      assert (forall i :: 0 <= i < |[pad]| ==> Padding([pad][i])) <==> Padding(pad) by { assert [pad][0] == pad; }
    case Object(pad, members) =>
      MembersByLeaves(members);
      PadLeaves([pad], MemberPads(members), MemberBodies(members), MemberScalars(members));
      assert (forall i :: 0 <= i < |[pad]| ==> Padding([pad][i])) <==> Padding(pad) by { assert [pad][0] == pad; }
  }

  lemma {:induction false} ItemsByLeaves(items: Items)
    ensures WellFormedItems(items) <==> Leaves(ItemPads(items), ItemBodies(items), ItemScalars(items))
    decreases items
  {
    if items.Item? {
      hide Leaves, Padding, AllPadding;
      var v, rest := items.value, items.rest;
      WellFormedByLeaves(v);
      ItemsByLeaves(rest);
      LeavesSplit(Pads(v), ItemPads(rest), Bodies(v), ItemBodies(rest), Scalars(v), ItemScalars(rest));
      PadLeaves([items.before, items.after], Pads(v) + ItemPads(rest), ItemBodies(items), ItemScalars(items));
      assert [items.before, items.after][0] == items.before && [items.before, items.after][1] == items.after;
    }
  }

  lemma PadLeaves(pads: seq<Bytes>, more: seq<Bytes>, bodies: seq<Bytes>, scalars: seq<Bytes>)
    ensures Leaves(pads + more, bodies, scalars) <==> (forall i :: 0 <= i < |pads| ==> Padding(pads[i])) && Leaves(more, bodies, scalars)
  {
    PaddingSplit(pads, more);
    PadsAre(pads);
  }

  lemma KeyLeaves(pads: seq<Bytes>, key: Bytes, bodies: seq<Bytes>, scalars: seq<Bytes>)
    ensures Leaves(pads, [key] + bodies, scalars) <==> WellFormedString(key) && Leaves(pads, bodies, scalars)
  {
    BodiesSplit([key], bodies);
    assert AllBodies([key]) <==> WellFormedString(key) by { assert [key][0] == key; }
  }

  lemma {:induction false} MembersByLeaves(members: Members)
    ensures WellFormedMembers(members) <==> Leaves(MemberPads(members), MemberBodies(members), MemberScalars(members))
    decreases members
  {
    if members.Member? {
      hide Leaves, Padding, AllPadding, WellFormedString;
      var v, rest := members.value, members.rest;
      var pads := [members.before, members.mid, members.gap, members.after];
      WellFormedByLeaves(v);
      MembersByLeaves(rest);
      LeavesSplit(Pads(v), MemberPads(rest), Bodies(v), MemberBodies(rest), Scalars(v), MemberScalars(rest));
      KeyLeaves(Pads(v) + MemberPads(rest), members.key, Bodies(v) + MemberBodies(rest), MemberScalars(members));
      PadLeaves(pads, Pads(v) + MemberPads(rest), MemberBodies(members), MemberScalars(members));
      assert pads[0] == members.before && pads[1] == members.mid && pads[2] == members.gap && pads[3] == members.after;
    }
  }
}
