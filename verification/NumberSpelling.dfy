/** JSON values whose numbers are spelled as an encoder prints them. */
module NumberSpelling {
  import opened ByteStrings
  import opened KeyOrder
  import opened CanonicalJson

  /** The number tokens that an encoder prints. */
  type Tokens = Bytes -> bool

  /** Every number of the value is one of the tokens. */
  predicate Spelled(v: Json, tokens: Tokens) {
    match v
    case Number(token) => tokens(token)
    case Array(items) => forall i :: 0 <= i < |items| ==> Spelled(items[i], tokens)
    case Object(fields) => forall i :: 0 <= i < |fields| ==> Spelled(fields[i].value, tokens)
    case _ => true
  }

  predicate FieldsSpelled(fields: seq<Pair<Json>>, tokens: Tokens) {
    forall i :: 0 <= i < |fields| ==> Spelled(fields[i].value, tokens)
  }

  /** Normalising moves fields about and changes no number. */
  lemma {:induction false} NormalIsSpelled(v: Json, tokens: Tokens)
    requires Spelled(v, tokens)
    ensures Spelled(Normal(v), tokens)
    decreases v
  {
    match v
    case Array(items) =>
      forall i | 0 <= i < |items| ensures Spelled(NormalItems(items)[i], tokens) {
        NormalIsSpelled(items[i], tokens);
      }
    case Object(fields) =>
      var a := NormalFields(fields);
      forall p | p in a ensures Spelled(p.value, tokens) {
        var i :| 0 <= i < |a| && a[i] == p;
        NormalIsSpelled(fields[i].value, tokens);
      }
      forall i | 0 <= i < |Sort(a)| ensures Spelled(Sort(a)[i].value, tokens) {
        assert Sort(a)[i] in Sort(a);
      }
    case _ =>
  }
}
