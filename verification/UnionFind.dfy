/** Union-find with path compression and union by rank, over two dictionaries. */
module UnionFind {
  // ---- forests ----

  /** An item's parent is in the dictionary too, and of higher rank unless the item is a root. */
  ghost predicate Hung<T(!new)>(parent: map<T, T>, rank: map<T, nat>, x: T)
    requires x in parent && parent.Keys == rank.Keys
  {
    parent[x] in parent && (parent[x] != x ==> rank[x] < rank[parent[x]])
  }

  /** Parents stay inside the dictionary and ranks strictly increase towards the root. */
  ghost predicate Ranked<T(!new)>(parent: map<T, T>, rank: map<T, nat>) {
    parent.Keys == rank.Keys && forall x {:trigger Hung(parent, rank, x)} :: x in parent ==> Hung(parent, rank, x)
  }

  ghost function Above<T(!new)>(rank: map<T, nat>, x: T): set<T>
    requires x in rank
  {
    set y | y in rank && rank[x] < rank[y]
  }

  lemma HigherIsSmaller<T(!new)>(rank: map<T, nat>, x: T, y: T)
    requires x in rank && y in rank && rank[x] < rank[y]
    ensures |Above(rank, y)| < |Above(rank, x)|
  {
    assert Above(rank, y) + {y} <= Above(rank, x) && y !in Above(rank, y);
    Contained(Above(rank, y) + {y}, Above(rank, x));
  }

  lemma {:induction false} Contained<T>(a: set<T>, b: set<T>)
    requires a <= b
    ensures |a| <= |b|
  {
    if a != {} {
      var x :| x in a;
      Contained(a - {x}, b - {x});
    }
  }

  /** The representative of an item: where following parents ends. */
  ghost function Root<T(!new)>(parent: map<T, T>, rank: map<T, nat>, x: T): (r: T)
    requires Ranked(parent, rank) && x in parent
    ensures r in parent && parent[r] == r && rank[x] <= rank[r]
    ensures r != x ==> rank[x] < rank[r]
    decreases |Above(rank, x)|
  {
    assert Hung(parent, rank, x);
    if parent[x] == x then x
    else
      HigherIsSmaller(rank, x, parent[x]);
      Root(parent, rank, parent[x])
  }

  lemma CompressIsRanked<T(!new)>(parent: map<T, T>, rank: map<T, nat>, x: T)
    requires Ranked(parent, rank) && x in parent
    ensures Ranked(parent[x := Root(parent, rank, x)], rank)
  {
    var p := parent[x := Root(parent, rank, x)];
    assert p.Keys == rank.Keys;
    forall y | y in p ensures Hung(p, rank, y) {
      assert Hung(parent, rank, y);
    }
  }

  /** Compressing one item's path changes no representative. */
  lemma {:induction false} CompressOne<T(!new)>(parent: map<T, T>, rank: map<T, nat>, x: T, y: T)
    requires Ranked(parent, rank) && x in parent && y in parent
    ensures var p := parent[x := Root(parent, rank, x)];
            Ranked(p, rank) && Root(p, rank, y) == Root(parent, rank, y)
    decreases |Above(rank, y)|
  {
    var r := Root(parent, rank, x);
    var p := parent[x := r];
    CompressIsRanked(parent, rank, x);
    assert Hung(parent, rank, y);
    if y == x {
      assert Root(p, rank, r) == r;
    } else if parent[y] != y {
      HigherIsSmaller(rank, y, parent[y]);
      CompressOne(parent, rank, x, parent[y]);
    }
  }

  ghost function Linked<T(!new)>(parent: map<T, T>, rank: map<T, nat>, winner: T, loser: T): (map<T, T>, map<T, nat>)
    requires winner in rank && loser in rank
  {
    (parent[loser := winner], if rank[winner] == rank[loser] then rank[winner := rank[winner] + 1] else rank)
  }

  lemma LinkIsRanked<T(!new)>(parent: map<T, T>, rank: map<T, nat>, winner: T, loser: T)
    requires Ranked(parent, rank) && winner in parent && loser in parent && winner != loser
    requires parent[winner] == winner && parent[loser] == loser && rank[loser] <= rank[winner]
    ensures var (p, k) := Linked(parent, rank, winner, loser); Ranked(p, k)
  {
    var (p, k) := Linked(parent, rank, winner, loser);
    assert p.Keys == parent.Keys && k.Keys == rank.Keys;
    forall y | y in p ensures Hung(p, k, y) {
      assert Hung(parent, rank, y);
    }
  }

  /** Hanging a root below another of at least its rank moves its whole class and nothing else. */
  lemma {:induction false} Link<T(!new)>(parent: map<T, T>, rank: map<T, nat>, winner: T, loser: T, y: T)
    requires Ranked(parent, rank) && winner in parent && loser in parent && winner != loser && y in parent
    requires parent[winner] == winner && parent[loser] == loser && rank[loser] <= rank[winner]
    ensures var (p, k) := Linked(parent, rank, winner, loser);
            Ranked(p, k) && Root(p, k, y) == if Root(parent, rank, y) == loser then winner else Root(parent, rank, y)
    decreases |Above(rank, y)|
  {
    var (p, k) := Linked(parent, rank, winner, loser);
    LinkIsRanked(parent, rank, winner, loser);
    assert Hung(parent, rank, y);
    if y == loser {
      assert Root(p, k, winner) == winner;
    } else if parent[y] != y {
      HigherIsSmaller(rank, y, parent[y]);
      Link(parent, rank, winner, loser, parent[y]);
    }
  }

  lemma LinkAll<T(!new)>(parent: map<T, T>, rank: map<T, nat>, winner: T, loser: T)
    requires Ranked(parent, rank) && winner in parent && loser in parent && winner != loser
    requires parent[winner] == winner && parent[loser] == loser && rank[loser] <= rank[winner]
    ensures var (p, k) := Linked(parent, rank, winner, loser);
            && Ranked(p, k) && p.Keys == parent.Keys
            && forall y {:trigger Root(p, k, y)} {:trigger Root(parent, rank, y)} :: y in parent ==>
                 Root(p, k, y) == if Root(parent, rank, y) == loser then winner else Root(parent, rank, y)
  {
    var (p, k) := Linked(parent, rank, winner, loser);
    LinkIsRanked(parent, rank, winner, loser);
    forall y | y in parent ensures Root(p, k, y) == if Root(parent, rank, y) == loser then winner else Root(parent, rank, y) {
      Link(parent, rank, winner, loser, y);
    }
  }

  lemma AddIsRanked<T(!new)>(parent: map<T, T>, rank: map<T, nat>, x: T)
    requires Ranked(parent, rank) && x !in parent
    ensures Ranked(parent[x := x], rank[x := 0])
  {
    var p, k := parent[x := x], rank[x := 0];
    assert p.Keys == k.Keys;
    forall y | y in p ensures Hung(p, k, y) {
      if y != x {
        assert Hung(parent, rank, y);
      }
    }
  }

  /** A new item is its own class. */
  lemma {:induction false} AddOne<T(!new)>(parent: map<T, T>, rank: map<T, nat>, x: T, y: T)
    requires Ranked(parent, rank) && x !in parent && y in parent
    ensures var (p, k) := (parent[x := x], rank[x := 0]); Ranked(p, k) && Root(p, k, y) == Root(parent, rank, y)
    decreases |Above(rank, y)|
  {
    AddIsRanked(parent, rank, x);
    assert Hung(parent, rank, y);
    if parent[y] != y {
      HigherIsSmaller(rank, y, parent[y]);
      AddOne(parent, rank, x, parent[y]);
    }
  }

  // ---- class sizes ----

  function Pow2(n: nat): nat {
    if n == 0 then 1 else 2 * Pow2(n - 1)
  }

  lemma {:induction false} Pow2Monotone(m: nat, n: nat)
    requires m <= n
    ensures Pow2(m) <= Pow2(n)
  {
    if m < n {
      Pow2Monotone(m, n - 1);
    }
  }

  ghost function Class<T(!new)>(parent: map<T, T>, rank: map<T, nat>, r: T): set<T>
    requires Ranked(parent, rank)
  {
    set y | y in parent && Root(parent, rank, y) == r
  }

  /** A root of rank r heads at least 2^r items. */
  ghost predicate Sized<T(!new)>(parent: map<T, T>, rank: map<T, nat>)
    requires Ranked(parent, rank)
  {
    forall r {:trigger Class(parent, rank, r)} :: r in parent && parent[r] == r ==> |Class(parent, rank, r)| >= Pow2(rank[r])
  }

  lemma LinkIsSized<T(!new)>(parent: map<T, T>, rank: map<T, nat>, winner: T, loser: T)
    requires Ranked(parent, rank) && Sized(parent, rank) && winner in parent && loser in parent && winner != loser
    requires parent[winner] == winner && parent[loser] == loser && rank[loser] <= rank[winner]
    ensures var (p, k) := Linked(parent, rank, winner, loser); Ranked(p, k) && Sized(p, k)
  {
    var (p, k) := Linked(parent, rank, winner, loser);
    LinkAll(parent, rank, winner, loser);
    forall r | r in p && p[r] == r ensures |Class(p, k, r)| >= Pow2(k[r]) {
      if r == winner {
        var a, b := Class(parent, rank, winner), Class(parent, rank, loser);
        assert Class(p, k, winner) == a + b && a * b == {};
        assert |a + b| == |a| + |b|;
        assert |b| >= Pow2(rank[loser]);
      } else {
        assert Class(p, k, r) == Class(parent, rank, r);
      }
    }
  }

  // ---- connectivity ----

  type Edges<T(==)> = set<(T, T)>

  ghost predicate Adjacent<T>(edges: Edges<T>, x: T, y: T) {
    (x, y) in edges || (y, x) in edges
  }

  ghost predicate Walk<T>(edges: Edges<T>, p: seq<T>) {
    p != [] && forall i :: 0 <= i < |p| - 1 ==> Adjacent(edges, p[i], p[i + 1])
  }

  ghost predicate WalkBetween<T>(edges: Edges<T>, p: seq<T>, x: T, y: T) {
    Walk(edges, p) && p[0] == x && p[|p| - 1] == y
  }

  /** Joined by a chain of edges, in either direction. */
  ghost predicate Connected<T(!new)>(edges: Edges<T>, x: T, y: T) {
    exists p :: WalkBetween(edges, p, x, y)
  }

  lemma ConnectedToSelf<T(!new)>(edges: Edges<T>, x: T)
    ensures Connected(edges, x, x)
  {
    assert WalkBetween(edges, [x], x, x);
  }

  lemma EdgeConnects<T(!new)>(edges: Edges<T>, x: T, y: T)
    requires (x, y) in edges
    ensures Connected(edges, x, y)
  {
    assert WalkBetween(edges, [x, y], x, y);
  }

  lemma ConnectedBack<T(!new)>(edges: Edges<T>, x: T, y: T)
    requires Connected(edges, x, y)
    ensures Connected(edges, y, x)
  {
    var p :| WalkBetween(edges, p, x, y);
    var q := seq(|p|, i requires 0 <= i < |p| => p[|p| - 1 - i]);
    forall i | 0 <= i < |q| - 1 ensures Adjacent(edges, q[i], q[i + 1]) {
      assert Adjacent(edges, p[|p| - 2 - i], p[|p| - 1 - i]);
    }
    assert WalkBetween(edges, q, y, x);
  }

  lemma ConnectedOn<T(!new)>(edges: Edges<T>, x: T, y: T, z: T)
    requires Connected(edges, x, y) && Connected(edges, y, z)
    ensures Connected(edges, x, z)
  {
    var p :| WalkBetween(edges, p, x, y);
    var q :| WalkBetween(edges, q, y, z);
    var r := p + q[1..];
    forall i | 0 <= i < |r| - 1 ensures Adjacent(edges, r[i], r[i + 1]) {
      if i < |p| - 1 {
        assert Adjacent(edges, p[i], p[i + 1]);
      } else {
        assert Adjacent(edges, q[i - |p| + 1], q[i - |p| + 2]);
      }
    }
    assert WalkBetween(edges, r, x, z);
  }

  lemma ConnectedInMore<T(!new)>(edges: Edges<T>, more: Edges<T>, x: T, y: T)
    requires Connected(edges, x, y) && edges <= more
    ensures Connected(more, x, y)
  {
    var p :| WalkBetween(edges, p, x, y);
    forall i | 0 <= i < |p| - 1 ensures Adjacent(more, p[i], p[i + 1]) {
      assert Adjacent(edges, p[i], p[i + 1]);
    }
    assert WalkBetween(more, p, x, y);
  }

  /** The forest represents the edges: joined items share a root, and every item is joined to its root. */
  ghost predicate Represents<T(!new)>(parent: map<T, T>, rank: map<T, nat>, edges: Edges<T>)
    requires Ranked(parent, rank)
  {
    && (forall e :: e in edges ==> e.0 in parent && e.1 in parent && Root(parent, rank, e.0) == Root(parent, rank, e.1))
    && (forall x {:trigger Root(parent, rank, x)} :: x in parent ==> Connected(edges, x, Root(parent, rank, x)))
  }

  lemma {:induction false} WalkKeepsRoot<T(!new)>(parent: map<T, T>, rank: map<T, nat>, edges: Edges<T>, p: seq<T>)
    requires Ranked(parent, rank) && Represents(parent, rank, edges) && Walk(edges, p) && p[0] in parent
    ensures p[|p| - 1] in parent && Root(parent, rank, p[|p| - 1]) == Root(parent, rank, p[0])
    decreases |p|
  {
    if |p| > 1 {
      assert Adjacent(edges, p[0], p[1]);
      forall i | 0 <= i < |p[1..]| - 1 ensures Adjacent(edges, p[1..][i], p[1..][i + 1]) {
        assert Adjacent(edges, p[i + 1], p[i + 2]);
      }
      WalkKeepsRoot(parent, rank, edges, p[1..]);
    }
  }

  /** Two items share a root exactly when they are connected by the edges. */
  lemma SameRootIffConnected<T(!new)>(parent: map<T, T>, rank: map<T, nat>, edges: Edges<T>, x: T, y: T)
    requires Ranked(parent, rank) && Represents(parent, rank, edges) && x in parent && y in parent
    ensures Root(parent, rank, x) == Root(parent, rank, y) <==> Connected(edges, x, y)
  {
    if Root(parent, rank, x) == Root(parent, rank, y) {
      ConnectedBack(edges, y, Root(parent, rank, y));
      ConnectedOn(edges, x, Root(parent, rank, x), y);
    }
    if Connected(edges, x, y) {
      var p :| WalkBetween(edges, p, x, y);
      WalkKeepsRoot(parent, rank, edges, p);
    }
  }

  /** The two items' roots, one of which is hung below the other. */
  ghost predicate RootsOf<T(!new)>(parent: map<T, T>, rank: map<T, nat>, winner: T, loser: T, x: T, y: T)
    requires Ranked(parent, rank) && x in parent && y in parent
  {
    || (winner == Root(parent, rank, x) && loser == Root(parent, rank, y))
    || (winner == Root(parent, rank, y) && loser == Root(parent, rank, x))
  }

  lemma LinkRepresents<T(!new)>(parent: map<T, T>, rank: map<T, nat>, edges: Edges<T>, winner: T, loser: T, x: T, y: T)
    requires Ranked(parent, rank) && Represents(parent, rank, edges) && x in parent && y in parent && winner != loser
    requires RootsOf(parent, rank, winner, loser, x, y) && rank[loser] <= rank[winner]
    ensures var (p, k) := Linked(parent, rank, winner, loser); Ranked(p, k) && Represents(p, k, edges + {(x, y)})
  {
    var (p, k) := Linked(parent, rank, winner, loser);
    LinkIsRanked(parent, rank, winner, loser);
    LoserJoinsWinner(parent, rank, edges, winner, loser, x, y);
    forall z | z in p ensures Connected(edges + {(x, y)}, z, Root(p, k, z)) {
      Link(parent, rank, winner, loser, z);
      LinkConnects(parent, rank, edges, edges + {(x, y)}, winner, loser, z);
    }
    forall e | e in edges + {(x, y)} ensures e.0 in p && e.1 in p && Root(p, k, e.0) == Root(p, k, e.1) {
      LinkKeepsEdge(parent, rank, edges, winner, loser, x, y, e);
    }
  }

  lemma LinkKeepsEdge<T(!new)>(parent: map<T, T>, rank: map<T, nat>, edges: Edges<T>, winner: T, loser: T, x: T, y: T, e: (T, T))
    requires Ranked(parent, rank) && Represents(parent, rank, edges) && x in parent && y in parent && winner != loser
    requires RootsOf(parent, rank, winner, loser, x, y) && rank[loser] <= rank[winner]
    requires e in edges || e == (x, y)
    ensures var (p, k) := Linked(parent, rank, winner, loser);
            Ranked(p, k) && e.0 in p && e.1 in p && Root(p, k, e.0) == Root(p, k, e.1)
  {
    LinkIsRanked(parent, rank, winner, loser);
    Link(parent, rank, winner, loser, e.0);
    Link(parent, rank, winner, loser, e.1);
  }

  lemma LinkConnects<T(!new)>(parent: map<T, T>, rank: map<T, nat>, edges: Edges<T>, more: Edges<T>, winner: T, loser: T, z: T)
    requires Ranked(parent, rank) && Represents(parent, rank, edges) && z in parent && edges <= more
    requires Connected(more, loser, winner)
    ensures Connected(more, z, if Root(parent, rank, z) == loser then winner else Root(parent, rank, z))
  {
    ConnectedInMore(edges, more, z, Root(parent, rank, z));
    if Root(parent, rank, z) == loser {
      ConnectedOn(more, z, loser, winner);
    }
  }

  lemma LoserJoinsWinner<T(!new)>(parent: map<T, T>, rank: map<T, nat>, edges: Edges<T>, winner: T, loser: T, x: T, y: T)
    requires Ranked(parent, rank) && Represents(parent, rank, edges) && x in parent && y in parent
    requires RootsOf(parent, rank, winner, loser, x, y)
    ensures Connected(edges + {(x, y)}, loser, winner)
  {
    var more := edges + {(x, y)};
    var a, b := Root(parent, rank, x), Root(parent, rank, y);
    ConnectedInMore(edges, more, x, a);
    ConnectedInMore(edges, more, y, b);
    EdgeConnects(more, x, y);
    ConnectedBack(more, x, a);
    ConnectedOn(more, a, x, y);
    ConnectedOn(more, a, y, b);
    ConnectedBack(more, a, b);
  }

  // ---- the structure ----

  class Forest<T(==, !new)> {
    var parent: map<T, T>
    var rank: map<T, nat>
    ghost var edges: Edges<T>

    ghost predicate Valid()
      reads this
    {
      Ranked(parent, rank) && Sized(parent, rank) && Represents(parent, rank, edges)
    }

    ghost function RootOf(x: T): T
      requires Valid() && x in parent
      reads this
    {
      Root(parent, rank, x)
    }

    constructor ()
      ensures Valid() && parent == map[] && edges == {}
    {
      parent, rank, edges := map[], map[], {};
    }

    method Add(x: T)
      requires Valid()
      modifies this
      ensures Valid() && edges == old(edges) && parent.Keys == old(parent).Keys + {x}
      ensures x in old(parent) ==> parent == old(parent) && rank == old(rank)
      ensures x !in old(parent) ==> RootOf(x) == x && parent == old(parent)[x := x] && rank == old(rank)[x := 0]
      ensures forall y :: y in old(parent) ==> RootOf(y) == old(RootOf(y))
    {
      if x !in parent {
        forall y | y in parent ensures Ranked(parent[x := x], rank[x := 0]) && Root(parent[x := x], rank[x := 0], y) == Root(parent, rank, y) {
          AddOne(parent, rank, x, y);
        }
        parent := parent[x := x];
        rank := rank[x := 0];
        AddIsValid(old(parent), old(rank), edges, x);
      }
    }

    /** The representative; every item on the way is hung directly below it. */
    method Find(x: T) returns (r: T)
      requires Valid()
      modifies this
      ensures Valid() && edges == old(edges) && parent.Keys == old(parent).Keys + {x}
      ensures x in old(parent) ==> rank == old(rank)
      ensures r == RootOf(x) && parent[x] == r
      ensures forall y :: y in old(parent) ==> RootOf(y) == old(RootOf(y))
      decreases if x in parent then |Above(rank, x)| else 0
    {
      Add(x);
      r := parent[x];
      if r != x {
        assert Hung(parent, rank, x);
        HigherIsSmaller(rank, x, r);
        ghost var before := parent;
        r := Find(r);
        ghost var p, k := parent, rank;
        assert forall y :: y in before ==> y in p;
        parent := parent[x := r];
        CompressIsValid(p, k, edges, x);
      }
    }

    method Union(first: T, second: T)
      requires Valid()
      modifies this
      ensures Valid() && edges == old(edges) + {(first, second)}
      ensures parent.Keys == old(parent).Keys + {first, second}
    {
      var firstRoot := Find(first);
      var secondRoot := Find(second);
      assert RootsOf(parent, rank, firstRoot, secondRoot, first, second);
      if firstRoot == secondRoot {
        AddEdge(parent, rank, edges, first, second);
        edges := edges + {(first, second)};
        return;
      }
      if rank[firstRoot] < rank[secondRoot] {
        firstRoot, secondRoot := secondRoot, firstRoot;
      }
      Hang(firstRoot, secondRoot, first, second);
    }

    /** Hang one of the two items' roots below the other, which is of at least its rank. */
    method Hang(winner: T, loser: T, ghost first: T, ghost second: T)
      requires Valid() && first in parent && second in parent && winner != loser
      requires RootsOf(parent, rank, winner, loser, first, second) && rank[loser] <= rank[winner]
      modifies this
      ensures Valid() && edges == old(edges) + {(first, second)} && parent.Keys == old(parent).Keys
      ensures (parent, rank) == Linked(old(parent), old(rank), winner, loser)
    {
      LinkIsSized(parent, rank, winner, loser);
      LinkRepresents(parent, rank, edges, winner, loser, first, second);
      parent := parent[loser := winner];
      if rank[winner] == rank[loser] {
        rank := rank[winner := rank[winner] + 1];
      }
      edges := edges + {(first, second)};
      assert (parent, rank) == Linked(old(parent), old(rank), winner, loser);
    }

    /** What the structure is for: sharing a representative is being connected. */
    lemma SameClassIffConnected(x: T, y: T)
      requires Valid() && x in parent && y in parent
      ensures RootOf(x) == RootOf(y) <==> Connected(edges, x, y)
    {
      SameRootIffConnected(parent, rank, edges, x, y);
    }

    /** The rank of a root is at most the binary logarithm of its class. */
    lemma RankIsLogarithmic(x: T)
      requires Valid() && x in parent
      ensures Pow2(rank[RootOf(x)]) <= |Class(parent, rank, RootOf(x))|
      ensures Pow2(rank[x]) <= |parent|
    {
      Contained(Class(parent, rank, RootOf(x)), parent.Keys);
      Pow2Monotone(rank[x], rank[RootOf(x)]);
    }
  }

  lemma AddIsValid<T(!new)>(parent: map<T, T>, rank: map<T, nat>, edges: Edges<T>, x: T)
    requires Ranked(parent, rank) && Sized(parent, rank) && Represents(parent, rank, edges) && x !in parent
    ensures var (p, k) := (parent[x := x], rank[x := 0]); Ranked(p, k) && Sized(p, k) && Represents(p, k, edges)
  {
    var (p, k) := (parent[x := x], rank[x := 0]);
    AddIsRanked(parent, rank, x);
    forall y | y in parent ensures Root(p, k, y) == Root(parent, rank, y) {
      AddOne(parent, rank, x, y);
    }
    forall r | r in p && p[r] == r ensures |Class(p, k, r)| >= Pow2(k[r]) {
      if r == x {
        assert Class(p, k, x) == {x};
      } else {
        assert Class(p, k, r) == Class(parent, rank, r);
      }
    }
    ConnectedToSelf(edges, x);
  }

  lemma CompressIsValid<T(!new)>(parent: map<T, T>, rank: map<T, nat>, edges: Edges<T>, x: T)
    requires Ranked(parent, rank) && Sized(parent, rank) && Represents(parent, rank, edges) && x in parent
    ensures var p := parent[x := Root(parent, rank, x)];
            && Ranked(p, rank) && Sized(p, rank) && Represents(p, rank, edges)
            && forall y :: y in parent ==> Root(p, rank, y) == Root(parent, rank, y)
  {
    var p := parent[x := Root(parent, rank, x)];
    CompressIsRanked(parent, rank, x);
    forall y | y in parent ensures Root(p, rank, y) == Root(parent, rank, y) {
      CompressOne(parent, rank, x, y);
    }
    forall r | r in p && p[r] == r ensures |Class(p, rank, r)| >= Pow2(rank[r]) {
      assert Class(p, rank, r) == Class(parent, rank, r);
      assert Root(p, rank, r) == r;
      assert Root(parent, rank, r) == r;
    }
  }

  lemma AddEdge<T(!new)>(parent: map<T, T>, rank: map<T, nat>, edges: Edges<T>, x: T, y: T)
    requires Ranked(parent, rank) && Represents(parent, rank, edges) && x in parent && y in parent
    requires Root(parent, rank, x) == Root(parent, rank, y)
    ensures Represents(parent, rank, edges + {(x, y)})
  {
    forall z | z in parent ensures Connected(edges + {(x, y)}, z, Root(parent, rank, z)) {
      ConnectedInMore(edges, edges + {(x, y)}, z, Root(parent, rank, z));
    }
  }
}
