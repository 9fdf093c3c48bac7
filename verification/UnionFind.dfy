/** Union-find with path compression in which the lower root always wins. */
module UnionFind {
  import opened Options

  /** Parents never point upwards, so every walk ends. */
  ghost predicate Descending(parent: seq<nat>) {
    forall i :: 0 <= i < |parent| ==> parent[i] <= i
  }

  ghost function Root(parent: seq<nat>, x: nat): (r: nat)
    requires Descending(parent) && x < |parent|
    ensures r <= x && parent[r] == r
    decreases x
  {
    if parent[x] == x then x else Root(parent, parent[x])
  }

  // ---- The equivalence a list of unions generates ----

  /** x and y are linked by a chain of unions. */
  ghost predicate Linked(unions: seq<(nat, nat)>, x: nat, y: nat) {
    exists path :: IsPath(unions, path, x, y)
  }

  ghost predicate Step(unions: seq<(nat, nat)>, x: nat, y: nat) {
    (x, y) in unions || (y, x) in unions
  }

  ghost predicate IsPath(unions: seq<(nat, nat)>, path: seq<nat>, x: nat, y: nat) {
    && path != [] && path[0] == x && path[|path| - 1] == y
    && forall i :: 0 <= i < |path| - 1 ==> Step(unions, path[i], path[i + 1])
  }

  lemma LinkedSelf(unions: seq<(nat, nat)>, x: nat)
    ensures Linked(unions, x, x)
  {
    assert IsPath(unions, [x], x, x);
  }

  lemma LinkedStep(unions: seq<(nat, nat)>, x: nat, y: nat)
    requires Step(unions, x, y)
    ensures Linked(unions, x, y)
  {
    assert IsPath(unions, [x, y], x, y);
  }

  lemma LinkedTrans(unions: seq<(nat, nat)>, x: nat, y: nat, z: nat)
    requires Linked(unions, x, y) && Linked(unions, y, z)
    ensures Linked(unions, x, z)
  {
    var p :| IsPath(unions, p, x, y);
    var q :| IsPath(unions, q, y, z);
    var pq := p + q[1..];
    forall i | 0 <= i < |pq| - 1
      ensures Step(unions, pq[i], pq[i + 1])
    {
      if i >= |p| - 1 {
        assert pq[i] == q[i - (|p| - 1)] && pq[i + 1] == q[i + 1 - (|p| - 1)];
      }
    }
    assert IsPath(unions, pq, x, z);
  }

  lemma LinkedSym(unions: seq<(nat, nat)>, x: nat, y: nat)
    requires Linked(unions, x, y)
    ensures Linked(unions, y, x)
  {
    var p :| IsPath(unions, p, x, y);
    var q := seq(|p|, i requires 0 <= i < |p| => p[|p| - 1 - i]);
    forall i | 0 <= i < |q| - 1
      ensures Step(unions, q[i], q[i + 1])
    {
      assert Step(unions, p[|p| - 2 - i], p[|p| - 1 - i]);
    }
    assert IsPath(unions, q, y, x);
  }

  lemma LinkedMore(unions: seq<(nat, nat)>, more: seq<(nat, nat)>, x: nat, y: nat)
    requires Linked(unions, x, y) && forall u :: u in unions ==> u in more
    ensures Linked(more, x, y)
  {
    var p :| IsPath(unions, p, x, y);
    assert IsPath(more, p, x, y);
  }

  /** The table represents the equivalence: roots are shared exactly by linked ids. */
  ghost predicate Represents(parent: seq<nat>, unions: seq<(nat, nat)>) {
    && Descending(parent)
    && (forall u :: u in unions ==> u.0 < |parent| && u.1 < |parent|)
    && (forall x: nat :: x < |parent| ==> RootLinked(parent, unions, x))
    && (forall u :: u in unions ==> Root(parent, u.0) == Root(parent, u.1))
  }

  ghost predicate RootLinked(parent: seq<nat>, unions: seq<(nat, nat)>, x: nat)
    requires Descending(parent) && x < |parent|
  {
    Linked(unions, x, Root(parent, x))
  }

  /** Along a path of unions the root never changes. */
  lemma {:induction false} PathSharesRoot(parent: seq<nat>, unions: seq<(nat, nat)>, path: seq<nat>, x: nat, y: nat)
    requires Represents(parent, unions) && IsPath(unions, path, x, y) && x < |parent|
    ensures y < |parent| && Root(parent, y) == Root(parent, x)
    decreases |path|
  {
    if |path| > 1 {
      var z := path[|path| - 2];
      assert IsPath(unions, path[..|path| - 1], x, z);
      PathSharesRoot(parent, unions, path[..|path| - 1], x, z);
      assert Step(unions, path[|path| - 2], path[|path| - 1]);
    }
  }

  /** find is canonical: the least id linked to x. */
  lemma RootIsLeast(parent: seq<nat>, unions: seq<(nat, nat)>, x: nat)
    requires Represents(parent, unions) && x < |parent|
    ensures Linked(unions, x, Root(parent, x))
    ensures forall y: nat :: Linked(unions, x, y) ==> y < |parent| && Root(parent, x) <= y
  {
    assert RootLinked(parent, unions, x);
    forall y: nat | Linked(unions, x, y)
      ensures y < |parent| && Root(parent, x) <= y
    {
      var p :| IsPath(unions, p, x, y);
      PathSharesRoot(parent, unions, p, x, y);
    }
  }

  lemma SharedIffLinked(parent: seq<nat>, unions: seq<(nat, nat)>, x: nat, y: nat)
    requires Represents(parent, unions) && x < |parent| && y < |parent|
    ensures Root(parent, x) == Root(parent, y) <==> Linked(unions, x, y)
  {
    if Linked(unions, x, y) {
      var p :| IsPath(unions, p, x, y);
      PathSharesRoot(parent, unions, p, x, y);
    }
    if Root(parent, x) == Root(parent, y) {
      assert RootLinked(parent, unions, x) && RootLinked(parent, unions, y);
      LinkedSym(unions, y, Root(parent, y));
      LinkedTrans(unions, x, Root(parent, x), y);
    }
  }

  /** Representatives do not depend on the order or the orientation of the unions. */
  lemma OrderDoesNotMatter(p: seq<nat>, u: seq<(nat, nat)>, q: seq<nat>, v: seq<(nat, nat)>, x: nat)
    requires Represents(p, u) && Represents(q, v) && |p| == |q| && x < |p|
    requires forall a: nat, b: nat :: Step(u, a, b) <==> Step(v, a, b)
    ensures Root(p, x) == Root(q, x)
  {
    RootIsLeast(p, u, x);
    RootIsLeast(q, v, x);
    var a :| IsPath(u, a, x, Root(p, x));
    assert IsPath(v, a, x, Root(p, x));
    var b :| IsPath(v, b, x, Root(q, x));
    assert IsPath(u, b, x, Root(q, x));
    assert Linked(v, x, Root(p, x)) && Linked(u, x, Root(q, x));
  }

  // ---- Compression and linking ----

  /** Pointing a node at its root changes nobody's root. */
  lemma {:induction false} CompressKeepsRoot(parent: seq<nat>, c: nat, x: nat)
    requires Descending(parent) && c < |parent| && x < |parent|
    ensures Descending(parent[c := Root(parent, c)])
    ensures Root(parent[c := Root(parent, c)], x) == Root(parent, x)
    decreases x
  {
    var after := parent[c := Root(parent, c)];
    if after[x] != x {
      CompressKeepsRoot(parent, c, after[x]);
    }
  }

  /** Linking the higher root below the lower one redirects exactly the higher class. */
  lemma {:induction false} LinkRoots(parent: seq<nat>, winner: nat, loser: nat, x: nat)
    requires Descending(parent) && winner < loser < |parent| && x < |parent|
    requires parent[winner] == winner && parent[loser] == loser
    ensures Descending(parent[loser := winner])
    ensures Root(parent[loser := winner], x) == if Root(parent, x) == loser then winner else Root(parent, x)
    decreases x
  {
    if x != loser && parent[x] != x {
      LinkRoots(parent, winner, loser, parent[x]);
    }
  }

  lemma RepresentsSame(before: seq<nat>, after: seq<nat>, unions: seq<(nat, nat)>)
    requires Represents(before, unions) && Descending(after) && |after| == |before|
    requires forall x: nat :: x < |before| ==> Root(after, x) == Root(before, x)
    ensures Represents(after, unions)
  {
    forall x: nat | x < |after|
      ensures RootLinked(after, unions, x)
    {
      assert RootLinked(before, unions, x);
    }
  }

  /** y is x or one of the ids between x and its root. */
  ghost predicate OnPath(parent: seq<nat>, x: nat, y: nat)
    requires Descending(parent) && x < |parent|
    decreases x
  {
    x == y || (parent[x] != x && OnPath(parent, parent[x], y))
  }

  lemma {:induction false} PathDescends(parent: seq<nat>, x: nat, y: nat)
    requires Descending(parent) && x < |parent| && OnPath(parent, x, y)
    ensures y <= x
    decreases x
  {
    if x != y {
      PathDescends(parent, parent[x], y);
    }
  }

  lemma {:induction false} PathGoesOn(parent: seq<nat>, x: nat, y: nat)
    requires Descending(parent) && x < |parent| && OnPath(parent, x, y) && y < |parent|
    ensures OnPath(parent, x, parent[y])
    decreases x
  {
    if x != y {
      PathGoesOn(parent, parent[x], y);
    }
  }

  /** The ids from id down to, but without, those from cur on point at the root; all others as before. */
  ghost predicate Halfway(before: seq<nat>, after: seq<nat>, id: nat, cur: nat, root: nat) {
    && Descending(before) && id < |before| == |after| && cur < |before|
    && forall y: nat :: y < |before| ==>
         after[y] == if OnPath(before, id, y) && !OnPath(before, cur, y) then root else before[y]
  }

  /** The ids from id to its root point at the root; all others as before. */
  ghost predicate Compressed(before: seq<nat>, after: seq<nat>, id: nat, root: nat) {
    && Descending(before) && id < |before| == |after|
    && forall y: nat :: y < |before| ==> after[y] == if OnPath(before, id, y) then root else before[y]
  }

  lemma HalfwayStep(before: seq<nat>, after: seq<nat>, id: nat, cur: nat, root: nat)
    requires Halfway(before, after, id, cur, root) && OnPath(before, id, cur) && before[cur] != cur
    ensures Halfway(before, after[cur := root], id, before[cur], root) && OnPath(before, id, before[cur]) && after[cur] == before[cur]
  {
    PathGoesOn(before, id, cur);
    if OnPath(before, before[cur], cur) {
      PathDescends(before, before[cur], cur);
    }
  }

  lemma HalfwayEnds(before: seq<nat>, after: seq<nat>, id: nat, root: nat)
    requires Halfway(before, after, id, root, root) && OnPath(before, id, root) && before[root] == root
    ensures Compressed(before, after, id, root)
  {
  }

  class Table {
    var parent: seq<nat>
    ghost var unions: seq<(nat, nat)>

    ghost predicate Valid()
      reads this
    {
      Represents(parent, unions)
    }

    constructor (capacity: nat)
      ensures Valid() && |parent| == capacity && unions == []
      ensures forall x: nat :: x < capacity ==> Root(parent, x) == x
    {
      parent := seq(capacity, i => i);
      unions := [];
      new;
      forall x: nat | x < capacity
        ensures RootLinked(parent, [], x)
      {
        LinkedSelf([], x);
      }
    }

    method FindRo(id: nat) returns (r: Option<nat>)
      requires Valid()
      ensures r == if id < |parent| then Some(Root(parent, id)) else None
    {
      if id >= |parent| {
        return None;
      }
      var root: nat := id;
      while parent[root] != root
        invariant root < |parent| && Root(parent, root) == Root(parent, id)
        decreases root
      {
        root := parent[root];
      }
      r := Some(root);
    }

    /** find: walk to the root, then point the walked path at it. */
    method Find(id: nat) returns (r: Option<nat>)
      requires Valid()
      modifies this`parent
      ensures Valid() && |parent| == |old(parent)|
      ensures r == if id < |parent| then Some(Root(old(parent), id)) else None
      ensures forall x: nat :: x < |parent| ==> Root(parent, x) == Root(old(parent), x)
      ensures r.None? ==> parent == old(parent)
      ensures r.Some? ==> Compressed(old(parent), parent, id, r.value) && parent[id] == r.value
    {
      if id >= |parent| {
        return None;
      }
      var root: nat := id;
      while parent[root] != root
        invariant root < |parent| && Root(parent, root) == Root(parent, id)
        decreases root
      {
        root := parent[root];
      }
      var cur: nat := id;
      ghost var before := parent;
      while cur != root
        invariant cur < |before| && OnPath(before, id, cur) && Halfway(before, parent, id, cur, root)
        invariant Valid() && |parent| == |old(parent)| && cur < |parent| && Root(parent, cur) == root
        invariant forall x: nat :: x < |parent| ==> Root(parent, x) == Root(old(parent), x)
        decreases cur
      {
        var next := parent[cur];
        forall x: nat | x < |parent|
          ensures Descending(parent[cur := root]) && Root(parent[cur := root], x) == Root(parent, x)
        {
          CompressKeepsRoot(parent, cur, x);
        }
        RepresentsSame(parent, parent[cur := root], unions);
        HalfwayStep(before, parent, id, cur, root);
        parent := parent[cur := root];
        cur := next;
      }
      HalfwayEnds(before, parent, id, root);
      r := Some(root);
    }

    /** union: the lower root wins. */
    method Union(a: nat, b: nat) returns (r: Option<nat>)
      requires Valid()
      modifies this
      ensures Valid() && |parent| == |old(parent)|
      ensures r.None? <==> a >= |parent| || b >= |parent|
      ensures r.None? ==> unions == old(unions) && forall x: nat :: x < |parent| ==> Root(parent, x) == Root(old(parent), x)
      ensures r.Some? ==>
                var ra, rb := Root(old(parent), a), Root(old(parent), b);
                var low, high := if ra <= rb then ra else rb, if ra <= rb then rb else ra;
                && r.value == low
                && unions == old(unions) + [(a, b)]
                && forall x: nat :: x < |parent| ==>
                     Root(parent, x) == if Root(old(parent), x) == high then low else Root(old(parent), x)
    {
      var fa := Find(a);
      if fa.None? {
        return None;
      }
      var fb := Find(b);
      if fb.None? {
        return None;
      }
      var ra, rb := fa.value, fb.value;
      ghost var before := parent;
      var winner, loser := if ra <= rb then ra else rb, if ra <= rb then rb else ra;
      if ra != rb {
        forall x: nat | x < |parent|
          ensures Descending(parent[loser := winner])
          ensures Root(parent[loser := winner], x) == if Root(parent, x) == loser then winner else Root(parent, x)
        {
          LinkRoots(parent, winner, loser, x);
        }
        parent := parent[loser := winner];
      }
      UnionRepresents(before, parent, unions, a, b);
      unions := unions + [(a, b)];
      r := Some(winner);
    }
  }

  /** Merging the two classes of a and b represents the equivalence with (a, b) added. */
  lemma UnionRepresents(before: seq<nat>, after: seq<nat>, unions: seq<(nat, nat)>, a: nat, b: nat)
    requires Represents(before, unions) && Descending(after) && |after| == |before| && a < |before| && b < |before|
    requires var ra, rb := Root(before, a), Root(before, b);
             forall x: nat :: x < |before| ==>
               Root(after, x) == if Root(before, x) == (if ra <= rb then rb else ra) then (if ra <= rb then ra else rb)
                                 else Root(before, x)
    ensures Represents(after, unions + [(a, b)])
  {
    var more := unions + [(a, b)];
    var ra, rb := Root(before, a), Root(before, b);
    assert RootLinked(before, unions, a) && RootLinked(before, unions, b);
    RootsLinked(unions, a, b, ra, rb);
    forall x: nat | x < |after|
      ensures RootLinked(after, more, x)
    {
      assert RootLinked(before, unions, x);
      LinkedMore(unions, more, x, Root(before, x));
      if Root(after, x) != Root(before, x) {
        LinkedTrans(more, x, Root(before, x), Root(after, x));
      }
    }
  }

  /** The new pair links the two old representatives, both ways. */
  lemma RootsLinked(unions: seq<(nat, nat)>, a: nat, b: nat, ra: nat, rb: nat)
    requires Linked(unions, a, ra) && Linked(unions, b, rb)
    ensures var more := unions + [(a, b)]; Linked(more, ra, rb) && Linked(more, rb, ra)
  {
    var more := unions + [(a, b)];
    assert (a, b) in more;
    LinkedStep(more, a, b);
    LinkedMore(unions, more, a, ra);
    LinkedMore(unions, more, b, rb);
    LinkedSym(more, a, ra);
    LinkedTrans(more, ra, a, b);
    LinkedTrans(more, ra, b, rb);
    LinkedSym(more, ra, rb);
  }
}
