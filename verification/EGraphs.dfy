/** E-class storage: hash-consed nodes, classes backed by union-find, congruence rebuild. */
module EGraphs {
  import opened Options
  import opened EOps
  import opened UnionFind
  import opened Rules

  datatype Error = Full | BadClass | BadUnion | TooManyChildren

  datatype Result<T> = Ok(value: T) | Err(error: Error)

  const MAX_CHILDREN := 4

  // ---- Roots as a table ----

  /** The canonical id of every id. */
  ghost function Roots(parent: seq<nat>): (r: seq<nat>)
    requires Descending(parent)
    ensures |r| == |parent|
  {
    seq(|parent|, x requires 0 <= x < |parent| => Root(parent, x))
  }

  /** Canonical ids are fixed points, below what they stand for, and ids from n on are untouched. */
  ghost predicate Canonical(roots: seq<nat>, n: nat) {
    && n <= |roots|
    && (forall x :: 0 <= x < |roots| ==> roots[x] <= x && roots[roots[x]] == roots[x])
    && (forall x :: n <= x < |roots| ==> roots[x] == x)
  }

  ghost function Joined(roots: seq<nat>, low: nat, high: nat): (r: seq<nat>)
    ensures |r| == |roots|
  {
    seq(|roots|, x requires 0 <= x < |roots| => if roots[x] == high then low else roots[x])
  }

  lemma RootsFixed(parent: seq<nat>, x: nat)
    requires Descending(parent) && x < |parent|
    ensures var r := Roots(parent)[x]; r <= x && Root(parent, r) == r && Roots(parent)[r] == r
  {
  }

  lemma RootsJoined(before: seq<nat>, after: seq<nat>, low: nat, high: nat)
    requires Descending(before) && Descending(after) && |after| == |before|
    requires forall x: nat :: x < |after| ==> Root(after, x) == if Root(before, x) == high then low else Root(before, x)
    ensures Roots(after) == Joined(Roots(before), low, high)
  {
  }

  /** Later roots only join classes, moving to lower ids. */
  ghost predicate Coarser(before: seq<nat>, after: seq<nat>) {
    && |after| == |before|
    && (forall x :: 0 <= x < |before| ==> after[x] <= before[x])
    && (forall x: nat, y: nat :: StaysJoined(before, after, x, y))
  }

  ghost predicate StaysJoined(before: seq<nat>, after: seq<nat>, x: nat, y: nat) {
    x < |before| == |after| && y < |before| && before[x] == before[y] ==> after[x] == after[y]
  }

  // ---- Membership ----

  predicate Ascending(s: seq<nat>) {
    forall i, j :: 0 <= i < j < |s| ==> s[i] < s[j]
  }

  function Insert(s: seq<nat>, x: nat): (r: seq<nat>)
    requires Ascending(s)
    ensures Ascending(r) && forall y :: y in r <==> y in s || y == x
  {
    if s == [] then [x]
    else if s[|s| - 1] < x then s + [x]
    else if s[|s| - 1] == x then s
    else
      var r := Insert(s[..|s| - 1], x);
      assert r[|r| - 1] in r;
      assert s == s[..|s| - 1] + [s[|s| - 1]];
      assert forall y :: y in r ==> y < s[|s| - 1];
      r + [s[|s| - 1]]
  }

  /** Push every id of t and sort. */
  function InsertAll(s: seq<nat>, t: seq<nat>): (r: seq<nat>)
    requires Ascending(s)
    ensures Ascending(r) && forall y :: y in r <==> y in s || y in t
  {
    if t == [] then s else Insert(InsertAll(s, t[..|t| - 1]), t[|t| - 1])
  }

  /** list holds exactly the node ids of class c, ascending. */
  ghost predicate MembersOf(roots: seq<nat>, n: nat, c: nat, list: seq<nat>)
    requires n <= |roots|
  {
    Ascending(list) && forall x :: x in list <==> 0 <= x < n && roots[x] == c
  }

  /** The member lists partition the node ids by canonical class. */
  ghost predicate Partition(roots: seq<nat>, classes: map<nat, seq<nat>>, n: nat) {
    && n <= |roots|
    && (forall c :: c in classes <==> 0 <= c < n && roots[c] == c)
    && (forall c :: c in classes ==> MembersOf(roots, n, c, classes[c]))
  }

  function ListOf(classes: map<nat, seq<nat>>, c: nat): seq<nat> {
    if c in classes then classes[c] else []
  }

  /** merge's bookkeeping: take the loser's list out and sort it into the winner's. */
  function Moved(classes: map<nat, seq<nat>>, winner: nat, loser: nat): map<nat, seq<nat>>
    requires forall c :: c in classes ==> Ascending(classes[c])
  {
    if loser !in classes then classes
    else
      var rest := classes - {loser};
      rest[winner := InsertAll(ListOf(rest, winner), classes[loser])]
  }

  lemma MovedPartition(roots: seq<nat>, classes: map<nat, seq<nat>>, n: nat, low: nat, high: nat)
    requires Canonical(roots, n) && Partition(roots, classes, n)
    requires low <= high < n && roots[low] == low && roots[high] == high
    ensures Canonical(Joined(roots, low, high), n)
    ensures Partition(Joined(roots, low, high), Moved(classes, low, high), n)
  {
    var joined, moved := Joined(roots, low, high), Moved(classes, low, high);
    MovedKeys(roots, classes, n, low, high);
    MovedWinner(roots, classes, n, low, high);
    forall c | c in moved && c != low
      ensures MembersOf(joined, n, c, moved[c])
    {
      assert MembersOf(roots, n, c, classes[c]);
    }
  }

  /** The classes after a merge are the canonical ids after the join; other lists are untouched. */
  lemma MovedKeys(roots: seq<nat>, classes: map<nat, seq<nat>>, n: nat, low: nat, high: nat)
    requires Canonical(roots, n) && Partition(roots, classes, n)
    requires low <= high < n && roots[low] == low && roots[high] == high
    ensures var joined, moved := Joined(roots, low, high), Moved(classes, low, high);
            && Canonical(joined, n)
            && (forall c :: c in moved <==> 0 <= c < n && joined[c] == c)
            && (forall c :: c in moved && c != low ==> c in classes && c != high && moved[c] == classes[c])
  {
    assert low in classes && high in classes;
  }

  /** The winner's list holds the members of both classes. */
  lemma MovedWinner(roots: seq<nat>, classes: map<nat, seq<nat>>, n: nat, low: nat, high: nat)
    requires Canonical(roots, n) && Partition(roots, classes, n)
    requires low <= high < n && roots[low] == low && roots[high] == high
    ensures low in Moved(classes, low, high) && MembersOf(Joined(roots, low, high), n, low, Moved(classes, low, high)[low])
  {
    assert low in classes && high in classes;
    assert MembersOf(roots, n, low, classes[low]) && MembersOf(roots, n, high, classes[high]);
    assert ListOf(classes - {high}, low) == if low == high then [] else classes[low];
  }

  /** A merge of two classes leaves one class less. */
  lemma MovedSize(roots: seq<nat>, classes: map<nat, seq<nat>>, n: nat, winner: nat, loser: nat)
    requires Partition(roots, classes, n) && winner < n && loser < n && winner != loser
    requires roots[winner] == winner && roots[loser] == loser
    ensures forall c :: c in classes ==> Ascending(classes[c])
    ensures |Moved(classes, winner, loser)| == |classes| - 1
  {
    assert winner in classes && loser in classes;
    assert forall c :: c in classes ==> MembersOf(roots, n, c, classes[c]);
    assert Moved(classes, winner, loser).Keys == classes.Keys - {loser};
  }

  lemma MemberPartition(roots: seq<nat>, classes: map<nat, seq<nat>>, n: nat)
    requires Canonical(roots, n) && Partition(roots, classes, n) && n < |roots|
    ensures n !in classes && Partition(roots, classes[n := [n]], n + 1) && Canonical(roots, n + 1)
  {
  }

  // ---- Values ----

  ghost function Args(val: seq<Val>, children: seq<nat>): (r: seq<Val>)
    requires forall k :: 0 <= k < |children| ==> children[k] < |val|
    ensures |r| == |children|
  {
    seq(|children|, k requires 0 <= k < |children| => val[children[k]])
  }

  /** Children come before their node and there are at most four. */
  predicate Bounded(node: ENode, n: nat) {
    && |node.children| <= MAX_CHILDREN
    && forall k :: 0 <= k < |node.children| ==> node.children[k] < n
  }

  predicate BoundedAt(nodes: seq<ENode>, i: int) {
    0 <= i < |nodes| && Bounded(nodes[i], i)
  }

  predicate AllBounded(nodes: seq<ENode>) {
    forall i :: 0 <= i < |nodes| ==> BoundedAt(nodes, i)
  }

  lemma BoundedFront(nodes: seq<ENode>)
    requires AllBounded(nodes) && nodes != []
    ensures AllBounded(nodes[..|nodes| - 1]) && BoundedAt(nodes, |nodes| - 1)
  {
    var front := nodes[..|nodes| - 1];
    forall i | 0 <= i < |front|
      ensures BoundedAt(front, i)
    {
      assert BoundedAt(nodes, i);
    }
  }

  lemma BoundedMore(nodes: seq<ENode>, node: ENode)
    requires AllBounded(nodes) && Bounded(node, |nodes|)
    ensures AllBounded(nodes + [node])
  {
    var after := nodes + [node];
    forall i | 0 <= i < |after|
      ensures BoundedAt(after, i)
    {
      assert i < |nodes| ==> BoundedAt(nodes, i);
    }
  }

  /** What every node denotes: its operation applied to what its child classes denote. */
  ghost function Denotes(m: Meaning, nodes: seq<ENode>): (val: seq<Val>)
    requires AllBounded(nodes)
    ensures |val| == |nodes|
  {
    if nodes == [] then []
    else
      var front, last := nodes[..|nodes| - 1], nodes[|nodes| - 1];
      assert BoundedAt(nodes, |nodes| - 1) && AllBounded(front) by {
        BoundedFront(nodes);
      }
      var val := Denotes(m, front);
      val + [Eval(m, last.op, Args(val, last.children))]
  }

  ghost predicate Values(m: Meaning, nodes: seq<ENode>, val: seq<Val>) {
    && AllBounded(nodes) && |val| == |nodes|
    && forall i :: 0 <= i < |nodes| ==> ValueAt(m, nodes, val, i)
  }

  /** Node i has the value of its operation. */
  ghost predicate ValueAt(m: Meaning, nodes: seq<ENode>, val: seq<Val>, i: int) {
    && BoundedAt(nodes, i) && |val| >= |nodes|
    && val[i] == Eval(m, nodes[i].op, Args(val, nodes[i].children))
  }

  /** On the first n nodes, a valuation only matters up to n. */
  lemma ArgsPrefix(nodes: seq<ENode>, val: seq<Val>, n: nat, i: nat)
    requires AllBounded(nodes) && i <= n <= |val| && i < |nodes|
    ensures BoundedAt(nodes, i) && Args(val, nodes[i].children) == Args(val[..n], nodes[i].children)
  {
  }

  lemma {:induction false} DenotesSolves(m: Meaning, nodes: seq<ENode>)
    requires AllBounded(nodes)
    ensures Values(m, nodes, Denotes(m, nodes))
    decreases |nodes|
  {
    if nodes != [] {
      var n := |nodes| - 1;
      var d, front := Denotes(m, nodes), nodes[..n];
      BoundedFront(nodes);
      DenotesSolves(m, front);
      assert d[..n] == Denotes(m, front);
      forall i | 0 <= i < |nodes|
        ensures ValueAt(m, nodes, d, i)
      {
        ArgsPrefix(nodes, d, n, i);
        assert i < n ==> ValueAt(m, front, d[..n], i);
      }
    }
  }

  lemma {:induction false} SolutionDenotes(m: Meaning, nodes: seq<ENode>, val: seq<Val>)
    requires Values(m, nodes, val)
    ensures val == Denotes(m, nodes)
    decreases |nodes|
  {
    if nodes != [] {
      var n := |nodes| - 1;
      var front := nodes[..n];
      BoundedFront(nodes);
      forall i | 0 <= i < n
        ensures ValueAt(m, front, val[..n], i)
      {
        assert BoundedAt(front, i) && ValueAt(m, nodes, val, i);
        ArgsPrefix(nodes, val, n, i);
      }
      SolutionDenotes(m, front, val[..n]);
      assert ValueAt(m, nodes, val, n);
      ArgsPrefix(nodes, val, n, n);
    }
  }

  /** Denotes is the one valuation in which every node has the value of its operation. */
  lemma DenotesIsOnly(m: Meaning, nodes: seq<ENode>, val: seq<Val>)
    requires AllBounded(nodes)
    ensures Values(m, nodes, val) <==> val == Denotes(m, nodes)
  {
    DenotesSolves(m, nodes);
    if Values(m, nodes, val) {
      SolutionDenotes(m, nodes, val);
    }
  }

  /** Every id denotes what its class's canonical id denotes. */
  ghost predicate Sound(roots: seq<nat>, val: seq<Val>) {
    |val| <= |roots| && forall x :: 0 <= x < |val| ==> SoundAt(roots, val, x)
  }

  ghost predicate SoundAt(roots: seq<nat>, val: seq<Val>, x: int) {
    0 <= x < |val| <= |roots| && roots[x] < |val| && val[roots[x]] == val[x]
  }

  lemma JoinedSound(roots: seq<nat>, val: seq<Val>, low: nat, high: nat)
    requires Sound(roots, val) && low < |val| && high < |val| && val[low] == val[high]
    ensures Sound(Joined(roots, low, high), val)
  {
    var joined := Joined(roots, low, high);
    forall x | 0 <= x < |val|
      ensures SoundAt(joined, val, x)
    {
      assert SoundAt(roots, val, x);
    }
  }

  lemma ValuesExtend(m: Meaning, nodes: seq<ENode>, val: seq<Val>, node: ENode)
    requires Values(m, nodes, val) && Bounded(node, |nodes|)
    ensures Values(m, nodes + [node], val + [Eval(m, node.op, Args(val, node.children))])
  {
    var all, more := nodes + [node], val + [Eval(m, node.op, Args(val, node.children))];
    BoundedMore(nodes, node);
    forall i | 0 <= i < |all|
      ensures ValueAt(m, all, more, i)
    {
      assert BoundedAt(all, i) && (i < |nodes| ==> ValueAt(m, nodes, val, i));
      assert Args(more, all[i].children) == Args(val, all[i].children);
    }
  }

  /** children with every id replaced by its canonical id. */
  ghost function Canonized(roots: seq<nat>, children: seq<nat>): (r: seq<nat>)
    requires forall k :: 0 <= k < |children| ==> children[k] < |roots|
    ensures |r| == |children|
  {
    seq(|children|, k requires 0 <= k < |children| => roots[children[k]])
  }

  ghost predicate Recanonized(roots: seq<nat>, before: seq<ENode>, after: seq<ENode>) {
    && |after| == |before|
    && forall i :: 0 <= i < |before| ==>
         && (forall k :: 0 <= k < |before[i].children| ==> before[i].children[k] < |roots|)
         && after[i] == ENode(before[i].op, Canonized(roots, before[i].children))
  }

  lemma RecanonizedValues(m: Meaning, roots: seq<nat>, before: seq<ENode>, after: seq<ENode>, val: seq<Val>)
    requires Values(m, before, val) && Sound(roots, val) && Recanonized(roots, before, after)
    requires AllBounded(after)
    ensures Values(m, after, val)
  {
    forall i | 0 <= i < |after|
      ensures ValueAt(m, after, val, i)
    {
      assert BoundedAt(after, i) && ValueAt(m, before, val, i);
      forall k | 0 <= k < |before[i].children|
        ensures val[after[i].children[k]] == val[before[i].children[k]]
      {
        assert SoundAt(roots, val, before[i].children[k]);
      }
      assert Args(val, after[i].children) == Args(val, before[i].children);
    }
  }

  /** Node i's key is filed, and if the filed node is equal the two share a class. */
  ghost predicate FiledAt(roots: seq<nat>, nodes: seq<ENode>, hash: ENode -> nat, lookup: map<nat, nat>, i: int) {
    && 0 <= i < |nodes| <= |roots| && hash(nodes[i]) in lookup
    && var j := lookup[hash(nodes[i])];
       j < |nodes| && hash(nodes[j]) == hash(nodes[i]) && (nodes[j] == nodes[i] ==> roots[j] == roots[i])
  }

  ghost predicate Filed(roots: seq<nat>, nodes: seq<ENode>, hash: ENode -> nat, lookup: map<nat, nat>, k: nat) {
    && (forall key :: key in lookup ==> lookup[key] < k <= |nodes| && hash(nodes[lookup[key]]) == key)
    && (forall i :: 0 <= i < k ==> FiledAt(roots, nodes, hash, lookup, i))
  }

  lemma FiledBelow(roots: seq<nat>, nodes: seq<ENode>, hash: ENode -> nat, lookup: map<nat, nat>)
    requires Filed(roots, nodes, hash, lookup, |nodes|)
    ensures forall key :: key in lookup ==> lookup[key] < |nodes|
  {
  }

  /** With no collisions among the stored nodes, equal nodes are in one class. */
  lemma FiledMergesCongruent(roots: seq<nat>, nodes: seq<ENode>, hash: ENode -> nat, lookup: map<nat, nat>, i: nat, j: nat)
    requires Filed(roots, nodes, hash, lookup, |nodes|) && i < |nodes| && j < |nodes| && nodes[i] == nodes[j]
    requires forall a, b :: 0 <= a < |nodes| && 0 <= b < |nodes| && hash(nodes[a]) == hash(nodes[b]) ==> nodes[a] == nodes[b]
    ensures |nodes| <= |roots| && roots[i] == roots[j]
  {
    assert FiledAt(roots, nodes, hash, lookup, i) && FiledAt(roots, nodes, hash, lookup, j);
  }

  /** A stored node equal to this one is in class c. */
  ghost predicate Found(roots: seq<nat>, nodes: seq<ENode>, node: ENode, c: nat) {
    |nodes| <= |roots| && exists i :: 0 <= i < |nodes| && nodes[i] == node && roots[i] == c
  }

  /** The node filed under this node's key is this node. */
  ghost predicate IsFiled(nodes: seq<ENode>, hash: ENode -> nat, lookup: map<nat, nat>, node: ENode) {
    hash(node) in lookup && lookup[hash(node)] < |nodes| && nodes[lookup[hash(node)]] == node
  }

  class EGraph {
    var nodes: seq<ENode>
    var nodeClass: seq<nat>
    var classes: map<nat, seq<nat>>
    const uf: Table
    var lookup: map<nat, nat>
    var nextClass: nat
    const capacity: nat
    const hash: ENode -> nat

    ghost predicate Valid()
      reads this, uf
    {
      && uf.Valid() && |uf.parent| == 2 * capacity
      && |nodes| == |nodeClass| == nextClass <= capacity
      && (forall i :: 0 <= i < |nodeClass| ==> nodeClass[i] == i)
      && AllBounded(nodes)
      && (forall key :: key in lookup ==> lookup[key] < |nodes|)
      && Canonical(Roots(uf.parent), |nodes|)
      && Partition(Roots(uf.parent), classes, |nodes|)
    }

    /** An id the union-find rejects, or a class that exists. */
    ghost predicate Live(c: nat)
      reads this
    {
      c < nextClass || c >= 2 * capacity
    }

    constructor (budget: nat, h: ENode -> nat)
      ensures Valid() && fresh(uf) && nodes == [] && capacity == budget && hash == h
    {
      var table := new Table(budget * 2);
      nodes, nodeClass, classes, lookup, nextClass := [], [], map[], map[], 0;
      uf := table;
      capacity := budget;
      hash := h;
    }

    /** The class of the node filed under this node's key, if the two are congruent. */
    method Lookup(node: ENode) returns (r: Option<nat>)
      requires Valid()
      ensures r.Some? ==> Found(Roots(uf.parent), nodes, node, r.value)
      ensures r == if IsFiled(nodes, hash, lookup, node) then Some(Roots(uf.parent)[lookup[hash(node)]]) else None
    {
      var key := hash(node);
      if key !in lookup || nodes[lookup[key]] != node {
        return None;
      }
      r := uf.FindRo(nodeClass[lookup[key]]);
      assert Roots(uf.parent)[lookup[key]] == r.value;
    }

    /** Insert a node: a congruent filed node gives its class, otherwise a new class is made. Either
        way the node is filed afterwards, so adding it again gives the same class and no new node. */
    method Add(op: Op, children: seq<nat>) returns (r: Result<nat>)
      requires Valid() && forall k :: 0 <= k < |children| ==> children[k] < nextClass
      modifies this
      ensures Valid()
      ensures r == Err(Full) <==> |old(nodes)| >= capacity
      ensures r == Err(TooManyChildren) <==> |old(nodes)| < capacity && |children| > MAX_CHILDREN
      ensures r.Err? ==> r.error in {Full, TooManyChildren} && nodes == old(nodes) && lookup == old(lookup)
      ensures r.Ok? ==> Found(Roots(uf.parent), nodes, ENode(op, children), r.value)
      ensures nodes == old(nodes) || (r == Ok(|old(nodes)|) && nodes == old(nodes) + [ENode(op, children)])
      ensures r.Ok? ==> IsFiled(nodes, hash, lookup, ENode(op, children))
      ensures r.Ok? ==>
                if IsFiled(old(nodes), hash, old(lookup), ENode(op, children))
                then nodes == old(nodes) && r.value == Roots(uf.parent)[lookup[hash(ENode(op, children))]]
                else nodes == old(nodes) + [ENode(op, children)] && r.value == |old(nodes)|
    {
      if |nodes| >= capacity {
        return Err(Full);
      }
      if |children| > MAX_CHILDREN {
        return Err(TooManyChildren);
      }
      var node := ENode(op, children);
      var existing := Lookup(node);
      if existing.Some? {
        return Ok(existing.value);
      }
      Append(node);
      r := Ok(nextClass - 1);
      assert nodes[|nodes| - 1] == node && Roots(uf.parent)[|nodes| - 1] == r.value;
    }

    /** A new node in a new class of its own. */
    method Append(node: ENode)
      requires Valid() && Bounded(node, nextClass) && |nodes| < capacity
      modifies this
      ensures Valid() && nodes == old(nodes) + [node] && Roots(uf.parent)[|old(nodes)|] == |old(nodes)|
      ensures lookup == old(lookup)[hash(node) := |old(nodes)|]
    {
      MemberPartition(Roots(uf.parent), classes, |nodes|);
      BoundedMore(nodes, node);
      var id := |nodes|;
      classes := classes[nextClass := ListOf(classes, nextClass) + [id]];
      lookup := lookup[hash(node) := id];
      nodes := nodes + [node];
      nodeClass := nodeClass + [nextClass];
      nextClass := nextClass + 1;
    }

    /** canon: the canonical id, compressing on the way. */
    method Canon(c: nat) returns (r: Result<nat>)
      requires Valid()
      modifies uf`parent
      ensures Valid() && |uf.parent| == |old(uf.parent)|
      ensures Roots(uf.parent) == Roots(old(uf.parent))
      ensures r == if c < 2 * capacity then Ok(Roots(old(uf.parent))[c]) else Err(BadUnion)
    {
      var f := uf.Find(c);
      assert Roots(uf.parent) == Roots(old(uf.parent));
      r := if f.Some? then Ok(f.value) else Err(BadUnion);
    }

    /** merge: the lower canonical class takes over the members of the other. */
    method Merge(a: nat, b: nat) returns (r: Result<nat>)
      requires Valid() && Live(a) && Live(b)
      modifies this`classes, uf
      ensures Valid() && |uf.parent| == |old(uf.parent)|
      ensures r.Err? <==> a >= 2 * capacity || b >= 2 * capacity
      ensures r.Err? ==> r == Err(BadUnion) && classes == old(classes) && Roots(uf.parent) == Roots(old(uf.parent))
      ensures r.Ok? ==>
                var ra, rb := Roots(old(uf.parent))[a], Roots(old(uf.parent))[b];
                var low, high := if ra <= rb then ra else rb, if ra <= rb then rb else ra;
                && r.value == low
                && Roots(uf.parent) == Joined(Roots(old(uf.parent)), low, high)
                && classes == Moved(old(classes), low, high)
    {
      var fa := Canon(a);
      if fa.Err? {
        return Err(BadUnion);
      }
      var fb := Canon(b);
      if fb.Err? {
        return Err(BadUnion);
      }
      RootsFixed(uf.parent, a);
      RootsFixed(uf.parent, b);
      var winner := MergeRoots(fa.value, fb.value);
      r := Ok(winner);
    }

    /** The part of merge that works on canonical ids. */
    method MergeRoots(ca: nat, cb: nat) returns (winner: nat)
      requires Valid() && ca < nextClass && cb < nextClass
      requires Roots(uf.parent)[ca] == ca && Roots(uf.parent)[cb] == cb
      modifies this`classes, uf
      ensures Valid() && |uf.parent| == |old(uf.parent)|
      ensures winner == if ca <= cb then ca else cb
      ensures var high := if ca <= cb then cb else ca;
              && Roots(uf.parent) == Joined(Roots(old(uf.parent)), winner, high)
              && classes == Moved(old(classes), winner, high)
    {
      ghost var before := uf.parent;
      assert Root(before, ca) == ca && Root(before, cb) == cb;
      var union := uf.Union(ca, cb);
      winner := union.value;
      var loser := if winner == ca then cb else ca;
      RootsJoined(before, uf.parent, winner, loser);
      MovedPartition(Roots(before), classes, nextClass, winner, loser);
      classes := Moved(classes, winner, loser);
    }

    /** Every id made canonical, one find each. */
    method CanonList(ids: seq<nat>) returns (r: seq<nat>)
      requires Valid() && forall k :: 0 <= k < |ids| ==> ids[k] < 2 * capacity
      modifies uf`parent
      ensures Valid() && Roots(uf.parent) == Roots(old(uf.parent))
      ensures r == Canonized(Roots(uf.parent), ids)
    {
      ghost var roots := Roots(uf.parent);
      r := [];
      for j := 0 to |ids|
        invariant Valid() && Roots(uf.parent) == roots
        invariant |r| == j && forall k :: 0 <= k < j ==> r[k] == roots[ids[k]]
      {
        var f := Canon(ids[j]);
        r := r + [f.value];
      }
      assert r == Canonized(roots, ids);
    }

    method CanonizeNode(node: ENode) returns (r: ENode)
      requires Valid() && Bounded(node, |nodes|)
      modifies uf`parent
      ensures Valid() && Roots(uf.parent) == Roots(old(uf.parent))
      ensures r == ENode(node.op, Canonized(Roots(old(uf.parent)), node.children))
    {
      var children := CanonList(node.children);
      r := ENode(node.op, children);
    }

    /** The first half of rebuild: every child id becomes canonical. */
    method CanonizeAll(ghost m: Meaning, ghost val: seq<Val>)
      requires Valid() && Values(m, nodes, val) && Sound(Roots(uf.parent), val)
      modifies this`nodes, uf`parent
      ensures Valid() && Roots(uf.parent) == Roots(old(uf.parent))
      ensures Recanonized(Roots(old(uf.parent)), old(nodes), nodes) && Values(m, nodes, val)
    {
      ghost var roots, before := Roots(uf.parent), nodes;
      for i := 0 to |nodes|
        invariant Valid() && Roots(uf.parent) == roots && |nodes| == |before|
        invariant nodes[i..] == before[i..]
        invariant forall j :: 0 <= j < i ==> Bounded(before[j], |roots|) && nodes[j] == ENode(before[j].op, Canonized(roots, before[j].children))
      {
        assert nodes[i] == nodes[i..][0] == before[i];
        assert BoundedAt(nodes, i);
        var node := CanonizeNode(nodes[i]);
        CanonizedBounded(roots, nodes[i], i);
        BoundedUpdate(nodes, i, node);
        nodes := nodes[i := node];
        assert nodes[i + 1..] == before[i + 1..];
      }
      CanonizedAll(roots, before, nodes);
      RecanonizedValues(m, roots, before, nodes, val);
    }

    /** rebuild: canonical children, a fresh lookup, and congruent nodes merged. In every
        meaning the nodes keep their values and each class stays a class of equal values. */
    method Rebuild(ghost m: Meaning, ghost val: seq<Val>) returns (merged: nat)
      requires Valid() && Values(m, nodes, val) && Sound(Roots(uf.parent), val)
      modifies this, uf
      ensures Valid() && |uf.parent| == |old(uf.parent)|
      ensures Values(m, nodes, val) && Sound(Roots(uf.parent), val)
      ensures Recanonized(Roots(old(uf.parent)), old(nodes), nodes)
      ensures Coarser(Roots(old(uf.parent)), Roots(uf.parent))
      ensures Filed(Roots(uf.parent), nodes, hash, lookup, |nodes|)
      ensures merged == 0 <==> Roots(uf.parent) == Roots(old(uf.parent))
      ensures |classes| + merged == |old(classes)|
    {
      ghost var size := |classes|;
      CanonizeAll(m, val);
      assert |classes| == size;
      merged := MergeAndFile(m, val);
    }

    /** Replace the lookup table. */
    method File(filed: map<nat, nat>)
      requires Valid() && forall key :: key in filed ==> filed[key] < |nodes|
      modifies this`lookup
      ensures Valid() && lookup == filed
    {
      lookup := filed;
    }

    method MergeAndFile(ghost m: Meaning, ghost val: seq<Val>) returns (merged: nat)
      requires Valid() && Values(m, nodes, val) && Sound(Roots(uf.parent), val)
      modifies this`classes, this`lookup, uf
      ensures Valid() && |uf.parent| == |old(uf.parent)| && Sound(Roots(uf.parent), val)
      ensures Coarser(Roots(old(uf.parent)), Roots(uf.parent))
      ensures Filed(Roots(uf.parent), nodes, hash, lookup, |nodes|)
      ensures merged == 0 <==> Roots(uf.parent) == Roots(old(uf.parent))
      ensures |classes| + merged == |old(classes)|
    {
      var filed;
      merged, filed := MergeCongruent(m, val);
      FiledBelow(Roots(uf.parent), nodes, hash, filed);
      File(filed);
    }

    /** The second half of rebuild: file every node under its key, merging duplicates. */
    method MergeCongruent(ghost m: Meaning, ghost val: seq<Val>) returns (merged: nat, filed: map<nat, nat>)
      requires Valid() && Values(m, nodes, val) && Sound(Roots(uf.parent), val)
      modifies this`classes, uf
      ensures Valid() && |uf.parent| == |old(uf.parent)| && Sound(Roots(uf.parent), val)
      ensures Coarser(Roots(old(uf.parent)), Roots(uf.parent))
      ensures Filed(Roots(uf.parent), nodes, hash, filed, |nodes|)
      ensures merged == 0 <==> Roots(uf.parent) == Roots(old(uf.parent))
      ensures |classes| + merged == |old(classes)|
    {
      ghost var roots := Roots(uf.parent);
      CoarserSelf(roots);
      merged, filed := 0, map[];
      for i := 0 to |nodes|
        invariant Valid() && |uf.parent| == |old(uf.parent)|
        invariant Sound(Roots(uf.parent), val) && Coarser(roots, Roots(uf.parent))
        invariant Filed(Roots(uf.parent), nodes, hash, filed, i)
        invariant merged == 0 <==> Roots(uf.parent) == roots
        invariant |classes| + merged == |old(classes)|
      {
        var key := hash(nodes[i]);
        if key !in filed {
          FiledNew(Roots(uf.parent), nodes, hash, filed, i);
          filed := filed[key := i];
        } else {
          ghost var earlier := Roots(uf.parent);
          var joined := Unite(m, val, filed[key], i);
          merged := if joined then merged + 1 else merged;
          CoarserSteps(roots, earlier, Roots(uf.parent));
          FiledCoarser(earlier, Roots(uf.parent), nodes, hash, filed, i);
        }
      }
    }

    /** Merge the classes of two nodes if the nodes are congruent and the classes differ. */
    method Unite(ghost m: Meaning, ghost val: seq<Val>, i: nat, j: nat) returns (joined: bool)
      requires Valid() && Values(m, nodes, val) && Sound(Roots(uf.parent), val)
      requires i < |nodes| && j < |nodes|
      modifies this`classes, uf
      ensures Valid() && |uf.parent| == |old(uf.parent)|
      ensures Sound(Roots(uf.parent), val) && Coarser(Roots(old(uf.parent)), Roots(uf.parent))
      ensures nodes[i] == nodes[j] ==> Roots(uf.parent)[i] == Roots(uf.parent)[j]
      ensures joined <==> Roots(uf.parent) != Roots(old(uf.parent))
      ensures |classes| == |old(classes)| - if joined then 1 else 0
    {
      ghost var roots := Roots(uf.parent);
      CoarserSelf(roots);
      if nodes[i] != nodes[j] {
        return false;
      }
      var ca := uf.FindRo(nodeClass[i]);
      var cb := uf.FindRo(nodeClass[j]);
      joined := ca.value != cb.value;
      RootsFixed(uf.parent, i);
      RootsFixed(uf.parent, j);
      if joined {
        assert ValueAt(m, nodes, val, i) && ValueAt(m, nodes, val, j);
        UniteSound(roots, nextClass, val, i, j);
        MovedSize(roots, classes, nextClass, ca.value, cb.value);
        MovedSize(roots, classes, nextClass, cb.value, ca.value);
        var winner := MergeRoots(ca.value, cb.value);
      }
    }
  }

  /** Joining the classes of two ids of one value is sound and really joins. */
  lemma UniteSound(roots: seq<nat>, n: nat, val: seq<Val>, i: nat, j: nat)
    requires Canonical(roots, n) && Sound(roots, val) && i < |val| && j < |val| && val[i] == val[j]
    ensures var low, high := if roots[i] <= roots[j] then roots[i] else roots[j], if roots[i] <= roots[j] then roots[j] else roots[i];
            var joined := Joined(roots, low, high);
            && Sound(joined, val) && Coarser(roots, joined) && joined[i] == joined[j]
            && low < |val| && val[low] == val[i]
            && (roots[i] != roots[j] ==> joined[high] != roots[high])
  {
    var low, high := if roots[i] <= roots[j] then roots[i] else roots[j], if roots[i] <= roots[j] then roots[j] else roots[i];
    assert SoundAt(roots, val, i) && SoundAt(roots, val, j);
    JoinedSound(roots, val, low, high);
    JoinedCoarser(roots, n, low, high);
  }

  lemma CoarserSelf(roots: seq<nat>)
    ensures Coarser(roots, roots)
  {
  }

  lemma JoinedCoarser(roots: seq<nat>, n: nat, low: nat, high: nat)
    requires Canonical(roots, n) && low <= high < |roots|
    ensures Coarser(roots, Joined(roots, low, high))
  {
  }

  /** Joins compose, and a change anywhere in between shows at the end. */
  lemma CoarserSteps(a: seq<nat>, b: seq<nat>, c: seq<nat>)
    requires Coarser(a, b) && Coarser(b, c)
    ensures Coarser(a, c) && (a == c ==> a == b)
  {
    forall x: nat, y: nat
      ensures StaysJoined(a, c, x, y)
    {
      assert StaysJoined(a, b, x, y) && StaysJoined(b, c, x, y);
    }
  }

  lemma FiledNew(roots: seq<nat>, nodes: seq<ENode>, hash: ENode -> nat, lookup: map<nat, nat>, k: nat)
    requires Filed(roots, nodes, hash, lookup, k) && k < |nodes| <= |roots| && hash(nodes[k]) !in lookup
    ensures Filed(roots, nodes, hash, lookup[hash(nodes[k]) := k], k + 1)
  {
    var more := lookup[hash(nodes[k]) := k];
    forall i | 0 <= i < k
      ensures FiledAt(roots, nodes, hash, more, i)
    {
      assert FiledAt(roots, nodes, hash, lookup, i);
    }
  }

  lemma FiledCoarser(before: seq<nat>, after: seq<nat>, nodes: seq<ENode>, hash: ENode -> nat, lookup: map<nat, nat>, k: nat)
    requires Filed(before, nodes, hash, lookup, k) && Coarser(before, after)
    requires FiledAt(after, nodes, hash, lookup, k)
    ensures Filed(after, nodes, hash, lookup, k + 1)
  {
    forall i | 0 <= i < k
      ensures FiledAt(after, nodes, hash, lookup, i)
    {
      assert FiledAt(before, nodes, hash, lookup, i);
      assert StaysJoined(before, after, lookup[hash(nodes[i])], i);
    }
  }

  lemma CanonizedBounded(roots: seq<nat>, node: ENode, n: nat)
    requires n <= |roots| && Bounded(node, n) && forall x :: 0 <= x < |roots| ==> roots[x] <= x
    ensures Bounded(ENode(node.op, Canonized(roots, node.children)), n)
  {
  }

  lemma BoundedUpdate(nodes: seq<ENode>, k: nat, node: ENode)
    requires AllBounded(nodes) && k < |nodes| && Bounded(node, k)
    ensures AllBounded(nodes[k := node])
  {
    var after := nodes[k := node];
    forall i | 0 <= i < |after|
      ensures BoundedAt(after, i)
    {
      assert BoundedAt(nodes, i);
    }
  }

  lemma CanonizedAll(roots: seq<nat>, before: seq<ENode>, after: seq<ENode>)
    requires |after| == |before|
    requires forall j :: 0 <= j < |before| ==> Bounded(before[j], |roots|) && after[j] == ENode(before[j].op, Canonized(roots, before[j].children))
    ensures Recanonized(roots, before, after)
  {
  }

  // ---- How a graph develops ----

  /** What later steps must preserve of a graph: canonical ids and nodes. */
  datatype Snap = Snap(roots: seq<nat>, nodes: seq<ENode>)

  /** The same operation over the same child classes. */
  ghost predicate SameNode(roots: seq<nat>, a: ENode, b: ENode) {
    && a.op == b.op && |a.children| == |b.children|
    && forall k :: 0 <= k < |a.children| ==>
         a.children[k] < |roots| && b.children[k] < |roots| && roots[a.children[k]] == roots[b.children[k]]
  }

  /** Classes only join, nodes are only added, and a node stays what it was up to canonical ids. */
  ghost predicate Grown(s: Snap, t: Snap) {
    && Coarser(s.roots, t.roots) && |s.nodes| <= |t.nodes|
    && forall i :: 0 <= i < |s.nodes| ==> Stays(s, t, i)
  }

  ghost predicate Stays(s: Snap, t: Snap, i: int) {
    0 <= i < |s.nodes| <= |t.nodes| && SameNode(t.roots, s.nodes[i], t.nodes[i])
  }

  lemma SameNodeCoarser(before: seq<nat>, after: seq<nat>, a: ENode, b: ENode)
    requires SameNode(before, a, b) && Coarser(before, after)
    ensures SameNode(after, a, b)
  {
    forall k | 0 <= k < |a.children|
      ensures after[a.children[k]] == after[b.children[k]]
    {
      assert StaysJoined(before, after, a.children[k], b.children[k]);
    }
  }

  lemma SameNodeTrans(roots: seq<nat>, a: ENode, b: ENode, c: ENode)
    requires SameNode(roots, a, b) && SameNode(roots, b, c)
    ensures SameNode(roots, a, c)
  {
  }

  /** The class of c holds this node. */
  ghost predicate Has(t: Snap, c: nat, node: ENode) {
    && c < |t.roots| && |t.nodes| <= |t.roots|
    && exists i :: 0 <= i < |t.nodes| && t.roots[i] == t.roots[c] && SameNode(t.roots, node, t.nodes[i])
  }

  lemma GrownTrans(s: Snap, t: Snap, u: Snap)
    requires Grown(s, t) && Grown(t, u)
    ensures Grown(s, u)
  {
    CoarserSteps(s.roots, t.roots, u.roots);
    forall i | 0 <= i < |s.nodes|
      ensures Stays(s, u, i)
    {
      assert Stays(s, t, i) && Stays(t, u, i);
      SameNodeCoarser(t.roots, u.roots, s.nodes[i], t.nodes[i]);
      SameNodeTrans(u.roots, s.nodes[i], t.nodes[i], u.nodes[i]);
    }
  }

  lemma GrownHas(s: Snap, t: Snap, c: nat, node: ENode)
    requires Grown(s, t) && Has(s, c, node) && |t.nodes| <= |t.roots|
    ensures Has(t, c, node)
  {
    var i :| 0 <= i < |s.nodes| && s.roots[i] == s.roots[c] && SameNode(s.roots, node, s.nodes[i]);
    assert Stays(s, t, i) && StaysJoined(s.roots, t.roots, i, c);
    SameNodeCoarser(s.roots, t.roots, node, s.nodes[i]);
    SameNodeTrans(t.roots, node, s.nodes[i], t.nodes[i]);
  }

  lemma GrownSelf(s: Snap)
    requires AllBounded(s.nodes) && |s.nodes| <= |s.roots|
    ensures Grown(s, s)
  {
    CoarserSelf(s.roots);
    forall i | 0 <= i < |s.nodes|
      ensures Stays(s, s, i)
    {
      assert BoundedAt(s.nodes, i);
    }
  }

  /** Appending a node, then joining classes. */
  lemma GrownAppend(roots: seq<nat>, nodes: seq<ENode>, more: seq<ENode>)
    requires AllBounded(nodes) && |nodes| <= |roots| && nodes <= more
    ensures Grown(Snap(roots, nodes), Snap(roots, more))
  {
    CoarserSelf(roots);
    forall i | 0 <= i < |nodes|
      ensures Stays(Snap(roots, nodes), Snap(roots, more), i)
    {
      assert BoundedAt(nodes, i);
    }
  }

  lemma GrownJoin(roots: seq<nat>, after: seq<nat>, nodes: seq<ENode>)
    requires AllBounded(nodes) && |nodes| <= |roots| && Coarser(roots, after)
    ensures Grown(Snap(roots, nodes), Snap(after, nodes))
  {
    forall i | 0 <= i < |nodes|
      ensures Stays(Snap(roots, nodes), Snap(after, nodes), i)
    {
      assert BoundedAt(nodes, i);
    }
  }

  lemma GrownRebuild(roots: seq<nat>, after: seq<nat>, nodes: seq<ENode>, canon: seq<ENode>)
    requires Canonical(roots, |nodes|) && AllBounded(nodes) && Coarser(roots, after) && Recanonized(roots, nodes, canon)
    ensures Grown(Snap(roots, nodes), Snap(after, canon))
  {
    forall i | 0 <= i < |nodes|
      ensures Stays(Snap(roots, nodes), Snap(after, canon), i)
    {
      assert BoundedAt(nodes, i);
      forall k | 0 <= k < |nodes[i].children|
        ensures after[nodes[i].children[k]] == after[canon[i].children[k]]
      {
        assert StaysJoined(roots, after, nodes[i].children[k], canon[i].children[k]);
      }
    }
  }
}
