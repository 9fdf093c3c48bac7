/** Cost extraction: the cheapest derivation of every e-class by rounds of relaxation. */
module Extract {
  import opened Options
  import opened EOps
  import opened Finite

  const U32_MAX: nat := 0xFFFF_FFFF
  const FUSION_LOCALITY_PENALTY: nat := 64

  function BaseCost(op: Op): (c: nat)
    ensures 1 <= c <= 64
  {
    match op
    case ConstI64(_) | ConstF64(_) | Param(_) => 1
    case Binary(_) | Unary(_) => 2
    case Dot => 8
    case Reduce(_, _) => 4
    case Transpose(_) | Broadcast(_) => FUSION_LOCALITY_PENALTY
    case Matmul(_) => 16
    case Conv(_) => 24
    case Rng(_) => 4
    case If => 8
    case Custom(_) => 32
    case FusionCluster | FusionBarrier | FusionMaterialize => 1
    case LoopParallel(_) | LoopAlloc(_) | LoopAsyncCopy | LoopPipelineStage(_) => 1
    case TargetMma => 12
    case TargetWarpShuffle | TargetBarrier => 2
  }

  ghost predicate Leaf(op: Op) {
    op.ConstI64? || op.ConstF64? || op.Param?
  }

  ghost predicate Elementwise(op: Op) {
    op.Binary? || op.Unary?
  }

  ghost predicate Layout(op: Op) {
    op.Transpose? || op.Broadcast?
  }

  /** Nothing is cheaper than a constant or a parameter; elementwise work is cheaper than a
      reduction, that than a dot product, a matrix product, a convolution and a custom operation;
      and a layout change costs at least twice what anything else costs. */
  lemma CostOrder(a: Op, b: Op)
    ensures Leaf(a) ==> BaseCost(a) <= BaseCost(b)
    ensures Leaf(a) && Elementwise(b) ==> BaseCost(a) < BaseCost(b)
    ensures Elementwise(a) && b.Reduce? ==> BaseCost(a) < BaseCost(b)
    ensures a.Reduce? && b.Dot? ==> BaseCost(a) < BaseCost(b)
    ensures a.Dot? && b.Matmul? ==> BaseCost(a) < BaseCost(b)
    ensures a.Matmul? && b.Conv? ==> BaseCost(a) < BaseCost(b)
    ensures a.Conv? && b.Custom? ==> BaseCost(a) < BaseCost(b)
    ensures Layout(b) && !Layout(a) ==> 2 * BaseCost(a) <= BaseCost(b)
    ensures Layout(a) && Layout(b) ==> BaseCost(a) == BaseCost(b)
  {
  }

  /** What extraction reads of an e-graph: the nodes and the member list of each class. */
  datatype Graph = Graph(nodes: seq<ENode>, classes: map<nat, seq<nat>>)

  predicate WellFormed(g: Graph) {
    forall c :: c in g.classes ==> c < |g.nodes| && forall m :: m in g.classes[c] ==> m < |g.nodes|
  }

  // ---- Derivations: the independent meaning of "cheapest" ----

  datatype Tree = Tree(id: nat, kids: seq<Tree>)

  /** t picks a node and, for each of its child classes, a derivation rooted in that class. */
  ghost predicate Derives(g: Graph, t: Tree) {
    && t.id < |g.nodes|
    && |t.kids| == |g.nodes[t.id].children|
    && forall i :: 0 <= i < |t.kids| ==> Derives(g, t.kids[i]) && InClass(g, g.nodes[t.id].children[i], t.kids[i].id)
  }

  predicate InClass(g: Graph, c: nat, id: nat) {
    c in g.classes && id in g.classes[c]
  }

  ghost function TreeCost(g: Graph, t: Tree): (c: nat)
    requires Derives(g, t)
    ensures c >= 1
    decreases t, 1
  {
    BaseCost(g.nodes[t.id].op) + KidsCost(g, t.kids)
  }

  ghost function KidsCost(g: Graph, kids: seq<Tree>): nat
    requires forall i :: 0 <= i < |kids| ==> Derives(g, kids[i])
    decreases kids, 0
  {
    if kids == [] then 0 else KidsCost(g, kids[..|kids| - 1]) + TreeCost(g, kids[|kids| - 1])
  }

  /** id is the cheapest, lowest-numbered root of a derivation of class c, at cost k. */
  ghost predicate Cheapest(g: Graph, c: nat, k: nat, id: nat) {
    && InClass(g, c, id)
    && (exists t :: Derives(g, t) && t.id == id && TreeCost(g, t) == k)
    && (forall t :: Derives(g, t) && InClass(g, c, t.id) ==> k < TreeCost(g, t) || (k == TreeCost(g, t) && id <= t.id))
  }

  // ---- One round ----

  /** (cost, node) chosen for a class. */
  type Choice = Option<(nat, nat)>

  function SatAdd(a: nat, b: nat): (r: nat)
    ensures r <= U32_MAX && (r < U32_MAX ==> r == a + b) && (a + b < U32_MAX ==> r < U32_MAX)
  {
    if a + b > U32_MAX then U32_MAX else a + b
  }

  /** base plus the choices of the first k child classes, saturating; None if one is unresolved. */
  function Accumulate(node: ENode, best: seq<Choice>, k: nat): Option<nat>
    requires k <= |node.children|
  {
    if k == 0 then Some(BaseCost(node.op))
    else
      var before := Accumulate(node, best, k - 1);
      var c := node.children[k - 1];
      if before.None? || c >= |best| || best[c].None? then None
      else Some(SatAdd(before.value, best[c].value.0))
  }

  function NodeCost(node: ENode, best: seq<Choice>): Option<nat> {
    Accumulate(node, best, |node.children|)
  }

  function Relaxed(node: ENode, best: seq<Choice>, old_: nat): nat {
    var c := NodeCost(node, best);
    if c.Some? && c.value < old_ then c.value else old_
  }

  function Relax(g: Graph, cost: seq<nat>, best: seq<Choice>): (r: seq<nat>)
    requires |cost| == |g.nodes|
    ensures |r| == |cost|
  {
    seq(|cost|, i requires 0 <= i < |cost| => Relaxed(g.nodes[i], best, cost[i]))
  }

  /** The better of two choices: lower cost, then lower node id. */
  function Better(a: Choice, k: nat, id: nat): Choice {
    if a.None? || k < a.value.0 || (k == a.value.0 && id < a.value.1) then Some((k, id)) else a
  }

  function Pick(cost: seq<nat>, members: seq<nat>): Choice {
    if members == [] then None
    else
      var before := Pick(cost, members[..|members| - 1]);
      var m := members[|members| - 1];
      if m < |cost| && cost[m] < U32_MAX then Better(before, cost[m], m) else before
  }

  function PickAll(g: Graph, cost: seq<nat>): (r: seq<Choice>)
    ensures |r| == |g.nodes|
  {
    seq(|g.nodes|, c requires 0 <= c < |g.nodes| => if c in g.classes then Pick(cost, g.classes[c]) else None)
  }

  lemma {:induction false} PickIsLeast(cost: seq<nat>, members: seq<nat>)
    requires forall m :: m in members ==> m < |cost|
    ensures match Pick(cost, members)
            case None => forall m :: m in members ==> cost[m] >= U32_MAX
            case Some((k, id)) =>
              && id in members && cost[id] == k < U32_MAX
              && forall m :: m in members ==> k < cost[m] || (k == cost[m] && id <= m)
  {
    if members != [] {
      var init := members[..|members| - 1];
      assert members == init + [members[|members| - 1]];
      assert forall m :: m in init ==> m in members;
      PickIsLeast(cost, init);
    }
  }

  // ---- Every recorded cost is the cost of a derivation ----

  ghost predicate Achieved(g: Graph, cost: seq<nat>) {
    && |cost| == |g.nodes|
    && forall i :: 0 <= i < |cost| ==>
         cost[i] <= U32_MAX && (cost[i] < U32_MAX ==> exists t :: Derives(g, t) && t.id == i && TreeCost(g, t) == cost[i])
  }

  lemma {:induction false} AccumulateAchieved(g: Graph, cost: seq<nat>, id: nat, k: nat) returns (kids: seq<Tree>)
    requires WellFormed(g) && Achieved(g, cost) && id < |g.nodes| && k <= |g.nodes[id].children|
    requires var c := Accumulate(g.nodes[id], PickAll(g, cost), k); c.Some? && c.value < U32_MAX
    ensures |kids| == k
    ensures forall i :: 0 <= i < k ==> Derives(g, kids[i]) && InClass(g, g.nodes[id].children[i], kids[i].id)
    ensures Accumulate(g.nodes[id], PickAll(g, cost), k).value == BaseCost(g.nodes[id].op) + KidsCost(g, kids)
  {
    if k == 0 {
      kids := [];
    } else {
      var before := AccumulateAchieved(g, cost, id, k - 1);
      var c := g.nodes[id].children[k - 1];
      PickIsLeast(cost, g.classes[c]);
      var m := PickAll(g, cost)[c].value.1;
      var t :| Derives(g, t) && t.id == m && TreeCost(g, t) == cost[m];
      kids := before + [t];
      assert kids[..k - 1] == before;
    }
  }

  lemma RelaxAchieved(g: Graph, cost: seq<nat>)
    requires WellFormed(g) && Achieved(g, cost)
    ensures Achieved(g, Relax(g, cost, PickAll(g, cost)))
  {
    var r := Relax(g, cost, PickAll(g, cost));
    forall i | 0 <= i < |r| && r[i] < cost[i]
      ensures exists t :: Derives(g, t) && t.id == i && TreeCost(g, t) == r[i]
    {
      var kids := AccumulateAchieved(g, cost, i, |g.nodes[i].children|);
      assert Derives(g, Tree(i, kids)) && TreeCost(g, Tree(i, kids)) == r[i];
    }
  }

  // ---- Rounds settle nodes in order of their cheapest cost ----

  /** No derivation rooted at id is cheaper than the recorded cost. */
  ghost predicate Settled(g: Graph, cost: seq<nat>, id: nat)
    requires id < |cost|
  {
    forall t :: Derives(g, t) && t.id == id ==> cost[id] <= TreeCost(g, t)
  }

  ghost predicate Violates(g: Graph, cost: seq<nat>, t: Tree) {
    |cost| == |g.nodes| && Derives(g, t) && TreeCost(g, t) < cost[t.id]
  }

  lemma {:induction false} LeastViolator(g: Graph, cost: seq<nat>, t: Tree) returns (m: Tree)
    requires Violates(g, cost, t)
    ensures Violates(g, cost, m)
    ensures forall u :: Violates(g, cost, u) ==> TreeCost(g, m) <= TreeCost(g, u)
    decreases TreeCost(g, t)
  {
    if u :| Violates(g, cost, u) && TreeCost(g, u) < TreeCost(g, t) {
      m := LeastViolator(g, cost, u);
    } else {
      m := t;
    }
  }

  lemma {:induction false} KidBelow(g: Graph, kids: seq<Tree>, i: nat)
    requires forall j :: 0 <= j < |kids| ==> Derives(g, kids[j])
    requires i < |kids|
    ensures TreeCost(g, kids[i]) <= KidsCost(g, kids)
    decreases |kids|
  {
    if i < |kids| - 1 {
      KidBelow(g, kids[..|kids| - 1], i);
    }
  }

  /** Class i of t's root has a choice no dearer than t's own kid. */
  ghost predicate Covers(g: Graph, best: seq<Choice>, t: Tree, i: nat)
    requires Derives(g, t) && i < |t.kids|
  {
    var c := g.nodes[t.id].children[i];
    c < |best| && best[c].Some? && best[c].value.0 <= TreeCost(g, t.kids[i])
  }

  /** If the choices are no dearer than the kids, nor is the accumulated cost. */
  lemma {:induction false} AccumulateBelow(g: Graph, best: seq<Choice>, t: Tree, k: nat)
    requires Derives(g, t) && k <= |t.kids|
    requires forall i :: 0 <= i < |t.kids| ==> Covers(g, best, t, i)
    ensures var c := Accumulate(g.nodes[t.id], best, k);
            c.Some? && c.value <= BaseCost(g.nodes[t.id].op) + KidsCost(g, t.kids[..k])
  {
    if k > 0 {
      AccumulateBelow(g, best, t, k - 1);
      assert Covers(g, best, t, k - 1);
      KidsCostStep(g, t.kids, k - 1);
    }
  }

  lemma KidsCostStep(g: Graph, kids: seq<Tree>, k: nat)
    requires k < |kids| && forall i :: 0 <= i < |kids| ==> Derives(g, kids[i])
    ensures KidsCost(g, kids[..k + 1]) == KidsCost(g, kids[..k]) + TreeCost(g, kids[k])
  {
    assert kids[..k + 1][..k] == kids[..k];
  }

  /** The choice for a kid's class costs no more than the kid. */
  lemma ChildPicked(g: Graph, cost: seq<nat>, t: Tree, i: nat)
    requires WellFormed(g) && |cost| == |g.nodes| && Derives(g, t) && i < |t.kids|
    requires cost[t.kids[i].id] <= TreeCost(g, t.kids[i]) < U32_MAX
    ensures Covers(g, PickAll(g, cost), t, i)
  {
    var c := g.nodes[t.id].children[i];
    assert InClass(g, c, t.kids[i].id);
    PickIsLeast(cost, g.classes[c]);
  }

  /** The cheapest violator is repaired by the next round, and its node is then settled. */
  lemma RoundSettles(g: Graph, cost: seq<nat>, t: Tree) returns (id: nat)
    requires WellFormed(g) && Achieved(g, cost) && Violates(g, cost, t)
    ensures id < |cost| && !Settled(g, cost, id) && Settled(g, Relax(g, cost, PickAll(g, cost)), id)
    ensures Relax(g, cost, PickAll(g, cost))[id] < cost[id]
  {
    var m := LeastViolator(g, cost, t);
    id := m.id;
    var r := Relax(g, cost, PickAll(g, cost));
    forall i | 0 <= i < |m.kids|
      ensures Covers(g, PickAll(g, cost), m, i)
    {
      KidBelow(g, m.kids, i);
      assert !Violates(g, cost, m.kids[i]);
      ChildPicked(g, cost, m, i);
    }
    AccumulateBelow(g, PickAll(g, cost), m, |m.kids|);
    assert m.kids[..|m.kids|] == m.kids;
    assert r[id] <= TreeCost(g, m) < cost[id];
    forall u | Derives(g, u) && u.id == id
      ensures r[id] <= TreeCost(g, u)
    {
      assert TreeCost(g, u) < cost[id] ==> Violates(g, cost, u);
    }
  }

  ghost function SettledSet(g: Graph, cost: seq<nat>): set<nat> {
    set id | id in Below(|cost|) && Settled(g, cost, id)
  }

  lemma AllSettled(g: Graph, cost: seq<nat>)
    requires |cost| == |g.nodes| && forall t :: !Violates(g, cost, t)
    ensures SettledSet(g, cost) == Below(|cost|)
  {
    forall id: nat | id < |cost|
      ensures Settled(g, cost, id)
    {
      forall t | Derives(g, t) && t.id == id
        ensures cost[id] <= TreeCost(g, t)
      {
        assert !Violates(g, cost, t);
      }
    }
  }

  /** A round settles at least one more node, unless all are settled. */
  lemma RoundProgress(g: Graph, cost: seq<nat>)
    requires WellFormed(g) && Achieved(g, cost)
    ensures var r := Relax(g, cost, PickAll(g, cost));
            || (SettledSet(g, cost) == Below(|cost|) && SettledSet(g, r) == Below(|cost|))
            || (r != cost && |SettledSet(g, r)| > |SettledSet(g, cost)|)
  {
    var r := Relax(g, cost, PickAll(g, cost));
    SettledStays(g, cost, r);
    if t :| Violates(g, cost, t) {
      var id := RoundSettles(g, cost, t);
      OneMore(SettledSet(g, cost), SettledSet(g, r), id);
    } else {
      AllSettled(g, cost);
      SubsetSize(SettledSet(g, r), Below(|cost|));
    }
  }

  lemma OneMore(a: set<nat>, b: set<nat>, x: nat)
    requires a <= b && x in b && x !in a
    ensures |a| < |b|
  {
    SubsetSize(a + {x}, b);
  }

  /** Costs only go down, so a settled node stays settled. */
  lemma SettledStays(g: Graph, cost: seq<nat>, r: seq<nat>)
    requires |r| == |cost| && forall i :: 0 <= i < |cost| ==> r[i] <= cost[i]
    ensures SettledSet(g, cost) <= SettledSet(g, r)
  {
  }

  // ---- The extraction loop ----

  /** A class that has a derivation below the saturation limit gets its cheapest one; a class
      that has none gets nothing. */
  ghost predicate Extracted(g: Graph, best: seq<Choice>) {
    && |best| == |g.nodes|
    && (forall c :: c in g.classes ==> c < |best|)
    && forall c :: c in g.classes ==>
         match best[c]
         case Some((k, id)) => k < U32_MAX && Cheapest(g, c, k, id)
         case None => forall t :: Derives(g, t) && InClass(g, c, t.id) ==> TreeCost(g, t) >= U32_MAX
  }

  method RelaxLoop(g: Graph, cost0: seq<nat>, best: seq<Choice>) returns (cost: seq<nat>, changed: bool)
    requires |cost0| == |g.nodes|
    ensures cost == Relax(g, cost0, best) && (changed <==> cost != cost0)
  {
    cost, changed := cost0, false;
    for id := 0 to |g.nodes|
      invariant |cost| == |cost0|
      invariant forall i :: 0 <= i < id ==> cost[i] == Relaxed(g.nodes[i], best, cost0[i])
      invariant forall i :: id <= i < |cost0| ==> cost[i] == cost0[i]
      invariant changed <==> exists i :: 0 <= i < id && cost[i] != cost0[i]
    {
      var c := NodeCost(g.nodes[id], best);
      if c.Some? && c.value < cost[id] {
        cost := cost[id := c.value];
        changed := true;
      }
    }
  }

  /** Rounds of relaxation until nothing changes, at most |nodes| + 1 of them. */
  method Extract(g: Graph) returns (best: seq<Choice>)
    requires WellFormed(g)
    ensures Extracted(g, best)
  {
    var n := |g.nodes|;
    var cost: seq<nat> := seq(n, _ => U32_MAX);
    best := seq(n, _ => None);
    NothingPicked(g, cost);
    assert best == PickAll(g, cost);
    var round := 0;
    while round <= n
      invariant 0 <= round <= n + 1
      invariant Achieved(g, cost) && best == PickAll(g, cost)
      invariant SettledSet(g, cost) == Below(n) || |SettledSet(g, cost)| >= round
    {
      RelaxAchieved(g, cost);
      RoundProgress(g, cost);
      var changed;
      cost, changed := RelaxLoop(g, cost, best);
      best := PickLoop(g, cost, best);
      if !changed {
        break;
      }
      round := round + 1;
    }
    SubsetSize(SettledSet(g, cost), Below(n));
    SettledIsCheapest(g, cost);
  }

  lemma NothingPicked(g: Graph, cost: seq<nat>)
    requires WellFormed(g) && |cost| == |g.nodes| && forall i :: 0 <= i < |cost| ==> cost[i] == U32_MAX
    ensures forall c :: 0 <= c < |g.nodes| ==> PickAll(g, cost)[c] == None
  {
    forall c | 0 <= c < |g.nodes| && c in g.classes
      ensures Pick(cost, g.classes[c]) == None
    {
      PickIsLeast(cost, g.classes[c]);
    }
  }

  lemma SettledIsCheapest(g: Graph, cost: seq<nat>)
    requires WellFormed(g) && Achieved(g, cost) && SettledSet(g, cost) == Below(|cost|)
    ensures Extracted(g, PickAll(g, cost))
  {
    forall c | c in g.classes
      ensures match PickAll(g, cost)[c]
              case Some((k, id)) => k < U32_MAX && Cheapest(g, c, k, id)
              case None => forall t :: Derives(g, t) && InClass(g, c, t.id) ==> TreeCost(g, t) >= U32_MAX
    {
      PickIsLeast(cost, g.classes[c]);
      forall t | Derives(g, t) && InClass(g, c, t.id)
        ensures cost[t.id] <= TreeCost(g, t)
      {
        assert t.id in Below(|cost|);
        assert Settled(g, cost, t.id);
      }
    }
  }

  /** The class-level update: scan the members of every class. */
  method PickLoop(g: Graph, cost: seq<nat>, best0: seq<Choice>) returns (best: seq<Choice>)
    requires WellFormed(g) && |cost| == |best0| == |g.nodes|
    requires forall c :: 0 <= c < |best0| && c !in g.classes ==> best0[c] == None
    ensures best == PickAll(g, cost)
  {
    best := best0;
    for c := 0 to |g.nodes|
      invariant |best| == |g.nodes|
      invariant forall i :: 0 <= i < c ==> best[i] == PickAll(g, cost)[i]
      invariant forall i :: c <= i < |best| ==> best[i] == best0[i]
    {
      if c in g.classes {
        var members := g.classes[c];
        var chosen: Choice := None;
        for j := 0 to |members|
          invariant chosen == Pick(cost, members[..j])
        {
          assert members[..j + 1][..j] == members[..j] && members[j] in members;
          if cost[members[j]] < U32_MAX {
            chosen := Better(chosen, cost[members[j]], members[j]);
          }
        }
        assert members[..|members|] == members;
        best := best[c := chosen];
      }
    }
  }

  // ---- Following the choices ----

  /** Every choice costs strictly more than the choices of its child classes. */
  lemma ChoicesDescend(g: Graph, best: seq<Choice>, c: nat, i: nat)
    requires Extracted(g, best) && c in g.classes && best[c].Some?
    requires best[c].value.1 < |g.nodes| && i < |g.nodes[best[c].value.1].children|
    ensures var d := g.nodes[best[c].value.1].children[i];
            d in g.classes && best[d].Some? && best[d].value.0 < best[c].value.0
  {
    var (k, id) := best[c].value;
    var t :| Derives(g, t) && t.id == id && TreeCost(g, t) == k;
    KidBelow(g, t.kids, i);
    assert InClass(g, g.nodes[id].children[i], t.kids[i].id);
  }

  /** The program the choices describe: the recursion terminates because costs descend. */
  ghost function Rebuild(g: Graph, best: seq<Choice>, c: nat): Tree
    requires Extracted(g, best) && c in g.classes && best[c].Some?
    decreases best[c].value.0
  {
    var id := best[c].value.1;
    assert Cheapest(g, c, best[c].value.0, id);
    var kids := seq(|g.nodes[id].children|, i requires 0 <= i < |g.nodes[id].children| =>
      ChoicesDescend(g, best, c, i); Rebuild(g, best, g.nodes[id].children[i]));
    Tree(id, kids)
  }

  lemma {:induction false} KidsNoDearer(g: Graph, a: seq<Tree>, b: seq<Tree>)
    requires |a| == |b| && forall i :: 0 <= i < |a| ==> Derives(g, a[i]) && Derives(g, b[i])
    requires forall i :: 0 <= i < |a| ==> TreeCost(g, a[i]) <= TreeCost(g, b[i])
    ensures KidsCost(g, a) <= KidsCost(g, b)
    decreases |a|
  {
    if a != [] {
      KidsNoDearer(g, a[..|a| - 1], b[..|b| - 1]);
    }
  }

  /** Rebuilding from the choices gives a derivation of the class at exactly the chosen cost. */
  lemma {:induction false} RebuildIsCheapest(g: Graph, best: seq<Choice>, c: nat)
    requires Extracted(g, best) && c in g.classes && best[c].Some?
    ensures Derives(g, Rebuild(g, best, c)) && Rebuild(g, best, c).id == best[c].value.1
    ensures TreeCost(g, Rebuild(g, best, c)) == best[c].value.0
    decreases best[c].value.0
  {
    var (k, id) := best[c].value;
    var r := Rebuild(g, best, c);
    var t :| Derives(g, t) && t.id == id && TreeCost(g, t) == k;
    forall i | 0 <= i < |r.kids|
      ensures Derives(g, r.kids[i]) && InClass(g, g.nodes[id].children[i], r.kids[i].id)
      ensures TreeCost(g, r.kids[i]) <= TreeCost(g, t.kids[i])
    {
      ChoicesDescend(g, best, c, i);
      RebuildIsCheapest(g, best, g.nodes[id].children[i]);
      ChosenNoDearer(g, best, t, i);
    }
    CheapestTree(g, r, t);
    assert Cheapest(g, c, k, id);
  }

  /** A class's choice is in the class and costs no more than any kid from it. */
  lemma ChosenNoDearer(g: Graph, best: seq<Choice>, t: Tree, i: nat)
    requires Extracted(g, best) && Derives(g, t) && i < |t.kids|
    requires var d := g.nodes[t.id].children[i]; d in g.classes && best[d].Some?
    ensures var d := g.nodes[t.id].children[i];
            InClass(g, d, best[d].value.1) && best[d].value.0 <= TreeCost(g, t.kids[i])
  {
  }

  /** A tree with the same root and no dearer kids is a derivation and no dearer. */
  lemma CheapestTree(g: Graph, r: Tree, t: Tree)
    requires Derives(g, t) && r.id == t.id && |r.kids| == |t.kids|
    requires forall i :: 0 <= i < |r.kids| ==> Derives(g, r.kids[i]) && InClass(g, g.nodes[t.id].children[i], r.kids[i].id)
    requires forall i :: 0 <= i < |r.kids| ==> TreeCost(g, r.kids[i]) <= TreeCost(g, t.kids[i])
    ensures Derives(g, r) && TreeCost(g, r) <= TreeCost(g, t)
  {
    KidsNoDearer(g, r.kids, t.kids);
  }
}
