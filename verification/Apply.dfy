/** Application of extraction choices to the program, in place. */
module Apply {
  import opened Options
  import opened EOps
  import opened UnionFind
  import opened Rules
  import opened EGraphs
  import opened Lift
  import Extract
  import Optimize

  /** Inputs have lower rank: the program is acyclic. */
  ghost predicate Ranked(arena: seq<XNode>, rank: seq<nat>) {
    && |rank| == |arena|
    && forall i :: 0 <= i < |arena| ==> InputsBelow(arena[i], rank, i)
  }

  ghost predicate InputsBelow(node: XNode, rank: seq<nat>, i: nat)
    requires i < |rank|
  {
    forall k :: 0 <= k < |node.inputs| ==> node.inputs[k] < |rank| && rank[node.inputs[k]] < rank[i]
  }

  lemma {:induction false} RunsAgreeAt(m: Meaning, e: Effects, arena: seq<XNode>, rank: seq<nat>, v: seq<Val>, w: seq<Val>, i: nat)
    requires Ranked(arena, rank) && RunOf(m, e, arena, v) && RunOf(m, e, arena, w) && i < |arena|
    ensures v[i] == w[i]
    decreases rank[i]
  {
    var node := arena[i];
    assert NodeValue(m, e, node, v, i) && NodeValue(m, e, node, w, i) && InputsBelow(node, rank, i);
    forall k | 0 <= k < |node.inputs|
      ensures v[node.inputs[k]] == w[node.inputs[k]]
    {
      RunsAgreeAt(m, e, arena, rank, v, w, node.inputs[k]);
    }
    assert Args(v, node.inputs) == Args(w, node.inputs);
  }

  /** An acyclic program has only one run. */
  lemma RunIsUnique(m: Meaning, e: Effects, arena: seq<XNode>, rank: seq<nat>, v: seq<Val>, w: seq<Val>)
    requires Ranked(arena, rank) && RunOf(m, e, arena, v) && RunOf(m, e, arena, w)
    ensures v == w
  {
    forall i | 0 <= i < |v|
      ensures v[i] == w[i]
    {
      RunsAgreeAt(m, e, arena, rank, v, w, i);
    }
  }

  // ---- One rewrite ----

  function Redirected(inputs: seq<nat>, from: nat, to: nat): (r: seq<nat>)
    ensures |r| == |inputs|
  {
    seq(|inputs|, k requires 0 <= k < |inputs| => if inputs[k] == from then to else inputs[k])
  }

  /** Every use of from becomes a use of to. */
  function WithUses(arena: seq<XNode>, from: nat, to: nat): (r: seq<XNode>)
    ensures |r| == |arena|
  {
    seq(|arena|, i requires 0 <= i < |arena| => arena[i].(inputs := Redirected(arena[i].inputs, from, to)))
  }

  /** Uses may be redirected to a direct input of equal value. */
  lemma RedirectKeeps(m: Meaning, e: Effects, arena: seq<XNode>, rank: seq<nat>, xval: seq<Val>, from: nat, to: nat)
    requires RunOf(m, e, arena, xval) && Ranked(arena, rank) && from < |arena| && to < |arena|
    requires to in arena[from].inputs && xval[to] == xval[from]
    ensures RunOf(m, e, WithUses(arena, from, to), xval) && Ranked(WithUses(arena, from, to), rank)
  {
    var after := WithUses(arena, from, to);
    assert InputsBelow(arena[from], rank, from);
    forall i | 0 <= i < |arena|
      ensures NodeValue(m, e, after[i], xval, i) && InputsBelow(after[i], rank, i)
    {
      assert NodeValue(m, e, arena[i], xval, i) && InputsBelow(arena[i], rank, i);
      assert Args(xval, after[i].inputs) == Args(xval, arena[i].inputs);
    }
  }

  /** A pure node may become the constant it evaluates to. */
  lemma FoldKeeps(m: Meaning, e: Effects, arena: seq<XNode>, rank: seq<nat>, xval: seq<Val>, x: nat, op: Op, ty: Type)
    requires RunOf(m, e, arena, xval) && Ranked(arena, rank) && x < |arena|
    requires ConstOf(op).Some? && Eval(m, op, []) == xval[x]
    ensures RunOf(m, e, arena[x := XNode(op, [], ty)], xval) && Ranked(arena[x := XNode(op, [], ty)], rank)
  {
  }

  /** What a sequence of rewrites may do to the program text. */
  ghost predicate OnlyFolded(before: seq<XNode>, after: seq<XNode>) {
    && |after| == |before|
    && forall i :: 0 <= i < |before| ==>
         && after[i].ty == before[i].ty
         && (|| (after[i].op == before[i].op && |after[i].inputs| == |before[i].inputs|)
             || (before[i].op.Binary? && ConstOf(after[i].op).Some? && after[i].inputs == []))
  }

  lemma OnlyFoldedTrans(a: seq<XNode>, b: seq<XNode>, c: seq<XNode>)
    requires OnlyFolded(a, b) && OnlyFolded(b, c)
    ensures OnlyFolded(a, c)
  {
  }

  // ---- What the pass does to the program, as functions ----

  predicate Foldable(nodes: seq<XNode>, x: nat, op: Op) {
    && x < |nodes| && nodes[x].op.Binary? && ConstOf(op).Some?
    && nodes[x].ty == Scalar(if op.ConstI64? then I64 else F64)
  }

  predicate Replaceable(nodes: seq<XNode>, x: nat, y: nat) {
    && x < |nodes| && y < |nodes| && Pure(nodes[y].op)
    && nodes[x].ty == nodes[y].ty && y in nodes[x].inputs
  }

  /** One record's rewrite: fold to a chosen constant, else redirect to the chosen node's origin. */
  function Applied(nodes: seq<XNode>, x: nat, op: Op, target: Option<nat>): (r: seq<XNode>)
    ensures |r| == |nodes|
  {
    if target.None? || (target.value != x && ConstOf(op).Some?) then
      if Foldable(nodes, x, op) then nodes[x := XNode(op, [], nodes[x].ty)] else nodes
    else if target.value != x && Replaceable(nodes, x, target.value) then WithUses(nodes, x, target.value)
    else nodes
  }

  /** Whether one record's rewrite is a fold, or whether it is an identity. */
  ghost predicate IsFold(nodes: seq<XNode>, x: nat, op: Op, target: Option<nat>) {
    (target.None? || (target.value != x && ConstOf(op).Some?)) && Foldable(nodes, x, op)
  }

  ghost predicate IsIdentity(nodes: seq<XNode>, x: nat, op: Op, target: Option<nat>) {
    target.Some? && target.value != x && ConstOf(op).None? && Replaceable(nodes, x, target.value)
  }

  /** The chosen e-node's operation and origin for a record's class. */
  function ChoiceOf(best: seq<Extract.Choice>, roots: seq<nat>, classOf: seq<Option<nat>>, enodes: seq<ENode>,
                    xirOf: seq<Option<nat>>, rec: Record): Option<(Op, Option<nat>)> {
    if rec.node >= |classOf| || classOf[rec.node].None? || classOf[rec.node].value >= |roots| then None
    else
      var own := roots[classOf[rec.node].value];
      if own >= |best| || best[own].None? then None
      else
        var id := best[own].value.1;
        if id < |enodes| && id < |xirOf| then Some((enodes[id].op, xirOf[id])) else None
  }

  function ChoicesOf(best: seq<Extract.Choice>, roots: seq<nat>, classOf: seq<Option<nat>>, enodes: seq<ENode>,
                     xirOf: seq<Option<nat>>, recs: seq<Record>): (r: seq<Option<(Op, Option<nat>)>>)
    ensures |r| == |recs|
  {
    seq(|recs|, i requires 0 <= i < |recs| => ChoiceOf(best, roots, classOf, enodes, xirOf, recs[i]))
  }

  function AppliedOne(nodes: seq<XNode>, rec: Record, choice: Option<(Op, Option<nat>)>): (r: seq<XNode>)
    ensures |r| == |nodes|
  {
    if choice.None? then nodes else Applied(nodes, rec.node, choice.value.0, choice.value.1)
  }

  /** The records in the given order, each rewritten on what the earlier ones left. */
  function AppliedAll(nodes: seq<XNode>, recs: seq<Record>, order: seq<nat>, choices: seq<Option<(Op, Option<nat>)>>): (r: seq<XNode>)
    requires |choices| == |recs| && forall k :: 0 <= k < |order| ==> order[k] < |recs|
    ensures |r| == |nodes|
    decreases |order|
  {
    if order == [] then nodes
    else
      var before := AppliedAll(nodes, recs, order[..|order| - 1], choices);
      var i := order[|order| - 1];
      AppliedOne(before, recs[i], choices[i])
  }

  ghost function CountOne(nodes: seq<XNode>, rec: Record, choice: Option<(Op, Option<nat>)>, fold: bool): nat {
    if choice.Some? && (if fold then IsFold(nodes, rec.node, choice.value.0, choice.value.1)
                        else IsIdentity(nodes, rec.node, choice.value.0, choice.value.1)) then 1 else 0
  }

  /** The number of folds, or of identities, among all rewrites. */
  ghost function CountAll(nodes: seq<XNode>, recs: seq<Record>, order: seq<nat>, choices: seq<Option<(Op, Option<nat>)>>, fold: bool): nat
    requires |choices| == |recs| && forall k :: 0 <= k < |order| ==> order[k] < |recs|
    decreases |order|
  {
    if order == [] then 0
    else
      var front, i := order[..|order| - 1], order[|order| - 1];
      CountAll(nodes, recs, front, choices, fold) + CountOne(AppliedAll(nodes, recs, front, choices), recs[i], choices[i], fold)
  }

  lemma CountStep(nodes: seq<XNode>, recs: seq<Record>, order: seq<nat>, k: nat, choices: seq<Option<(Op, Option<nat>)>>, fold: bool)
    requires |choices| == |recs| && k < |order| && forall j :: 0 <= j < |order| ==> order[j] < |recs|
    ensures CountAll(nodes, recs, order[..k + 1], choices, fold)
            == CountAll(nodes, recs, order[..k], choices, fold)
               + CountOne(AppliedAll(nodes, recs, order[..k], choices), recs[order[k]], choices[order[k]], fold)
  {
    assert order[..k + 1][..k] == order[..k];
  }

  class Arena {
    var nodes: seq<XNode>

    constructor (ns: seq<XNode>)
      ensures nodes == ns
    {
      nodes := ns;
    }

    /** fold_in_place: only a binary node of the constant's own scalar type is folded. */
    method FoldInPlace(x: nat, op: Op) returns (folded: bool)
      modifies this
      ensures folded <==> Foldable(old(nodes), x, op)
      ensures nodes == if folded then old(nodes)[x := XNode(op, [], old(nodes)[x].ty)] else old(nodes)
    {
      if x >= |nodes| || !nodes[x].op.Binary? || ConstOf(op).None? {
        return false;
      }
      var ty := Scalar(if op.ConstI64? then I64 else F64);
      if nodes[x].ty != ty {
        return false;
      }
      nodes := nodes[x := XNode(op, [], ty)];
      folded := true;
    }

    method ReplaceUses(from: nat, to: nat)
      modifies this
      ensures nodes == WithUses(old(nodes), from, to)
    {
      for i := 0 to |nodes|
        invariant |nodes| == |old(nodes)|
        invariant forall j :: 0 <= j < i ==> nodes[j] == WithUses(old(nodes), from, to)[j]
        invariant forall j :: i <= j < |nodes| ==> nodes[j] == old(nodes)[j]
      {
        nodes := nodes[i := nodes[i].(inputs := Redirected(nodes[i].inputs, from, to))];
      }
    }

    /** rewrite_uses_if_direct_input: y must be a pure direct input of x of the same type. */
    method RewriteUses(x: nat, y: nat) returns (applied: bool)
      modifies this
      ensures applied <==> Replaceable(old(nodes), x, y)
      ensures nodes == if applied then WithUses(old(nodes), x, y) else old(nodes)
    {
      if x >= |nodes| || y >= |nodes| || !Pure(nodes[y].op) || nodes[x].ty != nodes[y].ty || y !in nodes[x].inputs {
        return false;
      }
      ReplaceUses(x, y);
      applied := true;
    }

    /** One record: fold or redirect as the chosen e-node of its class says. */
    method ApplyChoice(ghost m: Meaning, ghost e: Effects, ghost rank: seq<nat>, ghost xval: seq<Val>,
                       x: nat, chosenOp: Op, target: Option<nat>) returns (folds: nat, identities: nat)
      requires RunOf(m, e, nodes, xval) && Ranked(nodes, rank) && x < |nodes|
      requires ConstOf(chosenOp).Some? ==> Eval(m, chosenOp, []) == xval[x]
      requires target.Some? ==> target.value < |xval| && xval[target.value] == xval[x]
      modifies this
      ensures RunOf(m, e, nodes, xval) && Ranked(nodes, rank) && OnlyFolded(old(nodes), nodes)
      ensures nodes == Applied(old(nodes), x, chosenOp, target) 
      ensures folds == (if IsFold(old(nodes), x, chosenOp, target) then 1 else 0)
      ensures identities == (if IsIdentity(old(nodes), x, chosenOp, target) then 1 else 0)
    {
      folds, identities := 0, 0;
      if target.None? || (target.value != x && ConstOf(chosenOp).Some?) {
        folds := TryFold(m, e, rank, xval, x, chosenOp);
      } else if target.value != x {
        identities := TryRedirect(m, e, rank, xval, x, target.value);
      }
    }

    method TryFold(ghost m: Meaning, ghost e: Effects, ghost rank: seq<nat>, ghost xval: seq<Val>, x: nat, op: Op) returns (folds: nat)
      requires RunOf(m, e, nodes, xval) && Ranked(nodes, rank) && x < |nodes|
      requires ConstOf(op).Some? ==> Eval(m, op, []) == xval[x]
      modifies this
      ensures RunOf(m, e, nodes, xval) && Ranked(nodes, rank) && OnlyFolded(old(nodes), nodes)
      ensures folds == if Foldable(old(nodes), x, op) then 1 else 0
      ensures nodes == if folds == 1 then old(nodes)[x := XNode(op, [], old(nodes)[x].ty)] else old(nodes)
    {
      folds := 0;
      var folded := FoldInPlace(x, op);
      if folded {
        FoldKeeps(m, e, old(nodes), rank, xval, x, op, old(nodes)[x].ty);
        folds := 1;
      }
    }

    method TryRedirect(ghost m: Meaning, ghost e: Effects, ghost rank: seq<nat>, ghost xval: seq<Val>, x: nat, y: nat)
      returns (identities: nat)
      requires RunOf(m, e, nodes, xval) && Ranked(nodes, rank) && x < |nodes| && y < |xval| && xval[y] == xval[x]
      modifies this
      ensures RunOf(m, e, nodes, xval) && Ranked(nodes, rank) && OnlyFolded(old(nodes), nodes)
      ensures identities == if Replaceable(old(nodes), x, y) then 1 else 0
      ensures nodes == if identities == 1 then WithUses(old(nodes), x, y) else old(nodes)
    {
      identities := 0;
      var applied := RewriteUses(x, y);
      if applied {
        RedirectKeeps(m, e, old(nodes), rank, xval, x, y);
        identities := 1;
      }
    }

    /** The rewrite of a record whose class has a choice; nothing otherwise. */
    method ApplyIfAny(ghost m: Meaning, ghost e: Effects, ghost rank: seq<nat>, ghost xval: seq<Val>,
                      rec: Record, choice: Option<(Op, Option<nat>)>) returns (folds: nat, identities: nat)
      requires RunOf(m, e, nodes, xval) && Ranked(nodes, rank) && rec.node < |nodes|
      requires choice.Some? && ConstOf(choice.value.0).Some? ==> Eval(m, choice.value.0, []) == xval[rec.node]
      requires choice.Some? && choice.value.1.Some? ==>
                 choice.value.1.value < |xval| && xval[choice.value.1.value] == xval[rec.node]
      modifies this
      ensures RunOf(m, e, nodes, xval) && Ranked(nodes, rank) && OnlyFolded(old(nodes), nodes)
      ensures nodes == AppliedOne(old(nodes), rec, choice) 
      ensures folds == CountOne(old(nodes), rec, choice, true) && identities == CountOne(old(nodes), rec, choice, false)
    {
      folds, identities := 0, 0;
      if choice.Some? {
        folds, identities := ApplyChoice(m, e, rank, xval, rec.node, choice.value.0, choice.value.1);
      }
    }
  }

  lemma AppliedStep(nodes: seq<XNode>, recs: seq<Record>, order: seq<nat>, k: nat, choices: seq<Option<(Op, Option<nat>)>>)
    requires |choices| == |recs| && k < |order| && forall j :: 0 <= j < |order| ==> order[j] < |recs|
    ensures AppliedAll(nodes, recs, order[..k + 1], choices)
            == AppliedOne(AppliedAll(nodes, recs, order[..k], choices), recs[order[k]], choices[order[k]])
  {
    assert order[..k + 1][..k] == order[..k];
  }

  // ---- The whole pass ----

  /** By slot, records of one slot in the order they were made. */
  ghost predicate Earlier(recs: seq<Record>, a: nat, b: nat)
    requires a < |recs| && b < |recs|
  {
    recs[a].node < recs[b].node || (recs[a].node == recs[b].node && a < b)
  }

  ghost predicate InNodeOrder(recs: seq<Record>, order: seq<nat>) {
    && (forall k :: 0 <= k < |order| ==> order[k] < |recs|)
    && (forall j, k :: 0 <= j < k < |order| ==> Earlier(recs, order[j], order[k]))
  }

  /** Put record i behind the records of the same or a lower slot. */
  function InsertByNode(recs: seq<Record>, order: seq<nat>, i: nat): (r: seq<nat>)
    requires i < |recs| && forall k :: 0 <= k < |order| ==> order[k] < |recs|
    ensures |r| == |order| + 1 && forall y :: y in r <==> y in order || y == i
  {
    if order == [] || recs[order[|order| - 1]].node <= recs[i].node then order + [i]
    else
      assert order == order[..|order| - 1] + [order[|order| - 1]];
      InsertByNode(recs, order[..|order| - 1], i) + [order[|order| - 1]]
  }

  lemma OrderFront(recs: seq<Record>, order: seq<nat>)
    requires InNodeOrder(recs, order) && order != []
    ensures InNodeOrder(recs, order[..|order| - 1])
    ensures forall y :: y in order[..|order| - 1] ==> y in order && y < |recs| && Earlier(recs, y, order[|order| - 1])
  {
  }

  lemma OrderAppend(recs: seq<Record>, order: seq<nat>, i: nat)
    requires InNodeOrder(recs, order) && i < |recs| && forall y :: y in order ==> y < |recs| && Earlier(recs, y, i)
    ensures InNodeOrder(recs, order + [i])
  {
    forall j | 0 <= j < |order|
      ensures Earlier(recs, order[j], i)
    {
      assert order[j] in order;
    }
  }

  /** Inserting the newest record keeps the order. */
  lemma {:induction false} InsertKeepsOrder(recs: seq<Record>, order: seq<nat>, i: nat)
    requires InNodeOrder(recs, order) && i < |recs| && forall y :: y in order ==> y < i
    ensures InNodeOrder(recs, InsertByNode(recs, order, i))
    decreases |order|
  {
    if order == [] {
      OrderAppend(recs, order, i);
    } else {
      var front, last := order[..|order| - 1], order[|order| - 1];
      assert last in order && order == front + [last];
      assert forall y :: y in front ==> y in order;
      OrderFront(recs, order);
      if recs[last].node <= recs[i].node {
        OrderAppend(recs, order, i);
      } else {
        InsertKeepsOrder(recs, front, i);
        OrderAppend(recs, InsertByNode(recs, front, i), last);
      }
    }
  }

  /** order lists every record once, by slot. */
  ghost predicate SlotOrder(recs: seq<Record>, order: seq<nat>) {
    |order| == |recs| && InNodeOrder(recs, order) && forall i :: 0 <= i < |recs| ==> i in order
  }

  /** The stable sort of the records by slot. */
  method SortByNode(recs: seq<Record>) returns (order: seq<nat>)
    ensures SlotOrder(recs, order)
  {
    order := [];
    for i := 0 to |recs|
      invariant InNodeOrder(recs, order) && |order| == i && forall k :: k in order <==> 0 <= k < i
    {
      InsertKeepsOrder(recs, order, i);
      order := InsertByNode(recs, order, i);
    }
  }

  /** The value and origin of the e-node chosen for a lifted node's class. */
  lemma ChosenValue(m: Meaning, nodes: seq<ENode>, classes: map<nat, seq<nat>>, roots: seq<nat>, val: seq<Val>,
                    best: seq<Extract.Choice>, c: nat, x: Val)
    requires Values(m, nodes, val) && Sound(roots, val) && Partition(roots, classes, |nodes|) && Canonical(roots, |nodes|)
    requires Extract.Extracted(Extract.Graph(nodes, classes), best)
    requires c < |nodes| && val[c] == x && best[roots[c]].Some?
    ensures var id := best[roots[c]].value.1;
            id < |nodes| && val[id] == x && (ConstOf(nodes[id].op).Some? ==> Eval(m, nodes[id].op, []) == x)
  {
    var own := roots[c];
    var id := best[own].value.1;
    assert Extract.Cheapest(Extract.Graph(nodes, classes), own, best[own].value.0, id);
    assert MembersOf(roots, |nodes|, own, classes[own]);
    assert ValueAt(m, nodes, val, id) && SoundAt(roots, val, id) && SoundAt(roots, val, c);
  }

  /** apply: saturate, extract, then rewrite record by record in slot order. The program's one
      run is still its one run, only binary nodes were turned into constants, and every record was
      treated once as the cheapest choice of its class says. */
  method ApplyAll(arena: Arena, budget: nat, hash: ENode -> nat, float: (BinaryOp, nat, nat) -> nat,
                  ghost m: Meaning, ghost e: Effects, ghost xval: seq<Val>, ghost rank: seq<nat>)
    returns (r: Result<(nat, nat)>, lg: LiftedGraph, best: seq<Extract.Choice>, order: seq<nat>, ghost marks: seq<Mark>)
    requires m.float == float && RunOf(m, e, arena.nodes, xval) && AllAdmissible(arena.nodes, xval) && Ranked(arena.nodes, rank)
    modifies arena
    ensures RunOf(m, e, arena.nodes, xval) && Ranked(arena.nodes, rank) && OnlyFolded(old(arena.nodes), arena.nodes)
    ensures fresh(lg) && lg.Valid()
    ensures r.Err? ==> arena.nodes == old(arena.nodes)
    ensures r.Ok? ==>
              && lg.Saturated(old(arena.nodes), marks) && Extract.Extracted(Extract.Graph(lg.g.nodes, lg.g.classes), best)
              && SlotOrder(lg.recs, order)
              && var choices := ChoicesOf(best, Roots(lg.g.uf.parent), lg.nodeClass, lg.g.nodes, lg.xirOf, lg.recs);
                 && arena.nodes == AppliedAll(old(arena.nodes), lg.recs, order, choices)
                 && r.value == (CountAll(old(arena.nodes), lg.recs, order, choices, true), CountAll(old(arena.nodes), lg.recs, order, choices, false))
  {
    var saturated;
    lg, saturated, marks := Saturate(arena.nodes, budget, hash, float, m, e, xval);
    best, order := [], [];
    if saturated.Err? {
      return Err(saturated.error), lg, best, order, marks;
    }
    var graph := Extract.Graph(lg.g.nodes, lg.g.classes);
    Optimize.WellFormedGraph(lg.g.nodes, lg.g.classes, Roots(lg.g.uf.parent));
    best := Extract.Extract(graph);
    order := SortByNode(lg.recs);
    var counts := ApplyChoices(arena, lg, best, order, m, e, rank);
    r := Ok(counts);
  }

  method ApplyChoices(arena: Arena, lg: LiftedGraph, best: seq<Extract.Choice>, order: seq<nat>,
                      ghost m: Meaning, ghost e: Effects, ghost rank: seq<nat>) returns (counts: (nat, nat))
    requires lg.Valid() && lg.m == m && RunOf(m, e, arena.nodes, lg.xval) && Ranked(arena.nodes, rank)
    requires Extract.Extracted(Extract.Graph(lg.g.nodes, lg.g.classes), best)
    requires forall k :: 0 <= k < |order| ==> order[k] < |lg.recs|
    modifies arena, lg.g.uf
    ensures lg.Valid() && Roots(lg.g.uf.parent) == Roots(old(lg.g.uf.parent))
    ensures RunOf(m, e, arena.nodes, lg.xval) && Ranked(arena.nodes, rank) && OnlyFolded(old(arena.nodes), arena.nodes)
    ensures var choices := ChoicesOf(best, Roots(old(lg.g.uf.parent)), lg.nodeClass, lg.g.nodes, lg.xirOf, lg.recs);
            && arena.nodes == AppliedAll(old(arena.nodes), lg.recs, order, choices)
            && counts == (CountAll(old(arena.nodes), lg.recs, order, choices, true), CountAll(old(arena.nodes), lg.recs, order, choices, false))
  {
    var folds, identities := 0, 0;
    ghost var start := arena.nodes;
    ghost var choices := ChoicesOf(best, Roots(lg.g.uf.parent), lg.nodeClass, lg.g.nodes, lg.xirOf, lg.recs);
    RewrittenStart(start, lg.recs, order, choices);
    for k := 0 to |order|
      invariant lg.Valid() && Roots(lg.g.uf.parent) == Roots(old(lg.g.uf.parent))
      invariant RunOf(m, e, arena.nodes, lg.xval) && Ranked(arena.nodes, rank) && OnlyFolded(start, arena.nodes)
      invariant RewrittenTo(start, lg.recs, order, k, choices, arena.nodes, folds, identities)
    {
      ghost var before := arena.nodes;
      var f, i := ApplyRecord(arena, lg, best, order[k], m, e, rank);
      OnlyFoldedTrans(start, before, arena.nodes);
      RewrittenStep(start, lg.recs, order, k, choices, before, folds, identities, arena.nodes, f, i);
      folds, identities := folds + f, identities + i;
    }
    assert order[..|order|] == order;
    counts := (folds, identities);
  }

  /** The first k rewrites have been made and counted. */
  ghost predicate RewrittenTo(start: seq<XNode>, recs: seq<Record>, order: seq<nat>, k: nat, choices: seq<Option<(Op, Option<nat>)>>,
                              nodes: seq<XNode>, folds: nat, identities: nat) {
    && k <= |order| && |choices| == |recs| && (forall j :: 0 <= j < |order| ==> order[j] < |recs|)
    && nodes == AppliedAll(start, recs, order[..k], choices)
    && folds == CountAll(start, recs, order[..k], choices, true) && identities == CountAll(start, recs, order[..k], choices, false)
  }

  lemma RewrittenStart(start: seq<XNode>, recs: seq<Record>, order: seq<nat>, choices: seq<Option<(Op, Option<nat>)>>)
    requires |choices| == |recs| && forall j :: 0 <= j < |order| ==> order[j] < |recs|
    ensures RewrittenTo(start, recs, order, 0, choices, start, 0, 0)
  {
  }

  lemma RewrittenStep(start: seq<XNode>, recs: seq<Record>, order: seq<nat>, k: nat, choices: seq<Option<(Op, Option<nat>)>>,
                      before: seq<XNode>, folds: nat, identities: nat, after: seq<XNode>, f: nat, i: nat)
    requires RewrittenTo(start, recs, order, k, choices, before, folds, identities) && k < |order|
    requires after == AppliedOne(before, recs[order[k]], choices[order[k]])
    requires f == CountOne(before, recs[order[k]], choices[order[k]], true) && i == CountOne(before, recs[order[k]], choices[order[k]], false)
    ensures RewrittenTo(start, recs, order, k + 1, choices, after, folds + f, identities + i)
  {
    AppliedStep(start, recs, order, k, choices);
    CountStep(start, recs, order, k, choices, true);
    CountStep(start, recs, order, k, choices, false);
  }

  method ApplyRecord(arena: Arena, lg: LiftedGraph, best: seq<Extract.Choice>, i: nat,
                     ghost m: Meaning, ghost e: Effects, ghost rank: seq<nat>) returns (folds: nat, identities: nat)
    requires lg.Valid() && lg.m == m && RunOf(m, e, arena.nodes, lg.xval) && Ranked(arena.nodes, rank) && i < |lg.recs|
    requires Extract.Extracted(Extract.Graph(lg.g.nodes, lg.g.classes), best)
    modifies arena, lg.g.uf`parent
    ensures lg.Valid() && Roots(lg.g.uf.parent) == Roots(old(lg.g.uf.parent))
    ensures RunOf(m, e, arena.nodes, lg.xval) && Ranked(arena.nodes, rank) && OnlyFolded(old(arena.nodes), arena.nodes)
    ensures var c := ChoiceOf(best, Roots(old(lg.g.uf.parent)), lg.nodeClass, lg.g.nodes, lg.xirOf, lg.recs[i]);
            && arena.nodes == AppliedOne(old(arena.nodes), lg.recs[i], c)
            && folds == CountOne(old(arena.nodes), lg.recs[i], c, true) && identities == CountOne(old(arena.nodes), lg.recs[i], c, false)
  {
    var rec := lg.recs[i];
    assert RecordOk(m, lg.val, lg.nodeClass, rec);
    var choice := ChoiceFor(lg, best, rec);
    folds, identities := arena.ApplyIfAny(m, e, rank, lg.xval, rec, choice);
  }

  /** The operation of the e-node chosen for a record's class and the program node it came from. */
  method ChoiceFor(lg: LiftedGraph, best: seq<Extract.Choice>, rec: Record) returns (r: Option<(Op, Option<nat>)>)
    requires lg.Valid() && RecordOk(lg.m, lg.val, lg.nodeClass, rec)
    requires Extract.Extracted(Extract.Graph(lg.g.nodes, lg.g.classes), best)
    modifies lg.g.uf`parent
    ensures lg.Valid() && Roots(lg.g.uf.parent) == Roots(old(lg.g.uf.parent))
    ensures r == ChoiceOf(best, Roots(lg.g.uf.parent), lg.nodeClass, lg.g.nodes, lg.xirOf, rec)
    ensures r.Some? && ConstOf(r.value.0).Some? ==> Eval(lg.m, r.value.0, []) == lg.xval[rec.node]
    ensures r.Some? && r.value.1.Some? ==>
              r.value.1.value < |lg.xval| && lg.xval[r.value.1.value] == lg.xval[rec.node]
  {
    var class_ := lg.nodeClass[rec.node].value;
    var own := lg.g.Canon(class_);
    if best[own.value].None? {
      return None;
    }
    ChosenValue(lg.m, lg.g.nodes, lg.g.classes, Roots(lg.g.uf.parent), lg.val, best, class_, lg.xval[rec.node]);
    var chosen := best[own.value].value.1;
    r := Some((lg.g.nodes[chosen].op, lg.xirOf[chosen]));
  }
}
