/** Lifting a program's pure nodes into an e-graph and saturating it in rounds. */
module Lift {
  import opened Options
  import opened EOps
  import opened UnionFind
  import opened Rules
  import opened EGraphs

  const MAX_ROUNDS := 4

  // ---- The program the e-graph is lifted from ----

  datatype Type = Scalar(s: ScalarType) | Shaped(elem: ScalarType, attr: nat) | Untracked

  datatype XNode = XNode(op: Op, inputs: seq<nat>, ty: Type)

  function ElemOf(ty: Type): Option<ScalarType> {
    match ty
    case Scalar(s) => Some(s)
    case Shaped(elem, _) => Some(elem)
    case Untracked => None
  }

  predicate Pure(op: Op) {
    match op
    case FusionBarrier | FusionMaterialize | LoopAlloc(_) | LoopAsyncCopy | LoopPipelineStage(_)
    | TargetBarrier | TargetWarpShuffle | TargetMma | Rng(_) | If | Custom(_) => false
    case _ => true
  }

  /** What depends on nothing but its operands: constants, parameters, arithmetic, tensor
      operations and the two structural operations. */
  lemma PureOps(op: Op)
    ensures Pure(op) <==>
            || op.ConstI64? || op.ConstF64? || op.Param? || op.Binary? || op.Unary? || op.Dot? || op.Reduce?
            || op.Transpose? || op.Broadcast? || op.Matmul? || op.Conv? || op.FusionCluster? || op.LoopParallel?
  {
  }

  predicate InputsExist(node: XNode, n: nat) {
    forall k :: 0 <= k < |node.inputs| ==> node.inputs[k] < n
  }

  /** What an effectful node yields may depend on the node itself as well as on its inputs. */
  type Effects = (nat, Op, seq<Val>) -> Val

  ghost predicate NodeValue(m: Meaning, e: Effects, node: XNode, xval: seq<Val>, i: nat) {
    && InputsExist(node, |xval|) && i < |xval|
    && xval[i] == if Pure(node.op) then Eval(m, node.op, Args(xval, node.inputs)) else e(i, node.op, Args(xval, node.inputs))
  }

  /** xval is a run of the program: every node has the value of its operation on its inputs. */
  ghost predicate RunOf(m: Meaning, e: Effects, arena: seq<XNode>, xval: seq<Val>) {
    |xval| == |arena| && forall i :: 0 <= i < |arena| ==> NodeValue(m, e, arena[i], xval, i)
  }

  /** The operand values of the run are ones the rules are right about, node by node. */
  ghost predicate AllAdmissible(arena: seq<XNode>, xval: seq<Val>) {
    && |xval| == |arena|
    && forall i :: 0 <= i < |arena| ==>
         InputsExist(arena[i], |xval|) && Admissible(arena[i].op, ElemOf(arena[i].ty), Args(xval, arena[i].inputs))
  }

  // ---- Lifted state ----

  datatype Record = Record(node: nat, op: Op, children: seq<nat>, elem: Option<ScalarType>)

  /** A record describes its node: the node's class has the value of the operation on the
      children, and the operands are admissible. */
  ghost predicate RecordOk(m: Meaning, val: seq<Val>, classOf: seq<Option<nat>>, rec: Record) {
    && rec.node < |classOf| && classOf[rec.node].Some? && classOf[rec.node].value < |val|
    && |rec.children| <= MAX_CHILDREN
    && (forall k :: 0 <= k < |rec.children| ==> rec.children[k] < |val|)
    && Admissible(rec.op, rec.elem, Args(val, rec.children))
    && val[classOf[rec.node].value] == Eval(m, rec.op, Args(val, rec.children))
  }

  ghost predicate RecordsOk(m: Meaning, val: seq<Val>, classOf: seq<Option<nat>>, recs: seq<Record>) {
    forall i :: 0 <= i < |recs| ==> RecordOk(m, val, classOf, recs[i])
  }

  /** Nodes and the classes or e-nodes they correspond to have the same value. */
  ghost predicate Tied(val: seq<Val>, table: seq<Option<nat>>, xval: seq<Val>) {
    |table| == |xval| && forall x :: 0 <= x < |table| && table[x].Some? ==> table[x].value < |val| && val[table[x].value] == xval[x]
  }

  /** Known constants are true of their classes. */
  ghost predicate ConstsTrue(val: seq<Val>, consts: seq<Option<ConstVal>>) {
    forall c :: 0 <= c < |consts| && consts[c].Some? ==> c < |val| && Truthful(consts[c], val[c])
  }

  /** E-nodes that come from program nodes have their values. */
  ghost predicate OriginsOk(xirOf: seq<Option<nat>>, val: seq<Val>, xval: seq<Val>) {
    |xirOf| <= |val| && forall i :: 0 <= i < |xirOf| && xirOf[i].Some? ==> xirOf[i].value < |xval| && val[i] == xval[xirOf[i].value]
  }

  /** A fired rule claims the value its node's class has. */
  ghost predicate RewriteOk(val: seq<Val>, own: nat, rw: Option<Rewrite>) {
    rw.Some? ==>
      && own < |val| && (rw.value.PassThrough? ==> rw.value.child < |val|)
      && Claimed(val, rw.value) == val[own]
  }

  ghost predicate RewritesOk(val: seq<Val>, classOf: seq<Option<nat>>, recs: seq<Record>, rewrites: seq<Option<Rewrite>>) {
    && |rewrites| <= |recs|
    && forall i :: 0 <= i < |rewrites| ==>
         && recs[i].node < |classOf| && classOf[recs[i].node].Some?
         && RewriteOk(val, classOf[recs[i].node].value, rewrites[i])
  }

  lemma RewritesAppend(val: seq<Val>, classOf: seq<Option<nat>>, recs: seq<Record>, rewrites: seq<Option<Rewrite>>, rw: Option<Rewrite>)
    requires RewritesOk(val, classOf, recs, rewrites) && |rewrites| < |recs|
    requires var x := recs[|rewrites|].node; x < |classOf| && classOf[x].Some? && RewriteOk(val, classOf[x].value, rw)
    ensures RewritesOk(val, classOf, recs, rewrites + [rw])
  {
  }

  lemma RewritesGrow(val: seq<Val>, more: seq<Val>, classOf: seq<Option<nat>>, recs: seq<Record>, rewrites: seq<Option<Rewrite>>)
    requires RewritesOk(val, classOf, recs, rewrites) && val <= more
    ensures RewritesOk(more, classOf, recs, rewrites)
  {
  }

  lemma RecordGrows(m: Meaning, val: seq<Val>, more: seq<Val>, classOf: seq<Option<nat>>, rec: Record)
    requires RecordOk(m, val, classOf, rec) && val <= more
    ensures RecordOk(m, more, classOf, rec)
  {
    assert Args(more, rec.children) == Args(val, rec.children);
  }

  function ConstOf(op: Op): Option<ConstVal> {
    match op
    case ConstI64(v) => Some(I(v))
    case ConstF64(bits) => Some(F(bits))
    case _ => None
  }

  class LiftedGraph {
    const g: EGraph
    var recs: seq<Record>
    var nodeClass: seq<Option<nat>>
    var xirOf: seq<Option<nat>>
    var classConst: seq<Option<ConstVal>>
    const float: (BinaryOp, nat, nat) -> nat
    ghost const m: Meaning
    ghost const xval: seq<Val>
    ghost var val: seq<Val>

    /** The e-graph is well kept and every class is a class of equal values. */
    ghost predicate GraphOk()
      reads this, g, g.uf
    {
      && m.float == float
      && g.Valid() && Values(m, g.nodes, val) && Sound(Roots(g.uf.parent), val)
    }

    ghost predicate Valid()
      reads this, g, g.uf
    {
      && GraphOk()
      && |xirOf| == |g.nodes|
      && OriginsOk(xirOf, val, xval)
      && |classConst| == g.capacity + 1 && ConstsTrue(val, classConst)
      && Tied(val, nodeClass, xval)
      && RecordsOk(m, val, nodeClass, recs)
    }

    ghost function Now(): Snap
      requires g.uf.Valid()
      reads g, g.uf
    {
      Snap(Roots(g.uf.parent), g.nodes)
    }

    constructor (slots: nat, budget: nat, hash: ENode -> nat, float: (BinaryOp, nat, nat) -> nat, ghost m: Meaning, ghost xval: seq<Val>)
      requires |xval| == slots && m.float == float
      ensures Valid() && fresh(g) && fresh(g.uf) && recs == [] && this.m == m && this.xval == xval && this.float == float
      ensures g.capacity == budget && g.nodes == [] && forall x :: 0 <= x < slots ==> nodeClass[x] == None
    {
      g := new EGraph(budget, hash);
      recs, xirOf := [], [];
      nodeClass := seq(slots, _ => None);
      classConst := seq(budget + 1, _ => None);
      this.float, this.m, this.xval, val := float, m, xval, [];
    }

    /** add, keeping one xirOf entry per appended e-node. */
    method AddNode(op: Op, children: seq<nat>, from: Option<nat>) returns (r: Result<nat>)
      requires Valid() && |children| <= MAX_CHILDREN && forall k :: 0 <= k < |children| ==> children[k] < |val|
      requires from.Some? ==> from.value < |xval| && xval[from.value] == Eval(m, op, Args(val, children))
      modifies this`xirOf, this`val, g
      ensures Valid() && old(val) <= val
      ensures Roots(g.uf.parent) == Roots(old(g.uf.parent)) && old(g.nodes) <= g.nodes
      ensures r.Ok? ==> Found(Roots(g.uf.parent), g.nodes, ENode(op, children), r.value)
      ensures g.nodes == old(g.nodes) || r == Ok(|old(g.nodes)|)
    {
      var before := |g.nodes|;
      ghost var nodes := g.nodes;
      r := g.Add(op, children);
      if |g.nodes| > before {
        ghost var x := Eval(m, op, Args(val, children));
        ValuesExtend(m, nodes, val, ENode(op, children));
        TablesGrow(m, val, x, nodeClass, recs, classConst, xval);
        OriginsGrow(xirOf, val, xval, from, x);
        xirOf := xirOf + [from];
        SoundExtend(Roots(g.uf.parent), val, x);
        val := val + [x];
      }
    }

    /** add without a program node behind it. */
    method AddGrown(op: Op, children: seq<nat>) returns (r: Result<nat>)
      requires Valid() && |children| <= MAX_CHILDREN && forall k :: 0 <= k < |children| ==> children[k] < |val|
      modifies this`xirOf, this`val, g
      ensures Valid() && old(val) <= val && Grown(old(Now()), Now())
      ensures r.Ok? ==> r.value < |val| && val[r.value] == Eval(m, op, Args(old(val), children))
      ensures r.Ok? ==> Has(Now(), r.value, ENode(op, children))
      ensures Now().roots == old(Now()).roots && (g.nodes == old(g.nodes) || r == Ok(|old(g.nodes)|))
    {
      ghost var nodes := g.nodes;
      r := AddNode(op, children, None);
      GrownAppend(Roots(g.uf.parent), nodes, g.nodes);
      if r.Ok? {
        FoundValue(m, g.nodes, val, Roots(g.uf.parent), ENode(op, children), r.value);
        assert Args(val, children) == Args(old(val), children);
        FoundHas(Now(), ENode(op, children), r.value);
      }
    }

    /** merge two classes of one value. */
    method Equate(a: nat, b: nat) returns (winner: nat)
      requires Valid() && a < |val| && b < |val| && val[a] == val[b]
      modifies g`classes, g.uf
      ensures Valid() && winner < |val| && val[winner] == val[a]
      ensures Coarser(Roots(old(g.uf.parent)), Roots(g.uf.parent)) && Roots(g.uf.parent)[a] == Roots(g.uf.parent)[b]
      ensures Roots(g.uf.parent)[winner] == Roots(g.uf.parent)[a]
      ensures winner == Roots(old(g.uf.parent))[a] || winner == Roots(old(g.uf.parent))[b]
      ensures Roots(g.uf.parent)[winner] == winner
      ensures Roots(old(g.uf.parent))[a] != Roots(old(g.uf.parent))[b] ==> Roots(g.uf.parent) != Roots(old(g.uf.parent))
    {
      UniteSound(Roots(g.uf.parent), |g.nodes|, val, a, b);
      var r := g.Merge(a, b);
      winner := r.value;
    }

    /** propagate_const: the winner learns the loser's constant unless it has one. */
    method PropagateConst(winner: nat, loser: nat)
      requires Valid() && winner < |val| && loser < |val| && val[winner] == val[loser]
      modifies this`classConst
      ensures Valid() && Now() == old(Now())
      ensures classConst == if old(classConst)[winner] == None then old(classConst)[winner := old(classConst)[loser]] else old(classConst)
    {
      if classConst[loser].Some? && classConst[winner].None? {
        classConst := classConst[winner := classConst[loser]];
      }
    }

    // ---- Lifting ----

    /** The classes of a node's inputs; None while one is missing or there are more than four. */
    method GatherChildren(inputs: seq<nat>) returns (r: Option<seq<nat>>)
      requires Valid() && forall k :: 0 <= k < |inputs| ==> inputs[k] < |xval|
      ensures r.Some? ==>
                && |r.value| == |inputs| <= MAX_CHILDREN && (forall k :: 0 <= k < |r.value| ==> r.value[k] < |val|)
                && Args(val, r.value) == Args(xval, inputs)
                && forall k :: 0 <= k < |inputs| ==> nodeClass[inputs[k]] == Some(r.value[k])
      ensures r.None? <==> Waiting(nodeClass, inputs)
    {
      var children: seq<nat> := [];
      for i := 0 to |inputs|
        invariant |children| == i <= MAX_CHILDREN && forall k :: 0 <= k < i ==> nodeClass[inputs[k]] == Some(children[k])
        invariant forall k :: 0 <= k < i ==> children[k] < |val| && val[children[k]] == xval[inputs[k]]
      {
        var c := nodeClass[inputs[i]];
        if c.None? || i >= MAX_CHILDREN {
          return None;
        }
        children := children + [c.value];
      }
      r := Some(children);
    }

    /** Lift one node whose inputs are all lifted. */
    method LiftNode(ghost e: Effects, id: nat, node: XNode) returns (r: Result<bool>)
      requires Valid() && NodeValue(m, e, node, xval, id) && Pure(node.op)
      requires Admissible(node.op, ElemOf(node.ty), Args(xval, node.inputs))
      modifies this, g
      ensures Valid() && old(val) <= val
      ensures r == Ok(true) ==> nodeClass[id].Some? && nodeClass == old(nodeClass)[id := nodeClass[id]]
      ensures r == Ok(true) ==> Entered(old(recs), recs, old(classConst), classConst, id, node, nodeClass[id])
      ensures r == Ok(true) ==>
                forall k :: 0 <= k < |node.inputs| ==> old(nodeClass)[node.inputs[k]] == Some(recs[|old(recs)|].children[k])
      ensures r != Ok(true) ==> nodeClass == old(nodeClass) && recs == old(recs) && classConst == old(classConst)
      ensures r == Ok(false) ==> Waiting(nodeClass, node.inputs)
    {
      var children := GatherChildren(node.inputs);
      if children.None? {
        return Ok(false);
      }
      var class_ := AddNode(node.op, children.value, Some(id));
      if class_.Err? {
        return Err(class_.error);
      }
      FoundValue(m, g.nodes, val, Roots(g.uf.parent), ENode(node.op, children.value), class_.value);
      assert Args(val, children.value) == Args(old(val), children.value);
      Enter(Record(id, node.op, children.value, ElemOf(node.ty)), class_.value);
      r := Ok(true);
    }

    /** Enter a lifted node into the tables. */
    method Enter(rec: Record, class_: nat)
      requires Valid() && rec.node < |xval| && class_ < |val| && val[class_] == xval[rec.node]
      requires RecordOk(m, val, nodeClass[rec.node := Some(class_)], rec)
      modifies this`nodeClass, this`classConst, this`recs
      ensures Valid()
      ensures recs == old(recs) + [rec] && nodeClass == old(nodeClass)[rec.node := Some(class_)]
      ensures classConst == if ConstOf(rec.op).Some? then old(classConst)[class_ := ConstOf(rec.op)] else old(classConst)
    {
      RetieRecords(m, val, nodeClass, rec.node, class_, recs);
      nodeClass := nodeClass[rec.node := Some(class_)];
      if ConstOf(rec.op).Some? {
        classConst := classConst[class_ := ConstOf(rec.op)];
      }
      recs := recs + [rec];
    }

    /** Lift a node of the program; the catalogue of records stays right. */
    method LiftListed(ghost e: Effects, arena: seq<XNode>, id: nat) returns (r: Result<bool>)
      requires Valid() && RunOf(m, e, arena, xval) && AllAdmissible(arena, xval) && id < |arena| && Pure(arena[id].op)
      modifies this, g
      ensures Valid() && old(val) <= val
      ensures r == Ok(true) ==> nodeClass[id].Some? && nodeClass == old(nodeClass)[id := nodeClass[id]]
      ensures r != Ok(true) ==> nodeClass == old(nodeClass)
      ensures r == Ok(false) ==> Waiting(nodeClass, arena[id].inputs)
      ensures old(Catalogued(arena, nodeClass, recs, classConst)) ==> Catalogued(arena, nodeClass, recs, classConst)
    {
      ghost var before, recs0, consts0 := nodeClass, recs, classConst;
      assert NodeValue(m, e, arena[id], xval, id);
      r := LiftNode(e, id, arena[id]);
      if r == Ok(true) {
        CataloguedGrows(arena, before, nodeClass, recs0, recs, consts0, classConst, id);
      }
    }

    /** One pass over the nodes not yet lifted, keeping those that still wait. */
    method LiftPass(ghost e: Effects, arena: seq<XNode>, todo: seq<nat>) returns (r: Result<seq<nat>>)
      requires Valid() && RunOf(m, e, arena, xval) && AllAdmissible(arena, xval) && AllPure(arena, todo)
      modifies this, g
      ensures Valid() && old(val) <= val && MoreLifted(old(nodeClass), nodeClass)
      ensures r.Ok? ==> AllPure(arena, r.value) && |r.value| <= |todo| && LiftedOr(nodeClass, todo, r.value)
      ensures r.Ok? && |r.value| == |todo| ==> AllWaiting(nodeClass, arena, r.value)
      ensures old(Catalogued(arena, nodeClass, recs, classConst)) ==> Catalogued(arena, nodeClass, recs, classConst)
    {
      var next: seq<nat> := [];
      for k := 0 to |todo|
        invariant Valid() && old(val) <= val && MoreLifted(old(nodeClass), nodeClass)
        invariant AllPure(arena, next) && |next| <= k && LiftedOr(nodeClass, todo[..k], next)
        invariant |next| == k ==> nodeClass == old(nodeClass) && AllWaiting(nodeClass, arena, next)
        invariant old(Catalogued(arena, nodeClass, recs, classConst)) ==> Catalogued(arena, nodeClass, recs, classConst)
      {
        var id := todo[k];
        ghost var before := nodeClass;
        var lifted := LiftListed(e, arena, id);
        if lifted.Err? {
          return Err(lifted.error);
        }
        PassKept(before, nodeClass, todo, k, next, lifted.value);
        MoreLiftedTrans(old(nodeClass), before, nodeClass);
        if !lifted.value {
          WaitingAppend(nodeClass, arena, next, id);
          next := next + [id];
        }
      }
      assert todo[..|todo|] == todo;
      r := Ok(next);
    }

    /** lift: pure nodes with pure inputs, in passes until one makes no progress. The pass bound is
        never what ends it: in the end every such node is lifted, or has more than four inputs, or
        has an input that is not lifted. */
    method LiftAll(ghost e: Effects, arena: seq<XNode>) returns (r: Result<nat>)
      requires Valid() && RunOf(m, e, arena, xval) && AllAdmissible(arena, xval)
      modifies this, g
      ensures Valid() && old(val) <= val
      ensures r.Ok? ==> AllTried(arena, nodeClass)
      ensures old(Catalogued(arena, nodeClass, recs, classConst)) ==> Catalogued(arena, nodeClass, recs, classConst)
    {
      var liftable: seq<nat> := Liftable(arena);
      var remaining, passes, progressed := liftable, 0, true;
      while remaining != [] && passes <= |arena| + 1 && progressed
        invariant Valid() && old(val) <= val
        invariant AllPure(arena, remaining) && LiftedOr(nodeClass, liftable, remaining)
        invariant progressed ==> passes + |remaining| <= |liftable|
        invariant !progressed ==> AllWaiting(nodeClass, arena, remaining)
        invariant old(Catalogued(arena, nodeClass, recs, classConst)) ==> Catalogued(arena, nodeClass, recs, classConst)
        decreases |arena| + 2 - passes
      {
        ghost var before := nodeClass;
        var next := LiftPass(e, arena, remaining);
        if next.Err? {
          return Err(next.error);
        }
        LiftedOrTrans(before, nodeClass, liftable, remaining, next.value);
        progressed := |next.value| < |remaining|;
        remaining := next.value;
        passes := passes + 1;
      }
      r := Ok(passes);
      forall id | 0 <= id < |arena| && Pure(arena[id].op) && PureInputs(arena, arena[id])
        ensures nodeClass[id].Some? || Waiting(nodeClass, arena[id].inputs)
      {
        assert id in liftable;
        AllLiftedOrWaiting(nodeClass, arena, liftable, remaining, id);
      }
    }

    // ---- Rounds ----

    /** The rewrite of every record on canonical children and their known constants. */
    method FireRules() returns (rewrites: seq<Option<Rewrite>>)
      requires Valid()
      modifies g.uf`parent
      ensures Valid() && Roots(g.uf.parent) == Roots(old(g.uf.parent))
      ensures |rewrites| == |recs| && RewritesOk(val, nodeClass, recs, rewrites)
      ensures rewrites == RulesOf(float, Roots(g.uf.parent), classConst, recs)
    {
      rewrites := [];
      ghost var rules := RulesOf(float, Roots(g.uf.parent), classConst, recs);
      for i := 0 to |recs|
        invariant Valid() && Roots(g.uf.parent) == Roots(old(g.uf.parent))
        invariant |rewrites| == i && RewritesOk(val, nodeClass, recs, rewrites)
        invariant rewrites == rules[..i]
      {
        var rw := FireNth(i, rewrites);
        assert rw == rules[i];
        rewrites := rewrites + [rw];
      }
    }

    method FireNth(i: nat, ghost rewrites: seq<Option<Rewrite>>) returns (rw: Option<Rewrite>)
      requires Valid() && i < |recs| && |rewrites| == i && RewritesOk(val, nodeClass, recs, rewrites)
      modifies g.uf`parent
      ensures Valid() && Roots(g.uf.parent) == Roots(old(g.uf.parent))
      ensures RewritesOk(val, nodeClass, recs, rewrites + [rw])
      ensures rw == RuleOf(float, Roots(g.uf.parent), classConst, recs[i])
    {
      assert RecordOk(m, val, nodeClass, recs[i]);
      rw := FireRule(recs[i]);
      RewritesAppend(val, nodeClass, recs, rewrites, rw);
    }

    method FireRule(rec: Record) returns (rw: Option<Rewrite>)
      requires Valid() && RecordOk(m, val, nodeClass, rec)
      modifies g.uf`parent
      ensures Valid() && Roots(g.uf.parent) == Roots(old(g.uf.parent))
      ensures RewriteOk(val, nodeClass[rec.node].value, rw)
      ensures rw == RuleOf(float, Roots(g.uf.parent), classConst, rec)
    {
      var children := g.CanonList(rec.children);
      var consts := KnownOf(classConst, children);
      rw := LocalRules(float, rec.op, children, consts, rec.elem);
      SnapshotTrue(Roots(g.uf.parent), val, classConst, rec.children);
      LocalRulesSound(m, val, rec.op, children, consts, rec.elem);
    }

    /** A folded constant becomes an e-node of the class. */
    method FoldInto(own: nat, c: ConstVal) returns (r: Result<nat>)
      requires Valid() && own < |val| && val[own] == Eval(m, OpOf(c), []) && Truthful(Some(c), val[own])
      modifies this`xirOf, this`val, this`classConst, g, g.uf
      ensures Valid() && old(val) <= val && Grown(old(Now()), Now())
      ensures r.Ok? ==> Has(Now(), own, ENode(OpOf(c), []))
      ensures Learns(old(classConst), classConst) && (r.Ok? ==> KnownFor(Now().roots, classConst, own))
    {
      r := AddConst(c);
      if r.Ok? {
        ghost var mid := Now();
        JoinConst(own, r.value, c);
        GrownTrans(old(Now()), mid, Now());
      }
    }

    method AddConst(c: ConstVal) returns (r: Result<nat>)
      requires Valid()
      modifies this`xirOf, this`val, g
      ensures Valid() && old(val) <= val && Grown(old(Now()), Now())
      ensures r.Ok? ==> r.value < |val| && val[r.value] == Eval(m, OpOf(c), [])
      ensures r.Ok? ==> Has(Now(), r.value, ENode(OpOf(c), []))
    {
      assert Args(val, []) == [];
      r := AddGrown(OpOf(c), []);
    }

    method JoinConst(own: nat, nc: nat, c: ConstVal)
      requires Valid() && own < |val| && nc < |val| && val[own] == val[nc] && Truthful(Some(c), val[own])
      requires Has(Now(), nc, ENode(OpOf(c), []))
      modifies this`classConst, g`classes, g.uf
      ensures Valid() && Grown(old(Now()), Now()) && Has(Now(), own, ENode(OpOf(c), []))
      ensures Learns(old(classConst), classConst) && KnownFor(Now().roots, classConst, own)
    {
      var winner := JoinInto(own, nc, ENode(OpOf(c), []));
      LearnsSet(classConst, winner, Some(c));
      KnownBy(Now().roots, classConst[winner := Some(c)], winner, own);
      SetConst(winner, c);
    }

    method SetConst(winner: nat, c: ConstVal)
      requires Valid() && winner < |val| && Truthful(Some(c), val[winner])
      modifies this`classConst
      ensures Valid() && classConst == old(classConst)[winner := Some(c)] && Now() == old(Now())
    {
      classConst := classConst[winner := Some(c)];
    }

    /** Merge with a class that has this node: afterwards own's class has it. */
    method JoinInto(own: nat, c: nat, ghost node: ENode) returns (winner: nat)
      requires Valid() && own < |val| && c < |val| && val[own] == val[c] && Has(Now(), c, node)
      modifies g`classes, g.uf
      ensures Valid() && winner < |val| && val[winner] == val[own]
      ensures Grown(old(Now()), Now()) && Has(Now(), own, node)
      ensures old(Now()).roots[own] != old(Now()).roots[c] ==> Now().roots != old(Now()).roots
      ensures Roots(g.uf.parent)[own] == Roots(g.uf.parent)[c] == Roots(g.uf.parent)[winner]
    {
      ghost var before := Now();
      winner := Equate(own, c);
      GrownJoin(before.roots, Roots(g.uf.parent), g.nodes);
      GrownHas(before, Now(), c, node);
    }

    /** A pass-through merges the class with the surviving operand's. */
    method PassInto(own: nat, child: nat)
      requires Valid() && own < |val| && child < |val| && val[own] == val[child]
      modifies this`classConst, g`classes, g.uf
      ensures Valid() && Grown(old(Now()), Now()) && Landed(Now(), own, PassThrough(child))
      ensures Learns(old(classConst), classConst)
      ensures PassedOn(old(Now()).roots, old(classConst), Now().roots, classConst, own, child)
    {
      ghost var before := Now();
      var winner := Equate(own, child);
      GrownJoin(before.roots, Roots(g.uf.parent), g.nodes);
      PassConst(winner, own, child, before.roots);
    }

    /** The constant of the class that was taken over is passed on. */
    method PassConst(winner: nat, own: nat, child: nat, ghost before: seq<nat>)
      requires Valid() && own < |val| && child < |val| && winner < |val| && val[winner] == val[own] == val[child]
      requires |before| == |Now().roots| && (winner == before[own] || winner == before[child]) && Now().roots[winner] == winner
      modifies this`classConst
      ensures Valid() && Now() == old(Now()) && Learns(old(classConst), classConst)
      ensures PassedOn(before, old(classConst), Now().roots, classConst, own, child)
    {
      var loser := if winner == own then child else own;
      PassedOnIs(before, classConst, Roots(g.uf.parent), own, child, winner);
      PropagateConst(winner, loser);
    }

    /** Apply one fired rule: its equation holds between classes from then on. */
    method ApplyRewrite(rec: Record, rw: Rewrite) returns (r: Result<nat>)
      requires Valid() && RecordOk(m, val, nodeClass, rec)
      requires RewriteOk(val, nodeClass[rec.node].value, Some(rw))
      modifies this`xirOf, this`val, this`classConst, g, g.uf
      ensures Valid() && old(val) <= val && Grown(old(Now()), Now())
      ensures r.Ok? ==> Landed(Now(), nodeClass[rec.node].value, rw)
      ensures Learns(old(classConst), classConst)
      ensures r.Ok? && rw.ToConst? ==> KnownFor(Now().roots, classConst, nodeClass[rec.node].value)
    {
      ghost var own0, before := nodeClass[rec.node].value, Now();
      var own := CanonOwn(nodeClass[rec.node].value, rw);
      r := ApplyAt(own, rw);
      if r.Ok? {
        LandedUp(before, Now(), own0, own, rw);
        KnownUp(before, Now(), classConst, own0, own, rw);
      }
    }

    /** The canonical id of a class a rewrite is about. */
    method CanonOwn(own0: nat, ghost rw: Rewrite) returns (own: nat)
      requires Valid() && own0 < |val| && RewriteOk(val, own0, Some(rw))
      modifies g.uf`parent
      ensures Valid() && Now() == old(Now())
      ensures own < |val| && RewriteOk(val, own, Some(rw)) && own0 < |Now().roots| && Now().roots[own] == Now().roots[own0]
    {
      RewriteMoves(Roots(g.uf.parent), val, own0, rw);
      RootsFixed(g.uf.parent, own0);
      var canon := g.Canon(own0);
      own := canon.value;
    }

    method ApplyAt(own: nat, rw: Rewrite) returns (r: Result<nat>)
      requires Valid() && own < |val| && RewriteOk(val, own, Some(rw))
      modifies this`xirOf, this`val, this`classConst, g, g.uf
      ensures Valid() && old(val) <= val && Grown(old(Now()), Now())
      ensures r.Ok? ==> Landed(Now(), own, rw)
      ensures Learns(old(classConst), classConst) && (r.Ok? && rw.ToConst? ==> KnownFor(Now().roots, classConst, own))
    {
      match rw
      case ToConst(c) => {
        ConstMeans(m, val, c);
        r := FoldInto(own, c);
      }
      case PassThrough(child) => {
        PassInto(own, child);
        r := Ok(own);
      }
    }

    /** Give a commutative record's class its operand-swapped form. */
    method Commute(rec: Record) returns (r: Result<bool>)
      requires Valid() && RecordOk(m, val, nodeClass, rec)
      modifies this`xirOf, this`val, this`classConst, g, g.uf
      ensures Valid() && old(val) <= val && Grown(old(Now()), Now())
      ensures r.Ok? ==> Commuted(Now(), nodeClass, rec)
      ensures Learns(old(classConst), classConst) && (r.Ok? ==> Honest(r.value, old(Now()), Now(), old(classConst), classConst))
    {
      GrownSelf(Now());
      if |rec.children| != 2 || !Commutative(rec.op, rec.elem) {
        return Ok(false);
      }
      var c0 := g.Canon(rec.children[0]);
      var c1 := g.Canon(rec.children[1]);
      if c0 == c1 {
        return Ok(false);
      }
      var own := g.Canon(nodeClass[rec.node].value);
      r := CommuteOn(rec, own.value, c0.value, c1.value);
    }

    /** The swapped form over canonical ids, joined to the record's canonical class. */
    method CommuteOn(rec: Record, own: nat, c0: nat, c1: nat) returns (r: Result<bool>)
      requires Valid() && RecordOk(m, val, nodeClass, rec) && |rec.children| == 2 && Commutative(rec.op, rec.elem)
      requires c0 == Roots(g.uf.parent)[rec.children[0]] && c1 == Roots(g.uf.parent)[rec.children[1]]
      requires own == Roots(g.uf.parent)[nodeClass[rec.node].value]
      modifies this`xirOf, this`val, this`classConst, g, g.uf
      ensures Valid() && old(val) <= val && Grown(old(Now()), Now())
      ensures r.Ok? ==> Commuted(Now(), nodeClass, rec)
      ensures Learns(old(classConst), classConst) && (r.Ok? ==> Honest(r.value, old(Now()), Now(), old(classConst), classConst))
    {
      ghost var before := Now();
      SwapReady(m, val, before.roots, |g.nodes|, nodeClass, rec, own, c0, c1);
      r := JoinSwapped(rec.op, own, c1, c0);
      if r.Ok? {
        CommutedUp(before, Now(), nodeClass, rec, own, c0, c1);
      }
    }

    method JoinSwapped(op: Op, own: nat, first: nat, second: nat) returns (r: Result<bool>)
      requires Valid() && own < |val| && Now().roots[own] == own && first < |val| && second < |val|
      requires val[own] == Eval(m, op, Args(val, [first, second]))
      modifies this`xirOf, this`val, this`classConst, g, g.uf
      ensures Valid() && old(val) <= val && Grown(old(Now()), Now())
      ensures r.Ok? ==> Has(Now(), own, ENode(op, [first, second]))
      ensures Learns(old(classConst), classConst) && (r.Ok? ==> Honest(r.value, old(Now()), Now(), old(classConst), classConst))
    {
      var swapped := AddGrown(op, [first, second]);
      if swapped.Err? {
        return Err(swapped.error);
      }
      ghost var mid := Now();
      var joined := JoinCanon(own, swapped.value, ENode(op, [first, second]));
      GrownTrans(old(Now()), mid, Now());
      r := Ok(joined);
    }

    method JoinCanon(own: nat, swapped: nat, ghost node: ENode) returns (joined: bool)
      requires Valid() && own < |val| && swapped < |val| && val[own] == val[swapped] && Has(Now(), swapped, node)
      requires Now().roots[own] == own
      modifies this`classConst, g`classes, g.uf
      ensures Valid() && Grown(old(Now()), Now()) && Has(Now(), own, node)
      ensures joined <==> old(Now()).roots[swapped] != own
      ensures Learns(old(classConst), classConst) && Honest(joined, old(Now()), Now(), old(classConst), classConst)
    {
      ghost var before := Now();
      var sc := g.Canon(swapped);
      HasCanon(before, swapped, node);
      GrownSelf(before);
      joined := own != sc.value;
      assert SoundAt(before.roots, val, swapped);
      if joined {
        JoinBoth(own, sc.value, node);
      }
    }

    method PropagateBoth(winner: nat, a: nat, b: nat)
      requires Valid() && winner < |val| && a < |val| && b < |val| && val[winner] == val[a] == val[b]
      modifies this`classConst
      ensures Valid() && Now() == old(Now()) && Learns(old(classConst), classConst)
    {
      PropagateConst(winner, a);
      PropagateConst(winner, b);
    }

    method JoinBoth(own: nat, c: nat, ghost node: ENode)
      requires Valid() && own < |val| && c < |val| && val[own] == val[c] && Has(Now(), c, node)
      modifies this`classConst, g`classes, g.uf
      ensures Valid() && Grown(old(Now()), Now()) && Has(Now(), own, node)
      ensures Learns(old(classConst), classConst)
      ensures old(Now()).roots[own] != old(Now()).roots[c] ==> Now().roots != old(Now()).roots
    {
      var winner := JoinInto(own, c, node);
      PropagateBoth(winner, own, c);
    }

    /** After a rebuild, constants move to the canonical ids. */
    method Rehome()
      requires Valid()
      modifies this`classConst, g.uf`parent
      ensures Valid() && Roots(g.uf.parent) == Roots(old(g.uf.parent))
      ensures Learns(old(classConst), classConst) && HomedBelow(Now().roots, classConst, |classConst|)
    {
      for i := 0 to |classConst|
        invariant Valid() && Roots(g.uf.parent) == Roots(old(g.uf.parent))
        invariant Learns(old(classConst), classConst) && HomedBelow(Now().roots, classConst, i)
      {
        ghost var before := classConst;
        RehomeOne(i);
        LearnsTrans(old(classConst), before, classConst);
      }
    }

    /** The canonical id learns the constant of id i. */
    method RehomeOne(i: nat)
      requires Valid() && i < |classConst| && HomedBelow(Now().roots, classConst, i)
      modifies this`classConst, g.uf`parent
      ensures Valid() && Roots(g.uf.parent) == Roots(old(g.uf.parent))
      ensures Learns(old(classConst), classConst) && HomedBelow(Now().roots, classConst, i + 1)
    {
      if classConst[i].Some? {
        ghost var roots := Roots(g.uf.parent);
        assert SoundAt(roots, val, i);
        RootsFixed(g.uf.parent, i);
        var c := g.Canon(i);
        HomedStep(roots, classConst, i);
        PropagateConst(c.value, i);
      }
    }

    /** Evaluate the rules on a snapshot, then apply what fired in record order. */
    method ApplyRules() returns (r: Result<nat>)
      requires Valid()
      modifies this`xirOf, this`val, this`classConst, g, g.uf
      ensures Valid() && old(val) <= val && Grown(old(Now()), Now())
      ensures r.Ok? ==> AllLanded(Now(), nodeClass, float, Roots(old(g.uf.parent)), old(classConst), recs)
      ensures Learns(old(classConst), classConst)
      ensures r.Ok? ==> AllLearned(Now().roots, classConst, nodeClass, float, Roots(old(g.uf.parent)), old(classConst), recs)
      ensures r.Ok? ==> (r.value == 0 <==> NoneFires(float, Roots(old(g.uf.parent)), old(classConst), recs))
      ensures r == Ok(0) ==> Now() == old(Now()) && classConst == old(classConst)
    {
      var rewrites := FireRules();
      ghost var roots, consts := Roots(g.uf.parent), classConst;
      r := ApplyAllOf(rewrites);
      if r.Ok? {
        LandedAll(Now(), nodeClass, float, roots, consts, recs, rewrites);
        LearnedAll(Now().roots, classConst, nodeClass, float, roots, consts, recs, rewrites);
      }
    }

    method ApplyAllOf(rewrites: seq<Option<Rewrite>>) returns (r: Result<nat>)
      requires Valid() && |rewrites| == |recs| && RewritesOk(val, nodeClass, recs, rewrites)
      modifies this`xirOf, this`val, this`classConst, g, g.uf
      ensures Valid() && old(val) <= val && Grown(old(Now()), Now()) && Learns(old(classConst), classConst)
      ensures r.Ok? ==> Underway(old(Now()), old(classConst), Now(), classConst, nodeClass, recs, rewrites, |recs|, r.value)
    {
      var fired: nat := 0;
      ghost var start, consts0, val0 := Now(), classConst, val;
      UnderwayStart(start, consts0, nodeClass, recs, rewrites);
      for i := 0 to |recs|
        invariant Valid() && RewritesOk(val, nodeClass, recs, rewrites)
        invariant val0 <= val
        invariant Underway(start, consts0, Now(), classConst, nodeClass, recs, rewrites, i, fired)
      {
        r := ApplyNext(rewrites, i, fired, start, consts0, val0);
        if r.Err? {
          return;
        }
        fired := r.value;
      }
      r := Ok(fired);
    }

    /** The i-th rewrite, on top of those before it. */
    method ApplyNext(rewrites: seq<Option<Rewrite>>, i: nat, fired: nat, ghost start: Snap, ghost consts0: seq<Option<ConstVal>>,
                     ghost val0: seq<Val>) returns (r: Result<nat>)
      requires Valid() && |rewrites| == |recs| && i < |recs| && val0 <= val && RewritesOk(val, nodeClass, recs, rewrites)
      requires Underway(start, consts0, Now(), classConst, nodeClass, recs, rewrites, i, fired)
      modifies this`xirOf, this`val, this`classConst, g, g.uf
      ensures Valid() && val0 <= val && RewritesOk(val, nodeClass, recs, rewrites)
      ensures Grown(start, Now()) && Learns(consts0, classConst)
      ensures r.Ok? ==> Underway(start, consts0, Now(), classConst, nodeClass, recs, rewrites, i + 1, r.value)
    {
      ghost var snap, consts := Now(), classConst;
      r := ApplyNth(rewrites, i);
      GrownTrans(start, snap, Now());
      LearnsTrans(consts0, consts, classConst);
      if r.Ok? {
        UnderwayStep(start, consts0, snap, consts, Now(), classConst, nodeClass, recs, rewrites, i, fired);
        r := Ok(fired + r.value);
      }
    }

    method ApplyNth(rewrites: seq<Option<Rewrite>>, i: nat) returns (r: Result<nat>)
      requires Valid() && |rewrites| == |recs| && i < |recs| && RewritesOk(val, nodeClass, recs, rewrites)
      modifies this`xirOf, this`val, this`classConst, g, g.uf
      ensures Valid() && old(val) <= val && RewritesOk(val, nodeClass, recs, rewrites)
      ensures Grown(old(Now()), Now()) && Learns(old(classConst), classConst)
      ensures r.Ok? ==> r.value == if rewrites[i].Some? then 1 else 0
      ensures r.Ok? ==> NthDone(old(Now()), old(classConst), Now(), classConst, nodeClass, recs, rewrites, i)
    {
      ghost var before := val;
      GrownSelf(Now());
      if rewrites[i].None? {
        return Ok(0);
      }
      assert RecordOk(m, val, nodeClass, recs[i]);
      var applied := ApplyRewrite(recs[i], rewrites[i].value);
      RewritesGrow(before, val, nodeClass, recs, rewrites);
      r := if applied.Err? then Err(applied.error) else Ok(1);
    }

    method CommuteAll() returns (r: Result<nat>)
      requires Valid()
      modifies this`xirOf, this`val, this`classConst, g, g.uf
      ensures Valid() && old(val) <= val && Grown(old(Now()), Now())
      ensures r.Ok? ==> CommutedBelow(Now(), nodeClass, recs, |recs|)
      ensures Learns(old(classConst), classConst)
      ensures r.Ok? ==> Honest(r.value > 0, old(Now()), Now(), old(classConst), classConst)
    {
      var fired: nat := 0;
      GrownSelf(Now());
      for i := 0 to |recs|
        invariant Valid() && old(val) <= val && Grown(old(Now()), Now())
        invariant CommutedBelow(Now(), nodeClass, recs, i)
        invariant Learns(old(classConst), classConst) && Honest(fired > 0, old(Now()), Now(), old(classConst), classConst)
      {
        ghost var snap, consts := Now(), classConst;
        assert RecordOk(m, val, nodeClass, recs[i]);
        var commuted := Commute(recs[i]);
        GrownTrans(old(Now()), snap, Now());
        if commuted.Err? {
          return Err(commuted.error);
        }
        CommutedGrown(snap, Now(), nodeClass, recs, i);
        HonestThen(fired > 0, commuted.value, old(Now()), snap, Now(), old(classConst), consts, classConst);
        fired := fired + if commuted.value then 1 else 0;
      }
      r := Ok(fired);
    }

    /** One round: rules, commutations, rebuild, constants re-homed. What fired on the round's
        snapshot has landed, every commutative record's class has the swapped form, a folded class
        knows its constant, and the counts are zero exactly if no rule fired and no classes merged. */
    method Round() returns (r: Result<(nat, nat)>)
      requires Valid()
      modifies this`xirOf, this`val, this`classConst, g, g.uf
      ensures Valid() && old(val) <= val && Grown(old(Now()), Now())
      ensures r.Ok? ==> AllLanded(Now(), nodeClass, float, Roots(old(g.uf.parent)), old(classConst), recs)
      ensures r.Ok? ==> CommutedBelow(Now(), nodeClass, recs, |recs|)
      ensures r.Ok? ==> AllKnown(Now().roots, classConst, nodeClass, float, Roots(old(g.uf.parent)), old(classConst), recs)
      ensures r.Ok? ==> (r.value == (0, 0) <==>
                           NoneFires(float, Roots(old(g.uf.parent)), old(classConst), recs) && Now().roots == old(Now()).roots)
    {
      ghost var roots0, consts0 := Roots(g.uf.parent), classConst;
      var fired := FireAndCommute();
      if fired.Err? {
        return Err(fired.error);
      }
      ghost var snap, consts := Now(), classConst;
      var merged := RebuildAll();
      GrownTrans(old(Now()), snap, Now());
      AllLandedGrown(snap, Now(), nodeClass, float, roots0, consts0, recs);
      CommutedBelowGrown(snap, Now(), nodeClass, recs, |recs|);
      LearnedIsKnown(snap, Now(), consts, classConst, nodeClass, float, roots0, consts0, recs);
      CoarserSteps(roots0, snap.roots, Now().roots);
      r := Ok((fired.value, merged));
    }

    method FireAndCommute() returns (r: Result<nat>)
      requires Valid()
      modifies this`xirOf, this`val, this`classConst, g, g.uf
      ensures Valid() && old(val) <= val && Grown(old(Now()), Now())
      ensures r.Ok? ==> AllLanded(Now(), nodeClass, float, Roots(old(g.uf.parent)), old(classConst), recs)
      ensures r.Ok? ==> CommutedBelow(Now(), nodeClass, recs, |recs|)
      ensures r.Ok? ==> AllLearned(Now().roots, classConst, nodeClass, float, Roots(old(g.uf.parent)), old(classConst), recs)
      ensures r.Ok? ==> (r.value == 0 <==>
                           NoneFires(float, Roots(old(g.uf.parent)), old(classConst), recs) && Now().roots == old(Now()).roots)
    {
      ghost var start, consts0 := Now(), classConst;
      r := ApplyRules();
      if r.Ok? {
        r := CommuteAfter(r.value, start, consts0);
      }
    }

    /** The commutations of a round whose rules have fired on start. */
    method CommuteAfter(fired: nat, ghost start: Snap, ghost consts0: seq<Option<ConstVal>>) returns (r: Result<nat>)
      requires Valid() && Grown(start, Now())
      requires AllLanded(Now(), nodeClass, float, start.roots, consts0, recs)
      requires AllLearned(Now().roots, classConst, nodeClass, float, start.roots, consts0, recs)
      requires fired == 0 <==> NoneFires(float, start.roots, consts0, recs)
      requires fired == 0 ==> Now() == start
      modifies this`xirOf, this`val, this`classConst, g, g.uf
      ensures Valid() && old(val) <= val && Grown(start, Now())
      ensures r.Ok? ==> AllLanded(Now(), nodeClass, float, start.roots, consts0, recs)
      ensures r.Ok? ==> CommutedBelow(Now(), nodeClass, recs, |recs|)
      ensures r.Ok? ==> AllLearned(Now().roots, classConst, nodeClass, float, start.roots, consts0, recs)
      ensures r.Ok? ==> (r.value == 0 <==> NoneFires(float, start.roots, consts0, recs) && Now().roots == start.roots)
    {
      ghost var snap, consts := Now(), classConst;
      var commuted := CommuteAll();
      GrownTrans(start, snap, Now());
      if commuted.Err? {
        return Err(commuted.error);
      }
      AllLandedGrown(snap, Now(), nodeClass, float, start.roots, consts0, recs);
      AllLearnedGrown(snap, Now(), consts, classConst, nodeClass, float, start.roots, consts0, recs);
      r := Ok(fired + commuted.value);
    }

    method RebuildAll() returns (merged: nat)
      requires Valid()
      modifies this`classConst, g, g.uf
      ensures Valid() && Grown(old(Now()), Now())
      ensures merged == 0 <==> Now().roots == old(Now()).roots
      ensures Learns(old(classConst), classConst) && HomedBelow(Now().roots, classConst, |classConst|)
    {
      ghost var before := Now();
      merged := g.Rebuild(m, val);
      GrownRebuild(before.roots, Roots(g.uf.parent), before.nodes, g.nodes);
      Rehome();
    }

    /** run_rounds: at most four rounds, ending with the first in which no rule fires and nothing
        merges. marks[k] is what round k starts from: whatever fires there has landed in the end,
        and what it folds is known to the next round, so that folds cascade to parents. */
    method RunRounds() returns (r: Result<nat>, ghost marks: seq<Mark>)
      requires Valid()
      modifies this`xirOf, this`val, this`classConst, g, g.uf
      ensures Valid() && old(val) <= val && Grown(old(Now()), Now())
      ensures r.Ok? ==> 1 <= |marks| <= MAX_ROUNDS && marks[0] == Mark(old(Now()).roots, old(classConst))
      ensures r.Ok? ==> Chronicle(Now(), nodeClass, float, marks, Mark(Now().roots, classConst), recs)
      ensures r.Ok? ==> |marks| == MAX_ROUNDS || QuietRound(float, marks, |marks| - 1, Mark(Now().roots, classConst), recs)
      ensures r.Ok? ==> CommutedBelow(Now(), nodeClass, recs, |recs|)
    {
      var applied: nat := 0;
      marks := [];
      ghost var start, val0 := Now(), val;
      GrownSelf(start);
      for round := 0 to MAX_ROUNDS
        invariant Valid() && val0 <= val && Grown(start, Now())
        invariant |marks| == round
        invariant (if round == 0 then Mark(Now().roots, classConst) else marks[0]) == Mark(start.roots, old(classConst))
        invariant Chronicle(Now(), nodeClass, float, marks, Mark(Now().roots, classConst), recs)
        invariant round > 0 ==> !QuietRound(float, marks, round - 1, Mark(Now().roots, classConst), recs)
        invariant round > 0 ==> CommutedBelow(Now(), nodeClass, recs, |recs|)
      {
        ghost var mark := Mark(Now().roots, classConst);
        var step := RoundAfter(marks, start, val0);
        if step.Err? {
          return Err(step.error), marks;
        }
        marks := marks + [mark];
        applied := applied + step.value.0;
        if step.value.0 == 0 && step.value.1 == 0 {
          break;
        }
      }
      r := Ok(applied);
    }

    /** Everything that can be lifted is, the records say so, and the rounds in marks have been run
        to the bound or to the first quiet one. */
    ghost predicate Saturated(arena: seq<XNode>, marks: seq<Mark>)
      requires g.uf.Valid()
      reads this, g, g.uf
    {
      var end := Mark(Now().roots, classConst);
      && AllTried(arena, nodeClass)
      && 1 <= |marks| <= MAX_ROUNDS && Catalogued(arena, nodeClass, recs, marks[0].consts)
      && Chronicle(Now(), nodeClass, float, marks, end, recs) && CommutedBelow(Now(), nodeClass, recs, |recs|)
      && (|marks| == MAX_ROUNDS || QuietRound(float, marks, |marks| - 1, end, recs))
    }

    method LiftAndRun(ghost e: Effects, arena: seq<XNode>) returns (r: Result<nat>, ghost marks: seq<Mark>)
      requires Valid() && RunOf(m, e, arena, xval) && AllAdmissible(arena, xval)
      requires recs == [] && forall x :: 0 <= x < |nodeClass| ==> nodeClass[x] == None
      modifies this, g, g.uf
      ensures Valid() && (r.Ok? ==> Saturated(arena, marks))
    {
      assert Catalogued(arena, nodeClass, recs, classConst);
      marks := [];
      r := LiftAll(e, arena);
      if r.Ok? {
        r, marks := RunRounds();
      }
    }

    /** One more round after those of marks. */
    method RoundAfter(ghost marks: seq<Mark>, ghost start: Snap, ghost val0: seq<Val>) returns (r: Result<(nat, nat)>)
      requires Valid() && val0 <= val && Grown(start, Now())
      requires Chronicle(Now(), nodeClass, float, marks, Mark(Now().roots, classConst), recs)
      requires marks != [] ==> !QuietRound(float, marks, |marks| - 1, Mark(Now().roots, classConst), recs)
      modifies this`xirOf, this`val, this`classConst, g, g.uf
      ensures Valid() && val0 <= val && Grown(start, Now())
      ensures var more := marks + [Mark(old(Now()).roots, old(classConst))];
              var end := Mark(Now().roots, classConst);
              r.Ok? ==>
                && Chronicle(Now(), nodeClass, float, more, end, recs)
                && (r.value == (0, 0) <==> QuietRound(float, more, |marks|, end, recs))
      ensures r.Ok? ==> CommutedBelow(Now(), nodeClass, recs, |recs|)
    {
      ghost var snap, mark := Now(), Mark(Now().roots, classConst);
      r := Round();
      GrownTrans(start, snap, Now());
      if r.Ok? {
        ChronicleGrows(snap, Now(), nodeClass, float, marks, mark, Mark(Now().roots, classConst), recs);
      }
    }
  }

  // ---- What is known ----

  /** Nothing known is forgotten. */
  ghost predicate Learns(before: seq<Option<ConstVal>>, after: seq<Option<ConstVal>>) {
    |after| == |before| && forall i :: 0 <= i < |before| && before[i].Some? ==> after[i].Some?
  }

  /** Some id of the class has a known constant. */
  ghost predicate KnownFor(roots: seq<nat>, consts: seq<Option<ConstVal>>, c: nat) {
    c < |roots| && exists j :: 0 <= j < |consts| && j < |roots| && consts[j].Some? && roots[j] == roots[c]
  }

  /** If two canonical ids were joined and one had a constant, the one that took over has it. */
  ghost predicate PassedOn(roots: seq<nat>, consts: seq<Option<ConstVal>>, after: seq<nat>, known: seq<Option<ConstVal>>, a: nat, b: nat) {
    a < |roots| == |after| && b < |roots| && a < |consts| == |known| && b < |consts| && roots[a] == a && roots[b] == b
    && (consts[a].Some? || consts[b].Some?) ==>
      (after[a] == a && known[a].Some?) || (after[b] == b && known[b].Some?)
  }

  lemma PassedOnIs(roots: seq<nat>, consts: seq<Option<ConstVal>>, after: seq<nat>, a: nat, b: nat, winner: nat)
    requires a < |roots| && b < |roots| == |after| && (winner == roots[a] || winner == roots[b]) && winner < |after| && after[winner] == winner
    requires a < |consts| && b < |consts| && winner < |consts|
    ensures var loser := if winner == a then b else a;
            var known := if consts[winner] == None then consts[winner := consts[loser]] else consts;
            PassedOn(roots, consts, after, known, a, b)
  {
  }

  /** Ids below n pass their constants on to their canonical ids. */
  ghost predicate HomedBelow(roots: seq<nat>, consts: seq<Option<ConstVal>>, n: nat) {
    forall i :: 0 <= i < n && i < |consts| && i < |roots| && consts[i].Some? ==> roots[i] < |consts| && consts[roots[i]].Some?
  }

  /** Passing the constant of id i on to its canonical id. */
  lemma HomedStep(roots: seq<nat>, consts: seq<Option<ConstVal>>, i: nat)
    requires HomedBelow(roots, consts, i) && i < |roots| && i < |consts| && consts[i].Some?
    requires roots[i] < |consts| && roots[i] < |roots| && roots[roots[i]] == roots[i]
    ensures var after := if consts[roots[i]] == None then consts[roots[i] := consts[i]] else consts;
            Learns(consts, after) && HomedBelow(roots, after, i + 1)
  {
  }

  lemma LearnsSet(consts: seq<Option<ConstVal>>, c: nat, known: Option<ConstVal>)
    requires c < |consts| && known.Some?
    ensures Learns(consts, consts[c := known])
  {
  }

  lemma KnownBy(roots: seq<nat>, consts: seq<Option<ConstVal>>, j: nat, c: nat)
    requires j < |consts| && j < |roots| && consts[j].Some? && c < |roots| && roots[j] == roots[c]
    ensures KnownFor(roots, consts, c)
  {
  }

  lemma LearnsTrans(a: seq<Option<ConstVal>>, b: seq<Option<ConstVal>>, c: seq<Option<ConstVal>>)
    requires Learns(a, b) && Learns(b, c)
    ensures Learns(a, c)
  {
  }

  ghost predicate NoRewrites(rewrites: seq<Option<Rewrite>>, n: nat) {
    forall i :: 0 <= i < n && i < |rewrites| ==> rewrites[i].None?
  }

  lemma NoRewritesStep(rewrites: seq<Option<Rewrite>>, n: nat)
    requires n < |rewrites|
    ensures NoRewrites(rewrites, n + 1) <==> NoRewrites(rewrites, n) && rewrites[n].None?
  {
  }

  /** The step moved classes, or changed nothing at all. */
  ghost predicate Honest(moved: bool, s: Snap, t: Snap, before: seq<Option<ConstVal>>, after: seq<Option<ConstVal>>) {
    if moved then t.roots != s.roots else t == s && after == before
  }

  lemma HonestThen(one: bool, two: bool, s: Snap, t: Snap, u: Snap,
                   a: seq<Option<ConstVal>>, b: seq<Option<ConstVal>>, c: seq<Option<ConstVal>>)
    requires Grown(s, t) && Grown(t, u) && Honest(one, s, t, a, b) && Honest(two, t, u, b, c)
    ensures Honest(one || two, s, u, a, c)
  {
    CoarserSteps(s.roots, t.roots, u.roots);
  }

  lemma KnownStays(s: Snap, t: Snap, before: seq<Option<ConstVal>>, after: seq<Option<ConstVal>>, c: nat)
    requires Grown(s, t) && Learns(before, after) && KnownFor(s.roots, before, c)
    ensures KnownFor(t.roots, after, c)
  {
    var j :| 0 <= j < |before| && j < |s.roots| && before[j].Some? && s.roots[j] == s.roots[c];
    assert StaysJoined(s.roots, t.roots, j, c);
  }

  lemma KnownUp(before: Snap, t: Snap, consts: seq<Option<ConstVal>>, own: nat, canon: nat, rw: Rewrite)
    requires Grown(before, t) && own < |before.roots| && canon < |before.roots| && before.roots[own] == before.roots[canon]
    requires rw.ToConst? ==> KnownFor(t.roots, consts, canon)
    ensures rw.ToConst? ==> KnownFor(t.roots, consts, own)
  {
    assert StaysJoined(before.roots, t.roots, own, canon);
  }

  /** The classes of folded records have a known constant. */
  ghost predicate LearnedBelow(roots: seq<nat>, consts: seq<Option<ConstVal>>, classOf: seq<Option<nat>>, recs: seq<Record>,
                               rewrites: seq<Option<Rewrite>>, n: nat) {
    forall i :: 0 <= i < n && i < |recs| && i < |rewrites| && rewrites[i].Some? && rewrites[i].value.ToConst? ==>
      recs[i].node < |classOf| && classOf[recs[i].node].Some? && KnownFor(roots, consts, classOf[recs[i].node].value)
  }

  lemma LearnedGrown(s: Snap, t: Snap, before: seq<Option<ConstVal>>, after: seq<Option<ConstVal>>, classOf: seq<Option<nat>>,
                     recs: seq<Record>, rewrites: seq<Option<Rewrite>>, n: nat)
    requires Grown(s, t) && Learns(before, after) && n < |recs| && n < |rewrites|
    requires LearnedBelow(s.roots, before, classOf, recs, rewrites, n)
    requires rewrites[n].Some? && rewrites[n].value.ToConst? ==>
               recs[n].node < |classOf| && classOf[recs[n].node].Some? && KnownFor(t.roots, after, classOf[recs[n].node].value)
    ensures LearnedBelow(t.roots, after, classOf, recs, rewrites, n + 1)
  {
    forall i | 0 <= i < n && rewrites[i].Some? && rewrites[i].value.ToConst?
      ensures recs[i].node < |classOf| && classOf[recs[i].node].Some? && KnownFor(t.roots, after, classOf[recs[i].node].value)
    {
      KnownStays(s, t, before, after, classOf[recs[i].node].value);
    }
  }

  /** The i-th rewrite, if any, has landed and a fold is known; otherwise nothing has changed. */
  ghost predicate NthDone(s: Snap, before: seq<Option<ConstVal>>, t: Snap, after: seq<Option<ConstVal>>, classOf: seq<Option<nat>>,
                          recs: seq<Record>, rewrites: seq<Option<Rewrite>>, i: nat) {
    && i < |recs| && i < |rewrites|
    && if rewrites[i].None? then t == s && after == before
       else
         && recs[i].node < |classOf| && classOf[recs[i].node].Some?
         && Landed(t, classOf[recs[i].node].value, rewrites[i].value)
         && (rewrites[i].value.ToConst? ==> KnownFor(t.roots, after, classOf[recs[i].node].value))
  }

  /** The first n rewrites are done, and the count is zero exactly if there were none. */
  ghost predicate Underway(s: Snap, before: seq<Option<ConstVal>>, t: Snap, after: seq<Option<ConstVal>>, classOf: seq<Option<nat>>,
                           recs: seq<Record>, rewrites: seq<Option<Rewrite>>, n: nat, fired: nat) {
    && Grown(s, t) && Learns(before, after)
    && LandedBelow(t, classOf, recs, rewrites, n) && LearnedBelow(t.roots, after, classOf, recs, rewrites, n)
    && (fired == 0 <==> NoRewrites(rewrites, n)) && (fired == 0 ==> t == s && after == before)
  }

  lemma UnderwayStart(s: Snap, consts: seq<Option<ConstVal>>, classOf: seq<Option<nat>>, recs: seq<Record>, rewrites: seq<Option<Rewrite>>)
    requires AllBounded(s.nodes) && |s.nodes| <= |s.roots|
    ensures Underway(s, consts, s, consts, classOf, recs, rewrites, 0, 0)
  {
    GrownSelf(s);
  }

  lemma UnderwayStep(s: Snap, a: seq<Option<ConstVal>>, t: Snap, b: seq<Option<ConstVal>>, u: Snap, c: seq<Option<ConstVal>>,
                     classOf: seq<Option<nat>>, recs: seq<Record>, rewrites: seq<Option<Rewrite>>, n: nat, fired: nat)
    requires Underway(s, a, t, b, classOf, recs, rewrites, n, fired) && NthDone(t, b, u, c, classOf, recs, rewrites, n)
    requires Grown(s, u) && Grown(t, u) && Learns(a, c) && Learns(b, c) && |u.nodes| <= |u.roots|
    ensures Underway(s, a, u, c, classOf, recs, rewrites, n + 1, fired + if rewrites[n].Some? then 1 else 0)
  {
    LandedGrown(t, u, classOf, recs, rewrites, n);
    LearnedGrown(t, u, b, c, classOf, recs, rewrites, n);
    NoRewritesStep(rewrites, n);
  }

  /** Record i folds on these canonical ids and constants. */
  ghost predicate Folds(float: (BinaryOp, nat, nat) -> nat, roots: seq<nat>, consts: seq<Option<ConstVal>>, rec: Record) {
    RuleOf(float, roots, consts, rec).Some? && RuleOf(float, roots, consts, rec).value.ToConst?
  }

  ghost predicate AllLearned(now: seq<nat>, known: seq<Option<ConstVal>>, classOf: seq<Option<nat>>,
                             float: (BinaryOp, nat, nat) -> nat, roots: seq<nat>, consts: seq<Option<ConstVal>>, recs: seq<Record>) {
    forall i :: 0 <= i < |recs| && Folds(float, roots, consts, recs[i]) ==>
      recs[i].node < |classOf| && classOf[recs[i].node].Some? && KnownFor(now, known, classOf[recs[i].node].value)
  }

  /** The canonical ids of folded records have a known constant. */
  ghost predicate AllKnown(now: seq<nat>, known: seq<Option<ConstVal>>, classOf: seq<Option<nat>>,
                           float: (BinaryOp, nat, nat) -> nat, roots: seq<nat>, consts: seq<Option<ConstVal>>, recs: seq<Record>) {
    forall i :: 0 <= i < |recs| && Folds(float, roots, consts, recs[i]) ==> KnownHome(now, known, classOf, recs[i].node)
  }

  ghost predicate KnownHome(now: seq<nat>, known: seq<Option<ConstVal>>, classOf: seq<Option<nat>>, x: nat) {
    && x < |classOf| && classOf[x].Some? && classOf[x].value < |now|
    && now[classOf[x].value] < |known| && known[now[classOf[x].value]].Some?
  }

  ghost predicate NoneFires(float: (BinaryOp, nat, nat) -> nat, roots: seq<nat>, consts: seq<Option<ConstVal>>, recs: seq<Record>) {
    forall i :: 0 <= i < |recs| ==> RuleOf(float, roots, consts, recs[i]).None?
  }

  lemma LearnedAll(now: seq<nat>, known: seq<Option<ConstVal>>, classOf: seq<Option<nat>>, float: (BinaryOp, nat, nat) -> nat,
                   roots: seq<nat>, consts: seq<Option<ConstVal>>, recs: seq<Record>, rewrites: seq<Option<Rewrite>>)
    requires LearnedBelow(now, known, classOf, recs, rewrites, |recs|) && rewrites == RulesOf(float, roots, consts, recs)
    ensures AllLearned(now, known, classOf, float, roots, consts, recs)
    ensures NoRewrites(rewrites, |rewrites|) <==> NoneFires(float, roots, consts, recs)
  {
    assert forall i :: 0 <= i < |recs| ==> rewrites[i] == RuleOf(float, roots, consts, recs[i]);
  }

  lemma AllLearnedGrown(s: Snap, t: Snap, before: seq<Option<ConstVal>>, after: seq<Option<ConstVal>>, classOf: seq<Option<nat>>,
                        float: (BinaryOp, nat, nat) -> nat, roots: seq<nat>, consts: seq<Option<ConstVal>>, recs: seq<Record>)
    requires Grown(s, t) && Learns(before, after) && AllLearned(s.roots, before, classOf, float, roots, consts, recs)
    ensures AllLearned(t.roots, after, classOf, float, roots, consts, recs)
  {
    forall i | 0 <= i < |recs| && Folds(float, roots, consts, recs[i])
      ensures KnownFor(t.roots, after, classOf[recs[i].node].value)
    {
      KnownStays(s, t, before, after, classOf[recs[i].node].value);
    }
  }

  /** Once constants are passed on to canonical ids, what was learned is known there. */
  lemma LearnedIsKnown(s: Snap, t: Snap, before: seq<Option<ConstVal>>, after: seq<Option<ConstVal>>, classOf: seq<Option<nat>>,
                       float: (BinaryOp, nat, nat) -> nat, roots: seq<nat>, consts: seq<Option<ConstVal>>, recs: seq<Record>)
    requires Grown(s, t) && Learns(before, after) && AllLearned(s.roots, before, classOf, float, roots, consts, recs)
    requires HomedBelow(t.roots, after, |after|)
    ensures AllKnown(t.roots, after, classOf, float, roots, consts, recs)
  {
    AllLearnedGrown(s, t, before, after, classOf, float, roots, consts, recs);
  }

  // ---- Rounds in a row ----

  /** Canonical ids and known constants at the start of a round. */
  datatype Mark = Mark(roots: seq<nat>, consts: seq<Option<ConstVal>>)

  ghost predicate AllMarksLanded(t: Snap, classOf: seq<Option<nat>>, float: (BinaryOp, nat, nat) -> nat, marks: seq<Mark>, recs: seq<Record>) {
    forall k :: 0 <= k < |marks| ==> AllLanded(t, classOf, float, marks[k].roots, marks[k].consts, recs)
  }

  function MarkAt(marks: seq<Mark>, k: nat, end: Mark): Mark {
    if k < |marks| then marks[k] else end
  }

  /** No rule fires in round k and it joins no classes. */
  ghost predicate QuietRound(float: (BinaryOp, nat, nat) -> nat, marks: seq<Mark>, k: nat, end: Mark, recs: seq<Record>) {
    var a, b := MarkAt(marks, k, end), MarkAt(marks, k + 1, end);
    NoneFires(float, a.roots, a.consts, recs) && b.roots == a.roots
  }

  ghost predicate BusyBelow(float: (BinaryOp, nat, nat) -> nat, marks: seq<Mark>, n: int, end: Mark, recs: seq<Record>) {
    forall k :: 0 <= k < n ==> !QuietRound(float, marks, k, end, recs)
  }

  /** What a round folds the next one knows. */
  ghost predicate Cascades(classOf: seq<Option<nat>>, float: (BinaryOp, nat, nat) -> nat, marks: seq<Mark>, end: Mark, recs: seq<Record>) {
    forall k :: 0 <= k < |marks| ==> Cascade(classOf, float, marks[k], MarkAt(marks, k + 1, end), recs)
  }

  ghost predicate Cascade(classOf: seq<Option<nat>>, float: (BinaryOp, nat, nat) -> nat, a: Mark, b: Mark, recs: seq<Record>) {
    AllKnown(b.roots, b.consts, classOf, float, a.roots, a.consts, recs)
  }

  /** Every round's rules have landed, what it folds the next one knows, and no round but the last
      is quiet. */
  ghost predicate Chronicle(t: Snap, classOf: seq<Option<nat>>, float: (BinaryOp, nat, nat) -> nat, marks: seq<Mark>, end: Mark, recs: seq<Record>) {
    && AllMarksLanded(t, classOf, float, marks, recs) && Cascades(classOf, float, marks, end, recs)
    && BusyBelow(float, marks, |marks| - 1, end, recs)
  }

  lemma ChronicleGrows(s: Snap, t: Snap, classOf: seq<Option<nat>>, float: (BinaryOp, nat, nat) -> nat, marks: seq<Mark>, mark: Mark,
                       end: Mark, recs: seq<Record>)
    requires Grown(s, t) && |t.nodes| <= |t.roots| && Chronicle(s, classOf, float, marks, mark, recs)
    requires marks != [] ==> !QuietRound(float, marks, |marks| - 1, mark, recs)
    requires AllLanded(t, classOf, float, mark.roots, mark.consts, recs) && Cascade(classOf, float, mark, end, recs)
    ensures Chronicle(t, classOf, float, marks + [mark], end, recs)
    ensures QuietRound(float, marks + [mark], |marks|, end, recs) <==> NoneFires(float, mark.roots, mark.consts, recs) && end.roots == mark.roots
  {
    MarksGrow(s, t, classOf, float, marks, mark, recs);
    CascadesGrow(classOf, float, marks, mark, end, recs);
    BusyGrows(float, marks, mark, end, recs);
  }

  lemma BusyGrows(float: (BinaryOp, nat, nat) -> nat, marks: seq<Mark>, mark: Mark, end: Mark, recs: seq<Record>)
    requires BusyBelow(float, marks, |marks| - 1, mark, recs)
    requires marks != [] ==> !QuietRound(float, marks, |marks| - 1, mark, recs)
    ensures BusyBelow(float, marks + [mark], |marks|, end, recs)
  {
    forall k | 0 <= k < |marks|
      ensures !QuietRound(float, marks + [mark], k, end, recs)
    {
      assert !QuietRound(float, marks, k, mark, recs);
    }
  }

  lemma CascadesGrow(classOf: seq<Option<nat>>, float: (BinaryOp, nat, nat) -> nat, marks: seq<Mark>, mark: Mark, end: Mark, recs: seq<Record>)
    requires Cascades(classOf, float, marks, mark, recs) && Cascade(classOf, float, mark, end, recs)
    ensures Cascades(classOf, float, marks + [mark], end, recs)
  {
    var more := marks + [mark];
    forall k | 0 <= k < |more|
      ensures Cascade(classOf, float, more[k], MarkAt(more, k + 1, end), recs)
    {
      assert k < |marks| ==> Cascade(classOf, float, marks[k], MarkAt(marks, k + 1, mark), recs);
    }
  }

  lemma MarksGrow(s: Snap, t: Snap, classOf: seq<Option<nat>>, float: (BinaryOp, nat, nat) -> nat, marks: seq<Mark>, mark: Mark, recs: seq<Record>)
    requires Grown(s, t) && |t.nodes| <= |t.roots| && AllMarksLanded(s, classOf, float, marks, recs)
    requires AllLanded(t, classOf, float, mark.roots, mark.consts, recs)
    ensures AllMarksLanded(t, classOf, float, marks + [mark], recs)
  {
    forall k | 0 <= k < |marks|
      ensures AllLanded(t, classOf, float, marks[k].roots, marks[k].consts, recs)
    {
      AllLandedGrown(s, t, classOf, float, marks[k].roots, marks[k].consts, recs);
    }
  }

  // ---- What a round achieves ----

  function KnownAt(consts: seq<Option<ConstVal>>, c: nat): Option<ConstVal> {
    if c < |consts| then consts[c] else None
  }

  function KnownOf(consts: seq<Option<ConstVal>>, ids: seq<nat>): (r: seq<Option<ConstVal>>)
    ensures |r| == |ids|
  {
    seq(|ids|, k requires 0 <= k < |ids| => KnownAt(consts, ids[k]))
  }

  /** The rule a record fires on given canonical ids and known constants. */
  ghost function RuleOf(float: (BinaryOp, nat, nat) -> nat, roots: seq<nat>, consts: seq<Option<ConstVal>>, rec: Record): Option<Rewrite> {
    if forall k :: 0 <= k < |rec.children| ==> rec.children[k] < |roots| then
      var children := Canonized(roots, rec.children);
      LocalRules(float, rec.op, children, KnownOf(consts, children), rec.elem)
    else None
  }

  ghost function RulesOf(float: (BinaryOp, nat, nat) -> nat, roots: seq<nat>, consts: seq<Option<ConstVal>>,
                         recs: seq<Record>): (r: seq<Option<Rewrite>>)
    ensures |r| == |recs|
  {
    seq(|recs|, i requires 0 <= i < |recs| => RuleOf(float, roots, consts, recs[i]))
  }

  /** The equation a rewrite states holds between classes. */
  ghost predicate Landed(t: Snap, own: nat, rw: Rewrite) {
    match rw
    case ToConst(c) => Has(t, own, ENode(OpOf(c), []))
    case PassThrough(child) => own < |t.roots| && child < |t.roots| && t.roots[own] == t.roots[child]
  }

  ghost predicate LandedBelow(t: Snap, classOf: seq<Option<nat>>, recs: seq<Record>, rewrites: seq<Option<Rewrite>>, n: nat) {
    forall i :: 0 <= i < n && i < |recs| && i < |rewrites| && rewrites[i].Some? ==>
      recs[i].node < |classOf| && classOf[recs[i].node].Some? && Landed(t, classOf[recs[i].node].value, rewrites[i].value)
  }

  ghost predicate AllLanded(t: Snap, classOf: seq<Option<nat>>, float: (BinaryOp, nat, nat) -> nat, roots: seq<nat>,
                            consts: seq<Option<ConstVal>>, recs: seq<Record>) {
    forall i :: 0 <= i < |recs| && RuleOf(float, roots, consts, recs[i]).Some? ==>
      && recs[i].node < |classOf| && classOf[recs[i].node].Some?
      && Landed(t, classOf[recs[i].node].value, RuleOf(float, roots, consts, recs[i]).value)
  }

  /** A commutative record's class has the form with the operands swapped. */
  ghost predicate Commuted(t: Snap, classOf: seq<Option<nat>>, rec: Record) {
    |rec.children| == 2 && Commutative(rec.op, rec.elem) ==>
      && rec.node < |classOf| && classOf[rec.node].Some?
      && rec.children[0] < |t.roots| && rec.children[1] < |t.roots|
      && (|| t.roots[rec.children[0]] == t.roots[rec.children[1]]
          || Has(t, classOf[rec.node].value, ENode(rec.op, [rec.children[1], rec.children[0]])))
  }

  ghost predicate CommutedBelow(t: Snap, classOf: seq<Option<nat>>, recs: seq<Record>, n: nat) {
    forall i :: 0 <= i < n && i < |recs| ==> Commuted(t, classOf, recs[i])
  }

  /** The constant a fold claims, as an operation and as a known value. */
  lemma ConstMeans(m: Meaning, val: seq<Val>, c: ConstVal)
    ensures Claimed(val, ToConst(c)) == Eval(m, OpOf(c), []) && Truthful(Some(c), Claimed(val, ToConst(c)))
  {
  }

  lemma HasCanon(t: Snap, c: nat, node: ENode)
    requires Has(t, c, node) && Canonical(t.roots, |t.nodes|)
    ensures Has(t, t.roots[c], node)
  {
  }

  /** Canonical children and known constants tell the truth. */
  lemma SnapshotTrue(roots: seq<nat>, val: seq<Val>, consts: seq<Option<ConstVal>>, ids: seq<nat>)
    requires Sound(roots, val) && ConstsTrue(val, consts) && forall k :: 0 <= k < |ids| ==> ids[k] < |val|
    ensures var children := Canonized(roots, ids);
            && (forall k :: 0 <= k < |ids| ==> children[k] < |val| && Truthful(KnownOf(consts, children)[k], val[children[k]]))
            && Args(val, children) == Args(val, ids)
  {
    var children := Canonized(roots, ids);
    forall k | 0 <= k < |ids|
      ensures children[k] < |val| && val[children[k]] == val[ids[k]] && Truthful(KnownOf(consts, children)[k], val[children[k]])
    {
      assert SoundAt(roots, val, ids[k]);
    }
    assert Args(val, children) == Args(val, ids);
  }

  lemma TablesGrow(m: Meaning, val: seq<Val>, x: Val, classOf: seq<Option<nat>>, recs: seq<Record>,
                   consts: seq<Option<ConstVal>>, xval: seq<Val>)
    requires RecordsOk(m, val, classOf, recs) && ConstsTrue(val, consts) && Tied(val, classOf, xval)
    ensures RecordsOk(m, val + [x], classOf, recs) && ConstsTrue(val + [x], consts) && Tied(val + [x], classOf, xval)
  {
    RecordsGrow(m, val, val + [x], classOf, recs);
  }

  lemma OriginsGrow(xirOf: seq<Option<nat>>, val: seq<Val>, xval: seq<Val>, from: Option<nat>, x: Val)
    requires OriginsOk(xirOf, val, xval) && |xirOf| == |val|
    requires from.Some? ==> from.value < |xval| && xval[from.value] == x
    ensures OriginsOk(xirOf + [from], val + [x], xval)
  {
  }

  lemma SoundExtend(roots: seq<nat>, val: seq<Val>, x: Val)
    requires Sound(roots, val) && |val| < |roots| && roots[|val|] == |val|
    ensures Sound(roots, val + [x])
  {
    forall y | 0 <= y < |val + [x]|
      ensures SoundAt(roots, val + [x], y)
    {
      assert y < |val| ==> SoundAt(roots, val, y);
    }
  }

  lemma FoundHas(t: Snap, node: ENode, c: nat)
    requires Found(t.roots, t.nodes, node, c) && Canonical(t.roots, |t.nodes|)
    requires forall k :: 0 <= k < |node.children| ==> node.children[k] < |t.roots|
    ensures Has(t, c, node)
  {
  }

  /** What a rewrite claims of an id it claims of the canonical id. */
  lemma RewriteMoves(roots: seq<nat>, val: seq<Val>, own: nat, rw: Rewrite)
    requires Sound(roots, val) && RewriteOk(val, own, Some(rw))
    ensures own < |val| <= |roots| && roots[own] < |val| && RewriteOk(val, roots[own], Some(rw))
  {
    assert SoundAt(roots, val, own);
  }

  /** What holds of the canonical id holds of every id of the class. */
  lemma LandedUp(before: Snap, t: Snap, own: nat, canon: nat, rw: Rewrite)
    requires Grown(before, t) && own < |before.roots| && canon < |before.roots| && before.roots[own] == before.roots[canon]
    requires Landed(t, canon, rw)
    ensures Landed(t, own, rw)
  {
    assert StaysJoined(before.roots, t.roots, own, canon);
  }

  lemma CommutedUp(before: Snap, t: Snap, classOf: seq<Option<nat>>, rec: Record, own: nat, c0: nat, c1: nat)
    requires Grown(before, t) && |rec.children| == 2 && rec.children[0] < |before.roots| && rec.children[1] < |before.roots|
    requires rec.node < |classOf| && classOf[rec.node].Some? && classOf[rec.node].value < |before.roots|
    requires own < |before.roots| && before.roots[classOf[rec.node].value] == before.roots[own]
    requires c0 < |before.roots| && before.roots[rec.children[0]] == before.roots[c0]
    requires c1 < |before.roots| && before.roots[rec.children[1]] == before.roots[c1]
    requires Has(t, own, ENode(rec.op, [c1, c0]))
    ensures Commuted(t, classOf, rec)
  {
    var own0, a, b := classOf[rec.node].value, rec.children[0], rec.children[1];
    assert StaysJoined(before.roots, t.roots, own0, own);
    assert StaysJoined(before.roots, t.roots, a, c0) && StaysJoined(before.roots, t.roots, b, c1);
    var i :| 0 <= i < |t.nodes| && t.roots[i] == t.roots[own] && SameNode(t.roots, ENode(rec.op, [c1, c0]), t.nodes[i]);
    assert SameNode(t.roots, ENode(rec.op, [b, a]), ENode(rec.op, [c1, c0]));
    SameNodeTrans(t.roots, ENode(rec.op, [b, a]), ENode(rec.op, [c1, c0]), t.nodes[i]);
  }

  lemma LandedStays(s: Snap, t: Snap, own: nat, rw: Rewrite)
    requires Grown(s, t) && Landed(s, own, rw) && |t.nodes| <= |t.roots|
    ensures Landed(t, own, rw)
  {
    match rw
    case ToConst(c) => GrownHas(s, t, own, ENode(OpOf(c), []));
    case PassThrough(child) => assert StaysJoined(s.roots, t.roots, own, child);
  }

  lemma CommutedStays(s: Snap, t: Snap, classOf: seq<Option<nat>>, rec: Record)
    requires Grown(s, t) && Commuted(s, classOf, rec) && |t.nodes| <= |t.roots|
    ensures Commuted(t, classOf, rec)
  {
    if |rec.children| == 2 && Commutative(rec.op, rec.elem) {
      assert StaysJoined(s.roots, t.roots, rec.children[0], rec.children[1]);
      if s.roots[rec.children[0]] != s.roots[rec.children[1]] {
        GrownHas(s, t, classOf[rec.node].value, ENode(rec.op, [rec.children[1], rec.children[0]]));
      }
    }
  }

  lemma LandedGrown(s: Snap, t: Snap, classOf: seq<Option<nat>>, recs: seq<Record>, rewrites: seq<Option<Rewrite>>, n: nat)
    requires Grown(s, t) && |t.nodes| <= |t.roots| && LandedBelow(s, classOf, recs, rewrites, n) && n < |recs| && n < |rewrites|
    requires rewrites[n].Some? ==>
               recs[n].node < |classOf| && classOf[recs[n].node].Some? && Landed(t, classOf[recs[n].node].value, rewrites[n].value)
    ensures LandedBelow(t, classOf, recs, rewrites, n + 1)
  {
    forall i | 0 <= i < n && rewrites[i].Some?
      ensures recs[i].node < |classOf| && classOf[recs[i].node].Some? && Landed(t, classOf[recs[i].node].value, rewrites[i].value)
    {
      LandedStays(s, t, classOf[recs[i].node].value, rewrites[i].value);
    }
  }

  lemma LandedAll(t: Snap, classOf: seq<Option<nat>>, float: (BinaryOp, nat, nat) -> nat, roots: seq<nat>,
                  consts: seq<Option<ConstVal>>, recs: seq<Record>, rewrites: seq<Option<Rewrite>>)
    requires LandedBelow(t, classOf, recs, rewrites, |recs|) && rewrites == RulesOf(float, roots, consts, recs)
    ensures AllLanded(t, classOf, float, roots, consts, recs)
  {
  }

  lemma AllLandedGrown(s: Snap, t: Snap, classOf: seq<Option<nat>>, float: (BinaryOp, nat, nat) -> nat, roots: seq<nat>,
                       consts: seq<Option<ConstVal>>, recs: seq<Record>)
    requires Grown(s, t) && |t.nodes| <= |t.roots| && AllLanded(s, classOf, float, roots, consts, recs)
    ensures AllLanded(t, classOf, float, roots, consts, recs)
  {
    forall i | 0 <= i < |recs| && RuleOf(float, roots, consts, recs[i]).Some?
      ensures Landed(t, classOf[recs[i].node].value, RuleOf(float, roots, consts, recs[i]).value)
    {
      LandedStays(s, t, classOf[recs[i].node].value, RuleOf(float, roots, consts, recs[i]).value);
    }
  }

  lemma CommutedBelowGrown(s: Snap, t: Snap, classOf: seq<Option<nat>>, recs: seq<Record>, n: nat)
    requires Grown(s, t) && |t.nodes| <= |t.roots| && CommutedBelow(s, classOf, recs, n)
    ensures CommutedBelow(t, classOf, recs, n)
  {
    forall i | 0 <= i < n && i < |recs|
      ensures Commuted(t, classOf, recs[i])
    {
      CommutedStays(s, t, classOf, recs[i]);
    }
  }

  lemma CommutedGrown(s: Snap, t: Snap, classOf: seq<Option<nat>>, recs: seq<Record>, n: nat)
    requires Grown(s, t) && |t.nodes| <= |t.roots| && CommutedBelow(s, classOf, recs, n)
    requires n < |recs| && Commuted(t, classOf, recs[n])
    ensures CommutedBelow(t, classOf, recs, n + 1)
  {
    CommutedBelowGrown(s, t, classOf, recs, n);
  }

  /** saturate: lift, then run the rounds. Whatever the meaning m and the run xval of the
      program, success or not, every lifted node's class denotes what the node computes. */
  method Saturate(arena: seq<XNode>, budget: nat, hash: ENode -> nat, float: (BinaryOp, nat, nat) -> nat,
                  ghost m: Meaning, ghost e: Effects, ghost xval: seq<Val>) returns (lg: LiftedGraph, r: Result<nat>, ghost marks: seq<Mark>)
    requires m.float == float && RunOf(m, e, arena, xval) && AllAdmissible(arena, xval)
    ensures fresh(lg) && fresh(lg.g) && fresh(lg.g.uf) && lg.Valid() && lg.m == m && lg.xval == xval && lg.float == float
    ensures lg.val == Denotes(m, lg.g.nodes)
    ensures r.Ok? ==> lg.Saturated(arena, marks)
  {
    lg := new LiftedGraph(|arena|, budget, hash, float, m, xval);
    r, marks := lg.LiftAndRun(e, arena);
    DenotesIsOnly(m, lg.g.nodes, lg.val);
  }

  /** What a valid lifted graph says in its meaning m: e-nodes in one member list denote one
      value, known constants are that value, and a lifted program node's class denotes what the
      node computes. */
  lemma ClassesMeanOneValue(lg: LiftedGraph, c: nat, i: nat, j: nat)
    requires lg.Valid() && c in lg.g.classes && i in lg.g.classes[c] && j in lg.g.classes[c]
    ensures var val := Denotes(lg.m, lg.g.nodes);
            && i < |val| && j < |val| && c < |val| && val[i] == val[j] == val[c]
            && c < |lg.classConst| && Truthful(lg.classConst[c], val[i])
            && (forall x :: 0 <= x < |lg.nodeClass| && lg.nodeClass[x].Some? && lg.nodeClass[x].value == i ==> lg.xval[x] == val[i])
  {
    DenotesIsOnly(lg.m, lg.g.nodes, lg.val);
    var roots := Roots(lg.g.uf.parent);
    assert MembersOf(roots, |lg.g.nodes|, c, lg.g.classes[c]);
    assert SoundAt(roots, lg.val, i) && SoundAt(roots, lg.val, j);
  }

  /** Pure nodes all of whose inputs come from pure nodes, in slot order. */
  method Liftable(arena: seq<XNode>) returns (r: seq<nat>)
    requires forall i :: 0 <= i < |arena| ==> InputsExist(arena[i], |arena|)
    ensures forall i :: i in r <==> 0 <= i < |arena| && Pure(arena[i].op) && PureInputs(arena, arena[i])
    ensures Ascending(r) && AllPure(arena, r) && |r| <= |arena|
  {
    r := [];
    for i := 0 to |arena|
      invariant forall x :: x in r <==> 0 <= x < i && Pure(arena[x].op) && PureInputs(arena, arena[x])
      invariant Ascending(r) && AllPure(arena, r) && |r| <= i
    {
      if Pure(arena[i].op) && PureInputs(arena, arena[i]) {
        assert forall k :: 0 <= k < |r| ==> r[k] in r;
        r := r + [i];
      }
    }
  }

  /** Every pure node with pure inputs is lifted, or has too many inputs or one that is not lifted. */
  ghost predicate AllTried(arena: seq<XNode>, classOf: seq<Option<nat>>) {
    |classOf| == |arena| && forall id ::
      0 <= id < |arena| && Pure(arena[id].op) && InputsExist(arena[id], |arena|) && PureInputs(arena, arena[id]) ==>
      classOf[id].Some? || Waiting(classOf, arena[id].inputs)
  }

  /** One record more, for this node under this class, whose constant is known if it is one. */
  ghost predicate Entered(before: seq<Record>, after: seq<Record>, known: seq<Option<ConstVal>>, consts: seq<Option<ConstVal>>,
                          id: nat, node: XNode, class_: Option<nat>) {
    && |after| == |before| + 1 && after[..|before|] == before && class_.Some? && class_.value < |known|
    && consts == (if ConstOf(node.op).Some? then known[class_.value := ConstOf(node.op)] else known)
    && var rec := after[|before|];
       rec.node == id && rec.op == node.op && rec.elem == ElemOf(node.ty) && |rec.children| == |node.inputs|
  }

  /** A record repeats its node, and a constant node's class knows the constant. */
  ghost predicate RecordedAs(arena: seq<XNode>, classOf: seq<Option<nat>>, consts: seq<Option<ConstVal>>, rec: Record) {
    && rec.node < |arena| && rec.op == arena[rec.node].op && rec.elem == ElemOf(arena[rec.node].ty)
    && rec.node < |classOf| && classOf[rec.node].Some? && classOf[rec.node].value < |consts|
    && (ConstOf(rec.op).Some? ==> consts[classOf[rec.node].value].Some?)
  }

  ghost predicate HasRecord(recs: seq<Record>, x: nat) {
    exists i :: 0 <= i < |recs| && recs[i].node == x
  }

  /** Exactly the lifted nodes have records, and these are right. */
  ghost predicate Catalogued(arena: seq<XNode>, classOf: seq<Option<nat>>, recs: seq<Record>, consts: seq<Option<ConstVal>>) {
    && (forall i :: 0 <= i < |recs| ==> RecordedAs(arena, classOf, consts, recs[i]))
    && (forall x :: 0 <= x < |classOf| && classOf[x].Some? ==> HasRecord(recs, x))
  }

  lemma CataloguedGrows(arena: seq<XNode>, before: seq<Option<nat>>, after: seq<Option<nat>>, recs0: seq<Record>, recs: seq<Record>,
                        consts0: seq<Option<ConstVal>>, consts: seq<Option<ConstVal>>, id: nat)
    requires id < |arena| && id < |before| == |after| && after == before[id := after[id]]
    requires Entered(recs0, recs, consts0, consts, id, arena[id], after[id])
    ensures Catalogued(arena, before, recs0, consts0) ==> Catalogued(arena, after, recs, consts)
  {
    if Catalogued(arena, before, recs0, consts0) {
      forall i | 0 <= i < |recs|
        ensures RecordedAs(arena, after, consts, recs[i])
      {
        assert i < |recs0| ==> recs[i] == recs0[i] && RecordedAs(arena, before, consts0, recs0[i]);
      }
      forall x | 0 <= x < |after| && after[x].Some?
        ensures HasRecord(recs, x)
      {
        if x == id {
          assert recs[|recs0|].node == x;
        } else {
          assert HasRecord(recs0, x);
          var i :| 0 <= i < |recs0| && recs0[i].node == x;
          assert recs[i].node == x;
        }
      }
    }
  }

  /** Not ready to be lifted: too many inputs, or one that has no class. */
  predicate Waiting(classOf: seq<Option<nat>>, inputs: seq<nat>) {
    || |inputs| > MAX_CHILDREN
    || exists k :: 0 <= k < |inputs| && (inputs[k] >= |classOf| || classOf[inputs[k]].None?)
  }

  ghost predicate AllWaiting(classOf: seq<Option<nat>>, arena: seq<XNode>, ids: seq<nat>) {
    forall k :: 0 <= k < |ids| ==> ids[k] < |arena| && Waiting(classOf, arena[ids[k]].inputs)
  }

  ghost predicate MoreLifted(before: seq<Option<nat>>, after: seq<Option<nat>>) {
    |after| == |before| && forall x :: 0 <= x < |before| && before[x].Some? ==> after[x].Some?
  }

  /** Every id of all is lifted or still listed. */
  ghost predicate LiftedOr(classOf: seq<Option<nat>>, all: seq<nat>, rest: seq<nat>) {
    forall x :: x in all ==> x in rest || (x < |classOf| && classOf[x].Some?)
  }

  lemma PassKept(before: seq<Option<nat>>, after: seq<Option<nat>>, todo: seq<nat>, k: nat, next: seq<nat>, lifted: bool)
    requires k < |todo| && LiftedOr(before, todo[..k], next) && MoreLifted(before, after)
    requires lifted ==> todo[k] < |after| && after[todo[k]].Some?
    ensures LiftedOr(after, todo[..k + 1], if lifted then next else next + [todo[k]])
  {
  }

  lemma MoreLiftedTrans(a: seq<Option<nat>>, b: seq<Option<nat>>, c: seq<Option<nat>>)
    requires MoreLifted(a, b) && MoreLifted(b, c)
    ensures MoreLifted(a, c)
  {
  }

  lemma WaitingAppend(classOf: seq<Option<nat>>, arena: seq<XNode>, ids: seq<nat>, id: nat)
    requires id < |arena| && Waiting(classOf, arena[id].inputs)
    ensures AllWaiting(classOf, arena, ids) ==> AllWaiting(classOf, arena, ids + [id])
  {
  }

  lemma LiftedOrTrans(before: seq<Option<nat>>, after: seq<Option<nat>>, all: seq<nat>, mid: seq<nat>, rest: seq<nat>)
    requires LiftedOr(before, all, mid) && MoreLifted(before, after) && LiftedOr(after, mid, rest)
    ensures LiftedOr(after, all, rest)
  {
  }

  lemma AllLiftedOrWaiting(classOf: seq<Option<nat>>, arena: seq<XNode>, all: seq<nat>, rest: seq<nat>, id: nat)
    requires LiftedOr(classOf, all, rest) && id in all && (rest == [] || AllWaiting(classOf, arena, rest))
    ensures (id < |classOf| && classOf[id].Some?) || (id < |arena| && Waiting(classOf, arena[id].inputs))
  {
  }

  predicate AllPure(arena: seq<XNode>, ids: seq<nat>) {
    forall k :: 0 <= k < |ids| ==> ids[k] < |arena| && Pure(arena[ids[k]].op)
  }

  predicate PureInputs(arena: seq<XNode>, node: XNode)
    requires InputsExist(node, |arena|)
  {
    forall k :: 0 <= k < |node.inputs| ==> Pure(arena[node.inputs[k]].op)
  }

  /** A record's swapped form over canonical ids has the value of its canonical class. */
  lemma SwapReady(m: Meaning, val: seq<Val>, roots: seq<nat>, n: nat, classOf: seq<Option<nat>>, rec: Record, own: nat, c0: nat, c1: nat)
    requires Sound(roots, val) && Canonical(roots, n) && RecordOk(m, val, classOf, rec)
    requires |rec.children| == 2 && Commutative(rec.op, rec.elem)
    requires c0 == roots[rec.children[0]] && c1 == roots[rec.children[1]] && own == roots[classOf[rec.node].value]
    ensures own < |val| && c0 < |val| && c1 < |val|
    ensures roots[own] == own && roots[c0] == c0 && roots[c1] == c1
    ensures val[own] == Eval(m, rec.op, Args(val, [c1, c0]))
  {
    assert SoundAt(roots, val, rec.children[0]) && SoundAt(roots, val, rec.children[1]);
    assert SoundAt(roots, val, classOf[rec.node].value);
    SwappedValue(m, val, rec, c0, c1);
  }

  lemma SwappedValue(m: Meaning, val: seq<Val>, rec: Record, c0: nat, c1: nat)
    requires |rec.children| == 2 && rec.children[0] < |val| && rec.children[1] < |val| && c0 < |val| && c1 < |val|
    requires val[c0] == val[rec.children[0]] && val[c1] == val[rec.children[1]]
    requires Commutative(rec.op, rec.elem) && Admissible(rec.op, rec.elem, Args(val, rec.children))
    ensures Eval(m, rec.op, Args(val, rec.children)) == Eval(m, rec.op, Args(val, [c1, c0]))
  {
    assert Args(val, rec.children) == [val[c0], val[c1]];
    assert Args(val, [c1, c0]) == [val[c1], val[c0]];
    SwapSound(m, rec.op, rec.elem, val[c0], val[c1]);
  }

  lemma RetieRecords(m: Meaning, val: seq<Val>, classOf: seq<Option<nat>>, id: nat, c: nat, recs: seq<Record>)
    requires RecordsOk(m, val, classOf, recs) && id < |classOf| && c < |val|
    requires classOf[id].Some? ==> classOf[id].value < |val| && val[classOf[id].value] == val[c]
    ensures RecordsOk(m, val, classOf[id := Some(c)], recs)
  {
  }

  lemma RecordsGrow(m: Meaning, val: seq<Val>, more: seq<Val>, classOf: seq<Option<nat>>, recs: seq<Record>)
    requires RecordsOk(m, val, classOf, recs) && val <= more
    ensures RecordsOk(m, more, classOf, recs)
  {
    forall i | 0 <= i < |recs|
      ensures RecordOk(m, more, classOf, recs[i])
    {
      RecordGrows(m, val, more, classOf, recs[i]);
    }
  }

  lemma FoundValue(m: Meaning, nodes: seq<ENode>, val: seq<Val>, roots: seq<nat>, node: ENode, c: nat)
    requires Values(m, nodes, val) && Sound(roots, val) && Found(roots, nodes, node, c)
    requires forall k :: 0 <= k < |node.children| ==> node.children[k] < |val|
    ensures c < |val| && val[c] == Eval(m, node.op, Args(val, node.children))
  {
    var i :| 0 <= i < |nodes| && nodes[i] == node && roots[i] == c;
    assert ValueAt(m, nodes, val, i) && SoundAt(roots, val, i);
  }
}
