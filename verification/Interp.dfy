/** The differential interpreter: slot-order evaluation with a values array. */
module Interp {
  import opened Options
  import opened MachineInt
  import opened Son
  import opened Finite

  datatype InterpError =
    | DeadRoot
    | DanglingOperand(slot: nat)
    | MissingParam(index: int)
    | UnknownOpcode(opcode: nat)

  datatype Outcome<T> = Ok(value: T) | Err(error: InterpError)

  /** Follows an alias chain; the hop guard stops on a cycle. */
  function Follow(nodes: seq<NodeDef>, cur: nat, hops: nat): (r: Option<nat>)
    requires hops <= |nodes|
    ensures r.Some? ==> r.value < |nodes| && nodes[r.value].kind != Alias
    decreases |nodes| - hops
  {
    if cur >= |nodes| then None
    else if nodes[cur].kind != Alias then Some(cur)
    else if nodes[cur].lhs == NO_OPERAND || hops + 1 > |nodes| then None
    else Follow(nodes, nodes[cur].lhs, hops + 1)
  }

  function Lookup(vals: seq<Option<i64>>, s: nat): Outcome<i64> {
    if s < |vals| && vals[s].Some? then Ok(vals[s].value) else Err(DanglingOperand(s))
  }

  function BinSlot(nodes: seq<NodeDef>, slot: nat, vals: seq<Option<i64>>): Outcome<i64>
    requires slot < |nodes|
  {
    var def := nodes[slot];
    var l, r := Follow(nodes, def.lhs, 0), Follow(nodes, def.rhs, 0);
    if l.None? || r.None? then Err(DanglingOperand(slot))
    else match Lookup(vals, l.value)
      case Err(e) => Err(e)
      case Ok(lv) =>
        match Lookup(vals, r.value)
        case Err(e) => Err(e)
        case Ok(rv) =>
          if IsBinOp(def.opcode) then Ok(BinValue(def.opcode, lv, rv)) else Err(UnknownOpcode(def.opcode))
  }

  function UnSlot(nodes: seq<NodeDef>, slot: nat, vals: seq<Option<i64>>): Outcome<i64>
    requires slot < |nodes|
  {
    var def := nodes[slot];
    var o := Follow(nodes, def.lhs, 0);
    if o.None? then Err(DanglingOperand(slot))
    else match Lookup(vals, o.value)
      case Err(e) => Err(e)
      case Ok(ov) => if def.opcode == NEG then Ok(NegValue(ov)) else Err(UnknownOpcode(def.opcode))
  }

  function ParamSlot(def: NodeDef, params: seq<i64>): Outcome<i64> {
    if def.imm < 0 || def.imm >= |params| then Err(MissingParam(def.imm % 0x1_0000_0000)) else Ok(params[def.imm])
  }

  /** What one loop iteration computes for a slot; Ok(None) is "skip this slot". */
  function SlotValue(p: Program, params: seq<i64>, slot: nat, vals: seq<Option<i64>>): Outcome<Option<i64>>
    requires slot < |p.nodes|
  {
    var def := p.nodes[slot];
    var target := Follow(p.nodes, slot, 0);
    if def.kind == Dead then Ok(None)
    else if target.None? then (if slot == p.root then Err(DanglingOperand(slot)) else Ok(None))
    else if target.value != slot then Ok(None)
    else
      var v := if def.kind == Const then Ok(def.imm)
               else if def.kind == Param then ParamSlot(def, params)
               else if def.kind == Bin then BinSlot(p.nodes, slot, vals)
               else UnSlot(p.nodes, slot, vals);
      match v
      case Ok(x) => Ok(Some(x))
      case Err(e) => Err(e)
  }

  function Run(p: Program, params: seq<i64>, vals: seq<Option<i64>>): (r: Outcome<seq<Option<i64>>>)
    requires |vals| <= |p.nodes|
    ensures r.Ok? ==> |r.value| == |p.nodes| && vals <= r.value
    decreases |p.nodes| - |vals|
  {
    if |vals| == |p.nodes| then Ok(vals)
    else match SlotValue(p, params, |vals|, vals)
      case Err(e) => Err(e)
      case Ok(v) => Run(p, params, vals + [v])
  }

  function Evaluate(p: Program, params: seq<i64>): Outcome<i64> {
    if p.root >= |p.nodes| || p.nodes[p.root].kind == Dead then Err(DeadRoot)
    else match Run(p, params, [])
      case Err(e) => Err(e)
      case Ok(vals) => Finish(p, vals)
  }

  function Finish(p: Program, vals: seq<Option<i64>>): Outcome<i64>
    requires |vals| == |p.nodes|
  {
    var t := Follow(p.nodes, p.root, 0);
    if t.None? || vals[t.value].None? then Err(DeadRoot) else Ok(vals[t.value].value)
  }

  /** The interpreter loop. The source's `computed` and `values` arrays are one array of options. */
  method EvaluateLoop(p: Program, params: seq<i64>) returns (r: Outcome<i64>)
    ensures r == Evaluate(p, params)
  {
    if p.root >= |p.nodes| || p.nodes[p.root].kind == Dead {
      return Err(DeadRoot);
    }
    var n := |p.nodes|;
    var values := new Option<i64>[n](_ => None);
    for slot := 0 to n
      invariant Run(p, params, []) == Run(p, params, values[..slot])
      invariant forall i :: slot <= i < n ==> values[i] == None
    {
      var v := SlotValue(p, params, slot, values[..]);
      assert forall s: nat :: Lookup(values[..], s) == Lookup(values[..slot], s);
      assert v == SlotValue(p, params, slot, values[..slot]);
      if v.Err? {
        return Err(v.error);
      }
      label Before:
      values[slot] := v.value;
      assert values[..slot + 1] == old@Before(values[..slot]) + [v.value];
    }
    assert values[..n] == values[..];
    var t := Follow(p.nodes, p.root, 0);
    if t.None? || values[t.value].None? {
      return Err(DeadRoot);
    }
    r := Ok(values[t.value].value);
  }

  // ---- Meaning, independently of any evaluation order ----

  /** x is a correct value for the record when the other slots hold val. */
  predicate Holds(def: NodeDef, params: seq<i64>, val: seq<i64>, x: i64) {
    match def.kind
    case Const => x == def.imm
    case Param => 0 <= def.imm < |params| && x == params[def.imm]
    case Bin =>
      && def.lhs < |val| && def.rhs < |val| && IsBinOp(def.opcode)
      && x == BinValue(def.opcode, val[def.lhs], val[def.rhs])
    case Un => def.lhs < |val| && def.opcode == NEG && x == NegValue(val[def.lhs])
    case Alias => def.lhs < |val| && x == val[def.lhs]
    case Dead => true
  }

  /** val solves the equation of every node; a tombstone imposes none. */
  ghost predicate Models(nodes: seq<NodeDef>, params: seq<i64>, val: seq<i64>) {
    && |val| == |nodes|
    && forall s :: 0 <= s < |nodes| ==> Holds(nodes[s], params, val, val[s])
  }

  /** In an ordered program the loop accepts a slot exactly with its equation's solution. */
  lemma SlotValueSolves(p: Program, params: seq<i64>, vals: seq<Option<i64>>, val: seq<i64>)
    requires WellFormed(p) && |vals| < |p.nodes| && |val| == |vals|
    requires forall i :: 0 <= i < |vals| ==> vals[i] == Some(val[i])
    ensures match SlotValue(p, params, |vals|, vals)
            case Ok(v) => v.Some? && forall x: i64 :: Holds(p.nodes[|vals|], params, val, x) <==> x == v.value
            case Err(_) => forall x: i64 :: !Holds(p.nodes[|vals|], params, val, x)
  {
  }

  /** A record only looks at slots below it, so values appended later do not matter. */
  lemma HoldsPrefix(def: NodeDef, s: nat, params: seq<i64>, val: seq<i64>, more: seq<i64>, x: i64)
    requires Ordered(def, s) && s <= |val| && val <= more
    ensures Holds(def, params, val, x) <==> Holds(def, params, more, x)
  {
  }

  lemma {:induction false} RunFindsModel(p: Program, params: seq<i64>, vals: seq<Option<i64>>, val: seq<i64>)
    returns (full: seq<i64>)
    requires WellFormed(p) && |val| == |vals| <= |p.nodes|
    requires forall i :: 0 <= i < |vals| ==> vals[i] == Some(val[i]) && Holds(p.nodes[i], params, val, val[i])
    requires Run(p, params, vals).Ok?
    ensures Models(p.nodes, params, full)
    ensures forall i :: 0 <= i < |full| ==> Run(p, params, vals).value[i] == Some(full[i])
    decreases |p.nodes| - |vals|
  {
    if |vals| == |p.nodes| {
      full := val;
    } else {
      SlotValueSolves(p, params, vals, val);
      var x := SlotValue(p, params, |vals|, vals).value.value;
      var val' := val + [x];
      forall i | 0 <= i < |val'|
        ensures Holds(p.nodes[i], params, val', val'[i])
      {
        assert Ordered(p.nodes[i], i);
        HoldsPrefix(p.nodes[i], i, params, val, val', val'[i]);
      }
      full := RunFindsModel(p, params, vals + [Some(x)], val');
    }
  }

  function Somes(val: seq<i64>): seq<Option<i64>> {
    seq(|val|, i requires 0 <= i < |val| => Some(val[i]))
  }

  lemma RunFollowsStep(p: Program, params: seq<i64>, val: seq<i64>, k: nat)
    requires WellFormed(p) && k < |val| <= |p.nodes| && Holds(p.nodes[k], params, val, val[k])
    ensures Run(p, params, Somes(val[..k])) == Run(p, params, Somes(val[..k + 1]))
  {
    var vals := Somes(val[..k]);
    SlotValueSolves(p, params, vals, val[..k]);
    assert Ordered(p.nodes[k], k) && Holds(p.nodes[k], params, val, val[k]);
    HoldsPrefix(p.nodes[k], k, params, val[..k], val, val[k]);
    assert vals + [Some(val[k])] == Somes(val[..k + 1]);
  }

  lemma {:induction false} RunFollowsModel(p: Program, params: seq<i64>, val: seq<i64>, k: nat)
    requires WellFormed(p) && Models(p.nodes, params, val) && k <= |val|
    ensures Run(p, params, Somes(val[..k])) == Ok(Somes(val))
    decreases |val| - k
  {
    if k < |val| {
      RunFollowsStep(p, params, val, k);
      RunFollowsModel(p, params, val, k + 1);
    } else {
      assert val[..k] == val;
    }
  }

  /** On ordered programs the interpreter answers Ok(v) exactly when the node equations
      have a solution, and then v is the solution's value at the root. */
  lemma EvaluateIsMeaning(p: Program, params: seq<i64>, v: i64)
    requires WellFormed(p)
    ensures Evaluate(p, params) == Ok(v) <==> exists val :: Models(p.nodes, params, val) && val[p.root] == v
  {
    assert Ordered(p.nodes[p.root], p.root);
    if Evaluate(p, params) == Ok(v) {
      var full := RunFindsModel(p, params, [], []);
      assert full[p.root] == v;
    }
    forall val | Models(p.nodes, params, val) && val[p.root] == v
      ensures Evaluate(p, params) == Ok(v)
    {
      RunFollowsModel(p, params, val, 0);
      assert Somes(val[..0]) == [];
    }
  }

  // ---- Programs of any shape ----

  /** s is n alias links before the node t that is no alias. */
  ghost predicate EndsIn(nodes: seq<NodeDef>, s: nat, n: nat, t: nat)
    decreases n
  {
    && s < |nodes|
    && if n == 0 then s == t && nodes[s].kind != Alias
       else nodes[s].kind == Alias && nodes[s].lhs != NO_OPERAND && EndsIn(nodes, nodes[s].lhs, n - 1, t)
  }

  ghost predicate Ends(nodes: seq<NodeDef>, s: nat, t: nat) {
    exists n: nat :: EndsIn(nodes, s, n, t)
  }

  lemma {:induction false} EndsOnce(nodes: seq<NodeDef>, s: nat, n: nat, t: nat, m: nat, u: nat)
    requires EndsIn(nodes, s, n, t) && EndsIn(nodes, s, m, u)
    ensures n == m && t == u
    decreases n
  {
    if n > 0 {
      EndsOnce(nodes, nodes[s].lhs, n - 1, t, m - 1, u);
    }
  }

  /** The slots of a chain that ends are all different. */
  lemma {:induction false} ChainSlots(nodes: seq<NodeDef>, s: nat, n: nat, t: nat) returns (slots: set<nat>)
    requires EndsIn(nodes, s, n, t)
    ensures |slots| == n + 1 && forall x :: x in slots ==> EndsWithin(nodes, x, n, t)
    decreases n
  {
    slots := {s};
    assert EndsWithin(nodes, s, n, t);
    if n > 0 {
      var rest := ChainSlots(nodes, nodes[s].lhs, n - 1, t);
      forall x | x in rest
        ensures x != s && EndsWithin(nodes, x, n, t)
      {
        var k: nat :| k <= n - 1 && EndsIn(nodes, x, k, t);
        if x == s {
          EndsOnce(nodes, s, n, t, k, t);
        }
      }
      slots := rest + {s};
    }
  }

  ghost predicate EndsWithin(nodes: seq<NodeDef>, s: nat, n: nat, t: nat) {
    exists k: nat :: k <= n && EndsIn(nodes, s, k, t)
  }

  lemma ChainFits(nodes: seq<NodeDef>, s: nat, n: nat, t: nat)
    requires EndsIn(nodes, s, n, t)
    ensures n < |nodes|
  {
    var slots := ChainSlots(nodes, s, n, t);
    assert slots <= Below(|nodes|);
    SubsetSize(slots, Below(|nodes|));
  }

  lemma {:induction false} FollowsChain(nodes: seq<NodeDef>, s: nat, n: nat, t: nat, hops: nat)
    requires EndsIn(nodes, s, n, t) && n + hops <= |nodes|
    ensures Follow(nodes, s, hops) == Some(t)
    decreases n
  {
    if n > 0 {
      FollowsChain(nodes, nodes[s].lhs, n - 1, t, hops + 1);
    }
  }

  lemma {:induction false} FollowFindsChain(nodes: seq<NodeDef>, s: nat, hops: nat)
    requires hops <= |nodes| && Follow(nodes, s, hops).Some?
    ensures Ends(nodes, s, Follow(nodes, s, hops).value)
    decreases |nodes| - hops
  {
    var t := Follow(nodes, s, hops).value;
    if nodes[s].kind == Alias {
      FollowFindsChain(nodes, nodes[s].lhs, hops + 1);
      var n: nat :| EndsIn(nodes, nodes[s].lhs, n, t);
      assert EndsIn(nodes, s, n + 1, t);
    } else {
      assert EndsIn(nodes, s, 0, t);
    }
  }

  /** The guarded walk finds the end of every alias chain that has one: the guard stops cycles only. */
  lemma FollowExactly(nodes: seq<NodeDef>, s: nat, t: nat)
    ensures Follow(nodes, s, 0) == Some(t) <==> Ends(nodes, s, t)
  {
    if Follow(nodes, s, 0) == Some(t) {
      FollowFindsChain(nodes, s, 0);
    }
    if n: nat :| EndsIn(nodes, s, n, t) {
      ChainFits(nodes, s, n, t);
      FollowsChain(nodes, s, n, t, 0);
    }
  }

  /** The operand's chain ends in an earlier slot with this value. */
  ghost predicate Reads(nodes: seq<NodeDef>, vals: seq<Option<i64>>, slot: nat, operand: nat, x: i64) {
    exists t: nat :: Ends(nodes, operand, t) && t < slot && t < |vals| && vals[t] == Some(x)
  }

  /** v is right for a slot of any program whose earlier slots hold vals: aliases and tombstones
      hold nothing, a root must lead somewhere. */
  ghost predicate SlotHolds(p: Program, params: seq<i64>, vals: seq<Option<i64>>, slot: nat, v: Option<i64>)
    requires slot < |p.nodes|
  {
    var def := p.nodes[slot];
    match def.kind
    case Dead => v == None
    case Alias => v == None && (slot == p.root ==> exists t: nat :: Ends(p.nodes, slot, t))
    case Const => v == Some(def.imm)
    case Param => 0 <= def.imm < |params| && v == Some(params[def.imm])
    case Bin =>
      IsBinOp(def.opcode) &&
      exists a: i64, b: i64 ::
        Reads(p.nodes, vals, slot, def.lhs, a) && Reads(p.nodes, vals, slot, def.rhs, b) && v == Some(BinValue(def.opcode, a, b))
    case Un => def.opcode == NEG && exists a: i64 :: Reads(p.nodes, vals, slot, def.lhs, a) && v == Some(NegValue(a))
  }

  lemma ReadsIs(nodes: seq<NodeDef>, vals: seq<Option<i64>>, slot: nat, operand: nat, x: i64)
    requires |vals| == slot
    ensures Reads(nodes, vals, slot, operand, x) <==>
            Follow(nodes, operand, 0).Some? && Lookup(vals, Follow(nodes, operand, 0).value) == Ok(x)
  {
    if Reads(nodes, vals, slot, operand, x) {
      var t: nat :| Ends(nodes, operand, t) && t < slot && t < |vals| && vals[t] == Some(x);
      FollowExactly(nodes, operand, t);
    }
    if Follow(nodes, operand, 0).Some? {
      FollowExactly(nodes, operand, Follow(nodes, operand, 0).value);
    }
  }

  lemma SlotExactly(p: Program, params: seq<i64>, vals: seq<Option<i64>>, v: Option<i64>)
    requires |vals| < |p.nodes|
    ensures SlotValue(p, params, |vals|, vals) == Ok(v) <==> SlotHolds(p, params, vals, |vals|, v)
  {
    var slot := |vals|;
    var def := p.nodes[slot];
    if def.kind == Alias {
      var f := Follow(p.nodes, slot, 0);
      if f.Some? {
        FollowExactly(p.nodes, slot, f.value);
      }
      if t: nat :| Ends(p.nodes, slot, t) {
        FollowExactly(p.nodes, slot, t);
      }
    } else {
      forall x: i64
        ensures Reads(p.nodes, vals, slot, def.lhs, x) <==>
                Follow(p.nodes, def.lhs, 0).Some? && Lookup(vals, Follow(p.nodes, def.lhs, 0).value) == Ok(x)
        ensures Reads(p.nodes, vals, slot, def.rhs, x) <==>
                Follow(p.nodes, def.rhs, 0).Some? && Lookup(vals, Follow(p.nodes, def.rhs, 0).value) == Ok(x)
      {
        ReadsIs(p.nodes, vals, slot, def.lhs, x);
        ReadsIs(p.nodes, vals, slot, def.rhs, x);
      }
    }
  }

  /** Later values do not matter to a slot. */
  lemma SlotPrefix(p: Program, params: seq<i64>, vals: seq<Option<i64>>, k: nat, v: Option<i64>)
    requires k <= |vals| && k < |p.nodes|
    ensures SlotHolds(p, params, vals, k, v) <==> SlotHolds(p, params, vals[..k], k, v)
  {
    forall operand: nat, x: i64
      ensures Reads(p.nodes, vals, k, operand, x) <==> Reads(p.nodes, vals[..k], k, operand, x)
    {
    }
  }

  /** Every slot of the program holds what it should. */
  ghost predicate AllHold(p: Program, params: seq<i64>, vals: seq<Option<i64>>) {
    |vals| == |p.nodes| && forall k :: 0 <= k < |p.nodes| ==> SlotHolds(p, params, vals, k, vals[k])
  }

  lemma {:induction false} RunHolds(p: Program, params: seq<i64>, vals: seq<Option<i64>>)
    requires |vals| <= |p.nodes| && Run(p, params, vals).Ok?
    requires forall k :: 0 <= k < |vals| ==> SlotHolds(p, params, vals, k, vals[k])
    ensures AllHold(p, params, Run(p, params, vals).value)
    decreases |p.nodes| - |vals|
  {
    if |vals| < |p.nodes| {
      var v := SlotValue(p, params, |vals|, vals).value;
      SlotExactly(p, params, vals, v);
      var more := vals + [v];
      forall k | 0 <= k < |more|
        ensures SlotHolds(p, params, more, k, more[k])
      {
        SlotPrefix(p, params, more, k, more[k]);
        assert more[..k] == vals[..k];
        if k < |vals| {
          SlotPrefix(p, params, vals, k, vals[k]);
        } else {
          assert vals[..k] == vals;
        }
      }
      RunHolds(p, params, more);
    }
  }

  lemma {:induction false} HoldsRuns(p: Program, params: seq<i64>, vals: seq<Option<i64>>, k: nat)
    requires AllHold(p, params, vals) && k <= |vals|
    ensures Run(p, params, vals[..k]) == Ok(vals)
    decreases |vals| - k
  {
    if k < |vals| {
      SlotPrefix(p, params, vals, k, vals[k]);
      SlotExactly(p, params, vals[..k], vals[k]);
      assert vals[..k] + [vals[k]] == vals[..k + 1];
      HoldsRuns(p, params, vals, k + 1);
    } else {
      assert vals[..k] == vals;
    }
  }

  /** On every program, aliases, tombstones, cycles and forward references included: the answer is
      Ok(v) if and only if the slots have right values and the root's alias chain ends in v. */
  lemma EvaluateExactly(p: Program, params: seq<i64>, v: i64)
    ensures Evaluate(p, params) == Ok(v) <==>
            p.root < |p.nodes| && exists vals :: AllHold(p, params, vals) && Reads(p.nodes, vals, |p.nodes|, p.root, v)
  {
    if p.root < |p.nodes| && Run(p, params, []).Ok? {
      RunHolds(p, params, []);
      var vals := Run(p, params, []).value;
      ReadsIs(p.nodes, vals, |p.nodes|, p.root, v);
    }
    forall vals | p.root < |p.nodes| && AllHold(p, params, vals) && Reads(p.nodes, vals, |p.nodes|, p.root, v)
      ensures Evaluate(p, params) == Ok(v)
    {
      HoldsRuns(p, params, vals, 0);
      assert vals[..0] == [];
      ReadsIs(p.nodes, vals, |p.nodes|, p.root, v);
    }
  }
}
