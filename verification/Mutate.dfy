/** The eight mutation families, and what each of them keeps. */
module Mutate {
  import opened Options
  import opened MachineInt
  import opened Son
  import opened Interp
  import opened Finite
  import opened Cand
  import opened Materialize
  import opened Wrapping

  datatype Family = IdentityAdd | IdentityMul | SubSelf | ConstFold | CommuteNorm | ReassocAdd | Cse | Dce

  // ---- The single-site families ----

  function At(g: seq<NodeDef>, s: nat): NodeDef {
    if s < |g| then g[s] else DeadDef
  }

  function Checked(x: int): Option<i64> {
    if InI64(x) then Some(x) else None
  }

  function Fold(opcode: nat, a: i64, b: i64): Option<i64> {
    if opcode == ADD then Checked(a + b)
    else if opcode == SUB then Checked(a - b)
    else if opcode == MUL then Checked(a * b)
    else if opcode == MIN then Some(if b < a then b else a)
    else if opcode == MAX then Some(if a < b then b else a)
    else None
  }

  function KindCode(k: Kind): nat {
    match k case Const => 0 case Param => 1 case Bin => 2 case Un => 3 case Alias => 4 case Dead => 5
  }

  /** (kind, immediate, slot) of l is at most that of r. */
  predicate Canonical(g: seq<NodeDef>, l: nat, r: nat) {
    var a, b := At(g, l), At(g, r);
    var ka, kb := KindCode(a.kind), KindCode(b.kind);
    ka < kb || (ka == kb && (a.imm < b.imm || (a.imm == b.imm && l <= r)))
  }

  predicate IsConst(def: NodeDef, v: int) {
    def.kind == Const && def.imm == v
  }

  /** x op unit and unit op x become an alias of x. */
  function DropUnit(g: seq<NodeDef>, s: nat, opcode: nat, unit: int): Option<NodeDef> {
    var def := At(g, s);
    var l, r := Resolve(g, def.lhs), Resolve(g, def.rhs);
    if def.kind != Bin || def.opcode != opcode then None
    else if IsConst(At(g, l), unit) then Some(AliasDef(r))
    else if IsConst(At(g, r), unit) then Some(AliasDef(l))
    else None
  }

  /** The replacement record of a single-site family at a slot, when it applies. */
  function SiteRewrite(g: seq<NodeDef>, family: Family, s: nat): Option<NodeDef> {
    var def := At(g, s);
    var l, r := Resolve(g, def.lhs), Resolve(g, def.rhs);
    var ld, rd := At(g, l), At(g, r);
    match family
    case IdentityAdd => DropUnit(g, s, ADD, 0)
    case IdentityMul => DropUnit(g, s, MUL, 1)
    case SubSelf => if def.kind == Bin && def.opcode == SUB && l == r then Some(ConstDef(0)) else None
    case ConstFold =>
      if def.kind != Bin || ld.kind != Const || rd.kind != Const then None
      else (match Fold(def.opcode, ld.imm, rd.imm) case None => None case Some(v) => Some(ConstDef(v)))
    case CommuteNorm =>
      if def.kind != Bin || def.opcode !in {ADD, MUL, MIN, MAX} || Canonical(g, l, r) then None
      else Some(def.(lhs := def.rhs, rhs := def.lhs))
    case _ => None
  }

  /** (x + c1) + c2 and (c1 + x) + c2: the slot x and the checked sum c1 + c2. */
  function Reassoc(g: seq<NodeDef>, s: nat): Option<(nat, i64)> {
    var def := At(g, s);
    var l, r := Resolve(g, def.lhs), Resolve(g, def.rhs);
    var ld, rd := At(g, l), At(g, r);
    var il, ir := Resolve(g, ld.lhs), Resolve(g, ld.rhs);
    var ild, ird := At(g, il), At(g, ir);
    if def.kind != Bin || def.opcode != ADD || ld.kind != Bin || ld.opcode != ADD || rd.kind != Const then None
    else if ird.kind == Const then (match Checked(ird.imm + rd.imm) case None => None case Some(c) => Some((il, c)))
    else if ild.kind == Const then (match Checked(ild.imm + rd.imm) case None => None case Some(c) => Some((ir, c)))
    else None
  }

  // ---- What a rewrite must satisfy ----

  /** Every solution of g's equations extends to one of h's with the same value at the root. */
  ghost predicate Refines(g: seq<NodeDef>, h: seq<NodeDef>, root: nat) {
    forall params, val :: Models(g, params, val) && root < |val| ==>
      exists w :: Models(h, params, w) && root < |w| && w[root] == val[root]
  }

  lemma RefinesTrans(g: seq<NodeDef>, h: seq<NodeDef>, k: seq<NodeDef>, root: nat)
    requires Refines(g, h, root) && Refines(h, k, root)
    ensures Refines(g, k, root)
  {
  }

  /** def may stand at slot s: it is shaped right, climbs no edge, stays among the live,
      and computes what s computed. */
  ghost predicate Fits(g: seq<NodeDef>, cert: Cert, s: nat, def: NodeDef) {
    && s < |g| == |cert.rank|
    && def.kind != Dead && ShapeOk(def, |g|)
    && Descends(def, cert.rank, s)
    && (s in cert.live ==> LiveNode(def, cert.live))
    && (forall params, val :: Models(g, params, val) ==> Holds(def, params, val, val[s]))
  }

  lemma FittingReplacement(g: seq<NodeDef>, root: nat, cert: Cert, s: nat, def: NodeDef)
    requires Sound(g, root, cert) && Fits(g, cert, s, def)
    ensures Sound(g[s := def], root, cert)
    ensures Refines(g, g[s := def], root)
  {
  }

  lemma OperandFacts(g: seq<NodeDef>, root: nat, cert: Cert, s: nat, o: nat)
    requires Sound(g, root, cert) && s < |g| && HasOperand(g[s], o)
    ensures o < |g| && Resolve(g, o) < |g| && cert.rank[Resolve(g, o)] <= cert.rank[o] < cert.rank[s]
    ensures s in cert.live ==> o in cert.live && Resolve(g, o) in cert.live
    ensures forall params, val :: Models(g, params, val) ==> val[Resolve(g, o)] == val[o]
  {
    assert Descends(g[s], cert.rank, s) && (s in cert.live ==> LiveNode(g[s], cert.live));
    ResolveFacts(g, root, cert, o);
    forall params, val | Models(g, params, val)
      ensures val[Resolve(g, o)] == val[o]
    {
      ResolveValue(g, root, cert, params, val, o);
    }
  }

  /** A binary node's value in terms of its resolved operands. */
  lemma BinaryOf(g: seq<NodeDef>, root: nat, cert: Cert, s: nat, params: seq<i64>, val: seq<i64>)
    requires Sound(g, root, cert) && s < |g| && g[s].kind == Bin && Models(g, params, val)
    ensures var l, r := Resolve(g, g[s].lhs), Resolve(g, g[s].rhs);
            && l < |g| && r < |g| && IsBinOp(g[s].opcode)
            && val[s] == BinValue(g[s].opcode, val[l], val[r])
            && (g[l].kind == Const ==> val[l] == g[l].imm) && (g[r].kind == Const ==> val[r] == g[r].imm)
  {
    OperandFacts(g, root, cert, s, g[s].lhs);
    OperandFacts(g, root, cert, s, g[s].rhs);
    var l, r := Resolve(g, g[s].lhs), Resolve(g, g[s].rhs);
    assert Holds(g[s], params, val, val[s]) && Holds(g[l], params, val, val[l]) && Holds(g[r], params, val, val[r]);
  }

  lemma UnitValue(opcode: nat, unit: i64, x: i64)
    requires (opcode == ADD && unit == 0) || (opcode == MUL && unit == 1)
    ensures BinValue(opcode, unit, x) == x && BinValue(opcode, x, unit) == x
  {
  }

  lemma FoldValue(opcode: nat, a: i64, b: i64)
    requires IsBinOp(opcode) && Fold(opcode, a, b).Some?
    ensures BinValue(opcode, a, b) == Fold(opcode, a, b).value
  {
  }

  lemma SwapValue(opcode: nat, a: i64, b: i64)
    requires opcode in {ADD, MUL, MIN, MAX}
    ensures BinValue(opcode, a, b) == BinValue(opcode, b, a)
  {
  }

  /** A single-site rewrite computes what the slot computed. */
  lemma SiteValue(g: seq<NodeDef>, root: nat, cert: Cert, family: Family, s: nat, params: seq<i64>, val: seq<i64>)
    requires Sound(g, root, cert) && s < |g| && SiteRewrite(g, family, s).Some? && Models(g, params, val)
    ensures Holds(SiteRewrite(g, family, s).value, params, val, val[s])
  {
    var l, r := Resolve(g, g[s].lhs), Resolve(g, g[s].rhs);
    BinaryOf(g, root, cert, s, params, val);
    match family {
      case IdentityAdd => UnitValue(ADD, 0, if IsConst(g[l], 0) then val[r] else val[l]);
      case IdentityMul => UnitValue(MUL, 1, if IsConst(g[l], 1) then val[r] else val[l]);
      case ConstFold => FoldValue(g[s].opcode, val[l], val[r]);
      case CommuteNorm =>
        assert Holds(g[s], params, val, val[s]);
        SwapValue(g[s].opcode, val[g[s].lhs], val[g[s].rhs]);
      case _ =>
    }
  }

  /** A single-site rewrite is shaped right, climbs no edge and stays among the live. */
  lemma SiteShape(g: seq<NodeDef>, root: nat, cert: Cert, family: Family, s: nat)
    requires Sound(g, root, cert) && s < |g| && SiteRewrite(g, family, s).Some?
    ensures var def := SiteRewrite(g, family, s).value;
            && def.kind != Dead && ShapeOk(def, |g|) && Descends(def, cert.rank, s)
            && (s in cert.live ==> LiveNode(def, cert.live))
  {
    assert ShapeOk(g[s], |g|);
    OperandFacts(g, root, cert, s, g[s].lhs);
    OperandFacts(g, root, cert, s, g[s].rhs);
  }

  /** Every single-site rewrite fits its slot. */
  lemma SiteRewriteFits(g: seq<NodeDef>, root: nat, cert: Cert, family: Family, s: nat)
    requires Sound(g, root, cert) && s < |g| && SiteRewrite(g, family, s).Some?
    ensures Fits(g, cert, s, SiteRewrite(g, family, s).value)
  {
    SiteShape(g, root, cert, family, s);
    forall params, val | Models(g, params, val)
      ensures Holds(SiteRewrite(g, family, s).value, params, val, val[s])
    {
      SiteValue(g, root, cert, family, s, params, val);
    }
  }

  // ---- When a family rewrites a site ----

  /** s is this operation on operands that resolve to l and r. */
  ghost predicate BinaryAt(g: seq<NodeDef>, s: nat, opcode: nat, l: nat, r: nat) {
    s < |g| && g[s].kind == Bin && g[s].opcode == opcode && l == Resolve(g, g[s].lhs) && r == Resolve(g, g[s].rhs)
  }

  ghost predicate ConstAt(g: seq<NodeDef>, o: nat, v: i64) {
    o < |g| && g[o].kind == Const && g[o].imm == v
  }

  /** A constant that leaves every operand of the operation alone. */
  ghost predicate NeutralAt(g: seq<NodeDef>, opcode: nat, o: nat) {
    IsBinOp(opcode) && exists v :: ConstAt(g, o, v) && forall x: i64 :: BinValue(opcode, x, v) == x
  }

  lemma NeutralIs(g: seq<NodeDef>, opcode: nat, unit: i64, o: nat)
    requires (opcode == ADD && unit == 0) || (opcode == MUL && unit == 1)
    ensures NeutralAt(g, opcode, o) <==> ConstAt(g, o, unit)
  {
    if NeutralAt(g, opcode, o) {
      assert BinValue(opcode, 1, g[o].imm) == 1;
    }
  }

  /** The identity families rewrite exactly the sums and products with a neutral constant, to an
      alias of the other operand; the left operand is looked at first. */
  lemma IdentityExactly(g: seq<NodeDef>, family: Family, s: nat, def: NodeDef)
    requires family == IdentityAdd || family == IdentityMul
    ensures var opcode := if family == IdentityAdd then ADD else MUL;
            SiteRewrite(g, family, s) == Some(def) <==>
              exists l: nat, r: nat :: BinaryAt(g, s, opcode, l, r) &&
                             def == AliasDef(if NeutralAt(g, opcode, l) then r else l) &&
                             (NeutralAt(g, opcode, l) || NeutralAt(g, opcode, r))
  {
    var opcode, unit := if family == IdentityAdd then ADD else MUL, if family == IdentityAdd then 0 else 1;
    if s < |g| {
      var l, r := Resolve(g, g[s].lhs), Resolve(g, g[s].rhs);
      NeutralIs(g, opcode, unit, l);
      NeutralIs(g, opcode, unit, r);
      assert g[s].kind == Bin && g[s].opcode == opcode ==> BinaryAt(g, s, opcode, l, r);
    }
  }

  /** A difference becomes zero exactly when both operands resolve to one slot. */
  lemma SubSelfExactly(g: seq<NodeDef>, s: nat, def: NodeDef)
    ensures SiteRewrite(g, SubSelf, s) == Some(def) <==> def == ConstDef(0) && exists l :: BinaryAt(g, s, SUB, l, l)
  {
    if s < |g| && g[s].kind == Bin {
      assert BinaryAt(g, s, g[s].opcode, Resolve(g, g[s].lhs), Resolve(g, g[s].rhs));
    }
  }

  /** Checked folding gives the exact result, and gives none exactly when that needs more than
      64 bits or the opcode is unknown. */
  lemma FoldIsExact(opcode: nat, a: i64, b: i64, v: i64)
    ensures Fold(opcode, a, b) == Some(v) <==> ExactBin(opcode, a, b, v)
  {
  }

  /** Two constants are folded exactly when the operation has an exact result within 64 bits. */
  lemma ConstFoldExactly(g: seq<NodeDef>, s: nat, def: NodeDef)
    ensures SiteRewrite(g, ConstFold, s) == Some(def) <==>
            exists opcode, l: nat, r: nat, a: i64, b: i64, v: i64 ::
              BinaryAt(g, s, opcode, l, r) && ConstAt(g, l, a) && ConstAt(g, r, b) && ExactBin(opcode, a, b, v) && def == ConstDef(v)
  {
    if SiteRewrite(g, ConstFold, s) == Some(def) {
      var l, r := Resolve(g, g[s].lhs), Resolve(g, g[s].rhs);
      FoldIsExact(g[s].opcode, g[l].imm, g[r].imm, def.imm);
      assert BinaryAt(g, s, g[s].opcode, l, r) && ConstAt(g, l, g[l].imm) && ConstAt(g, r, g[r].imm);
    }
    forall opcode, l: nat, r: nat, a: i64, b: i64, v: i64 |
      BinaryAt(g, s, opcode, l, r) && ConstAt(g, l, a) && ConstAt(g, r, b) && ExactBin(opcode, a, b, v) && def == ConstDef(v)
      ensures SiteRewrite(g, ConstFold, s) == Some(def)
    {
      FoldIsExact(opcode, a, b, v);
    }
  }

  /** Constants come before parameters, those before binary and these before unary nodes; then
      the smaller immediate and the lower slot come first. */
  ghost predicate OutOfOrder(g: seq<NodeDef>, l: nat, r: nat)
    requires l < |g| && r < |g|
  {
    var order := [Const, Param, Bin, Un, Alias, Dead];
    || (exists i, j :: 0 <= j < i < |order| && g[l].kind == order[i] && g[r].kind == order[j])
    || (g[l].kind == g[r].kind && (g[l].imm > g[r].imm || (g[l].imm == g[r].imm && l > r)))
  }

  lemma OutOfOrderIs(g: seq<NodeDef>, l: nat, r: nat)
    requires l < |g| && r < |g|
    ensures OutOfOrder(g, l, r) <==> !Canonical(g, l, r)
  {
    var order := [Const, Param, Bin, Un, Alias, Dead];
    var i, j := KindCode(g[l].kind), KindCode(g[r].kind);
    assert order[i] == g[l].kind && order[j] == g[r].kind;
  }

  /** The operation gives the same value with its operands in either order. */
  ghost predicate Symmetric(opcode: nat) {
    IsBinOp(opcode) && forall x: i64, y: i64 :: BinValue(opcode, x, y) == BinValue(opcode, y, x)
  }

  lemma SymmetricIs(opcode: nat)
    ensures Symmetric(opcode) <==> opcode in {ADD, MUL, MIN, MAX}
  {
    if opcode in {ADD, MUL, MIN, MAX} {
      forall x: i64, y: i64
        ensures BinValue(opcode, x, y) == BinValue(opcode, y, x)
      {
        SwapValue(opcode, x, y);
      }
    } else if opcode == SUB {
      assert BinValue(SUB, 1, 0) != BinValue(SUB, 0, 1);
    }
  }

  /** Operands are exchanged exactly when the operation is symmetric and they are out of order. */
  lemma CommuteExactly(g: seq<NodeDef>, root: nat, cert: Cert, s: nat, def: NodeDef)
    requires Sound(g, root, cert)
    ensures SiteRewrite(g, CommuteNorm, s) == Some(def) <==>
            exists opcode, l: nat, r: nat ::
              && BinaryAt(g, s, opcode, l, r) && Symmetric(opcode)
              && l < |g| && r < |g| && OutOfOrder(g, l, r)
              && def == g[s].(lhs := g[s].rhs, rhs := g[s].lhs)
  {
    if s < |g| && g[s].kind == Bin {
      var l, r := Resolve(g, g[s].lhs), Resolve(g, g[s].rhs);
      OperandFacts(g, root, cert, s, g[s].lhs);
      OperandFacts(g, root, cert, s, g[s].rhs);
      OutOfOrderIs(g, l, r);
      SymmetricIs(g[s].opcode);
      assert BinaryAt(g, s, g[s].opcode, l, r);
    }
  }

  /** s is (x + a) + b or (a + x) + b, read through aliases; the right operand is looked at first. */
  ghost predicate SumOfSum(g: seq<NodeDef>, s: nat, l: nat, r: nat, x: nat, a: i64, b: i64) {
    && BinaryAt(g, s, ADD, l, r) && ConstAt(g, r, b)
    && exists il, ir :: BinaryAt(g, l, ADD, il, ir) &&
         if exists v :: ConstAt(g, ir, v) then ConstAt(g, ir, a) && x == il else ConstAt(g, il, a) && x == ir
  }

  /** A sum is reassociated exactly when its right operand is a constant and its left operand a sum
      with a constant, the two constants adding up within 64 bits. */
  lemma ReassocExactly(g: seq<NodeDef>, s: nat, x: nat, c: i64)
    ensures Reassoc(g, s) == Some((x, c)) <==> exists l: nat, r: nat, a: i64, b: i64 :: SumOfSum(g, s, l, r, x, a, b) && c == a + b
  {
    if Reassoc(g, s) == Some((x, c)) {
      var l, r := Resolve(g, g[s].lhs), Resolve(g, g[s].rhs);
      var il, ir := Resolve(g, g[l].lhs), Resolve(g, g[l].rhs);
      assert At(g, ir).kind == Const <==> exists v :: ConstAt(g, ir, v) by {
        assert At(g, ir).kind == Const ==> ConstAt(g, ir, g[ir].imm);
      }
      var a, b := if At(g, ir).kind == Const then g[ir].imm else g[il].imm, g[r].imm;
      assert BinaryAt(g, l, ADD, il, ir) && SumOfSum(g, s, l, r, x, a, b) && c == a + b;
    }
    forall l: nat, r: nat, a: i64, b: i64 | SumOfSum(g, s, l, r, x, a, b) && c == a + b
      ensures Reassoc(g, s) == Some((x, c))
    {
      var il, ir := Resolve(g, g[l].lhs), Resolve(g, g[l].rhs);
      assert BinaryAt(g, l, ADD, il, ir);
      assert At(g, ir).kind == Const ==> ConstAt(g, ir, g[ir].imm);
    }
  }

  // ---- Reassociation appends a constant behind its user ----

  lemma ExtendKeeps(g: seq<NodeDef>, root: nat, cert: Cert, c: i64) returns (cert': Cert)
    requires Sound(g, root, cert) && |g| < SLOT_LIMIT
    ensures cert' == Cert(cert.rank + [0], cert.live + {|g|})
    ensures Sound(g + [ConstDef(c)], root, cert')
    ensures forall params, val :: Models(g, params, val) ==> Models(g + [ConstDef(c)], params, val + [c])
    ensures forall params, w :: Models(g + [ConstDef(c)], params, w) ==> w[|g|] == c
  {
    cert' := Cert(cert.rank + [0], cert.live + {|g|});
    ExtendSound(g, root, cert, c);
    forall params, val | Models(g, params, val)
      ensures Models(g + [ConstDef(c)], params, val + [c])
    {
      ExtendModels(g, c, params, val);
    }
    forall params, w | Models(g + [ConstDef(c)], params, w)
      ensures w[|g|] == c
    {
      assert Holds((g + [ConstDef(c)])[|g|], params, w, w[|g|]);
    }
  }

  lemma ExtendSound(g: seq<NodeDef>, root: nat, cert: Cert, c: i64)
    requires Sound(g, root, cert) && |g| < SLOT_LIMIT
    ensures Sound(g + [ConstDef(c)], root, Cert(cert.rank + [0], cert.live + {|g|}))
  {
    var h := g + [ConstDef(c)];
    forall s | 0 <= s < |h|
      ensures ShapeOk(h[s], |h|)
    {
      assert s < |g| ==> ShapeOk(g[s], |g|);
    }
  }

  lemma ExtendModels(g: seq<NodeDef>, c: i64, params: seq<i64>, val: seq<i64>)
    requires Models(g, params, val)
    ensures Models(g + [ConstDef(c)], params, val + [c])
  {
    var h := g + [ConstDef(c)];
    forall s | 0 <= s < |h|
      ensures Holds(h[s], params, val + [c], (val + [c])[s])
    {
      assert s < |g| ==> Holds(g[s], params, val, val[s]);
    }
  }

  lemma ExtendRefines(g: seq<NodeDef>, root: nat, c: i64)
    requires forall params, val :: Models(g, params, val) ==> Models(g + [ConstDef(c)], params, val + [c])
    ensures Refines(g, g + [ConstDef(c)], root)
  {
  }

  lemma ReassocValue(x: i64, c1: i64, c2: i64, c: i64)
    requires c == c1 + c2
    ensures BinValue(ADD, BinValue(ADD, x, c1), c2) == BinValue(ADD, x, c)
    ensures BinValue(ADD, BinValue(ADD, c1, x), c2) == BinValue(ADD, x, c)
  {
    WrapSum(x as int + c1 as int, c2);
  }

  /** What the outer sum computes, in terms of x and the folded constant. */
  lemma ReassocHolds(g: seq<NodeDef>, root: nat, cert: Cert, s: nat, params: seq<i64>, val: seq<i64>)
    requires Sound(g, root, cert) && s < |g| && Reassoc(g, s).Some? && Models(g, params, val)
    ensures var (x, c) := Reassoc(g, s).value; x < |g| && val[s] == BinValue(ADD, val[x], c)
  {
    var l, r := Resolve(g, g[s].lhs), Resolve(g, g[s].rhs);
    BinaryOf(g, root, cert, s, params, val);
    BinaryOf(g, root, cert, l, params, val);
    var il, ir := Resolve(g, g[l].lhs), Resolve(g, g[l].rhs);
    if g[ir].kind == Const {
      ReassocValue(val[il], val[ir], val[r], Reassoc(g, s).value.1);
    } else {
      ReassocValue(val[ir], val[il], val[r], Reassoc(g, s).value.1);
    }
  }

  function ReassocOverlays(n: nat, s: nat, x: nat, c: i64): seq<Overlay> {
    [Extend(ConstDef(c)), Replace(s, NodeDef(Bin, 0, ADD, x, n))]
  }

  /** The rewritten sum reads the appended constant and computes what the slot computed. */
  lemma ReassocFitsValue(g: seq<NodeDef>, root: nat, cert: Cert, s: nat, params: seq<i64>, w: seq<i64>)
    requires Sound(g, root, cert) && s < |g| && Reassoc(g, s).Some?
    requires Models(g + [ConstDef(Reassoc(g, s).value.1)], params, w)
    ensures Holds(NodeDef(Bin, 0, ADD, Reassoc(g, s).value.0, |g|), params, w, w[s])
  {
    var h := g + [ConstDef(Reassoc(g, s).value.1)];
    var val := w[..|g|];
    forall i | 0 <= i < |g|
      ensures Holds(g[i], params, val, val[i])
    {
      assert ShapeOk(g[i], |g|) && Holds(h[i], params, w, w[i]);
    }
    assert Holds(h[|g|], params, w, w[|g|]);
    ReassocHolds(g, root, cert, s, params, val);
  }

  /** x is below s and live with it. */
  lemma ReassocShape(g: seq<NodeDef>, root: nat, cert: Cert, s: nat)
    requires Sound(g, root, cert) && s < |g| && Reassoc(g, s).Some?
    ensures var x := Reassoc(g, s).value.0;
            x < |g| && cert.rank[x] < cert.rank[s] && 0 < cert.rank[s] && (s in cert.live ==> x in cert.live)
  {
    var l := Resolve(g, g[s].lhs);
    OperandFacts(g, root, cert, s, g[s].lhs);
    OperandFacts(g, root, cert, l, g[l].lhs);
    OperandFacts(g, root, cert, l, g[l].rhs);
  }

  lemma ReassocKeeps(g: seq<NodeDef>, root: nat, cert: Cert, s: nat) returns (cert': Cert)
    requires Sound(g, root, cert) && s < |g| < SLOT_LIMIT && Reassoc(g, s).Some?
    ensures var (x, c) := Reassoc(g, s).value;
            var h := (g + [ConstDef(c)])[s := NodeDef(Bin, 0, ADD, x, |g|)];
            Sound(h, root, cert') && Refines(g, h, root)
  {
    var (x, c) := Reassoc(g, s).value;
    cert' := ExtendKeeps(g, root, cert, c);
    var h := g + [ConstDef(c)];
    var def := NodeDef(Bin, 0, ADD, x, |g|);
    ReassocShape(g, root, cert, s);
    forall params, w | Models(h, params, w)
      ensures Holds(def, params, w, w[s])
    {
      ReassocFitsValue(g, root, cert, s, params, w);
    }
    FittingReplacement(h, root, cert', s, def);
    ExtendRefines(g, root, c);
    RefinesTrans(g, h, h[s := def], root);
  }

  // ---- Common subexpressions ----

  predicate IsValue(def: NodeDef) {
    def.kind == Const || def.kind == Param || def.kind == Bin || def.kind == Un
  }

  function ResolveOperand(g: seq<NodeDef>, o: nat): nat {
    if o == NO_OPERAND then NO_OPERAND else Resolve(g, o)
  }

  datatype Key = Key(kind: nat, opcode: nat, imm: int, lhs: nat, rhs: nat)

  function KeyOf(g: seq<NodeDef>, s: nat): Key {
    var d := At(g, s);
    Key(KindCode(d.kind), d.opcode, d.imm, ResolveOperand(g, d.lhs), ResolveOperand(g, d.rhs))
  }

  /** a and b are distinct value slots with the same resolved definition. */
  predicate Twins(g: seq<NodeDef>, a: nat, b: nat) {
    a < b < |g| && IsValue(g[a]) && IsValue(g[b]) && KeyOf(g, a) == KeyOf(g, b)
  }

  /** There is a downward path from s to b. */
  ghost predicate Reaches(g: seq<NodeDef>, rank: seq<nat>, s: nat, b: nat)
    requires Ranked(g, rank) && s < |g|
    decreases rank[s]
  {
    assert Descends(g[s], rank, s);
    s == b || (HasLhs(g[s]) && Reaches(g, rank, g[s].lhs, b)) || (HasRhs(g[s]) && Reaches(g, rank, g[s].rhs, b))
  }

  lemma {:induction false} ReachesRank(g: seq<NodeDef>, rank: seq<nat>, s: nat, b: nat)
    requires Ranked(g, rank) && s < |g| && b < |g| && Reaches(g, rank, s, b)
    ensures rank[b] <= rank[s]
    decreases rank[s]
  {
    if s != b {
      assert Descends(g[s], rank, s);
      ReachesRank(g, rank, if HasLhs(g[s]) && Reaches(g, rank, g[s].lhs, b) then g[s].lhs else g[s].rhs, b);
    }
  }

  /** A path to a real node that starts in an alias chain goes through the chain's end. */
  lemma {:induction false} ReachesResolved(g: seq<NodeDef>, root: nat, cert: Cert, o: nat, b: nat)
    requires Sound(g, root, cert) && o < |g| && b < |g| && g[b].kind != Alias
    requires Reaches(g, cert.rank, o, b)
    ensures Resolve(g, o) < |g| && Reaches(g, cert.rank, Resolve(g, o), b)
    decreases cert.rank[o]
  {
    ResolveFacts(g, root, cert, o);
    if g[o].kind == Alias {
      assert Descends(g[o], cert.rank, o);
      ReachesResolved(g, root, cert, g[o].lhs, b);
    }
  }

  /** A twin cannot depend on its twin: both would have to lie below a shared operand. */
  lemma TwinsIndependent(g: seq<NodeDef>, root: nat, cert: Cert, a: nat, b: nat)
    requires Sound(g, root, cert) && Twins(g, a, b)
    ensures !Reaches(g, cert.rank, a, b)
  {
    if Reaches(g, cert.rank, a, b) {
      assert ShapeOk(g[a], |g|) && ShapeOk(g[b], |g|) && Descends(g[a], cert.rank, a);
      var left := HasLhs(g[a]) && Reaches(g, cert.rank, g[a].lhs, b);
      var o, o' := if left then g[a].lhs else g[a].rhs, if left then g[b].lhs else g[b].rhs;
      ReachesResolved(g, root, cert, o, b);
      assert HasOperand(g[b], o') && Resolve(g, o') == Resolve(g, o);
      OperandFacts(g, root, cert, b, o');
      ReachesRank(g, cert.rank, Resolve(g, o), b);
    }
  }

  /** Lifting everything above b makes room for the new edge from b to a. */
  lemma Rerank(g: seq<NodeDef>, rank: seq<nat>, a: nat, b: nat) returns (rank': seq<nat>)
    requires Ranked(g, rank) && a < |g| && b < |g| && !Reaches(g, rank, a, b)
    ensures Ranked(g, rank') && rank'[a] < rank'[b]
  {
    rank' := seq(|g|, s requires 0 <= s < |g| => if Reaches(g, rank, s, b) then rank[s] + rank[a] + 1 else rank[s]);
    forall s | 0 <= s < |g|
      ensures Descends(g[s], rank', s)
    {
      assert Descends(g[s], rank, s);
    }
  }

  /** Twins have the same value in every solution. */
  lemma TwinsAgree(g: seq<NodeDef>, root: nat, cert: Cert, a: nat, b: nat, params: seq<i64>, val: seq<i64>)
    requires Sound(g, root, cert) && Twins(g, a, b) && Models(g, params, val)
    ensures val[a] == val[b]
  {
    assert ShapeOk(g[a], |g|) && ShapeOk(g[b], |g|);
    assert Holds(g[a], params, val, val[a]) && Holds(g[b], params, val, val[b]);
    assert g[a].kind == g[b].kind;
    if g[a].kind == Bin || g[a].kind == Un {
      ResolveValue(g, root, cert, params, val, g[a].lhs);
      ResolveValue(g, root, cert, params, val, g[b].lhs);
    }
    if g[a].kind == Bin {
      ResolveValue(g, root, cert, params, val, g[a].rhs);
      ResolveValue(g, root, cert, params, val, g[b].rhs);
    }
  }

  /** The slots whose alias chain ends in `core`, together with `core`. */
  ghost function WithAliases(g: seq<NodeDef>, core: set<nat>): set<nat> {
    core + set t | t in Below(|g|) && g[t].kind == Alias && Resolve(g, t) in core
  }

  /** An operand that resolves into `core` is in `core` or an alias of it. */
  lemma WithAliasesHas(g: seq<NodeDef>, root: nat, cert: Cert, core: set<nat>, o: nat)
    requires Sound(g, root, cert) && o < |g| && Resolve(g, o) in core
    ensures o in WithAliases(g, core)
  {
  }

  /** A twin of a live slot reads live slots or aliases of live slots. */
  lemma TwinReadsLive(g: seq<NodeDef>, root: nat, cert: Cert, a: nat, b: nat)
    requires Sound(g, root, cert) && Twins(g, a, b) && b in cert.live
    ensures LiveNode(g[a], WithAliases(g, cert.live))
  {
    assert ShapeOk(g[a], |g|) && ShapeOk(g[b], |g|);
    if HasLhs(g[a]) {
      OperandFacts(g, root, cert, b, g[b].lhs);
      WithAliasesHas(g, root, cert, cert.live, g[a].lhs);
    }
    if HasRhs(g[a]) {
      OperandFacts(g, root, cert, b, g[b].rhs);
      WithAliasesHas(g, root, cert, cert.live, g[a].rhs);
    }
  }

  /** The live slots with the aliases that lead to them are closed under operands. */
  lemma AliasesLive(g: seq<NodeDef>, root: nat, cert: Cert, s: nat)
    requires Sound(g, root, cert) && s in WithAliases(g, cert.live)
    ensures s < |g| && LiveNode(g[s], WithAliases(g, cert.live))
  {
    if s in cert.live {
      assert LiveNode(g[s], cert.live);
    } else {
      assert ShapeOk(g[s], |g|);
      ResolveFacts(g, root, cert, s);
      WithAliasesHas(g, root, cert, cert.live, g[s].lhs);
    }
  }

  /** The live set may grow by a twin that was unreachable until now. */
  lemma AdoptTwin(g: seq<NodeDef>, root: nat, cert: Cert, a: nat, b: nat) returns (live: set<nat>)
    requires Sound(g, root, cert) && Twins(g, a, b)
    ensures LiveFrom(g, root, live) && (b in live ==> a in live)
  {
    if b !in cert.live {
      return cert.live;
    }
    live := WithAliases(g, cert.live) + {a};
    TwinReadsLive(g, root, cert, a, b);
    forall s | s in live
      ensures s < |g| && LiveNode(g[s], live)
    {
      if s != a {
        AliasesLive(g, root, cert, s);
      }
    }
  }

  lemma CseKeeps(g: seq<NodeDef>, root: nat, cert: Cert, a: nat, b: nat) returns (cert': Cert)
    requires Sound(g, root, cert) && Twins(g, a, b)
    ensures Sound(g[b := AliasDef(a)], root, cert') && Refines(g, g[b := AliasDef(a)], root)
  {
    TwinsIndependent(g, root, cert, a, b);
    var rank := Rerank(g, cert.rank, a, b);
    var live := AdoptTwin(g, root, cert, a, b);
    cert' := Cert(rank, live);
    forall params, val | Models(g, params, val)
      ensures Holds(AliasDef(a), params, val, val[b])
    {
      TwinsAgree(g, root, cert, a, b, params, val);
    }
    FittingReplacement(g, root, cert', b, AliasDef(a));
  }

  // ---- Dead code ----

  /** What is marked, with the aliases that lead to it, is a live set for the root. */
  lemma MarkedLive(g: seq<NodeDef>, root: nat, cert: Cert, marked: set<nat>)
    requires Sound(g, root, cert) && Needed(g, root, marked)
    ensures LiveFrom(g, root, WithAliases(g, marked))
  {
    LiveMarks(g, root, cert, marked);
    var live := WithAliases(g, marked);
    WithAliasesHas(g, root, cert, marked, root);
    forall t | t in live
      ensures t < |g| && LiveNode(g[t], live)
    {
      assert ShapeOk(g[t], |g|);
      ResolveFacts(g, root, cert, t);
      assert t in marked ==> Covered(g, g[t], marked);
      if HasLhs(g[t]) {
        WithAliasesHas(g, root, cert, marked, g[t].lhs);
      }
      if HasRhs(g[t]) {
        WithAliasesHas(g, root, cert, marked, g[t].rhs);
      }
    }
  }

  /** A tombstone outside a live set changes nothing the root needs. */
  lemma BuryKeeps(g: seq<NodeDef>, root: nat, cert: Cert, s: nat)
    requires Sound(g, root, cert) && s < |g| && s !in cert.live
    ensures Sound(g[s := DeadDef], root, cert) && Refines(g, g[s := DeadDef], root)
  {
  }

  /** A slot outside everything the root needs may become a tombstone. */
  lemma DceKeeps(g: seq<NodeDef>, root: nat, cert: Cert, marked: set<nat>, s: nat) returns (cert': Cert)
    requires Sound(g, root, cert) && Needed(g, root, marked)
    requires s < |g| && s !in marked && g[s].kind != Alias
    ensures Sound(g[s := DeadDef], root, cert') && Refines(g, g[s := DeadDef], root)
  {
    cert' := Cert(cert.rank, WithAliases(g, marked));
    MarkedLive(g, root, cert, marked);
    ResolveFacts(g, root, cert, s);
    BuryKeeps(g, root, cert', s);
  }

  // ---- Finding the sites ----

  predicate KeyLess(a: Key, b: Key) {
    || a.kind < b.kind
    || (a.kind == b.kind && (
         || a.opcode < b.opcode
         || (a.opcode == b.opcode && (
              || a.imm < b.imm
              || (a.imm == b.imm && (a.lhs < b.lhs || (a.lhs == b.lhs && a.rhs < b.rhs)))))))
  }

  /** a is no later than b by kind, then opcode, immediate, left and right operand. */
  ghost predicate KeyAtMost(a: Key, b: Key) {
    a.kind <= b.kind && (a.kind == b.kind ==>
      a.opcode <= b.opcode && (a.opcode == b.opcode ==>
        a.imm <= b.imm && (a.imm == b.imm ==>
          a.lhs <= b.lhs && (a.lhs == b.lhs ==> a.rhs <= b.rhs))))
  }

  datatype Entry = Entry(slot: nat, key: Key)

  /** The stable sort order: by key, then by the slot order of insertion. */
  predicate Before(a: Entry, b: Entry) {
    KeyLess(a.key, b.key) || (a.key == b.key && a.slot < b.slot)
  }

  ghost predicate Sorted(s: seq<Entry>) {
    forall i, j :: 0 <= i < j < |s| ==> Before(s[i], s[j])
  }

  function Insert(e: Entry, s: seq<Entry>): seq<Entry> {
    if s == [] || Before(e, s[0]) then [e] + s else [s[0]] + Insert(e, s[1..])
  }

  lemma {:induction false} InsertSorted(e: Entry, s: seq<Entry>)
    requires Sorted(s) && forall x :: x in s ==> x.slot != e.slot
    ensures Sorted(Insert(e, s))
    ensures forall x :: x in Insert(e, s) <==> x == e || x in s
  {
    if s != [] && !Before(e, s[0]) {
      InsertSorted(e, s[1..]);
      assert s == [s[0]] + s[1..];
      var t := Insert(e, s[1..]);
      forall j | 0 <= j < |t|
        ensures Before(s[0], t[j])
      {
        assert t[j] == e || t[j] in s[1..];
      }
    } else if s != [] {
      forall j | 0 <= j < |s|
        ensures Before(e, s[j])
      {
      }
    }
  }

  /** The value slots below n with their keys. */
  ghost predicate Catalogue(g: seq<NodeDef>, n: nat, s: seq<Entry>) {
    forall e: Entry :: e in s <==> e.slot < n && e.slot < |g| && IsValue(g[e.slot]) && e.key == KeyOf(g, e.slot)
  }

  /** No twins have a lesser key, and none with this key start or end earlier. */
  ghost predicate FirstTwins(g: seq<NodeDef>, a: nat, b: nat) {
    && Twins(g, a, b)
    && forall x, y :: Twins(g, x, y) ==>
         KeyAtMost(KeyOf(g, a), KeyOf(g, x)) && (KeyOf(g, x) == KeyOf(g, a) ==> a <= x && b <= y)
  }

  lemma PositionOf(g: seq<NodeDef>, s: seq<Entry>, x: nat) returns (p: nat)
    requires Catalogue(g, |g|, s) && x < |g| && IsValue(g[x])
    ensures p < |s| && s[p] == Entry(x, KeyOf(g, x))
  {
    assert Entry(x, KeyOf(g, x)) in s;
    p :| p < |s| && s[p] == Entry(x, KeyOf(g, x));
  }

  /** Twins stand at increasing positions with an adjacent equal pair no later than the first. */
  lemma TwinsInOrder(g: seq<NodeDef>, s: seq<Entry>, i: nat, x: nat, y: nat)
    requires Catalogue(g, |g|, s) && Sorted(s) && i < |s|
    requires forall k :: 0 <= k < i && k + 1 < |s| ==> s[k].key != s[k + 1].key
    requires Twins(g, x, y)
    ensures i + 1 < |s|
    ensures KeyAtMost(s[i].key, KeyOf(g, x))
    ensures KeyOf(g, x) == s[i].key ==> s[i].slot <= x && s[i + 1].slot <= y
  {
    var p := PositionOf(g, s, x);
    var q := PositionOf(g, s, y);
    assert p < q;
    assert Before(s[p], s[p + 1]) && (p + 1 < q ==> Before(s[p + 1], s[q]));
    assert s[p].key == s[p + 1].key;
    assert i <= p;
    assert i < p ==> Before(s[i], s[p]);
    assert i + 1 < q ==> Before(s[i + 1], s[q]);
    assert Before(s[i], s[i + 1]);
  }

  /** Sorts the value slots by resolved definition and takes the first equal neighbours. */
  method FindTwins(g: seq<NodeDef>) returns (r: Option<(nat, nat)>)
    ensures match r
            case Some(t) => FirstTwins(g, t.0, t.1)
            case None => forall x, y :: !Twins(g, x, y)
  {
    var defs: seq<Entry> := [];
    for s := 0 to |g|
      invariant Sorted(defs) && Catalogue(g, s, defs)
    {
      if IsValue(g[s]) {
        InsertSorted(Entry(s, KeyOf(g, s)), defs);
        defs := Insert(Entry(s, KeyOf(g, s)), defs);
      }
    }
    var i := 0;
    while i + 1 < |defs|
      invariant forall k :: 0 <= k < i && k + 1 < |defs| ==> defs[k].key != defs[k + 1].key
    {
      if defs[i].key == defs[i + 1].key {
        assert defs[i] in defs && defs[i + 1] in defs && Before(defs[i], defs[i + 1]);
        forall x, y | Twins(g, x, y)
          ensures KeyAtMost(defs[i].key, KeyOf(g, x))
          ensures KeyOf(g, x) == defs[i].key ==> defs[i].slot <= x && defs[i + 1].slot <= y
        {
          TwinsInOrder(g, defs, i, x, y);
        }
        return Some((defs[i].slot, defs[i + 1].slot));
      }
      i := i + 1;
    }
    forall x, y | Twins(g, x, y)
      ensures false
    {
      var p := PositionOf(g, defs, x);
      TwinsInOrder(g, defs, |defs| - 1, x, y);
    }
    r := None;
  }

  /** The first live, non-alias slot the root does not need. */
  method FindDead(g: seq<NodeDef>, marked: set<nat>) returns (r: Option<nat>)
    ensures r.Some? ==> Removable(g, marked, r.value) && forall s: nat :: s < r.value ==> !Removable(g, marked, s)
    ensures r.None? ==> forall s: nat :: !Removable(g, marked, s)
  {
    for s := 0 to |g|
      invariant forall t: nat :: t < s ==> !Removable(g, marked, t)
    {
      if s !in marked && g[s].kind != Dead && g[s].kind != Alias {
        return Some(s);
      }
    }
    r := None;
  }

  predicate Removable(g: seq<NodeDef>, marked: set<nat>, s: nat) {
    s < |g| && s !in marked && g[s].kind != Dead && g[s].kind != Alias
  }

  /** The live, non-alias slots below n in order; a random draw picks one of them. */
  function LiveSlots(g: seq<NodeDef>, n: nat): (r: seq<nat>)
    requires n <= |g|
    ensures forall s :: s in r <==> 0 <= s < n && g[s].kind != Dead && g[s].kind != Alias
    ensures forall i, j :: 0 <= i < j < |r| ==> r[i] < r[j]
  {
    if n == 0 then []
    else
      var below := LiveSlots(g, n - 1);
      assert forall i :: 0 <= i < |below| ==> below[i] in below;
      below + (if g[n - 1].kind != Dead && g[n - 1].kind != Alias then [n - 1] else [])
  }

  /** The overlays a family appends: the specification of one mutation step. `draw` is the
      random number that selects the site. */
  ghost predicate Mutation(g: seq<NodeDef>, root: nat, family: Family, draw: nat, r: Option<seq<Overlay>>) {
    match family
    case Cse =>
      (match r
       case Some(o) => exists a, b :: FirstTwins(g, a, b) && o == [Replace(b, AliasDef(a))]
       case None => forall x, y :: !Twins(g, x, y))
    case Dce =>
      exists marked :: Needed(g, root, marked) &&
        (match r
         case Some(o) =>
           exists s :: Removable(g, marked, s) && (forall t: nat :: t < s ==> !Removable(g, marked, t))
                       && o == [Replace(s, DeadDef)]
         case None => forall t: nat :: !Removable(g, marked, t))
    case _ =>
      var live := LiveSlots(g, |g|);
      if live == [] then r == None
      else
        var s := live[draw % |live|];
        if family == ReassocAdd then
          r == (match Reassoc(g, s)
                case None => None
                case Some((x, c)) => Some(ReassocOverlays(|g|, s, x, c)))
        else
          r == (match SiteRewrite(g, family, s)
                case None => None
                case Some(d) => Some([Replace(s, d)]))
  }

  lemma CseMutation(g: seq<NodeDef>, root: nat, cert: Cert, draw: nat, o: seq<Overlay>) returns (cert': Cert)
    requires Sound(g, root, cert) && Mutation(g, root, Cse, draw, Some(o))
    ensures Sound(Flatten(g, o), root, cert') && Refines(g, Flatten(g, o), root) && |Flatten(g, o)| == |g|
  {
    var a, b :| FirstTwins(g, a, b) && o == [Replace(b, AliasDef(a))];
    cert' := CseKeeps(g, root, cert, a, b);
    FlattenOne(g, o[0]);
  }

  lemma DceMutation(g: seq<NodeDef>, root: nat, cert: Cert, draw: nat, o: seq<Overlay>) returns (cert': Cert)
    requires Sound(g, root, cert) && Mutation(g, root, Dce, draw, Some(o))
    ensures Sound(Flatten(g, o), root, cert') && Refines(g, Flatten(g, o), root) && |Flatten(g, o)| == |g|
  {
    var marked :| Needed(g, root, marked) &&
      exists s :: Removable(g, marked, s) && (forall t: nat :: t < s ==> !Removable(g, marked, t))
                  && o == [Replace(s, DeadDef)];
    var s :| Removable(g, marked, s) && o == [Replace(s, DeadDef)];
    cert' := DceKeeps(g, root, cert, marked, s);
    FlattenOne(g, o[0]);
  }

  lemma DrawnSlot(g: seq<NodeDef>, draw: nat) returns (s: nat)
    requires LiveSlots(g, |g|) != []
    ensures var live := LiveSlots(g, |g|); s == live[draw % |live|] && s < |g|
  {
    var live := LiveSlots(g, |g|);
    s := live[draw % |live|];
    assert s in live;
  }

  lemma SiteMutation(g: seq<NodeDef>, root: nat, cert: Cert, family: Family, draw: nat, o: seq<Overlay>) returns (cert': Cert)
    requires Sound(g, root, cert) && |g| < SLOT_LIMIT && family != Cse && family != Dce
    requires Mutation(g, root, family, draw, Some(o))
    ensures Sound(Flatten(g, o), root, cert') && Refines(g, Flatten(g, o), root) && |Flatten(g, o)| <= |g| + 1
  {
    var s := DrawnSlot(g, draw);
    if family == ReassocAdd {
      cert' := ReassocKeeps(g, root, cert, s);
      FlattenTwo(g, o[0], o[1]);
    } else {
      FlattenOne(g, o[0]);
      SiteRewriteFits(g, root, cert, family, s);
      FittingReplacement(g, root, cert, s, SiteRewrite(g, family, s).value);
      cert' := cert;
    }
  }

  /** One mutation of a sound candidate yields a sound candidate that refines it. */
  lemma MutationKeeps(g: seq<NodeDef>, root: nat, cert: Cert, family: Family, draw: nat, o: seq<Overlay>)
    returns (cert': Cert)
    requires Sound(g, root, cert) && |g| < SLOT_LIMIT && Mutation(g, root, family, draw, Some(o))
    ensures Sound(Flatten(g, o), root, cert') && Refines(g, Flatten(g, o), root)
    ensures |Flatten(g, o)| <= |g| + 1
  {
    if family == Cse {
      cert' := CseMutation(g, root, cert, draw, o);
    } else if family == Dce {
      cert' := DceMutation(g, root, cert, draw, o);
    } else {
      cert' := SiteMutation(g, root, cert, family, draw, o);
    }
  }

  lemma FlattenOne(g: seq<NodeDef>, o: Overlay)
    ensures Flatten(g, [o]) == Apply(g, o)
  {
  }

  lemma FlattenTwo(g: seq<NodeDef>, a: Overlay, b: Overlay)
    ensures Flatten(g, [a, b]) == Apply(Apply(g, a), b)
  {
    FlattenOne(g, a);
    assert [a, b][..1] == [a];
  }

  function PushAll(c: Candidate, o: seq<Overlay>): Candidate {
    c.(overlays := c.overlays + o)
  }

  lemma {:induction false} EffectivePushAll(c: Candidate, o: seq<Overlay>)
    ensures Effective(PushAll(c, o)) == Flatten(Effective(c), o)
    decreases |o|
  {
    if o == [] {
      assert c.overlays + o == c.overlays;
    } else {
      var init := o[..|o| - 1];
      EffectivePushAll(c, init);
      EffectivePush(PushAll(c, init), o[|o| - 1]);
      assert PushAll(c, o).overlays == PushAll(c, init).overlays + [o[|o| - 1]];
    }
  }

  /** The overlays a family appends to a candidate, None when it finds no site. */
  method ChooseOverlays(c: Candidate, family: Family, draw: nat, ghost cert: Cert) returns (o: Option<seq<Overlay>>)
    requires Sound(Effective(c), c.root, cert)
    ensures Mutation(Effective(c), c.root, family, draw, o)
  {
    var g := Effective(c);
    o := None;
    if family == Cse {
      var t := FindTwins(g);
      if t.Some? {
        o := Some([Replace(t.value.1, AliasDef(t.value.0))]);
      }
    } else if family == Dce {
      var marked := MarkReachable(c, cert);
      var s := FindDead(g, marked);
      if s.Some? {
        o := Some([Replace(s.value, DeadDef)]);
      }
    } else {
      o := ChooseSite(g, c.root, family, draw);
    }
  }

  method ChooseSite(g: seq<NodeDef>, root: nat, family: Family, draw: nat) returns (o: Option<seq<Overlay>>)
    requires family != Cse && family != Dce
    ensures Mutation(g, root, family, draw, o)
  {
    var live := LiveSlots(g, |g|);
    if live == [] {
      return None;
    }
    var s := live[draw % |live|];
    if family == ReassocAdd {
      var x := Reassoc(g, s);
      o := if x.Some? then Some(ReassocOverlays(|g|, s, x.value.0, x.value.1)) else None;
    } else {
      var d := SiteRewrite(g, family, s);
      o := if d.Some? then Some([Replace(s, d.value)]) else None;
    }
  }

  /** r is what the family makes of the candidate at the drawn site, None when it finds no site. */
  ghost predicate Proposed(c: Candidate, family: Family, draw: nat, r: Option<Candidate>) {
    exists o :: Mutation(Effective(c), c.root, family, draw, o)
                && r == (match o case None => None case Some(l) => Some(PushAll(c, l)))
  }

  /** The dispatcher: applies one family to a candidate. */
  method ApplyFamily(c: Candidate, family: Family, draw: nat, ghost cert: Cert)
    returns (r: Option<Candidate>, ghost cert': Cert)
    requires Sound(Effective(c), c.root, cert) && SlotCount(c) < SLOT_LIMIT
    ensures Proposed(c, family, draw, r)
    ensures r.Some? ==>
              && r.value.root == c.root
              && Sound(Effective(r.value), c.root, cert')
              && Refines(Effective(c), Effective(r.value), c.root)
              && SlotCount(r.value) <= SlotCount(c) + 1
  {
    EffectiveViews(c);
    var o := ChooseOverlays(c, family, draw, cert);
    cert' := cert;
    r := None;
    if o.Some? {
      cert' := MutationKeeps(Effective(c), c.root, cert, family, draw, o.value);
      r := Some(PushAll(c, o.value));
      EffectivePushAll(c, o.value);
      EffectiveViews(r.value);
    }
  }
}
