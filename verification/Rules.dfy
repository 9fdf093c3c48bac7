/** The local rewrite rules of saturation and the values that justify them. */
module Rules {
  import opened Options
  import opened MachineInt
  import opened EOps

  // ---- Values ----

  /** A run-time value. Floats are bit patterns; a tensor is its shape and the row of its integer
      elements; Refused stands for an operation that stopped with an error on its operands. */
  datatype Val =
    | Int(v: i64) | Narrow(w: int) | Float(bits: nat) | Tensor(shape: nat, elems: seq<i64>)
    | Refused | Other(code: nat)

  /** What a program's surroundings decide: its parameters, float arithmetic and every operation
      the rules do not look into. */
  datatype Meaning = Meaning(
    env: nat -> Val,
    float: (BinaryOp, nat, nat) -> nat,
    other: (Op, seq<Val>) -> Val)

  /** Division that drops the fraction. */
  function Quotient(a: int, b: int): int
    requires b != 0
  {
    var q := (if a < 0 then -a else a) / (if b < 0 then -b else b);
    if (a < 0) == (b < 0) then q else -q
  }

  /** The exact integer result, None where the operation has none. */
  function Exact(b: BinaryOp, x: int, y: int): Option<int> {
    match b
    case Add => Some(x + y)
    case Sub => Some(x - y)
    case Mul => Some(x * y)
    case Div => if y == 0 then None else Some(Quotient(x, y))
    case Max => Some(if x >= y then x else y)
    case Min => Some(if x <= y then x else y)
  }

  ghost function Abs(x: int): nat {
    if x < 0 then -x else x
  }

  /** q is a / b without the fraction: the remainder is smaller than the divisor and has the sign
      of the dividend. */
  ghost predicate Truncates(a: int, b: int, q: int) {
    var r := a - q * b;
    Abs(r) < Abs(b) && (r == 0 || (r < 0 <==> a < 0))
  }

  lemma QuotientLaw(a: int, b: int)
    requires b != 0
    ensures Truncates(a, b, Quotient(a, b))
  {
    var n: int, d: int := Abs(a), Abs(b);
    assert n == (n / d) * d + n % d;
    var q, p: int := Quotient(a, b), (n / d) * d;
    assert q * b == if a < 0 then -p else p;
  }

  /** The exact result as the operation's own law: a sum, difference, product, truncated quotient,
      or the operand on the right side of both. */
  lemma ExactLaws(b: BinaryOp, x: int, y: int)
    ensures Exact(b, x, y).None? <==> b == Div && y == 0
    ensures var r := Exact(b, x, y);
            r.Some? ==>
              match b
              case Add => r.value - y == x
              case Sub => r.value + y == x
              case Mul => r.value == y * x
              case Div => Truncates(x, y, r.value)
              case Max => r.value in {x, y} && r.value >= x && r.value >= y
              case Min => r.value in {x, y} && r.value <= x && r.value <= y
  {
    if b == Div && y != 0 {
      QuotientLaw(x, y);
    }
  }

  function Wrap32(x: int): (r: int)
    ensures -0x8000_0000 <= r <= 0x7FFF_FFFF && (x - r) % 0x1_0000_0000 == 0
  {
    var m := x % 0x1_0000_0000;
    if m >= 0x8000_0000 then m - 0x1_0000_0000 else m
  }

  function FloatZero(bits: nat): bool {
    bits == 0 || bits == 0x8000_0000_0000_0000
  }

  /** Element by element; refused as a whole if the operation has no result somewhere. */
  ghost function Elementwise(b: BinaryOp, shape: nat, x: seq<i64>, y: seq<i64>): Val
    requires |x| == |y|
  {
    if forall i :: 0 <= i < |x| ==> Exact(b, x[i], y[i]).Some?
    then Tensor(shape, seq(|x|, i requires 0 <= i < |x| => Wrapped(b, x[i], y[i])))
    else Refused
  }

  function Wrapped(b: BinaryOp, x: i64, y: i64): i64 {
    match Exact(b, x, y) case Some(r) => Wrap(r) case None => 0
  }

  /** A binary operation on two values. Kinds or shapes that do not go together, and division by
      zero, are refused; an operand of a kind the model does not look into leaves it open. */
  ghost function EvalBinary(m: Meaning, b: BinaryOp, x: Val, y: Val): Val {
    match (x, y)
    case (Int(a), Int(c)) => if Exact(b, a, c).Some? then Int(Wrapped(b, a, c)) else Refused
    case (Narrow(a), Narrow(c)) => (match Exact(b, a, c) case Some(r) => Narrow(Wrap32(r)) case None => Refused)
    case (Float(a), Float(c)) => if b == Div && FloatZero(c) then Refused else Float(m.float(b, a, c))
    case (Tensor(s, a), Tensor(t, c)) => if s == t && |a| == |c| then Elementwise(b, s, a, c) else Refused
    case (Other(_), _) => m.other(Binary(b), [x, y])
    case (_, Other(_)) => m.other(Binary(b), [x, y])
    case _ => Refused
  }

  ghost function Eval(m: Meaning, op: Op, args: seq<Val>): Val {
    match op
    case ConstI64(v) => Int(v)
    case ConstF64(bits) => Float(bits)
    case Param(i) => m.env(i)
    case Binary(b) => if |args| == 2 then EvalBinary(m, b, args[0], args[1]) else m.other(op, args)
    case _ => m.other(op, args)
  }

  // ---- Rules ----

  datatype ConstVal = I(v: i64) | F(bits: nat)

  datatype ScalarType = F64 | I64 | F32 | I32 | Bool

  /** A rewrite to a constant, or the pass-through marker naming the surviving child class. */
  datatype Rewrite = ToConst(c: ConstVal) | PassThrough(child: nat)

  function OpOf(c: ConstVal): Op {
    match c
    case I(v) => ConstI64(v)
    case F(bits) => ConstF64(bits)
  }

  /** Constant folding; integer overflow, division by zero and mixed kinds do not fold. */
  function FoldBinary(float: (BinaryOp, nat, nat) -> nat, b: BinaryOp, x: ConstVal, y: ConstVal): Option<ConstVal> {
    match (x, y)
    case (I(a), I(c)) =>
      var r := Exact(b, a, c);
      if r.Some? && InI64(r.value) then Some(I(r.value)) else None
    case (F(a), F(c)) => if b == Div && FloatZero(c) then None else Some(F(float(b, a, c)))
    case _ => None
  }

  function Integral(elem: Option<ScalarType>): bool {
    elem == None || elem == Some(I64)
  }

  function Surviving(b: BinaryOp, a: nat, c: nat, ca: Option<ConstVal>, cc: Option<ConstVal>): Option<nat> {
    if b == Add && (cc == Some(I(0)) || ca == Some(I(0))) then Some(if cc == Some(I(0)) then a else c)
    else if b == Mul && cc == Some(I(1)) then Some(a)
    else if b == Sub && cc == Some(I(0)) then Some(a)
    else None
  }

  function Annihilates(b: BinaryOp, a: nat, c: nat, ca: Option<ConstVal>, cc: Option<ConstVal>): bool {
    (b == Sub && a == c) || (b == Mul && (cc == Some(I(0)) || ca == Some(I(0))))
  }

  function BinaryRules(float: (BinaryOp, nat, nat) -> nat, b: BinaryOp, a: nat, c: nat,
                       ca: Option<ConstVal>, cc: Option<ConstVal>, elem: Option<ScalarType>): Option<Rewrite> {
    var folded := if ca.Some? && cc.Some? then FoldBinary(float, b, ca.value, cc.value) else None;
    if folded.Some? then Some(ToConst(folded.value))
    else if !Integral(elem) then None
    else
      var survivor := Surviving(b, a, c, ca, cc);
      if survivor.Some? then Some(PassThrough(survivor.value))
      else if Annihilates(b, a, c, ca, cc) then Some(ToConst(I(0)))
      else None
  }

  /** local_rules on a node with its canonical children and their known constants. */
  function LocalRules(float: (BinaryOp, nat, nat) -> nat, op: Op, children: seq<nat>,
                      consts: seq<Option<ConstVal>>, elem: Option<ScalarType>): Option<Rewrite>
    requires |children| == |consts|
  {
    // Missing children read as class 0 without a constant.
    var a := if |children| > 0 then children[0] else 0;
    var c := if |children| > 1 then children[1] else 0;
    var ca := if |consts| > 0 then consts[0] else None;
    var cc := if |consts| > 1 then consts[1] else None;
    match op
    case Binary(b) => BinaryRules(float, b, a, c, ca, cc, elem)
    case _ => None
  }

  function Commutative(op: Op, elem: Option<ScalarType>): bool {
    match op
    case Binary(b) => (b == Add || b == Mul || b == Max || b == Min) && (Integral(elem) || elem == Some(I32))
    case Reduce(monoid, _) => monoid == MMax || monoid == MMin || monoid == MAnd || monoid == MOr
    case _ => false
  }

  // ---- Soundness ----

  /** A recorded constant tells the truth about a value. */
  ghost predicate Truthful(c: Option<ConstVal>, x: Val) {
    match c
    case None => true
    case Some(I(v)) => x == Int(v)
    case Some(F(bits)) => x == Float(bits)
  }

  /** Operand values on which no integer rule can go wrong: a difference of equal operands, a zero
      or a one can make a rule fire, and then the operands must be integer scalars (or, where the
      rule passes an operand on, the operand may be a refusal). */
  ghost predicate Fit(b: BinaryOp, x: Val, y: Val) {
    match b
    case Add => (y == Int(0) ==> x.Int? || x.Refused?) && (x == Int(0) ==> y.Int? || y.Refused?)
    case Sub => (y == Int(0) ==> x.Int? || x.Refused?) && (x == y ==> x.Int?)
    case Mul => (y == Int(1) ==> x.Int? || x.Refused?) && (x == Int(0) || y == Int(0) ==> x.Int? && y.Int?)
    case _ => true
  }

  /** Operand values in either order give a commutative operation the same result. */
  ghost predicate Swappable(x: Val, y: Val) {
    x == y || !(x.Other? || y.Other? || (x.Float? && y.Float?))
  }

  /** What saturation needs of a node and the values of its operands: the declared number of
      operands, and values on which the rules that look at its element type are right. */
  ghost predicate Admissible(op: Op, elem: Option<ScalarType>, args: seq<Val>) {
    match op
    case Binary(b) =>
      && |args| == 2
      && (Integral(elem) ==> Fit(b, args[0], args[1]))
      && (Commutative(op, elem) ==> Swappable(args[0], args[1]))
    case Reduce(_, _) => |args| == 1
    case _ => true
  }

  /** The value a rewrite claims for the node it replaces. */
  ghost function Claimed(val: seq<Val>, rw: Rewrite): Val
    requires rw.PassThrough? ==> rw.child < |val|
  {
    match rw
    case ToConst(I(v)) => Int(v)
    case ToConst(F(bits)) => Float(bits)
    case PassThrough(child) => val[child]
  }

  /** Every rule that fires keeps the value, whatever the parameters, the float arithmetic and
      the uninterpreted operations are. */
  lemma LocalRulesSound(m: Meaning, val: seq<Val>, op: Op, children: seq<nat>,
                        consts: seq<Option<ConstVal>>, elem: Option<ScalarType>)
    requires |children| == |consts| && forall k :: 0 <= k < |children| ==> children[k] < |val|
    requires forall k :: 0 <= k < |children| ==> Truthful(consts[k], val[children[k]])
    requires Admissible(op, elem, seq(|children|, k requires 0 <= k < |children| => val[children[k]]))
    ensures var rw := LocalRules(m.float, op, children, consts, elem);
            rw.Some? ==>
              && (rw.value.PassThrough? ==> rw.value.child < |val|)
              && Claimed(val, rw.value)
                 == Eval(m, op, seq(|children|, k requires 0 <= k < |children| => val[children[k]]))
  {
    if LocalRules(m.float, op, children, consts, elem).Some? {
      assert Truthful(consts[0], val[children[0]]) && Truthful(consts[1], val[children[1]]);
    }
  }

  /** The value a rewrite of operands x in class a and y in class c claims. */
  ghost function ClaimedOf(rw: Rewrite, a: nat, x: Val, y: Val): Val {
    match rw
    case ToConst(I(v)) => Int(v)
    case ToConst(F(bits)) => Float(bits)
    case PassThrough(child) => if child == a then x else y
  }

  /** Whatever is known of the operands, a rule that fires claims the node's value. */
  ghost predicate Right(m: Meaning, b: BinaryOp, x: Val, y: Val, a: nat, c: nat,
                        ca: Option<ConstVal>, cc: Option<ConstVal>, elem: Option<ScalarType>) {
    var rw := BinaryRules(m.float, b, a, c, ca, cc, elem);
    rw.Some? && (a == c ==> x == y) && Truthful(ca, x) && Truthful(cc, y) ==>
      ClaimedOf(rw.value, a, x, y) == EvalBinary(m, b, x, y)
  }

  /** An operand pair that is not fit has a meaning and a state of knowledge in which the rule
      that fires is wrong. */
  lemma UnfitIsWrong(b: BinaryOp, x: Val, y: Val, elem: Option<ScalarType>)
    requires Integral(elem) && !Fit(b, x, y)
    ensures exists m, a: nat, c: nat, ca, cc :: !Right(m, b, x, y, a, c, ca, cc, elem)
  {
    var m := Meaning(_ => Refused, (_, _, _) => 0, (_, _) => Refused);
    var zeroX, zeroY := x == Int(0), y == Int(0);
    if b == Sub && x == y {
      assert !Right(m, b, x, y, 0, 0, None, None, elem);
    } else if b == Mul && y == Int(1) && !x.Int? {
      assert !Right(m, b, x, y, 0, 1, None, Some(I(1)), elem);
    } else if zeroY {
      assert !Right(m, b, x, y, 0, 1, None, Some(I(0)), elem);
    } else {
      assert !Right(m, b, x, y, 0, 1, Some(I(0)), None, elem);
    }
  }

  /** On an integer node the rules are right, in every meaning and for everything that can be
      known of the operands, if and only if the operands fit. */
  lemma FitExactly(b: BinaryOp, x: Val, y: Val, elem: Option<ScalarType>)
    requires Integral(elem)
    ensures Fit(b, x, y) <==> forall m, a: nat, c: nat, ca, cc :: Right(m, b, x, y, a, c, ca, cc, elem)
  {
    if !Fit(b, x, y) {
      UnfitIsWrong(b, x, y, elem);
    }
  }

  /** The difference of a tensor with itself fires the rule that claims the scalar zero, but is a
      tensor; and a tensor times the scalar zero is refused, where the rule claims zero. */
  lemma TensorsAnnihilateWrongly(m: Meaning)
    ensures LocalRules(m.float, Binary(Sub), [0, 0], [None, None], Some(I64)) == Some(ToConst(I(0)))
    ensures EvalBinary(m, Sub, Tensor(1, [1]), Tensor(1, [1])) == Tensor(1, [0])
    ensures LocalRules(m.float, Binary(Mul), [0, 1], [None, Some(I(0))], Some(I64)) == Some(ToConst(I(0)))
    ensures EvalBinary(m, Mul, Tensor(1, [1]), Int(0)) == Refused
  {
    assert Wrapped(Sub, 1, 1) == 0;
  }

  /** Two integer constants fold exactly when the operation has an exact in-range result, and on a
      node that is not integer nothing but a fold of two constants ever fires. */
  lemma RulesFire(float: (BinaryOp, nat, nat) -> nat, b: BinaryOp, a: nat, c: nat,
                  ca: Option<ConstVal>, cc: Option<ConstVal>, elem: Option<ScalarType>)
    ensures var r := BinaryRules(float, b, a, c, ca, cc, elem);
            && (ca.Some? && ca.value.I? && cc.Some? && cc.value.I? && (b != Sub || a != c) ==>
                  (r.Some? <==> Exact(b, ca.value.v, cc.value.v).Some? && InI64(Exact(b, ca.value.v, cc.value.v).value)))
            && (ca.Some? && ca.value.F? && cc.Some? && cc.value.F? && !(b == Div && FloatZero(cc.value.bits)) ==>
                  r == Some(ToConst(F(float(b, ca.value.bits, cc.value.bits)))))
            && (!Integral(elem) ==>
                  (r.Some? <==> ca.Some? && cc.Some? && FoldBinary(float, b, ca.value, cc.value).Some?) && (r.Some? ==> r.value.ToConst?))
  {
  }

  /** k leaves every x alone, or makes the result independent of x. */
  ghost predicate Neutral(b: BinaryOp, k: int) {
    forall x: int :: Exact(b, x, k) == Some(x)
  }

  ghost predicate Absorbing(b: BinaryOp, k: int) {
    forall x: int, y: int :: Exact(b, x, k) == Exact(b, y, k)
  }

  /** With one known operand on the right, a sum, difference or product is rewritten exactly when
      that operand is neutral or absorbing. */
  lemma RightIdentitiesComplete(float: (BinaryOp, nat, nat) -> nat, b: BinaryOp, a: nat, c: nat, k: i64, elem: Option<ScalarType>)
    requires Integral(elem) && a != c && (b == Add || b == Sub || b == Mul)
    ensures BinaryRules(float, b, a, c, None, Some(I(k)), elem).Some? <==> Neutral(b, k) || Absorbing(b, k)
  {
    var fires := BinaryRules(float, b, a, c, None, Some(I(k)), elem).Some?;
    assert fires <==> k == 0 || (b == Mul && k == 1);
    if b == Mul && k == 0 {
      AbsorbingIs(b, k);
    } else if fires {
      NeutralIs(b, k);
    } else {
      NeutralIs(b, k);
      AbsorbingIs(b, k);
    }
  }

  ghost predicate LeftNeutral(b: BinaryOp, k: int) {
    forall x: int :: Exact(b, k, x) == Some(x)
  }

  ghost predicate LeftAbsorbing(b: BinaryOp, k: int) {
    forall x: int, y: int :: Exact(b, k, x) == Exact(b, k, y)
  }

  /** With one known operand on the left, a sum is rewritten exactly when the operand is neutral and
      a product exactly when it is absorbing; a difference never is. */
  lemma LeftIdentitiesComplete(float: (BinaryOp, nat, nat) -> nat, b: BinaryOp, a: nat, c: nat, k: i64, elem: Option<ScalarType>)
    requires Integral(elem) && a != c && (b == Add || b == Sub || b == Mul)
    ensures BinaryRules(float, b, a, c, Some(I(k)), None, elem).Some? <==> (b == Add && LeftNeutral(b, k)) || LeftAbsorbing(b, k)
  {
    var fires := BinaryRules(float, b, a, c, Some(I(k)), None, elem).Some?;
    assert fires <==> k == 0 && (b == Add || b == Mul);
    LeftAbsorbingIs(b, k);
    if b == Add {
      LeftNeutralIs(k);
    }
  }

  /** With neither operand known, only the difference of a class with itself is rewritten. */
  lemma UnknownOperands(float: (BinaryOp, nat, nat) -> nat, b: BinaryOp, a: nat, c: nat, elem: Option<ScalarType>)
    requires Integral(elem)
    ensures BinaryRules(float, b, a, c, None, None, elem) == if b == Sub && a == c then Some(ToConst(I(0))) else None
  {
  }

  lemma LeftNeutralIs(k: int)
    ensures LeftNeutral(Add, k) <==> k == 0
  {
    if LeftNeutral(Add, k) {
      assert Exact(Add, k, 1) == Some(1);
    }
  }

  lemma LeftAbsorbingIs(b: BinaryOp, k: int)
    requires b == Add || b == Sub || b == Mul
    ensures LeftAbsorbing(b, k) <==> b == Mul && k == 0
  {
    if LeftAbsorbing(b, k) {
      assert Exact(b, k, 1) == Exact(b, k, 0);
    }
  }

  /** Maximum, minimum and quotient are rewritten only by folding two constants. */
  lemma FoldsOnly(float: (BinaryOp, nat, nat) -> nat, b: BinaryOp, a: nat, c: nat,
                   ca: Option<ConstVal>, cc: Option<ConstVal>, elem: Option<ScalarType>)
    requires b == Max || b == Min || b == Div
    ensures BinaryRules(float, b, a, c, ca, cc, elem).Some? <==>
            ca.Some? && cc.Some? && FoldBinary(float, b, ca.value, cc.value).Some?
  {
  }

  /** The gate lets exactly the operations pass that are symmetric on integers, on integer elements. */
  lemma GateExactly(b: BinaryOp, elem: Option<ScalarType>)
    ensures Commutative(Binary(b), elem) <==>
            (forall x: int, y: int :: Exact(b, x, y) == Exact(b, y, x)) && elem in {None, Some(I64), Some(I32)}
  {
    if b == Sub || b == Div {
      assert Exact(b, 2, 1) != Exact(b, 1, 2);
    } else {
      forall x: int, y: int
        ensures Exact(b, x, y) == Exact(b, y, x)
      {
        assert x * y == y * x;
      }
    }
  }

  /** Of the other operations only the reductions pass whose monoid is neither sum nor product; they
      have one operand, so nothing is swapped. */
  lemma GateOthers(op: Op, elem: Option<ScalarType>)
    requires !op.Binary?
    ensures Commutative(op, elem) <==> op.Reduce? && op.monoid !in {MSum, MProd}
  {
  }

  /** Both float zeros, whatever the sign bit, and no other bit pattern of 64 bits. */
  lemma FloatZeroIs(bits: nat)
    requires bits < 0x1_0000_0000_0000_0000
    ensures FloatZero(bits) <==> bits % 0x8000_0000_0000_0000 == 0
  {
  }

  lemma NeutralIs(b: BinaryOp, k: int)
    requires b == Add || b == Sub || b == Mul
    ensures Neutral(b, k) <==> k == if b == Mul then 1 else 0
  {
    if Neutral(b, k) {
      assert Exact(b, 1, k) == Some(1);
    }
  }

  lemma AbsorbingIs(b: BinaryOp, k: int)
    requires b == Add || b == Sub || b == Mul
    ensures Absorbing(b, k) <==> b == Mul && k == 0
  {
    if Absorbing(b, k) {
      assert Exact(b, 1, k) == Exact(b, 0, k);
    }
  }

  lemma ElementwiseSwap(b: BinaryOp, shape: nat, x: seq<i64>, y: seq<i64>)
    requires |x| == |y| && (b == Add || b == Mul || b == Max || b == Min)
    ensures Elementwise(b, shape, x, y) == Elementwise(b, shape, y, x)
  {
    forall i | 0 <= i < |x|
      ensures Exact(b, x[i], y[i]) == Exact(b, y[i], x[i])
    {
      assert x[i] as int * y[i] as int == y[i] as int * x[i] as int;
    }
  }

  /** Swapping the operands of an operation that passes the gate keeps its value. */
  lemma SwapSound(m: Meaning, op: Op, elem: Option<ScalarType>, x: Val, y: Val)
    requires Commutative(op, elem) && Admissible(op, elem, [x, y])
    ensures Eval(m, op, [x, y]) == Eval(m, op, [y, x])
  {
    if x.Tensor? && y.Tensor? && x.shape == y.shape && |x.elems| == |y.elems| {
      ElementwiseSwap(op.b, x.shape, x.elems, y.elems);
    }
  }

  /** Operand values can be swapped in every meaning if and only if they are swappable. */
  lemma SwapExactly(b: BinaryOp, x: Val, y: Val)
    requires b == Add || b == Mul || b == Max || b == Min
    ensures Swappable(x, y) <==> forall m :: EvalBinary(m, b, x, y) == EvalBinary(m, b, y, x)
  {
    if Swappable(x, y) {
      forall m
        ensures EvalBinary(m, b, x, y) == EvalBinary(m, b, y, x)
      {
        if x.Tensor? && y.Tensor? && x.shape == y.shape && |x.elems| == |y.elems| {
          ElementwiseSwap(b, x.shape, x.elems, y.elems);
        }
      }
    } else {
      var m := Meaning(_ => Refused, (_, p, _) => p, (_, args: seq<Val>) => if args == [] then Refused else args[0]);
      assert EvalBinary(m, b, x, y) == x && EvalBinary(m, b, y, x) == y;
    }
  }
}
