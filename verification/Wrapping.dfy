/** What the interpreter computes, against exact integer arithmetic. */
module Wrapping {
  import opened MachineInt
  import opened Arith
  import opened Son
  import opened Interp

  ghost predicate Congruent(x: int, y: int) {
    (x - y) % TWO64 == 0
  }

  lemma CongruentBy(x: int, y: int, k: int)
    requires x - y == k * TWO64
    ensures Congruent(x, y)
  {
    Remainder(x - y, TWO64, k, 0);
  }

  lemma CongruentGap(x: int, y: int) returns (k: int)
    requires Congruent(x, y)
    ensures x == y + k * TWO64
  {
    k := (x - y) / TWO64;
  }

  /** An i64 congruent to x is x wrapped. */
  lemma CongruentIsWrap(r: i64, x: int)
    requires Congruent(r, x)
    ensures Wrap(x) == r
  {
    var k := CongruentGap(r, x);
    WrapIsUnique(x, r, -k);
  }

  lemma WrapIsCongruent(x: int, y: int)
    requires Congruent(x, y)
    ensures Congruent(Wrap(x), y)
  {
    var k := CongruentGap(x, y);
    var j := CongruentGap(x, Wrap(x));
    CongruentBy(Wrap(x), y, k - j);
  }

  lemma CongruentSum(a: int, x: int, b: int, y: int)
    requires Congruent(a, x) && Congruent(b, y)
    ensures Congruent(a + b, x + y) && Congruent(a - b, x - y)
  {
    var k := CongruentGap(a, x);
    var j := CongruentGap(b, y);
    CongruentBy(a + b, x + y, k + j);
    CongruentBy(a - b, x - y, k - j);
  }

  lemma CongruentProduct(a: int, x: int, b: int, y: int)
    requires Congruent(a, x) && Congruent(b, y)
    ensures Congruent(a * b, x * y)
  {
    var k := CongruentGap(a, x);
    var j := CongruentGap(b, y);
    calc {
      a * b;
      a * y + a * (j * TWO64);
      x * y + (k * TWO64) * y + a * (j * TWO64);
      x * y + (k * y + a * j) * TWO64;
    }
    CongruentBy(a * b, x * y, k * y + a * j);
  }

  // ---- Exact results ----

  /** x is the exact result of the operation on unbounded integers. */
  ghost predicate ExactBin(opcode: nat, a: int, b: int, x: int) {
    || (opcode == ADD && x == a + b)
    || (opcode == SUB && x + b == a)
    || (opcode == MUL && x == a * b)
    || (opcode == MIN && x <= a && x <= b && x in {a, b})
    || (opcode == MAX && x >= a && x >= b && x in {a, b})
  }

  /** The value of a binary operation is its exact result reduced to 64 bits. */
  lemma BinIsModular(opcode: nat, a: i64, b: i64, x: int)
    requires ExactBin(opcode, a, b, x)
    ensures IsBinOp(opcode) && Congruent(BinValue(opcode, a, b), x)
    ensures InI64(x) ==> BinValue(opcode, a, b) == x
  {
    WrapIsCongruent(x, x);
    assert opcode == MUL ==> x == a as int * b as int;
  }

  lemma NegIsModular(a: i64)
    ensures Congruent(NegValue(a) + a, 0)
  {
    WrapIsCongruent(0 - a, 0 - a);
    CongruentSum(NegValue(a), 0 - a, a, a);
  }

  // ---- Laws of the operations ----

  lemma SameIfCongruent(r: i64, s: i64, x: int)
    requires Congruent(r, x) && Congruent(s, x)
    ensures r == s
  {
    CongruentIsWrap(r, x);
    CongruentIsWrap(s, x);
  }

  /** Operands may be replaced by congruent integers before the exact operation. */
  lemma OperandsModulo(opcode: nat, a: i64, x: int, b: i64, y: int, z: int)
    requires opcode in {ADD, SUB, MUL} && Congruent(a, x) && Congruent(b, y) && ExactBin(opcode, x, y, z)
    ensures Congruent(BinValue(opcode, a, b), z)
  {
    CongruentSum(a, x, b, y);
    CongruentProduct(a, x, b, y);
    if opcode == ADD {
      WrapIsCongruent(a + b, z);
    } else if opcode == SUB {
      WrapIsCongruent(a - b, z);
    } else {
      WrapIsCongruent(a * b, z);
    }
  }

  /** Negation and subtraction invert addition. */
  lemma Inverses(a: i64, b: i64)
    ensures BinValue(ADD, a, NegValue(a)) == 0
    ensures BinValue(ADD, BinValue(SUB, a, b), b) == a
  {
    NegIsModular(a);
    OperandsModulo(ADD, a, a, NegValue(a), 0 - a, 0);
    SameIfCongruent(BinValue(ADD, a, NegValue(a)), 0, 0);
    OperandsModulo(SUB, a, a, b, b, a - b);
    OperandsModulo(ADD, BinValue(SUB, a, b), a - b, b, b, a);
    SameIfCongruent(BinValue(ADD, BinValue(SUB, a, b), b), a, a);
  }

  lemma Associativity(opcode: nat, a: i64, b: i64, c: i64)
    requires opcode in {ADD, MUL}
    ensures BinValue(opcode, BinValue(opcode, a, b), c) == BinValue(opcode, a, BinValue(opcode, b, c))
  {
    var ab: int := if opcode == ADD then a + b else a * b;
    var bc: int := if opcode == ADD then b + c else b * c;
    var abc: int := if opcode == ADD then ab + c else ab * c;
    assert opcode == MUL ==> a * bc == abc;
    OperandsModulo(opcode, a, a, b, b, ab);
    OperandsModulo(opcode, b, b, c, c, bc);
    OperandsModulo(opcode, BinValue(opcode, a, b), ab, c, c, abc);
    OperandsModulo(opcode, a, a, BinValue(opcode, b, c), bc, abc);
    SameIfCongruent(BinValue(opcode, BinValue(opcode, a, b), c), BinValue(opcode, a, BinValue(opcode, b, c)), abc);
  }

  lemma ProductOfSum(a: i64, b: i64, c: i64, z: int)
    requires z == a * (b + c)
    ensures Congruent(BinValue(MUL, a, BinValue(ADD, b, c)), z)
  {
    OperandsModulo(ADD, b, b, c, c, b + c);
    OperandsModulo(MUL, a, a, BinValue(ADD, b, c), b + c, z);
  }

  lemma SumOfProducts(a: i64, b: i64, c: i64, x: int, y: int)
    requires x == a * b && y == a * c
    ensures Congruent(BinValue(ADD, BinValue(MUL, a, b), BinValue(MUL, a, c)), x + y)
  {
    OperandsModulo(MUL, a, a, b, b, x);
    OperandsModulo(MUL, a, a, c, c, y);
    OperandsModulo(ADD, BinValue(MUL, a, b), x, BinValue(MUL, a, c), y, x + y);
  }

  /** Multiplication distributes over addition, and one is its unit. */
  lemma Distributivity(a: i64, b: i64, c: i64)
    ensures BinValue(MUL, a, BinValue(ADD, b, c)) == BinValue(ADD, BinValue(MUL, a, b), BinValue(MUL, a, c))
    ensures BinValue(MUL, a, 1) == a
  {
    var x: int, y: int, z: int := a * b, a * c, a * (b + c);
    assert z == x + y;
    ProductOfSum(a, b, c, z);
    SumOfProducts(a, b, c, x, y);
    SameIfCongruent(BinValue(MUL, a, BinValue(ADD, b, c)), BinValue(ADD, BinValue(MUL, a, b), BinValue(MUL, a, c)), z);
  }

  /** Minimum and maximum return one of the operands, on the right side of both. */
  lemma Bounds(a: i64, b: i64)
    ensures ExactBin(MIN, a, b, BinValue(MIN, a, b)) && ExactBin(MAX, a, b, BinValue(MAX, a, b))
  {
  }

  // ---- Whole programs ----

  /** x is the record's value when the other slots hold these unbounded integers. */
  ghost predicate ExactHolds(def: NodeDef, params: seq<i64>, exact: seq<int>, x: int) {
    match def.kind
    case Const => x == def.imm
    case Param => 0 <= def.imm < |params| && x == params[def.imm]
    case Bin => def.lhs < |exact| && def.rhs < |exact| && ExactBin(def.opcode, exact[def.lhs], exact[def.rhs], x)
    case Un => def.lhs < |exact| && def.opcode == NEG && x + exact[def.lhs] == 0
    case _ => false
  }

  ghost predicate ExactModels(nodes: seq<NodeDef>, params: seq<i64>, exact: seq<int>) {
    && |exact| == |nodes|
    && forall s :: 0 <= s < |nodes| ==> ExactHolds(nodes[s], params, exact, exact[s])
  }

  /** A comparison has its exact operands within 64 bits. */
  ghost predicate Comparable(def: NodeDef, exact: seq<int>) {
    def.kind == Bin && def.opcode in {MIN, MAX} ==>
      def.lhs < |exact| && def.rhs < |exact| && InI64(exact[def.lhs]) && InI64(exact[def.rhs])
  }

  ghost function Reduced(exact: seq<int>): (val: seq<i64>)
    ensures |val| == |exact|
  {
    seq(|exact|, i requires 0 <= i < |exact| => Wrap(exact[i]))
  }

  lemma ReducedHolds(def: NodeDef, params: seq<i64>, exact: seq<int>, x: int)
    requires ExactHolds(def, params, exact, x) && Comparable(def, exact)
    ensures Holds(def, params, Reduced(exact), Wrap(x))
  {
    var val := Reduced(exact);
    if def.kind == Bin {
      var a, b := exact[def.lhs], exact[def.rhs];
      WrapIsCongruent(a, a);
      WrapIsCongruent(b, b);
      if def.opcode in {MIN, MAX} {
        BinIsModular(def.opcode, a, b, x);
      } else {
        OperandsModulo(def.opcode, val[def.lhs], a, val[def.rhs], b, x);
        CongruentIsWrap(BinValue(def.opcode, val[def.lhs], val[def.rhs]), x);
      }
    } else if def.kind == Un {
      var a := exact[def.lhs];
      WrapIsCongruent(a, a);
      var v: int := val[def.lhs];
      CongruentSum(0, 0, v, a);
      WrapIsCongruent(0 - v, x);
      CongruentIsWrap(NegValue(val[def.lhs]), x);
    }
  }

  /** A built program evaluates to the value of its formula over the unbounded integers, reduced
      to 64 bits. Intermediate results may overflow except where they are compared. */
  lemma EvaluatesModulo(p: Program, params: seq<i64>, exact: seq<int>)
    requires WellFormed(p) && ExactModels(p.nodes, params, exact)
    requires forall s :: 0 <= s < |p.nodes| ==> Comparable(p.nodes[s], exact)
    ensures Evaluate(p, params).Ok? && Congruent(Evaluate(p, params).value, exact[p.root])
    ensures InI64(exact[p.root]) ==> Evaluate(p, params) == Ok(exact[p.root])
  {
    var val := Reduced(exact);
    forall s | 0 <= s < |p.nodes|
      ensures Holds(p.nodes[s], params, val, val[s])
    {
      ReducedHolds(p.nodes[s], params, exact, exact[s]);
    }
    EvaluateIsMeaning(p, params, val[p.root]);
    assert Models(p.nodes, params, val);
    WrapIsCongruent(exact[p.root], exact[p.root]);
  }
}
