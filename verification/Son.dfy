/** The Sea-of-Nodes program: a slot array of node records and a result root.
    The source stores the five record fields in parallel columns that are always
    appended together; here they are one record per slot. */
module Son {
  import opened MachineInt

  datatype Kind = Const | Param | Bin | Un | Alias | Dead

  const ADD: nat := 0
  const SUB: nat := 1
  const MUL: nat := 2
  const MIN: nat := 3
  const MAX: nat := 4
  const NEG: nat := 0

  /** The operand sentinel u32::MAX. */
  const NO_OPERAND: nat := 0xFFFF_FFFF

  /** Slot indices are u32 and both u32::MAX and u32::MAX - 1 are reserved as
      markers, so an arena the code can index holds at most this many slots. */
  const SLOT_LIMIT: nat := 0xFFFF_FFFE

  datatype NodeDef = NodeDef(kind: Kind, imm: i64, opcode: nat, lhs: nat, rhs: nat)

  datatype Program = Program(nodes: seq<NodeDef>, root: nat)

  function AliasDef(target: nat): NodeDef {
    NodeDef(Alias, 0, 0, target, NO_OPERAND)
  }

  function ConstDef(value: i64): NodeDef {
    NodeDef(Const, value, 0, NO_OPERAND, NO_OPERAND)
  }

  const DeadDef: NodeDef := NodeDef(Dead, 0, 0, NO_OPERAND, NO_OPERAND)

  predicate IsBinOp(opcode: nat) {
    opcode <= MAX
  }

  function BinValue(opcode: nat, a: i64, b: i64): i64
    requires IsBinOp(opcode)
  {
    if opcode == ADD then Wrap(a + b)
    else if opcode == SUB then Wrap(a - b)
    else if opcode == MUL then Wrap(a * b)
    else if opcode == MIN then (if b < a then b else a)
    else (if a < b then b else a)
  }

  function NegValue(a: i64): i64 {
    Wrap(-(a as int))
  }

  /** The operands a record really has: both for Bin, the left one for Un and Alias. */
  predicate HasLhs(def: NodeDef) {
    def.kind == Bin || def.kind == Un || def.kind == Alias
  }

  predicate HasRhs(def: NodeDef) {
    def.kind == Bin
  }

  predicate HasOperand(def: NodeDef, o: nat) {
    (HasLhs(def) && o == def.lhs) || (HasRhs(def) && o == def.rhs)
  }

  /** A record with the arity its kind asks for and operands below n. */
  predicate ShapeOk(def: NodeDef, n: nat) {
    match def.kind
    case Const | Param | Dead => def.lhs == NO_OPERAND && def.rhs == NO_OPERAND
    case Bin => def.lhs < n && def.rhs < n && IsBinOp(def.opcode)
    case Un => def.lhs < n && def.rhs == NO_OPERAND && def.opcode == NEG
    case Alias => def.lhs < n && def.rhs == NO_OPERAND
  }

  /** What the builder guarantees: operands precede their users, every node
      computes something, and the root exists. */
  predicate WellFormed(p: Program) {
    && |p.nodes| <= SLOT_LIMIT
    && p.root < |p.nodes|
    && forall s :: 0 <= s < |p.nodes| ==> Ordered(p.nodes[s], s)
  }

  predicate Ordered(def: NodeDef, s: nat) {
    def.kind != Alias && def.kind != Dead && ShapeOk(def, s)
  }

  datatype BuildResult<T> = Built(value: T) | BadOperand

  /** Appends nodes; an operand must already exist. */
  class ProgramBuilder {
    var nodes: seq<NodeDef>

    ghost predicate Valid()
      reads this
    {
      forall s :: 0 <= s < |nodes| ==> Ordered(nodes[s], s)
    }

    constructor ()
      ensures Valid() && nodes == []
    {
      nodes := [];
    }

    method ConstI64(value: i64) returns (slot: nat)
      requires Valid()
      modifies this
      ensures Valid() && slot == |old(nodes)| && nodes == old(nodes) + [ConstDef(value)]
    {
      nodes := nodes + [ConstDef(value)];
      slot := |nodes| - 1;
    }

    method Param(index: nat) returns (slot: nat)
      requires Valid() && index <= 0xFFFF_FFFF
      modifies this
      ensures Valid() && slot == |old(nodes)|
      ensures nodes == old(nodes) + [NodeDef(Kind.Param, index, 0, NO_OPERAND, NO_OPERAND)]
    {
      nodes := nodes + [NodeDef(Kind.Param, index, 0, NO_OPERAND, NO_OPERAND)];
      slot := |nodes| - 1;
    }

    method Bin(op: nat, lhs: nat, rhs: nat) returns (r: BuildResult<nat>)
      requires Valid() && IsBinOp(op)
      modifies this
      ensures Valid()
      ensures r.Built? <==> lhs < |old(nodes)| && rhs < |old(nodes)| && lhs != NO_OPERAND && rhs != NO_OPERAND
      ensures nodes == if r.Built? then old(nodes) + [NodeDef(Kind.Bin, 0, op, lhs, rhs)] else old(nodes)
      ensures r.Built? ==> r.value == |old(nodes)|
    {
      if !CheckOperand(nodes, lhs) || !CheckOperand(nodes, rhs) {
        return BadOperand;
      }
      nodes := nodes + [NodeDef(Kind.Bin, 0, op, lhs, rhs)];
      r := Built(|nodes| - 1);
    }

    method Neg(operand: nat) returns (r: BuildResult<nat>)
      requires Valid()
      modifies this
      ensures Valid()
      ensures r.Built? <==> operand < |old(nodes)| && operand != NO_OPERAND
      ensures nodes == if r.Built? then old(nodes) + [NodeDef(Un, 0, NEG, operand, NO_OPERAND)] else old(nodes)
      ensures r.Built? ==> r.value == |old(nodes)|
    {
      if !CheckOperand(nodes, operand) {
        return BadOperand;
      }
      nodes := nodes + [NodeDef(Un, 0, NEG, operand, NO_OPERAND)];
      r := Built(|nodes| - 1);
    }

    method Finish(root: nat) returns (r: BuildResult<Program>)
      requires Valid()
      ensures r == if root < |nodes| then Built(Program(nodes, root)) else BadOperand
      ensures r.Built? && |nodes| <= SLOT_LIMIT ==> WellFormed(r.value)
    {
      r := if root >= |nodes| then BadOperand else Built(Program(nodes, root));
    }
  }

  predicate CheckOperand(nodes: seq<NodeDef>, slot: nat) {
    slot != NO_OPERAND && slot < |nodes|
  }
}
