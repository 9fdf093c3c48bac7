/** The operations an e-node can carry. Attributes of operations no rewrite looks at are one
    opaque number; a float constant is its bit pattern. */
module EOps {
  import opened MachineInt

  datatype BinaryOp = Add | Sub | Mul | Div | Max | Min

  datatype Monoid = MSum | MProd | MMax | MMin | MAnd | MOr

  datatype Op =
    | ConstI64(v: i64) | ConstF64(bits: nat) | Param(index: nat)
    | Binary(b: BinaryOp) | Unary(u: nat)
    | Dot | Reduce(monoid: Monoid, axes: nat) | Transpose(attr: nat) | Broadcast(attr: nat)
    | Matmul(attr: nat) | Conv(attr: nat) | Rng(attr: nat) | If | Custom(attr: nat)
    | FusionCluster | FusionBarrier | FusionMaterialize
    | LoopParallel(attr: nat) | LoopAlloc(attr: nat) | LoopAsyncCopy | LoopPipelineStage(attr: nat)
    | TargetMma | TargetWarpShuffle | TargetBarrier

  /** An e-node: an operation over e-class ids, at most four of them. */
  datatype ENode = ENode(op: Op, children: seq<nat>)
}
