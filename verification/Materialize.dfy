/** Turning a candidate back into a program: mark what the root needs, then emit it in an
    order that puts operands before users, inlining aliases. */
module Materialize {
  import opened MachineInt
  import opened Son
  import opened Interp
  import opened Finite
  import opened Cand

  // ---- Marking ----

  /** A set that holds the resolved root and the resolved operands of its members. */
  ghost predicate Marks(g: seq<NodeDef>, root: nat, marked: set<nat>) {
    && Resolve(g, root) in marked
    && forall s :: s in marked ==> s < |g| && Covered(g, g[s], marked)
  }

  predicate Covered(g: seq<NodeDef>, def: NodeDef, marked: set<nat>) {
    && (HasLhs(def) ==> Resolve(g, def.lhs) in marked)
    && (HasRhs(def) ==> Resolve(g, def.rhs) in marked)
  }

  /** The least such set: exactly what the root needs. */
  ghost predicate Needed(g: seq<NodeDef>, root: nat, marked: set<nat>) {
    Marks(g, root, marked) && forall t :: Marks(g, root, t) ==> marked <= t
  }

  /** The live evidence is itself such a set once aliases are dropped. */
  lemma LiveMarks(g: seq<NodeDef>, root: nat, cert: Cert, marked: set<nat>)
    requires Sound(g, root, cert) && Needed(g, root, marked)
    ensures forall s :: s in marked ==> s < |g| && s in cert.live && g[s].kind != Dead && g[s].kind != Alias
  {
    var t := set s | s in cert.live && s < |g| && g[s].kind != Alias;
    ResolveFacts(g, root, cert, root);
    forall s | s in t
      ensures Covered(g, g[s], t)
    {
      assert ShapeOk(g[s], |g|) && LiveNode(g[s], cert.live);
      if HasLhs(g[s]) {
        ResolveFacts(g, root, cert, g[s].lhs);
      }
      if HasRhs(g[s]) {
        ResolveFacts(g, root, cert, g[s].rhs);
      }
    }
    assert Marks(g, root, t);
  }

  predicate Todo(stack: seq<nat>, marked: set<nat>, s: nat) {
    s in marked || s in stack
  }

  /** The worklist invariant: nothing needed is forgotten, nothing else is visited. */
  ghost predicate Frontier(g: seq<NodeDef>, root: nat, stack: seq<nat>, marked: set<nat>) {
    && (forall s: nat :: Todo(stack, marked, s) ==> s < |g|)
    && Todo(stack, marked, Resolve(g, root))
    && (forall s :: s in marked && s < |g| ==> Tracked(g, g[s], stack, marked))
    && (forall t, s: nat :: Marks(g, root, t) && Todo(stack, marked, s) ==> s in t)
  }

  predicate Tracked(g: seq<NodeDef>, def: NodeDef, stack: seq<nat>, marked: set<nat>) {
    && (HasLhs(def) ==> Todo(stack, marked, Resolve(g, def.lhs)))
    && (HasRhs(def) ==> Todo(stack, marked, Resolve(g, def.rhs)))
  }

  /** The worklist shared by materialization and dead-code elimination. */
  method MarkReachable(c: Candidate, ghost cert: Cert) returns (marked: set<nat>)
    requires Sound(Effective(c), c.root, cert)
    ensures Needed(Effective(c), c.root, marked)
  {
    EffectiveViews(c);
    ghost var g := Effective(c);
    ResolveFacts(g, c.root, cert, c.root);
    var first := ResolveLoop(c, c.root);
    marked := {};
    var stack: seq<nat> := [first];
    while stack != []
      invariant Frontier(g, c.root, stack, marked)
      decreases |g| - |marked|, |stack|
    {
      var s := stack[|stack| - 1];
      var rest := stack[..|stack| - 1];
      assert stack == rest + [s] && Todo(stack, marked, s);
      if s in marked {
        FrontierPop(g, c.root, rest, s, marked);
        stack := rest;
      } else {
        var more := ResolvedOperands(c, cert, s);
        FrontierPush(g, c.root, rest, s, marked, more);
        BelowCount(marked + {s}, |g|);
        stack := rest + more;
        marked := marked + {s};
      }
    }
    FrontierDone(g, c.root, marked);
  }

  /** A slot that is marked already can be dropped from the stack. */
  lemma FrontierPop(g: seq<NodeDef>, root: nat, rest: seq<nat>, s: nat, marked: set<nat>)
    requires Frontier(g, root, rest + [s], marked) && s in marked
    ensures Frontier(g, root, rest, marked)
  {
    assert forall x :: Todo(rest + [s], marked, x) <==> Todo(rest, marked, x);
  }

  lemma FrontierDone(g: seq<NodeDef>, root: nat, marked: set<nat>)
    requires Frontier(g, root, [], marked)
    ensures Needed(g, root, marked)
  {
    assert forall s :: Todo([], marked, s) <==> s in marked;
  }

  method ResolvedOperands(c: Candidate, ghost cert: Cert, s: nat) returns (more: seq<nat>)
    requires Sound(Effective(c), c.root, cert) && s < |Effective(c)|
    ensures more == OperandsOf(Effective(c), s)
    ensures forall x :: x in more ==> x < |Effective(c)|
  {
    EffectiveViews(c);
    var def := View(c, s);
    assert ShapeOk(Effective(c)[s], |Effective(c)|);
    var l := ResolvedOperand(c, cert, def.lhs);
    var r := ResolvedOperand(c, cert, def.rhs);
    more := l + r;
  }

  method ResolvedOperand(c: Candidate, ghost cert: Cert, o: nat) returns (r: seq<nat>)
    requires Sound(Effective(c), c.root, cert) && (o == NO_OPERAND || o < |Effective(c)|)
    ensures r == if o == NO_OPERAND then [] else [Resolve(Effective(c), o)]
    ensures forall x :: x in r ==> x < |Effective(c)|
  {
    if o == NO_OPERAND {
      return [];
    }
    EffectiveViews(c);
    ResolveFacts(Effective(c), c.root, cert, o);
    var l := ResolveLoop(c, o);
    r := [l];
  }

  function OperandsOf(g: seq<NodeDef>, s: nat): seq<nat>
    requires s < |g|
  {
    (if HasLhs(g[s]) then [Resolve(g, g[s].lhs)] else []) + (if HasRhs(g[s]) then [Resolve(g, g[s].rhs)] else [])
  }

  lemma FrontierPush(g: seq<NodeDef>, root: nat, rest: seq<nat>, s: nat, marked: set<nat>, more: seq<nat>)
    requires Frontier(g, root, rest + [s], marked)
    requires s < |g| && more == OperandsOf(g, s) && forall x :: x in more ==> x < |g|
    ensures Frontier(g, root, rest + more, marked + {s})
    ensures forall x :: x in marked + {s} ==> x < |g|
  {
    assert Todo(rest + [s], marked, s);
    assert forall x :: x in marked ==> Todo(rest + [s], marked, x);
    assert forall x :: Todo(rest + [s], marked, x) ==> Todo(rest + more, marked + {s}, x);
    assert forall x :: x in more ==> Todo(rest + more, marked + {s}, x);
    assert forall x :: Todo(rest + more, marked + {s}, x) ==> x in more || Todo(rest + [s], marked, x);
  }

  // ---- Emission ----

  /** copy is the record of slot order[k] with its operands renamed to earlier positions. */
  predicate Renamed(g: seq<NodeDef>, order: seq<nat>, k: nat, copy: NodeDef)
    requires k < |order|
  {
    && order[k] < |g|
    && var def := g[order[k]];
    && copy.kind == def.kind && copy.imm == def.imm && copy.opcode == def.opcode
    && RenamedOperand(g, order, k, def.lhs, copy.lhs)
    && RenamedOperand(g, order, k, def.rhs, copy.rhs)
  }

  predicate RenamedOperand(g: seq<NodeDef>, order: seq<nat>, k: nat, o: nat, copy: nat)
    requires k < |order|
  {
    if o == NO_OPERAND then copy == NO_OPERAND else copy < k && order[copy] == Resolve(g, o)
  }

  /** out lists the slots of `order`, each once, operands before users. */
  ghost predicate Listing(g: seq<NodeDef>, marked: set<nat>, order: seq<nat>, out: seq<NodeDef>) {
    && |order| == |out|
    && (forall k :: 0 <= k < |order| ==> order[k] in marked)
    && (forall i, j :: 0 <= i < j < |order| ==> order[i] != order[j])
    && (forall k :: 0 <= k < |order| ==> Renamed(g, order, k, out[k]))
  }

  predicate Complete(marked: set<nat>, order: seq<nat>) {
    forall s :: s in marked ==> s in order
  }

  /** p is the candidate's program: it lists everything needed and ends at the resolved root. */
  ghost predicate Emitted(g: seq<NodeDef>, root: nat, marked: set<nat>, order: seq<nat>, p: Program) {
    && Listing(g, marked, order, p.nodes)
    && Complete(marked, order)
    && p.root < |order| && order[p.root] == Resolve(g, root)
  }

  const UNPLACED: nat := 0xFFFF_FFFF
  const SKIPPED: nat := 0xFFFF_FFFE

  /** Entries once placed or skipped stay as they are. */
  ghost predicate Placing(before: seq<nat>, after: seq<nat>) {
    |after| == |before| && forall s :: 0 <= s < |before| && before[s] != UNPLACED ==> after[s] == before[s]
  }

  lemma PlacingStep(a: seq<nat>, b: seq<nat>, c: seq<nat>)
    requires Placing(a, b) && Placing(b, c)
    ensures Placing(a, c) && (c != a <==> b != a || c != b)
  {
    if b != a {
      var s :| 0 <= s < |a| && b[s] != a[s];
      assert c[s] == b[s];
    }
  }

  /** The old-to-new index array against the listing it describes. */
  ghost predicate Tracks(idx: seq<nat>, n: nat, marked: set<nat>, order: seq<nat>) {
    && |idx| == n
    && (forall s :: 0 <= s < n ==> idx[s] <= UNPLACED)
    && (forall s :: 0 <= s < n && idx[s] == SKIPPED ==> s !in marked)
    && (forall s :: 0 <= s < n && idx[s] < SKIPPED ==> idx[s] < |order| && order[idx[s]] == s)
    && (forall s :: 0 <= s < n && idx[s] >= SKIPPED ==> s !in order)
  }

  method Materialize(c: Candidate, ghost cert: Cert) returns (p: Program, marked: set<nat>, order: seq<nat>)
    requires Sound(Effective(c), c.root, cert)
    ensures Needed(Effective(c), c.root, marked)
    ensures Emitted(Effective(c), c.root, marked, order, p)
  {
    EffectiveViews(c);
    ghost var g := Effective(c);
    var n := SlotCount(c);
    marked := MarkReachable(c, cert);
    LiveMarks(g, c.root, cert, marked);
    var idx: seq<nat> := seq(n, _ => UNPLACED);
    var out: seq<NodeDef> := [];
    order := [];
    var pass := 0;
    while pass <= n
      invariant 0 <= pass <= n + 1
      invariant Listing(g, marked, order, out) && Tracks(idx, n, marked, order)
      invariant Complete(marked, order) || |order| >= pass
    {
      var progress;
      idx, out, order, progress := EmitPass(c, cert, marked, idx, out, order);
      if !progress {
        break;
      }
      pass := pass + 1;
    }
    DistinctCount(order, n);
    ResolveFacts(g, c.root, cert, c.root);
    var r := ResolveLoop(c, c.root);
    assert r in order;
    p := Program(out, if idx[r] < SKIPPED then idx[r] else 0);
  }

  /** One pass over the slots in order: emit every needed slot whose operands are emitted. */
  method EmitPass(c: Candidate, ghost cert: Cert, marked: set<nat>, idx0: seq<nat>, out0: seq<NodeDef>, order0: seq<nat>)
    returns (idx: seq<nat>, out: seq<NodeDef>, order: seq<nat>, progress: bool)
    requires Sound(Effective(c), c.root, cert) && Needed(Effective(c), c.root, marked)
    requires Listing(Effective(c), marked, order0, out0)
    requires Tracks(idx0, SlotCount(c), marked, order0)
    ensures Listing(Effective(c), marked, order, out)
    ensures Tracks(idx, SlotCount(c), marked, order)
    ensures |order| >= |order0|
    ensures Complete(marked, order0) ==> Complete(marked, order)
    ensures !Complete(marked, order0) ==> progress && |order| > |order0|
    ensures Placing(idx0, idx) && (progress <==> idx != idx0)
    ensures forall s :: 0 <= s < |idx| && s !in marked ==> idx[s] != UNPLACED
  {
    ghost var g := Effective(c);
    LiveMarks(g, c.root, cert, marked);
    EffectiveViews(c);
    ghost var ready := NextReady(g, c.root, cert, marked, order0);
    ghost var stuck := !Complete(marked, order0);
    idx, out, order, progress := idx0, out0, order0, false;
    for slot := 0 to SlotCount(c)
      invariant Listing(g, marked, order, out) && Tracks(idx, SlotCount(c), marked, order)
      invariant PassOk(stuck, ready, slot, progress, order0, order)
      invariant Placing(idx0, idx) && (progress <==> idx != idx0)
      invariant forall s :: 0 <= s < slot && s !in marked ==> idx[s] != UNPLACED
    {
      var moved;
      if stuck {
        ReadyGrows(g, order0, order, ready);
      }
      ghost var before, went, placed := order, progress, idx;
      idx, out, order, moved := EmitSlot(c, cert, marked, idx, out, order, slot);
      progress := progress || moved;
      PassStep(stuck, ready, slot, went, progress, order0, before, order);
      PlacingStep(idx0, placed, idx);
    }
    CompleteGrows(marked, order0, order);
  }

  /** After the slots below slot: the listing grew from first, and the ready slot, if the pass
      began with one, is listed once its turn has come and not before. */
  ghost predicate PassOk(stuck: bool, ready: nat, slot: int, progress: bool, first: seq<nat>, order: seq<nat>) {
    && first <= order
    && (stuck && ready < slot ==> progress && |order| > |first|)
    && (stuck && slot <= ready ==> ready !in order)
  }

  lemma ReadyGrows(g: seq<NodeDef>, before: seq<nat>, after: seq<nat>, s: nat)
    requires Ready(g, before, s) && before <= after
    ensures Ready(g, after, s)
  {
  }

  lemma CompleteGrows(marked: set<nat>, before: seq<nat>, after: seq<nat>)
    requires before <= after
    ensures Complete(marked, before) ==> Complete(marked, after)
  {
  }

  lemma PassStep(stuck: bool, ready: nat, slot: nat, went: bool, progress: bool, first: seq<nat>, before: seq<nat>, after: seq<nat>)
    requires PassOk(stuck, ready, slot, went, first, before) && (went ==> progress)
    requires after == before || (progress && after == before + [slot])
    requires stuck && slot == ready ==> after != before
    ensures PassOk(stuck, ready, slot + 1, progress, first, after)
  {
  }

  /** All the operands of a slot are listed. */
  ghost predicate Ready(g: seq<NodeDef>, order: seq<nat>, s: nat) {
    && s < |g|
    && (HasLhs(g[s]) ==> Resolve(g, g[s].lhs) in order)
    && (HasRhs(g[s]) ==> Resolve(g, g[s].rhs) in order)
  }

  /** One visit of a slot: leave it, mark it skipped, or emit it. */
  method EmitSlot(c: Candidate, ghost cert: Cert, marked: set<nat>, idx0: seq<nat>, out0: seq<NodeDef>,
                  order0: seq<nat>, slot: nat)
    returns (idx: seq<nat>, out: seq<NodeDef>, order: seq<nat>, moved: bool)
    requires Sound(Effective(c), c.root, cert) && forall s :: s in marked ==> s < SlotCount(c)
    requires Listing(Effective(c), marked, order0, out0)
    requires Tracks(idx0, SlotCount(c), marked, order0) && slot < SlotCount(c)
    requires slot in marked ==> View(c, slot).kind != Dead && View(c, slot).kind != Alias
    ensures Listing(Effective(c), marked, order, out)
    ensures Tracks(idx, SlotCount(c), marked, order)
    ensures order == order0 || (moved && order == order0 + [slot])
    ensures Placing(idx0, idx) && (moved <==> idx != idx0) && (slot !in marked ==> idx[slot] != UNPLACED)
    ensures slot in marked && slot !in order0 && Ready(Effective(c), order0, slot) ==> order != order0
  {
    EffectiveViews(c);
    ghost var g := Effective(c);
    idx, out, order, moved := idx0, out0, order0, false;
    if idx[slot] != UNPLACED {
      return;
    }
    var def := View(c, slot);
    if def.kind == Dead || def.kind == Alias || slot !in marked {
      idx := idx[slot := SKIPPED];
      return idx, out, order, true;
    }
    assert ShapeOk(g[slot], |g|);
    var l, lok := OperandIndex(c, cert, idx, def.lhs);
    var r, rok := OperandIndex(c, cert, idx, def.rhs);
    if !lok || !rok {
      return;
    }
    var copy := def.(lhs := l, rhs := r);
    ListingGrows(g, marked, idx, order, out, slot, copy);
    idx := idx[slot := |out|];
    out := out + [copy];
    order := order + [slot];
    moved := true;
  }

  /** The new index of an operand, if it has one yet. The source distinguishes "not yet"
      from "skipped", but leaves the node alone in both cases. */
  method OperandIndex(c: Candidate, ghost cert: Cert, idx: seq<nat>, o: nat) returns (k: nat, ok: bool)
    requires Sound(Effective(c), c.root, cert) && |idx| == SlotCount(c)
    requires o != NO_OPERAND ==> o < SlotCount(c)
    ensures o == NO_OPERAND ==> ok && k == NO_OPERAND
    ensures o != NO_OPERAND ==>
              var r := Resolve(Effective(c), o);
              r < |idx| && k == idx[r] && (ok <==> idx[r] < SKIPPED)
  {
    EffectiveViews(c);
    if o == NO_OPERAND {
      return NO_OPERAND, true;
    }
    ResolveFacts(Effective(c), c.root, cert, o);
    var r := ResolveLoop(c, o);
    k := idx[r];
    ok := k < SKIPPED;
  }

  /** Appending a slot whose operands are listed keeps the listing and its index array. */
  lemma ListingGrows(g: seq<NodeDef>, marked: set<nat>, idx: seq<nat>, order: seq<nat>, out: seq<NodeDef>,
                     slot: nat, copy: NodeDef)
    requires |g| <= SLOT_LIMIT && slot < |g| && forall s :: s in marked ==> s < |g|
    requires Listing(g, marked, order, out) && Tracks(idx, |g|, marked, order)
    requires slot in marked && idx[slot] == UNPLACED
    requires copy == g[slot].(lhs := copy.lhs, rhs := copy.rhs)
    requires Placed(g, idx, g[slot].lhs, copy.lhs) && Placed(g, idx, g[slot].rhs, copy.rhs)
    ensures Listing(g, marked, order + [slot], out + [copy])
    ensures Tracks(idx[slot := |order|], |g|, marked, order + [slot])
  {
    var order' := order + [slot];
    forall k | 0 <= k < |order|
      ensures Renamed(g, order', k, (out + [copy])[k])
    {
      assert Renamed(g, order, k, out[k]);
    }
    assert Renamed(g, order', |order|, copy);
    DistinctCount(order', |g|);
  }

  predicate Placed(g: seq<NodeDef>, idx: seq<nat>, o: nat, k: nat) {
    if o == NO_OPERAND then k == NO_OPERAND
    else Resolve(g, o) < |idx| && idx[Resolve(g, o)] < SKIPPED && k == idx[Resolve(g, o)]
  }

  /** Some needed, unlisted slot of least rank exists: all it needs is listed already. */
  lemma NextReady(g: seq<NodeDef>, root: nat, cert: Cert, marked: set<nat>, order: seq<nat>) returns (m: nat)
    requires Sound(g, root, cert) && Needed(g, root, marked)
    ensures !Complete(marked, order) ==>
              m in marked && m !in order && Ready(g, order, m)
  {
    var left := set s | s in marked && s !in order;
    m := 0;
    if !Complete(marked, order) {
      var w :| w in marked && w !in order;
      assert w in left;
      m := LeastRank(cert.rank, left);
      assert ShapeOk(g[m], |g|) && Descends(g[m], cert.rank, m) && Covered(g, g[m], marked);
      if HasLhs(g[m]) {
        ResolveFacts(g, root, cert, g[m].lhs);
      }
      if HasRhs(g[m]) {
        ResolveFacts(g, root, cert, g[m].rhs);
      }
    }
  }

  lemma {:induction false} LeastRank(rank: seq<nat>, s: set<nat>) returns (m: nat)
    requires s != {} && forall x :: x in s ==> x < |rank|
    ensures m in s && forall x :: x in s ==> rank[m] <= rank[x]
    decreases s
  {
    m :| m in s;
    if s != {m} {
      var k := LeastRank(rank, s - {m});
      m := if rank[k] < rank[m] then k else m;
    }
  }

  // ---- What the emitted program means ----

  /** The emitted program is ordered, and every solution of the candidate's equations gives
      the emitted root the value of the candidate's root. */
  lemma EmittedMeaning(g: seq<NodeDef>, root: nat, cert: Cert, marked: set<nat>, order: seq<nat>, p: Program)
    requires Sound(g, root, cert) && Needed(g, root, marked) && Emitted(g, root, marked, order, p)
    ensures WellFormed(p)
    ensures forall params, val :: Models(g, params, val) ==> Evaluate(p, params) == Ok(val[root])
  {
    LiveMarks(g, root, cert, marked);
    DistinctCount(order, |g|);
    forall k | 0 <= k < |p.nodes|
      ensures Ordered(p.nodes[k], k)
    {
      assert Renamed(g, order, k, p.nodes[k]) && ShapeOk(g[order[k]], |g|);
    }
    forall params, val | Models(g, params, val)
      ensures Evaluate(p, params) == Ok(val[root])
    {
      var small := seq(|order|, k requires 0 <= k < |order| => var s := order[k]; if s < |val| then val[s] else 0);
      forall k | 0 <= k < |p.nodes|
        ensures Holds(p.nodes[k], params, small, small[k])
      {
        EmittedHolds(g, root, cert, order, k, p.nodes[k], params, val, small);
      }
      ResolveValue(g, root, cert, params, val, root);
      EvaluateIsMeaning(p, params, val[root]);
      assert Models(p.nodes, params, small) && small[p.root] == val[root];
    }
  }

  lemma EmittedHolds(g: seq<NodeDef>, root: nat, cert: Cert, order: seq<nat>, k: nat, copy: NodeDef,
                     params: seq<i64>, val: seq<i64>, small: seq<i64>)
    requires Sound(g, root, cert) && Models(g, params, val)
    requires |small| == |order| && k < |order|
    requires forall i :: 0 <= i < |order| ==> order[i] < |g| && small[i] == val[order[i]]
    requires Renamed(g, order, k, copy) && g[order[k]].kind != Dead && g[order[k]].kind != Alias
    ensures Holds(copy, params, small, small[k])
  {
    var def := g[order[k]];
    assert ShapeOk(def, |g|) && Holds(def, params, val, val[order[k]]);
    if def.kind == Bin || def.kind == Un {
      ResolveValue(g, root, cert, params, val, def.lhs);
    }
    if def.kind == Bin {
      ResolveValue(g, root, cert, params, val, def.rhs);
    }
  }
}
