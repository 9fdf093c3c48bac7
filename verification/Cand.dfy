/** Copy-on-write candidates: an immutable base program and an ordered overlay list. */
module Cand {
  import opened MachineInt
  import opened Son
  import opened Interp
  import opened Finite

  datatype Overlay = Replace(slot: nat, def: NodeDef) | Extend(def: NodeDef)

  datatype Candidate = Candidate(base: Program, overlays: seq<Overlay>, root: nat)

  function FromProgram(p: Program): Candidate {
    Candidate(p, [], p.root)
  }

  function Extends(overlays: seq<Overlay>): nat {
    if overlays == [] then 0
    else Extends(overlays[..|overlays| - 1]) + (if overlays[|overlays| - 1].Extend? then 1 else 0)
  }

  function SlotCount(c: Candidate): nat {
    |c.base.nodes| + Extends(c.overlays)
  }

  /** The definition of a slot after replaying the overlays; later ones win. */
  function ViewOf(base: seq<NodeDef>, overlays: seq<Overlay>, slot: nat): NodeDef {
    if overlays == [] then (if slot < |base| then base[slot] else DeadDef)
    else
      var before := overlays[..|overlays| - 1];
      match overlays[|overlays| - 1]
      case Replace(s, d) => if s == slot then d else ViewOf(base, before, slot)
      case Extend(d) => if |base| + Extends(before) == slot then d else ViewOf(base, before, slot)
  }

  function View(c: Candidate, slot: nat): NodeDef {
    ViewOf(c.base.nodes, c.overlays, slot)
  }

  /** The replay loop of the source. */
  method ViewLoop(c: Candidate, slot: nat) returns (def: NodeDef)
    ensures def == View(c, slot)
  {
    def := if slot < |c.base.nodes| then c.base.nodes[slot] else DeadDef;
    var extendIdx := |c.base.nodes|;
    for k := 0 to |c.overlays|
      invariant def == ViewOf(c.base.nodes, c.overlays[..k], slot)
      invariant extendIdx == |c.base.nodes| + Extends(c.overlays[..k])
    {
      assert c.overlays[..k + 1][..k] == c.overlays[..k];
      match c.overlays[k] {
        case Replace(s, d) =>
          if s == slot {
            def := d;
          }
        case Extend(d) =>
          if extendIdx == slot {
            def := d;
          }
          extendIdx := extendIdx + 1;
      }
    }
    assert c.overlays[..|c.overlays|] == c.overlays;
  }

  /** The overlays applied eagerly to the slot array. */
  function Apply(nodes: seq<NodeDef>, o: Overlay): seq<NodeDef> {
    match o
    case Replace(s, d) => if s < |nodes| then nodes[s := d] else nodes
    case Extend(d) => nodes + [d]
  }

  function Flatten(base: seq<NodeDef>, overlays: seq<Overlay>): seq<NodeDef> {
    if overlays == [] then base
    else Apply(Flatten(base, overlays[..|overlays| - 1]), overlays[|overlays| - 1])
  }

  function Effective(c: Candidate): seq<NodeDef> {
    Flatten(c.base.nodes, c.overlays)
  }

  /** Lazy replay and eager application agree on every slot. */
  lemma {:induction false} ViewIsEffective(base: seq<NodeDef>, overlays: seq<Overlay>)
    ensures |Flatten(base, overlays)| == |base| + Extends(overlays)
    ensures forall s :: 0 <= s < |Flatten(base, overlays)| ==> ViewOf(base, overlays, s) == Flatten(base, overlays)[s]
  {
    if overlays != [] {
      ViewIsEffective(base, overlays[..|overlays| - 1]);
    }
  }

  lemma EffectiveViews(c: Candidate)
    ensures SlotCount(c) == |Effective(c)|
    ensures forall s :: 0 <= s < |Effective(c)| ==> View(c, s) == Effective(c)[s]
  {
    ViewIsEffective(c.base.nodes, c.overlays);
  }

  function Push(c: Candidate, o: Overlay): Candidate {
    c.(overlays := c.overlays + [o])
  }

  lemma EffectivePush(c: Candidate, o: Overlay)
    ensures Effective(Push(c, o)) == Apply(Effective(c), o)
  {
  }

  // ---- Alias resolution ----

  /** The bounded chain walk: at most `fuel` hops, stopping at a non-alias or a broken alias. */
  function Chase(g: seq<NodeDef>, cur: nat, fuel: nat): nat
    decreases fuel
  {
    if fuel == 0 || cur >= |g| || g[cur].kind != Alias || g[cur].lhs == NO_OPERAND then cur
    else Chase(g, g[cur].lhs, fuel - 1)
  }

  function Resolve(g: seq<NodeDef>, slot: nat): nat {
    Chase(g, slot, |g| + 1)
  }

  /** The same walk as the source makes it, through the overlays, on any candidate. */
  function Walk(c: Candidate, cur: nat, fuel: nat): nat
    decreases fuel
  {
    var def := View(c, cur);
    if fuel == 0 || def.kind != Alias || def.lhs == NO_OPERAND then cur else Walk(c, def.lhs, fuel - 1)
  }

  lemma {:induction false} WalkIsChase(c: Candidate, cur: nat, fuel: nat)
    requires Legal(Effective(c), c.root) && cur < SlotCount(c)
    ensures Walk(c, cur, fuel) == Chase(Effective(c), cur, fuel)
    decreases fuel
  {
    EffectiveViews(c);
    assert ShapeOk(Effective(c)[cur], |Effective(c)|);
    if fuel > 0 && View(c, cur).kind == Alias && View(c, cur).lhs != NO_OPERAND {
      WalkIsChase(c, View(c, cur).lhs, fuel - 1);
    }
  }

  method ResolveLoop(c: Candidate, slot: nat) returns (cur: nat)
    ensures cur == Walk(c, slot, SlotCount(c) + 1)
    ensures Legal(Effective(c), c.root) && slot < SlotCount(c) ==> cur == Resolve(Effective(c), slot)
  {
    var n := SlotCount(c);
    if Legal(Effective(c), c.root) && slot < n {
      EffectiveViews(c);
      WalkIsChase(c, slot, n + 1);
    }
    cur := slot;
    for k := 0 to n + 1
      invariant Walk(c, slot, n + 1) == Walk(c, cur, n + 1 - k)
    {
      var def := View(c, cur);
      if def.kind == Alias {
        if def.lhs == NO_OPERAND {
          return cur;
        }
        cur := def.lhs;
      } else {
        return cur;
      }
    }
  }

  /** Every record is well shaped and the root is a live slot. */
  ghost predicate Legal(g: seq<NodeDef>, root: nat) {
    && |g| <= SLOT_LIMIT
    && root < |g|
    && g[root].kind != Dead
    && forall s :: 0 <= s < |g| ==> ShapeOk(g[s], |g|)
  }

  /** rank decreases along every operand and alias edge: the graph has no cycle. */
  ghost predicate Ranked(g: seq<NodeDef>, rank: seq<nat>) {
    && |rank| == |g|
    && forall s :: 0 <= s < |g| ==> Descends(g[s], rank, s)
  }

  predicate Descends(def: NodeDef, rank: seq<nat>, s: nat)
    requires s < |rank|
  {
    && (HasLhs(def) ==> def.lhs < |rank| && rank[def.lhs] < rank[s])
    && (HasRhs(def) ==> def.rhs < |rank| && rank[def.rhs] < rank[s])
  }

  /** A set of live slots that holds the root and is closed under operands. */
  ghost predicate LiveFrom(g: seq<NodeDef>, root: nat, live: set<nat>) {
    && root in live
    && forall s :: s in live ==> s < |g| && LiveNode(g[s], live)
  }

  predicate LiveNode(def: NodeDef, live: set<nat>) {
    && def.kind != Dead
    && (HasLhs(def) ==> def.lhs in live)
    && (HasRhs(def) ==> def.rhs in live)
  }

  /** The evidence that a candidate is acyclic and that its root reaches no tombstone. */
  datatype Cert = Cert(rank: seq<nat>, live: set<nat>)

  ghost predicate Sound(g: seq<NodeDef>, root: nat, cert: Cert) {
    Legal(g, root) && Ranked(g, cert.rank) && LiveFrom(g, root, cert.live)
  }

  /** The slots already passed are distinct, so the hop budget outlasts every chain. */
  lemma {:induction false} ChaseEnds(g: seq<NodeDef>, root: nat, cert: Cert, cur: nat, fuel: nat, passed: set<nat>)
    requires Sound(g, root, cert) && cur < |g|
    requires forall p :: p in passed ==> p < |g| && cert.rank[cur] < cert.rank[p]
    requires |passed| + fuel > |g|
    ensures var r := Chase(g, cur, fuel);
            && r < |g| && g[r].kind != Alias && cert.rank[r] <= cert.rank[cur]
            && (forall more: nat :: more >= fuel ==> Chase(g, cur, more) == r)
            && (cur in cert.live ==> r in cert.live)
    decreases fuel
  {
    BelowCount(passed + {cur}, |g|);
    assert ShapeOk(g[cur], |g|);
    if g[cur].kind == Alias {
      assert Descends(g[cur], cert.rank, cur);
      ChaseEnds(g, root, cert, g[cur].lhs, fuel - 1, passed + {cur});
    }
  }

  /** Resolution in a sound graph: it lands on a real node without climbing in rank. */
  lemma ResolveFacts(g: seq<NodeDef>, root: nat, cert: Cert, s: nat)
    requires Sound(g, root, cert) && s < |g|
    ensures Resolve(g, s) < |g| && g[Resolve(g, s)].kind != Alias
    ensures cert.rank[Resolve(g, s)] <= cert.rank[s]
    ensures s in cert.live ==> Resolve(g, s) in cert.live
    ensures g[s].kind == Alias ==> g[s].lhs < |g| && Resolve(g, g[s].lhs) == Resolve(g, s)
    ensures g[s].kind != Alias ==> Resolve(g, s) == s
  {
    ChaseEnds(g, root, cert, s, |g| + 1, {});
    assert ShapeOk(g[s], |g|);
    if g[s].kind == Alias {
      assert Chase(g, s, |g| + 2) == Resolve(g, s);
    }
  }

  /** An alias and its target have the same value. */
  lemma {:induction false} ResolveValue(g: seq<NodeDef>, root: nat, cert: Cert, params: seq<i64>, val: seq<i64>, s: nat)
    requires Sound(g, root, cert) && Models(g, params, val) && s < |g|
    ensures Resolve(g, s) < |g| && val[Resolve(g, s)] == val[s]
    decreases cert.rank[s]
  {
    ResolveFacts(g, root, cert, s);
    assert Holds(g[s], params, val, val[s]);
    if g[s].kind == Alias {
      assert Descends(g[s], cert.rank, s);
      ResolveValue(g, root, cert, params, val, g[s].lhs);
    }
  }

  /** A freshly built program is a sound candidate: slot order is a rank, all slots are live. */
  lemma SeedSound(p: Program) returns (cert: Cert)
    requires WellFormed(p)
    ensures Effective(FromProgram(p)) == p.nodes
    ensures Sound(p.nodes, p.root, cert)
  {
    cert := Cert(seq(|p.nodes|, i requires 0 <= i < |p.nodes| => i), Below(|p.nodes|));
    forall s | 0 <= s < |p.nodes|
      ensures ShapeOk(p.nodes[s], |p.nodes|)
      ensures Descends(p.nodes[s], cert.rank, s) && LiveNode(p.nodes[s], cert.live)
    {
      assert Ordered(p.nodes[s], s);
    }
  }
}
