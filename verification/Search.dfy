/** The tempering search: four bands of Metropolis chains over candidates, merged by a total
    order. Random draws, transposition-table hits and uphill acceptances are arbitrary inputs;
    the cost model and the canonical hash are arbitrary functions. */
module Search {
  import opened Options
  import opened MachineInt
  import opened Son
  import opened Interp
  import opened Cand
  import opened Materialize
  import opened Mutate

  // ---- The structural filter ----

  predicate Tier0Node(def: NodeDef, n: nat) {
    match def.kind
    case Const | Param => def.lhs == NO_OPERAND && def.rhs == NO_OPERAND
    case Bin => def.lhs != NO_OPERAND && def.rhs != NO_OPERAND && def.lhs < n && def.rhs < n
    case Un | Alias => def.lhs != NO_OPERAND && def.lhs < n && def.rhs == NO_OPERAND
    case Dead => true
  }

  predicate Tier0Legal(c: Candidate) {
    && (forall s :: 0 <= s < SlotCount(c) ==> Tier0Node(View(c, s), SlotCount(c)))
    && c.root < SlotCount(c) && View(c, c.root).kind != Dead
  }

  method Tier0Scan(c: Candidate) returns (ok: bool)
    ensures ok == Tier0Legal(c)
  {
    var n := SlotCount(c);
    for slot := 0 to n
      invariant forall s :: 0 <= s < slot ==> Tier0Node(View(c, s), n)
    {
      if !Tier0Node(View(c, slot), n) {
        return false;
      }
    }
    ok := c.root < n && View(c, c.root).kind != Dead;
  }

  /** A sound candidate always passes the filter. */
  lemma SoundIsLegal(c: Candidate, cert: Cert)
    requires Sound(Effective(c), c.root, cert)
    ensures Tier0Legal(c)
  {
    EffectiveViews(c);
    forall s | 0 <= s < SlotCount(c)
      ensures Tier0Node(View(c, s), SlotCount(c))
    {
      assert ShapeOk(Effective(c)[s], SlotCount(c));
    }
  }

  /** The filter passes exactly the candidates all of whose live records have the arity of their
      kind and operands in range, and whose root is live; opcodes are not looked at. */
  lemma Tier0Exactly(c: Candidate)
    requires SlotCount(c) <= SLOT_LIMIT
    ensures Tier0Legal(c) <==>
            && (forall s :: 0 <= s < |Effective(c)| ==>
                  Effective(c)[s].kind == Dead || ShapeOk(Effective(c)[s].(opcode := 0), |Effective(c)|))
            && c.root < |Effective(c)| && Effective(c)[c.root].kind != Dead
  {
    EffectiveViews(c);
  }

  // ---- The elite order ----

  datatype Cost = Cost(total: nat, depth: nat)

  /** Cost and hash of a candidate: all the order looks at. */
  datatype Rating = Rating(cost: Cost, hash: nat)

  predicate Better(a: Rating, b: Rating) {
    || a.cost.total < b.cost.total
    || (a.cost.total == b.cost.total && a.cost.depth < b.cost.depth)
    || (a.cost == b.cost && a.hash < b.hash)
  }

  /** Better is a strict total order on ratings, and being no worse is leading. */
  lemma BetterIsTotalOrder(a: Rating, b: Rating, c: Rating)
    ensures Leads(a, b) <==> !Better(b, a)
    ensures !Better(a, a)
    ensures Better(a, b) && Better(b, c) ==> Better(a, c)
    ensures a != b ==> (Better(a, b) <==> !Better(b, a))
  {
  }

  /** The order spelled out: the lower total leads, on equal totals the lower depth, on equal cost
      the lower hash. */
  ghost predicate Leads(a: Rating, b: Rating) {
    && a.cost.total <= b.cost.total
    && (a.cost.total == b.cost.total ==> a.cost.depth <= b.cost.depth)
    && (a.cost == b.cost ==> a.hash <= b.hash)
  }

  // ---- One band ----

  /** The nondeterministic inputs of one iteration. */
  datatype Choice = Choice(family: Family, draw: nat, seen: bool, uphill: bool)

  datatype BandResult = BandResult(elite: Candidate, generated: nat, accepted: nat, pruned: nat)

  /** c still computes what the seed computes, wherever the seed computes something. */
  ghost predicate Faithful(seed: Program, c: Candidate, cert: Cert) {
    && c.root == seed.root
    && Sound(Effective(c), c.root, cert)
    && Refines(seed.nodes, Effective(c), seed.root)
  }

  lemma SeedFaithful(seed: Program) returns (cert: Cert)
    requires WellFormed(seed)
    ensures Faithful(seed, FromProgram(seed), cert)
  {
    cert := SeedSound(seed);
  }

  /** The best of a list leads every member of it. */
  ghost predicate Leader(rate: Candidate -> Rating, list: seq<Candidate>, best: Candidate) {
    best in list && forall c :: c in list ==> Leads(rate(best), rate(c))
  }

  lemma LeaderGrows(rate: Candidate -> Rating, list: seq<Candidate>, best: Candidate, c: Candidate)
    requires Leader(rate, list, best)
    ensures Leader(rate, list + [c], if Better(rate(c), rate(best)) then c else best)
  {
  }

  datatype Verdict = NoSite | Pruned | Rejected | Accepted

  /** What becomes of a proposed child: one seen before is pruned, one that costs no more is
      accepted, a dearer one only by an uphill draw. */
  ghost predicate Judged(rate: Candidate -> Rating, choice: Choice, now: Candidate, child: Option<Candidate>, v: Verdict) {
    match v
    case NoSite => child.None?
    case Pruned => child.Some? && choice.seen
    case Rejected => child.Some? && !choice.seen && !choice.uphill && rate(child.value).cost.total > rate(now).cost.total
    case Accepted => child.Some? && !choice.seen && (choice.uphill || rate(child.value).cost.total <= rate(now).cost.total)
  }

  /** One iteration: a child is proposed and judged, and the chain moves exactly if it is accepted. */
  ghost predicate Moves(rate: Candidate -> Rating, choice: Choice, now: Candidate, v: Verdict, next: Candidate) {
    exists child :: Proposed(now, choice.family, choice.draw, child) && Judged(rate, choice, now, child, v) &&
                    if v == Accepted then child == Some(next) else next == now
  }

  /** A chain from the seed, one iteration per choice. */
  ghost predicate Chain(seed: Program, choices: seq<Choice>, rate: Candidate -> Rating, chain: seq<Candidate>, log: seq<Verdict>) {
    && |log| == |choices| && |chain| == |choices| + 1 && chain[0] == FromProgram(seed)
    && forall i :: 0 <= i < |choices| ==> Moves(rate, choices[i], chain[i], log[i], chain[i + 1])
  }

  lemma ChainGrows(seed: Program, choices: seq<Choice>, i: nat, rate: Candidate -> Rating, chain: seq<Candidate>, log: seq<Verdict>,
                   v: Verdict, next: Candidate)
    requires i < |choices| && Chain(seed, choices[..i], rate, chain, log) && Moves(rate, choices[i], chain[i], v, next)
    ensures Chain(seed, choices[..i + 1], rate, chain + [next], log + [v])
  {
    var more := chain + [next];
    forall k | 0 <= k < i + 1
      ensures Moves(rate, choices[..i + 1][k], more[k], (log + [v])[k], more[k + 1])
    {
      assert k < i ==> Moves(rate, choices[..i][k], chain[k], log[k], chain[k + 1]);
    }
  }

  ghost predicate Counted(r: BandResult, log: seq<Verdict>) {
    && r.accepted == multiset(log)[Accepted] && r.pruned == multiset(log)[Pruned]
    && r.generated == multiset(log)[Accepted] + multiset(log)[Rejected]
  }

  function Tally(r: BandResult, v: Verdict): BandResult {
    match v
    case NoSite => r
    case Pruned => r.(pruned := r.pruned + 1)
    case Rejected => r.(generated := r.generated + 1)
    case Accepted => r.(generated := r.generated + 1, accepted := r.accepted + 1)
  }

  lemma CountedGrows(r: BandResult, log: seq<Verdict>, v: Verdict)
    requires Counted(r, log)
    ensures Counted(Tally(r, v), log + [v])
  {
    assert multiset(log + [v]) == multiset(log) + multiset{v};
  }

  /** What one iteration does with the child it got. */
  method Judge(choice: Choice, rate: Candidate -> Rating, now: Candidate, child: Option<Candidate>, ghost cert: Cert)
    returns (v: Verdict)
    requires child.Some? ==> Sound(Effective(child.value), child.value.root, cert)
    ensures Judged(rate, choice, now, child, v)
  {
    if child.None? {
      return NoSite;
    }
    var legal := Tier0Scan(child.value);
    if !legal {
      SoundIsLegal(child.value, cert);
      assert false;
    }
    if choice.seen {
      return Pruned;
    }
    v := if rate(child.value).cost.total <= rate(now).cost.total || choice.uphill then Accepted else Rejected;
  }

  /** One Metropolis chain. */
  method RunBand(seed: Program, choices: seq<Choice>, rate: Candidate -> Rating)
    returns (r: BandResult, ghost cert: Cert, ghost chain: seq<Candidate>, ghost log: seq<Verdict>)
    requires WellFormed(seed) && |seed.nodes| + |choices| <= SLOT_LIMIT
    ensures Faithful(seed, r.elite, cert)
    ensures Chain(seed, choices, rate, chain, log) && Leader(rate, chain, r.elite) && Counted(r, log)
  {
    ghost var now := SeedFaithful(seed);
    var current := FromProgram(seed);
    r, cert := BandResult(current, 0, 0, 0), now;
    chain, log := [current], [];
    for i := 0 to |choices|
      invariant Faithful(seed, current, now) && Faithful(seed, r.elite, cert)
      invariant SlotCount(current) <= |seed.nodes| + i
      invariant Chain(seed, choices[..i], rate, chain, log) && current == chain[i]
      invariant Leader(rate, chain, r.elite) && Counted(r, log)
    {
      var child, next := ApplyFamily(current, choices[i].family, choices[i].draw, now);
      if child.Some? {
        RefinesTrans(seed.nodes, Effective(current), Effective(child.value), seed.root);
      }
      var v := Judge(choices[i], rate, current, child, next);
      CountedGrows(r, log, v);
      r := Tally(r, v);
      ghost var moved := if v == Accepted then child.value else current;
      assert Moves(rate, choices[i], current, v, moved);
      ChainGrows(seed, choices, i, rate, chain, log, v, moved);
      LeaderGrows(rate, chain, r.elite, moved);
      chain, log := chain + [moved], log + [v];
      if v == Accepted {
        current, now := child.value, next;
        if Better(rate(current), rate(r.elite)) {
          r, cert := r.(elite := current), now;
        }
      }
    }
    assert choices[..|choices|] == choices;
  }

  // ---- The whole search ----

  /** Wherever p evaluates to a value, q evaluates to the same value. */
  ghost predicate Preserves(p: Program, q: Program) {
    forall params, v :: Evaluate(p, params) == Ok(v) ==> Evaluate(q, params) == Ok(v)
  }

  /** c leads a chain the choices allow. */
  ghost predicate EliteOf(seed: Program, choices: seq<Choice>, rate: Candidate -> Rating, c: Candidate) {
    exists chain, log :: Chain(seed, choices, rate, chain, log) && Leader(rate, chain, c)
  }

  /** q is a candidate's table with exactly what its root needs, renumbered. */
  ghost predicate MaterialOf(c: Candidate, q: Program) {
    exists marked, order :: Needed(Effective(c), c.root, marked) && Emitted(Effective(c), c.root, marked, order, q)
  }

  /** Runs the bands, keeps the best elite, and materializes it. */
  method Search(seed: Program, bands: seq<seq<Choice>>, rate: Candidate -> Rating)
    returns (best: Candidate, result: Program, elites: seq<Candidate>)
    requires WellFormed(seed)
    requires forall b :: 0 <= b < |bands| ==> |seed.nodes| + |bands[b]| <= SLOT_LIMIT
    ensures |elites| == |bands| && forall b :: 0 <= b < |bands| ==> EliteOf(seed, bands[b], rate, elites[b])
    ensures Leads(rate(best), rate(FromProgram(seed)))
    ensures if bands == [] then best == FromProgram(seed) else Leader(rate, elites, best)
    ensures WellFormed(result) && MaterialOf(best, result)
    ensures Preserves(seed, result)
  {
    ghost var cert := SeedFaithful(seed);
    best, elites := FromProgram(seed), [];
    for b := 0 to |bands|
      invariant Faithful(seed, best, cert)
      invariant |elites| == b && forall k :: 0 <= k < b ==> EliteOf(seed, bands[k], rate, elites[k])
      invariant if b == 0 then best == FromProgram(seed) else Leader(rate, elites, best)
      invariant Leads(rate(best), rate(FromProgram(seed)))
    {
      var r, certB, chain, log := RunBand(seed, bands[b], rate);
      assert EliteOf(seed, bands[b], rate, r.elite);
      assert chain[0] in chain;
      if b > 0 {
        LeaderGrows(rate, elites, best, r.elite);
      }
      elites := elites + [r.elite];
      if b == 0 || Better(rate(r.elite), rate(best)) {
        best, cert := r.elite, certB;
      }
    }
    var marked, order;
    result, marked, order := Materialize.Materialize(best, cert);
    assert MaterialOf(best, result);
    EmittedMeaning(Effective(best), best.root, cert, marked, order, result);
    ResultPreserves(seed, Effective(best), result);
  }

  lemma ResultPreserves(seed: Program, g: seq<NodeDef>, result: Program)
    requires WellFormed(seed) && Refines(seed.nodes, g, seed.root)
    requires forall params, val :: Models(g, params, val) ==> seed.root < |val| && Evaluate(result, params) == Ok(val[seed.root])
    ensures Preserves(seed, result)
  {
    forall params, v | Evaluate(seed, params) == Ok(v)
      ensures Evaluate(result, params) == Ok(v)
    {
      EvaluateIsMeaning(seed, params, v);
      var val :| Models(seed.nodes, params, val) && val[seed.root] == v;
      var w :| Models(g, params, w) && seed.root < |w| && w[seed.root] == val[seed.root];
    }
  }

  // ---- Where the preservation applies, and why it has one direction ----

  predicate ParamsBound(p: Program, params: seq<i64>) {
    forall s :: 0 <= s < |p.nodes| && p.nodes[s].kind == Param ==> 0 <= p.nodes[s].imm < |params|
  }

  /** A built program evaluates exactly when every parameter it mentions, needed or not, is bound. */
  lemma EvaluatesIffBound(p: Program, params: seq<i64>)
    requires WellFormed(p)
    ensures Evaluate(p, params).Ok? <==> ParamsBound(p, params)
  {
    if Evaluate(p, params).Ok? {
      EvaluateIsMeaning(p, params, Evaluate(p, params).value);
      var val :| Models(p.nodes, params, val);
      forall s | 0 <= s < |p.nodes| && p.nodes[s].kind == Param
        ensures 0 <= p.nodes[s].imm < |params|
      {
        assert Holds(p.nodes[s], params, val, val[s]);
      }
    } else {
      if ParamsBound(p, params) {
        var val := Solve(p, params, |p.nodes|);
        EvaluateIsMeaning(p, params, val[p.root]);
        assert Models(p.nodes, params, val);
      }
    }
  }

  ghost predicate BoundBelow(p: Program, params: seq<i64>, k: nat) {
    k <= |p.nodes| && forall s :: 0 <= s < k && p.nodes[s].kind == Param ==> 0 <= p.nodes[s].imm < |params|
  }

  ghost predicate SolvedBelow(p: Program, params: seq<i64>, val: seq<i64>) {
    |val| <= |p.nodes| && forall s :: 0 <= s < |val| ==> Holds(p.nodes[s], params, val, val[s])
  }

  lemma SolveOne(p: Program, params: seq<i64>, val: seq<i64>) returns (x: i64)
    requires WellFormed(p) && |val| < |p.nodes| && BoundBelow(p, params, |val| + 1)
    ensures Holds(p.nodes[|val|], params, val, x)
  {
    var def := p.nodes[|val|];
    assert Ordered(def, |val|);
    x := if def.kind == Const then def.imm
         else if def.kind == Param then params[def.imm]
         else if def.kind == Bin then BinValue(def.opcode, val[def.lhs], val[def.rhs])
         else NegValue(val[def.lhs]);
  }

  lemma SolvedGrows(p: Program, params: seq<i64>, val: seq<i64>, x: i64)
    requires WellFormed(p) && |val| < |p.nodes| && SolvedBelow(p, params, val) && Holds(p.nodes[|val|], params, val, x)
    ensures SolvedBelow(p, params, val + [x])
  {
    var more := val + [x];
    forall s | 0 <= s < |more|
      ensures Holds(p.nodes[s], params, more, more[s])
    {
      assert Ordered(p.nodes[s], s);
      HoldsPrefix(p.nodes[s], s, params, val, more, more[s]);
    }
  }

  lemma {:induction false} Solve(p: Program, params: seq<i64>, k: nat) returns (val: seq<i64>)
    requires WellFormed(p) && BoundBelow(p, params, k)
    ensures |val| == k && SolvedBelow(p, params, val)
  {
    val := [];
    if k > 0 {
      var before := Solve(p, params, k - 1);
      var x := SolveOne(p, params, before);
      SolvedGrows(p, params, before, x);
      val := before + [x];
    }
  }

  lemma {:induction false} RunReaches(p: Program, params: seq<i64>, val: seq<i64>, k: nat)
    requires WellFormed(p) && k <= |val| && SolvedBelow(p, params, val)
    ensures Run(p, params, []) == Run(p, params, Somes(val[..k]))
    decreases k
  {
    if k == 0 {
      assert Somes(val[..0]) == [];
    } else {
      RunReaches(p, params, val, k - 1);
      RunFollowsStep(p, params, val, k - 1);
    }
  }

  /** The only error of a built program is its first unbound parameter, in slot order. */
  lemma FirstUnboundIsReported(p: Program, params: seq<i64>, s: nat)
    requires WellFormed(p) && s < |p.nodes| && p.nodes[s].kind == Param && !(0 <= p.nodes[s].imm < |params|)
    requires forall t :: 0 <= t < s && p.nodes[t].kind == Param ==> 0 <= p.nodes[t].imm < |params|
    ensures Evaluate(p, params) == Err(MissingParam(p.nodes[s].imm % 0x1_0000_0000))
  {
    var val := Solve(p, params, s);
    RunReaches(p, params, val, s);
    assert Ordered(p.nodes[s], s) && Ordered(p.nodes[p.root], p.root);
    assert |Somes(val[..s])| == s;
  }

  /** Seed and result give the same value exactly on the bindings that cover every parameter the
      seed mentions. */
  lemma AgreeIffBound(seed: Program, result: Program, params: seq<i64>)
    requires WellFormed(seed) && Preserves(seed, result)
    ensures (Evaluate(seed, params).Ok? && Evaluate(result, params) == Evaluate(seed, params)) <==> ParamsBound(seed, params)
  {
    EvaluatesIffBound(seed, params);
    if ParamsBound(seed, params) {
      assert Evaluate(seed, params) == Ok(Evaluate(seed, params).value);
    }
  }

  /** The converse of preservation holds on a binding exactly when the seed is bound or the result
      is not bound either. */
  lemma ConverseIff(seed: Program, result: Program, params: seq<i64>)
    requires WellFormed(seed) && WellFormed(result) && Preserves(seed, result)
    ensures (forall v :: Evaluate(result, params) == Ok(v) ==> Evaluate(seed, params) == Ok(v))
            <==> ParamsBound(seed, params) || !ParamsBound(result, params)
  {
    EvaluatesIffBound(seed, params);
    EvaluatesIffBound(result, params);
    if ParamsBound(seed, params) {
      var v := Evaluate(seed, params).value;
      assert Evaluate(seed, params) == Ok(v) && Evaluate(result, params) == Ok(v);
    } else if ParamsBound(result, params) {
      assert Evaluate(result, params) == Ok(Evaluate(result, params).value);
    }
  }

  /** The converse of preservation fails: a parameter nobody needs blocks the seed and is
      dropped by materialization. */
  lemma UnusedParamIsDropped(seed: Program, cert: Cert, result: Program, marked: set<nat>, order: seq<nat>)
    requires seed == Program([ConstDef(1), NodeDef(Kind.Param, 0, 0, NO_OPERAND, NO_OPERAND)], 0)
    requires Sound(seed.nodes, seed.root, cert) && Needed(seed.nodes, seed.root, marked)
    requires Emitted(seed.nodes, seed.root, marked, order, result)
    ensures WellFormed(seed) && Evaluate(seed, []).Err? && Evaluate(result, []) == Ok(1)
  {
    assert seed.nodes[1].kind == Kind.Param && !ParamsBound(seed, []);
    EvaluatesIffBound(seed, []);
    EmittedMeaning(seed.nodes, 0, cert, marked, order, result);
    assert Resolve(seed.nodes, 0) == 0;
    assert Marks(seed.nodes, 0, {0});
    LiveMarks(seed.nodes, 0, cert, marked);
    forall k | 0 <= k < |result.nodes|
      ensures result.nodes[k].kind == Const
    {
      assert order[k] in marked && Renamed(seed.nodes, order, k, result.nodes[k]);
    }
    EvaluatesIffBound(result, []);
    var v := Evaluate(result, []).value;
    EvaluateIsMeaning(result, [], v);
    var val :| Models(result.nodes, [], val) && val[result.root] == v;
    assert Holds(result.nodes[result.root], [], val, v) && Renamed(seed.nodes, order, result.root, result.nodes[result.root]);
  }
}
