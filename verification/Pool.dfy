/** The worker pool's lending barrier as a step system: any number of callers lend one region
    at a time to a fixed set of helpers. Each critical section under the pool's mutex is one
    step; a region body starts and ends in separate steps, outside the mutex. */
module Pool {
  import opened Options
  import opened Finite

  datatype Helper =
    | Parked(seen: nat)
    | Running(seen: nat, gen: nat, ctx: nat)                   // inside the region body of caller ctx
    | Finished(seen: nat, gen: nat, ctx: nat, panicked: bool)  // body left, not yet checked in

  datatype Caller =
    | Outside
    | Lending(gen: nat)                                        // its frame is lent until wait_region returns

  datatype Report = Report(caller: nat, gen: nat, panicked: bool)

  /** owners, ran, bad and reports are history: who published each generation, which
      generations each helper entered, in which a helper panicked, what callers were told. */
  datatype State = State(
    generation: nat, busy: bool, done: nat, panicked: bool, desc: Option<nat>,
    helpers: seq<Helper>, callers: seq<Caller>,
    owners: seq<nat>, ran: seq<seq<nat>>, bad: set<nat>, reports: seq<Report>)

  datatype Action = Publish(k: nat) | Reap(k: nat) | Wake(j: nat) | Leave(j: nat, panicked: bool) | CheckIn(j: nat)

  function Init(helpers: nat, callers: nat): State {
    State(0, false, 0, false, None, seq(helpers, _ => Parked(0)), seq(callers, _ => Outside),
          [], seq(helpers, _ => []), {}, [])
  }

  predicate Shaped(s: State) {
    |s.ran| == |s.helpers|
  }

  /** publish: wait for the region slot, then hand out a fresh generation. */
  function PublishNext(s: State, k: nat): State {
    if k >= |s.callers| || s.callers[k] != Outside || s.busy then s
    else s.(generation := s.generation + 1, busy := true, done := 0, panicked := false, desc := Some(k),
            callers := s.callers[k := Lending(s.generation + 1)], owners := s.owners + [k])
  }

  /** wait_region: keep waiting while the region is open, else reap it and report. */
  function ReapNext(s: State, k: nat): State {
    if k >= |s.callers| || s.callers[k] == Outside then s
    else
      var gen := s.callers[k].gen;
      if s.busy && s.generation == gen && s.done < |s.helpers| then s
      else
        var told := s.(callers := s.callers[k := Outside], reports := s.reports + [Report(k, gen, s.panicked)]);
        if s.busy && s.generation == gen && s.done >= |s.helpers|
        then told.(busy := false, desc := None, done := 0, panicked := false)
        else told
  }

  /** A parked helper takes a fresh region. */
  function WakeNext(s: State, j: nat): State
    requires Shaped(s)
  {
    if j >= |s.helpers| || !s.helpers[j].Parked? || !s.busy || s.generation <= s.helpers[j].seen || s.desc == None then s
    else s.(helpers := s.helpers[j := Running(s.helpers[j].seen, s.generation, s.desc.value)],
            ran := s.ran[j := s.ran[j] + [s.generation]])
  }

  function LeaveNext(s: State, j: nat, panicked: bool): State {
    if j >= |s.helpers| || !s.helpers[j].Running? then s
    else
      var h := s.helpers[j];
      s.(helpers := s.helpers[j := Finished(h.seen, h.gen, h.ctx, panicked)])
  }

  function CheckInNext(s: State, j: nat): State {
    if j >= |s.helpers| || !s.helpers[j].Finished? then s
    else
      var h := s.helpers[j];
      s.(helpers := s.helpers[j := Parked(h.gen)], done := s.done + 1, panicked := s.panicked || h.panicked,
         bad := if h.panicked then s.bad + {h.gen} else s.bad)
  }

  function Next(s: State, a: Action): State
    requires Shaped(s)
  {
    match a
    case Publish(k) => PublishNext(s, k)
    case Reap(k) => ReapNext(s, k)
    case Wake(j) => WakeNext(s, j)
    case Leave(j, panicked) => LeaveNext(s, j, panicked)
    case CheckIn(j) => CheckInNext(s, j)
  }

  /** The state after a finite interleaving. */
  ghost function Exec(s: State, run: seq<Action>): State
    requires Shaped(s)
    decreases |run|
  {
    if run == [] then s
    else
      var before := Exec(s, run[..|run| - 1]);
      if Shaped(before) then Next(before, run[|run| - 1]) else before
  }

  // ---- The invariant ----

  /** The generations 1 to n, each once and in order. */
  function UpTo(n: nat): seq<nat> {
    if n == 0 then [] else UpTo(n - 1) + [n]
  }

  ghost predicate HelperOk(s: State, j: nat)
    requires Shaped(s) && j < |s.helpers|
  {
    match s.helpers[j]
    case Parked(seen) =>
      && s.ran[j] == UpTo(seen)
      && (seen == s.generation || (s.busy && seen + 1 == s.generation))
    case Running(seen, gen, ctx) => InRegion(s, j, seen, gen, ctx)
    case Finished(seen, gen, ctx, _) => InRegion(s, j, seen, gen, ctx)
  }

  ghost predicate InRegion(s: State, j: nat, seen: nat, gen: nat, ctx: nat)
    requires Shaped(s) && j < |s.helpers|
  {
    s.busy && gen == s.generation == seen + 1 && s.desc == Some(ctx) && s.ran[j] == UpTo(gen)
  }

  /** Helpers that have checked in for the current generation. */
  ghost function CheckedIn(s: State): set<nat> {
    set j | j in Below(|s.helpers|) && s.helpers[j].Parked? && s.helpers[j].seen == s.generation
  }

  ghost predicate CallerOk(s: State, k: nat)
    requires k < |s.callers|
  {
    if s.busy && s.desc == Some(k) then s.callers[k] == Lending(s.generation) else s.callers[k] == Outside
  }

  /** The i-th report is about generation i + 1. */
  ghost predicate ReportOk(s: State, i: nat)
    requires i < |s.reports| <= |s.owners|
  {
    var r := s.reports[i];
    r.gen == i + 1 && s.owners[i] == r.caller && (r.panicked <==> r.gen in s.bad)
  }

  ghost predicate Inv(s: State) {
    && Shaped(s) && |s.owners| == s.generation && |s.reports| + (if s.busy then 1 else 0) == s.generation
    && (s.busy ==> s.desc.Some? && s.desc.value < |s.callers| && s.owners != [] && s.owners[s.generation - 1] == s.desc.value)
    && (s.busy ==> s.done == |CheckedIn(s)| && (s.panicked <==> s.generation in s.bad))
    && (!s.busy ==> s.desc == None && s.done == 0 && !s.panicked)
    && (forall g :: g in s.bad ==> g <= s.generation)
    && (forall j :: 0 <= j < |s.helpers| ==> HelperOk(s, j))
    && (forall k :: 0 <= k < |s.callers| ==> CallerOk(s, k))
    && (forall i :: 0 <= i < |s.reports| ==> ReportOk(s, i))
  }

  /** A full barrier means every helper is parked with this generation behind it. */
  lemma BarrierFull(s: State)
    requires Inv(s) && s.busy && s.done >= |s.helpers|
    ensures forall j :: 0 <= j < |s.helpers| ==> s.helpers[j] == Parked(s.generation)
  {
    SubsetSize(CheckedIn(s), Below(|s.helpers|));
    forall j | 0 <= j < |s.helpers|
      ensures s.helpers[j] == Parked(s.generation)
    {
      assert j in Below(|s.helpers|);
      assert j in CheckedIn(s);
    }
  }

  lemma PublishKeeps(s: State, k: nat)
    requires Inv(s)
    ensures Inv(PublishNext(s, k))
  {
    var n := PublishNext(s, k);
    if n != s {
      forall j | 0 <= j < |n.helpers|
        ensures HelperOk(n, j) && j !in CheckedIn(n)
      {
        assert HelperOk(s, j);
      }
      assert CheckedIn(n) == {};
      forall c | 0 <= c < |n.callers|
        ensures CallerOk(n, c)
      {
        assert CallerOk(s, c);
      }
      forall i | 0 <= i < |n.reports|
        ensures ReportOk(n, i)
      {
        assert ReportOk(s, i);
      }
    }
  }

  lemma ReapKeeps(s: State, k: nat)
    requires Inv(s)
    ensures Inv(ReapNext(s, k))
  {
    var n := ReapNext(s, k);
    if n != s {
      assert CallerOk(s, k);
      BarrierFull(s);
      forall j | 0 <= j < |n.helpers|
        ensures HelperOk(n, j)
      {
        assert HelperOk(s, j);
      }
      forall c | 0 <= c < |n.callers|
        ensures CallerOk(n, c)
      {
        assert CallerOk(s, c);
      }
      forall i | 0 <= i < |n.reports|
        ensures ReportOk(n, i)
      {
        assert i < |s.reports| ==> ReportOk(s, i);
      }
    }
  }

  /** A helper's step changes no caller, no report and no other helper. */
  lemma HelperStepKeeps(s: State, n: State, j: nat)
    requires Inv(s) && j < |s.helpers| && Shaped(n) && |n.helpers| == |s.helpers|
    requires n == s.(helpers := s.helpers[j := n.helpers[j]], ran := s.ran[j := n.ran[j]], done := n.done,
                     panicked := n.panicked, bad := n.bad)
    requires HelperOk(n, j) && (s.busy ==> n.done == |CheckedIn(n)|)
    requires s.bad <= n.bad <= s.bad + {s.generation} && (n.bad != s.bad ==> s.busy)
    requires s.busy ==> (n.panicked <==> n.generation in n.bad)
    requires s.busy || n == s
    ensures Inv(n)
  {
    forall i | 0 <= i < |n.helpers|
      ensures HelperOk(n, i)
    {
      assert HelperOk(s, i);
    }
    forall c | 0 <= c < |n.callers|
      ensures CallerOk(n, c)
    {
      assert CallerOk(s, c);
    }
    forall i | 0 <= i < |n.reports|
      ensures ReportOk(n, i)
    {
      assert ReportOk(s, i);
    }
  }

  lemma WakeKeeps(s: State, j: nat)
    requires Inv(s)
    ensures Inv(WakeNext(s, j))
  {
    var n := WakeNext(s, j);
    if n != s {
      assert HelperOk(s, j);
      assert CheckedIn(n) == CheckedIn(s);
      HelperStepKeeps(s, n, j);
    }
  }

  lemma LeaveKeeps(s: State, j: nat, panicked: bool)
    requires Inv(s)
    ensures Inv(LeaveNext(s, j, panicked))
  {
    var n := LeaveNext(s, j, panicked);
    if n != s {
      assert HelperOk(s, j);
      assert CheckedIn(n) == CheckedIn(s);
      HelperStepKeeps(s, n, j);
    }
  }

  lemma OneMoreIn(s: State, n: State, j: nat)
    requires j < |s.helpers| && !s.helpers[j].Parked? && n.generation == s.generation
    requires n.helpers == s.helpers[j := Parked(s.generation)]
    ensures |CheckedIn(n)| == |CheckedIn(s)| + 1
  {
    assert CheckedIn(n) == CheckedIn(s) + {j} && j !in CheckedIn(s);
  }

  lemma CheckInKeeps(s: State, j: nat)
    requires Inv(s)
    ensures Inv(CheckInNext(s, j))
  {
    var n := CheckInNext(s, j);
    if n != s {
      assert HelperOk(s, j);
      OneMoreIn(s, n, j);
      HelperStepKeeps(s, n, j);
    }
  }

  lemma StepKeeps(s: State, a: Action)
    requires Inv(s)
    ensures Inv(Next(s, a)) && |Next(s, a).helpers| == |s.helpers| && |Next(s, a).callers| == |s.callers|
  {
    match a
    case Publish(k) => PublishKeeps(s, k);
    case Reap(k) => ReapKeeps(s, k);
    case Wake(j) => WakeKeeps(s, j);
    case Leave(j, panicked) => LeaveKeeps(s, j, panicked);
    case CheckIn(j) => CheckInKeeps(s, j);
  }

  lemma {:induction false} RunKeeps(helpers: nat, callers: nat, run: seq<Action>)
    ensures var s := Exec(Init(helpers, callers), run); Inv(s) && |s.helpers| == helpers && |s.callers| == callers
    decreases |run|
  {
    if run != [] {
      RunKeeps(helpers, callers, run[..|run| - 1]);
      StepKeeps(Exec(Init(helpers, callers), run[..|run| - 1]), run[|run| - 1]);
    }
  }

  // ---- What every run promises ----

  /** A helper inside a region, or on its way out, works on a frame whose caller is still in
      wait_region of that very generation: after the caller returns no helper is inside its
      region, and none can enter it. */
  lemma FrameOutlivesHelpers(helpers: nat, callers: nat, run: seq<Action>, j: nat)
    requires j < |Exec(Init(helpers, callers), run).helpers|
    ensures var s := Exec(Init(helpers, callers), run);
            var h := s.helpers[j];
            !h.Parked? ==> h.ctx < |s.callers| && s.callers[h.ctx] == Lending(h.gen)
  {
    RunKeeps(helpers, callers, run);
    var s := Exec(Init(helpers, callers), run);
    assert HelperOk(s, j);
    if !s.helpers[j].Parked? {
      assert CallerOk(s, s.helpers[j].ctx);
    }
  }

  /** At most one caller is lending, and between regions the region slot is empty: no descriptor,
      nobody checked in, no panic left over. */
  lemma OneRegionAtATime(helpers: nat, callers: nat, run: seq<Action>, a: nat, b: nat)
    requires var s := Exec(Init(helpers, callers), run); a < |s.callers| && b < |s.callers|
    ensures var s := Exec(Init(helpers, callers), run);
            && (s.callers[a] != Outside && s.callers[b] != Outside ==> a == b)
            && (s.busy <==> s.desc != None) && (!s.busy ==> s.done == 0 && !s.panicked)
  {
    RunKeeps(helpers, callers, run);
    var s := Exec(Init(helpers, callers), run);
    assert CallerOk(s, a) && CallerOk(s, b);
  }

  /** Helpers run the published generations in order, each exactly once, and between regions
      every helper has run all of them. */
  lemma EveryGenerationOnce(helpers: nat, callers: nat, run: seq<Action>, j: nat)
    requires j < |Exec(Init(helpers, callers), run).helpers|
    ensures var s := Exec(Init(helpers, callers), run);
            && Shaped(s)
            && (s.ran[j] == UpTo(s.generation) || (s.busy && s.generation >= 1 && s.ran[j] == UpTo(s.generation - 1)))
  {
    RunKeeps(helpers, callers, run);
    assert HelperOk(Exec(Init(helpers, callers), run), j);
  }

  // ---- What the run itself says ----

  /** The n-th step of the run is helper j leaving the body of generation g. */
  ghost predicate LeavesAt(helpers: nat, callers: nat, run: seq<Action>, n: nat, j: nat, g: nat, panicked: bool) {
    && n < |run| && run[n] == Leave(j, panicked)
    && var s := Exec(Init(helpers, callers), run[..n]);
       j < |s.helpers| && s.helpers[j].Running? && s.helpers[j].gen == g
  }

  /** Some helper left the body of generation g by a panic. */
  ghost predicate PanickedIn(helpers: nat, callers: nat, run: seq<Action>, g: nat) {
    exists n: nat, j: nat :: LeavesAt(helpers, callers, run, n, j, g, true)
  }

  /** Helper j ran the body of generation g to its end. */
  ghost predicate RanToEnd(helpers: nat, callers: nat, run: seq<Action>, j: nat, g: nat) {
    exists n: nat, panicked :: LeavesAt(helpers, callers, run, n, j, g, panicked)
  }

  /** The n-th step of the run is caller k publishing generation g. */
  ghost predicate PublishesAt(helpers: nat, callers: nat, run: seq<Action>, n: nat, k: nat, g: nat) {
    && n < |run| && run[n] == Publish(k)
    && Exec(Init(helpers, callers), run[..n]).generation + 1 == g == Exec(Init(helpers, callers), run[..n + 1]).generation
  }

  lemma LeavesEarlier(helpers: nat, callers: nat, run: seq<Action>, n: nat, j: nat, g: nat, panicked: bool)
    requires n < |run| - 1
    ensures LeavesAt(helpers, callers, run, n, j, g, panicked) <==> LeavesAt(helpers, callers, run[..|run| - 1], n, j, g, panicked)
  {
    assert run[..|run| - 1][..n] == run[..n];
  }

  /** A panic of generation g shows in the record once its helper has checked in, else in the helper. */
  ghost predicate Unsettled(s: State, j: nat, g: nat) {
    j < |s.helpers| && s.helpers[j].Finished? && s.helpers[j].gen == g && s.helpers[j].panicked
  }

  lemma {:induction false} PanicsRecorded(helpers: nat, callers: nat, run: seq<Action>, g: nat)
    ensures var s := Exec(Init(helpers, callers), run);
            PanickedIn(helpers, callers, run, g) <==> g in s.bad || exists j: nat :: Unsettled(s, j, g)
    decreases |run|
  {
    if run != [] {
      var most, s, a := ExecLast(helpers, callers, run);
      PanicsRecorded(helpers, callers, most, g);
      PanicsStep(s, a, g);
      PanickedStep(helpers, callers, run, g);
    }
  }

  /** A panic of a run is one of its last step or one of the run before it. */
  lemma PanickedStep(helpers: nat, callers: nat, run: seq<Action>, g: nat)
    requires run != []
    ensures var most := run[..|run| - 1];
            PanickedIn(helpers, callers, run, g) <==>
            PanickedIn(helpers, callers, most, g) || LeavesNow(Exec(Init(helpers, callers), most), run[|run| - 1], g)
  {
    var most, a := run[..|run| - 1], run[|run| - 1];
    forall n: nat, j: nat | n < |most|
      ensures LeavesAt(helpers, callers, run, n, j, g, true) <==> LeavesAt(helpers, callers, most, n, j, g, true)
    {
      LeavesEarlier(helpers, callers, run, n, j, g, true);
    }
    if LeavesNow(Exec(Init(helpers, callers), most), a, g) {
      assert LeavesAt(helpers, callers, run, |most|, a.j, g, true);
    }
  }

  ghost predicate LeavesNow(s: State, a: Action, g: nat) {
    a.Leave? && a.panicked && a.j < |s.helpers| && s.helpers[a.j].Running? && s.helpers[a.j].gen == g
  }

  lemma UnsettledStep(s: State, a: Action, g: nat, j: nat)
    requires Inv(s)
    ensures Unsettled(s, j, g) ==> g in Next(s, a).bad || Unsettled(Next(s, a), j, g)
    ensures Unsettled(Next(s, a), j, g) ==> Unsettled(s, j, g) || LeavesNow(s, a, g)
    ensures LeavesNow(s, a, g) && a.j == j ==> Unsettled(Next(s, a), j, g)
  {
  }

  lemma BadStep(s: State, a: Action, g: nat)
    requires Inv(s)
    ensures g in s.bad ==> g in Next(s, a).bad
    ensures g in Next(s, a).bad ==> g in s.bad || (a.CheckIn? && Unsettled(s, a.j, g))
  {
  }

  lemma PanicsStep(s: State, a: Action, g: nat)
    requires Inv(s)
    ensures var t := Next(s, a);
            (g in t.bad || exists j: nat :: Unsettled(t, j, g)) <==> (g in s.bad || (exists j: nat :: Unsettled(s, j, g)) || LeavesNow(s, a, g))
  {
    BadStep(s, a, g);
    forall j: nat
      ensures Unsettled(s, j, g) ==> g in Next(s, a).bad || Unsettled(Next(s, a), j, g)
      ensures Unsettled(Next(s, a), j, g) ==> Unsettled(s, j, g) || LeavesNow(s, a, g)
    {
      UnsettledStep(s, a, g, j);
    }
    if LeavesNow(s, a, g) {
      UnsettledStep(s, a, g, a.j);
    }
  }

  /** The generation a helper has behind it, body left. */
  function Behind(h: Helper): nat {
    if h.Finished? then h.gen else h.seen
  }

  lemma BehindStep(s: State, a: Action, j: nat)
    requires Inv(s) && j < |s.helpers|
    ensures |Next(s, a).helpers| == |s.helpers|
    ensures var before, after := Behind(s.helpers[j]), Behind(Next(s, a).helpers[j]);
            after == before || (a.Leave? && a.j == j && s.helpers[j].Running? && after == s.helpers[j].gen == before + 1)
  {
    assert HelperOk(s, j);
  }

  lemma OwnersStep(s: State, a: Action)
    requires Inv(s)
    ensures var t := Next(s, a);
            t.owners == s.owners || (a.Publish? && t.owners == s.owners + [a.k] && t.generation == s.generation + 1 == |t.owners|)
  {
  }

  /** The last step of a run. */
  lemma ExecLast(helpers: nat, callers: nat, run: seq<Action>) returns (most: seq<Action>, s: State, a: Action)
    requires run != []
    ensures most == run[..|run| - 1] && a == run[|run| - 1] && s == Exec(Init(helpers, callers), most) && Inv(s)
    ensures Exec(Init(helpers, callers), run) == Next(s, a)
  {
    most, a := run[..|run| - 1], run[|run| - 1];
    s := Exec(Init(helpers, callers), most);
    RunKeeps(helpers, callers, most);
  }

  lemma {:induction false} BodiesLeft(helpers: nat, callers: nat, run: seq<Action>, j: nat, g: nat)
    requires var s := Exec(Init(helpers, callers), run); j < |s.helpers| && 1 <= g <= Behind(s.helpers[j])
    ensures RanToEnd(helpers, callers, run, j, g)
    decreases |run|
  {
    if run != [] {
      var most, s, a := ExecLast(helpers, callers, run);
      assert |Next(s, a).helpers| == |s.helpers|;
      BehindStep(s, a, j);
      if g <= Behind(s.helpers[j]) {
        BodiesLeft(helpers, callers, most, j, g);
        var n: nat, panicked :| LeavesAt(helpers, callers, most, n, j, g, panicked);
        LeavesEarlier(helpers, callers, run, n, j, g, panicked);
      } else {
        assert LeavesAt(helpers, callers, run, |most|, j, g, a.panicked);
      }
    }
  }

  /** Generation g was published by caller k. */
  ghost predicate PublishedBy(helpers: nat, callers: nat, run: seq<Action>, k: nat, g: nat) {
    exists n: nat :: PublishesAt(helpers, callers, run, n, k, g)
  }

  lemma PublishedEarlier(helpers: nat, callers: nat, run: seq<Action>, k: nat, g: nat)
    requires run != [] && PublishedBy(helpers, callers, run[..|run| - 1], k, g)
    ensures PublishedBy(helpers, callers, run, k, g)
  {
    var most := run[..|run| - 1];
    var n: nat :| PublishesAt(helpers, callers, most, n, k, g);
    assert most[..n] == run[..n] && most[..n + 1] == run[..n + 1];
    assert PublishesAt(helpers, callers, run, n, k, g);
  }

  lemma {:induction false} OwnersPublished(helpers: nat, callers: nat, run: seq<Action>, i: nat, g: nat)
    requires i < |Exec(Init(helpers, callers), run).owners| && g == i + 1
    ensures PublishedBy(helpers, callers, run, Exec(Init(helpers, callers), run).owners[i], g)
    decreases |run|
  {
    if run != [] {
      var most, s, a := ExecLast(helpers, callers, run);
      OwnersStep(s, a);
      if i < |s.owners| {
        OwnersPublished(helpers, callers, most, i, g);
        PublishedEarlier(helpers, callers, run, s.owners[i], g);
      } else {
        assert run[..|most| + 1] == run;
        assert PublishesAt(helpers, callers, run, |most|, a.k, g);
      }
    }
  }

  /** Every reaped generation is reported once and in order, to the caller that published it, after
      every helper has run its body to the end, and as a panic if and only if some helper left the
      body of that generation by a panic. */
  lemma PanicsReachTheirCaller(helpers: nat, callers: nat, run: seq<Action>, i: nat)
    requires i < |Exec(Init(helpers, callers), run).reports|
    ensures var s := Exec(Init(helpers, callers), run);
            var r := s.reports[i];
            && r.gen == i + 1 && |s.reports| + (if s.busy then 1 else 0) == s.generation
            && PublishedBy(helpers, callers, run, r.caller, r.gen)
            && (r.panicked <==> PanickedIn(helpers, callers, run, r.gen))
            && forall j: nat :: j < |s.helpers| ==> RanToEnd(helpers, callers, run, j, r.gen)
  {
    RunKeeps(helpers, callers, run);
    var s := Exec(Init(helpers, callers), run);
    var g := s.reports[i].gen;
    assert ReportOk(s, i);
    OwnersPublished(helpers, callers, run, i, g);
    PanicsRecorded(helpers, callers, run, g);
    forall j: nat | j < |s.helpers|
      ensures !Unsettled(s, j, g) && RanToEnd(helpers, callers, run, j, g)
    {
      ReportedIsBehind(s, i, j);
      BodiesLeft(helpers, callers, run, j, g);
    }
  }

  /** A reported generation lies behind every helper. */
  lemma ReportedIsBehind(s: State, i: nat, j: nat)
    requires Inv(s) && i < |s.reports| && j < |s.helpers|
    ensures !Unsettled(s, j, i + 1) && i + 1 <= Behind(s.helpers[j])
  {
    assert HelperOk(s, j);
  }

  // ---- No deadlock ----

  lemma {:induction false} ExecKeeps(s: State, run: seq<Action>)
    requires Inv(s)
    ensures Inv(Exec(s, run))
    decreases |run|
  {
    if run != [] {
      ExecKeeps(s, run[..|run| - 1]);
      StepKeeps(Exec(s, run[..|run| - 1]), run[|run| - 1]);
    }
  }

  lemma {:induction false} ExecShaped(s: State, run: seq<Action>)
    requires Shaped(s)
    ensures Shaped(Exec(s, run))
    decreases |run|
  {
    if run != [] {
      ExecShaped(s, run[..|run| - 1]);
    }
  }

  lemma ExecSnoc(s: State, run: seq<Action>, a: Action)
    requires Shaped(s)
    ensures Shaped(Exec(s, run)) && Exec(s, run + [a]) == Next(Exec(s, run), a)
  {
    ExecShaped(s, run);
    assert (run + [a])[..|run|] == run;
  }

  lemma ExecStep(s: State, run: seq<Action>, a: Action)
    requires Inv(s)
    ensures Inv(Exec(s, run)) && Exec(s, run + [a]) == Next(Exec(s, run), a)
  {
    ExecKeeps(s, run);
    ExecSnoc(s, run, a);
  }

  lemma {:induction false} ExecThen(s: State, a: seq<Action>, b: seq<Action>)
    requires Shaped(s)
    ensures Shaped(Exec(s, a)) && Exec(s, a + b) == Exec(Exec(s, a), b)
    decreases |b|
  {
    ExecShaped(s, a);
    if b == [] {
      assert a + b == a;
    } else {
      var front, last := b[..|b| - 1], b[|b| - 1];
      ExecThen(s, a, front);
      ExecSnoc(s, a + front, last);
      ExecSnoc(Exec(s, a), front, last);
      assert b == front + [last] && a + b == a + front + [last];
    }
  }

  /** Wake, run the body without a panic, check in; steps that do not apply change nothing. */
  function Through(j: nat): seq<Action> {
    [Wake(j), Leave(j, false), CheckIn(j)]
  }

  /** Nothing but helper j's state, the barrier and the panic flag differs. */
  ghost predicate SameRegion(s: State, t: State, j: nat) {
    && j < |s.helpers| == |t.helpers| && t.helpers == s.helpers[j := t.helpers[j]]
    && t.busy == s.busy && t.generation == s.generation && t.callers == s.callers && t.desc == s.desc
    && t.owners == s.owners && t.reports == s.reports
  }

  lemma WakeParks(s: State, j: nat)
    requires Inv(s) && s.busy && j < |s.helpers|
    ensures var t := Next(s, Wake(j)); Inv(t) && SameRegion(s, t, j) && (t.helpers[j] == Parked(s.generation) || !t.helpers[j].Parked?)
  {
    assert HelperOk(s, j);
    StepKeeps(s, Wake(j));
  }

  lemma LeaveParks(s: State, j: nat)
    requires Inv(s) && s.busy && j < |s.helpers| && (s.helpers[j] == Parked(s.generation) || !s.helpers[j].Parked?)
    ensures var t := Next(s, Leave(j, false)); Inv(t) && SameRegion(s, t, j) && (t.helpers[j] == Parked(s.generation) || t.helpers[j].Finished?)
  {
    StepKeeps(s, Leave(j, false));
  }

  lemma CheckInParks(s: State, j: nat)
    requires Inv(s) && s.busy && j < |s.helpers| && (s.helpers[j] == Parked(s.generation) || s.helpers[j].Finished?)
    ensures var t := Next(s, CheckIn(j)); Inv(t) && SameRegion(s, t, j) && t.helpers[j] == Parked(s.generation)
  {
    assert HelperOk(s, j);
    StepKeeps(s, CheckIn(j));
  }

  lemma ExecThree(s: State, a: Action, b: Action, c: Action)
    requires Inv(s) && Inv(Next(s, a)) && Inv(Next(Next(s, a), b))
    ensures Exec(s, [a, b, c]) == Next(Next(Next(s, a), b), c)
  {
    assert [a] == [] + [a] && [a, b] == [a] + [b] && [a, b, c] == [a, b] + [c];
    ExecStep(s, [], a);
    ExecStep(s, [a], b);
    ExecStep(s, [a, b], c);
  }

  lemma SameRegionTrans(s: State, t: State, u: State, j: nat)
    requires SameRegion(s, t, j) && SameRegion(t, u, j)
    ensures SameRegion(s, u, j)
  {
  }

  lemma ThroughParks(s: State, j: nat)
    requires Inv(s) && s.busy && j < |s.helpers|
    ensures var t := Exec(s, Through(j)); Inv(t) && SameRegion(s, t, j) && t.helpers[j] == Parked(s.generation)
  {
    WakeParks(s, j);
    var u := Next(s, Wake(j));
    LeaveParks(u, j);
    var v := Next(u, Leave(j, false));
    CheckInParks(v, j);
    SameRegionTrans(s, u, v, j);
    SameRegionTrans(s, v, Next(v, CheckIn(j)), j);
    ExecThree(s, Wake(j), Leave(j, false), CheckIn(j));
  }

  /** Every helper goes through the open region. */
  lemma {:induction false} AllThrough(s: State, n: nat) returns (more: seq<Action>)
    requires Inv(s) && s.busy && n <= |s.helpers|
    ensures var t := Exec(s, more);
            && Inv(t) && t.busy && t.generation == s.generation && t.callers == s.callers && t.desc == s.desc && t.owners == s.owners && t.reports == s.reports
            && |t.helpers| == |s.helpers| && forall j :: 0 <= j < n ==> t.helpers[j] == Parked(s.generation)
  {
    more := [];
    if n > 0 {
      var front := AllThrough(s, n - 1);
      ThroughParks(Exec(s, front), n - 1);
      ExecThen(s, front, Through(n - 1));
      more := front + Through(n - 1);
    }
  }

  /** With every helper parked the barrier is full. */
  lemma AllCheckedIn(s: State)
    requires Inv(s) && s.busy && forall j :: 0 <= j < |s.helpers| ==> s.helpers[j] == Parked(s.generation)
    ensures s.done == |s.helpers|
  {
    assert CheckedIn(s) == Below(|s.helpers|);
  }

  /** A full barrier lets the waiting caller go. */
  lemma ReapCloses(s: State, k: nat)
    requires Inv(s) && s.busy && s.desc == Some(k) && s.done == |s.helpers|
    ensures var t := Next(s, Reap(k));
            && Inv(t) && !t.busy && t.generation == s.generation && |t.callers| == |s.callers|
            && |t.reports| == |s.reports| + 1 && t.owners == s.owners
  {
    assert CallerOk(s, k);
    StepKeeps(s, Reap(k));
  }

  /** The caller that waits for the open region is let go once every helper has gone through it. */
  lemma RegionCloses(s: State) returns (more: seq<Action>)
    requires Inv(s) && s.busy
    ensures var t := Exec(s, more);
            && Inv(t) && !t.busy && t.generation == s.generation && |t.callers| == |s.callers|
            && |t.reports| == |s.reports| + 1 && t.owners == s.owners
  {
    var k := s.desc.value;
    var front := AllThrough(s, |s.helpers|);
    AllCheckedIn(Exec(s, front));
    ReapCloses(Exec(s, front), k);
    ExecStep(s, front, Reap(k));
    more := front + [Reap(k)];
  }

  lemma ClosesIfOpen(s: State) returns (more: seq<Action>)
    requires Inv(s)
    ensures var t := Exec(s, more); Inv(t) && !t.busy && t.generation == s.generation && |t.callers| == |s.callers|
  {
    more := [];
    if s.busy {
      more := RegionCloses(s);
    }
  }

  /** With no region open any caller can publish one and get it back. */
  lemma PublishAndClose(s: State, k: nat) returns (more: seq<Action>)
    requires Inv(s) && !s.busy && k < |s.callers|
    ensures var t := Exec(s, more);
            && !t.busy && t.generation == s.generation + 1
            && |t.reports| == t.generation && t.reports[|t.reports| - 1].caller == k
  {
    assert CallerOk(s, k);
    StepKeeps(s, Publish(k));
    ExecStep(s, [], Publish(k));
    assert [] + [Publish(k)] == [Publish(k)];
    var v := Next(s, Publish(k));
    var last := RegionCloses(v);
    assert ReportOk(Exec(v, last), |Exec(v, last).reports| - 1);
    ExecThen(s, [Publish(k)], last);
    more := [Publish(k)] + last;
  }

  lemma ServedFrom(s: State, k: nat) returns (more: seq<Action>)
    requires Inv(s) && k < |s.callers|
    ensures var t := Exec(s, more);
            && !t.busy && t.generation > s.generation
            && |t.reports| == t.generation && t.reports[|t.reports| - 1].caller == k
  {
    var first := ClosesIfOpen(s);
    var last := PublishAndClose(Exec(s, first), k);
    ExecThen(s, first, last);
    more := first + last;
  }

  /** From every reachable state some continuation publishes a new region of any given caller and
      reports it back to that caller. */
  lemma EveryCallerIsServed(helpers: nat, callers: nat, run: seq<Action>, k: nat) returns (more: seq<Action>)
    requires k < callers
    ensures var s, t := Exec(Init(helpers, callers), run), Exec(Init(helpers, callers), run + more);
            && !t.busy && t.generation > s.generation
            && |t.reports| == t.generation && t.reports[|t.reports| - 1].caller == k
  {
    RunKeeps(helpers, callers, run);
    more := ServedAfter(Init(helpers, callers), run, k);
  }

  lemma ServedAfter(s: State, run: seq<Action>, k: nat) returns (more: seq<Action>)
    requires Shaped(s) && Inv(Exec(s, run)) && k < |Exec(s, run).callers|
    ensures var t := Exec(s, run + more);
            && !t.busy && t.generation > Exec(s, run).generation
            && |t.reports| == t.generation && t.reports[|t.reports| - 1].caller == k
  {
    more := ServedFrom(Exec(s, run), k);
    ExecThen(s, run, more);
  }
}
