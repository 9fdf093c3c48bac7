/** The fork/join executor's pending counter as a step system. Every atomic operation on the
    counter and every deque operation is one step; a deque operation moves a whole element, as
    the deque's own exactly-once property allows. Jobs are numbered in the order they are offered. */
module ForkJoin {

  datatype Pc =
    | Look                                   // about to load the counter
    | Seek                                   // counter was not zero: pop, then steal
    | Holding(job: nat)                      // taken from a deque, not yet started
    | Running(job: nat)
    | Reserving(job: nat, child: nat)        // credit opened for a child not yet pushed
    | RollBack(job: nat, child: nat)         // push refused, credit not yet returned
    | Ended(job: nat, panicked: bool)        // body over, credit not yet returned
    | Recheck                                // nothing found: load the counter again
    | Exited                                 // worker_loop has returned
    | Left                                   // the panic flag has been set if needed

  datatype Worker = Worker(pc: Pc, saw: bool)

  /** accepted, ran, finished and panics are history. */
  datatype State = State(
    deques: seq<seq<nat>>, workers: seq<Worker>, pending: int, next: nat,
    flag: bool, accepted: set<nat>, ran: seq<nat>, finished: seq<nat>, panics: set<nat>)

  datatype Action =
    | Load(w: nat) | Pop(w: nat) | Steal(w: nat, victim: nat) | Nothing(w: nat) | Busy(w: nat)
    | Begin(w: nat) | Reserve(w: nat) | Push(w: nat) | Refuse(w: nat) | Return(w: nat)
    | End(w: nat, panicked: bool) | Release(w: nat) | Report(w: nat)

  /** The root job is queued on worker 0 with one credit open. */
  function Init(n: nat): State
    requires n >= 1
  {
    State(seq(n, i => if i == 0 then [0] else []), seq(n, _ => Worker(Look, false)), 1, 1, false, {0}, [], [], {})
  }

  predicate Shaped(s: State) {
    |s.deques| == |s.workers|
  }

  function At(s: State, w: nat, pc: Pc): State
    requires w < |s.workers|
  {
    s.(workers := s.workers[w := s.workers[w].(pc := pc)])
  }

  function Next(s: State, a: Action): State
    requires Shaped(s)
  {
    if a.w >= |s.workers| then s
    else
      var w := a.w;
      var pc := s.workers[w].pc;
      match a
      case Load(_) =>
        if pc == Look then At(s, w, if s.pending == 0 then Exited else Seek)
        else if pc == Recheck then At(s, w, if s.pending == 0 then Exited else Look)
        else s
      case Pop(_) =>
        if pc != Seek || s.deques[w] == [] then s
        else
          var d := s.deques[w];
          At(s.(deques := s.deques[w := d[..|d| - 1]]), w, Holding(d[|d| - 1]))
      case Steal(_, victim) =>
        if pc != Seek || victim >= |s.deques| || victim == w || s.deques[victim] == [] then s
        else
          var d := s.deques[victim];
          At(s.(deques := s.deques[victim := d[1..]]), w, Holding(d[0]))
      case Nothing(_) => if pc == Seek then At(s, w, Recheck) else s
      case Busy(_) => if pc == Seek then At(s, w, Look) else s
      case Begin(_) => if pc.Holding? then At(s.(ran := s.ran + [pc.job]), w, Running(pc.job)) else s
      case Reserve(_) =>
        if pc.Running? then At(s.(pending := s.pending + 1, next := s.next + 1), w, Reserving(pc.job, s.next)) else s
      case Push(_) =>
        if pc.Reserving?
        then At(s.(deques := s.deques[w := s.deques[w] + [pc.child]], accepted := s.accepted + {pc.child}), w, Running(pc.job))
        else s
      case Refuse(_) => if pc.Reserving? then At(s, w, RollBack(pc.job, pc.child)) else s
      case Return(_) => if pc.RollBack? then At(s.(pending := s.pending - 1), w, Running(pc.job)) else s
      case End(_, panicked) =>
        if pc.Running?
        then At(s.(panics := if panicked then s.panics + {pc.job} else s.panics), w, Ended(pc.job, panicked))
        else s
      case Release(_) =>
        if pc.Ended? then
          s.(pending := s.pending - 1, workers := s.workers[w := Worker(Look, s.workers[w].saw || pc.panicked)],
             finished := s.finished + [pc.job])
        else s
      case Report(_) => if pc == Exited then At(s.(flag := s.flag || s.workers[w].saw), w, Left) else s
  }

  /** The state after a finite interleaving. */
  ghost function Exec(s: State, run: seq<Action>): State
    requires Shaped(s)
    decreases |run|
  {
    if run == [] then s
    else
      var before := Exec(s, run[..|run| - 1]);
      if Shaped(before) then Next(before, run[|run| - 1]) else before
  }

  // ---- Sums over workers and deques ----

  ghost function Total(ms: seq<nat>): nat {
    if ms == [] then 0 else Total(ms[..|ms| - 1]) + ms[|ms| - 1]
  }

  lemma {:induction false} TotalSet(ms: seq<nat>, ns: seq<nat>, i: nat)
    requires i < |ms| == |ns| && forall j :: 0 <= j < |ms| && j != i ==> ns[j] == ms[j]
    ensures Total(ns) + ms[i] == Total(ms) + ns[i]
    decreases |ms|
  {
    var front, after := ms[..|ms| - 1], ns[..|ns| - 1];
    if i < |ms| - 1 {
      TotalSet(front, after, i);
    } else {
      assert front == after;
    }
  }

  lemma {:induction false} TotalAtLeast(ms: seq<nat>, i: nat)
    requires i < |ms|
    ensures ms[i] <= Total(ms)
    decreases |ms|
  {
    if i < |ms| - 1 {
      TotalAtLeast(ms[..|ms| - 1], i);
    }
  }

  lemma {:induction false} TotalZero(ms: seq<nat>)
    requires forall i :: 0 <= i < |ms| ==> ms[i] == 0
    ensures Total(ms) == 0
  {
    if ms != [] {
      TotalZero(ms[..|ms| - 1]);
    }
  }

  /** How often x occurs. */
  ghost function Times(d: seq<nat>, x: nat): nat {
    multiset(d)[x]
  }

  lemma TimesHead(d: seq<nat>, x: nat)
    requires d != []
    ensures Times(d, x) == Times(d[1..], x) + if d[0] == x then 1 else 0
  {
    assert d == [d[0]] + d[1..];
  }

  lemma TimesLast(d: seq<nat>, x: nat)
    requires d != []
    ensures Times(d, x) == Times(d[..|d| - 1], x) + if d[|d| - 1] == x then 1 else 0
  {
    assert d == d[..|d| - 1] + [d[|d| - 1]];
  }

  lemma TimesAdd(d: seq<nat>, y: nat, x: nat)
    ensures Times(d + [y], x) == Times(d, x) + if x == y then 1 else 0
  {
  }

  // ---- The books ----

  /** Has w taken job x without starting it? */
  function HoldsJob(pc: Pc, x: nat): nat {
    if pc == Holding(x) then 1 else 0
  }

  function RunsJob(pc: Pc, x: nat): nat {
    match pc
    case Running(job) => if job == x then 1 else 0
    case Reserving(job, _) => if job == x then 1 else 0
    case RollBack(job, _) => if job == x then 1 else 0
    case Ended(job, _) => if job == x then 1 else 0
    case _ => 0
  }

  /** Credits a worker keeps open: one for its job, one for a reservation. */
  function Credits(pc: Pc): nat {
    match pc
    case Holding(_) | Running(_) | Ended(_, _) => 1
    case Reserving(_, _) | RollBack(_, _) => 2
    case _ => 0
  }

  ghost function Queued(s: State, x: nat): nat {
    Total(seq(|s.deques|, i requires 0 <= i < |s.deques| => Times(s.deques[i], x)))
  }

  ghost function Held(s: State, x: nat): nat {
    Total(seq(|s.workers|, i requires 0 <= i < |s.workers| => HoldsJob(s.workers[i].pc, x)))
  }

  ghost function InRun(s: State, x: nat): nat {
    Total(seq(|s.workers|, i requires 0 <= i < |s.workers| => RunsJob(s.workers[i].pc, x)))
  }

  ghost function QueueLength(s: State): nat {
    Total(seq(|s.deques|, i requires 0 <= i < |s.deques| => |s.deques[i]|))
  }

  ghost function OpenCredits(s: State): nat {
    Total(seq(|s.workers|, i requires 0 <= i < |s.workers| => Credits(s.workers[i].pc)))
  }

  /** Job x, if accepted, is in exactly one place: queued, held, or started; and if started it
      is running or finished, exactly once. */
  ghost predicate Tracked(s: State, x: nat) {
    && (if x in s.accepted then 1 else 0) == Queued(s, x) + Held(s, x) + Times(s.ran, x)
    && Times(s.ran, x) == InRun(s, x) + Times(s.finished, x)
  }

  /** The counter is the queued jobs, plus the held and running jobs, plus open reservations. */
  ghost predicate Counted(s: State) {
    s.pending == QueueLength(s) + OpenCredits(s)
  }

  ghost predicate ChildFresh(s: State, w: nat)
    requires w < |s.workers|
  {
    var pc := s.workers[w].pc;
    pc.Reserving? ==> pc.child < s.next && pc.child !in s.accepted
  }

  ghost predicate ChildrenApart(s: State, v: nat, w: nat)
    requires v < |s.workers| && w < |s.workers|
  {
    var p, q := s.workers[v].pc, s.workers[w].pc;
    p.Reserving? && q.Reserving? ==> p.child != q.child
  }

  /** Job numbers are fresh. */
  ghost predicate Numbered(s: State) {
    && (forall x :: x in s.accepted ==> x < s.next)
    && (forall w :: 0 <= w < |s.workers| ==> ChildFresh(s, w))
    && (forall v, w :: 0 <= v < w < |s.workers| ==> ChildrenApart(s, v, w))
  }

  ghost predicate ExitsOk(s: State) {
    forall w :: 0 <= w < |s.workers| && (s.workers[w].pc == Exited || s.workers[w].pc == Left) ==> s.pending == 0
  }

  ghost predicate PanicsOk(s: State) {
    && (s.panics != {} <==> exists w :: 0 <= w < |s.workers| && Witness(s.workers[w]))
    && (s.flag <==> exists w :: 0 <= w < |s.workers| && Told(s.workers[w]))
  }

  /** The worker has left and had seen a panic. */
  ghost predicate Told(w: Worker) {
    w.pc == Left && w.saw
  }

  /** The worker has seen a panic, or has just caught one. */
  ghost predicate Witness(w: Worker) {
    w.saw || (w.pc.Ended? && w.pc.panicked)
  }

  ghost predicate Inv(s: State) {
    && Shaped(s) && (forall x: nat :: Tracked(s, x)) && Counted(s) && Numbered(s) && ExitsOk(s) && PanicsOk(s)
  }

  // ---- A step changes one worker and at most one deque ----

  ghost predicate Local(s: State, n: State, w: nat, q: nat) {
    && Shaped(s) && Shaped(n) && w < |s.workers| == |n.workers| && q < |s.deques|
    && (forall i :: 0 <= i < |s.workers| && i != w ==> n.workers[i] == s.workers[i])
    && (forall i :: 0 <= i < |s.deques| && i != q ==> n.deques[i] == s.deques[i])
  }

  lemma PlacesMove(s: State, n: State, w: nat, q: nat, x: nat)
    requires Local(s, n, w, q)
    ensures Queued(n, x) + Times(s.deques[q], x) == Queued(s, x) + Times(n.deques[q], x)
    ensures Held(n, x) + HoldsJob(s.workers[w].pc, x) == Held(s, x) + HoldsJob(n.workers[w].pc, x)
    ensures InRun(n, x) + RunsJob(s.workers[w].pc, x) == InRun(s, x) + RunsJob(n.workers[w].pc, x)
  {
    TotalSet(seq(|s.deques|, i requires 0 <= i < |s.deques| => Times(s.deques[i], x)),
             seq(|n.deques|, i requires 0 <= i < |n.deques| => Times(n.deques[i], x)), q);
    TotalSet(seq(|s.workers|, i requires 0 <= i < |s.workers| => HoldsJob(s.workers[i].pc, x)),
             seq(|n.workers|, i requires 0 <= i < |n.workers| => HoldsJob(n.workers[i].pc, x)), w);
    TotalSet(seq(|s.workers|, i requires 0 <= i < |s.workers| => RunsJob(s.workers[i].pc, x)),
             seq(|n.workers|, i requires 0 <= i < |n.workers| => RunsJob(n.workers[i].pc, x)), w);
  }

  lemma CreditsMove(s: State, n: State, w: nat, q: nat)
    requires Local(s, n, w, q)
    ensures QueueLength(n) + |s.deques[q]| == QueueLength(s) + |n.deques[q]|
    ensures OpenCredits(n) + Credits(s.workers[w].pc) == OpenCredits(s) + Credits(n.workers[w].pc)
  {
    TotalSet(seq(|s.deques|, i requires 0 <= i < |s.deques| => |s.deques[i]|),
             seq(|n.deques|, i requires 0 <= i < |n.deques| => |n.deques[i]|), q);
    TotalSet(seq(|s.workers|, i requires 0 <= i < |s.workers| => Credits(s.workers[i].pc)),
             seq(|n.workers|, i requires 0 <= i < |n.workers| => Credits(n.workers[i].pc)), w);
  }

  function Touched(a: Action): nat {
    if a.Steal? then a.victim else a.w
  }

  lemma StepIsLocal(s: State, a: Action)
    requires Shaped(s) && Next(s, a) != s
    ensures Local(s, Next(s, a), a.w, Touched(a))
  {
  }

  lemma CountedKept(s: State, a: Action)
    requires Shaped(s) && Counted(s)
    ensures Counted(Next(s, a))
  {
    var n := Next(s, a);
    if n != s {
      StepIsLocal(s, a);
      CreditsMove(s, n, a.w, Touched(a));
    }
  }

  function Accepted(s: State, x: nat): int {
    if x in s.accepted then 1 else 0
  }

  /** What the step does to job x: what leaves one place enters another. */
  ghost predicate Flow(s: State, n: State, w: nat, q: nat, x: nat) {
    && Local(s, n, w, q)
    && Accepted(n, x) + Times(s.deques[q], x) + HoldsJob(s.workers[w].pc, x) + Times(s.ran, x)
       == Accepted(s, x) + Times(n.deques[q], x) + HoldsJob(n.workers[w].pc, x) + Times(n.ran, x)
    && Times(n.ran, x) + RunsJob(s.workers[w].pc, x) + Times(s.finished, x)
       == Times(s.ran, x) + RunsJob(n.workers[w].pc, x) + Times(n.finished, x)
  }

  lemma FlowTracks(s: State, n: State, w: nat, q: nat, x: nat)
    requires Flow(s, n, w, q, x) && Tracked(s, x)
    ensures Tracked(n, x)
  {
    PlacesMove(s, n, w, q, x);
  }

  lemma TakeFlows(s: State, a: Action, x: nat)
    requires Shaped(s) && (a.Pop? || a.Steal?) && Next(s, a) != s
    ensures Flow(s, Next(s, a), a.w, Touched(a), x)
  {
    StepIsLocal(s, a);
    if a.Steal? {
      TimesHead(s.deques[a.victim], x);
    } else {
      TimesLast(s.deques[a.w], x);
    }
  }

  lemma PushFlows(s: State, w: nat, x: nat)
    requires Shaped(s) && Numbered(s) && Next(s, Push(w)) != s
    ensures Flow(s, Next(s, Push(w)), w, w, x)
  {
    StepIsLocal(s, Push(w));
    assert ChildFresh(s, w);
    TimesAdd(s.deques[w], s.workers[w].pc.child, x);
  }

  lemma BeginFlows(s: State, w: nat, x: nat)
    requires Shaped(s) && Next(s, Begin(w)) != s
    ensures Flow(s, Next(s, Begin(w)), w, w, x)
  {
    StepIsLocal(s, Begin(w));
    TimesAdd(s.ran, s.workers[w].pc.job, x);
  }

  lemma ReleaseFlows(s: State, w: nat, x: nat)
    requires Shaped(s) && Next(s, Release(w)) != s
    ensures Flow(s, Next(s, Release(w)), w, w, x)
  {
    StepIsLocal(s, Release(w));
    TimesAdd(s.finished, s.workers[w].pc.job, x);
  }

  /** The remaining steps move no job. */
  lemma QuietFlows(s: State, a: Action, x: nat)
    requires Shaped(s) && Next(s, a) != s && !a.Pop? && !a.Steal? && !a.Push? && !a.Begin? && !a.Release?
    ensures Flow(s, Next(s, a), a.w, a.w, x)
  {
    StepIsLocal(s, a);
  }

  lemma TrackedKept(s: State, a: Action, x: nat)
    requires Shaped(s) && Tracked(s, x) && Numbered(s)
    ensures Tracked(Next(s, a), x)
  {
    var n := Next(s, a);
    if n != s {
      match a {
        case Pop(_) => TakeFlows(s, a, x);
        case Steal(_, _) => TakeFlows(s, a, x);
        case Push(w) => PushFlows(s, w, x);
        case Begin(w) => BeginFlows(s, w, x);
        case Release(w) => ReleaseFlows(s, w, x);
        case _ => QuietFlows(s, a, x);
      }
      FlowTracks(s, n, a.w, Touched(a), x);
    }
  }

  lemma NumberedKept(s: State, a: Action)
    requires Shaped(s) && Numbered(s)
    ensures Numbered(Next(s, a))
  {
    var n := Next(s, a);
    if n != s {
      StepIsLocal(s, a);
      assert ChildFresh(s, a.w);
      forall w | 0 <= w < |n.workers|
        ensures ChildFresh(n, w)
      {
        assert ChildFresh(s, w);
        assert w < a.w ==> ChildrenApart(s, w, a.w);
        assert a.w < w ==> ChildrenApart(s, a.w, w);
      }
      forall v, w | 0 <= v < w < |n.workers|
        ensures ChildrenApart(n, v, w)
      {
        assert ChildrenApart(s, v, w) && ChildFresh(s, v) && ChildFresh(s, w);
      }
    }
  }

  /** With the counter at zero nothing is queued and every worker is between jobs. */
  lemma ZeroMeansQuiet(s: State)
    requires Shaped(s) && Counted(s) && s.pending == 0
    ensures forall q :: 0 <= q < |s.deques| ==> s.deques[q] == []
    ensures forall w :: 0 <= w < |s.workers| ==> Credits(s.workers[w].pc) == 0
  {
    forall q | 0 <= q < |s.deques|
      ensures s.deques[q] == []
    {
      TotalAtLeast(seq(|s.deques|, i requires 0 <= i < |s.deques| => |s.deques[i]|), q);
    }
    forall w | 0 <= w < |s.workers|
      ensures Credits(s.workers[w].pc) == 0
    {
      TotalAtLeast(seq(|s.workers|, i requires 0 <= i < |s.workers| => Credits(s.workers[i].pc)), w);
    }
  }

  /** Once zero, the counter stays zero and no job is accepted, started or finished. */
  lemma ZeroIsFinal(s: State, a: Action)
    requires Shaped(s) && Counted(s) && s.pending == 0
    ensures var n := Next(s, a);
            n.pending == 0 && n.accepted == s.accepted && n.ran == s.ran && n.finished == s.finished && n.panics == s.panics
  {
    ZeroMeansQuiet(s);
    if a.w < |s.workers| {
      assert Credits(s.workers[a.w].pc) == 0;
    }
  }

  lemma ExitsKept(s: State, a: Action)
    requires Shaped(s) && Counted(s) && ExitsOk(s)
    ensures ExitsOk(Next(s, a))
  {
    var n := Next(s, a);
    if s.pending == 0 {
      ZeroIsFinal(s, a);
    } else if n != s {
      StepIsLocal(s, a);
    }
  }

  lemma WitnessStays(s: State, a: Action, w: nat)
    requires Shaped(s) && w < |s.workers| && |Next(s, a).workers| == |s.workers|
    ensures Witness(s.workers[w]) ==> Witness(Next(s, a).workers[w])
    ensures Witness(Next(s, a).workers[w]) ==> Witness(s.workers[w]) || Next(s, a).panics != {}
  {
  }

  lemma NewPanic(s: State, a: Action)
    requires Shaped(s) && Next(s, a).panics != s.panics
    ensures a.w < |s.workers| == |Next(s, a).workers| && Witness(Next(s, a).workers[a.w]) && Next(s, a).panics != {}
  {
  }

  lemma WitnessKept(s: State, a: Action)
    requires Shaped(s) && PanicsOk(s)
    ensures var n := Next(s, a); n.panics != {} <==> exists w :: 0 <= w < |n.workers| && Witness(n.workers[w])
  {
    var n := Next(s, a);
    if n != s {
      StepIsLocal(s, a);
      if n.panics != s.panics {
        NewPanic(s, a);
      }
      forall w | 0 <= w < |s.workers|
        ensures Witness(s.workers[w]) ==> Witness(n.workers[w])
        ensures Witness(n.workers[w]) ==> Witness(s.workers[w]) || n.panics != {}
      {
        WitnessStays(s, a, w);
      }
    }
  }

  lemma FlagKept(s: State, a: Action)
    requires Shaped(s) && PanicsOk(s)
    ensures var n := Next(s, a); n.flag <==> exists w :: 0 <= w < |n.workers| && Told(n.workers[w])
  {
    var n := Next(s, a);
    if n != s {
      StepIsLocal(s, a);
      if a.Report? {
        assert Told(n.workers[a.w]) <==> s.workers[a.w].saw;
        if w :| 0 <= w < |s.workers| && Told(s.workers[w]) {
          assert Told(n.workers[w]);
        }
      } else {
        SameTold(s, a);
      }
    }
  }

  lemma SameTold(s: State, a: Action)
    requires Shaped(s) && !a.Report? && Next(s, a) != s
    ensures var n := Next(s, a);
            n.flag == s.flag && |n.workers| == |s.workers| && forall w :: 0 <= w < |s.workers| ==> (Told(n.workers[w]) <==> Told(s.workers[w]))
  {
    StepIsLocal(s, a);
  }

  lemma StepKeeps(s: State, a: Action)
    requires Inv(s)
    ensures Inv(Next(s, a)) && |Next(s, a).workers| == |s.workers|
  {
    forall x: nat
      ensures Tracked(Next(s, a), x)
    {
      TrackedKept(s, a, x);
    }
    CountedKept(s, a);
    NumberedKept(s, a);
    ExitsKept(s, a);
    WitnessKept(s, a);
    FlagKept(s, a);
    if Next(s, a) != s {
      StepIsLocal(s, a);
    }
  }

  lemma InitCounts(n: nat, x: nat)
    requires n >= 1
    ensures Tracked(Init(n), x) && Counted(Init(n))
  {
    var s := Init(n);
    var zeros := seq(n, _ => 0);
    TotalZero(zeros);
    assert Times([0], x) == if x == 0 then 1 else 0 by {
      assert [0] == [] + [0];
      TimesAdd([], 0, x);
    }
    var queued := seq(|s.deques|, i requires 0 <= i < |s.deques| => Times(s.deques[i], x));
    assert queued[0] == Times([0], x);
    TotalSet(zeros, queued, 0);
    TotalSet(zeros, seq(|s.deques|, i requires 0 <= i < |s.deques| => |s.deques[i]|), 0);
    TotalZero(seq(|s.workers|, i requires 0 <= i < |s.workers| => HoldsJob(s.workers[i].pc, x)));
    TotalZero(seq(|s.workers|, i requires 0 <= i < |s.workers| => RunsJob(s.workers[i].pc, x)));
    TotalZero(seq(|s.workers|, i requires 0 <= i < |s.workers| => Credits(s.workers[i].pc)));
  }

  lemma {:induction false} RunKeeps(n: nat, run: seq<Action>)
    requires n >= 1
    ensures Inv(Exec(Init(n), run)) && |Exec(Init(n), run).workers| == n
    decreases |run|
  {
    if run == [] {
      forall x: nat
        ensures Tracked(Init(n), x) && Counted(Init(n))
      {
        InitCounts(n, x);
      }
      InitCounts(n, 0);
    } else {
      RunKeeps(n, run[..|run| - 1]);
      StepKeeps(Exec(Init(n), run[..|run| - 1]), run[|run| - 1]);
    }
  }

  // ---- What every run promises ----

  /** The counter equals the queued jobs, the held and running jobs and the open reservations. */
  lemma PendingIsExact(n: nat, run: seq<Action>)
    requires n >= 1
    ensures var s := Exec(Init(n), run); s.pending == QueueLength(s) + OpenCredits(s)
  {
    RunKeeps(n, run);
  }

  /** No job is ever started twice or without having been accepted. */
  lemma AtMostOnce(n: nat, run: seq<Action>, x: nat)
    requires n >= 1
    ensures var s := Exec(Init(n), run);
            Times(s.finished, x) <= Times(s.ran, x) <= if x in s.accepted then 1 else 0
  {
    RunKeeps(n, run);
    assert Tracked(Exec(Init(n), run), x);
  }

  /** A worker leaves its loop only when every accepted job has run to its end exactly once. */
  lemma ExitMeansAllRan(n: nat, run: seq<Action>, w: nat, x: nat)
    requires n >= 1
    requires var s := Exec(Init(n), run); w < |s.workers| && s.workers[w].pc == Exited
    ensures var s := Exec(Init(n), run);
            Times(s.ran, x) == Times(s.finished, x) == if x in s.accepted then 1 else 0
  {
    RunKeeps(n, run);
    QuietMeansAllRan(Exec(Init(n), run), x);
  }

  lemma QuietMeansAllRan(s: State, x: nat)
    requires Inv(s) && s.pending == 0
    ensures Times(s.ran, x) == Times(s.finished, x) == if x in s.accepted then 1 else 0
  {
    assert Tracked(s, x);
    ZeroMeansQuiet(s);
    TotalZero(seq(|s.deques|, i requires 0 <= i < |s.deques| => Times(s.deques[i], x)));
    forall i | 0 <= i < |s.workers|
      ensures HoldsJob(s.workers[i].pc, x) == 0 && RunsJob(s.workers[i].pc, x) == 0
    {
      assert Credits(s.workers[i].pc) == 0;
    }
    TotalZero(seq(|s.workers|, i requires 0 <= i < |s.workers| => HoldsJob(s.workers[i].pc, x)));
    TotalZero(seq(|s.workers|, i requires 0 <= i < |s.workers| => RunsJob(s.workers[i].pc, x)));
  }

  lemma {:induction false} ExecShaped(s: State, a: seq<Action>)
    requires Shaped(s)
    ensures Shaped(Exec(s, a))
    decreases |a|
  {
    if a != [] {
      ExecShaped(s, a[..|a| - 1]);
    }
  }

  lemma {:induction false} ExecThen(s: State, a: seq<Action>, b: seq<Action>)
    requires Shaped(s)
    ensures Shaped(Exec(s, a)) && Exec(s, a + b) == Exec(Exec(s, a), b)
    decreases |b|
  {
    ExecShaped(s, a);
    if b == [] {
      assert a + b == a;
    } else {
      var front, last := b[..|b| - 1], b[|b| - 1];
      ExecThen(s, a, front);
      ExecSnoc(s, a + front, last);
      ExecSnoc(Exec(s, a), front, last);
      assert b == front + [last] && a + b == a + front + [last];
    }
  }

  lemma ExecSnoc(s: State, run: seq<Action>, a: Action)
    requires Shaped(s)
    ensures Shaped(Exec(s, run)) && Exec(s, run + [a]) == Next(Exec(s, run), a)
  {
    ExecShaped(s, run);
    assert (run + [a])[..|run|] == run;
  }

  /** The histories of s are complete in t. */
  ghost predicate Settled(s: State, t: State) {
    t.pending == 0 && t.accepted == s.accepted && t.ran == s.ran && t.finished == s.finished && t.panics == s.panics
  }

  lemma {:induction false} ZeroStays(s: State, more: seq<Action>)
    requires Inv(s) && s.pending == 0
    ensures Inv(Exec(s, more)) && Settled(s, Exec(s, more))
    decreases |more|
  {
    if more != [] {
      var front := Exec(s, more[..|more| - 1]);
      ZeroStays(s, more[..|more| - 1]);
      ZeroIsFinal(front, more[|more| - 1]);
      StepKeeps(front, more[|more| - 1]);
    }
  }

  /** After a worker has left, no later step accepts, starts or finishes a job. */
  lemma NothingAfterExit(n: nat, run: seq<Action>, more: seq<Action>, w: nat)
    requires n >= 1
    requires var s := Exec(Init(n), run); w < |s.workers| && s.workers[w].pc == Exited
    ensures Settled(Exec(Init(n), run), Exec(Init(n), run + more))
  {
    RunKeeps(n, run);
    ZeroStays(Exec(Init(n), run), more);
    ExecThen(Init(n), run, more);
  }

  // ---- What the run itself says ----

  /** What a step does to a job, read off the program counter before the step. */
  datatype Event = Pushed(job: nat) | Began(job: nat) | Body(job: nat, panicked: bool)

  ghost predicate Does(s: State, a: Action, e: Event) {
    a.w < |s.workers| &&
    var pc := s.workers[a.w].pc;
    match e
    case Pushed(x) => a.Push? && pc.Reserving? && pc.child == x
    case Began(x) => a.Begin? && pc == Holding(x)
    case Body(x, panicked) => a.End? && a.panicked == panicked && pc == Running(x)
  }

  ghost predicate OccursAt(n: nat, run: seq<Action>, pos: nat, e: Event)
    requires n >= 1
  {
    pos < |run| && Does(Exec(Init(n), run[..pos]), run[pos], e)
  }

  ghost predicate Occurs(n: nat, run: seq<Action>, e: Event)
    requires n >= 1
  {
    exists pos: nat :: OccursAt(n, run, pos, e)
  }

  /** An event of a run is one of its last step or one of the run before it. */
  lemma OccursStep(n: nat, run: seq<Action>, e: Event)
    requires n >= 1 && run != []
    ensures var most := run[..|run| - 1];
            Occurs(n, run, e) <==> Occurs(n, most, e) || Does(Exec(Init(n), most), run[|run| - 1], e)
  {
    var most := run[..|run| - 1];
    forall pos: nat | pos < |most|
      ensures OccursAt(n, run, pos, e) <==> OccursAt(n, most, pos, e)
    {
      OccursEarlier(n, run, most, pos, e);
    }
    OccursLast(n, run, most, e);
  }

  lemma OccursEarlier(n: nat, run: seq<Action>, most: seq<Action>, pos: nat, e: Event)
    requires n >= 1 && most <= run && pos < |most|
    ensures OccursAt(n, run, pos, e) <==> OccursAt(n, most, pos, e)
  {
    assert most[..pos] == run[..pos];
  }

  lemma OccursLast(n: nat, run: seq<Action>, most: seq<Action>, e: Event)
    requires n >= 1 && run != [] && most == run[..|run| - 1]
    ensures OccursAt(n, run, |most|, e) <==> Does(Exec(Init(n), most), run[|run| - 1], e)
  {
  }

  /** The last step of a run. */
  lemma ExecLast(n: nat, run: seq<Action>) returns (most: seq<Action>, s: State, a: Action)
    requires n >= 1 && run != []
    ensures most == run[..|run| - 1] && a == run[|run| - 1] && s == Exec(Init(n), most) && Inv(s)
    ensures Exec(Init(n), run) == Next(s, a)
  {
    most, a := run[..|run| - 1], run[|run| - 1];
    s := Exec(Init(n), most);
    RunKeeps(n, most);
  }

  lemma HistoryStep(s: State, a: Action, x: nat)
    requires Shaped(s)
    ensures x in Next(s, a).accepted <==> x in s.accepted || Does(s, a, Pushed(x))
    ensures Times(Next(s, a).ran, x) == Times(s.ran, x) + if Does(s, a, Began(x)) then 1 else 0
    ensures x in Next(s, a).panics <==> x in s.panics || Does(s, a, Body(x, true))
  {
  }

  /** The histories are what happened: jobs accepted, started and panicked in the run. */
  lemma {:induction false} HistoryIsTrue(n: nat, run: seq<Action>, x: nat)
    requires n >= 1
    ensures var s := Exec(Init(n), run);
            && (x in s.accepted <==> x == 0 || Occurs(n, run, Pushed(x)))
            && (Times(s.ran, x) > 0 <==> Occurs(n, run, Began(x)))
            && (x in s.panics <==> Occurs(n, run, Body(x, true)))
    decreases |run|
  {
    if run != [] {
      var most, s, a := ExecLast(n, run);
      HistoryIsTrue(n, most, x);
      HistoryStep(s, a, x);
      OccursStep(n, run, Pushed(x));
      OccursStep(n, run, Began(x));
      OccursStep(n, run, Body(x, true));
    }
  }

  /** Worker w has ended the body of job x and not yet returned its credit. */
  ghost predicate EndedBy(s: State, w: nat, x: nat, panicked: bool) {
    w < |s.workers| && s.workers[w].pc == Ended(x, panicked)
  }

  lemma EndedStep(s: State, a: Action, w: nat, x: nat, panicked: bool)
    requires Shaped(s) && EndedBy(Next(s, a), w, x, panicked)
    ensures EndedBy(s, w, x, panicked) || Does(s, a, Body(x, panicked))
  {
  }

  lemma FinishedStep(s: State, a: Action, x: nat)
    requires Shaped(s) && Times(Next(s, a).finished, x) > Times(s.finished, x)
    ensures a.Release? && a.w < |s.workers| && s.workers[a.w].pc.Ended? && EndedBy(s, a.w, x, s.workers[a.w].pc.panicked)
  {
  }

  lemma {:induction false} EndedOccurred(n: nat, run: seq<Action>, w: nat, x: nat, panicked: bool)
    requires n >= 1 && EndedBy(Exec(Init(n), run), w, x, panicked)
    ensures Occurs(n, run, Body(x, panicked))
    decreases |run|
  {
    if run != [] {
      var most, s, a := ExecLast(n, run);
      EndedStep(s, a, w, x, panicked);
      if EndedBy(s, w, x, panicked) {
        EndedOccurred(n, most, w, x, panicked);
      }
      OccursStep(n, run, Body(x, panicked));
    }
  }

  /** A finished job's body was run to its end, panicking or not. */
  lemma {:induction false} FinishedOccurred(n: nat, run: seq<Action>, x: nat)
    requires n >= 1 && Times(Exec(Init(n), run).finished, x) > 0
    ensures Occurs(n, run, Body(x, false)) || Occurs(n, run, Body(x, true))
    decreases |run|
  {
    if run != [] {
      var most, s, a := ExecLast(n, run);
      OccursStep(n, run, Body(x, false));
      OccursStep(n, run, Body(x, true));
      if Times(s.finished, x) > 0 {
        FinishedOccurred(n, most, x);
      } else {
        FinishedStep(s, a, x);
        EndedOccurred(n, most, a.w, x, s.workers[a.w].pc.panicked);
      }
    }
  }

  /** Once a worker has left its loop, the root and every job pushed in the run has been started
      and has run its body to the end. */
  lemma ExitMeansBodiesRan(n: nat, run: seq<Action>, w: nat, x: nat)
    requires n >= 1 && (x == 0 || Occurs(n, run, Pushed(x)))
    requires var s := Exec(Init(n), run); w < |s.workers| && s.workers[w].pc == Exited
    ensures Occurs(n, run, Began(x)) && (Occurs(n, run, Body(x, false)) || Occurs(n, run, Body(x, true)))
  {
    HistoryIsTrue(n, run, x);
    ExitMeansAllRan(n, run, w, x);
    FinishedOccurred(n, run, x);
  }

  /** A job is started at most once in a run, and only the root or a job pushed before. */
  lemma StartsOnce(n: nat, run: seq<Action>, pos: nat, x: nat)
    requires n >= 1 && OccursAt(n, run, pos, Began(x))
    ensures x == 0 || Occurs(n, run[..pos], Pushed(x))
    ensures !Occurs(n, run[..pos], Began(x))
  {
    var upto := run[..pos + 1];
    var most, s, a := ExecLast(n, upto);
    assert most == run[..pos];
    HistoryStep(s, a, x);
    HistoryIsTrue(n, most, x);
    AtMostOnce(n, upto, x);
  }

  /** A pushed job is the newest of its worker's deque, where pop takes the newest and steal the
      oldest. */
  lemma QueueOrder(s: State, a: Action, d: seq<nat>, x: nat)
    requires Shaped(s) && a.w < |s.workers|
    ensures Does(s, a, Pushed(x)) ==> Next(s, a).deques == s.deques[a.w := s.deques[a.w] + [x]]
    ensures a.Pop? && s.workers[a.w].pc == Seek && s.deques[a.w] == d + [x] ==>
              Next(s, a).deques == s.deques[a.w := d] && Next(s, a).workers[a.w].pc == Holding(x)
    ensures a.Steal? && s.workers[a.w].pc == Seek && a.victim < |s.deques| && a.victim != a.w && s.deques[a.victim] == [x] + d ==>
              Next(s, a).deques == s.deques[a.victim := d] && Next(s, a).workers[a.w].pc == Holding(x)
  {
  }

  datatype Outcome = Done | JobPanicked

  /** What run_fork_join_scoped returns once its scope has joined every worker. */
  function RegionResult(s: State): Outcome {
    if s.flag then JobPanicked else Done
  }

  /** When every worker has left, the region fails if and only if the body of some job panicked,
      and by then every accepted job has ended, panicking or not. */
  lemma RegionReportsPanics(n: nat, run: seq<Action>, x: nat)
    requires n >= 1
    requires var s := Exec(Init(n), run); forall w :: 0 <= w < |s.workers| ==> s.workers[w].pc == Left
    ensures var s := Exec(Init(n), run);
            && (RegionResult(s) == JobPanicked <==> exists y: nat :: Occurs(n, run, Body(y, true)))
            && Times(s.finished, x) == if x in s.accepted then 1 else 0
  {
    RunKeeps(n, run);
    var s := Exec(Init(n), run);
    assert s.workers[0].pc == Left;
    if w :| 0 <= w < |s.workers| && Witness(s.workers[w]) {
      assert Told(s.workers[w]);
    }
    QuietMeansAllRan(s, x);
    forall y: nat
      ensures y in s.panics <==> Occurs(n, run, Body(y, true))
    {
      HistoryIsTrue(n, run, y);
    }
  }

  // ---- No deadlock ----

  /** The step that takes worker w closer to returning its credit. */
  function Chore(pc: Pc, w: nat): Action {
    match pc
    case Seek => Pop(w)
    case Holding(_) => Begin(w)
    case Running(_) => End(w, false)
    case Reserving(_, _) => Refuse(w)
    case RollBack(_, _) => Return(w)
    case Ended(_, _) => Release(w)
    case _ => Load(w)
  }

  /** How many chores are left until then. */
  function Chores(pc: Pc): nat {
    match pc
    case Recheck => 6
    case Look => 5
    case Seek => 4
    case Holding(_) => 3
    case Running(_) | Reserving(_, _) => 2
    case _ => 1
  }

  /** Worker w has a job, or its deque has one for it. */
  ghost predicate HasWork(s: State, w: nat) {
    && Inv(s) && s.pending > 0 && w < |s.workers| && (Credits(s.workers[w].pc) > 0 || s.deques[w] != [])
  }

  lemma ChoreHelps(s: State, w: nat)
    requires HasWork(s, w)
    ensures var n := Next(s, Chore(s.workers[w].pc, w));
            && Inv(n) && |n.workers| == |s.workers|
            && (n.pending == s.pending - 1 || (HasWork(n, w) && n.pending == s.pending && Chores(n.workers[w].pc) < Chores(s.workers[w].pc)))
  {
    assert !(s.workers[w].pc == Exited || s.workers[w].pc == Left);
    StepKeeps(s, Chore(s.workers[w].pc, w));
  }

  lemma ExecFirst(s: State, a: Action, rest: seq<Action>)
    requires Inv(s)
    ensures Shaped(Next(s, a)) && Exec(s, [a] + rest) == Exec(Next(s, a), rest)
  {
    StepKeeps(s, a);
    assert [a][..0] == [];
    assert Exec(s, [a]) == Next(s, a);
    ExecThen(s, [a], rest);
  }

  /** A worker with work can always return a credit. */
  lemma {:induction false} WorkGoesOn(s: State, w: nat) returns (more: seq<Action>)
    requires HasWork(s, w)
    ensures var t := Exec(s, more); Inv(t) && t.pending == s.pending - 1 && |t.workers| == |s.workers|
    decreases Chores(s.workers[w].pc)
  {
    var a := Chore(s.workers[w].pc, w);
    ChoreHelps(s, w);
    var rest := [];
    if Next(s, a).pending == s.pending {
      rest := WorkGoesOn(Next(s, a), w);
    }
    ExecFirst(s, a, rest);
    more := [a] + rest;
  }

  /** An open credit belongs to somebody. */
  lemma SomeoneHasWork(s: State) returns (w: nat)
    requires Inv(s) && s.pending > 0
    ensures HasWork(s, w)
  {
    if i :| 0 <= i < |s.workers| && (Credits(s.workers[i].pc) > 0 || s.deques[i] != []) {
      w := i;
    } else {
      TotalZero(seq(|s.deques|, i requires 0 <= i < |s.deques| => |s.deques[i]|));
      TotalZero(seq(|s.workers|, i requires 0 <= i < |s.workers| => Credits(s.workers[i].pc)));
      assert false;
    }
  }

  lemma {:induction false} AllWorkEnds(s: State) returns (more: seq<Action>)
    requires Inv(s)
    ensures var t := Exec(s, more); Inv(t) && t.pending == 0 && |t.workers| == |s.workers|
    decreases s.pending
  {
    more := [];
    if s.pending > 0 {
      var w := SomeoneHasWork(s);
      var first := WorkGoesOn(s, w);
      var rest := AllWorkEnds(Exec(s, first));
      ExecThen(s, first, rest);
      more := first + rest;
    }
  }

  /** Others stay where they are, and whoever has left stays so. */
  ghost predicate Retiring(s: State, t: State, w: nat) {
    && Inv(t) && t.pending == 0 && |t.workers| == |s.workers| && w < |s.workers|
    && forall v :: 0 <= v < |s.workers| && v != w ==> t.workers[v] == s.workers[v]
  }

  lemma RetireStep(s: State, a: Action)
    requires Inv(s) && s.pending == 0 && a.w < |s.workers| && (a.Nothing? || a.Load? || a.Report?)
    ensures Retiring(s, Next(s, a), a.w)
    ensures var before, after := s.workers[a.w].pc, Next(s, a).workers[a.w].pc;
            match a
            case Nothing(_) => after in {Look, Recheck, Exited, Left}
            case Load(_) => before in {Look, Recheck, Exited, Left} ==> after in {Exited, Left}
            case _ => before in {Exited, Left} ==> after == Left
  {
    ZeroMeansQuiet(s);
    assert Credits(s.workers[a.w].pc) == 0;
    StepKeeps(s, a);
  }

  /** With the counter at zero a worker between jobs leaves. */
  lemma Retires(s: State, w: nat) returns (more: seq<Action>)
    requires Inv(s) && s.pending == 0 && w < |s.workers|
    ensures Retiring(s, Exec(s, more), w) && Exec(s, more).workers[w].pc == Left
  {
    RetireStep(s, Nothing(w));
    var t := Next(s, Nothing(w));
    RetireStep(t, Load(w));
    var u := Next(t, Load(w));
    RetireStep(u, Report(w));
    more := [Nothing(w)] + ([Load(w)] + ([Report(w)] + []));
    ExecFirst(s, Nothing(w), [Load(w)] + ([Report(w)] + []));
    ExecFirst(t, Load(w), [Report(w)] + []);
    ExecFirst(u, Report(w), []);
  }

  lemma {:induction false} AllRetire(s: State, k: nat) returns (more: seq<Action>)
    requires Inv(s) && s.pending == 0 && k <= |s.workers|
    ensures var t := Exec(s, more);
            && Inv(t) && t.pending == 0 && |t.workers| == |s.workers|
            && forall w :: 0 <= w < k ==> t.workers[w].pc == Left
  {
    more := [];
    if k > 0 {
      var front := AllRetire(s, k - 1);
      var last := Retires(Exec(s, front), k - 1);
      ExecThen(s, front, last);
      more := front + last;
    }
  }

  /** From every reachable state some continuation ends the region: every worker leaves. */
  lemma EveryRegionCanEnd(n: nat, run: seq<Action>) returns (more: seq<Action>)
    requires n >= 1
    ensures var t := Exec(Init(n), run + more); |t.workers| == n && forall w :: 0 <= w < n ==> t.workers[w].pc == Left
  {
    RunKeeps(n, run);
    var s := Exec(Init(n), run);
    var first := AllWorkEnds(s);
    var last := AllRetire(Exec(s, first), n);
    ExecThen(s, first, last);
    more := first + last;
    ExecThen(Init(n), run, more);
  }
}
