/** The bounded work-stealing deque as a step system: one owner that pushes and pops, any
    number of thieves that steal. Every load, store and compare-exchange on shared memory is one
    atomic step (sequential consistency), interleaved arbitrarily. The n-th accepted push
    carries the token n. Indices do not wrap at the width of isize. */
module ChaseLev {
  import opened Arith

  datatype OwnerPc =
    | Idle
    | PushChecked(b: int)                       // room seen below the capacity check
    | PushGated(b: int)                         // physical slot seen FREE
    | PushWritten(b: int)                       // element written
    | PushMarked(b: int)                        // slot FULL, index not yet published
    | PopLowered(b: int)                        // bottom lowered to b
    | PopLast(b: int)                           // top read equal to b
    | PopTake(b: int, last: bool)               // index b won
    | PopRead(b: int, last: bool, item: nat)    // element read, slot still FULL
    | PopFreed(b: int, item: nat)               // last element: slot FREE, bottom not yet restored
    | PopRestore(b: int)                        // nothing won, bottom not yet restored

  datatype ThiefPc =
    | Rest
    | SawTop(t: int)
    | SawBoth(t: int)                           // t < bottom observed
    | Won(t: int)                               // compare-exchange on top succeeded
    | SawFull(t: int)
    | Taken(t: int, item: nat)                  // element read, slot still FULL

  datatype State = State(
    cap: nat, top: int, bottom: int, full: seq<bool>, buffer: seq<nat>,
    owner: OwnerPc, thieves: seq<ThiefPc>, next: nat, returned: seq<nat>)

  datatype Action = StartPush | StartPop | OwnerStep | ThiefStep(k: nat)

  function Init(cap: nat, thieves: nat): State {
    State(cap, 0, 0, seq(cap, _ => false), seq(cap, _ => 0), Idle, seq(thieves, _ => Rest), 0, [])
  }

  /** The physical slot of an index: `& mask` for a power-of-two capacity. */
  function Slot(cap: nat, i: int): nat
    requires cap > 0
  {
    i % cap
  }

  predicate Shaped(s: State) {
    s.cap >= 2 && |s.full| == |s.buffer| == s.cap
  }

  /** The owner's next atomic step inside push or pop. */
  function OwnerNext(s: State): State
    requires Shaped(s)
  {
    match s.owner
    case Idle => s
    case PushChecked(b) => s.(owner := if s.full[Slot(s.cap, b)] then Idle else PushGated(b))
    case PushGated(b) => s.(buffer := s.buffer[Slot(s.cap, b) := s.next], owner := PushWritten(b))
    case PushWritten(b) => s.(full := s.full[Slot(s.cap, b) := true], owner := PushMarked(b))
    case PushMarked(b) => s.(bottom := b + 1, next := s.next + 1, owner := Idle)
    case PopLowered(b) =>
      s.(owner := if s.top < b then PopTake(b, false) else if s.top == b then PopLast(b) else PopRestore(b))
    case PopLast(b) => if s.top == b then s.(top := b + 1, owner := PopTake(b, true)) else s.(owner := PopRestore(b))
    case PopTake(b, last) => s.(owner := PopRead(b, last, s.buffer[Slot(s.cap, b)]))
    case PopRead(b, last, item) =>
      var freed := s.(full := s.full[Slot(s.cap, b) := false]);
      if last then freed.(owner := PopFreed(b, item)) else freed.(owner := Idle, returned := s.returned + [item])
    case PopFreed(b, item) => s.(bottom := b + 1, owner := Idle, returned := s.returned + [item])
    case PopRestore(b) => s.(bottom := b + 1, owner := Idle)
  }

  /** Thief k's next atomic step inside steal. The branch after Won that finds the slot not
      FULL is the source's defensive Busy return. */
  function ThiefNext(s: State, k: nat): State
    requires Shaped(s) && k < |s.thieves|
  {
    match s.thieves[k]
    case Rest => s.(thieves := s.thieves[k := SawTop(s.top)])
    case SawTop(t) => s.(thieves := s.thieves[k := if t >= s.bottom then Rest else SawBoth(t)])
    case SawBoth(t) =>
      if s.top == t then s.(top := t + 1, thieves := s.thieves[k := Won(t)]) else s.(thieves := s.thieves[k := Rest])
    case Won(t) => s.(thieves := s.thieves[k := if s.full[Slot(s.cap, t)] then SawFull(t) else Rest])
    case SawFull(t) => s.(thieves := s.thieves[k := Taken(t, s.buffer[Slot(s.cap, t)])])
    case Taken(t, item) =>
      s.(full := s.full[Slot(s.cap, t) := false], thieves := s.thieves[k := Rest], returned := s.returned + [item])
  }

  function Next(s: State, a: Action): State
    requires Shaped(s)
  {
    match a
    case StartPush =>
      if s.owner != Idle || s.bottom - s.top >= s.cap - 1 then s else s.(owner := PushChecked(s.bottom))
    case StartPop =>
      if s.owner != Idle then s else s.(bottom := s.bottom - 1, owner := PopLowered(s.bottom - 1))
    case OwnerStep => OwnerNext(s)
    case ThiefStep(k) => if k < |s.thieves| then ThiefNext(s, k) else s
  }

  /** The state after a finite interleaving. */
  ghost function Exec(s: State, run: seq<Action>): State
    requires Shaped(s)
    decreases |run|
  {
    if run == [] then s
    else
      var before := Exec(s, run[..|run| - 1]);
      if Shaped(before) then Next(before, run[|run| - 1]) else before
  }

  // ---- Where an element is ----

  datatype Place = Queue(i: int) | Owner | Thief(k: nat) | Out(k: nat)

  /** One past the last index that can still be taken. */
  function Limit(s: State): int {
    match s.owner
    case PopLowered(_) | PopLast(_) | PopFreed(_, _) | PopRestore(_) => s.bottom + 1
    case PopTake(_, last) => if last then s.bottom + 1 else s.bottom
    case PopRead(_, last, _) => if last then s.bottom + 1 else s.bottom
    case _ => s.bottom
  }

  ghost predicate OwnerHas(s: State, x: nat)
    requires Shaped(s)
  {
    match s.owner
    case PopTake(b, _) => s.buffer[Slot(s.cap, b)] == x
    case PopRead(_, _, item) => item == x
    case PopFreed(_, item) => item == x
    case _ => false
  }

  ghost predicate ThiefHas(s: State, k: nat, x: nat)
    requires Shaped(s) && k < |s.thieves|
  {
    match s.thieves[k]
    case Won(t) => s.buffer[Slot(s.cap, t)] == x
    case SawFull(t) => s.buffer[Slot(s.cap, t)] == x
    case Taken(_, item) => item == x
    case _ => false
  }

  ghost predicate At(s: State, x: nat, p: Place)
    requires Shaped(s)
  {
    match p
    case Queue(i) => s.top <= i < Limit(s) && s.buffer[Slot(s.cap, i)] == x
    case Owner => OwnerHas(s, x)
    case Thief(k) => k < |s.thieves| && ThiefHas(s, k, x)
    case Out(k) => k < |s.returned| && s.returned[k] == x
  }

  /** The physical slot a party may touch. */
  ghost predicate OwnerTouches(s: State, slot: nat)
    requires Shaped(s)
  {
    match s.owner
    case PushGated(b) => slot == Slot(s.cap, b)
    case PushWritten(b) => slot == Slot(s.cap, b)
    case PushMarked(b) => slot == Slot(s.cap, b)
    case PopTake(b, _) => slot == Slot(s.cap, b)
    case PopRead(b, _, _) => slot == Slot(s.cap, b)
    case _ => false
  }

  ghost predicate ThiefTouches(s: State, k: nat, slot: nat)
    requires Shaped(s) && k < |s.thieves|
  {
    match s.thieves[k]
    case Won(t) => slot == Slot(s.cap, t)
    case SawFull(t) => slot == Slot(s.cap, t)
    case Taken(t, _) => slot == Slot(s.cap, t)
    case _ => false
  }

  // ---- The invariant: `home` gives every token its one place ----

  ghost predicate Homed(home: map<nat, Place>, x: nat, p: Place) {
    x in home && home[x] == p
  }

  ghost predicate OwnerOk(s: State, home: map<nat, Place>)
    requires Shaped(s)
  {
    match s.owner
    case Idle => true
    case PushChecked(b) => s.bottom == b
    case PushGated(b) => s.bottom == b && !s.full[Slot(s.cap, b)]
    case PushWritten(b) => s.bottom == b && !s.full[Slot(s.cap, b)] && s.buffer[Slot(s.cap, b)] == s.next
    case PushMarked(b) => s.bottom == b && s.full[Slot(s.cap, b)] && s.buffer[Slot(s.cap, b)] == s.next
    case PopLowered(b) => s.bottom == b
    case PopLast(b) => s.bottom == b && s.top >= b
    case PopTake(b, last) =>
      && s.bottom == b && (last ==> s.top == b + 1)
      && s.full[Slot(s.cap, b)] && Homed(home, s.buffer[Slot(s.cap, b)], Owner)
    case PopRead(b, last, item) =>
      && s.bottom == b && (last ==> s.top == b + 1)
      && s.full[Slot(s.cap, b)] && s.buffer[Slot(s.cap, b)] == item && Homed(home, item, Owner)
    case PopFreed(b, item) => s.bottom == b && s.top == b + 1 && Homed(home, item, Owner)
    case PopRestore(b) => s.bottom == b && s.top == b + 1
  }

  ghost predicate ThiefOk(s: State, home: map<nat, Place>, k: nat)
    requires Shaped(s) && k < |s.thieves|
  {
    match s.thieves[k]
    case Rest => true
    case SawTop(t) => 0 <= t <= s.top
    case SawBoth(t) => 0 <= t <= s.top && (t == s.top ==> t < Limit(s))
    case Won(t) => s.full[Slot(s.cap, t)] && Homed(home, s.buffer[Slot(s.cap, t)], Thief(k))
    case SawFull(t) => s.full[Slot(s.cap, t)] && Homed(home, s.buffer[Slot(s.cap, t)], Thief(k))
    case Taken(t, item) => s.full[Slot(s.cap, t)] && s.buffer[Slot(s.cap, t)] == item && Homed(home, item, Thief(k))
  }

  ghost predicate QueueOk(s: State, home: map<nat, Place>, i: int)
    requires Shaped(s)
  {
    s.full[Slot(s.cap, i)] && Homed(home, s.buffer[Slot(s.cap, i)], Queue(i))
  }

  /** Every place holds a token whose home it is. */
  ghost predicate Owned(s: State, home: map<nat, Place>) {
    && Shaped(s)
    && 0 <= s.top <= Limit(s)
    && (forall x: nat :: x in home <==> x < s.next)
    && OwnerOk(s, home)
    && (forall k :: 0 <= k < |s.thieves| ==> ThiefOk(s, home, k))
    && (forall i :: s.top <= i < Limit(s) ==> QueueOk(s, home, i))
    && (forall k :: 0 <= k < |s.returned| ==> Homed(home, s.returned[k], Out(k)))
  }

  /** Every token is at its home. */
  ghost predicate Present(s: State, home: map<nat, Place>)
    requires Shaped(s)
  {
    forall x: nat :: x in home ==> At(s, x, home[x])
  }

  /** Older elements sit below newer ones. */
  ghost predicate Rising(s: State)
    requires Shaped(s)
  {
    forall i, j :: s.top <= i < j < Limit(s) ==> s.buffer[Slot(s.cap, i)] < s.buffer[Slot(s.cap, j)]
  }

  ghost predicate Inv(s: State, home: map<nat, Place>) {
    Owned(s, home) && Present(s, home) && Rising(s)
  }

  lemma InitInv(cap: nat, thieves: nat)
    requires cap >= 2
    ensures Inv(Init(cap, thieves), map[])
  {
  }

  /** The one token whose place an owner step changes. */
  ghost function OwnerHome(s: State, home: map<nat, Place>): map<nat, Place>
    requires Shaped(s)
  {
    match s.owner
    case PushMarked(b) => home[s.next := Queue(b)]
    case PopLowered(b) => if s.top < b then home[s.buffer[Slot(s.cap, b)] := Owner] else home
    case PopLast(b) => if s.top == b then home[s.buffer[Slot(s.cap, b)] := Owner] else home
    case PopRead(b, last, item) => if last then home else home[item := Out(|s.returned|)]
    case PopFreed(b, item) => home[item := Out(|s.returned|)]
    case _ => home
  }

  ghost function ThiefHome(s: State, home: map<nat, Place>, k: nat): map<nat, Place>
    requires Shaped(s) && k < |s.thieves|
  {
    match s.thieves[k]
    case SawBoth(t) => if s.top == t then home[s.buffer[Slot(s.cap, t)] := Thief(k)] else home
    case Taken(t, item) => home[item := Out(|s.returned|)]
    case _ => home
  }

  /** The parts of the invariant an owner step depends on. */
  ghost predicate OwnerReady(s: State, home: map<nat, Place>) {
    && Shaped(s) && 0 <= s.top <= Limit(s) && OwnerOk(s, home)
    && (forall x: nat :: x in home <==> x < s.next)
    && (s.top < Limit(s) ==> QueueOk(s, home, Limit(s) - 1))
  }

  lemma OwnerSparesThief(s: State, home: map<nat, Place>, k: nat)
    requires OwnerReady(s, home) && k < |s.thieves| && ThiefOk(s, home, k)
    ensures ThiefOk(OwnerNext(s), OwnerHome(s, home), k)
  {
  }

  lemma OwnerSparesQueue(s: State, home: map<nat, Place>, i: int)
    requires OwnerReady(s, home)
    requires s.top <= i < Limit(s) ==> QueueOk(s, home, i)
    ensures var n := OwnerNext(s); n.top <= i < Limit(n) ==> QueueOk(n, OwnerHome(s, home), i)
  {
  }

  lemma OwnerAdvances(s: State, home: map<nat, Place>)
    requires OwnerReady(s, home)
    ensures var n := OwnerNext(s); Shaped(n) && 0 <= n.top <= Limit(n) && OwnerOk(n, OwnerHome(s, home))
    ensures forall x: nat :: x in OwnerHome(s, home) <==> x < OwnerNext(s).next
  {
  }

  lemma OwnerReturns(s: State, home: map<nat, Place>, k: nat)
    requires OwnerReady(s, home) && k < |OwnerNext(s).returned|
    requires k < |s.returned| ==> Homed(home, s.returned[k], Out(k))
    ensures Homed(OwnerHome(s, home), OwnerNext(s).returned[k], Out(k))
  {
  }

  lemma OwnerOwned(s: State, home: map<nat, Place>)
    requires Inv(s, home)
    ensures Owned(OwnerNext(s), OwnerHome(s, home))
  {
    var n, home' := OwnerNext(s), OwnerHome(s, home);
    assert OwnerReady(s, home);
    forall k | 0 <= k < |n.thieves|
      ensures ThiefOk(n, home', k)
    {
      OwnerSparesThief(s, home, k);
    }
    forall i | n.top <= i < Limit(n)
      ensures QueueOk(n, home', i)
    {
      OwnerSparesQueue(s, home, i);
    }
    forall k | 0 <= k < |n.returned|
      ensures Homed(home', n.returned[k], Out(k))
    {
      OwnerReturns(s, home, k);
    }
    OwnerAdvances(s, home);
  }

  lemma OwnerSparesToken(s: State, home: map<nat, Place>, x: nat)
    requires OwnerReady(s, home) && x in home && At(s, x, home[x])
    requires match home[x]
             case Queue(i) => QueueOk(s, home, i)
             case Thief(k) => ThiefOk(s, home, k)
             case _ => true
    ensures At(OwnerNext(s), x, OwnerHome(s, home)[x])
  {
    if s.owner.Idle? || s.owner.PushChecked? || s.owner.PushGated? || s.owner.PushWritten? || s.owner.PushMarked? {
      PushSparesToken(s, home, x);
    } else {
      PopSparesToken(s, home, x);
    }
  }

  /** The token's place is in order. */
  ghost predicate PlaceOk(s: State, home: map<nat, Place>, x: nat) {
    && OwnerReady(s, home) && x in home && At(s, x, home[x])
    && match home[x]
       case Queue(i) => QueueOk(s, home, i)
       case Thief(k) => ThiefOk(s, home, k)
       case _ => true
  }

  lemma PushSparesToken(s: State, home: map<nat, Place>, x: nat)
    requires PlaceOk(s, home, x)
    requires s.owner.Idle? || s.owner.PushChecked? || s.owner.PushGated? || s.owner.PushWritten? || s.owner.PushMarked?
    ensures At(OwnerNext(s), x, OwnerHome(s, home)[x])
  {
  }

  lemma PopSparesToken(s: State, home: map<nat, Place>, x: nat)
    requires PlaceOk(s, home, x)
    requires !(s.owner.Idle? || s.owner.PushChecked? || s.owner.PushGated? || s.owner.PushWritten? || s.owner.PushMarked?)
    ensures At(OwnerNext(s), x, OwnerHome(s, home)[x])
  {
  }

  lemma OwnerPresent(s: State, home: map<nat, Place>)
    requires Inv(s, home)
    ensures Present(OwnerNext(s), OwnerHome(s, home))
  {
    var n, home' := OwnerNext(s), OwnerHome(s, home);
    assert OwnerReady(s, home);
    forall x: nat | x in home'
      ensures At(n, x, home'[x])
    {
      if x in home {
        OwnerSparesToken(s, home, x);
      }
    }
  }

  lemma OwnerRising(s: State, home: map<nat, Place>)
    requires Inv(s, home)
    ensures Rising(OwnerNext(s))
  {
    forall i | s.top <= i < Limit(s)
      ensures s.buffer[Slot(s.cap, i)] < s.next && s.full[Slot(s.cap, i)]
    {
      assert QueueOk(s, home, i);
    }
  }

  /** The parts of the invariant a step of thief k depends on. */
  ghost predicate ThiefReady(s: State, home: map<nat, Place>, k: nat) {
    && Shaped(s) && 0 <= s.top <= Limit(s) && k < |s.thieves| && ThiefOk(s, home, k)
    && (s.top < Limit(s) ==> QueueOk(s, home, s.top))
  }

  lemma ThiefSparesOwner(s: State, home: map<nat, Place>, k: nat)
    requires ThiefReady(s, home, k) && OwnerOk(s, home) && forall x: nat :: x in home ==> x < s.next
    ensures OwnerOk(ThiefNext(s, k), ThiefHome(s, home, k))
  {
  }

  lemma ThiefSparesThief(s: State, home: map<nat, Place>, k: nat, j: nat)
    requires ThiefReady(s, home, k) && j < |s.thieves| && ThiefOk(s, home, j)
    ensures ThiefOk(ThiefNext(s, k), ThiefHome(s, home, k), j)
  {
  }

  lemma ThiefSparesQueue(s: State, home: map<nat, Place>, k: nat, i: int)
    requires ThiefReady(s, home, k) && s.top <= i < Limit(s) && QueueOk(s, home, i)
    ensures var n := ThiefNext(s, k); n.top <= i ==> QueueOk(n, ThiefHome(s, home, k), i)
  {
  }

  lemma ThiefOwned(s: State, home: map<nat, Place>, k: nat)
    requires Inv(s, home) && k < |s.thieves|
    ensures Owned(ThiefNext(s, k), ThiefHome(s, home, k))
  {
    var n, home' := ThiefNext(s, k), ThiefHome(s, home, k);
    assert ThiefReady(s, home, k);
    ThiefSparesOwner(s, home, k);
    forall j | 0 <= j < |n.thieves|
      ensures ThiefOk(n, home', j)
    {
      ThiefSparesThief(s, home, k, j);
    }
    forall i | n.top <= i < Limit(n)
      ensures QueueOk(n, home', i)
    {
      ThiefSparesQueue(s, home, k, i);
    }
  }

  lemma ThiefPresent(s: State, home: map<nat, Place>, k: nat)
    requires Inv(s, home) && k < |s.thieves|
    ensures Present(ThiefNext(s, k), ThiefHome(s, home, k))
  {
    var n, home' := ThiefNext(s, k), ThiefHome(s, home, k);
    assert ThiefReady(s, home, k);
    forall x: nat | x in home'
      ensures At(n, x, home'[x])
    {
      assert x in home ==> At(s, x, home[x]);
    }
  }

  lemma OwnerKeeps(s: State, home: map<nat, Place>)
    requires Inv(s, home)
    ensures Inv(OwnerNext(s), OwnerHome(s, home))
  {
    OwnerOwned(s, home);
    OwnerPresent(s, home);
    OwnerRising(s, home);
  }

  lemma ThiefKeeps(s: State, home: map<nat, Place>, k: nat)
    requires Inv(s, home) && k < |s.thieves|
    ensures Inv(ThiefNext(s, k), ThiefHome(s, home, k))
  {
    ThiefOwned(s, home, k);
    ThiefPresent(s, home, k);
  }

  /** One step, by anyone, keeps the invariant. */
  lemma StepKeeps(s: State, home: map<nat, Place>, a: Action) returns (home': map<nat, Place>)
    requires Inv(s, home)
    ensures Inv(Next(s, a), home')
  {
    home' := home;
    if a == OwnerStep {
      home' := OwnerHome(s, home);
      OwnerKeeps(s, home);
    } else if a.ThiefStep? && a.k < |s.thieves| {
      home' := ThiefHome(s, home, a.k);
      ThiefKeeps(s, home, a.k);
    } else {
      StartKeeps(s, home, a);
    }
  }

  lemma StartKeeps(s: State, home: map<nat, Place>, a: Action)
    requires Inv(s, home) && (a == StartPush || a == StartPop || (a.ThiefStep? && a.k >= |s.thieves|))
    ensures Inv(Next(s, a), home)
  {
    var n := Next(s, a);
    assert Limit(n) == Limit(s);
    forall k | 0 <= k < |n.thieves|
      ensures ThiefOk(n, home, k)
    {
      assert ThiefOk(s, home, k);
    }
    forall i | n.top <= i < Limit(n)
      ensures QueueOk(n, home, i)
    {
      assert QueueOk(s, home, i);
    }
    forall x: nat | x in home
      ensures At(n, x, home[x])
    {
      assert At(s, x, home[x]);
    }
  }

  /** Every interleaving of every length keeps the invariant. */
  lemma {:induction false} RunKeeps(cap: nat, thieves: nat, run: seq<Action>) returns (home: map<nat, Place>)
    requires cap >= 2
    ensures Inv(Exec(Init(cap, thieves), run), home)
    decreases |run|
  {
    if run == [] {
      InitInv(cap, thieves);
      home := map[];
    } else {
      var before := RunKeeps(cap, thieves, run[..|run| - 1]);
      home := StepKeeps(Exec(Init(cap, thieves), run[..|run| - 1]), before, run[|run| - 1]);
    }
  }

  // ---- What the invariant says ----

  lemma PlaceIsHome(s: State, home: map<nat, Place>, x: nat, p: Place)
    requires Inv(s, home) && At(s, x, p)
    ensures Homed(home, x, p)
  {
    match p
    case Queue(i) => assert QueueOk(s, home, i);
    case Owner =>
    case Thief(k) => assert ThiefOk(s, home, k);
    case Out(k) =>
  }

  /** In every interleaving each accepted element is in exactly one place: nothing is lost,
      nothing is taken or returned twice. */
  lemma ExactlyOnce(cap: nat, thieves: nat, run: seq<Action>, x: nat)
    requires cap >= 2
    ensures var s := Exec(Init(cap, thieves), run);
            && Shaped(s)
            && (x < s.next <==> exists p :: At(s, x, p))
            && (forall p, q :: At(s, x, p) && At(s, x, q) ==> p == q)
  {
    var s := Exec(Init(cap, thieves), run);
    var home := RunKeeps(cap, thieves, run);
    forall p | At(s, x, p)
      ensures Homed(home, x, p)
    {
      PlaceIsHome(s, home, x, p);
    }
    assert x < s.next ==> At(s, x, home[x]);
  }

  /** No two parties may touch the same physical slot, and no touched slot backs a queued index. */
  lemma SlotsExclusive(cap: nat, thieves: nat, run: seq<Action>, slot: nat)
    requires cap >= 2
    ensures var s := Exec(Init(cap, thieves), run);
            && Shaped(s)
            && (forall k :: 0 <= k < |s.thieves| && ThiefTouches(s, k, slot) ==> !OwnerTouches(s, slot))
            && (forall j, k :: 0 <= j < k < |s.thieves| && ThiefTouches(s, j, slot) ==> !ThiefTouches(s, k, slot))
            && (forall i :: s.top <= i < Limit(s) && Slot(s.cap, i) == slot ==>
                  !OwnerTouches(s, slot) && forall k :: 0 <= k < |s.thieves| ==> !ThiefTouches(s, k, slot))
  {
    var s := Exec(Init(cap, thieves), run);
    var home := RunKeeps(cap, thieves, run);
    forall k | 0 <= k < |s.thieves| && ThiefTouches(s, k, slot)
      ensures s.full[slot] && Homed(home, s.buffer[slot], Thief(k)) && !OwnerTouches(s, slot)
    {
      assert ThiefOk(s, home, k);
    }
    forall i | s.top <= i < Limit(s) && Slot(s.cap, i) == slot
      ensures s.full[slot] && Homed(home, s.buffer[slot], Queue(i))
    {
      assert QueueOk(s, home, i);
    }
  }

  /** After a won compare-exchange the slot is FULL: the defensive Busy return is unreachable. */
  lemma WonSlotIsFull(cap: nat, thieves: nat, run: seq<Action>, k: nat)
    requires cap >= 2
    ensures var s := Exec(Init(cap, thieves), run);
            Shaped(s) && (k < |s.thieves| && s.thieves[k].Won? ==> s.full[Slot(s.cap, s.thieves[k].t)])
  {
    var s := Exec(Init(cap, thieves), run);
    var home := RunKeeps(cap, thieves, run);
    assert k < |s.thieves| ==> ThiefOk(s, home, k);
  }

  /** A thief that wins takes the oldest queued element; an owner that wins takes the newest. */
  lemma OldestOrNewest(cap: nat, thieves: nat, run: seq<Action>, i: int)
    requires cap >= 2
    ensures var s := Exec(Init(cap, thieves), run);
            && Shaped(s)
            && (s.top < i < Limit(s) ==> s.buffer[Slot(s.cap, s.top)] < s.buffer[Slot(s.cap, i)])
            && (s.top <= i < Limit(s) - 1 ==> s.buffer[Slot(s.cap, i)] < s.buffer[Slot(s.cap, Limit(s) - 1)])
            && (s.owner.PopLowered? && s.top <= s.owner.b ==> s.owner.b == Limit(s) - 1)
            && (forall k :: 0 <= k < |s.thieves| && s.thieves[k].SawBoth? && s.thieves[k].t == s.top ==> s.top < Limit(s))
  {
    var s := Exec(Init(cap, thieves), run);
    var home := RunKeeps(cap, thieves, run);
    forall k | 0 <= k < |s.thieves| && s.thieves[k].SawBoth? && s.thieves[k].t == s.top
      ensures s.top < Limit(s)
    {
      assert ThiefOk(s, home, k);
    }
  }

  /** With nobody inside an operation, what was not returned is exactly what a final drain of
      [top, bottom) finds. */
  lemma QuiescentDrain(cap: nat, thieves: nat, run: seq<Action>, x: nat)
    requires cap >= 2
    requires var s := Exec(Init(cap, thieves), run);
             s.owner == Idle && forall k :: 0 <= k < |s.thieves| ==> s.thieves[k] == Rest
    ensures var s := Exec(Init(cap, thieves), run);
            && Shaped(s)
            && (x < s.next <==> x in s.returned || exists i :: s.top <= i < s.bottom && s.buffer[Slot(s.cap, i)] == x)
            && !(x in s.returned && exists i :: s.top <= i < s.bottom && s.buffer[Slot(s.cap, i)] == x)
  {
    var s := Exec(Init(cap, thieves), run);
    ExactlyOnce(cap, thieves, run, x);
    if x in s.returned {
      var k :| 0 <= k < |s.returned| && s.returned[k] == x;
      assert At(s, x, Out(k));
    }
    forall i | s.top <= i < s.bottom && s.buffer[Slot(s.cap, i)] == x
      ensures At(s, x, Queue(i))
    {
    }
    if x < s.next {
      var p :| At(s, x, p);
      assert p.Queue? || p.Out?;
    }
  }

  // ---- The capacity bound ----

  /** At most capacity - 1 indices are ever open, and a push in progress has room for its own. */
  ghost predicate WithinCapacity(s: State) {
    && Limit(s) - s.top <= s.cap - 1
    && (s.owner.PushChecked? || s.owner.PushGated? || s.owner.PushWritten? || s.owner.PushMarked? ==>
          s.owner.b - s.top < s.cap - 1)
  }

  lemma CapacityKept(s: State, home: map<nat, Place>, a: Action)
    requires Inv(s, home) && WithinCapacity(s)
    ensures WithinCapacity(Next(s, a)) && Next(s, a).cap == s.cap
  {
  }

  /** In every interleaving the open range keeps the gap the last-element race relies on. */
  lemma {:induction false} CapacityBound(cap: nat, thieves: nat, run: seq<Action>)
    requires cap >= 2
    ensures var s := Exec(Init(cap, thieves), run); s.cap == cap && WithinCapacity(s)
    decreases |run|
  {
    if run != [] {
      CapacityBound(cap, thieves, run[..|run| - 1]);
      var home := RunKeeps(cap, thieves, run[..|run| - 1]);
      CapacityKept(Exec(Init(cap, thieves), run[..|run| - 1]), home, run[|run| - 1]);
    }
  }

  // ---- No slot is stranded ----

  /** Somebody answers for a FULL slot: a queued index, the owner, or a thief. */
  ghost predicate Backed(s: State, slot: nat)
    requires Shaped(s)
  {
    || (exists i :: s.top <= i < Limit(s) && Slot(s.cap, i) == slot)
    || OwnerTouches(s, slot)
    || (exists k :: 0 <= k < |s.thieves| && ThiefTouches(s, k, slot))
  }

  ghost predicate FullIsBacked(s: State, slot: nat)
    requires Shaped(s)
  {
    slot < s.cap && s.full[slot] ==> Backed(s, slot)
  }

  lemma OwnerStaysBacked(s: State, home: map<nat, Place>, slot: nat)
    requires Inv(s, home) && FullIsBacked(s, slot)
    ensures FullIsBacked(OwnerNext(s), slot)
  {
    var n := OwnerNext(s);
    if slot < s.cap && n.full[slot] && s.full[slot] {
      if i :| s.top <= i < Limit(s) && Slot(s.cap, i) == slot {
        assert n.top <= i < Limit(n) || OwnerTouches(n, slot);
      } else if k :| 0 <= k < |s.thieves| && ThiefTouches(s, k, slot) {
        assert ThiefTouches(n, k, slot);
      } else if s.owner.PushMarked? {
        assert n.top <= s.owner.b < Limit(n);
      }
    }
  }

  lemma ThiefStaysBacked(s: State, home: map<nat, Place>, k: nat, slot: nat)
    requires Inv(s, home) && k < |s.thieves| && FullIsBacked(s, slot)
    ensures FullIsBacked(ThiefNext(s, k), slot)
  {
    var n := ThiefNext(s, k);
    if slot < s.cap && n.full[slot] {
      if i :| s.top <= i < Limit(s) && Slot(s.cap, i) == slot {
        assert n.top <= i < Limit(n) || ThiefTouches(n, k, slot);
      } else if j :| 0 <= j < |s.thieves| && ThiefTouches(s, j, slot) {
        ThiefStillTouches(s, k, j, slot);
      }
    }
  }

  lemma ThiefStillTouches(s: State, k: nat, j: nat, slot: nat)
    requires Shaped(s) && k < |s.thieves| && j < |s.thieves| && ThiefTouches(s, j, slot)
    requires slot < s.cap && ThiefNext(s, k).full[slot]
    ensures ThiefTouches(ThiefNext(s, k), j, slot)
  {
  }

  lemma StartStaysBacked(s: State, home: map<nat, Place>, a: Action, slot: nat)
    requires Inv(s, home) && FullIsBacked(s, slot) && (a.StartPush? || a.StartPop?)
    ensures FullIsBacked(Next(s, a), slot)
  {
    var n := Next(s, a);
    if slot < s.cap && n.full[slot] {
      if i :| s.top <= i < Limit(s) && Slot(s.cap, i) == slot {
        assert n.top <= i < Limit(n);
      } else if k :| 0 <= k < |s.thieves| && ThiefTouches(s, k, slot) {
        assert ThiefTouches(n, k, slot);
      }
    }
  }

  /** In every interleaving every FULL slot has somebody who will free it. */
  lemma {:induction false} NoSlotStranded(cap: nat, thieves: nat, run: seq<Action>, slot: nat)
    requires cap >= 2
    ensures var s := Exec(Init(cap, thieves), run); Shaped(s) && FullIsBacked(s, slot)
    decreases |run|
  {
    if run != [] {
      var most, a := run[..|run| - 1], run[|run| - 1];
      NoSlotStranded(cap, thieves, most, slot);
      var home := RunKeeps(cap, thieves, most);
      var s := Exec(Init(cap, thieves), most);
      match a {
        case OwnerStep => OwnerStaysBacked(s, home, slot);
        case ThiefStep(k) =>
          if k < |s.thieves| {
            ThiefStaysBacked(s, home, k, slot);
          }
        case _ => StartStaysBacked(s, home, a, slot);
      }
    }
  }

  // ---- Undisturbed operations succeed ----

  ghost predicate Quiet(s: State) {
    Shaped(s) && s.owner == Idle && forall k :: 0 <= k < |s.thieves| ==> s.thieves[k] == Rest
  }

  ghost predicate Reachable(s: State, cap: nat, thieves: nat)
    requires cap >= 2
  {
    Shaped(s) && exists run :: Exec(Init(cap, thieves), run) == s
  }

  /** The same action n times. */
  function Repeat(a: Action, n: nat): (r: seq<Action>)
    ensures |r| == n
  {
    seq(n, _ => a)
  }

  lemma ExecFirst(s: State, a: Action)
    requires Shaped(s)
    ensures Exec(s, [a] + Repeat(a, 0)) == Exec(s, [a]) == Next(s, a)
  {
    assert [a] + Repeat(a, 0) == [a] && [a][..0] == [];
  }

  /** One more repetition is one more step. */
  lemma ExecMore(s: State, run: seq<Action>, a: Action, n: nat)
    requires Shaped(s) && Shaped(Exec(s, run + Repeat(a, n)))
    ensures Exec(s, run + Repeat(a, n + 1)) == Next(Exec(s, run + Repeat(a, n)), a)
  {
    var more := run + Repeat(a, n + 1);
    assert more[..|more| - 1] == run + Repeat(a, n);
  }

  lemma {:induction false} ExecThen(s: State, a: seq<Action>, b: seq<Action>)
    requires Shaped(s) && Shaped(Exec(s, a))
    ensures Exec(s, a + b) == Exec(Exec(s, a), b)
    decreases |b|
  {
    if b == [] {
      assert a + b == a;
    } else {
      ExecThen(s, a, b[..|b| - 1]);
      assert (a + b)[..|a + b| - 1] == a + b[..|b| - 1];
    }
  }

  lemma ReachExec(s: State, cap: nat, thieves: nat, run: seq<Action>)
    requires cap >= 2 && Reachable(s, cap, thieves) && Shaped(Exec(s, run))
    ensures Reachable(Exec(s, run), cap, thieves)
  {
    var before :| Exec(Init(cap, thieves), before) == s;
    ExecThen(Init(cap, thieves), before, run);
  }

  /** With room and nobody busy, the slot behind the last element is FREE. */
  lemma RoomIsFree(s: State, cap: nat, thieves: nat)
    requires cap >= 2 && Reachable(s, cap, thieves) && Quiet(s) && s.bottom - s.top < s.cap
    ensures !s.full[Slot(s.cap, s.bottom)]
  {
    var run :| Exec(Init(cap, thieves), run) == s;
    var slot := Slot(s.cap, s.bottom);
    NoSlotStranded(cap, thieves, run, slot);
    forall i | s.top <= i < s.bottom
      ensures Slot(s.cap, i) != slot
    {
      Apart(s.cap, i, s.bottom);
    }
  }

  /** An undisturbed push is accepted exactly when fewer than capacity - 1 elements are queued: then
      the element goes to the bottom, else nothing changes. */
  lemma PushExactly(s: State, cap: nat, thieves: nat) returns (t: State)
    requires cap >= 2 && Reachable(s, cap, thieves) && Quiet(s)
    ensures t == Exec(s, [StartPush] + Repeat(OwnerStep, 4)) && Quiet(t)
    ensures s.bottom - s.top >= s.cap - 1 ==> t == s
    ensures s.bottom - s.top < s.cap - 1 ==>
              && t.next == s.next + 1 && t.bottom == s.bottom + 1 && t.top == s.top && t.returned == s.returned
              && t.buffer == s.buffer[Slot(s.cap, s.bottom) := s.next]
  {
    ExecFirst(s, StartPush);
    if s.bottom - s.top < s.cap - 1 {
      t := PushSucceeds(s, cap, thieves);
    } else {
      assert Exec(s, [StartPush]) == s;
      t := IdleSteps(s, [StartPush], 4);
    }
  }

  /** Steps of an owner outside any operation change nothing. */
  lemma {:induction false} IdleSteps(s: State, run: seq<Action>, n: nat) returns (t: State)
    requires Shaped(s) && Shaped(Exec(s, run)) && Exec(s, run).owner == Idle
    ensures t == Exec(s, run + Repeat(OwnerStep, n)) == Exec(s, run)
  {
    if n == 0 {
      assert run + Repeat(OwnerStep, 0) == run;
      t := Exec(s, run);
    } else {
      t := IdleSteps(s, run, n - 1);
      ExecMore(s, run, OwnerStep, n - 1);
    }
  }

  lemma PushSucceeds(s: State, cap: nat, thieves: nat) returns (t: State)
    requires cap >= 2 && Reachable(s, cap, thieves) && Quiet(s) && s.bottom - s.top < s.cap - 1
    ensures t == Exec(s, [StartPush] + Repeat(OwnerStep, 4)) && Quiet(t)
    ensures t.next == s.next + 1 && t.bottom == s.bottom + 1 && t.top == s.top && t.returned == s.returned
    ensures t.buffer == s.buffer[Slot(s.cap, s.bottom) := s.next]
  {
    RoomIsFree(s, cap, thieves);
    var run, b, slot := [StartPush], s.bottom, Slot(s.cap, s.bottom);
    ExecFirst(s, StartPush);
    assert run + Repeat(OwnerStep, 0) == run;
    ExecMore(s, run, OwnerStep, 0);
    var u := s.(owner := PushGated(b));
    assert Exec(s, run + Repeat(OwnerStep, 1)) == u;
    ExecThree(s, run, OwnerStep, 1);
    t := PushEnds(u, b);
  }

  /** The end of a push that has seen its slot free. */
  lemma PushEnds(u: State, b: int) returns (t: State)
    requires Shaped(u) && u.owner == PushGated(b)
    ensures Shaped(OwnerNext(u)) && Shaped(OwnerNext(OwnerNext(u))) && t == OwnerNext(OwnerNext(OwnerNext(u)))
    ensures Shaped(t) && t.owner == Idle && t.thieves == u.thieves && t.cap == u.cap
    ensures t.next == u.next + 1 && t.bottom == b + 1 && t.top == u.top && t.returned == u.returned
    ensures t.buffer == u.buffer[Slot(u.cap, b) := u.next]
  {
    t := OwnerNext(u);
    assert t == u.(buffer := u.buffer[Slot(u.cap, b) := u.next], owner := PushWritten(b));
    t := OwnerNext(t);
    t := OwnerNext(t);
  }

  lemma NextShaped(s: State, a: Action)
    requires Shaped(s)
    ensures Shaped(Next(s, a))
  {
  }

  /** Three more repetitions, step by step. */
  lemma ExecThree(s: State, run: seq<Action>, a: Action, n: nat)
    requires Shaped(s) && Shaped(Exec(s, run + Repeat(a, n)))
    ensures var u := Exec(s, run + Repeat(a, n));
            && Shaped(Next(u, a)) && Shaped(Next(Next(u, a), a))
            && Exec(s, run + Repeat(a, n + 2)) == Next(Next(u, a), a)
            && Exec(s, run + Repeat(a, n + 3)) == Next(Next(Next(u, a), a), a)
  {
    var u := Exec(s, run + Repeat(a, n));
    NextShaped(u, a);
    NextShaped(Next(u, a), a);
    ExecMore(s, run, a, n);
    ExecMore(s, run, a, n + 1);
    ExecMore(s, run, a, n + 2);
  }

  /** The end of a pop that won index b. */
  lemma PopEnds(u: State, b: int, last: bool) returns (t: State)
    requires Shaped(u) && u.owner == PopTake(b, last) && u.bottom == b
    ensures Shaped(OwnerNext(u)) && Shaped(OwnerNext(OwnerNext(u)))
    ensures t == if last then OwnerNext(OwnerNext(OwnerNext(u))) else OwnerNext(OwnerNext(u))
    ensures Shaped(t) && t.owner == Idle && t.thieves == u.thieves && t.top == u.top && t.next == u.next
    ensures t.returned == u.returned + [u.buffer[Slot(u.cap, b)]] && t.bottom == if last then b + 1 else b
  {
    t := OwnerNext(u);
    assert t == u.(owner := PopRead(b, last, u.buffer[Slot(u.cap, b)]));
    t := OwnerNext(t);
    if last {
      t := OwnerNext(t);
    }
  }

  /** Finish an undisturbed pop that won index b. */
  lemma PopFinishes(s: State, run: seq<Action>, n: nat, b: int, last: bool) returns (t: State)
    requires Shaped(s) && Shaped(Exec(s, run + Repeat(OwnerStep, n)))
    requires var u := Exec(s, run + Repeat(OwnerStep, n)); u.owner == PopTake(b, last) && u.bottom == b
    ensures t == Exec(s, run + Repeat(OwnerStep, n + if last then 3 else 2)) && Shaped(t)
    ensures var u := Exec(s, run + Repeat(OwnerStep, n));
            && t.owner == Idle && t.thieves == u.thieves && t.top == u.top && t.next == u.next
            && t.returned == u.returned + [u.buffer[Slot(u.cap, b)]] && t.bottom == if last then b + 1 else b
  {
    ExecThree(s, run, OwnerStep, n);
    t := PopEnds(Exec(s, run + Repeat(OwnerStep, n)), b, last);
  }

  /** An undisturbed pop returns the newest element exactly when the deque is not empty; on an empty
      one nothing changes. */
  lemma PopExactly(s: State, cap: nat, thieves: nat) returns (t: State)
    requires cap >= 2 && Reachable(s, cap, thieves) && Quiet(s)
    ensures t == Exec(s, [StartPop] + Repeat(OwnerStep, 5)) && Quiet(t)
    ensures s.top >= s.bottom ==> t == s
    ensures s.top < s.bottom ==>
              && t.returned == s.returned + [s.buffer[Slot(s.cap, s.bottom - 1)]]
              && t.bottom - t.top == s.bottom - s.top - 1 && t.next == s.next
  {
    if s.top < s.bottom - 1 {
      t := PopOfMany(s);
      IdleFor(s, [StartPop], 3, 2);
    } else if s.top == s.bottom - 1 {
      t := PopOfOne(s);
    } else {
      t := PopOfNone(s, cap, thieves);
      IdleFor(s, [StartPop], 2, 3);
    }
  }

  /** Repetitions after the owner has come to rest change nothing. */
  lemma IdleFor(s: State, run: seq<Action>, n: nat, more: nat)
    requires Shaped(s) && Shaped(Exec(s, run + Repeat(OwnerStep, n))) && Exec(s, run + Repeat(OwnerStep, n)).owner == Idle
    ensures Exec(s, run + Repeat(OwnerStep, n + more)) == Exec(s, run + Repeat(OwnerStep, n))
  {
    var t := IdleSteps(s, run + Repeat(OwnerStep, n), more);
    assert run + Repeat(OwnerStep, n) + Repeat(OwnerStep, more) == run + Repeat(OwnerStep, n + more);
  }

  lemma PopOfNone(s: State, cap: nat, thieves: nat) returns (t: State)
    requires cap >= 2 && Reachable(s, cap, thieves) && Quiet(s) && s.top >= s.bottom
    ensures t == Exec(s, [StartPop] + Repeat(OwnerStep, 2)) == s
  {
    var run, b := [StartPop], s.bottom - 1;
    ExecFirst(s, StartPop);
    assert run + Repeat(OwnerStep, 0) == run;
    assert Exec(s, run) == s.(bottom := b, owner := PopLowered(b));
    ExecMore(s, run, OwnerStep, 0);
    assert Exec(s, run + Repeat(OwnerStep, 1)) == s.(bottom := b, owner := PopRestore(b));
    ExecMore(s, run, OwnerStep, 1);
    t := Exec(s, run + Repeat(OwnerStep, 2));
    assert t == s.(bottom := s.bottom, owner := Idle);
  }

  /** The start of a pop: bottom is lowered and top read. */
  lemma PopLowers(s: State)
    requires Quiet(s) && s.top < s.bottom
    ensures var b := s.bottom - 1;
            Exec(s, [StartPop] + Repeat(OwnerStep, 1))
            == s.(bottom := b, owner := if s.top < b then PopTake(b, false) else PopLast(b))
  {
    var run, b := [StartPop], s.bottom - 1;
    ExecFirst(s, StartPop);
    assert run + Repeat(OwnerStep, 0) == run;
    assert Exec(s, run) == s.(bottom := b, owner := PopLowered(b));
    ExecMore(s, run, OwnerStep, 0);
  }

  lemma PopOfMany(s: State) returns (t: State)
    requires Quiet(s) && s.top < s.bottom - 1
    ensures t == Exec(s, [StartPop] + Repeat(OwnerStep, 3)) && Quiet(t)
    ensures t.returned == s.returned + [s.buffer[Slot(s.cap, s.bottom - 1)]] && t.bottom - t.top == s.bottom - s.top - 1
    ensures t.next == s.next
  {
    PopLowers(s);
    t := PopFinishes(s, [StartPop], 1, s.bottom - 1, false);
  }

  lemma PopOfOne(s: State) returns (t: State)
    requires Quiet(s) && s.top == s.bottom - 1
    ensures t == Exec(s, [StartPop] + Repeat(OwnerStep, 5)) && Quiet(t)
    ensures t.returned == s.returned + [s.buffer[Slot(s.cap, s.bottom - 1)]] && t.bottom - t.top == s.bottom - s.top - 1
    ensures t.next == s.next
  {
    var b := s.bottom - 1;
    PopLowers(s);
    ExecMore(s, [StartPop], OwnerStep, 1);
    assert Exec(s, [StartPop] + Repeat(OwnerStep, 2)) == s.(bottom := b, top := b + 1, owner := PopTake(b, true));
    t := PopFinishes(s, [StartPop], 2, b, true);
  }

  /** An undisturbed steal returns the oldest element exactly when the deque is not empty; on an
      empty one nothing changes. */
  lemma StealExactly(s: State, cap: nat, thieves: nat, k: nat) returns (t: State)
    requires cap >= 2 && Reachable(s, cap, thieves) && Quiet(s) && k < |s.thieves|
    ensures t == Exec(s, Repeat(ThiefStep(k), 6)) && Quiet(t)
    ensures s.top >= s.bottom ==> t == s
    ensures s.top < s.bottom ==>
              t.returned == s.returned + [s.buffer[Slot(s.cap, s.top)]] && t.top == s.top + 1 && t.bottom == s.bottom && t.next == s.next
  {
    if s.top < s.bottom {
      var u := StealWins(s, k);
      ReachExec(s, cap, thieves, Repeat(ThiefStep(k), 3));
      var run :| Exec(Init(cap, thieves), run) == u;
      WonSlotIsFull(cap, thieves, run, k);
      t := StealFinishes(s, k, u);
    } else {
      var a := ThiefStep(k);
      StealOfNone(s, k);
      ExecThen(s, Repeat(a, 2), Repeat(a, 2));
      assert Repeat(a, 2) + Repeat(a, 2) == Repeat(a, 4);
      ExecThen(s, Repeat(a, 4), Repeat(a, 2));
      assert Repeat(a, 4) + Repeat(a, 2) == Repeat(a, 6);
      t := s;
    }
  }

  lemma StealOfNone(s: State, k: nat)
    requires Quiet(s) && s.top >= s.bottom && k < |s.thieves|
    ensures Exec(s, Repeat(ThiefStep(k), 2)) == s
  {
    var a := ThiefStep(k);
    assert [] + Repeat(a, 0) == [] && [] + Repeat(a, 1) == Repeat(a, 1) && [] + Repeat(a, 2) == Repeat(a, 2);
    ExecMore(s, [], a, 0);
    assert Exec(s, Repeat(a, 1)) == s.(thieves := s.thieves[k := SawTop(s.top)]);
    ExecMore(s, [], a, 1);
    assert s.thieves[k := SawTop(s.top)][k := Rest] == s.thieves;
  }

  lemma StealWins(s: State, k: nat) returns (u: State)
    requires Quiet(s) && s.top < s.bottom && k < |s.thieves|
    ensures u == Exec(s, Repeat(ThiefStep(k), 3)) == s.(top := s.top + 1, thieves := s.thieves[k := Won(s.top)])
  {
    var a := ThiefStep(k);
    assert [] + Repeat(a, 0) == [] && [] + Repeat(a, 1) == Repeat(a, 1);
    assert [] + Repeat(a, 2) == Repeat(a, 2) && [] + Repeat(a, 3) == Repeat(a, 3);
    ExecMore(s, [], a, 0);
    assert Exec(s, Repeat(a, 1)) == s.(thieves := s.thieves[k := SawTop(s.top)]);
    ExecMore(s, [], a, 1);
    assert Exec(s, Repeat(a, 2)) == s.(thieves := s.thieves[k := SawBoth(s.top)]);
    ExecMore(s, [], a, 2);
    u := Exec(s, Repeat(a, 3));
  }

  /** Finish an undisturbed steal that won an index. */
  lemma StealFinishes(s: State, k: nat, u: State) returns (t: State)
    requires Shaped(s) && u == Exec(s, Repeat(ThiefStep(k), 3)) && Shaped(u)
    requires k < |u.thieves| && u.thieves[k].Won? && u.full[Slot(u.cap, u.thieves[k].t)]
    ensures t == Exec(s, Repeat(ThiefStep(k), 6)) && Shaped(t) && t.owner == u.owner && t.thieves == u.thieves[k := Rest] && t.next == u.next
    ensures t.returned == u.returned + [u.buffer[Slot(u.cap, u.thieves[k].t)]] && t.top == u.top && t.bottom == u.bottom
  {
    var a := ThiefStep(k);
    assert [] + Repeat(a, 3) == Repeat(a, 3) && [] + Repeat(a, 6) == Repeat(a, 6);
    ExecThree(s, [], a, 3);
    t := StealEnds(u, k);
  }

  lemma StealEnds(u: State, k: nat) returns (t: State)
    requires Shaped(u) && k < |u.thieves| && u.thieves[k].Won? && u.full[Slot(u.cap, u.thieves[k].t)]
    ensures var a := ThiefStep(k); Shaped(Next(u, a)) && Shaped(Next(Next(u, a), a)) && t == Next(Next(Next(u, a), a), a)
    ensures Shaped(t) && t.owner == u.owner && t.thieves == u.thieves[k := Rest] && t.next == u.next
    ensures t.returned == u.returned + [u.buffer[Slot(u.cap, u.thieves[k].t)]] && t.top == u.top && t.bottom == u.bottom
  {
    var i := u.thieves[k].t;
    var u1 := u.(thieves := u.thieves[k := SawFull(i)]);
    assert ThiefNext(u, k) == u1;
    var u2 := u.(thieves := u.thieves[k := Taken(i, u.buffer[Slot(u.cap, i)])]);
    assert ThiefNext(u1, k) == u2;
    t := ThiefNext(u2, k);
  }
}
