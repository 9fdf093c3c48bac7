/** Epoch-based reclamation as a step system: readers pin and unpin, writers unlink and retire
    objects and run collections, all concurrently. Every shared load, store, swap and
    compare-exchange is one atomic step (sequential consistency, the discipline the pin comment
    asks for). The retirement stack is kept bottom first, so its head is the last element.
    Epochs do not wrap. */
module Ebr {
  import opened Options

  /** A retirement record: the object and the epoch loaded after it was unlinked. */
  datatype Node = Node(obj: nat, stamp: nat)

  datatype Reader =
    | Out
    | Loaded(e: nat)                            // epoch read, slot not yet stored
    | Pinned(since: nat, held: set<nat>)        // since: the global epoch at the slot store (history)

  datatype Writer =
    | Idle
    | Unlinked(o: nat)                          // pointer swapped out, not yet stamped
    | Holding(n: Node)
    | Pushing(n: Node, seen: Option<Node>)
    | Scanning(g: nat, i: nat)
    | Deciding(g: nat)                          // every slot seen unpinned or at g
    | Refreshing
    | Swapping(now: nat)
    | Sweeping(now: nat, todo: seq<Node>, keep: seq<Node>)
    | Returning(keep: seq<Node>, j: nat)
    | Repushing(keep: seq<Node>, j: nat, seen: Option<Node>)

  datatype State = State(
    epoch: nat, slots: seq<nat>, readers: seq<Reader>, writers: seq<Writer>,
    stack: seq<Node>, linked: set<nat>, next: nat, destroyed: seq<nat>)

  datatype Action =
    | Create
    | LoadEpoch(r: nat) | StoreSlot(r: nat) | Acquire(r: nat, o: nat) | Unpin(r: nat)
    | Unlink(k: nat, o: nat) | Collect(k: nat) | WriterStep(k: nat) | SpuriousFailure(k: nat)

  function Init(readers: nat, writers: nat): State {
    State(0, seq(readers, _ => 0), seq(readers, _ => Out), seq(writers, _ => Idle), [], {}, 0, [])
  }

  function Head(s: State): Option<Node> {
    if s.stack == [] then None else Some(s.stack[|s.stack| - 1])
  }

  predicate Shaped(s: State) {
    |s.slots| == |s.readers|
  }

  /** One step of pin or unpin; reading a shared pointer only finds linked objects. */
  function ReaderNext(s: State, a: Action): State
    requires Shaped(s)
  {
    match a
    case LoadEpoch(r) =>
      if r < |s.readers| && s.readers[r].Out? then s.(readers := s.readers[r := Loaded(s.epoch)]) else s
    case StoreSlot(r) =>
      if r < |s.readers| && s.readers[r].Loaded?
      then s.(slots := s.slots[r := s.readers[r].e + 1], readers := s.readers[r := Pinned(s.epoch, {})])
      else s
    case Acquire(r, o) =>
      if r < |s.readers| && s.readers[r].Pinned? && o in s.linked
      then s.(readers := s.readers[r := s.readers[r].(held := s.readers[r].held + {o})])
      else s
    case Unpin(r) =>
      if r < |s.readers| && s.readers[r].Pinned? then s.(slots := s.slots[r := 0], readers := s.readers[r := Out]) else s
    case _ => s
  }

  function To(s: State, k: nat, w: Writer): State
    requires k < |s.writers|
  {
    s.(writers := s.writers[k := w])
  }

  /** One step of retire_box or collect. */
  function WriterNext(s: State, k: nat): State
    requires Shaped(s) && k < |s.writers|
  {
    match s.writers[k]
    case Idle => s
    case Unlinked(o) => To(s, k, Holding(Node(o, s.epoch)))
    case Holding(n) => To(s, k, Pushing(n, Head(s)))
    case Pushing(n, seen) => if Head(s) == seen then To(s, k, Idle).(stack := s.stack + [n]) else To(s, k, Pushing(n, Head(s)))
    case Scanning(g, i) =>
      if i >= |s.slots| then To(s, k, Deciding(g))
      else if s.slots[i] != 0 && s.slots[i] != g + 1 then To(s, k, Refreshing)
      else To(s, k, Scanning(g, i + 1))
    case Deciding(g) => if s.epoch == g then To(s, k, Refreshing).(epoch := g + 1) else To(s, k, Refreshing)
    case Refreshing => To(s, k, Swapping(s.epoch))
    case Swapping(now) => To(s, k, Sweeping(now, s.stack, [])).(stack := [])
    case Sweeping(now, todo, keep) =>
      if todo == [] then To(s, k, Returning(keep, 0))
      else
        var n, rest := todo[|todo| - 1], todo[..|todo| - 1];
        if now >= n.stamp + 2 then To(s, k, Sweeping(now, rest, keep)).(destroyed := s.destroyed + [n.obj])
        else To(s, k, Sweeping(now, rest, keep + [n]))
    case Returning(keep, j) => if j >= |keep| then To(s, k, Idle) else To(s, k, Repushing(keep, j, Head(s)))
    case Repushing(keep, j, seen) =>
      if j >= |keep| then To(s, k, Idle)
      else if Head(s) == seen then To(s, k, Returning(keep, j + 1)).(stack := s.stack + [keep[j]])
      else To(s, k, Repushing(keep, j, Head(s)))
  }

  /** A weak compare-exchange may fail for no reason; the loop then works with the head it read. */
  function Reloaded(w: Writer, head: Option<Node>): Writer {
    match w
    case Pushing(n, _) => Pushing(n, head)
    case Repushing(keep, j, _) => Repushing(keep, j, head)
    case _ => w
  }

  function Next(s: State, a: Action): State
    requires Shaped(s)
  {
    match a
    case Create => s.(linked := s.linked + {s.next}, next := s.next + 1)
    case Unlink(k, o) =>
      if k < |s.writers| && s.writers[k].Idle? && o in s.linked
      then s.(linked := s.linked - {o}, writers := s.writers[k := Unlinked(o)])
      else s
    case Collect(k) =>
      if k < |s.writers| && s.writers[k].Idle? then s.(writers := s.writers[k := Scanning(s.epoch, 0)]) else s
    case WriterStep(k) => if k < |s.writers| then WriterNext(s, k) else s
    case SpuriousFailure(k) =>
      if k < |s.writers| then s.(writers := s.writers[k := Reloaded(s.writers[k], Head(s))]) else s
    case _ => ReaderNext(s, a)
  }

  ghost function Exec(s: State, run: seq<Action>): (r: State)
    requires Shaped(s)
    ensures Shaped(r)
    decreases |run|
  {
    if run == [] then s else Next(Exec(s, run[..|run| - 1]), run[|run| - 1])
  }

  // ---- Where an object is ----

  /** Hand: with a retiring writer. Todo and Keep: in a collector's private lists, by position. */
  datatype Place = Linked | Hand(k: nat) | Stack(i: nat) | Todo(k: nat, i: nat) | Keep(k: nat, i: nat) | Gone(i: nat)

  /** The retirement record at a place, if that place holds one. */
  ghost function NodeAt(s: State, p: Place): Option<Node> {
    match p
    case Hand(k) => if k < |s.writers| then InHand(s.writers[k]) else None
    case Stack(i) => if i < |s.stack| then Some(s.stack[i]) else None
    case Todo(k, i) => if k < |s.writers| then Unswept(s.writers[k], i) else None
    case Keep(k, i) => if k < |s.writers| then Kept(s.writers[k], i) else None
    case _ => None
  }

  ghost function InHand(w: Writer): Option<Node> {
    match w
    case Holding(n) => Some(n)
    case Pushing(n, _) => Some(n)
    case _ => None
  }

  ghost function Unswept(w: Writer, i: nat): Option<Node> {
    if w.Sweeping? && i < |w.todo| then Some(w.todo[i]) else None
  }

  ghost function Kept(w: Writer, i: nat): Option<Node> {
    match w
    case Sweeping(_, _, keep) => if i < |keep| then Some(keep[i]) else None
    case Returning(keep, j) => if j <= i < |keep| then Some(keep[i]) else None
    case Repushing(keep, j, _) => if j <= i < |keep| then Some(keep[i]) else None
    case _ => None
  }

  ghost predicate At(s: State, o: nat, p: Place) {
    match p
    case Linked => o in s.linked
    case Gone(i) => i < |s.destroyed| && s.destroyed[i] == o
    case Hand(k) =>
      k < |s.writers| && (s.writers[k] == Unlinked(o) || (InHand(s.writers[k]).Some? && InHand(s.writers[k]).value.obj == o))
    case _ => NodeAt(s, p).Some? && NodeAt(s, p).value.obj == o
  }

  // ---- The invariant ----

  /** home is exactly the graph of At: every object is in one place and only there. */
  ghost predicate Located(s: State, home: map<nat, Place>) {
    && (forall o: nat :: o in home <==> o < s.next)
    && (forall o: nat, p :: At(s, o, p) <==> o in home && home[o] == p)
  }

  /** An object at p outlives a guard pinned since the given epoch. */
  ghost predicate Safe(s: State, p: Place, since: nat) {
    !p.Gone? && (NodeAt(s, p).Some? ==> NodeAt(s, p).value.stamp >= since)
  }

  ghost predicate ReaderOk(s: State, home: map<nat, Place>, r: nat)
    requires Shaped(s) && r < |s.readers|
  {
    match s.readers[r]
    case Out => s.slots[r] == 0
    case Loaded(e) => s.slots[r] == 0 && e <= s.epoch
    case Pinned(since, held) =>
      && 1 <= s.slots[r] <= since + 1
      && since <= s.epoch <= since + 1
      && forall o :: o in held ==> o in home && Safe(s, home[o], since)
  }

  /** No guard among the first i slots was pinned before epoch g. */
  ghost predicate Passed(s: State, g: nat, i: nat) {
    forall r :: 0 <= r < i && r < |s.readers| && s.readers[r].Pinned? ==> g <= s.readers[r].since
  }

  ghost predicate WriterOk(s: State, k: nat)
    requires k < |s.writers|
  {
    match s.writers[k]
    case Scanning(g, i) => g <= s.epoch && Passed(s, g, i)
    case Deciding(g) => g <= s.epoch && Passed(s, g, |s.readers|)
    case Swapping(now) => now <= s.epoch
    case Sweeping(now, _, _) => now <= s.epoch
    case _ => true
  }

  ghost predicate Inv(s: State, home: map<nat, Place>) {
    && Shaped(s)
    && Located(s, home)
    && (forall r :: 0 <= r < |s.readers| ==> ReaderOk(s, home, r))
    && (forall k :: 0 <= k < |s.writers| ==> WriterOk(s, k))
  }

  lemma InitInv(readers: nat, writers: nat)
    ensures Inv(Init(readers, writers), map[])
  {
  }

  // ---- Moving one object ----

  /** The step takes x from p to q and moves nothing else; records keep their stamps, and a
      record made by the step is stamped with the current epoch. */
  ghost predicate Moves(s: State, n: State, x: nat, p: Place, q: Place) {
    && At(s, x, p) && n.next == s.next
    && (forall o: nat, z :: At(n, o, z) <==> (o == x && z == q) || (At(s, o, z) && !(o == x && z == p)))
    && (forall z :: z != p && z != q ==> NodeAt(n, z) == NodeAt(s, z))
    && (NodeAt(n, q).Some? ==> NodeAt(n, q).value.stamp == if NodeAt(s, p).Some? then NodeAt(s, p).value.stamp else s.epoch)
  }

  lemma MoveLocates(s: State, n: State, home: map<nat, Place>, x: nat, p: Place, q: Place)
    requires Located(s, home) && Moves(s, n, x, p, q)
    ensures Located(n, home[x := q])
  {
  }

  /** A moved object stays safe for a guard unless it was destroyed. */
  lemma MoveSafe(s: State, n: State, home: map<nat, Place>, x: nat, p: Place, q: Place, o: nat, since: nat)
    requires Located(s, home) && Moves(s, n, x, p, q) && since <= s.epoch
    requires o in home && Safe(s, home[o], since) && (o == x ==> !q.Gone?)
    ensures Safe(n, home[x := q][o], since)
  {
    assert At(s, x, p) && At(s, o, home[o]);
    if o != x {
      assert At(n, o, home[o]) && At(n, x, q);
    }
  }

  /** No object moves and no record changes. */
  ghost predicate Still(s: State, n: State) {
    && n.next == s.next
    && (forall o: nat, z :: At(n, o, z) <==> At(s, o, z))
    && (forall z :: NodeAt(n, z) == NodeAt(s, z))
  }

  datatype Move = Move(x: nat, p: Place, q: Place)

  /** What a writer step moves. */
  ghost function MoveOf(s: State, k: nat): Option<Move>
    requires k < |s.writers|
  {
    match s.writers[k]
    case Unlinked(o) => Some(Move(o, Hand(k), Hand(k)))
    case Pushing(n, seen) => if Head(s) == seen then Some(Move(n.obj, Hand(k), Stack(|s.stack|))) else None
    case Sweeping(now, todo, keep) =>
      if todo == [] then None
      else
        var n := todo[|todo| - 1];
        Some(Move(n.obj, Todo(k, |todo| - 1), if now >= n.stamp + 2 then Gone(|s.destroyed|) else Keep(k, |keep|)))
    case Repushing(keep, j, seen) =>
      if j < |keep| && Head(s) == seen then Some(Move(keep[j].obj, Keep(k, j), Stack(|s.stack|))) else None
    case _ => None
  }

  /** The three clauses of Still and Moves, one object, place or record at a time. */
  ghost predicate MovedObject(s: State, n: State, m: Option<Move>, o: nat, z: Place) {
    if m.None? then At(n, o, z) <==> At(s, o, z)
    else
      At(n, o, z) <==> (o == m.value.x && z == m.value.q) || (At(s, o, z) && !(o == m.value.x && z == m.value.p))
  }

  ghost predicate MovedNode(s: State, n: State, m: Option<Move>, z: Place) {
    m.None? || (z != m.value.p && z != m.value.q) ==> NodeAt(n, z) == NodeAt(s, z)
  }

  ghost predicate MovedStamp(s: State, n: State, m: Move) {
    && At(s, m.x, m.p)
    && (NodeAt(n, m.q).Some? ==>
          NodeAt(n, m.q).value.stamp == if NodeAt(s, m.p).Some? then NodeAt(s, m.p).value.stamp else s.epoch)
  }

  lemma SweepMovesObject(s: State, k: nat, o: nat, z: Place)
    requires Shaped(s) && k < |s.writers| && s.writers[k].Sweeping?
    ensures MovedObject(s, WriterNext(s, k), MoveOf(s, k), o, z)
  {
  }

  lemma PushMovesObject(s: State, k: nat, o: nat, z: Place)
    requires Shaped(s) && k < |s.writers| && (s.writers[k].Pushing? || s.writers[k].Repushing?)
    ensures MovedObject(s, WriterNext(s, k), MoveOf(s, k), o, z)
  {
  }

  lemma OtherMovesObject(s: State, k: nat, o: nat, z: Place)
    requires Shaped(s) && k < |s.writers|
    requires !s.writers[k].Sweeping? && !s.writers[k].Pushing? && !s.writers[k].Repushing? && !s.writers[k].Swapping?
    ensures MovedObject(s, WriterNext(s, k), MoveOf(s, k), o, z)
  {
  }

  lemma SweepMovesNode(s: State, k: nat, z: Place)
    requires Shaped(s) && k < |s.writers| && s.writers[k].Sweeping?
    ensures MovedNode(s, WriterNext(s, k), MoveOf(s, k), z)
  {
  }

  lemma PushMovesNode(s: State, k: nat, z: Place)
    requires Shaped(s) && k < |s.writers| && (s.writers[k].Pushing? || s.writers[k].Repushing?)
    ensures MovedNode(s, WriterNext(s, k), MoveOf(s, k), z)
  {
  }

  lemma OtherMovesNode(s: State, k: nat, z: Place)
    requires Shaped(s) && k < |s.writers|
    requires var w := s.writers[k]; !w.Sweeping? && !w.Pushing? && !w.Repushing? && !w.Swapping?
    ensures MovedNode(s, WriterNext(s, k), MoveOf(s, k), z)
  {
  }

  lemma WriterMovesNode(s: State, k: nat, z: Place)
    requires Shaped(s) && k < |s.writers| && !s.writers[k].Swapping?
    ensures MovedNode(s, WriterNext(s, k), MoveOf(s, k), z)
  {
    var w := s.writers[k];
    if w.Sweeping? {
      SweepMovesNode(s, k, z);
    } else if w.Pushing? || w.Repushing? {
      PushMovesNode(s, k, z);
    } else {
      OtherMovesNode(s, k, z);
    }
  }

  lemma WriterMovesStamp(s: State, k: nat)
    requires Shaped(s) && k < |s.writers| && MoveOf(s, k).Some?
    ensures MovedStamp(s, WriterNext(s, k), MoveOf(s, k).value)
  {
  }

  lemma MoveParts(s: State, n: State, m: Option<Move>)
    requires n.next == s.next
    requires forall o: nat, z :: MovedObject(s, n, m, o, z)
    requires forall z :: MovedNode(s, n, m, z)
    requires m.Some? ==> MovedStamp(s, n, m.value)
    ensures m.None? ==> Still(s, n)
    ensures m.Some? ==> Moves(s, n, m.value.x, m.value.p, m.value.q)
  {
    forall o: nat, z
      ensures m.None? ==> (At(n, o, z) <==> At(s, o, z))
      ensures m.Some? ==>
                (At(n, o, z) <==>
                 (o == m.value.x && z == m.value.q) || (At(s, o, z) && !(o == m.value.x && z == m.value.p)))
    {
      assert MovedObject(s, n, m, o, z);
    }
    forall z
      ensures m.None? || (z != m.value.p && z != m.value.q) ==> NodeAt(n, z) == NodeAt(s, z)
    {
      assert MovedNode(s, n, m, z);
    }
  }

  lemma WriterMoves(s: State, k: nat)
    requires Shaped(s) && k < |s.writers| && !s.writers[k].Swapping?
    ensures match MoveOf(s, k)
            case None => Still(s, WriterNext(s, k))
            case Some(m) => Moves(s, WriterNext(s, k), m.x, m.p, m.q)
  {
    var n, m := WriterNext(s, k), MoveOf(s, k);
    forall o: nat, z
      ensures MovedObject(s, n, m, o, z)
    {
      if s.writers[k].Sweeping? {
        SweepMovesObject(s, k, o, z);
      } else if s.writers[k].Pushing? || s.writers[k].Repushing? {
        PushMovesObject(s, k, o, z);
      } else {
        OtherMovesObject(s, k, o, z);
      }
    }
    forall z
      ensures MovedNode(s, n, m, z)
    {
      WriterMovesNode(s, k, z);
    }
    if m.Some? {
      WriterMovesStamp(s, k);
    }
    MoveParts(s, n, m);
  }

  /** The swap hands the whole stack to one collector. */
  ghost function Swapped(home: map<nat, Place>, k: nat): map<nat, Place> {
    map o | o in home :: if home[o].Stack? then Todo(k, home[o].i) else home[o]
  }

  lemma SwapLocates(s: State, home: map<nat, Place>, k: nat)
    requires Shaped(s) && Located(s, home) && k < |s.writers| && s.writers[k].Swapping?
    ensures Located(WriterNext(s, k), Swapped(home, k))
    ensures forall o, since :: o in home && Safe(s, home[o], since) ==> Safe(WriterNext(s, k), Swapped(home, k)[o], since)
  {
    var n := WriterNext(s, k);
    forall o: nat, z
      ensures At(n, o, z) <==> o in Swapped(home, k) && Swapped(home, k)[o] == z
    {
      assert At(s, o, z) <==> o in home && home[o] == z;
      assert z.Todo? && z.k == k ==> (At(s, o, Stack(z.i)) <==> o in home && home[o] == Stack(z.i));
    }
    forall o, since | o in home && Safe(s, home[o], since)
      ensures Safe(n, Swapped(home, k)[o], since)
    {
      assert At(s, o, home[o]);
    }
  }

  ghost function WriterHome(s: State, home: map<nat, Place>, k: nat): map<nat, Place>
    requires k < |s.writers|
  {
    if s.writers[k].Swapping? then Swapped(home, k)
    else match MoveOf(s, k)
      case None => home
      case Some(m) => home[m.x := m.q]
  }

  /** A guard blocks the second advance, so a record stamped under it is never old enough. */
  lemma WriterSparesGuard(s: State, home: map<nat, Place>, k: nat, r: nat)
    requires Inv(s, home) && k < |s.writers| && r < |s.readers|
    ensures ReaderOk(WriterNext(s, k), WriterHome(s, home, k), r)
  {
    var n := WriterNext(s, k);
    assert ReaderOk(s, home, r) && WriterOk(s, k);
    if s.readers[r].Pinned? {
      var since := s.readers[r].since;
      forall o | o in s.readers[r].held
        ensures o in WriterHome(s, home, k) && Safe(n, WriterHome(s, home, k)[o], since)
      {
        HeldStaysSafe(s, home, k, o, since);
      }
    }
  }

  lemma HeldStaysSafe(s: State, home: map<nat, Place>, k: nat, o: nat, since: nat)
    requires Shaped(s) && Located(s, home) && k < |s.writers| && WriterOk(s, k)
    requires since <= s.epoch <= since + 1 && o in home && Safe(s, home[o], since)
    ensures o in WriterHome(s, home, k) && Safe(WriterNext(s, k), WriterHome(s, home, k)[o], since)
  {
    if s.writers[k].Swapping? {
      SwapLocates(s, home, k);
    } else {
      WriterMoves(s, k);
      if MoveOf(s, k).Some? {
        var m := MoveOf(s, k).value;
        assert At(s, m.x, m.p);
        MoveSafe(s, WriterNext(s, k), home, m.x, m.p, m.q, o, since);
      }
    }
  }

  lemma WriterKeepsItself(s: State, home: map<nat, Place>, k: nat)
    requires Inv(s, home) && k < |s.writers|
    ensures WriterOk(WriterNext(s, k), k)
  {
    assert WriterOk(s, k);
    if s.writers[k].Scanning? && s.writers[k].i < |s.slots| {
      assert ReaderOk(s, home, s.writers[k].i);
    }
  }

  lemma WriterSparesWriter(s: State, home: map<nat, Place>, k: nat, j: nat)
    requires Inv(s, home) && k < |s.writers| && j < |s.writers|
    ensures WriterOk(WriterNext(s, k), j)
  {
    if j == k {
      WriterKeepsItself(s, home, k);
    } else {
      assert WriterOk(s, j) && WriterOk(s, k);
    }
  }

  lemma WriterKeeps(s: State, home: map<nat, Place>, k: nat)
    requires Inv(s, home) && k < |s.writers|
    ensures Inv(WriterNext(s, k), WriterHome(s, home, k))
  {
    var n, home' := WriterNext(s, k), WriterHome(s, home, k);
    if s.writers[k].Swapping? {
      SwapLocates(s, home, k);
    } else {
      WriterMoves(s, k);
      if MoveOf(s, k).Some? {
        var m := MoveOf(s, k).value;
        MoveLocates(s, n, home, m.x, m.p, m.q);
      }
    }
    forall r | 0 <= r < |n.readers|
      ensures ReaderOk(n, home', r)
    {
      WriterSparesGuard(s, home, k, r);
    }
    forall j | 0 <= j < |n.writers|
      ensures WriterOk(n, j)
    {
      WriterSparesWriter(s, home, k, j);
    }
  }

  lemma ReaderKeeps(s: State, home: map<nat, Place>, a: Action)
    requires Inv(s, home) && (a.LoadEpoch? || a.StoreSlot? || a.Acquire? || a.Unpin?)
    ensures Inv(ReaderNext(s, a), home)
  {
    var n := ReaderNext(s, a);
    assert Still(s, n);
    forall r | 0 <= r < |n.readers|
      ensures ReaderOk(n, home, r)
    {
      assert ReaderOk(s, home, r);
      if a.Acquire? && a.o in s.linked {
        assert At(s, a.o, Linked);
      }
    }
    forall k | 0 <= k < |n.writers|
      ensures WriterOk(n, k)
    {
      assert WriterOk(s, k);
    }
  }

  lemma CreateKeeps(s: State, home: map<nat, Place>)
    requires Inv(s, home)
    ensures Inv(Next(s, Create), home[s.next := Linked])
  {
    var n, home' := Next(s, Create), home[s.next := Linked];
    forall o: nat, z
      ensures At(n, o, z) <==> o in home' && home'[o] == z
    {
      assert At(s, o, z) <==> o in home && home[o] == z;
    }
    forall r | 0 <= r < |n.readers|
      ensures ReaderOk(n, home', r)
    {
      assert ReaderOk(s, home, r);
    }
    forall k | 0 <= k < |n.writers|
      ensures WriterOk(n, k)
    {
      assert WriterOk(s, k);
    }
  }

  lemma UnlinkKeeps(s: State, home: map<nat, Place>, k: nat, o: nat)
    requires Inv(s, home) && k < |s.writers| && s.writers[k].Idle? && o in s.linked
    ensures Inv(Next(s, Unlink(k, o)), home[o := Hand(k)])
  {
    var n, home' := Next(s, Unlink(k, o)), home[o := Hand(k)];
    assert Moves(s, n, o, Linked, Hand(k));
    MoveLocates(s, n, home, o, Linked, Hand(k));
    forall r | 0 <= r < |n.readers|
      ensures ReaderOk(n, home', r)
    {
      assert ReaderOk(s, home, r);
      if s.readers[r].Pinned? {
        forall x | x in s.readers[r].held
          ensures x in home' && Safe(n, home'[x], s.readers[r].since)
        {
          MoveSafe(s, n, home, o, Linked, Hand(k), x, s.readers[r].since);
        }
      }
    }
    forall j | 0 <= j < |n.writers|
      ensures WriterOk(n, j)
    {
      assert WriterOk(s, j);
    }
  }

  lemma QuietStill(s: State, a: Action)
    requires Shaped(s) && (a.Collect? || a.SpuriousFailure?)
    ensures Still(s, Next(s, a))
  {
  }

  /** Starting a collection, or a spurious compare-exchange failure. */
  lemma QuietKeeps(s: State, home: map<nat, Place>, a: Action)
    requires Inv(s, home) && (a.Collect? || a.SpuriousFailure?)
    ensures Inv(Next(s, a), home)
  {
    var n := Next(s, a);
    QuietStill(s, a);
    forall r | 0 <= r < |n.readers|
      ensures ReaderOk(n, home, r)
    {
      assert ReaderOk(s, home, r);
    }
    forall k | 0 <= k < |n.writers|
      ensures WriterOk(n, k)
    {
      assert WriterOk(s, k);
    }
  }

  lemma StepKeeps(s: State, home: map<nat, Place>, a: Action) returns (home': map<nat, Place>)
    requires Inv(s, home)
    ensures Inv(Next(s, a), home')
  {
    home' := home;
    if a.Create? {
      CreateKeeps(s, home);
      home' := home[s.next := Linked];
    } else if a.Unlink? {
      if a.k < |s.writers| && s.writers[a.k].Idle? && a.o in s.linked {
        UnlinkKeeps(s, home, a.k, a.o);
        home' := home[a.o := Hand(a.k)];
      }
    } else if a.Collect? || a.SpuriousFailure? {
      QuietKeeps(s, home, a);
    } else if a.WriterStep? {
      if a.k < |s.writers| {
        WriterKeeps(s, home, a.k);
        home' := WriterHome(s, home, a.k);
      }
    } else {
      ReaderKeeps(s, home, a);
    }
  }

  lemma {:induction false} RunKeeps(readers: nat, writers: nat, run: seq<Action>) returns (home: map<nat, Place>)
    ensures Inv(Exec(Init(readers, writers), run), home)
    decreases |run|
  {
    if run == [] {
      InitInv(readers, writers);
      home := map[];
    } else {
      home := RunKeeps(readers, writers, run[..|run| - 1]);
      home := StepKeeps(Exec(Init(readers, writers), run[..|run| - 1]), home, run[|run| - 1]);
    }
  }

  // ---- The two promises ----

  lemma HeldSurvives(readers: nat, writers: nat, run: seq<Action>, r: nat, o: nat)
    ensures var s := Exec(Init(readers, writers), run);
            r < |s.readers| && s.readers[r].Pinned? && o in s.readers[r].held ==> o !in s.destroyed
  {
    var s := Exec(Init(readers, writers), run);
    var home := RunKeeps(readers, writers, run);
    if r < |s.readers| && s.readers[r].Pinned? && o in s.readers[r].held && o in s.destroyed {
      assert ReaderOk(s, home, r);
      var i :| 0 <= i < |s.destroyed| && s.destroyed[i] == o;
      assert At(s, o, Gone(i));
    }
  }

  /** Reader r is pinned since the given epoch and has acquired these objects. */
  ghost predicate Guards(s: State, r: nat, since: nat, held: set<nat>) {
    r < |s.readers| && s.readers[r].Pinned? && s.readers[r].since == since && held <= s.readers[r].held
  }

  lemma GuardStays(s: State, a: Action, r: nat, since: nat, held: set<nat>)
    requires Shaped(s) && Guards(s, r, since, held) && a != Unpin(r)
    ensures Guards(Next(s, a), r, since, held)
  {
  }

  /** A guard lasts until it is dropped. */
  lemma {:induction false} GuardLasts(readers: nat, writers: nat, run: seq<Action>, n: nat, r: nat, since: nat, held: set<nat>)
    requires n <= |run| && Guards(Exec(Init(readers, writers), run[..n]), r, since, held)
    requires forall i :: n <= i < |run| ==> run[i] != Unpin(r)
    ensures Guards(Exec(Init(readers, writers), run), r, since, held)
    decreases |run|
  {
    if n == |run| {
      assert run[..n] == run;
    } else {
      var most := run[..|run| - 1];
      assert most[..n] == run[..n];
      GuardLasts(readers, writers, most, n, r, since, held);
      GuardStays(Exec(Init(readers, writers), most), run[|run| - 1], r, since, held);
    }
  }

  /** No interleaving destroys an object that a pinned reader acquired while it was linked, until
      that reader unpins, however stale the epoch its pin stored. */
  lemma GuardedObjectsSurvive(readers: nat, writers: nat, run: seq<Action>, n: nat, r: nat, o: nat)
    requires n < |run| && run[n] == Acquire(r, o)
    requires var s := Exec(Init(readers, writers), run[..n]); r < |s.readers| && s.readers[r].Pinned? && o in s.linked
    requires forall i :: n < i < |run| ==> run[i] != Unpin(r)
    ensures o !in Exec(Init(readers, writers), run).destroyed
  {
    var s := Exec(Init(readers, writers), run[..n]);
    ExecSnoc(Init(readers, writers), run[..n], run[n]);
    assert run[..n] + [run[n]] == run[..n + 1];
    GuardLasts(readers, writers, run, n + 1, r, s.readers[r].since, {o});
    HeldSurvives(readers, writers, run, r, o);
  }

  /** After a slot store the global epoch can still advance once, never twice, until the unpin. */
  lemma AtMostOneAdvance(readers: nat, writers: nat, run: seq<Action>, n: nat, r: nat)
    requires n < |run| && run[n] == StoreSlot(r)
    requires var s := Exec(Init(readers, writers), run[..n]); r < |s.readers| && s.readers[r].Loaded?
    requires forall i :: n < i < |run| ==> run[i] != Unpin(r)
    ensures Exec(Init(readers, writers), run[..n]).epoch <= Exec(Init(readers, writers), run).epoch
            <= Exec(Init(readers, writers), run[..n]).epoch + 1
  {
    var s := Exec(Init(readers, writers), run[..n]);
    ExecSnoc(Init(readers, writers), run[..n], run[n]);
    assert run[..n] + [run[n]] == run[..n + 1];
    GuardLasts(readers, writers, run, n + 1, r, s.epoch, {});
    var home := RunKeeps(readers, writers, run);
    assert ReaderOk(Exec(Init(readers, writers), run), home, r);
  }

  /** An undisturbed pin announces the current epoch, and unpinning withdraws it. */
  lemma PinAnnounces(s: State, r: nat)
    requires Shaped(s) && r < |s.readers| && s.readers[r].Out? && s.slots[r] == 0
    ensures var t := Exec(s, [LoadEpoch(r), StoreSlot(r)]);
            && t.slots == s.slots[r := s.epoch + 1] && t.readers == s.readers[r := Pinned(s.epoch, {})]
            && Next(t, Unpin(r)) == s
  {
    ExecSnoc(s, [], LoadEpoch(r));
    ExecSnoc(s, [LoadEpoch(r)], StoreSlot(r));
    assert [] + [LoadEpoch(r)] == [LoadEpoch(r)] && [LoadEpoch(r)] + [StoreSlot(r)] == [LoadEpoch(r), StoreSlot(r)];
    var t := Exec(s, [LoadEpoch(r), StoreSlot(r)]);
    assert t.slots[r := 0] == s.slots && t.readers[r := Out] == s.readers;
  }

  /** An undisturbed retirement takes the object out and leaves its record, stamped with the current
      epoch, on top of the stack. */
  lemma RetireStacks(s: State, k: nat, o: nat)
    requires Shaped(s) && k < |s.writers| && s.writers[k].Idle? && o in s.linked
    ensures Exec(s, [Unlink(k, o)] + OnlySteps(k, 3)) == s.(linked := s.linked - {o}, stack := s.stack + [Node(o, s.epoch)])
  {
    var n, out := Node(o, s.epoch), s.(linked := s.linked - {o});
    ThenThree(s, Unlink(k, o), k);
    assert Next(s, Unlink(k, o)) == To(out, k, Unlinked(o));
    StampStep(out, k, o);
    HeadStep(out, k, n);
    PushStep(out, k, n);
    assert To(out, k, Idle) == out by {
      assert s.writers[k := Idle] == s.writers;
    }
  }

  lemma StampStep(s: State, k: nat, o: nat)
    requires Shaped(s) && k < |s.writers|
    ensures Next(To(s, k, Unlinked(o)), WriterStep(k)) == To(s, k, Holding(Node(o, s.epoch)))
  {
    assert s.writers[k := Unlinked(o)][k := Holding(Node(o, s.epoch))] == s.writers[k := Holding(Node(o, s.epoch))];
  }

  lemma HeadStep(s: State, k: nat, n: Node)
    requires Shaped(s) && k < |s.writers|
    ensures Next(To(s, k, Holding(n)), WriterStep(k)) == To(s, k, Pushing(n, Head(s)))
  {
    assert s.writers[k := Holding(n)][k := Pushing(n, Head(s))] == s.writers[k := Pushing(n, Head(s))];
  }

  lemma PushStep(s: State, k: nat, n: Node)
    requires Shaped(s) && k < |s.writers|
    ensures Next(To(s, k, Pushing(n, Head(s))), WriterStep(k)) == To(s, k, Idle).(stack := s.stack + [n])
  {
    assert s.writers[k := Pushing(n, Head(s))][k := Idle] == s.writers[k := Idle];
  }

  lemma ThenThree(s: State, a: Action, k: nat)
    requires Shaped(s)
    ensures var b := WriterStep(k);
            && Shaped(Next(s, a)) && Shaped(Next(Next(s, a), b)) && Shaped(Next(Next(Next(s, a), b), b))
            && Exec(s, [a] + OnlySteps(k, 3)) == Next(Next(Next(Next(s, a), b), b), b)
  {
    var b := WriterStep(k);
    var one, two, three := [a], [a] + [b], [a] + [b] + [b];
    assert [] + [a] == one && three + [b] == [a] + OnlySteps(k, 3);
    ExecSnoc(s, [], a);
    ExecSnoc(s, one, b);
    ExecSnoc(s, two, b);
    ExecSnoc(s, three, b);
  }

  /** Every object is always in exactly one place, so it is retired, kept or destroyed once and
      a survivor of a sweep is never lost. */
  lemma ObjectsConserved(readers: nat, writers: nat, run: seq<Action>, o: nat)
    ensures var s := Exec(Init(readers, writers), run);
            && (o < s.next <==> exists p :: At(s, o, p))
            && (forall p, q :: At(s, o, p) && At(s, o, q) ==> p == q)
  {
    var s := Exec(Init(readers, writers), run);
    var home := RunKeeps(readers, writers, run);
    assert o < s.next ==> At(s, o, home[o]);
  }

  // ---- What a collection achieves ----

  /** n steps of writer k and of nobody else. */
  function OnlySteps(k: nat, n: nat): (r: seq<Action>)
    ensures |r| == n
  {
    seq(n, _ => WriterStep(k))
  }

  ghost predicate StepOf(s: State, k: nat, t: State) {
    Shaped(s) && k < |s.writers| && t == WriterNext(s, k)
  }

  /** The states writer k passes through, nobody else moving. */
  ghost predicate Trace(states: seq<State>, k: nat) {
    states != [] && forall i :: 0 <= i < |states| - 1 ==> StepOf(states[i], k, states[i + 1])
  }

  /** Writer k, undisturbed, gets from s to t. */
  ghost predicate Leads(s: State, k: nat, t: State) {
    exists states :: Trace(states, k) && states[0] == s && states[|states| - 1] == t
  }

  lemma LeadsOne(s: State, k: nat, t: State)
    requires StepOf(s, k, t)
    ensures Leads(s, k, t)
  {
    assert Trace([s, t], k);
  }

  lemma LeadsTrans(s: State, k: nat, t: State, u: State)
    requires Leads(s, k, t) && Leads(t, k, u)
    ensures Leads(s, k, u)
  {
    var a :| Trace(a, k) && a[0] == s && a[|a| - 1] == t;
    var b :| Trace(b, k) && b[0] == t && b[|b| - 1] == u;
    var c := a + b[1..];
    forall i | 0 <= i < |c| - 1
      ensures StepOf(c[i], k, c[i + 1])
    {
      if i < |a| - 1 {
        assert StepOf(a[i], k, a[i + 1]);
      } else {
        assert StepOf(b[i - |a| + 1], k, b[i - |a| + 2]);
      }
    }
    assert Trace(c, k);
  }

  lemma LeadsStep(s: State, k: nat, t: State, u: State)
    requires Leads(s, k, t) && StepOf(t, k, u)
    ensures Leads(s, k, u)
  {
    LeadsOne(t, k, u);
    LeadsTrans(s, k, t, u);
  }

  lemma ExecSnoc(s: State, run: seq<Action>, a: Action)
    requires Shaped(s)
    ensures Exec(s, run + [a]) == Next(Exec(s, run), a)
  {
    assert (run + [a])[..|run|] == run;
  }

  /** A trace behind a run is a longer run. */
  lemma {:induction false} TraceIsRun(s: State, run: seq<Action>, k: nat, states: seq<State>)
    requires Shaped(s) && Trace(states, k) && states[0] == Exec(s, run)
    ensures Exec(s, run + OnlySteps(k, |states| - 1)) == states[|states| - 1]
    decreases |states|
  {
    var n := |states| - 1;
    if n == 0 {
      assert run + OnlySteps(k, 0) == run;
    } else {
      var most, front := run + OnlySteps(k, n - 1), states[..n];
      assert Trace(front, k) by {
        forall i | 0 <= i < |front| - 1
          ensures StepOf(front[i], k, front[i + 1])
        {
          assert StepOf(states[i], k, states[i + 1]);
        }
      }
      TraceIsRun(s, run, k, front);
      ExecSnoc(s, most, WriterStep(k));
      StepIsNext(states[n - 1], k, states[n]);
      assert most + [WriterStep(k)] == run + OnlySteps(k, n);
    }
  }

  lemma StepIsNext(s: State, k: nat, t: State)
    requires StepOf(s, k, t)
    ensures Next(s, WriterStep(k)) == t
  {
  }

  /** The records a sweep at epoch now keeps, in the order it visits them (head first). */
  function Young(now: nat, todo: seq<Node>): seq<Node> {
    if todo == [] then []
    else
      var n := todo[|todo| - 1];
      (if now >= n.stamp + 2 then [] else [n]) + Young(now, todo[..|todo| - 1])
  }

  /** The objects it destroys. */
  function Aged(now: nat, todo: seq<Node>): seq<nat> {
    if todo == [] then []
    else
      var n := todo[|todo| - 1];
      (if now >= n.stamp + 2 then [n.obj] else []) + Aged(now, todo[..|todo| - 1])
  }

  lemma {:induction false} ScanLeads(s: State, k: nat, g: nat, i: nat)
    requires Shaped(s) && k < |s.writers| && s.writers[k] == Scanning(g, i) && i <= |s.slots|
    requires forall j :: i <= j < |s.slots| ==> s.slots[j] == 0 || s.slots[j] == g + 1
    ensures Leads(s, k, To(s, k, Deciding(g)))
    decreases |s.slots| - i
  {
    var t := To(s, k, Deciding(g));
    if i == |s.slots| {
      LeadsOne(s, k, t);
    } else {
      var n := To(s, k, Scanning(g, i + 1));
      LeadsOne(s, k, n);
      ScanLeads(n, k, g, i + 1);
      assert To(n, k, Deciding(g)) == t;
      LeadsTrans(s, k, n, t);
    }
  }

  lemma {:induction false} SweepLeads(s: State, k: nat, now: nat, todo: seq<Node>, keep: seq<Node>)
    requires Shaped(s) && k < |s.writers| && s.writers[k] == Sweeping(now, todo, keep)
    ensures Leads(s, k, To(s, k, Returning(keep + Young(now, todo), 0)).(destroyed := s.destroyed + Aged(now, todo)))
    decreases |todo|
  {
    var t := To(s, k, Returning(keep + Young(now, todo), 0)).(destroyed := s.destroyed + Aged(now, todo));
    if todo == [] {
      assert keep + [] == keep && s.destroyed + [] == s.destroyed;
      LeadsOne(s, k, t);
    } else {
      var head, rest := todo[|todo| - 1], todo[..|todo| - 1];
      var n := WriterNext(s, k);
      LeadsOne(s, k, n);
      var kept := if now >= head.stamp + 2 then keep else keep + [head];
      SweepLeads(n, k, now, rest, kept);
      SweepSplit(now, todo, keep, s.destroyed);
      assert To(n, k, Returning(kept + Young(now, rest), 0)).(destroyed := n.destroyed + Aged(now, rest)) == t;
      LeadsTrans(s, k, n, t);
    }
  }

  lemma SweepSplit(now: nat, todo: seq<Node>, keep: seq<Node>, gone: seq<nat>)
    requires todo != []
    ensures var head, rest := todo[|todo| - 1], todo[..|todo| - 1];
            && (if now >= head.stamp + 2 then keep else keep + [head]) + Young(now, rest) == keep + Young(now, todo)
            && (if now >= head.stamp + 2 then gone + [head.obj] else gone) + Aged(now, rest) == gone + Aged(now, todo)
  {
    var head, rest := todo[|todo| - 1], todo[..|todo| - 1];
    var young, aged := Young(now, rest), Aged(now, rest);
    if now >= head.stamp + 2 {
      assert Young(now, todo) == [] + young && [] + young == young;
      assert (gone + [head.obj]) + aged == gone + ([head.obj] + aged);
    } else {
      assert (keep + [head]) + young == keep + ([head] + young);
      assert Aged(now, todo) == [] + aged && [] + aged == aged;
    }
  }

  lemma {:induction false} ReturnLeads(s: State, k: nat, keep: seq<Node>, j: nat)
    requires Shaped(s) && k < |s.writers| && s.writers[k] == Returning(keep, j) && j <= |keep|
    ensures Leads(s, k, To(s, k, Idle).(stack := s.stack + keep[j..]))
    decreases |keep| - j
  {
    var t := To(s, k, Idle).(stack := s.stack + keep[j..]);
    if j == |keep| {
      assert s.stack + keep[j..] == s.stack;
      LeadsOne(s, k, t);
    } else {
      var seen := To(s, k, Repushing(keep, j, Head(s)));
      var n := To(s, k, Returning(keep, j + 1)).(stack := s.stack + [keep[j]]);
      PushBack(s, k, keep, j, seen, n);
      ReturnLeads(n, k, keep, j + 1);
      assert n.stack + keep[j + 1..] == s.stack + keep[j..];
      assert n.writers[k := Idle] == s.writers[k := Idle];
      LeadsTrans(s, k, n, t);
    }
  }

  /** Reading the head and pushing one record back. */
  lemma PushBack(s: State, k: nat, keep: seq<Node>, j: nat, seen: State, n: State)
    requires Shaped(s) && k < |s.writers| && s.writers[k] == Returning(keep, j) && j < |keep|
    requires seen == To(s, k, Repushing(keep, j, Head(s)))
    requires n == To(s, k, Returning(keep, j + 1)).(stack := s.stack + [keep[j]])
    ensures Leads(s, k, n)
  {
    LeadsOne(s, k, seen);
    assert seen.writers[k := Returning(keep, j + 1)] == n.writers;
    LeadsStep(s, k, seen, n);
  }

  /** The state after an undisturbed collection that nobody's pin holds back. */
  function Collected(s: State): State {
    s.(epoch := s.epoch + 1, stack := Young(s.epoch + 1, s.stack), destroyed := s.destroyed + Aged(s.epoch + 1, s.stack))
  }

  /** A collection of writer k that nobody disturbs, with every slot unpinned or at the current
      epoch, advances the epoch, destroys exactly the records two epochs behind, and puts the
      others back. */
  lemma CollectionFrees(s: State, k: nat) returns (n: nat)
    requires Shaped(s) && k < |s.writers| && s.writers[k] == Idle
    requires forall j :: 0 <= j < |s.slots| ==> s.slots[j] == 0 || s.slots[j] == s.epoch + 1
    ensures Exec(s, [Collect(k)] + OnlySteps(k, n)) == Collected(s)
  {
    var now, s1 := s.epoch + 1, To(s, k, Scanning(s.epoch, 0));
    AdvanceLeads(s, k);
    SweepAndReturn(s, k, now);
    LeadsTrans(s1, k, To(s, k, Sweeping(now, s.stack, [])).(epoch := now, stack := []), Collected(s));
    var states :| Trace(states, k) && states[0] == s1 && states[|states| - 1] == Collected(s);
    ExecSnoc(s, [], Collect(k));
    assert [] + [Collect(k)] == [Collect(k)];
    TraceIsRun(s, [Collect(k)], k, states);
    n := |states| - 1;
  }

  /** Scanning the slots, advancing the epoch and taking the stack. */
  lemma AdvanceLeads(s: State, k: nat)
    requires Shaped(s) && k < |s.writers| && s.writers[k] == Idle
    requires forall j :: 0 <= j < |s.slots| ==> s.slots[j] == 0 || s.slots[j] == s.epoch + 1
    ensures Leads(To(s, k, Scanning(s.epoch, 0)), k,
                  To(s, k, Sweeping(s.epoch + 1, s.stack, [])).(epoch := s.epoch + 1, stack := []))
  {
    var now, s1, s2 := s.epoch + 1, To(s, k, Scanning(s.epoch, 0)), To(s, k, Deciding(s.epoch));
    ScanLeads(s1, k, s.epoch, 0);
    assert To(s1, k, Deciding(s.epoch)) == s2;
    var s3 := To(s, k, Refreshing).(epoch := now);
    LeadsStep(s1, k, s2, s3);
    var s4 := To(s, k, Swapping(now)).(epoch := now);
    LeadsStep(s1, k, s3, s4);
    LeadsStep(s1, k, s4, To(s, k, Sweeping(now, s.stack, [])).(epoch := now, stack := []));
  }

  lemma SweepAndReturn(s: State, k: nat, now: nat)
    requires Shaped(s) && k < |s.writers| && s.writers[k] == Idle && now == s.epoch + 1
    ensures Leads(To(s, k, Sweeping(now, s.stack, [])).(epoch := now, stack := []), k, Collected(s))
  {
    var s5 := To(s, k, Sweeping(now, s.stack, [])).(epoch := now, stack := []);
    var keep, gone := Young(now, s.stack), Aged(now, s.stack);
    SweepLeads(s5, k, now, s.stack, []);
    assert [] + keep == keep;
    var s6 := To(s5, k, Returning(keep, 0)).(destroyed := s.destroyed + gone);
    ReturnLeads(s6, k, keep, 0);
    assert [] + keep[0..] == keep;
    BackToIdle(s, k, s6, keep);
    LeadsTrans(s5, k, s6, Collected(s));
  }

  lemma BackToIdle(s: State, k: nat, t: State, keep: seq<Node>)
    requires k < |s.writers| && s.writers[k] == Idle && keep == Young(s.epoch + 1, s.stack)
    requires t == s.(epoch := s.epoch + 1, stack := [], destroyed := s.destroyed + Aged(s.epoch + 1, s.stack), writers := t.writers)
    requires t.writers == s.writers[k := Sweeping(s.epoch + 1, s.stack, [])][k := Returning(keep, 0)]
    ensures To(t, k, Idle).(stack := keep) == Collected(s)
  {
    assert t.writers[k := Idle] == s.writers;
  }

  // ---- Stamps never run ahead of the epoch ----

  /** The retirement records a writer carries. */
  function Carried(w: Writer): seq<Node> {
    match w
    case Holding(n) => [n]
    case Pushing(n, _) => [n]
    case Sweeping(_, todo, keep) => todo + keep
    case Returning(keep, _) => keep
    case Repushing(keep, _, _) => keep
    case _ => []
  }

  ghost predicate NotAhead(nodes: seq<Node>, epoch: nat) {
    forall i :: 0 <= i < |nodes| ==> nodes[i].stamp <= epoch
  }

  ghost predicate Stamped(s: State) {
    NotAhead(s.stack, s.epoch) && forall k :: 0 <= k < |s.writers| ==> NotAhead(Carried(s.writers[k]), s.epoch)
  }

  /** What a writer carries after its step is not ahead. */
  lemma CarriedStamped(s: State, k: nat)
    requires Shaped(s) && Stamped(s) && k < |s.writers|
    ensures NotAhead(Carried(WriterNext(s, k).writers[k]), WriterNext(s, k).epoch)
  {
    assert NotAhead(Carried(s.writers[k]), s.epoch);
    if s.writers[k].Sweeping? {
      SweepStamped(s, k);
    } else if s.writers[k].Swapping? {
      assert s.stack + [] == s.stack;
    }
  }

  /** Nor is what lies on the stack. */
  lemma StackStamped(s: State, k: nat)
    requires Shaped(s) && Stamped(s) && k < |s.writers|
    ensures NotAhead(WriterNext(s, k).stack, WriterNext(s, k).epoch) && WriterNext(s, k).epoch >= s.epoch
  {
    assert NotAhead(Carried(s.writers[k]), s.epoch);
  }

  lemma WriterStamped(s: State, k: nat)
    requires Shaped(s) && Stamped(s) && k < |s.writers|
    ensures Stamped(WriterNext(s, k))
  {
    CarriedStamped(s, k);
    StackStamped(s, k);
    OtherWriters(s, k);
    forall j | 0 <= j < |s.writers| && j != k
      ensures NotAhead(Carried(WriterNext(s, k).writers[j]), WriterNext(s, k).epoch)
    {
      assert NotAhead(Carried(s.writers[j]), s.epoch);
    }
  }

  lemma OtherWriters(s: State, k: nat)
    requires Shaped(s) && k < |s.writers|
    ensures var n := WriterNext(s, k);
            |n.writers| == |s.writers| && forall j :: 0 <= j < |s.writers| && j != k ==> n.writers[j] == s.writers[j]
  {
  }

  lemma SweepStamped(s: State, k: nat)
    requires Shaped(s) && k < |s.writers| && s.writers[k].Sweeping? && NotAhead(Carried(s.writers[k]), s.epoch)
    ensures NotAhead(Carried(WriterNext(s, k).writers[k]), s.epoch)
  {
    var Sweeping(now, todo, keep) := s.writers[k];
    forall i | 0 <= i < |todo|
      ensures todo[i].stamp <= s.epoch
    {
      assert (todo + keep)[i] == todo[i];
    }
    forall i | 0 <= i < |keep|
      ensures keep[i].stamp <= s.epoch
    {
      assert (todo + keep)[|todo| + i] == keep[i];
    }
  }

  lemma {:induction false} RunStamped(readers: nat, writers: nat, run: seq<Action>)
    ensures Stamped(Exec(Init(readers, writers), run))
    decreases |run|
  {
    if run != [] {
      var s, a := Exec(Init(readers, writers), run[..|run| - 1]), run[|run| - 1];
      RunStamped(readers, writers, run[..|run| - 1]);
      if a.WriterStep? {
        if a.k < |s.writers| {
          WriterStamped(s, a.k);
        }
      } else {
        QuietStamped(s, a);
      }
    }
  }

  lemma QuietStamped(s: State, a: Action)
    requires Shaped(s) && Stamped(s) && !a.WriterStep?
    ensures Stamped(Next(s, a))
  {
    var n := Next(s, a);
    forall k | 0 <= k < |n.writers|
      ensures NotAhead(Carried(n.writers[k]), n.epoch)
    {
      assert NotAhead(Carried(s.writers[k]), s.epoch);
    }
  }

  /** Nothing young is left of records whose stamps are at least two behind. */
  lemma {:induction false} AllAged(now: nat, todo: seq<Node>)
    requires forall i :: 0 <= i < |todo| ==> now >= todo[i].stamp + 2
    ensures Young(now, todo) == []
    decreases |todo|
  {
    if todo != [] {
      AllAged(now, todo[..|todo| - 1]);
    }
  }

  lemma {:induction false} YoungFrom(now: nat, todo: seq<Node>, n: Node)
    requires n in Young(now, todo)
    ensures n in todo
    decreases |todo|
  {
    if todo != [] && n != todo[|todo| - 1] {
      YoungFrom(now, todo[..|todo| - 1], n);
    }
  }

  /** Nothing retired leaks: from every reachable state with nobody pinned, two undisturbed
      collections of an idle writer empty the stack. */
  lemma TwoCollectionsFreeAll(readers: nat, writers: nat, run: seq<Action>, k: nat) returns (n1: nat, n2: nat)
    requires var s := Exec(Init(readers, writers), run);
             k < |s.writers| && s.writers[k] == Idle && forall j :: 0 <= j < |s.slots| ==> s.slots[j] == 0
    ensures var s := Exec(Init(readers, writers), run);
            && Exec(s, [Collect(k)] + OnlySteps(k, n1)) == Collected(s)
            && Exec(Collected(s), [Collect(k)] + OnlySteps(k, n2)) == Collected(Collected(s))
            && Collected(Collected(s)).stack == []
  {
    var s := Exec(Init(readers, writers), run);
    RunStamped(readers, writers, run);
    n1 := CollectionFrees(s, k);
    n2 := CollectionFrees(Collected(s), k);
    TwoSweepsEmpty(s);
  }

  lemma TwoSweepsEmpty(s: State)
    requires Stamped(s)
    ensures Collected(Collected(s)).stack == []
  {
    var t := Collected(s);
    forall i | 0 <= i < |t.stack|
      ensures t.epoch + 1 >= t.stack[i].stamp + 2
    {
      YoungFrom(s.epoch + 1, s.stack, t.stack[i]);
    }
    AllAged(t.epoch + 1, t.stack);
  }
}
