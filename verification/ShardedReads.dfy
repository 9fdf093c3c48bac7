/** Lock-free reads of a shard against a concurrent writer, on a map without remove, as a step
    system. Readers probe slot by slot, loading state, key and value in separate steps; the writer
    claims and publishes a slot in four stores, overwrites by one swap, and doubles by moving the
    values out of the old table one swap at a time before it publishes the new one. All steps are
    atomic and sequentially consistent. */
module ShardedReads {
  import opened Options
  import opened Probes

  datatype Stage = Vacant | Claimed | Live

  /** A slot: value None is the null pointer. */
  datatype Cell<V> = Cell(stage: Stage, key: nat, value: Option<V>)

  /** present records whether the key was in the map when the read began. */
  datatype Reader =
    | Resting
    | Probing(key: nat, t: nat, d: nat, present: bool)   // about to load the state of probe d
    | SawLive(key: nat, t: nat, d: nat, present: bool)   // state read as full
    | SawKey(key: nat, t: nat, i: nat, present: bool)    // key matched in slot i

  datatype Writer<V> =
    | Idle
    | Found(p: nat, key: nat, value: V)                  // vacant slot p chosen
    | Reserved(p: nat, key: nat, value: V)               // state stored
    | Keyed(p: nat, key: nat, value: V)                  // key stored
    | Valued(p: nat, key: nat, value: V)                 // value stored
    | Moving(p: nat, carried: map<nat, V>, key: nat, value: V)  // slots below p moved out

  datatype State<V> = State(tables: seq<seq<Cell<V>>>, contents: map<nat, V>, readers: seq<Reader>, writer: Writer<V>)

  datatype Action<V> =
    | Insert(key: nat, value: V) | WriterStep | Publish(doubled: seq<Cell<V>>)
    | Get(r: nat, key: nat) | ReaderStep(r: nat)

  function Start<V>(cap: nat, readers: nat): State<V> {
    State([seq(cap, _ => Cell(Vacant, 0, None))], map[], seq(readers, _ => Resting), Idle)
  }

  predicate Shaped<V>(s: State<V>) {
    s.tables != [] && forall t :: 0 <= t < |s.tables| ==> |s.tables[t]| >= 8
  }

  function Current<V>(s: State<V>): seq<Cell<V>>
    requires s.tables != []
  {
    s.tables[|s.tables| - 1]
  }

  /** The slot of probe d of a key. */
  function ProbeAt(cap: nat, key: nat, d: nat): (p: nat)
    requires d < cap
    ensures p < cap
  {
    At(cap, Home(key, cap), d)
  }

  /** How many probes of a key come before slot p. */
  function ProbesTo(cap: nat, key: nat, p: nat): (d: nat)
    requires p < cap
    ensures d < cap && ProbeAt(cap, key, d) == p
  {
    Steps(cap, Home(key, cap), p)
  }

  datatype Sought = Hit(p: nat) | Free(p: nat) | Saturated

  /** The writer's walk: the key's slot, or the first vacant slot. */
  function Seek<V>(tab: seq<Cell<V>>, key: nat, d: nat): Sought
    requires d <= |tab|
    decreases |tab| - d
  {
    if d == |tab| then Saturated
    else
      var c := tab[ProbeAt(|tab|, key, d)];
      if c.stage == Vacant then Free(ProbeAt(|tab|, key, d))
      else if c.stage == Live && c.key == key then Hit(ProbeAt(|tab|, key, d))
      else Seek(tab, key, d + 1)
  }

  function WithCell<V>(s: State<V>, p: nat, c: Cell<V>): State<V>
    requires s.tables != [] && p < |Current(s)|
  {
    s.(tables := s.tables[|s.tables| - 1 := Current(s)[p := c]])
  }

  /** Begin an insertion: overwrite at once, choose a slot, or start to move. */
  function InsertNext<V>(s: State<V>, key: nat, value: V): State<V>
    requires Shaped(s)
  {
    match Seek(Current(s), key, 0)
    case Hit(p) =>
      if p < |Current(s)|
      then WithCell(s, p, Current(s)[p].(value := Some(value))).(contents := s.contents[key := value], writer := Idle)
      else s
    case Free(p) => s.(writer := Found(p, key, value))
    case Saturated => s.(writer := Moving(0, map[], key, value))
  }

  function WriterNext<V>(s: State<V>): State<V>
    requires Shaped(s)
  {
    var n := |Current(s)|;
    match s.writer
    case Idle => s
    case Found(p, k, v) =>
      if p < n then WithCell(s, p, Current(s)[p].(stage := Claimed)).(writer := Reserved(p, k, v)) else s
    case Reserved(p, k, v) =>
      if p < n then WithCell(s, p, Current(s)[p].(key := k)).(writer := Keyed(p, k, v)) else s
    case Keyed(p, k, v) =>
      if p < n then WithCell(s, p, Current(s)[p].(value := Some(v))).(writer := Valued(p, k, v)) else s
    case Valued(p, k, v) =>
      if p < n then WithCell(s, p, Current(s)[p].(stage := Live)).(contents := s.contents[k := v], writer := Idle) else s
    case Moving(p, carried, k, v) =>
      if p >= n then s
      else
        var c := Current(s)[p];
        if c.stage == Live && c.value.Some?
        then WithCell(s, p, c.(value := None)).(writer := Moving(p + 1, carried[c.key := c.value.value], k, v))
        else s.(writer := Moving(p + 1, carried, k, v))
  }

  /** Every live cell lies where its key's probes find it, and no key lies twice. */
  ghost predicate Sited<V>(tab: seq<Cell<V>>) {
    && |tab| >= 8
    && (forall p :: 0 <= p < |tab| && tab[p].stage == Live ==> Clear(tab, tab[p].key, p))
    && (forall p, q :: 0 <= p < q < |tab| && tab[p].stage == Live && tab[q].stage == Live ==> tab[p].key != tab[q].key)
  }

  /** No vacant slot among the probes of key before slot p. */
  ghost predicate Clear<V>(tab: seq<Cell<V>>, key: nat, p: nat)
    requires p < |tab|
  {
    forall e :: 0 <= e < ProbesTo(|tab|, key, p) ==> tab[ProbeAt(|tab|, key, e)].stage != Vacant
  }

  /** A finished private table: it holds exactly these entries. */
  ghost predicate Holding<V>(tab: seq<Cell<V>>, m: map<nat, V>) {
    && Sited(tab)
    && (forall p :: 0 <= p < |tab| ==> tab[p].stage != Claimed)
    && (forall p :: 0 <= p < |tab| && tab[p].stage == Live ==> tab[p].key in m && tab[p].value == Some(m[tab[p].key]))
    && (forall k :: k in m ==> Sits(tab, k))
  }

  ghost predicate Sits<V>(tab: seq<Cell<V>>, key: nat) {
    exists p :: 0 <= p < |tab| && tab[p].stage == Live && tab[p].key == key
  }

  /** Publish a doubled table that holds what was moved, then take the insertion up again. */
  ghost function PublishNext<V>(s: State<V>, doubled: seq<Cell<V>>): State<V>
    requires Shaped(s)
  {
    if s.writer.Moving? && s.writer.p >= |Current(s)| && |doubled| == 2 * |Current(s)| && Holding(doubled, s.writer.carried)
    then InsertNext(s.(tables := s.tables + [doubled]), s.writer.key, s.writer.value)
    else s
  }

  function ReaderAt<V>(s: State<V>, r: nat, x: Reader): State<V>
    requires r < |s.readers|
  {
    s.(readers := s.readers[r := x])
  }

  /** The next probe, or the end of a full cycle. */
  function NextProbe<V>(tab: seq<Cell<V>>, key: nat, t: nat, d: nat, present: bool): Reader {
    if d + 1 < |tab| then Probing(key, t, d + 1, present) else Resting
  }

  /** One load of a read; Resting means it returned. */
  function ReaderNext<V>(s: State<V>, r: nat): State<V>
    requires Shaped(s) && r < |s.readers|
  {
    match s.readers[r]
    case Resting => s
    case Probing(key, t, d, present) =>
      if t >= |s.tables| || d >= |s.tables[t]| then s
      else
        var tab := s.tables[t];
        (match tab[ProbeAt(|tab|, key, d)].stage
         case Vacant => ReaderAt(s, r, Resting)
         case Live => ReaderAt(s, r, SawLive(key, t, d, present))
         case Claimed => ReaderAt(s, r, NextProbe(tab, key, t, d, present)))
    case SawLive(key, t, d, present) =>
      if t >= |s.tables| || d >= |s.tables[t]| then s
      else
        var tab := s.tables[t];
        if tab[ProbeAt(|tab|, key, d)].key == key then ReaderAt(s, r, SawKey(key, t, ProbeAt(|tab|, key, d), present))
        else ReaderAt(s, r, NextProbe(tab, key, t, d, present))
    case SawKey(_, _, _, _) => ReaderAt(s, r, Resting)
  }

  /** The value the next step of a read returns, if it returns one. */
  function Returns<V>(s: State<V>, r: nat): Option<V> {
    if r < |s.readers| && s.readers[r].SawKey? && s.readers[r].t < |s.tables| && s.readers[r].i < |s.tables[s.readers[r].t]|
    then s.tables[s.readers[r].t][s.readers[r].i].value
    else None
  }

  ghost function Next<V>(s: State<V>, a: Action<V>): State<V>
    requires Shaped(s)
  {
    match a
    case Insert(key, value) => if s.writer.Idle? then InsertNext(s, key, value) else s
    case WriterStep => WriterNext(s)
    case Publish(doubled) => PublishNext(s, doubled)
    case Get(r, key) =>
      if r < |s.readers| && s.readers[r].Resting?
      then ReaderAt(s, r, Probing(key, |s.tables| - 1, 0, key in s.contents))
      else s
    case ReaderStep(r) => if r < |s.readers| then ReaderNext(s, r) else s
  }

  /** The state after a finite interleaving. */
  ghost function Exec<V>(s: State<V>, run: seq<Action<V>>): State<V>
    requires Shaped(s)
    decreases |run|
  {
    if run == [] then s
    else
      var before := Exec(s, run[..|run| - 1]);
      if Shaped(before) then Next(before, run[|run| - 1]) else before
  }

  // ---- The invariant ----

  /** Slots below this have had their values moved out. */
  function MovedBelow<V>(w: Writer<V>): nat {
    if w.Moving? then w.p else 0
  }

  ghost predicate CellOk<V>(c: Cell<V>, p: nat, contents: map<nat, V>, moved: nat) {
    c.stage == Live ==>
      c.key in contents && c.value == if p < moved then None else Some(contents[c.key])
  }

  /** The table readers are sent to holds the map, less what a resize has moved out. */
  ghost predicate CurrentOk<V>(tab: seq<Cell<V>>, contents: map<nat, V>, moved: nat) {
    && Sited(tab)
    && (forall p :: 0 <= p < |tab| ==> CellOk(tab[p], p, contents, moved))
    && (forall k :: k in contents ==> Sits(tab, k))
  }

  /** Nothing can be read from a table that has been replaced. */
  ghost predicate Spent<V>(tab: seq<Cell<V>>) {
    |tab| >= 8 && forall p :: 0 <= p < |tab| && tab[p].stage == Live ==> tab[p].value == None
  }

  ghost predicate Filling<V>(tab: seq<Cell<V>>, contents: map<nat, V>, p: nat, key: nat) {
    p < |tab| && key !in contents && Clear(tab, key, p)
  }

  ghost predicate WriterOk<V>(w: Writer<V>, tab: seq<Cell<V>>, contents: map<nat, V>) {
    match w
    case Idle => true
    case Found(p, k, _) => Filling(tab, contents, p, k) && tab[p].stage == Vacant
    case Reserved(p, k, _) => Filling(tab, contents, p, k) && tab[p].stage == Claimed
    case Keyed(p, k, _) => Filling(tab, contents, p, k) && tab[p].stage == Claimed && tab[p].key == k
    case Valued(p, k, v) => Filling(tab, contents, p, k) && tab[p] == Cell(Claimed, k, Some(v))
    case Moving(p, carried, _, _) =>
      && p <= |tab|
      && (forall k :: k in carried ==> k in contents && carried[k] == contents[k])
      && (forall q :: 0 <= q < p && tab[q].stage == Live ==> tab[q].key in carried)
  }

  /** The only claimed slot is the writer's. */
  ghost predicate ClaimOk<V>(w: Writer<V>, tab: seq<Cell<V>>) {
    forall p :: 0 <= p < |tab| && tab[p].stage == Claimed ==> (w.Reserved? || w.Keyed? || w.Valued?) && w.p == p
  }

  /** The key lies in the table at a slot that probe d has not passed. */
  ghost predicate Ahead<V>(tab: seq<Cell<V>>, key: nat, d: nat) {
    exists p :: Spot(tab, key, d, p)
  }

  ghost predicate Spot<V>(tab: seq<Cell<V>>, key: nat, d: nat, p: nat) {
    p < |tab| && tab[p].stage == Live && tab[p].key == key && Clear(tab, key, p) && d <= ProbesTo(|tab|, key, p)
  }

  ghost predicate ReaderOk<V>(tables: seq<seq<Cell<V>>>, x: Reader) {
    match x
    case Resting => true
    case Probing(key, t, d, present) =>
      t < |tables| && d < |tables[t]| && (present ==> Ahead(tables[t], key, d))
    case SawLive(key, t, d, present) =>
      && t < |tables| && d < |tables[t]| && (present ==> Ahead(tables[t], key, d))
      && tables[t][ProbeAt(|tables[t]|, key, d)].stage == Live
    case SawKey(key, t, i, _) =>
      t < |tables| && i < |tables[t]| && tables[t][i].stage == Live && tables[t][i].key == key
  }

  ghost predicate Inv<V>(s: State<V>) {
    && Shaped(s)
    && CurrentOk(Current(s), s.contents, MovedBelow(s.writer))
    && (forall t :: 0 <= t < |s.tables| - 1 ==> Spent(s.tables[t]))
    && WriterOk(s.writer, Current(s), s.contents) && ClaimOk(s.writer, Current(s))
    && (forall r :: 0 <= r < |s.readers| ==> ReaderOk(s.tables, s.readers[r]))
  }

  // ---- What a reader saw stays true ----

  /** Live slots keep their key, and no slot becomes vacant again. */
  ghost predicate Matures<V>(a: seq<Cell<V>>, b: seq<Cell<V>>) {
    && |b| == |a|
    && (forall i :: 0 <= i < |a| && a[i].stage == Live ==> b[i].stage == Live && b[i].key == a[i].key)
    && (forall i :: 0 <= i < |a| && a[i].stage != Vacant ==> b[i].stage != Vacant)
  }

  lemma AheadMatures<V>(a: seq<Cell<V>>, b: seq<Cell<V>>, key: nat, d: nat)
    requires Matures(a, b) && Ahead(a, key, d)
    ensures Ahead(b, key, d)
  {
    var p :| Spot(a, key, d, p);
    assert Spot(b, key, d, p);
  }

  lemma ReadersMature<V>(before: seq<seq<Cell<V>>>, after: seq<seq<Cell<V>>>, x: Reader)
    requires |before| <= |after| && ReaderOk(before, x)
    requires forall t :: 0 <= t < |before| ==> Matures(before[t], after[t])
    ensures ReaderOk(after, x)
  {
    if (x.Probing? || x.SawLive?) && x.present {
      AheadMatures(before[x.t], after[x.t], x.key, x.d);
    }
  }

  // ---- Reader steps ----

  lemma ReaderMoves<V>(s: State<V>, r: nat)
    requires Inv(s) && r < |s.readers|
    ensures ReaderOk(s.tables, ReaderNext(s, r).readers[r])
  {
    var x := s.readers[r];
    assert ReaderOk(s.tables, x);
    if (x.Probing? || x.SawLive?) && x.present {
      var tab := s.tables[x.t];
      var p :| Spot(tab, x.key, x.d, p);
      assert ProbesTo(|tab|, x.key, p) > x.d ==> Spot(tab, x.key, x.d + 1, p);
    }
  }

  /** A read of a key that was there when it began never ends before it has matched the key. */
  lemma PresentIsMatched<V>(s: State<V>, r: nat)
    requires Inv(s) && r < |s.readers| && (s.readers[r].Probing? || s.readers[r].SawLive?) && s.readers[r].present
    ensures !ReaderNext(s, r).readers[r].Resting?
  {
    var x := s.readers[r];
    assert ReaderOk(s.tables, x);
    var tab := s.tables[x.t];
    var p :| Spot(tab, x.key, x.d, p);
  }

  lemma ReaderKeeps<V>(s: State<V>, r: nat)
    requires Inv(s) && r < |s.readers|
    ensures Inv(ReaderNext(s, r))
  {
    ReaderMoves(s, r);
    ReaderOnly(s, r);
    OneReader(s, r, ReaderNext(s, r).readers[r]);
  }

  /** A load changes nothing but its reader. */
  lemma ReaderOnly<V>(s: State<V>, r: nat)
    requires Shaped(s) && r < |s.readers|
    ensures ReaderNext(s, r) == ReaderAt(s, r, ReaderNext(s, r).readers[r])
  {
    assert s.readers[r := s.readers[r]] == s.readers;
  }

  lemma OneReader<V>(s: State<V>, r: nat, x: Reader)
    requires Inv(s) && r < |s.readers| && ReaderOk(s.tables, x)
    ensures Inv(ReaderAt(s, r, x))
  {
  }

  lemma GetKeeps<V>(s: State<V>, r: nat, key: nat)
    requires Inv(s) && r < |s.readers|
    ensures Inv(ReaderAt(s, r, Probing(key, |s.tables| - 1, 0, key in s.contents)))
  {
    var tab := Current(s);
    if key in s.contents {
      assert Sits(tab, key);
      var p :| 0 <= p < |tab| && tab[p].stage == Live && tab[p].key == key;
      assert Spot(tab, key, 0, p);
    }
  }

  // ---- Writer steps ----

  /** Readers and replaced tables do not mind a change that matures the current table. */
  lemma RestKept<V>(s: State<V>, n: State<V>, tab: seq<Cell<V>>)
    requires Inv(s.(writer := Idle)) || Inv(s)
    requires Matures(Current(s), tab) && n.tables == s.tables[|s.tables| - 1 := tab] && n.readers == s.readers
    requires CurrentOk(tab, n.contents, MovedBelow(n.writer)) && WriterOk(n.writer, tab, n.contents) && ClaimOk(n.writer, tab)
    ensures Inv(n)
  {
    forall r | 0 <= r < |n.readers|
      ensures ReaderOk(n.tables, n.readers[r])
    {
      ReadersMature(s.tables, n.tables, s.readers[r]);
    }
  }

  /** Changing a slot that is not live, to one that is not vacant, keeps the table in order. */
  lemma SitedFill<V>(tab: seq<Cell<V>>, p: nat, c: Cell<V>)
    requires Sited(tab) && p < |tab| && tab[p].stage != Live && c.stage != Vacant
    requires c.stage == Live ==> Clear(tab, c.key, p) && !Sits(tab, c.key)
    ensures Sited(tab[p := c]) && Matures(tab, tab[p := c])
  {
    var n := tab[p := c];
    forall q | 0 <= q < |n| && n[q].stage == Live
      ensures Clear(n, n[q].key, q)
    {
      assert Clear(tab, n[q].key, q);
    }
  }

  lemma SitsKept<V>(a: seq<Cell<V>>, b: seq<Cell<V>>, key: nat)
    requires Matures(a, b) && Sits(a, key)
    ensures Sits(b, key)
  {
    var p :| 0 <= p < |a| && a[p].stage == Live && a[p].key == key;
    assert b[p].stage == Live;
  }

  lemma ClearKept<V>(a: seq<Cell<V>>, b: seq<Cell<V>>, key: nat, p: nat)
    requires Matures(a, b) && p < |a| && Clear(a, key, p)
    ensures Clear(b, key, p)
  {
  }

  /** The three stores that prepare a slot. */
  lemma PrepareKeeps<V>(s: State<V>)
    requires Inv(s) && (s.writer.Found? || s.writer.Reserved? || s.writer.Keyed?)
    ensures Inv(WriterNext(s))
  {
    var tab, p, n := Current(s), s.writer.p, WriterNext(s);
    var c := Current(n)[p];
    assert c.stage == Claimed && Current(n) == tab[p := c];
    SitedFill(tab, p, c);
    ClearKept(tab, Current(n), s.writer.key, p);
    forall k | k in s.contents
      ensures Sits(Current(n), k)
    {
      SitsKept(tab, Current(n), k);
    }
    RestKept(s, n, Current(n));
  }

  /** The store that makes a prepared slot live. */
  lemma FinishKeeps<V>(s: State<V>)
    requires Inv(s) && s.writer.Valued?
    ensures Inv(WriterNext(s))
  {
    var tab, n := Current(s), WriterNext(s);
    var Valued(p, k, v) := s.writer;
    var c := Cell(Live, k, Some(v));
    assert Current(n) == tab[p := c];
    assert !Sits(tab, k) by {
      forall q | 0 <= q < |tab| && tab[q].stage == Live
        ensures tab[q].key != k
      {
        assert CellOk(tab[q], q, s.contents, 0);
      }
    }
    SitedFill(tab, p, c);
    forall q | 0 <= q < |tab|
      ensures CellOk(Current(n)[q], q, n.contents, 0)
    {
      assert CellOk(tab[q], q, s.contents, 0);
    }
    forall j | j in n.contents
      ensures Sits(Current(n), j)
    {
      if j == k {
        assert Current(n)[p].stage == Live;
      } else {
        SitsKept(tab, Current(n), j);
      }
    }
    RestKept(s, n, Current(n));
  }

  /** Changing only the value of a live slot. */
  lemma ValueMatures<V>(tab: seq<Cell<V>>, p: nat, value: Option<V>)
    requires Sited(tab) && p < |tab|
    ensures var n := tab[p := tab[p].(value := value)]; Sited(n) && Matures(tab, n) && Matures(n, tab)
  {
    var n := tab[p := tab[p].(value := value)];
    forall q | 0 <= q < |n| && n[q].stage == Live
      ensures Clear(n, n[q].key, q)
    {
      assert Clear(tab, n[q].key, q);
    }
  }

  /** The table after slot p's value has been moved out. */
  lemma MoveCurrent<V>(tab: seq<Cell<V>>, contents: map<nat, V>, p: nat, n: seq<Cell<V>>)
    requires CurrentOk(tab, contents, p) && p < |tab|
    requires n == tab[p := tab[p].(value := if tab[p].stage == Live then None else tab[p].value)]
    ensures CurrentOk(n, contents, p + 1) && Matures(tab, n)
  {
    ValueMatures(tab, p, if tab[p].stage == Live then None else tab[p].value);
    forall q | 0 <= q < |tab|
      ensures CellOk(n[q], q, contents, p + 1)
    {
      assert CellOk(tab[q], q, contents, p);
    }
    forall k | k in contents
      ensures Sits(n, k)
    {
      SitsKept(tab, n, k);
    }
  }

  /** A resize moves one slot. */
  lemma MoveKeeps<V>(s: State<V>)
    requires Inv(s) && s.writer.Moving?
    ensures Inv(WriterNext(s))
  {
    var tab, n, p := Current(s), WriterNext(s), s.writer.p;
    if p < |tab| {
      assert CellOk(tab[p], p, s.contents, p);
      var after := tab[p := tab[p].(value := if tab[p].stage == Live then None else tab[p].value)];
      assert tab[p].stage != Live ==> after == tab;
      assert s.tables[|s.tables| - 1 := tab] == s.tables;
      MoveCurrent(tab, s.contents, p, after);
      RestKept(s, n, after);
    }
  }

  // ---- Beginning an insertion ----

  /** The first d probes of a key meet neither it nor a vacant slot. */
  ghost predicate Past<V>(tab: seq<Cell<V>>, key: nat, d: nat) {
    d <= |tab| && forall e :: 0 <= e < d ==>
      var c := tab[ProbeAt(|tab|, key, e)]; c.stage != Vacant && !(c.stage == Live && c.key == key)
  }

  /** No slot is vacant. */
  ghost predicate Packed<V>(tab: seq<Cell<V>>) {
    forall q :: 0 <= q < |tab| ==> tab[q].stage != Vacant
  }

  lemma {:induction false} SeekFinds<V>(tab: seq<Cell<V>>, key: nat, d: nat)
    requires Sited(tab) && Past(tab, key, d)
    ensures match Seek(tab, key, d)
            case Hit(p) => p < |tab| && tab[p].stage == Live && tab[p].key == key
            case Free(p) => p < |tab| && tab[p].stage == Vacant && Clear(tab, key, p) && !Sits(tab, key)
            case Saturated => Packed(tab) && !Sits(tab, key)
    decreases |tab| - d
  {
    if d == |tab| {
      forall q | 0 <= q < |tab|
        ensures tab[q].stage != Vacant && !(tab[q].stage == Live && tab[q].key == key)
      {
        assert ProbesTo(|tab|, key, q) < d;
      }
    } else {
      var p := ProbeAt(|tab|, key, d);
      var c := tab[p];
      if c.stage == Vacant {
        forall q | 0 <= q < |tab| && tab[q].stage == Live
          ensures tab[q].key != key
        {
          var e := ProbesTo(|tab|, key, q);
          assert Clear(tab, tab[q].key, q);
          assert e < d ==> tab[q].key != key;
        }
        assert ProbesTo(|tab|, key, p) == d;
      } else if !(c.stage == Live && c.key == key) {
        SeekFinds(tab, key, d + 1);
      }
    }
  }

  lemma OverwriteKeeps<V>(s: State<V>, key: nat, value: V, p: nat)
    requires Inv(s.(writer := Idle)) && p < |Current(s)| && Current(s)[p].stage == Live && Current(s)[p].key == key
    ensures Inv(WithCell(s, p, Current(s)[p].(value := Some(value))).(contents := s.contents[key := value], writer := Idle))
  {
    var tab := Current(s);
    var n := WithCell(s, p, tab[p].(value := Some(value))).(contents := s.contents[key := value], writer := Idle);
    ValueMatures(tab, p, Some(value));
    forall q | 0 <= q < |tab|
      ensures CellOk(Current(n)[q], q, n.contents, 0)
    {
      assert CellOk(tab[q], q, s.contents, 0);
      assert q < p && tab[q].stage == Live ==> tab[q].key != key;
      assert p < q && tab[q].stage == Live ==> tab[q].key != key;
    }
    forall j | j in n.contents
      ensures Sits(Current(n), j)
    {
      if j == key {
        assert Current(n)[p].stage == Live;
      } else {
        SitsKept(tab, Current(n), j);
      }
    }
    RestKept(s, n, Current(n));
  }

  lemma InsertKeeps<V>(s: State<V>, key: nat, value: V)
    requires Inv(s.(writer := Idle))
    ensures Inv(InsertNext(s, key, value))
  {
    var tab := Current(s);
    SeekFinds(tab, key, 0);
    match Seek(tab, key, 0)
    case Hit(p) => OverwriteKeeps(s, key, value, p);
    case Free(p) =>
      assert key in s.contents ==> Sits(tab, key);
    case Saturated =>
  }

  /** Once everything is moved out, what was carried over is the map. */
  lemma CarriedIsAll<V>(s: State<V>)
    requires Inv(s) && s.writer.Moving? && s.writer.p >= |Current(s)|
    ensures s.writer.carried == s.contents && Spent(Current(s))
  {
    var tab := Current(s);
    forall k | k in s.contents
      ensures k in s.writer.carried
    {
      assert Sits(tab, k);
      var q :| 0 <= q < |tab| && tab[q].stage == Live && tab[q].key == k;
    }
    forall q | 0 <= q < |tab| && tab[q].stage == Live
      ensures tab[q].value == None
    {
      assert CellOk(tab[q], q, s.contents, s.writer.p);
    }
  }

  /** A published table gives a state in which the insertion can begin again. */
  lemma PublishReady<V>(s: State<V>, doubled: seq<Cell<V>>)
    requires Inv(s) && s.writer.Moving? && s.writer.p >= |Current(s)| && Holding(doubled, s.writer.carried)
    ensures Inv(s.(tables := s.tables + [doubled], writer := Idle))
  {
    CarriedIsAll(s);
    var m := s.(tables := s.tables + [doubled], writer := Idle);
    forall r | 0 <= r < |m.readers|
      ensures ReaderOk(m.tables, m.readers[r])
    {
      ReadersMature(s.tables, m.tables, s.readers[r]);
    }
  }

  lemma PublishKeeps<V>(s: State<V>, doubled: seq<Cell<V>>)
    requires Inv(s)
    ensures Inv(PublishNext(s, doubled))
  {
    var n := PublishNext(s, doubled);
    if s.writer.Moving? && s.writer.p >= |Current(s)| && |doubled| == 2 * |Current(s)| && Holding(doubled, s.writer.carried) {
      PublishReady(s, doubled);
      InsertKeeps(s.(tables := s.tables + [doubled]), s.writer.key, s.writer.value);
    }
  }

  lemma StepKeeps<V>(s: State<V>, a: Action<V>)
    requires Inv(s)
    ensures Inv(Next(s, a))
  {
    match a
    case Insert(key, value) =>
      if s.writer.Idle? {
        InsertKeeps(s, key, value);
      }
    case WriterStep =>
      if s.writer.Moving? {
        MoveKeeps(s);
      } else if s.writer.Valued? {
        FinishKeeps(s);
      } else if !s.writer.Idle? {
        PrepareKeeps(s);
      }
    case Publish(doubled) => PublishKeeps(s, doubled);
    case Get(r, key) =>
      if r < |s.readers| && s.readers[r].Resting? {
        GetKeeps(s, r, key);
      }
    case ReaderStep(r) =>
      if r < |s.readers| {
        ReaderKeeps(s, r);
      }
  }

  lemma {:induction false} RunKeeps<V>(cap: nat, readers: nat, run: seq<Action<V>>)
    requires cap >= 8
    ensures Inv(Exec(Start(cap, readers), run))
    decreases |run|
  {
    if run != [] {
      RunKeeps(cap, readers, run[..|run| - 1]);
      StepKeeps(Exec(Start(cap, readers), run[..|run| - 1]), run[|run| - 1]);
    }
  }

  // ---- What the run itself says ----

  /** The inserts that found the writer idle, in order. */
  ghost function Accepted<V>(cap: nat, readers: nat, run: seq<Action<V>>): seq<(nat, V)>
    requires cap >= 8
    decreases |run|
  {
    if run == [] then []
    else
      var most, a := run[..|run| - 1], run[|run| - 1];
      Accepted(cap, readers, most) + Begun(Exec(Start(cap, readers), most), a)
  }

  ghost function Begun<V>(s: State<V>, a: Action<V>): seq<(nat, V)> {
    if a.Insert? && s.writer.Idle? then [(a.key, a.value)] else []
  }

  /** A plain map after these inserts. */
  ghost function Replay<V>(list: seq<(nat, V)>): map<nat, V> {
    if list == [] then map[]
    else
      var (k, v) := list[|list| - 1];
      Replay(list[..|list| - 1])[k := v]
  }

  /** The map holds all inserts, but for the one the writer is at. */
  ghost predicate Holds<V>(s: State<V>, list: seq<(nat, V)>) {
    if s.writer.Idle? then s.contents == Replay(list)
    else list != [] && list[|list| - 1] == (s.writer.key, s.writer.value) && s.contents == Replay(list[..|list| - 1])
  }

  lemma BeginHolds<V>(s: State<V>, key: nat, value: V, list: seq<(nat, V)>)
    requires Inv(s.(writer := Idle)) && list != [] && list[|list| - 1] == (key, value) && s.contents == Replay(list[..|list| - 1])
    ensures Holds(InsertNext(s, key, value), list)
  {
    SeekFinds(Current(s), key, 0);
  }

  lemma StepHolds<V>(s: State<V>, a: Action<V>, list: seq<(nat, V)>)
    requires Inv(s) && Holds(s, list)
    ensures Holds(Next(s, a), list + Begun(s, a))
  {
    if a.Insert? && s.writer.Idle? {
      assert (list + Begun(s, a))[..|list|] == list;
      BeginHolds(s, a.key, a.value, list + Begun(s, a));
    } else {
      assert list + Begun(s, a) == list;
      if a.Publish? && Next(s, a) != s {
        CarriedIsAll(s);
        PublishReady(s, a.doubled);
        BeginHolds(s.(tables := s.tables + [a.doubled]), s.writer.key, s.writer.value, list);
      }
    }
  }

  /** In every interleaving the map holds exactly the inserts of the run, the later one winning,
      but for the one still under way. */
  lemma {:induction false} ContentsAreInserts<V>(cap: nat, readers: nat, run: seq<Action<V>>)
    requires cap >= 8
    ensures Holds(Exec(Start(cap, readers), run), Accepted(cap, readers, run))
    decreases |run|
  {
    if run != [] {
      var most := run[..|run| - 1];
      ContentsAreInserts(cap, readers, most);
      RunKeeps(cap, readers, most);
      StepHolds(Exec(Start(cap, readers), most), run[|run| - 1], Accepted(cap, readers, most));
    }
  }

  /** The n-th step of the run begins a read of key by reader r, and r begins no other after it. */
  ghost predicate ReadBegins<V>(cap: nat, readers: nat, run: seq<Action<V>>, n: nat, r: nat, key: nat)
    requires cap >= 8
  {
    && n < |run| && run[n] == Get(r, key)
    && (var s := Exec(Start(cap, readers), run[..n]); r < |s.readers| && s.readers[r].Resting?)
    && forall i :: n < i < |run| ==> !(run[i].Get? && run[i].r == r)
  }

  /** Reader r is reading key, which was there at the beginning or not, or is done. */
  ghost predicate ReadsOrDone<V>(s: State<V>, r: nat, key: nat, present: bool) {
    r < |s.readers| && (s.readers[r].Resting? || (s.readers[r].key == key && s.readers[r].present == present))
  }

  lemma ReadStays<V>(s: State<V>, a: Action<V>, r: nat, key: nat, present: bool)
    requires Shaped(s) && ReadsOrDone(s, r, key, present) && !(a.Get? && a.r == r)
    ensures ReadsOrDone(Next(s, a), r, key, present)
  {
  }

  lemma {:induction false} ReadLasts<V>(cap: nat, readers: nat, run: seq<Action<V>>, n: nat, r: nat, key: nat)
    requires cap >= 8 && ReadBegins(cap, readers, run, n, r, key)
    ensures ReadsOrDone(Exec(Start(cap, readers), run), r, key, key in Exec(Start(cap, readers), run[..n]).contents)
    decreases |run|
  {
    var most := run[..|run| - 1];
    RunKeeps(cap, readers, most);
    assert most[..n] == run[..n];
    if n < |most| {
      ReadLasts(cap, readers, most, n, r, key);
      ReadStays(Exec(Start(cap, readers), most), run[|run| - 1], r, key, key in Exec(Start(cap, readers), run[..n]).contents);
    }
  }

  // ---- What every read promises ----

  /** In every interleaving, a read of a key that returns a value returns what the map holds for the
      key at that very moment: never another key's value, never one that was replaced. */
  lemma ReadsAreCurrent<V>(cap: nat, readers: nat, run: seq<Action<V>>, n: nat, r: nat, key: nat)
    requires cap >= 8 && ReadBegins(cap, readers, run, n, r, key) && Returns(Exec(Start(cap, readers), run), r).Some?
    ensures var s := Exec(Start(cap, readers), run);
            key in s.contents && s.contents[key] == Returns(s, r).value
  {
    RunKeeps(cap, readers, run);
    ReadLasts(cap, readers, run, n, r, key);
    CurrentValue(Exec(Start(cap, readers), run), r);
  }

  lemma CurrentValue<V>(s: State<V>, r: nat)
    requires Inv(s) && Returns(s, r).Some?
    ensures s.readers[r].key in s.contents && s.contents[s.readers[r].key] == Returns(s, r).value
  {
    var x := s.readers[r];
    assert ReaderOk(s.tables, x);
    assert !Spent(s.tables[x.t]);
    assert x.t == |s.tables| - 1;
    assert CellOk(Current(s)[x.i], x.i, s.contents, MovedBelow(s.writer));
  }

  /** A read misses a key that was in the map when it began only if a resize of the table it reads
      has meanwhile moved the key's value out. */
  lemma MissesNeedAResize<V>(cap: nat, readers: nat, run: seq<Action<V>>, n: nat, r: nat, key: nat)
    requires cap >= 8 && ReadBegins(cap, readers, run, n, r, key) && key in Exec(Start(cap, readers), run[..n]).contents
    requires var s := Exec(Start(cap, readers), run);
             && Shaped(s) && r < |s.readers| && !s.readers[r].Resting?
             && ReaderNext(s, r).readers[r].Resting? && Returns(s, r).None?
    ensures var s := Exec(Start(cap, readers), run);
            || s.readers[r].t < |s.tables| - 1
            || (s.writer.Moving? && s.readers[r].SawKey? && s.readers[r].i < s.writer.p)
  {
    RunKeeps(cap, readers, run);
    ReadLasts(cap, readers, run, n, r, key);
    MissExplained(Exec(Start(cap, readers), run), r);
  }

  lemma MissExplained<V>(s: State<V>, r: nat)
    requires Inv(s) && r < |s.readers| && !s.readers[r].Resting? && s.readers[r].present
    requires ReaderNext(s, r).readers[r].Resting? && Returns(s, r).None?
    ensures || s.readers[r].t < |s.tables| - 1
            || (s.writer.Moving? && s.readers[r].SawKey? && s.readers[r].i < s.writer.p)
  {
    var x := s.readers[r];
    assert ReaderOk(s.tables, x);
    if !x.SawKey? {
      PresentIsMatched(s, r);
    } else if x.t == |s.tables| - 1 {
      assert CellOk(Current(s)[x.i], x.i, s.contents, MovedBelow(s.writer));
    }
  }

  // ---- Undisturbed operations ----

  /** n times the same action. */
  function Repeat<V>(a: Action<V>, n: nat): (run: seq<Action<V>>)
    ensures |run| == n
  {
    seq(n, _ => a)
  }

  /** The state after n times the same action. */
  ghost function Times<V>(s: State<V>, a: Action<V>, n: nat): State<V>
    requires Shaped(s)
  {
    Exec(s, Repeat(a, n))
  }

  lemma {:induction false} ExecKeeps<V>(s: State<V>, run: seq<Action<V>>)
    requires Inv(s)
    ensures Inv(Exec(s, run))
    decreases |run|
  {
    if run != [] {
      ExecKeeps(s, run[..|run| - 1]);
      StepKeeps(Exec(s, run[..|run| - 1]), run[|run| - 1]);
    }
  }

  lemma ExecLast<V>(s: State<V>, run: seq<Action<V>>, a: Action<V>)
    requires Shaped(s) && Shaped(Exec(s, run))
    ensures Exec(s, run + [a]) == Next(Exec(s, run), a)
  {
    assert (run + [a])[..|run|] == run;
  }

  lemma {:induction false} FirstThen<V>(s: State<V>, a: Action<V>, b: Action<V>, n: nat)
    requires Inv(s) && Inv(Next(s, a))
    ensures Exec(s, [a] + Repeat(b, n)) == Times(Next(s, a), b, n)
  {
    if n == 0 {
      assert [a] + Repeat(b, 0) == [a] && [a][..0] == [];
    } else {
      FirstThen(s, a, b, n - 1);
      RepeatLast(s, [a], b, n - 1);
      RepeatLast(Next(s, a), [], b, n - 1);
      assert [] + Repeat(b, n - 1) == Repeat(b, n - 1) && [] + Repeat(b, n) == Repeat(b, n);
    }
  }

  lemma RepeatLast<V>(s: State<V>, run: seq<Action<V>>, b: Action<V>, n: nat)
    requires Inv(s)
    ensures Inv(Exec(s, run + Repeat(b, n))) && Exec(s, run + Repeat(b, n + 1)) == Next(Exec(s, run + Repeat(b, n)), b)
  {
    ExecKeeps(s, run + Repeat(b, n));
    ExecLast(s, run + Repeat(b, n), b);
    assert run + Repeat(b, n) + [b] == run + Repeat(b, n + 1);
  }

  lemma OneMore<V>(s: State<V>, a: Action<V>, n: nat)
    requires Inv(s)
    ensures Inv(Next(s, a)) && Times(s, a, n + 1) == Times(Next(s, a), a, n)
  {
    StepKeeps(s, a);
    FirstThen(s, a, a, n);
    assert [a] + Repeat(a, n) == Repeat(a, n + 1);
  }

  /** A read that answers: it is about to return the key's value, or has ended without one. */
  ghost predicate Answered<V>(s: State<V>, r: nat, key: nat, t: State<V>) {
    && r < |s.readers| && t == s.(readers := t.readers) && |t.readers| == |s.readers|
    && if key in s.contents then Returns(t, r) == Some(s.contents[key]) else t.readers[r].Resting?
  }

  /** From probe d on, an undisturbed read answers. */
  lemma {:induction false} WalkAnswers<V>(s: State<V>, r: nat, key: nat, d: nat) returns (n: nat)
    requires Inv(s) && s.writer.Idle? && r < |s.readers|
    requires s.readers[r] == Probing(key, |s.tables| - 1, d, key in s.contents)
    ensures Answered(s, r, key, Times(s, ReaderStep(r), n))
    decreases |Current(s)| - d
  {
    var a, tab := ReaderStep(r), Current(s);
    assert ReaderOk(s.tables, s.readers[r]);
    var p := ProbeAt(|tab|, key, d);
    assert CellOk(tab[p], p, s.contents, 0);
    var u := Next(s, a);
    if tab[p].stage == Vacant {
      if key in s.contents {
        PresentIsMatched(s, r);
      }
      OneMore(s, a, 0);
      n := 1;
    } else {
      assert tab[p].stage == Live;
      StepKeeps(s, a);
      n := MatchAnswers(u, r, key, d);
      OneMore(s, a, n);
      n := n + 1;
    }
  }

  /** From a live slot on. */
  lemma {:induction false} MatchAnswers<V>(s: State<V>, r: nat, key: nat, d: nat) returns (n: nat)
    requires Inv(s) && s.writer.Idle? && r < |s.readers|
    requires s.readers[r] == SawLive(key, |s.tables| - 1, d, key in s.contents)
    ensures Answered(s, r, key, Times(s, ReaderStep(r), n))
    decreases |Current(s)| - d, 0
  {
    var a, tab := ReaderStep(r), Current(s);
    assert ReaderOk(s.tables, s.readers[r]);
    var p := ProbeAt(|tab|, key, d);
    assert CellOk(tab[p], p, s.contents, 0);
    if tab[p].key != key && d + 1 < |tab| {
      StepKeeps(s, a);
      n := WalkAnswers(Next(s, a), r, key, d + 1);
      OneMore(s, a, n);
      n := n + 1;
    } else {
      if tab[p].key != key && key in s.contents {
        PresentIsMatched(s, r);
      }
      OneMore(s, a, 0);
      n := 1;
    }
  }

  /** With the writer idle, a read's own steps return the value the map holds for the key, or end
      without one if there is none. */
  lemma ReadAlone<V>(s: State<V>, r: nat, key: nat) returns (n: nat)
    requires Inv(s) && s.writer.Idle? && r < |s.readers| && s.readers[r].Resting?
    ensures Answered(s, r, key, Exec(s, [Get(r, key)] + Repeat(ReaderStep(r), n)))
  {
    StepKeeps(s, Get(r, key));
    n := WalkAnswers(Next(s, Get(r, key)), r, key, 0);
    FirstThen(s, Get(r, key), ReaderStep(r), n);
  }

  /** Unless every slot is taken by other keys, an insert's own steps put the entry into the map. */
  lemma InsertAlone<V>(s: State<V>, key: nat, value: V) returns (n: nat)
    requires Inv(s) && s.writer.Idle? && (!Packed(Current(s)) || key in s.contents)
    ensures var t := Exec(s, [Insert(key, value)] + Repeat(WriterStep, n));
            t.writer.Idle? && t.contents == s.contents[key := value] && t.readers == s.readers && |t.tables| == |s.tables|
  {
    var tab := Current(s);
    SeekFinds(tab, key, 0);
    assert key in s.contents ==> Sits(tab, key);
    var u := Next(s, Insert(key, value));
    StepKeeps(s, Insert(key, value));
    if Seek(tab, key, 0).Hit? {
      n := 0;
      assert Times(u, WriterStep, 0) == u;
    } else {
      n := 4;
      FourStores(u);
    }
    FirstThen(s, Insert(key, value), WriterStep, n);
  }

  lemma OneStore<V>(s: State<V>)
    requires Inv(s) && (s.writer.Found? || s.writer.Reserved? || s.writer.Keyed?)
    ensures var n := Next(s, WriterStep);
            && Inv(n) && n.contents == s.contents && n.readers == s.readers && |n.tables| == |s.tables|
            && n.writer == match s.writer
                           case Found(p, k, v) => Reserved(p, k, v)
                           case Reserved(p, k, v) => Keyed(p, k, v)
                           case _ => Valued(s.writer.p, s.writer.key, s.writer.value)
  {
    StepKeeps(s, WriterStep);
  }

  lemma LastStore<V>(s: State<V>)
    requires Inv(s) && s.writer.Valued?
    ensures var n := Next(s, WriterStep);
            && n.writer.Idle? && n.contents == s.contents[s.writer.key := s.writer.value]
            && n.readers == s.readers && |n.tables| == |s.tables|
  {
  }

  lemma TwoMore<V>(s: State<V>, a: Action<V>, n: nat)
    requires Inv(s)
    ensures Inv(Next(s, a)) && Inv(Next(Next(s, a), a)) && Times(s, a, n + 2) == Times(Next(Next(s, a), a), a, n)
  {
    OneMore(s, a, n + 1);
    OneMore(Next(s, a), a, n);
  }

  lemma FourTimes<V>(s: State<V>, a: Action<V>)
    requires Inv(s)
    ensures Inv(Next(s, a)) && Inv(Next(Next(s, a), a)) && Inv(Next(Next(Next(s, a), a), a))
    ensures Times(s, a, 4) == Next(Next(Next(Next(s, a), a), a), a)
  {
    TwoMore(s, a, 2);
    TwoTimes(Next(Next(s, a), a), a);
  }

  lemma TwoTimes<V>(s: State<V>, a: Action<V>)
    requires Inv(s)
    ensures Inv(Next(s, a)) && Times(s, a, 2) == Next(Next(s, a), a)
  {
    TwoMore(s, a, 0);
    assert Repeat(a, 0) == [];
  }

  lemma FourStores<V>(s: State<V>)
    requires Inv(s) && s.writer.Found?
    ensures var t := Times(s, WriterStep, 4);
            t.writer.Idle? && t.contents == s.contents[s.writer.key := s.writer.value] && t.readers == s.readers && |t.tables| == |s.tables|
  {
    FourTimes(s, WriterStep);
    OneStore(s);
    OneStore(Next(s, WriterStep));
    OneStore(Next(Next(s, WriterStep), WriterStep));
    LastStore(Next(Next(Next(s, WriterStep), WriterStep), WriterStep));
  }

  lemma MoveStep<V>(s: State<V>)
    requires Inv(s) && s.writer.Moving? && s.writer.p < |Current(s)|
    ensures var n := Next(s, WriterStep);
            && Inv(n) && n.contents == s.contents && n.readers == s.readers && |n.tables| == |s.tables| && |Current(n)| == |Current(s)|
            && n.writer.Moving? && n.writer.p == s.writer.p + 1 && n.writer.key == s.writer.key && n.writer.value == s.writer.value
  {
    StepKeeps(s, WriterStep);
  }

  /** A resize's own steps move everything out: what is carried over in the end is the whole map. */
  lemma {:induction false} MoveAlone<V>(s: State<V>) returns (n: nat)
    requires Inv(s) && s.writer.Moving?
    ensures var t := Times(s, WriterStep, n);
            && Inv(t) && t.writer.Moving? && t.writer.p >= |Current(t)| == |Current(s)| && t.writer.carried == s.contents == t.contents
            && t.writer.key == s.writer.key && t.writer.value == s.writer.value
    decreases |Current(s)| - s.writer.p
  {
    if s.writer.p >= |Current(s)| {
      CarriedIsAll(s);
      n := 0;
    } else {
      MoveStep(s);
      n := MoveAlone(Next(s, WriterStep));
      OneMore(s, WriterStep, n);
      n := n + 1;
    }
  }

  /** A doubled table that holds what was carried over takes the insertion up again, in the larger
      table. */
  lemma PublishResumes<V>(s: State<V>, doubled: seq<Cell<V>>)
    requires Inv(s) && s.writer.Moving? && s.writer.p >= |Current(s)|
    requires |doubled| == 2 * |Current(s)| && Holding(doubled, s.contents)
    ensures var t := Next(s, Publish(doubled));
            && Inv(t) && |Current(t)| == 2 * |Current(s)| && t.tables[..|s.tables|] == s.tables
            && t == InsertNext(s.(tables := s.tables + [doubled]), s.writer.key, s.writer.value)
  {
    CarriedIsAll(s);
    StepKeeps(s, Publish(doubled));
    PublishReady(s, doubled);
    SeekFinds(doubled, s.writer.key, 0);
  }
}
