/** The typed single-producer single-consumer channel as a step system. Each side works on a
    local index and publishes it late; every load and store on shared memory, and every slot
    access, is one atomic step (sequential consistency), interleaved arbitrarily. */
module TypedChannel {
  import opened Arith

  const TYPED_BATCH_THRESHOLD: nat := 32

  function EffectiveThreshold(capacity: nat): (t: nat)
    ensures t >= 1 && (capacity >= 2 ==> 2 * t <= capacity)
    ensures t <= TYPED_BATCH_THRESHOLD && (t < TYPED_BATCH_THRESHOLD ==> 2 * (t + 1) > capacity)
  {
    var half := capacity / 2;
    if half == 0 then 1 else if half < TYPED_BATCH_THRESHOLD then half else TYPED_BATCH_THRESHOLD
  }

  datatype Producer<T> =
    | PIdle
    | PRoom(value: T, h: nat)             // head read as h, room seen
    | PFlush                              // local index not yet stored to tail

  datatype Consumer =
    | CIdle
    | CSome(t: nat)                       // tail read as t, an element seen
    | CBatch(done: nat, n: nat)           // done of n elements of a batch moved out
    | CFlush                              // local index not yet stored to head

  /** sent and received record the values accepted and delivered so far, in order. */
  datatype State<T> = State(
    cap: nat, threshold: nat, buffer: seq<T>, head: nat, tail: nat,
    nextWrite: nat, unsent: nat, nextRead: nat, unfreed: nat,
    prod: Producer<T>, cons: Consumer, sent: seq<T>, received: seq<T>)

  datatype Action<T> =
    | Send(value: T) | ProducerFlush | ProducerStep
    | Receive | ReceiveBatch(room: nat) | ConsumerFlush | ConsumerStep

  /** A channel of this capacity with whatever bytes the buffer starts with. */
  function Init<T>(cap: nat, threshold: nat, junk: T): State<T> {
    State(cap, threshold, seq(cap, _ => junk), 0, 0, 0, 0, 0, 0, PIdle, CIdle, [], [])
  }

  predicate Shaped<T>(s: State<T>) {
    s.cap >= 1 && |s.buffer| == s.cap
  }

  function Slot(cap: nat, i: nat): (p: nat)
    requires cap >= 1
    ensures p < cap
  {
    i % cap
  }

  function SeesFull<T>(s: State<T>): bool {
    s.nextWrite - s.head >= s.cap
  }

  function SeesEmpty<T>(s: State<T>): bool {
    s.nextRead == s.tail
  }

  /** The producer's next step inside an operation. */
  function ProducerNext<T>(s: State<T>): State<T>
    requires Shaped(s)
  {
    match s.prod
    case PIdle => s
    case PRoom(value, _) =>
      s.(buffer := s.buffer[Slot(s.cap, s.nextWrite) := value], nextWrite := s.nextWrite + 1, unsent := s.unsent + 1,
         sent := s.sent + [value], prod := if s.unsent + 1 >= s.threshold then PFlush else PIdle)
    case PFlush => s.(tail := s.nextWrite, unsent := 0, prod := PIdle)
  }

  /** The consumer's next step inside an operation. */
  function ConsumerNext<T>(s: State<T>): State<T>
    requires Shaped(s)
  {
    match s.cons
    case CIdle => s
    case CSome(_) =>
      s.(received := s.received + [s.buffer[Slot(s.cap, s.nextRead)]], nextRead := s.nextRead + 1, unfreed := s.unfreed + 1,
         cons := if s.unfreed + 1 >= s.threshold then CFlush else CIdle)
    case CBatch(done, n) =>
      if done < n then s.(received := s.received + [s.buffer[Slot(s.cap, s.nextRead + done)]], cons := CBatch(done + 1, n))
      else s.(nextRead := s.nextRead + n, head := s.nextRead + n, unfreed := 0, cons := CIdle)
    case CFlush => s.(head := s.nextRead, unfreed := 0, cons := CIdle)
  }

  function Next<T>(s: State<T>, a: Action<T>): State<T>
    requires Shaped(s)
  {
    match a
    case Send(value) => if s.prod != PIdle || SeesFull(s) then s else s.(prod := PRoom(value, s.head))
    case ProducerFlush => if s.prod != PIdle || s.unsent == 0 then s else s.(prod := PFlush)
    case ProducerStep => ProducerNext(s)
    case Receive => if s.cons != CIdle || SeesEmpty(s) then s else s.(cons := CSome(s.tail))
    case ReceiveBatch(room) =>
      if s.cons != CIdle || SeesEmpty(s) || room == 0 || s.tail < s.nextRead then s
      else s.(cons := CBatch(0, if s.tail - s.nextRead < room then s.tail - s.nextRead else room))
    case ConsumerFlush => if s.cons != CIdle || s.unfreed == 0 then s else s.(cons := CFlush)
    case ConsumerStep => ConsumerNext(s)
  }

  /** The state after a finite interleaving. */
  ghost function Exec<T>(s: State<T>, run: seq<Action<T>>): State<T>
    requires Shaped(s)
    decreases |run|
  {
    if run == [] then s
    else
      var before := Exec(s, run[..|run| - 1]);
      if Shaped(before) then Next(before, run[|run| - 1]) else before
  }

  // ---- The invariant ----

  /** Elements moved out of the ring so far. */
  function Moved<T>(s: State<T>): nat {
    s.nextRead + match s.cons case CBatch(done, _) => done case _ => 0
  }

  ghost predicate Ordered<T>(s: State<T>) {
    && s.head <= s.nextRead <= s.tail <= s.nextWrite <= s.head + s.cap
    && s.nextWrite - s.tail == s.unsent && s.nextRead - s.head == s.unfreed
  }

  ghost predicate ProducerOk<T>(s: State<T>) {
    match s.prod
    case PIdle => s.unsent < s.threshold
    case PRoom(_, h) => s.unsent < s.threshold && h <= s.head && s.nextWrite < h + s.cap
    case PFlush => true
  }

  ghost predicate ConsumerOk<T>(s: State<T>) {
    match s.cons
    case CIdle => s.unfreed < s.threshold
    case CSome(t) => s.unfreed < s.threshold && s.nextRead < t <= s.tail
    case CBatch(done, n) => s.unfreed < s.threshold && done <= n && s.nextRead + n <= s.tail
    case CFlush => true
  }

  /** Every element still to be read is in its slot. */
  ghost predicate Stored<T>(s: State<T>)
    requires Shaped(s)
  {
    |s.sent| == s.nextWrite && forall j :: Moved(s) <= j < s.nextWrite ==> s.buffer[Slot(s.cap, j)] == s.sent[j]
  }

  ghost predicate Inv<T>(s: State<T>) {
    && Shaped(s) && s.threshold >= 1 && Ordered(s) && ProducerOk(s) && ConsumerOk(s)
    && Stored(s) && Moved(s) <= s.tail && s.received == s.sent[..Moved(s)]
  }

  lemma WriteKeeps<T>(s: State<T>)
    requires Inv(s) && s.prod.PRoom?
    ensures Inv(ProducerNext(s))
    ensures forall j :: Moved(s) <= j < s.nextWrite ==> ProducerNext(s).buffer[Slot(s.cap, j)] == s.buffer[Slot(s.cap, j)]
  {
    var n := ProducerNext(s);
    forall j | Moved(s) <= j < s.nextWrite
      ensures n.buffer[Slot(s.cap, j)] == s.buffer[Slot(s.cap, j)]
    {
      Apart(s.cap, j, s.nextWrite);
    }
  }

  /** Moving one element out appends the next sent element to the received ones. */
  lemma ReadIsNext<T>(s: State<T>)
    requires Inv(s) && Moved(s) < s.tail
    ensures s.received + [s.buffer[Slot(s.cap, Moved(s))]] == s.sent[..Moved(s) + 1]
  {
    assert s.sent[..Moved(s) + 1] == s.sent[..Moved(s)] + [s.sent[Moved(s)]];
  }

  lemma ReadOneKeeps<T>(s: State<T>)
    requires Inv(s) && s.cons.CSome?
    ensures Inv(ConsumerNext(s))
  {
    ReadIsNext(s);
  }

  lemma ReadBatchKeeps<T>(s: State<T>)
    requires Inv(s) && s.cons.CBatch?
    ensures Inv(ConsumerNext(s))
  {
    if s.cons.done < s.cons.n {
      ReadIsNext(s);
    }
  }

  lemma ReadKeeps<T>(s: State<T>)
    requires Inv(s)
    ensures Inv(ConsumerNext(s))
  {
    match s.cons
    case CSome(_) => ReadOneKeeps(s);
    case CBatch(_, _) => ReadBatchKeeps(s);
    case _ =>
  }

  lemma StepKeeps<T>(s: State<T>, a: Action<T>)
    requires Inv(s)
    ensures Inv(Next(s, a))
  {
    if a.ProducerStep? && s.prod.PRoom? {
      WriteKeeps(s);
    } else if a.ConsumerStep? {
      ReadKeeps(s);
    }
  }

  lemma {:induction false} RunKeeps<T>(cap: nat, threshold: nat, junk: T, run: seq<Action<T>>)
    requires cap >= 1 && threshold >= 1
    ensures var s := Exec(Init(cap, threshold, junk), run); Inv(s) && s.cap == cap && s.threshold == threshold
    decreases |run|
  {
    if run != [] {
      RunKeeps(cap, threshold, junk, run[..|run| - 1]);
      StepKeeps(Exec(Init(cap, threshold, junk), run[..|run| - 1]), run[|run| - 1]);
    }
  }

  // ---- What every run promises ----

  /** The values of the sends that found the producer idle and the ring not full, in order. */
  ghost function Offered<T>(cap: nat, threshold: nat, junk: T, run: seq<Action<T>>): seq<T>
    requires cap >= 1
    decreases |run|
  {
    if run == [] then []
    else
      var most, a := run[..|run| - 1], run[|run| - 1];
      var s := Exec(Init(cap, threshold, junk), most);
      Offered(cap, threshold, junk, most) + if a.Send? && s.prod == PIdle && s.nextWrite < s.head + cap then [a.value] else []
  }

  /** The value of a send that has not reached the ring yet. */
  ghost function Pending<T>(s: State<T>): seq<T> {
    if s.prod.PRoom? then [s.prod.value] else []
  }

  lemma PendingStep<T>(s: State<T>, a: Action<T>)
    requires Inv(s)
    ensures var n := Next(s, a);
            n.sent + Pending(n) == s.sent + Pending(s) + if a.Send? && s.prod == PIdle && s.nextWrite < s.head + s.cap then [a.value] else []
  {
  }

  lemma {:induction false} SentIsOffered<T>(cap: nat, threshold: nat, junk: T, run: seq<Action<T>>)
    requires cap >= 1 && threshold >= 1
    ensures var s := Exec(Init(cap, threshold, junk), run); s.sent + Pending(s) == Offered(cap, threshold, junk, run)
    decreases |run|
  {
    if run != [] {
      var most := run[..|run| - 1];
      SentIsOffered(cap, threshold, junk, most);
      RunKeeps(cap, threshold, junk, most);
      PendingStep(Exec(Init(cap, threshold, junk), most), run[|run| - 1]);
    }
  }

  /** First in, first out: what was received is a prefix of the values sent in the run. */
  lemma Fifo<T>(cap: nat, threshold: nat, junk: T, run: seq<Action<T>>)
    requires cap >= 1 && threshold >= 1
    ensures Exec(Init(cap, threshold, junk), run).received <= Offered(cap, threshold, junk, run)
  {
    RunKeeps(cap, threshold, junk, run);
    SentIsOffered(cap, threshold, junk, run);
  }

  lemma IndicesOrdered<T>(cap: nat, threshold: nat, junk: T, run: seq<Action<T>>)
    requires cap >= 1 && threshold >= 1
    ensures var s := Exec(Init(cap, threshold, junk), run);
            s.head <= s.nextRead <= s.tail <= s.nextWrite <= s.head + cap
  {
    RunKeeps(cap, threshold, junk, run);
  }

  /** The slot about to be written is never one that still has to be read, in particular not the
      one the consumer is reading. */
  lemma NoOverwrite<T>(cap: nat, threshold: nat, junk: T, run: seq<Action<T>>, j: nat)
    requires cap >= 1 && threshold >= 1
    requires var s := Exec(Init(cap, threshold, junk), run); s.prod.PRoom? && Moved(s) <= j < s.nextWrite
    ensures Slot(cap, j) != Slot(cap, Exec(Init(cap, threshold, junk), run).nextWrite)
  {
    RunKeeps(cap, threshold, junk, run);
    Apart(cap, j, Exec(Init(cap, threshold, junk), run).nextWrite);
  }

  /** With the effective threshold the two sides never wait for each other: in no run can the
      producer, about to send, see Full while the consumer, about to receive, sees Empty. */
  lemma Progress<T>(cap: nat, junk: T, run: seq<Action<T>>)
    requires cap >= 2
    ensures var s := Exec(Init(cap, EffectiveThreshold(cap), junk), run);
            s.prod == PIdle && s.cons == CIdle ==> !(SeesFull(s) && SeesEmpty(s))
  {
    ProgressWithin(cap, EffectiveThreshold(cap), junk, run);
  }

  /** Both sides are between operations, each waiting for the other. */
  ghost predicate Stuck<T>(s: State<T>) {
    s.prod == PIdle && s.cons == CIdle && SeesFull(s) && SeesEmpty(s)
  }

  lemma ProgressWithin<T>(cap: nat, threshold: nat, junk: T, run: seq<Action<T>>)
    requires cap >= 1 && 1 <= threshold && 2 * threshold <= cap + 1
    ensures !Stuck(Exec(Init(cap, threshold, junk), run))
  {
    RunKeeps(cap, threshold, junk, run);
  }

  lemma {:induction false} ExecThen<T>(s: State<T>, a: seq<Action<T>>, b: seq<Action<T>>)
    requires Shaped(s) && Shaped(Exec(s, a))
    ensures Exec(s, a + b) == Exec(Exec(s, a), b)
    decreases |b|
  {
    if b == [] {
      assert a + b == a;
    } else {
      ExecThen(s, a, b[..|b| - 1]);
      assert (a + b)[..|a + b| - 1] == a + b[..|b| - 1];
    }
  }

  /** k unpublished sends in a row. */
  lemma {:induction false} SendMany<T>(s: State<T>, x: T, k: nat) returns (run: seq<Action<T>>)
    requires Shaped(s) && s.prod == PIdle && s.unsent + k < s.threshold && s.nextWrite + k <= s.head + s.cap
    ensures var n := Exec(s, run);
            && Shaped(n) && n.prod == PIdle && n.nextWrite == s.nextWrite + k && n.unsent == s.unsent + k
            && n == s.(buffer := n.buffer, nextWrite := n.nextWrite, unsent := n.unsent, sent := n.sent)
  {
    run := [];
    if k > 0 {
      var before := SendMany(s, x, k - 1);
      var u := Exec(s, before);
      run := before + [Send(x)] + [ProducerStep];
      assert Next(u, Send(x)) == u.(prod := PRoom(x, u.head));
      ExecTwo(s, before, Send(x), ProducerStep);
    }
  }

  /** Two more steps of a run. */
  lemma ExecTwo<T>(s: State<T>, run: seq<Action<T>>, a: Action<T>, b: Action<T>)
    requires Shaped(s) && Shaped(Exec(s, run)) && Shaped(Next(Exec(s, run), a))
    ensures Exec(s, run + [a] + [b]) == Next(Next(Exec(s, run), a), b)
  {
    assert (run + [a])[..|run|] == run && (run + [a] + [b])[..|run| + 1] == run + [a];
  }

  /** k receives in a row whose slots stay unpublished. */
  lemma {:induction false} ReceiveMany<T>(s: State<T>, k: nat) returns (run: seq<Action<T>>)
    requires Shaped(s) && s.cons == CIdle && s.unfreed + k < s.threshold && s.nextRead + k <= s.tail
    ensures var n := Exec(s, run);
            && Shaped(n) && n.nextRead == s.nextRead + k
            && n == s.(nextRead := n.nextRead, unfreed := s.unfreed + k, received := n.received)
  {
    run := [];
    if k > 0 {
      var before := ReceiveMany(s, k - 1);
      var u := Exec(s, before);
      run := before + [Receive] + [ConsumerStep];
      assert Next(u, Receive) == u.(cons := CSome(u.tail));
      ExecTwo(s, before, Receive, ConsumerStep);
    }
  }

  /** A larger threshold has a run in which both sides wait forever. */
  lemma StuckBeyond<T>(cap: nat, threshold: nat, junk: T) returns (run: seq<Action<T>>)
    requires cap >= 1 && 2 * threshold > cap + 1
    ensures Stuck(Exec(Init(cap, threshold, junk), run))
  {
    var s := Init(cap, threshold, junk);
    var c := if cap < threshold - 1 then cap else threshold - 1;
    var first := SendMany(s, junk, c);
    var s1 := Exec(s, first);
    var flushing := first + [ProducerFlush];
    var flush := flushing + [ProducerStep];
    assert flush[..|flush| - 1] == flushing && flushing[..|flushing| - 1] == first;
    assert Exec(s, flushing) == Next(s1, ProducerFlush);
    var s2 := Exec(s, flush);
    assert s2 == ProducerNext(s1.(prod := PFlush));
    var taken := ReceiveMany(s2, c);
    var s3 := Exec(s2, taken);
    ExecThen(s, flush, taken);
    var second := SendMany(s3, junk, cap - c);
    ExecThen(s, flush + taken, second);
    run := flush + taken + second;
  }

  ghost predicate StuckAfter<T>(cap: nat, threshold: nat, junk: T, run: seq<Action<T>>)
    requires cap >= 1
  {
    Stuck(Exec(Init(cap, threshold, junk), run))
  }

  /** Exactly the thresholds up to half the capacity, rounded up, keep the two sides from
      waiting for each other. */
  lemma ProgressExactly<T>(cap: nat, threshold: nat, junk: T)
    requires cap >= 1 && threshold >= 1
    ensures (forall run: seq<Action<T>> :: !StuckAfter(cap, threshold, junk, run)) <==> 2 * threshold <= cap + 1
  {
    if 2 * threshold <= cap + 1 {
      forall run: seq<Action<T>>
        ensures !StuckAfter(cap, threshold, junk, run)
      {
        ProgressWithin(cap, threshold, junk, run);
      }
    } else {
      var run := StuckBeyond(cap, threshold, junk);
      assert StuckAfter(cap, threshold, junk, run);
    }
  }

  // ---- Nothing sent is lost ----

  lemma ExecFirst<T>(s: State<T>, a: Action<T>, rest: seq<Action<T>>)
    requires Inv(s)
    ensures Inv(Next(s, a)) && Exec(s, [a] + rest) == Exec(Next(s, a), rest)
  {
    StepKeeps(s, a);
    assert [a][..0] == [];
    assert Exec(s, [a]) == Next(s, a);
    ExecThen(s, [a], rest);
  }

  function ProducerChore<T>(s: State<T>): Action<T> {
    if s.prod == PIdle then ProducerFlush else ProducerStep
  }

  function ProducerChores<T>(s: State<T>): nat {
    match s.prod
    case PRoom(_, _) => 3
    case PFlush => 1
    case PIdle => if s.unsent > 0 then 2 else 0
  }

  /** The producer can always end its send and publish everything. */
  lemma {:induction false} ProducerSettles<T>(s: State<T>) returns (more: seq<Action<T>>)
    requires Inv(s)
    ensures var t := Exec(s, more); Inv(t) && t.prod == PIdle && t.tail == t.nextWrite && t.sent == s.sent + Pending(s)
    decreases ProducerChores(s)
  {
    more := [];
    if ProducerChores(s) > 0 {
      var a := ProducerChore(s);
      PendingStep(s, a);
      StepKeeps(s, a);
      var rest := ProducerSettles(Next(s, a));
      ExecFirst(s, a, rest);
      more := [a] + rest;
    }
  }

  function ConsumerChore<T>(s: State<T>): Action<T> {
    if s.cons == CIdle then Receive else ConsumerStep
  }

  function ConsumerChores<T>(s: State<T>): int {
    3 * (s.tail - Moved(s)) +
    match s.cons
    case CSome(_) => 1
    case CIdle => 2
    case _ => 3
  }

  lemma ConsumerChoreHelps<T>(s: State<T>)
    requires Inv(s) && (s.cons != CIdle || s.nextRead < s.tail)
    ensures var n := Next(s, ConsumerChore(s));
            && Inv(n) && 0 <= ConsumerChores(n) < ConsumerChores(s)
            && n.prod == s.prod && n.tail == s.tail && n.nextWrite == s.nextWrite && n.sent == s.sent
  {
    StepKeeps(s, ConsumerChore(s));
  }

  /** The consumer can always take everything published. */
  lemma {:induction false} ConsumerDrains<T>(s: State<T>) returns (more: seq<Action<T>>)
    requires Inv(s)
    ensures var t := Exec(s, more); Inv(t) && t.sent == s.sent && t.received == t.sent[..s.tail]
    decreases if ConsumerChores(s) >= 0 then ConsumerChores(s) else 0
  {
    more := [];
    if s.cons != CIdle || s.nextRead < s.tail {
      var a := ConsumerChore(s);
      ConsumerChoreHelps(s);
      var rest := ConsumerDrains(Next(s, a));
      ExecFirst(s, a, rest);
      more := [a] + rest;
    }
  }

  /** From every reachable state some continuation, without another send, delivers everything sent
      in the run, in order. */
  lemma EverythingCanArrive<T>(cap: nat, threshold: nat, junk: T, run: seq<Action<T>>) returns (more: seq<Action<T>>)
    requires cap >= 1 && threshold >= 1
    ensures Exec(Init(cap, threshold, junk), run + more).received == Offered(cap, threshold, junk, run)
  {
    RunKeeps(cap, threshold, junk, run);
    SentIsOffered(cap, threshold, junk, run);
    var s := Exec(Init(cap, threshold, junk), run);
    var first := ProducerSettles(s);
    var last := ConsumerDrains(Exec(s, first));
    ExecThen(s, first, last);
    more := first + last;
    ExecThen(Init(cap, threshold, junk), run, more);
  }

  /** done elements of an undisturbed batch have been moved out. */
  lemma {:induction false} BatchRuns<T>(s: State<T>, n: nat, k: nat)
    requires Inv(s) && s.cons == CBatch(0, n) && k <= n
    ensures Inv(Exec(s, seq(k, _ => ConsumerStep)))
    ensures Exec(s, seq(k, _ => ConsumerStep)) == s.(received := s.sent[..s.nextRead + k], cons := CBatch(k, n))
  {
    if k > 0 {
      BatchRuns(s, n, k - 1);
      var u := s.(received := s.sent[..s.nextRead + (k - 1)], cons := CBatch(k - 1, n));
      StepAgain(s, k - 1, u);
      BatchStep(u);
    }
  }

  lemma BatchStep<T>(s: State<T>)
    requires Inv(s) && s.cons.CBatch? && s.cons.done < s.cons.n
    ensures Inv(ConsumerNext(s))
    ensures ConsumerNext(s) == s.(received := s.sent[..s.nextRead + s.cons.done + 1], cons := CBatch(s.cons.done + 1, s.cons.n))
  {
    ReadIsNext(s);
    ReadBatchKeeps(s);
  }

  lemma StepAgain<T>(s: State<T>, k: nat, u: State<T>)
    requires Shaped(s) && Shaped(u) && u == Exec(s, seq(k, _ => ConsumerStep))
    ensures Exec(s, seq(k + 1, _ => ConsumerStep)) == ConsumerNext(u)
  {
    assert seq(k + 1, _ => ConsumerStep)[..k] == seq<Action<T>>(k, _ => ConsumerStep);
  }

  /** An undisturbed batch takes as many published elements as there is room for, in order, and
      frees their slots at once. */
  lemma BatchTakes<T>(s: State<T>, room: nat) returns (n: nat)
    requires Inv(s) && s.cons == CIdle && s.nextRead < s.tail && room > 0
    ensures n == if s.tail - s.nextRead < room then s.tail - s.nextRead else room
    ensures var t := Exec(s, [ReceiveBatch(room)] + seq(n + 1, _ => ConsumerStep));
            t == s.(received := s.received + s.sent[s.nextRead..s.nextRead + n], nextRead := s.nextRead + n, head := s.nextRead + n, unfreed := 0)
  {
    n := if s.tail - s.nextRead < room then s.tail - s.nextRead else room;
    var a := ReceiveBatch(room);
    assert Next(s, a) == s.(cons := CBatch(0, n));
    ExecFirst(s, a, seq(n + 1, _ => ConsumerStep));
    BatchWhole(s, n);
  }

  lemma BatchWhole<T>(s: State<T>, n: nat)
    requires Inv(s) && s.cons == CIdle && Inv(s.(cons := CBatch(0, n)))
    ensures s.nextRead + n <= |s.sent|
    ensures Exec(s.(cons := CBatch(0, n)), seq(n + 1, _ => ConsumerStep))
            == s.(received := s.received + s.sent[s.nextRead..s.nextRead + n], nextRead := s.nextRead + n, head := s.nextRead + n, unfreed := 0)
  {
    BatchEnds(s.(cons := CBatch(0, n)), n);
    PrefixGrows(s.sent, s.nextRead, n);
  }

  lemma PrefixGrows<T>(q: seq<T>, i: nat, n: nat)
    requires i + n <= |q|
    ensures q[..i] + q[i..i + n] == q[..i + n]
  {
  }

  lemma BatchEnds<T>(s: State<T>, n: nat)
    requires Inv(s) && s.cons == CBatch(0, n)
    ensures Exec(s, seq(n + 1, _ => ConsumerStep))
            == s.(received := s.sent[..s.nextRead + n], nextRead := s.nextRead + n, head := s.nextRead + n, unfreed := 0, cons := CIdle)
  {
    BatchRuns(s, n, n);
    var u := s.(received := s.sent[..s.nextRead + n], cons := CBatch(n, n));
    StepAgain(s, n, u);
    assert ConsumerNext(u) == u.(nextRead := s.nextRead + n, head := s.nextRead + n, unfreed := 0, cons := CIdle);
  }

  // ---- Counters of fixed width ----

  lemma WrappedDistance(width: nat, h: nat, t: nat)
    requires h <= t < h + width
    ensures (t % width - h % width) % width == t - h && (t % width == h % width <==> t == h)
  {
    Split(t, width);
    Split(h, width);
    var q, p := t / width, h / width;
    assert (p - q) * width == p * width - q * width;
    Remainder(t % width - h % width, width, p - q, t - h);
  }

  lemma WrappedSlot(cap: nat, width: nat, k: nat, t: nat)
    requires 1 <= cap <= width && width == k * cap
    ensures (t % width) % cap == t % cap
  {
    Split(t, width);
    Split(t, cap);
    var q, a := t / width, t / cap;
    assert q * width == (q * k) * cap;
    assert (a - q * k) * cap == a * cap - (q * k) * cap;
    Remainder(t % width, cap, a - q * k, t % cap);
  }

  /** On counters that wrap at a multiple of the capacity, the fullness and emptiness tests and
      the choice of slot give the answers of the unbounded indices. */
  lemma WrappedCounters(cap: nat, width: nat, k: nat, h: nat, t: nat)
    requires 1 <= cap < width && width == k * cap && h <= t <= h + cap
    ensures (t % width - h % width) % width == t - h
    ensures t % width == h % width <==> t == h
    ensures Slot(cap, t % width) == Slot(cap, t)
  {
    WrappedDistance(width, h, t);
    WrappedSlot(cap, width, k, t);
  }

  /** The channel as the code has it: counters of a fixed width, differences that wrap. */
  function WideDistance(width: nat, t: nat, h: nat): nat
    requires width > 0
  {
    (t - h) % width
  }

  function WrappedProducer<T>(p: Producer<T>, width: nat): Producer<T>
    requires width > 0
  {
    match p case PRoom(value, h) => PRoom(value, h % width) case _ => p
  }

  function WrappedConsumer(c: Consumer, width: nat): Consumer
    requires width > 0
  {
    match c case CSome(t) => CSome(t % width) case _ => c
  }

  /** The state whose counters are those of s reduced to the width. */
  function WrappedState<T>(s: State<T>, width: nat): State<T>
    requires width > 0
  {
    s.(head := s.head % width, tail := s.tail % width, nextWrite := s.nextWrite % width, nextRead := s.nextRead % width,
       prod := WrappedProducer(s.prod, width), cons := WrappedConsumer(s.cons, width))
  }

  function WrappedProducerNext<T>(s: State<T>, width: nat): State<T>
    requires Shaped(s) && width > 0
  {
    match s.prod
    case PIdle => s
    case PRoom(value, _) =>
      s.(buffer := s.buffer[Slot(s.cap, s.nextWrite) := value], nextWrite := (s.nextWrite + 1) % width, unsent := s.unsent + 1,
         sent := s.sent + [value], prod := if s.unsent + 1 >= s.threshold then PFlush else PIdle)
    case PFlush => s.(tail := s.nextWrite, unsent := 0, prod := PIdle)
  }

  function WrappedConsumerNext<T>(s: State<T>, width: nat): State<T>
    requires Shaped(s) && width > 0
  {
    match s.cons
    case CIdle => s
    case CSome(_) =>
      s.(received := s.received + [s.buffer[Slot(s.cap, s.nextRead)]], nextRead := (s.nextRead + 1) % width,
         unfreed := s.unfreed + 1, cons := if s.unfreed + 1 >= s.threshold then CFlush else CIdle)
    case CBatch(done, n) =>
      if done < n
      then s.(received := s.received + [s.buffer[Slot(s.cap, (s.nextRead + done) % width)]], cons := CBatch(done + 1, n))
      else s.(nextRead := (s.nextRead + n) % width, head := (s.nextRead + n) % width, unfreed := 0, cons := CIdle)
    case CFlush => s.(head := s.nextRead, unfreed := 0, cons := CIdle)
  }

  function WrappedNext<T>(s: State<T>, a: Action<T>, width: nat): State<T>
    requires Shaped(s) && width > 0
  {
    match a
    case Send(value) =>
      if s.prod != PIdle || WideDistance(width, s.nextWrite, s.head) >= s.cap then s else s.(prod := PRoom(value, s.head))
    case ProducerFlush => if s.prod != PIdle || s.unsent == 0 then s else s.(prod := PFlush)
    case ProducerStep => WrappedProducerNext(s, width)
    case Receive => if s.cons != CIdle || s.nextRead == s.tail then s else s.(cons := CSome(s.tail))
    case ReceiveBatch(room) =>
      var available := WideDistance(width, s.tail, s.nextRead);
      if s.cons != CIdle || available == 0 || room == 0 then s
      else s.(cons := CBatch(0, if available < room then available else room))
    case ConsumerFlush => if s.cons != CIdle || s.unfreed == 0 then s else s.(cons := CFlush)
    case ConsumerStep => WrappedConsumerNext(s, width)
  }

  lemma WrappedProducerStep<T>(s: State<T>, width: nat, k: nat)
    requires Inv(s) && s.cap < width && width == k * s.cap
    ensures WrappedProducerNext(WrappedState(s, width), width) == WrappedState(ProducerNext(s), width)
  {
    WrappedSlot(s.cap, width, k, s.nextWrite);
    ModAdd(s.nextWrite, 1, width);
  }

  lemma WrappedConsumerStep<T>(s: State<T>, width: nat, k: nat)
    requires Inv(s) && s.cap < width && width == k * s.cap
    ensures WrappedConsumerNext(WrappedState(s, width), width) == WrappedState(ConsumerNext(s), width)
  {
    WrappedSlot(s.cap, width, k, s.nextRead);
    ModAdd(s.nextRead, 1, width);
    if s.cons.CBatch? {
      ModAdd(s.nextRead, s.cons.done, width);
      ModAdd(s.nextRead, s.cons.n, width);
      WrappedSlot(s.cap, width, k, s.nextRead + s.cons.done);
    }
  }

  lemma WrappedSend<T>(s: State<T>, value: T, width: nat)
    requires Inv(s) && s.cap < width
    ensures WrappedNext(WrappedState(s, width), Send(value), width) == WrappedState(Next(s, Send(value)), width)
  {
    WrappedDistance(width, s.head, s.nextWrite);
  }

  lemma WrappedReceive<T>(s: State<T>, width: nat)
    requires Inv(s) && s.cap < width
    ensures WrappedNext(WrappedState(s, width), Receive, width) == WrappedState(Next(s, Receive), width)
  {
    WrappedDistance(width, s.nextRead, s.tail);
  }

  lemma WrappedBatch<T>(s: State<T>, room: nat, width: nat)
    requires Inv(s) && s.cap < width
    ensures WrappedNext(WrappedState(s, width), ReceiveBatch(room), width) == WrappedState(Next(s, ReceiveBatch(room)), width)
  {
    WrappedDistance(width, s.nextRead, s.tail);
    assert WideDistance(width, s.tail % width, s.nextRead % width) == s.tail - s.nextRead;
  }

  /** A step on wrapping counters is the step on unbounded ones, seen through the width. */
  lemma WrappedStep<T>(s: State<T>, a: Action<T>, width: nat, k: nat)
    requires Inv(s) && s.cap < width && width == k * s.cap
    ensures WrappedNext(WrappedState(s, width), a, width) == WrappedState(Next(s, a), width)
  {
    match a {
      case Send(value) => WrappedSend(s, value, width);
      case ProducerStep => WrappedProducerStep(s, width, k);
      case Receive => WrappedReceive(s, width);
      case ReceiveBatch(room) => WrappedBatch(s, room, width);
      case ConsumerStep => WrappedConsumerStep(s, width, k);
      case _ =>
    }
  }

  ghost function WrappedExec<T>(s: State<T>, run: seq<Action<T>>, width: nat): State<T>
    requires Shaped(s) && width > 0
    decreases |run|
  {
    if run == [] then s
    else
      var before := WrappedExec(s, run[..|run| - 1], width);
      if Shaped(before) then WrappedNext(before, run[|run| - 1], width) else before
  }

  /** Every run on wrapping counters goes through the states of the same run on unbounded ones: it
      accepts and delivers the same elements, so every promise above holds of it. */
  lemma {:induction false} WrappedRun<T>(cap: nat, threshold: nat, junk: T, run: seq<Action<T>>, width: nat, k: nat)
    requires 1 <= cap < width && threshold >= 1 && width == k * cap
    ensures WrappedExec(Init(cap, threshold, junk), run, width) == WrappedState(Exec(Init(cap, threshold, junk), run), width)
    decreases |run|
  {
    if run != [] {
      var most := run[..|run| - 1];
      WrappedRun(cap, threshold, junk, most, width, k);
      RunKeeps(cap, threshold, junk, most);
      WrappedStep(Exec(Init(cap, threshold, junk), most), run[|run| - 1], width, k);
    }
  }
}
