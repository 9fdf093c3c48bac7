/** The strided partition of a region: worker w computes chunks w, w + n, w + 2n, ... */
module Partition {
  import opened Options
  import opened Arith

  /** ceil(len / n) elements to a chunk. */
  function ChunkSize(len: nat, n: nat): (c: nat)
    requires n >= 1
    ensures c == 0 <==> len == 0
    ensures c * n >= len && (c > 0 ==> (c - 1) * n < len)
  {
    var c := (len + n - 1) / n;
    Split(len + n - 1, n);
    assert (c - 1) * n == c * n - n;
    c
  }

  /** Chunks of that size come one to a worker at most, and every chunk has its worker. */
  lemma OneChunkEach(len: nat, n: nat, i: nat)
    requires n >= 1 && i < len
    ensures var chunk := ChunkSize(len, n); chunk >= 1 && Owner(i, chunk, n) == i / chunk < n
  {
    var chunk := ChunkSize(len, n);
    BlockBelow(i, chunk, n);
    assert n * chunk == chunk * n;
    Remainder(i / chunk, n, 0, i / chunk);
  }

  function Owner(i: nat, chunk: nat, n: nat): (w: nat)
    requires chunk >= 1 && n >= 1
    ensures w < n
  {
    (i / chunk) % n
  }

  /** Element i is reached: no element of its chunk up to and including it panics. */
  ghost predicate Reached<T, R>(inputs: seq<T>, f: T -> Option<R>, chunk: nat, i: nat)
    requires i < |inputs| && chunk >= 1
  {
    forall k :: 0 <= k <= i && k / chunk == i / chunk ==> f(inputs[k]).Some?
  }

  /** What one worker leaves in output i. */
  ghost function After<T, R>(inputs: seq<T>, f: T -> Option<R>, chunk: nat, n: nat, worker: nat, before: R, i: nat): R
    requires i < |inputs| && chunk >= 1 && n >= 1
  {
    if Owner(i, chunk, n) == worker && Reached(inputs, f, chunk, i) then f(inputs[i]).value else before
  }

  function Block(i: nat, chunk: nat): nat
    requires chunk >= 1
  {
    i / chunk
  }

  /** The chunks below c are as the worker leaves them, the rest untouched. */
  ghost predicate DoneBelow<T, R>(inputs: seq<T>, f: T -> Option<R>, chunk: nat, n: nat, worker: nat,
                                  before: seq<R>, after: seq<R>, c: nat)
    requires chunk >= 1 && n >= 1 && |before| == |after| == |inputs|
  {
    forall i: nat :: i < |inputs| ==>
      after[i] == if Block(i, chunk) < c then After(inputs, f, chunk, n, worker, before[i], i) else before[i]
  }

  /** One of the worker's elements below chunk c panics. */
  ghost predicate PanicBelow<T, R>(inputs: seq<T>, f: T -> Option<R>, chunk: nat, n: nat, worker: nat, c: nat)
    requires chunk >= 1 && n >= 1
  {
    exists i: nat :: i < |inputs| && Owner(i, chunk, n) == worker && Block(i, chunk) < c && f(inputs[i]).None?
  }

  /** Chunk c computed: everything below the worker's next chunk is settled. */
  lemma ChunkDone<T, R>(inputs: seq<T>, f: T -> Option<R>, chunk: nat, n: nat, worker: nat,
                        before: seq<R>, mid: seq<R>, after: seq<R>, c: nat, start: nat, end: nat, body: bool)
    requires chunk >= 1 && n >= 1 && |before| == |mid| == |after| == |inputs|
    requires DoneBelow(inputs, f, chunk, n, worker, before, mid, c) && c % n == worker
    requires start == c * chunk && start <= end <= |inputs| && (end == start + chunk || (end == |inputs| && end <= start + chunk))
    requires forall i :: start <= i < end ==> after[i] == if Reached(inputs, f, chunk, i) then f(inputs[i]).value else mid[i]
    requires forall i :: 0 <= i < |inputs| && !(start <= i < end) ==> after[i] == mid[i]
    requires body <==> exists k :: start <= k < end && f(inputs[k]).None?
    ensures DoneBelow(inputs, f, chunk, n, worker, before, after, c + n)
    ensures PanicBelow(inputs, f, chunk, n, worker, c + n) <==> PanicBelow(inputs, f, chunk, n, worker, c) || body
  {
    InChunk(chunk, c, |inputs|, start, end);
    forall i: nat | i < |inputs| && c <= Block(i, chunk) < c + n
      ensures Owner(i, chunk, n) == worker <==> start <= i < end
    {
      if Owner(i, chunk, n) == worker {
        OnlyEveryNth(n, c, Block(i, chunk));
      }
    }
    if body {
      var k :| start <= k < end && f(inputs[k]).None?;
      assert Block(k, chunk) < c + n;
    }
  }

  /** One chunk, stopping at the first element that panics. */
  method RunChunk<T, R>(inputs: seq<T>, outputs: array<R>, f: T -> Option<R>, ghost chunk: nat, ghost c: nat,
                        start: nat, end: nat) returns (panicked: bool)
    requires outputs.Length == |inputs| && chunk >= 1
    requires start == c * chunk && start <= end <= |inputs| && (end == start + chunk || (end == |inputs| && end <= start + chunk))
    modifies outputs
    ensures panicked <==> exists k :: start <= k < end && f(inputs[k]).None?
    ensures forall i :: start <= i < end ==>
              outputs[i] == if Reached(inputs, f, chunk, i) then f(inputs[i]).value else old(outputs[i])
    ensures forall i :: 0 <= i < |inputs| && !(start <= i < end) ==> outputs[i] == old(outputs[i])
  {
    InChunk(chunk, c, |inputs|, start, end);
    for i := start to end
      invariant forall k :: start <= k < i ==> f(inputs[k]).Some? && outputs[k] == f(inputs[k]).value
      invariant forall k :: 0 <= k < |inputs| && !(start <= k < i) ==> outputs[k] == old(outputs[k])
    {
      var r := f(inputs[i]);
      if r.None? {
        return true;
      }
      outputs[i] := r.value;
    }
    panicked := false;
  }

  lemma InChunk(chunk: nat, c: nat, len: nat, start: nat, end: nat)
    requires chunk >= 1 && start == c * chunk && start <= end <= len
    requires end == start + chunk || (end == len && end <= start + chunk)
    ensures forall i :: 0 <= i < len ==> (i / chunk == c <==> start <= i < end)
  {
    forall i | 0 <= i < len
      ensures i / chunk == c <==> start <= i < end
    {
      if start <= i < start + chunk {
        Quotient(i, chunk, c);
      } else {
        Split(i, chunk);
      }
    }
  }

  /** Of the n chunks from c on, only c itself belongs to c's worker. */
  lemma OnlyEveryNth(n: nat, c: nat, d: nat)
    requires n >= 1 && c <= d < c + n && d % n == c % n
    ensures d == c
  {
    Split(c, n);
    Split(d, n);
    assert (d / n - c / n) * n == (d / n) * n - (c / n) * n;
    NoMultiple(d / n - c / n, n);
  }

  lemma NthNext(n: nat, c: nat)
    requires n >= 1
    ensures (c + n) % n == c % n
  {
    Split(c, n);
    assert (c / n + 1) * n == (c / n) * n + n;
    Remainder(c + n, n, c / n + 1, c % n);
  }

  /** Chunks before a worker's first belong to others. */
  lemma BeforeFirst<T>(inputs: seq<T>, chunk: nat, n: nat, worker: nat)
    requires chunk >= 1 && worker < n
    ensures forall i :: 0 <= i < |inputs| && Block(i, chunk) < worker ==> Owner(i, chunk, n) != worker
  {
  }

  /** One of the worker's elements panics. */
  ghost predicate Panics<T, R>(inputs: seq<T>, f: T -> Option<R>, chunk: nat, n: nat, worker: nat)
    requires chunk >= 1 && n >= 1
  {
    exists i: nat :: i < |inputs| && Owner(i, chunk, n) == worker && f(inputs[i]).None?
  }

  /** partition_trampoline on an input that is not empty: exactly its own outputs are written, and it reports
      whether one of its elements panicked. */
  method RunChunks<T, R>(inputs: seq<T>, outputs: array<R>, f: T -> Option<R>, n: nat, chunk: nat, worker: nat)
    returns (panicked: bool)
    requires outputs.Length == |inputs| && worker < n && chunk >= 1
    modifies outputs
    ensures forall i: nat :: i < |inputs| ==> outputs[i] == After(inputs, f, chunk, n, worker, old(outputs[i]), i)
    ensures panicked <==> Panics(inputs, f, chunk, n, worker)
  {
    panicked := false;
    var c, start := worker, worker * chunk;
    Remainder(worker, n, 0, worker);
    BeforeFirst(inputs, chunk, n, worker);
    while start < |inputs|
      invariant c % n == worker && start == c * chunk
      invariant DoneBelow(inputs, f, chunk, n, worker, old(outputs[..]), outputs[..], c)
      invariant panicked <==> PanicBelow(inputs, f, chunk, n, worker, c)
      decreases |inputs| - start
    {
      var end := if start + chunk < |inputs| then start + chunk else |inputs|;
      ghost var mid := outputs[..];
      var body := RunChunk(inputs, outputs, f, chunk, c, start, end);
      ChunkDone(inputs, f, chunk, n, worker, old(outputs[..]), mid, outputs[..], c, start, end, body);
      panicked := panicked || body;
      c, start := NextChunk(c, n, chunk);
    }
    AllDone(inputs, f, chunk, n, worker, old(outputs[..]), outputs[..], c);
  }

  /** partition_trampoline: an empty input has chunks of size zero and no work. */
  method Trampoline<T, R>(inputs: seq<T>, outputs: array<R>, f: T -> Option<R>, n: nat, worker: nat) returns (panicked: bool)
    requires outputs.Length == |inputs| && worker < n
    modifies outputs
    ensures inputs != [] ==> forall i: nat :: i < |inputs| ==>
              outputs[i] == After(inputs, f, ChunkSize(|inputs|, n), n, worker, old(outputs[i]), i)
    ensures panicked <==> inputs != [] && Panics(inputs, f, ChunkSize(|inputs|, n), n, worker)
  {
    panicked := false;
    if |inputs| > 0 {
      panicked := RunChunks(inputs, outputs, f, n, ChunkSize(|inputs|, n), worker);
    }
  }

  /** The worker's next chunk and where it starts. */
  method NextChunk(c: nat, n: nat, chunk: nat) returns (next: nat, start: nat)
    requires n >= 1 && chunk >= 1
    ensures next == c + n && start == next * chunk && start > c * chunk && next % n == c % n
  {
    NthNext(n, c);
    assert (c + n) * chunk == c * chunk + n * chunk;
    next := c + n;
    start := next * chunk;
  }

  lemma AllDone<T, R>(inputs: seq<T>, f: T -> Option<R>, chunk: nat, n: nat, worker: nat, before: seq<R>, after: seq<R>, c: nat)
    requires chunk >= 1 && n >= 1 && c * chunk >= |inputs| && |before| == |after| == |inputs|
    requires DoneBelow(inputs, f, chunk, n, worker, before, after, c)
    ensures forall i: nat :: i < |inputs| ==> after[i] == After(inputs, f, chunk, n, worker, before[i], i)
    ensures Panics(inputs, f, chunk, n, worker) <==> PanicBelow(inputs, f, chunk, n, worker, c)
  {
    forall i: nat | i < |inputs|
      ensures Block(i, chunk) < c
    {
      BlockBelow(i, chunk, c);
    }
  }

  // ---- The whole region, element by element ----

  /** A worker in chunk c, which starts at start, about to compute element at. */
  datatype Worker = Worker(c: nat, start: nat, at: nat, panicked: bool)

  datatype Region<R> = Region(outputs: seq<R>, workers: seq<Worker>)

  /** The region's fixed part: what all workers share. */
  datatype Job<!T, !R> = Job(inputs: seq<T>, f: T -> Option<R>, chunk: nat, n: nat)

  predicate Sized<T, R>(j: Job<T, R>) {
    j.chunk >= 1 && j.n >= 1
  }

  function Begin<T, R>(j: Job<T, R>, before: seq<R>): Region<R> {
    Region(before, seq(j.n, w requires 0 <= w < j.n => Worker(w, w * j.chunk, w * j.chunk, false)))
  }

  function End<T, R>(j: Job<T, R>, w: Worker): nat {
    if w.start + j.chunk < |j.inputs| then w.start + j.chunk else |j.inputs|
  }

  function NextWorker<T, R>(j: Job<T, R>, w: Worker, panicked: bool): Worker {
    Worker(w.c + j.n, (w.c + j.n) * j.chunk, (w.c + j.n) * j.chunk, panicked)
  }

  /** Worker w computes one element, or leaves a chunk that is finished or has panicked. */
  function Step<T, R>(j: Job<T, R>, s: Region<R>, w: nat): Region<R> {
    if w >= |s.workers| || s.workers[w].start >= |j.inputs| then s
    else
      var k := s.workers[w];
      if k.at >= End(j, k) || k.at >= |j.inputs| || k.at >= |s.outputs| then s.(workers := s.workers[w := NextWorker(j, k, k.panicked)])
      else
        match j.f(j.inputs[k.at])
        case Some(v) => Region(s.outputs[k.at := v], s.workers[w := k.(at := k.at + 1)])
        case None => s.(workers := s.workers[w := NextWorker(j, k, true)])
  }

  /** The region after the workers moved in the given order. */
  ghost function Run<T, R>(j: Job<T, R>, before: seq<R>, order: seq<nat>): Region<R>
    decreases |order|
  {
    if order == [] then Begin(j, before) else Step(j, Run(j, before, order[..|order| - 1]), order[|order| - 1])
  }

  predicate Finished<T, R>(j: Job<T, R>, s: Region<R>) {
    forall w :: 0 <= w < |s.workers| ==> s.workers[w].start >= |j.inputs|
  }

  ghost predicate WorkerOk<T, R>(j: Job<T, R>, k: Worker, w: nat)
    requires Sized(j)
  {
    && k.c % j.n == w && k.start == k.c * j.chunk
    && k.start <= k.at && (k.start < |j.inputs| ==> k.at <= End(j, k))
    && (forall i :: k.start <= i < k.at && i < |j.inputs| ==> j.f(j.inputs[i]).Some?)
    && (k.panicked <==> PanicBelow(j.inputs, j.f, j.chunk, j.n, w, k.c))
  }

  /** The worker k has been past element i. */
  predicate Behind(k: Worker, i: nat, chunk: nat)
    requires chunk >= 1
  {
    Block(i, chunk) < k.c || (Block(i, chunk) == k.c && i < k.at)
  }

  ghost predicate OutputOk<T, R>(j: Job<T, R>, before: seq<R>, s: Region<R>, i: nat)
    requires Sized(j) && i < |j.inputs| == |before| == |s.outputs| && |s.workers| == j.n
  {
    var k := s.workers[Owner(i, j.chunk, j.n)];
    s.outputs[i] == if Behind(k, i, j.chunk) && Reached(j.inputs, j.f, j.chunk, i) then j.f(j.inputs[i]).value else before[i]
  }

  ghost predicate Inv<T, R>(j: Job<T, R>, before: seq<R>, s: Region<R>) {
    && Sized(j) && |j.inputs| == |before| == |s.outputs| && |s.workers| == j.n
    && (forall w :: 0 <= w < j.n ==> WorkerOk(j, s.workers[w], w))
    && (forall i: nat :: i < |j.inputs| ==> OutputOk(j, before, s, i))
  }

  /** Where a worker stands in its chunk. */
  lemma Standing<T, R>(j: Job<T, R>, k: Worker, w: nat)
    requires Sized(j) && WorkerOk(j, k, w) && k.start < |j.inputs|
    ensures forall i: nat :: i < |j.inputs| ==> (Block(i, j.chunk) == k.c <==> k.start <= i < End(j, k))
    ensures forall i: nat :: i < |j.inputs| && k.c <= Block(i, j.chunk) < k.c + j.n ==>
              (Owner(i, j.chunk, j.n) == w <==> k.start <= i < End(j, k))
  {
    InChunk(j.chunk, k.c, |j.inputs|, k.start, End(j, k));
    forall i: nat | i < |j.inputs| && k.c <= Block(i, j.chunk) < k.c + j.n
      ensures Owner(i, j.chunk, j.n) == w <==> k.start <= i < End(j, k)
    {
      if Owner(i, j.chunk, j.n) == w {
        OnlyEveryNth(j.n, k.c, Block(i, j.chunk));
      }
    }
  }

  /** The element a worker is about to compute is reached if it does not panic. */
  lemma NextReached<T, R>(j: Job<T, R>, k: Worker, w: nat)
    requires Sized(j) && WorkerOk(j, k, w) && k.start < |j.inputs| && k.at < End(j, k)
    ensures Reached(j.inputs, j.f, j.chunk, k.at) <==> j.f(j.inputs[k.at]).Some?
    ensures Owner(k.at, j.chunk, j.n) == w && Block(k.at, j.chunk) == k.c
    ensures j.f(j.inputs[k.at]).None? ==>
              forall i: nat :: i < |j.inputs| && Block(i, j.chunk) == k.c && k.at <= i ==> !Reached(j.inputs, j.f, j.chunk, i)
  {
    Standing(j, k, w);
    assert Block(k.at, j.chunk) == k.c;
    forall i: nat | i < |j.inputs| && Block(i, j.chunk) == k.c && k.at <= i && j.f(j.inputs[k.at]).None?
      ensures !Reached(j.inputs, j.f, j.chunk, i)
    {
      assert k.at / j.chunk == i / j.chunk;
    }
    if j.f(j.inputs[k.at]).Some? {
      forall i | 0 <= i <= k.at && i / j.chunk == k.at / j.chunk
        ensures j.f(j.inputs[i]).Some?
      {
        assert Block(i, j.chunk) == k.c;
      }
    }
  }

  /** Leaving a chunk: the worker's next state is in order, and it has panicked exactly if it had
      before or the chunk holds a panicking element. */
  lemma LeaveOk<T, R>(j: Job<T, R>, k: Worker, w: nat, body: bool)
    requires Sized(j) && WorkerOk(j, k, w) && k.start < |j.inputs|
    requires body <==> exists i :: k.start <= i < End(j, k) && j.f(j.inputs[i]).None?
    ensures WorkerOk(j, NextWorker(j, k, k.panicked || body), w)
  {
    Standing(j, k, w);
    NthNext(j.n, k.c);
    if body {
      var i :| k.start <= i < End(j, k) && j.f(j.inputs[i]).None?;
      assert Block(i, j.chunk) < k.c + j.n && Owner(i, j.chunk, j.n) == w;
    }
  }

  /** A step changes one worker; outputs of other owners stay. */
  lemma OthersOk<T, R>(j: Job<T, R>, before: seq<R>, s: Region<R>, n: Region<R>, w: nat)
    requires Inv(j, before, s) && w < j.n && |n.workers| == j.n && |n.outputs| == |s.outputs|
    requires n.workers == s.workers[w := n.workers[w]] && WorkerOk(j, n.workers[w], w)
    requires forall i: nat :: i < |j.inputs| && Owner(i, j.chunk, j.n) != w ==> n.outputs[i] == s.outputs[i]
    requires forall i: nat :: i < |j.inputs| && Owner(i, j.chunk, j.n) == w ==> OutputOk(j, before, n, i)
    ensures Inv(j, before, n)
  {
    forall i: nat | i < |j.inputs|
      ensures OutputOk(j, before, n, i)
    {
      assert OutputOk(j, before, s, i);
    }
    forall v | 0 <= v < j.n
      ensures WorkerOk(j, n.workers[v], v)
    {
      assert WorkerOk(j, s.workers[v], v);
    }
  }

  lemma ComputeKeeps<T, R>(j: Job<T, R>, before: seq<R>, s: Region<R>, w: nat)
    requires Inv(j, before, s) && w < j.n && s.workers[w].start < |j.inputs| && s.workers[w].at < End(j, s.workers[w])
    requires j.f(j.inputs[s.workers[w].at]).Some?
    ensures Inv(j, before, Step(j, s, w))
  {
    var k, n := s.workers[w], Step(j, s, w);
    assert WorkerOk(j, k, w);
    NextReached(j, k, w);
    forall i: nat | i < |j.inputs| && Owner(i, j.chunk, j.n) == w
      ensures OutputOk(j, before, n, i)
    {
      assert OutputOk(j, before, s, i);
    }
    OthersOk(j, before, s, n, w);
  }

  /** At the start of a chunk exactly the earlier chunks are behind. */
  lemma BehindNext<T, R>(j: Job<T, R>, k: Worker, panicked: bool, i: nat)
    requires Sized(j)
    ensures Behind(NextWorker(j, k, panicked), i, j.chunk) <==> Block(i, j.chunk) < k.c + j.n
  {
    var q := i / j.chunk;
    Split(i, j.chunk);
    assert q == k.c + j.n ==> i >= (k.c + j.n) * j.chunk;
  }

  lemma LeaveKeeps<T, R>(j: Job<T, R>, before: seq<R>, s: Region<R>, w: nat)
    requires Inv(j, before, s) && w < j.n && s.workers[w].start < |j.inputs|
    requires var k := s.workers[w]; k.at == End(j, k) || j.f(j.inputs[k.at]).None?
    ensures Inv(j, before, Step(j, s, w))
  {
    var k, n := s.workers[w], Step(j, s, w);
    assert WorkerOk(j, k, w);
    Standing(j, k, w);
    var body := k.at < End(j, k);
    if body {
      NextReached(j, k, w);
    }
    LeaveOk(j, k, w, body);
    assert n == s.(workers := s.workers[w := NextWorker(j, k, k.panicked || body)]);
    forall i: nat | i < |j.inputs| && Owner(i, j.chunk, j.n) == w
      ensures OutputOk(j, before, n, i)
    {
      assert OutputOk(j, before, s, i);
      BehindNext(j, k, k.panicked || body, i);
    }
    OthersOk(j, before, s, n, w);
  }

  lemma StepKeeps<T, R>(j: Job<T, R>, before: seq<R>, s: Region<R>, w: nat)
    requires Inv(j, before, s)
    ensures Inv(j, before, Step(j, s, w))
  {
    if w < j.n && s.workers[w].start < |j.inputs| {
      var k := s.workers[w];
      assert WorkerOk(j, k, w);
      if k.at < End(j, k) && j.f(j.inputs[k.at]).Some? {
        ComputeKeeps(j, before, s, w);
      } else {
        LeaveKeeps(j, before, s, w);
      }
    }
  }

  lemma BeginOk<T, R>(j: Job<T, R>, before: seq<R>)
    requires Sized(j) && |before| == |j.inputs|
    ensures Inv(j, before, Begin(j, before))
  {
    var s := Begin(j, before);
    forall w | 0 <= w < j.n
      ensures WorkerOk(j, s.workers[w], w)
    {
      Remainder(w, j.n, 0, w);
      BeforeFirst(j.inputs, j.chunk, j.n, w);
    }
    forall i: nat | i < |j.inputs|
      ensures OutputOk(j, before, s, i)
    {
      var w := Owner(i, j.chunk, j.n);
      BeforeFirst(j.inputs, j.chunk, j.n, w);
      Split(i, j.chunk);
      assert Block(i, j.chunk) == w ==> i >= w * j.chunk;
    }
  }

  lemma {:induction false} RunKeeps<T, R>(j: Job<T, R>, before: seq<R>, order: seq<nat>)
    requires Sized(j) && |before| == |j.inputs|
    ensures Inv(j, before, Run(j, before, order))
    decreases |order|
  {
    if order == [] {
      BeginOk(j, before);
    } else {
      RunKeeps(j, before, order[..|order| - 1]);
      StepKeeps(j, before, Run(j, before, order[..|order| - 1]), order[|order| - 1]);
    }
  }

  /** What the region reports: some worker's trampoline returned a panic. */
  ghost predicate RegionPanicked<R>(s: Region<R>) {
    exists w :: 0 <= w < |s.workers| && s.workers[w].panicked
  }

  /** However the workers' elements interleave, a finished region has f of its input in every
      output whose element is reached, leaves every other output as it was, and reports a panic
      exactly if some element panics. */
  lemma RegionIsExact<T, R>(j: Job<T, R>, before: seq<R>, order: seq<nat>)
    requires Sized(j) && |before| == |j.inputs| && Finished(j, Run(j, before, order))
    ensures var s := Run(j, before, order);
            && |s.outputs| == |before|
            && (forall i: nat :: i < |before| ==>
                  s.outputs[i] == if Reached(j.inputs, j.f, j.chunk, i) then j.f(j.inputs[i]).value else before[i])
            && (RegionPanicked(s) <==> exists i :: 0 <= i < |j.inputs| && j.f(j.inputs[i]).None?)
  {
    RunKeeps(j, before, order);
    FinishedIsExact(j, before, Run(j, before, order));
  }

  lemma FinishedIsExact<T, R>(j: Job<T, R>, before: seq<R>, s: Region<R>)
    requires Inv(j, before, s) && Finished(j, s)
    ensures forall i: nat :: i < |before| ==>
              s.outputs[i] == if Reached(j.inputs, j.f, j.chunk, i) then j.f(j.inputs[i]).value else before[i]
    ensures RegionPanicked(s) <==> exists i :: 0 <= i < |j.inputs| && j.f(j.inputs[i]).None?
  {
    forall i: nat | i < |j.inputs|
      ensures Block(i, j.chunk) < s.workers[Owner(i, j.chunk, j.n)].c
    {
      var k := s.workers[Owner(i, j.chunk, j.n)];
      assert WorkerOk(j, k, Owner(i, j.chunk, j.n));
      BlockBelow(i, j.chunk, k.c);
    }
    forall i: nat | i < |j.inputs|
      ensures s.outputs[i] == if Reached(j.inputs, j.f, j.chunk, i) then j.f(j.inputs[i]).value else before[i]
    {
      assert OutputOk(j, before, s, i);
    }
    if i: nat :| i < |j.inputs| && j.f(j.inputs[i]).None? {
      var w := Owner(i, j.chunk, j.n);
      assert WorkerOk(j, s.workers[w], w) && PanicBelow(j.inputs, j.f, j.chunk, j.n, w, s.workers[w].c);
    }
    if w :| 0 <= w < |s.workers| && s.workers[w].panicked {
      assert WorkerOk(j, s.workers[w], w);
    }
  }

  lemma BlockBelow(i: nat, chunk: nat, c: nat)
    requires chunk >= 1 && i < c * chunk
    ensures Block(i, chunk) < c
  {
    var q := i / chunk;
    Split(i, chunk);
    assert q >= c ==> (q - c) * chunk >= 0;
    assert (q - c) * chunk == q * chunk - c * chunk;
  }

  // ---- Every region can finish ----

  lemma StepNarrows<T, R>(j: Job<T, R>, before: seq<R>, s: Region<R>, w: nat)
    requires Inv(j, before, s) && w < j.n && s.workers[w].start < |j.inputs|
    ensures var k, n := s.workers[w], Step(j, s, w).workers;
            && |n| == |s.workers| && (forall v :: 0 <= v < |n| && v != w ==> n[v] == s.workers[v])
            && (n[w].start > k.start || (n[w].start == k.start && End(j, n[w]) - n[w].at < End(j, k) - k.at))
  {
    var k := s.workers[w];
    assert WorkerOk(j, k, w);
    assert (k.c + j.n) * j.chunk == k.c * j.chunk + j.n * j.chunk;
  }

  /** A worker left alone gets through its chunks. */
  lemma {:induction false} WorkerEnds<T, R>(j: Job<T, R>, before: seq<R>, order: seq<nat>, w: nat) returns (more: seq<nat>)
    requires Sized(j) && |before| == |j.inputs| && w < j.n
    ensures var s, t := Run(j, before, order).workers, Run(j, before, order + more).workers;
            && |s| == |t| == j.n && t[w].start >= |j.inputs| && forall v :: 0 <= v < j.n && v != w ==> t[v] == s[v]
    decreases var k := WorkerAt(j, before, order, w);
              if k.start < |j.inputs| then |j.inputs| - k.start else 0,
              var k := WorkerAt(j, before, order, w); if k.at < End(j, k) then End(j, k) - k.at else 0
  {
    RunKeeps(j, before, order);
    var s := Run(j, before, order);
    assert order + [] == order;
    more := [];
    if s.workers[w].start < |j.inputs| {
      StepNarrows(j, before, s, w);
      assert (order + [w])[..|order|] == order;
      assert WorkerOk(j, s.workers[w], w);
      var rest := WorkerEnds(j, before, order + [w], w);
      more := [w] + rest;
      assert order + [w] + rest == order + more;
    }
  }

  ghost function WorkerAt<T, R>(j: Job<T, R>, before: seq<R>, order: seq<nat>, w: nat): Worker {
    var s := Run(j, before, order);
    if w < |s.workers| then s.workers[w] else Worker(0, 0, 0, false)
  }

  lemma {:induction false} WorkersEnd<T, R>(j: Job<T, R>, before: seq<R>, order: seq<nat>, n: nat) returns (more: seq<nat>)
    requires Sized(j) && |before| == |j.inputs| && n <= j.n
    ensures var t := Run(j, before, order + more).workers;
            |t| == j.n && forall w :: 0 <= w < n ==> t[w].start >= |j.inputs|
  {
    more := [];
    RunKeeps(j, before, order);
    assert order + [] == order;
    if n > 0 {
      var first := WorkersEnd(j, before, order, n - 1);
      var rest := WorkerEnds(j, before, order + first, n - 1);
      more := first + rest;
      assert order + first + rest == order + more;
    }
  }

  /** However far the workers have come, they can all finish. */
  lemma RegionCanFinish<T, R>(j: Job<T, R>, before: seq<R>, order: seq<nat>) returns (more: seq<nat>)
    requires Sized(j) && |before| == |j.inputs|
    ensures Finished(j, Run(j, before, order + more))
  {
    more := WorkersEnd(j, before, order, j.n);
  }
}
