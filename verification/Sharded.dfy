/** The sharded open-addressing map, on a quiescent map, refines a plain map. */
module Sharded {
  import opened Options
  import opened Finite
  import opened Probes

  datatype Slot<V> = Empty | Reserved | Full(key: nat, value: V) | Tombstone

  datatype Result = Ok | TableCorrupted | Busy

  // ---- What a table holds ----

  /** No empty slot lies between a key's home and where it is. */
  ghost predicate Reached<V>(s: seq<Slot<V>>, p: nat)
    requires p < |s| && s[p].Full?
  {
    var h := Home(s[p].key, |s|);
    forall d :: 0 <= d < Steps(|s|, h, p) ==> !s[At(|s|, h, d)].Empty?
  }

  /** The table holds exactly this map: every entry once, where probing finds it. */
  ghost predicate Holds<V>(s: seq<Slot<V>>, m: map<nat, V>) {
    && |s| >= 8
    && (forall p :: 0 <= p < |s| ==> !s[p].Reserved?)
    && (forall p :: 0 <= p < |s| && s[p].Full? ==> s[p].key in m && m[s[p].key] == s[p].value && Reached(s, p))
    && (forall p, q :: 0 <= p < q < |s| && s[p].Full? && s[q].Full? ==> s[p].key != s[q].key)
    && (forall k :: k in m ==> exists p :: 0 <= p < |s| && s[p].Full? && s[p].key == k)
  }

  /** The first d probes of a key see neither it nor an empty slot. */
  ghost predicate Passed<V>(s: seq<Slot<V>>, key: nat, d: nat) {
    |s| > 0 && d <= |s|
    && forall j :: 0 <= j < d ==> var x := s[At(|s|, Home(key, |s|), j)]; !x.Empty? && !(x.Full? && x.key == key)
  }

  /** A probe that meets an empty slot, or goes all the way round, proves the key absent. */
  lemma Absent<V>(s: seq<Slot<V>>, m: map<nat, V>, key: nat, d: nat)
    requires Holds(s, m) && Passed(s, key, d)
    requires d < |s| ==> s[At(|s|, Home(key, |s|), d)].Empty?
    ensures key !in m
  {
    forall p | 0 <= p < |s| && s[p].Full?
      ensures s[p].key != key
    {
      var e := Steps(|s|, Home(key, |s|), p);
      assert Reached(s, p);
      assert e < d ==> s[p].key != key;
    }
  }

  /** Filling a slot that probing reaches adds the entry. */
  lemma FillHolds<V>(s: seq<Slot<V>>, m: map<nat, V>, key: nat, value: V, d: nat)
    requires Holds(s, m) && key !in m && d < |s|
    requires forall j :: 0 <= j < d ==> !s[At(|s|, Home(key, |s|), j)].Empty?
    requires !s[At(|s|, Home(key, |s|), d)].Full?
    ensures Holds(s[At(|s|, Home(key, |s|), d) := Full(key, value)], m[key := value])
  {
    var h := Home(key, |s|);
    var t := At(|s|, h, d);
    var n := s[t := Full(key, value)];
    forall p | 0 <= p < |s| && n[p].Full?
      ensures Reached(n, p)
    {
      if p != t {
        assert Reached(s, p);
      } else {
        assert Steps(|s|, h, t) == d;
      }
    }
    var more := m[key := value];
    forall k | k in more
      ensures exists p :: 0 <= p < |n| && n[p].Full? && n[p].key == k
    {
      if k == key {
        assert n[t].Full?;
      } else {
        var p :| 0 <= p < |s| && s[p].Full? && s[p].key == k;
        assert n[p] == s[p];
      }
    }
  }

  lemma OverwriteHolds<V>(s: seq<Slot<V>>, m: map<nat, V>, p: nat, value: V)
    requires Holds(s, m) && p < |s| && s[p].Full?
    ensures Holds(s[p := Full(s[p].key, value)], m[s[p].key := value]) && s[p].key in m
  {
    var key := s[p].key;
    var n := s[p := Full(key, value)];
    forall q | 0 <= q < |s| && n[q].Full?
      ensures Reached(n, q)
    {
      assert Reached(s, q);
    }
    var more := m[key := value];
    forall k | k in more
      ensures exists q :: 0 <= q < |n| && n[q].Full? && n[q].key == k
    {
      var q :| 0 <= q < |s| && s[q].Full? && s[q].key == k;
      assert n[q].key == k;
    }
  }

  /** A tombstone removes the entry and hides nobody else. */
  lemma BuryHolds<V>(s: seq<Slot<V>>, m: map<nat, V>, p: nat)
    requires Holds(s, m) && p < |s| && s[p].Full?
    ensures Holds(s[p := Tombstone], m - {s[p].key}) && s[p].key in m
  {
    var n := s[p := Tombstone];
    forall q | 0 <= q < |s| && n[q].Full?
      ensures Reached(n, q) && n[q].key in m - {s[p].key}
    {
      assert Reached(s, q);
      assert q < p ==> s[q].key != s[p].key;
      assert p < q ==> s[q].key != s[p].key;
    }
    forall k | k in m - {s[p].key}
      ensures exists q :: 0 <= q < |n| && n[q].Full? && n[q].key == k
    {
      var q :| 0 <= q < |s| && s[q].Full? && s[q].key == k;
      assert n[q] == s[q];
    }
  }

  // ---- How many entries ----

  ghost function FullSlots<V>(s: seq<Slot<V>>): set<nat> {
    set p | p in Below(|s|) && s[p].Full?
  }

  lemma {:induction false} DistinctKeys<V>(s: seq<Slot<V>>, ids: set<nat>)
    requires forall p :: p in ids ==> p < |s| && s[p].Full?
    requires forall p, q :: 0 <= p < q < |s| && s[p].Full? && s[q].Full? ==> s[p].key != s[q].key
    ensures |set p | p in ids :: s[p].key| == |ids|
    decreases ids
  {
    if ids != {} {
      var x :| x in ids;
      DistinctKeys(s, ids - {x});
      assert (set p | p in ids :: s[p].key) == (set p | p in ids - {x} :: s[p].key) + {s[x].key};
    }
  }

  lemma KeysCount<V>(s: seq<Slot<V>>, m: map<nat, V>)
    requires Holds(s, m)
    ensures |FullSlots(s)| == |m|
  {
    var full := FullSlots(s);
    DistinctKeys(s, full);
    assert (set p | p in full :: s[p].key) == m.Keys;
  }

  /** As many full slots as entries; a table is full of entries only if every slot is. */
  lemma EntryCount<V>(s: seq<Slot<V>>, m: map<nat, V>)
    requires Holds(s, m)
    ensures |FullSlots(s)| == |m| <= |s|
    ensures |m| == |s| <==> forall p :: 0 <= p < |s| ==> s[p].Full?
  {
    KeysCount(s, m);
    SubsetSize(FullSlots(s), Below(|s|));
    if forall p :: 0 <= p < |s| ==> s[p].Full? {
      assert FullSlots(s) == Below(|s|);
    } else {
      var p :| 0 <= p < |s| && !s[p].Full?;
      assert p in Below(|s|) && p !in FullSlots(s);
    }
  }

  // ---- One shard ----

  predicate PowerOfTwo(n: nat) {
    n == 1 || (n > 1 && n % 2 == 0 && PowerOfTwo(n / 2))
  }

  function Power(k: nat): nat {
    if k == 0 then 1 else 2 * Power(k - 1)
  }

  lemma {:induction false} PowerPasses(k: nat)
    ensures Power(k) >= 1 && PowerOfTwo(Power(k))
  {
    if k > 0 {
      PowerPasses(k - 1);
      assert Power(k) / 2 == Power(k - 1);
    }
  }

  lemma {:induction false} PassesIsPower(n: nat) returns (k: nat)
    requires PowerOfTwo(n)
    ensures n == Power(k)
  {
    k := 0;
    if n > 1 {
      var half := PassesIsPower(n / 2);
      k := half + 1;
    }
  }

  /** The test by halving accepts exactly 1, 2, 4, 8, ... */
  lemma PowerOfTwoExactly(n: nat)
    ensures PowerOfTwo(n) <==> exists k: nat :: n == Power(k)
  {
    if PowerOfTwo(n) {
      var k := PassesIsPower(n);
    }
    forall k: nat | n == Power(k)
      ensures PowerOfTwo(n)
    {
      PowerPasses(k);
    }
  }

  class Shard<V> {
    var slots: array<Slot<V>>
    var used: nat
    var writerLock: bool
    ghost var contents: map<nat, V>

    ghost predicate Valid()
      reads this, slots
    {
      Holds(slots[..], contents) && used == |contents| && PowerOfTwo(slots.Length)
    }

    constructor (capacity: nat)
      requires PowerOfTwo(capacity) && capacity >= 8
      ensures Valid() && fresh(slots) && contents == map[] && slots.Length == capacity && NoTombstone(slots[..])
      ensures !writerLock && used == 0
    {
      slots := new Slot<V>[capacity](_ => Empty);
      used, writerLock, contents := 0, false, map[];
    }

    /** get agrees with the map. */
    method Get(key: nat) returns (r: Option<V>)
      requires Valid()
      ensures r == if key in contents then Some(contents[key]) else None
    {
      var cap := slots.Length;
      var i := Home(key, cap);
      for d := 0 to cap
        invariant d < cap ==> i == At(cap, Home(key, cap), d)
        invariant Passed(slots[..], key, d)
      {
        match slots[i] {
          case Empty =>
            Absent(slots[..], contents, key, d);
            return None;
          case Full(k, v) =>
            if k == key {
              assert slots[..][i] == Full(k, v);
              return Some(v);
            }
          case _ =>
        }
        i := Next(cap, i);
      }
      Absent(slots[..], contents, key, cap);
      r := None;
    }

    /** Claim the first free slot of a new key and publish the entry. */
    method OccupySlot(target: nat, key: nat, value: V) returns (r: Result)
      requires Valid() && writerLock && key !in contents && FirstFree(slots[..], key, target)
      modifies slots, this`used, this`contents
      ensures Valid() && r == Ok && contents == old(contents)[key := value]
    {
      if !slots[target].Empty? && !slots[target].Tombstone? {
        return TableCorrupted;
      }
      FillHolds(slots[..], contents, key, value, Steps(slots.Length, Home(key, slots.Length), target));
      slots[target] := Reserved;
      slots[target] := Full(key, value);
      assert slots[..] == old(slots[..])[target := Full(key, value)];
      used := used + 1;
      contents := contents[key := value];
      r := Ok;
    }

    /** Move every entry into a fresh table of twice the size. */
    method ResizeLocked()
      requires Valid() && writerLock
      modifies this`slots, this`used
      ensures Valid() && contents == old(contents) && fresh(slots) && slots.Length == 2 * old(slots.Length)
    {
      var bigger := new Shard<V>(slots.Length * 2);
      bigger.TakeAll(slots, contents);
      slots, used := bigger.slots, bigger.used;
    }

    /** Take over every slot of a table half the size. */
    method TakeAll(from: array<Slot<V>>, ghost all: map<nat, V>)
      requires Valid() && contents == map[] && NoTombstone(slots[..])
      requires from != slots && Holds(from[..], all) && from.Length < slots.Length
      modifies slots, this`used, this`contents
      ensures Valid() && contents == all
    {
      ghost var was := from[..];
      for p := 0 to from.Length
        invariant Valid() && from[..] == was
        invariant Moved(was, p, contents) && NoTombstone(slots[..]) && |contents| <= p
      {
        MovedStep(was, all, p, contents);
        Take(from[p]);
      }
      MovedAll(was, all, contents);
    }

    /** Take over one slot of the table being replaced. */
    method Take(slot: Slot<V>)
      requires Valid() && |contents| < slots.Length && NoTombstone(slots[..]) && (slot.Full? ==> slot.key !in contents)
      modifies slots, this`used, this`contents
      ensures Valid() && NoTombstone(slots[..])
      ensures contents == With(old(contents), slot)
    {
      if slot.Full? {
        Place(slot.key, slot.value);
      }
    }

    /** Probe for the first empty slot of a table that has room and no tombstones. */
    method Place(key: nat, value: V)
      requires Valid() && key !in contents && |contents| < slots.Length && NoTombstone(slots[..])
      modifies slots, this`used, this`contents
      ensures Valid() && contents == old(contents)[key := value] && NoTombstone(slots[..])
    {
      var cap := slots.Length;
      var i := Home(key, cap);
      for d := 0 to cap
        invariant d < cap ==> i == At(cap, Home(key, cap), d)
        invariant Passed(slots[..], key, d)
        invariant slots == old(slots) && Valid() && contents == old(contents) && slots[..] == old(slots[..])
      {
        if slots[i].Empty? {
          FillHolds(slots[..], contents, key, value, d);
          slots[i] := Full(key, value);
          used := used + 1;
          contents := contents[key := value];
          return;
        }
        assert slots[..][i] == slots[i];
        i := Next(cap, i);
      }
      AllPassed(slots[..], contents, key);
    }

    /** Walk a key's probe sequence for an insertion: its own slot, else the first reusable slot
        (the first tombstone, or the empty slot that ends the walk), else nothing is free. */
    method Probe(key: nat) returns (r: Outcome)
      requires Valid()
      ensures match r
              case Hit(p) => p < slots.Length && slots[p].Full? && slots[p].key == key
              case Free(t) => key !in contents && FirstFree(slots[..], key, t)
              case Saturated => key !in contents && |contents| == slots.Length
              case Corrupt => false
    {
      var cap := slots.Length;
      var i := Home(key, cap);
      var tombstone: Option<nat> := None;
      for d := 0 to cap
        invariant d < cap ==> i == At(cap, Home(key, cap), d)
        invariant Passed(slots[..], key, d)
        invariant Remembered(slots[..], key, d, tombstone)
      {
        assert slots[..][i] == slots[i];
        match slots[i] {
          case Empty =>
            Absent(slots[..], contents, key, d);
            return Free(if tombstone.Some? then tombstone.value else i);
          case Full(k, _) =>
            if k == key {
              return Hit(i);
            }
          case Tombstone =>
            if tombstone.None? {
              tombstone := Some(i);
            }
          case Reserved =>
            return Corrupt;
        }
        i := Next(cap, i);
      }
      Absent(slots[..], contents, key, cap);
      if tombstone.None? {
        AllPassed(slots[..], contents, key);
        return Saturated;
      }
      r := Free(tombstone.value);
    }

    /** Insert or overwrite; a saturated table doubles first. The table is never corrupt, and the
        retry happens at most once because a doubled table has room. */
    method InsertLocked(key: nat, value: V) returns (r: Result, added: bool)
      requires Valid() && writerLock
      modifies this`slots, this`used, this`contents, slots
      ensures Valid() && r == Ok && (slots == old(slots) || fresh(slots))
      ensures contents == old(contents)[key := value] && added == (key !in old(contents))
      decreases if |contents| == slots.Length then 1 else 0
    {
      var outcome := Probe(key);
      match outcome {
        case Hit(p) =>
          OverwriteHolds(slots[..], contents, p, value);
          slots[p] := Full(key, value);
          contents := contents[key := value];
          r, added := Ok, false;
        case Free(t) =>
          r := OccupySlot(t, key, value);
          added := true;
        case Saturated =>
          ResizeLocked();
          r, added := InsertLocked(key, value);
        case Corrupt =>
          r, added := TableCorrupted, false;
      }
    }

    /** Take the writer lock or report Busy, insert, release. */
    method Insert(key: nat, value: V) returns (r: Result, added: bool)
      requires Valid()
      modifies this, slots
      ensures Valid() && (slots == old(slots) || fresh(slots)) && writerLock == old(writerLock)
      ensures r == if old(writerLock) then Busy else Ok
      ensures contents == (if r == Ok then Put(old(contents), key, value) else old(contents))
      ensures added == (r == Ok && key !in old(contents))
    {
      if writerLock {
        return Busy, false;
      }
      writerLock := true;
      r, added := InsertLocked(key, value);
      writerLock := false;
    }

    /** Take the writer lock or report Busy, remove, release. */
    method Remove(key: nat) returns (r: Result, found: bool)
      requires Valid()
      modifies this, slots
      ensures Valid() && slots == old(slots) && writerLock == old(writerLock)
      ensures r == if old(writerLock) then Busy else Ok
      ensures contents == (if r == Ok then Drop(old(contents), key) else old(contents))
      ensures found == (r == Ok && key in old(contents))
    {
      if writerLock {
        return Busy, false;
      }
      writerLock := true;
      r, found := RemoveLocked(key);
      writerLock := false;
    }

    /** The key's slot, if it has one. */
    method Locate(key: nat) returns (r: Option<nat>)
      requires Valid()
      ensures r.None? <==> key !in contents
      ensures r.Some? ==> r.value < slots.Length && slots[r.value].Full? && slots[r.value].key == key
    {
      var cap := slots.Length;
      var i := Home(key, cap);
      for d := 0 to cap
        invariant d < cap ==> i == At(cap, Home(key, cap), d)
        invariant Passed(slots[..], key, d)
      {
        assert slots[..][i] == slots[i];
        if slots[i].Empty? {
          Absent(slots[..], contents, key, d);
          return None;
        }
        if slots[i].Full? && slots[i].key == key {
          return Some(i);
        }
        i := Next(cap, i);
      }
      Absent(slots[..], contents, key, cap);
      r := None;
    }

    /** Bury the key's slot if there is one. */
    method RemoveLocked(key: nat) returns (r: Result, found: bool)
      requires Valid() && writerLock
      modifies slots, this`used, this`contents
      ensures Valid() && r == Ok && found == (key in old(contents)) && contents == old(contents) - {key}
    {
      var p := Locate(key);
      r, found := Ok, p.Some?;
      if found {
        BuryHolds(slots[..], contents, p.value);
        slots[p.value] := Tombstone;
        used := used - 1;
        contents := contents - {key};
      }
    }
  }

  datatype Outcome = Hit(p: nat) | Free(t: nat) | Saturated | Corrupt

  /** t is the first slot on the key's probe sequence that holds no entry. */
  ghost predicate FirstFree<V>(s: seq<Slot<V>>, key: nat, t: nat) {
    && t < |s| && (s[t].Empty? || s[t].Tombstone?)
    && forall j :: 0 <= j < Steps(|s|, Home(key, |s|), t) ==> s[At(|s|, Home(key, |s|), j)].Full?
  }

  ghost predicate NoTombstone<V>(s: seq<Slot<V>>) {
    forall p :: 0 <= p < |s| ==> !s[p].Tombstone?
  }

  /** m is what the first p slots of s hold. */
  ghost predicate Moved<V>(s: seq<Slot<V>>, p: nat, m: map<nat, V>)
    requires p <= |s|
  {
    && (forall q :: 0 <= q < p && s[q].Full? ==> s[q].key in m && m[s[q].key] == s[q].value)
    && (forall k :: k in m ==> exists q :: 0 <= q < p && s[q].Full? && s[q].key == k)
  }

  function With<V>(m: map<nat, V>, slot: Slot<V>): map<nat, V> {
    if slot.Full? then m[slot.key := slot.value] else m
  }

  lemma MovedStep<V>(s: seq<Slot<V>>, all: map<nat, V>, p: nat, m: map<nat, V>)
    requires Holds(s, all) && p < |s| && Moved(s, p, m)
    ensures s[p].Full? ==> s[p].key !in m
    ensures Moved(s, p + 1, With(m, s[p])) && |With(m, s[p])| <= |m| + 1
  {
  }

  lemma MovedAll<V>(s: seq<Slot<V>>, all: map<nat, V>, m: map<nat, V>)
    requires Holds(s, all) && Moved(s, |s|, m)
    ensures m == all
  {
  }

  /** A whole cycle without an empty slot, in a table without tombstones, means every slot is full. */
  lemma AllPassed<V>(s: seq<Slot<V>>, m: map<nat, V>, key: nat)
    requires Holds(s, m) && Passed(s, key, |s|) && Remembered(s, key, |s|, None)
    ensures |m| == |s|
  {
    forall p | 0 <= p < |s|
      ensures s[p].Full?
    {
      assert s[At(|s|, Home(key, |s|), Steps(|s|, Home(key, |s|), p))] == s[p];
    }
    EntryCount(s, m);
  }

  /** The first tombstone among the first d probes. */
  ghost predicate Remembered<V>(s: seq<Slot<V>>, key: nat, d: nat, t: Option<nat>)
    requires |s| > 0 && d <= |s|
  {
    var h := Home(key, |s|);
    match t
    case None => forall j :: 0 <= j < d ==> !s[At(|s|, h, j)].Tombstone?
    case Some(p) => p < |s| && s[p].Tombstone? && Steps(|s|, h, p) < d
                    && forall j :: 0 <= j < Steps(|s|, h, p) ==> !s[At(|s|, h, j)].Tombstone?
  }

  // ---- The whole map ----

  const SHARD_COUNT: nat := 64

  function ShardOf(key: nat): (j: nat)
    ensures j < SHARD_COUNT
  {
    key % SHARD_COUNT
  }

  /** part is the piece of m that shard j is responsible for. */
  ghost predicate Piece<V>(m: map<nat, V>, j: nat, part: map<nat, V>) {
    && (forall k :: k in part <==> k in m && ShardOf(k) == j)
    && (forall k :: k in part ==> part[k] == m[k])
  }

  function Put<V>(m: map<nat, V>, key: nat, value: V): map<nat, V> {
    m[key := value]
  }

  function Drop<V>(m: map<nat, V>, key: nat): map<nat, V> {
    m - {key}
  }

  ghost predicate Pieces<V>(m: map<nat, V>, parts: seq<map<nat, V>>) {
    |parts| == SHARD_COUNT && forall j :: 0 <= j < SHARD_COUNT ==> Piece(m, j, parts[j])
  }

  lemma PiecesInsert<V>(m: map<nat, V>, parts: seq<map<nat, V>>, key: nat, value: V)
    requires Pieces(m, parts)
    ensures Pieces(Put(m, key, value), parts[ShardOf(key) := Put(parts[ShardOf(key)], key, value)])
    ensures key in parts[ShardOf(key)] <==> key in m
  {
  }

  lemma PiecesRemove<V>(m: map<nat, V>, parts: seq<map<nat, V>>, key: nat)
    requires Pieces(m, parts)
    ensures Pieces(Drop(m, key), parts[ShardOf(key) := Drop(parts[ShardOf(key)], key)])
    ensures key in parts[ShardOf(key)] <==> key in m
  {
  }

  lemma RemoveSize<V>(m: map<nat, V>, key: nat)
    ensures |Drop(m, key)| == |m| - if key in m then 1 else 0
  {
  }

  class ShardedMap<V> {
    const shards: seq<Shard<V>>
    var len: nat
    ghost var contents: map<nat, V>
    ghost var parts: seq<map<nat, V>>

    ghost predicate Apart()
      reads shards
    {
      && |shards| == SHARD_COUNT
      && forall i, j :: 0 <= i < j < SHARD_COUNT ==> shards[i] != shards[j] && shards[i].slots != shards[j].slots
    }

    /** No writer is inside any shard. */
    ghost predicate Unlocked()
      requires |shards| == SHARD_COUNT
      reads shards
    {
      forall j :: 0 <= j < SHARD_COUNT ==> !shards[j].writerLock
    }

    constructor (made: seq<Shard<V>>)
      requires |made| == SHARD_COUNT
      requires forall i, j :: 0 <= i < j < SHARD_COUNT ==> made[i] != made[j] && made[i].slots != made[j].slots
      requires forall j :: 0 <= j < SHARD_COUNT ==> made[j].Valid() && made[j].contents == map[]
      ensures Valid() && shards == made && contents == map[]
    {
      shards := made;
      len, contents := 0, map[];
      parts := seq(SHARD_COUNT, _ => map[]);
    }

    /** Every shard is in order and holds its part. */
    ghost predicate Shards(parts: seq<map<nat, V>>)
      reads shards, set j | 0 <= j < |shards| :: shards[j].slots
    {
      && Apart() && |parts| == SHARD_COUNT
      && forall j :: 0 <= j < SHARD_COUNT ==> shards[j].Valid() && shards[j].contents == parts[j]
    }

    ghost predicate Valid()
      reads this, shards, set j | 0 <= j < |shards| :: shards[j].slots
    {
      len == |contents| && Pieces(contents, parts) && Shards(parts)
    }

    /** get agrees with the map. */
    method Get(key: nat) returns (r: Option<V>)
      requires Valid()
      ensures r == if key in contents then Some(contents[key]) else None
    {
      var j := ShardOf(key);
      assert Piece(contents, j, parts[j]);
      r := shards[j].Get(key);
    }

    /** The shard's own operation, leaving the other shards in order. */
    method InsertAt(ghost parts: seq<map<nat, V>>, t: nat, key: nat, value: V) returns (r: Result, added: bool)
      requires Shards(parts) && t < SHARD_COUNT
      modifies shards[t], shards[t].slots
      ensures Shards(parts[t := if r == Ok then Put(parts[t], key, value) else parts[t]])
      ensures r == if old(shards[t].writerLock) then Busy else Ok
      ensures added == (r == Ok && key !in parts[t])
      ensures shards[t].writerLock == old(shards[t].writerLock)
      ensures shards[t].slots == old(shards[t].slots) || fresh(shards[t].slots)
    {
      r, added := shards[t].Insert(key, value);
      forall j | 0 <= j < SHARD_COUNT && j != t
        ensures shards[j].Valid() && shards[j].contents == parts[j] && shards[j].slots != shards[t].slots
      {
        assert shards[j] != shards[t] && old(shards[j].slots) != old(shards[t].slots);
        assert unchanged(shards[j]) && unchanged(shards[j].slots);
      }
    }

    /** The shard's own operation, leaving the other shards in order. */
    method RemoveAt(ghost parts: seq<map<nat, V>>, t: nat, key: nat) returns (r: Result, found: bool)
      requires Shards(parts) && t < SHARD_COUNT
      modifies shards[t], shards[t].slots
      ensures Shards(parts[t := if r == Ok then Drop(parts[t], key) else parts[t]])
      ensures r == if old(shards[t].writerLock) then Busy else Ok
      ensures found == (r == Ok && key in parts[t])
      ensures shards[t].writerLock == old(shards[t].writerLock)
      ensures shards[t].slots == old(shards[t].slots) || fresh(shards[t].slots)
    {
      r, found := shards[t].Remove(key);
      forall j | 0 <= j < SHARD_COUNT && j != t
        ensures shards[j].Valid() && shards[j].contents == parts[j] && shards[j].slots != shards[t].slots
      {
        assert shards[j] != shards[t] && old(shards[j].slots) != old(shards[t].slots);
        assert unchanged(shards[j]) && unchanged(shards[j].slots);
      }
    }

    /** Bring the counter and the record of contents up to date with the shards. */
    method SetLen(n: nat, ghost m: map<nat, V>, ghost pieces: seq<map<nat, V>>)
      requires Shards(pieces) && Pieces(m, pieces) && n == |m|
      modifies this
      ensures Valid() && contents == m && parts == pieces
    {
      len, contents, parts := n, m, pieces;
    }

    /** insert: refuses while another writer holds the shard, else the map gains the entry. */
    method Insert(key: nat, value: V) returns (r: Result)
      requires Valid()
      modifies this, shards[ShardOf(key)], shards[ShardOf(key)].slots
      ensures Valid()
      ensures r == if old(shards[ShardOf(key)].writerLock) then Busy else Ok
      ensures contents == if r == Ok then Put(old(contents), key, value) else old(contents)
      ensures shards[ShardOf(key)].writerLock == old(shards[ShardOf(key)].writerLock)
      ensures shards[ShardOf(key)].slots == old(shards[ShardOf(key)].slots) || fresh(shards[ShardOf(key)].slots)
    {
      var t := ShardOf(key);
      PiecesInsert(contents, parts, key, value);
      var added;
      r, added := InsertAt(parts, t, key, value);
      if r == Ok {
        SetLen(if added then len + 1 else len, Put(contents, key, value), parts[t := Put(parts[t], key, value)]);
      }
    }

    /** remove: refuses while another writer holds the shard, else the map loses the key. */
    method Remove(key: nat) returns (r: Result)
      requires Valid()
      modifies this, shards[ShardOf(key)], shards[ShardOf(key)].slots
      ensures Valid()
      ensures r == if old(shards[ShardOf(key)].writerLock) then Busy else Ok
      ensures contents == if r == Ok then Drop(old(contents), key) else old(contents)
      ensures shards[ShardOf(key)].writerLock == old(shards[ShardOf(key)].writerLock)
      ensures shards[ShardOf(key)].slots == old(shards[ShardOf(key)].slots) || fresh(shards[ShardOf(key)].slots)
    {
      var t := ShardOf(key);
      PiecesRemove(contents, parts, key);
      RemoveSize(contents, key);
      var found;
      r, found := RemoveAt(parts, t, key);
      if r == Ok {
        SetLen(if found then len - 1 else len, Drop(contents, key), parts[t := Drop(parts[t], key)]);
      }
    }
  }

  /** new: a capacity that is not a power of two of at least eight is refused. */
  method Create<V>(capacity: nat) returns (r: Option<ShardedMap<V>>)
    ensures r.None? <==> !PowerOfTwo(capacity) || capacity < 8
    ensures r.Some? ==> fresh(r.value) && r.value.Valid() && r.value.contents == map[] && r.value.Unlocked()
    ensures r.Some? ==> forall j :: 0 <= j < SHARD_COUNT ==> fresh(r.value.shards[j]) && fresh(r.value.shards[j].slots)
  {
    if !PowerOfTwo(capacity) || capacity < 8 {
      return None;
    }
    var shards: seq<Shard<V>> := [];
    for i := 0 to SHARD_COUNT
      invariant |shards| == i
      invariant forall j :: 0 <= j < i ==> fresh(shards[j]) && fresh(shards[j].slots) && shards[j].Valid() && shards[j].contents == map[]
      invariant forall j :: 0 <= j < i ==> !shards[j].writerLock
      invariant forall j, k :: 0 <= j < k < i ==> shards[j] != shards[k] && shards[j].slots != shards[k].slots
    {
      var shard := new Shard<V>(capacity);
      shards := shards + [shard];
    }
    var table := new ShardedMap<V>(shards);
    r := Some(table);
  }

  // ---- Any sequence of operations ----

  datatype Request<V> = GetKey(key: nat) | PutKey(key: nat, value: V) | DropKey(key: nat)

  /** What an operation does to a plain map. */
  function Effect<V>(m: map<nat, V>, q: Request<V>): map<nat, V> {
    match q
    case GetKey(_) => m
    case PutKey(key, value) => Put(m, key, value)
    case DropKey(key) => Drop(m, key)
  }

  /** What it answers on a plain map. */
  function Answer<V>(m: map<nat, V>, q: Request<V>): Option<V> {
    if q.GetKey? && q.key in m then Some(m[q.key]) else None
  }

  /** The plain map after a sequence of operations, starting empty. */
  function AfterAll<V>(requests: seq<Request<V>>): map<nat, V> {
    if requests == [] then map[] else Effect(AfterAll(requests[..|requests| - 1]), requests[|requests| - 1])
  }

  /** The answers a plain map gives along the way. */
  function Answers<V>(requests: seq<Request<V>>): seq<Option<V>> {
    if requests == [] then []
    else
      var before, last := requests[..|requests| - 1], requests[|requests| - 1];
      Answers(before) + [Answer(AfterAll(before), last)]
  }

  /** Serve one operation on an unlocked map. */
  method Serve<V>(table: ShardedMap<V>, q: Request<V>) returns (r: Option<V>)
    requires table.Valid() && table.Unlocked()
    modifies table, table.shards[ShardOf(q.key)], table.shards[ShardOf(q.key)].slots
    ensures table.Valid() && table.Unlocked()
    ensures r == Answer(old(table.contents), q) && table.contents == Effect(old(table.contents), q)
    ensures forall j :: 0 <= j < SHARD_COUNT ==>
              table.shards[j].slots == old(table.shards[j].slots) || fresh(table.shards[j].slots)
  {
    r := None;
    var done := Ok;
    match q {
      case GetKey(key) => r := table.Get(key);
      case PutKey(key, value) => done := table.Insert(key, value);
      case DropKey(key) => done := table.Remove(key);
    }
  }

  /** Every sequence of operations on a new map is answered as a plain map answers it, and len
      is the plain map's size. */
  method ServeAll<V>(capacity: nat, requests: seq<Request<V>>) returns (answers: seq<Option<V>>, len: nat)
    requires PowerOfTwo(capacity) && capacity >= 8
    ensures answers == Answers(requests) && len == |AfterAll(requests)|
  {
    var made := Create<V>(capacity);
    var table := made.value;
    answers := [];
    for i := 0 to |requests|
      invariant fresh(table) && table.Valid() && table.Unlocked()
      invariant forall j :: 0 <= j < SHARD_COUNT ==> fresh(table.shards[j]) && fresh(table.shards[j].slots)
      invariant answers == Answers(requests[..i]) && table.contents == AfterAll(requests[..i])
    {
      var answer := Serve(table, requests[i]);
      AfterStep(requests, i);
      answers := answers + [answer];
    }
    assert requests[..|requests|] == requests;
    len := table.len;
  }

  lemma AfterStep<V>(requests: seq<Request<V>>, i: nat)
    requires i < |requests|
    ensures AfterAll(requests[..i + 1]) == Effect(AfterAll(requests[..i]), requests[i])
    ensures Answers(requests[..i + 1]) == Answers(requests[..i]) + [Answer(AfterAll(requests[..i]), requests[i])]
  {
    assert requests[..i + 1][..i] == requests[..i];
  }
}
