/** How the bucket count grows. */
module HashmapGrowth {
  import opened Wrappers
  import opened HashmapModel

  const PRIMES: seq<nat> := [
    5, 11, 23, 53, 97, 193, 389, 769, 1543,
    3079, 6151, 12289, 24593, 49157, 98317, 196613, 393241, 786433]

  const MIN_ARENA_COUNT: nat := 23

  /** The scan for a count that fits the embedded buckets, from table index `n`. */
  function Embedded(n: nat, current: nat, preallocated: nat): Option<nat>
    decreases |PRIMES| - n
  {
    if n + 1 >= |PRIMES| || PRIMES[n] > preallocated then None
    else if PRIMES[n] > current && PRIMES[n + 1] > preallocated then Some(PRIMES[n])
    else Embedded(n + 1, current, preallocated)
  }

  /** The scan for a count to allocate from the arena, from table index `n`. */
  function Arena(n: nat, current: nat): Option<nat>
    decreases |PRIMES| - n
  {
    if n >= |PRIMES| then None
    else if PRIMES[n] >= MIN_ARENA_COUNT && PRIMES[n] > current then Some(PRIMES[n])
    else Arena(n + 1, current)
  }

  /** get_next_bucket_size_. */
  function NextCount(current: nat, preallocated: nat): nat {
    if current < preallocated && Embedded(0, current, preallocated).Some? then Embedded(0, current, preallocated).value
    else if Arena(0, current).Some? then Arena(0, current).value
    else current * 3
  }

  /** The two table scans of get_next_bucket_size_ as the loops they are. */
  method GetNextBucketSize(current: nat, preallocated: nat) returns (r: nat)
    ensures r == NextCount(current, preallocated)
  {
    if current < preallocated {
      var n := 0;
      while n < |PRIMES| - 1
        invariant n <= |PRIMES| - 1
        invariant Embedded(n, current, preallocated) == Embedded(0, current, preallocated)
      {
        if PRIMES[n] > preallocated { break; }
        if PRIMES[n] > current && PRIMES[n + 1] > preallocated { return PRIMES[n]; }
        n := n + 1;
      }
    }
    var n := 0;
    while n < |PRIMES|
      invariant n <= |PRIMES|
      invariant Arena(n, current) == Arena(0, current)
    {
      if PRIMES[n] >= MIN_ARENA_COUNT && PRIMES[n] > current { return PRIMES[n]; }
      n := n + 1;
    }
    return current * 3;
  }

  /** Bucket counts a table can have. */
  predicate IsCount(c: nat) {
    c == 0 || c in PRIMES || c > 786433
  }

  lemma {:induction false} EmbeddedInTable(n: nat, current: nat, preallocated: nat)
    ensures var r := Embedded(n, current, preallocated); r.Some? ==> r.value in PRIMES && r.value > current
    decreases |PRIMES| - n
  {
    if n + 1 < |PRIMES| { EmbeddedInTable(n + 1, current, preallocated); }
  }

  lemma {:induction false} ArenaInTable(n: nat, current: nat)
    ensures var r := Arena(n, current); r.Some? ==> r.value in PRIMES && r.value > current
    ensures Arena(n, current).None? ==>
              forall i :: n <= i < |PRIMES| && PRIMES[i] >= MIN_ARENA_COUNT ==> PRIMES[i] <= current
    decreases |PRIMES| - n
  {
    if n < |PRIMES| { ArenaInTable(n + 1, current); }
  }

  /** Neighbouring counts grow by a factor of at least 11/6. */
  lemma {:induction false} TableGrows(i: nat, j: nat)
    requires i < j < |PRIMES|
    ensures 11 * PRIMES[i] <= 6 * PRIMES[j] + 3 && PRIMES[i] < PRIMES[j]
    decreases j - i
  {
    if j > i + 1 {
      TableGrows(i, j - 1);
      TableGrows(j - 1, j);
    }
  }

  /**
    A bigger count leaves room: twice the number of inserts until the next growth,
    less one, covers every node that a rehash has to move.
   */
  lemma NextCountGrows(c: nat, preallocated: nat)
    requires IsCount(c)
    ensures var r := NextCount(c, preallocated);
      && r > c && IsCount(r)
      && Capacity(r) > Capacity(c)
      && (c > 0 ==> Capacity(c) <= 2 * (Capacity(r) - Capacity(c) - 1))
  {
    NextCountKinds(c, preallocated);
    var r := NextCount(c, preallocated);
    if c in PRIMES && r in PRIMES { TableRatio(c, r); }
  }

  lemma NextCountKinds(c: nat, preallocated: nat)
    requires IsCount(c)
    ensures var r := NextCount(c, preallocated);
      || (r in PRIMES && r > c && (c == 0 || c in PRIMES))
      || (r == 3 * c && c >= 786433)
  {
    EmbeddedInTable(0, c, preallocated);
    ArenaInTable(0, c);
    if Arena(0, c).None? { PastTable(c); }
    if c in PRIMES || c == 0 { InTable(c); }
  }

  /** Beyond the table, the count is at least the last one in it. */
  lemma PastTable(c: nat)
    requires Arena(0, c).None?
    ensures c >= 786433
  {
    ArenaInTable(0, c);
    assert PRIMES[17] == 786433;
  }

  lemma InTable(c: nat)
    requires c in PRIMES || c == 0
    ensures c <= 786433
  {
    if c != 0 {
      var i: nat :| i < |PRIMES| && PRIMES[i] == c;
      if i < 17 { TableGrows(i, 17); }
      assert PRIMES[17] == 786433;
    }
  }

  lemma TableRatio(c: nat, r: nat)
    requires c in PRIMES && r in PRIMES && c < r
    ensures Capacity(c) <= 2 * (Capacity(r) - Capacity(c) - 1)
  {
    var i: nat :| i < |PRIMES| && PRIMES[i] == c;
    var j: nat :| j < |PRIMES| && PRIMES[j] == r;
    if j < i { TableGrows(j, i); }
    TableGrows(i, j);
    AtLeastFive(i);
    RatioLeavesRoom(c, r);
  }

  lemma AtLeastFive(k: nat)
    requires k < |PRIMES|
    ensures PRIMES[k] >= 5
  {
  }

  lemma RatioLeavesRoom(c: nat, r: nat)
    requires 5 <= c && 11 * c <= 6 * r + 3
    ensures Capacity(c) <= 2 * (Capacity(r) - Capacity(c) - 1)
  {
  }
}

/** Runs of the hash table: any sequence of inserts, removes and growths, with any allocation failures. */
module HashmapRuns {
  import opened HashmapModel
  import opened HashmapGrowth

  datatype Op<N> = Insert(n: N, hash: nat, memory: bool) | Remove(n: N, skip: bool) | Grow(memory: bool)

  /** The last three are panics: the two checks of realloc_buckets_, and the size checks of grow. */
  datatype Outcome<N(==)> = Done(t: Table<N>) | NoMemory(t: Table<N>) | PosCheck | RemainCheck | SizeCheck

  predicate Full<N(==)>(h: Table<N>) {
    |h.order| >= Capacity(|h.curr|)
  }

  /** What the caller must see to: an inserted node is not a member, a removed one is. */
  predicate Allowed<N(==)>(h: Table<N>, op: Op<N>) {
    match op
    case Insert(n, _, _) => n !in h.order
    case Remove(n, _) => n in h.order
    case Grow(_) => true
  }

  function GrowTable<N(==)>(h: Table<N>, preallocated: nat, memory: bool): Outcome<N> {
    if |h.order| > Capacity(|h.curr|) then SizeCheck
    else if |h.order| < Capacity(|h.curr|) then Done(h)
    else if h.pos != 0 then PosCheck
    else if h.remain != 0 then RemainCheck
    else if !memory then NoMemory(h)
    else
      var g := Grown(h, NextCount(|h.curr|, preallocated));
      if |g.order| < Capacity(|g.curr|) then Done(g) else SizeCheck
  }

  ghost function InsertNode<N>(h: Table<N>, n: N, hash: nat): Table<N>
    requires !Full(h)
  {
    ProceedRehash(File(h, n, hash), true)
  }

  ghost function RemoveNode<N>(h: Table<N>, n: N, skip: bool): Table<N> {
    var g := Unfile(h, n);
    if skip then g else ProceedRehash(g, false)
  }

  ghost function Apply<N>(h: Table<N>, op: Op<N>, preallocated: nat): Outcome<N> {
    match op
    case Insert(n, hash, memory) =>
      var g := GrowTable(h, preallocated, memory);
      if g.Done? then Done(InsertNode(g.t, n, hash)) else g
    case Remove(n, skip) => Done(RemoveNode(h, n, skip))
    case Grow(memory) => GrowTable(h, preallocated, memory)
  }

  /** Every remaining migration fits into the inserts left before the next growth, at two per insert. */
  predicate Room<N(==)>(h: Table<N>) {
    && |h.order| <= Capacity(|h.curr|)
    && (h.remain == 0 || h.remain <= 2 * (Capacity(|h.curr|) - |h.order| - 1))
  }

  ghost predicate Good<N>(h: Table<N>) {
    Wf(h) && Room(h) && IsCount(|h.curr|)
  }

  lemma GrowKeepsGood<N>(h: Table<N>, preallocated: nat, memory: bool)
    requires Good(h)
    ensures var g := GrowTable(h, preallocated, memory);
      && !g.RemainCheck? && !g.SizeCheck?
      && (g.Done? ==> Good(g.t) && !Full(g.t) && |g.t.curr| > 0 && g.t.order == h.order && g.t.hash == h.hash)
      && (g.NoMemory? ==> g.t == h)
      && (g.PosCheck? <==> Full(h) && h.pos != 0)
  {
    NextCountGrows(|h.curr|, preallocated);
    if Full(h) {
      assert h.remain == 0;
      GrownKeepsWf(h, NextCount(|h.curr|, preallocated));
    }
  }

  /** An insert migrates at most two nodes and keeps everything in order. */
  lemma InsertKeepsGood<N>(h: Table<N>, n: N, hash: nat, r: Table<N>)
    requires Good(h) && !Full(h) && |h.curr| > 0 && n !in h.order && r == InsertNode(h, n, hash)
    ensures Good(r) && r.order == h.order + [n] && r.hash == h.hash[n := hash] && |r.curr| == |h.curr|
    ensures h.remain - 2 <= r.remain <= h.remain
    ensures h.remain < Capacity(|h.curr|) - |h.order| ==> r.remain == Max0(h.remain - 1)
    ensures ScanKept(h, r)
  {
    var g := File(h, n, hash);
    FileKeepsWf(h, n, hash);
    InsertProceeds(h, g, r);
  }

  /** Where the rehash scan is after a step that adds no work: at a node to migrate, or given up with the old table. */
  ghost predicate ScanKept<N>(h: Table<N>, r: Table<N>) {
    && (h.remain == 0 ==> r.remain == 0 && r.pos == h.pos)
    && (h.remain > 0 && r.remain == 0 ==> r.pos == 0)
    && (r.remain > 0 ==> |r.prev| == |h.prev| && h.pos <= r.pos < |r.prev| && r.prev[r.pos] != [])
  }

  lemma InsertProceeds<N>(h: Table<N>, g: Table<N>, r: Table<N>)
    requires Room(h) && !Full(h) && Wf(g)
    requires g.remain == h.remain && g.pos == h.pos && |g.curr| == |h.curr| && |g.prev| == |h.prev|
    requires |g.order| == |h.order| + 1 && r == ProceedRehash(g, true)
    ensures Wf(r) && Room(r) && r.order == g.order && r.hash == g.hash && |r.curr| == |g.curr|
    ensures h.remain - 2 <= r.remain <= h.remain
    ensures h.remain < Capacity(|h.curr|) - |h.order| ==> r.remain == Max0(h.remain - 1)
    ensures ScanKept(h, r)
  {
    Proceeds(g, r, true);
    if g.remain > 0 {
      var k := AtMostTwo(g);
      InsertLeaves(h, g, r, k);
    }
  }

  lemma InsertLeaves<N>(h: Table<N>, g: Table<N>, r: Table<N>, k: nat)
    requires g.remain == h.remain > 0 && g.pos == h.pos && |g.curr| == |h.curr| && |g.prev| == |h.prev|
    requires |g.order| == |h.order| + 1 <= Capacity(|g.curr|) && Rehashed(g, r, k) && 1 <= k <= 2
    requires g.remain <= k || g.remain - k <= 2 * (Capacity(|g.curr|) - |g.order| - 1)
    requires g.remain <= Capacity(|g.curr|) - |g.order| ==> k == 1
    ensures Wf(r) && Room(r) && h.remain - 2 <= r.remain <= h.remain && ScanKept(h, r)
    ensures h.remain < Capacity(|h.curr|) - |h.order| ==> r.remain == Max0(h.remain - 1)
  {
  }

  /** An insert migrates one or two nodes, and what then remains again fits. */
  lemma AtMostTwo<N>(g: Table<N>) returns (k: nat)
    requires |g.order| <= Capacity(|g.curr|) && 0 < g.remain <= 2 * (Capacity(|g.curr|) - |g.order|)
    ensures k == Migrations(g, true) && 1 <= k <= 2
    ensures g.remain <= k || g.remain - k <= 2 * (Capacity(|g.curr|) - |g.order| - 1)
    ensures g.remain <= Capacity(|g.curr|) - |g.order| ==> k == 1
  {
    var room := Capacity(|g.curr|) - |g.order|;
    CeilHalf(g.remain, room);
    k := (g.remain + room - 1) / room;
  }

  lemma Proceeds<N>(g: Table<N>, r: Table<N>, inInsert: bool)
    requires Wf(g) && |g.order| <= Capacity(|g.curr|) && r == ProceedRehash(g, inInsert)
    ensures g.remain == 0 ==> r == g
    ensures g.remain > 0 ==> Rehashed(g, r, Migrations(g, inInsert))
  {
    if g.remain > 0 {
      PosInside(g);
      RehashLoopFacts(g, r, Migrations(g, inInsert));
    }
  }

  lemma CeilHalf(remain: nat, room: nat)
    requires 0 < remain <= 2 * room
    ensures room > 0
    ensures var k := (remain + room - 1) / room;
      && 1 <= k <= 2 && (remain - k <= 0 || remain - k <= 2 * (room - 1))
      && (remain <= room ==> k == 1)
  {
    if remain <= room {
      assert (remain + room - 1) / room == 1 by { DivIs(remain + room - 1, room, 1); }
    } else {
      assert (remain + room - 1) / room == 2 by { DivIs(remain + room - 1, room, 2); }
    }
  }

  lemma DivIs(a: nat, b: nat, q: nat)
    requires b > 0 && q * b <= a < q * b + b
    ensures a / b == q
  {
    var r := a / b;
    assert a == r * b + a % b;
    var d: int := r - q;
    assert d * b == r * b - q * b;
    assert d >= 1 ==> d * b >= b;
    assert d <= -1 ==> d * b <= -1 * b;
  }

  /** A remove migrates at most one node besides the one it takes out. */
  lemma RemoveKeepsGood<N>(h: Table<N>, n: N, skip: bool, r: Table<N>)
    requires Good(h) && n in h.order && r == RemoveNode(h, n, skip)
    ensures Good(r) && r.order == Without(h.order, n) && r.hash == h.hash - {n} && |r.curr| == |h.curr|
    ensures |r.order| == |h.order| - 1
    ensures r.remain == Max0(h.remain - (if n in Flat(h.prev) then 1 else 0) - (if skip then 0 else 1))
    ensures r.remain > 0 ==> r.pos >= h.pos && |r.prev| == |h.prev|
    ensures r.remain == 0 ==> r.pos == if h.remain == 0 || TakesLast(h, n) then h.pos else 0
  {
    var g := Unfile(h, n);
    UnfileKeepsWf(h, n);
    RemoveProceeds(h, g, r, n in Flat(h.prev), skip);
  }

  /** Removing `n` takes out the last node that waits for migration. */
  ghost predicate TakesLast<N>(h: Table<N>, n: N) {
    h.remain == 1 && n in Flat(h.prev)
  }

  lemma RemoveProceeds<N>(h: Table<N>, g: Table<N>, r: Table<N>, wasOld: bool, skip: bool)
    requires Room(h) && Wf(g) && |h.order| > 0
    requires g.remain == (if wasOld then h.remain - 1 else h.remain)
    requires g.pos == h.pos && |g.curr| == |h.curr| && |g.prev| == |h.prev| && |g.order| == |h.order| - 1
    requires r == if skip then g else ProceedRehash(g, false)
    ensures Wf(r) && Room(r) && r.order == g.order && r.hash == g.hash && |r.curr| == |g.curr|
    ensures r.remain == Max0(h.remain - (if wasOld then 1 else 0) - (if skip then 0 else 1))
    ensures r.remain > 0 ==> r.pos >= h.pos && |r.prev| == |h.prev|
    ensures r.remain == 0 ==> r.pos == if h.remain == 0 || (h.remain == 1 && wasOld) then h.pos else 0
  {
    if !skip {
      Proceeds(g, r, false);
      if g.remain > 0 { RoomAfter(h, g, r); }
    }
  }

  /** A remove leaves at least as much room as there was. */
  lemma RoomAfter<N>(h: Table<N>, g: Table<N>, r: Table<N>)
    requires Room(h) && g.remain <= h.remain && |g.curr| == |h.curr| && |g.order| + 1 == |h.order| && Rehashed(g, r, 1)
    ensures Room(r)
  {
  }

  // ----- runs

  ghost predicate StepTo<N>(h: Table<N>, op: Op<N>, h': Table<N>, preallocated: nat) {
    Allowed(h, op) && (Apply(h, op, preallocated) == Done(h') || Apply(h, op, preallocated) == NoMemory(h'))
  }

  /** A run without a panic. */
  ghost predicate IsRun<N>(run: seq<Table<N>>, ops: seq<Op<N>>, preallocated: nat) {
    && |run| == |ops| + 1
    && run[0] == Empty()
    && forall i {:trigger ops[i]} :: 0 <= i < |ops| ==> StepTo(run[i], ops[i], run[i + 1], preallocated)
  }

  lemma EmptyIsGood<N>()
    ensures Good(Empty<N>())
  {
    AllEmpty<N>([]);
  }

  lemma StepKeepsGood<N>(h: Table<N>, op: Op<N>, h': Table<N>, preallocated: nat)
    requires Good(h) && StepTo(h, op, h', preallocated)
    ensures Good(h')
  {
    match op
    case Insert(n, hash, memory) =>
      GrowKeepsGood(h, preallocated, memory);
      var g := GrowTable(h, preallocated, memory);
      if g.Done? { InsertKeepsGood(g.t, n, hash, h'); }
    case Remove(n, skip) => RemoveKeepsGood(h, n, skip, h');
    case Grow(memory) => GrowKeepsGood(h, preallocated, memory);
  }

  lemma StepAt<N>(run: seq<Table<N>>, ops: seq<Op<N>>, preallocated: nat, i: nat)
    returns (h: Table<N>, op: Op<N>, h': Table<N>)
    requires IsRun(run, ops, preallocated) && i < |ops|
    ensures h == run[i] && op == ops[i] && h' == run[i + 1] && StepTo(h, op, h', preallocated)
  {
    h, op, h' := run[i], ops[i], run[i + 1];
  }

  lemma {:induction false} AlwaysGood<N>(run: seq<Table<N>>, ops: seq<Op<N>>, preallocated: nat, i: nat)
    requires IsRun(run, ops, preallocated) && i < |run|
    ensures Good(run[i])
  {
    if i == 0 {
      EmptyIsGood<N>();
    } else {
      AlwaysGood(run, ops, preallocated, i - 1);
      var h, op, h' := StepAt(run, ops, preallocated, i - 1);
      StepKeepsGood(h, op, h', preallocated);
    }
  }

  /** What an operation does to the insertion-ordered map that the table implements. */
  function Replay<N(==)>(order: seq<N>, op: Op<N>): seq<N> {
    match op
    case Insert(n, _, _) => order + [n]
    case Remove(n, _) => Without(order, n)
    case Grow(_) => order
  }

  /**
    Refinement: at every stage of every run, each operation does to the list of
    members what it does to an insertion-ordered map, or, without memory,
    nothing at all; migration is invisible.
   */
  lemma RunRefinesOrderedMap<N>(run: seq<Table<N>>, ops: seq<Op<N>>, preallocated: nat, i: nat)
    requires IsRun(run, ops, preallocated) && i < |ops|
    ensures || run[i + 1].order == Replay(run[i].order, ops[i])
            || (Apply(run[i], ops[i], preallocated).NoMemory? && run[i + 1] == run[i])
  {
    AlwaysGood(run, ops, preallocated, i);
    var h, op, h' := StepAt(run, ops, preallocated, i);
    match op
    case Insert(n, hash, memory) =>
      GrowKeepsGood(h, preallocated, memory);
      var g := GrowTable(h, preallocated, memory);
      if g.Done? { InsertKeepsGood(g.t, n, hash, h'); }
    case Remove(n, skip) => RemoveKeepsGood(h, n, skip, h');
    case Grow(memory) => GrowKeepsGood(h, preallocated, memory);
  }

  /** In no run does a growth find nodes that still wait for migration. */
  lemma RehashEndsBeforeGrowth<N>(run: seq<Table<N>>, ops: seq<Op<N>>, preallocated: nat, i: nat, op: Op<N>)
    requires IsRun(run, ops, preallocated) && i < |run|
    ensures |run[i].order| == Capacity(|run[i].curr|) ==> run[i].remain == 0
    ensures !Apply(run[i], op, preallocated).RemainCheck? && !Apply(run[i], op, preallocated).SizeCheck?
  {
    AlwaysGood(run, ops, preallocated, i);
    if op.Insert? || op.Grow? { GrowKeepsGood(run[i], preallocated, op.memory); }
  }

  // ----- the check on the scan position

  /** No node waits for migration, yet the scan position was not reset. */
  predicate Stale<N(==)>(h: Table<N>) {
    h.remain == 0 && h.pos != 0
  }

  /** A remove that takes out the last node waiting for migration, away from the first bucket. */
  ghost predicate Orphans<N>(h: Table<N>, op: Op<N>) {
    op.Remove? && TakesLast(h, op.n) && h.pos != 0
  }

  lemma StaleStep<N>(h: Table<N>, op: Op<N>, h': Table<N>, preallocated: nat)
    requires Good(h) && StepTo(h, op, h', preallocated)
    ensures Stale(h') <==> Stale(h) || Orphans(h, op)
  {
    match op
    case Insert(n, hash, memory) => StaleInsert(h, n, hash, memory, h', preallocated);
    case Remove(n, skip) => StaleRemove(h, n, skip, h');
    case Grow(memory) => StaleGrow(h, memory, h', preallocated);
  }

  lemma StaleRemove<N>(h: Table<N>, n: N, skip: bool, h': Table<N>)
    requires Good(h) && n in h.order && h' == RemoveNode(h, n, skip)
    ensures Stale(h') <==> Stale(h) || (TakesLast(h, n) && h.pos != 0)
  {
    RemoveKeepsGood(h, n, skip, h');
    if h.remain == 0 { NoneWaiting(h, n); }
  }

  lemma StaleGrow<N>(h: Table<N>, memory: bool, h': Table<N>, preallocated: nat)
    requires Good(h) && StepTo(h, Grow(memory), h', preallocated)
    ensures Stale(h') <==> Stale(h)
  {
    GrowKeepsGood(h, preallocated, memory);
  }

  lemma StaleInsert<N>(h: Table<N>, n: N, hash: nat, memory: bool, h': Table<N>, preallocated: nat)
    requires Good(h) && StepTo(h, Insert(n, hash, memory), h', preallocated)
    ensures Stale(h') <==> Stale(h)
  {
    var g := GrowTable(h, preallocated, memory);
    if g.Done? {
      StaleGrowth(h, preallocated, memory, g.t);
      StaleFiling(g.t, n, hash, h');
    }
  }

  /** A growth finds the scan at its start, and leaves it there. */
  lemma StaleGrowth<N>(h: Table<N>, preallocated: nat, memory: bool, g: Table<N>)
    requires Good(h) && GrowTable(h, preallocated, memory) == Done(g)
    ensures Good(g) && !Full(g) && |g.curr| > 0 && g.order == h.order && (Stale(g) <==> Stale(h))
  {
    GrowKeepsGood(h, preallocated, memory);
  }

  /** Inserting a node does not orphan the scan position, nor end that. */
  lemma StaleFiling<N>(g: Table<N>, n: N, hash: nat, r: Table<N>)
    requires Good(g) && !Full(g) && |g.curr| > 0 && n !in g.order && r == InsertNode(g, n, hash)
    ensures Stale(r) <==> Stale(g)
  {
    InsertKeepsGood(g, n, hash, r);
  }

  lemma NoneWaiting<N>(h: Table<N>, n: N)
    requires Wf(h) && h.remain == 0
    ensures n !in Flat(h.prev)
  {
  }

  lemma {:induction false} StaleExactlyAfterOrphaning<N>(
      run: seq<Table<N>>, ops: seq<Op<N>>, preallocated: nat, i: nat)
    requires IsRun(run, ops, preallocated) && i < |run|
    ensures Stale(run[i]) <==> SomeOrphaning(run, ops, i)
  {
    if i > 0 {
      StaleExactlyAfterOrphaning(run, ops, preallocated, i - 1);
      StaleStepAt(run, ops, preallocated, i - 1);
      SomeOrphaningStep(run, ops, i - 1);
    }
  }

  /** One of the first `i` operations orphans the scan position. */
  ghost predicate SomeOrphaning<N>(run: seq<Table<N>>, ops: seq<Op<N>>, i: nat)
    requires i <= |ops| <= |run|
  {
    exists k :: 0 <= k < i && Orphans(run[k], ops[k])
  }

  lemma SomeOrphaningStep<N>(run: seq<Table<N>>, ops: seq<Op<N>>, i: nat)
    requires i < |ops| <= |run|
    ensures SomeOrphaning(run, ops, i + 1) <==> SomeOrphaning(run, ops, i) || Orphans(run[i], ops[i])
  {
  }

  lemma StaleStepAt<N>(run: seq<Table<N>>, ops: seq<Op<N>>, preallocated: nat, i: nat)
    requires IsRun(run, ops, preallocated) && i < |ops|
    ensures Stale(run[i + 1]) <==> Stale(run[i]) || Orphans(run[i], ops[i])
  {
    AlwaysGood(run, ops, preallocated, i);
    var h, op, h' := StepAt(run, ops, preallocated, i);
    StaleStep(h, op, h', preallocated);
  }

  /**
    The check that the scan position is zero at a growth fails if and only if
    some earlier remove of the run took out the last node waiting for migration
    while the scan had left the first bucket.
   */
  lemma PosCheckFailsExactlyAfterOrphaning<N>(
      run: seq<Table<N>>, ops: seq<Op<N>>, preallocated: nat, op: Op<N>)
    requires IsRun(run, ops, preallocated) && (op.Insert? || op.Grow?)
    ensures var h := run[|ops|];
      Apply(h, op, preallocated).PosCheck? <==>
        |h.order| == Capacity(|h.curr|) && SomeOrphaning(run, ops, |ops|)
  {
    var h := run[|ops|];
    AlwaysGood(run, ops, preallocated, |ops|);
    GrowKeepsGood(h, preallocated, op.memory);
    StaleExactlyAfterOrphaning(run, ops, preallocated, |ops|);
  }
}

/** A run, with public operations only, whose last insert trips the check on the scan position. */
module HashmapStaleScan {
  import opened HashmapModel
  import opened HashmapGrowth
  import opened HashmapRuns

  const EMBEDDED: nat := 5

  /** `h` is the end of some run. */
  ghost predicate Reachable(h: Table<nat>) {
    exists run: seq<Table<nat>>, ops :: IsRun(run, ops, EMBEDDED) && run[|ops|] == h
  }

  lemma ReachableIsGood(h: Table<nat>)
    requires Reachable(h)
    ensures Good(h)
  {
    var run: seq<Table<nat>>, ops :| IsRun(run, ops, EMBEDDED) && run[|ops|] == h;
    AlwaysGood(run, ops, EMBEDDED, |ops|);
  }

  lemma Extend(h: Table<nat>, op: Op<nat>, h': Table<nat>)
    requires Reachable(h) && StepTo(h, op, h', EMBEDDED)
    ensures Reachable(h')
  {
    var run: seq<Table<nat>>, ops :| IsRun(run, ops, EMBEDDED) && run[|ops|] == h;
    var run', ops' := run + [h'], ops + [op];
    forall i | 0 <= i < |ops'| ensures StepTo(run'[i], ops'[i], run'[i + 1], EMBEDDED) {
      if i < |ops| { assert ops[i] == ops'[i]; }
    }
    assert IsRun(run', ops', EMBEDDED) && run'[|ops'|] == h';
  }

  /** All members are below `b` and hash to 1. */
  predicate Simple(h: Table<nat>, b: nat) {
    forall n :: n in h.order ==> n < b && n in h.hash && h.hash[n] == 1
  }

  lemma SimpleInsert(h: Table<nat>, b: nat, h': Table<nat>)
    requires Simple(h, b) && h'.order == h.order + [b] && h'.hash == h.hash[b := 1]
    ensures Simple(h', b + 1)
  {
  }

  lemma InsertSteps(h: Table<nat>, b: nat, h': Table<nat>)
    requires !Full(h) && b !in h.order && h' == InsertNode(h, b, 1)
    ensures StepTo(h, Insert(b, 1, true), h', EMBEDDED)
  {
  }

  /** One more insert into a table that is not full. */
  lemma InsertOne(h: Table<nat>, b: nat) returns (h': Table<nat>)
    requires Reachable(h) && Simple(h, b) && !Full(h)
    ensures Reachable(h') && Simple(h', b + 1) && ScanKept(h, h')
    ensures |h'.order| == |h.order| + 1 && |h'.curr| == |h.curr|
  {
    h' := InsertNode(h, b, 1);
    ReachableIsGood(h);
    InsertSteps(h, b, h');
    InsertKeepsGood(h, b, 1, h');
    SimpleInsert(h, b, h');
    Extend(h, Insert(b, 1, true), h');
  }

  /** Inserts until the table holds `size` members. */
  lemma {:induction false} Fill(h: Table<nat>, b: nat, size: nat) returns (h': Table<nat>, b': nat)
    requires Reachable(h) && Simple(h, b) && h.remain == 0 && |h.order| <= size <= Capacity(|h.curr|)
    ensures Reachable(h') && Simple(h', b') && h'.remain == 0
    ensures |h'.order| == size && |h'.curr| == |h.curr| && h'.pos == h.pos
    decreases size - |h.order|
  {
    h', b' := h, b;
    if |h.order| < size {
      h' := InsertOne(h, b);
      h', b' := Fill(h', b + 1, size);
    }
  }

  lemma GrowSteps(h: Table<nat>, b: nat, count: nat, g: Table<nat>, h': Table<nat>)
    requires h.remain == 0 && h.pos == 0 && |h.order| == Capacity(|h.curr|)
    requires count == NextCount(|h.curr|, EMBEDDED) && |h.order| < Capacity(count)
    requires g == Grown(h, count) && b !in h.order && h' == InsertNode(g, b, 1)
    ensures GrowTable(h, EMBEDDED, true) == Done(g)
    ensures StepTo(h, Insert(b, 1, true), h', EMBEDDED)
  {
  }

  /** A full table grows and takes one more member. */
  lemma GrowAndInsert(h: Table<nat>, b: nat, count: nat) returns (h': Table<nat>)
    requires Reachable(h) && Simple(h, b)
    requires h.remain == 0 && h.pos == 0 && |h.order| == Capacity(|h.curr|)
    requires count == NextCount(|h.curr|, EMBEDDED) && 2 * |h.order| < Capacity(count)
    ensures Reachable(h') && Simple(h', b + 1)
    ensures |h'.curr| == count && |h'.order| == |h.order| + 1
    ensures h'.remain == if |h.curr| == 0 then 0 else Max0(|h.order| - 1)
    ensures h'.remain == 0 ==> h'.pos == 0
    ensures h'.remain > 0 ==> |h'.prev| == |h.curr| && h'.pos < |h'.prev| && h'.prev[h'.pos] != []
  {
    var g := Grown(h, count);
    h' := InsertNode(g, b, 1);
    GrowSteps(h, b, count, g, h');
    Extend(h, Insert(b, 1, true), h');
    ReachableIsGood(h);
    GrowFacts(h, b, count, g, h');
    SimpleInsert(h, b, h');
  }

  lemma GrowFacts(h: Table<nat>, b: nat, count: nat, g: Table<nat>, h': Table<nat>)
    requires Good(h) && b !in h.order && h.remain == 0 && h.pos == 0
    requires GrowTable(h, EMBEDDED, true) == Done(g) && g == Grown(h, count) && count > 0
    requires 2 * |h.order| < Capacity(count) && !Full(g) && h' == InsertNode(g, b, 1)
    ensures h'.order == h.order + [b] && h'.hash == h.hash[b := 1] && |h'.curr| == count
    ensures h'.remain == if |h.curr| == 0 then 0 else Max0(|h.order| - 1)
    ensures h'.remain == 0 ==> h'.pos == 0
    ensures h'.remain > 0 ==> |h'.prev| == |h.curr| && h'.pos < |h'.prev| && h'.prev[h'.pos] != []
  {
    GrowKeepsGood(h, EMBEDDED, true);
    InsertKeepsGood(g, b, 1, h');
  }

  /** With every hash 1 and five old buckets, the scan stands at bucket 1. */
  lemma ScanAtOne(h: Table<nat>, b: nat)
    requires Reachable(h) && Simple(h, b) && h.remain > 0
    requires |h.prev| == 5 && h.pos < |h.prev| && h.prev[h.pos] != []
    ensures h.pos == 1
  {
    ReachableIsGood(h);
    var n := h.prev[h.pos][0];
    InFlat(h.prev, h.pos, n);
    assert n in Set(h.order);
    assert BucketOk(h.prev[h.pos], h.pos, |h.prev|, h.hash);
  }

  /** Removing waiting nodes, an odd number of them, leaves the scan position behind. */
  lemma {:induction false} Drain(h: Table<nat>, b: nat) returns (h': Table<nat>)
    requires Reachable(h) && Simple(h, b) && h.remain % 2 == 1 && h.pos != 0
    ensures Reachable(h') && Simple(h', b) && Stale(h')
    ensures |h'.curr| == |h.curr| && |h'.order| <= |h.order|
    decreases h.remain
  {
    h' := RemoveWaiting(h, b);
    if h.remain > 1 {
      h' := Drain(h', b);
    }
  }

  lemma RemoveWaiting(h: Table<nat>, b: nat) returns (h': Table<nat>)
    requires Reachable(h) && Simple(h, b) && h.remain > 0 && h.remain != 2 && h.pos != 0
    ensures Reachable(h') && Simple(h', b) && |h'.curr| == |h.curr| && |h'.order| <= |h.order|
    ensures h'.remain == Max0(h.remain - 2) && h'.pos != 0
  {
    var n := Waiting(h);
    h' := RemoveReaches(h, n);
    RemoveShape(h, b, n, h');
  }

  lemma RemoveReaches(h: Table<nat>, n: nat) returns (h': Table<nat>)
    requires Reachable(h) && n in h.order
    ensures h' == RemoveNode(h, n, false) && Reachable(h')
  {
    h' := RemoveNode(h, n, false);
    RemoveSteps(h, n, h');
    Extend(h, Remove(n, false), h');
  }

  lemma RemoveShape(h: Table<nat>, b: nat, n: nat, h': Table<nat>)
    requires Reachable(h) && Simple(h, b) && h.remain > 0 && h.remain != 2 && h.pos != 0
    requires n in Flat(h.prev) && n in h.order && h' == RemoveNode(h, n, false)
    ensures Simple(h', b) && |h'.curr| == |h.curr| && |h'.order| <= |h.order|
    ensures h'.remain == Max0(h.remain - 2) && h'.pos != 0
  {
    ReachableIsGood(h);
    RemoveKeepsGood(h, n, false, h');
    SimpleRemove(h, b, n, h');
  }

  lemma SimpleRemove(h: Table<nat>, b: nat, n: nat, h': Table<nat>)
    requires Simple(h, b) && h'.order == Without(h.order, n) && h'.hash == h.hash - {n}
    ensures Simple(h', b)
  {
  }

  lemma RemoveSteps(h: Table<nat>, n: nat, h': Table<nat>)
    requires n in h.order && h' == RemoveNode(h, n, false)
    ensures StepTo(h, Remove(n, false), h', EMBEDDED)
  {
  }

  lemma Waiting(h: Table<nat>) returns (n: nat)
    requires Reachable(h) && h.remain > 0
    ensures n in Flat(h.prev) && n in h.order
  {
    ReachableIsGood(h);
    n :| n in Flat(h.prev);
    assert n in Set(h.order);
  }

  lemma EmptyReachable()
    ensures Reachable(Empty())
  {
    var run: seq<Table<nat>>, ops: seq<Op<nat>> := [Empty()], [];
    assert IsRun(run, ops, EMBEDDED) && run[|ops|] == Empty();
  }

  /** From the empty table, inserts and removes can lead to an insert that trips the check. */
  lemma PosCheckCanFail() returns (h: Table<nat>, op: Op<nat>)
    ensures Reachable(h) && op.Insert? && Allowed(h, op) && Apply(h, op, EMBEDDED).PosCheck?
  {
    EmptyReachable();
    assert NextCount(0, EMBEDDED) == 5;
    h := GrowAndInsert(Empty(), 0, 5);
    var b: nat;
    h, b := Fill(h, 1, 32);
    SecondCount();
    h := GrowAndInsert(h, b, 23);
    ScanAtOne(h, b + 1);
    h := Drain(h, b + 1);
    h, b := Fill(h, b + 1, 149);
    op := Insert(b, 1, true);
    assert b !in h.order;
  }

  lemma SecondCount()
    ensures NextCount(5, EMBEDDED) == 23
  {
    assert PRIMES[0] == 5 && PRIMES[1] == 11 && PRIMES[2] == 23;
    assert Arena(2, 5).Some? && Arena(2, 5).value == 23;
    assert Arena(1, 5) == Arena(2, 5);
    assert Arena(0, 5) == Arena(1, 5);
    assert !(5 < EMBEDDED);
  }
}
