/**
  The hash table of roc_core as a value: two bucket tables, the insertion
  order, and the counters of the incremental rehash.  The functions do what the
  table's operations do to that value; the class in HashmapImpl does the same
  to linked rings of nodes.
 */
module HashmapModel {

  // ----- buckets as sequences

  function Set<N>(s: seq<N>): set<N> {
    set n | n in s
  }

  ghost predicate NoDup<N>(s: seq<N>) {
    forall i, j :: 0 <= i < j < |s| ==> s[i] != s[j]
  }

  /** `s` without `n`. */
  function Without<N(==)>(s: seq<N>, n: N): (r: seq<N>)
    ensures forall x :: x in r ==> x in s && x != n
    ensures forall x :: x in s && x != n ==> x in r
    ensures NoDup(s) ==> NoDup(r)
    ensures n !in s ==> r == s
    ensures |r| <= |s|
  {
    if s == [] then []
    else if s[|s| - 1] == n then Without(s[..|s| - 1], n)
    else
      var r := Without(s[..|s| - 1], n);
      assert NoDup(s) ==> s[|s| - 1] !in s[..|s| - 1];
      r + [s[|s| - 1]]
  }

  /** Every node of a table. */
  ghost function Flat<N>(t: seq<seq<N>>): set<N> {
    set i, n | 0 <= i < |t| && n in t[i] :: n
  }

  function Drop<N(==)>(t: seq<seq<N>>, n: N): (r: seq<seq<N>>)
    ensures |r| == |t|
    ensures forall i :: 0 <= i < |t| ==> r[i] == Without(t[i], n)
  {
    seq(|t|, i requires 0 <= i < |t| => Without(t[i], n))
  }

  /** Each bucket holds distinct nodes, and only nodes whose hash selects it. */
  ghost predicate Placed<N>(t: seq<seq<N>>, hash: map<N, nat>) {
    forall i {:trigger t[i]} :: 0 <= i < |t| ==> BucketOk(t[i], i, |t|, hash)
  }

  ghost predicate BucketOk<N>(b: seq<N>, i: nat, count: nat, hash: map<N, nat>)
    requires count > 0
  {
    NoDup(b) && forall n :: n in b ==> n in hash && hash[n] % count == i
  }

  // ----- the table

  /** `pos` and `remain` are `rehash_pos_` and `rehash_remain_nodes_`; `prev` is empty when `n_prev_buckets_` is 0. */
  datatype Table<N(==)> = Table(
    curr: seq<seq<N>>,
    prev: seq<seq<N>>,
    order: seq<N>,
    hash: map<N, nat>,
    pos: nat,
    remain: nat)

  /** buckets_capacity_, with the load factor 13/2. */
  function Capacity(count: nat): nat {
    count * 13 / 2
  }

  function Empty<N(==)>(): Table<N> {
    Table([], [], [], map[], 0, 0)
  }

  function BucketInsert<N(==)>(h: Table<N>, n: N): Table<N>
    requires |h.curr| > 0 && n in h.hash
  {
    var i := h.hash[n] % |h.curr|;
    h.(curr := h.curr[i := h.curr[i] + [n]])
  }

  ghost function BucketRemove<N>(h: Table<N>, n: N): Table<N> {
    h.(curr := Drop(h.curr, n), prev := Drop(h.prev, n),
       remain := if n in Flat(h.prev) && h.remain > 0 then h.remain - 1 else h.remain)
  }

  ghost function Migrate<N>(h: Table<N>, n: N): Table<N>
    requires |h.curr| > 0 && n in h.hash
  {
    BucketInsert(BucketRemove(h, n), n)
  }

  /** The node at the scan position moves to the current table, if it has a bucket to go to. */
  ghost function MigrateFront<N>(h: Table<N>): Table<N> {
    if h.pos < |h.prev| && h.prev[h.pos] != [] && h.curr != [] && h.prev[h.pos][0] in h.hash
    then Migrate(h, h.prev[h.pos][0])
    else h
  }

  /** The scan of the old table with `k` migrations left to do, for any way to migrate. */
  ghost function Scan<N>(migrate: Table<N> -> Table<N>, h: Table<N>, k: nat): Table<N>
    decreases k, Max0(|h.prev| - h.pos)
  {
    if h.pos >= |h.prev| then h
    else if h.prev[h.pos] == [] then
      if h.pos + 1 == |h.prev| then h.(pos := 0, prev := [])
      else Scan(migrate, h.(pos := h.pos + 1), k)
    else if k == 0 then h
    else Scan(migrate, migrate(h), k - 1)
  }

  /**
    proceed_rehash_'s loop, with `k` migrations left to do.  The loop's checks
    that the scan position is inside the old table and that a node to migrate
    has a bucket to go to never fail in a well-formed table.
   */
  ghost function RehashLoop<N>(h: Table<N>, k: nat): Table<N> {
    Scan(MigrateFront, h, k)
  }

  function Max0(x: int): nat {
    if x < 0 then 0 else x
  }

  /** How many nodes proceed_rehash_ sets out to migrate. */
  function Migrations<N(==)>(h: Table<N>, inInsert: bool): nat
    requires inInsert ==> |h.order| <= Capacity(|h.curr|)
  {
    if !inInsert then 1
    else
      var room := Capacity(|h.curr|) - |h.order|;
      if room == 0 then h.remain else (h.remain + room - 1) / room
  }

  // ----- what every operation keeps

  ghost predicate Wf<N>(h: Table<N>) {
    && NoDup(h.order)
    && Placed(h.curr, h.hash) && Placed(h.prev, h.hash)
    && Flat(h.curr) !! Flat(h.prev)
    && Flat(h.curr) + Flat(h.prev) == Set(h.order)
    && h.remain == |Flat(h.prev)|
    && (forall i :: 0 <= i < h.pos && i < |h.prev| ==> h.prev[i] == [])
    && (|h.curr| == 0 ==> h.order == [])
    && h.hash.Keys == Set(h.order)
  }

  lemma InFlat<N>(t: seq<seq<N>>, i: nat, n: N)
    requires i < |t| && n in t[i]
    ensures n in Flat(t)
  {
  }

  lemma FlatIndex<N>(t: seq<seq<N>>, n: N) returns (i: nat)
    requires n in Flat(t)
    ensures i < |t| && n in t[i]
  {
    i :| 0 <= i < |t| && n in t[i];
  }

  lemma DropFlat<N>(t: seq<seq<N>>, n: N)
    ensures Flat(Drop(t, n)) == Flat(t) - {n}
  {
    var r := Drop(t, n);
    forall x | x in Flat(t) && x != n ensures x in Flat(r) {
      var i :| 0 <= i < |t| && x in t[i];
      assert x in r[i];
    }
  }

  lemma DropPlaced<N>(t: seq<seq<N>>, n: N, hash: map<N, nat>)
    requires Placed(t, hash)
    ensures Placed(Drop(t, n), hash)
  {
    var r := Drop(t, n);
    forall i | 0 <= i < |r| ensures BucketOk(r[i], i, |r|, hash) {
      assert BucketOk(t[i], i, |t|, hash);
    }
  }

  lemma AddFlat<N>(t: seq<seq<N>>, i: nat, n: N)
    requires i < |t|
    ensures Flat(t[i := t[i] + [n]]) == Flat(t) + {n}
  {
    var r := t[i := t[i] + [n]];
    assert n in r[i];
    forall x | x in Flat(t) ensures x in Flat(r) {
      var j :| 0 <= j < |t| && x in t[j];
      assert x in r[j];
    }
  }

  lemma AddPlaced<N>(t: seq<seq<N>>, n: N, hash: map<N, nat>)
    requires Placed(t, hash) && |t| > 0 && n in hash && n !in Flat(t)
    ensures var i := hash[n] % |t|; Placed(t[i := t[i] + [n]], hash)
  {
    var k := hash[n] % |t|;
    var r := t[k := t[k] + [n]];
    assert n !in t[k] by { if n in t[k] { InFlat(t, k, n); } }
    forall i | 0 <= i < |r| ensures BucketOk(r[i], i, |r|, hash) {
      assert BucketOk(t[i], i, |t|, hash);
    }
  }

  lemma PosStep<N>(h: Table<N>)
    requires Wf(h) && h.pos < |h.prev| && h.prev[h.pos] == []
    ensures Wf(h.(pos := h.pos + 1))
  {
  }

  /** Where `n` is, its hash is known. */
  lemma HashKnown<N>(h: Table<N>, n: N)
    requires Wf(h) && n in h.order
    ensures n in h.hash && |h.curr| > 0
  {
    assert n in Set(h.order);
    if n in Flat(h.prev) {
      var i := FlatIndex(h.prev, n);
      assert BucketOk(h.prev[i], i, |h.prev|, h.hash);
    } else {
      var i := FlatIndex(h.curr, n);
      assert BucketOk(h.curr[i], i, |h.curr|, h.hash);
    }
  }

  /** A migration moves one node and keeps everything else. */
  lemma MigrateStep<N>(h: Table<N>, n: N)
    requires Wf(h) && n in Flat(h.prev)
    ensures n in h.hash && |h.curr| > 0 && Wf(Migrate(h, n))
    ensures Flat(Migrate(h, n).prev) == Flat(h.prev) - {n}
    ensures Flat(Migrate(h, n).curr) == Flat(h.curr) + {n}
    ensures Migrate(h, n).remain == h.remain - 1 && Migrate(h, n).pos == h.pos
    ensures Migrate(h, n).order == h.order && Migrate(h, n).hash == h.hash
    ensures |Migrate(h, n).curr| == |h.curr| && |Migrate(h, n).prev| == |h.prev|
  {
    assert n in Set(h.order);
    HashKnown(h, n);
    var g := BucketRemove(h, n);
    DropFlat(h.curr, n);
    DropFlat(h.prev, n);
    DropPlaced(h.curr, n, h.hash);
    DropPlaced(h.prev, n, h.hash);
    Refile(g, n);
    Moved(h, BucketInsert(g, n), n);
  }

  lemma Moved<N>(h: Table<N>, m: Table<N>, n: N)
    requires Wf(h) && n in Flat(h.prev)
    requires m.order == h.order && m.hash == h.hash && m.pos == h.pos && m.prev == Drop(h.prev, n)
    requires Placed(m.curr, m.hash) && Placed(m.prev, m.hash) && |m.curr| == |h.curr|
    requires Flat(m.curr) == Flat(h.curr) - {n} + {n} && Flat(m.prev) == Flat(h.prev) - {n}
    requires m.remain == h.remain - 1
    ensures Wf(m) && Flat(m.curr) == Flat(h.curr) + {n}
  {
    MovedSets(Flat(h.curr), Flat(h.prev), n);
    forall i | 0 <= i < m.pos && i < |m.prev| ensures m.prev[i] == [] {
      assert h.prev[i] == [];
    }
  }

  lemma MovedSets<N>(a: set<N>, b: set<N>, n: N)
    requires a !! b && n in b
    ensures a - {n} + {n} == a + {n} && (a + {n}) !! (b - {n})
    ensures (a + {n}) + (b - {n}) == a + b
    ensures |b - {n}| == |b| - 1
  {
  }

  /** Filing a node in the current table, once it is in no bucket. */
  lemma Refile<N>(g: Table<N>, n: N)
    requires Placed(g.curr, g.hash) && n in g.hash && |g.curr| > 0 && n !in Flat(g.curr)
    ensures Placed(BucketInsert(g, n).curr, g.hash)
    ensures Flat(BucketInsert(g, n).curr) == Flat(g.curr) + {n}
  {
    AddPlaced(g.curr, n, g.hash);
    AddFlat(g.curr, g.hash[n] % |g.curr|, n);
  }

  /** The node count in a table whose buckets are all empty. */
  lemma AllEmpty<N>(t: seq<seq<N>>)
    requires forall i :: 0 <= i < |t| ==> t[i] == []
    ensures Flat(t) == {}
  {
  }

  /** While nodes remain, the scan position is inside the old table: the check at the loop's top holds. */
  lemma PosInside<N>(h: Table<N>)
    requires Wf(h) && h.remain > 0
    ensures h.pos < |h.prev|
  {
    if h.pos >= |h.prev| { AllEmpty(h.prev); }
  }

  /** At the end of the old table no node remains: the loop's final check holds. */
  lemma EndIsEmpty<N>(h: Table<N>)
    requires Wf(h) && h.pos + 1 == |h.prev| && h.prev[h.pos] == []
    ensures Flat(h.prev) == {} && h.remain == 0
    ensures Wf(h.(pos := 0, prev := []))
  {
    AllEmpty(h.prev);
    AllEmpty<N>([]);
  }

  /**
    `r` is `h` after at most `k` migrations: all of them if that many nodes
    remained, and then the scan has moved on to the next node to migrate; else
    none remain and the old table is given up.
   */
  ghost predicate Rehashed<N>(h: Table<N>, r: Table<N>, k: nat) {
    && Wf(r) && r.order == h.order && r.hash == h.hash && |r.curr| == |h.curr|
    && r.remain == Max0(h.remain - k)
    && (r.remain == 0 ==> r.prev == [] && r.pos == 0)
    && (r.remain > 0 ==> |r.prev| == |h.prev| && h.pos <= r.pos < |r.prev| && r.prev[r.pos] != [])
  }

  lemma ScanSkips<N>(migrate: Table<N> -> Table<N>, h: Table<N>, k: nat)
    requires h.pos + 1 < |h.prev| && h.prev[h.pos] == []
    ensures Scan(migrate, h, k) == Scan(migrate, h.(pos := h.pos + 1), k)
  {
  }

  lemma ScanMigrates<N>(migrate: Table<N> -> Table<N>, h: Table<N>, m: Table<N>, k: nat, left: nat)
    requires h.pos < |h.prev| && h.prev[h.pos] != [] && left + 1 == k && m == migrate(h)
    ensures Scan(migrate, h, k) == Scan(migrate, m, left)
  {
  }

  lemma ScanStops<N>(migrate: Table<N> -> Table<N>, h: Table<N>, k: nat)
    requires h.pos < |h.prev|
    ensures h.prev[h.pos] == [] && h.pos + 1 == |h.prev| ==> Scan(migrate, h, k) == h.(pos := 0, prev := [])
    ensures h.prev[h.pos] != [] ==> Scan(migrate, h, 0) == h
  {
  }

  lemma LoopSkips<N>(h: Table<N>, k: nat)
    requires h.pos + 1 < |h.prev| && h.prev[h.pos] == []
    ensures RehashLoop(h, k) == RehashLoop(h.(pos := h.pos + 1), k)
  {
    ScanSkips(MigrateFront, h, k);
  }

  lemma LoopMigrates<N>(h: Table<N>, m: Table<N>, k: nat, left: nat)
    requires h.pos < |h.prev| && h.prev[h.pos] != [] && left + 1 == k
    requires h.curr != [] && h.prev[h.pos][0] in h.hash && m == Migrate(h, h.prev[h.pos][0])
    ensures RehashLoop(h, k) == RehashLoop(m, left)
  {
    ScanMigrates(MigrateFront, h, m, k, left);
  }

  lemma LoopStops<N>(h: Table<N>, k: nat)
    requires h.pos < |h.prev|
    ensures h.prev[h.pos] == [] && h.pos + 1 == |h.prev| ==> RehashLoop(h, k) == h.(pos := 0, prev := [])
    ensures h.prev[h.pos] != [] ==> RehashLoop(h, 0) == h
  {
    ScanStops(MigrateFront, h, k);
  }

  lemma {:induction false} RehashLoopFacts<N>(h: Table<N>, r: Table<N>, k: nat)
    requires Wf(h) && h.pos < |h.prev| && r == RehashLoop(h, k)
    ensures Rehashed(h, r, k)
    decreases k + |h.prev| - h.pos
  {
    if h.prev[h.pos] == [] && h.pos + 1 == |h.prev| {
      LoopStops(h, k);
      RehashEnds(h, r, k);
    } else if h.prev[h.pos] != [] && k == 0 {
      LoopStops(h, k);
      RehashPauses(h);
    } else {
      var m, left, done := NextRound(h, r, k);
      RehashLoopFacts(m, r, left);
      RehashedMore(h, m, r, k, done);
    }
  }

  lemma RehashEnds<N>(h: Table<N>, r: Table<N>, k: nat)
    requires Wf(h) && h.pos + 1 == |h.prev| && h.prev[h.pos] == [] && r == h.(pos := 0, prev := [])
    ensures Rehashed(h, r, k)
  {
    EndIsEmpty(h);
  }

  lemma RehashPauses<N>(h: Table<N>)
    requires Wf(h) && h.pos < |h.prev| && h.prev[h.pos] != []
    ensures Rehashed(h, h, 0)
  {
    InFlat(h.prev, h.pos, h.prev[h.pos][0]);
  }

  /** The loop from the state after one round: an empty bucket passed, or a node migrated. */
  lemma NextRound<N>(h: Table<N>, r: Table<N>, k: nat) returns (m: Table<N>, left: nat, done: nat)
    requires Wf(h) && h.pos < |h.prev| && r == RehashLoop(h, k)
    requires (h.prev[h.pos] == [] && h.pos + 1 < |h.prev|) || (h.prev[h.pos] != [] && k != 0)
    ensures Wf(m) && m.order == h.order && m.hash == h.hash && |m.curr| == |h.curr| && |m.prev| == |h.prev|
    ensures h.pos <= m.pos < |m.prev| && m.remain == h.remain - done && left + done == k && r == RehashLoop(m, left)
    ensures left + |m.prev| - m.pos < k + |h.prev| - h.pos
    ensures Flat(m.prev) <= Flat(h.prev)
  {
    if h.prev[h.pos] == [] {
      m, left, done := h.(pos := h.pos + 1), k, 0;
      PosStep(h);
      LoopSkips(h, k);
    } else {
      m, left := NextMigration(h, r, k);
      done := 1;
    }
  }

  /** The loop from the state after one migration. */
  lemma NextMigration<N>(h: Table<N>, r: Table<N>, k: nat) returns (m: Table<N>, left: nat)
    requires Wf(h) && h.pos < |h.prev| && h.prev[h.pos] != [] && k != 0 && r == RehashLoop(h, k)
    ensures Wf(m) && m.order == h.order && m.hash == h.hash && |m.curr| == |h.curr| && |m.prev| == |h.prev|
    ensures m.pos == h.pos && m.remain == h.remain - 1 && left + 1 == k && r == RehashLoop(m, left)
    ensures Flat(m.prev) <= Flat(h.prev)
  {
    m := FirstMigrated(h);
    left := k - 1;
    LoopMigrates(h, m, k, left);
  }

  lemma FirstMigrated<N>(h: Table<N>) returns (m: Table<N>)
    requires Wf(h) && h.pos < |h.prev| && h.prev[h.pos] != []
    ensures h.curr != [] && h.prev[h.pos][0] in h.hash && m == Migrate(h, h.prev[h.pos][0]) && Wf(m)
    ensures m.order == h.order && m.hash == h.hash && |m.curr| == |h.curr| && |m.prev| == |h.prev|
    ensures m.pos == h.pos && m.remain == h.remain - 1 && Flat(m.prev) <= Flat(h.prev)
  {
    var n := h.prev[h.pos][0];
    InFlat(h.prev, h.pos, n);
    MigrateStep(h, n);
    m := Migrate(h, n);
  }

  lemma RehashedMore<N>(h: Table<N>, m: Table<N>, r: Table<N>, k: nat, done: nat)
    requires m.order == h.order && m.hash == h.hash && |m.curr| == |h.curr| && |m.prev| == |h.prev|
    requires h.pos <= m.pos && m.remain == h.remain - done
    requires k >= done && Rehashed(m, r, k - done)
    ensures Rehashed(h, r, k)
  {
  }

  // ----- operations

  /** proceed_rehash_. */
  ghost function ProceedRehash<N>(h: Table<N>, inInsert: bool): Table<N>
    requires inInsert ==> |h.order| <= Capacity(|h.curr|)
  {
    if h.remain == 0 then h else RehashLoop(h, Migrations(h, inInsert))
  }

  /** `n` filed under `hash` in the current table and at the end of the order. */
  ghost function File<N>(h: Table<N>, n: N, hash: nat): Table<N>
    requires |h.curr| > 0
  {
    BucketInsert(h.(hash := h.hash[n := hash]), n).(order := h.order + [n])
  }

  ghost function Unfile<N>(h: Table<N>, n: N): Table<N> {
    BucketRemove(h, n).(order := Without(h.order, n), hash := h.hash - {n})
  }

  /** realloc_buckets_: a table of empty buckets, the old one becoming the source of a rehash. */
  function Grown<N(==)>(h: Table<N>, count: nat): Table<N> {
    var buckets := seq(count, _ => []);
    if h.curr == [] then h.(curr := buckets)
    else h.(curr := buckets, prev := h.curr, pos := 0, remain := |h.order|)
  }

  lemma HashUpdatePlaced<N>(t: seq<seq<N>>, hash: map<N, nat>, n: N, x: nat)
    requires Placed(t, hash) && n !in Flat(t)
    ensures Placed(t, hash[n := x])
  {
    forall i | 0 <= i < |t| ensures BucketOk(t[i], i, |t|, hash[n := x]) {
      assert BucketOk(t[i], i, |t|, hash);
      if n in t[i] { InFlat(t, i, n); }
    }
  }

  lemma HashDropPlaced<N>(t: seq<seq<N>>, hash: map<N, nat>, n: N)
    requires Placed(t, hash) && n !in Flat(t)
    ensures Placed(t, hash - {n})
  {
    forall i | 0 <= i < |t| ensures BucketOk(t[i], i, |t|, hash - {n}) {
      assert BucketOk(t[i], i, |t|, hash);
      if n in t[i] { InFlat(t, i, n); }
    }
  }

  lemma FileKeepsWf<N>(h: Table<N>, n: N, x: nat)
    requires Wf(h) && |h.curr| > 0 && n !in h.order
    ensures Wf(File(h, n, x))
    ensures File(h, n, x).prev == h.prev && |File(h, n, x).curr| == |h.curr|
  {
    var m := File(h, n, x);
    FileFacts(h, n, x, m);
    FilePlaces(h, n, x, m);
    Filed(h, m, n);
  }

  lemma FileFacts<N>(h: Table<N>, n: N, x: nat, m: Table<N>)
    requires |h.curr| > 0 && m == File(h, n, x)
    ensures m.prev == h.prev && m.order == h.order + [n] && m.pos == h.pos && m.remain == h.remain
    ensures |m.curr| == |h.curr|
    ensures m.hash == h.hash[n := x] && m.hash.Keys == h.hash.Keys + {n}
  {
  }

  lemma FilePlaces<N>(h: Table<N>, n: N, x: nat, m: Table<N>)
    requires Wf(h) && |h.curr| > 0 && n !in h.order && m == File(h, n, x)
    ensures Placed(m.curr, m.hash) && Placed(m.prev, m.hash) && Flat(m.curr) == Flat(h.curr) + {n}
  {
    assert n !in Set(h.order);
    HashUpdatePlaced(h.curr, h.hash, n, x);
    HashUpdatePlaced(h.prev, h.hash, n, x);
    Refile(h.(hash := h.hash[n := x]), n);
  }

  lemma Filed<N>(h: Table<N>, m: Table<N>, n: N)
    requires Wf(h) && n !in h.order && |h.curr| > 0
    requires m.prev == h.prev && m.order == h.order + [n] && m.pos == h.pos && m.remain == h.remain
    requires m.hash.Keys == h.hash.Keys + {n}
    requires Placed(m.curr, m.hash) && Placed(m.prev, m.hash) && |m.curr| == |h.curr|
    requires Flat(m.curr) == Flat(h.curr) + {n}
    ensures Wf(m)
  {
    AppendSet(h.order, n);
    FiledSets(Flat(h.curr), Flat(h.prev), n);
  }

  lemma AppendSet<N>(s: seq<N>, n: N)
    requires NoDup(s) && n !in s
    ensures Set(s + [n]) == Set(s) + {n} && n !in Set(s) && NoDup(s + [n])
  {
  }

  lemma FiledSets<N>(a: set<N>, b: set<N>, n: N)
    requires a !! b && n !in a + b
    ensures (a + {n}) !! b && (a + {n}) + b == a + b + {n}
  {
  }

  lemma UnfileKeepsWf<N>(h: Table<N>, n: N)
    requires Wf(h) && n in h.order
    ensures Wf(Unfile(h, n))
    ensures |Unfile(h, n).order| == |h.order| - 1 && |Unfile(h, n).curr| == |h.curr|
    ensures Unfile(h, n).remain == if n in Flat(h.prev) then h.remain - 1 else h.remain
    ensures n in Flat(h.prev) ==> h.remain > 0
  {
    var g := Unfile(h, n);
    DropFlat(h.curr, n);
    DropFlat(h.prev, n);
    DropPlaced(h.curr, n, h.hash);
    DropPlaced(h.prev, n, h.hash);
    HashDropPlaced(g.curr, h.hash, n);
    HashDropPlaced(g.prev, h.hash, n);
    WithoutLength(h.order, n);
    UnfiledSets(Flat(h.curr), Flat(h.prev), n);
    Unfiled(h, g, n);
  }

  lemma Unfiled<N>(h: Table<N>, m: Table<N>, n: N)
    requires Wf(h) && |m.curr| == |h.curr| && m.prev == Drop(h.prev, n) && m.pos == h.pos
    requires m.order == Without(h.order, n) && m.hash == h.hash - {n}
    requires Placed(m.curr, m.hash) && Placed(m.prev, m.hash)
    requires Flat(m.curr) == Flat(h.curr) - {n} && Flat(m.prev) == Flat(h.prev) - {n}
    requires (Flat(h.curr) - {n}) !! (Flat(h.prev) - {n})
    requires (Flat(h.curr) - {n}) + (Flat(h.prev) - {n}) == Flat(h.curr) + Flat(h.prev) - {n}
    requires m.remain == |Flat(h.prev) - {n}|
    ensures Wf(m)
  {
    WithoutSet(h.order, n);
    forall i | 0 <= i < m.pos && i < |m.prev| ensures m.prev[i] == [] {
      assert h.prev[i] == [];
    }
  }

  lemma WithoutSet<N>(s: seq<N>, n: N)
    ensures Set(Without(s, n)) == Set(s) - {n}
  {
  }

  lemma UnfiledSets<N>(a: set<N>, b: set<N>, n: N)
    requires a !! b
    ensures (a - {n}) !! (b - {n}) && (a - {n}) + (b - {n}) == a + b - {n}
    ensures n in b ==> |b| > 0 && |b - {n}| == |b| - 1
    ensures n !in b ==> b - {n} == b
  {
  }

  lemma {:induction false} WithoutLength<N>(s: seq<N>, n: N)
    requires NoDup(s)
    ensures |Without(s, n)| == if n in s then |s| - 1 else |s|
  {
    if s != [] {
      WithoutLength(s[..|s| - 1], n);
    }
  }

  lemma GrownKeepsWf<N>(h: Table<N>, count: nat)
    requires Wf(h) && h.remain == 0 && count > 0
    ensures Wf(Grown(h, count))
  {
    var g := Grown(h, count);
    AllEmpty(g.curr);
    assert Flat(h.prev) == {};
    if h.curr != [] {
      SetSize(h.order);
    }
  }

  lemma {:induction false} SetSize<N>(s: seq<N>)
    requires NoDup(s)
    ensures |Set(s)| == |s|
  {
    if s != [] {
      SetSize(s[..|s| - 1]);
      assert Set(s) == Set(s[..|s| - 1]) + {s[|s| - 1]};
      assert s[|s| - 1] !in Set(s[..|s| - 1]);
    }
  }

  // ----- lookups

  /** The bucket that holds a member, and whether it is in the old table. */
  lemma WhereIs<N>(h: Table<N>, n: N) returns (waits: bool, i: nat)
    requires Wf(h) && n in h.order
    ensures waits == (n in Flat(h.prev))
    ensures waits ==> i < |h.prev| && n in h.prev[i] && h.remain > 0
    ensures !waits ==> i < |h.curr| && n in h.curr[i]
  {
    assert n in Set(h.order);
    waits := n in Flat(h.prev);
    if waits {
      i := FlatIndex(h.prev, n);
    } else {
      i := FlatIndex(h.curr, n);
    }
  }

  /** A member is in the bucket its hash selects, in one of the two tables. */
  lemma MemberIsInItsBucket<N>(h: Table<N>, n: N)
    requires Wf(h) && n in h.order
    ensures n in h.hash && |h.curr| > 0
    ensures n in h.curr[h.hash[n] % |h.curr|] || (|h.prev| > 0 && n in h.prev[h.hash[n] % |h.prev|])
  {
    HashKnown(h, n);
    assert n in Set(h.order);
    if n in Flat(h.prev) {
      var i := FlatIndex(h.prev, n);
      assert BucketOk(h.prev[i], i, |h.prev|, h.hash);
    } else {
      var i := FlatIndex(h.curr, n);
      assert BucketOk(h.curr[i], i, |h.curr|, h.hash);
    }
  }
}
