/** How many nodes each operation migrates, in every run. */
module HashmapMigrations {
  import opened HashmapModel
  import opened HashmapGrowth
  import opened HashmapRuns

  /** The rehash loop takes nodes out of the old table and puts none in. */
  lemma {:induction false} RehashOnlyTakes<N>(h: Table<N>, r: Table<N>, k: nat)
    requires Wf(h) && h.pos < |h.prev| && r == RehashLoop(h, k)
    ensures Flat(r.prev) <= Flat(h.prev)
    decreases k + |h.prev| - h.pos
  {
    if h.prev[h.pos] == [] && h.pos + 1 == |h.prev| {
      LoopStops(h, k);
      AllEmpty<N>([]);
    } else if h.prev[h.pos] != [] && k == 0 {
      LoopStops(h, k);
    } else {
      var m, left, done := NextRound(h, r, k);
      RehashOnlyTakes(m, r, left);
    }
  }

  lemma ProceedOnlyTakes<N>(g: Table<N>, r: Table<N>, inInsert: bool)
    requires Wf(g) && |g.order| <= Capacity(|g.curr|) && r == ProceedRehash(g, inInsert)
    ensures Flat(r.prev) <= Flat(g.prev)
  {
    if g.remain > 0 {
      PosInside(g);
      RehashOnlyTakes(g, r, Migrations(g, inInsert));
    }
  }

  /** The nodes in the old table of a step: the table that it leaves behind if it grows. */
  ghost function OldTable<N>(h: Table<N>, h': Table<N>): set<N> {
    if |h'.curr| == |h.curr| then Flat(h.prev) else Flat(h.curr)
  }

  /** The nodes that a step moves from the old table to the current one. */
  ghost function Migrated<N>(h: Table<N>, op: Op<N>, h': Table<N>): set<N> {
    var moved := OldTable(h, h') - Flat(h'.prev);
    if op.Remove? then moved - {op.n} else moved
  }

  function Bound<N>(op: Op<N>): nat {
    match op
    case Insert(_, _, _) => 2
    case Remove(_, skip) => if skip then 0 else 1
    case Grow(_) => 0
  }

  lemma Difference<N>(a: set<N>, b: set<N>)
    requires b <= a
    ensures |a - b| == |a| - |b|
  {
    assert a == b + (a - b);
  }

  lemma InsertMigrates<N>(h: Table<N>, n: N, hash: nat, r: Table<N>)
    requires Good(h) && !Full(h) && |h.curr| > 0 && n !in h.order && r == InsertNode(h, n, hash)
    ensures Flat(r.prev) <= Flat(h.prev) && |Flat(h.prev) - Flat(r.prev)| <= 2
  {
    FileKeepsWf(h, n, hash);
    ProceedOnlyTakes(File(h, n, hash), r, true);
    InsertKeepsGood(h, n, hash, r);
    Difference(Flat(h.prev), Flat(r.prev));
  }

  lemma RemoveMigrates<N>(h: Table<N>, n: N, skip: bool, r: Table<N>)
    requires Good(h) && n in h.order && r == RemoveNode(h, n, skip)
    ensures Flat(r.prev) <= Flat(h.prev) - {n}
    ensures |Flat(h.prev) - {n} - Flat(r.prev)| <= if skip then 0 else 1
  {
    var g := Unfile(h, n);
    UnfileKeepsWf(h, n);
    DropFlat(h.prev, n);
    if !skip { ProceedOnlyTakes(g, r, false); }
    RemoveKeepsGood(h, n, skip, r);
    Difference(Flat(h.prev) - {n}, Flat(r.prev));
  }

  lemma GrowMoves<N>(h: Table<N>, preallocated: nat, memory: bool, g: Table<N>)
    requires Good(h) && GrowTable(h, preallocated, memory) == Done(g)
    ensures g == h || (|g.curr| != |h.curr| && Flat(g.prev) == Flat(h.curr))
  {
    NextCountGrows(|h.curr|, preallocated);
    if |h.order| == Capacity(|h.curr|) && h.curr == [] {
      AllEmpty<N>([]);
      assert Set(h.order) == {};
    }
  }

  lemma InsertStep<N>(h: Table<N>, op: Op<N>, g: Table<N>, h': Table<N>, preallocated: nat)
    requires Good(h) && op.Insert? && op.n !in h.order && GrowTable(h, preallocated, op.memory) == Done(g)
    requires !Full(g) && h' == InsertNode(g, op.n, op.hash)
    ensures |Migrated(h, op, h')| <= 2
  {
    GrowKeepsGood(h, preallocated, op.memory);
    GrowMoves(h, preallocated, op.memory, g);
    InsertKeepsGood(g, op.n, op.hash, h');
    InsertMigrates(g, op.n, op.hash, h');
    LeftOldTable(h, op, g, h');
  }

  lemma LeftOldTable<N>(h: Table<N>, op: Op<N>, g: Table<N>, h': Table<N>)
    requires op.Insert? && |h'.curr| == |g.curr| && |Flat(g.prev) - Flat(h'.prev)| <= 2
    requires g == h || (|g.curr| != |h.curr| && Flat(g.prev) == Flat(h.curr))
    ensures |Migrated(h, op, h')| <= 2
  {
  }

  lemma RemoveStep<N>(h: Table<N>, op: Op<N>, h': Table<N>)
    requires Good(h) && op.Remove? && op.n in h.order && h' == RemoveNode(h, op.n, op.skip)
    ensures |Migrated(h, op, h')| <= Bound(op)
  {
    RemoveKeepsGood(h, op.n, op.skip, h');
    RemoveMigrates(h, op.n, op.skip, h');
    LeftByRemove(h, op, h');
  }

  lemma LeftByRemove<N>(h: Table<N>, op: Op<N>, h': Table<N>)
    requires op.Remove? && |h'.curr| == |h.curr| && |Flat(h.prev) - {op.n} - Flat(h'.prev)| <= Bound(op)
    ensures |Migrated(h, op, h')| <= Bound(op)
  {
    Swap(Flat(h.prev), {op.n}, Flat(h'.prev));
  }

  lemma Swap<N>(a: set<N>, b: set<N>, c: set<N>)
    ensures a - b - c == a - c - b
  {
  }

  lemma NothingMigrates<N>(h: Table<N>, op: Op<N>, h': Table<N>)
    requires h' == h || (|h'.curr| != |h.curr| && Flat(h'.prev) == Flat(h.curr))
    ensures Migrated(h, op, h') == {}
  {
  }

  /** A step migrates at most as many nodes as its kind may. */
  lemma StepMigrates<N>(h: Table<N>, op: Op<N>, h': Table<N>, preallocated: nat)
    requires Good(h) && StepTo(h, op, h', preallocated)
    ensures |Migrated(h, op, h')| <= Bound(op)
  {
    if op.Remove? {
      RemoveStep(h, op, h');
    } else {
      GrowKeepsGood(h, preallocated, op.memory);
      var g := GrowTable(h, preallocated, op.memory);
      if g.NoMemory? {
        NothingMigrates(h, op, h');
      } else if op.Grow? {
        GrowMoves(h, preallocated, op.memory, h');
        NothingMigrates(h, op, h');
      } else {
        InsertStep(h, op, g.t, h', preallocated);
      }
    }
  }

  /**
    In every run each insert, also one that grows the table, migrates at most two
    nodes, each remove at most one, and nothing else migrates any; and what
    leaves the old table is then in the current one.
   */
  lemma MigrationsAreBounded<N>(run: seq<Table<N>>, ops: seq<Op<N>>, preallocated: nat, i: nat)
    requires IsRun(run, ops, preallocated) && i < |ops|
    ensures |Migrated(run[i], ops[i], run[i + 1])| <= Bound(ops[i])
    ensures Migrated(run[i], ops[i], run[i + 1]) <= Flat(run[i + 1].curr)
  {
    var h, op, h' := StepAt(run, ops, preallocated, i);
    AlwaysGood(run, ops, preallocated, i);
    AlwaysGood(run, ops, preallocated, i + 1);
    StepMigrates(h, op, h', preallocated);
    RunRefinesOrderedMap(run, ops, preallocated, i);
    StillFiled(h, op, h');
  }

  lemma StillFiled<N>(h: Table<N>, op: Op<N>, h': Table<N>)
    requires Wf(h) && Wf(h') && (h'.order == Replay(h.order, op) || h' == h)
    ensures Migrated(h, op, h') <= Flat(h'.curr)
  {
    forall n | n in Migrated(h, op, h')
      ensures n in Flat(h'.curr)
    {
      assert n in Set(h.order);
      assert n in Set(h'.order);
    }
  }
}
