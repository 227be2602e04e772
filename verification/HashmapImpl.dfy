/** The hash table as the source has it: objects whose links and counters are updated in place. */
module HashmapImpl {
  import opened HashmapModel
  import opened HashmapGrowth
  import opened HashmapRuns
  import opened HashmapRing

  ghost predicate AllLinked(s: seq<Node>)
    reads Members(s)`allNext, Members(s)`allPrev
  {
    && (forall i {:trigger s[i].allNext} :: 0 <= i < |s| ==> s[i].allNext == s[Succ(|s|, i)])
    && (forall i {:trigger s[i].allPrev} :: 0 <= i < |s| ==> s[i].allPrev == s[Pred(|s|, i)])
  }

  /** The neighbours of position `j` of the list once position `k` is unlinked. */
  ghost predicate AllJoined(s: seq<Node>, k: nat, j: nat)
    requires k < |s| && j < |s|
    reads s
  {
    && s[j].allNext == s[if j == Pred(|s|, k) then Succ(|s|, k) else Succ(|s|, j)]
    && s[j].allPrev == s[if j == Succ(|s|, k) then Pred(|s|, k) else Pred(|s|, j)]
  }

  lemma AllJoinedRing(s: seq<Node>, k: nat)
    requires k < |s|
    requires forall j {:trigger AllJoined(s, k, j)} :: 0 <= j < |s| && j != k ==> AllJoined(s, k, j)
    ensures AllLinked(s[..k] + s[k + 1..])
  {
    var t := s[..k] + s[k + 1..];
    forall i | 0 <= i < |t| ensures t[i].allNext == t[Succ(|t|, i)] && t[i].allPrev == t[Pred(|t|, i)] {
      GapNeighbours(s, k, t, i);
      assert AllJoined(s, k, Skip(k, i));
    }
  }

  /** Cutting a member out of the ring takes it out of the order. */
  lemma CutRing(head: Node, order: seq<Node>, ring: seq<Node>, k: nat, rest: seq<Node>)
    requires ring == [head] + order && k < |order| && rest == order[..k] + order[k + 1..]
    ensures ring[..k + 1] + ring[k + 2..] == [head] + rest
  {
    assert ring[..k + 1] == [head] + order[..k];
    assert ring[k + 2..] == order[k + 1..];
  }

  lemma CutFromList(head: Node, order: seq<Node>, ring: seq<Node>, k: nat, node: Node, rest: seq<Node>)
    requires ring == [head] + order && NoDup(order) && NoDup(ring) && k < |order| && order[k] == node
    requires rest == Without(order, node)
    ensures ring[k + 1] == node && ring[..k + 1] + ring[k + 2..] == [head] + rest
    ensures NoDup(rest) && NoDup([head] + rest) && |rest| == |order| - 1
  {
    WithoutAt(order, k);
    CutRing(head, order, ring, k, rest);
    CutNoDup(ring, k + 1);
    WithoutLength(order, node);
  }

  lemma CutNoDup<N>(s: seq<N>, k: nat)
    requires NoDup(s) && k < |s|
    ensures NoDup(s[..k] + s[k + 1..])
  {
  }

  ghost function Lists(bs: seq<Bucket>): (r: seq<seq<Node>>)
    reads bs
    ensures |r| == |bs| && forall i :: 0 <= i < |bs| ==> r[i] == bs[i].nodes
  {
    seq(|bs|, i requires 0 <= i < |bs| reads bs => bs[i].nodes)
  }

  ghost function Buckets(curr: seq<Bucket>, prev: seq<Bucket>): set<Bucket> {
    (set b | b in curr) + (set b | b in prev)
  }

  ghost function Hashes(order: seq<Node>): map<Node, nat>
    reads Members(order)`hash
  {
    map n | n in order :: n.hash
  }

  /** Bucket `b` is a ring of nodes from `order`. */
  ghost predicate RingOf(b: Bucket, order: seq<Node>)
    reads b, order
  {
    (forall i :: 0 <= i < |b.nodes| ==> b.nodes[i] in order) && b.Ring()
  }

  /** The buckets of a table are distinct objects, each a ring of members. */
  ghost predicate Rings(bs: seq<Bucket>, order: seq<Node>)
    reads bs, order
  {
    NoDup(bs) && forall b {:trigger RingOf(b, order)} :: b in bs ==> RingOf(b, order)
  }

  /** Every bucket of either table is a ring of members. */
  ghost predicate Tables(curr: seq<Bucket>, prev: seq<Bucket>, members: seq<Node>)
    reads curr, prev, members
  {
    && (forall b :: b in curr ==> b !in prev)
    && Rings(curr, members) && Rings(prev, members)
  }

  /** The list of all nodes is a ring through its head and the members in order. */
  ghost predicate ListOf(allHead: Node, order: seq<Node>, ring: seq<Node>)
    reads Members(ring)`allNext, Members(ring)`allPrev
  {
    ring == [allHead] + order && NoDup(order) && NoDup(ring) && AllLinked(ring)
  }

  /** Different rings share no node. */
  lemma Apart(b: Bucket, c: Bucket)
    requires b.Ring() && c.Ring() && b != c
    ensures forall n :: n in c.nodes ==> n !in b.nodes
  {
    forall n | n in c.nodes ensures n !in b.nodes {
      var i :| 0 <= i < |c.nodes| && c.nodes[i] == n;
      assert c.nodes[i].bucket == c;
    }
  }

  /** No two members have the same key and hash. */
  ghost predicate Unique(h: Table<Node>) {
    forall m, n :: m in h.order && n in h.order && m in h.hash && n in h.hash && m != n
      ==> m.key != n.key || h.hash[m] != h.hash[n]
  }

  /** Some member has this key under this hash. */
  ghost predicate HasKey(order: seq<Node>, hash: nat, key: Key)
    reads Members(order)`hash
  {
    exists n :: n in order && n.hash == hash && n.key == key
  }

  /** The objects of a table. */
  ghost function Footprint(m: object, head: Node, curr: seq<Bucket>, prev: seq<Bucket>, order: seq<Node>): set<object> {
    {m, head} + (set b | b in curr) + (set b | b in prev) + (set n | n in order)
  }

  /** A table gives up nodes and old buckets, and takes in one node. */
  lemma FootprintAfter(m: object, head: Node, curr: seq<Bucket>, prev: seq<Bucket>, order: seq<Node>,
                       prev': seq<Bucket>, order': seq<Node>, node: Node)
    requires (prev' == prev || prev' == []) && forall n :: n in order' ==> n in order || n == node
    ensures Footprint(m, head, curr, prev', order') <= Footprint(m, head, curr, prev, order) + {node}
  {
  }

  lemma FewerBuckets(curr: seq<Bucket>, prev: seq<Bucket>, prev': seq<Bucket>, bs: set<Bucket>)
    requires Buckets(curr, prev) <= bs && (prev' == prev || prev' == [])
    ensures Buckets(curr, prev') <= bs
  {
  }

  /** What a table has taken in besides one node are buckets. */
  lemma FootprintGrown(m: object, head: Node, curr: seq<Bucket>, prev: seq<Bucket>, order: seq<Node>,
                       curr': seq<Bucket>, prev': seq<Bucket>, order': seq<Node>, node: Node)
    requires forall n :: n in order' ==> n in order || n == node
    ensures Footprint(m, head, curr', prev', order') - Footprint(m, head, curr, prev, order) - {node}
            <= Buckets(curr', prev') - Buckets(curr, prev)
  {
    forall o: object | o in Footprint(m, head, curr', prev', order') - Footprint(m, head, curr, prev, order) - {node}
      ensures o in Buckets(curr', prev') - Buckets(curr, prev)
    {
      assert o !in (set n: Node | n in order');
      assert o in (set b: Bucket | b in curr') || o in (set b: Bucket | b in prev');
    }
  }

  class Hashmap {
    const preallocated: nat
    const allHead: Node
    var curr: seq<Bucket>
    var prev: seq<Bucket>
    var size: nat
    var rehashPos: nat
    var rehashRemain: nat
    ghost var order: seq<Node>
    ghost var ring: seq<Node>

    ghost function View(): Table<Node>
      reads this, curr, prev, order
    {
      Table(Lists(curr), Lists(prev), order, Hashes(order), rehashPos, rehashRemain)
    }

    ghost function Repr(): set<object>
      reads this
    {
      Footprint(this, allHead, curr, prev, order)
    }

    /** The links of all nodes describe the value View(). */
    ghost predicate Sound()
      reads this, allHead, curr, prev, order, ring
    {
      Tables(curr, prev, order) && ListOf(allHead, order, ring) && size == |order|
    }

    ghost predicate Valid()
      reads this, allHead, curr, prev, order, ring
    {
      Sound() && Good(View()) && Unique(View())
    }

    constructor (preallocated: nat)
      ensures Valid() && View() == Empty() && fresh(Repr())
      ensures this.preallocated == preallocated
    {
      this.preallocated := preallocated;
      allHead := new Node("");
      curr, prev, size, rehashPos, rehashRemain, order := [], [], 0, 0, 0, [];
      ring := [allHead];
      new;
      allHead.allPrev := allHead;
      allHead.allNext := allHead;
      EmptyIsGood<Node>();
    }

    /** all_list_insert_. */
    method AllListInsert(node: Node)
      requires ListOf(allHead, order, ring) && node !in ring
      modifies this`order, this`ring, node`allPrev, node`allNext, Members(ring)`allPrev, Members(ring)`allNext
      ensures forall n: Node :: old(allocated(n)) ==>
                && n.bucketNext == old(n.bucketNext) && n.bucketPrev == old(n.bucketPrev)
                && n.bucket == old(n.bucket) && n.hash == old(n.hash)
      ensures ListOf(allHead, order, ring) && order == old(order) + [node]
    {
      LinkLast(node, ring + [node]);
      order := order + [node];
      ring := ring + [node];
    }

    method LinkLast(node: Node, ghost longer: seq<Node>)
      requires ListOf(allHead, order, ring) && node !in ring && longer == ring + [node]
      modifies node`allPrev, node`allNext, Members(ring)`allPrev, Members(ring)`allNext
      ensures forall n: Node :: old(allocated(n)) ==>
                && n.bucketNext == old(n.bucketNext) && n.bucketPrev == old(n.bucketPrev)
                && n.bucket == old(n.bucket) && n.hash == old(n.hash)
      ensures AllLinked(longer)
    {
      assert ring[0].allPrev == ring[Pred(|ring|, 0)];
      var last := allHead.allPrev;
      node.allNext := allHead;
      node.allPrev := last;
      last.allNext := node;
      allHead.allPrev := node;
    }

    /** all_list_remove_. */
    method AllListRemove(node: Node)
      requires ListOf(allHead, order, ring) && node in order
      modifies this`order, this`ring, Members(ring)`allPrev, Members(ring)`allNext
      ensures forall n: Node :: old(allocated(n)) ==>
                && n.bucketNext == old(n.bucketNext) && n.bucketPrev == old(n.bucketPrev)
                && n.bucket == old(n.bucket) && n.hash == old(n.hash)
      ensures ListOf(allHead, order, ring) && order == Without(old(order), node) && |order| == |old(order)| - 1
    {
      ghost var k :| 0 <= k < |order| && order[k] == node;
      ghost var rest := Without(order, node);
      ghost var cut := ring[..k + 1] + ring[k + 2..];
      CutFromList(allHead, order, ring, k, node, rest);
      CutFromAll(node, k + 1, cut);
      order := rest;
      ring := cut;
    }

    method CutFromAll(node: Node, ghost k: nat, ghost cut: seq<Node>)
      requires 0 < k < |ring| && ring[k] == node && NoDup(ring) && AllLinked(ring) && cut == ring[..k] + ring[k + 1..]
      modifies Members(ring)`allPrev, Members(ring)`allNext
      ensures AllLinked(cut)
    {
      UnlinkFromAll(node, k);
      AllJoinedRing(ring, k);
    }

    method UnlinkFromAll(node: Node, ghost k: nat)
      requires 0 < k < |ring| && ring[k] == node && NoDup(ring) && AllLinked(ring)
      modifies Members(ring)`allPrev, Members(ring)`allNext
      ensures forall n: Node :: old(allocated(n)) ==>
                && n.bucketNext == old(n.bucketNext) && n.bucketPrev == old(n.bucketPrev)
                && n.bucket == old(n.bucket) && n.hash == old(n.hash)
      ensures forall j {:trigger AllJoined(ring, k, j)} :: 0 <= j < |ring| && j != k ==> AllJoined(ring, k, j)
    {
      var p, q := node.allPrev, node.allNext;
      assert p == ring[Pred(|ring|, k)] && q == ring[Succ(|ring|, k)];
      p.allNext := q;
      q.allPrev := p;
    }

    /** `node` is on the ring of the bucket it points to. */
    ghost predicate Filed(node: Node)
      reads this, curr, prev, node
    {
      node.bucket != null && (node.bucket in curr || node.bucket in prev) && node in node.bucket.nodes
    }

    /** A member's `bucket` field points to the bucket that holds it. */
    lemma BucketOf(node: Node)
      requires Tables(curr, prev, order) && Wf(View()) && node in order
      ensures Filed(node)
      ensures node.bucket in prev <==> node in Flat(Lists(prev))
      ensures node.bucket in prev ==> rehashRemain > 0
    {
      var waits, i := WhereIs(View(), node);
      if waits {
        InRing(prev[i], node, order);
      } else {
        InRing(curr[i], node, order);
      }
    }

    /** bucket_remove_. */
    method BucketRemove(node: Node)
      requires Tables(curr, prev, order) && Filed(node) && (node.bucket in prev ==> rehashRemain > 0)
      modifies this`rehashRemain, Buckets(curr, prev)`head, Buckets(curr, prev)`nodes
      modifies Members(order)`bucketPrev, Members(order)`bucketNext, Members(order)`bucket
      ensures forall n: Node :: old(allocated(n)) ==>
                n.allNext == old(n.allNext) && n.allPrev == old(n.allPrev) && n.hash == old(n.hash)
      ensures Tables(curr, prev, order) && node.bucket == null
      ensures Lists(curr) == Drop(old(Lists(curr)), node) && Lists(prev) == Drop(old(Lists(prev)), node)
      ensures rehashRemain == old(if node.bucket in prev then rehashRemain - 1 else rehashRemain)
    {
      ghost var b, curr0, prev0 := node.bucket, Lists(curr), Lists(prev);
      if node.bucket in prev {
        rehashRemain := rehashRemain - 1;
      }
      TakeOffRing(node);
      DropLists(curr0, curr, b, node);
      DropLists(prev0, prev, b, node);
    }

    method TakeOffRing(node: Node)
      requires Tables(curr, prev, order) && Filed(node)
      modifies node.bucket`head, node.bucket`nodes
      modifies Members(order)`bucketPrev, Members(order)`bucketNext, Members(order)`bucket
      ensures forall n: Node :: old(allocated(n)) ==>
                n.allNext == old(n.allNext) && n.allPrev == old(n.allPrev) && n.hash == old(n.hash)
      ensures Tables(curr, prev, order) && node.bucket == null
      ensures old(node.bucket).nodes == Without(old(node.bucket.nodes), node)
      ensures forall i :: 0 <= i < |curr| && curr[i] != old(node.bucket) ==> node !in curr[i].nodes
      ensures forall i :: 0 <= i < |prev| && prev[i] != old(node.bucket) ==> node !in prev[i].nodes
    {
      var b := node.bucket;
      assert RingOf(b, order);
      AllApart(curr, b, order);
      AllApart(prev, b, order);
      StillMembers(b.nodes, node, order);
      b.Remove(node);
      forall c | (c in curr || c in prev) && c != b ensures RingOf(c, order) {
        assert old(RingOf(c, order));
        assert old(c.Ring());
        assert c.Ring();
      }
    }

    /** select_bucket_ and bucket_insert_. */
    method BucketInsert(node: Node, ghost members: seq<Node>)
      requires Tables(curr, prev, members) && node in members && node.bucket == null && |curr| > 0
      modifies Buckets(curr, prev)`head, Buckets(curr, prev)`nodes, node`bucketPrev, node`bucketNext, node`bucket
      modifies Members(members)`bucketPrev, Members(members)`bucketNext
      ensures forall n: Node :: old(allocated(n)) ==>
                n.allNext == old(n.allNext) && n.allPrev == old(n.allPrev) && n.hash == old(n.hash)
      ensures Tables(curr, prev, members)
      ensures var i := node.hash % |curr|;
        Lists(curr) == old(Lists(curr))[i := old(Lists(curr)[i]) + [node]]
      ensures Lists(prev) == old(Lists(prev))
    {
      ghost var i, curr0, prev0 := node.hash % |curr|, Lists(curr), Lists(prev);
      OnNoRing(curr, node, members);
      PutOnRing(curr[node.hash % |curr|], node, members);
      assert curr[i] in curr;
      AddLists(curr0, curr, i, node);
      SameLists(prev0, prev);
    }

    method PutOnRing(b: Bucket, node: Node, ghost members: seq<Node>)
      requires Tables(curr, prev, members) && node in members && b in curr && node.bucket == null && node !in b.nodes
      modifies b`head, b`nodes, node`bucketPrev, node`bucketNext, node`bucket
      modifies Members(members)`bucketPrev, Members(members)`bucketNext
      ensures forall n: Node :: old(allocated(n)) ==>
                n.allNext == old(n.allNext) && n.allPrev == old(n.allPrev) && n.hash == old(n.hash)
      ensures Tables(curr, prev, members) && b.nodes == old(b.nodes) + [node]
    {
      assert RingOf(b, members);
      AllApart(curr, b, members);
      AllApart(prev, b, members);
      OnNoRing(curr, node, members);
      OnNoRing(prev, node, members);
      b.Insert(node);
      forall c | (c in curr || c in prev) && c != b ensures RingOf(c, members) {
        assert old(RingOf(c, members));
        assert old(c.Ring());
        assert c.Ring();
      }
    }

    /** The state in which migrate_node_ is called: the node is on a ring of the old table. */
    ghost predicate Waits(node: Node)
      reads this, curr, prev, node
    {
      Filed(node) && node.bucket in prev && rehashRemain > 0 && node in order && |curr| > 0
      && node in Flat(Lists(prev))
    }

    lemma WaitsOnOldRing(node: Node)
      requires Tables(curr, prev, order) && Wf(View()) && node in Flat(View().prev)
      ensures Waits(node)
    {
      IsMember(View(), node);
      BucketOf(node);
    }

    /** migrate_node_. */
    method MigrateNode(node: Node)
      requires Sound() && Waits(node)
      modifies this`rehashRemain, Buckets(curr, prev)`head, Buckets(curr, prev)`nodes
      modifies Members(order)`bucketPrev, Members(order)`bucketNext, Members(order)`bucket
      ensures Sound()
      ensures View() == Migrate(old(View()), node)
    {
      ghost var h, c, i := View(), Drop(Lists(curr), node), node.hash % |curr|;
      RelocateMember(node, c[i := c[i] + [node]], Drop(Lists(prev), node));
      IsMigrated(h, View(), node);
    }

    method RelocateMember(node: Node, ghost c: seq<seq<Node>>, ghost p: seq<seq<Node>>)
      requires Tables(curr, prev, order) && Filed(node) && node.bucket in prev && rehashRemain > 0
      requires node in order && |curr| > 0 && ListOf(allHead, order, ring)
      requires IsRelocated(Lists(curr), node, node.hash % |curr|, c) && p == Drop(Lists(prev), node)
      modifies this`rehashRemain, Buckets(curr, prev)`head, Buckets(curr, prev)`nodes
      modifies Members(order)`bucketPrev, Members(order)`bucketNext, Members(order)`bucket
      ensures Tables(curr, prev, order) && ListOf(allHead, order, ring) && Hashes(order) == old(Hashes(order))
      ensures Lists(curr) == c && Lists(prev) == p && rehashRemain == old(rehashRemain) - 1
    {
      Relocate(node, c, p);
    }

    method Relocate(node: Node, ghost c: seq<seq<Node>>, ghost p: seq<seq<Node>>)
      requires Tables(curr, prev, order) && Filed(node) && node.bucket in prev && rehashRemain > 0
      requires node in order && |curr| > 0
      requires IsRelocated(Lists(curr), node, node.hash % |curr|, c) && p == Drop(Lists(prev), node)
      modifies this`rehashRemain, Buckets(curr, prev)`head, Buckets(curr, prev)`nodes
      modifies Members(order)`bucketPrev, Members(order)`bucketNext, Members(order)`bucket
      ensures Tables(curr, prev, order) && Hashes(order) == old(Hashes(order))
      ensures Lists(curr) == c && Lists(prev) == p && rehashRemain == old(rehashRemain) - 1
    {
      ghost var hashes := Hashes(order);
      BucketRemove(node);
      BucketInsert(node, order);
      SameHashes(hashes, order);
    }

    /** proceed_rehash_; `goal` is what it makes of the value `h`. */
    method ProceedRehash(inInsert: bool, ghost h: Table<Node>, ghost k: nat, ghost goal: Table<Node>)
      requires Sound() && View() == h && (inInsert ==> |h.order| <= Capacity(|h.curr|)) && k == Migrations(h, inInsert)
      requires (h.remain == 0 ==> goal == h) && (h.remain != 0 ==> Rehashing(h, k, goal))
      modifies this`rehashRemain, this`rehashPos, this`prev, Buckets(curr, prev)`head, Buckets(curr, prev)`nodes
      modifies Members(order)`bucketPrev, Members(order)`bucketNext, Members(order)`bucket
      ensures Sound() && View() == goal && (prev == old(prev) || prev == [])
    {
      if rehashRemain != 0 {
        var migrations := NumMigrations(inInsert, Capacity(|curr|), size, rehashRemain);
        PlannedMigrations(h, inInsert, Capacity(|curr|), size, rehashRemain);
        Rehash(migrations, h, goal);
      }
    }

    static function NumMigrations(inInsert: bool, capacity: nat, size: nat, remain: nat): nat
      requires inInsert ==> size <= capacity
    {
      if !inInsert then 1
      else
        var insertsUntilRehash := capacity - size;
        if insertsUntilRehash == 0 then remain else (remain + insertsUntilRehash - 1) / insertsUntilRehash
    }

    /** The loop of proceed_rehash_, whose two checks hold. */
    method Rehash(migrations: nat, ghost start: Table<Node>, ghost goal: Table<Node>)
      requires Sound() && View() == start && Rehashing(start, migrations, goal)
      modifies this`rehashRemain, this`rehashPos, this`prev, Buckets(curr, prev)`head, Buckets(curr, prev)`nodes
      modifies Members(order)`bucketPrev, Members(order)`bucketNext, Members(order)`bucket
      ensures Sound() && View() == goal && (prev == old(prev) || prev == [])
    {
      var left: nat := migrations;
      ghost var h := start;
      var done := false;
      while !done
        invariant Sound() && View() == h && (prev == old(prev) || (done && prev == []))
        invariant if done then h == goal else Rehashing(h, left, goal)
        decreases !done, left + |h.prev| - h.pos
      {
        done, left, h := Turn(left, h, goal);
      }
    }

    /** One turn of the loop: an empty bucket is passed, the loop ends, or a node is migrated. */
    method Turn(left: nat, ghost h: Table<Node>, ghost goal: Table<Node>)
      returns (done: bool, left': nat, ghost h': Table<Node>)
      requires Sound() && View() == h && Rehashing(h, left, goal)
      modifies this`rehashRemain, this`rehashPos, this`prev, Buckets(curr, prev)`head, Buckets(curr, prev)`nodes
      modifies Members(order)`bucketPrev, Members(order)`bucketNext, Members(order)`bucket
      ensures Sound() && View() == h' && (prev == old(prev) || (done && prev == []))
      ensures if done then h' == goal else Rehashing(h', left', goal)
      ensures !done ==> left' + |h'.prev| - h'.pos < left + |h.prev| - h.pos
    {
      left', h' := left, h;
      if prev[rehashPos].head == null {
        done := rehashPos + 1 == |prev|;
        if done {
          h' := EndScan(h, left, goal);
        } else {
          h' := PassBucket(h, left, goal);
        }
      } else if left == 0 {
        FullBucket(prev, rehashPos, order);
        LoopStops(h, left);
        done := true;
      } else {
        done := false;
        h', left' := MigrateFirst(h, left, goal);
      }
    }

    /** Past the last bucket the old table is given up, and the check that no node remains holds. */
    method EndScan(ghost h: Table<Node>, ghost left: nat, ghost goal: Table<Node>) returns (ghost h': Table<Node>)
      requires Sound() && View() == h && Rehashing(h, left, goal)
      requires prev[rehashPos].head == null && rehashPos + 1 == |prev|
      modifies this`rehashPos, this`prev
      ensures Sound() && View() == h' == goal && prev == []
    {
      EmptyBucket(prev, rehashPos, order);
      LoopEnds(h, left, goal);
      assert rehashRemain == 0;
      GiveUpOldTable();
      h' := goal;
    }

    /** The scan moves past an empty bucket. */
    method PassBucket(ghost h: Table<Node>, ghost left: nat, ghost goal: Table<Node>) returns (ghost h': Table<Node>)
      requires Sound() && View() == h && Rehashing(h, left, goal)
      requires prev[rehashPos].head == null && rehashPos + 1 < |prev|
      modifies this`rehashPos
      ensures Sound() && View() == h' && Rehashing(h', left, goal)
      ensures h'.pos == h.pos + 1 && |h'.prev| == |h.prev| && prev == old(prev)
    {
      EmptyBucket(prev, rehashPos, order);
      AdvanceScan();
      h' := h.(pos := h.pos + 1);
      SkipKeeps(h, h', left, goal);
    }

    method AdvanceScan()
      requires Sound()
      modifies this`rehashPos
      ensures Sound() && View() == old(View()).(pos := old(rehashPos) + 1)
    {
      rehashPos := rehashPos + 1;
    }

    method GiveUpOldTable()
      requires Sound()
      modifies this`rehashPos, this`prev
      ensures Sound() && View() == old(View()).(pos := 0, prev := []) && prev == []
    {
      rehashPos := 0;
      prev := [];
      assert Lists(prev) == [];
      assert Rings(prev, order);
    }

    /** The first node of the bucket at the scan position moves to the current table. */
    method MigrateFirst(ghost h: Table<Node>, left: nat, ghost goal: Table<Node>)
      returns (ghost h': Table<Node>, left': nat)
      requires Sound() && View() == h && left > 0 && Rehashing(h, left, goal)
      requires prev[rehashPos].head != null
      modifies this`rehashRemain, Buckets(curr, prev)`head, Buckets(curr, prev)`nodes
      modifies Members(order)`bucketPrev, Members(order)`bucketNext, Members(order)`bucket
      ensures Sound() && View() == h' && Rehashing(h', left', goal)
      ensures left' == left - 1 && h'.pos == h.pos && |h'.prev| == |h.prev| && prev == old(prev)
    {
      MigrateFront(h);
      h', left' := Migrate(h, h.prev[h.pos][0]), left - 1;
      MigrateKeeps(h, h', left, left', goal);
    }

    method MigrateFront(ghost h: Table<Node>)
      requires Sound() && View() == h && Wf(h) && rehashPos < |prev| && prev[rehashPos].head != null
      modifies this`rehashRemain, Buckets(curr, prev)`head, Buckets(curr, prev)`nodes
      modifies Members(order)`bucketPrev, Members(order)`bucketNext, Members(order)`bucket
      ensures Sound() && h.prev[h.pos] != [] && h.curr != [] && h.prev[h.pos][0] in h.hash
      ensures View() == Migrate(h, h.prev[h.pos][0])
    {
      FrontWaits(h);
      MigrateNode(prev[rehashPos].head);
    }

    lemma FrontWaits(h: Table<Node>)
      requires Tables(curr, prev, order) && View() == h && Wf(h) && rehashPos < |prev| && prev[rehashPos].head != null
      ensures var node := prev[rehashPos].head;
              && Waits(node) && h.prev[h.pos] != [] && node == h.prev[h.pos][0] && h.curr != [] && node in h.hash
    {
      var node := prev[rehashPos].head;
      FullBucket(prev, rehashPos, order);
      InFlat(h.prev, h.pos, node);
      WaitsOnOldRing(node);
    }

    /** The linking part of insert: the node joins a bucket and the list of all nodes. */
    method FileNode(node: Node, hash: nat)
      requires Sound() && node !in ring && node.bucket == null && |curr| > 0
      modifies this`size, this`order, this`ring, Buckets(curr, prev)`head, Buckets(curr, prev)`nodes
      modifies node, Members(ring)
      ensures Sound() && View() == File(old(View()), node, hash)
    {
      ghost var h := View();
      PlaceNode(node, hash);
      AppendNode(node);
      FiledView(h, View(), node, hash);
    }

    method PlaceNode(node: Node, hash: nat)
      requires Tables(curr, prev, order) && ListOf(allHead, order, ring) && node !in ring && node.bucket == null
      requires |curr| > 0
      modifies Buckets(curr, prev)`head, Buckets(curr, prev)`nodes, node`hash, node`bucketPrev, node`bucketNext,
               node`bucket
      modifies Members(order)`bucketPrev, Members(order)`bucketNext
      ensures Tables(curr, prev, order + [node]) && ListOf(allHead, order, ring)
      ensures var i := hash % |curr|; Lists(curr) == old(Lists(curr))[i := old(Lists(curr)[i]) + [node]]
      ensures Lists(prev) == old(Lists(prev)) && node.hash == hash && Hashes(order) == old(Hashes(order))
    {
      ghost var hashes := Hashes(order);
      node.hash := hash;
      RingsGrow(curr, order, node);
      RingsGrow(prev, order, node);
      BucketInsert(node, order + [node]);
      SameHashes(hashes, order);
    }

    method AppendNode(node: Node)
      requires Tables(curr, prev, order + [node]) && ListOf(allHead, order, ring) && node !in ring && size == |order|
      modifies this`size, this`order, this`ring, node`allPrev, node`allNext, Members(ring)`allPrev,
               Members(ring)`allNext
      ensures Sound() && order == old(order) + [node]
      ensures Lists(curr) == old(Lists(curr)) && Lists(prev) == old(Lists(prev))
      ensures Hashes(order) == old(Hashes(order))[node := node.hash]
    {
      ghost var curr0, prev0, hashes := Lists(curr), Lists(prev), Hashes(order)[node := node.hash];
      ListNode(node);
      SameLists(curr0, curr);
      SameLists(prev0, prev);
      SameHashes(hashes, order);
    }

    method ListNode(node: Node)
      requires Tables(curr, prev, order + [node]) && ListOf(allHead, order, ring) && node !in ring && size == |order|
      modifies this`size, this`order, this`ring, node`allPrev, node`allNext, Members(ring)`allPrev,
               Members(ring)`allNext
      ensures Sound() && order == old(order) + [node]
    {
      AllListInsert(node);
      size := size + 1;
      forall c | c in curr || c in prev ensures RingOf(c, order) {
        assert old(RingOf(c, order + [node]));
        assert old(c.Ring());
        assert c.Ring();
      }
    }

    /** The unlinking part of remove; `waits` says whether the node is in the old table. */
    method UnfileNode(node: Node, ghost h: Table<Node>, ghost waits: bool)
      requires Sound() && View() == h && node in order && Filed(node)
      requires (node.bucket in prev) == waits && (waits ==> h.remain > 0)
      modifies this`size, this`order, this`ring, this`rehashRemain
      modifies Buckets(curr, prev)`head, Buckets(curr, prev)`nodes, Members(ring)
      ensures Sound() && node.bucket == null
      ensures Lists(curr) == Drop(h.curr, node) && Lists(prev) == Drop(h.prev, node)
      ensures order == Without(h.order, node) && Hashes(order) == h.hash - {node}
      ensures rehashRemain == if waits then h.remain - 1 else h.remain
    {
      UnplaceNode(node);
      DetachNode(node, h.hash);
    }

    method UnplaceNode(node: Node)
      requires Sound() && Filed(node) && (node.bucket in prev ==> rehashRemain > 0)
      modifies this`rehashRemain, Buckets(curr, prev)`head, Buckets(curr, prev)`nodes
      modifies Members(order)`bucketPrev, Members(order)`bucketNext, Members(order)`bucket
      ensures Sound() && node.bucket == null && Hashes(order) == old(Hashes(order))
      ensures Lists(curr) == Drop(old(Lists(curr)), node) && Lists(prev) == Drop(old(Lists(prev)), node)
      ensures rehashRemain == old(if node.bucket in prev then rehashRemain - 1 else rehashRemain)
    {
      ghost var hashes := Hashes(order);
      BucketRemove(node);
      SameHashes(hashes, order);
    }

    method DetachNode(node: Node, ghost hashes: map<Node, nat>)
      requires Sound() && node in order && node.bucket == null && hashes == Hashes(order)
      modifies this`size, this`order, this`ring, Members(ring)`allPrev, Members(ring)`allNext
      ensures Sound() && order == Without(old(order), node)
      ensures Lists(curr) == old(Lists(curr)) && Lists(prev) == old(Lists(prev))
      ensures Hashes(order) == hashes - {node} && node.bucket == null
    {
      ghost var curr0, prev0 := Lists(curr), Lists(prev);
      UnlistNode(node, Without(order, node));
      SameHashes(hashes - {node}, order);
      SameLists(curr0, curr);
      SameLists(prev0, prev);
    }

    method UnlistNode(node: Node, ghost rest: seq<Node>)
      requires Sound() && node in order && node.bucket == null && rest == Without(order, node)
      modifies this`size, this`order, this`ring, Members(ring)`allPrev, Members(ring)`allNext
      ensures Sound() && order == rest
      ensures forall n: Node :: old(allocated(n)) ==>
                && n.bucketNext == old(n.bucketNext) && n.bucketPrev == old(n.bucketPrev)
                && n.bucket == old(n.bucket) && n.hash == old(n.hash)
    {
      RingsShrink(curr, order, node, rest);
      RingsShrink(prev, order, node, rest);
      AllListRemove(node);
      size := size - 1;
      forall c | c in curr || c in prev ensures RingOf(c, rest) {
        assert old(RingOf(c, rest));
        assert old(c.Ring());
        assert c.Ring();
      }
    }

    /** remove, with and without the rehash step. */
    method Remove(node: Node, skipRehash: bool)
      requires Valid() && node in order
      modifies Repr()
      ensures Valid() && View() == RemoveNode(old(View()), node, skipRehash)
      ensures node.bucket == null && Repr() <= old(Repr()) && order == Without(old(order), node)
    {
      PartsInRepr();
      ghost var rest := Without(order, node);
      FootprintAfter(this, allHead, curr, prev, order, prev, rest, node);
      FootprintAfter(this, allHead, curr, prev, order, [], rest, node);
      PlanAndUnlink(node, skipRehash, rest);
    }

    method PlanAndUnlink(node: Node, skipRehash: bool, ghost rest: seq<Node>)
      requires Valid() && node in order && rest == Without(order, node)
      modifies this`size, this`order, this`ring, this`rehashRemain, this`rehashPos, this`prev
      modifies Buckets(curr, prev)`head, Buckets(curr, prev)`nodes, Members(ring)
      ensures Valid() && View() == RemoveNode(old(View()), node, skipRehash) && (prev == old(prev) || prev == [])
      ensures node.bucket == null && order == rest
    {
      ghost var h := View();
      ghost var waits := RemoveStart(node);
      ghost var g := Unfile(h, node);
      ghost var goal := RemoveNode(h, node, skipRehash);
      RemoveMiddle(h, g, node, waits, skipRehash, goal);
      UnlinkAndProceed(node, skipRehash, h, waits, g, goal);
    }

    lemma PartsInRepr()
      requires ListOf(allHead, order, ring)
      ensures Buckets(curr, prev) <= Repr() && Members(ring) <= Repr()
    {
    }

    method UnlinkAndProceed(
        node: Node, skipRehash: bool, ghost h: Table<Node>, ghost waits: bool, ghost g: Table<Node>,
        ghost goal: Table<Node>)
      requires Sound() && View() == h && node in order && Filed(node)
      requires (node.bucket in prev) == waits && (waits ==> h.remain > 0)
      requires g == Table(Drop(h.curr, node), Drop(h.prev, node), Without(h.order, node), h.hash - {node}, h.pos,
                          if waits then h.remain - 1 else h.remain)
      requires skipRehash ==> goal == g
      requires !skipRehash ==> (g.remain == 0 ==> goal == g) && (g.remain != 0 ==> Rehashing(g, 1, goal))
      modifies this`size, this`order, this`ring, this`rehashRemain, this`rehashPos, this`prev
      modifies Buckets(curr, prev)`head, Buckets(curr, prev)`nodes, Members(ring)
      ensures Sound() && View() == goal && node.bucket == null && (prev == old(prev) || prev == [])
    {
      Unlink(node, h, waits, g);
      MaybeProceed(node, skipRehash, g, goal);
    }

    method Unlink(node: Node, ghost h: Table<Node>, ghost waits: bool, ghost g: Table<Node>)
      requires Sound() && View() == h && node in order && Filed(node)
      requires (node.bucket in prev) == waits && (waits ==> h.remain > 0)
      requires g == Table(Drop(h.curr, node), Drop(h.prev, node), Without(h.order, node), h.hash - {node}, h.pos,
                          if waits then h.remain - 1 else h.remain)
      modifies this`size, this`order, this`ring, this`rehashRemain
      modifies Buckets(curr, prev)`head, Buckets(curr, prev)`nodes, Members(ring)
      ensures Sound() && View() == g && node.bucket == null && node !in order
      ensures Members(order) <= old(Members(ring))
    {
      UnfileNode(node, h, waits);
    }

    method MaybeProceed(node: Node, skipRehash: bool, ghost g: Table<Node>, ghost goal: Table<Node>)
      requires Sound() && View() == g && node !in order && node.bucket == null
      requires skipRehash ==> goal == g
      requires !skipRehash ==> (g.remain == 0 ==> goal == g) && (g.remain != 0 ==> Rehashing(g, 1, goal))
      modifies this`rehashRemain, this`rehashPos, this`prev, Buckets(curr, prev)`head, Buckets(curr, prev)`nodes
      modifies Members(order)`bucketPrev, Members(order)`bucketNext, Members(order)`bucket
      ensures Sound() && View() == goal && node.bucket == null && (prev == old(prev) || prev == [])
    {
      if !skipRehash {
        ProceedRehash(false, g, 1, goal);
      }
    }

    lemma RemoveStart(node: Node) returns (waits: bool)
      requires Valid() && node in order
      ensures Filed(node) && waits == (node in Flat(View().prev))
      ensures (node.bucket in prev) == waits && (waits ==> rehashRemain > 0)
    {
      BucketOf(node);
      waits := node in Flat(View().prev);
    }

    /** realloc_buckets_, past its checks and with memory for the new table. */
    method Realloc(count: nat, ghost h: Table<Node>)
      requires Sound() && View() == h
      modifies this`curr, this`prev, this`rehashPos, this`rehashRemain
      ensures Sound() && View() == Grown(h, count)
      ensures fresh(Buckets(curr, prev) - old(Buckets(curr, prev)))
    {
      var buckets := AllocateBuckets(count);
      FreshRings(buckets, order);
      FreshLists(buckets);
      assert forall b :: b in buckets ==> b !in curr && b !in prev;
      Install(buckets, h);
    }

    method Install(buckets: seq<Bucket>, ghost h: Table<Node>)
      requires Sound() && View() == h && Rings(buckets, order)
      requires forall b :: b in buckets ==> b !in curr && b !in prev
      requires Lists(buckets) == seq(|buckets|, _ => [])
      modifies this`curr, this`prev, this`rehashPos, this`rehashRemain
      ensures Sound() && View() == Grown(h, |buckets|)
      ensures curr == buckets && prev == old(if curr != [] then curr else prev)
    {
      if curr != [] {
        prev := curr;
        rehashPos := 0;
        rehashRemain := size;
      }
      curr := buckets;
    }

    /** grow.  A failed check is a panic of the source. */
    method Grow(memory: bool) returns (status: Status)
      requires Valid()
      modifies this`curr, this`prev, this`rehashPos, this`rehashRemain
      ensures Valid() && Reports(status, GrowTable(old(View()), preallocated, memory), View(), old(View()))
      ensures fresh(Buckets(curr, prev) - old(Buckets(curr, prev)))
    {
      ghost var h := View();
      ghost var o := GrowTable(h, preallocated, memory);
      GrowPlan(h, preallocated, memory, o);
      status := GrowIfFull(memory, h, o);
    }

    method GrowIfFull(memory: bool, ghost h: Table<Node>, ghost o: Outcome<Node>) returns (status: Status)
      requires Sound() && View() == h && Plan(h, preallocated, memory, o)
      modifies this`curr, this`prev, this`rehashPos, this`rehashRemain
      ensures Sound() && Reports(status, o, View(), h)
      ensures fresh(Buckets(curr, prev) - old(Buckets(curr, prev)))
    {
      assert size <= Capacity(|curr|);
      if size < Capacity(|curr|) {
        return Ok;
      }
      var count := GetNextBucketSize(|curr|, preallocated);
      assert size < Capacity(count);
      if rehashPos != 0 {
        return CheckFailed;
      }
      assert rehashRemain == 0;
      if !memory {
        return OutOfMemory;
      }
      Realloc(count, h);
      return Ok;
    }

    /**
     * insert.  Inserting a node that is in some table, or a key that some member has, is a panic of the source. The key
     * is looked up first here; a growth does not change the answer.
     */
    method Insert(node: Node, hash: nat, memory: bool) 
      returns (status: Status, ghost added: set<object>)
      requires Valid() && node != allHead
      modifies Repr(), node
      ensures Valid() && added == Repr() - old(Repr()) - {node} && fresh(added)
      ensures InsertReports(status, old(View()), preallocated, node, hash, memory,
                            old(node.bucket != null), old(HasKey(order, hash, node.key)), View())
      ensures status != Ok ==> unchanged(node)
    {
      ghost var h, repr := View(), Repr();
      var found := HasMember(hash, node.key);
      status, added := InsertUnless(node, hash, memory, found, h, repr);
    }

    method InsertUnless(node: Node, hash: nat, memory: bool, found: bool, ghost h: Table<Node>, ghost repr: set<object>)
      returns (status: Status, ghost added: set<object>)
      requires Valid() && View() == h && Repr() == repr
      requires node != allHead && found == HasKey(order, hash, node.key)
      modifies repr, node
      ensures Valid() && added == Repr() - repr - {node} && fresh(added)
      ensures InsertReports(status, h, preallocated, node, hash, memory, old(node.bucket != null), found, View())
      ensures status != Ok ==> unchanged(node)
    {
      if node.bucket != null || found {
        status, added := GrowOnly(memory, h, repr, node);
        if status == Ok {
          status := if node.bucket != null then AlreadyMember else DuplicateKey;
        }
      } else {
        status, added := InsertNew(node, hash, memory, h);
      }
    }

    method GrowOnly(memory: bool, ghost h: Table<Node>, ghost repr: set<object>, ghost node: Node)
      returns (status: Status, ghost added: set<object>)
      requires Valid() && View() == h && Repr() == repr
      modifies this`curr, this`prev, this`rehashPos, this`rehashRemain
      ensures Valid() && Reports(status, GrowTable(h, preallocated, memory), View(), h)
      ensures added == Repr() - repr - {node} && fresh(added)
    {
      ghost var curr0, prev0 := curr, prev;
      status := Grow(memory);
      added := Repr() - repr - {node};
      FootprintGrown(this, allHead, curr0, prev0, order, curr, prev, order, node);
    }

    /** insert of a node that is in no table, under a key that no member has. */
    method InsertNew(node: Node, hash: nat, memory: bool, ghost h: Table<Node>)
      returns (status: Status, ghost added: set<object>)
      requires Valid() && View() == h && node != allHead && node.bucket == null && !HasKey(order, hash, node.key)
      modifies Repr(), node
      ensures Valid() && added == Repr() - old(Repr()) - {node} && fresh(added)
      ensures Reports(status, Apply(h, Op.Insert(node, hash, memory), preallocated), View(), h)
      ensures order == if status == Ok then old(order) + [node] else old(order)
      ensures status != Ok ==> unchanged(node)
    {
      NoMember(node);
      NoSuchKey(h, node, hash);
      ghost var o, k, goal := WholePlan(h, node, hash, preallocated, memory);
      status, added := GrowAndLink(node, hash, memory, h, o, k, goal);
    }

    method GrowAndLink(
        node: Node, hash: nat, memory: bool, ghost h: Table<Node>, ghost o: Outcome<Node>, ghost k: nat,
        ghost goal: Table<Node>)
      returns (status: Status, ghost added: set<object>)
      requires Sound() && View() == h && Plan(h, preallocated, memory, o) && node !in ring && node.bucket == null
      requires o.Done? ==> |o.t.curr| > 0 && Linking(File(o.t, node, hash), k, goal)
      requires o.Done? ==> goal.order == h.order + [node]
      modifies Repr(), node
      ensures Sound() && Reports(status, if o.Done? then Done(goal) else o, View(), h)
      ensures added == Repr() - old(Repr()) - {node} && fresh(added) && (status != Ok ==> unchanged(node))
    {
      PartsInRepr();
      ghost var curr0, prev0, order0, buckets := curr, prev, order, {};
      status, buckets := GrowAndFile(node, hash, memory, h, o, k, goal, if o.Done? then Done(goal) else o,
                                     Buckets(curr, prev));
      added := Repr() - old(Repr()) - {node};
      FootprintGrown(this, allHead, curr0, prev0, order0, curr, prev, order, node);
    }

    method GrowAndFile(
        node: Node, hash: nat, memory: bool, ghost h: Table<Node>, ghost o: Outcome<Node>, ghost k: nat,
        ghost goal: Table<Node>, ghost goal': Outcome<Node>, ghost bs: set<Bucket>)
      returns (status: Status, ghost buckets: set<Bucket>)
      requires Sound() && View() == h && Plan(h, preallocated, memory, o) && node !in ring && node.bucket == null
      requires o.Done? ==> |o.t.curr| > 0 && Linking(File(o.t, node, hash), k, goal)
      requires goal' == (if o.Done? then Done(goal) else o) && bs == Buckets(curr, prev)
      modifies this`curr, this`prev, this`size, this`order, this`ring, this`rehashRemain, this`rehashPos
      modifies Buckets(curr, prev)`head, Buckets(curr, prev)`nodes, node, Members(ring)
      ensures Sound() && Reports(status, goal', View(), h)
      ensures Buckets(curr, prev) <= bs + buckets && fresh(buckets)
      ensures status != Ok ==> unchanged(node)
    {
      status, buckets := EnsureRoom(memory, h, o, bs);
      if status == Ok {
        LinkWithin(node, hash, o.t, k, goal, bs + buckets);
      }
    }

    method LinkWithin(node: Node, hash: nat, ghost h: Table<Node>, ghost k: nat, ghost goal: Table<Node>,
                      ghost bs: set<Bucket>)
      requires Sound() && View() == h && node !in ring && node.bucket == null && |curr| > 0
      requires Linking(File(h, node, hash), k, goal) && Buckets(curr, prev) <= bs
      modifies this`size, this`order, this`ring, this`rehashRemain, this`rehashPos, this`prev
      modifies Buckets(curr, prev)`head, Buckets(curr, prev)`nodes, node, Members(ring)
      ensures Sound() && View() == goal && Buckets(curr, prev) <= bs
    {
      ghost var prev0 := prev;
      LinkAndProceed(node, hash, h, k, goal);
      FewerBuckets(curr, prev0, prev, bs);
    }

    method EnsureRoom(memory: bool, ghost h: Table<Node>, ghost o: Outcome<Node>, ghost bs: set<Bucket>)
      returns (status: Status, ghost buckets: set<Bucket>)
      requires Sound() && View() == h && Plan(h, preallocated, memory, o) && bs == Buckets(curr, prev)
      modifies this`curr, this`prev, this`rehashPos, this`rehashRemain
      ensures Sound() && Reports(status, o, View(), h)
      ensures Buckets(curr, prev) <= bs + buckets && fresh(buckets)
    {
      status := Ok;
      if size >= Capacity(|curr|) {
        status := GrowIfFull(memory, h, o);
      }
      buckets := Buckets(curr, prev) - bs;
    }

    lemma NoMember(node: Node)
      requires Valid() && node != allHead && node.bucket == null
      ensures node !in ring && node !in order
    {
      if node in order {
        BucketOf(node);
      }
    }

    lemma NoSuchKey(h: Table<Node>, node: Node, hash: nat)
      requires h == View() && !HasKey(order, hash, node.key)
      ensures forall n :: n in h.order && n in h.hash ==> n.key != node.key || h.hash[n] != hash
    {
    }

    method LinkAndProceed(node: Node, hash: nat, ghost h: Table<Node>, ghost k: nat, ghost goal: Table<Node>)
      requires Sound() && View() == h && node !in ring && node.bucket == null && |curr| > 0
      requires Linking(File(h, node, hash), k, goal)
      modifies this`size, this`order, this`ring, this`rehashRemain, this`rehashPos, this`prev
      modifies Buckets(curr, prev)`head, Buckets(curr, prev)`nodes, node, Members(ring)
      ensures Sound() && View() == goal && (prev == old(prev) || prev == [])
    {
      ghost var g := File(h, node, hash);
      FileNode(node, hash);
      ProceedRehash(true, g, k, goal);
    }

    /** contains: the node's bucket is one of this map's. */
    predicate Contains(node: Node)
      reads this, node
    {
      node.bucket != null && (node.bucket in curr || node.bucket in prev)
    }

    lemma MemberIff(node: Node)
      requires Valid() && (node in order || node.bucket == null)
      ensures node.bucket != null <==> node in order
    {
      if node in order {
        BucketOf(node);
      }
    }

    /** A member is contained, and so is no other node whose bucket field only maps have set. */
    lemma ContainsIff(node: Node)
      requires Valid() && (node in order || node.bucket == null)
      ensures Contains(node) <==> node in order
    {
      if node in order {
        BucketOf(node);
      }
    }

    // ----- lookups and iteration

    /** find_in_bucket_: one trip around the ring. */
    method FindInBucket(b: Bucket, hash: nat, key: Key) returns (r: Node?)
      requires b.Ring()
      ensures r != null ==> r in b.nodes && r.hash == hash && r.key == key
      ensures r == null ==> forall n :: n in b.nodes ==> n.hash != hash || n.key != key
    {
      var node := b.head;
      if node == null {
        return null;
      }
      ghost var k := 0;
      while true
        invariant 0 <= k < |b.nodes| && node == b.nodes[k]
        invariant forall i :: 0 <= i < k ==> b.nodes[i].hash != hash || b.nodes[i].key != key
        decreases |b.nodes| - k
      {
        if node.hash == hash && node.key == key {
          return node;
        }
        assert b.nodes[k].bucketNext == b.nodes[Succ(|b.nodes|, k)];
        node := node.bucketNext;
        if node == b.head {
          return null;
        }
        k := k + 1;
      }
    }

    /** find_node: exactly the member with that hash and key, in whichever table it is. Nothing changes. */
    method FindNode(hash: nat, key: Key) returns (r: Node?)
      requires Valid()
      ensures Valid() && View() == old(View())
      ensures r != null ==> r in order && r.hash == hash && r.key == key
      ensures r == null ==> forall n :: n in order ==> n.hash != hash || n.key != key
      ensures r != null ==> forall n :: n in order && n.hash == hash && n.key == key ==> n == r
    {
      r := SearchStill(hash, key);
      if r == null {
        NotFound(hash, key);
      } else {
        OnlyOne(r, hash, key);
      }
    }

    /** Whether some member has this key under this hash. */
    method HasMember(hash: nat, key: Key) returns (r: bool)
      requires Valid()
      ensures Valid() && View() == old(View()) && Repr() == old(Repr())
      ensures r == HasKey(order, hash, key) == old(HasKey(order, hash, key))
    {
      var found := FindNode(hash, key);
      r := found != null;
    }

    /** The search through both tables; the map is no different after it. */
    method SearchStill(hash: nat, key: Key) returns (r: Node?)
      requires Valid()
      ensures Valid() && View() == old(View())
      ensures r != null ==> r in order && r.hash == hash && r.key == key
      ensures r == null && |curr| != 0 ==> forall n :: n in curr[hash % |curr|].nodes ==> n.hash != hash || n.key != key
      ensures r == null && |prev| != 0 ==> forall n :: n in prev[hash % |prev|].nodes ==> n.hash != hash || n.key != key
    {
      r := SearchSame(hash, key);
    }

    method SearchSame(hash: nat, key: Key) returns (r: Node?)
      requires Tables(curr, prev, order)
      ensures View() == old(View())
      ensures r != null ==> r in order && r.hash == hash && r.key == key
      ensures r == null && |curr| != 0 ==> forall n :: n in curr[hash % |curr|].nodes ==> n.hash != hash || n.key != key
      ensures r == null && |prev| != 0 ==> forall n :: n in prev[hash % |prev|].nodes ==> n.hash != hash || n.key != key
    {
      r := SearchTables(hash, key);
    }

    method SearchTables(hash: nat, key: Key) returns (r: Node?)
      requires Tables(curr, prev, order)
      ensures r != null ==> r in order && r.hash == hash && r.key == key
      ensures r == null && |curr| != 0 ==> forall n :: n in curr[hash % |curr|].nodes ==> n.hash != hash || n.key != key
      ensures r == null && |prev| != 0 ==> forall n :: n in prev[hash % |prev|].nodes ==> n.hash != hash || n.key != key
    {
      r := null;
      if |curr| != 0 {
        assert RingOf(curr[hash % |curr|], order);
        r := FindInBucket(curr[hash % |curr|], hash, key);
        if r != null {
          return;
        }
      }
      if |prev| != 0 {
        assert RingOf(prev[hash % |prev|], order);
        r := FindInBucket(prev[hash % |prev|], hash, key);
      }
    }

    lemma OnlyOne(r: Node, hash: nat, key: Key)
      requires Unique(View()) && r in order && r.hash == hash && r.key == key
      ensures forall n :: n in order && n.hash == hash && n.key == key ==> n == r
    {
      ghost var h := View();
      assert h.hash[r] == hash;
      forall n | n in order && n.hash == hash && n.key == key ensures n == r {
        assert h.hash[n] == hash;
      }
    }

    lemma NotFound(hash: nat, key: Key)
      requires Valid()
      requires |curr| != 0 ==> forall n :: n in curr[hash % |curr|].nodes ==> n.hash != hash || n.key != key
      requires |prev| != 0 ==> forall n :: n in prev[hash % |prev|].nodes ==> n.hash != hash || n.key != key
      ensures forall n :: n in order ==> n.hash != hash || n.key != key
    {
      ghost var h := View();
      forall n | n in order ensures n.hash != hash || n.key != key {
        MemberIsInItsBucket(h, n);
      }
    }

    method Front() returns (r: Node?)
      requires Valid()
      ensures r == if order == [] then null else order[0]
    {
      assert ring[0].allNext == ring[Succ(|ring|, 0)];
      if size == 0 {
        return null;
      }
      r := allHead.allNext;
    }

    method Back() returns (r: Node?)
      requires Valid()
      ensures r == if order == [] then null else order[|order| - 1]
    {
      assert ring[0].allPrev == ring[Pred(|ring|, 0)];
      if size == 0 {
        return null;
      }
      r := allHead.allPrev;
    }

    /** nextof: the member inserted next after this one, wherever a rehash has put either. */
    method NextOf(node: Node, ghost k: nat) returns (r: Node?)
      requires Valid() && k < |order| && order[k] == node
      ensures r == if k + 1 < |order| then order[k + 1] else null
    {
      assert ring[k + 1] == node && node.allNext == ring[Succ(|ring|, k + 1)];
      assert k + 1 < |order| ==> ring[k + 2] == order[k + 1] != ring[0];
      if node.allNext == allHead {
        return null;
      }
      r := node.allNext;
    }
  }

  ghost predicate Linking(g: Table<Node>, k: nat, goal: Table<Node>) {
    && |g.order| <= Capacity(|g.curr|) && k == Migrations(g, true)
    && (g.remain == 0 ==> goal == g) && (g.remain != 0 ==> Rehashing(g, k, goal))
  }

  lemma InsertPlan(h: Table<Node>, g: Table<Node>, node: Node, hash: nat) returns (k: nat, goal: Table<Node>)
    requires Good(g) && !Full(g) && g.order == h.order && g.hash == h.hash && node !in h.order && |g.curr| > 0
    requires Good(h) && Unique(h) && forall n :: n in h.order && n in h.hash ==> n.key != node.key || h.hash[n] != hash
    ensures Linking(File(g, node, hash), k, goal)
    ensures goal == InsertNode(g, node, hash) && Good(goal) && Unique(goal) && goal.order == h.order + [node]
  {
    var f := File(g, node, hash);
    goal := InsertNode(g, node, hash);
    k := Migrations(f, true);
    InsertKeepsGood(g, node, hash, goal);
    FileKeepsWf(g, node, hash);
    StartRehash(f, true, k, goal);
    UniqueInsert(h, goal, node, hash);
  }

  lemma UniqueInsert(h: Table<Node>, goal: Table<Node>, node: Node, hash: nat)
    requires Unique(h) && node !in h.order && goal.order == h.order + [node] && goal.hash == h.hash[node := hash]
    requires forall n :: n in h.order && n in h.hash ==> n.key != node.key || h.hash[n] != hash
    ensures Unique(goal)
  {
  }

  /** The cases of grow, with the checks that cannot fail. */
  ghost predicate Plan(h: Table<Node>, preallocated: nat, memory: bool, o: Outcome<Node>) {
    && |h.order| <= Capacity(|h.curr|)
    && (|h.order| < Capacity(|h.curr|) ==> o == Done(h))
    && (|h.order| == Capacity(|h.curr|) ==>
          && |h.order| < Capacity(NextCount(|h.curr|, preallocated))
          && h.remain == 0
          && (h.pos != 0 ==> o == PosCheck)
          && (h.pos == 0 && !memory ==> o == NoMemory(h))
          && (h.pos == 0 && memory ==> o == Done(Grown(h, NextCount(|h.curr|, preallocated)))))
  }

  lemma GrowPlan(h: Table<Node>, preallocated: nat, memory: bool, o: Outcome<Node>)
    requires Good(h) && o == GrowTable(h, preallocated, memory)
    ensures Plan(h, preallocated, memory, o) && (o.Done? ==> Good(o.t) && o.t.order == h.order && o.t.hash == h.hash)
  {
    GrowKeepsGood(h, preallocated, memory);
    NextCountGrows(|h.curr|, preallocated);
  }

  /** What an insert will do: grow if it has to, then link the node and rehash. */
  lemma WholePlan(h: Table<Node>, node: Node, hash: nat, preallocated: nat, memory: bool)
    returns (o: Outcome<Node>, k: nat, goal: Table<Node>)
    requires Good(h) && Unique(h) && node !in h.order
    requires forall n :: n in h.order && n in h.hash ==> n.key != node.key || h.hash[n] != hash
    ensures Plan(h, preallocated, memory, o)
    ensures Apply(h, Op.Insert(node, hash, memory), preallocated) == if o.Done? then Done(goal) else o
    ensures o.Done? ==> |o.t.curr| > 0 && Linking(File(o.t, node, hash), k, goal)
    ensures o.Done? ==> Good(goal) && Unique(goal) && goal.order == h.order + [node]
  {
    o := GrowTable(h, preallocated, memory);
    GrowPlan(h, preallocated, memory, o);
    k, goal := 0, h;
    if o.Done? {
      k, goal := InsertPlan(h, o.t, node, hash);
    }
  }

  /** All but the first two are panics of the source. */
  datatype Status = Ok | OutOfMemory | CheckFailed | AlreadyMember | DuplicateKey | NotMember

  /** What grow reports and leaves, by what the value model says. */
  ghost function Result(o: Outcome<Node>, before: Table<Node>): (Status, Table<Node>) {
    match o
    case Done(t) => (Ok, t)
    case NoMemory(_) => (OutOfMemory, before)
    case _ => (CheckFailed, before)
  }

  /** Of the checks, only the one on the scan position ever fails. */
  ghost predicate Reports(status: Status, o: Outcome<Node>, after: Table<Node>, before: Table<Node>) {
    (o.Done? || o.NoMemory? || o.PosCheck?) && (status, after) == Result(o, before)
  }

  /**
   * What an insert reports and leaves. It grows the table if it has to; then it is a panic if the node is a member of
   * some table or its key was found in this one.
   */
  ghost function InsertResult(h: Table<Node>, preallocated: nat, node: Node, hash: nat, memory: bool, member: bool,
                              found: bool): (Status, Table<Node>)
  {
    var g := GrowTable(h, preallocated, memory);
    if g.Done? && member then (AlreadyMember, g.t)
    else if g.Done? && found then (DuplicateKey, g.t)
    else Result(Apply(h, Op.Insert(node, hash, memory), preallocated), h)
  }

  ghost predicate InsertReports(status: Status, h: Table<Node>, preallocated: nat, node: Node, hash: nat, memory: bool,
                                member: bool, found: bool, after: Table<Node>)
  {
    && (status, after) == InsertResult(h, preallocated, node, hash, memory, member, found)
    && after.order == if status == Ok then h.order + [node] else h.order
  }

  method AllocateBuckets(count: nat) returns (bs: seq<Bucket>)
    ensures |bs| == count && NoDup(bs) && fresh(bs)
    ensures forall b :: b in bs ==> b.head == null && b.nodes == []
  {
    bs := [];
    while |bs| < count
      invariant |bs| <= count && NoDup(bs) && fresh(bs)
      invariant forall b :: b in bs ==> b.head == null && b.nodes == []
    {
      var b := new Bucket();
      bs := bs + [b];
    }
  }

  lemma FreshRings(bs: seq<Bucket>, order: seq<Node>)
    requires NoDup(bs) && forall b :: b in bs ==> b.head == null && b.nodes == []
    ensures Rings(bs, order)
  {
  }

  lemma FreshLists(bs: seq<Bucket>)
    requires forall b :: b in bs ==> b.nodes == []
    ensures Lists(bs) == seq(|bs|, _ => [])
  {
  }

  lemma RemoveMiddle(h: Table<Node>, g: Table<Node>, node: Node, waits: bool, skip: bool, goal: Table<Node>)
    requires Good(h) && node in h.order && waits == (node in Flat(h.prev)) && (waits ==> h.remain > 0)
    requires g == Unfile(h, node) && goal == RemoveNode(h, node, skip)
    requires Unique(h)
    ensures Good(goal) && Unique(goal) && goal.order == Without(h.order, node)
    ensures g == Table(Drop(h.curr, node), Drop(h.prev, node), Without(h.order, node), h.hash - {node}, h.pos,
                       if waits then h.remain - 1 else h.remain)
    ensures skip ==> goal == g
    ensures !skip ==> (g.remain == 0 ==> goal == g) && (g.remain != 0 ==> Rehashing(g, 1, goal))
  {
    RemoveKeepsGood(h, node, skip, goal);
    UnfileKeepsWf(h, node);
    if !skip { StartRehash(g, false, 1, goal); }
  }

  lemma RingsShrink(bs: seq<Bucket>, order: seq<Node>, node: Node, rest: seq<Node>)
    requires Rings(bs, order) && node.bucket == null && rest == Without(order, node)
    ensures Rings(bs, rest)
  {
    OnNoRing(bs, node, order);
    forall b | b in bs ensures RingOf(b, rest) {
      assert RingOf(b, order);
    }
  }

  lemma SameHashes(hashes: map<Node, nat>, order: seq<Node>)
    requires forall n :: n in hashes <==> n in order
    requires forall n :: n in order ==> n.hash == hashes[n]
    ensures Hashes(order) == hashes
  {
  }

  lemma RingsGrow(bs: seq<Bucket>, order: seq<Node>, node: Node)
    requires Rings(bs, order)
    ensures Rings(bs, order + [node])
  {
    forall b | b in bs ensures RingOf(b, order + [node]) {
      assert RingOf(b, order);
    }
  }

  lemma FiledView(h: Table<Node>, v: Table<Node>, node: Node, hash: nat)
    requires |h.curr| > 0
    requires var i := hash % |h.curr|; v.curr == h.curr[i := h.curr[i] + [node]]
    requires v.prev == h.prev && v.order == h.order + [node] && v.hash == h.hash[node := hash]
    requires v.pos == h.pos && v.remain == h.remain
    ensures v == File(h, node, hash)
  {
  }

  /** `goal` is where the rehash loop ends, and `h` where it is with `left` migrations to do. */
  ghost predicate Rehashing(h: Table<Node>, left: nat, goal: Table<Node>) {
    Wf(h) && h.pos < |h.prev| && goal == RehashLoop(h, left)
  }

  /** `c` is `t` with `node` taken off its ring and put on ring `i`. */
  ghost predicate IsRelocated(t: seq<seq<Node>>, node: Node, i: nat, c: seq<seq<Node>>) {
    i < |t| && c == Drop(t, node)[i := Drop(t, node)[i] + [node]]
  }

  lemma PlannedMigrations(h: Table<Node>, inInsert: bool, capacity: nat, size: nat, remain: nat)
    requires capacity == Capacity(|h.curr|) && size == |h.order| && remain == h.remain
    requires inInsert ==> size <= capacity
    ensures Hashmap.NumMigrations(inInsert, capacity, size, remain) == Migrations(h, inInsert)
  {
  }

  lemma StartRehash(h: Table<Node>, inInsert: bool, k: nat, goal: Table<Node>)
    requires Wf(h) && (inInsert ==> |h.order| <= Capacity(|h.curr|)) && k == Migrations(h, inInsert)
    requires goal == HashmapModel.ProceedRehash(h, inInsert)
    ensures (h.remain == 0 ==> goal == h) && (h.remain != 0 ==> Rehashing(h, k, goal))
  {
    if h.remain > 0 { PosInside(h); }
  }

  lemma EmptyBucket(bs: seq<Bucket>, i: nat, order: seq<Node>)
    requires Rings(bs, order) && i < |bs| && bs[i].head == null
    ensures bs[i].nodes == []
  {
    assert RingOf(bs[i], order);
  }

  lemma FullBucket(bs: seq<Bucket>, i: nat, order: seq<Node>)
    requires Rings(bs, order) && i < |bs| && bs[i].head != null
    ensures bs[i].nodes != [] && bs[i].head == bs[i].nodes[0]
  {
    assert RingOf(bs[i], order);
  }

  lemma LoopEnds(h: Table<Node>, k: nat, goal: Table<Node>)
    requires Rehashing(h, k, goal) && h.pos + 1 == |h.prev| && h.prev[h.pos] == []
    ensures h.remain == 0 && goal == h.(pos := 0, prev := [])
  {
    EndIsEmpty(h);
    LoopStops(h, k);
  }

  lemma SkipKeeps(h: Table<Node>, v: Table<Node>, k: nat, goal: Table<Node>)
    requires Rehashing(h, k, goal) && h.pos + 1 < |h.prev| && h.prev[h.pos] == [] && v == h.(pos := h.pos + 1)
    ensures Rehashing(v, k, goal)
  {
    PosStep(h);
    LoopSkips(h, k);
  }

  lemma MigrateKeeps(h: Table<Node>, v: Table<Node>, k: nat, left: nat, goal: Table<Node>)
    requires Rehashing(h, k, goal) && h.prev[h.pos] != [] && left + 1 == k
    requires h.curr != [] && h.prev[h.pos][0] in h.hash && v == Migrate(h, h.prev[h.pos][0])
    ensures Rehashing(v, left, goal) && v.pos == h.pos && |v.prev| == |h.prev|
  {
    InFlat(h.prev, h.pos, h.prev[h.pos][0]);
    MigrateStep(h, h.prev[h.pos][0]);
    LoopMigrates(h, v, k, left);
  }

  lemma IsMigrated(h: Table<Node>, v: Table<Node>, n: Node)
    requires n in h.hash && |h.curr| > 0 && n in Flat(h.prev) && h.remain > 0
    requires v.order == h.order && v.hash == h.hash && v.pos == h.pos && v.remain == h.remain - 1
    requires v.prev == Drop(h.prev, n)
    requires var c, i := Drop(h.curr, n), h.hash[n] % |h.curr|; v.curr == c[i := c[i] + [n]]
    ensures v == Migrate(h, n)
  {
  }

  lemma IsMember(h: Table<Node>, n: Node)
    requires Wf(h) && n in Flat(h.prev)
    ensures n in h.order && n in h.hash && |h.curr| > 0
  {
    assert n in Set(h.order);
    HashKnown(h, n);
  }

  /** A node without a bucket is on no ring. */
  lemma OnNoRing(bs: seq<Bucket>, node: Node, members: seq<Node>)
    requires Rings(bs, members) && node.bucket == null
    ensures forall i :: 0 <= i < |bs| ==> node !in bs[i].nodes
  {
    forall i | 0 <= i < |bs| ensures node !in bs[i].nodes {
      if node in bs[i].nodes { InRing(bs[i], node, members); }
    }
  }

  /** Taking `node` off its own ring takes it out of the table. */
  lemma DropLists(before: seq<seq<Node>>, bs: seq<Bucket>, b: Bucket, node: Node)
    requires |before| == |bs|
    requires forall i :: 0 <= i < |bs| && bs[i] != b ==> bs[i].nodes == before[i] && node !in before[i]
    requires forall i :: 0 <= i < |bs| && bs[i] == b ==> b.nodes == Without(before[i], node)
    ensures Lists(bs) == Drop(before, node)
  {
  }

  lemma AddLists(before: seq<seq<Node>>, bs: seq<Bucket>, i: nat, node: Node)
    requires i < |before| == |bs|
    requires forall j :: 0 <= j < |bs| && j != i ==> bs[j].nodes == before[j]
    requires bs[i].nodes == before[i] + [node]
    ensures Lists(bs) == before[i := before[i] + [node]]
  {
  }

  lemma SameLists(before: seq<seq<Node>>, bs: seq<Bucket>)
    requires |before| == |bs|
    requires forall j :: 0 <= j < |bs| ==> bs[j].nodes == before[j]
    ensures Lists(bs) == before
  {
  }

  lemma InRing(b: Bucket, node: Node, order: seq<Node>)
    requires RingOf(b, order) && node in b.nodes
    ensures node.bucket == b
  {
    var k :| 0 <= k < |b.nodes| && b.nodes[k] == node;
    assert b.nodes[k].bucket == b;
  }

  lemma StillMembers(s: seq<Node>, node: Node, order: seq<Node>)
    requires forall i :: 0 <= i < |s| ==> s[i] in order
    ensures forall i :: 0 <= i < |Without(s, node)| ==> Without(s, node)[i] in order
  {
    forall i | 0 <= i < |Without(s, node)| ensures Without(s, node)[i] in order {
      assert Without(s, node)[i] in s;
    }
  }

  lemma AllApart(bs: seq<Bucket>, b: Bucket, order: seq<Node>)
    requires Rings(bs, order) && b.Ring()
    ensures forall i, n :: 0 <= i < |bs| && bs[i] != b && n in bs[i].nodes ==> n !in b.nodes
  {
    forall i | 0 <= i < |bs| && bs[i] != b ensures forall n :: n in bs[i].nodes ==> n !in b.nodes {
      assert RingOf(bs[i], order);
      Apart(b, bs[i]);
    }
  }
}
