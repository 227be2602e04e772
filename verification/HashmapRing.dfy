/** The linked structures of the hash table: nodes, bucket rings and the list of all nodes. */
module HashmapRing {
  import opened HashmapModel

  type Key = string

  class Node {
    const key: Key
    var hash: nat
    var bucketPrev: Node?
    var bucketNext: Node?
    var allPrev: Node?
    var allNext: Node?
    var bucket: Bucket?

    constructor (key: Key)
      ensures this.key == key && bucket == null
    {
      this.key := key;
      hash := 0;
      bucketPrev, bucketNext, allPrev, allNext, bucket := null, null, null, null, null;
    }
  }

  /** A bucket: the head of a circular list, and the nodes on it in list order. */
  class Bucket {
    var head: Node?
    ghost var nodes: seq<Node>

    constructor ()
      ensures head == null && nodes == []
    {
      head, nodes := null, [];
    }

    /** The links of this bucket's nodes form the ring `nodes`. */
    ghost predicate Ring()
      reads this, nodes
    {
      && NoDup(nodes)
      && (head == if nodes == [] then null else nodes[0])
      && Linked(this, nodes)
    }

    /** bucket_insert_: the node becomes the last of the ring. */
    method Insert(node: Node)
      requires Ring() && node !in nodes
      modifies this`head, this`nodes, node`bucketPrev, node`bucketNext, node`bucket, Members(nodes)`bucketPrev,
               Members(nodes)`bucketNext
      ensures forall n: Node :: old(allocated(n)) ==>
                n.allNext == old(n.allNext) && n.allPrev == old(n.allPrev) && n.hash == old(n.hash)
      ensures Ring() && nodes == old(nodes) + [node]
    {
      if head != null {
        LinkLast(node);
      } else {
        head := node;
        node.bucketNext := node;
        node.bucketPrev := node;
        node.bucket := this;
      }
      nodes := nodes + [node];
    }

    method LinkLast(node: Node)
      requires Ring() && head != null && node !in nodes
      modifies node`bucketPrev, node`bucketNext, node`bucket, Members(nodes)`bucketPrev, Members(nodes)`bucketNext
      ensures Linked(this, nodes + [node])
    {
      var first := head;
      var last := first.bucketPrev;
      assert first == nodes[0] && last == nodes[Pred(|nodes|, 0)];
      node.bucketNext := first;
      node.bucketPrev := last;
      last.bucketNext := node;
      first.bucketPrev := node;
      node.bucket := this;
    }

    /** The unlinking part of bucket_remove_. */
    method Remove(node: Node)
      requires Ring() && node in nodes
      modifies this`head, this`nodes, node`bucket, Members(nodes)`bucketPrev, Members(nodes)`bucketNext
      ensures forall n: Node :: old(allocated(n)) ==>
                n.allNext == old(n.allNext) && n.allPrev == old(n.allPrev) && n.hash == old(n.hash)
      ensures Ring() && nodes == Without(old(nodes), node) && node.bucket == null
    {
      ghost var k :| 0 <= k < |nodes| && nodes[k] == node;
      ghost var rest := Without(nodes, node);
      WithoutAt(nodes, k);
      CutOut(node, k, rest);
      nodes := rest;
    }

    method CutOut(node: Node, ghost k: nat, ghost rest: seq<Node>)
      requires Ring() && k < |nodes| && nodes[k] == node && rest == nodes[..k] + nodes[k + 1..]
      modifies this`head, node`bucket, Members(nodes)`bucketPrev, Members(nodes)`bucketNext
      ensures node.bucket == null && Linked(this, rest) && head == if rest == [] then null else rest[0]
    {
      LeaveHead(node, k);
      UnlinkAt(node, k, rest);
    }

    method UnlinkAt(node: Node, ghost k: nat, ghost rest: seq<Node>)
      requires k < |nodes| && nodes[k] == node && NoDup(nodes) && Linked(this, nodes)
      requires rest == nodes[..k] + nodes[k + 1..]
      modifies node`bucket, Members(nodes)`bucketPrev, Members(nodes)`bucketNext
      ensures node.bucket == null && Linked(this, rest)
    {
      Unlink(node, k);
      JoinedRing(this, nodes, k);
    }

    /** The head moves on if its node is to leave. */
    method LeaveHead(node: Node, ghost k: nat)
      requires Ring() && k < |nodes| && nodes[k] == node
      modifies this`head
      ensures head == if |nodes| == 1 then null else if k == 0 then nodes[1] else nodes[0]
    {
      if head == node {
        if node.bucketNext != node {
          head := node.bucketNext;
        } else {
          head := null;
        }
      }
    }

    method Unlink(node: Node, ghost k: nat)
      requires k < |nodes| && nodes[k] == node && NoDup(nodes) && Linked(this, nodes)
      modifies node`bucket, Members(nodes)`bucketPrev, Members(nodes)`bucketNext
      ensures node.bucket == null
      ensures forall j {:trigger Joined(this, nodes, k, j)} :: 0 <= j < |nodes| && j != k ==> Joined(this, nodes, k, j)
    {
      var p, q := node.bucketPrev, node.bucketNext;
      assert p == nodes[Pred(|nodes|, k)] && q == nodes[Succ(|nodes|, k)];
      p.bucketNext := q;
      q.bucketPrev := p;
      node.bucket := null;
    }
  }

  ghost predicate Linked(b: Bucket, s: seq<Node>)
    reads s
  {
    && (forall i {:trigger s[i].bucketNext} :: 0 <= i < |s| ==> s[i].bucketNext == s[Succ(|s|, i)])
    && (forall i {:trigger s[i].bucketPrev} :: 0 <= i < |s| ==> s[i].bucketPrev == s[Pred(|s|, i)])
    && (forall i {:trigger s[i].bucket} :: 0 <= i < |s| ==> s[i].bucket == b)
  }

  /** The neighbours of position `j` once position `k` is unlinked. */
  ghost predicate Joined(b: Bucket, s: seq<Node>, k: nat, j: nat)
    requires k < |s| && j < |s|
    reads s
  {
    && s[j].bucketNext == s[if j == Pred(|s|, k) then Succ(|s|, k) else Succ(|s|, j)]
    && s[j].bucketPrev == s[if j == Succ(|s|, k) then Pred(|s|, k) else Pred(|s|, j)]
    && s[j].bucket == b
  }

  lemma JoinedRing(b: Bucket, s: seq<Node>, k: nat)
    requires k < |s|
    requires forall j {:trigger Joined(b, s, k, j)} :: 0 <= j < |s| && j != k ==> Joined(b, s, k, j)
    ensures Linked(b, s[..k] + s[k + 1..])
  {
    var t := s[..k] + s[k + 1..];
    forall i | 0 <= i < |t|
      ensures t[i].bucketNext == t[Succ(|t|, i)] && t[i].bucketPrev == t[Pred(|t|, i)] && t[i].bucket == b
    {
      GapNeighbours(s, k, t, i);
      assert Joined(b, s, k, Skip(k, i));
    }
  }

  function Succ(len: nat, i: nat): nat
    requires i < len
  {
    if i + 1 < len then i + 1 else 0
  }

  function Pred(len: nat, i: nat): nat
    requires i < len
  {
    if i > 0 then i - 1 else len - 1
  }

  /** Where position `i` was before position `k` was cut out. */
  function Skip(k: nat, i: nat): nat {
    if i < k then i else i + 1
  }

  /** Cutting out position `k` of a ring joins its two neighbours and no others. */
  lemma GapNeighbours<N>(s: seq<N>, k: nat, t: seq<N>, i: nat)
    requires k < |s| && t == s[..k] + s[k + 1..] && i < |t|
    ensures t[i] == s[Skip(k, i)]
    ensures t[Succ(|t|, i)] == s[if Skip(k, i) == Pred(|s|, k) then Succ(|s|, k) else Succ(|s|, Skip(k, i))]
    ensures t[Pred(|t|, i)] == s[if Skip(k, i) == Succ(|s|, k) then Pred(|s|, k) else Pred(|s|, Skip(k, i))]
  {
  }

  ghost function Members(s: seq<Node>): set<Node> {
    set n | n in s
  }

  lemma {:induction false} WithoutAt<N>(s: seq<N>, k: nat)
    requires NoDup(s) && k < |s|
    ensures Without(s, s[k]) == s[..k] + s[k + 1..]
  {
    var t := s[..|s| - 1];
    if k < |s| - 1 {
      WithoutAt(t, k);
      assert t[..k] == s[..k] && t[k + 1..] + [s[|s| - 1]] == s[k + 1..];
      assert t[..k] + t[k + 1..] + [s[|s| - 1]] == t[..k] + (t[k + 1..] + [s[|s| - 1]]);
    } else {
      assert s[k] !in t;
      assert s[..k] + s[k + 1..] == t;
    }
  }
}
