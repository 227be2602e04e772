/**
  The inductive invariant of the queue.  `base` is the log index of `head_`:
  the entries from `base` on are the chain of nodes from `head_` to `tail_`,
  which is broken exactly where a push is between its exchange and its link.
 */
module MpscQueueInvariant {
  import opened Wrappers
  import opened MpscQueue

  ghost predicate InChain(s: State, base: nat, n: Node) {
    exists i :: base <= i < |s.log| && s.log[i].node == n
  }

  /** Producer `p` has taken its node from the caller and not yet put it in the chain. */
  predicate Holds(s: State, p: Pid) {
    p in s.producers && (s.producers[p].ClearNext? || s.producers[p].Exchange?)
  }

  /** The push that wrote log entry `e` right after `prev` has not linked the two yet. */
  predicate Pending(s: State, e: Entry, prev: Node) {
    match e.writer
    case Some(p) => p in s.producers && s.producers[p] == Link(e.node, prev)
    case None => s.consumer.StubLink? && e.node == Stub && s.consumer.prev == prev
  }

  /** Log entries `i` and `i + 1` are linked, or their push is still between exchange and link. */
  predicate LinkOk(s: State, i: nat)
    requires i + 1 < |s.log|
  {
    var prev := s.log[i].node;
    || Next(s, prev) == Some(s.log[i + 1].node)
    || (Next(s, prev) == None && Pending(s, s.log[i + 1], prev))
  }

  /** `writer` has put `node` after `prev` at log index `i + 1` and not linked it yet. */
  predicate GapAt(s: State, base: nat, i: nat, writer: Option<Pid>, node: Node, prev: Node) {
    && base <= i < |s.log| - 1
    && s.log[i].node == prev
    && s.log[i + 1] == Entry(node, writer)
    && Next(s, prev) == None
  }

  ghost predicate Gap(s: State, base: nat, writer: Option<Pid>, node: Node, prev: Node) {
    exists i :: GapAt(s, base, i, writer, node, prev)
  }

  predicate Ends(s: State, base: nat) {
    && base < |s.log|
    && s.head == s.log[base].node
    && s.tail == s.log[|s.log| - 1].node
    && Next(s, s.tail) == None
  }

  predicate Distinct(s: State, base: nat) {
    forall i, j :: base <= i < j < |s.log| ==> s.log[i].node != s.log[j].node
  }

  ghost predicate ChainOk(s: State, base: nat) {
    && Ends(s, base)
    && Distinct(s, base)
    && (forall i {:trigger LinkOk(s, i)} :: base <= i < |s.log| - 1 ==> LinkOk(s, i))
  }

  ghost predicate ProducerOk(s: State, base: nat, p: Pid)
    requires p in s.producers
  {
    var c := s.producers[p];
    && c.node.User?
    && (!c.ChangeOwner? ==> c.node in s.owned)
    && (Holds(s, p) ==> !InChain(s, base, c.node) && s.consumer != Release(c.node))
    && (c.Exchange? ==> Next(s, c.node) == None)
    && (c.Link? ==> Gap(s, base, Some(p), c.node, c.prev))
  }

  ghost predicate ProducersOk(s: State, base: nat) {
    && (forall p :: p in s.producers ==> ProducerOk(s, base, p))
    && (forall p, q :: p in s.producers && q in s.producers && p != q
                       && !s.producers[p].ChangeOwner? && !s.producers[q].ChangeOwner?
                       ==> s.producers[p].node != s.producers[q].node)
  }

  ghost predicate ConsumerOk(s: State, base: nat)
    requires base < |s.log|
  {
    match s.consumer
    case LoadNext(_, h) => h == s.head
    case CheckEmpty(_) => s.head == Stub
    case TryWait(_, dropping, h, _) => h == s.head && dropping == (h == Stub) && base + 1 < |s.log|
    case Spin(dropping, h) => h == s.head && dropping == (h == Stub) && base + 1 < |s.log|
    case DropStub(_, next) => s.head == Stub && Next(s, Stub) == Some(next)
    case ReloadNext(_, h) => h == s.head && h != Stub
    case CheckLast(_, h) => h == s.head && h != Stub
    case StubClear(_, h) => h == s.head && h != Stub && !InChain(s, base, Stub)
    case StubExchange(_, h) => h == s.head && h != Stub && !InChain(s, base, Stub) && Next(s, Stub) == None
    case StubLink(_, h, prev) => h == s.head && h != Stub && Gap(s, base, None, Stub, prev)
    case Advance(h, next) => h == s.head && h != Stub && Next(s, h) == Some(next)
    case Release(h) => h.User? && !InChain(s, base, h) && h in s.owned
    case _ => true
  }

  /** A node's `queue` field is set exactly while some part of the queue has the node. */
  ghost predicate OwnersOk(s: State, base: nat) {
    forall n :: n in s.owned <==>
      n.User? && (InChain(s, base, n) || s.consumer == Release(n) || HeldBySome(s, n))
  }

  ghost predicate HeldBySome(s: State, n: Node) {
    exists p :: Holds(s, p) && s.producers[p].node == n
  }

  /** Pops came out in log order: everything before `base`, less a node about to be returned. */
  ghost predicate HistoryOk(s: State, base: nat)
    requires base < |s.log|
  {
    s.popped + (if s.consumer.Release? then [s.consumer.head] else []) == Users(s.log[..base])
  }

  ghost predicate InvAt(s: State, base: nat) {
    && ChainOk(s, base)
    && ProducersOk(s, base)
    && ConsumerOk(s, base)
    && OwnersOk(s, base)
    && HistoryOk(s, base)
  }

  ghost predicate Inv(s: State) {
    exists base :: InvAt(s, base)
  }

  lemma InitInv()
    ensures Inv(Init())
  {
    var s := Init();
    assert s.log[..0] == [];
    assert InvAt(s, 0);
  }
}
