/** Every step of every thread keeps the queue invariant. */
module MpscQueueSteps {
  import opened Wrappers
  import opened MpscQueue
  import opened MpscQueueInvariant

  // ----- how the three kinds of memory change act on the chain

  /** The pushes behind the chain's links, but for link `skip`, are no further in `s'` than in `s`. */
  predicate SamePending(s: State, s': State, base: nat, skip: int) {
    forall k {:trigger s.log[k + 1]} :: base <= k < |s.log| - 1 && k != skip ==>
      Pending(s, s.log[k + 1], s.log[k].node) ==> Pending(s', s.log[k + 1], s.log[k].node)
  }

  lemma ChainSame(s: State, s': State, base: nat)
    requires ChainOk(s, base)
    requires s'.log == s.log && s'.head == s.head && s'.tail == s.tail
    requires forall i :: base <= i < |s.log| ==> Next(s', s.log[i].node) == Next(s, s.log[i].node)
    requires SamePending(s, s', base, -1)
    ensures ChainOk(s', base)
  {
    forall i | base <= i < |s'.log| - 1 ensures LinkOk(s', i) {
      assert LinkOk(s, i);
    }
  }

  /** An exchange of `tail_` appends one unlinked node. */
  lemma ChainExtend(s: State, s': State, base: nat, e: Entry)
    requires ChainOk(s, base)
    requires s'.log == s.log + [e] && s'.head == s.head && s'.tail == e.node && s'.next == s.next
    requires !InChain(s, base, e.node) && Next(s, e.node) == None
    requires Pending(s', e, s.tail)
    requires SamePending(s, s', base, -1)
    ensures ChainOk(s', base)
    ensures Gap(s', base, e.writer, e.node, s.tail)
    ensures forall n :: InChain(s', base, n) <==> InChain(s, base, n) || n == e.node
  {
    assert GapAt(s', base, |s.log| - 1, e.writer, e.node, s.tail);
    forall i | base <= i < |s'.log| - 1 ensures LinkOk(s', i) {
      if i < |s.log| - 1 { assert LinkOk(s, i); }
    }
    assert s'.log[|s.log|] == e;
    forall n | InChain(s, base, n) ensures InChain(s', base, n) {
      var i :| base <= i < |s.log| && s.log[i].node == n;
      assert s'.log[i].node == n;
    }
  }

  /** A link store closes one gap. */
  lemma ChainClose(s: State, s': State, base: nat, i: nat, writer: Option<Pid>, node: Node, prev: Node)
    requires ChainOk(s, base) && GapAt(s, base, i, writer, node, prev)
    requires s'.log == s.log && s'.head == s.head && s'.tail == s.tail
    requires s'.next == s.next[prev := Some(node)]
    requires SamePending(s, s', base, i)
    ensures ChainOk(s', base)
  {
    forall k | base <= k < |s'.log| - 1 ensures LinkOk(s', k) {
      assert LinkOk(s, k);
    }
  }

  /** A store to `head_` drops the first node of the chain. */
  lemma ChainAdvance(s: State, s': State, base: nat)
    requires ChainOk(s, base) && Next(s, s.head).Some?
    requires s'.log == s.log && s'.next == s.next && s'.tail == s.tail && Some(s'.head) == Next(s, s.head)
    requires SamePending(s, s', base, -1)
    ensures ChainOk(s', base + 1)
    ensures forall n :: InChain(s, base, n) <==> n == s.head || InChain(s', base + 1, n)
    ensures !InChain(s', base + 1, s.head)
  {
    assert LinkOk(s, base);
    forall k | base + 1 <= k < |s'.log| - 1 ensures LinkOk(s', k) {
      assert LinkOk(s, k);
    }
    assert s.log[base].node == s.head;
  }

  // ----- what a step leaves alone

  /** `to` is `base`, or the next index if the head that was there is linked. */
  lemma GapKept(s: State, s': State, base: nat, to: nat, writer: Option<Pid>, node: Node, prev: Node)
    requires Ends(s, base) && (to == base || (to == base + 1 && Next(s, s.head).Some?))
    requires Gap(s, base, writer, node, prev)
    requires s.log <= s'.log && Next(s', prev) == None
    ensures Gap(s', to, writer, node, prev)
  {
    var i :| GapAt(s, base, i, writer, node, prev);
    assert GapAt(s', to, i, writer, node, prev);
  }

  lemma ProducerKept(s: State, s': State, base: nat, to: nat, q: Pid)
    requires Ends(s, base) && (to == base || (to == base + 1 && Next(s, s.head).Some?))
    requires q in s.producers && q in s'.producers && s'.producers[q] == s.producers[q]
    requires ProducerOk(s, base, q)
    requires s.log <= s'.log && (!s.producers[q].ChangeOwner? ==> s.producers[q].node in s'.owned)
    requires Holds(s, q) ==> s'.consumer != Release(s.producers[q].node)
    requires Holds(s, q) ==> forall i :: |s.log| <= i < |s'.log| ==> s'.log[i].node != s.producers[q].node
    requires s.producers[q].Exchange? ==> Next(s', s.producers[q].node) == None
    requires s.producers[q].Link? ==> Next(s', s.producers[q].prev) == None
    ensures ProducerOk(s', to, q)
  {
    if s.producers[q].Link? {
      GapKept(s, s', base, to, Some(q), s.producers[q].node, s.producers[q].prev);
    }
  }

  lemma ConsumerKept(s: State, s': State, base: nat)
    requires Ends(s, base) && ConsumerOk(s, base)
    requires s'.consumer == s.consumer && s'.head == s.head && s.log <= s'.log && s.owned <= s'.owned
    requires forall i :: |s.log| <= i < |s'.log| ==>
                s'.log[i].node.User? && s.consumer != Release(s'.log[i].node)
    requires Next(s, s.head).Some? ==> Next(s', s.head) == Next(s, s.head)
    requires s.consumer.StubExchange? ==> Next(s', Stub) == None
    requires s.consumer.StubLink? ==> Next(s', s.consumer.prev) == None
    ensures ConsumerOk(s', base)
  {
    if s.consumer.StubLink? {
      GapKept(s, s', base, base, None, Stub, s.consumer.prev);
    }
  }

  /** Ownership is unaffected when no thread starts or stops holding a node. */
  lemma OwnersKept(s: State, s': State, base: nat, to: nat)
    requires OwnersOk(s, base)
    requires s'.owned == s.owned
    requires forall q :: Holds(s', q) <==> Holds(s, q)
    requires forall q :: Holds(s, q) && Holds(s', q) ==> s'.producers[q].node == s.producers[q].node
    requires forall n: Node :: n.User? ==>
               (InChain(s', to, n) || s'.consumer == Release(n) <==> InChain(s, base, n) || s.consumer == Release(n))
    ensures OwnersOk(s', to)
  {
    forall m ensures HeldBySome(s', m) <==> HeldBySome(s, m) { }
  }

  // ----- producer steps

  lemma ProducerCalls(s: State, s': State, base: nat, p: Pid, n: Node)
    requires InvAt(s, base) && p !in s.producers && n.User?
    requires s' == s.(producers := s.producers[p := ChangeOwner(n)], calls := s.calls + [Entry(n, Some(p))])
    ensures InvAt(s', base)
  {
    assert ChainOk(s', base) by { ChainSame(s, s', base); }
    assert ConsumerOk(s', base) by { ConsumerKept(s, s', base); }
    assert OwnersOk(s', base) by { OwnersKept(s, s', base, base); }
    assert ProducersOk(s', base) by { CallProducers(s, s', base, p, n); }
  }

  lemma CallProducers(s: State, s': State, base: nat, p: Pid, n: Node)
    requires Ends(s, base) && ProducersOk(s, base) && p !in s.producers && n.User?
    requires s' == s.(producers := s.producers[p := ChangeOwner(n)], calls := s.calls + [Entry(n, Some(p))])
    ensures ProducersOk(s', base)
  {
    forall q | q in s'.producers ensures ProducerOk(s', base, q) {
      if q != p { ProducerKept(s, s', base, base, q); }
    }
  }

  lemma ProducerClaims(s: State, s': State, base: nat, p: Pid)
    requires InvAt(s, base) && p in s.producers && s.producers[p].ChangeOwner?
    requires s.producers[p].node !in s.owned
    requires s' == ProducerStep(s, p)
    ensures InvAt(s', base)
  {
    assert ChainOk(s', base) by { ChainSame(s, s', base); }
    assert ConsumerOk(s', base) by { ConsumerKept(s, s', base); }
    assert OwnersOk(s', base) by { OwnerAdded(s, s', base, p); }
    assert ProducersOk(s', base) by {
      forall q | q in s'.producers ensures ProducerOk(s', base, q) {
        if q != p { ProducerKept(s, s', base, base, q); }
      }
    }
  }

  lemma OwnerAdded(s: State, s': State, base: nat, p: Pid)
    requires OwnersOk(s, base)
    requires p in s.producers && s.producers[p].ChangeOwner? && s.producers[p].node.User?
    requires s.producers[p].node !in s.owned
    requires s' == ProducerStep(s, p)
    ensures OwnersOk(s', base)
  {
    var n := s.producers[p].node;
    assert Holds(s', p);
    forall m ensures HeldBySome(s', m) <==> HeldBySome(s, m) || m == n {
      if HeldBySome(s, m) {
        var q :| Holds(s, q) && s.producers[q].node == m;
        assert Holds(s', q);
      }
    }
    forall m ensures InChain(s', base, m) <==> InChain(s, base, m) { }
  }

  lemma ProducerClears(s: State, s': State, base: nat, p: Pid)
    requires InvAt(s, base) && p in s.producers && s.producers[p].ClearNext?
    requires s' == ProducerStep(s, p)
    ensures InvAt(s', base)
  {
    assert ProducerOk(s, base, p);
    ClearChain(s, s', base, p);
    ClearOwners(s, s', base, p);
    ClearProducers(s, s', base, p);
  }

  lemma ClearChain(s: State, s': State, base: nat, p: Pid)
    requires ChainOk(s, base) && ConsumerOk(s, base) && p in s.producers && s.producers[p].ClearNext?
    requires ProducerOk(s, base, p)
    requires s' == ProducerStep(s, p)
    ensures ChainOk(s', base) && ConsumerOk(s', base)
  {
    ChainSame(s, s', base);
    ConsumerKept(s, s', base);
  }

  lemma ClearOwners(s: State, s': State, base: nat, p: Pid)
    requires OwnersOk(s, base) && p in s.producers && s.producers[p].ClearNext? && s' == ProducerStep(s, p)
    ensures OwnersOk(s', base)
  {
    OwnersKept(s, s', base, base);
  }

  lemma ClearProducers(s: State, s': State, base: nat, p: Pid)
    requires Ends(s, base) && ProducersOk(s, base) && p in s.producers && s.producers[p].ClearNext?
    requires s' == ProducerStep(s, p)
    ensures ProducersOk(s', base)
  {
    assert ProducerOk(s, base, p);
    forall q | q in s'.producers ensures ProducerOk(s', base, q) {
      if q != p { ProducerKept(s, s', base, base, q); }
    }
  }

  lemma ProducerExchanges(s: State, s': State, base: nat, p: Pid)
    requires InvAt(s, base) && p in s.producers && s.producers[p].Exchange?
    requires s' == ProducerStep(s, p)
    ensures InvAt(s', base)
  {
    assert ProducerOk(s, base, p);
    ExchangeChain(s, s', base, p);
    ExchangeConsumer(s, s', base, p);
    ExchangeProducers(s, s', base, p);
    ExchangeOwners(s, s', base, p);
    assert s'.log[..base] == s.log[..base];
  }

  lemma ExchangeChain(s: State, s': State, base: nat, p: Pid)
    requires ChainOk(s, base) && p in s.producers && s.producers[p].Exchange? && ProducerOk(s, base, p)
    requires s' == ProducerStep(s, p)
    ensures ChainOk(s', base) && Gap(s', base, Some(p), s.producers[p].node, s.tail)
    ensures forall n :: InChain(s', base, n) <==> InChain(s, base, n) || n == s.producers[p].node
  {
    ChainExtend(s, s', base, Entry(s.producers[p].node, Some(p)));
  }

  lemma ExchangeConsumer(s: State, s': State, base: nat, p: Pid)
    requires Ends(s, base) && ConsumerOk(s, base) && p in s.producers && s.producers[p].Exchange?
    requires ProducerOk(s, base, p)
    requires s' == ProducerStep(s, p)
    ensures ConsumerOk(s', base)
  {
    ConsumerKept(s, s', base);
  }

  lemma ExchangeProducers(s: State, s': State, base: nat, p: Pid)
    requires Ends(s, base) && ProducersOk(s, base) && p in s.producers && s.producers[p].Exchange?
    requires s' == ProducerStep(s, p)
    requires Gap(s', base, Some(p), s.producers[p].node, s.tail)
    ensures ProducersOk(s', base)
  {
    assert ProducerOk(s, base, p);
    forall q | q in s'.producers ensures ProducerOk(s', base, q) {
      if q != p { ProducerKept(s, s', base, base, q); }
    }
  }

  lemma ExchangeOwners(s: State, s': State, base: nat, p: Pid)
    requires OwnersOk(s, base) && p in s.producers && s.producers[p].Exchange?
    requires s' == ProducerStep(s, p)
    requires forall n :: InChain(s', base, n) <==> InChain(s, base, n) || n == s.producers[p].node
    ensures OwnersOk(s', base)
  {
    var n := s.producers[p].node;
    assert Holds(s, p);
    forall m ensures HeldBySome(s, m) || m == n <==> HeldBySome(s', m) || m == n {
      if HeldBySome(s, m) && m != n {
        var q :| Holds(s, q) && s.producers[q].node == m;
        assert Holds(s', q);
      }
    }
  }

  lemma ProducerLinks(s: State, s': State, base: nat, p: Pid)
    requires InvAt(s, base) && p in s.producers && s.producers[p].Link?
    requires s' == ProducerStep(s, p)
    ensures InvAt(s', base)
  {
    assert ProducerOk(s, base, p);
    LinkChain(s, s', base, p);
    LinkConsumer(s, s', base, p);
    LinkOthers(s, s', base, p);
    LinkOwners(s, s', base, p);
  }

  lemma LinkChain(s: State, s': State, base: nat, p: Pid)
    requires ChainOk(s, base) && p in s.producers && s.producers[p].Link? && ProducerOk(s, base, p)
    requires s' == ProducerStep(s, p)
    ensures ChainOk(s', base)
  {
    var n, prev := s.producers[p].node, s.producers[p].prev;
    var i := GapIndex(s, base, Some(p), n, prev);
    ChainClose(s, s', base, i, Some(p), n, prev);
  }

  lemma LinkConsumer(s: State, s': State, base: nat, p: Pid)
    requires ChainOk(s, base) && ConsumerOk(s, base) && p in s.producers && s.producers[p].Link?
    requires ProducerOk(s, base, p)
    requires s' == ProducerStep(s, p)
    ensures ConsumerOk(s', base)
  {
    var n, prev := s.producers[p].node, s.producers[p].prev;
    var i := GapIndex(s, base, Some(p), n, prev);
    OtherGap(s, base, i, Some(p), n, prev);
    ConsumerKept(s, s', base);
  }

  lemma LinkOthers(s: State, s': State, base: nat, p: Pid)
    requires ChainOk(s, base) && ProducersOk(s, base) && p in s.producers && s.producers[p].Link?
    requires s' == ProducerStep(s, p)
    ensures ProducersOk(s', base)
  {
    var n, prev := s.producers[p].node, s.producers[p].prev;
    assert ProducerOk(s, base, p);
    var i := GapIndex(s, base, Some(p), n, prev);
    OtherGap(s, base, i, Some(p), n, prev);
    LinkProducers(s, s', base, p);
  }

  lemma LinkOwners(s: State, s': State, base: nat, p: Pid)
    requires OwnersOk(s, base) && p in s.producers && s.producers[p].Link? && s' == ProducerStep(s, p)
    ensures OwnersOk(s', base)
  {
    OwnersKept(s, s', base, base);
  }

  lemma LinkProducers(s: State, s': State, base: nat, p: Pid)
    requires Ends(s, base) && ProducersOk(s, base) && p in s.producers && s.producers[p].Link?
    requires s' == ProducerStep(s, p)
    requires forall w, m, r :: w != Some(p) && Gap(s, base, w, m, r) ==> r != s.producers[p].prev
    requires forall q :: q in s.producers && s.producers[q].Exchange? ==> s.producers[q].node != s.producers[p].prev
    ensures ProducersOk(s', base)
  {
    forall q | q in s'.producers ensures ProducerOk(s', base, q) {
      assert ProducerOk(s, base, q);
      ProducerKept(s, s', base, base, q);
    }
  }

  lemma GapIndex(s: State, base: nat, writer: Option<Pid>, node: Node, prev: Node) returns (i: nat)
    requires Gap(s, base, writer, node, prev)
    ensures GapAt(s, base, i, writer, node, prev)
    ensures InChain(s, base, prev)
  {
    i :| GapAt(s, base, i, writer, node, prev);
  }

  /** No two pushes wait to link to the same node. */
  lemma OtherGap(s: State, base: nat, i: nat, writer: Option<Pid>, node: Node, prev: Node)
    requires Distinct(s, base) && GapAt(s, base, i, writer, node, prev)
    ensures forall w, m, p :: w != writer && Gap(s, base, w, m, p) ==> p != prev
  {
    forall w, m, p | w != writer && Gap(s, base, w, m, p) ensures p != prev {
      var k :| GapAt(s, base, k, w, m, p);
    }
  }

  // ----- consumer steps

  /** A load changes nothing but the consumer's program counter. */
  lemma ConsumerLoads(s: State, s': State, base: nat)
    requires InvAt(s, base)
    requires s' == s.(consumer := s'.consumer)
    requires !s.consumer.Release? && !s.consumer.StubLink? && !s'.consumer.Release? && !s'.consumer.StubLink?
    requires ConsumerOk(s', base)
    ensures InvAt(s', base)
  {
    assert ChainOk(s', base) by { ChainSame(s, s', base); }
    assert OwnersOk(s', base) by { OwnersKept(s, s', base, base); }
    assert ProducersOk(s', base) by { LoadProducers(s, s', base); }
  }

  lemma LoadProducers(s: State, s': State, base: nat)
    requires Ends(s, base) && ProducersOk(s, base)
    requires s' == s.(consumer := s'.consumer) && !s'.consumer.Release?
    ensures ProducersOk(s', base)
  {
    forall q | q in s'.producers ensures ProducerOk(s', base, q) {
      ProducerKept(s, s', base, base, q);
    }
  }

  predicate IsLoad(c: Consumer) {
    c.LoadHead? || c.LoadNext? || c.CheckEmpty? || c.TryWait? || c.Spin? || c.ReloadNext? || c.CheckLast?
  }

  lemma LoadKeepsInv(s: State, s': State, base: nat)
    requires InvAt(s, base) && IsLoad(s.consumer) && s' == ConsumerStep(s)
    ensures InvAt(s', base)
  {
    assert ConsumerOk(s', base) by { LoadsOk(s, base); }
    ConsumerLoads(s, s', base);
  }

  /** Every consumer step that only loads lands in a state its locals describe. */
  lemma LoadsOk(s: State, base: nat)
    requires ChainOk(s, base) && ConsumerOk(s, base)
    requires IsLoad(s.consumer)
    ensures ConsumerOk(ConsumerStep(s), base)
  {
    var s' := ConsumerStep(s);
    assert base + 1 < |s.log| <== s.tail != s.head;
    if s'.consumer.StubClear? {
      assert |s.log| - 1 == base;
    }
  }

  lemma ConsumerDropsStub(s: State, s': State, base: nat)
    requires InvAt(s, base) && s.consumer.DropStub? && s' == ConsumerStep(s)
    ensures InvAt(s', base + 1)
  {
    ChainAdvance(s, s', base);
    assert OwnersOk(s', base + 1) by { OwnersKept(s, s', base, base + 1); }
    assert ProducersOk(s', base + 1) by { AdvanceProducers(s, s', base); }
    assert HistoryOk(s', base + 1) by { assert s.log[..base + 1][..base] == s.log[..base]; }
    assert LinkOk(s, base);
    assert s.log[base + 1].node != s.log[base].node;
  }

  lemma ConsumerAdvances(s: State, s': State, base: nat)
    requires InvAt(s, base) && s.consumer.Advance? && s' == ConsumerStep(s)
    ensures InvAt(s', base + 1)
  {
    ChainAdvance(s, s', base);
    assert InChain(s, base, s.head);
    assert OwnersOk(s', base + 1) by { OwnersKept(s, s', base, base + 1); }
    assert ProducersOk(s', base + 1) by { AdvanceProducers(s, s', base); }
    assert HistoryOk(s', base + 1) by { assert s.log[..base + 1][..base] == s.log[..base]; }
  }

  lemma AdvanceProducers(s: State, s': State, base: nat)
    requires Ends(s, base) && ProducersOk(s, base) && InChain(s, base, s.head)
    requires Next(s, s.head).Some?
    requires s'.producers == s.producers && s'.owned == s.owned && s'.next == s.next && s'.log == s.log
    requires s'.consumer == Release(s.head) || !s'.consumer.Release?
    ensures ProducersOk(s', base + 1)
  {
    forall q | q in s'.producers ensures ProducerOk(s', base + 1, q) {
      assert ProducerOk(s, base, q);
      ProducerKept(s, s', base, base + 1, q);
    }
  }

  lemma ConsumerReleases(s: State, s': State, base: nat)
    requires InvAt(s, base) && s.consumer.Release? && s' == ConsumerStep(s)
    ensures InvAt(s', base) && !s'.panicked == !s.panicked
  {
    var h := s.consumer.head;
    assert ChainOk(s', base) by { ChainSame(s, s', base); }
    assert OwnersOk(s', base) by { ReleaseOwners(s, s', base); }
    assert ProducersOk(s', base) by { ReleaseProducers(s, s', base); }
  }

  lemma ReleaseOwners(s: State, s': State, base: nat)
    requires base < |s.log| && OwnersOk(s, base) && ProducersOk(s, base) && ConsumerOk(s, base)
    requires s.consumer.Release? && s' == ConsumerStep(s)
    ensures OwnersOk(s', base)
  {
    forall m ensures HeldBySome(s', m) <==> HeldBySome(s, m) { }
    forall m ensures InChain(s', base, m) <==> InChain(s, base, m) { }
  }

  lemma ReleaseProducers(s: State, s': State, base: nat)
    requires Ends(s, base) && ProducersOk(s, base) && ConsumerOk(s, base)
    requires s.consumer.Release? && s' == ConsumerStep(s)
    ensures ProducersOk(s', base)
  {
    var h := s.consumer.head;
    forall q | q in s'.producers ensures ProducerOk(s', base, q) {
      assert ProducerOk(s, base, q);
      if s.producers[q].Link? {
        var i := GapIndex(s, base, Some(q), s.producers[q].node, s.producers[q].prev);
        assert InChain(s, base, s.log[i + 1].node);
      }
      ProducerKept(s, s', base, base, q);
    }
  }

  lemma StubCleared(s: State, s': State, base: nat)
    requires InvAt(s, base) && s.consumer.StubClear? && s' == ConsumerStep(s)
    ensures InvAt(s', base)
  {
    assert ChainOk(s', base) by { ChainSame(s, s', base); }
    assert OwnersOk(s', base) by { OwnersKept(s, s', base, base); }
    assert ProducersOk(s', base) by {
      forall q | q in s'.producers ensures ProducerOk(s', base, q) {
        assert ProducerOk(s, base, q);
        ProducerKept(s, s', base, base, q);
      }
    }
  }

  lemma StubExchanged(s: State, s': State, base: nat)
    requires InvAt(s, base) && s.consumer.StubExchange? && s' == ConsumerStep(s)
    ensures InvAt(s', base)
  {
    ChainExtend(s, s', base, Entry(Stub, None));
    assert OwnersOk(s', base) by { OwnersKept(s, s', base, base); }
    assert ProducersOk(s', base) by {
      forall q | q in s'.producers ensures ProducerOk(s', base, q) {
        assert ProducerOk(s, base, q);
        ProducerKept(s, s', base, base, q);
      }
    }
    assert s'.log[..base] == s.log[..base];
  }

  lemma StubLinked(s: State, s': State, base: nat)
    requires InvAt(s, base) && s.consumer.StubLink? && s' == ConsumerStep(s)
    ensures InvAt(s', base)
  {
    var prev := s.consumer.prev;
    var i := GapIndex(s, base, None, Stub, prev);
    OtherGap(s, base, i, None, Stub, prev);
    assert ChainOk(s', base) by { ChainClose(s, s', base, i, None, Stub, prev); }
    assert OwnersOk(s', base) by { OwnersKept(s, s', base, base); }
    assert ProducersOk(s', base) by {
      forall q | q in s'.producers ensures ProducerOk(s', base, q) {
        assert ProducerOk(s, base, q);
        ProducerKept(s, s', base, base, q);
      }
    }
  }

  /** The head moves past a node only when its link is there, so `base` grows by one at most. */
  lemma StepKeepsInv(s: State, a: Action, base: nat)
    requires InvAt(s, base) && Enabled(s, a)
    ensures InvAt(Apply(s, a), base) || InvAt(Apply(s, a), base + 1)
  {
    var s' := Apply(s, a);
    match a
    case Push(p, n) => ProducerCalls(s, s', base, p, n);
    case Produce(p) => ProduceKeepsInv(s, base, p);
    case Pop(spin) => ConsumerLoads(s, s', base);
    case Consume => ConsumeKeepsInv(s, base);
  }

  lemma ProduceKeepsInv(s: State, base: nat, p: Pid)
    requires InvAt(s, base) && p in s.producers
    ensures InvAt(ProducerStep(s, p), base)
  {
    var s' := ProducerStep(s, p);
    match s.producers[p]
    case ChangeOwner(n) =>
      if n in s.owned { PanicKeepsInv(s, s', base); } else { ProducerClaims(s, s', base, p); }
    case ClearNext(n) => ProducerClears(s, s', base, p);
    case Exchange(n) => ProducerExchanges(s, s', base, p);
    case Link(n, prev) => ProducerLinks(s, s', base, p);
  }

  lemma PanicKeepsInv(s: State, s': State, base: nat)
    requires InvAt(s, base) && s' == s.(panicked := true)
    ensures InvAt(s', base)
  {
    assert ChainOk(s', base) by { ChainSame(s, s', base); }
    assert ConsumerOk(s', base) by { ConsumerKept(s, s', base); }
    assert OwnersOk(s', base) by { OwnersKept(s, s', base, base); }
    assert ProducersOk(s', base) by {
      forall q | q in s'.producers ensures ProducerOk(s', base, q) {
        ProducerKept(s, s', base, base, q);
      }
    }
  }

  lemma ConsumeKeepsInv(s: State, base: nat)
    requires InvAt(s, base) && !s.consumer.Idle? && !s.consumer.Returned?
    ensures InvAt(ConsumerStep(s), base) || InvAt(ConsumerStep(s), base + 1)
  {
    var s' := ConsumerStep(s);
    match s.consumer
    case DropStub(_, _) => ConsumerDropsStub(s, s', base);
    case StubClear(_, _) => StubCleared(s, s', base);
    case StubExchange(_, _) => StubExchanged(s, s', base);
    case StubLink(_, _, _) => StubLinked(s, s', base);
    case Advance(_, _) => ConsumerAdvances(s, s', base);
    case Release(_) => ConsumerReleases(s, s', base);
    case _ => LoadKeepsInv(s, s', base);
  }
}
