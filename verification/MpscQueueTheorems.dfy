/** What the queue promises its callers, over every run. */
module MpscQueueTheorems {
  import opened MpscQueue
  import opened MpscQueueInvariant
  import opened MpscQueueSteps
  import opened Wrappers

  lemma {:induction false} RunKeepsInv(run: seq<State>, i: nat) returns (base: nat)
    requires IsRun(run) && i < |run|
    ensures InvAt(run[i], base)
  {
    if i == 0 {
      InitInv();
      base :| InvAt(run[i], base);
    } else {
      var b := RunKeepsInv(run, i - 1);
      var a := ActionAt(run, i - 1);
      StepKeepsInv(run[i - 1], a, b);
      base := if InvAt(run[i], b) then b else b + 1;
    }
  }

  lemma ActionAt(run: seq<State>, i: nat) returns (a: Action)
    requires IsRun(run) && i + 1 < |run|
    ensures Enabled(run[i], a) && run[i + 1] == Apply(run[i], a)
  {
    assert Step(run[i], run[i + 1]);
    a :| Enabled(run[i], a) && run[i + 1] == Apply(run[i], a);
  }

  lemma {:induction false} UsersPrefix(log: seq<Entry>, k: nat)
    requires k <= |log|
    ensures Users(log[..k]) <= Users(log)
  {
    if k == |log| {
      assert log[..k] == log;
    } else {
      assert log[..|log| - 1][..k] == log[..k];
      UsersPrefix(log[..|log| - 1], k);
    }
  }

  lemma {:induction false} ByPrefix(log: seq<Entry>, k: nat, p: Pid)
    requires k <= |log|
    ensures By(log[..k], p) <= By(log, p)
  {
    if k == |log| {
      assert log[..k] == log;
    } else {
      assert log[..|log| - 1][..k] == log[..k];
      ByPrefix(log[..|log| - 1], k, p);
    }
  }

  /**
    Nothing is lost, duplicated or reordered: in every interleaving the pops so
    far are a prefix of the user nodes in the order of their tail exchanges.
   */
  lemma PopsFollowExchanges(run: seq<State>, i: nat)
    requires IsRun(run) && i < |run|
    ensures run[i].popped <= Users(run[i].log)
  {
    var base := RunKeepsInv(run, i);
    UsersPrefix(run[i].log, base);
  }

  /** What `p` has asked to push and has not exchanged yet. */
  function NotYet(s: State, p: Pid): seq<Node> {
    if p in s.producers && !s.producers[p].Link? then [s.producers[p].node] else []
  }

  /** Each producer's nodes enter the order of exchanges in the order of its own calls. */
  lemma {:induction false} CallsBecomeExchanges(run: seq<State>, i: nat, p: Pid)
    requires IsRun(run) && i < |run|
    ensures By(run[i].calls, p) == By(run[i].log, p) + NotYet(run[i], p)
  {
    if i > 0 {
      CallsBecomeExchanges(run, i - 1, p);
      var a := ActionAt(run, i - 1);
      var e := HistoryStep(run[i - 1], a, p);
      CallsMove(run[i - 1], run[i], e, p);
    }
  }

  /** The histories of `s'` are those of `s`, with `e` added to at most one of them. */
  predicate Moves(s: State, s': State, e: Entry, p: Pid) {
    || (s'.calls == s.calls && s'.log == s.log && NotYet(s', p) == NotYet(s, p))
    || (s'.calls == s.calls + [e] && s'.log == s.log && NotYet(s', p) == NotYet(s, p) + Part(e, p))
    || (s'.calls == s.calls && s'.log == s.log + [e] && NotYet(s, p) == Part(e, p) + NotYet(s', p))
  }

  lemma CallsMove(s: State, s': State, e: Entry, p: Pid)
    requires By(s.calls, p) == By(s.log, p) + NotYet(s, p)
    requires Moves(s, s', e, p)
    ensures By(s'.calls, p) == By(s'.log, p) + NotYet(s', p)
  {
    ByAppend(s.calls, e, p);
    ByAppend(s.log, e, p);
    StillSplit(By(s.calls, p), By(s.log, p), NotYet(s, p), Part(e, p), By(s'.calls, p), By(s'.log, p), NotYet(s', p));
  }

  lemma StillSplit<N>(a: seq<N>, b: seq<N>, n: seq<N>, part: seq<N>, a': seq<N>, b': seq<N>, n': seq<N>)
    requires a == b + n
    requires || (a' == a && b' == b && n' == n)
             || (a' == a + part && b' == b && n' == n + part)
             || (a' == a && b' == b + part && n == part + n')
    ensures a' == b' + n'
  {
    assert b + n + part == b + (n + part);
    assert b + (part + n') == b + part + n';
  }

  /** A step adds to at most one history, and moves `p`'s node from its call to the log. */
  lemma HistoryStep(s: State, a: Action, p: Pid) returns (e: Entry)
    requires Enabled(s, a)
    ensures Moves(s, Apply(s, a), e, p)
  {
    e := match a
      case Push(q, n) => Entry(n, Some(q))
      case Produce(q) => Entry(s.producers[q].node, Some(q))
      case _ => Entry(Stub, None);
  }

  lemma ByAppend(log: seq<Entry>, e: Entry, p: Pid)
    ensures By(log + [e], p) == By(log, p) + Part(e, p)
  {
    assert (log + [e])[..|log|] == log;
  }

  /** The log entries of user nodes. */
  function UserEntries(log: seq<Entry>): seq<Entry> {
    if log == [] then []
    else UserEntries(log[..|log| - 1]) + if log[|log| - 1].node == Stub then [] else [log[|log| - 1]]
  }

  lemma {:induction false} UsersAreEntries(log: seq<Entry>)
    ensures Users(log) == Nodes(UserEntries(log))
  {
    if log != [] {
      UsersAreEntries(log[..|log| - 1]);
    }
  }

  /** The pops so far, each with the producer of its exchange. */
  function PoppedEntries(s: State): seq<Entry> {
    if |s.popped| <= |UserEntries(s.log)| then UserEntries(s.log)[..|s.popped|] else []
  }

  /** Only user nodes have a producer. */
  predicate Tidy(log: seq<Entry>) {
    forall i :: 0 <= i < |log| ==> log[i].writer.Some? ==> log[i].node.User?
  }

  lemma {:induction false} LogIsTidy(run: seq<State>, i: nat)
    requires IsRun(run) && i < |run|
    ensures Tidy(run[i].log)
  {
    if i > 0 {
      LogIsTidy(run, i - 1);
      var a := ActionAt(run, i - 1);
      var base := ProducersAt(run, i - 1);
      StepKeepsTidy(run[i - 1], a, base, run[i]);
    }
  }

  lemma ProducersAt(run: seq<State>, i: nat) returns (base: nat)
    requires IsRun(run) && i < |run|
    ensures ProducersOk(run[i], base)
  {
    base := RunKeepsInv(run, i);
  }

  lemma StepKeepsTidy(s: State, a: Action, base: nat, s': State)
    requires Enabled(s, a) && Tidy(s.log) && ProducersOk(s, base) && s' == Apply(s, a)
    ensures Tidy(s'.log)
  {
    if a.Produce? { assert ProducerOk(s, base, a.q); }
  }

  lemma {:induction false} ByEntries(log: seq<Entry>, p: Pid)
    requires Tidy(log)
    ensures By(UserEntries(log), p) == By(log, p)
  {
    if log != [] {
      var init, e := log[..|log| - 1], log[|log| - 1];
      ByEntries(init, p);
      if e.node != Stub {
        ByAppend(UserEntries(init), e, p);
      } else {
        assert e.writer.None? && Part(e, p) == [];
        assert UserEntries(log) == UserEntries(init) && By(log, p) == By(init, p);
      }
    }
  }

  /** Each producer's nodes are popped in the order in which it pushed them. */
  lemma PopsFollowCalls(run: seq<State>, i: nat, p: Pid)
    requires IsRun(run) && i < |run|
    ensures Nodes(PoppedEntries(run[i])) == run[i].popped
    ensures By(PoppedEntries(run[i]), p) <= By(run[i].calls, p)
  {
    var s := run[i];
    PopsFollowExchanges(run, i);
    UsersAreEntries(s.log);
    LogIsTidy(run, i);
    ByEntries(s.log, p);
    ByPrefix(UserEntries(s.log), |s.popped|, p);
    CallsBecomeExchanges(run, i, p);
  }

  // ----- reuse of a popped node

  /** Index of the last log entry for `n`, or -1. */
  function LastIndex(log: seq<Entry>, n: Node): (k: int)
    ensures -1 <= k < |log|
    ensures k >= 0 ==> log[k].node == n
    ensures forall j :: k < j < |log| ==> log[j].node != n
  {
    if log == [] then -1
    else if log[|log| - 1].node == n then |log| - 1
    else LastIndex(log[..|log| - 1], n)
  }

  /** The nodes from `head_` to `tail_`, whether or not their links are stored yet. */
  function Chain(s: State): seq<Node> {
    var k := LastIndex(s.log, s.head);
    if k < 0 then [] else Nodes(s.log[k..])
  }

  function Nodes(log: seq<Entry>): (r: seq<Node>)
    ensures |r| == |log| && forall i :: 0 <= i < |log| ==> r[i] == log[i].node
  {
    seq(|log|, i requires 0 <= i < |log| => log[i].node)
  }

  lemma ChainFrom(s: State, base: nat)
    requires ChainOk(s, base)
    ensures LastIndex(s.log, s.head) == base
    ensures Chain(s) == Nodes(s.log[base..])
    ensures forall n :: n in Chain(s) <==> InChain(s, base, n)
  {
    var k := LastIndex(s.log, s.head);
    assert s.log[base].node == s.head;
    assert k == base;
    forall n | InChain(s, base, n) ensures n in Chain(s) {
      var i :| base <= i < |s.log| && s.log[i].node == n;
      assert Chain(s)[i - base] == n;
    }
  }

  /** The stub, like every node, is in the chain at most once. */
  lemma ChainHasNoRepeats(run: seq<State>, i: nat)
    requires IsRun(run) && i < |run|
    ensures |Chain(run[i])| > 0 && Chain(run[i])[0] == run[i].head
    ensures Chain(run[i])[|Chain(run[i])| - 1] == run[i].tail
    ensures forall j, k :: 0 <= j < k < |Chain(run[i])| ==> Chain(run[i])[j] != Chain(run[i])[k]
  {
    var base := RunKeepsInv(run, i);
    ChainFrom(run[i], base);
  }

  /** No part of the queue refers to `n` any more. */
  ghost predicate Forgotten(s: State, n: Node) {
    && n !in s.owned
    && s.head != n && s.tail != n && n !in Chain(s)
    && (forall m :: m in Chain(s) ==> Next(s, m) != Some(n))
    && (forall p :: p in s.producers && s.producers[p].Link? ==> s.producers[p].prev != n && s.producers[p].node != n)
    && (forall p :: Holds(s, p) ==> s.producers[p].node != n)
  }

  /** When a pop returns a node, the node may be pushed again or destroyed at once. */
  lemma PoppedNodeIsFree(run: seq<State>, i: nat)
    requires IsRun(run) && i + 1 < |run|
    requires run[i].consumer.Release? && run[i + 1].consumer.Returned?
    ensures run[i + 1].consumer == Returned(Some(run[i].consumer.head))
    ensures Forgotten(run[i + 1], run[i].consumer.head)
  {
    var base := RunKeepsInv(run, i);
    var a := ActionAt(run, i);
    assert a.Consume?;
    ReleasedNodeIsFree(run[i], run[i + 1], base);
  }

  lemma ReleasedNodeIsFree(s: State, s': State, base: nat)
    requires InvAt(s, base) && s.consumer.Release? && s' == ConsumerStep(s)
    ensures s'.consumer == Returned(Some(s.consumer.head))
    ensures Forgotten(s', s.consumer.head)
  {
    var n := s.consumer.head;
    assert n in s.owned;
    ConsumerReleases(s, s', base);
    NothingLinksTo(s', base, n);
  }

  lemma NothingLinksTo(s: State, base: nat, n: Node)
    requires ChainOk(s, base) && ProducersOk(s, base) && !InChain(s, base, n) && n !in s.owned
    ensures Forgotten(s, n)
  {
    ChainFrom(s, base);
    assert s.head == s.log[base].node;
    forall m | m in Chain(s) ensures Next(s, m) != Some(n) {
      var j :| base <= j < |s.log| && s.log[j].node == m;
      if j < |s.log| - 1 { assert LinkOk(s, j); }
    }
    forall p | p in s.producers && s.producers[p].Link?
      ensures s.producers[p].prev != n && s.producers[p].node != n
    {
      assert ProducerOk(s, base, p);
      var j := GapIndex(s, base, Some(p), s.producers[p].node, s.producers[p].prev);
    }
  }

  // ----- when a pop returns nothing

  /** Every node whose tail exchange has happened has been popped. */
  predicate Drained(s: State) {
    s.popped == Users(s.log)
  }

  /** A producer is between its exchange of `prev` for its node and its link store. */
  ghost predicate PushInFlight(s: State, prev: Node) {
    exists p :: p in s.producers && s.producers[p].Link? && s.producers[p].prev == prev
  }

  /**
    A pop that may spin returns NULL only when the queue is drained.  One that
    may not spin returns NULL only then, or while the push that replaced the
    current head as the tail is still in flight.
   */
  lemma NullOnlyWhenDrained(run: seq<State>, i: nat)
    requires IsRun(run) && i + 1 < |run|
    requires !run[i].consumer.Returned? && run[i + 1].consumer == Returned(None)
    ensures Drained(run[i])
            || (run[i].consumer.TryWait? && !run[i].consumer.spin && PushInFlight(run[i], run[i].head))
  {
    var base := RunKeepsInv(run, i);
    var a := ActionAt(run, i);
    ReturnConsumes(run[i], a);
    NullReturn(run[i], base);
  }

  /** Only a consumer step makes a pop return. */
  lemma ReturnConsumes(s: State, a: Action)
    requires Enabled(s, a) && !s.consumer.Returned? && Apply(s, a).consumer.Returned?
    ensures a.Consume?
  {
  }

  lemma NullReturn(s: State, base: nat)
    requires ChainOk(s, base) && ConsumerOk(s, base) && HistoryOk(s, base)
    requires !s.consumer.Idle? && !s.consumer.Returned?
    requires ConsumerStep(s).consumer == Returned(None)
    ensures Drained(s) || (s.consumer.TryWait? && !s.consumer.spin && PushInFlight(s, s.head))
  {
    if s.consumer.CheckEmpty? {
      assert base == |s.log| - 1;
    } else {
      assert LinkOk(s, base);
    }
  }

  /** A spinning pop leaves its loop as soon as the push it waits for has linked. */
  lemma SpinEndsWithoutPushes(run: seq<State>, i: nat)
    requires IsRun(run) && i < |run|
    requires run[i].consumer.Spin?
    requires !PushInFlight(run[i], run[i].head)
    ensures ConsumerStep(run[i]).consumer != run[i].consumer
  {
    var base := RunKeepsInv(run, i);
    assert LinkOk(run[i], base);
  }

  // ----- the owner check

  /** Whatever callers do, only a push of a node that is already queued can panic. */
  lemma OnlyDoublePushPanics(run: seq<State>, i: nat)
    requires IsRun(run) && i + 1 < |run|
    requires run[i + 1].panicked
    ensures exists p :: && p in run[i].producers && run[i].producers[p].ChangeOwner?
                        && run[i].producers[p].node in run[i].owned
  {
    var s := run[i];
    ReleaseIsOwned(run, i);
    var a := ActionAt(run, i);
    assert a.Produce? && s.producers[a.q].ChangeOwner?;
  }

  /** The caller's side: a node is pushed only while it is in no queue and in no other push. */
  predicate Disciplined(s: State, a: Action) {
    a.Push? ==>
      && a.n !in s.owned
      && forall p :: p in s.producers && s.producers[p].ChangeOwner? ==> s.producers[p].node != a.n
  }

  ghost predicate DisciplinedStep(s: State, s': State) {
    exists a :: Enabled(s, a) && Disciplined(s, a) && s' == Apply(s, a)
  }

  ghost predicate CallersOk(s: State) {
    && (forall p :: p in s.producers && s.producers[p].ChangeOwner? ==> s.producers[p].node !in s.owned)
    && (forall p, q :: p in s.producers && q in s.producers && p != q
                       && s.producers[p].ChangeOwner? && s.producers[q].ChangeOwner?
                       ==> s.producers[p].node != s.producers[q].node)
    && !s.panicked
  }

  /** Callers that never push a queued node never see the owner check fail. */
  lemma {:induction false} DisciplinedNeverPanics(run: seq<State>, i: nat)
    requires IsRun(run) && i < |run|
    requires forall j :: 0 <= j < |run| - 1 ==> DisciplinedStep(run[j], run[j + 1])
    ensures CallersOk(run[i])
  {
    if i > 0 {
      DisciplinedNeverPanics(run, i - 1);
      ReleaseIsOwned(run, i - 1);
      assert DisciplinedStep(run[i - 1], run[i - 1 + 1]);
      StepKeepsCallers(run[i - 1], run[i]);
    }
  }

  lemma StepKeepsCallers(s: State, s': State)
    requires CallersOk(s) && DisciplinedStep(s, s') && (s.consumer.Release? ==> s.consumer.head in s.owned)
    ensures CallersOk(s')
  {
    var a :| Enabled(s, a) && Disciplined(s, a) && s' == Apply(s, a);
    CallersKept(s, a);
  }

  lemma ReleaseIsOwned(run: seq<State>, i: nat)
    requires IsRun(run) && i < |run|
    ensures run[i].consumer.Release? ==> run[i].consumer.head in run[i].owned
  {
    var base := RunKeepsInv(run, i);
  }

  lemma CallersKept(s: State, a: Action)
    requires CallersOk(s) && Enabled(s, a) && Disciplined(s, a)
    requires s.consumer.Release? ==> s.consumer.head in s.owned
    ensures CallersOk(Apply(s, a))
  {
  }
}
