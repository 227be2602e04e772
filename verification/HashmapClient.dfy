/** Any sequence of operations on one linked hash map, whatever its nodes, keys and hashes and whenever memory fails. */
module HashmapClient {
  import opened HashmapModel
  import opened HashmapRuns
  import opened HashmapRing
  import opened HashmapImpl

  /** The source panics. */
  predicate Panics(status: Status) {
    status != Ok && status != OutOfMemory
  }

  /** Every node is a member or in no bucket; none is the map's own. */
  ghost predicate Tended(m: Hashmap, nodes: set<Node>)
    reads m, nodes
  {
    forall n :: n in nodes ==> n != m.allHead && (n in m.order || n.bucket == null)
  }

  /** What one operation reports, and does to the table. */
  ghost predicate Performed(status: Status, h: Table<Node>, op: Op<Node>, preallocated: nat, after: Table<Node>) {
    && (status == Ok ==> StepTo(h, op, after, preallocated) && after.order == Replay(h.order, op))
    && (status == OutOfMemory ==> after == h)
    && (status == CheckFailed ==> !op.Remove? && Apply(h, op, preallocated).PosCheck?)
    && (status == AlreadyMember ==> op.Insert? && op.n in h.order)
    && (status == DuplicateKey ==> op.Insert? && KeyTaken(h, op.hash, op.n.key))
    && (status == NotMember ==> op.Remove? && op.n !in h.order)
    && (status != Ok ==> after.order == h.order)
  }

  /** The map keeps to what it had, the nodes and what it has allocated. */
  ghost predicate Within(m: Hashmap, repr: set<object>, nodes: set<Node>, added: set<object>)
    reads m
  {
    m.Repr() <= repr + nodes + added
  }

  /** Nodes that are no members are no part of the map. */
  lemma Outside(m: Hashmap, nodes: set<Node>)
    requires Tended(m, nodes)
    ensures forall n :: n in nodes && n !in m.order ==> n !in m.Repr()
  {
  }

  /** Some member has this key under this hash. */
  ghost predicate KeyTaken(h: Table<Node>, hash: nat, key: Key) {
    exists n :: n in h.order && n in h.hash && h.hash[n] == hash && n.key == key
  }

  lemma InsertPerformed(status: Status, h: Table<Node>, preallocated: nat, node: Node, hash: nat, memory: bool,
                        member: bool, found: bool, after: Table<Node>)
    requires InsertReports(status, h, preallocated, node, hash, memory, member, found, after) && Good(h)
    requires (member <==> node in h.order) && (found ==> KeyTaken(h, hash, node.key))
    ensures Performed(status, h, Op.Insert(node, hash, memory), preallocated, after)
  {
    GrowKeepsGood(h, preallocated, memory);
  }

  lemma Taken(m: Hashmap, hash: nat, key: Key)
    requires HasKey(m.order, hash, key)
    ensures KeyTaken(m.View(), hash, key)
  {
    var n :| n in m.order && n.hash == hash && n.key == key;
    assert n in m.View().hash;
  }

  method PerformInsert(m: Hashmap, node: Node, hash: nat, memory: bool, ghost nodes: set<Node>, ghost h: Table<Node>,
                       ghost repr: set<object>)
    returns (status: Status, ghost added: set<object>)
    requires m.Valid() && m.View() == h && m.Repr() == repr && Tended(m, nodes) && node in nodes
    modifies repr, nodes
    ensures m.Valid() && Tended(m, nodes) && Within(m, repr, nodes, added) && fresh(added)
    ensures Performed(status, h, Op.Insert(node, hash, memory), m.preallocated, m.View())
  {
    ghost var member, found := node.bucket != null, HasKey(m.order, hash, node.key);
    m.MemberIff(node);
    if found { Taken(m, hash, node.key); }
    status, added := InsertTended(m, node, hash, memory, nodes, h, repr, member, found);
    InsertPerformed(status, h, m.preallocated, node, hash, memory, member, found, m.View());
  }

  /** Nodes of which the map knows nothing. */
  ghost predicate Apart(apart: set<Node>, repr: set<object>)
    reads apart
  {
    forall n :: n in apart ==> n !in repr && n.bucket == null
  }

  ghost predicate NoBuckets(apart: set<Node>)
    reads apart
  {
    forall n :: n in apart ==> n.bucket == null
  }

  /** The nodes that are no members, but for one. */
  ghost function Others(nodes: set<Node>, order: seq<Node>, node: Node): set<Node> {
    set n | n in nodes && n !in order && n != node
  }

  lemma OthersApart(m: Hashmap, nodes: set<Node>, node: Node)
    requires Tended(m, nodes)
    ensures Apart(Others(nodes, m.order, node), m.Repr())
  {
    Outside(m, nodes);
  }

  method InsertTended(m: Hashmap, node: Node, hash: nat, memory: bool, ghost nodes: set<Node>, ghost h: Table<Node>,
                      ghost repr: set<object>, ghost member: bool, ghost found: bool)
    returns (status: Status, ghost added: set<object>)
    requires m.Valid() && m.View() == h && m.Repr() == repr && Tended(m, nodes) && node in nodes
    requires member == (node.bucket != null) == (node in m.order) && found == HasKey(m.order, hash, node.key)
    modifies repr, nodes
    ensures m.Valid() && Tended(m, nodes) && Within(m, repr, nodes, added) && fresh(added)
    ensures InsertReports(status, h, m.preallocated, node, hash, memory, member, found, m.View())
  {
    OthersApart(m, nodes, node);
    status, added := InsertApart(m, node, hash, memory, h, repr, member, found, Others(nodes, m.order, node));
    TendedAfter(m, nodes, h.order, node);
    WithinAfter(m, repr, nodes, node, added);
  }

  lemma WithinAfter(m: Hashmap, repr: set<object>, nodes: set<Node>, node: Node, added: set<object>)
    requires added == m.Repr() - repr - {node} && node in nodes
    ensures Within(m, repr, nodes, added)
  {
  }

  lemma TendedAfter(m: Hashmap, nodes: set<Node>, order: seq<Node>, node: Node)
    requires NoBuckets(Others(nodes, order, node)) && m.allHead !in nodes
    requires (m.order == order || m.order == order + [node]) && (node in m.order || node.bucket == null)
    ensures Tended(m, nodes)
  {
    forall n | n in nodes
      ensures n != m.allHead && (n in m.order || n.bucket == null)
    {
      if n !in order && n != node { assert n in Others(nodes, order, node); }
    }
  }

  method InsertApart(m: Hashmap, node: Node, hash: nat, memory: bool, ghost h: Table<Node>, ghost repr: set<object>,
                     ghost member: bool, ghost found: bool, ghost apart: set<Node>)
    returns (status: Status, ghost added: set<object>)
    requires m.Valid() && m.View() == h && m.Repr() == repr && node != m.allHead && Apart(apart, repr) && node !in apart
    requires member == (node.bucket != null) && found == HasKey(m.order, hash, node.key)
    modifies repr, node
    ensures m.Valid() && NoBuckets(apart) && added == m.Repr() - repr - {node} && fresh(added)
    ensures InsertReports(status, h, m.preallocated, node, hash, memory, member, found, m.View())
    ensures status != Ok ==> member == (node.bucket != null)
  {
    status, added := m.Insert(node, hash, memory);
  }

  method PerformRemove(m: Hashmap, node: Node, skip: bool, ghost nodes: set<Node>, ghost h: Table<Node>,
                       ghost repr: set<object>)
    returns (status: Status)
    requires m.Valid() && m.View() == h && m.Repr() == repr && Tended(m, nodes) && node in nodes
    modifies repr, nodes
    ensures m.Valid() && Tended(m, nodes) && m.Repr() <= repr
    ensures Performed(status, h, Op.Remove(node, skip), m.preallocated, m.View())
  {
    m.ContainsIff(node);
    status := NotMember;
    if m.Contains(node) {
      RemoveTended(m, node, skip, nodes, h, repr);
      RemovePerformed(h, node, skip, m.preallocated, m.View());
      status := Ok;
    }
  }

  lemma RemovePerformed(h: Table<Node>, node: Node, skip: bool, preallocated: nat, after: Table<Node>)
    requires node in h.order && after == RemoveNode(h, node, skip) && after.order == Without(h.order, node)
    ensures Performed(Ok, h, Op.Remove(node, skip), preallocated, after)
  {
  }

  method RemoveTended(m: Hashmap, node: Node, skip: bool, ghost nodes: set<Node>, ghost h: Table<Node>,
                      ghost repr: set<object>)
    requires m.Valid() && m.View() == h && m.Repr() == repr && Tended(m, nodes) && node in m.order
    modifies repr
    ensures m.Valid() && Tended(m, nodes) && m.Repr() <= repr
    ensures m.View() == RemoveNode(h, node, skip) && m.order == Without(h.order, node)
  {
    OthersApart(m, nodes, node);
    RemoveApart(m, node, skip, h, repr, Others(nodes, m.order, node));
  }

  method RemoveApart(m: Hashmap, node: Node, skip: bool, ghost h: Table<Node>, ghost repr: set<object>,
                     ghost apart: set<Node>)
    requires m.Valid() && m.View() == h && m.Repr() == repr && node in m.order && Apart(apart, repr)
    modifies repr
    ensures m.Valid() && NoBuckets(apart) && node.bucket == null && m.Repr() <= repr
    ensures m.View() == RemoveNode(h, node, skip) && m.order == Without(h.order, node)
  {
    m.Remove(node, skip);
  }

  method PerformGrow(m: Hashmap, memory: bool, ghost nodes: set<Node>, ghost h: Table<Node>, ghost repr: set<object>)
    returns (status: Status, ghost added: set<object>)
    requires m.Valid() && m.View() == h && m.Repr() == repr && Tended(m, nodes)
    modifies repr
    ensures m.Valid() && Tended(m, nodes) && Within(m, repr, nodes, added) && fresh(added)
    ensures Performed(status, h, Op.Grow(memory), m.preallocated, m.View())
  {
    status, added := m.GrowOnly(memory, h, repr, m.allHead);
    GrowPerformed(status, h, memory, m.preallocated, m.View());
  }

  lemma GrowPerformed(status: Status, h: Table<Node>, memory: bool, preallocated: nat, after: Table<Node>)
    requires Good(h) && Reports(status, GrowTable(h, preallocated, memory), after, h)
    ensures Performed(status, h, Op.Grow(memory), preallocated, after)
  {
    GrowKeepsGood(h, preallocated, memory);
  }

  method Perform(m: Hashmap, op: Op<Node>, ghost nodes: set<Node>, ghost h: Table<Node>, ghost repr: set<object>)
    returns (status: Status, ghost added: set<object>)
    requires m.Valid() && m.View() == h && m.Repr() == repr && Tended(m, nodes) && (op.Grow? || op.n in nodes)
    modifies repr, nodes
    ensures m.Valid() && Tended(m, nodes) && Within(m, repr, nodes, added) && fresh(added)
    ensures Performed(status, h, op, m.preallocated, m.View())
  {
    added := {};
    match op
    case Insert(node, hash, memory) =>
      status, added := PerformInsert(m, node, hash, memory, nodes, h, repr);
    case Remove(node, skip) =>
      status := PerformRemove(m, node, skip, nodes, h, repr);
    case Grow(memory) =>
      status, added := PerformGrow(m, memory, nodes, h, repr);
  }

  // ----- whole sequences

  /** The nodes that operations are about. */
  ghost function NodesOf(ops: seq<Op<Node>>): set<Node> {
    set i | 0 <= i < |ops| && !ops[i].Grow? :: ops[i].n
  }

  /** The operations that were carried out. */
  function Successful(ops: seq<Op<Node>>, results: seq<Status>): seq<Op<Node>>
    requires |results| <= |ops|
    decreases |results|
  {
    if results == [] then []
    else
      var k := |results| - 1;
      Successful(ops, results[..k]) + if results[k] == Ok then [ops[k]] else []
  }

  /** What operations make of an insertion-ordered map that is empty at first. */
  function ReplayAll(ops: seq<Op<Node>>): seq<Node> {
    if ops == [] then [] else Replay(ReplayAll(ops[..|ops| - 1]), ops[|ops| - 1])
  }

  /** The table is where a run of the value model leads, and holds what an ordered map would. */
  ghost predicate Follows(run: seq<Table<Node>>, done: seq<Op<Node>>, preallocated: nat, h: Table<Node>) {
    IsRun(run, done, preallocated) && run[|done|] == h && h.order == ReplayAll(done)
  }

  lemma FollowsNext(run: seq<Table<Node>>, done: seq<Op<Node>>, preallocated: nat, h: Table<Node>, op: Op<Node>,
                    h': Table<Node>)
    requires Follows(run, done, preallocated, h) && Performed(Ok, h, op, preallocated, h')
    ensures Follows(run + [h'], done + [op], preallocated, h')
  {
    var run', done' := run + [h'], done + [op];
    forall i | 0 <= i < |done'|
      ensures StepTo(run'[i], done'[i], run'[i + 1], preallocated)
    {
      if i < |done| { assert StepTo(run[i], done[i], run[i + 1], preallocated); }
    }
    assert done'[..|done|] == done;
  }

  /** Why an operation was refused after the operations `done`. */
  ghost predicate Refused(status: Status, run: seq<Table<Node>>, done: seq<Op<Node>>, op: Op<Node>)
    requires |done| < |run|
  {
    && (status == CheckFailed ==> !op.Remove? && SomeOrphaning(run, done, |done|))
    && (status == AlreadyMember ==> op.Insert? && op.n in ReplayAll(done))
    && (status == DuplicateKey ==> op.Insert? && KeyTaken(run[|done|], op.hash, op.n.key))
    && (status == NotMember ==> op.Remove? && op.n !in ReplayAll(done))
  }

  lemma RefusedIs(status: Status, run: seq<Table<Node>>, done: seq<Op<Node>>, preallocated: nat, h: Table<Node>,
                  op: Op<Node>, after: Table<Node>)
    requires Follows(run, done, preallocated, h) && Performed(status, h, op, preallocated, after)
    ensures Refused(status, run, done, op)
  {
    if status == CheckFailed { PosCheckFailsExactlyAfterOrphaning(run, done, preallocated, op); }
  }

  lemma SuccessfulNext(ops: seq<Op<Node>>, results: seq<Status>, status: Status, done: seq<Op<Node>>)
    requires |results| < |ops| && done == Successful(ops, results)
    ensures Successful(ops, results + [status]) == if status == Ok then done + [ops[|results|]] else done
  {
    assert (results + [status])[..|results|] == results;
  }

  /** Some of the operations have been tried, and none of them was a panic. */
  ghost predicate Going(ops: seq<Op<Node>>, results: seq<Status>, run: seq<Table<Node>>, preallocated: nat,
                        h: Table<Node>)
  {
    && |results| <= |ops| && Follows(run, Successful(ops, results), preallocated, h)
    && forall i :: 0 <= i < |results| ==> !Panics(results[i])
  }

  /** All operations have been tried, or the last one tried was a panic. */
  ghost predicate Ended(ops: seq<Op<Node>>, results: seq<Status>, run: seq<Table<Node>>, preallocated: nat,
                        h: Table<Node>)
  {
    || (Going(ops, results, run, preallocated, h) && |results| == |ops|)
    || (&& 0 < |results| <= |ops| && run != [] && Panics(results[|results| - 1])
        && Going(ops, results[..|results| - 1], run, preallocated, run[|run| - 1])
        && h.order == ReplayAll(Successful(ops, results))
        && Refused(results[|results| - 1], run, Successful(ops, results), ops[|results| - 1]))
  }

  lemma NextGoes(ops: seq<Op<Node>>, results: seq<Status>, run: seq<Table<Node>>, preallocated: nat, h: Table<Node>,
                 status: Status, h': Table<Node>)
    returns (run': seq<Table<Node>>)
    requires |results| < |ops| && Going(ops, results, run, preallocated, h) && !Panics(status)
    requires Performed(status, h, ops[|results|], preallocated, h')
    ensures Going(ops, results + [status], run', preallocated, h')
  {
    var done := Successful(ops, results);
    SuccessfulNext(ops, results, status, done);
    run' := run;
    if status == Ok {
      FollowsNext(run, done, preallocated, h, ops[|results|], h');
      run' := run + [h'];
    }
  }

  lemma NextEnds(ops: seq<Op<Node>>, results: seq<Status>, run: seq<Table<Node>>, preallocated: nat, h: Table<Node>,
                 status: Status, h': Table<Node>)
    requires |results| < |ops| && Going(ops, results, run, preallocated, h) && Panics(status)
    requires Performed(status, h, ops[|results|], preallocated, h')
    ensures Ended(ops, results + [status], run, preallocated, h')
  {
    var done := Successful(ops, results);
    SuccessfulNext(ops, results, status, done);
    RefusedIs(status, run, done, preallocated, h, ops[|results|], h');
    assert (results + [status])[..|results|] == results;
  }

  /**
   * Carries out operations one after another until one panics. The linked map follows a run of the value model, and its
   * members are those of an insertion-ordered map that has seen the same successful operations. An operation panics
   * only if its node or key is where it must not be, or after a remove has orphaned the scan position.
   */
  method RunAll(m: Hashmap, ops: seq<Op<Node>>) returns (results: seq<Status>, ghost run: seq<Table<Node>>)
    requires m.Valid() && m.View() == Empty() && Tended(m, NodesOf(ops))
    modifies m.Repr(), NodesOf(ops)
    ensures m.Valid() && Ended(ops, results, run, m.preallocated, m.View())
  {
    NoneTried(ops, m.preallocated);
    results, run := RunFrom(m, ops, [], NodesOf(ops), [Empty()], m.Repr() + NodesOf(ops));
  }

  lemma NoneTried(ops: seq<Op<Node>>, preallocated: nat)
    ensures Going(ops, [], [Empty()], preallocated, Empty())
  {
  }

  /** Carries out the operations after those that have been tried already. */
  method RunFrom(m: Hashmap, ops: seq<Op<Node>>, tried: seq<Status>, ghost nodes: set<Node>,
                 ghost start: seq<Table<Node>>, ghost mods: set<object>)
    returns (results: seq<Status>, ghost run: seq<Table<Node>>)
    requires m.Valid() && Tended(m, nodes) && NodesOf(ops) <= nodes && m.Repr() + nodes <= mods
    requires Going(ops, tried, start, m.preallocated, m.View())
    modifies mods
    ensures m.Valid() && Ended(ops, results, run, m.preallocated, m.View())
    decreases |ops| - |tried|
  {
    results, run := tried, start;
    if |tried| < |ops| {
      OneOf(ops, |tried|, nodes);
      var status;
      ghost var added;
      status, added, run := PerformNext(m, ops, tried, nodes, start, mods);
      results := tried + [status];
      if !Panics(status) {
        results, run := RunFrom(m, ops, results, nodes, run, mods + added);
      }
    }
  }

  lemma OneOf(ops: seq<Op<Node>>, i: nat, nodes: set<Node>)
    requires i < |ops| && NodesOf(ops) <= nodes
    ensures ops[i].Grow? || ops[i].n in nodes
  {
    if !ops[i].Grow? { assert ops[i].n in NodesOf(ops); }
  }

  method PerformNext(m: Hashmap, ops: seq<Op<Node>>, results: seq<Status>, ghost nodes: set<Node>,
                     ghost run: seq<Table<Node>>, ghost mods: set<object>)
    returns (status: Status, ghost added: set<object>, ghost run': seq<Table<Node>>)
    requires m.Valid() && Tended(m, nodes) && |results| < |ops| && (ops[|results|].Grow? || ops[|results|].n in nodes)
    requires Going(ops, results, run, m.preallocated, m.View()) && m.Repr() + nodes <= mods
    modifies mods
    ensures m.Valid() && Tended(m, nodes) && m.Repr() + nodes <= mods + added && fresh(added)
    ensures if Panics(status) then Ended(ops, results + [status], run', m.preallocated, m.View())
            else Going(ops, results + [status], run', m.preallocated, m.View())
  {
    ghost var h := m.View();
    status, added := Perform(m, ops[|results|], nodes, h, m.Repr());
    run' := run;
    if Panics(status) {
      NextEnds(ops, results, run, m.preallocated, h, status, m.View());
    } else {
      run' := NextGoes(ops, results, run, m.preallocated, h, status, m.View());
    }
  }
}
