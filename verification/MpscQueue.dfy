/**
  The lock-free multi-producer single-consumer queue of roc_core, as a step
  system: every atomic operation of the source is one step, every thread has a
  program counter, and any interleaving of the steps is a run.  Memory is
  sequentially consistent.
 */
module MpscQueue {
  import opened Wrappers

  /** The queue's own stub node, or a node that belongs to a caller. */
  datatype Node = Stub | User(id: nat)

  type Pid = nat

  /** What a `push_back` call does next. */
  datatype Producer =
    | ChangeOwner(node: Node)            // compare-exchange node->queue: NULL -> this
    | ClearNext(node: Node)              // node->next := NULL
    | Exchange(node: Node)               // prev := exchange(tail_, node)
    | Link(node: Node, prev: Node)       // prev->next := node

  /** What the `pop_front` call does next; `spin` is its argument. */
  datatype Consumer =
    | Idle
    | LoadHead(spin: bool)
    | LoadNext(spin: bool, head: Node)
    | CheckEmpty(spin: bool)                                          // load tail_, head is the stub
    | TryWait(spin: bool, dropping: bool, head: Node, tries: nat)     // load head->next, up to three times
    | Spin(dropping: bool, head: Node)                                // load head->next until it is set
    | DropStub(spin: bool, next: Node)                                // head_ := next
    | ReloadNext(spin: bool, head: Node)                              // load head->next of the new head
    | CheckLast(spin: bool, head: Node)                               // load tail_, head is not the stub
    | StubClear(spin: bool, head: Node)                               // push_node_(&stub_), three steps
    | StubExchange(spin: bool, head: Node)
    | StubLink(spin: bool, head: Node, prev: Node)
    | Advance(head: Node, next: Node)                                 // head_ := next
    | Release(head: Node)                                             // compare-exchange head->queue: this -> NULL
    | Returned(result: Option<Node>)

  /** A node and the producer that pushes it; the consumer's own stub has no producer. */
  datatype Entry = Entry(node: Node, writer: Option<Pid>)

  /**
    Shared memory, thread states and three histories: `calls` lists the
    `push_back` calls, `log` every node `tail_` ever held, and `popped` every
    node a pop returned.  No step reads a history.
   */
  datatype State = State(
    next: map<Node, Option<Node>>,
    owned: set<Node>,
    tail: Node,
    head: Node,
    producers: map<Pid, Producer>,
    consumer: Consumer,
    panicked: bool,
    calls: seq<Entry>,
    log: seq<Entry>,
    popped: seq<Node>)

  datatype Action = Push(p: Pid, n: Node) | Produce(q: Pid) | Pop(spin: bool) | Consume

  function Init(): State {
    State(map[], {}, Stub, Stub, map[], Idle, false, [], [Entry(Stub, None)], [])
  }

  /** `node->next`, which a node's constructor sets to NULL. */
  function Next(s: State, n: Node): Option<Node> {
    if n in s.next then s.next[n] else None
  }

  predicate Enabled(s: State, a: Action) {
    && !s.panicked
    && match a
       case Push(p, n) => p !in s.producers && n.User?
       case Produce(p) => p in s.producers
       case Pop(_) => s.consumer.Idle? || s.consumer.Returned?
       case Consume => !s.consumer.Idle? && !s.consumer.Returned?
  }

  function Apply(s: State, a: Action): State
    requires Enabled(s, a)
  {
    match a
    case Push(p, n) => s.(producers := s.producers[p := ChangeOwner(n)], calls := s.calls + [Entry(n, Some(p))])
    case Produce(p) => ProducerStep(s, p)
    case Pop(spin) => s.(consumer := LoadHead(spin))
    case Consume => ConsumerStep(s)
  }

  function ProducerStep(s: State, p: Pid): State
    requires p in s.producers
  {
    match s.producers[p]
    case ChangeOwner(n) =>
      if n in s.owned then s.(panicked := true)
      else s.(owned := s.owned + {n}, producers := s.producers[p := ClearNext(n)])
    case ClearNext(n) =>
      s.(next := s.next[n := None], producers := s.producers[p := Exchange(n)])
    case Exchange(n) =>
      s.(tail := n, log := s.log + [Entry(n, Some(p))], producers := s.producers[p := Link(n, s.tail)])
    case Link(n, prev) =>
      s.(next := s.next[prev := Some(n)], producers := s.producers - {p})
  }

  function ConsumerStep(s: State): State
    requires !s.consumer.Idle? && !s.consumer.Returned?
  {
    match s.consumer
    case LoadHead(spin) => s.(consumer := LoadNext(spin, s.head))
    case LoadNext(spin, h) =>
      var next := Next(s, h);
      s.(consumer :=
        if h == Stub then
          if next.None? then CheckEmpty(spin) else DropStub(spin, next.value)
        else
          if next.None? then CheckLast(spin, h) else Advance(h, next.value))
    case CheckEmpty(spin) =>
      s.(consumer := if s.tail == Stub then Returned(None) else TryWait(spin, true, Stub, 0))
    case TryWait(spin, dropping, h, tries) =>
      var next := Next(s, h);
      s.(consumer :=
        if next.Some? then Found(spin, dropping, h, next.value)
        else if tries < 2 then TryWait(spin, dropping, h, tries + 1)
        else if spin then Spin(dropping, h)
        else Returned(None))
    case Spin(dropping, h) =>
      var next := Next(s, h);
      s.(consumer := if next.Some? then Found(true, dropping, h, next.value) else s.consumer)
    case DropStub(spin, next) => s.(head := next, consumer := ReloadNext(spin, next))
    case ReloadNext(spin, h) =>
      var next := Next(s, h);
      s.(consumer := if next.None? then CheckLast(spin, h) else Advance(h, next.value))
    case CheckLast(spin, h) =>
      s.(consumer := if s.tail == h then StubClear(spin, h) else TryWait(spin, false, h, 0))
    case StubClear(spin, h) =>
      s.(next := s.next[Stub := None], consumer := StubExchange(spin, h))
    case StubExchange(spin, h) =>
      s.(tail := Stub, log := s.log + [Entry(Stub, None)], consumer := StubLink(spin, h, s.tail))
    case StubLink(spin, h, prev) =>
      s.(next := s.next[prev := Some(Stub)], consumer := TryWait(spin, false, h, 0))
    case Advance(h, next) => s.(head := next, consumer := Release(h))
    case Release(h) =>
      if h !in s.owned then s.(panicked := true)
      else s.(owned := s.owned - {h}, consumer := Returned(Some(h)), popped := s.popped + [h])
  }

  /** Where a wait for `head->next` continues once it is set. */
  function Found(spin: bool, dropping: bool, h: Node, next: Node): Consumer {
    if dropping then DropStub(spin, next) else Advance(h, next)
  }

  ghost predicate Step(s: State, s': State) {
    exists a :: Enabled(s, a) && s' == Apply(s, a)
  }

  ghost predicate IsRun(run: seq<State>) {
    && |run| > 0
    && run[0] == Init()
    && forall i :: 0 <= i < |run| - 1 ==> Step(run[i], run[i + 1])
  }

  /** The nodes of a stretch of the log, stub entries erased. */
  function Users(log: seq<Entry>): seq<Node> {
    if log == [] then []
    else Users(log[..|log| - 1]) + if log[|log| - 1].node == Stub then [] else [log[|log| - 1].node]
  }

  /** The nodes that producer `p` contributed. */
  function By(log: seq<Entry>, p: Pid): seq<Node> {
    if log == [] then []
    else By(log[..|log| - 1], p) + Part(log[|log| - 1], p)
  }

  function Part(e: Entry, p: Pid): seq<Node> {
    if e.writer == Some(p) then [e.node] else []
  }
}
