/**
  The seqlock of roc_core as a step system: one atomic access of the version or
  of one byte of the value is one step, for any number of concurrent loads and
  stores.  Memory is sequentially consistent and versions are 32-bit.
 */
module Seqlock {
  import opened Octets
  import opened Wrappers

  type Value = seq<Byte>
  type Tid = nat

  const VERSIONS: nat := 0x1_0000_0000

  /**
    What a call does next.  In loads, `floor` is the number of values published
    when the call began (the initial one included), and `t0` and `t1` are the
    numbers of version changes at its two version reads; no step depends on them.
   */
  datatype Thread =
    | TryLoadVersion(value: Value)                    // try_store_: ver0 := ver_
    | TryMark(value: Value, ver0: nat)                // compare-exchange ver_: ver0 -> ver0 + 1
    | ExclusiveLoadVersion(value: Value)              // exclusive_store_: ver0 := ver_
    | ExclusiveMark(value: Value, ver0: nat)          // ver_ := ver0 + 1
    | Copying(value: Value, ver0: nat, k: nat)        // val_[k] := value[k], then ver_ := ver0 + 2
    | Stored(value: Value, ver: nat, index: nat)
    | StoreFailed
    | FirstVersion(tries: Option<nat>, floor: nat)    // try_load_: ver0 := ver_
    | Reading(tries: Option<nat>, floor: nat, ver0: nat, t0: nat, buf: Value)
    | Loaded(value: Value, ver: nat, floor: nat, t0: nat, t1: nat)
    | LoadFailed

  /** Shared memory, threads, and two histories: values stored so far and version changes so far. */
  datatype State = State(
    val: Value,
    ver: nat,
    threads: map<Tid, Thread>,
    stored: seq<Value>,
    changes: nat)

  datatype Action =
    | TryStore(t: Tid, v: Value)
    | ExclusiveStore(t: Tid, v: Value)
    | Load(t: Tid, tries: Option<nat>)
    | Run(t: Tid)

  function Init(v: Value): State {
    State(v, 0, map[], [v], 0)
  }

  predicate Returned(th: Thread) {
    th.Stored? || th.StoreFailed? || th.Loaded? || th.LoadFailed?
  }

  predicate IsStore(th: Thread) {
    th.TryLoadVersion? || th.TryMark? || th.ExclusiveLoadVersion? || th.ExclusiveMark? || th.Copying?
  }

  /** An `exclusive_store` call, which its caller must serialize with all other stores, has started. */
  predicate IsExclusive(th: Thread) {
    th.ExclusiveLoadVersion? || th.ExclusiveMark?
  }

  predicate Free(s: State, t: Tid) {
    t in s.threads ==> Returned(s.threads[t])
  }

  predicate Enabled(s: State, a: Action) {
    match a
    case TryStore(t, v) =>
      Free(s, t) && |v| == |s.val| && forall u :: u in s.threads ==> !IsExclusive(s.threads[u])
    case ExclusiveStore(t, v) =>
      Free(s, t) && |v| == |s.val| && forall u :: u in s.threads ==> !IsStore(s.threads[u])
    case Load(t, tries) => Free(s, t)
    case Run(t) => !Free(s, t)
  }

  function With(s: State, t: Tid, th: Thread): State {
    s.(threads := s.threads[t := th])
  }

  /** Write the next version. */
  function Bump(s: State, ver: nat): State {
    s.(ver := ver % VERSIONS, changes := s.changes + 1)
  }

  function Apply(s: State, a: Action): State
    requires Enabled(s, a)
  {
    match a
    case TryStore(t, v) => With(s, t, TryLoadVersion(v))
    case ExclusiveStore(t, v) => With(s, t, ExclusiveLoadVersion(v))
    case Load(t, tries) => With(s, t, FirstVersion(tries, |s.stored|))
    case Run(t) => Step1(s, t)
  }

  function Step1(s: State, t: Tid): State
    requires t in s.threads
  {
    match s.threads[t]
    case TryLoadVersion(v) => With(s, t, if s.ver % 2 == 1 then StoreFailed else TryMark(v, s.ver))
    case TryMark(v, ver0) =>
      if s.ver != ver0 then With(s, t, StoreFailed)
      else With(Bump(s, ver0 + 1), t, Copying(v, ver0, 0))
    case ExclusiveLoadVersion(v) => With(s, t, ExclusiveMark(v, s.ver))
    case ExclusiveMark(v, ver0) => With(Bump(s, ver0 + 1), t, Copying(v, ver0, 0))
    case Copying(v, ver0, k) =>
      if k < |s.val| && k < |v| then With(s.(val := s.val[k := v[k]]), t, Copying(v, ver0, k + 1))
      else With(Bump(s, ver0 + 2).(stored := s.stored + [v]), t, Stored(v, (ver0 + 2) % VERSIONS, |s.stored|))
    case FirstVersion(tries, floor) => With(s, t, Reading(tries, floor, s.ver, s.changes, []))
    case Reading(tries, floor, ver0, t0, buf) =>
      if |buf| < |s.val| then With(s, t, Reading(tries, floor, ver0, t0, buf + [s.val[|buf|]]))
      else if ver0 % 2 == 0 && ver0 == s.ver then With(s, t, Loaded(buf, s.ver, floor, t0, s.changes))
      else With(s, t, Retry(tries, floor))
    case _ => s
  }

  /** `wait_load_` retries for ever (None), `try_load_repeat_` a fixed number of times. */
  function Retry(tries: Option<nat>, floor: nat): Thread {
    match tries
    case None => FirstVersion(None, floor)
    case Some(n) => if n == 0 then LoadFailed else FirstVersion(Some(n - 1), floor)
  }

  ghost predicate Step(s: State, s': State) {
    exists a :: Enabled(s, a) && s' == Apply(s, a)
  }

  ghost predicate IsRun(run: seq<State>) {
    && |run| > 0
    && run[0] == Init(run[0].val)
    && forall i :: 0 <= i < |run| - 1 ==> Step(run[i], run[i + 1])
  }
}

/** What loads and stores of the seqlock promise. */
module SeqlockTheorems {
  import opened Octets
  import opened Seqlock
  import opened Wrappers

  /** Between its mark and its final version store. */
  predicate Writing(s: State, t: Tid) {
    t in s.threads && s.threads[t].Copying?
  }

  ghost predicate WriterOk(s: State) {
    && |s.stored| > 0
    && s.ver == s.changes % VERSIONS
    && s.changes / 2 == |s.stored| - 1
    && (forall t, u :: Writing(s, t) && Writing(s, u) ==> t == u)
    && (s.changes % 2 == 1 <==> exists t :: Writing(s, t))
    && (s.changes % 2 == 0 ==> s.val == s.stored[|s.stored| - 1])
  }

  predicate ThreadOk(s: State, th: Thread) {
    match th
    case TryLoadVersion(v) => |v| == |s.val|
    case TryMark(v, ver0) => |v| == |s.val| && ver0 % 2 == 0
    case ExclusiveLoadVersion(v) => |v| == |s.val|
    case ExclusiveMark(v, ver0) => |v| == |s.val| && ver0 == s.ver
    case Copying(v, ver0, k) =>
      && |v| == |s.val| && k <= |v| && s.val[..k] == v[..k]
      && ver0 == (s.changes - 1) % VERSIONS
    case Stored(v, ver, index) =>
      0 < index < |s.stored| && s.stored[index] == v && ver == (2 * index) % VERSIONS
    case FirstVersion(_, floor) => floor <= |s.stored|
    case Reading(_, floor, ver0, t0, buf) =>
      && t0 <= s.changes && ver0 == t0 % VERSIONS && floor <= t0 / 2 + 1 && |buf| <= |s.val|
      && (t0 == s.changes && t0 % 2 == 0 ==> buf == s.val[..|buf|])
    case Loaded(v, ver, floor, t0, t1) =>
      && t0 <= t1 <= s.changes && ver == t0 % VERSIONS == t1 % VERSIONS && t0 % 2 == 0 && floor <= t0 / 2 + 1
      && t0 / 2 < |s.stored|
      && (t0 == t1 ==> v == s.stored[t0 / 2])
    case _ => true
  }

  ghost predicate ExclusionOk(s: State) {
    forall t, u :: t in s.threads && u in s.threads && t != u && IsExclusive(s.threads[t]) ==> !IsStore(s.threads[u])
  }

  ghost predicate Inv(s: State) {
    && WriterOk(s)
    && ExclusionOk(s)
    && forall t :: t in s.threads ==> ThreadOk(s, s.threads[t])
  }

  /** A step that leaves the memory alone needs only the moving thread checked. */
  lemma QuietStep(s: State, t: Tid, th: Thread)
    requires Inv(s) && !Writing(s, t) && !th.Copying? && ThreadOk(s, th)
    requires forall u :: u in s.threads && u != t ==>
      && (IsExclusive(th) ==> !IsStore(s.threads[u]))
      && (IsStore(th) ==> !IsExclusive(s.threads[u]))
    ensures Inv(With(s, t, th))
  {
    var s' := With(s, t, th);
    forall u ensures Writing(s', u) <==> Writing(s, u) { }
    assert forall u :: u in s'.threads ==> ThreadOk(s', s'.threads[u]);
  }

  lemma EvenWrap(n: nat)
    ensures n % VERSIONS % 2 == n % 2
    ensures (n % VERSIONS + 1) % VERSIONS == (n + 1) % VERSIONS
    ensures (n % VERSIONS + 2) % VERSIONS == (n + 2) % VERSIONS
  {
    var q, r := n / VERSIONS, n % VERSIONS;
    assert n == q * VERSIONS + r;
    WrapBy(q, r, 1);
    WrapBy(q, r, 2);
    ModIs(n, 2, q * (VERSIONS / 2) + r / 2, r % 2);
  }

  lemma WrapBy(q: nat, r: nat, d: nat)
    requires r < VERSIONS && d <= 2
    ensures (r + d) % VERSIONS == (q * VERSIONS + r + d) % VERSIONS
  {
    var k := if r + d < VERSIONS then 0 else 1;
    ModIs(r + d, VERSIONS, k, r + d - k * VERSIONS);
    ModIs(q * VERSIONS + r + d, VERSIONS, q + k, r + d - k * VERSIONS);
  }

  /** Taking the lock: no other store is between its mark and its last version store. */
  lemma MarkStep(s: State, t: Tid)
    requires Inv(s) && t in s.threads
    requires (s.threads[t].TryMark? && s.threads[t].ver0 == s.ver) || s.threads[t].ExclusiveMark?
    ensures Inv(Step1(s, t))
  {
    MarkIsEven(s, t);
    MarkThreads(s, t);
    MarkWriter(s, t);
  }

  lemma MarkIsEven(s: State, t: Tid)
    requires Inv(s) && t in s.threads
    requires (s.threads[t].TryMark? && s.threads[t].ver0 == s.ver) || s.threads[t].ExclusiveMark?
    ensures s.changes % 2 == 0 && forall u :: !Writing(s, u)
  {
    EvenWrap(s.changes);
    assert ThreadOk(s, s.threads[t]);
  }

  lemma MarkThreads(s: State, t: Tid)
    requires Inv(s) && t in s.threads && s.changes % 2 == 0 && forall u :: !Writing(s, u)
    requires (s.threads[t].TryMark? && s.threads[t].ver0 == s.ver) || s.threads[t].ExclusiveMark?
    ensures var s' := Step1(s, t); forall u :: u in s'.threads ==> ThreadOk(s', s'.threads[u])
  {
    var s' := Step1(s, t);
    assert ThreadOk(s, s.threads[t]);
    forall u | u in s'.threads && u != t ensures ThreadOk(s', s'.threads[u]) {
      assert ThreadOk(s, s.threads[u]) && !Writing(s, u);
    }
  }

  lemma MarkWriter(s: State, t: Tid)
    requires Inv(s) && t in s.threads && s.changes % 2 == 0 && forall u :: !Writing(s, u)
    requires (s.threads[t].TryMark? && s.threads[t].ver0 == s.ver) || s.threads[t].ExclusiveMark?
    ensures WriterOk(Step1(s, t)) && ExclusionOk(Step1(s, t))
  {
    var s' := Step1(s, t);
    EvenWrap(s.changes);
    assert ThreadOk(s, s.threads[t]);
    assert Writing(s', t);
    forall u | Writing(s', u) ensures u == t {
      assert u != t ==> Writing(s, u);
    }
  }

  lemma CopyByte(s: State, t: Tid)
    requires Inv(s) && Writing(s, t) && s.threads[t].k < |s.val|
    ensures Inv(Step1(s, t))
  {
    var s' := Step1(s, t);
    assert ThreadOk(s, s.threads[t]);
    assert s.changes % 2 == 1;
    forall u ensures Writing(s', u) <==> Writing(s, u) { }
    forall u | u in s'.threads && u != t ensures ThreadOk(s', s'.threads[u]) {
      assert ThreadOk(s, s.threads[u]) && !Writing(s, u);
    }
    assert s'.val[..s.threads[t].k + 1] == s.threads[t].value[..s.threads[t].k + 1];
  }

  /** The final version store publishes the whole value. */
  lemma Publish(s: State, t: Tid)
    requires Inv(s) && Writing(s, t) && s.threads[t].k >= |s.val|
    ensures Inv(Step1(s, t))
  {
    var s' := Step1(s, t);
    var th := s.threads[t];
    assert ThreadOk(s, th);
    EvenWrap(s.changes - 1);
    assert s.val == s.val[..th.k] == th.value[..th.k] == th.value;
    forall u ensures !Writing(s', u) { assert u != t ==> !Writing(s, u); }
    forall u | u in s'.threads && u != t ensures ThreadOk(s', s'.threads[u]) {
      assert !Writing(s, u);
      OtherThread(s, s', s.threads[u]);
    }
    assert WriterOk(s');
    assert ThreadOk(s', s'.threads[t]) by { Published(s, s', th, s'.threads[t]); }
  }

  /** A version change only ages the other threads. */
  lemma OtherThread(s: State, s': State, th: Thread)
    requires ThreadOk(s, th) && !th.Copying? && !th.ExclusiveMark?
    requires s.changes < s'.changes && s.stored <= s'.stored && |s'.val| == |s.val|
    ensures ThreadOk(s', th)
  {
  }

  lemma Published(s: State, s': State, th: Thread, th': Thread)
    requires WriterOk(s) && th.Copying? && ThreadOk(s, th)
    requires s.changes % 2 == 1 && s'.stored == s.stored + [th.value]
    requires th' == Stored(th.value, (th.ver0 + 2) % VERSIONS, |s.stored|)
    ensures ThreadOk(s', th')
  {
    EvenWrap(s.changes - 1);
    assert s.changes + 1 == 2 * |s.stored|;
  }

  lemma ReadStep(s: State, t: Tid)
    requires Inv(s) && t in s.threads && (s.threads[t].FirstVersion? || s.threads[t].Reading?)
    ensures Inv(Step1(s, t))
  {
    var th := s.threads[t];
    assert ThreadOk(s, th);
    EvenWrap(s.changes);
    var th' := Step1(s, t).threads[t];
    if th.Reading? && th'.Reading? {
      assert s.val[..|th'.buf|] == s.val[..|th.buf|] + [s.val[|th.buf|]];
    }
    if th'.Loaded? { EvenWrap(th.t0); LoadEnds(s, th); }
    QuietStep(s, t, th');
  }

  lemma LoadEnds(s: State, th: Thread)
    requires WriterOk(s) && th.Reading? && ThreadOk(s, th) && |th.buf| == |s.val|
    requires th.ver0 % 2 == 0 && th.ver0 == s.ver && th.t0 % 2 == th.ver0 % 2
    ensures ThreadOk(s, Loaded(th.buf, s.ver, th.floor, th.t0, s.changes))
  {
    if th.t0 == s.changes {
      assert s.val[..|s.val|] == s.val;
    }
  }

  lemma StepKeepsInv(s: State, a: Action)
    requires Inv(s) && Enabled(s, a)
    ensures Inv(Apply(s, a))
  {
    match a
    case TryStore(t, v) => QuietStep(s, t, TryLoadVersion(v));
    case ExclusiveStore(t, v) => QuietStep(s, t, ExclusiveLoadVersion(v));
    case Load(t, tries) => QuietStep(s, t, FirstVersion(tries, |s.stored|));
    case Run(t) => RunKeepsInv(s, t);
  }

  lemma RunKeepsInv(s: State, t: Tid)
    requires Inv(s) && t in s.threads && !Returned(s.threads[t])
    ensures Inv(Step1(s, t))
  {
    assert ThreadOk(s, s.threads[t]);
    EvenWrap(s.changes);
    match s.threads[t]
    case TryLoadVersion(v) => QuietStep(s, t, if s.ver % 2 == 1 then StoreFailed else TryMark(v, s.ver));
    case TryMark(v, ver0) => if s.ver == ver0 { MarkStep(s, t); } else { QuietStep(s, t, StoreFailed); }
    case ExclusiveLoadVersion(v) => QuietStep(s, t, ExclusiveMark(v, s.ver));
    case ExclusiveMark(v, ver0) => MarkStep(s, t);
    case Copying(v, ver0, k) => if k < |s.val| { CopyByte(s, t); } else { Publish(s, t); }
    case _ => ReadStep(s, t);
  }

  lemma {:induction false} InvAlways(run: seq<State>, i: nat)
    requires IsRun(run) && i < |run|
    ensures Inv(run[i])
  {
    if i > 0 {
      InvAlways(run, i - 1);
      assert Step(run[i - 1], run[i - 1 + 1]);
      var a :| Enabled(run[i - 1], a) && run[i] == Apply(run[i - 1], a);
      StepKeepsInv(run[i - 1], a);
    } else {
      assert forall t :: !Writing(run[0], t);
    }
  }

  // ----- the promises

  /**
    The version is odd exactly while one store is between its mark and its final
    version write, there is never more than one such store, and the version
    counts two changes for each completed store.
   */
  lemma OneWriterAtATime(run: seq<State>, i: nat)
    requires IsRun(run) && i < |run|
    ensures run[i].ver % 2 == 1 <==> exists t :: Writing(run[i], t)
    ensures forall t, u :: Writing(run[i], t) && Writing(run[i], u) ==> t == u
    ensures run[i].ver == (2 * (|run[i].stored| - 1) + run[i].ver % 2) % VERSIONS
  {
    InvAlways(run, i);
    EvenWrap(run[i].changes);
  }

  /** A store that reported success is in the history, under the version it reported. */
  lemma StoreReportsItsVersion(run: seq<State>, i: nat, t: Tid)
    requires IsRun(run) && i < |run|
    requires t in run[i].threads && run[i].threads[t].Stored?
    ensures var th := run[i].threads[t];
      0 < th.index < |run[i].stored| && run[i].stored[th.index] == th.value && th.ver == (2 * th.index) % VERSIONS
  {
    InvAlways(run, i);
    assert ThreadOk(run[i], run[i].threads[t]);
  }

  /** Stores completed between the two version reads of a load. */
  function StoresDuring(th: Thread): int
    requires th.Loaded?
  {
    th.t1 / 2 - th.t0 / 2
  }

  /**
    A successful load returns one whole stored value, under that value's version
    and no older than the last value published before the load began, if fewer
    than 2^31 stores complete between its version reads.
   */
  lemma LoadIsWholeAndFresh(run: seq<State>, i: nat, t: Tid) returns (index: nat)
    requires IsRun(run) && i < |run|
    requires t in run[i].threads && run[i].threads[t].Loaded?
    requires StoresDuring(run[i].threads[t]) < 0x8000_0000
    ensures var th := run[i].threads[t];
      && index < |run[i].stored| && run[i].stored[index] == th.value
      && th.ver == (2 * index) % VERSIONS
      && th.floor <= index + 1
      && StoresDuring(th) == 0
  {
    InvAlways(run, i);
    var th := run[i].threads[t];
    assert ThreadOk(run[i], th);
    EvenWrap(th.t0);
    EvenWrap(th.t1);
    SameResidue(th.t0, th.t1);
    index := th.t0 / 2;
  }

  lemma SameResidue(a: nat, b: nat)
    requires a <= b < a + VERSIONS && a % VERSIONS == b % VERSIONS
    ensures a == b
  {
  }

  // ----- the bound of 2^31 stores is exact

  lemma Extend(run: seq<State>, a: Action) returns (run': seq<State>)
    requires IsRun(run) && Enabled(run[|run| - 1], a)
    ensures IsRun(run') && |run'| > 0 && run'[|run'| - 1] == Apply(run[|run| - 1], a)
  {
    run' := run + [Apply(run[|run| - 1], a)];
    forall i | 0 <= i < |run'| - 1 ensures Step(run'[i], run'[i + 1]) {
      if i < |run| - 1 { assert Step(run[i], run[i + 1]); }
    }
  }

  /** Reader 0 waits inside its copy while store after store by thread 1 completes. */
  predicate Parked(s: State, v: Value, n: nat) {
    && |v| == 2 && s.val == v
    && s.changes == 2 * n && s.ver == (2 * n) % VERSIONS
    && 0 in s.threads && s.threads[0] == Reading(Some(2), 1, 0, 0, [0])
    && (forall t :: t in s.threads && t != 0 ==> t == 1 && Returned(s.threads[t]))
    && (forall x :: x in s.stored ==> x == [0, 0] || x == [1, 1])
  }

  lemma ParkedStart() returns (run: seq<State>)
    ensures IsRun(run) && Parked(run[|run| - 1], [0, 0], 0)
  {
    run := [Init([0, 0])];
    run := Extend(run, Load(0, Some(2)));
    run := Extend(run, Run(0));
    run := Extend(run, Run(0));
  }

  lemma OneMoreStore(run: seq<State>, v: Value, n: nat) returns (run': seq<State>)
    requires IsRun(run) && Parked(run[|run| - 1], v, n)
    ensures IsRun(run') && Parked(run'[|run'| - 1], [1, 1], n + 1)
  {
    var s := run[|run| - 1];
    EvenWrap(2 * n);
    run' := Extend(run, TryStore(1, [1, 1]));
    run' := Extend(run', Run(1));
    assert run'[|run'| - 1].threads[1] == TryMark([1, 1], s.ver);
    run' := Extend(run', Run(1));
    assert run'[|run'| - 1].threads[1] == Copying([1, 1], s.ver, 0);
    run' := Extend(run', Run(1));
    run' := Extend(run', Run(1));
    assert run'[|run'| - 1].threads[1] == Copying([1, 1], s.ver, 2);
    assert run'[|run'| - 1].val == [1, 1];
    run' := Extend(run', Run(1));
  }

  lemma {:induction false} ManyStores(n: nat) returns (run: seq<State>)
    requires n > 0
    ensures IsRun(run) && Parked(run[|run| - 1], [1, 1], n)
  {
    if n == 1 {
      run := ParkedStart();
      run := OneMoreStore(run, [0, 0], 0);
    } else {
      run := ManyStores(n - 1);
      run := OneMoreStore(run, [1, 1], n - 1);
    }
  }

  /** With exactly 2^31 stores in between, a load can succeed with bytes of two different values. */
  lemma TornLoadAfterWrap() returns (run: seq<State>, i: nat)
    ensures IsRun(run) && i < |run|
    ensures 0 in run[i].threads && run[i].threads[0].Loaded?
    ensures StoresDuring(run[i].threads[0]) == 0x8000_0000
    ensures run[i].threads[0].value !in run[i].stored
  {
    run := ManyStores(0x8000_0000);
    run := Extend(run, Run(0));
    assert run[|run| - 1].threads[0] == Reading(Some(2), 1, 0, 0, [0, 1]);
    run := Extend(run, Run(0));
    i := |run| - 1;
    assert run[i].threads[0].value[0] == 0 && run[i].threads[0].value[1] == 1;
  }
}
