/** What every event of the master and its workers keeps, for every handler and every schedule. */
module MasterInvariants {
  import opened Basics
  import opened MasterProtocol

  // --- Channels ---

  /**
   A worker's request channel is closed exactly once it has left the active map, and its
   shutdown channel at most once, after it has left both maps.
   */
  predicate ChannelsOk<S, V, R>(m: Master<S, V, R>) {
    forall i | 0 <= i < |m.pool| ::
      && m.pool[i].closes == (if Active(m, i) then 0 else 1)
      && m.pool[i].released <= (if Active(m, i) || ShuttingDown(m, i) then 0 else 1)
  }

  /** No worker is both active and shutting down. */
  predicate Disjoint<S, V, R>(m: Master<S, V, R>) {
    forall i | 0 <= i < |m.pool| :: !(Active(m, i) && ShuttingDown(m, i))
  }

  // --- Conservation ---

  /** The keys of the running workers among the first n. */
  function RunningKeys<S, V, R>(p: seq<Worker<S, V, R>>, n: nat): multiset<Key>
    requires n <= |p|
  {
    if n == 0 then multiset{}
    else RunningKeys(p, n - 1) + if p[n - 1].running then multiset{p[n - 1].key} else multiset{}
  }

  function Alive<S, V, R>(m: Master<S, V, R>): multiset<Key> {
    RunningKeys(m.pool, |m.pool|)
  }

  function Tracked<S, V, R>(m: Master<S, V, R>): multiset<Key> {
    multiset(m.workers.Keys) + multiset(m.shutdown.Keys) + m.lost
  }

  /**
   Key by key, the workers the master still tracks or has lost track of are those that run, plus
   the exits not yet received, plus the exits it ignored; the wait group counts them.
   */
  predicate Conserved<S, V, R>(m: Master<S, V, R>) {
    && Tracked(m) == Alive(m) + multiset(m.doneC) + m.ignored
    && m.count == |m.workers| + |m.shutdown| + |m.lost|
  }

  // --- Linearisation ---

  /** The state and the replies of running the handler sequentially. */
  function Sequential<S, V, R>(h: (S, V) -> (S, R), s: S, jobs: seq<Job<V>>): (S, seq<R>) {
    if jobs == [] then (s, [])
    else
      var (s1, rs) := Sequential(h, s, jobs[..|jobs| - 1]);
      var (s2, r) := h(s1, jobs[|jobs| - 1].value);
      (s2, rs + [r])
  }

  /** The requests among the jobs that came from the worker's own channel. */
  function Own<V>(jobs: seq<Job<V>>): seq<V> {
    if jobs == [] then []
    else Own(jobs[..|jobs| - 1]) + if jobs[|jobs| - 1].own then [jobs[|jobs| - 1].value] else []
  }

  /** What was handled and what is queued is what the master accepted, in that order. */
  ghost predicate Linear<S, V, R>(h: (S, V) -> (S, R), w: Worker<S, V, R>) {
    && Own(w.handled) + w.queue == w.accepted
    && Sequential(h, w.initial, w.handled) == (w.state, w.replies)
  }

  ghost predicate AllLinear<S, V, R>(h: (S, V) -> (S, R), m: Master<S, V, R>) {
    forall i | 0 <= i < |m.pool| :: Linear(h, m.pool[i])
  }

  ghost predicate Structured<S, V, R>(m: Master<S, V, R>) {
    Known(m) && Disjoint(m) && ChannelsOk(m)
  }

  ghost predicate Inv<S, V, R>(h: (S, V) -> (S, R), m: Master<S, V, R>) {
    Structured(m) && Conserved(m) && AllLinear(h, m)
  }

  // --- One worker changes ---

  lemma {:induction false} RunningKeysPrefix<S, V, R>(p: seq<Worker<S, V, R>>, q: seq<Worker<S, V, R>>, n: nat)
    requires n <= |p| && n <= |q|
    requires forall i | 0 <= i < n :: p[i].key == q[i].key && p[i].running == q[i].running
    ensures RunningKeys(p, n) == RunningKeys(q, n)
  {
    if n > 0 { RunningKeysPrefix(p, q, n - 1); }
  }

  /** Only the queue, history and state of one worker change. */
  predicate SameShape<S, V, R>(a: Worker<S, V, R>, b: Worker<S, V, R>) {
    a.key == b.key && a.running == b.running && a.closes == b.closes && a.released == b.released
  }

  lemma {:induction false} RunningKeysStop<S, V, R>(p: seq<Worker<S, V, R>>, q: seq<Worker<S, V, R>>, i: nat, n: nat)
    requires i < n <= |p| == |q|
    requires forall j | 0 <= j < n :: p[j].key == q[j].key && (j != i ==> p[j].running == q[j].running)
    requires p[i].running && !q[i].running
    ensures RunningKeys(p, n) == RunningKeys(q, n) + multiset{p[i].key}
  {
    if i == n - 1 { RunningKeysPrefix(p, q, n - 1); } else { RunningKeysStop(p, q, i, n - 1); }
  }

  lemma ReshapeStructured<S, V, R>(m: Master<S, V, R>, m': Master<S, V, R>)
    requires Structured(m)
    requires m'.workers == m.workers && m'.shutdown == m.shutdown && |m'.pool| == |m.pool|
    requires forall i | 0 <= i < |m.pool| :: SameShape(m'.pool[i], m.pool[i])
    ensures Structured(m')
  {
    forall i | 0 <= i < |m.pool| ensures Active(m', i) == Active(m, i) && ShuttingDown(m', i) == ShuttingDown(m, i) {
      assert SameShape(m'.pool[i], m.pool[i]);
    }
    forall k | k in m.workers ensures m'.pool[m.workers[k]].key == k {
      assert SameShape(m'.pool[m.workers[k]], m.pool[m.workers[k]]);
    }
    forall k | k in m.shutdown ensures m'.pool[m.shutdown[k]].key == k {
      assert SameShape(m'.pool[m.shutdown[k]], m.pool[m.shutdown[k]]);
    }
  }

  lemma ReshapeConserved<S, V, R>(m: Master<S, V, R>, m': Master<S, V, R>)
    requires Conserved(m) && m' == m.(pool := m'.pool, shared := m'.shared) && |m'.pool| == |m.pool|
    requires forall i | 0 <= i < |m.pool| :: SameShape(m'.pool[i], m.pool[i])
    ensures Conserved(m')
  {
    hide RunningKeys;
    RunningKeysPrefix(m'.pool, m.pool, |m.pool|);
  }

  /** Replacing pool contents without touching shapes keeps everything but linearity. */
  lemma ReshapeKeeps<S, V, R>(h: (S, V) -> (S, R), m: Master<S, V, R>, m': Master<S, V, R>)
    requires Inv(h, m)
    requires m' == m.(pool := m'.pool, shared := m'.shared) && |m'.pool| == |m.pool|
    requires forall i | 0 <= i < |m.pool| :: SameShape(m'.pool[i], m.pool[i]) && Linear(h, m'.pool[i])
    ensures Inv(h, m')
  {
    hide Structured, Conserved, Linear, SameShape;
    ReshapeStructured(m, m');
    ReshapeConserved(m, m');
  }

  lemma EnqueueLinear<S, V, R>(h: (S, V) -> (S, R), w: Worker<S, V, R>, v: V)
    requires Linear(h, w)
    ensures Linear(h, Enqueue(w, v))
  {
    assert Own(w.handled) + (w.queue + [v]) == (Own(w.handled) + w.queue) + [v];
  }

  lemma HandleLinear<S, V, R>(h: (S, V) -> (S, R), w: Worker<S, V, R>, j: Job<V>)
    requires Linear(h, w)
    requires j.own ==> w.queue != [] && w.queue[0] == j.value
    ensures Linear(h, Handle(h, w, j).(queue := if j.own then w.queue[1..] else w.queue))
  {
    var jobs := w.handled + [j];
    assert jobs[..|jobs| - 1] == w.handled;
    if j.own { assert (Own(w.handled) + [j.value]) + w.queue[1..] == Own(w.handled) + w.queue; }
  }

  lemma SendKeeps<S, V, R>(h: (S, V) -> (S, R), m: Master<S, V, R>, k: Key, v: V)
    requires Inv(h, m) && k in m.workers
    ensures Inv(h, Send(m, k, v))
  {
    hide Conserved, ChannelsOk, Disjoint, Linear;
    EnqueueLinear(h, m.pool[m.workers[k]], v);
    ReshapeKeeps(h, m, Send(m, k, v));
  }

  lemma BroadcastKeeps<S, V, R>(h: (S, V) -> (S, R), m: Master<S, V, R>, v: V)
    requires Inv(h, m)
    ensures Inv(h, m.(pool := SendAll(m, v, |m.pool|)))
  {
    hide Conserved, ChannelsOk, Disjoint, Linear, Active;
    forall i | 0 <= i < |m.pool| ensures Linear(h, Enqueue(m.pool[i], v)) { EnqueueLinear(h, m.pool[i], v); }
    ReshapeKeeps(h, m, m.(pool := SendAll(m, v, |m.pool|)));
  }

  lemma ServeKeeps<S, V, R>(h: (S, V) -> (S, R), m: Master<S, V, R>, i: nat, j: Job<V>, shared: seq<V>)
    requires Inv(h, m) && i < |m.pool|
    requires j.own ==> m.pool[i].queue != [] && m.pool[i].queue[0] == j.value
    ensures var w := m.pool[i];
            Inv(h, SetWorker(m, i, Handle(h, w, j).(queue := if j.own then w.queue[1..] else w.queue)).(shared := shared))
  {
    hide Conserved, ChannelsOk, Disjoint, Linear;
    var w := m.pool[i];
    HandleLinear(h, w, j);
    ReshapeKeeps(h, m, SetWorker(m, i, Handle(h, w, j).(queue := if j.own then w.queue[1..] else w.queue)).(shared := shared));
  }

  // --- A worker is created, shut down, exits, is removed ---

  lemma AddStructured<S, V, R>(m: Master<S, V, R>, k: Key, s: S)
    requires Structured(m) && k !in m.workers
    ensures Structured(AddWorker(m, k, s))
  {
    var m' := AddWorker(m, k, s);
    forall i | 0 <= i < |m.pool| ensures Active(m', i) == Active(m, i) && ShuttingDown(m', i) == ShuttingDown(m, i) {}
    assert Active(m', |m.pool|) && !ShuttingDown(m', |m.pool|);
    forall i | 0 <= i < |m.pool|
      ensures m'.pool[i].closes == (if Active(m', i) then 0 else 1)
      ensures m'.pool[i].released <= (if Active(m', i) || ShuttingDown(m', i) then 0 else 1)
    {
      assert m'.pool[i] == m.pool[i];
    }
  }

  lemma KeysAfterInsert(m: map<Key, nat>, k: Key, i: nat)
    ensures multiset(m[k := i].Keys) == multiset(m.Keys) + (if k in m then multiset{} else multiset{k})
    ensures |m[k := i]| == |m| + if k in m then 0 else 1
  {
    assert m[k := i].Keys == m.Keys + {k};
  }

  lemma KeysAfterDelete(m: map<Key, nat>, k: Key)
    requires k in m
    ensures multiset((m - {k}).Keys) + multiset{k} == multiset(m.Keys)
    ensures |m - {k}| + 1 == |m|
  {
    assert (m - {k}).Keys == m.Keys - {k};
  }

  lemma AddConserved<S, V, R>(m: Master<S, V, R>, k: Key, s: S)
    requires Conserved(m) && k !in m.workers
    ensures Conserved(AddWorker(m, k, s))
  {
    var m' := AddWorker(m, k, s);
    RunningKeysPrefix(m'.pool, m.pool, |m.pool|);
    KeysAfterInsert(m.workers, k, |m.pool|);
    assert Alive(m') == Alive(m) + multiset{k};
    assert Tracked(m') == Tracked(m) + multiset{k};
  }

  lemma AddKeeps<S, V, R>(h: (S, V) -> (S, R), m: Master<S, V, R>, k: Key, s: S)
    requires Inv(h, m) && k !in m.workers
    ensures Inv(h, AddWorker(m, k, s))
  {
    hide Structured, Conserved;
    AddStructured(m, k, s);
    AddConserved(m, k, s);
  }

  lemma ShutdownStructured<S, V, R>(m: Master<S, V, R>, k: Key)
    requires Structured(m) && k in m.workers
    ensures Structured(ShutdownWorker(m, k))
  {
    var m' := ShutdownWorker(m, k);
    var x := m.workers[k];
    forall i | 0 <= i < |m.pool|
      ensures m'.pool[i].key == m.pool[i].key
      ensures Active(m', i) == (Active(m, i) && i != x)
      ensures ShuttingDown(m', i) == (i == x || (ShuttingDown(m, i) && m.pool[i].key != k))
    {
    }
    assert Active(m, x);
  }

  /** One key moves out of the first multiset and into the second, or into the third. */
  lemma MoveKey(w: multiset<Key>, s: multiset<Key>, l: multiset<Key>, w': multiset<Key>, k: Key, displaced: bool)
    requires w' + multiset{k} == w
    ensures w' + (s + if displaced then multiset{} else multiset{k}) + (l + if displaced then multiset{k} else multiset{})
         == w + s + l
  {
    if displaced {
      assert w' + (s + multiset{}) + (l + multiset{k}) == (w' + multiset{k}) + s + l;
    } else {
      assert w' + (s + multiset{k}) + (l + multiset{}) == (w' + multiset{k}) + s + l;
    }
  }

  lemma ShutdownTracked<S, V, R>(m: Master<S, V, R>, k: Key)
    requires Known(m) && k in m.workers
    ensures Tracked(ShutdownWorker(m, k)) == Tracked(m)
  {
    hide Known;
    KeysAfterDelete(m.workers, k);
    KeysAfterInsert(m.shutdown, k, m.workers[k]);
    MoveKey(multiset(m.workers.Keys), multiset(m.shutdown.Keys), m.lost, multiset((m.workers - {k}).Keys), k, k in m.shutdown);
  }

  lemma ShutdownConserved<S, V, R>(m: Master<S, V, R>, k: Key)
    requires Known(m) && Conserved(m) && k in m.workers
    ensures Conserved(ShutdownWorker(m, k))
  {
    hide RunningKeys, Tracked;
    var m' := ShutdownWorker(m, k);
    RunningKeysPrefix(m'.pool, m.pool, |m.pool|);
    KeysAfterDelete(m.workers, k);
    KeysAfterInsert(m.shutdown, k, m.workers[k]);
    ShutdownTracked(m, k);
  }

  lemma ShutdownKeeps<S, V, R>(h: (S, V) -> (S, R), m: Master<S, V, R>, k: Key)
    requires Inv(h, m) && k in m.workers
    ensures Inv(h, ShutdownWorker(m, k))
  {
    hide Disjoint, ChannelsOk, Conserved;
    ShutdownStructured(m, k);
    ShutdownConserved(m, k);
  }

  lemma LeaveKeeps<S, V, R>(h: (S, V) -> (S, R), m: Master<S, V, R>, i: nat)
    requires Inv(h, m) && Running(m, i)
    ensures Inv(h, Leave(m, i))
  {
    hide Structured, Conserved, Alive;
    LeaveStructured(m, i);
    LeaveConserved(m, i);
  }

  lemma LeaveStructured<S, V, R>(m: Master<S, V, R>, i: nat)
    requires Structured(m) && i < |m.pool|
    ensures Structured(Leave(m, i))
  {
    var m' := Leave(m, i);
    forall j | 0 <= j < |m.pool|
      ensures m'.pool[j].key == m.pool[j].key
      ensures Active(m', j) == Active(m, j) && ShuttingDown(m', j) == ShuttingDown(m, j)
    {
    }
  }

  lemma LeaveConserved<S, V, R>(m: Master<S, V, R>, i: nat)
    requires Conserved(m) && Running(m, i)
    ensures Conserved(Leave(m, i))
  {
    var m' := Leave(m, i);
    RunningKeysStop(m.pool, m'.pool, i, |m.pool|);
    assert multiset(m'.doneC) == multiset(m.doneC) + multiset{m.pool[i].key};
  }

  lemma RemoveStructured<S, V, R>(m: Master<S, V, R>, k: Key)
    requires Structured(m)
    ensures Structured(RemoveWorker(m, k))
  {
    if k in m.shutdown {
      var m' := RemoveWorker(m, k);
      var x := m.shutdown[k];
      assert ShuttingDown(m, x);
      forall i | 0 <= i < |m.pool|
        ensures m'.pool[i].key == m.pool[i].key
        ensures Active(m', i) == Active(m, i)
        ensures ShuttingDown(m', i) == (ShuttingDown(m, i) && i != x)
      {
      }
    }
  }

  lemma HeadOff(done: seq<Key>)
    requires done != []
    ensures multiset(done) == multiset(done[1..]) + multiset{done[0]}
  {
    assert done == [done[0]] + done[1..];
  }

  lemma RemoveTracked<S, V, R>(m: Master<S, V, R>, k: Key)
    requires Known(m) && k in m.shutdown
    ensures var m' := RemoveWorker(m, k);
            && Tracked(m') + multiset{k} == Tracked(m)
            && Alive(m') == Alive(m)
            && |m'.shutdown| + 1 == |m.shutdown|
  {
    hide RunningKeys;
    var m' := RemoveWorker(m, k);
    RunningKeysPrefix(m'.pool, m.pool, |m.pool|);
    KeysAfterDelete(m.shutdown, k);
  }

  /** Taking one exit off the done channel keeps the balance, whether or not the exit is ignored. */
  lemma RemoveConserved<S, V, R>(m: Master<S, V, R>)
    requires Known(m) && Conserved(m) && m.doneC != []
    ensures Conserved(RemoveWorker(m.(doneC := m.doneC[1..]), m.doneC[0]))
  {
    hide RunningKeys, Alive, Known;
    var d := m.(doneC := m.doneC[1..]);
    SamePool(m, d);
    var k := m.doneC[0];
    var m' := RemoveWorker(d, k);
    HeadOff(m.doneC);
    if k in m.shutdown {
      RemoveTracked(d, k);
      Cancel(Tracked(m'), Alive(m) + multiset(d.doneC) + m.ignored, k);
    } else {
      SamePool(m, m');
    }
  }

  lemma Cancel(a: multiset<Key>, b: multiset<Key>, k: Key)
    requires a + multiset{k} == b + multiset{k}
    ensures a == b
  {
    assert a == (a + multiset{k}) - multiset{k};
    assert b == (b + multiset{k}) - multiset{k};
  }

  lemma SamePool<S, V, R>(m: Master<S, V, R>, d: Master<S, V, R>)
    requires d.pool == m.pool && d.workers == m.workers && d.shutdown == m.shutdown
    ensures Alive(d) == Alive(m) && (Known(m) ==> Known(d))
  {
  }

  lemma DoneKeeps<S, V, R>(h: (S, V) -> (S, R), m: Master<S, V, R>)
    requires Inv(h, m) && m.doneC != []
    ensures Inv(h, RemoveWorker(m.(doneC := m.doneC[1..]), m.doneC[0]))
  {
    hide Disjoint, ChannelsOk, Conserved;
    var d := m.(doneC := m.doneC[1..]);
    SameMapsStructured(m, d);
    RemoveStructured(d, m.doneC[0]);
    RemoveConserved(m);
  }

  lemma SameMapsStructured<S, V, R>(m: Master<S, V, R>, d: Master<S, V, R>)
    requires Structured(m) && d.pool == m.pool && d.workers == m.workers && d.shutdown == m.shutdown
    ensures Structured(d)
  {
    forall i | 0 <= i < |m.pool| ensures Active(d, i) == Active(m, i) && ShuttingDown(d, i) == ShuttingDown(m, i) {}
  }

  lemma PhaseKeeps<S, V, R>(h: (S, V) -> (S, R), m: Master<S, V, R>, d: Master<S, V, R>)
    requires Inv(h, m) && d == m.(phase := d.phase, shared := d.shared)
    ensures Inv(h, d)
  {
    SameMapsStructured(m, d);
  }

  // --- Whole runs ---

  /** Every event keeps every invariant. */
  lemma StepKeeps<S, V, R>(h: (S, V) -> (S, R), m: Master<S, V, R>, e: Event<S, V>, create: bool)
    requires Inv(h, m) && Enabled(m, e)
    ensures Inv(h, Apply(h, m, e, create))
  {
    hide Disjoint, ChannelsOk, Conserved, AllLinear;
    match e
    case Create(k, s, ok) => if k !in m.workers { AddKeeps(h, m, k, s); }
    case Request(k, v, s, ok) =>
      if k in m.workers {
        SendKeeps(h, m, k, v);
      } else {
        AddKeeps(h, m, k, s);
        SendKeeps(h, AddWorker(m, k, s), k, v);
      }
    case Broadcast(v) => BroadcastKeeps(h, m, v);
    case Execute(v) => PhaseKeeps(h, m, m.(shared := m.shared + [v]));
    case Destroy(k) => if k in m.workers { ShutdownKeeps(h, m, k); }
    case Serve(i) => ServeKeeps(h, m, i, Job(true, m.pool[i].queue[0]), m.shared);
    case ServeShared(i) => ServeKeeps(h, m, i, Job(false, m.shared[0]), m.shared[1..]);
    case Exit(i) => LeaveKeeps(h, m, i);
    case Quit(i) => LeaveKeeps(h, m, i);
    case Done =>
      DoneKeeps(h, m);
      var m' := RemoveWorker(m.(doneC := m.doneC[1..]), m.doneC[0]);
      PhaseKeeps(h, m', m'.(phase := Waiting));
    case Stop => PhaseKeeps(h, m, m.(phase := Closing));
    case CloseOne(k) => ShutdownKeeps(h, m, k);
    case StartDrain => PhaseKeeps(h, m, m.(phase := Draining));
    case Return => PhaseKeeps(h, m, m.(phase := Stopped));
  }

  ghost predicate Possible<S, V, R>(h: (S, V) -> (S, R), m: Master<S, V, R>, run: seq<Event<S, V>>, create: bool)
    decreases |run|
  {
    run == [] || (Known(m) && Enabled(m, run[0]) && Possible(h, Apply(h, m, run[0], create), run[1..], create))
  }

  ghost function After<S, V, R>(h: (S, V) -> (S, R), m: Master<S, V, R>, run: seq<Event<S, V>>, create: bool): Master<S, V, R>
    requires Possible(h, m, run, create)
    decreases |run|
  {
    if run == [] then m else After(h, Apply(h, m, run[0], create), run[1..], create)
  }

  lemma {:induction false} RunKeeps<S, V, R>(h: (S, V) -> (S, R), m: Master<S, V, R>, run: seq<Event<S, V>>, create: bool)
    requires Inv(h, m) && Possible(h, m, run, create)
    ensures Inv(h, After(h, m, run, create))
    decreases |run|
  {
    hide Inv, Apply;
    if run != [] {
      StepKeeps(h, m, run[0], create);
      RunKeeps(h, Apply(h, m, run[0], create), run[1..], create);
    }
  }

  lemma NewInv<S, V, R>(h: (S, V) -> (S, R))
    ensures Inv(h, NewMaster<S, V, R>())
  {
  }

  /** What an event sends on the channel of worker i. */
  function Delivered<S, V, R>(m: Master<S, V, R>, e: Event<S, V>, i: nat): seq<V> {
    match e
    case Request(k, v, _, _) => if k in m.workers && m.workers[k] == i then [v] else []
    case Broadcast(v) => if Active(m, i) then [v] else []
    case _ => []
  }

  lemma SentExact<S, V, R>(m: Master<S, V, R>, k: Key, v: V, i: nat)
    requires Known(m) && k in m.workers && i < |m.pool|
    ensures Send(m, k, v).pool[i].accepted == m.pool[i].accepted + if m.workers[k] == i then [v] else []
  {
  }

  lemma OthersAcceptNothing<S, V, R>(h: (S, V) -> (S, R), m: Master<S, V, R>, e: Event<S, V>, create: bool, i: nat)
    requires Known(m) && Enabled(m, e) && i < |m.pool| && !e.Request? && !e.Broadcast?
    ensures var m' := Apply(h, m, e, create);
            i < |m'.pool| && m'.pool[i].accepted == m.pool[i].accepted
  {
  }

  /** A request is accepted by the worker its key names and no other, a broadcast by every active worker. */
  lemma AcceptedExact<S, V, R>(h: (S, V) -> (S, R), m: Master<S, V, R>, e: Event<S, V>, create: bool, i: nat)
    requires Known(m) && Enabled(m, e) && i < |m.pool|
    ensures var m' := Apply(h, m, e, create);
            i < |m'.pool| && m'.pool[i].accepted == m.pool[i].accepted + Delivered(m, e, i)
  {
    if e.Request? {
      var k, a := e.key, AddWorker(m, e.key, e.initial);
      if k in m.workers { SentExact(m, k, e.value, i); } else { SentExact(a, k, e.value, i); }
    } else if !e.Broadcast? {
      OthersAcceptNothing(h, m, e, create, i);
    }
  }

  /**
   In every state a master can reach, under every schedule: the channel of an active worker is
   open, that of any other closed exactly once, and each shutdown channel is closed at most once;
   the wait group never goes negative; and each worker's replies are those of running its handler
   sequentially, on requests that extend to exactly what the master accepted for it, in order.
   */
  lemma MasterSafe<S, V, R>(h: (S, V) -> (S, R), run: seq<Event<S, V>>, create: bool)
    requires Possible(h, NewMaster<S, V, R>(), run, create)
    ensures var m := After(h, NewMaster<S, V, R>(), run, create);
            && (forall k | k in m.workers :: m.workers[k] < |m.pool| && m.pool[m.workers[k]].closes == 0)
            && (forall i | 0 <= i < |m.pool| && !Active(m, i) :: m.pool[i].closes == 1)
            && (forall i | 0 <= i < |m.pool| :: m.pool[i].released <= 1)
            && m.count >= |m.workers| + |m.shutdown|
            && (forall i | 0 <= i < |m.pool| ::
                  && Own(m.pool[i].handled) + m.pool[i].queue == m.pool[i].accepted
                  && m.pool[i].replies == Sequential(h, m.pool[i].initial, m.pool[i].handled).1)
  {
    hide Own, Sequential, RunningKeys;
    NewInv<S, V, R>(h);
    RunKeeps(h, NewMaster<S, V, R>(), run, create);
    var m := After(h, NewMaster<S, V, R>(), run, create);
    forall k | k in m.workers ensures m.workers[k] < |m.pool| && m.pool[m.workers[k]].closes == 0 {
      assert Active(m, m.workers[k]);
    }
    forall i | 0 <= i < |m.pool|
      ensures Own(m.pool[i].handled) + m.pool[i].queue == m.pool[i].accepted
      ensures m.pool[i].replies == Sequential(h, m.pool[i].initial, m.pool[i].handled).1
    {
      assert Linear(h, m.pool[i]);
    }
  }
}
