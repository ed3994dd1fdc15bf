/**
 The master and its workers: an event loop that owns a map of active workers and a map of
 workers that are shutting down, one request channel per worker, one channel on which
 workers report that they exited, and a wait group that Stop waits on. Every atomic action
 of the master, of a worker and of Stop is one event; a run is any sequence of enabled events.
 */
module MasterProtocol {
  import opened Basics

  /** A request a worker handled, and whether it came from its own channel or the shared one. */
  datatype Job<V> = Job(own: bool, value: V)

  /**
   queue is the content of the worker's channel, accepted everything ever sent on it, handled
   everything the handler ran on, replies its answers; closes and released count the closings
   of the request channel and of the shutdown channel.
   */
  datatype Worker<S, V, R> = Worker(
    key: Key, initial: S, state: S, queue: seq<V>, accepted: seq<V>, handled: seq<Job<V>>, replies: seq<R>,
    running: bool, closes: nat, released: nat)

  datatype Phase = Serving | Closing | Draining | Waiting | Stopped

  /**
   workers and shutdown map keys to positions in pool, which holds every worker ever created.
   lost collects the keys whose shutting-down entry was overwritten, ignored the exits the
   master received for keys it was not shutting down.
   */
  datatype Master<S, V, R> = Master(
    pool: seq<Worker<S, V, R>>, workers: map<Key, nat>, shutdown: map<Key, nat>, doneC: seq<Key>, shared: seq<V>,
    count: int, lost: multiset<Key>, ignored: multiset<Key>, phase: Phase)

  datatype Event<S, V> =
    | Create(key: Key, initial: S, ok: bool)
    | Request(key: Key, value: V, initial: S, ok: bool)
    | Broadcast(value: V)
    | Execute(value: V)
    | Destroy(key: Key)
    | Serve(i: nat)
    | ServeShared(i: nat)
    | Exit(i: nat)
    | Quit(i: nat)
    | Done
    | Stop
    | CloseOne(key: Key)
    | StartDrain
    | Return

  function NewMaster<S, V, R>(): Master<S, V, R> {
    Master([], map[], map[], [], [], 0, multiset{}, multiset{}, Serving)
  }

  predicate Active<S, V, R>(m: Master<S, V, R>, i: nat) {
    i < |m.pool| && m.pool[i].key in m.workers && m.workers[m.pool[i].key] == i
  }

  predicate ShuttingDown<S, V, R>(m: Master<S, V, R>, i: nat) {
    i < |m.pool| && m.pool[i].key in m.shutdown && m.shutdown[m.pool[i].key] == i
  }

  predicate Known<S, V, R>(m: Master<S, V, R>) {
    && (forall k | k in m.workers :: m.workers[k] < |m.pool| && m.pool[m.workers[k]].key == k)
    && (forall k | k in m.shutdown :: m.shutdown[k] < |m.pool| && m.pool[m.shutdown[k]].key == k)
  }

  function AddWorker<S, V, R>(m: Master<S, V, R>, k: Key, initial: S): Master<S, V, R> {
    m.(pool := m.pool + [Worker(k, initial, initial, [], [], [], [], true, 0, 0)],
       workers := m.workers[k := |m.pool|], count := m.count + 1)
  }

  function Enqueue<S, V, R>(w: Worker<S, V, R>, v: V): Worker<S, V, R> {
    w.(queue := w.queue + [v], accepted := w.accepted + [v])
  }

  function Send<S, V, R>(m: Master<S, V, R>, k: Key, v: V): Master<S, V, R>
    requires Known(m) && k in m.workers
  {
    m.(pool := m.pool[m.workers[k] := Enqueue(m.pool[m.workers[k]], v)])
  }

  /** The first n workers of the pool, the active ones with v sent to them. */
  function SendAll<S, V, R>(m: Master<S, V, R>, v: V, n: nat): (p: seq<Worker<S, V, R>>)
    requires n <= |m.pool|
    ensures |p| == n
    ensures forall i {:trigger p[i]} | 0 <= i < n :: p[i] == if Active(m, i) then Enqueue(m.pool[i], v) else m.pool[i]
  {
    if n == 0 then []
    else SendAll(m, v, n - 1) + [if Active(m, n - 1) then Enqueue(m.pool[n - 1], v) else m.pool[n - 1]]
  }

  /** shutdownWorker: the worker leaves the active map, possibly displacing another, and its channel is closed. */
  function ShutdownWorker<S, V, R>(m: Master<S, V, R>, k: Key): Master<S, V, R>
    requires Known(m) && k in m.workers
  {
    var i := m.workers[k];
    m.(pool := m.pool[i := m.pool[i].(closes := m.pool[i].closes + 1)],
       workers := m.workers - {k}, shutdown := m.shutdown[k := i],
       lost := m.lost + if k in m.shutdown then multiset{k} else multiset{})
  }

  /** removeWorker: only a worker that is shutting down is forgotten, counted off and released. */
  function RemoveWorker<S, V, R>(m: Master<S, V, R>, k: Key): Master<S, V, R>
    requires Known(m)
  {
    if k !in m.shutdown then m.(ignored := m.ignored + multiset{k})
    else
      var i := m.shutdown[k];
      m.(pool := m.pool[i := m.pool[i].(released := m.pool[i].released + 1)],
         shutdown := m.shutdown - {k}, count := m.count - 1)
  }

  function Handle<S, V, R>(h: (S, V) -> (S, R), w: Worker<S, V, R>, j: Job<V>): Worker<S, V, R> {
    var (s, r) := h(w.state, j.value);
    w.(state := s, handled := w.handled + [j], replies := w.replies + [r])
  }

  function SetWorker<S, V, R>(m: Master<S, V, R>, i: nat, w: Worker<S, V, R>): Master<S, V, R>
    requires i < |m.pool|
  {
    m.(pool := m.pool[i := w])
  }

  /** A worker's loop ends: it reports its key on the done channel. */
  function Leave<S, V, R>(m: Master<S, V, R>, i: nat): Master<S, V, R>
    requires i < |m.pool|
  {
    SetWorker(m, i, m.pool[i].(running := false)).(doneC := m.doneC + [m.pool[i].key])
  }

  predicate Running<S, V, R>(m: Master<S, V, R>, i: nat) {
    i < |m.pool| && m.pool[i].running
  }

  predicate Enabled<S, V, R>(m: Master<S, V, R>, e: Event<S, V>) {
    match e
    case Create(_, _, _) => m.phase == Serving
    case Request(_, _, _, _) => m.phase == Serving
    case Broadcast(_) => m.phase == Serving
    case Execute(_) => m.phase == Serving
    case Destroy(_) => m.phase == Serving
    case Serve(i) => Running(m, i) && m.pool[i].queue != []
    case ServeShared(i) => Running(m, i) && m.shared != []
    case Exit(i) => Running(m, i) && m.pool[i].closes > 0 && m.pool[i].queue == []
    case Quit(i) => Running(m, i)
    case Done => m.phase in {Serving, Draining} && m.doneC != []
    case Stop => m.phase == Serving
    case CloseOne(k) => m.phase == Closing && k in m.workers
    case StartDrain => m.phase == Closing && m.workers == map[]
    case Return => m.phase in {Closing, Draining, Waiting} && m.count == 0
  }

  function Apply<S, V, R>(h: (S, V) -> (S, R), m: Master<S, V, R>, e: Event<S, V>, createOnRequest: bool): Master<S, V, R>
    requires Known(m) && Enabled(m, e)
  {
    match e
    case Create(k, s, ok) => if k in m.workers || !ok then m else AddWorker(m, k, s)
    case Request(k, v, s, ok) =>
      if k in m.workers then Send(m, k, v)
      else if createOnRequest && ok then Send(AddWorker(m, k, s), k, v)
      else m
    case Broadcast(v) => m.(pool := SendAll(m, v, |m.pool|))
    case Execute(v) => if m.workers == map[] then m else m.(shared := m.shared + [v])
    case Destroy(k) => if k in m.workers then ShutdownWorker(m, k) else m
    case Serve(i) =>
      var w := m.pool[i];
      SetWorker(m, i, Handle(h, w, Job(true, w.queue[0])).(queue := w.queue[1..]))
    case ServeShared(i) =>
      SetWorker(m, i, Handle(h, m.pool[i], Job(false, m.shared[0]))).(shared := m.shared[1..])
    case Exit(i) => Leave(m, i)
    case Quit(i) => Leave(m, i)
    case Done =>
      var m' := RemoveWorker(m.(doneC := m.doneC[1..]), m.doneC[0]);
      if m.phase == Draining && m'.shutdown == map[] then m'.(phase := Waiting) else m'
    case Stop => m.(phase := Closing)
    case CloseOne(k) => ShutdownWorker(m, k)
    case StartDrain => m.(phase := Draining)
    case Return => m.(phase := Stopped)
  }
}
