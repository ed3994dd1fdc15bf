/**
 Where requests end up, over whole runs. The reference knows nothing of workers, channels or maps:
 only which keys are active, and the requests in the order they were made.
 */
module MasterRouting {
  import opened Basics
  import opened MasterProtocol
  import opened MasterInvariants

  // --- The reference: a set of keys and a list of events ---

  /** The active keys after an event. */
  function Roster<S, V>(active: set<Key>, e: Event<S, V>, create: bool): set<Key> {
    match e
    case Create(k, _, ok) => if ok then active + {k} else active
    case Request(k, _, _, ok) => if create && ok then active + {k} else active
    case Destroy(k) => active - {k}
    case CloseOne(k) => active - {k}
    case _ => active
  }

  /** What an event sends to a key. */
  function Letter<S, V>(active: set<Key>, e: Event<S, V>, create: bool, k: Key): seq<V> {
    match e
    case Request(key, v, _, ok) => if key == k && (k in active || (create && ok)) then [v] else []
    case Broadcast(v) => if k in active then [v] else []
    case _ => []
  }

  /** Everything a run sends to a key, in order. */
  function Mail<S, V>(active: set<Key>, run: seq<Event<S, V>>, create: bool, k: Key): seq<V>
    decreases |run|
  {
    if run == [] then []
    else Letter(active, run[0], create, k) + Mail(Roster(active, run[0], create), run[1..], create, k)
  }

  /** Everything a run gives to whichever worker takes it, in order; with no active worker it is refused. */
  function Executed<S, V>(active: set<Key>, run: seq<Event<S, V>>, create: bool): seq<V>
    decreases |run|
  {
    if run == [] then []
    else (if run[0].Execute? && active != {} then [run[0].value] else [])
         + Executed(Roster(active, run[0], create), run[1..], create)
  }

  /** The initial state that an event which creates a worker for the key carries. */
  function Birth<S, V>(active: set<Key>, e: Event<S, V>, create: bool, k: Key): seq<S> {
    if k in active then []
    else match e
      case Create(key, s, ok) => if key == k && ok then [s] else []
      case Request(key, _, s, ok) => if key == k && create && ok then [s] else []
      case _ => []
  }

  /** Those of a whole run, in order. */
  function Births<S, V>(active: set<Key>, run: seq<Event<S, V>>, create: bool, k: Key): seq<S>
    decreases |run|
  {
    if run == [] then []
    else Birth(active, run[0], create, k) + Births(Roster(active, run[0], create), run[1..], create, k)
  }

  // --- Requests to a key ---

  /** What the workers of a key accepted, one worker after the other in the order they were created. */
  function AcceptedBy<S, V, R>(p: seq<Worker<S, V, R>>, k: Key, n: nat): seq<V>
    requires n <= |p|
  {
    if n == 0 then []
    else AcceptedBy(p, k, n - 1) + if p[n - 1].key == k then p[n - 1].accepted else []
  }

  /** The active worker of a key is the last one created for it. */
  ghost predicate Latest<S, V, R>(m: Master<S, V, R>)
    requires Known(m)
  {
    forall k, j | k in m.workers && m.workers[k] < j < |m.pool| :: m.pool[j].key != k
  }

  lemma {:induction false} SameAccepted<S, V, R>(p: seq<Worker<S, V, R>>, q: seq<Worker<S, V, R>>, k: Key, n: nat)
    requires n <= |p| && n <= |q|
    requires forall i | 0 <= i < n :: q[i].key == p[i].key && (p[i].key == k ==> q[i].accepted == p[i].accepted)
    ensures AcceptedBy(q, k, n) == AcceptedBy(p, k, n)
  {
    if n > 0 { SameAccepted(p, q, k, n - 1); }
  }

  /** Only the last worker of the key accepts more. */
  lemma {:induction false} LastAccepts<S, V, R>(
      p: seq<Worker<S, V, R>>, q: seq<Worker<S, V, R>>, k: Key, n: nat, last: nat, more: seq<V>)
    requires last < n <= |p| && n <= |q|
    requires forall i | 0 <= i < n :: q[i].key == p[i].key && (p[i].key == k && i != last ==> q[i].accepted == p[i].accepted)
    requires p[last].key == k && q[last].accepted == p[last].accepted + more
    requires forall i | last < i < n :: p[i].key != k
    ensures AcceptedBy(q, k, n) == AcceptedBy(p, k, n) + more
  {
    if last == n - 1 { SameAccepted(p, q, k, n - 1); } else { LastAccepts(p, q, k, n - 1, last, more); }
  }

  /** The workers of p are still there in q, with the same key, the same initial state and the same jobs handled. */
  ghost predicate Still<S, V, R>(p: seq<Worker<S, V, R>>, q: seq<Worker<S, V, R>>) {
    |p| <= |q| && forall i {:trigger q[i]} | 0 <= i < |p| ::
      q[i].key == p[i].key && q[i].initial == p[i].initial && q[i].handled == p[i].handled
  }

  lemma SendStill<S, V, R>(m: Master<S, V, R>, k: Key, v: V)
    requires Known(m) && k in m.workers
    ensures Still(m.pool, Send(m, k, v).pool) && |Send(m, k, v).pool| == |m.pool|
  {
  }

  lemma CreateStill<S, V, R>(m: Master<S, V, R>, k: Key, s: S, v: V)
    requires Known(m)
    ensures var a := AddWorker(m, k, s);
            && Known(a) && k in a.workers && Still(m.pool, a.pool) && Still(m.pool, Send(a, k, v).pool)
            && |a.pool| == |Send(a, k, v).pool| == |m.pool| + 1
            && a.pool[|m.pool|].handled == Send(a, k, v).pool[|m.pool|].handled == []
  {
  }

  lemma ShutdownStill<S, V, R>(m: Master<S, V, R>, k: Key)
    requires Known(m) && k in m.workers
    ensures Still(m.pool, ShutdownWorker(m, k).pool) && |ShutdownWorker(m, k).pool| == |m.pool|
  {
  }

  lemma DoneStill<S, V, R>(h: (S, V) -> (S, R), m: Master<S, V, R>, create: bool)
    requires Known(m) && Enabled(m, Event<S, V>.Done)
    ensures var m' := Apply(h, m, Event<S, V>.Done, create);
            Still(m.pool, m'.pool) && |m'.pool| == |m.pool|
  {
  }

  /** Unless a worker handles a job, the pool keeps every key and all jobs, and may get one worker at the end. */
  lemma PoolStill<S, V, R>(h: (S, V) -> (S, R), m: Master<S, V, R>, e: Event<S, V>, create: bool)
    requires Known(m) && Enabled(m, e) && !e.Serve? && !e.ServeShared?
    ensures var m' := Apply(h, m, e, create);
            && Still(m.pool, m'.pool)
            && |m'.pool| == |m.pool| + (if Creates(m, e, create) then 1 else 0)
            && (Creates(m, e, create) ==> m'.pool[|m.pool|].handled == [])
  {
    hide Known, Send, AddWorker, ShutdownWorker;
    match e
    case Create(k, s, ok) => if Creates(m, e, create) { AddStill(m, k, s); }
    case Request(k, v, s, ok) => if k in m.workers { SendStill(m, k, v); } else { CreateStill(m, k, s, v); }
    case Destroy(k) => if k in m.workers { ShutdownStill(m, k); }
    case CloseOne(k) => ShutdownStill(m, k);
    case Done => DoneStill(h, m, create);
    case _ =>
  }

  lemma AddStill<S, V, R>(m: Master<S, V, R>, k: Key, s: S)
    ensures var a := AddWorker(m, k, s);
            Still(m.pool, a.pool) && |a.pool| == |m.pool| + 1 && a.pool[|m.pool|].handled == []
  {
  }

  /** An event keeps every key and may add one worker at the end. */
  lemma PoolGrows<S, V, R>(h: (S, V) -> (S, R), m: Master<S, V, R>, e: Event<S, V>, create: bool)
    requires Known(m) && Enabled(m, e)
    ensures var m' := Apply(h, m, e, create);
            && |m'.pool| == |m.pool| + (if Creates(m, e, create) then 1 else 0)
            && (forall i | 0 <= i < |m.pool| :: m'.pool[i].key == m.pool[i].key)
  {
    if e.Serve? || e.ServeShared? {
      ServeKeepsKeys(h, m, e, create);
    } else {
      hide Apply, Creates;
      PoolStill(h, m, e, create);
    }
  }

  lemma ServeKeepsKeys<S, V, R>(h: (S, V) -> (S, R), m: Master<S, V, R>, e: Event<S, V>, create: bool)
    requires Known(m) && Enabled(m, e) && (e.Serve? || e.ServeShared?)
    ensures var m' := Apply(h, m, e, create);
            && |m'.pool| == |m.pool|
            && (forall i | 0 <= i < |m.pool| :: m'.pool[i].key == m.pool[i].key && m'.pool[i].initial == m.pool[i].initial)
  {
  }

  predicate Creates<S, V, R>(m: Master<S, V, R>, e: Event<S, V>, create: bool) {
    || (e.Create? && e.key !in m.workers && e.ok)
    || (e.Request? && e.key !in m.workers && create && e.ok)
  }

  lemma NewWorker<S, V, R>(h: (S, V) -> (S, R), m: Master<S, V, R>, e: Event<S, V>, create: bool)
    requires Known(m) && Enabled(m, e) && Creates(m, e, create)
    ensures var m' := Apply(h, m, e, create);
            && m'.workers == m.workers[e.key := |m.pool|]
            && |m'.pool| > |m.pool| && m'.pool[|m.pool|].key == e.key
            && m'.pool[|m.pool|].accepted == Letter(m.workers.Keys, e, create, e.key)
  {
  }

  lemma MapShrinks<S, V, R>(h: (S, V) -> (S, R), m: Master<S, V, R>, e: Event<S, V>, create: bool)
    requires Known(m) && Enabled(m, e) && !Creates(m, e, create)
    ensures var m' := Apply(h, m, e, create);
            && m'.workers.Keys <= m.workers.Keys
            && forall k | k in m'.workers :: m'.workers[k] == m.workers[k]
  {
  }

  /** The keys of the map of active workers are the reference's active keys. */
  lemma RosterExact<S, V, R>(h: (S, V) -> (S, R), m: Master<S, V, R>, e: Event<S, V>, create: bool)
    requires Known(m) && Enabled(m, e)
    ensures Apply(h, m, e, create).workers.Keys == Roster(m.workers.Keys, e, create)
  {
  }

  lemma LatestKept<S, V, R>(h: (S, V) -> (S, R), m: Master<S, V, R>, e: Event<S, V>, create: bool)
    requires Known(m) && Latest(m) && Enabled(m, e) && Known(Apply(h, m, e, create))
    ensures Latest(Apply(h, m, e, create))
  {
    hide Apply, Enabled, Creates;
    PoolGrows(h, m, e, create);
    if Creates(m, e, create) { NewWorker(h, m, e, create); } else { MapShrinks(h, m, e, create); }
  }

  /** A worker accepts something only if it is its key's active one, and then what the reference sends to the key. */
  lemma DeliveredIsLetter<S, V, R>(m: Master<S, V, R>, e: Event<S, V>, create: bool, i: nat)
    requires Known(m) && i < |m.pool|
    ensures Delivered(m, e, i) == if Active(m, i) then Letter(m.workers.Keys, e, create, m.pool[i].key) else []
  {
  }

  /** The workers there were: only the key's active one accepts, and exactly the letter. */
  lemma OldWorkersRoute<S, V, R>(h: (S, V) -> (S, R), m: Master<S, V, R>, e: Event<S, V>, create: bool, k: Key)
    requires Known(m) && Latest(m) && Enabled(m, e)
    ensures var m', n := Apply(h, m, e, create), |m.pool|;
            && n <= |m'.pool|
            && AcceptedBy(m'.pool, k, n)
            == AcceptedBy(m.pool, k, n) + if k in m.workers then Letter(m.workers.Keys, e, create, k) else []
  {
    hide Apply, Delivered, Enabled, Letter, AcceptedBy;
    var m', n := Apply(h, m, e, create), |m.pool|;
    PoolGrows(h, m, e, create);
    forall i | 0 <= i < n
      ensures m'.pool[i].accepted == m.pool[i].accepted
                                     + if Active(m, i) then Letter(m.workers.Keys, e, create, m.pool[i].key) else []
    {
      AcceptedExact(h, m, e, create, i);
      DeliveredIsLetter(m, e, create, i);
    }
    if k in m.workers {
      LastAccepts(m.pool, m'.pool, k, n, m.workers[k], Letter(m.workers.Keys, e, create, k));
    } else {
      SameAccepted(m.pool, m'.pool, k, n);
    }
  }

  lemma StepRoutes<S, V, R>(h: (S, V) -> (S, R), m: Master<S, V, R>, e: Event<S, V>, create: bool, k: Key)
    requires Known(m) && Latest(m) && Enabled(m, e)
    ensures var m' := Apply(h, m, e, create);
            AcceptedBy(m'.pool, k, |m'.pool|) == AcceptedBy(m.pool, k, |m.pool|) + Letter(m.workers.Keys, e, create, k)
  {
    hide Apply, Known, Latest, Enabled;
    PoolGrows(h, m, e, create);
    OldWorkersRoute(h, m, e, create, k);
    if Creates(m, e, create) { NewWorker(h, m, e, create); }
  }

  /**
   Over any run, what the successive workers of a key accepted is exactly what was sent to the key while it
   was active, in order, the request that created a worker included: none lost, none twice, none astray.
   */
  lemma {:induction false} RoutedExactly<S, V, R>(
      h: (S, V) -> (S, R), m: Master<S, V, R>, run: seq<Event<S, V>>, create: bool, k: Key)
    requires Inv(h, m) && Latest(m) && Possible(h, m, run, create)
    ensures var m' := After(h, m, run, create);
            AcceptedBy(m'.pool, k, |m'.pool|) == AcceptedBy(m.pool, k, |m.pool|) + Mail(m.workers.Keys, run, create, k)
    decreases |run|
  {
    hide Conserved, AllLinear, Disjoint, ChannelsOk, Apply, Enabled, Latest, Roster, Letter, AcceptedBy;
    if run != [] {
      var m1 := Apply(h, m, run[0], create);
      StepKeeps(h, m, run[0], create);
      LatestKept(h, m, run[0], create);
      StepRoutes(h, m, run[0], create, k);
      RosterExact(h, m, run[0], create);
      RoutedExactly(h, m1, run[1..], create, k);
    }
  }

  // --- What workers start from ---

  /** The initial states of the workers of a key, in the order they were created. */
  function InitialsOf<S, V, R>(p: seq<Worker<S, V, R>>, k: Key, n: nat): seq<S>
    requires n <= |p|
  {
    if n == 0 then []
    else InitialsOf(p, k, n - 1) + if p[n - 1].key == k then [p[n - 1].initial] else []
  }

  lemma {:induction false} SameInitials<S, V, R>(p: seq<Worker<S, V, R>>, q: seq<Worker<S, V, R>>, k: Key, n: nat)
    requires n <= |p| && n <= |q|
    requires forall i | 0 <= i < n :: q[i].key == p[i].key && q[i].initial == p[i].initial
    ensures InitialsOf(q, k, n) == InitialsOf(p, k, n)
  {
    if n > 0 { SameInitials(p, q, k, n - 1); }
  }

  lemma {:induction false} InitialIsOne<S, V, R>(p: seq<Worker<S, V, R>>, i: nat, n: nat)
    requires i < n <= |p|
    ensures p[i].initial in InitialsOf(p, p[i].key, n)
  {
    if i < n - 1 { InitialIsOne(p, i, n - 1); }
  }

  /** No event changes what a worker started from. */
  lemma InitialsKept<S, V, R>(h: (S, V) -> (S, R), m: Master<S, V, R>, e: Event<S, V>, create: bool)
    requires Known(m) && Enabled(m, e)
    ensures var m' := Apply(h, m, e, create);
            |m.pool| <= |m'.pool| && forall i | 0 <= i < |m.pool| :: m'.pool[i].initial == m.pool[i].initial
  {
    hide Apply, Creates, Known, Enabled;
    if e.Serve? || e.ServeShared? { ServeKeepsKeys(h, m, e, create); } else { PoolStill(h, m, e, create); }
  }

  lemma NewInitial<S, V, R>(h: (S, V) -> (S, R), m: Master<S, V, R>, e: Event<S, V>, create: bool, k: Key)
    requires Known(m) && Enabled(m, e)
    ensures !Creates(m, e, create) ==> Birth(m.workers.Keys, e, create, k) == []
    ensures Creates(m, e, create) ==>
              var m' := Apply(h, m, e, create);
              && |m'.pool| > |m.pool|
              && Birth(m.workers.Keys, e, create, k) == if k == e.key then [m'.pool[|m.pool|].initial] else []
  {
  }

  lemma StepBirths<S, V, R>(h: (S, V) -> (S, R), m: Master<S, V, R>, e: Event<S, V>, create: bool, k: Key)
    requires Known(m) && Enabled(m, e)
    ensures var m' := Apply(h, m, e, create);
            InitialsOf(m'.pool, k, |m'.pool|) == InitialsOf(m.pool, k, |m.pool|) + Birth(m.workers.Keys, e, create, k)
  {
    hide Apply, Known, Enabled, Creates, Birth;
    PoolGrows(h, m, e, create);
    InitialsKept(h, m, e, create);
    NewInitial(h, m, e, create, k);
    SameInitials(m.pool, Apply(h, m, e, create).pool, k, |m.pool|);
    if Creates(m, e, create) { NewWorker(h, m, e, create); }
  }

  /** Over any run the workers of a key start from exactly what the events that created them carry, in order. */
  lemma {:induction false} StartsExactly<S, V, R>(
      h: (S, V) -> (S, R), m: Master<S, V, R>, run: seq<Event<S, V>>, create: bool, k: Key)
    requires Inv(h, m) && Possible(h, m, run, create)
    ensures var m' := After(h, m, run, create);
            InitialsOf(m'.pool, k, |m'.pool|) == InitialsOf(m.pool, k, |m.pool|) + Births(m.workers.Keys, run, create, k)
    decreases |run|
  {
    hide Conserved, AllLinear, Disjoint, ChannelsOk, Apply, Enabled, Roster, Birth, InitialsOf;
    if run != [] {
      StepKeeps(h, m, run[0], create);
      StepBirths(h, m, run[0], create, k);
      RosterExact(h, m, run[0], create);
      StartsExactly(h, Apply(h, m, run[0], create), run[1..], create, k);
    }
  }

  // --- Requests to anyone ---

  /** Which worker took which value from the shared channel, in order. */
  function Taken<S, V, R>(m: Master<S, V, R>, e: Event<S, V>): (log: seq<(nat, V)>)
    requires Enabled(m, e)
    ensures |log| <= 1
  {
    if e.ServeShared? then [(e.i, m.shared[0])] else []
  }

  ghost function Dispatch<S, V, R>(
      h: (S, V) -> (S, R), m: Master<S, V, R>, run: seq<Event<S, V>>, create: bool): seq<(nat, V)>
    requires Possible(h, m, run, create)
    decreases |run|
  {
    if run == [] then [] else Taken(m, run[0]) + Dispatch(h, Apply(h, m, run[0], create), run[1..], create)
  }

  function Values<V>(log: seq<(nat, V)>): seq<V> {
    if log == [] then [] else [log[0].1] + Values(log[1..])
  }

  function TakenBy<V>(log: seq<(nat, V)>, i: nat): seq<V> {
    if log == [] then [] else (if log[0].0 == i then [log[0].1] else []) + TakenBy(log[1..], i)
  }

  /** The requests among the jobs that came from the shared channel. */
  function Foreign<V>(jobs: seq<Job<V>>): seq<V> {
    if jobs == [] then []
    else Foreign(jobs[..|jobs| - 1]) + if jobs[|jobs| - 1].own then [] else [jobs[|jobs| - 1].value]
  }

  /** What worker i took from the shared channel; a worker that does not exist took nothing. */
  function ForeignOf<S, V, R>(m: Master<S, V, R>, i: nat): seq<V> {
    if i < |m.pool| then Foreign(m.pool[i].handled) else []
  }

  lemma ForeignSnoc<V>(jobs: seq<Job<V>>, j: Job<V>)
    ensures Foreign(jobs + [j]) == Foreign(jobs) + if j.own then [] else [j.value]
  {
    assert (jobs + [j])[..|jobs|] == jobs;
  }

  lemma {:induction false} LogCons<V>(a: seq<(nat, V)>, b: seq<(nat, V)>, i: nat)
    requires |a| <= 1
    ensures Values(a + b) == Values(a) + Values(b)
    ensures TakenBy(a + b, i) == TakenBy(a, i) + TakenBy(b, i)
  {
    if a == [] {
      assert a + b == b;
    } else {
      assert (a + b)[0] == a[0] && (a + b)[1..] == b && a[1..] == [];
    }
  }

  lemma SharedMoves<S, V, R>(h: (S, V) -> (S, R), m: Master<S, V, R>, e: Event<S, V>, create: bool)
    requires Known(m) && Enabled(m, e)
    ensures m.shared + (if e.Execute? && m.workers.Keys != {} then [e.value] else [])
         == Values(Taken(m, e)) + Apply(h, m, e, create).shared
  {
    if e.ServeShared? { assert Values([(e.i, m.shared[0])]) == [m.shared[0]]; }
    if e.Execute? { assert m.workers == map[] <==> m.workers.Keys == {}; }
  }

  lemma ForeignGrows<S, V, R>(h: (S, V) -> (S, R), m: Master<S, V, R>, e: Event<S, V>, create: bool, i: nat)
    requires Known(m) && Enabled(m, e)
    ensures ForeignOf(Apply(h, m, e, create), i) == ForeignOf(m, i) + TakenBy(Taken(m, e), i)
  {
    hide Foreign;
    NoForeign<V>();
    if e.ServeShared? {
      ForeignSnoc(m.pool[e.i].handled, Job(false, m.shared[0]));
    } else if e.Serve? {
      ForeignSnoc(m.pool[e.i].handled, Job(true, m.pool[e.i].queue[0]));
    } else {
      hide Apply, Creates;
      PoolStill(h, m, e, create);
    }
  }

  lemma NoForeign<V>()
    ensures Foreign<V>([]) == []
  {
  }

  /**
   Over any run the values accepted for whichever worker takes them wait first in, first out: those taken,
   in the order of the dispatch log, followed by those still waiting, are those accepted.
   */
  lemma {:induction false} SharedExactly<S, V, R>(
      h: (S, V) -> (S, R), m: Master<S, V, R>, run: seq<Event<S, V>>, create: bool)
    requires Inv(h, m) && Possible(h, m, run, create)
    ensures m.shared + Executed(m.workers.Keys, run, create)
         == Values(Dispatch(h, m, run, create)) + After(h, m, run, create).shared
    decreases |run|
  {
    hide Conserved, AllLinear, Disjoint, ChannelsOk, Apply, Enabled, Roster, Values, Taken;
    if run == [] {
      EmptyLog<V>(0);
    } else {
      var e := run[0];
      var m1 := Apply(h, m, e, create);
      StepKeeps(h, m, e, create);
      RosterExact(h, m, e, create);
      SharedMoves(h, m, e, create);
      SharedExactly(h, m1, run[1..], create);
      var log := Dispatch(h, m1, run[1..], create);
      LogCons(Taken(m, e), log, 0);
      Chain(m.shared, if e.Execute? && m.workers.Keys != {} then [e.value] else [],
            Executed(m1.workers.Keys, run[1..], create),
            Values(Taken(m, e)), m1.shared, Values(log), After(h, m1, run[1..], create).shared);
    }
  }

  lemma Chain<V>(s: seq<V>, now: seq<V>, later: seq<V>, t: seq<V>, s1: seq<V>, rest: seq<V>, end: seq<V>)
    requires s + now == t + s1 && s1 + later == rest + end
    ensures s + (now + later) == (t + rest) + end
  {
    assert s + (now + later) == (s + now) + later;
    assert (t + s1) + later == t + (s1 + later);
    assert t + (rest + end) == (t + rest) + end;
  }

  /** And each worker handled exactly the ones the log gives it, in order: each is handled once, by one worker. */
  lemma {:induction false} TakenExactly<S, V, R>(
      h: (S, V) -> (S, R), m: Master<S, V, R>, run: seq<Event<S, V>>, create: bool, i: nat)
    requires Inv(h, m) && Possible(h, m, run, create)
    ensures ForeignOf(After(h, m, run, create), i) == ForeignOf(m, i) + TakenBy(Dispatch(h, m, run, create), i)
    decreases |run|
  {
    hide Conserved, AllLinear, Disjoint, ChannelsOk, Apply, Enabled, ForeignOf, TakenBy, Taken;
    if run == [] {
      EmptyLog<V>(i);
    } else {
      var m1 := Apply(h, m, run[0], create);
      StepKeeps(h, m, run[0], create);
      ForeignGrows(h, m, run[0], create, i);
      TakenExactly(h, m1, run[1..], create, i);
      LogCons(Taken(m, run[0]), Dispatch(h, m1, run[1..], create), i);
    }
  }

  lemma EmptyLog<V>(i: nat)
    ensures Values<V>([]) == [] && TakenBy<V>([], i) == []
  {
  }

  /** From a new master: what workers start from, each key's requests to its workers, everyone's to one worker each. */
  lemma MasterRoutes<S, V, R>(h: (S, V) -> (S, R), run: seq<Event<S, V>>, create: bool)
    requires Possible(h, NewMaster<S, V, R>(), run, create)
    ensures var m := After(h, NewMaster<S, V, R>(), run, create);
            && (forall k :: AcceptedBy(m.pool, k, |m.pool|) == Mail({}, run, create, k))
            && (forall k :: InitialsOf(m.pool, k, |m.pool|) == Births({}, run, create, k))
            && exists log ::
                 && Values(log) + m.shared == Executed({}, run, create)
                 && forall i: nat :: ForeignOf(m, i) == TakenBy(log, i)
  {
    hide Inv, AcceptedBy, InitialsOf, Foreign, Values, TakenBy, Executed, Mail, Births;
    var m0 := NewMaster<S, V, R>();
    var m, log := After(h, m0, run, create), Dispatch(h, m0, run, create);
    NewInv<S, V, R>(h);
    NewFacts<S, V, R>();
    forall k ensures AcceptedBy(m.pool, k, |m.pool|) == Mail({}, run, create, k) {
      RoutedExactly(h, m0, run, create, k);
    }
    forall k ensures InitialsOf(m.pool, k, |m.pool|) == Births({}, run, create, k) {
      StartsExactly(h, m0, run, create, k);
    }
    SharedExactly(h, m0, run, create);
    forall i: nat ensures ForeignOf(m, i) == TakenBy(log, i) {
      TakenExactly(h, m0, run, create, i);
    }
    assert Values(log) + m.shared == Executed({}, run, create);
  }

  lemma NewFacts<S, V, R>()
    ensures var m := NewMaster<S, V, R>();
            && Known(m) && Latest(m) && m.workers.Keys == {} && m.shared == []
            && forall k :: AcceptedBy(m.pool, k, |m.pool|) == [] && InitialsOf(m.pool, k, |m.pool|) == []
  {
  }
}
