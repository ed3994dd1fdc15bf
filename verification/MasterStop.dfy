/**
 When Stop returns. Stop is taken to begin when the master's loop takes the shutdown branch, the event Stop;
 between the call and that moment the loop may still receive an exit, and ignore it.
 The wait group reaches zero exactly when no exit was ever ignored and no
 shutting-down worker was ever displaced; runs in which workers exit only after their channel
 is closed and no key is recreated while its old worker shuts down are such runs.
 */
module MasterStop {
  import opened Basics
  import opened MasterProtocol
  import opened MasterInvariants

  /** Nothing was lost or ignored, and no active worker would displace a shutting-down one. */
  predicate Clean<S, V, R>(m: Master<S, V, R>) {
    m.lost == multiset{} && m.ignored == multiset{} && m.workers.Keys !! m.shutdown.Keys
  }

  predicate Stopping<S, V, R>(m: Master<S, V, R>) {
    && m.phase != Serving
    && (m.phase in {Draining, Waiting} ==> m.workers == map[])
    && (m.phase == Waiting ==> m.shutdown == map[])
    && (m.phase == Stopped ==> m.count == 0)
  }

  /** A pending exit always belongs to a tracked key, once nothing was lost or ignored. */
  lemma DoneIsTracked<S, V, R>(m: Master<S, V, R>, k: Key)
    requires Conserved(m) && Clean(m) && k in multiset(m.doneC)
    ensures k in m.workers || k in m.shutdown
  {
    assert Tracked(m)[k] >= 1;
    assert Tracked(m)[k] == multiset(m.workers.Keys)[k] + multiset(m.shutdown.Keys)[k];
  }

  /** The events that touch neither map: a worker's own steps and changes of phase. */
  predicate LeavesMaps<S, V>(e: Event<S, V>) {
    e.Serve? || e.ServeShared? || e.Exit? || e.Quit? || e.Stop? || e.StartDrain? || e.Return?
  }

  lemma MapsUnchanged<S, V, R>(h: (S, V) -> (S, R), m: Master<S, V, R>, e: Event<S, V>, create: bool)
    requires Known(m) && Enabled(m, e) && LeavesMaps(e)
    ensures var m' := Apply(h, m, e, create);
            && m'.workers == m.workers && m'.shutdown == m.shutdown && m'.lost == m.lost && m'.ignored == m.ignored
            && m'.count == m.count
            && m'.phase == (if e.Stop? then Closing else if e.StartDrain? then Draining
                            else if e.Return? then Stopped else m.phase)
  {
  }

  lemma CloseOneKeepsClean<S, V, R>(m: Master<S, V, R>, k: Key)
    requires Known(m) && k in m.workers
    ensures Clean(ShutdownWorker(m, k)) <==> Clean(m)
  {
    var m' := ShutdownWorker(m, k);
    if k in m.shutdown {
      assert k in m'.lost;
    } else {
      assert m'.shutdown.Keys == m.shutdown.Keys + {k};
      assert m'.workers.Keys == m.workers.Keys - {k};
      assert m'.workers.Keys * m'.shutdown.Keys == m.workers.Keys * m.shutdown.Keys;
    }
  }

  /** While draining, an exit is received for a tracked key as long as the state is clean. */
  lemma DoneKeepsClean<S, V, R>(m: Master<S, V, R>)
    requires Known(m) && Conserved(m) && m.doneC != [] && m.workers == map[]
    ensures Clean(RemoveWorker(m.(doneC := m.doneC[1..]), m.doneC[0])) <==> Clean(m)
  {
    var k := m.doneC[0];
    assert k in multiset(m.doneC);
    if Clean(m) { DoneIsTracked(m, k); }
  }

  lemma StoppingClose<S, V, R>(h: (S, V) -> (S, R), m: Master<S, V, R>, k: Key, create: bool)
    requires Known(m) && Stopping(m) && m.phase == Closing && k in m.workers
    ensures var m' := Apply(h, m, CloseOne(k), create); (Clean(m') <==> Clean(m)) && Stopping(m')
  {
    CloseOneKeepsClean(m, k);
  }

  lemma StoppingDone<S, V, R>(h: (S, V) -> (S, R), m: Master<S, V, R>, create: bool)
    requires Known(m) && Conserved(m) && Stopping(m) && m.phase == Draining && m.doneC != []
    ensures var m' := Apply(h, m, Event<S, V>.Done, create); (Clean(m') <==> Clean(m)) && Stopping(m')
  {
    hide Conserved, Known, RemoveWorker, Clean;
    var d := m.(doneC := m.doneC[1..]);
    SamePool(m, d);
    DoneKeepsClean(m);
    RemovePhase(d, m.doneC[0]);
    CleanIgnoresPhase(RemoveWorker(d, m.doneC[0]), Waiting);
  }

  lemma RemovePhase<S, V, R>(m: Master<S, V, R>, k: Key)
    requires Known(m)
    ensures RemoveWorker(m, k).phase == m.phase && RemoveWorker(m, k).workers == m.workers
  {
  }

  lemma CleanIgnoresPhase<S, V, R>(m: Master<S, V, R>, p: Phase)
    ensures Clean(m.(phase := p)) <==> Clean(m)
  {
  }

  lemma StoppingOther<S, V, R>(h: (S, V) -> (S, R), m: Master<S, V, R>, e: Event<S, V>, create: bool)
    requires Known(m) && Stopping(m) && Enabled(m, e) && LeavesMaps(e)
    ensures var m' := Apply(h, m, e, create); (Clean(m') <==> Clean(m)) && Stopping(m')
  {
    hide Apply;
    MapsUnchanged(h, m, e, create);
  }

  /** Cleanness is decided when the loop takes the shutdown branch: no event of a stopping master gains or loses it. */
  lemma StoppingKeepsClean<S, V, R>(h: (S, V) -> (S, R), m: Master<S, V, R>, e: Event<S, V>, create: bool)
    requires Inv(h, m) && Stopping(m) && Enabled(m, e)
    ensures Clean(Apply(h, m, e, create)) <==> Clean(m)
    ensures Stopping(Apply(h, m, e, create))
  {
    hide Structured, Conserved, AllLinear, Apply, Clean;
    Parts(h, m);
    if LeavesMaps(e) { StoppingOther(h, m, e, create); }
    if e.CloseOne? { StoppingClose(h, m, e.key, create); }
    if e.Done? { StoppingDone(h, m, create); }
  }

  lemma Parts<S, V, R>(h: (S, V) -> (S, R), m: Master<S, V, R>)
    requires Inv(h, m)
    ensures Known(m) && Structured(m) && Conserved(m)
  {
  }

  /** The wait group is zero only in a clean state with no worker left. */
  lemma DirtyCounts<S, V, R>(h: (S, V) -> (S, R), m: Master<S, V, R>)
    requires Inv(h, m) && !Clean(m)
    ensures m.count > 0
  {
    if m.lost == multiset{} && m.ignored == multiset{} {
      var k :| k in m.workers && k in m.shutdown;
      assert m.workers.Keys != {};
    } else if m.lost == multiset{} {
      var k :| k in m.ignored;
      assert Tracked(m)[k] >= 1;
      assert k in m.workers.Keys || k in m.shutdown.Keys;
    }
  }

  // --- Stop terminates ---

  /** Work left in the first n workers: two steps to exit, and one for each queued request. */
  function Weight<S, V, R>(p: seq<Worker<S, V, R>>, n: nat): nat
    requires n <= |p|
  {
    if n == 0 then 0 else Weight(p, n - 1) + if p[n - 1].running then 2 + |p[n - 1].queue| else 0
  }

  lemma {:induction false} WeightPrefix<S, V, R>(p: seq<Worker<S, V, R>>, q: seq<Worker<S, V, R>>, n: nat)
    requires n <= |p| && n <= |q|
    requires forall i | 0 <= i < n :: p[i].running == q[i].running && p[i].queue == q[i].queue
    ensures Weight(p, n) == Weight(q, n)
  {
    if n > 0 { WeightPrefix(p, q, n - 1); }
  }

  lemma {:induction false} WeightUpdate<S, V, R>(p: seq<Worker<S, V, R>>, i: nat, w: Worker<S, V, R>, n: nat)
    requires i < n <= |p| && p[i].running
    ensures Weight(p[i := w], n) + 2 + |p[i].queue| == Weight(p, n) + if w.running then 2 + |w.queue| else 0
  {
    if i == n - 1 { WeightPrefix(p[i := w], p, n - 1); } else { WeightUpdate(p, i, w, n - 1); }
  }

  function Rank(p: Phase): nat {
    match p case Serving => 4 case Closing => 3 case Draining => 2 case Waiting => 1 case Stopped => 0
  }

  function Measure<S, V, R>(m: Master<S, V, R>): nat {
    Weight(m.pool, |m.pool|) + |m.doneC| + |m.shared| + |m.workers| + Rank(m.phase)
  }

  lemma WorkerStepShrinks<S, V, R>(h: (S, V) -> (S, R), m: Master<S, V, R>, e: Event<S, V>, create: bool)
    requires Known(m) && Enabled(m, e) && (e.Serve? || e.ServeShared? || e.Exit? || e.Quit?)
    ensures Measure(Apply(h, m, e, create)) < Measure(m)
  {
    hide Weight, Known;
    var m' := Apply(h, m, e, create);
    WeightUpdate(m.pool, e.i, m'.pool[e.i], |m.pool|);
  }

  lemma CloseShrinks<S, V, R>(m: Master<S, V, R>, k: Key)
    requires Known(m) && k in m.workers
    ensures Measure(ShutdownWorker(m, k)) < Measure(m)
  {
    hide Weight;
    WeightPrefix(ShutdownWorker(m, k).pool, m.pool, |m.pool|);
    KeysAfterDelete(m.workers, k);
  }

  lemma RemoveShrinks<S, V, R>(m: Master<S, V, R>, k: Key)
    requires Known(m)
    ensures Measure(RemoveWorker(m, k)) == Measure(m) && RemoveWorker(m, k).phase == m.phase
  {
    hide Weight;
    WeightPrefix(RemoveWorker(m, k).pool, m.pool, |m.pool|);
  }

  lemma MasterStepShrinks<S, V, R>(h: (S, V) -> (S, R), m: Master<S, V, R>, e: Event<S, V>, create: bool)
    requires Known(m) && Enabled(m, e) && m.phase != Serving && (e.Done? || e.CloseOne?)
    ensures Measure(Apply(h, m, e, create)) < Measure(m)
  {
    hide Weight, ShutdownWorker, RemoveWorker, Known;
    if e.CloseOne? {
      CloseShrinks(m, e.key);
    } else {
      SamePool(m, m.(doneC := m.doneC[1..]));
      RemoveShrinks(m.(doneC := m.doneC[1..]), m.doneC[0]);
    }
  }

  /** Once Stop has begun every event uses up some of a finite amount of work. */
  lemma StoppingShrinks<S, V, R>(h: (S, V) -> (S, R), m: Master<S, V, R>, e: Event<S, V>, create: bool)
    requires Known(m) && m.phase != Serving && Enabled(m, e)
    ensures Measure(Apply(h, m, e, create)) < Measure(m)
  {
    hide Weight, Known;
    match e
    case Serve(_) => WorkerStepShrinks(h, m, e, create);
    case ServeShared(_) => WorkerStepShrinks(h, m, e, create);
    case Exit(_) => WorkerStepShrinks(h, m, e, create);
    case Quit(_) => WorkerStepShrinks(h, m, e, create);
    case Done => MasterStepShrinks(h, m, e, create);
    case CloseOne(_) => MasterStepShrinks(h, m, e, create);
    case _ =>
  }

  lemma {:induction false} SomeoneRuns<S, V, R>(p: seq<Worker<S, V, R>>, n: nat) returns (i: nat)
    requires n <= |p| && RunningKeys(p, n) != multiset{}
    ensures i < n && p[i].running
  {
    if p[n - 1].running { i := n - 1; } else { i := SomeoneRuns(p, n - 1); }
  }

  /** While draining a clean state, a worker that still runs can always take a step towards its exit. */
  lemma DrainProgress<S, V, R>(h: (S, V) -> (S, R), m: Master<S, V, R>) returns (e: Event<S, V>)
    requires Inv(h, m) && Clean(m) && m.phase == Draining && m.workers == map[] && m.doneC == [] && m.shutdown != map[]
    ensures Enabled(m, e)
  {
    var k :| k in m.shutdown;
    assert Tracked(m)[k] >= 1;
    assert Alive(m) != multiset{};
    var i := SomeoneRuns(m.pool, |m.pool|);
    assert !Active(m, i);
    e := if m.pool[i].queue != [] then Serve(i) else Exit(i);
  }

  /** A clean stopping master is never stuck before Stop returns. */
  lemma StopProgress<S, V, R>(h: (S, V) -> (S, R), m: Master<S, V, R>) returns (e: Event<S, V>)
    requires Inv(h, m) && Stopping(m) && Clean(m) && m.phase != Stopped
    ensures Enabled(m, e)
  {
    if m.phase == Closing && m.workers != map[] {
      var k :| k in m.workers;
      e := CloseOne(k);
    } else if m.phase == Closing {
      e := StartDrain;
    } else if m.phase == Draining && m.doneC != [] {
      e := Done;
    } else if m.phase == Draining && m.shutdown != map[] {
      e := DrainProgress(h, m);
    } else {
      e := Return;
    }
  }

  lemma {:induction false} StoppingRun<S, V, R>(h: (S, V) -> (S, R), m: Master<S, V, R>, run: seq<Event<S, V>>, create: bool)
    requires Inv(h, m) && Stopping(m) && Possible(h, m, run, create)
    ensures var end := After(h, m, run, create);
            Inv(h, end) && Stopping(end) && (Clean(end) <==> Clean(m)) && |run| + Measure(end) <= Measure(m)
    decreases |run|
  {
    hide Inv, Stopping, Clean, Measure, Apply, Known, Enabled;
    if run != [] {
      NotServing(m);
      StepKeeps(h, m, run[0], create);
      StoppingKeepsClean(h, m, run[0], create);
      StoppingShrinks(h, m, run[0], create);
      StoppingRun(h, Apply(h, m, run[0], create), run[1..], create);
    }
  }

  lemma NotServing<S, V, R>(m: Master<S, V, R>)
    requires Stopping(m)
    ensures m.phase != Serving
  {
  }

  /** No event is enabled any more. */
  ghost predicate Quiescent<S(!new), V(!new), R>(m: Master<S, V, R>) {
    forall e: Event<S, V> :: !Enabled(m, e)
  }

  /**
   From the moment the loop takes the shutdown branch, every run is finite. If the state then was clean, a run that can
   go no further has returned, with both maps empty, so neither panic of Stop is reachable; if it
   was not clean, Stop never returns.
   */
  lemma StopReturnsIff<S(!new), V(!new), R>(
      h: (S, V) -> (S, R), m: Master<S, V, R>, run: seq<Event<S, V>>, create: bool)
    requires Inv(h, m) && m.phase == Closing && Possible(h, m, run, create)
    ensures |run| <= Measure(m)
    ensures var end := After(h, m, run, create);
            && (end.phase == Stopped ==> Clean(m) && end.workers == map[] && end.shutdown == map[])
            && (Clean(m) && Quiescent(end) ==> end.phase == Stopped)
  {
    hide Inv, Possible, After, Measure, Stopping, Clean, Enabled;
    ClosingStops(m);
    StoppingRun(h, m, run, create);
    var end := After(h, m, run, create);
    if end.phase == Stopped {
      StoppedCounts(end);
      StoppedIsEmpty(h, end);
    } else if Clean(m) {
      var e := StopProgress(h, end);
    }
  }

  lemma ClosingStops<S, V, R>(m: Master<S, V, R>)
    requires m.phase == Closing
    ensures Stopping(m)
  {
  }

  lemma StoppedCounts<S, V, R>(m: Master<S, V, R>)
    requires Stopping(m) && m.phase == Stopped
    ensures m.count == 0
  {
  }

  lemma StoppedIsEmpty<S, V, R>(h: (S, V) -> (S, R), m: Master<S, V, R>)
    requires Inv(h, m) && m.count == 0
    ensures Clean(m) && m.workers == map[] && m.shutdown == map[]
  {
    if !Clean(m) { DirtyCounts(h, m); }
  }

  // --- Runs that leave a clean state ---

  /** Workers exit only after their channel is closed, and no key is recreated while its old worker shuts down. */
  predicate Disciplined<S, V, R>(m: Master<S, V, R>, e: Event<S, V>) {
    && (e.Quit? && e.i < |m.pool| ==> m.pool[e.i].closes > 0)
    && ((e.Create? || e.Request?) && e.key !in m.workers ==> e.key !in m.shutdown)
  }

  predicate ActiveRun<S, V, R>(m: Master<S, V, R>) {
    forall i | 0 <= i < |m.pool| && Active(m, i) :: m.pool[i].running
  }

  lemma {:induction false} RunningIsAlive<S, V, R>(p: seq<Worker<S, V, R>>, i: nat, n: nat)
    requires i < n <= |p| && p[i].running
    ensures RunningKeys(p, n)[p[i].key] >= 1
  {
    if i < n - 1 { RunningIsAlive(p, i, n - 1); }
  }

  /** A worker that exits in a disciplined run is shutting down, so the master does not ignore it. */
  lemma ExitExpected<S, V, R>(m: Master<S, V, R>, k: Key)
    requires Known(m) && Conserved(m) && Clean(m) && ActiveRun(m) && k in multiset(m.doneC)
    ensures k in m.shutdown
  {
    assert Tracked(m)[k] == multiset(m.workers.Keys)[k] + multiset(m.shutdown.Keys)[k];
    if k in m.workers {
      assert Active(m, m.workers[k]);
      RunningIsAlive(m.pool, m.workers[k], |m.pool|);
    }
  }

  lemma CreateStaysClean<S, V, R>(m: Master<S, V, R>, k: Key, s: S)
    requires Clean(m) && ActiveRun(m) && Known(m) && k !in m.workers && k !in m.shutdown
    ensures Clean(AddWorker(m, k, s)) && ActiveRun(AddWorker(m, k, s))
  {
    var m' := AddWorker(m, k, s);
    assert m'.workers.Keys == m.workers.Keys + {k};
    forall i | 0 <= i < |m'.pool| && Active(m', i) ensures m'.pool[i].running {
      if i < |m.pool| { assert Active(m, i); }
    }
  }

  /** Maps and activity unchanged: what holds of one state holds of the other. */
  lemma SameActivity<S, V, R>(m: Master<S, V, R>, m': Master<S, V, R>)
    requires Clean(m) && ActiveRun(m)
    requires m'.workers == m.workers && m'.shutdown == m.shutdown && m'.lost == m.lost && m'.ignored == m.ignored
    requires |m'.pool| == |m.pool|
    requires forall i | 0 <= i < |m.pool| ::
               m'.pool[i].key == m.pool[i].key && (Active(m, i) ==> m'.pool[i].running == m.pool[i].running)
    ensures Clean(m') && ActiveRun(m')
  {
    forall i | 0 <= i < |m'.pool| && Active(m', i) ensures m'.pool[i].running {
      assert Active(m, i);
    }
  }

  lemma LeaveStaysClean<S, V, R>(m: Master<S, V, R>, i: nat)
    requires Clean(m) && ActiveRun(m) && Structured(m) && i < |m.pool| && m.pool[i].closes > 0
    ensures Clean(Leave(m, i)) && ActiveRun(Leave(m, i))
  {
    assert !Active(m, i);
    SameActivity(m, Leave(m, i));
  }

  lemma DestroyStaysClean<S, V, R>(m: Master<S, V, R>, k: Key)
    requires Clean(m) && ActiveRun(m) && Known(m) && k in m.workers
    ensures Clean(ShutdownWorker(m, k)) && ActiveRun(ShutdownWorker(m, k))
  {
    CloseOneKeepsClean(m, k);
    var m' := ShutdownWorker(m, k);
    forall i | 0 <= i < |m'.pool| && Active(m', i) ensures m'.pool[i].running {
      assert Active(m, i);
    }
  }

  lemma DoneStaysClean<S, V, R>(m: Master<S, V, R>)
    requires Clean(m) && ActiveRun(m) && Known(m) && Conserved(m) && m.doneC != []
    ensures var m' := RemoveWorker(m.(doneC := m.doneC[1..]), m.doneC[0]); Clean(m') && ActiveRun(m')
  {
    hide Conserved;
    assert m.doneC[0] in multiset(m.doneC);
    ExitExpected(m, m.doneC[0]);
    var m' := RemoveWorker(m.(doneC := m.doneC[1..]), m.doneC[0]);
    assert m'.shutdown.Keys == m.shutdown.Keys - {m.doneC[0]};
    forall i | 0 <= i < |m'.pool| && Active(m', i) ensures m'.pool[i].running {
      assert Active(m, i);
    }
  }

  lemma RequestStaysClean<S, V, R>(h: (S, V) -> (S, R), m: Master<S, V, R>, k: Key, v: V, s: S)
    requires Inv(h, m) && Clean(m) && ActiveRun(m) && k !in m.workers && k !in m.shutdown
    ensures Known(AddWorker(m, k, s))
    ensures var m' := Send(AddWorker(m, k, s), k, v); Clean(m') && ActiveRun(m')
  {
    hide Disjoint, ChannelsOk, Conserved, AllLinear, Clean, ActiveRun;
    CreateStaysClean(m, k, s);
    AddKeeps(h, m, k, s);
    SameActivity(AddWorker(m, k, s), Send(AddWorker(m, k, s), k, v));
  }

  lemma MasterStaysClean<S, V, R>(h: (S, V) -> (S, R), m: Master<S, V, R>, e: Event<S, V>, create: bool)
    requires Inv(h, m) && m.phase == Serving && Clean(m) && ActiveRun(m) && Enabled(m, e) && Disciplined(m, e)
    requires e.Create? || e.Request? || e.Destroy? || e.Done?
    ensures Clean(Apply(h, m, e, create)) && ActiveRun(Apply(h, m, e, create))
  {
    hide Disjoint, ChannelsOk, Conserved, AllLinear, Clean, ActiveRun, ShutdownWorker, RemoveWorker;
    match e
    case Create(k, s, ok) => if k !in m.workers { CreateStaysClean(m, k, s); }
    case Request(k, v, s, ok) =>
      if k in m.workers { SameActivity(m, Send(m, k, v)); } else { RequestStaysClean(h, m, k, v, s); }
    case Destroy(k) => if k in m.workers { DestroyStaysClean(m, k); }
    case Done => DoneStaysClean(m);
  }

  lemma WorkerStaysClean<S, V, R>(h: (S, V) -> (S, R), m: Master<S, V, R>, e: Event<S, V>, create: bool)
    requires Inv(h, m) && Clean(m) && ActiveRun(m) && Enabled(m, e) && Disciplined(m, e)
    requires e.Serve? || e.ServeShared? || e.Exit? || e.Quit? || e.Broadcast? || e.Execute? || e.Stop?
    ensures Clean(Apply(h, m, e, create)) && ActiveRun(Apply(h, m, e, create))
  {
    hide Disjoint, ChannelsOk, Conserved, AllLinear, Clean, ActiveRun;
    if e.Exit? || e.Quit? {
      LeaveStaysClean(m, e.i);
    } else {
      SameActivity(m, Apply(h, m, e, create));
    }
  }

  /** A disciplined event of a serving master leaves a clean state clean. */
  lemma DisciplinedStaysClean<S, V, R>(h: (S, V) -> (S, R), m: Master<S, V, R>, e: Event<S, V>, create: bool)
    requires Inv(h, m) && m.phase == Serving && Clean(m) && ActiveRun(m) && Enabled(m, e) && Disciplined(m, e)
    ensures Clean(Apply(h, m, e, create)) && ActiveRun(Apply(h, m, e, create))
  {
    hide Inv, Clean, ActiveRun, Apply, Disciplined;
    if e.Create? || e.Request? || e.Destroy? || e.Done? {
      MasterStaysClean(h, m, e, create);
    } else if !e.CloseOne? && !e.StartDrain? && !e.Return? {
      WorkerStaysClean(h, m, e, create);
    }
  }

  /** The run is disciplined throughout and ends while the master still serves. */
  ghost predicate DisciplinedRun<S, V, R>(h: (S, V) -> (S, R), m: Master<S, V, R>, run: seq<Event<S, V>>, create: bool)
    requires Possible(h, m, run, create)
    decreases |run|
  {
    && m.phase == Serving
    && (run == [] || (Disciplined(m, run[0]) && DisciplinedRun(h, Apply(h, m, run[0], create), run[1..], create)))
  }

  lemma {:induction false} DisciplinedRunClean<S, V, R>(
      h: (S, V) -> (S, R), m: Master<S, V, R>, run: seq<Event<S, V>>, create: bool)
    requires Inv(h, m) && Clean(m) && ActiveRun(m) && Possible(h, m, run, create) && DisciplinedRun(h, m, run, create)
    ensures var end := After(h, m, run, create); Inv(h, end) && Clean(end) && end.phase == Serving
    decreases |run|
  {
    hide Inv, Clean, ActiveRun, Apply, Disciplined, Enabled;
    if run != [] {
      StepKeeps(h, m, run[0], create);
      DisciplinedStaysClean(h, m, run[0], create);
      DisciplinedRunClean(h, Apply(h, m, run[0], create), run[1..], create);
    }
  }

  /** After a disciplined run, a Stop that runs as far as it can returns, with no worker left. */
  lemma DisciplinedStopReturns<S(!new), V(!new), R>(
      h: (S, V) -> (S, R), run: seq<Event<S, V>>, rest: seq<Event<S, V>>, create: bool)
    requires Possible(h, NewMaster<S, V, R>(), run, create) && DisciplinedRun(h, NewMaster<S, V, R>(), run, create)
    requires Possible(h, After(h, NewMaster<S, V, R>(), run, create).(phase := Closing), rest, create)
    requires Quiescent(After(h, After(h, NewMaster<S, V, R>(), run, create).(phase := Closing), rest, create))
    ensures var end := After(h, After(h, NewMaster<S, V, R>(), run, create).(phase := Closing), rest, create);
            end.phase == Stopped && end.workers == map[] && end.shutdown == map[]
  {
    hide Inv, Apply, Enabled, Known, Quiescent;
    NewInv<S, V, R>(h);
    var m := After(h, NewMaster<S, V, R>(), run, create);
    DisciplinedRunClean(h, NewMaster<S, V, R>(), run, create);
    PhaseKeeps(h, m, m.(phase := Closing));
    StopReturnsIff(h, m.(phase := Closing), rest, create);
  }

  // --- Concrete runs after which Stop never returns ---

  lemma Cons<S, V, R>(h: (S, V) -> (S, R), m: Master<S, V, R>, e: Event<S, V>, run: seq<Event<S, V>>, create: bool)
    requires Known(m) && Enabled(m, e) && Possible(h, Apply(h, m, e, create), run, create)
    ensures Possible(h, m, [e] + run, create)
    ensures After(h, m, [e] + run, create) == After(h, Apply(h, m, e, create), run, create)
  {
    assert ([e] + run)[1..] == run;
  }

  lemma SelfExitSteps<S, V, R>(h: (S, V) -> (S, R), k: Key, s: S, create: bool)
    ensures var m0 := NewMaster<S, V, R>();
            && Known(m0) && Enabled(m0, Create(k, s, true))
            && var m1 := Apply(h, m0, Create(k, s, true), create);
            && Known(m1) && Enabled(m1, Event<S, V>.Quit(0))
            && var m2 := Apply(h, m1, Event<S, V>.Quit(0), create);
            && Known(m2) && Enabled(m2, Event<S, V>.Done)
            && !Clean(Apply(h, m2, Event<S, V>.Done, create))
  {
    var m1 := Apply(h, NewMaster<S, V, R>(), Create(k, s, true), create);
    var m2 := Apply(h, m1, Event<S, V>.Quit(0), create);
    assert m2.doneC == [k] && k !in m2.shutdown;
    assert k in Apply(h, m2, Event<S, V>.Done, create).ignored;
  }

  /** A worker is created, exits by itself, and the master receives its exit. */
  function SelfExit<S, V>(k: Key, s: S): seq<Event<S, V>> {
    [Create(k, s, true)] + ([Event<S, V>.Quit(0)] + ([Event<S, V>.Done] + []))
  }

  lemma SelfExitDirties<S, V, R>(h: (S, V) -> (S, R), k: Key, s: S, create: bool)
    ensures Possible(h, NewMaster<S, V, R>(), SelfExit<S, V>(k, s), create)
    ensures !Clean(After(h, NewMaster<S, V, R>(), SelfExit<S, V>(k, s), create))
  {
    hide Apply, Enabled, Clean, NewMaster, Known;
    SelfExitSteps<S, V, R>(h, k, s, create);
    var m0 := NewMaster<S, V, R>();
    var m1 := Apply(h, m0, Create(k, s, true), create);
    var m2 := Apply(h, m1, Event<S, V>.Quit(0), create);
    Cons(h, m2, Event<S, V>.Done, [], create);
    Cons(h, m1, Event<S, V>.Quit(0), [Event<S, V>.Done] + [], create);
    Cons(h, m0, Create(k, s, true), [Event<S, V>.Quit(0)] + ([Event<S, V>.Done] + []), create);
  }

  /** After a run that leaves an unclean state, Stop never returns, whatever happens next. */
  lemma DirtyNeverReturns<S(!new), V(!new), R>(
      h: (S, V) -> (S, R), run: seq<Event<S, V>>, rest: seq<Event<S, V>>, create: bool)
    requires Possible(h, NewMaster<S, V, R>(), run, create) && !Clean(After(h, NewMaster<S, V, R>(), run, create))
    requires Possible(h, After(h, NewMaster<S, V, R>(), run, create).(phase := Closing), rest, create)
    ensures After(h, After(h, NewMaster<S, V, R>(), run, create).(phase := Closing), rest, create).phase != Stopped
  {
    hide Inv, Apply, Enabled, Known, Possible, After, Clean;
    NewInv<S, V, R>(h);
    RunKeeps(h, NewMaster<S, V, R>(), run, create);
    var m := After(h, NewMaster<S, V, R>(), run, create);
    PhaseKeeps(h, m, m.(phase := Closing));
    CleanIgnoresPhase(m, Closing);
    StopReturnsIff(h, m.(phase := Closing), rest, create);
  }

  /** A worker that exits by itself is ignored and stays active for the master: Stop then never returns. */
  lemma SelfExitIsIgnored<S(!new), V(!new), R>(
      h: (S, V) -> (S, R), k: Key, s: S, rest: seq<Event<S, V>>, create: bool)
    ensures Possible(h, NewMaster<S, V, R>(), SelfExit<S, V>(k, s), create)
    ensures var m := After(h, NewMaster<S, V, R>(), SelfExit<S, V>(k, s), create).(phase := Closing);
            Possible(h, m, rest, create) ==> After(h, m, rest, create).phase != Stopped
  {
    hide Possible, After, Clean, SelfExit;
    SelfExitDirties<S, V, R>(h, k, s, create);
    var m := After(h, NewMaster<S, V, R>(), SelfExit<S, V>(k, s), create).(phase := Closing);
    if Possible(h, m, rest, create) { DirtyNeverReturns(h, SelfExit<S, V>(k, s), rest, create); }
  }

  lemma RecreationSteps<S, V, R>(h: (S, V) -> (S, R), k: Key, s: S, create: bool)
    ensures var m0 := NewMaster<S, V, R>();
            && Known(m0) && Enabled(m0, Create(k, s, true))
            && var m1 := Apply(h, m0, Create(k, s, true), create);
            && Known(m1) && Enabled(m1, Event<S, V>.Destroy(k))
            && var m2 := Apply(h, m1, Event<S, V>.Destroy(k), create);
            && Known(m2) && Enabled(m2, Create(k, s, true)) && k in m2.shutdown && k !in m2.workers && m2.phase == Serving
  {
  }

  lemma LossSteps<S, V, R>(h: (S, V) -> (S, R), m: Master<S, V, R>, k: Key, s: S, create: bool)
    requires Known(m) && m.phase == Serving && k in m.shutdown && k !in m.workers
    ensures var m1 := Apply(h, m, Create(k, s, true), create);
            && Known(m1) && Enabled(m1, Event<S, V>.Destroy(k))
            && !Clean(Apply(h, m1, Event<S, V>.Destroy(k), create))
  {
    var m1 := Apply(h, m, Create(k, s, true), create);
    assert k in Apply(h, m1, Event<S, V>.Destroy(k), create).lost;
  }

  /** A worker is created and destroyed, and its key created and destroyed again before it has exited. */
  function Recreation<S, V>(k: Key, s: S): seq<Event<S, V>> {
    [Create(k, s, true)] + ([Event<S, V>.Destroy(k)] + ([Create(k, s, true)] + ([Event<S, V>.Destroy(k)] + [])))
  }

  lemma RecreationDirties<S, V, R>(h: (S, V) -> (S, R), k: Key, s: S, create: bool)
    ensures Possible(h, NewMaster<S, V, R>(), Recreation<S, V>(k, s), create)
    ensures !Clean(After(h, NewMaster<S, V, R>(), Recreation<S, V>(k, s), create))
  {
    hide Apply, Enabled, Clean, NewMaster, Known;
    var twice := [Create(k, s, true)] + ([Event<S, V>.Destroy(k)] + []);
    var m0 := NewMaster<S, V, R>();
    RecreationSteps<S, V, R>(h, k, s, create);
    var m1 := Apply(h, m0, Create(k, s, true), create);
    var m2 := Apply(h, m1, Event<S, V>.Destroy(k), create);
    LossSteps(h, m2, k, s, create);
    var m3 := Apply(h, m2, Create(k, s, true), create);
    Cons(h, m3, Event<S, V>.Destroy(k), [], create);
    Cons(h, m2, Create(k, s, true), [Event<S, V>.Destroy(k)] + [], create);
    Cons(h, m1, Event<S, V>.Destroy(k), twice, create);
    Cons(h, m0, Create(k, s, true), [Event<S, V>.Destroy(k)] + twice, create);
  }

  /** Destroying a key recreated while its old worker shuts down loses track of the old worker: Stop never returns. */
  lemma RecreationIsLost<S(!new), V(!new), R>(
      h: (S, V) -> (S, R), k: Key, s: S, rest: seq<Event<S, V>>, create: bool)
    ensures Possible(h, NewMaster<S, V, R>(), Recreation<S, V>(k, s), create)
    ensures var m := After(h, NewMaster<S, V, R>(), Recreation<S, V>(k, s), create).(phase := Closing);
            Possible(h, m, rest, create) ==> After(h, m, rest, create).phase != Stopped
  {
    hide Possible, After, Clean, Recreation;
    RecreationDirties<S, V, R>(h, k, s, create);
    var m := After(h, NewMaster<S, V, R>(), Recreation<S, V>(k, s), create).(phase := Closing);
    if Possible(h, m, rest, create) { DirtyNeverReturns(h, Recreation<S, V>(k, s), rest, create); }
  }
}
