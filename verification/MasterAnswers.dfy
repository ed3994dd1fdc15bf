/** Nothing accepted is left unanswered: if no worker quits by itself, Stop returns only after every request was handled. */
module MasterAnswers {
  import opened Basics
  import opened MasterProtocol
  import opened MasterInvariants
  import opened MasterStop

  /** Every worker runs, or is not active and left an empty channel. */
  predicate Attended<S, V, R>(m: Master<S, V, R>) {
    forall i | 0 <= i < |m.pool| :: m.pool[i].running || (!Active(m, i) && m.pool[i].queue == [])
  }

  lemma AddAttended<S, V, R>(m: Master<S, V, R>, k: Key, s: S)
    requires Known(m) && Attended(m) && k !in m.workers
    ensures Attended(AddWorker(m, k, s)) && k in AddWorker(m, k, s).workers
  {
    var m' := AddWorker(m, k, s);
    forall i | 0 <= i < |m'.pool| ensures m'.pool[i].running || (!Active(m', i) && m'.pool[i].queue == []) {
      if i < |m.pool| { assert m.pool[i].running || (!Active(m, i) && m.pool[i].queue == []); }
    }
  }

  lemma SendAttended<S, V, R>(m: Master<S, V, R>, k: Key, v: V)
    requires Known(m) && Attended(m) && k in m.workers
    ensures Attended(Send(m, k, v))
  {
    var m' := Send(m, k, v);
    assert Active(m, m.workers[k]);
    forall i | 0 <= i < |m'.pool| ensures m'.pool[i].running || (!Active(m', i) && m'.pool[i].queue == []) {
      assert m.pool[i].running || (!Active(m, i) && m.pool[i].queue == []);
    }
  }

  lemma BroadcastAttended<S, V, R>(m: Master<S, V, R>, v: V)
    requires Attended(m)
    ensures Attended(m.(pool := SendAll(m, v, |m.pool|)))
  {
    hide SendAll;
    var m' := m.(pool := SendAll(m, v, |m.pool|));
    forall i | 0 <= i < |m'.pool| ensures m'.pool[i].running || (!Active(m', i) && m'.pool[i].queue == []) {
      assert m.pool[i].running || (!Active(m, i) && m.pool[i].queue == []);
    }
  }

  lemma ShutdownAttended<S, V, R>(m: Master<S, V, R>, k: Key)
    requires Known(m) && Attended(m) && k in m.workers
    ensures Attended(ShutdownWorker(m, k))
  {
    var m' := ShutdownWorker(m, k);
    forall i | 0 <= i < |m'.pool| ensures m'.pool[i].running || (!Active(m', i) && m'.pool[i].queue == []) {
      assert m.pool[i].running || (!Active(m, i) && m.pool[i].queue == []);
    }
  }

  lemma RemoveAttended<S, V, R>(m: Master<S, V, R>, k: Key)
    requires Known(m) && Attended(m)
    ensures Attended(RemoveWorker(m, k))
  {
    var m' := RemoveWorker(m, k);
    forall i | 0 <= i < |m'.pool| ensures m'.pool[i].running || (!Active(m', i) && m'.pool[i].queue == []) {
      assert m.pool[i].running || (!Active(m, i) && m.pool[i].queue == []);
    }
  }

  /** Running stays running, or the worker leaves with an empty channel when it is not active. */
  lemma SetAttended<S, V, R>(m: Master<S, V, R>, i: nat, w: Worker<S, V, R>)
    requires Attended(m) && i < |m.pool| && w.key == m.pool[i].key
    requires w.running || (!Active(m, i) && w.queue == [])
    ensures Attended(SetWorker(m, i, w))
  {
    var m' := SetWorker(m, i, w);
    forall j | 0 <= j < |m'.pool| ensures m'.pool[j].running || (!Active(m', j) && m'.pool[j].queue == []) {
      assert m.pool[j].running || (!Active(m, j) && m.pool[j].queue == []);
    }
  }

  lemma SameAttended<S, V, R>(m: Master<S, V, R>, d: Master<S, V, R>)
    requires Attended(m) && d.pool == m.pool && d.workers == m.workers
    ensures Attended(d)
  {
    forall i | 0 <= i < |d.pool| ensures d.pool[i].running || (!Active(d, i) && d.pool[i].queue == []) {
      assert m.pool[i].running || (!Active(m, i) && m.pool[i].queue == []);
    }
  }

  lemma WorkerAttends<S, V, R>(h: (S, V) -> (S, R), m: Master<S, V, R>, e: Event<S, V>, create: bool)
    requires Structured(m) && Enabled(m, e) && Attended(m) && (e.Serve? || e.ServeShared? || e.Exit?)
    ensures Attended(Apply(h, m, e, create))
  {
    hide Attended, Disjoint;
    var w := m.pool[e.i];
    match e
    case Serve(i) => SetAttended(m, i, Handle(h, w, Job(true, w.queue[0])).(queue := w.queue[1..]));
    case ServeShared(i) =>
      SetAttended(m, i, Handle(h, w, Job(false, m.shared[0])));
      SameAttended(SetWorker(m, i, Handle(h, w, Job(false, m.shared[0]))), Apply(h, m, e, create));
    case Exit(i) =>
      assert !Active(m, i);
      SetAttended(m, i, w.(running := false));
      SameAttended(SetWorker(m, i, w.(running := false)), Apply(h, m, e, create));
  }

  lemma DoneAttended<S, V, R>(h: (S, V) -> (S, R), m: Master<S, V, R>, create: bool)
    requires Known(m) && Enabled(m, Event<S, V>.Done) && Attended(m)
    ensures Attended(Apply(h, m, Event<S, V>.Done, create))
  {
    hide Attended, Known, RemoveWorker;
    var d := m.(doneC := m.doneC[1..]);
    SamePool(m, d);
    SameAttended(m, d);
    RemoveAttended(d, m.doneC[0]);
    SameAttended(RemoveWorker(d, m.doneC[0]), Apply(h, m, Event<S, V>.Done, create));
  }

  lemma IdleAttended<S, V, R>(h: (S, V) -> (S, R), m: Master<S, V, R>, e: Event<S, V>, create: bool)
    requires Known(m) && Enabled(m, e) && Attended(m) && (e.Execute? || e.Stop? || e.StartDrain? || e.Return?)
    ensures Attended(Apply(h, m, e, create))
  {
    hide Attended;
    SameAttended(m, Apply(h, m, e, create));
  }

  /** As long as no worker quits by itself, every event keeps this. */
  lemma StepAttended<S, V, R>(h: (S, V) -> (S, R), m: Master<S, V, R>, e: Event<S, V>, create: bool)
    requires Inv(h, m) && Enabled(m, e) && !e.Quit? && Attended(m)
    ensures Attended(Apply(h, m, e, create))
  {
    hide Disjoint, ChannelsOk, Conserved, AllLinear, Attended, Send, AddWorker, ShutdownWorker, Linear;
    Parts(h, m);
    match e
    case Create(k, s, ok) => if k !in m.workers { AddAttended(m, k, s); }
    case Request(k, v, s, ok) =>
      if k in m.workers {
        SendAttended(m, k, v);
      } else {
        AddKeeps(h, m, k, s);
        AddAttended(m, k, s);
        if create && ok { SendAttended(AddWorker(m, k, s), k, v); }
      }
    case Broadcast(v) => BroadcastAttended(m, v);
    case Destroy(k) => if k in m.workers { ShutdownAttended(m, k); }
    case CloseOne(k) => ShutdownAttended(m, k);
    case Done => DoneAttended(h, m, create);
    case _ =>
      if e.Serve? || e.ServeShared? || e.Exit? { WorkerAttends(h, m, e, create); }
      if e.Execute? || e.Stop? || e.StartDrain? || e.Return? { IdleAttended(h, m, e, create); }
  }

  predicate NoQuit<S, V>(run: seq<Event<S, V>>) {
    forall i | 0 <= i < |run| :: !run[i].Quit?
  }

  lemma {:induction false} RunAttended<S, V, R>(h: (S, V) -> (S, R), m: Master<S, V, R>, run: seq<Event<S, V>>, create: bool)
    requires Inv(h, m) && Possible(h, m, run, create) && NoQuit(run) && Attended(m)
    ensures Inv(h, After(h, m, run, create)) && Attended(After(h, m, run, create))
    decreases |run|
  {
    hide Inv, Attended, Apply, Enabled;
    if run != [] {
      StepAttended(h, m, run[0], create);
      StepKeeps(h, m, run[0], create);
      RunAttended(h, Apply(h, m, run[0], create), run[1..], create);
    }
  }

  lemma {:induction false} RunStopping<S, V, R>(h: (S, V) -> (S, R), m: Master<S, V, R>, run: seq<Event<S, V>>, create: bool)
    requires Inv(h, m) && Possible(h, m, run, create) && (m.phase == Serving || Stopping(m))
    ensures var end := After(h, m, run, create); end.phase == Serving || Stopping(end)
    decreases |run|
  {
    hide Inv, Apply, Enabled, Stopping;
    if run != [] {
      StepKeeps(h, m, run[0], create);
      if Stopping(m) { StoppingKeepsClean(h, m, run[0], create); } else { ServingStep(h, m, run[0], create); }
      RunStopping(h, Apply(h, m, run[0], create), run[1..], create);
    }
  }

  lemma ServingStep<S, V, R>(h: (S, V) -> (S, R), m: Master<S, V, R>, e: Event<S, V>, create: bool)
    requires Known(m) && Enabled(m, e) && m.phase == Serving
    ensures var m' := Apply(h, m, e, create); m'.phase == Serving || Stopping(m')
  {
  }

  lemma NoneRuns<S, V, R>(h: (S, V) -> (S, R), m: Master<S, V, R>, i: nat)
    requires Inv(h, m) && m.count == 0 && i < |m.pool|
    ensures !m.pool[i].running
  {
    hide RunningKeys;
    StoppedIsEmpty(h, m);
    assert Tracked(m) == multiset{};
    if m.pool[i].running { RunningIsAlive(m.pool, i, |m.pool|); }
  }

  /**
   In any run in which no worker quits by itself, once Stop has returned every request a worker accepted has
   been handled and answered, in order; only values on the shared channel may be left.
   */
  lemma StopAnswersAll<S, V, R>(h: (S, V) -> (S, R), run: seq<Event<S, V>>, create: bool, i: nat)
    requires Possible(h, NewMaster<S, V, R>(), run, create) && NoQuit(run)
    requires var m := After(h, NewMaster<S, V, R>(), run, create); m.phase == Stopped && i < |m.pool|
    ensures var w := After(h, NewMaster<S, V, R>(), run, create).pool[i];
            && w.queue == [] && Own(w.handled) == w.accepted
            && w.replies == Sequential(h, w.initial, w.handled).1
  {
    hide Possible, After, Sequential, Own, Stopping, Conserved, Structured;
    var m0 := NewMaster<S, V, R>();
    NewInv<S, V, R>(h);
    RunAttended(h, m0, run, create);
    RunStopping(h, m0, run, create);
    var m := After(h, m0, run, create);
    StoppedCounts(m);
    NoneRuns(h, m, i);
    assert Linear(h, m.pool[i]);
  }
}
