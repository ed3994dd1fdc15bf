/**
 Shutdown channels. A client that destroys a worker waits for its shutdown channel to be closed; it is closed
 exactly once, when the master removes the worker, unless the master lost track of it.
 */
module MasterReleases {
  import opened Basics
  import opened MasterProtocol
  import opened MasterInvariants

  /** The worker has left both maps without having been released. */
  predicate Stray<S, V, R>(m: Master<S, V, R>, i: nat)
    requires i < |m.pool|
  {
    !Active(m, i) && !ShuttingDown(m, i) && m.pool[i].released == 0
  }

  /** The keys of the strays among the first n workers. */
  function Strays<S, V, R>(m: Master<S, V, R>, n: nat): multiset<Key>
    requires n <= |m.pool|
  {
    if n == 0 then multiset{}
    else Strays(m, n - 1) + if Stray(m, n - 1) then multiset{m.pool[n - 1].key} else multiset{}
  }

  /** The strays are the workers whose entry was overwritten. */
  predicate Accounted<S, V, R>(m: Master<S, V, R>) {
    Strays(m, |m.pool|) == m.lost
  }

  lemma {:induction false} SameStrays<S, V, R>(m: Master<S, V, R>, m': Master<S, V, R>, n: nat)
    requires n <= |m.pool| && n <= |m'.pool|
    requires forall i | 0 <= i < n :: m'.pool[i].key == m.pool[i].key && Stray(m', i) == Stray(m, i)
    ensures Strays(m', n) == Strays(m, n)
  {
    if n > 0 { SameStrays(m, m', n - 1); }
  }

  lemma {:induction false} OneMoreStray<S, V, R>(m: Master<S, V, R>, m': Master<S, V, R>, j: nat, n: nat)
    requires j < n <= |m.pool| == |m'.pool|
    requires forall i | 0 <= i < n :: m'.pool[i].key == m.pool[i].key && (i != j ==> Stray(m', i) == Stray(m, i))
    requires Stray(m', j) && !Stray(m, j)
    ensures Strays(m', n) == Strays(m, n) + multiset{m.pool[j].key}
  {
    if j == n - 1 { SameStrays(m, m', n - 1); } else { OneMoreStray(m, m', j, n - 1); }
  }

  /** Maps and releases unchanged. */
  lemma Unmoved<S, V, R>(m: Master<S, V, R>, m': Master<S, V, R>)
    requires m'.workers == m.workers && m'.shutdown == m.shutdown && m'.lost == m.lost && |m'.pool| == |m.pool|
    requires forall i | 0 <= i < |m.pool| :: m'.pool[i].key == m.pool[i].key && m'.pool[i].released == m.pool[i].released
    requires Accounted(m)
    ensures Accounted(m')
  {
    hide Strays;
    SameStrays(m, m', |m.pool|);
  }

  lemma ActiveIsNoStray<S, V, R>(m: Master<S, V, R>, n: nat)
    requires n < |m.pool| && Active(m, n)
    ensures Strays(m, n + 1) == Strays(m, n)
  {
  }

  lemma AddAccounted<S, V, R>(m: Master<S, V, R>, k: Key, s: S)
    requires Known(m) && k !in m.workers && Accounted(m)
    ensures Accounted(AddWorker(m, k, s))
  {
    hide Strays;
    var m', n := AddWorker(m, k, s), |m.pool|;
    forall i | 0 <= i < n ensures m'.pool[i].key == m.pool[i].key && Stray(m', i) == Stray(m, i) {
      assert m'.pool[i] == m.pool[i];
    }
    SameStrays(m, m', n);
    ActiveIsNoStray(m', n);
  }

  lemma ShutdownAccounted<S, V, R>(m: Master<S, V, R>, k: Key)
    requires Structured(m) && k in m.workers && Accounted(m)
    ensures Accounted(ShutdownWorker(m, k))
  {
    hide Strays;
    var m', i := ShutdownWorker(m, k), m.workers[k];
    assert Active(m, i);
    if k in m.shutdown {
      var j := m.shutdown[k];
      assert ShuttingDown(m, j) && j != i;
      OneMoreStray(m, m', j, |m.pool|);
    } else {
      SameStrays(m, m', |m.pool|);
    }
  }

  lemma RemoveAccounted<S, V, R>(m: Master<S, V, R>, k: Key)
    requires Structured(m) && Accounted(m)
    ensures Accounted(RemoveWorker(m, k))
  {
    hide Strays;
    SameStrays(m, RemoveWorker(m, k), |m.pool|);
  }

  /** The events that move no worker between maps. */
  predicate Still<S, V>(e: Event<S, V>) {
    !e.Create? && !e.Request? && !e.Destroy? && !e.CloseOne? && !e.Done?
  }

  lemma StillAccounted<S, V, R>(h: (S, V) -> (S, R), m: Master<S, V, R>, e: Event<S, V>, create: bool)
    requires Known(m) && Enabled(m, e) && Accounted(m) && Still(e)
    ensures Accounted(Apply(h, m, e, create))
  {
    hide Accounted;
    Unmoved(m, Apply(h, m, e, create));
  }

  lemma DoneAccounted<S, V, R>(h: (S, V) -> (S, R), m: Master<S, V, R>, create: bool)
    requires Structured(m) && Enabled(m, Event<S, V>.Done) && Accounted(m)
    ensures Accounted(Apply(h, m, Event<S, V>.Done, create))
  {
    hide Accounted, Structured, RemoveWorker;
    var d := m.(doneC := m.doneC[1..]);
    SameMapsStructured(m, d);
    Unmoved(m, d);
    RemoveAccounted(d, m.doneC[0]);
    StructuredKnown(m);
    StructuredKnown(d);
    Unmoved(RemoveWorker(d, m.doneC[0]), Apply(h, m, Event<S, V>.Done, create));
  }

  lemma StructuredKnown<S, V, R>(m: Master<S, V, R>)
    requires Structured(m)
    ensures Known(m)
  {
  }

  lemma SendAccounted<S, V, R>(m: Master<S, V, R>, k: Key, v: V)
    requires Known(m) && k in m.workers && Accounted(m)
    ensures Accounted(Send(m, k, v))
  {
    hide Accounted;
    Unmoved(m, Send(m, k, v));
  }

  lemma StepAccounts<S, V, R>(h: (S, V) -> (S, R), m: Master<S, V, R>, e: Event<S, V>, create: bool)
    requires Inv(h, m) && Enabled(m, e) && Accounted(m)
    ensures Accounted(Apply(h, m, e, create))
  {
    hide Disjoint, ChannelsOk, Conserved, AllLinear, Accounted, Send, AddWorker, ShutdownWorker;
    match e
    case Create(k, s, ok) => if k !in m.workers { AddAccounted(m, k, s); }
    case Request(k, v, s, ok) =>
      if k in m.workers {
        SendAccounted(m, k, v);
      } else {
        AddKeeps(h, m, k, s);
        AddAccounted(m, k, s);
        Added(m, k, s);
        SendAccounted(AddWorker(m, k, s), k, v);
      }
    case Destroy(k) => if k in m.workers { ShutdownAccounted(m, k); }
    case CloseOne(k) => ShutdownAccounted(m, k);
    case Done => DoneAccounted(h, m, create);
    case _ => if Still(e) { StillAccounted(h, m, e, create); }
  }

  lemma Added<S, V, R>(m: Master<S, V, R>, k: Key, s: S)
    ensures k in AddWorker(m, k, s).workers
  {
  }

  lemma {:induction false} RunAccounts<S, V, R>(h: (S, V) -> (S, R), m: Master<S, V, R>, run: seq<Event<S, V>>, create: bool)
    requires Inv(h, m) && Possible(h, m, run, create) && Accounted(m)
    ensures Inv(h, After(h, m, run, create)) && Accounted(After(h, m, run, create))
    decreases |run|
  {
    hide Inv, Accounted, Apply, Enabled;
    if run != [] {
      StepAccounts(h, m, run[0], create);
      StepKeeps(h, m, run[0], create);
      RunAccounts(h, Apply(h, m, run[0], create), run[1..], create);
    }
  }

  lemma {:induction false} StrayIsCounted<S, V, R>(m: Master<S, V, R>, i: nat, n: nat)
    requires i < n <= |m.pool| && Stray(m, i)
    ensures m.pool[i].key in Strays(m, n)
  {
    if i < n - 1 { StrayIsCounted(m, i, n - 1); }
  }

  /**
   In every reachable state a worker still in a map has not been released, one that has left both was released
   exactly once or is stray, and the strays, key by key, are the workers the master lost track of.
   */
  lemma ReleasedOnce<S, V, R>(h: (S, V) -> (S, R), run: seq<Event<S, V>>, create: bool)
    requires Possible(h, NewMaster<S, V, R>(), run, create)
    ensures var m := After(h, NewMaster<S, V, R>(), run, create);
            && Strays(m, |m.pool|) == m.lost
            && (forall i | 0 <= i < |m.pool| ::
                  m.pool[i].released == if Active(m, i) || ShuttingDown(m, i) || Stray(m, i) then 0 else 1)
            && (forall i | 0 <= i < |m.pool| && m.pool[i].key !in m.lost :: !Stray(m, i))
  {
    hide Possible, After, Strays, Conserved, AllLinear;
    NewInv<S, V, R>(h);
    NothingLost<S, V, R>();
    RunAccounts(h, NewMaster<S, V, R>(), run, create);
    var m := After(h, NewMaster<S, V, R>(), run, create);
    forall i | 0 <= i < |m.pool| && m.pool[i].key !in m.lost ensures !Stray(m, i) {
      if Stray(m, i) { StrayIsCounted(m, i, |m.pool|); }
    }
  }

  lemma NothingLost<S, V, R>()
    ensures Accounted(NewMaster<S, V, R>())
  {
  }
}
