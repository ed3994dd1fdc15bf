/**
 The batch runner: a submitter deals suppliers round-robin to the channels of a fixed number of
 workers, each worker runs one supplier at a time and puts its result on a common channel, and Run
 collects results until it has one per supplier. All channels hold at most 64 items.
 */
module BatchRunner {
  import opened Basics

  datatype Result<R> = Result(index: nat, value: R)

  const CAPACITY := 64

  /** The worker goroutines and channels, which outlive a batch. */
  datatype Runner<R> = Runner(queues: seq<seq<nat>>, running: seq<Option<nat>>, resC: seq<Result<R>>)

  /**
   One batch in progress. next is the first index not submitted yet, collected the indices received,
   result the array being filled, and finished whether Run has left its loop.
   */
  datatype Batch<R> = Batch(
    runner: Runner<R>, next: nat, collected: seq<nat>, result: seq<Option<R>>, finished: bool)

  datatype Step = Submit | Take(w: nat) | Finish(w: nat) | Collect

  function Idle<R>(concurrency: nat): Runner<R> {
    Runner(seq(concurrency, _ => []), seq(concurrency, _ => None), [])
  }

  function Begin<R>(runner: Runner<R>, n: nat): Batch<R> {
    Batch(runner, 0, [], seq(n, _ => None), false)
  }

  predicate WellFormed<R>(s: Batch<R>, n: nat) {
    && |s.runner.queues| == |s.runner.running| > 0
    && |s.result| == n
    && s.next <= n
    && forall i | 0 <= i < |s.runner.resC| :: s.runner.resC[i].index < n
  }

  predicate Enabled<R>(s: Batch<R>, n: nat, a: Step)
    requires WellFormed(s, n)
  {
    var r := s.runner;
    match a
    case Submit => s.next < n && |r.queues[s.next % |r.queues|]| < CAPACITY
    case Take(w) => w < |r.queues| && r.running[w].None? && r.queues[w] != []
    case Finish(w) => w < |r.queues| && r.running[w].Some? && |r.resC| < CAPACITY
    case Collect => !s.finished && r.resC != []
  }

  /** out[i] is what supplier i returns. */
  function Apply<R>(s: Batch<R>, out: seq<R>, a: Step): Batch<R>
    requires WellFormed(s, |out|) && Enabled(s, |out|, a)
    requires a.Finish? ==> s.runner.running[a.w].value < |out|
  {
    var r := s.runner;
    match a
    case Submit =>
      var w := s.next % |r.queues|;
      s.(runner := r.(queues := r.queues[w := r.queues[w] + [s.next]]), next := s.next + 1)
    case Take(w) =>
      s.(runner := r.(queues := r.queues[w := r.queues[w][1..]], running := r.running[w := Some(r.queues[w][0])]))
    case Finish(w) =>
      var i := r.running[w].value;
      s.(runner := r.(running := r.running[w := None], resC := r.resC + [Result(i, out[i])]))
    case Collect =>
      var res := r.resC[0];
      s.(runner := r.(resC := r.resC[1..]), collected := s.collected + [res.index],
         result := s.result[res.index := Some(res.value)],
         finished := |s.collected| + 1 == |out|)
  }

  // --- Where every index is ---

  function Queued(qs: seq<seq<nat>>, k: nat): multiset<nat>
    requires k <= |qs|
  {
    if k == 0 then multiset{} else Queued(qs, k - 1) + multiset(qs[k - 1])
  }

  function InFlight(rs: seq<Option<nat>>, k: nat): multiset<nat>
    requires k <= |rs|
  {
    if k == 0 then multiset{}
    else InFlight(rs, k - 1) + if rs[k - 1].Some? then multiset{rs[k - 1].value} else multiset{}
  }

  function Waiting<R>(c: seq<Result<R>>): multiset<nat> {
    if c == [] then multiset{} else multiset{c[0].index} + Waiting(c[1..])
  }

  function UpTo(n: nat): multiset<nat> {
    if n == 0 then multiset{} else UpTo(n - 1) + multiset{n - 1}
  }

  /** Every submitted index is in exactly one place: queued, running, in the result channel or collected. */
  predicate Partitioned<R>(s: Batch<R>) {
    Queued(s.runner.queues, |s.runner.queues|) + InFlight(s.runner.running, |s.runner.running|)
    + Waiting(s.runner.resC) + multiset(s.collected) == UpTo(s.next)
  }

  ghost predicate Correct<R>(s: Batch<R>, out: seq<R>) {
    && (forall i | 0 <= i < |s.runner.resC| :: s.runner.resC[i].index < |out| && s.runner.resC[i].value == out[s.runner.resC[i].index])
    && (forall i | i in s.collected :: i < |out| && i < |s.result| && s.result[i] == Some(out[i]))
  }

  ghost predicate Inv<R>(s: Batch<R>, out: seq<R>) {
    && WellFormed(s, |out|) && Partitioned(s) && Correct(s, out)
    && (s.finished <==> |s.collected| == |out| > 0)
  }

  lemma {:induction false} QueuedSame(p: seq<seq<nat>>, q: seq<seq<nat>>, k: nat)
    requires k <= |p| && k <= |q| && forall i | 0 <= i < k :: p[i] == q[i]
    ensures Queued(p, k) == Queued(q, k)
  {
    if k > 0 { QueuedSame(p, q, k - 1); }
  }

  lemma {:induction false} QueuedUpdate(qs: seq<seq<nat>>, w: nat, q: seq<nat>, k: nat)
    requires w < k <= |qs|
    ensures Queued(qs[w := q], k) + multiset(qs[w]) == Queued(qs, k) + multiset(q)
  {
    if w == k - 1 {
      QueuedSame(qs[w := q], qs, k - 1);
      Swap(Queued(qs, k - 1), Queued(qs, k - 1), multiset{}, multiset{}, multiset(q) + multiset(qs[w]));
    } else {
      QueuedUpdate(qs, w, q, k - 1);
      Swap(Queued(qs[w := q], k - 1), Queued(qs, k - 1), multiset(qs[w]), multiset(q), multiset(qs[k - 1]));
    }
  }

  lemma Swap(a: multiset<nat>, b: multiset<nat>, x: multiset<nat>, y: multiset<nat>, m: multiset<nat>)
    requires a + x == b + y
    ensures (a + m) + x == (b + m) + y
  {
    assert (a + m) + x == (a + x) + m;
    assert (b + m) + y == (b + y) + m;
  }

  lemma {:induction false} InFlightSame(p: seq<Option<nat>>, q: seq<Option<nat>>, k: nat)
    requires k <= |p| && k <= |q| && forall i | 0 <= i < k :: p[i] == q[i]
    ensures InFlight(p, k) == InFlight(q, k)
  {
    if k > 0 { InFlightSame(p, q, k - 1); }
  }

  /** Worker w, idle, starts on index i; read backwards, it finishes i. */
  lemma {:induction false} InFlightUpdate(rs: seq<Option<nat>>, w: nat, i: nat, k: nat)
    requires w < k <= |rs| && rs[w].None?
    ensures InFlight(rs[w := Some(i)], k) == InFlight(rs, k) + multiset{i}
  {
    if w == k - 1 { InFlightSame(rs[w := Some(i)], rs, k - 1); } else { InFlightUpdate(rs, w, i, k - 1); }
  }

  lemma {:induction false} WaitingAppend<R>(c: seq<Result<R>>, r: Result<R>)
    ensures Waiting(c + [r]) == Waiting(c) + multiset{r.index}
  {
    if c == [] {
      assert [r][1..] == [];
    } else {
      assert (c + [r])[1..] == c[1..] + [r];
      WaitingAppend(c[1..], r);
    }
  }

  lemma SubmitPartitioned<R>(s: Batch<R>, n: nat)
    requires WellFormed(s, n) && Partitioned(s) && s.next < n
    ensures var qs := s.runner.queues;
            var w := s.next % |qs|;
            Partitioned(s.(runner := s.runner.(queues := qs[w := qs[w] + [s.next]]), next := s.next + 1))
  {
    hide Queued, InFlight, Waiting;
    var qs := s.runner.queues;
    var w := s.next % |qs|;
    QueuedUpdate(qs, w, qs[w] + [s.next], |qs|);
    AddOne(Queued(qs[w := qs[w] + [s.next]], |qs|), Queued(qs, |qs|), qs[w], s.next);
  }

  lemma SubmitKeeps<R>(s: Batch<R>, out: seq<R>)
    requires Inv(s, out) && Enabled(s, |out|, Submit)
    ensures Inv(Apply(s, out, Submit), out)
  {
    hide Partitioned;
    SubmitPartitioned(s, |out|);
  }

  lemma AddOne(a: multiset<nat>, b: multiset<nat>, q: seq<nat>, i: nat)
    requires a + multiset(q) == b + multiset(q + [i])
    ensures a == b + multiset{i}
  {
    assert a == (a + multiset(q)) - multiset(q);
    assert b + multiset{i} == (b + multiset(q + [i])) - multiset(q);
  }

  lemma TakeKeeps<R>(s: Batch<R>, out: seq<R>, w: nat)
    requires Inv(s, out) && Enabled(s, |out|, Take(w))
    ensures Inv(Apply(s, out, Take(w)), out)
  {
    var qs := s.runner.queues;
    var q := qs[w];
    assert q == [q[0]] + q[1..];
    QueuedUpdate(qs, w, q[1..], |qs|);
    RemoveOne(Queued(qs[w := q[1..]], |qs|), Queued(qs, |qs|), q);
    InFlightUpdate(s.runner.running, w, q[0], |s.runner.running|);
  }

  lemma RemoveOne(a: multiset<nat>, b: multiset<nat>, q: seq<nat>)
    requires q != [] && a + multiset(q) == b + multiset(q[1..])
    ensures a + multiset{q[0]} == b
  {
    assert q == [q[0]] + q[1..];
    assert multiset(q) == multiset{q[0]} + multiset(q[1..]);
    assert a + multiset{q[0]} == (a + multiset(q)) - multiset(q[1..]);
    assert b == (b + multiset(q[1..])) - multiset(q[1..]);
  }

  lemma FinishPartitioned<R>(s: Batch<R>, w: nat, v: R)
    requires Partitioned(s) && w < |s.runner.running| && s.runner.running[w].Some?
    ensures s.runner.running[w].value < s.next
    ensures var r := s.runner;
            Partitioned(s.(runner := r.(running := r.running[w := None], resC := r.resC + [Result(r.running[w].value, v)])))
  {
    hide Queued, InFlight, Waiting, UpTo;
    var rs := s.runner.running;
    var i := rs[w].value;
    InFlightUpdate(rs[w := None], w, i, |rs|);
    assert rs[w := None][w := Some(i)] == rs;
    IndexInRange(s, i);
    WaitingAppend(s.runner.resC, Result(i, v));
  }

  lemma FinishKeeps<R>(s: Batch<R>, out: seq<R>, w: nat)
    requires Inv(s, out) && Enabled(s, |out|, Finish(w))
    ensures s.runner.running[w].value < |out|
    ensures Inv(Apply(s, out, Finish(w)), out)
  {
    hide Partitioned;
    InFlightInRange(s, out, w);
    FinishPartitioned(s, w, out[s.runner.running[w].value]);
  }

  lemma InFlightInRange<R>(s: Batch<R>, out: seq<R>, w: nat)
    requires Inv(s, out) && w < |s.runner.running| && s.runner.running[w].Some?
    ensures s.runner.running[w].value < s.next <= |out|
  {
    hide Queued, InFlight, Waiting, UpTo;
    var rs := s.runner.running;
    InFlightUpdate(rs[w := None], w, rs[w].value, |rs|);
    assert rs[w := None][w := Some(rs[w].value)] == rs;
    IndexInRange(s, rs[w].value);
  }

  lemma IndexInRange<R>(s: Batch<R>, i: nat)
    requires Partitioned(s) && i in InFlight(s.runner.running, |s.runner.running|)
    ensures i < s.next
  {
    UpToRange(s.next, i);
    assert i in UpTo(s.next);
  }

  lemma {:induction false} UpToRange(n: nat, i: nat)
    ensures UpTo(n)[i] == if i < n then 1 else 0
    ensures |UpTo(n)| == n
  {
    if n > 0 { UpToRange(n - 1, i); }
  }

  lemma CollectKeeps<R>(s: Batch<R>, out: seq<R>)
    requires Inv(s, out) && Enabled(s, |out|, Collect)
    ensures Inv(Apply(s, out, Collect), out)
  {
    var i := s.runner.resC[0].index;
    assert multiset(s.collected + [i]) == multiset(s.collected) + multiset{i};
    assert s.runner.resC[0] in s.runner.resC;
  }

  // --- Whole runs ---

  lemma StepKeeps<R>(s: Batch<R>, out: seq<R>, a: Step)
    requires Inv(s, out) && Enabled(s, |out|, a)
    ensures a.Finish? ==> s.runner.running[a.w].value < |out|
    ensures Inv(Apply(s, out, a), out)
  {
    hide Inv;
    match a
    case Submit => SubmitKeeps(s, out);
    case Take(w) => TakeKeeps(s, out, w);
    case Finish(w) => FinishKeeps(s, out, w);
    case Collect => CollectKeeps(s, out);
  }

  /** Steps left: four for every index not submitted, down to one for every result not collected. */
  function Work<R>(s: Batch<R>, n: nat): int {
    4 * (n - s.next) + 3 * |Queued(s.runner.queues, |s.runner.queues|)|
    + 2 * |InFlight(s.runner.running, |s.runner.running|)| + |Waiting(s.runner.resC)|
  }

  lemma QueuedSize(qs: seq<seq<nat>>, w: nat, q: seq<nat>)
    requires w < |qs|
    ensures |Queued(qs[w := q], |qs|)| + |qs[w]| == |Queued(qs, |qs|)| + |q|
  {
    hide Queued;
    QueuedUpdate(qs, w, q, |qs|);
    assert |Queued(qs[w := q], |qs|) + multiset(qs[w])| == |Queued(qs, |qs|) + multiset(q)|;
  }

  lemma InFlightSize(rs: seq<Option<nat>>, w: nat, i: nat)
    requires w < |rs| && rs[w].None?
    ensures |InFlight(rs[w := Some(i)], |rs|)| == |InFlight(rs, |rs|)| + 1
  {
    hide InFlight;
    InFlightUpdate(rs, w, i, |rs|);
  }

  /** Every step uses up exactly one unit of work. */
  lemma StepWorks<R>(s: Batch<R>, out: seq<R>, a: Step)
    requires Inv(s, out) && Enabled(s, |out|, a)
    requires a.Finish? ==> s.runner.running[a.w].value < |out|
    ensures Work(Apply(s, out, a), |out|) == Work(s, |out|) - 1
  {
    hide Queued, InFlight, Partitioned, Correct;
    var r := s.runner;
    match a
    case Submit =>
      var w := s.next % |r.queues|;
      QueuedSize(r.queues, w, r.queues[w] + [s.next]);
    case Take(w) =>
      QueuedSize(r.queues, w, r.queues[w][1..]);
      InFlightSize(r.running, w, r.queues[w][0]);
    case Finish(w) =>
      var i := r.running[w].value;
      InFlightSize(r.running[w := None], w, i);
      assert r.running[w := None][w := Some(i)] == r.running;
      WaitingAppend(r.resC, Result(i, out[i]));
    case Collect =>
      assert Waiting(r.resC) == multiset{r.resC[0].index} + Waiting(r.resC[1..]);
  }

  lemma {:induction false} SomeQueue(qs: seq<seq<nat>>, k: nat) returns (w: nat)
    requires k <= |qs| && Queued(qs, k) != multiset{}
    ensures w < k && qs[w] != []
  {
    if qs[k - 1] != [] { w := k - 1; } else { w := SomeQueue(qs, k - 1); }
  }

  lemma {:induction false} SomeWorker(rs: seq<Option<nat>>, k: nat) returns (w: nat)
    requires k <= |rs| && InFlight(rs, k) != multiset{}
    ensures w < k && rs[w].Some?
  {
    if rs[k - 1].Some? { w := k - 1; } else { w := SomeWorker(rs, k - 1); }
  }

  lemma {:induction false} BusyInFlight(rs: seq<Option<nat>>, w: nat, k: nat)
    requires w < k <= |rs| && rs[w].Some?
    ensures rs[w].value in InFlight(rs, k)
  {
    if w < k - 1 { BusyInFlight(rs, w, k - 1); }
  }

  lemma NoneInFlight(rs: seq<Option<nat>>, k: nat)
    requires k <= |rs| && InFlight(rs, k) == multiset{}
    ensures forall w | 0 <= w < k :: rs[w].None?
  {
    forall w | 0 <= w < k ensures rs[w].None? {
      if rs[w].Some? { BusyInFlight(rs, w, k); }
    }
  }

  lemma {:induction false} HeadQueued(qs: seq<seq<nat>>, w: nat, k: nat)
    requires w < k <= |qs| && qs[w] != []
    ensures qs[w][0] in Queued(qs, k)
  {
    if w < k - 1 { HeadQueued(qs, w, k - 1); }
  }

  lemma NoneQueued(qs: seq<seq<nat>>, k: nat)
    requires k <= |qs| && Queued(qs, k) == multiset{}
    ensures forall w | 0 <= w < k :: qs[w] == []
  {
    forall w | 0 <= w < k ensures qs[w] == [] {
      if qs[w] != [] { HeadQueued(qs, w, k); }
    }
  }

  /** Unless Run has finished, some goroutine can take a step: no schedule deadlocks a non-empty batch. */
  lemma Progress<R>(s: Batch<R>, out: seq<R>) returns (a: Step)
    requires Inv(s, out) && !s.finished && out != []
    ensures Enabled(s, |out|, a)
  {
    hide Queued, InFlight, Correct;
    var r := s.runner;
    if r.resC != [] {
      a := Collect;
    } else if InFlight(r.running, |r.running|) != multiset{} {
      var w := SomeWorker(r.running, |r.running|);
      a := Finish(w);
    } else if Queued(r.queues, |r.queues|) != multiset{} {
      var w := SomeQueue(r.queues, |r.queues|);
      NoneInFlight(r.running, |r.running|);
      a := Take(w);
    } else {
      NoneQueued(r.queues, |r.queues|);
      assert multiset(s.collected) == UpTo(s.next);
      UpToRange(s.next, 0);
      a := Submit;
    }
  }

  /** When Run finishes, result i is supplier i's for every i, and nothing is left for the next batch to see. */
  lemma FinishedComplete<R>(s: Batch<R>, out: seq<R>)
    requires Inv(s, out) && s.finished
    ensures forall i | 0 <= i < |out| :: s.result[i] == Some(out[i])
    ensures s.next == |out| && s.runner == Idle(|s.runner.queues|)
  {
    hide Queued, InFlight, Waiting, UpTo;
    var r := s.runner;
    var rest := Queued(r.queues, |r.queues|) + InFlight(r.running, |r.running|) + Waiting(r.resC);
    UpToRange(s.next, 0);
    assert |rest + multiset(s.collected)| == s.next;
    assert rest == multiset{};
    NoneQueued(r.queues, |r.queues|);
    NoneInFlight(r.running, |r.running|);
    NoneWaiting(r.resC);
    assert r.queues == Idle<R>(|r.queues|).queues && r.running == Idle<R>(|r.queues|).running;
    forall i | 0 <= i < |out| ensures s.result[i] == Some(out[i]) {
      UpToRange(s.next, i);
      assert i in multiset(s.collected);
    }
  }

  lemma NoneWaiting<R>(c: seq<Result<R>>)
    ensures c != [] ==> c[0].index in Waiting(c)
  {
  }

  /** Any sequence of enabled steps; that a running index belongs to the batch holds in every reachable state. */
  ghost predicate Possible<R>(s: Batch<R>, out: seq<R>, run: seq<Step>)
    decreases |run|
  {
    run == [] ||
    (&& WellFormed(s, |out|) && Enabled(s, |out|, run[0])
     && (run[0].Finish? ==> s.runner.running[run[0].w].value < |out|)
     && Possible(Apply(s, out, run[0]), out, run[1..]))
  }

  ghost function After<R>(s: Batch<R>, out: seq<R>, run: seq<Step>): Batch<R>
    requires Possible(s, out, run)
    decreases |run|
  {
    if run == [] then s else After(Apply(s, out, run[0]), out, run[1..])
  }

  lemma SameWorkers<R>(s: Batch<R>, out: seq<R>, a: Step)
    requires WellFormed(s, |out|) && Enabled(s, |out|, a)
    requires a.Finish? ==> s.runner.running[a.w].value < |out|
    ensures |Apply(s, out, a).runner.queues| == |s.runner.queues|
  {
  }

  lemma {:induction false} RunKeeps<R>(s: Batch<R>, out: seq<R>, run: seq<Step>)
    requires Inv(s, out) && Possible(s, out, run)
    ensures var end := After(s, out, run);
            && Inv(end, out) && Work(end, |out|) == Work(s, |out|) - |run|
            && |end.runner.queues| == |s.runner.queues|
    decreases |run|
  {
    hide Inv, Work, Enabled;
    if run != [] {
      StepKeeps(s, out, run[0]);
      StepWorks(s, out, run[0]);
      SameWorkers(s, out, run[0]);
      RunKeeps(Apply(s, out, run[0]), out, run[1..]);
    }
  }

  lemma {:induction false} IdleEmpty<R>(concurrency: nat, k: nat)
    requires k <= concurrency
    ensures Queued(Idle<R>(concurrency).queues, k) == multiset{} && InFlight(Idle<R>(concurrency).running, k) == multiset{}
  {
    if k > 0 { IdleEmpty<R>(concurrency, k - 1); }
  }

  lemma BeginInv<R>(concurrency: nat, out: seq<R>)
    requires concurrency > 0
    ensures Inv(Begin(Idle<R>(concurrency), |out|), out)
    ensures Work(Begin(Idle<R>(concurrency), |out|), |out|) == 4 * |out|
  {
    IdleEmpty<R>(concurrency, concurrency);
  }

  ghost predicate Quiescent<R>(s: Batch<R>, n: nat)
    requires WellFormed(s, n)
  {
    forall a :: !Enabled(s, n, a)
  }

  /**
   For every batch, concurrency and schedule: at most four steps are taken per supplier; if Run
   finishes, every result is its supplier's and the runner is idle again, as the next batch finds
   it; and a schedule that can go no further has finished exactly when the batch was not empty.
   */
  lemma BatchRuns<R>(concurrency: nat, out: seq<R>, run: seq<Step>)
    requires concurrency > 0 && Possible(Begin(Idle<R>(concurrency), |out|), out, run)
    ensures |run| <= 4 * |out|
    ensures var end := After(Begin(Idle<R>(concurrency), |out|), out, run);
            && WellFormed(end, |out|)
            && (end.finished ==> && (forall i | 0 <= i < |out| :: end.result[i] == Some(out[i]))
                                 && end.runner == Idle(concurrency) && |run| == 4 * |out|)
            && (Quiescent(end, |out|) ==> (end.finished <==> out != []))
  {
    hide Queued, InFlight, Waiting, Partitioned, Correct, UpTo;
    var s := Begin(Idle<R>(concurrency), |out|);
    BeginInv<R>(concurrency, out);
    RunKeeps(s, out, run);
    var end := After(s, out, run);
    WorkIsNatural(end, |out|);
    if end.finished {
      FinishedComplete(end, out);
      IdleEmpty<R>(concurrency, concurrency);
      NothingWaits<R>();
    } else if out != [] {
      var a := Progress(end, out);
    }
  }

  // --- Who gets what ---

  predicate Ascending(q: seq<nat>) {
    forall i, j | 0 <= i < j < |q| :: q[i] < q[j]
  }

  /** Worker w of c holds only indices that are w modulo c, all below `next`, the one it runs before those it has queued. */
  predicate DealtTo(q: seq<nat>, running: Option<nat>, next: nat, w: nat, c: nat)
    requires c > 0
  {
    && Ascending(q) && (forall j | 0 <= j < |q| :: q[j] % c == w && q[j] < next)
    && (running.Some? ==> running.value % c == w && running.value < next
                          && forall j | 0 <= j < |q| :: running.value < q[j])
  }

  predicate Dealt<R>(s: Batch<R>, n: nat)
    requires WellFormed(s, n)
  {
    var r := s.runner;
    forall w | 0 <= w < |r.queues| :: DealtTo(r.queues[w], r.running[w], s.next, w, |r.queues|)
  }

  lemma StepDeals<R>(s: Batch<R>, out: seq<R>, a: Step)
    requires Inv(s, out) && Enabled(s, |out|, a) && Dealt(s, |out|)
    requires a.Finish? ==> s.runner.running[a.w].value < |out|
    requires WellFormed(Apply(s, out, a), |out|)
    ensures Dealt(Apply(s, out, a), |out|)
  {
    hide Partitioned, Correct;
    var s' := Apply(s, out, a);
    var r, r' := s.runner, s'.runner;
    forall w | 0 <= w < |r.queues| ensures DealtTo(r'.queues[w], r'.running[w], s'.next, w, |r.queues|) {
      assert DealtTo(r.queues[w], r.running[w], s.next, w, |r.queues|);
    }
  }

  lemma {:induction false} RunDeals<R>(s: Batch<R>, out: seq<R>, run: seq<Step>)
    requires Inv(s, out) && Dealt(s, |out|) && Possible(s, out, run)
    ensures var end := After(s, out, run); Inv(end, out) && Dealt(end, |out|)
    decreases |run|
  {
    hide Partitioned, Correct, Dealt, Apply;
    if run != [] {
      StepKeeps(s, out, run[0]);
      StepDeals(s, out, run[0]);
      RunDeals(Apply(s, out, run[0]), out, run[1..]);
    }
  }

  /** Suppliers are dealt round-robin: in every reachable state worker w holds only indices w modulo c, in increasing order. */
  lemma DealtRoundRobin<R>(concurrency: nat, out: seq<R>, run: seq<Step>, w: nat)
    requires w < concurrency && Possible(Begin(Idle<R>(concurrency), |out|), out, run)
    ensures var end := After(Begin(Idle<R>(concurrency), |out|), out, run);
            && |end.runner.queues| == |end.runner.running| == concurrency
            && DealtTo(end.runner.queues[w], end.runner.running[w], end.next, w, concurrency)
  {
    hide Partitioned, Correct;
    var s := Begin(Idle<R>(concurrency), |out|);
    BeginInv<R>(concurrency, out);
    RunDeals(s, out, run);
    RunKeeps(s, out, run);
  }

  lemma NothingWaits<R>()
    ensures Waiting<R>([]) == multiset{}
  {
  }

  lemma WorkIsNatural<R>(s: Batch<R>, n: nat)
    requires s.next <= n
    ensures Work(s, n) >= 0
  {
  }

  /** An empty batch never returns: Run waits for a result that no worker will ever produce. */
  lemma EmptyBatchHangs<R>(concurrency: nat)
    requires concurrency > 0
    ensures var s := Begin(Idle<R>(concurrency), 0);
            WellFormed(s, 0) && Quiescent(s, 0) && !s.finished
  {
  }
}
