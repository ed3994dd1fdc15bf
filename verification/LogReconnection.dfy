/**
 A log subscription from its creation to its end, as the subscriber's goroutines and the worker that
 supervises them interleave. A goroutine that fails first publishes its error and only then
 saves the block to resume from; the worker resubscribes as soon as it has the error.
 */
module LogReconnection {
  import opened Basics
  import opened LogSubscribers

  /** The supervising worker: it waits for an error, handles one, or has ended. */
  datatype Supervisor = Waiting | Handling | Exited

  /** The one resubscription: what had been forwarded, where it starts, the head then, and the block it asked for. */
  datatype Resumption = Resumption(stopped: nat, start: nat, headThen: nat, asked: Option<nat>)

  /**
   The first `head` events of the chain exist. The current session delivers chain[cursor] next; `running` says
   whether its goroutine is still in its loop. `unsaved` and `closed` follow the first goroutine: about to save,
   and done, with the only error channel the worker listens on closed.
   */
  datatype Feed = Feed(
    first: nat, head: nat, cursor: nat, running: bool, unsaved: bool, closed: bool,
    fromBlock: Option<nat>, at: Position, out: seq<Event>, worker: Supervisor, resumed: Option<Resumption>)

  datatype Step = Mine | Receive | Fail | Finish | Save | Resubscribe | Refuse | Exit

  const ORIGIN := Position(0, 0)

  /** No block is asked for at first: the subscription starts at the head. */
  function NewFeed(head: nat): Feed {
    Feed(head, head, head, true, false, false, None, ORIGIN, [], Waiting, None)
  }

  /** Where the node starts a subscription. */
  function StartFor(chain: seq<Event>, fromBlock: Option<nat>, head: nat): nat {
    if fromBlock.None? then head else StartOf(chain, fromBlock.value, 0)
  }

  /** The worker may leave while it waits: the channel was closed, or it has been idle for too long. */
  predicate Enabled(chain: seq<Event>, f: Feed, s: Step) {
    match s
    case Mine => f.head < |chain|
    case Receive => f.running && f.cursor < f.head
    case Fail => f.running && (f.resumed.None? ==> f.worker.Waiting?)
    case Finish => f.running
    case Save => f.unsaved
    case Resubscribe => f.worker.Handling?
    case Refuse => f.worker.Handling?
    case Exit => f.worker.Waiting?
  }

  /**
   The error of the second session is offered on a channel nobody reads, and its goroutine stays there; if it
   ends without an error, nobody uses the block it saves.
   */
  function Apply(chain: seq<Event>, f: Feed, s: Step): Feed
    requires Enabled(chain, f, s) && f.head <= |chain|
  {
    match s
    case Mine => f.(head := f.head + 1)
    case Receive =>
      var input := [chain[f.cursor]];
      f.(cursor := f.cursor + 1, out := f.out + Forwarded(f.at, input), at := EndPosition(f.at, input))
    case Fail =>
      if f.resumed.Some? then f.(running := false)
      else f.(running := false, unsaved := true, worker := Handling)
    case Finish => f.(running := false, unsaved := f.unsaved || f.resumed.None?)
    case Save => f.(unsaved := false, closed := true, fromBlock := Some(f.at.block))
    case Resubscribe =>
      var start := StartFor(chain, f.fromBlock, f.head);
      f.(worker := Waiting, running := true, cursor := start,
         resumed := Some(Resumption(f.cursor, start, f.head, f.fromBlock)))
    case Refuse => f.(worker := Exited)
    case Exit => f.(worker := Exited)
  }

  // --- What has been forwarded, exactly ---

  function PositionAfter(chain: seq<Event>, first: nat, k: nat): Position
    requires first <= k <= |chain|
  {
    if first < k then chain[k - 1].at else ORIGIN
  }

  /** The first event the second session forwards: the last one forwarded is let through again. */
  function Resume(first: nat, r: Resumption): nat {
    if first < r.stopped then Max(r.start, r.stopped - 1) else r.start
  }

  /** What the second session has forwarded when it has delivered everything before `cursor`. */
  function Second(chain: seq<Event>, first: nat, r: Resumption, cursor: nat): seq<Event>
    requires cursor <= |chain|
  {
    var lo := Resume(first, r);
    if lo < cursor then Stretch(chain, lo, cursor) else []
  }

  predicate Placed(chain: seq<Event>, f: Feed) {
    f.first <= f.head <= |chain| && f.cursor <= f.head
  }

  predicate ResumptionOk(chain: seq<Event>, f: Feed, r: Resumption)
    requires Placed(chain, f)
  {
    && f.first <= r.stopped <= r.headThen <= f.head && r.start <= f.cursor
    && r.start == StartFor(chain, r.asked, r.headThen)
    && (r.asked.Some? ==> r.asked.value == PositionAfter(chain, f.first, r.stopped).block)
  }

  /** Before the resubscription everything delivered was forwarded; the block is saved once the goroutine is done. */
  predicate FirstSession(chain: seq<Event>, f: Feed)
    requires Placed(chain, f)
  {
    && f.first <= f.cursor
    && f.out == Stretch(chain, f.first, f.cursor)
    && f.at == PositionAfter(chain, f.first, f.cursor)
    && (f.running ==> !f.unsaved && !f.closed && !f.worker.Handling?)
    && (f.fromBlock.Some? ==> f.fromBlock.value == f.at.block && !f.running)
    && (f.closed <==> f.fromBlock.Some?)
  }

  /** After it, exactly the stretch before it and what the second session lets through. */
  predicate SecondSession(chain: seq<Event>, f: Feed, r: Resumption)
    requires Placed(chain, f)
  {
    && ResumptionOk(chain, f, r)
    && f.out == Stretch(chain, f.first, r.stopped) + Second(chain, f.first, r, f.cursor)
    && f.at == (if Resume(f.first, r) < f.cursor then chain[f.cursor - 1].at else PositionAfter(chain, f.first, r.stopped))
    && !f.worker.Handling?
  }

  predicate Inv(chain: seq<Event>, f: Feed) {
    && Sorted(chain) && Placed(chain, f)
    && if f.resumed.None? then FirstSession(chain, f) else SecondSession(chain, f, f.resumed.value)
  }

  lemma ForwardOne(p: Position, e: Event)
    ensures Forwarded(p, [e]) == (if Less(e.at, p) then [] else [e])
    ensures EndPosition(p, [e]) == if Less(e.at, p) then p else e.at
  {
    assert [e][1..] == [];
  }

  lemma StretchSnoc(chain: seq<Event>, lo: nat, hi: nat)
    requires lo <= hi < |chain|
    ensures Stretch(chain, lo, hi) + [chain[hi]] == Stretch(chain, lo, hi + 1)
  {
  }

  lemma FirstReceive(chain: seq<Event>, f: Feed)
    requires Inv(chain, f) && f.resumed.None? && Enabled(chain, f, Receive)
    ensures Inv(chain, Apply(chain, f, Receive))
  {
    hide Stretch, Forwarded, EndPosition;
    var e := chain[f.cursor];
    ForwardOne(f.at, e);
    StretchSnoc(chain, f.first, f.cursor);
  }

  lemma SecondGrows(chain: seq<Event>, first: nat, r: Resumption, cursor: nat)
    requires cursor < |chain|
    ensures Second(chain, first, r, cursor + 1)
         == Second(chain, first, r, cursor) + if Resume(first, r) <= cursor then [chain[cursor]] else []
  {
    if Resume(first, r) < cursor { StretchSnoc(chain, Resume(first, r), cursor); }
  }

  lemma SecondReceive(chain: seq<Event>, f: Feed)
    requires Inv(chain, f) && f.resumed.Some? && Enabled(chain, f, Receive)
    ensures Inv(chain, Apply(chain, f, Receive))
  {
    hide Stretch, Forwarded, EndPosition, Second, StartFor;
    var e, r := chain[f.cursor], f.resumed.value;
    ForwardOne(f.at, e);
    SecondGrows(chain, f.first, r, f.cursor);
  }

  lemma ResubscribeKeeps(chain: seq<Event>, f: Feed)
    requires Inv(chain, f) && Enabled(chain, f, Resubscribe)
    ensures Inv(chain, Apply(chain, f, Resubscribe))
  {
    hide Stretch, StartOf;
    var r := Resumption(f.cursor, StartFor(chain, f.fromBlock, f.head), f.head, f.fromBlock);
    if f.fromBlock.Some? { StartsInTime(chain, f.first, f.cursor, f.fromBlock.value); }
    var rest := Second(chain, f.first, r, r.start);
    assert rest == [];
    assert Stretch(chain, f.first, f.cursor) + rest == Stretch(chain, f.first, f.cursor);
  }

  /** The block of the last event forwarded starts at or before that event; with none forwarded it is block 0. */
  lemma StartsInTime(chain: seq<Event>, first: nat, k: nat, block: nat)
    requires Sorted(chain) && first <= k <= |chain| && block == PositionAfter(chain, first, k).block
    ensures if first < k then StartOf(chain, block, 0) < k else StartOf(chain, block, 0) == 0
  {
    if first < k { SavedBlockResumes(chain, k, block); }
  }

  /** Every step of every goroutine keeps the exact account of what was forwarded. */
  lemma StepKeeps(chain: seq<Event>, f: Feed, s: Step)
    requires Inv(chain, f) && Enabled(chain, f, s)
    ensures Inv(chain, Apply(chain, f, s))
  {
    hide Stretch, Forwarded, EndPosition, Second, StartFor, Sorted;
    match s
    case Receive => if f.resumed.None? { FirstReceive(chain, f); } else { SecondReceive(chain, f); }
    case Resubscribe => ResubscribeKeeps(chain, f);
    case _ =>
  }

  predicate Possible(chain: seq<Event>, f: Feed, run: seq<Step>)
    decreases |run|
  {
    run == [] || (f.head <= |chain| && Enabled(chain, f, run[0]) && Possible(chain, Apply(chain, f, run[0]), run[1..]))
  }

  function After(chain: seq<Event>, f: Feed, run: seq<Step>): Feed
    requires Possible(chain, f, run)
    decreases |run|
  {
    if run == [] then f else After(chain, Apply(chain, f, run[0]), run[1..])
  }

  lemma {:induction false} RunKeeps(chain: seq<Event>, f: Feed, run: seq<Step>)
    requires Inv(chain, f) && Possible(chain, f, run)
    ensures Inv(chain, After(chain, f, run))
    decreases |run|
  {
    hide Inv, Enabled, Apply;
    if run != [] {
      StepKeeps(chain, f, run[0]);
      RunKeeps(chain, Apply(chain, f, run[0]), run[1..]);
    }
  }

  // --- No gap, and nothing from before the subscription ---

  /** What was forwarded is, up to adjacent repeats, one stretch of the chain from where the subscription began. */
  ghost predicate Gapless(chain: seq<Event>, f: Feed)
    requires Placed(chain, f)
  {
    exists hi :: f.first <= hi <= f.head && Dedup(None, f.out) == Stretch(chain, f.first, hi)
  }

  /**
   When the resubscription came after the save, it is in time if an event had been forwarded, or there was nothing
   before the subscription; when it came before, only if no event had appeared since the last one forwarded.
   */
  predicate Timely(first: nat, r: Resumption) {
    if r.asked.Some? then first < r.stopped || first == 0 else r.headThen == r.stopped
  }

  lemma TimelyIs(chain: seq<Event>, f: Feed)
    requires Inv(chain, f) && f.resumed.Some?
    ensures var r := f.resumed.value;
            Timely(f.first, r) <==> if f.first < r.stopped then r.start <= r.stopped else r.start == f.first
  {
    hide Stretch, StartOf;
    var r := f.resumed.value;
    if r.asked.Some? { StartsInTime(chain, f.first, r.stopped, r.asked.value); }
  }

  /** Two stretches with a common prefix can be one stretch only if the second starts where the first ends. */
  lemma Misplaced(chain: seq<Event>, first: nat, k: nat, lo: nat, c: nat, hi: nat)
    requires Sorted(chain) && first <= k <= |chain| && lo < c <= |chain| && first <= hi <= |chain|
    requires Stretch(chain, first, k) + Stretch(chain, lo, c) == Stretch(chain, first, hi)
    ensures lo == k
  {
    var whole := Stretch(chain, first, k) + Stretch(chain, lo, c);
    assert whole[k - first] == chain[lo];
    assert Stretch(chain, first, hi)[k - first] == chain[k];
    assert chain[lo].at == chain[k].at;
  }

  /** Adjacent repeats removed, a resumption that leaves no gap adds the events from where the first session stopped. */
  lemma DedupResumed(chain: seq<Event>, first: nat, k: nat, lo: nat, c: nat)
    requires Sorted(chain) && first <= k <= |chain| && lo < c <= |chain|
    ensures var both := Dedup(None, Stretch(chain, first, k) + Stretch(chain, lo, c));
            both == if first < k && lo == k - 1 then Stretch(chain, first, Max(k, c))
                    else Stretch(chain, first, k) + Stretch(chain, lo, c)
  {
    hide Stretch, Dedup, LastOr;
    DedupAppend(None, Stretch(chain, first, k), Stretch(chain, lo, c));
    DedupStretch(None, chain, first, k);
    var last := LastOr(None, Stretch(chain, first, k));
    if first < k {
      StretchHead(chain, first, k);
      if lo == k - 1 {
        StretchHead(chain, lo, c);
        DedupRepeat(chain[lo], Stretch(chain, lo + 1, c));
        if k < c { assert Less(chain[k - 1].at, chain[k].at); }
        DedupStretch(Some(chain[lo]), chain, k, c);
        StretchJoin(chain, first, k, c);
      } else {
        assert chain[lo] != chain[k - 1] by {
          assert Less(chain[lo].at, chain[k - 1].at) || Less(chain[k - 1].at, chain[lo].at);
        }
        DedupStretch(last, chain, lo, c);
      }
    } else {
      EmptyStretch(chain, k);
      NoLast();
      DedupStretch(None, chain, lo, c);
    }
  }

  lemma DedupRepeat(e: Event, es: seq<Event>)
    ensures Dedup(Some(e), [e] + es) == Dedup(Some(e), es)
  {
    assert ([e] + es)[1..] == es;
  }

  lemma NoLast()
    ensures LastOr(None, []) == None
  {
  }

  /**
   In every reachable state what was forwarded is one gapless stretch from where the subscription began
   exactly when there was no resubscription, it came in time, or the second session has not yet got past what
   it drops.
   */
  lemma GaplessIff(chain: seq<Event>, f: Feed)
    requires Inv(chain, f)
    ensures Gapless(chain, f)
       <==> (f.resumed.None? || Timely(f.first, f.resumed.value) || f.cursor <= Resume(f.first, f.resumed.value))
  {
    hide Stretch, Dedup, StartFor;
    if f.resumed.None? {
      DedupStretch(None, chain, f.first, f.cursor);
    } else {
      ResumedGaplessIff(chain, f, f.resumed.value);
    }
  }

  lemma ResumedGaplessIff(chain: seq<Event>, f: Feed, r: Resumption)
    requires Inv(chain, f) && f.resumed == Some(r)
    ensures Gapless(chain, f) <==> (Timely(f.first, r) || f.cursor <= Resume(f.first, r))
  {
    hide Stretch, Dedup, StartFor, Timely;
    var k, lo, c := r.stopped, Resume(f.first, r), f.cursor;
    TimelyIs(chain, f);
    DedupStretch(None, chain, f.first, k);
    if lo < c {
      DedupResumed(chain, f.first, k, lo, c);
      if lo == k {
        StretchJoin(chain, f.first, k, c);
      } else if !(f.first < k && lo == k - 1) {
        forall hi | f.first <= hi <= f.head && Dedup(None, f.out) == Stretch(chain, f.first, hi)
          ensures false
        {
          Misplaced(chain, f.first, k, lo, c, hi);
        }
      }
    } else {
      assert f.out == Stretch(chain, f.first, k);
    }
  }

  /** From a new subscription, over every interleaving. */
  lemma SubscriptionExact(chain: seq<Event>, head: nat, run: seq<Step>)
    requires Sorted(chain) && head <= |chain| && Possible(chain, NewFeed(head), run)
    ensures var f := After(chain, NewFeed(head), run);
            && Inv(chain, f) && f.first == head
            && (Gapless(chain, f) <==> (f.resumed.None? || Timely(head, f.resumed.value)
                                        || f.cursor <= Resume(head, f.resumed.value)))
  {
    hide Gapless, Timely;
    EmptyStretch(chain, head);
    RunKeeps(chain, NewFeed(head), run);
    FirstStays(chain, NewFeed(head), run);
    GaplessIff(chain, After(chain, NewFeed(head), run));
  }

  lemma {:induction false} FirstStays(chain: seq<Event>, f: Feed, run: seq<Step>)
    requires Possible(chain, f, run)
    ensures After(chain, f, run).first == f.first
    decreases |run|
  {
    if run != [] { FirstStays(chain, Apply(chain, f, run[0]), run[1..]); }
  }

  // --- Only one reconnection ---

  function Resubscriptions(run: seq<Step>): nat {
    if run == [] then 0 else (if run[0].Resubscribe? then 1 else 0) + Resubscriptions(run[1..])
  }

  /**
   The worker keeps to the first session's error channel, so no run reconnects twice, and once a second
   session has ended nothing more is forwarded.
   */
  lemma {:induction false} OneReconnection(chain: seq<Event>, f: Feed, run: seq<Step>)
    requires Inv(chain, f) && Possible(chain, f, run)
    ensures Resubscriptions(run) <= if f.resumed.Some? then 0 else 1
    ensures f.resumed.Some? && !f.running ==> After(chain, f, run).out == f.out
    decreases |run|
  {
    hide Placed, FirstSession, Sorted, Forwarded, EndPosition;
    if run != [] {
      StepKeeps(chain, f, run[0]);
      OneReconnection(chain, Apply(chain, f, run[0]), run[1..]);
    }
  }

  // --- The same, decided from the steps of the run alone ---

  function Count(run: seq<Step>, s: Step): nat {
    if run == [] then 0 else (if run[0] == s then 1 else 0) + Count(run[1..], s)
  }

  lemma {:induction false} CountIs(run: seq<Step>, s: Step)
    ensures Count(run, s) > 0 <==> s in run
  {
    if run != [] {
      CountIs(run[1..], s);
      assert s in run <==> s == run[0] || s in run[1..];
    }
  }

  lemma {:induction false} RunSplits(chain: seq<Event>, f: Feed, a: seq<Step>, b: seq<Step>)
    requires Possible(chain, f, a + b)
    ensures Possible(chain, f, a) && Possible(chain, After(chain, f, a), b)
    ensures After(chain, f, a + b) == After(chain, After(chain, f, a), b)
    decreases |a|
  {
    hide Enabled, Apply;
    if a == [] {
      assert a + b == b;
    } else {
      assert (a + b)[0] == a[0] && (a + b)[1..] == a[1..] + b;
      RunSplits(chain, Apply(chain, f, a[0]), a[1..], b);
    }
  }

  /** Before the resubscription the head, what was delivered and what was saved are those the steps say. */
  lemma {:induction false} FirstPart(chain: seq<Event>, f: Feed, run: seq<Step>)
    requires Possible(chain, f, run) && f.resumed.None? && Count(run, Resubscribe) == 0
    ensures var f' := After(chain, f, run);
            && f'.resumed.None?
            && f'.head == f.head + Count(run, Mine) && f'.cursor == f.cursor + Count(run, Receive)
            && (f'.fromBlock.Some? <==> f.fromBlock.Some? || Count(run, Save) > 0)
    decreases |run|
  {
    hide Enabled, Apply;
    if run != [] {
      FirstStep(chain, f, run[0]);
      FirstPart(chain, Apply(chain, f, run[0]), run[1..]);
    }
  }

  lemma FirstStep(chain: seq<Event>, f: Feed, s: Step)
    requires f.head <= |chain| && Enabled(chain, f, s) && f.resumed.None? && s != Resubscribe
    ensures var f' := Apply(chain, f, s);
            && f'.resumed.None?
            && f'.head == f.head + (if s == Mine then 1 else 0) && f'.cursor == f.cursor + (if s == Receive then 1 else 0)
            && (f'.fromBlock.Some? <==> f.fromBlock.Some? || s == Save)
  {
  }

  /** After it the resumption stays as it is, and the session moves on with every event received. */
  lemma {:induction false} SecondPart(chain: seq<Event>, f: Feed, run: seq<Step>)
    requires Inv(chain, f) && Possible(chain, f, run) && f.resumed.Some?
    ensures var f' := After(chain, f, run);
            f'.resumed == f.resumed && f'.cursor == f.cursor + Count(run, Receive)
    decreases |run|
  {
    hide Inv, Enabled, Apply;
    if run != [] {
      StepKeeps(chain, f, run[0]);
      SecondStep(chain, f, run[0]);
      SecondPart(chain, Apply(chain, f, run[0]), run[1..]);
    }
  }

  lemma SecondStep(chain: seq<Event>, f: Feed, s: Step)
    requires Inv(chain, f) && Enabled(chain, f, s) && f.resumed.Some?
    ensures var f' := Apply(chain, f, s);
            s != Resubscribe && f'.resumed == f.resumed && f'.cursor == f.cursor + if s == Receive then 1 else 0
  {
  }

  /** The resubscription came after the save of a session that received something, or before it with nothing missed. */
  predicate InTime(head: nat, before: seq<Step>) {
    if Save in before then Receive in before || head == 0 else Count(before, Receive) == Count(before, Mine)
  }

  /**
   For every run that resubscribes, whatever comes before and after: no gap and nothing from before the
   subscription exactly when the resubscription was in time, or nothing was received after it.
   */
  lemma GaplessFromRun(chain: seq<Event>, head: nat, before: seq<Step>, after: seq<Step>)
    requires Sorted(chain) && head <= |chain| && Resubscribe !in before
    requires Possible(chain, NewFeed(head), before + ([Resubscribe] + after))
    ensures var f := After(chain, NewFeed(head), before + ([Resubscribe] + after));
            && Inv(chain, f)
            && (Gapless(chain, f) <==> InTime(head, before) || Receive !in after)
  {
    hide Gapless, Inv, Enabled, StartFor, Sorted, Count;
    var f0, rest := NewFeed(head), [Resubscribe] + after;
    RunSplits(chain, f0, before, rest);
    CountIs(before, Resubscribe);
    FirstPart(chain, f0, before);
    var m := After(chain, f0, before);
    assert rest[0] == Resubscribe && rest[1..] == after;
    SubscriptionExact(chain, head, before);
    StepKeeps(chain, m, Resubscribe);
    var n := Apply(chain, m, Resubscribe);
    SecondPart(chain, n, after);
    SubscriptionExact(chain, head, before + rest);
    CountIs(before, Save);
    CountIs(before, Receive);
    CountIs(after, Receive);
    LateStartDropsNothing(chain, n);
  }

  /** A resubscription that is not in time forwards from its very start. */
  lemma LateStartDropsNothing(chain: seq<Event>, f: Feed)
    requires Inv(chain, f) && f.resumed.Some?
    ensures !Timely(f.first, f.resumed.value) ==> Resume(f.first, f.resumed.value) == f.resumed.value.start
  {
    hide Timely;
    TimelyIs(chain, f);
  }

  // --- The two ways to go wrong ---

  lemma Unfold(chain: seq<Event>, f: Feed, s: Step, run: seq<Step>, f': Feed)
    requires f.head <= |chain| && Enabled(chain, f, s) && f' == Apply(chain, f, s) && Possible(chain, f', run)
    ensures Possible(chain, f, [s] + run) && After(chain, f, [s] + run) == After(chain, f', run)
  {
    assert ([s] + run)[1..] == run;
  }

  lemma Ended(chain: seq<Event>, f: Feed)
    ensures Possible(chain, f, []) && After(chain, f, []) == f
  {
  }

  const LOSING := [Mine, Receive, Mine, Fail, Resubscribe, Mine, Receive]

  lemma {:induction false} LosingSteps(chain: seq<Event>, head: nat)
    requires Sorted(chain) && |chain| >= head + 3
    ensures Possible(chain, NewFeed(head), LOSING)
    ensures var f := After(chain, NewFeed(head), LOSING);
            && f.out == [chain[head], chain[head + 2]] && f.cursor == head + 3
            && f.resumed == Some(Resumption(head + 1, head + 2, head + 2, None))
  {
    hide Possible, After, Forwarded, EndPosition;
    Spell();
    var f0 := NewFeed(head);
    var f1 := f0.(head := head + 1);
    var f2 := f1.(cursor := head + 1, out := [chain[head]], at := chain[head].at);
    var f3 := f2.(head := head + 2);
    var f4 := f3.(running := false, unsaved := true, worker := Handling);
    var r := Resumption(head + 1, head + 2, head + 2, None);
    var f5 := f4.(running := true, worker := Waiting, cursor := head + 2, resumed := Some(r));
    var f6 := f5.(head := head + 3);
    var f7 := f6.(cursor := head + 3, out := [chain[head], chain[head + 2]], at := chain[head + 2].at);
    ForwardOne(ORIGIN, chain[head]);
    assert Apply(chain, f1, Receive) == f2;
    ForwardOne(chain[head].at, chain[head + 2]);
    assert Apply(chain, f6, Receive) == f7;
    Ended(chain, f7);
    Unfold(chain, f6, Receive, [], f7);
    Unfold(chain, f5, Mine, [Receive], f6);
    Unfold(chain, f4, Resubscribe, [Mine, Receive], f5);
    Unfold(chain, f3, Fail, [Resubscribe, Mine, Receive], f4);
    Unfold(chain, f2, Mine, [Fail, Resubscribe, Mine, Receive], f3);
    Unfold(chain, f1, Receive, [Mine, Fail, Resubscribe, Mine, Receive], f2);
    Unfold(chain, f0, Mine, [Receive, Mine, Fail, Resubscribe, Mine, Receive], f1);
  }

  lemma Spell()
    ensures [Receive] + [] == [Receive]
    ensures [Mine] + [Receive] == [Mine, Receive]
    ensures [Resubscribe] + [Mine, Receive] == [Resubscribe, Mine, Receive]
    ensures [Fail] + [Resubscribe, Mine, Receive] == [Fail, Resubscribe, Mine, Receive]
    ensures [Mine] + [Fail, Resubscribe, Mine, Receive] == [Mine, Fail, Resubscribe, Mine, Receive]
    ensures [Receive] + [Mine, Fail, Resubscribe, Mine, Receive] == [Receive, Mine, Fail, Resubscribe, Mine, Receive]
    ensures [Mine] + [Receive, Mine, Fail, Resubscribe, Mine, Receive] == LOSING
  {
  }

  /**
   Resubscribing before the block is saved starts at the head: of three events, the one that appeared between
   the last one forwarded and the resubscription is lost.
   */
  lemma {:induction false} UnsavedResumptionLoses(chain: seq<Event>, head: nat)
    requires Sorted(chain) && |chain| >= head + 3
    ensures Possible(chain, NewFeed(head), LOSING)
    ensures var f := After(chain, NewFeed(head), LOSING);
            f.out == [chain[head], chain[head + 2]] && Inv(chain, f) && !Gapless(chain, f)
  {
    hide Possible, After, Inv, Gapless;
    LosingSteps(chain, head);
    SubscriptionExact(chain, head, LOSING);
  }

  const REPLAYING := [Fail, Save, Resubscribe, Receive]

  lemma {:induction false} ReplayingSteps(chain: seq<Event>, head: nat)
    requires Sorted(chain) && 0 < head <= |chain|
    ensures Possible(chain, NewFeed(head), REPLAYING)
    ensures var f := After(chain, NewFeed(head), REPLAYING);
            f.out == [chain[0]] && f.cursor == 1 && f.resumed == Some(Resumption(head, 0, head, Some(0)))
  {
    hide Possible, After, Forwarded, EndPosition;
    assert [Receive] + [] == [Receive] && [Resubscribe] + [Receive] == [Resubscribe, Receive];
    assert [Save] + [Resubscribe, Receive] == [Save, Resubscribe, Receive];
    assert [Fail] + [Save, Resubscribe, Receive] == REPLAYING;
    var f0 := NewFeed(head);
    var f1 := f0.(running := false, unsaved := true, worker := Handling);
    var f2 := f1.(unsaved := false, closed := true, fromBlock := Some(0));
    var f3 := f2.(running := true, worker := Waiting, cursor := 0, resumed := Some(Resumption(head, 0, head, Some(0))));
    var f4 := f3.(cursor := 1, out := [chain[0]], at := chain[0].at);
    ForwardOne(ORIGIN, chain[0]);
    assert Apply(chain, f3, Receive) == f4;
    Ended(chain, f4);
    Unfold(chain, f3, Receive, [], f4);
    Unfold(chain, f2, Resubscribe, [Receive], f3);
    Unfold(chain, f1, Save, [Resubscribe, Receive], f2);
    Unfold(chain, f0, Fail, [Save, Resubscribe, Receive], f1);
  }

  /** A session that fails before any event saves block 0: the next one replays what came before the subscription. */
  lemma {:induction false} EmptySessionReplays(chain: seq<Event>, head: nat)
    requires Sorted(chain) && 0 < head <= |chain|
    ensures Possible(chain, NewFeed(head), REPLAYING)
    ensures var f := After(chain, NewFeed(head), REPLAYING);
            f.out == [chain[0]] && Inv(chain, f) && !Gapless(chain, f)
  {
    hide Possible, After, Inv, Gapless;
    ReplayingSteps(chain, head);
    SubscriptionExact(chain, head, REPLAYING);
  }
}
