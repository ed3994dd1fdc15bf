/**
 The in-memory queue server: one worker per queue, whose handler is the message handler on a
 window.
 */
module QueueServer {
  import opened Basics
  import opened Mailbox
  import opened SlidingWindows
  import opened WindowRefinement
  import opened MessageHandlers
  import opened MasterProtocol
  import MI = MasterInvariants
  import MR = MasterRouting

  /** What a queue's worker is asked. */
  datatype Ask =
    | AskNext
    | AskInsert(offset: nat, answer: Answer)
    | AskRetrieve(offset: nat, count: nat)
    | AskDiscard(keepPrevious: bool, offset: nat, count: nat)

  function Handler(w: Window, a: Ask): (Window, Reply) {
    if !InBounds(w) then (w, Panicked)
    else match a
      case AskNext => WinNext(w)
      case AskInsert(o, x) => WinInsert(w, o, x)
      case AskRetrieve(o, n) => (w, WinRetrieve(w, o, n))
      case AskDiscard(keep, o, n) => HandleDiscard(w, keep, o, n)
  }

  /** Answering rewrites no history of the log. */
  function LogHandler(l: Log, a: Ask): (r: (Log, Reply))
    requires LogValid(l)
    ensures LogValid(r.0) && Extends(l, r.0)
  {
    match a
    case AskNext => LogNext(l)
    case AskInsert(o, x) => LogInsert(l, o, x)
    case AskRetrieve(o, n) => (l, LogRetrieve(l, o, n))
    case AskDiscard(keep, o, n) => LogHandleDiscard(l, keep, o, n)
  }

  /**
   What the answers mean: a reservation hands out the number of ids so far, or reports full; an answer that is
   stored is read back; a read returns exactly the answered, undiscarded offsets of its range; an unkept discard
   without count lets go of nothing owed and nothing at or past its offset but what is discarded.
   */
  lemma AnswersMean(l: Log, o: nat, n: nat, x: Answer)
    requires LogValid(l)
    ensures LogHandler(l, AskNext).1 == if |l.entries| - l.base == l.maxSize - 1 then Full else Reserved(|l.entries|)
    ensures var (l', r) := LogHandler(l, AskInsert(o, x));
            && (r == Stored <==> l.base <= o < |l.entries| && Open(l.entries[o]))
            && (r == Stored ==> LogHandler(l', AskRetrieve(o, 1)).1 == Found(l.base, [Element(o, x)]))
    ensures forall p: nat, a :: Element(p, a) in LogHandler(l, AskRetrieve(o, n)).1.elements <==>
              && Max(o, l.base) <= p < Max(o, l.base) + n && p < |l.entries|
              && l.entries[p].answer == Some(a) && !l.entries[p].discarded
    ensures var l' := LogHandler(l, AskDiscard(false, o, 0)).0;
            l'.entries == l.entries && (l.base <= o <= l.base + l.capacity ==>
              && Min(o, FirstOpen(l.entries, l.base)) <= l'.base <= FirstOpen(l.entries, l.base)
              && forall p | o <= p < l'.base :: l.entries[p].discarded)
  {
    hide LogHandleDiscard, Readable;
    InsertThenRead(l, o, x);
    RetrieveExact(l, o, n);
    AcknowledgeMeans(l, o);
  }

  lemma AcknowledgeMeans(l: Log, o: nat)
    requires LogValid(l)
    ensures var l' := LogHandleDiscard(l, false, o, 0).0;
            l'.entries == l.entries && (l.base <= o <= l.base + l.capacity ==>
              && Min(o, FirstOpen(l.entries, l.base)) <= l'.base <= FirstOpen(l.entries, l.base)
              && forall p | o <= p < l'.base :: l.entries[p].discarded)
  {
    SlideKeepsOwed(l, o);
    if l.base <= o <= l.base + l.capacity { SlideExact(l, o); }
  }

  /** Only discards have guards. */
  predicate Guarded(w: Window, a: Ask)
    requires InBounds(w)
  {
    a.AskDiscard? ==> RequestSafe(w, a.keepPrevious, a.offset, a.count)
  }

  lemma AskRefines(w: Window, l: Log, a: Ask)
    requires Refines(w, l) && InBounds(w) && Guarded(w, a)
    ensures LogValid(l)
    ensures Refines(Handler(w, a).0, LogHandler(l, a).0)
    ensures Handler(w, a).1 == LogHandler(l, a).1
  {
    hide Refines, WinNext, WinInsert, WinRetrieve, HandleDiscard, LogNext, LogInsert, LogRetrieve, LogHandleDiscard, RequestSafe;
    RefinesShape(w, l);
    match a
    case AskNext => NextRefines(w, l);
    case AskInsert(o, x) => InsertRefines(w, l, o, x);
    case AskRetrieve(o, n) => RetrieveRefines(w, l, o, n);
    case AskDiscard(keep, o, n) => HandleDiscardRefines(w, l, keep, o, n);
  }

  // --- Whole histories of one queue ---

  function Serve(w: Window, asks: seq<Ask>): (Window, seq<Reply>) {
    if asks == [] then (w, [])
    else
      var (w1, replies) := Serve(w, asks[..|asks| - 1]);
      var (w2, r) := Handler(w1, asks[|asks| - 1]);
      (w2, replies + [r])
  }

  predicate GuardedRun(w: Window, asks: seq<Ask>) {
    asks == [] ||
    (var w1 := Serve(w, asks[..|asks| - 1]).0;
     GuardedRun(w, asks[..|asks| - 1]) && InBounds(w1) && Guarded(w1, asks[|asks| - 1]))
  }

  function LogServe(l: Log, asks: seq<Ask>): (r: (Log, seq<Reply>))
    requires LogValid(l)
    ensures LogValid(r.0)
  {
    if asks == [] then (l, [])
    else
      var (l1, replies) := LogServe(l, asks[..|asks| - 1]);
      var (l2, r) := LogHandler(l1, asks[|asks| - 1]);
      (l2, replies + [r])
  }

  lemma {:induction false} ServeRefines(w: Window, l: Log, asks: seq<Ask>)
    requires Refines(w, l) && GuardedRun(w, asks)
    ensures LogValid(l)
    ensures Refines(Serve(w, asks).0, LogServe(l, asks).0)
    ensures Serve(w, asks).1 == LogServe(l, asks).1
  {
    hide Refines, Handler, LogHandler, Guarded, InBounds;
    RefinesShape(w, l);
    if asks != [] {
      var init, last := asks[..|asks| - 1], asks[|asks| - 1];
      ServeRefines(w, l, init);
      AskRefines(Serve(w, init).0, LogServe(l, init).0, last);
    }
  }

  /** A worker whose requests all come from its own channel answers as the window does, one after the other. */
  lemma {:induction false} SequentialIsServe(w: Window, jobs: seq<Job<Ask>>)
    requires forall i | 0 <= i < |jobs| :: jobs[i].own
    ensures MI.Sequential(Handler, w, jobs) == Serve(w, MI.Own(jobs))
  {
    hide Handler;
    if jobs != [] {
      var init, last := jobs[..|jobs| - 1], jobs[|jobs| - 1];
      SequentialIsServe(w, init);
      assert MI.Own(jobs) == MI.Own(init) + [last.value];
      assert (MI.Own(init) + [last.value])[..|MI.Own(init)|] == MI.Own(init);
    }
  }

  // --- A refused discard, on the window every queue has ---

  lemma AskedOnce(w0: Window, asks: seq<Ask>, l: Log, a: Ask)
    requires Refines(Serve(w0, asks).0, l) && InBounds(Serve(w0, asks).0) && Guarded(Serve(w0, asks).0, a)
    ensures LogValid(l)
    ensures Refines(Serve(w0, asks + [a]).0, LogHandler(l, a).0)
    ensures Serve(w0, asks + [a]).1 == Serve(w0, asks).1 + [LogHandler(l, a).1]
  {
    hide Refines, Handler, LogHandler, Guarded, InBounds;
    assert (asks + [a])[..|asks|] == asks && (asks + [a])[|asks|] == a;
    AskRefines(Serve(w0, asks).0, l, a);
  }

  const BOTH_OWED := Log([FRESH, FRESH], 0, 16, 1024)

  function FirstAnswered(a: Answer): Log {
    Log([Entry(Some(a), false), FRESH], 0, 16, 1024)
  }

  function SecondDiscarded(a: Answer): Log {
    Log([Entry(Some(a), false), Entry(None, true)], 0, 16, 1024)
  }

  lemma RefusalOnLog(a: Answer)
    ensures LogHandler(Log([], 0, 16, 1024), AskNext) == (Log([FRESH], 0, 16, 1024), Reserved(0))
    ensures LogHandler(Log([FRESH], 0, 16, 1024), AskNext) == (BOTH_OWED, Reserved(1))
    ensures LogHandler(BOTH_OWED, AskInsert(0, a)) == (FirstAnswered(a), Stored)
    ensures LogHandler(FirstAnswered(a), AskDiscard(true, 1, 1)) == (SecondDiscarded(a), Marked(1))
    ensures LogHandler(SecondDiscarded(a), AskDiscard(false, 1, 1)).1 == OutOfWindow
  {
    assert [] + [FRESH] == [FRESH] && [FRESH] + [FRESH] == [FRESH, FRESH];
    assert [FRESH, FRESH][0 := Entry(Some(a), false)] == FirstAnswered(a).entries;
    assert MarkEntries(FirstAnswered(a).entries, 1, 2) == SecondDiscarded(a).entries;
    var l := SecondDiscarded(a);
    FirstOpenIs(l.entries, 0, 2);
    assert PastDiscarded(l.entries, 2, 2) == 2 == PastDiscarded(l.entries, 1, 2);
    assert LogSlide(l, 1).0.base == 2;
  }

  /** Marking offset 1 spares the cursor, which stands right there. */
  lemma MarkingGuarded(w: Window, a: Answer)
    requires Refines(w, FirstAnswered(a))
    ensures InBounds(w) && Guarded(w, AskDiscard(true, 1, 1))
  {
    CursorIsFirstOpen(w, FirstAnswered(a));
    FirstOpenIs(FirstAnswered(a).entries, 0, 1);
  }

  /** Two of sixteen slots in use: a slide vacates only clean ones. */
  lemma SlidingGuarded(w: Window, a: Answer)
    requires Refines(w, SecondDiscarded(a))
    ensures InBounds(w) && Guarded(w, AskDiscard(false, 1, 1))
  {
    hide LogSlide;
    var l := SecondDiscarded(a);
    assert SlideSafe(w, 1) by {
      forall i | 2 <= i < 16 ensures !w.slots[i].discarded { assert Clean(w.slots[i]); }
    }
    SlideRefines(w, l, 1);
    SlideToTwo(a);
  }

  lemma SlideToTwo(a: Answer)
    ensures LogSlide(SecondDiscarded(a), 1).0.base == 2
  {
    var l := SecondDiscarded(a);
    FirstOpenIs(l.entries, 0, 2);
    assert PastDiscarded(l.entries, 2, 2) == 2 == PastDiscarded(l.entries, 1, 2);
  }

  /** Discarding offset 1 a second time, without keeping what lies before, is refused: the slide passes it first. */
  lemma SecondDiscardRefused(a: Answer)
    ensures Serve(NewWindow(0, 1024),
                  [AskNext] + [AskNext] + [AskInsert(0, a)] + [AskDiscard(true, 1, 1)] + [AskDiscard(false, 1, 1)]).1
         == [Reserved(0)] + [Reserved(1)] + [Stored] + [Marked(1)] + [OutOfWindow]
  {
    hide Refines, LogHandler, Serve, NewWindow, Handler, RequestSafe;
    var w := NewWindow(0, 1024);
    NewRefinesSixteen();
    RefusalOnLog(a);
    NothingAsked(w);
    RefinesShape(w, Log([], 0, 16, 1024));
    AskedOnce(w, [], Log([], 0, 16, 1024), AskNext);
    var one := [AskNext];
    assert [] + [AskNext] == one;
    RefinesShape(Serve(w, one).0, Log([FRESH], 0, 16, 1024));
    AskedOnce(w, one, Log([FRESH], 0, 16, 1024), AskNext);
    var two := one + [AskNext];
    RefinesShape(Serve(w, two).0, BOTH_OWED);
    AskedOnce(w, two, BOTH_OWED, AskInsert(0, a));
    var three := two + [AskInsert(0, a)];
    MarkingGuarded(Serve(w, three).0, a);
    AskedOnce(w, three, FirstAnswered(a), AskDiscard(true, 1, 1));
    var four := three + [AskDiscard(true, 1, 1)];
    SlidingGuarded(Serve(w, four).0, a);
    AskedOnce(w, four, SecondDiscarded(a), AskDiscard(false, 1, 1));
  }

  lemma NewRefinesSixteen()
    ensures Refines(NewWindow(0, 1024), Log([], 0, 16, 1024))
  {
    hide Refines, NewWindow;
    SixteenSlots();
    NewRefines(0, 1024);
  }

  lemma NothingAsked(w: Window)
    ensures Serve(w, []) == (w, [])
  {
  }

  // --- Requests that need no guard ---

  predicate QuietAsk(a: Ask) {
    a.AskDiscard? ==> !a.keepPrevious && a.count == 0
  }

  lemma QuietAskSafe(w: Window, a: Ask)
    requires Valid(w) && Unmarked(w) && QuietAsk(a)
    ensures InBounds(w) && Guarded(w, a) && Valid(Handler(w, a).0) && Unmarked(Handler(w, a).0)
  {
    hide Valid, Unmarked, WinNext, WinInsert, WinRetrieve, WinSlide, SlideSafe;
    ValidShape(w);
    var op := match a case AskNext => Next case AskInsert(o, x) => Insert(o, x)
                      case AskRetrieve(o, n) => Retrieve(o, n) case AskDiscard(_, o, _) => Slide(o);
    QuietStepSafe(w, op);
    StepValidIff(w, op);
  }

  /** Requests that discard only by sliding, as those for sessions and subscription events do, need no guard. */
  lemma {:induction false} QuietRunGuarded(w: Window, asks: seq<Ask>)
    requires Valid(w) && Unmarked(w) && forall i | 0 <= i < |asks| :: QuietAsk(asks[i])
    ensures GuardedRun(w, asks) && Valid(Serve(w, asks).0) && Unmarked(Serve(w, asks).0)
  {
    hide Valid, Unmarked, Handler, Guarded, InBounds;
    if asks != [] {
      QuietRunGuarded(w, asks[..|asks| - 1]);
      QuietAskSafe(Serve(w, asks[..|asks| - 1]).0, asks[|asks| - 1]);
    }
  }

  // --- Under the master ---

  /** The worker at position i after a run of the server. */
  ghost function Queue(run: seq<Event<Window, Ask>>, i: nat): Worker<Window, Ask, Reply>
    requires MI.Possible(Handler, NewMaster<Window, Ask, Reply>(), run, true)
    requires i < |MI.After(Handler, NewMaster<Window, Ask, Reply>(), run, true).pool|
  {
    MI.After(Handler, NewMaster<Window, Ask, Reply>(), run, true).pool[i]
  }

  /** The server never asks for whichever worker comes first. */
  predicate Keyed(run: seq<Event<Window, Ask>>) {
    forall j | 0 <= j < |run| :: !run[j].Execute?
  }

  lemma {:induction false} NothingExecuted(active: set<Key>, run: seq<Event<Window, Ask>>, create: bool)
    requires Keyed(run)
    ensures MR.Executed(active, run, create) == []
    decreases |run|
  {
    if run != [] { NothingExecuted(MR.Roster(active, run[0], create), run[1..], create); }
  }

  lemma {:induction false} AllOwn(jobs: seq<Job<Ask>>)
    requires MR.Foreign(jobs) == []
    ensures forall j | 0 <= j < |jobs| :: jobs[j].own
  {
    if jobs != [] { AllOwn(jobs[..|jobs| - 1]); }
  }

  /** So a queue handles only what came on its own channel. */
  lemma KeyedIsOwn(run: seq<Event<Window, Ask>>, i: nat)
    requires MI.Possible(Handler, NewMaster<Window, Ask, Reply>(), run, true) && Keyed(run)
    requires i < |MI.After(Handler, NewMaster<Window, Ask, Reply>(), run, true).pool|
    ensures forall j | 0 <= j < |Queue(run, i).handled| :: Queue(run, i).handled[j].own
  {
    hide Handler, MI.After, MI.Possible;
    var m := MI.After(Handler, NewMaster<Window, Ask, Reply>(), run, true);
    MR.MasterRoutes(Handler, run, true);
    NothingExecuted({}, run, true);
    var log :| MR.Values(log) + m.shared == [] && forall j: nat :: MR.ForeignOf(m, j) == MR.TakenBy(log, j);
    assert |MR.Values(log)| + |m.shared| == 0;
    assert MR.ForeignOf(m, i) == [];
    AllOwn(m.pool[i].handled);
  }

  /** Every event that may create a queue carries the same new window, as every queue's handler makes its own. */
  predicate FreshQueues(run: seq<Event<Window, Ask>>, w: Window) {
    forall j | 0 <= j < |run| && (run[j].Create? || run[j].Request?) :: run[j].initial == w
  }

  lemma {:induction false} BirthsAreFresh(active: set<Key>, run: seq<Event<Window, Ask>>, create: bool, k: Key, w: Window)
    requires FreshQueues(run, w)
    ensures forall x | x in MR.Births(active, run, create, k) :: x == w
    decreases |run|
  {
    if run != [] {
      var e := run[0];
      BirthsAreFresh(MR.Roster(active, e, create), run[1..], create, k, w);
    }
  }

  /** So every queue starts from it, whatever happened before it was created. */
  lemma QueueStartsFresh(run: seq<Event<Window, Ask>>, i: nat, w: Window)
    requires MI.Possible(Handler, NewMaster<Window, Ask, Reply>(), run, true) && FreshQueues(run, w)
    requires i < |MI.After(Handler, NewMaster<Window, Ask, Reply>(), run, true).pool|
    ensures Queue(run, i).initial == w
  {
    hide Handler, MI.After, MI.Possible, MR.Births, MR.InitialsOf;
    var m := MI.After(Handler, NewMaster<Window, Ask, Reply>(), run, true);
    var k := m.pool[i].key;
    MR.MasterRoutes(Handler, run, true);
    assert MR.InitialsOf(m.pool, k, |m.pool|) == MR.Births({}, run, true, k);
    MR.InitialIsOne(m.pool, i, |m.pool|);
    BirthsAreFresh({}, run, true, k, w);
  }

  lemma QueueServes(run: seq<Event<Window, Ask>>, i: nat)
    requires MI.Possible(Handler, NewMaster<Window, Ask, Reply>(), run, true) && Keyed(run)
    requires i < |MI.After(Handler, NewMaster<Window, Ask, Reply>(), run, true).pool|
    ensures var q := Queue(run, i);
            && MI.Own(q.handled) <= q.accepted
            && (q.state, q.replies) == Serve(q.initial, MI.Own(q.handled))
  {
    hide Handler, MI.After, MI.Possible;
    var m := MI.After(Handler, NewMaster<Window, Ask, Reply>(), run, true);
    MI.NewInv<Window, Ask, Reply>(Handler);
    MI.RunKeeps(Handler, NewMaster<Window, Ask, Reply>(), run, true);
    var q := Queue(run, i);
    assert MI.Linear(Handler, m.pool[i]) && q == m.pool[i];
    KeyedIsOwn(run, i);
    SequentialIsServe(q.initial, q.handled);
  }

  /**
   Under every schedule of the master and its workers, the replies a queue's clients receive are
   those of the unbounded log, asked in the order the master accepted the requests.
   */
  lemma QueueIsALog(run: seq<Event<Window, Ask>>, i: nat, size: nat, max: nat)
    requires MI.Possible(Handler, NewMaster<Window, Ask, Reply>(), run, true) && Keyed(run)
    requires i < |MI.After(Handler, NewMaster<Window, Ask, Reply>(), run, true).pool|
    requires FreshQueues(run, NewWindow(size, max))
    requires GuardedRun(NewWindow(size, max), MI.Own(Queue(run, i).handled))
    ensures var q, w := Queue(run, i), NewWindow(size, max);
            var l := Log([], 0, |w.slots|, w.maxSize);
            && LogValid(l) && MI.Own(q.handled) <= q.accepted
            && q.replies == LogServe(l, MI.Own(q.handled)).1
            && Refines(q.state, LogServe(l, MI.Own(q.handled)).0)
  {
    hide GuardedRun, Refines, Serve, LogServe, Queue, MI.After, MI.Possible;
    var w := NewWindow(size, max);
    QueueStartsFresh(run, i, w);
    QueueServes(run, i);
    NewRefines(size, max);
    ServeRefines(w, Log([], 0, |w.slots|, w.maxSize), MI.Own(Queue(run, i).handled));
  }

  /** And for a queue that is only ever slid, with no guard at all. */
  lemma QuietQueueIsALog(run: seq<Event<Window, Ask>>, i: nat, size: nat, max: nat)
    requires MI.Possible(Handler, NewMaster<Window, Ask, Reply>(), run, true) && Keyed(run)
    requires i < |MI.After(Handler, NewMaster<Window, Ask, Reply>(), run, true).pool|
    requires FreshQueues(run, NewWindow(size, max))
    requires forall j | 0 <= j < |MI.Own(Queue(run, i).handled)| :: QuietAsk(MI.Own(Queue(run, i).handled)[j])
    ensures var q, w := Queue(run, i), NewWindow(size, max);
            var l := Log([], 0, |w.slots|, w.maxSize);
            LogValid(l) && q.replies == LogServe(l, MI.Own(q.handled)).1
  {
    hide GuardedRun, LogServe, Queue, MI.After, MI.Possible;
    NewRefines(size, max);
    QuietRunGuarded(NewWindow(size, max), MI.Own(Queue(run, i).handled));
    QueueIsALog(run, i, size, max);
  }
}
