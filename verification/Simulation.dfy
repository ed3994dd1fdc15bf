/**
 The Redis list and the in-memory window as one queue: run side by side they hand out the same
 offsets, accept the same answers, move their bases alike and return the same elements, for as
 long as clients acknowledge no further than the first answer still owed and the window is not
 full. The offset a read reports beside its elements is where they differ, and when is exact.
 */
module Simulation {
  import opened Basics
  import opened Mailbox
  import opened SlidingWindows
  import opened WindowRefinement
  import opened RedisLists
  import opened RedisFacts
  import WF = WindowFaults

  predicate Matches(i: Item, e: Entry) {
    && i.discarded == e.discarded
    && e.answer == if i.filled then Some(i.answer) else None
  }

  /** The list holds the part of the log at and above the base. */
  predicate Mirrors(r: seq<Item>, l: Log) {
    && LogValid(l) && Contiguous(r)
    && Base(r) == l.base && NextOffset(r) == |l.entries|
    && forall i | 0 <= i < |r| :: Matches(r[i], l.entries[l.base + i])
  }

  /** The same, with nothing held marked as discarded. */
  predicate ListRefines(r: seq<Item>, l: Log) {
    Mirrors(r, l) && Undiscarded(r)
  }

  /** What the two queues are asked together; a retrieve of `count` by Redis is one of count + 1 by the window. */
  datatype Call =
    | Reserve
    | Fulfil(offset: nat, answer: Answer)
    | Read(offset: nat, count: nat)
    | Acknowledge(offset: nat)

  function WindowOp(c: Call): Op {
    match c
    case Reserve => Next
    case Fulfil(o, a) => Insert(o, a)
    case Read(o, n) => Retrieve(o, n + 1)
    case Acknowledge(o) => Slide(o)
  }

  /** What the client library makes of the elements Redis returns: it drops those not set. */
  function Decode(r: seq<Item>): seq<Element> {
    if r == [] then []
    else
      var rest := Decode(r[..|r| - 1]);
      var last := r[|r| - 1];
      if last.filled then rest + [Element(last.offset, last.answer)] else rest
  }

  /** The offset the client library reports: that of the first element Redis returns, set or not, or 0. */
  function FirstOffset(r: seq<Item>): nat {
    if r == [] then 0 else r[0].offset
  }

  /** Redis answers a discard with no more than success; the reply here records how far the base moved. */
  function ListStep(r: seq<Item>, c: Call): (seq<Item>, Reply) {
    match c
    case Reserve => (MqNext(r), Reserved(NextOffset(r)))
    case Fulfil(o, a) =>
      var r' := MqInsert(r, o, a);
      if r'.Some? then (r'.value, Stored) else (r, Panicked)
    case Read(o, n) =>
      var items := MqRetrieve(r, o, n);
      (r, Found(FirstOffset(items), Decode(items)))
    case Acknowledge(o) => (MqDiscard(r, o, 0, false), Moved(Max(Base(MqDiscard(r, o, 0, false)) - Base(r), 0)))
  }

  /** Where the reads of the list and of the window end: they differ only for an offset below the base. */
  function ListReadEnd(l: Log, offset: nat, count: nat): nat {
    Min(Max(offset + count, l.base) + 1, |l.entries|)
  }

  function WindowReadEnd(l: Log, offset: nat, count: nat): nat {
    Min(Max(offset, l.base) + count + 1, |l.entries|)
  }

  /** The calls on which the two queues agree, decided from the log alone. */
  predicate Allowed(l: Log, c: Call)
    requires LogValid(l)
  {
    match c
    case Reserve => |l.entries| - l.base < l.maxSize - 1
    case Fulfil(o, _) => l.base <= o < |l.entries| && Open(l.entries[o])
    case Read(o, n) => forall p | ListReadEnd(l, o, n) <= p < WindowReadEnd(l, o, n) :: l.entries[p].answer.None?
    case Acknowledge(o) => o <= FirstOpen(l.entries, l.base) && o < |l.entries|
  }

  /** The reply without the offset that a read reports. */
  function Blind(reply: Reply): Reply {
    if reply.Found? then reply.(base := 0) else reply
  }

  /** Whether the offsets reported by a read agree, decided from the offset, the base and the next offset. */
  predicate SameOffset(l: Log, c: Call) {
    c.Read? ==> if c.offset < |l.entries| then c.offset <= l.base else l.base == 0
  }

  /** The answers of a stretch of the log, discarded or not. */
  function Answered(es: seq<Entry>, lo: nat, hi: nat): seq<Element>
    requires lo <= hi <= |es|
    decreases hi
  {
    if lo == hi then []
    else
      var rest := Answered(es, lo, hi - 1);
      if es[hi - 1].answer.Some? then rest + [Element(hi - 1, es[hi - 1].answer.value)] else rest
  }

  lemma {:induction false} DecodeIsAnswered(r: seq<Item>, l: Log, i: nat, j: nat)
    requires Mirrors(r, l) && i <= j <= |r|
    ensures l.base + j <= |l.entries|
    ensures Decode(r[i..j]) == Answered(l.entries, l.base + i, l.base + j)
    decreases j
  {
    if i < j {
      DecodeIsAnswered(r, l, i, j - 1);
      assert r[i..j][..j - i - 1] == r[i..j - 1];
      assert Matches(r[j - 1], l.entries[l.base + (j - 1)]);
    }
  }

  /** Dropping the discarded answers of a stretch leaves it whole exactly when it has none. */
  lemma {:induction false} AnsweredIsReadableIff(es: seq<Entry>, lo: nat, hi: nat)
    requires lo <= hi <= |es|
    ensures |Readable(es, lo, hi)| <= |Answered(es, lo, hi)|
    ensures Answered(es, lo, hi) == Readable(es, lo, hi)
       <==> forall p | lo <= p < hi :: es[p].answer.Some? ==> !es[p].discarded
    ensures (exists p | lo <= p < hi :: es[p].answer.Some? && es[p].discarded) ==> |Readable(es, lo, hi)| < |Answered(es, lo, hi)|
    decreases hi
  {
    if lo < hi { AnsweredIsReadableIff(es, lo, hi - 1); }
  }

  /** Reading further adds nothing exactly when nothing readable lies there. */
  lemma {:induction false} ReadableFurther(es: seq<Entry>, lo: nat, mid: nat, hi: nat)
    requires lo <= mid <= hi <= |es|
    ensures |Readable(es, lo, mid)| <= |Readable(es, lo, hi)|
    ensures Readable(es, lo, mid) == Readable(es, lo, hi)
       <==> forall p | mid <= p < hi :: es[p].answer.Some? ==> es[p].discarded
    ensures |Readable(es, lo, mid)| == |Readable(es, lo, hi)| ==> Readable(es, lo, mid) == Readable(es, lo, hi)
    decreases hi
  {
    if mid < hi { ReadableFurther(es, lo, mid, hi - 1); }
  }

  /** What the client makes of a read: the answers of the stretch, and the offset it reports. */
  lemma ReadIs(r: seq<Item>, l: Log, offset: nat, count: nat)
    requires Mirrors(r, l)
    ensures var lo, hi := Min(Max(offset, l.base), |l.entries|), ListReadEnd(l, offset, count);
            && lo <= hi
            && ListStep(r, Read(offset, count)).1 == Found(if lo < |l.entries| then lo else 0, Answered(l.entries, lo, hi))
  {
    hide MqRetrieve;
    RetrieveIsSlice(r, offset, count);
    var a := Min(Max(offset, Base(r)) - Base(r), |r|);
    var b := Max(a, Min(Max(offset + count, Base(r)) - Base(r) + 1, |r|));
    DecodeIsAnswered(r, l, a, b);
    if a < |r| { assert r[a..b][0] == r[a]; }
  }

  /**
   Redis returns up to count + 1 elements, both ends of its range being inclusive; the list's elements
   are the window's exactly when the call is allowed. The reported offsets agree exactly when the read
   starts at or below the base, or finds nothing while the base is still 0.
   */
  lemma ReadAgreesIff(r: seq<Item>, l: Log, offset: nat, count: nat)
    requires ListRefines(r, l)
    ensures var c := Read(offset, count);
            var here, there := ListStep(r, c).1, LogRetrieve(l, offset, count + 1);
            && (here.elements == there.elements <==> Allowed(l, c))
            && (here.base == there.base <==> SameOffset(l, c))
  {
    hide ListStep, Readable, Answered;
    ReadIs(r, l, offset, count);
    ListUndiscarded(r, l);
    var lo := Min(Max(offset, l.base), |l.entries|);
    var mid, hi := ListReadEnd(l, offset, count), WindowReadEnd(l, offset, count);
    AnsweredIsReadableIff(l.entries, lo, mid);
    ReadableFurther(l.entries, lo, mid, hi);
  }

  /** The client drops only what is not set: a read leaves out what is discarded exactly when none of it was answered. */
  lemma DiscardedIsReturnedIff(r: seq<Item>, l: Log, offset: nat, count: nat)
    requires Mirrors(r, l)
    ensures var lo, hi := Min(Max(offset, l.base), |l.entries|), ListReadEnd(l, offset, count);
            && lo <= hi
            && (ListStep(r, Read(offset, count)).1.elements == Readable(l.entries, lo, hi)
                <==> forall p | lo <= p < hi :: l.entries[p].answer.Some? ==> !l.entries[p].discarded)
  {
    hide ListStep, Readable, Answered;
    ReadIs(r, l, offset, count);
    AnsweredIsReadableIff(l.entries, Min(Max(offset, l.base), |l.entries|), ListReadEnd(l, offset, count));
  }

  /** The list takes an answer for any offset it holds: it agrees with the window exactly when none held is overwritten. */
  lemma OverwriteIff(r: seq<Item>, l: Log, o: nat, a: Answer)
    requires Mirrors(r, l)
    ensures (MqInsert(r, o, a).Some? <==> LogInsert(l, o, a).1.Stored?)
       <==> (l.base <= o < |l.entries| ==> Open(l.entries[o]))
  {
  }

  /** A run that discards offset 1 after it was answered: the client still returns it. */
  lemma DiscardedIsReturned(a: Answer, b: Answer)
    ensures var l := PerformAll([], Answering(a, b) + [RDiscard(1, 1, true)]);
            l == [Set(0, a), Set(1, b).(discarded := true)] && Decode(MqRetrieve(l, 0, 1)) == [Element(0, a), Element(1, b)]
  {
    hide PerformAll;
    TwoAnswers(a, b);
    PerformSnoc([], Answering(a, b), RDiscard(1, 1, true));
    var l := [Set(0, a), Set(1, b).(discarded := true)];
    assert MarkItems([Set(0, a), Set(1, b)], 1, 2) == l;
    assert MqRetrieve(l, 0, 1) == l;
    assert l[..1] == [Set(0, a)] && [Set(0, a)][..0] == [];
    assert Decode([Set(0, a)]) == [Element(0, a)];
  }

  /** Answering twice: the list keeps the second answer, the window refuses it. */
  lemma SecondAnswerOverwrites(a: Answer, b: Answer)
    ensures PerformAll([], [RNext] + [RInsert(0, a)] + [RInsert(0, b)]) == [Set(0, b)]
    ensures Replay(NewWindow(0, 1024), [Next] + [Insert(0, a)] + [Insert(0, b)]) == [Reserved(0)] + [Stored] + [AlreadySet]
  {
    TwoReservations();
    PerformSnoc([], [RNext], RInsert(0, a));
    PerformSnoc([], [RNext] + [RInsert(0, a)], RInsert(0, b));
    WindowRefusesSecond(a, b);
  }

  lemma WindowRefusesSecond(a: Answer, b: Answer)
    ensures Replay(NewWindow(0, 1024), [Next] + [Insert(0, a)] + [Insert(0, b)]) == [Reserved(0)] + [Stored] + [AlreadySet]
  {
    hide WinStep, WF.Goes, NewWindow, Replay;
    WF.NewIsEmpty(0, 1024);
    var w := NewWindow(0, 1024);
    SixteenSlots();
    var max, e := w.maxSize, w.slots;
    WF.ReserveFirst(w, e);
    WF.AnswerFirst(max, e, a);
    WF.GoesOne(w, Next);
    WF.Then(w, [Next], [Reserved(0)], Window(max, 1, 0, 0, e[0 := WF.Held(0)]), Insert(0, a));
    var w2 := Window(max, 1, 1, 0, e[0 := WF.Done(0, a)]);
    RefusesSecond(w2, b);
    WF.Then(w, [Next] + [Insert(0, a)], [Reserved(0)] + [Stored], w2, Insert(0, b));
    WF.GoesReplay(w, [Next] + [Insert(0, a)] + [Insert(0, b)], [Reserved(0)] + [Stored] + [AlreadySet],
                  WinStep(w2, Insert(0, b)).0);
  }

  lemma RefusesSecond(w: Window, b: Answer)
    requires InBounds(w) && w.base == 0 && w.slots[0].reserved && w.slots[0].filled
    ensures WinStep(w, Insert(0, b)).1 == AlreadySet
  {
  }

  lemma ReserveAgrees(r: seq<Item>, l: Log)
    requires ListRefines(r, l) && Allowed(l, Reserve)
    ensures ListRefines(MqNext(r), LogNext(l).0)
    ensures LogNext(l).1 == Reserved(NextOffset(r))
  {
    var r', l' := MqNext(r), LogNext(l).0;
    forall i | 0 <= i < |r'| ensures Matches(r'[i], l'.entries[l'.base + i]) {
      if i < |r| { assert Matches(r[i], l.entries[l.base + i]); }
    }
  }

  lemma AnswerAgrees(r: seq<Item>, l: Log, o: nat, a: Answer)
    requires ListRefines(r, l) && Allowed(l, Fulfil(o, a))
    ensures MqInsert(r, o, a).Some? && LogInsert(l, o, a).1 == Stored
    ensures ListRefines(MqInsert(r, o, a).value, LogInsert(l, o, a).0)
  {
    var r', l' := MqInsert(r, o, a).value, LogInsert(l, o, a).0;
    forall i | 0 <= i < |r'| ensures Matches(r'[i], l'.entries[l'.base + i]) {
      assert Matches(r[i], l.entries[l.base + i]);
    }
    forall i | 0 <= i < |r'| ensures r'[i].offset == r'[0].offset + i {
      assert r[i].offset == r[0].offset + i;
    }
  }

  lemma ListUndiscarded(r: seq<Item>, l: Log)
    requires ListRefines(r, l)
    ensures forall o | l.base <= o < |l.entries| :: !l.entries[o].discarded
  {
    forall o | l.base <= o < |l.entries| ensures !l.entries[o].discarded {
      assert Matches(r[o - l.base], l.entries[l.base + (o - l.base)]);
    }
  }

  lemma CutMatches(r: seq<Item>, c: seq<Item>, l: Log, k: nat)
    requires Mirrors(r, l) && k < |r| && c == r[k..]
    ensures l.base + k + |c| <= |l.entries|
    ensures forall i | 0 <= i < |c| :: Matches(c[i], l.entries[l.base + k + i])
  {
    forall i | 0 <= i < |c| ensures Matches(c[i], l.entries[l.base + k + i]) {
      assert c[i] == r[k + i] && Matches(r[k + i], l.entries[l.base + (k + i)]);
    }
  }

  lemma CutRefines(r: seq<Item>, l: Log, k: nat)
    requires ListRefines(r, l) && k < |r| && LogValid(l.(base := l.base + k))
    ensures ListRefines(r[k..], l.(base := l.base + k))
  {
    hide Contiguous, Matches;
    CutFront(r, k);
    CutMatches(r, r[k..], l, k);
  }

  /** With nothing discarded, the log slides exactly to the offset or the first answer owed. */
  lemma CleanSlideTarget(l: Log, o: nat)
    requires LogValid(l) && l.base <= o
    requires forall p | l.base <= p < |l.entries| :: !l.entries[p].discarded
    ensures SlideTarget(l, o) == Min(o, FirstOpen(l.entries, l.base))
  {
  }

  lemma AcknowledgeAgrees(r: seq<Item>, l: Log, o: nat)
    requires ListRefines(r, l) && Allowed(l, Acknowledge(o))
    ensures ListRefines(MqDiscard(r, o, 0, false), LogSlide(l, o).0)
    ensures LogSlide(l, o).1 == Moved(Base(MqDiscard(r, o, 0, false)) - Base(r))
  {
    hide MqDiscard, SlideTarget;
    ListUndiscarded(r, l);
    DropCleanFacts(r, o);
    SlideKeepsOwed(l, o);
    if l.base <= o {
      CleanSlideTarget(l, o);
      CutRefines(r, l, o - l.base);
    } else {
      assert r[0..] == r;
    }
  }

  lemma StepAgrees(r: seq<Item>, l: Log, c: Call)
    requires ListRefines(r, l) && Allowed(l, c)
    ensures ListRefines(ListStep(r, c).0, LogStep(l, WindowOp(c)).0)
    ensures Blind(ListStep(r, c).1) == Blind(LogStep(l, WindowOp(c)).1)
    ensures ListStep(r, c).1 == LogStep(l, WindowOp(c)).1 <==> SameOffset(l, c)
  {
    hide ListRefines, MqDiscard, MqInsert, MqNext, MqRetrieve, LogSlide, LogInsert, LogNext, Readable, Decode, Allowed;
    match c
    case Reserve => ReserveAgrees(r, l);
    case Fulfil(o, a) => AnswerAgrees(r, l, o, a);
    case Read(o, n) => ReadAgreesIff(r, l, o, n);
    case Acknowledge(o) => AcknowledgeAgrees(r, l, o);
  }

  // --- Whole runs ---

  function ListReplay(r: seq<Item>, calls: seq<Call>): seq<Reply>
    decreases |calls|
  {
    if calls == [] then []
    else
      var (r', reply) := ListStep(r, calls[0]);
      [reply] + ListReplay(r', calls[1..])
  }

  function WindowOps(calls: seq<Call>): (ops: seq<Op>)
    ensures |ops| == |calls|
  {
    if calls == [] then [] else [WindowOp(calls[0])] + WindowOps(calls[1..])
  }

  predicate AllowedRun(l: Log, calls: seq<Call>)
    decreases |calls|
  {
    calls == [] || (LogValid(l) && Allowed(l, calls[0]) && AllowedRun(LogStep(l, WindowOp(calls[0])).0, calls[1..]))
  }

  lemma SlideIsSafe(w: Window, r: seq<Item>, l: Log, o: nat)
    requires Refines(w, l) && ListRefines(r, l)
    ensures SlideSafe(w, o)
  {
    ListUndiscarded(r, l);
    forall i | 0 <= i < |w.slots| ensures !w.slots[i].discarded {
      if i < w.nextUnreserved {
        assert Abs(w.slots[i]) == l.entries[w.base + i];
      } else {
        assert Clean(w.slots[i]);
      }
    }
  }

  lemma CallIsSafe(w: Window, r: seq<Item>, l: Log, c: Call)
    requires Refines(w, l) && ListRefines(r, l)
    ensures InBounds(w) && StepSafe(w, WindowOp(c))
  {
    hide SlideSafe, ListRefines;
    if c.Acknowledge? { SlideIsSafe(w, r, l, c.offset); }
  }

  function BlindAll(replies: seq<Reply>): (r: seq<Reply>)
    ensures |r| == |replies|
  {
    if replies == [] then [] else [Blind(replies[0])] + BlindAll(replies[1..])
  }

  /** Every read of the run reports the same offset from both queues. */
  predicate SameOffsets(l: Log, calls: seq<Call>)
    requires AllowedRun(l, calls)
    decreases |calls|
  {
    calls == [] || (SameOffset(l, calls[0]) && SameOffsets(LogStep(l, WindowOp(calls[0])).0, calls[1..]))
  }

  /** The first call of a run, answered by both queues. */
  lemma FirstCall(w: Window, r: seq<Item>, l: Log, calls: seq<Call>) returns (w': Window)
    requires Refines(w, l) && ListRefines(r, l) && calls != [] && Allowed(l, calls[0])
    ensures var c := calls[0];
            var l' := LogStep(l, WindowOp(c)).0;
            && Refines(w', l') && ListRefines(ListStep(r, c).0, l')
            && Replay(w, WindowOps(calls)) == [LogStep(l, WindowOp(c)).1] + Replay(w', WindowOps(calls[1..]))
            && ListReplay(r, calls) == [ListStep(r, c).1] + ListReplay(ListStep(r, c).0, calls[1..])
  {
    hide Refines, ListRefines, StepSafe, InBounds, ListStep, WinStep, LogStep, Allowed;
    var op := WindowOp(calls[0]);
    CallIsSafe(w, r, l, calls[0]);
    StepRefines(w, l, op);
    StepAgrees(r, l, calls[0]);
    assert WindowOps(calls)[1..] == WindowOps(calls[1..]);
    w' := WinStep(w, op).0;
  }

  /**
   To every allowed run of calls both queues give the same replies but for the offsets that reads report,
   and these agree as well exactly when every read of the run meets SameOffset.
   */
  lemma {:induction false} RunsAgree(w: Window, r: seq<Item>, l: Log, calls: seq<Call>)
    requires Refines(w, l) && ListRefines(r, l) && AllowedRun(l, calls)
    ensures BlindAll(Replay(w, WindowOps(calls))) == BlindAll(ListReplay(r, calls))
    ensures Replay(w, WindowOps(calls)) == ListReplay(r, calls) <==> SameOffsets(l, calls)
    decreases |calls|
  {
    hide Refines, ListRefines, ListStep, LogStep, Blind, SameOffset, Allowed;
    if calls != [] {
      var c := calls[0];
      var w' := FirstCall(w, r, l, calls);
      StepAgrees(r, l, c);
      RunsAgree(w', ListStep(r, c).0, LogStep(l, WindowOp(c)).0, calls[1..]);
      Split(ListStep(r, c).1, ListReplay(ListStep(r, c).0, calls[1..]));
      Split(LogStep(l, WindowOp(c)).1, Replay(w', WindowOps(calls[1..])));
    }
  }

  lemma Split(reply: Reply, replies: seq<Reply>)
    ensures BlindAll([reply] + replies) == [Blind(reply)] + BlindAll(replies)
    ensures ([reply] + replies)[0] == reply && ([reply] + replies)[1..] == replies
  {
  }

  /** From empty, allowed calls find the window of any size and the Redis list apart only in the offsets reads report. */
  lemma QueuesAgree(initialSize: nat, maxSize: nat, calls: seq<Call>)
    requires var w := NewWindow(initialSize, maxSize);
             AllowedRun(Log([], 0, |w.slots|, w.maxSize), calls)
    ensures var w := NewWindow(initialSize, maxSize);
            var here, there := ListReplay([], calls), Replay(w, WindowOps(calls));
            && BlindAll(here) == BlindAll(there)
            && (here == there <==> SameOffsets(Log([], 0, |w.slots|, w.maxSize), calls))
  {
    var w := NewWindow(initialSize, maxSize);
    NewRefines(initialSize, maxSize);
    RunsAgree(w, [], Log([], 0, |w.slots|, w.maxSize), calls);
  }

  const WAITING := Item(0, false, false, NOTHING)
  const L0 := Log([], 0, 4, 8)
  const L1 := Log([FRESH], 0, 4, 8)
  const L2 := Log([FRESH, FRESH], 0, 4, 8)

  function L3(a: Answer): Log {
    Log([FRESH, Entry(Some(a), false)], 0, 4, 8)
  }

  lemma LogStory(a: Answer)
    ensures LogStep(L0, Next) == (L1, Reserved(0)) && LogStep(L1, Next) == (L2, Reserved(1))
    ensures LogStep(L2, Insert(1, a)) == (L3(a), Stored)
    ensures LogStep(L3(a), Retrieve(1, 1)) == (L3(a), Found(0, [Element(1, a)]))
  {
    assert [] + [FRESH] == [FRESH] && [FRESH] + [FRESH] == [FRESH, FRESH];
    assert [FRESH, FRESH][1 := Entry(Some(a), false)] == L3(a).entries;
    assert Readable(L3(a).entries, 1, 1) == [] && Readable(L3(a).entries, 1, 2) == [Element(1, a)];
  }

  lemma ListStory(a: Answer)
    ensures ListStep([], Reserve) == ([WAITING], Reserved(0))
    ensures ListStep([WAITING], Reserve) == ([WAITING, WAITING.(offset := 1)], Reserved(1))
    ensures ListStep([WAITING, WAITING.(offset := 1)], Fulfil(1, a)) == ([WAITING, Item(1, true, false, a)], Stored)
    ensures ListStep([WAITING, Item(1, true, false, a)], Read(1, 0)).1 == Found(1, [Element(1, a)])
  {
    var i1 := Item(1, true, false, a);
    assert [] + [WAITING] == [WAITING];
    assert [WAITING] + [WAITING.(offset := 1)] == [WAITING, WAITING.(offset := 1)];
    assert [WAITING, WAITING.(offset := 1)][1 := i1] == [WAITING, i1];
    assert MqRetrieve([WAITING, i1], 1, 0) == [i1];
    assert [i1][..0] == [];
    assert Decode([i1]) == [Element(1, a)];
  }

  lemma StoryAllowed(a: Answer)
    ensures LogValid(L0) && LogValid(L1) && LogValid(L2) && LogValid(L3(a))
    ensures Allowed(L0, Reserve) && Allowed(L1, Reserve) && Allowed(L2, Fulfil(1, a)) && Allowed(L3(a), Read(1, 0))
  {
  }

  /** An ordinary poll shows it: reading from offset 1 the window reports its base 0, Redis reports 1. */
  lemma ReportedOffsetsDiffer(a: Answer)
    ensures var calls := [Reserve, Reserve, Fulfil(1, a), Read(1, 0)];
            && AllowedRun(L0, calls)
            && ListReplay([], calls) == [Reserved(0), Reserved(1), Stored, Found(1, [Element(1, a)])]
            && Replay(NewWindow(4, 8), WindowOps(calls)) == [Reserved(0), Reserved(1), Stored, Found(0, [Element(1, a)])]
  {
    hide Refines, ListRefines, Replay, ListReplay, WindowOps, LogStep, ListStep, Allowed;
    var calls := [Reserve, Reserve, Fulfil(1, a), Read(1, 0)];
    LogStory(a);
    ListStory(a);
    StoryAllowed(a);
    NewRefines(4, 8);
    EmptyList(L0);
    var w1 := FirstCall(NewWindow(4, 8), [], L0, calls);
    assert calls[1..] == [Reserve, Fulfil(1, a), Read(1, 0)];
    var w2 := FirstCall(w1, [WAITING], L1, calls[1..]);
    assert calls[1..][1..] == [Fulfil(1, a), Read(1, 0)];
    var w3 := FirstCall(w2, [WAITING, WAITING.(offset := 1)], L2, calls[1..][1..]);
    assert calls[1..][1..][1..] == [Read(1, 0)];
    var w4 := FirstCall(w3, [WAITING, Item(1, true, false, a)], L3(a), [Read(1, 0)]);
    assert [Read(1, 0)][1..] == [];
    assert AllowedRun(L3(a), [Read(1, 0)]) && AllowedRun(L2, calls[1..][1..]) && AllowedRun(L1, calls[1..]);
    Nothing(w4, ListStep([WAITING, Item(1, true, false, a)], Read(1, 0)).0);
  }

  lemma EmptyList(l: Log)
    requires l.entries == [] && l.base == 0 && 1 <= l.capacity <= l.maxSize
    ensures ListRefines([], l)
  {
  }

  lemma Nothing(w: Window, r: seq<Item>)
    ensures ListReplay(r, []) == [] && Replay(w, WindowOps([])) == []
  {
  }

  /**
   Acknowledging further than that is where they part: after an acknowledgement inside the
   window the two bases agree exactly when the offset passes neither the first answer owed nor
   the last offset handed out, or when those two are the same offset.
   */
  lemma AcknowledgeAgreesIff(r: seq<Item>, l: Log, o: nat)
    requires ListRefines(r, l) && r != [] && l.base <= o <= l.base + l.capacity
    ensures Base(MqDiscard(r, o, 0, false)) == LogSlide(l, o).0.base <==>
              || (o <= FirstOpen(l.entries, l.base) && o < |l.entries|)
              || FirstOpen(l.entries, l.base) == |l.entries| - 1
  {
    hide MqDiscard, SlideTarget;
    ListUndiscarded(r, l);
    DropCleanFacts(r, o);
    CleanSlideTarget(l, o);
  }
}
