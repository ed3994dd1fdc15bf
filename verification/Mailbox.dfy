/**
 The specification of a mailbox: an unbounded log of entries, one per offset ever
 handed out, plus the first offset that is still held. Nothing here mentions arrays,
 cursors or slots; the window and the Redis list are proved against this module.
 */
module Mailbox {
  import opened Basics

  /** What a producer stores at an offset. */
  datatype Answer = Answer(kind: string, value: string)

  /** One offset of the log. An entry without answer that is not discarded is still owed. */
  datatype Entry = Entry(answer: Option<Answer>, discarded: bool)

  const FRESH := Entry(None, false)

  /** What a reader receives. */
  datatype Element = Element(offset: nat, answer: Answer)

  /**
   entries[o] is the state of offset o, for every offset handed out so far;
   offsets below base are no longer held. capacity and maxSize bound how many
   offsets may be held at once.
   */
  datatype Log = Log(entries: seq<Entry>, base: nat, capacity: nat, maxSize: nat)

  datatype Op =
    | Next
    | Insert(offset: nat, answer: Answer)
    | Retrieve(offset: nat, count: nat)
    | Slide(offset: nat)
    | Discard(offset: nat, count: nat)

  /** Replies, including the four errors of the window and the run-time panic. */
  datatype Reply =
    | Reserved(offset: nat)
    | Full
    | Stored
    | OutOfWindow
    | NotReserved
    | AlreadySet
    | Found(base: nat, elements: seq<Element>)
    | Moved(slots: nat)
    | Marked(slots: nat)
    | Panicked

  predicate Open(e: Entry) {
    e.answer.None? && !e.discarded
  }

  /** The first offset at or after i that is still owed an answer, or the next offset to hand out. */
  function FirstOpen(es: seq<Entry>, i: nat): (r: nat)
    requires i <= |es|
    ensures i <= r <= |es|
    ensures forall j | i <= j < r :: !Open(es[j])
    ensures r < |es| ==> Open(es[r])
    decreases |es| - i
  {
    if i == |es| || Open(es[i]) then i else FirstOpen(es, i + 1)
  }

  lemma {:induction false} FirstOpenIs(es: seq<Entry>, i: nat, r: nat)
    requires i <= r <= |es|
    requires forall j | i <= j < r :: !Open(es[j])
    requires r < |es| ==> Open(es[r])
    ensures FirstOpen(es, i) == r
    decreases r - i
  {
    if i < r { FirstOpenIs(es, i + 1, r); }
  }

  /** The first offset in [i, limit) that is not discarded, or limit. */
  function PastDiscarded(es: seq<Entry>, i: nat, limit: nat): (r: nat)
    requires i <= limit <= |es|
    ensures i <= r <= limit
    ensures forall j | i <= j < r :: es[j].discarded
    ensures r < limit ==> !es[r].discarded
    decreases limit - i
  {
    if i == limit || !es[i].discarded then i else PastDiscarded(es, i + 1, limit)
  }

  /** The readable elements of [lo, hi), in increasing offset order. */
  function Readable(es: seq<Entry>, lo: nat, hi: nat): (r: seq<Element>)
    requires lo <= hi <= |es|
    decreases hi
  {
    if lo == hi then []
    else
      var rest := Readable(es, lo, hi - 1);
      var e := es[hi - 1];
      if e.answer.Some? && !e.discarded then rest + [Element(hi - 1, e.answer.value)] else rest
  }

  /** Marks every entry of [lo, hi) as discarded. */
  function MarkEntries(es: seq<Entry>, lo: nat, hi: nat): (r: seq<Entry>)
    requires lo <= hi <= |es|
    ensures |r| == |es|
    ensures forall i {:trigger r[i]} | 0 <= i < |es| ::
              r[i] == if lo <= i < hi then es[i].(discarded := true) else es[i]
    decreases hi
  {
    if lo == hi then es
    else MarkEntries(es, lo, hi - 1)[hi - 1 := es[hi - 1].(discarded := true)]
  }

  predicate LogValid(l: Log) {
    && 1 <= l.capacity <= l.maxSize
    && l.base <= |l.entries| < l.base + l.capacity
    && forall o | 0 <= o < l.base :: !Open(l.entries[o])
  }

  /** The offset a slide requested up to `offset` really reaches. */
  function SlideTarget(l: Log, offset: nat): (t: nat)
    requires l.base <= |l.entries| && l.base <= offset
    ensures l.base <= t <= FirstOpen(l.entries, l.base)
  {
    var open := FirstOpen(l.entries, l.base);
    PastDiscarded(l.entries, Min(offset, open), open)
  }

  function LogSlide(l: Log, offset: nat): (Log, Reply)
    requires LogValid(l)
  {
    if offset < l.base then (l, Moved(0))
    else if offset > l.base + l.capacity then (l, OutOfWindow)
    else
      var t := SlideTarget(l, offset);
      (l.(base := t), Moved(t - l.base))
  }

  /** The log with the offsets of [offset, offset + count) that were handed out marked. */
  function Marking(l: Log, offset: nat, count: nat): Log
    requires offset <= |l.entries|
  {
    l.(entries := MarkEntries(l.entries, offset, Min(offset + count, |l.entries|)))
  }

  function MarkingAndSlide(l: Log, offset: nat, count: nat): Log
    requires LogValid(l) && l.base <= offset <= |l.entries|
  {
    var marked := Marking(l, offset, count);
    if offset == l.base then LogSlide(marked, offset + 1).0 else marked
  }

  function LogDiscard(l: Log, offset: nat, count: nat): (Log, Reply)
    requires LogValid(l)
  {
    if count == 0 then (l, Marked(0))
    else if offset < l.base || offset > l.base + l.capacity then (l, OutOfWindow)
    else if offset > |l.entries| then (l, Marked(0))
    else
      (MarkingAndSlide(l, offset, count),
       Marked(Min(offset + count, |l.entries|) - offset))
  }

  function LogNext(l: Log): (Log, Reply)
    requires LogValid(l)
  {
    var held := |l.entries| - l.base;
    if held == l.maxSize - 1 then (l, Full)
    else
      var capacity := if held == l.capacity - 1 then Min(2 * l.capacity, l.maxSize) else l.capacity;
      (l.(entries := l.entries + [FRESH], capacity := capacity), Reserved(|l.entries|))
  }

  function LogInsert(l: Log, offset: nat, answer: Answer): (Log, Reply)
    requires LogValid(l)
  {
    if offset < l.base || offset > l.base + l.capacity then (l, OutOfWindow)
    else if offset == l.base + l.capacity then (l, Panicked)
    else if offset >= |l.entries| then (l, NotReserved)
    else if !Open(l.entries[offset]) then (l, AlreadySet)
    else (l.(entries := l.entries[offset := Entry(Some(answer), false)]), Stored)
  }

  function LogRetrieve(l: Log, offset: nat, count: nat): Reply
    requires LogValid(l)
  {
    var from := Min(Max(offset, l.base), |l.entries|);
    Found(l.base, Readable(l.entries, from, Min(Max(offset, l.base) + count, |l.entries|)))
  }

  function LogStep(l: Log, op: Op): (r: (Log, Reply))
    requires LogValid(l)
  {
    match op
    case Next => LogNext(l)
    case Insert(o, a) => LogInsert(l, o, a)
    case Retrieve(o, c) => (l, LogRetrieve(l, o, c))
    case Slide(o) => LogSlide(l, o)
    case Discard(o, c) => LogDiscard(l, o, c)
  }

  /** later may have grown, been answered or discarded since earlier, and nothing else. */
  ghost predicate Extends(earlier: Log, later: Log) {
    && |earlier.entries| <= |later.entries|
    && earlier.base <= later.base
    && earlier.maxSize == later.maxSize
    && forall o | 0 <= o < |earlier.entries| :: EntryExtends(earlier.entries[o], later.entries[o])
  }

  ghost predicate EntryExtends(a: Entry, b: Entry) {
    && (a.answer.Some? ==> b.answer == a.answer)
    && (a.discarded ==> b.discarded)
    && (a.discarded && a.answer.None? ==> b.answer.None?)
  }

  /** The mailbox never lets go of an offset that is still owed an answer. */
  lemma SlideKeepsOwed(l: Log, offset: nat)
    requires LogValid(l)
    ensures LogValid(LogSlide(l, offset).0)
    ensures Extends(l, LogSlide(l, offset).0)
    ensures LogSlide(l, offset).0.entries == l.entries
  {
  }

  lemma DiscardExtends(l: Log, offset: nat, count: nat)
    requires LogValid(l)
    ensures LogValid(LogDiscard(l, offset, count).0)
    ensures Extends(l, LogDiscard(l, offset, count).0)
  {
    if count != 0 && l.base <= offset <= |l.entries| && offset <= l.base + l.capacity {
      var marked := Marking(l, offset, count);
      assert LogValid(marked) && Extends(l, marked);
      if offset == l.base { SlideKeepsOwed(marked, offset + 1); }
    }
  }

  /** One step keeps the log well formed and rewrites no history. */
  lemma LogStepExtends(l: Log, op: Op)
    requires LogValid(l)
    ensures LogValid(LogStep(l, op).0)
    ensures Extends(l, LogStep(l, op).0)
  {
    match op
    case Discard(o, c) => DiscardExtends(l, o, c);
    case Slide(o) => SlideKeepsOwed(l, o);
    case _ =>
  }

  predicate Ascending(r: seq<Element>) {
    forall i, j | 0 <= i < j < |r| :: r[i].offset < r[j].offset
  }

  /** Readable returns exactly the answered, undiscarded offsets of its range, each with its answer, in order. */
  lemma {:induction false} ReadableExact(es: seq<Entry>, lo: nat, hi: nat)
    requires lo <= hi <= |es|
    ensures forall o: nat, a :: Element(o, a) in Readable(es, lo, hi)
              <==> lo <= o < hi && es[o].answer == Some(a) && !es[o].discarded
    ensures Ascending(Readable(es, lo, hi))
    decreases hi
  {
    if lo < hi {
      ReadableExact(es, lo, hi - 1);
      var rest := Readable(es, lo, hi - 1);
      forall i | 0 <= i < |rest| ensures rest[i].offset < hi - 1 {
        assert Element(rest[i].offset, rest[i].answer) in rest;
      }
    }
  }

  // --- What each operation does to the log, in the reader's terms ---

  /**
   A slide stops at the requested offset, or at the first answer owed if that comes first, and
   goes on only past discarded offsets, never past one that is owed.
   */
  lemma SlideExact(l: Log, offset: nat)
    requires LogValid(l) && l.base <= offset <= l.base + l.capacity
    ensures var t, open := LogSlide(l, offset).0.base, FirstOpen(l.entries, l.base);
            && Min(offset, open) <= t <= open
            && (forall o | Min(offset, open) <= o < t :: l.entries[o].discarded)
            && (t < open ==> !l.entries[t].discarded)
            && LogSlide(l, offset).1 == Moved(t - l.base)
  {
  }

  /** With nothing discarded it goes no further than either. */
  lemma CleanSlide(l: Log, offset: nat)
    requires LogValid(l) && l.base <= offset <= l.base + l.capacity
    requires forall o | l.base <= o < |l.entries| :: !l.entries[o].discarded
    ensures LogSlide(l, offset).0 == l.(base := Min(offset, FirstOpen(l.entries, l.base)))
  {
  }

  /**
   An answer is stored exactly for a held offset that is still owed, and can be read back at once; every other
   offset has its own error.
   */
  lemma InsertThenRead(l: Log, offset: nat, a: Answer)
    requires LogValid(l)
    ensures var (l', r) := LogInsert(l, offset, a);
            && (r == Stored <==> l.base <= offset < |l.entries| && Open(l.entries[offset]))
            && (r == OutOfWindow <==> offset < l.base || offset > l.base + l.capacity)
            && (r == NotReserved <==> |l.entries| <= offset < l.base + l.capacity)
            && (r == AlreadySet <==> l.base <= offset < |l.entries| && !Open(l.entries[offset]))
            && (r != Stored ==> l' == l)
            && (r == Stored ==> && LogValid(l') && LogRetrieve(l', offset, 1) == Found(l.base, [Element(offset, a)])
                                && l'.entries == l.entries[offset := Entry(Some(a), false)])
  {
    var (l', r) := LogInsert(l, offset, a);
    if r == Stored {
      assert Readable(l'.entries, offset, offset) == [];
      assert Readable(l'.entries, offset, offset + 1) == [Element(offset, a)];
    }
  }

  lemma MarkingValid(l: Log, offset: nat, count: nat)
    requires LogValid(l) && l.base <= offset <= |l.entries|
    ensures LogValid(Marking(l, offset, count))
  {
  }

  /** The slide after the base was marked: past what is discarded, up to the next live offset. */
  lemma SlideAfterMarking(l: Log)
    requires LogValid(l) && (l.base < |l.entries| ==> l.entries[l.base].discarded)
    ensures var l' := LogSlide(l, l.base + 1).0;
            && l' == l.(base := l'.base) && l.base <= l'.base <= |l.entries|
            && (forall o | l.base <= o < l'.base :: l.entries[o].discarded)
            && (l.base < |l.entries| ==> l.base < l'.base)
            && (l'.base < |l.entries| ==> !l.entries[l'.base].discarded)
  {
    SlideExact(l, l.base + 1);
  }

  /**
   A discard inside the window marks and counts exactly the handed-out offsets of its range and changes no answer.
   It lets go of discarded offsets only, and of all of them up to the next live one if it starts at the base.
   */
  lemma DiscardExact(l: Log, offset: nat, count: nat)
    requires LogValid(l) && l.base <= offset <= l.base + l.capacity
    ensures var (l', r) := LogDiscard(l, offset, count);
            && r == Marked(Max(Min(offset + count, |l.entries|) - offset, 0))
            && |l'.entries| == |l.entries|
            && (forall o | 0 <= o < |l.entries| ::
                  && l'.entries[o].answer == l.entries[o].answer
                  && (l'.entries[o].discarded <==> l.entries[o].discarded || (offset <= o < offset + count)))
            && (l'.base != l.base ==> offset == l.base)
            && l.base <= l'.base <= |l'.entries| && (forall o | l.base <= o < l'.base :: l'.entries[o].discarded)
            && (offset == l.base < |l.entries| && count > 0 ==>
                  l.base < l'.base && (l'.base < |l'.entries| ==> !l'.entries[l'.base].discarded))
  {
    hide LogSlide;
    if count > 0 && offset <= |l.entries| {
      MarkingValid(l, offset, count);
      if offset == l.base { SlideAfterMarking(Marking(l, offset, count)); }
    }
  }

  // --- Whole runs ---

  function LogRun(l: Log, ops: seq<Op>): (r: (Log, seq<Reply>))
    requires LogValid(l)
    decreases |ops|
  {
    if ops == [] then (l, [])
    else
      LogStepExtends(l, ops[0]);
      var (l', reply) := LogStep(l, ops[0]);
      var (end, rest) := LogRun(l', ops[1..]);
      (end, [reply] + rest)
  }

  /** Over a whole run no owed offset is let go, no answer changes and no discard is undone. */
  lemma {:induction false} RunExtends(l: Log, ops: seq<Op>)
    requires LogValid(l)
    ensures LogValid(LogRun(l, ops).0)
    ensures Extends(l, LogRun(l, ops).0)
    decreases |ops|
  {
    if ops != [] {
      LogStepExtends(l, ops[0]);
      RunExtends(LogStep(l, ops[0]).0, ops[1..]);
    }
  }

  /** The offsets handed out by a run, in order. */
  function HandedOut(rs: seq<Reply>): seq<nat> {
    if rs == [] then []
    else (if rs[0].Reserved? then [rs[0].offset] else []) + HandedOut(rs[1..])
  }

  /** Offsets are handed out consecutively over a whole run, whatever happens in between. */
  lemma {:induction false} HandedOutConsecutive(l: Log, ops: seq<Op>)
    requires LogValid(l)
    ensures var h := HandedOut(LogRun(l, ops).1);
            && |l.entries| + |h| == |LogRun(l, ops).0.entries|
            && forall i | 0 <= i < |h| :: h[i] == |l.entries| + i
    decreases |ops|
  {
    if ops != [] {
      LogStepExtends(l, ops[0]);
      var (l', reply) := LogStep(l, ops[0]);
      HandedOutConsecutive(l', ops[1..]);
      assert ([reply] + LogRun(l', ops[1..]).1)[1..] == LogRun(l', ops[1..]).1;
    }
  }

  /** An offset that is discarded, or no longer held, is never read again. */
  lemma {:induction false} DiscardedNeverRead(l: Log, ops: seq<Op>, o: nat)
    requires LogValid(l) && o < |l.entries|
    requires l.entries[o].discarded || o < l.base
    ensures forall r | r in LogRun(l, ops).1 && r.Found? :: forall e | e in r.elements :: e.offset != o
    decreases |ops|
  {
    if ops != [] {
      LogStepExtends(l, ops[0]);
      DiscardedNeverRead(LogStep(l, ops[0]).0, ops[1..], o);
      if ops[0].Retrieve? { RetrieveExact(l, ops[0].offset, ops[0].count); }
    }
  }

  /**
   A read returns, in increasing offset order, exactly the answered and undiscarded
   offsets of [max(offset, base), max(offset, base) + count), each with its own answer.
   */
  lemma RetrieveExact(l: Log, offset: nat, count: nat)
    requires LogValid(l)
    ensures var r := LogRetrieve(l, offset, count);
            && r.Found? && r.base == l.base && Ascending(r.elements)
            && forall o: nat, a :: Element(o, a) in r.elements
                 <==> && Max(offset, l.base) <= o < Max(offset, l.base) + count && o < |l.entries|
                      && l.entries[o].answer == Some(a) && !l.entries[o].discarded
  {
    ReadableExact(l.entries, Min(Max(offset, l.base), |l.entries|), Min(Max(offset, l.base) + count, |l.entries|));
  }

  function Doubled(c: nat, j: nat): nat {
    if j == 0 then c else 2 * Doubled(c, j - 1)
  }

  /** One step grows the window only for a reservation that finds it full, and then doubles it, up to the maximum. */
  lemma StepCapacity(l: Log, op: Op)
    requires LogValid(l)
    ensures var l' := LogStep(l, op).0;
            l'.capacity == l.capacity ||
            (|l'.entries| > |l.entries| == l.base + l.capacity - 1 && l'.capacity == Min(2 * l.capacity, l.maxSize))
  {
    hide MarkingAndSlide;
    if op.Discard? && op.count > 0 && l.base <= op.offset <= |l.entries| { DiscardCapacity(l, op.offset, op.count); }
  }

  lemma DiscardCapacity(l: Log, offset: nat, count: nat)
    requires LogValid(l) && l.base <= offset <= |l.entries|
    ensures MarkingAndSlide(l, offset, count).capacity == l.capacity
  {
  }

  /** Over any run the capacity is the first one doubled some number of times, up to the maximum. */
  lemma {:induction false} RunCapacity(l: Log, c: nat, i: nat, ops: seq<Op>) returns (j: nat)
    requires LogValid(l) && l.capacity == Min(Doubled(c, i), l.maxSize)
    ensures LogRun(l, ops).0.capacity == Min(Doubled(c, j), l.maxSize) && i <= j
    decreases |ops|
  {
    hide LogStep, LogValid;
    j := i;
    if ops != [] {
      LogStepExtends(l, ops[0]);
      StepCapacity(l, ops[0]);
      var l' := LogStep(l, ops[0]).0;
      j := RunCapacity(l', c, if l'.capacity == l.capacity then i else i + 1, ops[1..]);
    }
  }

  function Nexts(n: nat): (r: seq<Op>)
    ensures |r| == n && forall i | 0 <= i < n :: r[i] == Next
  {
    seq(n, _ => Next)
  }

  /** Exactly maxSize - 1 - held further reservations succeed, and the one after reports full. */
  lemma {:induction false} RoomLeft(l: Log, n: nat)
    requires LogValid(l)
    ensures Full in LogRun(l, Nexts(n)).1 <==> l.maxSize - 1 - (|l.entries| - l.base) < n
    decreases n
  {
    if n > 0 {
      LogStepExtends(l, Next);
      assert Nexts(n)[1..] == Nexts(n - 1);
      RoomLeft(LogStep(l, Next).0, n - 1);
    }
  }

  /** A slide that frees k offsets makes room for k more reservations than before. */
  lemma SlideMakesRoom(l: Log, offset: nat, n: nat)
    requires LogValid(l) && Full !in LogRun(l, Nexts(n)).1
    requires LogSlide(l, offset).1.Moved?
    ensures LogValid(LogSlide(l, offset).0)
    ensures Full !in LogRun(LogSlide(l, offset).0, Nexts(n + LogSlide(l, offset).1.slots)).1
  {
    SlideKeepsOwed(l, offset);
    RoomLeft(l, n);
    RoomLeft(LogSlide(l, offset).0, n + LogSlide(l, offset).1.slots);
  }
}
