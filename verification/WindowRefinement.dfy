/**
 The window refines the log: in every reachable state the two cursors, the slot flags and
 the base are consistent, and every operation answers what the unbounded log answers.
 The code breaks that consistency in two situations, both characterised exactly.
 */
module WindowRefinement {
  import opened Basics
  import opened Mailbox
  import opened SlidingWindows

  predicate Clean(s: Slot) {
    !s.reserved && !s.filled && !s.discarded
  }

  /** The consistency of both cursors, the slot flags and the base. */
  predicate Valid(w: Window) {
    && InBounds(w)
    && w.nextUnset <= w.nextUnreserved
    && (forall i | 0 <= i < w.nextUnreserved :: w.slots[i].reserved && w.slots[i].offset == w.base + i)
    && (forall i | w.nextUnreserved <= i < |w.slots| :: Clean(w.slots[i]))
    && (forall i | 0 <= i < w.nextUnset :: !Free(w.slots[i]))
    && Free(w.slots[w.nextUnset])
  }

  function Abs(s: Slot): Entry {
    Entry(if s.filled then Some(Answer(s.kind, s.value)) else None, s.discarded)
  }

  /** The window holds the part of the log at and above its base. */
  predicate Refines(w: Window, l: Log) {
    && Valid(w) && LogValid(l)
    && l.base == w.base && l.capacity == |w.slots| && l.maxSize == w.maxSize
    && |l.entries| == w.base + w.nextUnreserved
    && forall i | 0 <= i < w.nextUnreserved :: Abs(w.slots[i]) == l.entries[w.base + i]
  }

  /** The facts of Valid and Refines that say nothing about slots. */
  lemma ValidShape(w: Window)
    requires Valid(w)
    ensures InBounds(w) && w.nextUnset <= w.nextUnreserved
  {
  }

  lemma RefinesShape(w: Window, l: Log)
    requires Refines(w, l)
    ensures Valid(w) && LogValid(l) && InBounds(w) && w.nextUnset <= w.nextUnreserved
    ensures l.base == w.base && l.capacity == |w.slots| && l.maxSize == w.maxSize
    ensures |l.entries| == w.base + w.nextUnreserved
  {
  }

  /** The unset cursor is the first offset still owed an answer. */
  lemma CursorIsFirstOpen(w: Window, l: Log)
    requires Refines(w, l)
    ensures FirstOpen(l.entries, l.base) == w.base + w.nextUnset
  {
    var r := w.base + w.nextUnset;
    assert w.nextUnset < w.nextUnreserved ==> Open(l.entries[r]) by {
      assert Free(w.slots[w.nextUnset]);
    }
    forall j | l.base <= j < r ensures !Open(l.entries[j]) {
      assert !Free(w.slots[j - w.base]);
    }
    FirstOpenIs(l.entries, l.base, r);
  }

  lemma {:induction false} CollectIsReadable(w: Window, l: Log, lo: nat, hi: nat)
    requires Refines(w, l) && lo <= hi <= |w.slots|
    ensures Collect(w.slots, lo, hi)
         == Readable(l.entries, Min(w.base + lo, |l.entries|), Min(w.base + hi, |l.entries|))
    decreases hi
  {
    if lo < hi {
      CollectIsReadable(w, l, lo, hi - 1);
      if hi <= w.nextUnreserved {
        assert Abs(w.slots[hi - 1]) == l.entries[w.base + (hi - 1)];
      }
    }
  }

  lemma {:induction false} SkipIsPast(w: Window, l: Log, i: nat, limit: nat)
    requires Refines(w, l) && i <= limit <= w.nextUnreserved
    ensures w.base + SkipDiscarded(w.slots, i, limit) == PastDiscarded(l.entries, w.base + i, w.base + limit)
    decreases limit - i
  {
    if i < limit {
      assert Abs(w.slots[i]) == l.entries[w.base + i];
      SkipIsPast(w, l, i + 1, limit);
    }
  }

  // --- Slide: the guard SlideSafe ---

  /** No discarded slot lies in the part of the array that a slide by k vacates. */
  predicate TailUndiscarded(w: Window, k: nat)
    requires k <= |w.slots|
  {
    forall i | |w.slots| - k <= i < |w.slots| :: !w.slots[i].discarded
  }

  predicate SlideSafe(w: Window, offset: nat)
    requires InBounds(w)
  {
    w.base <= offset <= w.base + |w.slots| ==> TailUndiscarded(w, SlideLimit(w, offset))
  }

  lemma ShiftKeepsValid(w: Window, k: nat)
    requires Valid(w) && k <= w.nextUnset && TailUndiscarded(w, k)
    ensures Valid(Shift(w, k))
  {
    var w' := Shift(w, k);
    forall i | 0 <= i < w'.nextUnreserved
      ensures w'.slots[i].reserved && w'.slots[i].offset == w'.base + i
    {
      assert w'.slots[i] == w.slots[i + k];
    }
    forall i | w'.nextUnreserved <= i < |w'.slots| ensures Clean(w'.slots[i]) {
      if i < |w.slots| - k { assert Clean(w.slots[i + k]); }
    }
    forall i | 0 <= i < w'.nextUnset ensures !Free(w'.slots[i]) {
      assert w'.slots[i] == w.slots[i + k];
    }
  }

  lemma ShiftLeavesMark(w: Window, k: nat)
    requires Valid(w) && k <= w.nextUnset && !TailUndiscarded(w, k)
    ensures !Valid(Shift(w, k))
  {
    var i :| |w.slots| - k <= i < |w.slots| && w.slots[i].discarded;
    assert !Clean(Shift(w, k).slots[i]);
  }

  /** A slide keeps the window consistent exactly when no discarded slot lies in the vacated tail. */
  lemma SlideValidIff(w: Window, offset: nat)
    requires Valid(w)
    ensures Valid(WinSlide(w, offset).0) <==> SlideSafe(w, offset)
  {
    if w.base <= offset <= w.base + |w.slots| {
      var k := SlideLimit(w, offset);
      if TailUndiscarded(w, k) { ShiftKeepsValid(w, k); } else { ShiftLeavesMark(w, k); }
    }
  }

  lemma ShiftRefines(w: Window, l: Log, k: nat)
    requires Refines(w, l) && k <= w.nextUnset && TailUndiscarded(w, k)
    requires LogValid(l.(base := l.base + k))
    ensures Refines(Shift(w, k), l.(base := l.base + k))
  {
    ShiftKeepsValid(w, k);
    var w' := Shift(w, k);
    forall i | 0 <= i < w'.nextUnreserved ensures Abs(w'.slots[i]) == l.entries[w'.base + i] {
      assert w'.slots[i] == w.slots[i + k];
    }
  }

  lemma SlideTargetIs(w: Window, l: Log, offset: nat)
    requires Refines(w, l) && w.base <= offset
    ensures SlideTarget(l, offset) == w.base + SlideLimit(w, offset)
  {
    CursorIsFirstOpen(w, l);
    SkipIsPast(w, l, Min(offset - w.base, w.nextUnset), w.nextUnset);
  }

  lemma SlideRefines(w: Window, l: Log, offset: nat)
    requires Refines(w, l) && SlideSafe(w, offset)
    ensures Refines(WinSlide(w, offset).0, LogSlide(l, offset).0)
    ensures WinSlide(w, offset).1 == LogSlide(l, offset).1
  {
    if w.base <= offset <= w.base + |w.slots| {
      SlideTargetIs(w, l, offset);
      SlideKeepsOwed(l, offset);
      ShiftRefines(w, l, SlideLimit(w, offset));
    }
  }

  // --- Discard: the guard CursorSpared ---

  /**
   The marked range [i, end) spares the slot just below the unset cursor, or the slot after
   the range is already answered and the one after that is not.
   */
  predicate CursorSpared(w: Window, i: nat, end: nat)
    requires InBounds(w) && i <= end && (i < end ==> end <= w.nextUnreserved)
  {
    i < w.nextUnset <= end ==>
      !Free(w.slots[end]) && end + 1 < |w.slots| && Free(w.slots[end + 1])
  }

  lemma MarkSpared(w: Window, i: nat, count: nat)
    requires Valid(w) && i <= |w.slots| && CursorSpared(w, i, MarkEnd(w, i, count))
    ensures Valid(Mark(w, i, count))
  {
    var e := MarkEnd(w, i, count);
    var m := Mark(w, i, count);
    assert forall j | 0 <= j < |w.slots| ::
        m.slots[j] == if i <= j < e then w.slots[j].(discarded := true) else w.slots[j];
    assert Free(m.slots[w.nextUnreserved]);
    forall j | 0 <= j < w.nextUnreserved ensures m.slots[j].reserved && m.slots[j].offset == w.base + j {
      assert w.slots[j].reserved;
    }
    forall j | w.nextUnreserved <= j < |w.slots| ensures Clean(m.slots[j]) {
      assert Clean(w.slots[j]);
    }
    forall j | 0 <= j < m.nextUnset ensures !Free(m.slots[j]) {
      if j < w.nextUnset { assert !Free(w.slots[j]); }
    }
  }

  lemma MarkHit(w: Window, i: nat, count: nat)
    requires Valid(w) && i <= |w.slots| && !CursorSpared(w, i, MarkEnd(w, i, count))
    ensures !Valid(Mark(w, i, count))
    ensures i == 0 ==> !Valid(WinSlide(Mark(w, 0, count), w.base + 1).0)
  {
    var e := MarkEnd(w, i, count);
    var m := Mark(w, i, count);
    assert m.nextUnset == e + 1;
    assert m.slots[e] == w.slots[e];
    if i == 0 {
      var k := SlideLimit(m, w.base + 1);
      assert forall j | 0 <= j < e :: m.slots[j].discarded;
      assert e <= k;
      var v := Shift(m, k);
      assert v.slots[0] == m.slots[k];
      if k == e && !Free(w.slots[e]) { assert v.slots[1] == m.slots[e + 1] == w.slots[e + 1]; }
    }
  }

  /** Both guards of a discard that starts at slot i. */
  predicate MarkSafe(w: Window, i: nat, count: nat)
    requires InBounds(w) && i <= |w.slots|
  {
    && CursorSpared(w, i, MarkEnd(w, i, count))
    && (i == 0 ==> SlideSafe(Mark(w, 0, count), w.base + 1))
  }

  predicate DiscardSafe(w: Window, offset: nat, count: nat)
    requires InBounds(w)
  {
    count > 0 && w.base <= offset <= w.base + |w.slots| ==> MarkSafe(w, offset - w.base, count)
  }

  lemma MarkAndSlideValidIff(w: Window, i: nat, count: nat)
    requires Valid(w) && i <= |w.slots|
    ensures Valid(MarkAndSlide(w, i, count)) <==> MarkSafe(w, i, count)
  {
    hide Valid, CursorSpared, Mark, MarkEnd, WinSlide, SlideSafe;
    ValidShape(w);
    if CursorSpared(w, i, MarkEnd(w, i, count)) {
      MarkSpared(w, i, count);
      if i == 0 { SlideValidIff(Mark(w, 0, count), w.base + 1); }
    } else {
      MarkHit(w, i, count);
    }
  }

  /** A discard keeps the window consistent exactly under the two guards. */
  lemma DiscardValidIff(w: Window, offset: nat, count: nat)
    requires Valid(w)
    ensures Valid(WinDiscard(w, offset, count).0) <==> DiscardSafe(w, offset, count)
  {
    hide Valid, MarkAndSlide, MarkSafe, MarkEnd;
    ValidShape(w);
    if count > 0 && w.base <= offset <= w.base + |w.slots| {
      MarkAndSlideValidIff(w, offset - w.base, count);
    }
  }

  /** The slide after a marking stops at the first unreserved slot at the latest. */
  lemma MarkLimit(w: Window, count: nat)
    requires Valid(w)
    ensures var m := Mark(w, 0, count);
            m.nextUnreserved == w.nextUnreserved && SlideLimit(m, w.base + 1) <= w.nextUnreserved
  {
    var m := Mark(w, 0, count);
    assert Clean(w.slots[w.nextUnreserved]);
    assert !m.slots[w.nextUnreserved].discarded;
  }

  /** Even a discard that breaks the guards leaves cursors that index the array. */
  lemma DiscardInBounds(w: Window, offset: nat, count: nat)
    requires Valid(w)
    ensures InBounds(WinDiscard(w, offset, count).0)
  {
    hide Mark, SlideLimit, Valid;
    ValidShape(w);
    MarkLimit(w, count);
  }

  /** Marking slots and marking entries are the same thing. */
  lemma MarkedEntries(w: Window, l: Log, i: nat, end: nat)
    requires Refines(w, l) && i <= end <= w.nextUnreserved
    ensures var s, es := MarkSlots(w.slots, i, end), MarkEntries(l.entries, l.base + i, l.base + end);
            forall j {:trigger s[j]} | 0 <= j < w.nextUnreserved :: Abs(s[j]) == es[w.base + j]
    ensures forall o {:trigger MarkEntries(l.entries, l.base + i, l.base + end)[o]} | 0 <= o < l.base ::
              !Open(MarkEntries(l.entries, l.base + i, l.base + end)[o])
  {
    hide MarkSlots, MarkEntries;
    var s, es := MarkSlots(w.slots, i, end), MarkEntries(l.entries, l.base + i, l.base + end);
    forall j | 0 <= j < w.nextUnreserved ensures Abs(s[j]) == es[w.base + j] {
      assert Abs(w.slots[j]) == l.entries[w.base + j];
    }
  }

  lemma MarkRefines(w: Window, l: Log, i: nat, count: nat)
    requires Refines(w, l) && i <= w.nextUnreserved && CursorSpared(w, i, MarkEnd(w, i, count))
    ensures Refines(Mark(w, i, count), Marking(l, l.base + i, count))
  {
    hide Valid, CursorSpared, MarkSlots, MarkEntries, Advance;
    MarkSpared(w, i, count);
    var e := MarkEnd(w, i, count);
    assert l.base + e == Min(l.base + i + count, |l.entries|);
    MarkedEntries(w, l, i, e);
    if i == e { assert MarkSlots(w.slots, i, e) == w.slots; }
  }

  lemma MarkAndSlideRefines(w: Window, l: Log, i: nat, count: nat)
    requires Refines(w, l) && i <= w.nextUnreserved && MarkSafe(w, i, count)
    ensures Refines(MarkAndSlide(w, i, count), MarkingAndSlide(l, l.base + i, count))
  {
    hide Refines, Valid, CursorSpared, Mark, MarkEnd, Marking, WinSlide, LogSlide, SlideSafe;
    RefinesShape(w, l);
    MarkRefines(w, l, i, count);
    if i == 0 { SlideRefines(Mark(w, 0, count), Marking(l, l.base, count), w.base + 1); }
  }

  lemma MarkBeyond(w: Window, i: nat, count: nat)
    requires Valid(w) && w.nextUnreserved < i <= |w.slots|
    ensures MarkAndSlide(w, i, count) == w
  {
  }

  lemma DiscardRefines(w: Window, l: Log, offset: nat, count: nat)
    requires Refines(w, l) && DiscardSafe(w, offset, count)
    ensures Refines(WinDiscard(w, offset, count).0, LogDiscard(l, offset, count).0)
    ensures WinDiscard(w, offset, count).1 == LogDiscard(l, offset, count).1
  {
    hide Refines, Valid, MarkAndSlide, MarkingAndSlide, MarkSafe;
    RefinesShape(w, l);
    if count > 0 && w.base <= offset <= w.base + |w.slots| {
      var i := offset - w.base;
      if i <= w.nextUnreserved {
        MarkAndSlideRefines(w, l, i, count);
      } else {
        MarkBeyond(w, i, count);
      }
    }
  }

  // --- Reserving, setting and reading ---

  lemma NextValid(w: Window)
    requires Valid(w)
    ensures Valid(WinNext(w).0)
  {
    var w' := WinNext(w).0;
    assert Clean(w.slots[w.nextUnreserved]);
    forall i | 0 <= i < w'.nextUnset ensures !Free(w'.slots[i]) {
      assert !Free(w.slots[i]);
    }
  }

  lemma NextReply(w: Window, l: Log)
    requires Refines(w, l)
    ensures WinNext(w).1 == LogNext(l).1
    ensures var w', l' := WinNext(w).0, LogNext(l).0;
            && LogValid(l') && l'.base == w'.base && l'.capacity == |w'.slots| && l'.maxSize == w'.maxSize
            && |l'.entries| == w'.base + w'.nextUnreserved
  {
    assert Clean(w.slots[w.nextUnreserved]);
    LogStepExtends(l, Next);
  }

  lemma NextEntries(w: Window, l: Log)
    requires Refines(w, l)
    ensures var w', l' := WinNext(w).0, LogNext(l).0;
            forall i {:trigger w'.slots[i]} | 0 <= i < w'.nextUnreserved && i < |w'.slots| && w'.base + i < |l'.entries| ::
              Abs(w'.slots[i]) == l'.entries[w'.base + i]
  {
    var w', l' := WinNext(w).0, LogNext(l).0;
    assert Clean(w.slots[w.nextUnreserved]);
    forall i | 0 <= i < w'.nextUnreserved && i < |w'.slots| && w'.base + i < |l'.entries|
      ensures Abs(w'.slots[i]) == l'.entries[w'.base + i]
    {
      if i < w.nextUnreserved { assert Abs(w.slots[i]) == l.entries[w.base + i]; }
    }
  }

  lemma NextRefines(w: Window, l: Log)
    requires Refines(w, l)
    ensures Refines(WinNext(w).0, LogNext(l).0)
    ensures WinNext(w).1 == LogNext(l).1
  {
    hide Valid, LogValid, WinNext, LogNext, Abs;
    RefinesShape(w, l);
    NextValid(w);
    ValidShape(WinNext(w).0);
    NextReply(w, l);
    NextEntries(w, l);
  }

  lemma FillValid(w: Window, i: nat, answer: Answer)
    requires Valid(w) && i < w.nextUnreserved && Free(w.slots[i])
    ensures Valid(WinInsert(w, w.base + i, answer).0)
  {
    var w' := WinInsert(w, w.base + i, answer).0;
    assert Free(w'.slots[w.nextUnreserved]);
    forall j | 0 <= j < w'.nextUnset ensures !Free(w'.slots[j]) {
      if j < w.nextUnset { assert !Free(w.slots[j]); }
    }
  }

  lemma FillRefines(w: Window, l: Log, i: nat, answer: Answer)
    requires Refines(w, l) && i < w.nextUnreserved && Free(w.slots[i])
    ensures Refines(WinInsert(w, w.base + i, answer).0, LogInsert(l, w.base + i, answer).0)
    ensures WinInsert(w, w.base + i, answer).1 == LogInsert(l, w.base + i, answer).1
  {
    hide Advance, FirstFree;
    FillValid(w, i, answer);
    var w', l' := WinInsert(w, w.base + i, answer).0, LogInsert(l, w.base + i, answer).0;
    forall j | 0 <= j < w'.nextUnreserved ensures Abs(w'.slots[j]) == l'.entries[w'.base + j] {
      assert Abs(w.slots[j]) == l.entries[w.base + j];
    }
  }

  lemma RejectRefines(w: Window, l: Log, offset: nat, answer: Answer)
    requires Refines(w, l)
    requires w.base <= offset < |l.entries| ==> !Free(w.slots[offset - w.base])
    ensures WinInsert(w, offset, answer).0 == w && LogInsert(l, offset, answer).0 == l
    ensures WinInsert(w, offset, answer).1 == LogInsert(l, offset, answer).1
  {
    if w.base <= offset < w.base + |w.slots| {
      var i := offset - w.base;
      assert i < w.nextUnreserved ==> Abs(w.slots[i]) == l.entries[w.base + i];
      assert i >= w.nextUnreserved ==> Clean(w.slots[i]);
    }
  }

  lemma InsertRefines(w: Window, l: Log, offset: nat, answer: Answer)
    requires Refines(w, l)
    ensures Refines(WinInsert(w, offset, answer).0, LogInsert(l, offset, answer).0)
    ensures WinInsert(w, offset, answer).1 == LogInsert(l, offset, answer).1
  {
    hide Refines, Valid, WinInsert, LogInsert;
    RefinesShape(w, l);
    if w.base <= offset < |l.entries| && Free(w.slots[offset - w.base]) {
      FillRefines(w, l, offset - w.base, answer);
    } else {
      RejectRefines(w, l, offset, answer);
    }
  }

  lemma RetrieveRefines(w: Window, l: Log, offset: nat, count: nat)
    requires Refines(w, l)
    ensures WinRetrieve(w, offset, count) == LogRetrieve(l, offset, count)
  {
    var i := Max(offset, w.base) - w.base;
    CollectIsReadable(w, l, Min(i, |w.slots|), Min(i + count, |w.slots|));
  }

  // --- Whole runs ---

  predicate StepSafe(w: Window, op: Op)
    requires InBounds(w)
  {
    match op
    case Slide(o) => SlideSafe(w, o)
    case Discard(o, c) => DiscardSafe(w, o, c)
    case _ => true
  }

  lemma StepRefines(w: Window, l: Log, op: Op)
    requires Refines(w, l) && StepSafe(w, op)
    ensures Refines(WinStep(w, op).0, LogStep(l, op).0)
    ensures WinStep(w, op).1 == LogStep(l, op).1
  {
    match op
    case Next => NextRefines(w, l);
    case Insert(o, a) => InsertRefines(w, l, o, a);
    case Retrieve(o, c) => RetrieveRefines(w, l, o, c);
    case Slide(o) => SlideRefines(w, l, o);
    case Discard(o, c) => DiscardRefines(w, l, o, c);
  }

  /** The log a consistent window refines when nothing is known about what it slid away. */
  function SomeLog(w: Window): (l: Log)
    requires Valid(w)
    ensures Refines(w, l)
  {
    Log(seq(w.base + w.nextUnreserved,
            o requires 0 <= o < w.base + w.nextUnreserved =>
              if o < w.base then Entry(None, true) else Abs(w.slots[o - w.base])),
        w.base, |w.slots|, w.maxSize)
  }

  /** One step of the code keeps the window consistent if and only if it meets the guards. */
  lemma StepValidIff(w: Window, op: Op)
    requires Valid(w)
    ensures Valid(WinStep(w, op).0) <==> StepSafe(w, op)
  {
    match op
    case Slide(o) => SlideValidIff(w, o);
    case Discard(o, c) => DiscardValidIff(w, o, c);
    case _ => StepRefines(w, SomeLog(w), op);
  }

  /** Every step of the run meets its guard. */
  predicate SafeRun(w: Window, ops: seq<Op>)
    decreases |ops|
  {
    ops == [] || (InBounds(w) && StepSafe(w, ops[0]) && SafeRun(WinStep(w, ops[0]).0, ops[1..]))
  }

  function WinRun(w: Window, ops: seq<Op>): (r: (Window, seq<Reply>))
    requires SafeRun(w, ops)
    ensures |r.1| == |ops|
    decreases |ops|
  {
    if ops == [] then (w, [])
    else
      var (w', reply) := WinStep(w, ops[0]);
      var (end, rest) := WinRun(w', ops[1..]);
      (end, [reply] + rest)
  }

  /** Across any number of growths, slides and discards the window behaves as the unbounded log. */
  lemma {:induction false} RunRefines(w: Window, l: Log, ops: seq<Op>)
    requires Refines(w, l) && SafeRun(w, ops)
    ensures Refines(WinRun(w, ops).0, LogRun(l, ops).0)
    ensures WinRun(w, ops).1 == LogRun(l, ops).1
    decreases |ops|
  {
    if ops != [] {
      StepRefines(w, l, ops[0]);
      RunRefines(WinStep(w, ops[0]).0, LogStep(l, ops[0]).0, ops[1..]);
    }
  }

  /** The new window refines the empty log. */
  lemma NewRefines(initialSize: nat, maxSize: nat)
    ensures var w := NewWindow(initialSize, maxSize);
            Refines(w, Log([], 0, |w.slots|, w.maxSize))
  {
  }

  /**
   A new window, driven through any run that meets the guards, ends consistent, answers every
   operation as the unbounded log does, hands out 0, 1, 2, ... and lets go of no offset still owed.
   */
  lemma WindowIsALog(initialSize: nat, maxSize: nat, ops: seq<Op>)
    requires SafeRun(NewWindow(initialSize, maxSize), ops)
    ensures var w := NewWindow(initialSize, maxSize);
            var l := Log([], 0, |w.slots|, w.maxSize);
            && Valid(WinRun(w, ops).0) && LogValid(l) && LogValid(LogRun(l, ops).0)
            && WinRun(w, ops).1 == LogRun(l, ops).1
            && WinRun(w, ops).0.base == LogRun(l, ops).0.base
            && (forall i | 0 <= i < |HandedOut(WinRun(w, ops).1)| :: HandedOut(WinRun(w, ops).1)[i] == i)
  {
    hide Valid, LogStep, WinStep, StepSafe, Extends;
    var w := NewWindow(initialSize, maxSize);
    var l := Log([], 0, |w.slots|, w.maxSize);
    NewRefines(initialSize, maxSize);
    RunRefines(w, l, ops);
    RunExtends(l, ops);
    HandedOutConsecutive(l, ops);
  }

  /**
   The array accesses and the two panics of a reservation are out of reach: a consistent window panics exactly on
   an answer for the offset just past its slots.
   */
  lemma PanicsIff(w: Window, op: Op)
    requires Valid(w)
    ensures WinStep(w, op).1.Panicked? <==> op.Insert? && op.offset == w.base + |w.slots|
  {
    hide Valid, Refines;
    ValidShape(w);
    if op.Next? {
      var l := SomeLog(w);
      RefinesShape(w, l);
      NextRefines(w, l);
    }
  }

  /** Every reservation of a guarded run is answered with an offset or with full. */
  lemma {:induction false} ReservationsAnswered(w: Window, ops: seq<Op>, i: nat)
    requires Valid(w) && SafeRun(w, ops) && i < |ops| && ops[i].Next?
    ensures WinRun(w, ops).1[i].Reserved? || WinRun(w, ops).1[i].Full?
    decreases |ops|
  {
    hide Valid, Refines, StepSafe, WinStep, InBounds;
    if i == 0 {
      var l := SomeLog(w);
      RefinesShape(w, l);
      StepRefines(w, l, ops[0]);
      assert WinRun(w, ops).1[0] == WinStep(w, ops[0]).1;
    } else {
      StepValidIff(w, ops[0]);
      ReservationsAnswered(WinStep(w, ops[0]).0, ops[1..], i - 1);
    }
  }

  // --- Runs without counted discards need no guard ---

  predicate Quiet(op: Op) {
    op.Discard? ==> op.count == 0
  }

  predicate Unmarked(w: Window) {
    forall i | 0 <= i < |w.slots| :: !w.slots[i].discarded
  }

  lemma QuietStepSafe(w: Window, op: Op)
    requires Valid(w) && Unmarked(w) && Quiet(op)
    ensures StepSafe(w, op) && Unmarked(WinStep(w, op).0)
  {
  }

  /** The queues of sessions and of subscription events only slide; for such runs both guards hold by themselves. */
  lemma {:induction false} QuietRunSafe(w: Window, ops: seq<Op>)
    requires Valid(w) && Unmarked(w) && forall i | 0 <= i < |ops| :: Quiet(ops[i])
    ensures SafeRun(w, ops)
    decreases |ops|
  {
    hide Valid, Unmarked, StepSafe, WinStep;
    ValidShape(w);
    if ops != [] {
      QuietStepSafe(w, ops[0]);
      StepValidIff(w, ops[0]);
      QuietRunSafe(WinStep(w, ops[0]).0, ops[1..]);
    }
  }

  /** Driven only through reservations, answers, reads and slides, a new window never becomes inconsistent. */
  lemma QuietRunsConsistent(initialSize: nat, maxSize: nat, ops: seq<Op>)
    requires forall i | 0 <= i < |ops| :: Quiet(ops[i])
    ensures SafeRun(NewWindow(initialSize, maxSize), ops)
    ensures Valid(WinRun(NewWindow(initialSize, maxSize), ops).0)
  {
    NewRefines(initialSize, maxSize);
    QuietRunSafe(NewWindow(initialSize, maxSize), ops);
    WindowIsALog(initialSize, maxSize, ops);
  }
}
