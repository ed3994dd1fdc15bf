/** The queue worker's requests, as compositions of window operations. */
module MessageHandlers {
  import opened Basics
  import opened Mailbox
  import opened SlidingWindows
  import opened WindowRefinement
  import opened WindowObject

  /**
   A discard request first slides, unless it keeps what lies before, and then marks. A slide
   that wraps a cursor leaves a window no marking is modelled for; it is reported as a panic.
   */
  function HandleDiscard(w: Window, keepPrevious: bool, offset: nat, count: nat): (Window, Reply)
    requires InBounds(w)
  {
    if keepPrevious then WinDiscard(w, offset, count)
    else
      var (slid, r) := WinSlide(w, offset);
      if r.OutOfWindow? then (slid, r)
      else if count == 0 then (slid, Marked(0))
      else if !InBounds(slid) then (slid, Panicked)
      else WinDiscard(slid, offset, count)
  }

  /**
   A discard of count > 0 elements from `offset` that does not keep what lies before is
   refused exactly when the offset is outside the window, or when it is itself already
   discarded with nothing owed before it, because the slide then passes it.
   */
  lemma DiscardRefusedIff(w: Window, l: Log, offset: nat, count: nat)
    requires Refines(w, l) && SlideSafe(w, offset) && count > 0
    ensures HandleDiscard(w, false, offset, count).1.OutOfWindow? <==>
              || offset < w.base
              || offset > w.base + |w.slots|
              || (offset < FirstOpen(l.entries, l.base) && l.entries[offset].discarded)
  {
    hide Refines, Valid, WinSlide, LogSlide, MarkAndSlide, SlideSafe;
    RefinesShape(w, l);
    SlideRefines(w, l, offset);
    var w' := WinSlide(w, offset).0;
    RefinesShape(w', LogSlide(l, offset).0);
    SlideReplyIs(l, offset);
    if w.base <= offset <= w.base + |w.slots| { SlideStops(l, offset); }
  }

  /**
   An unkept discard that is not refused lets go of every offset before it up to the first answer
   owed, and past that only of discarded ones; it marks exactly the handed-out offsets of its range,
   and no answer changes.
   */
  lemma DiscardRequestEffect(w: Window, l: Log, offset: nat, count: nat) returns (l': Log)
    requires Refines(w, l) && SlideSafe(w, offset) && DiscardSafe(WinSlide(w, offset).0, offset, count)
    requires count > 0 && !HandleDiscard(w, false, offset, count).1.OutOfWindow? && offset <= |l.entries|
    ensures Refines(HandleDiscard(w, false, offset, count).0, l')
    ensures l'.base >= Min(offset, FirstOpen(l.entries, l.base))
    ensures l'.base <= |l'.entries| && forall o | l.base <= o < l'.base :: o < offset || l'.entries[o].discarded
    ensures |l'.entries| == |l.entries|
    ensures forall o | 0 <= o < |l.entries| ::
              && l'.entries[o].answer == l.entries[o].answer
              && (l'.entries[o].discarded <==> l.entries[o].discarded || offset <= o < offset + count)
  {
    hide Refines, Valid, WinSlide, LogSlide, LogDiscard, WinDiscard, SlideSafe, DiscardSafe;
    RefinesShape(w, l);
    SlideRefines(w, l, offset);
    SlideReplyIs(l, offset);
    var w1, l1 := WinSlide(w, offset).0, LogSlide(l, offset).0;
    RefinesShape(w1, l1);
    DiscardRefines(w1, l1, offset, count);
    DiscardReplyIs(l1, offset, count);
    SlideKeepsOwed(l, offset);
    SlideExact(l, offset);
    DiscardExact(l1, offset, count);
    DiscardExtends(l1, offset, count);
    l' := LogDiscard(l1, offset, count).0;
  }

  /**
   A discard that keeps what lies before marks exactly the handed-out offsets of its range, lets go of nothing
   that is not discarded, and of nothing at all unless it starts at the base; no answer changes.
   */
  lemma KeptDiscardEffect(w: Window, l: Log, offset: nat, count: nat) returns (l': Log)
    requires Refines(w, l) && DiscardSafe(w, offset, count) && w.base <= offset <= w.base + |w.slots|
    ensures Refines(HandleDiscard(w, true, offset, count).0, l')
    ensures |l'.entries| == |l.entries| && l.base <= l'.base <= |l'.entries|
    ensures forall o | 0 <= o < |l.entries| ::
              && l'.entries[o].answer == l.entries[o].answer
              && (l'.entries[o].discarded <==> l.entries[o].discarded || offset <= o < offset + count)
    ensures forall o | l.base <= o < l'.base :: l'.entries[o].discarded
    ensures l'.base != l.base ==> offset == l.base
    ensures HandleDiscard(w, true, offset, count).1 == Marked(Max(Min(offset + count, |l.entries|) - offset, 0))
  {
    hide Refines, Valid, LogDiscard, WinDiscard, DiscardSafe;
    RefinesShape(w, l);
    DiscardRefines(w, l, offset, count);
    DiscardExact(l, offset, count);
    l' := LogDiscard(l, offset, count).0;
  }

  lemma DiscardReplyIs(l: Log, offset: nat, count: nat)
    requires LogValid(l) && count > 0
    ensures LogDiscard(l, offset, count).1.OutOfWindow? <==> offset < l.base || offset > l.base + l.capacity
  {
  }

  lemma SlideReplyIs(l: Log, offset: nat)
    requires LogValid(l)
    ensures LogSlide(l, offset).1.OutOfWindow? <==> offset > l.base + l.capacity
    ensures offset < l.base || offset > l.base + l.capacity ==> LogSlide(l, offset).0 == l
    ensures LogSlide(l, offset).0.capacity == l.capacity
  {
  }

  lemma SlideStops(l: Log, offset: nat)
    requires LogValid(l) && l.base <= offset <= l.base + l.capacity
    ensures offset < LogSlide(l, offset).0.base <==>
              offset < FirstOpen(l.entries, l.base) && l.entries[offset].discarded
    ensures offset <= LogSlide(l, offset).0.base + l.capacity
  {
  }

  /** The same request on the log. */
  function LogHandleDiscard(l: Log, keepPrevious: bool, offset: nat, count: nat): (r: (Log, Reply))
    requires LogValid(l)
    ensures LogValid(r.0) && Extends(l, r.0)
  {
    DiscardExtends(l, offset, count);
    SlideKeepsOwed(l, offset);
    if keepPrevious then LogDiscard(l, offset, count)
    else
      var (slid, r) := LogSlide(l, offset);
      if r.OutOfWindow? then (slid, r)
      else if count == 0 then (slid, Marked(0))
      else
        DiscardExtends(slid, offset, count);
        LogDiscard(slid, offset, count)
  }

  /** The guards of the slide and of the marking it takes. */
  predicate RequestSafe(w: Window, keepPrevious: bool, offset: nat, count: nat)
    requires InBounds(w)
  {
    if keepPrevious then DiscardSafe(w, offset, count)
    else
      && SlideSafe(w, offset)
      && (count > 0 && InBounds(WinSlide(w, offset).0) ==> DiscardSafe(WinSlide(w, offset).0, offset, count))
  }

  lemma HandleDiscardRefines(w: Window, l: Log, keepPrevious: bool, offset: nat, count: nat)
    requires Refines(w, l) && RequestSafe(w, keepPrevious, offset, count)
    ensures LogValid(l)
    ensures Refines(HandleDiscard(w, keepPrevious, offset, count).0, LogHandleDiscard(l, keepPrevious, offset, count).0)
    ensures HandleDiscard(w, keepPrevious, offset, count).1 == LogHandleDiscard(l, keepPrevious, offset, count).1
  {
    hide Refines, Valid, WinSlide, LogSlide, LogDiscard, WinDiscard, SlideSafe, DiscardSafe;
    RefinesShape(w, l);
    if keepPrevious {
      DiscardRefines(w, l, offset, count);
    } else {
      SlideRefines(w, l, offset);
      var w1, l1 := WinSlide(w, offset).0, LogSlide(l, offset).0;
      RefinesShape(w1, l1);
      if count > 0 { DiscardRefines(w1, l1, offset, count); }
    }
  }

  class MessageHandler {
    const window: SlidingWindow

    constructor ()
      ensures window.Value() == NewWindow(0, 1024) && fresh(window) && fresh(window.elements)
    {
      window := new SlidingWindow(0, 1024);
    }

    method Discard(keepPrevious: bool, offset: nat, count: nat) returns (r: Reply)
      requires InBounds(window.Value())
      modifies window, window.elements
      ensures (window.Value(), r) == HandleDiscard(old(window.Value()), keepPrevious, offset, count)
    {
      if !keepPrevious {
        r := window.Slide(offset);
        if r.OutOfWindow? { return; }
        if count == 0 { return Marked(0); }
        if !(window.nextUnreserved < window.elements.Length) { return Panicked; }
      }
      r := window.Discard(offset, count);
    }
  }
}
