/**
 Runs on which the window, as written, breaks its promise, for windows of every size large enough,
 the 16 slots of a queue's window among them. Each run takes a step outside the exact guards of
 WindowRefinement.StepValidIff.
 */
module WindowFaults {
  import opened Basics
  import opened Mailbox
  import opened SlidingWindows

  // --- Runs ---

  /** The run takes w to w', with these replies. */
  predicate Goes(w: Window, ops: seq<Op>, replies: seq<Reply>, w': Window)
    decreases |ops|
  {
    if ops == [] then replies == [] && w' == w
    else
      && InBounds(w) && replies != [] && WinStep(w, ops[0]).1 == replies[0]
      && Goes(WinStep(w, ops[0]).0, ops[1..], replies[1..], w')
  }

  lemma {:induction false} GoesReplay(w: Window, ops: seq<Op>, replies: seq<Reply>, w': Window)
    requires Goes(w, ops, replies, w')
    ensures Replay(w, ops) == replies
    decreases |ops|
  {
    if ops != [] { GoesReplay(WinStep(w, ops[0]).0, ops[1..], replies[1..], w'); }
  }

  lemma {:induction false} GoesOn(
      w: Window, a: seq<Op>, ra: seq<Reply>, w1: Window, b: seq<Op>, rb: seq<Reply>, w2: Window)
    requires Goes(w, a, ra, w1) && Goes(w1, b, rb, w2)
    ensures Goes(w, a + b, ra + rb, w2)
    decreases |a|
  {
    hide WinStep, InBounds;
    if a == [] {
      assert a + b == b && ra + rb == rb;
    } else {
      assert (a + b)[0] == a[0] && (a + b)[1..] == a[1..] + b;
      assert (ra + rb)[0] == ra[0] && (ra + rb)[1..] == ra[1..] + rb;
      GoesOn(WinStep(w, a[0]).0, a[1..], ra[1..], w1, b, rb, w2);
    }
  }

  lemma GoesOne(w: Window, op: Op)
    requires InBounds(w)
    ensures Goes(w, [op], [WinStep(w, op).1], WinStep(w, op).0)
  {
    assert [op][1..] == [];
  }

  /** One more step of a run. */
  lemma Then(w: Window, ops: seq<Op>, replies: seq<Reply>, w1: Window, op: Op)
    requires Goes(w, ops, replies, w1) && InBounds(w1)
    ensures Goes(w, ops + [op], replies + [WinStep(w1, op).1], WinStep(w1, op).0)
  {
    hide Goes, WinStep;
    GoesOne(w1, op);
    GoesOn(w, ops, replies, w1, [op], [WinStep(w1, op).1], WinStep(w1, op).0);
  }

  // --- A discarded answer moves the unset cursor too far ---

  predicate AllEmpty(e: seq<Slot>) {
    |e| >= 3 && forall i | 0 <= i < |e| :: e[i] == EMPTY
  }

  function Held(offset: nat): Slot {
    Slot(false, true, false, offset, "", "")
  }

  function Done(offset: nat, a: Answer): Slot {
    Slot(false, true, true, offset, a.value, a.kind)
  }

  lemma ReserveFirst(w: Window, e: seq<Slot>)
    requires InBounds(w) && AllEmpty(e) && w.slots == e && w.nextUnreserved == 0
    ensures WinStep(w, Next) == (w.(slots := e[0 := Held(w.base)], nextUnreserved := 1), Reserved(w.base))
  {
  }

  lemma AnswerFirst(max: nat, e: seq<Slot>, a: Answer)
    requires AllEmpty(e) && |e| <= max
    ensures WinStep(Window(max, 1, 0, 0, e[0 := Held(0)]), Insert(0, a))
         == (Window(max, 1, 1, 0, e[0 := Done(0, a)]), Stored)
  {
    var slots := e[0 := Done(0, a)];
    assert FirstFree(slots, 1) == 1 == FirstFree(slots, 0);
    assert e[0 := Held(0)][0 := Done(0, a)] == slots;
  }

  lemma ShiftFirst(s: Slot, e: seq<Slot>)
    requires AllEmpty(e)
    ensures ShiftedPrefix(e[0 := s], 1, |e|) == e
  {
  }

  /** The unset cursor is left at 1 with nothing reserved: it points past the next slot. */
  lemma DiscardAnswered(max: nat, e: seq<Slot>, a: Answer)
    requires AllEmpty(e) && |e| <= max
    ensures WinStep(Window(max, 1, 1, 0, e[0 := Done(0, a)]), Discard(0, 1)) == (Window(max, 0, 1, 1, e), Marked(1))
  {
    var gone := Done(0, a).(discarded := true);
    var m := Mark(Window(max, 1, 1, 0, e[0 := Done(0, a)]), 0, 1);
    assert m.slots == e[0 := gone];
    assert m == Window(max, 1, 2, 0, e[0 := gone]);
    assert SlideLimit(m, 1) == 1;
    ShiftFirst(gone, e);
  }

  lemma SlideOverOwed(max: nat, e: seq<Slot>, a: Answer)
    requires AllEmpty(e) && |e| <= max
    ensures WinStep(Window(max, 1, 1, 1, e[0 := Held(1)]), Slide(2)) == (Window(max, 0, 0, 2, e), Moved(1))
    ensures WinStep(Window(max, 0, 0, 2, e), Insert(1, a)).1 == OutOfWindow
  {
    var w := Window(max, 1, 1, 1, e[0 := Held(1)]);
    assert SlideLimit(w, 2) == 1;
    ShiftFirst(Held(1), e);
  }

  lemma NewIsEmpty(initialSize: nat, maxSize: nat)
    ensures var w := NewWindow(initialSize, maxSize);
            && w == Window(w.maxSize, 0, 0, 0, w.slots) && |w.slots| <= w.maxSize
            && (|w.slots| >= 3 ==> AllEmpty(w.slots))
  {
  }

  /** The state after an answered offset is discarded. */
  lemma Damage(initialSize: nat, maxSize: nat, a: Answer)
    requires |NewWindow(initialSize, maxSize).slots| >= 3
    ensures var w := NewWindow(initialSize, maxSize);
            Goes(w, [Next, Insert(0, a), Discard(0, 1)], [Reserved(0), Stored, Marked(1)],
                 Window(w.maxSize, 0, 1, 1, w.slots))
  {
    hide WinStep, Goes, NewWindow;
    NewIsEmpty(initialSize, maxSize);
    var w := NewWindow(initialSize, maxSize);
    var max, e := w.maxSize, w.slots;
    ReserveFirst(w, e);
    AnswerFirst(max, e, a);
    DiscardAnswered(max, e, a);
    GoesOne(w, Next);
    Then(w, [Next], [Reserved(0)], Window(max, 1, 0, 0, e[0 := Held(0)]), Insert(0, a));
    assert [Next] + [Insert(0, a)] == [Next, Insert(0, a)] && [Reserved(0)] + [Stored] == [Reserved(0), Stored];
    Then(w, [Next, Insert(0, a)], [Reserved(0), Stored], Window(max, 1, 1, 0, e[0 := Done(0, a)]), Discard(0, 1));
    assert [Next, Insert(0, a)] + [Discard(0, 1)] == [Next, Insert(0, a), Discard(0, 1)];
    assert [Reserved(0), Stored] + [Marked(1)] == [Reserved(0), Stored, Marked(1)];
  }

  /**
   Discarding the answered offset 0 leaves the unset cursor past the next slot, so the
   window later slides over offset 1 while it is still owed, and its answer is refused.
   */
  lemma DiscardLosesOwed(initialSize: nat, maxSize: nat, a: Answer)
    requires |NewWindow(initialSize, maxSize).slots| >= 3
    ensures Replay(NewWindow(initialSize, maxSize),
                   [Next, Insert(0, a), Discard(0, 1)] + [Next] + [Slide(2)] + [Insert(1, a)])
         == [Reserved(0), Stored, Marked(1)] + [Reserved(1)] + [Moved(1)] + [OutOfWindow]
  {
    hide WinStep, Goes, NewWindow;
    NewIsEmpty(initialSize, maxSize);
    var w := NewWindow(initialSize, maxSize);
    var max, e := w.maxSize, w.slots;
    var ops, replies := [Next, Insert(0, a), Discard(0, 1)], [Reserved(0), Stored, Marked(1)];
    Damage(initialSize, maxSize, a);
    var w3 := Window(max, 0, 1, 1, e);
    ReserveFirst(w3, e);
    SlideOverOwed(max, e, a);
    Then(w, ops, replies, w3, Next);
    Then(w, ops + [Next], replies + [Reserved(1)], Window(max, 1, 1, 1, e[0 := Held(1)]), Slide(2));
    Then(w, ops + [Next] + [Slide(2)], replies + [Reserved(1)] + [Moved(1)], Window(max, 0, 0, 2, e), Insert(1, a));
    GoesReplay(w, ops + [Next] + [Slide(2)] + [Insert(1, a)],
               replies + [Reserved(1)] + [Moved(1)] + [OutOfWindow], WinStep(Window(max, 0, 0, 2, e), Insert(1, a)).0);
  }

  /** Sliding from that state instead wraps the reservation cursor below zero. */
  lemma CursorWraps(initialSize: nat, maxSize: nat, a: Answer) returns (w': Window)
    requires |NewWindow(initialSize, maxSize).slots| >= 3
    ensures Goes(NewWindow(initialSize, maxSize), [Next, Insert(0, a), Discard(0, 1)] + [Slide(2)],
                 [Reserved(0), Stored, Marked(1)] + [Moved(1)], w')
    ensures w'.nextUnreserved == TWO_64 - 1
  {
    hide WinStep, Goes, NewWindow;
    NewIsEmpty(initialSize, maxSize);
    var w := NewWindow(initialSize, maxSize);
    Damage(initialSize, maxSize, a);
    var w3 := Window(w.maxSize, 0, 1, 1, w.slots);
    SlideWraps(w3);
    Then(w, [Next, Insert(0, a), Discard(0, 1)], [Reserved(0), Stored, Marked(1)], w3, Slide(2));
    w' := WinStep(w3, Slide(2)).0;
  }

  lemma SlideWraps(w: Window)
    requires InBounds(w) && w.nextUnreserved == 0 && w.nextUnset == 1 && w.base == 1
    ensures WinStep(w, Slide(2)).0.nextUnreserved == TWO_64 - 1 && WinStep(w, Slide(2)).1 == Moved(1)
  {
    assert SlideLimit(w, 2) == 1;
  }

  // --- Windows that hold no answers ---

  /**
   A window of base b with n offsets reserved, none answered; `gone` are the slots with a discard mark,
   reserved or not.
   */
  predicate Shows(w: Window, b: nat, n: nat, gone: set<nat>) {
    && InBounds(w) && w.base == b && w.nextUnreserved == n && w.nextUnset == 0
    && forall i | 0 <= i < |w.slots| :: SlotShows(w.slots[i], i, n, gone)
  }

  predicate SlotShows(s: Slot, i: nat, n: nat, gone: set<nat>) {
    !s.filled && (s.discarded <==> i in gone) && (s.reserved <==> i < n)
  }

  lemma ShowsNext(w: Window, b: nat, n: nat, gone: set<nat>)
    requires Shows(w, b, n, gone) && n + 1 < |w.slots|
    ensures var (w', r) := WinStep(w, Next);
            r == Reserved(b + n) && Shows(w', b, n + 1, gone) && |w'.slots| == |w.slots|
  {
    var w' := WinStep(w, Next).0;
    assert SlotShows(w.slots[n], n, n, gone);
    forall i | 0 <= i < |w'.slots| ensures SlotShows(w'.slots[i], i, n + 1, gone) {
      assert SlotShows(w.slots[i], i, n, gone);
    }
  }

  lemma ShowsMark(w: Window, b: nat, n: nat, gone: set<nat>, i: nat)
    requires Shows(w, b, n, gone) && 0 < i < n
    ensures var (w', r) := WinStep(w, Discard(b + i, 1));
            r == Marked(1) && Shows(w', b, n, gone + {i}) && |w'.slots| == |w.slots|
  {
    var w' := WinStep(w, Discard(b + i, 1)).0;
    assert w' == Mark(w, i, 1);
    forall j | 0 <= j < |w'.slots| ensures SlotShows(w'.slots[j], j, n, gone + {i}) {
      assert SlotShows(w.slots[j], j, n, gone);
    }
  }

  /** Where a slide by k takes the mark of slot i from: a vacated slot keeps its own. */
  function Source(i: nat, k: nat, size: nat): nat {
    if i + k < size then i + k else i
  }

  function Slid(gone: set<nat>, k: nat, size: nat): set<nat> {
    set i: nat | i < size && Source(i, k, size) in gone
  }

  /** Marking the base drags the unset cursor to the first unmarked slot, and the slide follows it. */
  lemma MarkShown(w: Window, b: nat, n: nat, gone: set<nat>, k: nat)
    requires Shows(w, b, n, gone) && 1 <= k <= n && k !in gone && forall i | 1 <= i < k :: i in gone
    ensures var m := Mark(w, 0, 1);
            && m == w.(slots := MarkSlots(w.slots, 0, 1), nextUnset := k)
            && SlideLimit(m, b + 1) == k
  {
    var m := Mark(w, 0, 1);
    assert m.slots == MarkSlots(w.slots, 0, 1);
    forall i | 0 <= i < k ensures m.slots[i].discarded {
      assert SlotShows(w.slots[i], i, n, gone);
    }
    assert SlotShows(w.slots[k], k, n, gone);
    assert m.slots[k] == w.slots[k] && Free(m.slots[k]);
  }

  lemma ShowsDrop(w: Window, b: nat, n: nat, gone: set<nat>, k: nat)
    requires Shows(w, b, n, gone) && 1 <= k <= n && k !in gone && forall i | 1 <= i < k :: i in gone
    requires |w.slots| - k > 0
    ensures var (w', r) := WinStep(w, Discard(b, 1));
            r == Marked(1) && Shows(w', b + k, n - k, Slid(gone, k, |w.slots|)) && |w'.slots| == |w.slots|
  {
    hide Mark, SlideLimit;
    MarkShown(w, b, n, gone, k);
    var m, size := Mark(w, 0, 1), |w.slots|;
    var w' := WinStep(w, Discard(b, 1)).0;
    assert w' == Shift(m, k);
    forall i | 0 <= i < size ensures SlotShows(w'.slots[i], i, n - k, Slid(gone, k, size)) {
      var j := Source(i, k, size);
      assert j > 0 && SlotShows(w.slots[j], j, n, gone) && m.slots[j] == w.slots[j];
    }
  }

  /** The replies o, o + 1, ..., m of them. */
  function HandedOutFrom(o: nat, m: nat): (rs: seq<Reply>)
    ensures |rs| == m
  {
    if m == 0 then [] else HandedOutFrom(o, m - 1) + [Reserved(o + m - 1)]
  }

  lemma {:induction false} NextMany(w: Window, b: nat, n: nat, gone: set<nat>, m: nat) returns (w': Window)
    requires Shows(w, b, n, gone) && n + m < |w.slots|
    ensures Goes(w, Nexts(m), HandedOutFrom(b + n, m), w')
    ensures Shows(w', b, n + m, gone) && |w'.slots| == |w.slots|
    decreases m
  {
    hide WinStep, Shows;
    if m == 0 {
      w' := w;
    } else {
      var w1 := NextMany(w, b, n, gone, m - 1);
      ShowsUsable(w1, b, n + m - 1, gone);
      ShowsNext(w1, b, n + m - 1, gone);
      Then(w, Nexts(m - 1), HandedOutFrom(b + n, m - 1), w1, Next);
      assert Nexts(m - 1) + [Next] == Nexts(m);
      w' := WinStep(w1, Next).0;
    }
  }

  lemma ShowsUsable(w: Window, b: nat, n: nat, gone: set<nat>)
    requires Shows(w, b, n, gone)
    ensures InBounds(w) && w.base == b && n < |w.slots|
  {
  }

  lemma NewShows(initialSize: nat, maxSize: nat)
    ensures Shows(NewWindow(initialSize, maxSize), 0, 0, {})
  {
  }

  // --- A slide leaves a mark behind ---

  /** s - 1 reservations fill the window; discarding the last, then 1, then 0 slides by two. */
  function MarkingOps(s: nat): seq<Op>
    requires s >= 6
  {
    Nexts(s - 1) + [Discard(s - 2, 1)] + [Discard(1, 1)] + [Discard(0, 1)] + Nexts(2)
  }

  function MarkingReplies(s: nat): seq<Reply>
    requires s >= 6
  {
    HandedOutFrom(0, s - 1) + [Marked(1)] + [Marked(1)] + [Marked(1)] + HandedOutFrom(s - 1, 2)
  }

  /** Offset s, just handed out, sits in slot s - 2 and carries the mark of offset s - 2. */
  lemma MarkStays(initialSize: nat, maxSize: nat, s: nat) returns (w': Window)
    requires |NewWindow(initialSize, maxSize).slots| == s >= 6
    ensures Goes(NewWindow(initialSize, maxSize), MarkingOps(s), MarkingReplies(s), w')
    ensures Shows(w', 2, s - 1, {s - 4, s - 2}) && |w'.slots| == s
  {
    hide WinStep, Shows, Goes, NewWindow, Nexts, HandedOutFrom;
    var w := NewWindow(initialSize, maxSize);
    NewShows(initialSize, maxSize);
    var w1 := NextMany(w, 0, 0, {}, s - 1);
    ShowsUsable(w1, 0, s - 1, {});
    ShowsMark(w1, 0, s - 1, {}, s - 2);
    var ops, replies := Nexts(s - 1), HandedOutFrom(0, s - 1);
    Then(w, ops, replies, w1, Discard(s - 2, 1));
    var w2 := WinStep(w1, Discard(s - 2, 1)).0;
    assert {} + {s - 2} == {s - 2};
    ShowsUsable(w2, 0, s - 1, {s - 2});
    ShowsMark(w2, 0, s - 1, {s - 2}, 1);
    Then(w, ops + [Discard(s - 2, 1)], replies + [Marked(1)], w2, Discard(1, 1));
    var w3 := WinStep(w2, Discard(1, 1)).0;
    assert {s - 2} + {1} == {s - 2, 1};
    ShowsUsable(w3, 0, s - 1, {s - 2, 1});
    ShowsDrop(w3, 0, s - 1, {s - 2, 1}, 2);
    Then(w, ops + [Discard(s - 2, 1)] + [Discard(1, 1)], replies + [Marked(1)] + [Marked(1)], w3, Discard(0, 1));
    var w4 := WinStep(w3, Discard(0, 1)).0;
    assert Slid({s - 2, 1}, 2, s) == {s - 4, s - 2};
    w' := NextMany(w4, 2, s - 3, {s - 4, s - 2}, 2);
    GoesOn(w, ops + [Discard(s - 2, 1)] + [Discard(1, 1)] + [Discard(0, 1)],
           replies + [Marked(1)] + [Marked(1)] + [Marked(1)], w4, Nexts(2), HandedOutFrom(s - 1, 2), w');
  }

  /**
   A slide does not clear the discard marks of the slots it vacates, so the new offset s
   is born discarded and its answer is refused although it was never set.
   */
  lemma SlideLeavesMark(initialSize: nat, maxSize: nat, s: nat, a: Answer)
    requires |NewWindow(initialSize, maxSize).slots| == s >= 6
    ensures Replay(NewWindow(initialSize, maxSize), MarkingOps(s) + [Insert(s, a)]) == MarkingReplies(s) + [AlreadySet]
  {
    hide WinStep, Shows, Goes, NewWindow, MarkingOps, MarkingReplies;
    var w := NewWindow(initialSize, maxSize);
    var w1 := MarkStays(initialSize, maxSize, s);
    ShowsUsable(w1, 2, s - 1, {s - 4, s - 2});
    RefusedAnswer(w1, 2, s - 1, {s - 4, s - 2}, s - 2, a);
    Then(w, MarkingOps(s), MarkingReplies(s), w1, Insert(s, a));
    GoesReplay(w, MarkingOps(s) + [Insert(s, a)], MarkingReplies(s) + [AlreadySet], WinStep(w1, Insert(s, a)).0);
  }

  lemma RefusedAnswer(w: Window, b: nat, n: nat, gone: set<nat>, i: nat, a: Answer)
    requires Shows(w, b, n, gone) && i < n && i in gone
    ensures WinStep(w, Insert(b + i, a)).1 == AlreadySet
  {
    assert SlotShows(w.slots[i], i, n, gone);
  }

  // --- Two more runs on the queue's own window ---

  /** The offset just past the array is indexed out of range. */
  lemma PastTheArray(initialSize: nat, maxSize: nat, a: Answer)
    ensures var w := NewWindow(initialSize, maxSize);
            Replay(w, [Insert(|w.slots|, a)]) == [Panicked]
  {
    hide WinStep;
    var w := NewWindow(initialSize, maxSize);
    GoesOne(w, Insert(|w.slots|, a));
    PastIsPanic(w, a);
    GoesReplay(w, [Insert(|w.slots|, a)], [Panicked], WinStep(w, Insert(|w.slots|, a)).0);
  }

  lemma PastIsPanic(w: Window, a: Answer)
    requires InBounds(w)
    ensures WinStep(w, Insert(w.base + |w.slots|, a)).1 == Panicked
  {
  }

  /** Offset 1 answered while offset 0 is still owed. */
  lemma AnswerSecond(initialSize: nat, maxSize: nat, a: Answer) returns (w': Window)
    requires |NewWindow(initialSize, maxSize).slots| >= 3
    ensures Goes(NewWindow(initialSize, maxSize), Nexts(2) + [Insert(1, a)], HandedOutFrom(0, 2) + [Stored], w')
    ensures w'.base == 0 && |w'.slots| >= 3
    ensures Visible(w'.slots[1]) && w'.slots[1].offset == 1 && Answer(w'.slots[1].kind, w'.slots[1].value) == a
    ensures forall i | 2 <= i < |w'.slots| :: !w'.slots[i].filled
  {
    var w := NewWindow(initialSize, maxSize);
    var w1, w2 := WinStep(w, Next).0, WinStep(WinStep(w, Next).0, Next).0;
    w' := WinStep(w2, Insert(1, a)).0;
    assert w1.slots == w.slots[0 := Held(0)];
    assert w2.slots == w1.slots[1 := Held(1)];
    assert WinStep(w2, Insert(1, a)).1 == Stored;
    assert w'.slots == w2.slots[1 := Done(1, a)];
    TwoReserved(w, w1, w2);
    Then(w, Nexts(2), HandedOutFrom(0, 2), w2, Insert(1, a));
  }

  lemma TwoReserved(w: Window, w1: Window, w2: Window)
    requires InBounds(w) && InBounds(w1) && WinStep(w, Next) == (w1, Reserved(0)) && WinStep(w1, Next) == (w2, Reserved(1))
    ensures Goes(w, Nexts(2), HandedOutFrom(0, 2), w2)
  {
    hide WinStep;
    GoesOne(w, Next);
    Then(w, [Next], [Reserved(0)], w1, Next);
    assert Nexts(1) == [Next] && Nexts(2) == [Next] + [Next] && HandedOutFrom(0, 1) == [Reserved(0)];
  }

  /** Asked for everything from offset 1 on, the code returns nothing: the end of the range wraps to 0. */
  lemma EverythingReadsNothing(initialSize: nat, maxSize: nat, a: Answer) returns (w': Window)
    requires |NewWindow(initialSize, maxSize).slots| >= 3
    ensures Goes(NewWindow(initialSize, maxSize), Nexts(2) + [Insert(1, a)], HandedOutFrom(0, 2) + [Stored], w')
    ensures WinGet(w', 1, TWO_64 - 1) == Found(0, [])
    ensures WinRetrieve(w', 1, TWO_64 - 1) == Found(0, [Element(1, a)])
  {
    hide Goes, Nexts, HandedOutFrom, NewWindow;
    w' := AnswerSecond(initialSize, maxSize, a);
    OnlySecond(w'.slots, a, Min(TWO_64, |w'.slots|));
  }

  lemma {:induction false} OnlySecond(s: seq<Slot>, a: Answer, n: nat)
    requires 2 <= n <= |s| && Visible(s[1]) && s[1].offset == 1 && Answer(s[1].kind, s[1].value) == a
    requires forall i | 2 <= i < |s| :: !s[i].filled
    ensures Collect(s, 1, n) == [Element(1, a)]
    decreases n
  {
    if n > 2 { OnlySecond(s, a, n - 1); } else { assert Collect(s, 1, 1) == []; }
  }
}
