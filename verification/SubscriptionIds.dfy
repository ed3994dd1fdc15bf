/**
 The queue that hands out subscription ids: subscribing reserves the next id and unsubscribing discards
 that one id, so the window sees reservations and discards of count 1 and never an answer.
 */
module SubscriptionIds {
  import opened Mailbox
  import opened SlidingWindows
  import opened WindowRefinement
  import opened WindowFaults

  predicate Traffic(op: Op) {
    op.Next? || (op.Discard? && op.count == 1)
  }

  /** Nothing is answered, and the id at the base has not been discarded. */
  predicate Live(w: Window) {
    && (forall i | 0 <= i < |w.slots| :: !w.slots[i].filled)
    && (w.slots != [] ==> !w.slots[0].discarded)
  }

  /** How many ids go when the one at the base does: it and those already discarded after it. */
  function Leading(w: Window): nat
    requires InBounds(w)
  {
    if w.nextUnreserved == 0 then 0 else SkipDiscarded(w.slots, 1, w.nextUnreserved)
  }

  /** Unsubscribing the id at the base leaves no mark behind if the slots it vacates at the end hold none. */
  predicate Unclipped(w: Window, op: Op)
    requires InBounds(w)
  {
    op.Discard? && op.offset == w.base ==> TailUndiscarded(w, Leading(w))
  }

  /** The unset cursor stays at the base. */
  lemma CursorAtBase(w: Window)
    requires Valid(w) && Live(w)
    ensures w.nextUnset == 0
  {
  }

  /** Marking the base drags the unset cursor over everything discarded after it, and the slide goes that far. */
  lemma MarkBase(w: Window)
    requires Valid(w) && Live(w)
    ensures SlideLimit(Mark(w, 0, 1), w.base + 1) == Leading(w) < |w.slots|
    ensures TailUndiscarded(Mark(w, 0, 1), Leading(w)) <==> TailUndiscarded(w, Leading(w))
  {
    CursorAtBase(w);
    var m, k := Mark(w, 0, 1), Leading(w);
    if w.nextUnreserved > 0 {
      assert Clean(w.slots[w.nextUnreserved]);
      assert m.slots[0].discarded && !Free(m.slots[0]);
      assert forall j | 1 <= j < |w.slots| :: m.slots[j] == w.slots[j];
      assert Free(m.slots[k]);
      assert m.nextUnset == k;
    }
  }

  /** Unsubscribing keeps the window consistent exactly when it leaves no mark behind. */
  lemma UnsubscribeSafeIff(w: Window, id: nat)
    requires Valid(w) && Live(w)
    ensures StepSafe(w, Discard(id, 1)) <==> Unclipped(w, Discard(id, 1))
  {
    hide Valid, Live, Mark, Leading, TailUndiscarded, SlideLimit;
    ValidShape(w);
    CursorAtBase(w);
    MarkBase(w);
  }

  lemma UnsubscribeKeepsLive(w: Window, id: nat)
    requires Valid(w) && Live(w)
    ensures Live(WinDiscard(w, id, 1).0)
  {
    hide SlideLimit, Leading;
    CursorAtBase(w);
    MarkBase(w);
    if id == w.base {
      var m, k := Mark(w, 0, 1), Leading(w);
      LeadingStops(w);
      if k > 0 { assert Shift(m, k).slots[0] == m.slots[k]; }
    }
  }

  lemma LeadingStops(w: Window)
    requires Valid(w) && Live(w)
    ensures var k := Leading(w); k < |w.slots| && !w.slots[k].discarded && (w.nextUnreserved > 0 ==> k > 0)
  {
    assert Clean(w.slots[w.nextUnreserved]);
  }

  lemma SubscribeKeepsLive(w: Window)
    requires Valid(w) && Live(w)
    ensures Live(WinNext(w).0)
  {
  }

  /** Every unsubscription of the run meets Unclipped. */
  predicate UnclippedRun(w: Window, ops: seq<Op>)
    decreases |ops|
  {
    ops == [] || (InBounds(w) && Unclipped(w, ops[0]) && UnclippedRun(WinStep(w, ops[0]).0, ops[1..]))
  }

  /** For subscription traffic the guards of the window come down to that one condition. */
  lemma {:induction false} TrafficSafeIff(w: Window, ops: seq<Op>)
    requires Valid(w) && Live(w) && forall i | 0 <= i < |ops| :: Traffic(ops[i])
    ensures SafeRun(w, ops) <==> UnclippedRun(w, ops)
    decreases |ops|
  {
    hide Valid, Live, StepSafe, Unclipped, WinNext, WinDiscard;
    ValidShape(w);
    if ops != [] {
      var op := ops[0];
      if op.Discard? {
        UnsubscribeSafeIff(w, op.offset);
        UnsubscribeKeepsLive(w, op.offset);
      } else {
        SubscribeKeepsLive(w);
        AlwaysSafe(w);
      }
      if StepSafe(w, op) {
        StepValidIff(w, op);
        TrafficSafeIff(WinStep(w, op).0, ops[1..]);
      }
    }
  }

  lemma AlwaysSafe(w: Window)
    requires InBounds(w)
    ensures StepSafe(w, Next) && Unclipped(w, Next)
  {
  }

  /**
   From a new window, unsubscribing behaves as the unbounded log, ids count 0, 1, 2, ... and no id is let go
   before it was unsubscribed, whenever every unsubscription of the base meets the condition.
   */
  lemma SubscriptionsAreALog(initialSize: nat, maxSize: nat, ops: seq<Op>)
    requires forall i | 0 <= i < |ops| :: Traffic(ops[i])
    requires UnclippedRun(NewWindow(initialSize, maxSize), ops)
    ensures var w := NewWindow(initialSize, maxSize);
            var l := Log([], 0, |w.slots|, w.maxSize);
            && SafeRun(w, ops) && LogValid(l)
            && WinRun(w, ops).1 == LogRun(l, ops).1
            && WinRun(w, ops).0.base == LogRun(l, ops).0.base
  {
    NewRefines(initialSize, maxSize);
    TrafficSafeIff(NewWindow(initialSize, maxSize), ops);
    WindowIsALog(initialSize, maxSize, ops);
  }

  // --- Enough room ---

  function Subscriptions(ops: seq<Op>): nat {
    if ops == [] then 0 else (if ops[0].Next? then 1 else 0) + Subscriptions(ops[1..])
  }

  /** While no more than half of the slots are reserved, the vacated ones are all unreserved, and hold no mark. */
  lemma HalfIsUnclipped(w: Window, op: Op)
    requires Valid(w) && 2 * w.nextUnreserved <= |w.slots|
    ensures Unclipped(w, op)
  {
    forall i | |w.slots| - Leading(w) <= i < |w.slots| ensures !w.slots[i].discarded {
      assert Clean(w.slots[i]);
    }
  }

  lemma UnsubscribeShrinks(w: Window, id: nat)
    requires Valid(w) && Live(w)
    ensures var w' := WinDiscard(w, id, 1).0; w'.nextUnreserved <= w.nextUnreserved && |w'.slots| == |w.slots|
  {
    hide SlideLimit, Leading;
    ValidShape(w);
    MarkLimit(w, 1);
  }

  lemma SubscribeGrows(w: Window)
    requires Valid(w)
    ensures var w' := WinNext(w).0; w'.nextUnreserved <= w.nextUnreserved + 1 && |w'.slots| >= |w.slots|
  {
  }

  /** If all ids of the run together with those held fit in half of the window, no unsubscription goes wrong. */
  lemma {:induction false} FewSubscriptionsUnclipped(w: Window, ops: seq<Op>)
    requires Valid(w) && Live(w) && forall i | 0 <= i < |ops| :: Traffic(ops[i])
    requires 2 * (w.nextUnreserved + Subscriptions(ops)) <= |w.slots|
    ensures UnclippedRun(w, ops)
    decreases |ops|
  {
    hide Valid, Live, StepSafe, Unclipped, WinNext, WinDiscard;
    ValidShape(w);
    if ops != [] {
      var op := ops[0];
      HalfIsUnclipped(w, op);
      if op.Discard? {
        UnsubscribeSafeIff(w, op.offset);
        UnsubscribeKeepsLive(w, op.offset);
        UnsubscribeShrinks(w, op.offset);
      } else {
        SubscribeKeepsLive(w);
        SubscribeGrows(w);
        AlwaysSafe(w);
      }
      StepValidIff(w, op);
      FewSubscriptionsUnclipped(WinStep(w, op).0, ops[1..]);
    }
  }

  lemma NewIsLive(initialSize: nat, maxSize: nat)
    ensures Valid(NewWindow(initialSize, maxSize)) && Live(NewWindow(initialSize, maxSize))
  {
  }

  /** A session that subscribes at most eight times has the unbounded log's replies, whatever it unsubscribes. */
  lemma EightSubscriptionsAreSafe(ops: seq<Op>)
    requires (forall i | 0 <= i < |ops| :: Traffic(ops[i])) && Subscriptions(ops) <= 8
    ensures var w := NewWindow(0, 1024);
            && SafeRun(w, ops) && LogValid(Log([], 0, 16, 1024))
            && WinRun(w, ops).1 == LogRun(Log([], 0, 16, 1024), ops).1
  {
    hide SafeRun, WinRun, LogRun, UnclippedRun, Traffic, Subscriptions, NewWindow;
    NewIsLive(0, 1024);
    SixteenSlots();
    FewSubscriptionsUnclipped(NewWindow(0, 1024), ops);
    SubscriptionsAreALog(0, 1024, ops);
  }

  // --- A live id lost ---

  /** Discards of b, b + 1, ..., m of them. */
  function Drops(b: nat, m: nat): (ops: seq<Op>)
    ensures |ops| == m && forall i | 0 <= i < m :: ops[i] == Discard(b + i, 1)
  {
    if m == 0 then [] else Drops(b, m - 1) + [Discard(b + m - 1, 1)]
  }

  function AllMarked(m: nat): (rs: seq<Reply>)
    ensures |rs| == m
  {
    if m == 0 then [] else AllMarked(m - 1) + [Marked(1)]
  }

  /** Unsubscribing the id at the base again and again, up to just below the next mark. */
  lemma {:induction false} DropMany(w: Window, b: nat, n: nat, p: nat, m: nat) returns (w': Window)
    requires Shows(w, b, n, {p, p + 2}) && m < p && m < n && p + 3 < |w.slots|
    ensures Goes(w, Drops(b, m), AllMarked(m), w')
    ensures Shows(w', b + m, n - m, {p - m, p - m + 2}) && |w'.slots| == |w.slots|
    decreases m
  {
    hide WinStep, Shows;
    if m == 0 {
      w' := w;
    } else {
      var w1 := DropMany(w, b, n, p, m - 1);
      var q, size := p - m + 1, |w.slots|;
      ShowsUsable(w1, b + m - 1, n - m + 1, {q, q + 2});
      ShowsDrop(w1, b + m - 1, n - m + 1, {q, q + 2}, 1);
      assert Slid({q, q + 2}, 1, size) == {q - 1, q + 1};
      Then(w, Drops(b, m - 1), AllMarked(m - 1), w1, Discard(b + m - 1, 1));
      w' := WinStep(w1, Discard(b + m - 1, 1)).0;
    }
  }

  /** After the marking run, ids 2 to s - 3 and s - 1 are unsubscribed, s - 2 having been so before. */
  function LosingOps(s: nat): seq<Op>
    requires s >= 6
  {
    MarkingOps(s) + Drops(2, s - 5) + [Discard(s - 3, 1)] + [Discard(s - 1, 1)] + [Discard(s, 1)]
  }

  function LosingReplies(s: nat): seq<Reply>
    requires s >= 6
  {
    MarkingReplies(s) + AllMarked(s - 5) + [Marked(1)] + [Marked(1)] + [OutOfWindow]
  }

  lemma MarksPassed(s: nat)
    requires s >= 6
    ensures Slid({1, 3}, 2, s) == {1}
  {
  }

  lemma BelowBase(w: Window, id: nat)
    requires InBounds(w) && id < w.base
    ensures WinStep(w, Discard(id, 1)).1 == OutOfWindow
  {
  }

  /** Id s is unsubscribed by the last operation and by no other: until then it is live. */
  lemma LiveUntilLast(s: nat)
    requires s >= 6
    ensures var ops := LosingOps(s); forall i | 0 <= i < |ops| - 1 :: ops[i] != Discard(s, 1)
  {
    hide Nexts, Drops;
  }

  /** In a window of any size s the id s is handed out marked, dropped while live, and its unsubscription refused. */
  lemma {:induction false} EveryWindowLoses(initialSize: nat, maxSize: nat, s: nat)
    requires |NewWindow(initialSize, maxSize).slots| == s >= 6
    ensures Replay(NewWindow(initialSize, maxSize), LosingOps(s)) == LosingReplies(s)
  {
    hide WinStep, Shows, Goes, NewWindow, MarkingOps, MarkingReplies, Drops, AllMarked, Slid;
    var w := NewWindow(initialSize, maxSize);
    var w1 := MarkStays(initialSize, maxSize, s);
    var w2 := DropMany(w1, 2, s - 1, s - 4, s - 5);
    GoesOn(w, MarkingOps(s), MarkingReplies(s), w1, Drops(2, s - 5), AllMarked(s - 5), w2);
    var ops, replies := MarkingOps(s) + Drops(2, s - 5), MarkingReplies(s) + AllMarked(s - 5);
    ShowsUsable(w2, s - 3, 4, {1, 3});
    ShowsDrop(w2, s - 3, 4, {1, 3}, 2);
    MarksPassed(s);
    Then(w, ops, replies, w2, Discard(s - 3, 1));
    var w3 := WinStep(w2, Discard(s - 3, 1)).0;
    ShowsUsable(w3, s - 1, 2, {1});
    ShowsDrop(w3, s - 1, 2, {1}, 2);
    Then(w, ops + [Discard(s - 3, 1)], replies + [Marked(1)], w3, Discard(s - 1, 1));
    var w4 := WinStep(w3, Discard(s - 1, 1)).0;
    ShowsUsable(w4, s + 1, 0, Slid({1}, 2, s));
    BelowBase(w4, s);
    Then(w, ops + [Discard(s - 3, 1)] + [Discard(s - 1, 1)], replies + [Marked(1)] + [Marked(1)], w4, Discard(s, 1));
    GoesReplay(w, LosingOps(s), LosingReplies(s), WinStep(w4, Discard(s, 1)).0);
  }

  /**
   On the window every queue has, 17 subscriptions suffice: once ids 14, 1, 0, then 2 to 13 and 15 are
   unsubscribed, id 16 is gone although it is live, and unsubscribing it is refused.
   */
  lemma LiveIdIsLost()
    ensures Replay(NewWindow(0, 1024), LosingOps(16)) == LosingReplies(16)
    ensures forall i | 0 <= i < |LosingOps(16)| - 1 :: LosingOps(16)[i] != Discard(16, 1)
  {
    hide Replay, LosingOps, LosingReplies;
    SixteenSlots();
    EveryWindowLoses(0, 1024, 16);
    LiveUntilLast(16);
  }
}
