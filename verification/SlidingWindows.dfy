/**
 The in-memory mailbox: an array of slots with two cursors. `Window` is its value
 and the functions give every operation's exact effect, for the code as it is.
 */
module SlidingWindows {
  import opened Basics
  import opened Mailbox

  datatype Slot = Slot(discarded: bool, reserved: bool, filled: bool, offset: nat, value: string, kind: string)

  const EMPTY := Slot(false, false, false, 0, "", "")

  datatype Window = Window(maxSize: nat, nextUnreserved: nat, nextUnset: nat, base: nat, slots: seq<Slot>)

  const TWO_64 := 0x1_0000_0000_0000_0000

  /** Unsigned 64-bit subtraction of cursors. */
  function Minus(a: nat, b: nat): nat {
    if b <= a then a - b else (a - b) % TWO_64
  }

  /** A slot the unset cursor stops at. */
  predicate Free(s: Slot) {
    !s.filled && !s.discarded
  }

  /** The cursors index the array: all that running the operations takes. */
  predicate InBounds(w: Window) {
    && 1 <= |w.slots| <= w.maxSize
    && w.nextUnreserved < |w.slots|
    && w.nextUnset <= |w.slots|
  }

  function NewWindow(initialSize: nat, maxSize: nat): (w: Window)
    ensures InBounds(w)
  {
    var size := if initialSize == 0 then 16 else initialSize;
    var max := if maxSize == 0 then 1024 else maxSize;
    Window(Max(size, max), 0, 0, 0, seq(size, _ => EMPTY))
  }

  /** The window of every queue: 16 slots, growing to 1024. */
  lemma SixteenSlots()
    ensures var w := NewWindow(0, 1024); |w.slots| == 16 && w.maxSize == 1024 && w.nextUnreserved == 0
  {
  }

  /** Index of the first free slot at or after i, or the number of slots. */
  function FirstFree(s: seq<Slot>, i: nat): (r: nat)
    requires i <= |s|
    ensures i <= r <= |s|
    ensures forall j | i <= j < r :: !Free(s[j])
    ensures r < |s| ==> Free(s[r])
    decreases |s| - i
  {
    if i == |s| || Free(s[i]) then i else FirstFree(s, i + 1)
  }

  /** Index of the first slot in [i, limit) that is not discarded, or limit. */
  function SkipDiscarded(s: seq<Slot>, i: nat, limit: nat): (r: nat)
    requires i <= limit <= |s|
    ensures i <= r <= limit
    ensures forall j | i <= j < r :: s[j].discarded
    ensures r < limit ==> !s[r].discarded
    decreases limit - i
  {
    if i == limit || !s[i].discarded then i else SkipDiscarded(s, i + 1, limit)
  }

  /** The cursor after slot `index` may have been filled. */
  function Advance(s: seq<Slot>, cursor: nat, index: nat): nat
    requires cursor <= |s|
  {
    var r := FirstFree(s, cursor);
    if cursor == index && r < |s| then r else cursor
  }

  function WinNext(w: Window): (Window, Reply)
    requires InBounds(w)
  {
    var size := |w.slots|;
    var full := w.nextUnreserved >= size - 1;
    if full && size >= w.maxSize then (w, Full)
    else
      var slots := if full then w.slots + seq(Min(2 * size, w.maxSize) - size, _ => EMPTY) else w.slots;
      var i := w.nextUnreserved;
      if slots[i].reserved || slots[i].filled then (w.(slots := slots), Panicked)
      else
        var offset := i + w.base;
        (w.(slots := slots[i := slots[i].(reserved := true, offset := offset)], nextUnreserved := i + 1),
         Reserved(offset))
  }

  function WinInsert(w: Window, offset: nat, answer: Answer): (Window, Reply)
    requires InBounds(w)
  {
    if offset < w.base || offset > w.base + |w.slots| then (w, OutOfWindow)
    else
      var i := offset - w.base;
      if i == |w.slots| then (w, Panicked)
      else if !w.slots[i].reserved then (w, NotReserved)
      else if w.slots[i].filled || w.slots[i].discarded then (w, AlreadySet)
      else
        var slots := w.slots[i := w.slots[i].(filled := true, kind := answer.kind, value := answer.value)];
        (w.(slots := slots, nextUnset := Advance(slots, w.nextUnset, i)), Stored)
  }

  predicate Visible(s: Slot) {
    s.reserved && s.filled && !s.discarded
  }

  /** The visible slots of [lo, hi) as elements, in slot order. */
  function Collect(s: seq<Slot>, lo: nat, hi: nat): seq<Element>
    requires lo <= hi <= |s|
    decreases hi
  {
    if lo == hi then []
    else
      var rest := Collect(s, lo, hi - 1);
      var e := s[hi - 1];
      if Visible(e) then rest + [Element(e.offset, Answer(e.kind, e.value))] else rest
  }

  function WinRetrieve(w: Window, offset: nat, count: nat): Reply {
    var i := Max(offset, w.base) - w.base;
    Found(w.base, Collect(w.slots, Min(i, |w.slots|), Min(i + count, |w.slots|)))
  }

  /** A read as the code computes it: the end of its range is an unsigned sum of 64 bits. */
  function WinGet(w: Window, offset: nat, count: nat): Reply {
    var i := Max(offset, w.base) - w.base;
    var end := (i + count) % TWO_64;
    Found(w.base, if i <= end then Collect(w.slots, Min(i, |w.slots|), Min(end, |w.slots|)) else [])
  }

  /** It reads what it was asked for exactly when the sum stays below 2^64, or there was nothing to read. */
  lemma GetAgreesIff(w: Window, offset: nat, count: nat)
    requires offset < TWO_64 && count < TWO_64
    ensures WinGet(w, offset, count) == WinRetrieve(w, offset, count)
       <==> Max(offset, w.base) - w.base + count < TWO_64 || WinRetrieve(w, offset, count) == Found(w.base, [])
  {
    hide Collect;
    var i := Max(offset, w.base) - w.base;
    if i + count >= TWO_64 { assert (i + count) % TWO_64 == i + count - TWO_64; }
  }

  /** How many slots a slide up to `offset` drops. */
  function SlideLimit(w: Window, offset: nat): (k: nat)
    requires InBounds(w) && w.base <= offset
    ensures k <= w.nextUnset
  {
    SkipDiscarded(w.slots, Min(offset - w.base, w.nextUnset), w.nextUnset)
  }

  /** A slot left behind at the end of the array by a slide. */
  function Vacated(s: Slot): Slot {
    s.(filled := false, reserved := false, offset := 0, value := "")
  }

  /** The first n slots after dropping the first k; the last k slots keep what the code does not clear. */
  function ShiftedPrefix(s: seq<Slot>, k: nat, n: nat): (r: seq<Slot>)
    requires k <= |s| && n <= |s|
    ensures |r| == n
    ensures forall i {:trigger r[i]} | 0 <= i < n :: r[i] == if i < |s| - k then s[i + k] else Vacated(s[i])
  {
    if n == 0 then []
    else ShiftedPrefix(s, k, n - 1) + [if n - 1 < |s| - k then s[n - 1 + k] else Vacated(s[n - 1])]
  }

  /** The window after dropping its first k slots. */
  function Shift(w: Window, k: nat): Window
    requires k <= w.nextUnset <= |w.slots|
  {
    w.(slots := ShiftedPrefix(w.slots, k, |w.slots|), base := w.base + k,
       nextUnset := w.nextUnset - k, nextUnreserved := Minus(w.nextUnreserved, k))
  }

  function WinSlide(w: Window, offset: nat): (Window, Reply)
    requires InBounds(w)
  {
    if offset < w.base then (w, Moved(0))
    else if offset > w.base + |w.slots| then (w, OutOfWindow)
    else
      var k := SlideLimit(w, offset);
      if k == 0 then (w, Moved(0))
      else
        (Shift(w, k), Moved(k))
  }

  /** Marks the slots of [lo, hi), and no other, as discarded. */
  function MarkSlots(s: seq<Slot>, lo: nat, hi: nat): (r: seq<Slot>)
    requires lo <= hi <= |s|
    ensures |r| == |s|
    ensures forall i {:trigger r[i]} | 0 <= i < |s| ::
              r[i] == if lo <= i < hi then s[i].(discarded := true) else s[i]
    decreases hi
  {
    if lo == hi then s
    else MarkSlots(s, lo, hi - 1)[hi - 1 := s[hi - 1].(discarded := true)]
  }

  /** The end of the range a discard marks. */
  function MarkEnd(w: Window, i: nat, count: nat): (e: nat)
    ensures i <= e
    ensures i < e ==> e <= w.nextUnreserved
  {
    Max(i, Min(i + count, w.nextUnreserved))
  }

  /** The unset cursor after the marking loop ran over [lo, hi). */
  function DragCursor(cursor: nat, lo: nat, hi: nat): nat
    requires lo <= hi
  {
    if lo < cursor <= hi then hi + 1 else cursor
  }

  /** Marking, and moving the unset cursor, without the slide that may follow. */
  function Mark(w: Window, i: nat, count: nat): (m: Window)
    requires InBounds(w) && i <= |w.slots|
    ensures InBounds(m) && m.base == w.base && |m.slots| == |w.slots|
  {
    var e := MarkEnd(w, i, count);
    var slots := if i < e then MarkSlots(w.slots, i, e) else w.slots;
    w.(slots := slots, nextUnset := Advance(slots, DragCursor(w.nextUnset, i, e), i))
  }

  /** Marking from slot i, and the slide that follows when the range starts at the base. */
  function MarkAndSlide(w: Window, i: nat, count: nat): Window
    requires InBounds(w) && i <= |w.slots|
  {
    var m := Mark(w, i, count);
    if i == 0 then WinSlide(m, m.base + 1).0 else m
  }

  function WinDiscard(w: Window, offset: nat, count: nat): (Window, Reply)
    requires InBounds(w)
  {
    if count == 0 then (w, Marked(0))
    else if offset < w.base || offset > w.base + |w.slots| then (w, OutOfWindow)
    else
      var i := offset - w.base;
      (MarkAndSlide(w, i, count), Marked(MarkEnd(w, i, count) - i))
  }

  function WinStep(w: Window, op: Op): (Window, Reply)
    requires InBounds(w)
  {
    match op
    case Next => WinNext(w)
    case Insert(o, a) => WinInsert(w, o, a)
    case Retrieve(o, c) => (w, WinRetrieve(w, o, c))
    case Slide(o) => WinSlide(w, o)
    case Discard(o, c) => WinDiscard(w, o, c)
  }

  /** The replies of the code along a run, whatever the state it gets into. */
  function Replay(w: Window, ops: seq<Op>): (rs: seq<Reply>)
    decreases |ops|
  {
    if ops == [] then []
    else if !InBounds(w) then [Panicked]
    else
      var (w', r) := WinStep(w, ops[0]);
      [r] + Replay(w', ops[1..])
  }
}
