/**
 The mutable window: the slots live in an array that is written in place, shifted in
 place and replaced when it grows. Every method is proved to have exactly the effect
 and the reply of the corresponding function on window values, from every state whose
 cursors index the array, whether or not that state is consistent.
 */
module WindowObject {
  import opened Basics
  import opened Mailbox
  import opened SlidingWindows

  class SlidingWindow {
    var maxSize: nat
    var nextUnreserved: nat
    var nextUnset: nat
    var base: nat
    var elements: array<Slot>

    ghost function Value(): Window
      reads this, elements
    {
      Window(maxSize, nextUnreserved, nextUnset, base, elements[..])
    }

    constructor (initialSize: nat, maximumSize: nat)
      ensures Value() == NewWindow(initialSize, maximumSize) && fresh(elements)
    {
      var size := if initialSize == 0 then 16 else initialSize;
      var max := if maximumSize == 0 then 1024 else maximumSize;
      if size > max { max := size; }
      maxSize, nextUnreserved, nextUnset, base := max, 0, 0, 0;
      elements := new Slot[size](_ => EMPTY);
    }

    method Get(offset: nat, count: nat) returns (r: Reply)
      ensures r == WinGet(Value(), offset, count)
    {
      hide Collect;
      var from := if offset < base then base else offset;
      var index := from - base;
      var found := ReadRange(index, (index + count) % TWO_64);
      r := Found(base, found);
    }

    method ReadRange(index: nat, end: nat) returns (found: seq<Element>)
      ensures found == if index <= end then Collect(elements[..], Min(index, elements.Length), Min(end, elements.Length)) else []
    {
      found := [];
      var i := index;
      ghost var lo := Min(index, elements.Length);
      while i < end && i < elements.Length
        invariant index <= i <= Max(index, Min(end, elements.Length))
        invariant found == Collect(elements[..], lo, Min(i, elements.Length))
      {
        var e := elements[i];
        if e.reserved && e.filled && !e.discarded {
          found := found + [Element(e.offset, Answer(e.kind, e.value))];
        }
        i := i + 1;
      }
    }

    method MakeRoom() returns (n: nat)
      requires InBounds(Value())
      modifies this`elements
      ensures n == (if |old(Value()).slots| < maxSize then Min(2 * |old(Value()).slots|, maxSize) - |old(Value()).slots| else 0)
      ensures Value() == old(Value()).(slots := old(Value()).slots + seq(n, _ => EMPTY))
      ensures n == 0 ==> Value() == old(Value())
      ensures elements == old(elements) || fresh(elements)
    {
      var size := elements.Length;
      if size < maxSize {
        var next := if 2 * size > maxSize then maxSize else 2 * size;
        var grown := new Slot[next](_ => EMPTY);
        forall i | 0 <= i < size { grown[i] := elements[i]; }
        ghost var before := elements[..];
        elements := grown;
        n := next - size;
        assert elements[..] == before + seq(n, _ => EMPTY);
      } else {
        n := 0;
        assert elements[..] == elements[..] + seq(0, _ => EMPTY);
      }
    }

    method ReserveNext() returns (r: Reply)
      requires InBounds(Value())
      modifies this, elements
      ensures (Value(), r) == WinNext(old(Value()))
      ensures elements == old(elements) || fresh(elements)
    {
      if nextUnreserved >= elements.Length - 1 {
        var n := MakeRoom();
        if n == 0 { return Full; }
      }
      var offset := nextUnreserved + base;
      var index := offset - base;
      if elements[index].reserved || elements[index].filled { return Panicked; }
      elements[index] := elements[index].(reserved := true, offset := offset);
      nextUnreserved := index + 1;
      r := Reserved(offset);
    }

    method UpdateUnsetIndex(index: nat)
      requires nextUnset <= elements.Length
      modifies this`nextUnset
      ensures Value() == old(Value()).(nextUnset := Advance(old(Value()).slots, old(nextUnset), index))
    {
      if nextUnset == index {
        var i := nextUnset;
        while i < elements.Length
          invariant old(nextUnset) <= i <= elements.Length && nextUnset == old(nextUnset)
          invariant FirstFree(elements[..], i) == FirstFree(elements[..], old(nextUnset))
        {
          if !elements[i].filled && !elements[i].discarded {
            nextUnset := i;
            break;
          }
          i := i + 1;
        }
      }
    }

    method Set(offset: nat, kind: string, value: string) returns (r: Reply)
      requires InBounds(Value())
      modifies this`nextUnset, elements
      ensures (Value(), r) == WinInsert(old(Value()), offset, Answer(kind, value))
    {
      if base > offset || offset > base + elements.Length { return OutOfWindow; }
      var index := offset - base;
      if index == elements.Length { return Panicked; }
      if !elements[index].reserved { return NotReserved; }
      if elements[index].filled || elements[index].discarded { return AlreadySet; }
      elements[index] := elements[index].(filled := true, kind := kind, value := value);
      UpdateUnsetIndex(index);
      r := Stored;
    }

    method LimitFor(offset: nat) returns (limit: nat)
      requires InBounds(Value()) && base <= offset
      ensures limit == SlideLimit(Value(), offset)
    {
      limit := offset - base;
      if limit > nextUnset { limit := nextUnset; }
      while limit < nextUnset && elements[limit].discarded
        invariant limit <= nextUnset
        invariant SkipDiscarded(elements[..], limit, nextUnset) == SlideLimit(Value(), offset)
      {
        limit := limit + 1;
      }
    }

    method Slide(offset: nat) returns (r: Reply)
      requires InBounds(Value())
      modifies this, elements
      ensures (Value(), r) == WinSlide(old(Value()), offset)
      ensures elements == old(elements)
    {
      hide ShiftedPrefix, SlideLimit, SkipDiscarded;
      if base > offset { return Moved(0); }
      if offset > base + elements.Length { return OutOfWindow; }
      var limit := LimitFor(offset);
      if limit == 0 { return Moved(0); }
      ShiftDown(limit);
      base := base + limit;
      nextUnset := nextUnset - limit;
      nextUnreserved := Minus(nextUnreserved, limit);
      r := Moved(limit);
    }

    /** Moves every slot `limit` places down and clears what is left behind. */
    method ShiftDown(limit: nat)
      requires 0 < limit <= elements.Length
      modifies elements
      ensures elements[..] == ShiftedPrefix(old(elements[..]), limit, elements.Length)
    {
      var removed := elements.Length - limit;
      var i := 0;
      while i < removed
        invariant 0 <= i <= removed
        invariant forall j | 0 <= j < i :: elements[j] == old(elements[j + limit])
        invariant forall j | i <= j < elements.Length :: elements[j] == old(elements[j])
      {
        elements[i] := elements[i + limit];
        i := i + 1;
      }
      i := removed;
      while i < elements.Length
        invariant removed <= i <= elements.Length
        invariant forall j | 0 <= j < removed :: elements[j] == old(elements[j + limit])
        invariant forall j | removed <= j < i :: elements[j] == Vacated(old(elements[j]))
        invariant forall j | i <= j < elements.Length :: elements[j] == old(elements[j])
      {
        elements[i] := elements[i].(filled := false, reserved := false, offset := 0, value := "");
        i := i + 1;
      }
    }

    method Discard(offset: nat, count: nat) returns (r: Reply)
      requires InBounds(Value())
      modifies this, elements
      ensures (Value(), r) == WinDiscard(old(Value()), offset, count)
      ensures elements == old(elements)
    {
      if count == 0 { return Marked(0); }
      if base > offset || offset > base + elements.Length { return OutOfWindow; }
      var index := offset - base;
      var counter := MarkRange(index, count);
      if index == 0 {
        var moved := Slide(base + 1);
      }
      r := Marked(counter);
    }

    /** The marking loop with its cursor updates. The contiguous index it keeps never moves. */
    method MarkRange(index: nat, count: nat) returns (counter: nat)
      requires InBounds(Value()) && index <= elements.Length
      modifies this`nextUnset, elements
      ensures Value() == Mark(old(Value()), index, count)
      ensures counter == MarkEnd(old(Value()), index, count) - index
    {
      counter := 0;
      var maxContiguousIndex: int := index;
      var i := index;
      ghost var before, cursor := elements[..], nextUnset;
      ghost var end := MarkEnd(Value(), index, count);
      while i < index + count && i < nextUnreserved
        invariant index <= i <= end && counter == i - index && maxContiguousIndex == index
        invariant elements[..] == MarkSlots(before, index, i)
        invariant nextUnset == DragCursor(cursor, index, i)
      {
        elements[i] := elements[i].(discarded := true);
        counter := counter + 1;
        if i + 1 == maxContiguousIndex { maxContiguousIndex := maxContiguousIndex + 1; }
        if i + 1 == nextUnset { nextUnset := nextUnset + 1; }
        i := i + 1;
      }
      UpdateUnsetIndex(maxContiguousIndex);
    }
  }
}
