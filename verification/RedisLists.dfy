/**
 The Redis mailbox: a list whose first element carries the base offset. The functions say
 what each script does to the list; RedisQueue is the script itself, with its loop and its
 recursion, proved to do that.
 */
module RedisLists {
  import opened Basics
  import opened Mailbox

  datatype Item = Item(offset: nat, filled: bool, discarded: bool, answer: Answer)

  const NOTHING := Answer("", "")

  /** Element offsets are consecutive. */
  predicate Contiguous(l: seq<Item>) {
    forall i | 0 <= i < |l| :: l[i].offset == l[0].offset + i
  }

  function Base(l: seq<Item>): nat {
    if l == [] then 0 else l[0].offset
  }

  /** The offset the next reservation returns. */
  function NextOffset(l: seq<Item>): nat {
    Base(l) + |l|
  }

  function MqNext(l: seq<Item>): seq<Item> {
    l + [Item(NextOffset(l), false, false, NOTHING)]
  }

  function MqInsert(l: seq<Item>, offset: nat, answer: Answer): Option<seq<Item>> {
    if Base(l) <= offset < NextOffset(l)
    then Some(l[offset - Base(l) := Item(offset, true, false, answer)])
    else None
  }

  /** The Redis command: both ends are inclusive, and an end past the list is cut off. */
  function LRange(l: seq<Item>, start: nat, stop: nat): seq<Item> {
    if start > stop || start >= |l| then [] else l[start..Min(stop + 1, |l|)]
  }

  function MqRetrieve(l: seq<Item>, offset: nat, count: nat): seq<Item> {
    var start := Min(Max(offset - Base(l), 0), |l|);
    var stop := Min(Max(offset - Base(l) + count, 0), |l|);
    LRange(l, start, Max(start, stop))
  }

  /** The first index at or after i that is not discarded, or the last index. */
  function PopFrom(l: seq<Item>, i: nat): (r: nat)
    requires i < |l|
    ensures i <= r < |l|
    ensures forall j | i <= j < r :: l[j].discarded
    ensures r < |l| - 1 ==> !l[r].discarded
    decreases |l| - i
  {
    if i < |l| - 1 && l[i].discarded then PopFrom(l, i + 1) else i
  }

  /** How many elements go when everything before `offset`, and whatever is discarded next, goes. */
  function DropCount(l: seq<Item>, offset: nat): (k: nat)
    requires l != []
    ensures k < |l|
  {
    PopFrom(l, Min(Max(offset, Base(l)) - Base(l), |l| - 1))
  }

  /** The last element always stays: it carries the offset. */
  function DropBefore(l: seq<Item>, offset: nat): (r: seq<Item>)
    requires l != []
    ensures r != []
  {
    l[DropCount(l, offset)..]
  }

  function MarkItems(l: seq<Item>, lo: nat, hi: nat): (r: seq<Item>)
    requires lo <= hi <= |l|
    ensures |r| == |l|
    ensures forall i {:trigger r[i]} | 0 <= i < |l| :: r[i] == if lo <= i < hi then l[i].(discarded := true) else l[i]
    decreases hi
  {
    if lo == hi then l else MarkItems(l, lo, hi - 1)[hi - 1 := l[hi - 1].(discarded := true)]
  }

  /** A discard that keeps what lies before the offset. */
  function DiscardKeeping(l: seq<Item>, offset: nat, count: nat): (r: seq<Item>)
    requires l != []
    ensures r != []
  {
    if offset <= Base(l) then DropBefore(l, Base(l) + count)
    else
      var lo := Min(offset - Base(l), |l|);
      MarkItems(l, lo, Min(lo + count, |l|))
  }

  function MqDiscard(l: seq<Item>, offset: nat, count: nat, keepPrevious: bool): seq<Item> {
    if l == [] then l
    else if keepPrevious then DiscardKeeping(l, offset, count)
    else if count > 0 then DiscardKeeping(DropBefore(l, offset), Max(offset, Base(l)), count)
    else DropBefore(l, offset)
  }

  class RedisQueue {
    var list: seq<Item>

    constructor ()
      ensures list == []
    {
      list := [];
    }

    method Next() returns (offset: nat)
      modifies this
      ensures list == MqNext(old(list)) && offset == NextOffset(old(list))
    {
      var base := if |list| > 0 then list[0].offset else 0;
      offset := base + |list|;
      list := list + [Item(offset, false, false, NOTHING)];
    }

    method Insert(offset: nat, answer: Answer) returns (ok: bool)
      modifies this
      ensures MqInsert(old(list), offset, answer) == if ok then Some(list) else None
      ensures !ok ==> list == old(list)
    {
      var base := if |list| > 0 then list[0].offset else 0;
      var index := offset - base;
      ok := index >= 0 && index < |list|;
      if ok { list := list[index := Item(offset, true, false, answer)]; }
    }

    method Retrieve(offset: nat, count: nat) returns (r: seq<Item>)
      ensures r == MqRetrieve(list, offset, count)
    {
      var base, len := if |list| > 0 then list[0].offset else 0, |list|;
      var start := offset - base;
      var stop := start + count;
      if stop < 0 { stop := 0; }
      if stop > len { stop := len; }
      if start < 0 { start := 0; }
      if start > len { start := len; }
      if start > stop { stop := start; }
      r := LRange(list, start, stop);
    }

    method Discard(offset: nat, count: nat, keepPrevious: bool)
      requires Contiguous(list)
      modifies this
      ensures list == MqDiscard(old(list), offset, count, keepPrevious)
      decreases if keepPrevious then 1 else if count > 0 then 2 else 0
    {
      hide Contiguous, PopFrom, MarkItems;
      var base, len := if |list| > 0 then list[0].offset else 0, |list|;
      var from := if offset < base then base else offset;
      var start := from - base;
      if len == 0 { return; }
      if !keepPrevious {
        if start >= len { start := len - 1; }
        PopFront(start);
        if count > 0 { Discard(from, count, true); }
        return;
      }
      if base == from {
        Discard(from + count, 0, false);
        return;
      }
      if count > 0 { MarkFrom(base, start, count); }
    }

    /** Trims the list to `start`, then pops discarded elements while another element remains. */
    method PopFront(start: nat)
      requires Contiguous(list) && start < |list|
      modifies this
      ensures list == old(list)[PopFrom(old(list), start)..] && Contiguous(list)
    {
      list := list[start..];
      var len := |list|;
      var discarded := true;
      ghost var k := start;
      while discarded && len > 1
        invariant k < |old(list)| && list == old(list)[k..] && len == |list|
        invariant PopFrom(old(list), k) == PopFrom(old(list), start)
        invariant !discarded ==> PopFrom(old(list), k) == k
        decreases len, discarded
      {
        discarded := list[0].discarded;
        if discarded {
          list := list[1..];
          len := len - 1;
          k := k + 1;
        }
      }
    }

    /** Marks `count` elements from `start`, writing each back at the index its offset gives. */
    method MarkFrom(base: nat, start: nat, count: nat)
      requires Contiguous(list) && list != [] && base == list[0].offset && count > 0
      modifies this
      ensures list == MarkItems(old(list), Min(start, |old(list)|), Min(Min(start, |old(list)|) + count, |old(list)|))
    {
      var els := LRange(list, start, start + count - 1);
      ghost var lo := Min(start, |list|);
      for i := 0 to |els|
        invariant |list| == |old(list)| && lo + |els| <= |list|
        invariant list == MarkItems(old(list), lo, lo + i)
      {
        var decoded := els[i].(discarded := true);
        assert decoded.offset - base == lo + i;
        list := list[decoded.offset - base := decoded];
      }
    }
  }
}
