/** What every Redis script keeps, and how far a discard really reaches. */
module RedisFacts {
  import opened Basics
  import opened Mailbox
  import opened RedisLists

  /** The list holds exactly this element at its own offset. */
  predicate Holds(l: seq<Item>, e: Item) {
    && Base(l) <= e.offset < NextOffset(l)
    && l[e.offset - Base(l)] == e
  }

  /** Cutting elements off the front, but not all of them, moves the base and not the end. */
  lemma CutFront(l: seq<Item>, k: nat)
    requires Contiguous(l) && k < |l|
    ensures Contiguous(l[k..]) && Base(l[k..]) == Base(l) + k && NextOffset(l[k..]) == NextOffset(l)
    ensures forall e | Holds(l, e) && e.offset >= Base(l) + k :: Holds(l[k..], e)
    ensures forall e | Holds(l[k..], e) :: Holds(l, e)
  {
  }

  lemma DropBeforeFacts(l: seq<Item>, offset: nat)
    requires Contiguous(l) && l != []
    ensures var r := DropBefore(l, offset);
            && Contiguous(r) && NextOffset(r) == NextOffset(l)
            && Base(r) >= Min(Max(offset, Base(l)), NextOffset(l) - 1)
            && (forall e | Holds(r, e) :: Holds(l, e))
            && (forall e | Holds(l, e) && e.offset >= Base(r) :: Holds(r, e))
            && (forall e | Holds(l, e) && Max(offset, Base(l)) <= e.offset < Base(r) :: e.discarded)
  {
    hide PopFrom;
    var k := DropCount(l, offset);
    CutFront(l, k);
    forall e | Holds(l, e) && Max(offset, Base(l)) <= e.offset < Base(l) + k ensures e.discarded {
      assert l[e.offset - Base(l)] == e;
    }
  }

  lemma DiscardKeepingFacts(l: seq<Item>, offset: nat, count: nat)
    requires Contiguous(l) && l != []
    ensures var r := DiscardKeeping(l, offset, count);
            && Contiguous(r) && NextOffset(r) == NextOffset(l)
            && (forall e | Holds(l, e) && !e.discarded && e.offset >= Max(offset, Base(l)) + count :: Holds(r, e))
  {
    hide MarkItems, DropBefore, Contiguous, Holds;
    if offset <= Base(l) {
      DropBeforeFacts(l, Base(l) + count);
      KeptByDrop(l, Base(l) + count);
    } else {
      var lo := Min(offset - Base(l), |l|);
      MarkFacts(l, lo, Min(lo + count, |l|));
    }
  }

  lemma KeptByDrop(l: seq<Item>, offset: nat)
    requires Contiguous(l) && l != []
    ensures forall e | Holds(l, e) && !e.discarded && e.offset >= Max(offset, Base(l)) :: Holds(DropBefore(l, offset), e)
  {
    hide DropBefore;
    DropBeforeFacts(l, offset);
  }

  lemma MarkFacts(l: seq<Item>, lo: nat, hi: nat)
    requires Contiguous(l) && l != [] && lo <= hi <= |l|
    ensures var r := MarkItems(l, lo, hi);
            && Contiguous(r) && Base(r) == Base(l)
            && (forall e | Holds(l, e) && e.offset >= Base(l) + hi :: Holds(r, e))
  {
    hide MarkItems;
    var r := MarkItems(l, lo, hi);
    assert r[0].offset == l[0].offset;
  }

  /**
   Offsets stay consecutive, a list is never emptied, and a discard never changes the next
   offset: only a reservation does, by one.
   */
  lemma DiscardKeepsEnd(l: seq<Item>, offset: nat, count: nat, keepPrevious: bool)
    requires Contiguous(l)
    ensures var r := MqDiscard(l, offset, count, keepPrevious);
            && Contiguous(r) && NextOffset(r) == NextOffset(l) && (l != [] ==> r != [])
  {
    hide DropBefore, DiscardKeeping;
    if l != [] {
      DropBeforeFacts(l, offset);
      DiscardKeepingFacts(l, offset, count);
      DiscardKeepingFacts(DropBefore(l, offset), Max(offset, Base(l)), count);
    }
  }

  /** Keeping what lies before, or with count 0, nothing undiscarded past the requested range is touched. */
  lemma DiscardStaysInRange(l: seq<Item>, offset: nat, count: nat, keepPrevious: bool, e: Item)
    requires Contiguous(l) && (keepPrevious || count == 0)
    requires Holds(l, e) && !e.discarded && e.offset >= Max(offset, Base(l)) + count
    ensures Holds(MqDiscard(l, offset, count, keepPrevious), e)
  {
    hide DropBefore, DiscardKeeping;
    DropBeforeFacts(l, offset);
    DiscardKeepingFacts(l, offset, count);
  }

  /**
   A discard of `count` elements that does not keep what lies before measures `count` from
   the first undiscarded element it finds, not from the requested offset. An undiscarded
   element past the requested range survives exactly when it lies past that longer range,
   or is the last of the list.
   */
  lemma DiscardReachesIff(l: seq<Item>, offset: nat, count: nat, e: Item)
    requires Contiguous(l) && count > 0
    requires Holds(l, e) && !e.discarded && e.offset >= Max(offset, Base(l)) + count
    ensures Holds(MqDiscard(l, offset, count, false), e)
       <==> e.offset >= Min(Base(DropBefore(l, offset)) + count, NextOffset(l) - 1)
  {
    hide DropBefore, Holds, Contiguous, MarkItems;
    HeldInside(l, e);
    var m := DropBefore(l, offset);
    DropBeforeFacts(l, offset);
    DropKeepsIff(l, offset, e);
    assert Max(offset, Base(l)) <= Base(m);
    DropKeepsIff(m, Base(m) + count, e);
  }

  lemma HeldInside(l: seq<Item>, e: Item)
    requires Holds(l, e)
    ensures Base(l) <= e.offset < NextOffset(l)
  {
  }

  lemma DropKeepsIff(l: seq<Item>, offset: nat, e: Item)
    requires Contiguous(l) && l != [] && Holds(l, e) && !e.discarded
    ensures Holds(DropBefore(l, offset), e) <==> e.offset >= Min(Max(offset, Base(l)), NextOffset(l) - 1)
  {
    hide DropBefore;
    DropBeforeFacts(l, offset);
  }

  /**
   Unlike the window, the list lets a client acknowledge past an id that is still owed: the
   insert for it then succeeds exactly when it is the last id handed out, or some element from
   the acknowledged offset up to it is not discarded.
   */
  lemma InsertAfterAcknowledgeIff(l: seq<Item>, offset: nat, id: nat, a: Answer)
    requires Contiguous(l) && Base(l) <= id < NextOffset(l)
    ensures MqInsert(MqDiscard(l, offset, 0, false), id, a).Some? <==>
              || id == NextOffset(l) - 1
              || exists i | Max(offset, Base(l)) - Base(l) <= i <= id - Base(l) :: !l[i].discarded
  {
    hide PopFrom, Contiguous;
    var k := DropCount(l, offset);
    CutFront(l, k);
    if id < NextOffset(l) - 1 && Base(l) + k <= id {
      assert !l[k].discarded;
    }
  }

  predicate Undiscarded(l: seq<Item>) {
    forall i | 0 <= i < |l| :: !l[i].discarded
  }

  /** With nothing discarded, a count-0 discard moves the base to the offset, stopping at the last element. */
  lemma DropCleanFacts(l: seq<Item>, offset: nat)
    requires Contiguous(l) && l != [] && Undiscarded(l)
    ensures var r := MqDiscard(l, offset, 0, false);
            var k := Min(Max(offset, Base(l)), NextOffset(l) - 1) - Base(l);
            r == l[k..] && Contiguous(r) && Base(r) == Base(l) + k && NextOffset(r) == NextOffset(l) && Undiscarded(r)
  {
    hide Contiguous;
    var k := Min(Max(offset, Base(l)), NextOffset(l) - 1) - Base(l);
    assert !l[k].discarded;
    CutFront(l, k);
  }

  lemma Slice(l: seq<Item>, a: nat, b: nat)
    requires Contiguous(l) && a <= b <= |l|
    ensures Contiguous(l[a..b])
    ensures forall e :: e in l[a..b] <==> Holds(l, e) && Base(l) + a <= e.offset < Base(l) + b
  {
    forall e | e in l[a..b] ensures Holds(l, e) && Base(l) + a <= e.offset < Base(l) + b {
      var i :| 0 <= i < |l[a..b]| && l[a..b][i] == e;
      assert l[a + i] == e;
    }
    forall e | Holds(l, e) && Base(l) + a <= e.offset < Base(l) + b ensures e in l[a..b] {
      assert l[a..b][e.offset - Base(l) - a] == e;
    }
  }

  /** The slice of the list that a retrieve returns. */
  lemma RetrieveIsSlice(l: seq<Item>, offset: nat, count: nat)
    ensures var a := Min(Max(offset, Base(l)) - Base(l), |l|);
            var b := Max(a, Min(Max(offset + count, Base(l)) - Base(l) + 1, |l|));
            MqRetrieve(l, offset, count) == l[a..b]
  {
  }

  /** A retrieve returns exactly the elements held between the two offsets, both included, in order. */
  lemma RetrieveBothEnds(l: seq<Item>, offset: nat, count: nat)
    requires Contiguous(l)
    ensures Contiguous(MqRetrieve(l, offset, count))
    ensures forall e :: e in MqRetrieve(l, offset, count) <==>
              Holds(l, e) && Max(offset, Base(l)) <= e.offset <= Max(offset + count, Base(l))
  {
    hide MqRetrieve, Contiguous;
    var a := Min(Max(offset, Base(l)) - Base(l), |l|);
    var b := Max(a, Min(Max(offset + count, Base(l)) - Base(l) + 1, |l|));
    RetrieveIsSlice(l, offset, count);
    Slice(l, a, b);
  }

  /** A discard that keeps what lies before its offset marks exactly the elements of its range. */
  lemma DiscardKeepingMarks(l: seq<Item>, offset: nat, count: nat, e: Item)
    requires Contiguous(l) && Base(l) < offset && Holds(l, e)
    ensures Holds(MqDiscard(l, offset, count, true),
                  if offset <= e.offset < offset + count then e.(discarded := true) else e)
  {
    hide MarkItems;
    var lo := Min(offset - Base(l), |l|);
    var r := MarkItems(l, lo, Min(lo + count, |l|));
    assert r[0].offset == l[0].offset;
    assert r[e.offset - Base(l)].offset == e.offset;
  }

  /** The list after an answer: it is there, set and not discarded, and every other element is as before. */
  lemma InsertExact(l: seq<Item>, offset: nat, a: Answer, e: Item)
    requires Contiguous(l) && MqInsert(l, offset, a).Some?
    ensures var r := MqInsert(l, offset, a).value;
            && Contiguous(r) && NextOffset(r) == NextOffset(l) && Holds(r, Item(offset, true, false, a))
            && (e.offset != offset ==> (Holds(r, e) <==> Holds(l, e)))
  {
    var r := MqInsert(l, offset, a).value;
    assert forall i | 0 <= i < |l| :: r[i].offset == l[i].offset;
  }

  /** An element in the range a discard asks for is removed, or still held and marked, unless it is the last of the list. */
  predicate Taken(r: seq<Item>, e: Item) {
    || e.offset < Base(r)
    || Holds(r, e.(discarded := true))
    || e.offset == NextOffset(r) - 1
  }

  lemma KeepingTakes(l: seq<Item>, offset: nat, count: nat, e: Item)
    requires Contiguous(l) && l != [] && Holds(l, e)
    requires Max(offset, Base(l)) <= e.offset < Max(offset, Base(l)) + count
    ensures Taken(DiscardKeeping(l, offset, count), e)
  {
    hide MarkItems, DropBefore, Contiguous;
    if offset <= Base(l) {
      DropBeforeFacts(l, Base(l) + count);
    } else {
      DiscardKeepingMarks(l, offset, count, e);
    }
  }

  /**
   Everything a discard asks for is taken, whether it keeps what lies before or not, the base included; and if it
   does not keep it, nothing before the offset remains, but for the last element of the list.
   */
  lemma DiscardTakes(l: seq<Item>, offset: nat, count: nat, keepPrevious: bool, e: Item)
    requires Contiguous(l) && Holds(l, e)
    ensures var r := MqDiscard(l, offset, count, keepPrevious);
            && (Max(offset, Base(l)) <= e.offset < Max(offset, Base(l)) + count ==> Taken(r, e))
            && (!keepPrevious ==> Base(r) >= Min(offset, NextOffset(l) - 1))
  {
    hide DropBefore, DiscardKeeping, Contiguous, Holds;
    HeldInside(l, e);
    var from := Max(offset, Base(l));
    var m := DropBefore(l, offset);
    DropBeforeFacts(l, offset);
    var inRange := from <= e.offset < from + count;
    if keepPrevious {
      if inRange { KeepingTakes(l, offset, count, e); }
    } else if count > 0 {
      KeepingRaisesBase(m, from, count);
      DiscardKeepingFacts(m, from, count);
      if inRange && e.offset >= Base(m) {
        RangeShifts(m, from, count, e);
      }
    }
  }

  lemma KeepingRaisesBase(l: seq<Item>, offset: nat, count: nat)
    requires Contiguous(l) && l != []
    ensures Base(DiscardKeeping(l, offset, count)) >= Base(l)
  {
    hide MarkItems, DropBefore, Contiguous;
    if offset <= Base(l) {
      DropBeforeFacts(l, Base(l) + count);
    } else {
      var lo := Min(offset - Base(l), |l|);
      MarkFacts(l, lo, Min(lo + count, |l|));
    }
  }

  /** After the elements before the offset are gone, the rest of the range starts at the new base. */
  lemma RangeShifts(m: seq<Item>, from: nat, count: nat, e: Item)
    requires Contiguous(m) && m != [] && Holds(m, e) && count > 0 && from <= e.offset < from + count
    ensures Taken(DiscardKeeping(m, from, count), e)
  {
    hide MarkItems, DropBefore, Contiguous;
    if from <= Base(m) {
      DropBeforeFacts(m, Base(m) + count);
    } else {
      KeepingTakes(m, from, count, e);
    }
  }

  // --- Whole runs ---

  datatype Script =
    | RNext
    | RInsert(offset: nat, answer: Answer)
    | RRetrieve(offset: nat, count: nat)
    | RDiscard(offset: nat, count: nat, keepPrevious: bool)

  function Perform(l: seq<Item>, s: Script): seq<Item> {
    match s
    case RNext => MqNext(l)
    case RInsert(o, a) => if MqInsert(l, o, a).Some? then MqInsert(l, o, a).value else l
    case RRetrieve(_, _) => l
    case RDiscard(o, c, keep) => MqDiscard(l, o, c, keep)
  }

  lemma PerformKeeps(l: seq<Item>, s: Script)
    requires Contiguous(l)
    ensures Contiguous(Perform(l, s))
    ensures NextOffset(Perform(l, s)) == NextOffset(l) + if s.RNext? then 1 else 0
    ensures l != [] ==> Perform(l, s) != []
  {
    hide MqDiscard;
    if s.RDiscard? { DiscardKeepsEnd(l, s.offset, s.count, s.keepPrevious); }
  }

  function PerformAll(l: seq<Item>, run: seq<Script>): seq<Item>
    decreases |run|
  {
    if run == [] then l else PerformAll(Perform(l, run[0]), run[1..])
  }

  function Reservations(run: seq<Script>): nat {
    if run == [] then 0 else (if run[0].RNext? then 1 else 0) + Reservations(run[1..])
  }

  /** Over any run of scripts the next offset is the number of reservations made: they count 0, 1, 2, ... */
  lemma {:induction false} ReservationsCount(l: seq<Item>, run: seq<Script>)
    requires Contiguous(l)
    ensures Contiguous(PerformAll(l, run))
    ensures NextOffset(PerformAll(l, run)) == NextOffset(l) + Reservations(run)
    decreases |run|
  {
    if run != [] {
      PerformKeeps(l, run[0]);
      ReservationsCount(Perform(l, run[0]), run[1..]);
    }
  }

  // --- Runs of scripts that depart from what is documented ---

  lemma {:induction false} PerformSnoc(l: seq<Item>, run: seq<Script>, s: Script)
    ensures PerformAll(l, run + [s]) == Perform(PerformAll(l, run), s)
    decreases |run|
  {
    if run == [] {
      assert run + [s] == [s] && [s][1..] == [];
    } else {
      assert (run + [s])[0] == run[0] && (run + [s])[1..] == run[1..] + [s];
      PerformSnoc(Perform(l, run[0]), run[1..], s);
    }
  }

  const UNSET0 := Item(0, false, false, NOTHING)
  const UNSET1 := Item(1, false, false, NOTHING)

  function Set(offset: nat, a: Answer): Item {
    Item(offset, true, false, a)
  }

  lemma TwoReservations()
    ensures PerformAll([], [RNext]) == [UNSET0] && PerformAll([], [RNext, RNext]) == [UNSET0, UNSET1]
  {
    PerformSnoc([], [], RNext);
    PerformSnoc([], [RNext], RNext);
    assert [] + [RNext] == [RNext] && [RNext] + [RNext] == [RNext, RNext];
    assert [UNSET0] + [UNSET1] == [UNSET0, UNSET1];
  }

  /** Acknowledging up to 1 removes id 0, which is still owed: its answer fails, and the background task panics. */
  lemma AcknowledgeLosesOwed(a: Answer)
    ensures MqInsert(PerformAll([], [RNext, RNext, RDiscard(1, 0, false)]), 0, a) == None
  {
    TwoReservations();
    PerformSnoc([], [RNext, RNext], RDiscard(1, 0, false));
    assert [RNext, RNext] + [RDiscard(1, 0, false)] == [RNext, RNext, RDiscard(1, 0, false)];
    assert PopFrom([UNSET0, UNSET1], 1) == 1;
  }

  /** Two reservations and their answers. */
  function Answering(a: Answer, b: Answer): seq<Script> {
    [RNext, RNext] + [RInsert(0, a)] + [RInsert(1, b)]
  }

  lemma TwoAnswers(a: Answer, b: Answer)
    ensures PerformAll([], Answering(a, b)) == [Set(0, a), Set(1, b)]
  {
    TwoReservations();
    PerformSnoc([], [RNext, RNext], RInsert(0, a));
    PerformSnoc([], [RNext, RNext] + [RInsert(0, a)], RInsert(1, b));
    assert [UNSET0, UNSET1][0 := Set(0, a)] == [Set(0, a), UNSET1];
    assert [Set(0, a), UNSET1][1 := Set(1, b)] == [Set(0, a), Set(1, b)];
  }

  /** Asked for one element, Redis returns two. */
  lemma OneTooMany(a: Answer, b: Answer)
    ensures MqRetrieve(PerformAll([], Answering(a, b)), 0, 1) == [Set(0, a), Set(1, b)]
  {
    TwoAnswers(a, b);
  }

  function FourAnswers(a: Answer): seq<Script> {
    Answering(a, a) + [RNext] + [RInsert(2, a)] + [RNext] + [RInsert(3, a)] + [RDiscard(1, 1, true)]
  }

  lemma FourAnswersAre(a: Answer)
    ensures PerformAll([], FourAnswers(a)) == [Set(0, a), Set(1, a).(discarded := true), Set(2, a), Set(3, a)]
  {
    var run := Answering(a, a);
    TwoAnswers(a, a);
    PerformSnoc([], run, RNext);
    PerformSnoc([], run + [RNext], RInsert(2, a));
    var three := [Set(0, a), Set(1, a), Set(2, a)];
    assert PerformAll([], run + [RNext] + [RInsert(2, a)]) == three;
    PerformSnoc([], run + [RNext] + [RInsert(2, a)], RNext);
    PerformSnoc([], run + [RNext] + [RInsert(2, a)] + [RNext], RInsert(3, a));
    var four := [Set(0, a), Set(1, a), Set(2, a), Set(3, a)];
    assert PerformAll([], run + [RNext] + [RInsert(2, a)] + [RNext] + [RInsert(3, a)]) == four;
    PerformSnoc([], run + [RNext] + [RInsert(2, a)] + [RNext] + [RInsert(3, a)], RDiscard(1, 1, true));
    assert MarkItems(four, 1, 2) == [Set(0, a), Set(1, a).(discarded := true), Set(2, a), Set(3, a)];
  }

  /** Asked to discard offset 1 alone, which is already discarded, the script takes offset 2 with it. */
  lemma DiscardOverreaches(a: Answer)
    ensures MqDiscard(PerformAll([], FourAnswers(a)), 1, 1, false) == [Set(3, a)]
  {
    hide PerformAll, FourAnswers;
    FourAnswersAre(a);
    var l := [Set(0, a), Set(1, a).(discarded := true), Set(2, a), Set(3, a)];
    assert PopFrom(l, 2) == 2 == PopFrom(l, 1);
    var m := DropBefore(l, 1);
    assert m == [Set(2, a), Set(3, a)];
    assert DropCount(m, 3) == 1;
  }
}
