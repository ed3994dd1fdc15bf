/**
 One session of the request manager over an in-memory queue: requests reserve an id and
 run in the background, background tasks insert their event when they complete, and
 clients poll and acknowledge, all interleaved in any order.
 */
module RequestProtocol {
  import opened Basics
  import opened Mailbox
  import opened SlidingWindows
  import opened WindowRefinement
  import opened MessageHandlers

  /**
   inflight holds the ids whose background task has not inserted yet, events what the
   completed tasks inserted, and acked the greatest offset a client acknowledged without being refused.
   */
  datatype Session = Session(window: Window, inflight: set<nat>, events: map<nat, Answer>, acked: nat)

  datatype Action =
    | Request
    | Complete(id: nat, event: Answer)
    | Poll(offset: nat, count: nat)
    | Acknowledge(offset: nat)

  function NewSession(initialSize: nat, maxSize: nat): Session {
    Session(NewWindow(initialSize, maxSize), {}, map[], 0)
  }

  predicate Enabled(s: Session, a: Action) {
    a.Complete? ==> a.id in s.inflight
  }

  function Step(s: Session, a: Action): (r: (Session, Reply)) {
    if !InBounds(s.window) then (s, Panicked)
    else match a
      case Request =>
        var (w, reply) := WinNext(s.window);
        (s.(window := w, inflight := s.inflight + (if reply.Reserved? then {reply.offset} else {})), reply)
      case Complete(id, event) =>
        var (w, reply) := WinInsert(s.window, id, event);
        (if reply.Stored?
         then s.(window := w, inflight := s.inflight - {id}, events := s.events[id := event])
         else s.(window := w), reply)
      case Poll(offset, count) =>
        (s, WinRetrieve(s.window, offset, count))
      case Acknowledge(offset) =>
        var (w, reply) := HandleDiscard(s.window, false, offset, 0);
        (s.(window := w, acked := if reply.OutOfWindow? then s.acked else Max(s.acked, offset)), reply)
  }

  /** The next id to hand out. */
  function NextId(s: Session): nat {
    s.window.base + s.window.nextUnreserved
  }

  /** The log the session's history amounts to. */
  function History(s: Session): Log {
    Log(seq(NextId(s), o requires 0 <= o < NextId(s) => Entry(if o in s.events then Some(s.events[o]) else None, false)),
        s.window.base, |s.window.slots|, s.window.maxSize)
  }

  /** The window holds exactly the history from its base, and every id is either in flight or answered. */
  ghost predicate Inv(s: Session) {
    && Refines(s.window, History(s))
    && (forall id :: id in s.inflight || id in s.events <==> 0 <= id < NextId(s))
    && s.inflight !! s.events.Keys
    && s.window.base <= s.acked
  }

  lemma NothingDiscarded(s: Session)
    requires Inv(s)
    ensures forall i | 0 <= i < |s.window.slots| :: !s.window.slots[i].discarded
  {
    forall i | 0 <= i < |s.window.slots| ensures !s.window.slots[i].discarded {
      if i < s.window.nextUnreserved {
        assert Abs(s.window.slots[i]) == History(s).entries[s.window.base + i];
      } else {
        assert Clean(s.window.slots[i]);
      }
    }
  }

  lemma RequestKeeps(s: Session)
    requires Inv(s)
    ensures Inv(Step(s, Request).0)
  {
    var l := History(s);
    NextRefines(s.window, l);
    var s' := Step(s, Request).0;
    RefinesShape(s'.window, LogNext(l).0);
    assert History(s').entries == LogNext(l).0.entries;
  }

  /** The background task's insert finds its id reserved, unset and inside the window. */
  lemma InsertNeverFails(s: Session, id: nat, event: Answer)
    requires Inv(s) && id in s.inflight
    ensures Step(s, Complete(id, event)).1 == Stored
    ensures s.window.base <= id < NextId(s)
  {
    var l := History(s);
    InsertRefines(s.window, l, id, event);
    assert Open(l.entries[id]);
  }

  lemma CompleteKeeps(s: Session, id: nat, event: Answer)
    requires Inv(s) && id in s.inflight
    ensures Inv(Step(s, Complete(id, event)).0)
  {
    var l := History(s);
    InsertNeverFails(s, id, event);
    InsertRefines(s.window, l, id, event);
    var s' := Step(s, Complete(id, event)).0;
    assert History(s').entries == LogInsert(l, id, event).0.entries;
  }

  lemma SlideIsSafe(s: Session, offset: nat)
    requires Inv(s)
    ensures SlideSafe(s.window, offset)
  {
    NothingDiscarded(s);
  }

  lemma AcknowledgeKeeps(s: Session, offset: nat)
    requires Inv(s)
    ensures Inv(Step(s, Acknowledge(offset)).0)
    ensures Step(s, Acknowledge(offset)).1.OutOfWindow? <==> offset > s.window.base + |s.window.slots|
  {
    hide Valid, WinSlide, SlideSafe, Refines;
    var l := History(s);
    SlideIsSafe(s, offset);
    RefinesShape(s.window, l);
    SlideRefines(s.window, l, offset);
    SlideReplyIs(l, offset);
    var s' := Step(s, Acknowledge(offset)).0;
    assert s'.window == WinSlide(s.window, offset).0;
    RefinesShape(s'.window, LogSlide(l, offset).0);
    assert LogSlide(l, offset).0.base <= Max(l.base, offset);
    assert History(s').entries == l.entries;
  }

  // --- Whole runs ---

  lemma StepKeeps(s: Session, a: Action)
    requires Inv(s) && Enabled(s, a)
    ensures Inv(Step(s, a).0)
  {
    match a
    case Request => RequestKeeps(s);
    case Complete(id, event) => CompleteKeeps(s, id, event);
    case Poll(_, _) =>
    case Acknowledge(offset) => AcknowledgeKeeps(s, offset);
  }

  /** Every completion in the run belongs to a request that is still in flight. */
  predicate Possible(s: Session, run: seq<Action>)
    decreases |run|
  {
    run == [] || (Enabled(s, run[0]) && Possible(Step(s, run[0]).0, run[1..]))
  }

  function After(s: Session, run: seq<Action>): Session
    decreases |run|
  {
    if run == [] then s else After(Step(s, run[0]).0, run[1..])
  }

  /** An id that has its event keeps that event, whatever happens afterwards. */
  lemma StepKeepsEvents(s: Session, a: Action)
    requires Inv(s) && Enabled(s, a)
    ensures forall id | id in s.events :: id in Step(s, a).0.events && Step(s, a).0.events[id] == s.events[id]
    ensures s.acked <= Step(s, a).0.acked
  {
  }

  lemma {:induction false} RunKeeps(s: Session, run: seq<Action>)
    requires Inv(s) && Possible(s, run)
    ensures Inv(After(s, run))
    ensures forall id | id in s.events :: id in After(s, run).events && After(s, run).events[id] == s.events[id]
    decreases |run|
  {
    if run != [] {
      var s' := Step(s, run[0]).0;
      StepKeeps(s, run[0]);
      StepKeepsEvents(s, run[0]);
      RunKeeps(s', run[1..]);
    }
  }

  lemma NewSessionInv(initialSize: nat, maxSize: nat)
    ensures Inv(NewSession(initialSize, maxSize))
  {
    var s := NewSession(initialSize, maxSize);
    NewRefines(initialSize, maxSize);
    assert History(s) == Log([], 0, |s.window.slots|, s.window.maxSize);
  }

  /**
   After any run of a session, in any interleaving, every id handed out is either in
   flight or has exactly its one event, and every insert a background task may still make
   succeeds: the panic on a failed insert is unreachable.
   */
  lemma SessionSafe(initialSize: nat, maxSize: nat, run: seq<Action>)
    requires Possible(NewSession(initialSize, maxSize), run)
    ensures var s := After(NewSession(initialSize, maxSize), run);
            && Inv(s)
            && (forall id, event :: id in s.inflight ==> Step(s, Complete(id, event)).1 == Stored)
            && (forall id :: 0 <= id < NextId(s) <==> id in s.inflight || id in s.events)
            && s.inflight !! s.events.Keys
  {
    var s0 := NewSession(initialSize, maxSize);
    NewSessionInv(initialSize, maxSize);
    RunKeeps(s0, run);
    var s := After(s0, run);
    forall id, event | id in s.inflight ensures Step(s, Complete(id, event)).1 == Stored {
      InsertNeverFails(s, id, event);
    }
  }

  // --- What the session shows, decided from the actions alone ---

  /** A request gets the next id, unless maxSize - 1 ids are held; then it is refused. */
  lemma RequestReply(s: Session)
    requires Inv(s)
    ensures var (s', r) := Step(s, Request);
            if s.window.nextUnreserved == s.window.maxSize - 1 then r == Full && NextId(s') == NextId(s)
            else r == Reserved(NextId(s)) && NextId(s') == NextId(s) + 1
  {
    var l := History(s);
    NextRefines(s.window, l);
    RefinesShape(s.window, l);
    RefinesShape(Step(s, Request).0.window, LogNext(l).0);
  }

  lemma OthersKeepNextId(s: Session, a: Action)
    requires Inv(s) && Enabled(s, a) && !a.Request?
    ensures NextId(Step(s, a).0) == NextId(s)
  {
    hide Inv;
    StepKeeps(s, a);
    SameIds(s, Step(s, a).0);
  }

  /** The ids in flight or answered determine the next one. */
  lemma SameIds(s: Session, s': Session)
    requires Inv(s) && Inv(s')
    requires forall id :: id in s.inflight || id in s.events <==> id in s'.inflight || id in s'.events
    ensures NextId(s) == NextId(s')
  {
    var n, n' := NextId(s), NextId(s');
    assert n in s'.inflight || n in s'.events <==> n < n';
    assert n' in s.inflight || n' in s.events <==> n' < n;
  }

  /** The replies to the requests of a run that were not refused. */
  function Ids(s: Session, run: seq<Action>): seq<Reply>
    decreases |run|
  {
    if run == [] then []
    else
      var (s', r) := Step(s, run[0]);
      (if run[0].Request? && r != Full then [r] else []) + Ids(s', run[1..])
  }

  /** They are the next id and those that follow it, one by one. */
  lemma {:induction false} IdsCount(s: Session, run: seq<Action>)
    requires Inv(s) && Possible(s, run)
    ensures NextId(After(s, run)) == NextId(s) + |Ids(s, run)|
    ensures forall i | 0 <= i < |Ids(s, run)| :: Ids(s, run)[i] == Reserved(NextId(s) + i)
    decreases |run|
  {
    hide Inv, Step, Enabled, NextId;
    if run != [] {
      var s' := Step(s, run[0]).0;
      StepKeeps(s, run[0]);
      if run[0].Request? { RequestReply(s); } else { OthersKeepNextId(s, run[0]); }
      IdsCount(s', run[1..]);
    }
  }

  /** One step adds the event of a completion, and no other. */
  lemma StepEvents(s: Session, a: Action, id: nat, e: Answer)
    requires Inv(s) && Enabled(s, a)
    ensures id in s.events && s.events[id] == e ==> id in Step(s, a).0.events && Step(s, a).0.events[id] == e
    ensures id in Step(s, a).0.events && Step(s, a).0.events[id] == e ==>
              (id in s.events && s.events[id] == e) || a == Complete(id, e)
    ensures a == Complete(id, e) ==> id in Step(s, a).0.events && Step(s, a).0.events[id] == e
  {
    if a.Complete? { InsertNeverFails(s, a.id, a.event); }
  }

  /** An id has event e after a run exactly when it had it before or the run completes it with e. */
  lemma {:induction false} EventsAre(s: Session, run: seq<Action>, id: nat, e: Answer)
    requires Inv(s) && Possible(s, run)
    ensures id in After(s, run).events && After(s, run).events[id] == e
       <==> (id in s.events && s.events[id] == e) || Complete(id, e) in run
    decreases |run|
  {
    hide Inv, Step, Enabled;
    if run != [] {
      StepKeeps(s, run[0]);
      StepEvents(s, run[0], id, e);
      EventsAre(Step(s, run[0]).0, run[1..], id, e);
      assert Complete(id, e) in run <==> run[0] == Complete(id, e) || Complete(id, e) in run[1..];
    }
  }

  /** The run takes an acknowledgement past x. */
  predicate AcknowledgesPast(s: Session, run: seq<Action>, x: nat)
    decreases |run|
  {
    run != [] &&
    (var (s', r) := Step(s, run[0]);
     || (run[0].Acknowledge? && !r.OutOfWindow? && run[0].offset > x)
     || AcknowledgesPast(s', run[1..], x))
  }

  lemma {:induction false} AckedIs(s: Session, run: seq<Action>, x: nat)
    ensures After(s, run).acked > x ==> s.acked > x || AcknowledgesPast(s, run, x)
    decreases |run|
  {
    if run != [] { AckedIs(Step(s, run[0]).0, run[1..], x); }
  }

  /** A poll returns exactly the events of the ids from the offset, or the base, on, in order. */
  lemma PollExact(s: Session, offset: nat, count: nat)
    requires Inv(s)
    ensures var (s', r) := Step(s, Poll(offset, count));
            var from := Max(offset, s.window.base);
            && s' == s && r.Found? && r.base == s.window.base
            && (forall id: nat, e :: Element(id, e) in r.elements <==>
                  id in s.events && s.events[id] == e && from <= id < from + count)
            && (forall i, j | 0 <= i < j < |r.elements| :: r.elements[i].offset < r.elements[j].offset)
  {
    var l := History(s);
    RetrieveRefines(s.window, l, offset, count);
    RetrieveExact(l, offset, count);
    HistoryIs(s);
    var r := LogRetrieve(l, offset, count);
    var from := Max(offset, l.base);
    forall id: nat, e ensures Element(id, e) in r.elements <==> id in s.events && s.events[id] == e && from <= id < from + count {
      if id in s.events { assert id < NextId(s); }
    }
  }

  lemma HistoryIs(s: Session)
    ensures var l := History(s);
            && l.base == s.window.base && |l.entries| == NextId(s)
            && forall o | 0 <= o < NextId(s) :: l.entries[o] == Entry(if o in s.events then Some(s.events[o]) else None, false)
  {
  }

  /** Every id in flight is at or after the first offset owed, and that one is in flight unless it is the next id. */
  lemma FirstOwed(s: Session)
    requires Inv(s)
    ensures var l := History(s);
            && s.window.base <= |l.entries| && |l.entries| == NextId(s)
            && var open := FirstOpen(l.entries, s.window.base);
            && (forall id | id in s.inflight :: open <= id)
            && (open in s.inflight || open == NextId(s))
  {
    hide Refines;
    RefinesShape(s.window, History(s));
    HistoryIs(s);
    var l := History(s);
    var open := FirstOpen(l.entries, s.window.base);
    forall id | id in s.inflight ensures open <= id {
      InsertNeverFails(s, id, Answer("", ""));
      assert Open(l.entries[id]);
    }
  }

  /**
   An acknowledgement is refused past the window and changes nothing below it; otherwise the base moves to its
   offset, stopping at the first id in flight or the next id, and no event or id in flight is touched.
   */
  lemma AcknowledgeExact(s: Session, offset: nat)
    requires Inv(s)
    ensures var s' := Step(s, Acknowledge(offset)).0;
            var b, b' := s.window.base, s'.window.base;
            && s'.events == s.events && s'.inflight == s.inflight
            && (offset < b || offset > b + |s.window.slots| ==> b' == b)
            && (b <= offset <= b + |s.window.slots| ==>
                  && b <= b' <= offset
                  && (forall id | id in s.inflight :: b' <= id)
                  && (b' < offset ==> b' in s.inflight || b' == NextId(s)))
  {
    hide Valid, WinSlide, LogSlide, SlideSafe, Refines, History, Readable;
    var l := History(s);
    SlideIsSafe(s, offset);
    RefinesShape(s.window, l);
    SlideRefines(s.window, l, offset);
    SlideReplyIs(l, offset);
    HistoryIs(s);
    var s' := Step(s, Acknowledge(offset)).0;
    assert s'.window == WinSlide(s.window, offset).0;
    RefinesShape(s'.window, LogSlide(l, offset).0);
    if l.base <= offset <= l.base + l.capacity {
      CleanSlide(l, offset);
      FirstOwed(s);
    }
  }

  /**
   Over any run from a new session the requests not refused got 0, 1, 2, ... in order; an id has event e exactly
   when the run completes it with e; and unless the run took an acknowledgement past the id, a poll returns e.
   */
  lemma SessionShows(initialSize: nat, maxSize: nat, run: seq<Action>)
    requires Possible(NewSession(initialSize, maxSize), run)
    ensures var s0 := NewSession(initialSize, maxSize);
            var s := After(s0, run);
            && NextId(s) == |Ids(s0, run)|
            && (forall i | 0 <= i < |Ids(s0, run)| :: Ids(s0, run)[i] == Reserved(i))
            && (forall id: nat, e :: (id in s.events && s.events[id] == e) <==> Complete(id, e) in run)
            && (forall id: nat, e :: Complete(id, e) in run && !AcknowledgesPast(s0, run, id) ==>
                  Step(s, Poll(id, 1)).1 == Found(s.window.base, [Element(id, e)]))
  {
    hide Inv, Step, Ids, AcknowledgesPast, Possible, After;
    var s0 := NewSession(initialSize, maxSize);
    NewSessionInv(initialSize, maxSize);
    RunKeeps(s0, run);
    IdsCount(s0, run);
    var s := After(s0, run);
    forall id: nat, e ensures (id in s.events && s.events[id] == e) <==> Complete(id, e) in run {
      EventsAre(s0, run, id, e);
    }
    forall id: nat, e | Complete(id, e) in run && !AcknowledgesPast(s0, run, id)
      ensures Step(s, Poll(id, 1)).1 == Found(s.window.base, [Element(id, e)])
    {
      AckedIs(s0, run, id);
      assert id in s.events && s.events[id] == e;
      UnacknowledgedReadable(s, id);
    }
  }

  /**
   An event at or above every offset whose acknowledgement was taken is still there: polling for it
   returns it. A client that acknowledges only what it has read loses nothing.
   */
  lemma UnacknowledgedReadable(s: Session, id: nat)
    requires Inv(s) && id in s.events && s.acked <= id
    ensures Step(s, Poll(id, 1)).1 == Found(s.window.base, [Element(id, s.events[id])])
  {
    var l := History(s);
    RetrieveRefines(s.window, l, id, 1);
    assert l.entries[id] == Entry(Some(s.events[id]), false);
    assert Readable(l.entries, id, id) == [];
    assert Readable(l.entries, id, id + 1) == [Element(id, s.events[id])];
  }
}
