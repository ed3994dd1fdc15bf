/**
 One session of the request manager over a Redis list: the same requests, background tasks, polls and
 acknowledgements as over the window, in any order. Here an acknowledgement can remove an id that is
 still in flight, and the background task whose insert then fails panics.
 */
module RedisSessions {
  import opened Basics
  import opened Mailbox
  import opened RedisLists
  import opened RedisFacts
  import opened Simulation

  /** An acknowledgement, and how many ids had been handed out when it came. */
  datatype Ack = Ack(offset: nat, handedOut: nat)

  /** inflight, events and acks record the session's history; panicked that a background task's insert failed. */
  datatype Session = Session(list: seq<Item>, inflight: set<nat>, events: map<nat, Answer>, acks: seq<Ack>, panicked: bool)

  datatype Action =
    | Request
    | Complete(id: nat, event: Answer)
    | Poll(offset: nat, count: nat)
    | Confirm(offset: nat)

  const NEW := Session([], {}, map[], [], false)

  /** A panic ends the process. */
  predicate Enabled(s: Session, a: Action) {
    !s.panicked && (a.Complete? ==> a.id in s.inflight)
  }

  function Step(s: Session, a: Action): Session {
    match a
    case Request => s.(list := MqNext(s.list), inflight := s.inflight + {NextOffset(s.list)})
    case Complete(id, event) =>
      var l := MqInsert(s.list, id, event);
      if l.None? then s.(panicked := true)
      else s.(list := l.value, inflight := s.inflight - {id}, events := s.events[id := event])
    case Poll(_, _) => s
    case Confirm(offset) =>
      s.(list := MqDiscard(s.list, offset, 0, false), acks := s.acks + [Ack(offset, NextOffset(s.list))])
  }

  /** The acknowledgement passed the id, which was not the last one handed out then. */
  predicate Passes(k: Ack, id: nat) {
    id < k.offset && id + 1 < k.handedOut
  }

  /** The first id that no acknowledgement passed. */
  function Floor(acks: seq<Ack>): nat {
    if acks == [] then 0
    else
      var k := acks[|acks| - 1];
      Max(Floor(acks[..|acks| - 1]), Min(k.offset, Max(k.handedOut - 1, 0)))
  }

  lemma {:induction false} FloorIs(acks: seq<Ack>, id: nat)
    ensures Floor(acks) <= id <==> forall j | 0 <= j < |acks| :: !Passes(acks[j], id)
  {
    if acks != [] { FloorIs(acks[..|acks| - 1], id); }
  }

  predicate Accounts(s: Session, i: Item) {
    && !i.discarded
    && (i.filled <==> i.offset in s.events)
    && (i.filled ==> i.answer == s.events[i.offset])
  }

  /** The list starts at the floor and holds the session's history from there; every id is in flight or answered. */
  ghost predicate Inv(s: Session) {
    && Contiguous(s.list) && Base(s.list) == Floor(s.acks)
    && (forall i | 0 <= i < |s.list| :: Accounts(s, s.list[i]))
    && (forall id :: id in s.inflight || id in s.events <==> 0 <= id < NextOffset(s.list))
    && s.inflight !! s.events.Keys
  }

  lemma RequestKeeps(s: Session)
    requires Inv(s)
    ensures Inv(Step(s, Request))
  {
    var s' := Step(s, Request);
    forall i | 0 <= i < |s'.list| ensures Accounts(s', s'.list[i]) {
      if i < |s.list| { assert Accounts(s, s.list[i]); }
    }
  }

  lemma CompleteKeeps(s: Session, id: nat, event: Answer)
    requires Inv(s) && id in s.inflight
    ensures Inv(Step(s, Complete(id, event)))
  {
    var s' := Step(s, Complete(id, event));
    if !s'.panicked {
      forall i | 0 <= i < |s'.list| ensures Accounts(s', s'.list[i]) && s'.list[i].offset == Base(s.list) + i {
        assert Accounts(s, s.list[i]);
      }
    }
  }

  lemma NoneDiscarded(s: Session)
    requires Inv(s)
    ensures Undiscarded(s.list)
  {
    forall i | 0 <= i < |s.list| ensures !s.list[i].discarded { assert Accounts(s, s.list[i]); }
  }

  lemma CutAccounts(s: Session, s': Session, k: nat)
    requires (forall i | 0 <= i < |s.list| :: Accounts(s, s.list[i])) && s'.events == s.events
    requires k <= |s.list| && s'.list == s.list[k..]
    ensures forall i | 0 <= i < |s'.list| :: Accounts(s', s'.list[i])
  {
    forall i | 0 <= i < |s'.list| ensures Accounts(s', s'.list[i]) {
      assert s'.list[i] == s.list[k + i] && Accounts(s, s.list[k + i]);
    }
  }

  lemma FloorSnoc(acks: seq<Ack>, k: Ack)
    ensures Floor(acks + [k]) == Max(Floor(acks), Min(k.offset, Max(k.handedOut - 1, 0)))
  {
    assert (acks + [k])[..|acks|] == acks;
  }

  lemma ConfirmKeeps(s: Session, offset: nat)
    requires Inv(s)
    ensures Inv(Step(s, Confirm(offset)))
  {
    hide MqDiscard, Contiguous, Undiscarded, Accounts, Floor;
    var s' := Step(s, Confirm(offset));
    NoneDiscarded(s);
    FloorSnoc(s.acks, Ack(offset, NextOffset(s.list)));
    if s.list == [] {
      EmptyDiscard(offset);
    } else {
      DropCleanFacts(s.list, offset);
      CutAccounts(s, s', Min(Max(offset, Base(s.list)), NextOffset(s.list) - 1) - Base(s.list));
    }
  }

  lemma EmptyDiscard(offset: nat)
    ensures MqDiscard([], offset, 0, false) == []
  {
  }

  lemma StepKeeps(s: Session, a: Action)
    requires Inv(s) && Enabled(s, a)
    ensures Inv(Step(s, a))
  {
    match a
    case Request => RequestKeeps(s);
    case Complete(id, event) => CompleteKeeps(s, id, event);
    case Poll(_, _) =>
    case Confirm(offset) => ConfirmKeeps(s, offset);
  }

  /** The insert of an id in flight succeeds exactly when no acknowledgement passed it while it was not the last id. */
  lemma InsertSucceedsIff(s: Session, id: nat, event: Answer)
    requires Inv(s) && Enabled(s, Complete(id, event))
    ensures Step(s, Complete(id, event)).panicked <==> exists j | 0 <= j < |s.acks| :: Passes(s.acks[j], id)
  {
    FloorIs(s.acks, id);
  }

  /** An event whose id no acknowledgement passed is still there, and a poll for it returns it. */
  lemma UnpassedReadable(s: Session, id: nat)
    requires Inv(s) && id in s.events && forall j | 0 <= j < |s.acks| :: !Passes(s.acks[j], id)
    ensures Decode(MqRetrieve(s.list, id, 0)) == [Element(id, s.events[id])]
  {
    hide MqRetrieve;
    FloorIs(s.acks, id);
    var i := id - Base(s.list);
    assert Accounts(s, s.list[i]);
    RetrieveIsSlice(s.list, id, 0);
    assert s.list[i..i + 1] == [s.list[i]];
    assert [s.list[i]][..0] == [];
  }

  // --- Whole runs ---

  predicate Possible(s: Session, run: seq<Action>)
    decreases |run|
  {
    run == [] || (Enabled(s, run[0]) && Possible(Step(s, run[0]), run[1..]))
  }

  function After(s: Session, run: seq<Action>): Session
    decreases |run|
  {
    if run == [] then s else After(Step(s, run[0]), run[1..])
  }

  /** Every acknowledgement of the run stops at the first id then in flight, or before. */
  predicate Patient(s: Session, run: seq<Action>)
    decreases |run|
  {
    run == [] ||
    (&& (run[0].Confirm? ==> forall id | id in s.inflight :: run[0].offset <= id)
     && Patient(Step(s, run[0]), run[1..]))
  }

  /** No id in flight was passed. */
  ghost predicate Spared(s: Session) {
    forall id, j | id in s.inflight && 0 <= j < |s.acks| :: !Passes(s.acks[j], id)
  }

  lemma {:induction false} RunKeeps(s: Session, run: seq<Action>)
    requires Inv(s) && Possible(s, run)
    ensures Inv(After(s, run))
    decreases |run|
  {
    hide Inv, Enabled, Step;
    if run != [] {
      StepKeeps(s, run[0]);
      RunKeeps(Step(s, run[0]), run[1..]);
    }
  }

  lemma AcksPast(s: Session)
    requires Inv(s)
    ensures Floor(s.acks) <= NextOffset(s.list)
  {
  }

  lemma SparedKept(s: Session, a: Action)
    requires Inv(s) && Enabled(s, a) && Spared(s)
    requires a.Confirm? ==> forall id | id in s.inflight :: a.offset <= id
    ensures Spared(Step(s, a)) && (s.panicked <==> Step(s, a).panicked)
  {
    hide Inv, MqDiscard;
    var s' := Step(s, a);
    match a
    case Request =>
      AcksPast(s);
      FloorIs(s.acks, NextOffset(s.list));
    case Complete(id, event) => InsertSucceedsIff(s, id, event);
    case _ =>
  }

  /** A client that never acknowledges past an id still in flight makes no background task panic, in any interleaving. */
  lemma {:induction false} PatientNeverPanics(s: Session, run: seq<Action>)
    requires Inv(s) && Possible(s, run) && Spared(s) && !s.panicked && Patient(s, run)
    ensures !After(s, run).panicked
    decreases |run|
  {
    hide Inv, Spared;
    if run != [] {
      StepKeeps(s, run[0]);
      SparedKept(s, run[0]);
      PatientNeverPanics(Step(s, run[0]), run[1..]);
    }
  }

  // --- The same, decided from the actions alone ---

  function Requests(run: seq<Action>): nat {
    if run == [] then 0 else (if run[0].Request? then 1 else 0) + Requests(run[1..])
  }

  /** Action i is an acknowledgement past the id, which was not the last one handed out, `before` being so earlier. */
  predicate PassedAt(before: nat, run: seq<Action>, i: nat, id: nat)
    requires i < |run|
  {
    run[i].Confirm? && Passes(Ack(run[i].offset, before + Requests(run[..i])), id)
  }

  lemma StepCounts(s: Session, a: Action)
    requires Inv(s) && Enabled(s, a)
    ensures NextOffset(Step(s, a).list) == NextOffset(s.list) + if a.Request? then 1 else 0
  {
    hide MqDiscard, Accounts;
    if a.Confirm? { DiscardKeepsEnd(s.list, a.offset, 0, false); }
    if a.Complete? && MqInsert(s.list, a.id, a.event).Some? { InsertKeepsEnd(s.list, a.id, a.event); }
  }

  lemma InsertKeepsEnd(l: seq<Item>, id: nat, e: Answer)
    requires MqInsert(l, id, e).Some?
    ensures NextOffset(MqInsert(l, id, e).value) == NextOffset(l)
  {
  }

  lemma {:induction false} RunCounts(s: Session, run: seq<Action>)
    requires Inv(s) && Possible(s, run)
    ensures NextOffset(After(s, run).list) == NextOffset(s.list) + Requests(run)
    decreases |run|
  {
    hide Inv, Enabled, Step, NextOffset;
    if run != [] {
      StepKeeps(s, run[0]);
      StepCounts(s, run[0]);
      RunCounts(Step(s, run[0]), run[1..]);
    }
  }

  predicate PassedIn(s: Session, id: nat) {
    exists j | 0 <= j < |s.acks| :: Passes(s.acks[j], id)
  }

  predicate PassedBy(before: nat, run: seq<Action>, id: nat) {
    exists i | 0 <= i < |run| :: PassedAt(before, run, i, id)
  }

  lemma StepPasses(s: Session, a: Action, id: nat)
    requires Inv(s) && Enabled(s, a)
    ensures PassedIn(Step(s, a), id)
       <==> PassedIn(s, id) || (a.Confirm? && Passes(Ack(a.offset, NextOffset(s.list)), id))
  {
    hide MqDiscard, Passes;
    var s' := Step(s, a);
    if a.Confirm? {
      var k := Ack(a.offset, NextOffset(s.list));
      assert s'.acks == s.acks + [k] && s'.acks[|s.acks|] == k;
      if PassedIn(s, id) {
        var j :| 0 <= j < |s.acks| && Passes(s.acks[j], id);
        assert s'.acks[j] == s.acks[j];
      }
    }
  }

  lemma PassedFirst(before: nat, run: seq<Action>, id: nat)
    requires run != []
    ensures PassedBy(before, run, id) <==>
              || (run[0].Confirm? && Passes(Ack(run[0].offset, before), id))
              || PassedBy(before + (if run[0].Request? then 1 else 0), run[1..], id)
  {
    hide Passes;
    var later := before + if run[0].Request? then 1 else 0;
    assert PassedAt(before, run, 0, id) <==> run[0].Confirm? && Passes(Ack(run[0].offset, before), id);
    forall i | 0 < i < |run| ensures PassedAt(before, run, i, id) <==> PassedAt(later, run[1..], i - 1, id) {
      assert run[..i][1..] == run[1..][..i - 1] && run[..i][0] == run[0];
    }
    if PassedBy(later, run[1..], id) {
      var i :| 0 <= i < |run[1..]| && PassedAt(later, run[1..], i, id);
      assert PassedAt(before, run, i + 1, id);
    }
    if PassedBy(before, run, id) {
      var i :| 0 <= i < |run| && PassedAt(before, run, i, id);
      if i > 0 { assert PassedAt(later, run[1..], i - 1, id); }
    }
  }

  /** The acknowledgements recorded are those of the run, each with the number of requests before it. */
  lemma {:induction false} PassesAre(s: Session, run: seq<Action>, id: nat)
    requires Inv(s) && Possible(s, run)
    ensures PassedIn(After(s, run), id) <==> PassedIn(s, id) || PassedBy(NextOffset(s.list), run, id)
    decreases |run|
  {
    hide Inv, Enabled, Step, NextOffset, Passes, PassedIn, PassedBy;
    if run == [] {
      NothingPassed(NextOffset(s.list), id);
    } else {
      StepKeeps(s, run[0]);
      StepCounts(s, run[0]);
      StepPasses(s, run[0], id);
      PassesAre(Step(s, run[0]), run[1..], id);
      PassedFirst(NextOffset(s.list), run, id);
    }
  }

  lemma NothingPassed(before: nat, id: nat)
    ensures !PassedBy(before, [], id)
  {
  }

  lemma StepEvents(s: Session, a: Action, id: nat, e: Answer)
    requires Inv(s) && Enabled(s, a) && !Step(s, a).panicked
    ensures id in s.events && s.events[id] == e ==> id in Step(s, a).events && Step(s, a).events[id] == e
    ensures id in Step(s, a).events && Step(s, a).events[id] == e ==>
              (id in s.events && s.events[id] == e) || a == Complete(id, e)
    ensures a == Complete(id, e) ==> id in Step(s, a).events && Step(s, a).events[id] == e
  {
  }

  lemma {:induction false} PanicIsFinal(s: Session, run: seq<Action>)
    requires Possible(s, run) && s.panicked
    ensures After(s, run).panicked
  {
  }

  /** As long as nothing panics, an id has event e exactly when the run completes it with e. */
  lemma {:induction false} EventsAre(s: Session, run: seq<Action>, id: nat, e: Answer)
    requires Inv(s) && Possible(s, run) && !After(s, run).panicked
    ensures id in After(s, run).events && After(s, run).events[id] == e
       <==> (id in s.events && s.events[id] == e) || Complete(id, e) in run
    decreases |run|
  {
    hide Inv, Step;
    if run != [] {
      var s' := Step(s, run[0]);
      if s'.panicked { PanicIsFinal(s', run[1..]); }
      StepKeeps(s, run[0]);
      StepEvents(s, run[0], id, e);
      EventsAre(s', run[1..], id, e);
      assert Complete(id, e) in run <==> run[0] == Complete(id, e) || Complete(id, e) in run[1..];
    }
  }

  /**
   After any run from a new session: as many ids were handed out as it has requests; every one is in flight or has
   exactly the event it was completed with; the insert for an id in flight panics exactly when the run has an
   acknowledgement past the id with at least id + 2 requests before it; a patient client causes no panic.
   */
  lemma SessionExact(run: seq<Action>)
    requires Possible(NEW, run)
    ensures var s := After(NEW, run);
            && Inv(s) && NextOffset(s.list) == Requests(run)
            && (Patient(NEW, run) ==> !s.panicked)
            && (!s.panicked ==>
                  && (forall id: nat, e :: (id in s.events && s.events[id] == e) <==> Complete(id, e) in run)
                  && (forall id, e :: id in s.inflight ==>
                        (Step(s, Complete(id, e)).panicked <==>
                           exists i | 0 <= i < |run| ::
                             run[i].Confirm? && id < run[i].offset && Requests(run[..i]) >= id + 2)))
  {
    hide Patient, Passes, Step, Requests, Possible, After;
    RunKeeps(NEW, run);
    RunCounts(NEW, run);
    var s := After(NEW, run);
    if Patient(NEW, run) { PatientNeverPanics(NEW, run); }
    if !s.panicked {
      forall id: nat, e ensures (id in s.events && s.events[id] == e) <==> Complete(id, e) in run {
        EventsAre(NEW, run, id, e);
      }
      forall id, e | id in s.inflight
        ensures Step(s, Complete(id, e)).panicked <==>
                  exists i | 0 <= i < |run| :: run[i].Confirm? && id < run[i].offset && Requests(run[..i]) >= id + 2
      {
        InsertSucceedsIff(s, id, e);
        PassesAre(NEW, run, id);
        PassedSpelledOut(run, id);
      }
    }
  }

  lemma PassedSpelledOut(run: seq<Action>, id: nat)
    ensures PassedBy(0, run, id)
       <==> exists i | 0 <= i < |run| :: run[i].Confirm? && id < run[i].offset && Requests(run[..i]) >= id + 2
  {
    hide Requests;
    if PassedBy(0, run, id) {
      var i :| 0 <= i < |run| && PassedAt(0, run, i, id);
      assert run[i].Confirm? && id < run[i].offset && Requests(run[..i]) >= id + 2;
    }
    if i :| 0 <= i < |run| && run[i].Confirm? && id < run[i].offset && Requests(run[..i]) >= id + 2 {
      assert PassedAt(0, run, i, id);
    }
  }
}
