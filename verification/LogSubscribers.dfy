/**
 The log subscriber's filter: events older than the last position forwarded are dropped, and a
 subscription that starts in time resumes without a gap. LogReconnection says when it does.
 */
module LogSubscribers {
  import opened Basics

  datatype Position = Position(block: nat, index: nat)

  datatype Event = Event(at: Position, data: string)

  predicate Less(a: Position, b: Position) {
    a.block < b.block || (a.block == b.block && a.index < b.index)
  }

  /** Positions are ordered by block and, within a block, by index: any two are equal or one comes before the other. */
  lemma LessIsOrder(a: Position, b: Position, c: Position)
    ensures a.block < b.block ==> Less(a, b)
    ensures a.block == b.block ==> (Less(a, b) <==> a.index < b.index)
    ensures a != b <==> Less(a, b) || Less(b, a)
    ensures !(Less(a, b) && Less(b, a))
    ensures Less(a, b) && Less(b, c) ==> Less(a, c)
  {
  }

  // --- The filter ---

  /** What is forwarded of the input, starting from position p. */
  function Forwarded(p: Position, input: seq<Event>): (out: seq<Event>)
    ensures |out| <= |input|
    decreases |input|
  {
    if input == [] then []
    else if Less(input[0].at, p) then Forwarded(p, input[1..])
    else [input[0]] + Forwarded(input[0].at, input[1..])
  }

  /** The position after the input. */
  function EndPosition(p: Position, input: seq<Event>): Position
    decreases |input|
  {
    if input == [] then p
    else EndPosition(if Less(input[0].at, p) then p else input[0].at, input[1..])
  }

  /** A later block, or the same block and an index no smaller. */
  predicate NotBefore(a: Position, b: Position) {
    a.block > b.block || (a.block == b.block && a.index >= b.index)
  }

  /** Event i is at least as late as the starting position and every event before it. */
  ghost predicate Record(p: Position, input: seq<Event>, i: nat)
    requires i < |input|
  {
    NotBefore(input[i].at, p) && forall j | 0 <= j < i :: NotBefore(input[i].at, input[j].at)
  }

  /** The records among the first n events, in order. */
  ghost function Records(p: Position, input: seq<Event>, n: nat): seq<Event>
    requires n <= |input|
  {
    if n == 0 then []
    else Records(p, input, n - 1) + if Record(p, input, n - 1) then [input[n - 1]] else []
  }

  lemma {:induction false} ForwardedAppend(p: Position, a: seq<Event>, b: seq<Event>)
    ensures Forwarded(p, a + b) == Forwarded(p, a) + Forwarded(EndPosition(p, a), b)
    ensures EndPosition(p, a + b) == EndPosition(EndPosition(p, a), b)
    decreases |a|
  {
    if a == [] {
      assert a + b == b;
    } else {
      assert (a + b)[1..] == a[1..] + b;
      ForwardedAppend(if Less(a[0].at, p) then p else a[0].at, a[1..], b);
    }
  }

  /** The end position is the latest of the starting position and all events. */
  lemma {:induction false} EndIsMaximum(p: Position, input: seq<Event>)
    ensures var e := EndPosition(p, input);
            && !Less(e, p) && (forall i | 0 <= i < |input| :: !Less(e, input[i].at))
            && (e == p || exists i :: 0 <= i < |input| && input[i].at == e)
    decreases |input|
  {
    if input != [] {
      var q := if Less(input[0].at, p) then p else input[0].at;
      var rest := input[1..];
      EndIsMaximum(q, rest);
      var e := EndPosition(p, input);
      if e != q {
        var i :| 0 <= i < |rest| && rest[i].at == e;
        assert input[i + 1].at == e;
      }
      forall i | 0 <= i < |input| ensures !Less(e, input[i].at) {
        if i > 0 { assert input[i] == rest[i - 1]; }
      }
    }
  }

  /** The forwarded events are exactly the weak running maxima of the input in (block, index) order. */
  lemma {:induction false} ForwardedAreRecords(p: Position, input: seq<Event>, n: nat)
    requires n <= |input|
    ensures Forwarded(p, input[..n]) == Records(p, input, n)
  {
    if n > 0 {
      ForwardedAreRecords(p, input, n - 1);
      var a := input[..n - 1];
      assert input[..n] == a + [input[n - 1]];
      ForwardedAppend(p, a, [input[n - 1]]);
      EndIsMaximum(p, a);
      LastIsRecord(p, input, n - 1);
      assert Forwarded(EndPosition(p, a), [input[n - 1]])
          == if Less(input[n - 1].at, EndPosition(p, a)) then [] else [input[n - 1]];
    }
  }

  lemma LastIsRecord(p: Position, input: seq<Event>, n: nat)
    requires n < |input|
    ensures Record(p, input, n) <==> !Less(input[n].at, EndPosition(p, input[..n]))
  {
    var a := input[..n];
    EndIsMaximum(p, a);
    var e := EndPosition(p, a);
    forall j | 0 <= j < n ensures !Less(e, input[j].at) {
      assert a[j] == input[j];
    }
    if e != p {
      var i :| 0 <= i < |a| && a[i].at == e;
      assert input[i].at == e;
    }
  }

  /** An event of an earlier block, or of an earlier index in the same block, is never forwarded again, whatever arrives. */
  lemma {:induction false} NeverGoesBack(p: Position, input: seq<Event>, e: Event)
    requires e.at.block < p.block || (e.at.block == p.block && e.at.index < p.index)
    ensures e !in Forwarded(p, input)
    decreases |input|
  {
    if input != [] { NeverGoesBack(if Less(input[0].at, p) then p else input[0].at, input[1..], e); }
  }

  // --- The subscriber ---

  class LogSubscriber {
    var blockNumber: nat
    var index: nat
    var fromBlock: Option<nat>

    constructor ()
      ensures blockNumber == 0 && index == 0 && fromBlock == None
    {
      blockNumber, index, fromBlock := 0, 0, None;
    }

    /** The loop of one subscription, from its first event until it fails or ends. */
    method Consume(input: seq<Event>) returns (out: seq<Event>)
      modifies this`blockNumber, this`index
      ensures out == Forwarded(Position(old(blockNumber), old(index)), input)
      ensures Position(blockNumber, index) == EndPosition(Position(old(blockNumber), old(index)), input)
    {
      out := [];
      ghost var p := Position(blockNumber, index);
      for i := 0 to |input|
        invariant Position(blockNumber, index) == EndPosition(p, input[..i])
        invariant out == Forwarded(p, input[..i])
      {
        var ev := input[i];
        ForwardedAppend(p, input[..i], [ev]);
        assert input[..i + 1] == input[..i] + [ev];
        if ev.at.block < blockNumber || (ev.at.block == blockNumber && ev.at.index < index) {
          continue;
        }
        blockNumber, index := ev.at.block, ev.at.index;
        out := out + [ev];
      }
      assert input[..|input|] == input;
    }

    /** The deferred step, after the error has been published: the next subscription asks for this block. */
    method Save()
      modifies this`fromBlock
      ensures fromBlock == Some(blockNumber)
    {
      fromBlock := Some(blockNumber);
    }
  }

  // --- Reconnecting to a chain ---

  /** The chain's log: strictly increasing positions. */
  predicate Sorted(chain: seq<Event>) {
    forall i, j | 0 <= i < j < |chain| :: Less(chain[i].at, chain[j].at)
  }

  /** The first event of the chain at or after a block: where a subscription from that block starts. */
  function StartOf(chain: seq<Event>, block: nat, i: nat): (r: nat)
    requires i <= |chain|
    ensures i <= r <= |chain|
    ensures forall j | i <= j < r :: chain[j].at.block < block
    ensures r < |chain| ==> chain[r].at.block >= block
    decreases |chain| - i
  {
    if i == |chain| || chain[i].at.block >= block then i else StartOf(chain, block, i + 1)
  }

  /** A stretch of the chain. */
  function Stretch(chain: seq<Event>, lo: nat, hi: nat): (r: seq<Event>)
    requires lo <= hi <= |chain|
    ensures |r| == hi - lo
  {
    chain[lo..hi]
  }

  lemma StretchJoin(chain: seq<Event>, lo: nat, mid: nat, hi: nat)
    requires lo <= mid <= hi <= |chain|
    ensures Stretch(chain, lo, mid) + Stretch(chain, mid, hi) == Stretch(chain, lo, hi)
  {
  }

  lemma StretchHead(chain: seq<Event>, lo: nat, hi: nat)
    requires lo < hi <= |chain|
    ensures Stretch(chain, lo, hi) == [chain[lo]] + Stretch(chain, lo + 1, hi)
    ensures Stretch(chain, lo, hi)[0] == chain[lo] && Stretch(chain, lo, hi)[1..] == Stretch(chain, lo + 1, hi)
    ensures LastOr(None, Stretch(chain, lo, hi)) == Some(chain[hi - 1])
  {
  }

  /** One subscription: it replays chain[start..stop] and then fails. */
  datatype Session = Session(start: nat, stop: nat)

  predicate Within(chain: seq<Event>, s: Session) {
    s.start <= s.stop <= |chain|
  }

  function Replayed(p: Position, chain: seq<Event>, sessions: seq<Session>): seq<Event>
    requires forall i | 0 <= i < |sessions| :: Within(chain, sessions[i])
    decreases |sessions|
  {
    if sessions == [] then []
    else
      assert Within(chain, sessions[0]);
      var input := Stretch(chain, sessions[0].start, sessions[0].stop);
      Forwarded(p, input) + Replayed(EndPosition(p, input), chain, sessions[1..])
  }

  /** Drops every event equal to the one before it. */
  function Dedup(prev: Option<Event>, es: seq<Event>): seq<Event>
    decreases |es|
  {
    if es == [] then []
    else if prev == Some(es[0]) then Dedup(prev, es[1..])
    else [es[0]] + Dedup(Some(es[0]), es[1..])
  }

  function LastOr(prev: Option<Event>, es: seq<Event>): Option<Event> {
    if es == [] then prev else Some(es[|es| - 1])
  }

  lemma {:induction false} DedupAppend(prev: Option<Event>, a: seq<Event>, b: seq<Event>)
    ensures Dedup(prev, a + b) == Dedup(prev, a) + Dedup(LastOr(prev, a), b)
    decreases |a|
  {
    if a == [] {
      assert a + b == b;
    } else {
      assert (a + b)[0] == a[0] && (a + b)[1..] == a[1..] + b;
      DedupAppend(Some(a[0]), a[1..], b);
      assert LastOr(prev, a) == LastOr(Some(a[0]), a[1..]);
    }
  }

  /** Replaying a stretch of the chain forwards what is not before the current position, which is event c. */
  lemma {:induction false} ForwardedStretch(p: Position, chain: seq<Event>, lo: nat, hi: nat, c: nat)
    requires Sorted(chain) && lo <= hi <= |chain| && c <= |chain|
    requires forall i | 0 <= i < |chain| :: Less(chain[i].at, p) <==> i < c
    ensures var from := Max(lo, c);
            && Forwarded(p, Stretch(chain, lo, hi)) == (if from < hi then Stretch(chain, from, hi) else [])
            && EndPosition(p, Stretch(chain, lo, hi)) == (if from < hi then chain[hi - 1].at else p)
    decreases hi - lo
  {
    hide Stretch;
    if lo < hi {
      StretchHead(chain, lo, hi);
      if lo < c {
        ForwardedStretch(p, chain, lo + 1, hi, c);
      } else {
        ForwardedStretch(chain[lo].at, chain, lo + 1, hi, lo);
      }
    }
  }

  lemma {:induction false} DedupStretch(prev: Option<Event>, chain: seq<Event>, lo: nat, hi: nat)
    requires Sorted(chain) && lo <= hi <= |chain|
    requires lo < hi ==> prev != Some(chain[lo])
    ensures Dedup(prev, Stretch(chain, lo, hi)) == Stretch(chain, lo, hi)
    decreases hi - lo
  {
    hide Stretch;
    if lo < hi {
      StretchHead(chain, lo, hi);
      if lo + 1 < hi { assert Less(chain[lo].at, chain[lo + 1].at); }
      DedupStretch(Some(chain[lo]), chain, lo + 1, hi);
    }
  }

  /** How far the chain has been forwarded after the sessions. */
  function Reach(k: nat, sessions: seq<Session>): nat
    decreases |sessions|
  {
    if sessions == [] then k else Reach(Max(k, sessions[0].stop), sessions[1..])
  }

  /** Every session starts no later than right after the last event forwarded before it. */
  predicate Resumes(chain: seq<Event>, k: nat, sessions: seq<Session>)
    decreases |sessions|
  {
    sessions == [] ||
    (Within(chain, sessions[0]) && sessions[0].start <= k && Resumes(chain, Max(k, sessions[0].stop), sessions[1..]))
  }

  lemma {:induction false} ResumesWithin(chain: seq<Event>, k: nat, sessions: seq<Session>)
    requires Resumes(chain, k, sessions) && k <= |chain|
    ensures forall i | 0 <= i < |sessions| :: Within(chain, sessions[i])
    ensures k <= Reach(k, sessions) <= |chain|
    decreases |sessions|
  {
    if sessions != [] {
      ResumesWithin(chain, Max(k, sessions[0].stop), sessions[1..]);
      forall i | 0 <= i < |sessions| ensures Within(chain, sessions[i]) {
        if i > 0 { assert sessions[i] == sessions[1..][i - 1]; }
      }
    }
  }

  /** With event k - 1 the last forwarded, a session that starts at or before k adds exactly the events from k on. */
  lemma OneSession(chain: seq<Event>, k: nat, s: Session)
    requires Sorted(chain) && 0 < k <= |chain| && Within(chain, s) && s.start <= k
    ensures var out := Forwarded(chain[k - 1].at, Stretch(chain, s.start, s.stop));
            var k' := Max(k, s.stop);
            && Dedup(Some(chain[k - 1]), out) == Stretch(chain, k, k')
            && LastOr(Some(chain[k - 1]), out) == Some(chain[k' - 1])
            && EndPosition(chain[k - 1].at, Stretch(chain, s.start, s.stop)) == chain[k' - 1].at
  {
    hide Stretch, Forwarded, EndPosition;
    ForwardedStretch(chain[k - 1].at, chain, s.start, s.stop, k - 1);
    var from := Max(s.start, k - 1);
    EmptyStretch(chain, k);
    if from < s.stop {
      StretchHead(chain, from, s.stop);
      if k < s.stop { assert Less(chain[k - 1].at, chain[k].at); }
      DedupStretch(Some(chain[k - 1]), chain, k, s.stop);
    }
  }

  lemma EmptyStretch(chain: seq<Event>, k: nat)
    requires k <= |chain|
    ensures Stretch(chain, k, k) == []
  {
  }

  /** After event k - 1, any number of reconnections deliver exactly the events from k on, up to adjacent repeats. */
  lemma {:induction false} ReconnectionsDeliver(chain: seq<Event>, k: nat, sessions: seq<Session>)
    requires Sorted(chain) && 0 < k <= |chain| && Resumes(chain, k, sessions)
    ensures forall i | 0 <= i < |sessions| :: Within(chain, sessions[i])
    ensures k <= Reach(k, sessions) <= |chain|
    ensures Dedup(Some(chain[k - 1]), Replayed(chain[k - 1].at, chain, sessions)) == Stretch(chain, k, Reach(k, sessions))
    decreases |sessions|
  {
    hide Stretch, Forwarded, EndPosition, Dedup, LastOr;
    ResumesWithin(chain, k, sessions);
    if sessions == [] {
      EmptyStretch(chain, k);
      DedupNothing(Some(chain[k - 1]));
    } else {
      var s := sessions[0];
      var k' := Max(k, s.stop);
      OneSession(chain, k, s);
      ReconnectionsDeliver(chain, k', sessions[1..]);
      var out := Forwarded(chain[k - 1].at, Stretch(chain, s.start, s.stop));
      DedupAppend(Some(chain[k - 1]), out, Replayed(chain[k' - 1].at, chain, sessions[1..]));
      StretchJoin(chain, k, k', Reach(k', sessions[1..]));
    }
  }

  lemma DedupNothing(prev: Option<Event>)
    ensures Dedup(prev, []) == []
  {
  }

  /** Resuming from the saved block, or from any earlier one, starts in time. */
  lemma SavedBlockResumes(chain: seq<Event>, k: nat, block: nat)
    requires Sorted(chain) && 0 < k <= |chain| && block <= chain[k - 1].at.block
    ensures StartOf(chain, block, 0) < k
  {
  }

  /** Sessions that each ask for the block of the last event forwarded, and stop wherever they stop. */
  function SavedSessions(chain: seq<Event>, k: nat, stops: seq<nat>): seq<Session>
    requires 0 < k <= |chain| && forall i | 0 <= i < |stops| :: stops[i] <= |chain|
    decreases |stops|
  {
    if stops == [] then []
    else
      var start := StartOf(chain, chain[k - 1].at.block, 0);
      var stop := Max(start, stops[0]);
      [Session(start, stop)] + SavedSessions(chain, Max(k, stop), stops[1..])
  }

  lemma {:induction false} SavedSessionsResume(chain: seq<Event>, k: nat, stops: seq<nat>)
    requires Sorted(chain) && 0 < k <= |chain| && forall i | 0 <= i < |stops| :: stops[i] <= |chain|
    ensures Resumes(chain, k, SavedSessions(chain, k, stops))
    decreases |stops|
  {
    if stops != [] {
      var start := StartOf(chain, chain[k - 1].at.block, 0);
      var stop := Max(start, stops[0]);
      SavedBlockResumes(chain, k, chain[k - 1].at.block);
      SavedSessionsResume(chain, Max(k, stop), stops[1..]);
      var sessions := SavedSessions(chain, k, stops);
      assert sessions[0] == Session(start, stop) && sessions[1..] == SavedSessions(chain, Max(k, stop), stops[1..]);
    }
  }

  /** Any number of sessions that start from the block saved after the one before deliver every event that follows. */
  lemma SavedSessionsDeliver(chain: seq<Event>, k: nat, stops: seq<nat>)
    requires Sorted(chain) && 0 < k <= |chain| && forall i | 0 <= i < |stops| :: stops[i] <= |chain|
    ensures var sessions := SavedSessions(chain, k, stops);
            && (forall i | 0 <= i < |sessions| :: Within(chain, sessions[i]))
            && k <= Reach(k, sessions) <= |chain|
            && Dedup(Some(chain[k - 1]), Replayed(chain[k - 1].at, chain, sessions)) == Stretch(chain, k, Reach(k, sessions))
  {
    hide SavedSessions, Resumes, Dedup, Replayed, Stretch;
    SavedSessionsResume(chain, k, stops);
    ReconnectionsDeliver(chain, k, SavedSessions(chain, k, stops));
  }
}
