/**
 The reply countdown of a broadcast. Each worker that received the request answers on one shared
 reply channel, atomically decrements one shared counter, and closes the channel if it brought the
 counter to zero; the three actions of different workers interleave in any order. A handler that
 panics answers with an error through the same three actions.
 */
module BroadcastReplies {
  import opened Basics

  datatype Response<R> = Response(key: Key, outcome: Outcome<R>)
  datatype Outcome<R> = Value(value: R) | Panic(message: string)

  datatype Progress = Queued | Answered | Last | Finished

  /** late records whether anything was sent on the reply channel after it was closed. */
  datatype Reply<R> = Reply(at: map<Key, Progress>, count: int, sent: seq<Response<R>>, closes: nat, late: bool)

  datatype Action<R> = Send(key: Key, outcome: Outcome<R>) | Decrement(key: Key) | Close(key: Key)

  function Begin<R>(keys: set<Key>): Reply<R> {
    Reply(map k | k in keys :: Queued, |keys|, [], 0, false)
  }

  /** outcomes gives what each worker's handler comes to: a value or a panic. */
  predicate Enabled<R(==)>(s: Reply<R>, outcomes: map<Key, Outcome<R>>, a: Action<R>) {
    && a.key in s.at
    && (a.Send? ==> a.key in outcomes && a.outcome == outcomes[a.key])
    && s.at[a.key] == match a case Send(_, _) => Queued case Decrement(_) => Answered case Close(_) => Last
  }

  function Apply<R>(s: Reply<R>, a: Action<R>): Reply<R> {
    match a
    case Send(k, o) => s.(at := s.at[k := Answered], sent := s.sent + [Response(k, o)], late := s.late || s.closes > 0)
    case Decrement(k) => s.(at := s.at[k := if s.count - 1 == 0 then Last else Finished], count := s.count - 1)
    case Close(k) => s.(at := s.at[k := Finished], closes := s.closes + 1)
  }

  /** The keys whose worker has not decremented yet. */
  function Outstanding<R>(s: Reply<R>): set<Key> {
    set k | k in s.at && s.at[k] in {Queued, Answered}
  }

  function Unanswered<R>(s: Reply<R>): set<Key> {
    set k | k in s.at && s.at[k] == Queued
  }

  function Closers<R>(s: Reply<R>): set<Key> {
    set k | k in s.at && s.at[k] == Last
  }

  function SentKeys<R>(rs: seq<Response<R>>): multiset<Key> {
    if rs == [] then multiset{} else SentKeys(rs[..|rs| - 1]) + multiset{rs[|rs| - 1].key}
  }

  ghost predicate Inv<R>(s: Reply<R>, outcomes: map<Key, Outcome<R>>) {
    && s.at.Keys == outcomes.Keys
    && s.count == |Outstanding(s)|
    && SentKeys(s.sent) + multiset(Unanswered(s)) == multiset(outcomes.Keys)
    && s.closes + |Closers(s)| == (if s.count == 0 then 1 else 0)
    && !s.late
    && forall i | 0 <= i < |s.sent| :: s.sent[i].key in outcomes && s.sent[i].outcome == outcomes[s.sent[i].key]
  }

  lemma BeginInv<R>(outcomes: map<Key, Outcome<R>>)
    requires outcomes != map[]
    ensures Inv(Begin<R>(outcomes.Keys), outcomes)
  {
    var s := Begin<R>(outcomes.Keys);
    assert outcomes.Keys != {};
    assert Outstanding(s) == outcomes.Keys && Unanswered(s) == outcomes.Keys && Closers(s) == {};
  }

  lemma SendKeeps<R>(s: Reply<R>, outcomes: map<Key, Outcome<R>>, k: Key, o: Outcome<R>)
    requires Inv(s, outcomes) && Enabled(s, outcomes, Send(k, o))
    ensures Inv(Apply(s, Send(k, o)), outcomes)
  {
    var s' := Apply(s, Send(k, o));
    assert k in Outstanding(s);
    assert Outstanding(s') == Outstanding(s) && Closers(s') == Closers(s);
    assert Unanswered(s') == Unanswered(s) - {k};
    assert multiset(Unanswered(s')) + multiset{k} == multiset(Unanswered(s));
    assert s'.sent[..|s'.sent| - 1] == s.sent;
  }

  lemma DecrementKeeps<R>(s: Reply<R>, outcomes: map<Key, Outcome<R>>, k: Key)
    requires Inv(s, outcomes) && Enabled(s, outcomes, Action<R>.Decrement(k))
    ensures Inv(Apply(s, Action<R>.Decrement(k)), outcomes)
  {
    var s' := Apply(s, Action<R>.Decrement(k));
    assert k in Outstanding(s);
    assert Outstanding(s') == Outstanding(s) - {k} && Unanswered(s') == Unanswered(s);
    assert s.closes == 0 && Closers(s) == {};
    if s'.count == 0 { assert Closers(s') == {k}; } else { assert Closers(s') == {}; }
  }

  lemma CloseKeeps<R>(s: Reply<R>, outcomes: map<Key, Outcome<R>>, k: Key)
    requires Inv(s, outcomes) && Enabled(s, outcomes, Action<R>.Close(k))
    ensures Inv(Apply(s, Action<R>.Close(k)), outcomes)
  {
    var s' := Apply(s, Action<R>.Close(k));
    assert k in Closers(s);
    assert Closers(s') == Closers(s) - {k};
    assert Outstanding(s') == Outstanding(s) && Unanswered(s') == Unanswered(s);
  }

  ghost predicate Possible<R>(s: Reply<R>, outcomes: map<Key, Outcome<R>>, run: seq<Action<R>>)
    decreases |run|
  {
    run == [] || (Enabled(s, outcomes, run[0]) && Possible(Apply(s, run[0]), outcomes, run[1..]))
  }

  function After<R>(s: Reply<R>, run: seq<Action<R>>): Reply<R>
    decreases |run|
  {
    if run == [] then s else After(Apply(s, run[0]), run[1..])
  }

  lemma {:induction false} RunKeeps<R>(s: Reply<R>, outcomes: map<Key, Outcome<R>>, run: seq<Action<R>>)
    requires Inv(s, outcomes) && Possible(s, outcomes, run)
    ensures Inv(After(s, run), outcomes)
    decreases |run|
  {
    hide Inv;
    if run != [] {
      match run[0] {
        case Send(k, o) => SendKeeps(s, outcomes, k, o);
        case Decrement(k) => DecrementKeeps(s, outcomes, k);
        case Close(k) => CloseKeeps(s, outcomes, k);
      }
      RunKeeps(Apply(s, run[0]), outcomes, run[1..]);
    }
  }

  lemma {:induction false} RunCounts<R>(s: Reply<R>, run: seq<Action<R>>)
    ensures var s' := After(s, run);
            |s'.sent| - s'.count + s'.closes == |s.sent| - s.count + s.closes + |run|
    decreases |run|
  {
    if run != [] { RunCounts(Apply(s, run[0]), run[1..]); }
  }

  lemma {:induction false} SentSize<R>(rs: seq<Response<R>>)
    ensures |SentKeys(rs)| == |rs|
  {
    if rs != [] { SentSize(rs[..|rs| - 1]); }
  }

  /** What a worker that is not done can do next. */
  lemma CanAct<R>(s: Reply<R>, outcomes: map<Key, Outcome<R>>, k: Key)
    requires Inv(s, outcomes) && k in s.at && s.at[k] != Finished
    ensures exists a :: Enabled(s, outcomes, a)
  {
    var a := match s.at[k] case Queued => Action<R>.Send(k, outcomes[k]) case Answered => Action<R>.Decrement(k)
                           case _ => Action<R>.Close(k);
    assert Enabled(s, outcomes, a);
  }

  lemma AllDone<R>(s: Reply<R>, outcomes: map<Key, Outcome<R>>)
    requires forall k | k in s.at :: s.at[k] == Finished
    ensures !exists a :: Enabled(s, outcomes, a)
  {
  }

  /** The channel is open as long as a worker has something left to do. */
  lemma OpenIff<R>(s: Reply<R>, outcomes: map<Key, Outcome<R>>)
    requires Inv(s, outcomes)
    ensures s.closes <= 1
    ensures s.closes == 0 <==> exists a :: Enabled(s, outcomes, a)
    ensures s.closes == 1 ==> s.count == 0 && SentKeys(s.sent) == multiset(outcomes.Keys)
  {
    if s.closes == 1 {
      assert Outstanding(s) == {} && Closers(s) == {};
      forall k | k in s.at ensures s.at[k] == Finished {
        assert k !in Outstanding(s) && k !in Closers(s);
      }
      AllDone(s, outcomes);
      assert Unanswered(s) == {};
    } else if Outstanding(s) != {} {
      var k :| k in Outstanding(s);
      CanAct(s, outcomes, k);
    } else {
      var k :| k in Closers(s);
      CanAct(s, outcomes, k);
    }
  }

  /**
   Under every interleaving the reply channel is closed at most once and nothing is sent on it
   afterwards; every response carries its own worker's outcome; once the channel is closed exactly
   one response per worker key has been received. Some worker can act exactly as long as it is not
   closed, and no run is longer than two actions per worker and one closing: a run that can go no
   further has closed the channel.
   */
  lemma BroadcastExact<R>(outcomes: map<Key, Outcome<R>>, run: seq<Action<R>>)
    requires outcomes != map[] && Possible(Begin<R>(outcomes.Keys), outcomes, run)
    ensures var s := After(Begin<R>(outcomes.Keys), run);
            && s.closes <= 1 && !s.late
            && (forall r | r in s.sent :: r.key in outcomes && r.outcome == outcomes[r.key])
            && SentKeys(s.sent) <= multiset(outcomes.Keys)
            && (s.closes == 1 ==> SentKeys(s.sent) == multiset(outcomes.Keys))
            && (s.closes == 0 <==> exists a :: Enabled(s, outcomes, a))
            && |run| <= 2 * |outcomes.Keys| + 1
            && (s.closes == 1 ==> |run| == 2 * |outcomes.Keys| + 1)
  {
    hide Enabled;
    var s0 := Begin<R>(outcomes.Keys);
    BeginInv<R>(outcomes);
    RunKeeps(s0, outcomes, run);
    RunCounts(s0, run);
    var s := After(s0, run);
    SentSize(s.sent);
    OpenIff(s, outcomes);
    SubsetSize(SentKeys(s.sent), multiset(Unanswered(s)), multiset(outcomes.Keys));
  }

  lemma SubsetSize(a: multiset<Key>, b: multiset<Key>, c: multiset<Key>)
    requires a + b == c
    ensures a <= c && |a| <= |c|
  {
    assert |a + b| == |a| + |b|;
  }
}
