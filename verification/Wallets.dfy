/**
 The wallet owner's nonce: a local counter that is spent on every attempt to send, corrected from
 the ledger when the ledger rejects it, inside a retried closure; below it a client that resends the
 same signed bytes until it gets an answer. The ledger accepts a transaction exactly when its nonce
 is the account's, and this owner is the account's only sender.
 */
module Wallets {
  import opened Basics
  import opened Retrying

  type RequestId = nat

  datatype Committed = Committed(nonce: nat, request: RequestId)

  // --- The ledger and the client in front of it ---

  /** The account on the ledger: its next nonce, and what was committed, in order. */
  datatype Account = Account(nonce: nat, committed: seq<Committed>)

  function Submit(a: Account, n: nat, r: RequestId): Account {
    if n == a.nonce then Account(n + 1, a.committed + [Committed(n, r)]) else a
  }

  datatype SendError = SigningFailed | ExceedsBalance | ExceedsBlockLimit | OtherError | InvalidNonce | NonceUnavailable

  /**
   What happens to one delivery of the signed bytes: it never arrives, it arrives but no reply comes
   back, it is refused for a reason other than its nonce, or it is answered; the answer to an accepted
   transaction may still carry a status that cannot be parsed.
   */
  datatype Delivery = Lost | ReplyLost | OutOfFunds | OverBlockLimit | Answered(legible: bool)

  datatype Outcome = Accepted | Refused(error: SendError)

  /** The client delivers the same bytes until one delivery is answered, or it is out of attempts. */
  function Post(a: Account, n: nat, r: RequestId, wire: seq<Delivery>): (Account, Outcome)
    decreases |wire|
  {
    if wire == [] then (a, Refused(OtherError))
    else
      match wire[0]
      case Lost => Post(a, n, r, wire[1..])
      case ReplyLost => Post(Submit(a, n, r), n, r, wire[1..])
      case OutOfFunds => (a, Refused(ExceedsBalance))
      case OverBlockLimit => (a, Refused(ExceedsBlockLimit))
      case Answered(legible) =>
        if n != a.nonce then (a, Refused(InvalidNonce))
        else (Submit(a, n, r), if legible then Accepted else Refused(OtherError))
  }

  /** The first delivery that arrives. */
  function Arrival(wire: seq<Delivery>): Option<Delivery> {
    if wire == [] then None else if wire[0].Lost? then Arrival(wire[1..]) else Some(wire[0])
  }

  predicate Lands(wire: seq<Delivery>) {
    Arrival(wire).Some? && (Arrival(wire).value.ReplyLost? || Arrival(wire).value.Answered?)
  }

  /** Once the account has moved past the nonce, resending changes nothing and is never accepted. */
  lemma {:induction false} ResendIsRefused(a: Account, n: nat, r: RequestId, wire: seq<Delivery>)
    requires n != a.nonce
    ensures Post(a, n, r, wire).0 == a && Post(a, n, r, wire).1.Refused?
    decreases |wire|
  {
    if wire != [] { ResendIsRefused(a, n, r, wire[1..]); }
  }

  /**
   However often the bytes are resent they commit at most once, and whether they do and whether that is
   reported is decided by the nonce and the first delivery that arrives.
   */
  lemma {:induction false} PostExact(a: Account, n: nat, r: RequestId, wire: seq<Delivery>)
    ensures Post(a, n, r, wire).0 == (if Lands(wire) then Submit(a, n, r) else a)
    ensures Post(a, n, r, wire).1.Accepted? <==> n == a.nonce && Arrival(wire) == Some(Answered(true))
    decreases |wire|
  {
    if wire != [] {
      if wire[0].ReplyLost? && n == a.nonce {
        ResendIsRefused(Submit(a, n, r), n, r, wire[1..]);
      } else if wire[0].ReplyLost? {
        ResendIsRefused(a, n, r, wire[1..]);
      } else if wire[0].Lost? {
        PostExact(a, n, r, wire[1..]);
      }
    }
  }

  /** The first delivery that is answered. */
  function Decisive(wire: seq<Delivery>): (d: Option<Delivery>)
    ensures d.Some? ==> !d.value.Lost? && !d.value.ReplyLost?
  {
    if wire == [] then None
    else if wire[0].Lost? || wire[0].ReplyLost? then Decisive(wire[1..])
    else Some(wire[0])
  }

  /** What the client reports is decided by the first delivery answered, and by whether an earlier one had arrived. */
  lemma {:induction false} PostOutcome(a: Account, n: nat, r: RequestId, wire: seq<Delivery>)
    ensures Post(a, n, r, wire).1 == match Decisive(wire)
                                     case None => Refused(OtherError)
                                     case Some(OutOfFunds) => Refused(ExceedsBalance)
                                     case Some(OverBlockLimit) => Refused(ExceedsBlockLimit)
                                     case Some(d) =>
                                       if n != a.nonce || Arrival(wire) != Some(d) then Refused(InvalidNonce)
                                       else if d == Answered(true) then Accepted
                                       else Refused(OtherError)
    decreases |wire|
  {
    if wire != [] {
      if wire[0].Lost? { PostOutcome(a, n, r, wire[1..]); }
      if wire[0].ReplyLost? { PostOutcome(Submit(a, n, r), n, r, wire[1..]); }
    }
  }

  // --- The retried closure ---

  /** The owner's local nonce and the account it sends from. */
  datatype Wallet = Wallet(nonce: nat, account: Account)

  /**
   What one attempt meets: whether the context is done before it, whether it can sign, what becomes of its
   deliveries, whether the nonce can be fetched.
   */
  datatype Trial = Trial(cancelled: bool, signs: bool, wire: seq<Delivery>, fetches: bool)

  /** 10 attempts, as the owner configures its retries. */
  const RETRY := Config(false, false, 10, 2, 1_000_000_000, 5_000_000_000)

  /** One run of the retried closure. */
  function Attempt(w: Wallet, r: RequestId, t: Trial): (Wallet, Tick<nat, SendError>) {
    var n := w.nonce;
    if t.cancelled then (w, Cancelled)
    else if !t.signs then (w.(nonce := n + 1), Failed(SigningFailed))
    else
      var (a, outcome) := Post(w.account, n, r, t.wire);
      var spent := Wallet(n + 1, a);
      match outcome
      case Accepted => (spent, Succeeded(n))
      case Refused(e) =>
        if e != InvalidNonce then (spent, CannotRecover(e))
        else if t.fetches then (spent.(nonce := a.nonce), Failed(InvalidNonce))
        else (spent, CannotRecover(NonceUnavailable))
  }

  /** The turns of the retry loop: attempts follow one another while they fail recoverably. */
  function Ticks(w: Wallet, r: RequestId, trials: seq<Trial>): (ts: seq<Tick<nat, SendError>>)
    ensures |ts| <= |trials|
    ensures forall i | 0 <= i < |ts| - 1 :: ts[i].Failed?
    ensures |ts| < |trials| ==> ts != [] && !ts[|ts| - 1].Failed?
    decreases |trials|
  {
    if trials == [] then []
    else
      var (w', t) := Attempt(w, r, trials[0]);
      [t] + if t.Failed? then Ticks(w', r, trials[1..]) else []
  }

  /** The wallet after those attempts. */
  function AfterSend(w: Wallet, r: RequestId, trials: seq<Trial>): Wallet
    decreases |trials|
  {
    if trials == [] then w
    else
      var (w', t) := Attempt(w, r, trials[0]);
      if t.Failed? then AfterSend(w', r, trials[1..]) else w'
  }

  /** sendTransaction over up to ten attempts: the result of the retry loop. */
  function SendResult(w: Wallet, r: RequestId, trials: seq<Trial>): Result<nat, SendError> {
    Expected(Ticks(w, r, trials), RETRY)
  }

  lemma {:induction false} TicksDecide(w: Wallet, r: RequestId, trials: seq<Trial>)
    requires |trials| == 10
    ensures var ts := Ticks(w, r, trials);
            ts != [] &&
            SendResult(w, r, trials) == match ts[|ts| - 1]
                                        case Cancelled => ContextCancelled
                                        case Succeeded(v) => Returned(v)
                                        case CannotRecover(e) => Aborted(e)
                                        case Failed(_) => MaxAttemptsReached(Errors(ts, |ts|))
  {
    var ts := Ticks(w, r, trials);
    assert ts != [];
    var n := FirstDecisive(ts, 0);
    if ts[|ts| - 1].Failed? {
      assert n == |ts| == 10;
    } else {
      assert n == |ts| - 1;
    }
  }

  // --- One request ---

  /** The account after the request committed k times in a row. */
  function Copies(a: Account, r: RequestId, k: nat): (a': Account)
    ensures a'.nonce == a.nonce + k && |a'.committed| == |a.committed| + k
    decreases k
  {
    if k == 0 then a else Copies(Submit(a, a.nonce, r), r, k - 1)
  }

  /** How far the local nonce is from the account's before attempt i, if it starts d away and the earlier ones fail. */
  function Offset(d: int, trials: seq<Trial>, i: nat): int
    requires i <= |trials|
    decreases i
  {
    if i == 0 then d else Offset(if trials[0].signs then 0 else d + 1, trials[1..], i - 1)
  }

  /** The ledger would take the bytes without the owner learning that it did. */
  predicate Conceals(t: Trial) {
    !t.cancelled && t.signs && (Arrival(t.wire) == Some(ReplyLost) || Arrival(t.wire) == Some(Answered(false)))
  }

  /** Attempt i carries the account's nonce and its commit goes unreported. */
  predicate Struck(d: int, trials: seq<Trial>, i: nat)
    requires i < |trials|
  {
    Offset(d, trials, i) == 0 && Conceals(trials[i])
  }

  /** The number of the first n attempts that commit unreported. */
  function Strikes(d: int, trials: seq<Trial>, n: nat): nat
    requires n <= |trials|
    decreases n
  {
    if n == 0 then 0
    else (if d == 0 && Conceals(trials[0]) then 1 else 0)
         + Strikes(if trials[0].signs then 0 else d + 1, trials[1..], n - 1)
  }

  lemma {:induction false} NoStrikesIff(d: int, trials: seq<Trial>, n: nat)
    requires n <= |trials|
    ensures Strikes(d, trials, n) == 0 <==> forall i | 0 <= i < n :: !Struck(d, trials, i)
    decreases n
  {
    if n > 0 {
      var d' := if trials[0].signs then 0 else d + 1;
      NoStrikesIff(d', trials[1..], n - 1);
      assert Struck(d, trials, 0) <==> d == 0 && Conceals(trials[0]);
      forall i | 0 < i < n ensures Struck(d, trials, i) <==> Struck(d', trials[1..], i - 1) {
      }
      if i :| 0 <= i < n - 1 && Struck(d', trials[1..], i) {
        assert Struck(d, trials, i + 1);
      }
    }
  }

  function Away(w: Wallet): int {
    w.nonce - w.account.nonce
  }

  /** One attempt commits at most once: reported when it succeeds, unreported exactly when it is struck. */
  lemma AttemptExact(w: Wallet, r: RequestId, t: Trial)
    ensures var (w', tick) := Attempt(w, r, t);
            var k := if tick.Succeeded? || (Away(w) == 0 && Conceals(t)) then 1 else 0;
            && w'.account == Copies(w.account, r, k)
            && (tick.Succeeded? ==> tick.value == w.account.nonce && Away(w') == 0 && !Conceals(t))
            && (tick.Failed? ==> Away(w') == if t.signs then 0 else Away(w) + 1)
            && w'.nonce == (if t.cancelled then w.nonce else if tick == Failed(InvalidNonce) then w'.account.nonce else w.nonce + 1)
            && (tick.Cancelled? <==> t.cancelled) && (!t.cancelled && !t.signs ==> tick.Failed?)
  {
    hide Post;
    PostExact(w.account, w.nonce, r, t.wire);
    assert Copies(w.account, r, 1) == Copies(Submit(w.account, w.account.nonce, r), r, 0);
  }

  lemma {:induction false} CopiesAdd(a: Account, r: RequestId, j: nat, k: nat)
    ensures Copies(Copies(a, r, j), r, k) == Copies(a, r, j + k)
    decreases j
  {
    if j > 0 { CopiesAdd(Submit(a, a.nonce, r), r, j - 1, k); }
  }

  /** The first attempt, and the others if it fails recoverably. */
  lemma Unfold(w: Wallet, r: RequestId, trials: seq<Trial>, d: int)
    requires trials != []
    ensures var (w1, t) := Attempt(w, r, trials[0]);
            var ts := Ticks(w, r, trials);
            if t.Failed? && |trials| > 1 then
              var rest := Ticks(w1, r, trials[1..]);
              && ts == [t] + rest && rest != [] && ts[|ts| - 1] == rest[|rest| - 1]
              && AfterSend(w, r, trials) == AfterSend(w1, r, trials[1..])
              && Strikes(d, trials, |ts|) == (if d == 0 && Conceals(trials[0]) then 1 else 0)
                                             + Strikes(if trials[0].signs then 0 else d + 1, trials[1..], |rest|)
            else
              && ts == [t] && AfterSend(w, r, trials) == w1
              && Strikes(d, trials, 1) == if d == 0 && Conceals(trials[0]) then 1 else 0
  {
    hide Attempt, Conceals;
    var (w1, t) := Attempt(w, r, trials[0]);
    if t.Failed? && |trials| > 1 {
      var rest := Ticks(w1, r, trials[1..]);
      assert Ticks(w, r, trials) == [t] + rest;
      assert ([t] + rest)[|rest|] == rest[|rest| - 1];
    }
  }

  /** The attempts commit once for every strike and once more if the last of them succeeds. */
  lemma {:induction false} AttemptsExact(w: Wallet, r: RequestId, trials: seq<Trial>)
    requires trials != []
    ensures var ts, w' := Ticks(w, r, trials), AfterSend(w, r, trials);
            && ts != [] && (ts[|ts| - 1].Cancelled? <==> trials[|ts| - 1].cancelled)
            && w'.account == Copies(w.account, r, Strikes(Away(w), trials, |ts|) + if ts[|ts| - 1].Succeeded? then 1 else 0)
            && (ts[|ts| - 1].Succeeded? ==> ts[|ts| - 1].value == w'.account.nonce - 1 && Away(w') == 0)
    decreases |trials|
  {
    hide Attempt, Copies, Conceals, Away, Ticks, AfterSend, Strikes;
    var (w1, t) := Attempt(w, r, trials[0]);
    AttemptExact(w, r, trials[0]);
    Unfold(w, r, trials, Away(w));
    if t.Failed? && |trials| > 1 {
      AttemptsExact(w1, r, trials[1..]);
      var rest := Ticks(w1, r, trials[1..]);
      var more := Strikes(Away(w1), trials[1..], |rest|) + if rest[|rest| - 1].Succeeded? then 1 else 0;
      CopiesAdd(w.account, r, if Away(w) == 0 && Conceals(trials[0]) then 1 else 0, more);
    }
  }

  /**
   Whatever goes wrong, a request commits only under the account's next nonces, and a success leaves both
   nonces equal. It commits exactly once if it is reported as sent and not at all otherwise, exactly
   when no attempt made carries the account's nonce and has its reply lost or illegible.
   */
  lemma SendCommitsIff(w: Wallet, r: RequestId, trials: seq<Trial>)
    requires |trials| == 10
    ensures var w', res, made := AfterSend(w, r, trials), SendResult(w, r, trials), |Ticks(w, r, trials)|;
            var commits := |w'.account.committed| - |w.account.committed|;
            && commits == Strikes(Away(w), trials, made) + (if res.Returned? then 1 else 0)
            && w'.account == Copies(w.account, r, commits)
            && (res.Returned? ==> res.value == w'.account.nonce - 1 && Away(w') == 0)
            && (commits == (if res.Returned? then 1 else 0) <==> forall i | 0 <= i < made :: !Struck(Away(w), trials, i))
            && !res.StillTrying? && made > 0 && (res.ContextCancelled? <==> trials[made - 1].cancelled)
  {
    hide SendResult, Ticks, AfterSend, Strikes, Struck, Away;
    TicksDecide(w, r, trials);
    AttemptsExact(w, r, trials);
    NoStrikesIff(Away(w), trials, |Ticks(w, r, trials)|);
  }

  /** A commit whose status cannot be parsed is reported as a failure. */
  lemma IllegibleReplyHidesCommit(w: Wallet, r: RequestId, trials: seq<Trial>)
    requires |trials| == 10 && w.nonce == w.account.nonce
    requires trials[0] == Trial(false, true, [Answered(false)], true)
    ensures SendResult(w, r, trials) == Aborted(OtherError)
    ensures AfterSend(w, r, trials).account == Copies(w.account, r, 1)
  {
    hide SendResult;
    var (w', t) := Attempt(w, r, trials[0]);
    assert t == CannotRecover(OtherError);
    assert Ticks(w, r, trials) == [t];
    TicksDecide(w, r, trials);
    AttemptExact(w, r, trials[0]);
    assert Arrival([Answered(false)]) == Some(Answered(false));
  }

  /** Lack of funds, or a transaction over the block limit, ends the request at once and still spends a nonce. */
  lemma RefusalAborts(w: Wallet, r: RequestId, trials: seq<Trial>)
    requires |trials| == 10 && !trials[0].cancelled && trials[0].signs
    requires Decisive(trials[0].wire) == Some(OutOfFunds) || Decisive(trials[0].wire) == Some(OverBlockLimit)
    ensures SendResult(w, r, trials)
         == Aborted(if Decisive(trials[0].wire) == Some(OutOfFunds) then ExceedsBalance else ExceedsBlockLimit)
    ensures AfterSend(w, r, trials).nonce == w.nonce + 1
  {
    hide SendResult, Post;
    PostOutcome(w.account, w.nonce, r, trials[0].wire);
    AttemptExact(w, r, trials[0]);
    assert Ticks(w, r, trials) == [Attempt(w, r, trials[0]).1];
    TicksDecide(w, r, trials);
  }

  predicate ResentAfterLostReply(t: Trial) {
    t == Trial(false, true, [ReplyLost, Answered(true)], true)
  }

  lemma LostReplyRetries(w: Wallet, r: RequestId, t: Trial)
    requires w.nonce == w.account.nonce && ResentAfterLostReply(t)
    ensures var (w', tick) := Attempt(w, r, t);
            tick == Failed(InvalidNonce) && w'.account == Submit(w.account, w.nonce, r) && w'.nonce == w'.account.nonce
  {
    assert t.wire[1..] == [Answered(true)];
    assert Post(Submit(w.account, w.nonce, r), w.nonce, r, [Answered(true)]).1 == Refused(InvalidNonce);
  }

  lemma {:induction false} LostRepliesCommit(w: Wallet, r: RequestId, trials: seq<Trial>)
    requires w.nonce == w.account.nonce && trials != []
    requires forall i | 0 <= i < |trials| :: ResentAfterLostReply(trials[i])
    ensures var ts := Ticks(w, r, trials);
            |ts| == |trials| && ts[|ts| - 1].Failed? && AfterSend(w, r, trials).account == Copies(w.account, r, |trials|)
    decreases |trials|
  {
    hide Attempt;
    var (w', t) := Attempt(w, r, trials[0]);
    LostReplyRetries(w, r, trials[0]);
    if |trials| > 1 {
      LostRepliesCommit(w', r, trials[1..]);
      var rest := Ticks(w', r, trials[1..]);
      assert Ticks(w, r, trials) == [t] + rest;
      assert ([t] + rest)[|rest|] == rest[|rest| - 1];
    } else {
      assert AfterSend(w, r, trials) == w';
      assert Copies(w.account, r, 1) == Copies(Submit(w.account, w.account.nonce, r), r, 0);
    }
  }

  /**
   A reply lost after the commit makes the client resend, the ledger reject the resent nonce, and the owner
   sign the request afresh: ten lost replies commit it ten times and report that it was never sent.
   */
  lemma LostRepliesCommitTenTimes(w: Wallet, r: RequestId, trials: seq<Trial>)
    requires |trials| == 10 && w.nonce == w.account.nonce
    requires forall i | 0 <= i < 10 :: ResentAfterLostReply(trials[i])
    ensures SendResult(w, r, trials).MaxAttemptsReached?
    ensures AfterSend(w, r, trials).account == Copies(w.account, r, 10)
  {
    hide SendResult, ResentAfterLostReply;
    LostRepliesCommit(w, r, trials);
    TicksDecide(w, r, trials);
  }

  /** With one lost reply the request commits twice and is reported as sent. */
  lemma LostReplyCommitsTwice(w: Wallet, r: RequestId, trials: seq<Trial>)
    requires |trials| == 10 && w.nonce == w.account.nonce
    requires ResentAfterLostReply(trials[0]) && Clean(trials[1])
    ensures SendResult(w, r, trials) == Returned(w.nonce + 1)
    ensures AfterSend(w, r, trials).account == Copies(w.account, r, 2)
  {
    hide SendResult, Attempt, Copies;
    var (w1, t1) := Attempt(w, r, trials[0]);
    LostReplyRetries(w, r, trials[0]);
    var (w2, t2) := Attempt(w1, r, trials[1]);
    CleanAttempt(w1, r, trials[1]);
    assert t2 == Succeeded(w.nonce + 1);
    assert Ticks(w1, r, trials[1..]) == [t2] && AfterSend(w1, r, trials[1..]) == w2;
    assert Ticks(w, r, trials) == [t1, t2] && AfterSend(w, r, trials) == w2;
    TicksDecide(w, r, trials);
    AttemptExact(w, r, trials[0]);
    assert Arrival([ReplyLost, Answered(true)]) == Some(ReplyLost);
    CopiesAdd(w.account, r, 1, 1);
  }

  /** Nothing is wrong with the attempt but, possibly, its nonce. */
  predicate Clean(t: Trial) {
    !t.cancelled && t.signs && t.fetches && Arrival(t.wire) == Some(Answered(true))
  }

  lemma {:induction false} CleanPost(a: Account, n: nat, r: RequestId, wire: seq<Delivery>)
    requires Arrival(wire) == Some(Answered(true))
    ensures n != a.nonce ==> Post(a, n, r, wire).1 == Refused(InvalidNonce)
    decreases |wire|
  {
    if wire[0].Lost? { CleanPost(a, n, r, wire[1..]); }
  }

  lemma CleanAttempt(w: Wallet, r: RequestId, t: Trial)
    requires Clean(t)
    ensures var (w', tick) := Attempt(w, r, t);
            && Away(w') == 0
            && w'.account == Copies(w.account, r, if Away(w) == 0 then 1 else 0)
            && tick == if Away(w) == 0 then Succeeded(w.nonce) else Failed(InvalidNonce)
  {
    PostExact(w.account, w.nonce, r, t.wire);
    CleanPost(w.account, w.nonce, r, t.wire);
    AttemptExact(w, r, t);
  }

  predicate Mild(t: Trial) {
    Clean(t) || (!t.cancelled && !t.signs)
  }

  /** From any local nonce, two clean attempts in a row commit the request. */
  lemma {:induction false} TwoCleanAttempts(w: Wallet, r: RequestId, trials: seq<Trial>, j: nat)
    requires j + 1 < |trials| && Clean(trials[j]) && Clean(trials[j + 1])
    requires forall i | 0 <= i < j :: Mild(trials[i])
    ensures var ts := Ticks(w, r, trials);
            && 0 < |ts| <= j + 2 && ts[|ts| - 1].Succeeded?
            && AfterSend(w, r, trials).account == Copies(w.account, r, 1)
    decreases |trials|
  {
    hide Attempt, Copies, Away, Clean;
    var (w1, t) := Attempt(w, r, trials[0]);
    AttemptExact(w, r, trials[0]);
    if j == 0 || Clean(trials[0]) { CleanAttempt(w, r, trials[0]); }
    if t.Failed? {
      CleanHidesNothing(trials[0]);
      CopiesAdd(w.account, r, 0, 1);
      if j == 0 {
        var (w2, t2) := Attempt(w1, r, trials[1]);
        CleanAttempt(w1, r, trials[1]);
        assert Ticks(w1, r, trials[1..]) == [t2] && AfterSend(w1, r, trials[1..]) == w2;
        assert Ticks(w, r, trials) == [t, t2];
      } else {
        TwoCleanAttempts(w1, r, trials[1..], j - 1);
        var rest := Ticks(w1, r, trials[1..]);
        assert Ticks(w, r, trials) == [t] + rest;
        assert ([t] + rest)[|rest|] == rest[|rest| - 1];
      }
    } else {
      assert Ticks(w, r, trials) == [t];
    }
  }

  lemma CleanHidesNothing(t: Trial)
    requires Mild(t)
    ensures !Conceals(t)
  {
  }

  /** With nothing but the nonce wrong, however stale or ahead, a request commits once, within two sends. */
  lemma CommitsWithinTwoSends(w: Wallet, r: RequestId, trials: seq<Trial>)
    requires |trials| == 10 && forall i | 0 <= i < 10 :: Clean(trials[i])
    ensures SendResult(w, r, trials) == Returned(w.account.nonce)
    ensures Calls(Ticks(w, r, trials), RETRY) == if Away(w) == 0 then 1 else 2
    ensures AfterSend(w, r, trials).account == Copies(w.account, r, 1)
    ensures Away(AfterSend(w, r, trials)) == 0
  {
    hide SendResult, AfterSend, Clean;
    TwoCleanAttempts(w, r, trials, 0);
    CleanAttempt(w, r, trials[0]);
    assert Ticks(w, r, trials)[0] == Attempt(w, r, trials[0]).1;
    TicksDecide(w, r, trials);
    SendCommitsIff(w, r, trials);
  }

  // --- Whole runs ---

  datatype Order = Order(request: RequestId, trials: seq<Trial>)

  function RunAll(w: Wallet, orders: seq<Order>): Wallet
    decreases |orders|
  {
    if orders == [] then w else RunAll(AfterSend(w, orders[0].request, orders[0].trials), orders[1..])
  }

  /** The requests that were reported as sent, in order. */
  function Sent(w: Wallet, orders: seq<Order>): seq<RequestId>
    decreases |orders|
  {
    if orders == [] then []
    else
      var o := orders[0];
      (if SendResult(w, o.request, o.trials).Returned? then [o.request] else [])
      + Sent(AfterSend(w, o.request, o.trials), orders[1..])
  }

  /** No attempt made for any of the orders is struck. */
  predicate Unstruck(w: Wallet, orders: seq<Order>)
    decreases |orders|
  {
    orders == [] ||
    (var o := orders[0];
     && (forall i | 0 <= i < |Ticks(w, o.request, o.trials)| :: !Struck(Away(w), o.trials, i))
     && Unstruck(AfterSend(w, o.request, o.trials), orders[1..]))
  }

  function Requests(cs: seq<Committed>): (rs: seq<RequestId>)
    ensures |rs| == |cs|
  {
    if cs == [] then [] else Requests(cs[..|cs| - 1]) + [cs[|cs| - 1].request]
  }

  /** Nonces of the ledger's log are consecutive and end at the account's nonce. */
  predicate Consecutive(a: Account) {
    forall i | 0 <= i < |a.committed| :: a.committed[i].nonce == a.nonce - |a.committed| + i
  }

  lemma {:induction false} CopiesConsecutive(a: Account, r: RequestId, k: nat)
    requires Consecutive(a)
    ensures Consecutive(Copies(a, r, k))
    decreases k
  {
    if k > 0 { CopiesConsecutive(Submit(a, a.nonce, r), r, k - 1); }
  }

  lemma CopyAppends(a: Account, r: RequestId)
    ensures Requests(Copies(a, r, 1).committed) == Requests(a.committed) + [r]
  {
    var a' := Submit(a, a.nonce, r);
    assert Copies(a', r, 0) == a';
    assert a'.committed[..|a'.committed| - 1] == a.committed;
  }

  /**
   Over any run of requests and faults the committed nonces are consecutive and nothing reported as sent is
   missing from the count; the requests committed are exactly those reported as sent, in order, none
   twice and none unreported, exactly when no attempt of the run is struck.
   */
  lemma {:induction false} RunCommits(w: Wallet, orders: seq<Order>)
    requires Consecutive(w.account) && forall i | 0 <= i < |orders| :: |orders[i].trials| == 10
    ensures var w' := RunAll(w, orders);
            && Consecutive(w'.account)
            && |w'.account.committed| >= |w.account.committed| + |Sent(w, orders)|
            && (Requests(w'.account.committed) == Requests(w.account.committed) + Sent(w, orders) <==> Unstruck(w, orders))
            && (!Unstruck(w, orders) ==> |w'.account.committed| > |w.account.committed| + |Sent(w, orders)|)
    decreases |orders|
  {
    hide SendResult, AfterSend, Copies, Struck, Strikes, Ticks, Consecutive, Away, Requests;
    if orders != [] {
      var o := orders[0];
      var w1 := AfterSend(w, o.request, o.trials);
      var k := |w1.account.committed| - |w.account.committed|;
      SendCommitsIff(w, o.request, o.trials);
      CopiesConsecutive(w.account, o.request, k);
      RunCommits(w1, orders[1..]);
      CopyAppends(w.account, o.request);
      NoCopies(w.account, o.request);
    }
  }

  lemma NoCopies(a: Account, r: RequestId)
    ensures Copies(a, r, 0) == a
  {
  }

  /** One turn of the retry loop, unfolded at position k. */
  lemma Turn(w: Wallet, r: RequestId, trials: seq<Trial>, k: nat)
    requires k < |trials|
    ensures var (w', t) := Attempt(w, r, trials[k]);
            var ts := Ticks(w, r, trials[k..]);
            && |ts| > 0 && ts[0] == t
            && (t.Failed? ==> && ts[1..] == Ticks(w', r, trials[k + 1..])
                              && AfterSend(w, r, trials[k..]) == AfterSend(w', r, trials[k + 1..]))
            && (!t.Failed? ==> |ts| == 1 && AfterSend(w, r, trials[k..]) == w')
  {
    assert trials[k..][1..] == trials[k + 1..];
  }

  lemma NoTurns(w: Wallet, r: RequestId)
    ensures Ticks(w, r, []) == [] && AfterSend(w, r, []) == w
  {
  }

  // --- The owner ---

  class Ledger {
    var nonce: nat
    var committed: seq<Committed>

    ghost function Value(): Account
      reads this
    {
      Account(nonce, committed)
    }

    method Take(n: nat, r: RequestId) returns (accepted: bool)
      modifies this
      ensures accepted <==> n == old(nonce)
      ensures Value() == Submit(old(Value()), n, r)
    {
      accepted := n == nonce;
      if accepted {
        nonce := n + 1;
        committed := committed + [Committed(n, r)];
      }
    }
  }

  class PooledClient {
    const ledger: Ledger

    constructor (ledger: Ledger)
      ensures this.ledger == ledger
    {
      this.ledger := ledger;
    }

    /** Resends the same bytes until a delivery is answered; a legible answer is parsed after the loop. */
    method SendTransaction(n: nat, r: RequestId, wire: seq<Delivery>) returns (outcome: Outcome)
      modifies ledger
      ensures (ledger.Value(), outcome) == Post(old(ledger.Value()), n, r, wire)
    {
      for i := 0 to |wire|
        invariant Post(ledger.Value(), n, r, wire[i..]) == Post(old(ledger.Value()), n, r, wire)
      {
        assert wire[i..][1..] == wire[i + 1..];
        match wire[i] {
          case Lost =>
          case ReplyLost => var _ := ledger.Take(n, r);
          case OutOfFunds => return Refused(ExceedsBalance);
          case OverBlockLimit => return Refused(ExceedsBlockLimit);
          case Answered(legible) =>
            var accepted := ledger.Take(n, r);
            if !accepted { return Refused(InvalidNonce); }
            return if legible then Accepted else Refused(OtherError);
        }
      }
      outcome := Refused(OtherError);
    }
  }

  class WalletOwner {
    var nonce: nat
    const client: PooledClient

    constructor (client: PooledClient, nonce: nat)
      ensures this.client == client && this.nonce == nonce
    {
      this.client := client;
      this.nonce := nonce;
    }

    ghost function Value(): Wallet
      reads this, client.ledger
    {
      Wallet(nonce, client.ledger.Value())
    }

    method TransactionNonce() returns (n: nat)
      modifies this
      ensures n == old(nonce) && nonce == n + 1
    {
      n := nonce;
      nonce := nonce + 1;
    }

    method Try(r: RequestId, trial: Trial) returns (t: Tick<nat, SendError>)
      modifies this, client.ledger
      ensures (Value(), t) == Attempt(old(Value()), r, trial)
    {
      hide Post;
      if trial.cancelled { return Cancelled; }
      var n := TransactionNonce();
      if !trial.signs { return Failed(SigningFailed); }
      var outcome := client.SendTransaction(n, r, trial.wire);
      match outcome {
        case Accepted => return Succeeded(n);
        case Refused(e) =>
          if e != InvalidNonce { return CannotRecover(e); }
          if !trial.fetches { return CannotRecover(NonceUnavailable); }
          nonce := client.ledger.nonce;
          return Failed(InvalidNonce);
      }
    }

    method SendTransaction(r: RequestId, trials: seq<Trial>) returns (res: Result<nat, SendError>)
      requires |trials| == 10
      modifies this, client.ledger
      ensures Value() == AfterSend(old(Value()), r, trials)
      ensures res == SendResult(old(Value()), r, trials)
    {
      hide SendResult, Attempt, Ticks, AfterSend;
      ghost var w0 := Value();
      var errs: seq<SendError> := [];
      var attempts := 0;
      ghost var ts := Ticks(w0, r, trials);
      TicksDecide(w0, r, trials);
      while true
        invariant 0 <= attempts < 10 && attempts < |ts| && attempts == |errs|
        invariant AfterSend(Value(), r, trials[attempts..]) == AfterSend(w0, r, trials)
        invariant Ticks(Value(), r, trials[attempts..]) == ts[attempts..]
        invariant forall i | 0 <= i < attempts :: ts[i].Failed? && errs[i] == ts[i].error
        decreases 10 - attempts
      {
        ghost var before := Value();
        Turn(before, r, trials, attempts);
        var t := Try(r, trials[attempts]);
        assert ts[attempts] == ts[attempts..][0];
        assert ts[attempts..][1..] == ts[attempts + 1..];
        match t {
          case Succeeded(v) => return Returned(v);
          case CannotRecover(e) => return Aborted(e);
          case Cancelled => return ContextCancelled;
          case Failed(e) => errs := errs + [e];
        }
        attempts := attempts + 1;
        if attempts >= 10 {
          assert trials[10..] == [];
          NoTurns(Value(), r);
          assert errs == Errors(ts, 10);
          return MaxAttemptsReached(errs);
        }
      }
    }
  }
}
