/** `runMonitors` of runtime/lifecycle.go: one result per runner, received in whatever order they end. */
module Monitors {
  import opened Market

  /** What a runner returns; any error that wraps a cancellation counts as one. */
  datatype Outcome = Fine | Canceled | Failed(reason: string)

  /** The result kept after the first `n` arrivals. */
  function Kept(arrivals: seq<Outcome>, n: nat): Outcome
    requires n <= |arrivals|
  {
    if n == 0 then Fine
    else
      var before := Kept(arrivals, n - 1);
      if before.Failed? then before else arrivals[n - 1]
  }

  /** Joins all runners: one result is received for each of them, and the rest are told to stop. */
  method RunMonitors(arrivals: seq<Outcome>) returns (result: Outcome, canceled: bool)
    ensures result == Kept(arrivals, |arrivals|)
    ensures canceled <==> |arrivals| > 0
  {
    result, canceled := Fine, false;
    for i := 0 to |arrivals|
      invariant result == Kept(arrivals, i) && (canceled <==> i > 0)
    {
      var err := arrivals[i];
      if result == Fine || result == Canceled {
        result := err;
      }
      canceled := true;
    }
  }

  /** A failure that arrives first among the failures is the result; without one it is the last arrival. */
  lemma {:induction false} FirstFailureWins(arrivals: seq<Outcome>, n: nat)
    requires n <= |arrivals|
    ensures forall k :: 0 <= k < n && arrivals[k].Failed? && (forall j :: 0 <= j < k ==> !arrivals[j].Failed?) ==>
      Kept(arrivals, n) == arrivals[k]
    ensures (forall k :: 0 <= k < n ==> !arrivals[k].Failed?) ==>
      Kept(arrivals, n) == if n == 0 then Fine else arrivals[n - 1]
    ensures Kept(arrivals, n).Failed? <==> exists k :: 0 <= k < n && arrivals[k].Failed?
  {
    if n > 0 {
      FirstFailureWins(arrivals, n - 1);
      if Kept(arrivals, n - 1).Failed? {
        var k :| 0 <= k < n - 1 && arrivals[k].Failed?;
        assert Kept(arrivals, n) == Kept(arrivals, n - 1);
      } else {
        assert Kept(arrivals, n) == arrivals[n - 1];
        assert arrivals[n - 1].Failed? ==> exists k :: 0 <= k < n && arrivals[k].Failed?;
      }
    }
  }

  /** Whether a failure is reported does not depend on the order in which the runners end. */
  lemma FailureInAnyOrder(results: seq<Outcome>, arrivals: seq<Outcome>)
    requires multiset(results) == multiset(arrivals)
    ensures Kept(arrivals, |arrivals|).Failed? <==> exists k :: 0 <= k < |results| && results[k].Failed?
    ensures |results| > 0 ==> Kept(arrivals, |arrivals|) in results
  {
    FirstFailureWins(arrivals, |arrivals|);
    forall k | 0 <= k < |results| ensures results[k] in arrivals {
      assert results[k] in multiset(arrivals);
    }
    forall k | 0 <= k < |arrivals| ensures arrivals[k] in results {
      assert arrivals[k] in multiset(results);
    }
    if k :| 0 <= k < |arrivals| && arrivals[k].Failed? {
      var j :| 0 <= j < |results| && results[j] == arrivals[k];
    }
    assert |multiset(results)| == |results| && |multiset(arrivals)| == |arrivals|;
    KeptArrived(arrivals, |arrivals|);
  }

  lemma {:induction false} KeptArrived(arrivals: seq<Outcome>, n: nat)
    requires n <= |arrivals|
    ensures n > 0 ==> Kept(arrivals, n) in arrivals
  {
    if n > 1 {
      KeptArrived(arrivals, n - 1);
    }
  }

  // ---------- Starting and joining as a protocol ----------

  /** A goroutine: not started, running, about to send its outcome, or over. */
  datatype Runner = Idle | Running | Ended(outcome: Outcome) | Sent(outcome: Outcome)

  datatype Message = Message(from: nat, outcome: Outcome)

  /** Where `runMonitors` is; it has just received when it is about to call `cancel`. */
  datatype Place = Starting(next: nat) | Receiving | Canceling | Returned

  datatype Join = Join(
    place: Place, runners: seq<Runner>, channel: seq<Message>, received: seq<Message>, result: Outcome, canceled: bool)

  datatype Move =
    | Start
    | AllStarted
    | Finish(k: nat, outcome: Outcome)
    | Send(k: nat)
    | Receive
    | Cancel
    | Return
    | CancelOutside

  function Called(n: nat): Join {
    Join(Starting(0), seq(n, _ => Idle), [], [], Fine, false)
  }

  /** The channel holds as many messages as there are runners; a send waits for room, a receive for a message. */
  predicate Can(s: Join, m: Move) {
    match m
    case Start => s.place.Starting? && s.place.next < |s.runners|
    case AllStarted => s.place.Starting? && s.place.next >= |s.runners|
    case Finish(k, _) => k < |s.runners| && s.runners[k].Running?
    case Send(k) => k < |s.runners| && s.runners[k].Ended? && |s.channel| < |s.runners|
    case Receive => s.place.Receiving? && |s.received| < |s.runners| && |s.channel| > 0
    case Cancel => s.place.Canceling?
    case Return => s.place.Receiving? && |s.received| >= |s.runners|
    case CancelOutside => true
  }

  function Do(s: Join, m: Move): Join
    requires Can(s, m)
  {
    match m
    case Start => s.(place := Starting(s.place.next + 1), runners := s.runners[s.place.next := Running])
    case AllStarted => s.(place := Receiving)
    case Finish(k, outcome) => s.(runners := s.runners[k := Ended(outcome)])
    case Send(k) =>
      s.(runners := s.runners[k := Sent(s.runners[k].outcome)],
         channel := s.channel + [Message(k, s.runners[k].outcome)])
    case Receive =>
      s.(place := Canceling, channel := s.channel[1..], received := s.received + [s.channel[0]],
         result := if s.result == Fine || s.result == Canceled then s.channel[0].outcome else s.result)
    case Cancel => s.(place := Receiving, canceled := true)
    case Return => s.(place := Returned, canceled := true)
    case CancelOutside => s.(canceled := true)
  }

  /** The state an interleaving leads to; nothing when one of its moves cannot be made. */
  function Played(n: nat, moves: seq<Move>): Option<Join> {
    if |moves| == 0 then Some(Called(n))
    else
      var before, m := Played(n, moves[..|moves| - 1]), moves[|moves| - 1];
      if before.Some? && Can(before.value, m) then Some(Do(before.value, m)) else None
  }

  // ---------- The invariant ----------

  function SentCount(runners: seq<Runner>): (c: nat)
    ensures c <= |runners|
    ensures c == |runners| <==> forall k :: 0 <= k < |runners| ==> runners[k].Sent?
  {
    if runners == [] then 0
    else
      var last := |runners| - 1;
      SentCount(runners[..last]) + if runners[last].Sent? then 1 else 0
  }

  /** All messages sent so far, in the order of the channel. */
  function Mail(s: Join): seq<Message> {
    s.received + s.channel
  }

  function Outcomes(mail: seq<Message>): seq<Outcome> {
    seq(|mail|, i requires 0 <= i < |mail| => mail[i].outcome)
  }

  /** A message is what the runner it is from has ended with. */
  predicate Genuine(s: Join, m: Message) {
    m.from < |s.runners| && s.runners[m.from] == Sent(m.outcome)
  }

  predicate IsFrom(m: Message, k: nat) {
    m.from == k
  }

  ghost predicate MailIsGenuine(s: Join) {
    forall i :: 0 <= i < |Mail(s)| ==> Genuine(s, Mail(s)[i])
  }

  ghost predicate SentOnce(s: Join) {
    forall i, j :: 0 <= i < j < |Mail(s)| ==> Mail(s)[i].from != Mail(s)[j].from
  }

  ghost predicate SentArrives(s: Join) {
    forall k :: 0 <= k < |s.runners| && s.runners[k].Sent? ==> exists i :: 0 <= i < |Mail(s)| && IsFrom(Mail(s)[i], k)
  }

  /** Where the caller is says who has been started, what was received, and whether all were told to stop. */
  ghost predicate PlaceAgrees(s: Join) {
    match s.place
    case Starting(next) =>
      && next <= |s.runners| && s.received == []
      && forall k :: 0 <= k < |s.runners| ==> (s.runners[k].Idle? <==> next <= k)
    case Receiving => AllUp(s) && (s.received != [] ==> s.canceled)
    case Canceling => AllUp(s) && s.received != []
    case Returned => AllUp(s) && s.canceled && |s.received| == |s.runners|
  }

  ghost predicate AllUp(s: Join) {
    forall k :: 0 <= k < |s.runners| ==> !s.runners[k].Idle?
  }

  ghost predicate Sound(s: Join) {
    && MailIsGenuine(s) && SentOnce(s) && SentArrives(s) && PlaceAgrees(s)
    && |Mail(s)| == SentCount(s.runners)
    && s.result == Kept(Outcomes(s.received), |s.received|)
  }

  lemma {:induction false} SentOfIdle(n: nat)
    ensures SentCount(seq(n, _ => Idle)) == 0
  {
    if n > 0 {
      SentOfIdle(n - 1);
      assert seq(n, _ => Idle)[..n - 1] == seq(n - 1, _ => Idle);
    }
  }

  lemma {:induction false} SentOfChange(runners: seq<Runner>, k: nat, r: Runner)
    requires k < |runners| && !runners[k].Sent?
    ensures SentCount(runners[k := r]) == SentCount(runners) + if r.Sent? then 1 else 0
  {
    var last := |runners| - 1;
    if k < last {
      SentOfChange(runners[..last], k, r);
      assert runners[k := r][..last] == runners[..last][k := r];
    } else {
      assert runners[k := r][..last] == runners[..last];
    }
  }

  lemma {:induction false} KeptOfMore(arrivals: seq<Outcome>, more: seq<Outcome>, n: nat)
    requires n <= |arrivals|
    ensures Kept(arrivals + more, n) == Kept(arrivals, n)
  {
    if n > 0 {
      KeptOfMore(arrivals, more, n - 1);
    }
  }

  lemma CalledIsSound(n: nat)
    ensures Sound(Called(n))
  {
    SentOfIdle(n);
  }

  /** A move that neither sends nor receives: the mail is the same and so is who has sent. */
  lemma QuietStays(s: Join, m: Move)
    requires Sound(s) && Can(s, m) && !m.Send? && !m.Receive?
    ensures Sound(Do(s, m))
  {
    hide SentCount, Kept, Outcomes;
    var r := Do(s, m);
    if m.Start? {
      SentOfChange(s.runners, s.place.next, Running);
    } else if m.Finish? {
      SentOfChange(s.runners, m.k, Ended(m.outcome));
    }
    assert Mail(r) == Mail(s);
    forall i | 0 <= i < |Mail(r)| ensures Genuine(r, Mail(r)[i]) {
      assert Genuine(s, Mail(s)[i]);
    }
    if m.Return? {
      assert |Mail(s)| == |s.received| + |s.channel|;
    }
  }

  /** A send appends a message of a runner that had sent nothing. */
  lemma SendAdds(s: Join, m: Move)
    requires Sound(s) && Can(s, m) && m.Send?
    ensures var r := Do(s, m);
      && Mail(r) == Mail(s) + [Message(m.k, s.runners[m.k].outcome)]
      && Genuine(r, Message(m.k, s.runners[m.k].outcome))
      && (forall i :: 0 <= i < |Mail(s)| ==> Mail(s)[i].from != m.k && Genuine(r, Mail(s)[i]))
  {
    hide SentCount, Kept, Outcomes;
    forall i | 0 <= i < |Mail(s)| ensures Mail(s)[i].from != m.k && Genuine(Do(s, m), Mail(s)[i]) {
      assert Genuine(s, Mail(s)[i]);
    }
  }

  lemma SendArrives(s: Join, m: Move)
    requires Sound(s) && Can(s, m) && m.Send?
    ensures SentArrives(Do(s, m))
  {
    SendAdds(s, m);
    hide SentCount, Kept, Outcomes, Mail, Genuine, MailIsGenuine, PlaceAgrees, SentOnce;
    var r := Do(s, m);
    forall k | 0 <= k < |r.runners| && r.runners[k].Sent?
      ensures exists i :: 0 <= i < |Mail(r)| && IsFrom(Mail(r)[i], k)
    {
      if k == m.k {
        assert IsFrom(Mail(r)[|Mail(s)|], k);
      } else {
        var i :| 0 <= i < |Mail(s)| && IsFrom(Mail(s)[i], k);
        assert IsFrom(Mail(r)[i], k);
      }
    }
  }

  lemma SendKeepsMail(s: Join, m: Move)
    requires Sound(s) && Can(s, m) && m.Send?
    ensures MailIsGenuine(Do(s, m)) && SentOnce(Do(s, m))
  {
    SendAdds(s, m);
    hide SentCount, Kept, Outcomes, Mail, Genuine, SentArrives, PlaceAgrees, Can, Do;
  }

  lemma SendKeepsPlace(s: Join, m: Move)
    requires PlaceAgrees(s) && Can(s, m) && m.Send?
    ensures PlaceAgrees(Do(s, m))
  {
  }

  lemma SendStays(s: Join, m: Move)
    requires Sound(s) && Can(s, m) && m.Send?
    ensures Sound(Do(s, m))
  {
    SendAdds(s, m);
    SendArrives(s, m);
    SendKeepsMail(s, m);
    SendKeepsPlace(s, m);
    hide SentCount, Kept, Outcomes, Mail, Genuine, SentArrives, SentOnce, MailIsGenuine, PlaceAgrees;
    SentOfChange(s.runners, m.k, Do(s, m).runners[m.k]);
  }

  lemma ReceiveStays(s: Join, m: Move)
    requires Sound(s) && Can(s, m) && m.Receive?
    ensures Sound(Do(s, m))
  {
    hide SentCount;
    var r := Do(s, m);
    assert Mail(r) == Mail(s);
    assert Outcomes(r.received) == Outcomes(s.received) + [s.channel[0].outcome];
    KeptOfMore(Outcomes(s.received), [s.channel[0].outcome], |s.received|);
    forall i | 0 <= i < |Mail(r)| ensures Genuine(r, Mail(r)[i]) {
      assert Genuine(s, Mail(s)[i]);
    }
  }

  lemma {:induction false} AlwaysSound(n: nat, moves: seq<Move>)
    requires Played(n, moves).Some?
    ensures Sound(Played(n, moves).value) && |Played(n, moves).value.runners| == n
  {
    hide Sound, Can, Do;
    if |moves| == 0 {
      CalledIsSound(n);
    } else {
      AlwaysSound(n, moves[..|moves| - 1]);
      var s, m := Played(n, moves[..|moves| - 1]).value, moves[|moves| - 1];
      SameRunners(s, m);
      if m.Send? {
        SendStays(s, m);
      } else if m.Receive? {
        ReceiveStays(s, m);
      } else {
        QuietStays(s, m);
      }
    }
  }

  lemma SameRunners(s: Join, m: Move)
    requires Can(s, m)
    ensures |Do(s, m).runners| == |s.runners|
  {
  }

  // ---------- What holds of every interleaving ----------

  /** When the call has returned, every runner is over and was received once, and nothing is left in the channel. */
  lemma ReturnedHasJoined(n: nat, moves: seq<Move>)
    requires Played(n, moves).Some? && Played(n, moves).value.place.Returned?
    ensures var s := Played(n, moves).value;
      && |s.runners| == |s.received| == n && s.channel == [] && s.canceled
      && (forall k :: 0 <= k < n ==> s.runners[k].Sent?)
      && (forall k :: 0 <= k < n ==> exists i :: 0 <= i < n && s.received[i] == Message(k, s.runners[k].outcome))
      && (forall i, j :: 0 <= i < j < n ==> s.received[i].from != s.received[j].from)
  {
    AlwaysSound(n, moves);
    hide Played;
    var s := Played(n, moves).value;
    assert |Mail(s)| == |s.received| + |s.channel|;
    assert Mail(s) == s.received;
    forall k | 0 <= k < n 
      ensures exists i :: 0 <= i < n && s.received[i] == Message(k, s.runners[k].outcome)
    {
      var i :| 0 <= i < |Mail(s)| && IsFrom(Mail(s)[i], k);
      assert Genuine(s, Mail(s)[i]);
      assert s.received[i] == Message(k, s.runners[k].outcome);
    }
  }

  /** What it returns is kept in the order of receipt; it is a failure exactly when a runner failed. */
  lemma ReturnedResult(n: nat, moves: seq<Move>)
    requires Played(n, moves).Some? && Played(n, moves).value.place.Returned?
    ensures var s := Played(n, moves).value;
      && |s.runners| == |s.received| == n && (forall k :: 0 <= k < n ==> s.runners[k].Sent?)
      && s.result == Kept(Outcomes(s.received), n)
      && (s.result.Failed? <==> exists k :: 0 <= k < n && s.runners[k].outcome.Failed?)
  {
    ReturnedHasJoined(n, moves);
    AlwaysSound(n, moves);
    hide Played;
    var s := Played(n, moves).value;
    FirstFailureWins(Outcomes(s.received), n);
    if k :| 0 <= k < n && s.runners[k].outcome.Failed? {
      var i :| 0 <= i < n && s.received[i] == Message(k, s.runners[k].outcome);
      assert Outcomes(s.received)[i].Failed?;
    }
    if i :| 0 <= i < n && Outcomes(s.received)[i].Failed? {
      assert Mail(s)[i] == s.received[i] && Genuine(s, Mail(s)[i]);
    }
  }

  /** No runner is ever blocked in its send: while it has not sent there is room. */
  lemma SendNeverBlocks(n: nat, moves: seq<Move>, k: nat)
    requires Played(n, moves).Some?
    ensures var s := Played(n, moves).value;
      && |s.runners| == n && |s.channel| <= n
      && (k < n && s.runners[k].Ended? ==> Can(s, Send(k)))
  {
    AlwaysSound(n, moves);
    var s := Played(n, moves).value;
    assert |Mail(s)| == |s.received| + |s.channel|;
  }

  /** Before a second result is received, and before the call returns, all runners have been told to stop. */
  lemma StoppedBeforeNextReceive(n: nat, moves: seq<Move>)
    requires Played(n, moves).Some?
    ensures var s := Played(n, moves).value;
      && (Can(s, Receive) && |s.received| > 0 ==> s.canceled)
      && (s.place.Returned? ==> s.canceled)
  {
    AlwaysSound(n, moves);
  }

  /** The next move of a state in which no runner is still running. */
  lemma JoinGoesOn(s: Join)
    requires Sound(s) && !s.place.Returned?
    ensures exists m :: Can(s, m) && !m.CancelOutside?
    ensures (forall k :: 0 <= k < |s.runners| ==> !s.runners[k].Running?) ==>
      exists m :: Can(s, m) && !m.CancelOutside? && !m.Finish?
  {
    assert |Mail(s)| == |s.received| + |s.channel|;
    if k :| 0 <= k < |s.runners| && s.runners[k].Ended? {
      assert Can(s, Send(k));
    } else if s.place.Starting? {
      assert Can(s, if s.place.next < |s.runners| then Start else AllStarted);
    } else if s.place.Canceling? {
      assert Can(s, Cancel);
    } else if |s.received| >= |s.runners| {
      assert Can(s, Return);
    } else if |s.channel| > 0 {
      assert Can(s, Receive);
    } else {
      assert SentCount(s.runners) < |s.runners|;
      var k :| 0 <= k < |s.runners| && !s.runners[k].Sent?;
      assert Can(s, Finish(k, Fine));
    }
  }

  /** Until the call has returned some move can be made; only a runner that is still running is ever waited for. */
  lemma JoinNeverStuck(n: nat, moves: seq<Move>)
    requires Played(n, moves).Some? && !Played(n, moves).value.place.Returned?
    ensures var s := Played(n, moves).value;
      && (exists m :: Can(s, m) && !m.CancelOutside?)
      && ((forall k :: 0 <= k < |s.runners| ==> !s.runners[k].Running?) ==>
            exists m :: Can(s, m) && !m.CancelOutside? && !m.Finish?)
  {
    AlwaysSound(n, moves);
    hide Played, Can;
    JoinGoesOn(Played(n, moves).value);
  }

  // ---------- It ends ----------

  function RunnerRank(r: Runner): nat {
    match r
    case Idle => 3
    case Running => 2
    case Ended(_) => 1
    case Sent(_) => 0
  }

  function RunnersRank(runners: seq<Runner>): nat {
    if runners == [] then 0
    else RunnersRank(runners[..|runners| - 1]) + RunnerRank(runners[|runners| - 1])
  }

  /** How many moves are left, apart from cancellations from outside. */
  function MovesLeft(s: Join): int {
    RunnersRank(s.runners) + 2 * (|s.runners| - |s.received|) +
    match s.place
    case Starting(_) => 2
    case Receiving => 1
    case Canceling => 2
    case Returned => 0
  }

  /** The moves of the call and its runners, without cancellations from outside. */
  function Inside(moves: seq<Move>): nat {
    if moves == [] then 0
    else Inside(moves[..|moves| - 1]) + if moves[|moves| - 1].CancelOutside? then 0 else 1
  }

  lemma {:induction false} RankOfChange(runners: seq<Runner>, k: nat, r: Runner)
    requires k < |runners|
    ensures RunnersRank(runners[k := r]) == RunnersRank(runners) - RunnerRank(runners[k]) + RunnerRank(r)
  {
    var last := |runners| - 1;
    if k < last {
      RankOfChange(runners[..last], k, r);
      assert runners[k := r][..last] == runners[..last][k := r];
    } else {
      assert runners[k := r][..last] == runners[..last];
    }
  }

  lemma {:induction false} RankOfIdle(n: nat)
    ensures RunnersRank(seq(n, _ => Idle)) == 3 * n
  {
    if n > 0 {
      RankOfIdle(n - 1);
      assert seq(n, _ => Idle)[..n - 1] == seq(n - 1, _ => Idle);
    }
  }

  lemma MoveCounts(s: Join, m: Move)
    requires Sound(s) && Can(s, m)
    ensures MovesLeft(Do(s, m)) == MovesLeft(s) - if m.CancelOutside? then 0 else 1
  {
    hide SentCount, Kept, RunnersRank, MailIsGenuine, SentOnce, SentArrives;
    match m
    case Start => RankOfChange(s.runners, s.place.next, Running);
    case Finish(k, outcome) => RankOfChange(s.runners, k, Ended(outcome));
    case Send(k) => RankOfChange(s.runners, k, Sent(s.runners[k].outcome));
    case _ =>
  }

  /** Every interleaving makes the same number of moves: five for each runner and two more, once it has returned. */
  lemma {:induction false} JoinEnds(n: nat, moves: seq<Move>)
    requires Played(n, moves).Some?
    ensures Inside(moves) == 5 * n + 2 - MovesLeft(Played(n, moves).value)
    ensures Inside(moves) <= 5 * n + 2
    ensures Inside(moves) == 5 * n + 2 <==> Played(n, moves).value.place.Returned?
  {
    hide Sound, Can, Do, MovesLeft;
    if |moves| == 0 {
      LeftAtFirst(n);
    } else {
      var before := moves[..|moves| - 1];
      JoinEnds(n, before);
      AlwaysSound(n, before);
      MoveCounts(Played(n, before).value, moves[|moves| - 1]);
    }
    AlwaysSound(n, moves);
    LeftIsOver(Played(n, moves).value);
  }

  lemma LeftAtFirst(n: nat)
    ensures MovesLeft(Called(n)) == 5 * n + 2
  {
    RankOfIdle(n);
  }

  lemma LeftIsOver(s: Join)
    requires Sound(s)
    ensures MovesLeft(s) >= 0 && (MovesLeft(s) == 0 <==> s.place.Returned?)
  {
    assert |Mail(s)| == |s.received| + |s.channel|;
    if s.place.Returned? {
      AllSentRank(s.runners);
    }
  }

  lemma {:induction false} AllSentRank(runners: seq<Runner>)
    requires forall k :: 0 <= k < |runners| ==> runners[k].Sent?
    ensures RunnersRank(runners) == 0
  {
    if runners != [] {
      AllSentRank(runners[..|runners| - 1]);
    }
  }
}
