/** A simulated trade knows nothing of the days to come: its fills through a day are decided by the data up to it. */
module Foresight {
  import opened Money
  import opened Market
  import opened Trading
  import opened Simulator
  import opened Losses
  import opened Fills

  /** The opportunities show the same up to day `i`: the bars, the events of the days before, and what is known. */
  ghost predicate SameUntil(o: Opportunity, o': Opportunity, i: nat) {
    && o.id == o'.id && o.code == o'.code && o.name == o'.name && o.split == o'.split
    && i < |o.bars| == |o.events| && i < |o'.bars| == |o'.events|
    && o.bars[..i + 1] == o'.bars[..i + 1] && o.events[..i] == o'.events[..i]
    && (forall k: int :: k <= i ==> (k in o.invalid <==> k in o'.invalid))
    && (forall k: int :: k <= i && k in o.invalid && k in o'.invalid ==> o.invalid[k] == o'.invalid[k])
    && (forall k: int :: k <= i ==> (k in o.unknownAdds <==> k in o'.unknownAdds))
  }

  lemma SameDays(o: Opportunity, o': Opportunity, i: nat, j: int)
    requires SameUntil(o, o', i) && 0 <= j <= i
    ensures o.bars[j] == o'.bars[j] && (j < i ==> o.events[j] == o'.events[j])
    ensures (j in o.invalid <==> j in o'.invalid) && (j in o.unknownAdds <==> j in o'.unknownAdds)
    ensures j in o.invalid ==> o.invalid[j] == o'.invalid[j]
  {
    assert o.bars[..i + 1][j] == o'.bars[..i + 1][j];
    if j < i { assert o.events[..i][j] == o'.events[..i][j]; }
  }

  /** The two opportunities look alike on day `j` and the day before. */
  ghost predicate Alike(o: Opportunity, o': Opportunity, j: int) {
    && o.code == o'.code && 1 <= j < |o.bars| == |o.events| && j < |o'.bars| == |o'.events|
    && o.bars[j] == o'.bars[j] && o.bars[j - 1] == o'.bars[j - 1] && o.events[j - 1] == o'.events[j - 1]
    && (j in o.invalid <==> j in o'.invalid) && (j in o.unknownAdds <==> j in o'.unknownAdds)
    && (j in o.invalid ==> o.invalid[j] == o'.invalid[j])
  }

  lemma SameOpening(s: Strategy, policy: Policy, o: Opportunity, o': Opportunity, j: int, st: State)
    requires Valid(s, policy, o) && Valid(s, policy, o') && Alike(o, o', j) && Ready(o, j, st) && Ready(o', j, st)
    ensures Opening(s, policy, o, j, st) == Opening(s, policy, o', j, st)
  {
    hide SellBlocked, StopPrice, Mark, Net, FillAt, Shares, Sold, Finish, OnGrid;
  }

  lemma SameEntry(s: Strategy, policy: Policy, o: Opportunity, o': Opportunity, j: int, st: State)
    requires Valid(s, policy, o) && Valid(s, policy, o') && Alike(o, o', j)
    requires (j == 1 && st == Start(o) == Start(o')) || (j > 1 && Held(st.h))
    ensures Entry(s, policy, o, j, st) == Entry(s, policy, o', j, st)
  {
    hide Bought, Budget, GapPct, OnePrice, Shares, OnGrid, Filled;
  }

  lemma SameIntraday(s: Strategy, policy: Policy, o: Opportunity, o': Opportunity, j: int, st: State)
    requires Valid(s, policy, o) && Valid(s, policy, o') && Alike(o, o', j) && Held(st.h)
    ensures Intraday(s, policy, o, j, st) == Intraday(s, policy, o', j, st)
  {
    hide SellBlocked, StopPrice, Mark, Net, FillAt, Shares, Sold, Finish, OnGrid, Price;
  }

  lemma SameDay(s: Strategy, policy: Policy, o: Opportunity, o': Opportunity, j: int, st: State)
    requires Valid(s, policy, o) && Valid(s, policy, o') && Alike(o, o', j) && Ready(o, j, st) && Ready(o', j, st)
    ensures Day(s, policy, o, j, st) == Day(s, policy, o', j, st)
  {
    hide Opening, Entry, Intraday;
    SameOpening(s, policy, o, o', j, st);
    var morning := Opening(s, policy, o, j, st);
    if morning.Go? {
      SameEntry(s, policy, o, o', j, morning.st);
      var noon := Entry(s, policy, o, j, morning.st);
      if noon.Go? {
        SameIntraday(s, policy, o, o', j, noon.st);
      }
    }
  }

  lemma AlikeUntil(o: Opportunity, o': Opportunity, i: nat, j: int)
    requires SameUntil(o, o', i) && 1 <= j <= i
    ensures Alike(o, o', j)
  {
    hide SameUntil;
    SameDays(o, o', i, j);
    SameDays(o, o', i, j - 1);
    Lengths(o, o', i);
  }

  lemma Lengths(o: Opportunity, o': Opportunity, i: nat)
    requires SameUntil(o, o', i)
    ensures i < |o.bars| == |o.events| && i < |o'.bars| == |o'.events| && o.code == o'.code && Start(o) == Start(o')
  {
    SameDays(o, o', i, 0);
  }

  /** Up to day `i` both trades are in the same state; once they have ended they are the same. */
  lemma {:induction false} SameStates(s: Strategy, policy: Policy, o: Opportunity, o': Opportunity, i: nat, j: nat)
    requires Valid(s, policy, o) && Valid(s, policy, o') && SameUntil(o, o', i) && 1 <= j <= i
    ensures StateAt(s, policy, o, j) == StateAt(s, policy, o', j)
    ensures StateAt(s, policy, o, j).None? ==> Simulate(s, policy, o) == Simulate(s, policy, o')
  {
    hide Day, Days, SameUntil, Valid, Ready, Start, Simulate;
    Lengths(o, o', i);
    if j == 1 {
      StartReady(s, policy, o);
      StartReady(s, policy, o');
    } else {
      SameStates(s, policy, o, o', i, j - 1);
      if StateAt(s, policy, o, j - 1).Some? {
        AlikeUntil(o, o', i, j - 1);
        SameStep(s, policy, o, o', j - 1);
      }
    }
  }

  /** One more day. */
  lemma SameStep(s: Strategy, policy: Policy, o: Opportunity, o': Opportunity, j: nat)
    requires Valid(s, policy, o) && Valid(s, policy, o') && Alike(o, o', j)
    requires StateAt(s, policy, o, j).Some? && StateAt(s, policy, o, j) == StateAt(s, policy, o', j)
    ensures StateAt(s, policy, o, j + 1) == StateAt(s, policy, o', j + 1)
    ensures StateAt(s, policy, o, j + 1).None? ==> Simulate(s, policy, o) == Simulate(s, policy, o')
    ensures !InHorizon(policy, o, j) ==> Simulate(s, policy, o) == Simulate(s, policy, o')
  {
    hide Day, Days, Valid, Ready, Simulate, StateAt;
    var st := StateAt(s, policy, o, j).value;
    RunFrom(s, policy, o, j);
    RunFrom(s, policy, o', j);
    DaysAre(s, policy, o, j, st);
    DaysAre(s, policy, o', j, st);
    NextState(s, policy, o, j, st);
    NextState(s, policy, o', j, st);
    SameDay(s, policy, o, o', j, st);
  }

  /** The fills dated up to a day, in their order. */
  function FilledBy(fills: seq<Fill>, date: int): seq<Fill> {
    if fills == [] then [] else
      var rest, last := FilledBy(fills[..|fills| - 1], date), fills[|fills| - 1];
      if last.date <= date then rest + [last] else rest
  }

  lemma {:induction false} FilledBySplit(before: seq<Fill>, later: seq<Fill>, date: int)
    requires forall k :: 0 <= k < |before| ==> before[k].date <= date
    requires forall k :: 0 <= k < |later| ==> later[k].date > date
    ensures FilledBy(before + later, date) == before
  {
    var all := before + later;
    if later != [] {
      assert all[..|all| - 1] == before + later[..|later| - 1];
      FilledBySplit(before, later[..|later| - 1], date);
    } else if before != [] {
      assert all == before && all[..|all| - 1] == before[..|before| - 1] + [];
      FilledBySplit(before[..|before| - 1], [], date);
      assert before == before[..|before| - 1] + [before[|before| - 1]];
    }
  }

  /** The fills through a reached day are those it leaves. */
  lemma FilledByDay(s: Strategy, policy: Policy, o: Opportunity, i: nat)
    requires DayReached(s, policy, o, i)
    ensures FilledBy(Simulate(s, policy, o).fills, o.bars[i].date)
      == TradeOf(Day(s, policy, o, i, StateAt(s, policy, o, i).value)).fills
  {
    hide Simulate, Day, OrdersOf, DayReached, StateAt, FilledBy;
    ReachedMeans(s, policy, o, i);
    var bought, orders, later := FillsOfDay(s, policy, o, i);
    FilledBySplit(StateAt(s, policy, o, i).value.t.fills + orders, later, o.bars[i].date);
  }

  /**
   * Two opportunities with the same bars through day `i` and the same events before it have the same fills through that
   * day, whatever the event of its close and all that follows.
   */
  lemma FillsIgnoreTheFuture(s: Strategy, policy: Policy, o: Opportunity, o': Opportunity, i: nat)
    requires Valid(s, policy, o) && Valid(s, policy, o') && SameUntil(o, o', i) && 1 <= i
    ensures i < |o.bars|
    ensures FilledBy(Simulate(s, policy, o).fills, o.bars[i].date)
      == FilledBy(Simulate(s, policy, o').fills, o.bars[i].date)
  {
    hide Simulate, Day, StateAt, FilledBy, SameUntil, Valid;
    Lengths(o, o', i);
    SameDays(o, o', i, i);
    AlikeUntil(o, o', i, i);
    SameStates(s, policy, o, o', i, i);
    if StateAt(s, policy, o, i).Some? {
      SameStep(s, policy, o, o', i);
      if InHorizon(policy, o, i) {
        SameDay(s, policy, o, o', i, StateAt(s, policy, o, i).value);
        FilledByDay(s, policy, o, i);
        FilledByDay(s, policy, o', i);
      }
    }
  }

  /** In particular the events from day `i` on do not change what is filled through day `i`. */
  lemma LaterEventsChangeNothing(s: Strategy, policy: Policy, o: Opportunity, events: seq<bool>, i: nat)
    requires Valid(s, policy, o) && 1 <= i < |o.bars| && |events| == |o.events| && events[..i] == o.events[..i]
    ensures var o' := o.(events := events);
      && Valid(s, policy, o')
      && FilledBy(Simulate(s, policy, o).fills, o.bars[i].date)
        == FilledBy(Simulate(s, policy, o').fills, o.bars[i].date)
  {
    hide Simulate, FilledBy, InCents;
    FillsIgnoreTheFuture(s, policy, o, o.(events := events), i);
  }
}
