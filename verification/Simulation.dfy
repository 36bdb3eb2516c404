/** The simulation as the loop that runs it, on a position updated in place. */
module Simulation {
  import opened Money
  import opened Market
  import opened Trading
  import opened Simulator

  datatype Step = Returned | DayOver | GoesOn

  class TradeRun {
    const s: Strategy
    const policy: Policy
    const o: Opportunity
    const p: Position
    var t: Trade
    var stopCause: Cause

    ghost function View(): State
      reads this, p
    {
      State(p.View(), t, stopCause)
    }

    /** The state of the run is what the specification's part of a day leaves. */
    ghost predicate Reached(step: Step, f: Flow)
      reads this, p
    {
      match f
      case Return(t') => step == Returned && t == t'
      case Next(st) => step == DayOver && View() == st
      case Go(st) => step == GoesOn && View() == st
    }

    constructor (s: Strategy, policy: Policy, o: Opportunity)
      requires Valid(s, policy, o)
      ensures this.s == s && this.policy == policy && this.o == o && fresh(p)
      ensures View() == Start(o)
    {
      this.s, this.policy, this.o := s, policy, o;
      p := new Position();
      t := Trade(o.id, o.code, o.name, o.bars[0].date, o.split, EntrySkipped, None, None,
                 0.0, 0.0, 0, 0, 0.0, false, 0, false, None, false, false, false, false, []);
      stopCause := Stop;
    }

    method Sell(b: Bar, i: int, price: real, cause: Cause)
      modifies this, p
      ensures View() == SellAll(s, old(View()), b, i, price, cause)
      ensures p.invested == old(p.invested)
    {
      var fill := p.SellOrder(s, b, i, price, cause);
      t := t.(fills := t.fills + [fill]);
    }

    method Conclude(b: Bar, i: int, cause: Cause)
      requires p.invested != 0.0
      modifies this
      ensures t == Finish(s, policy, p.View(), old(t), b, i, cause)
      ensures p.View() == old(p.View()) && stopCause == old(stopCause)
    {
      var net := p.NetAt(s, b.close);
      t := t.(status := Exit(cause), exitDate := Some(b.date), holdingDays := i - 1, netPct := net);
      t := t.(targetHit := t.netPct >= policy.target - NET_SLACK);
      if t.targetHit {
        t := t.(targetDay := i - 1);
      }
      t := t.(stopExceeded := policy.stop > 0.0 && t.netPct <= -policy.stop + NET_SLACK);
    }

    method Open(i: int) returns (step: Step)
      requires Valid(s, policy, o) && i < |o.bars| && Ready(o, i, View())
      modifies this, p
      ensures Reached(step, Opening(s, policy, o, i, old(View())))
    {
      hide Net, Mark, StopPrice, SellBlocked, Sold, OnGrid;
      var b := o.bars[i];
      if i in o.invalid {
        t := t.(status := Invalid(o.invalid[i]));
        return Returned;
      }
      var blocked := SellBlocked(b, o.bars[i - 1].close, o.code);
      var all := p.Count(0, false);
      var available := p.Count(i, true);
      if all > 0 {
        t := t.(holdingDays := i - 1);
        if !t.stopTriggered && policy.stop > 0.0 {
          var trigger := p.SearchStop(s, policy.stop, b.open);
          if b.open <= trigger {
            t, stopCause := t.(stopTriggered := true, stopTriggerDate := Some(b.date)), StopGap;
          }
        }
        if t.stopTriggered {
          if !blocked && available > 0 {
            Sell(b, i, FillAt(s, b, b.open), stopCause);
          }
          var left := p.Count(0, false);
          if left == 0 {
            Conclude(b, i, stopCause);
            return Returned;
          }
          return DayOver;
        }
        if !blocked && available == all {
          var net := p.NetAt(s, Mark(s, b.open));
          if net >= policy.target {
            t := t.(targetHit := true, targetDay := i - 1);
            Sell(b, i, FillAt(s, b, b.open), Target);
            Conclude(b, i, Target);
            return Returned;
          }
        }
      }
      return GoesOn;
    }

    method Enter(i: int) returns (step: Step)
      requires Valid(s, policy, o) && 1 <= i < |o.bars|
      requires (i == 1 && View() == Start(o)) || (i > 1 && Held(p.View()))
      modifies this, p
      ensures Reached(step, Entry(s, policy, o, i, old(View())))
    {
      hide Bought, OnGrid, GapPct, Budget, OnePrice, Shares;
      assert i == 1 ==> t.entryDate == None;
      var b, previous := o.bars[i], o.bars[i - 1];
      if t.batchesFilled < policy.batches && (i == 1 || (i < policy.horizon + 1 && o.events[i - 1])) {
        if i in o.unknownAdds {
          t := t.(status := MissingAddContext);
          return Returned;
        }
        AtLeastACent(b.open);
        var filled := false;
        if b.volume > 0.0 && !OnePrice(b) && GapPct(b, previous) <= s.maxEntryGapPct {
          var order := p.BuyOrder(s, o.code, b, i, Budget(s, policy, p.invested));
          if order.Some? {
            BoughtAdds(s, old(p.View()), o.code, b, i, Budget(s, policy, old(p.invested)));
            filled := true;
            t := t.(fills := t.fills + [order.value], batchesFilled := t.batchesFilled + 1, invested := p.invested);
            if t.entryDate.None? {
              t := t.(entryDate := Some(b.date), status := Unresolved);
            }
          }
        }
        if i == 1 && t.entryDate.None? {
          return Returned;
        }
      }
      return GoesOn;
    }

    method Range(i: int) returns (step: Step)
      requires Valid(s, policy, o) && 1 <= i < |o.bars| && Held(p.View())
      modifies this, p
      ensures Reached(step, Intraday(s, policy, o, i, old(View())))
    {
      hide Net, Mark, StopPrice, Price, SellBlocked, Sold, Shares, OnGrid;
      var b := o.bars[i];
      var blocked := SellBlocked(b, o.bars[i - 1].close, o.code);
      if i == 1 {
        var close := p.NetAt(s, Mark(s, b.close));
        t := t.(entryCloseNetPct := close);
      }
      var all := p.Count(0, false);
      var available := p.Count(i, true);
      var high := p.NetAt(s, Mark(s, b.high));
      var highHit := high >= policy.target - NET_SLACK;
      var trigger := 0.0;
      if policy.stop > 0.0 {
        trigger := p.SearchStop(s, policy.stop, b.open);
      }
      var stopHit := policy.stop > 0.0 && b.low <= trigger;
      if highHit && available < all {
        t := t.(targetBlockedT1 := true);
      }
      if stopHit {
        t := t.(stopTriggered := true, stopTriggerDate := Some(b.date), ambiguous := highHit
          && available == all, blockedByT1 := available < all);
        if !blocked && available > 0 {
          Sell(b, i, FillAt(s, b, Min(b.high, trigger)), stopCause);
        }
        var left := p.Count(0, false);
        if left == 0 {
          Conclude(b, i, stopCause);
          return Returned;
        }
        return DayOver;
      }
      if !blocked && highHit && available == all {
        t := t.(targetHit := true, targetDay := i - 1);
        var price := p.SearchPrice(s, policy.target, b.open);
        Sell(b, i, price, Target);
        Conclude(b, i, Target);
        return Returned;
      }
      if i == policy.horizon + 1 && !blocked && available == all {
        Sell(b, i, FillAt(s, b, b.close), Timeout);
        Conclude(b, i, Timeout);
        return Returned;
      }
      return DayOver;
    }
  }

  method SimulateTrade(s: Strategy, policy: Policy, o: Opportunity) returns (t: Trade)
    requires Valid(s, policy, o)
    ensures t == Simulate(s, policy, o)
  {
    hide Opening, Entry, Intraday;
    var run := new TradeRun(s, policy, o);
    var i := 1;
    while i <= policy.horizon + 1 && i < |o.bars|
      invariant 1 <= i
      invariant Ready(o, i, run.View())
      invariant Days(s, policy, o, i, run.View()) == Simulate(s, policy, o)
      decreases |o.bars| - i
    {
      var step := run.Open(i);
      if step == Returned {
        return run.t;
      }
      if step == GoesOn {
        step := run.Enter(i);
        if step == Returned {
          return run.t;
        }
        step := run.Range(i);
        if step == Returned {
          return run.t;
        }
      }
      i := i + 1;
    }
    t := run.t;
  }
}
