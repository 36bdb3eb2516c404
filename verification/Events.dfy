/** What the search rules look for: their events in the indicator numbers, and the days that open a window. */
module Events {
  import opened Money
  import opened Market
  import opened Signals
  import opened Simulator
  import opened Grid
  import Boosting

  // ---------- the rules, in the events of the days ----------

  /** The event is one of day `i`, or of one of the two days before it. */
  predicate Lately(signals: seq<Signal>, i: int, e: Event)
    requires 0 <= i < |signals|
  {
    exists j :: i - 2 <= j <= i && 0 <= j && e in signals[j].events
  }

  lemma RecentIs(signals: seq<Signal>, i: int)
    requires 0 <= i < |signals|
    ensures Rsi in Recent(signals, i) <==> Lately(signals, i, RsiPersistence) || Lately(signals, i, RsiDivergence)
    ensures Macd in Recent(signals, i) <==> Lately(signals, i, MacdContraction) || Lately(signals, i, MacdDivergence)
    ensures Bollinger in Recent(signals, i) <==> Lately(signals, i, BollingerReentry)
  {
    forall f: Family
      ensures f in Recent(signals, i) <==> exists e :: FamilyOf(e) == f && Lately(signals, i, e)
    {
      FamilyIsRecent(signals, i, f);
    }
    assert FamilyOf(RsiPersistence) == FamilyOf(RsiDivergence) == Rsi;
    assert FamilyOf(MacdContraction) == FamilyOf(MacdDivergence) == Macd;
    assert FamilyOf(BollingerReentry) == Bollinger;
  }

  lemma FamilyIsRecent(signals: seq<Signal>, i: int, f: Family)
    requires 0 <= i < |signals|
    ensures f in Recent(signals, i) <==> exists e :: FamilyOf(e) == f && Lately(signals, i, e)
  {
    hide FamilyOf;
    if f in Recent(signals, i) {
      var j :| i - 2 <= j <= i && 0 <= j && f in Families(signals[j].events);
      var e :| e in signals[j].events && FamilyOf(e) == f;
      assert Lately(signals, i, e);
    }
    if e :| FamilyOf(e) == f && Lately(signals, i, e) {
      var j :| i - 2 <= j <= i && 0 <= j && e in signals[j].events;
      assert f in Families(signals[j].events);
    }
  }

  lemma Without(s: set<Family>, f: Family)
    ensures |s - {f}| == |s| - (if f in s then 1 else 0)
  {
    if f in s {
      assert s == (s - {f}) + {f};
    } else {
      assert s == s - {f};
    }
  }

  lemma NoFamily(s: set<Family>)
    requires Rsi !in s && Macd !in s && Bollinger !in s
    ensures |s| == 0
  {
    forall f ensures f !in s {
      match f
      case Rsi =>
      case Macd =>
      case Bollinger =>
    }
    assert s == {};
  }

  lemma TwoFamilies(s: set<Family>)
    ensures |s| >= 2 <==> (Rsi in s && Macd in s) || (Rsi in s && Bollinger in s) || (Macd in s && Bollinger in s)
  {
    var s1 := s - {Rsi};
    var s2 := s1 - {Macd};
    Without(s, Rsi);
    Without(s1, Macd);
    Without(s2, Bollinger);
    NoFamily(s2 - {Bollinger});
  }

  /**
   * When each rule of the search fires on a day. The first six and the two that name a pair of indicators look at the
   * events of the day; the last two need some event on the day, and look at those of three days.
   */
  predicate Fires(signals: seq<Signal>, i: int, rule: Rule)
    requires 0 <= i < |signals|
  {
    var today := signals[i].events;
    var rsi := Lately(signals, i, RsiPersistence) || Lately(signals, i, RsiDivergence);
    var macd := Lately(signals, i, MacdContraction) || Lately(signals, i, MacdDivergence);
    var bollinger := Lately(signals, i, BollingerReentry);
    match rule
    case Single(e) => e in today
    case Any => |today| > 0
    case MacdOrBollinger => MacdContraction in today || MacdDivergence in today || BollingerReentry in today
    case RsiOrBollinger => RsiPersistence in today || RsiDivergence in today || BollingerReentry in today
    case RecentConfluence => |today| > 0 && ((rsi && macd) || (rsi && bollinger) || (macd && bollinger))
    case MacdAndBollinger => |today| > 0 && macd && bollinger
  }

  /** The rule as the search evaluates it fires exactly then. */
  lemma RuleFires(signals: seq<Signal>, i: int, rule: Rule)
    requires 0 <= i < |signals|
    ensures GridEvent(signals, i, rule) <==> Fires(signals, i, rule)
  {
    hide Lately, Recent;
    RecentIs(signals, i);
    TwoFamilies(Recent(signals, i));
    FamiliesAre(signals[i].events);
  }

  lemma FamiliesAre(events: seq<Event>)
    ensures Rsi in Families(events) <==> RsiPersistence in events || RsiDivergence in events
    ensures Macd in Families(events) <==> MacdContraction in events || MacdDivergence in events
    ensures Bollinger in Families(events) <==> BollingerReentry in events
  {
    assert RsiPersistence in events ==> FamilyOf(RsiPersistence) in Families(events);
    assert RsiDivergence in events ==> FamilyOf(RsiDivergence) in Families(events);
    assert MacdContraction in events ==> FamilyOf(MacdContraction) in Families(events);
    assert MacdDivergence in events ==> FamilyOf(MacdDivergence) in Families(events);
    assert BollingerReentry in events ==> FamilyOf(BollingerReentry) in Families(events);
  }

  // ---------- the windows of the search ----------

  /** The first `n` bars are the ones dated up to `through`. */
  ghost predicate Through(bars: seq<Bar>, through: int, n: nat) {
    && n <= |bars|
    && (forall i :: 0 <= i < n ==> bars[i].date <= through)
    && (forall i :: n <= i < |bars| ==> bars[i].date > through)
  }

  lemma CutIsThrough(bars: seq<Bar>, through: int)
    requires ValidBars(bars)
    ensures Through(bars, through, |Cut(bars, through)|)
  {
    hide Cut;
    var cut := Cut(bars, through);
    var n := |cut|;
    forall i | 0 <= i < n ensures bars[i].date <= through {
      assert cut[n - 1] == bars[n - 1];
      DatesAscend(bars, i, n - 1);
    }
    forall i | n <= i < |bars| ensures bars[i].date > through {
      DatesAscend(bars, n, i);
    }
  }

  /** A history of the search, its raw partner, its signals, and the number of its bars dated inside the search. */
  datatype Source = Source(h: History, raw: History, signals: seq<Signal>, n: nat)

  ghost predicate Comes(ind: Indicators, snap: Snapshot, o: Options, x: Source) {
    && x.h in snap.adjusted && !x.h.special && x.raw in snap.raw && x.raw.code == x.h.code
    && |x.raw.bars| == |x.h.bars| && |x.signals| == x.n
    && Through(x.h.bars, o.through, x.n) && SignalsOf(ind, x.h.bars[..x.n]) == Some(x.signals)
    && ValidBars(x.h.bars) && ValidBars(x.raw.bars)
  }

  /** A window of 22 days can open at place `p`: past the warm-up, inside the search, on one side of the split. */
  ghost predicate MayOpen(o: Options, rule: Rule, x: Source, p: nat)
    requires x.n == |x.signals| && x.n <= |x.h.bars|
  {
    && 59 <= p && p + 21 < x.n && Fires(x.signals, p, rule)
    && o.from <= x.h.bars[p].date
    && (x.h.bars[p].date <= o.trainThrough ==> x.h.bars[p + 21].date <= o.trainThrough)
  }

  /** Between the two days the exchange had another session. */
  predicate SessionMissing(next: int -> Option<int>, raw: seq<Bar>, j: nat)
    requires 1 <= j < |raw|
  {
    next(raw[j - 1].date) != Some(raw[j].date)
  }

  /** The adjustment of day `j` differs by more than 0.2% from that of day `p`. */
  predicate FactorMoved(adjusted: seq<Bar>, raw: seq<Bar>, p: nat, j: nat)
    requires p <= j < |raw| == |adjusted| && ValidBars(raw) && ValidBars(adjusted)
  {
    Abs((adjusted[j].close / raw[j].close) / (adjusted[p].close / raw[p].close) - 1.0) > 0.002
  }

  /** Day `k` of the window at place `p` cannot be traded. */
  predicate Untradable(next: int -> Option<int>, adjusted: seq<Bar>, raw: seq<Bar>, p: nat, k: int)
    requires p + 21 < |raw| == |adjusted| && ValidBars(raw) && ValidBars(adjusted)
  {
    1 <= k <= 21 && (SessionMissing(next, raw, p + k) || FactorMoved(adjusted, raw, p, p + k))
  }

  /** The opportunity is the window at place `p`, with the firings of the rule and the days that cannot be traded. */
  ghost predicate Opens(o: Options, next: int -> Option<int>, rule: Rule, x: Source, p: nat, w: Opportunity)
    requires p + 21 < x.n == |x.signals| && x.n <= |x.h.bars| == |x.raw.bars|
    requires ValidBars(x.h.bars) && ValidBars(x.raw.bars)
  {
    && w.id == TradeId(x.h.code, x.h.bars[p].date) && w.code == x.h.code && w.name == x.h.name
    && w.split == (if x.h.bars[p].date > o.trainThrough then Later else Training)
    && w.bars == x.raw.bars[p..p + 22] && |w.events| == 22 && w.unknownAdds == {}
    && (forall k :: 0 <= k < 22 ==> (w.events[k] <==> Fires(x.signals, p + k, rule)))
    && (forall k :: k in w.invalid <==> Untradable(next, x.h.bars, x.raw.bars, p, k))
    && (forall k :: k in w.invalid ==>
          w.invalid[k] == if SessionMissing(next, x.raw.bars, p + k) then "missing_session" else "corporate_action")
  }

  lemma {:induction false} InvalidsAre(next: int -> Option<int>, a: seq<Bar>, b: seq<Bar>, start: nat, n: nat, k: int)
    requires start + n < |a| == |b| && ValidBars(a) && ValidBars(b)
    ensures var r := Invalids(next, a, b, start, n);
      && (k in r <==> 1 <= k <= n && (SessionMissing(next, b, start + k) || FactorMoved(a, b, start, start + k)))
      && (k in r ==> r[k] == if SessionMissing(next, b, start + k) then "missing_session" else "corporate_action")
  {
    if n > 0 {
      InvalidsAre(next, a, b, start, n - 1, k);
    }
  }

  lemma {:induction false} WindowsAre(o: Options, next: int -> Option<int>, h: History, a: seq<Bar>, b: seq<Bar>,
      events: seq<bool>, start: nat, k: nat) returns (p: nat)
    requires ValidPair(a, b, events) && k < |Windows(o, next, h, a, b, events, start)|
    ensures start <= p && p + 21 < |a| && !Skipped(o, a, events, p)
    ensures Windows(o, next, h, a, b, events, start)[k] == Window(o, next, h, a, b, events, p)
    decreases |a| - start
  {
    hide Window, InCents;
    if Skipped(o, a, events, start) {
      p := WindowsAre(o, next, h, a, b, events, start + 1, k);
    } else if k == 0 {
      p := start;
    } else {
      p := WindowsAre(o, next, h, a, b, events, start + 21, k - 1);
    }
  }

  /** The histories that the search cuts windows from. */
  lemma SourceOf(ind: Indicators, snap: Snapshot, o: Options, h: History, rule: Rule) returns (x: Source)
    requires ValidSnapshot(snap) && h in snap.adjusted && Paired(ind, snap, o, h) && !h.special
    ensures x.h == h && Comes(ind, snap, o, x)
    ensures var y := Series(ind, snap, o, h, rule);
      y.0 == h.bars[..x.n] && y.1 == x.raw.bars[..x.n] && y.2 == EventsOf(x.signals, rule)
  {
    hide SignalsOf, Windows, WindowsOf, InCents;
    var y := Series(ind, snap, o, h, rule);
    RawIsValid(snap.raw, h.code);
    AdjustedValid(snap, h);
    CutIsThrough(h.bars, o.through);
    RawHasCode(snap.raw, h.code);
    x := Source(h, RawOf(snap.raw, h.code).value, SignalsOf(ind, y.0).value, |y.0|);
    assert y.0 == h.bars[..x.n];
  }

  lemma {:induction false} RawHasCode(raw: seq<History>, code: string)
    requires RawOf(raw, code).Some?
    ensures RawOf(raw, code).value.code == code
  {
    if raw[0].code != code {
      RawHasCode(raw[1..], code);
    }
  }

  lemma WindowOpens(o: Options, next: int -> Option<int>, rule: Rule, x: Source, p: nat)
    requires p + 21 < x.n == |x.signals| && x.n <= |x.h.bars| == |x.raw.bars|
    requires ValidBars(x.h.bars) && ValidBars(x.raw.bars)
    requires ValidPair(x.h.bars[..x.n], x.raw.bars[..x.n], EventsOf(x.signals, rule))
    ensures Opens(o, next, rule, x, p,
      Window(o, next, x.h, x.h.bars[..x.n], x.raw.bars[..x.n], EventsOf(x.signals, rule), p))
  {
    hide Fires, GridEvent, Invalids, InCents, SessionMissing, FactorMoved;
    var a, b, events := x.h.bars[..x.n], x.raw.bars[..x.n], EventsOf(x.signals, rule);
    var w := Window(o, next, x.h, a, b, events, p);
    forall k | 0 <= k < 22 ensures w.events[k] <==> Fires(x.signals, p + k, rule) {
      RuleFires(x.signals, p + k, rule);
    }
    forall k
      ensures k in w.invalid <==> Untradable(next, x.h.bars, x.raw.bars, p, k)
      ensures k in w.invalid ==>
        w.invalid[k] == if SessionMissing(next, x.raw.bars, p + k) then "missing_session" else "corporate_action"
    {
      InvalidsAre(next, a, b, p, 21, k);
      if 1 <= k <= 21 { PrefixDays(next, x, p, p + k); }
    }
  }

  lemma PrefixDays(next: int -> Option<int>, x: Source, p: nat, j: nat)
    requires 1 <= j && p <= j < x.n <= |x.h.bars| == |x.raw.bars| && ValidBars(x.h.bars) && ValidBars(x.raw.bars)
    ensures SessionMissing(next, x.raw.bars[..x.n], j) == SessionMissing(next, x.raw.bars, j)
    ensures FactorMoved(x.h.bars[..x.n], x.raw.bars[..x.n], p, j) == FactorMoved(x.h.bars, x.raw.bars, p, j)
  {
  }

  // ---------- every opportunity of the search ----------

  lemma {:induction false} OpportunityFrom(ind: Indicators, snap: Snapshot, o: Options, rule: Rule, n: nat, k: nat)
      returns (i: nat, j: nat)
    requires ValidSnapshot(snap) && n <= |snap.adjusted|
    requires forall i :: 0 <= i < n ==> Paired(ind, snap, o, snap.adjusted[i])
    requires k < |Opportunities(ind, snap, o, rule, n)|
    ensures i < n && j < |WindowsOf(ind, snap, o, snap.adjusted[i], rule)|
    ensures WindowsOf(ind, snap, o, snap.adjusted[i], rule)[j] == Opportunities(ind, snap, o, rule, n)[k]
  {
    hide WindowsOf, Paired, ValidSnapshot;
    var before := Opportunities(ind, snap, o, rule, n - 1);
    if k < |before| {
      i, j := OpportunityFrom(ind, snap, o, rule, n - 1, k);
    } else {
      i, j := n - 1, k - |before|;
    }
  }

  /**
   * Every opportunity of the prepared data comes from a history of the search: its window opens on a day past the
   * warm-up on which the rule fires, inside the dates of the search and on one side of the split; its bars are the raw
   * ones of 22 days, its events say on which of them the rule fires, and its invalid days are those whose session or
   * adjustment breaks.
   */
  lemma OpportunityFires(ind: Indicators, snap: Snapshot, o: Options, rule: Rule, k: nat)
      returns (x: Source, p: nat)
    requires ValidSnapshot(snap) && Accepted(ind, snap, o)
    requires rule in DataOf(ind, snap, o) && k < |DataOf(ind, snap, o)[rule]|
    ensures Comes(ind, snap, o, x) && MayOpen(o, rule, x, p)
    ensures Opens(o, snap.next, rule, x, p, DataOf(ind, snap, o)[rule][k])
  {
    hide Paired, ValidSnapshot, SearchRules, Opportunities, WindowsOf, Windows, Window, Fires, Comes, Series, Opens,
      ValidPair;
    var i, j := OpportunityFrom(ind, snap, o, rule, |snap.adjusted|, k);
    var h := snap.adjusted[i];
    NotSpecial(ind, snap, o, h, rule, j);
    x := SourceOf(ind, snap, o, h, rule);
    var y := Series(ind, snap, o, h, rule);
    p := WindowsAre(o, snap.next, h, y.0, y.1, y.2, 59, j);
    SourceShape(ind, snap, o, x);
    WindowOpens(o, snap.next, rule, x, p);
    RuleFires(x.signals, p, rule);
  }

  lemma NotSpecial(ind: Indicators, snap: Snapshot, o: Options, h: History, rule: Rule, j: nat)
    requires ValidSnapshot(snap) && h in snap.adjusted && Paired(ind, snap, o, h)
    requires j < |WindowsOf(ind, snap, o, h, rule)|
    ensures !h.special
  {
  }

  lemma SourceShape(ind: Indicators, snap: Snapshot, o: Options, x: Source)
    requires Comes(ind, snap, o, x)
    ensures x.n == |x.signals| && x.n <= |x.h.bars| == |x.raw.bars| && ValidBars(x.h.bars) && ValidBars(x.raw.bars)
  {
  }

  lemma RuleSearched(rule: Rule)
    ensures rule in SearchRules()
  {
    var rules := SearchRules();
    match rule
    case Single(e) =>
      match e {
        case RsiDivergence => assert rules[0] == rule;
        case MacdDivergence => assert rules[1] == rule;
        case RsiPersistence => assert rules[2] == rule;
        case MacdContraction => assert rules[3] == rule;
        case BollingerReentry => assert rules[4] == rule;
      }
    case Any => assert rules[5] == rule;
    case MacdOrBollinger => assert rules[6] == rule;
    case RsiOrBollinger => assert rules[7] == rule;
    case RecentConfluence => assert rules[8] == rule;
    case MacdAndBollinger => assert rules[9] == rule;
  }

  lemma {:induction false} OpportunityAt(ind: Indicators, snap: Snapshot, o: Options, rule: Rule, n: nat, i: nat,
      j: nat) returns (k: nat)
    requires ValidSnapshot(snap) && n <= |snap.adjusted|
    requires forall m :: 0 <= m < n ==> Paired(ind, snap, o, snap.adjusted[m])
    requires i < n && j < |WindowsOf(ind, snap, o, snap.adjusted[i], rule)|
    ensures k < |Opportunities(ind, snap, o, rule, n)|
    ensures Opportunities(ind, snap, o, rule, n)[k] == WindowsOf(ind, snap, o, snap.adjusted[i], rule)[j]
  {
    hide WindowsOf, Paired, ValidSnapshot;
    if i == n - 1 {
      k := |Opportunities(ind, snap, o, rule, n - 1)| + j;
    } else {
      k := OpportunityAt(ind, snap, o, rule, n - 1, i, j);
    }
  }

  /** A history of the search has one source. */
  lemma SourceIsUnique(ind: Indicators, snap: Snapshot, o: Options, x: Source, y: Source)
    requires Accepted(ind, snap, o) && Comes(ind, snap, o, x) && Comes(ind, snap, o, y) && x.h == y.h
    ensures x == y
  {
    hide Paired, SignalsOf;
    var i :| 0 <= i < |snap.raw| && snap.raw[i] == x.raw;
    var j :| 0 <= j < |snap.raw| && snap.raw[j] == y.raw;
    assert i == j;
    ThroughOnce(x.h.bars, o.through, x.n, y.n);
    ThroughOnce(x.h.bars, o.through, y.n, x.n);
  }

  lemma ThroughOnce(bars: seq<Bar>, through: int, n: nat, m: nat)
    requires Through(bars, through, n) && Through(bars, through, m)
    ensures m <= n
  {
    assert n < |bars| ==> bars[n].date > through;
  }

  lemma NotSkipped(o: Options, rule: Rule, x: Source, p: nat)
    requires x.n == |x.signals| && x.n <= |x.h.bars| && MayOpen(o, rule, x, p)
    ensures !Skipped(o, x.h.bars[..x.n], EventsOf(x.signals, rule), p)
  {
    hide Fires, GridEvent;
    RuleFires(x.signals, p, rule);
  }

  /** All ten rules are searched, and on every day on which a window could open, one of the rule's windows is open. */
  lemma FiringsAreCovered(ind: Indicators, snap: Snapshot, o: Options, rule: Rule, x: Source, p: nat)
      returns (k: nat)
    requires ValidSnapshot(snap) && Accepted(ind, snap, o)
    requires Comes(ind, snap, o, x) && x.n == |x.signals| && x.n <= |x.h.bars| && MayOpen(o, rule, x, p)
    ensures rule in DataOf(ind, snap, o) && k < |DataOf(ind, snap, o)[rule]|
    ensures var w := DataOf(ind, snap, o)[rule][k];
      w.code == x.h.code && |w.bars| == 22 && w.bars[0].date <= x.h.bars[p].date < w.bars[21].date
  {
    RuleSearched(rule);
    hide Paired, ValidSnapshot, SearchRules, Opportunities, WindowsOf, Windows, Window, Series, ValidPair, EventsOf,
      Fires, Skipped;
    NotSkipped(o, rule, x, p);
    var i :| 0 <= i < |snap.adjusted| && snap.adjusted[i] == x.h;
    var y := SourceOf(ind, snap, o, x.h, rule);
    SourceIsUnique(ind, snap, o, x, y);
    var z := Series(ind, snap, o, x.h, rule);
    NoStartIsMissed(o, snap.next, x.h, z.0, z.1, z.2, 59, p);
    var j :| 0 <= j < |Windows(o, snap.next, x.h, z.0, z.1, z.2, 59)|
      && OpenOn(Windows(o, snap.next, x.h, z.0, z.1, z.2, 59)[j], z.0[p].date);
    k := OpportunityAt(ind, snap, o, rule, |snap.adjusted|, i, j);
    WindowIsCoded(o, snap.next, x.h, z.0, z.1, z.2, j);
  }

  lemma WindowIsCoded(o: Options, next: int -> Option<int>, h: History, a: seq<Bar>, b: seq<Bar>, events: seq<bool>,
      j: nat)
    requires ValidPair(a, b, events) && j < |Windows(o, next, h, a, b, events, 59)|
    ensures Windows(o, next, h, a, b, events, 59)[j].code == h.code
  {
    hide Windows;
    var p := WindowsAre(o, next, h, a, b, events, 59, j);
  }
}
