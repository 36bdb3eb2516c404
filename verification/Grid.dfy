/** The policy search: training and later windows of the histories, and the choice among the policies. */
module Grid {
  import opened Money
  import opened Market
  import opened Signals
  import opened Simulator

  // ---------- events of a rule ----------

  datatype Family = Rsi | Macd | Bollinger

  function FamilyOf(e: Event): Family {
    match e
    case RsiPersistence => Rsi
    case RsiDivergence => Rsi
    case MacdContraction => Macd
    case MacdDivergence => Macd
    case BollingerReentry => Bollinger
  }

  function Families(events: seq<Event>): set<Family> {
    set e | e in events :: FamilyOf(e)
  }

  /** The families of the events of day `i` and the two days before it. */
  function Recent(signals: seq<Signal>, i: int): set<Family>
    requires 0 <= i < |signals|
  {
    Families(signals[i].events)
    + (if i >= 1 then Families(signals[i - 1].events) else {})
    + (if i >= 2 then Families(signals[i - 2].events) else {})
  }

  predicate GridEvent(signals: seq<Signal>, i: int, rule: Rule)
    requires 0 <= i < |signals|
  {
    signals[i].events != [] &&
    match rule
    case Single(e) => e in signals[i].events
    case Any => true
    case MacdOrBollinger => Macd in Families(signals[i].events) || Bollinger in Families(signals[i].events)
    case RsiOrBollinger => Rsi in Families(signals[i].events) || Bollinger in Families(signals[i].events)
    case RecentConfluence => |Recent(signals, i)| >= 2
    case MacdAndBollinger => Macd in Recent(signals, i) && Bollinger in Recent(signals, i)
  }

  function EventsOf(signals: seq<Signal>, rule: Rule): seq<bool> {
    seq(|signals|, i requires 0 <= i < |signals| => GridEvent(signals, i, rule))
  }

  // ---------- the windows of one history ----------

  datatype Options = Options(from: int, through: int, trainThrough: int)

  datatype History = History(code: string, name: string, special: bool, bars: seq<Bar>)

  /** `next` is the exchange calendar's following session, where it is known. */
  datatype Snapshot = Snapshot(raw: seq<History>, adjusted: seq<History>, parameters: Strategy,
      next: int -> Option<int>)

  /** The bars dated up to `through`. */
  function Cut(bars: seq<Bar>, through: int): (r: seq<Bar>)
    ensures r <= bars
    ensures r != [] ==> r[|r| - 1].date <= through
    ensures r < bars ==> bars[|r|].date > through
  {
    if bars == [] || bars[|bars| - 1].date <= through then bars else Cut(bars[..|bars| - 1], through)
  }

  /** Why a day of a window cannot be traded: its session is missing, or the adjustment factor moved. */
  function Invalids(next: int -> Option<int>, a: seq<Bar>, b: seq<Bar>, start: int, n: nat): map<int, string>
    requires 0 <= start && start + n < |a| && |a| == |b| && ValidBars(a) && ValidBars(b)
  {
    if n == 0 then map[] else
      var rest := Invalids(next, a, b, start, n - 1);
      var j := start + n;
      if next(b[j - 1].date) != Some(b[j].date) then rest[n := "missing_session"]
      else if Abs(a[j].close / b[j].close / (a[start].close / b[start].close) - 1.0) > 0.002
        then rest[n := "corporate_action"]
      else rest
  }

  ghost predicate ValidPair(a: seq<Bar>, b: seq<Bar>, events: seq<bool>) {
    && |a| == |b| == |events| && ValidBars(a) && ValidBars(b)
    && (forall i :: 0 <= i < |a| ==> a[i].date == b[i].date && InCents(b[i]))
  }

  function SplitOf(o: Options, date: int): Split {
    if date > o.trainThrough then Later else Training
  }

  function Window(o: Options, next: int -> Option<int>, h: History, a: seq<Bar>, b: seq<Bar>, events: seq<bool>,
      start: int): (w: Opportunity)
    requires ValidPair(a, b, events) && 0 <= start && start + 21 < |a|
    ensures w.Valid()
    ensures |w.bars| == 22 && w.bars[0] == b[start] && w.bars[21] == b[start + 21]
    ensures w.id == TradeId(h.code, b[start].date) && w.split == SplitOf(o, b[start].date)
  {
    Opportunity(TradeId(h.code, a[start].date), h.code, h.name, SplitOf(o, a[start].date), b[start..start + 22],
      events[start..start + 22], Invalids(next, a, b, start, 21), {})
  }

  /**
    No window starts here: no event, too early, too few bars left, or a training window that would cross the boundary.
  */
  predicate Skipped(o: Options, a: seq<Bar>, events: seq<bool>, start: int)
    requires 0 <= start < |a| && |events| == |a|
  {
    || !events[start] || a[start].date < o.from
    || start + 21 >= |a|
    || (a[start].date <= o.trainThrough && a[start + 21].date > o.trainThrough)
  }

  /** The windows from `start` on; after a window the search resumes at its last bar. */
  function Windows(o: Options, next: int -> Option<int>, h: History, a: seq<Bar>, b: seq<Bar>, events: seq<bool>,
      start: nat): (r: seq<Opportunity>)
    requires ValidPair(a, b, events)
    ensures forall k :: 0 <= k < |r| ==> r[k].Valid()
    decreases |a| - start
  {
    if start >= |a| then []
    else if Skipped(o, a, events, start) then Windows(o, next, h, a, b, events, start + 1)
    else [Window(o, next, h, a, b, events, start)] + Windows(o, next, h, a, b, events, start + 21)
  }

  // ---------- the windows of a snapshot ----------

  function RawOf(raw: seq<History>, code: string): Option<History> {
    if raw == [] then None else if raw[0].code == code then Some(raw[0]) else RawOf(raw[1..], code)
  }

  /** What snapshot validation guarantees before the search starts. */
  ghost predicate ValidSnapshot(snap: Snapshot) {
    && snap.parameters.Valid()
    && (forall k :: 0 <= k < |snap.raw| ==> ValidBars(snap.raw[k].bars) && forall i :: 0 <= i < |snap.raw[k].bars| ==>
         InCents(snap.raw[k].bars[i]))
    && (forall k :: 0 <= k < |snap.adjusted| ==> ValidBars(snap.adjusted[k].bars))
  }

  /** An adjusted history whose raw partner is found and aligned, and whose signals are computed. */
  predicate Paired(ind: Indicators, snap: Snapshot, o: Options, h: History) {
    var raw := RawOf(snap.raw, h.code);
    raw.Some? && |raw.value.bars| == |h.bars| &&
    (h.special ||
     var a, b := Cut(h.bars, o.through), raw.value.bars[..|Cut(h.bars, o.through)|];
     (forall i :: 0 <= i < |a| ==> a[i].date == b[i].date) && SignalsOf(ind, a).Some?)
  }

  predicate Accepted(ind: Indicators, snap: Snapshot, o: Options) {
    && o.from < o.trainThrough < o.through
    && |snap.adjusted| > 0
    && (forall i, j :: 0 <= i < j < |snap.raw| ==> snap.raw[i].code != snap.raw[j].code)
    && (forall i, j :: 0 <= i < j < |snap.adjusted| ==> snap.adjusted[i].code != snap.adjusted[j].code)
    && (forall k :: 0 <= k < |snap.adjusted| ==> Paired(ind, snap, o, snap.adjusted[k]))
  }

  lemma {:induction false} RawIsValid(raw: seq<History>, code: string)
    requires RawOf(raw, code).Some?
    ensures exists k :: 0 <= k < |raw| && raw[k] == RawOf(raw, code).value
  {
    if raw[0].code != code {
      RawIsValid(raw[1..], code);
      var k :| 0 <= k < |raw[1..]| && raw[1..][k] == RawOf(raw[1..], code).value;
      assert raw[k + 1] == RawOf(raw, code).value;
    }
  }

  lemma PairIsValid(ind: Indicators, snap: Snapshot, o: Options, h: History, rule: Rule)
    requires ValidSnapshot(snap) && h in snap.adjusted && Paired(ind, snap, o, h) && !h.special
    ensures var a := Cut(h.bars, o.through);
            var b := RawOf(snap.raw, h.code).value.bars[..|a|];
            ValidPair(a, b, EventsOf(SignalsOf(ind, a).value, rule))
  {
    RawIsValid(snap.raw, h.code);
  }

  function WindowsOf(ind: Indicators, snap: Snapshot, o: Options, h: History, rule: Rule): (r: seq<Opportunity>)
    requires ValidSnapshot(snap) && h in snap.adjusted && Paired(ind, snap, o, h)
    ensures forall k :: 0 <= k < |r| ==> r[k].Valid()
  {
    if h.special then [] else
      PairIsValid(ind, snap, o, h, rule);
      var a := Cut(h.bars, o.through);
      var b := RawOf(snap.raw, h.code).value.bars[..|a|];
      Windows(o, snap.next, h, a, b, EventsOf(SignalsOf(ind, a).value, rule), WARMUP - 1)
  }

  /** The opportunities of a rule in the first `n` histories. */
  function Opportunities(ind: Indicators, snap: Snapshot, o: Options, rule: Rule, n: nat): (r: seq<Opportunity>)
    requires ValidSnapshot(snap) && n <= |snap.adjusted|
    requires forall k :: 0 <= k < n ==> Paired(ind, snap, o, snap.adjusted[k])
    ensures forall k :: 0 <= k < |r| ==> r[k].Valid()
  {
    if n == 0 then [] else
      Opportunities(ind, snap, o, rule, n - 1) + WindowsOf(ind, snap, o, snap.adjusted[n - 1], rule)
  }

  // ---------- training windows see no bar after the boundary ----------

  function TrainingOnly(opps: seq<Opportunity>): seq<Opportunity> {
    if opps == [] then []
    else if opps[0].split == Training then [opps[0]] + TrainingOnly(opps[1..])
    else TrainingOnly(opps[1..])
  }

  lemma {:induction false} TrainingMembers(opps: seq<Opportunity>)
    requires forall k :: 0 <= k < |opps| ==> opps[k].Valid()
    ensures forall k :: 0 <= k < |TrainingOnly(opps)| ==> TrainingOnly(opps)[k].Valid()
  {
    if opps != [] {
      TrainingMembers(opps[1..]);
    }
  }

  lemma {:induction false} TrainingConcat(x: seq<Opportunity>, y: seq<Opportunity>)
    ensures TrainingOnly(x + y) == TrainingOnly(x) + TrainingOnly(y)
  {
    if x == [] {
      assert x + y == y;
    } else {
      TrainingConcat(x[1..], y);
      assert (x + y)[1..] == x[1..] + y;
    }
  }

  /**
    Windows of 22 bars from `date` on, each starting where the one
    before ended or later; training windows end by the boundary.
  */
  ghost predicate InOrder(o: Options, code: string, date: int, r: seq<Opportunity>) {
    && (forall k :: 0 <= k < |r| ==> Placed(o, code, date, r[k]))
    && (forall j, k :: 0 <= j < k < |r| ==> Placed(o, code, LastDay(r[j]), r[k]))
  }

  ghost function LastDay(w: Opportunity): int {
    if |w.bars| == 22 then w.bars[21].date else 0
  }

  ghost predicate Placed(o: Options, code: string, date: int, w: Opportunity) {
    && |w.bars| == 22 && w.id == TradeId(code, w.bars[0].date) && date <= w.bars[0].date
    && w.split == SplitOf(o, w.bars[0].date)
    && (w.split == Training ==> w.bars[21].date <= o.trainThrough)
  }

  lemma {:induction false} WindowsInOrder(o: Options, next: int -> Option<int>, h: History, a: seq<Bar>, b: seq<Bar>,
      events: seq<bool>, start: nat)
    requires ValidPair(a, b, events) && start < |a|
    ensures InOrder(o, h.code, a[start].date, Windows(o, next, h, a, b, events, start))
    decreases |a| - start
  {
    hide Window, InCents;
    if Skipped(o, a, events, start) {
      if start + 1 < |a| {
        WindowsInOrder(o, next, h, a, b, events, start + 1);
        assert a[start].date < a[start + 1].date;
      }
    } else {
      WindowsInOrder(o, next, h, a, b, events, start + 21);
      var w, rest := Window(o, next, h, a, b, events, start), Windows(o, next, h, a, b, events, start + 21);
      assert a[start].date < a[start + 21].date;
      assert Placed(o, h.code, a[start].date, w) && LastDay(w) == a[start + 21].date;
      assert forall k :: 0 <= k < |rest| ==> Placed(o, h.code, a[start + 21].date, rest[k]);
    }
  }

  /** A window is open on a date: it starts on it or before, and has not come to its last bar. */
  ghost predicate OpenOn(w: Opportunity, date: int) {
    |w.bars| == 22 && w.bars[0].date <= date < w.bars[21].date
  }

  /** No start is missed: on every day on which a window could start one is open. */
  lemma {:induction false} NoStartIsMissed(
      o: Options, next: int -> Option<int>, h: History, a: seq<Bar>, b: seq<Bar>, events: seq<bool>, start: nat, s: nat)
    requires ValidPair(a, b, events) && start <= s < |a| && !Skipped(o, a, events, s)
    ensures exists k :: 0 <= k < |Windows(o, next, h, a, b, events, start)|
                        && OpenOn(Windows(o, next, h, a, b, events, start)[k], a[s].date)
    decreases |a| - start
  {
    hide Window, InCents, OpenOn;
    if Skipped(o, a, events, start) {
      NoStartIsMissed(o, next, h, a, b, events, start + 1, s);
      assert Windows(o, next, h, a, b, events, start) == Windows(o, next, h, a, b, events, start + 1);
    } else {
      var w, rest := Window(o, next, h, a, b, events, start), Windows(o, next, h, a, b, events, start + 21);
      assert Windows(o, next, h, a, b, events, start) == [w] + rest;
      if s < start + 21 {
        FirstIsOpen(o, next, h, a, b, events, start, s);
        assert ([w] + rest)[0] == w;
        assert OpenOn(([w] + rest)[0], a[s].date);
      } else {
        NoStartIsMissed(o, next, h, a, b, events, start + 21, s);
        var k :| 0 <= k < |rest| && OpenOn(rest[k], a[s].date);
        assert ([w] + rest)[k + 1] == rest[k];
        assert OpenOn(([w] + rest)[k + 1], a[s].date);
      }
    }
  }

  lemma FirstIsOpen(
      o: Options, next: int -> Option<int>, h: History, a: seq<Bar>, b: seq<Bar>, events: seq<bool>, start: nat, s: nat)
    requires ValidPair(a, b, events) && start <= s < start + 21 < |a|
    ensures OpenOn(Window(o, next, h, a, b, events, start), a[s].date)
  {
    hide Invalids, InCents;
    DatesAscend(a, start, s);
    DatesAscend(a, s, start + 21);
  }

  /** Two aligned pairs of series that agree on their first `c` days, the days up to the training boundary. */
  ghost predicate AgreeOn(o: Options, a: seq<Bar>, b: seq<Bar>, events: seq<bool>, a': seq<Bar>, b': seq<Bar>,
      events': seq<bool>, c: nat) {
    && ValidPair(a, b, events) && ValidPair(a', b', events')
    && c <= |a| && c <= |a'|
    && (forall i :: 0 <= i < c ==>
         a[i] == a'[i] && b[i] == b'[i] && events[i] == events'[i] && a[i].date <= o.trainThrough)
    && (forall i :: c <= i < |a| ==> a[i].date > o.trainThrough)
    && (forall i :: c <= i < |a'| ==> a'[i].date > o.trainThrough)
  }

  lemma {:induction false} InvalidsAgree(next: int -> Option<int>, a: seq<Bar>, b: seq<Bar>, a': seq<Bar>,
      b': seq<Bar>, start: int, n: nat)
    requires 0 <= start && start + n < |a| && |a| == |b| && start + n < |a'| && |a'| == |b'|
    requires ValidBars(a) && ValidBars(b) && ValidBars(a') && ValidBars(b')
    requires forall i :: start <= i <= start + n ==> a[i] == a'[i] && b[i] == b'[i]
    ensures Invalids(next, a, b, start, n) == Invalids(next, a', b', start, n)
  {
    if n > 0 {
      InvalidsAgree(next, a, b, a', b', start, n - 1);
    }
  }

  lemma {:induction false} LaterWindows(o: Options, next: int -> Option<int>, h: History, a: seq<Bar>, b: seq<Bar>,
      events: seq<bool>, start: nat)
    requires ValidPair(a, b, events)
    requires forall i :: start <= i < |a| ==> a[i].date > o.trainThrough
    ensures TrainingOnly(Windows(o, next, h, a, b, events, start)) == []
    decreases |a| - start
  {
    if start < |a| {
      if Skipped(o, a, events, start) {
        LaterWindows(o, next, h, a, b, events, start + 1);
      } else {
        LaterWindows(o, next, h, a, b, events, start + 21);
        var w := Window(o, next, h, a, b, events, start);
        assert ([w] + Windows(o, next, h, a, b, events, start + 21))[1..]
          == Windows(o, next, h, a, b, events, start + 21);
      }
    }
  }

  lemma WindowAgrees(o: Options, next: int -> Option<int>, h: History, h': History,
                     a: seq<Bar>, b: seq<Bar>, events: seq<bool>, a': seq<Bar>, b': seq<Bar>, events': seq<bool>,
                       c: nat, start: nat)
    requires AgreeOn(o, a, b, events, a', b', events', c) && h.code == h'.code && h.name == h'.name && start + 21 < c
    ensures Window(o, next, h, a, b, events, start) == Window(o, next, h', a', b', events', start)
    ensures Skipped(o, a, events, start) == Skipped(o, a', events', start)
  {
    InvalidsAgree(next, a, b, a', b', start, 21);
    assert b[start..start + 22] == b'[start..start + 22];
    assert events[start..start + 22] == events'[start..start + 22];
  }

  lemma {:induction false} WindowsAgree(o: Options, next: int -> Option<int>, h: History, h': History,
                     a: seq<Bar>, b: seq<Bar>, events: seq<bool>, a': seq<Bar>, b': seq<Bar>, events': seq<bool>,
                       c: nat, start: nat)
    requires AgreeOn(o, a, b, events, a', b', events', c) && h.code == h'.code && h.name == h'.name
    ensures TrainingOnly(Windows(o, next, h, a, b, events, start))
      == TrainingOnly(Windows(o, next, h', a', b', events', start))
    decreases c - start
  {
    hide Window, TrainingOnly, ValidBars, InCents;
    if start >= c {
      LaterWindows(o, next, h, a, b, events, start);
      LaterWindows(o, next, h', a', b', events', start);
    } else if start + 21 >= c {
      assert Skipped(o, a, events, start) && Skipped(o, a', events', start);
      WindowsAgree(o, next, h, h', a, b, events, a', b', events', c, start + 1);
    } else {
      WindowAgrees(o, next, h, h', a, b, events, a', b', events', c, start);
      if Skipped(o, a, events, start) {
        WindowsAgree(o, next, h, h', a, b, events, a', b', events', c, start + 1);
      } else {
        WindowsAgree(o, next, h, h', a, b, events, a', b', events', c, start + 21);
        var w := Window(o, next, h, a, b, events, start);
        TrainingConcat([w], Windows(o, next, h, a, b, events, start + 21));
        TrainingConcat([w], Windows(o, next, h', a', b', events', start + 21));
      }
    }
  }

  /** Two snapshots that differ only in bars dated after the training boundary. */
  ghost predicate AgreeThrough(snap: Snapshot, snap': Snapshot, o: Options) {
    && snap.parameters == snap'.parameters && snap.next == snap'.next
    && |snap.raw| == |snap'.raw| && |snap.adjusted| == |snap'.adjusted|
    && (forall k :: 0 <= k < |snap.raw| ==> SamePast(snap.raw[k], snap'.raw[k], o))
    && (forall k :: 0 <= k < |snap.adjusted| ==> SamePast(snap.adjusted[k], snap'.adjusted[k], o))
  }

  ghost predicate SamePast(h: History, h': History, o: Options) {
    h.code == h'.code && h.name == h'.name && h.special == h'.special
      && Cut(h.bars, o.trainThrough) == Cut(h'.bars, o.trainThrough)
  }

  lemma {:induction false} RawSamePast(raw: seq<History>, raw': seq<History>, code: string, o: Options)
    requires |raw| == |raw'| && forall k :: 0 <= k < |raw| ==> SamePast(raw[k], raw'[k], o)
    ensures RawOf(raw, code).Some? == RawOf(raw', code).Some?
    ensures RawOf(raw, code).Some? ==> SamePast(RawOf(raw, code).value, RawOf(raw', code).value, o)
  {
    if raw != [] {
      assert SamePast(raw[0], raw'[0], o);
      forall k | 0 <= k < |raw[1..]| ensures SamePast(raw[1..][k], raw'[1..][k], o) {
        assert raw[1..][k] == raw[k + 1] && raw'[1..][k] == raw'[k + 1];
      }
      RawSamePast(raw[1..], raw'[1..], code, o);
    }
  }

  /** The bars up to an earlier date are the first of those up to a later one. */
  lemma CutIsPrefix(bars: seq<Bar>, early: int, late: int)
    requires ValidBars(bars) && early <= late
    ensures |Cut(bars, early)| <= |Cut(bars, late)|
    ensures Cut(bars, early) == Cut(bars, late)[..|Cut(bars, early)|]
    ensures forall i :: 0 <= i < |Cut(bars, early)| ==> bars[i].date <= early
    ensures forall i :: |Cut(bars, early)| <= i < |bars| ==> bars[i].date > early
  {
    hide ValidBars, Cut;
    var k, l := |Cut(bars, early)|, |Cut(bars, late)|;
    if l < k {
      DatesAscend(bars, l, k - 1);
    }
    forall i | 0 <= i < k ensures bars[i].date <= early {
      DatesAscend(bars, i, k - 1);
    }
    forall i | k <= i < |bars| ensures bars[i].date > early {
      DatesAscend(bars, k, i);
    }
  }

  lemma GridEventCausal(signals: seq<Signal>, signals': seq<Signal>, i: int, rule: Rule)
    requires 0 <= i < |signals| && i < |signals'| && forall k :: 0 <= k <= i ==> signals[k] == signals'[k]
    ensures GridEvent(signals, i, rule) == GridEvent(signals', i, rule)
  {
    assert Recent(signals, i) == Recent(signals', i);
  }

  /** The window series of a history: its adjusted bars, their raw partners, and the events of a rule. */
  ghost function Series(ind: Indicators, snap: Snapshot, o: Options, h: History,
      rule: Rule): (r: (seq<Bar>, seq<Bar>, seq<bool>))
    requires ValidSnapshot(snap) && h in snap.adjusted && Paired(ind, snap, o, h) && !h.special
    ensures ValidPair(r.0, r.1, r.2)
    ensures r.0 == Cut(h.bars, o.through) && SignalsOf(ind, r.0).Some?
      && r.2 == EventsOf(SignalsOf(ind, r.0).value, rule)
    ensures RawOf(snap.raw, h.code).Some? && r.1 <= RawOf(snap.raw, h.code).value.bars
    ensures WindowsOf(ind, snap, o, h, rule) == Windows(o, snap.next, h, r.0, r.1, r.2, WARMUP - 1)
  {
    PairIsValid(ind, snap, o, h, rule);
    var a := Cut(h.bars, o.through);
    (a, RawOf(snap.raw, h.code).value.bars[..|a|], EventsOf(SignalsOf(ind, a).value, rule))
  }

  lemma RawAgrees(snap: Snapshot, snap': Snapshot, o: Options, code: string, i: int)
    requires ValidSnapshot(snap) && ValidSnapshot(snap') && AgreeThrough(snap, snap', o)
    requires RawOf(snap.raw, code).Some? && RawOf(snap'.raw, code).Some?
    requires 0 <= i < |RawOf(snap.raw, code).value.bars| && RawOf(snap.raw, code).value.bars[i].date <= o.trainThrough
    ensures i < |RawOf(snap'.raw, code).value.bars|
      && RawOf(snap.raw, code).value.bars[i] == RawOf(snap'.raw, code).value.bars[i]
  {
    RawSamePast(snap.raw, snap'.raw, code, o);
    RawIsValid(snap.raw, code);
    RawIsValid(snap'.raw, code);
    var r, r' := RawOf(snap.raw, code).value.bars, RawOf(snap'.raw, code).value.bars;
    CutIsPrefix(r, o.trainThrough, o.trainThrough);
    CutIsPrefix(r', o.trainThrough, o.trainThrough);
    assert i < |Cut(r, o.trainThrough)|;
    assert Cut(r, o.trainThrough)[i] == Cut(r', o.trainThrough)[i];
  }

  lemma EventsAgree(signals: seq<Signal>, signals': seq<Signal>, rule: Rule, c: nat, i: int)
    requires c <= |signals| && c <= |signals'| && signals[..c] == signals'[..c] && 0 <= i < c
    ensures EventsOf(signals, rule)[i] == EventsOf(signals', rule)[i]
  {
    forall k | 0 <= k <= i ensures signals[k] == signals'[k] {
      assert signals[..c][k] == signals'[..c][k];
    }
    GridEventCausal(signals, signals', i, rule);
  }

  lemma PairsAgree(ind: Indicators, snap: Snapshot, snap': Snapshot, o: Options, h: History, h': History, rule: Rule)
      returns (c: nat)
    requires ValidSnapshot(snap) && ValidSnapshot(snap') && AgreeThrough(snap, snap', o) && o.trainThrough <= o.through
    requires h in snap.adjusted && h' in snap'.adjusted && SamePast(h, h', o) && !h.special
    requires Paired(ind, snap, o, h) && Paired(ind, snap', o, h')
    ensures var x, y := Series(ind, snap, o, h, rule), Series(ind, snap', o, h', rule);
            AgreeOn(o, x.0, x.1, x.2, y.0, y.1, y.2, c)
  {
    hide EventsOf, SignalsOf, RawOf, ValidSnapshot, AgreeThrough, InCents, Cut, WindowsOf, Windows, ValidBars, Paired;
    var x, y := Series(ind, snap, o, h, rule), Series(ind, snap', o, h', rule);
    assert ValidBars(h.bars) && ValidBars(h'.bars) by { AdjustedValid(snap, h); AdjustedValid(snap', h'); }
    CutIsPrefix(h.bars, o.trainThrough, o.through);
    CutIsPrefix(h'.bars, o.trainThrough, o.through);
    c := |Cut(h.bars, o.trainThrough)|;
    SignalsAreCausal(ind, x.0, y.0, c);
    forall i | 0 <= i < c
      ensures x.0[i] == y.0[i] && x.1[i] == y.1[i] && x.2[i] == y.2[i] && x.0[i].date <= o.trainThrough
    {
      assert x.0[..c][i] == y.0[..c][i];
      RawAgrees(snap, snap', o, h.code, i);
      EventsAgree(SignalsOf(ind, x.0).value, SignalsOf(ind, y.0).value, rule, c, i);
    }
  }

  lemma AdjustedValid(snap: Snapshot, h: History)
    requires ValidSnapshot(snap) && h in snap.adjusted
    ensures ValidBars(h.bars)
  {
  }

  lemma HistoriesAgree(ind: Indicators, snap: Snapshot, snap': Snapshot, o: Options, h: History, h': History,
      rule: Rule)
    requires ValidSnapshot(snap) && ValidSnapshot(snap') && AgreeThrough(snap, snap', o) && o.trainThrough <= o.through
    requires h in snap.adjusted && h' in snap'.adjusted && SamePast(h, h', o)
    requires Paired(ind, snap, o, h) && Paired(ind, snap', o, h')
    ensures TrainingOnly(WindowsOf(ind, snap, o, h, rule)) == TrainingOnly(WindowsOf(ind, snap', o, h', rule))
  {
    hide Series, AgreeOn, TrainingOnly, Windows, ValidSnapshot, ValidBars, Paired;
    if !h.special {
      var x, y := Series(ind, snap, o, h, rule), Series(ind, snap', o, h', rule);
      var c := PairsAgree(ind, snap, snap', o, h, h', rule);
      WindowsAgree(o, snap.next, h, h', x.0, x.1, x.2, y.0, y.1, y.2, c, WARMUP - 1);
    }
  }

  /** The training opportunities are a function of the bars up to the training boundary. */
  lemma {:induction false} TrainingOpportunitiesAgree(ind: Indicators, snap: Snapshot, snap': Snapshot, o: Options,
      rule: Rule, n: nat)
    requires ValidSnapshot(snap) && ValidSnapshot(snap') && AgreeThrough(snap, snap', o)
    requires Accepted(ind, snap, o) && Accepted(ind, snap', o) && n <= |snap.adjusted|
    ensures TrainingOnly(Opportunities(ind, snap, o, rule, n)) == TrainingOnly(Opportunities(ind, snap', o, rule, n))
  {
    hide TrainingOnly, WindowsOf, ValidSnapshot, Paired;
    if n > 0 {
      TrainingOpportunitiesAgree(ind, snap, snap', o, rule, n - 1);
      var h, h' := snap.adjusted[n - 1], snap'.adjusted[n - 1];
      assert SamePast(h, h', o);
      HistoriesAgree(ind, snap, snap', o, h, h', rule);
      TrainingConcat(Opportunities(ind, snap, o, rule, n - 1), WindowsOf(ind, snap, o, h, rule));
      TrainingConcat(Opportunities(ind, snap', o, rule, n - 1), WindowsOf(ind, snap', o, h', rule));
    }
  }

  // ---------- preparing the data ----------

  type Data = map<Rule, seq<Opportunity>>

  /** The rules of the search, in its order. */
  function SearchRules(): (rules: seq<Rule>)
    ensures |rules| == 10
    ensures forall m, n :: 0 <= m < n < |rules| ==> rules[m] != rules[n]
  {
    [Single(RsiDivergence), Single(MacdDivergence), Single(RsiPersistence), Single(MacdContraction),
      Single(BollingerReentry), Any, MacdOrBollinger, RsiOrBollinger, RecentConfluence, MacdAndBollinger]
  }

  function OppsOf(data: Data, rule: Rule): seq<Opportunity> {
    if rule in data then data[rule] else []
  }

  function DataOf(ind: Indicators, snap: Snapshot, o: Options): Data
    requires ValidSnapshot(snap) && Accepted(ind, snap, o)
  {
    map rule | rule in SearchRules() :: Opportunities(ind, snap, o, rule, |snap.adjusted|)
  }

  method ScanWindows(o: Options, next: int -> Option<int>, h: History, a: seq<Bar>, b: seq<Bar>, events: seq<bool>)
      returns (r: seq<Opportunity>)
    requires ValidPair(a, b, events)
    ensures r == Windows(o, next, h, a, b, events, WARMUP - 1)
  {
    hide Window, Invalids, InCents, ValidBars;
    r := [];
    var start := WARMUP - 1;
    while start < |a|
      invariant 0 <= start
      invariant r + Windows(o, next, h, a, b, events, start) == Windows(o, next, h, a, b, events, WARMUP - 1)
      decreases |a| - start
    {
      if !events[start] || a[start].date < o.from || start + 21 >= |a| {
        start := start + 1;
        continue;
      }
      if a[start].date <= o.trainThrough && a[start + 21].date > o.trainThrough {
        start := start + 1;
        continue;
      }
      var invalid := ScanInvalids(next, a, b, start);
      WindowIs(o, next, h, a, b, events, start);
      r := r + [Opportunity(TradeId(h.code, a[start].date), h.code, h.name, SplitOf(o, a[start].date),
        b[start..start + 22], events[start..start + 22], invalid, {})];
      start := start + 20 + 1;
    }
  }

  lemma WindowIs(o: Options, next: int -> Option<int>, h: History, a: seq<Bar>, b: seq<Bar>, events: seq<bool>,
      start: int)
    requires ValidPair(a, b, events) && 0 <= start && start + 21 < |a|
    ensures Window(o, next, h, a, b, events, start)
         == Opportunity(TradeId(h.code, a[start].date), h.code, h.name, SplitOf(o, a[start].date), b[start..start + 22],
                        events[start..start + 22], Invalids(next, a, b, start, 21), {})
  {
  }

  method ScanInvalids(next: int -> Option<int>, a: seq<Bar>, b: seq<Bar>, start: int)
      returns (invalid: map<int, string>)
    requires 0 <= start && start + 21 < |a| && |a| == |b| && ValidBars(a) && ValidBars(b)
    ensures invalid == Invalids(next, a, b, start, 21)
  {
    invalid := map[];
    var factor := a[start].close / b[start].close;
    for i := 1 to 22
      invariant invalid == Invalids(next, a, b, start, i - 1)
    {
      var j := start + i;
      if next(b[j - 1].date) != Some(b[j].date) {
        invalid := invalid[i := "missing_session"];
      } else if Abs(a[j].close / b[j].close / factor - 1.0) > 0.002 {
        invalid := invalid[i := "corporate_action"];
      }
    }
  }

  method DistinctCodes(histories: seq<History>) returns (ok: bool)
    ensures ok <==> forall i, j :: 0 <= i < j < |histories| ==> histories[i].code != histories[j].code
  {
    var codes: set<string> := {};
    for k := 0 to |histories|
      invariant forall i :: 0 <= i < k ==> histories[i].code in codes
      invariant forall code :: code in codes ==> exists i :: 0 <= i < k && histories[i].code == code
      invariant forall i, j :: 0 <= i < j < k ==> histories[i].code != histories[j].code
    {
      if histories[k].code in codes {
        return false;
      }
      codes := codes + {histories[k].code};
    }
    return true;
  }

  /** The aligned bars and the signals of one history, unless it is not paired. */
  method PairHistory(ind: Indicators, snap: Snapshot, o: Options, h: History)
      returns (ok: bool, b: seq<Bar>, signals: seq<Signal>)
    ensures ok <==> Paired(ind, snap, o, h)
    ensures ok && !h.special ==>
              var a := Cut(h.bars, o.through);
              b == RawOf(snap.raw, h.code).value.bars[..|a|] && Some(signals) == SignalsOf(ind, a)
  {
    hide SignalsOf, Cut, RawOf;
    var raw := RawOf(snap.raw, h.code);
    if raw.None? || |h.bars| != |raw.value.bars| {
      return false, [], [];
    }
    if h.special {
      return true, [], [];
    }
    var a := Cut(h.bars, o.through);
    b := raw.value.bars[..|a|];
    for i := 0 to |a|
      invariant forall j :: 0 <= j < i ==> a[j].date == b[j].date
    {
      if a[i].date != b[i].date {
        return false, [], [];
      }
    }
    var detected := DetectSignals(ind, a);
    if detected.None? {
      return false, [], [];
    }
    return true, b, detected.value;
  }

  /** The data of every rule after the first `k` histories. */
  ghost predicate Prepared(ind: Indicators, snap: Snapshot, o: Options, k: nat, data: Data) {
    && ValidSnapshot(snap) && k <= |snap.adjusted|
    && (forall i :: 0 <= i < k ==> Paired(ind, snap, o, snap.adjusted[i]))
    && data.Keys == (set rule | rule in SearchRules())
    && (forall m :: 0 <= m < |SearchRules()| ==>
         SearchRules()[m] in data && data[SearchRules()[m]] == Opportunities(ind, snap, o, SearchRules()[m], k))
  }

  /** Adds the windows of one history to the data of every rule. */
  method AddHistory(ind: Indicators, snap: Snapshot, o: Options, k: nat, data: Data) returns (r: Option<Data>)
    requires k < |snap.adjusted| && Prepared(ind, snap, o, k, data)
    ensures r.Some? <==> Paired(ind, snap, o, snap.adjusted[k])
    ensures r.Some? ==> Prepared(ind, snap, o, k + 1, r.value)
  {
    hide Windows, WindowsOf, SignalsOf, EventsOf, InCents, RawOf, Cut, ValidSnapshot, Paired, SearchRules;
    hide Opportunities;
    var h := snap.adjusted[k];
    var ok, b, signals := PairHistory(ind, snap, o, h);
    if !ok {
      return None;
    }
    if h.special {
      NothingAdded(ind, snap, o, k);
      return Some(data);
    }
    var out := data;
    for n := 0 to |SearchRules()|
      invariant out.Keys == data.Keys && forall m :: 0 <= m < |SearchRules()| ==> SearchRules()[m] in out
      invariant forall m :: 0 <= m < n ==> out[SearchRules()[m]] == Opportunities(ind, snap, o, SearchRules()[m], k + 1)
      invariant forall m :: n <= m < |SearchRules()| ==> out[SearchRules()[m]] == data[SearchRules()[m]]
    {
      var rule := SearchRules()[n];
      PairIsValid(ind, snap, o, h, rule);
      AddedWindows(ind, snap, o, rule, k);
      var windows := ScanWindows(o, snap.next, h, Cut(h.bars, o.through), b, EventsOf(signals, rule));
      out := out[rule := out[rule] + windows];
    }
    return Some(out);
  }

  lemma NothingAdded(ind: Indicators, snap: Snapshot, o: Options, k: nat)
    requires ValidSnapshot(snap) && k < |snap.adjusted| && snap.adjusted[k].special
    requires forall i :: 0 <= i < k + 1 ==> Paired(ind, snap, o, snap.adjusted[i])
    ensures forall rule :: Opportunities(ind, snap, o, rule, k + 1) == Opportunities(ind, snap, o, rule, k)
  {
  }

  lemma AddedWindows(ind: Indicators, snap: Snapshot, o: Options, rule: Rule, k: nat)
    requires ValidSnapshot(snap) && k < |snap.adjusted| && !snap.adjusted[k].special
    requires forall i :: 0 <= i < k + 1 ==> Paired(ind, snap, o, snap.adjusted[i])
    ensures var x := Series(ind, snap, o, snap.adjusted[k], rule);
            Opportunities(ind, snap, o, rule, k + 1)
            == Opportunities(ind, snap, o, rule, k) + Windows(o, snap.next, snap.adjusted[k], x.0, x.1, x.2, WARMUP - 1)
  {
    hide Windows, Series, Paired;
  }

  lemma NothingPrepared(ind: Indicators, snap: Snapshot, o: Options)
    requires ValidSnapshot(snap)
    ensures Prepared(ind, snap, o, 0, map rule | rule in SearchRules() :: [])
  {
    hide SearchRules;
  }

  lemma AllPrepared(ind: Indicators, snap: Snapshot, o: Options, data: Data)
    requires Prepared(ind, snap, o, |snap.adjusted|, data)
    ensures forall k :: 0 <= k < |snap.adjusted| ==> Paired(ind, snap, o, snap.adjusted[k])
    ensures Accepted(ind, snap, o) ==> data == DataOf(ind, snap, o)
  {
    hide SearchRules, Paired, Opportunities;
    if Accepted(ind, snap, o) {
      forall rule | rule in SearchRules() ensures data[rule] == DataOf(ind, snap, o)[rule] {
        var m :| 0 <= m < |SearchRules()| && SearchRules()[m] == rule;
      }
    }
  }

  method PrepareGrid(ind: Indicators, snap: Snapshot, o: Options) returns (r: Option<Data>)
    requires ValidSnapshot(snap)
    ensures r.Some? <==> Accepted(ind, snap, o)
    ensures r.Some? ==> r.value == DataOf(ind, snap, o)
  {
    hide Paired, ValidSnapshot, SearchRules, Prepared, DataOf;
    if o.from >= o.trainThrough || o.trainThrough >= o.through || |snap.adjusted| == 0 {
      return None;
    }
    var rawOk := DistinctCodes(snap.raw);
    var adjustedOk := DistinctCodes(snap.adjusted);
    if !rawOk || !adjustedOk {
      return None;
    }
    var data: Data := map rule | rule in SearchRules() :: [];
    NothingPrepared(ind, snap, o);
    for k := 0 to |snap.adjusted|
      invariant Prepared(ind, snap, o, k, data)
    {
      var added := AddHistory(ind, snap, o, k, data);
      if added.None? {
        return None;
      }
      data := added.value;
    }
    AllPrepared(ind, snap, o, data);
    return Some(data);
  }
}
