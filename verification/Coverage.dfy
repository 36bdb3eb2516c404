/** `Dataset` of internal/calendar/history.go: coverage, agreement of windows, trading days and freezing. */
module Coverage {
  import opened Calendar
  import opened Market

  // ---------- Windows must agree ----------

  /** Both windows contain the day, and only one lists it. */
  ghost predicate Disagree(a: History, b: History, x: Day) {
    && a.from <= x <= a.through && b.from <= x <= b.through
    && !(x in a.days <==> x in b.days)
  }

  ghost predicate Agree(a: History, b: History) {
    forall x: Day :: !Disagree(a, b, x)
  }

  ghost predicate Consistent(d: seq<History>) {
    forall i, j :: 0 <= i < j < |d| ==> Agree(d[i], d[j])
  }

  method DaysWithin(days: seq<Day>, from: Day, through: Day) returns (r: set<Day>)
    ensures forall x :: x in r <==> x in days && from <= x <= through
  {
    r := {};
    for i := 0 to |days|
      invariant forall x :: x in r <==> x in days[..i] && from <= x <= through
    {
      if days[i] >= from && days[i] <= through {
        r := r + {days[i]};
      }
    }
    assert days[..|days|] == days;
  }

  method Least(s: set<Day>) returns (r: Day)
    requires s != {}
    ensures r in s && forall x :: x in s ==> r <= x
  {
    r :| r in s;
    var rest := s - {r};
    while rest != {}
      invariant rest <= s && r in s
      invariant forall x :: x in s && x !in rest ==> r <= x
      decreases |rest|
    {
      var x :| x in rest;
      rest := rest - {x};
      if x < r {
        r := x;
      }
    }
  }

  /** The first day two windows disagree on. */
  method Conflict(a: History, b: History) returns (r: Option<Day>)
    ensures r == None <==> Agree(a, b)
    ensures r.Some? ==> Disagree(a, b, r.value) && forall x: Day :: Disagree(a, b, x) ==> r.value <= x
  {
    var from, through := a.from, a.through;
    if b.from > from {
      from := b.from;
    }
    if b.through < through {
      through := b.through;
    }
    if from > through {
      return None;
    }
    var left := DaysWithin(a.days, from, through);
    var right := DaysWithin(b.days, from, through);
    var conflicts := (left - right) + (right - left);
    assert forall x: Day :: x in conflicts <==> Disagree(a, b, x);
    if conflicts == {} {
      return None;
    }
    var least := Least(conflicts);
    return Some(least);
  }

  method ValidateConsistency(d: seq<History>) returns (r: Option<Day>)
    ensures r == None <==> Consistent(d)
    ensures r.Some? ==> exists i, j :: 0 <= i < j < |d| && Disagree(d[i], d[j], r.value)
  {
    hide Agree;
    for i := 0 to |d|
      invariant forall k, j :: 0 <= k < i && k < j < |d| ==> Agree(d[k], d[j])
    {
      for j := i + 1 to |d|
        invariant forall l :: i < l < j ==> Agree(d[i], d[l])
      {
        r := Conflict(d[i], d[j]);
        if r.Some? {
          return;
        }
      }
    }
    return None;
  }

  // ---------- Coverage ----------

  datatype Status = Complete | Partial | Missing

  datatype Report = Report(from: Day, through: Day, status: Status, complete: bool, missing: seq<Span>)

  datatype Error = BadRange | BadHistory(index: nat) | Conflicting(day: Day) | NotCovered(report: Report)
    | BadSource | BadFetchTime | DayOutside | DuplicateDay

  datatype Result<T> = Ok(value: T) | Err(error: Error)

  predicate Lies(h: History, x: int) {
    h.from <= x <= h.through
  }

  ghost predicate Covered(d: seq<History>, x: int) {
    exists i :: 0 <= i < |d| && Lies(d[i], x)
  }

  ghost predicate AllValid(hash: Digest, d: seq<History>) {
    forall i :: 0 <= i < |d| ==> ValidHistory(hash, d[i])
  }

  ghost predicate Usable(hash: Digest, d: seq<History>) {
    AllValid(hash, d) && Consistent(d)
  }

  ghost predicate FullyCovered(d: seq<History>, from: Day, through: Day) {
    forall x :: from <= x <= through ==> Covered(d, x)
  }

  /** The windows cut to the request; those outside it are left out. */
  method ClipWindows(d: seq<History>, from: Day, through: Day) returns (spans: seq<Span>)
    requires from <= through && forall i :: 0 <= i < |d| ==> d[i].from <= d[i].through
    ensures Within(spans, from, through)
    ensures forall x :: from <= x <= through ==> (OnSpan(spans, x) <==> Covered(d, x))
  {
    hide Lies, OnSpan, In, Covered;
    spans := [];
    NothingCoversNothing();
    assert d[..0] == [];
    for i := 0 to |d|
      invariant Within(spans, from, through)
      invariant forall x :: from <= x <= through ==> (OnSpan(spans, x) <==> Covered(d[..i], x))
    {
      ghost var before := spans;
      var a, b := d[i].from, d[i].through;
      forall x ensures Covered(d[..i + 1], x) <==> Covered(d[..i], x) || Lies(d[i], x) {
        OneMoreWindow(d, i, x);
      }
      if b < from || a > through {
        OutsideCoversNothing(d[i], from, through);
        continue;
      }
      if a < from {
        a := from;
      }
      if b > through {
        b := through;
      }
      spans := spans + [Span(a, b)];
      forall x | from <= x <= through ensures OnSpan(spans, x) <==> OnSpan(before, x) || Lies(d[i], x) {
        LastSpan(before, Span(a, b), x);
        ClippedDays(d[i], from, through, x);
      }
    }
    assert d[..|d|] == d;
  }

  lemma NothingCoversNothing()
    ensures forall x :: !OnSpan([], x) && !Covered([], x)
  {
  }

  lemma OneMoreWindow(d: seq<History>, i: nat, x: int)
    requires i < |d|
    ensures Covered(d[..i + 1], x) <==> Covered(d[..i], x) || Lies(d[i], x)
  {
    hide Lies;
    var longer, shorter := d[..i + 1], d[..i];
    if k :| 0 <= k < |shorter| && Lies(shorter[k], x) {
      assert Lies(longer[k], x);
    }
    if k :| 0 <= k < |longer| && Lies(longer[k], x) {
      assert k < i ==> Lies(shorter[k], x);
    }
    if Lies(d[i], x) {
      assert Lies(longer[i], x);
    }
  }

  lemma OutsideCoversNothing(h: History, from: Day, through: Day)
    requires h.through < from || h.from > through
    ensures forall x :: from <= x <= through ==> !Lies(h, x)
  {
  }

  lemma ClippedDays(h: History, from: Day, through: Day, x: int)
    requires from <= x <= through && from <= h.through && h.from <= through
    ensures
      var first, last := if h.from < from then from else h.from, if h.through > through then through else h.through;
      In(x, Span(first, last)) <==> Lies(h, x)
  {
  }

  /** Which days of the request no window covers, as separate spans; or why the data cannot tell. */
  method CoverageOf(hash: Digest, d: seq<History>, from: Day, through: Day) returns (r: Result<Report>)
    ensures r.Ok? <==> from <= through && Usable(hash, d)
    ensures r == Err(BadRange) <==> from > through
    ensures r.Ok? ==>
      var report := r.value;
      && report.from == from && report.through == through
      && Within(report.missing, from, through) && Separate(report.missing)
      && (forall x :: from <= x <= through ==> (OnSpan(report.missing, x) <==> !Covered(d, x)))
      && (report.complete <==> FullyCovered(d, from, through))
      && (report.status == Complete <==> report.complete)
      && (report.status == Missing <==> forall x :: from <= x <= through ==> !Covered(d, x))
    ensures r.Err? && from <= through ==>
      match r.error
      case BadHistory(i) => i < |d| && !ValidHistory(hash, d[i]) && forall k :: 0 <= k < i ==> ValidHistory(hash, d[k])
      case Conflicting(x) => AllValid(hash, d) && exists i, j :: 0 <= i < j < |d| && Disagree(d[i], d[j], x)
      case _ => false
  {
    hide ValidHistory, Agree, Disagree, OnSpan, In, Covered, Lies;
    if from > through {
      return Err(BadRange);
    }
    for i := 0 to |d|
      invariant forall k :: 0 <= k < i ==> ValidHistory(hash, d[k])
    {
      var ok := ValidateHistory(hash, d[i]);
      if !ok {
        return Err(BadHistory(i));
      }
    }
    var conflict := ValidateConsistency(d);
    if conflict.Some? {
      return Err(Conflicting(conflict.value));
    }
    forall i | 0 <= i < |d| ensures d[i].from <= d[i].through {
      ValidIsProper(hash, d[i]);
    }
    var spans := ClipWindows(d, from, through);
    forall x ensures OnSpan(SortSpans(spans), x) <==> OnSpan(spans, x) {
      SortKeeps(spans, from, through, x);
    }
    SortKeeps(spans, from, through, from);
    SortKeepsNothing(spans);
    var merged := MergeSpans(SortSpans(spans), from, through);
    var missing := MissingSpans(merged, from, through);
    var status := Complete;
    if |missing| > 0 {
      status := Partial;
      if |merged| == 0 {
        status := Missing;
      }
    }
    MissingMeans(d, missing, merged, from, through);
    return Ok(Report(from, through, status, |missing| == 0, missing));
  }

  lemma ValidIsProper(hash: Digest, h: History)
    requires ValidHistory(hash, h)
    ensures h.from <= h.through
  {
  }

  lemma SortKeepsNothing(spans: seq<Span>)
    ensures |SortSpans(spans)| == 0 <==> |spans| == 0
  {
  }

  /** No missing span means full cover; no merged span means none at all. */
  lemma MissingMeans(d: seq<History>, missing: seq<Span>, merged: seq<Span>, from: Day, through: Day)
    requires from <= through && Gaps(missing, merged, from, through) && Within(merged, from, through)
    requires forall x :: from <= x <= through ==> (OnSpan(merged, x) <==> Covered(d, x))
    ensures |missing| == 0 <==> FullyCovered(d, from, through)
    ensures |merged| == 0 <==> forall x :: from <= x <= through ==> !Covered(d, x)
    ensures |merged| == 0 ==> |missing| > 0
    ensures forall x :: from <= x <= through ==> (OnSpan(missing, x) <==> !Covered(d, x))
  {
    hide Covered;
    if |missing| > 0 {
      assert In(missing[0].from, missing[0]);
      assert OnSpan(missing, missing[0].from);
    }
    if |merged| > 0 {
      assert In(merged[0].from, merged[0]);
      assert OnSpan(merged, merged[0].from);
    } else {
      assert !OnSpan(merged, from);
    }
  }

  // ---------- Trading days ----------

  /** The days of a set between two bounds, in order. */
  function Listed(s: set<Day>, from: int, through: int): (r: seq<Day>)
    requires 0 <= from && through <= LAST_DAY
    ensures forall x :: x in r <==> x in s && from <= x <= through
    ensures StrictlyAscending(r)
    decreases through - from
  {
    if from > through then []
    else if from in s then
      (var rest := Listed(s, from + 1, through);
       assert forall i :: 0 <= i < |rest| ==> rest[i] in rest;
       [from] + rest)
    else Listed(s, from + 1, through)
  }

  lemma {:induction false} ListedAgrees(s: set<Day>, t: set<Day>, from: int, through: int)
    requires 0 <= from && through <= LAST_DAY
    requires forall x :: from <= x <= through ==> (x in s <==> x in t)
    ensures Listed(s, from, through) == Listed(t, from, through)
    decreases through - from
  {
    if from <= through {
      assert from in s <==> from in t;
      ListedAgrees(s, t, from + 1, through);
    }
  }

  function DaysOf(d: seq<History>): set<Day> {
    set i, x | 0 <= i < |d| && x in d[i].days :: x
  }

  /**
    What the data set answers for a request: its trading days, when every day is covered and no two windows disagree.
  */
  ghost function Answer(hash: Digest, d: seq<History>, from: Day, through: Day): Option<seq<Day>> {
    if from <= through && Usable(hash, d) && FullyCovered(d, from, through) then Some(Listed(DaysOf(d), from, through))
      else None
  }

  method TradingDays(hash: Digest, d: seq<History>, from: Day, through: Day) returns (r: Result<seq<Day>>)
    ensures r.Ok? <==> Answer(hash, d, from, through).Some?
    ensures r.Ok? ==> r.value == Answer(hash, d, from, through).value
    ensures r.Err? && from <= through && Usable(hash, d) ==> r.error.NotCovered? && !r.error.report.complete
  {
    hide Usable, FullyCovered, Covered, Listed;
    var coverage := CoverageOf(hash, d, from, through);
    if coverage.Err? {
      return Err(coverage.error);
    }
    if !coverage.value.complete {
      return Err(NotCovered(coverage.value));
    }
    var seen: set<Day> := {};
    for i := 0 to |d|
      invariant forall x :: x in seen <==> from <= x <= through && x in DaysOf(d[..i])
    {
      var more := DaysWithin(d[i].days, from, through);
      seen := seen + more;
      assert forall x :: x in DaysOf(d[..i + 1]) <==> x in DaysOf(d[..i]) || x in d[i].days by {
        OneMoreDays(d, i);
      }
    }
    assert d[..|d|] == d;
    ListedAgrees(seen, DaysOf(d), from, through);
    return Ok(Listed(seen, from, through));
  }

  lemma OneMoreDays(d: seq<History>, i: nat)
    requires i < |d|
    ensures forall x :: x in DaysOf(d[..i + 1]) <==> x in DaysOf(d[..i]) || x in d[i].days
  {
    var longer, shorter := d[..i + 1], d[..i];
    forall x ensures x in DaysOf(longer) <==> x in DaysOf(shorter) || x in d[i].days {
      if x in DaysOf(shorter) {
        var k :| 0 <= k < |shorter| && x in shorter[k].days;
        assert x in longer[k].days;
      }
      if x in d[i].days {
        assert x in longer[i].days;
      }
      if x in DaysOf(longer) {
        var k :| 0 <= k < |longer| && x in longer[k].days;
        assert k < i ==> x in shorter[k].days;
      }
    }
  }

  /** A day of the answer is one every window around it lists; there is such a window. */
  lemma AnswerIsExact(hash: Digest, d: seq<History>, from: Day, through: Day, x: Day)
    requires Answer(hash, d, from, through).Some? && from <= x <= through
    ensures x in Answer(hash, d, from, through).value <==> forall i :: 0 <= i < |d| && Lies(d[i], x) ==> x in d[i].days
    ensures exists i :: 0 <= i < |d| && Lies(d[i], x)
    ensures StrictlyAscending(Answer(hash, d, from, through).value)
  {
    hide Listed;
    assert Covered(d, x);
    var i :| 0 <= i < |d| && Lies(d[i], x);
    if x in DaysOf(d) {
      var j :| 0 <= j < |d| && x in d[j].days;
      assert ValidHistory(hash, d[j]);
      forall k | 0 <= k < |d| && Lies(d[k], x) ensures x in d[k].days {
        if j < k {
          assert Agree(d[j], d[k]) && !Disagree(d[j], d[k], x);
        } else if k < j {
          assert Agree(d[k], d[j]) && !Disagree(d[k], d[j], x);
        }
      }
    } else {
      assert x !in d[i].days;
    }
  }

  // ---------- Freezing ----------

  function InsertDay(day: Day, days: seq<Day>): seq<Day> {
    if |days| == 0 || day <= days[0] then [day] + days else [days[0]] + InsertDay(day, days[1..])
  }

  /** `sort.Strings` on dates. */
  function SortDays(days: seq<Day>): seq<Day> {
    if |days| == 0 then [] else InsertDay(days[0], SortDays(days[1..]))
  }

  ghost predicate Ascending(days: seq<Day>) {
    forall i, j :: 0 <= i < j < |days| ==> days[i] <= days[j]
  }

  lemma {:induction false} InsertDayAdds(day: Day, days: seq<Day>)
    ensures multiset(InsertDay(day, days)) == multiset(days) + multiset{day}
  {
    if |days| == 0 || day <= days[0] {
    } else {
      InsertDayAdds(day, days[1..]);
      assert days == [days[0]] + days[1..];
    }
  }

  lemma {:induction false} InsertDaySorts(day: Day, days: seq<Day>)
    requires Ascending(days)
    ensures Ascending(InsertDay(day, days))
    ensures InsertDay(day, days)[0] == if |days| == 0 || day <= days[0] then day else days[0]
  {
    if |days| == 0 || day <= days[0] {
    } else {
      InsertDaySorts(day, days[1..]);
    }
  }

  lemma {:induction false} SortDaysSorts(days: seq<Day>)
    ensures Ascending(SortDays(days)) && multiset(SortDays(days)) == multiset(days)
  {
    if |days| > 0 {
      SortDaysSorts(days[1..]);
      InsertDayAdds(days[0], SortDays(days[1..]));
      InsertDaySorts(days[0], SortDays(days[1..]));
      assert days == [days[0]] + days[1..];
    }
  }

  lemma {:induction false} SortedStay(days: seq<Day>)
    requires StrictlyAscending(days)
    ensures SortDays(days) == days
  {
    if |days| > 0 {
      SortedStay(days[1..]);
      assert days == [days[0]] + days[1..];
    }
  }

  ghost predicate Unique(days: seq<Day>) {
    forall i, j :: 0 <= i < j < |days| ==> days[i] != days[j]
  }

  /** A canonical history: the days sorted, repeated and outside days refused. */
  method NewHistory(hash: Digest, source: string, from: Day, through: Day, days: seq<Day>, fetchedAt: int)
      returns (r: Result<History>)
    requires forall c :: hash(c) != ""
    ensures r == Err(BadRange) <==> from > through
    ensures r == Err(BadSource) <==> from <= through && !Clean(source)
    ensures r == Err(BadFetchTime) <==> from <= through && Clean(source) && fetchedAt == 0
    ensures r.Ok? <==>
      && from <= through && Clean(source) && fetchedAt != 0
      && (forall i :: 0 <= i < |days| ==> from <= days[i] <= through) && Unique(SortDays(days))
    ensures r.Ok? ==> ValidHistory(hash, r.value) && r.value.from == from && r.value.through == through
    ensures r.Ok? ==> r.value.source == source && r.value.days == SortDays(days) && r.value.fetchedAt == fetchedAt
  {
    hide SortDays, Clean;
    if from > through {
      return Err(BadRange);
    }
    if !Clean(source) {
      return Err(BadSource);
    }
    if fetchedAt == 0 {
      return Err(BadFetchTime);
    }
    var normalized := SortDays(days);
    SortDaysSorts(days);
    SameDays(days, normalized, from, through);
    for i := 0 to |normalized|
      invariant forall k :: 0 <= k < i ==> from <= normalized[k] <= through
      invariant forall j, k :: 0 <= j < k < i ==> normalized[j] < normalized[k]
    {
      if normalized[i] < from || normalized[i] > through {
        return Err(DayOutside);
      }
      if i > 0 && normalized[i] == normalized[i - 1] {
        return Err(DuplicateDay);
      }
      assert i > 0 ==> normalized[i - 1] < normalized[i];
    }
    var h := History(HISTORY_VERSION, source, from, through, normalized, fetchedAt, "");
    h := h.(digest := hash(ContentOf(h)));
    return Ok(h);
  }

  lemma SameDays(a: seq<Day>, b: seq<Day>, from: Day, through: Day)
    requires multiset(a) == multiset(b)
    ensures (forall i :: 0 <= i < |a| ==> from <= a[i] <= through) <==>
      (forall i :: 0 <= i < |b| ==> from <= b[i] <= through)
  {
    forall i | 0 <= i < |a| ensures a[i] in b {
      assert a[i] in multiset(b);
    }
    forall i | 0 <= i < |b| ensures b[i] in a {
      assert b[i] in multiset(a);
    }
  }

  // ---------- Provenance ----------

  /** Byte order of strings. */
  predicate Precedes(a: string, b: string) {
    if |a| == 0 then |b| > 0
    else |b| > 0 && (a[0] < b[0] || (a[0] == b[0] && Precedes(a[1..], b[1..])))
  }

  function InsertName(name: string, names: seq<string>): seq<string> {
    if |names| == 0 || Precedes(name, names[0]) then [name] + names else [names[0]] + InsertName(name, names[1..])
  }

  ghost predicate AllClean(names: seq<string>) {
    forall i :: 0 <= i < |names| ==> Clean(names[i])
  }

  function Joined(names: seq<string>): string
    requires |names| > 0
  {
    if |names| == 1 then names[0] else names[0] + "+" + Joined(names[1..])
  }

  lemma {:induction false} JoinedIsClean(names: seq<string>)
    requires |names| > 0 && AllClean(names)
    ensures Clean(Joined(names)) && Joined(names)[0] == names[0][0]
  {
    if |names| > 1 {
      JoinedIsClean(names[1..]);
    }
  }

  lemma {:induction false} InsertKeepsClean(name: string, names: seq<string>)
    requires Clean(name) && AllClean(names)
    ensures AllClean(InsertName(name, names)) && |InsertName(name, names)| == |names| + 1
  {
    hide Clean, Precedes;
    if |names| == 0 || Precedes(name, names[0]) {
    } else {
      InsertKeepsClean(name, names[1..]);
    }
  }

  // ---------- Sorted names ----------

  lemma {:induction false} PrecedesIsTotal(a: string, b: string)
    ensures a == b || Precedes(a, b) || Precedes(b, a)
  {
    if |a| > 0 && |b| > 0 && a[0] == b[0] {
      PrecedesIsTotal(a[1..], b[1..]);
      assert a[1..] == b[1..] ==> [a[0]] + a[1..] == [b[0]] + b[1..];
      assert a == [a[0]] + a[1..] && b == [b[0]] + b[1..];
    }
  }

  lemma {:induction false} PrecedesIsTransitive(a: string, b: string, c: string)
    requires Precedes(a, b) && Precedes(b, c)
    ensures Precedes(a, c)
  {
    if |a| > 0 && a[0] == b[0] && b[0] == c[0] {
      PrecedesIsTransitive(a[1..], b[1..], c[1..]);
    }
  }

  ghost predicate NamesAscend(names: seq<string>) {
    forall i, j :: 0 <= i < j < |names| ==> Precedes(names[i], names[j])
  }

  lemma {:induction false} InsertSorts(name: string, names: seq<string>)
    requires NamesAscend(names) && name !in names
    ensures NamesAscend(InsertName(name, names))
    ensures forall x :: x in InsertName(name, names) <==> x == name || x in names
  {
    hide Precedes;
    if |names| == 0 {
    } else if Precedes(name, names[0]) {
      forall j | 0 <= j < |names| ensures Precedes(name, names[j]) {
        if j > 0 {
          PrecedesIsTransitive(name, names[0], names[j]);
        }
      }
    } else {
      var rest := names[1..];
      InsertSorts(name, rest);
      PrecedesIsTotal(name, names[0]);
      var r := InsertName(name, rest);
      forall j | 0 <= j < |r| ensures Precedes(names[0], r[j]) {
        assert r[j] in r;
        if r[j] != name {
          var k :| 0 <= k < |rest| && rest[k] == r[j];
          assert Precedes(names[0], names[k + 1]);
        }
      }
      assert names == [names[0]] + rest;
    }
  }

  /** A window of the request among the first `n` has the source. */
  ghost predicate SourceUsed(d: seq<History>, n: nat, from: Day, through: Day, source: string)
    requires n <= |d|
  {
    exists i :: 0 <= i < n && Used(d[i], from, through) && d[i].source == source
  }

  lemma NextSource(d: seq<History>, n: nat, from: Day, through: Day)
    requires n < |d|
    ensures forall x :: SourceUsed(d, n + 1, from, through, x)
                   <==> SourceUsed(d, n, from, through, x) || (Used(d[n], from, through) && d[n].source == x)
  {
    hide Used;
    forall x
      ensures SourceUsed(d, n + 1, from, through, x)
         <==> SourceUsed(d, n, from, through, x) || (Used(d[n], from, through) && d[n].source == x)
    {
      if i :| 0 <= i < n && Used(d[i], from, through) && d[i].source == x {
        assert i < n + 1;
      }
    }
  }

  predicate Used(h: History, from: Day, through: Day) {
    from <= h.through && h.from <= through
  }

  /** The day lies in the window and in the request. */
  predicate Shared(h: History, from: Day, through: Day, d: Day) {
    from <= d <= through && h.from <= d <= h.through
  }

  /** A window is used for a request when they have a day in common. */
  lemma UsedIs(h: History, from: Day, through: Day)
    requires from <= through && h.from <= h.through
    ensures Used(h, from, through) <==> exists d: Day :: Shared(h, from, through, d)
  {
    if Used(h, from, through) {
      assert Shared(h, from, through, if from < h.from then h.from else from);
    }
  }

  /** A window of the request was fetched after the zero time. */
  ghost predicate Dated(d: seq<History>, from: Day, through: Day) {
    exists i :: 0 <= i < |d| && Used(d[i], from, through) && d[i].fetchedAt > 0
  }

  /** The sources of the windows used, each once and in byte order. */
  ghost predicate Sources(d: seq<History>, from: Day, through: Day, names: seq<string>) {
    |names| > 0 && NamesAscend(names) && forall x :: x in names <==> SourceUsed(d, |d|, from, through, x)
  }

  ghost predicate Provenance(d: seq<History>, from: Day, through: Day, source: string) {
    exists names :: Sources(d, from, through, names) && source == Joined(names)
  }

  lemma NoSource(d: seq<History>, from: Day, through: Day)
    ensures NamesAscend([]) && forall x :: !SourceUsed(d, 0, from, through, x)
  {
  }

  /**
    One canonical history for the request. It exists exactly when the data set answers the request
    and one of the windows used was fetched after the zero time.
  */
  method Freeze(hash: Digest, d: seq<History>, from: Day, through: Day) returns (r: Result<History>)
    requires forall c :: hash(c) != ""
    ensures r.Ok? <==> Answer(hash, d, from, through).Some? && Dated(d, from, through)
    ensures r.Ok? ==> ValidHistory(hash, r.value) && r.value.from == from && r.value.through == through
    ensures r.Ok? ==> r.value.days == Answer(hash, d, from, through).value
    ensures r.Ok? ==> forall i :: 0 <= i < |d| && Used(d[i], from, through) ==> d[i].fetchedAt <= r.value.fetchedAt
    ensures r.Ok? ==> exists i :: 0 <= i < |d| && Used(d[i], from, through) && d[i].fetchedAt == r.value.fetchedAt
    ensures r.Ok? ==> Provenance(d, from, through, r.value.source)
  {
    hide Answer, Clean, Precedes, Listed, SortDays, SourceUsed, Joined, NamesAscend;
    NoSource(d, from, through);
    var answer := TradingDays(hash, d, from, through);
    if answer.Err? {
      return Err(answer.error);
    }
    AnswerHolds(hash, d, from, through);
    var names: seq<string> := [];
    var fetchedAt := 0;
    for i := 0 to |d|
      invariant AllClean(names) && NamesAscend(names)
      invariant forall x :: x in names <==> SourceUsed(d, i, from, through, x)
      invariant fetchedAt >= 0
      invariant fetchedAt == 0 || exists k :: 0 <= k < i && Used(d[k], from, through) && d[k].fetchedAt == fetchedAt
      invariant forall k :: 0 <= k < i && Used(d[k], from, through) ==> d[k].fetchedAt <= fetchedAt && |names| > 0
    {
      var h := d[i];
      NextSource(d, i, from, through);
      if h.through < from || h.from > through {
        continue;
      }
      assert Clean(h.source);
      if h.source !in names {
        InsertKeepsClean(h.source, names);
        InsertSorts(h.source, names);
        names := InsertName(h.source, names);
      }
      if h.fetchedAt > fetchedAt {
        fetchedAt := h.fetchedAt;
      }
    }
    if |names| == 0 {
      return Err(BadSource);
    }
    JoinedIsClean(names);
    assert Provenance(d, from, through, Joined(names)) by {
      assert Sources(d, from, through, names);
    }
    SortedStay(answer.value);
    SortDaysSorts(answer.value);
    r := NewHistory(hash, Joined(names), from, through, answer.value, fetchedAt);
  }

  lemma AnswerHolds(hash: Digest, d: seq<History>, from: Day, through: Day)
    requires Answer(hash, d, from, through).Some?
    ensures from <= through && (forall i :: 0 <= i < |d| ==> Clean(d[i].source))
    ensures exists i :: 0 <= i < |d| && Used(d[i], from, through)
    ensures var days := Answer(hash, d, from, through).value;
      StrictlyAscending(days) && forall i :: 0 <= i < |days| ==> from <= days[i] <= through
  {
    forall i | 0 <= i < |d| ensures Clean(d[i].source) {
      assert ValidHistory(hash, d[i]);
    }
    assert Covered(d, from);
    var i :| 0 <= i < |d| && Lies(d[i], from);
    var days := Answer(hash, d, from, through).value;
    forall i | 0 <= i < |days| ensures from <= days[i] <= through {
      assert days[i] in days;
    }
  }

  /** A frozen history answers every request inside its range as the data set it came from does. */
  lemma FrozenAnswersTheSame(hash: Digest, d: seq<History>, from: Day, through: Day, frozen: History, a: Day, b: Day)
    requires Answer(hash, d, from, through).Some? && from <= a <= b <= through
    requires ValidHistory(hash, frozen) && frozen.from == from && frozen.through == through
    requires frozen.days == Answer(hash, d, from, through).value
    ensures Answer(hash, [frozen], a, b) == Answer(hash, d, a, b)
    ensures Answer(hash, [frozen], a, b).Some?
  {
    hide ValidHistory;
    assert FullyCovered([frozen], a, b) by {
      forall x | a <= x <= b ensures Covered([frozen], x) {
        assert Lies([frozen][0], x);
      }
    }
    assert FullyCovered(d, a, b);
    forall x: Day | a <= x <= b ensures x in DaysOf([frozen]) <==> x in DaysOf(d) {
      assert x in frozen.days <==> x in DaysOf(d);
      assert [frozen][0] == frozen;
    }
    ListedAgrees(DaysOf([frozen]), DaysOf(d), a, b);
  }
}
