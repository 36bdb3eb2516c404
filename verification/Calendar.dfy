/**
  Trading-day coverage of internal/calendar/history.go. A date is the number of days since
  0000-01-01, so that ISO strings and numbers sort alike up to 9999-12-31.
*/
module Calendar {

  const LAST_DAY: int := 3652424
  /** 1001-01-01, the first date that sorts after the string of the day following LAST_DAY. */
  const AFTER_OVERFLOW: int := 365608

  type Day = d: int | 0 <= d <= LAST_DAY

  datatype Span = Span(from: Day, through: Day)

  datatype History = History(version: int, source: string, from: Day, through: Day, days: seq<Day>, fetchedAt: int,
      digest: string)

  datatype Content = Content(version: int, source: string, from: Day, through: Day, days: seq<Day>)

  /** The digest of a history's content; nothing but its being a function matters here. */
  type Digest = Content -> string

  const HISTORY_VERSION: int := 1

  // ---------- Valid histories ----------

  predicate IsSpace(c: char) {
    var n := c as int;
    n == 0x20 || 0x09 <= n <= 0x0D || n == 0x85 || n == 0xA0 || n == 0x1680 || 0x2000 <= n <= 0x200A
    || n == 0x2028 || n == 0x2029 || n == 0x202F || n == 0x205F || n == 0x3000
  }

  /** The white space that trimming removes. */
  lemma SpacesAre(c: char)
    ensures IsSpace(c) <==> c as int in {
      0x09, 0x0A, 0x0B, 0x0C, 0x0D, 0x20, 0x85, 0xA0, 0x1680, 0x2000, 0x2001, 0x2002, 0x2003, 0x2004, 0x2005, 0x2006,
      0x2007, 0x2008, 0x2009, 0x200A, 0x2028, 0x2029, 0x202F, 0x205F, 0x3000}
  {
  }

  /** Neither empty nor changed by trimming. */
  predicate Clean(source: string) {
    |source| > 0 && !IsSpace(source[0]) && !IsSpace(source[|source| - 1])
  }

  /** The text without the white space around it. */
  function Trimmed(source: string): (r: string)
    ensures |r| <= |source|
  {
    if source == "" then ""
    else if IsSpace(source[0]) then Trimmed(source[1..])
    else if IsSpace(source[|source| - 1]) then Trimmed(source[..|source| - 1])
    else source
  }

  lemma CleanIsTrimmed(source: string)
    ensures Clean(source) <==> source != "" && Trimmed(source) == source
  {
    hide IsSpace;
  }

  ghost predicate StrictlyAscending(days: seq<int>) {
    forall i, j :: 0 <= i < j < |days| ==> days[i] < days[j]
  }

  function ContentOf(h: History): Content {
    Content(h.version, h.source, h.from, h.through, h.days)
  }

  ghost predicate ValidHistory(hash: Digest, h: History) {
    && h.version == HISTORY_VERSION && h.from <= h.through && Clean(h.source) && h.fetchedAt != 0
    && (forall i :: 0 <= i < |h.days| ==> h.from <= h.days[i] <= h.through)
    && StrictlyAscending(h.days)
    && h.digest != "" && h.digest == hash(ContentOf(h))
  }

  method ValidateHistory(hash: Digest, h: History) returns (ok: bool)
    ensures ok <==> ValidHistory(hash, h)
  {
    if h.version != HISTORY_VERSION || h.from > h.through || !Clean(h.source) || h.fetchedAt == 0 {
      return false;
    }
    for i := 0 to |h.days|
      invariant forall k :: 0 <= k < i ==> h.from <= h.days[k] <= h.through
      invariant StrictlyAscending(h.days[..i])
    {
      var day := h.days[i];
      if day < h.from || day > h.through {
        return false;
      }
      if i > 0 && day <= h.days[i - 1] {
        return false;
      }
      assert i > 0 ==> h.days[i - 1] == h.days[..i][i - 1];
    }
    assert h.days[..|h.days|] == h.days;
    return h.digest != "" && h.digest == hash(ContentOf(h));
  }

  // ---------- Spans ----------

  predicate In(x: int, s: Span) {
    s.from <= x <= s.through
  }

  predicate Before(a: Span, b: Span) {
    a.from < b.from || (a.from == b.from && a.through <= b.through)
  }

  ghost predicate Sorted(spans: seq<Span>) {
    forall i, j :: 0 <= i < j < |spans| ==> spans[i].from <= spans[j].from
  }

  predicate Within(spans: seq<Span>, from: Day, through: Day) {
    forall i :: 0 <= i < |spans| ==> from <= spans[i].from <= spans[i].through <= through
  }

  predicate OnSpan(spans: seq<Span>, x: int) {
    exists i :: 0 <= i < |spans| && In(x, spans[i])
  }

  function Insert(s: Span, spans: seq<Span>): seq<Span> {
    if |spans| == 0 || Before(s, spans[0]) then [s] + spans else [spans[0]] + Insert(s, spans[1..])
  }

  /** `sort.Slice` by start, then by end. */
  function SortSpans(spans: seq<Span>): seq<Span> {
    if |spans| == 0 then [] else Insert(spans[|spans| - 1], SortSpans(spans[..|spans| - 1]))
  }

  predicate AllFrom(spans: seq<Span>, from: int) {
    forall i :: 0 <= i < |spans| ==> from <= spans[i].from
  }

  lemma HeadOnSpan(head: Span, rest: seq<Span>, x: int)
    ensures OnSpan([head] + rest, x) <==> In(x, head) || OnSpan(rest, x)
  {
    var s := [head] + rest;
    if i :| 0 <= i < |s| && In(x, s[i]) {
      assert i > 0 ==> In(x, rest[i - 1]);
    }
    if i :| 0 <= i < |rest| && In(x, rest[i]) {
      assert In(x, s[i + 1]);
    }
    assert s[0] == head;
  }

  lemma {:induction false} InsertKeeps(s: Span, spans: seq<Span>, x: int)
    ensures multiset(Insert(s, spans)) == multiset(spans) + multiset{s}
    ensures OnSpan(Insert(s, spans), x) <==> In(x, s) || OnSpan(spans, x)
  {
    hide OnSpan, In;
    if |spans| == 0 || Before(s, spans[0]) {
      HeadOnSpan(s, spans, x);
    } else {
      InsertKeeps(s, spans[1..], x);
      HeadOnSpan(spans[0], spans[1..], x);
      HeadOnSpan(spans[0], Insert(s, spans[1..]), x);
      assert spans == [spans[0]] + spans[1..];
    }
  }

  lemma {:induction false} InsertSorts(s: Span, spans: seq<Span>, from: Day, through: Day)
    requires Sorted(spans) && Within(spans, from, through) && from <= s.from <= s.through <= through
    ensures Sorted(Insert(s, spans)) && Within(Insert(s, spans), from, through)
    ensures forall f: int :: f <= s.from && AllFrom(spans, f) ==> AllFrom(Insert(s, spans), f)
  {
    if |spans| == 0 || Before(s, spans[0]) {
    } else {
      InsertSorts(s, spans[1..], from, through);
      assert AllFrom(spans[1..], spans[0].from);
      assert AllFrom(Insert(s, spans[1..]), spans[0].from);
    }
  }

  /** Sorting gives the same spans, in order of their starts. */
  lemma {:induction false} SortKeeps(spans: seq<Span>, from: Day, through: Day, x: int)
    requires Within(spans, from, through)
    ensures Sorted(SortSpans(spans)) && Within(SortSpans(spans), from, through)
    ensures multiset(SortSpans(spans)) == multiset(spans)
    ensures OnSpan(SortSpans(spans), x) <==> OnSpan(spans, x)
  {
    hide OnSpan, In, Insert;
    if |spans| > 0 {
      var rest, last := spans[..|spans| - 1], spans[|spans| - 1];
      SortKeeps(rest, from, through, x);
      InsertKeeps(last, SortSpans(rest), x);
      InsertSorts(last, SortSpans(rest), from, through);
      DaysOfLonger(spans, |spans| - 1, x);
      assert spans[..|spans| - 1 + 1] == spans == rest + [last];
    } else {
      assert SortSpans(spans) == spans;
    }
  }

  /** Whether `from` sorts after the day that follows `through`. */
  predicate AfterNext(from: Day, through: Day) {
    if through == LAST_DAY then from >= AFTER_OVERFLOW else from > through + 1
  }

  /** No two spans touch. */
  ghost predicate Separate(spans: seq<Span>) {
    forall i, j :: 0 <= i < j < |spans| ==> spans[i].through + 1 < spans[j].from
  }

  function MergedWith(merged: seq<Span>, span: Span): seq<Span> {
    if |merged| == 0 || AfterNext(span.from, merged[|merged| - 1].through) then merged + [span]
    else if span.through > merged[|merged| - 1].through then
      merged[|merged| - 1 := merged[|merged| - 1].(through := span.through)]
    else merged
  }

  lemma MergedShape(merged: seq<Span>, span: Span, from: Day, through: Day)
    requires Sorted(merged) && Within(merged, from, through) && from <= span.from <= span.through <= through
    requires |merged| > 0 ==> merged[|merged| - 1].from <= span.from
    ensures var r := MergedWith(merged, span);
      && |r| > 0 && Sorted(r) && Within(r, from, through) && r[|r| - 1].from <= span.from
      && (through < LAST_DAY && Separate(merged) ==> Separate(r))
  {
  }

  lemma MergedDays(merged: seq<Span>, span: Span, x: int)
    requires |merged| > 0 ==> merged[|merged| - 1].from <= span.from
    ensures OnSpan(MergedWith(merged, span), x) <==> OnSpan(merged, x) || In(x, span)
  {
    var r := MergedWith(merged, span);
    if k :| 0 <= k < |merged| && In(x, merged[k]) {
      assert In(x, r[k]);
    }
    if In(x, span) {
      assert In(x, r[|r| - 1]);
    }
    if k :| 0 <= k < |r| && In(x, r[k]) {
      assert (k < |merged| && r[k] == merged[k]) || In(x, span) || In(x, merged[|merged| - 1]);
    }
  }

  /** Merging touching spans keeps the days they cover. */
  method MergeSpans(spans: seq<Span>, ghost from: Day, ghost through: Day) returns (merged: seq<Span>)
    requires Sorted(spans) && Within(spans, from, through)
    ensures Sorted(merged) && Within(merged, from, through)
    ensures forall x :: OnSpan(merged, x) <==> OnSpan(spans, x)
    ensures |merged| == 0 <==> |spans| == 0
    ensures through < LAST_DAY ==> Separate(merged)
  {
    hide OnSpan, In, AfterNext;
    merged := [];
    for i := 0 to |spans|
      invariant Sorted(merged) && Within(merged, from, through)
      invariant |merged| == 0 <==> i == 0
      invariant i > 0 ==> merged[|merged| - 1].from <= spans[i - 1].from
      invariant forall x :: OnSpan(merged, x) <==> OnSpan(spans[..i], x)
      invariant through < LAST_DAY ==> Separate(merged)
    {
      var span := spans[i];
      MergedShape(merged, span, from, through);
      forall x ensures OnSpan(MergedWith(merged, span), x) <==> OnSpan(spans[..i + 1], x) {
        MergedDays(merged, span, x);
        DaysOfLonger(spans, i, x);
      }
      if |merged| == 0 || AfterNext(span.from, merged[|merged| - 1].through) {
        merged := merged + [span];
      } else if span.through > merged[|merged| - 1].through {
        merged := merged[|merged| - 1 := merged[|merged| - 1].(through := span.through)];
      }
    }
    assert spans[..|spans|] == spans;
  }

  lemma DaysOfLonger(spans: seq<Span>, i: nat, x: int)
    requires i < |spans|
    ensures OnSpan(spans[..i + 1], x) <==> OnSpan(spans[..i], x) || In(x, spans[i])
  {
    var longer, shorter := spans[..i + 1], spans[..i];
    if k :| 0 <= k < |longer| && In(x, longer[k]) {
      assert k < i ==> In(x, shorter[k]);
    }
    if k :| 0 <= k < |shorter| && In(x, shorter[k]) {
      assert In(x, longer[k]);
    }
    if In(x, spans[i]) {
      assert In(x, longer[i]);
    }
  }

  // ---------- What is missing ----------

  ghost predicate Proper(spans: seq<Span>) {
    forall i :: 0 <= i < |spans| ==> spans[i].from <= spans[i].through
  }

  /** Exactly the days of the request that no covered span holds, in separate spans. */
  ghost predicate Gaps(missing: seq<Span>, covered: seq<Span>, from: Day, through: Day) {
    && Within(missing, from, through) && Separate(missing)
    && (forall x :: from <= x <= through ==> (OnSpan(missing, x) <==> !OnSpan(covered, x)))
  }

  /** The state of the scan: what lies before the cursor is settled, what was passed ends before it. */
  ghost predicate Settled(missing: seq<Span>, covered: seq<Span>, i: nat, from: Day, through: Day, cursor: int)
    requires i <= |covered|
  {
    && from <= cursor <= through
    && Within(missing, from, through) && Separate(missing)
    && (|missing| > 0 ==> missing[|missing| - 1].through + 1 < cursor)
    && (forall x :: from <= x < cursor ==> (OnSpan(missing, x) <==> !OnSpan(covered, x)))
    && (forall k :: 0 <= k < i ==> covered[k].through < cursor)
  }

  lemma LastSpan(spans: seq<Span>, s: Span, x: int)
    ensures OnSpan(spans + [s], x) <==> OnSpan(spans, x) || In(x, s)
  {
    var r := spans + [s];
    if k :| 0 <= k < |spans| && In(x, spans[k]) {
      assert In(x, r[k]);
    }
    if In(x, s) {
      assert In(x, r[|spans|]);
    }
    if k :| 0 <= k < |r| && In(x, r[k]) {
      assert k < |spans| ==> In(x, spans[k]);
    }
  }

  /** Between the cursor and the next span nothing is covered. */
  lemma NothingBetween(covered: seq<Span>, i: nat, cursor: int, x: int)
    requires Sorted(covered) && i <= |covered| && forall k :: 0 <= k < i ==> covered[k].through < cursor
    requires cursor <= x && (i < |covered| ==> x < covered[i].from)
    ensures !OnSpan(covered, x)
  {
  }

  lemma GapAdded(missing: seq<Span>, covered: seq<Span>, i: nat, from: Day, through: Day, cursor: int, end: int)
    requires Sorted(covered) && i <= |covered| && Settled(missing, covered, i, from, through, cursor)
    requires cursor <= end <= through && (i < |covered| ==> end < covered[i].from)
    ensures var r := missing + [Span(cursor, end)];
      && Within(r, from, through) && Separate(r)
      && (forall x :: from <= x <= end ==> (OnSpan(r, x) <==> !OnSpan(covered, x)))
  {
    hide OnSpan;
    var r := missing + [Span(cursor, end)];
    forall x | from <= x <= end ensures OnSpan(r, x) <==> !OnSpan(covered, x) {
      LastSpan(missing, Span(cursor, end), x);
      if cursor <= x {
        NothingBetween(covered, i, cursor, x);
      }
    }
  }

  lemma SpanPassed(missing: seq<Span>, covered: seq<Span>, i: nat, from: Day, through: Day, cursor: int, settled: int)
    requires Proper(covered) && i < |covered| && cursor <= covered[i].through
    requires covered[i].from <= settled + 1 && from - 1 <= settled
    requires forall x :: from <= x <= settled ==> (OnSpan(missing, x) <==> !OnSpan(covered, x))
    requires forall k :: 0 <= k < |missing| ==> missing[k].through <= settled
    ensures forall x :: from <= x <= covered[i].through ==> (OnSpan(missing, x) <==> !OnSpan(covered, x))
  {
    forall x | settled < x <= covered[i].through ensures OnSpan(covered, x) && !OnSpan(missing, x) {
      assert In(x, covered[i]);
    }
  }

  method MissingSpans(covered: seq<Span>, from: Day, through: Day) returns (missing: seq<Span>)
    requires Sorted(covered) && Proper(covered) && from <= through
    ensures Gaps(missing, covered, from, through)
  {
    hide OnSpan, In;
    missing := [];
    var cursor: int := from;
    var i := 0;
    while i < |covered|
      invariant i <= |covered| && Settled(missing, covered, i, from, through, cursor)
    {
      var span := covered[i];
      if span.through < cursor {
        i := i + 1;
        continue;
      }
      if span.from > through {
        break;
      }
      ghost var settled := cursor - 1;
      if span.from > cursor {
        var end := span.from - 1;
        if end > through {
          end := through;
        }
        GapAdded(missing, covered, i, from, through, cursor, end);
        missing := missing + [Span(cursor, end)];
        settled := end;
      }
      SpanPassed(missing, covered, i, from, through, cursor, settled);
      if span.through >= through {
        return;
      }
      cursor := span.through + 1;
      i := i + 1;
    }
    if cursor <= through {
      GapAdded(missing, covered, i, from, through, cursor, through);
      missing := missing + [Span(cursor, through)];
    }
  }
}
