/** Central zones of internal/chanlun/chanlun.go: runs of strokes around a range their first three share. */
module Zones {
  import opened Money
  import opened Strokes

  datatype Zone = Zone(from: int, to: int, upper: real, lower: real, mid: real, high: real, low: real, strokes: nat)

  function LeastHigh(s: seq<Stroke>): real
    requires |s| > 0
  {
    if |s| == 1 then s[0].high else Min(LeastHigh(s[..|s| - 1]), s[|s| - 1].high)
  }

  function GreatestLow(s: seq<Stroke>): real
    requires |s| > 0
  {
    if |s| == 1 then s[0].low else Max(GreatestLow(s[..|s| - 1]), s[|s| - 1].low)
  }

  function GreatestHigh(s: seq<Stroke>): real
    requires |s| > 0
  {
    if |s| == 1 then s[0].high else Max(GreatestHigh(s[..|s| - 1]), s[|s| - 1].high)
  }

  function LeastLow(s: seq<Stroke>): real
    requires |s| > 0
  {
    if |s| == 1 then s[0].low else Min(LeastLow(s[..|s| - 1]), s[|s| - 1].low)
  }

  /** The four extremes bound every stroke and are reached. */
  lemma {:induction false} Extremes(s: seq<Stroke>)
    requires |s| > 0
    ensures forall k :: 0 <= k < |s| ==>
      LeastHigh(s) <= s[k].high <= GreatestHigh(s) && LeastLow(s) <= s[k].low <= GreatestLow(s)
    ensures exists k :: 0 <= k < |s| && s[k].high == LeastHigh(s)
    ensures exists k :: 0 <= k < |s| && s[k].high == GreatestHigh(s)
    ensures exists k :: 0 <= k < |s| && s[k].low == LeastLow(s)
    ensures exists k :: 0 <= k < |s| && s[k].low == GreatestLow(s)
  {
    if |s| == 1 {
      assert s[0].high == LeastHigh(s) == GreatestHigh(s) && s[0].low == LeastLow(s) == GreatestLow(s);
    } else {
      var rest, last := s[..|s| - 1], s[|s| - 1];
      Extremes(rest);
      var a :| 0 <= a < |rest| && rest[a].high == LeastHigh(rest);
      var b :| 0 <= b < |rest| && rest[b].high == GreatestHigh(rest);
      var c :| 0 <= c < |rest| && rest[c].low == LeastLow(rest);
      var d :| 0 <= d < |rest| && rest[d].low == GreatestLow(rest);
      assert s[a].high == LeastHigh(s) || last.high == LeastHigh(s);
      assert s[b].high == GreatestHigh(s) || last.high == GreatestHigh(s);
      assert s[c].low == LeastLow(s) || last.low == LeastLow(s);
      assert s[d].low == GreatestLow(s) || last.low == GreatestLow(s);
    }
  }

  /** The first three strokes of a group, or all of a shorter one. */
  function Core(group: seq<Stroke>): seq<Stroke> {
    if |group| > 3 then group[..3] else group
  }

  function NewZone(group: seq<Stroke>): Zone
    requires |group| > 0
  {
    var upper, lower := LeastHigh(Core(group)), GreatestLow(Core(group));
    Zone(group[0].start.time, group[|group| - 1].end.time, upper, lower, lower + (upper - lower) / 2.0,
         GreatestHigh(group), LeastLow(group), |group|)
  }

  predicate ZoneValid(zone: Zone) {
    zone.upper >= zone.lower
  }

  predicate Overlaps(stroke: Stroke, zone: Zone) {
    stroke.high >= zone.lower && stroke.low <= zone.upper
  }

  /** Strokes have a range in common: every two of them overlap. */
  ghost predicate Meet(s: seq<Stroke>) {
    forall j, k :: 0 <= j < |s| && 0 <= k < |s| ==> s[j].low <= s[k].high
  }

  lemma ValidIsMeet(group: seq<Stroke>)
    requires |group| > 0
    ensures ZoneValid(NewZone(group)) <==> Meet(Core(group))
  {
    var c := Core(group);
    Extremes(c);
    var j :| 0 <= j < |c| && c[j].low == GreatestLow(c);
    var k :| 0 <= k < |c| && c[k].high == LeastHigh(c);
    if Meet(c) {
      assert c[j].low <= c[k].high;
    }
  }

  // ---------- The scan ----------

  /** Drops strokes from the front until the first ones left have a range in common. */
  function Shrunk(strokes: seq<Stroke>, g: nat, i: nat): (r: nat)
    requires g < i <= |strokes|
    ensures g <= r < i
    decreases i - g
  {
    if i - g >= 2 && !ZoneValid(NewZone(strokes[g..i])) then Shrunk(strokes, g + 1, i) else g
  }

  /** The zones found from here, as runs of strokes: strokes g to i - 1 are the open group, i is next. */
  function Runs(strokes: seq<Stroke>, g: nat, i: nat): seq<(nat, nat)>
    requires g <= i <= |strokes|
    decreases |strokes| - i
  {
    if i == |strokes| then
      if i - g >= 3 && ZoneValid(NewZone(strokes[g..i])) then [(g, i)] else []
    else if i - g >= 3 && ZoneValid(NewZone(strokes[g..i])) && !Overlaps(strokes[i], NewZone(strokes[g..i])) then
      [(g, i)] + Runs(strokes, i, i + 1)
    else Runs(strokes, Shrunk(strokes, g, i + 1), i + 1)
  }

  /** A group that may stand: its core has a range in common and every stroke overlaps that range. */
  ghost predicate Stands(strokes: seq<Stroke>, a: nat, b: nat)
    requires a < b <= |strokes|
  {
    var zone := NewZone(strokes[a..b]);
    ZoneValid(zone) && forall k :: a <= k < b ==> Overlaps(strokes[k], zone)
  }

  /** The core does not change when a group of three or more grows. */
  lemma CoreStays(strokes: seq<Stroke>, a: nat, b: nat, c: nat)
    requires a + 3 <= b <= c <= |strokes|
    ensures NewZone(strokes[a..b]).upper == NewZone(strokes[a..c]).upper
    ensures NewZone(strokes[a..b]).lower == NewZone(strokes[a..c]).lower
  {
    assert Core(strokes[a..b]) == strokes[a..a + 3] == Core(strokes[a..c]);
  }

  lemma SmallStands(strokes: seq<Stroke>, a: nat, b: nat)
    requires a < b <= a + 3 && b <= |strokes| && ZoneValid(NewZone(strokes[a..b]))
    ensures Stands(strokes, a, b)
  {
    hide NewZone, Meet, ZoneValid;
    var s := strokes[a..b];
    assert Core(s) == s;
    forall k | a <= k < b ensures Overlaps(strokes[k], NewZone(s)) {
      MemberOverlaps(s, k - a);
      assert s[k - a] == strokes[k];
    }
  }

  lemma MemberOverlaps(s: seq<Stroke>, k: nat)
    requires 0 < |s| <= 3 && k < |s| && ZoneValid(NewZone(s))
    ensures Overlaps(s[k], NewZone(s))
  {
    assert Core(s) == s;
    Extremes(s);
  }

  lemma GrownStands(strokes: seq<Stroke>, a: nat, i: nat)
    requires a + 3 <= i < |strokes| && Stands(strokes, a, i) && Overlaps(strokes[i], NewZone(strokes[a..i]))
    ensures Stands(strokes, a, i + 1) && Shrunk(strokes, a, i + 1) == a
  {
    hide NewZone;
    CoreStays(strokes, a, i, i + 1);
  }

  /** Two strokes alone: valid or not, a group of one always stands when it is the whole core. */
  ghost predicate OpenGroup(strokes: seq<Stroke>, g: nat, i: nat)
    requires g <= i <= |strokes|
  {
    i - g >= 2 ==> Stands(strokes, g, i)
  }

  lemma {:induction false} ShrunkStands(strokes: seq<Stroke>, g: nat, i: nat)
    requires g < i <= |strokes| && i - g <= 3
    ensures OpenGroup(strokes, Shrunk(strokes, g, i), i)
    decreases i - g
  {
    hide Stands, NewZone, ZoneValid;
    if i - g >= 2 {
      if !ZoneValid(NewZone(strokes[g..i])) {
        ShrunkStands(strokes, g + 1, i);
      } else {
        SmallStands(strokes, g, i);
      }
    }
  }

  /** The next group after stroke `i`, when no zone is emitted. */
  lemma NextGroup(strokes: seq<Stroke>, g: nat, i: nat)
    requires g <= i < |strokes| && OpenGroup(strokes, g, i)
    requires i - g >= 3 ==> Overlaps(strokes[i], NewZone(strokes[g..i]))
    ensures OpenGroup(strokes, Shrunk(strokes, g, i + 1), i + 1)
  {
    hide Stands, NewZone;
    if i - g >= 3 {
      GrownStands(strokes, g, i);
    } else {
      ShrunkStands(strokes, g, i + 1);
    }
  }

  /** Disjoint runs of three strokes or more, each standing, and the stroke after each one outside its range. */
  ghost predicate SoundRuns(strokes: seq<Stroke>, from: nat, runs: seq<(nat, nat)>) {
    && (forall k :: 0 <= k < |runs| ==>
          && from <= runs[k].0 && runs[k].0 + 3 <= runs[k].1 <= |strokes|
          && Stands(strokes, runs[k].0, runs[k].1)
          && (runs[k].1 < |strokes| ==> !Overlaps(strokes[runs[k].1], NewZone(strokes[runs[k].0..runs[k].1]))))
    && (forall k :: 0 <= k < |runs| - 1 ==> runs[k].1 <= runs[k + 1].0)
  }

  lemma RunsLonger(strokes: seq<Stroke>, from: nat, g: nat, i: nat, rest: seq<(nat, nat)>)
    requires from <= g && g + 3 <= i < |strokes| && Stands(strokes, g, i)
    requires !Overlaps(strokes[i], NewZone(strokes[g..i])) && SoundRuns(strokes, i, rest)
    ensures SoundRuns(strokes, from, [(g, i)] + rest)
  {
    hide Stands, NewZone, Overlaps;
    var r := [(g, i)] + rest;
    forall k | 0 <= k < |r| - 1 ensures r[k].1 <= r[k + 1].0 {
      assert r[k + 1] == rest[k] && (k > 0 ==> r[k] == rest[k - 1]);
    }
  }

  lemma {:induction false} RunsAreSound(strokes: seq<Stroke>, g: nat, i: nat)
    requires g <= i <= |strokes| && OpenGroup(strokes, g, i)
    ensures SoundRuns(strokes, g, Runs(strokes, g, i))
    decreases |strokes| - i
  {
    hide Stands, NewZone, Overlaps, ZoneValid, Shrunk;
    if i == |strokes| {
    } else if i - g >= 3 && ZoneValid(NewZone(strokes[g..i])) && !Overlaps(strokes[i], NewZone(strokes[g..i])) {
      RunsAreSound(strokes, i, i + 1);
      RunsLonger(strokes, g, g, i, Runs(strokes, i, i + 1));
    } else {
      assert i - g >= 3 ==> Overlaps(strokes[i], NewZone(strokes[g..i])) by {
        StandingIsValid(strokes, g, i);
      }
      NextGroup(strokes, g, i);
      RunsAreSound(strokes, Shrunk(strokes, g, i + 1), i + 1);
    }
  }

  lemma StandingIsValid(strokes: seq<Stroke>, g: nat, i: nat)
    requires g <= i <= |strokes| && OpenGroup(strokes, g, i)
    ensures i - g >= 2 ==> ZoneValid(NewZone(strokes[g..i]))
  {
  }

  // ---------- No zone is missed ----------

  predicate Inside(runs: seq<(nat, nat)>, k: nat) {
    exists i :: 0 <= i < |runs| && runs[i].0 <= k < runs[i].1
  }

  /** What the shrinking drops starts no three strokes with a common range. */
  lemma {:induction false} DroppedDoNotMeet(strokes: seq<Stroke>, g: nat, i: nat, k: nat)
    requires g < i <= |strokes| && i - g <= 3
    requires g <= k < Shrunk(strokes, g, i) && k + 3 <= |strokes|
    ensures !Meet(strokes[k..k + 3])
    decreases i - g
  {
    hide NewZone, ZoneValid;
    if g < k {
      DroppedDoNotMeet(strokes, g + 1, i, k);
    } else {
      ValidIsMeet(strokes[g..i]);
      var short, long := strokes[g..i], strokes[g..g + 3];
      assert Core(short) == short && !Meet(short);
      assert forall j :: 0 <= j < |short| ==> short[j] == long[j];
    }
  }

  /** Three consecutive strokes with a common range start inside some zone. */
  lemma {:induction false} NoZoneIsMissed(strokes: seq<Stroke>, g: nat, i: nat, k: nat)
    requires g <= i <= |strokes| && OpenGroup(strokes, g, i)
    requires g <= k && k + 3 <= |strokes| && Meet(strokes[k..k + 3])
    ensures Inside(Runs(strokes, g, i), k)
    decreases |strokes| - i
  {
    hide Stands, NewZone, Overlaps, ZoneValid, Shrunk, Meet;
    StandingIsValid(strokes, g, i);
    if i == |strokes| {
      assert Runs(strokes, g, i)[0] == (g, i);
    } else if i - g >= 3 && !Overlaps(strokes[i], NewZone(strokes[g..i])) {
      var rest := Runs(strokes, i, i + 1);
      assert Runs(strokes, g, i) == [(g, i)] + rest;
      if k < i {
        assert Runs(strokes, g, i)[0] == (g, i);
      } else {
        NoZoneIsMissed(strokes, i, i + 1, k);
        var j :| 0 <= j < |rest| && rest[j].0 <= k < rest[j].1;
        assert ([(g, i)] + rest)[j + 1] == rest[j];
      }
    } else {
      NextGroup(strokes, g, i);
      var h := Shrunk(strokes, g, i + 1);
      if k < h {
        if i - g >= 3 {
          GrownStands(strokes, g, i);
        } else {
          DroppedDoNotMeet(strokes, g, i + 1, k);
        }
      }
      NoZoneIsMissed(strokes, h, i + 1, k);
    }
  }

  // ---------- buildZones ----------

  function ZonesOf(strokes: seq<Stroke>, runs: seq<(nat, nat)>): (r: seq<Zone>)
    requires forall k :: 0 <= k < |runs| ==> runs[k].0 < runs[k].1 <= |strokes|
    ensures |r| == |runs|
    ensures forall k :: 0 <= k < |runs| ==> r[k] == NewZone(strokes[runs[k].0..runs[k].1])
  {
    seq(|runs|, k requires 0 <= k < |runs| => NewZone(strokes[runs[k].0..runs[k].1]))
  }

  lemma RunsFit(strokes: seq<Stroke>)
    ensures SoundRuns(strokes, 0, Runs(strokes, 0, 0))
    ensures forall k :: 0 <= k < |Runs(strokes, 0, 0)| ==>
      Runs(strokes, 0, 0)[k].0 < Runs(strokes, 0, 0)[k].1 <= |strokes|
  {
    hide Runs, Stands, Overlaps, NewZone;
    RunsAreSound(strokes, 0, 0);
  }

  function Zones(strokes: seq<Stroke>): seq<Zone> {
    RunsFit(strokes);
    ZonesOf(strokes, Runs(strokes, 0, 0))
  }

  lemma OneMoreStroke(s: seq<Stroke>, x: Stroke)
    requires |s| > 0
    ensures LeastHigh(s + [x]) == Min(LeastHigh(s), x.high) && GreatestLow(s + [x]) == Max(GreatestLow(s), x.low)
    ensures GreatestHigh(s + [x]) == Max(GreatestHigh(s), x.high) && LeastLow(s + [x]) == Min(LeastLow(s), x.low)
  {
    assert (s + [x])[..|s|] == s;
  }

  lemma OneStroke(x: Stroke)
    ensures LeastHigh([x]) == GreatestHigh([x]) == x.high && GreatestLow([x]) == LeastLow([x]) == x.low
  {
  }

  lemma CoreIs(group: seq<Stroke>)
    ensures Core(group) == group[..if |group| > 3 then 3 else |group|]
  {
  }

  method MeasureZone(strokes: seq<Stroke>) returns (zone: Zone)
    requires |strokes| > 0
    ensures zone == NewZone(strokes)
  {
    hide LeastHigh, GreatestLow, GreatestHigh, LeastLow, Max, Min, Core;
    var n := |strokes|;
    if n > 3 {
      n := 3;
    }
    CoreIs(strokes);
    var upper, lower, high, low := strokes[0].high, strokes[0].low, strokes[0].high, strokes[0].low;
    assert strokes[..1] == [strokes[0]];
    OneStroke(strokes[0]);
    for i := 1 to |strokes|
      invariant high == GreatestHigh(strokes[..i]) && low == LeastLow(strokes[..i])
      invariant i <= n ==> upper == LeastHigh(strokes[..i]) && lower == GreatestLow(strokes[..i])
      invariant n <= i ==> upper == LeastHigh(strokes[..n]) && lower == GreatestLow(strokes[..n])
    {
      assert strokes[..i + 1] == strokes[..i] + [strokes[i]];
      OneMoreStroke(strokes[..i], strokes[i]);
      high, low := Max(high, strokes[i].high), Min(low, strokes[i].low);
      if i < n {
        upper, lower := Min(upper, strokes[i].high), Max(lower, strokes[i].low);
      }
    }
    assert strokes[..|strokes|] == strokes;
    var mid := lower + (upper - lower) / 2.0;
    zone := Zone(strokes[0].start.time, strokes[|strokes| - 1].end.time, upper, lower, mid, high, low, |strokes|);
  }

  lemma RunsStep(strokes: seq<Stroke>, g: nat, i: nat)
    requires g <= i <= |strokes|
    ensures
      var emits := i - g >= 3 && ZoneValid(NewZone(strokes[g..i]));
      Runs(strokes, g, i) ==
      if i == |strokes| then
        if emits then [(g, i)] else []
      else if emits && !Overlaps(strokes[i], NewZone(strokes[g..i])) then [(g, i)] + Runs(strokes, i, i + 1)
      else Runs(strokes, Shrunk(strokes, g, i + 1), i + 1)
  {
  }

  lemma ShrunkStep(strokes: seq<Stroke>, g: nat, i: nat)
    requires g < i <= |strokes|
    ensures Shrunk(strokes, g, i) ==
      if i - g >= 2 && !ZoneValid(NewZone(strokes[g..i])) then Shrunk(strokes, g + 1, i) else g
  {
  }

  method BuildZones(strokes: seq<Stroke>) returns (out: seq<Zone>)
    ensures out == Zones(strokes)
  {
    hide NewZone, Overlaps, ZoneValid, Shrunk, Runs, SoundRuns, ZonesOf;
    out := [];
    var group: seq<Stroke> := [];
    ghost var g: nat := 0;
    ghost var done: seq<(nat, nat)> := [];
    RunsFit(strokes);
    for i := 0 to |strokes|
      invariant g <= i && group == strokes[g..i]
      invariant done + Runs(strokes, g, i) == Runs(strokes, 0, 0)
      invariant (forall k :: 0 <= k < |done| ==> done[k].0 < done[k].1 <= |strokes|) && out == ZonesOf(strokes, done)
    {
      var stroke := strokes[i];
      if |group| >= 3 {
        var zone := MeasureZone(group);
        if ZoneValid(zone) && !Overlaps(stroke, zone) {
          RunsStep(strokes, g, i);
          assert done + ([(g, i)] + Runs(strokes, i, i + 1)) == (done + [(g, i)]) + Runs(strokes, i, i + 1);
          done := done + [(g, i)];
          out := out + [zone];
          assert out == ZonesOf(strokes, done);
          group := [stroke];
          g := i;
          continue;
        }
      }
      RunsStep(strokes, g, i);
      group := group + [stroke];
      ghost var target := Shrunk(strokes, g, i + 1);
      var valid := false;
      while |group| >= 2 && !valid
        invariant g <= i && group == strokes[g..i + 1] && Shrunk(strokes, g, i + 1) == target
        invariant valid ==> ZoneValid(NewZone(group))
        decreases |group|, !valid
      {
        var zone := MeasureZone(group);
        ShrunkStep(strokes, g, i + 1);
        valid := ZoneValid(zone);
        if !valid {
          group := group[1..];
          g := g + 1;
        }
      }
      ShrunkStep(strokes, g, i + 1);
    }
    RunsStep(strokes, g, |strokes|);
    if |group| >= 3 {
      var zone := MeasureZone(group);
      if ZoneValid(zone) {
        out := out + [zone];
        done := done + [(g, |strokes|)];
        assert out == ZonesOf(strokes, done);
      }
    }
    assert done == Runs(strokes, 0, 0);
  }

  /**
    The zones are disjoint runs of at least three strokes around a shared range, every member
    overlapping it and the stroke after each missing it, and no three strokes that share a range lie outside.
  */
  lemma ZonesAreSound(strokes: seq<Stroke>)
    ensures
      var runs, zones := Runs(strokes, 0, 0), Zones(strokes);
      && |zones| == |runs| && SoundRuns(strokes, 0, runs)
      && (forall k :: 0 <= k < |runs| ==>
           runs[k].0 < runs[k].1 <= |strokes| && zones[k] == NewZone(strokes[runs[k].0..runs[k].1]))
      && (forall k :: 0 <= k && k + 3 <= |strokes| && Meet(strokes[k..k + 3]) ==> Inside(runs, k))
  {
    hide NewZone, Runs, Meet, Stands, Overlaps, Inside;
    RunsFit(strokes);
    forall k | 0 <= k && k + 3 <= |strokes| && Meet(strokes[k..k + 3]) ensures Inside(Runs(strokes, 0, 0), k) {
      NoZoneIsMissed(strokes, 0, 0, k);
    }
  }
}
