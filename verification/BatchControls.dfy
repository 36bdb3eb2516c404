/**
  `speedBatchControls` of internal/bottomstudy/speed.go: policies compared on the positions that all of them
  entered.
*/
module BatchControls {
  import opened Market
  import opened Simulator
  import opened Speed

  /** The trades of each policy of the group. */
  type Group = seq<seq<Trade>>

  predicate Entered(t: Trade, id: TradeId) {
    t.id == id && t.entryDate.Some?
  }

  function EntriesOf(trades: seq<Trade>, id: TradeId): nat {
    if |trades| == 0 then 0 else EntriesOf(trades[..|trades| - 1], id) + if Entered(trades[|trades| - 1], id) then 1
      else 0
  }

  function EntriesIn(group: Group, id: TradeId): nat {
    if |group| == 0 then 0 else EntriesIn(group[..|group| - 1], id) + EntriesOf(group[|group| - 1], id)
  }

  function CountOf(counts: map<TradeId, nat>, id: TradeId): nat {
    if id in counts then counts[id] else 0
  }

  /** The trades of one policy that count as matched. */
  function Matched(trades: seq<Trade>, group: Group): seq<Trade> {
    if |trades| == 0 then []
    else
      var t := trades[|trades| - 1];
      Matched(trades[..|trades| - 1], group) + (if EntriesIn(group, t.id) == |group| then [t] else [])
  }

  method CountArm(counts: map<TradeId, nat>, trades: seq<Trade>) returns (r: map<TradeId, nat>)
    ensures forall id :: CountOf(r, id) == CountOf(counts, id) + EntriesOf(trades, id)
  {
    r := counts;
    for k := 0 to |trades|
      invariant forall id :: CountOf(r, id) == CountOf(counts, id) + EntriesOf(trades[..k], id)
    {
      var t := trades[k];
      assert trades[..k + 1][..k] == trades[..k];
      if t.entryDate.Some? {
        r := r[t.id := CountOf(r, t.id) + 1];
      }
    }
    assert trades[..|trades|] == trades;
  }

  method CountEntries(group: Group) returns (counts: map<TradeId, nat>)
    ensures forall id :: CountOf(counts, id) == EntriesIn(group, id)
  {
    hide CountOf, EntriesOf;
    counts := map[];
    NothingCounted();
    for p := 0 to |group|
      invariant forall id :: CountOf(counts, id) == EntriesIn(group[..p], id)
    {
      assert group[..p + 1][..p] == group[..p];
      counts := CountArm(counts, group[p]);
    }
    assert group[..|group|] == group;
  }

  lemma NothingCounted()
    ensures forall id :: CountOf(map[], id) == 0
  {
  }

  datatype Control = Control(training: SpeedStats, later: SpeedStats)

  /** For every policy of the group, the statistics of its matched trades alone. */
  method SpeedBatchControls(group: Group) returns (out: seq<Control>)
    ensures |out| == |group|
    ensures forall p :: 0 <= p < |group| ==>
              out[p] == Control(SpeedOf(Matched(group[p], group), Training), SpeedOf(Matched(group[p], group), Later))
  {
    hide CountOf, EntriesIn, SpeedOf;
    var counts := CountEntries(group);
    out := [];
    for p := 0 to |group|
      invariant |out| == p
      invariant forall j :: 0 <= j < p ==>
                  out[j] == Control(SpeedOf(Matched(group[j], group), Training),
                    SpeedOf(Matched(group[j], group), Later))
    {
      var matched: seq<Trade> := [];
      for k := 0 to |group[p]|
        invariant matched == Matched(group[p][..k], group)
      {
        assert group[p][..k + 1][..k] == group[p][..k];
        if CountOf(counts, group[p][k].id) == |group| {
          matched := matched + [group[p][k]];
        }
      }
      assert group[p][..|group[p]|] == group[p];
      var training := SummarizeSpeed(matched, Training);
      var later := SummarizeSpeed(matched, Later);
      out := out + [Control(training, later)];
    }
  }

  // ---------- Matched means entered by all ----------

  /** Each policy has one trade per opportunity. */
  ghost predicate OnePerId(trades: seq<Trade>) {
    forall j, k :: 0 <= j < k < |trades| ==> trades[j].id != trades[k].id
  }

  predicate Enters(trades: seq<Trade>, id: TradeId) {
    exists k :: 0 <= k < |trades| && Entered(trades[k], id)
  }

  lemma {:induction false} OnceAtMost(trades: seq<Trade>, id: TradeId)
    requires OnePerId(trades)
    ensures EntriesOf(trades, id) == if Enters(trades, id) then 1 else 0
  {
    if |trades| > 0 {
      var rest, last := trades[..|trades| - 1], trades[|trades| - 1];
      OnceAtMost(rest, id);
      if Enters(rest, id) {
        var k :| 0 <= k < |rest| && Entered(rest[k], id);
        assert Entered(trades[k], id);
      }
      if Entered(last, id) {
        assert Entered(trades[|rest|], id);
        forall k | 0 <= k < |rest| ensures !Entered(rest[k], id) {
          assert rest[k] == trades[k];
        }
      }
      if Enters(trades, id) && !Entered(last, id) {
        var k :| 0 <= k < |trades| && Entered(trades[k], id);
        assert Entered(rest[k], id);
      }
    }
  }

  lemma {:induction false} AllEnter(group: Group, id: TradeId)
    requires forall p :: 0 <= p < |group| ==> OnePerId(group[p])
    ensures EntriesIn(group, id) <= |group|
    ensures EntriesIn(group, id) == |group| <==> forall p :: 0 <= p < |group| ==> Enters(group[p], id)
  {
    hide Enters, OnePerId, EntriesOf;
    if |group| > 0 {
      AllEnter(group[..|group| - 1], id);
      OnceAtMost(group[|group| - 1], id);
    }
  }

  /**
    The matched trades of a policy are exactly its own entries
    on opportunities that every policy of the group entered.
  */
  lemma {:induction false} MatchedAreCommon(trades: seq<Trade>, group: Group, t: Trade)
    requires |group| > 0 && trades in group && forall p :: 0 <= p < |group| ==> OnePerId(group[p])
    ensures t in Matched(trades, group) <==> t in trades && forall p :: 0 <= p < |group| ==> Enters(group[p], t.id)
    ensures t in Matched(trades, group) ==> t.entryDate.Some?
  {
    hide Enters, OnePerId, EntriesIn, Matched;
    InMatched(trades, group, t);
    AllEnter(group, t.id);
    var q :| 0 <= q < |group| && group[q] == trades;
    if t in Matched(trades, group) {
      OwnEntry(trades, t);
    }
  }

  lemma OwnEntry(trades: seq<Trade>, t: Trade)
    requires OnePerId(trades) && t in trades && Enters(trades, t.id)
    ensures t.entryDate.Some?
  {
    var k :| 0 <= k < |trades| && Entered(trades[k], t.id);
    var j :| 0 <= j < |trades| && trades[j] == t;
    assert j == k;
  }

  lemma {:induction false} InMatched(trades: seq<Trade>, group: Group, t: Trade)
    ensures t in Matched(trades, group) <==> t in trades && EntriesIn(group, t.id) == |group|
  {
    hide EntriesIn;
    if |trades| > 0 {
      InMatched(trades[..|trades| - 1], group, t);
      assert trades == trades[..|trades| - 1] + [trades[|trades| - 1]];
    }
  }
}
