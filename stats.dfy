/** GET /stats: total count, count per label, and the recent rate (server.py, stats). */
module Stats {
  import opened Wrappers
  import opened Json
  import opened Detections
  import Query

  /** The reply of GET /stats; `recentPerMinute == None` is JSON null. */
  datatype StatsReply = StatsReply(
    total: nat,
    countsPerLabel: map<Value, nat>,
    recentCount: nat,
    recentPerMinute: Option<real>)

  /** The number of rows with label `l`. */
  function CountLabel(rs: seq<Detection>, l: Value): (n: nat)
    ensures n <= |rs|
    ensures n > 0 <==> exists i :: 0 <= i < |rs| && rs[i].fields.labelValue == l
    decreases |rs|
  {
    if rs == [] then 0
    else
      var n := |rs| - 1;
      assert forall i :: 0 <= i < n ==> rs[..n][i] == rs[i];
      CountLabel(rs[..n], l) + (if rs[n].fields.labelValue == l then 1 else 0)
  }

  /** The distinct labels present, in order of first appearance: the groups of
      `group_by(Detection.label)`. */
  function Labels(rs: seq<Detection>): (ls: seq<Value>)
    ensures forall i, j :: 0 <= i < j < |ls| ==> ls[i] != ls[j]
    ensures forall l :: l in ls <==> exists i :: 0 <= i < |rs| && rs[i].fields.labelValue == l
    decreases |rs|
  {
    if rs == [] then []
    else
      var n := |rs| - 1;
      assert forall i :: 0 <= i < n ==> rs[..n][i] == rs[i];
      var init := Labels(rs[..n]);
      if rs[n].fields.labelValue in init then init else init + [rs[n].fields.labelValue]
  }

  /** `counts_per_label`: one entry per label present, mapped to its row count. */
  function CountsPerLabel(rs: seq<Detection>): map<Value, nat> {
    map l | l in Labels(rs) :: CountLabel(rs, l)
  }

  /** The number of rows with `timestamp >= cutoff`. */
  function CountSince(rs: seq<Detection>, cutoff: Time): (n: nat)
    ensures n <= |rs|
  {
    if rs == [] then 0
    else (if rs[0].fields.timestamp >= cutoff then 1 else 0) + CountSince(rs[1..], cutoff)
  }

  /** `utcnow() - timedelta(minutes=minutes)`. */
  function Cutoff(now: Time, minutes: int): Time {
    now - minutes * MicrosPerMinute
  }

  /** GET /stats?minutes=minutes, at clock reading `now`. */
  function ComputeStats(rs: seq<Detection>, minutes: int, now: Time): StatsReply {
    var recent := CountSince(rs, Cutoff(now, minutes));
    StatsReply(
      |rs|,
      CountsPerLabel(rs),
      recent,
      if minutes > 0 then Some(recent as real / minutes as real) else None)
  }

  // ---------------------------------------------------------------------------------------
  // Properties of the statistics

  /** The sum of the counts of the labels in `ls`. */
  function SumCounts(rs: seq<Detection>, ls: seq<Value>): nat
    decreases |ls|
  {
    if ls == [] then 0
    else SumCounts(rs, ls[..|ls| - 1]) + CountLabel(rs, ls[|ls| - 1])
  }

  /** The number of positions of `ls` that hold `l`. */
  function Occurrences(ls: seq<Value>, l: Value): nat
    decreases |ls|
  {
    if ls == [] then 0
    else Occurrences(ls[..|ls| - 1], l) + (if ls[|ls| - 1] == l then 1 else 0)
  }

  lemma {:induction false} OccursOnce(ls: seq<Value>, l: Value)
    requires forall i, j :: 0 <= i < j < |ls| ==> ls[i] != ls[j]
    ensures Occurrences(ls, l) == if l in ls then 1 else 0
    decreases |ls|
  {
    if ls != [] {
      var m := |ls| - 1;
      var init := ls[..m];
      assert ls == init + [ls[m]];
      assert forall i, j :: 0 <= i < j < |init| ==> init[i] != init[j] by {
        forall i, j | 0 <= i < j < |init| ensures init[i] != init[j] {
          assert init[i] == ls[i] && init[j] == ls[j];
        }
      }
      OccursOnce(init, l);
      assert (l in ls) <==> (l in init || ls[m] == l);
      if ls[m] == l {
        forall i | 0 <= i < |init| ensures init[i] != l {
          assert init[i] == ls[i];
        }
      }
    }
  }

  /** One more row adds one to the sum over every position that holds its label. */
  lemma {:induction false} SumCountsAppend(rs: seq<Detection>, x: Detection, ls: seq<Value>)
    ensures SumCounts(rs + [x], ls) == SumCounts(rs, ls) + Occurrences(ls, x.fields.labelValue)
    decreases |ls|
  {
    if ls != [] {
      var l := ls[|ls| - 1];
      assert (rs + [x])[..|rs|] == rs;
      assert CountLabel(rs + [x], l) == CountLabel(rs, l) + (if x.fields.labelValue == l then 1 else 0);
      SumCountsAppend(rs, x, ls[..|ls| - 1]);
    }
  }

  /** `total_detections` equals the sum of the `counts_per_label` values. */
  lemma {:induction false} TotalIsSumOfCounts(rs: seq<Detection>)
    ensures SumCounts(rs, Labels(rs)) == |rs|
    decreases |rs|
  {
    if rs != [] {
      var n := |rs| - 1;
      var x := rs[n];
      var lab := x.fields.labelValue;
      var init := Labels(rs[..n]);
      assert rs == rs[..n] + [x];
      TotalIsSumOfCounts(rs[..n]);
      SumCountsAppend(rs[..n], x, init);
      OccursOnce(init, lab);
      if lab !in init {
        assert (init + [lab])[..|init|] == init;
        assert CountLabel(rs[..n], lab) == 0;
      }
    }
  }

  /** `counts_per_label` has exactly the labels present as keys, each with its row count, and
      the counts add up to `total_detections`. */
  lemma CountsPerLabelExact(rs: seq<Detection>, minutes: int, now: Time)
    ensures forall l :: l in ComputeStats(rs, minutes, now).countsPerLabel <==>
      exists i :: 0 <= i < |rs| && rs[i].fields.labelValue == l
    ensures forall l :: l in ComputeStats(rs, minutes, now).countsPerLabel ==>
      ComputeStats(rs, minutes, now).countsPerLabel[l] == CountLabel(rs, l) >= 1
    ensures ComputeStats(rs, minutes, now).total == SumCounts(rs, Labels(rs))
  {
    TotalIsSumOfCounts(rs);
  }

  /** The recent count never exceeds the total; the rate times the window is the recent count
      when the window is positive, and the rate is null otherwise. */
  lemma RecentRate(rs: seq<Detection>, minutes: int, now: Time)
    ensures ComputeStats(rs, minutes, now).recentCount <= ComputeStats(rs, minutes, now).total
    ensures minutes > 0 <==> ComputeStats(rs, minutes, now).recentPerMinute.Some?
    ensures minutes > 0 ==>
      ComputeStats(rs, minutes, now).recentPerMinute.value * minutes as real
        == ComputeStats(rs, minutes, now).recentCount as real
  {
  }

  /** The recent count is the number of rows a GET /detections with only a start bound at
      the cutoff would match. */
  lemma {:induction false} RecentCountIsQueryCount(rs: seq<Detection>, cutoff: Time)
    ensures CountSince(rs, cutoff) == |Query.Filter(rs, Query.Criteria(None, None, Some(cutoff), None))|
  {
    if rs != [] {
      RecentCountIsQueryCount(rs[1..], cutoff);
    }
  }

  /** A wider window never counts fewer recent rows. */
  lemma {:induction false} WiderWindowCountsMore(rs: seq<Detection>, now: Time, minutes: int, wider: int)
    requires minutes <= wider
    ensures ComputeStats(rs, minutes, now).recentCount <= ComputeStats(rs, wider, now).recentCount
  {
    assert Cutoff(now, wider) <= Cutoff(now, minutes);
    CountSinceAntitone(rs, Cutoff(now, wider), Cutoff(now, minutes));
  }

  lemma {:induction false} CountSinceAntitone(rs: seq<Detection>, early: Time, late: Time)
    requires early <= late
    ensures CountSince(rs, late) <= CountSince(rs, early)
  {
    if rs != [] {
      CountSinceAntitone(rs[1..], early, late);
    }
  }
}
