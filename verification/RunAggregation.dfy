/** report_module/summary.py: repeated runs of a benchmark are grouped by identity. The benchmark
    blocks of all reports are given in order, each with its identity and its numeric metrics. */
module RunAggregation {
  import opened Orders
  import opened Percentiles
  import opened Wrappers

  datatype Measured<I> = Measured(identity: I, metrics: map<string, real>)

  datatype Aggregate<I> = Aggregate(identity: I, runCount: nat, metrics: map<string, MetricStats>)

  /** The identities in the order they first appear. */
  function Identities<I(==)>(blocks: seq<Measured<I>>): seq<I> {
    if blocks == [] then []
    else
      var earlier, last := Identities(blocks[..|blocks| - 1]), blocks[|blocks| - 1].identity;
      if last in earlier then earlier else earlier + [last]
  }

  /** The runs of one identity, in order. */
  function RunsOf<I(==)>(blocks: seq<Measured<I>>, identity: I): seq<Measured<I>> {
    if blocks == [] then []
    else
      var last := blocks[|blocks| - 1];
      RunsOf(blocks[..|blocks| - 1], identity) + if last.identity == identity then [last] else []
  }

  /** What these runs measured of one metric, in order. */
  function ValuesOf<I>(runs: seq<Measured<I>>, metric: string): seq<real> {
    if runs == [] then []
    else
      var last := runs[|runs| - 1];
      ValuesOf(runs[..|runs| - 1], metric) + if metric in last.metrics then [last.metrics[metric]] else []
  }

  /** A group's accumulated values: an entry for every metric measured, and no other. */
  ghost predicate Accumulates<I>(values: map<string, seq<real>>, runs: seq<Measured<I>>) {
    && (forall metric :: metric in values <==> ValuesOf(runs, metric) != [])
    && (forall metric :: metric in values ==> values[metric] == ValuesOf(runs, metric))
  }

  function Extended(values: map<string, seq<real>>, metrics: map<string, real>): map<string, seq<real>> {
    map metric | metric in values.Keys + metrics.Keys ::
      (if metric in values then values[metric] else []) + (if metric in metrics then [metrics[metric]] else [])
  }

  lemma ExtendedAccumulates<I>(values: map<string, seq<real>>, runs: seq<Measured<I>>, b: Measured<I>)
    requires Accumulates(values, runs)
    ensures Accumulates(Extended(values, b.metrics), runs + [b])
  {
    assert (runs + [b])[..|runs|] == runs;
    assert forall metric ::
        ValuesOf(runs + [b], metric)
        == ValuesOf(runs, metric) + (if metric in b.metrics then [b.metrics[metric]] else []);
    hide ValuesOf;
  }

  /** The aggregate of one identity over all blocks. */
  ghost predicate IsAggregate<I>(a: Aggregate<I>, blocks: seq<Measured<I>>, identity: I) {
    var runs := RunsOf(blocks, identity);
    && a.identity == identity && a.runCount == |runs|
    && (forall metric :: metric in a.metrics <==> ValuesOf(runs, metric) != [])
    && (forall metric :: metric in a.metrics ==> Some(a.metrics[metric]) == ComputeMetricStats(ValuesOf(runs, metric)))
  }

  lemma GroupStep<I>(blocks: seq<Measured<I>>, b: Measured<I>)
    ensures RunsOf(blocks + [b], b.identity) == RunsOf(blocks, b.identity) + [b]
    ensures forall other :: other != b.identity ==> RunsOf(blocks + [b], other) == RunsOf(blocks, other)
    ensures Identities(blocks + [b])
         == if b.identity in Identities(blocks) then Identities(blocks) else Identities(blocks) + [b.identity]
  {
    assert (blocks + [b])[..|blocks|] == blocks;
  }

  lemma {:induction false} UnseenHasNoRuns<I>(blocks: seq<Measured<I>>, identity: I)
    ensures RunsOf(blocks, identity) == [] <==> identity !in Identities(blocks)
  {
    if blocks != [] {
      UnseenHasNoRuns(blocks[..|blocks| - 1], identity);
    }
  }

  function StatsOf(values: map<string, seq<real>>): map<string, MetricStats>
    requires forall metric :: metric in values ==> values[metric] != []
  {
    map metric | metric in values :: ComputeMetricStats(values[metric]).value
  }

  /** What the grouping loop keeps: counts and values of every identity met, in `order`. */
  ghost predicate Grouped<I(!new)>(
      blocks: seq<Measured<I>>, order: seq<I>, counts: map<I, nat>, values: map<I, map<string, seq<real>>>)
  {
    && order == Identities(blocks)
    && (forall id :: id in order <==> id in counts)
    && (forall id :: id in order <==> id in values)
    && (forall id :: id in order ==> counts[id] == |RunsOf(blocks, id)| && Accumulates(values[id], RunsOf(blocks, id)))
  }

  lemma GroupedGrows<I(!new)>(
      blocks: seq<Measured<I>>, order: seq<I>, counts: map<I, nat>, values: map<I, map<string, seq<real>>>,
      b: Measured<I>)
    requires Grouped(blocks, order, counts, values)
    ensures var unseen, id := b.identity !in values, b.identity;
            var runs, before := if unseen then 0 else counts[id], if unseen then map[] else values[id];
            Grouped(
              blocks + [b], if unseen then order + [id] else order, counts[id := runs + 1],
              values[id := Extended(before, b.metrics)])
  {
    GroupStep(blocks, b);
    UnseenHasNoRuns(blocks, b.identity);
    NothingAccumulated<I>();
    hide Accumulates, RunsOf, Identities, Extended;
    if b.identity in values {
      ExtendedAccumulates(values[b.identity], RunsOf(blocks, b.identity), b);
    } else {
      ExtendedAccumulates(map[], RunsOf(blocks, b.identity), b);
    }
  }

  lemma NothingGrouped<I(!new)>()
    ensures Grouped<I>([], [], map[], map[])
  {
  }

  lemma GroupedKnows<I(!new)>(
      blocks: seq<Measured<I>>, order: seq<I>, counts: map<I, nat>, values: map<I, map<string, seq<real>>>)
    requires Grouped(blocks, order, counts, values)
    ensures order == Identities(blocks) && forall id :: id in values ==> id in counts
  {
    hide RunsOf, Accumulates;
  }

  lemma SetTwice<K, V>(m: map<K, V>, k: K, first: V, second: V)
    ensures m[k := first][k := second] == m[k := second]
  {
  }

  method GroupRuns<I(==, !new)>(blocks: seq<Measured<I>>)
    returns (order: seq<I>, counts: map<I, nat>, values: map<I, map<string, seq<real>>>)
    ensures Grouped(blocks, order, counts, values)
  {
    hide RunsOf, ValuesOf, Accumulates, Grouped, Extended;
    order, counts, values := [], map[], map[];
    NothingGrouped<I>();
    assert blocks[..0] == [];
    for i := 0 to |blocks|
      invariant Grouped(blocks[..i], order, counts, values)
    {
      var b := blocks[i];
      assert blocks[..i + 1] == blocks[..i] + [b];
      GroupedGrows(blocks[..i], order, counts, values, b);
      GroupedKnows(blocks[..i], order, counts, values);
      var known := b.identity in values;
      ghost var before, earlier := counts, values;
      if !known {
        values := values[b.identity := map[]];
        counts := counts[b.identity := 0];
        order := order + [b.identity];
      }
      ghost var counted, valued := counts, values;
      counts := counts[b.identity := counts[b.identity] + 1];
      values := values[b.identity := Extended(values[b.identity], b.metrics)];
      SetTwice(before, b.identity, 0, counted[b.identity] + 1);
      SetTwice(earlier, b.identity, map[], Extended(valued[b.identity], b.metrics));
    }
    assert blocks[..|blocks|] == blocks;
  }

  lemma GroupedIsExact<I(!new)>(
      blocks: seq<Measured<I>>, order: seq<I>, counts: map<I, nat>, values: map<I, map<string, seq<real>>>, k: nat)
    requires Grouped(blocks, order, counts, values) && k < |order|
    ensures order[k] in counts && order[k] in values
    ensures forall metric :: metric in values[order[k]] ==> values[order[k]][metric] != []
    ensures IsAggregate(Aggregate(order[k], counts[order[k]], StatsOf(values[order[k]])), blocks, order[k])
  {
    hide RunsOf, ValuesOf, StatsOf, Identities, IsAggregate;
    var id := order[k];
    assert order[k] in order;
    assert Accumulates(values[id], RunsOf(blocks, id));
    StatsAreExact(blocks, id, values[id], Aggregate(id, counts[id], StatsOf(values[id])));
  }

  method AggregateBenchmarkRuns<I(==, !new)>(blocks: seq<Measured<I>>) returns (aggregates: seq<Aggregate<I>>)
    ensures |aggregates| == |Identities(blocks)|
    ensures forall k :: 0 <= k < |aggregates| ==> IsAggregate(aggregates[k], blocks, Identities(blocks)[k])
  {
    hide StatsOf, IsAggregate, Grouped;
    var order, counts, values := GroupRuns(blocks);
    aggregates := [];
    GroupedKnows(blocks, order, counts, values);
    for k := 0 to |order|
      invariant |aggregates| == k
      invariant forall j :: 0 <= j < k ==> IsAggregate(aggregates[j], blocks, order[j])
    {
      var id := order[k];
      GroupedIsExact(blocks, order, counts, values, k);
      aggregates := aggregates + [Aggregate(id, counts[id], StatsOf(values[id]))];
    }
  }

  lemma NothingAccumulated<I>()
    ensures Accumulates<I>(map[], [])
  {
  }

  lemma StatsAreExact<I>(blocks: seq<Measured<I>>, identity: I, values: map<string, seq<real>>, a: Aggregate<I>)
    requires Accumulates(values, RunsOf(blocks, identity))
    requires a == Aggregate(identity, |RunsOf(blocks, identity)|, StatsOf(values))
    ensures IsAggregate(a, blocks, identity)
  {
    hide RunsOf, ValuesOf;
    forall metric | metric in values ensures ComputeMetricStats(values[metric]) == Some(a.metrics[metric]) {
    }
    hide ComputeMetricStats;
  }

  // ----- Nothing is lost ------------------------------------------------------------------------------

  function TotalRuns<I(==)>(blocks: seq<Measured<I>>, identities: seq<I>): nat {
    if identities == [] then 0
    else TotalRuns(blocks, identities[..|identities| - 1]) + |RunsOf(blocks, identities[|identities| - 1])|
  }

  lemma LastIsNew<I>(identities: seq<I>, x: I)
    requires Distinct(identities) && identities != []
    ensures Distinct(identities[..|identities| - 1])
    ensures identities[|identities| - 1] !in identities[..|identities| - 1]
    ensures x in identities <==> x in identities[..|identities| - 1] || x == identities[|identities| - 1]
  {
    assert identities == identities[..|identities| - 1] + [identities[|identities| - 1]];
  }

  lemma {:induction false} TotalStep<I>(blocks: seq<Measured<I>>, b: Measured<I>, identities: seq<I>)
    requires Distinct(identities)
    ensures TotalRuns(blocks + [b], identities)
         == TotalRuns(blocks, identities) + if b.identity in identities then 1 else 0
  {
    hide RunsOf, Identities;
    if identities != [] {
      var n := |identities| - 1;
      LastIsNew(identities, b.identity);
      TotalStep(blocks, b, identities[..n]);
      GroupStep(blocks, b);
    }
  }

  lemma {:induction false} IdentitiesDistinct<I>(blocks: seq<Measured<I>>)
    ensures Distinct(Identities(blocks))
  {
    if blocks != [] {
      IdentitiesDistinct(blocks[..|blocks| - 1]);
    }
  }

  /** Every block is counted in exactly one group, and no group is listed twice. */
  lemma {:induction false} RunsConserved<I>(blocks: seq<Measured<I>>)
    ensures Distinct(Identities(blocks))
    ensures TotalRuns(blocks, Identities(blocks)) == |blocks|
  {
    if blocks != [] {
      var earlier, b := blocks[..|blocks| - 1], blocks[|blocks| - 1];
      RunsConserved(earlier);
      assert blocks == earlier + [b];
      IdentitiesDistinct(blocks);
      TotalStep(earlier, b, Identities(blocks));
      UnseenHasNoRuns(earlier, b.identity);
      if b.identity !in Identities(earlier) {
        assert Identities(blocks)[..|Identities(earlier)|] == Identities(earlier);
      }
    }
  }
}
