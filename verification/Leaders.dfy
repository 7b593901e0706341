/** Which sequencer clients a wallet asks first (`choose_leaders` in `lez/wallet/src/multi_client.rs`). */
module Leaders {
  import opened Prelude
  import opened ClientStatistics

  type Url = string
  type Table = map<Url, Stats>

  /** `None` for no measured client; a comparison of ratios that are not numbers panics. */
  datatype Choice = NoClients | Panics | Leaders(urls: seq<Url>)

  function ErrorRatio(errors: nat, size: nat): Float
  {
    if errors + size == 0 then NaN else Num(errors as real / (errors as real + size as real))
  }

  function RatioOf(t: Table, u: Url): Float
  {
    if u in t then ErrorRatio(t[u].errors, t[u].sampleSize) else NaN
  }

  function HeightOf(t: Table, u: Url): nat
  {
    if u in t then t[u].latestBlockId else 0
  }

  /** Float addition; not-a-number absorbs. */
  function AddFloat(a: Float, b: Float): Float
  {
    if a.Num? && b.Num? then Num(a.v + b.v) else NaN
  }

  function RatioSum(t: Table, us: seq<Url>): Float
  {
    if us == [] then Num(0.0) else AddFloat(RatioSum(t, us[..|us| - 1]), RatioOf(t, us[|us| - 1]))
  }

  function AverageRatio(t: Table, us: seq<Url>): Float
    requires us != []
  {
    var sum := RatioSum(t, us);
    if sum.NaN? then NaN else Num(sum.v / |us| as real)
  }

  /** `>` on floats: false when either is not a number. */
  predicate Exceeds(a: Float, b: Float)
  {
    a.Num? && b.Num? && a.v > b.v
  }

  // ---- what a good choice is ----

  function Measured(t: Table, clients: seq<Url>): seq<Url>
  {
    Filter(u => u in t, clients)
  }

  /** `height` is the greatest height of the clients. */
  ghost predicate IsMaxHeight(t: Table, us: seq<Url>, height: nat)
  {
    && (exists u :: u in us && HeightOf(t, u) == height)
    && forall u :: u in us ==> HeightOf(t, u) <= height
  }

  function MaxHeight(t: Table, us: seq<Url>): (height: nat)
    requires us != []
    ensures IsMaxHeight(t, us, height)
  {
    var last := HeightOf(t, us[|us| - 1]);
    assert us == us[..|us| - 1] + [us[|us| - 1]];
    if |us| == 1 then last
    else
      var before := MaxHeight(t, us[..|us| - 1]);
      if before > last then before else last
  }

  function AtHeight(t: Table, us: seq<Url>, height: nat): seq<Url>
  {
    Filter(u => HeightOf(t, u) == height, us)
  }

  /** The measured clients of the greatest height. */
  function Tip(t: Table, clients: seq<Url>): (tip: seq<Url>)
    ensures tip == [] <==> Measured(t, clients) == []
  {
    var measured := Measured(t, clients);
    if measured == [] then []
    else
      TipExists(t, measured, MaxHeight(t, measured));
      AtHeight(t, measured, MaxHeight(t, measured))
  }

  lemma {:induction false} TipExists(t: Table, us: seq<Url>, height: nat)
    requires IsMaxHeight(t, us, height)
    ensures AtHeight(t, us, height) != []
  {
    var u :| u in us && HeightOf(t, u) == height;
    FilterMember(u => HeightOf(t, u) == height, us, u);
    assert u in AtHeight(t, us, height);
  }

  function Reliable(t: Table, us: seq<Url>, average: Float): seq<Url>
  {
    Filter(u => !Exceeds(RatioOf(t, u), average), us)
  }

  /** No choice is made among several clients if one of them has no ratio. */
  predicate Comparable(t: Table, us: seq<Url>)
  {
    |us| <= 1 || forall i :: 0 <= i < |us| ==> RatioOf(t, us[i]).Num?
  }

  /** `chosen` are the first `limit` of `us` in some latency order. */
  ghost predicate BestOf(leq: (Url, Url) -> bool, us: seq<Url>, limit: nat, chosen: seq<Url>)
  {
    exists sorted :: Permutes(sorted, us) && Ordered(leq, sorted) && chosen == sorted[..Min(limit, |sorted|)]
  }

  // ---- the order of latencies ----

  /** The square root, and which sign a not-a-number computed from these statistics has. */
  datatype FloatOps = FloatOps(sqrt: real -> real, negative: Stats -> bool)

  /** Average latency plus standard deviation, as `total_cmp` sees it: not-a-number sorts below or
      above all numbers, depending on its sign. */
  datatype Score = LowNaN | Finite(v: real) | HighNaN

  function ScoreOf(o: FloatOps, t: Table, u: Url): Score
  {
    if u !in t then LowNaN
    else
      var s := t[u];
      if s.latencyAvg.Num? && s.latencyVar.Num? && s.latencyVar.v >= 0.0 then Finite(s.latencyAvg.v + o.sqrt(s.latencyVar.v))
      else if o.negative(s) then LowNaN
      else HighNaN
  }

  predicate ScoreLeq(a: Score, b: Score)
  {
    a.LowNaN? || b.HighNaN? || (a.Finite? && b.Finite? && a.v <= b.v)
  }

  function ByLatency(o: FloatOps, t: Table): (Url, Url) -> bool
  {
    (a: Url, b: Url) => ScoreLeq(ScoreOf(o, t, a), ScoreOf(o, t, b))
  }

  lemma {:induction false} ByLatencyIsPreorder(o: FloatOps, t: Table)
    ensures TotalPreorder(ByLatency(o, t))
  {
    hide ScoreOf;
  }

  // ---- the order of ratios ----

  function Key(r: Float): real
  {
    if r.Num? then r.v else 0.0
  }

  function ByRatio(t: Table): (Url, Url) -> bool
  {
    (a: Url, b: Url) => Key(RatioOf(t, a)) <= Key(RatioOf(t, b))
  }

  lemma {:induction false} ByRatioIsPreorder(t: Table)
    ensures TotalPreorder(ByRatio(t))
  {
  }

  // ---- averages ----

  function Times(n: nat, bound: real): real
  {
    n as real * bound
  }

  lemma {:induction false} OneMore(n: nat, bound: real)
    ensures Times(0, bound) == 0.0 && Times(n + 1, bound) == Times(n, bound) + bound
  {
    assert (n + 1) as real == n as real + 1.0;
  }

  /** Ratios all above a bound sum up to more than as many times the bound. */
  lemma {:induction false} SumAboveBound(t: Table, us: seq<Url>, bound: real)
    requires us != [] && forall i :: 0 <= i < |us| ==> RatioOf(t, us[i]).Num? && RatioOf(t, us[i]).v > bound
    ensures RatioSum(t, us).Num? && RatioSum(t, us).v > Times(|us|, bound)
  {
    hide RatioOf, Times;
    var rest := us[..|us| - 1];
    OneMore(|rest|, bound);
    if rest != [] {
      SumAboveBound(t, rest, bound);
    }
  }

  /** Someone is not above average. */
  lemma {:induction false} SomeoneIsReliable(t: Table, us: seq<Url>)
    requires us != [] && Comparable(t, us)
    ensures Reliable(t, us, AverageRatio(t, us)) != []
  {
    hide RatioOf;
    var average := AverageRatio(t, us);
    if forall i :: 0 <= i < |us| ==> Exceeds(RatioOf(t, us[i]), average) {
      SumAboveBound(t, us, average.v);
      assert false;
    }
    var i :| 0 <= i < |us| && !Exceeds(RatioOf(t, us[i]), average);
    FilterMember(u => !Exceeds(RatioOf(t, u), average), us, us[i]);
    assert us[i] in Reliable(t, us, average);
  }

  // ---- choosing ----

  method GreatestHeight(t: Table, us: seq<Url>) returns (height: nat)
    requires us != []
    ensures height == MaxHeight(t, us)
  {
    var best := us[0];
    for i := 0 to |us|
      invariant best in us
      invariant forall k :: 0 <= k < i ==> HeightOf(t, us[k]) <= HeightOf(t, best)
    {
      if HeightOf(t, us[i]) > HeightOf(t, best) {
        best := us[i];
      }
    }
    height := HeightOf(t, best);
    assert IsMaxHeight(t, us, height) && IsMaxHeight(t, us, MaxHeight(t, us));
  }

  /** Sorting by ratio and cutting before the first one above average keeps exactly those that are
      not above average. */
  method CutAtAverage(t: Table, us: seq<Url>) returns (kept: seq<Url>)
    requires us != [] && Comparable(t, us)
    ensures Permutes(kept, Reliable(t, us, AverageRatio(t, us)))
  {
    hide RatioOf, Sort, Ordered, Comparable;
    var sum := Num(0.0);
    for i := 0 to |us|
      invariant sum == RatioSum(t, us[..i])
    {
      assert us[..i + 1][..i] == us[..i];
      sum := AddFloat(sum, RatioOf(t, us[i]));
    }
    assert us[..|us|] == us;
    var average := if sum.NaN? then NaN else Num(sum.v / |us| as real);
    var sorted := Sort(ByRatio(t), us);
    ByRatioIsPreorder(t);
    SortOrders(ByRatio(t), us);
    PermutationLengths(sorted, us);
    var cut := 0;
    while cut < |sorted| && !Exceeds(RatioOf(t, sorted[cut]), average)
      invariant cut <= |sorted|
      invariant forall k :: 0 <= k < cut ==> !Exceeds(RatioOf(t, sorted[k]), average)
    {
      cut := cut + 1;
    }
    kept := sorted[..cut];
    RestExceeds(t, us, sorted, average, cut);
    FilterSplit(u => !Exceeds(RatioOf(t, u), average), sorted, cut);
    FilterPermutes(u => !Exceeds(RatioOf(t, u), average), sorted, us);
    assert Reliable(t, sorted, average) == kept;
  }

  lemma {:induction false} RestExceeds(t: Table, us: seq<Url>, sorted: seq<Url>, average: Float, cut: nat)
    requires Comparable(t, us) && Permutes(sorted, us) && Ordered(ByRatio(t), sorted)
    requires cut <= |sorted| && (cut < |sorted| ==> Exceeds(RatioOf(t, sorted[cut]), average))
    ensures forall k :: cut <= k < |sorted| ==> Exceeds(RatioOf(t, sorted[k]), average)
  {
    PermutationLengths(sorted, us);
    forall k | cut <= k < |sorted|
      ensures Exceeds(RatioOf(t, sorted[k]), average)
    {
      if k > cut {
        PermutationKeepsMembers(sorted, us, sorted[k]);
        assert ByRatio(t)(sorted[cut], sorted[k]);
      }
    }
  }

  /** `choose_leaders`. */
  method ChooseLeaders(o: FloatOps, t: Table, clients: seq<Url>, limit: nat) returns (r: Choice)
    ensures r.NoClients? <==> Measured(t, clients) == []
    ensures r.Panics? <==> Measured(t, clients) != [] && !Comparable(t, Tip(t, clients))
    ensures r.Leaders? ==> BestOf(ByLatency(o, t), Reliable(t, Tip(t, clients), AverageRatio(t, Tip(t, clients))), limit, r.urls)
  {
    ByLatencyIsPreorder(o, t);
    hide Measured, AtHeight, Comparable, Reliable, AverageRatio, MaxHeight, TotalPreorder, ByLatency;
    var measured := Measured(t, clients);
    if measured == [] {
      return NoClients;
    }
    var height := GreatestHeight(t, measured);
    var tip := AtHeight(t, measured, height);
    assert tip == Tip(t, clients);
    if !Comparable(t, tip) {
      return Panics;
    }
    var kept := CutAtAverage(t, tip);
    var sorted := Sort(ByLatency(o, t), kept);
    SortOrders(ByLatency(o, t), kept);
    r := Leaders(sorted[..Min(limit, |sorted|)]);
    assert Permutes(sorted, Reliable(t, tip, AverageRatio(t, tip)));
  }

  // ---- what the wallet relies on ----

  /** A measured client, no lower than any other, with at most the average error ratio of the
      clients of its height. */
  ghost predicate Qualified(t: Table, clients: seq<Url>, u: Url)
  {
    && u in clients && u in t
    && (forall v :: v in clients && v in t ==> t[v].latestBlockId <= t[u].latestBlockId)
    && Tip(t, clients) != [] && !Exceeds(RatioOf(t, u), AverageRatio(t, Tip(t, clients)))
  }

  lemma {:induction false} TipMembers(t: Table, clients: seq<Url>, u: Url)
    ensures u in Tip(t, clients)
            <==> u in clients && u in t && forall v :: v in clients && v in t ==> t[v].latestBlockId <= t[u].latestBlockId
  {
    var measured := Measured(t, clients);
    forall v
      ensures v in measured <==> v in clients && v in t
    {
      FilterMember(u => u in t, clients, v);
    }
    if measured != [] {
      var height := MaxHeight(t, measured);
      FilterMember(u => HeightOf(t, u) == height, measured, u);
    }
  }

  lemma {:induction false} ReliableIsQualified(t: Table, clients: seq<Url>, u: Url)
    requires Tip(t, clients) != []
    ensures u in Reliable(t, Tip(t, clients), AverageRatio(t, Tip(t, clients))) <==> Qualified(t, clients, u)
  {
    TipMembers(t, clients, u);
    hide Tip, AverageRatio, RatioOf;
    var average := AverageRatio(t, Tip(t, clients));
    FilterMember(u => !Exceeds(RatioOf(t, u), average), Tip(t, clients), u);
  }

  lemma {:induction false} PrefixIsBest(leq: (Url, Url) -> bool, sorted: seq<Url>, n: nat, u: Url, v: Url)
    requires Ordered(leq, sorted) && n <= |sorted| && u in sorted && u !in sorted[..n] && v in sorted[..n]
    ensures leq(v, u)
  {
    var i :| 0 <= i < n && sorted[i] == v;
    var j :| 0 <= j < |sorted| && sorted[j] == u;
  }

  /** Every chosen client qualifies, the choice is in order of average latency plus deviation, no
      qualified client that was passed over has a lower one than a chosen client, and with a positive
      limit someone is chosen; if fewer than the limit are, all who qualify are. */
  lemma {:induction false} ChosenAreBest(o: FloatOps, t: Table, clients: seq<Url>, limit: nat, chosen: seq<Url>)
    requires Tip(t, clients) != [] && Comparable(t, Tip(t, clients))
    requires BestOf(ByLatency(o, t), Reliable(t, Tip(t, clients), AverageRatio(t, Tip(t, clients))), limit, chosen)
    ensures forall u :: u in chosen ==> Qualified(t, clients, u)
    ensures |chosen| <= limit && (limit > 0 ==> chosen != [])
    ensures |chosen| < limit ==> forall u :: Qualified(t, clients, u) ==> u in chosen
    ensures forall i, j :: 0 <= i < j < |chosen| ==> ScoreLeq(ScoreOf(o, t, chosen[i]), ScoreOf(o, t, chosen[j]))
    ensures forall u, v :: Qualified(t, clients, u) && u !in chosen && v in chosen ==> ScoreLeq(ScoreOf(o, t, v), ScoreOf(o, t, u))
  {
    hide Tip, Reliable, AverageRatio, Qualified, Permutes, Comparable, ScoreOf, ScoreLeq;
    var leq := ByLatency(o, t);
    var reliable := Reliable(t, Tip(t, clients), AverageRatio(t, Tip(t, clients)));
    SomeoneIsReliable(t, Tip(t, clients));
    var sorted :| Permutes(sorted, reliable) && Ordered(leq, sorted) && chosen == sorted[..Min(limit, |sorted|)];
    PermutationLengths(sorted, reliable);
    forall u
      ensures u in sorted <==> Qualified(t, clients, u)
    {
      PermutationKeepsMembers(sorted, reliable, u);
      ReliableIsQualified(t, clients, u);
    }
    forall i, j | 0 <= i < j < |chosen|
      ensures ScoreLeq(ScoreOf(o, t, chosen[i]), ScoreOf(o, t, chosen[j]))
    {
      assert leq(sorted[i], sorted[j]);
    }
    forall u, v | Qualified(t, clients, u) && u !in chosen && v in chosen
      ensures ScoreLeq(ScoreOf(o, t, v), ScoreOf(o, t, u))
    {
      PrefixIsBest(leq, sorted, Min(limit, |sorted|), u, v);
    }
  }

  // ---- the tables a wallet builds ----

  /** Two clients of the greatest height, one without errors and samples, cannot be compared. */
  lemma {:induction false} UnmeasuredIsIncomparable(t: Table, clients: seq<Url>, u: Url, v: Url)
    requires u != v && u in Tip(t, clients) && v in Tip(t, clients) && RatioOf(t, u).NaN?
    ensures !Comparable(t, Tip(t, clients))
  {
    hide Tip, RatioOf;
    var tip := Tip(t, clients);
    var i :| 0 <= i < |tip| && tip[i] == u;
    var j :| 0 <= j < |tip| && tip[j] == v;
  }

  lemma {:induction false} UnmeasuredClientPanics()
    ensures var none, one := Stats(Num(0.0), Num(0.0), 0, 0, 0), Stats(Num(0.0), Num(0.0), 1, 0, 0);
            var t: Table := map["a" := none, "b" := one];
            !Comparable(t, Tip(t, ["a", "b"]))
  {
    var none, one := Stats(Num(0.0), Num(0.0), 0, 0, 0), Stats(Num(0.0), Num(0.0), 1, 0, 0);
    var t: Table := map["a" := none, "b" := one];
    assert ["a", "b"][0] == "a" && ["a", "b"][1] == "b";
    TipMembers(t, ["a", "b"], "a");
    TipMembers(t, ["a", "b"], "b");
    assert "a"[0] != "b"[0];
    UnmeasuredIsIncomparable(t, ["a", "b"], "a", "b");
  }

  /** What the wallet does to its table: a client without statistics is calibrated, a client with
      statistics has a batch applied. */
  datatype Upkeep = Calibrate(url: Url, measurements: seq<StatisticsUpdate>) | Update(url: Url, updates: seq<StatisticsUpdate>)

  function Kept(t: Table, e: Upkeep): Table
  {
    match e
    case Calibrate(u, measurements) =>
      if u in t || Calibration(measurements).None? then t else t[u := Calibration(measurements).value]
    case Update(u, updates) =>
      if u in t then t[u := Applied(t[u], updates)] else t
  }

  function TableAfter(t: Table, es: seq<Upkeep>): Table
  {
    if es == [] then t else Kept(TableAfter(t, es[..|es| - 1]), es[|es| - 1])
  }

  /** There is a sample, and its average and variance are numbers. */
  predicate Usable(s: Stats)
  {
    s.sampleSize > 0 && s.latencyAvg.Num? && s.latencyVar.Num?
  }

  ghost predicate AllSampled(t: Table)
  {
    forall u :: u in t ==> Usable(t[u])
  }

  lemma {:induction false} StaysUsable(s: Stats, updates: seq<StatisticsUpdate>)
    requires Usable(s)
    ensures Usable(Applied(s, updates))
  {
    hide Latencies, Sum, SumOfSquares, Failures, Highest;
  }

  /** Once every entry has a sample, every later table has one for every entry, no average turns into
      not-a-number, and any clients can be compared. */
  lemma {:induction false} SampledNeverPanics(t: Table, es: seq<Upkeep>, clients: seq<Url>)
    requires AllSampled(t)
    ensures AllSampled(TableAfter(t, es))
    ensures Comparable(TableAfter(t, es), Tip(TableAfter(t, es), clients))
  {
    hide Latencies, Failures, LastBlock, Mean, Variance, Tip, Applied;
    if es != [] {
      var init, e := es[..|es| - 1], es[|es| - 1];
      SampledNeverPanics(t, init, clients);
      if e.Update? && e.url in TableAfter(t, init) {
        StaysUsable(TableAfter(t, init)[e.url], e.updates);
      }
    }
    var after := TableAfter(t, es);
    var tip := Tip(after, clients);
    forall i | 0 <= i < |tip|
      ensures RatioOf(after, tip[i]).Num?
    {
      TipMembers(after, clients, tip[i]);
      assert tip[i] in tip;
    }
  }

  /** Everything measured of a client since the calibration that let it in. */
  function History(es: seq<Upkeep>, u: Url): seq<StatisticsUpdate>
  {
    if es == [] then []
    else
      var before := History(es[..|es| - 1], u);
      match es[|es| - 1]
      case Calibrate(v, measurements) => if v == u && before == [] && Latencies(measurements) != [] then measurements else before
      case Update(v, updates) => if v == u && before != [] then before + updates else before
  }

  lemma {:induction false} HistoryHasSample(es: seq<Upkeep>, u: Url)
    ensures History(es, u) != [] ==> Latencies(History(es, u)) != []
    ensures u in TableAfter(map[], es) <==> History(es, u) != []
  {
    hide Applied, Mean, Variance, LastBlock, Failures;
    if es != [] {
      var init := es[..|es| - 1];
      HistoryHasSample(init, u);
      if es[|es| - 1].Update? {
        LatenciesConcat(History(init, u), es[|es| - 1].updates);
      } else {
        UpdatesCounted(es[|es| - 1].measurements);
      }
    }
  }

  /** Starting from no table, each entry holds exactly the mean, variance, size and failures of
      everything measured of that client. */
  lemma {:induction false} TableDescribesHistory(es: seq<Upkeep>, u: Url)
    requires History(es, u) != [] && |History(es, u)| <= U64_MAX
    ensures u in TableAfter(map[], es)
    ensures Describes(TableAfter(map[], es)[u], Latencies(History(es, u)))
    ensures TableAfter(map[], es)[u].errors == Failures(History(es, u))
  {
    hide Latencies, Failures, Describes, Mean, Variance, LastBlock, Sum, SumOfSquares, CumulativeAvg, CumulativeVar, Highest;
    var init, e := es[..|es| - 1], es[|es| - 1];
    var before := History(init, u);
    HistoryHasSample(init, u);
    if before != [] {
      TableDescribesHistory(init, u);
      if e.Update? && e.url == u {
        BatchExtends(TableAfter(map[], init)[u], before, e.updates);
      }
    } else {
      CalibrationDescribes(e.measurements);
    }
  }

  lemma {:induction false} CalibrationDescribes(measurements: seq<StatisticsUpdate>)
    requires Latencies(measurements) != []
    ensures Calibration(measurements).Some? && Describes(Calibration(measurements).value, Latencies(measurements))
    ensures Calibration(measurements).value.errors == Failures(measurements)
  {
  }

  lemma {:induction false} BatchExtends(s: Stats, before: seq<StatisticsUpdate>, updates: seq<StatisticsUpdate>)
    requires Latencies(before) != [] && |before + updates| <= U64_MAX
    requires Describes(s, Latencies(before)) && s.errors == Failures(before)
    ensures Describes(Applied(s, updates), Latencies(before + updates))
    ensures Applied(s, updates).errors == Failures(before + updates)
  {
    hide Latencies, Failures, Describes, CumulativeAvg, CumulativeVar, Highest, Sum, SumOfSquares;
    UpdatesCounted(before);
    UpdatesCounted(updates);
    LatenciesConcat(before, updates);
    BatchIsExact(s, Latencies(before), updates);
  }

  lemma {:induction false} SquareIsNotNegative(x: real)
    ensures Squared(x) >= 0.0
  {
    if x < 0.0 {
      assert x * x == (-x) * (-x);
    }
  }

  lemma {:induction false} SpreadIsNotNegative(xs: seq<real>, m: real)
    ensures Spread(xs, m) >= 0.0
  {
    hide Squared;
    if xs != [] {
      SquareIsNotNegative(xs[|xs| - 1] - m);
      SpreadIsNotNegative(xs[..|xs| - 1], m);
    }
  }

  /** So clients are ranked by the mean plus deviation of everything measured of them, and judged by
      the share of failures in it. */
  lemma {:induction false} RankedByHistory(o: FloatOps, es: seq<Upkeep>, u: Url)
    requires History(es, u) != [] && |History(es, u)| <= U64_MAX
    ensures Latencies(History(es, u)) != []
    ensures var t, latencies := TableAfter(map[], es), Latencies(History(es, u));
            && ScoreOf(o, t, u) == Finite(Mean(latencies) + o.sqrt(Variance(latencies)))
            && RatioOf(t, u) == Num(Failures(History(es, u)) as real / |History(es, u)| as real)
  {
    hide Latencies, Failures, Spread, Sum, TableAfter, History;
    HistoryHasSample(es, u);
    TableDescribesHistory(es, u);
    UpdatesCounted(History(es, u));
    var latencies := Latencies(History(es, u));
    SpreadIsNotNegative(latencies, Mean(latencies));
    assert Variance(latencies) >= 0.0;
  }
}
