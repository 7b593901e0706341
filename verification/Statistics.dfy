/** Latency statistics of a sequencer client, kept without the sample
    (`lez/wallet/src/multi_client.rs`). Floats are reals, plus the not-a-number that zero over zero gives. */
module ClientStatistics {
  import opened Prelude

  datatype Float = Num(v: real) | NaN

  datatype StatisticsUpdate = Sampled(latency: real, newLatestBlockId: nat) | Failed

  datatype Stats = Stats(latencyAvg: Float, latencyVar: Float, sampleSize: nat, latestBlockId: nat, errors: nat)

  // ---- samples ----

  function Sum(xs: seq<real>): real
  {
    if xs == [] then 0.0 else Sum(xs[..|xs| - 1]) + xs[|xs| - 1]
  }

  function Squared(x: real): real
  {
    x * x
  }

  function SumOfSquares(xs: seq<real>): real
  {
    if xs == [] then 0.0 else SumOfSquares(xs[..|xs| - 1]) + Squared(xs[|xs| - 1])
  }

  /** Squared distances from `m`, summed. */
  function Spread(xs: seq<real>, m: real): real
  {
    if xs == [] then 0.0 else Spread(xs[..|xs| - 1], m) + Squared(xs[|xs| - 1] - m)
  }

  function Mean(xs: seq<real>): real
    requires xs != []
  {
    Sum(xs) / |xs| as real
  }

  function Variance(xs: seq<real>): real
    requires xs != []
  {
    Spread(xs, Mean(xs)) / |xs| as real
  }

  /** The successful measurements among the updates. */
  function Latencies(updates: seq<StatisticsUpdate>): seq<real>
  {
    if updates == [] then []
    else
      Latencies(updates[..|updates| - 1])
      + match updates[|updates| - 1] { case Sampled(latency, _) => [latency] case Failed => [] }
  }

  function Failures(updates: seq<StatisticsUpdate>): nat
  {
    if updates == [] then 0
    else Failures(updates[..|updates| - 1]) + if updates[|updates| - 1].Failed? then 1 else 0
  }

  /** The largest block id among the updates. */
  function Highest(updates: seq<StatisticsUpdate>): Option<nat>
  {
    if updates == [] then None
    else
      var before := Highest(updates[..|updates| - 1]);
      match updates[|updates| - 1]
      case Failed => before
      case Sampled(_, id) => if before.Some? && before.value > id then before else Some(id)
  }

  /** The block id of the last successful measurement, zero without one. */
  function LastBlock(updates: seq<StatisticsUpdate>): nat
  {
    if updates == [] then 0
    else
      match updates[|updates| - 1]
      case Failed => LastBlock(updates[..|updates| - 1])
      case Sampled(_, id) => id
  }

  lemma {:induction false} SumConcat(xs: seq<real>, ys: seq<real>)
    ensures Sum(xs + ys) == Sum(xs) + Sum(ys)
    ensures SumOfSquares(xs + ys) == SumOfSquares(xs) + SumOfSquares(ys)
    decreases |ys|
  {
    if ys == [] {
      assert xs + ys == xs;
    } else {
      SumConcat(xs, ys[..|ys| - 1]);
      assert (xs + ys)[..|xs + ys| - 1] == xs + ys[..|ys| - 1];
    }
  }

  lemma {:induction false} LatenciesConcat(us: seq<StatisticsUpdate>, vs: seq<StatisticsUpdate>)
    ensures Latencies(us + vs) == Latencies(us) + Latencies(vs)
    ensures Failures(us + vs) == Failures(us) + Failures(vs)
    decreases |vs|
  {
    if vs == [] {
      assert us + vs == us;
    } else {
      LatenciesConcat(us, vs[..|vs| - 1]);
      assert (us + vs)[..|us + vs| - 1] == us + vs[..|vs| - 1];
    }
  }

  lemma {:induction false} UpdatesCounted(us: seq<StatisticsUpdate>)
    ensures |Latencies(us)| + Failures(us) == |us|
  {
    if us != [] {
      UpdatesCounted(us[..|us| - 1]);
    }
  }

  /** `n` points with this sum and sum of squares have this spread around `m`. */
  predicate HasSpread(n: real, m: real, sum: real, squares: real, spread: real)
  {
    spread == squares - 2.0 * m * sum + n * (m * m)
  }

  lemma {:induction false} SpreadStep(spread: real, squares: real, sum: real, n: real, x: real, m: real)
    requires HasSpread(n, m, sum, squares, spread)
    ensures HasSpread(n + 1.0, m, sum + x, squares + Squared(x), spread + Squared(x - m))
  {
    assert (x - m) * (x - m) == x * x - 2.0 * m * x + m * m;
    assert 2.0 * m * (sum + x) == 2.0 * m * sum + 2.0 * m * x;
    assert (n + 1.0) * (m * m) == n * (m * m) + m * m;
  }

  lemma {:induction false} SpreadExpands(xs: seq<real>, m: real)
    ensures HasSpread(|xs| as real, m, Sum(xs), SumOfSquares(xs), Spread(xs, m))
  {
    hide Squared;
    if xs != [] {
      hide HasSpread;
      var rest := xs[..|xs| - 1];
      SpreadExpands(rest, m);
      SpreadStep(Spread(rest, m), SumOfSquares(rest), Sum(rest), |rest| as real, xs[|xs| - 1], m);
      assert |xs| as real == |rest| as real + 1.0;
    }
  }

  // ---- the incremental formulas ----

  /** `cumulative_avg`. With no sample at all the quotient is zero over zero. */
  function CumulativeAvg(avgOld: Float, latency: real, origSize: nat, modSize: nat): Float
  {
    if avgOld.NaN? || origSize + modSize == 0 then NaN
    else Num((avgOld.v * origSize as real + latency) / (origSize as real + modSize as real))
  }

  /** `cumulative_var`. */
  function CumulativeVar(
    avgOld: Float, avgNew: Float, var_: Float, latency: real, squares: real, origSize: nat, modSize: nat): Float
  {
    if avgOld.NaN? || avgNew.NaN? || var_.NaN? || origSize + modSize == 0 then NaN
    else
      Num((2.0 * latency * -avgNew.v
           + (modSize as real * (avgNew.v * avgNew.v)
              + (var_.v * origSize as real + (avgNew.v - avgOld.v) * (avgNew.v - avgOld.v) * origSize as real))
           + squares)
          / (origSize as real + modSize as real))
  }

  /** The statistics after a batch. */
  function Applied(s: Stats, updates: seq<StatisticsUpdate>): Stats
  {
    var latencies := Latencies(updates);
    var avg := CumulativeAvg(s.latencyAvg, Sum(latencies), s.sampleSize, |latencies|);
    Stats(
      avg,
      CumulativeVar(s.latencyAvg, avg, s.latencyVar, Sum(latencies), SumOfSquares(latencies), s.sampleSize, |latencies|),
      SaturatingAdd(s.sampleSize, |latencies|),
      if Highest(updates).Some? then Highest(updates).value else s.latestBlockId,
      SaturatingAdd(s.errors, Failures(updates)))
  }

  // ---- in place ----

  class Statistics {
    var latencyAvg: Float
    var latencyVar: Float
    var sampleSize: nat
    var latestBlockId: nat
    var errors: nat

    ghost function Value(): Stats
      reads this
    {
      Stats(latencyAvg, latencyVar, sampleSize, latestBlockId, errors)
    }

    constructor (s: Stats)
      ensures Value() == s
    {
      latencyAvg, latencyVar := s.latencyAvg, s.latencyVar;
      sampleSize, latestBlockId, errors := s.sampleSize, s.latestBlockId, s.errors;
    }

    /** `apply_updates`. A slice has at most `U64_MAX` elements. */
    method ApplyUpdates(updates: seq<StatisticsUpdate>)
      requires |updates| <= U64_MAX
      modifies this
      ensures Value() == Applied(old(Value()), updates)
    {
      var failureCount, latest, latency, squares, size := FromMetricUpdates(updates);
      errors := SaturatingAdd(errors, failureCount);
      if latest.Some? {
        latestBlockId := latest.value;
      }
      var avgOld := latencyAvg;
      var avgNew := CumulativeAvg(avgOld, latency, sampleSize, size);
      latencyVar := CumulativeVar(avgOld, avgNew, latencyVar, latency, squares, sampleSize, size);
      latencyAvg := avgNew;
      sampleSize := SaturatingAdd(sampleSize, size);
    }
  }

  /** `from_metric_updates`. */
  method FromMetricUpdates(updates: seq<StatisticsUpdate>)
    returns (failureCount: nat, latest: Option<nat>, latency: real, squares: real, size: nat)
    requires |updates| <= U64_MAX
    ensures failureCount == Failures(updates) && latest == Highest(updates)
    ensures latency == Sum(Latencies(updates)) && squares == SumOfSquares(Latencies(updates)) && size == |Latencies(updates)|
  {
    hide Squared;
    failureCount, latest, latency, squares := 0, None, 0.0, 0.0;
    for i := 0 to |updates|
      invariant failureCount == Failures(updates[..i]) && latest == Highest(updates[..i])
      invariant latency == Sum(Latencies(updates[..i])) && squares == SumOfSquares(Latencies(updates[..i]))
    {
      assert updates[..i + 1][..i] == updates[..i];
      ghost var before := Latencies(updates[..i]);
      UpdatesCounted(updates[..i]);
      match updates[i] {
        case Sampled(x, id) =>
          latest := if latest.Some? && latest.value > id then latest else Some(id);
          latency := latency + x;
          squares := Squared(x) + squares;
          assert (before + [x])[..|before|] == before;
        case Failed =>
          failureCount := SaturatingAdd(failureCount, 1);
          assert Latencies(updates[..i + 1]) == before;
      }
    }
    assert updates[..|updates|] == updates;
    UpdatesCounted(updates);
    size := SaturatingSub(|updates|, failureCount);
  }

  // ---- exactness ----

  /** The statistics are those of the sample. Of an empty sample nothing is known but that the
      values are numbers. */
  ghost predicate Describes(s: Stats, sample: seq<real>)
  {
    && s.sampleSize == |sample| && s.latencyAvg.Num? && s.latencyVar.Num?
    && (sample != [] ==> s.latencyAvg.v == Mean(sample) && s.latencyVar.v == Variance(sample))
  }

  /** The variance formula over reals: `n` old points with sum `n * m` and spread `n * v` around
      `m`, `k` new ones with sum `c` and sum of squares `q`. */
  lemma {:induction false} VarianceStep(n: real, m: real, v: real, old_q: real, k: real, c: real, q: real, m': real)
    requires n * v == old_q - 2.0 * m * (n * m) + n * (m * m)
    ensures 2.0 * c * -m' + (k * (m' * m') + (v * n + (m' - m) * (m' - m) * n)) + q
            == (old_q + q) - 2.0 * m' * (n * m + c) + (n + k) * (m' * m')
  {
    assert (m' - m) * (m' - m) * n == n * (m' * m') - 2.0 * m' * (n * m) + n * (m * m);
    assert 2.0 * m * (n * m) == 2.0 * (n * (m * m));
    assert v * n == old_q - n * (m * m);
    assert 2.0 * c * -m' == -(2.0 * m' * c);
    assert 2.0 * m' * (n * m + c) == 2.0 * m' * (n * m) + 2.0 * m' * c;
    assert (n + k) * (m' * m') == n * (m' * m') + k * (m' * m');
  }

  /** `n` points of mean `m` and variance `v` have this sum and this sum of squares. */
  predicate HasMoments(n: real, m: real, v: real, sum: real, squares: real)
  {
    n * m == sum && n * v == squares - 2.0 * m * (n * m) + n * (m * m)
  }

  lemma {:induction false} QuotientsScaleBack(n: real, m: real, v: real, sum: real, squares: real, spread: real)
    requires n > 0.0 && m == sum / n && v == spread / n && HasSpread(n, m, sum, squares, spread)
    ensures HasMoments(n, m, v, sum, squares)
  {
    assert n * m == sum;
    assert n * v == spread;
  }

  /** What a described sample's numbers say, in the form the formulas use. */
  lemma {:induction false} DescribedSums(s: Stats, sample: seq<real>)
    requires Describes(s, sample)
    ensures HasMoments(|sample| as real, s.latencyAvg.v, s.latencyVar.v, Sum(sample), SumOfSquares(sample))
  {
    if sample != [] {
      hide Sum, SumOfSquares, Spread, HasMoments, HasSpread;
      var m := Mean(sample);
      SpreadExpands(sample, m);
      QuotientsScaleBack(|sample| as real, m, Variance(sample), Sum(sample), SumOfSquares(sample), Spread(sample, m));
    }
  }

  lemma {:induction false} AvgExact(avg: real, v: real, sum: real, squares: real, n: nat, c: real, k: nat)
    requires HasMoments(n as real, avg, v, sum, squares) && n + k > 0
    ensures CumulativeAvg(Num(avg), c, n, k) == Num((sum + c) / (n + k) as real)
  {
    assert avg * n as real == n as real * avg;
    assert (n + k) as real == n as real + k as real;
  }

  lemma {:induction false} VarExact(
    avg: real, v: real, sum: real, squares: real, n: nat, c: real, q: real, k: nat, m': real, spread: real)
    requires HasMoments(n as real, avg, v, sum, squares) && n + k > 0
    requires HasSpread((n + k) as real, m', sum + c, squares + q, spread)
    ensures CumulativeVar(Num(avg), Num(m'), Num(v), c, q, n, k) == Num(spread / (n + k) as real)
  {
    assert (n + k) as real == n as real + k as real;
    VarianceStep(n as real, avg, v, squares, k as real, c, q, m');
  }

  /** After a batch the average and variance are exactly those of the sample with the new latencies
      added. */
  lemma {:induction false} BatchIsExact(s: Stats, sample: seq<real>, updates: seq<StatisticsUpdate>)
    requires Describes(s, sample) && sample + Latencies(updates) != [] && |sample| + |updates| <= U64_MAX
    ensures Describes(Applied(s, updates), sample + Latencies(updates))
  {
    hide Sum, SumOfSquares, Spread, Latencies, Failures, Highest, CumulativeAvg, CumulativeVar, HasMoments, HasSpread;
    var added := Latencies(updates);
    var all, n, k := sample + added, |sample|, |added|;
    UpdatesCounted(updates);
    DescribedSums(s, sample);
    SumConcat(sample, added);
    AvgExact(s.latencyAvg.v, s.latencyVar.v, Sum(sample), SumOfSquares(sample), n, Sum(added), k);
    assert |all| == n + k;
    SpreadExpands(all, Mean(all));
    VarExact(s.latencyAvg.v, s.latencyVar.v, Sum(sample), SumOfSquares(sample), n, Sum(added), SumOfSquares(added), k,
             Mean(all), Spread(all, Mean(all)));
  }

  // ---- batches ----

  function Run(s: Stats, batches: seq<seq<StatisticsUpdate>>): Stats
  {
    if batches == [] then s else Applied(Run(s, batches[..|batches| - 1]), batches[|batches| - 1])
  }

  function Joined(batches: seq<seq<StatisticsUpdate>>): seq<StatisticsUpdate>
  {
    if batches == [] then [] else Joined(batches[..|batches| - 1]) + batches[|batches| - 1]
  }

  /** Not-a-number is never left again. */
  lemma {:induction false} NaNIsSticky(s: Stats, batches: seq<seq<StatisticsUpdate>>)
    requires s.latencyAvg.NaN? && s.latencyVar.NaN?
    ensures Run(s, batches).latencyAvg.NaN? && Run(s, batches).latencyVar.NaN?
  {
    if batches != [] {
      NaNIsSticky(s, batches[..|batches| - 1]);
    }
  }

  lemma {:induction false} RunFrom(s: Stats, batches: seq<seq<StatisticsUpdate>>)
    requires batches != []
    ensures Run(s, batches) == Run(Applied(s, batches[0]), batches[1..])
    ensures Joined(batches) == batches[0] + Joined(batches[1..])
    decreases |batches|
  {
    var init, rest := batches[..|batches| - 1], batches[1..];
    if |batches| == 1 {
      assert rest == [] && init == [];
      assert Run(s, init) == s && Joined(init) == [];
      assert Joined(batches) == [] + batches[0];
    } else {
      RunFrom(s, init);
      assert rest[..|rest| - 1] == init[1..];
      assert (batches[0] + Joined(init[1..])) + batches[|batches| - 1] == batches[0] + (Joined(init[1..]) + batches[|batches| - 1]);
    }
  }

  /** Over any run that never leaves the sample empty, the statistics are those of everything
      measured. */
  lemma {:induction false} RunIsExact(s: Stats, sample: seq<real>, batches: seq<seq<StatisticsUpdate>>)
    requires Describes(s, sample) && |sample| + |Joined(batches)| <= U64_MAX
    requires sample != [] || (batches != [] && Latencies(batches[0]) != [])
    ensures Describes(Run(s, batches), sample + Latencies(Joined(batches)))
    decreases |batches|
  {
    if batches == [] {
      assert sample + Latencies(Joined(batches)) == sample;
    } else {
      hide Latencies, Failures, Joined, Run, Applied, Mean, Variance;
      RunFrom(s, batches);
      BatchIsExact(s, sample, batches[0]);
      UpdatesCounted(batches[0]);
      var sample' := sample + Latencies(batches[0]);
      RunIsExact(Applied(s, batches[0]), sample', batches[1..]);
      LatenciesConcat(batches[0], Joined(batches[1..]));
      assert sample' + Latencies(Joined(batches[1..])) == sample + Latencies(Joined(batches));
    }
  }

  /** Errors and sample size do not depend on the batches, saturating or not. */
  lemma {:induction false} CountsIgnoreBatches(s: Stats, batches: seq<seq<StatisticsUpdate>>)
    requires s.errors <= U64_MAX && s.sampleSize <= U64_MAX
    ensures Run(s, batches).errors == SaturatingAdd(s.errors, Failures(Joined(batches)))
    ensures Run(s, batches).sampleSize == SaturatingAdd(s.sampleSize, |Latencies(Joined(batches))|)
  {
    if batches != [] {
      CountsIgnoreBatches(s, batches[..|batches| - 1]);
      LatenciesConcat(Joined(batches[..|batches| - 1]), batches[|batches| - 1]);
    }
  }

  /** Average, variance, sample size and errors agree. */
  predicate SameStatistics(s: Stats, t: Stats)
  {
    s.latencyAvg == t.latencyAvg && s.latencyVar == t.latencyVar && s.sampleSize == t.sampleSize && s.errors == t.errors
  }

  /** Splitting updates into batches changes nothing, except that a first batch without a success
      on an empty sample ruins the average for good although later batches have successes. */
  lemma {:induction false} BatchesMatterIff(s: Stats, sample: seq<real>, batches: seq<seq<StatisticsUpdate>>)
    requires Describes(s, sample) && s.errors <= U64_MAX && batches != [] && |sample| + |Joined(batches)| <= U64_MAX
    ensures SameStatistics(Run(s, batches), Applied(s, Joined(batches)))
            <==> sample != [] || Latencies(batches[0]) != [] || Latencies(Joined(batches)) == []
  {
    var all := Joined(batches);
    UpdatesCounted(all);
    CountsIgnoreBatches(s, batches);
    if sample != [] || Latencies(batches[0]) != [] {
      RunFrom(s, batches);
      LatenciesConcat(batches[0], Joined(batches[1..]));
      RunIsExact(s, sample, batches);
      BatchIsExact(s, sample, all);
    } else {
      RunFrom(s, batches);
      LatenciesConcat(batches[0], Joined(batches[1..]));
      NaNIsSticky(Applied(s, batches[0]), batches[1..]);
      if Latencies(all) != [] {
        BatchIsExact(s, sample, all);
      }
    }
  }

  lemma {:induction false} ExampleBatches()
    ensures Latencies([Failed]) == [] && Latencies([Failed] + [Sampled(1.0, 1)]) == [1.0]
    ensures Joined([[Failed], [Sampled(1.0, 1)]]) == [Failed] + [Sampled(1.0, 1)]
    ensures Mean([1.0]) == 1.0
  {
    var first, second: seq<StatisticsUpdate> := [Failed], [Sampled(1.0, 1)];
    assert first[..0] == [] && second[..0] == [];
    assert Latencies(first) == [] && Latencies(second) == [1.0];
    LatenciesConcat(first, second);
    assert [first, second][..1] == [first] && [first][..0] == [];
    assert Joined([first]) == first;
    assert [1.0][..0] == [];
    assert Sum([1.0]) == 1.0;
  }

  /** Such a first batch, on an empty sample. */
  lemma {:induction false} FailedFirstBatchRuins(s: Stats)
    requires Describes(s, [])
    ensures var batches := [[Failed], [Sampled(1.0, 1)]];
            Run(s, batches).latencyAvg.NaN? && Applied(s, Joined(batches)).latencyAvg == Num(1.0)
  {
    hide Latencies, Joined, Run, Sum, SumOfSquares, Mean, Variance, Failures, Highest;
    var batches := [[Failed], [Sampled(1.0, 1)]];
    ExampleBatches();
    RunFrom(s, batches);
    assert Applied(s, [Failed]).latencyAvg.NaN? && Applied(s, [Failed]).latencyVar.NaN?;
    hide Applied;
    NaNIsSticky(Applied(s, [Failed]), batches[1..]);
    assert [] + [1.0] == [1.0];
    BatchIsExact(s, [], Joined(batches));
  }

  /** Batch `k` is the last one with a success. */
  ghost predicate LastSuccessful(batches: seq<seq<StatisticsUpdate>>, k: nat)
  {
    && k < |batches| && Highest(batches[k]).Some?
    && forall i :: k < i < |batches| ==> Highest(batches[i]).None?
  }

  /** The latest block id does depend on the batches: after every run it is the highest id of the last
      batch with a success, even if an earlier batch had a higher one, and the starting id without
      such a batch. */
  lemma {:induction false} LatestBlockIsOfLastBatch(s: Stats, batches: seq<seq<StatisticsUpdate>>)
    ensures forall k: nat :: LastSuccessful(batches, k) ==> Run(s, batches).latestBlockId == Highest(batches[k]).value
    ensures (exists k: nat :: LastSuccessful(batches, k)) || Run(s, batches).latestBlockId == s.latestBlockId
    ensures (forall i :: 0 <= i < |batches| ==> Highest(batches[i]).None?) ==> Run(s, batches).latestBlockId == s.latestBlockId
    decreases |batches|
  {
    if batches != [] {
      hide Highest, CumulativeAvg, CumulativeVar, Latencies, Failures, Sum, SumOfSquares;
      var n := |batches| - 1;
      var init := batches[..n];
      LatestBlockIsOfLastBatch(s, init);
      if Highest(batches[n]).Some? {
        assert LastSuccessful(batches, n);
      } else {
        forall k: nat
          ensures LastSuccessful(batches, k) <==> LastSuccessful(init, k)
        {
          assert k < n ==> init[k] == batches[k];
        }
      }
    }
  }

  // ---- calibration ----

  /** The statistics a calibration starts a client with: those of its successful measurements, if any. */
  function Calibration(measurements: seq<StatisticsUpdate>): Option<Stats>
  {
    var latencies := Latencies(measurements);
    if latencies == [] then None
    else
      Some(Stats(Num(Mean(latencies)), Num(Variance(latencies)), |latencies|, LastBlock(measurements), Failures(measurements)))
  }

  /** `calibrate_client` on the measurements it makes, each with a block id unless it failed. No
      statistics come of it when every measurement failed, so the sample is never empty. */
  method CalibrateClient(measurements: seq<StatisticsUpdate>) returns (r: Option<Stats>)
    requires |measurements| <= U64_MAX
    ensures r == Calibration(measurements)
    ensures r.Some? <==> Latencies(measurements) != []
    ensures r.Some? ==> r.value.sampleSize > 0 && Describes(r.value, Latencies(measurements))
                        && r.value.errors == Failures(measurements) && r.value.latestBlockId == LastBlock(measurements)
  {
    var latencies: seq<real>, latest, errors := [], 0, 0;
    for i := 0 to |measurements|
      invariant latencies == Latencies(measurements[..i]) && errors == Failures(measurements[..i])
      invariant latest == LastBlock(measurements[..i])
    {
      assert measurements[..i + 1][..i] == measurements[..i];
      UpdatesCounted(measurements[..i]);
      match measurements[i] {
        case Failed =>
          errors := SaturatingAdd(errors, 1);
        case Sampled(latency, id) =>
          latest := id;
          latencies := latencies + [latency];
      }
    }
    assert measurements[..|measurements|] == measurements;
    if latencies == [] {
      return None;
    }
    var avg, variance := MeanAndVariance(latencies);
    r := Some(Stats(Num(avg), Num(variance), |latencies|, latest, errors));
  }

  method MeanAndVariance(latencies: seq<real>) returns (avg: real, variance: real)
    requires latencies != []
    ensures avg == Mean(latencies) && variance == Variance(latencies)
  {
    var sum := 0.0;
    for i := 0 to |latencies|
      invariant sum == Sum(latencies[..i])
    {
      assert latencies[..i + 1][..i] == latencies[..i];
      sum := sum + latencies[i];
    }
    assert latencies[..|latencies|] == latencies;
    avg := sum / |latencies| as real;
    var spread := SpreadAround(latencies, avg);
    variance := spread / |latencies| as real;
  }

  method SpreadAround(latencies: seq<real>, avg: real) returns (spread: real)
    ensures spread == Spread(latencies, avg)
  {
    hide Squared;
    spread := 0.0;
    for i := 0 to |latencies|
      invariant spread == Spread(latencies[..i], avg)
    {
      assert latencies[..i + 1][..i] == latencies[..i];
      spread := Squared(latencies[i] - avg) + spread;
    }
    assert latencies[..|latencies|] == latencies;
  }
}
