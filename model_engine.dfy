/**
 * `ModelEngine` of server_src/model_engine.py without its Keras network:
 * z-score window codec, UTC hour/weekday features, the stride-sampled
 * training-set construction of `train` and the arithmetic of `predict`.
 *
 * `np.std` of a window is the parameter `stdOf`; the mean is computed
 * exactly. Keras `fit` and inference are the parameters `fit` and `infer`.
 */
module ModelEngine {
  import opened Wrappers
  import opened Config

  /** Step between successive training windows in `train`. */
  const SAMPLE_STRIDE: nat := 20
  /** Extra ticks `train` demands beyond one window and one horizon. */
  const MARGIN: nat := 100
  const STD_FLOOR: real := 0.000001

  function Sum(xs: seq<real>): real
  {
    if xs == [] then 0.0 else Sum(xs[..|xs| - 1]) + xs[|xs| - 1]
  }

  /** `np.mean`, exact over the reals. */
  function Mean(xs: seq<real>): real
    requires |xs| > 0
  {
    Sum(xs) / (|xs| as real)
  }

  /** The standard deviation after the floor: never below 1e-6, else unchanged. */
  function EffectiveStd(raw: real): (s: real)
    ensures s >= STD_FLOOR > 0.0
    ensures raw >= STD_FLOOR ==> s == raw
  {
    if raw < STD_FLOOR then STD_FLOOR else raw
  }

  /** `(window - mean) / std`, element-wise. */
  function Normalize(xs: seq<real>, mean: real, std: real): (zs: seq<real>)
    requires std > 0.0
    ensures |zs| == |xs|
  {
    seq(|xs|, k requires 0 <= k < |xs| => (xs[k] - mean) / std)
  }

  /** `(z * std) + mean`, element-wise. */
  function Denormalize(zs: seq<real>, mean: real, std: real): (xs: seq<real>)
    ensures |xs| == |zs|
  {
    seq(|zs|, k requires 0 <= k < |zs| => zs[k] * std + mean)
  }

  /** `prices - current_price`, element-wise. */
  function Relative(ps: seq<real>, current: real): (rs: seq<real>)
    ensures |rs| == |ps|
  {
    seq(|ps|, k requires 0 <= k < |ps| => ps[k] - current)
  }

  lemma DenormalizeInvertsNormalize(xs: seq<real>, mean: real, std: real)
    requires std > 0.0
    ensures Denormalize(Normalize(xs, mean, std), mean, std) == xs
  {
    forall k | 0 <= k < |xs| ensures Denormalize(Normalize(xs, mean, std), mean, std)[k] == xs[k] {
      var z := (xs[k] - mean) / std;
      assert z * std == xs[k] - mean;
    }
  }

  lemma NormalizeInvertsDenormalize(zs: seq<real>, mean: real, std: real)
    requires std > 0.0
    ensures Normalize(Denormalize(zs, mean, std), mean, std) == zs
  {
    forall k | 0 <= k < |zs| ensures Normalize(Denormalize(zs, mean, std), mean, std)[k] == zs[k] {
      assert (zs[k] * std + mean - mean) / std == zs[k];
    }
  }

  lemma {:induction false} SumNormalize(xs: seq<real>, mean: real, std: real)
    requires std > 0.0
    ensures Sum(Normalize(xs, mean, std)) == (Sum(xs) - (|xs| as real) * mean) / std
  {
    if xs != [] {
      var n := |xs|;
      var init := xs[..n - 1];
      assert Normalize(xs, mean, std)[..n - 1] == Normalize(init, mean, std);
      SumNormalize(init, mean, std);
      var a, b := Sum(init) - ((n - 1) as real) * mean, xs[n - 1] - mean;
      assert a / std + b / std == (a + b) / std;
    }
  }

  /** A window normalized with its own mean sums to zero: its mean is 0. */
  lemma NormalizedMeanIsZero(xs: seq<real>, std: real)
    requires |xs| > 0 && std > 0.0
    ensures Sum(Normalize(xs, Mean(xs), std)) == 0.0
  {
    SumNormalize(xs, Mean(xs), std);
    var n := |xs| as real;
    assert n * (Sum(xs) / n) == Sum(xs);
  }

  // ---- time features ----

  const SECONDS_PER_DAY: int := 86400
  const SECONDS_PER_HOUR: int := 3600
  /** 0001-01-01T00:00:00Z and 10000-01-01T00:00:00Z: the years `datetime` can hold. */
  const MIN_TIMESTAMP: int := -62135596800
  const MAX_TIMESTAMP: int := 253402300800

  /** `[hour, weekday]` of one instant. */
  datatype TimeFeat = TimeFeat(hour: int, weekday: int)

  /** Weekday (Monday = 0) of a day counted from 1970-01-01, a Thursday. */
  function CivilWeekday(day: int): (wd: int)
    ensures 0 <= wd < 7
  {
    (day + 3) % 7
  }

  /** Weekend days count as Friday. */
  function ClampWeekday(wd: int): int
  {
    if wd > 4 then 4 else wd
  }

  /**
   * `datetime.utcfromtimestamp(ts)` reduced to its hour and clamped
   * weekday; `None` when the instant lies outside years 1 to 9999, where
   * Python raises.
   */
  function TimeFeatures(ts: real): Option<TimeFeat>
  {
    var secs := ts.Floor;
    if secs < MIN_TIMESTAMP || secs >= MAX_TIMESTAMP then None
    else Some(TimeFeat((secs % SECONDS_PER_DAY) / SECONDS_PER_HOUR,
                       ClampWeekday(CivilWeekday(secs / SECONDS_PER_DAY))))
  }

  /**
   * Features exist exactly for the instants `datetime` accepts; the hour is
   * in 0..23 and the weekday in 0..4, the calendar weekday on Monday to
   * Friday and 4 on Saturday and Sunday.
   */
  lemma TimeFeaturesSpec(ts: real)
    ensures TimeFeatures(ts).Some? <==> MIN_TIMESTAMP <= ts.Floor < MAX_TIMESTAMP
    ensures TimeFeatures(ts).Some? ==>
              var f, wd := TimeFeatures(ts).value, CivilWeekday(ts.Floor / SECONDS_PER_DAY);
              && 0 <= f.hour < 24 && 0 <= f.weekday <= 4
              && f.hour * SECONDS_PER_HOUR <= ts.Floor % SECONDS_PER_DAY < (f.hour + 1) * SECONDS_PER_HOUR
              && (wd <= 4 ==> f.weekday == wd)
              && (wd >= 5 ==> f.weekday == 4)
  {
  }

  /** `_extract_time_features(timestamps)`; `None` when one instant makes it raise. */
  method ExtractTimeFeatures(timestamps: seq<real>) returns (r: Option<seq<TimeFeat>>)
    ensures r.Some? <==> forall k :: 0 <= k < |timestamps| ==> TimeFeatures(timestamps[k]).Some?
    ensures r.Some? ==> |r.value| == |timestamps|
    ensures r.Some? ==> forall k :: 0 <= k < |timestamps| ==> r.value[k] == TimeFeatures(timestamps[k]).value
  {
    var features: seq<TimeFeat> := [];
    for i := 0 to |timestamps|
      invariant |features| == i
      invariant forall k :: 0 <= k < i ==> TimeFeatures(timestamps[k]).Some?
      invariant forall k :: 0 <= k < i ==> features[k] == TimeFeatures(timestamps[k]).value
    {
      var f := TimeFeatures(timestamps[i]);
      if f.None? {
        return None;
      }
      features := features + [f.value];
    }
    return Some(features);
  }

  // ---- training-set construction ----

  /** Python's `xs[start:stop:step]` for non-negative bounds. */
  function StepSlice(xs: seq<real>, start: nat, stop: nat, step: nat): seq<real>
    requires step > 0
    decreases stop - start
  {
    if start >= stop || start >= |xs| then [] else [xs[start]] + StepSlice(xs, start + step, stop, step)
  }

  lemma {:induction false} StepSliceInBounds(xs: seq<real>, start: nat, n: nat)
    requires start + PREDICT_STRIDE * n <= |xs|
    ensures |StepSlice(xs, start, start + PREDICT_STRIDE * n, PREDICT_STRIDE)| == n
    ensures forall k :: 0 <= k < n ==>
              StepSlice(xs, start, start + PREDICT_STRIDE * n, PREDICT_STRIDE)[k] == xs[start + PREDICT_STRIDE * k]
    decreases n
  {
    if n > 0 {
      var next := start + PREDICT_STRIDE;
      StepSliceInBounds(xs, next, n - 1);
      assert next + PREDICT_STRIDE * (n - 1) == start + PREDICT_STRIDE * n;
      var r := StepSlice(xs, start, start + PREDICT_STRIDE * n, PREDICT_STRIDE);
      assert r == [xs[start]] + StepSlice(xs, next, next + PREDICT_STRIDE * (n - 1), PREDICT_STRIDE);
      forall k | 0 < k < n ensures r[k] == xs[start + PREDICT_STRIDE * k] {
        assert next + PREDICT_STRIDE * (k - 1) == start + PREDICT_STRIDE * k;
      }
    }
  }

  /** The future subsample of the sample starting at `i`. */
  function Future(prices: seq<real>, i: nat): seq<real>
  {
    StepSlice(prices, i + INPUT_WINDOW, i + INPUT_WINDOW + TOTAL_PREDICT_TICKS, PREDICT_STRIDE)
  }

  /** A horizon that fits gives exactly `OUTPUT_STEPS` subsampled ticks, 100 apart. */
  lemma FutureExact(prices: seq<real>, i: nat)
    requires i + INPUT_WINDOW + TOTAL_PREDICT_TICKS <= |prices|
    ensures |Future(prices, i)| == OUTPUT_STEPS == 20
    ensures forall k :: 0 <= k < OUTPUT_STEPS ==>
              Future(prices, i)[k] == prices[i + INPUT_WINDOW + PREDICT_STRIDE * k]
  {
    StepSliceInBounds(prices, i + INPUT_WINDOW, OUTPUT_STEPS);
  }

  /** One training sample: normalized window, features of its last instant, normalized target. */
  datatype Sample = Sample(input: seq<real>, time: TimeFeat, target: seq<real>)

  /** Exceptions the engine can raise, out of Python's and Keras' code. */
  datatype EngineError =
    | TimestampMissing    // IndexError: too few timestamps for a window
    | TimestampOutOfRange // utcfromtimestamp: year out of range
    | FitFailed           // Keras fit raised
    | ReshapeMismatch     // reshape of a window longer than INPUT_WINDOW
    | InferenceFailed     // Keras inference raised

  datatype Outcome<+T> = Done(value: T) | Raised(error: EngineError)

  /** Mean and floored standard deviation of the window starting at `i`. */
  function WindowStats(prices: seq<real>, i: nat, stdOf: seq<real> -> real): (ms: (real, real))
    requires i + INPUT_WINDOW <= |prices|
    ensures ms.1 >= STD_FLOOR
  {
    var window := prices[i..i + INPUT_WINDOW];
    (Mean(window), EffectiveStd(stdOf(window)))
  }

  /** The body of `train`'s loop for start `i`. */
  function SampleAt(prices: seq<real>, timestamps: seq<real>, stdOf: seq<real> -> real, i: nat): Outcome<Sample>
    requires i + INPUT_WINDOW + TOTAL_PREDICT_TICKS <= |prices|
  {
    var (mean, std) := WindowStats(prices, i, stdOf);
    var input := Normalize(prices[i..i + INPUT_WINDOW], mean, std);
    if i + INPUT_WINDOW - 1 >= |timestamps| then Raised(TimestampMissing)
    else match TimeFeatures(timestamps[i + INPUT_WINDOW - 1])
      case None => Raised(TimestampOutOfRange)
      case Some(tf) => Done(Sample(input, tf, Normalize(Future(prices, i), mean, std)))
  }

  /**
   * A sample's input is the window `prices[i..i+W)` normalized, its target
   * the 20 future ticks normalized with the window's statistics (not the
   * future's own), so that denormalizing the target with them gives back
   * the future prices; its features come from `timestamps[i+W-1]`.
   */
  lemma SampleAtSpec(prices: seq<real>, timestamps: seq<real>, stdOf: seq<real> -> real, i: nat)
    requires i + INPUT_WINDOW + TOTAL_PREDICT_TICKS <= |prices|
    ensures SampleAt(prices, timestamps, stdOf, i).Done? <==>
              i + INPUT_WINDOW - 1 < |timestamps| && TimeFeatures(timestamps[i + INPUT_WINDOW - 1]).Some?
    ensures SampleAt(prices, timestamps, stdOf, i).Done? ==>
              var s, (mean, std) := SampleAt(prices, timestamps, stdOf, i).value, WindowStats(prices, i, stdOf);
              && |s.input| == INPUT_WINDOW && |s.target| == OUTPUT_STEPS
              && s.time == TimeFeatures(timestamps[i + INPUT_WINDOW - 1]).value
              && (forall k :: 0 <= k < INPUT_WINDOW ==> s.input[k] == (prices[i + k] - mean) / std)
              && (forall k :: 0 <= k < OUTPUT_STEPS ==>
                    s.target[k] == (prices[i + INPUT_WINDOW + PREDICT_STRIDE * k] - mean) / std)
              && Denormalize(s.target, mean, std) == Future(prices, i)
  {
    FutureExact(prices, i);
    var (mean, std) := WindowStats(prices, i, stdOf);
    DenormalizeInvertsNormalize(Future(prices, i), mean, std);
  }

  /** `len(range(0, limit, 20))`: the number of training samples. */
  function SampleCount(limit: nat): nat
  {
    (limit + SAMPLE_STRIDE - 1) / SAMPLE_STRIDE
  }

  /** The starts of `range(0, limit, 20)` are exactly the multiples of 20 below `limit`. */
  lemma SampleStarts(limit: nat, k: nat)
    ensures k < SampleCount(limit) <==> SAMPLE_STRIDE * k < limit
  {
  }

  /** The loop body's outcome for every start of `range(0, limit, 20)`, in order. */
  function Outcomes(prices: seq<real>, timestamps: seq<real>, stdOf: seq<real> -> real, limit: nat): (outs: seq<Outcome<Sample>>)
    requires limit + INPUT_WINDOW + TOTAL_PREDICT_TICKS == |prices|
    ensures |outs| == SampleCount(limit)
  {
    seq(SampleCount(limit), k requires 0 <= k < SampleCount(limit) =>
      SampleAt(prices, timestamps, stdOf, SAMPLE_STRIDE * k))
  }

  /** Running the loop over per-start outcomes: all samples, or the first exception. */
  function Collect(outs: seq<Outcome<Sample>>): (r: Outcome<seq<Sample>>)
  {
    if outs == [] then Done([])
    else match outs[0]
      case Raised(e) => Raised(e)
      case Done(s) => Prepend([s], Collect(outs[1..]))
  }

  /** The outcome of the remaining loop iterations, after the samples already built. */
  function Prepend(samples: seq<Sample>, o: Outcome<seq<Sample>>): Outcome<seq<Sample>>
  {
    match o
    case Raised(e) => Raised(e)
    case Done(rest) => Done(samples + rest)
  }

  lemma PrependTwice(samples: seq<Sample>, s: Sample, o: Outcome<seq<Sample>>)
    ensures Prepend(samples, Prepend([s], o)) == Prepend(samples + [s], o)
  {
    if o.Done? {
      AppendAssoc(samples, [s], o.value);
    }
  }

  /** One completed iteration of the loop: its sample joins those already built. */
  lemma CollectStep(outs: seq<Outcome<Sample>>, samples: seq<Sample>, sample: Sample)
    requires |samples| < |outs| && outs[|samples|] == Done(sample)
    requires Collect(outs) == Prepend(samples, Collect(outs[|samples|..]))
    ensures Collect(outs) == Prepend(samples + [sample], Collect(outs[|samples| + 1..]))
  {
    var rest := outs[|samples|..];
    assert rest[0] == Done(sample) && rest[1..] == outs[|samples| + 1..];
    PrependTwice(samples, sample, Collect(outs[|samples| + 1..]));
  }

  /**
   * The loop completes exactly when every iteration does, and then yields
   * one sample per start, in the order of the starts.
   */
  lemma {:induction false} CollectSpec(outs: seq<Outcome<Sample>>)
    ensures Collect(outs).Done? <==> forall k :: 0 <= k < |outs| ==> outs[k].Done?
    ensures Collect(outs).Done? ==>
              |Collect(outs).value| == |outs|
              && forall k :: 0 <= k < |outs| ==> outs[k] == Done(Collect(outs).value[k])
  {
    if outs != [] {
      CollectSpec(outs[1..]);
      assert forall k :: 1 <= k < |outs| ==> outs[k] == outs[1..][k - 1];
    }
  }

  /** An iteration that raises ends the loop with its exception. */
  lemma CollectRaised(outs: seq<Outcome<Sample>>, samples: seq<Sample>)
    requires |samples| < |outs| && outs[|samples|].Raised?
    requires Collect(outs) == Prepend(samples, Collect(outs[|samples|..]))
    ensures Collect(outs) == Raised(outs[|samples|].error)
  {
    assert outs[|samples|..][0] == outs[|samples|];
  }

  /** A loop that ran through every start has built exactly `samples`. */
  lemma CollectDone(outs: seq<Outcome<Sample>>, samples: seq<Sample>)
    requires |samples| == |outs|
    requires Collect(outs) == Prepend(samples, Collect(outs[|samples|..]))
    ensures Collect(outs) == Done(samples)
  {
    assert outs[|samples|..] == [];
    assert samples + [] == samples;
  }

  /**
   * One iteration of `train`'s loop: the normalized window, its time
   * features and its target. This is `SampleAt` computed statement by
   * statement, as the loop body does.
   */
  method BuildSample(prices: seq<real>, timestamps: seq<real>, stdOf: seq<real> -> real, i: nat)
    returns (o: Outcome<Sample>)
    requires i + INPUT_WINDOW + TOTAL_PREDICT_TICKS <= |prices|
    ensures o == SampleAt(prices, timestamps, stdOf, i)
  {
    var (mean, std) := WindowStats(prices, i, stdOf);
    var input := Normalize(prices[i..i + INPUT_WINDOW], mean, std);
    if i + INPUT_WINDOW - 1 >= |timestamps| {
      return Raised(TimestampMissing);
    }
    var tf := TimeFeatures(timestamps[i + INPUT_WINDOW - 1]);
    if tf.None? {
      return Raised(TimestampOutOfRange);
    }
    var target := Normalize(Future(prices, i), mean, std);
    o := Done(Sample(input, tf.value, target));
  }

  /** What `train` returns: the "数据不足" error, `val_loss`, or an exception. */
  datatype TrainResult = Insufficient | Trained(valLoss: real) | TrainRaised(error: EngineError)

  /** `train(prices_list, timestamps_list)`, with Keras `fit` as `fit` (`None` when it raises). */
  function TrainSpec(prices: seq<real>, timestamps: seq<real>, stdOf: seq<real> -> real,
                     fit: seq<Sample> -> Option<real>): TrainResult
  {
    if |prices| < INPUT_WINDOW + TOTAL_PREDICT_TICKS + MARGIN then Insufficient
    else
      var limit := |prices| - INPUT_WINDOW - TOTAL_PREDICT_TICKS;
      match Collect(Outcomes(prices, timestamps, stdOf, limit))
      case Raised(e) => TrainRaised(e)
      case Done(samples) =>
        match fit(samples)
        case None => TrainRaised(FitFailed)
        case Some(loss) => Trained(loss)
  }

  /**
   * `train` refuses fewer than W+T+100 ticks without building anything;
   * otherwise, with a timestamp in range for every tick, it fits on exactly
   * ceil((len-W-T)/20) samples, the k-th starting at tick 20k.
   */
  lemma TrainSpecProps(prices: seq<real>, timestamps: seq<real>, stdOf: seq<real> -> real,
                       fit: seq<Sample> -> Option<real>)
    ensures TrainSpec(prices, timestamps, stdOf, fit).Insufficient? <==>
              |prices| < INPUT_WINDOW + TOTAL_PREDICT_TICKS + MARGIN
    ensures |prices| >= INPUT_WINDOW + TOTAL_PREDICT_TICKS + MARGIN && |timestamps| >= |prices|
            && (forall k :: 0 <= k < |timestamps| ==> TimeFeatures(timestamps[k]).Some?) ==>
              var limit := |prices| - INPUT_WINDOW - TOTAL_PREDICT_TICKS;
              var built := Collect(Outcomes(prices, timestamps, stdOf, limit));
              && built.Done?
              && |built.value| == (limit + SAMPLE_STRIDE - 1) / SAMPLE_STRIDE
              && (forall k :: 0 <= k < |built.value| ==>
                    SampleAt(prices, timestamps, stdOf, SAMPLE_STRIDE * k) == Done(built.value[k]))
              && TrainSpec(prices, timestamps, stdOf, fit) ==
                   (if fit(built.value).None? then TrainRaised(FitFailed) else Trained(fit(built.value).value))
  {
    if |prices| >= INPUT_WINDOW + TOTAL_PREDICT_TICKS + MARGIN && |timestamps| >= |prices|
       && (forall k :: 0 <= k < |timestamps| ==> TimeFeatures(timestamps[k]).Some?)
    {
      var limit := |prices| - INPUT_WINDOW - TOTAL_PREDICT_TICKS;
      var outs := Outcomes(prices, timestamps, stdOf, limit);
      forall k | 0 <= k < |outs| ensures outs[k].Done? {
        SampleStarts(limit, k);
        SampleAtSpec(prices, timestamps, stdOf, SAMPLE_STRIDE * k);
      }
      CollectSpec(outs);
    }
  }

  /**
   * The `for i in range(0, limit, 20)` loop of `train`: every sample in
   * order, or the exception of the first iteration that raises.
   */
  method CollectSamples(prices: seq<real>, timestamps: seq<real>, stdOf: seq<real> -> real, limit: nat)
    returns (built: Outcome<seq<Sample>>)
    requires limit + INPUT_WINDOW + TOTAL_PREDICT_TICKS == |prices|
    ensures built == Collect(Outcomes(prices, timestamps, stdOf, limit))
  {
    ghost var outs := Outcomes(prices, timestamps, stdOf, limit);
    var samples: seq<Sample> := [];
    var i := 0;
    assert outs[0..] == outs;
    assert Prepend([], Collect(outs)) == Collect(outs) by {
      if Collect(outs).Done? { assert [] + Collect(outs).value == Collect(outs).value; }
    }
    while i < limit
      invariant i == SAMPLE_STRIDE * |samples| && |samples| <= |outs|
      invariant Collect(outs) == Prepend(samples, Collect(outs[|samples|..]))
      decreases limit - i
    {
      SampleStarts(limit, |samples|);
      assert outs[|samples|] == SampleAt(prices, timestamps, stdOf, i);
      var o := BuildSample(prices, timestamps, stdOf, i);
      if o.Raised? {
        CollectRaised(outs, samples);
        return Raised(o.error);
      }
      var sample := o.value;
      CollectStep(outs, samples, sample);
      samples := samples + [sample];
      i := i + SAMPLE_STRIDE;
    }
    SampleStarts(limit, |samples|);
    CollectDone(outs, samples);
    built := Done(samples);
  }

  /** `ModelEngine.train`: the guard, then the sample loop, then `fit`. */
  method Train(prices: seq<real>, timestamps: seq<real>, stdOf: seq<real> -> real,
               fit: seq<Sample> -> Option<real>) returns (r: TrainResult)
    ensures r.Insufficient? <==> |prices| < INPUT_WINDOW + TOTAL_PREDICT_TICKS + MARGIN
    ensures r == TrainSpec(prices, timestamps, stdOf, fit)
  {
    if |prices| < INPUT_WINDOW + TOTAL_PREDICT_TICKS + MARGIN {
      return Insufficient;
    }
    var built := CollectSamples(prices, timestamps, stdOf, |prices| - INPUT_WINDOW - TOTAL_PREDICT_TICKS);
    if built.Raised? {
      return TrainRaised(built.error);
    }
    var loss := fit(built.value);
    if loss.None? {
      return TrainRaised(FitFailed);
    }
    return Trained(loss.value);
  }

  // ---- prediction ----

  /** What `predict` returns: `None`, the relative path, or an exception. */
  datatype Prediction = NotReady | Path(path: seq<real>) | PredictRaised(error: EngineError)

  /**
   * `predict(raw_window, current_timestamp)`, with Keras inference as
   * `infer` (`None` when it raises).
   */
  function Predict(rawWindow: seq<real>, currentTs: real, stdOf: seq<real> -> real,
                   infer: (seq<real>, TimeFeat) -> Option<seq<real>>): (r: Prediction)
    ensures r.NotReady? <==> |rawWindow| < INPUT_WINDOW
  {
    if |rawWindow| < INPUT_WINDOW then NotReady
    else
      var mean, std := Mean(rawWindow), EffectiveStd(stdOf(rawWindow));
      var normInput := Normalize(rawWindow, mean, std);
      if |normInput| != INPUT_WINDOW then PredictRaised(ReshapeMismatch)
      else match TimeFeatures(currentTs)
        case None => PredictRaised(TimestampOutOfRange)
        case Some(tf) =>
          match infer(normInput, tf)
          case None => PredictRaised(InferenceFailed)
          case Some(predZ) => Path(Relative(Denormalize(predZ, mean, std), rawWindow[|rawWindow| - 1]))
  }

  /**
   * Only a window of exactly `W` prices can give a path; the path has the
   * model output's length and its k-th offset is the output denormalized
   * with the window's statistics minus the last price.
   */
  lemma PredictSpec(rawWindow: seq<real>, currentTs: real, stdOf: seq<real> -> real,
                    infer: (seq<real>, TimeFeat) -> Option<seq<real>>)
    ensures |rawWindow| > INPUT_WINDOW ==>
              Predict(rawWindow, currentTs, stdOf, infer) == PredictRaised(ReshapeMismatch)
    ensures Predict(rawWindow, currentTs, stdOf, infer).Path? ==>
              && |rawWindow| == INPUT_WINDOW && TimeFeatures(currentTs).Some?
              && var mean, std := Mean(rawWindow), EffectiveStd(stdOf(rawWindow));
              && var out := infer(Normalize(rawWindow, mean, std), TimeFeatures(currentTs).value);
              && out.Some?
              && var path := Predict(rawWindow, currentTs, stdOf, infer).path;
              && |path| == |out.value|
              && forall k :: 0 <= k < |path| ==> path[k] == out.value[k] * std + mean - rawWindow[INPUT_WINDOW - 1]
  {
  }

  /**
   * A model whose output is the true future normalized with the window's
   * statistics yields exactly the future's offsets from the last price.
   */
  lemma PredictOfExactModel(rawWindow: seq<real>, currentTs: real, stdOf: seq<real> -> real,
                            infer: (seq<real>, TimeFeat) -> Option<seq<real>>, future: seq<real>)
    requires |rawWindow| == INPUT_WINDOW && TimeFeatures(currentTs).Some?
    requires var mean, std := Mean(rawWindow), EffectiveStd(stdOf(rawWindow));
             infer(Normalize(rawWindow, mean, std), TimeFeatures(currentTs).value) == Some(Normalize(future, mean, std))
    ensures Predict(rawWindow, currentTs, stdOf, infer) == Path(Relative(future, rawWindow[INPUT_WINDOW - 1]))
  {
    var mean, std := Mean(rawWindow), EffectiveStd(stdOf(rawWindow));
    DenormalizeInvertsNormalize(future, mean, std);
  }
}
