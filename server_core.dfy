/**
 * `ServerCore` of server_src/server_core.py: `process_request` and its
 * three handlers, over the tick store and an abstract `model.train`.
 */
module ServerCore {
  import opened Wrappers
  import opened Json
  import opened Sql
  import opened Database
  import opened Config
  import ModelEngine

  /** Exceptions caught while handling a request and reported as `str(e)`. */
  datatype Exc =
    | NotIterableError      // `for item in data_list` over a number or bool
    | ModelRaised(msg: string)

  /** The `msg` text of an error response. */
  datatype ErrorMsg =
    | NoDataProvided
    | NoPriceProvided
    | UnknownRequestType(t: Json)   // f"Unknown request type: {req_type}"; JNull prints as None
    | NeedAtLeast(required: nat)    // "数据不足: 需要至少 {} 条数据"
    | Raised(e: Exc)
    | InvalidJson(detail: string)   // produced by the socket layer

  /** The response dictionaries the server sends. */
  datatype Response =
    | SavedReply(count: nat)         // {"status": "saved", "count": count}
    | Error(msg: ErrorMsg)           // {"status": "error", "msg": ...}
    | Wait(have: nat, need: nat)     // {"type": "WAIT", "msg": "Insufficient data: have/need"}
    | PathAvailable(price: Json)     // {"type": "PATH", "price": price, "msg": "Prediction available"}
    | TrainReply(result: Json)       // whatever `model.train` returned

  /** `self.model.train(training_data)`: a returned value, or an exception with its text. */
  datatype TrainCall = Returned(result: Json) | CallRaised(msg: string)

  /** `process_request` either returns a response or lets an exception escape. */
  datatype Dispatched = Answered(resp: Response) | Escaped

  /** A dispatch outcome with the tick table it leaves behind. */
  datatype Handled = Handled(out: Dispatched, rows: seq<Row>)

  /** `req.get(key)` on a dict: JSON `null` and a missing key both give None. */
  function Get(fields: seq<(string, Json)>, key: string): Json
  {
    match Lookup(fields, key)
    case Some(v) => v
    case None => JNull
  }

  /** `_handle_predict`, given what `get_training_data(limit=INPUT_WINDOW)` returned. */
  function PredictResponse(fields: seq<(string, Json)>, recent: seq<SqlValue>): Response
  {
    var price := Get(fields, "price");
    if price.JNull? then Error(NoPriceProvided)
    else if |recent| < INPUT_WINDOW then Wait(|recent|, INPUT_WINDOW)
    else PathAvailable(price)
  }

  /** `_handle_train`, given what `get_training_data(limit=TRAIN_LIMIT)` returned. */
  function TrainResponse(recent: seq<SqlValue>, train: seq<SqlValue> -> TrainCall): Response
  {
    if |recent| < INPUT_WINDOW + TOTAL_PREDICT_TICKS then Error(NeedAtLeast(INPUT_WINDOW + TOTAL_PREDICT_TICKS))
    else match train(recent)
      case Returned(v) => TrainReply(v)
      case CallRaised(m) => Error(Raised(ModelRaised(m)))
  }

  /** `_handle_feed_data` on table `rows`. */
  function FeedSpec(fields: seq<(string, Json)>, rows: seq<Row>, faulty: bool, parse: string -> ParseResult): Handled
  {
    var data := match Lookup(fields, "data") case Some(v) => v case None => JArr([]);
    if !Truthy(data) then Handled(Answered(Error(NoDataProvided)), rows)
    else
      var saved := SaveSpec(rows, faulty, data, parse);
      match saved.outcome
      case Inserted(count) => Handled(Answered(SavedReply(count)), saved.rows)
      case NotIterable => Handled(Answered(Error(Raised(NotIterableError))), saved.rows)
  }

  /** `process_request(req)` on table `rows`. */
  function Dispatch(req: Json, rows: seq<Row>, faulty: bool, parse: string -> ParseResult,
                    train: seq<SqlValue> -> TrainCall): Handled
  {
    if !req.JObj? then Handled(Escaped, rows)
    else
      var t := Get(req.fields, "type");
      if t == JStr("FEED_DATA") then FeedSpec(req.fields, rows, faulty, parse)
      else if t == JStr("PREDICT") then Handled(Answered(PredictResponse(req.fields, RecentPrices(rows, INPUT_WINDOW))), rows)
      else if t == JStr("TRAIN") then Handled(Answered(TrainResponse(RecentPrices(rows, TRAIN_LIMIT), train)), rows)
      else Handled(Answered(Error(UnknownRequestType(t))), rows)
  }

  /**
   * Routing: a value that is not a JSON object makes `req.get` raise before
   * the `try`, so the exception escapes; an object answers, and a type other
   * than the three known ones is reported back without touching the table.
   */
  lemma DispatchRoutes(req: Json, rows: seq<Row>, faulty: bool, parse: string -> ParseResult,
                       train: seq<SqlValue> -> TrainCall)
    ensures Dispatch(req, rows, faulty, parse, train).out.Escaped? <==> !req.JObj?
    ensures req.JObj? && Get(req.fields, "type") !in {JStr("FEED_DATA"), JStr("PREDICT"), JStr("TRAIN")} ==>
              Dispatch(req, rows, faulty, parse, train) ==
                Handled(Answered(Error(UnknownRequestType(Get(req.fields, "type")))), rows)
    ensures !req.JObj? || Get(req.fields, "type") != JStr("FEED_DATA") ==>
              Dispatch(req, rows, faulty, parse, train).rows == rows
  {
  }

  /**
   * FEED_DATA without usable `data` is refused and the store is not called;
   * otherwise the response carries the store's count and the table changes
   * exactly as `save_bulk_data` changes it.
   */
  lemma FeedSpecProps(fields: seq<(string, Json)>, rows: seq<Row>, faulty: bool, parse: string -> ParseResult)
    ensures var data := match Lookup(fields, "data") case Some(v) => v case None => JArr([]);
      && (!Truthy(data) ==> FeedSpec(fields, rows, faulty, parse) == Handled(Answered(Error(NoDataProvided)), rows))
      && (Truthy(data) && Iterate(data).Some? ==>
            var saved := SaveSpec(rows, faulty, data, parse);
            && saved.outcome.Inserted?
            && FeedSpec(fields, rows, faulty, parse) == Handled(Answered(SavedReply(saved.outcome.count)), saved.rows))
      && (Truthy(data) && Iterate(data).None? ==>
            FeedSpec(fields, rows, faulty, parse) == Handled(Answered(Error(Raised(NotIterableError))), rows))
  {
  }

  /**
   * PREDICT never changes the table and never involves the model: with a
   * price, it waits while fewer than W ticks are stored, reporting the stored
   * count, and otherwise echoes the price.
   */
  lemma PredictSpec(fields: seq<(string, Json)>, rows: seq<Row>)
    ensures var r := PredictResponse(fields, RecentPrices(rows, INPUT_WINDOW));
      && (Get(fields, "price").JNull? <==> r == Error(NoPriceProvided))
      && (!Get(fields, "price").JNull? && |rows| < INPUT_WINDOW ==> r == Wait(|rows|, INPUT_WINDOW))
      && (!Get(fields, "price").JNull? && |rows| >= INPUT_WINDOW ==> r == PathAvailable(Get(fields, "price")))
  {
  }

  /**
   * TRAIN fetches at most TRAIN_LIMIT prices; with fewer than W+T of them it
   * answers an error whatever the model would do; otherwise it answers the
   * model's result, or an error carrying the model's exception.
   */
  lemma TrainSpec(rows: seq<Row>, train: seq<SqlValue> -> TrainCall, other: seq<SqlValue> -> TrainCall)
    ensures var recent := RecentPrices(rows, TRAIN_LIMIT);
      && |recent| == Min(TRAIN_LIMIT, |rows|)
      && (|rows| < INPUT_WINDOW + TOTAL_PREDICT_TICKS ==>
            TrainResponse(recent, train) == TrainResponse(recent, other) == Error(NeedAtLeast(4000)))
      && (|rows| >= INPUT_WINDOW + TOTAL_PREDICT_TICKS ==>
            TrainResponse(recent, train) ==
              match train(recent)
              case Returned(v) => TrainReply(v)
              case CallRaised(m) => Error(Raised(ModelRaised(m))))
  {
  }

  /** `ServerCore(db, model)`; `train` is the model's `train` called with one argument. */
  class Core {
    const db: TickStore
    const train: seq<SqlValue> -> TrainCall

    constructor (db: TickStore, train: seq<SqlValue> -> TrainCall)
      ensures this.db == db && this.train == train
    {
      this.db := db;
      this.train := train;
    }

    /** `process_request(req)`. */
    method ProcessRequest(req: Json, parse: string -> ParseResult) returns (out: Dispatched)
      modifies db`rows
      ensures Handled(out, db.rows) == Dispatch(req, old(db.rows), db.faulty, parse, train)
    {
      if !req.JObj? {
        return Escaped;
      }
      var t := Get(req.fields, "type");
      if t == JStr("FEED_DATA") {
        out := HandleFeedData(req.fields, parse);
      } else if t == JStr("PREDICT") {
        out := Answered(PredictResponse(req.fields, db.TrainingData(INPUT_WINDOW)));
      } else if t == JStr("TRAIN") {
        out := Answered(TrainResponse(db.TrainingData(TRAIN_LIMIT), train));
      } else {
        out := Answered(Error(UnknownRequestType(t)));
      }
    }

    /** `_handle_feed_data`, with the `TypeError` of a non-iterable batch caught as `process_request` does. */
    method HandleFeedData(fields: seq<(string, Json)>, parse: string -> ParseResult) returns (out: Dispatched)
      modifies db`rows
      ensures Handled(out, db.rows) == FeedSpec(fields, old(db.rows), db.faulty, parse)
    {
      var data := match Lookup(fields, "data") case Some(v) => v case None => JArr([]);
      if !Truthy(data) {
        return Answered(Error(NoDataProvided));
      }
      var saved := db.SaveBulkData(data, parse);
      match saved {
        case Inserted(count) => out := Answered(SavedReply(count));
        case NotIterable => out := Answered(Error(Raised(NotIterableError)));
      }
    }
  }

  // ---- `model.train` as wired by server_src/main.py ----

  /** Python's message for a call of `ModelEngine.train` without its second argument. */
  const MISSING_TIMESTAMPS: string := "ModelEngine.train() missing 1 required positional argument: 'timestamps_list'"

  /**
   * `self.model.train(training_data)` with the `ModelEngine` that
   * server_src/main.py injects: `train(self, prices_list, timestamps_list)`
   * takes two arguments, so the call raises `TypeError` before its body runs.
   */
  function EngineTrainAsCalled(prices: seq<SqlValue>): TrainCall
  {
    CallRaised(MISSING_TIMESTAMPS)
  }

  /** As written, TRAIN can never train: every TRAIN request answers an error. */
  lemma TrainAsWiredNeverTrains(rows: seq<Row>)
    ensures var r := TrainResponse(RecentPrices(rows, TRAIN_LIMIT), EngineTrainAsCalled);
      && r.Error?
      && (|rows| >= INPUT_WINDOW + TOTAL_PREDICT_TICKS ==> r == Error(Raised(ModelRaised(MISSING_TIMESTAMPS))))
  {
  }

  /** The most recent ticks with their timestamps, oldest first: the read the corrected call needs. */
  function RecentTicks(rows: seq<Row>, limit: nat): (r: seq<Row>)
    ensures |r| == Min(limit, |rows|)
    ensures forall k :: 0 <= k < |r| ==> r[k] in multiset(rows)
  {
    var s := SortByTs(rows);
    var r := s[|rows| - Min(limit, |rows|)..];
    assert forall k :: 0 <= k < |r| ==> r[k] == s[|rows| - Min(limit, |rows|) + k] && s[|rows| - Min(limit, |rows|) + k] in multiset(s);
    r
  }

  /** No tick left out of the corrected read is later than a tick in it, and those ascend. */
  lemma RecentTicksLatest(rows: seq<Row>, limit: nat)
    ensures var r, m := RecentTicks(rows, limit), Min(limit, |rows|);
      && SortedByTs(r)
      && forall i, j :: 0 <= i < |rows| - m && 0 <= j < m ==> TsLe(SortByTs(rows)[i].ts, r[j].ts)
  {
    var s, m := SortByTs(rows), Min(limit, |rows|);
    var r := RecentTicks(rows, limit);
    SortByTsSorted(rows);
    assert r == s[|rows| - m..];
    forall i, j | 0 <= i < j < m ensures TsLe(r[i].ts, r[j].ts) {
      assert r[i] == s[|rows| - m + i] && r[j] == s[|rows| - m + j];
    }
    forall i, j | 0 <= i < |rows| - m && 0 <= j < m ensures TsLe(s[i].ts, r[j].ts) {
      assert r[j] == s[|rows| - m + j];
    }
  }

  /**
   * The corrected read returns the rows whose prices `get_training_data`
   * returns, in the same order: the most recent ticks, ascending, with no
   * row left out later than a row returned.
   */
  lemma RecentTicksSpec(rows: seq<Row>, limit: nat)
    ensures var r, m := RecentTicks(rows, limit), Min(limit, |rows|);
      && Prices(r) == RecentPrices(rows, limit)
      && SortedByTs(r)
      && forall i, j :: 0 <= i < |rows| - m && 0 <= j < m ==> TsLe(SortByTs(rows)[i].ts, r[j].ts)
  {
    var s, m := SortByTs(rows), Min(limit, |rows|);
    assert RecentTicks(rows, limit) == s[|rows| - m..];
    RecentTicksLatest(rows, limit);
  }

  /** Both columns as floats, as `np.array` needs them; `None` if a value is NULL or text. */
  function Numeric(ticks: seq<Row>): (r: Option<(seq<real>, seq<real>)>)
  {
    if forall k :: 0 <= k < |ticks| ==> ticks[k].ts.SReal? && ticks[k].price.SReal? then
      Some((seq(|ticks|, k requires 0 <= k < |ticks| => ticks[k].ts.r),
            seq(|ticks|, k requires 0 <= k < |ticks| => ticks[k].price.r)))
    else None
  }

  const NON_NUMERIC_TICK: string := "tick table holds a value that is not a number"

  /** The text of an engine exception. */
  function EngineErrorText(e: ModelEngine.EngineError): string
  {
    match e
    case TimestampMissing => "index out of bounds"
    case TimestampOutOfRange => "year is out of range"
    case FitFailed => "model fit failed"
    case ReshapeMismatch => "cannot reshape window"
    case InferenceFailed => "model inference failed"
  }

  /** The dict `ModelEngine.train` returns, as a JSON value. */
  function TrainResultJson(r: ModelEngine.TrainResult): Json
    requires !r.TrainRaised?
  {
    match r
    case Insufficient => JObj([("status", JStr("error")), ("msg", JStr("数据不足"))])
    case Trained(loss) => JObj([("status", JStr("ok")), ("val_loss", JFloat(loss))])
  }

  /**
   * `_handle_train` with the call corrected to pass the timestamps of the
   * same recent ticks: `model.train(prices, timestamps)`.
   */
  function TrainResponseFixed(rows: seq<Row>, stdOf: seq<real> -> real,
                              fit: seq<ModelEngine.Sample> -> Option<real>): Response
  {
    var ticks := RecentTicks(rows, TRAIN_LIMIT);
    if |ticks| < INPUT_WINDOW + TOTAL_PREDICT_TICKS then Error(NeedAtLeast(INPUT_WINDOW + TOTAL_PREDICT_TICKS))
    else match Numeric(ticks)
      case None => Error(Raised(ModelRaised(NON_NUMERIC_TICK)))
      case Some((timestamps, prices)) =>
        match ModelEngine.TrainSpec(prices, timestamps, stdOf, fit)
        case TrainRaised(e) => Error(Raised(ModelRaised(EngineErrorText(e))))
        case r => TrainReply(TrainResultJson(r))
  }

  /** Every tick holds a float price and a float timestamp that `datetime.fromtimestamp` accepts. */
  ghost predicate UsableTicks(ticks: seq<Row>)
  {
    forall k :: 0 <= k < |ticks| ==>
      ticks[k].price.SReal? && ticks[k].ts.SReal? && ModelEngine.TimeFeatures(ticks[k].ts.r).Some?
  }

  /** The recent ticks of a usable store convert to two float columns of usable timestamps. */
  lemma RecentTicksNumeric(rows: seq<Row>, limit: nat)
    requires UsableTicks(rows)
    ensures var n := Numeric(RecentTicks(rows, limit));
      && n.Some?
      && |n.value.0| == |n.value.1| == Min(limit, |rows|)
      && forall k :: 0 <= k < |n.value.0| ==> ModelEngine.TimeFeatures(n.value.0[k]).Some?
  {
    var ticks := RecentTicks(rows, limit);
    forall k | 0 <= k < |ticks|
      ensures ticks[k].ts.SReal? && ticks[k].price.SReal? && ModelEngine.TimeFeatures(ticks[k].ts.r).Some?
    {
      assert ticks[k] in multiset(rows);
      var j :| 0 <= j < |rows| && rows[j] == ticks[k];
    }
  }

  /** The prices handed to the engine are those of `get_training_data(limit)`, as floats. */
  lemma RecentTicksPrices(rows: seq<Row>, limit: nat)
    requires UsableTicks(rows)
    ensures var n := Numeric(RecentTicks(rows, limit));
      && n.Some?
      && |n.value.1| == |RecentPrices(rows, limit)|
      && forall k :: 0 <= k < |n.value.1| ==> RecentPrices(rows, limit)[k] == SReal(n.value.1[k])
  {
    var ticks := RecentTicks(rows, limit);
    RecentTicksNumeric(rows, limit);
    RecentTicksSpec(rows, limit);
    forall k | 0 <= k < |ticks| ensures RecentPrices(rows, limit)[k] == ticks[k].price {
      assert Prices(ticks)[k] == ticks[k].price;
    }
  }

  /**
   * With the corrected call, a store of at least W+T+100 numeric ticks whose
   * timestamps are in range trains the model: the answer is the engine's
   * `{"status": "ok", "val_loss": ...}` whenever `fit` succeeds on the
   * samples built from the most recent ticks.
   */
  lemma FixedTrainTrains(rows: seq<Row>, timestamps: seq<real>, prices: seq<real>, stdOf: seq<real> -> real,
                         fit: seq<ModelEngine.Sample> -> Option<real>)
    requires |rows| >= INPUT_WINDOW + TOTAL_PREDICT_TICKS + ModelEngine.MARGIN
    requires UsableTicks(rows)
    requires Numeric(RecentTicks(rows, TRAIN_LIMIT)) == Some((timestamps, prices))
    ensures |prices| >= INPUT_WINDOW + TOTAL_PREDICT_TICKS + ModelEngine.MARGIN
    ensures |prices| == |RecentPrices(rows, TRAIN_LIMIT)|
    ensures forall k :: 0 <= k < |prices| ==> RecentPrices(rows, TRAIN_LIMIT)[k] == SReal(prices[k])
    ensures var built := ModelEngine.Collect(ModelEngine.Outcomes(prices, timestamps, stdOf,
                                                                  |prices| - INPUT_WINDOW - TOTAL_PREDICT_TICKS));
      && built.Done?
      && TrainResponseFixed(rows, stdOf, fit) ==
           if fit(built.value).None? then Error(Raised(ModelRaised(EngineErrorText(ModelEngine.FitFailed))))
           else TrainReply(JObj([("status", JStr("ok")), ("val_loss", JFloat(fit(built.value).value))]))
  {
    RecentTicksNumeric(rows, TRAIN_LIMIT);
    RecentTicksPrices(rows, TRAIN_LIMIT);
    ModelEngine.TrainSpecProps(prices, timestamps, stdOf, fit);
  }
}
