/**
 * `DatabaseManager` of server_src/database.py: the tick table, bulk
 * insertion of ticks fed by clients, and the read of the most recent prices.
 */
module Database {
  import opened Wrappers
  import opened Json
  import opened Sql

  /** An accepted item, truncated to its first two components (unchecked). */
  datatype Pair = Pair(ts: Json, price: Json)

  /** What `save_bulk_data` did: rows inserted, or `for` raised `TypeError`. */
  datatype SaveOutcome = Inserted(count: nat) | NotIterable

  /** An outcome together with the table it leaves behind. */
  datatype Saved = Saved(outcome: SaveOutcome, rows: seq<Row>)

  /**
   * The cleaning of one item: a list of at least two components, or a
   * string that decodes to one, gives its first two components; anything
   * else, including a string that does not decode, gives nothing.
   */
  function CleanItem(item: Json, parse: string -> ParseResult): (r: Option<Pair>)
  {
    match item
    case JStr(s) =>
      (match parse(s)
       case Parsed(JArr(a)) => if |a| >= 2 then Some(Pair(a[0], a[1])) else None
       case _ => None)
    case JArr(a) => if |a| >= 2 then Some(Pair(a[0], a[1])) else None
    case _ => None
  }

  function AsSeq(o: Option<Pair>): seq<Pair>
  {
    if o.Some? then [o.value] else []
  }

  /** `cleaned_data`: the accepted items, in input order. */
  function Clean(items: seq<Json>, parse: string -> ParseResult): seq<Pair>
  {
    if items == [] then []
    else Clean(items[..|items| - 1], parse) + AsSeq(CleanItem(items[|items| - 1], parse))
  }

  /** Cleaning works item by item: it distributes over concatenation. */
  lemma {:induction false} CleanAppend(a: seq<Json>, b: seq<Json>, parse: string -> ParseResult)
    ensures Clean(a + b, parse) == Clean(a, parse) + Clean(b, parse)
  {
    if b == [] {
      assert a + b == a;
    } else {
      var b' := b[..|b| - 1];
      assert (a + b)[..|a + b| - 1] == a + b';
      CleanAppend(a, b', parse);
    }
  }

  /** Malformed items never add rows: at most one pair per item. */
  lemma {:induction false} CleanLength(items: seq<Json>, parse: string -> ParseResult)
    ensures |Clean(items, parse)| <= |items|
  {
    if items != [] {
      CleanLength(items[..|items| - 1], parse);
    }
  }

  /** A batch made only of lists of length two or more is kept whole, pair by pair. */
  lemma {:induction false} CleanWellFormed(items: seq<Json>, parse: string -> ParseResult)
    requires forall k :: 0 <= k < |items| ==> items[k].JArr? && |items[k].items| >= 2
    ensures |Clean(items, parse)| == |items|
    ensures forall k :: 0 <= k < |items| ==>
              Clean(items, parse)[k] == Pair(items[k].items[0], items[k].items[1])
  {
    if items != [] {
      CleanWellFormed(items[..|items| - 1], parse);
    }
  }

  /** `executemany`'s binding of every cleaned pair; `None` when one component cannot be bound. */
  function BindPairs(ps: seq<Pair>): (r: Option<seq<Row>>)
    ensures r.None? <==>
              exists k :: 0 <= k < |ps| && (ColumnValue(ps[k].ts).None? || ColumnValue(ps[k].price).None?)
    ensures r.Some? ==> |r.value| == |ps|
    ensures r.Some? ==> forall k :: 0 <= k < |ps| ==>
              r.value[k] == Row(ColumnValue(ps[k].ts).value, ColumnValue(ps[k].price).value)
  {
    if ps == [] then Some([])
    else
      var init := BindPairs(ps[..|ps| - 1]);
      var last := ps[|ps| - 1];
      var ts, price := ColumnValue(last.ts), ColumnValue(last.price);
      if init.None? then None
      else if ts.None? || price.None? then None
      else Some(init.value + [Row(ts.value, price.value)])
  }

  /**
   * `save_bulk_data(data_list)` on table `rows`. `faulty` stands for a
   * storage-layer exception inside the transaction: like a binding
   * failure it rolls the transaction back and the call returns 0.
   */
  function SaveSpec(rows: seq<Row>, faulty: bool, data: Json, parse: string -> ParseResult): Saved
  {
    if !Truthy(data) then Saved(Inserted(0), rows)
    else match Iterate(data)
      case None => Saved(NotIterable, rows)
      case Some(items) =>
        var cleaned := Clean(items, parse);
        if cleaned == [] then Saved(Inserted(0), rows)
        else match BindPairs(cleaned)
          case None => Saved(Inserted(0), rows)
          case Some(bound) =>
            if faulty then Saved(Inserted(0), rows)
            else Saved(Inserted(|cleaned|), rows + bound)
  }

  /**
   * The transaction is all or nothing and the returned count is exactly the
   * number of rows it added: either nothing changed and 0 (or `TypeError`)
   * came back, or every cleaned item was appended, in order, and its
   * number returned.
   */
  lemma SaveAllOrNothing(rows: seq<Row>, faulty: bool, data: Json, parse: string -> ParseResult)
    ensures var r := SaveSpec(rows, faulty, data, parse);
      || (r.rows == rows && (r.outcome.NotIterable? || r.outcome.count == 0))
      || (&& Truthy(data) && Iterate(data).Some? && !faulty
          && var cleaned := Clean(Iterate(data).value, parse);
          && r.outcome == Inserted(|cleaned|) && |cleaned| > 0
          && BindPairs(cleaned).Some? && r.rows == rows + BindPairs(cleaned).value)
    ensures var r := SaveSpec(rows, faulty, data, parse);
      r.outcome.Inserted? ==> |r.rows| == |rows| + r.outcome.count && r.rows[..|rows|] == rows
  {
  }

  /** An empty (falsy) batch returns 0 and leaves the table as it was. */
  lemma SaveEmpty(rows: seq<Row>, faulty: bool, data: Json, parse: string -> ParseResult)
    requires !Truthy(data)
    ensures SaveSpec(rows, faulty, data, parse) == Saved(Inserted(0), rows)
  {
  }

  /** A fault in the transaction rolls it back: table unchanged, result 0. */
  lemma SaveFaultRollsBack(rows: seq<Row>, data: Json, parse: string -> ParseResult)
    requires Iterate(data).Some?
    ensures SaveSpec(rows, true, data, parse) == Saved(Inserted(0), rows)
  {
  }

  /**
   * Malformed items are dropped without aborting the batch: the count is
   * that of the cleaned items, never more than the batch size.
   */
  lemma {:induction false} SaveCountsCleaned(rows: seq<Row>, faulty: bool, data: Json, parse: string -> ParseResult)
    requires Truthy(data) && Iterate(data).Some?
    ensures var r := SaveSpec(rows, faulty, data, parse);
      r.outcome.Inserted? && r.outcome.count <= |Iterate(data).value|
      && (r.outcome.count > 0 ==> r.outcome.count == |Clean(Iterate(data).value, parse)|)
  {
    CleanLength(Iterate(data).value, parse);
  }

  /** The `limit` most recent rows, newest first: `ORDER BY timestamp DESC LIMIT limit`. */
  function RecentDesc(rows: seq<Row>, limit: nat): seq<Row>
  {
    var desc := Reverse(SortByTs(rows));
    desc[..Min(limit, |desc|)]
  }

  /** Reversing the descending query gives the prices of the last rows in ascending order. */
  lemma ReversedRecent(rows: seq<Row>, limit: nat)
    ensures var s, m := SortByTs(rows), Min(limit, |rows|);
      Reverse(Prices(RecentDesc(rows, limit))) == Prices(s[|rows| - m..])
  {
    var s, m := SortByTs(rows), Min(limit, |rows|);
    var top := Reverse(s)[..m];
    assert |Reverse(s)| == |s| == |rows|;
    PricesReverse(top);
    ReverseTake(s, m);
  }

  /** `get_training_data(limit)` on table `rows`: the query's prices, reversed. */
  function RecentPrices(rows: seq<Row>, limit: nat): (r: seq<SqlValue>)
    ensures |r| == Min(limit, |rows|)
    ensures r == Prices(SortByTs(rows)[|rows| - Min(limit, |rows|)..])
  {
    ReversedRecent(rows, limit);
    Reverse(Prices(RecentDesc(rows, limit)))
  }

  /**
   * The prices returned are those of the most recent ticks: every tick left
   * out is not later than any tick returned, and the returned ones are in
   * ascending timestamp order.
   */
  lemma RecentAreLatest(rows: seq<Row>, limit: nat)
    ensures var s, m := SortByTs(rows), Min(limit, |rows|);
      && RecentPrices(rows, limit) == Prices(s[|rows| - m..])
      && multiset(s) == multiset(rows)
      && SortedByTs(s[|rows| - m..])
      && forall i, j :: 0 <= i < |rows| - m <= j < |rows| ==> TsLe(s[i].ts, s[j].ts)
  {
    SortByTsSorted(rows);
  }

  /** With timestamps in insertion order, the result is the prices of the last `limit` rows inserted. */
  lemma RecentOfOrdered(rows: seq<Row>, limit: nat)
    requires SortedByTs(rows)
    ensures RecentPrices(rows, limit) == Prices(rows[|rows| - Min(limit, |rows|)..])
  {
    SortByTsOfSorted(rows);
  }

  /**
   * Feeding a batch of well-formed pairs none of whose timestamps is earlier
   * than a stored one stores the whole batch, and a read of that many recent
   * prices gives back the batch's prices in timestamp order: in batch order
   * when the batch was already in timestamp order.
   */
  lemma {:induction false} FeedThenFetch(rows: seq<Row>, items: seq<Json>, parse: string -> ParseResult)
    requires items != []
    requires forall k :: 0 <= k < |items| ==> items[k].JArr? && |items[k].items| >= 2
    requires BindPairs(Clean(items, parse)).Some?
    requires NoLater(rows, BindPairs(Clean(items, parse)).value)
    ensures var r := SaveSpec(rows, false, JArr(items), parse);
      var bound := BindPairs(Clean(items, parse)).value;
      && r.outcome == Inserted(|items|)
      && r.rows == rows + bound
      && RecentPrices(r.rows, |items|) == Prices(SortByTs(bound))
      && (SortedByTs(bound) ==> RecentPrices(r.rows, |items|) == Prices(bound))
  {
    var cleaned := Clean(items, parse);
    CleanWellFormed(items, parse);
    assert |cleaned| == |items| && cleaned != [];
    var bound := BindPairs(cleaned).value;
    var after := rows + bound;
    assert Truthy(JArr(items)) && Iterate(JArr(items)) == Some(items);
    assert SaveSpec(rows, false, JArr(items), parse) == Saved(Inserted(|items|), after);
    SortByTsAppend(rows, bound);
    var sorted := SortByTs(after);
    assert sorted == SortByTs(rows) + SortByTs(bound);
    assert sorted[|after| - |items|..] == SortByTs(bound);
    if SortedByTs(bound) {
      SortByTsOfSorted(bound);
    }
  }

  /** One turn of the cleaning loop: the prefix cleaned so far, then the next item's pair, if any. */
  lemma CleanStep(items: seq<Json>, i: nat, parse: string -> ParseResult)
    requires i < |items|
    ensures Clean(items[..i + 1], parse) == Clean(items[..i], parse) + AsSeq(CleanItem(items[i], parse))
  {
    assert items[..i + 1][..i] == items[..i];
  }

  /** The body of the cleaning loop for one item: decode a string, then keep a list of two or more. */
  method CleanOne(item: Json, parse: string -> ParseResult) returns (pair: Option<Pair>)
    ensures pair == CleanItem(item, parse)
  {
    pair := None;
    match item {
      case JStr(s) =>
        var parsed := parse(s);
        if parsed.Parsed? && parsed.value.JArr? && |parsed.value.items| >= 2 {
          pair := Some(Pair(parsed.value.items[0], parsed.value.items[1]));
        }
      case JArr(a) =>
        if |a| >= 2 {
          pair := Some(Pair(a[0], a[1]));
        }
      case _ =>
    }
  }

  /** The `DatabaseManager`: the table's rows and whether storage is currently failing. */
  class TickStore {
    var rows: seq<Row>
    /** A write that fails inside the transaction, so that it is rolled back. */
    const faulty: bool

    /** `init_db`: opening the database file, which may already hold rows. */
    constructor (stored: seq<Row>, faulty: bool)
      ensures rows == stored && this.faulty == faulty
    {
      rows := stored;
      this.faulty := faulty;
    }

    /** `save_bulk_data(data_list)`: clean the batch, then append it in one transaction. */
    method SaveBulkData(data: Json, parse: string -> ParseResult) returns (outcome: SaveOutcome)
      modifies this`rows
      ensures Saved(outcome, rows) == SaveSpec(old(rows), faulty, data, parse)
    {
      if !Truthy(data) {
        return Inserted(0);
      }
      var iterated := Iterate(data);
      if iterated.None? {
        return NotIterable;
      }
      var items := iterated.value;
      var cleaned: seq<Pair> := [];
      var i := 0;
      while i < |items|
        invariant 0 <= i <= |items|
        invariant cleaned == Clean(items[..i], parse)
        invariant rows == old(rows)
      {
        CleanStep(items, i, parse);
        var pair := CleanOne(items[i], parse);
        if pair.Some? {
          cleaned := cleaned + [pair.value];
        }
        i := i + 1;
      }
      assert items[..i] == items;
      if cleaned == [] {
        return Inserted(0);
      }
      var bound := BindPairs(cleaned);
      if bound.None? || faulty {
        return Inserted(0);
      }
      rows := rows + bound.value;
      return Inserted(|cleaned|);
    }

    /** `get_training_data(limit)`: prices of the `limit` most recent ticks, oldest first. */
    function TrainingData(limit: nat): (r: seq<SqlValue>)
      reads this
      ensures |r| == Min(limit, |rows|)
      ensures r == Prices(SortByTs(rows)[|rows| - Min(limit, |rows|)..])
    {
      RecentPrices(rows, limit)
    }
  }
}
