/**
 * The original single-file server, main.py: `FastBrain.save_bulk_data`,
 * its placeholder `train_memory` and `predict`, and the per-connection loop
 * `handle_client`, which answers only well-formed requests and silently
 * drops everything else.
 */
module Legacy {
  import opened Wrappers
  import opened Json
  import opened Sql
  import opened Framing

  /** The dictionaries main.py sends back. */
  datatype LResponse =
    | LSaved(count: nat)   // {"status": "saved", "count": count}
    | LTrainPlaceholder    // {"status": "ok", "msg": "Training placeholder"}, from `train_memory`
    | LWait                // {"type": "WAIT"}, from `predict`
    | LEmpty               // {}: a request of any other type

  /** `save_bulk_data`'s return value with the table it leaves behind. */
  datatype LSaved = LSavedRows(count: nat, rows: seq<Row>)

  /**
   * One parameter set of `executemany("INSERT INTO ticks VALUES (?, ?)", ...)`:
   * a dict has only names and cannot fill `?` placeholders; any other
   * sequence (a list, or a string as its characters) must hold exactly two
   * bindable values.
   */
  function BindRow(row: Json): (r: Option<Row>)
  {
    if row.JObj? then None
    else match Iterate(row)
      case None => None
      case Some(ps) =>
        if |ps| != 2 then None
        else match (ColumnValue(ps[0]), ColumnValue(ps[1]))
          case (Some(ts), Some(price)) => Some(Row(ts, price))
          case _ => None
  }

  /** All parameter sets of one `executemany`, or `None` when any of them is refused. */
  function BindAll(items: seq<Json>): (r: Option<seq<Row>>)
    ensures r.Some? <==> forall k :: 0 <= k < |items| ==> BindRow(items[k]).Some?
    ensures r.Some? ==> |r.value| == |items| && forall k :: 0 <= k < |items| ==> Some(r.value[k]) == BindRow(items[k])
  {
    if items == [] then Some([])
    else match (BindRow(items[0]), BindAll(items[1..]))
      case (Some(x), Some(xs)) => Some([x] + xs)
      case (None, _) => None
      case (_, None) =>
        assert forall k :: 1 <= k < |items| ==> items[1..][k - 1] == items[k];
        None
  }

  /**
   * Whether the log line after `COMMIT` can format `data_list[-1][0]` with
   * `:.0f`: the batch is a list whose last row is a list starting with a
   * number or a bool. A dict batch has no key -1; a string row yields a
   * string, and `None` has no float format.
   */
  predicate LogFormats(data: Json)
  {
    && data.JArr? && data.items != []
    && var last := data.items[|data.items| - 1];
    && last.JArr? && last.items != []
    && (last.items[0].JInt? || last.items[0].JFloat? || last.items[0].JBool?)
  }

  /**
   * `save_bulk_data(data_list)` as written: the log line runs after
   * `COMMIT` and inside the `try`, so when it raises, the batch is already
   * stored and 0 is returned. `faulty` stands for a failing write.
   */
  function SaveAsWritten(rows: seq<Row>, faulty: bool, data: Json): LSaved
  {
    if !Truthy(data) then LSavedRows(0, rows)
    else match Iterate(data)
      case None => LSavedRows(0, rows)
      case Some(items) =>
        match BindAll(items)
        case None => LSavedRows(0, rows)
        case Some(bound) =>
          if faulty then LSavedRows(0, rows)
          else if LogFormats(data) then LSavedRows(|items|, rows + bound)
          else LSavedRows(0, rows + bound)
  }

  /** `save_bulk_data` returning `len(data_list)` whenever the transaction committed. */
  function SaveFixed(rows: seq<Row>, faulty: bool, data: Json): LSaved
  {
    if !Truthy(data) then LSavedRows(0, rows)
    else match Iterate(data)
      case None => LSavedRows(0, rows)
      case Some(items) =>
        match BindAll(items)
        case None => LSavedRows(0, rows)
        case Some(bound) =>
          if faulty then LSavedRows(0, rows) else LSavedRows(|items|, rows + bound)
  }

  /**
   * As written, a batch can be stored while the caller is told nothing was:
   * `[[null, 1]]` is committed and reported as 0.
   */
  lemma SaveAsWrittenMisreports(rows: seq<Row>)
    ensures SaveAsWritten(rows, false, JArr([JArr([JNull, JInt(1)])])) == LSavedRows(0, rows + [Row(SNull, SReal(1.0))])
  {
    var data := JArr([JArr([JNull, JInt(1)])]);
    assert Iterate(JArr([JNull, JInt(1)])).value == [JNull, JInt(1)];
    assert BindRow(JArr([JNull, JInt(1)])) == Some(Row(SNull, SReal(1.0)));
    assert [JArr([JNull, JInt(1)])][1..] == [] && [JArr([JNull, JInt(1)])][0] == JArr([JNull, JInt(1)]);
    assert BindAll([]) == Some([]);
    assert [Row(SNull, SReal(1.0))] + [] == [Row(SNull, SReal(1.0))];
    assert BindAll([JArr([JNull, JInt(1)])]) == Some([Row(SNull, SReal(1.0))]);
  }

  /**
   * Both versions write all of a batch or none of it; the corrected one
   * reports exactly the number of rows it added, so a 0 means nothing was
   * stored.
   */
  lemma SaveFixedCounts(rows: seq<Row>, faulty: bool, data: Json)
    ensures var r := SaveFixed(rows, faulty, data);
      && |r.rows| == |rows| + r.count
      && r.rows[..|rows|] == rows
      && (r.count > 0 <==> Truthy(data) && Iterate(data).Some? && BindAll(Iterate(data).value).Some? && !faulty)
    ensures SaveAsWritten(rows, faulty, data).rows == SaveFixed(rows, faulty, data).rows
    ensures LogFormats(data) ==> SaveAsWritten(rows, faulty, data) == SaveFixed(rows, faulty, data)
  {
    var r := SaveFixed(rows, faulty, data);
    assert r.rows[..|rows|] == rows;
  }

  /**
   * As written, the table still gains a whole batch or nothing, and a
   * positive count is the number of rows added; the count is 0 exactly when
   * nothing was stored or the log line failed after the commit.
   */
  lemma SaveAsWrittenCounts(rows: seq<Row>, faulty: bool, data: Json)
    ensures var r := SaveAsWritten(rows, faulty, data);
      && |rows| <= |r.rows| && r.rows[..|rows|] == rows
      && (r.count > 0 ==> |r.rows| == |rows| + r.count)
      && (r.count == 0 <==> r.rows == rows || !LogFormats(data))
  {
    SaveFixedCounts(rows, faulty, data);
  }

  /** What one line does: an optional reply and the table after it. */
  datatype LStep = LStep(reply: Option<LResponse>, rows: seq<Row>)

  /**
   * One line of `handle_client`: an empty line is skipped; a decode error,
   * a value that is not an object, and a missing `type`, `data` or `price`
   * key raise inside the `try` and are dropped without a reply; every other
   * request is answered.
   */
  function LineSpec(msg: string, rows: seq<Row>, faulty: bool, parse: string -> ParseResult): LStep
  {
    if msg == [] then LStep(None, rows)
    else match parse(msg)
      case DecodeError(_) => LStep(None, rows)
      case Parsed(v) =>
        if !v.JObj? then LStep(None, rows)
        else match Lookup(v.fields, "type")
          case None => LStep(None, rows)
          case Some(t) =>
            if t == JStr("FEED_DATA") then
              match Lookup(v.fields, "data")
              case None => LStep(None, rows)
              case Some(data) =>
                var s := SaveAsWritten(rows, faulty, data);
                LStep(Some(LSaved(s.count)), s.rows)
            else if t == JStr("TRAIN") then LStep(Some(LTrainPlaceholder), rows)
            else if t == JStr("PREDICT") then
              match Lookup(v.fields, "price")
              case None => LStep(None, rows)
              case Some(_) => LStep(Some(LWait), rows)
            else LStep(Some(LEmpty), rows)
  }

  /**
   * Only a line that decodes to an object with a `type` is answered; only
   * FEED_DATA writes, and it writes a whole batch or nothing. A reported
   * count is the number of rows added, but a stored batch may be reported
   * as 0 (see `SaveAsWrittenMisreports`).
   */
  lemma LineSpecProps(msg: string, rows: seq<Row>, faulty: bool, parse: string -> ParseResult)
    ensures var st := LineSpec(msg, rows, faulty, parse);
      && (st.reply.Some? <==>
            && msg != [] && parse(msg).Parsed? && parse(msg).value.JObj?
            && var f := parse(msg).value.fields;
            && Lookup(f, "type").Some?
            && (Lookup(f, "type").value == JStr("FEED_DATA") ==> Lookup(f, "data").Some?)
            && (Lookup(f, "type").value == JStr("PREDICT") ==> Lookup(f, "price").Some?))
      && |rows| <= |st.rows| && st.rows[..|rows|] == rows
      && (st.rows != rows ==> st.reply.Some? && st.reply.value.LSaved?)
      && (st.reply.Some? && st.reply.value.LSaved? && st.reply.value.count > 0 ==>
            |st.rows| == |rows| + st.reply.value.count)
      && (st.reply.Some? && !st.reply.value.LSaved? ==> st.rows == rows)
  {
    var st := LineSpec(msg, rows, faulty, parse);
    if msg != [] && parse(msg).Parsed? && parse(msg).value.JObj? {
      var f := parse(msg).value.fields;
      if Lookup(f, "type") == Some(JStr("FEED_DATA")) && Lookup(f, "data").Some? {
        SaveAsWrittenCounts(rows, faulty, Lookup(f, "data").value);
      }
    }
  }

  /** The lines of one buffer, answered in order. */
  datatype LProgress = LProgress(sent: seq<LResponse>, rows: seq<Row>)

  /** `LineSpec` for a given store fault flag and decoder, as one function value. */
  function LineOf(faulty: bool, parse: string -> ParseResult): (string, seq<Row>) -> LStep
  {
    (msg, rows) => LineSpec(msg, rows, faulty, parse)
  }

  /** `line` does to every line what `LineSpec` does. */
  ghost predicate LineIs(line: (string, seq<Row>) -> LStep, faulty: bool, parse: string -> ParseResult)
  {
    forall msg, rows {:trigger LineSpec(msg, rows, faulty, parse)} :: line(msg, rows) == LineSpec(msg, rows, faulty, parse)
  }

  lemma LineOfIs(faulty: bool, parse: string -> ParseResult)
    ensures LineIs(LineOf(faulty, parse), faulty, parse)
  {
  }

  function Lines(segs: seq<string>, rows: seq<Row>, line: (string, seq<Row>) -> LStep): LProgress
    decreases |segs|
  {
    if segs == [] then LProgress([], rows)
    else
      var st := line(segs[0], rows);
      var rest := Lines(segs[1..], st.rows, line);
      match st.reply
      case None => rest
      case Some(r) => LProgress([r] + rest.sent, rest.rows)
  }

  /** How a legacy session ends: `closed` when recv returned nothing or raised. */
  datatype LSession = LSession(sent: seq<LResponse>, closed: bool, rows: seq<Row>)

  /** `handle_client(sock)` from buffer `buffer` over the receive results left. */
  function Serve(recvs: seq<Option<string>>, buffer: string, rows: seq<Row>,
                 line: (string, seq<Row>) -> LStep): LSession
    decreases |recvs|
  {
    if recvs == [] then LSession([], false, rows)
    else match recvs[0]
      case None => LSession([], true, rows)
      case Some(c) =>
        if c == [] then LSession([], true, rows)
        else
          var f := Frames(buffer + c);
          var p := Lines(f.0, rows, line);
          var s := Serve(recvs[1..], f.1, p.rows, line);
          LSession(p.sent + s.sent, s.closed, s.rows)
  }

  /** A non-empty chunk: its complete lines are handled, then reading goes on with the fragment. */
  lemma ServeData(recvs: seq<Option<string>>, buffer: string, rows: seq<Row>,
                  line: (string, seq<Row>) -> LStep)
    requires recvs != [] && recvs[0].Some? && recvs[0].value != []
    ensures var f := Frames(buffer + recvs[0].value);
      var p := Lines(f.0, rows, line);
      var s := Serve(recvs[1..], f.1, p.rows, line);
      Serve(recvs, buffer, rows, line) == LSession(p.sent + s.sent, s.closed, s.rows)
  {
  }

  /** One turn of the inner loop. */
  lemma LinesUnfold(buffer: string, rows: seq<Row>, line: (string, seq<Row>) -> LStep)
    requires FirstNewline(buffer).Some?
    ensures var j := FirstNewline(buffer).value;
      var st := line(buffer[..j], rows);
      var rest := Lines(Frames(buffer[j + 1..]).0, st.rows, line);
      && Frames(buffer).1 == Frames(buffer[j + 1..]).1
      && Lines(Frames(buffer).0, rows, line) ==
           match st.reply
           case None => rest
           case Some(r) => LProgress([r] + rest.sent, rest.rows)
  {
    var j := FirstNewline(buffer).value;
    var tail := Frames(buffer[j + 1..]);
    var segs := [buffer[..j]] + tail.0;
    assert Frames(buffer) == (segs, tail.1);
    assert segs[0] == buffer[..j] && segs[1..] == tail.0;
  }

  /** One turn of the inner loop, given what the line did. */
  lemma DrainStep(buffer: string, rows: seq<Row>, line: (string, seq<Row>) -> LStep,
                  reply: Option<LResponse>, rows': seq<Row>)
    requires FirstNewline(buffer).Some?
    requires LStep(reply, rows') == line(buffer[..FirstNewline(buffer).value], rows)
    ensures var j := FirstNewline(buffer).value;
      var rest := Lines(Frames(buffer[j + 1..]).0, rows', line);
      && Frames(buffer).1 == Frames(buffer[j + 1..]).1
      && Lines(Frames(buffer).0, rows, line) ==
           if reply.Some? then LProgress([reply.value] + rest.sent, rest.rows) else rest
  {
    LinesUnfold(buffer, rows, line);
  }

  /** The inner loop's invariant survives one turn. */
  lemma DrainInvariant(target: LProgress, replies: seq<LResponse>, buffer: string, rows: seq<Row>,
                       line: (string, seq<Row>) -> LStep, reply: Option<LResponse>, rows': seq<Row>)
    requires FirstNewline(buffer).Some?
    requires LStep(reply, rows') == line(buffer[..FirstNewline(buffer).value], rows)
    requires var p := Lines(Frames(buffer).0, rows, line);
      target == LProgress(replies + p.sent, p.rows)
    ensures var j := FirstNewline(buffer).value;
      var replies' := if reply.Some? then replies + [reply.value] else replies;
      var p := Lines(Frames(buffer[j + 1..]).0, rows', line);
      && target == LProgress(replies' + p.sent, p.rows)
      && Frames(buffer[j + 1..]).1 == Frames(buffer).1
  {
    DrainStep(buffer, rows, line, reply, rows');
    var j := FirstNewline(buffer).value;
    var p := Lines(Frames(buffer[j + 1..]).0, rows', line);
    if reply.Some? {
      AppendAssoc(replies, [reply.value], p.sent);
    }
  }

  /**
   * Lines that are not answered leave no trace in the stream: a line that
   * fails to decode produces no reply at all, so a client cannot tell it
   * from a lost line; unlike server_src, nothing is reported back.
   */
  lemma MalformedLineIgnored(segment: string, segs: seq<string>, rows: seq<Row>, faulty: bool,
                             parse: string -> ParseResult)
    requires segment != [] && parse(segment).DecodeError?
    ensures Lines([segment] + segs, rows, LineOf(faulty, parse)) == Lines(segs, rows, LineOf(faulty, parse))
  {
    assert ([segment] + segs)[0] == segment && ([segment] + segs)[1..] == segs;
  }

  /** `FastBrain`: the tick table behind main.py's global `brain`. */
  class FastBrain {
    var rows: seq<Row>
    /** A storage-layer fault that makes every write raise. */
    const faulty: bool

    /** `init_db` on a database file that may already hold rows. */
    constructor (stored: seq<Row>, faulty: bool)
      ensures rows == stored && this.faulty == faulty
    {
      rows := stored;
      this.faulty := faulty;
    }

    /** `save_bulk_data(data_list)`: the transaction, then the log line that can still make it return 0. */
    method SaveBulkData(data: Json) returns (count: nat)
      modifies this`rows
      ensures LSavedRows(count, rows) == SaveAsWritten(old(rows), faulty, data)
    {
      if !Truthy(data) {
        return 0;
      }
      match Iterate(data) {
        case None =>
          count := 0;
        case Some(items) =>
          var bound := BindAll(items);
          if bound.None? || faulty {
            count := 0;
          } else {
            rows := rows + bound.value;
            count := if LogFormats(data) then |items| else 0;
          }
      }
    }

    /** One line of `handle_client`. */
    method HandleLine(msg: string, parse: string -> ParseResult) returns (reply: Option<LResponse>)
      modifies this`rows
      ensures LStep(reply, rows) == LineSpec(msg, old(rows), faulty, parse)
    {
      if msg == [] {
        return None;
      }
      match parse(msg) {
        case DecodeError(_) =>
          reply := None;
        case Parsed(v) =>
          if !v.JObj? {
            return None;
          }
          match Lookup(v.fields, "type") {
            case None =>
              reply := None;
            case Some(t) =>
              if t == JStr("FEED_DATA") {
                match Lookup(v.fields, "data") {
                  case None =>
                    reply := None;
                  case Some(data) =>
                    var count := SaveBulkData(data);
                    reply := Some(LSaved(count));
                }
              } else if t == JStr("TRAIN") {
                reply := Some(LTrainPlaceholder);
              } else if t == JStr("PREDICT") {
                reply := if Lookup(v.fields, "price").Some? then Some(LWait) else None;
              } else {
                reply := Some(LEmpty);
              }
          }
      }
    }

    /** The inner `while '\n' in buffer` loop of `handle_client`. */
    method DrainBuffer(buffer: string, parse: string -> ParseResult, ghost line: (string, seq<Row>) -> LStep)
      returns (replies: seq<LResponse>, left: string)
      requires LineIs(line, faulty, parse)
      modifies this`rows
      ensures LProgress(replies, rows) == Lines(Frames(buffer).0, old(rows), line)
      ensures left == Frames(buffer).1
    {
      ghost var target := Lines(Frames(buffer).0, rows, line);
      replies := [];
      left := buffer;
      while '\n' in left
        invariant var p := Lines(Frames(left).0, rows, line);
          target == LProgress(replies + p.sent, p.rows)
        invariant Frames(left).1 == Frames(buffer).1
        decreases |left|
      {
        var j := FirstNewline(left).value;
        ghost var rows0, left0 := rows, left;
        var msg := left[..j];
        left := left[j + 1..];
        var reply := HandleLine(msg, parse);
        DrainInvariant(target, replies, left0, rows0, line, reply, rows);
        if reply.Some? {
          replies := replies + [reply.value];
        }
      }
      assert Frames(left) == ([], left);
      assert replies + [] == replies;
    }

    /** `handle_client(sock)` over the receive results `recvs` (`None` for a raised exception). */
    method HandleClient(recvs: seq<Option<string>>, parse: string -> ParseResult) returns (sent: seq<LResponse>, closed: bool)
      modifies this`rows
      ensures LSession(sent, closed, rows) == Serve(recvs, "", old(rows), LineOf(faulty, parse))
    {
      ghost var line := LineOf(faulty, parse);
      LineOfIs(faulty, parse);
      ghost var total := Serve(recvs, "", rows, line);
      var buffer := "";
      sent := [];
      closed := false;
      var i := 0;
      while i < |recvs|
        invariant 0 <= i <= |recvs|
        invariant var s := Serve(recvs[i..], buffer, rows, line);
          total == LSession(sent + s.sent, s.closed, s.rows)
        decreases |recvs| - i
      {
        assert recvs[i..][0] == recvs[i] && recvs[i..][1..] == recvs[i + 1..];
        if recvs[i].None? || recvs[i].value == [] {
          assert sent + [] == sent;
          closed := true;
          return;
        }
        ServeData(recvs[i..], buffer, rows, line);
        var replies;
        replies, buffer := DrainBuffer(buffer + recvs[i].value, parse, line);
        ghost var next := Serve(recvs[i + 1..], buffer, rows, line);
        AppendAssoc(sent, replies, next.sent);
        sent := sent + replies;
        i := i + 1;
      }
      assert sent + [] == sent;
    }
  }
}
