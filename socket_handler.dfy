/**
 * `SocketHandler` of server_src/socket_handler.py: one client connection,
 * seen as the sequence of results of its `recv` calls after UTF-8
 * decoding, framed by newlines and answered through `ServerCore`.
 */
module SocketHandler {
  import opened Wrappers
  import opened Json
  import opened Sql
  import opened Database
  import opened ServerCore
  import opened Framing

  /** One `client_socket.recv(BUFFER_SIZE).decode('utf-8')`: text, or an exception. */
  datatype Recv = Data(chunk: string) | Failed

  /** How `_handle_client` leaves its loop. */
  datatype End =
    | PeerClosed   // recv returned no data
    | Aborted      // an exception reached `_handle_client`; the socket is closed
    | Stopped      // `self.running` was false
    | Pending      // the given receive results ran out; the connection is still open

  /** What one newline-delimited segment produces. */
  datatype MessageOutcome =
    | Skip                 // blank after `strip()`
    | Reply(resp: Response) // one JSON line sent back
    | Fatal                // an exception escaped `_process_message`

  /**
   * The handler's collaborators: `json.loads`, and the `request_processor`
   * callback with the effect it has on the tick table.
   */
  datatype Deps = Deps(parse: string -> ParseResult, process: (Json, seq<Row>) -> Handled)

  /** The collaborators as server_src/server_core.py wires them: `ServerCore.process_request`. */
  function CoreDeps(faulty: bool, parse: string -> ParseResult, train: seq<SqlValue> -> TrainCall): Deps
  {
    Deps(parse, (req, rows) => Dispatch(req, rows, faulty, parse, train))
  }

  /**
   * `d` behaves as `CoreDeps(faulty, parse, train)`: it parses with `parse`
   * and processes every request as `Dispatch` does.
   */
  ghost predicate Wired(d: Deps, faulty: bool, parse: string -> ParseResult, train: seq<SqlValue> -> TrainCall)
  {
    && d.parse == parse
    && forall req, rows {:trigger Dispatch(req, rows, faulty, parse, train)} ::
         d.process(req, rows) == Dispatch(req, rows, faulty, parse, train)
  }

  lemma CoreDepsWired(faulty: bool, parse: string -> ParseResult, train: seq<SqlValue> -> TrainCall)
    ensures Wired(CoreDeps(faulty, parse, train), faulty, parse, train)
  {
  }

  datatype Step = Step(outcome: MessageOutcome, rows: seq<Row>)

  /** What handling one segment does, given the rows before it. */
  type Responder = (string, seq<Row>) -> Step
  datatype Progress = Progress(sent: seq<Response>, fatal: bool, rows: seq<Row>)
  datatype Session = Session(sent: seq<Response>, end: End, rows: seq<Row>)

  /** `sent` followed by what session `s` sends. */
  function Then(sent: seq<Response>, s: Session): Session
  {
    Session(sent + s.sent, s.end, s.rows)
  }

  /**
   * `_process_message(msg)`: a `JSONDecodeError` is answered with an
   * "Invalid JSON" error; a request is answered with `process_request`'s
   * response; an exception escaping `process_request` is fatal.
   */
  function ProcessSpec(msg: string, rows: seq<Row>, d: Deps): Step
  {
    match d.parse(msg)
    case DecodeError(e) => Step(Reply(Error(InvalidJson(e))), rows)
    case Parsed(req) =>
      var h := d.process(req, rows);
      match h.out
      case Escaped => Step(Fatal, h.rows)
      case Answered(r) => Step(Reply(r), h.rows)
  }

  /** One segment of the buffer: stripped, skipped when blank, processed otherwise. */
  function MessageSpec(segment: string, rows: seq<Row>, d: Deps): Step
  {
    var msg := Strip(segment);
    if msg == [] then Step(Skip, rows) else ProcessSpec(msg, rows, d)
  }

  /** `_handle_client`'s treatment of one segment, for collaborators `d`. */
  function MessageOf(d: Deps): Responder
  {
    (segment, rows) => MessageSpec(segment, rows, d)
  }

  /** `step` treats every segment as `MessageSpec` does for collaborators `d`. */
  ghost predicate RespondsAs(step: Responder, d: Deps)
  {
    forall segment, rows {:trigger MessageSpec(segment, rows, d)} :: step(segment, rows) == MessageSpec(segment, rows, d)
  }

  lemma MessageOfResponds(d: Deps)
    ensures RespondsAs(MessageOf(d), d)
  {
  }

  /** The segments of one chunk, in order, up to the first fatal one. */
  function ServeSegments(segs: seq<string>, rows: seq<Row>, step: Responder): Progress
    decreases |segs|
  {
    if segs == [] then Progress([], false, rows)
    else
      var st := step(segs[0], rows);
      match st.outcome
      case Fatal => Progress([], true, st.rows)
      case Skip => ServeSegments(segs[1..], st.rows, step)
      case Reply(r) =>
        var p := ServeSegments(segs[1..], st.rows, step);
        Progress([r] + p.sent, p.fatal, p.rows)
  }

  /** `_handle_client`'s loop from buffer `buffer`, over the remaining receive results `recvs`. */
  function Serve(recvs: seq<Recv>, buffer: string, rows: seq<Row>, running: bool, step: Responder): Session
    decreases |recvs|, 0
  {
    if !running then Session([], Stopped, rows)
    else if recvs == [] then Session([], Pending, rows)
    else match recvs[0]
      case Failed => Session([], Aborted, rows)
      case Data(c) =>
        if c == [] then Session([], PeerClosed, rows)
        else Resume(recvs[1..], buffer + c, rows, running, step)
  }

  /** The inner `while '\n' in buffer` loop on `buffer`, then the outer loop on `rest`. */
  function Resume(rest: seq<Recv>, buffer: string, rows: seq<Row>, running: bool, step: Responder): Session
    decreases |rest|, 1
  {
    var f := Frames(buffer);
    var p := ServeSegments(f.0, rows, step);
    if p.fatal then Session(p.sent, Aborted, p.rows)
    else Then(p.sent, Serve(rest, f.1, p.rows, running, step))
  }

  /** A non-empty chunk: its complete messages are handled, then reading goes on with the fragment. */
  lemma ServeData(recvs: seq<Recv>, buffer: string, rows: seq<Row>, step: Responder)
    requires recvs != [] && recvs[0].Data? && recvs[0].chunk != []
    ensures var f := Frames(buffer + recvs[0].chunk);
      var p := ServeSegments(f.0, rows, step);
      Serve(recvs, buffer, rows, true, step) ==
        if p.fatal then Session(p.sent, Aborted, p.rows)
        else Then(p.sent, Serve(recvs[1..], f.1, p.rows, true, step))
  {
  }

  /** `ServeData` carried over to the outer loop's invariant: what was sent, then the rest of the session. */
  lemma ServeInvariant(total: Session, sent: seq<Response>, recvs: seq<Recv>, i: nat, buffer: string, rows: seq<Row>,
                       step: Responder, replies: seq<Response>, fatal: bool, left: string, rows': seq<Row>)
    requires i < |recvs| && recvs[i].Data? && recvs[i].chunk != []
    requires total == Then(sent, Serve(recvs[i..], buffer, rows, true, step))
    requires Progress(replies, fatal, rows') == ServeSegments(Frames(buffer + recvs[i].chunk).0, rows, step)
    requires !fatal ==> left == Frames(buffer + recvs[i].chunk).1
    ensures fatal ==> total == Session(sent + replies, Aborted, rows')
    ensures !fatal ==> total == Then(sent + replies, Serve(recvs[i + 1..], left, rows', true, step))
  {
    assert recvs[i..][0] == recvs[i] && recvs[i..][1..] == recvs[i + 1..];
    ServeData(recvs[i..], buffer, rows, step);
    var next := Serve(recvs[i + 1..], left, rows', true, step);
    AppendAssoc(sent, replies, next.sent);
  }

  /** `replies` followed by what progress `p` sends. */
  function Prepend(replies: seq<Response>, p: Progress): Progress
  {
    Progress(replies + p.sent, p.fatal, p.rows)
  }

  /** One turn of the inner loop: the first segment is taken off the buffer and handled. */
  lemma SegmentsUnfold(buffer: string, rows: seq<Row>, step: Responder)
    requires FirstNewline(buffer).Some?
    ensures var j := FirstNewline(buffer).value;
      var st := step(buffer[..j], rows);
      && Frames(buffer).1 == Frames(buffer[j + 1..]).1
      && ServeSegments(Frames(buffer).0, rows, step) ==
           match st.outcome
           case Skip => ServeSegments(Frames(buffer[j + 1..]).0, st.rows, step)
           case Reply(r) => Prepend([r], ServeSegments(Frames(buffer[j + 1..]).0, st.rows, step))
           case Fatal => Progress([], true, st.rows)
  {
    var j := FirstNewline(buffer).value;
    var tail := Frames(buffer[j + 1..]);
    var segs := [buffer[..j]] + tail.0;
    assert Frames(buffer) == (segs, tail.1);
    assert segs[0] == buffer[..j] && segs[1..] == tail.0;
  }

  /** One turn of the inner loop, given what the segment did. */
  lemma DrainStep(buffer: string, rows: seq<Row>, step: Responder, o: MessageOutcome, rows': seq<Row>)
    requires FirstNewline(buffer).Some?
    requires Step(o, rows') == step(buffer[..FirstNewline(buffer).value], rows)
    ensures var j := FirstNewline(buffer).value;
      var rest := ServeSegments(Frames(buffer[j + 1..]).0, rows', step);
      && Frames(buffer).1 == Frames(buffer[j + 1..]).1
      && ServeSegments(Frames(buffer).0, rows, step) ==
           match o
           case Skip => rest
           case Reply(r) => Prepend([r], rest)
           case Fatal => Progress([], true, rows')
  {
    SegmentsUnfold(buffer, rows, step);
  }

  /** `DrainStep` carried over to the inner loop's invariant: replies sent so far, then the rest. */
  lemma DrainInvariant(target: Progress, replies: seq<Response>, buffer: string, rows: seq<Row>, step: Responder,
                       o: MessageOutcome, rows': seq<Row>)
    requires FirstNewline(buffer).Some?
    requires Step(o, rows') == step(buffer[..FirstNewline(buffer).value], rows)
    requires target == Prepend(replies, ServeSegments(Frames(buffer).0, rows, step))
    ensures var j := FirstNewline(buffer).value;
      var rest := ServeSegments(Frames(buffer[j + 1..]).0, rows', step);
      && Frames(buffer[j + 1..]).1 == Frames(buffer).1
      && match o
         case Skip => target == Prepend(replies, rest)
         case Reply(r) => target == Prepend(replies + [r], rest)
         case Fatal => target == Progress(replies, true, rows')
  {
    DrainStep(buffer, rows, step, o, rows');
    var j := FirstNewline(buffer).value;
    var rest := ServeSegments(Frames(buffer[j + 1..]).0, rows', step);
    match o {
      case Reply(r) =>
        AppendAssoc(replies, [r], rest.sent);
      case Fatal =>
        assert replies + [] == replies;
      case Skip =>
    }
  }

  lemma {:induction false} ServeSegmentsAppend(s1: seq<string>, s2: seq<string>, rows: seq<Row>, step: Responder)
    ensures var p1 := ServeSegments(s1, rows, step);
      var p2 := ServeSegments(s2, p1.rows, step);
      ServeSegments(s1 + s2, rows, step) ==
        if p1.fatal then p1 else Progress(p1.sent + p2.sent, p2.fatal, p2.rows)
    decreases |s1|
  {
    if s1 == [] {
      assert s1 + s2 == s2;
    } else {
      assert (s1 + s2)[0] == s1[0] && (s1 + s2)[1..] == s1[1..] + s2;
      var st := step(s1[0], rows);
      ServeSegmentsAppend(s1[1..], s2, st.rows, step);
    }
  }

  /** Framing `a + b` after `buffer` is framing `a`, then `b` after the leftover fragment. */
  lemma FramesTwoChunks(buffer: string, a: string, b: string)
    ensures var first := Frames(buffer + a);
      var second := Frames(first.1 + b);
      Frames(buffer + (a + b)) == (first.0 + second.0, second.1)
  {
    FramesAppend(buffer + a, b);
    AppendAssoc(buffer, a, b);
  }

  /**
   * TCP may cut the stream anywhere: receiving `a` and then `b` produces
   * the same replies, end and table as receiving `a + b` at once.
   */
  lemma ChunkBoundariesInvisible(a: string, b: string, more: seq<Recv>, buffer: string,
                                 rows: seq<Row>, running: bool, step: Responder)
    requires a != [] && b != []
    ensures Serve([Data(a), Data(b)] + more, buffer, rows, running, step) ==
            Serve([Data(a + b)] + more, buffer, rows, running, step)
  {
    if running {
      var two := [Data(a), Data(b)] + more;
      var one := [Data(a + b)] + more;
      assert two[0] == Data(a) && two[1..] == [Data(b)] + more;
      assert ([Data(b)] + more)[0] == Data(b) && ([Data(b)] + more)[1..] == more;
      assert one[0] == Data(a + b) && one[1..] == more;
      var first := Frames(buffer + a);
      var second := Frames(first.1 + b);
      FramesTwoChunks(buffer, a, b);
      var p1 := ServeSegments(first.0, rows, step);
      var p2 := ServeSegments(second.0, p1.rows, step);
      ServeSegmentsAppend(first.0, second.0, rows, step);
      var p := ServeSegments(Frames(buffer + (a + b)).0, rows, step);
      assert p == if p1.fatal then p1 else Progress(p1.sent + p2.sent, p2.fatal, p2.rows);
      ServeData(two, buffer, rows, step);
      ServeData(one, buffer, rows, step);
      if p1.fatal {
        assert Serve(one, buffer, rows, true, step) == Session(p1.sent, Aborted, p1.rows);
      } else {
        ServeData([Data(b)] + more, first.1, p1.rows, step);
        var rest := Serve(more, second.1, p2.rows, true, step);
        if p2.fatal {
          assert Serve(one, buffer, rows, true, step) == Session(p1.sent + p2.sent, Aborted, p2.rows);
        } else {
          AppendAssoc(p1.sent, p2.sent, rest.sent);
          assert Serve(one, buffer, rows, true, step) == Then(p1.sent + p2.sent, rest);
        }
      }
    }
  }

  /**
   * A malformed line is answered with one "Invalid JSON" error carrying the
   * decoder's message, leaves the table alone, and reading goes on with the
   * next line.
   */
  lemma InvalidJsonAnswered(segment: string, segs: seq<string>, rows: seq<Row>, d: Deps, e: string)
    requires Strip(segment) != [] && d.parse(Strip(segment)) == DecodeError(e)
    ensures var p := ServeSegments(segs, rows, MessageOf(d));
      ServeSegments([segment] + segs, rows, MessageOf(d)) == Progress([Error(InvalidJson(e))] + p.sent, p.fatal, p.rows)
  {
    assert ([segment] + segs)[0] == segment && ([segment] + segs)[1..] == segs;
  }

  /** A blank line (only whitespace) is skipped: no reply, no effect. */
  lemma BlankLineSkipped(segment: string, segs: seq<string>, rows: seq<Row>, d: Deps)
    requires forall k :: 0 <= k < |segment| ==> IsSpace(segment[k])
    ensures ServeSegments([segment] + segs, rows, MessageOf(d)) == ServeSegments(segs, rows, MessageOf(d))
  {
    StripEmptyIff(segment);
    assert ([segment] + segs)[0] == segment && ([segment] + segs)[1..] == segs;
  }

  /**
   * A line holding valid JSON that is not an object makes `req.get` raise
   * outside the `try` of `process_request`: nothing is sent for it or for
   * any later line, and the connection is closed.
   */
  lemma NonObjectIsFatal(segment: string, segs: seq<string>, rows: seq<Row>, faulty: bool,
                         parse: string -> ParseResult, train: seq<SqlValue> -> TrainCall, v: Json)
    requires Strip(segment) != [] && parse(Strip(segment)) == Parsed(v) && !v.JObj?
    ensures ServeSegments([segment] + segs, rows, MessageOf(CoreDeps(faulty, parse, train))) == Progress([], true, rows)
  {
    assert ([segment] + segs)[0] == segment;
  }

  /** The number of segments that are not blank. */
  function NonBlank(segs: seq<string>): nat
  {
    if segs == [] then 0 else (if Strip(segs[0]) == [] then 0 else 1) + NonBlank(segs[1..])
  }

  /** Unless a message is fatal, every non-blank segment gets exactly one reply. */
  lemma {:induction false} OneReplyPerMessage(segs: seq<string>, rows: seq<Row>, d: Deps)
    ensures var p := ServeSegments(segs, rows, MessageOf(d));
      !p.fatal ==> |p.sent| == NonBlank(segs)
    decreases |segs|
  {
    if segs != [] {
      var st := MessageSpec(segs[0], rows, d);
      OneReplyPerMessage(segs[1..], st.rows, d);
    }
  }

  /** An orderly close ends the session at once; a fragment without its newline is dropped unanswered. */
  lemma EofDropsFragment(fragment: string, more: seq<Recv>, rows: seq<Row>, step: Responder)
    requires fragment != [] && '\n' !in fragment
    ensures Serve([Data(fragment), Data([])] + more, [], rows, true, step) == Session([], PeerClosed, rows)
  {
    var recvs := [Data(fragment), Data([])] + more;
    assert recvs[0] == Data(fragment) && recvs[1..] == [Data([])] + more;
    assert ([Data([])] + more)[0] == Data([]);
    assert [] + fragment == fragment;
    assert Frames(fragment) == ([], fragment);
    assert Serve(recvs, [], rows, true, step) == Resume([Data([])] + more, fragment, rows, true, step);
    assert Serve([Data([])] + more, fragment, rows, true, step) == Session([], PeerClosed, rows);
    var none: seq<Response> := [];
    assert none + none == none;
  }

  /** A handler that is not running reads nothing. */
  lemma StoppedReadsNothing(recvs: seq<Recv>, buffer: string, rows: seq<Row>, step: Responder)
    ensures Serve(recvs, buffer, rows, false, step) == Session([], Stopped, rows)
  {
  }

  /** `SocketHandler(request_processor)`: the processor is `core.process_request`. */
  class Handler {
    var running: bool
    const core: Core
    const parse: string -> ParseResult
    /** What this handler's collaborators do, as one value. */
    const env: Deps

    /** `env` describes `json.loads` and `core.process_request`. */
    ghost predicate Valid()
    {
      Wired(env, core.db.faulty, parse, core.train)
    }

    constructor (core: Core, parse: string -> ParseResult)
      ensures this.core == core && this.parse == parse && !running
      ensures Valid()
    {
      this.core := core;
      this.parse := parse;
      env := CoreDeps(core.db.faulty, parse, core.train);
      running := false;
      CoreDepsWired(core.db.faulty, parse, core.train);
    }

    /** The state change of `start(host, port)` before it blocks in its accept loop. */
    method Start()
      modifies this`running
      ensures running
    {
      running := true;
    }

    /** `stop()`. */
    method Stop()
      modifies this`running
      ensures !running
    {
      running := false;
    }

    /** `_process_message(client_socket, addr, msg_str)`. */
    method ProcessMessage(msg: string) returns (o: MessageOutcome)
      requires Valid()
      modifies core.db`rows
      ensures Step(o, core.db.rows) == ProcessSpec(msg, old(core.db.rows), env)
    {
      match parse(msg) {
        case DecodeError(e) =>
          o := Reply(Error(InvalidJson(e)));
        case Parsed(req) =>
          var out := core.ProcessRequest(req, parse);
          match out {
            case Escaped => o := Fatal;
            case Answered(r) => o := Reply(r);
          }
      }
    }

    /**
     * One turn of `_handle_client`'s inner loop: the buffer is split at its
     * first newline, and the part before it is stripped and, unless blank,
     * processed.
     */
    method TakeMessage(buffer: string) returns (o: MessageOutcome, rest: string)
      requires Valid() && '\n' in buffer
      modifies core.db`rows
      ensures var j := FirstNewline(buffer).value;
        && rest == buffer[j + 1..]
        && Step(o, core.db.rows) == MessageSpec(buffer[..j], old(core.db.rows), env)
    {
      var j := FirstNewline(buffer).value;
      var msg := Strip(buffer[..j]);
      rest := buffer[j + 1..];
      o := Skip;
      if msg != [] {
        o := ProcessMessage(msg);
      }
    }

    /**
     * The inner loop of `_handle_client`: every complete message in `buffer`
     * is processed in order until one is fatal; `left` is the fragment that
     * stays in the buffer.
     */
    method DrainBuffer(buffer: string, ghost step: Responder) returns (replies: seq<Response>, fatal: bool, left: string)
      requires Valid() && RespondsAs(step, env)
      modifies core.db`rows
      ensures Progress(replies, fatal, core.db.rows) == ServeSegments(Frames(buffer).0, old(core.db.rows), step)
      ensures !fatal ==> left == Frames(buffer).1
    {
      ghost var target := ServeSegments(Frames(buffer).0, core.db.rows, step);
      replies := [];
      fatal := false;
      left := buffer;
      while '\n' in left && !fatal
        invariant !fatal ==> target == Prepend(replies, ServeSegments(Frames(left).0, core.db.rows, step))
        invariant !fatal ==> Frames(left).1 == Frames(buffer).1
        invariant fatal ==> target == Progress(replies, true, core.db.rows)
        decreases |left|, !fatal
      {
        ghost var left0, rows0 := left, core.db.rows;
        var o;
        o, left := TakeMessage(left);
        DrainInvariant(target, replies, left0, rows0, step, o, core.db.rows);
        match o {
          case Reply(r) =>
            replies := replies + [r];
          case Fatal => fatal := true;
          case Skip =>
        }
      }
      if !fatal {
        assert Frames(left) == ([], left);
        assert replies + [] == replies;
      }
    }

    /** `_handle_client(client_socket, addr)` over the receive results `recvs`. */
    method HandleClient(recvs: seq<Recv>) returns (sent: seq<Response>, end: End)
      requires Valid()
      modifies core.db`rows
      ensures Session(sent, end, core.db.rows) ==
              Serve(recvs, "", old(core.db.rows), running, MessageOf(env))
    {
      ghost var step := MessageOf(env);
      MessageOfResponds(env);
      ghost var total := Serve(recvs, "", core.db.rows, running, step);
      var buffer := "";
      sent := [];
      end := Pending;
      var i := 0;
      var done := false;
      while !done
        invariant 0 <= i <= |recvs|
        invariant !done ==> total == Then(sent, Serve(recvs[i..], buffer, core.db.rows, running, step))
        invariant done ==> total == Session(sent, end, core.db.rows)
        decreases |recvs| - i + (if done then 0 else 1)
      {
        if !running {
          end := Stopped;
          done := true;
        } else if i == |recvs| {
          end := Pending;
          done := true;
        } else {
          match recvs[i] {
            case Failed =>
              end := Aborted;
              done := true;
            case Data(c) =>
              if c == [] {
                end := PeerClosed;
                done := true;
              } else {
                ghost var buffer0, rows0 := buffer, core.db.rows;
                var replies, fatal;
                replies, fatal, buffer := DrainBuffer(buffer + c, step);
                ServeInvariant(total, sent, recvs, i, buffer0, rows0, step, replies, fatal, buffer, core.db.rows);
                sent := sent + replies;
                if fatal {
                  end := Aborted;
                  done := true;
                } else {
                  i := i + 1;
                }
              }
          }
        }
      }
    }
  }
}
