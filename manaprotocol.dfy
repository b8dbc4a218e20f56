/** The callee side of version 1 of the effector line protocol
    (`callee::parse_and_dispatch` in src/manaprotocol.rs): read newline-terminated
    request lines, answer the handshake, split `detect`/`gather`/`affect` requests
    into their space-separated arguments, call the handler on the percent-decoded
    arguments and write one response line per request. */
module ManaProtocol {
  import opened Common
  import opened Effector

  /** A request line, with its arguments still percent-encoded. */
  datatype Request =
    | Handshake
    | DetectReq(raw: string)
    | GatherReq(raw1: string, raw2: string)
    | AffectReq(raw1: string, raw2: string)

  datatype Error =
    | DetectArity(rawArgs: string)    // not exactly one argument to `detect`
    | GatherArity(rawArgs: string)    // not exactly two arguments to `gather`
    | AffectArity(rawArgs: string)    // not exactly two arguments to `affect`
    | UnknownFormat(line: string)
    | BadEncoding(raw: string)        // percent-decoding an argument failed
    | HandlerFailed(message: string)

  /** How a request is written on the wire (without its newline). */
  function RequestLine(req: Request): string
  {
    match req
    case Handshake => HandshakeRq
    case DetectReq(a) => "detect " + a
    case GatherReq(a, b) => "gather " + (a + " " + b)
    case AffectReq(a, b) => "affect " + (a + " " + b)
  }

  /** Arguments hold no space, as percent-encoding guarantees. */
  predicate SpaceFree(req: Request)
  {
    match req
    case Handshake => true
    case DetectReq(a) => ' ' !in a
    case GatherReq(a, b) => ' ' !in a && ' ' !in b
    case AffectReq(a, b) => ' ' !in a && ' ' !in b
  }

  /** Classify one line (its newline already stripped). Exactly the handshake token
      is a handshake; `detect ` needs exactly one field after it, `gather ` and
      `affect ` exactly two, fields being separated by single spaces. */
  function ParseLine(line: string): Result<Request, Error>
  {
    if line == HandshakeRq then Ok(Handshake)
    else if "detect " <= line then ParseDetect(line[7..])
    else if "gather " <= line then ParseTwo(line[7..], false)
    else if "affect " <= line then ParseTwo(line[7..], true)
    else Err(UnknownFormat(line))
  }

  /** The arguments after `detect `: exactly one field. */
  function ParseDetect(rawArgs: string): Result<Request, Error>
  {
    var fields := SplitOn(rawArgs, ' ');
    if |fields| == 1 then Ok(DetectReq(fields[0])) else Err(DetectArity(rawArgs))
  }

  /** The arguments after `gather ` (or `affect `, when `affect` holds): exactly
      two fields. */
  function ParseTwo(rawArgs: string, affect: bool): Result<Request, Error>
  {
    var fields := SplitOn(rawArgs, ' ');
    if |fields| == 2 then
      if affect then Ok(AffectReq(fields[0], fields[1])) else Ok(GatherReq(fields[0], fields[1]))
    else if affect then Err(AffectArity(rawArgs)) else Err(GatherArity(rawArgs))
  }

  /** What a line that parses says: exactly the handshake token is the handshake,
      and a request reads back as the line it came from, with arguments free of
      spaces. */
  lemma ParseLineSound(line: string)
    ensures ParseLine(line) == Ok(Handshake) <==> line == HandshakeRq
    ensures ParseLine(line).Ok? ==> RequestLine(ParseLine(line).value) == line && SpaceFree(ParseLine(line).value)
  {
    if line != HandshakeRq {
      if "detect " <= line {
        PrefixRest(line, "detect ");
        var fields := SplitOn(line[7..], ' ');
        if |fields| == 1 {
          assert JoinWith(fields, ' ') == fields[0];
        }
      } else if "gather " <= line {
        PrefixRest(line, "gather ");
        TwoFields(line[7..]);
      } else if "affect " <= line {
        PrefixRest(line, "affect ");
        TwoFields(line[7..]);
      }
    }
  }

  lemma TwoFields(rawArgs: string)
    ensures
      var fields := SplitOn(rawArgs, ' ');
      |fields| == 2 ==> fields[0] + " " + fields[1] == rawArgs && ' ' !in fields[0] && ' ' !in fields[1]
  {
    var fields := SplitOn(rawArgs, ' ');
    if |fields| == 2 {
      JoinTwo(fields);
    }
  }

  lemma PrefixRest(line: string, verb: string)
    requires verb <= line
    ensures line == verb + line[|verb|..]
  {
  }

  lemma JoinTwo(fields: seq<string>)
    requires |fields| == 2
    ensures JoinWith(fields, ' ') == fields[0] + " " + fields[1]
  {
    assert fields[1..][0] == fields[1];
  }

  /** Every request whose arguments are free of spaces is parsed back from the line
      it is written as. */
  lemma ParseRequestLine(req: Request)
    requires SpaceFree(req)
    ensures ParseLine(RequestLine(req)) == Ok(req)
  {
    match req
    case Handshake =>
    case DetectReq(a) => ParseDetectLine(a);
    case GatherReq(a, b) => ParseGatherLine(a, b);
    case AffectReq(a, b) => ParseAffectLine(a, b);
  }

  lemma ParseDetectLine(a: string)
    requires ' ' !in a
    ensures ParseLine("detect " + a) == Ok(DetectReq(a))
  {
    var line := "detect " + a;
    assert line[0] != HandshakeRq[0];
    assert line[7..] == a;
  }

  lemma ParseGatherLine(a: string, b: string)
    requires ' ' !in a && ' ' !in b
    ensures ParseLine("gather " + (a + " " + b)) == Ok(GatherReq(a, b))
  {
    var line := "gather " + (a + " " + b);
    assert line[0] != HandshakeRq[0] && line[0] != 'd';
    assert line[7..] == a + " " + b;
    TwoSplit(a, b);
  }

  lemma ParseAffectLine(a: string, b: string)
    requires ' ' !in a && ' ' !in b
    ensures ParseLine("affect " + (a + " " + b)) == Ok(AffectReq(a, b))
  {
    var line := "affect " + (a + " " + b);
    assert line[0] != HandshakeRq[0] && line[0] != 'd' && line[0] != 'g';
    assert line[7..] == a + " " + b;
    TwoSplit(a, b);
  }

  lemma TwoSplit(a: string, b: string)
    requires ' ' !in a && ' ' !in b
    ensures SplitOn(a + " " + b, ' ') == [a, b]
  {
    JoinTwo([a, b]);
    SplitJoin([a, b], ' ');
  }

  /** A line parses to a request exactly when it is that request, written out with
      space-free arguments. */
  lemma ParseLineIff(line: string, req: Request)
    ensures ParseLine(line) == Ok(req) <==> line == RequestLine(req) && SpaceFree(req)
  {
    ParseLineSound(line);
    if line == RequestLine(req) && SpaceFree(req) {
      ParseRequestLine(req);
    }
  }

  /** `detect` takes exactly one argument: a second one is refused, naming all the
      arguments given. */
  lemma DetectTwoArgs(a: string, b: string)
    ensures ParseLine("detect " + (a + " " + b)) == Err(DetectArity(a + " " + b))
  {
    var line := "detect " + (a + " " + b);
    assert line[0] != HandshakeRq[0];
    assert line[7..] == a + " " + b;
    assert (a + " " + b)[|a|] == ' ';
  }

  /** `gather` and `affect` take exactly two arguments: one alone is refused. */
  lemma GatherOneArg(a: string)
    requires ' ' !in a
    ensures ParseLine("gather " + a) == Err(GatherArity(a))
    ensures ParseLine("affect " + a) == Err(AffectArity(a))
  {
    var g, f := "gather " + a, "affect " + a;
    assert g[0] != HandshakeRq[0] && g[0] != 'd' && g[7..] == a;
    assert f[0] != HandshakeRq[0] && f[0] != 'd' && f[0] != 'g' && f[7..] == a;
  }

  // ---------------------------------------------------------------------------
  // Reading the stream

  /** `BufRead::read_line`: everything up to and including the first newline, or
      the rest of the stream when it holds none. */
  function ReadLine(stream: string): (r: (string, string))
    requires stream != []
    ensures r.0 + r.1 == stream && r.0 != []
    ensures '\n' !in r.0[..|r.0| - 1]
    ensures r.0[|r.0| - 1] == '\n' || r.1 == []
  {
    if '\n' in stream then
      var i := IndexOf(stream, '\n');
      assert stream[..i + 1][..i] == stream[..i];
      (stream[..i + 1], stream[i + 1..])
    else (stream, [])
  }

  /** One trailing newline, if there is one, is not part of the line. */
  function StripNewline(buf: string): string
  {
    if buf != [] && buf[|buf| - 1] == '\n' then buf[..|buf| - 1] else buf
  }

  // ---------------------------------------------------------------------------
  // Answering one line

  /** The answer to one line: the handshake is answered without a call; a request
      calls the handler once on its decoded arguments; `detect` answers whether the
      handler found the path, `gather`/`affect` echo their raw arguments. A line of no
      known form, an argument that does not decode, or a failing handler stops
      without a response. */
  function Respond<S>(line: string, b: Behaviour<S>, s: S, decode: string -> Option<string>): (r: Step<S, Error>)
    ensures |r.calls| <= 1
    ensures r.Stop? && r.calls != [] ==> r.error.HandlerFailed?
  {
    match ParseLine(line)
    case Err(e) => Stop([], s, e)
    case Ok(Handshake) => Continue(HandshakeRs, [], s)
    case Ok(DetectReq(raw)) =>
      (match decode(raw)
       case None => Stop([], s, BadEncoding(raw))
       case Some(p) =>
         var (s', res) := b.detect(s, p);
         match res
         case Err(m) => Stop([Call.Detect(p)], s', HandlerFailed(m))
         case Ok(found) => Continue(DetectAnswer(found), [Call.Detect(p)], s'))
    case Ok(GatherReq(raw1, raw2)) =>
      (match (decode(raw1), decode(raw2))
       case (None, _) => Stop([], s, BadEncoding(raw1))
       case (Some(_), None) => Stop([], s, BadEncoding(raw2))
       case (Some(p1), Some(p2)) =>
         var (s', res) := b.gather(s, p1, p2);
         match res
         case Err(m) => Stop([Call.Gather(p1, p2)], s', HandlerFailed(m))
         case Ok(_) => Continue("gathered " + raw1 + " " + raw2, [Call.Gather(p1, p2)], s'))
    case Ok(AffectReq(raw1, raw2)) =>
      (match (decode(raw1), decode(raw2))
       case (None, _) => Stop([], s, BadEncoding(raw1))
       case (Some(_), None) => Stop([], s, BadEncoding(raw2))
       case (Some(p1), Some(p2)) =>
         var (s', res) := b.affect(s, p1, p2);
         match res
         case Err(m) => Stop([Call.Affect(p1, p2)], s', HandlerFailed(m))
         case Ok(_) => Continue("affected " + raw1 + " " + raw2, [Call.Affect(p1, p2)], s'))
  }

  function DetectAnswer(found: bool): string
  {
    if found then "detected present" else "detected absent"
  }

  /** Dispatching a whole input stream: lines are answered in order until the end
      of input, which ends dispatching successfully, or until a line stops it.
      Every call on the handler is answered by a response line, except one that
      failed and ended dispatching. */
  function Dispatch<S>(stream: string, b: Behaviour<S>, s: S, decode: string -> Option<string>): (r: Session<S, Error>)
    ensures |r.calls| <= |r.responses| + (if r.result.Ok? then 0 else 1)
    decreases |stream|
  {
    if stream == [] then Session([], [], s, Ok(()))
    else
      var (chunk, rest) := ReadLine(stream);
      match Respond(StripNewline(chunk), b, s, decode)
      case Stop(calls, s', e) => Session([], calls, s', Err(e))
      case Continue(response, calls, s') => Then([response], calls, Dispatch(rest, b, s', decode))
  }

  /** The handshake token is answered with the response token, and the handler is
      not called. */
  lemma HandshakeAnswered<S>(b: Behaviour<S>, s: S, decode: string -> Option<string>)
    ensures Respond(HandshakeRq, b, s, decode) == Continue(HandshakeRs, [], s)
  {
    ParseRequestLine(Handshake);
  }

  /** A `detect` line whose argument decodes calls the handler once on the decoded
      path and answers `detected present` or `detected absent` as it says. */
  lemma DetectAnswered<S>(raw: string, path: string, b: Behaviour<S>, s: S, decode: string -> Option<string>)
    requires ' ' !in raw && decode(raw) == Some(path)
    ensures
      var r := Respond("detect " + raw, b, s, decode);
      && r.calls == [Call.Detect(path)]
      && r.state == b.detect(s, path).0
      && (match b.detect(s, path).1
          case Ok(found) => r == Continue(if found then "detected present" else "detected absent", r.calls, r.state)
          case Err(m) => r == Stop(r.calls, r.state, HandlerFailed(m)))
  {
    ParseRequestLine(DetectReq(raw));
  }

  /** A `gather` line whose two arguments decode calls the handler once on the
      decoded paths and echoes the arguments, still encoded, in its response. */
  lemma GatherAnswered<S>(raw1: string, raw2: string, path1: string, path2: string,
                          b: Behaviour<S>, s: S, decode: string -> Option<string>)
    requires ' ' !in raw1 && ' ' !in raw2
    requires decode(raw1) == Some(path1) && decode(raw2) == Some(path2)
    ensures
      var r := Respond("gather " + (raw1 + " " + raw2), b, s, decode);
      && r.calls == [Call.Gather(path1, path2)]
      && r.state == b.gather(s, path1, path2).0
      && (match b.gather(s, path1, path2).1
          case Ok(_) => r == Continue("gathered " + raw1 + " " + raw2, r.calls, r.state)
          case Err(m) => r == Stop(r.calls, r.state, HandlerFailed(m)))
  {
    ParseRequestLine(GatherReq(raw1, raw2));
  }

  /** The same for `affect`. */
  lemma AffectAnswered<S>(raw1: string, raw2: string, path1: string, path2: string,
                          b: Behaviour<S>, s: S, decode: string -> Option<string>)
    requires ' ' !in raw1 && ' ' !in raw2
    requires decode(raw1) == Some(path1) && decode(raw2) == Some(path2)
    ensures
      var r := Respond("affect " + (raw1 + " " + raw2), b, s, decode);
      && r.calls == [Call.Affect(path1, path2)]
      && r.state == b.affect(s, path1, path2).0
      && (match b.affect(s, path1, path2).1
          case Ok(_) => r == Continue("affected " + raw1 + " " + raw2, r.calls, r.state)
          case Err(m) => r == Stop(r.calls, r.state, HandlerFailed(m)))
  {
    ParseRequestLine(AffectReq(raw1, raw2));
  }

  /** An argument that does not decode stops dispatching before the handler is
      called. */
  lemma UndecodableStops<S>(req: Request, b: Behaviour<S>, s: S, decode: string -> Option<string>)
    requires SpaceFree(req) && !req.Handshake?
    requires if req.DetectReq? then decode(req.raw) == None else decode(req.raw1) == None
    ensures Respond(RequestLine(req), b, s, decode)
      == Stop([], s, BadEncoding(if req.DetectReq? then req.raw else req.raw1))
  {
    ParseRequestLine(req);
  }

  // ---------------------------------------------------------------------------
  // Line by line

  /** Dispatching a sequence of lines: each is answered in turn until one stops
      dispatching. Every line answered gives exactly one response line. */
  function DispatchLines<S>(lines: seq<string>, b: Behaviour<S>, s: S, decode: string -> Option<string>): (r: Session<S, Error>)
    ensures r.result.Ok? ==> |r.responses| == |lines|
    ensures r.result.Err? ==> |r.responses| < |lines|
    ensures |r.calls| <= |r.responses| + (if r.result.Ok? then 0 else 1)
    decreases |lines|
  {
    if lines == [] then Session([], [], s, Ok(()))
    else
      match Respond(lines[0], b, s, decode)
      case Stop(calls, s', e) => Session([], calls, s', Err(e))
      case Continue(response, calls, s') => Then([response], calls, DispatchLines(lines[1..], b, s', decode))
  }

  lemma ReadLineOf(line: string, rest: string)
    requires '\n' !in line
    ensures ReadLine(line + "\n" + rest) == (line + "\n", rest)
    ensures StripNewline(line + "\n") == line
  {
    assert line + "\n" + rest == line + ("\n" + rest);
    IndexOfAfterFree(line, "\n" + rest, '\n');
    assert (line + "\n" + rest)[..|line| + 1] == line + "\n";
    assert (line + "\n")[..|line|] == line;
  }

  /** Dispatching the text of newline-free lines is dispatching those lines. */
  lemma {:induction false} DispatchText<S>(lines: seq<string>, b: Behaviour<S>, s: S, decode: string -> Option<string>)
    requires forall i :: 0 <= i < |lines| ==> '\n' !in lines[i]
    ensures Dispatch(Text(lines), b, s, decode) == DispatchLines(lines, b, s, decode)
    decreases |lines|
  {
    if lines != [] {
      ReadLineOf(lines[0], Text(lines[1..]));
      match Respond(lines[0], b, s, decode)
      case Stop(_, _, _) =>
      case Continue(_, _, s') =>
        DispatchText(lines[1..], b, s', decode);
    }
  }

  // ---------------------------------------------------------------------------
  // The dispatch loop

  /** `parse_and_dispatch`: the loop reuses one buffer, clearing it and reading the
      next line into it; it returns the lines it wrote, and the handler's state and
      trace advance exactly as `Dispatch` says. */
  method ParseAndDispatch<S>(instream: string, handler: Handler<S>, decode: string -> Option<string>)
    returns (written: seq<string>, r: Result<(), Error>)
    modifies handler
    ensures
      var session := Dispatch(instream, handler.behaviour, old(handler.state), decode);
      && written == session.responses
      && r == session.result
      && handler.state == session.state
      && handler.calls == old(handler.calls) + session.calls
  {
    ghost var calls0 := handler.calls;
    ghost var state0 := handler.state;
    ghost var total := Dispatch(instream, handler.behaviour, state0, decode);
    var input := instream;
    written := [];
    ghost var calls: seq<Call> := [];
    while input != []
      invariant handler.calls == calls0 + calls
      invariant total.responses == written + Dispatch(input, handler.behaviour, handler.state, decode).responses
      invariant total.calls == calls + Dispatch(input, handler.behaviour, handler.state, decode).calls
      invariant total.state == Dispatch(input, handler.behaviour, handler.state, decode).state
      invariant total.result == Dispatch(input, handler.behaviour, handler.state, decode).result
      decreases |input|
    {
      ghost var callsBefore := handler.calls;
      var answer;
      input, answer := ServeLine(input, handler, decode);
      ghost var delta := handler.calls[|callsBefore|..];
      AppendSlice(calls0, calls, delta);
      if answer.Err? {
        return written, Err(answer.error);
      }
      ghost var rest := Dispatch(input, handler.behaviour, handler.state, decode);
      AppendSlice(written, [answer.value], rest.responses);
      AppendSlice(calls, delta, rest.calls);
      written := written + [answer.value];
      calls := calls + delta;
    }
    assert written + [] == written && calls + [] == calls;
    return written, Ok(());
  }

  /** One turn of the loop: read a line and answer it. With `Ok`, the response line
      and the calls made are the first of the session, which goes on with the rest
      of the stream; with `Err`, the session ends here. */
  method ServeLine<S>(input: string, handler: Handler<S>, decode: string -> Option<string>)
    returns (rest: string, r: Result<string, Error>)
    requires input != []
    modifies handler
    ensures old(handler.calls) <= handler.calls
    ensures r.Err? ==>
      Dispatch(input, handler.behaviour, old(handler.state), decode)
        == Session([], handler.calls[|old(handler.calls)|..], handler.state, Err(r.error))
    ensures r.Ok? ==>
      && |rest| < |input|
      && Dispatch(input, handler.behaviour, old(handler.state), decode)
         == Then([r.value], handler.calls[|old(handler.calls)|..], Dispatch(rest, handler.behaviour, handler.state, decode))
  {
    ghost var step := Respond(StripNewline(ReadLine(input).0), handler.behaviour, handler.state, decode);
    ghost var calls0 := handler.calls;
    var line;
    line, rest := NextLine(input);
    r := AnswerLine(line, handler, decode);
    assert handler.calls[|calls0|..] == step.calls;
  }

  /** Clear the buffer, read the next line into it and drop its newline. */
  method NextLine(input: string) returns (line: string, rest: string)
    requires input != []
    ensures line == StripNewline(ReadLine(input).0) && rest == ReadLine(input).1
    ensures line + (if |line| < |ReadLine(input).0| then "\n" else "") + rest == input
    ensures '\n' !in line
  {
    var buf: string := [];
    var chunk;
    chunk, rest := ReadLine(input).0, ReadLine(input).1;
    buf := buf + chunk;
    if buf != [] && buf[|buf| - 1] == '\n' {
      buf := buf[..|buf| - 1];
    }
    line := buf;
  }

  /** The body of the loop for one line: `Ok` with the response line it writes, or
      the error that ends dispatching. */
  method AnswerLine<S>(line: string, handler: Handler<S>, decode: string -> Option<string>)
    returns (r: Result<string, Error>)
    modifies handler
    ensures
      var step := Respond(line, handler.behaviour, old(handler.state), decode);
      && handler.state == step.state
      && handler.calls == old(handler.calls) + step.calls
      && r == (if step.Continue? then Ok(step.response) else Err(step.error))
  {
    match ParseLine(line)
    case Err(e) =>
      return Err(e);
    case Ok(Handshake) =>
      return Ok(HandshakeRs);
    case Ok(DetectReq(raw)) =>
      var path := decode(raw);
      if path.None? {
        return Err(BadEncoding(raw));
      }
      var found := handler.Detect(path.value);
      if found.Err? {
        return Err(HandlerFailed(found.error));
      }
      return Ok(DetectAnswer(found.value));
    case Ok(GatherReq(raw1, raw2)) =>
      var path1 := decode(raw1);
      if path1.None? {
        return Err(BadEncoding(raw1));
      }
      var path2 := decode(raw2);
      if path2.None? {
        return Err(BadEncoding(raw2));
      }
      var done := handler.Gather(path1.value, path2.value);
      if done.Err? {
        return Err(HandlerFailed(done.error));
      }
      return Ok("gathered " + raw1 + " " + raw2);
    case Ok(AffectReq(raw1, raw2)) =>
      var path1 := decode(raw1);
      if path1.None? {
        return Err(BadEncoding(raw1));
      }
      var path2 := decode(raw2);
      if path2.None? {
        return Err(BadEncoding(raw2));
      }
      var done := handler.Affect(path1.value, path2.value);
      if done.Err? {
        return Err(HandlerFailed(done.error));
      }
      return Ok("affected " + raw1 + " " + raw2);
  }

  // ---------------------------------------------------------------------------
  // The recording handler of the module's test

  /** The test handler's state: the calls it has seen, and the answer it gave to
      the last `detect` (answers alternate, starting with `true`). */
  datatype Recorder = Recorder(lines: seq<(string, string, string)>, lastDetect: bool)

  function RecorderBehaviour(): Behaviour<Recorder>
  {
    Behaviour(
      (r: Recorder, p: string) => (Recorder(r.lines + [("detect", p, "")], !r.lastDetect), Ok(!r.lastDetect)),
      (r: Recorder, p: string, shadow: string) => (Recorder(r.lines + [("gather", p, shadow)], r.lastDetect), Ok(())),
      (r: Recorder, p: string, shadow: string) => (Recorder(r.lines + [("affect", p, shadow)], r.lastDetect), Ok(())))
  }

  /** The script of the module's test: the handshake, two `detect`s, a `gather` and
      an `affect`; with `foo/bar/baz`, `fee/fo/fum`, `bee/bop`, `zee/zam`, `a/b` and
      `c/d` for the arguments it is the test's text. */
  function TestScript(d1: string, d2: string, g1: string, g2: string, a1: string, a2: string): seq<string>
  {
    [HandshakeRq, "detect " + d1, "detect " + d2, "gather " + (g1 + " " + g2), "affect " + (a1 + " " + a2)]
  }

  /** Arguments that percent-decoding leaves alone, free of spaces and newlines. */
  predicate PlainArg(x: string, decode: string -> Option<string>)
  {
    ' ' !in x && '\n' !in x && decode(x) == Some(x)
  }

  /** The test's script is answered line by line, in order: the response token,
      `detected present` and `detected absent` (the handler's answers alternate), and
      the `gather` and `affect` arguments echoed; the handler records the decoded
      paths of the four requests. */
  lemma ParsingAndDispatching(d1: string, d2: string, g1: string, g2: string, a1: string, a2: string,
                              decode: string -> Option<string>)
    requires PlainArg(d1, decode) && PlainArg(d2, decode) && PlainArg(g1, decode)
    requires PlainArg(g2, decode) && PlainArg(a1, decode) && PlainArg(a2, decode)
    ensures
      var session := Dispatch(Text(TestScript(d1, d2, g1, g2, a1, a2)), RecorderBehaviour(), Recorder([], false), decode);
      && session.result == Ok(())
      && session.responses
         == [HandshakeRs, "detected present", "detected absent", "gathered " + g1 + " " + g2, "affected " + a1 + " " + a2]
      && session.state.lines == [("detect", d1, ""), ("detect", d2, ""), ("gather", g1, g2), ("affect", a1, a2)]
  {
    var L := TestScript(d1, d2, g1, g2, a1, a2);
    forall i | 0 <= i < |L| ensures '\n' !in L[i] {
      assert HandshakeRq[4] != '\n';
    }
    DispatchText(L, RecorderBehaviour(), Recorder([], false), decode);
    ScriptLinesAnswered(d1, d2, g1, g2, a1, a2, decode);
  }

  lemma ScriptLinesAnswered(d1: string, d2: string, g1: string, g2: string, a1: string, a2: string,
                            decode: string -> Option<string>)
    requires PlainArg(d1, decode) && PlainArg(d2, decode) && PlainArg(g1, decode)
    requires PlainArg(g2, decode) && PlainArg(a1, decode) && PlainArg(a2, decode)
    ensures
      DispatchLines(TestScript(d1, d2, g1, g2, a1, a2), RecorderBehaviour(), Recorder([], false), decode)
      == Session(
           [HandshakeRs, "detected present", "detected absent", "gathered " + g1 + " " + g2, "affected " + a1 + " " + a2],
           [Call.Detect(d1), Call.Detect(d2), Call.Gather(g1, g2), Call.Affect(a1, a2)],
           Recorder([("detect", d1, ""), ("detect", d2, ""), ("gather", g1, g2), ("affect", a1, a2)], false),
           Ok(()))
  {
    var L := TestScript(d1, d2, g1, g2, a1, a2);
    var s0 := Recorder([], false);
    ScriptDetects(d1, d2, g1, g2, a1, a2, decode);
    RecorderStep(L, 0, Handshake, s0, decode);
    assert L[0..] == L;
  }

  /** The two `detect` lines of the test's script, and what follows them. */
  lemma ScriptDetects(d1: string, d2: string, g1: string, g2: string, a1: string, a2: string,
                      decode: string -> Option<string>)
    requires PlainArg(d1, decode) && PlainArg(d2, decode) && PlainArg(g1, decode)
    requires PlainArg(g2, decode) && PlainArg(a1, decode) && PlainArg(a2, decode)
    ensures
      DispatchLines(TestScript(d1, d2, g1, g2, a1, a2)[1..], RecorderBehaviour(), Recorder([], false), decode)
      == Session(
           ["detected present", "detected absent", "gathered " + g1 + " " + g2, "affected " + a1 + " " + a2],
           [Call.Detect(d1), Call.Detect(d2), Call.Gather(g1, g2), Call.Affect(a1, a2)],
           Recorder([("detect", d1, ""), ("detect", d2, ""), ("gather", g1, g2), ("affect", a1, a2)], false),
           Ok(()))
  {
    var L := TestScript(d1, d2, g1, g2, a1, a2);
    var s0 := Recorder([], false);
    var s1 := Recorder(s0.lines + [("detect", d1, "")], true);
    var s2 := Recorder(s1.lines + [("detect", d2, "")], false);
    assert s2 == Recorder([("detect", d1, ""), ("detect", d2, "")], false);
    var g, f := "gathered " + g1 + " " + g2, "affected " + a1 + " " + a2;
    var s4 := Recorder([("detect", d1, ""), ("detect", d2, ""), ("gather", g1, g2), ("affect", a1, a2)], false);
    var e3: Session<Recorder, Error> := Session([g, f], [Call.Gather(g1, g2), Call.Affect(a1, a2)], s4, Ok(()));
    ScriptTail(d1, d2, g1, g2, a1, a2, decode);
    assert DispatchLines(L[3..], RecorderBehaviour(), s2, decode) == e3;
    RecorderStep(L, 2, DetectReq(d2), s1, decode);
    var e2: Session<Recorder, Error> := Session(["detected absent", g, f], [Call.Detect(d2)] + e3.calls, s4, Ok(()));
    assert DispatchLines(L[2..], RecorderBehaviour(), s1, decode) == e2;
    RecorderStep(L, 1, DetectReq(d1), s0, decode);
    assert [Call.Detect(d1)] + e2.calls == [Call.Detect(d1), Call.Detect(d2), Call.Gather(g1, g2), Call.Affect(a1, a2)];
  }

  /** The `gather` and `affect` lines that end the test's script. */
  lemma ScriptTail(d1: string, d2: string, g1: string, g2: string, a1: string, a2: string,
                   decode: string -> Option<string>)
    requires PlainArg(g1, decode) && PlainArg(g2, decode) && PlainArg(a1, decode) && PlainArg(a2, decode)
    ensures
      var s2 := Recorder([("detect", d1, ""), ("detect", d2, "")], false);
      DispatchLines(TestScript(d1, d2, g1, g2, a1, a2)[3..], RecorderBehaviour(), s2, decode)
      == Session(
           ["gathered " + g1 + " " + g2, "affected " + a1 + " " + a2],
           [Call.Gather(g1, g2), Call.Affect(a1, a2)],
           Recorder([("detect", d1, ""), ("detect", d2, ""), ("gather", g1, g2), ("affect", a1, a2)], false),
           Ok(()))
  {
    var L := TestScript(d1, d2, g1, g2, a1, a2);
    var s2 := Recorder([("detect", d1, ""), ("detect", d2, "")], false);
    var s3 := Recorder(s2.lines + [("gather", g1, g2)], false);
    var s4 := Recorder(s3.lines + [("affect", a1, a2)], false);
    assert s4.lines == [("detect", d1, ""), ("detect", d2, ""), ("gather", g1, g2), ("affect", a1, a2)];
    assert DispatchLines(L[5..], RecorderBehaviour(), s4, decode) == Session([], [], s4, Ok(()));
    RecorderStep(L, 4, AffectReq(a1, a2), s3, decode);
    var e4: Session<Recorder, Error> := Session(["affected " + a1 + " " + a2], [Call.Affect(a1, a2)], s4, Ok(()));
    assert DispatchLines(L[4..], RecorderBehaviour(), s3, decode) == e4;
    RecorderStep(L, 3, GatherReq(g1, g2), s2, decode);
  }

  /** One request line of a script, answered by the recording handler. */
  lemma RecorderStep(lines: seq<string>, i: nat, req: Request, s: Recorder, decode: string -> Option<string>)
    requires i < |lines| && lines[i] == RequestLine(req)
    requires match req
      case Handshake => true
      case DetectReq(a) => PlainArg(a, decode)
      case GatherReq(a, b) => PlainArg(a, decode) && PlainArg(b, decode)
      case AffectReq(a, b) => PlainArg(a, decode) && PlainArg(b, decode)
    ensures
      var rest := DispatchLines(lines[i + 1..], RecorderBehaviour(), RecorderAfter(s, req), decode);
      DispatchLines(lines[i..], RecorderBehaviour(), s, decode)
        == Then(RecorderResponse(s, req), RecorderCalls(req), rest)
  {
    var b := RecorderBehaviour();
    DispatchLinesStep(lines, i, b, s, decode);
    match req
    case Handshake => HandshakeAnswered(b, s, decode);
    case DetectReq(a) => DetectAnswered(a, a, b, s, decode);
    case GatherReq(x, y) => GatherAnswered(x, y, x, y, b, s, decode);
    case AffectReq(x, y) => AffectAnswered(x, y, x, y, b, s, decode);
  }

  function RecorderAfter(s: Recorder, req: Request): Recorder
  {
    match req
    case Handshake => s
    case DetectReq(a) => Recorder(s.lines + [("detect", a, "")], !s.lastDetect)
    case GatherReq(a, b) => Recorder(s.lines + [("gather", a, b)], s.lastDetect)
    case AffectReq(a, b) => Recorder(s.lines + [("affect", a, b)], s.lastDetect)
  }

  function RecorderResponse(s: Recorder, req: Request): seq<string>
  {
    match req
    case Handshake => [HandshakeRs]
    case DetectReq(_) => [DetectAnswer(!s.lastDetect)]
    case GatherReq(a, b) => ["gathered " + a + " " + b]
    case AffectReq(a, b) => ["affected " + a + " " + b]
  }

  function RecorderCalls(req: Request): seq<Call>
  {
    match req
    case Handshake => []
    case DetectReq(a) => [Call.Detect(a)]
    case GatherReq(a, b) => [Call.Gather(a, b)]
    case AffectReq(a, b) => [Call.Affect(a, b)]
  }

  lemma DispatchLinesStep<S>(lines: seq<string>, i: nat, b: Behaviour<S>, s: S, decode: string -> Option<string>)
    requires i < |lines|
    ensures
      var step := Respond(lines[i], b, s, decode);
      DispatchLines(lines[i..], b, s, decode)
        == if step.Stop? then Session([], step.calls, step.state, Err(step.error))
           else Then([step.response], step.calls, DispatchLines(lines[i + 1..], b, step.state, decode))
  {
    assert lines[i..][0] == lines[i] && lines[i..][1..] == lines[i + 1..];
  }
}
