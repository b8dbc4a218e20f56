/** The callee side of the effector line protocol as every effector binary serves
    it (`Callee::serve` in effectors/src/lib.rs): check the handshake on the first
    line, then answer `detect`/`gather`/`affect` command lines one at a time,
    flushing standard output after every response line. */
module Callee {
  import opened Common
  import opened Effector

  datatype Error =
    | HandshakeEof                   // no line at all
    | BadHandshake(line: string)     // the first line does not start with the request token
    | NoArgs(line: string)           // a command line without a space
    | TooFewArgs(command: string)    // `gather`/`affect` with fewer than two arguments
    | BadEncoding(raw: string)       // percent-decoding an argument failed
    | HandlerFailed(message: string)
    | UnknownCommand(command: string)

  // ---------------------------------------------------------------------------
  // Answering one command line

  /** The answer to one command line. The command is the text before the first
      space and its arguments are the rest split on every space. `detect` uses only
      its first argument (splitting never yields no field, so it always has one);
      `gather` and `affect` use the first two, the first one decoded first, and
      ignore the others. The response is the bare verb, without the arguments. */
  function Command<S>(line: string, b: Behaviour<S>, s: S, decode: string -> Option<string>): (r: Step<S, Error>)
    ensures |r.calls| <= 1
  {
    match SplitOnce(line, ' ')
    case None => Stop([], s, NoArgs(line))
    case Some((cmd, rest)) =>
      var args := SplitOn(rest, ' ');
      if cmd == "detect" then
        (match decode(args[0])
         case None => Stop([], s, BadEncoding(args[0]))
         case Some(p) =>
           var (s', res) := b.detect(s, p);
           match res
           case Err(m) => Stop([Call.Detect(p)], s', HandlerFailed(m))
           case Ok(found) => Continue(if found then "detected present" else "detected absent", [Call.Detect(p)], s'))
      else if cmd == "gather" then
        if |args| < 2 then Stop([], s, TooFewArgs(cmd))
        else
          (match (decode(args[0]), decode(args[1]))
           case (None, _) => Stop([], s, BadEncoding(args[0]))
           case (Some(_), None) => Stop([], s, BadEncoding(args[1]))
           case (Some(p1), Some(p2)) =>
             var (s', res) := b.gather(s, p1, p2);
             match res
             case Err(m) => Stop([Call.Gather(p1, p2)], s', HandlerFailed(m))
             case Ok(_) => Continue("gathered", [Call.Gather(p1, p2)], s'))
      else if cmd == "affect" then
        if |args| < 2 then Stop([], s, TooFewArgs(cmd))
        else
          (match (decode(args[0]), decode(args[1]))
           case (None, _) => Stop([], s, BadEncoding(args[0]))
           case (Some(_), None) => Stop([], s, BadEncoding(args[1]))
           case (Some(p1), Some(p2)) =>
             var (s', res) := b.affect(s, p1, p2);
             match res
             case Err(m) => Stop([Call.Affect(p1, p2)], s', HandlerFailed(m))
             case Ok(_) => Continue("affected", [Call.Affect(p1, p2)], s'))
      else Stop([], s, UnknownCommand(cmd))
  }

  /** A line without a space is not a command. */
  lemma NoSpaceRejected<S>(line: string, b: Behaviour<S>, s: S, decode: string -> Option<string>)
    requires ' ' !in line
    ensures Command(line, b, s, decode) == Stop([], s, NoArgs(line))
  {
  }

  /** `detect` with a first argument that decodes calls the effector once on the
      decoded path and answers whether it found it. Whatever follows the first
      argument is ignored, even text that would not decode. */
  lemma DetectAnswered<S>(raw: string, extra: string, path: string,
                          b: Behaviour<S>, s: S, decode: string -> Option<string>)
    requires ' ' !in raw && (extra == [] || extra[0] == ' ')
    requires decode(raw) == Some(path)
    ensures
      var r := Command("detect " + (raw + extra), b, s, decode);
      && r.calls == [Call.Detect(path)]
      && r.state == b.detect(s, path).0
      && (match b.detect(s, path).1
          case Ok(found) => r.Continue? && r.response == (if found then "detected present" else "detected absent")
          case Err(m) => r.Stop? && r.error == HandlerFailed(m))
  {
    assert "detect " + (raw + extra) == "detect" + [' '] + (raw + extra);
    SplitOnceAt("detect", raw + extra, ' ');
    SplitOnFirst(raw, extra, ' ');
  }

  /** A first argument to `detect` that does not decode stops serving before the
      effector is called. */
  lemma DetectUndecodable<S>(raw: string, extra: string, b: Behaviour<S>, s: S, decode: string -> Option<string>)
    requires ' ' !in raw && (extra == [] || extra[0] == ' ')
    requires decode(raw) == None
    ensures Command("detect " + (raw + extra), b, s, decode) == Stop([], s, BadEncoding(raw))
  {
    assert "detect " + (raw + extra) == "detect" + [' '] + (raw + extra);
    SplitOnceAt("detect", raw + extra, ' ');
    SplitOnFirst(raw, extra, ' ');
  }

  /** The first two arguments of a `gather` or `affect` line. */
  lemma TwoArgs(raw1: string, raw2: string, extra: string)
    requires ' ' !in raw1 && ' ' !in raw2 && (extra == [] || extra[0] == ' ')
    ensures |SplitOn(raw1 + " " + (raw2 + extra), ' ')| >= 2
    ensures SplitOn(raw1 + " " + (raw2 + extra), ' ')[0] == raw1
    ensures SplitOn(raw1 + " " + (raw2 + extra), ' ')[1] == raw2
  {
    assert raw1 + " " + (raw2 + extra) == raw1 + (" " + (raw2 + extra));
    SplitOnFirst(raw1, " " + (raw2 + extra), ' ');
    assert (" " + (raw2 + extra))[1..] == raw2 + extra;
    SplitOnFirst(raw2, extra, ' ');
  }

  /** `gather` with two arguments that decode calls the effector once on the two
      decoded paths and answers the bare word `gathered`; further arguments are
      ignored. */
  lemma GatherAnswered<S>(raw1: string, raw2: string, extra: string, path1: string, path2: string,
                          b: Behaviour<S>, s: S, decode: string -> Option<string>)
    requires ' ' !in raw1 && ' ' !in raw2 && (extra == [] || extra[0] == ' ')
    requires decode(raw1) == Some(path1) && decode(raw2) == Some(path2)
    ensures
      var r := Command("gather " + (raw1 + " " + (raw2 + extra)), b, s, decode);
      && r.calls == [Call.Gather(path1, path2)]
      && r.state == b.gather(s, path1, path2).0
      && (match b.gather(s, path1, path2).1
          case Ok(_) => r.Continue? && r.response == "gathered"
          case Err(m) => r.Stop? && r.error == HandlerFailed(m))
  {
    var rest := raw1 + " " + (raw2 + extra);
    assert "gather " + rest == "gather" + [' '] + rest;
    SplitOnceAt("gather", rest, ' ');
    assert SplitOnce("gather " + rest, ' ') == Some(("gather", rest));
    assert "gather" != "detect" by { assert "gather"[0] != "detect"[0]; }
    TwoArgs(raw1, raw2, extra);
    var args := SplitOn(rest, ' ');
    assert |args| >= 2 && args[0] == raw1 && args[1] == raw2;
  }

  /** The same for `affect`, which answers `affected`. */
  lemma AffectAnswered<S>(raw1: string, raw2: string, extra: string, path1: string, path2: string,
                          b: Behaviour<S>, s: S, decode: string -> Option<string>)
    requires ' ' !in raw1 && ' ' !in raw2 && (extra == [] || extra[0] == ' ')
    requires decode(raw1) == Some(path1) && decode(raw2) == Some(path2)
    ensures
      var r := Command("affect " + (raw1 + " " + (raw2 + extra)), b, s, decode);
      && r.calls == [Call.Affect(path1, path2)]
      && r.state == b.affect(s, path1, path2).0
      && (match b.affect(s, path1, path2).1
          case Ok(_) => r.Continue? && r.response == "affected"
          case Err(m) => r.Stop? && r.error == HandlerFailed(m))
  {
    var rest := raw1 + " " + (raw2 + extra);
    assert "affect " + rest == "affect" + [' '] + rest;
    SplitOnceAt("affect", rest, ' ');
    assert SplitOnce("affect " + rest, ' ') == Some(("affect", rest));
    assert "affect" != "detect" by { assert "affect"[0] != "detect"[0]; }
    assert "affect" != "gather" by { assert "affect"[0] != "gather"[0]; }
    TwoArgs(raw1, raw2, extra);
    var args := SplitOn(rest, ' ');
    assert |args| >= 2 && args[0] == raw1 && args[1] == raw2;
  }

  /** Of two arguments that do not decode, the first one is reported, and the
      effector is not called. */
  lemma TwoUndecodable<S>(verb: string, raw1: string, raw2: string, extra: string,
                          b: Behaviour<S>, s: S, decode: string -> Option<string>)
    requires verb == "gather" || verb == "affect"
    requires ' ' !in raw1 && ' ' !in raw2 && (extra == [] || extra[0] == ' ')
    requires decode(raw1) == None || decode(raw2) == None
    ensures Command(verb + " " + (raw1 + " " + (raw2 + extra)), b, s, decode)
      == Stop([], s, BadEncoding(if decode(raw1) == None then raw1 else raw2))
  {
    var rest := raw1 + " " + (raw2 + extra);
    assert verb + " " + rest == verb + [' '] + rest;
    SplitOnceAt(verb, rest, ' ');
    TwoArgs(raw1, raw2, extra);
    var args := SplitOn(rest, ' ');
    assert |args| >= 2 && args[0] == raw1 && args[1] == raw2;
    if verb == "gather" {
      assert SplitOnce(verb + " " + rest, ' ') == Some(("gather", rest));
    } else {
      assert SplitOnce(verb + " " + rest, ' ') == Some(("affect", rest));
    }
  }

  /** `gather` or `affect` with a single argument is an error, and the effector is
      not called. */
  lemma OneArgRejected<S>(verb: string, raw: string, b: Behaviour<S>, s: S, decode: string -> Option<string>)
    requires verb == "gather" || verb == "affect"
    requires ' ' !in raw
    ensures Command(verb + " " + raw, b, s, decode) == Stop([], s, TooFewArgs(verb))
  {
    assert verb + " " + raw == verb + [' '] + raw;
    SplitOnceAt(verb, raw, ' ');
  }

  /** A command word other than the three verbs is an error, whatever its
      arguments. */
  lemma UnknownRejected<S>(cmd: string, rest: string, b: Behaviour<S>, s: S, decode: string -> Option<string>)
    requires ' ' !in cmd && cmd != "detect" && cmd != "gather" && cmd != "affect"
    ensures Command(cmd + " " + rest, b, s, decode) == Stop([], s, UnknownCommand(cmd))
  {
    assert cmd + " " + rest == cmd + [' '] + rest;
    SplitOnceAt(cmd, rest, ' ');
  }

  // ---------------------------------------------------------------------------
  // Serving a whole input

  /** Serving the lines of standard input: the first line must start with the
      handshake token (more text may follow it) and is answered with the response
      token; the command lines that follow are answered in turn. */
  function Served<S>(lines: seq<string>, b: Behaviour<S>, s: S, decode: string -> Option<string>): (r: Session<S, Error>)
    ensures r.result.Ok? ==> |r.responses| == |lines|
    ensures |r.calls| <= |r.responses|
  {
    if lines == [] then Session([], [], s, Err(HandshakeEof))
    else if !(HandshakeRq <= lines[0]) then Session([], [], s, Err(BadHandshake(lines[0])))
    else CommandCounts(lines[1..], b, s, decode); Then([HandshakeRs], [], Commands(lines[1..], b, s, decode))
  }

  /** A first line that starts with the handshake token, whatever follows the
      token, is answered with the response token alone, without a call on the
      effector; the command lines after it are then served. */
  lemma HandshakeAccepted<S>(lines: seq<string>, b: Behaviour<S>, s: S, decode: string -> Option<string>)
    requires lines != [] && HandshakeRq <= lines[0]
    ensures
      var commands := Commands(lines[1..], b, s, decode);
      Served(lines, b, s, decode) == Session([HandshakeRs] + commands.responses, commands.calls, commands.state, commands.result)
  {
    assert [] + Commands(lines[1..], b, s, decode).calls == Commands(lines[1..], b, s, decode).calls;
  }

  /** Without a first line, or when it does not start with the handshake token,
      serving fails before anything is written or any call is made. */
  lemma HandshakeRejected<S>(lines: seq<string>, b: Behaviour<S>, s: S, decode: string -> Option<string>)
    requires lines == [] || !(HandshakeRq <= lines[0])
    ensures Served(lines, b, s, decode)
      == Session([], [], s, Err(if lines == [] then HandshakeEof else BadHandshake(lines[0])))
  {
  }

  /** The end of input right after the handshake ends serving successfully. */
  lemma EndAfterHandshake<S>(handshake: string, b: Behaviour<S>, s: S, decode: string -> Option<string>)
    requires HandshakeRq <= handshake
    ensures Served([handshake], b, s, decode) == Session([HandshakeRs], [], s, Ok(()))
  {
    HandshakeAccepted([handshake], b, s, decode);
  }

  /** The command lines after the handshake, answered in turn until the end of
      input, which ends serving successfully, or until one of them stops it. */
  function Commands<S>(lines: seq<string>, b: Behaviour<S>, s: S, decode: string -> Option<string>): Session<S, Error>
    decreases |lines|, 1
  {
    if lines == [] then Session([], [], s, Ok(())) else Answering(lines, b, s, decode)
  }

  /** The session once the first of the remaining lines is answered: it stops
      there, or that line's response and calls come first and the other lines
      follow. */
  function Answering<S>(lines: seq<string>, b: Behaviour<S>, s: S, decode: string -> Option<string>): Session<S, Error>
    requires lines != []
    decreases |lines|, 0
  {
    match Command(lines[0], b, s, decode)
    case Stop(calls, s', e) => Session([], calls, s', Err(e))
    case Continue(response, calls, s') => Then([response], calls, Commands(lines[1..], b, s', decode))
  }

  /** Every command line answered gives exactly one response line: all of them
      when serving ends successfully, fewer than were given when a line stops it.
      Every call on the effector but one that failed is answered. */
  lemma {:induction false} CommandCounts<S>(lines: seq<string>, b: Behaviour<S>, s: S, decode: string -> Option<string>)
    ensures var r := Commands(lines, b, s, decode);
      && (r.result.Ok? ==> |r.responses| == |lines|)
      && (r.result.Err? ==> |r.responses| < |lines|)
      && |r.calls| <= |r.responses| + (if r.result.Ok? then 0 else 1)
    decreases |lines|
  {
    if lines != [] {
      match Command(lines[0], b, s, decode)
      case Stop(_, _, _) =>
      case Continue(_, _, s') => CommandCounts(lines[1..], b, s', decode);
    }
  }

  // ---------------------------------------------------------------------------
  // Standard output

  /** A locked, buffered standard output: written lines wait in `buffered` until a
      flush delivers them. */
  class Stdout {
    var buffered: seq<string>
    var delivered: seq<string>

    constructor ()
      ensures buffered == [] && delivered == []
    {
      buffered := [];
      delivered := [];
    }

    method WriteLine(line: string)
      modifies this
      ensures buffered == old(buffered) + [line] && delivered == old(delivered)
    {
      buffered := buffered + [line];
    }

    method Flush()
      modifies this
      ensures delivered == old(delivered) + old(buffered) && buffered == []
    {
      delivered := delivered + buffered;
      buffered := [];
    }
  }

  // ---------------------------------------------------------------------------
  // The serving loop

  /** `serve`, once the effector is started: the effector's state and trace advance
      as `Served` says and the result is the session's. Nothing is written when the
      handshake fails; otherwise every response line has been flushed when `serve`
      returns, whether it ends successfully or with an error. */
  method Serve<S>(input: seq<string>, c: Handler<S>, out: Stdout, decode: string -> Option<string>)
    returns (r: Result<(), Error>)
    modifies c, out
    ensures
      var session := Served(input, c.behaviour, old(c.state), decode);
      && r == session.result
      && c.state == session.state
      && c.calls == old(c.calls) + session.calls
      && (session.responses == [] ==> out.delivered == old(out.delivered) && out.buffered == old(out.buffered))
      && (session.responses != [] ==>
            out.delivered == old(out.delivered) + old(out.buffered) + session.responses && out.buffered == [])
  {
    if input == [] {
      HandshakeRejected(input, c.behaviour, c.state, decode);
      return Err(HandshakeEof);
    }
    var handshake := input[0];
    if !(HandshakeRq <= handshake) {
      HandshakeRejected(input, c.behaviour, c.state, decode);
      return Err(BadHandshake(handshake));
    }
    HandshakeAccepted(input, c.behaviour, c.state, decode);
    out.WriteLine(HandshakeRs);
    out.Flush();
    r := ServeCommands(input[1..], c, out, decode);
  }

  /** The command loop of `serve`, entered with nothing waiting in the output
      buffer: each response line is written and flushed before the next line is
      read. */
  method ServeCommands<S>(lines: seq<string>, c: Handler<S>, out: Stdout, decode: string -> Option<string>)
    returns (r: Result<(), Error>)
    requires out.buffered == []
    modifies c, out
    ensures
      var session := Commands(lines, c.behaviour, old(c.state), decode);
      && r == session.result
      && c.state == session.state
      && c.calls == old(c.calls) + session.calls
      && out.buffered == [] && out.delivered == old(out.delivered) + session.responses
  {
    ghost var calls0 := c.calls;
    ghost var delivered0 := out.delivered;
    ghost var total := Commands(lines, c.behaviour, c.state, decode);
    var inLines := lines;
    ghost var written: seq<string> := [];
    ghost var calls: seq<Call> := [];
    assert Then(written, calls, total) == total;
    while inLines != []
      invariant c.calls == calls0 + calls
      invariant out.buffered == [] && out.delivered == delivered0 + written
      invariant Then(written, calls, Commands(inLines, c.behaviour, c.state, decode)) == total
      decreases |inLines|
    {
      var answer;
      ghost var delta;
      inLines, answer, delta := NextCommand(inLines, c, out, decode);
      AppendSlice(calls0, calls, delta);
      if answer.Err? {
        ThenLast(written, calls, Session([], delta, c.state, Err(answer.error)));
        return Err(answer.error);
      }
      ThenThen(written, calls, [answer.value], delta, Commands(inLines, c.behaviour, c.state, decode));
      written := written + [answer.value];
      calls := calls + delta;
    }
    ThenLast(written, calls, Commands([], c.behaviour, c.state, decode));
    return Ok(());
  }

  /** One turn of the loop: take the next line, answer it and, with `Ok`, write
      the response line and flush it. With `Ok`, the response line and the calls
      made are the first of the session, which goes on with the remaining lines;
      with `Err`, the session ends here and nothing is written. */
  method NextCommand<S>(inLines: seq<string>, c: Handler<S>, out: Stdout, decode: string -> Option<string>)
    returns (rest: seq<string>, r: Result<string, Error>, ghost delta: seq<Call>)
    requires inLines != [] && out.buffered == []
    modifies c, out
    ensures c.calls == old(c.calls) + delta && rest == inLines[1..] && out.buffered == []
    ensures r.Err? ==>
      && Commands(inLines, c.behaviour, old(c.state), decode) == Session([], delta, c.state, Err(r.error))
      && out.delivered == old(out.delivered)
    ensures r.Ok? ==>
      && Commands(inLines, c.behaviour, old(c.state), decode)
           == Then([r.value], delta, Commands(rest, c.behaviour, c.state, decode))
      && out.delivered == old(out.delivered) + [r.value]
  {
    ghost var session := Answering(inLines, c.behaviour, c.state, decode);
    delta := Command(inLines[0], c.behaviour, c.state, decode).calls;
    var line := inLines[0];
    rest := inLines[1..];
    r := RunCommand(line, c, decode);
    if r.Ok? {
      out.WriteLine(r.value);
      out.Flush();
    }
  }

  /** The body of the loop for one command line: `Ok` with the response line to
      write, or the error that ends serving. */
  method RunCommand<S>(line: string, c: Handler<S>, decode: string -> Option<string>)
    returns (r: Result<string, Error>)
    modifies c
    ensures
      var step := Command(line, c.behaviour, old(c.state), decode);
      && c.state == step.state
      && c.calls == old(c.calls) + step.calls
      && r == (if step.Continue? then Ok(step.response) else Err(step.error))
  {
    var split := SplitOnce(line, ' ');
    if split.None? {
      return Err(NoArgs(line));
    }
    var (cmd, rest) := split.value;
    var args := SplitOn(rest, ' ');
    if cmd == "detect" {
      var path := decode(args[0]);
      if path.None? {
        return Err(BadEncoding(args[0]));
      }
      var found := c.Detect(path.value);
      if found.Err? {
        return Err(HandlerFailed(found.error));
      }
      return Ok(if found.value then "detected present" else "detected absent");
    } else if cmd == "gather" || cmd == "affect" {
      if |args| < 2 {
        return Err(TooFewArgs(cmd));
      }
      var path1 := decode(args[0]);
      if path1.None? {
        return Err(BadEncoding(args[0]));
      }
      var path2 := decode(args[1]);
      if path2.None? {
        return Err(BadEncoding(args[1]));
      }
      var done;
      if cmd == "gather" {
        done := c.Gather(path1.value, path2.value);
      } else {
        done := c.Affect(path1.value, path2.value);
      }
      if done.Err? {
        return Err(HandlerFailed(done.error));
      }
      return Ok(if cmd == "gather" then "gathered" else "affected");
    }
    return Err(UnknownCommand(cmd));
  }
}
