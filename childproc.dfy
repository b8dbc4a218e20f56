/** The caller side of the effector line protocol (`ChildProc` in
    src/effectors.rs): an effector running as a child process of the same program,
    started with `effector <name> <args...>`, sent one request line per call and
    read one response line back. The child is given as a `Program`: whether it
    starts, and what it answers to the lines it has been sent. */
module ChildProcess {
  import opened Common

  /** A child program as its caller sees it: whether it starts with these
      arguments, and the line it writes next (with its newline) given its arguments
      and every line sent to it so far; `""` once its output is closed. */
  datatype Program = Program(
    starts: seq<string> -> bool,
    reply: (seq<string>, seq<string>) -> string)

  datatype Error =
    | SpawnFailed(argv: seq<string>)
    | BadHandshake(name: string, response: string)
    | UnexpectedResponse(verb: string, response: string)

  /** The arguments the child is started with. */
  function Argv(name: string, args: seq<string>): (argv: seq<string>)
    ensures |argv| == |args| + 2 && argv[0] == "effector" && argv[1] == name && argv[2..] == args
  {
    ["effector", name] + args
  }

  /** The request line for `detect`: the verb and the percent-encoded path. */
  function DetectRequest(path: string, encode: string -> string): string
  {
    "detect " + encode(path)
  }

  /** The request line for `gather` and `affect`: the verb and both paths,
      percent-encoded, separated by single spaces. */
  function PathsRequest(verb: string, path: string, shadowPrefix: string, encode: string -> string): string
  {
    verb + " " + encode(path) + " " + encode(shadowPrefix)
  }

  /** The answer to `detect`, with trailing whitespace removed, must be exactly
      `detected present` or `detected absent`. */
  function DetectVerdict(response: string): (r: Result<bool, Error>)
    ensures r.Ok? <==> TrimEnd(response) == "detected present" || TrimEnd(response) == "detected absent"
    ensures r.Ok? ==> (r.value <==> TrimEnd(response) == "detected present")
    ensures r.Err? ==> r.error == UnexpectedResponse("detect", response)
  {
    var trimmed := TrimEnd(response);
    if trimmed == "detected present" then Ok(true)
    else if trimmed == "detected absent" then Ok(false)
    else Err(UnexpectedResponse("detect", response))
  }

  /** The answer to `gather` or `affect` need only start with `word`; whatever
      follows it, the arguments echoed back included, is not checked. */
  function Acknowledged(verb: string, word: string, response: string): (r: Result<(), Error>)
    ensures r.Ok? <==> word <= response
    ensures r.Err? ==> r.error == UnexpectedResponse(verb, response)
  {
    if word <= response then Ok(()) else Err(UnexpectedResponse(verb, response))
  }

  /** A response line's newline, or a carriage return before it, does not change
      the verdict on a `detect` answer. */
  lemma DetectVerdictTrailing(found: bool, w: string)
    requires forall i :: 0 <= i < |w| ==> IsWhitespace(w[i])
    ensures DetectVerdict((if found then "detected present" else "detected absent") + w) == Ok(found)
  {
    TrimEndExact(if found then "detected present" else "detected absent", w);
  }

  /** A running effector process. `sent` holds the lines written to its standard
      input and `received` the lines read from its standard output. */
  class ChildProc {
    const program: Program
    const argv: seq<string>
    var sent: seq<string>
    var received: seq<string>

    constructor (program: Program, argv: seq<string>)
      ensures this.program == program && this.argv == argv
      ensures sent == [] && received == []
    {
      this.program := program;
      this.argv := argv;
      sent := [];
      received := [];
    }

    /** `writeln!` on the child's standard input, an unbuffered pipe. */
    method WriteLine(line: string)
      modifies this
      ensures sent == old(sent) + [line] && received == old(received)
    {
      sent := sent + [line];
    }

    /** `read_line`: the next line the child writes, or `""` at the end of its
        output. */
    method ReadLine() returns (line: string)
      modifies this
      ensures line == program.reply(argv, sent)
      ensures sent == old(sent) && received == old(received) + [line]
    {
      line := program.reply(argv, sent);
      received := received + [line];
    }

    /** `detect`: send the request, read one line and judge it. */
    method Detect(path: string, encode: string -> string) returns (r: Result<bool, Error>)
      modifies this
      ensures sent == old(sent) + [DetectRequest(path, encode)]
      ensures received == old(received) + [program.reply(argv, sent)]
      ensures r == DetectVerdict(program.reply(argv, sent))
    {
      WriteLine("detect " + encode(path));
      var rs := ReadLine();
      r := DetectVerdict(rs);
    }

    /** `gather`: send the request, read one line, and require it to start with
        `gathered`. */
    method Gather(path: string, shadowPrefix: string, encode: string -> string) returns (r: Result<(), Error>)
      modifies this
      ensures sent == old(sent) + [PathsRequest("gather", path, shadowPrefix, encode)]
      ensures received == old(received) + [program.reply(argv, sent)]
      ensures r == Acknowledged("gather", "gathered", program.reply(argv, sent))
    {
      WriteLine(PathsRequest("gather", path, shadowPrefix, encode));
      var rs := ReadLine();
      if !("gathered" <= rs) {
        return Err(UnexpectedResponse("gather", rs));
      }
      return Ok(());
    }

    /** `affect`: the same, with `affected`. */
    method Affect(path: string, shadowPrefix: string, encode: string -> string) returns (r: Result<(), Error>)
      modifies this
      ensures sent == old(sent) + [PathsRequest("affect", path, shadowPrefix, encode)]
      ensures received == old(received) + [program.reply(argv, sent)]
      ensures r == Acknowledged("affect", "affected", program.reply(argv, sent))
    {
      WriteLine(PathsRequest("affect", path, shadowPrefix, encode));
      var rs := ReadLine();
      if !("affected" <= rs) {
        return Err(UnexpectedResponse("affect", rs));
      }
      return Ok(());
    }
  }

  /** The handshake succeeds when the child's first line, trailing whitespace
      removed, is exactly the expected response token. */
  predicate HandshakeOk(program: Program, argv: seq<string>, rq: string, rs: string)
  {
    TrimEnd(program.reply(argv, [rq])) == rs
  }

  /** `ChildProc::new_effector`: start the child, send it the handshake request
      token and check its answer. The tokens `rq` and `rs` are the protocol version's
      own, given as parameters. */
  method NewEffector(program: Program, name: string, args: seq<string>, rq: string, rs: string)
    returns (r: Result<ChildProc, Error>)
    ensures !program.starts(Argv(name, args)) ==> r == Err(SpawnFailed(Argv(name, args)))
    ensures program.starts(Argv(name, args)) && !HandshakeOk(program, Argv(name, args), rq, rs) ==>
      r == Err(BadHandshake(name, program.reply(Argv(name, args), [rq])))
    ensures r.Ok? <==> program.starts(Argv(name, args)) && HandshakeOk(program, Argv(name, args), rq, rs)
    ensures r.Ok? ==>
      && fresh(r.value)
      && r.value.program == program && r.value.argv == Argv(name, args)
      && r.value.sent == [rq] && r.value.received == [program.reply(Argv(name, args), [rq])]
  {
    var argv := Argv(name, args);
    if !program.starts(argv) {
      return Err(SpawnFailed(argv));
    }
    var child := new ChildProc(program, argv);
    child.WriteLine(rq);
    assert child.sent == [rq];
    var response := child.ReadLine();
    if TrimEnd(response) != rs {
      return Err(BadHandshake(name, response));
    }
    return Ok(child);
  }
}
