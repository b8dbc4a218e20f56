/** The two ends of the effector line protocol against each other: the request
    lines `ChildProc` writes (src/effectors.rs) are the command lines
    `Callee::serve` understands (effectors/src/lib.rs), and the lines it answers,
    once written with their newline, are the responses `ChildProc` accepts. The
    percent-encoding is given as a pair of functions whose round trip holds on the
    paths involved and whose encoded forms contain no space, as section 2.1 of
    RFC 3986 guarantees for the percent-encoding of any string. */
module Agreement {
  import opened Common
  import opened Effector
  import CP = ChildProcess
  import Callee

  /** `decode` undoes `encode` on `path`, and the encoded form has no space. */
  predicate RoundTrips(path: string, encode: string -> string, decode: string -> Option<string>)
  {
    decode(encode(path)) == Some(path) && ' ' !in encode(path)
  }

  /** A `detect` request reaches the effector as a call on the same path, and the
      answer to a successful call is read back as what the effector found. */
  lemma DetectAgrees<S>(path: string, encode: string -> string, decode: string -> Option<string>, b: Behaviour<S>, s: S)
    requires RoundTrips(path, encode, decode)
    ensures
      var r := Callee.Command(CP.DetectRequest(path, encode), b, s, decode);
      && r.calls == [Call.Detect(path)]
      && (b.detect(s, path).1.Ok? ==>
            r.Continue? && CP.DetectVerdict(r.response + "\n") == Ok(b.detect(s, path).1.value))
  {
    var raw := encode(path);
    assert CP.DetectRequest(path, encode) == "detect " + (raw + []);
    Callee.DetectAnswered(raw, [], path, b, s, decode);
    if b.detect(s, path).1.Ok? {
      CP.DetectVerdictTrailing(b.detect(s, path).1.value, "\n");
    }
  }

  /** A `gather` request reaches the effector as a call on the same path and shadow
      prefix, and the answer to a successful call is accepted. */
  lemma GatherAgrees<S>(path: string, shadow: string, encode: string -> string, decode: string -> Option<string>,
                        b: Behaviour<S>, s: S)
    requires RoundTrips(path, encode, decode) && RoundTrips(shadow, encode, decode)
    ensures
      var r := Callee.Command(CP.PathsRequest("gather", path, shadow, encode), b, s, decode);
      && r.calls == [Call.Gather(path, shadow)]
      && (b.gather(s, path, shadow).1.Ok? ==>
            r.Continue? && CP.Acknowledged("gather", "gathered", r.response + "\n") == Ok(()))
  {
    var raw1, raw2 := encode(path), encode(shadow);
    assert CP.PathsRequest("gather", path, shadow, encode) == "gather " + (raw1 + " " + (raw2 + []));
    Callee.GatherAnswered(raw1, raw2, [], path, shadow, b, s, decode);
  }

  /** The same for `affect`. */
  lemma AffectAgrees<S>(path: string, shadow: string, encode: string -> string, decode: string -> Option<string>,
                        b: Behaviour<S>, s: S)
    requires RoundTrips(path, encode, decode) && RoundTrips(shadow, encode, decode)
    ensures
      var r := Callee.Command(CP.PathsRequest("affect", path, shadow, encode), b, s, decode);
      && r.calls == [Call.Affect(path, shadow)]
      && (b.affect(s, path, shadow).1.Ok? ==>
            r.Continue? && CP.Acknowledged("affect", "affected", r.response + "\n") == Ok(()))
  {
    var raw1, raw2 := encode(path), encode(shadow);
    assert CP.PathsRequest("affect", path, shadow, encode) == "affect " + (raw1 + " " + (raw2 + []));
    Callee.AffectAnswered(raw1, raw2, [], path, shadow, b, s, decode);
  }

  /** The older callee's answers, which echo the raw arguments after the word, are
      accepted as well: only the prefix is checked. */
  lemma EchoedAnswerAccepted(verb: string, word: string, raw1: string, raw2: string)
    ensures CP.Acknowledged(verb, word, word + " " + raw1 + " " + raw2 + "\n") == Ok(())
  {
    assert word + " " + raw1 + " " + raw2 + "\n" == word + (" " + raw1 + " " + raw2 + "\n");
  }

  /** A child that answers the version-1 handshake request with the version-1
      response token, written with its newline, passes the handshake check. */
  lemma HandshakeAgrees(program: CP.Program, argv: seq<string>)
    requires program.reply(argv, [HandshakeRq]) == HandshakeRs + "\n"
    ensures CP.HandshakeOk(program, argv, HandshakeRq, HandshakeRs)
  {
    TrimEndExact(HandshakeRs, "\n");
  }
}
