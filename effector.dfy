/** The three-verb interface every effector implements (`detect`, `gather`,
    `affect`): the `Handler` trait of src/manaprotocol.rs and the `Callee` trait of
    effectors/src/lib.rs, and the map of in-process effectors by prefix
    (`RustEffectors` in src/effectors.rs, `RustHandlers` in src/handlers.rs). */
module Effector {
  import opened Common

  /** One call made on the interface. */
  datatype Call =
    | Detect(path: string)
    | Gather(path: string, shadow: string)
    | Affect(path: string, shadow: string)

  /** What an implementation does, as a function of its own state: each verb gives
      the next state and the verb's result (an error is the message it fails with). */
  datatype Behaviour<!S> = Behaviour(
    detect: (S, string) -> (S, Result<bool, string>),
    gather: (S, string, string) -> (S, Result<(), string>),
    affect: (S, string, string) -> (S, Result<(), string>))

  /** An implementation of the interface: its state changes with every call, and the
      ghost `calls` records the calls it has received, in order. */
  class Handler<S> {
    const behaviour: Behaviour<S>
    var state: S
    ghost var calls: seq<Call>

    constructor (behaviour: Behaviour<S>, state: S)
      ensures this.behaviour == behaviour && this.state == state && calls == []
    {
      this.behaviour := behaviour;
      this.state := state;
      calls := [];
    }

    method Detect(path: string) returns (r: Result<bool, string>)
      modifies this
      ensures (state, r) == behaviour.detect(old(state), path)
      ensures calls == old(calls) + [Call.Detect(path)]
    {
      var next;
      next, r := behaviour.detect(state, path).0, behaviour.detect(state, path).1;
      state := next;
      calls := calls + [Call.Detect(path)];
    }

    method Gather(path: string, shadow: string) returns (r: Result<(), string>)
      modifies this
      ensures (state, r) == behaviour.gather(old(state), path, shadow)
      ensures calls == old(calls) + [Call.Gather(path, shadow)]
    {
      var next;
      next, r := behaviour.gather(state, path, shadow).0, behaviour.gather(state, path, shadow).1;
      state := next;
      calls := calls + [Call.Gather(path, shadow)];
    }

    method Affect(path: string, shadow: string) returns (r: Result<(), string>)
      modifies this
      ensures (state, r) == behaviour.affect(old(state), path, shadow)
      ensures calls == old(calls) + [Call.Affect(path, shadow)]
    {
      var next;
      next, r := behaviour.affect(state, path, shadow).0, behaviour.affect(state, path, shadow).1;
      state := next;
      calls := calls + [Call.Affect(path, shadow)];
    }
  }

  /** In-process effectors by prefix. A `maybe_*` call answers `None` exactly when
      no effector is bound to the prefix; `gather` and `affect` hand the effector the
      shadow-side directory of its prefix, `shadow_root/prefix`. */
  class NativeMap<S> {
    var bound: map<string, Handler<S>>

    constructor ()
      ensures bound == map[]
    {
      bound := map[];
    }

    /** `map.insert`: bind `prefix` to `h`, replacing any earlier binding. */
    method Insert(prefix: string, h: Handler<S>)
      modifies this
      ensures bound == old(bound)[prefix := h]
    {
      bound := bound[prefix := h];
    }

    /** The effector a call on `prefix` may change: the one bound to it, if any. */
    function At(prefix: string): set<Handler<S>>
      reads this
    {
      if prefix in bound then {bound[prefix]} else {}
    }

    method MaybeDetect(prefix: string, subpath: string) returns (r: Option<Result<bool, string>>)
      modifies At(prefix)
      ensures r.None? <==> prefix !in bound
      ensures prefix in bound ==>
        && (bound[prefix].state, r.value) == bound[prefix].behaviour.detect(old(bound[prefix].state), subpath)
        && bound[prefix].calls == old(bound[prefix].calls) + [Call.Detect(subpath)]
    {
      if prefix in bound {
        var x := bound[prefix].Detect(subpath);
        r := Some(x);
      } else {
        r := None;
      }
    }

    method MaybeGather(prefix: string, subpath: string, shadowRoot: string) returns (r: Option<Result<(), string>>)
      modifies At(prefix)
      ensures r.None? <==> prefix !in bound
      ensures prefix in bound ==>
        var shadow := PathJoin(shadowRoot, prefix);
        && (bound[prefix].state, r.value) == bound[prefix].behaviour.gather(old(bound[prefix].state), subpath, shadow)
        && bound[prefix].calls == old(bound[prefix].calls) + [Call.Gather(subpath, shadow)]
    {
      if prefix in bound {
        var x := bound[prefix].Gather(subpath, PathJoin(shadowRoot, prefix));
        r := Some(x);
      } else {
        r := None;
      }
    }

    method MaybeAffect(prefix: string, subpath: string, shadowRoot: string) returns (r: Option<Result<(), string>>)
      modifies At(prefix)
      ensures r.None? <==> prefix !in bound
      ensures prefix in bound ==>
        var shadow := PathJoin(shadowRoot, prefix);
        && (bound[prefix].state, r.value) == bound[prefix].behaviour.affect(old(bound[prefix].state), subpath, shadow)
        && bound[prefix].calls == old(bound[prefix].calls) + [Call.Affect(subpath, shadow)]
    {
      if prefix in bound {
        var x := bound[prefix].Affect(subpath, PathJoin(shadowRoot, prefix));
        r := Some(x);
      } else {
        r := None;
      }
    }
  }

  /** The tokens of version 1 of the protocol: the caller's first line and the
      callee's answer to it. */
  const HandshakeRq: string := "com.akavel.mana.v1.rq"
  const HandshakeRs: string := "com.akavel.mana.v1.rs"

  /** What one request line leads to: a response line and the calls made, or the
      error that ends serving (with the calls made before it). */
  datatype Step<S, E> =
    | Continue(response: string, calls: seq<Call>, state: S)
    | Stop(calls: seq<Call>, state: S, error: E)

  /** The effect of serving a stream of requests: the response lines written, the
      calls made on the effector, its final state, and how serving ended. */
  datatype Session<S, E> = Session(responses: seq<string>, calls: seq<Call>, state: S, result: Result<(), E>)

  /** `responses` and `calls` happen first, then the rest of the session. */
  function Then<S, E>(responses: seq<string>, calls: seq<Call>, rest: Session<S, E>): Session<S, E>
  {
    Session(responses + rest.responses, calls + rest.calls, rest.state, rest.result)
  }

  lemma ThenThen<S, E>(w1: seq<string>, c1: seq<Call>, w2: seq<string>, c2: seq<Call>, rest: Session<S, E>)
    ensures Then(w1, c1, Then(w2, c2, rest)) == Then(w1 + w2, c1 + c2, rest)
  {
    assert w1 + (w2 + rest.responses) == (w1 + w2) + rest.responses;
    assert c1 + (c2 + rest.calls) == (c1 + c2) + rest.calls;
  }

  /** A rest that writes nothing adds only its calls, its state and its result. */
  lemma ThenLast<S, E>(w: seq<string>, c: seq<Call>, rest: Session<S, E>)
    requires rest.responses == []
    ensures Then(w, c, rest) == Session(w, c + rest.calls, rest.state, rest.result)
    ensures rest.calls == [] ==> c + rest.calls == c
  {
    assert w + [] == w;
  }

  lemma AppendSlice<T>(a: seq<T>, b: seq<T>, c: seq<T>)
    ensures a <= (a + b) + c
    ensures ((a + b) + c)[|a|..] == b + c
    ensures (a + b) + c == a + (b + c)
  {
  }

  /** The text `writeln!` produces for these lines. */
  function Text(lines: seq<string>): string
  {
    if lines == [] then [] else lines[0] + "\n" + Text(lines[1..])
  }
}
