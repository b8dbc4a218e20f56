/** The registry of effectors (`Effectors` in src/effectors.rs): every prefix of
    the script's `effectors` table is bound to a Lua effector, an in-process effector
    or an effector running as a child process, and each call on a prefix goes to
    the backend bound to it. Also `serve`, which picks the effector a child process
    runs by its name. */
module Registry {
  import opened Common
  import opened Effector
  import L = Lua
  import CP = ChildProcess

  // ---------------------------------------------------------------------------
  // Which effector a child process serves

  /** The effectors a child process can run. */
  datatype Builtin = Zeroinstall | Scp

  datatype ServeError = MissingName | UnknownName(name: string)

  /** `serve`: the first argument after the `effector` subcommand names the effector
      to run, and the arguments after it are handed to that effector. */
  function Route(args: seq<string>): (r: Result<(Builtin, seq<string>), ServeError>)
    ensures args == [] <==> r == Err(MissingName)
    ensures r.Ok? ==> r.value.1 == args[1..]
    ensures r.Ok? ==> (r.value.0 == Zeroinstall <==> args[0] == "*zeroinstall")
    ensures r.Ok? ==> (r.value.0 == Scp <==> args[0] == "*scp")
    ensures args != [] && args[0] != "*zeroinstall" && args[0] != "*scp" ==> r == Err(UnknownName(args[0]))
  {
    if args == [] then Err(MissingName)
    else if args[0] == "*zeroinstall" then Ok((Zeroinstall, args[1..]))
    else if args[0] == "*scp" then Ok((Scp, args[1..]))
    else Err(UnknownName(args[0]))
  }

  // ---------------------------------------------------------------------------
  // Classifying effector commands

  /** The backend a command asks for. */
  datatype Kind =
    | LuaKind(value: L.LuaValue)
    | NativeKind
    | ChildKind(name: string, args: seq<string>)
    | UnknownKind

  /** Lua is tried first, and any failure to bind a Lua effector falls through;
      then exactly `zeroinstall`, alone, is the in-process effector; then `*scp`
      followed by any arguments is a child process; anything else is unknown. */
  function Classify(lua: L.Interp, cmd: seq<string>): Kind
  {
    match L.LuaEffector(lua, cmd)
    case Ok(v) => LuaKind(v)
    case Err(_) =>
      if cmd == ["zeroinstall"] then NativeKind
      else if |cmd| >= 1 && cmd[0] == "*scp" then ChildKind(cmd[0], cmd[1..])
      else UnknownKind
  }

  /** What binding an effector depends on besides its command: the Lua interpreter,
      the program child processes run, the in-process effector (its behaviour and
      the outcome of creating it) and the handshake tokens. */
  datatype Env<!S> = Env(
    lua: L.Interp,
    program: CP.Program,
    zeroinstall: Behaviour<S>,
    zeroinstallNew: Result<S, string>,
    rq: string,
    rs: string)

  datatype InitError =
    | NativeFailed(message: string)
    | ChildFailed(error: CP.Error)
    | UnknownCommand(cmd: seq<string>)

  /** Whether binding one command succeeds: an in-process effector must be
      created, a child process must start and answer the handshake. */
  function Outcome<S>(env: Env<S>, cmd: seq<string>): Result<Kind, InitError>
  {
    match Classify(env.lua, cmd)
    case LuaKind(v) => Ok(LuaKind(v))
    case NativeKind =>
      if env.zeroinstallNew.Err? then Err(NativeFailed(env.zeroinstallNew.error)) else Ok(NativeKind)
    case ChildKind(name, args) =>
      if !env.program.starts(CP.Argv(name, args)) then Err(ChildFailed(CP.SpawnFailed(CP.Argv(name, args))))
      else if !CP.HandshakeOk(env.program, CP.Argv(name, args), env.rq, env.rs)
      then Err(ChildFailed(CP.BadHandshake(name, env.program.reply(CP.Argv(name, args), [env.rq]))))
      else Ok(ChildKind(name, args))
    case UnknownKind => Err(UnknownCommand(cmd))
  }

  /** In-process effectors need the exact one-word command `zeroinstall`. */
  lemma NativeNeedsExactCommand(lua: L.Interp, args: seq<string>)
    ensures Classify(lua, ["zeroinstall"] + args) == (if args == [] then NativeKind else UnknownKind)
  {
    assert (["zeroinstall"] + args)[0] == "zeroinstall";
    if args != [] {
      assert ["zeroinstall"] + args != ["zeroinstall"];
    }
  }

  /** `*scp` starts a child process with every word after it as its arguments. */
  lemma ScpTakesArguments(lua: L.Interp, args: seq<string>)
    ensures Classify(lua, ["*scp"] + args) == ChildKind("*scp", args)
  {
    assert (["*scp"] + args)[0] == "*scp";
    assert (["*scp"] + args)[1..] == args;
    assert ["*scp"] + args != ["zeroinstall"];
  }

  /** A `lua53` command whose script cannot be bound is reported as an unknown
      command: the Lua error itself is dropped. */
  lemma LuaFailureIsUnknown<S>(env: Env<S>, cmd: seq<string>)
    requires L.IsLuaCommand(cmd) && L.LuaEffector(env.lua, cmd).Err?
    ensures Outcome(env, cmd) == Err(UnknownCommand(cmd))
  {
    assert cmd != ["zeroinstall"];
  }

  // ---------------------------------------------------------------------------
  // The registry

  /** Where one prefix is bound, as its command asks: a Lua effector to its value,
      an in-process effector to one with that effector's behaviour, a child process
      to one running this program with the command's arguments. */
  ghost predicate Placed<S>(env: Env<S>, root: string, cmd: seq<string>, table: map<string, L.LuaValue>,
                            native: map<string, Handler<S>>, children: map<string, CP.ChildProc>)
  {
    match Classify(env.lua, cmd)
    case LuaKind(v) => root in table && table[root] == v
    case NativeKind => root in native && native[root].behaviour == env.zeroinstall
    case ChildKind(name, args) =>
      root in children && children[root].program == env.program && children[root].argv == CP.Argv(name, args)
    case UnknownKind => false
  }

  /** Nothing has been asked of the backends yet: every in-process effector is in
      the state it was created in, and every child process has only been through
      its handshake. */
  ghost predicate Pristine<S>(env: Env<S>, native: map<string, Handler<S>>, children: map<string, CP.ChildProc>)
    reads native.Values, children.Values
  {
    && (forall k :: k in native ==>
          env.zeroinstallNew == Ok(native[k].state) && native[k].calls == [])
    && (forall k :: k in children ==>
          children[k].sent == [env.rq] && children[k].received == [children[k].program.reply(children[k].argv, [env.rq])])
  }

  /** The first key, in the map's order, whose command cannot be bound. */
  ghost predicate FirstFailure<S>(env: Env<S>, spec: map<string, seq<string>>, root: string)
  {
    && root in spec && Outcome(env, spec[root]).Err?
    && forall k :: k in spec && StrLt(k, root) ==> Outcome(env, spec[k]).Ok?
  }

  datatype DispatchError =
    | ChildError(child: CP.Error)
    | NativeError(message: string)
    | LuaError(call: L.CallError)

  function FromChild<T>(r: Result<T, CP.Error>): Result<T, DispatchError>
  {
    match r
    case Ok(v) => Ok(v)
    case Err(e) => Err(ChildError(e))
  }

  function FromNative<T>(r: Result<T, string>): Result<T, DispatchError>
  {
    match r
    case Ok(v) => Ok(v)
    case Err(e) => Err(NativeError(e))
  }

  function FromLua<T>(r: Result<T, L.CallError>): Result<T, DispatchError>
  {
    match r
    case Ok(v) => Ok(v)
    case Err(e) => Err(LuaError(e))
  }

  /** Every key of `spec` is bound in exactly one of the three backends, as its
      command asks, nothing else is bound, and no backend has been used yet. */
  ghost predicate Bound<S>(env: Env<S>, spec: map<string, seq<string>>, table: map<string, L.LuaValue>,
                           native: map<string, Handler<S>>, children: map<string, CP.ChildProc>)
    reads native.Values, children.Values
  {
    && Partition(table, native, children, spec.Keys)
    && (forall root :: root in spec ==> Placed(env, root, spec[root], table, native, children))
    && Pristine(env, native, children)
  }

  class Effectors<S> {
    const lua: L.Interp
    const luaTable: L.LuaTable
    const rust: NativeMap<S>
    const childProcs: map<string, CP.ChildProc>

    constructor (lua: L.Interp, luaTable: L.LuaTable, rust: NativeMap<S>, childProcs: map<string, CP.ChildProc>)
      ensures this.lua == lua && this.luaTable == luaTable && this.rust == rust && this.childProcs == childProcs
    {
      this.lua := lua;
      this.luaTable := luaTable;
      this.rust := rust;
      this.childProcs := childProcs;
    }

    /** Every key of `spec` is bound in exactly one of the three backends, as its
        command asks, and nothing else is bound. */
    ghost predicate Binds(env: Env<S>, spec: map<string, seq<string>>)
      reads this, luaTable, rust, rust.bound.Values, childProcs.Values
    {
      lua == env.lua && Bound(env, spec, luaTable.entries, rust.bound, childProcs)
    }

    /** The backend objects a call on `prefix` may change. */
    function At(prefix: string): set<object>
      reads this, rust
    {
      (if prefix in childProcs then {childProcs[prefix]} else {}) + rust.At(prefix)
    }

    /** `detect`: a child process bound to the prefix comes first, then an
        in-process effector, then the Lua effector's `exists`. The backend is given
        the subpath. */
    method Detect(prefix: string, subpath: string, encode: string -> string) returns (r: Result<bool, DispatchError>)
      modifies At(prefix)
      ensures prefix in childProcs ==>
        var child := childProcs[prefix];
        && child.sent == old(child.sent) + [CP.DetectRequest(subpath, encode)]
        && child.received == old(child.received) + [child.program.reply(child.argv, child.sent)]
        && r == FromChild(CP.DetectVerdict(child.program.reply(child.argv, child.sent)))
      ensures prefix !in childProcs && prefix in rust.bound ==>
        var h := rust.bound[prefix];
        && (h.state, r) == (h.behaviour.detect(old(h.state), subpath).0, FromNative(h.behaviour.detect(old(h.state), subpath).1))
        && h.calls == old(h.calls) + [Call.Detect(subpath)]
      ensures prefix !in childProcs && prefix !in rust.bound ==>
        r == FromLua(L.LuaDetect(lua, luaTable.entries, prefix, subpath))
    {
      if prefix in childProcs {
        var v := childProcs[prefix].Detect(subpath, encode);
        return FromChild(v);
      }
      var rustResult := rust.MaybeDetect(prefix, subpath);
      if rustResult.Some? {
        return FromNative(rustResult.value);
      }
      var res := L.CallMethod(lua, luaTable.entries, prefix, "exists", [subpath]);
      if res.Err? {
        return Err(LuaError(res.error));
      }
      return Ok(L.Truthy(res.value));
    }

    /** `gather`: the same precedence. A child process or an in-process effector is
        given the subpath and the shadow side of its prefix, `shadow_root/prefix`;
        the Lua effector's `query` is given the subpath and the shadow side of the
        path itself, `shadow_root/prefix/subpath`. */
    method Gather(prefix: string, subpath: string, shadowRoot: string, encode: string -> string)
      returns (r: Result<(), DispatchError>)
      modifies At(prefix)
      ensures prefix in childProcs ==>
        var child := childProcs[prefix];
        && child.sent == old(child.sent) + [CP.PathsRequest("gather", subpath, PathJoin(shadowRoot, prefix), encode)]
        && child.received == old(child.received) + [child.program.reply(child.argv, child.sent)]
        && r == FromChild(CP.Acknowledged("gather", "gathered", child.program.reply(child.argv, child.sent)))
      ensures prefix !in childProcs && prefix in rust.bound ==>
        var h := rust.bound[prefix];
        var step := h.behaviour.gather(old(h.state), subpath, PathJoin(shadowRoot, prefix));
        && h.state == step.0 && r == FromNative(step.1)
        && h.calls == old(h.calls) + [Call.Gather(subpath, PathJoin(shadowRoot, prefix))]
      ensures prefix !in childProcs && prefix !in rust.bound ==>
        r == FromLua(L.LuaCall2(lua, luaTable.entries, prefix, "query", subpath,
                                PathJoin(PathJoin(shadowRoot, prefix), subpath)))
    {
      if prefix in childProcs {
        var v := childProcs[prefix].Gather(subpath, PathJoin(shadowRoot, prefix), encode);
        return FromChild(v);
      }
      var rustResult := rust.MaybeGather(prefix, subpath, shadowRoot);
      if rustResult.Some? {
        return FromNative(rustResult.value);
      }
      var shadowPath := PathJoin(PathJoin(shadowRoot, prefix), subpath);
      var res := L.CallMethod(lua, luaTable.entries, prefix, "query", [subpath, shadowPath]);
      if res.Err? {
        return Err(LuaError(res.error));
      }
      return Ok(());
    }

    /** `affect`: as `gather`, calling `affect` and the Lua effector's `apply`. */
    method Affect(prefix: string, subpath: string, shadowRoot: string, encode: string -> string)
      returns (r: Result<(), DispatchError>)
      modifies At(prefix)
      ensures prefix in childProcs ==>
        var child := childProcs[prefix];
        && child.sent == old(child.sent) + [CP.PathsRequest("affect", subpath, PathJoin(shadowRoot, prefix), encode)]
        && child.received == old(child.received) + [child.program.reply(child.argv, child.sent)]
        && r == FromChild(CP.Acknowledged("affect", "affected", child.program.reply(child.argv, child.sent)))
      ensures prefix !in childProcs && prefix in rust.bound ==>
        var h := rust.bound[prefix];
        var step := h.behaviour.affect(old(h.state), subpath, PathJoin(shadowRoot, prefix));
        && h.state == step.0 && r == FromNative(step.1)
        && h.calls == old(h.calls) + [Call.Affect(subpath, PathJoin(shadowRoot, prefix))]
      ensures prefix !in childProcs && prefix !in rust.bound ==>
        r == FromLua(L.LuaCall2(lua, luaTable.entries, prefix, "apply", subpath,
                                PathJoin(PathJoin(shadowRoot, prefix), subpath)))
    {
      if prefix in childProcs {
        var v := childProcs[prefix].Affect(subpath, PathJoin(shadowRoot, prefix), encode);
        return FromChild(v);
      }
      var rustResult := rust.MaybeAffect(prefix, subpath, shadowRoot);
      if rustResult.Some? {
        return FromNative(rustResult.value);
      }
      var shadowPath := PathJoin(PathJoin(shadowRoot, prefix), subpath);
      var res := L.CallMethod(lua, luaTable.entries, prefix, "apply", [subpath, shadowPath]);
      if res.Err? {
        return Err(LuaError(res.error));
      }
      return Ok(());
    }
  }

  /** `Effectors::init`: bind the keys of `spec` one at a time, in key order,
      stopping at the first command that cannot be bound. It succeeds exactly when
      every command can be bound, and then binds every key as its command asks;
      otherwise it fails with the error of the first key, in key order, that
      cannot be bound. */
  method Init<S>(env: Env<S>, spec: map<string, seq<string>>) returns (r: Result<Effectors<S>, InitError>)
    ensures r.Ok? <==> forall root :: root in spec ==> Outcome(env, spec[root]).Ok?
    ensures r.Err? ==> exists root :: FirstFailure(env, spec, root) && r.error == Outcome(env, spec[root]).error
    ensures r.Ok? ==> fresh(r.value) && r.value.Binds(env, spec)
  {
    var luaTable := new L.LuaTable();
    var native := new NativeMap<S>();
    var children, bound := BindAll(env, spec, luaTable, native);
    if bound.Err? {
      return Err(bound.error);
    }
    var effectors := new Effectors(env.lua, luaTable, native, children);
    r := Ok(effectors);
  }

  /** The loop of `Effectors::init`, over the keys in order, on empty backends. */
  method BindAll<S>(env: Env<S>, spec: map<string, seq<string>>, luaTable: L.LuaTable, native: NativeMap<S>)
    returns (children: map<string, CP.ChildProc>, r: Result<(), InitError>)
    requires luaTable.entries == map[] && native.bound == map[]
    modifies luaTable, native
    ensures r.Ok? <==> forall root :: root in spec ==> Outcome(env, spec[root]).Ok?
    ensures r.Err? ==> exists root :: FirstFailure(env, spec, root) && r.error == Outcome(env, spec[root]).error
    ensures r.Ok? ==> Bound(env, spec, luaTable.entries, native.bound, children)
  {
    children := map[];
    var todo := spec.Keys;
    while todo != {}
      invariant todo <= spec.Keys
      invariant forall d, t :: d in spec.Keys - todo && t in todo ==> StrLt(d, t)
      invariant Progress(env, spec, spec.Keys - todo, luaTable.entries, native.bound, children)
      invariant Pristine(env, native.bound, children)
      decreases |todo|
    {
      var root, bound;
      root, children, bound := BindNext(env, spec, todo, luaTable, native, children);
      if bound.Err? {
        NotAllBound(env, spec, root);
        return children, Err(bound.error);
      }
      todo := todo - {root};
    }
    AllBound(env, spec, luaTable.entries, native.bound, children);
    r := Ok(());
  }

  /** Once every key is bound, every command could be bound and the backends hold
      them all. */
  lemma AllBound<S>(env: Env<S>, spec: map<string, seq<string>>, table: map<string, L.LuaValue>,
                    native: map<string, Handler<S>>, children: map<string, CP.ChildProc>)
    requires Progress(env, spec, spec.Keys, table, native, children) && Pristine(env, native, children)
    ensures forall root :: root in spec ==> Outcome(env, spec[root]).Ok?
    ensures Bound(env, spec, table, native, children)
  {
  }

  /** A first failure is a key whose command cannot be bound. */
  lemma NotAllBound<S>(env: Env<S>, spec: map<string, seq<string>>, root: string)
    requires FirstFailure(env, spec, root)
    ensures !forall k :: k in spec ==> Outcome(env, spec[k]).Ok?
  {
  }

  /** One turn of the loop of `Effectors::init`: bind the least key still to bind.
      On failure it is the first key that cannot be bound; otherwise it joins the
      keys bound, each still in exactly one backend. */
  method BindNext<S>(env: Env<S>, spec: map<string, seq<string>>, todo: set<string>,
                     luaTable: L.LuaTable, native: NativeMap<S>, children: map<string, CP.ChildProc>)
    returns (root: string, children': map<string, CP.ChildProc>, r: Result<(), InitError>)
    requires todo != {} && todo <= spec.Keys
    requires forall d, t :: d in spec.Keys - todo && t in todo ==> StrLt(d, t)
    requires Progress(env, spec, spec.Keys - todo, luaTable.entries, native.bound, children)
    requires Pristine(env, native.bound, children)
    modifies luaTable, native
    ensures IsLeast(root, todo)
    ensures r.Err? ==> FirstFailure(env, spec, root) && r.error == Outcome(env, spec[root]).error
    ensures r.Ok? ==>
      && Progress(env, spec, spec.Keys - (todo - {root}), luaTable.entries, native.bound, children')
      && Pristine(env, native.bound, children')
      && forall d, t :: d in spec.Keys - (todo - {root}) && t in todo - {root} ==> StrLt(d, t)
  {
    LeastExists(todo);
    root :| IsLeast(root, todo);
    ghost var done := spec.Keys - todo;
    ghost var before := (luaTable.entries, native.bound, children);
    children', r := Bind(env, root, spec[root], luaTable, native, children);
    if r.Err? {
      FirstFailureAt(env, spec, root, todo);
      return;
    }
    BindStep(env, spec, done, root, before.0, before.1, before.2, luaTable.entries, native.bound, children');
    LeastMoved(done, todo, root);
    assert done + {root} == spec.Keys - (todo - {root});
  }

  /** The keys in `done` are keys of `spec` whose commands could be bound, and
      each is bound, as its command asks, in exactly one backend. */
  ghost predicate Progress<S>(env: Env<S>, spec: map<string, seq<string>>, done: set<string>,
                              table: map<string, L.LuaValue>, native: map<string, Handler<S>>,
                              children: map<string, CP.ChildProc>)
  {
    && done <= spec.Keys
    && Partition(table, native, children, done)
    && forall d :: d in done ==> Outcome(env, spec[d]).Ok? && Placed(env, d, spec[d], table, native, children)
  }

  /** Binding one more key to one backend, without moving the earlier ones,
      extends the progress to it. */
  lemma BindStep<S>(env: Env<S>, spec: map<string, seq<string>>, done: set<string>, root: string,
                    table: map<string, L.LuaValue>, native: map<string, Handler<S>>, children: map<string, CP.ChildProc>,
                    table': map<string, L.LuaValue>, native': map<string, Handler<S>>, children': map<string, CP.ChildProc>)
    requires Progress(env, spec, done, table, native, children)
    requires root in spec && root !in done
    requires Outcome(env, spec[root]).Ok? && Placed(env, root, spec[root], table', native', children')
    requires Added(table, native, children, table', native', children', root)
    ensures Progress(env, spec, done + {root}, table', native', children')
  {
    PartitionGrows(table, native, children, table', native', children', done, root);
    forall d | d in done
      ensures Placed(env, d, spec[d], table', native', children')
    {
      PlacedGrows(env, d, spec[d], table, native, children, table', native', children');
    }
  }

  /** One turn of `Effectors::init`: bind `root` to the effector `cmd` asks for,
      trying Lua first, and add it to exactly one of the three backends. */
  method Bind<S>(env: Env<S>, root: string, cmd: seq<string>, luaTable: L.LuaTable, native: NativeMap<S>,
                 children: map<string, CP.ChildProc>)
    returns (children': map<string, CP.ChildProc>, r: Result<(), InitError>)
    requires root !in luaTable.entries && root !in native.bound && root !in children
    requires Pristine(env, native.bound, children)
    modifies luaTable, native
    ensures r.Ok? <==> Outcome(env, cmd).Ok?
    ensures r.Err? ==> r.error == Outcome(env, cmd).error
    ensures r.Ok? ==>
      && Placed(env, root, cmd, luaTable.entries, native.bound, children')
      && Pristine(env, native.bound, children')
      && Added(old(luaTable.entries), old(native.bound), children, luaTable.entries, native.bound, children', root)
  {
    children' := children;
    var luaResult := L.InitLua(env.lua, luaTable, root, cmd);
    if luaResult.Ok? {
      return children', Ok(());
    }
    if cmd == ["zeroinstall"] {
      if env.zeroinstallNew.Err? {
        return children', Err(NativeFailed(env.zeroinstallNew.error));
      }
      var h := new Handler(env.zeroinstall, env.zeroinstallNew.value);
      native.Insert(root, h);
    } else if |cmd| >= 1 && cmd[0] == "*scp" {
      var child := CP.NewEffector(env.program, cmd[0], cmd[1..], env.rq, env.rs);
      if child.Err? {
        return children', Err(ChildFailed(child.error));
      }
      children' := children[root := child.value];
    } else {
      return children', Err(UnknownCommand(cmd));
    }
    r := Ok(());
  }

  /** The keys bound so far are `done`, each in exactly one backend. */
  ghost predicate Partition<S>(table: map<string, L.LuaValue>, native: map<string, Handler<S>>,
                               children: map<string, CP.ChildProc>, done: set<string>)
  {
    && (forall k :: k in table ==> k in done && k !in native && k !in children)
    && (forall k :: k in native ==> k in done && k !in children)
    && (forall k :: k in children ==> k in done)
    && (forall k :: k in done ==> k in table || k in native || k in children)
  }

  /** `root`, and only `root`, has been added, to exactly one backend, and every
      earlier entry is kept as it was. */
  ghost predicate Added<S>(table: map<string, L.LuaValue>, native: map<string, Handler<S>>,
                           children: map<string, CP.ChildProc>,
                           table': map<string, L.LuaValue>, native': map<string, Handler<S>>,
                           children': map<string, CP.ChildProc>, root: string)
  {
    && (forall k :: k in table ==> k in table' && table'[k] == table[k])
    && (forall k :: k in native ==> k in native' && native'[k] == native[k])
    && (forall k :: k in children ==> k in children' && children'[k] == children[k])
    && (forall k :: k in table' ==> k in table || k == root)
    && (forall k :: k in native' ==> k in native || k == root)
    && (forall k :: k in children' ==> k in children || k == root)
    && (root in table' || root in native' || root in children')
    && (root in table' ==> root !in native' && root !in children')
    && (root in native' ==> root !in children')
  }

  lemma PartitionGrows<S>(table: map<string, L.LuaValue>, native: map<string, Handler<S>>,
                          children: map<string, CP.ChildProc>,
                          table': map<string, L.LuaValue>, native': map<string, Handler<S>>,
                          children': map<string, CP.ChildProc>, done: set<string>, root: string)
    requires Partition(table, native, children, done) && root !in done
    requires Added(table, native, children, table', native', children', root)
    ensures Partition(table', native', children', done + {root})
  {
  }

  /** Binding more keys keeps every earlier key where it was placed. */
  lemma PlacedGrows<S>(env: Env<S>, root: string, cmd: seq<string>,
                       table: map<string, L.LuaValue>, native: map<string, Handler<S>>, children: map<string, CP.ChildProc>,
                       table': map<string, L.LuaValue>, native': map<string, Handler<S>>, children': map<string, CP.ChildProc>)
    requires Placed(env, root, cmd, table, native, children)
    requires forall k :: k in table ==> k in table' && table'[k] == table[k]
    requires forall k :: k in native ==> k in native' && native'[k] == native[k]
    requires forall k :: k in children ==> k in children' && children'[k] == children[k]
    ensures Placed(env, root, cmd, table', native', children')
  {
  }

  /** The least key still to bind, when it cannot be bound, is the first failure:
      every key before it has been bound. */
  lemma FirstFailureAt<S>(env: Env<S>, spec: map<string, seq<string>>, root: string, todo: set<string>)
    requires todo <= spec.Keys && IsLeast(root, todo)
    requires forall d :: d in spec.Keys - todo ==> Outcome(env, spec[d]).Ok?
    requires Outcome(env, spec[root]).Err?
    ensures FirstFailure(env, spec, root)
  {
    forall k | k in spec && StrLt(k, root)
      ensures Outcome(env, spec[k]).Ok?
    {
      if k in todo {
        assert false;
      }
    }
  }
}
