/** The registry of handlers (`Handlers` in src/handlers.rs): every prefix of the
    script's `handlers` table is bound to a Lua handler or to the in-process
    `zeroinstall` handler, and each call on a prefix goes to the handler bound to
    it. Unlike effectors, handlers never run as child processes. */
module Handlers {
  import opened Common
  import opened Effector
  import L = Lua

  /** The kind of handler a command asks for. */
  datatype Kind = LuaKind(value: L.LuaValue) | NativeKind | UnknownKind

  /** Lua is tried first, and any failure to bind a Lua handler falls through;
      then exactly `zeroinstall`, alone, is the in-process handler; anything else
      is unknown. */
  function Classify(lua: L.Interp, cmd: seq<string>): Kind
  {
    match L.LuaEffector(lua, cmd)
    case Ok(v) => LuaKind(v)
    case Err(_) => if cmd == ["zeroinstall"] then NativeKind else UnknownKind
  }

  /** What binding a handler depends on besides its command: the Lua interpreter
      and the in-process handler (its behaviour and the outcome of creating it). */
  datatype Env<!S> = Env(lua: L.Interp, zeroinstall: Behaviour<S>, zeroinstallNew: Result<S, string>)

  datatype InitError = NativeFailed(message: string) | UnknownCommand(cmd: seq<string>)

  /** Whether binding one command succeeds. */
  function Outcome<S>(env: Env<S>, cmd: seq<string>): Result<Kind, InitError>
  {
    match Classify(env.lua, cmd)
    case LuaKind(v) => Ok(LuaKind(v))
    case NativeKind =>
      if env.zeroinstallNew.Err? then Err(NativeFailed(env.zeroinstallNew.error)) else Ok(NativeKind)
    case UnknownKind => Err(UnknownCommand(cmd))
  }

  /** A handler command that is neither a bindable Lua script nor exactly
      `zeroinstall` is rejected, with the whole command in the error. */
  lemma UnknownRejected<S>(env: Env<S>, cmd: seq<string>)
    requires L.LuaEffector(env.lua, cmd).Err? && cmd != ["zeroinstall"]
    ensures Outcome(env, cmd) == Err(UnknownCommand(cmd))
  {
  }

  /** Handlers have no child-process form: `*scp` is not a handler command. */
  lemma NoChildHandlers<S>(env: Env<S>, args: seq<string>)
    ensures Outcome(env, ["*scp"] + args) == Err(UnknownCommand(["*scp"] + args))
  {
    assert (["*scp"] + args)[0] == "*scp";
    assert ["*scp"] + args != ["zeroinstall"];
  }

  /** Where one prefix is bound, as its command asks. */
  ghost predicate Placed<S>(env: Env<S>, root: string, cmd: seq<string>,
                            table: map<string, L.LuaValue>, native: map<string, Handler<S>>)
  {
    match Classify(env.lua, cmd)
    case LuaKind(v) => root in table && table[root] == v
    case NativeKind => root in native && native[root].behaviour == env.zeroinstall
    case UnknownKind => false
  }

  /** Every in-process handler is in the state it was created in. */
  ghost predicate Pristine<S>(env: Env<S>, native: map<string, Handler<S>>)
    reads native.Values
  {
    forall k :: k in native ==> env.zeroinstallNew == Ok(native[k].state) && native[k].calls == []
  }

  /** The keys bound so far are `done`, each in exactly one of the two tables. */
  ghost predicate Partition<S>(table: map<string, L.LuaValue>, native: map<string, Handler<S>>, done: set<string>)
  {
    && (forall k :: k in table ==> k in done && k !in native)
    && (forall k :: k in native ==> k in done)
    && (forall k :: k in done ==> k in table || k in native)
  }

  /** Every key of `spec` is bound as its command asks, nothing else is bound, and
      no handler has been used yet. */
  ghost predicate Bound<S>(env: Env<S>, spec: map<string, seq<string>>,
                           table: map<string, L.LuaValue>, native: map<string, Handler<S>>)
    reads native.Values
  {
    && Partition(table, native, spec.Keys)
    && (forall root :: root in spec ==> Placed(env, root, spec[root], table, native))
    && Pristine(env, native)
  }

  /** The first key, in the map's order, whose command cannot be bound. */
  ghost predicate FirstFailure<S>(env: Env<S>, spec: map<string, seq<string>>, root: string)
  {
    && root in spec && Outcome(env, spec[root]).Err?
    && forall k :: k in spec && StrLt(k, root) ==> Outcome(env, spec[k]).Ok?
  }

  datatype DispatchError = NativeError(message: string) | LuaError(call: L.CallError)

  function FromNative<T>(r: Result<T, string>): Result<T, DispatchError>
  {
    match r
    case Ok(v) => Ok(v)
    case Err(e) => Err(NativeError(e))
  }

  function FromLua<T>(r: Result<T, L.CallError>): Result<T, DispatchError>
  {
    match r
    case Ok(v) => Ok(v)
    case Err(e) => Err(LuaError(e))
  }

  class Handlers<S> {
    const lua: L.Interp
    const luaTable: L.LuaTable
    const rust: NativeMap<S>

    constructor (lua: L.Interp, luaTable: L.LuaTable, rust: NativeMap<S>)
      ensures this.lua == lua && this.luaTable == luaTable && this.rust == rust
    {
      this.lua := lua;
      this.luaTable := luaTable;
      this.rust := rust;
    }

    ghost predicate Binds(env: Env<S>, spec: map<string, seq<string>>)
      reads this, luaTable, rust, rust.bound.Values
    {
      lua == env.lua && Bound(env, spec, luaTable.entries, rust.bound)
    }

    /** `detect`: an in-process handler bound to the prefix comes first, then the
        Lua handler's `exists`. */
    method Detect(prefix: string, subpath: string) returns (r: Result<bool, DispatchError>)
      modifies rust.At(prefix)
      ensures prefix in rust.bound ==>
        var h := rust.bound[prefix];
        && (h.state, r) == (h.behaviour.detect(old(h.state), subpath).0, FromNative(h.behaviour.detect(old(h.state), subpath).1))
        && h.calls == old(h.calls) + [Call.Detect(subpath)]
      ensures prefix !in rust.bound ==> r == FromLua(L.LuaDetect(lua, luaTable.entries, prefix, subpath))
    {
      var rustResult := rust.MaybeDetect(prefix, subpath);
      if rustResult.Some? {
        return FromNative(rustResult.value);
      }
      var res := L.CallMethod(lua, luaTable.entries, prefix, "exists", [subpath]);
      if res.Err? {
        return Err(LuaError(res.error));
      }
      return Ok(L.Truthy(res.value));
    }

    /** `gather`: the in-process handler is given the subpath and
        `shadow_root/prefix`; the Lua handler's `query` the subpath and
        `shadow_root/prefix/subpath`. */
    method Gather(prefix: string, subpath: string, shadowRoot: string) returns (r: Result<(), DispatchError>)
      modifies rust.At(prefix)
      ensures prefix in rust.bound ==>
        var h := rust.bound[prefix];
        var step := h.behaviour.gather(old(h.state), subpath, PathJoin(shadowRoot, prefix));
        && h.state == step.0 && r == FromNative(step.1)
        && h.calls == old(h.calls) + [Call.Gather(subpath, PathJoin(shadowRoot, prefix))]
      ensures prefix !in rust.bound ==>
        r == FromLua(L.LuaCall2(lua, luaTable.entries, prefix, "query", subpath,
                                PathJoin(PathJoin(shadowRoot, prefix), subpath)))
    {
      var rustResult := rust.MaybeGather(prefix, subpath, shadowRoot);
      if rustResult.Some? {
        return FromNative(rustResult.value);
      }
      var shadowPath := PathJoin(PathJoin(shadowRoot, prefix), subpath);
      var res := L.CallMethod(lua, luaTable.entries, prefix, "query", [subpath, shadowPath]);
      if res.Err? {
        return Err(LuaError(res.error));
      }
      return Ok(());
    }

    /** `affect`: as `gather`, calling `affect` and the Lua handler's `apply`. */
    method Affect(prefix: string, subpath: string, shadowRoot: string) returns (r: Result<(), DispatchError>)
      modifies rust.At(prefix)
      ensures prefix in rust.bound ==>
        var h := rust.bound[prefix];
        var step := h.behaviour.affect(old(h.state), subpath, PathJoin(shadowRoot, prefix));
        && h.state == step.0 && r == FromNative(step.1)
        && h.calls == old(h.calls) + [Call.Affect(subpath, PathJoin(shadowRoot, prefix))]
      ensures prefix !in rust.bound ==>
        r == FromLua(L.LuaCall2(lua, luaTable.entries, prefix, "apply", subpath,
                                PathJoin(PathJoin(shadowRoot, prefix), subpath)))
    {
      var rustResult := rust.MaybeAffect(prefix, subpath, shadowRoot);
      if rustResult.Some? {
        return FromNative(rustResult.value);
      }
      var shadowPath := PathJoin(PathJoin(shadowRoot, prefix), subpath);
      var res := L.CallMethod(lua, luaTable.entries, prefix, "apply", [subpath, shadowPath]);
      if res.Err? {
        return Err(LuaError(res.error));
      }
      return Ok(());
    }
  }

  /** `Handlers::init`: bind the keys of `spec` in key order, stopping at the first
      command that cannot be bound. It succeeds exactly when every command can be
      bound, and then binds every key as its command asks; otherwise it fails with
      the error of the first key, in key order, that cannot be bound. */
  method Init<S>(env: Env<S>, spec: map<string, seq<string>>) returns (r: Result<Handlers<S>, InitError>)
    ensures r.Ok? <==> forall root :: root in spec ==> Outcome(env, spec[root]).Ok?
    ensures r.Err? ==> exists root :: FirstFailure(env, spec, root) && r.error == Outcome(env, spec[root]).error
    ensures r.Ok? ==> fresh(r.value) && r.value.Binds(env, spec)
  {
    var luaTable := new L.LuaTable();
    var native := new NativeMap<S>();
    var bound := BindAll(env, spec, luaTable, native);
    if bound.Err? {
      return Err(bound.error);
    }
    var handlers := new Handlers(env.lua, luaTable, native);
    r := Ok(handlers);
  }

  /** The loop of `Handlers::init`, over the keys in order, on empty tables. */
  method BindAll<S>(env: Env<S>, spec: map<string, seq<string>>, luaTable: L.LuaTable, native: NativeMap<S>)
    returns (r: Result<(), InitError>)
    requires luaTable.entries == map[] && native.bound == map[]
    modifies luaTable, native
    ensures r.Ok? <==> forall root :: root in spec ==> Outcome(env, spec[root]).Ok?
    ensures r.Err? ==> exists root :: FirstFailure(env, spec, root) && r.error == Outcome(env, spec[root]).error
    ensures r.Ok? ==> Bound(env, spec, luaTable.entries, native.bound)
  {
    var todo := spec.Keys;
    while todo != {}
      invariant todo <= spec.Keys
      invariant forall d, t :: d in spec.Keys - todo && t in todo ==> StrLt(d, t)
      invariant Progress(env, spec, spec.Keys - todo, luaTable.entries, native.bound)
      invariant Pristine(env, native.bound)
      decreases |todo|
    {
      var root, bound;
      root, bound := BindNext(env, spec, todo, luaTable, native);
      if bound.Err? {
        return Err(bound.error);
      }
      todo := todo - {root};
    }
    r := Ok(());
  }

  /** One turn of the loop of `Handlers::init`: bind the least key still to bind.
      On failure it is the first key that cannot be bound; otherwise it joins the
      keys bound, each still in exactly one of the two tables. */
  method BindNext<S>(env: Env<S>, spec: map<string, seq<string>>, todo: set<string>,
                     luaTable: L.LuaTable, native: NativeMap<S>)
    returns (root: string, r: Result<(), InitError>)
    requires todo != {} && todo <= spec.Keys
    requires forall d, t :: d in spec.Keys - todo && t in todo ==> StrLt(d, t)
    requires Progress(env, spec, spec.Keys - todo, luaTable.entries, native.bound)
    requires Pristine(env, native.bound)
    modifies luaTable, native
    ensures IsLeast(root, todo)
    ensures r.Err? ==> FirstFailure(env, spec, root) && r.error == Outcome(env, spec[root]).error
    ensures r.Ok? ==>
      && Progress(env, spec, spec.Keys - (todo - {root}), luaTable.entries, native.bound)
      && Pristine(env, native.bound)
      && forall d, t :: d in spec.Keys - (todo - {root}) && t in todo - {root} ==> StrLt(d, t)
  {
    LeastExists(todo);
    root :| IsLeast(root, todo);
    ghost var done := spec.Keys - todo;
    ghost var before := (luaTable.entries, native.bound);
    r := Bind(env, root, spec[root], luaTable, native);
    if r.Err? {
      FirstFailureAt(env, spec, root, todo);
      return;
    }
    BindStep(env, spec, done, root, before.0, before.1, luaTable.entries, native.bound);
    LeastMoved(done, todo, root);
    assert done + {root} == spec.Keys - (todo - {root});
  }

  /** The keys in `done` are keys of `spec` whose commands could be bound, and
      each is bound, as its command asks, in exactly one of the two tables. */
  ghost predicate Progress<S>(env: Env<S>, spec: map<string, seq<string>>, done: set<string>,
                              table: map<string, L.LuaValue>, native: map<string, Handler<S>>)
  {
    && done <= spec.Keys
    && Partition(table, native, done)
    && forall d :: d in done ==> Outcome(env, spec[d]).Ok? && Placed(env, d, spec[d], table, native)
  }

  /** Binding one more key, without moving the earlier ones, extends the
      progress to it. */
  lemma BindStep<S>(env: Env<S>, spec: map<string, seq<string>>, done: set<string>, root: string,
                    table: map<string, L.LuaValue>, native: map<string, Handler<S>>,
                    table': map<string, L.LuaValue>, native': map<string, Handler<S>>)
    requires Progress(env, spec, done, table, native)
    requires root in spec && root !in done && root !in table && root !in native
    requires Outcome(env, spec[root]).Ok? && Placed(env, root, spec[root], table', native')
    requires forall k :: k in table ==> k in table' && table'[k] == table[k]
    requires forall k :: k in native ==> k in native' && native'[k] == native[k]
    requires forall k :: k in table' ==> k in table || (k == root && root !in native')
    requires forall k :: k in native' ==> k in native || k == root
    ensures Progress(env, spec, done + {root}, table', native')
  {
    forall d | d in done
      ensures Placed(env, d, spec[d], table', native')
    {
      PlacedGrows(env, d, spec[d], table, native, table', native');
    }
  }

  /** One turn of `Handlers::init`: bind `root` to the handler `cmd` asks for,
      trying Lua first, in exactly one of the two tables. */
  method Bind<S>(env: Env<S>, root: string, cmd: seq<string>, luaTable: L.LuaTable, native: NativeMap<S>)
    returns (r: Result<(), InitError>)
    requires root !in luaTable.entries && root !in native.bound
    requires Pristine(env, native.bound)
    modifies luaTable, native
    ensures r.Ok? <==> Outcome(env, cmd).Ok?
    ensures r.Err? ==> r.error == Outcome(env, cmd).error
    ensures r.Ok? ==>
      && Placed(env, root, cmd, luaTable.entries, native.bound)
      && Pristine(env, native.bound)
      && (forall k :: k in old(luaTable.entries) ==> k in luaTable.entries && luaTable.entries[k] == old(luaTable.entries)[k])
      && (forall k :: k in old(native.bound) ==> k in native.bound && native.bound[k] == old(native.bound)[k])
      && (forall k :: k in luaTable.entries ==> k in old(luaTable.entries) || (k == root && root !in native.bound))
      && (forall k :: k in native.bound ==> k in old(native.bound) || k == root)
  {
    var luaResult := L.InitLua(env.lua, luaTable, root, cmd);
    if luaResult.Ok? {
      return Ok(());
    }
    if cmd != ["zeroinstall"] {
      return Err(UnknownCommand(cmd));
    }
    if env.zeroinstallNew.Err? {
      return Err(NativeFailed(env.zeroinstallNew.error));
    }
    var h := new Handler(env.zeroinstall, env.zeroinstallNew.value);
    native.Insert(root, h);
    r := Ok(());
  }

  /** Binding more keys keeps every earlier key where it was placed. */
  lemma PlacedGrows<S>(env: Env<S>, root: string, cmd: seq<string>,
                       table: map<string, L.LuaValue>, native: map<string, Handler<S>>,
                       table': map<string, L.LuaValue>, native': map<string, Handler<S>>)
    requires Placed(env, root, cmd, table, native)
    requires forall k :: k in table ==> k in table' && table'[k] == table[k]
    requires forall k :: k in native ==> k in native' && native'[k] == native[k]
    ensures Placed(env, root, cmd, table', native')
  {
  }

  /** The least key still to bind, when it cannot be bound, is the first failure. */
  lemma FirstFailureAt<S>(env: Env<S>, spec: map<string, seq<string>>, root: string, todo: set<string>)
    requires todo <= spec.Keys && IsLeast(root, todo)
    requires forall d :: d in spec.Keys - todo ==> Outcome(env, spec[d]).Ok?
    requires Outcome(env, spec[root]).Err?
    ensures FirstFailure(env, spec, root)
  {
    forall k | k in spec && StrLt(k, root)
      ensures Outcome(env, spec[k]).Ok?
    {
      if k in todo {
        assert false;
      }
    }
  }
}
