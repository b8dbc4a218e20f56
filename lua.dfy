/** The Lua side of the effector registry (`init_lua_effector` and
    `call_effector_method` in src/effectors.rs, `init_lua_handler` and
    `call_handler_method` in src/handlers.rs): what a Lua effector is bound to, and
    how its methods are called. The interpreter itself is given as functions
    (`Interp`): loading a script, reading a table's field, calling a function. */
module Lua {
  import opened Common

  /** The Lua values the binding tells apart: tables and functions by identity. */
  datatype LuaValue =
    | Nil
    | Boolean(b: bool)
    | Table(table: nat)
    | Function(fn: nat)
    | Other

  /** The interpreter, as far as the binding sees it. `load` reads the script file
      at a path and evaluates it; `get` reads a table's field (a missing field is
      `Nil`); `call` calls a function on string arguments and gives its first
      result or the error it raised. */
  datatype Interp = Interp(
    load: string -> Result<LuaValue, string>,
    get: (nat, string) -> LuaValue,
    call: (nat, seq<string>) -> Result<LuaValue, string>)

  /** A Lua table of effectors, by prefix; `set` replaces an entry. */
  class LuaTable {
    var entries: map<string, LuaValue>

    constructor ()
      ensures entries == map[]
    {
      entries := map[];
    }

    method Set(key: string, value: LuaValue)
      modifies this
      ensures entries == old(entries)[key := value]
    {
      entries := entries[key := value];
    }
  }

  /** Why a command does not give a Lua effector. */
  datatype InitError =
    | NotLua                       // not `lua53 <script> ...`
    | LoadFailed(message: string)  // reading or evaluating the script failed
    | ScriptNotTable(value: LuaValue)
    | InitFailed(message: string)  // the script's `init` raised an error
    | InitNotTable(value: LuaValue)

  /** A command names a Lua effector when it has at least two words, the first one
      `lua53`. */
  predicate IsLuaCommand(cmd: seq<string>)
  {
    |cmd| >= 2 && cmd[0] == "lua53"
  }

  /** The value a Lua effector is bound to: the table its script returns, or, when
      that table's `init` field is a function, the table `init` returns when called
      with the command's remaining words. */
  function LuaEffector(lua: Interp, cmd: seq<string>): Result<LuaValue, InitError>
  {
    if !IsLuaCommand(cmd) then Err(NotLua)
    else
      match lua.load(cmd[1])
      case Err(m) => Err(LoadFailed(m))
      case Ok(v) =>
        if !v.Table? then Err(ScriptNotTable(v))
        else
          match lua.get(v.table, "init")
          case Function(f) =>
            (match lua.call(f, cmd[2..])
             case Err(m) => Err(InitFailed(m))
             case Ok(ret) => if ret.Table? then Ok(ret) else Err(InitNotTable(ret)))
          case _ => Ok(v)
  }

  /** Only a Lua command can give a Lua effector, and a Lua effector is always bound
      to a table. */
  lemma LuaEffectorIsTable(lua: Interp, cmd: seq<string>)
    ensures LuaEffector(lua, cmd) == Err(NotLua) <==> !IsLuaCommand(cmd)
    ensures LuaEffector(lua, cmd).Ok? ==> LuaEffector(lua, cmd).value.Table?
  {
  }

  /** A script whose table has no `init` function binds the effector to that table
      itself, and the command's remaining words are not used. */
  lemma NoInitKeepsScriptTable(lua: Interp, cmd: seq<string>, t: nat)
    requires IsLuaCommand(cmd)
    requires lua.load(cmd[1]) == Ok(Table(t)) && !lua.get(t, "init").Function?
    ensures LuaEffector(lua, cmd) == Ok(Table(t))
  {
  }

  /** `init_lua_effector`: bind `root` in `dst` to the Lua effector of `cmd`. The
      value bound is first the script's table and is replaced by what `init`
      returns, if the table has an `init` function; nothing is bound on error. */
  method InitLua(lua: Interp, dst: LuaTable, root: string, cmd: seq<string>) returns (r: Result<(), InitError>)
    modifies dst
    ensures LuaEffector(lua, cmd).Ok? ==> r == Ok(()) && dst.entries == old(dst.entries)[root := LuaEffector(lua, cmd).value]
    ensures LuaEffector(lua, cmd).Err? ==> r == Err(LuaEffector(lua, cmd).error) && dst.entries == old(dst.entries)
  {
    if |cmd| < 2 || cmd[0] != "lua53" {
      return Err(NotLua);
    }
    var loaded := lua.load(cmd[1]);
    if loaded.Err? {
      return Err(LoadFailed(loaded.error));
    }
    var v := loaded.value;
    if !v.Table? {
      return Err(ScriptNotTable(v));
    }
    var init := lua.get(v.table, "init");
    if init.Function? {
      var ret := lua.call(init.fn, cmd[2..]);
      if ret.Err? {
        return Err(InitFailed(ret.error));
      }
      if !ret.value.Table? {
        return Err(InitNotTable(ret.value));
      }
      v := ret.value;
    }
    dst.Set(root, v);
    return Ok(());
  }

  /** Why calling a method of a Lua effector fails. */
  datatype CallError =
    | EffectorNotTable(prefix: string, value: LuaValue)  // also when no effector is bound to the prefix
    | MethodNotFunction(name: string, value: LuaValue)
    | Raised(message: string)

  /** `call_effector_method`: look the prefix up in the table of effectors (`Nil`
      when absent), require a table, look the method up in it, require a function,
      and call it on the arguments (the effector table itself is not passed). */
  function CallMethod(lua: Interp, effectors: map<string, LuaValue>, prefix: string, name: string, args: seq<string>)
    : (r: Result<LuaValue, CallError>)
    ensures prefix !in effectors ==> r == Err(EffectorNotTable(prefix, Nil))
    ensures prefix in effectors && !effectors[prefix].Table? ==> r == Err(EffectorNotTable(prefix, effectors[prefix]))
    ensures prefix in effectors && effectors[prefix].Table? && !lua.get(effectors[prefix].table, name).Function?
            ==> r == Err(MethodNotFunction(name, lua.get(effectors[prefix].table, name)))
    ensures prefix in effectors && effectors[prefix].Table? && lua.get(effectors[prefix].table, name).Function?
            ==> match lua.call(lua.get(effectors[prefix].table, name).fn, args)
                case Ok(v) => r == Ok(v)
                case Err(m) => r == Err(Raised(m))
    ensures r.Ok? ==> prefix in effectors && effectors[prefix].Table?
                      && lua.get(effectors[prefix].table, name).Function?
                      && lua.call(lua.get(effectors[prefix].table, name).fn, args) == Ok(r.value)
  {
    var effector := if prefix in effectors then effectors[prefix] else Nil;
    if !effector.Table? then Err(EffectorNotTable(prefix, effector))
    else
      var methodValue := lua.get(effector.table, name);
      if !methodValue.Function? then Err(MethodNotFunction(name, methodValue))
      else
        match lua.call(methodValue.fn, args)
        case Err(m) => Err(Raised(m))
        case Ok(v) => Ok(v)
  }

  /** A Lua result read as a `bool`: only `nil` and `false` are false. */
  predicate Truthy(v: LuaValue)
  {
    !(v.Nil? || v == Boolean(false))
  }

  /** `exists(subpath)`, read as a `bool`. */
  function LuaDetect(lua: Interp, effectors: map<string, LuaValue>, prefix: string, subpath: string)
    : Result<bool, CallError>
  {
    match CallMethod(lua, effectors, prefix, "exists", [subpath])
    case Err(e) => Err(e)
    case Ok(v) => Ok(Truthy(v))
  }

  /** `query(subpath, shadow)` or `apply(subpath, shadow)`, whose results are
      ignored. */
  function LuaCall2(lua: Interp, effectors: map<string, LuaValue>, prefix: string, name: string,
                    subpath: string, shadow: string): Result<(), CallError>
  {
    match CallMethod(lua, effectors, prefix, name, [subpath, shadow])
    case Err(e) => Err(e)
    case Ok(_) => Ok(())
  }
}
