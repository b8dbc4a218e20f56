# mana: the effector boundary, modelled in Dafny

mana reconciles a machine's state with a script. The script is a table holding
three entries:

- a shadow directory;
- a table of *effectors* (called *handlers* in the older code), each bound to a path
  prefix by a command;
- a `tree` of file contents.

An effector answers three verbs on paths below its prefix. `detect` says whether a
path is present. `gather` copies it to the shadow side. `affect` applies the shadow
side. This project models the code on both sides of that boundary and proves what
it promises:

- **The line protocol, callee side.** `ManaProtocol` models version 1 of the
  protocol, `parse_and_dispatch`. `Callee` models `Callee::serve`, which every
  effector binary runs. Each reads request lines, answers the handshake, splits
  commands into space-separated arguments and calls the effector on the
  percent-decoded arguments. It writes one response line per command.
- **The line protocol, caller side.** `ChildProcess` models `ChildProc`. It starts an
  effector as a child process, writes request lines to it and judges its answers.
  `Agreement` proves that the two ends understand each other.
- **The registry.** `Registry` models `Effectors` and `Handlers` models `Handlers`.
  `init` binds every prefix of the script to exactly one backend: a Lua effector, an
  in-process effector or a child process. `detect`/`gather`/`affect` go to the
  backend bound to the prefix, in a fixed order of precedence, with the
  shadow-side path that backend expects. `Lua` models how a Lua effector is bound
  and how its methods are called.
- **The script.** `Script` models `Script::parse_toml` in both versions. It takes
  the three entries out of the table, splits each command into its words and
  flattens the tree into a map from `/`-joined key paths to contents, walking it
  with an explicit stack.

Each mutating piece of the source is modelled as mutable Dafny state:

- the effector (`Effector.Handler`, with a ghost trace of the calls it received);
- the output stream (`Callee.Stdout`);
- the child process (`ChildProcess.ChildProc`);
- the backends (`Effector.NativeMap`, `Lua.LuaTable`);
- the script's table (`Script.TomlTable`).

Each loop of the source is a Dafny loop, proved against a function or predicate
that states what it computes:

- `Dispatch`/`Commands` for the two serving loops;
- `Outcome`/`Bound` for `init`;
- `SplitAll` and `Flattened` for the script.

A `BTreeMap` is iterated in key order. The model walks its keys the same way,
always taking the least key left, so that "the first failing key" means what it
means in the source.

Modules: `Common` (Option, Result, the Rust string and path operations used),
`Effector`, `ManaProtocol`, `Callee`, `ChildProcess`, `Lua`, `Registry`, `Handlers`,
`Script` and `Agreement`.

Two behaviours of the source are worth knowing; both are stated as proved lemmas:

- A `lua53` command whose script fails to load, or whose `init` fails, is reported
  as an *unknown effector command*, and the Lua error is dropped
  (`Registry.LuaFailureIsUnknown`).
- The version-1 callee answers `gathered <a> <b>`. The caller only checks the prefix
  `gathered`, so the old and new answers are both accepted
  (`Agreement.EchoedAnswerAccepted`).

## Model

| member | source | states |
|---|---|---|
| Common.TrimEnd | src/effectors.rs:55 | the result is a prefix of the input that does not end in whitespace, and everything dropped is whitespace |
| Common.SplitOn | effectors/src/lib.rs:48 | `split(' ')` gives at least one field, no field holds the separator, and joining the fields back gives the input |
| Common.SplitJoin | src/manaprotocol.rs:37 | splitting fields joined by a separator that none of them holds gives back those fields |
| Common.SplitOnce | effectors/src/lib.rs:45 | `split_once` fails exactly when there is no separator; otherwise it gives the text before the first separator and the text after it |
| Common.SplitWhitespaceIff | script/src/lib.rs:60 | the words are exactly the maximal runs of non-whitespace characters, in order: the string is the words interleaved with whitespace-only gaps, the gaps between words non-empty, and any such split of the string gives those words |
| Common.SplitWhitespaceJoin | script/src/lib.rs:60 | words joined by single spaces split back into the same words |
| Effector.Handler.Detect | src/manaprotocol.rs:9 | the effector's next state and answer are its behaviour's for this call, and the call is appended to its trace |
| Effector.Handler.Gather | src/manaprotocol.rs:10 | as `Detect`, for `gather` with the path and the shadow path |
| Effector.Handler.Affect | src/manaprotocol.rs:11 | as `Detect`, for `affect` |
| Effector.NativeMap.Insert | src/effectors.rs:136-138 | the prefix is bound to the new effector and every other binding is kept |
| Effector.NativeMap.MaybeDetect | src/effectors.rs:298-300 | `None` exactly when no effector is bound to the prefix; otherwise the bound effector's `detect` on the subpath, recorded in its trace; the copy for handlers at src/handlers.rs:165-167 does the same |
| Effector.NativeMap.MaybeGather | src/effectors.rs:302-311 | `None` exactly when nothing is bound; otherwise the bound effector's `gather` with the shadow path `shadow_root/prefix`; the copy for handlers at src/handlers.rs:169-178 does the same |
| Effector.NativeMap.MaybeAffect | src/effectors.rs:313-322 | as `MaybeGather`, for `affect`; the copy for handlers at src/handlers.rs:180-189 does the same |
| ManaProtocol.ParseLineSound | src/manaprotocol.rs:29-69 | a line is the handshake exactly when it is the request token; a request parsed from a line is written back as that same line, with space-free arguments |
| ManaProtocol.ParseRequestLine | src/manaprotocol.rs:33-69 | every request with space-free arguments is parsed back from the line it is written as (round trip) |
| ManaProtocol.ParseLineIff | src/manaprotocol.rs:29-69 | a line parses to a request exactly when it is that request written out with space-free arguments |
| ManaProtocol.DetectTwoArgs | src/manaprotocol.rs:37-39 | `detect` with a second argument is an arity error naming all the arguments |
| ManaProtocol.GatherOneArg | src/manaprotocol.rs:49-51 | `gather` or `affect` with a single argument is an arity error |
| ManaProtocol.ReadLine | src/manaprotocol.rs:22 | `read_line` takes a non-empty piece of the stream that ends at its first newline, or at the end of the stream; that piece followed by the rest is the stream |
| ManaProtocol.Respond | src/manaprotocol.rs:29-70 | one line causes at most one call, and a line that stops dispatching after a call stops it because the handler failed |
| ManaProtocol.Dispatch | src/manaprotocol.rs:14-72 | every call on the handler is answered by a response line, except a failing call that ends dispatching |
| ManaProtocol.HandshakeAnswered | src/manaprotocol.rs:29-32 | the request token is answered with the response token, with no call on the handler and its state unchanged |
| ManaProtocol.DetectAnswered | src/manaprotocol.rs:33-45 | a `detect` line whose argument decodes calls `detect` once on the decoded path; the answer is `detected present` when the handler returns true and `detected absent` when it returns false; a handler error stops dispatching |
| ManaProtocol.GatherAnswered | src/manaprotocol.rs:46-57 | a `gather` line whose two arguments decode calls `gather` once on the decoded paths, and the answer echoes the raw arguments |
| ManaProtocol.AffectAnswered | src/manaprotocol.rs:58-69 | the same for `affect` |
| ManaProtocol.UndecodableStops | src/manaprotocol.rs:40-65 | an argument that does not decode stops dispatching before the handler is called; of two arguments the first one is decoded first |
| ManaProtocol.DispatchLines | src/manaprotocol.rs:20-71 | every line answered gives exactly one response line; dispatching ends with `Ok` only after every line is answered |
| ManaProtocol.DispatchText | src/manaprotocol.rs:20-27 | dispatching the text of newline-free lines, each with its newline, is dispatching those lines: the newline is not part of the line |
| ManaProtocol.ParseAndDispatch | src/manaprotocol.rs:14-72 | the lines written, the result, the handler's final state and its calls are exactly those of `Dispatch` on the input |
| ManaProtocol.ServeLine | src/manaprotocol.rs:20-71 | one turn of the loop: its response and calls are the first of the session and the rest of the stream is dispatched next, or the session ends here with its error |
| ManaProtocol.NextLine | src/manaprotocol.rs:21-27 | the buffer is cleared, the next line is read into it and one trailing newline is dropped; the line holds no newline |
| ManaProtocol.AnswerLine | src/manaprotocol.rs:29-70 | the handler's state, its calls and the answer are exactly those `Respond` gives for the line |
| ManaProtocol.ParsingAndDispatching | src/manaprotocol.rs:126-168 | the test's five-line script, with any plain arguments, is answered with the response token, `detected present`, `detected absent` and the echoed `gather` and `affect` arguments; the recording handler sees the four requests in order |
| Callee.Command | effectors/src/lib.rs:45-72 | one command line causes at most one call on the effector |
| Callee.NoSpaceRejected | effectors/src/lib.rs:45-47 | a line without a space is an error, with no call |
| Callee.DetectAnswered | effectors/src/lib.rs:48-56 | `detect` uses only its first argument, and whatever follows it is ignored; it calls the effector once on the decoded path and answers `detected present` or `detected absent`; an effector error stops serving |
| Callee.DetectUndecodable | effectors/src/lib.rs:54 | a first argument to `detect` that does not decode stops serving, with no call |
| Callee.GatherAnswered | effectors/src/lib.rs:57-63 | `gather` with two decodable arguments calls the effector once on them, ignores further arguments and answers the bare word `gathered` |
| Callee.AffectAnswered | effectors/src/lib.rs:64-70 | the same for `affect`, answering `affected` |
| Callee.TwoUndecodable | effectors/src/lib.rs:61 | when an argument of `gather`/`affect` does not decode, the first one that does not is reported, with no call |
| Callee.OneArgRejected | effectors/src/lib.rs:58-60 | `gather`/`affect` with fewer than two arguments is an error, with no call |
| Callee.UnknownRejected | effectors/src/lib.rs:71 | any other command word is an `unknown command` error, whatever its arguments |
| Callee.Served | effectors/src/lib.rs:29-42 | when serving succeeds, every line (the handshake included) has a response line; there are never more calls than responses |
| Callee.HandshakeAccepted | effectors/src/lib.rs:32-36 | a first line that starts with the request token, whatever follows it, is answered with the response token alone, with no call; the command lines follow |
| Callee.HandshakeRejected | effectors/src/lib.rs:29-34 | no first line, or one that does not start with the request token, is an error before anything is written or called |
| Callee.EndAfterHandshake | effectors/src/lib.rs:40-42 | the end of input right after the handshake ends serving with `Ok` |
| Callee.CommandCounts | effectors/src/lib.rs:39-74 | with `Ok` every command line has a response; with an error fewer lines than were given are answered; every call but a failing last one is answered |
| Callee.Stdout.WriteLine | effectors/src/lib.rs:55 | the line is appended to the buffered output and nothing is delivered |
| Callee.Stdout.Flush | effectors/src/lib.rs:73 | everything buffered is delivered, in order |
| Callee.Serve | effectors/src/lib.rs:14-75 | the result, the effector's final state and its calls are those of `Served`; nothing is written when the handshake fails; otherwise every response line has been flushed when `serve` returns |
| Callee.ServeCommands | effectors/src/lib.rs:39-74 | the command loop's result, state and calls are those of `Commands`, and each response is flushed before the next line is read |
| Callee.NextCommand | effectors/src/lib.rs:40-47 | one turn: the response and calls are the first of the session and the remaining lines follow, or the session ends with this line's error |
| Callee.RunCommand | effectors/src/lib.rs:45-72 | the effector's state, its calls and the answer are those `Command` gives for the line |
| ChildProcess.Argv | src/effectors.rs:37-42 | the child is started with `effector`, the effector's name, then the command's arguments |
| ChildProcess.DetectVerdict | src/effectors.rs:76-81 | the answer, with trailing whitespace trimmed, is accepted exactly when it is `detected present` (true) or `detected absent` (false); anything else is an unexpected-response error |
| ChildProcess.Acknowledged | src/effectors.rs:93-97 | an answer is accepted exactly when it starts with the expected word; it is not trimmed and the rest is not checked |
| ChildProcess.DetectVerdictTrailing | src/effectors.rs:77 | a newline or a carriage return after the verdict does not change it |
| ChildProcess.ChildProc.WriteLine | src/effectors.rs:71-75 | the line is appended to what the child has been sent |
| ChildProcess.ChildProc.ReadLine | src/effectors.rs:62-67 | the line read is the child's next line given what it has been sent, and it is recorded |
| ChildProcess.ChildProc.Detect | src/effectors.rs:69-82 | sends `detect` with the encoded path, reads one line, and the result is that line's verdict |
| ChildProcess.ChildProc.Gather | src/effectors.rs:84-98 | sends `gather` with both encoded paths, reads one line, and accepts it when it starts with `gathered` |
| ChildProcess.ChildProc.Affect | src/effectors.rs:100-114 | the same for `affect` and `affected` |
| ChildProcess.NewEffector | src/effectors.rs:36-60 | a child that does not start is an error; a child whose first answer, trimmed, is not exactly the response token is a handshake error; otherwise a fresh child that has been sent exactly the request token |
| Lua.LuaTable.Set | src/effectors.rs:271 | the key is bound to the value and the other entries are kept |
| Lua.LuaEffectorIsTable | src/effectors.rs:238-270 | a command is `NotLua` exactly when it is not `lua53 <script> ...`, and a bound Lua effector is always a table |
| Lua.NoInitKeepsScriptTable | src/effectors.rs:255-271 | a script table without an `init` function is bound as it is, and the command's remaining words are not used |
| Lua.InitLua | src/effectors.rs:238-273 | on success the root is bound to the script's table, or to what its `init` returns when it has one; on failure nothing is bound and the error is the step that failed; the copy for handlers at src/handlers.rs:104-139 does the same |
| Lua.CallMethod | src/effectors.rs:275-291 | an unbound prefix, or one bound to anything but a table, is a not-a-table error carrying that value; a method that is not a function is an error carrying the method's value; otherwise the call's result is returned, and an error it raises is returned as raised; `Ok` only from a bound table whose method is a function; the copy for handlers at src/handlers.rs:141-157 does the same |
| Registry.Route | src/effectors.rs:15-24 | no name is an error; `*zeroinstall` and `*scp` route to their effectors with the remaining arguments; any other name is `unknown effector name` |
| Registry.NativeNeedsExactCommand | src/effectors.rs:134-139 | only the exact one-word command `zeroinstall` is in-process; `zeroinstall` with arguments is unknown |
| Registry.ScpTakesArguments | src/effectors.rs:140-143 | `*scp` followed by any words is a child process with those words as arguments |
| Registry.LuaFailureIsUnknown | src/effectors.rs:131-146 | a `lua53` command that fails to bind is reported as an unknown command |
| Registry.Init | src/effectors.rs:124-154 | succeeds exactly when every command can be bound; the error is that of the first key, in key order, that cannot be bound; on success every key is bound as its command asks, in exactly one backend, nothing else is bound and no backend has been used yet |
| Registry.BindAll | src/effectors.rs:130-148 | the loop over the keys in order keeps each bound key in exactly one backend and stops at the first key that cannot be bound |
| Registry.BindNext | src/effectors.rs:130-148 | one turn binds the least key still to bind; on failure that key is the first, in key order, that cannot be bound; otherwise the keys bound grow by it, each still in exactly one backend and untouched |
| Registry.BindStep | src/effectors.rs:130-148 | adding one key to one backend, with the earlier entries kept, extends the bound keys by it |
| Registry.AllBound | src/effectors.rs:130-148 | once every key is bound, every command could be bound and the backends hold exactly the keys of the table |
| Registry.NotAllBound | src/effectors.rs:134-147 | a key whose command cannot be bound makes `init` fail |
| Registry.Bind | src/effectors.rs:131-147 | binding one key tries Lua first, then exactly `zeroinstall`, then `*scp`; it succeeds exactly when `Outcome` does, and then adds the key to exactly one backend and keeps the earlier bindings |
| Registry.Effectors.Detect | src/effectors.rs:157-171 | a child process bound to the prefix comes first, then an in-process effector, then the Lua effector's `exists`; each is given the subpath |
| Registry.Effectors.Gather | src/effectors.rs:174-200 | same precedence; a child process or in-process effector gets `shadow_root/prefix`, the Lua effector's `query` gets `shadow_root/prefix/subpath` |
| Registry.Effectors.Affect | src/effectors.rs:203-229 | as `Gather`, with `affect` and the Lua effector's `apply` |
| Handlers.UnknownRejected | src/handlers.rs:28-36 | a command that is neither Lua nor exactly `zeroinstall` is an `unknown handler command` |
| Handlers.NoChildHandlers | src/handlers.rs:28-36 | handlers have no child-process form: `*scp` is unknown |
| Handlers.Init | src/handlers.rs:19-40 | succeeds exactly when every command can be bound; otherwise fails with the first failing key's error; on success every key is bound in exactly one of the Lua table and the in-process map |
| Handlers.BindAll | src/handlers.rs:24-38 | the loop over the keys in order keeps each bound key in exactly one backend |
| Handlers.BindNext | src/handlers.rs:24-38 | one turn binds the least key still to bind; on failure that key is the first, in key order, that cannot be bound; otherwise the keys bound grow by it, each still in exactly one table |
| Handlers.BindStep | src/handlers.rs:24-38 | adding one key to one table, with the earlier entries kept, extends the bound keys by it |
| Handlers.Bind | src/handlers.rs:25-37 | Lua first, then exactly `zeroinstall`; succeeds exactly when `Outcome` does and adds the key to exactly one backend |
| Handlers.Handlers.Detect | src/handlers.rs:42-49 | the in-process handler bound to the prefix, if any, else the Lua handler's `exists` |
| Handlers.Handlers.Gather | src/handlers.rs:51-72 | the in-process handler with `shadow_root/prefix`, else the Lua handler's `query` with `shadow_root/prefix/subpath` |
| Handlers.Handlers.Affect | src/handlers.rs:74-94 | the same with `affect` and `apply` |
| Script.TomlTable.Remove | script/src/lib.rs:27 | gives the entry's value when there is one, and the entry is gone afterwards |
| Script.SplitCommands | script/src/lib.rs:55-61 | succeeds exactly when every command is a string, and then maps each key to its string's words; otherwise the error names the first key, in key order, whose value is not a string; the copy at src/script.rs:78-84 does the same |
| Script.Flatten | script/src/lib.rs:65-85 | succeeds exactly when the tree holds only strings and tables; then every entry is a string leaf's content under its `/`-joined keys, tables give no entry of their own, and every leaf's path has an entry; otherwise the error names the path of a value that is neither; the copy at src/script.rs:88-108 does the same |
| Script.Walk | script/src/lib.rs:71-84 | walking one table in key order stores each string under its path and pushes each sub-table with its path and a `/`; a value of any other kind stops the walk, naming its path |
| Script.FlattenedUnique | script/src/lib.rs:65-85 | when no two leaves share a path, the flattened map is determined by the tree |
| Script.ParseToml | script/src/lib.rs:22-96 | each missing or mistyped entry (`shadow_dir`, then `effectors`, then `tree`) is its own error, and the entries checked before it have been taken out of the table; with all three well-typed the table has lost exactly them; the result is `Ok` exactly when every command is a string and the tree holds nothing else, and then holds the shadow directory, the split commands and the flattened tree; the copy at src/script.rs:45-119 does the same with `handlers` |
| Agreement.DetectAgrees | src/effectors.rs:69-82 | the `detect` line the caller writes reaches the callee as one `detect` call on the same path; a successful answer, written with its newline, is read back as what the effector found |
| Agreement.GatherAgrees | src/effectors.rs:84-98 | the `gather` line reaches the callee as one call on the same path and shadow prefix, and its answer is accepted |
| Agreement.AffectAgrees | src/effectors.rs:100-114 | the same for `affect` |
| Agreement.EchoedAnswerAccepted | src/effectors.rs:94 | the version-1 answer `gathered <a> <b>` is accepted too |
| Agreement.HandshakeAgrees | src/effectors.rs:52-57 | a child answering the version-1 request with the version-1 response token passes the handshake |

## Left out

- The Lua interpreter is given as functions: loading a script, reading a field and calling a function. Scripts that change the interpreter's state between calls are not modelled, and tables and functions are told apart by a number.
- A method result read as a `bool` follows Lua's truthiness: `nil` and `false` are false.
- Process spawning is an oracle (`ChildProcess.Program`) that says whether the child starts and what line it writes next. That line depends on the child's arguments and on what it has been sent. The program the child runs is the current executable.
- I/O errors are not modelled: `read_line`, `writeln!`, `flush` and a broken pipe are assumed to succeed. The end of a child's output reads as an empty line.
- Debug output (`println!`, `debug!`) and the text of error messages are not modelled. Errors are datatypes that keep the values the messages name.
- Percent-encoding and decoding are function parameters. Where a lemma needs the round trip, it takes it as a hypothesis (`Agreement.RoundTrips`).
- `PathBuf::from_slash` is the identity, as on Unix. `to_str().unwrap()` cannot fail, because strings are Unicode.
- The handshake constants the caller uses are parameters. The callee's are the version-1 tokens.
- `Callee::start` is not modelled. `Callee.Serve` is given an effector that has already started.
- The domain effectors (`zeroinstall`, `scp`) are given as a `Behaviour`. `Registry.Route` only picks which one runs.
- Registry.Init: creating an in-process `zeroinstall` effector has the same outcome for every key.
- Registry.Init: child processes started before a failure are not stopped. The model drops them, as the source does.
- Script.Flatten: when two leaves share a path (a key may itself hold `/`), the model does not say which content is kept. The source keeps the leaf walked last.
- Script.Flatten: when the tree holds several values that are neither string nor table, the model does not say which one is reported. The source reports the first one in its walk order.
- Script.ParseToml: TOML values other than strings and tables are one kind, `Other`.
- `Script::parse_ncl_file` and the Nickel front end are not part of this model.
