/** The script's table (`Script::parse_toml` in script/src/lib.rs, and the same
    function in src/script.rs): three top-level entries are taken out of it, the
    `shadow_dir` text, the table of effector (or handler) commands, and the `tree`
    of files, which is flattened into a map from `/`-joined key paths to contents. */
module Script {
  import opened Common

  /** A TOML value, as far as parsing tells values apart. */
  datatype Value = Str(s: string) | Table(entries: map<string, Value>) | Other

  /** The top-level table, which parsing takes entries out of in place. */
  class TomlTable {
    var entries: map<string, Value>

    constructor (entries: map<string, Value>)
      ensures this.entries == entries
    {
      this.entries := entries;
    }

    /** `remove`: take an entry out, giving its value if there was one. */
    method Remove(key: string) returns (v: Option<Value>)
      modifies this
      ensures key in old(entries) ==> v == Some(old(entries)[key])
      ensures key !in old(entries) ==> v == None
      ensures entries == old(entries) - {key}
    {
      v := if key in entries then Some(entries[key]) else None;
      entries := entries - {key};
    }
  }

  datatype ParseError =
    | Missing(key: string)
    | NotText(key: string)
    | NotTable(key: string)
    | BadCommand(section: string, name: string)  // a command that is not a string
    | BadTreeValue(path: string)                 // a tree value neither string nor table

  /** What parsing gives: the shadow directory, each prefix's command as its words,
      and each file path's content. */
  datatype Script = Script(shadowDir: string, commands: map<string, seq<string>>, paths: map<string, string>)

  // ---------------------------------------------------------------------------
  // Commands

  predicate AllText(raw: map<string, Value>)
  {
    forall k :: k in raw ==> raw[k].Str?
  }

  /** Each command is its string split on whitespace. */
  ghost predicate SplitAll(raw: map<string, Value>, commands: map<string, seq<string>>)
    requires AllText(raw)
  {
    && (forall k :: k in commands <==> k in raw)
    && (forall k :: k in raw ==> commands[k] == SplitWhitespace(raw[k].s))
  }

  /** `k` is the first key, in the map's order, whose value is not a string. */
  predicate FirstNonText(raw: map<string, Value>, k: string)
  {
    k in raw && !raw[k].Str? && forall j :: j in raw && StrLt(j, k) ==> raw[j].Str?
  }

  /** The loop over the commands table, in key order: every value must be a string
      and becomes its words; the first one that is not a string is an error naming
      its key. */
  method SplitCommands(section: string, raw: map<string, Value>) returns (r: Result<map<string, seq<string>>, ParseError>)
    ensures r.Ok? <==> AllText(raw)
    ensures r.Ok? ==> SplitAll(raw, r.value)
    ensures r.Err? ==> exists k :: FirstNonText(raw, k) && r.error == BadCommand(section, k)
  {
    var commands: map<string, seq<string>> := map[];
    var todo := raw.Keys;
    ghost var done: set<string> := {};
    while todo != {}
      invariant todo <= raw.Keys && done == raw.Keys - todo
      invariant forall d, t :: d in done && t in todo ==> StrLt(d, t)
      invariant forall d :: d in done ==> raw[d].Str?
      invariant forall d :: d in commands <==> d in done
      invariant forall d :: d in done ==> commands[d] == SplitWhitespace(raw[d].s)
      decreases |todo|
    {
      LeastExists(todo);
      var k :| IsLeast(k, todo);
      var v := raw[k];
      if !v.Str? {
        FirstNonTextAt(raw, k, todo);
        return Err(BadCommand(section, k));
      }
      commands := commands[k := SplitWhitespace(v.s)];
      LeastMoved(done, todo, k);
      todo := todo - {k};
      done := done + {k};
    }
    return Ok(commands);
  }

  lemma FirstNonTextAt(raw: map<string, Value>, k: string, todo: set<string>)
    requires todo <= raw.Keys && IsLeast(k, todo) && !raw[k].Str?
    requires forall d :: d in raw.Keys - todo ==> raw[d].Str?
    ensures FirstNonText(raw, k)
  {
    forall j | j in raw && StrLt(j, k)
      ensures raw[j].Str?
    {
      if j in todo {
        StrLtIrreflexive(k);
      }
    }
  }

  // ---------------------------------------------------------------------------
  // The tree

  /** The value reached from `tree` through the keys `ks`, one table level per
      key; the tree itself at no keys. */
  function Node(tree: map<string, Value>, ks: seq<string>): Option<Value>
    decreases |ks|
  {
    if ks == [] then Some(Table(tree))
    else
      match Node(tree, ks[..|ks| - 1])
      case Some(Table(m)) => if ks[|ks| - 1] in m then Some(m[ks[|ks| - 1]]) else None
      case _ => None
  }

  /** A string at `ks`, stored under `path`, the keys joined by `/`. */
  predicate LeafAt(tree: map<string, Value>, ks: seq<string>, path: string, content: string)
  {
    ks != [] && Node(tree, ks) == Some(Str(content)) && JoinWith(ks, '/') == path
  }

  /** A value at `ks` that is neither a string nor a table. */
  predicate BadAt(tree: map<string, Value>, ks: seq<string>)
  {
    Node(tree, ks) == Some(Other)
  }

  /** The paths map holds exactly the tree's string leaves: every entry is the
      content of a leaf at that path, and every leaf's path has an entry. Two leaves
      can share a path (a key may itself contain `/`); one of them is kept. */
  ghost predicate Flattened(tree: map<string, Value>, paths: map<string, string>)
  {
    && (forall p :: p in paths ==> exists ks :: LeafAt(tree, ks, p, paths[p]))
    && (forall ks :: ks != [] && Node(tree, ks).Some? && Node(tree, ks).value.Str? ==> JoinWith(ks, '/') in paths)
  }

  /** No two string leaves are stored under the same path. */
  ghost predicate NoSharedPath(tree: map<string, Value>)
  {
    forall ks, js ::
      && ks != [] && Node(tree, ks).Some? && Node(tree, ks).value.Str?
      && js != [] && Node(tree, js).Some? && Node(tree, js).value.Str?
      && JoinWith(ks, '/') == JoinWith(js, '/')
      ==> ks == js
  }

  /** When no two leaves share a path, the flattened map is determined by the
      tree: it is exactly one map. */
  lemma FlattenedUnique(tree: map<string, Value>, a: map<string, string>, b: map<string, string>)
    requires NoSharedPath(tree) && Flattened(tree, a) && Flattened(tree, b)
    ensures a == b
  {
    forall p | p in a
      ensures p in b && a[p] == b[p]
    {
      var ks :| LeafAt(tree, ks, p, a[p]);
      assert p in b;
      var js :| LeafAt(tree, js, p, b[p]);
      assert ks == js;
    }
    forall p | p in b
      ensures p in a
    {
      var js :| LeafAt(tree, js, p, b[p]);
    }
    assert a.Keys == b.Keys;
  }

  /** The text a node's children's paths start with: its keys joined by `/`, and a
      trailing `/`; nothing at the root. */
  function Parent(ks: seq<string>): string
  {
    if ks == [] then "" else JoinWith(ks, '/') + "/"
  }

  lemma {:induction false} JoinLast(ks: seq<string>, k: string)
    requires ks != []
    ensures JoinWith(ks + [k], '/') == JoinWith(ks, '/') + "/" + k
    decreases |ks|
  {
    if |ks| == 1 {
      assert (ks + [k])[1..] == [k];
    } else {
      assert (ks + [k])[1..] == ks[1..] + [k];
      JoinLast(ks[1..], k);
    }
  }

  /** A child's path is its parent's text followed by its key, and the text its
      own children's paths start with adds a `/`. */
  lemma ChildPath(ks: seq<string>, k: string)
    ensures Parent(ks) + k == JoinWith(ks + [k], '/')
    ensures Parent(ks + [k]) == JoinWith(ks + [k], '/') + "/"
  {
    if ks == [] {
      assert [] + [k] == [k];
    } else {
      JoinLast(ks, k);
    }
  }

  lemma ChildNode(tree: map<string, Value>, ks: seq<string>, m: map<string, Value>, k: string)
    requires Node(tree, ks) == Some(Table(m)) && k in m
    ensures Node(tree, ks + [k]) == Some(m[k])
  {
    assert (ks + [k])[..|ks|] == ks;
  }

  /** Every node lies under tables only. */
  lemma {:induction false} Ancestor(tree: map<string, Value>, js: seq<string>, ks: seq<string>)
    requires js < ks && Node(tree, ks).Some?
    ensures Node(tree, js).Some? && Node(tree, js).value.Table?
    decreases |ks|
  {
    var up := ks[..|ks| - 1];
    if js != up {
      assert js == up[..|js|];
      Ancestor(tree, js, up);
    }
  }

  /** A node below a table goes through one of that table's keys. */
  lemma UnderTable(tree: map<string, Value>, pk: seq<string>, sub: map<string, Value>, ks: seq<string>)
    requires Node(tree, pk) == Some(Table(sub)) && pk < ks && Node(tree, ks).Some?
    ensures ks[|pk|] in sub
  {
    var c := ks[..|pk| + 1];
    assert c[..|pk|] == pk;
    if c != ks {
      Ancestor(tree, c, ks);
    }
  }

  /** A node that is not a table: a string, or a value of no other use. */
  predicate Terminal(tree: map<string, Value>, ks: seq<string>)
  {
    Node(tree, ks).Some? && !Node(tree, ks).value.Table?
  }

  /** The loop's promise: every terminal node is a string already stored, lies
      below a table still on the stack, or lies below the table being walked
      through a key not walked yet. */
  ghost predicate Complete(tree: map<string, Value>, paths: map<string, string>, keys: seq<seq<string>>,
                           pk: seq<string>, remaining: set<string>)
  {
    forall ks :: Terminal(tree, ks) ==>
      || (ks != [] && Node(tree, ks).value.Str? && JoinWith(ks, '/') in paths)
      || (exists i :: 0 <= i < |keys| && keys[i] < ks)
      || (pk < ks && ks[|pk|] in remaining)
  }

  /** Every entry on the stack is the table at its keys, with its text. */
  ghost predicate Stacked(tree: map<string, Value>, todo: seq<(string, map<string, Value>)>, keys: seq<seq<string>>)
  {
    && |keys| == |todo|
    && forall i :: 0 <= i < |todo| ==> todo[i].0 == Parent(keys[i]) && Node(tree, keys[i]) == Some(Table(todo[i].1))
  }

  /** Every stored path comes from a leaf, recorded in `origin`. */
  ghost predicate Sound(tree: map<string, Value>, paths: map<string, string>, origin: map<string, seq<string>>)
  {
    forall p :: p in paths ==> p in origin && LeafAt(tree, origin[p], p, paths[p])
  }

  /** The walk starts with the whole tree on the stack and nothing stored. */
  lemma Started(tree: map<string, Value>)
    ensures Stacked(tree, [("", tree)], [[]]) && Sound(tree, map[], map[])
    ensures Complete(tree, map[], [[]], [], {})
  {
    var start: seq<seq<string>> := [[]];
    forall ks | Terminal(tree, ks)
      ensures exists i :: 0 <= i < |start| && start[i] < ks
    {
      assert start[0] < ks;
    }
  }

  /** Popping the top of the stack: its table is the one at its keys, and the rest
      of the stack stays as it was. */
  lemma Popped(tree: map<string, Value>, todo: seq<(string, map<string, Value>)>, keys: seq<seq<string>>)
    requires Stacked(tree, todo, keys) && todo != []
    ensures todo[|todo| - 1].0 == Parent(keys[|keys| - 1])
    ensures Node(tree, keys[|keys| - 1]) == Some(Table(todo[|todo| - 1].1))
    ensures Stacked(tree, todo[..|todo| - 1], keys[..|keys| - 1])
  {
  }

  /** What was pending below the popped table, at keys `pk`, is now pending below
      those keys. */
  lemma Unstacked(tree: map<string, Value>, paths: map<string, string>, keys: seq<seq<string>>, sub: map<string, Value>)
    requires keys != [] && Complete(tree, paths, keys, [], {})
    requires Node(tree, keys[|keys| - 1]) == Some(Table(sub))
    ensures Complete(tree, paths, keys[..|keys| - 1], keys[|keys| - 1], sub.Keys)
  {
    var rest, pk := keys[..|keys| - 1], keys[|keys| - 1];
    forall ks | Terminal(tree, ks)
      ensures || (ks != [] && Node(tree, ks).value.Str? && JoinWith(ks, '/') in paths)
              || (exists i :: 0 <= i < |rest| && rest[i] < ks)
              || (pk < ks && ks[|pk|] in sub.Keys)
    {
      if !(ks != [] && Node(tree, ks).value.Str? && JoinWith(ks, '/') in paths) {
        var i :| 0 <= i < |keys| && keys[i] < ks;
        if i == |rest| {
          UnderTable(tree, pk, sub, ks);
        } else {
          assert rest[i] < ks;
        }
      }
    }
  }

  lemma StrWalked(tree: map<string, Value>, paths: map<string, string>, keys: seq<seq<string>>,
                  pk: seq<string>, remaining: set<string>, sub: map<string, Value>, key: string)
    requires Complete(tree, paths, keys, pk, remaining)
    requires Node(tree, pk) == Some(Table(sub)) && key in sub && sub[key].Str?
    ensures Complete(tree, paths[JoinWith(pk + [key], '/') := sub[key].s], keys, pk, remaining - {key})
  {
    var c := pk + [key];
    var paths' := paths[JoinWith(c, '/') := sub[key].s];
    ChildNode(tree, pk, sub, key);
    forall ks | Terminal(tree, ks)
      ensures || (ks != [] && Node(tree, ks).value.Str? && JoinWith(ks, '/') in paths')
              || (exists i :: 0 <= i < |keys| && keys[i] < ks)
              || (pk < ks && ks[|pk|] in remaining - {key})
    {
      if pk < ks && ks[|pk|] == key {
        assert ks[..|c|] == c;
        if ks != c {
          Ancestor(tree, c, ks);
        }
      }
    }
  }

  /** A terminal node below a table's key that holds a table lies strictly below
      that key. */
  lemma Below(tree: map<string, Value>, pk: seq<string>, key: string, ks: seq<string>)
    requires Node(tree, pk + [key]).Some? && Node(tree, pk + [key]).value.Table?
    requires Terminal(tree, ks) && pk < ks && ks[|pk|] == key
    ensures pk + [key] < ks
  {
    assert ks[..|pk| + 1] == pk + [key];
    assert ks != pk + [key];
  }

  lemma TableWalked(tree: map<string, Value>, paths: map<string, string>, keys: seq<seq<string>>,
                    pk: seq<string>, remaining: set<string>, sub: map<string, Value>, key: string)
    requires Complete(tree, paths, keys, pk, remaining)
    requires Node(tree, pk) == Some(Table(sub)) && key in sub && sub[key].Table?
    ensures Complete(tree, paths, keys + [pk + [key]], pk, remaining - {key})
  {
    var c := pk + [key];
    var keys' := keys + [c];
    ChildNode(tree, pk, sub, key);
    forall ks | Terminal(tree, ks)
      ensures || (ks != [] && Node(tree, ks).value.Str? && JoinWith(ks, '/') in paths)
              || (exists i :: 0 <= i < |keys'| && keys'[i] < ks)
              || (pk < ks && ks[|pk|] in remaining - {key})
    {
      if exists i :: 0 <= i < |keys| && keys[i] < ks {
        var i :| 0 <= i < |keys| && keys[i] < ks;
        assert keys'[i] < ks;
      } else if pk < ks && ks[|pk|] == key {
        Below(tree, pk, key, ks);
        assert keys'[|keys|] < ks;
      }
    }
  }

  /** Pushing the table at `c` keeps the stack's entries right. */
  lemma StackedPush(tree: map<string, Value>, todo: seq<(string, map<string, Value>)>, keys: seq<seq<string>>,
                    c: seq<string>, t: map<string, Value>)
    requires Stacked(tree, todo, keys) && Node(tree, c) == Some(Table(t))
    ensures Stacked(tree, todo + [(Parent(c), t)], keys + [c])
  {
  }

  /** Storing a leaf's content under its path keeps every stored path a leaf's. */
  lemma SoundInsert(tree: map<string, Value>, paths: map<string, string>, origin: map<string, seq<string>>,
                    c: seq<string>, content: string)
    requires c != [] && Sound(tree, paths, origin) && LeafAt(tree, c, JoinWith(c, '/'), content)
    ensures Sound(tree, paths[JoinWith(c, '/') := content], origin[JoinWith(c, '/') := c])
  {
  }

  /** The total size of a value: one per node. */
  ghost function Size(v: Value): nat
    decreases v, 1
  {
    match v
    case Table(m) => 1 + SizeOver(m, m.Keys)
    case _ => 1
  }

  /** The total size of the values of `m` at `keys`, summed in key order. */
  ghost function SizeOver(m: map<string, Value>, keys: set<string>): nat
    requires keys <= m.Keys
    decreases Table(m), 0, |keys|
  {
    if keys == {} then 0
    else
      var k := Least(keys);
      Size(m[k]) + SizeOver(m, keys - {k})
  }

  /** The key a `BTreeMap` yields first. */
  ghost function Least(keys: set<string>): (k: string)
    requires keys != {}
    ensures IsLeast(k, keys)
  {
    LeastExists(keys);
    var k :| IsLeast(k, keys);
    k
  }

  lemma SizeOverLeast(m: map<string, Value>, keys: set<string>, k: string)
    requires keys <= m.Keys && IsLeast(k, keys)
    ensures SizeOver(m, keys) == Size(m[k]) + SizeOver(m, keys - {k})
  {
    LeastUnique(Least(keys), k, keys);
  }

  /** The total size of the tables on the stack. */
  ghost function StackSize(todo: seq<(string, map<string, Value>)>): nat
  {
    if todo == [] then 0 else StackSize(todo[..|todo| - 1]) + Size(Table(todo[|todo| - 1].1))
  }

  lemma Pushed(todo: seq<(string, map<string, Value>)>, parent: string, t: map<string, Value>)
    ensures StackSize(todo + [(parent, t)]) == StackSize(todo) + Size(Table(t))
  {
    assert (todo + [(parent, t)])[..|todo|] == todo;
  }

  /** The tree walk: an explicit stack of tables still to walk, each with the text
      its children's paths start with; the table on top is popped and walked. It
      succeeds exactly when the tree holds no value other than strings and tables,
      and then gives every string leaf under its path. */
  method Flatten(tree: map<string, Value>) returns (r: Result<map<string, string>, ParseError>)
    ensures r.Ok? <==> forall ks :: !BadAt(tree, ks)
    ensures r.Ok? ==> Flattened(tree, r.value)
    ensures r.Err? ==> r.error.BadTreeValue? && exists ks :: ks != [] && BadAt(tree, ks) && JoinWith(ks, '/') == r.error.path
  {
    var paths: map<string, string> := map[];
    ghost var origin: map<string, seq<string>> := map[];
    var todo: seq<(string, map<string, Value>)> := [("", tree)];
    ghost var keys: seq<seq<string>> := [[]];
    Started(tree);
    while todo != []
      invariant Stacked(tree, todo, keys)
      invariant Sound(tree, paths, origin)
      invariant Complete(tree, paths, keys, [], {})
      decreases StackSize(todo)
    {
      Popped(tree, todo, keys);
      var parent, sub := todo[|todo| - 1].0, todo[|todo| - 1].1;
      ghost var pk := keys[|keys| - 1];
      Unstacked(tree, paths, keys, sub);
      todo, keys := todo[..|todo| - 1], keys[..|keys| - 1];
      var bad;
      paths, origin, todo, keys, bad := Walk(tree, parent, sub, pk, paths, origin, todo, keys);
      if bad.Some? {
        return Err(BadTreeValue(bad.value));
      }
    }
    Finished(tree, paths, origin);
    r := Ok(paths);
  }

  /** With the stack empty, every terminal node is a stored string: nothing else is
      in the tree, and the paths are exactly its leaves. */
  lemma Finished(tree: map<string, Value>, paths: map<string, string>, origin: map<string, seq<string>>)
    requires Sound(tree, paths, origin) && Complete(tree, paths, [], [], {})
    ensures Flattened(tree, paths)
    ensures forall ks :: !BadAt(tree, ks)
  {
    forall ks | BadAt(tree, ks)
      ensures false
    {
      assert Terminal(tree, ks);
    }
    forall p | p in paths
      ensures exists ks :: LeafAt(tree, ks, p, paths[p])
    {
      assert LeafAt(tree, origin[p], p, paths[p]);
    }
  }

  /** Walking one popped table, `sub` at keys `pk`, in key order: a string is
      stored under its path, a table is pushed, and any other value stops the walk,
      giving its path. */
  method Walk(tree: map<string, Value>, parent: string, sub: map<string, Value>, ghost pk: seq<string>,
              paths: map<string, string>, ghost origin: map<string, seq<string>>,
              todo: seq<(string, map<string, Value>)>, ghost keys: seq<seq<string>>)
    returns (paths': map<string, string>, ghost origin': map<string, seq<string>>,
             todo': seq<(string, map<string, Value>)>, ghost keys': seq<seq<string>>, bad: Option<string>)
    requires Node(tree, pk) == Some(Table(sub)) && parent == Parent(pk)
    requires Stacked(tree, todo, keys) && Sound(tree, paths, origin) && Complete(tree, paths, keys, pk, sub.Keys)
    ensures bad.None? ==> Stacked(tree, todo', keys') && Sound(tree, paths', origin')
    ensures bad.None? ==> Complete(tree, paths', keys', [], {})
    ensures bad.None? ==> StackSize(todo') < StackSize(todo) + Size(Table(sub))
    ensures bad.Some? ==> exists ks :: ks != [] && BadAt(tree, ks) && JoinWith(ks, '/') == bad.value
  {
    paths', origin', todo', keys' := paths, origin, todo, keys;
    var remaining := sub.Keys;
    while remaining != {}
      invariant remaining <= sub.Keys
      invariant Stacked(tree, todo', keys')
      invariant Sound(tree, paths', origin')
      invariant Complete(tree, paths', keys', pk, remaining)
      invariant StackSize(todo') + SizeOver(sub, remaining) <= StackSize(todo) + SizeOver(sub, sub.Keys)
      decreases |remaining|
    {
      LeastExists(remaining);
      var key :| IsLeast(key, remaining);
      SizeOverLeast(sub, remaining, key);
      ChildPath(pk, key);
      ChildNode(tree, pk, sub, key);
      var path := parent + key;
      match sub[key] {
        case Str(s) =>
          StrWalked(tree, paths', keys', pk, remaining, sub, key);
          SoundInsert(tree, paths', origin', pk + [key], s);
          paths' := paths'[path := s];
          origin' := origin'[path := pk + [key]];
        case Table(t) =>
          TableWalked(tree, paths', keys', pk, remaining, sub, key);
          Pushed(todo', path + "/", t);
          StackedPush(tree, todo', keys', pk + [key], t);
          todo' := todo' + [(path + "/", t)];
          keys' := keys' + [pk + [key]];
        case Other =>
          assert BadAt(tree, pk + [key]);
          return paths', origin', todo', keys', Some(path);
      }
      remaining := remaining - {key};
    }
    Drained(tree, paths', keys', pk);
    bad := None;
  }

  /** Once a table's keys are all walked, nothing is pending below it. */
  lemma Drained(tree: map<string, Value>, paths: map<string, string>, keys: seq<seq<string>>, pk: seq<string>)
    requires Complete(tree, paths, keys, pk, {})
    ensures Complete(tree, paths, keys, [], {})
  {
  }

  // ---------------------------------------------------------------------------
  // The whole table

  /** `section` is `effectors` in script/src/lib.rs and `handlers` in src/script.rs. */
  predicate IsSection(section: string)
  {
    section == "effectors" || section == "handlers"
  }

  /** The three entries are present with the right types. */
  predicate WellShaped(t: map<string, Value>, section: string)
  {
    && "shadow_dir" in t && t["shadow_dir"].Str?
    && section in t && t[section].Table?
    && "tree" in t && t["tree"].Table?
  }

  /** `Script::parse_toml`: take `shadow_dir`, then the commands table, then `tree`
      out of the table, checking each as it is taken, so that a failure leaves the
      entries after it in place; then split the commands and flatten the tree. */
  method ParseToml(toml: TomlTable, section: string) returns (r: Result<Script, ParseError>)
    requires IsSection(section)
    modifies toml
    ensures var t := old(toml.entries);
      && ("shadow_dir" !in t ==> r == Err(Missing("shadow_dir")) && toml.entries == t)
      && ("shadow_dir" in t && !t["shadow_dir"].Str? ==>
            r == Err(NotText("shadow_dir")) && toml.entries == t - {"shadow_dir"})
      && ("shadow_dir" in t && t["shadow_dir"].Str? && section !in t ==>
            r == Err(Missing(section)) && toml.entries == t - {"shadow_dir"})
      && ("shadow_dir" in t && t["shadow_dir"].Str? && section in t && !t[section].Table? ==>
            r == Err(NotTable(section)) && toml.entries == t - {"shadow_dir"} - {section})
      && ("shadow_dir" in t && t["shadow_dir"].Str? && section in t && t[section].Table? && "tree" !in t ==>
            r == Err(Missing("tree")) && toml.entries == t - {"shadow_dir"} - {section})
      && ("shadow_dir" in t && t["shadow_dir"].Str? && section in t && t[section].Table? && "tree" in t
          && !t["tree"].Table? ==>
            r == Err(NotTable("tree")) && toml.entries == t - {"shadow_dir"} - {section} - {"tree"})
    ensures var t := old(toml.entries);
      WellShaped(t, section) ==>
        && toml.entries == t - {"shadow_dir"} - {section} - {"tree"}
        && (r.Ok? <==> AllText(t[section].entries) && forall ks :: !BadAt(t["tree"].entries, ks))
        && (!AllText(t[section].entries) ==>
              exists k :: FirstNonText(t[section].entries, k) && r == Err(BadCommand(section, k)))
        && (AllText(t[section].entries) && r.Err? ==>
              r.error.BadTreeValue? &&
              exists ks :: ks != [] && BadAt(t["tree"].entries, ks) && JoinWith(ks, '/') == r.error.path)
        && (r.Ok? ==>
              && r.value.shadowDir == t["shadow_dir"].s
              && SplitAll(t[section].entries, r.value.commands)
              && Flattened(t["tree"].entries, r.value.paths))
  {
    var shadow := toml.Remove("shadow_dir");
    if shadow.None? {
      return Err(Missing("shadow_dir"));
    }
    if !shadow.value.Str? {
      return Err(NotText("shadow_dir"));
    }
    var rawCommands := toml.Remove(section);
    if rawCommands.None? {
      return Err(Missing(section));
    }
    if !rawCommands.value.Table? {
      return Err(NotTable(section));
    }
    var rawTree := toml.Remove("tree");
    if rawTree.None? {
      return Err(Missing("tree"));
    }
    if !rawTree.value.Table? {
      return Err(NotTable("tree"));
    }
    var commands := SplitCommands(section, rawCommands.value.entries);
    if commands.Err? {
      return Err(commands.error);
    }
    var paths := Flatten(rawTree.value.entries);
    if paths.Err? {
      return Err(paths.error);
    }
    return Ok(Script(shadow.value.s, commands.value, paths.value));
  }
}
