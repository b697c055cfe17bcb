/** The `get` engine: a request `node|cmd|cmd...` selects a node and runs
    a pipeline of commands on it. Every command handler receives the node
    (possibly absent), the nodepath printed in labels, the commands still
    to come and a recursion depth; it returns the depth reached, and the
    caller drops that many commands from the pipeline, so commands that a
    handler ran on the children are not run again at the top level.

    The specification functions compute what a call prints (as the sink
    state of Output) and what it returns; the methods below do the same
    step by step on a Sink and are proved equal to them. */
module Get {
  import opened Libc
  import opened Tree
  import opened Common
  import opened Output

  /** What a handler hands back: the depth reached and its nodepath buffer
      as it left it, or the process exited with a status. */
  datatype Outcome = Ran(depth: nat, np: string) | Exited(code: int)

  datatype Res = Res(o: Outcome, st: St)

  /** The first character of a C string, NUL for the empty one. */
  function FirstChar(s: string): char
  {
    if |s| == 0 then '\0' else s[0]
  }

  function NodeOf(o: Option<Handle>): (r: Option<Node>)
    ensures r.Some? <==> o.Some?
  {
    if o.None? then None else Some(o.value.node)
  }

  /** ucl_object_key of a handle that may be NULL. */
  function KeyOf(o: Option<Handle>): (r: Option<string>)
    ensures o.None? ==> r.None?
    ensures o.Some? ==> r == o.value.key
  {
    if o.None? then None else o.value.key
  }

  /** ucl_object_type(obj) == UCL_ARRAY, NULL being of type null. */
  predicate IsArray(o: Option<Handle>)
  {
    o.Some? && o.value.node.Array?
  }

  predicate IsObject(o: Option<Handle>)
  {
    o.Some? && o.value.node.Object?
  }

  /** ucl_iterate_object(obj, false) on a node that may be NULL. */
  function OptChain(o: Option<Handle>): (r: seq<Handle>)
    ensures o.None? ==> r == []
    ensures o.Some? ==> r == ChainOf(o.value)
  {
    if o.None? then [] else ChainOf(o.value)
  }

  /** "%c%i" of the output separator and an array index. */
  function IndexKey(cfg: Config, i: nat): string
  {
    [cfg.outSep] + NatToString(i)
  }

  /** The values `each` visits for one child: the whole chain of an implicit
      array, otherwise the child itself. */
  function Expanded(cur: Handle): (r: seq<Handle>)
    ensures |r| >= 1 && r[0] == cur
  {
    if |cur.next| > 0 && !cur.node.Array? then ChainOf(cur) else [cur]
  }

  /** The capital of a lower-case ASCII letter. */
  function UpperChar(ch: char): char
  {
    if 'a' <= ch <= 'z' then (ch as int - 32) as char else ch
  }

  /** get_cmd_type's word for each kind: type_as_string's name without its
      "UCL_" prefix, in lower case. */
  function TypeWord(k: Kind): (r: string)
    ensures |KindName(k)| == 4 + |r|
    ensures forall i :: 0 <= i < |r| ==> KindName(k)[4 + i] == UpperChar(r[i])
  {
    match k
    case KObject => "object"
    case KArray => "array"
    case KInt => "int"
    case KFloat => "float"
    case KString => "string"
    case KBoolean => "boolean"
    case KTime => "time"
    case KUserdata => "userdata"
    case KNull => "null"
  }

  // ---------------------------------------------------------------------
  // process_get_command and the handlers

  /** process_get_command(obj, nodepath, cmd, rest, depth). */
  function Process(cfg: Config, obj: Option<Handle>, np: string, cmd: string, rest: seq<string>, depth: nat, st: St): (r: Res)
    ensures r.o.Ran? ==> r.o.depth >= depth
    ensures st.out <= r.st.out
    decreases |rest|, OptWeight(obj), 3, 0
  {
    if cmd == "length" then CmdLength(cfg, obj, np, depth, st)
    else if cmd == "dump" then Res(Ran(depth, np), st)
    else if cmd == "type" then CmdType(cfg, obj, np, depth, st)
    else if cmd == "keys" then CmdKeys(cfg, obj, np, depth, st)
    else if cmd == "values" then CmdValues(cfg, obj, np, depth, st)
    else if cmd == "iterate" then CmdIterate(cfg, obj, np, rest, depth, st)
    else if cmd == "recurse" then CmdRecurse(cfg, obj, np, rest, depth, st)
    else if cmd == "each" then CmdEach(cfg, obj, np, rest, depth, st)
    else if FirstChar(cmd) == cfg.inSep then CmdNone(cfg, obj, np, cmd, rest, depth, st)
    else Res(Exited(1), st)
  }

  /** get_cmd_length: the nodepath (without "=") and the length. */
  function CmdLength(cfg: Config, obj: Option<Handle>, np: string, depth: nat, st: St): (r: Res)
    ensures r.o == Ran(depth, np) && st.out <= r.st.out
  {
    var body :=
      if obj.None? then (if cfg.showKeys then "(null)=" else "") + "0"
      else (if cfg.showKeys then np else "") + NatToString(Len(obj.value.node));
    Res(Ran(depth, np), Emit(st, cfg, Lead(st) + body + Ending(cfg)))
  }

  /** get_cmd_type: `nodepath=` and the kind's word. */
  function CmdType(cfg: Config, obj: Option<Handle>, np: string, depth: nat, st: St): (r: Res)
    ensures r.o == Ran(depth, np) && st.out <= r.st.out
  {
    var body :=
      if obj.None? then (if cfg.showKeys then "(null)=" else "") + "null"
      else (if cfg.showKeys then np + "=" else "") + TypeWord(KindOf(obj.value.node));
    Res(Ran(depth, np), Emit(st, cfg, Lead(st) + body + Ending(cfg)))
  }

  /** get_cmd_keys' loop: one record per child, its key as printf shows it. */
  function KeysOut(cfg: Config, cs: seq<Handle>, i: nat, st: St): (r: St)
    requires i <= |cs|
    ensures st.out <= r.out
    decreases |cs| - i
  {
    if i == |cs| then st
    else KeysOut(cfg, cs, i + 1, Emit(st, cfg, Lead(st) + PrintfStr(cs[i].key) + Ending(cfg)))
  }

  /** get_cmd_keys: nothing for an absent node. */
  function CmdKeys(cfg: Config, obj: Option<Handle>, np: string, depth: nat, st: St): (r: Res)
    ensures r.o == Ran(depth, np) && st.out <= r.st.out
  {
    Res(Ran(depth, np), KeysOut(cfg, OptChildren(obj), 0, st))
  }

  /** The key get_cmd_values hands output_key for child `i`. */
  function ValueKey(cfg: Config, isArray: bool, cur: Handle, i: nat): (r: Option<string>)
    ensures r.None? <==> !isArray && cur.key.None?
    ensures r.Some? ==> |r.value| > 0 && r.value[0] == cfg.outSep
    ensures r.Some? ==> r.value[1..] == (if isArray then NatToString(i) else cur.key.value)
  {
    if isArray then Some(IndexKey(cfg, i))
    else if cur.key.None? then None
    else Some([cfg.outSep] + cur.key.value)
  }

  /** get_cmd_values' loop: output_key for every child. */
  function ValuesOut(cfg: Config, isArray: bool, cs: seq<Handle>, i: nat, np: string, st: St): (r: Rendered)
    requires i <= |cs|
    ensures st.out <= r.st.out
    decreases |cs| - i
  {
    if i == |cs| then Rendered(st, np)
    else
      var rr := OutputKey(cfg, Some(cs[i].node), np, ValueKey(cfg, isArray, cs[i], i), st);
      ValuesOut(cfg, isArray, cs, i + 1, rr.np, rr.st)
  }

  function CmdValues(cfg: Config, obj: Option<Handle>, np: string, depth: nat, st: St): (r: Res)
    ensures r.o.Ran? && r.o.depth == depth && st.out <= r.st.out
  {
    var rr := ValuesOut(cfg, IsArray(obj), OptChildren(obj), 0, np, st);
    Res(Ran(depth, rr.np), rr.st)
  }

  /** output_chunk of every handle in `hs` under the same key. */
  function ChunksOut(cfg: Config, hs: seq<Handle>, j: nat, np: string, key: string, st: St): (r: Rendered)
    requires j <= |hs|
    ensures st.out <= r.st.out
    decreases |hs| - j
  {
    if j == |hs| then Rendered(st, np)
    else
      var rr := OutputChunk(cfg, Some(hs[j].node), np, key, st);
      ChunksOut(cfg, hs, j + 1, rr.np, key, rr.st)
  }

  /** The next command run on every handle of `hs` with one shared nodepath
      buffer; the depth is the last run's. */
  function RunChain(cfg: Config, hs: seq<Handle>, j: nat, cmd: string, rest: seq<string>, depth: nat, acc: Res): (r: Res)
    requires j <= |hs|
    ensures r.o.Ran? ==> acc.o.Ran? && (r.o.depth == acc.o.depth || r.o.depth >= depth)
    ensures acc.st.out <= r.st.out
    decreases |rest| + 1, 0, 0, |hs| - j
  {
    if j == |hs| || acc.o.Exited? then acc
    else RunChain(cfg, hs, j + 1, cmd, rest, depth, Process(cfg, Some(hs[j]), acc.o.np, cmd, rest, depth, acc.st))
  }

  /** get_cmd_iterate: the node's own chain, printed or handed the next
      command. */
  function CmdIterate(cfg: Config, obj: Option<Handle>, np: string, rest: seq<string>, depth: nat, st: St): (r: Res)
    ensures r.o.Ran? ==> r.o.depth >= depth
    ensures st.out <= r.st.out
    decreases |rest|, OptWeight(obj), 2, 0
  {
    if |rest| == 0 then
      var rr := ChunksOut(cfg, OptChain(obj), 0, np, "", st);
      Res(Ran(depth, rr.np), rr.st)
    else if obj.None? then Res(Ran(depth, np), st)
    else RunChain(cfg, ChainOf(obj.value), 0, rest[0], rest[1..], depth + 1, Res(Ran(depth, np), st))
  }

  /** What get_cmd_recurse prints before its loop: the node itself when the
      nodepath is not empty, with an array's `_length` in expand mode, and
      an object's `_keys` in expand mode. */
  function RecursePrelude(cfg: Config, obj: Option<Handle>, np: string, st: St): (r: Rendered)
    ensures st.out <= r.st.out
  {
    var r1 := if |np| > 0 then OutputChunk(cfg, NodeOf(obj), np, "", st) else Rendered(st, np);
    var r2 :=
      if |np| > 0 && cfg.expand && IsArray(obj) then
        OutputChunk(cfg, Some(Int(Len(obj.value.node))), r1.np, [cfg.outSep] + "_length", r1.st)
      else r1;
    if cfg.expand && IsObject(obj) then
      OutputChunk(cfg, Some(Str(Subkeys(obj))), r2.np, [cfg.outSep] + "_keys", r2.st)
    else r2
  }

  /** The key get_cmd_recurse builds for child `i`. */
  function RecurseKey(cfg: Config, obj: Option<Handle>, np: string, cur: Handle, i: nat): (r: string)
    ensures !IsArray(obj) && |np| == 0 ==> r == PrintfStr(cur.key)
    ensures IsArray(obj) || |np| > 0 ==> |r| > 0 && r[0] == cfg.outSep
    ensures IsArray(obj) || |np| > 0 ==> r[1..] == (if IsArray(obj) then NatToString(i) else PrintfStr(cur.key))
  {
    if IsArray(obj) then IndexKey(cfg, i)
    else if |np| == 0 then PrintfStr(cur.key)
    else [cfg.outSep] + PrintfStr(cur.key)
  }

  /** The nodepath get_cmd_recurse gives a value of a compound child: the
      nodepath and the key, or at the top an array's counter (already past
      this child) or the value's own key. */
  function RecursePath(obj: Option<Handle>, np: string, newkey: string, arrindex: nat, cur2: Handle): (r: string)
    ensures |np| > 0 ==> |r| == |np| + |newkey| && r[..|np|] == np && r[|np|..] == newkey
    ensures |np| == 0 && IsArray(obj) ==> r == NatToString(arrindex)
    ensures |np| == 0 && !IsArray(obj) ==> r == PrintfStr(cur2.key)
  {
    if |np| > 0 then np + newkey
    else if IsArray(obj) then NatToString(arrindex)
    else PrintfStr(cur2.key)
  }

  function CmdRecurse(cfg: Config, obj: Option<Handle>, np: string, rest: seq<string>, depth: nat, st: St): (r: Res)
    ensures r.o.Ran? ==> r.o.depth >= depth
    ensures st.out <= r.st.out
    decreases |rest|, OptWeight(obj), 2, 0
  {
    var a := RecursePrelude(cfg, obj, np, st);
    RecurseLoop(cfg, obj, OptChildren(obj), 0, rest, depth, Res(Ran(depth, a.np), a.st))
  }

  /** get_cmd_recurse's loop over the children. */
  function RecurseLoop(cfg: Config, obj: Option<Handle>, cs: seq<Handle>, i: nat, rest: seq<string>, depth: nat, acc: Res): (r: Res)
    requires cs == OptChildren(obj) && i <= |cs|
    ensures r.o.Ran? ==> acc.o.Ran? && (r.o.depth == acc.o.depth || r.o.depth >= depth + 1)
    ensures acc.st.out <= r.st.out
    decreases |rest|, OptWeight(obj), 1, |cs| - i
  {
    if i == |cs| || acc.o.Exited? then acc
    else
      var np := acc.o.np;
      var newkey := RecurseKey(cfg, obj, np, cs[i], i);
      var next :=
        if IsCompound(cs[i].node) then
          RecurseChain(cfg, obj, cs[i], ChainOf(cs[i]), 0, np, newkey, if IsArray(obj) then i + 1 else 0, rest, depth, acc)
        else
          var rr := OutputChunk(cfg, Some(cs[i].node), np, newkey, acc.st);
          Res(Ran(acc.o.depth, rr.np), rr.st);
      RecurseLoop(cfg, obj, cs, i + 1, rest, depth, next)
  }

  /** The inner loop: `recurse` again on every value of a compound child's
      chain, each with a nodepath of its own. */
  function RecurseChain(cfg: Config, obj: Option<Handle>, cur: Handle, hs: seq<Handle>, j: nat, np: string,
                        newkey: string, arrindex: nat, rest: seq<string>, depth: nat, acc: Res): (r: Res)
    requires hs == ChainOf(cur) && j <= |hs|
    requires obj.Some? && Weight(cur) < Weight(obj.value)
    requires acc.o.Ran? ==> acc.o.np == np
    ensures r.o.Ran? ==> acc.o.Ran? && r.o.np == np && (r.o.depth == acc.o.depth || r.o.depth >= depth + 1)
    ensures acc.st.out <= r.st.out
    decreases |rest|, Weight(cur), 4, |hs| - j
  {
    if j == |hs| || acc.o.Exited? then acc
    else
      var r := Process(cfg, Some(hs[j]), RecursePath(obj, np, newkey, arrindex, hs[j]), "recurse", rest, depth + 1, acc.st);
      var next := if r.o.Exited? then r else Res(Ran(r.o.depth, np), r.st);
      RecurseChain(cfg, obj, cur, hs, j + 1, np, newkey, arrindex, rest, depth, next)
  }

  /** The key (and nodepath suffix) get_cmd_each builds for child `i`. */
  function EachKey(cfg: Config, isArray: bool, cur: Handle, i: nat): (r: string)
    ensures |r| > 0 && r[0] == cfg.outSep
    ensures r[1..] == (if isArray then NatToString(i) else PrintfStr(cur.key))
  {
    if isArray then IndexKey(cfg, i) else [cfg.outSep] + PrintfStr(cur.key)
  }

  /** get_cmd_each with no further command: every child printed, implicit
      arrays value by value. */
  function EachOut(cfg: Config, isArray: bool, cs: seq<Handle>, i: nat, np: string, st: St): (r: Rendered)
    requires i <= |cs|
    ensures st.out <= r.st.out
    decreases |cs| - i
  {
    if i == |cs| then Rendered(st, np)
    else
      var rr := ChunksOut(cfg, Expanded(cs[i]), 0, np, EachKey(cfg, isArray, cs[i], i), st);
      EachOut(cfg, isArray, cs, i + 1, rr.np, rr.st)
  }

  /** get_cmd_each with a further command: run it on every child under the
      nodepath extended by the child's key. */
  function EachRun(cfg: Config, isArray: bool, cs: seq<Handle>, i: nat, np: string, cmd: string, rest: seq<string>,
                   depth: nat, acc: Res): (r: Res)
    requires i <= |cs|
    requires acc.o.Ran? ==> acc.o.np == np
    ensures r.o.Ran? ==> acc.o.Ran? && r.o.np == np && (r.o.depth == acc.o.depth || r.o.depth >= depth)
    ensures acc.st.out <= r.st.out
    decreases |rest| + 1, 0, 1, |cs| - i
  {
    if i == |cs| || acc.o.Exited? then acc
    else EachRun(cfg, isArray, cs, i + 1, np, cmd, rest, depth, EachChild(cfg, isArray, cs[i], i, np, cmd, rest, depth, acc))
  }

  lemma EachRunStep(cfg: Config, isArray: bool, cs: seq<Handle>, i: nat, np: string, cmd: string, rest: seq<string>,
                    depth: nat, acc: Res)
    requires i < |cs| && acc.o.Ran? && acc.o.np == np
    ensures EachRun(cfg, isArray, cs, i, np, cmd, rest, depth, acc) ==
      EachRun(cfg, isArray, cs, i + 1, np, cmd, rest, depth, EachChild(cfg, isArray, cs[i], i, np, cmd, rest, depth, acc))
  {
  }

  lemma EachRunDone(cfg: Config, isArray: bool, cs: seq<Handle>, i: nat, np: string, cmd: string, rest: seq<string>,
                    depth: nat, acc: Res)
    requires i <= |cs| && (acc.o.Ran? ==> acc.o.np == np)
    requires i == |cs| || acc.o.Exited?
    ensures EachRun(cfg, isArray, cs, i, np, cmd, rest, depth, acc) == acc
  {
  }

  /** One pass of get_cmd_each's loop: run the rest on child `cur`, whose
      index is `i`, under the nodepath extended by its key. */
  function EachChild(cfg: Config, isArray: bool, cur: Handle, i: nat, np: string, cmd: string, rest: seq<string>,
                     depth: nat, acc: Res): (r: Res)
    requires acc.o.Ran? && acc.o.np == np
    ensures r.o.Ran? ==> r.o.np == np && (r.o.depth == acc.o.depth || r.o.depth >= depth)
    ensures acc.st.out <= r.st.out
    decreases |rest| + 1, 0, 1, 0
  {
    var newnp := np + EachKey(cfg, isArray, cur, i);
    var r := RunChain(cfg, Expanded(cur), 0, cmd, rest, depth, Res(Ran(acc.o.depth, newnp), acc.st));
    if r.o.Exited? then r else Res(Ran(r.o.depth, np), r.st)
  }

  function CmdEach(cfg: Config, obj: Option<Handle>, np: string, rest: seq<string>, depth: nat, st: St): (r: Res)
    ensures r.o.Ran? ==> r.o.depth >= depth
    ensures st.out <= r.st.out
    decreases |rest|, OptWeight(obj), 2, 0
  {
    if |rest| == 0 then
      var rr := EachOut(cfg, IsArray(obj), OptChildren(obj), 0, np, st);
      Res(Ran(depth, rr.np), rr.st)
    else if obj.None? then Res(Ran(depth, np), st)
    else EachRun(cfg, IsArray(obj), Children(obj.value), 0, np, rest[0], rest[1..], depth + 1, Res(Ran(depth, np), st))
  }

  /** get_cmd_none with no further command: output_key for what every
      space-separated path finds. */
  function NoneOut(cfg: Config, top: Option<Node>, toks: seq<string>, j: nat, np: string, st: St): (r: Rendered)
    requires j <= |toks|
    ensures st.out <= r.st.out
    decreases |toks| - j
  {
    if j == |toks| then Rendered(st, np)
    else
      var cur := LookupPath(top, toks[j], cfg.inSep);
      var rr := OutputKey(cfg, NodeOf(cur), np, Some(toks[j]), st);
      NoneOut(cfg, top, toks, j + 1, rr.np, rr.st)
  }

  /** get_cmd_none with a further command: run it on what every path finds. */
  function NoneRun(cfg: Config, obj: Option<Handle>, toks: seq<string>, j: nat, np: string, cmd: string,
                   rest: seq<string>, depth: nat, acc: Res): (r: Res)
    requires j <= |toks|
    requires acc.o.Ran? ==> acc.o.np == np
    ensures r.o.Ran? ==> acc.o.Ran? && r.o.np == np && (r.o.depth == acc.o.depth || r.o.depth >= depth)
    ensures acc.st.out <= r.st.out
    decreases |rest| + 1, 0, 1, |toks| - j
  {
    if j == |toks| || acc.o.Exited? then acc
    else NoneRun(cfg, obj, toks, j + 1, np, cmd, rest, depth, NoneLookup(cfg, obj, toks[j], j, np, cmd, rest, depth, acc))
  }

  /** One pass of get_cmd_none's loop: look `tok` up under `obj` and run the
      rest on what it finds. */
  function NoneLookup(cfg: Config, obj: Option<Handle>, tok: string, j: nat, np: string, cmd: string,
                      rest: seq<string>, depth: nat, acc: Res): (r: Res)
    requires acc.o.Ran? && acc.o.np == np
    ensures r.o.Ran? ==> r.o.np == np && (r.o.depth == acc.o.depth || r.o.depth >= depth)
    ensures acc.st.out <= r.st.out
    decreases |rest| + 1, 0, 0, 1
  {
    var cur := LookupPath(NodeOf(obj), tok, cfg.inSep);
    var r := Process(cfg, cur, np + NoneKey(cfg, obj, cur, j), cmd, rest, depth, acc.st);
    if r.o.Exited? then r else Res(Ran(r.o.depth, np), r.st)
  }

  /** The nodepath suffix get_cmd_none builds for the `j`th lookup. */
  function NoneKey(cfg: Config, obj: Option<Handle>, cur: Option<Handle>, j: nat): (r: string)
    ensures |r| > 0 && r[0] == cfg.outSep
    ensures r[1..] == (if IsArray(obj) then NatToString(j) else PrintfStr(KeyOf(cur)))
  {
    [cfg.outSep] + (if IsArray(obj) then NatToString(j) else PrintfStr(KeyOf(cur)))
  }

  function CmdNone(cfg: Config, obj: Option<Handle>, np: string, cmd: string, rest: seq<string>, depth: nat, st: St): (r: Res)
    ensures r.o.Ran? ==> r.o.depth >= depth
    ensures st.out <= r.st.out
    decreases |rest|, OptWeight(obj), 2, 0
  {
    var toks := SplitOn(cmd, ' ');
    if |rest| == 0 then
      var rr := NoneOut(cfg, NodeOf(obj), toks, 0, np, st);
      Res(Ran(depth, rr.np), rr.st)
    else NoneRun(cfg, obj, toks, 0, np, rest[0], rest[1..], depth + 1, Res(Ran(depth, np), st))
  }

  // ---------------------------------------------------------------------
  // get_mode

  function RootHandle(root: Option<Node>): (r: Option<Handle>)
    ensures NodeOf(r) == root
  {
    if root.None? then None else Some(Handle(root.value, None, []))
  }

  /** The node a request's first part selects, and the nodepath it starts
      with: the root for "" or a lone separator, otherwise the path (one
      leading separator stripped) looked up from the root. */
  function Select(cfg: Config, root: Option<Node>, name: string): (r: (Option<Handle>, string))
    ensures r.1 == "" <==> |name| == 0 || name == [cfg.inSep]
    ensures r.1 == "" ==> r.0 == RootHandle(root)
    ensures r.1 != "" ==> r.0 == LookupPath(root, r.1, cfg.inSep) && (name == r.1 || name == [cfg.inSep] + r.1)
  {
    if |name| == 0 || (|name| == 1 && name[0] == cfg.inSep) then (RootHandle(root), "")
    else
      var n := if name[0] == cfg.inSep then name[1..] else name;
      (LookupPath(root, n, cfg.inSep), n)
  }

  /** get_mode's loop: run the first command, drop as many commands as the
      depth it reports, repeat; with no command at all, print the node. The
      outcome carries the number of commands counted. */
  function ModeLoop(cfg: Config, found: Option<Handle>, cmds: seq<string>, np: string, count: nat, st: St): (r: Res)
    ensures st.out <= r.st.out
    decreases |cmds|
  {
    if |cmds| == 0 then
      if count == 0 then
        var rr := OutputChunk(cfg, NodeOf(found), np, "", st);
        Res(Ran(0, rr.np), rr.st)
      else Res(Ran(count, np), st)
    else
      var r := Process(cfg, found, np, cmds[0], cmds[1..], 1, st);
      if r.o.Exited? then r
      else
        var done := r.o.depth;
        var drop := if done < |cmds| then done else |cmds|;
        ModeLoop(cfg, found, cmds[drop..], r.o.np, count + done, r.st)
  }

  /** get_mode(request). */
  function Mode(cfg: Config, root: Option<Node>, request: string, st: St): (r: Res)
    ensures st.out <= r.st.out
  {
    var toks := SplitOn(request, '|');
    var sel := Select(cfg, root, toks[0]);
    ModeLoop(cfg, sel.0, toks[1..], sel.1, 0, st)
  }

  // ---------------------------------------------------------------------
  // The engine, writing to a sink

  /** process_get_command. */
  method ProcessGetCommand(cfg: Config, obj: Option<Handle>, np: string, cmd: string, rest: seq<string>, depth: nat, s: Sink)
    returns (o: Outcome)
    modifies s
    ensures Res(o, s.State()) == Process(cfg, obj, np, cmd, rest, depth, old(s.State()))
    decreases |rest|, OptWeight(obj), 3, 0
  {
    if cmd == "length" {
      o := GetCmdLength(cfg, obj, np, depth, s);
    } else if cmd == "dump" {
      o := Ran(depth, np);
    } else if cmd == "type" {
      o := GetCmdType(cfg, obj, np, depth, s);
    } else if cmd == "keys" {
      o := GetCmdKeys(cfg, obj, np, depth, s);
    } else if cmd == "values" {
      o := GetCmdValues(cfg, obj, np, depth, s);
    } else if cmd == "iterate" {
      o := GetCmdIterate(cfg, obj, np, rest, depth, s);
    } else if cmd == "recurse" {
      o := GetCmdRecurse(cfg, obj, np, rest, depth, s);
    } else if cmd == "each" {
      o := GetCmdEach(cfg, obj, np, rest, depth, s);
    } else if FirstChar(cmd) == cfg.inSep {
      o := GetCmdNone(cfg, obj, np, cmd, rest, depth, s);
    } else {
      o := Exited(1);
    }
  }

  method GetCmdLength(cfg: Config, obj: Option<Handle>, np: string, depth: nat, s: Sink) returns (o: Outcome)
    modifies s
    ensures Res(o, s.State()) == CmdLength(cfg, obj, np, depth, old(s.State()))
  {
    var lead := if s.firstline then "" else " ";
    var body;
    if obj.None? {
      body := (if cfg.showKeys then "(null)=" else "") + "0";
    } else {
      body := (if cfg.showKeys then np else "") + NatToString(Len(obj.value.node));
    }
    s.Write(cfg, lead + body + Ending(cfg));
    o := Ran(depth, np);
  }

  method GetCmdType(cfg: Config, obj: Option<Handle>, np: string, depth: nat, s: Sink) returns (o: Outcome)
    modifies s
    ensures Res(o, s.State()) == CmdType(cfg, obj, np, depth, old(s.State()))
  {
    var lead := if s.firstline then "" else " ";
    var body;
    if obj.None? {
      body := (if cfg.showKeys then "(null)=" else "") + "null";
    } else {
      body := (if cfg.showKeys then np + "=" else "") + TypeWord(KindOf(obj.value.node));
    }
    s.Write(cfg, lead + body + Ending(cfg));
    o := Ran(depth, np);
  }

  method GetCmdKeys(cfg: Config, obj: Option<Handle>, np: string, depth: nat, s: Sink) returns (o: Outcome)
    modifies s
    ensures Res(o, s.State()) == CmdKeys(cfg, obj, np, depth, old(s.State()))
  {
    var cs := OptChildren(obj);
    var i := 0;
    while i < |cs|
      invariant 0 <= i <= |cs|
      invariant KeysOut(cfg, cs, i, s.State()) == KeysOut(cfg, cs, 0, old(s.State()))
    {
      var lead := if s.firstline then "" else " ";
      s.Write(cfg, lead + PrintfStr(cs[i].key) + Ending(cfg));
      i := i + 1;
    }
    o := Ran(depth, np);
  }

  method GetCmdValues(cfg: Config, obj: Option<Handle>, np: string, depth: nat, s: Sink) returns (o: Outcome)
    modifies s
    ensures Res(o, s.State()) == CmdValues(cfg, obj, np, depth, old(s.State()))
  {
    var path := WriteValues(cfg, IsArray(obj), OptChildren(obj), np, s);
    o := Ran(depth, path);
  }

  /** The key get_cmd_values gives a child: its position under an array
      (counting on from arrindex), its own key otherwise. */
  method NextValueKey(cfg: Config, isArray: bool, cur: Handle, arrindex: nat) returns (newkey: Option<string>, next: nat)
    ensures newkey == ValueKey(cfg, isArray, cur, arrindex)
    ensures next == if isArray then arrindex + 1 else arrindex
  {
    next := arrindex;
    if isArray {
      newkey := Some([cfg.outSep] + NatToString(arrindex));
      next := arrindex + 1;
    } else if cur.key.None? {
      newkey := None;
    } else {
      newkey := Some([cfg.outSep] + cur.key.value);
    }
  }

  /** get_cmd_values' loop over the children `cs`. */
  method WriteValues(cfg: Config, isArray: bool, cs: seq<Handle>, np: string, s: Sink) returns (path: string)
    modifies s
    ensures Rendered(s.State(), path) == ValuesOut(cfg, isArray, cs, 0, np, old(s.State()))
  {
    ghost var want := ValuesOut(cfg, isArray, cs, 0, np, s.State());
    path := np;
    var i, arrindex := 0, 0;
    while i < |cs|
      invariant 0 <= i <= |cs| && (isArray ==> arrindex == i)
      invariant ValuesOut(cfg, isArray, cs, i, path, s.State()) == want
    {
      path, arrindex := WriteValueChild(cfg, isArray, cs, i, arrindex, path, s);
      i := i + 1;
    }
    ValuesOutDone(cfg, isArray, cs, path, s.State());
  }

  lemma ValuesOutDone(cfg: Config, isArray: bool, cs: seq<Handle>, np: string, st: St)
    ensures ValuesOut(cfg, isArray, cs, |cs|, np, st) == Rendered(st, np)
  {
  }

  /** One turn of get_cmd_values' loop: child i printed under its key. */
  method WriteValueChild(cfg: Config, isArray: bool, cs: seq<Handle>, i: nat, arrindex: nat, np: string, s: Sink)
    returns (path: string, next: nat)
    requires i < |cs| && (isArray ==> arrindex == i)
    modifies s
    ensures isArray ==> next == i + 1
    ensures ValuesOut(cfg, isArray, cs, i + 1, path, s.State()) == ValuesOut(cfg, isArray, cs, i, np, old(s.State()))
  {
    var newkey;
    newkey, next := NextValueKey(cfg, isArray, cs[i], arrindex);
    path := WriteKey(cfg, Some(cs[i].node), np, newkey, s);
  }

  /** output_chunk on every handle of `hs` under one key. */
  method WriteChunks(cfg: Config, hs: seq<Handle>, np: string, key: string, s: Sink) returns (np': string)
    modifies s
    ensures Rendered(s.State(), np') == ChunksOut(cfg, hs, 0, np, key, old(s.State()))
  {
    np' := np;
    var j := 0;
    while j < |hs|
      invariant 0 <= j <= |hs|
      invariant ChunksOut(cfg, hs, j, np', key, s.State()) == ChunksOut(cfg, hs, 0, np, key, old(s.State()))
    {
      np' := WriteChunk(cfg, Some(hs[j].node), np', key, s);
      j := j + 1;
    }
  }

  /** The next command on every handle of `hs`, sharing one nodepath. */
  method RunOnEach(cfg: Config, hs: seq<Handle>, cmd: string, rest: seq<string>, depth: nat, level: nat, np: string, s: Sink)
    returns (o: Outcome)
    modifies s
    ensures Res(o, s.State()) == RunChain(cfg, hs, 0, cmd, rest, depth, Res(Ran(level, np), old(s.State())))
    decreases |rest| + 1, 0, 0, 0
  {
    o := Ran(level, np);
    var j := 0;
    while j < |hs| && o.Ran?
      invariant 0 <= j <= |hs|
      invariant RunChain(cfg, hs, j, cmd, rest, depth, Res(o, s.State())) ==
        RunChain(cfg, hs, 0, cmd, rest, depth, Res(Ran(level, np), old(s.State())))
    {
      o := ProcessGetCommand(cfg, Some(hs[j]), o.np, cmd, rest, depth, s);
      j := j + 1;
    }
  }

  method GetCmdIterate(cfg: Config, obj: Option<Handle>, np: string, rest: seq<string>, depth: nat, s: Sink)
    returns (o: Outcome)
    modifies s
    ensures Res(o, s.State()) == CmdIterate(cfg, obj, np, rest, depth, old(s.State()))
    decreases |rest|, OptWeight(obj), 2, 0
  {
    if |rest| == 0 {
      var path := WriteChunks(cfg, OptChain(obj), np, "", s);
      o := Ran(depth, path);
    } else if obj.Some? {
      o := RunOnEach(cfg, ChainOf(obj.value), rest[0], rest[1..], depth + 1, depth, np, s);
    } else {
      o := Ran(depth, np);
    }
  }

  /** What get_cmd_recurse prints before its loop. */
  method WriteRecursePrelude(cfg: Config, obj: Option<Handle>, np: string, s: Sink) returns (path: string)
    modifies s
    ensures Rendered(s.State(), path) == RecursePrelude(cfg, obj, np, old(s.State()))
  {
    path := np;
    if |path| > 0 {
      path := WriteChunk(cfg, NodeOf(obj), path, "", s);
      if cfg.expand && IsArray(obj) {
        path := WriteChunk(cfg, Some(Int(Len(obj.value.node))), path, [cfg.outSep] + "_length", s);
      }
    }
    if cfg.expand && IsObject(obj) {
      var keylist := ExpandSubkeys(obj);
      path := WriteChunk(cfg, Some(Str(keylist)), path, [cfg.outSep] + "_keys", s);
    }
  }

  /** get_cmd_recurse's inner loop: `recurse` on every value of a compound
      child's chain. */
  method RecurseOnValues(cfg: Config, obj: Option<Handle>, cur: Handle, np: string, newkey: string, arrindex: nat,
                         rest: seq<string>, depth: nat, level: nat, s: Sink) returns (o: Outcome)
    requires obj.Some? && Weight(cur) < Weight(obj.value)
    modifies s
    ensures Res(o, s.State()) ==
      RecurseChain(cfg, obj, cur, ChainOf(cur), 0, np, newkey, arrindex, rest, depth, Res(Ran(level, np), old(s.State())))
    decreases |rest|, Weight(cur), 4, 1
  {
    var hs := ChainOf(cur);
    o := Ran(level, np);
    var j := 0;
    while j < |hs| && o.Ran?
      invariant 0 <= j <= |hs|
      invariant o.Ran? ==> o.np == np
      invariant RecurseChain(cfg, obj, cur, hs, j, np, newkey, arrindex, rest, depth, Res(o, s.State())) ==
        RecurseChain(cfg, obj, cur, hs, 0, np, newkey, arrindex, rest, depth, Res(Ran(level, np), old(s.State())))
    {
      o := RecurseOnValue(cfg, obj, cur, hs, j, np, newkey, arrindex, rest, depth, o.depth, s);
      j := j + 1;
    }
  }

  /** One turn of that loop: `recurse` on value j under the child's path. */
  method RecurseOnValue(cfg: Config, obj: Option<Handle>, cur: Handle, hs: seq<Handle>, j: nat, np: string, newkey: string,
                        arrindex: nat, rest: seq<string>, depth: nat, level: nat, s: Sink) returns (o: Outcome)
    requires hs == ChainOf(cur) && j < |hs|
    requires obj.Some? && Weight(cur) < Weight(obj.value)
    modifies s
    ensures o.Ran? ==> o.np == np
    ensures RecurseChain(cfg, obj, cur, hs, j + 1, np, newkey, arrindex, rest, depth, Res(o, s.State())) ==
      RecurseChain(cfg, obj, cur, hs, j, np, newkey, arrindex, rest, depth, Res(Ran(level, np), old(s.State())))
    decreases |rest|, Weight(cur), 4, 0
  {
    var newnp;
    if |np| > 0 {
      newnp := np + newkey;
    } else if IsArray(obj) {
      newnp := NatToString(arrindex);
    } else {
      newnp := PrintfStr(hs[j].key);
    }
    assert newnp == RecursePath(obj, np, newkey, arrindex, hs[j]);
    o := ProcessGetCommand(cfg, Some(hs[j]), newnp, "recurse", rest, depth + 1, s);
    if o.Ran? {
      o := Ran(o.depth, np);
    }
  }

  method GetCmdRecurse(cfg: Config, obj: Option<Handle>, np: string, rest: seq<string>, depth: nat, s: Sink)
    returns (o: Outcome)
    modifies s
    ensures Res(o, s.State()) == CmdRecurse(cfg, obj, np, rest, depth, old(s.State()))
    decreases |rest|, OptWeight(obj), 2, 0
  {
    var path := WriteRecursePrelude(cfg, obj, np, s);
    var cs := OptChildren(obj);
    o := Ran(depth, path);
    var i, arrindex := 0, 0;
    while i < |cs| && o.Ran?
      invariant 0 <= i <= |cs| && arrindex == (if IsArray(obj) then i else 0)
      invariant RecurseLoop(cfg, obj, cs, i, rest, depth, Res(o, s.State())) ==
        CmdRecurse(cfg, obj, np, rest, depth, old(s.State()))
    {
      var cur := cs[i];
      var newkey;
      if IsArray(obj) {
        newkey := [cfg.outSep] + NatToString(arrindex);
        arrindex := arrindex + 1;
      } else if |o.np| == 0 {
        newkey := PrintfStr(cur.key);
      } else {
        newkey := [cfg.outSep] + PrintfStr(cur.key);
      }
      assert newkey == RecurseKey(cfg, obj, o.np, cur, i);
      if IsCompound(cur.node) {
        o := RecurseOnValues(cfg, obj, cur, o.np, newkey, arrindex, rest, depth, o.depth, s);
      } else {
        var path := WriteChunk(cfg, Some(cur.node), o.np, newkey, s);
        o := Ran(o.depth, path);
      }
      i := i + 1;
    }
  }

  method GetCmdEach(cfg: Config, obj: Option<Handle>, np: string, rest: seq<string>, depth: nat, s: Sink)
    returns (o: Outcome)
    modifies s
    ensures Res(o, s.State()) == CmdEach(cfg, obj, np, rest, depth, old(s.State()))
    decreases |rest|, OptWeight(obj), 2, 0
  {
    if |rest| == 0 {
      var path := WriteEach(cfg, IsArray(obj), OptChildren(obj), np, s);
      o := Ran(depth, path);
    } else if obj.Some? {
      o := RunOnChildren(cfg, IsArray(obj), Children(obj.value), np, rest[0], rest[1..], depth + 1, depth, s);
    } else {
      o := Ran(depth, np);
    }
  }

  lemma EachOutDone(cfg: Config, isArray: bool, cs: seq<Handle>, np: string, st: St)
    ensures EachOut(cfg, isArray, cs, |cs|, np, st) == Rendered(st, np)
  {
  }

  /** One turn of get_cmd_each's loop: child i printed under its key. */
  method WriteEachChild(cfg: Config, isArray: bool, cs: seq<Handle>, i: nat, arrindex: nat, np: string, s: Sink)
    returns (path: string, next: nat)
    requires i < |cs| && (isArray ==> arrindex == i)
    modifies s
    ensures isArray ==> next == i + 1
    ensures EachOut(cfg, isArray, cs, i + 1, path, s.State()) == EachOut(cfg, isArray, cs, i, np, old(s.State()))
  {
    var newkey;
    newkey, next := NextEachKey(cfg, isArray, cs[i], arrindex);
    path := WriteChunks(cfg, Expanded(cs[i]), np, newkey, s);
  }

  /** The key get_cmd_each gives a child, as NextValueKey does but printing
      a missing key as "(null)". */
  method NextEachKey(cfg: Config, isArray: bool, cur: Handle, arrindex: nat) returns (newkey: string, next: nat)
    ensures newkey == EachKey(cfg, isArray, cur, arrindex)
    ensures next == if isArray then arrindex + 1 else arrindex
  {
    next := arrindex;
    if isArray {
      newkey := [cfg.outSep] + NatToString(arrindex);
      next := arrindex + 1;
    } else {
      newkey := [cfg.outSep] + PrintfStr(cur.key);
    }
  }

  /** get_cmd_each's loop with no further command. */
  method WriteEach(cfg: Config, isArray: bool, cs: seq<Handle>, np: string, s: Sink) returns (path: string)
    modifies s
    ensures Rendered(s.State(), path) == EachOut(cfg, isArray, cs, 0, np, old(s.State()))
  {
    ghost var want := EachOut(cfg, isArray, cs, 0, np, s.State());
    path := np;
    var i, arrindex := 0, 0;
    while i < |cs|
      invariant 0 <= i <= |cs| && (isArray ==> arrindex == i)
      invariant EachOut(cfg, isArray, cs, i, path, s.State()) == want
    {
      path, arrindex := WriteEachChild(cfg, isArray, cs, i, arrindex, path, s);
      i := i + 1;
    }
    EachOutDone(cfg, isArray, cs, path, s.State());
  }

  /** get_cmd_each's loop with a further command. */
  method RunOnChildren(cfg: Config, isArray: bool, cs: seq<Handle>, np: string, cmd: string, rest: seq<string>,
                       depth: nat, level: nat, s: Sink) returns (o: Outcome)
    modifies s
    ensures Res(o, s.State()) == EachRun(cfg, isArray, cs, 0, np, cmd, rest, depth, Res(Ran(level, np), old(s.State())))
    decreases |rest| + 1, 0, 1, 1
  {
    o := Ran(level, np);
    var i := 0;
    while i < |cs| && o.Ran?
      invariant 0 <= i <= |cs|
      invariant o.Ran? ==> o.np == np
      invariant EachRun(cfg, isArray, cs, i, np, cmd, rest, depth, Res(o, s.State())) ==
        EachRun(cfg, isArray, cs, 0, np, cmd, rest, depth, Res(Ran(level, np), old(s.State())))
    {
      EachRunStep(cfg, isArray, cs, i, np, cmd, rest, depth, Res(o, s.State()));
      o := RunOnChild(cfg, isArray, cs[i], i, np, cmd, rest, depth, o.depth, s);
      i := i + 1;
    }
    EachRunDone(cfg, isArray, cs, i, np, cmd, rest, depth, Res(o, s.State()));
  }

  /** The body of get_cmd_each's loop; `arrindex` is the child's position. */
  method RunOnChild(cfg: Config, isArray: bool, cur: Handle, arrindex: nat, np: string, cmd: string, rest: seq<string>,
                    depth: nat, level: nat, s: Sink) returns (o: Outcome)
    modifies s
    ensures Res(o, s.State()) == EachChild(cfg, isArray, cur, arrindex, np, cmd, rest, depth, Res(Ran(level, np), old(s.State())))
    decreases |rest| + 1, 0, 1, 0
  {
    var newnp;
    if isArray {
      newnp := np + [cfg.outSep] + NatToString(arrindex);
    } else {
      newnp := np + [cfg.outSep] + PrintfStr(cur.key);
    }
    assert newnp == np + EachKey(cfg, isArray, cur, arrindex);
    o := RunOnEach(cfg, Expanded(cur), cmd, rest, depth, level, newnp, s);
    if o.Ran? {
      o := Ran(o.depth, np);
    }
  }

  method GetCmdNone(cfg: Config, obj: Option<Handle>, np: string, cmd: string, rest: seq<string>, depth: nat, s: Sink)
    returns (o: Outcome)
    modifies s
    ensures Res(o, s.State()) == CmdNone(cfg, obj, np, cmd, rest, depth, old(s.State()))
    decreases |rest|, OptWeight(obj), 2, 0
  {
    var toks := SplitOn(cmd, ' ');
    if |rest| == 0 {
      var path := WriteLookups(cfg, NodeOf(obj), toks, np, s);
      o := Ran(depth, path);
    } else {
      o := RunOnLookups(cfg, obj, toks, np, rest[0], rest[1..], depth + 1, depth, s);
    }
  }

  /** get_cmd_none's loop with no further command. */
  method WriteLookups(cfg: Config, top: Option<Node>, toks: seq<string>, np: string, s: Sink) returns (path: string)
    modifies s
    ensures Rendered(s.State(), path) == NoneOut(cfg, top, toks, 0, np, old(s.State()))
  {
    path := np;
    var j := 0;
    while j < |toks|
      invariant 0 <= j <= |toks|
      invariant NoneOut(cfg, top, toks, j, path, s.State()) == NoneOut(cfg, top, toks, 0, np, old(s.State()))
    {
      var cur := LookupPath(top, toks[j], cfg.inSep);
      path := WriteKey(cfg, NodeOf(cur), path, Some(toks[j]), s);
      j := j + 1;
    }
  }

  /** get_cmd_none's loop with a further command. */
  method RunOnLookups(cfg: Config, obj: Option<Handle>, toks: seq<string>, np: string, cmd: string, rest: seq<string>,
                      depth: nat, level: nat, s: Sink) returns (o: Outcome)
    modifies s
    ensures Res(o, s.State()) == NoneRun(cfg, obj, toks, 0, np, cmd, rest, depth, Res(Ran(level, np), old(s.State())))
    decreases |rest| + 1, 0, 1, 0
  {
    o := Ran(level, np);
    var j := 0;
    while j < |toks| && o.Ran?
      invariant 0 <= j <= |toks|
      invariant o.Ran? ==> o.np == np
      invariant NoneRun(cfg, obj, toks, j, np, cmd, rest, depth, Res(o, s.State())) ==
        NoneRun(cfg, obj, toks, 0, np, cmd, rest, depth, Res(Ran(level, np), old(s.State())))
    {
      ghost var acc := Res(o, s.State());
      o := RunOnLookup(cfg, obj, toks[j], j, np, cmd, rest, depth, o.depth, s);
      assert Res(o, s.State()) == NoneLookup(cfg, obj, toks[j], j, np, cmd, rest, depth, acc);
      j := j + 1;
    }
  }

  /** The body of get_cmd_none's loop; `arrindex` is the token's position. */
  method RunOnLookup(cfg: Config, obj: Option<Handle>, tok: string, arrindex: nat, np: string, cmd: string,
                     rest: seq<string>, depth: nat, level: nat, s: Sink) returns (o: Outcome)
    modifies s
    ensures Res(o, s.State()) == NoneLookup(cfg, obj, tok, arrindex, np, cmd, rest, depth, Res(Ran(level, np), old(s.State())))
    decreases |rest| + 1, 0, 0, 1
  {
    var cur := LookupPath(NodeOf(obj), tok, cfg.inSep);
    var key;
    if IsArray(obj) {
      key := [cfg.outSep] + NatToString(arrindex);
    } else {
      key := [cfg.outSep] + PrintfStr(KeyOf(cur));
    }
    assert key == NoneKey(cfg, obj, cur, arrindex);
    o := ProcessGetCommand(cfg, cur, np + key, cmd, rest, depth, s);
    if o.Ran? {
      o := Ran(o.depth, np);
    }
  }

  /** get_mode(request). */
  method GetMode(cfg: Config, root: Option<Node>, request: string, s: Sink) returns (o: Outcome)
    modifies s
    ensures Res(o, s.State()) == Mode(cfg, root, request, old(s.State()))
  {
    var toks := SplitOn(request, '|');
    var name := toks[0];
    var found: Option<Handle>;
    var nodepath: string;
    if |name| == 0 {
      found, nodepath := RootHandle(root), "";
    } else if |name| == 1 && name[0] == cfg.inSep {
      found, nodepath := RootHandle(root), "";
    } else {
      if name[0] == cfg.inSep {
        name := name[1..];
      }
      found, nodepath := LookupPath(root, name, cfg.inSep), name;
    }
    assert (found, nodepath) == Select(cfg, root, toks[0]);
    o := RunCommands(cfg, found, toks[1..], nodepath, s);
  }

  /** get_mode's command loop. */
  method RunCommands(cfg: Config, found: Option<Handle>, cmds: seq<string>, np: string, s: Sink) returns (o: Outcome)
    modifies s
    ensures Res(o, s.State()) == ModeLoop(cfg, found, cmds, np, 0, old(s.State()))
  {
    var rest := cmds;
    var count: nat := 0;
    o := Ran(0, np);
    while |rest| > 0 && o.Ran?
      invariant o.Ran? ==> ModeLoop(cfg, found, rest, o.np, count, s.State()) == ModeLoop(cfg, found, cmds, np, 0, old(s.State()))
      invariant o.Exited? ==> Res(o, s.State()) == ModeLoop(cfg, found, cmds, np, 0, old(s.State()))
      decreases |rest|, if o.Ran? then 1 else 0
    {
      o, rest, count := RunCommand(cfg, found, rest, o.np, count, s);
    }
    if o.Ran? {
      var path := o.np;
      if count == 0 {
        path := WriteChunk(cfg, NodeOf(found), path, "", s);
      }
      o := Ran(count, path);
    }
  }

  /** One pass of get_mode's command loop: run the first command, then skip
      past the `done` commands it consumed. */
  method RunCommand(cfg: Config, found: Option<Handle>, cmds: seq<string>, np: string, count: nat, s: Sink)
    returns (o: Outcome, rest: seq<string>, count': nat)
    requires |cmds| > 0
    modifies s
    ensures |rest| <= |cmds|
    ensures o.Ran? ==> |rest| < |cmds|
    ensures o.Ran? ==> ModeLoop(cfg, found, rest, o.np, count', s.State()) == ModeLoop(cfg, found, cmds, np, count, old(s.State()))
    ensures o.Exited? ==> Res(o, s.State()) == ModeLoop(cfg, found, cmds, np, count, old(s.State()))
  {
    o := ProcessGetCommand(cfg, found, np, cmds[0], cmds[1..], 1, s);
    rest, count' := cmds, count;
    if o.Ran? {
      var done := o.depth;
      var drop := if done < |cmds| then done else |cmds|;
      rest := cmds[drop..];
      count' := count + done;
    }
  }
}
