/** The single-file predecessor of the tool (uclcmd.c): its own get engine
    (length, type, keys, values, each and a lookup after the first node),
    its output_key and replace_sep, and the set, merge and remove verbs of
    its main.

    It differs from the current engine in ways the lemmas below pin down:
    the input separator is always '.', `sepchar` (the -v option) only
    changes what labels show, there is no leading space, nonewline mode,
    shell-variable mode, recurse or iterate, `each` never expands implicit
    arrays, and the lookup command dereferences an absent node when a
    further command follows it.

    Output is a sequence of records, one per printed line; the text is
    their concatenation. A nodepath output_key rewrites in its caller's
    buffer is handed back rewritten, and the callers carry it on. */
module Legacy {
  import opened Libc
  import opened Tree
  import opened Common
  import opened Library
  import opened Output
  import Get
  import GetText

  /** How a call ends: the recursion level it reports and its nodepath
      buffer as it left it, exit(status), or a crash on a NULL pointer. */
  datatype Status = Done(level: nat, np: string) | Quit(code: int) | Segfault

  datatype Printed = Printed(s: Status, out: seq<string>)

  /** The output after an output_key call and the nodepath it rewrote. */
  datatype Shown = Shown(out: seq<string>, np: string)

  /** stdout, one record per printed line. */
  class Stdout {
    var out: seq<string>

    constructor()
      ensures out == []
    {
      out := [];
    }

    method Printf(rec: string)
      modifies this
      ensures out == old(out) + [rec]
    {
      out := out + [rec];
    }
  }

  // ---------------------------------------------------------------------
  // replace_sep and output_key

  /** replace_sep(key, oldsep, newsep): it returns at once when the two
      separator strings are the same pointer (which implies the same text),
      otherwise rewrites every oldsep character in place. */
  method ReplaceSep(key: array<char>, samePointer: bool, oldsep: char, newsep: char)
    requires samePointer ==> oldsep == newsep
    modifies key
    ensures key[..] == Replaced(old(key[..]), oldsep, newsep)
    ensures samePointer ==> unchanged(key)
  {
    if samePointer {
      ReplacedEffect(key[..], oldsep, newsep);
      return;
    }
    Rewrite(key, oldsep, newsep);
  }

  /** output_key(obj, nodepath, inkey): the nodepath and key with '.'
      rewritten to sepchar, `nodepath key =` when keys are shown, then the
      value; a null value matches no case of the switch and prints nothing. */
  function ShowKey(cfg: Config, n: Option<Node>, np: string, inkey: string, out: seq<string>): (r: Shown)
    ensures r.np == Replaced(np, '.', cfg.outSep)
    ensures out <= r.out && |r.out| <= |out| + 1
    ensures r.out == out <==> n == Some(Null)
  {
    var np' := Replaced(np, '.', cfg.outSep);
    var key := Replaced(inkey, '.', cfg.outSep);
    var lab := Label(cfg, np', key);
    if n.None? then Shown(out + [lab + "null\n"], np')
    else if n.value.Null? then Shown(out, np')
    else Shown(out + [TextValue(cfg, n.value, lab) + "\n"], np')
  }

  /** output_key on a copy of the nodepath buffer and a strdup of the key;
      the two "." literals are taken to be one pooled string, so the
      rewrite is skipped exactly when sepchar is "." (which, by ReplaceSep's
      contract, changes nothing). */
  method OutputKey(cfg: Config, n: Option<Node>, np: string, inkey: string, s: Stdout) returns (np': string)
    modifies s
    ensures Shown(s.out, np') == ShowKey(cfg, n, np, inkey, old(s.out))
  {
    var path := new char[|np|](i requires 0 <= i < |np| => np[i]);
    var key := new char[|inkey|](i requires 0 <= i < |inkey| => inkey[i]);
    assert path[..] == np && key[..] == inkey;
    ReplaceSep(path, cfg.outSep == '.', '.', cfg.outSep);
    ReplaceSep(key, cfg.outSep == '.', '.', cfg.outSep);
    np' := path[..];
    var lab := if cfg.showKeys then np' + key[..] + "=" else "";
    if n.None? {
      s.Printf(lab + "null\n");
    } else if !n.value.Null? {
      s.Printf(TextValue(cfg, n.value, lab) + "\n");
    }
  }

  // ---------------------------------------------------------------------
  // process_get_command

  /** `nodepath sepchar key =` as length and type print it when keys are
      shown: the nodepath as it is, not rewritten. */
  function KeyedLabel(cfg: Config, h: Handle, np: string): string
  {
    if cfg.showKeys then np + [cfg.outSep] + PrintfStr(h.key) + "=" else ""
  }

  function LengthLine(cfg: Config, obj: Option<Handle>, np: string): string
  {
    if obj.None? then (if cfg.showKeys then "(null)=" else "") + "0\n"
    else KeyedLabel(cfg, obj.value, np) + NatToString(Len(obj.value.node)) + "\n"
  }

  function TypeLine(cfg: Config, obj: Option<Handle>, np: string): string
  {
    if obj.None? then (if cfg.showKeys then "(null)=" else "") + "null\n"
    else KeyedLabel(cfg, obj.value, np) + Get.TypeWord(KindOf(obj.value.node)) + "\n"
  }

  /** The keys command: the key of every child, one per line. */
  function KeyLines(cs: seq<Handle>): (r: seq<string>)
    ensures |r| == |cs|
    ensures forall i :: 0 <= i < |cs| ==> r[i] == PrintfStr(cs[i].key) + "\n"
  {
    seq(|cs|, i requires 0 <= i < |cs| => PrintfStr(cs[i].key) + "\n")
  }

  /** sepchar and the child's index (under an array) or its key. */
  function ChildKey(cfg: Config, isArray: bool, cur: Handle, i: nat): string
  {
    [cfg.outSep] + (if isArray then NatToString(i) else PrintfStr(cur.key))
  }

  /** The child key is sepchar and then the decimal index or the key, the
      same key the current engine's each builds. */
  lemma ChildKeyText(cfg: Config, isArray: bool, cur: Handle, i: nat)
    ensures |ChildKey(cfg, isArray, cur, i)| > 0 && ChildKey(cfg, isArray, cur, i)[0] == cfg.outSep
    ensures ChildKey(cfg, isArray, cur, i)[1..] == (if isArray then NatToString(i) else PrintfStr(cur.key))
    ensures ChildKey(cfg, isArray, cur, i) == Get.EachKey(cfg, isArray, cur, i)
  {
    assert ChildKey(cfg, isArray, cur, i)[1..] == (if isArray then NatToString(i) else PrintfStr(cur.key));
  }

  /** The values loop: output_key for every child, each call rewriting the
      caller's nodepath buffer. */
  function ValuesOut(cfg: Config, isArray: bool, cs: seq<Handle>, i: nat, np: string, out: seq<string>): (r: Shown)
    requires i <= |cs|
    ensures out <= r.out
    decreases |cs| - i
  {
    if i == |cs| then Shown(out, np)
    else
      var sh := ShowKey(cfg, Some(cs[i].node), np, ChildKey(cfg, isArray, cs[i], i), out);
      ValuesOut(cfg, isArray, cs, i + 1, sh.np, sh.out)
  }

  /** process_get_command(obj, nodepath, cmd, rest, level): `rest` is
      empty where the C code has a NULL remaining_commands. */
  function Process(cfg: Config, obj: Option<Handle>, np: string, cmd: string, rest: seq<string>, level: nat,
                   out: seq<string>): (r: Printed)
    ensures r.s.Done? ==> r.s.level >= level
    ensures out <= r.out
    decreases |rest|, 2, 0
  {
    if cmd == "length" then Printed(Done(level, np), out + [LengthLine(cfg, obj, np)])
    else if cmd == "type" then Printed(Done(level, np), out + [TypeLine(cfg, obj, np)])
    else if cmd == "keys" then Printed(Done(level, np), out + KeyLines(OptChildren(obj)))
    else if cmd == "values" then
      var sh := ValuesOut(cfg, Get.IsArray(obj), OptChildren(obj), 0, np, out);
      Printed(Done(level, sh.np), sh.out)
    else if cmd == "each" then CmdEach(cfg, obj, np, rest, level, out)
    else if Get.FirstChar(cmd) == '.' then CmdLookup(cfg, obj, np, cmd, rest, level, out)
    else Printed(Quit(1), out)
  }

  /** each: without a further command it prints like values; with one, it
      runs that command on every child under a fresh nodepath and reports
      the level the last child reached. */
  function CmdEach(cfg: Config, obj: Option<Handle>, np: string, rest: seq<string>, level: nat, out: seq<string>): (r: Printed)
    ensures r.s.Done? ==> r.s.level >= level
    ensures out <= r.out
    decreases |rest|, 1, 0
  {
    if |rest| == 0 then
      var sh := ValuesOut(cfg, Get.IsArray(obj), OptChildren(obj), 0, np, out);
      Printed(Done(level, sh.np), sh.out)
    else if obj.None? then Printed(Done(level, np), out)
    else EachRun(cfg, Get.IsArray(obj), Children(obj.value), 0, np, rest[0], rest[1..], level, Printed(Done(level, np), out))
  }

  /** each's loop from child `i` on, stopping at an exit or a crash. */
  function EachRun(cfg: Config, isArray: bool, cs: seq<Handle>, i: nat, np: string, cmd: string, rest: seq<string>,
                   level: nat, acc: Printed): (r: Printed)
    requires i <= |cs|
    requires acc.s.Done? ==> acc.s.np == np
    ensures r.s.Done? ==> acc.s.Done? && r.s.np == np && (r.s.level == acc.s.level || r.s.level > level)
    ensures acc.out <= r.out
    decreases |rest| + 1, 0, |cs| - i
  {
    if i == |cs| || !acc.s.Done? then acc
    else
      var c := Process(cfg, Some(cs[i]), np + ChildKey(cfg, isArray, cs[i], i), cmd, rest, level + 1, acc.out);
      var next := if c.s.Done? then Printed(Done(c.s.level, np), c.out) else c;
      EachRun(cfg, isArray, cs, i + 1, np, cmd, rest, level, next)
  }

  lemma EachRunStep(cfg: Config, isArray: bool, cs: seq<Handle>, i: nat, np: string, cmd: string, rest: seq<string>,
                    level: nat, acc: Printed)
    requires i < |cs| && acc.s.Done? && acc.s.np == np
    ensures var c := Process(cfg, Some(cs[i]), np + ChildKey(cfg, isArray, cs[i], i), cmd, rest, level + 1, acc.out);
      EachRun(cfg, isArray, cs, i, np, cmd, rest, level, acc) ==
      EachRun(cfg, isArray, cs, i + 1, np, cmd, rest, level, if c.s.Done? then Printed(Done(c.s.level, np), c.out) else c)
  {
  }

  /** A command starting with '.': look the path up below the node; print
      what it finds when nothing follows, otherwise run the next command on
      it under nodepath, sepchar and "0" (below an array) or its key. */
  function CmdLookup(cfg: Config, obj: Option<Handle>, np: string, cmd: string, rest: seq<string>, level: nat,
                     out: seq<string>): (r: Printed)
    ensures r.s.Done? ==> r.s.level >= level
    ensures out <= r.out
    decreases |rest|, 1, 0
  {
    var cur := LookupPath(Get.NodeOf(obj), cmd, '.');
    if |rest| == 0 then
      var sh := ShowKey(cfg, Get.NodeOf(cur), np, cmd, out);
      Printed(Done(level, sh.np), sh.out)
    else if obj.None? then Printed(Segfault, out)
    else
      var newnp := np + [cfg.outSep] + (if Get.IsArray(obj) then "0" else PrintfStr(Get.KeyOf(cur)));
      var c := Process(cfg, cur, newnp, rest[0], rest[1..], level + 1, out);
      if c.s.Done? then Printed(Done(c.s.level, np), c.out) else c
  }

  // ---------------------------------------------------------------------
  // get_mode

  /** What get_mode prints when no command ran: output_key in text mode,
      the emitter's text and a newline for the four emitters, and nothing
      on stdout for any other output type. */
  function Final(cfg: Config, found: Option<Handle>, np: string, out: seq<string>): (r: Printed)
    ensures out <= r.out
  {
    match cfg.outputType
    case Text =>
      var sh := ShowKey(cfg, Get.NodeOf(found), np, "", out);
      Printed(Done(0, sh.np), sh.out)
    case Ucl => Printed(Done(0, np), out + [cfg.emit(Get.NodeOf(found), cfg.outputType) + "\n"])
    case Json => Printed(Done(0, np), out + [cfg.emit(Get.NodeOf(found), cfg.outputType) + "\n"])
    case JsonCompact => Printed(Done(0, np), out + [cfg.emit(Get.NodeOf(found), cfg.outputType) + "\n"])
    case Yaml => Printed(Done(0, np), out + [cfg.emit(Get.NodeOf(found), cfg.outputType) + "\n"])
    case _ => Printed(Done(0, np), out)
  }

  /** get_mode's loop: run the first command at level 1, drop as many
      commands as the level it reports, repeat; the outcome carries the
      number of commands counted. */
  function ModeLoop(cfg: Config, found: Option<Handle>, cmds: seq<string>, np: string, count: nat, out: seq<string>): (r: Printed)
    ensures out <= r.out
    decreases |cmds|
  {
    if |cmds| == 0 then
      if count == 0 then Final(cfg, found, np, out) else Printed(Done(count, np), out)
    else
      var r := Process(cfg, found, np, cmds[0], cmds[1..], 1, out);
      if !r.s.Done? then r
      else
        var done := r.s.level;
        var drop := if done < |cmds| then done else |cmds|;
        ModeLoop(cfg, found, cmds[drop..], r.s.np, count + done, r.out)
  }

  /** get_mode(request): the node is selected as the current engine does
      with '.' as the separator. */
  function Mode(cfg: Config, root: Option<Node>, request: string, out: seq<string>): (r: Printed)
    ensures out <= r.out
  {
    var toks := SplitOn(request, '|');
    var sel := Get.Select(cfg.(inSep := '.'), root, toks[0]);
    ModeLoop(cfg, sel.0, toks[1..], sel.1, 0, out)
  }

  // ---------------------------------------------------------------------
  // The engine, printing to stdout

  method ProcessGetCommand(cfg: Config, obj: Option<Handle>, np: string, cmd: string, rest: seq<string>, level: nat,
                           s: Stdout) returns (st: Status)
    modifies s
    ensures Printed(st, s.out) == Process(cfg, obj, np, cmd, rest, level, old(s.out))
    decreases |rest|, 2, 0
  {
    if cmd == "length" {
      s.Printf(LengthLine(cfg, obj, np));
      st := Done(level, np);
    } else if cmd == "type" {
      s.Printf(TypeLine(cfg, obj, np));
      st := Done(level, np);
    } else if cmd == "keys" {
      PrintKeys(OptChildren(obj), s);
      st := Done(level, np);
    } else if cmd == "values" {
      var path := PrintValues(cfg, Get.IsArray(obj), OptChildren(obj), np, s);
      st := Done(level, path);
    } else if cmd == "each" {
      st := GetCmdEach(cfg, obj, np, rest, level, s);
    } else if Get.FirstChar(cmd) == '.' {
      st := GetCmdLookup(cfg, obj, np, cmd, rest, level, s);
    } else {
      st := Quit(1);
    }
  }

  /** The keys loop. */
  method PrintKeys(cs: seq<Handle>, s: Stdout)
    modifies s
    ensures s.out == old(s.out) + KeyLines(cs)
  {
    var i := 0;
    while i < |cs|
      invariant 0 <= i <= |cs|
      invariant s.out == old(s.out) + KeyLines(cs)[..i]
    {
      assert KeyLines(cs)[..i + 1] == KeyLines(cs)[..i] + [KeyLines(cs)[i]];
      s.Printf(PrintfStr(cs[i].key) + "\n");
      i := i + 1;
    }
    assert KeyLines(cs)[..i] == KeyLines(cs);
  }

  /** The values loop, shared by each without a further command. */
  method PrintValues(cfg: Config, isArray: bool, cs: seq<Handle>, np: string, s: Stdout) returns (path: string)
    modifies s
    ensures Shown(s.out, path) == ValuesOut(cfg, isArray, cs, 0, np, old(s.out))
  {
    path := np;
    var i, arrindex := 0, 0;
    while i < |cs|
      invariant 0 <= i <= |cs| && arrindex == i
      invariant ValuesOut(cfg, isArray, cs, i, path, s.out) == ValuesOut(cfg, isArray, cs, 0, np, old(s.out))
    {
      var newkey;
      if isArray {
        newkey := [cfg.outSep] + NatToString(arrindex);
      } else {
        newkey := [cfg.outSep] + PrintfStr(cs[i].key);
      }
      arrindex := arrindex + 1;
      assert newkey == ChildKey(cfg, isArray, cs[i], i);
      path := OutputKey(cfg, Some(cs[i].node), path, newkey, s);
      i := i + 1;
    }
  }

  method GetCmdEach(cfg: Config, obj: Option<Handle>, np: string, rest: seq<string>, level: nat, s: Stdout)
    returns (st: Status)
    modifies s
    ensures Printed(st, s.out) == CmdEach(cfg, obj, np, rest, level, old(s.out))
    decreases |rest|, 1, 0
  {
    if |rest| == 0 {
      var path := PrintValues(cfg, Get.IsArray(obj), OptChildren(obj), np, s);
      st := Done(level, path);
    } else if obj.Some? {
      st := RunOnChildren(cfg, Get.IsArray(obj), Children(obj.value), np, rest[0], rest[1..], level, s);
    } else {
      st := Done(level, np);
    }
  }

  /** each's loop with a further command. */
  method RunOnChildren(cfg: Config, isArray: bool, cs: seq<Handle>, np: string, cmd: string, rest: seq<string>,
                       level: nat, s: Stdout) returns (st: Status)
    modifies s
    ensures Printed(st, s.out) == EachRun(cfg, isArray, cs, 0, np, cmd, rest, level, Printed(Done(level, np), old(s.out)))
    decreases |rest| + 1, 0, 1
  {
    st := Done(level, np);
    var i := 0;
    while i < |cs| && st.Done?
      invariant 0 <= i <= |cs|
      invariant st.Done? ==> st.np == np
      invariant EachRun(cfg, isArray, cs, i, np, cmd, rest, level, Printed(st, s.out)) ==
        EachRun(cfg, isArray, cs, 0, np, cmd, rest, level, Printed(Done(level, np), old(s.out)))
    {
      EachRunStep(cfg, isArray, cs, i, np, cmd, rest, level, Printed(st, s.out));
      st := RunOnChild(cfg, isArray, cs[i], i, np, cmd, rest, level, s);
      i := i + 1;
    }
  }

  /** The body of each's loop for child `cur` at index `arrindex`. */
  method RunOnChild(cfg: Config, isArray: bool, cur: Handle, arrindex: nat, np: string, cmd: string,
                    rest: seq<string>, level: nat, s: Stdout) returns (st: Status)
    modifies s
    ensures var c := Process(cfg, Some(cur), np + ChildKey(cfg, isArray, cur, arrindex), cmd, rest, level + 1, old(s.out));
      Printed(st, s.out) == if c.s.Done? then Printed(Done(c.s.level, np), c.out) else c
    decreases |rest| + 1, 0, 0
  {
    var newnp;
    if isArray {
      newnp := np + [cfg.outSep] + NatToString(arrindex);
    } else {
      newnp := np + [cfg.outSep] + PrintfStr(cur.key);
    }
    assert newnp == np + ChildKey(cfg, isArray, cur, arrindex);
    st := ProcessGetCommand(cfg, Some(cur), newnp, cmd, rest, level + 1, s);
    if st.Done? {
      st := Done(st.level, np);
    }
  }

  method GetCmdLookup(cfg: Config, obj: Option<Handle>, np: string, cmd: string, rest: seq<string>, level: nat,
                      s: Stdout) returns (st: Status)
    modifies s
    ensures Printed(st, s.out) == CmdLookup(cfg, obj, np, cmd, rest, level, old(s.out))
    decreases |rest|, 1, 0
  {
    var cur := LookupPath(Get.NodeOf(obj), cmd, '.');
    if |rest| == 0 {
      var path := OutputKey(cfg, Get.NodeOf(cur), np, cmd, s);
      st := Done(level, path);
    } else if obj.None? {
      st := Segfault;
    } else {
      var newnp := np + [cfg.outSep] + (if obj.value.node.Array? then "0" else PrintfStr(Get.KeyOf(cur)));
      st := ProcessGetCommand(cfg, cur, newnp, rest[0], rest[1..], level + 1, s);
      if st.Done? {
        st := Done(st.level, np);
      }
    }
  }

  /** get_mode(request). */
  method GetMode(cfg: Config, root: Option<Node>, request: string, s: Stdout) returns (st: Status)
    modifies s
    ensures Printed(st, s.out) == Mode(cfg, root, request, old(s.out))
  {
    var toks := SplitOn(request, '|');
    var name := toks[0];
    var found: Option<Handle>;
    var nodepath: string;
    if |name| == 0 || name == "." {
      found, nodepath := Get.RootHandle(root), "";
    } else {
      if name[0] == '.' {
        name := name[1..];
      }
      found, nodepath := LookupPath(root, name, '.'), name;
    }
    assert (found, nodepath) == Get.Select(cfg.(inSep := '.'), root, toks[0]);
    st := RunCommands(cfg, found, toks[1..], nodepath, s);
  }

  /** get_mode's command loop and the output when no command ran. */
  method RunCommands(cfg: Config, found: Option<Handle>, cmds: seq<string>, np: string, s: Stdout) returns (st: Status)
    modifies s
    ensures Printed(st, s.out) == ModeLoop(cfg, found, cmds, np, 0, old(s.out))
  {
    var rest := cmds;
    var count: nat := 0;
    st := Done(0, np);
    while |rest| > 0 && st.Done?
      invariant st.Done? ==> ModeLoop(cfg, found, rest, st.np, count, s.out) == ModeLoop(cfg, found, cmds, np, 0, old(s.out))
      invariant !st.Done? ==> Printed(st, s.out) == ModeLoop(cfg, found, cmds, np, 0, old(s.out))
      decreases |rest|, if st.Done? then 1 else 0
    {
      st, rest, count := RunCommand(cfg, found, rest, st.np, count, s);
    }
    if st.Done? {
      if count == 0 {
        st := PrintFinal(cfg, found, st.np, s);
      } else {
        st := Done(count, st.np);
      }
    }
  }

  /** One pass of get_mode's loop: run the first command, then skip past
      the `done` commands it reports. */
  method RunCommand(cfg: Config, found: Option<Handle>, cmds: seq<string>, np: string, count: nat, s: Stdout)
    returns (st: Status, rest: seq<string>, count': nat)
    requires |cmds| > 0
    modifies s
    ensures |rest| <= |cmds|
    ensures st.Done? ==> |rest| < |cmds|
    ensures st.Done? ==> ModeLoop(cfg, found, rest, st.np, count', s.out) == ModeLoop(cfg, found, cmds, np, count, old(s.out))
    ensures !st.Done? ==> Printed(st, s.out) == ModeLoop(cfg, found, cmds, np, count, old(s.out))
  {
    st := ProcessGetCommand(cfg, found, np, cmds[0], cmds[1..], 1, s);
    rest, count' := cmds, count;
    if st.Done? {
      var drop := if st.level < |cmds| then st.level else |cmds|;
      rest := cmds[drop..];
      count' := count + st.level;
      assert ModeLoop(cfg, found, cmds, np, count, old(s.out)) == ModeLoop(cfg, found, rest, st.np, count', s.out);
    }
  }

  /** The switch on output_type when no command ran. */
  method PrintFinal(cfg: Config, found: Option<Handle>, np: string, s: Stdout) returns (st: Status)
    modifies s
    ensures Printed(st, s.out) == Final(cfg, found, np, old(s.out))
  {
    var path := np;
    match cfg.outputType {
      case Text =>
        path := OutputKey(cfg, Get.NodeOf(found), path, "", s);
      case Ucl =>
        s.Printf(cfg.emit(Get.NodeOf(found), cfg.outputType) + "\n");
      case Json =>
        s.Printf(cfg.emit(Get.NodeOf(found), cfg.outputType) + "\n");
      case JsonCompact =>
        s.Printf(cfg.emit(Get.NodeOf(found), cfg.outputType) + "\n");
      case Yaml =>
        s.Printf(cfg.emit(Get.NodeOf(found), cfg.outputType) + "\n");
      case _ =>
        // "Invalid output mode" goes to stderr
    }
    st := Done(0, path);
  }

  // ---------------------------------------------------------------------
  // The verbs of main

  /** What the set verb hands text to: ucl_object_fromstring_common with
      UCL_STRING_PARSE, a parser on the inline text and a parser on stdin
      (None for a parse error). */
  datatype Inputs = Inputs(fromString: string -> Node, parse: string -> Option<Node>, stdin: Option<Node>)

  /** Where set writes: the node the key's prefix names (the root when the
      key holds no '.'), the text after the last '.' (the whole key
      otherwise), and the node the key names, if any. */
  datatype Aim = Aim(dst: Loc, frag: string, sub: Option<Loc>)

  /** ucl_object_find_key on the node at `p`: only an object has keys. */
  function FindBelow(root: Node, p: Loc, k: string): (r: Option<Loc>)
    requires ValidLoc(root, p)
    ensures r.Some? ==> ValidLoc(root, r.value)
    ensures r.Some? <==> At(root, p).Object? && FindKey(At(root, p).entries, k).Some?
  {
    var n := At(root, p);
    if n.Object? then
      match FindKey(n.entries, k)
      case None => None
      case Some(j) =>
        LocAppend(root, p, Member(j));
        Some(p + [Member(j)])
    else None
  }

  /** The parent and target of a set: strrchr(key, '.') splits the key;
      under an array the target is what the whole key looks up, elsewhere
      the fragment's key in the parent. None when the prefix finds nothing. */
  function Target(root: Node, key: string): (r: Option<Aim>)
    ensures r.Some? ==> ValidLoc(root, r.value.dst)
    ensures r.Some? && r.value.sub.Some? ==> ValidLoc(root, r.value.sub.value)
    ensures '.' !in key ==> r.Some? && r.value.dst == [] && r.value.frag == key
  {
    match LastIndexOf(key, '.')
    case None => Some(Aim([], key, FindBelow(root, [], key)))
    case Some(i) =>
      match LookupLoc(root, key[..i], '.')
      case None => None
      case Some(p) =>
        var frag := key[i + 1..];
        Some(Aim(p, frag, if At(root, p).Array? then LookupLoc(root, key, '.') else FindBelow(root, p, frag)))
  }

  /** The new value: inline text is read as a scalar when the target (the
      parent when there is no target) is not an object or array, and
      parsed otherwise; without inline text it comes from stdin. */
  function SetValue(sub: Node, data: Option<string>, inp: Inputs): (r: Option<Node>)
    ensures data.None? ==> r == inp.stdin
    ensures data.Some? && !IsCompound(sub) ==> r == Some(inp.fromString(data.value))
    ensures data.Some? && IsCompound(sub) ==> r == inp.parse(data.value)
  {
    match data
    case Some(t) => if IsCompound(sub) then inp.parse(t) else Some(inp.fromString(t))
    case None => inp.stdin
  }

  /** ucl_array_delete(top, sub): the element goes when `sub` is one of the
      array's elements, and nothing happens otherwise. */
  function Without(top: Node, p: Loc, sub: Option<Loc>): (r: Node)
    requires top.Array?
    ensures r.Array?
    ensures forall i: nat :: sub == Some(p + [Index(i)]) && i < |top.elems| ==> r == ArrayDeleteAt(top, i)
    ensures (forall i: nat :: sub == Some(p + [Index(i)]) ==> i >= |top.elems|) ==> r == top
  {
    if sub.Some? && |sub.value| == |p| + 1 && sub.value[..|p|] == p && sub.value[|p|].Index?
       && sub.value[|p|].i < |top.elems|
    then
      assert sub.value == p + [Index(sub.value[|p|].i)];
      ArrayDeleteAt(top, sub.value[|p|].i)
    else top
  }

  /** The set verb up to its exit status (0 means the tree is printed):
      exit 1 when the prefix finds nothing or the value does not parse;
      under an array the target is deleted and the value appended, and the
      verb succeeds whatever happened; elsewhere ucl_object_replace_key
      decides. */
  function SetSpec(root: Node, key: string, data: Option<string>, inp: Inputs): (r: (Node, int))
    ensures r.1 == 0 || r.1 == 1
  {
    match Target(root, key)
    case None => (root, 1)
    case Some(a) =>
      var subNode := if a.sub.Some? then At(root, a.sub.value) else At(root, a.dst);
      match SetValue(subNode, data, inp)
      case None => (root, 1)
      case Some(v) =>
        var top := At(root, a.dst);
        if top.Array? then (ReplaceAt(root, a.dst, ArrayAppend(Without(top, a.dst, a.sub), Some(v)).node), 0)
        else
          var c := ReplaceKey(top, Some(a.frag), Some(v));
          (ReplaceAt(root, a.dst, c.node), if c.ok then 0 else 1)
  }

  /** The set verb on the document; on success the whole tree is printed
      with get_mode("."). */
  method Set(cfg: Config, d: Document, key: string, data: Option<string>, inp: Inputs, s: Stdout) returns (ret: int)
    modifies d, s
    ensures (d.root, ret) == SetSpec(old(d.root), key, data, inp)
    ensures s.out == if ret == 0 then Mode(cfg, Some(d.root), ".", old(s.out)).out else old(s.out)
  {
    var aim := Target(d.root, key);
    if aim.None? {
      return 1;
    }
    var a := aim.value;
    var sub := if a.sub.Some? then At(d.root, a.sub.value) else At(d.root, a.dst);
    var v := SetValue(sub, data, inp);
    if v.None? {
      return 1;
    }
    var top := At(d.root, a.dst);
    var success;
    if top.Array? {
      var trash := Without(top, a.dst, a.sub);
      var c := ArrayAppend(trash, v);
      d.Put(a.dst, c.node);
      success := true;
    } else {
      var c := ReplaceKey(top, Some(a.frag), v);
      d.Put(a.dst, c.node);
      success := c.ok;
    }
    if success {
      var st := GetMode(cfg, Some(d.root), ".", s);
      ret := 0;
    } else {
      ret := 1;
    }
  }

  /** The merge verb is refused with status 99 before anything is read or
      printed. */
  method Merge(d: Document, s: Stdout) returns (ret: int)
    ensures ret == 99
  {
    ret := 99;
  }

  /** The remove verb as written: ucl_object_delete_key on the root with
      the whole argument as one key, its flag becoming the exit status. */
  function RemoveAsWritten(root: Node, key: string): (r: (Node, int))
    ensures r.1 == 1 <==> root.Object? && FindKey(root.entries, key).Some?
    ensures r.1 == 0 || r.1 == 1
  {
    var c := DeleteKey(root, key);
    (c.node, if c.ok then 1 else 0)
  }

  /** The remove verb with the exit status the tool's convention asks for:
      0 when the key was removed. */
  function RemoveCorrected(root: Node, key: string): (r: (Node, int))
    ensures r.1 == 0 <==> root.Object? && FindKey(root.entries, key).Some?
    ensures r.1 == 0 || r.1 == 1
  {
    var c := DeleteKey(root, key);
    (c.node, if c.ok then 0 else 1)
  }

  /** The remove verb on the document: delete, then print the whole tree. */
  method Remove(cfg: Config, d: Document, key: string, s: Stdout) returns (ret: int)
    modifies d, s
    ensures (d.root, ret) == RemoveCorrected(old(d.root), key)
    ensures s.out == Mode(cfg, Some(d.root), ".", old(s.out)).out
  {
    var c := DeleteKey(d.root, key);
    d.root := c.node;
    ret := if c.ok then 0 else 1;
    var st := GetMode(cfg, Some(d.root), ".", s);
  }

  // ---------------------------------------------------------------------
  // Properties of the get engine

  /** Without a further command, each prints exactly what values prints. */
  lemma EachAloneIsValues(cfg: Config, obj: Option<Handle>, np: string, level: nat, out: seq<string>)
    ensures Process(cfg, obj, np, "each", [], level, out) == Process(cfg, obj, np, "values", [], level, out)
  {
  }

  /** The values loop rewrites the caller's nodepath buffer as soon as it
      prints one child, and later calls leave it as it is. */
  lemma {:induction false} ValuesRewritesNodepath(cfg: Config, isArray: bool, cs: seq<Handle>, i: nat, np: string,
                                                   out: seq<string>)
    requires i <= |cs|
    ensures ValuesOut(cfg, isArray, cs, i, np, out).np == if i < |cs| then Replaced(np, '.', cfg.outSep) else np
    decreases |cs| - i
  {
    if i < |cs| {
      var sh := ShowKey(cfg, Some(cs[i].node), np, ChildKey(cfg, isArray, cs[i], i), out);
      ValuesRewritesNodepath(cfg, isArray, cs, i + 1, sh.np, sh.out);
      ReplacedIdempotent(np, '.', cfg.outSep);
    }
  }

  /** So in the request `node|values|length` on a node with children, the
      length line is labelled with the rewritten nodepath. */
  lemma LengthAfterValuesSeesRewrittenPath(cfg: Config, found: Option<Handle>, np: string, out: seq<string>)
    requires |OptChildren(found)| > 0
    ensures var r := ModeLoop(cfg, found, ["values", "length"], np, 0, out);
      |r.out| > 0 && r.out[|r.out| - 1] == LengthLine(cfg, found, Replaced(np, '.', cfg.outSep))
  {
    var cmds := ["values", "length"];
    var v := Process(cfg, found, np, "values", cmds[1..], 1, out);
    ValuesRewritesNodepath(cfg, Get.IsArray(found), OptChildren(found), 0, np, out);
    assert v.s == Done(1, Replaced(np, '.', cfg.outSep));
    assert cmds[1..] == ["length"] && ["length"][1..] == [];
  }

  /** The label length and type print is output_key's label with sepchar
      and the node's own key as the key, on the nodepath as it is. */
  lemma KeyedLabelIsLabel(cfg: Config, h: Handle, np: string)
    ensures KeyedLabel(cfg, h, np) == Label(cfg, np, [cfg.outSep] + PrintfStr(h.key))
  {
    if cfg.showKeys {
      assert np + [cfg.outSep] + PrintfStr(h.key) + "=" == np + ([cfg.outSep] + PrintfStr(h.key)) + "=";
    }
  }

  /** length prints one line: the count of what iterating the node
      yields (GetText.LengthCount: children, or a string's characters), 0
      for an absent node, after "(null)=" or `nodepath sepchar key =` when
      keys are shown; the nodepath is handed back as it came. */
  lemma LengthPrintsCount(cfg: Config, obj: Option<Handle>, np: string, rest: seq<string>, level: nat, out: seq<string>)
    ensures Process(cfg, obj, np, "length", rest, level, out) ==
      Printed(Done(level, np), out + [(if obj.None? then (if cfg.showKeys then "(null)=" else "") else KeyedLabel(cfg, obj.value, np))
                                      + NatToString(GetText.LengthCount(obj)) + "\n"])
  {
    if obj.Some? {
      LenCountsChildren(obj.value);
    } else {
      var lab := if cfg.showKeys then "(null)=" else "";
      assert NatToString(0) == "0";
      assert lab + "0\n" == lab + "0" + "\n";
    }
  }

  /** type prints one line: the same word as the current engine
      (GetText.TypeText), "null" for an absent node, after "(null)=" or
      `nodepath sepchar key =` when keys are shown. */
  lemma TypePrintsWord(cfg: Config, obj: Option<Handle>, np: string, rest: seq<string>, level: nat, out: seq<string>)
    ensures Process(cfg, obj, np, "type", rest, level, out) ==
      Printed(Done(level, np), out + [(if obj.None? then (if cfg.showKeys then "(null)=" else "") else KeyedLabel(cfg, obj.value, np))
                                      + GetText.TypeText(obj) + "\n"])
  {
    if obj.None? {
      var lab := if cfg.showKeys then "(null)=" else "";
      assert lab + "null\n" == lab + "null" + "\n";
    }
  }

  /** This output_key prints the same text as the current one, with '.' as
      the input separator, no leading space and always a newline; only a
      null value prints nothing. */
  lemma ShowKeyText(cfg: Config, n: Option<Node>, np: string, inkey: string, out: seq<string>)
    ensures n != Some(Null) ==>
      ShowKey(cfg, n, np, inkey, out).out ==
        out + [GetText.KeyText(cfg, n, Replaced(np, '.', cfg.outSep), Replaced(inkey, '.', cfg.outSep)) + "\n"]
    ensures n == Some(Null) ==> ShowKey(cfg, n, np, inkey, out).out == out
  {
    var lab := Label(cfg, Replaced(np, '.', cfg.outSep), Replaced(inkey, '.', cfg.outSep));
    if n.None? {
      assert lab + "null\n" == lab + "null" + "\n";
    }
  }

  /** The line values prints for child `k`, on the rewritten nodepath `p`. */
  function ValueLine(cfg: Config, isArray: bool, cs: seq<Handle>, k: nat, p: string): string
    requires k < |cs|
  {
    GetText.KeyText(cfg, Some(cs[k].node), p, Replaced(ChildKey(cfg, isArray, cs[k], k), '.', cfg.outSep)) + "\n"
  }

  /** For every child, the line values prints for it, or none for a null
      value. */
  function LineOpts(cfg: Config, isArray: bool, cs: seq<Handle>, p: string): (r: seq<Option<string>>)
    ensures |r| == |cs|
  {
    seq(|cs|, k requires 0 <= k < |cs| => if cs[k].node.Null? then None else Some(ValueLine(cfg, isArray, cs, k, p)))
  }

  /** The lines that are there, in order. */
  function Kept(xs: seq<Option<string>>): (r: seq<string>)
    ensures |r| <= |xs|
  {
    if |xs| == 0 then [] else (if xs[0].None? then [] else [xs[0].value]) + Kept(xs[1..])
  }

  /** With no line missing, Kept keeps them all, each in its place. */
  lemma {:induction false} KeptAll(xs: seq<Option<string>>, k: nat)
    requires forall m :: 0 <= m < |xs| ==> xs[m].Some?
    requires k < |xs|
    ensures |Kept(xs)| == |xs| && Kept(xs)[k] == xs[k].value
    decreases k
  {
    KeptCount(xs[1..]);
    if k > 0 {
      KeptAll(xs[1..], k - 1);
    }
  }

  lemma {:induction false} KeptCount(xs: seq<Option<string>>)
    requires forall m :: 0 <= m < |xs| ==> xs[m].Some?
    ensures |Kept(xs)| == |xs|
    decreases |xs|
  {
    if |xs| > 0 {
      KeptCount(xs[1..]);
    }
  }

  /** The lines of the values loop from child `i` on: one per child that
      is not a null value, in order. */
  function ValueLines(cfg: Config, isArray: bool, cs: seq<Handle>, i: nat, p: string): (r: seq<string>)
    requires i <= |cs|
    ensures |r| <= |cs| - i
  {
    Kept(LineOpts(cfg, isArray, cs, p)[i..])
  }

  lemma ValueLinesStep(cfg: Config, isArray: bool, cs: seq<Handle>, i: nat, p: string)
    requires i < |cs|
    ensures ValueLines(cfg, isArray, cs, i, p) ==
      (if cs[i].node.Null? then [] else [ValueLine(cfg, isArray, cs, i, p)]) + ValueLines(cfg, isArray, cs, i + 1, p)
  {
    var xs := LineOpts(cfg, isArray, cs, p);
    assert xs[i..][0] == xs[i] && xs[i..][1..] == xs[i + 1..];
  }

  /** The values loop prints ValueLines on the nodepath rewritten once:
      each child's value under sepchar and its index or key, null values
      skipped. */
  lemma {:induction false} ValuesOutLines(cfg: Config, isArray: bool, cs: seq<Handle>, i: nat, np: string, out: seq<string>)
    requires i <= |cs|
    ensures ValuesOut(cfg, isArray, cs, i, np, out).out == out + ValueLines(cfg, isArray, cs, i, Replaced(np, '.', cfg.outSep))
    decreases |cs| - i
  {
    var p := Replaced(np, '.', cfg.outSep);
    if i < |cs| {
      var np2, out2 := ValueLineShown(cfg, isArray, cs, i, np, out);
      ValuesOutLines(cfg, isArray, cs, i + 1, np2, out2);
      ValueLinesStep(cfg, isArray, cs, i, p);
    } else {
      assert LineOpts(cfg, isArray, cs, p)[i..] == [];
    }
  }

  /** One pass of the values loop prints child `i`'s line, unless it is
      null, and leaves a nodepath that a second rewrite does not change. */
  lemma ValueLineShown(cfg: Config, isArray: bool, cs: seq<Handle>, i: nat, np: string, out: seq<string>)
    returns (np2: string, out2: seq<string>)
    requires i < |cs|
    ensures ValuesOut(cfg, isArray, cs, i, np, out) == ValuesOut(cfg, isArray, cs, i + 1, np2, out2)
    ensures out2 == out + (if cs[i].node.Null? then [] else [ValueLine(cfg, isArray, cs, i, Replaced(np, '.', cfg.outSep))])
    ensures Replaced(np2, '.', cfg.outSep) == Replaced(np, '.', cfg.outSep)
  {
    var sh := ShowKey(cfg, Some(cs[i].node), np, ChildKey(cfg, isArray, cs[i], i), out);
    ShowKeyText(cfg, Some(cs[i].node), np, ChildKey(cfg, isArray, cs[i], i), out);
    ReplacedIdempotent(np, '.', cfg.outSep);
    np2, out2 := sh.np, sh.out;
  }

  /** values prints ValueLines for the node's children and hands back the
      nodepath rewritten once when there is a child. */
  lemma ValuesPrintsLines(cfg: Config, obj: Option<Handle>, np: string, rest: seq<string>, level: nat, out: seq<string>)
    ensures var cs := OptChildren(obj);
      Process(cfg, obj, np, "values", rest, level, out) ==
        Printed(Done(level, if |cs| > 0 then Replaced(np, '.', cfg.outSep) else np),
                out + ValueLines(cfg, Get.IsArray(obj), cs, 0, Replaced(np, '.', cfg.outSep)))
  {
    ValuesOutLines(cfg, Get.IsArray(obj), OptChildren(obj), 0, np, out);
    ValuesRewritesNodepath(cfg, Get.IsArray(obj), OptChildren(obj), 0, np, out);
  }

  /** With no null value among the children, values prints exactly one
      line per child, and line `k` is child `k`'s. */
  lemma ValueLinesAt(cfg: Config, isArray: bool, cs: seq<Handle>, p: string, k: nat)
    requires k < |cs|
    requires forall m :: 0 <= m < |cs| ==> !cs[m].node.Null?
    ensures |ValueLines(cfg, isArray, cs, 0, p)| == |cs|
    ensures ValueLines(cfg, isArray, cs, 0, p)[k] == ValueLine(cfg, isArray, cs, k, p)
  {
    var xs := LineOpts(cfg, isArray, cs, p);
    assert xs[0..] == xs;
    assert forall m :: 0 <= m < |xs| ==> xs[m].Some?;
    KeptAll(xs, k);
  }

  /** each runs a command that reports its own level (length, type, keys,
      values) on every child at one level deeper; it reports that level
      when there is a child, and the level it was given otherwise. */
  lemma {:induction false} EachRunOfSimple(cfg: Config, isArray: bool, cs: seq<Handle>, i: nat, np: string, cmd: string,
                                           rest: seq<string>, level: nat, acc: Printed)
    requires i <= |cs| && acc.s.Done? && acc.s.np == np
    requires cmd == "length" || cmd == "type" || cmd == "keys" || cmd == "values"
    ensures EachRun(cfg, isArray, cs, i, np, cmd, rest, level, acc).s == if i < |cs| then Done(level + 1, np) else acc.s
    decreases |cs| - i
  {
    if i < |cs| {
      var c := Process(cfg, Some(cs[i]), np + ChildKey(cfg, isArray, cs[i], i), cmd, rest, level + 1, acc.out);
      assert c.s.Done? && c.s.level == level + 1;
      EachRunOfSimple(cfg, isArray, cs, i + 1, np, cmd, rest, level, Printed(Done(level + 1, np), c.out));
    }
  }

  /** Hence each with such a command after it, on a node with children,
      reports one level more than it was given. */
  lemma EachReportsNextLevel(cfg: Config, obj: Option<Handle>, np: string, cmd: string, more: seq<string>,
                             level: nat, out: seq<string>)
    requires obj.Some? && |Children(obj.value)| > 0
    requires cmd == "length" || cmd == "type" || cmd == "keys" || cmd == "values"
    ensures Process(cfg, obj, np, "each", [cmd] + more, level, out).s == Done(level + 1, np)
  {
    assert ([cmd] + more)[0] == cmd && ([cmd] + more)[1..] == more;
    EachRunOfSimple(cfg, Get.IsArray(obj), Children(obj.value), 0, np, cmd, more, level, Printed(Done(level, np), out));
  }

  /** So get_mode drops both `each` and the command after it, and counts
      two, when the node has children. */
  lemma EachConsumesNextCommand(cfg: Config, found: Option<Handle>, cmd: string, more: seq<string>, np: string,
                                count: nat, out: seq<string>)
    requires found.Some? && |Children(found.value)| > 0
    requires cmd == "length" || cmd == "type" || cmd == "keys" || cmd == "values"
    ensures ModeLoop(cfg, found, ["each", cmd] + more, np, count, out) ==
      ModeLoop(cfg, found, more, np, count + 2, Process(cfg, found, np, "each", [cmd] + more, 1, out).out)
  {
    var cmds := ["each", cmd] + more;
    assert cmds[0] == "each" && cmds[1..] == [cmd] + more && cmds[2..] == more;
    EachReportsNextLevel(cfg, found, np, cmd, more, 1, out);
  }

  /** On a node without children, each reports the level it was given, so
      get_mode drops only `each` and runs the next command on the node
      itself. */
  lemma EachOnChildlessNodeRunsNextOnNode(cfg: Config, found: Option<Handle>, cmds: seq<string>, np: string,
                                          count: nat, out: seq<string>)
    requires |cmds| > 0 && OptChildren(found) == []
    ensures ModeLoop(cfg, found, ["each"] + cmds, np, count, out) == ModeLoop(cfg, found, cmds, np, count + 1, out)
  {
    assert (["each"] + cmds)[0] == "each" && (["each"] + cmds)[1..] == cmds;
    var acc := Printed(Done(1, np), out);
    if found.Some? {
      assert EachRun(cfg, Get.IsArray(found), Children(found.value), 0, np, cmds[0], cmds[1..], 1, acc) == acc;
    }
    assert Process(cfg, found, np, "each", cmds, 1, out) == acc;
  }

  /** A lookup command followed by another command, on a node that was not
      found, crashes. */
  lemma LookupBelowMissingNodeCrashes(cfg: Config, np: string, cmd: string, rest: seq<string>, level: nat,
                                      out: seq<string>)
    requires |cmd| > 0 && cmd[0] == '.' && |rest| > 0
    ensures Process(cfg, None, np, cmd, rest, level, out) == Printed(Segfault, out)
  {
  }

  /** Any other command ends the process with status 1 before it prints. */
  lemma UnknownCommandExits(cfg: Config, obj: Option<Handle>, np: string, cmd: string, rest: seq<string>,
                            level: nat, out: seq<string>)
    requires cmd !in {"length", "type", "keys", "values", "each"} && (|cmd| == 0 || cmd[0] != '.')
    ensures Process(cfg, obj, np, cmd, rest, level, out) == Printed(Quit(1), out)
  {
  }

  /** A request without commands prints the selected node once, in text
      mode with output_key (nothing at all for a null value). */
  lemma BareRequestPrintsNode(cfg: Config, root: Option<Node>, request: string, out: seq<string>)
    requires '|' !in request && cfg.outputType.Text?
    ensures var sel := Get.Select(cfg.(inSep := '.'), root, request);
      Mode(cfg, root, request, out).out == ShowKey(cfg, Get.NodeOf(sel.0), sel.1, "", out).out
  {
    SplitOnSingle(request, '|');
  }

  // ---------------------------------------------------------------------
  // Properties of the verbs

  /** A set below an array deletes the element the key names and appends
      the new value at the end: the element moves to the end. */
  lemma SetInArrayMovesElementToEnd(root: Node, key: string, j: nat, p: Loc, i: nat, data: Option<string>,
                                    inp: Inputs, v: Node)
    requires LastIndexOf(key, '.') == Some(j)
    requires LookupLoc(root, key[..j], '.') == Some(p) && At(root, p).Array?
    requires LookupLoc(root, key, '.') == Some(p + [Index(i)])
    requires SetValue(At(root, p + [Index(i)]), data, inp) == Some(v)
    ensures var xs := At(root, p).elems;
      i < |xs| && SetSpec(root, key, data, inp) == (ReplaceAt(root, p, Array(xs[..i] + xs[i + 1..] + [v])), 0)
  {
    LocAppend(root, p, Index(i));
    var top := At(root, p);
    assert Without(top, p, Some(p + [Index(i)])) == ArrayDeleteAt(top, i);
  }

  /** A set below an array whose key names no element appends the value. */
  lemma SetInArrayAppendsWhenMissing(root: Node, key: string, j: nat, p: Loc, data: Option<string>, inp: Inputs,
                                     v: Node)
    requires LastIndexOf(key, '.') == Some(j)
    requires LookupLoc(root, key[..j], '.') == Some(p) && At(root, p).Array?
    requires LookupLoc(root, key, '.') == None
    requires SetValue(At(root, p), data, inp) == Some(v)
    ensures SetSpec(root, key, data, inp) == (ReplaceAt(root, p, Array(At(root, p).elems + [v])), 0)
  {
  }

  /** A set whose prefix finds nothing fails and changes nothing. */
  lemma SetWithMissingParentFails(root: Node, key: string, j: nat, data: Option<string>, inp: Inputs)
    requires LastIndexOf(key, '.') == Some(j) && LookupLoc(root, key[..j], '.') == None
    ensures SetSpec(root, key, data, inp) == (root, 1)
  {
  }

  /** In an object, a key already there gets the new value in place of its
      whole chain, and the verb succeeds; every other key keeps its
      values. */
  lemma SetReplacesExistingKey(root: Node, key: string, a: Aim, data: Option<string>, inp: Inputs, v: Node)
    requires Target(root, key) == Some(a)
    requires At(root, a.dst).Object? && FindKey(At(root, a.dst).entries, a.frag).Some?
    requires SetValue(At(root, a.sub.value), data, inp) == Some(v)
    ensures var r := SetSpec(root, key, data, inp);
      r.1 == 0 && ValidLoc(r.0, a.dst) && At(r.0, a.dst).Object? &&
      Values(At(r.0, a.dst).entries, a.frag) == [v] &&
      forall k :: k != a.frag ==> Values(At(r.0, a.dst).entries, k) == Values(At(root, a.dst).entries, k)
  {
    var c := ReplaceKey(At(root, a.dst), Some(a.frag), Some(v));
    AtReplaceAt(root, a.dst, c.node);
  }

  /** In an object (or null), a key that is not there yet is inserted, but
      ucl_object_replace_key reports false and the verb fails with status
      1, printing nothing. */
  lemma SetNewKeyReportsFailure(root: Node, key: string, a: Aim, data: Option<string>, inp: Inputs, v: Node)
    requires Target(root, key) == Some(a)
    requires ObjectView(At(root, a.dst)).Some? && FindKey(ObjectView(At(root, a.dst)).value, a.frag).None?
    requires SetValue(At(root, a.dst), data, inp) == Some(v)
    ensures var r := SetSpec(root, key, data, inp);
      r.1 == 1 && ValidLoc(r.0, a.dst) && At(r.0, a.dst).Object? && Values(At(r.0, a.dst).entries, a.frag) == [v]
  {
    var top := At(root, a.dst);
    assert a.sub.None? by {
      if top.Object? {
        assert FindBelow(root, a.dst, a.frag).None?;
      }
    }
    var c := ReplaceKey(top, Some(a.frag), Some(v));
    AtReplaceAt(root, a.dst, c.node);
  }

  /** The remove verb as written exits with status 1 exactly when it
      removed the key (the flag of ucl_object_delete_key), while the
      corrected verb exits with 0 then; both leave the same tree. */
  lemma RemoveStatusInverted(root: Node, key: string)
    requires root.Object? && FindKey(root.entries, key).Some?
    ensures RemoveAsWritten(root, key).1 == 1
    ensures RemoveCorrected(root, key).1 == 0
    ensures RemoveCorrected(root, key).0 == RemoveAsWritten(root, key).0
    ensures UniqueKeys(root.entries) ==> Values(RemoveCorrected(root, key).0.entries, key) == []
  {
  }
}
