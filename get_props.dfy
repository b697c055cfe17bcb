/** What the get engine promises, stated over the specification functions
    of Get: one output record per key, value or chunk; the exit on an
    unknown command; how the pipeline is consumed by simple commands and
    by `each`; and the requests that select the root. */
module GetProps {
  import opened Libc
  import opened Tree
  import opened Output
  import opened Get

  /** Commands that print at once and hand back the depth and nodepath they
      were given. */
  predicate Simple(cmd: string)
  {
    cmd == "length" || cmd == "type" || cmd == "keys" || cmd == "dump"
  }

  /** The space written in front of the `n`th record of a loop that starts
      in state `st`: only the first record can go without one, and after a
      record in nonewline mode every record gets one. */
  function NthLead(cfg: Config, st: St, n: nat): string
  {
    if n == 0 || !cfg.nonewline then Lead(st) else " "
  }

  // ---------------------------------------------------------------------
  // process_get_command

  lemma SimpleCommandKeepsDepth(cfg: Config, obj: Option<Handle>, np: string, cmd: string, rest: seq<string>,
                                depth: nat, st: St)
    requires Simple(cmd)
    ensures Process(cfg, obj, np, cmd, rest, depth, st).o == Ran(depth, np)
  {
  }

  /** Anything that is not a command and does not start with the input
      separator ends the process with status 1, after printing nothing. */
  lemma InvalidCommandExits(cfg: Config, obj: Option<Handle>, np: string, cmd: string, rest: seq<string>,
                            depth: nat, st: St)
    requires cmd !in {"length", "dump", "type", "keys", "values", "iterate", "recurse", "each"}
    requires FirstChar(cmd) != cfg.inSep
    ensures Process(cfg, obj, np, cmd, rest, depth, st) == Res(Exited(1), st)
  {
  }

  // ---------------------------------------------------------------------
  // keys, values, iterate

  lemma {:induction false} KeysOutRecords(cfg: Config, cs: seq<Handle>, i: nat, st: St)
    requires i <= |cs|
    ensures |KeysOut(cfg, cs, i, st).out| == |st.out| + |cs| - i
    ensures forall k :: i <= k < |cs| ==>
      KeysOut(cfg, cs, i, st).out[|st.out| + k - i] == NthLead(cfg, st, k - i) + PrintfStr(cs[k].key) + Ending(cfg)
    decreases |cs| - i
  {
    if i < |cs| {
      var st' := Emit(st, cfg, Lead(st) + PrintfStr(cs[i].key) + Ending(cfg));
      KeysOutRecords(cfg, cs, i + 1, st');
      var r := KeysOut(cfg, cs, i, st);
      assert r == KeysOut(cfg, cs, i + 1, st');
      assert r.out[|st.out|] == st'.out[|st.out|];
      forall k | i + 1 <= k < |cs|
        ensures r.out[|st.out| + k - i] == NthLead(cfg, st, k - i) + PrintfStr(cs[k].key) + Ending(cfg)
      {
        assert NthLead(cfg, st', k - (i + 1)) == NthLead(cfg, st, k - i);
      }
    }
  }

  /** The keys loop from the start, with `names` what printf makes of each
      child's key. */
  lemma KeysOutNamed(cfg: Config, cs: seq<Handle>, st: St, names: seq<string>)
    requires |names| == |cs|
    requires forall k :: 0 <= k < |cs| ==> PrintfStr(cs[k].key) == names[k]
    ensures |KeysOut(cfg, cs, 0, st).out| == |st.out| + |cs|
    ensures forall k :: 0 <= k < |cs| ==>
      KeysOut(cfg, cs, 0, st).out[|st.out| + k] == NthLead(cfg, st, k) + names[k] + Ending(cfg)
  {
    KeysOutRecords(cfg, cs, 0, st);
  }

  /** `keys` on an object prints its keys in order, one record each. */
  lemma KeysListsEntries(cfg: Config, h: Handle, np: string, depth: nat, st: St)
    requires h.node.Object?
    ensures |CmdKeys(cfg, Some(h), np, depth, st).st.out| == |st.out| + |h.node.entries|
    ensures forall k :: 0 <= k < |h.node.entries| ==>
      CmdKeys(cfg, Some(h), np, depth, st).st.out[|st.out| + k] == NthLead(cfg, st, k) + h.node.entries[k].key + Ending(cfg)
  {
    var cs := Children(h);
    var names := seq(|h.node.entries|, k requires 0 <= k < |h.node.entries| => h.node.entries[k].key);
    KeysOutNamed(cfg, cs, st, names);
    assert CmdKeys(cfg, Some(h), np, depth, st).st == KeysOut(cfg, cs, 0, st);
  }

  /** `keys` on an array prints printf's "(null)" for every element, the
      elements having no key. */
  lemma KeysOfArrayArePlaceholders(cfg: Config, h: Handle, np: string, depth: nat, st: St)
    requires h.node.Array?
    ensures |CmdKeys(cfg, Some(h), np, depth, st).st.out| == |st.out| + |h.node.elems|
    ensures forall k :: 0 <= k < |h.node.elems| ==>
      CmdKeys(cfg, Some(h), np, depth, st).st.out[|st.out| + k] == NthLead(cfg, st, k) + "(null)" + Ending(cfg)
  {
    var cs := Children(h);
    var names := seq(|h.node.elems|, k requires 0 <= k < |h.node.elems| => "(null)");
    KeysOutNamed(cfg, cs, st, names);
    assert CmdKeys(cfg, Some(h), np, depth, st).st == KeysOut(cfg, cs, 0, st);
  }

  lemma {:induction false} ValuesOutCount(cfg: Config, isArray: bool, cs: seq<Handle>, i: nat, np: string, st: St)
    requires i <= |cs|
    ensures |ValuesOut(cfg, isArray, cs, i, np, st).st.out| == |st.out| + |cs| - i
    decreases |cs| - i
  {
    if i < |cs| {
      var rr := OutputKey(cfg, Some(cs[i].node), np, ValueKey(cfg, isArray, cs[i], i), st);
      ValuesOutCount(cfg, isArray, cs, i + 1, rr.np, rr.st);
    }
  }

  /** `values` prints one record per child of the node, none for NULL. */
  lemma ValuesOneRecordPerChild(cfg: Config, obj: Option<Handle>, np: string, depth: nat, st: St)
    ensures |CmdValues(cfg, obj, np, depth, st).st.out| == |st.out| + |OptChildren(obj)|
  {
    ValuesOutCount(cfg, IsArray(obj), OptChildren(obj), 0, np, st);
  }

  lemma {:induction false} ChunksOutCount(cfg: Config, hs: seq<Handle>, j: nat, np: string, key: string, st: St)
    requires j <= |hs|
    ensures |ChunksOut(cfg, hs, j, np, key, st).st.out| == |st.out| + (if cfg.outputType.Invalid? then 0 else |hs| - j)
    decreases |hs| - j
  {
    if j < |hs| {
      var rr := OutputChunk(cfg, Some(hs[j].node), np, key, st);
      ChunksOutCount(cfg, hs, j + 1, rr.np, key, rr.st);
    }
  }

  /** `iterate` as the last command prints one chunk per value of the
      node's own chain (an implicit array), unless the output type is
      unknown. */
  lemma IterateOneChunkPerValue(cfg: Config, h: Handle, np: string, depth: nat, st: St)
    ensures |CmdIterate(cfg, Some(h), np, [], depth, st).st.out| ==
      |st.out| + (if cfg.outputType.Invalid? then 0 else 1 + |h.next|)
  {
    ChunksOutCount(cfg, ChainOf(h), 0, np, "", st);
  }

  // ---------------------------------------------------------------------
  // each

  lemma {:induction false} RunChainSimple(cfg: Config, hs: seq<Handle>, j: nat, cmd: string, rest: seq<string>,
                                          depth: nat, acc: Res)
    requires j <= |hs| && Simple(cmd) && acc.o.Ran?
    ensures RunChain(cfg, hs, j, cmd, rest, depth, acc).o == Ran(if j < |hs| then depth else acc.o.depth, acc.o.np)
    decreases |hs| - j
  {
    if j < |hs| {
      var r := Process(cfg, Some(hs[j]), acc.o.np, cmd, rest, depth, acc.st);
      SimpleCommandKeepsDepth(cfg, Some(hs[j]), acc.o.np, cmd, rest, depth, acc.st);
      RunChainSimple(cfg, hs, j + 1, cmd, rest, depth, r);
    }
  }

  lemma {:induction false} EachRunSimple(cfg: Config, isArray: bool, cs: seq<Handle>, i: nat, np: string, cmd: string,
                                         rest: seq<string>, depth: nat, acc: Res)
    requires i <= |cs| && Simple(cmd) && acc.o.Ran? && acc.o.np == np
    ensures EachRun(cfg, isArray, cs, i, np, cmd, rest, depth, acc).o == Ran(if i < |cs| then depth else acc.o.depth, np)
    decreases |cs| - i
  {
    if i < |cs| {
      var next := EachChild(cfg, isArray, cs[i], i, np, cmd, rest, depth, acc);
      EachChildSimple(cfg, isArray, cs[i], i, np, cmd, rest, depth, acc);
      EachRunStep(cfg, isArray, cs, i, np, cmd, rest, depth, acc);
      EachRunSimple(cfg, isArray, cs, i + 1, np, cmd, rest, depth, next);
    }
  }

  /** One child of `each` with a simple command after it reports `depth`
      and keeps the nodepath. */
  lemma EachChildSimple(cfg: Config, isArray: bool, c: Handle, i: nat, np: string, cmd: string,
                        rest: seq<string>, depth: nat, acc: Res)
    requires Simple(cmd) && acc.o.Ran? && acc.o.np == np
    ensures EachChild(cfg, isArray, c, i, np, cmd, rest, depth, acc).o == Ran(depth, np)
  {
    RunChainSimple(cfg, Expanded(c), 0, cmd, rest, depth, Res(Ran(acc.o.depth, np + EachKey(cfg, isArray, c, i)), acc.st));
  }

  /** `each` followed by a simple command runs it on the children and
      reports one level more, so the caller drops both commands. */
  lemma EachAppliesNext(cfg: Config, obj: Option<Handle>, np: string, rest: seq<string>, depth: nat, st: St)
    requires |rest| > 0 && Simple(rest[0]) && |OptChildren(obj)| > 0
    ensures CmdEach(cfg, obj, np, rest, depth, st).o == Ran(depth + 1, np)
  {
    EachRunSimple(cfg, IsArray(obj), Children(obj.value), 0, np, rest[0], rest[1..], depth + 1, Res(Ran(depth, np), st));
  }

  /** `each` on a node without children prints nothing and reports its own
      depth, so the caller drops only `each`. */
  lemma EachWithoutChildren(cfg: Config, obj: Option<Handle>, np: string, rest: seq<string>, depth: nat, st: St)
    requires |rest| > 0 && |OptChildren(obj)| == 0
    ensures CmdEach(cfg, obj, np, rest, depth, st) == Res(Ran(depth, np), st)
  {
  }

  // ---------------------------------------------------------------------
  // get_mode

  /** A pipeline of simple commands runs each of them once on the selected
      node and counts them all. */
  lemma {:induction false} SimplePipeline(cfg: Config, found: Option<Handle>, cmds: seq<string>, np: string,
                                          count: nat, st: St)
    requires forall k :: 0 <= k < |cmds| ==> Simple(cmds[k])
    requires count + |cmds| > 0
    ensures ModeLoop(cfg, found, cmds, np, count, st).o == Ran(count + |cmds|, np)
    decreases |cmds|
  {
    if |cmds| > 0 {
      var st' := SimpleStep(cfg, found, cmds, np, count, st);
      SimpleTail(cmds);
      SimplePipeline(cfg, found, cmds[1..], np, count + 1, st');
    }
  }

  lemma SimpleTail(cmds: seq<string>)
    requires |cmds| > 0 && forall k :: 0 <= k < |cmds| ==> Simple(cmds[k])
    ensures forall k :: 0 <= k < |cmds[1..]| ==> Simple(cmds[1..][k])
  {
    forall k | 0 <= k < |cmds[1..]| ensures Simple(cmds[1..][k]) { assert cmds[1..][k] == cmds[k + 1]; }
  }

  /** One simple command of the pipeline: it is dropped alone and counted
      once. */
  lemma SimpleStep(cfg: Config, found: Option<Handle>, cmds: seq<string>, np: string, count: nat, st: St) returns (st': St)
    requires |cmds| > 0 && Simple(cmds[0])
    ensures ModeLoop(cfg, found, cmds, np, count, st) == ModeLoop(cfg, found, cmds[1..], np, count + 1, st')
  {
    SimpleCommandKeepsDepth(cfg, found, np, cmds[0], cmds[1..], 1, st);
    st' := Process(cfg, found, np, cmds[0], cmds[1..], 1, st).st;
  }

  /** At the top level, `each` with children consumes the command after
      it. */
  lemma EachConsumesNext(cfg: Config, found: Option<Handle>, c: string, more: seq<string>, np: string,
                         count: nat, st: St)
    requires Simple(c) && |OptChildren(found)| > 0
    ensures ModeLoop(cfg, found, ["each", c] + more, np, count, st) ==
      ModeLoop(cfg, found, more, np, count + 2, Process(cfg, found, np, "each", [c] + more, 1, st).st)
  {
    var cmds := ["each", c] + more;
    EachThenCommand(c, more);
    ProcessEach(cfg, found, np, [c] + more, 1, st);
    EachAppliesNext(cfg, found, np, [c] + more, 1, st);
    ModeLoopStep(cfg, found, cmds, np, count, st);
  }

  lemma EachThenCommand(c: string, more: seq<string>)
    ensures var cmds := ["each", c] + more;
      cmds[0] == "each" && cmds[1..] == [c] + more && cmds[2..] == more
  {
    var cmds := ["each", c] + more;
    assert cmds[1..] == [c] + more;
  }

  lemma ProcessEach(cfg: Config, obj: Option<Handle>, np: string, rest: seq<string>, depth: nat, st: St)
    ensures Process(cfg, obj, np, "each", rest, depth, st) == CmdEach(cfg, obj, np, rest, depth, st)
  {
  }

  /** One turn of get_mode's loop that does not exit: the commands it
      consumed are dropped and their count added. */
  lemma ModeLoopStep(cfg: Config, found: Option<Handle>, cmds: seq<string>, np: string, count: nat, st: St)
    requires |cmds| > 0
    requires var r := Process(cfg, found, np, cmds[0], cmds[1..], 1, st); r.o.Ran? && r.o.depth <= |cmds|
    ensures var r := Process(cfg, found, np, cmds[0], cmds[1..], 1, st);
      ModeLoop(cfg, found, cmds, np, count, st) ==
      ModeLoop(cfg, found, cmds[r.o.depth..], r.o.np, count + r.o.depth, r.st)
  {
  }

  /** At the top level, `each` on a node without children leaves the next
      command to run on the node itself. */
  lemma EachOnLeafRerunsNext(cfg: Config, found: Option<Handle>, c: string, more: seq<string>, np: string,
                             count: nat, st: St)
    requires |OptChildren(found)| == 0
    ensures ModeLoop(cfg, found, ["each", c] + more, np, count, st) == ModeLoop(cfg, found, [c] + more, np, count + 1, st)
  {
    var cmds := ["each", c] + more;
    EachThenCommand(c, more);
    ProcessEach(cfg, found, np, [c] + more, 1, st);
    EachWithoutChildren(cfg, found, np, [c] + more, 1, st);
    ModeLoopStep(cfg, found, cmds, np, count, st);
  }

  /** A request without commands prints the selected node, once. */
  lemma NoCommandPrintsNode(cfg: Config, root: Option<Node>, request: string, st: St)
    requires '|' !in request
    ensures var sel := Select(cfg, root, request);
      var rr := OutputChunk(cfg, NodeOf(sel.0), sel.1, "", st);
      Mode(cfg, root, request, st) == Res(Ran(0, rr.np), rr.st)
  {
    SplitOnSingle(request, '|');
  }

  /** "" and a lone separator both select the root, under an empty
      nodepath. */
  lemma RootRequests(cfg: Config, root: Option<Node>, st: St)
    requires cfg.inSep != '|'
    ensures Mode(cfg, root, [cfg.inSep], st) == Mode(cfg, root, "", st)
    ensures var rr := OutputChunk(cfg, root, "", "", st); Mode(cfg, root, "", st) == Res(Ran(0, rr.np), rr.st)
  {
    NoCommandPrintsNode(cfg, root, "", st);
    NoCommandPrintsNode(cfg, root, [cfg.inSep], st);
  }

  /** One leading input separator on the node name changes nothing. */
  lemma LeadingSeparatorOptional(cfg: Config, root: Option<Node>, request: string, st: St)
    requires cfg.inSep != '|' && FirstChar(request) != cfg.inSep
    ensures Mode(cfg, root, [cfg.inSep] + request, st) == Mode(cfg, root, request, st)
  {
    var toks := SplitOn(request, '|');
    SplitOnCons(cfg.inSep, request, '|');
    SplitOnHead(request, '|');
    var toks' := SplitOn([cfg.inSep] + request, '|');
    assert toks'[0] == [cfg.inSep] + toks[0] && toks'[1..] == toks[1..];
    if |toks[0]| > 0 {
      assert toks[0][0] == request[0];
      assert ([cfg.inSep] + toks[0])[1..] == toks[0];
    }
    assert Select(cfg, root, toks'[0]) == Select(cfg, root, toks[0]);
  }
}
