/** What the get commands print, record by record: the length and type
    lines, the labels and values of `values`, the lookups of a path
    command, the chunks of `iterate` and `each`, and what `recurse` prints
    before its loop and hands each compound child. */
module GetText {
  import opened Libc
  import opened Tree
  import opened Common
  import opened Output
  import opened Get
  import opened GetProps

  // ---------------------------------------------------------------------
  // length and type

  /** The count `length` reports, in terms of iteration: the children an
      array or object yields, the characters of a string, and 0 for any
      other value and for an absent node. */
  function LengthCount(obj: Option<Handle>): nat
  {
    if obj.None? then 0
    else if IsCompound(obj.value.node) then |Children(obj.value)|
    else if obj.value.node.Str? then |obj.value.node.s|
    else 0
  }

  /** `length` prints one record: the count in decimal, after "(null)="
      for an absent node or the bare nodepath for a present one when keys
      are on. */
  lemma LengthRecord(cfg: Config, obj: Option<Handle>, np: string, depth: nat, st: St)
    ensures CmdLength(cfg, obj, np, depth, st).o == Ran(depth, np)
    ensures CmdLength(cfg, obj, np, depth, st).st.out == st.out +
      [Lead(st) + (if cfg.showKeys then (if obj.None? then "(null)=" else np) else "") + NatToString(LengthCount(obj)) + Ending(cfg)]
  {
    if obj.Some? {
      LenCountsChildren(obj.value);
      assert Len(obj.value.node) == LengthCount(obj);
      Regroup(Lead(st), if cfg.showKeys then np else "", NatToString(LengthCount(obj)), Ending(cfg));
    } else {
      var lab := if cfg.showKeys then "(null)=" else "";
      assert CmdLength(cfg, obj, np, depth, st).st.out == st.out + [Lead(st) + (lab + "0") + Ending(cfg)];
      assert NatToString(0) == "0";
      Regroup(Lead(st), lab, "0", Ending(cfg));
    }
  }

  /** The word `type` prints: "null" for an absent node, otherwise the
      word for the node's kind. */
  function TypeText(obj: Option<Handle>): string
  {
    if obj.None? then "null" else TypeWord(KindOf(obj.value.node))
  }

  /** `type` prints one record: the word, after "(null)=" for an absent
      node or `nodepath=` for a present one when keys are on. The word for
      a present node is type_as_string's name in lower case without its
      prefix (TypeWord's contract). */
  lemma TypeRecord(cfg: Config, obj: Option<Handle>, np: string, depth: nat, st: St)
    ensures CmdType(cfg, obj, np, depth, st).o == Ran(depth, np)
    ensures CmdType(cfg, obj, np, depth, st).st.out == st.out +
      [Lead(st) + (if cfg.showKeys then (if obj.None? then "(null)=" else np + "=") else "") + TypeText(obj) + Ending(cfg)]
    ensures obj.Some? ==> TypeAsString(NodeOf(obj)) == Some(KindName(KindOf(obj.value.node)))
  {
    var lab := if cfg.showKeys then (if obj.None? then "(null)=" else np + "=") else "";
    assert CmdType(cfg, obj, np, depth, st).st.out == st.out + [Lead(st) + (lab + TypeText(obj)) + Ending(cfg)];
    Regroup(Lead(st), lab, TypeText(obj), Ending(cfg));
  }

  // ---------------------------------------------------------------------
  // output_key's records

  /** output_key's text between the leading space and the ending, for a
      nodepath and key already rewritten: the label when keys are on and
      the value, or the label and "null" for an absent node. */
  function KeyText(cfg: Config, n: Option<Node>, p: string, key: string): string
  {
    var lab := if cfg.showKeys then p + key + "=" else "";
    if n.None? then lab + "null" else TextValue(cfg, n.value, lab)
  }

  /** The key text output_key uses: the key with its input separators
      rewritten, a NULL key counting as empty. */
  function KeyPart(cfg: Config, inkey: Option<string>): string
  {
    if inkey.None? then "" else Replaced(inkey.value, cfg.inSep, cfg.outSep)
  }

  lemma OutputKeyRecord(cfg: Config, n: Option<Node>, np: string, inkey: Option<string>, st: St)
    ensures LastRecord(OutputKey(cfg, n, np, inkey, st)) ==
      Lead(st) + KeyText(cfg, n, Replaced(np, cfg.inSep, cfg.outSep), KeyPart(cfg, inkey)) + Ending(cfg)
  {
    assert Replaced("", cfg.inSep, cfg.outSep) == "";
  }

  /** A node output_key is called on, and the key it is called with. */
  datatype KeyItem = KeyItem(n: Option<Node>, key: Option<string>)

  /** output_key on every item in turn, on one nodepath buffer. */
  function KeyItemsOut(cfg: Config, items: seq<KeyItem>, i: nat, np: string, st: St): (r: Rendered)
    requires i <= |items|
    ensures st.out <= r.st.out
    decreases |items| - i
  {
    if i == |items| then Rendered(st, np)
    else
      var rr := OutputKey(cfg, items[i].n, np, items[i].key, st);
      KeyItemsOut(cfg, items, i + 1, rr.np, rr.st)
  }

  /** Record by record, item `k` printed under the nodepath as rewritten
      once. */
  lemma {:induction false} KeyItemsRecords(cfg: Config, items: seq<KeyItem>, i: nat, np: string, st: St)
    requires i <= |items|
    ensures |KeyItemsOut(cfg, items, i, np, st).st.out| == |st.out| + |items| - i
    ensures forall k :: i <= k < |items| ==>
      KeyItemsOut(cfg, items, i, np, st).st.out[|st.out| + k - i] ==
        NthLead(cfg, st, k - i) + KeyText(cfg, items[k].n, Replaced(np, cfg.inSep, cfg.outSep), KeyPart(cfg, items[k].key)) + Ending(cfg)
    decreases |items| - i
  {
    if i < |items| {
      var p := Replaced(np, cfg.inSep, cfg.outSep);
      var rr := OutputKey(cfg, items[i].n, np, items[i].key, st);
      OutputKeyRecord(cfg, items[i].n, np, items[i].key, st);
      KeyItemsRecords(cfg, items, i + 1, rr.np, rr.st);
      ReplacedIdempotent(np, cfg.inSep, cfg.outSep);
      var r := KeyItemsOut(cfg, items, i, np, st);
      assert r == KeyItemsOut(cfg, items, i + 1, rr.np, rr.st);
      assert r.st.out[|st.out|] == rr.st.out[|st.out|];
      forall k | i + 1 <= k < |items|
        ensures r.st.out[|st.out| + k - i] ==
          NthLead(cfg, st, k - i) + KeyText(cfg, items[k].n, p, KeyPart(cfg, items[k].key)) + Ending(cfg)
      {
        assert NthLead(cfg, rr.st, k - (i + 1)) == NthLead(cfg, st, k - i);
      }
    }
  }

  // ---------------------------------------------------------------------
  // values

  /** The key text `values` labels child `k` with. */
  function ValueLabel(cfg: Config, isArray: bool, c: Handle, k: nat): string
  {
    KeyPart(cfg, ValueKey(cfg, isArray, c, k))
  }

  /** What the values loop hands output_key: every child with its key. */
  function ValueItems(cfg: Config, isArray: bool, cs: seq<Handle>): (r: seq<KeyItem>)
    ensures |r| == |cs|
  {
    seq(|cs|, k requires 0 <= k < |cs| => KeyItem(Some(cs[k].node), ValueKey(cfg, isArray, cs[k], k)))
  }

  lemma {:induction false} ValuesOutItems(cfg: Config, isArray: bool, cs: seq<Handle>, i: nat, np: string, st: St)
    requires i <= |cs|
    ensures ValuesOut(cfg, isArray, cs, i, np, st) == KeyItemsOut(cfg, ValueItems(cfg, isArray, cs), i, np, st)
    decreases |cs| - i
  {
    if i < |cs| {
      var it := ValueItems(cfg, isArray, cs)[i];
      var rr := OutputKey(cfg, it.n, np, it.key, st);
      ValuesOutItems(cfg, isArray, cs, i + 1, rr.np, rr.st);
    }
  }

  /** The values loop from the start, with `labels` the key text of each
      child. */
  lemma ValuesOutLabelled(cfg: Config, isArray: bool, cs: seq<Handle>, np: string, st: St, labels: seq<string>)
    requires |labels| == |cs|
    requires forall k :: 0 <= k < |cs| ==> ValueLabel(cfg, isArray, cs[k], k) == labels[k]
    ensures |ValuesOut(cfg, isArray, cs, 0, np, st).st.out| == |st.out| + |cs|
    ensures forall k :: 0 <= k < |cs| ==>
      ValuesOut(cfg, isArray, cs, 0, np, st).st.out[|st.out| + k] ==
        NthLead(cfg, st, k) + KeyText(cfg, Some(cs[k].node), Replaced(np, cfg.inSep, cfg.outSep), labels[k]) + Ending(cfg)
  {
    var items := ValueItems(cfg, isArray, cs);
    ValuesOutItems(cfg, isArray, cs, 0, np, st);
    KeyItemsRecords(cfg, items, 0, np, st);
    var r := KeyItemsOut(cfg, items, 0, np, st);
    forall k | 0 <= k < |cs|
      ensures r.st.out[|st.out| + k] ==
        NthLead(cfg, st, k) + KeyText(cfg, Some(cs[k].node), Replaced(np, cfg.inSep, cfg.outSep), labels[k]) + Ending(cfg)
    {
      assert items[k] == KeyItem(Some(cs[k].node), ValueKey(cfg, isArray, cs[k], k));
      assert KeyPart(cfg, items[k].key) == labels[k];
    }
  }

  /** `values` on an object prints its members' head values in order, each
      labelled, when keys are on, with the nodepath, the output separator
      and the member's key (input separators rewritten). */
  lemma ValuesOfObject(cfg: Config, h: Handle, np: string, depth: nat, st: St)
    requires h.node.Object?
    ensures var r := CmdValues(cfg, Some(h), np, depth, st);
      |r.st.out| == |st.out| + |h.node.entries| &&
      forall k :: 0 <= k < |h.node.entries| ==> (r.st.out[|st.out| + k] ==
        NthLead(cfg, st, k) +
        KeyText(cfg, Some(h.node.entries[k].head), Replaced(np, cfg.inSep, cfg.outSep),
                Replaced([cfg.outSep] + h.node.entries[k].key, cfg.inSep, cfg.outSep)) +
        Ending(cfg))
  {
    var cs := Children(h);
    var es := h.node.entries;
    var labels := seq(|es|, k requires 0 <= k < |es| => Replaced([cfg.outSep] + es[k].key, cfg.inSep, cfg.outSep));
    ValuesOutLabelled(cfg, false, cs, np, st, labels);
    assert CmdValues(cfg, Some(h), np, depth, st).st == ValuesOut(cfg, false, cs, 0, np, st).st;
  }

  /** `values` on an array prints its elements in order, each labelled,
      when keys are on, with the nodepath, the output separator and the
      element's index. */
  lemma ValuesOfArray(cfg: Config, h: Handle, np: string, depth: nat, st: St)
    requires h.node.Array?
    ensures var r := CmdValues(cfg, Some(h), np, depth, st);
      |r.st.out| == |st.out| + |h.node.elems| &&
      forall k :: 0 <= k < |h.node.elems| ==> (r.st.out[|st.out| + k] ==
        NthLead(cfg, st, k) +
        KeyText(cfg, Some(h.node.elems[k]), Replaced(np, cfg.inSep, cfg.outSep),
                Replaced([cfg.outSep] + NatToString(k), cfg.inSep, cfg.outSep)) +
        Ending(cfg))
  {
    var cs := Children(h);
    var xs := h.node.elems;
    var labels := seq(|xs|, k requires 0 <= k < |xs| => Replaced([cfg.outSep] + NatToString(k), cfg.inSep, cfg.outSep));
    ValuesOutLabelled(cfg, true, cs, np, st, labels);
    assert CmdValues(cfg, Some(h), np, depth, st).st == ValuesOut(cfg, true, cs, 0, np, st).st;
  }

  // ---------------------------------------------------------------------
  // path lookups

  /** What the lookup loop hands output_key: for every token, what the
      token finds as a path below `top`, labelled with the token. */
  function Lookups(cfg: Config, top: Option<Node>, toks: seq<string>): (r: seq<KeyItem>)
    ensures |r| == |toks|
  {
    seq(|toks|, k requires 0 <= k < |toks| => KeyItem(NodeOf(LookupPath(top, toks[k], cfg.inSep)), Some(toks[k])))
  }

  lemma {:induction false} NoneOutLookups(cfg: Config, top: Option<Node>, toks: seq<string>, j: nat, np: string, st: St)
    requires j <= |toks|
    ensures NoneOut(cfg, top, toks, j, np, st) == KeyItemsOut(cfg, Lookups(cfg, top, toks), j, np, st)
    decreases |toks| - j
  {
    if j < |toks| {
      var it := Lookups(cfg, top, toks)[j];
      var rr := OutputKey(cfg, it.n, np, it.key, st);
      NoneOutLookups(cfg, top, toks, j + 1, rr.np, rr.st);
    }
  }

  /** A path command as the last command splits its text at spaces and
      prints, for every piece in order, what that piece finds as a path
      below the current node, labelled with the piece. */
  lemma LookupPrintsEveryPath(cfg: Config, obj: Option<Handle>, np: string, cmd: string, depth: nat, st: St)
    ensures CmdNone(cfg, obj, np, cmd, [], depth, st).o.Ran?
    ensures CmdNone(cfg, obj, np, cmd, [], depth, st).o.depth == depth
    ensures |CmdNone(cfg, obj, np, cmd, [], depth, st).st.out| == |st.out| + |SplitOn(cmd, ' ')|
    ensures forall k :: 0 <= k < |SplitOn(cmd, ' ')| ==>
      CmdNone(cfg, obj, np, cmd, [], depth, st).st.out[|st.out| + k] ==
        NthLead(cfg, st, k) +
        KeyText(cfg, NodeOf(LookupPath(NodeOf(obj), SplitOn(cmd, ' ')[k], cfg.inSep)), Replaced(np, cfg.inSep, cfg.outSep),
                Replaced(SplitOn(cmd, ' ')[k], cfg.inSep, cfg.outSep)) +
        Ending(cfg)
  {
    LookupLast(cfg, obj, np, cmd, depth, st);
    KeyItemsRecords(cfg, Lookups(cfg, NodeOf(obj), SplitOn(cmd, ' ')), 0, np, st);
    forall k | 0 <= k < |SplitOn(cmd, ' ')|
      ensures CmdNone(cfg, obj, np, cmd, [], depth, st).st.out[|st.out| + k] ==
        NthLead(cfg, st, k) +
        KeyText(cfg, NodeOf(LookupPath(NodeOf(obj), SplitOn(cmd, ' ')[k], cfg.inSep)), Replaced(np, cfg.inSep, cfg.outSep),
                Replaced(SplitOn(cmd, ' ')[k], cfg.inSep, cfg.outSep)) +
        Ending(cfg)
    {
      LookupRecord(cfg, NodeOf(obj), np, SplitOn(cmd, ' '), st, k);
    }
  }

  lemma LookupRecord(cfg: Config, top: Option<Node>, np: string, toks: seq<string>, st: St, k: nat)
    requires k < |toks|
    ensures |KeyItemsOut(cfg, Lookups(cfg, top, toks), 0, np, st).st.out| == |st.out| + |toks|
    ensures KeyItemsOut(cfg, Lookups(cfg, top, toks), 0, np, st).st.out[|st.out| + k] ==
      NthLead(cfg, st, k) +
      KeyText(cfg, NodeOf(LookupPath(top, toks[k], cfg.inSep)), Replaced(np, cfg.inSep, cfg.outSep),
              Replaced(toks[k], cfg.inSep, cfg.outSep)) +
      Ending(cfg)
  {
    var items := Lookups(cfg, top, toks);
    KeyItemRecordAt(cfg, items, np, st, k, NodeOf(LookupPath(top, toks[k], cfg.inSep)), toks[k]);
  }

  /** Record `k` of a run of output_key calls, for an item with a key. */
  lemma KeyItemRecordAt(cfg: Config, items: seq<KeyItem>, np: string, st: St, k: nat, n: Option<Node>, key: string)
    requires k < |items| && items[k] == KeyItem(n, Some(key))
    ensures |KeyItemsOut(cfg, items, 0, np, st).st.out| == |st.out| + |items|
    ensures KeyItemsOut(cfg, items, 0, np, st).st.out[|st.out| + k] ==
      NthLead(cfg, st, k) + KeyText(cfg, n, Replaced(np, cfg.inSep, cfg.outSep), Replaced(key, cfg.inSep, cfg.outSep)) + Ending(cfg)
  {
    var out := KeyItemsOut(cfg, items, 0, np, st).st.out;
    var p := Replaced(np, cfg.inSep, cfg.outSep);
    assert |out| == |st.out| + |items| by {
      KeyItemsRecords(cfg, items, 0, np, st);
    }
    assert out[|st.out| + k] == NthLead(cfg, st, k) + KeyText(cfg, n, p, Replaced(key, cfg.inSep, cfg.outSep)) + Ending(cfg) by {
      KeyItemsRecords(cfg, items, 0, np, st);
      assert out[|st.out| + k - 0] == NthLead(cfg, st, k - 0) + KeyText(cfg, items[k].n, p, KeyPart(cfg, items[k].key)) + Ending(cfg);
    }
  }

  lemma LookupLast(cfg: Config, obj: Option<Handle>, np: string, cmd: string, depth: nat, st: St)
    ensures var rr := KeyItemsOut(cfg, Lookups(cfg, NodeOf(obj), SplitOn(cmd, ' ')), 0, np, st);
      CmdNone(cfg, obj, np, cmd, [], depth, st) == Res(Ran(depth, rr.np), rr.st)
  {
    NoneOutLookups(cfg, NodeOf(obj), SplitOn(cmd, ' '), 0, np, st);
  }

  /** The pieces hold no space, and glued back with spaces they give the
      command. */
  lemma LookupPieces(cmd: string)
    ensures forall k :: 0 <= k < |SplitOn(cmd, ' ')| ==> ' ' !in SplitOn(cmd, ' ')[k]
    ensures Join(SplitOn(cmd, ' '), ' ') == cmd
  {
    SplitOnTokens(cmd, ' ');
    SplitOnJoin(cmd, ' ');
  }

  /** A single path followed by more commands runs the next command on
      what the path finds below the current node, under the nodepath
      extended by the separator and the found node's key (its index under
      an array), one level deeper. */
  lemma LookupThenCommand(cfg: Config, obj: Option<Handle>, np: string, tok: string, rest: seq<string>, depth: nat, st: St)
    requires ' ' !in tok && |rest| > 0
    ensures var found := LookupPath(NodeOf(obj), tok, cfg.inSep);
      var r := Process(cfg, found, np + NoneKey(cfg, obj, found, 0), rest[0], rest[1..], depth + 1, st);
      CmdNone(cfg, obj, np, tok, rest, depth, st) == (if r.o.Exited? then r else Res(Ran(r.o.depth, np), r.st))
  {
    SplitOnSingle(tok, ' ');
    var found := LookupPath(NodeOf(obj), tok, cfg.inSep);
    var acc := Res(Ran(depth, np), st);
    var next := NoneLookup(cfg, obj, tok, 0, np, rest[0], rest[1..], depth + 1, acc);
    assert CmdNone(cfg, obj, np, tok, rest, depth, st) == NoneRun(cfg, obj, [tok], 0, np, rest[0], rest[1..], depth + 1, acc);
    assert NoneRun(cfg, obj, [tok], 0, np, rest[0], rest[1..], depth + 1, acc) ==
      NoneRun(cfg, obj, [tok], 1, np, rest[0], rest[1..], depth + 1, next);
  }

  // ---------------------------------------------------------------------
  // output_chunk's records

  /** The record output_chunk writes, for the nodepath as it has rewritten
      it: the text tier's record, or the emitter's bytes after
      `nodepath key=` (when keys are on and the key is not empty) and the
      newline a structured record needs. `first` is the firstline flag
      before the call. */
  function ChunkText(cfg: Config, n: Option<Node>, p: string, key: string, first: bool): string
  {
    var k := Replaced(key, cfg.inSep, cfg.outSep);
    if cfg.outputType.Text? then
      (if first then "" else " ") + KeyText(cfg, n, p, k) + Ending(cfg)
    else
      var result := cfg.emit(n, cfg.outputType);
      (if cfg.showKeys && |k| > 0 then p + k + "=" else "") + result + StructuredEnding(cfg, result)
  }

  /** Every output type but an unhandled one writes one record, which
      depends on the state only through the firstline flag; a record ends
      the first line unless nonewline mode is on. */
  lemma ChunkRecord(cfg: Config, n: Option<Node>, np: string, key: string, st: St)
    requires !cfg.outputType.Invalid?
    ensures LastRecord(OutputChunk(cfg, n, np, key, st)) == ChunkText(cfg, n, ChunkPath(cfg, np), key, st.firstline)
    ensures OutputChunk(cfg, n, np, key, st).st.firstline == (st.firstline && !cfg.nonewline)
  {
    if cfg.outputType.Text? {
      var k := Replaced(key, cfg.inSep, cfg.outSep);
      ReplacedIdempotent(if cfg.shvars then Replaced(np, '.', '_') else np, cfg.inSep, cfg.outSep);
      ReplacedIdempotent(key, cfg.inSep, cfg.outSep);
      OutputKeyRecord(cfg, n, ChunkPath(cfg, np), Some(k), st);
    }
  }

  lemma ChunkFirstline(cfg: Config, n: Option<Node>, np: string, key: string, st: St)
    requires !cfg.outputType.Invalid?
    ensures OutputChunk(cfg, n, np, key, st).st.firstline == (st.firstline && !cfg.nonewline)
  {
  }

  /** The nodepath buffer after `m` output_chunk calls: every call rewrites
      it again, in place. */
  function Rewritten(cfg: Config, np: string, m: nat): (r: string)
    ensures |r| == |np|
    decreases m
  {
    if m == 0 then np else Rewritten(cfg, ChunkPath(cfg, np), m - 1)
  }

  /** The firstline flag before record `k` of a run that starts in `st`. */
  function NthFirst(cfg: Config, st: St, k: nat): bool
  {
    st.firstline && (k == 0 || !cfg.nonewline)
  }

  /** A node output_chunk is called on, and the key it is called with. */
  datatype ChunkItem = ChunkItem(n: Node, key: string)

  /** output_chunk on every item in turn, on one nodepath buffer. */
  function ChunkItemsOut(cfg: Config, items: seq<ChunkItem>, np: string, st: St): (r: Rendered)
    ensures st.out <= r.st.out
    decreases |items|
  {
    if |items| == 0 then Rendered(st, np)
    else
      var rr := OutputChunk(cfg, Some(items[0].n), np, items[0].key, st);
      ChunkItemsOut(cfg, items[1..], rr.np, rr.st)
  }

  /** One record per item, and the buffer left rewritten once per item. */
  lemma {:induction false} ChunkItemsCount(cfg: Config, items: seq<ChunkItem>, np: string, st: St)
    requires !cfg.outputType.Invalid?
    ensures ChunkItemsOut(cfg, items, np, st).np == Rewritten(cfg, np, |items|)
    ensures |ChunkItemsOut(cfg, items, np, st).st.out| == |st.out| + |items|
    ensures ChunkItemsOut(cfg, items, np, st).st.firstline == NthFirst(cfg, st, |items|)
    decreases |items|
  {
    if |items| > 0 {
      var np2, st2 := ChunkItemsStep(cfg, items, np, st);
      ChunkItemsCount(cfg, items[1..], np2, st2);
    }
  }

  /** Record `k`: item `k` under the nodepath as rewritten `k + 1` times. */
  lemma ChunkItemsRecord(cfg: Config, items: seq<ChunkItem>, np: string, st: St, k: nat)
    requires !cfg.outputType.Invalid? && k < |items|
    ensures |st.out| + k < |ChunkItemsOut(cfg, items, np, st).st.out|
    ensures ChunkItemsOut(cfg, items, np, st).st.out[|st.out| + k] ==
      ChunkText(cfg, Some(items[k].n), Rewritten(cfg, np, k + 1), items[k].key, NthFirst(cfg, st, k))
  {
    var a, b := items[..k], items[k..];
    assert items == a + b && b[0] == items[k];
    ChunkItemsAppend(cfg, a, b, np, st);
    var ra := ChunkItemsOut(cfg, a, np, st);
    ChunkItemsCount(cfg, a, np, st);
    ChunkItemsFirst(cfg, b, ra.np, ra.st);
    RewrittenStep(cfg, np, k);
    assert Rewritten(cfg, ra.np, 1) == ChunkPath(cfg, ra.np) == Rewritten(cfg, np, k + 1);
    assert NthFirst(cfg, ra.st, 0) == NthFirst(cfg, st, k);
    assert |ra.st.out| == |st.out| + k;
  }

  /** The first call of a run, and the buffer and output it leaves. */
  lemma ChunkItemsStep(cfg: Config, items: seq<ChunkItem>, np: string, st: St) returns (np2: string, st2: St)
    requires !cfg.outputType.Invalid? && 0 < |items|
    ensures ChunkItemsOut(cfg, items, np, st) == ChunkItemsOut(cfg, items[1..], np2, st2)
    ensures np2 == ChunkPath(cfg, np) && |st2.out| == |st.out| + 1
    ensures st2.firstline == (st.firstline && !cfg.nonewline)
  {
    var rr := OutputChunk(cfg, Some(items[0].n), np, items[0].key, st);
    ChunkFirstline(cfg, Some(items[0].n), np, items[0].key, st);
    np2, st2 := rr.np, rr.st;
  }

  lemma ChunkItemsFirst(cfg: Config, items: seq<ChunkItem>, np: string, st: St)
    requires !cfg.outputType.Invalid? && 0 < |items|
    ensures |st.out| < |ChunkItemsOut(cfg, items, np, st).st.out|
    ensures ChunkItemsOut(cfg, items, np, st).st.out[|st.out|] ==
      ChunkText(cfg, Some(items[0].n), Rewritten(cfg, np, 1), items[0].key, NthFirst(cfg, st, 0))
  {
    var rr := OutputChunk(cfg, Some(items[0].n), np, items[0].key, st);
    var r := ChunkItemsOut(cfg, items, np, st);
    assert r == ChunkItemsOut(cfg, items[1..], rr.np, rr.st);
    ChunkRecord(cfg, Some(items[0].n), np, items[0].key, st);
    assert r.st.out[|st.out|] == rr.st.out[|st.out|] == LastRecord(rr);
    assert Rewritten(cfg, np, 1) == rr.np;
  }

  /** Record by record: item `k` under the nodepath as rewritten `k + 1`
      times, and the buffer left rewritten once per item. */
  lemma ChunkItemsRecords(cfg: Config, items: seq<ChunkItem>, np: string, st: St)
    requires !cfg.outputType.Invalid?
    ensures ChunkItemsOut(cfg, items, np, st).np == Rewritten(cfg, np, |items|)
    ensures |ChunkItemsOut(cfg, items, np, st).st.out| == |st.out| + |items|
    ensures forall k :: 0 <= k < |items| ==>
      ChunkItemsOut(cfg, items, np, st).st.out[|st.out| + k] ==
        ChunkText(cfg, Some(items[k].n), Rewritten(cfg, np, k + 1), items[k].key, NthFirst(cfg, st, k))
  {
    ChunkItemsCount(cfg, items, np, st);
    forall k | 0 <= k < |items|
      ensures ChunkItemsOut(cfg, items, np, st).st.out[|st.out| + k] ==
        ChunkText(cfg, Some(items[k].n), Rewritten(cfg, np, k + 1), items[k].key, NthFirst(cfg, st, k))
    {
      ChunkItemsRecord(cfg, items, np, st, k);
    }
  }

  lemma {:induction false} ChunkItemsAppend(cfg: Config, a: seq<ChunkItem>, b: seq<ChunkItem>, np: string, st: St)
    ensures ChunkItemsOut(cfg, a + b, np, st) ==
      ChunkItemsOut(cfg, b, ChunkItemsOut(cfg, a, np, st).np, ChunkItemsOut(cfg, a, np, st).st)
    decreases |a|
  {
    if |a| == 0 {
      assert a + b == b;
    } else {
      var rr := OutputChunk(cfg, Some(a[0].n), np, a[0].key, st);
      assert (a + b)[0] == a[0];
      assert (a + b)[1..] == a[1..] + b;
      ChunkItemsAppend(cfg, a[1..], b, rr.np, rr.st);
    }
  }

  /** The values of a chain, all under one key. */
  function Under(hs: seq<Handle>, key: string): (r: seq<ChunkItem>)
    ensures |r| == |hs|
  {
    seq(|hs|, k requires 0 <= k < |hs| => ChunkItem(hs[k].node, key))
  }

  lemma {:induction false} ChunksOutItems(cfg: Config, hs: seq<Handle>, j: nat, np: string, key: string, st: St)
    requires j <= |hs|
    ensures ChunksOut(cfg, hs, j, np, key, st) == ChunkItemsOut(cfg, Under(hs[j..], key), np, st)
    decreases |hs| - j
  {
    if j < |hs| {
      var rr := OutputChunk(cfg, Some(hs[j].node), np, key, st);
      UnderStep(hs, j, key);
      ChunksOutItems(cfg, hs, j + 1, rr.np, key, rr.st);
    } else {
      assert Under(hs[j..], key) == [];
    }
  }

  lemma UnderStep(hs: seq<Handle>, j: nat, key: string)
    requires j < |hs|
    ensures |Under(hs[j..], key)| > 0
    ensures Under(hs[j..], key)[0] == ChunkItem(hs[j].node, key)
    ensures Under(hs[j..], key)[1..] == Under(hs[j + 1..], key)
  {
    assert Under(hs[j..], key)[1..] == Under(hs[j + 1..], key);
  }

  /** `iterate` as the last command prints one record per value of the
      node's own chain, in chain order: the node first, then each value
      after it, each under the nodepath as the calls before it left it. */
  lemma IterateShowsChain(cfg: Config, h: Handle, np: string, depth: nat, st: St)
    requires !cfg.outputType.Invalid?
    ensures var r := CmdIterate(cfg, Some(h), np, [], depth, st);
      |r.st.out| == |st.out| + 1 + |h.next| &&
      r.st.out[|st.out|] == ChunkText(cfg, Some(h.node), Rewritten(cfg, np, 1), "", st.firstline) &&
      forall m :: 0 <= m < |h.next| ==> (r.st.out[|st.out| + 1 + m] ==
        ChunkText(cfg, Some(h.next[m]), Rewritten(cfg, np, m + 2), "", NthFirst(cfg, st, m + 1)))
  {
    var hs := ChainOf(h);
    var items := Under(hs, "");
    assert hs[0..] == hs;
    ChunksOutItems(cfg, hs, 0, np, "", st);
    ChunkItemsRecords(cfg, items, np, st);
    forall m | 0 <= m < |h.next|
      ensures items[m + 1] == ChunkItem(h.next[m], "")
    {
      assert hs[m + 1].node == h.next[m];
    }
  }

  /** With the output separator other than '.', or without shell-variable
      mode, a rewritten nodepath is rewritten no further, so every chunk
      shares one nodepath. */
  lemma ChunkPathSettles(cfg: Config, np: string)
    requires !cfg.shvars || cfg.outSep != '.'
    ensures ChunkPath(cfg, ChunkPath(cfg, np)) == ChunkPath(cfg, np)
  {
    var x := ChunkPath(cfg, np);
    if cfg.shvars {
      var y := Replaced(np, '.', '_');
      assert forall i :: 0 <= i < |x| ==> x[i] != '.';
      assert Replaced(x, '.', '_') == x;
      ReplacedIdempotent(y, cfg.inSep, cfg.outSep);
    } else {
      ReplacedIdempotent(np, cfg.inSep, cfg.outSep);
    }
  }

  lemma {:induction false} RewrittenSettles(cfg: Config, np: string, m: nat)
    requires !cfg.shvars || cfg.outSep != '.'
    requires m >= 1
    ensures Rewritten(cfg, np, m) == ChunkPath(cfg, np)
    decreases m
  {
    if m > 1 {
      RewrittenSettles(cfg, ChunkPath(cfg, np), m - 1);
      ChunkPathSettles(cfg, np);
    }
  }

  /** In shell-variable mode with '.' as the output separator and another
      input separator, the buffer drifts: the first chunk shows the
      separators as '.', the next ones as '_'. */
  lemma RewrittenDrifts()
    ensures var cfg := Config(true, false, false, false, true, '/', '.', Text, (n, t) => "");
      Rewritten(cfg, "a/b", 1) == "a.b" && Rewritten(cfg, "a/b", 2) == "a_b"
  {
    var cfg := Config(true, false, false, false, true, '/', '.', Text, (n, t) => "");
    assert ChunkPath(cfg, "a/b") == "a.b";
    assert ChunkPath(cfg, "a.b") == "a_b";
  }

  /** The groups of the first `n` lists, one after the other. */
  function Flatten(gs: seq<seq<ChunkItem>>, n: nat): (r: seq<ChunkItem>)
    requires n <= |gs|
  {
    if n == 0 then [] else Flatten(gs, n - 1) + gs[n - 1]
  }

  /** Later groups only add items after the earlier ones. */
  lemma {:induction false} FlattenKeep(gs: seq<seq<ChunkItem>>, i: nat, n: nat, j: nat)
    requires i <= n <= |gs| && j < |Flatten(gs, i)|
    ensures j < |Flatten(gs, n)| && Flatten(gs, n)[j] == Flatten(gs, i)[j]
    decreases n
  {
    if i < n {
      FlattenKeep(gs, i, n - 1, j);
      var a := Flatten(gs, n - 1);
      assert Flatten(gs, n) == a + gs[n - 1];
      assert (a + gs[n - 1])[j] == a[j];
    }
  }

  /** Item `m` of group `i` sits at `|Flatten(gs, i)| + m`. */
  lemma FlattenAt(gs: seq<seq<ChunkItem>>, i: nat, m: nat)
    requires i < |gs| && m < |gs[i]|
    ensures |Flatten(gs, i)| + m < |Flatten(gs, |gs|)|
    ensures Flatten(gs, |gs|)[|Flatten(gs, i)| + m] == gs[i][m]
  {
    var before := Flatten(gs, i);
    assert Flatten(gs, i + 1) == before + gs[i];
    assert (before + gs[i])[|before| + m] == gs[i][m];
    FlattenKeep(gs, i + 1, |gs|, |before| + m);
  }

  lemma FlattenAtItem(gs: seq<seq<ChunkItem>>, i: nat, m: nat, x: ChunkItem)
    requires i < |gs| && m < |gs[i]| && gs[i][m] == x
    ensures |Flatten(gs, i)| + m < |Flatten(gs, |gs|)|
    ensures Flatten(gs, |gs|)[|Flatten(gs, i)| + m] == x
  {
    FlattenAt(gs, i, m);
  }

  /** What `each` hands output_chunk for every child: its implicit array
      value by value, or the child alone, under the child's key. */
  function EachGroups(cfg: Config, isArray: bool, cs: seq<Handle>): (r: seq<seq<ChunkItem>>)
    ensures |r| == |cs|
  {
    seq(|cs|, i requires 0 <= i < |cs| => Under(Expanded(cs[i]), EachKey(cfg, isArray, cs[i], i)))
  }

  lemma {:induction false} EachOutItems(cfg: Config, isArray: bool, cs: seq<Handle>, i: nat, np: string, st: St)
    requires i <= |cs|
    ensures var gs := EachGroups(cfg, isArray, cs);
      var r := ChunkItemsOut(cfg, Flatten(gs, i), np, st);
      EachOut(cfg, isArray, cs, i, r.np, r.st) == ChunkItemsOut(cfg, Flatten(gs, |gs|), np, st)
    decreases |cs| - i
  {
    if i < |cs| {
      var gs := EachGroups(cfg, isArray, cs);
      var a := Flatten(gs, i);
      var key := EachKey(cfg, isArray, cs[i], i);
      var u := Under(Expanded(cs[i]), key);
      assert gs[i] == u;
      assert Flatten(gs, i + 1) == a + u;
      var r := ChunkItemsOut(cfg, a, np, st);
      ChunkItemsAppend(cfg, a, u, np, st);
      assert Expanded(cs[i])[0..] == Expanded(cs[i]);
      ChunksOutItems(cfg, Expanded(cs[i]), 0, r.np, key, r.st);
      EachOutItems(cfg, isArray, cs, i + 1, np, st);
    }
  }

  /** Group `i` is child `i`'s implicit array, value by value (the child
      alone when it has no further values or is an array), under the key
      `each` builds for the child. */
  lemma EachGroupEntry(cfg: Config, isArray: bool, cs: seq<Handle>, i: nat, m: nat)
    requires i < |cs| && m < |Expanded(cs[i])|
    ensures m < |EachGroups(cfg, isArray, cs)[i]|
    ensures EachGroups(cfg, isArray, cs)[i][m] == ChunkItem(Expanded(cs[i])[m].node, EachKey(cfg, isArray, cs[i], i))
  {
  }

  /** Record `k` of a run is item `k`, whatever list holds it. */
  lemma ChunkItemsRecordAt(cfg: Config, items: seq<ChunkItem>, np: string, st: St, k: nat, x: Node, key: string)
    requires !cfg.outputType.Invalid? && k < |items| && items[k] == ChunkItem(x, key)
    ensures |st.out| + k < |ChunkItemsOut(cfg, items, np, st).st.out|
    ensures ChunkItemsOut(cfg, items, np, st).st.out[|st.out| + k] ==
      ChunkText(cfg, Some(x), Rewritten(cfg, np, k + 1), key, NthFirst(cfg, st, k))
  {
    ChunkItemsRecord(cfg, items, np, st, k);
  }

  /** Record `|Flatten(gs, i)| + m` of a run that starts in `st` is item
      `m` of group `i`, under the nodepath as rewritten that many times
      plus one. */
  predicate GroupRecord(cfg: Config, gs: seq<seq<ChunkItem>>, np: string, st: St, i: int, m: int)
  {
    0 <= i < |gs| && 0 <= m < |gs[i]| &&
    var out := ChunkItemsOut(cfg, Flatten(gs, |gs|), np, st).st.out;
    var k := |Flatten(gs, i)| + m;
    |st.out| + k < |out| &&
    out[|st.out| + k] == ChunkText(cfg, Some(gs[i][m].n), Rewritten(cfg, np, k + 1), gs[i][m].key, NthFirst(cfg, st, k))
  }

  /** output_chunk on groups of items one after the other prints every
      item of every group, in order. */
  lemma FlattenRecords(cfg: Config, gs: seq<seq<ChunkItem>>, np: string, st: St)
    requires !cfg.outputType.Invalid?
    ensures |ChunkItemsOut(cfg, Flatten(gs, |gs|), np, st).st.out| == |st.out| + |Flatten(gs, |gs|)|
    ensures forall i, m :: 0 <= i < |gs| && 0 <= m < |gs[i]| ==> GroupRecord(cfg, gs, np, st, i, m)
  {
    ChunkItemsCount(cfg, Flatten(gs, |gs|), np, st);
    forall i, m | 0 <= i < |gs| && 0 <= m < |gs[i]|
      ensures GroupRecord(cfg, gs, np, st, i, m)
    {
      GroupRecordHolds(cfg, gs, np, st, i, m);
    }
  }

  lemma GroupRecordHolds(cfg: Config, gs: seq<seq<ChunkItem>>, np: string, st: St, i: nat, m: nat)
    requires !cfg.outputType.Invalid? && i < |gs| && m < |gs[i]|
    ensures GroupRecord(cfg, gs, np, st, i, m)
  {
    var k := |Flatten(gs, i)| + m;
    var x := gs[i][m];
    FlattenAt(gs, i, m);
    ChunkItemsRecordAt(cfg, Flatten(gs, |gs|), np, st, k, x.n, x.key);
  }

  /** `each` as the last command prints the groups of EachGroups one after
      the other, so FlattenRecords gives every record: value `m` of child
      `i` under the child's key (EachGroupEntry) is record
      `|Flatten(gs, i)| + m`. */
  lemma EachPrintsEveryValue(cfg: Config, obj: Option<Handle>, np: string, depth: nat, st: St)
    ensures var gs := EachGroups(cfg, IsArray(obj), OptChildren(obj));
      CmdEach(cfg, obj, np, [], depth, st) ==
        Res(Ran(depth, ChunkItemsOut(cfg, Flatten(gs, |gs|), np, st).np), ChunkItemsOut(cfg, Flatten(gs, |gs|), np, st).st)
  {
    EachOutItems(cfg, IsArray(obj), OptChildren(obj), 0, np, st);
  }

  // ---------------------------------------------------------------------
  // recurse

  /** How many records get_cmd_recurse prints before its loop: the node
      itself under a non-empty nodepath, `_length` for an array under a
      non-empty nodepath in expand mode, `_keys` for an object in expand
      mode whatever the nodepath. */
  function PreludeCount(cfg: Config, obj: Option<Handle>, np: string): (r: nat)
    ensures r <= 2
    ensures r == 0 <==> (|np| == 0 && !(cfg.expand && IsObject(obj)))
  {
    (if |np| > 0 then 1 else 0)
    + (if |np| > 0 && cfg.expand && IsArray(obj) then 1 else 0)
    + (if cfg.expand && IsObject(obj) then 1 else 0)
  }

  /** The records of the prelude, one by one: the node under the rewritten
      nodepath with no key, then the array's element count under
      `_length`, and last the object's key list under `_keys`; every call
      rewrites the nodepath buffer once more. */
  lemma RecursePreludeRecords(cfg: Config, obj: Option<Handle>, np: string, st: St)
    requires !cfg.outputType.Invalid?
    ensures |RecursePrelude(cfg, obj, np, st).st.out| == |st.out| + PreludeCount(cfg, obj, np)
    ensures RecursePrelude(cfg, obj, np, st).st.out[..|st.out|] == st.out
    ensures RecursePrelude(cfg, obj, np, st).np == Rewritten(cfg, np, PreludeCount(cfg, obj, np))
    ensures RecursePrelude(cfg, obj, np, st).st.firstline == NthFirst(cfg, st, PreludeCount(cfg, obj, np))
    ensures |np| > 0 ==>
      RecursePrelude(cfg, obj, np, st).st.out[|st.out|] == ChunkText(cfg, NodeOf(obj), Rewritten(cfg, np, 1), "", st.firstline)
    ensures (|np| > 0 && cfg.expand && IsArray(obj)) ==>
      RecursePrelude(cfg, obj, np, st).st.out[|st.out| + 1] ==
        ChunkText(cfg, Some(Int(|Children(obj.value)|)), Rewritten(cfg, np, 2), [cfg.outSep] + "_length", NthFirst(cfg, st, 1))
    ensures (cfg.expand && IsObject(obj)) ==>
      LastRecord(RecursePrelude(cfg, obj, np, st)) ==
        ChunkText(cfg, Some(Str(Subkeys(obj))), Rewritten(cfg, np, if |np| > 0 then 2 else 1), [cfg.outSep] + "_keys",
                  NthFirst(cfg, st, if |np| > 0 then 1 else 0))
  {
    var r0 := Rendered(st, np);
    if |np| == 0 {
      if cfg.expand && IsObject(obj) {
        ChunkAfter(cfg, Some(Str(Subkeys(obj))), [cfg.outSep] + "_keys", np, st, r0, 0);
      }
    } else {
      var r1 := OutputChunk(cfg, NodeOf(obj), np, "", st);
      ChunkAfter(cfg, NodeOf(obj), "", np, st, r0, 0);
      if cfg.expand && IsArray(obj) {
        LenCountsChildren(obj.value);
        ChunkAfter(cfg, Some(Int(Len(obj.value.node))), [cfg.outSep] + "_length", np, st, r1, 1);
      } else if cfg.expand && IsObject(obj) {
        ChunkAfter(cfg, Some(Str(Subkeys(obj))), [cfg.outSep] + "_keys", np, st, r1, 1);
      }
    }
  }

  /** output_chunk after `m` records of a run that started in `st` on
      nodepath `np`: it writes record `m` on the buffer rewritten once
      more. */
  lemma ChunkAfter(cfg: Config, n: Option<Node>, key: string, np: string, st: St, r: Rendered, m: nat)
    requires !cfg.outputType.Invalid?
    requires |r.st.out| == |st.out| + m && r.st.out[..|st.out|] == st.out
    requires r.np == Rewritten(cfg, np, m) && r.st.firstline == NthFirst(cfg, st, m)
    ensures |OutputChunk(cfg, n, r.np, key, r.st).st.out| == |st.out| + m + 1
    ensures OutputChunk(cfg, n, r.np, key, r.st).st.out[..|st.out|] == st.out
    ensures OutputChunk(cfg, n, r.np, key, r.st).np == Rewritten(cfg, np, m + 1)
    ensures OutputChunk(cfg, n, r.np, key, r.st).st.firstline == NthFirst(cfg, st, m + 1)
    ensures OutputChunk(cfg, n, r.np, key, r.st).st.out[|st.out| + m] ==
      ChunkText(cfg, n, Rewritten(cfg, np, m + 1), key, NthFirst(cfg, st, m))
  {
    var rr := OutputChunk(cfg, n, r.np, key, r.st);
    ChunkRecord(cfg, n, r.np, key, r.st);
    RewrittenStep(cfg, np, m);
    assert rr.st.out[..|st.out|] == rr.st.out[..|r.st.out|][..|st.out|];
  }

  /** One more rewrite of the buffer after `m` of them. */
  lemma {:induction false} RewrittenStep(cfg: Config, np: string, m: nat)
    ensures ChunkPath(cfg, Rewritten(cfg, np, m)) == Rewritten(cfg, np, m + 1)
    decreases m
  {
    if m > 0 {
      RewrittenStep(cfg, ChunkPath(cfg, np), m - 1);
    }
  }

  /** The nodepath a value of compound child `i` is recursed with, written
      out: under a non-empty nodepath, the nodepath, the output separator
      and the child's index or key; at the top of an array, the counter
      get_cmd_recurse has already moved past the child, so `i + 1`; at the
      top of anything else, the value's own key. */
  function ChildPath(cfg: Config, obj: Option<Handle>, np: string, c: Handle, i: nat, h: Handle): string
  {
    if |np| > 0 then np + [cfg.outSep] + (if IsArray(obj) then NatToString(i) else PrintfStr(c.key))
    else if IsArray(obj) then NatToString(i + 1)
    else PrintfStr(h.key)
  }

  /** The key and the counter get_cmd_recurse builds for child `i` give
      exactly ChildPath. */
  lemma RecursePathOfChild(cfg: Config, obj: Option<Handle>, np: string, c: Handle, i: nat, h: Handle)
    ensures RecursePath(obj, np, RecurseKey(cfg, obj, np, c, i), if IsArray(obj) then i + 1 else 0, h) == ChildPath(cfg, obj, np, c, i, h)
  {
    var key := RecurseKey(cfg, obj, np, c, i);
    if |np| > 0 {
      assert key == [cfg.outSep] + key[1..];
    }
  }

  /** A compound child: the loop hands every value of the child's chain,
      first to last, to the next command at one level deeper under
      ChildPath; a scalar child is printed by output_chunk under the
      child's key. */
  lemma RecurseLoopStep(cfg: Config, obj: Option<Handle>, cs: seq<Handle>, i: nat, rest: seq<string>, depth: nat, acc: Res)
    requires cs == OptChildren(obj) && i < |cs| && acc.o.Ran?
    ensures IsCompound(cs[i].node) ==>
      RecurseLoop(cfg, obj, cs, i, rest, depth, acc) ==
        RecurseLoop(cfg, obj, cs, i + 1, rest, depth, ChildRuns(cfg, obj, cs[i], i, acc.o.np, ChainOf(cs[i]), rest, depth, acc))
    ensures !IsCompound(cs[i].node) ==>
      RecurseLoop(cfg, obj, cs, i, rest, depth, acc) ==
        RecurseLoop(cfg, obj, cs, i + 1, rest, depth,
          var rr := OutputChunk(cfg, Some(cs[i].node), acc.o.np, RecurseKey(cfg, obj, acc.o.np, cs[i], i), acc.st);
          Res(Ran(acc.o.depth, rr.np), rr.st))
  {
    if IsCompound(cs[i].node) {
      assert obj.Some? && Weight(cs[i]) < Weight(obj.value);
      ChildRunsIsChain(cfg, obj, cs[i], i, acc.o.np, 0, ChainOf(cs[i]), rest, depth, acc);
    }
  }

  /** The values of a compound child's chain handed one after another to
      `recurse` one level deeper, each under ChildPath, until one exits;
      the nodepath of the loop is kept. */
  function ChildRuns(cfg: Config, obj: Option<Handle>, c: Handle, i: nat, np: string, hs: seq<Handle>,
                     rest: seq<string>, depth: nat, acc: Res): Res
    decreases |hs|
  {
    if |hs| == 0 || acc.o.Exited? then acc
    else
      var r := Process(cfg, Some(hs[0]), ChildPath(cfg, obj, np, c, i, hs[0]), "recurse", rest, depth + 1, acc.st);
      ChildRuns(cfg, obj, c, i, np, hs[1..], rest, depth, if r.o.Exited? then r else Res(Ran(r.o.depth, np), r.st))
  }

  lemma {:induction false} ChildRunsIsChain(cfg: Config, obj: Option<Handle>, c: Handle, i: nat, np: string,
                                             j: nat, hs: seq<Handle>, rest: seq<string>, depth: nat, acc: Res)
    requires obj.Some? && Weight(c) < Weight(obj.value)
    requires j <= |ChainOf(c)| && hs == ChainOf(c)[j..]
    requires acc.o.Ran? ==> acc.o.np == np
    ensures RecurseChain(cfg, obj, c, ChainOf(c), j, np, RecurseKey(cfg, obj, np, c, i), if IsArray(obj) then i + 1 else 0, rest, depth, acc) ==
            ChildRuns(cfg, obj, c, i, np, hs, rest, depth, acc)
    decreases |hs|
  {
    if |hs| > 0 && acc.o.Ran? {
      RecursePathOfChild(cfg, obj, np, c, i, hs[0]);
      var r := Process(cfg, Some(hs[0]), ChildPath(cfg, obj, np, c, i, hs[0]), "recurse", rest, depth + 1, acc.st);
      assert hs[1..] == ChainOf(c)[j + 1..];
      ChildRunsIsChain(cfg, obj, c, i, np, j + 1, hs[1..], rest, depth, if r.o.Exited? then r else Res(Ran(r.o.depth, np), r.st));
    }
  }
}
