/** The renderer: output_key's line-oriented text records and output_chunk's
    separator rewriting, labels and newline policy around the bytes of an
    emitter that is a parameter here.

    Output is a sequence of records, one per call that writes; the printed
    text is their concatenation. `firstline` is the state that says whether
    the next text record needs a leading space. A nodepath the C code
    rewrites in its caller's buffer is returned rewritten instead, and the
    callers carry it on. */
module Output {
  import opened Libc
  import opened Tree
  import opened Common

  /** output_type: text (254), the four libucl emitters, msgpack, or a value
      none of the cases handles. */
  datatype OutputType = Text | Ucl | Json | JsonCompact | Yaml | Msgpack | Invalid(code: int)

  /** The global flags of uclcmd.h:42-50, and ucl_object_emit as a function
      of the node (NULL included) and the output type. */
  datatype Config = Config(
    showKeys: bool,
    showRaw: bool,
    nonewline: bool,
    expand: bool,
    shvars: bool,
    inSep: char,
    outSep: char,
    outputType: OutputType,
    emit: (Option<Node>, OutputType) -> string)

  datatype St = St(out: seq<string>, firstline: bool)

  /** The state after a call, and the nodepath as the call left it. */
  datatype Rendered = Rendered(st: St, np: string)

  /** The output stream with its `firstline` flag. */
  class Sink {
    var out: seq<string>
    var firstline: bool

    constructor()
      ensures out == [] && firstline
    {
      out := [];
      firstline := true;
    }

    function State(): St
      reads this
    {
      St(out, firstline)
    }

    /** Writes one record; in nonewline mode the next text record is no
        longer the first one. */
    method Write(cfg: Config, rec: string)
      modifies this
      ensures State() == Emit(old(State()), cfg, rec)
    {
      out := out + [rec];
      if cfg.nonewline {
        firstline := false;
      }
    }
  }

  function Emit(st: St, cfg: Config, rec: string): (r: St)
    ensures r.out == st.out + [rec]
    ensures r.firstline == (st.firstline && !cfg.nonewline)
  {
    St(st.out + [rec], if cfg.nonewline then false else st.firstline)
  }

  /** One space before every text record but the first. */
  function Lead(st: St): (r: string)
    ensures r == "" <==> st.firstline
    ensures r == "" || r == " "
  {
    if st.firstline then "" else " "
  }

  /** A text record ends in a newline unless nonewline mode is on. */
  function Ending(cfg: Config): (r: string)
    ensures r == "" <==> cfg.nonewline
    ensures r == "" || r == "\n"
  {
    if cfg.nonewline then "" else "\n"
  }

  /** `nodepath` `key` `=`, when keys are shown. */
  function Label(cfg: Config, np: string, key: string): (r: string)
    ensures !cfg.showKeys ==> r == ""
    ensures cfg.showKeys ==> |r| == |np| + |key| + 1 && r[..|np|] == np && r[|np|..|r| - 1] == key && r[|r| - 1] == '='
  {
    if cfg.showKeys then np + key + "=" else ""
  }

  /** What output_key prints for a node after the leading space: the label
      and the value text; a null value falls through the switch and prints
      nothing at all. */
  function TextValue(cfg: Config, n: Node, lab: string): (r: string)
    ensures n.Null? ==> r == ""
    ensures !n.Null? ==> lab <= r
    ensures n.Object? || n.Array? || n.Userdata? || n.Int? || n.Bool? || (n.Str? && !cfg.showRaw) ==> |r| > |lab|
  {
    match n
    case Object(_) => lab + "{object}"
    case Array(_) => lab + "[array]"
    case Int(i) => lab + IntToString(i)
    case Float(t) => lab + t
    case Str(s) => lab + (if cfg.showRaw then s else "\"" + s + "\"")
    case Bool(b) => lab + (if b then "true" else "false")
    case Time(t) => lab + t
    case Userdata => lab + "{userdata}"
    case Null => ""
  }

  /** output_key(obj, nodepath, inkey): the text tier. */
  function OutputKey(cfg: Config, n: Option<Node>, np: string, inkey: Option<string>, st: St): (r: Rendered)
    ensures r.np == Replaced(np, cfg.inSep, cfg.outSep)
    ensures |r.st.out| == |st.out| + 1 && r.st.out[..|st.out|] == st.out
  {
    var np' := Replaced(np, cfg.inSep, cfg.outSep);
    var key := Replaced(if inkey.None? then "" else inkey.value, cfg.inSep, cfg.outSep);
    var lab := Label(cfg, np', key);
    var body := if n.None? then lab + "null" else TextValue(cfg, n.value, lab);
    Rendered(Emit(st, cfg, Lead(st) + body + Ending(cfg)), np')
  }

  /** The nodepath output_chunk hands on: '.' to '_' in shell-variable mode,
      then input separators to output separators. */
  function ChunkPath(cfg: Config, np: string): (r: string)
    ensures |r| == |np|
    ensures cfg.inSep != cfg.outSep ==> cfg.inSep !in r
  {
    var np1 := if cfg.shvars then Replaced(np, '.', '_') else np;
    ReplacedEffect(np1, cfg.inSep, cfg.outSep);
    Replaced(np1, cfg.inSep, cfg.outSep)
  }

  /** The trailing newline of a structured record: UCL and JSON add one only
      when the emitted text lacks it, the others always do; nonewline mode
      adds none. */
  function StructuredEnding(cfg: Config, result: string): (r: string)
    ensures r == "" || r == "\n"
    ensures cfg.nonewline ==> r == ""
    ensures !cfg.nonewline ==> |result + r| > 0 && (result + r)[|result + r| - 1] == '\n'
  {
    var hasnewline := |result| > 0 && result[|result| - 1] == '\n';
    if cfg.nonewline then ""
    else if (cfg.outputType.Ucl? || cfg.outputType.Json?) && hasnewline then ""
    else "\n"
  }

  /** output_chunk(obj, nodepath, inkey). */
  function OutputChunk(cfg: Config, n: Option<Node>, np: string, inkey: string, st: St): (r: Rendered)
    ensures r.np == ChunkPath(cfg, np)
    ensures cfg.outputType.Invalid? <==> r.st == st
    ensures !cfg.outputType.Invalid? ==> |r.st.out| == |st.out| + 1 && r.st.out[..|st.out|] == st.out
  {
    var np2 := ChunkPath(cfg, np);
    var key := Replaced(inkey, cfg.inSep, cfg.outSep);
    match cfg.outputType
    case Text =>
      ReplacedIdempotent(if cfg.shvars then Replaced(np, '.', '_') else np, cfg.inSep, cfg.outSep);
      var r := OutputKey(cfg, n, np2, Some(key), st);
      assert r.st != st by { assert |r.st.out| != |st.out|; }
      r
    case Invalid(_) => Rendered(st, np2)
    case _ =>
      var result := cfg.emit(n, cfg.outputType);
      var lab := if cfg.showKeys && |key| > 0 then np2 + key + "=" else "";
      var r := Rendered(Emit(st, cfg, lab + result + StructuredEnding(cfg, result)), np2);
      assert r.st != st by { assert |r.st.out| != |st.out|; }
      r
  }

  /** The record an OutputKey call adds. */
  function LastRecord(r: Rendered): string
    requires |r.st.out| > 0
  {
    r.st.out[|r.st.out| - 1]
  }

  // ---------------------------------------------------------------------
  // Properties of the text tier

  /** Every text record but the first starts with a space, and every one
      ends with a newline unless nonewline mode is on, in which case the
      next record is no longer the first. */
  lemma TextRecordFraming(cfg: Config, n: Option<Node>, np: string, inkey: Option<string>, st: St)
    ensures var rec := LastRecord(OutputKey(cfg, n, np, inkey, st));
      (!st.firstline ==> |rec| > 0 && rec[0] == ' ') &&
      (!cfg.nonewline ==> |rec| > 0 && rec[|rec| - 1] == '\n')
    ensures OutputKey(cfg, n, np, inkey, st).st.firstline == (st.firstline && !cfg.nonewline)
  {
    var np' := Replaced(np, cfg.inSep, cfg.outSep);
    var key := Replaced(if inkey.None? then "" else inkey.value, cfg.inSep, cfg.outSep);
    var lab := Label(cfg, np', key);
    var body := if n.None? then lab + "null" else TextValue(cfg, n.value, lab);
    var rec := Lead(st) + body + Ending(cfg);
    assert LastRecord(OutputKey(cfg, n, np, inkey, st)) == rec;
    if !st.firstline {
      assert rec[0] == Lead(st)[0];
    }
    if !cfg.nonewline {
      assert rec[|rec| - 1] == Ending(cfg)[0];
    }
  }

  /** An absent node prints "null", after `nodepath key =` when keys are on;
      a NULL key counts as the empty one. */
  lemma AbsentNodeText(cfg: Config, np: string, inkey: Option<string>, st: St)
    ensures var key := if inkey.None? then "" else Replaced(inkey.value, cfg.inSep, cfg.outSep);
      var np' := Replaced(np, cfg.inSep, cfg.outSep);
      LastRecord(OutputKey(cfg, None, np, inkey, st)) ==
        Lead(st) + (if cfg.showKeys then np' + key + "=" else "") + "null" + Ending(cfg)
  {
    assert Replaced("", cfg.inSep, cfg.outSep) == "";
  }

  /** A string is printed between double quotes unless raw mode is on,
      after `nodepath key =` when keys are on. */
  lemma StringText(cfg: Config, s: string, np: string, inkey: Option<string>, st: St)
    ensures var key := if inkey.None? then "" else Replaced(inkey.value, cfg.inSep, cfg.outSep);
      var np' := Replaced(np, cfg.inSep, cfg.outSep);
      LastRecord(OutputKey(cfg, Some(Str(s)), np, inkey, st)) ==
        Lead(st) + (if cfg.showKeys then np' + key + "=" else "") + (if cfg.showRaw then s else "\"" + s + "\"") + Ending(cfg)
  {
    KeyedRecord(cfg, Str(s), np, inkey, st);
    var key := if inkey.None? then "" else Replaced(inkey.value, cfg.inSep, cfg.outSep);
    var lab := if cfg.showKeys then Replaced(np, cfg.inSep, cfg.outSep) + key + "=" else "";
    var q := if cfg.showRaw then s else "\"" + s + "\"";
    assert TextValue(cfg, Str(s), lab) == lab + q;
    Regroup(Lead(st), lab, q, Ending(cfg));
  }

  /** Objects, arrays and userdata print fixed placeholders after the
      label; a null value prints nothing but the framing, not even the
      label. */
  lemma PlaceholderText(cfg: Config, n: Node, np: string, inkey: Option<string>, st: St)
    ensures var key := if inkey.None? then "" else Replaced(inkey.value, cfg.inSep, cfg.outSep);
      var lab := if cfg.showKeys then Replaced(np, cfg.inSep, cfg.outSep) + key + "=" else "";
      var rec := LastRecord(OutputKey(cfg, Some(n), np, inkey, st));
      (n.Object? ==> rec == Lead(st) + lab + "{object}" + Ending(cfg)) &&
      (n.Array? ==> rec == Lead(st) + lab + "[array]" + Ending(cfg)) &&
      (n.Userdata? ==> rec == Lead(st) + lab + "{userdata}" + Ending(cfg)) &&
      (n.Null? ==> rec == Lead(st) + Ending(cfg))
  {
    KeyedRecord(cfg, n, np, inkey, st);
    var key := if inkey.None? then "" else Replaced(inkey.value, cfg.inSep, cfg.outSep);
    var lab := if cfg.showKeys then Replaced(np, cfg.inSep, cfg.outSep) + key + "=" else "";
    match n
    case Null => assert Lead(st) + TextValue(cfg, n, lab) + Ending(cfg) == Lead(st) + Ending(cfg);
    case Object(_) => Regroup(Lead(st), lab, "{object}", Ending(cfg));
    case Array(_) => Regroup(Lead(st), lab, "[array]", Ending(cfg));
    case Userdata => Regroup(Lead(st), lab, "{userdata}", Ending(cfg));
    case _ =>
  }

  /** A record's parts, grouped either way. */
  lemma Regroup(lead: string, lab: string, text: string, ending: string)
    ensures lead + (lab + text) + ending == lead + lab + text + ending
  {
  }

  /** The record of a present node: the leading space, the value text after
      the label, and the ending. */
  lemma KeyedRecord(cfg: Config, n: Node, np: string, inkey: Option<string>, st: St)
    ensures var key := if inkey.None? then "" else Replaced(inkey.value, cfg.inSep, cfg.outSep);
      var lab := if cfg.showKeys then Replaced(np, cfg.inSep, cfg.outSep) + key + "=" else "";
      LastRecord(OutputKey(cfg, Some(n), np, inkey, st)) == Lead(st) + TextValue(cfg, n, lab) + Ending(cfg)
  {
    assert Replaced("", cfg.inSep, cfg.outSep) == "";
  }

  // ---------------------------------------------------------------------
  // Properties of output_chunk

  /** In text mode output_chunk is output_key on the rewritten nodepath and
      key; output_key's own rewrite then changes nothing more. */
  lemma ChunkTextIsOutputKey(cfg: Config, n: Option<Node>, np: string, inkey: string, st: St)
    requires cfg.outputType.Text?
    ensures OutputChunk(cfg, n, np, inkey, st) ==
      OutputKey(cfg, n, ChunkPath(cfg, np), Some(Replaced(inkey, cfg.inSep, cfg.outSep)), st)
    ensures OutputChunk(cfg, n, np, inkey, st).np == ChunkPath(cfg, np)
  {
  }

  /** Every input separator in the nodepath becomes the output separator,
      after '.' became '_' in shell-variable mode; nothing else changes. */
  lemma ChunkPathCharacters(cfg: Config, np: string)
    ensures forall i :: 0 <= i < |np| ==>
      var c := if cfg.shvars && np[i] == '.' then '_' else np[i];
      ChunkPath(cfg, np)[i] == (if c == cfg.inSep then cfg.outSep else c)
  {
  }

  /** A structured record carries the `nodepath key =` lab exactly when
      keys are on and the key is not empty, and then the emitted text. */
  lemma StructuredLabel(cfg: Config, n: Option<Node>, np: string, inkey: string, st: St)
    requires !cfg.outputType.Text? && !cfg.outputType.Invalid?
    ensures var key := Replaced(inkey, cfg.inSep, cfg.outSep);
      var result := cfg.emit(n, cfg.outputType);
      LastRecord(OutputChunk(cfg, n, np, inkey, st)) ==
        (if cfg.showKeys && |inkey| > 0 then ChunkPath(cfg, np) + key + "=" else "") + result +
        StructuredEnding(cfg, result)
  {
  }

  /** UCL and JSON records end in a newline, added only when the emitted
      text lacks one; compact JSON, YAML and msgpack always get one more;
      nonewline mode adds none and clears `firstline`. */
  lemma StructuredNewline(cfg: Config, result: string)
    ensures cfg.nonewline ==> StructuredEnding(cfg, result) == ""
    ensures !cfg.nonewline && (cfg.outputType.JsonCompact? || cfg.outputType.Yaml? || cfg.outputType.Msgpack?) ==>
      StructuredEnding(cfg, result) == "\n"
    ensures !cfg.nonewline && (cfg.outputType.Ucl? || cfg.outputType.Json?) ==>
      (result + StructuredEnding(cfg, result))[|result + StructuredEnding(cfg, result)| - 1] == '\n' &&
      (StructuredEnding(cfg, result) == "" <==> |result| > 0 && result[|result| - 1] == '\n')
  {
  }

  // ---------------------------------------------------------------------
  // The writing calls

  /** output_key, writing to the sink. */
  method WriteKey(cfg: Config, n: Option<Node>, np: string, inkey: Option<string>, s: Sink)
    returns (np': string)
    modifies s
    ensures Rendered(s.State(), np') == OutputKey(cfg, n, np, inkey, old(s.State()))
  {
    np' := Replaced(np, cfg.inSep, cfg.outSep);
    var key := Replaced(if inkey.None? then "" else inkey.value, cfg.inSep, cfg.outSep);
    var lead := if s.firstline then "" else " ";
    var lab := Label(cfg, np', key);
    var body := if n.None? then lab + "null" else TextValue(cfg, n.value, lab);
    s.Write(cfg, lead + body + Ending(cfg));
  }

  /** output_chunk, writing to the sink. */
  method WriteChunk(cfg: Config, n: Option<Node>, np: string, inkey: string, s: Sink)
    returns (np': string)
    modifies s
    ensures Rendered(s.State(), np') == OutputChunk(cfg, n, np, inkey, old(s.State()))
  {
    var np1 := if cfg.shvars then Replaced(np, '.', '_') else np;
    var np2 := Replaced(np1, cfg.inSep, cfg.outSep);
    var key := Replaced(inkey, cfg.inSep, cfg.outSep);
    match cfg.outputType
    case Text =>
      ReplacedIdempotent(np1, cfg.inSep, cfg.outSep);
      np' := WriteKey(cfg, n, np2, Some(key), s);
    case Invalid(_) =>
      np' := np2;
    case _ =>
      var result := cfg.emit(n, cfg.outputType);
      var lab := if cfg.showKeys && |key| > 0 then np2 + key + "=" else "";
      s.Write(cfg, lab + result + StructuredEnding(cfg, result));
      np' := np2;
  }
}
