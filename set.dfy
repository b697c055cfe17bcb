/** set_mode: build the new value from the inline data (or an include file,
    or stdin), insist that it has the requested type, then attach it to the
    parent of the destination path, appending or inserting when the target
    does not exist yet and replacing it when it does.

    Assumed behaviour of libucl (not part of this model), beyond Library's:
    - ucl_object_fromstring_common with a parse flag is the parameter
      `sugar` of Parsers, and with UCL_STRING_RAW it makes a string of the
      text as it is;
    - ucl_object_fromdouble(strtod(data)) keeps the text, floating point
      not being modelled; ucl_object_type(NULL) is UCL_NULL;
    - ucl_object_insert_key refuses a NULL value and a target that is
      neither an object nor null before it reads the key. */
module SetCmd {
  import opened Libc
  import opened Tree
  import opened Common
  import opened Library

  /** The parsers set_mode hands text to: the include file's tree, stdin's
      tree, parse_string, and ucl_object_fromstring_common with the parse
      flags of a kind. */
  datatype Parsers = Parsers(
    fileValue: Option<Node>,
    stdinValue: Option<Node>,
    parseString: string -> Option<Node>,
    sugar: (string, Kind) -> Option<Node>)

  /** How a set ends: an exit status, set_mode's result, or a crash on an
      invalid pointer. */
  datatype SetOutcome = Exited(code: int) | Finished(success: bool) | Crashed

  /** ucl_object_type, NULL being of type null. */
  function KindOrNull(v: Option<Node>): Kind
  {
    if v.None? then KNull else KindOf(v.value)
  }

  /** The want_type switch on inline data: let the library parse the text,
      and force the kind when that does not give it. */
  function Coerce(want: Kind, data: string, ps: Parsers): (r: Option<Node>)
    ensures want == KInt ==> r.Some? && r.value.Int?
    ensures want == KFloat ==> r.Some? && r.value.Float?
    ensures want == KString ==> r == Some(Str(data))
    ensures want == KBoolean ==> r.Some? && r.value.Bool?
    ensures want == KTime ==> KindOrNull(r) in {KTime, KInt, KFloat}
    ensures want in {KObject, KArray, KUserdata, KNull} ==> r == ps.parseString(data)
  {
    match want
    case KInt =>
      var p := ps.sugar(data, KInt);
      if KindOrNull(p) == KInt then p else Some(Int(Strtoimax(data, 0)))
    case KFloat =>
      var p := ps.sugar(data, KFloat);
      if KindOrNull(p) == KFloat then p else Some(Float(data))
    case KString => Some(Str(data))
    case KBoolean =>
      var p := ps.sugar(data, KBoolean);
      if KindOrNull(p) == KBoolean then p else Some(Bool(|data| != 0))
    case KTime =>
      var p := ps.sugar(data, KTime);
      if KindOrNull(p) in {KTime, KInt, KFloat} then p else Some(Time(data))
    case _ => ps.parseString(data)
  }

  /** Where the value comes from: the include file, stdin for no data or
      "-", otherwise the inline data. */
  function NewValue(includeFile: bool, data: Option<string>, want: Kind, ps: Parsers): (r: Option<Node>)
    ensures includeFile ==> r == ps.fileValue
    ensures !includeFile && (data.None? || data.value == "-") ==> r == ps.stdinValue
    ensures !includeFile && data.Some? && data.value != "-" ==> r == Coerce(want, data.value, ps)
  {
    if includeFile then ps.fileValue
    else if data.None? || data.value == "-" then ps.stdinValue
    else Coerce(want, data.value, ps)
  }

  /** The exact-type check, waived only for a request of type null. */
  predicate Mismatch(want: Kind, v: Option<Node>)
  {
    want != KNull && KindOrNull(v) != want
  }

  // ---------------------------------------------------------------------
  // Attaching the value

  /** strrchr(path, sep) + 1: the text after the last separator, or no
      string at all when there is no separator. */
  function AfterLast(path: string, sep: char): (r: Option<string>)
    ensures r.None? <==> sep !in path
    ensures r.Some? ==> sep !in r.value && |r.value| < |path|
    ensures r.Some? ==> path[|path| - |r.value| - 1] == sep && path[|path| - |r.value|..] == r.value
  {
    match LastIndexOf(path, sep)
    case None => None
    case Some(i) => Some(path[i + 1..])
  }

  /** ucl_array_replace_index at the parent, successful only when an
      element was displaced. */
  function ReplaceIndexAt(root: Node, p: Loc, v: Option<Node>, idx: nat): (r: (Node, SetOutcome))
    requires ValidLoc(root, p) && At(root, p).Array?
    ensures r.1 == Finished(v.Some? && idx < |At(root, p).elems|)
    ensures r.1 == Finished(false) ==> r.0 == root
    ensures r.1 == Finished(true) ==> r.0 == ReplaceAt(root, p, Array(At(root, p).elems[idx := v.value]))
  {
    if v.None? then (root, Finished(false))
    else
      var (a, displaced) := ArrayReplaceIndex(At(root, p), v.value, idx);
      if displaced.None? then (root, Finished(false)) else (ReplaceAt(root, p, a), Finished(true))
  }

  /** A libucl change made to the parent, put back into the tree. */
  function ChangeAt(root: Node, p: Loc, c: Change): (r: (Node, SetOutcome))
    requires ValidLoc(root, p)
  {
    (ReplaceAt(root, p, c.node), Finished(c.ok))
  }

  /** The attach step as the code reads: under an array the index is read
      with strtoul base 0, and a path without a separator inserts under
      the key strrchr's NULL + 1 points at. */
  function AttachAsWritten(root: Node, path: string, sep: char, v: Option<Node>): (r: (Node, SetOutcome))
    ensures GetParent(root, path, sep).None? ==> r == (root, Finished(false))
    ensures r.1.Crashed? ==> v.Some? && AfterLast(path, sep).None?
  {
    var dst := GetParent(root, path, sep);
    var sub := GetObject(root, path, sep);
    if dst.None? then (root, Finished(false))
    else
      var p := dst.value;
      var top := At(root, p);
      var frag := AfterLast(path, sep);
      if top.Array? then
        if sub == dst then ChangeAt(root, p, ArrayAppend(top, v))
        else
          // there is a separator here: a path without one selects the parent
          var text := if frag.Some? then frag.value else "";
          ReplaceIndexAt(root, p, v, Strtoul(text, 0) % 0x1_0000_0000)
      else if sub == dst then
        if frag.Some? then ChangeAt(root, p, InsertKey(top, frag, v))
        else if v.Some? && ObjectView(top).Some? then (root, Crashed)
        else (root, Finished(false))
      else ChangeAt(root, p, ReplaceKey(top, KeyAt(root, sub.value), v))
  }

  /** The attach step with the index read as get_object read it (base 10)
      and, without a separator, the whole path as the key. */
  function Attach(root: Node, path: string, sep: char, v: Option<Node>): (r: (Node, SetOutcome))
    ensures r.1.Finished?
    ensures GetParent(root, path, sep).None? ==> r == (root, Finished(false))
  {
    var dst := GetParent(root, path, sep);
    var sub := GetObject(root, path, sep);
    if dst.None? then (root, Finished(false))
    else
      var p := dst.value;
      var top := At(root, p);
      var frag := SplitPath(path, sep).frag;
      if top.Array? then
        if sub == dst then ChangeAt(root, p, ArrayAppend(top, v))
        else ReplaceIndexAt(root, p, v, ArrayIndexOf(frag))
      else if sub == dst then ChangeAt(root, p, InsertKey(top, Some(frag), v))
      else ChangeAt(root, p, ReplaceKey(top, KeyAt(root, sub.value), v))
  }

  /** set_mode: exit 6 on a value of the wrong type, otherwise attach it. */
  function SetSpec(root: Node, path: string, sep: char, includeFile: bool, data: Option<string>, want: Kind,
                   ps: Parsers): (r: (Node, SetOutcome))
    ensures r.1.Exited? <==> Mismatch(want, NewValue(includeFile, data, want, ps))
    ensures r.1.Exited? ==> r == (root, Exited(6))
  {
    var v := NewValue(includeFile, data, want, ps);
    if Mismatch(want, v) then (root, Exited(6)) else Attach(root, path, sep, v)
  }

  /** set_mode on the document. */
  method SetMode(d: Document, path: string, sep: char, includeFile: bool, data: Option<string>, want: Kind,
                 ps: Parsers) returns (o: SetOutcome)
    modifies d
    ensures (d.root, o) == SetSpec(old(d.root), path, sep, includeFile, data, want, ps)
  {
    var dst := GetParent(d.root, path, sep);
    var sub := GetObject(d.root, path, sep);
    var setObj := NewValue(includeFile, data, want, ps);
    if want != KNull && KindOrNull(setObj) != want {
      return Exited(6);
    }
    var frag := SplitPath(path, sep).frag;
    if dst.None? {
      // ucl_object_insert_key and ucl_object_replace_key refuse NULL
      return Finished(false);
    }
    var p := dst.value;
    var top := At(d.root, p);
    if top.Array? {
      if sub == dst {
        var c := ArrayAppend(top, setObj);
        d.Put(p, c.node);
        o := Finished(c.ok);
      } else {
        o := Finished(false);
        if setObj.Some? {
          var (a, oldObj) := ArrayReplaceIndex(top, setObj.value, ArrayIndexOf(frag));
          if oldObj.Some? {
            d.Put(p, a);
            o := Finished(true);
          }
        }
      }
    } else {
      var c;
      if sub == dst {
        c := InsertKey(top, Some(frag), setObj);
      } else {
        c := ReplaceKey(top, KeyAt(d.root, sub.value), setObj);
      }
      d.Put(p, c.node);
      o := Finished(c.ok);
    }
  }

  // ---------------------------------------------------------------------
  // The value

  /** An int request always gives an int: the parse, or strtoimax base 0. */
  lemma IntRequestFallsBack(data: string, ps: Parsers)
    requires KindOrNull(ps.sugar(data, KInt)) != KInt
    ensures Coerce(KInt, data, ps) == Some(Int(Strtoimax(data, 0)))
  {
  }

  /** A boolean request that does not parse as one is false for empty text
      and true for anything else. */
  lemma BooleanRequestFallsBack(data: string, ps: Parsers)
    requires KindOrNull(ps.sugar(data, KBoolean)) != KBoolean
    ensures Coerce(KBoolean, data, ps) == Some(Bool(data != ""))
  {
  }

  /** The requests whose coercion always gives the requested kind never
      fail the type check on inline data. */
  lemma ForcedKindsPassCheck(data: string, want: Kind, ps: Parsers)
    requires want in {KInt, KFloat, KString, KBoolean}
    ensures !Mismatch(want, Coerce(want, data, ps))
  {
  }

  /** A time request that parses as a number keeps the number, which then
      fails the exact-type check: exit 6, nothing changed. */
  lemma TimeRequestRejectsNumbers(root: Node, path: string, sep: char, data: string, ps: Parsers)
    requires data != "-"
    requires KindOrNull(ps.sugar(data, KTime)) in {KInt, KFloat}
    ensures SetSpec(root, path, sep, false, Some(data), KTime, ps) == (root, Exited(6))
  {
  }

  /** With the default request (string), a file or stdin that holds
      anything but a string is refused with exit 6. */
  lemma DefaultRequestChecksParsedInput(root: Node, path: string, sep: char, includeFile: bool, data: Option<string>,
                                        ps: Parsers)
    requires includeFile || data.None? || data.value == "-"
    requires KindOrNull(if includeFile then ps.fileValue else ps.stdinValue) != KString
    ensures SetSpec(root, path, sep, includeFile, data, KString, ps) == (root, Exited(6))
  {
  }

  // ---------------------------------------------------------------------
  // The attach step

  /** A target that exists is replaced in place: under an array by index,
      under an object by its key. Either way the new value is what the path
      now selects, and the set succeeds. */
  lemma AttachReplacesTarget(root: Node, path: string, sep: char, x: Node)
    requires GetParent(root, path, sep).Some?
    requires GetObject(root, path, sep) != GetParent(root, path, sep)
    ensures var r := Attach(root, path, sep, Some(x));
      var sub := GetObject(root, path, sep).value;
      r.1 == Finished(true) && ValidLoc(r.0, sub) && At(r.0, sub) == x
  {
    var p := GetParent(root, path, sep).value;
    var sub := GetObject(root, path, sep).value;
    GetObjectBelowParent(root, path, sep);
    var top := At(root, p);
    var s := sub[|p|];
    assert sub == p + [s];
    LocAppend(root, p, s);
    var frag := SplitPath(path, sep).frag;
    var r := Attach(root, path, sep, Some(x));
    var a;
    if top.Array? {
      a := Array(top.elems[s.i := x]);
      assert r.0 == ReplaceAt(root, p, a);
    } else {
      var k := KeyAt(root, sub);
      assert k == Some(top.entries[s.e].key) by {
        assert sub[..|sub| - 1] == p;
      }
      FindKeyFirst(top.entries, s.e);
      a := ReplaceKey(top, k, Some(x)).node;
      assert r.0 == ReplaceAt(root, p, a);
    }
    AtReplaceAt(root, p, a);
    LocAppend(r.0, p, s);
  }

  /** ucl_object_find_key found entry `e`, so `e` holds the first copy of its
      key. */
  lemma FindKeyFirst(es: seq<Entry>, e: nat)
    requires e < |es| && FindKey(es, es[e].key) == Some(e)
    ensures Values(es, es[e].key) == [es[e].head] + es[e].more
  {
  }

  /** A target that does not exist yet under an array is appended at its
      end, the elements before it untouched. */
  lemma AttachAppendsToArray(root: Node, path: string, sep: char, x: Node)
    requires GetParent(root, path, sep).Some?
    requires GetObject(root, path, sep) == GetParent(root, path, sep)
    requires At(root, GetParent(root, path, sep).value).Array?
    ensures var p := GetParent(root, path, sep).value;
      var r := Attach(root, path, sep, Some(x));
      r.1 == Finished(true) && ValidLoc(r.0, p) && At(r.0, p) == Array(At(root, p).elems + [x])
  {
    var p := GetParent(root, path, sep).value;
    AtReplaceAt(root, p, Array(At(root, p).elems + [x]));
  }

  /** A target that does not exist yet under an object is inserted under the
      fragment, after whatever that key held; the other keys keep their
      values. */
  lemma AttachInsertsIntoObject(root: Node, path: string, sep: char, x: Node)
    requires GetParent(root, path, sep).Some?
    requires GetObject(root, path, sep) == GetParent(root, path, sep)
    requires At(root, GetParent(root, path, sep).value).Object?
    ensures var p := GetParent(root, path, sep).value;
      var k := SplitPath(path, sep).frag;
      var r := Attach(root, path, sep, Some(x));
      r.1 == Finished(true) && ValidLoc(r.0, p) && At(r.0, p).Object? &&
      Values(At(r.0, p).entries, k) == Values(At(root, p).entries, k) + [x] &&
      forall k' :: k' != k ==> Values(At(r.0, p).entries, k') == Values(At(root, p).entries, k')
  {
    var p := GetParent(root, path, sep).value;
    var k := SplitPath(path, sep).frag;
    AtReplaceAt(root, p, InsertKey(At(root, p), Some(k), Some(x)).node);
  }

  /** The document method does what SetSpec says, so these hold of it too;
      a refused value leaves the document alone. */
  lemma MismatchLeavesDocument(root: Node, path: string, sep: char, includeFile: bool, data: Option<string>,
                               want: Kind, ps: Parsers)
    requires Mismatch(want, NewValue(includeFile, data, want, ps))
    ensures SetSpec(root, path, sep, includeFile, data, want, ps).0 == root
  {
  }

  // ---------------------------------------------------------------------
  // Where the code as written differs

  /** The ints 0 to 10. */
  function Ints(): seq<Node>
  {
    [Int(0), Int(1), Int(2), Int(3), Int(4), Int(5), Int(6), Int(7), Int(8), Int(9), Int(10)]
  }

  /** An object holding the array Ints() under "a". */
  function ElevenInts(): Node
  {
    Object([Entry("a", Array(Ints()), [])])
  }

  /** "a.010" splits at its one separator. */
  lemma OctalPathSplits()
    ensures SplitPath("a.010", '.') == PathSplit(Some("a"), "010")
    ensures AfterLast("a.010", '.') == Some("010")
  {
    var s := "a.010";
    assert s[1] == '.';
    assert forall i :: 0 <= i < |s| && i != 1 ==> s[i] != '.';
    assert LastIndexOf(s, '.') == Some(1);
    assert s[..1] == "a";
    assert s[2..] == "010";
  }

  /** "a" resolves to the array under the root's first entry. */
  lemma OctalPrefixResolves()
    ensures LookupLoc(ElevenInts(), "a", '.') == Some([Member(0)])
  {
    SplitOnSingle("a", '.');
    assert NonEmpty(["a"]) == ["a"] + NonEmpty([]);
    assert Segments("a", '.') == ["a"];
    var root := ElevenInts();
    assert FindKey(root.entries, "a") == Some(0);
    assert Descend(root, "a") == Some(Member(0));
    assert LookupSegs(Child(root, Member(0)), ["a"][1..]) == Some([]);
    assert [Member(0)] + [] == [Member(0)];
  }

  /** get_object reads "010" as 10. */
  lemma OctalTextIndex()
    ensures ArrayIndexOf("010") == 10
    ensures Strtoul("010", 0) % 0x1_0000_0000 == 8
  {
    StrtoulOctalPrefix();
    SmallMod(Strtoul("010", 10));
    SmallMod(Strtoul("010", 0));
  }

  lemma SmallMod(x: nat)
    requires x < 0x1_0000_0000
    ensures x % 0x1_0000_0000 == x
  {
  }

  /** "a.010" has the array under "a" as its parent. */
  lemma OctalParent()
    ensures GetParent(ElevenInts(), "a.010", '.') == Some([Member(0)])
  {
    OctalPathSplits();
    OctalPrefixResolves();
  }

  /** When the parent resolves and the fragment takes a step from it,
      get_object is that step below the parent. */
  lemma GetObjectSteps(root: Node, path: string, sep: char, p: Loc, s: Step)
    requires SplitPath(path, sep).prefix.Some?
    requires GetParent(root, path, sep) == Some(p)
    requires FragmentStep(At(root, p), SplitPath(path, sep).frag) == Some(s)
    ensures GetObject(root, path, sep) == Some(p + [s])
  {
  }

  lemma MemberThenIndex(e: nat, i: nat)
    ensures [Member(e)] + [Index(i)] == [Member(e), Index(i)]
  {
  }

  /** Element 10 of that array is what the fragment "010" selects. */
  lemma OctalFragmentStep()
    ensures At(ElevenInts(), [Member(0)]) == Array(Ints())
    ensures FragmentStep(Array(Ints()), "010") == Some(Index(10))
  {
    OctalTextIndex();
    assert |Ints()| == 11;
  }

  /** The facts about "a.010" below ElevenInts() that get_object combines. */
  lemma OctalPathParts(root: Node, path: string)
    requires root == ElevenInts() && path == "a.010"
    ensures SplitPath(path, '.').prefix.Some?
    ensures GetParent(root, path, '.') == Some([Member(0)])
    ensures FragmentStep(At(root, [Member(0)]), SplitPath(path, '.').frag) == Some(Index(10))
  {
    OctalParent();
    OctalPathSplits();
    OctalFragmentStep();
  }

  /** Replacing element i of the array under the root's one entry "a". */
  lemma ReplaceUnderA(elems: seq<Node>, x: Node, i: nat)
    requires i < |elems|
    ensures var root := Object([Entry("a", Array(elems), [])]);
      ValidLoc(root, [Member(0)]) && At(root, [Member(0)]).Array? &&
      ReplaceIndexAt(root, [Member(0)], Some(x), i) == (Object([Entry("a", Array(elems[i := x]), [])]), Finished(true))
  {
    var root := Object([Entry("a", Array(elems), [])]);
    var y := Array(elems[i := x]);
    assert ValidLoc(Child(root, Member(0)), [Member(0)][1..]);
    assert ReplaceAt(Child(root, Member(0)), [Member(0)][1..], y) == y;
    assert root.entries[0 := root.entries[0].(head := y)] == [Entry("a", y, [])];
  }

  /** Below an array parent, with the path naming an element, the code as
      written replaces the element strtoul(frag, NULL, 0) names. */
  lemma AsWrittenIndexBaseZero(root: Node, path: string, sep: char, v: Option<Node>)
    requires GetParent(root, path, sep).Some?
    requires At(root, GetParent(root, path, sep).value).Array?
    requires GetObject(root, path, sep) != GetParent(root, path, sep)
    ensures AfterLast(path, sep).Some?
    ensures AttachAsWritten(root, path, sep, v) ==
      ReplaceIndexAt(root, GetParent(root, path, sep).value, v, Strtoul(AfterLast(path, sep).value, 0) % 0x1_0000_0000)
  {
    assert SplitPath(path, sep).prefix.Some?;
  }

  /** ... while the corrected attach replaces the element get_object
      selected, read base 10. */
  lemma CorrectedIndexBaseTen(root: Node, path: string, sep: char, v: Option<Node>)
    requires GetParent(root, path, sep).Some?
    requires At(root, GetParent(root, path, sep).value).Array?
    requires GetObject(root, path, sep) != GetParent(root, path, sep)
    ensures Attach(root, path, sep, v) ==
      ReplaceIndexAt(root, GetParent(root, path, sep).value, v, ArrayIndexOf(SplitPath(path, sep).frag))
  {
  }

  /** The facts the two octal examples share. */
  lemma OctalAttachFacts()
    ensures GetParent(ElevenInts(), "a.010", '.') == Some([Member(0)])
    ensures At(ElevenInts(), [Member(0)]) == Array(Ints())
    ensures GetObject(ElevenInts(), "a.010", '.') == Some([Member(0), Index(10)])
    ensures GetObject(ElevenInts(), "a.010", '.') != GetParent(ElevenInts(), "a.010", '.')
    ensures AfterLast("a.010", '.') == Some("010")
    ensures SplitPath("a.010", '.').frag == "010"
  {
    OctalPathParts(ElevenInts(), "a.010");
    GetObjectSteps(ElevenInts(), "a.010", '.', [Member(0)], Index(10));
    MemberThenIndex(0, 10);
    OctalPathSplits();
    OctalFragmentStep();
  }

  /** ... but the code as written replaces element 8 (strtoul base 0 reads
      "010" as octal) and leaves element 10 as it was. */
  lemma OctalIndexReplacesAnotherElement()
    ensures AttachAsWritten(ElevenInts(), "a.010", '.', Some(Str("x"))) ==
      (Object([Entry("a", Array(Ints()[8 := Str("x")]), [])]), Finished(true))
  {
    OctalAttachFacts();
    OctalTextIndex();
    AsWrittenIndexBaseZero(ElevenInts(), "a.010", '.', Some(Str("x")));
    ReplaceUnderA(Ints(), Str("x"), 8);
  }

  /** The corrected attach replaces the element the path selects. */
  lemma CorrectedIndexReplacesSelected()
    ensures Attach(ElevenInts(), "a.010", '.', Some(Str("x"))) ==
      (Object([Entry("a", Array(Ints()[10 := Str("x")]), [])]), Finished(true))
  {
    OctalAttachFacts();
    OctalTextIndex();
    CorrectedIndexBaseTen(ElevenInts(), "a.010", '.', Some(Str("x")));
    ReplaceUnderA(Ints(), Str("x"), 10);
  }

  /** A path without a separator under an object root: the code as written
      hands ucl_object_insert_key the pointer after strrchr's NULL, while
      the corrected attach inserts under the whole path. */
  lemma TopLevelKeyWithoutSeparator()
    ensures AttachAsWritten(Object([]), "k", '.', Some(Str("x"))) == (Object([]), Crashed)
    ensures Attach(Object([]), "k", '.', Some(Str("x"))) == (Object([Entry("k", Str("x"), [])]), Finished(true))
  {
    assert AfterLast("k", '.') == None;
    assert SplitPath("k", '.') == PathSplit(None, "k");
    var e := Entry("k", Str("x"), []);
    assert [] + [e] == [e];
    assert InsertKey(Object([]), Some("k"), Some(Str("x"))) == Change(Object([e]), true);
  }
}
