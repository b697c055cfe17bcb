/** The helpers every mode shares: separator rewriting, the kind-name table,
    resolving a delimiter-separated path to a parent and a target, and the
    space-separated key list that `recurse` prints as `_keys`. */
module Common {
  import opened Libc
  import opened Tree

  // ---------------------------------------------------------------------
  // replace_sep

  /** The text with every `oldsep` turned into `newsep`. */
  function Replaced(s: string, oldsep: char, newsep: char): (r: string)
    ensures |r| == |s|
    ensures forall i :: 0 <= i < |s| ==> r[i] == (if s[i] == oldsep then newsep else s[i])
  {
    seq(|s|, i requires 0 <= i < |s| => if s[i] == oldsep then newsep else s[i])
  }

  /** Rewriting with equal separators changes nothing; with different ones,
      no old separator is left and every other character stays. */
  lemma ReplacedEffect(s: string, oldsep: char, newsep: char)
    ensures oldsep == newsep ==> Replaced(s, oldsep, newsep) == s
    ensures oldsep != newsep ==> oldsep !in Replaced(s, oldsep, newsep)
    ensures forall i :: 0 <= i < |s| && s[i] != oldsep ==> Replaced(s, oldsep, newsep)[i] == s[i]
  {
    var r := Replaced(s, oldsep, newsep);
    if oldsep != newsep {
      forall i | 0 <= i < |r| ensures r[i] != oldsep { }
    }
  }

  /** Rewriting twice is rewriting once. */
  lemma ReplacedIdempotent(s: string, oldsep: char, newsep: char)
    ensures Replaced(Replaced(s, oldsep, newsep), oldsep, newsep) == Replaced(s, oldsep, newsep)
  {
  }

  /** The in-place loop of replace_sep, without its early return. */
  method Rewrite(key: array<char>, oldsep: char, newsep: char)
    modifies key
    ensures key[..] == Replaced(old(key[..]), oldsep, newsep)
  {
    var idx := 0;
    while idx < key.Length
      invariant 0 <= idx <= key.Length
      invariant key[..idx] == Replaced(old(key[..]), oldsep, newsep)[..idx]
      invariant key[idx..] == old(key[..])[idx..]
    {
      if key[idx] == oldsep {
        key[idx] := newsep;
      }
      idx := idx + 1;
    }
  }

  /** replace_sep(key, oldsep, newsep): the characters of a C string (the
      array holds them without the terminating NUL) rewritten in place. */
  method ReplaceSep(key: array<char>, oldsep: char, newsep: char)
    modifies key
    ensures key[..] == Replaced(old(key[..]), oldsep, newsep)
    ensures oldsep == newsep ==> unchanged(key)
  {
    if oldsep == newsep {
      ReplacedEffect(key[..], oldsep, newsep);
      return;
    }
    Rewrite(key, oldsep, newsep);
  }

  // ---------------------------------------------------------------------
  // type_as_string

  function KindName(k: Kind): (r: string)
    ensures |r| > 4 && r[..4] == "UCL_"
  {
    match k
    case KObject => "UCL_OBJECT"
    case KArray => "UCL_ARRAY"
    case KInt => "UCL_INT"
    case KFloat => "UCL_FLOAT"
    case KString => "UCL_STRING"
    case KBoolean => "UCL_BOOLEAN"
    case KTime => "UCL_TIME"
    case KUserdata => "UCL_USERDATA"
    case KNull => "UCL_NULL"
  }

  /** type_as_string: NULL for an absent node, the kind's name otherwise. */
  function TypeAsString(n: Option<Node>): (r: Option<string>)
    ensures r.None? <==> n.None?
    ensures r.Some? ==> r.value == KindName(KindOf(n.value))
  {
    if n.None? then None else Some(KindName(KindOf(n.value)))
  }

  /** The nine kinds get nine different names. */
  lemma KindNamesDistinct(a: Node, b: Node)
    ensures TypeAsString(Some(a)) == TypeAsString(Some(b)) <==> KindOf(a) == KindOf(b)
  {
    var x, y := KindName(KindOf(a)), KindName(KindOf(b));
    if KindOf(a) != KindOf(b) {
      assert |x| != |y| || x[4] != y[4] || x[5] != y[5];
    }
  }

  // ---------------------------------------------------------------------
  // get_parent and get_object

  /** How a path splits at its last separator: with no separator the whole
      (a lone separator counting as empty) is the fragment and there is no
      prefix. */
  datatype PathSplit = PathSplit(prefix: Option<string>, frag: string)

  function SplitPath(path: string, sep: char): (r: PathSplit)
    ensures sep !in r.frag
    ensures r.prefix.None? <==> sep !in path || path == [sep]
    ensures r.prefix.None? ==> r.frag == (if path == [sep] then "" else path)
    ensures r.prefix.Some? ==> path == r.prefix.value + [sep] + r.frag
  {
    var key := if path == [sep] then "" else path;
    match LastIndexOf(key, sep)
    case None => PathSplit(None, key)
    case Some(i) =>
      assert key == key[..i] + [sep] + key[i + 1..];
      PathSplit(Some(key[..i]), key[i + 1..])
  }

  /** get_parent: the root for a path without a separator, otherwise what
      the prefix resolves to from the root (NULL when it does not). */
  function GetParent(root: Node, path: string, sep: char): (r: Option<Loc>)
    ensures r.Some? ==> ValidLoc(root, r.value)
    ensures SplitPath(path, sep).prefix.None? ==> r == Some([])
    ensures SplitPath(path, sep).prefix.Some? ==> r == LookupLoc(root, SplitPath(path, sep).prefix.value, sep)
  {
    var sp := SplitPath(path, sep);
    if sp.prefix.None? then Some([]) else LookupLoc(root, sp.prefix.value, sep)
  }

  /** The step get_object takes from the parent for a fragment: under an
      array the element at strtoul(frag, 10), under an object the key, and
      nothing when that is missing or the parent is neither. */
  function FragmentStep(parent: Node, frag: string): (r: Option<Step>)
    ensures r.Some? ==> ValidStep(parent, r.value)
    ensures parent.Array? ==> (r.Some? <==> ArrayIndexOf(frag) < |parent.elems|)
    ensures parent.Array? && r.Some? ==> r.value == Index(ArrayIndexOf(frag))
    ensures parent.Object? ==> (r.Some? <==> FindKey(parent.entries, frag).Some?)
    ensures parent.Object? && r.Some? ==> r.value == Member(FindKey(parent.entries, frag).value)
    ensures !IsCompound(parent) ==> r.None?
  {
    match parent
    case Array(xs) => if ArrayIndexOf(frag) < |xs| then Some(Index(ArrayIndexOf(frag))) else None
    case Object(es) =>
      (match FindKey(es, frag)
       case Some(e) => Some(Member(e))
       case None => None)
    case _ => None
  }

  /** get_object: NULL exactly when the parent does not resolve; the parent
      itself when there is no separator or the fragment finds nothing; the
      child one step below the parent otherwise. */
  function GetObject(root: Node, path: string, sep: char): (r: Option<Loc>)
    ensures r.None? <==> GetParent(root, path, sep).None?
    ensures r.Some? ==> ValidLoc(root, r.value)
    ensures SplitPath(path, sep).prefix.None? ==> r == Some([])
    ensures r.Some? && SplitPath(path, sep).prefix.Some? ==>
      var p := GetParent(root, path, sep).value;
      var s := FragmentStep(At(root, p), SplitPath(path, sep).frag);
      r.value == (if s.Some? then p + [s.value] else p)
  {
    var sp := SplitPath(path, sep);
    if sp.prefix.None? then Some([])
    else match GetParent(root, path, sep)
      case None => None
      case Some(p) =>
        match FragmentStep(At(root, p), sp.frag)
        case None => Some(p)
        case Some(s) =>
          LocAppend(root, p, s);
          Some(p + [s])
  }

  /** A path that is a lone separator or has no separator names the root,
      as its own parent. */
  lemma GetObjectWithoutSeparator(root: Node, path: string, sep: char)
    requires sep !in path || path == [sep]
    ensures GetParent(root, path, sep) == Some([])
    ensures GetObject(root, path, sep) == Some([])
  {
  }

  /** Under an array a fragment that is not a number reads as index 0. */
  lemma NonNumericFragmentIsIndexZero(frag: string)
    requires |frag| == 0 || (!IsDigit(frag[0]) && !IsSpace(frag[0]) && frag[0] != '+' && frag[0] != '-')
    ensures ArrayIndexOf(frag) == 0
  {
    StrtoulNonNumeric(frag, 10);
  }

  /** A target different from its parent is exactly one step below it, and
      is found by its key or index. */
  lemma GetObjectBelowParent(root: Node, path: string, sep: char)
    requires GetObject(root, path, sep).Some?
    requires GetObject(root, path, sep) != GetParent(root, path, sep)
    ensures var p := GetParent(root, path, sep).value;
      var o := GetObject(root, path, sep).value;
      |o| == |p| + 1 && o[..|p|] == p &&
      FragmentStep(At(root, p), SplitPath(path, sep).frag) == Some(o[|p|])
  {
    var p := GetParent(root, path, sep).value;
    var o := GetObject(root, path, sep).value;
    var s := FragmentStep(At(root, p), SplitPath(path, sep).frag);
    if s.Some? {
      assert o == p + [s.value];
      assert o[..|p|] == p;
    }
  }

  // ---------------------------------------------------------------------
  // expand_subkeys

  /** The capacity of the buffer expand_subkeys fills. */
  const BUFSIZE: nat := 1024

  /** The keys of the children that have one, in order. */
  function PresentKeys(cs: seq<Handle>): (r: seq<string>)
    ensures |r| <= |cs|
  {
    if |cs| == 0 then []
    else (if cs[0].key.Some? then [cs[0].key.value] else []) + PresentKeys(cs[1..])
  }

  /** The present keys are exactly the keys the children hold: keyless
      children are skipped and no key is invented. */
  lemma {:induction false} PresentKeysAreKeys(cs: seq<Handle>)
    ensures forall k :: k in PresentKeys(cs) <==> exists i :: 0 <= i < |cs| && cs[i].key == Some(k)
  {
    if |cs| > 0 {
      PresentKeysAreKeys(cs[1..]);
      forall k | k in PresentKeys(cs)
        ensures exists i :: 0 <= i < |cs| && cs[i].key == Some(k)
      {
        if k !in PresentKeys(cs[1..]) {
          assert cs[0].key == Some(k);
        } else {
          var i :| 0 <= i < |cs[1..]| && cs[1..][i].key == Some(k);
          assert cs[i + 1].key == Some(k);
        }
      }
      forall k | exists i :: 0 <= i < |cs| && cs[i].key == Some(k)
        ensures k in PresentKeys(cs)
      {
        var i :| 0 <= i < |cs| && cs[i].key == Some(k);
        if i > 0 {
          assert cs[1..][i - 1].key == Some(k);
        }
      }
    }
  }

  /** `ks` appended to `result`, each after a space unless it is the first
      key (`count` says how many keys `result` already holds). */
  function AppendKeys(result: string, count: nat, ks: seq<string>): (r: string)
    ensures |r| >= |result|
    decreases |ks|
  {
    if |ks| == 0 then result
    else AppendKeys(result + (if count > 0 then " " else "") + ks[0], count + 1, ks[1..])
  }

  /** The keys joined with single spaces. */
  function JoinKeys(ks: seq<string>): string
  {
    AppendKeys("", 0, ks)
  }

  /** The list expand_subkeys builds, with the room check that also counts
      the space before the key: a key is added only if the text, the space
      and the key leave room for " ..." and the NUL. */
  function SubkeysFrom(cs: seq<Handle>, result: string, count: nat): (r: string)
    requires |result| <= BUFSIZE - 5
    ensures |r| <= BUFSIZE - 1
    decreases |cs|
  {
    if |cs| == 0 then result
    else match cs[0].key
      case None => SubkeysFrom(cs[1..], result, count)
      case Some(k) =>
        if |result| + (if count > 0 then 1 else 0) + |k| > BUFSIZE - 5 then result + " ..."
        else SubkeysFrom(cs[1..], result + (if count > 0 then " " else "") + k, count + 1)
  }

  /** expand_subkeys(obj): "" for an absent node, the key list otherwise. */
  function Subkeys(obj: Option<Handle>): (r: string)
    ensures |r| < BUFSIZE
    ensures obj.None? ==> r == ""
  {
    SubkeysFrom(OptChildren(obj), "", 0)
  }

  /** When every key fits, the list is the keys of the children that have
      one, in order, joined with single spaces. */
  lemma {:induction false} SubkeysJoin(cs: seq<Handle>, result: string, count: nat)
    requires |result| <= BUFSIZE - 5
    requires |AppendKeys(result, count, PresentKeys(cs))| <= BUFSIZE - 5
    ensures SubkeysFrom(cs, result, count) == AppendKeys(result, count, PresentKeys(cs))
    decreases |cs|
  {
    if |cs| > 0 {
      assert PresentKeys(cs) == (if cs[0].key.Some? then [cs[0].key.value] else []) + PresentKeys(cs[1..]);
      match cs[0].key
      case None =>
        assert PresentKeys(cs) == PresentKeys(cs[1..]);
        SubkeysJoin(cs[1..], result, count);
      case Some(k) =>
        var ks := PresentKeys(cs);
        assert ks[0] == k && ks[1..] == PresentKeys(cs[1..]);
        var next := result + (if count > 0 then " " else "") + k;
        assert AppendKeys(result, count, ks) == AppendKeys(next, count + 1, ks[1..]);
        SubkeysJoin(cs[1..], next, count + 1);
    }
  }

  lemma SubkeysOfObject(obj: Handle)
    requires |JoinKeys(PresentKeys(Children(obj)))| <= BUFSIZE - 5
    ensures Subkeys(Some(obj)) == JoinKeys(PresentKeys(Children(obj)))
  {
    SubkeysJoin(Children(obj), "", 0);
  }

  /** strcat into a buffer: the text grows by `s`, and there is room for it
      and the NUL. */
  method Strcat(buf: array<char>, len: nat, s: string) returns (newlen: nat)
    requires len + |s| < buf.Length
    modifies buf
    ensures newlen == len + |s|
    ensures buf[..newlen] == old(buf[..len]) + s
  {
    var j := 0;
    while j < |s|
      invariant 0 <= j <= |s|
      invariant buf[..len + j] == old(buf[..len]) + s[..j]
    {
      buf[len + j] := s[j];
      j := j + 1;
    }
    newlen := len + |s|;
  }

  /** expand_subkeys with the corrected room check, filling a 1024-byte
      buffer: every strcat stays inside it, NUL included. */
  method ExpandSubkeys(obj: Option<Handle>) returns (r: string)
    ensures r == Subkeys(obj)
  {
    var buf := new char[BUFSIZE];
    var len: nat := 0;
    var count: nat := 0;
    var cs := OptChildren(obj);
    var i := 0;
    while i < |cs|
      invariant 0 <= i <= |cs| && len <= BUFSIZE - 5
      invariant SubkeysFrom(cs[i..], buf[..len], count) == Subkeys(obj)
    {
      ghost var res := buf[..len];
      assert cs[i..][0] == cs[i] && cs[i..][1..] == cs[i + 1..];
      if cs[i].key.Some? {
        var k := cs[i].key.value;
        if len + (if count > 0 then 1 else 0) + |k| > BUFSIZE - 5 {
          assert SubkeysFrom(cs[i..], res, count) == res + " ...";
          len := Strcat(buf, len, " ...");
          return buf[..len];
        }
        var gap := if count > 0 then " " else "";
        assert SubkeysFrom(cs[i..], res, count) == SubkeysFrom(cs[i + 1..], res + gap + k, count + 1);
        len := Strcat(buf, len, gap);
        len := Strcat(buf, len, k);
        count := count + 1;
      } else {
        assert SubkeysFrom(cs[i..], res, count) == SubkeysFrom(cs[i + 1..], res, count);
      }
      i := i + 1;
    }
    r := buf[..len];
  }

  /** The room check as written: `strlen(result) > 1024 - 5 - strlen(key)`
      in size_t arithmetic, which forgets the space before the key and wraps
      round for a key longer than 1019 characters. */
  function SubkeysAsWritten(cs: seq<Handle>, result: string, count: nat): (r: string)
    ensures result <= r
    decreases |cs|
  {
    if |cs| == 0 then result
    else match cs[0].key
      case None => SubkeysAsWritten(cs[1..], result, count)
      case Some(k) =>
        if |result| > (BUFSIZE - 5 - |k|) % 0x1_0000_0000_0000_0000 then result + " ..."
        else SubkeysAsWritten(cs[1..], result + (if count > 0 then " " else "") + k, count + 1)
  }

  /** Keys of 1015, 4 and 1 characters: the first two fill 1020 characters,
      and " ..." then makes 1024, leaving no room for the NUL. */
  lemma SubkeysAsWrittenOverflows()
    ensures var cs := [Handle(Null, Some(seq(1015, _ => 'a')), []), Handle(Null, Some("bbbb"), []),
                       Handle(Null, Some("c"), [])];
      |SubkeysAsWritten(cs, "", 0)| == BUFSIZE
  {
    var a: string := seq(1015, _ => 'a');
    var cs := [Handle(Null, Some(a), []), Handle(Null, Some("bbbb"), []), Handle(Null, Some("c"), [])];
    var t := a + " " + "bbbb";
    assert cs[1..][1..] == [cs[2]] && [cs[2]][1..] == [];
    assert SubkeysAsWritten(cs, "", 0) == SubkeysAsWritten(cs[1..], "" + "" + a, 1);
    assert "" + "" + a == a;
    assert SubkeysAsWritten(cs[1..], a, 1) == SubkeysAsWritten([cs[2]], a + " " + "bbbb", 2);
    assert |t| == 1020;
    assert SubkeysAsWritten([cs[2]], t, 2) == t + " ...";
  }

  /** A key longer than 1019 characters makes the bound wrap round, so it is
      copied whole, past the end of the buffer. */
  lemma SubkeysAsWrittenLongKey()
    ensures |SubkeysAsWritten([Handle(Null, Some(seq(1100, _ => 'k')), [])], "", 0)| == 1100
  {
    var k: string := seq(1100, _ => 'k');
    var cs := [Handle(Null, Some(k), [])];
    assert cs[1..] == [];
    assert SubkeysAsWritten(cs, "", 0) == SubkeysAsWritten(cs[1..], "" + "" + k, 1);
    assert "" + "" + k == k;
  }

  /** The corrected list of the same children stays inside the buffer. */
  lemma SubkeysCorrectedFits()
    ensures var cs := [Handle(Null, Some(seq(1015, _ => 'a')), []), Handle(Null, Some("bbbb"), []),
                       Handle(Null, Some("c"), [])];
      |SubkeysFrom(cs, "", 0)| < BUFSIZE
  {
  }
}
