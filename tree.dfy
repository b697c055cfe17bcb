/** The document tree libucl hands to the tool, the handles the get engine
    walks, locations that stand for node identity, and path lookup.

    Assumptions about libucl that this module states (its sources are not
    part of this model):
    - an object keeps its keys in insertion order, and every key holds a
      non-empty chain of values (the implicit array of a repeated key);
    - ucl_iterate_object(obj, true) yields the entry heads of an object, the
      elements of an array, and for anything else obj's own chain;
      ucl_iterate_object(obj, false) always yields obj's own chain;
    - ucl_lookup_path_char walks the non-empty segments of the path one at a
      time, reads a segment under an array as a decimal index that must
      consist of digits only, looks it up as a key under an object, fails
      under anything else, and returns NULL for a path with no segment. */
module Tree {
  import opened Libc

  /** ucl_type_t, in libucl's order. */
  datatype Kind = KObject | KArray | KInt | KFloat | KString | KBoolean | KTime | KUserdata | KNull

  /** A value of the tree. Floating point and time values keep only the
      text printf's "%f" would give for them. */
  datatype Node =
    | Object(entries: seq<Entry>)
    | Array(elems: seq<Node>)
    | Int(i: int)
    | Float(ftext: string)
    | Str(s: string)
    | Bool(b: bool)
    | Time(ttext: string)
    | Userdata
    | Null

  /** One key of an object: the head value and the rest of its implicit chain. */
  datatype Entry = Entry(key: string, head: Node, more: seq<Node>)

  function KindOf(n: Node): Kind
  {
    match n
    case Object(_) => KObject
    case Array(_) => KArray
    case Int(_) => KInt
    case Float(_) => KFloat
    case Str(_) => KString
    case Bool(_) => KBoolean
    case Time(_) => KTime
    case Userdata => KUserdata
    case Null => KNull
  }

  predicate IsCompound(n: Node) { n.Object? || n.Array? }

  /** The `len` field: the number of keys of an object, the number of
      elements of an array, the length of a string, and 0 otherwise. */
  function Len(n: Node): nat
  {
    match n
    case Object(es) => |es|
    case Array(xs) => |xs|
    case Str(s) => |s|
    case _ => 0
  }

  /** What `len` counts, in terms of iteration: the children that
      ucl_iterate_object yields for an array or object, the characters of a
      string. */
  lemma LenCountsChildren(h: Handle)
    ensures IsCompound(h.node) ==> Len(h.node) == |Children(h)|
    ensures h.node.Str? ==> Len(h.node) == |h.node.s|
    ensures !IsCompound(h.node) && !h.node.Str? ==> Len(h.node) == 0
  {
  }

  // ---------------------------------------------------------------------
  // Sizes, used to show that walks over the tree terminate

  function Size(n: Node): nat
    decreases n
  {
    match n
    case Object(es) => 1 + SizeEntries(es)
    case Array(xs) => 1 + SizeSeq(xs)
    case _ => 1
  }

  function SizeEntry(e: Entry): nat
    decreases e
  {
    1 + Size(e.head) + SizeSeq(e.more)
  }

  function SizeEntries(es: seq<Entry>): nat
    decreases es
  {
    if |es| == 0 then 0 else SizeEntry(es[0]) + SizeEntries(es[1..])
  }

  function SizeSeq(xs: seq<Node>): nat
    decreases xs
  {
    if |xs| == 0 then 0 else Size(xs[0]) + SizeSeq(xs[1..])
  }

  lemma {:induction false} SizeSeqSplit(xs: seq<Node>, i: nat)
    requires i < |xs|
    ensures Size(xs[i]) + SizeSeq(xs[i + 1..]) <= SizeSeq(xs)
    ensures SizeSeq(xs[i..]) == Size(xs[i]) + SizeSeq(xs[i + 1..])
    decreases i
  {
    if i > 0 {
      SizeSeqSplit(xs[1..], i - 1);
      assert xs[1..][i - 1] == xs[i];
      assert xs[1..][i..] == xs[i + 1..];
      assert xs[1..][i - 1..] == xs[i..];
    }
  }

  lemma {:induction false} SizeEntriesElem(es: seq<Entry>, i: nat)
    requires i < |es|
    ensures SizeEntry(es[i]) <= SizeEntries(es)
    decreases i
  {
    if i > 0 {
      SizeEntriesElem(es[1..], i - 1);
      assert es[1..][i - 1] == es[i];
    }
  }

  // ---------------------------------------------------------------------
  // Handles: what a `const ucl_object_t *` gives the get engine

  /** A node as the get engine holds it: the value, its key (NULL for the
      root and for array elements), and the values after it in its chain. */
  datatype Handle = Handle(node: Node, key: Option<string>, next: seq<Node>)

  function Weight(h: Handle): nat
  {
    Size(h.node) + SizeSeq(h.next)
  }

  function OptWeight(o: Option<Handle>): nat
  {
    if o.None? then 0 else Weight(o.value)
  }

  /** ucl_iterate_object(h, false): h followed by the rest of its chain. */
  function ChainOf(h: Handle): (r: seq<Handle>)
    ensures |r| == 1 + |h.next| && r[0] == h
    ensures forall i :: 0 < i < |r| ==>
      r[i] == Handle(h.next[i - 1], h.key, h.next[i..]) && Weight(r[i]) < Weight(h)
  {
    var r := seq(1 + |h.next|, i requires 0 <= i <= |h.next| =>
      if i == 0 then h else Handle(h.next[i - 1], h.key, h.next[i..]));
    forall i | 0 < i < |r|
      ensures Weight(r[i]) < Weight(h)
    {
      SizeSeqSplit(h.next, i - 1);
      SizeSeqSplit(h.next, 0);
      if i - 1 > 0 {
        assert h.next[i - 1..] == h.next[i - 1..][..];
      }
      SuffixWeight(h.next, i - 1);
    }
    r
  }

  lemma {:induction false} SuffixWeight(xs: seq<Node>, i: nat)
    requires i <= |xs|
    ensures SizeSeq(xs[i..]) <= SizeSeq(xs)
    decreases i
  {
    if i > 0 {
      SuffixWeight(xs[1..], i - 1);
      assert xs[1..][i - 1..] == xs[i..];
    }
  }

  /** ucl_iterate_object(h, true): the entry heads of an object with their
      keys and chains, the elements of an array, or h's own chain. */
  function Children(h: Handle): (r: seq<Handle>)
    ensures h.node.Object? ==> |r| == |h.node.entries| && forall i :: 0 <= i < |r| ==>
      r[i] == Handle(h.node.entries[i].head, Some(h.node.entries[i].key), h.node.entries[i].more)
    ensures h.node.Array? ==> |r| == |h.node.elems| && forall i :: 0 <= i < |r| ==>
      r[i] == Handle(h.node.elems[i], None, [])
    ensures !IsCompound(h.node) ==> r == ChainOf(h)
    ensures forall i :: 0 <= i < |r| ==>
      Weight(r[i]) < Weight(h) || (r[i] == h && !IsCompound(h.node))
  {
    match h.node
    case Object(es) =>
      var r := seq(|es|, i requires 0 <= i < |es| => Handle(es[i].head, Some(es[i].key), es[i].more));
      forall i | 0 <= i < |r|
        ensures Weight(r[i]) < Weight(h)
      {
        SizeEntriesElem(es, i);
      }
      r
    case Array(xs) =>
      var r := seq(|xs|, i requires 0 <= i < |xs| => Handle(xs[i], None, []));
      forall i | 0 <= i < |r|
        ensures Weight(r[i]) < Weight(h)
      {
        SizeSeqSplit(xs, i);
      }
      r
    case _ => ChainOf(h)
  }

  /** The children of an absent node: none. */
  function OptChildren(o: Option<Handle>): (r: seq<Handle>)
    ensures o.None? ==> r == []
    ensures o.Some? ==> r == Children(o.value)
  {
    if o.None? then [] else Children(o.value)
  }

  /** ucl_object_find_key: the first entry holding key `k`. */
  function FindKey(es: seq<Entry>, k: string): (r: Option<nat>)
    ensures r.Some? ==> r.value < |es| && es[r.value].key == k
    ensures r.Some? ==> forall j :: 0 <= j < r.value ==> es[j].key != k
    ensures r.None? ==> forall j :: 0 <= j < |es| ==> es[j].key != k
  {
    if |es| == 0 then None
    else if es[0].key == k then Some(0)
    else match FindKey(es[1..], k)
      case None => None
      case Some(j) => Some(j + 1)
  }

  // ---------------------------------------------------------------------
  // Locations: node identity

  /** One step down: the element at an index of an array, or the head value
      of the entry at a position of an object. */
  datatype Step = Index(i: nat) | Member(e: nat)

  /** A node is identified by the steps from the root to it. */
  type Loc = seq<Step>

  predicate ValidStep(n: Node, s: Step)
  {
    match s
    case Index(i) => n.Array? && i < |n.elems|
    case Member(e) => n.Object? && e < |n.entries|
  }

  function Child(n: Node, s: Step): Node
    requires ValidStep(n, s)
  {
    match s
    case Index(i) => n.elems[i]
    case Member(e) => n.entries[e].head
  }

  /** `n` with the child at step `s` replaced by `x`; the chain of a
      replaced head stays as it was. */
  function ReplaceChild(n: Node, s: Step, x: Node): (r: Node)
    requires ValidStep(n, s)
    ensures ValidStep(r, s) && Child(r, s) == x && KindOf(r) == KindOf(n)
  {
    match s
    case Index(i) => Array(n.elems[i := x])
    case Member(e) => Object(n.entries[e := n.entries[e].(head := x)])
  }

  predicate ValidLoc(n: Node, loc: Loc)
    decreases |loc|
  {
    |loc| == 0 || (ValidStep(n, loc[0]) && ValidLoc(Child(n, loc[0]), loc[1..]))
  }

  function At(n: Node, loc: Loc): Node
    requires ValidLoc(n, loc)
    decreases |loc|
  {
    if |loc| == 0 then n else At(Child(n, loc[0]), loc[1..])
  }

  function ReplaceAt(n: Node, loc: Loc, x: Node): Node
    requires ValidLoc(n, loc)
    decreases |loc|
  {
    if |loc| == 0 then x else ReplaceChild(n, loc[0], ReplaceAt(Child(n, loc[0]), loc[1..], x))
  }

  /** ucl_object_key of the node at a location: NULL for the root and for
      array elements, the entry's key for an object member. */
  function KeyAt(n: Node, loc: Loc): (r: Option<string>)
    requires ValidLoc(n, loc)
    ensures |loc| == 0 ==> r.None?
  {
    if |loc| == 0 then None
    else
      LocAppend(n, loc[..|loc| - 1], loc[|loc| - 1]);
      assert loc == loc[..|loc| - 1] + [loc[|loc| - 1]];
      var p := At(n, loc[..|loc| - 1]);
      match loc[|loc| - 1]
      case Index(_) => None
      case Member(e) => Some(p.entries[e].key)
  }

  /** The handle the get engine holds for the node at a location. */
  function HandleAt(n: Node, loc: Loc): (r: Handle)
    requires ValidLoc(n, loc)
    ensures r.node == At(n, loc) && r.key == KeyAt(n, loc)
  {
    if |loc| == 0 then Handle(n, None, [])
    else
      LocAppend(n, loc[..|loc| - 1], loc[|loc| - 1]);
      assert loc == loc[..|loc| - 1] + [loc[|loc| - 1]];
      var p := At(n, loc[..|loc| - 1]);
      match loc[|loc| - 1]
      case Index(i) => Handle(p.elems[i], None, [])
      case Member(e) => Handle(p.entries[e].head, Some(p.entries[e].key), p.entries[e].more)
  }

  /** Walking one more step is looking one level below the end of the walk. */
  lemma {:induction false} LocAppend(n: Node, loc: Loc, s: Step)
    ensures ValidLoc(n, loc + [s]) <==> ValidLoc(n, loc) && ValidStep(At(n, loc), s)
    ensures ValidLoc(n, loc + [s]) ==> At(n, loc + [s]) == Child(At(n, loc), s)
    decreases |loc|
  {
    if |loc| > 0 {
      assert (loc + [s])[0] == loc[0] && (loc + [s])[1..] == loc[1..] + [s];
      if ValidStep(n, loc[0]) {
        LocAppend(Child(n, loc[0]), loc[1..], s);
      }
    } else {
      assert loc + [s] == [s];
      assert ([s])[1..] == [];
    }
  }

  /** Replacing below one more step is replacing the parent by its copy with
      that one child replaced. */
  lemma {:induction false} ReplaceAtAppend(n: Node, loc: Loc, s: Step, x: Node)
    requires ValidLoc(n, loc + [s])
    ensures ValidLoc(n, loc) && ValidStep(At(n, loc), s)
    ensures ReplaceAt(n, loc + [s], x) == ReplaceAt(n, loc, ReplaceChild(At(n, loc), s, x))
    decreases |loc|
  {
    LocAppend(n, loc, s);
    if |loc| > 0 {
      assert (loc + [s])[0] == loc[0] && (loc + [s])[1..] == loc[1..] + [s];
      ReplaceAtAppend(Child(n, loc[0]), loc[1..], s, x);
    } else {
      assert loc + [s] == [s];
      assert ([s])[1..] == [];
    }
  }

  /** After replacing the node at a location, the location is still there
      and holds the new node. */
  lemma {:induction false} AtReplaceAt(n: Node, loc: Loc, x: Node)
    requires ValidLoc(n, loc)
    ensures ValidLoc(ReplaceAt(n, loc, x), loc)
    ensures At(ReplaceAt(n, loc, x), loc) == x
    decreases |loc|
  {
    if |loc| > 0 {
      AtReplaceAt(Child(n, loc[0]), loc[1..], x);
    }
  }

  /** Putting back the node that is already there changes nothing. */
  lemma {:induction false} ReplaceAtSame(n: Node, loc: Loc)
    requires ValidLoc(n, loc)
    ensures ReplaceAt(n, loc, At(n, loc)) == n
    decreases |loc|
  {
    if |loc| > 0 {
      ReplaceAtSame(Child(n, loc[0]), loc[1..]);
      match loc[0]
      case Index(i) => assert n.elems[i := n.elems[i]] == n.elems;
      case Member(e) => assert n.entries[e := n.entries[e].(head := n.entries[e].head)] == n.entries;
    }
  }

  // ---------------------------------------------------------------------
  // Path lookup (ucl_lookup_path_char)

  predicate AllDigits(s: string)
  {
    forall i :: 0 <= i < |s| ==> IsDigit(s[i])
  }

  /** The index libucl looks up for a decimal text: strtoul's value cut to
      the `unsigned int` parameter of ucl_array_find_index. */
  function ArrayIndexOf(s: string): (r: nat)
    ensures r < 0x1_0000_0000
    ensures Strtoul(s, 10) < 0x1_0000_0000 ==> r == Strtoul(s, 10)
  {
    Strtoul(s, 10) % 0x1_0000_0000
  }

  /** An index printed in decimal is looked up as the same index. */
  lemma ArrayIndexRoundTrip(i: nat)
    requires i < 0x1_0000_0000
    ensures AllDigits(NatToString(i)) && |NatToString(i)| > 0
    ensures ArrayIndexOf(NatToString(i)) == i
  {
    StrtoulNatToString(i);
  }

  /** One segment of a path, looked up below `n`. */
  function Descend(n: Node, seg: string): (r: Option<Step>)
    ensures r.Some? ==> ValidStep(n, r.value)
    ensures n.Object? ==> (r.Some? <==> FindKey(n.entries, seg).Some?)
    ensures n.Object? && r.Some? ==> r.value == Member(FindKey(n.entries, seg).value)
  {
    match n
    case Array(xs) =>
      if |seg| > 0 && AllDigits(seg) && ArrayIndexOf(seg) < |xs| then Some(Index(ArrayIndexOf(seg)))
      else None
    case Object(es) =>
      (match FindKey(es, seg)
       case Some(e) => Some(Member(e))
       case None => None)
    case _ => None
  }

  /** The non-empty segments of a path, in order. */
  function Segments(path: string, sep: char): (r: seq<string>)
  {
    NonEmpty(SplitOn(path, sep))
  }

  function NonEmpty(ts: seq<string>): (r: seq<string>)
    ensures |r| <= |ts|
    ensures forall i :: 0 <= i < |r| ==> |r[i]| > 0
  {
    if |ts| == 0 then []
    else if |ts[0]| == 0 then NonEmpty(ts[1..])
    else [ts[0]] + NonEmpty(ts[1..])
  }

  /** Descending segment by segment from `n`. */
  function LookupSegs(n: Node, segs: seq<string>): (r: Option<Loc>)
    ensures r.Some? ==> ValidLoc(n, r.value) && |r.value| == |segs|
    decreases |segs|
  {
    if |segs| == 0 then Some([])
    else match Descend(n, segs[0])
      case None => None
      case Some(s) =>
        match LookupSegs(Child(n, s), segs[1..])
        case None => None
        case Some(rest) => Some([s] + rest)
  }

  /** ucl_lookup_path_char(top, path, sep), as the location it finds. */
  function LookupLoc(top: Node, path: string, sep: char): (r: Option<Loc>)
    ensures r.Some? ==> ValidLoc(top, r.value) && |r.value| >= 1
    ensures |Segments(path, sep)| == 0 ==> r.None?
  {
    var segs := Segments(path, sep);
    if |segs| == 0 then None else LookupSegs(top, segs)
  }

  /** ucl_lookup_path_char from a node that may be NULL, as a handle. */
  function LookupPath(top: Option<Node>, path: string, sep: char): (r: Option<Handle>)
    ensures top.None? ==> r.None?
    ensures top.Some? ==> (r.Some? <==> LookupLoc(top.value, path, sep).Some?)
  {
    if top.None? then None
    else match LookupLoc(top.value, path, sep)
      case None => None
      case Some(loc) => Some(HandleAt(top.value, loc))
  }

  /** A path made only of separators finds nothing, and leading or doubled
      separators do not change what a path finds. */
  lemma {:induction false} LookupSkipsEmptySegments(top: Node, path: string, sep: char)
    ensures LookupLoc(top, [sep] + path, sep) == LookupLoc(top, path, sep)
    ensures Segments([sep], sep) == []
  {
    var p := [sep] + path;
    assert IndexOf(p, sep) == Some(0);
    assert p[1..] == path && p[..0] == [];
    assert SplitOn(p, sep) == [[]] + SplitOn(path, sep);
    assert NonEmpty([[]] + SplitOn(path, sep)) == NonEmpty(SplitOn(path, sep)) by {
      assert ([[]] + SplitOn(path, sep))[1..] == SplitOn(path, sep);
    }
    var q := [sep];
    assert IndexOf(q, sep) == Some(0);
    assert q[1..] == [] && q[..0] == [];
    assert SplitOn([], sep) == [[]];
    assert SplitOn(q, sep) == [[], []];
    assert NonEmpty([[], []]) == NonEmpty([[]]) by {
      var e: string := [];
      assert [e, e][1..] == [e];
    }
    assert NonEmpty([[]]) == NonEmpty([]) by {
      var e: string := [];
      assert [e][1..] == [];
    }
  }

  /** A key looked up under an object is found exactly when some entry
      holds it, and the handle found is that entry's head and chain. */
  lemma KeyLookup(es: seq<Entry>, k: string, sep: char)
    requires |k| > 0 && sep !in k
    ensures LookupPath(Some(Object(es)), k, sep).Some? <==> exists j :: 0 <= j < |es| && es[j].key == k
    ensures LookupPath(Some(Object(es)), k, sep).Some? ==>
      var j := FindKey(es, k).value;
      LookupPath(Some(Object(es)), k, sep) == Some(Handle(es[j].head, Some(k), es[j].more))
  {
    var n := Object(es);
    SplitOnSingle(k, sep);
    assert Segments(k, sep) == [k] by {
      assert NonEmpty([k]) == [k] + NonEmpty([k][1..]);
      assert [k][1..] == [];
    }
    assert LookupLoc(n, k, sep) == LookupSegs(n, [k]);
    match FindKey(es, k)
    case None =>
      assert Descend(n, k).None?;
    case Some(j) =>
      assert Descend(n, k) == Some(Member(j));
      assert [k][1..] == [];
      assert LookupSegs(Child(n, Member(j)), []) == Some([]);
      assert LookupSegs(n, [k]) == Some([Member(j)] + []);
      assert [Member(j)][..0] == [];
  }
}
