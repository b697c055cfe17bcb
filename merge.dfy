/** merge_mode and merge_recursive: fold a parsed tree into the node a path
    selects. Arrays are concatenated or appended to, objects are merged key
    by key, and a scalar becomes a two-element array of the old and the new
    value.

    merge_recursive changes the target object in place through pointers;
    here it returns the changed object and the caller puts it back where the
    target was. Only the head of each key of the merged-in object is
    visited, as ucl_object_iterate_safe(it, false) hands out heads. */
module Merge {
  import opened Libc
  import opened Tree
  import opened Common
  import opened Library
  import opened SetCmd

  // ---------------------------------------------------------------------
  // merge_recursive

  /** What one key `k` of the merged-in object does to `top`: a key `top`
      lacks is inserted (merged); an object merges recursively into what
      `top` holds there, an array is concatenated onto it, and anything
      else replaces it. A target that is not an object takes no keys. */
  function MergeEntry(top: Node, k: string, cur: Node): (r: Change)
    ensures top.Object? || top.Null? ==> r.node.Object?
    ensures !(top.Object? || top.Null?) ==> r == Change(top, false)
    decreases Size(cur), 0
  {
    var found := if top.Object? then FindKey(top.entries, k) else None;
    if found.None? then InsertKeyMerged(top, Some(k), Some(cur))
    else
      var j := found.value;
      var old_ := top.entries[j].head;
      if cur.Object? then
        var m := MergeFrom(old_, cur.entries, 0, false);
        Change(ReplaceChild(top, Member(j), m.node), m.ok)
      else if cur.Array? then
        var m := ArrayMerge(old_, Some(cur));
        Change(ReplaceChild(top, Member(j), m.node), m.ok)
      else ReplaceKey(top, Some(k), Some(cur))
  }

  /** The loop of merge_recursive from the i-th key on, `success` holding
      the last key's result: the first failure ends it, keeping what the
      earlier keys changed. */
  function MergeFrom(top: Node, src: seq<Entry>, i: nat, success: bool): (r: Change)
    requires i <= |src|
    ensures r.ok ==> i < |src| || success
    ensures i < |src| && !(top.Object? || top.Null?) ==> r == Change(top, false)
    decreases SizeEntries(src), |src| - i
  {
    if i == |src| then Change(top, success)
    else
      SizeEntriesElem(src, i);
      var c := MergeEntry(top, src[i].key, src[i].head);
      if !c.ok then Change(c.node, false) else MergeFrom(c.node, src, i + 1, true)
  }

  /** merge_recursive(top, elt): success starts out false, so an object
      with no keys merges as a failure. */
  function MergeRec(top: Node, src: seq<Entry>): (r: Change)
    ensures |src| == 0 ==> r == Change(top, false)
    ensures r.ok ==> |src| > 0
    ensures |src| > 0 && !(top.Object? || top.Null?) ==> r == Change(top, false)
  {
    MergeFrom(top, src, 0, false)
  }

  /** One key of the merged-in object. */
  method MergeOne(top: Node, k: string, cur: Node) returns (r: Change)
    ensures r == MergeEntry(top, k, cur)
    decreases Size(cur), 0
  {
    var found := if top.Object? then FindKey(top.entries, k) else None;
    if found.None? {
      r := InsertKeyMerged(top, Some(k), Some(cur));
      return;
    }
    var j := found.value;
    var old_ := top.entries[j].head;
    if cur.Object? {
      var m := MergeRecursive(old_, cur.entries);
      r := Change(ReplaceChild(top, Member(j), m.node), m.ok);
    } else if cur.Array? {
      var m := ArrayMerge(old_, Some(cur));
      r := Change(ReplaceChild(top, Member(j), m.node), m.ok);
    } else {
      r := ReplaceKey(top, Some(k), Some(cur));
    }
  }

  /** merge_recursive: the keys of `src` in order, stopping at the first
      that fails. */
  method MergeRecursive(top: Node, src: seq<Entry>) returns (r: Change)
    ensures r == MergeRec(top, src)
    decreases SizeEntries(src), 1
  {
    var t := top;
    var success := false;
    var i := 0;
    while i < |src|
      invariant i <= |src|
      invariant MergeFrom(t, src, i, success) == MergeFrom(top, src, 0, false)
    {
      SizeEntriesElem(src, i);
      var c := MergeOne(t, src[i].key, src[i].head);
      if !c.ok {
        return Change(c.node, false);
      }
      t, success, i := c.node, true, i + 1;
    }
    r := Change(t, success);
  }

  // ---------------------------------------------------------------------
  // What merging keeps and adds

  /** A key that `top` has stays, and a merged key ends up in the result. */
  lemma MergeEntryKeys(top: Node, k: string, cur: Node)
    requires top.Object?
    ensures var r := MergeEntry(top, k, cur);
      forall k' :: FindKey(top.entries, k').Some? ==> FindKey(r.node.entries, k').Some?
    ensures var r := MergeEntry(top, k, cur); r.ok ==> FindKey(r.node.entries, k).Some?
  {
    var r := MergeEntry(top, k, cur);
    var found := FindKey(top.entries, k);
    if found.None? {
      forall k' | FindKey(top.entries, k').Some?
        ensures FindKey(r.node.entries, k').Some?
      {
        if r.ok {
          assert k' != k;
          assert |Values(r.node.entries, k')| > 0;
        }
      }
      if r.ok {
        assert |Values(r.node.entries, k)| > 0;
      }
    } else if cur.Object? || cur.Array? {
      var j := found.value;
      var e := r.node.entries[j];
      assert r.node.entries == top.entries[j := e];
      forall k' ensures FindKey(r.node.entries, k') == FindKey(top.entries, k') {
        FindKeyUpdate(top.entries, j, e, k');
      }
    } else {
      forall k' | FindKey(top.entries, k').Some?
        ensures FindKey(r.node.entries, k').Some?
      {
        assert |Values(r.node.entries, k')| > 0;
      }
    }
  }

  /** merge_recursive on an object keeps it an object, and every key it had
      is still there, whether the merge succeeds or stops at a failure. */
  lemma {:induction false} MergeKeysKept(top: Node, src: seq<Entry>, i: nat, success: bool)
    requires top.Object? && i <= |src|
    ensures var r := MergeFrom(top, src, i, success);
      r.node.Object? &&
      forall k :: FindKey(top.entries, k).Some? ==> FindKey(r.node.entries, k).Some?
    decreases |src| - i
  {
    if i < |src| {
      var c := MergeEntry(top, src[i].key, src[i].head);
      MergeEntryKeys(top, src[i].key, src[i].head);
      if c.ok {
        assert MergeFrom(top, src, i, success) == MergeFrom(c.node, src, i + 1, true);
        MergeKeysKept(c.node, src, i + 1, true);
      } else {
        assert MergeFrom(top, src, i, success) == Change(c.node, false);
      }
    }
  }

  /** When merge_recursive on an object succeeds, every key merged in is
      there. */
  lemma {:induction false} MergeKeysAdded(top: Node, src: seq<Entry>, i: nat, success: bool)
    requires top.Object? && i <= |src|
    ensures var r := MergeFrom(top, src, i, success);
      r.ok && r.node.Object? ==> forall j :: i <= j < |src| ==> FindKey(r.node.entries, src[j].key).Some?
    decreases |src| - i
  {
    if i < |src| {
      var c := MergeEntry(top, src[i].key, src[i].head);
      if c.ok {
        MergeEntryKeys(top, src[i].key, src[i].head);
        var r := MergeFrom(c.node, src, i + 1, true);
        assert MergeFrom(top, src, i, success) == r;
        MergeKeysKept(c.node, src, i + 1, true);
        MergeKeysAdded(c.node, src, i + 1, true);
        if r.ok {
          forall j | i <= j < |src|
            ensures FindKey(r.node.entries, src[j].key).Some?
          {
            if j == i {
              assert FindKey(c.node.entries, src[i].key).Some?;
            }
          }
        }
      }
    }
  }

  /** A value under a key `top` lacks is inserted as it is. */
  lemma MergeEntryNewKey(top: Node, k: string, cur: Node)
    requires top.Object? && FindKey(top.entries, k).None?
    ensures MergeEntry(top, k, cur).ok
    ensures Values(MergeEntry(top, k, cur).node.entries, k) == [cur]
  {
  }

  /** An array merged onto an array under the same key is concatenated onto
      it; onto anything else it fails and leaves `top` as it was. */
  lemma MergeEntryArray(top: Node, k: string, cur: Node)
    requires top.Object? && FindKey(top.entries, k).Some? && cur.Array?
    ensures var j := FindKey(top.entries, k).value;
      var r := MergeEntry(top, k, cur);
      var old_ := top.entries[j].head;
      (r.ok <==> old_.Array?) &&
      (r.ok ==> r.node.entries[j].head == Array(old_.elems + cur.elems)) &&
      (!r.ok ==> r.node == top)
  {
    var j := FindKey(top.entries, k).value;
    var old_ := top.entries[j].head;
    var m := ArrayMerge(old_, Some(cur));
    if m.ok {
      assert m.node.elems == old_.elems + cur.elems;
    } else {
      assert top.entries[j := top.entries[j].(head := old_)] == top.entries;
    }
  }

  /** A scalar merged onto a key `top` has replaces the whole chain. */
  lemma MergeEntryScalar(top: Node, k: string, cur: Node)
    requires top.Object? && FindKey(top.entries, k).Some? && !IsCompound(cur)
    ensures MergeEntry(top, k, cur).ok
    ensures Values(MergeEntry(top, k, cur).node.entries, k) == [cur]
  {
  }

  // ---------------------------------------------------------------------
  // merge_mode

  /** The tree to merge: the include file's, stdin's when the data is
      absent or "-", otherwise the data parsed. */
  function MergeInput(includeFile: bool, data: Option<string>, ps: Parsers): (r: Option<Node>)
    ensures includeFile ==> r == ps.fileValue
    ensures !includeFile && (data.None? || data.value == "-") ==> r == ps.stdinValue
    ensures !includeFile && data.Some? && data.value != "-" ==> r == ps.parseString(data.value)
  {
    if includeFile then ps.fileValue
    else if data.None? || data.value == "-" then ps.stdinValue
    else ps.parseString(data.value)
  }

  /** ucl_array_index_of(dst, sub): where `sub` sits in the array at `p`,
      or UINT_MAX when it is not one of its elements. */
  function IndexIn(p: Loc, q: Loc): (r: nat)
    ensures (exists i :: q == p + [Index(i)]) <==> |q| == |p| + 1 && q[..|p|] == p && q[|p|].Index?
    ensures forall i :: q == p + [Index(i)] ==> r == i
  {
    if |q| == |p| + 1 && q[..|p|] == p && q[|p|].Index? then
      assert q == p + [Index(q[|p|].i)];
      q[|p|].i
    else 0xFFFF_FFFF
  }

  /** The tree after a libucl change to the node at `loc`, and the flag. */
  function PutChange(root: Node, loc: Loc, c: Change): (r: (Node, bool))
    requires ValidLoc(root, loc)
    ensures r.1 == c.ok
    ensures ValidLoc(r.0, loc) && At(r.0, loc) == c.node
  {
    AtReplaceAt(root, loc, c.node);
    (ReplaceAt(root, loc, c.node), c.ok)
  }

  /** merge_mode(destination, set_obj) on the tree `root`. */
  function MergeSpec(root: Node, path: string, sep: char, incoming: Option<Node>): (r: (Node, bool))
    ensures GetObject(root, path, sep).None? ==> r == (root, false)
  {
    var sub := GetObject(root, path, sep);
    if sub.None? then (root, false)
    else MergeAt(root, GetParent(root, path, sep).value, sub.value, incoming)
  }

  /** merge_mode once the parent `p` and the target `q` are found. */
  function MergeAt(root: Node, p: Loc, q: Loc, incoming: Option<Node>): (r: (Node, bool))
    requires ValidLoc(root, p) && ValidLoc(root, q)
    ensures At(root, q).Array? ==> (r.1 <==> incoming.Some?)
  {
      var target := At(root, q);
      var parent := At(root, p);
      if target.Array? && incoming.Some? && incoming.value.Array? then PutChange(root, q, ArrayMerge(target, incoming))
      else if target.Array? then PutChange(root, q, ArrayAppend(target, incoming))
      else if target.Object? && incoming.Some? && incoming.value.Object? then
        PutChange(root, q, MergeRec(target, incoming.value.entries))
      else if !target.Object? then
        var pair := ArrayAppend(Array([target]), incoming).node;
        if parent.Array? then
          var (a, displaced) := ArrayReplaceIndex(parent, pair, IndexIn(p, q));
          if displaced.Some? then (ReplaceAt(root, p, a), true) else (root, false)
        else PutChange(root, p, ReplaceKey(parent, KeyAt(root, q), Some(pair)))
      else PutChange(root, p, InsertKeyMerged(parent, KeyAt(root, q), incoming))
  }

  /** merge_mode on the document. */
  method MergeMode(d: Document, path: string, sep: char, includeFile: bool, data: Option<string>, ps: Parsers)
    returns (success: bool)
    modifies d
    ensures (d.root, success) == MergeSpec(old(d.root), path, sep, MergeInput(includeFile, data, ps))
  {
    var sub := GetObject(d.root, path, sep);
    if sub.None? {
      return false;
    }
    var incoming := MergeInput(includeFile, data, ps);
    var p := GetParent(d.root, path, sep).value;
    var q := sub.value;
    var target := At(d.root, q);
    var parent := At(d.root, p);
    var c: Change;
    if target.Array? && incoming.Some? && incoming.value.Array? {
      c := ArrayMerge(target, incoming);
      d.Put(q, c.node);
    } else if target.Array? {
      c := ArrayAppend(target, incoming);
      d.Put(q, c.node);
    } else if target.Object? && incoming.Some? && incoming.value.Object? {
      c := MergeRecursive(target, incoming.value.entries);
      d.Put(q, c.node);
    } else if !target.Object? {
      var pair := ArrayAppend(Array([target]), incoming).node;
      if parent.Array? {
        var (a, displaced) := ArrayReplaceIndex(parent, pair, IndexIn(p, q));
        if displaced.Some? {
          d.Put(p, a);
        }
        return displaced.Some?;
      }
      c := ReplaceKey(parent, KeyAt(d.root, q), Some(pair));
      d.Put(p, c.node);
    } else {
      c := InsertKeyMerged(parent, KeyAt(d.root, q), incoming);
      d.Put(p, c.node);
    }
    success := c.ok;
  }

  // ---------------------------------------------------------------------
  // What merge_mode does to the destination

  /** Two arrays are concatenated in place. */
  lemma MergeConcatenatesArrays(root: Node, path: string, sep: char, incoming: Node)
    requires GetObject(root, path, sep).Some?
    requires At(root, GetObject(root, path, sep).value).Array? && incoming.Array?
    ensures var q := GetObject(root, path, sep).value;
      var r := MergeSpec(root, path, sep, Some(incoming));
      r.1 && ValidLoc(r.0, q) && At(r.0, q) == Array(At(root, q).elems + incoming.elems)
  {
    var q := GetObject(root, path, sep).value;
    var m := ArrayMerge(At(root, q), Some(incoming));
    assert m.node.elems == At(root, q).elems + incoming.elems;
  }

  /** Anything else is appended to an array. */
  lemma MergeAppendsToArray(root: Node, path: string, sep: char, incoming: Node)
    requires GetObject(root, path, sep).Some?
    requires At(root, GetObject(root, path, sep).value).Array? && !incoming.Array?
    ensures var q := GetObject(root, path, sep).value;
      var r := MergeSpec(root, path, sep, Some(incoming));
      r.1 && ValidLoc(r.0, q) && At(r.0, q) == Array(At(root, q).elems + [incoming])
  {
    var q := GetObject(root, path, sep).value;
    var m := ArrayAppend(At(root, q), Some(incoming));
    assert m.node.elems == At(root, q).elems + [incoming];
  }

  /** Two objects merge key by key: the destination keeps its keys, and on
      success has every key of the merged-in object. */
  lemma MergeObjectsKeepsKeys(root: Node, path: string, sep: char, incoming: Node)
    requires GetObject(root, path, sep).Some?
    requires At(root, GetObject(root, path, sep).value).Object? && incoming.Object?
    ensures var q := GetObject(root, path, sep).value;
      var r := MergeSpec(root, path, sep, Some(incoming));
      ValidLoc(r.0, q) && At(r.0, q).Object? &&
      (forall k :: FindKey(At(root, q).entries, k).Some? ==> FindKey(At(r.0, q).entries, k).Some?) &&
      (r.1 ==> forall e :: e in incoming.entries ==> FindKey(At(r.0, q).entries, e.key).Some?)
  {
    var q := GetObject(root, path, sep).value;
    MergeKeysKept(At(root, q), incoming.entries, 0, false);
    MergeKeysAdded(At(root, q), incoming.entries, 0, false);
  }

  /** A scalar inside an array becomes the pair of the old and the new value. */
  lemma MergeScalarInArray(root: Node, path: string, sep: char, incoming: Node)
    requires GetObject(root, path, sep).Some?
    requires !IsCompound(At(root, GetObject(root, path, sep).value))
    requires At(root, GetParent(root, path, sep).value).Array?
    ensures var q := GetObject(root, path, sep).value;
      var r := MergeSpec(root, path, sep, Some(incoming));
      r.1 && ValidLoc(r.0, q) && At(r.0, q) == Array([At(root, q), incoming])
  {
    var p := GetParent(root, path, sep).value;
    var q := GetObject(root, path, sep).value;
    GetObjectBelowParent(root, path, sep);
    var i := q[|p|].i;
    assert q == p + [Index(i)];
    MergeAtScalarInArray(root, p, i, incoming);
  }

  lemma MergeAtScalarInArray(root: Node, p: Loc, i: nat, incoming: Node)
    requires ValidLoc(root, p + [Index(i)]) && !IsCompound(At(root, p + [Index(i)]))
    ensures ValidLoc(root, p)
    ensures var q := p + [Index(i)];
      var r := MergeAt(root, p, q, Some(incoming));
      r.1 && ValidLoc(r.0, q) && At(r.0, q) == Array([At(root, q), incoming])
  {
    var q := p + [Index(i)];
    LocAppend(root, p, Index(i));
    var parent := At(root, p);
    assert i < |parent.elems| && At(root, q) == parent.elems[i];
    assert IndexIn(p, q) == i;
    var pair := Array([At(root, q), incoming]);
    assert ArrayAppend(Array([At(root, q)]), Some(incoming)).node == pair;
    ReplaceAtAppend(root, p, Index(i), pair);
    AtReplaceAt(root, q, pair);
  }

  /** A scalar under a key becomes the pair of the old and the new value,
      held alone under that key. */
  lemma MergeScalarUnderKey(root: Node, path: string, sep: char, incoming: Node)
    requires GetObject(root, path, sep).Some?
    requires GetObject(root, path, sep) != GetParent(root, path, sep)
    requires !IsCompound(At(root, GetObject(root, path, sep).value))
    requires At(root, GetParent(root, path, sep).value).Object?
    ensures var p := GetParent(root, path, sep).value;
      var q := GetObject(root, path, sep).value;
      var r := MergeSpec(root, path, sep, Some(incoming));
      r.1 && ValidLoc(r.0, p) && At(r.0, p).Object? &&
      Values(At(r.0, p).entries, KeyAt(root, q).value) == [Array([At(root, q), incoming])]
  {
    var p := GetParent(root, path, sep).value;
    var q := GetObject(root, path, sep).value;
    GetObjectBelowParent(root, path, sep);
    var parent := At(root, p);
    var e := q[|p|].e;
    assert q == p + [Member(e)];
    LocAppend(root, p, Member(e));
    assert KeyAt(root, q) == Some(parent.entries[e].key);
    FindKeyFirst(parent.entries, e);
    assert ArrayAppend(Array([At(root, q)]), Some(incoming)).node == Array([At(root, q), incoming]);
  }

  /** Into an object, a value that is not an object is inserted under the
      object's own key, inside it. */
  lemma MergeIntoObjectUnderOwnKey(root: Node, path: string, sep: char, incoming: Node)
    requires GetObject(root, path, sep).Some?
    requires GetObject(root, path, sep) != GetParent(root, path, sep)
    requires At(root, GetObject(root, path, sep).value).Object? && !incoming.Object?
    requires At(root, GetParent(root, path, sep).value).Object?
    ensures var p := GetParent(root, path, sep).value;
      var q := GetObject(root, path, sep).value;
      var k := KeyAt(root, q).value;
      var r := MergeSpec(root, path, sep, Some(incoming));
      r.1 && ValidLoc(r.0, p) && At(r.0, p).Object? &&
      Values(At(r.0, p).entries, k) ==
        [InsertKey(At(root, q), Some(k), Some(incoming)).node] + Values(At(root, p).entries, k)[1..]
  {
    var p := GetParent(root, path, sep).value;
    var q := GetObject(root, path, sep).value;
    GetObjectBelowParent(root, path, sep);
    var parent := At(root, p);
    var e := q[|p|].e;
    assert q == p + [Member(e)];
    LocAppend(root, p, Member(e));
    assert KeyAt(root, q) == Some(parent.entries[e].key);
    FindKeyFirst(parent.entries, e);
  }
}
