/** The libucl calls that change a tree, over values, and the document whose
    root the tool changes in place.

    Assumed behaviour (libucl is not part of this model):
    - ucl_object_insert_key, ucl_object_replace_key and
      ucl_object_insert_key_merged refuse a NULL key or value and any target
      that is not an object, except a null value, which they first turn into
      an empty object;
    - insert appends a new key at the end, or appends the value to the chain
      of a key already there; replace puts the value in place of the whole
      chain of a key already there and returns false, after inserting it,
      when the key was not there;
    - insert_key_merged with a value that is not an object appends a new key,
      inserts the value under the same key inside a found object, or appends
      it to the chain of a found non-object;
    - ucl_object_delete_key removes a key with its whole chain;
    - ucl_array_append, ucl_array_merge, ucl_array_replace_index and
      ucl_array_delete work on the element vector of an array. */
module Library {
  import opened Libc
  import opened Tree

  /** What a libucl call that returns bool leaves behind: the possibly
      changed target and the returned flag. */
  datatype Change = Change(node: Node, ok: bool)

  /** The entries of an object; a null value reads as an empty object, as
      libucl converts it on insertion. */
  function ObjectView(n: Node): (r: Option<seq<Entry>>)
    ensures r.Some? <==> n.Object? || n.Null?
    ensures n.Object? ==> r == Some(n.entries)
  {
    match n
    case Object(es) => Some(es)
    case Null => Some([])
    case _ => None
  }

  /** The keys of an object, in order. */
  function Keys(es: seq<Entry>): (r: seq<string>)
    ensures |r| == |es| && forall i :: 0 <= i < |es| ==> r[i] == es[i].key
  {
    seq(|es|, i requires 0 <= i < |es| => es[i].key)
  }

  predicate UniqueKeys(es: seq<Entry>)
  {
    forall i, j :: 0 <= i < j < |es| ==> es[i].key != es[j].key
  }

  /** Everything held under key `k` of an object: its chain, or nothing. */
  function Values(es: seq<Entry>, k: string): (r: seq<Node>)
    ensures |r| == 0 <==> FindKey(es, k).None?
  {
    match FindKey(es, k)
    case None => []
    case Some(i) => [es[i].head] + es[i].more
  }

  // ---------------------------------------------------------------------
  // What FindKey sees after the three ways an object's entries change

  lemma {:induction false} FindKeyAppend(es: seq<Entry>, e: Entry, k: string)
    ensures FindKey(es + [e], k) ==
      (if FindKey(es, k).Some? then FindKey(es, k) else if k == e.key then Some(|es|) else None)
    decreases |es|
  {
    if |es| == 0 {
      assert es + [e] == [e] && [e][1..] == [];
    } else {
      assert (es + [e])[1..] == es[1..] + [e];
      FindKeyAppend(es[1..], e, k);
    }
  }

  lemma {:induction false} FindKeyUpdate(es: seq<Entry>, i: nat, e: Entry, k: string)
    requires i < |es| && e.key == es[i].key
    ensures FindKey(es[i := e], k) == FindKey(es, k)
    decreases i
  {
    if i == 0 {
      assert es[i := e][1..] == es[1..];
    } else {
      assert es[i := e][1..] == es[1..][i - 1 := e];
      FindKeyUpdate(es[1..], i - 1, e, k);
    }
  }

  lemma {:induction false} FindKeyRemoveSame(es: seq<Entry>, i: nat)
    requires i < |es| && UniqueKeys(es)
    ensures FindKey(es[..i] + es[i + 1..], es[i].key).None?
    decreases i
  {
    if i == 0 {
      assert es[..0] + es[1..] == es[1..];
    } else {
      assert (es[..i] + es[i + 1..])[1..] == es[1..][..i - 1] + es[1..][i..];
      assert es[1..][i - 1] == es[i];
      FindKeyRemoveSame(es[1..], i - 1);
    }
  }

  /** FindKey is the first entry with the key: any answer that says so is
      FindKey's. */
  lemma FindKeyIsFirst(es: seq<Entry>, k: string, r: Option<nat>)
    requires r.Some? ==> r.value < |es| && es[r.value].key == k && forall j :: 0 <= j < r.value ==> es[j].key != k
    requires r.None? ==> forall j :: 0 <= j < |es| ==> es[j].key != k
    ensures FindKey(es, k) == r
  {
  }

  /** `rest` is `es` without entry i. */
  predicate WithoutEntry(es: seq<Entry>, i: nat, rest: seq<Entry>)
  {
    i < |es| && |rest| == |es| - 1 &&
    forall m :: 0 <= m < |rest| ==> rest[m] == es[if m < i then m else m + 1]
  }

  lemma WithoutEntrySlices(es: seq<Entry>, i: nat)
    requires i < |es|
    ensures WithoutEntry(es, i, es[..i] + es[i + 1..])
  {
  }

  lemma FindKeyWithout(es: seq<Entry>, i: nat, rest: seq<Entry>, k: string)
    requires WithoutEntry(es, i, rest) && k != es[i].key
    ensures FindKey(rest, k) ==
      match FindKey(es, k)
      case None => None
      case Some(j) => Some(if j < i then j else j - 1)
  {
    match FindKey(es, k)
    case None =>
      forall m | 0 <= m < |rest|
        ensures rest[m].key != k
      {
        assert rest[m] == es[if m < i then m else m + 1];
      }
      FindKeyIsFirst(rest, k, None);
    case Some(j) =>
      var j' := if j < i then j else j - 1;
      assert rest[j'] == es[j];
      forall m | 0 <= m < j'
        ensures rest[m].key != k
      {
        assert rest[m] == es[if m < i then m else m + 1];
      }
      FindKeyIsFirst(rest, k, Some(j'));
  }

  lemma FindKeyRemoveOther(es: seq<Entry>, i: nat, k: string)
    requires i < |es| && k != es[i].key
    ensures FindKey(es[..i] + es[i + 1..], k) ==
      match FindKey(es, k)
      case None => None
      case Some(j) => Some(if j < i then j else j - 1)
  {
    WithoutEntrySlices(es, i);
    FindKeyWithout(es, i, es[..i] + es[i + 1..], k);
  }

  /** Removing an entry of an object with unique keys removes exactly what
      its key held. */
  lemma ValuesRemove(es: seq<Entry>, i: nat, k: string)
    requires i < |es|
    ensures UniqueKeys(es) && k == es[i].key ==> Values(es[..i] + es[i + 1..], k) == []
    ensures k != es[i].key ==> Values(es[..i] + es[i + 1..], k) == Values(es, k)
  {
    var rest := es[..i] + es[i + 1..];
    if k == es[i].key {
      if UniqueKeys(es) {
        FindKeyRemoveSame(es, i);
      }
    } else {
      FindKeyRemoveOther(es, i, k);
      match FindKey(es, k)
      case None =>
      case Some(j) =>
        var j' := if j < i then j else j - 1;
        assert FindKey(rest, k) == Some(j');
        assert rest[j'] == es[j];
    }
  }

  // ---------------------------------------------------------------------
  // Objects

  /** ucl_object_insert_key(top, v, k, 0, true). */
  function InsertKey(top: Node, k: Option<string>, v: Option<Node>): (r: Change)
    ensures r.ok <==> k.Some? && v.Some? && ObjectView(top).Some?
    ensures !r.ok ==> r.node == top
    ensures r.ok ==> r.node.Object?
    ensures r.ok ==> (Values(r.node.entries, k.value) == Values(ObjectView(top).value, k.value) + [v.value])
    ensures r.ok ==> (forall k' :: k' != k.value ==>
      Values(r.node.entries, k') == Values(ObjectView(top).value, k'))
    ensures r.ok ==> (Keys(r.node.entries) ==
      if FindKey(ObjectView(top).value, k.value).None? then Keys(ObjectView(top).value) + [k.value]
      else Keys(ObjectView(top).value))
  {
    if k.None? || v.None? || ObjectView(top).None? then Change(top, false)
    else
      var es := ObjectView(top).value;
      match FindKey(es, k.value)
      case None =>
        var e := Entry(k.value, v.value, []);
        forall k' ensures FindKey(es + [e], k') == (if k' == k.value then Some(|es|) else FindKey(es, k')) {
          FindKeyAppend(es, e, k');
        }
        assert (es + [e])[|es|] == e;
        assert forall j :: 0 <= j < |es| ==> (es + [e])[j] == es[j];
        Change(Object(es + [e]), true)
      case Some(i) =>
        var e := es[i].(more := es[i].more + [v.value]);
        forall k' ensures FindKey(es[i := e], k') == FindKey(es, k') {
          FindKeyUpdate(es, i, e, k');
        }
        Change(Object(es[i := e]), true)
  }

  /** ucl_object_replace_key(top, v, k, 0, true); the flag says whether the
      key was already there. */
  function ReplaceKey(top: Node, k: Option<string>, v: Option<Node>): (r: Change)
    ensures r.ok <==> (k.Some? && v.Some? && ObjectView(top).Some? &&
      FindKey(ObjectView(top).value, k.value).Some?)
    ensures (k.None? || v.None? || ObjectView(top).None?) ==> r.node == top
    ensures k.Some? && v.Some? && ObjectView(top).Some? ==>
      r.node.Object? && Values(r.node.entries, k.value) == [v.value]
    ensures k.Some? && v.Some? && ObjectView(top).Some? ==> (forall k' :: k' != k.value ==>
      Values(r.node.entries, k') == Values(ObjectView(top).value, k'))
  {
    if k.None? || v.None? || ObjectView(top).None? then Change(top, false)
    else
      var es := ObjectView(top).value;
      match FindKey(es, k.value)
      case None =>
        var e := Entry(k.value, v.value, []);
        forall k' ensures FindKey(es + [e], k') == (if k' == k.value then Some(|es|) else FindKey(es, k')) {
          FindKeyAppend(es, e, k');
        }
        assert (es + [e])[|es|] == e;
        assert forall j :: 0 <= j < |es| ==> (es + [e])[j] == es[j];
        Change(Object(es + [e]), false)
      case Some(i) =>
        var e := Entry(k.value, v.value, []);
        forall k' ensures FindKey(es[i := e], k') == FindKey(es, k') {
          FindKeyUpdate(es, i, e, k');
        }
        Change(Object(es[i := e]), true)
  }

  /** ucl_object_insert_key_merged(top, v, k, 0, true) for the values the
      tool passes: a value that is not an object, or one whose key is new. */
  function InsertKeyMerged(top: Node, k: Option<string>, v: Option<Node>): (r: Change)
    requires v.None? || !v.value.Object? || ObjectView(top).None? || k.None? ||
      FindKey(ObjectView(top).value, k.value).None?
    ensures r.ok <==> k.Some? && v.Some? && ObjectView(top).Some?
    ensures !r.ok ==> r.node == top
    ensures r.ok ==> r.node.Object?
    ensures r.ok ==> (forall k' :: k' != k.value ==>
      Values(r.node.entries, k') == Values(ObjectView(top).value, k'))
    ensures r.ok ==>
      var old_ := Values(ObjectView(top).value, k.value);
      Values(r.node.entries, k.value) ==
        if |old_| > 0 && old_[0].Object? then [InsertKey(old_[0], k, v).node] + old_[1..]
        else old_ + [v.value]
  {
    if k.None? || v.None? || ObjectView(top).None? then Change(top, false)
    else
      var es := ObjectView(top).value;
      match FindKey(es, k.value)
      case None => InsertKey(top, k, v)
      case Some(i) =>
        if es[i].head.Object? then
          var e := es[i].(head := InsertKey(es[i].head, k, v).node);
          forall k' ensures FindKey(es[i := e], k') == FindKey(es, k') {
            FindKeyUpdate(es, i, e, k');
          }
          assert ([es[i].head] + es[i].more)[1..] == es[i].more;
          Change(Object(es[i := e]), true)
        else
          InsertKey(top, k, v)
  }

  /** ucl_object_delete_key(top, k): the key and its whole chain go; the
      flag says whether it was there. A target that is not an object has no
      keys to delete. */
  function DeleteKey(top: Node, k: string): (r: Change)
    ensures r.ok <==> top.Object? && FindKey(top.entries, k).Some?
    ensures !r.ok ==> r.node == top
    ensures r.ok ==> r.node.Object? && |r.node.entries| == |top.entries| - 1
    ensures r.ok ==> (forall k' :: k' != k ==> Values(r.node.entries, k') == Values(top.entries, k'))
    ensures r.ok && UniqueKeys(top.entries) ==> Values(r.node.entries, k) == []
  {
    if !top.Object? then Change(top, false)
    else
      var es := top.entries;
      match FindKey(es, k)
      case None => Change(top, false)
      case Some(i) =>
        var rest := es[..i] + es[i + 1..];
        forall k' ensures k' != k ==> Values(rest, k') == Values(es, k') {
          ValuesRemove(es, i, k');
        }
        ValuesRemove(es, i, k);
        Change(Object(rest), true)
  }

  // ---------------------------------------------------------------------
  // Arrays

  /** ucl_array_append(top, v), on an array. */
  function ArrayAppend(top: Node, v: Option<Node>): (r: Change)
    requires top.Array?
    ensures r.node.Array? && (r.ok <==> v.Some?)
    ensures r.ok ==> |r.node.elems| == |top.elems| + 1
    ensures r.ok ==> r.node.elems[..|top.elems|] == top.elems && r.node.elems[|top.elems|] == v.value
    ensures !r.ok ==> r.node == top
  {
    if v.None? then Change(top, false) else Change(Array(top.elems + [v.value]), true)
  }

  /** ucl_array_merge(top, v, true): both must be arrays. */
  function ArrayMerge(top: Node, v: Option<Node>): (r: Change)
    ensures r.ok <==> top.Array? && v.Some? && v.value.Array?
    ensures r.ok ==> r.node.Array? && |r.node.elems| == |top.elems| + |v.value.elems|
    ensures r.ok ==> r.node.elems[..|top.elems|] == top.elems && r.node.elems[|top.elems|..] == v.value.elems
    ensures !r.ok ==> r.node == top
  {
    if top.Array? && v.Some? && v.value.Array? then
      var xs := top.elems + v.value.elems;
      assert xs[..|top.elems|] == top.elems && xs[|top.elems|..] == v.value.elems;
      Change(Array(xs), true)
    else Change(top, false)
  }

  /** ucl_array_replace_index(top, v, idx): the displaced element, or NULL
      when the index is past the end (and then nothing changes). */
  function ArrayReplaceIndex(top: Node, v: Node, idx: nat): (r: (Node, Option<Node>))
    requires top.Array?
    ensures r.1.Some? <==> idx < |top.elems|
    ensures r.1.Some? ==> r.1.value == top.elems[idx] && r.0 == Array(top.elems[idx := v])
    ensures r.1.None? ==> r.0 == top
  {
    if idx < |top.elems| then (Array(top.elems[idx := v]), Some(top.elems[idx])) else (top, None)
  }

  /** ucl_array_delete(top, elt) for the element at `idx`: it is unlinked and
      the others keep their order. */
  function ArrayDeleteAt(top: Node, idx: nat): (r: Node)
    requires top.Array? && idx < |top.elems|
    ensures r.Array? && |r.elems| == |top.elems| - 1
    ensures forall j :: 0 <= j < |r.elems| ==>
      r.elems[j] == (if j < idx then top.elems[j] else top.elems[j + 1])
  {
    Array(top.elems[..idx] + top.elems[idx + 1..])
  }

  // ---------------------------------------------------------------------
  // The document

  /** The tree the tool works on (root_obj), changed in place. */
  class Document {
    var root: Node

    constructor(root: Node)
      ensures this.root == root
    {
      this.root := root;
    }

    /** Puts `x` where the node at `loc` was; everything else stays. */
    method Put(loc: Loc, x: Node)
      requires ValidLoc(root, loc)
      modifies this
      ensures root == ReplaceAt(old(root), loc, x)
      ensures ValidLoc(root, loc) && At(root, loc) == x
    {
      AtReplaceAt(root, loc, x);
      root := ReplaceAt(root, loc, x);
    }
  }
}
