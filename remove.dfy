/** The remove verb: each path names a node that is unlinked from its
    parent (by identity from an array, by key from an object); a path that
    does not name a child is skipped with a message, and the loop goes on
    to the next one. The tree is then rendered whole with get_mode(""). */
module Remove {
  import opened Libc
  import opened Tree
  import opened Common
  import opened Library
  import opened Output
  import opened Get

  /** What happened to one path, after the message the tool prints. */
  datatype Removal =
    | NoParent      // "Failed to find parent of key ..."
    | NoChild       // "Failed to find key ..."
    | NoChildKey    // "Failed to get key for ..."
    | BadParent     // "Invalid parent object type for ..."
    | Failed        // "Failed to remove key ..."
    | Removed

  /** One pass of the loop for `path`. */
  function RemoveOne(root: Node, path: string, sep: char): (r: (Node, Removal))
    ensures r.1 != Removed ==> r.0 == root
  {
    var dst := GetParent(root, path, sep);
    var sub := GetObject(root, path, sep);
    if dst.None? then (root, NoParent)
    else if sub.None? || sub == dst then (root, NoChild)
    else
      var p := dst.value;
      var q := sub.value;
      var parent := At(root, p);
      if parent.Array? then
        var i := IndexOf(p, q);
        if i < |parent.elems| then (ReplaceAt(root, p, ArrayDeleteAt(parent, i)), Removed)
        else (root, Failed)
      else if parent.Object? then
        match KeyAt(root, q)
        case None => (root, NoChildKey)
        case Some(k) =>
          var c := DeleteKey(parent, k);
          if c.ok then (ReplaceAt(root, p, c.node), Removed) else (root, Failed)
      else (root, BadParent)
  }

  /** ucl_array_index_of(parent, child) for the child at `q` below the
      array at `p`: its position, or UINT_MAX when it is not an element. */
  function IndexOf(p: Loc, q: Loc): (r: nat)
    ensures forall i :: q == p + [Index(i)] ==> r == i
  {
    if |q| == |p| + 1 && q[..|p|] == p && q[|p|].Index? then
      assert q == p + [Index(q[|p|].i)];
      q[|p|].i
    else 0xFFFF_FFFF
  }

  /** The loop over all paths from the k-th on. */
  function RemoveFrom(root: Node, paths: seq<string>, sep: char, k: nat): (r: (Node, seq<Removal>))
    requires k <= |paths|
    ensures |r.1| == |paths| - k
    ensures (forall j :: 0 <= j < |r.1| ==> r.1[j] != Removed) ==> r.0 == root
    decreases |paths| - k
  {
    if k == |paths| then (root, [])
    else
      var (t, o) := RemoveOne(root, paths[k], sep);
      var (u, os) := RemoveFrom(t, paths, sep, k + 1);
      assert ([o] + os)[0] == o;
      assert forall j :: 0 <= j < |os| ==> ([o] + os)[j + 1] == os[j];
      (u, [o] + os)
  }

  lemma RemoveFromStep(root: Node, paths: seq<string>, sep: char, k: nat)
    requires k < |paths|
    ensures var step := RemoveOne(root, paths[k], sep);
      var rest := RemoveFrom(step.0, paths, sep, k + 1);
      RemoveFrom(root, paths, sep, k) == (rest.0, [step.1] + rest.1)
  {
  }

  /** The remove loop over the tree, one outcome per path. */
  function RemoveAll(root: Node, paths: seq<string>, sep: char): (r: (Node, seq<Removal>))
    ensures |r.1| == |paths|
    ensures (forall j :: 0 <= j < |r.1| ==> r.1[j] != Removed) ==> r.0 == root
  {
    RemoveFrom(root, paths, sep, 0)
  }

  /** One pass of the loop, with the outcomes so far in front. */
  lemma RemoveFromAdvance(root: Node, paths: seq<string>, sep: char, k: nat, done: seq<Removal>)
    requires k < |paths|
    ensures var step := RemoveOne(root, paths[k], sep);
      var rest := RemoveFrom(step.0, paths, sep, k + 1);
      var all := RemoveFrom(root, paths, sep, k);
      (rest.0, (done + [step.1]) + rest.1) == (all.0, done + all.1)
  {
    var step := RemoveOne(root, paths[k], sep);
    var rest := RemoveFrom(step.0, paths, sep, k + 1);
    RemoveFromStep(root, paths, sep, k);
    assert (done + [step.1]) + rest.1 == done + ([step.1] + rest.1);
  }

  lemma RemoveFromDone(root: Node, paths: seq<string>, sep: char, done: seq<Removal>)
    ensures (RemoveFrom(root, paths, sep, |paths|).0, done + RemoveFrom(root, paths, sep, |paths|).1) == (root, done)
  {
    assert done + [] == done;
  }

  /** The loop of the remove verb over the document. */
  method RemoveLoop(d: Document, paths: seq<string>, sep: char) returns (outcomes: seq<Removal>)
    modifies d
    ensures (d.root, outcomes) == RemoveAll(old(d.root), paths, sep)
  {
    ghost var want := RemoveAll(d.root, paths, sep);
    outcomes := [];
    var k := 0;
    assert [] + want.1 == want.1;
    while k < |paths|
      invariant k <= |paths|
      invariant want == (RemoveFrom(d.root, paths, sep, k).0, outcomes + RemoveFrom(d.root, paths, sep, k).1)
    {
      var step := RemoveOne(d.root, paths[k], sep);
      RemoveFromAdvance(d.root, paths, sep, k, outcomes);
      d.root := step.0;
      outcomes := outcomes + [step.1];
      k := k + 1;
    }
    RemoveFromDone(d.root, paths, sep, outcomes);
  }

  /** The remove verb: the loop, then the whole tree rendered; the exit
      status is 0 whatever happened to the paths. */
  method RemoveMode(cfg: Config, d: Document, paths: seq<string>, s: Sink)
    returns (outcomes: seq<Removal>, o: Outcome, status: int)
    modifies d, s
    ensures (d.root, outcomes) == RemoveAll(old(d.root), paths, cfg.inSep)
    ensures Res(o, s.State()) == Mode(cfg, Some(d.root), "", old(s.State()))
    ensures status == 0
  {
    outcomes := RemoveLoop(d, paths, cfg.inSep);
    o := GetMode(cfg, Some(d.root), "", s);
    status := 0;
  }

  // ---------------------------------------------------------------------
  // What one removal does

  /** A path is removed exactly when it names a child below its parent. */
  lemma RemovedIffChild(root: Node, path: string, sep: char)
    ensures RemoveOne(root, path, sep).1 == Removed <==>
      GetParent(root, path, sep).Some? && GetObject(root, path, sep) != GetParent(root, path, sep)
  {
    var dst := GetParent(root, path, sep);
    var sub := GetObject(root, path, sep);
    if dst.Some? && sub != dst {
      GetObjectBelowParent(root, path, sep);
      var p := dst.value;
      var q := sub.value;
      var parent := At(root, p);
      var s := q[|p|];
      assert q == p + [s];
      LocAppend(root, p, s);
      if parent.Object? {
        assert KeyAt(root, q) == Some(parent.entries[s.e].key);
      }
    }
  }

  /** From an array parent, the element goes and the others keep their
      order. */
  lemma RemoveFromArray(root: Node, path: string, sep: char)
    requires GetParent(root, path, sep).Some?
    requires GetObject(root, path, sep) != GetParent(root, path, sep)
    requires At(root, GetParent(root, path, sep).value).Array?
    ensures var p := GetParent(root, path, sep).value;
      var q := GetObject(root, path, sep).value;
      var r := RemoveOne(root, path, sep);
      var xs := At(root, p).elems;
      var i := q[|p|].i;
      q == p + [Index(i)] && i < |xs| &&
      r.1 == Removed && ValidLoc(r.0, p) && At(r.0, p) == Array(xs[..i] + xs[i + 1..])
  {
    GetObjectBelowParent(root, path, sep);
    var p := GetParent(root, path, sep).value;
    var q := GetObject(root, path, sep).value;
    var i := q[|p|].i;
    var xs := At(root, p).elems;
    assert q == p + [Index(i)];
    assert IndexOf(p, q) == i;
    assert ValidStep(At(root, p), Index(i));
    assert i < |xs|;
    var a := ArrayDeleteAt(At(root, p), i);
    assert a == Array(xs[..i] + xs[i + 1..]);
    assert RemoveOne(root, path, sep) == (ReplaceAt(root, p, a), Removed);
    AtReplaceAt(root, p, a);
  }

  /** From an object parent with unique keys, the child's key goes with its
      whole chain and every other key keeps what it held. */
  lemma RemoveFromObject(root: Node, path: string, sep: char)
    requires GetParent(root, path, sep).Some?
    requires GetObject(root, path, sep) != GetParent(root, path, sep)
    requires At(root, GetParent(root, path, sep).value).Object?
    requires UniqueKeys(At(root, GetParent(root, path, sep).value).entries)
    ensures var p := GetParent(root, path, sep).value;
      var q := GetObject(root, path, sep).value;
      var r := RemoveOne(root, path, sep);
      var es := At(root, p).entries;
      var k := es[q[|p|].e].key;
      q == p + [Member(q[|p|].e)] && r.1 == Removed && ValidLoc(r.0, p) && At(r.0, p).Object? &&
      Values(At(r.0, p).entries, k) == [] &&
      forall k' :: k' != k ==> Values(At(r.0, p).entries, k') == Values(es, k')
  {
    GetObjectBelowParent(root, path, sep);
    var p := GetParent(root, path, sep).value;
    var q := GetObject(root, path, sep).value;
    var parent := At(root, p);
    var e := q[|p|].e;
    assert q == p + [Member(e)];
    LocAppend(root, p, Member(e));
    assert KeyAt(root, q) == Some(parent.entries[e].key);
    var c := DeleteKey(parent, parent.entries[e].key);
    AtReplaceAt(root, p, c.node);
  }

  /** A path that does not name a child leaves the tree as it was, and the
      loop goes on: the paths after it are removed as if it were absent. */
  lemma {:induction false} SkippedPathChangesNothing(root: Node, paths: seq<string>, sep: char, k: nat)
    requires k < |paths|
    requires GetParent(root, paths[k], sep).None? ||
      GetObject(root, paths[k], sep) == GetParent(root, paths[k], sep)
    ensures RemoveFrom(root, paths, sep, k).0 == RemoveFrom(root, paths, sep, k + 1).0
    ensures RemoveFrom(root, paths, sep, k).1[1..] == RemoveFrom(root, paths, sep, k + 1).1
  {
    RemovedIffChild(root, paths[k], sep);
  }
}
