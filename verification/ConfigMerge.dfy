/** Configuration merging of conf_util.py: `merge_configs` folds `_merge` over the registered
    configurations, lowest precedence first. `_merge(a, b)` updates dict `a` in place; where `a` has
    no dict of its own it stores a reference to the dict of `b`, so that later merges write into
    dicts that belong to configurations. */
module ConfigMerge {
  import opened Basics

  type Path = seq<string>

  datatype Entry = Leaf(v: int) | Sub(d: Dict)

  /** A dict object. */
  class Dict {
    var entries: map<string, Entry>

    constructor ()
      ensures entries == map[]
    {
      entries := map[];
    }
  }

  // ---------- Nested dicts as values with identities ----------

  /** A nested dict as it is at some moment: leaves, and dict objects with what they contain. */
  datatype Shape = Value(v: int) | Node(obj: Dict, kids: map<string, Shape>)

  type Item = Option<Shape>

  /** What a path leads to: nothing, a leaf or a dict object. */
  datatype Thing = Nothing | ALeaf(v: int) | ADict(d: Dict)

  ghost function Kid(x: Item, k: string): Item {
    if x.Some? && x.value.Node? && k in x.value.kids then Some(x.value.kids[k]) else None
  }

  ghost function At(x: Item, path: Path): Thing
    decreases |path|
  {
    if path != [] then At(Kid(x, path[0]), path[1..])
    else if x.None? then Nothing
    else if x.value.Value? then ALeaf(x.value.v)
    else ADict(x.value.obj)
  }

  /** `_merge` on nested dicts. Merging a dict object into itself changes nothing. */
  ghost function MergeShapes(a: Shape, b: Shape): (r: Shape)
    requires a.Node? && b.Node?
    ensures r.Node? && r.obj == a.obj
    decreases b
  {
    if a.obj == b.obj then a
    else Node(a.obj, map k | k in a.kids.Keys + b.kids.Keys ::
                       if k !in b.kids then a.kids[k]
                       else if k in a.kids && a.kids[k].Node? && b.kids[k].Node? then MergeShapes(a.kids[k], b.kids[k])
                       else b.kids[k])
  }

  /** The same for what stands under one key on either side, if anything. */
  ghost function Merge(x: Item, y: Item): Item {
    if y.None? then x
    else if x.Some? && x.value.Node? && y.value.Node? then Some(MergeShapes(x.value, y.value))
    else y
  }

  ghost function Fold(x: Item, ys: seq<Item>): Item {
    if ys == [] then x else Merge(Fold(x, ys[..|ys| - 1]), ys[|ys| - 1])
  }

  // ---------- One merge ----------

  /** At no path does one side have a leaf and the other a dict. */
  ghost predicate NoConflict(x: Item, y: Item) {
    forall path :: !(At(x, path).ALeaf? && At(y, path).ADict?) && !(At(x, path).ADict? && At(y, path).ALeaf?)
  }

  /** Both sides have the same dict object at `path`. */
  ghost predicate Same(x: Item, y: Item, path: Path) {
    At(x, path).ADict? && At(x, path) == At(y, path)
  }

  /** They do so somewhere on the way to `path`. */
  ghost predicate Meet(x: Item, y: Item, path: Path) {
    exists n :: 0 <= n <= |path| && Same(x, y, path[..n])
  }

  /** The same object has the same contents on both sides, as nested dicts have that are looked at
      at one moment. */
  ghost predicate SameContents(x: Item, y: Item) {
    forall path, more :: Same(x, y, path) ==> At(x, path + more) == At(y, path + more)
  }

  /** Leaves: the second side wins. Dict objects: the first side keeps its own. */
  ghost function Choose(p: Thing, q: Thing): Thing {
    if q.Nothing? || (q.ADict? && p.ADict?) then p else q
  }

  lemma {:induction false} AtKid(x: Item, k: string, path: Path)
    ensures At(x, [k] + path) == At(Kid(x, k), path)
  {
    assert ([k] + path)[1..] == path;
  }

  lemma {:induction false} KidOfMerge(x: Item, y: Item, k: string)
    requires NoConflict(x, y) && !Same(x, y, [])
    ensures Kid(Merge(x, y), k) == Merge(Kid(x, k), Kid(y, k))
  {
    assert !(At(x, []).ALeaf? && At(y, []).ADict?);
  }

  lemma {:induction false} NoConflictBelow(x: Item, y: Item, k: string)
    requires NoConflict(x, y)
    ensures NoConflict(Kid(x, k), Kid(y, k))
  {
    forall path ensures At(Kid(x, k), path) == At(x, [k] + path) && At(Kid(y, k), path) == At(y, [k] + path) {
      AtKid(x, k, path);
      AtKid(y, k, path);
    }
  }

  lemma {:induction false} SameContentsBelow(x: Item, y: Item, k: string)
    requires SameContents(x, y)
    ensures SameContents(Kid(x, k), Kid(y, k))
  {
    forall path, more | Same(Kid(x, k), Kid(y, k), path)
      ensures At(Kid(x, k), path + more) == At(Kid(y, k), path + more)
    {
      AtKid(x, k, path);
      AtKid(y, k, path);
      AtKid(x, k, path + more);
      AtKid(y, k, path + more);
      assert Same(x, y, [k] + path) && [k] + (path + more) == ([k] + path) + more;
    }
  }

  lemma {:induction false} MeetBelow(x: Item, y: Item, path: Path)
    requires path != [] && !Same(x, y, [])
    ensures Meet(x, y, path) <==> Meet(Kid(x, path[0]), Kid(y, path[0]), path[1..])
  {
    var x', y', rest := Kid(x, path[0]), Kid(y, path[0]), path[1..];
    forall n | 1 <= n <= |path| ensures Same(x, y, path[..n]) <==> Same(x', y', rest[..n - 1]) {
      assert path[..n][1..] == rest[..n - 1];
    }
    if Meet(x, y, path) {
      var n :| 0 <= n <= |path| && Same(x, y, path[..n]);
      assert Same(x', y', rest[..n - 1]);
    }
    if Meet(x', y', rest) {
      var n :| 0 <= n <= |rest| && Same(x', y', rest[..n]);
      assert Same(x, y, path[..n + 1]);
    }
  }

  /** One merge, path by path. Below a dict object that both sides share nothing changes. */
  lemma {:induction false} MergeAt(x: Item, y: Item, path: Path)
    requires NoConflict(x, y)
    ensures At(Merge(x, y), path) == if Meet(x, y, path) then At(x, path) else Choose(At(x, path), At(y, path))
    decreases |path|
  {
    assert !(At(x, []).ALeaf? && At(y, []).ADict?);
    if Same(x, y, []) {
      assert path[..0] == [];
    } else if path == [] {
      assert !Meet(x, y, path);
    } else {
      MeetBelow(x, y, path);
      KidOfMerge(x, y, path[0]);
      NoConflictBelow(x, y, path[0]);
      MergeAt(Kid(x, path[0]), Kid(y, path[0]), path[1..]);
    }
  }

  // ---------- The exact condition for "later leaves win" ----------

  ghost function LeafAt(x: Item, path: Path): Option<int> {
    if At(x, path).ALeaf? then Some(At(x, path).v) else None
  }

  /** No leaf of `x` meets a dict of `y`, and no leaf of `y` covers a leaf of `x` further down. */
  ghost predicate LeavesFit(x: Item, y: Item) {
    && (forall path :: !(At(x, path).ALeaf? && At(y, path).ADict?))
    && (forall path, more :: At(y, path).ALeaf? && more != [] ==> LeafAt(x, path + more).None?)
  }

  lemma {:induction false} LeavesFitKid(x: Item, y: Item, k: string)
    requires LeavesFit(x, y)
    ensures LeavesFit(Kid(x, k), Kid(y, k))
  {
    forall path ensures !(At(Kid(x, k), path).ALeaf? && At(Kid(y, k), path).ADict?) {
      AtKid(x, k, path);
      AtKid(y, k, path);
    }
    forall path, more | At(Kid(y, k), path).ALeaf? && more != [] ensures LeafAt(Kid(x, k), path + more).None? {
      AtKid(y, k, path);
      AtKid(x, k, path + more);
      assert [k] + (path + more) == ([k] + path) + more;
    }
  }

  lemma {:induction false} UnderLeafNothing(x: Item, path: Path)
    requires x.None? || x.value.Value?
    ensures path != [] ==> At(x, path).Nothing?
    decreases |path|
  {
    if path != [] {
      UnderLeafNothing(Kid(x, path[0]), path[1..]);
    }
  }

  /** On the way to anything there are dicts. */
  lemma {:induction false} DictOnTheWay(x: Item, path: Path, n: nat)
    requires n < |path| && !At(x, path).Nothing?
    ensures At(x, path[..n]).ADict?
    decreases |path|
  {
    if x.None? || x.value.Value? {
      UnderLeafNothing(x, path);
    } else if n > 0 {
      DictOnTheWay(Kid(x, path[0]), path[1..], n - 1);
      assert path[..n][1..] == path[1..][..n - 1];
    }
  }

  lemma {:induction false} LaterLeafAt(x: Item, y: Item, path: Path)
    requires LeavesFit(x, y) && SameContents(x, y)
    ensures LeafAt(Merge(x, y), path) == if LeafAt(y, path).Some? then LeafAt(y, path) else LeafAt(x, path)
    decreases |path|
  {
    assert !(At(x, []).ALeaf? && At(y, []).ADict?);
    assert [] + path == path;
    if Same(x, y, []) {
      assert At(x, [] + path) == At(y, [] + path);
    } else if path != [] {
      var k := path[0];
      if y.None? {
        UnderLeafNothing(y, path);
      } else if y.value.Value? {
        UnderLeafNothing(y, path);
        assert LeafAt(x, [] + path).None?;
      } else {
        assert Kid(Merge(x, y), k) == Merge(Kid(x, k), Kid(y, k));
        LeavesFitKid(x, y, k);
        SameContentsBelow(x, y, k);
        LaterLeafAt(Kid(x, k), Kid(y, k), path[1..]);
      }
    }
  }

  /** A leaf of `x` meets a dict of `y` at `path`, or a leaf of `y` there covers one of `x`. */
  ghost predicate Misfit(x: Item, y: Item, path: Path, more: Path) {
    || (At(x, path).ALeaf? && At(y, path).ADict?)
    || (At(y, path).ALeaf? && more != [] && LeafAt(x, path + more).Some?)
  }

  lemma {:induction false} MisfitIsNotShared(x: Item, y: Item, path: Path, more: Path)
    requires SameContents(x, y) && Misfit(x, y, path, more)
    ensures !Same(x, y, [])
  {
    if Same(x, y, []) {
      assert [] + path == path && [] + (path + more) == path + more;
      assert At(x, [] + path) == At(y, [] + path) && At(x, [] + (path + more)) == At(y, [] + (path + more));
      if At(y, path).ALeaf? {
        assert (path + more)[..|path|] == path;
        DictOnTheWay(x, path + more, |path|);
      }
    }
  }

  /** Conversely: a misfit breaks the rule. */
  lemma {:induction false} MisfitBreaksRule(x: Item, y: Item, path: Path, more: Path)
    requires SameContents(x, y) && Misfit(x, y, path, more)
    ensures exists p :: LeafAt(Merge(x, y), p) != if LeafAt(y, p).Some? then LeafAt(y, p) else LeafAt(x, p)
    decreases |path|
  {
    MisfitIsNotShared(x, y, path, more);
    if path == [] {
      var p := if At(x, []).ALeaf? && At(y, []).ADict? then [] else more;
      assert [] + more == more;
      if y.value.Value? {
        UnderLeafNothing(y, more);
      }
      assert LeafAt(Merge(x, y), p) != if LeafAt(y, p).Some? then LeafAt(y, p) else LeafAt(x, p);
    } else {
      var k := path[0];
      assert (path + more)[1..] == path[1..] + more;
      SameContentsBelow(x, y, k);
      MisfitBreaksRule(Kid(x, k), Kid(y, k), path[1..], more);
      var q :| LeafAt(Merge(Kid(x, k), Kid(y, k)), q)
               != if LeafAt(Kid(y, k), q).Some? then LeafAt(Kid(y, k), q) else LeafAt(Kid(x, k), q);
      BothSidesAtKid(x, y, path, more, k);
      AtKid(x, k, q);
      AtKid(y, k, q);
      AtKid(Merge(x, y), k, q);
      assert LeafAt(Merge(x, y), [k] + q) == LeafAt(Merge(Kid(x, k), Kid(y, k)), q);
    }
  }

  /** Both sides have something under `k`, so the merge descends there. */
  lemma {:induction false} BothSidesAtKid(x: Item, y: Item, path: Path, more: Path, k: string)
    requires !Same(x, y, []) && path != [] && path[0] == k
    requires !At(x, path).Nothing? || !At(x, path + more).Nothing?
    requires !At(y, path).Nothing?
    ensures Kid(Merge(x, y), k) == Merge(Kid(x, k), Kid(y, k))
  {
    if x.None? || x.value.Value? {
      UnderLeafNothing(x, path);
      UnderLeafNothing(x, path + more);
    }
    if y.None? || y.value.Value? {
      UnderLeafNothing(y, path);
    }
  }

  /** At every leaf path the later side wins and the other leaves stay, if and only if the leaves of
      the two sides fit. The two sides may share dict objects. */
  lemma {:induction false} LaterLeavesWin(x: Item, y: Item)
    requires SameContents(x, y)
    ensures LeavesFit(x, y) <==>
            forall p :: LeafAt(Merge(x, y), p) == if LeafAt(y, p).Some? then LeafAt(y, p) else LeafAt(x, p)
  {
    if LeavesFit(x, y) {
      forall p ensures LeafAt(Merge(x, y), p) == if LeafAt(y, p).Some? then LeafAt(y, p) else LeafAt(x, p) {
        LaterLeafAt(x, y, p);
      }
    } else if path :| At(x, path).ALeaf? && At(y, path).ADict? {
      MisfitBreaksRule(x, y, path, []);
    } else {
      var path, more :| At(y, path).ALeaf? && more != [] && LeafAt(x, path + more).Some?;
      MisfitBreaksRule(x, y, path, more);
    }
  }

  // ---------- Folding ----------

  ghost predicate Compatible(x: Item, ys: seq<Item>) {
    && (forall i :: 0 <= i < |ys| ==> NoConflict(x, ys[i]))
    && (forall i, j :: 0 <= i < j < |ys| ==> NoConflict(ys[i], ys[j]))
  }

  /** Where they share a dict object they agree on what it contains. */
  ghost predicate Coherent(x: Item, ys: seq<Item>) {
    && (forall i :: 0 <= i < |ys| ==> SameContents(x, ys[i]))
    && (forall i, j :: 0 <= i < j < |ys| ==> SameContents(ys[i], ys[j]))
  }

  /** The dict object of the first of them that has a dict at `path`. */
  ghost function Owner(x: Item, ys: seq<Item>, path: Path): Thing {
    if ys == [] then (if At(x, path).ADict? then At(x, path) else Nothing)
    else
      var earlier := Owner(x, ys[..|ys| - 1], path);
      var last := At(ys[|ys| - 1], path);
      if earlier.ADict? then earlier else if last.ADict? then last else Nothing
  }

  /** On the way to `path` configuration `j` holds the dict object that the first configuration with
      a dict there has brought: that dict has been adopted, and merging it into itself does nothing. */
  ghost predicate Skipped(x: Item, ys: seq<Item>, j: nat, path: Path)
    requires j < |ys|
  {
    exists n :: 0 <= n <= |path| && At(ys[j], path[..n]).ADict? && At(ys[j], path[..n]) == Owner(x, ys[..j], path[..n])
  }

  /** What the configurations bring to `path`, without the skipped ones. */
  ghost function Seen(x: Item, ys: seq<Item>, path: Path): seq<Thing> {
    seq(|ys|, j requires 0 <= j < |ys| => if Skipped(x, ys, j, path) then Nothing else At(ys[j], path))
  }

  ghost function FoldThings(p: Thing, qs: seq<Thing>): Thing {
    if qs == [] then p else Choose(FoldThings(p, qs[..|qs| - 1]), qs[|qs| - 1])
  }

  /** A merge takes everything from one of its sides. */
  lemma {:induction false} MergeFromOne(x: Item, y: Item, path: Path)
    requires NoConflict(x, y)
    ensures At(Merge(x, y), path) == At(x, path) || At(Merge(x, y), path) == At(y, path)
  {
    MergeAt(x, y, path);
  }

  /** So does a fold, and it stays compatible with whatever all of them are compatible with. */
  lemma {:induction false} FoldNoConflict(x: Item, ys: seq<Item>, z: Item)
    requires Compatible(x, ys) && NoConflict(x, z) && forall i :: 0 <= i < |ys| ==> NoConflict(ys[i], z)
    ensures NoConflict(Fold(x, ys), z)
  {
    if ys != [] {
      var n := |ys| - 1;
      FoldNoConflict(x, ys[..n], z);
      FoldNoConflict(x, ys[..n], ys[n]);
      forall path ensures At(Fold(x, ys), path) == At(Fold(x, ys[..n]), path) || At(Fold(x, ys), path) == At(ys[n], path) {
        MergeFromOne(Fold(x, ys[..n]), ys[n], path);
      }
    }
  }

  lemma {:induction false} FoldKeepsPeace(x: Item, ys: seq<Item>, i: nat)
    requires Compatible(x, ys) && i < |ys|
    ensures NoConflict(Fold(x, ys), ys[i])
  {
    forall j | 0 <= j < |ys| ensures NoConflict(ys[j], ys[i]) {
      if i < j {
        assert NoConflict(ys[i], ys[j]);
      }
    }
    FoldNoConflict(x, ys, ys[i]);
  }

  /** Whoever has a dict at `path` makes sure that it has an owner. */
  lemma {:induction false} OwnerExists(x: Item, ys: seq<Item>, path: Path, i: nat)
    requires At(x, path).ADict? || (i < |ys| && At(ys[i], path).ADict?)
    ensures Owner(x, ys, path).ADict?
  {
    var n := |ys| - 1;
    if n >= 0 && (At(x, path).ADict? || i < n) {
      OwnerExists(x, ys[..n], path, i);
    }
  }

  /** The owner is one of them. */
  lemma {:induction false} OwnerIsOne(x: Item, ys: seq<Item>, path: Path)
    requires Owner(x, ys, path).ADict?
    ensures At(x, path) == Owner(x, ys, path) || exists i :: 0 <= i < |ys| && At(ys[i], path) == Owner(x, ys, path)
  {
    if ys != [] {
      var n := |ys| - 1;
      if Owner(x, ys[..n], path).ADict? {
        OwnerIsOne(x, ys[..n], path);
        assert forall i :: 0 <= i < n ==> ys[..n][i] == ys[i];
      }
    }
  }

  /** An owner stays the owner. */
  lemma {:induction false} OwnerStays(x: Item, ys: seq<Item>, j: nat, path: Path)
    requires j <= |ys| && Owner(x, ys[..j], path).ADict?
    ensures Owner(x, ys, path) == Owner(x, ys[..j], path)
  {
    if j < |ys| {
      assert ys[..|ys| - 1][..j] == ys[..j];
      OwnerStays(x, ys[..|ys| - 1], j, path);
    } else {
      assert ys[..j] == ys;
    }
  }

  /** What a skipped configuration brings to `path`, an earlier one has brought. */
  lemma {:induction false} SkippedHasTwin(x: Item, ys: seq<Item>, j: nat, path: Path)
    requires Coherent(x, ys) && j < |ys| && Skipped(x, ys, j, path)
    ensures At(x, path) == At(ys[j], path) || exists i :: 0 <= i < j && At(ys[i], path) == At(ys[j], path)
  {
    var n :| 0 <= n <= |path| && At(ys[j], path[..n]).ADict? && At(ys[j], path[..n]) == Owner(x, ys[..j], path[..n]);
    var q, more := path[..n], path[n..];
    assert q + more == path;
    OwnerIsOne(x, ys[..j], q);
    if At(x, q) == Owner(x, ys[..j], q) {
      assert SameContents(x, ys[j]) && Same(x, ys[j], q);
    } else {
      var i :| 0 <= i < j && At(ys[..j][i], q) == Owner(x, ys[..j], q);
      assert SameContents(ys[i], ys[j]) && Same(ys[i], ys[j], q);
    }
  }

  /** Nobody is the first with a dict somewhere and skipped on the way there. */
  ghost predicate Settled(x: Item, ys: seq<Item>) {
    forall j, path :: 0 <= j < |ys| && At(ys[j], path).ADict? && Skipped(x, ys, j, path) ==>
      Owner(x, ys[..j], path).ADict?
  }

  lemma {:induction false} CoherentIsSettled(x: Item, ys: seq<Item>)
    requires Coherent(x, ys)
    ensures Settled(x, ys)
  {
    forall j, path | 0 <= j < |ys| && At(ys[j], path).ADict? && Skipped(x, ys, j, path)
      ensures Owner(x, ys[..j], path).ADict?
    {
      SkippedHasTwin(x, ys, j, path);
      var i :| At(x, path).ADict? || (0 <= i < j && At(ys[..j][i], path).ADict?);
      OwnerExists(x, ys[..j], path, if 0 <= i then i else 0);
    }
  }

  lemma {:induction false} SkippedBefore(x: Item, ys: seq<Item>, n: nat, j: nat, path: Path)
    requires j < n <= |ys|
    ensures Skipped(x, ys[..n], j, path) <==> Skipped(x, ys, j, path)
  {
    assert ys[..n][..j] == ys[..j];
  }

  lemma {:induction false} SettledBefore(x: Item, ys: seq<Item>, n: nat)
    requires Settled(x, ys) && n <= |ys|
    ensures Settled(x, ys[..n])
  {
    forall j, path | 0 <= j < n && At(ys[..n][j], path).ADict? && Skipped(x, ys[..n], j, path)
      ensures Owner(x, ys[..n][..j], path).ADict?
    {
      SkippedBefore(x, ys, n, j, path);
      assert ys[..n][..j] == ys[..j];
    }
  }

  /** The dict object that the merged configuration holds at a path is the owner's. */
  lemma {:induction false} FoldOwner(x: Item, ys: seq<Item>, path: Path)
    requires Compatible(x, ys) && Settled(x, ys)
    ensures At(Fold(x, ys), path).ADict? || Owner(x, ys, path).ADict? ==> At(Fold(x, ys), path) == Owner(x, ys, path)
    decreases |ys|, 1
  {
    if ys != [] {
      var n := |ys| - 1;
      SettledBefore(x, ys, n);
      FoldOwner(x, ys[..n], path);
      FoldNoConflict(x, ys[..n], ys[n]);
      MeetIsSkip(x, ys, path);
      MergeAt(Fold(x, ys[..n]), ys[n], path);
    }
  }

  /** Merging the last configuration meets a shared dict exactly when that configuration is skipped. */
  lemma {:induction false} MeetIsSkip(x: Item, ys: seq<Item>, path: Path)
    requires Compatible(x, ys) && Settled(x, ys) && ys != []
    ensures var n := |ys| - 1; Meet(Fold(x, ys[..n]), ys[n], path) <==> Skipped(x, ys, n, path)
    decreases |ys|, 0
  {
    var n := |ys| - 1;
    var before := Fold(x, ys[..n]);
    SettledBefore(x, ys, n);
    forall m | 0 <= m <= |path|
      ensures Same(before, ys[n], path[..m]) <==>
              At(ys[n], path[..m]).ADict? && At(ys[n], path[..m]) == Owner(x, ys[..n], path[..m])
    {
      FoldOwner(x, ys[..n], path[..m]);
    }
  }

  /** The merged configuration, path by path, whatever dict objects the configurations share: it is
      what the configurations that are not skipped bring, the last leaf or the first dict. */
  lemma {:induction false} FoldAt(x: Item, ys: seq<Item>, path: Path)
    requires Compatible(x, ys) && Settled(x, ys)
    ensures At(Fold(x, ys), path) == FoldThings(At(x, path), Seen(x, ys, path))
  {
    if ys != [] {
      var n := |ys| - 1;
      SettledBefore(x, ys, n);
      FoldAt(x, ys[..n], path);
      FoldNoConflict(x, ys[..n], ys[n]);
      MeetIsSkip(x, ys, path);
      MergeAt(Fold(x, ys[..n]), ys[n], path);
      SeenBefore(x, ys, n, path);
    }
  }

  lemma {:induction false} SeenBefore(x: Item, ys: seq<Item>, n: nat, path: Path)
    requires n <= |ys|
    ensures Seen(x, ys, path)[..n] == Seen(x, ys[..n], path)
  {
    forall j | 0 <= j < n ensures Seen(x, ys, path)[j] == Seen(x, ys[..n], path)[j] {
      SkippedBefore(x, ys, n, j, path);
    }
  }

  // ---------- Precedence ----------

  /** Configuration `j` is the last that defines `path`. */
  ghost predicate LastLeaf(ys: seq<Item>, path: Path, j: nat) {
    j < |ys| && At(ys[j], path).ALeaf? && forall i :: j < i < |ys| ==> !At(ys[i], path).ALeaf?
  }

  ghost predicate Defines(x: Item, ys: seq<Item>, path: Path, j: nat)
    requires j < |ys|
  {
    At(ys[j], path).ALeaf? && !Skipped(x, ys, j, path)
  }

  /** Configuration `u` is the last that defines `path` and is not skipped. */
  ghost predicate LastUnskipped(x: Item, ys: seq<Item>, path: Path, u: nat) {
    u < |ys| && Defines(x, ys, path, u) && forall i :: u < i < |ys| ==> !Defines(x, ys, path, i)
  }

  lemma {:induction false} LastLeafChosen(p: Thing, qs: seq<Thing>, j: nat)
    requires j < |qs| && qs[j].ALeaf? && forall i :: j < i < |qs| ==> qs[i].Nothing?
    ensures FoldThings(p, qs) == qs[j]
  {
    if j < |qs| - 1 {
      LastLeafChosen(p, qs[..|qs| - 1], j);
    }
  }

  lemma {:induction false} NothingChosen(p: Thing, qs: seq<Thing>)
    requires forall i :: 0 <= i < |qs| ==> qs[i].Nothing?
    ensures FoldThings(p, qs) == p
  {
    if qs != [] {
      NothingChosen(p, qs[..|qs| - 1]);
    }
  }

  lemma {:induction false} LeafMeansNoDict(ys: seq<Item>, x: Item, path: Path, j: nat, i: nat)
    requires Compatible(x, ys) && j < |ys| && At(ys[j], path).ALeaf? && i < |ys|
    ensures !At(ys[i], path).ADict?
  {
    if i < j {
      assert NoConflict(ys[i], ys[j]);
    } else if j < i {
      assert NoConflict(ys[j], ys[i]);
    }
  }

  /** The merged leaf is that of the last configuration that is not skipped. */
  lemma {:induction false} LastUnskippedWins(x: Item, ys: seq<Item>, path: Path, u: nat)
    requires Compatible(x, ys) && Coherent(x, ys) && LastUnskipped(x, ys, path, u)
    ensures At(Fold(x, ys), path) == At(ys[u], path)
  {
    CoherentIsSettled(x, ys);
    FoldAt(x, ys, path);
    var qs := Seen(x, ys, path);
    forall i | u < i < |ys| ensures qs[i].Nothing? {
      LeafMeansNoDict(ys, x, path, u, i);
      assert !Defines(x, ys, path, i);
    }
    LastLeafChosen(At(x, path), qs, u);
  }

  /** If all that define `path` are skipped, the starting value stays. */
  lemma {:induction false} AllSkippedKeepsStart(x: Item, ys: seq<Item>, path: Path, j: nat)
    requires Compatible(x, ys) && Coherent(x, ys) && LastLeaf(ys, path, j)
    requires forall i :: 0 <= i < |ys| ==> !Defines(x, ys, path, i)
    ensures At(Fold(x, ys), path) == At(x, path)
  {
    CoherentIsSettled(x, ys);
    FoldAt(x, ys, path);
    forall i | 0 <= i < |ys| ensures Seen(x, ys, path)[i].Nothing? {
      LeafMeansNoDict(ys, x, path, j, i);
      assert !Defines(x, ys, path, i);
    }
    NothingChosen(At(x, path), Seen(x, ys, path));
  }

  lemma {:induction false} FindLast(x: Item, ys: seq<Item>, path: Path, n: nat) returns (u: nat)
    requires n <= |ys| && exists i :: 0 <= i < n && Defines(x, ys, path, i)
    requires forall i :: n <= i < |ys| ==> !Defines(x, ys, path, i)
    ensures LastUnskipped(x, ys, path, u)
  {
    if Defines(x, ys, path, n - 1) {
      u := n - 1;
    } else {
      u := FindLast(x, ys, path, n - 1);
    }
  }

  /** The last configuration that defines `path` and is not skipped has the same value there as
      configuration `j` (or, when all are skipped, the starting point has). */
  ghost predicate Prevails(x: Item, ys: seq<Item>, path: Path, j: nat)
    requires j < |ys|
  {
    || (exists u: nat :: LastUnskipped(x, ys, path, u) && At(ys[u], path) == At(ys[j], path))
    || ((forall i :: 0 <= i < |ys| ==> !Defines(x, ys, path, i)) && At(x, path) == At(ys[j], path))
  }

  /** Precedence, with its exact condition: the merged value at a leaf path is the value of the last
      configuration, in the override order, that defines the path, if and only if that one prevails.
      In particular it is when the last one is not skipped. */
  lemma {:induction false} LastDefinitionWins(x: Item, ys: seq<Item>, path: Path, j: nat)
    requires Compatible(x, ys) && Coherent(x, ys) && LastLeaf(ys, path, j)
    ensures At(Fold(x, ys), path) == At(ys[j], path) <==> Prevails(x, ys, path, j)
    ensures !Skipped(x, ys, j, path) ==> At(Fold(x, ys), path) == At(ys[j], path)
  {
    if exists i :: 0 <= i < |ys| && Defines(x, ys, path, i) {
      var u := FindLast(x, ys, path, |ys|);
      LastUnskippedWins(x, ys, path, u);
      if !Skipped(x, ys, j, path) {
        assert Defines(x, ys, path, j);
        assert u == j;
      }
      forall v | LastUnskipped(x, ys, path, v) ensures v == u {
      }
    } else {
      AllSkippedKeepsStart(x, ys, path, j);
      assert !Defines(x, ys, path, j);
    }
  }

  /** Whoever defines a path first is not skipped, unless the starting point has that very leaf. */
  lemma {:induction false} FirstDefinitionIsSeen(x: Item, ys: seq<Item>, path: Path, j: nat)
    requires Coherent(x, ys) && j < |ys| && At(ys[j], path).ALeaf? && At(x, path).Nothing?
    requires forall i :: 0 <= i < j ==> !At(ys[i], path).ALeaf?
    ensures Defines(x, ys, path, j)
  {
    if Skipped(x, ys, j, path) {
      SkippedHasTwin(x, ys, j, path);
    }
  }

  /** Without shared dict objects nobody is skipped, so the last definition always wins. */
  lemma {:induction false} NothingSharedNobodySkipped(x: Item, ys: seq<Item>, j: nat, path: Path)
    requires j < |ys| && forall i, q :: 0 <= i < j ==> !Same(ys[i], ys[j], q)
    requires forall q :: !Same(x, ys[j], q)
    ensures !Skipped(x, ys, j, path)
  {
    forall n | 0 <= n <= |path| && At(ys[j], path[..n]).ADict? ensures At(ys[j], path[..n]) != Owner(x, ys[..j], path[..n]) {
      if Owner(x, ys[..j], path[..n]).ADict? {
        OwnerIsOne(x, ys[..j], path[..n]);
        assert !Same(x, ys[j], path[..n]);
        assert forall i :: 0 <= i < j ==> ys[..j][i] == ys[i] && !Same(ys[i], ys[j], path[..n]);
      }
    }
  }

  lemma {:induction false} FirstIsOwner(x: Item, ys: seq<Item>, path: Path, j: nat)
    requires !At(x, path).ADict? && j < |ys| && At(ys[j], path).ADict? && forall i :: 0 <= i < j ==> !At(ys[i], path).ADict?
    ensures Owner(x, ys, path) == At(ys[j], path)
  {
    var n := |ys| - 1;
    if j < n {
      FirstIsOwner(x, ys[..n], path, j);
    } else if Owner(x, ys[..n], path).ADict? {
      OwnerIsOne(x, ys[..n], path);
    }
  }

  /** Adoption: the dict that the merged configuration holds at a path is the very object of the
      first configuration that has a dict there, so later merges write into that configuration. */
  lemma {:induction false} FirstDictIsAdopted(x: Item, ys: seq<Item>, path: Path, j: nat)
    requires Compatible(x, ys) && Coherent(x, ys) && !At(x, path).ADict?
    requires j < |ys| && At(ys[j], path).ADict? && forall i :: 0 <= i < j ==> !At(ys[i], path).ADict?
    ensures At(Fold(x, ys), path) == At(ys[j], path)
  {
    CoherentIsSettled(x, ys);
    FirstIsOwner(x, ys, path, j);
    FoldOwner(x, ys, path);
  }

  // ---------- Merging again ----------

  /** For a run that starts from `r`, the list `zs` is like `ys`: the same leaves, dicts at the same
      paths, and the same dict objects shared with `r`. */
  ghost predicate Alike(r: Item, ys: seq<Item>, zs: seq<Item>) {
    && |ys| == |zs|
    && forall i, path :: 0 <= i < |ys| ==>
         && At(ys[i], path).ADict? == At(zs[i], path).ADict?
         && (At(ys[i], path).ADict? || At(ys[i], path) == At(zs[i], path))
         && Same(r, ys[i], path) == Same(r, zs[i], path)
  }

  lemma {:induction false} AlikeCompatible(x: Item, ys: seq<Item>, zs: seq<Item>)
    requires Compatible(x, ys) && Alike(Fold(x, ys), ys, zs)
    ensures Compatible(Fold(x, ys), zs)
  {
    var r := Fold(x, ys);
    forall i | 0 <= i < |zs| ensures NoConflict(r, zs[i]) {
      FoldKeepsPeace(x, ys, i);
      assert forall path :: At(ys[i], path).ADict? == At(zs[i], path).ADict?;
    }
    forall i, j | 0 <= i < j < |zs| ensures NoConflict(zs[i], zs[j]) {
      assert NoConflict(ys[i], ys[j]);
      assert forall path :: At(ys[i], path).ADict? == At(zs[i], path).ADict? && At(ys[j], path).ADict? == At(zs[j], path).ADict?;
    }
  }

  /** The merged configuration has a dict wherever a configuration has one. */
  lemma {:induction false} DictsAreCovered(x: Item, ys: seq<Item>, i: nat, path: Path)
    requires Compatible(x, ys) && Settled(x, ys) && i < |ys| && At(ys[i], path).ADict?
    ensures At(Fold(x, ys), path).ADict?
  {
    OwnerExists(x, ys, path, i);
    FoldOwner(x, ys, path);
  }

  lemma {:induction false} OwnerIsStart(r: Item, zs: seq<Item>, path: Path)
    requires At(r, path).ADict?
    ensures Owner(r, zs, path) == At(r, path)
  {
    if zs != [] {
      OwnerIsStart(r, zs[..|zs| - 1], path);
    }
  }

  /** In a run that starts from a configuration with all the dicts, a configuration is skipped
      exactly where it shares a dict with that one. */
  lemma {:induction false} SkippedAgain(r: Item, zs: seq<Item>, j: nat, path: Path)
    requires j < |zs| && forall q :: At(zs[j], q).ADict? ==> At(r, q).ADict?
    ensures Skipped(r, zs, j, path) <==> Meet(r, zs[j], path)
  {
    forall n | 0 <= n <= |path| && At(zs[j], path[..n]).ADict? ensures Owner(r, zs[..j], path[..n]) == At(r, path[..n]) {
      OwnerIsStart(r, zs[..j], path[..n]);
    }
    if Meet(r, zs[j], path) {
      var n :| 0 <= n <= |path| && Same(r, zs[j], path[..n]);
      assert At(zs[j], path[..n]) == Owner(r, zs[..j], path[..n]);
    }
    if Skipped(r, zs, j, path) {
      var n :| 0 <= n <= |path| && At(zs[j], path[..n]).ADict? && At(zs[j], path[..n]) == Owner(r, zs[..j], path[..n]);
      assert Same(r, zs[j], path[..n]);
    }
  }

  /** Folding a selection of the same leaves again changes nothing, if it leaves out no leaf that
      comes after one it takes. */
  lemma {:induction false} FoldThingsAgain(p: Thing, qs: seq<Thing>, again: seq<Thing>)
    requires !p.ADict? && |qs| == |again|
    requires forall i :: 0 <= i < |qs| ==> !qs[i].ADict? && (again[i].Nothing? || again[i] == qs[i])
    requires forall i, j :: 0 <= i < j < |qs| && again[i].ALeaf? && qs[j].ALeaf? ==> again[j] == qs[j]
    ensures FoldThings(FoldThings(p, qs), again) == FoldThings(p, qs)
  {
    if qs != [] {
      var n := |qs| - 1;
      if qs[n].Nothing? {
        FoldThingsAgain(p, qs[..n], again[..n]);
      } else if again[n].Nothing? {
        NothingChosen(FoldThings(p, qs), again);
      }
    }
  }

  /** If a configuration that was not skipped is skipped in a later run, no earlier one defines
      anything below the dict it shares. */
  lemma {:induction false} NewlySkippedIsFirst(x: Item, ys: seq<Item>, k: nat, j: nat, path: Path)
    requires Compatible(x, ys) && Settled(x, ys) && k < j < |ys|
    requires At(ys[k], path).ALeaf? && At(ys[j], path).ALeaf? && Meet(Fold(x, ys), ys[j], path)
    ensures Skipped(x, ys, j, path)
  {
    var n :| 0 <= n <= |path| && Same(Fold(x, ys), ys[j], path[..n]);
    var q := path[..n];
    assert n == |path| ==> q == path;
    DictOnTheWay(ys[k], path, n);
    assert ys[..j][k] == ys[k];
    OwnerExists(x, ys[..j], q, k);
    OwnerStays(x, ys, j, q);
    FoldOwner(x, ys, q);
  }

  lemma {:induction false} SkippedStays(x: Item, ys: seq<Item>, j: nat, path: Path)
    requires Compatible(x, ys) && Settled(x, ys) && j < |ys| && Skipped(x, ys, j, path)
    ensures Meet(Fold(x, ys), ys[j], path)
  {
    var n :| 0 <= n <= |path| && At(ys[j], path[..n]).ADict? && At(ys[j], path[..n]) == Owner(x, ys[..j], path[..n]);
    OwnerStays(x, ys, j, path[..n]);
    FoldOwner(x, ys, path[..n]);
    assert Same(Fold(x, ys), ys[j], path[..n]);
  }

  lemma {:induction false} AlikeMeet(r: Item, ys: seq<Item>, zs: seq<Item>, j: nat, path: Path)
    requires Alike(r, ys, zs) && j < |ys|
    ensures Meet(r, ys[j], path) <==> Meet(r, zs[j], path)
  {
    assert forall n :: 0 <= n <= |path| ==> Same(r, ys[j], path[..n]) == Same(r, zs[j], path[..n]);
  }

  /** The later run is settled, and what it sees. */
  lemma {:induction false} SeenAgain(x: Item, ys: seq<Item>, zs: seq<Item>, j: nat, path: Path)
    requires Compatible(x, ys) && Settled(x, ys) && Alike(Fold(x, ys), ys, zs) && j < |ys|
    ensures Skipped(Fold(x, ys), zs, j, path) <==> Meet(Fold(x, ys), ys[j], path)
    ensures At(zs[j], path).ADict? ==> Owner(Fold(x, ys), zs[..j], path).ADict?
  {
    var r := Fold(x, ys);
    forall q | At(zs[j], q).ADict? ensures At(r, q).ADict? {
      assert At(ys[j], q).ADict? == At(zs[j], q).ADict?;
      DictsAreCovered(x, ys, j, q);
    }
    SkippedAgain(r, zs, j, path);
    AlikeMeet(r, ys, zs, j, path);
    if At(zs[j], path).ADict? {
      OwnerIsStart(r, zs[..j], path);
    }
  }

  lemma {:induction false} LeafAgain(x: Item, ys: seq<Item>, zs: seq<Item>, path: Path)
    requires Compatible(x, ys) && Settled(x, ys) && Alike(Fold(x, ys), ys, zs) && !Owner(x, ys, path).ADict?
    ensures FoldThings(FoldThings(At(x, path), Seen(x, ys, path)), Seen(Fold(x, ys), zs, path))
         == FoldThings(At(x, path), Seen(x, ys, path))
  {
    var r := Fold(x, ys);
    var qs, again := Seen(x, ys, path), Seen(r, zs, path);
    forall i | 0 <= i < |ys| ensures !At(ys[i], path).ADict? && !At(x, path).ADict? {
      if At(x, path).ADict? || At(ys[i], path).ADict? {
        OwnerExists(x, ys, path, i);
      }
    }
    if At(x, path).ADict? {
      OwnerExists(x, ys, path, 0);
    }
    forall i | 0 <= i < |ys| ensures again[i] == if Meet(r, ys[i], path) then Nothing else At(ys[i], path) {
      SeenAgain(x, ys, zs, i, path);
      assert At(ys[i], path).ADict? || At(ys[i], path) == At(zs[i], path);
    }
    forall i | 0 <= i < |ys| ensures again[i].Nothing? || again[i] == qs[i] {
      if Skipped(x, ys, i, path) {
        SkippedStays(x, ys, i, path);
      }
    }
    forall i, j | 0 <= i < j < |ys| && again[i].ALeaf? && qs[j].ALeaf? ensures again[j] == qs[j] {
      if Meet(r, ys[j], path) {
        NewlySkippedIsFirst(x, ys, i, j, path);
      }
    }
    FoldThingsAgain(At(x, path), qs, again);
  }

  /** Merging such a list into the merged configuration changes nothing: every path leads to the
      same leaf or the same dict object as before. */
  lemma {:induction false} AgainAt(x: Item, ys: seq<Item>, zs: seq<Item>, path: Path)
    requires Compatible(x, ys) && Settled(x, ys) && Alike(Fold(x, ys), ys, zs)
    ensures At(Fold(Fold(x, ys), zs), path) == At(Fold(x, ys), path)
  {
    var r := Fold(x, ys);
    AlikeCompatible(x, ys, zs);
    forall j, q | 0 <= j < |zs| && At(zs[j], q).ADict? && Skipped(r, zs, j, q) ensures Owner(r, zs[..j], q).ADict? {
      SeenAgain(x, ys, zs, j, q);
    }
    FoldOwner(x, ys, path);
    if At(r, path).ADict? {
      OwnerIsStart(r, zs, path);
      FoldOwner(r, zs, path);
    } else {
      FoldAt(x, ys, path);
      FoldAt(r, zs, path);
      LeafAgain(x, ys, zs, path);
    }
  }

  /** Merging the same configurations again into the merged one changes nothing. `Merge` skips a
      dict that is merged into itself, so the shapes of the configurations stand for their dicts as
      they are by now: where a configuration shares a dict with the merged one it has the contents
      of the merged one, and elsewhere it is as it was. */
  lemma {:induction false} MergingAgainChangesNothing(x: Item, ys: seq<Item>, path: Path)
    requires Compatible(x, ys) && Coherent(x, ys)
    ensures At(Fold(Fold(x, ys), ys), path) == At(Fold(x, ys), path)
  {
    CoherentIsSettled(x, ys);
    AgainAt(x, ys, ys, path);
  }

  /** Paths tell shapes apart. */
  lemma {:induction false} SamePathsSameShape(x: Shape, y: Shape)
    requires forall path :: At(Some(x), path) == At(Some(y), path)
    ensures x == y
  {
    assert At(Some(x), []) == At(Some(y), []);
    if x.Node? {
      forall k ensures Kid(Some(x), k) == Kid(Some(y), k) {
        forall path ensures At(Kid(Some(x), k), path) == At(Kid(Some(y), k), path) {
          AtKid(Some(x), k, path);
          AtKid(Some(y), k, path);
        }
        assert At(Kid(Some(x), k), []) == At(Kid(Some(y), k), []);
        if k in x.kids {
          SamePathsSameShape(x.kids[k], y.kids[k]);
        }
      }
      SameKidsSameMap(Some(x), Some(y));
    }
  }

  lemma {:induction false} SameKidsSameMap(x: Item, y: Item)
    requires x.Some? && y.Some? && x.value.Node? && y.value.Node? && forall k :: Kid(x, k) == Kid(y, k)
    ensures x.value.kids == y.value.kids
  {
    forall k ensures k in x.value.kids <==> k in y.value.kids {
      assert Kid(x, k) == Kid(y, k);
    }
    forall k | k in x.value.kids ensures x.value.kids[k] == y.value.kids[k] {
      assert Kid(x, k) == Kid(y, k);
    }
  }

  /** The same list with other dict objects at the roots: `to_dict` and `_get_attr` may build the
      outermost dict of a configuration anew for every run. */
  ghost predicate Rebuilt(ys: seq<Item>, zs: seq<Item>) {
    && |ys| == |zs|
    && forall i :: 0 <= i < |ys| ==> SameBelow(ys[i], zs[i])
  }

  ghost predicate SameBelow(y: Item, z: Item) {
    y == z || (y.Some? && z.Some? && y.value.Node? && z.value.Node? && y.value.kids == z.value.kids)
  }

  /** `x` is a dict object that is none of the roots of `ys`. */
  ghost predicate RootApart(x: Item, ys: seq<Item>) {
    x.Some? && x.value.Node? && forall i :: 0 <= i < |ys| ==> !Same(x, ys[i], [])
  }

  lemma {:induction false} RebuiltIsAlike(x: Item, ys: seq<Item>, zs: seq<Item>)
    requires Compatible(x, ys) && Settled(x, ys) && RootApart(x, ys) && RootApart(x, zs) && Rebuilt(ys, zs)
    ensures Alike(Fold(x, ys), ys, zs) && At(Fold(x, ys), []) == At(x, [])
  {
    OwnerIsStart(x, ys, []);
    FoldOwner(x, ys, []);
    forall i, path | 0 <= i < |ys| && path != [] ensures At(ys[i], path) == At(zs[i], path) {
      assert Kid(ys[i], path[0]) == Kid(zs[i], path[0]);
    }
    forall i | 0 <= i < |ys| ensures At(ys[i], []).ADict? == At(zs[i], []).ADict?
      ensures At(ys[i], []).ADict? || At(ys[i], []) == At(zs[i], [])
      ensures !Same(Fold(x, ys), ys[i], []) && !Same(Fold(x, ys), zs[i], [])
    {
      assert !Same(x, ys[i], []) && !Same(x, zs[i], []);
    }
  }

  /** A later run of `merge_configs` changes nothing at all, even with rebuilt roots. */
  lemma {:induction false} LaterRunChangesNothing(x: Item, ys: seq<Item>, zs: seq<Item>)
    requires Compatible(x, ys) && Coherent(x, ys)
    requires Rebuilt(ys, zs) && RootApart(x, ys) && RootApart(x, zs)
    ensures Fold(Fold(x, ys), zs) == Fold(x, ys) && Compatible(Fold(x, ys), zs)
  {
    var r := Fold(x, ys);
    CoherentIsSettled(x, ys);
    RebuiltIsAlike(x, ys, zs);
    AlikeCompatible(x, ys, zs);
    forall path ensures At(Fold(r, zs), path) == At(r, path) {
      AgainAt(x, ys, zs, path);
    }
    assert At(Fold(r, zs), []) == At(r, []);
    SamePathsSameShape(Fold(r, zs).value, r.value);
  }

  lemma {:induction false} NothingBelow(x: Item, path: Path)
    requires x.None?
    ensures At(x, path).Nothing?
  {
    UnderLeafNothing(x, path);
  }

  ghost function TwoLevels(c: Dict, d: Dict, n: int): Item {
    Some(Node(c, map["x" := Node(d, map["p" := Value(n)])]))
  }

  lemma {:induction false} TwoLevelsAt(c: Dict, d: Dict, n: int, path: Path)
    ensures At(TwoLevels(c, d, n), path) ==
            if path == [] then ADict(c) else if path == ["x"] then ADict(d)
            else if path == ["x", "p"] then ALeaf(n) else Nothing
  {
    var x := TwoLevels(c, d, n);
    assert |path| == 1 && path[0] == "x" ==> path == ["x"];
    assert |path| == 2 && path[0] == "x" && path[1] == "p" ==> path == ["x", "p"];
    if path != [] {
      if path[0] != "x" {
        NothingBelow(Kid(x, path[0]), path[1..]);
      } else if |path| > 1 {
        if path[1] != "p" {
          NothingBelow(Kid(Kid(x, "x"), path[1]), path[1..][1..]);
        } else {
          UnderLeafNothing(Kid(Kid(x, "x"), "p"), path[1..][1..]);
          assert At(Kid(x, "x"), path[1..]) == At(Kid(Kid(x, "x"), "p"), path[1..][1..]);
        }
      }
    }
  }

  lemma {:induction false} OneKeyMerge(r: Dict, c: Dict, k: string, a: Shape, b: Shape)
    requires r != c
    ensures MergeShapes(Node(r, map[]), Node(c, map[k := b])) == Node(r, map[k := b])
    ensures MergeShapes(Node(r, map[k := a]), Node(c, map[k := b]))
         == Node(r, map[k := if a.Node? && b.Node? then MergeShapes(a, b) else b])
  {
    assert MergeShapes(Node(r, map[]), Node(c, map[k := b])).kids == map[k := b];
    assert MergeShapes(Node(r, map[k := a]), Node(c, map[k := b])).kids
        == map[k := if a.Node? && b.Node? then MergeShapes(a, b) else b];
  }

  lemma {:induction false} TwoLevelsAgree(c: Dict, d: Dict, n: int, c': Dict, d': Dict, n': int)
    ensures NoConflict(TwoLevels(c, d, n), TwoLevels(c', d', n')) && NoConflict(Some(Node(c, map[])), TwoLevels(c', d', n'))
  {
    forall path ensures At(Some(Node(c, map[])), path) == if path == [] then ADict(c) else Nothing {
      if path != [] {
        NothingBelow(Kid(Some(Node(c, map[])), path[0]), path[1..]);
      }
    }
    var x, y := TwoLevels(c, d, n), TwoLevels(c', d', n');
    forall path ensures At(x, path).ALeaf? == At(y, path).ALeaf? && At(x, path).ADict? == At(y, path).ADict?
      ensures At(y, path).ALeaf? ==> path != []
    {
      TwoLevelsAt(c, d, n, path);
      TwoLevelsAt(c', d', n', path);
    }
  }

  lemma {:induction false} TwoLevelsCoherent(c: Dict, d: Dict, n: int, c': Dict, d': Dict, n': int)
    requires c != c' && (d == d' ==> n == n')
    ensures SameContents(TwoLevels(c, d, n), TwoLevels(c', d', n'))
  {
    var x, y := TwoLevels(c, d, n), TwoLevels(c', d', n');
    forall path, more | Same(x, y, path) ensures At(x, path + more) == At(y, path + more) {
      TwoLevelsAt(c, d, n, path);
      TwoLevelsAt(c', d', n', path);
      TwoLevelsAt(c, d, n, path + more);
      TwoLevelsAt(c', d', n', path + more);
    }
  }

  lemma {:induction false} EmptyIsCoherent(root: Dict, y: Item)
    requires !Same(Some(Node(root, map[])), y, [])
    ensures SameContents(Some(Node(root, map[])), y)
  {
    var g := Some(Node(root, map[]));
    forall path ensures !Same(g, y, path) {
      if path != [] {
        NothingBelow(Kid(g, path[0]), path[1..]);
      }
    }
  }

  /** A last definition that loses. The first and the last configuration hold the same dict object
      `d` under "x", with "p" set to 1, as a class and its subclass do; the one between sets "p" to
      2, in `d` as that has been adopted by then, and the last one, being skipped, cannot set it
      back. */
  lemma {:induction false} SharedDictBreaksPrecedence(root: Dict, d: Dict, other: Dict, c1: Dict, c2: Dict, c3: Dict)
    requires root !in {d, other, c1, c2, c3} && d != other && c1 != c2 && c1 != c3 && c2 != c3
    ensures var g, ys := Some(Node(root, map[])), [TwoLevels(c1, d, 1), TwoLevels(c2, other, 2), TwoLevels(c3, d, 1)];
            && Compatible(g, ys) && Coherent(g, ys) && LastLeaf(ys, ["x", "p"], 2)
            && At(ys[2], ["x", "p"]) == ALeaf(1) && At(Fold(g, ys), ["x", "p"]) == ALeaf(2)
  {
    var g := Some(Node(root, map[]));
    var y1, y2, y3 := TwoLevels(c1, d, 1), TwoLevels(c2, other, 2), TwoLevels(c3, d, 1);
    OneKeyMerge(d, other, "p", Value(1), Value(2));
    OneKeyMerge(root, c1, "x", Value(0), y1.value.kids["x"]);
    OneKeyMerge(root, c2, "x", y1.value.kids["x"], y2.value.kids["x"]);
    OneKeyMerge(root, c3, "x", Node(d, map["p" := Value(2)]), y3.value.kids["x"]);
    assert [y1, y2, y3][..2] == [y1, y2] && [y1, y2][..1] == [y1] && [y1][..0] == [];
    assert Fold(g, [y1]) == TwoLevels(root, d, 1);
    assert Fold(g, [y1, y2]) == TwoLevels(root, d, 2);
    TwoLevelsAt(c3, d, 1, ["x", "p"]);
    TwoLevelsAt(root, d, 2, ["x", "p"]);
    ThreeAgree(root, d, other, c1, c2, c3);
    hide NoConflict, At, Fold, SameContents;
  }

  lemma {:induction false} ThreeAgree(root: Dict, d: Dict, other: Dict, c1: Dict, c2: Dict, c3: Dict)
    requires root !in {d, other, c1, c2, c3} && d != other && c1 != c2 && c1 != c3 && c2 != c3
    ensures var g, ys := Some(Node(root, map[])), [TwoLevels(c1, d, 1), TwoLevels(c2, other, 2), TwoLevels(c3, d, 1)];
            Compatible(g, ys) && Coherent(g, ys)
  {
    hide NoConflict, SameContents;
    TwoLevelsAgree(root, d, 0, c1, d, 1);
    TwoLevelsAgree(root, d, 0, c2, other, 2);
    TwoLevelsAgree(root, d, 0, c3, d, 1);
    TwoLevelsAgree(c1, d, 1, c2, other, 2);
    TwoLevelsAgree(c1, d, 1, c3, d, 1);
    TwoLevelsAgree(c2, other, 2, c3, d, 1);
    EmptyIsCoherent(root, TwoLevels(c1, d, 1));
    EmptyIsCoherent(root, TwoLevels(c2, other, 2));
    EmptyIsCoherent(root, TwoLevels(c3, d, 1));
    TwoLevelsCoherent(c1, d, 1, c2, other, 2);
    TwoLevelsCoherent(c1, d, 1, c3, d, 1);
    TwoLevelsCoherent(c2, other, 2, c3, d, 1);
  }
}
