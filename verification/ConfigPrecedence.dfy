/** Precedence of configurations as it shows in the dict objects: what looking up a path finds after
    `_merge` and `merge_configs`, when no dict object stands at two different paths, and what goes
    wrong when one does. */
module ConfigPrecedence {
  import opened Basics
  import opened ConfigMerge
  import opened ConfigMergeObjects

  // ---------- Looking up a path ----------

  /** What looking up `path`, key by key, finds. */
  ghost function HeapAt(e: Entry, path: Path): Thing
    reads *
    decreases |path|
  {
    match e
    case Leaf(v) => if path == [] then ALeaf(v) else Nothing
    case Sub(d) =>
      if path == [] then ADict(d)
      else if path[0] in d.entries then HeapAt(d.entries[path[0]], path[1..])
      else Nothing
  }

  ghost function HeapLeaf(e: Entry, path: Path): Option<int>
    reads *
  {
    if HeapAt(e, path).ALeaf? then Some(HeapAt(e, path).v) else None
  }

  /** Dict objects that hold what a shape says are looked up as the shape says. */
  lemma {:induction false} HeapAtShape(sh: Shape, path: Path)
    requires Matches(sh)
    ensures HeapAt(EntryOf(sh), path) == At(Some(sh), path)
    decreases |path|
  {
    if path != [] {
      if sh.Node? && path[0] in sh.kids {
        HeapAtShape(sh.kids[path[0]], path[1..]);
      } else {
        NothingBelow(Kid(Some(sh), path[0]), path[1..]);
      }
    }
  }

  // ---------- One place for every dict object ----------

  /** No dict object stands at two different paths of these nested dicts, in one or across them. */
  ghost predicate OnePlace(zs: seq<Shape>) {
    forall i, j, p, q :: 0 <= i < |zs| && 0 <= j < |zs| && At(Some(zs[i]), p).ADict? && At(Some(zs[i]), p) == At(Some(zs[j]), q) ==> p == q
  }

  ghost function PlaceIn(zs: seq<Shape>, o: Dict): Path {
    if exists i, p :: 0 <= i < |zs| && At(Some(zs[i]), p) == ADict(o)
    then var i, p :| 0 <= i < |zs| && At(Some(zs[i]), p) == ADict(o); p
    else []
  }

  ghost function SubAt(x: Item, path: Path): Item
    decreases |path|
  {
    if path == [] then x else SubAt(Kid(x, path[0]), path[1..])
  }

  lemma {:induction false} AtIsSubAt(x: Item, path: Path)
    ensures At(x, path) == At(SubAt(x, path), [])
    decreases |path|
  {
    if path != [] {
      AtIsSubAt(Kid(x, path[0]), path[1..]);
    }
  }

  lemma {:induction false} SubAtAppend(x: Item, path: Path, more: Path)
    ensures SubAt(x, path + more) == SubAt(SubAt(x, path), more)
    decreases |path|
  {
    if path == [] {
      assert path + more == more;
    } else {
      assert (path + more)[1..] == path[1..] + more;
      SubAtAppend(Kid(x, path[0]), path[1..], more);
    }
  }

  /** Then every dict object can be given its place. */
  lemma {:induction false} OnePlaceIsPlaced(zs: seq<Shape>, i: nat, sh: Shape, path: Path)
    requires OnePlace(zs) && i < |zs| && SubAt(Some(zs[i]), path) == Some(sh)
    ensures Placed(sh, Spot(path, (o: Dict) => PlaceIn(zs, o)))
    decreases sh
  {
    if sh.Node? {
      AtIsSubAt(Some(zs[i]), path);
      assert At(Some(zs[i]), path) == ADict(sh.obj);
      forall k | k in sh.kids ensures Placed(sh.kids[k], Under(Spot(path, (o: Dict) => PlaceIn(zs, o)), k)) {
        SubAtAppend(Some(zs[i]), path, [k]);
        assert SubAt(Some(sh), [k]) == SubAt(Kid(Some(sh), k), []);
        OnePlaceIsPlaced(zs, i, sh.kids[k], path + [k]);
      }
    }
  }

  // ---------- Precedence on the dict objects ----------

  lemma {:induction false} LookUpLeaves(sh: Shape)
    requires Matches(sh)
    ensures forall path :: HeapLeaf(EntryOf(sh), path) == LeafAt(Some(sh), path)
  {
    forall path ensures HeapLeaf(EntryOf(sh), path) == LeafAt(Some(sh), path) {
      HeapAtShape(sh, path);
    }
  }

  ghost function TopOf(zs: seq<Shape>): Spot {
    Spot([], (o: Dict) => PlaceIn(zs, o))
  }

  lemma {:induction false} BeforeMergeDicts(sa: Shape, sb: Shape)
    requires sa.Node? && sb.Node? && Matches(sa) && Matches(sb) && OnePlace([sa, sb])
    ensures Placed(sa, TopOf([sa, sb])) && Placed(sb, TopOf([sa, sb])) && OwnMatches(sb, Objs(sa))
    ensures SameContents(Some(sa), Some(sb))
    ensures forall path :: HeapLeaf(Sub(sa.obj), path) == LeafAt(Some(sa), path)
    ensures forall path :: HeapLeaf(Sub(sb.obj), path) == LeafAt(Some(sb), path)
  {
    OnePlaceIsPlaced([sa, sb], 0, sa, []);
    OnePlaceIsPlaced([sa, sb], 1, sb, []);
    MatchesIsOwnMatches(sb, Objs(sa));
    forall path, more | Same(Some(sa), Some(sb), path) ensures At(Some(sa), path + more) == At(Some(sb), path + more) {
      MatchingSameContents(sa, sb, path, more);
    }
    LookUpLeaves(sa);
    LookUpLeaves(sb);
  }

  lemma {:induction false} AfterMergeDicts(sa: Shape, sb: Shape)
    requires sa.Node? && sb.Node? && Matches(MergeShapes(sa, sb)) && SameContents(Some(sa), Some(sb))
    ensures LeavesFit(Some(sa), Some(sb)) <==>
            forall path :: HeapLeaf(Sub(sa.obj), path) ==
              if LeafAt(Some(sb), path).Some? then LeafAt(Some(sb), path) else LeafAt(Some(sa), path)
  {
    hide LeavesFit, LeafAt, HeapLeaf;
    LookUpLeaves(MergeShapes(sa, sb));
    LaterLeavesWin(Some(sa), Some(sb));
  }

  /** `_merge(a, b)`: at every leaf path the later side wins and the other leaves stay, if and only if
      the leaves of the two sides fit. */
  method MergeDicts(a: Dict, b: Dict, ghost sa: Shape, ghost sb: Shape)
    requires sa.Node? && sa.obj == a && sb.Node? && sb.obj == b
    requires Matches(sa) && Matches(sb) && OnePlace([sa, sb])
    modifies Objs(sa)
    ensures Matches(MergeShapes(sa, sb))
    ensures LeavesFit(Some(sa), Some(sb)) <==>
            forall path :: HeapLeaf(Sub(a), path) ==
              if old(HeapLeaf(Sub(b), path)).Some? then old(HeapLeaf(Sub(b), path)) else old(HeapLeaf(Sub(a), path))
  {
    hide Matches, OwnMatches, Placed, Objs, MergeShapes, OnePlace, LeavesFit, LeafAt, HeapLeaf, SameContents, TopOf;
    BeforeMergeDicts(sa, sb);
    MergeInto(a, b, sa, sb, TopOf([sa, sb]));
    AfterMergeDicts(sa, sb);
  }

  lemma {:induction false} BeforeFirstRun(g: Shape, cs: seq<Shape>)
    requires g.Node? && AllNodes(cs) && Matches(g) && (forall i :: 0 <= i < |cs| ==> Matches(cs[i])) && OnePlace([g] + cs)
    ensures Ready(g, cs, TopOf([g] + cs)) && Coherent(Some(g), Items(cs))
  {
    var zs := [g] + cs;
    OnePlaceIsPlaced(zs, 0, g, []);
    forall i | 0 <= i < |cs| ensures Placed(cs[i], TopOf(zs)) {
      assert zs[i + 1] == cs[i];
      OnePlaceIsPlaced(zs, i + 1, cs[i], []);
    }
    ReadyAtFirst(g, cs, TopOf(zs));
    MatchingIsCoherent(g, cs);
  }

  lemma {:induction false} LookUp(sh: Shape)
    requires Matches(sh)
    ensures forall path :: HeapAt(EntryOf(sh), path) == At(Some(sh), path)
  {
    forall path ensures HeapAt(EntryOf(sh), path) == At(Some(sh), path) {
      HeapAtShape(sh, path);
    }
  }

  /** What looking up finds in the merged configuration. */
  lemma {:induction false} PrecedenceAfter(g: Shape, cs: seq<Shape>, path: Path, j: nat)
    requires g.Node? && AllNodes(cs) && Matches(Merged(g, cs))
    requires Compatible(Some(g), Items(cs)) && Coherent(Some(g), Items(cs)) && LastLeaf(Items(cs), path, j)
    ensures HeapAt(Sub(g.obj), path) == At(Some(cs[j]), path) <==> Prevails(Some(g), Items(cs), path, j)
  {
    MergedIsNode(g, cs);
    HeapAtShape(Merged(g, cs), path);
    LastDefinitionWins(Some(g), Items(cs), path, j);
  }

  /** The first run of `merge_configs`: what looking up a leaf path finds is the value of the last
      configuration, in the override order, that defines it, if and only if that one prevails. */
  method MergeRegistered(final: Dict, configs: seq<Dict>, ghost g: Shape, ghost cs: seq<Shape>)
    requires g.Node? && g.obj == final && Matches(g) && AllNodes(cs) && |cs| == |configs|
    requires forall i :: 0 <= i < |cs| ==> cs[i].obj == configs[i] && Matches(cs[i])
    requires OnePlace([g] + cs) && Compatible(Some(g), Items(cs))
    modifies Objs(g), AllObjs(cs)
    ensures Ready(Merged(g, cs), cs, TopOf([g] + cs))
    ensures forall path, j: nat :: LastLeaf(Items(cs), path, j) ==>
              (HeapAt(Sub(final), path) == old(HeapAt(Sub(configs[j]), path)) <==> Prevails(Some(g), Items(cs), path, j))
  {
    hide Matches, Objs, OnePlace, Compatible, Coherent, AllObjs, Prevails, HeapAt, At, KeptWhileShared, TopOf, Merged, Ready, LastLeaf;
    BeforeFirstRun(g, cs);
    CompatibleKeeps(g, cs);
    forall i | 0 <= i < |cs| ensures forall path :: HeapAt(Sub(configs[i]), path) == At(Some(cs[i]), path) {
      LookUp(cs[i]);
    }
    MergeConfigs(final, configs, g, cs, TopOf([g] + cs));
    forall path, j: nat | LastLeaf(Items(cs), path, j)
      ensures j < |cs| && (HeapAt(Sub(final), path) == At(Some(cs[j]), path) <==> Prevails(Some(g), Items(cs), path, j))
    {
      LastLeafIn(Items(cs), path, j);
      PrecedenceAfter(g, cs, path, j);
    }
  }

  lemma {:induction false} LastLeafIn(ys: seq<Item>, path: Path, j: nat)
    requires LastLeaf(ys, path, j)
    ensures j < |ys|
  {
  }

  // ---------- A dict object at two paths ----------

  /** The nested dict defines one leaf, at `path`, and nothing else. */
  ghost predicate OnlyLeaf(sh: Shape, path: Path, v: int)
    decreases |path|
  {
    if path == [] then sh == Value(v)
    else sh.Node? && sh.kids.Keys == {path[0]} && OnlyLeaf(sh.kids[path[0]], path[1..], v)
  }

  lemma {:induction false} OnlyLeafAt(sh: Shape, path: Path, v: int, at: Path)
    requires OnlyLeaf(sh, path, v)
    ensures At(Some(sh), at).ALeaf? <==> at == path
    ensures At(Some(sh), at).ADict? <==> at < path
    ensures At(Some(sh), path) == ALeaf(v)
    decreases |path|
  {
    if path == [] {
      UnderLeafNothing(Some(sh), at);
    } else {
      assert at != [] ==> at == [at[0]] + at[1..];
      assert path == [path[0]] + path[1..];
      OnlyLeafAt(sh.kids[path[0]], path[1..], v, if at == [] then [] else at[1..]);
      if at != [] && at[0] != path[0] {
        NothingBelow(Kid(Some(sh), at[0]), at[1..]);
      }
    }
  }

  lemma {:induction false} OneKid(d: Dict, k: string, kid: Shape)
    requires Matches(kid) && d.entries == map[k := EntryOf(kid)]
    ensures Matches(Node(d, map[k := kid])) && Objs(Node(d, map[k := kid])) == {d} + Objs(kid)
  {
    var sh := Node(d, map[k := kid]);
    assert sh.kids[k] == kid && sh.kids.Keys == {k};
    forall o | o in Objs(kid) ensures o in Objs(sh) {
      assert k in sh.kids && o in Objs(sh.kids[k]);
    }
  }

  method BuildOneLeaf(path: Path, v: int) returns (e: Entry, ghost sb: Shape)
    ensures e == EntryOf(sb) && OnlyLeaf(sb, path, v) && Matches(sb) && fresh(Objs(sb))
    decreases |path|
  {
    if path == [] {
      return Leaf(v), Value(v);
    }
    var inner;
    ghost var kid;
    inner, kid := BuildOneLeaf(path[1..], v);
    ObjsExist(kid);
    var d := new Dict();
    hide Matches, Objs;
    d.entries := map[path[0] := inner];
    sb := Node(d, map[path[0] := kid]);
    e := Sub(d);
    OneKid(d, path[0], kid);
  }

  /** A nested dict does not contain itself. */
  lemma {:induction false} NotInItself(sh: Shape, path: Path)
    requires path != []
    ensures SubAt(Some(sh), path) != Some(sh)
    decreases sh
  {
    if SubAt(Some(sh), path) == Some(sh) {
      var k := path[0];
      if sh.Node? && k in sh.kids {
        SubAtAppend(Some(sh.kids[k]), path[1..], [k]);
        assert SubAt(Some(sh), [k]) == SubAt(Kid(Some(sh), k), []);
        NotInItself(sh.kids[k], path[1..] + [k]);
      } else {
        NothingSubAt(path[1..]);
      }
    }
  }

  lemma {:induction false} NothingSubAt(path: Path)
    ensures SubAt(None, path) == None
    decreases |path|
  {
    if path != [] {
      NothingSubAt(path[1..]);
    }
  }

  lemma {:induction false} SubAtMatches(sh: Shape, path: Path)
    requires Matches(sh) && SubAt(Some(sh), path).Some?
    ensures Matches(SubAt(Some(sh), path).value)
    decreases |path|
  {
    if path != [] {
      if sh.Node? && path[0] in sh.kids {
        SubAtMatches(sh.kids[path[0]], path[1..]);
      } else {
        NothingSubAt(path[1..]);
      }
    }
  }

  /** The dict objects on the way to `path`, without the one at its end. */
  ghost function Ancestors(sh: Shape, path: Path): set<Dict>
    decreases |path|
  {
    if path == [] || sh.Value? then {}
    else {sh.obj} + if path[0] in sh.kids then Ancestors(sh.kids[path[0]], path[1..]) else {}
  }

  /** They hold what the shape says. */
  ghost predicate OnPath(sh: Shape, path: Path)
    reads Ancestors(sh, path)
    decreases |path|
  {
    path != [] ==>
      sh.Node? && path[0] in sh.kids && RootMatches(sh.obj, sh.kids) && OnPath(sh.kids[path[0]], path[1..])
  }

  lemma {:induction false} MatchesOnPath(sh: Shape, path: Path)
    requires Matches(sh) && !At(Some(sh), path).Nothing?
    ensures OnPath(sh, path)
    decreases |path|
  {
    if path != [] {
      if sh.Node? && path[0] in sh.kids {
        MatchesOnPath(sh.kids[path[0]], path[1..]);
      } else {
        NothingBelow(Kid(Some(sh), path[0]), path[1..]);
      }
    }
  }

  lemma {:induction false} WalkDown(sh: Shape, path: Path, more: Path)
    requires OnPath(sh, path)
    ensures SubAt(Some(sh), path).Some?
    ensures HeapAt(EntryOf(sh), path + more) == HeapAt(EntryOf(SubAt(Some(sh), path).value), more)
    decreases |path|
  {
    if path == [] {
      assert path + more == more;
    } else {
      assert (path + more)[1..] == path[1..] + more;
      WalkDown(sh.kids[path[0]], path[1..], more);
    }
  }

  /** No dict object stands above itself. */
  lemma {:induction false} NotItsOwnAncestor(sh: Shape, path: Path, d: Dict)
    requires Matches(sh) && At(Some(sh), path) == ADict(d)
    ensures d !in Ancestors(sh, path)
    decreases |path|
  {
    if path != [] {
      AtIsSubAt(Some(sh), path);
      var sub := SubAt(Some(sh), path).value;
      SubAtMatches(sh, path);
      if sh.Value? || path[0] !in sh.kids {
        NothingBelow(Kid(Some(sh), path[0]), path[1..]);
      } else {
        if sh.obj == d {
          MatchingShapesEqual(sh, sub);
          NotInItself(sh, path);
        }
        NotItsOwnAncestor(sh.kids[path[0]], path[1..], d);
      }
    }
  }

  lemma {:induction false} NotAboveItself(sh: Shape, p: Path, q: Path, d: Dict)
    requires Matches(sh) && At(Some(sh), p) == ADict(d) && At(Some(sh), q) == ADict(d) && p != q
    ensures !(q <= p)
  {
    if q <= p {
      var rest := p[|q|..];
      assert q + rest == p;
      SubAtAppend(Some(sh), q, rest);
      AtIsSubAt(Some(sh), q);
      AtIsSubAt(Some(sh), p);
      var sub := SubAt(Some(sh), q).value;
      SubAtMatches(sh, q);
      AtIsSubAt(Some(sub), rest);
      NotItsOwnAncestor(sub, rest, d);
    }
  }

  /** `_merge(a, b)` when `b` defines one leaf only, at a path that leads through dicts of `a` to `d`:
      its loop has one key at every level, and the only write goes to `d`. No assumption is made on
      where else the dict objects of `a` stand. */
  method MergeOneLeaf(a: Dict, b: Dict, ghost path: Path, ghost v: int, ghost sa: Shape, ghost sb: Shape, ghost d: Dict)
    requires sa.Node? && sa.obj == a && Matches(sa) && sb.Node? && sb.obj == b && Matches(sb)
    requires path != [] && OnlyLeaf(sb, path, v) && At(Some(sa), path[..|path| - 1]) == ADict(d)
    modifies d
    ensures d.entries == old(d.entries)[path[|path| - 1] := Leaf(v)]
    decreases |path|
  {
    var k :| k in b.entries;
    assert k == path[0];
    if |path| > 1 {
      OneStepDown(sa, path, d);
    }
    if k in a.entries && a.entries[k].Sub? && b.entries[k].Sub? {
      MergeOneLeaf(a.entries[k].d, b.entries[k].d, path[1..], v, sa.kids[k], sb.kids[k], d);
    } else {
      a.entries := a.entries[k := b.entries[k]];
    }
  }

  lemma {:induction false} OneStepDown(sa: Shape, path: Path, d: Dict)
    requires |path| > 1 && At(Some(sa), path[..|path| - 1]) == ADict(d)
    ensures sa.Node? && path[0] in sa.kids && sa.kids[path[0]].Node?
    ensures At(Some(sa.kids[path[0]]), path[1..][..|path| - 2]) == ADict(d)
  {
    var p := path[..|path| - 1];
    assert p[1..] == path[1..][..|path| - 2];
    if !(sa.Node? && path[0] in sa.kids) {
      NothingBelow(Kid(Some(sa), path[0]), p[1..]);
    } else if sa.kids[path[0]].Value? {
      UnderLeafNothing(Some(sa.kids[path[0]]), p[1..]);
    }
  }

  /** The leaves fit: all that the second side has on the way are dicts where the first has dicts. */
  lemma {:induction false} OneLeafFits(sa: Shape, sb: Shape, p: Path, k: string, v: int)
    requires OnlyLeaf(sb, p + [k], v) && At(Some(sa), p).ADict? && !At(Some(sa), p + [k]).ADict?
    ensures LeavesFit(Some(sa), Some(sb))
  {
    forall path ensures !(At(Some(sa), path).ALeaf? && At(Some(sb), path).ADict?) {
      OnlyLeafAt(sb, p + [k], v, path);
      if path < p {
        DictOnTheWay(Some(sa), p, |path|);
        assert p[..|path|] == path;
      } else if path < p + [k] {
        assert path == p;
      }
    }
    forall path, more | At(Some(sb), path).ALeaf? && more != [] ensures LeafAt(Some(sa), path + more).None? {
      OnlyLeafAt(sb, p + [k], v, path);
      assert (path + more)[..|path|] == path;
      if LeafAt(Some(sa), path + more).Some? {
        DictOnTheWay(Some(sa), path + more, |path|);
      }
    }
  }

  /** So one place for every dict object is what precedence needs: whenever some dict object of the
      first side stands at two different paths `p` and `q`, then for every key and value there is a
      second side `b` that defines nothing but the leaf under `p`, and merging it sets that leaf under
      `q` too. Unless the first side has a dict under that key, the leaves of the two sides fit. */
  method TwoPlacesBreakPrecedence(a: Dict, p: Path, q: Path, k: string, v: int, ghost sa: Shape, ghost d: Dict)
    returns (b: Dict, ghost sb: Shape)
    requires sa.Node? && sa.obj == a && Matches(sa)
    requires p != q && At(Some(sa), p) == ADict(d) && At(Some(sa), q) == ADict(d)
    modifies d
    ensures fresh(b) && sb.Node? && sb.obj == b && Matches(sb) && OnlyLeaf(sb, p + [k], v)
    ensures At(Some(sb), q + [k]).Nothing? && HeapAt(Sub(a), q + [k]) == ALeaf(v)
    ensures !At(Some(sa), p + [k]).ADict? ==> LeavesFit(Some(sa), Some(sb))
  {
    var e;
    ObjsExist(sa);
    hide Matches, Objs, At, LeavesFit, HeapAt, SubAt, OnPath, Ancestors;
    e, sb := BuildOneLeaf(p + [k], v);
    OnlyLeafIsDict(sb, p + [k], v);
    b := e.d;
    ObjsExist(sb);
    assert (p + [k])[..|p|] == p;
    BeforeTwoPlaces(sa, sb, p, q, k, v, d);
    MergeOneLeaf(a, b, p + [k], v, sa, sb, d);
    LeafUnder(sa, q, d, k, v);
  }

  lemma {:induction false} OnlyLeafIsDict(sb: Shape, path: Path, v: int)
    requires OnlyLeaf(sb, path, v) && path != []
    ensures sb.Node? && sb.obj in Objs(sb)
  {
  }

  lemma {:induction false} LeafUnder(sa: Shape, q: Path, d: Dict, k: string, v: int)
    requires OnPath(sa, q) && At(Some(sa), q) == ADict(d) && k in d.entries && d.entries[k] == Leaf(v)
    ensures HeapAt(EntryOf(sa), q + [k]) == ALeaf(v)
  {
    WalkDown(sa, q, [k]);
    AtIsSubAt(Some(sa), q);
    assert [k][1..] == [];
  }

  lemma {:induction false} AncestorsInside(sh: Shape, path: Path)
    ensures Ancestors(sh, path) <= Objs(sh)
    decreases |path|
  {
    if path != [] && sh.Node? && path[0] in sh.kids {
      AncestorsInside(sh.kids[path[0]], path[1..]);
    }
  }

  lemma {:induction false} ShorterPrefix(p: Path, q: Path, k: string)
    requires q + [k] <= p + [k]
    ensures q <= p
  {
    assert q == (q + [k])[..|q|] == (p + [k])[..|q|] == p[..|q|];
  }

  lemma {:induction false} BeforeTwoPlaces(sa: Shape, sb: Shape, p: Path, q: Path, k: string, v: int, d: Dict)
    requires Matches(sa) && OnlyLeaf(sb, p + [k], v)
    requires p != q && At(Some(sa), p) == ADict(d) && At(Some(sa), q) == ADict(d)
    ensures OnPath(sa, q) && d !in Ancestors(sa, q) && Ancestors(sa, q) <= Objs(sa)
    ensures At(Some(sb), q + [k]).Nothing?
    ensures !At(Some(sa), p + [k]).ADict? ==> LeavesFit(Some(sa), Some(sb))
  {
    MatchesOnPath(sa, q);
    AncestorsInside(sa, q);
    NotItsOwnAncestor(sa, q, d);
    NotAboveItself(sa, p, q, d);
    OnlyLeafAt(sb, p + [k], v, q + [k]);
    if q + [k] <= p + [k] {
      ShorterPrefix(p, q, k);
    }
    if !At(Some(sa), p + [k]).ADict? {
      OneLeafFits(sa, sb, p, k, v);
    }
  }
}
