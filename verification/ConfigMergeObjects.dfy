/** `_merge` of conf_util.py on the dict objects themselves, proved against MergeShapes. */
module ConfigMergeObjects {
  import opened Basics
  import opened ConfigMerge

  // ---------- Shapes and the heap ----------

  ghost function Objs(sh: Shape): set<Dict> {
    match sh
    case Value(_) => {}
    case Node(obj, kids) => {obj} + set k, o | k in kids && o in Objs(kids[k]) :: o
  }

  lemma {:induction false} ObjsExist(sh: Shape)
    ensures forall o :: o in Objs(sh) ==> allocated(o)
  {
    if sh.Node? {
      forall k | k in sh.kids ensures forall o :: o in Objs(sh.kids[k]) ==> allocated(o) {
        ObjsExist(sh.kids[k]);
      }
    }
  }

  ghost function EntryOf(sh: Shape): Entry {
    if sh.Value? then Leaf(sh.v) else Sub(sh.obj)
  }

  ghost predicate RootMatches(obj: Dict, kids: map<string, Shape>)
    reads obj
  {
    obj.entries.Keys == kids.Keys && forall k :: k in kids ==> obj.entries[k] == EntryOf(kids[k])
  }

  /** The dict objects hold what the shape says. */
  ghost predicate Matches(sh: Shape)
    reads Objs(sh)
  {
    sh.Node? ==> RootMatches(sh.obj, sh.kids) && forall k :: k in sh.kids ==> Matches(sh.kids[k])
  }

  /** The dict objects of the shape that are not in `shared` hold what the shape says. */
  ghost predicate OwnMatches(sh: Shape, shared: set<Dict>)
    reads Objs(sh) - shared
  {
    sh.Node? ==>
      && (sh.obj !in shared ==> RootMatches(sh.obj, sh.kids))
      && forall k :: k in sh.kids ==> OwnMatches(sh.kids[k], shared)
  }

  /** A path, together with an assignment of one place to every dict object. */
  datatype Spot = Spot(path: Path, placeOf: Dict -> Path)

  ghost function Under(d: Spot, k: string): Spot {
    d.(path := d.path + [k])
  }

  /** Every dict object of the shape sits at its place, `d` being the place of the root. */
  ghost predicate Placed(sh: Shape, d: Spot) {
    sh.Node? ==> d.placeOf(sh.obj) == d.path && forall k :: k in sh.kids ==> Placed(sh.kids[k], Under(d, k))
  }

  lemma {:induction false} PlacedBelow(sh: Shape, d: Spot, o: Dict)
    requires Placed(sh, d) && o in Objs(sh)
    ensures d.path <= d.placeOf(o) && (d.placeOf(o) == d.path ==> o == sh.obj)
  {
    if o != sh.obj {
      var k :| k in sh.kids && o in Objs(sh.kids[k]);
      PlacedBelow(sh.kids[k], Under(d, k), o);
      assert d.path <= d.path + [k];
    }
  }

  /** An object placed under key `k` of a shape is in the part of the shape under `k`. */
  lemma {:induction false} PlacedUnder(sh: Shape, d: Spot, k: string, o: Dict)
    requires Placed(sh, d) && o in Objs(sh) && d.path + [k] <= d.placeOf(o)
    ensures sh.Node? && k in sh.kids && o in Objs(sh.kids[k])
  {
    PlacedBelow(sh, d, o);
    assert o != sh.obj;
    var j :| j in sh.kids && o in Objs(sh.kids[j]);
    PlacedBelow(sh.kids[j], Under(d, j), o);
    assert d.placeOf(o)[|d.path|] == j && (d.path + [k])[|d.path|] == k;
  }

  /** Parts of placed shapes under different keys share no object. */
  lemma {:induction false} PlacedApart(x: Shape, y: Shape, d: Spot, j: string, k: string)
    requires j != k && Placed(x, Under(d, j)) && Placed(y, Under(d, k))
    ensures Objs(x) !! Objs(y)
  {
    assert (d.path + [j])[|d.path|] == j && (d.path + [k])[|d.path|] == k;
    forall o | o in Objs(x) ensures o !in Objs(y) {
      PlacedBelow(x, Under(d, j), o);
      if o in Objs(y) {
        PlacedBelow(y, Under(d, k), o);
      }
    }
  }

  lemma {:induction false} MergedPlaced(a: Shape, b: Shape, d: Spot)
    requires a.Node? && b.Node? && Placed(a, d) && Placed(b, d)
    ensures Placed(MergeShapes(a, b), d)
    decreases b
  {
    if a.obj != b.obj {
      var r := MergeShapes(a, b);
      forall k | k in r.kids ensures Placed(r.kids[k], Under(d, k)) {
        if k in a.kids && k in b.kids && a.kids[k].Node? && b.kids[k].Node? {
          MergedPlaced(a.kids[k], b.kids[k], Under(d, k));
        }
      }
    }
  }

  lemma {:induction false} OwnMatchesNarrow(sh: Shape, shared: set<Dict>, fewer: set<Dict>)
    requires OwnMatches(sh, shared) && forall o :: o in Objs(sh) && o in shared ==> o in fewer
    ensures OwnMatches(sh, fewer)
  {
    if sh.Node? {
      forall k | k in sh.kids ensures OwnMatches(sh.kids[k], fewer) {
        OwnMatchesNarrow(sh.kids[k], shared, fewer);
      }
    }
  }

  lemma {:induction false} OwnMatchesAll(sh: Shape, shared: set<Dict>)
    requires OwnMatches(sh, shared) && Objs(sh) !! shared
    ensures Matches(sh)
  {
    if sh.Node? {
      forall k | k in sh.kids ensures Matches(sh.kids[k]) {
        OwnMatchesAll(sh.kids[k], shared);
      }
    }
  }

  lemma {:induction false} OwnMatchesNothing(sh: Shape, shared: set<Dict>)
    requires Objs(sh) <= shared
    ensures OwnMatches(sh, shared)
  {
    if sh.Node? {
      forall k | k in sh.kids ensures OwnMatches(sh.kids[k], shared) {
        OwnMatchesNothing(sh.kids[k], shared);
      }
    }
  }

  // ---------- The loop of _merge ----------

  /** What the merge leaves under key `k` of `b`. */
  ghost function MergedKid(a: Shape, b: Shape, k: string): Shape
    requires a.Node? && b.Node? && k in b.kids
  {
    if k in a.kids && a.kids[k].Node? && b.kids[k].Node? then MergeShapes(a.kids[k], b.kids[k]) else b.kids[k]
  }

  /** The first dict after the keys in `done` have been merged. */
  ghost function Partly(a: Shape, b: Shape, done: set<string>): (r: Shape)
    requires a.Node? && b.Node? && done <= b.kids.Keys
    ensures r.Node? && r.obj == a.obj && r.kids.Keys == a.kids.Keys + done
  {
    Node(a.obj, map k | k in a.kids.Keys + done :: if k in done then MergedKid(a, b, k) else a.kids[k])
  }

  lemma {:induction false} PartlyPlaced(a: Shape, b: Shape, done: set<string>, d: Spot)
    requires a.Node? && b.Node? && done <= b.kids.Keys && Placed(a, d) && Placed(b, d)
    ensures Placed(Partly(a, b, done), d)
  {
    forall k | k in done ensures Placed(MergedKid(a, b, k), Under(d, k)) {
      if k in a.kids && a.kids[k].Node? && b.kids[k].Node? {
        MergedPlaced(a.kids[k], b.kids[k], Under(d, k));
      }
    }
  }

  /** The finished loop: nothing has changed if the two dicts are one, and otherwise the merge. */
  lemma {:induction false} PartlyDone(a: Shape, b: Shape)
    requires a.Node? && b.Node?
    ensures a.obj != b.obj ==> Partly(a, b, b.kids.Keys) == MergeShapes(a, b)
    ensures Partly(a, a, a.kids.Keys) == a
    ensures Partly(a, b, {}) == a
  {
    assert a.kids.Keys + {} == a.kids.Keys;
  }

  lemma {:induction false} KeysInside(sh: Shape, k: string)
    requires sh.Node?
    ensures sh.obj in Objs(sh) && (k in sh.kids ==> Objs(sh.kids[k]) <= Objs(sh))
  {
  }

  /** The root is none of the objects below it. */
  lemma {:induction false} RootNotBelow(sh: Shape, d: Spot, k: string, kid: Shape)
    requires sh.Node? && Placed(sh, d) && Placed(kid, Under(d, k))
    ensures sh.obj !in Objs(kid)
  {
    if sh.obj in Objs(kid) {
      PlacedBelow(kid, Under(d, k), sh.obj);
    }
  }

  /** What stands under other keys is apart from the root and from the part under `k`. */
  lemma {:induction false} PartlyApart(a: Shape, b: Shape, done: set<string>, d: Spot, k: string)
    requires a.Node? && b.Node? && done <= b.kids.Keys && Placed(a, d) && Placed(b, d) && k in b.kids
    ensures var p := Partly(a, b, done);
            forall j :: j in p.kids ==>
              a.obj !in Objs(p.kids[j]) && (k in a.kids && j != k ==> Objs(p.kids[j]) !! Objs(a.kids[k]))
    ensures a.obj !in Objs(b.kids[k])
    ensures k in a.kids ==> a.obj !in Objs(a.kids[k])
  {
    var p := Partly(a, b, done);
    PartlyPlaced(a, b, done, d);
    RootNotBelow(a, d, k, b.kids[k]);
    if k in a.kids {
      RootNotBelow(a, d, k, a.kids[k]);
    }
    forall j | j in p.kids
      ensures a.obj !in Objs(p.kids[j]) && (k in a.kids && j != k ==> Objs(p.kids[j]) !! Objs(a.kids[k]))
    {
      RootNotBelow(p, d, j, p.kids[j]);
      if k in a.kids && j != k {
        PlacedApart(p.kids[j], a.kids[k], d, j, k);
      }
    }
  }

  /** What `b` brings under a key where `a` has no dict is its own. */
  lemma {:induction false} AdoptedIsOwn(a: Shape, b: Shape, d: Spot, k: string)
    requires a.Node? && b.Node? && Placed(a, d) && Placed(b, d) && OwnMatches(b, Objs(a))
    requires k in b.kids && (b.kids[k].Node? ==> k !in a.kids || a.kids[k].Value?)
    ensures Matches(b.kids[k])
  {
    if b.kids[k].Node? {
      forall o | o in Objs(b.kids[k]) ensures o !in Objs(a) {
        PlacedBelow(b.kids[k], Under(d, k), o);
        if o in Objs(a) {
          PlacedUnder(a, d, k, o);
        }
      }
      OwnMatchesAll(b.kids[k], Objs(a));
    }
  }

  /** Under a key where both have dicts, what matched apart from `a` matches apart from that part. */
  lemma {:induction false} OwnUnderKey(a: Shape, b: Shape, d: Spot, k: string)
    requires a.Node? && b.Node? && Placed(a, d) && Placed(b, d) && OwnMatches(b, Objs(a))
    requires k in a.kids && k in b.kids
    ensures OwnMatches(b.kids[k], Objs(a.kids[k]))
  {
    forall o | o in Objs(b.kids[k]) && o in Objs(a) ensures o in Objs(a.kids[k]) {
      PlacedBelow(b.kids[k], Under(d, k), o);
      PlacedUnder(a, d, k, o);
    }
    OwnMatchesNarrow(b.kids[k], Objs(a), Objs(a.kids[k]));
  }

  /** One more key done. */
  lemma {:induction false} PartlyNext(a: Shape, b: Shape, done: set<string>, k: string)
    requires a.Node? && b.Node? && done <= b.kids.Keys && k in b.kids
    ensures Partly(a, b, done + {k}).kids == Partly(a, b, done).kids[k := MergedKid(a, b, k)]
    ensures k !in done && k in a.kids ==> Partly(a, b, done).kids[k] == a.kids[k]
  {
  }

  ghost function KidsObjs(kids: map<string, Shape>): set<Dict> {
    set k, o | k in kids && o in Objs(kids[k]) :: o
  }

  ghost predicate KidsMatch(kids: map<string, Shape>)
    reads KidsObjs(kids)
  {
    forall k :: k in kids ==> Matches(kids[k])
  }

  lemma {:induction false} MatchesParts(sh: Shape)
    requires sh.Node?
    ensures Matches(sh) <==> RootMatches(sh.obj, sh.kids) && KidsMatch(sh.kids)
  {
  }

  /** What does not change during the loop: `sa` is the first dict as it was, `eb` the second, except
      that the two are the same if the dicts are. */
  ghost predicate Setting(a: Dict, b: Dict, sa: Shape, eb: Shape, d: Spot) {
    && sa.Node? && sa.obj == a && eb.Node? && eb.obj == b
    && (if a == b then eb == sa else b !in Objs(sa))
    && Placed(sa, d) && Placed(eb, d)
  }

  ghost predicate SecondMatches(eb: Shape, shared: set<Dict>)
    requires eb.Node?
    reads eb.obj, Objs(eb) - shared
  {
    RootMatches(eb.obj, eb.kids) && OwnMatches(eb, shared)
  }

  /** The loop has done the keys in `done`. */
  ghost predicate Midway(a: Dict, b: Dict, sa: Shape, eb: Shape, done: set<string>, d: Spot)
    reads Objs(eb), if sa.Node? && eb.Node? && done <= eb.kids.Keys then Objs(Partly(sa, eb, done)) else {}
  {
    && Setting(a, b, sa, eb, d) && SecondMatches(eb, Objs(sa))
    && done <= eb.kids.Keys && Matches(Partly(sa, eb, done))
  }

  /** Where the loop starts. If the two dicts are one, its shape stands for both; if not, `b` is no
      part of `a`. */
  lemma {:induction false} Begin(sa: Shape, sb: Shape, d: Spot)
    requires sa.Node? && sb.Node? && Placed(sa, d) && Placed(sb, d) && OwnMatches(sb, Objs(sa)) && Matches(sa)
    ensures var eb := if sa.obj == sb.obj then sa else sb;
            Midway(sa.obj, sb.obj, sa, eb, {}, d) && sb.obj.entries.Keys == eb.kids.Keys
  {
    if sa.obj == sb.obj {
      OwnMatchesNothing(sa, Objs(sa));
      PartlyDone(sa, sa);
    } else {
      if sb.obj in Objs(sa) {
        PlacedBelow(sa, d, sb.obj);
      }
      PartlyDone(sa, sb);
    }
  }

  /** Where it ends. */
  lemma {:induction false} Finish(sa: Shape, sb: Shape, d: Spot)
    requires sa.Node? && sb.Node?
    requires var eb := if sa.obj == sb.obj then sa else sb; Midway(sa.obj, sb.obj, sa, eb, eb.kids.Keys, d)
    ensures Matches(MergeShapes(sa, sb))
  {
    PartlyDone(sa, sb);
  }

  /** `_merge(a, b)`. `sa` and `sb` are the shapes of the two dicts; where `b` shares a dict object
      with `a`, `sb` need not be up to date. Afterwards `a` has the merged shape, and only dicts that
      were part of `a` have been written to. */
  method MergeInto(a: Dict, b: Dict, ghost sa: Shape, ghost sb: Shape, ghost d: Spot)
    requires sa.Node? && sa.obj == a && sb.Node? && sb.obj == b
    requires Placed(sa, d) && Placed(sb, d)
    requires Matches(sa) && OwnMatches(sb, Objs(sa))
    modifies Objs(sa)
    ensures Matches(MergeShapes(sa, sb))
    decreases sa, 1
  {
    ghost var eb := if a == b then sa else sb;
    hide Matches, OwnMatches, Placed, Objs, MergeShapes, Partly, Midway;
    Begin(sa, sb, d);
    ghost var done: set<string> := {};
    var todo := b.entries.Keys;
    while todo != {}
      invariant eb.Node? && done + todo == eb.kids.Keys && done !! todo
      invariant Midway(a, b, sa, eb, done, d)
      decreases todo
    {
      var k :| k in todo;
      EntriesAt(a, b, sa, eb, done, d, k);
      if k in a.entries && a.entries[k].Sub? && b.entries[k].Sub? {
        MergeSubDict(a, b, sa, eb, done, d, k);
      } else {
        StoreEntry(a, b, sa, eb, done, d, k);
      }
      todo, done := todo - {k}, done + {k};
    }
    assert done == eb.kids.Keys;
    Finish(sa, sb, d);
  }

  /** Under a key that is still to be done both dicts hold what their shapes say. */
  lemma {:induction false} EntriesAt(a: Dict, b: Dict, sa: Shape, eb: Shape, done: set<string>, d: Spot, k: string)
    requires Midway(a, b, sa, eb, done, d) && k in eb.kids && k !in done
    ensures k in b.entries && b.entries[k] == EntryOf(eb.kids[k])
    ensures k in a.entries <==> k in sa.kids
    ensures k in sa.kids ==> a.entries[k] == EntryOf(sa.kids[k]) && Objs(sa.kids[k]) <= Objs(sa)
    ensures a in Objs(sa)
  {
    PartlyNext(sa, eb, done, k);
    KeysInside(sa, k);
    MatchesParts(Partly(sa, eb, done));
  }

  /** What the loop has to leave alone when it does key `k`. */
  lemma {:induction false} RestApart(a: Dict, b: Dict, sa: Shape, eb: Shape, done: set<string>, d: Spot, k: string)
    requires Midway(a, b, sa, eb, done, d) && k in eb.kids && k !in done
    ensures var rest := Partly(sa, eb, done).kids - {k};
            && KidsMatch(rest) && a !in KidsObjs(rest) && (forall o :: o in KidsObjs(rest) ==> allocated(o))
            && (k in sa.kids ==> KidsObjs(rest) !! Objs(sa.kids[k]))
    ensures forall o :: o in Objs(eb) ==> allocated(o)
    ensures a !in Objs(eb.kids[k]) && (k in sa.kids ==> a !in Objs(sa.kids[k]))
    ensures RootMatches(a, Partly(sa, eb, done).kids)
  {
    MatchesParts(Partly(sa, eb, done));
    PartlyApart(sa, eb, done, d, k);
    forall j | j in Partly(sa, eb, done).kids ensures forall o :: o in Objs(Partly(sa, eb, done).kids[j]) ==> allocated(o) {
      ObjsExist(Partly(sa, eb, done).kids[j]);
    }
    ObjsExist(eb);
  }

  /** Putting the pieces together after key `k`. */
  lemma {:induction false} KeyDone(a: Dict, b: Dict, sa: Shape, eb: Shape, done: set<string>, d: Spot, k: string)
    requires Setting(a, b, sa, eb, d) && SecondMatches(eb, Objs(sa))
    requires done <= eb.kids.Keys && k in eb.kids && k !in done
    requires KidsMatch(Partly(sa, eb, done).kids - {k}) && Matches(MergedKid(sa, eb, k))
    requires RootMatches(a, Partly(sa, eb, done).kids[k := MergedKid(sa, eb, k)])
    ensures Midway(a, b, sa, eb, done + {k}, d)
  {
    var p, q := Partly(sa, eb, done), Partly(sa, eb, done + {k});
    PartlyNext(sa, eb, done, k);
    MatchesParts(q);
    forall j | j in q.kids ensures Matches(q.kids[j]) {
      assert j != k ==> j in p.kids - {k} && q.kids[j] == (p.kids - {k})[j];
    }
  }

  /** What the merge below `k` needs. */
  lemma {:induction false} Descend(a: Dict, b: Dict, sa: Shape, eb: Shape, done: set<string>, d: Spot, k: string)
    requires Midway(a, b, sa, eb, done, d) && k in eb.kids && k !in done
    requires k in sa.kids && sa.kids[k].Node? && eb.kids[k].Node?
    ensures Setting(a, b, sa, eb, d) && SecondMatches(eb, Objs(sa)) && eb.obj == b && done <= eb.kids.Keys
    ensures k in a.entries && a.entries[k] == Sub(sa.kids[k].obj) && k in b.entries && b.entries[k] == Sub(eb.kids[k].obj)
    ensures Placed(sa.kids[k], Under(d, k)) && Placed(eb.kids[k], Under(d, k))
    ensures Matches(sa.kids[k]) && OwnMatches(eb.kids[k], Objs(sa.kids[k]))
    ensures Objs(sa.kids[k]) <= Objs(sa) && b !in Objs(sa.kids[k])
    ensures Partly(sa, eb, done).kids[k := MergedKid(sa, eb, k)].Keys == Partly(sa, eb, done).kids.Keys
    ensures k in Partly(sa, eb, done).kids && EntryOf(Partly(sa, eb, done).kids[k]) == EntryOf(MergedKid(sa, eb, k))
    ensures MergedKid(sa, eb, k) == MergeShapes(sa.kids[k], eb.kids[k])
  {
    EntriesAt(a, b, sa, eb, done, d, k);
    OwnUnderKey(sa, eb, d, k);
    PartlyNext(sa, eb, done, k);
    MatchesParts(Partly(sa, eb, done));
    PartlyApart(sa, eb, done, d, k);
  }

  /** The branch where both sides have a dict under `k`. */
  method MergeSubDict(a: Dict, b: Dict, ghost sa: Shape, ghost eb: Shape, ghost done: set<string>, ghost d: Spot, k: string)
    requires Midway(a, b, sa, eb, done, d) && k in eb.kids && k !in done
    requires k in sa.kids && sa.kids[k].Node? && eb.kids[k].Node?
    modifies Objs(sa.kids[k])
    ensures Midway(a, b, sa, eb, done + {k}, d)
    decreases sa, 0
  {
    hide Matches, OwnMatches, Placed, Objs, MergeShapes, MergedKid, Partly, KidsMatch, KidsObjs, Midway, Setting, SecondMatches;
    Descend(a, b, sa, eb, done, d, k);
    RestApart(a, b, sa, eb, done, d, k);
    MergeInto(a.entries[k].d, b.entries[k].d, sa.kids[k], eb.kids[k], Under(d, k));
    KeyDone(a, b, sa, eb, done, d, k);
  }

  /** The other branch: `a` takes over what `b` has under `k`, be it a leaf or a dict object. */
  method StoreEntry(a: Dict, b: Dict, ghost sa: Shape, ghost eb: Shape, ghost done: set<string>, ghost d: Spot, k: string)
    requires Midway(a, b, sa, eb, done, d) && k in eb.kids && k !in done && k in b.entries
    requires !(k in sa.kids && sa.kids[k].Node? && eb.kids[k].Node?)
    modifies a
    ensures Midway(a, b, sa, eb, done + {k}, d)
  {
    RestApart(a, b, sa, eb, done, d, k);
    EntriesAt(a, b, sa, eb, done, d, k);
    AdoptedIsOwn(sa, eb, d, k);
    hide Matches, OwnMatches, Placed, Objs, MergeShapes, Partly, KidsMatch, KidsObjs, Midway, Setting, SecondMatches;
    a.entries := a.entries[k := b.entries[k]];
    KeyDone(a, b, sa, eb, done, d, k);
  }

  // ---------- merge_configs ----------

  ghost function Items(cs: seq<Shape>): seq<Item> {
    seq(|cs|, i requires 0 <= i < |cs| => Some(cs[i]))
  }

  /** The merged configuration after the configurations `cs`, starting from `g`. */
  ghost function Merged(g: Shape, cs: seq<Shape>): Shape
    requires g.Node? && forall i :: 0 <= i < |cs| ==> cs[i].Node?
  {
    MergedIsNode(g, cs);
    Fold(Some(g), Items(cs)).value
  }

  lemma {:induction false} MergedIsNode(g: Shape, cs: seq<Shape>)
    requires g.Node? && forall i :: 0 <= i < |cs| ==> cs[i].Node?
    ensures var r := Fold(Some(g), Items(cs)); r.Some? && r.value.Node? && r.value.obj == g.obj
    ensures cs != [] ==> var n := |cs| - 1;
            Fold(Some(g), Items(cs)) == Merge(Fold(Some(g), Items(cs[..n])), Some(cs[n]))
  {
    if cs != [] {
      var n := |cs| - 1;
      MergedIsNode(g, cs[..n]);
      assert Items(cs)[..n] == Items(cs[..n]);
    }
  }

  /** Without conflicts a merge drops no dict object of the first side. */
  lemma {:induction false} MergeKeepsObjs(a: Shape, b: Shape, o: Dict)
    requires a.Node? && b.Node? && NoConflict(Some(a), Some(b)) && o in Objs(a)
    ensures o in Objs(MergeShapes(a, b))
    decreases b
  {
    if a.obj != b.obj && o != a.obj {
      var k :| k in a.kids && o in Objs(a.kids[k]);
      if k in b.kids {
        NoConflictBelow(Some(a), Some(b), k);
        assert NoConflict(Kid(Some(a), k), Kid(Some(b), k));
        assert !(At(Kid(Some(a), k), []).ADict? && At(Kid(Some(b), k), []).ALeaf?);
        MergeKeepsObjs(a.kids[k], b.kids[k], o);
      }
      KeysInside(MergeShapes(a, b), k);
    }
  }

  lemma {:induction false} MergeAddsNoObjs(a: Shape, b: Shape, o: Dict)
    requires a.Node? && b.Node? && o in Objs(MergeShapes(a, b))
    ensures o in Objs(a) || o in Objs(b)
    decreases b
  {
    if a.obj != b.obj && o != a.obj {
      var r := MergeShapes(a, b);
      var k :| k in r.kids && o in Objs(r.kids[k]);
      KeysInside(a, k);
      KeysInside(b, k);
      if k in a.kids && k in b.kids && a.kids[k].Node? && b.kids[k].Node? {
        MergeAddsNoObjs(a.kids[k], b.kids[k], o);
      }
    }
  }

  ghost function AllObjs(cs: seq<Shape>): set<Dict> {
    set i, o | 0 <= i < |cs| && o in Objs(cs[i]) :: o
  }

  ghost predicate AllOwnMatch(cs: seq<Shape>, shared: set<Dict>)
    reads AllObjs(cs) - shared
  {
    forall i :: 0 <= i < |cs| ==> OwnMatches(cs[i], shared)
  }

  ghost predicate AllNodes(cs: seq<Shape>) {
    forall i :: 0 <= i < |cs| ==> cs[i].Node?
  }

  ghost predicate AllPlaced(cs: seq<Shape>, top: Spot) {
    forall i :: 0 <= i < |cs| ==> cs[i].Node? && Placed(cs[i], top)
  }

  /** How matters stand between runs of `merge_configs`: the dicts of the merged configuration hold
      what `g` says, and every registered configuration holds what its shape says, except in the
      dicts it shares with the merged one. */
  ghost predicate Ready(g: Shape, cs: seq<Shape>, top: Spot)
    reads Objs(g), AllObjs(cs)
  {
    g.Node? && Placed(g, top) && Matches(g) && AllPlaced(cs, top) && AllOwnMatch(cs, Objs(g))
  }

  lemma {:induction false} MergedNext(g: Shape, cs: seq<Shape>, i: nat)
    requires g.Node? && AllNodes(cs) && i < |cs|
    ensures Merged(g, cs[..i + 1]) == MergeShapes(Merged(g, cs[..i]), cs[i])
  {
    MergedIsNode(g, cs[..i]);
    MergedIsNode(g, cs[..i + 1]);
    assert cs[..i + 1][..i] == cs[..i];
  }

  lemma {:induction false} MergedNoConflict(g: Shape, cs: seq<Shape>, i: nat)
    requires g.Node? && AllNodes(cs) && i < |cs| && Compatible(Some(g), Items(cs))
    ensures NoConflict(Some(Merged(g, cs[..i])), Some(cs[i]))
  {
    MergedIsNode(g, cs[..i]);
    var ys := Items(cs);
    assert Items(cs[..i]) == ys[..i];
    assert forall j :: 0 <= j < i ==> NoConflict(ys[j], ys[i]);
    FoldNoConflict(Some(g), ys[..i], ys[i]);
  }

  lemma {:induction false} MergedLast(g: Shape, cs: seq<Shape>)
    requires g.Node? && AllNodes(cs)
    ensures Merged(g, cs[..0]) == g && Merged(g, cs[..|cs|]) == Merged(g, cs)
  {
    assert cs[..|cs|] == cs;
  }

  /** No merge drops a dict that a later configuration shares. Only a leaf that replaces a dict can
      drop one. */
  ghost predicate KeptWhileShared(g: Shape, cs: seq<Shape>)
    requires g.Node? && AllNodes(cs)
  {
    forall i, j, o :: 0 <= i < j < |cs| && o in Objs(cs[j]) && o in Objs(Merged(g, cs[..i])) ==>
      o in Objs(Merged(g, cs[..i + 1]))
  }

  lemma {:induction false} CompatibleKeeps(g: Shape, cs: seq<Shape>)
    requires g.Node? && AllNodes(cs) && Compatible(Some(g), Items(cs))
    ensures KeptWhileShared(g, cs)
  {
    forall i, j, o | 0 <= i < j < |cs| && o in Objs(cs[j]) && o in Objs(Merged(g, cs[..i]))
      ensures o in Objs(Merged(g, cs[..i + 1]))
    {
      MergedIsNode(g, cs[..i]);
      MergedNext(g, cs, i);
      MergedNoConflict(g, cs, i);
      MergeKeepsObjs(Merged(g, cs[..i]), cs[i], o);
    }
  }

  lemma {:induction false} MergedApart(g: Shape, cs: seq<Shape>, i: nat, apart: set<Dict>)
    requires g.Node? && AllNodes(cs) && i <= |cs| && Objs(g) !! apart
    requires forall k :: 0 <= k < i ==> Objs(cs[k]) !! apart
    ensures Objs(Merged(g, cs[..i])) !! apart
  {
    if i == 0 {
      MergedLast(g, cs);
    } else {
      MergedIsNode(g, cs[..i - 1]);
      MergedNext(g, cs, i - 1);
      MergedApart(g, cs, i - 1, apart);
      forall o | o in Objs(Merged(g, cs[..i])) ensures o !in apart {
        MergeAddsNoObjs(Merged(g, cs[..i - 1]), cs[i - 1], o);
      }
    }
  }

  /** Configurations that share nothing qualify, whatever conflicts they have. */
  lemma {:induction false} NothingSharedKeeps(g: Shape, cs: seq<Shape>)
    requires g.Node? && AllNodes(cs)
    requires forall j :: 0 <= j < |cs| ==> Objs(g) !! Objs(cs[j])
    requires forall i, j :: 0 <= i < j < |cs| ==> Objs(cs[i]) !! Objs(cs[j])
    ensures KeptWhileShared(g, cs)
  {
    forall i, j | 0 <= i < j < |cs| ensures Objs(Merged(g, cs[..i])) !! Objs(cs[j]) {
      MergedApart(g, cs, i, Objs(cs[j]));
    }
  }

  /** The configurations still to come hold what their shapes say, except in shared dicts. */
  ghost predicate RestOwnMatch(cs: seq<Shape>, i: nat, shared: set<Dict>)
    requires i <= |cs|
    reads AllObjs(cs) - shared
  {
    forall j :: i <= j < |cs| ==> OwnMatches(cs[j], shared)
  }

  lemma {:induction false} BeforeMerge(cs: seq<Shape>, i: nat, shared: set<Dict>)
    requires i < |cs| && RestOwnMatch(cs, i, shared)
    ensures OwnMatches(cs[i], shared)
    ensures forall o :: o in AllObjs(cs) ==> allocated(o)
  {
    forall j | 0 <= j < |cs| ensures forall o :: o in Objs(cs[j]) ==> allocated(o) {
      ObjsExist(cs[j]);
    }
  }

  lemma {:induction false} AfterMerge(cur: Shape, cs: seq<Shape>, i: nat, top: Spot)
    requires i < |cs| && cur.Node? && Placed(cur, top) && AllPlaced(cs, top)
    ensures Placed(MergeShapes(cur, cs[i]), top)
    ensures Objs(MergeShapes(cur, cs[i])) <= Objs(cur) + AllObjs(cs)
  {
    MergedPlaced(cur, cs[i], top);
    forall o | o in Objs(MergeShapes(cur, cs[i])) ensures o in Objs(cur) + AllObjs(cs) {
      MergeAddsNoObjs(cur, cs[i], o);
    }
  }

  lemma {:induction false} RestAfterMerge(g: Shape, cs: seq<Shape>, i: nat)
    requires i < |cs| && g.Node? && AllNodes(cs) && KeptWhileShared(g, cs)
    requires RestOwnMatch(cs, i, Objs(Merged(g, cs[..i])))
    ensures RestOwnMatch(cs, i + 1, Objs(Merged(g, cs[..i + 1])))
  {
    forall j | i < j < |cs| ensures OwnMatches(cs[j], Objs(Merged(g, cs[..i + 1]))) {
      OwnMatchesNarrow(cs[j], Objs(Merged(g, cs[..i])), Objs(Merged(g, cs[..i + 1])));
    }
  }

  lemma {:induction false} AllAfterMerge(g: Shape, cs: seq<Shape>, i: nat)
    requires i < |cs| && g.Node? && AllNodes(cs) && Compatible(Some(g), Items(cs))
    requires AllOwnMatch(cs, Objs(Merged(g, cs[..i])))
    ensures AllOwnMatch(cs, Objs(Merged(g, cs[..i + 1])))
  {
    var cur, next := Merged(g, cs[..i]), Merged(g, cs[..i + 1]);
    MergedIsNode(g, cs[..i]);
    MergedNext(g, cs, i);
    MergedNoConflict(g, cs, i);
    forall o | o in Objs(cur) ensures o in Objs(next) {
      MergeKeepsObjs(cur, cs[i], o);
    }
    forall j | 0 <= j < |cs| ensures OwnMatches(cs[j], Objs(next)) {
      OwnMatchesNarrow(cs[j], Objs(cur), Objs(next));
    }
  }

  lemma {:induction false} ReadyParts(g: Shape, cs: seq<Shape>, top: Spot)
    ensures Ready(g, cs, top) <==> g.Node? && Placed(g, top) && Matches(g) && AllPlaced(cs, top) && AllOwnMatch(cs, Objs(g))
    ensures AllOwnMatch(cs, Objs(g)) ==> RestOwnMatch(cs, 0, Objs(g))
  {
  }

  /** The loop of `merge_configs` over the configurations in override order: the dicts of the merged
      configuration end up with the folded contents, and without conflicts the configurations keep
      what they do not share with it. */
  method MergeConfigs(final: Dict, configs: seq<Dict>, ghost g: Shape, ghost cs: seq<Shape>, ghost top: Spot)
    requires Ready(g, cs, top) && g.obj == final && |cs| == |configs|
    requires forall i :: 0 <= i < |cs| ==> cs[i].obj == configs[i]
    requires KeptWhileShared(g, cs)
    modifies Objs(g), AllObjs(cs)
    ensures Matches(Merged(g, cs)) && Placed(Merged(g, cs), top)
    ensures Compatible(Some(g), Items(cs)) ==> Ready(Merged(g, cs), cs, top)
  {
    ReadyParts(g, cs, top);
    hide Matches, OwnMatches, Placed, Objs, MergeShapes, Merged, AllObjs, AllOwnMatch, RestOwnMatch, Compatible, KeptWhileShared, Ready;
    ghost var cur := g;
    ghost var peaceful := Compatible(Some(g), Items(cs));
    MergedLast(g, cs);
    for i := 0 to |configs|
      invariant cur == Merged(g, cs[..i]) && cur.Node? && cur.obj == final
      invariant Placed(cur, top) && Matches(cur) && Objs(cur) <= Objs(g) + AllObjs(cs)
      invariant RestOwnMatch(cs, i, Objs(cur)) && (peaceful ==> AllOwnMatch(cs, Objs(cur)))
    {
      BeforeMerge(cs, i, Objs(cur));
      MergedNext(g, cs, i);
      AfterMerge(cur, cs, i, top);
      MergeInto(final, configs[i], cur, cs[i], top);
      RestAfterMerge(g, cs, i);
      if peaceful {
        AllAfterMerge(g, cs, i);
      }
      cur := MergeShapes(cur, cs[i]);
    }
    ReadyParts(Merged(g, cs), cs, top);
  }

  /** Before the first run nothing is shared and every configuration is what it is. */
  lemma {:induction false} ReadyAtFirst(g: Shape, cs: seq<Shape>, top: Spot)
    requires g.Node? && Placed(g, top) && Matches(g) && AllPlaced(cs, top)
    requires forall i :: 0 <= i < |cs| ==> Matches(cs[i])
    ensures Ready(g, cs, top)
  {
    forall i | 0 <= i < |cs| ensures OwnMatches(cs[i], Objs(g)) {
      MatchesIsOwnMatches(cs[i], Objs(g));
    }
  }

  lemma {:induction false} MatchesIsOwnMatches(sh: Shape, shared: set<Dict>)
    requires Matches(sh)
    ensures OwnMatches(sh, shared)
  {
    if sh.Node? {
      forall k | k in sh.kids ensures OwnMatches(sh.kids[k], shared) {
        MatchesIsOwnMatches(sh.kids[k], shared);
      }
    }
  }

  /** One dict object has one shape. */
  lemma {:induction false} MatchingShapesEqual(s1: Shape, s2: Shape)
    requires Matches(s1) && Matches(s2) && s1.Node? && s2.Node? && s1.obj == s2.obj
    ensures s1 == s2
  {
    assert s1.kids.Keys == s2.kids.Keys;
    forall k | k in s1.kids ensures s1.kids[k] == s2.kids[k] {
      assert EntryOf(s1.kids[k]) == s1.obj.entries[k] == EntryOf(s2.kids[k]);
      if s1.kids[k].Node? {
        MatchingShapesEqual(s1.kids[k], s2.kids[k]);
      }
    }
  }

  lemma {:induction false} MatchingSameContents(s1: Shape, s2: Shape, path: Path, more: Path)
    requires Matches(s1) && Matches(s2) && Same(Some(s1), Some(s2), path)
    ensures At(Some(s1), path + more) == At(Some(s2), path + more)
    decreases |path|
  {
    if path == [] {
      MatchingShapesEqual(s1, s2);
    } else {
      var k := path[0];
      if s1.Value? || k !in s1.kids {
        NothingBelow(Kid(Some(s1), k), path[1..]);
      } else if s2.Value? || k !in s2.kids {
        NothingBelow(Kid(Some(s2), k), path[1..]);
      } else {
        MatchingSameContents(s1.kids[k], s2.kids[k], path[1..], more);
        assert (path + more)[1..] == path[1..] + more;
      }
    }
  }

  /** So nested dicts that are looked at at one moment, as before the first run, are coherent,
      whatever dict objects they share. */
  lemma {:induction false} MatchingIsCoherent(g: Shape, cs: seq<Shape>)
    requires Matches(g) && forall i :: 0 <= i < |cs| ==> Matches(cs[i])
    ensures Coherent(Some(g), Items(cs))
  {
    forall i | 0 <= i < |cs| ensures SameContents(Some(g), Some(cs[i])) {
      forall path, more | Same(Some(g), Some(cs[i]), path)
        ensures At(Some(g), path + more) == At(Some(cs[i]), path + more)
      {
        MatchingSameContents(g, cs[i], path, more);
      }
    }
    forall i, j | 0 <= i < j < |cs| ensures SameContents(Some(cs[i]), Some(cs[j])) {
      forall path, more | Same(Some(cs[i]), Some(cs[j]), path)
        ensures At(Some(cs[i]), path + more) == At(Some(cs[j]), path + more)
      {
        MatchingSameContents(cs[i], cs[j], path, more);
      }
    }
  }

  /** A later run over the same configurations, their roots possibly built anew: the dicts of the
      merged configuration hold afterwards what they held before. */
  method MergeConfigsAgain(final: Dict, configs: seq<Dict>, ghost g: Shape, ghost cs: seq<Shape>, ghost zs: seq<Shape>, ghost top: Spot)
    requires g.Node? && AllNodes(cs) && Compatible(Some(g), Items(cs)) && Coherent(Some(g), Items(cs))
    requires Rebuilt(Items(cs), Items(zs)) && RootApart(Some(g), Items(cs)) && RootApart(Some(g), Items(zs))
    requires Ready(Merged(g, cs), zs, top) && g.obj == final && |zs| == |configs|
    requires forall i :: 0 <= i < |zs| ==> zs[i].obj == configs[i]
    modifies Objs(Merged(g, cs)), AllObjs(zs)
    ensures Ready(Merged(g, cs), zs, top)
  {
    MergedIsNode(g, cs);
    LaterRunChangesNothing(Some(g), Items(cs), Items(zs));
    CompatibleKeeps(Merged(g, cs), zs);
    MergeConfigs(final, configs, Merged(g, cs), zs, top);
  }
}
