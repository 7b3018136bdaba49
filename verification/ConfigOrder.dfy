/** Registration and override order of conf_util.py: `register` gives every class without a priority
    of its own the next lower default, and `merge_configs` merges the classes by falling priority, so
    that a class with a lower priority overrides. */
module ConfigOrder {
  import opened Basics

  /** A registered class: its name and its `priority` attribute. */
  datatype Conf = Conf(name: string, priority: int)

  /** A call of `register`. The priority is the argument or the attribute that the class has, be it
      its own or that of a base class; None if it has none. */
  datatype Registration = Registration(name: string, priority: Option<int>)

  const FIRST_DEFAULT: int := 0x4000_0000

  // ---------- Registration ----------

  /** A dict keeps the position of a key that is assigned again. */
  function Put(confs: seq<Conf>, c: Conf): seq<Conf> {
    if confs == [] then [c]
    else if confs[0].name == c.name then [c] + confs[1..]
    else [confs[0]] + Put(confs[1..], c)
  }

  /** `_all_conf_by_name` in insertion order, and the next default priority. */
  datatype Registry = Registry(confs: seq<Conf>, next: int)

  function NewConf(s: Registry, r: Registration): Conf {
    Conf(r.name, if r.priority.Some? then r.priority.value else s.next)
  }

  function AfterRegister(s: Registry, r: Registration): Registry {
    Registry(Put(s.confs, NewConf(s, r)), if r.priority.Some? then s.next else s.next - 1)
  }

  function RegisterAll(h: seq<Registration>): Registry {
    if h == [] then Registry([], FIRST_DEFAULT) else AfterRegister(RegisterAll(h[..|h| - 1]), h[|h| - 1])
  }

  // ---------- The stable sort by falling priority ----------

  function Insert(order: seq<Conf>, c: Conf): seq<Conf> {
    var n := |order| - 1;
    if order == [] || order[n].priority >= c.priority then order + [c]
    else Insert(order[..n], c) + [order[n]]
  }

  function Sorted(confs: seq<Conf>): seq<Conf> {
    if confs == [] then [] else Insert(Sorted(confs[..|confs| - 1]), confs[|confs| - 1])
  }

  class ConfigurationManager {
    var confs: seq<Conf>
    var defaultPriority: int

    constructor ()
      ensures Registry(confs, defaultPriority) == RegisterAll([])
    {
      confs, defaultPriority := [], FIRST_DEFAULT;
    }

    method Register(name: string, priority: Option<int>)
      modifies this
      ensures Registry(confs, defaultPriority)
           == AfterRegister(Registry(old(confs), old(defaultPriority)), Registration(name, priority))
    {
      var p;
      if priority.Some? {
        p := priority.value;
      } else {
        p := defaultPriority;
        defaultPriority := defaultPriority - 1;
      }
      confs := Put(confs, Conf(name, p));
    }

    /** The order in which `merge_configs` merges. */
    method OverrideOrder() returns (order: seq<Conf>)
      ensures order == Sorted(confs)
    {
      order := [];
      for i := 0 to |confs|
        invariant order == Sorted(confs[..i])
      {
        assert confs[..i + 1][..i] == confs[..i];
        order := Insert(order, confs[i]);
      }
      assert confs[..|confs|] == confs;
    }
  }

  // ---------- What the sort does ----------

  ghost predicate Before(order: seq<Conf>, x: Conf, y: Conf) {
    exists p, q :: 0 <= p < q < |order| && order[p] == x && order[q] == y
  }

  ghost predicate Falling(order: seq<Conf>) {
    forall p, q :: 0 <= p < q < |order| ==> order[p].priority >= order[q].priority
  }

  lemma {:induction false} BeforeLast(order: seq<Conf>, x: Conf, y: Conf)
    requires x in order
    ensures Before(order + [y], x, y)
  {
    var p :| 0 <= p < |order| && order[p] == x;
    assert (order + [y])[p] == x && (order + [y])[|order|] == y;
  }

  lemma {:induction false} BeforeStays(order: seq<Conf>, x: Conf, y: Conf, z: Conf)
    requires Before(order, x, y)
    ensures Before(order + [z], x, y)
  {
    var p, q :| 0 <= p < q < |order| && order[p] == x && order[q] == y;
    assert (order + [z])[p] == x && (order + [z])[q] == y;
  }

  lemma {:induction false} InsertMembers(order: seq<Conf>, c: Conf)
    ensures multiset(Insert(order, c)) == multiset(order) + multiset{c}
  {
    var n := |order| - 1;
    if order != [] {
      assert order == order[..n] + [order[n]];
      InsertMembers(order[..n], c);
    }
  }

  lemma {:induction false} InsertHas(order: seq<Conf>, c: Conf, x: Conf)
    requires x in order || x == c
    ensures x in Insert(order, c)
  {
    InsertMembers(order, c);
    assert x in multiset(Insert(order, c));
  }

  ghost predicate AllAtLeast(order: seq<Conf>, low: int) {
    forall p :: 0 <= p < |order| ==> order[p].priority >= low
  }

  lemma {:induction false} FallingSnoc(order: seq<Conf>, c: Conf)
    requires Falling(order) && AllAtLeast(order, c.priority)
    ensures Falling(order + [c])
  {
  }

  lemma {:induction false} InsertAtLeast(order: seq<Conf>, c: Conf, low: int)
    requires AllAtLeast(order, low) && c.priority >= low
    ensures AllAtLeast(Insert(order, c), low)
  {
    if order != [] && order[|order| - 1].priority < c.priority {
      InsertAtLeast(order[..|order| - 1], c, low);
    }
  }

  lemma {:induction false} InsertFalling(order: seq<Conf>, c: Conf)
    requires Falling(order)
    ensures Falling(Insert(order, c))
  {
    var n := |order| - 1;
    if order == [] || order[n].priority >= c.priority {
      FallingSnoc(order, c);
    } else {
      InsertFalling(order[..n], c);
      InsertAtLeast(order[..n], c, order[n].priority);
      FallingSnoc(Insert(order[..n], c), order[n]);
    }
  }

  lemma {:induction false} InsertKeepsOrder(order: seq<Conf>, c: Conf, x: Conf, y: Conf)
    requires Before(order, x, y)
    ensures Before(Insert(order, c), x, y)
  {
    var n := |order| - 1;
    var p, q :| 0 <= p < q < |order| && order[p] == x && order[q] == y;
    if order[n].priority >= c.priority {
      BeforeStays(order, x, y, c);
    } else if q == n {
      assert order[..n][p] == x;
      InsertHas(order[..n], c, x);
      BeforeLast(Insert(order[..n], c), x, y);
    } else {
      assert order[..n][p] == x && order[..n][q] == y;
      InsertKeepsOrder(order[..n], c, x, y);
      BeforeStays(Insert(order[..n], c), x, y, order[n]);
    }
  }

  lemma {:induction false} InsertPlaces(order: seq<Conf>, c: Conf, x: Conf)
    requires Falling(order) && x in order
    ensures if x.priority >= c.priority then Before(Insert(order, c), x, c) else Before(Insert(order, c), c, x)
  {
    var n := |order| - 1;
    if order[n].priority >= c.priority {
      BeforeLast(order, x, c);
    } else if x in order[..n] {
      InsertPlaces(order[..n], c, x);
      if x.priority >= c.priority {
        BeforeStays(Insert(order[..n], c), x, c, order[n]);
      } else {
        BeforeStays(Insert(order[..n], c), c, x, order[n]);
      }
    } else {
      assert order == order[..n] + [order[n]];
      InsertHas(order[..n], c, c);
      BeforeLast(Insert(order[..n], c), c, x);
    }
  }

  /** The order is a rearrangement by falling priority. */
  lemma {:induction false} SortedFalls(confs: seq<Conf>)
    ensures Falling(Sorted(confs)) && multiset(Sorted(confs)) == multiset(confs)
  {
    if confs != [] {
      var n := |confs| - 1;
      SortedFalls(confs[..n]);
      InsertFalling(Sorted(confs[..n]), confs[n]);
      InsertMembers(Sorted(confs[..n]), confs[n]);
      assert confs == confs[..n] + [confs[n]];
    }
  }

  /** And a stable one: of two classes the one with the higher priority comes first, and of two with
      the same priority the one that stands first in the registry. */
  lemma {:induction false} SortedIsStable(confs: seq<Conf>, i: nat, j: nat)
    requires i < j < |confs|
    ensures if confs[i].priority >= confs[j].priority then Before(Sorted(confs), confs[i], confs[j])
            else Before(Sorted(confs), confs[j], confs[i])
  {
    hide Insert, Falling, Before;
    var n := |confs| - 1;
    var before := Sorted(confs[..n]);
    SortedFalls(confs[..n]);
    if j < n {
      SortedIsStable(confs[..n], i, j);
      if confs[i].priority >= confs[j].priority {
        InsertKeepsOrder(before, confs[n], confs[i], confs[j]);
      } else {
        InsertKeepsOrder(before, confs[n], confs[j], confs[i]);
      }
    } else {
      SortedHas(confs[..n], i);
      InsertPlaces(before, confs[n], confs[i]);
    }
  }

  lemma {:induction false} SortedHas(confs: seq<Conf>, i: nat)
    requires i < |confs|
    ensures confs[i] in Sorted(confs)
  {
    SortedFalls(confs);
    assert confs[i] in multiset(confs);
  }

  // ---------- The order as a function of the registrations ----------

  /** How many registrations got a default priority. */
  function Defaults(h: seq<Registration>): nat {
    if h == [] then 0 else Defaults(h[..|h| - 1]) + if h[|h| - 1].priority.None? then 1 else 0
  }

  /** The priority that registration `i` gives its class. */
  function Assigned(h: seq<Registration>, i: nat): int
    requires i < |h|
  {
    if h[i].priority.Some? then h[i].priority.value else FIRST_DEFAULT - Defaults(h[..i])
  }

  ghost predicate LastOf(h: seq<Registration>, i: nat) {
    i < |h| && forall j :: i < j < |h| ==> h[j].name != h[i].name
  }

  ghost predicate FirstOf(h: seq<Registration>, i: nat) {
    i < |h| && forall j :: 0 <= j < i ==> h[j].name != h[i].name
  }

  /** The position of a name in the registry; its length if the name is not there. */
  function Position(confs: seq<Conf>, name: string): (p: nat)
    ensures p <= |confs| && (p < |confs| ==> confs[p].name == name)
  {
    if confs == [] || confs[0].name == name then 0 else 1 + Position(confs[1..], name)
  }

  lemma {:induction false} PutOwn(confs: seq<Conf>, c: Conf)
    ensures Position(Put(confs, c), c.name) == Position(confs, c.name) < |Put(confs, c)|
    ensures Put(confs, c)[Position(confs, c.name)] == c
    ensures |Put(confs, c)| == if Position(confs, c.name) < |confs| then |confs| else |confs| + 1
  {
    if confs != [] && confs[0].name != c.name {
      PutOwn(confs[1..], c);
      assert ([confs[0]] + Put(confs[1..], c))[1..] == Put(confs[1..], c);
    }
  }

  lemma {:induction false} PutOther(confs: seq<Conf>, c: Conf, name: string)
    requires name != c.name
    ensures var p := Position(confs, name);
            && |Put(confs, c)| >= |confs|
            && Position(Put(confs, c), name) == (if p < |confs| then p else |Put(confs, c)|)
            && (p < |confs| ==> Put(confs, c)[p] == confs[p])
  {
    if confs == [] {
      assert Put(confs, c)[1..] == [];
    } else if confs[0].name == c.name {
      assert Put(confs, c)[1..] == confs[1..];
    } else {
      PutOther(confs[1..], c, name);
      assert Put(confs, c)[1..] == Put(confs[1..], c);
    }
  }

  lemma {:induction false} NextDefault(h: seq<Registration>)
    ensures RegisterAll(h).next == 0x4000_0000 - Defaults(h)
  {
    if h != [] {
      NextDefault(h[..|h| - 1]);
    }
  }

  /** A name that has been registered is in the registry, and only such a name. */
  lemma {:induction false} RegisteredIsThere(h: seq<Registration>, name: string)
    ensures Position(RegisterAll(h).confs, name) < |RegisterAll(h).confs| <==> exists i :: 0 <= i < |h| && h[i].name == name
  {
    if h != [] {
      var n := |h| - 1;
      var s := RegisterAll(h[..n]);
      hide Put, Position;
      RegisteredIsThere(h[..n], name);
      assert forall i :: 0 <= i < n ==> h[..n][i] == h[i];
      if h[n].name == name {
        PutOwn(s.confs, NewConf(s, h[n]));
      } else {
        PutOther(s.confs, NewConf(s, h[n]), name);
      }
    }
  }

  /** Its priority is that of its last registration. */
  lemma {:induction false} LastRegistrationCounts(h: seq<Registration>, i: nat)
    requires LastOf(h, i)
    ensures var confs := RegisterAll(h).confs;
            Position(confs, h[i].name) < |confs| && confs[Position(confs, h[i].name)] == Conf(h[i].name, Assigned(h, i))
  {
    hide Put, Position, Defaults, RegisterAll;
    var n := |h| - 1;
    var s := RegisterAll(h[..n]);
    NextDefault(h[..n]);
    RegisterOne(h);
    if i < n {
      LastRegistrationCounts(h[..n], i);
      assert h[..n][..i] == h[..i];
      PutOther(s.confs, NewConf(s, h[n]), h[i].name);
    } else {
      PutOwn(s.confs, NewConf(s, h[n]));
    }
  }

  /** Its position is that of its first registration. */
  lemma {:induction false} FirstRegistrationPlaces(h: seq<Registration>, i: nat, j: nat)
    requires FirstOf(h, i) && FirstOf(h, j) && i < j
    ensures Position(RegisterAll(h).confs, h[i].name) < Position(RegisterAll(h).confs, h[j].name) < |RegisterAll(h).confs|
  {
    hide Put, Position, RegisterAll;
    var n := |h| - 1;
    var s := RegisterAll(h[..n]);
    var c := NewConf(s, h[n]);
    RegisterOne(h);
    FirstOfBefore(h, i);
    FirstOfBefore(h, j);
    if j < n {
      FirstRegistrationPlaces(h[..n], i, j);
      KeepsPosition(s.confs, c, h[i].name);
      KeepsPosition(s.confs, c, h[j].name);
    } else {
      KeepsPosition(s.confs, c, h[i].name);
      PutOwn(s.confs, c);
    }
  }

  /** Before the last registration: a name that is registered for the first time then is not there
      yet, the others are. */
  lemma {:induction false} FirstOfBefore(h: seq<Registration>, i: nat)
    requires FirstOf(h, i)
    ensures var before := RegisterAll(h[..|h| - 1]).confs;
            if i < |h| - 1 then FirstOf(h[..|h| - 1], i) && Position(before, h[i].name) < |before|
            else Position(before, h[i].name) == |before|
  {
    var n := |h| - 1;
    RegisteredIsThere(h[..n], h[i].name);
    hide Position, RegisterAll;
    if i < n {
      assert h[..n][i].name == h[i].name;
    }
  }

  lemma {:induction false} RegisterOne(h: seq<Registration>)
    requires h != []
    ensures var s := RegisterAll(h[..|h| - 1]); RegisterAll(h).confs == Put(s.confs, NewConf(s, h[|h| - 1]))
  {
  }

  lemma {:induction false} KeepsPosition(confs: seq<Conf>, c: Conf, name: string)
    requires Position(confs, name) < |confs|
    ensures Position(Put(confs, c), name) == Position(confs, name) < |Put(confs, c)|
  {
    if name == c.name {
      PutOwn(confs, c);
    } else {
      PutOther(confs, c, name);
    }
  }

  /** The override order of any two classes after any registrations: the one whose last registration
      gave it the higher priority is merged first, and of two with the same priority, as a class and a
      base class whose priority it inherits, the one whose name was registered first. */
  lemma {:induction false} OverrideOrderIs(h: seq<Registration>, i0: nat, i: nat, j0: nat, j: nat)
    requires FirstOf(h, i0) && LastOf(h, i) && h[i0].name == h[i].name
    requires FirstOf(h, j0) && LastOf(h, j) && h[j0].name == h[j].name
    requires i0 < j0
    ensures var order, x, y := Sorted(RegisterAll(h).confs), Conf(h[i].name, Assigned(h, i)), Conf(h[j].name, Assigned(h, j));
            if x.priority >= y.priority then Before(order, x, y) else Before(order, y, x)
  {
    var confs := RegisterAll(h).confs;
    LastRegistrationCounts(h, i);
    LastRegistrationCounts(h, j);
    FirstRegistrationPlaces(h, i0, j0);
    SortedIsStable(confs, Position(confs, h[i].name), Position(confs, h[j].name));
  }

  lemma {:induction false} DefaultsFall(h: seq<Registration>, i: nat, j: nat)
    requires i < j <= |h| && h[i].priority.None?
    ensures Defaults(h[..i]) < Defaults(h[..j])
  {
    assert h[..j][..j - 1] == h[..j - 1];
    if i < j - 1 {
      DefaultsFall(h, i, j - 1);
    }
  }

  /** Of two classes with default priorities, the one registered later, counting last registrations,
      is merged later and so overrides the other. */
  lemma {:induction false} LaterDefaultOverrides(h: seq<Registration>, i0: nat, i: nat, j0: nat, j: nat)
    requires FirstOf(h, i0) && LastOf(h, i) && h[i0].name == h[i].name && h[i].priority.None?
    requires FirstOf(h, j0) && LastOf(h, j) && h[j0].name == h[j].name && h[j].priority.None?
    requires i < j && h[i].name != h[j].name
    ensures Before(Sorted(RegisterAll(h).confs), Conf(h[i].name, Assigned(h, i)), Conf(h[j].name, Assigned(h, j)))
  {
    DefaultsFall(h, i, j);
    if i0 < j0 {
      OverrideOrderIs(h, i0, i, j0, j);
    } else {
      OverrideOrderIs(h, j0, j, i0, i);
    }
  }
}
