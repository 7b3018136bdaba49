/** The store barrier of store_util.py: every participant atomically adds one to a counter, the one
    that brings it to the world size sets a second key, and all wait until that key is set. The
    model is a step relation over any number of participants; a participant that dies takes no
    further step, and a wait may end in a timeout. */
module Barrier {
  import opened Counting
  import opened Runs

  datatype Participant =
    | Outside             // has not called yet
    | Added(idx: int)     // store.add returned idx
    | Waiting             // inside store.get(last_member)
    | Passed
    | TimedOut

  /** `setters` is history: who set the last-member key. */
  datatype State = State(worldSize: int, members: int, lastMember: bool, parts: seq<Participant>, setters: seq<nat>)

  datatype Action = Join | Add(i: nat) | SetOrSkip(i: nat) | Get(i: nat) | Timeout(i: nat)

  /** A prefix that nobody has used. */
  predicate Fresh(s: State) {
    s.members == 0 && !s.lastMember && s.parts == [] && s.setters == []
  }

  predicate Enabled(s: State, a: Action) {
    match a
    case Join => true
    case Add(i) => i < |s.parts| && s.parts[i].Outside?
    case SetOrSkip(i) => i < |s.parts| && s.parts[i].Added?
    case Get(i) => i < |s.parts| && s.parts[i].Waiting? && s.lastMember
    case Timeout(i) => i < |s.parts| && s.parts[i].Waiting?
  }

  function Next(s: State, a: Action): State
    requires Enabled(s, a)
  {
    match a
    case Join => s.(parts := s.parts + [Outside])
    case Add(i) => s.(members := s.members + 1, parts := s.parts[i := Added(s.members + 1)])
    case SetOrSkip(i) =>
      var t := s.(parts := s.parts[i := Waiting]);
      if s.parts[i].idx == s.worldSize then t.(lastMember := true, setters := s.setters + [i]) else t
    case Get(i) => s.(parts := s.parts[i := Passed])
    case Timeout(i) => s.(parts := s.parts[i := TimedOut])
  }

  ghost predicate Step(s: State, a: Action, t: State) {
    Enabled(s, a) && t == Next(s, a)
  }

  // ---------- Safety ----------

  /** 1 for a participant that has arrived, that is, added itself. */
  function Arrived(p: Participant): nat {
    if p.Outside? then 0 else 1
  }

  /** The participant that will set the key. */
  predicate IsSetter(s: State, p: Participant) {
    p.Added? && p.idx == s.worldSize
  }

  ghost predicate Counted(s: State) {
    s.members == Sum(s.parts, Arrived)
  }

  /** The indices handed out by store.add differ and do not exceed the counter. */
  ghost predicate IndicesOk(s: State) {
    && (forall i :: 0 <= i < |s.parts| && s.parts[i].Added? ==> 1 <= s.parts[i].idx <= s.members)
    && (forall i, j :: 0 <= i < j < |s.parts| && s.parts[i].Added? && s.parts[j].Added? ==> s.parts[i].idx != s.parts[j].idx)
  }

  /** The key is set by one participant, after the counter has reached the size, for good. */
  ghost predicate KeyOk(s: State) {
    && 0 <= s.members
    && (s.lastMember <==> |s.setters| == 1)
    && |s.setters| <= 1
    && (s.lastMember ==> 1 <= s.worldSize <= s.members && forall i :: 0 <= i < |s.parts| ==> !IsSetter(s, s.parts[i]))
    && (forall i :: 0 <= i < |s.parts| && s.parts[i].Passed? ==> s.lastMember)
  }

  /** From when the size is reached until the key is set, some participant is about to set it. */
  ghost predicate SetterExists(s: State) {
    1 <= s.worldSize <= s.members && !s.lastMember ==> exists i :: 0 <= i < |s.parts| && IsSetter(s, s.parts[i])
  }

  ghost predicate Inv(s: State) {
    Counted(s) && IndicesOk(s) && KeyOk(s) && SetterExists(s)
  }

  lemma {:induction false} CountedStep(s: State, a: Action)
    requires Counted(s) && Enabled(s, a)
    ensures Counted(Next(s, a))
  {
    match a {
      case Join => SumAppend(s.parts, Outside, Arrived);
      case _ => SumUpdate(s.parts, a.i, Next(s, a).parts[a.i], Arrived);
    }
  }

  lemma {:induction false} IndicesOkStep(s: State, a: Action)
    requires IndicesOk(s) && 0 <= s.members && Enabled(s, a)
    ensures IndicesOk(Next(s, a))
  {
  }

  lemma {:induction false} KeyOkStep(s: State, a: Action)
    requires IndicesOk(s) && KeyOk(s) && Enabled(s, a)
    ensures KeyOk(Next(s, a))
  {
  }

  lemma {:induction false} SetterExistsStep(s: State, a: Action)
    requires SetterExists(s) && Enabled(s, a)
    ensures SetterExists(Next(s, a))
  {
    var t := Next(s, a);
    if 1 <= t.worldSize <= t.members && !t.lastMember {
      if a.Add? && t.members == t.worldSize {
        assert IsSetter(t, t.parts[a.i]);
      } else {
        var i :| 0 <= i < |s.parts| && IsSetter(s, s.parts[i]);
        assert IsSetter(t, t.parts[i]);
      }
    }
  }

  lemma {:induction false} InvRun(tr: seq<State>, acts: seq<Action>, n: nat)
    requires Run(Step, tr, acts) && Fresh(tr[0]) && n < |tr|
    ensures Inv(tr[n])
  {
    forall s, a, t | Inv(s) && Step(s, a, t) ensures Inv(t) {
      CountedStep(s, a);
      IndicesOkStep(s, a);
      KeyOkStep(s, a);
      SetterExistsStep(s, a);
    }
    Invariant(Step, Inv, tr, acts, n);
  }

  /** Nobody passes before world_size participants have arrived, whatever the order, the deaths
      and the timeouts; at most one participant sets the key; and with a world size below one
      nobody ever passes. */
  lemma {:induction false} NobodyPassesEarly(tr: seq<State>, acts: seq<Action>, n: nat, i: nat)
    requires Run(Step, tr, acts) && Fresh(tr[0]) && n < |tr|
    requires i < |tr[n].parts| && tr[n].parts[i].Passed?
    ensures 1 <= tr[n].worldSize <= Sum(tr[n].parts, Arrived)
    ensures |tr[n].setters| == 1
  {
    InvRun(tr, acts, n);
  }

  /** Once world_size (at least one) have arrived, every waiting participant can pass, after at
      most one step of another. */
  lemma {:induction false} WaitingCanPass(s: State, i: nat) returns (acts: seq<Action>, t: State)
    requires Inv(s) && 1 <= s.worldSize <= Sum(s.parts, Arrived)
    requires i < |s.parts| && s.parts[i].Waiting?
    ensures Reaches(Step, s, acts, t) && |acts| <= 2
    ensures i < |t.parts| && t.parts[i].Passed?
  {
    Start(Step, s);
    acts, t := [], s;
    if !s.lastMember {
      var j :| 0 <= j < |s.parts| && IsSetter(s, s.parts[j]);
      Extend(Step, s, acts, t, SetOrSkip(j), Next(t, SetOrSkip(j)));
      acts, t := acts + [SetOrSkip(j)], Next(t, SetOrSkip(j));
    }
    Extend(Step, s, acts, t, Get(i), Next(t, Get(i)));
    acts, t := acts + [Get(i)], Next(t, Get(i));
  }

  /** That step is needed: if the participant that drew the last index dies before it sets the
      key, nobody ever passes. */
  lemma {:induction false} DeadSetterBlocksAll(tr: seq<State>, acts: seq<Action>, n: nat, k: nat)
    requires Run(Step, tr, acts) && Inv(tr[0]) && n < |tr|
    requires k < |tr[0].parts| && IsSetter(tr[0], tr[0].parts[k])
    requires forall j :: 0 <= j < |acts| ==> acts[j] != SetOrSkip(k)
    ensures Inv(tr[n]) && k < |tr[n].parts| && IsSetter(tr[n], tr[n].parts[k])
    ensures forall i :: 0 <= i < |tr[n].parts| ==> !tr[n].parts[i].Passed?
  {
    if n > 0 {
      DeadSetterBlocksAll(tr, acts, n - 1, k);
      assert Step(tr[n - 1], acts[n - 1], tr[n]);
      CountedStep(tr[n - 1], acts[n - 1]);
      IndicesOkStep(tr[n - 1], acts[n - 1]);
      KeyOkStep(tr[n - 1], acts[n - 1]);
      SetterExistsStep(tr[n - 1], acts[n - 1]);
    }
  }

  /** A wait can end in a timeout. The participant has arrived all the same, so that it counts for the
      others, but it never passes. */
  lemma {:induction false} GivesUp(s: State, i: nat) returns (t: State)
    requires i < |s.parts| && s.parts[i].Waiting?
    ensures Reaches(Step, s, [] + [Timeout(i)], t) && t == s.(parts := s.parts[i := TimedOut])
    ensures Sum(t.parts, Arrived) == Sum(s.parts, Arrived)
  {
    t := Next(s, Timeout(i));
    Start(Step, s);
    Extend(Step, s, [], s, Timeout(i), t);
    SumUpdate(s.parts, i, TimedOut, Arrived);
  }

  lemma {:induction false} OutForGood(tr: seq<State>, acts: seq<Action>, k: nat, n: nat, i: nat)
    requires Run(Step, tr, acts) && k < n < |tr| && acts[k] == Timeout(i)
    ensures i < |tr[n].parts| && tr[n].parts[i].TimedOut?
  {
    assert Step(tr[n - 1], acts[n - 1], tr[n]);
    if n > k + 1 {
      OutForGood(tr, acts, k, n - 1, i);
    }
  }

  /** On a fresh prefix `n` participants can all arrive and wait; the key is set once the last of the
      world size is among them. */
  lemma {:induction false} AllArrive(s: State, n: nat) returns (acts: seq<Action>, t: State)
    requires Fresh(s)
    ensures Reaches(Step, s, acts, t) && |t.parts| == n && (forall i :: 0 <= i < n ==> t.parts[i].Waiting?)
    ensures t.worldSize == s.worldSize && t.members == n && (t.lastMember <==> 1 <= s.worldSize <= n)
  {
    if n == 0 {
      Start(Step, s);
      acts, t := [], s;
    } else {
      var before, u := AllArrive(s, n - 1);
      acts, t := Arrives(s, before, u);
    }
  }

  lemma {:induction false} Arrives(s: State, acts: seq<Action>, u: State) returns (more: seq<Action>, t: State)
    requires Reaches(Step, s, acts, u)
    ensures Reaches(Step, s, more, t) && t.parts == u.parts + [Waiting] && t.worldSize == u.worldSize && t.members == u.members + 1
    ensures t.lastMember <==> u.lastMember || u.members + 1 == u.worldSize
  {
    var i := |u.parts|;
    var t1 := Next(u, Join);
    Extend(Step, s, acts, u, Join, t1);
    var t2 := Next(t1, Add(i));
    Extend(Step, s, acts + [Join], t1, Add(i), t2);
    t := Next(t2, SetOrSkip(i));
    Extend(Step, s, acts + [Join] + [Add(i)], t2, SetOrSkip(i), t);
    more := acts + [Join] + [Add(i)] + [SetOrSkip(i)];
    assert t.parts == u.parts + [Waiting];
  }

  /** So a world of `worldSize` participants gets through the barrier, all of them. */
  lemma {:induction false} AllPass(s: State) returns (acts: seq<Action>, t: State)
    requires Fresh(s) && 1 <= s.worldSize
    ensures Reaches(Step, s, acts, t) && |t.parts| == s.worldSize && forall i :: 0 <= i < |t.parts| ==> t.parts[i].Passed?
  {
    acts, t := AllArrive(s, s.worldSize);
    var n := 0;
    while n < s.worldSize
      invariant 0 <= n <= s.worldSize == |t.parts| && t.lastMember && Reaches(Step, s, acts, t)
      invariant forall i :: 0 <= i < |t.parts| ==> if i < n then t.parts[i].Passed? else t.parts[i].Waiting?
    {
      var u := Next(t, Get(n));
      Extend(Step, s, acts, t, Get(n), u);
      acts, t, n := acts + [Get(n)], u, n + 1;
    }
  }

  /** A prefix serves once: on a used one a newcomer passes alone, without waiting for anybody. */
  lemma {:induction false} UsedPrefixLetsThrough(s: State) returns (acts: seq<Action>, t: State)
    requires Inv(s) && s.lastMember
    ensures Reaches(Step, s, acts, t) && t.parts == s.parts + [Passed]
  {
    var i := |s.parts|;
    Start(Step, s);
    var t1 := Next(s, Join);
    Extend(Step, s, [], s, Join, t1);
    var t2 := Next(t1, Add(i));
    Extend(Step, s, [] + [Join], t1, Add(i), t2);
    var t3 := Next(t2, SetOrSkip(i));
    Extend(Step, s, [] + [Join] + [Add(i)], t2, SetOrSkip(i), t3);
    t := Next(t3, Get(i));
    Extend(Step, s, [] + [Join] + [Add(i)] + [SetOrSkip(i)], t3, Get(i), t);
    acts := [] + [Join] + [Add(i)] + [SetOrSkip(i)] + [Get(i)];
  }
}
