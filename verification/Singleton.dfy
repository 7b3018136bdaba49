/** Singleton.singleton_instance of singleton.py: two double-checked sections, the first of which
    creates the lock of the second. The model is a step relation over any number of threads that
    call it on one class; every read, write, acquire and release of a class attribute is a step.
    A base class of it may be used as a singleton too: until the class has an instance or an
    instance lock of its own, it sees those of the base class. */
module Singleton {
  import opened Basics
  import opened Runs

  /** The object a class attribute refers to: inherited from a base class, or built by call k. */
  datatype Obj = Inherited | Built(k: nat)

  datatype Pc =
    | CheckLock                  // if not cls._instance_lock
    | EnterClass                 // with cls._lock
    | CheckLockAgain
    | MakeLock
    | LeaveClass
    | CheckInstance              // if not cls._instance
    | ReadLock                   // with cls._instance_lock: fetch the attribute
    | EnterInstance(l: nat)      // ... and acquire it
    | CheckInstanceAgain(l: nat)
    | Construct(l: nat)
    | LeaveInstance(l: nat, raised: bool)
    | Fetch                      // return cls._instance
    | Returned(o: Obj)
    | Raised

  /** A base class that is used as a singleton: whether it has its instance lock and its instance,
      and whether its lock is the one this class sees. */
  datatype Base = NoBase | Base(lock: bool, built: bool, shared: bool)

  /** `instanceLock` is the lock the class sees; `locks[l]` is the thread that holds instance lock
      `l`. `own` is the instance of the class itself. `truthy` says how `not` sees the instances;
      `built` and `locksMade` are history. */
  datatype State = State(
    truthy: bool,
    base: Base,
    classLock: Option<nat>,
    instanceLock: Option<nat>,
    locks: seq<Option<nat>>,
    own: Option<nat>,
    threads: seq<Pc>,
    built: nat,
    locksMade: nat)

  /** BaseLock and BaseBuild are the base class getting its instance lock and its instance. */
  datatype Action = Call | Move(i: nat) | ConstructorRaises(i: nat) | BaseLock | BaseBuild

  /** Nobody has called yet; the base class may have its lock, or its lock and its instance. */
  predicate Initial(s: State) {
    || s == State(s.truthy, NoBase, None, None, [], None, [], 0, 0)
    || s == State(s.truthy, Base(false, false, false), None, None, [], None, [], 0, 0)
    || (s.base.Base? && s == State(s.truthy, Base(true, s.base.built, true), None, Some(0), [None], None, [], 0, 0))
  }

  predicate BaseHas(s: State) {
    s.base.Base? && s.base.built
  }

  /** `cls._instance`. */
  function Instance(s: State): Option<Obj> {
    if s.own.Some? then Some(Built(s.own.value)) else if BaseHas(s) then Some(Inherited) else None
  }

  /** `not cls._instance`. */
  predicate NoInstance(s: State) {
    Instance(s).None? || !s.truthy
  }

  predicate Enabled(s: State, a: Action) {
    match a
    case Call => true
    case ConstructorRaises(i) => i < |s.threads| && s.threads[i].Construct?
    case BaseLock => s.base.Base? && !s.base.lock && s.classLock.None?
    case BaseBuild =>
      s.base.Base? && s.base.lock && !s.base.built && (s.base.shared ==> |s.locks| > 0 && s.locks[0].None?)
    case Move(i) =>
      && i < |s.threads|
      && match s.threads[i]
         case EnterClass => s.classLock.None?
         case ReadLock => s.instanceLock.Some?
         case EnterInstance(l) => l < |s.locks| && s.locks[l].None?
         case LeaveInstance(l, _) => l < |s.locks|
         case Fetch => Instance(s).Some?
         case Returned(_) => false
         case Raised => false
         case _ => true
  }

  function Goto(s: State, i: nat, pc: Pc): State
    requires i < |s.threads|
  {
    s.(threads := s.threads[i := pc])
  }

  function NextOf(s: State, i: nat): State
    requires Enabled(s, Move(i))
  {
    match s.threads[i]
    case CheckLock => Goto(s, i, if s.instanceLock.None? then EnterClass else CheckInstance)
    case EnterClass => Goto(s, i, CheckLockAgain).(classLock := Some(i))
    case CheckLockAgain => Goto(s, i, if s.instanceLock.None? then MakeLock else LeaveClass)
    case MakeLock =>
      Goto(s, i, LeaveClass).(locks := s.locks + [None], instanceLock := Some(|s.locks|), locksMade := s.locksMade + 1)
    case LeaveClass => Goto(s, i, CheckInstance).(classLock := None)
    case CheckInstance => Goto(s, i, if NoInstance(s) then ReadLock else Fetch)
    case ReadLock => Goto(s, i, EnterInstance(s.instanceLock.value))
    case EnterInstance(l) => Goto(s, i, CheckInstanceAgain(l)).(locks := s.locks[l := Some(i)])
    case CheckInstanceAgain(l) => Goto(s, i, if NoInstance(s) then Construct(l) else LeaveInstance(l, false))
    case Construct(l) =>
      Goto(s, i, LeaveInstance(l, false)).(own := Some(s.built), built := s.built + 1)
    case LeaveInstance(l, raised) =>
      Goto(s, i, if raised then Raised else Fetch).(locks := s.locks[l := None])
    case Fetch => Goto(s, i, Returned(Instance(s).value))
  }

  function Next(s: State, a: Action): State
    requires Enabled(s, a)
  {
    match a
    case Call => s.(threads := s.threads + [CheckLock])
    case ConstructorRaises(i) => Goto(s, i, LeaveInstance(s.threads[i].l, true))
    case Move(i) => NextOf(s, i)
    case BaseLock =>
      if s.instanceLock.Some? then s.(base := s.base.(lock := true))
      else s.(base := s.base.(lock := true, shared := true), locks := s.locks + [None], instanceLock := Some(|s.locks|))
    case BaseBuild => s.(base := s.base.(built := true))
  }

  ghost predicate Step(s: State, a: Action, t: State) {
    Enabled(s, a) && t == Next(s, a)
  }

  // ---------- The invariant ----------

  predicate InClass(pc: Pc) {
    pc.CheckLockAgain? || pc.MakeLock? || pc.LeaveClass?
  }

  predicate PastFirst(pc: Pc) {
    !pc.CheckLock? && !pc.EnterClass? && !InClass(pc)
  }

  predicate InInstance(pc: Pc) {
    pc.CheckInstanceAgain? || pc.Construct? || pc.LeaveInstance?
  }

  /** What holds of a thread at `pc`. */
  ghost predicate PcOk(s: State, i: nat)
    requires i < |s.threads|
  {
    var pc := s.threads[i];
    && (InClass(pc) <==> s.classLock == Some(i))
    && (pc.MakeLock? ==> s.instanceLock.None?)
    && (pc.LeaveClass? || PastFirst(pc) ==> s.instanceLock.Some?)
    && (pc.EnterInstance? || InInstance(pc) ==> s.instanceLock == Some(pc.l))
    && (s.instanceLock.Some? && s.instanceLock.value < |s.locks| ==>
          (InInstance(pc) <==> s.locks[s.instanceLock.value] == Some(i)))
    && (pc.Construct? ==> s.own.None?)
    && (pc.Fetch? || (pc.LeaveInstance? && !pc.raised) ==> Instance(s).Some?)
    && (pc.Returned? ==> if pc.o.Inherited? then BaseHas(s) else s.own == Some(pc.o.k))
  }

  ghost predicate LocksOk(s: State) {
    && |s.locks| <= 1
    && s.instanceLock == (if |s.locks| == 0 then None else Some(0))
    && s.locksMade <= |s.locks|
    && (s.base.Base? && s.base.shared ==> |s.locks| == 1)
    && (s.classLock.Some? ==> s.classLock.value < |s.threads|)
    && (|s.locks| == 1 && s.locks[0].Some? ==> s.locks[0].value < |s.threads|)
  }

  ghost predicate InstanceOk(s: State) {
    if s.own.None? then s.built == 0 else s.own == Some(0) && s.built == 1
  }

  ghost predicate Inv(s: State) {
    && s.truthy
    && LocksOk(s)
    && InstanceOk(s)
    && forall i :: 0 <= i < |s.threads| ==> PcOk(s, i)
  }

  predicate ByThread(a: Action) {
    a.Move? || a.ConstructorRaises?
  }

  lemma {:induction false} LocksStep(s: State, a: Action)
    requires LocksOk(s) && Enabled(s, a)
    requires ByThread(a) ==> PcOk(s, a.i)
    ensures LocksOk(Next(s, a))
  {
  }

  lemma {:induction false} InstanceStep(s: State, a: Action)
    requires InstanceOk(s) && Enabled(s, a)
    requires ByThread(a) ==> PcOk(s, a.i)
    ensures InstanceOk(Next(s, a))
  {
  }

  /** A thread's own step. */
  lemma {:induction false} MoverStep(s: State, a: Action)
    requires s.truthy && LocksOk(s) && ByThread(a) && Enabled(s, a) && PcOk(s, a.i)
    ensures PcOk(Next(s, a), a.i)
  {
  }

  /** All that a step of thread `i` may change. */
  ghost predicate Effect(s: State, t: State, i: nat)
    requires i < |s.threads|
  {
    && t.base == s.base && |t.threads| == |s.threads|
    && (forall j :: 0 <= j < |s.threads| && j != i ==> t.threads[j] == s.threads[j])
    && (t.classLock == s.classLock || (s.classLock.None? && t.classLock == Some(i)) || (s.classLock == Some(i) && t.classLock.None?))
    && (if s.instanceLock.None? then t.instanceLock.None? || (s.classLock == Some(i) && t.instanceLock == Some(0) && t.locks == [None])
        else t.instanceLock == s.instanceLock &&
             (t.locks == s.locks || (s.locks == [None] && t.locks == [Some(i)]) || (s.locks == [Some(i)] && t.locks == [None])))
    && (t.own == s.own || (s.own.None? && t.own.Some? && s.locks == [Some(i)] && s.threads[i].Construct?))
  }

  lemma {:induction false} StepEffect(s: State, a: Action)
    requires LocksOk(s) && ByThread(a) && Enabled(s, a) && PcOk(s, a.i)
    ensures Effect(s, Next(s, a), a.i)
  {
    assert |s.locks| == 1 ==> s.locks == [s.locks[0]];
  }

  /** What the step of one thread leaves to another. */
  lemma {:induction false} OtherStep(s: State, t: State, i: nat, j: nat)
    requires LocksOk(s) && i < |s.threads| && Effect(s, t, i)
    requires j < |s.threads| && j != i && PcOk(s, j)
    ensures PcOk(t, j)
  {
  }

  lemma {:induction false} OutsideStep(s: State, a: Action, j: nat)
    requires Inv(s) && Enabled(s, a) && !ByThread(a) && j < |Next(s, a).threads|
    ensures PcOk(Next(s, a), j)
  {
    if j < |s.threads| {
      assert PcOk(s, j);
    }
  }

  lemma {:induction false} InvStep(s: State, a: Action)
    requires Inv(s) && Enabled(s, a)
    ensures Inv(Next(s, a))
  {
    hide PcOk, LocksOk, InstanceOk, Effect;
    LocksStep(s, a);
    InstanceStep(s, a);
    ThreadsKept(s, a);
    forall j | 0 <= j < |Next(s, a).threads| ensures PcOk(Next(s, a), j) {
      if !ByThread(a) {
        OutsideStep(s, a, j);
      } else if j == a.i {
        MoverStep(s, a);
      } else {
        StepEffect(s, a);
        OtherStep(s, Next(s, a), a.i, j);
      }
    }
  }

  lemma {:induction false} ThreadsKept(s: State, a: Action)
    requires Enabled(s, a)
    ensures Next(s, a).truthy == s.truthy
    ensures ByThread(a) ==> |Next(s, a).threads| == |s.threads|
  {
  }

  lemma {:induction false} InvRun(tr: seq<State>, acts: seq<Action>, n: nat)
    requires Run(Step, tr, acts) && Initial(tr[0]) && tr[0].truthy && n < |tr|
    ensures Inv(tr[n])
  {
    forall s, a, t | Inv(s) && Step(s, a, t) ensures Inv(t) {
      InvStep(s, a);
    }
    Invariant(Step, Inv, tr, acts, n);
  }

  /** With truthy instances, in every interleaving of any number of threads and whatever the base
      class does meanwhile: at most one instance lock is created, the constructor completes at most
      once, and a call returns the object built here or that of the base class. */
  lemma {:induction false} BuiltAtMostOnce(tr: seq<State>, acts: seq<Action>, n: nat)
    requires Run(Step, tr, acts) && Initial(tr[0]) && tr[0].truthy && n < |tr|
    ensures tr[n].built <= 1 && tr[n].locksMade <= 1
    ensures forall i :: 0 <= i < |tr[n].threads| && tr[n].threads[i].Returned? ==>
              tr[n].threads[i].o == Inherited || (tr[n].threads[i].o == Built(0) && tr[n].built == 1)
  {
    InvRun(tr, acts, n);
    forall i | 0 <= i < |tr[n].threads| && tr[n].threads[i].Returned?
      ensures tr[n].threads[i].o == Inherited || (tr[n].threads[i].o == Built(0) && tr[n].built == 1)
    {
      assert PcOk(tr[n], i);
    }
  }

  ghost predicate NobodyConstructs(s: State) {
    forall i :: 0 <= i < |s.threads| ==> !s.threads[i].Construct?
  }

  /** The base class does not get its instance while a thread constructs one for this class. */
  ghost predicate OrderedStep(s: State, a: Action, t: State) {
    Step(s, a, t) && (a.BaseBuild? ==> NobodyConstructs(s))
  }

  /** What has been returned is what the class sees, and nobody constructs beside a base instance. */
  ghost predicate Agree(s: State) {
    && Inv(s)
    && (forall i :: 0 <= i < |s.threads| && s.threads[i].Returned? ==> Instance(s) == Some(s.threads[i].o))
    && (BaseHas(s) ==> NobodyConstructs(s))
  }

  lemma {:induction false} MoverAgrees(s: State, a: Action)
    requires s.truthy && ByThread(a) && Enabled(s, a) && !s.threads[a.i].Returned?
    ensures var t := Next(s, a);
            && (t.threads[a.i].Returned? ==> Instance(t) == Some(t.threads[a.i].o))
            && (t.threads[a.i].Construct? ==> Instance(s).None?)
  {
  }

  lemma {:induction false} AgreeAfterThread(s: State, t: State, i: nat)
    requires Agree(s) && i < |s.threads| && Effect(s, t, i) && Inv(t)
    requires t.threads[i].Returned? ==> Instance(t) == Some(t.threads[i].o)
    requires t.threads[i].Construct? ==> Instance(s).None?
    ensures Agree(t)
  {
    hide PcOk, LocksOk, InstanceOk;
  }

  lemma {:induction false} AgreeStep(s: State, a: Action, t: State)
    requires Agree(s) && OrderedStep(s, a, t)
    ensures Agree(t)
  {
    InvStep(s, a);
    if ByThread(a) {
      StepEffect(s, a);
      MoverAgrees(s, a);
      hide Next, Inv, PcOk, Instance, Effect;
      AgreeAfterThread(s, t, a.i);
    } else {
      AgreeOutside(s, a);
    }
  }

  lemma {:induction false} AgreeOutside(s: State, a: Action)
    requires Agree(s) && Enabled(s, a) && !ByThread(a) && Inv(Next(s, a)) && (a.BaseBuild? ==> NobodyConstructs(s))
    ensures Agree(Next(s, a))
  {
    var t := Next(s, a);
    forall i | 0 <= i < |t.threads| && t.threads[i].Returned? ensures Instance(t) == Some(t.threads[i].o) {
      assert t.threads[i] == s.threads[i];
    }
  }

  /** All calls that have returned returned the same object, if the base class does not get its
      instance while a thread constructs one for this class. */
  lemma {:induction false} OneInstance(tr: seq<State>, acts: seq<Action>, n: nat, i: nat, j: nat)
    requires Run(OrderedStep, tr, acts) && Initial(tr[0]) && tr[0].truthy && n < |tr|
    requires i < |tr[n].threads| && tr[n].threads[i].Returned?
    requires j < |tr[n].threads| && tr[n].threads[j].Returned?
    ensures tr[n].threads[i].o == tr[n].threads[j].o
    ensures Instance(tr[n]) == Some(tr[n].threads[i].o)
  {
    forall s, a, t | Agree(s) && OrderedStep(s, a, t) ensures Agree(t) {
      AgreeStep(s, a, t);
    }
    Invariant(OrderedStep, Agree, tr, acts, n);
  }

  ghost predicate SharesLock(s: State) {
    Inv(s) && (s.base.Base? ==> s.base.shared)
  }

  /** That never happens when the base class has its lock before the first call, because the class
      then builds under that very lock, or when no base class is used as a singleton. */
  lemma {:induction false} SharedLockOrders(tr: seq<State>, acts: seq<Action>)
    requires Run(Step, tr, acts) && Initial(tr[0]) && tr[0].truthy
    requires tr[0].base.NoBase? || tr[0].instanceLock.Some?
    ensures Run(OrderedStep, tr, acts)
  {
    forall s, a, t | SharesLock(s) && Step(s, a, t) ensures SharesLock(t) {
      InvStep(s, a);
      if a.Move? {
        assert PcOk(s, a.i);
      }
    }
    forall n | 0 <= n < |acts| ensures OrderedStep(tr[n], acts[n], tr[n + 1]) {
      Invariant(Step, SharesLock, tr, acts, n);
      assert Step(tr[n], acts[n], tr[n + 1]);
      forall i | 0 <= i < |tr[n].threads| && acts[n].BaseBuild? ensures !tr[n].threads[i].Construct? {
        assert PcOk(tr[n], i);
      }
    }
  }

  /** What a call has returned it keeps, so that the calls compared above may be of any two times. */
  lemma {:induction false} ReturnedForGood(tr: seq<State>, acts: seq<Action>, n: nat, m: nat, i: nat)
    requires Run(Step, tr, acts) && n <= m < |tr|
    requires i < |tr[n].threads| && tr[n].threads[i].Returned?
    ensures i < |tr[m].threads| && tr[m].threads[i] == tr[n].threads[i]
  {
    if n < m {
      ReturnedForGood(tr, acts, n, m - 1, i);
      assert Step(tr[m - 1], acts[m - 1], tr[m]);
    }
  }

  ghost predicate KeepsInherited(s: State) {
    Agree(s) && BaseHas(s) && s.own.None?
  }

  /** A class whose base class already has an instance never builds its own: every call returns
      the instance of the base class. */
  lemma {:induction false} InheritedInstanceWins(tr: seq<State>, acts: seq<Action>, n: nat, i: nat)
    requires Run(Step, tr, acts) && Initial(tr[0]) && tr[0].truthy && BaseHas(tr[0]) && n < |tr|
    requires i < |tr[n].threads| && tr[n].threads[i].Returned?
    ensures tr[n].threads[i].o == Inherited && tr[n].built == 0
  {
    forall s, a, t | KeepsInherited(s) && Step(s, a, t) ensures KeepsInherited(t) {
      AgreeStep(s, a, t);
    }
    Invariant(Step, KeepsInherited, tr, acts, n);
  }

  predicate Finished(pc: Pc) {
    pc.Returned? || pc.Raised?
  }

  /** No deadlock: while a call is unfinished, some thread can move. */
  lemma {:induction false} SomeThreadMoves(s: State, i: nat) returns (j: nat)
    requires Inv(s) && i < |s.threads| && !Finished(s.threads[i])
    ensures Enabled(s, Move(j))
  {
    assert PcOk(s, i);
    if Enabled(s, Move(i)) {
      j := i;
    } else if s.threads[i].EnterClass? {
      j := s.classLock.value;
      assert PcOk(s, j);
    } else {
      j := s.locks[0].value;
      assert PcOk(s, j);
    }
  }

  // ---------- What the conditions rule out ----------

  lemma {:induction false} Take(s: State, acts: seq<Action>, t: State, a: Action)
    returns (acts': seq<Action>, t': State)
    requires Reaches(Step, s, acts, t) && Enabled(t, a)
    ensures Reaches(Step, s, acts', t') && t' == Next(t, a)
  {
    acts', t' := acts + [a], Next(t, a);
    Extend(Step, s, acts, t, a, t');
  }

  /** A constructor can raise wherever one is under way. The call raises too, having released the lock
      and left the class without an instance. */
  lemma {:induction false} ConstructorMayRaise(s: State, i: nat) returns (acts: seq<Action>, t: State)
    requires Inv(s) && i < |s.threads| && s.threads[i].Construct?
    ensures Reaches(Step, s, acts, t) && s.own.None?
    ensures t == s.(threads := s.threads[i := Raised], locks := [None])
  {
    assert PcOk(s, i);
    Start(Step, s);
    acts, t := Take(s, [], s, ConstructorRaises(i));
    acts, t := Take(s, acts, t, Move(i));
    assert t.threads == s.threads[i := Raised];
  }

  /** Any number of calls can be made, at any time. */
  lemma {:induction false} CallsAnytime(s: State, n: nat) returns (acts: seq<Action>, t: State)
    ensures Reaches(Step, s, acts, t) && t == s.(threads := t.threads) && |t.threads| == |s.threads| + n
    ensures forall i :: 0 <= i < |t.threads| ==> t.threads[i] == if i < |s.threads| then s.threads[i] else CheckLock
  {
    if n == 0 {
      Start(Step, s);
      acts, t := [], s;
    } else {
      acts, t := CallsAnytime(s, n - 1);
      acts, t := Take(s, acts, t, Call);
    }
  }

  /** One thread has made its own lock and is about to construct. */
  lemma {:induction false} FirstConstructs(s: State) returns (acts: seq<Action>, t: State)
    requires Initial(s) && s.truthy && s.instanceLock.None?
    ensures Reaches(Step, s, acts, t)
    ensures t == s.(threads := [Construct(0)], instanceLock := Some(0), locks := [Some(0)], locksMade := 1)
  {
    acts, t := FirstMakesLock(s);
    acts, t := Take(s, acts, t, Move(0));
    assert t.threads == [ReadLock];
    acts, t := Take(s, acts, t, Move(0));
    assert t.threads == [EnterInstance(0)];
    acts, t := Take(s, acts, t, Move(0));
    assert t.threads == [CheckInstanceAgain(0)];
    acts, t := Take(s, acts, t, Move(0));
  }

  lemma {:induction false} FirstMakesLock(s: State) returns (acts: seq<Action>, t: State)
    requires Initial(s) && s.truthy && s.instanceLock.None?
    ensures Reaches(Step, s, acts, t)
    ensures t == s.(threads := [CheckInstance], instanceLock := Some(0), locks := [None], locksMade := 1)
  {
    acts, t := [], s;
    Start(Step, s);
    acts, t := Take(s, acts, t, Call);
    assert t.threads == [CheckLock];
    acts, t := Take(s, acts, t, Move(0));
    assert t.threads == [EnterClass];
    acts, t := Take(s, acts, t, Move(0));
    assert t.threads == [CheckLockAgain];
    acts, t := Take(s, acts, t, Move(0));
    assert t.threads == [MakeLock];
    acts, t := Take(s, acts, t, Move(0));
    assert t.threads == [LeaveClass] && t.locks == [None];
    acts, t := Take(s, acts, t, Move(0));
  }

  /** The base class gets its instance meanwhile, and another call returns that. */
  lemma {:induction false} SecondInherits(s: State) returns (acts: seq<Action>, t: State)
    requires Initial(s) && s.truthy && s.base.Base? && s.instanceLock.None?
    ensures Reaches(Step, s, acts, t)
    ensures t == s.(threads := [Construct(0), Returned(Inherited)], instanceLock := Some(0), locks := [Some(0)],
                    locksMade := 1, base := Base(true, true, false))
  {
    acts, t := FirstConstructs(s);
    acts, t := Take(s, acts, t, BaseLock);
    acts, t := Take(s, acts, t, BaseBuild);
    acts, t := Take(s, acts, t, Call);
    assert t.threads == [Construct(0), CheckLock];
    acts, t := Take(s, acts, t, Move(1));
    assert t.threads == [Construct(0), CheckInstance];
    acts, t := Take(s, acts, t, Move(1));
    assert t.threads == [Construct(0), Fetch];
    acts, t := Take(s, acts, t, Move(1));
  }

  /** The condition on the base class is exact: from every other start, where a base class is used as
      a singleton and has no lock yet, some run returns two different objects. */
  lemma {:induction false} LateBaseSplits(s: State) returns (acts: seq<Action>, t: State)
    requires Initial(s) && s.truthy && s.base.Base? && s.instanceLock.None?
    ensures Reaches(Step, s, acts, t) && t.threads == [Returned(Built(0)), Returned(Inherited)]
  {
    acts, t := SecondInherits(s);
    acts, t := Take(s, acts, t, Move(0));
    assert t.threads == [LeaveInstance(0, false), Returned(Inherited)];
    acts, t := Take(s, acts, t, Move(0));
    assert t.threads == [Fetch, Returned(Inherited)];
    acts, t := Take(s, acts, t, Move(0));
  }

  /** The instance lock exists and no thread is under way. */
  ghost predicate Idle(s: State) {
    s.instanceLock == Some(0) && s.locks == [None] && s.classLock.None?
  }

  lemma {:induction false} FalsyEnters(s: State) returns (acts: seq<Action>, t: State)
    requires Idle(s) && !s.truthy
    ensures Reaches(Step, s, acts, t)
    ensures t == s.(threads := s.threads + [CheckInstanceAgain(0)], locks := [Some(|s.threads|)])
  {
    var m := Move(|s.threads|);
    acts, t := [], s;
    Start(Step, s);
    acts, t := Take(s, acts, t, Call);
    assert t.threads == s.threads + [CheckLock];
    acts, t := Take(s, acts, t, m);
    assert t.threads == s.threads + [CheckInstance];
    acts, t := Take(s, acts, t, m);
    acts, t := Take(s, acts, t, m);
    assert t.threads == s.threads + [EnterInstance(0)];
    acts, t := Take(s, acts, t, m);
  }

  /** The condition on the instances is exact: when they are falsy, every call, even without any
      concurrency, builds another object and returns it. */
  lemma {:induction false} FalsyAlwaysBuilds(s: State) returns (acts: seq<Action>, t: State)
    requires Idle(s) && !s.truthy
    ensures Reaches(Step, s, acts, t) && Idle(t) && !t.truthy
    ensures t.built == s.built + 1 && t.threads == s.threads + [Returned(Built(s.built))]
  {
    var m := Move(|s.threads|);
    acts, t := FalsyEnters(s);
    acts, t := Take(s, acts, t, m);
    assert t.threads == s.threads + [Construct(0)];
    acts, t := Take(s, acts, t, m);
    assert t.threads == s.threads + [LeaveInstance(0, false)];
    acts, t := Take(s, acts, t, m);
    assert t.threads == s.threads + [Fetch];
    acts, t := Take(s, acts, t, m);
  }
}
