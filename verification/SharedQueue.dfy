/** SharedQueue of multi_process.py: a bounded queue of the creating process. Threads of that
    process use it directly; other processes send one request per connection to a single
    server thread, which executes the request, possibly blocking inside it, and replies.

    The model is a step relation over any number of local and remote put and get calls. */
module SharedQueue {
  import opened Basics
  import opened Counting
  import opened Runs

  type Obj = int

  datatype Op = Put(obj: Obj) | Get

  /** What executing a call did. The index is history: the position of the object among the
      accepted puts (Accepted) or among the removed objects (Got). */
  datatype Outcome = Accepted(i: nat) | Got(obj: Obj, i: nat) | Failed

  datatype Status =
    | Waiting                    // local: inside queue.Queue; remote: connection not yet accepted
    | Serving                    // the server thread executes it
    | Replying(out: Outcome)     // executed, reply not yet sent
    | Returned(out: Outcome)

  /** `patient` is block=True with timeout=None: such a call never gives up. */
  datatype Call = Call(op: Op, remote: bool, patient: bool, status: Status)

  datatype State = State(
    maxsize: int,
    queue: seq<Obj>,
    calls: seq<Call>,
    server: Option<nat>,
    accepted: seq<Obj>,
    removed: seq<Obj>)

  datatype Action = Invoke(op: Op, remote: bool, patient: bool) | Direct(c: nat) | Accept(c: nat) | Execute | Reply

  predicate Initial(s: State) {
    s.queue == [] && s.calls == [] && s.server.None? && s.accepted == [] && s.removed == []
  }

  /** queue.Queue can carry out the operation at once. */
  predicate Ready(s: State, op: Op) {
    if op.Put? then s.maxsize <= 0 || |s.queue| < s.maxsize else s.queue != []
  }

  predicate CanExecute(s: State, k: Call) {
    Ready(s, k.op) || !k.patient
  }

  predicate Enabled(s: State, a: Action) {
    match a
    case Invoke(_, _, _) => true
    case Direct(c) =>
      c < |s.calls| && !s.calls[c].remote && s.calls[c].status.Waiting? && CanExecute(s, s.calls[c])
    case Accept(c) => s.server.None? && c < |s.calls| && s.calls[c].remote && s.calls[c].status.Waiting?
    case Execute =>
      && s.server.Some? && s.server.value < |s.calls|
      && s.calls[s.server.value].status.Serving? && CanExecute(s, s.calls[s.server.value])
    case Reply => s.server.Some? && s.server.value < |s.calls| && s.calls[s.server.value].status.Replying?
  }

  function OutcomeOf(s: State, op: Op): Outcome {
    if !Ready(s, op) then Failed
    else if op.Put? then Accepted(|s.accepted|)
    else Got(s.queue[0], |s.removed|)
  }

  /** The queue after an operation, successful or given up. */
  function Perform(s: State, op: Op): State {
    if !Ready(s, op) then s
    else if op.Put? then s.(queue := s.queue + [op.obj], accepted := s.accepted + [op.obj])
    else s.(queue := s.queue[1..], removed := s.removed + [s.queue[0]])
  }

  function SetStatus(s: State, c: nat, st: Status): State
    requires c < |s.calls|
  {
    s.(calls := s.calls[c := s.calls[c].(status := st)])
  }

  function Next(s: State, a: Action): State
    requires Enabled(s, a)
  {
    match a
    case Invoke(op, remote, patient) => s.(calls := s.calls + [Call(op, remote, patient, Waiting)])
    case Direct(c) =>
      SetStatus(Perform(s, s.calls[c].op), c, Returned(OutcomeOf(s, s.calls[c].op)))
    case Accept(c) => SetStatus(s, c, Serving).(server := Some(c))
    case Execute =>
      var c := s.server.value;
      SetStatus(Perform(s, s.calls[c].op), c, Replying(OutcomeOf(s, s.calls[c].op)))
    case Reply =>
      var c := s.server.value;
      SetStatus(s, c, Returned(s.calls[c].status.out)).(server := None)
  }

  ghost predicate Step(s: State, a: Action, t: State) {
    Enabled(s, a) && t == Next(s, a)
  }

  // ---------- Delivery ----------

  predicate Executed(k: Call) {
    k.status.Replying? || k.status.Returned?
  }

  predicate Holds(k: Call, i: nat) {
    Executed(k) && k.status.out.Got? && k.status.out.i == i
  }

  predicate Supplied(k: Call, i: nat) {
    Executed(k) && k.status.out.Accepted? && k.status.out.i == i
  }

  function GotWeight(k: Call): nat {
    if Executed(k) && k.status.out.Got? then 1 else 0
  }

  function PutWeight(k: Call): nat {
    if Executed(k) && k.status.out.Accepted? then 1 else 0
  }

  /** A put that was accepted supplied the object at its position among the accepted ones, a get that
      succeeded holds the object at its position among the removed ones, a patient call never fails. */
  ghost predicate CallOk(s: State, k: Call) {
    Executed(k) ==>
      match k.status.out
      case Accepted(i) => k.op.Put? && i < |s.accepted| && s.accepted[i] == k.op.obj
      case Got(obj, i) => k.op.Get? && i < |s.removed| && s.removed[i] == obj
      case Failed => !k.patient
  }

  /** No two calls share a removed object, nor an accepted one. */
  ghost predicate NoSharing(s: State) {
    && (forall c, d, i :: 0 <= c < d < |s.calls| ==> !(Holds(s.calls[c], i) && Holds(s.calls[d], i)))
    && (forall c, d, i :: 0 <= c < d < |s.calls| ==> !(Supplied(s.calls[c], i) && Supplied(s.calls[d], i)))
  }

  ghost predicate Counted(s: State) {
    Sum(s.calls, GotWeight) == |s.removed| && Sum(s.calls, PutWeight) == |s.accepted|
  }

  ghost predicate HasGet(calls: seq<Call>, i: nat) {
    exists c :: 0 <= c < |calls| && Holds(calls[c], i)
  }

  ghost predicate HasPut(calls: seq<Call>, i: nat) {
    exists c :: 0 <= c < |calls| && Supplied(calls[c], i)
  }

  /** Every removed object has a get that holds it, every accepted one a put that supplied it. */
  ghost predicate Covered(s: State) {
    (forall i: nat :: i < |s.removed| ==> HasGet(s.calls, i)) && (forall i: nat :: i < |s.accepted| ==> HasPut(s.calls, i))
  }

  ghost predicate Fifo(s: State) {
    && s.accepted == s.removed + s.queue
    && (s.maxsize > 0 ==> |s.queue| <= s.maxsize)
  }

  ghost predicate Inv(s: State) {
    && Fifo(s)
    && (forall c :: 0 <= c < |s.calls| ==> CallOk(s, s.calls[c]))
    && NoSharing(s)
    && Counted(s)
    && Covered(s)
  }

  /** The calls of `t` that correspond to those of `s` hold and supplied at least as much. */
  lemma {:induction false} CoveredStays(s: State, t: State)
    requires Covered(s) && |s.calls| <= |t.calls|
    requires forall c :: 0 <= c < |s.calls| && Executed(s.calls[c]) ==>
               Executed(t.calls[c]) && t.calls[c].status.out == s.calls[c].status.out
    requires |s.removed| <= |t.removed| && |s.accepted| <= |t.accepted|
    requires forall i: nat :: |s.removed| <= i < |t.removed| ==> HasGet(t.calls, i)
    requires forall i: nat :: |s.accepted| <= i < |t.accepted| ==> HasPut(t.calls, i)
    ensures Covered(t)
  {
    forall i: nat | i < |s.removed| ensures HasGet(t.calls, i) {
      assert HasGet(s.calls, i);
      var c :| 0 <= c < |s.calls| && Holds(s.calls[c], i);
      assert Holds(t.calls[c], i);
    }
    forall i: nat | i < |s.accepted| ensures HasPut(t.calls, i) {
      assert HasPut(s.calls, i);
      var c :| 0 <= c < |s.calls| && Supplied(s.calls[c], i);
      assert Supplied(t.calls[c], i);
    }
  }

  lemma {:induction false} CoveredAfter(s: State, c: nat, st: Status)
    requires Covered(s) && c < |s.calls| && !Executed(s.calls[c])
    requires st == Replying(OutcomeOf(s, s.calls[c].op)) || st == Returned(OutcomeOf(s, s.calls[c].op))
    ensures Covered(SetStatus(Perform(s, s.calls[c].op), c, st))
  {
    var t := SetStatus(Perform(s, s.calls[c].op), c, st);
    assert t.calls[c].status == st;
    assert |s.removed| < |t.removed| ==> Holds(t.calls[c], |s.removed|) && |t.removed| == |s.removed| + 1;
    assert |s.accepted| < |t.accepted| ==> Supplied(t.calls[c], |s.accepted|) && |t.accepted| == |s.accepted| + 1;
    CoveredStays(s, t);
  }

  lemma {:induction false} CountedAfter(s: State, c: nat, st: Status)
    requires Counted(s) && c < |s.calls| && !Executed(s.calls[c])
    requires st == Replying(OutcomeOf(s, s.calls[c].op)) || st == Returned(OutcomeOf(s, s.calls[c].op))
    ensures Counted(SetStatus(Perform(s, s.calls[c].op), c, st))
  {
    SumUpdate(s.calls, c, s.calls[c].(status := st), GotWeight);
    SumUpdate(s.calls, c, s.calls[c].(status := st), PutWeight);
  }

  lemma {:induction false} FifoAfter(s: State, op: Op)
    requires Fifo(s)
    ensures Fifo(Perform(s, op))
  {
    var t := Perform(s, op);
    if Ready(s, op) && op.Get? {
      assert s.queue == [s.queue[0]] + t.queue;
    }
    assert t.accepted == t.removed + t.queue;
  }

  /** Executing call `c` against the queue keeps the invariant, wherever the call runs. */
  lemma {:induction false} PerformKeeps(s: State, c: nat, st: Status)
    requires Inv(s) && c < |s.calls| && !Executed(s.calls[c]) && CanExecute(s, s.calls[c])
    requires st == Replying(OutcomeOf(s, s.calls[c].op)) || st == Returned(OutcomeOf(s, s.calls[c].op))
    ensures Inv(SetStatus(Perform(s, s.calls[c].op), c, st))
  {
    var t := SetStatus(Perform(s, s.calls[c].op), c, st);
    CountedAfter(s, c, st);
    CoveredAfter(s, c, st);
    FifoAfter(s, s.calls[c].op);
    forall d | 0 <= d < |t.calls| ensures CallOk(t, t.calls[d]) {
      assert CallOk(s, s.calls[d]);
    }
    forall d, i | 0 <= d < |t.calls| && d != c
      ensures !(Holds(t.calls[c], i) && Holds(t.calls[d], i)) && !(Supplied(t.calls[c], i) && Supplied(t.calls[d], i))
    {
      assert CallOk(s, s.calls[d]);
    }
  }

  /** Changing a status without executing anything keeps the invariant. */
  lemma {:induction false} RelabelKeeps(s: State, c: nat, st: Status)
    requires Inv(s) && c < |s.calls|
    requires if Executed(s.calls[c]) then st == Returned(s.calls[c].status.out) else st == Serving
    ensures Inv(SetStatus(s, c, st))
  {
    var t := SetStatus(s, c, st);
    SumUpdate(s.calls, c, s.calls[c].(status := st), GotWeight);
    SumUpdate(s.calls, c, s.calls[c].(status := st), PutWeight);
    CoveredStays(s, t);
    forall d | 0 <= d < |t.calls| ensures CallOk(t, t.calls[d]) {
      assert CallOk(s, s.calls[d]);
    }
  }

  lemma {:induction false} InvokeKeeps(s: State, k: Call)
    requires Inv(s) && k.status.Waiting?
    ensures Inv(s.(calls := s.calls + [k]))
  {
    var t := s.(calls := s.calls + [k]);
    SumAppend(s.calls, k, GotWeight);
    SumAppend(s.calls, k, PutWeight);
    CoveredStays(s, t);
    forall d | 0 <= d < |t.calls| ensures CallOk(t, t.calls[d]) {
      if d < |s.calls| {
        assert CallOk(s, s.calls[d]);
      }
    }
  }

  lemma {:induction false} InvStep(s: State, a: Action, t: State)
    requires Inv(s) && Step(s, a, t)
    ensures Inv(t)
  {
    match a {
      case Invoke(op, remote, patient) => InvokeKeeps(s, Call(op, remote, patient, Waiting));
      case Direct(c) => PerformKeeps(s, c, Returned(OutcomeOf(s, s.calls[c].op)));
      case Accept(c) => RelabelKeeps(s, c, Serving);
      case Execute => PerformKeeps(s, s.server.value, Replying(OutcomeOf(s, s.calls[s.server.value].op)));
      case Reply => RelabelKeeps(s, s.server.value, Returned(s.calls[s.server.value].status.out));
    }
  }

  lemma {:induction false} InvRun(tr: seq<State>, acts: seq<Action>, n: nat)
    requires Run(Step, tr, acts) && Initial(tr[0]) && n < |tr|
    ensures Inv(tr[n])
  {
    forall s, a, t | Inv(s) && Step(s, a, t) ensures Inv(t) {
      InvStep(s, a, t);
    }
    Invariant(Step, Inv, tr, acts, n);
  }

  /** First in, first out, within the bound: in every reachable state the removed objects are a
      prefix of the accepted ones and the rest is in the queue, which never exceeds a positive
      maxsize. */
  lemma {:induction false} FifoWithinBound(tr: seq<State>, acts: seq<Action>, n: nat)
    requires Run(Step, tr, acts) && Initial(tr[0]) && n < |tr|
    ensures tr[n].removed <= tr[n].accepted
    ensures tr[n].accepted[|tr[n].removed|..] == tr[n].queue
    ensures tr[0].maxsize > 0 ==> |tr[n].queue| <= tr[0].maxsize
  {
    InvRun(tr, acts, n);
    var size := (s: State) => s.maxsize == tr[0].maxsize;
    Invariant(Step, size, tr, acts, n);
  }

  /** Every removed object has been handed to exactly one get: some get holds it, no two do, and a
      get that succeeded holds the object of its position. The same for accepted objects and the
      puts that supplied them. */
  lemma {:induction false} DeliveredOnce(tr: seq<State>, acts: seq<Action>, n: nat)
    requires Run(Step, tr, acts) && Initial(tr[0]) && n < |tr|
    ensures forall i: nat :: i < |tr[n].removed| ==> HasGet(tr[n].calls, i)
    ensures forall i: nat :: i < |tr[n].accepted| ==> HasPut(tr[n].calls, i)
    ensures forall c, d, i: nat :: 0 <= c < d < |tr[n].calls| ==>
              && !(Holds(tr[n].calls[c], i) && Holds(tr[n].calls[d], i))
              && !(Supplied(tr[n].calls[c], i) && Supplied(tr[n].calls[d], i))
    ensures forall c :: 0 <= c < |tr[n].calls| ==> CallOk(tr[n], tr[n].calls[c])
    ensures Sum(tr[n].calls, GotWeight) == |tr[n].removed|
    ensures Sum(tr[n].calls, PutWeight) == |tr[n].accepted|
  {
    InvRun(tr, acts, n);
  }

  /** A put with block=True and timeout=None that returns has been accepted. */
  lemma {:induction false} PatientPutIsAccepted(tr: seq<State>, acts: seq<Action>, n: nat, c: nat)
    requires Run(Step, tr, acts) && Initial(tr[0]) && n < |tr|
    requires c < |tr[n].calls| && tr[n].calls[c].op.Put? && tr[n].calls[c].patient
    requires tr[n].calls[c].status.Returned?
    ensures tr[n].calls[c].status.out.Accepted? && tr[n].calls[c].op.obj in tr[n].accepted
  {
    InvRun(tr, acts, n);
    assert CallOk(tr[n], tr[n].calls[c]);
  }

  /** A call that the queue carries out when it is executed succeeds, and one that it cannot fails, if
      it is one that gives up: a put that finds a positive maxsize reached, a get that finds nothing. */
  lemma {:induction false} FailsExactlyWhenStuck(tr: seq<State>, acts: seq<Action>, n: nat, c: nat)
    requires Run(Step, tr, acts) && Initial(tr[0]) && n < |acts|
    requires c < |tr[n].calls| && c < |tr[n + 1].calls| && !Executed(tr[n].calls[c]) && Executed(tr[n + 1].calls[c])
    ensures var s, t, k, out := tr[n], tr[n + 1], tr[n].calls[c], tr[n + 1].calls[c].status.out;
            match k.op
            case Put(x) =>
              if tr[0].maxsize > 0 && |s.queue| == tr[0].maxsize
              then out == Failed && !k.patient && t.queue == s.queue
              else out == Accepted(|s.accepted|) && t.queue == s.queue + [x]
            case Get =>
              if s.queue == [] then out == Failed && !k.patient && t.queue == []
              else out == Got(s.queue[0], |s.removed|) && s.queue == [s.queue[0]] + t.queue
  {
    FifoWithinBound(tr, acts, n);
    var size := (s: State) => s.maxsize == tr[0].maxsize;
    Invariant(Step, size, tr, acts, n);
    assert Step(tr[n], acts[n], tr[n + 1]);
  }

  /** One more step of a run in the making. */
  lemma {:induction false} Go(s: State, acts: seq<Action>, t: State, a: Action) returns (more: seq<Action>, u: State)
    requires Reaches(Step, s, acts, t) && Enabled(t, a)
    ensures more == acts + [a] && u == Next(t, a) && Reaches(Step, s, more, u)
  {
    more, u := acts + [a], Next(t, a);
    Extend(Step, s, acts, t, a, u);
  }

  /** A remote call that an idle server finds waiting, and that the queue can carry out or that gives
      up, is answered by the server alone. It leaves the other calls and an idle server behind. */
  lemma {:induction false} RemoteCallReturns(s: State, c: nat) returns (acts: seq<Action>, t: State)
    requires c < |s.calls| && s.calls[c].remote && s.calls[c].status.Waiting? && s.server.None?
    requires s.calls[c].patient ==> (s.calls[c].op.Get? && s.queue != []) || (s.calls[c].op.Put? && (s.maxsize <= 0 || |s.queue| < s.maxsize))
    ensures Reaches(Step, s, acts, t) && acts == [Accept(c), Execute, Reply]
    ensures |t.calls| == |s.calls| && t.server.None? && t.calls[c].status.Returned?
    ensures t.calls[c] == s.calls[c].(status := t.calls[c].status)
    ensures forall d :: 0 <= d < |s.calls| && d != c ==> t.calls[d] == s.calls[d]
  {
    Start(Step, s);
    acts, t := Go(s, [], s, Accept(c));
    acts, t := Go(s, acts, t, Execute);
    acts, t := Go(s, acts, t, Reply);
    assert acts == [Accept(c), Execute, Reply];
  }

  /** A local call likewise, at once and whatever the server does. */
  lemma {:induction false} LocalCallReturns(s: State, c: nat) returns (t: State)
    requires c < |s.calls| && !s.calls[c].remote && s.calls[c].status.Waiting?
    requires s.calls[c].patient ==> (s.calls[c].op.Get? && s.queue != []) || (s.calls[c].op.Put? && (s.maxsize <= 0 || |s.queue| < s.maxsize))
    ensures Reaches(Step, s, [Direct(c)], t)
    ensures |t.calls| == |s.calls| && t.server == s.server && t.calls[c].status.Returned?
    ensures t.calls[c] == s.calls[c].(status := t.calls[c].status)
    ensures forall d :: 0 <= d < |s.calls| && d != c ==> t.calls[d] == s.calls[d]
  {
    Start(Step, s);
    var acts;
    acts, t := Go(s, [], s, Direct(c));
    assert acts == [Direct(c)];
  }

  /** The remote put of an impatient client returns normally although its object was refused,
      for every positive maxsize: the reply status is ignored. */
  lemma {:induction false} ImpatientPutCanBeLost(maxsize: int, x: Obj, y: Obj) returns (s: State, acts: seq<Action>, t: State)
    requires maxsize > 0 && x != y
    ensures Initial(s) && s.maxsize == maxsize && Reaches(Step, s, acts, t)
    ensures |t.calls| > 0 && t.calls[|t.calls| - 1] == Call(Put(y), true, false, Returned(Failed))
    ensures y !in t.accepted
  {
    s := State(maxsize, [], [], None, [], []);
    acts, t := FillUp(s, x, maxsize);
    var c := |t.calls|;
    var u1 := Next(t, Invoke(Put(y), true, false));
    Extend(Step, s, acts, t, Invoke(Put(y), true, false), u1);
    acts := acts + [Invoke(Put(y), true, false)];
    var u2 := Next(u1, Accept(c));
    Extend(Step, s, acts, u1, Accept(c), u2);
    acts := acts + [Accept(c)];
    var u3 := Next(u2, Execute);
    Extend(Step, s, acts, u2, Execute, u3);
    acts := acts + [Execute];
    t := Next(u3, Reply);
    Extend(Step, s, acts, u3, Reply, t);
    acts := acts + [Reply];
  }

  /** Local puts of `x` fill the queue to `n` objects. */
  lemma {:induction false} FillUp(s: State, x: Obj, n: nat) returns (acts: seq<Action>, t: State)
    requires s == State(s.maxsize, [], [], None, [], []) && n <= s.maxsize
    ensures Reaches(Step, s, acts, t)
    ensures t.maxsize == s.maxsize && t.server.None? && |t.queue| == n
    ensures forall y :: y in t.accepted ==> y == x
  {
    if n == 0 {
      Start(Step, s);
      acts, t := [], s;
    } else {
      var u;
      acts, u := FillUp(s, x, n - 1);
      var v := Next(u, Invoke(Put(x), false, true));
      Extend(Step, s, acts, u, Invoke(Put(x), false, true), v);
      acts := acts + [Invoke(Put(x), false, true)];
      t := Next(v, Direct(|u.calls|));
      Extend(Step, s, acts, v, Direct(|u.calls|), t);
      acts := acts + [Direct(|u.calls|)];
    }
  }

  // ---------- Head-of-line blocking ----------

  /** The server thread is inside a patient call that the queue cannot carry out. */
  ghost predicate Parked(s: State) {
    && s.server.Some? && s.server.value < |s.calls|
    && s.calls[s.server.value].status.Serving?
    && !CanExecute(s, s.calls[s.server.value])
  }

  ghost predicate RemoteStep(s: State, a: Action, t: State) {
    Step(s, a, t) && !a.Direct?
  }

  /** Only a thread of the creating process can release a parked server: without one, no remote
      call, whatever it asks for, is ever executed or answered again. */
  lemma {:induction false} ParkedUntilLocalHelp(tr: seq<State>, acts: seq<Action>, n: nat)
    requires Run(RemoteStep, tr, acts) && Parked(tr[0]) && n < |tr|
    ensures Parked(tr[n]) && tr[n].server == tr[0].server && tr[n].queue == tr[0].queue
    ensures |tr[0].calls| <= |tr[n].calls|
    ensures forall c :: 0 <= c < |tr[n].calls| ==>
              if c < |tr[0].calls| then tr[n].calls[c] == tr[0].calls[c] else tr[n].calls[c].status.Waiting?
  {
    if n > 0 {
      ParkedUntilLocalHelp(tr, acts, n - 1);
      assert RemoteStep(tr[n - 1], acts[n - 1], tr[n]);
    }
  }
}
