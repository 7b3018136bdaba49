/** AsyncExporter of exporter.py: `export` puts events into a bounded queue and counts the ones it
    has to drop, a worker thread passes them to the inner exporter and counts the ones that fail,
    and `close` stops the worker, waits for it, drains the queue in the time that is left and
    counts the rest as dropped.

    The model is a step relation over any number of `export` calls, the worker thread, one call of
    `close` and a clock. An event is identified with the `export` call that submitted it. Each
    read-modify-write of `_dropped_events` is a load step and a store step. */
module AsyncExporter {
  import opened Counting
  import opened Runs

  /** `self._queue.get(timeout=1.0)`, in milliseconds. */
  const GET_TIMEOUT: int := 1000

  datatype Call =
    | Called
    | Ignored            // `_running` was false
    | Passed             // `_running` was true, put_nowait not yet done
    | Enqueued
    | Full               // put_nowait raised Full
    | Counting(seen: nat)
    | Dropped

  datatype Worker = Top | Getting(since: int) | InHand(e: nat) | Exporting(e: nat) | Dead

  datatype Closer =
    | Open
    | Begun(start: int)
    | Stopped(start: int)
    | Joining(start: int, joined: int)
    | Joined(start: int)
    | Draining(start: int, limit: int)
    | DrainHand(start: int, limit: int, e: nat)
    | DrainExporting(start: int, limit: int, e: nat)
    | CountCheck
    | CountLoaded(seen: nat)
    | Closed

  /** `enqueued`, `delivered` and `exported` are history: the events in the order put_nowait took
      them, in the order inner.export was called with them, and how many of those calls returned. */
  datatype State = State(
    maxsize: int,
    timeout: int,
    now: int,
    running: bool,
    calls: seq<Call>,
    queue: seq<nat>,
    worker: Worker,
    closer: Closer,
    dropped: nat,
    errors: nat,
    enqueued: seq<nat>,
    delivered: seq<nat>,
    exported: nat)

  datatype CallEvent = CheckRunning | PutNowait | LoadDrops | StoreDrops

  datatype WorkerEvent = Loop | Get | GetEmpty | Deliver | Finish(ok: bool)

  datatype CloseEvent =
    | Begin | Stop | BeginJoin | EndJoin | Decide
    | DrainGet | DrainDeliver | DrainFinish(ok: bool)
    | CheckLeft | StoreLeft

  datatype Action =
    | Invoke
    | Export(c: nat, call: CallEvent)
    | Work(work: WorkerEvent)
    | Close(close: CloseEvent)
    | Tick(d: nat)
    | ClockBack(d: nat)

  /** A started exporter. */
  function Started(maxsize: int, timeout: int): State {
    State(maxsize, timeout, 0, true, [], [], Top, Open, 0, 0, [], [], 0)
  }

  predicate HasRoom(s: State) {
    s.maxsize <= 0 || |s.queue| < s.maxsize
  }

  predicate CallEnabled(k: Call, e: CallEvent) {
    match e
    case CheckRunning => k.Called?
    case PutNowait => k.Passed?
    case LoadDrops => k.Full?
    case StoreDrops => k.Counting?
  }

  function CallNext(s: State, c: nat, e: CallEvent): State
    requires c < |s.calls| && CallEnabled(s.calls[c], e)
  {
    match e
    case CheckRunning => s.(calls := s.calls[c := if s.running then Passed else Ignored])
    case PutNowait =>
      if HasRoom(s) then
        s.(calls := s.calls[c := Enqueued], queue := s.queue + [c], enqueued := s.enqueued + [c])
      else s.(calls := s.calls[c := Full])
    case LoadDrops => s.(calls := s.calls[c := Counting(s.dropped)])
    case StoreDrops => s.(calls := s.calls[c := Dropped], dropped := s.calls[c].seen + 1)
  }

  predicate WorkerEnabled(s: State, e: WorkerEvent) {
    match e
    case Loop => s.worker.Top?
    case Get => s.worker.Getting? && s.queue != []
    case GetEmpty => s.worker.Getting? && s.queue == [] && s.now >= s.worker.since + GET_TIMEOUT
    case Deliver => s.worker.InHand?
    case Finish(_) => s.worker.Exporting?
  }

  /** inner.export returned or raised. */
  function Settle(s: State, ok: bool): State {
    if ok then s.(exported := s.exported + 1) else s.(errors := s.errors + 1)
  }

  function WorkerNext(s: State, e: WorkerEvent): State
    requires WorkerEnabled(s, e)
  {
    match e
    case Loop => s.(worker := if s.running then Getting(s.now) else Dead)
    case Get => s.(worker := InHand(s.queue[0]), queue := s.queue[1..])
    case GetEmpty => s.(worker := Top)
    case Deliver => s.(worker := Exporting(s.worker.e), delivered := s.delivered + [s.worker.e])
    case Finish(ok) => Settle(s.(worker := Top), ok)
  }

  predicate CloseEnabled(s: State, e: CloseEvent) {
    match e
    case Begin => s.closer.Open?
    case Stop => s.closer.Begun?
    case BeginJoin => s.closer.Stopped?
    case EndJoin => s.closer.Joining? && (s.worker.Dead? || s.now >= s.closer.joined + s.timeout)
    case Decide => s.closer.Joined?
    case DrainGet => s.closer.Draining?
    case DrainDeliver => s.closer.DrainHand?
    case DrainFinish(_) => s.closer.DrainExporting?
    case CheckLeft => s.closer.CountCheck?
    case StoreLeft => s.closer.CountLoaded?
  }

  function CloseNext(s: State, e: CloseEvent): State
    requires CloseEnabled(s, e)
  {
    var k := s.closer;
    match e
    case Begin => s.(closer := Begun(s.now))
    case Stop => s.(closer := Stopped(k.start), running := false)
    case BeginJoin => s.(closer := if s.worker.Dead? then Joined(k.start) else Joining(k.start, s.now))
    case EndJoin => s.(closer := Joined(k.start))
    case Decide =>
      var remaining := s.timeout - (s.now - k.start);
      s.(closer := if remaining > 0 then Draining(s.now, remaining) else CountCheck)
    case DrainGet =>
      if s.now - k.start >= k.limit || s.queue == [] then s.(closer := CountCheck)
      else s.(closer := DrainHand(k.start, k.limit, s.queue[0]), queue := s.queue[1..])
    case DrainDeliver =>
      s.(closer := DrainExporting(k.start, k.limit, k.e), delivered := s.delivered + [k.e])
    case DrainFinish(ok) => Settle(s.(closer := Draining(k.start, k.limit)), ok)
    case CheckLeft => s.(closer := if s.queue == [] then Closed else CountLoaded(s.dropped))
    case StoreLeft => s.(closer := Closed, dropped := k.seen + |s.queue|)
  }

  /** Time passes, but a get with a timeout ends within that timeout. */
  predicate TickEnabled(s: State, d: nat) {
    s.worker.Getting? ==> s.now + d <= s.worker.since + GET_TIMEOUT
  }

  predicate Enabled(s: State, a: Action) {
    match a
    case Invoke => true
    case Export(c, e) => c < |s.calls| && CallEnabled(s.calls[c], e)
    case Work(e) => WorkerEnabled(s, e)
    case Close(e) => CloseEnabled(s, e)
    case Tick(d) => TickEnabled(s, d)
    case ClockBack(_) => true
  }

  function Next(s: State, a: Action): State
    requires Enabled(s, a)
  {
    match a
    case Invoke => s.(calls := s.calls + [Called])
    case Export(c, e) => CallNext(s, c, e)
    case Work(e) => WorkerNext(s, e)
    case Close(e) => CloseNext(s, e)
    case Tick(d) => s.(now := s.now + d)
    case ClockBack(d) => s.(now := s.now - d)
  }

  ghost predicate Step(s: State, a: Action, t: State) {
    Enabled(s, a) && t == Next(s, a)
  }

  /** The clock never goes back. */
  ghost predicate MonotoneStep(s: State, a: Action, t: State) {
    Step(s, a, t) && !a.ClockBack?
  }

  // ---------- Single consumer and order ----------

  predicate IsDrain(k: Closer) {
    k.Draining? || k.DrainHand? || k.DrainExporting?
  }

  /** How the closing thread, the worker and the clock relate. */
  predicate CloseOk(s: State) {
    && (s.running <==> s.closer.Open? || s.closer.Begun?)
    && (s.worker.Getting? ==> s.worker.since <= s.now)
    && match s.closer
       case Begun(start) => start <= s.now
       case Stopped(start) => start <= s.now
       case Joining(start, joined) =>
         start <= joined <= s.now && (s.worker.Getting? ==> s.worker.since <= joined)
       case Joined(start) => start <= s.now && (!s.worker.Dead? ==> s.now - start >= s.timeout)
       case Draining(_, _) => s.worker.Dead?
       case DrainHand(_, _, _) => s.worker.Dead?
       case DrainExporting(_, _, _) => s.worker.Dead?
       case _ => true
  }

  /** The event that has left the queue and not yet reached the inner exporter. */
  function Carried(s: State): seq<nat> {
    (if s.worker.InHand? then [s.worker.e] else []) + (if s.closer.DrainHand? then [s.closer.e] else [])
  }

  /** Calls of inner.export in progress. */
  function InExport(s: State): nat {
    (if s.worker.Exporting? then 1 else 0) + (if s.closer.DrainExporting? then 1 else 0)
  }

  function InHandCount(s: State): nat {
    |Carried(s)| + InExport(s)
  }

  predicate EventsOk(s: State) {
    && s.enqueued == s.delivered + Carried(s) + s.queue
    && |s.delivered| == s.exported + s.errors + InExport(s)
  }

  lemma {:induction false} CloseOkStep(s: State, a: Action)
    requires CloseOk(s) && Enabled(s, a) && !a.ClockBack?
    ensures CloseOk(Next(s, a))
  {
  }

  lemma {:induction false} CallEvents(s: State, c: nat, e: CallEvent)
    requires EventsOk(s) && c < |s.calls| && CallEnabled(s.calls[c], e)
    ensures EventsOk(CallNext(s, c, e))
  {
    if e.PutNowait? {
      assert s.delivered + Carried(s) + (s.queue + [c]) == s.delivered + Carried(s) + s.queue + [c];
    }
  }

  lemma {:induction false} WorkerEvents(s: State, e: WorkerEvent)
    requires EventsOk(s) && !IsDrain(s.closer) && WorkerEnabled(s, e)
    ensures EventsOk(WorkerNext(s, e))
  {
    var t := WorkerNext(s, e);
    if e.Get? {
      assert Carried(t) + t.queue == Carried(s) + s.queue;
      assert t.delivered + Carried(t) + t.queue == t.delivered + (Carried(t) + t.queue);
      assert s.delivered + Carried(s) + s.queue == s.delivered + (Carried(s) + s.queue);
    } else if e.Deliver? {
      assert t.delivered + Carried(t) == s.delivered + Carried(s);
    }
  }

  lemma {:induction false} CloseEvents(s: State, e: CloseEvent)
    requires EventsOk(s) && CloseEnabled(s, e) && (IsDrain(s.closer) ==> s.worker.Dead?)
    ensures EventsOk(CloseNext(s, e))
  {
    var t := CloseNext(s, e);
    if t.closer.DrainHand? {
      assert Carried(t) + t.queue == Carried(s) + s.queue;
      assert t.delivered + Carried(t) + t.queue == t.delivered + (Carried(t) + t.queue);
      assert s.delivered + Carried(s) + s.queue == s.delivered + (Carried(s) + s.queue);
    } else if e.DrainDeliver? {
      assert t.delivered + Carried(t) == s.delivered + Carried(s);
    }
  }

  ghost predicate Inv(s: State) {
    CloseOk(s) && EventsOk(s)
  }

  lemma {:induction false} InvStep(s: State, a: Action)
    requires Inv(s) && Enabled(s, a) && !a.ClockBack?
    ensures Inv(Next(s, a))
  {
    CloseOkStep(s, a);
    match a {
      case Export(c, e) => CallEvents(s, c, e);
      case Work(e) => WorkerEvents(s, e);
      case Close(e) => CloseEvents(s, e);
      case _ =>
    }
  }

  lemma {:induction false} InvRun(tr: seq<State>, acts: seq<Action>, n: nat)
    requires Run(MonotoneStep, tr, acts) && n < |tr|
    requires tr[0] == Started(tr[0].maxsize, tr[0].timeout)
    ensures Inv(tr[n])
  {
    forall s, a, t | Inv(s) && MonotoneStep(s, a, t) ensures Inv(t) {
      InvStep(s, a);
    }
    Invariant(MonotoneStep, Inv, tr, acts, n);
  }

  /** With a clock that never goes back, the drain never runs beside a living worker, so at most
      one event is out of the queue and at most one call of the inner exporter is in progress; and
      events reach the inner exporter in the order in which the queue accepted them. */
  lemma {:induction false} SingleConsumerInOrder(tr: seq<State>, acts: seq<Action>, n: nat)
    requires Run(MonotoneStep, tr, acts) && n < |tr|
    requires tr[0] == Started(tr[0].maxsize, tr[0].timeout)
    ensures IsDrain(tr[n].closer) ==> tr[n].worker.Dead?
    ensures InHandCount(tr[n]) <= 1
    ensures tr[n].delivered <= tr[n].enqueued
    ensures tr[n].enqueued == tr[n].delivered + Carried(tr[n]) + tr[n].queue
  {
    InvRun(tr, acts, n);
  }

  // ---------- Conservation ----------

  /** The call has had its put_nowait. */
  function Attempted(k: Call): nat {
    if k.Enqueued? || k.Full? || k.Counting? || k.Dropped? then 1 else 0
  }

  /** put_nowait refused the event. */
  function TurnedAway(k: Call): nat {
    if k.Full? || k.Counting? || k.Dropped? then 1 else 0
  }

  /** The refusal has been stored in `_dropped_events`. */
  function Stored(k: Call): nat {
    if k.Dropped? then 1 else 0
  }

  predicate AttemptsOk(s: State) {
    Sum(s.calls, Attempted) == |s.enqueued| + Sum(s.calls, TurnedAway)
  }

  lemma {:induction false} AttemptsOkCall(s: State, c: nat, e: CallEvent)
    requires AttemptsOk(s) && c < |s.calls| && CallEnabled(s.calls[c], e)
    ensures AttemptsOk(CallNext(s, c, e))
  {
    var t := CallNext(s, c, e);
    var k := t.calls[c];
    assert t.calls == s.calls[c := k];
    SumUpdate(s.calls, c, k, Attempted);
    SumUpdate(s.calls, c, k, TurnedAway);
    hide Sum;
  }

  /** The worker, `close` and the clock leave the calls alone. */
  lemma {:induction false} CallsKept(s: State, a: Action)
    requires Enabled(s, a) && !a.Invoke? && !a.Export?
    ensures Next(s, a).calls == s.calls && Next(s, a).enqueued == s.enqueued
    ensures !a.Close? ==> Next(s, a).dropped == s.dropped && Next(s, a).closer == s.closer
  {
  }

  lemma {:induction false} AttemptsOkStep(s: State, a: Action)
    requires AttemptsOk(s) && Enabled(s, a)
    ensures AttemptsOk(Next(s, a))
  {
    match a {
      case Invoke =>
        SumAppend(s.calls, Called, Attempted);
        SumAppend(s.calls, Called, TurnedAway);
      case Export(c, e) => AttemptsOkCall(s, c, e);
      case _ => CallsKept(s, a);
    }
  }

  /** In every reachable state every submitted event is exported, failed, refused, queued or the
      one event in hand: nothing is lost and nothing is counted twice. */
  lemma {:induction false} EventsConserved(tr: seq<State>, acts: seq<Action>, n: nat)
    requires Run(MonotoneStep, tr, acts) && n < |tr|
    requires tr[0] == Started(tr[0].maxsize, tr[0].timeout)
    ensures Sum(tr[n].calls, Attempted)
            == tr[n].exported + tr[n].errors + Sum(tr[n].calls, TurnedAway) + |tr[n].queue| + InHandCount(tr[n])
    ensures InHandCount(tr[n]) <= 1
  {
    InvRun(tr, acts, n);
    forall s, a, t | AttemptsOk(s) && MonotoneStep(s, a, t) ensures AttemptsOk(t) {
      AttemptsOkStep(s, a);
    }
    Invariant(MonotoneStep, AttemptsOk, tr, acts, n);
  }

  // ---------- What the counters count ----------

  /** A call of the inner exporter, by the worker or by the drain, that returns (or raises). */
  predicate Ends(a: Action, ok: bool) {
    a == Work(Finish(ok)) || a == Close(DrainFinish(ok))
  }

  function Ended(acts: seq<Action>, ok: bool): nat {
    if acts == [] then 0 else Ended(acts[..|acts| - 1], ok) + if Ends(acts[|acts| - 1], ok) then 1 else 0
  }

  lemma {:induction false} CountersStep(s: State, a: Action)
    requires Enabled(s, a)
    ensures Next(s, a).exported == s.exported + if Ends(a, true) then 1 else 0
    ensures Next(s, a).errors == s.errors + if Ends(a, false) then 1 else 0
  {
  }

  /** In every run whatever, `_error_events` is the number of calls of the inner exporter that raised,
      and the events exported are those whose call returned. */
  lemma {:induction false} OutcomesAreCounted(tr: seq<State>, acts: seq<Action>, n: nat)
    requires Run(Step, tr, acts) && n < |tr|
    requires tr[0] == Started(tr[0].maxsize, tr[0].timeout)
    ensures tr[n].errors == Ended(acts[..n], false) && tr[n].exported == Ended(acts[..n], true)
  {
    if n > 0 {
      OutcomesAreCounted(tr, acts, n - 1);
      assert Step(tr[n - 1], acts[n - 1], tr[n]);
      CountersStep(tr[n - 1], acts[n - 1]);
      assert acts[..n][..n - 1] == acts[..n - 1];
    }
  }

  /** Steps of `export` calls of kind `e`. */
  function CallSteps(acts: seq<Action>, e: CallEvent): nat {
    if acts == [] then 0
    else CallSteps(acts[..|acts| - 1], e) + if acts[|acts| - 1].Export? && acts[|acts| - 1].call == e then 1 else 0
  }

  lemma {:induction false} CallCountsStep(s: State, a: Action)
    requires Enabled(s, a)
    ensures Sum(Next(s, a).calls, Attempted) == Sum(s.calls, Attempted) + if a.Export? && a.call.PutNowait? then 1 else 0
    ensures Sum(Next(s, a).calls, Stored) == Sum(s.calls, Stored) + if a.Export? && a.call.StoreDrops? then 1 else 0
  {
    match a {
      case Invoke =>
        SumAppend(s.calls, Called, Attempted);
        SumAppend(s.calls, Called, Stored);
      case Export(c, e) =>
        var k := Next(s, a).calls[c];
        assert Next(s, a).calls == s.calls[c := k];
        SumUpdate(s.calls, c, k, Attempted);
        SumUpdate(s.calls, c, k, Stored);
      case _ => CallsKept(s, a);
    }
  }

  /** In every run whatever, the submitted events are the calls of put_nowait, and the refusals stored
      are the updates of `_dropped_events` by `export`. */
  lemma {:induction false} SubmissionsAreCounted(tr: seq<State>, acts: seq<Action>, n: nat)
    requires Run(Step, tr, acts) && n < |tr|
    requires tr[0] == Started(tr[0].maxsize, tr[0].timeout)
    ensures Sum(tr[n].calls, Attempted) == CallSteps(acts[..n], PutNowait)
    ensures Sum(tr[n].calls, Stored) == CallSteps(acts[..n], StoreDrops)
  {
    if n > 0 {
      SubmissionsAreCounted(tr, acts, n - 1);
      assert Step(tr[n - 1], acts[n - 1], tr[n]);
      CallCountsStep(tr[n - 1], acts[n - 1]);
      assert acts[..n][..n - 1] == acts[..n - 1];
    }
  }

  /** The queue never exceeds a positive maxsize. */
  ghost predicate Bounded(s: State) {
    s.maxsize > 0 ==> |s.queue| <= s.maxsize
  }

  lemma {:induction false} BoundedStep(s: State, a: Action)
    requires Bounded(s) && Enabled(s, a)
    ensures Bounded(Next(s, a)) && Next(s, a).maxsize == s.maxsize && Next(s, a).timeout == s.timeout
  {
  }

  lemma {:induction false} BoundedRun(tr: seq<State>, acts: seq<Action>, n: nat)
    requires Run(Step, tr, acts) && n < |tr| && Bounded(tr[0])
    ensures Bounded(tr[n]) && tr[n].maxsize == tr[0].maxsize && tr[n].timeout == tr[0].timeout
  {
    if n > 0 {
      BoundedRun(tr, acts, n - 1);
      assert Step(tr[n - 1], acts[n - 1], tr[n]);
      BoundedStep(tr[n - 1], acts[n - 1]);
    }
  }

  /** An event is refused exactly when the queue is full, and queued last otherwise. */
  lemma {:induction false} RefusedExactlyWhenFull(tr: seq<State>, acts: seq<Action>, n: nat, c: nat)
    requires Run(Step, tr, acts) && n < |acts| && acts[n] == Export(c, PutNowait)
    requires tr[0] == Started(tr[0].maxsize, tr[0].timeout)
    ensures |tr[n].queue| <= tr[0].maxsize || tr[0].maxsize <= 0
    ensures c < |tr[n + 1].calls|
    ensures if tr[0].maxsize > 0 && |tr[n].queue| == tr[0].maxsize
            then tr[n + 1].calls[c] == Full && tr[n + 1].queue == tr[n].queue
            else tr[n + 1].calls[c] == Enqueued && tr[n + 1].queue == tr[n].queue + [c]
  {
    BoundedRun(tr, acts, n);
    assert Step(tr[n], acts[n], tr[n + 1]);
  }

  /** An event is submitted exactly when the exporter is running at the time of the check. */
  lemma {:induction false} SubmittedExactlyWhileRunning(tr: seq<State>, acts: seq<Action>, n: nat, c: nat)
    requires Run(Step, tr, acts) && n < |acts| && acts[n] == Export(c, CheckRunning)
    requires tr[0] == Started(tr[0].maxsize, tr[0].timeout)
    ensures c < |tr[n + 1].calls|
    ensures tr[n + 1].calls[c] == if Close(Stop) in acts[..n] then Ignored else Passed
  {
    RunningUntilStop(tr, acts, n);
    assert Step(tr[n], acts[n], tr[n + 1]);
  }

  lemma {:induction false} RunningUntilStop(tr: seq<State>, acts: seq<Action>, n: nat)
    requires Run(Step, tr, acts) && n < |tr|
    requires tr[0] == Started(tr[0].maxsize, tr[0].timeout)
    ensures tr[n].running <==> Close(Stop) !in acts[..n]
  {
    if n > 0 {
      RunningUntilStop(tr, acts, n - 1);
      assert Step(tr[n - 1], acts[n - 1], tr[n]);
      assert acts[..n] == acts[..n - 1] + [acts[n - 1]];
      RunningStep(tr[n - 1], acts[n - 1]);
    }
  }

  lemma {:induction false} RunningStep(s: State, a: Action)
    requires Enabled(s, a)
    ensures Next(s, a).running == (s.running && a != Close(Stop))
  {
  }

  // ---------- The deadline of the drain ----------

  /** `begun` is when `close` was called: the drain has until `begun` plus the timeout. */
  predicate DeadlineOk(s: State, begun: int) {
    match s.closer
    case Begun(start) => start == begun
    case Stopped(start) => start == begun
    case Joining(start, _) => start == begun
    case Joined(start) => start == begun
    case Draining(start, limit) => start + limit == begun + s.timeout
    case DrainHand(start, limit, _) => start + limit == begun + s.timeout
    case DrainExporting(start, limit, _) => start + limit == begun + s.timeout
    case _ => true
  }

  lemma {:induction false} DeadlineStep(s: State, a: Action, begun: int)
    requires Enabled(s, a)
    ensures a == Close(Begin) ==> DeadlineOk(Next(s, a), s.now)
    ensures a != Close(Begin) && DeadlineOk(s, begun) && !s.closer.Open? ==>
              DeadlineOk(Next(s, a), begun) && !Next(s, a).closer.Open?
  {
  }

  lemma {:induction false} DeadlineRun(tr: seq<State>, acts: seq<Action>, b: nat, n: nat)
    requires Run(Step, tr, acts) && b < n < |tr| && acts[b] == Close(Begin)
    ensures DeadlineOk(tr[n], tr[b].now) && !tr[n].closer.Open? && tr[n].timeout == tr[b].timeout
  {
    assert Step(tr[n - 1], acts[n - 1], tr[n]);
    if n > b + 1 {
      DeadlineRun(tr, acts, b, n - 1);
      assert acts[n - 1] != Close(Begin);
    }
    DeadlineStep(tr[n - 1], acts[n - 1], tr[b].now);
    KeepsTimeout(tr[n - 1], acts[n - 1]);
  }

  lemma {:induction false} KeepsTimeout(s: State, a: Action)
    requires Enabled(s, a)
    ensures Next(s, a).timeout == s.timeout
  {
  }

  /** `close` hands over to the drain, and the drain takes another event, exactly while the time given
      to `close` (called at step `b`) is not used up, the drain moreover only while there is one. It
      takes the oldest. */
  lemma {:induction false} DrainWithinDeadline(tr: seq<State>, acts: seq<Action>, b: nat, n: nat)
    requires Run(Step, tr, acts) && b < n < |acts| && acts[b] == Close(Begin)
    ensures acts[n] == Close(Decide) ==> (tr[n + 1].closer.Draining? <==> tr[n].now < tr[b].now + tr[b].timeout)
    ensures acts[n] == Close(DrainGet) ==>
              && (tr[n + 1].closer.DrainHand? <==> tr[n].now < tr[b].now + tr[b].timeout && tr[n].queue != [])
              && (tr[n + 1].closer.DrainHand? ==> tr[n].queue == [tr[n + 1].closer.e] + tr[n + 1].queue)
              && (!tr[n + 1].closer.DrainHand? ==> tr[n + 1] == tr[n].(closer := CountCheck))
  {
    DeadlineRun(tr, acts, b, n);
    assert Step(tr[n], acts[n], tr[n + 1]);
  }

  /** An event that the drain has taken it can export, and then look for the next one. */
  lemma {:induction false} DrainExports(s: State, ok: bool) returns (acts: seq<Action>, t: State)
    requires s.closer.Draining? && s.now - s.closer.start < s.closer.limit && s.queue != []
    ensures Reaches(Step, s, acts, t) && t.closer == s.closer && t.queue == s.queue[1..]
    ensures t.delivered == s.delivered + [s.queue[0]]
    ensures if ok then t.exported == s.exported + 1 && t.errors == s.errors
            else t.errors == s.errors + 1 && t.exported == s.exported
  {
    Start(Step, s);
    acts, t := Take(s, [], s, Close(DrainGet));
    acts, t := Take(s, acts, t, Close(DrainDeliver));
    acts, t := Take(s, acts, t, Close(DrainFinish(ok)));
  }

  /** So can the worker. */
  lemma {:induction false} WorkerExports(s: State, ok: bool) returns (acts: seq<Action>, t: State)
    requires s.worker.Top? && s.running && s.queue != []
    ensures Reaches(Step, s, acts, t) && t.worker == s.worker && t.queue == s.queue[1..]
    ensures t.delivered == s.delivered + [s.queue[0]]
    ensures if ok then t.exported == s.exported + 1 && t.errors == s.errors
            else t.errors == s.errors + 1 && t.exported == s.exported
  {
    Start(Step, s);
    acts, t := Take(s, [], s, Work(Loop));
    acts, t := Take(s, acts, t, Work(Get));
    acts, t := Take(s, acts, t, Work(Deliver));
    acts, t := Take(s, acts, t, Work(Finish(ok)));
  }

  /** An `export` call made in any state comes to its end by its own steps: ignored if the exporter does
      not run, queued last if there is room, and counted as dropped otherwise. */
  lemma {:induction false} ExportReturns(s: State) returns (acts: seq<Action>, t: State)
    ensures Reaches(Step, s, acts, t) && |t.calls| == |s.calls| + 1 && t.calls[..|s.calls|] == s.calls
    ensures var k := t.calls[|s.calls|];
            if !s.running then k == Ignored && t == s.(calls := t.calls)
            else if s.maxsize > 0 && |s.queue| >= s.maxsize then k == Dropped && t == s.(calls := t.calls, dropped := s.dropped + 1)
            else k == Enqueued && t == s.(calls := t.calls, queue := s.queue + [|s.calls|], enqueued := s.enqueued + [|s.calls|])
  {
    var c := |s.calls|;
    Start(Step, s);
    acts, t := Take(s, [], s, Invoke);
    acts, t := Take(s, acts, t, Export(c, CheckRunning));
    if s.running {
      acts, t := Take(s, acts, t, Export(c, PutNowait));
      if t.calls[c].Full? {
        acts, t := Take(s, acts, t, Export(c, LoadDrops));
        acts, t := Take(s, acts, t, Export(c, StoreDrops));
      }
    }
  }

  /** The wait for the worker ends once the worker has ended or the timeout has passed. */
  lemma {:induction false} JoinEnds(s: State) returns (acts: seq<Action>, t: State)
    requires s.closer.Joining? && (s.worker.Dead? || s.now >= s.closer.joined + s.timeout)
    ensures Reaches(Step, s, acts, t) && |acts| == 1 && t == s.(closer := Joined(s.closer.start))
  {
    Start(Step, s);
    t := s.(closer := Joined(s.closer.start));
    Extend(Step, s, [], s, Close(EndJoin), t);
    acts := [] + [Close(EndJoin)];
  }

  /** A worker that waits on an empty queue when the flag is cleared ends within its timeout. */
  lemma {:induction false} IdleWorkerEnds(s: State) returns (acts: seq<Action>, t: State)
    requires s.worker.Getting? && !s.running && s.queue == [] && s.now <= s.worker.since + 1000
    ensures Reaches(Step, s, acts, t) && t == s.(worker := Dead, now := s.worker.since + 1000)
  {
    Start(Step, s);
    acts, t := Take(s, [], s, Tick(s.worker.since + GET_TIMEOUT - s.now));
    acts, t := Take(s, acts, t, Work(GetEmpty));
    acts, t := Take(s, acts, t, Work(Loop));
  }

  // ---------- The drop counter ----------

  /** Two updates of `_dropped_events` do not overlap. */
  ghost predicate SerialStep(s: State, a: Action, t: State) {
    && MonotoneStep(s, a, t)
    && ((a.Export? && a.call.LoadDrops?) || a == Close(CheckLeft) ==>
          !s.closer.CountLoaded? && forall c :: 0 <= c < |s.calls| ==> !s.calls[c].Counting?)
  }

  /** Nor is an export call past its check of `_running` when `close` clears the flag. */
  ghost predicate QuietStep(s: State, a: Action, t: State) {
    && SerialStep(s, a, t)
    && (a == Close(Stop) ==> forall c :: 0 <= c < |s.calls| ==> !InProgress(s.calls[c]))
  }

  predicate InProgress(k: Call) {
    k.Passed? || k.Full? || k.Counting?
  }

  ghost predicate SeenIsCurrent(s: State) {
    && (forall c :: 0 <= c < |s.calls| && s.calls[c].Counting? ==> s.calls[c].seen == s.dropped)
    && (forall c, d :: 0 <= c < d < |s.calls| ==> !(s.calls[c].Counting? && s.calls[d].Counting?))
    && (s.closer.CountLoaded? ==>
          s.closer.seen == s.dropped && forall c :: 0 <= c < |s.calls| ==> !s.calls[c].Counting?)
  }

  ghost predicate DropsOk(s: State) {
    SeenIsCurrent(s) && (!s.closer.Closed? ==> s.dropped == Sum(s.calls, Stored))
  }

  lemma {:induction false} DropsOkCall(s: State, c: nat, e: CallEvent)
    requires DropsOk(s) && c < |s.calls| && CallEnabled(s.calls[c], e)
    requires e.LoadDrops? ==> !s.closer.CountLoaded? && forall d :: 0 <= d < |s.calls| ==> !s.calls[d].Counting?
    ensures DropsOk(CallNext(s, c, e))
  {
    var t := CallNext(s, c, e);
    assert t.calls == s.calls[c := t.calls[c]];
    SumUpdate(s.calls, c, t.calls[c], Stored);
    hide Sum;
    assert SeenIsCurrent(t);
  }

  lemma {:induction false} DropsOkStep(s: State, a: Action, t: State)
    requires DropsOk(s) && SerialStep(s, a, t)
    ensures DropsOk(t)
  {
    match a {
      case Invoke => SumAppend(s.calls, Called, Stored);
      case Export(c, e) => DropsOkCall(s, c, e);
      case _ => CallsKept(s, a);
    }
  }

  /** Until `close` has counted, `_dropped_events` is exactly the number of refusals stored, in
      every run in which its updates do not overlap. */
  lemma {:induction false} DropCounterExact(tr: seq<State>, acts: seq<Action>, n: nat)
    requires Run(SerialStep, tr, acts) && n < |tr|
    requires tr[0] == Started(tr[0].maxsize, tr[0].timeout)
    requires !tr[n].closer.Closed?
    ensures tr[n].dropped == Sum(tr[n].calls, Stored)
  {
    forall s, a, t | DropsOk(s) && SerialStep(s, a, t) ensures DropsOk(t) {
      DropsOkStep(s, a, t);
    }
    Invariant(SerialStep, DropsOk, tr, acts, n);
  }

  predicate PastJoin(k: Closer) {
    k.Joined? || IsDrain(k) || k.CountCheck? || k.CountLoaded? || k.Closed?
  }

  /** When the timeout exceeds one wait of the worker on the queue, no worker is still waiting
      there once the join is over. */
  ghost predicate TimingOk(s: State) {
    && CloseOk(s)
    && s.timeout > GET_TIMEOUT
    && (s.worker.Getting? ==> s.now <= s.worker.since + GET_TIMEOUT)
    && (PastJoin(s.closer) ==> !s.worker.Getting?)
  }

  lemma {:induction false} TimingOkStep(s: State, a: Action)
    requires TimingOk(s) && Enabled(s, a) && !a.ClockBack?
    ensures TimingOk(Next(s, a))
  {
    CloseOkStep(s, a);
  }

  /** Once the flag is cleared no export call is in progress. */
  ghost predicate QuietOk(s: State) {
    !s.running ==> forall c :: 0 <= c < |s.calls| ==> !InProgress(s.calls[c])
  }

  /** Once closed, the counter also covers what is left in the queue. */
  ghost predicate LeftoversOk(s: State) {
    s.closer.Closed? ==> s.dropped == Sum(s.calls, Stored) + |s.queue|
  }

  ghost predicate StoppedOk(s: State) {
    TimingOk(s) && QuietOk(s) && DropsOk(s) && LeftoversOk(s)
  }

  lemma {:induction false} LeftoversOkStep(s: State, a: Action)
    requires StoppedOk(s) && Enabled(s, a) && !a.ClockBack?
    ensures LeftoversOk(Next(s, a))
  {
    match a {
      case Invoke => SumAppend(s.calls, Called, Stored);
      case Export(c, e) =>
        if s.closer.Closed? {
          assert e.CheckRunning?;
          SumUpdate(s.calls, c, Ignored, Stored);
        }
      case _ => CallsKept(s, a);
    }
  }

  lemma {:induction false} QuietOkStep(s: State, a: Action, t: State)
    requires QuietOk(s) && QuietStep(s, a, t)
    ensures QuietOk(t)
  {
    if !a.Invoke? && !a.Export? {
      CallsKept(s, a);
    }
  }

  lemma {:induction false} StoppedOkStep(s: State, a: Action, t: State)
    requires StoppedOk(s) && QuietStep(s, a, t)
    ensures StoppedOk(t)
  {
    TimingOkStep(s, a);
    QuietOkStep(s, a, t);
    DropsOkStep(s, a, t);
    LeftoversOkStep(s, a);
  }

  /** Conservation across `close`: if no export call is in progress when the flag is cleared, and
      the timeout is longer than one wait of the worker on the queue, then after `close` the
      counters account for every submitted event. */
  lemma {:induction false} ClosedConserves(tr: seq<State>, acts: seq<Action>, n: nat)
    requires Run(QuietStep, tr, acts) && n < |tr|
    requires tr[0] == Started(tr[0].maxsize, tr[0].timeout) && tr[0].timeout > GET_TIMEOUT
    requires tr[n].closer.Closed?
    ensures Sum(tr[n].calls, Attempted) == tr[n].exported + tr[n].errors + tr[n].dropped + InHandCount(tr[n])
  {
    forall i | 0 <= i < |acts| ensures MonotoneStep(tr[i], acts[i], tr[i + 1]) {
      assert QuietStep(tr[i], acts[i], tr[i + 1]);
    }
    EventsConserved(tr, acts, n);
    forall s, a, t | StoppedOk(s) && QuietStep(s, a, t) ensures StoppedOk(t) {
      StoppedOkStep(s, a, t);
    }
    Invariant(QuietStep, StoppedOk, tr, acts, n);
    SumCongruent(tr[n].calls, TurnedAway, Stored);
  }

  // ---------- What the conditions rule out ----------

  lemma {:induction false} Take(s: State, acts: seq<Action>, t: State, a: Action)
    returns (acts': seq<Action>, t': State)
    requires Reaches(Step, s, acts, t) && Enabled(t, a)
    ensures Reaches(Step, s, acts', t') && t' == Next(t, a)
  {
    acts', t' := acts + [a], Next(t, a);
    Extend(Step, s, acts, t, a, t');
  }

  lemma {:induction false} TakeQuiet(s: State, acts: seq<Action>, t: State, a: Action)
    returns (acts': seq<Action>, t': State)
    requires Reaches(QuietStep, s, acts, t) && Enabled(t, a) && QuietStep(t, a, Next(t, a))
    ensures Reaches(QuietStep, s, acts', t') && t' == Next(t, a)
  {
    acts', t' := acts + [a], Next(t, a);
    Extend(QuietStep, s, acts, t, a, t');
  }

  /** The worker waits in its get and one event is in the queue. */
  lemma {:induction false} OneQueued(timeout: int) returns (acts: seq<Action>, t: State)
    ensures Reaches(QuietStep, Started(1, timeout), acts, t)
    ensures t == Started(1, timeout).(calls := [Enqueued], queue := [0], enqueued := [0], worker := Getting(0))
  {
    var s := Started(1, timeout);
    acts, t := [], s;
    Start(QuietStep, s);
    acts, t := TakeQuiet(s, acts, t, Work(Loop));
    acts, t := TakeQuiet(s, acts, t, Invoke);
    assert t.calls == [Called];
    acts, t := TakeQuiet(s, acts, t, Export(0, CheckRunning));
    assert t.calls == [Passed];
    acts, t := TakeQuiet(s, acts, t, Export(0, PutNowait));
  }

  /** From there `close` stops and joins while the worker still waits. */
  lemma {:induction false} ShortJoin(timeout: int) returns (acts: seq<Action>, t: State)
    requires timeout <= GET_TIMEOUT
    ensures Reaches(QuietStep, Started(1, timeout), acts, t)
    ensures t == Started(1, timeout).(now := t.now, running := false, calls := [Enqueued], queue := [0],
                                      enqueued := [0], worker := Getting(0), closer := Joined(0))
    ensures t.now >= timeout
  {
    var s := Started(1, timeout);
    acts, t := OneQueued(timeout);
    acts, t := TakeQuiet(s, acts, t, Close(Begin));
    acts, t := TakeQuiet(s, acts, t, Close(Stop));
    acts, t := TakeQuiet(s, acts, t, Close(BeginJoin));
    acts, t := TakeQuiet(s, acts, t, Tick(if timeout > 0 then timeout else 0));
    acts, t := TakeQuiet(s, acts, t, Close(EndJoin));
  }

  /** The condition on the timeout is exact: for every shorter one some run counts an event as
      dropped that the worker still takes and exports. */
  lemma {:induction false} ShortTimeoutCountsTwice(timeout: int) returns (acts: seq<Action>, t: State)
    requires timeout <= GET_TIMEOUT
    ensures Reaches(QuietStep, Started(1, timeout), acts, t) && t.closer.Closed?
    ensures t.calls == [Enqueued] && t.exported == 1 && t.dropped == 1
  {
    var s := Started(1, timeout);
    acts, t := ShortJoin(timeout);
    acts, t := TakeQuiet(s, acts, t, Close(Decide));
    acts, t := TakeQuiet(s, acts, t, Close(CheckLeft));
    acts, t := TakeQuiet(s, acts, t, Close(StoreLeft));
    acts, t := TakeQuiet(s, acts, t, Work(Get));
    acts, t := TakeQuiet(s, acts, t, Work(Deliver));
    acts, t := TakeQuiet(s, acts, t, Work(Finish(true)));
  }

  /** If the clock goes back during the join, the drain runs beside the worker. */
  lemma {:induction false} ClockBackMakesTwoConsumers(maxsize: int, timeout: int) returns (acts: seq<Action>, t: State)
    ensures Reaches(Step, Started(maxsize, timeout), acts, t)
    ensures t.closer.Draining? && !t.worker.Dead?
  {
    var s := Started(maxsize, timeout);
    acts, t := [], s;
    Start(Step, s);
    acts, t := Take(s, acts, t, Close(Begin));
    acts, t := Take(s, acts, t, Close(Stop));
    acts, t := Take(s, acts, t, Close(BeginJoin));
    acts, t := Take(s, acts, t, Tick(if timeout > 0 then timeout else 0));
    acts, t := Take(s, acts, t, Close(EndJoin));
    acts, t := Take(s, acts, t, ClockBack(if timeout > 0 then 1 else 1 - timeout));
    acts, t := Take(s, acts, t, Close(Decide));
  }

  /** An export call in progress during `close` can slip its event in after the count: it is
      queued for ever and no counter mentions it. */
  lemma {:induction false} LateExportIsNotCounted(timeout: int) returns (acts: seq<Action>, t: State)
    ensures Reaches(Step, Started(1, timeout), acts, t) && t.closer.Closed? && t.worker.Dead?
    ensures t.calls == [Enqueued] && t.exported == t.errors == t.dropped == 0
  {
    var s := Started(1, timeout);
    acts, t := [], s;
    Start(Step, s);
    acts, t := Take(s, acts, t, Invoke);
    assert t.calls == [Called];
    acts, t := Take(s, acts, t, Export(0, CheckRunning));
    assert t.calls == [Passed];
    acts, t := Take(s, acts, t, Close(Begin));
    acts, t := Take(s, acts, t, Close(Stop));
    acts, t := Take(s, acts, t, Work(Loop));
    acts, t := Take(s, acts, t, Close(BeginJoin));
    acts, t := Take(s, acts, t, Close(Decide));
    if timeout > 0 {
      acts, t := Take(s, acts, t, Close(DrainGet));
    }
    acts, t := Take(s, acts, t, Close(CheckLeft));
    acts, t := Take(s, acts, t, Export(0, PutNowait));
  }

  /** Two overlapping updates of `_dropped_events` lose one. */
  lemma {:induction false} OverlappingDropsLoseOne(timeout: int) returns (acts: seq<Action>, t: State)
    ensures Reaches(Step, Started(1, timeout), acts, t)
    ensures t.calls == [Enqueued, Dropped, Dropped] && t.dropped == 1
  {
    var s := Started(1, timeout);
    acts, t := TwoRefused(timeout);
    acts, t := Take(s, acts, t, Export(1, LoadDrops));
    acts, t := Take(s, acts, t, Export(2, LoadDrops));
    assert t.calls == [Enqueued, Counting(0), Counting(0)];
    acts, t := Take(s, acts, t, Export(1, StoreDrops));
    acts, t := Take(s, acts, t, Export(2, StoreDrops));
  }

  lemma {:induction false} TwoRefused(timeout: int) returns (acts: seq<Action>, t: State)
    ensures Reaches(Step, Started(1, timeout), acts, t)
    ensures t.calls == [Enqueued, Full, Full] && t.dropped == 0
  {
    var s := Started(1, timeout);
    acts, t := [], s;
    Start(Step, s);
    acts, t := Take(s, acts, t, Invoke);
    acts, t := Take(s, acts, t, Invoke);
    acts, t := Take(s, acts, t, Invoke);
    assert t.calls == [Called, Called, Called];
    acts, t := Take(s, acts, t, Export(0, CheckRunning));
    acts, t := Take(s, acts, t, Export(1, CheckRunning));
    acts, t := Take(s, acts, t, Export(2, CheckRunning));
    assert t.calls == [Passed, Passed, Passed];
    acts, t := Take(s, acts, t, Export(0, PutNowait));
    acts, t := Take(s, acts, t, Export(1, PutNowait));
    acts, t := Take(s, acts, t, Export(2, PutNowait));
  }
}
