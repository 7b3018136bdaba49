/** SharedDict of multi_process.py: a dict that client processes overwrite through a
    local socket while the process that created it reads it. A one-slot SharedQueue
    carries a token from before a write is sent until after it is applied, and a
    server-side `get` waits for the token queue to be empty.

    The model is a step relation over any number of `set` calls and server-side `get`
    calls, the single queue-server thread and the single dict-server thread; the creating
    process may also overwrite its own dict (LocalSet). A client that dies simply takes no
    further step. */
module SharedDict {
  import opened Basics
  import opened Counting
  import opened Runs

  type Dict = map<string, string>

  const TOKEN_SLOTS := 1

  /** Where one client-side `set` call is. */
  datatype Phase =
    | WantToken      // put(1) requested, its connection not yet accepted
    | Putting        // the queue server is inside queue.put for it
    | TokenIn        // token enqueued, reply not yet sent
    | TokenAcked     // put(1) has returned in the client
    | WantSet        // the set request is sent, its connection not yet accepted
    | Setting        // the dict server has the request
    | Applied        // _dict assigned, the finally block not yet entered
    | Taking         // the finally block saw a non-empty queue
    | Consumed       // the finally block is over
    | Done           // the reply has arrived

  datatype Write = Write(dict: Dict, phase: Phase)

  /** A server-side `get`. `acked` is history: the writes whose put had returned when it began. */
  datatype Reader =
    | Polling(acked: set<nat>)
    | SawEmpty(acked: set<nat>)
    | Returned(acked: set<nat>, result: Dict, version: nat)

  /** What the only dict-server thread is doing; the last four are a client-side `get`. */
  datatype DictServer = Idle | Serving(w: nat) | GetSpin | GetFinally | GetTaking | GetReply

  /** `applied` is history: the writes in the order the server assigned them. */
  datatype State = State(
    writes: seq<Write>,
    tokens: nat,
    queueServer: Option<nat>,
    dictServer: DictServer,
    dict: Dict,
    applied: seq<nat>,
    readers: seq<Reader>)

  datatype Action =
    | StartSet(d: Dict)
    | AcceptToken(w: nat)
    | EnqueueToken
    | AckToken
    | SendSet(w: nat)
    | AcceptSet(w: nat)
    | ApplySet
    | CheckQueue
    | TakeToken
    | AckSet
    | LocalSet(d: Dict)
    | StartGet
    | Poll(r: nat)
    | Read(r: nat)
    | ClientGet
    | SpinPass
    | GetCheckQueue
    | GetTakeToken
    | GetAck

  /** Steps that move a `set` forward. */
  predicate IsWork(a: Action) {
    a.AcceptToken? || a.EnqueueToken? || a.AckToken? || a.SendSet? || a.AcceptSet? ||
    a.ApplySet? || a.CheckQueue? || a.TakeToken? || a.AckSet?
  }

  const START := State([], 0, None, Idle, map[], [], [])

  predicate InPhase(s: State, w: nat, p: Phase) {
    w < |s.writes| && s.writes[w].phase == p
  }

  predicate QueueAt(s: State, p: Phase) {
    s.queueServer.Some? && InPhase(s, s.queueServer.value, p)
  }

  predicate DictAt(s: State, p: Phase) {
    s.dictServer.Serving? && InPhase(s, s.dictServer.w, p)
  }

  predicate Enabled(s: State, a: Action) {
    match a
    case StartSet(_) => true
    case AcceptToken(w) => s.queueServer.None? && InPhase(s, w, WantToken)
    case EnqueueToken => QueueAt(s, Putting) && s.tokens < TOKEN_SLOTS
    case AckToken => QueueAt(s, TokenIn)
    case SendSet(w) => InPhase(s, w, TokenAcked)
    case AcceptSet(w) => s.dictServer.Idle? && InPhase(s, w, WantSet)
    case ApplySet => DictAt(s, Setting)
    case CheckQueue => DictAt(s, Applied)
    case TakeToken => DictAt(s, Taking) && s.tokens > 0
    case AckSet => DictAt(s, Consumed)
    case LocalSet(_) => true
    case StartGet => true
    case Poll(r) => r < |s.readers| && s.readers[r].Polling?
    case Read(r) => r < |s.readers| && s.readers[r].SawEmpty?
    case ClientGet => s.dictServer.Idle?
    case SpinPass => s.dictServer.GetSpin? && s.tokens == 0
    case GetCheckQueue => s.dictServer.GetFinally?
    case GetTakeToken => s.dictServer.GetTaking? && s.tokens > 0
    case GetAck => s.dictServer.GetReply?
  }

  function Move(s: State, w: nat, p: Phase): State
    requires w < |s.writes|
  {
    s.(writes := s.writes[w := s.writes[w].(phase := p)])
  }

  /** The write that a step of a set moves, and the phase it moves to. */
  function Mover(s: State, a: Action): (w: nat)
    requires Enabled(s, a) && IsWork(a)
    ensures w < |s.writes|
  {
    if a.AcceptToken? || a.SendSet? || a.AcceptSet? then a.w
    else if a.EnqueueToken? || a.AckToken? then s.queueServer.value
    else s.dictServer.w
  }

  function NewPhase(s: State, a: Action): Phase
    requires IsWork(a)
  {
    match a
    case AcceptToken(w) => Putting
    case EnqueueToken => TokenIn
    case AckToken => TokenAcked
    case SendSet(w) => WantSet
    case AcceptSet(w) => Setting
    case ApplySet => Applied
    case CheckQueue => if s.tokens > 0 then Taking else Consumed
    case TakeToken => Consumed
    case AckSet => Done
  }

  function NextOfSet(s: State, a: Action): State
    requires Enabled(s, a) && IsWork(a)
  {
    var w := Mover(s, a);
    var t := Move(s, w, NewPhase(s, a));
    match a
    case AcceptToken(_) => t.(queueServer := Some(w))
    case EnqueueToken => t.(tokens := s.tokens + 1)
    case AckToken => t.(queueServer := None)
    case SendSet(_) => t
    case AcceptSet(_) => t.(dictServer := Serving(w))
    case ApplySet => t.(dict := s.writes[w].dict, applied := s.applied + [w])
    case CheckQueue => t
    case TakeToken => t.(tokens := s.tokens - 1)
    case AckSet => t.(dictServer := Idle)
  }

  function Next(s: State, a: Action): State
    requires Enabled(s, a)
  {
    if IsWork(a) then NextOfSet(s, a) else
    match a
    case StartSet(d) => s.(writes := s.writes + [Write(d, WantToken)])
    case LocalSet(d) =>
      s.(writes := s.writes + [Write(d, Done)], dict := d, applied := s.applied + [|s.writes|])
    case StartGet => s.(readers := s.readers + [Polling(AckedWrites(s))])
    case Poll(r) =>
      if s.tokens > 0 then s
      else s.(readers := s.readers[r := SawEmpty(s.readers[r].acked)])
    case Read(r) =>
      s.(readers := s.readers[r := Returned(s.readers[r].acked, s.dict, |s.applied|)])
    case ClientGet => s.(dictServer := GetSpin)
    case SpinPass => s.(dictServer := GetFinally)
    case GetCheckQueue => s.(dictServer := if s.tokens > 0 then GetTaking else GetReply)
    case GetTakeToken => s.(dictServer := GetReply, tokens := s.tokens - 1)
    case GetAck => s.(dictServer := Idle)
  }

  predicate PutReturned(p: Phase) {
    !p.WantToken? && !p.Putting? && !p.TokenIn?
  }

  predicate IsApplied(p: Phase) {
    p.Applied? || p.Taking? || p.Consumed? || p.Done?
  }

  function AckedWrites(s: State): set<nat> {
    set w: nat | w < |s.writes| && PutReturned(s.writes[w].phase)
  }

  ghost predicate Step(s: State, a: Action, t: State) {
    Enabled(s, a) && t == Next(s, a)
  }

  /** Steps of the writers, the server-side readers and the two server threads, without
      client-side gets. */
  ghost predicate WriterReaderStep(s: State, a: Action, t: State) {
    Step(s, a, t) && !a.ClientGet?
  }

  /** Steps in which no client-side get takes a token in its finally block. */
  ghost predicate NoStealStep(s: State, a: Action, t: State) {
    Step(s, a, t) && !a.GetTakeToken?
  }

  // ---------- The invariant of runs in which no get takes a token ----------

  /** 1 while a token put for this write is in the queue and not yet taken for it. */
  function Owed(w: Write): nat {
    var p := w.phase;
    if p.TokenIn? || p.TokenAcked? || p.WantSet? || p.Setting? || p.Applied? || p.Taking? then 1 else 0
  }

  /** The dict after the first `v` applied writes. */
  function Version(s: State, v: nat): Dict
    requires v <= |s.applied|
    requires forall i :: 0 <= i < |s.applied| ==> s.applied[i] < |s.writes|
  {
    if v == 0 then map[] else s.writes[s.applied[v - 1]].dict
  }

  predicate AtQueueServer(p: Phase) {
    p.Putting? || p.TokenIn?
  }

  predicate AtDictServer(p: Phase) {
    p.Setting? || p.Applied? || p.Taking? || p.Consumed?
  }

  ghost predicate QueueServerMatches(s: State) {
    && (forall w :: 0 <= w < |s.writes| ==> (AtQueueServer(s.writes[w].phase) <==> s.queueServer == Some(w)))
    && (s.queueServer.Some? ==> s.queueServer.value < |s.writes|)
  }

  ghost predicate DictServerMatches(s: State) {
    && (forall w :: 0 <= w < |s.writes| ==> (AtDictServer(s.writes[w].phase) <==> s.dictServer == Serving(w)))
    && (s.dictServer.Serving? ==> s.dictServer.w < |s.writes|)
  }

  /** The dict server is not in a client-side get. */
  predicate NotInGet(s: State) {
    s.dictServer.Idle? || s.dictServer.Serving?
  }

  ghost predicate ServersMatchPhases(s: State) {
    QueueServerMatches(s) && DictServerMatches(s)
  }

  ghost predicate AppliedMatchesPhases(s: State) {
    && (forall i :: 0 <= i < |s.applied| ==> s.applied[i] < |s.writes|)
    && (forall w :: 0 <= w < |s.writes| ==> (w in s.applied <==> IsApplied(s.writes[w].phase)))
    && s.dict == Version(s, |s.applied|)
  }

  ghost predicate ReaderOk(s: State, r: Reader)
    requires AppliedMatchesPhases(s)
  {
    && (forall w :: w in r.acked ==> w < |s.writes| && PutReturned(s.writes[w].phase))
    && (r.SawEmpty? ==> forall w :: w in r.acked ==> w in s.applied)
    && (r.Returned? ==>
          && r.version <= |s.applied|
          && (forall w :: w in r.acked ==> w in s.applied[..r.version])
          && r.result == Version(s, r.version))
  }

  ghost predicate TokensMatchPhases(s: State) {
    s.tokens == Sum(s.writes, Owed) <= TOKEN_SLOTS
  }

  ghost predicate Inv(s: State) {
    && TokensMatchPhases(s)
    && ServersMatchPhases(s)
    && AppliedMatchesPhases(s)
    && forall r :: 0 <= r < |s.readers| ==> ReaderOk(s, s.readers[r])
  }

  /** A write that is owed a token finds one, so its handler takes exactly its own. */
  lemma {:induction false} OwedHasToken(s: State, w: nat)
    requires TokensMatchPhases(s) && w < |s.writes| && Owed(s.writes[w]) == 1
    ensures s.tokens == 1
    ensures forall v :: 0 <= v < |s.writes| && v != w ==> Owed(s.writes[v]) == 0
  {
    SumBounds(s.writes, w, w, Owed);
    forall v | 0 <= v < |s.writes| && v != w ensures Owed(s.writes[v]) == 0 {
      SumBounds(s.writes, w, v, Owed);
    }
  }

  /** A step of a set changes the token count exactly as it changes what its write is owed. */
  lemma {:induction false} TokensFollowWrite(s: State, a: Action)
    requires Enabled(s, a) && IsWork(a) && (a.CheckQueue? ==> s.tokens > 0)
    ensures Next(s, a).tokens + Owed(s.writes[Mover(s, a)])
            == s.tokens + Owed(Write(s.writes[Mover(s, a)].dict, NewPhase(s, a)))
  {
  }

  lemma {:induction false} TokensAfter(s: State, a: Action)
    requires TokensMatchPhases(s) && Enabled(s, a) && !a.GetTakeToken?
    ensures TokensMatchPhases(Next(s, a))
  {
    if IsWork(a) {
      TokensAfterWork(s, a);
    } else if a.StartSet? {
      SumAppend(s.writes, Write(a.d, WantToken), Owed);
    } else if a.LocalSet? {
      SumAppend(s.writes, Write(a.d, Done), Owed);
    }
  }

  lemma {:induction false} TokensAfterWork(s: State, a: Action)
    requires TokensMatchPhases(s) && Enabled(s, a) && IsWork(a)
    ensures TokensMatchPhases(Next(s, a))
  {
    var w := Mover(s, a);
    if a.CheckQueue? {
      OwedHasToken(s, w);
    }
    TokensFollowWrite(s, a);
    SumUpdate(s.writes, w, Write(s.writes[w].dict, NewPhase(s, a)), Owed);
  }

  /** What a step preserves of the past: acknowledged stays acknowledged, applied stays applied. */
  ghost predicate Extends(s: State, t: State) {
    && |s.writes| <= |t.writes|
    && s.applied <= t.applied
    && forall w :: 0 <= w < |s.writes| ==>
         && t.writes[w].dict == s.writes[w].dict
         && (PutReturned(s.writes[w].phase) ==> PutReturned(t.writes[w].phase))
  }

  lemma {:induction false} HistoryKept(s: State, a: Action)
    requires Enabled(s, a)
    ensures Extends(s, Next(s, a))
  {
    if IsWork(a) {
      var w, p := Mover(s, a), NewPhase(s, a);
      assert Next(s, a).writes == s.writes[w := Write(s.writes[w].dict, p)];
    }
  }

  lemma {:induction false} AppliedAfterWork(s: State, a: Action)
    requires AppliedMatchesPhases(s) && Enabled(s, a) && IsWork(a)
    ensures AppliedMatchesPhases(Next(s, a))
  {
    var t, w, p := Next(s, a), Mover(s, a), NewPhase(s, a);
    assert t.writes == s.writes[w := Write(s.writes[w].dict, p)];
    if a.ApplySet? {
      assert t.applied == s.applied + [w];
    } else {
      assert t.applied == s.applied && (IsApplied(p) <==> IsApplied(s.writes[w].phase));
      assert s.applied != [] ==> t.writes[s.applied[|s.applied| - 1]].dict == s.dict;
    }
  }

  lemma {:induction false} AppliedAfter(s: State, a: Action)
    requires AppliedMatchesPhases(s) && Enabled(s, a)
    ensures AppliedMatchesPhases(Next(s, a))
  {
    if IsWork(a) {
      AppliedAfterWork(s, a);
    } else if !a.LocalSet? && s.applied != [] {
      assert Next(s, a).writes[s.applied[|s.applied| - 1]].dict == s.dict;
    }
  }

  /** An empty queue means that every acknowledged write has been applied. */
  lemma {:induction false} EmptyMeansApplied(s: State, w: nat)
    requires Inv(s) && s.tokens == 0 && w < |s.writes| && PutReturned(s.writes[w].phase)
    ensures w in s.applied
  {
    SumBounds(s.writes, w, w, Owed);
  }

  lemma {:induction false} ReaderKept(s: State, t: State, q: Reader)
    requires AppliedMatchesPhases(s) && AppliedMatchesPhases(t) && Extends(s, t) && ReaderOk(s, q)
    ensures ReaderOk(t, q)
  {
    if q.Returned? {
      assert t.applied[..q.version] == s.applied[..q.version];
      if q.version > 0 {
        assert t.applied[q.version - 1] == s.applied[q.version - 1];
      }
    }
  }

  /** The two steps that a `get` takes itself. */
  lemma {:induction false} ReaderMoves(s: State, a: Action, r: nat)
    requires Inv(s) && Enabled(s, a) && (a == Poll(r) || a == Read(r))
    ensures AppliedMatchesPhases(Next(s, a)) && ReaderOk(Next(s, a), Next(s, a).readers[r])
  {
    var q := s.readers[r];
    if a == Read(r) {
      assert s.applied[..|s.applied|] == s.applied;
    } else if s.tokens == 0 {
      forall w | w in q.acked ensures w in s.applied {
        EmptyMeansApplied(s, w);
      }
    }
  }

  lemma {:induction false} ReaderAfter(s: State, a: Action, r: nat)
    requires Inv(s) && Enabled(s, a) && !a.GetTakeToken?
    requires r < |Next(s, a).readers| && AppliedMatchesPhases(Next(s, a))
    ensures ReaderOk(Next(s, a), Next(s, a).readers[r])
  {
    if a == Poll(r) || a == Read(r) {
      ReaderMoves(s, a, r);
    } else if r < |s.readers| {
      HistoryKept(s, a);
      ReaderKept(s, Next(s, a), s.readers[r]);
    }
  }

  lemma {:induction false} QueueServerAfter(s: State, a: Action)
    requires QueueServerMatches(s) && Enabled(s, a)
    ensures QueueServerMatches(Next(s, a))
  {
    if IsWork(a) {
      var w, p := Mover(s, a), NewPhase(s, a);
      assert Next(s, a).writes == s.writes[w := Write(s.writes[w].dict, p)];
    }
  }

  lemma {:induction false} DictServerAfter(s: State, a: Action)
    requires DictServerMatches(s) && Enabled(s, a)
    ensures DictServerMatches(Next(s, a))
  {
    if IsWork(a) {
      var w, p := Mover(s, a), NewPhase(s, a);
      assert Next(s, a).writes == s.writes[w := Write(s.writes[w].dict, p)];
    }
  }

  lemma {:induction false} InvStep(s: State, a: Action)
    requires Inv(s) && Enabled(s, a) && !a.GetTakeToken?
    ensures Inv(Next(s, a))
  {
    TokensAfter(s, a);
    QueueServerAfter(s, a);
    DictServerAfter(s, a);
    AppliedAfter(s, a);
    forall r | 0 <= r < |Next(s, a).readers| ensures ReaderOk(Next(s, a), Next(s, a).readers[r]) {
      ReaderAfter(s, a, r);
    }
  }

  lemma {:induction false} InvRun(tr: seq<State>, acts: seq<Action>, n: nat)
    requires Run(NoStealStep, tr, acts) && tr[0] == START && n < |tr|
    ensures Inv(tr[n])
  {
    forall s, a, t | Inv(s) && NoStealStep(s, a, t) ensures Inv(t) {
      InvStep(s, a);
    }
    Invariant(NoStealStep, Inv, tr, acts, n);
  }

  /** Without client-side gets the dict server is never in one, so no token is taken by one. */
  lemma {:induction false} NoGetsNoSteal(tr: seq<State>, acts: seq<Action>, n: nat)
    requires Run(WriterReaderStep, tr, acts) && NotInGet(tr[0]) && n < |tr|
    ensures NotInGet(tr[n]) && (n < |acts| ==> NoStealStep(tr[n], acts[n], tr[n + 1]))
  {
    Invariant(WriterReaderStep, NotInGet, tr, acts, n);
    assert n < |acts| ==> WriterReaderStep(tr[n], acts[n], tr[n + 1]);
  }

  // ---------- Freshness ----------

  /** The token count is the number of writes between token-in and token-taken, never above
      one, and the finally block of a `set` always finds its own token: it never blocks. */
  lemma {:induction false} TokenAccounting(tr: seq<State>, acts: seq<Action>, n: nat)
    requires Run(NoStealStep, tr, acts) && tr[0] == START && n < |tr|
    ensures tr[n].tokens == Sum(tr[n].writes, Owed) <= 1
    ensures DictAt(tr[n], Applied) || DictAt(tr[n], Taking) ==> tr[n].tokens == 1
  {
    InvRun(tr, acts, n);
    if DictAt(tr[n], Applied) || DictAt(tr[n], Taking) {
      OwedHasToken(tr[n], tr[n].dictServer.w);
    }
  }

  lemma {:induction false} AckedIsFixed(tr: seq<State>, acts: seq<Action>, k: nat, m: nat, r: nat)
    requires Run(NoStealStep, tr, acts) && k < m < |tr|
    requires acts[k] == StartGet && r == |tr[k].readers|
    ensures r < |tr[m].readers| && tr[m].readers[r].acked == AckedWrites(tr[k])
  {
    assert NoStealStep(tr[m - 1], acts[m - 1], tr[m]);
    if m > k + 1 {
      AckedIsFixed(tr, acts, k, m - 1, r);
    }
  }

  /** The call `set(d)`, of a client or of the creating process itself. */
  predicate IsSetOf(a: Action, d: Dict) {
    a == StartSet(d) || a == LocalSet(d)
  }

  /** The write that a `set` makes carries the argument of the call, for good. */
  lemma {:induction false} WriteCarriesArgument(tr: seq<State>, acts: seq<Action>, c: nat, n: nat, d: Dict)
    requires Run(Step, tr, acts) && c < n < |tr| && IsSetOf(acts[c], d)
    ensures |tr[c].writes| < |tr[n].writes| && tr[n].writes[|tr[c].writes|].dict == d
  {
    assert Step(tr[n - 1], acts[n - 1], tr[n]);
    if n > c + 1 {
      WriteCarriesArgument(tr, acts, c, n - 1, d);
      HistoryKept(tr[n - 1], acts[n - 1]);
    }
  }

  /** And every write has been made by a `set` with that argument. */
  lemma {:induction false} WriteHasCall(tr: seq<State>, acts: seq<Action>, n: nat, w: nat) returns (c: nat)
    requires Run(Step, tr, acts) && tr[0] == START && n < |tr| && w < |tr[n].writes|
    ensures c < n && |tr[c].writes| == w && IsSetOf(acts[c], tr[n].writes[w].dict)
  {
    assert n > 0;
    assert Step(tr[n - 1], acts[n - 1], tr[n]);
    if w < |tr[n - 1].writes| {
      c := WriteHasCall(tr, acts, n - 1, w);
      HistoryKept(tr[n - 1], acts[n - 1]);
    } else {
      c := n - 1;
      NewWriteIsCall(tr[c], acts[c]);
    }
  }

  /** The put of write `w` returns at step `j`, or is skipped because the creating process sets the dict. */
  predicate PutReturnsAt(s: State, a: Action, w: nat) {
    (a == AckToken && s.queueServer == Some(w)) || (a.LocalSet? && |s.writes| == w)
  }

  ghost predicate PutReturnedBefore(tr: seq<State>, acts: seq<Action>, n: nat, w: nat) {
    exists j :: 0 <= j < n && j < |tr| && j < |acts| && PutReturnsAt(tr[j], acts[j], w)
  }

  /** PutReturned is what its name says, in every run. */
  lemma {:induction false} PutReturnedMeans(tr: seq<State>, acts: seq<Action>, n: nat, w: nat)
    requires Run(Step, tr, acts) && tr[0] == START && n < |tr|
    ensures w < |tr[n].writes| && PutReturned(tr[n].writes[w].phase) <==> PutReturnedBefore(tr, acts, n, w)
  {
    if n > 0 {
      PutReturnedMeans(tr, acts, n - 1, w);
      var s, a := tr[n - 1], acts[n - 1];
      assert Step(s, a, tr[n]);
      PutReturnedStep(s, a, w);
      hide Next, Enabled, PutReturned, PutReturnsAt;
      if PutReturnedBefore(tr, acts, n, w) && !PutReturnedBefore(tr, acts, n - 1, w) {
        assert PutReturnsAt(s, a, w);
      }
    }
  }

  lemma {:induction false} PutReturnedStep(s: State, a: Action, w: nat)
    requires Enabled(s, a)
    ensures var t := Next(s, a);
            w < |t.writes| && PutReturned(t.writes[w].phase) <==>
              (w < |s.writes| && PutReturned(s.writes[w].phase)) || PutReturnsAt(s, a, w)
  {
    if IsWork(a) {
      var v := Mover(s, a);
      assert Next(s, a).writes == s.writes[v := s.writes[v].(phase := NewPhase(s, a))];
    }
  }

  lemma {:induction false} NewWriteIsCall(s: State, a: Action)
    requires Enabled(s, a) && |s.writes| < |Next(s, a).writes|
    ensures |Next(s, a).writes| == |s.writes| + 1 && IsSetOf(a, Next(s, a).writes[|s.writes|].dict)
  {
  }

  /** The call at step `c` made write number `v`, with argument `d`. */
  ghost predicate MadeBy(tr: seq<State>, acts: seq<Action>, c: nat, v: nat, d: Dict) {
    c < |acts| && c < |tr| && |tr[c].writes| == v && IsSetOf(acts[c], d)
  }

  /** Freshness, in every run in which no client-side get takes a token. If the put of write `w` had
      returned when the server-side get `r` began (step `k`), then whatever `r` returns is the argument
      of a `set` call, namely of the one that made write `w` or one that was applied after `w`. */
  lemma {:induction false} FreshGet(tr: seq<State>, acts: seq<Action>, k: nat, m: nat, r: nat, w: nat)
    requires Run(NoStealStep, tr, acts) && tr[0] == START
    requires k < m < |tr| && acts[k] == StartGet && r == |tr[k].readers|
    requires w < |tr[k].writes| && PutReturned(tr[k].writes[w].phase)
    requires r < |tr[m].readers| && tr[m].readers[r].Returned?
    ensures exists i, j, c: nat ::
              && 0 <= i <= j < |tr[m].applied|
              && tr[m].applied[i] == w
              && MadeBy(tr, acts, c, tr[m].applied[j], tr[m].readers[r].result)
  {
    InvRun(tr, acts, m);
    AckedIsFixed(tr, acts, k, m, r);
    var q := tr[m].readers[r];
    assert w in q.acked;
    assert ReaderOk(tr[m], q);
    var i :| 0 <= i < q.version && tr[m].applied[..q.version][i] == w;
    var j := q.version - 1;
    assert tr[m].applied[i] == w && i <= j;
    assert q.result == tr[m].writes[tr[m].applied[j]].dict;
    NoStealIsStep(tr, acts);
    var c := WriteHasCall(tr, acts, m, tr[m].applied[j]);
    assert MadeBy(tr, acts, c, tr[m].applied[j], q.result);
  }

  lemma {:induction false} NoStealIsStep(tr: seq<State>, acts: seq<Action>)
    requires Run(NoStealStep, tr, acts)
    ensures Run(Step, tr, acts)
  {
    forall i | 0 <= i < |acts| ensures Step(tr[i], acts[i], tr[i + 1]) {
      assert NoStealStep(tr[i], acts[i], tr[i + 1]);
    }
  }

  // ---------- Progress ----------

  /** Steps a write still has to take, an upper bound. */
  function Left(w: Write): nat {
    match w.phase
    case WantToken => 9
    case Putting => 8
    case TokenIn => 7
    case TokenAcked => 6
    case WantSet => 5
    case Setting => 4
    case Applied => 3
    case Taking => 2
    case Consumed => 1
    case Done => 0
  }

  function Measure(s: State): nat {
    Sum(s.writes, Left)
  }

  /** Every step that moves a set forward lowers the measure; gets leave it alone. */
  lemma {:induction false} WorkDecreases(s: State, a: Action)
    requires Enabled(s, a) && !a.StartSet?
    ensures IsWork(a) ==> Measure(Next(s, a)) < Measure(s)
    ensures !IsWork(a) ==> Measure(Next(s, a)) == Measure(s)
  {
    if IsWork(a) {
      var w := Mover(s, a);
      WorkMovesOn(s, a);
      SumUpdate(s.writes, w, Write(s.writes[w].dict, NewPhase(s, a)), Left);
      hide Left, Enabled, NewPhase, Mover;
    } else if a.LocalSet? {
      SumAppend(s.writes, Write(a.d, Done), Left);
    }
  }

  lemma {:induction false} WorkMovesOn(s: State, a: Action)
    requires Enabled(s, a) && IsWork(a)
    ensures Next(s, a).writes == s.writes[Mover(s, a) := Write(s.writes[Mover(s, a)].dict, NewPhase(s, a))]
    ensures Left(Write(s.writes[Mover(s, a)].dict, NewPhase(s, a))) < Left(s.writes[Mover(s, a)])
  {
  }

  function WorkCount(acts: seq<Action>): nat {
    if acts == [] then 0
    else WorkCount(acts[..|acts| - 1]) + if IsWork(acts[|acts| - 1]) then 1 else 0
  }

  /** No schedule can do more set work than the measure allows, whatever the readers do. */
  lemma {:induction false} WorkIsBounded(tr: seq<State>, acts: seq<Action>)
    requires Run(Step, tr, acts) && forall i :: 0 <= i < |acts| ==> !acts[i].StartSet?
    ensures WorkCount(acts) + Measure(tr[|acts|]) <= Measure(tr[0])
  {
    var n := |acts| - 1;
    if n >= 0 {
      assert Step(tr[n], acts[n], tr[n + 1]);
      Prefix(Step, tr, acts, n);
      WorkIsBounded(tr[..n + 1], acts[..n]);
      WorkDecreases(tr[n], acts[n]);
    }
  }

  ghost predicate AllDone(s: State) {
    forall w :: 0 <= w < |s.writes| ==> s.writes[w].phase.Done?
  }

  /** A write whose token is in the queue can always be moved on, by itself or by the write
      that occupies the dict server. */
  lemma {:induction false} OwedCanMove(s: State, w: nat) returns (a: Action)
    requires Inv(s) && NotInGet(s) && w < |s.writes| && Owed(s.writes[w]) == 1
    ensures IsWork(a) && Enabled(s, a)
  {
    OwedHasToken(s, w);
    match s.writes[w].phase {
      case TokenIn => a := AckToken;
      case TokenAcked => a := SendSet(w);
      case WantSet => a := if s.dictServer.Idle? then AcceptSet(w) else AckSet;
      case Setting => a := ApplySet;
      case Applied => a := CheckQueue;
      case Taking => a := TakeToken;
    }
  }

  /** While a set is unfinished some step of a set is enabled, even when the queue server is
      parked inside a blocking put. */
  lemma {:induction false} WorkEnabled(s: State) returns (a: Action)
    requires Inv(s) && NotInGet(s) && !AllDone(s)
    ensures IsWork(a) && Enabled(s, a)
  {
    var w :| 0 <= w < |s.writes| && !s.writes[w].phase.Done?;
    if s.tokens > 0 {
      var v := SumWitness(s.writes, Owed);
      a := OwedCanMove(s, v);
    } else {
      SumBounds(s.writes, w, w, Owed);
      match s.writes[w].phase {
        case WantToken =>
          if s.queueServer.None? {
            a := AcceptToken(w);
          } else {
            SumBounds(s.writes, s.queueServer.value, s.queueServer.value, Owed);
            a := EnqueueToken;
          }
        case Putting => a := EnqueueToken;
        case Consumed => a := AckSet;
      }
    }
  }

  /** Progress: from every reachable state the outstanding sets can be run to completion. */
  lemma {:induction false} SetsComplete(s: State) returns (tr: seq<State>, acts: seq<Action>)
    requires Inv(s) && NotInGet(s)
    ensures Run(Step, tr, acts) && tr[0] == s && AllDone(tr[|acts|])
    ensures |acts| <= Measure(s) && forall i :: 0 <= i < |acts| ==> IsWork(acts[i])
    decreases Measure(s)
  {
    if AllDone(s) {
      return [s], [];
    }
    var a := WorkEnabled(s);
    WorkDecreases(s, a);
    InvStep(s, a);
    var tr', acts' := SetsComplete(Next(s, a));
    Cons(Step, s, a, tr', acts');
    tr, acts := [s] + tr', [a] + acts';
  }

  /** The put of this write has not got past the queue. */
  predicate BeforeToken(p: Phase) {
    p.WantToken? || p.Putting?
  }

  /** A client that dies between its put and its request leaves its token in the queue for good. */
  lemma {:induction false} DeadWriterKeepsToken(tr: seq<State>, acts: seq<Action>, n: nat, w: nat)
    requires Run(NoStealStep, tr, acts) && Inv(tr[0]) && n < |tr|
    requires InPhase(tr[0], w, TokenAcked) && forall i :: 0 <= i < |acts| ==> acts[i] != SendSet(w)
    ensures Inv(tr[n]) && InPhase(tr[n], w, TokenAcked) && tr[n].tokens == 1
  {
    hide ServersMatchPhases, AppliedMatchesPhases, ReaderOk, Enabled, Next;
    if n > 0 {
      DeadWriterKeepsToken(tr, acts, n - 1, w);
      assert NoStealStep(tr[n - 1], acts[n - 1], tr[n]);
      InvStep(tr[n - 1], acts[n - 1]);
      DeadWriterStep(tr[n - 1], acts[n - 1], w);
    }
    OwedHasToken(tr[n], w);
  }

  lemma {:induction false} DeadWriterStep(s: State, a: Action, w: nat)
    requires s.tokens == 1 && InPhase(s, w, TokenAcked) && Enabled(s, a) && a != SendSet(w)
    requires ServersMatchPhases(s)
    ensures InPhase(Next(s, a), w, TokenAcked)
    ensures |s.writes| <= |Next(s, a).writes| && |s.readers| <= |Next(s, a).readers|
    ensures forall v :: 0 <= v < |s.writes| && BeforeToken(s.writes[v].phase) ==> BeforeToken(Next(s, a).writes[v].phase)
    ensures forall r :: 0 <= r < |s.readers| && s.readers[r].Polling? ==> Next(s, a).readers[r].Polling?
  {
    if IsWork(a) {
      var v, p := Mover(s, a), NewPhase(s, a);
      assert Next(s, a).writes == s.writes[v := Write(s.writes[v].dict, p)];
    }
  }

  /** So nothing gets past it: a server-side get that is polling at any moment `k` of the run still
      polls at any later moment `n`, and a put that has not got past the queue never does. */
  lemma {:induction false} DeadWriterBlocksAll(tr: seq<State>, acts: seq<Action>, k: nat, n: nat, w: nat)
    requires Run(NoStealStep, tr, acts) && Inv(tr[0]) && k <= n < |tr|
    requires InPhase(tr[0], w, TokenAcked) && forall i :: 0 <= i < |acts| ==> acts[i] != SendSet(w)
    ensures |tr[k].readers| <= |tr[n].readers| && |tr[k].writes| <= |tr[n].writes|
    ensures forall r :: 0 <= r < |tr[k].readers| && tr[k].readers[r].Polling? ==> tr[n].readers[r].Polling?
    ensures forall v :: 0 <= v < |tr[k].writes| && BeforeToken(tr[k].writes[v].phase) ==> BeforeToken(tr[n].writes[v].phase)
  {
    hide ServersMatchPhases, AppliedMatchesPhases, ReaderOk, Enabled, Next, TokensMatchPhases, InPhase;
    if k < n {
      DeadWriterBlocksAll(tr, acts, k, n - 1, w);
      DeadWriterKeepsToken(tr, acts, n - 1, w);
      assert NoStealStep(tr[n - 1], acts[n - 1], tr[n]);
      DeadWriterStep(tr[n - 1], acts[n - 1], w);
    }
  }

  // ---------- A set and a get in full ----------

  /** Nothing is under way. */
  predicate Quiet(s: State) {
    s.tokens == 0 && s.queueServer.None? && s.dictServer.Idle?
  }

  /** The client side of a `set` up to its request. */
  lemma {:induction false} SetIsSent(s: State, d: Dict) returns (acts: seq<Action>, t: State)
    requires Quiet(s)
    ensures Reaches(Step, s, acts, t) && t == s.(writes := s.writes + [Write(d, WantSet)], tokens := 1)
  {
    var w := |s.writes|;
    Start(Step, s);
    acts, t := TakeFrom(s, [], s, StartSet(d));
    acts, t := TakeFrom(s, acts, t, AcceptToken(w));
    assert t.writes == s.writes + [Write(d, Putting)];
    acts, t := TakeFrom(s, acts, t, EnqueueToken);
    assert t.writes == s.writes + [Write(d, TokenIn)];
    acts, t := TakeFrom(s, acts, t, AckToken);
    assert t.writes == s.writes + [Write(d, TokenAcked)];
    acts, t := TakeFrom(s, acts, t, SendSet(w));
    assert t.writes == s.writes + [Write(d, WantSet)];
  }

  /** From every quiet state a client can complete a `set(d)`, and the dict is `d` then. */
  lemma {:induction false} SetCompletes(s: State, d: Dict) returns (acts: seq<Action>, t: State)
    requires Quiet(s)
    ensures Reaches(Step, s, acts, t)
    ensures t == s.(writes := s.writes + [Write(d, Done)], dict := d, applied := s.applied + [|s.writes|])
  {
    var w := |s.writes|;
    acts, t := SetIsSent(s, d);
    acts, t := TakeFrom(s, acts, t, AcceptSet(w));
    assert t.writes == s.writes + [Write(d, Setting)];
    acts, t := TakeFrom(s, acts, t, ApplySet);
    assert t.writes == s.writes + [Write(d, Applied)];
    acts, t := TakeFrom(s, acts, t, CheckQueue);
    assert t.writes == s.writes + [Write(d, Taking)];
    acts, t := TakeFrom(s, acts, t, TakeToken);
    assert t.writes == s.writes + [Write(d, Consumed)];
    acts, t := TakeFrom(s, acts, t, AckSet);
    assert t.writes == s.writes + [Write(d, Done)];
  }

  /** The creating process can always set the dict itself. */
  lemma {:induction false} LocalSetCompletes(s: State, d: Dict) returns (acts: seq<Action>, t: State)
    ensures Reaches(Step, s, acts, t) && t.dict == d && t.tokens == s.tokens && t.readers == s.readers
  {
    Start(Step, s);
    acts, t := TakeFrom(s, [], s, LocalSet(d));
  }

  /** A server-side get begun while no token is queued can complete, with the dict of that moment. */
  lemma {:induction false} GetCompletes(s: State) returns (acts: seq<Action>, t: State)
    requires s.tokens == 0
    ensures Reaches(Step, s, acts, t)
    ensures t == s.(readers := s.readers + [Returned(AckedWrites(s), s.dict, |s.applied|)])
  {
    var r := |s.readers|;
    Start(Step, s);
    acts, t := TakeFrom(s, [], s, StartGet);
    acts, t := TakeFrom(s, acts, t, Poll(r));
    assert t.readers == s.readers + [SawEmpty(AckedWrites(s))];
    acts, t := TakeFrom(s, acts, t, Read(r));
    assert t.readers == s.readers + [Returned(AckedWrites(s), s.dict, |s.applied|)];
  }

  /** The finally block of a `set` takes a token if there is one, and ends without one too. */
  lemma {:induction false} FinallyEnds(s: State) returns (acts: seq<Action>, t: State)
    requires DictAt(s, Applied)
    ensures Reaches(Step, s, acts, t) && |acts| == if s.tokens > 0 then 3 else 2
    ensures var w := s.dictServer.w;
            t == s.(tokens := if s.tokens > 0 then s.tokens - 1 else 0, dictServer := Idle,
                    writes := s.writes[w := Write(s.writes[w].dict, Done)])
  {
    var w := s.dictServer.w;
    Start(Step, s);
    acts, t := TakeFrom(s, [], s, CheckQueue);
    if s.tokens > 0 {
      acts, t := TakeFrom(s, acts, t, TakeToken);
    }
    acts, t := TakeFrom(s, acts, t, AckSet);
    assert t.writes == s.writes[w := Write(s.writes[w].dict, Done)];
  }

  /** A client-side get that meets no token changes nothing and frees the dict server. */
  lemma {:induction false} ClientGetReturns(s: State) returns (acts: seq<Action>)
    requires s.dictServer.Idle? && s.tokens == 0
    ensures Reaches(Step, s, acts, s) && |acts| == 4 && acts[0] == ClientGet
  {
    var t;
    Start(Step, s);
    acts, t := TakeFrom(s, [], s, ClientGet);
    acts, t := TakeFrom(s, acts, t, SpinPass);
    acts, t := TakeFrom(s, acts, t, GetCheckQueue);
    acts, t := TakeFrom(s, acts, t, GetAck);
    assert t == s;
  }

  // ---------- What a client-side get breaks ----------

  /** A client-side get that spins in the dict-server thread while a token is in the queue. */
  ghost predicate Jammed(s: State) {
    s.dictServer.GetSpin? && s.tokens > 0
  }

  /** Once jammed, always jammed: no client-side set, pending or begun later, ever completes, and no
      server-side get that is polling or begun later ever returns. */
  lemma {:induction false} JammedForever(tr: seq<State>, acts: seq<Action>, n: nat)
    requires Run(Step, tr, acts) && Jammed(tr[0]) && n < |tr|
    ensures Jammed(tr[n])
    ensures |tr[0].writes| <= |tr[n].writes|
    ensures forall w :: 0 <= w < |tr[0].writes| ==> (tr[n].writes[w].phase.Done? <==> tr[0].writes[w].phase.Done?)
    ensures forall m :: 0 <= m < n && acts[m].StartSet? ==>
              |tr[m].writes| < |tr[n].writes| && !tr[n].writes[|tr[m].writes|].phase.Done?
    ensures |tr[0].readers| <= |tr[n].readers|
    ensures forall r :: 0 <= r < |tr[n].readers| && (r < |tr[0].readers| ==> tr[0].readers[r].Polling?) ==>
              tr[n].readers[r].Polling?
  {
    if n > 0 {
      JammedForever(tr, acts, n - 1);
      assert Step(tr[n - 1], acts[n - 1], tr[n]);
    }
  }

  /** One client-side get is enough to jam a write whose put has returned. */
  lemma {:induction false} ClientGetCanJam(d: Dict) returns (acts: seq<Action>, t: State)
    ensures Reaches(Step, START, acts, t) && Jammed(t) && t.writes == [Write(d, TokenAcked)]
  {
    acts, t := [], START;
    Start(Step, t);
    acts, t := Take(acts, t, StartSet(d));
    acts, t := Take(acts, t, AcceptToken(0));
    acts, t := Take(acts, t, EnqueueToken);
    acts, t := Take(acts, t, AckToken);
    acts, t := Take(acts, t, ClientGet);
  }

  lemma {:induction false} Take(acts: seq<Action>, t: State, a: Action) returns (acts': seq<Action>, t': State)
    requires Reaches(Step, START, acts, t) && Enabled(t, a)
    ensures Reaches(Step, START, acts', t') && t' == Next(t, a) && acts' == acts + [a]
  {
    acts', t' := TakeFrom(START, acts, t, a);
  }

  lemma {:induction false} TakeFrom(s: State, acts: seq<Action>, t: State, a: Action) returns (acts': seq<Action>, t': State)
    requires Reaches(Step, s, acts, t) && Enabled(t, a)
    ensures Reaches(Step, s, acts', t') && t' == Next(t, a) && acts' == acts + [a]
  {
    acts', t' := acts + [a], Next(t, a);
    Extend(Step, s, acts, t, a, t');
  }

  /** After the theft the queue is empty although the put of `w` has returned or can return. */
  lemma {:induction false} AfterTheft(s: State) returns (w: nat, acts: seq<Action>, t: State)
    requires Inv(s) && Enabled(s, GetTakeToken)
    ensures Reaches(Step, s, acts, t) && GetTakeToken in acts
    ensures t.tokens == 0 && t.applied == s.applied && t.dict == s.dict && t.readers == s.readers
    ensures w < |t.writes| && PutReturned(t.writes[w].phase) && w !in s.applied
  {
    w := SumWitness(s.writes, Owed);
    OwedHasToken(s, w);
    Start(Step, s);
    acts, t := TakeFrom(s, [], s, GetTakeToken);
    if s.writes[w].phase.TokenIn? {
      acts, t := TakeFrom(s, acts, t, AckToken);
    }
  }

  /** The condition is exact: from every state in which a client-side get is about to take a token,
      it can, and then a server-side get begun after the put of write `w` returned hands back a dict
      of before `w`. */
  lemma {:induction false} StolenTokenMakesGetStale(s: State) returns (w: nat, acts: seq<Action>, t: State, u: State)
    requires Inv(s) && Enabled(s, GetTakeToken)
    ensures Reaches(Step, s, acts, t) && GetTakeToken in acts && t.readers == s.readers
    ensures w < |t.writes| && PutReturned(t.writes[w].phase)
    ensures Reaches(Step, s, acts + [StartGet] + [Poll(|s.readers|)] + [Read(|s.readers|)], u)
    ensures u.readers == s.readers + [Returned(AckedWrites(t), s.dict, |s.applied|)]
    ensures w in AckedWrites(t) && w !in u.applied && u.applied == s.applied
  {
    w, acts, t := AfterTheft(s);
    var r, more := |s.readers|, acts;
    more, u := TakeFrom(s, more, t, StartGet);
    assert u.readers == s.readers + [Polling(AckedWrites(t))];
    more, u := TakeFrom(s, more, u, Poll(r));
    assert u.readers == s.readers + [SawEmpty(AckedWrites(t))];
    more, u := TakeFrom(s, more, u, Read(r));
  }

  /** The finally block of a client-side get can take the token of a write not yet applied. */
  lemma {:induction false} ClientGetCanStealToken(d: Dict) returns (acts: seq<Action>, t: State)
    ensures Reaches(Step, START, acts, t)
    ensures t == START.(writes := [Write(d, TokenAcked)], dictServer := GetReply)
  {
    acts, t := [], START;
    Start(Step, t);
    acts, t := Take(acts, t, ClientGet);
    acts, t := Take(acts, t, SpinPass);
    acts, t := Take(acts, t, StartSet(d));
    assert t.writes == [Write(d, WantToken)];
    acts, t := Take(acts, t, AcceptToken(0));
    assert t.writes == [Write(d, Putting)];
    acts, t := Take(acts, t, EnqueueToken);
    assert t.writes == [Write(d, TokenIn)];
    acts, t := Take(acts, t, AckToken);
    assert t == START.(writes := [Write(d, TokenAcked)], dictServer := GetFinally, tokens := 1);
    acts, t := Take(acts, t, GetCheckQueue);
    acts, t := Take(acts, t, GetTakeToken);
  }

  /** So one client-side get is enough to lose freshness: a server-side get begun after the put
      of write 0 returned (in `t`) hands back the older dict (in `u`). */
  lemma {:induction false} ClientGetCanMakeGetStale(d: Dict) returns (acts: seq<Action>, t: State, u: State)
    ensures Reaches(Step, START, acts, t) && t.writes == [Write(d, TokenAcked)] && t.readers == []
    ensures Reaches(Step, START, acts + [StartGet] + [Poll(0)] + [Read(0)], u)
    ensures u.readers == [Returned({0}, map[], 0)] && u.applied == []
  {
    acts, t := ClientGetCanStealToken(d);
    assert AckedWrites(t) == {0};
    var more;
    more, u := Take(acts, t, StartGet);
    more, u := Take(more, u, Poll(0));
    more, u := Take(more, u, Read(0));
  }
}
