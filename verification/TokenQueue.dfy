/** The token queue of a SharedDict is a SharedQueue of size one: every run of the SharedDict model is
    matched by a run of the SharedQueue model, in which the puts of the clients are patient remote
    calls and the gets of the finally blocks are local ones. */
module TokenQueue {
  import opened Basics
  import opened Runs
  import D = SharedDict
  import Q = SharedQueue

  const TOKEN: Q.Obj := 1

  /** What call `c` of the queue looks like while its write is in phase `p`. */
  predicate CallFits(q: Q.State, c: nat, p: D.Phase) {
    (p.WantToken? || p.Putting? || p.TokenIn?) ==>
      && c < |q.calls| && q.calls[c].op == Q.Put(TOKEN) && q.calls[c].remote && q.calls[c].patient
      && (if p.WantToken? then q.calls[c].status.Waiting?
          else if p.Putting? then q.calls[c].status.Serving?
          else q.calls[c].status.Replying?)
  }

  /** The queue state `q` belongs to the dict state `s`; `at` names the put of every write. */
  ghost predicate Belongs(s: D.State, q: Q.State, at: seq<nat>) {
    && |at| == |s.writes| && q.maxsize == D.TOKEN_SLOTS && |q.queue| == s.tokens
    && D.QueueServerMatches(s)
    && q.server == (if s.queueServer.Some? then Some(at[s.queueServer.value]) else None)
    && (forall w :: 0 <= w < |at| ==> CallFits(q, at[w], s.writes[w].phase))
    && (forall v, w :: 0 <= v < w < |at| && Active(s, v) && Active(s, w) ==> at[v] != at[w])
  }

  predicate Active(s: D.State, w: nat)
    requires w < |s.writes|
  {
    var p := s.writes[w].phase;
    p.WantToken? || p.Putting? || p.TokenIn?
  }

  predicate UsesQueue(a: D.Action) {
    a.StartSet? || a.AcceptToken? || a.EnqueueToken? || a.AckToken? || a.TakeToken? || a.GetTakeToken? || a.LocalSet?
  }

  lemma {:induction false} OtherStep(s: D.State, a: D.Action, q: Q.State, at: seq<nat>)
    requires Belongs(s, q, at) && D.Enabled(s, a) && !UsesQueue(a)
    ensures Belongs(D.Next(s, a), q, at)
  {
    D.QueueServerAfter(s, a);
    var t := D.Next(s, a);
    forall w | 0 <= w < |at| ensures CallFits(q, at[w], t.writes[w].phase) && (Active(t, w) ==> Active(s, w)) {
      assert CallFits(q, at[w], s.writes[w].phase);
    }
  }

  lemma {:induction false} NewWrite(s: D.State, a: D.Action, q: Q.State, at: seq<nat>) returns (acts: seq<Q.Action>, q': Q.State, at': seq<nat>)
    requires Belongs(s, q, at) && (a.StartSet? || a.LocalSet?)
    ensures Reaches(Q.Step, q, acts, q') && Belongs(D.Next(s, a), q', at')
  {
    Start(Q.Step, q);
    D.QueueServerAfter(s, a);
    if a.LocalSet? {
      acts, q', at' := [], q, at + [0];
    } else {
      var b := Q.Invoke(Q.Put(TOKEN), true, true);
      acts, q', at' := [] + [b], Q.Next(q, b), at + [|q.calls|];
      Extend(Q.Step, q, [], q, b, q');
    }
    var t := D.Next(s, a);
    forall w | 0 <= w < |at'| ensures CallFits(q', at'[w], t.writes[w].phase) {
      assert w < |at| ==> CallFits(q, at[w], s.writes[w].phase);
    }
    forall v, w | 0 <= v < w < |at'| && Active(t, v) && Active(t, w) ensures at'[v] != at'[w] {
      assert CallFits(q, at[v], s.writes[v].phase);
    }
  }

  /** The queue action that matches a step of the put of a write. */
  function PutAction(s: D.State, a: D.Action, at: seq<nat>): Q.Action
    requires a.AcceptToken? ==> a.w < |at|
  {
    if a.AcceptToken? then Q.Accept(at[a.w]) else if a.EnqueueToken? then Q.Execute else Q.Reply
  }

  lemma {:induction false} PutStep(s: D.State, a: D.Action, q: Q.State, at: seq<nat>) returns (acts: seq<Q.Action>, q': Q.State)
    requires Belongs(s, q, at) && D.Enabled(s, a) && (a.AcceptToken? || a.EnqueueToken? || a.AckToken?)
    ensures Reaches(Q.Step, q, acts, q') && Belongs(D.Next(s, a), q', at)
  {
    var w, t := D.Mover(s, a), D.Next(s, a);
    D.QueueServerAfter(s, a);
    assert CallFits(q, at[w], s.writes[w].phase);
    var b := PutAction(s, a, at);
    acts, q' := [] + [b], Q.Next(q, b);
    Start(Q.Step, q);
    Extend(Q.Step, q, [], q, b, q');
    forall v | 0 <= v < |at| ensures CallFits(q', at[v], t.writes[v].phase) && (Active(t, v) ==> Active(s, v)) {
      assert CallFits(q, at[v], s.writes[v].phase);
      assert v < w ==> (Active(s, v) ==> at[v] != at[w]);
      assert w < v ==> (Active(s, v) ==> at[w] != at[v]);
    }
  }

  lemma {:induction false} GetStep(s: D.State, a: D.Action, q: Q.State, at: seq<nat>) returns (acts: seq<Q.Action>, q': Q.State)
    requires Belongs(s, q, at) && D.Enabled(s, a) && (a.TakeToken? || a.GetTakeToken?)
    ensures Reaches(Q.Step, q, acts, q') && Belongs(D.Next(s, a), q', at)
  {
    var t := D.Next(s, a);
    D.QueueServerAfter(s, a);
    var b1, b2 := Q.Invoke(Q.Get, false, true), Q.Direct(|q.calls|);
    var q1 := Q.Next(q, b1);
    acts, q' := [] + [b1] + [b2], Q.Next(q1, b2);
    Start(Q.Step, q);
    Extend(Q.Step, q, [], q, b1, q1);
    Extend(Q.Step, q, [] + [b1], q1, b2, q');
    forall v | 0 <= v < |at| ensures CallFits(q', at[v], t.writes[v].phase) && (Active(t, v) ==> Active(s, v)) {
      assert CallFits(q, at[v], s.writes[v].phase);
    }
  }

  /** One step of the dict is matched by at most two of the queue. */
  lemma {:induction false} Simulates(s: D.State, a: D.Action, q: Q.State, at: seq<nat>) returns (acts: seq<Q.Action>, q': Q.State, at': seq<nat>)
    requires Belongs(s, q, at) && D.Enabled(s, a)
    ensures Reaches(Q.Step, q, acts, q') && Belongs(D.Next(s, a), q', at')
  {
    hide Belongs;
    if a.StartSet? || a.LocalSet? {
      acts, q', at' := NewWrite(s, a, q, at);
    } else if a.AcceptToken? || a.EnqueueToken? || a.AckToken? {
      acts, q' := PutStep(s, a, q, at);
      at' := at;
    } else if a.TakeToken? || a.GetTakeToken? {
      acts, q' := GetStep(s, a, q, at);
      at' := at;
    } else {
      Start(Q.Step, q);
      OtherStep(s, a, q, at);
      acts, q', at' := [], q, at;
    }
  }

  const EMPTY := Q.State(D.TOKEN_SLOTS, [], [], None, [], [])

  /** So every run of the dict, client-side gets included, is a run of such a queue, whose length is
      the number of tokens. */
  lemma {:induction false} TokensAreAQueue(tr: seq<D.State>, acts: seq<D.Action>, n: nat) returns (qacts: seq<Q.Action>, q: Q.State, at: seq<nat>)
    requires Run(D.Step, tr, acts) && tr[0] == D.START && n < |tr|
    ensures Reaches(Q.Step, EMPTY, qacts, q) && Belongs(tr[n], q, at) && |q.queue| == tr[n].tokens
  {
    if n == 0 {
      Start(Q.Step, EMPTY);
      qacts, q, at := [], EMPTY, [];
    } else {
      qacts, q, at := TokensAreAQueue(tr, acts, n - 1);
      assert D.Step(tr[n - 1], acts[n - 1], tr[n]);
      var more, q', at' := Simulates(tr[n - 1], acts[n - 1], q, at);
      Chain(Q.Step, EMPTY, qacts, q, more, q');
      qacts, q, at := qacts + more, q', at';
    }
  }

  /** In particular its bound holds in every run: there is never more than one token. */
  lemma {:induction false} AtMostOneToken(tr: seq<D.State>, acts: seq<D.Action>, n: nat)
    requires Run(D.Step, tr, acts) && tr[0] == D.START && n < |tr|
    ensures tr[n].tokens <= 1
  {
    var qacts, q, at := TokensAreAQueue(tr, acts, n);
    var qtr :| Run(Q.Step, qtr, qacts) && qtr[0] == EMPTY && qtr[|qacts|] == q;
    Q.FifoWithinBound(qtr, qacts, |qacts|);
  }
}
