/** SharedLock of multi_process.py: a lock of the creating process that client processes
    acquire and release over persistent local-socket connections. Every connection has its own
    handler thread, which remembers in `lock_acquired` whether it took the lock for its client
    and gives the lock back when the connection breaks.

    The model is a step relation over any number of connections and the creating process.
    Each line of the handler that reads or writes the lock, the flag or the socket is a step. */
module SharedLock {
  import opened Basics
  import opened Counting
  import opened Runs

  datatype Request = Acquire(blocking: bool) | Release

  /** The client process behind a connection. */
  datatype Client = Free | AwaitAcquire | Holding | AwaitRelease | Gone

  /** Where the handler thread of a connection is. */
  datatype Handler =
    | Receiving
    | Acquiring(blocking: bool)   // inside _lock.acquire
    | Granted(ok: bool)           // acquire returned, lock_acquired not yet assigned
    | Replying(ok: bool)
    | RelCheck                    // release(): about to test locked()
    | RelDo                       // release(): locked() was true
    | RelFlag                     // released, lock_acquired not yet cleared
    | ExitTest                    // the loop is left, lock_acquired not yet tested
    | ExitCheck
    | ExitDo
    | Closed

  datatype Conn = Conn(client: Client, request: Option<Request>, reply: Option<bool>, handler: Handler, flag: bool)

  /** The creating process itself, which uses the lock without a socket. */
  datatype Local = LFree | LHeld | LChecked

  datatype State = State(locked: bool, local: Local, conns: seq<Conn>)

  datatype Event =
    | SendAcquire(blocking: bool)
    | SendRelease
    | GetReply
    | Disconnect
    | RogueAcquire(blocking: bool)  // acquire while holding
    | RogueRelease                  // release while not holding
    | Receive
    | ReceiveEof                    // end of stream or reset; a reset can swallow a request
    | TryAcquire
    | SetFlag
    | SendReply
    | CheckLocked
    | DoRelease
    | ClearFlag
    | TestFlag
    | ExitCheckLocked
    | ExitRelease

  datatype Action = Connect | At(c: nat, e: Event) | LocalAcquire | LocalCheckLocked | LocalRelease

  const START := State(false, LFree, [])
  const NEW_CONN := Conn(Free, None, None, Receiving, false)

  predicate IsHandlerEvent(e: Event) {
    !(e.SendAcquire? || e.SendRelease? || e.GetReply? || e.Disconnect? || e.RogueAcquire? || e.RogueRelease?)
  }

  predicate ConnEnabled(k: Conn, e: Event, locked: bool) {
    match e
    case SendAcquire(_) => k.client.Free?
    case SendRelease => k.client.Holding?
    case GetReply => (k.client.AwaitAcquire? || k.client.AwaitRelease?) && k.reply.Some?
    case Disconnect => !k.client.Gone?
    case RogueAcquire(_) => k.client.Holding?
    case RogueRelease => k.client.Free?
    case Receive => k.handler.Receiving? && k.request.Some?
    case ReceiveEof => k.handler.Receiving? && k.client.Gone?
    case TryAcquire => k.handler.Acquiring? && (!locked || !k.handler.blocking)
    case SetFlag => k.handler.Granted?
    case SendReply => k.handler.Replying?
    case CheckLocked => k.handler.RelCheck?
    case DoRelease => k.handler.RelDo?
    case ClearFlag => k.handler.RelFlag?
    case TestFlag => k.handler.ExitTest?
    case ExitCheckLocked => k.handler.ExitCheck?
    case ExitRelease => k.handler.ExitDo?
  }

  /** The connection after event `e`. */
  function ConnNext(k: Conn, e: Event, locked: bool): Conn
    requires ConnEnabled(k, e, locked)
  {
    match e
    case SendAcquire(b) => k.(client := AwaitAcquire, request := Some(Acquire(b)))
    case SendRelease => k.(client := AwaitRelease, request := Some(Release))
    case GetReply =>
      k.(client := if k.client.AwaitAcquire? && k.reply.value then Holding else Free, reply := None)
    case Disconnect => k.(client := Gone)
    case RogueAcquire(b) => k.(client := AwaitAcquire, request := Some(Acquire(b)))
    case RogueRelease => k.(client := AwaitRelease, request := Some(Release))
    case Receive =>
      k.(request := None,
         handler := if k.request.value.Acquire? then Acquiring(k.request.value.blocking) else RelCheck)
    case ReceiveEof => k.(request := None, handler := ExitTest)
    case TryAcquire => k.(handler := Granted(!locked))
    case SetFlag => k.(flag := k.handler.ok, handler := Replying(k.handler.ok))
    case SendReply => k.(reply := if k.client.Gone? then k.reply else Some(k.handler.ok), handler := Receiving)
    case CheckLocked => k.(handler := if locked then RelDo else RelFlag)
    case DoRelease => k.(handler := if locked then RelFlag else Replying(false))
    case ClearFlag => k.(flag := false, handler := Replying(false))
    case TestFlag => k.(handler := if k.flag then ExitCheck else Closed)
    case ExitCheckLocked => k.(handler := if locked then ExitDo else Closed)
    case ExitRelease => k.(handler := Closed)
  }

  /** The lock after event `e`: taken by TryAcquire, given back by the two releases. */
  function LockNext(e: Event, locked: bool): bool {
    if e.TryAcquire? then true
    else if e.DoRelease? || e.ExitRelease? then false
    else locked
  }

  predicate Enabled(s: State, a: Action) {
    match a
    case Connect => true
    case At(c, e) => c < |s.conns| && ConnEnabled(s.conns[c], e, s.locked)
    case LocalAcquire => s.local.LFree? && !s.locked
    case LocalCheckLocked => s.local.LHeld?
    case LocalRelease => s.local.LChecked?
  }

  function Next(s: State, a: Action): State
    requires Enabled(s, a)
  {
    match a
    case Connect => s.(conns := s.conns + [NEW_CONN])
    case At(c, e) =>
      s.(conns := s.conns[c := ConnNext(s.conns[c], e, s.locked)], locked := LockNext(e, s.locked))
    case LocalAcquire => s.(locked := true, local := LHeld)
    case LocalCheckLocked => s.(local := if s.locked then LChecked else LFree)
    case LocalRelease => s.(locked := false, local := LFree)
  }

  ghost predicate Step(s: State, a: Action, t: State) {
    Enabled(s, a) && t == Next(s, a)
  }

  /** Clients release only what they hold and do not acquire again while holding. */
  ghost predicate DisciplinedStep(s: State, a: Action, t: State) {
    Step(s, a, t) && (a.At? ==> !a.e.RogueAcquire? && !a.e.RogueRelease?)
  }

  // ---------- Ownership ----------

  /** The handler of this connection has the lock. */
  predicate Owns(k: Conn) {
    k.handler == Granted(true) ||
    (k.flag && !k.handler.RelFlag? && !k.handler.Closed? && !k.handler.Granted?)
  }

  function OwnWeight(k: Conn): nat {
    if Owns(k) then 1 else 0
  }

  /** How many owners the lock has: connection handlers and the creating process. */
  function Owners(s: State): nat {
    Sum(s.conns, OwnWeight) + if s.local.LFree? then 0 else 1
  }

  function Bit(b: bool): nat {
    if b then 1 else 0
  }

  /** What the handler side of a disciplined connection looks like. */
  predicate HandlerOk(k: Conn) {
    && (k.request.Some? ==> k.handler.Receiving? && (k.request.value.Release? <==> k.flag))
    && (k.handler.Acquiring? || k.handler.Granted? ==> !k.flag)
    && (k.handler.RelCheck? || k.handler.RelDo? || k.handler.RelFlag? ==> k.flag)
    && (k.handler.ExitCheck? || k.handler.ExitDo? ==> k.flag)
  }

  /** How far the request the client waits for has got. */
  predicate ClientOk(k: Conn) {
    match k.client
    case Free => k == NEW_CONN
    case Holding => k == Conn(Holding, None, None, Receiving, true)
    case AwaitAcquire =>
      || (k.request.Some? && k.request.value.Acquire? && k.reply.None?)
      || (k.request.None? && k.reply.None? && (k.handler.Acquiring? || k.handler.Granted?))
      || (k.request.None? && k.reply.None? && k.handler == Replying(k.flag))
      || (k.request.None? && k.reply == Some(k.flag) && k.handler.Receiving?)
    case AwaitRelease =>
      || (k.request == Some(Release) && k.reply.None?)
      || (k.request.None? && k.reply.None? && (k.handler.RelCheck? || k.handler.RelDo? || k.handler.RelFlag?))
      || (k.request.None? && k.reply.None? && k.handler.Replying? && !k.flag)
      || (k.request.None? && k.reply.Some? && k.handler.Receiving? && !k.flag)
    case Gone => true
  }

  predicate ConnOk(k: Conn) {
    HandlerOk(k) && ClientOk(k)
  }

  /** `debt` is 0 in a sound state; it is 1 when the lock is locked although nobody owns it. */
  ghost predicate InvWith(s: State, debt: nat) {
    && (forall c :: 0 <= c < |s.conns| ==> ConnOk(s.conns[c]))
    && Owners(s) + debt == Bit(s.locked)
  }

  ghost predicate Inv(s: State) {
    InvWith(s, 0)
  }

  /** One event keeps its connection well formed and moves ownership together with the lock. */
  lemma {:induction false} ConnStep(k: Conn, e: Event, locked: bool)
    requires ConnOk(k) && ConnEnabled(k, e, locked) && !e.RogueAcquire? && !e.RogueRelease?
    requires Owns(k) ==> locked
    ensures ConnOk(ConnNext(k, e, locked))
    ensures OwnWeight(ConnNext(k, e, locked)) + Bit(locked) == OwnWeight(k) + Bit(LockNext(e, locked))
  {
  }

  lemma {:induction false} OwnerMeansLocked(s: State, debt: nat, c: nat)
    requires InvWith(s, debt) && c < |s.conns| && Owns(s.conns[c])
    ensures s.locked && debt == 0 && s.local.LFree?
    ensures forall d :: 0 <= d < |s.conns| && d != c ==> !Owns(s.conns[d])
  {
    SumBounds(s.conns, c, c, OwnWeight);
    forall d | 0 <= d < |s.conns| && d != c ensures !Owns(s.conns[d]) {
      SumBounds(s.conns, c, d, OwnWeight);
    }
  }

  lemma {:induction false} InvStep(s: State, debt: nat, a: Action, t: State)
    requires InvWith(s, debt) && DisciplinedStep(s, a, t)
    ensures InvWith(t, debt)
  {
    match a {
      case Connect => SumAppend(s.conns, NEW_CONN, OwnWeight);
      case At(c, e) =>
        var k := s.conns[c];
        if Owns(k) {
          OwnerMeansLocked(s, debt, c);
        }
        ConnStep(k, e, s.locked);
        SumUpdate(s.conns, c, ConnNext(k, e, s.locked), OwnWeight);
      case _ =>
    }
  }

  lemma {:induction false} InvRun(tr: seq<State>, acts: seq<Action>, n: nat)
    requires Run(DisciplinedStep, tr, acts) && tr[0] == START && n < |tr|
    ensures Inv(tr[n])
  {
    forall s, a, t | Inv(s) && DisciplinedStep(s, a, t) ensures Inv(t) {
      InvStep(s, 0, a, t);
    }
    Invariant(DisciplinedStep, Inv, tr, acts, n);
  }

  /** In every reachable state the lock is locked exactly when it has exactly one owner. */
  lemma {:induction false} LockedIffOneOwner(tr: seq<State>, acts: seq<Action>, n: nat)
    requires Run(DisciplinedStep, tr, acts) && tr[0] == START && n < |tr|
    ensures Owners(tr[n]) <= 1
    ensures tr[n].locked <==> Owners(tr[n]) == 1
  {
    InvRun(tr, acts, n);
  }

  /** Mutual exclusion as the clients see it: a client that believes it holds the lock is the
      only one, the creating process does not hold it, and its handler will give it back. */
  lemma {:induction false} HoldersExclude(tr: seq<State>, acts: seq<Action>, n: nat, c: nat)
    requires Run(DisciplinedStep, tr, acts) && tr[0] == START && n < |tr|
    requires c < |tr[n].conns| && tr[n].conns[c].client.Holding?
    ensures tr[n].locked && tr[n].conns[c].flag && tr[n].local.LFree?
    ensures forall d :: 0 <= d < |tr[n].conns| && d != c ==>
              !tr[n].conns[d].client.Holding? && !Owns(tr[n].conns[d])
  {
    InvRun(tr, acts, n);
    OwnerMeansLocked(tr[n], 0, c);
    forall d | 0 <= d < |tr[n].conns| && d != c ensures !tr[n].conns[d].client.Holding? {
      assert ConnOk(tr[n].conns[d]);
    }
  }

  // ---------- Release by the owner's own handler ----------

  /** The lock goes from locked to free only by a step of the owner itself, and a connection
      loses the ownership only by a step of its own handler. */
  lemma {:induction false} OnlyOwnerReleases(s: State, a: Action, t: State)
    requires Inv(s) && DisciplinedStep(s, a, t)
    ensures s.locked && !t.locked ==>
              || (a == LocalRelease && !s.local.LFree?)
              || (a.At? && IsHandlerEvent(a.e) && Owns(s.conns[a.c]) && !Owns(t.conns[a.c]))
    ensures forall c :: 0 <= c < |s.conns| && Owns(s.conns[c]) && !Owns(t.conns[c]) ==>
              a.At? && a.c == c && IsHandlerEvent(a.e) && s.locked && !t.locked
  {
    if a.At? {
      if Owns(s.conns[a.c]) {
        OwnerMeansLocked(s, 0, a.c);
      }
      ConnStep(s.conns[a.c], a.e, s.locked);
    }
  }

  /** Handler steps left on a connection whose client is gone. */
  function HandlerLeft(k: Conn): nat {
    match k.handler
    case Receiving => if k.request.Some? then 9 else 4
    case Acquiring(_) => 8
    case Granted(_) => 7
    case RelCheck => 8
    case RelDo => 7
    case RelFlag => 6
    case Replying(_) => 5
    case ExitTest => 3
    case ExitCheck => 2
    case ExitDo => 1
    case Closed => 0
  }

  /** The next handler event of an owner whose client is gone; it is never blocked. */
  function OwnerEvent(k: Conn): Event {
    match k.handler
    case Receiving => if k.request.Some? then Receive else ReceiveEof
    case Acquiring(_) => TryAcquire
    case Granted(_) => SetFlag
    case Replying(_) => SendReply
    case RelCheck => CheckLocked
    case RelDo => DoRelease
    case RelFlag => ClearFlag
    case ExitTest => TestFlag
    case ExitCheck => ExitCheckLocked
    case ExitDo => ExitRelease
    case Closed => ReceiveEof
  }

  /** On a connection whose client is gone, every event is a handler event and uses up one of
      the steps left; while the handler owns the lock it always has an enabled one. */
  lemma {:induction false} GoneHandler(k: Conn, e: Event, locked: bool)
    requires ConnOk(k) && k.client.Gone?
    ensures ConnEnabled(k, e, locked) && !e.RogueAcquire? && !e.RogueRelease? ==>
              && IsHandlerEvent(e)
              && HandlerLeft(ConnNext(k, e, locked)) < HandlerLeft(k)
              && ConnNext(k, e, locked).client.Gone?
    ensures Owns(k) ==> ConnEnabled(k, OwnerEvent(k), locked) && HandlerLeft(k) > 0
  {
  }

  function EventsAt(acts: seq<Action>, c: nat): nat {
    if acts == [] then 0
    else EventsAt(acts[..|acts| - 1], c) + if acts[|acts| - 1].At? && acts[|acts| - 1].c == c then 1 else 0
  }

  /** Whatever the rest of the system does, the handler of a vanished client takes at most
      HandlerLeft further steps, and when it has taken them all it does not own the lock. */
  lemma {:induction false} GoneHandlerIsBounded(tr: seq<State>, acts: seq<Action>, c: nat)
    requires Run(DisciplinedStep, tr, acts) && Inv(tr[0])
    requires c < |tr[0].conns| && tr[0].conns[c].client.Gone?
    ensures Inv(tr[|acts|]) && c < |tr[|acts|].conns| && tr[|acts|].conns[c].client.Gone?
    ensures EventsAt(acts, c) + HandlerLeft(tr[|acts|].conns[c]) <= HandlerLeft(tr[0].conns[c])
    ensures EventsAt(acts, c) == HandlerLeft(tr[0].conns[c]) ==> !Owns(tr[|acts|].conns[c])
  {
    var n := |acts| - 1;
    if n >= 0 {
      Prefix(DisciplinedStep, tr, acts, n);
      GoneHandlerIsBounded(tr[..n + 1], acts[..n], c);
      assert DisciplinedStep(tr[n], acts[n], tr[n + 1]);
      InvStep(tr[n], 0, acts[n], tr[n + 1]);
      if acts[n].At? && acts[n].c == c {
        GoneHandler(tr[n].conns[c], acts[n].e, tr[n].locked);
      }
    }
  }

  /** A holder that disconnects, at whatever point, has its lock released: its own handler
      alone can always be run until the lock is free. */
  lemma {:induction false} VanishedOwnerReleases(s: State, c: nat) returns (tr: seq<State>, acts: seq<Action>)
    requires Inv(s) && c < |s.conns| && s.conns[c].client.Gone? && Owns(s.conns[c])
    ensures Run(DisciplinedStep, tr, acts) && tr[0] == s && |acts| <= HandlerLeft(s.conns[c])
    ensures forall i :: 0 <= i < |acts| ==> acts[i].At? && acts[i].c == c && IsHandlerEvent(acts[i].e)
    ensures !tr[|acts|].locked && Owners(tr[|acts|]) == 0
    decreases HandlerLeft(s.conns[c])
  {
    var k := s.conns[c];
    var a := At(c, OwnerEvent(k));
    OwnerMeansLocked(s, 0, c);
    GoneHandler(k, OwnerEvent(k), s.locked);
    ConnStep(k, OwnerEvent(k), s.locked);
    var t := Next(s, a);
    InvStep(s, 0, a, t);
    if Owns(t.conns[c]) {
      var tr', acts' := VanishedOwnerReleases(t, c);
      Cons(DisciplinedStep, s, a, tr', acts');
      tr, acts := [s] + tr', [a] + acts';
    } else {
      assert !t.locked;
      tr, acts := [s, t], [a];
    }
  }

  // ---------- Progress ----------

  predicate Awaits(k: Conn) {
    k.client.AwaitAcquire? || k.client.AwaitRelease?
  }

  /** The next event of a connection whose client awaits a reply. */
  function AwaitEvent(k: Conn): Event {
    if k.reply.Some? then GetReply else OwnerEvent(k)
  }

  /** It can happen unless the handler waits for the lock. */
  lemma {:induction false} AwaitEventEnabled(k: Conn, locked: bool)
    requires ConnOk(k) && Awaits(k)
    ensures ConnEnabled(k, AwaitEvent(k), locked) || (k.handler == Acquiring(true) && locked && !Owns(k))
  {
  }

  /** The next event that takes the owner of the lock towards giving it back: a holder sends its
      release, everybody else goes on. */
  function TowardsRelease(k: Conn): Event {
    if k.client.Holding? then SendRelease else if Awaits(k) then AwaitEvent(k) else OwnerEvent(k)
  }

  lemma {:induction false} OwnerCanMove(k: Conn, locked: bool)
    requires ConnOk(k) && Owns(k)
    ensures ConnEnabled(k, TowardsRelease(k), locked)
  {
    if k.client.Gone? {
      GoneHandler(k, ReceiveEof, locked);
    }
  }

  predicate IsOwnersMove(s: State, a: Action)
    requires Enabled(s, a)
  {
    || (!s.local.LFree? && (a == LocalCheckLocked || a == LocalRelease))
    || (a.At? && Owns(s.conns[a.c]) && a.e == TowardsRelease(s.conns[a.c]))
  }

  /** No deadlock: while a client awaits a reply, either its connection can move, or its handler waits
      for the lock and the owner of the lock can move towards giving it back. */
  lemma {:induction false} AwaitedReplyProgress(s: State, c: nat) returns (a: Action)
    requires Inv(s) && c < |s.conns| && Awaits(s.conns[c])
    ensures Enabled(s, a)
    ensures || a == At(c, AwaitEvent(s.conns[c]))
            || (s.conns[c].handler == Acquiring(true) && s.locked && IsOwnersMove(s, a))
  {
    a := At(c, AwaitEvent(s.conns[c]));
    AwaitEventEnabled(s.conns[c], s.locked);
    if !ConnEnabled(s.conns[c], a.e, s.locked) {
      if s.local.LFree? {
        var d := SumWitness(s.conns, OwnWeight);
        OwnerCanMove(s.conns[d], s.locked);
        a := At(d, TowardsRelease(s.conns[d]));
      } else {
        a := if s.local.LHeld? then LocalCheckLocked else LocalRelease;
      }
    }
  }

  // ---------- What a request comes to ----------

  function Sent(a: Action, c: nat): Option<Request> {
    if !a.At? || a.c != c then None
    else match a.e
      case SendAcquire(b) => Some(Acquire(b))
      case RogueAcquire(b) => Some(Acquire(b))
      case SendRelease => Some(Release)
      case RogueRelease => Some(Release)
      case _ => None
  }

  /** The last request that client `c` has sent. */
  function LastSent(acts: seq<Action>, c: nat): Option<Request> {
    if acts == [] then None
    else if Sent(acts[|acts| - 1], c).Some? then Sent(acts[|acts| - 1], c)
    else LastSent(acts[..|acts| - 1], c)
  }

  /** What the connection says about the request that is being dealt with. */
  predicate DealsWith(k: Conn, r: Option<Request>) {
    && (k.request.Some? ==> r == k.request)
    && (k.handler.Acquiring? ==> r == Some(Acquire(k.handler.blocking)))
    && (k.handler.RelCheck? || k.handler.RelDo? || k.handler.RelFlag? ==> r == Some(Release))
  }

  lemma {:induction false} DealsWithStep(k: Conn, e: Event, locked: bool, r: Option<Request>)
    requires ConnOk(k) && ConnEnabled(k, e, locked) && DealsWith(k, r) && !e.RogueAcquire? && !e.RogueRelease?
    ensures DealsWith(ConnNext(k, e, locked), if Sent(At(0, e), 0).Some? then Sent(At(0, e), 0) else r)
  {
  }

  /** A handler deals with the last request that its client has sent. In particular it waits for the
      lock only if that was a blocking acquire, and releases only if that was a release. */
  lemma {:induction false} HandlerDealsWithLastSent(tr: seq<State>, acts: seq<Action>, n: nat, c: nat)
    requires Run(DisciplinedStep, tr, acts) && tr[0] == START && n < |tr| && c < |tr[n].conns|
    ensures DealsWith(tr[n].conns[c], LastSent(acts[..n], c))
  {
    assert n > 0;
    InvRun(tr, acts, n - 1);
    assert DisciplinedStep(tr[n - 1], acts[n - 1], tr[n]);
    assert acts[..n][..n - 1] == acts[..n - 1];
    if c < |tr[n - 1].conns| {
      HandlerDealsWithLastSent(tr, acts, n - 1, c);
      if acts[n - 1].At? && acts[n - 1].c == c {
        DealsWithStep(tr[n - 1].conns[c], acts[n - 1].e, tr[n - 1].locked, LastSent(acts[..n - 1], c));
      }
    }
  }

  lemma {:induction false} Go(s: State, acts: seq<Action>, t: State, c: nat, e: Event)
    returns (acts': seq<Action>, t': State)
    requires Reaches(DisciplinedStep, s, acts, t) && Enabled(t, At(c, e)) && !e.RogueAcquire? && !e.RogueRelease?
    requires forall i :: 0 <= i < |acts| ==> acts[i].At? && acts[i].c == c
    ensures Reaches(DisciplinedStep, s, acts', t') && t' == Next(t, At(c, e))
    ensures forall i :: 0 <= i < |acts'| ==> acts'[i].At? && acts'[i].c == c
  {
    acts', t' := acts + [At(c, e)], Next(t, At(c, e));
    Extend(DisciplinedStep, s, acts, t, At(c, e), t');
  }

  /** An acquire that need not wait, because it is non-blocking or the lock is free, is answered by
      steps of its own connection alone, and the answer is true if and only if the lock was free. */
  lemma {:induction false} AcquireIsAnswered(s: State, c: nat, blocking: bool) returns (acts: seq<Action>, t: State)
    requires Inv(s) && c < |s.conns| && s.conns[c].client.AwaitAcquire? && s.conns[c].request == Some(Acquire(blocking))
    requires !blocking || !s.locked
    ensures Reaches(DisciplinedStep, s, acts, t) && forall i :: 0 <= i < |acts| ==> acts[i].At? && acts[i].c == c
    ensures t.locked && t.local == s.local
    ensures t.conns == s.conns[c := Conn(AwaitAcquire, None, Some(!s.locked), Receiving, !s.locked)]
  {
    assert s.conns[c] == Conn(AwaitAcquire, Some(Acquire(blocking)), None, Receiving, false);
    Start(DisciplinedStep, s);
    acts, t := Go(s, [], s, c, Receive);
    assert t.conns == s.conns[c := Conn(AwaitAcquire, None, None, Acquiring(blocking), false)];
    acts, t := Go(s, acts, t, c, TryAcquire);
    assert t.conns == s.conns[c := Conn(AwaitAcquire, None, None, Granted(!s.locked), false)];
    acts, t := Go(s, acts, t, c, SetFlag);
    assert t.conns == s.conns[c := Conn(AwaitAcquire, None, None, Replying(!s.locked), !s.locked)];
    acts, t := Go(s, acts, t, c, SendReply);
  }

  /** From the call of `acquire` to its return: the client holds the lock if and only if it was free. */
  lemma {:induction false} AcquireReturns(s: State, c: nat, blocking: bool) returns (acts: seq<Action>, t: State)
    requires Inv(s) && c < |s.conns| && s.conns[c].client.Free? && (!blocking || !s.locked)
    ensures Reaches(DisciplinedStep, s, acts, t) && t.locked
    ensures t.conns == s.conns[c := if s.locked then NEW_CONN else Conn(Holding, None, None, Receiving, true)]
  {
    var a := At(c, SendAcquire(blocking));
    var u := Next(s, a);
    InvStep(s, 0, a, u);
    Start(DisciplinedStep, s);
    Extend(DisciplinedStep, s, [], s, a, u);
    var more;
    more, t := AcquireIsAnswered(u, c, blocking);
    Chain(DisciplinedStep, s, [] + [a], u, more, t);
    acts := [] + [a] + more;
    var b := At(c, GetReply);
    Extend(DisciplinedStep, s, acts, t, b, Next(t, b));
    acts, t := acts + [b], Next(t, b);
    assert s.locked ==> t.conns[c] == NEW_CONN;
  }

  lemma {:induction false} LockIsFreed(s: State, c: nat) returns (acts: seq<Action>, t: State)
    requires Inv(s) && c < |s.conns| && s.conns[c].client.Holding?
    ensures Reaches(DisciplinedStep, s, acts, t) && forall i :: 0 <= i < |acts| ==> acts[i].At? && acts[i].c == c
    ensures !t.locked && t.conns == s.conns[c := Conn(AwaitRelease, None, None, RelFlag, true)]
  {
    OwnerMeansLocked(s, 0, c);
    Start(DisciplinedStep, s);
    acts, t := Go(s, [], s, c, SendRelease);
    acts, t := Go(s, acts, t, c, Receive);
    assert t.conns == s.conns[c := Conn(AwaitRelease, None, None, RelCheck, true)];
    acts, t := Go(s, acts, t, c, CheckLocked);
    assert t.conns == s.conns[c := Conn(AwaitRelease, None, None, RelDo, true)];
    acts, t := Go(s, acts, t, c, DoRelease);
  }

  /** From the call of `release` by the holder to its return: the lock is free. */
  lemma {:induction false} ReleaseReturns(s: State, c: nat) returns (acts: seq<Action>, t: State)
    requires Inv(s) && c < |s.conns| && s.conns[c].client.Holding?
    ensures Reaches(DisciplinedStep, s, acts, t) && forall i :: 0 <= i < |acts| ==> acts[i].At? && acts[i].c == c
    ensures !t.locked && t.conns == s.conns[c := NEW_CONN]
  {
    acts, t := LockIsFreed(s, c);
    hide Inv;
    acts, t := Go(s, acts, t, c, ClearFlag);
    assert t.conns == s.conns[c := Conn(AwaitRelease, None, None, Replying(false), false)];
    acts, t := Go(s, acts, t, c, SendReply);
    assert t.conns == s.conns[c := Conn(AwaitRelease, None, Some(false), Receiving, false)];
    acts, t := Go(s, acts, t, c, GetReply);
    assert t.conns == s.conns[c := NEW_CONN];
  }

  /** The creating process takes a free lock and gives it back by itself. */
  lemma {:induction false} LocalRoundTrip(s: State) returns (t: State)
    requires Inv(s) && !s.locked
    ensures Reaches(DisciplinedStep, s, [] + [LocalAcquire], t) && t == s.(locked := true, local := LHeld)
    ensures Reaches(DisciplinedStep, t, [] + [LocalCheckLocked] + [LocalRelease], s)
  {
    t := Next(s, LocalAcquire);
    Start(DisciplinedStep, s);
    Extend(DisciplinedStep, s, [], s, LocalAcquire, t);
    var u := Next(t, LocalCheckLocked);
    Start(DisciplinedStep, t);
    Extend(DisciplinedStep, t, [], t, LocalCheckLocked, u);
    Extend(DisciplinedStep, t, [] + [LocalCheckLocked], u, LocalRelease, s);
  }

  // ---------- Connections come and go ----------

  /** A connection can be made at any time. */
  lemma {:induction false} ConnectsAnytime(s: State) returns (t: State)
    requires Inv(s)
    ensures Reaches(DisciplinedStep, s, [] + [Connect], t) && Inv(t) && t == s.(conns := s.conns + [NEW_CONN])
  {
    t := Next(s, Connect);
    Start(DisciplinedStep, s);
    Extend(DisciplinedStep, s, [], s, Connect, t);
    InvStep(s, 0, Connect, t);
  }

  /** A client can vanish at any time, also while it waits for the lock or holds it. If its connection
      owns the lock, its handler then frees it by steps of its own. */
  lemma {:induction false} VanishesAnytime(s: State, c: nat) returns (t: State, acts: seq<Action>, u: State)
    requires Inv(s) && c < |s.conns| && !s.conns[c].client.Gone?
    ensures Reaches(DisciplinedStep, s, [] + [At(c, Disconnect)], t) && Inv(t)
    ensures t == s.(conns := s.conns[c := s.conns[c].(client := Gone)])
    ensures Reaches(DisciplinedStep, t, acts, u) && (Owns(s.conns[c]) ==> !u.locked)
    ensures forall i :: 0 <= i < |acts| ==> acts[i].At? && acts[i].c == c && IsHandlerEvent(acts[i].e)
  {
    var a := At(c, Disconnect);
    t := Next(s, a);
    Start(DisciplinedStep, s);
    Extend(DisciplinedStep, s, [], s, a, t);
    InvStep(s, 0, a, t);
    Start(DisciplinedStep, t);
    acts, u := [], t;
    if Owns(s.conns[c]) {
      assert Owns(t.conns[c]);
      hide Inv;
      var tr;
      tr, acts := VanishedOwnerReleases(t, c);
      u := tr[|acts|];
    }
  }

  // ---------- The handler on its own, in any state ----------

  /** One more step of connection `c` in a run in the making, whatever the clients do. */
  lemma {:induction false} GoOn(s: State, acts: seq<Action>, t: State, c: nat, e: Event) returns (acts': seq<Action>, t': State)
    requires Reaches(Step, s, acts, t) && Enabled(t, At(c, e))
    ensures acts' == acts + [At(c, e)] && Reaches(Step, s, acts', t') && t' == Next(t, At(c, e))
  {
    acts', t' := acts + [At(c, e)], Next(t, At(c, e));
    Extend(Step, s, acts, t, At(c, e), t');
  }

  /** What a client that is there is answered; one that has gone gets no answer. */
  function Answered(k: Conn, ok: bool): Option<bool> {
    if k.client.Gone? then k.reply else Some(ok)
  }

  /** A release that a handler has received clears its flag and leaves the lock free, whether it was
      locked or not. */
  lemma {:induction false} ReleaseIsDealtWith(s: State, c: nat) returns (acts: seq<Action>, t: State)
    requires c < |s.conns| && s.conns[c].handler.RelCheck?
    ensures Reaches(Step, s, acts, t) && |acts| == if s.locked then 4 else 3
    ensures forall i :: 0 <= i < |acts| ==> acts[i].At? && acts[i].c == c && IsHandlerEvent(acts[i].e)
    ensures !t.locked && t.local == s.local
    ensures t.conns == s.conns[c := s.conns[c].(handler := Receiving, flag := false, reply := Answered(s.conns[c], false))]
  {
    Start(Step, s);
    acts, t := GoOn(s, [], s, c, CheckLocked);
    if s.locked {
      acts, t := GoOn(s, acts, t, c, DoRelease);
    }
    acts, t := GoOn(s, acts, t, c, ClearFlag);
    acts, t := GoOn(s, acts, t, c, SendReply);
  }

  /** But one that finds the lock released by another since it looked keeps its flag, because the
      exception that this raises skips the line that clears it. */
  lemma {:induction false} LateReleaseKeepsFlag(s: State, c: nat) returns (acts: seq<Action>, t: State)
    requires c < |s.conns| && s.conns[c].handler.RelDo? && !s.locked
    ensures Reaches(Step, s, acts, t) && acts == [At(c, DoRelease), At(c, SendReply)] && !t.locked && t.local == s.local
    ensures t.conns == s.conns[c := s.conns[c].(handler := Receiving, reply := Answered(s.conns[c], false))]
  {
    Start(Step, s);
    acts, t := GoOn(s, [], s, c, DoRelease);
    acts, t := GoOn(s, acts, t, c, SendReply);
    assert acts == [At(c, DoRelease), At(c, SendReply)];
  }

  /** With such a flag its disconnection frees the lock under whoever has it then. */
  lemma {:induction false} StaleFlagFreesTheLock(s: State, c: nat) returns (acts: seq<Action>, t: State)
    requires c < |s.conns| && s.conns[c].handler.Receiving? && s.conns[c].client.Free? && s.conns[c].flag && s.locked
    ensures Reaches(Step, s, acts, t) && !t.locked && t.local == s.local
    ensures |t.conns| == |s.conns| && forall d :: 0 <= d < |s.conns| && d != c ==> t.conns[d] == s.conns[d]
  {
    Start(Step, s);
    acts, t := GoOn(s, [], s, c, Disconnect);
    acts, t := GoOn(s, acts, t, c, ReceiveEof);
    var more, u := LeavesTheLoop(t, c);
    Chain(Step, s, acts, t, more, u);
    acts, t := acts + more, u;
  }

  /** A handler that has left its loop closes the connection, after releasing the lock if and only if
      its flag is set and the lock is locked. */
  lemma {:induction false} LeavesTheLoop(s: State, c: nat) returns (acts: seq<Action>, t: State)
    requires c < |s.conns| && s.conns[c].handler.ExitTest?
    ensures Reaches(Step, s, acts, t) && |acts| == if !s.conns[c].flag then 1 else if s.locked then 3 else 2
    ensures forall i :: 0 <= i < |acts| ==> acts[i].At? && acts[i].c == c && IsHandlerEvent(acts[i].e)
    ensures t == s.(locked := s.locked && !s.conns[c].flag, conns := s.conns[c := s.conns[c].(handler := Closed)])
  {
    Start(Step, s);
    acts, t := GoOn(s, [], s, c, TestFlag);
    if s.conns[c].flag {
      acts, t := GoOn(s, acts, t, c, ExitCheckLocked);
      if s.locked {
        acts, t := GoOn(s, acts, t, c, ExitRelease);
      }
    }
  }

  /** A request whose client has gone may be lost with the connection or be served. */
  lemma {:induction false} LastRequestMayBeLost(s: State, c: nat) returns (lost: State, served: State)
    requires c < |s.conns| && s.conns[c].handler.Receiving? && s.conns[c].client.Gone? && s.conns[c].request.Some?
    ensures Reaches(Step, s, [] + [At(c, ReceiveEof)], lost) && Reaches(Step, s, [] + [At(c, Receive)], served)
    ensures lost == s.(conns := s.conns[c := s.conns[c].(request := None, handler := ExitTest)])
    ensures served.locked == s.locked && |served.conns| == |s.conns| && served.conns[c].request.None?
    ensures DealsWith(served.conns[c], s.conns[c].request) && (served.conns[c].handler.Acquiring? || served.conns[c].handler.RelCheck?)
  {
    Start(Step, s);
    var acts;
    acts, lost := GoOn(s, [], s, c, ReceiveEof);
    acts, served := GoOn(s, [], s, c, Receive);
  }

  /** The release of the creating process leaves the lock free in any case, and does nothing to one
      that another has released already. */
  lemma {:induction false} LocalReleaseReturns(s: State) returns (acts: seq<Action>, t: State)
    requires s.local.LHeld?
    ensures Reaches(Step, s, acts, t) && t == s.(locked := false, local := LFree)
    ensures acts == if s.locked then [LocalCheckLocked, LocalRelease] else [LocalCheckLocked]
  {
    Start(Step, s);
    acts, t := [] + [LocalCheckLocked], Next(s, LocalCheckLocked);
    Extend(Step, s, [], s, LocalCheckLocked, t);
    if s.locked {
      var u := Next(t, LocalRelease);
      Extend(Step, s, acts, t, LocalRelease, u);
      acts, t := acts + [LocalRelease], u;
    }
  }

  // ---------- What undisciplined clients break ----------

  lemma {:induction false} Take(acts: seq<Action>, t: State, a: Action) returns (acts': seq<Action>, t': State)
    requires Reaches(Step, START, acts, t) && Enabled(t, a)
    ensures Reaches(Step, START, acts', t') && t' == Next(t, a) && acts' == acts + [a]
  {
    acts', t' := acts + [a], Next(t, a);
    Extend(Step, START, acts, t, a, t');
  }

  const HELD := Conn(Holding, None, None, Receiving, true)

  /** Two connections, the first of which is about to be granted the lock. */
  lemma {:induction false} FirstAcquires() returns (acts: seq<Action>, t: State)
    ensures Reaches(Step, START, acts, t)
    ensures t == State(false, LFree, [Conn(AwaitAcquire, None, None, Acquiring(true), false), NEW_CONN])
  {
    acts, t := [], START;
    Start(Step, t);
    acts, t := Take(acts, t, Connect);
    acts, t := Take(acts, t, Connect);
    assert t.conns == [NEW_CONN, NEW_CONN];
    acts, t := Take(acts, t, At(0, SendAcquire(true)));
    assert t.conns == [Conn(AwaitAcquire, Some(Acquire(true)), None, Receiving, false), NEW_CONN];
    acts, t := Take(acts, t, At(0, Receive));
  }

  /** Two connections, the first of which holds the lock. */
  lemma {:induction false} FirstHolds() returns (acts: seq<Action>, t: State)
    ensures Reaches(Step, START, acts, t) && t == State(true, LFree, [HELD, NEW_CONN])
  {
    acts, t := FirstAcquires();
    acts, t := Take(acts, t, At(0, TryAcquire));
    assert t.conns == [Conn(AwaitAcquire, None, None, Granted(true), false), NEW_CONN];
    acts, t := Take(acts, t, At(0, SetFlag));
    assert t.conns == [Conn(AwaitAcquire, None, None, Replying(true), true), NEW_CONN];
    acts, t := Take(acts, t, At(0, SendReply));
    assert t.conns == [Conn(AwaitAcquire, None, Some(true), Receiving, true), NEW_CONN];
    acts, t := Take(acts, t, At(0, GetReply));
  }

  /** Any connection can release: after one release by a client that holds nothing, the lock
      is free while the first client still believes it holds it. */
  lemma {:induction false} RogueReleaseFreesTheLock() returns (acts: seq<Action>, t: State)
    ensures Reaches(Step, START, acts, t)
    ensures !t.locked && |t.conns| == 2 && t.conns[0].client.Holding? && t.conns[0].flag
  {
    acts, t := FirstHolds();
    acts, t := Take(acts, t, At(1, RogueRelease));
    acts, t := Take(acts, t, At(1, Receive));
    assert t.conns == [HELD, Conn(AwaitRelease, None, None, RelCheck, false)];
    acts, t := Take(acts, t, At(1, CheckLocked));
    acts, t := Take(acts, t, At(1, DoRelease));
  }

  /** The release of the holder has seen the lock locked when another one frees it. */
  lemma {:induction false} ReleasesCross() returns (acts: seq<Action>, t: State)
    ensures Reaches(Step, START, acts, t)
    ensures t == State(false, LFree, [Conn(AwaitRelease, None, None, RelDo, true), Conn(AwaitRelease, None, None, RelFlag, false)])
  {
    acts, t := FirstHolds();
    acts, t := Take(acts, t, At(0, SendRelease));
    acts, t := Take(acts, t, At(0, Receive));
    assert t == State(true, LFree, [Conn(AwaitRelease, None, None, RelCheck, true), NEW_CONN]);
    acts, t := Take(acts, t, At(0, CheckLocked));
    var k := Conn(AwaitRelease, None, None, RelDo, true);
    assert t == State(true, LFree, [k, NEW_CONN]);
    acts, t := Take(acts, t, At(1, RogueRelease));
    acts, t := Take(acts, t, At(1, Receive));
    assert t == State(true, LFree, [k, Conn(AwaitRelease, None, None, RelCheck, false)]);
    acts, t := Take(acts, t, At(1, CheckLocked));
    acts, t := Take(acts, t, At(1, DoRelease));
  }

  /** That leaves the first client with a flag that is stale by the time the creating process has got
      the lock. */
  lemma {:induction false} CrossingReleasesLeaveStaleFlag() returns (acts: seq<Action>, t: State)
    ensures Reaches(Step, START, acts, t) && t.locked && t.local.LHeld? && |t.conns| == 2
    ensures t.conns[0] == Conn(Free, None, None, Receiving, true)
  {
    acts, t := ReleasesCross();
    acts, t := Take(acts, t, At(0, DoRelease));
    acts, t := Take(acts, t, At(0, SendReply));
    assert t.conns[0] == Conn(AwaitRelease, None, Some(false), Receiving, true) && |t.conns| == 2;
    acts, t := Take(acts, t, At(0, GetReply));
    acts, t := Take(acts, t, LocalAcquire);
  }

  /** A failed non-blocking acquire by the holder clears the flag of its own handler, so that
      its disconnection leaves the lock locked without an owner. */
  lemma {:induction false} RogueAcquireOrphansTheLock() returns (acts: seq<Action>, t: State)
    ensures Reaches(Step, START, acts, t) && InvWith(t, 1)
  {
    acts, t := FirstHolds();
    acts, t := Take(acts, t, At(0, RogueAcquire(false)));
    assert t.conns == [Conn(AwaitAcquire, Some(Acquire(false)), None, Receiving, true), NEW_CONN];
    acts, t := Take(acts, t, At(0, Receive));
    assert t.conns == [Conn(AwaitAcquire, None, None, Acquiring(false), true), NEW_CONN];
    acts, t := Take(acts, t, At(0, TryAcquire));
    assert t.conns == [Conn(AwaitAcquire, None, None, Granted(false), true), NEW_CONN];
    acts, t := Take(acts, t, At(0, SetFlag));
    assert t.conns == [Conn(AwaitAcquire, None, None, Replying(false), false), NEW_CONN];
    acts, t := Take(acts, t, At(0, Disconnect));
    var k := Conn(Gone, None, None, Replying(false), false);
    assert t.conns == [k] + [NEW_CONN];
    NobodyOwns(t, k);
  }

  lemma {:induction false} NobodyOwns(t: State, k: Conn)
    requires t == State(true, LFree, [k] + [NEW_CONN]) && ConnOk(k) && !Owns(k)
    ensures InvWith(t, 1)
  {
    SumAppend([k], NEW_CONN, OwnWeight);
    SumAppend([], k, OwnWeight);
    assert [] + [k] == [k];
  }

  /** An orphaned lock stays locked in every disciplined run: nobody ever gets it again. */
  lemma {:induction false} OrphanedForever(tr: seq<State>, acts: seq<Action>, n: nat)
    requires Run(DisciplinedStep, tr, acts) && InvWith(tr[0], 1) && n < |tr|
    ensures tr[n].locked && Owners(tr[n]) == 0
    ensures forall c :: 0 <= c < |tr[n].conns| ==> !tr[n].conns[c].client.Holding?
  {
    var orphaned := (s: State) => InvWith(s, 1);
    forall s, a, t | orphaned(s) && DisciplinedStep(s, a, t) ensures orphaned(t) {
      InvStep(s, 1, a, t);
    }
    Invariant(DisciplinedStep, orphaned, tr, acts, n);
    forall c | 0 <= c < |tr[n].conns| ensures !tr[n].conns[c].client.Holding? {
      if Owns(tr[n].conns[c]) {
        OwnerMeansLocked(tr[n], 1, c);
      }
    }
  }
}
