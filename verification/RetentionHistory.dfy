/** Checkpoint retention as a function of what has happened: after any history of successful, failed
    and repeated commits, failed tracker writes and failed deletions, what the storage object remembers
    and what is on disk. */
module RetentionHistory {
  import opened Basics
  import opened Retention

  function SetOf(xs: seq<int>): set<int> {
    set x | x in xs
  }

  predicate Increasing(xs: seq<int>) {
    && (forall i :: 0 <= i < |xs| ==> xs[i] > 0)
    && (forall i, j :: 0 <= i < j < |xs| ==> xs[i] < xs[j])
  }

  /** The steps the tracker has named one after the other: the one it named before this storage
      object existed, if any, and the committed ones. */
  function Named(tracker: Option<int>, committed: seq<int>): seq<int> {
    (if tracker.Some? then [tracker.value] else []) + committed
  }

  /** All but the last `k`, and the last `k`. */
  function Older(xs: seq<int>, k: nat): seq<int> {
    if |xs| <= k then [] else xs[..|xs| - k]
  }

  function Last(xs: seq<int>, k: nat): seq<int> {
    if |xs| <= k then xs else xs[|xs| - k..]
  }

  // ---------- Histories ----------

  /** `deletes` says whether the deletion that a commit may cause succeeds. */
  datatype Happening =
    | Saved(step: int, deletes: bool)                  // saved, named in the tracker, committed successfully
    | Again(step: int, deletes: bool)                  // committed successfully once more
    | Failed(step: int)                                // committed without success
    | WriteFails(step: int, outcome: WriteOutcome)     // writing the tracker raises

  function Happen(s: Store, e: Happening): Store {
    match e
    case Saved(x, deletes) => Apply(Apply(Apply(s, Save(x)), Track(x, Written)), Commit(x, true, deletes))
    case Again(x, deletes) => Apply(s, Commit(x, true, deletes))
    case Failed(x) => Apply(s, Commit(x, false, true))
    case WriteFails(x, outcome) => Apply(s, Track(x, outcome))
  }

  function Replay(s: Store, h: seq<Happening>): Store {
    if h == [] then s else Happen(Replay(s, h[..|h| - 1]), h[|h| - 1])
  }

  /** The steps that were saved, named and committed, in order. */
  function Steps(h: seq<Happening>): seq<int> {
    if h == [] then []
    else Steps(h[..|h| - 1]) + if h[|h| - 1].Saved? then [h[|h| - 1].step] else []
  }

  function NamedIn(tracker: Option<int>, h: seq<Happening>): seq<int> {
    Named(tracker, Steps(h))
  }

  /** Commits are repeated for the step named last, and failed writes fail. */
  ghost predicate Well(tracker: Option<int>, h: seq<Happening>) {
    forall i :: 0 <= i < |h| ==>
      && (h[i].Again? ==> var named := NamedIn(tracker, h[..i]); named != [] && h[i].step == named[|named| - 1])
      && (h[i].WriteFails? ==> !h[i].outcome.Written?)
  }

  /** A tracker write has failed since the last step was named. */
  predicate Spoiled(h: seq<Happening>) {
    h != [] && var e := h[|h| - 1]; e.WriteFails? || (!e.Saved? && Spoiled(h[..|h| - 1]))
  }

  /** And has left the tracker file empty. */
  predicate Emptied(h: seq<Happening>) {
    h != [] && var e := h[|h| - 1];
    (e.WriteFails? && e.outcome.Truncated?) || (!e.Saved? && Emptied(h[..|h| - 1]))
  }

  /** A step handed to the strategy. */
  datatype Clean = Clean(step: int, deletes: bool)

  /** The steps handed to the strategy: at every commit of a new step the one named before it, and at
      every repeated commit that one once more, unless a tracker write has failed meanwhile. */
  function Cleaned(tracker: Option<int>, h: seq<Happening>): seq<Clean> {
    if h == [] then []
    else
      var before, e := h[..|h| - 1], h[|h| - 1];
      var z, named := Cleaned(tracker, before), NamedIn(tracker, before);
      if e.Saved? && named != [] then z + [Clean(named[|named| - 1], e.deletes)]
      else if e.Again? && |named| >= 2 && !Spoiled(before) then z + [Clean(named[|named| - 2], e.deletes)]
      else z
  }

  function StepsOf(z: seq<Clean>): seq<int> {
    seq(|z|, i requires 0 <= i < |z| => z[i].step)
  }

  /** Clean-up number `i` lets go of step `y`. */
  predicate LetsGo(p: Policy, z: seq<Clean>, i: nat, y: int)
    requires i < |z| && (p.KeepInterval? ==> p.interval != 0)
  {
    match p
    case KeepLatest(max, _) => i - (max - 1) >= 0 && max >= 1 && y == z[i - (max - 1)].step
    case KeepInterval(interval) => y == z[i].step && y % interval != 0
  }

  ghost predicate Gone(p: Policy, z: seq<Clean>, y: int)
    requires p.KeepInterval? ==> p.interval != 0
  {
    exists i: nat :: i < |z| && z[i].deletes && LetsGo(p, z, i, y)
  }

  /** A storage object that has just been created, with a usable interval. */
  ghost predicate New(s: Store) {
    && s.preStep == 0
    && s.policy == Fresh(s.policy)
    && (if s.policy.KeepLatest? then s.policy.max >= 1 else s.policy.interval != 0)
  }

  /** What the storage object and the tracker are like after the history. */
  ghost predicate Remembered(s: Store, t: Store, h: seq<Happening>)
    requires New(s)
  {
    var named := NamedIn(s.tracker, h);
    && t.tracker == (if named == [] || Emptied(h) then None else Some(named[|named| - 1]))
    && t.preStep == (if named == [] then 0
                     else if Spoiled(h) then named[|named| - 1]
                     else if |named| >= 2 then named[|named| - 2] else 0)
    && t.policy == PolicyAfter(s.policy, Cleaned(s.tracker, h))
  }

  function PolicyAfter(p: Policy, z: seq<Clean>): Policy {
    if p.KeepLatest? && p.max >= 1 then p.(steps := Last(StepsOf(z), p.max - 1)) else p
  }

  /** What is on disk after the history. */
  ghost predicate OnDisk(s: Store, t: Store, h: seq<Happening>, y: int)
    requires New(s)
  {
    y in t.dirs <==> (y in s.dirs || y in Steps(h)) && !Gone(s.policy, Cleaned(s.tracker, h), y)
  }

  lemma {:induction false} IncreasingSnoc(xs: seq<int>, x: int)
    requires Increasing(xs + [x])
    ensures Increasing(xs) && x > 0
    ensures forall i :: 0 <= i < |xs| ==> 0 < xs[i] < x
  {
    var ys := xs + [x];
    assert ys[|xs|] == x;
    forall i | 0 <= i < |xs| ensures 0 < xs[i] < x {
      assert ys[i] == xs[i];
    }
    forall i, j | 0 <= i < j < |xs| ensures xs[i] < xs[j] {
      assert ys[i] == xs[i] && ys[j] == xs[j];
    }
  }

  /** Cleaning up `step` removes `y`. */
  predicate Removes(p: Policy, step: int, y: int) {
    Deletes(p, step) && y == Victim(p, step)
  }

  // ---------- One clean-up ----------

  lemma {:induction false} WindowSlides(xs: seq<int>, x: int, k: nat)
    ensures var more := Last(xs, k) + [x];
            && (|xs| >= k ==> |more| == k + 1 && more[1..] == Last(xs + [x], k) && more[0] == (xs + [x])[|xs| - k])
            && (|xs| < k ==> |more| < k + 1 && more == Last(xs + [x], k))
  {
  }

  lemma {:induction false} LatestClean(p: Policy, z: seq<Clean>, c: Clean, y: int)
    requires p.KeepLatest? && p.max >= 1
    ensures AfterCleanUp(PolicyAfter(p, z), c.step) == PolicyAfter(p, z + [c])
    ensures Removes(PolicyAfter(p, z), c.step, y) <==> LetsGo(p, z + [c], |z|, y)
  {
    var k, xs := p.max - 1, StepsOf(z);
    var more := Last(xs, k) + [c.step];
    assert StepsOf(z + [c]) == xs + [c.step] && |xs| == |z|;
    WindowSlides(xs, c.step, k);
    hide Last;
    var q := PolicyAfter(p, z);
    assert q == KeepLatest(p.max, Last(xs, k));
    assert PolicyAfter(p, z + [c]) == KeepLatest(p.max, Last(xs + [c.step], k));
    if |xs| >= k {
      assert (xs + [c.step])[|xs| - k] == (z + [c])[|z| - k].step;
      assert AfterCleanUp(q, c.step) == KeepLatest(p.max, more[1..]);
    } else {
      assert AfterCleanUp(q, c.step) == KeepLatest(p.max, more);
    }
  }

  /** Handing one more step to the strategy. */
  lemma {:induction false} OneMoreClean(p: Policy, z: seq<Clean>, c: Clean, y: int)
    requires (p.KeepLatest? && p.max >= 1) || (p.KeepInterval? && p.interval != 0)
    ensures AfterCleanUp(PolicyAfter(p, z), c.step) == PolicyAfter(p, z + [c])
    ensures Removes(PolicyAfter(p, z), c.step, y) <==> LetsGo(p, z + [c], |z|, y)
  {
    if p.KeepLatest? {
      LatestClean(p, z, c, y);
    }
  }

  lemma {:induction false} GoneSnoc(p: Policy, z: seq<Clean>, c: Clean, y: int)
    requires p.KeepInterval? ==> p.interval != 0
    ensures Gone(p, z + [c], y) <==> Gone(p, z, y) || (c.deletes && LetsGo(p, z + [c], |z|, y))
  {
    var all := z + [c];
    forall i: nat | i < |z| ensures LetsGo(p, all, i, y) <==> LetsGo(p, z, i, y) {
    }
    if Gone(p, z, y) {
      var i: nat :| i < |z| && z[i].deletes && LetsGo(p, z, i, y);
      assert all[i].deletes && LetsGo(p, all, i, y);
    }
    if c.deletes && LetsGo(p, all, |z|, y) {
      assert all[|z|].deletes;
    }
  }

  /** A commit that hands the remembered step to the strategy. */
  lemma {:induction false} CommitCleans(p: Policy, t: Store, z: seq<Clean>, x: int, deletes: bool, y: int)
    requires (p.KeepLatest? && p.max >= 1) || (p.KeepInterval? && p.interval != 0)
    requires t.policy == PolicyAfter(p, z) && t.preStep != x && t.preStep != 0
    ensures var u, z' := AfterCommit(t, x, true, deletes), z + [Clean(t.preStep, deletes)];
            && u.policy == PolicyAfter(p, z') && u.preStep == t.preStep && u.tracker == t.tracker
            && (y in u.dirs && !Gone(p, z, y) <==> y in t.dirs && !Gone(p, z', y))
            && (y in u.dirs ==> y in t.dirs) && (Gone(p, z, y) ==> Gone(p, z', y))
  {
    var c := Clean(t.preStep, deletes);
    OneMoreClean(p, z, c, y);
    GoneSnoc(p, z, c, y);
    hide PolicyAfter, AfterCleanUp, LetsGo, Gone;
  }

  // ---------- The whole history ----------

  lemma {:induction false} EmptiedIsSpoiled(h: seq<Happening>)
    ensures Emptied(h) ==> Spoiled(h)
  {
    if h != [] {
      EmptiedIsSpoiled(h[..|h| - 1]);
    }
  }

  lemma {:induction false} WellBefore(tracker: Option<int>, h: seq<Happening>)
    requires Well(tracker, h) && h != []
    ensures Well(tracker, h[..|h| - 1])
  {
    var before := h[..|h| - 1];
    assert forall i :: 0 <= i < |before| ==> before[..i] == h[..i] && before[i] == h[i];
  }

  /** Only named steps are handed to the strategy. */
  lemma {:induction false} CleanedIsNamed(tracker: Option<int>, h: seq<Happening>, i: nat)
    requires i < |Cleaned(tracker, h)|
    ensures Cleaned(tracker, h)[i].step in NamedIn(tracker, h)
  {
    var before, e := h[..|h| - 1], h[|h| - 1];
    var z, named := Cleaned(tracker, before), NamedIn(tracker, before);
    assert NamedIn(tracker, h) == named + if e.Saved? then [e.step] else [];
    if i < |z| {
      CleanedIsNamed(tracker, before, i);
    }
  }

  lemma {:induction false} NewStepNotGone(p: Policy, tracker: Option<int>, h: seq<Happening>, x: int)
    requires p.KeepInterval? ==> p.interval != 0
    requires x !in NamedIn(tracker, h)
    ensures !Gone(p, Cleaned(tracker, h), x)
  {
    var z := Cleaned(tracker, h);
    forall i: nat | i < |z| ensures z[i].step != x {
      CleanedIsNamed(tracker, h, i);
    }
  }

  lemma {:induction false} OneMore(tracker: Option<int>, before: seq<Happening>, e: Happening)
    ensures var h := before + [e];
            && h[..|h| - 1] == before && h[|h| - 1] == e
            && Steps(h) == (if e.Saved? then Steps(before) + [e.step] else Steps(before))
            && NamedIn(tracker, h) == (if e.Saved? then NamedIn(tracker, before) + [e.step] else NamedIn(tracker, before))
  {
    var h := before + [e];
    assert h[..|h| - 1] == before;
    assert Steps(before) + [] == Steps(before);
  }

  /** Saving and naming a new step, whatever happened before: the storage object then remembers the
      step named before it. */
  lemma {:induction false} NamingRemembers(s: Store, t: Store, before: seq<Happening>, x: int)
    requires New(s) && Remembered(s, t, before)
    ensures var u, named := Apply(Apply(t, Save(x)), Track(x, Written)), NamedIn(s.tracker, before);
            && u.tracker == Some(x) && u.policy == t.policy && u.dirs == t.dirs + {x}
            && u.preStep == if named == [] then 0 else named[|named| - 1]
  {
    EmptiedIsSpoiled(before);
  }

  /** A new step: the one named before it is handed to the strategy. */
  lemma {:induction false} SavedStep(s: Store, t: Store, before: seq<Happening>, e: Happening, y: int)
    requires New(s) && e.Saved? && Remembered(s, t, before) && OnDisk(s, t, before, y)
    requires Increasing(NamedIn(s.tracker, before) + [e.step])
    ensures Remembered(s, Happen(t, e), before + [e]) && OnDisk(s, Happen(t, e), before + [e], y)
  {
    hide Increasing, PolicyAfter, Gone, Steps, Cleaned, Spoiled, Emptied, NamedIn;
    var named, z, x := NamedIn(s.tracker, before), Cleaned(s.tracker, before), e.step;
    OneMore(s.tracker, before, e);
    IncreasingSnoc(named, x);
    NamingRemembers(s, t, before, x);
    NewNamed(s.tracker, before, e);
    NewStepNotGone(s.policy, s.tracker, before, x);
    var u := Apply(Apply(t, Save(x)), Track(x, Written));
    hide AfterTrack;
    if named != [] {
      CommitCleans(s.policy, u, z, x, e.deletes, y);
      NewStepNotGoneYet(s, before, e);
      hide AfterCommit;
    }
  }

  lemma {:induction false} NewNamed(tracker: Option<int>, before: seq<Happening>, e: Happening)
    requires e.Saved?
    ensures !Spoiled(before + [e]) && !Emptied(before + [e])
    ensures var named, z := NamedIn(tracker, before), Cleaned(tracker, before);
            Cleaned(tracker, before + [e]) == if named != [] then z + [Clean(named[|named| - 1], e.deletes)] else z
  {
    OneMore(tracker, before, e);
  }

  lemma {:induction false} NewStepNotGoneYet(s: Store, before: seq<Happening>, e: Happening)
    requires New(s) && e.Saved? && Increasing(NamedIn(s.tracker, before) + [e.step]) && NamedIn(s.tracker, before) != []
    ensures !Gone(s.policy, Cleaned(s.tracker, before + [e]), e.step)
  {
    var named := NamedIn(s.tracker, before);
    var z := Cleaned(s.tracker, before + [e]);
    NewNamed(s.tracker, before, e);
    IncreasingSnoc(named, e.step);
    forall i: nat | i < |z| ensures z[i].step != e.step {
      if i < |Cleaned(s.tracker, before)| {
        CleanedIsNamed(s.tracker, before, i);
      }
    }
  }

  /** A repeated commit: the step named before is handed to the strategy once more. */
  lemma {:induction false} AgainStep(s: Store, t: Store, before: seq<Happening>, e: Happening, y: int)
    requires New(s) && e.Again? && Remembered(s, t, before) && OnDisk(s, t, before, y)
    requires var named := NamedIn(s.tracker, before); Increasing(named) && named != [] && e.step == named[|named| - 1]
    ensures Remembered(s, Happen(t, e), before + [e]) && OnDisk(s, Happen(t, e), before + [e], y)
  {
    hide Increasing, PolicyAfter, Gone, Steps, NamedIn, Cleaned, Spoiled, Emptied;
    var named, z := NamedIn(s.tracker, before), Cleaned(s.tracker, before);
    OneMore(s.tracker, before, e);
    NamedAgain(s.tracker, before, e);
    LastTwo(named);
    if |named| >= 2 && !Spoiled(before) {
      CommitCleans(s.policy, t, z, e.step, e.deletes, y);
      hide AfterCommit;
    }
  }

  lemma {:induction false} LastTwo(xs: seq<int>)
    requires Increasing(xs)
    ensures |xs| >= 2 ==> 0 < xs[|xs| - 2] < xs[|xs| - 1]
  {
  }

  lemma {:induction false} NamedAgain(tracker: Option<int>, before: seq<Happening>, e: Happening)
    requires e.Again?
    ensures Spoiled(before + [e]) == Spoiled(before) && Emptied(before + [e]) == Emptied(before)
    ensures var named, z := NamedIn(tracker, before), Cleaned(tracker, before);
            Cleaned(tracker, before + [e]) ==
              if |named| >= 2 && !Spoiled(before) then z + [Clean(named[|named| - 2], e.deletes)] else z
  {
    OneMore(tracker, before, e);
  }

  /** A failed commit changes nothing. */
  lemma {:induction false} FailedStep(s: Store, t: Store, before: seq<Happening>, e: Happening, y: int)
    requires New(s) && e.Failed? && Remembered(s, t, before) && OnDisk(s, t, before, y)
    ensures Happen(t, e) == t
    ensures Remembered(s, Happen(t, e), before + [e]) && OnDisk(s, Happen(t, e), before + [e], y)
  {
    OneMore(s.tracker, before, e);
  }

  /** A failed tracker write makes the storage object remember the step named last. */
  lemma {:induction false} WriteFailsStep(s: Store, t: Store, before: seq<Happening>, e: Happening, y: int)
    requires New(s) && e.WriteFails? && !e.outcome.Written? && Remembered(s, t, before) && OnDisk(s, t, before, y)
    ensures Remembered(s, Happen(t, e), before + [e]) && OnDisk(s, Happen(t, e), before + [e], y)
  {
    hide Gone, Steps, PolicyAfter, NamedIn;
    OneMore(s.tracker, before, e);
    EmptiedIsSpoiled(before);
    assert Cleaned(s.tracker, before + [e]) == Cleaned(s.tracker, before);
    hide Cleaned;
  }

  /** What the storage object remembers and what is on disk after any history of successful, failed
      and repeated commits, failed tracker writes and failed deletions, for both strategies and from
      any disk and tracker content that the storage object starts with. */
  lemma {:induction false} HistoryDecides(s: Store, h: seq<Happening>, y: int)
    requires New(s) && Well(s.tracker, h) && Increasing(NamedIn(s.tracker, h))
    ensures Remembered(s, Replay(s, h), h) && OnDisk(s, Replay(s, h), h, y)
  {
    if h == [] {
      NothingHappened(s, y);
    } else {
      var n := |h| - 1;
      var before, e, t := h[..n], h[n], Replay(s, h[..n]);
      assert h == before + [e];
      OneMore(s.tracker, before, e);
      WellBefore(s.tracker, h);
      var named := NamedIn(s.tracker, before);
      if e.Saved? {
        IncreasingSnoc(named, e.step);
      }
      HistoryDecides(s, before, y);
      hide Remembered, OnDisk, Happen, Increasing;
      match e {
        case Saved(_, _) => SavedStep(s, t, before, e, y);
        case Again(_, _) => AgainStep(s, t, before, e, y);
        case Failed(_) => FailedStep(s, t, before, e, y);
        case WriteFails(_, _) => WriteFailsStep(s, t, before, e, y);
      }
    }
  }

  lemma {:induction false} NothingHappened(s: Store, y: int)
    requires New(s)
    ensures Remembered(s, s, []) && OnDisk(s, s, [], y)
  {
  }

  /** Failed commits drop out: the storage object, the tracker and the disk are as if they had not
      happened. */
  lemma {:induction false} FailedCommitsDropOut(s: Store, h: seq<Happening>)
    ensures Replay(s, h) == Replay(s, WithoutFailed(h))
  {
    if h != [] {
      var n := |h| - 1;
      FailedCommitsDropOut(s, h[..n]);
      var rest := WithoutFailed(h[..n]);
      if h[n].Failed? {
        assert WithoutFailed(h) == rest;
      } else {
        assert WithoutFailed(h) == rest + [h[n]] && (rest + [h[n]])[..|rest|] == rest;
      }
    }
  }

  function WithoutFailed(h: seq<Happening>): seq<Happening> {
    if h == [] then []
    else WithoutFailed(h[..|h| - 1]) + if h[|h| - 1].Failed? then [] else [h[|h| - 1]]
  }

  function Empty(p: Policy): Store {
    Store(0, Fresh(p), None, {}, 0)
  }

  // ---------- Keep-latest, exactly ----------

  predicate AllDelete(h: seq<Happening>) {
    forall i :: 0 <= i < |h| ==> (h[i].Saved? || h[i].Again? ==> h[i].deletes)
  }

  predicate NoAgain(h: seq<Happening>) {
    forall i :: 0 <= i < |h| ==> !h[i].Again?
  }

  /** How often `y` or a later step was handed to the strategy. */
  function HandedFrom(z: seq<Clean>, y: int): nat {
    if z == [] then 0 else HandedFrom(z[..|z| - 1], y) + if z[|z| - 1].step >= y then 1 else 0
  }

  predicate Rising(z: seq<Clean>) {
    forall i, j :: 0 <= i < j < |z| ==> z[i].step <= z[j].step
  }

  lemma {:induction false} HandedBounds(z: seq<Clean>, y: int)
    ensures HandedFrom(z, y) <= |z|
  {
    if z != [] {
      HandedBounds(z[..|z| - 1], y);
    }
  }

  /** In a rising list they are the last ones. */
  lemma {:induction false} HandedAreLast(z: seq<Clean>, y: int, i: nat)
    requires Rising(z) && i < |z|
    ensures z[i].step >= y <==> i >= |z| - HandedFrom(z, y)
  {
    var n := |z| - 1;
    HandedBounds(z[..n], y);
    if i < n {
      HandedAreLast(z[..n], y, i);
      if z[n].step < y {
        HandedNone(z, y, i);
      }
    } else if z[n].step < y {
      HandedNone(z, y, n);
    }
  }

  lemma {:induction false} HandedNone(z: seq<Clean>, y: int, i: nat)
    requires Rising(z) && i < |z| && z[|z| - 1].step < y
    ensures HandedFrom(z, y) == 0 && z[i].step < y
  {
    var n := |z| - 1;
    assert i < n ==> z[i].step <= z[n].step;
    if n > 0 {
      HandedNone(z[..n], y, 0);
    }
  }

  lemma {:induction false} GoneWasHanded(p: Policy, z: seq<Clean>, y: int)
    requires p.KeepLatest? && p.max >= 1 && Rising(z) && Gone(p, z, y)
    ensures HandedFrom(z, y) >= p.max
  {
    var i: nat :| i < |z| && z[i].deletes && LetsGo(p, z, i, y);
    hide HandedFrom, Rising;
    HandedAreLast(z, y, i - (p.max - 1));
  }

  lemma {:induction false} HandedIsGone(p: Policy, z: seq<Clean>, y: int, j: nat)
    requires p.KeepLatest? && p.max >= 1 && Rising(z) && (forall i :: 0 <= i < |z| ==> z[i].deletes)
    requires j < |z| && z[j].step == y && HandedFrom(z, y) >= p.max
    ensures Gone(p, z, y)
  {
    HandedBounds(z, y);
    var f := |z| - HandedFrom(z, y);
    HandedAreLast(z, y, f);
    HandedAreLast(z, y, j);
    hide HandedFrom;
    assert f <= j && z[f].step == y;
    assert z[f + p.max - 1].deletes && LetsGo(p, z, f + p.max - 1, y);
  }

  /** Keep-latest has let go of a step exactly when it and later ones were handed over often enough. */
  lemma {:induction false} GoneByCount(p: Policy, z: seq<Clean>, y: int)
    requires p.KeepLatest? && p.max >= 1 && Rising(z) && (forall i :: 0 <= i < |z| ==> z[i].deletes) && y in StepsOf(z)
    ensures Gone(p, z, y) <==> HandedFrom(z, y) >= p.max
  {
    var j :| 0 <= j < |StepsOf(z)| && StepsOf(z)[j] == y;
    assert z[j].step == y;
    hide HandedFrom, Rising, Gone, StepsOf;
    if Gone(p, z, y) {
      GoneWasHanded(p, z, y);
    }
    if HandedFrom(z, y) >= p.max {
      HandedIsGone(p, z, y, j);
    }
  }

  lemma {:induction false} StepInList(z: seq<Clean>, i: nat)
    requires i < |z|
    ensures z[i].step in StepsOf(z)
  {
    assert StepsOf(z)[i] == z[i].step;
  }

  lemma {:induction false} NamedFromNothing(h: seq<Happening>)
    ensures NamedIn(None, h) == Steps(h)
  {
  }

  /** What happening `e` hands over after the steps `c`, if anything. */
  function Adds(c: seq<int>, e: Happening, spoiled: bool): Option<Clean> {
    if e.Saved? && c != [] then Some(Clean(c[|c| - 1], e.deletes))
    else if e.Again? && |c| >= 2 && !spoiled then Some(Clean(c[|c| - 2], e.deletes))
    else None
  }

  /** The history without its last happening, and what that adds to the list handed over. */
  lemma {:induction false} HandedSnoc(h: seq<Happening>) returns (before: seq<Happening>, e: Happening, c: seq<int>, add: Option<Clean>)
    requires h != []
    ensures |before| < |h| && h == before + [e] && c == Steps(before) && add == Adds(c, e, Spoiled(before))
    ensures Steps(h) == (if e.Saved? then c + [e.step] else c)
    ensures Cleaned(None, h) == (if add.Some? then Cleaned(None, before) + [add.value] else Cleaned(None, before))
  {
    before, e := h[..|h| - 1], h[|h| - 1];
    c, add := Steps(before), Adds(Steps(before), e, Spoiled(before));
    assert h == before + [e];
    OneMore(None, before, e);
    NamedFromNothing(before);
  }

  /** Only committed steps other than the latest are handed over, */
  lemma {:induction false} HandedIsEarlier(h: seq<Happening>, i: nat)
    requires i < |Cleaned(None, h)|
    ensures |Steps(h)| >= 2 && Cleaned(None, h)[i].step in Steps(h)[..|Steps(h)| - 1]
    decreases |h|
  {
    assert h != [];
    hide Steps, Cleaned, Spoiled;
    var before, e, c, add := HandedSnoc(h);
    if e.Saved? {
      assert (c + [e.step])[..|c|] == c;
    }
    if i < |Cleaned(None, before)| {
      HandedIsEarlier(before, i);
      EarlierIsThere(c, Cleaned(None, before)[i].step);
    } else if e.Again? {
      assert c[..|c| - 1][|c| - 2] == c[|c| - 2];
    }
  }

  lemma {:induction false} EarlierIsThere(c: seq<int>, x: int)
    requires |c| >= 2 && x in c[..|c| - 1]
    ensures x in c
  {
  }

  lemma {:induction false} EarlierIsLess(c: seq<int>, x: int)
    requires Increasing(c) && |c| >= 2 && x in c[..|c| - 1]
    ensures x <= c[|c| - 2] < c[|c| - 1]
  {
  }

  /** in rising order, */
  lemma {:induction false} HandedRises(h: seq<Happening>, i: nat, j: nat)
    requires Increasing(Steps(h)) && i < j < |Cleaned(None, h)|
    ensures Cleaned(None, h)[i].step <= Cleaned(None, h)[j].step
    decreases |h|
  {
    assert h != [];
    hide Steps, Cleaned, Increasing, Spoiled;
    var before, e, c, add := HandedSnoc(h);
    if e.Saved? {
      IncreasingSnoc(c, e.step);
    }
    if j < |Cleaned(None, before)| {
      HandedRises(before, i, j);
    } else {
      HandedIsEarlier(before, i);
      EarlierIsLess(c, Cleaned(None, before)[i].step);
    }
  }

  lemma {:induction false} HandedDeletes(h: seq<Happening>, i: nat)
    requires AllDelete(h) && i < |Cleaned(None, h)|
    ensures Cleaned(None, h)[i].deletes
    decreases |h|
  {
    assert h != [];
    hide Steps, Cleaned, Spoiled;
    var before, e, c, add := HandedSnoc(h);
    AllDeleteBefore(before, e);
    hide AllDelete;
    if i < |Cleaned(None, before)| {
      HandedDeletes(before, i);
    }
  }

  lemma {:induction false} AllDeleteBefore(before: seq<Happening>, e: Happening)
    requires AllDelete(before + [e])
    ensures AllDelete(before) && (e.Saved? || e.Again? ==> e.deletes)
  {
    var h := before + [e];
    assert h[|before|] == e;
    forall i | 0 <= i < |before| ensures before[i].Saved? || before[i].Again? ==> before[i].deletes {
      assert h[i] == before[i];
    }
  }

  /** and each of them, with those after it, at least once per step, and exactly so without repeated
      commits. */
  lemma {:induction false} HandedOften(h: seq<Happening>, j: nat)
    requires Increasing(Steps(h)) && j < |Steps(h)|
    ensures var z, c := Cleaned(None, h), Steps(h);
            && HandedFrom(z, c[j]) >= |c| - 1 - j
            && (j < |c| - 1 ==> c[j] in StepsOf(z))
            && (NoAgain(h) ==> HandedFrom(z, c[j]) == |c| - 1 - j)
    decreases |h|
  {
    assert h != [];
    hide Steps, Cleaned, HandedFrom, StepsOf, Spoiled;
    var before, e, c, add := HandedSnoc(h);
    var z, z' := Cleaned(None, before), Cleaned(None, h);
    if e.Saved? {
      IncreasingSnoc(c, e.step);
    }
    hide Increasing;
    if j < |c| {
      HandedOften(before, j);
      NoAgainBefore(h);
      StepsKept(z, z', c[j]);
      if add.Some? {
        HandedOne(z, add.value, c[j]);
        AtMostLast(c, j);
      }
    } else {
      NothingHandedYet(h, e.step);
    }
  }

  lemma {:induction false} NoAgainBefore(h: seq<Happening>)
    requires h != []
    ensures NoAgain(h) ==> NoAgain(h[..|h| - 1]) && !h[|h| - 1].Again?
  {
  }

  lemma {:induction false} AtMostLast(c: seq<int>, j: nat)
    requires Increasing(c) && j < |c|
    ensures c[j] <= c[|c| - 1]
  {
  }

  lemma {:induction false} HandedOne(z: seq<Clean>, c: Clean, y: int)
    ensures HandedFrom(z + [c], y) == HandedFrom(z, y) + if c.step >= y then 1 else 0
  {
    assert (z + [c])[..|z|] == z;
  }

  lemma {:induction false} StepsKept(z: seq<Clean>, z': seq<Clean>, x: int)
    requires z <= z'
    ensures x in StepsOf(z) ==> x in StepsOf(z')
    ensures z' != z && |z'| == |z| + 1 ==> z'[|z|].step in StepsOf(z')
  {
    if x in StepsOf(z) {
      var i :| 0 <= i < |z| && StepsOf(z)[i] == x;
      assert StepsOf(z')[i] == x;
    }
    if z' != z && |z'| == |z| + 1 {
      assert StepsOf(z')[|z|] == z'[|z|].step;
    }
  }

  /** The latest step has not been handed over. */
  lemma {:induction false} NothingHandedYet(h: seq<Happening>, x: int)
    requires Increasing(Steps(h)) && Steps(h) != [] && x == Steps(h)[|Steps(h)| - 1]
    ensures HandedFrom(Cleaned(None, h), x) == 0
  {
    var z := Cleaned(None, h);
    if z != [] {
      forall i | 0 <= i < |z| ensures z[i].step < x {
        HandedIsEarlier(h, i);
        EarlierIsLess(Steps(h), z[i].step);
      }
      AllBelow(z, x);
    }
  }

  lemma {:induction false} AllBelow(z: seq<Clean>, x: int)
    requires forall i :: 0 <= i < |z| ==> z[i].step < x
    ensures HandedFrom(z, x) == 0
  {
    if z != [] {
      AllBelow(z[..|z| - 1], x);
    }
  }

  lemma {:induction false} TwoSides(xs: seq<int>, c: nat, x: int)
    requires Increasing(xs) && c <= |xs|
    ensures x in xs <==> x in xs[..c] || x in xs[c..]
    ensures !(x in xs[..c] && x in xs[c..])
  {
    assert xs == xs[..c] + xs[c..];
    if x in xs[..c] {
      var i :| 0 <= i < c && xs[i] == x;
      forall j | 0 <= j < |xs| - c ensures xs[c..][j] != x {
        assert xs[i] < xs[c + j];
      }
    }
  }

  lemma {:induction false} SplitDisjoint(xs: seq<int>, k: nat, x: int)
    requires Increasing(xs)
    ensures x in xs && x !in Older(xs, k) <==> x in Last(xs, k)
    ensures x in Older(xs, k) ==> x in xs
  {
    if |xs| > k {
      TwoSides(xs, |xs| - k, x);
    }
    hide Increasing;
  }

  lemma {:induction false} NotHandedNotGone(p: Policy, z: seq<Clean>, y: int)
    requires (p.KeepInterval? ==> p.interval != 0) && y !in StepsOf(z)
    ensures !Gone(p, z, y)
  {
    forall i: nat | i < |z| ensures z[i].step != y {
      StepInList(z, i);
    }
  }

  /** What keep-latest leaves on disk, step by step. */
  lemma {:induction false} LatestOnDisk(max: nat, h: seq<Happening>, y: int)
    requires max >= 1 && Well(None, h) && Increasing(Steps(h)) && AllDelete(h)
    ensures var z := Cleaned(None, h);
            y in Replay(Empty(KeepLatest(max, [])), h).dirs <==> y in Steps(h) && !(y in StepsOf(z) && HandedFrom(z, y) >= max)
  {
    var s, z := Empty(KeepLatest(max, [])), Cleaned(None, h);
    NamedFromNothing(h);
    HistoryDecides(s, h, y);
    forall i, j | 0 <= i < j < |z| ensures z[i].step <= z[j].step {
      HandedRises(h, i, j);
    }
    forall i | 0 <= i < |z| ensures z[i].deletes {
      HandedDeletes(h, i);
    }
    hide Replay, Steps, Cleaned, Increasing, StepsOf, Gone, HandedFrom, Remembered;
    if y in StepsOf(z) {
      GoneByCount(s.policy, z, y);
    } else {
      NotHandedNotGone(s.policy, z, y);
    }
  }

  /** Steps before the last `max` are always gone. */
  lemma {:induction false} OlderIsGone(max: nat, h: seq<Happening>, y: int)
    requires max >= 1 && Increasing(Steps(h)) && y in Older(Steps(h), max)
    ensures y in StepsOf(Cleaned(None, h)) && HandedFrom(Cleaned(None, h), y) >= max
  {
    var j :| 0 <= j < |Older(Steps(h), max)| && Older(Steps(h), max)[j] == y;
    HandedOften(h, j);
  }

  lemma {:induction false} HandedFalls(z: seq<Clean>, x: int, y: int)
    requires x <= y
    ensures HandedFrom(z, y) <= HandedFrom(z, x)
  {
    if z != [] {
      HandedFalls(z[..|z| - 1], x, y);
    }
  }

  /** A step among the last `max` is not older than the first of them. */
  lemma {:induction false} FirstOfLast(c: seq<int>, max: nat, y: int)
    requires Increasing(c) && max >= 1 && c != [] && y in Last(c, max)
    ensures Last(c, max) != [] && Last(c, max)[0] <= y && Last(c, max)[0] in c
    ensures Last(c, max)[0] == c[|c| - |Last(c, max)|] && y in c
  {
  }

  /** If the oldest step that should remain has been handed over too often, with those after it, it
      is gone. */
  lemma {:induction false} HandedTooOften(max: nat, h: seq<Happening>)
    requires max >= 1 && Increasing(Steps(h)) && Steps(h) != [] && HandedFrom(Cleaned(None, h), Last(Steps(h), max)[0]) >= max
    ensures Last(Steps(h), max)[0] in StepsOf(Cleaned(None, h))
  {
    var c := Steps(h);
    var j := |c| - |Last(c, max)|;
    if j == |c| - 1 {
      NothingHandedYet(h, c[j]);
    }
    HandedOften(h, j);
  }

  /** Keep-latest: after any history of successful, failed and repeated commits and failed tracker
      writes, starting with nothing, the disk holds exactly the last min(n, max(max_to_keep, 1))
      committed steps, if and only if the oldest of these, and those after it, have been handed to the
      strategy less often than that limit. Without repeated commits they always have. */
  lemma {:induction false} KeepsExactlyLatest(maxToKeep: int, h: seq<Happening>)
    requires Well(None, h) && Increasing(Steps(h)) && AllDelete(h)
    ensures var max, c := if maxToKeep > 1 then maxToKeep else 1, Steps(h);
            var dirs := Replay(Empty(KeepLatest(max, [])), h).dirs;
            && (dirs == SetOf(Last(c, max)) <==> c == [] || HandedFrom(Cleaned(None, h), Last(c, max)[0]) < max)
            && (NoAgain(h) ==> dirs == SetOf(Last(c, max)))
  {
    hide Replay, Steps, Cleaned, Increasing, StepsOf, HandedFrom, Older, Last;
    var max, c, z := if maxToKeep > 1 then maxToKeep else 1, Steps(h), Cleaned(None, h);
    var dirs := Replay(Empty(KeepLatest(max, [])), h).dirs;
    forall y ensures y in dirs <==> y in c && !(y in StepsOf(z) && HandedFrom(z, y) >= max) {
      LatestOnDisk(max, h, y);
    }
    if c == [] {
      NothingLast(max);
      forall y ensures y !in dirs {
        LatestOnDisk(max, h, y);
      }
    } else {
      NotNothing(c, max);
      var x := Last(c, max)[0];
      if HandedFrom(z, x) < max {
        forall y ensures y in dirs <==> y in Last(c, max) {
          KeptOrOlder(max, h, y);
        }
      } else {
        HandedTooOften(max, h);
        FirstOfLast(c, max, x);
        assert x !in dirs && x in SetOf(Last(c, max));
      }
      if NoAgain(h) {
        HandedWithoutRepeats(max, h);
      }
    }
  }

  lemma {:induction false} NothingLast(max: nat)
    ensures Last([], max) == []
  {
  }

  lemma {:induction false} NotNothing(c: seq<int>, max: nat)
    requires c != [] && max >= 1
    ensures Last(c, max) != [] && Last(c, max)[0] in Last(c, max)
  {
  }

  lemma {:induction false} KeptOrOlder(max: nat, h: seq<Happening>, y: int)
    requires max >= 1 && Increasing(Steps(h)) && Steps(h) != [] && Last(Steps(h), max) != []
    requires HandedFrom(Cleaned(None, h), Last(Steps(h), max)[0]) < max
    ensures y in Last(Steps(h), max) <==>
            y in Steps(h) && !(y in StepsOf(Cleaned(None, h)) && HandedFrom(Cleaned(None, h), y) >= max)
  {
    var c, z := Steps(h), Cleaned(None, h);
    SplitDisjoint(c, max, y);
    if y in Last(c, max) {
      FirstOfLast(c, max, y);
      HandedFalls(z, Last(c, max)[0], y);
    } else if y in c {
      OlderIsGone(max, h, y);
    }
  }

  lemma {:induction false} HandedWithoutRepeats(max: nat, h: seq<Happening>)
    requires max >= 1 && Increasing(Steps(h)) && Steps(h) != [] && NoAgain(h)
    ensures Last(Steps(h), max) != [] && HandedFrom(Cleaned(None, h), Last(Steps(h), max)[0]) < max
  {
    var c := Steps(h);
    HandedOften(h, |c| - |Last(c, max)|);
  }

  /** A repeated commit uses up a place: with a limit of three, the first of three steps is gone if
      the second was committed twice. */
  lemma {:induction false} RepeatedCommitUsesUpAPlace(x: int, y: int, z: int)
    requires 0 < x < y < z
    ensures var h := [Saved(x, true), Saved(y, true), Again(y, true), Saved(z, true)];
            Steps(h) == [x, y, z] && x !in Replay(Empty(KeepLatest(3, [])), h).dirs
  {
    var s := Empty(KeepLatest(3, []));
    var h1, h2 := [Saved(x, true)], [Saved(x, true), Saved(y, true)];
    var h3, h4 := [Saved(x, true), Saved(y, true), Again(y, true)], [Saved(x, true), Saved(y, true), Again(y, true), Saved(z, true)];
    assert h1[..0] == [] && h2[..1] == h1 && h3[..2] == h2 && h4[..3] == h3;
    assert Steps(h1) == [x] && Steps(h2) == [x, y] && Steps(h3) == [x, y];
    var t1, t2, t3 := Happen(s, h1[0]), Happen(Happen(s, h1[0]), h2[1]), Happen(Happen(Happen(s, h1[0]), h2[1]), h3[2]);
    assert Replay(s, h1) == t1 && Replay(s, h2) == t2 && Replay(s, h3) == t3;
    assert t1.preStep == 0 && t1.tracker == Some(x) && t1.policy == KeepLatest(3, []);
    assert t2.preStep == x && t2.tracker == Some(y) && t2.policy == KeepLatest(3, [x]);
    assert t3.preStep == x && t3.tracker == Some(y) && t3.policy == KeepLatest(3, [x, x]);
    assert Victim(t3.policy, y) == x;
  }

  // ---------- Keep-interval, exactly ----------

  /** Keep-interval: after any such history the disk holds exactly the committed multiples of the
      interval and the latest step, repeated commits or not. */
  lemma {:induction false} KeepsExactlyMultiples(interval: int, h: seq<Happening>)
    requires interval != 0 && Well(None, h) && Increasing(Steps(h)) && Steps(h) != [] && AllDelete(h)
    ensures Replay(Empty(KeepInterval(interval)), h).dirs
            == (set x | x in Steps(h) && (x % interval == 0 || x == Steps(h)[|Steps(h)| - 1]))
  {
    var t := Replay(Empty(KeepInterval(interval)), h);
    forall x ensures x in t.dirs <==> x in Steps(h) && (x % interval == 0 || x == Steps(h)[|Steps(h)| - 1]) {
      KeepsMultiple(interval, h, x);
    }
  }

  lemma {:induction false} KeepsMultiple(interval: int, h: seq<Happening>, x: int)
    requires interval != 0 && Well(None, h) && Increasing(Steps(h)) && Steps(h) != [] && AllDelete(h)
    ensures x in Replay(Empty(KeepInterval(interval)), h).dirs
            <==> x in Steps(h) && (x % interval == 0 || x == Steps(h)[|Steps(h)| - 1])
  {
    hide Replay, Increasing, Cleaned, Steps, Remembered, HandedFrom, LetsGo, PolicyAfter;
    var s, z, c := Empty(KeepInterval(interval)), Cleaned(None, h), Steps(h);
    NamedFromNothing(h);
    HistoryDecides(s, h, x);
    hide Gone, StepsOf, Well, AllDelete;
    if x in StepsOf(z) {
      HandedMultiple(interval, h, x);
    } else {
      NotHandedNotGone(s.policy, z, x);
      if x in c {
        var j :| 0 <= j < |c| && c[j] == x;
        HandedOften(h, j);
      }
    }
  }

  /** A step that was handed to the strategy is not the latest, and is gone unless it is a multiple. */
  lemma {:induction false} HandedMultiple(interval: int, h: seq<Happening>, x: int)
    requires interval != 0 && Well(None, h) && Increasing(Steps(h)) && Steps(h) != [] && AllDelete(h)
    requires x in StepsOf(Cleaned(None, h))
    ensures x in Steps(h) && x != Steps(h)[|Steps(h)| - 1]
    ensures Gone(KeepInterval(interval), Cleaned(None, h), x) <==> x % interval != 0
  {
    hide Increasing, Cleaned, Steps, Gone;
    var z := Cleaned(None, h);
    var i :| 0 <= i < |z| && StepsOf(z)[i] == x;
    HandedIsEarlier(h, i);
    EarlierIsLess(Steps(h), x);
    HandedDeletes(h, i);
    IntervalGone(KeepInterval(interval), z, i);
  }

  lemma {:induction false} IntervalGone(p: Policy, z: seq<Clean>, i: nat)
    requires p.KeepInterval? && p.interval != 0 && i < |z| && z[i].deletes
    ensures Gone(p, z, z[i].step) <==> z[i].step % p.interval != 0
  {
    assert LetsGo(p, z, i, z[i].step) <==> z[i].step % p.interval != 0;
  }

  // ---------- Undisturbed histories ----------

  /** Save a step, name it in the tracker, commit it, all successfully. */
  function Cycle(s: Store, step: int): Store {
    Happen(s, Saved(step, true))
  }

  function Cycles(s: Store, committed: seq<int>): Store {
    if committed == [] then s
    else Cycle(Cycles(s, committed[..|committed| - 1]), committed[|committed| - 1])
  }

  function Undisturbed(committed: seq<int>): seq<Happening> {
    seq(|committed|, i requires 0 <= i < |committed| => Saved(committed[i], true))
  }

  function Handed(steps: seq<int>): seq<Clean> {
    seq(|steps|, i requires 0 <= i < |steps| => Clean(steps[i], true))
  }

  /** The policy has let go of the named step `x`. */
  predicate LetGo(p: Policy, named: seq<int>, x: int)
    requires p.KeepInterval? ==> p.interval != 0
  {
    match p
    case KeepLatest(max, _) => x in Older(named, max)
    case KeepInterval(interval) => x in Older(named, 1) && x % interval != 0
  }

  /** The storage object after committing undisturbed, as a function of the commit history. */
  ghost predicate Remembers(s: Store, t: Store, committed: seq<int>)
    requires New(s)
  {
    var named := Named(s.tracker, committed);
    && t.tracker == (if named == [] then None else Some(named[|named| - 1]))
    && (named == [] ==> t.preStep == 0)
    && (committed != [] ==> t.preStep == if |named| >= 2 then named[|named| - 2] else 0)
    && t.policy == (if s.policy.KeepInterval? then s.policy
                    else s.policy.(steps := Last(Older(named, 1), s.policy.max - 1)))
  }

  /** Whether step `x` is on disk after committing, as a function of the commit history. */
  ghost predicate Holds(s: Store, t: Store, committed: seq<int>, x: int)
    requires New(s)
  {
    x in t.dirs <==> (x in s.dirs || x in committed) && !LetGo(s.policy, Named(s.tracker, committed), x)
  }

  lemma {:induction false} UndisturbedSnoc(committed: seq<int>)
    requires committed != []
    ensures var h, n := Undisturbed(committed), |committed| - 1;
            |h| == n + 1 && h[..n] == Undisturbed(committed[..n]) && h[n] == Saved(committed[n], true)
  {
  }

  lemma {:induction false} UndisturbedSteps(committed: seq<int>)
    ensures Steps(Undisturbed(committed)) == committed && !Spoiled(Undisturbed(committed)) && !Emptied(Undisturbed(committed))
  {
    if committed != [] {
      var n := |committed| - 1;
      UndisturbedSnoc(committed);
      UndisturbedSteps(committed[..n]);
      assert committed == committed[..n] + [committed[n]];
    }
  }

  lemma {:induction false} UndisturbedReplay(s: Store, committed: seq<int>)
    ensures Replay(s, Undisturbed(committed)) == Cycles(s, committed)
  {
    if committed != [] {
      UndisturbedSnoc(committed);
      UndisturbedReplay(s, committed[..|committed| - 1]);
      hide Happen;
    }
  }

  lemma {:induction false} HandedAppend(xs: seq<int>, x: int)
    ensures Handed(xs + [x]) == Handed(xs) + [Clean(x, true)]
  {
  }

  lemma {:induction false} UndisturbedHanded(tracker: Option<int>, committed: seq<int>)
    ensures Cleaned(tracker, Undisturbed(committed)) == Handed(Older(Named(tracker, committed), 1))
  {
    hide Older, Undisturbed, Cleaned, Steps, Spoiled, Emptied, Handed, Named;
    if committed == [] {
      NothingHandedAtFirst(tracker);
    } else {
      var n := |committed| - 1;
      UndisturbedSnoc(committed);
      UndisturbedHanded(tracker, committed[..n]);
      UndisturbedSteps(committed[..n]);
      assert Undisturbed(committed) == Undisturbed(committed[..n]) + [Saved(committed[n], true)];
      assert committed == committed[..n] + [committed[n]];
      HandedStep(tracker, Undisturbed(committed[..n]), committed[..n], committed[n]);
    }
  }

  lemma {:induction false} HandedStep(tracker: Option<int>, before: seq<Happening>, c: seq<int>, x: int)
    requires Steps(before) == c && Cleaned(tracker, before) == Handed(Older(Named(tracker, c), 1))
    ensures Cleaned(tracker, before + [Saved(x, true)]) == Handed(Older(Named(tracker, c + [x]), 1))
  {
    hide Older, Cleaned, Steps, Spoiled, Emptied, Handed;
    var named := Named(tracker, c);
    NewNamed(tracker, before, Saved(x, true));
    assert Named(tracker, c + [x]) == named + [x];
    hide Named;
    OlderOne(named, x);
    if named != [] {
      HandedAppend(Older(named, 1), named[|named| - 1]);
    }
  }

  lemma {:induction false} NothingHandedAtFirst(tracker: Option<int>)
    ensures Cleaned(tracker, Undisturbed([])) == Handed(Older(Named(tracker, []), 1))
  {
    assert |Older(Named(tracker, []), 1)| == 0;
  }

  lemma {:induction false} OlderOne(xs: seq<int>, x: int)
    ensures Older(xs + [x], 1) == xs
    ensures xs != [] ==> xs == Older(xs, 1) + [xs[|xs| - 1]]
    ensures xs == [] ==> Older(xs, 1) == []
  {
  }

  /** Keep-latest then lets go of all but the last `max` named steps. */
  lemma {:induction false} UndisturbedGone(p: Policy, named: seq<int>, y: int)
    requires (p.KeepLatest? && p.max >= 1) || (p.KeepInterval? && p.interval != 0)
    ensures Gone(p, Handed(Older(named, 1)), y) <==> LetGo(p, named, y)
  {
    var z := Handed(Older(named, 1));
    if Gone(p, z, y) {
      var i: nat :| i < |z| && z[i].deletes && LetsGo(p, z, i, y);
      if p.KeepLatest? {
        assert Older(named, p.max)[i - (p.max - 1)] == y;
      } else {
        assert Older(named, 1)[i] == y;
      }
    }
    if LetGo(p, named, y) {
      if p.KeepLatest? {
        var j :| 0 <= j < |Older(named, p.max)| && Older(named, p.max)[j] == y;
        assert z[j + p.max - 1].deletes && LetsGo(p, z, j + p.max - 1, y);
      } else {
        var j :| 0 <= j < |Older(named, 1)| && Older(named, 1)[j] == y;
        assert z[j].deletes && LetsGo(p, z, j, y);
      }
    }
  }

  /** Refinement of the incremental state by the commit history, for both strategies, from any disk
      and any tracker content the storage object starts with, when nothing fails or is repeated. */
  lemma {:induction false} CommitHistory(s: Store, committed: seq<int>, y: int)
    requires New(s) && Increasing(Named(s.tracker, committed))
    ensures Remembers(s, Cycles(s, committed), committed)
    ensures Holds(s, Cycles(s, committed), committed, y)
  {
    var h := Undisturbed(committed);
    UndisturbedSteps(committed);
    UndisturbedReplay(s, committed);
    UndisturbedHanded(s.tracker, committed);
    assert Well(s.tracker, h);
    HistoryDecides(s, h, y);
    hide Replay, Cycles, Cleaned, Steps, Undisturbed, Increasing, Spoiled, Emptied, Well, Remembers, Holds, Remembered, OnDisk, Handed;
    UndisturbedRemembers(s, Cycles(s, committed), committed);
    UndisturbedHolds(s, Cycles(s, committed), committed, y);
  }

  lemma {:induction false} UndisturbedRemembers(s: Store, t: Store, committed: seq<int>)
    requires New(s) && Remembered(s, t, Undisturbed(committed))
    ensures Remembers(s, t, committed)
  {
    var named := Named(s.tracker, committed);
    UndisturbedSteps(committed);
    UndisturbedHanded(s.tracker, committed);
    assert StepsOf(Handed(Older(named, 1))) == Older(named, 1);
    hide Cleaned, Steps, Undisturbed, Spoiled, Emptied, Handed;
  }

  lemma {:induction false} UndisturbedHolds(s: Store, t: Store, committed: seq<int>, y: int)
    requires New(s) && OnDisk(s, t, Undisturbed(committed), y)
    ensures Holds(s, t, committed, y)
  {
    hide Gone, LetGo, Cleaned, Steps, Undisturbed, Handed;
    UndisturbedSteps(committed);
    UndisturbedHanded(s.tracker, committed);
    UndisturbedGone(s.policy, Named(s.tracker, committed), y);
  }

  lemma {:induction false} LastOne(xs: seq<int>)
    requires xs != []
    ensures Last(xs, 1) == [xs[|xs| - 1]]
    ensures forall k: nat :: k >= 1 ==> xs[|xs| - 1] in Last(xs, k)
  {
    forall k: nat | k >= 1 ensures xs[|xs| - 1] in Last(xs, k) {
      assert Last(xs, k)[|Last(xs, k)| - 1] == xs[|xs| - 1];
    }
  }

  /** A restart forgets the step list: what the old storage object kept, other than the step the
      tracker names, is never deleted again. */
  lemma {:induction false} RestartStrandsSteps(max: nat, before: seq<int>, after: seq<int>, x: int)
    requires max >= 1 && before != [] && Increasing(before + after)
    ensures var s := Cycles(Empty(KeepLatest(max, [])), before);
            var last := before[|before| - 1];
            x in Cycles(Apply(s, Restart), after).dirs <==>
            (x in Last(before, max) && x != last) || x in Last([last] + after, max)
  {
    hide Cycles, Increasing, Older, Last;
    var last := before[|before| - 1];
    var s0 := Empty(KeepLatest(max, []));
    IncreasingParts(before, after);
    assert Named(s0.tracker, before) == before;
    CommitHistory(s0, before, x);
    var s := Apply(Cycles(s0, before), Restart);
    assert Named(s.tracker, after) == [last] + after;
    CommitHistory(s, after, x);
    SplitDisjoint(before, max, x);
    SplitDisjoint([last] + after, max, x);
    LastOne(before);
    if x in before && x != last {
      NamedBefore(before, after, x);
    }
  }

  lemma {:induction false} IncreasingParts(before: seq<int>, after: seq<int>)
    requires before != [] && Increasing(before + after)
    ensures Increasing(before) && Increasing([before[|before| - 1]] + after)
  {
    var all, named := before + after, [before[|before| - 1]] + after;
    assert forall i :: 0 <= i < |before| ==> before[i] == all[i];
    assert forall i :: 0 <= i < |named| ==> named[i] == all[|before| - 1 + i];
  }

  /** A step named before the restart, other than the last one, is not named after it. */
  lemma {:induction false} NamedBefore(before: seq<int>, after: seq<int>, x: int)
    requires before != [] && Increasing(before + after) && x in before && x != before[|before| - 1]
    ensures x !in [before[|before| - 1]] + after
  {
    var all := before + after;
    var i :| 0 <= i < |before| && before[i] == x;
    forall j | 0 <= j < |after| ensures after[j] != x {
      assert all[i] < all[|before| + j];
    }
  }

  /** Naming and committing the oldest listed step again deletes it when the list is full. */
  lemma {:induction false} CycleDeletesOldest(s: Store, x: int)
    requires s.policy.KeepLatest? && s.policy.max >= 2 && |s.policy.steps| == s.policy.max - 1
    requires s.policy.steps[0] == x && s.tracker.Some? && s.tracker.value != x && s.tracker.value != 0
    ensures Cycle(s, x).tracker == Some(x) && x !in Cycle(s, x).dirs
  {
    assert Victim(s.policy, s.tracker.value) == x;
  }

  /** Keep-latest with two or more steps is not: going back to the oldest step still kept and
      committing it deletes exactly the step the tracker names, if and only if as many steps as the
      limit have been committed. */
  lemma {:induction false} GoingBackDeletesNamedStep(max: nat, committed: seq<int>)
    requires max >= 2 && |committed| >= 2 && Increasing(committed)
    ensures var s, x := Cycles(Empty(KeepLatest(max, [])), committed), Last(committed, max)[0];
            var t := Cycle(s, x);
            x in s.dirs && t.tracker == Some(x) && (x !in t.dirs <==> |committed| >= max)
  {
    hide Cycles, Cycle, Increasing, Older, Last;
    var s0 := Empty(KeepLatest(max, []));
    OldestKept(committed, max);
    var x := Last(committed, max)[0];
    assert Named(s0.tracker, committed) == committed;
    CommitHistory(s0, committed, x);
    SplitDisjoint(committed, max, x);
    var s := Cycles(s0, committed);
    if |committed| >= max {
      CycleDeletesOldest(s, x);
    } else {
      CycleKeeps(s, x);
    }
  }

  /** The oldest step kept is not the latest, and heads the list of the strategy. */
  lemma {:induction false} OldestKept(xs: seq<int>, max: nat)
    requires |xs| >= 2 && max >= 2 && Increasing(xs)
    ensures |Last(xs, max)| >= 2 && 0 < Last(xs, max)[0] < xs[|xs| - 1]
    ensures |xs| >= max ==> |Last(Older(xs, 1), max - 1)| == max - 1 && Last(Older(xs, 1), max - 1)[0] == Last(xs, max)[0]
    ensures |xs| < max ==> |Last(Older(xs, 1), max - 1)| + 1 < max
  {
    assert |xs| >= max ==> Last(xs, max)[0] == xs[|xs| - max];
  }

  /** A list that is not full deletes nothing. */
  lemma {:induction false} CycleKeeps(s: Store, x: int)
    requires s.policy.KeepLatest? && |s.policy.steps| + 1 != s.policy.max
    ensures Cycle(s, x).tracker == Some(x) && x in Cycle(s, x).dirs
  {
  }
}
