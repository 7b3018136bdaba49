/** Checkpoint retention of storage.py: a storage that remembers the step its tracker file named
    before the last write and, on a successful commit of another step, hands that previous step
    to a deletion strategy. */
module Retention {
  import opened Basics
  import opened Runs

  // ---------- The state and its operations as functions ----------

  /** A deletion strategy with its state. */
  datatype Policy = KeepLatest(max: nat, steps: seq<int>) | KeepInterval(interval: int)

  /** The storage object (preStep, policy) and the disk (tracker, dirs). `high` is history: the
      largest step that the tracker has named. */
  datatype Store = Store(preStep: int, policy: Policy, tracker: Option<int>, dirs: set<int>, high: int)

  /** How writing the tracker file ends: the last two raise OSError, before or after `open`
      has truncated the file. */
  datatype WriteOutcome = Written | NotOpened | Truncated

  datatype Op =
    | Save(step: int)                                    // the checkpoint directory appears
    | Track(step: int, outcome: WriteOutcome)            // write(str(step), tracker file)
    | Commit(step: int, success: bool, deletes: bool)    // `deletes`: rmtree does not raise
    | Restart                                            // a new process, a new storage object

  function Fresh(p: Policy): Policy {
    if p.KeepLatest? then p.(steps := []) else p
  }

  /** `write` on the tracker path: the old content becomes preStep even if writing then fails. */
  function AfterTrack(s: Store, step: int, outcome: WriteOutcome): Store {
    var t := if s.tracker.Some? then s.(preStep := s.tracker.value) else s;
    match outcome
    case Written => t.(tracker := Some(step), high := if step > s.high then step else s.high)
    case NotOpened => t
    case Truncated => t.(tracker := None)
  }

  predicate Deletes(p: Policy, step: int) {
    match p
    case KeepLatest(max, steps) => |steps| + 1 == max
    case KeepInterval(interval) => interval != 0 && step % interval != 0
  }

  /** The step `clean_up(step)` removes, when it removes one. */
  function Victim(p: Policy, step: int): int {
    if p.KeepLatest? then (p.steps + [step])[0] else step
  }

  function AfterCleanUp(p: Policy, step: int): Policy {
    match p
    case KeepLatest(max, steps) =>
      var more := steps + [step];
      KeepLatest(max, if |more| == max then more[1..] else more)
    case KeepInterval(_) => p
  }

  predicate Cleans(s: Store, step: int, success: bool) {
    success && s.preStep != step && s.preStep != 0
  }

  function AfterCommit(s: Store, step: int, success: bool, deletes: bool): Store {
    if !Cleans(s, step, success) then s
    else
      var gone := if deletes && Deletes(s.policy, s.preStep) then {Victim(s.policy, s.preStep)} else {};
      s.(policy := AfterCleanUp(s.policy, s.preStep), dirs := s.dirs - gone)
  }

  function Apply(s: Store, op: Op): Store {
    match op
    case Save(step) => s.(dirs := s.dirs + {step})
    case Track(step, outcome) => AfterTrack(s, step, outcome)
    case Commit(step, success, deletes) => AfterCommit(s, step, success, deletes)
    case Restart => s.(preStep := 0, policy := Fresh(s.policy))
  }

  // ---------- The objects of the source ----------

  class Disk {
    var tracker: Option<int>
    var dirs: set<int>
  }

  /** KeepLatestStepStrategy. */
  class KeepLatestStepStrategy {
    const maxToKeep: nat
    var steps: seq<int>

    constructor (maxToKeep: int)
      ensures this.maxToKeep == (if maxToKeep > 1 then maxToKeep else 1) && steps == []
    {
      this.maxToKeep := if maxToKeep > 1 then maxToKeep else 1;
      steps := [];
    }

    method CleanUp(step: int, disk: Disk, deletes: bool)
      modifies this, disk`dirs
      ensures KeepLatest(maxToKeep, steps) == AfterCleanUp(KeepLatest(maxToKeep, old(steps)), step)
      ensures var p := KeepLatest(maxToKeep, old(steps));
              disk.dirs == old(disk.dirs) - if deletes && Deletes(p, step) then {Victim(p, step)} else {}
    {
      steps := steps + [step];
      if |steps| == maxToKeep {
        var rmStep := steps[0];
        steps := steps[1..];
        if deletes {
          disk.dirs := disk.dirs - {rmStep};
        }
      }
    }
  }

  /** KeepStepIntervalStrategy. */
  class KeepStepIntervalStrategy {
    const keepInterval: int

    constructor (keepInterval: int)
      ensures this.keepInterval == keepInterval
    {
      this.keepInterval := keepInterval;
    }

    /** `raised` is the ZeroDivisionError of a zero interval, which nothing catches. */
    method CleanUp(step: int, disk: Disk, deletes: bool) returns (raised: bool)
      modifies disk`dirs
      ensures raised <==> keepInterval == 0
      ensures var p := KeepInterval(keepInterval);
              disk.dirs == old(disk.dirs) - if deletes && Deletes(p, step) then {Victim(p, step)} else {}
    {
      if keepInterval == 0 {
        return true;
      }
      raised := false;
      if step % keepInterval == 0 {
        return;
      }
      if deletes {
        disk.dirs := disk.dirs - {step};
      }
    }
  }

  datatype Strategy = Latest(latest: KeepLatestStepStrategy) | Interval(interval: KeepStepIntervalStrategy)

  /** PosixStorageWithDeletion. */
  class PosixStorageWithDeletion {
    const strategy: Strategy
    const disk: Disk
    var preStep: int

    ghost function Abstract(high: int): (s: Store)
      reads this, disk, if strategy.Latest? then {strategy.latest} else {}
    {
      var policy :=
        if strategy.Latest? then KeepLatest(strategy.latest.maxToKeep, strategy.latest.steps)
        else KeepInterval(strategy.interval.keepInterval);
      Store(preStep, policy, disk.tracker, disk.dirs, high)
    }

    constructor (strategy: Strategy, disk: Disk)
      ensures this.strategy == strategy && this.disk == disk && preStep == 0
    {
      this.strategy := strategy;
      this.disk := disk;
      preStep := 0;
    }

    /** `write` of a path that ends with the tracker file name. */
    method WriteTracker(step: int, outcome: WriteOutcome, ghost high: int)
      modifies this, disk
      ensures Abstract(AfterTrack(old(Abstract(high)), step, outcome).high)
              == AfterTrack(old(Abstract(high)), step, outcome)
    {
      if disk.tracker.Some? {
        preStep := disk.tracker.value;
      }
      match outcome {
        case Written => disk.tracker := Some(step);
        case NotOpened =>
        case Truncated => disk.tracker := None;
      }
    }

    method CommitStep(step: int, success: bool, deletes: bool, ghost high: int) returns (raised: bool)
      modifies disk`dirs, if strategy.Latest? then {strategy.latest} else {}
      ensures Abstract(high) == AfterCommit(old(Abstract(high)), step, success, deletes)
      ensures raised <==> Cleans(old(Abstract(high)), step, success) && Abstract(high).policy == KeepInterval(0)
    {
      raised := false;
      if !success || preStep == step || preStep == 0 {
        return;
      }
      match strategy {
        case Latest(latest) => latest.CleanUp(preStep, disk, deletes);
        case Interval(interval) => raised := interval.CleanUp(preStep, disk, deletes);
      }
    }
  }

  // ---------- The step the tracker names survives ----------

  ghost predicate Step(s: Store, op: Op, t: Store) {
    t == Apply(s, op)
  }

  /** Commits name the step the tracker holds. */
  ghost predicate NamingStep(s: Store, op: Op, t: Store) {
    Step(s, op, t) && (op.Commit? ==> s.tracker == Some(op.step))
  }

  /** Moreover the steps written to the tracker never decrease. */
  ghost predicate MonotoneStep(s: Store, op: Op, t: Store) {
    NamingStep(s, op, t) && (op.Track? ==> op.step >= s.high)
  }

  ghost predicate BelowHigh(s: Store) {
    && 0 <= s.high && s.preStep <= s.high
    && (s.tracker.Some? ==> s.tracker.value == s.high)
    && (s.policy.KeepLatest? ==> forall i :: 0 <= i < |s.policy.steps| ==> s.policy.steps[i] < s.high)
  }

  lemma {:induction false} BelowHighStep(s: Store, op: Op, t: Store)
    requires BelowHigh(s) && MonotoneStep(s, op, t)
    ensures BelowHigh(t)
    ensures s.tracker.Some? && s.tracker.value in s.dirs ==> s.tracker.value in t.dirs
  {
  }

  /** Retention safety: with either strategy, in every run of successful, failed and repeated
      commits, failed tracker writes, failed deletions and restarts, in which commits name the
      tracker's step and that step never decreases, no operation deletes the step the tracker
      names. */
  lemma {:induction false} NamedStepSurvives(tr: seq<Store>, ops: seq<Op>, n: nat)
    requires Run(MonotoneStep, tr, ops) && BelowHigh(tr[0]) && n < |ops|
    requires tr[n].tracker.Some? && tr[n].tracker.value in tr[n].dirs
    ensures tr[n].tracker.value in tr[n + 1].dirs
  {
    forall s, op, t | BelowHigh(s) && MonotoneStep(s, op, t) ensures BelowHigh(t) {
      BelowHighStep(s, op, t);
    }
    Invariant(MonotoneStep, BelowHigh, tr, ops, n);
    assert MonotoneStep(tr[n], ops[n], tr[n + 1]);
    BelowHighStep(tr[n], ops[n], tr[n + 1]);
  }

  /** A policy that only ever deletes the step it is given. */
  ghost predicate DeletesGivenStep(s: Store) {
    s.policy.KeepInterval? || (s.policy.max == 1 && s.policy.steps == [])
  }

  /** Keep-interval, and keep-latest with one step, are safe even if the tracker goes back. */
  lemma {:induction false} SafeWithoutMonotonicity(tr: seq<Store>, ops: seq<Op>, n: nat)
    requires Run(NamingStep, tr, ops) && DeletesGivenStep(tr[0]) && n < |ops|
    requires tr[n].tracker.Some? && tr[n].tracker.value in tr[n].dirs
    ensures tr[n].tracker.value in tr[n + 1].dirs
  {
    forall s, op, t | DeletesGivenStep(s) && NamingStep(s, op, t) ensures DeletesGivenStep(t) {
    }
    Invariant(NamingStep, DeletesGivenStep, tr, ops, n);
    assert NamingStep(tr[n], ops[n], tr[n + 1]);
  }

  /** Commits have to name the tracker's step: with any interval, if writing the tracker fails and
      the step that should have been named is committed all the same, the clean-up deletes the step
      the tracker still names, unless that is a multiple. */
  lemma {:induction false} UnnamedCommitDeletesNamedStep(s: Store, y: int)
    requires s.policy.KeepInterval? && s.policy.interval != 0
    requires s.tracker.Some? && s.tracker.value != y && s.tracker.value != 0
    ensures var t := Apply(Apply(s, Track(y, NotOpened)), Commit(y, true, true));
            t.tracker == s.tracker && (s.tracker.value in t.dirs <==> s.tracker.value in s.dirs && s.tracker.value % s.policy.interval == 0)
  {
    assert Victim(s.policy, s.tracker.value) == s.tracker.value;
  }
}
