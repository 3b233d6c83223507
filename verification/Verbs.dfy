/** The agent's verbs (src/agent/script.ts), as what each does to the device the moment it
    reaches it; what goes on after that by itself is Device's. */
module Verbs {
  import opened Wrappers
  import opened Device

  /** begin, after the agent was written. */
  function Begun(s: Dev): Dev {
    s.(agent := true, run := RunDir(false, false, false, false), disarmed := false, dog := Off, late := None)
  }

  /** arm: the snapshot whole, the boot-time copy if it fits, the watchdog started at `t`, asleep
      by `t + delay`; it wrote when it fires at `t + wrote`, in whole seconds of its own clock. */
  function ArmedAt(s: Dev, t: int, timeout: int, delay: nat, wrote: nat): Dev {
    s.(dog := Starting, boot := s.copied, firesAt := t + delay + timeout * 1000, fires := (t + wrote + s.skew) / 1000 + timeout)
  }

  /** prepare, stage or finalise begins: prepare first reverts what is staged. */
  function Begins(s: Dev, verb: Work): Dev {
    s.(work := verb, staged := s.staged && !verb.Preparing?)
  }

  /** revert: a stage verb that goes on by itself has its batch to do again. */
  function Reverted(s: Dev): Dev {
    s.(staged := false, work := if s.work.Staged? then Idle else if s.work.Batched? then Staging else s.work)
  }

  /** asleep: the seconds left by the device's clock; or dead before it restored anything; or it fired. */
  datatype Sleep = Sleeping(seconds: int) | DeadAsleep | Fired

  function AsleepAnswer(s: Dev, t: int): Sleep {
    if s.agent && s.dog.Asleep? && s.run.RunDir? && !s.run.confirmed && !s.run.restoring then Sleeping(s.fires - (t + s.skew) / 1000)
    else if s.agent && DiedAsleep(s) then DeadAsleep
    else Fired
  }

  /** rollback-now: whether it woke the watchdog (or found it restoring, or started a dead one again) ... */
  predicate Wakes(s: Dev) {
    s.agent && (s.dog.Asleep? || (s.run.RunDir? && s.run.restoring) || (DiedAsleep(s) && !s.run.confirmed))
  }

  /** ... and what that does. */
  function Woken(s: Dev, t: int): Dev {
    var again := s.agent && DiedAsleep(s) && !s.run.confirmed;
    s.(dog := if s.agent && s.dog.Asleep? then Awake else if again then Asleep else s.dog,
       firesAt := if again then t else s.firesAt)
  }

  /** drop, first: the flag set and the sleep ended, if a watchdog runs ... */
  function DropBegun(s: Dev): Dev {
    s.(run := if s.run.RunDir? && Running(s.dog) then s.run.(confirmed := true) else s.run,
       dog := if s.dog.Asleep? then Awake else s.dog)
  }

  /** ... then, once it is gone, everything of the run's. */
  function Dropped(s: Dev): Dev {
    s.(boot := false, run := NoRun, disarmed := false, agent := false)
  }

  /** done: the marker and the agent go, and the directory unless a watchdog still has it. */
  function Finished(s: Dev): Dev {
    s.(agent := false, disarmed := false, run := if Running(s.dog) then s.run else NoRun)
  }

  /** commit-finished. */
  predicate SaysCommitted(s: Dev) {
    s.agent && s.run.RunDir? && s.run.committed
  }

  /** What the device wrote of when it fires is no later than it does. */
  predicate ClockTold(s: Dev) {
    s.fires * 1000 <= s.firesAt + s.skew
  }

  // ----- What each keeps -----

  /** What a verb keeps that disarms nothing. */
  predicate Safe(s: Dev, s2: Dev) {
    && (Armed(s) ==> Armed(s2))
    && GoesOn(s, s2)
    && (Untouched(s) ==> Untouched(s2))
    && (Slept(s) ==> Slept(s2))
    && (s.asks == [] ==> s2.asks == [])
  }

  lemma {:induction false} ProgressIsSafe(s: Dev, s2: Dev, t: int)
    requires Progress(s, s2, t)
    ensures Safe(s, s2)
  {
  }

  lemma {:induction false} BeginKeeps(s: Dev)
    requires Inv(s) && Unarmed(s)
    ensures Inv(Begun(s)) && Unarmed(Begun(s)) && Uncommitted(Begun(s))
  {
  }

  lemma {:induction false} ArmKeeps(s: Dev, t: int, timeout: nat, delay: nat, wrote: nat)
    requires Inv(s) && Unarmed(s) && s.agent
    ensures var s2 := ArmedAt(s, t, timeout, delay, wrote);
      Inv(s2) && Armed(s2) && Uncommitted(s2) && Untouched(s2) && Installed(s2) && OnTime(s2, t)
    ensures wrote <= delay ==> ClockTold(ArmedAt(s, t, timeout, delay, wrote))
    // It sleeps that long from when it falls asleep, and wrote so to the second.
    ensures t <= ArmedAt(s, t, timeout, delay, wrote).firesAt - timeout * 1000 <= t + delay
    ensures t + wrote + s.skew - 1000 < (ArmedAt(s, t, timeout, delay, wrote).fires - timeout) * 1000 <= t + wrote + s.skew
  {
  }

  lemma {:induction false} BeginWorkKeeps(s: Dev, verb: Work)
    requires Inv(s) && s.agent && Uncommitted(s)
    requires verb.Preparing? || verb.Staging? || (verb.Committing? && ReadyToCommit(s))
    ensures Inv(Begins(s, verb))
    ensures forall t :: KeepsGuard(s, Begins(s, verb), t)
  {
  }

  lemma {:induction false} RevertKeepsInv(s: Dev)
    requires Inv(s) && !s.work.Committing?
    ensures Inv(Reverted(s))
  {
  }

  lemma {:induction false} RevertKeeps(s: Dev)
    requires Inv(s) && !s.work.Committing?
    ensures Inv(Reverted(s)) && Safe(s, Reverted(s))
    ensures forall t :: KeepsGuard(s, Reverted(s), t)
    ensures Uncommitted(s) ==> Uncommitted(Reverted(s))
  {
    RevertKeepsInv(s);
    RevertKeepsGuard(s);
  }

  lemma {:induction false} RevertKeepsGuard(s: Dev)
    requires Inv(s) && !s.work.Committing?
    ensures forall t :: KeepsGuard(s, Reverted(s), t)
  {
  }

  /** One woken restores from then on: awake, already restoring, or dead and started again with no
      sleep left. */
  lemma {:induction false} WakeKeeps(s: Dev, t: int)
    requires Inv(s) && Armed(s)
    ensures Inv(Woken(s, t)) && Safe(s, Woken(s, t))
    ensures s.agent && (s.dog.Asleep? || s.dog.Restoring? || s.dog.Waiting? || s.dog.Dead?) ==> Wakes(s)
    ensures Wakes(s) ==> Coming(Woken(s, t), t) && !Woken(s, t).dog.Dead? && Woken(s, t).deaths == s.deaths
  {
  }

  /** One not woken is past its sleep already. */
  lemma {:induction false} WakesOrUp(s: Dev)
    requires Inv(s) && Armed(s) && Slept(s) && Installed(s)
    ensures Wakes(s) || Up(s)
  {
  }

  lemma {:induction false} DropBegunKeeps(s: Dev)
    requires Inv(s) && s.asks == []
    ensures Inv(DropBegun(s))
    ensures Untouched(s) ==> Untouched(DropBegun(s))
    ensures (NoneToCome(s) ==> NoneToCome(DropBegun(s))) && (GoneBack(s) ==> GoneBack(DropBegun(s)))
  {
  }

  lemma {:induction false} DroppedKeeps(s: Dev)
    requires Inv(s) && s.asks == [] && !Running(s.dog)
    ensures Inv(Dropped(s)) && NoneToCome(Dropped(s)) && !Dropped(s).agent
    ensures Untouched(s) ==> Untouched(Dropped(s))
    ensures GoneBack(s) ==> GoneBack(Dropped(s))
  {
  }

  lemma {:induction false} FinishKeeps(s: Dev)
    requires Inv(s) && Slept(s)
    ensures Inv(Finished(s))
    ensures Untouched(s) ==> Untouched(Finished(s))
    ensures Kept(s) ==> Kept(Finished(s)) && SameContents(s, Finished(s))
    ensures NoneToCome(s) ==> NoneToCome(Finished(s))
  {
    forall k | 0 <= k < |s.asks| ensures AskInv(Finished(s), s.asks[k]) { assert AskInv(s, s.asks[k]); }
  }
}
