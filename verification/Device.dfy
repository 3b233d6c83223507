/** The device's side of an apply (src/agent/script.ts), as steps on its flag files.

    A device is a record: what a rollback puts back, the run's flag files, and
    the processes at work on it (the watchdog, the step verb last sent, every
    `disarm` still running). Each `Action` is one step of one of those processes,
    or an accident: a watchdog killed asleep, the power going. Interleaving them
    freely gives every run; a verb whose answer was lost is simply a process that
    goes on by itself. */
module Device {
  import opened Wrappers

  // ----- State -----

  /** /etc/config against this run: the snapshot's, the declared one, or part of each. */
  datatype Live = Old | New | Part

  /** Where the watchdog is in its script. */
  datatype Dog =
    | Off         // never started
    | Starting    // started, not asleep yet
    | Asleep      // in its own `sleep`
    | Awake       // its sleep over
    | Checked     // found no `confirmed`, has not marked `restoring` yet
    | Leaving     // found `confirmed`
    | Clearing    // its marker left, its directory about to go
    | StoodDown   // ended, having restored nothing
    | Restoring   // past the point of no return
    | Waiting     // restored, waiting to hear access is back
    | Recovered   // restored and cleaned up (told so, or rebooted)
    | Dead        // killed before it marked `restoring`, or standing down
    | Cut         // the device restarted: gone with /tmp

  /** The step verb last sent, which goes on alone once its answer is lost. */
  datatype Work = Idle | Preparing | Prepared | Staging | Batched | Staged | Committing | Marking | Committed | Broke

  /** A `disarm` at work, by what it does next. */
  datatype Ask =
    | Arrived         // look for a stand-down, a death or a running watchdog
    | Flagging        // set `confirmed`
    | Killing         // end the watchdog's sleep
    | Settling(since: int)  // wait, five seconds at most, for it to be gone
    | Looking         // look: still running, the flag set, not restoring?
    | Unseen          // it was not so: look for the stand-down's marker
    | Standing        // evidence found: drop the boot-time copies
    | Said(kept: bool)

  /** A run's own directory in /tmp, when it is there. */
  datatype RunDir = NoRun | RunDir(confirmed: bool, committed: bool, restoring: bool, restored: bool)

  /** How long `settle` waits at most. */
  const SETTLE := 5000

  datatype Dev = Dev(
    // What a rollback puts back, and what is staged under /tmp/.uci.
    config: Live, files: bool, pkgs: bool, staged: bool,
    // The run's files: its agent, its directory, the stand-down's marker, the boot-time copy on flash.
    agent: bool, run: RunDir, disarmed: bool, boot: bool,
    // Its processes.
    dog: Dog, work: Work, asks: seq<Ask>,
    // When the sleep ends (ms, world time), and what the device wrote of that (whole seconds, its own clock).
    firesAt: int, fires: int, skew: int,
    // Does this run change packages or files here; did the boot-time copy fit on flash.
    irreversible: bool, copied: bool,
    // Nothing from outside cuts the watchdog's sleep short.
    patient: bool,
    // The longest the watchdog takes from its test of `confirmed` to its mark (ms), and when it tested.
    gap: nat, tested: int,
    // When the last step was, and how often the watchdog was killed.
    clock: int, deaths: nat,
    // The step verb that changed something here after the restore was done.
    late: Option<Work>)

  /** From its test to its mark the watchdog takes less than a `disarm` waits for it to be gone. */
  predicate Prompt(s: Dev) {
    s.gap < SETTLE
  }

  predicate Running(dog: Dog) {
    (dog.Asleep? || dog.Awake? || dog.Checked? || dog.Leaving? || dog.Clearing? || dog.Restoring? || dog.Waiting?)
  }

  predicate DiedAsleep(s: Dev) {
    s.run.RunDir? && !(s.dog.Off? || s.dog.Starting?) && !s.run.restoring && !Running(s.dog)
  }

  predicate Undone(s: Dev) {
    (s.dog.Waiting? || s.dog.Recovered?)
  }

  predicate Busy(w: Work) {
    (w.Preparing? || w.Staging? || w.Batched? || w.Committing? || w.Marking?)
  }

  /** Nothing of the run's is left in what a rollback covers. */
  predicate OnSnapshot(s: Dev) {
    s.config == Old && !s.files && !s.pkgs
  }

  // ----- Steps -----

  datatype Action =
    | Watch                               // the watchdog's next step
    | Toil(pkgs: bool, files: bool)       // the step verb changes packages or files
    | Labour(well: bool)                  // the step verb's next step, or its failure
    | CommitSome                          // one commit of several
    | AskStep(k: nat)                     // the k-th disarm's next step
    | Die                                 // the watchdog is killed
    | PowerCut                            // the device restarts

  /** Time goes on, and not past the watchdog's mark, due its gap after its test. */
  predicate InTime(s: Dev, t: int) {
    s.clock <= t && (s.dog.Checked? ==> t <= s.tested + s.gap)
  }

  predicate Toiling(s: Dev) {
    s.work.Preparing? || s.work.Staging? || s.work.Batched?
  }

  /** A watchdog can be killed up to its mark, and as it stands down. */
  predicate MayDie(dog: Dog) {
    dog.Asleep? || dog.Awake? || dog.Checked? || dog.Leaving? || dog.Clearing?
  }

  /** One step: `a` takes the device from `s` to `s2` at time `t`. */
  predicate Step(s: Dev, a: Action, s2: Dev, t: int) {
    && InTime(s, t)
    && match a
       case Watch => CanWatch(s, t) && s2 == NextDog(s, t)
       case Toil(p, f) =>
         && s.irreversible && Toiling(s)
         && s2 == s.(pkgs := s.pkgs || p, files := s.files || f, late := if Undone(s) then Some(s.work) else s.late, clock := t)
       case Labour(well) => Busy(s.work) && s2 == NextWork(s, well, t)
       case CommitSome => s.work.Committing? && s2 == s.(config := if s.staged then Part else s.config, clock := t)
       case AskStep(k) => k < |s.asks| && CanAsk(s, s.asks[k], t) && s2 == NextAsk(s, k, t)
       case Die => MayDie(s.dog) && s2 == s.(dog := Dead, deaths := s.deaths + 1, clock := t)
       case PowerCut => s2 == AfterCut(s, t)
  }

  // --- The watchdog (script.ts, watchdog) ---

  predicate CanWatch(s: Dev, t: int) {
    && (s.dog.Starting? || Running(s.dog))
    && (s.dog.Asleep? && s.patient ==> s.firesAt <= t)
  }

  function DogAfter(s: Dev): Dog {
    match s.dog
    case Starting => if s.run.NoRun? then StoodDown else Asleep
    case Asleep => Awake
    case Awake => if s.run.NoRun? then StoodDown else if s.run.confirmed then Leaving else Checked
    case Checked => Restoring
    case Restoring => Waiting
    case Waiting => Recovered
    case Leaving => Clearing
    case Clearing => StoodDown
    case d => d
  }

  function RunAfter(s: Dev): RunDir {
    if s.run.NoRun? || s.dog.Waiting? || s.dog.Clearing? then NoRun
    else if s.dog.Checked? then s.run.(restoring := true)
    else if s.dog.Restoring? then s.run.(restored := true)
    else s.run
  }

  function NextDog(s: Dev, t: int): Dev {
    var restoring := s.dog.Restoring?;
    s.(clock := t,
       tested := if s.dog.Awake? then t else s.tested,
       dog := DogAfter(s),
       run := RunAfter(s),
       config := if restoring then Old else s.config,
       files := s.files && !restoring,
       pkgs := s.pkgs && !restoring,
       staged := s.staged && !restoring,
       boot := s.boot && !restoring && !s.dog.Clearing?,
       agent := s.agent && !s.dog.Waiting?,
       disarmed := s.disarmed || s.dog.Leaving?)
  }

  // --- The step verbs (script.ts, prepare, stage and finalise) ---

  function WorkAfter(w: Work): Work {
    match w
    case Preparing => Prepared
    case Staging => Batched
    case Batched => Staged
    case Committing => Marking
    case Marking => Committed
    case _ => w
  }

  function NextWork(s: Dev, well: bool, t: int): Dev {
    var batches := well && s.work.Staging?;
    var commits := well && s.work.Committing? && s.staged;
    s.(clock := t,
       work := if well then WorkAfter(s.work) else Broke,
       staged := batches || (s.staged && !commits),
       late := if batches && Undone(s) then Some(s.work) else s.late,
       config := if commits then New else s.config,
       run := if s.run.RunDir? then s.run.(committed := s.run.committed || (well && s.work.Marking?)) else NoRun)
  }

  // --- A disarm (script.ts, disarm) ---

  /** `settle` ends once the watchdog is gone, or after its five seconds. */
  predicate CanAsk(s: Dev, ask: Ask, t: int) {
    && !ask.Said?
    && (ask.Settling? ==> !Running(s.dog) || ask.since + SETTLE <= t)
  }

  function AskAfter(s: Dev, ask: Ask, t: int): Ask {
    match ask
    case Arrived => if s.disarmed || DiedAsleep(s) then Standing else if Running(s.dog) then Flagging else Said(false)
    case Flagging => Killing
    case Killing => Settling(t)
    case Settling(_) => Looking
    case Looking => if Running(s.dog) && s.run.RunDir? && s.run.confirmed && !s.run.restoring then Standing else Unseen
    case Unseen => if s.disarmed then Standing else Said(false)
    case Standing => Said(true)
    case Said(kept) => Said(kept)
  }

  function NextAsk(s: Dev, k: nat, t: int): Dev
    requires k < |s.asks|
  {
    var ask := s.asks[k];
    s.(clock := t,
       asks := s.asks[k := AskAfter(s, ask, t)],
       run := if s.run.RunDir? then s.run.(confirmed := s.run.confirmed || ask.Flagging?) else NoRun,
       dog := if ask.Killing? && s.dog.Asleep? then Awake else s.dog,
       boot := s.boot && !ask.Standing?)
  }

  // --- Accidents ---

  /** A restart: /tmp gone with all in it, and the boot-time copy, if there is one, put back (script.ts, boot). */
  function AfterCut(s: Dev, t: int): Dev {
    s.(clock := t, dog := Cut, run := NoRun, agent := false, disarmed := false, work := Idle, asks := [], staged := false, boot := false,
       config := if s.boot then Old else s.config, files := s.files && !s.boot)
  }

  // ----- What every step keeps -----

  /** The flag is set, and the watchdog is one that had slept. */
  predicate FlagSet(s: Dev) {
    && (s.run.RunDir? ==> s.run.confirmed)
    && !(s.dog.Off? || s.dog.Starting?)
  }

  /** The watchdog can no longer restore: it finds the flag, it is leaving, or it is dead. */
  predicate Harmless(s: Dev) {
    || ((s.dog.Asleep? || s.dog.Awake?) && s.run.RunDir? && s.run.confirmed)
    || (s.dog.Leaving? || s.dog.Clearing? || s.dog.StoodDown? || s.dog.Dead?)
  }

  /** The watchdog restored, is restoring, or will do neither as it is gone. */
  predicate GoneBack(s: Dev) {
    (s.dog.Restoring? || s.dog.Waiting? || s.dog.Recovered? || s.dog.Dead? || s.dog.Cut?)
  }

  predicate AskInv(s: Dev, ask: Ask) {
    && !(s.dog.Off? || s.dog.Starting?)
    && match ask
       case Arrived => true
       case Flagging => true
       case Killing => FlagSet(s)
       case Settling(since) => FlagSet(s) && (s.dog.Checked? ==> s.tested <= since)
       case Looking => FlagSet(s) && (Prompt(s) ==> !s.dog.Checked?)
       case Unseen => FlagSet(s) && (Prompt(s) ==> GoneBack(s) || (s.dog.Clearing? || s.dog.StoodDown?))
       case Standing => Prompt(s) ==> Harmless(s)
       case Said(kept) => if kept then Prompt(s) ==> Harmless(s) && !s.boot else Prompt(s) ==> GoneBack(s) || !s.agent
  }

  /** The files each process has left agree with where it is. */
  predicate FlagsInv(s: Dev) {
    && (Running(s.dog) ==> s.run.RunDir?)
    && (s.run.RunDir? ==> (s.run.restoring <==> (s.dog.Restoring? || s.dog.Waiting?)) && (s.run.restored <==> s.dog.Waiting?))
    && ((s.dog.Leaving? || s.dog.Clearing?) ==> s.run.RunDir? && s.run.confirmed)
    && (s.disarmed ==> (s.dog.Clearing? || s.dog.StoodDown? || (s.dog.Dead? && (s.run.RunDir? ==> s.run.confirmed))))
    && ((s.dog.Clearing? || s.dog.StoodDown?) ==> s.disarmed || !s.agent)
    && (s.dog.Recovered? ==> s.run.NoRun? && !s.agent)
    && (s.dog.Cut? ==> s.run.NoRun? && !s.agent && !s.staged && s.asks == [] && s.work.Idle?)
    && (s.dog.Dead? && s.agent ==> s.run.RunDir?)
    && ((s.dog.StoodDown? || s.dog.Waiting? || s.dog.Recovered? || s.dog.Cut?) ==> !s.boot)
    && (s.agent && (s.dog.Off? || s.dog.Starting?) ==> s.run.RunDir?)
    && (s.dog.Starting? && s.run.NoRun? ==> !s.boot)
    && (s.dog.Checked? ==> s.tested <= s.clock)
  }

  /** What the marker of a finished commit stands for. */
  predicate CommitInv(s: Dev) {
    && ((s.work.Batched? || s.work.Staged? || s.work.Committing?) ==> s.staged || Undone(s))
    && ((s.work.Marking? || s.work.Committed?) ==> s.config == New || Undone(s))
    && (s.run.RunDir? && s.run.committed ==> !Busy(s.work) && (s.config == New || Undone(s)))
  }

  /** What a restore leaves, and what can come after it. */
  predicate RestoreInv(s: Dev) {
    && (Undone(s) ==> OnSnapshot(s) || s.late.Some?)
    && (Undone(s) && s.staged ==> s.late.Some?)
    && (s.late.Some? ==> (s.late.value.Preparing? || s.late.value.Staging? || s.late.value.Batched?) && (Undone(s) || s.dog.Cut?))
    && (Undone(s) && s.patient ==> s.config == Old && (s.work.Committing? ==> !s.staged))
    && (!s.irreversible ==> !s.files && !s.pkgs)
  }

  predicate Inv(s: Dev) {
    && FlagsInv(s)
    && CommitInv(s)
    && RestoreInv(s)
    && forall k :: 0 <= k < |s.asks| ==> AskInv(s, s.asks[k])
  }

  lemma {:induction false} StepKeepsFlags(s: Dev, a: Action, s2: Dev, t: int)
    requires Inv(s) && Step(s, a, s2, t)
    ensures FlagsInv(s2)
  {
    if a.AskStep? { assert AskInv(s, s.asks[a.k]); }
  }

  lemma {:induction false} StepKeepsRest(s: Dev, a: Action, s2: Dev, t: int)
    requires Inv(s) && Step(s, a, s2, t)
    ensures CommitInv(s2) && RestoreInv(s2)
  {
    if a.AskStep? { assert AskInv(s, s.asks[a.k]); }
  }

  /** What one disarm rests on is kept by the watchdog, ... */
  lemma {:induction false} WatchKeepsAsk(s: Dev, t: int, ask: Ask)
    requires FlagsInv(s) && CanWatch(s, t) && AskInv(s, ask)
    ensures AskInv(NextDog(s, t), ask)
  {
  }

  /** ... by another disarm, ... */
  lemma {:induction false} OtherAskKeepsAsk(s: Dev, k: nat, ask: Ask, t: int)
    requires FlagsInv(s) && k < |s.asks| && AskInv(s, s.asks[k]) && AskInv(s, ask)
    ensures AskInv(NextAsk(s, k, t), ask)
  {
  }

  /** ... and each of its own steps leads to what its next one rests on: `settle` outlasts the gap of
      a watchdog that tested before it began. */
  lemma {:induction false} AskReachesAsk(s: Dev, k: nat, t: int)
    requires FlagsInv(s) && InTime(s, t) && k < |s.asks| && CanAsk(s, s.asks[k], t) && AskInv(s, s.asks[k])
    ensures AskInv(NextAsk(s, k, t), AskAfter(s, s.asks[k], t))
  {
  }

  lemma {:induction false} StepKeepsInv(s: Dev, a: Action, s2: Dev, t: int)
    requires Inv(s) && Step(s, a, s2, t)
    ensures Inv(s2)
  {
    StepKeepsFlags(s, a, s2, t);
    StepKeepsRest(s, a, s2, t);
    forall j | 0 <= j < |s2.asks| ensures AskInv(s2, s2.asks[j]) {
      assert AskInv(s, s.asks[j]);
      if a.Watch? {
        WatchKeepsAsk(s, t, s.asks[j]);
      } else if a.AskStep? {
        if j == a.k { AskReachesAsk(s, j, t); } else { OtherAskKeepsAsk(s, a.k, s.asks[j], t); }
      }
    }
  }

  // ----- What the coordinator may count on, whatever happens meanwhile -----

  /** A rollback is still to be had: no disarm was ever sent, so only a restore, a death or a restart ends it. */
  predicate Armed(s: Dev) {
    && s.asks == []
    && (s.run.RunDir? ==> !s.run.confirmed)
    && ((s.dog.Starting? && s.run.RunDir?) || s.dog.Asleep? || s.dog.Awake? || s.dog.Checked? || GoneBack(s))
    && (!Undone(s) && !s.dog.Cut? ==> s.boot == s.copied)
    && (s.dog.Cut? && s.copied ==> (s.config.Old? && !s.files) || s.late.Some?)
  }

  /** The run has changed nothing here, and nothing it left at work can. */
  predicate Untouched(s: Dev) {
    && OnSnapshot(s)
    && !s.work.Committing? && !s.work.Marking?
    && (Busy(s.work) ==> !s.irreversible)
  }

  /** Nothing can restore any more, and nothing changes it. */
  predicate Kept(s: Dev) {
    && (Harmless(s) || s.dog.Cut?)
    && !s.boot
    && !Busy(s.work)
  }

  /** Nothing of the run's was sent but its agent. */
  predicate Unarmed(s: Dev) {
    && (s.dog.Off? || s.dog.Cut?) && s.asks == [] && s.work.Idle?
    && OnSnapshot(s) && !s.boot
    && (s.run.RunDir? ==> !s.run.confirmed && !s.run.committed)
  }

  /** No commit was begun. */
  predicate Uncommitted(s: Dev) {
    s.config.Old? && !s.work.Committing? && !s.work.Marking? && (s.run.RunDir? ==> !s.run.committed)
  }

  /** Its commit was seen whole: the declared config, or a restore or a restart since. */
  predicate CommitSeen(s: Dev) {
    && !Busy(s.work)
    && (s.config.New? || Undone(s) || s.dog.Cut?)
  }

  /** What a stage verb left is still there, or a restore or a restart took it. */
  predicate StagedHere(s: Dev) {
    !Busy(s.work) && (s.staged || Undone(s) || s.dog.Cut?)
  }

  /** Staged and not yet committed; nothing staged over a restore. */
  predicate ReadyToCommit(s: Dev) {
    StagedHere(s) && Uncommitted(s) && (Undone(s) && s.patient ==> !s.staged)
  }

  /** The agent is there, or went with the watchdog's clean-up or a restart. */
  predicate Installed(s: Dev) {
    s.agent || s.dog.Recovered? || s.dog.Cut?
  }

  predicate Slept(s: Dev) {
    !s.dog.Off? && !s.dog.Starting?
  }

  /** Nothing but its own time ends this watchdog's sleep, and at `t` that has not come: it sleeps,
      or an accident ended it. */
  predicate OnTime(s: Dev, t: int) {
    s.patient && t < s.firesAt ==>
      s.asks == [] && ((s.dog.Starting? && s.run.RunDir?) || s.dog.Asleep? || s.dog.Dead? || s.dog.Cut?)
  }

  predicate SameTraits(s: Dev, s2: Dev) {
    && s2.firesAt == s.firesAt && s2.fires == s.fires && s2.skew == s.skew
    && s2.irreversible == s.irreversible && s2.copied == s.copied && s2.patient == s.patient && s2.gap == s.gap
  }

  predicate SameContents(s: Dev, s2: Dev) {
    s2.config == s.config && s2.files == s.files && s2.pkgs == s.pkgs
  }

  predicate AsksGoOn(s: Dev, s2: Dev) {
    s2.asks == [] || (|s2.asks| == |s.asks| && forall k :: 0 <= k < |s.asks| && s.asks[k].Said? ==> s2.asks[k] == s.asks[k])
  }

  /** No rollback is to come: the watchdog was never started, it is gone, or it will leave. */
  predicate NoneToCome(s: Dev) {
    && !s.boot
    && (Harmless(s) || s.dog.Off? || s.dog.Recovered? || s.dog.Cut? || (s.dog.Starting? && s.run.NoRun?))
  }

  /** The watchdog is dead, or went with a restart. */
  predicate Lost(s: Dev) {
    s.dog.Dead? || s.dog.Cut?
  }

  /** The watchdog is past its sleep, up to the restore's end; or the device restarted. */
  predicate Up(s: Dev) {
    s.dog.Awake? || s.dog.Checked? || s.dog.Restoring? || s.dog.Waiting? || s.dog.Recovered? || s.dog.Cut?
  }

  /** The rollback comes: it is under way, or the watchdog's sleep is over by `t`. */
  predicate Coming(s: Dev, t: int) {
    Up(s) || (s.dog.Asleep? && s.firesAt <= t)
  }

  /** Unless it is killed, a watchdog that nothing disarmed goes on: asleep as long as it was to be, and on
      once it is up. */
  predicate GoesOn(s: Dev, s2: Dev) {
    && s.deaths <= s2.deaths
    && (Armed(s) && s2.deaths == s.deaths ==>
          && (Up(s) ==> Up(s2))
          && (s.dog.Asleep? ==> Up(s2) || (s2.dog.Asleep? && s2.firesAt <= s.firesAt)))
  }

  /** From `s` to `s2` the watchdog's standing is kept, ... */
  predicate KeepsGuard(s: Dev, s2: Dev, t: int) {
    && SameTraits(s, s2)
    && AsksGoOn(s, s2)
    && (Armed(s) ==> Armed(s2))
    && GoesOn(s, s2)
    && (NoneToCome(s) ==> NoneToCome(s2))
    && (Lost(s) ==> Lost(s2))
    && (Slept(s) ==> Slept(s2))
    && (GoneBack(s) ==> GoneBack(s2))
    && (!s.agent ==> !s2.agent)
    && (Installed(s) ==> Installed(s2))
    && (OnTime(s, t) ==> OnTime(s2, t))
  }

  /** ... and what the step verbs have come to. */
  predicate KeepsWork(s: Dev, s2: Dev) {
    && (Kept(s) ==> Kept(s2) && SameContents(s, s2))
    && (Untouched(s) ==> Untouched(s2))
    && (Unarmed(s) ==> Unarmed(s2))
    && (StagedHere(s) ==> StagedHere(s2))
    && (Uncommitted(s) ==> Uncommitted(s2))
    && (ReadyToCommit(s) ==> ReadyToCommit(s2))
    && (CommitSeen(s) ==> CommitSeen(s2))
    && (s.run.RunDir? && s.run.committed && s2.run.RunDir? ==> s2.run.committed)
    && (s.run.NoRun? ==> s2.run.NoRun?)
    && (!Busy(s.work) ==> s2.work == s.work || s2.work.Idle?)
    && (!s.work.Committing? && !s.work.Marking? ==> !s2.work.Committing? && !s2.work.Marking?)
  }

  /** From `s` to `s2`, by time `t`, with no verb sent in between. */
  predicate Progress(s: Dev, s2: Dev, t: int) {
    KeepsGuard(s, s2, t) && KeepsWork(s, s2)
  }

  lemma {:induction false} WatchKeepsGuard(s: Dev, t: int)
    requires Inv(s) && CanWatch(s, t)
    ensures KeepsGuard(s, NextDog(s, t), t)
  {
  }

  lemma {:induction false} WatchKeepsWork(s: Dev, t: int)
    requires Inv(s) && CanWatch(s, t)
    ensures KeepsWork(s, NextDog(s, t))
  {
  }

  lemma {:induction false} LabourKeepsGuard(s: Dev, well: bool, t: int)
    requires Inv(s) && Busy(s.work)
    ensures KeepsGuard(s, NextWork(s, well, t), t)
  {
  }

  lemma {:induction false} LabourKeepsWork(s: Dev, well: bool, t: int)
    requires Inv(s) && Busy(s.work)
    ensures KeepsWork(s, NextWork(s, well, t))
  {
  }

  lemma {:induction false} AskIsProgress(s: Dev, k: nat, t: int)
    requires Inv(s) && k < |s.asks| && InTime(s, t) && CanAsk(s, s.asks[k], t)
    ensures Progress(s, NextAsk(s, k, t), t)
  {
    assert AskInv(s, s.asks[k]);
  }

  lemma {:induction false} ToilIsProgress(s: Dev, a: Action, s2: Dev, t: int)
    requires Inv(s) && Step(s, a, s2, t) && (a.Toil? || a.CommitSome?)
    ensures Progress(s, s2, t)
  {
  }

  lemma {:induction false} DeathIsProgress(s: Dev, s2: Dev, t: int)
    requires Inv(s) && Step(s, Die, s2, t)
    ensures Progress(s, s2, t)
  {
  }

  lemma {:induction false} RestartIsProgress(s: Dev, s2: Dev, t: int)
    requires Inv(s) && Step(s, PowerCut, s2, t)
    ensures Progress(s, s2, t)
  {
  }

  lemma {:induction false} StepIsProgress(s: Dev, a: Action, s2: Dev, t: int)
    requires Inv(s) && Step(s, a, s2, t)
    ensures Progress(s, s2, t)
  {
    match a {
      case Watch => WatchKeepsGuard(s, t); WatchKeepsWork(s, t); assert Progress(s, s2, t);
      case Labour(well) => LabourKeepsGuard(s, well, t); LabourKeepsWork(s, well, t); assert Progress(s, s2, t);
      case AskStep(k) => AskIsProgress(s, k, t); assert Progress(s, s2, t);
      case Toil(_, _) => ToilIsProgress(s, a, s2, t);
      case CommitSome => ToilIsProgress(s, a, s2, t);
      case Die => DeathIsProgress(s, s2, t);
      case PowerCut => RestartIsProgress(s, s2, t);
    }
  }

  lemma {:induction false} ProgressComposes(s: Dev, s2: Dev, s3: Dev, t: int, t2: int)
    requires Progress(s, s2, t) && Progress(s2, s3, t2) && t <= t2
    ensures Progress(s, s3, t2)
  {
  }

  /** A disarm reaches the device: sent, or sent again after its answer was lost. */
  predicate Arrives(s: Dev, s2: Dev) {
    s.agent && Slept(s) && s2 == s.(asks := s.asks + [Arrived])
  }

  lemma {:induction false} ArrivalKeepsInv(s: Dev, s2: Dev)
    requires Inv(s) && Arrives(s, s2)
    ensures Inv(s2)
  {
    forall j | 0 <= j < |s2.asks| ensures AskInv(s2, s2.asks[j]) {
      if j < |s.asks| { assert AskInv(s, s.asks[j]); }
    }
  }
}
