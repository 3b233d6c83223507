/** Every run of one device: what its answers are worth, and what a rollback leaves. */
module DeviceRuns {
  import opened Wrappers
  import opened Device

  ghost predicate Moves(s: Dev, s2: Dev) {
    Arrives(s, s2) || exists a, t :: Step(s, a, s2, t)
  }

  /** A run: any interleaving of the device's processes, accidents, and disarms arriving. */
  ghost predicate IsRun(run: seq<Dev>) {
    |run| > 0 && forall i :: 0 <= i < |run| - 1 ==> Moves(run[i], run[i + 1])
  }

  function Last(run: seq<Dev>): Dev
    requires |run| > 0
  {
    run[|run| - 1]
  }

  predicate Says(s: Dev, kept: bool) {
    exists k :: 0 <= k < |s.asks| && s.asks[k] == Said(kept)
  }

  /** What a run keeps from one of its states to any later one. */
  predicate Later(s: Dev, s2: Dev) {
    && s2.gap == s.gap && s2.copied == s.copied
    && (Busy(s2.work) ==> Busy(s.work))
    && (Kept(s) ==> Kept(s2) && SameContents(s, s2))
    && (GoneBack(s) ==> GoneBack(s2))
    && (Installed(s) ==> Installed(s2))
    && (s.dog.Cut? ==> s2.dog.Cut? && SameContents(s, s2))
    && (!Busy(s.work) ==> s2.late == s.late)
    && (Undone(s) ==> Undone(s2) || s2.dog.Cut?)
    && (s.dog.Dead? ==> s2.dog.Cut? || (s2.dog.Dead? && (!Busy(s.work) ==> SameContents(s, s2))))
    && (s2.dog.Dead? && GoneBack(s) ==> s.dog.Dead?)
  }

  lemma {:induction false} LaterComposes(s: Dev, s2: Dev, s3: Dev)
    requires Later(s, s2) && Later(s2, s3)
    ensures Later(s, s3)
  {
  }

  lemma {:induction false} StepIsLater(s: Dev, a: Action, s2: Dev, t: int)
    requires Inv(s) && Step(s, a, s2, t)
    ensures Later(s, s2)
  {
    StepIsProgress(s, a, s2, t);
  }

  lemma {:induction false} MoveKeeps(s: Dev, s2: Dev)
    requires Inv(s) && Moves(s, s2)
    ensures Inv(s2) && Later(s, s2)
  {
    if Arrives(s, s2) {
      ArrivalKeepsInv(s, s2);
      assert Later(s, s2);
    } else {
      var a, t :| Step(s, a, s2, t);
      StepKeepsInv(s, a, s2, t);
      StepIsLater(s, a, s2, t);
    }
  }

  lemma {:induction false} RunKeeps(run: seq<Dev>, i: nat, j: nat)
    requires IsRun(run) && i <= j < |run| && Inv(run[i])
    ensures Inv(run[j]) && Later(run[i], run[j])
    decreases j
  {
    if i < j {
      RunKeeps(run, i, j - 1);
      assert Moves(run[j - 1], run[j - 1 + 1]);
      MoveKeeps(run[j - 1], run[j]);
      LaterComposes(run[i], run[j - 1], run[j]);
    }
  }

  /** Disarm on evidence. Once any disarm says ONC_DISARMED, no restore, restart or
      straggler changes what the device holds, in any run. */
  lemma {:induction false} DisarmOnEvidence(run: seq<Dev>, i: nat, j: nat)
    requires IsRun(run) && i <= j < |run| && Inv(run[0])
    requires Prompt(run[0]) && !Busy(run[0].work)
    requires Says(run[i], true)
    ensures SameContents(run[i], run[j]) && !Undone(run[j]) && !run[j].boot
  {
    RunKeeps(run, 0, i);
    var k :| 0 <= k < |run[i].asks| && run[i].asks[k] == Said(true);
    assert AskInv(run[i], run[i].asks[k]);
    RunKeeps(run, i, j);
  }

  /** Whether a stand-down once said is a stand-down for good, in every run from `s`. */
  ghost predicate AlwaysSound(s: Dev) {
    forall run, i, j | IsRun(run) && run[0] == s && 0 <= i <= j < |run| && Says(run[i], true) ::
      SameContents(run[i], run[j])
  }

  lemma {:induction false} Extend(run: seq<Dev>, s2: Dev)
    requires IsRun(run) && Moves(Last(run), s2)
    ensures IsRun(run + [s2])
  {
    forall i | 0 <= i < |run + [s2]| - 1 ensures Moves((run + [s2])[i], (run + [s2])[i + 1]) {
      if i < |run| - 1 { assert Moves(run[i], run[i + 1]); }
    }
  }

  /** `run` with the watchdog's next step, ... */
  lemma {:induction false} WatchOn(run: seq<Dev>, t: int)
    requires IsRun(run) && CanWatch(Last(run), t) && InTime(Last(run), t)
    ensures IsRun(run + [NextDog(Last(run), t)])
  {
    assert Step(Last(run), Watch, NextDog(Last(run), t), t);
    Extend(run, NextDog(Last(run), t));
  }

  /** ... with its one disarm's next step, ... */
  lemma {:induction false} AskOn(run: seq<Dev>, t: int)
    requires IsRun(run) && |Last(run).asks| == 1 && CanAsk(Last(run), Last(run).asks[0], t) && InTime(Last(run), t)
    ensures IsRun(run + [NextAsk(Last(run), 0, t)])
  {
    assert Step(Last(run), AskStep(0), NextAsk(Last(run), 0, t), t);
    Extend(run, NextAsk(Last(run), 0, t));
  }

  /** ... with a first disarm arriving. */
  lemma {:induction false} ArriveOn(run: seq<Dev>)
    requires IsRun(run) && Last(run).agent && Slept(Last(run)) && Last(run).asks == []
    ensures IsRun(run + [Last(run).(asks := [Arrived])])
  {
    assert Last(run).asks + [Arrived] == [Arrived];
    assert Arrives(Last(run), Last(run).(asks := [Arrived]));
    Extend(run, Last(run).(asks := [Arrived]));
  }

  /** The committed device as it waits to be confirmed: its watchdog asleep, no disarm sent yet. */
  predicate AwaitsConfirm(s: Dev) {
    && Inv(s) && Armed(s) && s.agent && s.dog.Asleep?
    && s.config.New? && !Busy(s.work)
  }

  /** No disarm ever said the device was kept. */
  ghost predicate NeverKept(run: seq<Dev>) {
    forall m :: 0 <= m < |run| ==> !Says(run[m], true)
  }

  /** When an asleep watchdog can wake of itself. */
  function WakesAt(s: Dev): int {
    if s.firesAt > s.clock then s.firesAt else s.clock
  }

  /** A disarm that comes between the watchdog's test and its mark waits out `settle`, finds no
      mark yet and says ONC_DISARMED. */
  lemma {:induction false} DisarmInTheGap(before: seq<Dev>) returns (run: seq<Dev>)
    requires IsRun(before) && Last(before).dog.Checked? && Last(before).run.RunDir? && !Last(before).run.restoring
    requires Last(before).asks == [Arrived] && !Last(before).disarmed
    requires Last(before).clock == Last(before).tested && Last(before).gap >= SETTLE
    ensures IsRun(run) && run[0] == before[0]
    ensures Last(run).asks == [Said(true)] && Last(run).dog.Checked? && Last(run).config == Last(before).config
    ensures InTime(Last(run), Last(run).clock)
  {
    ghost var at := Last(before).tested;
    ghost var pcs := [Arrived, Flagging, Killing, Settling(at), Looking, Standing, Said(true)];
    run := before;
    for n := 0 to 6
      invariant IsRun(run) && run[0] == before[0]
      invariant Last(run).asks == [pcs[n]] && Last(run).dog.Checked? && Last(run).config == Last(before).config
      invariant Last(run).run.RunDir? && !Last(run).run.restoring && (n >= 2 ==> Last(run).run.confirmed) && !Last(run).disarmed
      invariant Last(run).clock == (if n <= 3 then at else at + SETTLE) && Last(run).tested == at && Last(run).gap == Last(before).gap
    {
      var t := if n < 3 then at else at + SETTLE;
      AskOn(run, t);
      run := run + [NextAsk(Last(run), 0, t)];
    }
  }

  /** The restore that then makes it untrue. */
  lemma {:induction false} SlowMarkBreaksEvidence(s: Dev) returns (run: seq<Dev>, i: nat)
    requires AwaitsConfirm(s) && s.gap >= SETTLE
    ensures IsRun(run) && run[0] == s && i < |run|
    ensures Says(run[i], true) && run[i].config.New? && Last(run).config.Old?
  {
    run := InTheGap(s);
    run := DisarmInTheGap(run);
    i := |run| - 1;
    assert run[i].asks[0] == Said(true);
    run := RestoreOn(run);
  }

  /** Awake, its test done and its mark not yet set, as a disarm arrives. */
  lemma {:induction false} InTheGap(s: Dev) returns (run: seq<Dev>)
    requires AwaitsConfirm(s)
    ensures IsRun(run) && NeverKept(run) && run[0] == s
    ensures Last(run) == s.(dog := Checked, asks := [Arrived], clock := WakesAt(s), tested := WakesAt(s))
  {
    var t := WakesAt(s);
    run := [s];
    WatchOn(run, t);
    NeverKeptOn(run, NextDog(s, t));
    run := run + [NextDog(s, t)];
    var awake := Last(run);
    WatchOn(run, t);
    NeverKeptOn(run, NextDog(awake, t));
    run := run + [NextDog(awake, t)];
    var gap := Last(run);
    ArriveOn(run);
    NeverKeptOn(run, gap.(asks := [Arrived]));
    run := run + [gap.(asks := [Arrived])];
  }

  lemma {:induction false} NeverKeptOn(run: seq<Dev>, s2: Dev)
    requires NeverKept(run) && (s2.asks == [] || s2.asks == [Arrived])
    ensures NeverKept(run + [s2])
  {
  }

  lemma {:induction false} RestoreOn(run: seq<Dev>) returns (longer: seq<Dev>)
    requires IsRun(run) && Last(run).dog.Checked? && InTime(Last(run), Last(run).clock)
    ensures IsRun(longer) && |longer| > |run| && longer[0] == run[0] && longer[|run| - 1] == Last(run)
    ensures Last(longer).config.Old?
  {
    var t := Last(run).clock;
    WatchOn(run, t);
    var marked := run + [NextDog(Last(run), t)];
    WatchOn(marked, t);
    longer := marked + [NextDog(Last(marked), t)];
  }

  /** Exactly when the evidence is good: the watchdog's own step from its test to its mark
      takes less than the five seconds a disarm waits. */
  lemma {:induction false} EvidenceNeedsAPromptMark(s: Dev)
    requires AwaitsConfirm(s)
    ensures AlwaysSound(s) <==> s.gap < SETTLE
  {
    if s.gap < SETTLE {
      forall run, i, j | IsRun(run) && run[0] == s && 0 <= i <= j < |run| && Says(run[i], true)
        ensures SameContents(run[i], run[j])
      {
        DisarmOnEvidence(run, i, j);
      }
    } else {
      var run, i := SlowMarkBreaksEvidence(s);
      assert !SameContents(run[i], run[|run| - 1]);
    }
  }

  /** What is kept is kept for good: in no run does anything change it, or restore it. */
  lemma {:induction false} KeptForGood(run: seq<Dev>, j: nat)
    requires IsRun(run) && j < |run| && Inv(run[0]) && Kept(run[0])
    ensures SameContents(run[0], run[j]) && !Undone(run[j]) && !run[j].boot
  {
    RunKeeps(run, 0, j);
  }

  lemma {:induction false} NoneToComeOn(s: Dev, s2: Dev)
    requires Inv(s) && Moves(s, s2) && NoneToCome(s)
    ensures NoneToCome(s2)
  {
    if !Arrives(s, s2) {
      var a, t :| Step(s, a, s2, t);
      StepIsProgress(s, a, s2, t);
    }
  }

  /** Where no rollback is to come, none comes: no run marks one, or does one that had not been done. */
  lemma {:induction false} NothingComes(run: seq<Dev>, j: nat)
    requires IsRun(run) && j < |run| && Inv(run[0]) && NoneToCome(run[0])
    ensures !run[j].dog.Restoring? && !run[j].dog.Waiting? && !run[j].boot
    ensures run[j].dog.Recovered? ==> run[0].dog.Recovered?
    ensures NoneToCome(run[j])
    decreases j
  {
    if j > 0 {
      NothingComes(run, j - 1);
      RunKeeps(run, 0, j - 1);
      assert Moves(run[j - 1], run[j - 1 + 1]);
      NoneToComeOn(run[j - 1], run[j]);
      if !run[j - 1].dog.Recovered? { NotRecovered(run[j - 1], run[j]); }
    }
  }

  lemma {:induction false} StepNotRecovered(s: Dev, a: Action, s2: Dev, t: int)
    requires Step(s, a, s2, t) && !s.dog.Waiting? && !s.dog.Recovered?
    ensures !s2.dog.Recovered?
  {
    if a.AskStep? { assert s2 == NextAsk(s, a.k, t); }
  }

  lemma {:induction false} NotRecovered(s: Dev, s2: Dev)
    requires Moves(s, s2) && !s.dog.Waiting? && !s.dog.Recovered?
    ensures !s2.dog.Recovered?
  {
    if !Arrives(s, s2) {
      var a, t :| Step(s, a, s2, t);
      StepNotRecovered(s, a, s2, t);
    }
  }

  // ----- ONC_FIRED -----

  /** What ONC_FIRED leaves: the watchdog restores, or has, or is dead; once it has ended, the
      device is back on its snapshot unless it was already dead as the answer was given. */
  lemma {:induction false} FiredGoesBack(run: seq<Dev>, i: nat, j: nat)
    requires IsRun(run) && i <= j < |run| && AwaitsConfirm(run[0]) && Prompt(run[0])
    requires Says(run[i], false) && !run[j].dog.Cut?
    ensures GoneBack(run[j])
    ensures run[j].dog.Dead? <==> run[i].dog.Dead?
    ensures run[i].dog.Dead? ==> SameContents(run[i], run[j])
    ensures Undone(run[j]) ==> OnSnapshot(run[j])
  {
    RunKeeps(run, 0, i);
    var k :| 0 <= k < |run[i].asks| && run[i].asks[k] == Said(false);
    assert AskInv(run[i], run[i].asks[k]);
    RunKeeps(run, i, j);
  }

  /** Such a run there is: killed between a disarm's flag and its look, the watchdog leaves the
      change for good, and the disarm, finding neither it nor its marker, says it fired. */
  lemma {:induction false} FiredYetKept(s: Dev) returns (run: seq<Dev>)
    requires AwaitsConfirm(s)
    ensures IsRun(run) && run[0] == s
    ensures Says(Last(run), false) && Last(run).dog.Dead? && Last(run).config.New?
  {
    ArriveOn([s]);
    var arrived := s.(asks := [Arrived]);
    assert [s] + [arrived] == [s, arrived];
    AskOn([s, arrived], s.clock);
    var flagging := NextAsk(arrived, 0, s.clock);
    assert [s, arrived] + [flagging] == [s, arrived, flagging];
    var dead := flagging.(dog := Dead, deaths := flagging.deaths + 1);
    assert Step(flagging, Die, dead, flagging.clock);
    Extend([s, arrived, flagging], dead);
    assert [s, arrived, flagging] + [dead] == [s, arrived, flagging, dead];
    run := AskTheDead([s, arrived, flagging, dead]);
    assert Last(run).asks[0] == Said(false);
  }

  lemma {:induction false} AskTheDead(before: seq<Dev>) returns (run: seq<Dev>)
    requires IsRun(before) && Last(before).asks == [Flagging] && Last(before).dog.Dead? && !Last(before).disarmed
    ensures IsRun(run) && run[0] == before[0]
    ensures Last(run).asks == [Said(false)] && Last(run).dog.Dead? && Last(run).config == Last(before).config
  {
    ghost var t := Last(before).clock;
    ghost var pcs := [Flagging, Killing, Settling(t), Looking, Unseen, Said(false)];
    run := before;
    for n := 0 to 5
      invariant IsRun(run) && run[0] == before[0]
      invariant Last(run).asks == [pcs[n]] && Last(run).dog.Dead? && Last(run).config == Last(before).config
      invariant !Last(run).disarmed && Last(run).clock == t
    {
      AskOn(run, t);
      run := run + [NextAsk(Last(run), 0, t)];
    }
  }

  // ----- A restart after ONC_FIRED -----

  /** The boot-time copy is there as it was made, until something drops it. */
  predicate CopyThere(s: Dev) {
    (s.boot ==> s.copied) && (s.boot == s.copied || Says(s, true) || Undone(s) || s.dog.StoodDown? || s.dog.Cut?)
  }

  lemma {:induction false} StepKeepsCopy(s: Dev, a: Action, s2: Dev, t: int)
    requires Inv(s) && Step(s, a, s2, t) && CopyThere(s)
    ensures CopyThere(s2)
  {
    if k :| 0 <= k < |s.asks| && s.asks[k] == Said(true) {
      if !a.PowerCut? { assert s2.asks[k] == Said(true); }
    } else if a.AskStep? && s.asks[a.k].Standing? {
      assert s2.asks[a.k] == Said(true);
    }
  }

  lemma {:induction false} MoveKeepsCopy(s: Dev, s2: Dev)
    requires Inv(s) && Moves(s, s2) && CopyThere(s)
    ensures CopyThere(s2)
  {
    if Arrives(s, s2) {
      if k :| 0 <= k < |s.asks| && s.asks[k] == Said(true) { assert s2.asks[k] == Said(true); }
    } else {
      var a, t :| Step(s, a, s2, t);
      StepKeepsCopy(s, a, s2, t);
    }
  }

  lemma {:induction false} RunKeepsCopy(run: seq<Dev>, j: nat)
    requires IsRun(run) && j < |run| && Inv(run[0]) && CopyThere(run[0])
    ensures CopyThere(run[j])
    decreases j
  {
    if j > 0 {
      RunKeepsCopy(run, j - 1);
      RunKeeps(run, 0, j - 1);
      assert Moves(run[j - 1], run[j - 1 + 1]);
      MoveKeepsCopy(run[j - 1], run[j]);
    }
  }

  lemma {:induction false} FirstCut(run: seq<Dev>, i: nat, j: nat) returns (c: nat)
    requires i <= j < |run| && !run[i].dog.Cut? && run[j].dog.Cut?
    ensures i <= c < j && !run[c].dog.Cut? && run[c + 1].dog.Cut?
    decreases j
  {
    if run[j - 1].dog.Cut? { c := FirstCut(run, i, j - 1); } else { c := j - 1; }
  }

  /** Where in a run the device first restarted. */
  lemma {:induction false} RestartedAt(run: seq<Dev>, i: nat, j: nat) returns (c: nat)
    requires IsRun(run) && i <= j < |run| && Inv(run[i]) && !run[i].dog.Cut? && run[j].dog.Cut?
    ensures i <= c < j && !run[c].dog.Cut? && run[c + 1] == AfterCut(run[c], run[c + 1].clock)
    ensures SameContents(run[c + 1], run[j])
  {
    c := FirstCut(run, i, j);
    assert Moves(run[c], run[c + 1]);
    OnlyCutCuts(run[c], run[c + 1]);
    RunKeeps(run, i, c + 1);
    RunKeeps(run, c + 1, j);
  }

  lemma {:induction false} CutIsRestart(s: Dev, a: Action, s2: Dev, t: int)
    requires Step(s, a, s2, t) && !a.PowerCut? && !s.dog.Cut?
    ensures !s2.dog.Cut?
  {
    if a.AskStep? { assert s2 == NextAsk(s, a.k, t); }
  }

  lemma {:induction false} OnlyCutCuts(s: Dev, s2: Dev)
    requires Moves(s, s2) && !s.dog.Cut? && s2.dog.Cut?
    ensures s2 == AfterCut(s, s2.clock)
  {
    if !Arrives(s, s2) {
      var a, t :| Step(s, a, s2, t);
      if !a.PowerCut? { CutIsRestart(s, a, s2, t); }
    }
  }

  /** What a restart after ONC_FIRED leaves: the snapshot's config and files if the restore was done or
      the boot-time copy was there; else what the device then held. */
  lemma {:induction false} FiredThenRestarted(run: seq<Dev>, i: nat, j: nat) returns (c: nat)
    requires IsRun(run) && i <= j < |run| && AwaitsConfirm(run[0]) && Prompt(run[0])
    requires Says(run[i], false) && run[j].dog.Cut?
    ensures i <= c < j && GoneBack(run[c]) && run[c + 1] == AfterCut(run[c], run[c + 1].clock) && SameContents(run[c + 1], run[j])
    ensures run[c].boot || Undone(run[c]) ==> run[j].config.Old? && !run[j].files
    ensures !run[c].boot ==> SameContents(run[c], run[j])
    ensures NeverKept(run) && run[0].copied ==> run[c].boot || Undone(run[c])
    ensures !run[0].copied ==> !run[c].boot
  {
    RunKeeps(run, 0, i);
    c := RestartedAt(run, i, j);
    FiredGoesBack(run, i, c);
    RunKeeps(run, 0, c);
    RunKeepsCopy(run, c);
  }

  /** Whether a restart after ONC_FIRED always leaves the snapshot's config and files, no disarm having
      said otherwise. */
  ghost predicate RestartPutsBack(s: Dev) {
    forall run: seq<Dev>, i, j | IsRun(run) && run[0] == s && 0 <= i <= j < |run| && Says(run[i], false) && run[j].dog.Cut? && NeverKept(run) ::
      run[j].config.Old? && !run[j].files
  }

  /** It does just when the boot-time copy fit on flash. */
  lemma {:induction false} RestartNeedsTheCopy(s: Dev)
    requires AwaitsConfirm(s) && Prompt(s)
    ensures RestartPutsBack(s) <==> s.copied
  {
    if s.copied {
      forall run: seq<Dev>, i, j | IsRun(run) && run[0] == s && 0 <= i <= j < |run| && Says(run[i], false) && run[j].dog.Cut? && NeverKept(run)
        ensures run[j].config.Old? && !run[j].files
      {
        var c := FiredThenRestarted(run, i, j);
      }
    } else {
      var run, i := FiredThenCut(s);
      assert !run[|run| - 1].config.Old?;
    }
  }

  /** Without it: asked as it marks its restore, the watchdog has fired; the device restarts before
      the restore, and keeps the new config. */
  lemma {:induction false} FiredThenCut(s: Dev) returns (run: seq<Dev>, i: nat)
    requires AwaitsConfirm(s) && !s.copied
    ensures IsRun(run) && run[0] == s && i < |run| && Says(run[i], false) && Last(run).dog.Cut? && Last(run).config.New?
    ensures NeverKept(run)
  {
    var gap := InTheGap(s);
    WatchOn(gap, WakesAt(s));
    var marked := gap + [NextDog(Last(gap), WakesAt(s))];
    assert Last(marked).asks == [Arrived];
    run := AskTheRestoring(marked);
    i := |run| - 1;
    assert run[i].asks[0] == Said(false);
    var cut := AfterCut(Last(run), Last(run).clock);
    assert Step(Last(run), PowerCut, cut, Last(run).clock);
    Extend(run, cut);
    run := run + [cut];
  }

  /** A disarm that comes as the watchdog restores finds it running, and restoring. */
  lemma {:induction false} AskTheRestoring(before: seq<Dev>) returns (run: seq<Dev>)
    requires IsRun(before) && NeverKept(before) && Last(before).asks == [Arrived] && !Last(before).disarmed
    requires Last(before).dog.Restoring? && Last(before).run.RunDir? && Last(before).run.restoring
    ensures IsRun(run) && NeverKept(run) && run[0] == before[0] && |run| >= |before|
    ensures Last(run).asks == [Said(false)] && Last(run).dog.Restoring? && Last(run).config == Last(before).config && Last(run).boot == Last(before).boot
  {
    ghost var at := Last(before).clock;
    ghost var pcs := [Arrived, Flagging, Killing, Settling(at), Looking, Unseen, Said(false)];
    run := before;
    for n := 0 to 6
      invariant IsRun(run) && NeverKept(run) && run[0] == before[0] && |run| >= |before|
      invariant Last(run).asks == [pcs[n]] && Last(run).dog.Restoring? && Last(run).config == Last(before).config && Last(run).boot == Last(before).boot
      invariant Last(run).run.RunDir? && Last(run).run.restoring && !Last(run).disarmed
      invariant Last(run).clock == if n <= 3 then at else at + SETTLE
    {
      var t := if n < 3 then at else at + SETTLE;
      AskOn(run, t);
      var next := NextAsk(Last(run), 0, t);
      assert next.asks == [pcs[n + 1]];
      run := run + [next];
    }
  }

  // ----- What a rollback leaves, once the watchdog has run to its end -----

  ghost predicate Goes(s: Dev, s2: Dev) {
    exists a, t :: Step(s, a, s2, t)
  }

  /** A run with no disarm in it: what the coordinator's abort leaves to itself. */
  ghost predicate IsQuiet(run: seq<Dev>) {
    |run| > 0 && forall i :: 0 <= i < |run| - 1 ==> Goes(run[i], run[i + 1])
  }

  predicate Ended(s: Dev) {
    !s.dog.Starting? && !Running(s.dog) && !Busy(s.work)
  }

  /** An ended device changes no more, but by a restart: no step of the watchdog or of a step verb is left. */
  lemma {:induction false} EndedChangesNothing(s: Dev, a: Action, s2: Dev, t: int)
    requires Ended(s) && Step(s, a, s2, t)
    ensures a.AskStep? || a.PowerCut?
    ensures a.PowerCut? || SameContents(s, s2)
  {
    if a.AskStep? { assert s2 == NextAsk(s, a.k, t); }
  }

  /** What a restore put back stays put back. */
  predicate Whole(s: Dev) {
    && (Undone(s) ==> OnSnapshot(s) && (s.work.Committing? ==> !s.staged))
    && (Toiling(s) ==> !s.irreversible)
  }

  /** A watchdog is dead only if it was, or was killed. */
  lemma {:induction false} DeadIfKilled(s: Dev, a: Action, s2: Dev, t: int)
    requires Step(s, a, s2, t) && s2.dog.Dead?
    ensures s.dog.Dead? || s.deaths < s2.deaths
  {
    if a.AskStep? { assert s2 == NextAsk(s, a.k, t); }
  }

  lemma {:induction false} GoingKeeps(s: Dev, s2: Dev)
    requires Inv(s) && Goes(s, s2)
    ensures Inv(s2)
    ensures Armed(s) ==> Armed(s2)
    ensures Untouched(s) ==> Untouched(s2)
    ensures s2.patient == s.patient && s.deaths <= s2.deaths
    ensures s2.dog.Dead? ==> s.dog.Dead? || s.deaths < s2.deaths
  {
    var a, t :| Step(s, a, s2, t);
    GoneOn(s, a, s2, t);
    if s2.dog.Dead? { DeadIfKilled(s, a, s2, t); }
  }

  lemma {:induction false} GoneOn(s: Dev, a: Action, s2: Dev, t: int)
    requires Inv(s) && Step(s, a, s2, t)
    ensures Inv(s2) && s2.patient == s.patient && s.deaths <= s2.deaths
    ensures (Armed(s) ==> Armed(s2)) && (Untouched(s) ==> Untouched(s2))
  {
    StepKeepsInv(s, a, s2, t);
    StepIsProgress(s, a, s2, t);
  }

  lemma {:induction false} GoingKeepsWhole(s: Dev, a: Action, s2: Dev, t: int)
    requires Step(s, a, s2, t) && Whole(s)
    ensures Whole(s2)
  {
    match a {
      case Watch => assert Whole(NextDog(s, t));
      case Labour(well) => assert Whole(NextWork(s, well, t));
      case AskStep(k) => assert Whole(NextAsk(s, k, t));
      case PowerCut => assert Whole(AfterCut(s, t));
      case _ =>
    }
  }

  lemma {:induction false} QuietKeeps(run: seq<Dev>, j: nat)
    requires IsQuiet(run) && j < |run| && Inv(run[0])
    ensures Inv(run[j])
    ensures Armed(run[0]) ==> Armed(run[j])
    ensures Untouched(run[0]) ==> Untouched(run[j])
    ensures Whole(run[0]) ==> Whole(run[j])
    ensures run[j].patient == run[0].patient && run[0].deaths <= run[j].deaths
    ensures run[j].dog.Dead? ==> run[0].dog.Dead? || run[0].deaths < run[j].deaths
    decreases j
  {
    if j > 0 {
      QuietKeeps(run, j - 1);
      assert Goes(run[j - 1], run[j - 1 + 1]);
      GoingKeeps(run[j - 1], run[j]);
      if Whole(run[j - 1]) {
        var a, t :| Step(run[j - 1], a, run[j], t);
        GoingKeepsWhole(run[j - 1], a, run[j], t);
      }
    }
  }

  /** A run undone: once its watchdog has ended, a device the coordinator left going back holds its
      snapshot's config, unless the watchdog was dead then or was killed since, or the device
      restarted with no boot-time copy; files and packages too, unless a prepare or stage changed
      something after the restore. */
  lemma {:induction false} UndoneDeviceEndsOnSnapshot(run: seq<Dev>)
    requires IsQuiet(run) && Inv(run[0]) && (Armed(run[0]) || Untouched(run[0])) && Ended(Last(run))
    ensures var s := Last(run);
      && (OnSnapshot(s) || s.late.Some? || s.dog.Cut? || (s.dog.Dead? && (run[0].dog.Dead? || run[0].deaths < s.deaths)))
      && (s.patient ==> s.config.Old? || s.dog.Dead? || s.dog.Cut?)
      && (s.dog.Cut? && s.copied && Armed(run[0]) ==> (s.config.Old? && !s.files) || s.late.Some?)
      && (s.late.Some? ==> s.late.value.Preparing? || s.late.value.Staging? || s.late.value.Batched?)
      && (Untouched(run[0]) ==> OnSnapshot(s))
  {
    QuietKeeps(run, |run| - 1);
  }

  /** Whether every run from `s` that the watchdog ends by restoring ends on the whole snapshot. */
  ghost predicate AlwaysWhole(s: Dev) {
    forall run | IsQuiet(run) && run[0] == s && Undone(Last(run)) :: OnSnapshot(Last(run))
  }

  /** Exactly when a rollback that comes now is whole: no prepare or stage is at work that changes
      packages or files. One that is can change them after the restore. */
  lemma {:induction false} WholeUnlessToiling(s: Dev)
    requires Inv(s) && Armed(s) && s.dog.Asleep?
    ensures AlwaysWhole(s) <==> !(Toiling(s) && s.irreversible)
  {
    if Toiling(s) && s.irreversible {
      var run := RestoredUnderToil(s);
    } else {
      forall run | IsQuiet(run) && run[0] == s && Undone(Last(run)) ensures OnSnapshot(Last(run)) {
        QuietKeeps(run, |run| - 1);
      }
    }
  }

  lemma {:induction false} RestoredUnderToil(s: Dev) returns (run: seq<Dev>)
    requires Inv(s) && Armed(s) && s.dog.Asleep? && Toiling(s) && s.irreversible
    ensures IsQuiet(run) && run[0] == s && Undone(Last(run)) && !OnSnapshot(Last(run))
  {
    run := [s];
    ghost var t := WakesAt(s);
    for n := 0 to 4
      invariant IsQuiet(run) && run[0] == s
      invariant Last(run).dog == [Asleep, Awake, Checked, Restoring, Waiting][n]
      invariant Toiling(Last(run)) && Last(run).irreversible && Last(run).run.RunDir? && !Last(run).run.confirmed
      invariant Last(run).firesAt == s.firesAt && Last(run).clock == (if n == 0 then s.clock else t)
      invariant n == 2 ==> Last(run).tested == t
    {
      assert Step(Last(run), Watch, NextDog(Last(run), t), t);
      QuietOn(run, NextDog(Last(run), t));
      run := run + [NextDog(Last(run), t)];
    }
    var late := Last(run).(pkgs := true, late := Some(Last(run).work));
    assert Step(Last(run), Toil(true, false), late, t);
    QuietOn(run, late);
    run := run + [late];
  }

  lemma {:induction false} QuietOn(run: seq<Dev>, s2: Dev)
    requires IsQuiet(run) && Goes(Last(run), s2)
    ensures IsQuiet(run + [s2])
  {
    forall i | 0 <= i < |run + [s2]| - 1 ensures Goes((run + [s2])[i], (run + [s2])[i + 1]) {
      if i < |run| - 1 { assert Goes(run[i], run[i + 1]); }
    }
  }

  /** How far the watchdog is from its end. */
  function StepsLeft(dog: Dog): nat {
    match dog
    case Starting => 7
    case Asleep => 6
    case Awake => 5
    case Checked => 4
    case Restoring => 3
    case Leaving => 2
    case Waiting => 1
    case Clearing => 1
    case _ => 0
  }

  /** A watchdog ends: each of its own steps brings it closer, nothing else sets it back. */
  lemma {:induction false} WatchdogEnds(s: Dev, a: Action, s2: Dev, t: int)
    requires Step(s, a, s2, t)
    ensures StepsLeft(s2.dog) <= StepsLeft(s.dog)
    ensures a.Watch? ==> StepsLeft(s2.dog) < StepsLeft(s.dog)
    ensures StepsLeft(s.dog) == 0 <==> !s.dog.Starting? && !Running(s.dog)
  {
    if a.AskStep? { assert s2 == NextAsk(s, a.k, t); }
  }
}
