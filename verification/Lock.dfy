/** A lock across processes (src/lock.ts, takeLock and releaseLock): a directory made atomically,
    holding its owner's token, and a second, momentary one to take it over by. Any number of
    processes, each one step at a time, in any order. */
module Lock {
  import opened Wrappers

  /** Where a process is. The steps of taking over are done holding the takeover directory. */
  datatype Phase =
    | Idle
    | Made        // the lock's directory is its own, the token not yet written
    | Holding
    | Checked     // about to give it back: the token there was its own
    | Busy        // the lock was there
    | SawOld      // found the takeover directory too old
    | Judging     // holds the takeover directory
    | Condemned   // the holder was judged gone
    | Cleared     // the lock's directory was removed
    | MadeOver    // the lock's directory is its own, within the takeover
    | Leaving(held: bool)
    | Crashed

  /** The lock's directory: who made it, and the token in it. */
  datatype Dir = Dir(maker: nat, owner: Option<nat>)

  datatype State = State(procs: seq<Phase>, lock: Option<Dir>, takeover: Option<nat>)

  datatype Step =
    | MakeLock | WriteToken | FindOwn | Release | FindOld | RemoveOld | MakeTakeover | Judge(gone: bool) | Clear | MakeLockOver | WriteTokenOver | Leave | Crash

  predicate HasLock(phase: Phase) {
    phase.Made? || phase.Holding? || phase.Checked? || phase.MadeOver? || phase == Leaving(true)
  }

  predicate TakingOver(phase: Phase) {
    phase.Judging? || phase.Condemned? || phase.Cleared? || phase.MadeOver? || phase.Leaving?
  }

  /** What may happen: a lock that is not there judged gone; a process dying within a takeover; a live
      holder judged gone (by age, say); a live taker's directory found too old. */
  datatype Rules = Rules(absentIsGone: bool, deathsInTakeover: bool, liveIsGone: bool, slowTakeover: bool)

  /** Only a crashed holder judged gone, no process dying within a takeover, and none slower in it than
      its limit. */
  const SOUND := Rules(false, false, false, false)
  const ABSENT_GONE := Rules(true, false, false, false)
  const DEATHS := Rules(false, true, false, false)
  const LIVE_GONE := Rules(false, false, true, false)
  const SLOW := Rules(false, false, false, true)

  predicate IsCrashed(s: State, p: nat) {
    p < |s.procs| && s.procs[p].Crashed?
  }

  predicate MayJudgeGone(s: State, rules: Rules) {
    if s.lock.Some? then rules.liveIsGone || IsCrashed(s, s.lock.value.maker) else rules.absentIsGone
  }

  function Put(s: State, p: nat, phase: Phase): State
    requires p < |s.procs|
  {
    s.(procs := s.procs[p := phase])
  }

  predicate Enabled(s: State, p: nat, step: Step, rules: Rules)
    requires p < |s.procs|
  {
    var phase := s.procs[p];
    match step
    case MakeLock => phase.Idle?
    case WriteToken => phase.Made? && s.lock.Some?
    case FindOwn => phase.Holding?
    case Release => phase.Checked?
    case FindOld => phase.Busy? && s.takeover.Some? && (rules.slowTakeover || IsCrashed(s, s.takeover.value))
    case RemoveOld => phase.SawOld?
    case MakeTakeover => phase.Busy?
    case Judge(gone) => phase.Judging? && (gone ==> MayJudgeGone(s, rules))
    case Clear => phase.Condemned?
    case MakeLockOver => phase.Cleared?
    case WriteTokenOver => phase.MadeOver? && s.lock.Some?
    case Leave => phase.Leaving?
    case Crash => !phase.Crashed? && (TakingOver(phase) ==> rules.deathsInTakeover)
  }

  /** One call on the file system. */
  function Do(s: State, p: nat, step: Step, rules: Rules): State
    requires p < |s.procs| && Enabled(s, p, step, rules)
  {
    match step
    case MakeLock => if s.lock.None? then Put(s, p, Made).(lock := Some(Dir(p, None))) else Put(s, p, Busy)
    case WriteToken => Put(s, p, Holding).(lock := Some(s.lock.value.(owner := Some(p))))
    case FindOwn => Put(s, p, if s.lock.Some? && s.lock.value.owner == Some(p) then Checked else Idle)
    case Release => Put(s, p, Idle).(lock := None)
    case FindOld => Put(s, p, SawOld)
    case RemoveOld => Put(s, p, Busy).(takeover := None)
    case MakeTakeover => if s.takeover.None? then Put(s, p, Judging).(takeover := Some(p)) else Put(s, p, Idle)
    case Judge(gone) => Put(s, p, if gone then Condemned else Leaving(false))
    case Clear => Put(s, p, Cleared).(lock := None)
    case MakeLockOver => if s.lock.None? then Put(s, p, MadeOver).(lock := Some(Dir(p, None))) else Put(s, p, Leaving(false))
    case WriteTokenOver => Put(s, p, Leaving(true)).(lock := Some(s.lock.value.(owner := Some(p))))
    case Leave => Put(s, p, if s.procs[p].held then Holding else Idle).(takeover := None)
    case Crash => Put(s, p, Crashed)
  }

  ghost predicate Next(s: State, t: State, rules: Rules) {
    exists p, step :: 0 <= p < |s.procs| && Enabled(s, p, step, rules) && t == Do(s, p, step, rules)
  }

  predicate Start(s: State) {
    s.lock.None? && s.takeover.None? && forall p :: 0 <= p < |s.procs| ==> s.procs[p].Idle?
  }

  ghost predicate IsRun(run: seq<State>, rules: Rules) {
    run != [] && Start(run[0]) && forall i :: 0 <= i < |run| - 1 ==> Next(run[i], run[i + 1], rules)
  }

  // ----- What every step keeps -----

  predicate Owned(s: State, p: nat)
    requires p < |s.procs|
  {
    var phase := s.procs[p];
    && (HasLock(phase) ==> s.lock.Some? && s.lock.value.maker == p)
    && (phase.Holding? || phase.Checked? || phase == Leaving(true) ==> s.lock.value.owner == Some(p))
    && (phase.Condemned? ==> s.lock.Some? && s.lock.value.maker < |s.procs| && s.procs[s.lock.value.maker].Crashed?)
    && (TakingOver(phase) <==> s.takeover == Some(p))
    && !phase.SawOld?
  }

  predicate Inv(s: State) {
    && (s.takeover.Some? ==> s.takeover.value < |s.procs|)
    && (s.lock.Some? ==> s.lock.value.maker < |s.procs| && (HasLock(s.procs[s.lock.value.maker]) || s.procs[s.lock.value.maker].Crashed?))
    && forall p :: 0 <= p < |s.procs| ==> Owned(s, p)
  }

  lemma {:induction false} StepKeepsInv(s: State, p: nat, step: Step)
    requires Inv(s) && p < |s.procs| && Enabled(s, p, step, SOUND)
    ensures Inv(Do(s, p, step, SOUND))
  {
    var t := Do(s, p, step, SOUND);
    assert s.takeover.Some? ==> Owned(s, s.takeover.value);
    forall q | 0 <= q < |t.procs| ensures Owned(t, q) {
      assert Owned(s, q) && Owned(s, p);
    }
  }

  lemma {:induction false} RunKeepsInv(run: seq<State>, i: nat)
    requires IsRun(run, SOUND) && i < |run|
    ensures Inv(run[i])
    decreases i
  {
    if i > 0 {
      RunKeepsInv(run, i - 1);
      assert Next(run[i - 1], run[i - 1 + 1], SOUND);
      var p, step :| 0 <= p < |run[i - 1].procs| && Enabled(run[i - 1], p, step, SOUND) && run[i] == Do(run[i - 1], p, step, SOUND);
      StepKeepsInv(run[i - 1], p, step);
    }
  }

  /** At most one live process has the lock, in every state of every run: whatever the number of
      processes taking, taking over, giving back and crashing, in any order, so long as only a
      crashed holder is judged gone, and none dies or outlasts its limit within a takeover. */
  lemma {:induction false} MutualExclusion(run: seq<State>, i: nat, p: nat, q: nat)
    requires IsRun(run, SOUND) && i < |run| && p < |run[i].procs| && q < |run[i].procs|
    requires HasLock(run[i].procs[p]) && HasLock(run[i].procs[q])
    ensures p == q
  {
    RunKeepsInv(run, i);
    assert Owned(run[i], p) && Owned(run[i], q);
  }

  /** And who holds it gives it back: the token there is still its own. */
  lemma {:induction false} HolderReleases(run: seq<State>, i: nat, p: nat)
    requires IsRun(run, SOUND) && i < |run| && p < |run[i].procs| && run[i].procs[p].Holding?
    ensures Do(run[i], p, FindOwn, SOUND).procs[p].Checked?
  {
    RunKeepsInv(run, i);
    assert Owned(run[i], p);
  }

  // ----- Each assumption is needed -----

  /** A step more on a run. */
  lemma {:induction false} Then(run: seq<State>, p: nat, step: Step, rules: Rules) returns (longer: seq<State>)
    requires IsRun(run, rules) && p < |run[|run| - 1].procs| && Enabled(run[|run| - 1], p, step, rules)
    ensures IsRun(longer, rules) && longer[|longer| - 1] == Do(run[|run| - 1], p, step, rules)
  {
    longer := run + [Do(run[|run| - 1], p, step, rules)];
    forall i | 0 <= i < |longer| - 1 ensures Next(longer[i], longer[i + 1], rules) {
      if i < |run| - 1 { assert Next(run[i], run[i + 1], rules); }
    }
  }

  /** A verdict on a lock that is not there (its holder gave it back meanwhile) lets two in: another
      takes the free lock before it is cleared away. */
  lemma {:induction false} AbsentVerdictBreaksIt() returns (run: seq<State>)
    ensures IsRun(run, ABSENT_GONE)
    ensures var last := run[|run| - 1]; |last.procs| == 3 && HasLock(last.procs[1]) && HasLock(last.procs[2])
  {
    var rules := ABSENT_GONE;
    run := [State([Idle, Idle, Idle], None, None)];
    run := Then(run, 0, MakeLock, rules);
    run := Then(run, 0, WriteToken, rules);
    run := Then(run, 1, MakeLock, rules);
    run := Then(run, 1, MakeTakeover, rules);
    run := FreedThenJudged(run);
    run := Then(run, 2, MakeLock, rules);
    run := Then(run, 1, Clear, rules);
    run := Then(run, 1, MakeLockOver, rules);
  }

  lemma {:induction false} FreedThenJudged(start: seq<State>) returns (run: seq<State>)
    requires IsRun(start, ABSENT_GONE)
    requires start[|start| - 1] == State([Holding, Judging, Idle], Some(Dir(0, Some(0))), Some(1))
    ensures IsRun(run, ABSENT_GONE) && run[|run| - 1] == State([Idle, Condemned, Idle], None, Some(1))
  {
    var rules := ABSENT_GONE;
    run := Then(start, 0, FindOwn, rules);
    run := Then(run, 0, Release, rules);
    run := Then(run, 1, Judge(true), rules);
  }

  /** A process that dies within a takeover lets two in: both others find its directory old, and the
      second removes the first's. */
  lemma {:induction false} DeathInTakeoverBreaksIt() returns (run: seq<State>)
    ensures IsRun(run, DEATHS)
    ensures var last := run[|run| - 1]; |last.procs| == 4 && HasLock(last.procs[2]) && HasLock(last.procs[3])
  {
    var start := BothFindItOld();
    run := BothTakeOver(start);
  }

  /** The holder and then its taker die; two find the takeover's directory old. */
  lemma {:induction false} BothFindItOld() returns (run: seq<State>)
    ensures IsRun(run, DEATHS)
    ensures run[|run| - 1] == State([Crashed, Crashed, SawOld, SawOld], Some(Dir(0, Some(0))), Some(1))
  {
    run := HolderAndTakerDie();
    run := Then(run, 2, MakeLock, DEATHS);
    run := Then(run, 3, MakeLock, DEATHS);
    run := Then(run, 2, FindOld, DEATHS);
    run := Then(run, 3, FindOld, DEATHS);
  }

  lemma {:induction false} HolderAndTakerDie() returns (run: seq<State>)
    ensures IsRun(run, DEATHS)
    ensures run[|run| - 1] == State([Crashed, Crashed, Idle, Idle], Some(Dir(0, Some(0))), Some(1))
  {
    run := [State([Idle, Idle, Idle, Idle], None, None)];
    run := Then(run, 0, MakeLock, DEATHS);
    run := Then(run, 0, WriteToken, DEATHS);
    run := Then(run, 0, Crash, DEATHS);
    run := Then(run, 1, MakeLock, DEATHS);
    run := Then(run, 1, MakeTakeover, DEATHS);
    run := Then(run, 1, Crash, DEATHS);
  }

  lemma {:induction false} BothTakeOver(start: seq<State>) returns (run: seq<State>)
    requires IsRun(start, DEATHS)
    requires start[|start| - 1] == State([Crashed, Crashed, SawOld, SawOld], Some(Dir(0, Some(0))), Some(1))
    ensures IsRun(run, DEATHS)
    ensures var last := run[|run| - 1]; |last.procs| == 4 && HasLock(last.procs[2]) && HasLock(last.procs[3])
  {
    var rules := DEATHS;
    run := Then(start, 2, RemoveOld, rules);
    run := Then(run, 2, MakeTakeover, rules);
    run := Then(run, 2, Judge(true), rules);
    run := Then(run, 3, RemoveOld, rules);
    run := Then(run, 3, MakeTakeover, rules);
    run := Then(run, 3, Judge(true), rules);
    run := Then(run, 2, Clear, rules);
    run := Then(run, 2, MakeLockOver, rules);
    run := Then(run, 3, Clear, rules);
    run := Then(run, 3, MakeLockOver, rules);
  }

  /** A live holder judged gone lets two in: it and the taker. */
  lemma {:induction false} LiveVerdictBreaksIt() returns (run: seq<State>)
    ensures IsRun(run, LIVE_GONE)
    ensures var last := run[|run| - 1]; |last.procs| == 2 && HasLock(last.procs[0]) && HasLock(last.procs[1])
  {
    run := [State([Idle, Idle], None, None)];
    run := Then(run, 0, MakeLock, LIVE_GONE);
    run := Then(run, 0, WriteToken, LIVE_GONE);
    run := Then(run, 1, MakeLock, LIVE_GONE);
    run := Then(run, 1, MakeTakeover, LIVE_GONE);
    run := Then(run, 1, Judge(true), LIVE_GONE);
    run := Then(run, 1, Clear, LIVE_GONE);
    run := Then(run, 1, MakeLockOver, LIVE_GONE);
  }

  /** A taker slower than its limit lets two in: another takes over beside it. */
  lemma {:induction false} SlowTakeoverBreaksIt() returns (run: seq<State>)
    ensures IsRun(run, SLOW)
    ensures var last := run[|run| - 1]; |last.procs| == 3 && HasLock(last.procs[1]) && HasLock(last.procs[2])
  {
    run := TwoTakeOver();
    run := Then(run, 1, Judge(true), SLOW);
    run := Then(run, 2, Judge(true), SLOW);
    run := Then(run, 1, Clear, SLOW);
    run := Then(run, 1, MakeLockOver, SLOW);
    run := Then(run, 2, Clear, SLOW);
    run := Then(run, 2, MakeLockOver, SLOW);
  }

  lemma {:induction false} TwoTakeOver() returns (run: seq<State>)
    ensures IsRun(run, SLOW) && run[|run| - 1] == State([Crashed, Judging, Judging], Some(Dir(0, Some(0))), Some(2))
  {
    run := [State([Idle, Idle, Idle], None, None)];
    run := Then(run, 0, MakeLock, SLOW);
    run := Then(run, 0, WriteToken, SLOW);
    run := Then(run, 0, Crash, SLOW);
    run := Then(run, 1, MakeLock, SLOW);
    run := Then(run, 2, MakeLock, SLOW);
    run := Then(run, 1, MakeTakeover, SLOW);
    run := Then(run, 2, FindOld, SLOW);
    run := Then(run, 2, RemoveOld, SLOW);
    run := Then(run, 2, MakeTakeover, SLOW);
  }

  // ----- Exclusion, exactly -----

  /** No run ever lets two live processes have the lock. */
  ghost predicate Exclusive(rules: Rules) {
    forall run, i, p, q :: IsRun(run, rules) && 0 <= i < |run| && BothHold(run[i], p, q) ==> p == q
  }

  predicate BothHold(s: State, p: nat, q: nat) {
    p < |s.procs| && q < |s.procs| && HasLock(s.procs[p]) && HasLock(s.procs[q])
  }

  predicate Allows(more: Rules, less: Rules) {
    && (less.absentIsGone ==> more.absentIsGone) && (less.deathsInTakeover ==> more.deathsInTakeover)
    && (less.liveIsGone ==> more.liveIsGone) && (less.slowTakeover ==> more.slowTakeover)
  }

  /** A run is one under any rules that allow more. */
  lemma {:induction false} RunUnderMore(run: seq<State>, less: Rules, more: Rules)
    requires IsRun(run, less) && Allows(more, less)
    ensures IsRun(run, more)
  {
    forall i | 0 <= i < |run| - 1 ensures Next(run[i], run[i + 1], more) {
      assert Next(run[i], run[i + 1], less);
      var p, step :| 0 <= p < |run[i].procs| && Enabled(run[i], p, step, less) && run[i + 1] == Do(run[i], p, step, less);
      assert Enabled(run[i], p, step, more) && run[i + 1] == Do(run[i], p, step, more);
    }
  }

  /** The lock excludes just when only a crashed holder is judged gone, and no process dies or outlasts
      its limit within a takeover. */
  lemma {:induction false} ExclusionIsExact(rules: Rules)
    ensures Exclusive(rules) <==> rules == SOUND
  {
    if rules == SOUND {
      forall run, i, p, q | IsRun(run, rules) && 0 <= i < |run| && BothHold(run[i], p, q) ensures p == q {
        MutualExclusion(run, i, p, q);
      }
    } else if rules.absentIsGone {
      var run := AbsentVerdictBreaksIt();
      RunUnderMore(run, ABSENT_GONE, rules);
      assert BothHold(run[|run| - 1], 1, 2);
    } else if rules.deathsInTakeover {
      var run := DeathInTakeoverBreaksIt();
      RunUnderMore(run, DEATHS, rules);
      assert BothHold(run[|run| - 1], 2, 3);
    } else if rules.liveIsGone {
      var run := LiveVerdictBreaksIt();
      RunUnderMore(run, LIVE_GONE, rules);
      assert BothHold(run[|run| - 1], 0, 1);
    } else {
      var run := SlowTakeoverBreaksIt();
      RunUnderMore(run, SLOW, rules);
      assert BothHold(run[|run| - 1], 1, 2);
    }
  }
}
