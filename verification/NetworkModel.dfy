/** The devices of a run and the links to them: what one call of an agent verb does, when any
    call may never arrive, or lose its answer, and everything goes on meanwhile
    (src/agent/index.ts, call; src/apply/recover.ts). */
module NetworkModel {
  import opened Wrappers
  import opened Device
  import opened Verbs

  datatype Verb =
    | Install | Arm | Drop | Prepare | Stage | Revert | Finalise | CommitFinished | Asleep_ | Disarm | WakeUp | Done

  /** A call as it was sent: to which device, when, as that device then was, and whether every
      watchdog had by then been found asleep with time to spare. */
  datatype Sent = Sent(verb: Verb, dev: nat, at: int, ready: bool, state: Dev)

  predicate StandsDown(verb: Verb) {
    verb.Disarm? || verb.Drop?
  }

  predicate CommitSent(log: seq<Sent>, dev: nat) {
    exists p :: 0 <= p < |log| && log[p].verb.Finalise? && log[p].dev == dev
  }

  /** No early disarm: before every watchdog was found asleep in time, a device is only ever stood
      down that the run has not changed and was not sent its commit. */
  ghost predicate Orderly(log: seq<Sent>) {
    forall p | 0 <= p < |log| && StandsDown(log[p].verb) && !log[p].ready ::
      Untouched(log[p].state) && !CommitSent(log[..p], log[p].dev)
  }

  lemma {:induction false} SendKeepsOrder(log: seq<Sent>, sent: Sent)
    requires Orderly(log)
    requires StandsDown(sent.verb) && !sent.ready ==> Untouched(sent.state) && !CommitSent(log, sent.dev)
    ensures Orderly(log + [sent])
  {
    forall p | 0 <= p < |log + [sent]| && StandsDown((log + [sent])[p].verb) && !(log + [sent])[p].ready
      ensures Untouched((log + [sent])[p].state) && !CommitSent((log + [sent])[..p], (log + [sent])[p].dev)
    {
      assert (log + [sent])[..p] == log[..p];
      if p == |log| { assert log[..p] == log; }
    }
  }

  /** `b` is `a` with calls sent, none of them a commit. */
  ghost predicate NoCommit(a: seq<Sent>, b: seq<Sent>) {
    a <= b && forall p :: |a| <= p < |b| ==> !b[p].verb.Finalise?
  }

  lemma {:induction false} NoCommitSends(a: seq<Sent>, b: seq<Sent>)
    requires NoCommit(a, b)
    ensures forall dev :: CommitSent(b, dev) <==> CommitSent(a, dev)
  {
    forall dev ensures CommitSent(b, dev) <==> CommitSent(a, dev) {
      if CommitSent(a, dev) {
        var p :| 0 <= p < |a| && a[p].verb.Finalise? && a[p].dev == dev;
        assert b[p] == a[p];
      }
      if CommitSent(b, dev) {
        var p :| 0 <= p < |b| && b[p].verb.Finalise? && b[p].dev == dev;
        assert p < |a| && a[p] == b[p];
      }
    }
  }

  lemma {:induction false} NoCommitComposes(a: seq<Sent>, b: seq<Sent>, c: seq<Sent>)
    requires NoCommit(a, b) && NoCommit(b, c)
    ensures NoCommit(a, c)
  {
    forall p | |a| <= p < |c| ensures !c[p].verb.Finalise? {
      if p < |b| { assert b[p] == c[p]; }
    }
  }

  /** How many commits were sent. */
  function Commits(log: seq<Sent>): nat {
    if log == [] then 0
    else Commits(log[..|log| - 1]) + (if log[|log| - 1].verb.Finalise? then 1 else 0)
  }

  /** Each commit sent leaves time, before the earliest deadline, to confirm every device
      committed by then and this one. */
  ghost predicate InWindow(log: seq<Sent>, earliest: int, minimum: nat) {
    forall p | 0 <= p < |log| && log[p].verb.Finalise? :: earliest - log[p].at >= minimum * (Commits(log[..p]) + 1)
  }

  lemma {:induction false} SentInWindow(log: seq<Sent>, sent: Sent, earliest: int, minimum: nat)
    requires InWindow(log, earliest, minimum)
    requires sent.verb.Finalise? ==> earliest - sent.at >= minimum * (Commits(log) + 1)
    ensures InWindow(log + [sent], earliest, minimum)
    ensures Commits(log + [sent]) == Commits(log) + (if sent.verb.Finalise? then 1 else 0)
  {
    var more := log + [sent];
    assert more[..|log|] == log;
    forall p | 0 <= p < |more| && more[p].verb.Finalise? ensures earliest - more[p].at >= minimum * (Commits(more[..p]) + 1) {
      assert more[..p] == log[..p];
    }
  }

  lemma {:induction false} NoCommitInWindow(a: seq<Sent>, b: seq<Sent>, earliest: int, minimum: nat)
    requires NoCommit(a, b) && InWindow(a, earliest, minimum)
    ensures InWindow(b, earliest, minimum) && Commits(b) == Commits(a)
    decreases |b|
  {
    if |a| < |b| {
      var less := b[..|b| - 1];
      NoCommitInWindow(a, less, earliest, minimum);
      SentInWindow(less, b[|b| - 1], earliest, minimum);
      assert less + [b[|b| - 1]] == b;
    } else {
      assert a == b;
    }
  }

  // ----- All the devices at once -----

  ghost predicate AllInv(devs: seq<Dev>) {
    forall i :: 0 <= i < |devs| ==> Inv(devs[i])
  }

  ghost predicate Onward(a: seq<Dev>, b: seq<Dev>, t: int) {
    |a| == |b| && forall i :: 0 <= i < |a| ==> Progress(a[i], b[i], t)
  }

  /** All but the i-th. */
  ghost predicate Beside(a: seq<Dev>, b: seq<Dev>, i: nat, t: int) {
    |a| == |b| && forall j :: 0 <= j < |a| && j != i ==> Progress(a[j], b[j], t)
  }

  ghost predicate AllSafe(a: seq<Dev>, b: seq<Dev>) {
    |a| == |b| && forall j :: 0 <= j < |a| ==> Safe(a[j], b[j])
  }

  lemma {:induction false} OnwardIsSafe(a: seq<Dev>, b: seq<Dev>, t: int)
    requires Onward(a, b, t)
    ensures AllSafe(a, b)
  {
    forall i | 0 <= i < |a| ensures Safe(a[i], b[i]) { ProgressIsSafe(a[i], b[i], t); }
  }

  /** A call that tells what becomes of the rollback, to a device that has one. */
  predicate Tells(sent: Sent, dev: nat) {
    (sent.verb.WakeUp? || sent.verb.Asleep_?) && sent.dev == dev && Armed(sent.state)
  }

  /** The call was sent, and since then the watchdog has been killed, or the rollback comes. */
  predicate TellsAt(log: seq<Sent>, at: nat, dev: nat, s: Dev, t: int) {
    at < |log| && Tells(log[at], dev) && log[at].state.deaths <= s.deaths && ComesUnlessKilled(s, log[at].state.deaths, t)
  }

  /** The rollback comes, if the watchdog was killed no oftener. */
  predicate ComesUnlessKilled(s: Dev, deaths: nat, t: int) {
    s.deaths == deaths ==> Coming(s, t) && !s.dog.Dead?
  }

  lemma {:induction false} ComesOn(s: Dev, s2: Dev, deaths: nat, t: int, t2: int)
    requires Armed(s) && Safe(s, s2) && ComesUnlessKilled(s, deaths, t) && deaths <= s.deaths && t <= t2
    ensures ComesUnlessKilled(s2, deaths, t2)
  {
  }

  lemma {:induction false} TellsOn(log: seq<Sent>, log2: seq<Sent>, at: nat, dev: nat, s: Dev, s2: Dev, t: int, t2: int)
    requires TellsAt(log, at, dev, s, t) && Armed(s) && Safe(s, s2) && log <= log2 && t <= t2
    ensures TellsAt(log2, at, dev, s2, t2)
  {
    ComesOn(s, s2, log[at].state.deaths, t, t2);
  }

  lemma {:induction false} WokenOn(s: Dev, sent: Dev, there: Dev, s2: Dev, t: int, t2: int)
    requires Armed(s) && Safe(s, sent) && Safe(sent, there) && Progress(there, s2, t2) && t <= t2
    ensures Safe(s, s2) && there.deaths <= s2.deaths && (Installed(there) ==> Installed(s2))
    ensures ComesUnlessKilled(there, there.deaths, t) ==> ComesUnlessKilled(s2, there.deaths, t2)
  {
    ProgressIsSafe(there, s2, t2);
    if ComesUnlessKilled(there, there.deaths, t) { ComesOn(there, s2, there.deaths, t, t2); }
  }

  /** Its rollback is still there, and its agent or what went with it. */
  predicate KeepsArmed(s: Dev, s2: Dev) {
    Safe(s, s2) && (Installed(s) ==> Installed(s2))
  }

  lemma {:induction false} SafeComposes(s: Dev, s2: Dev, s3: Dev)
    requires Safe(s, s2) && Safe(s2, s3)
    ensures Safe(s, s3)
  {
  }

  lemma {:induction false} ProgressReflexive(s: Dev, t: int)
    ensures Progress(s, s, t)
  {
  }

  lemma {:induction false} OnwardReflexive(devs: seq<Dev>, t: int)
    ensures Onward(devs, devs, t)
  {
    forall i | 0 <= i < |devs| ensures Progress(devs[i], devs[i], t) { ProgressReflexive(devs[i], t); }
  }

  lemma {:induction false} OnwardInTime(a: seq<Dev>, b: seq<Dev>, t: int, t2: int)
    requires Onward(a, b, t) && t <= t2
    ensures Onward(a, b, t2)
  {
    OnwardReflexive(b, t2);
    OnwardComposes(a, b, b, t, t2);
  }

  lemma {:induction false} OnwardComposes(a: seq<Dev>, b: seq<Dev>, c: seq<Dev>, t: int, t2: int)
    requires Onward(a, b, t) && Onward(b, c, t2) && t <= t2
    ensures Onward(a, c, t2)
  {
    forall i | 0 <= i < |a| ensures Progress(a[i], c[i], t2) { ProgressComposes(a[i], b[i], c[i], t, t2); }
  }

  lemma {:induction false} OnwardStep(a: seq<Dev>, b: seq<Dev>, i: nat, s2: Dev, t: int)
    requires Onward(a, b, t) && i < |b| && Progress(b[i], s2, t)
    ensures Onward(a, b[i := s2], t)
  {
    ProgressComposes(a[i], b[i], s2, t, t);
  }

  /** A watchdog that slept, and neither sleeps nor died, is up; one said to have died did. */
  lemma {:induction false} FiredIsUp(s: Dev, t: int)
    requires Inv(s)
    ensures Armed(s) && Slept(s) && Installed(s) && AsleepAnswer(s, t).Fired? ==> Up(s)
    ensures Armed(s) && AsleepAnswer(s, t).DeadAsleep? ==> Lost(s)
  {
  }

  /** Everything goes on, a call reaches the i-th device, everything goes on. */
  lemma {:induction false} BesideComposes(a: seq<Dev>, b: seq<Dev>, c: seq<Dev>, i: nat, t: int, t2: int)
    requires Beside(a, b, i, t) && Beside(b, c, i, t2) && t <= t2
    ensures Beside(a, c, i, t2)
  {
    forall j | 0 <= j < |a| && j != i ensures Progress(a[j], c[j], t2) {
      ProgressComposes(a[j], b[j], c[j], t, t2);
    }
  }

  lemma {:induction false} GuardComposes(s: Dev, s2: Dev, s3: Dev, t: int, t2: int)
    requires KeepsGuard(s, s2, t) && KeepsGuard(s2, s3, t2) && t <= t2
    ensures KeepsGuard(s, s3, t2)
  {
  }

  /** The devices go on, a call changes the i-th, they go on. */
  lemma {:induction false} CallComposes(a: seq<Dev>, b: seq<Dev>, s2: Dev, c: seq<Dev>, i: nat, t: int, t2: int)
    requires i < |a| && Onward(a, b, t) && Onward(b[i := s2], c, t2) && t <= t2
    ensures Beside(a, c, i, t2)
    ensures KeepsGuard(b[i], s2, t) ==> KeepsGuard(a[i], c[i], t2)
  {
    forall j | 0 <= j < |a| && j != i ensures Progress(a[j], c[j], t2) {
      ProgressComposes(a[j], b[j], c[j], t, t2);
    }
    if KeepsGuard(b[i], s2, t) {
      GuardComposes(a[i], b[i], s2, t, t);
      GuardComposes(a[i], s2, c[i], t, t2);
    }
  }

  /** Where a device stands with its watchdog and its agent, and what it is. */
  predicate KeepsPresence(s: Dev, s2: Dev) {
    && SameTraits(s, s2)
    && (Slept(s) ==> Slept(s2))
    && (Installed(s) ==> Installed(s2))
    && (GoneBack(s) ==> GoneBack(s2))
  }

  lemma {:induction false} WorkComposes(s: Dev, s2: Dev, s3: Dev)
    requires KeepsWork(s, s2) && KeepsWork(s2, s3)
    ensures KeepsWork(s, s3)
  {
  }

  lemma {:induction false} DisarmKeepsWork(s: Dev, sent: Dev, asked: Dev, s2: Dev, t: int, t2: int)
    requires Inv(sent) && Progress(s, sent, t) && Arrives(sent, asked) && Progress(asked, s2, t2)
    ensures KeepsWork(s, s2) && KeepsPresence(s, s2)
  {
    WorkComposes(s, sent, asked);
    WorkComposes(s, asked, s2);
  }

  /** What a disarm's answer stood for as it was given still holds as it comes in. */
  lemma {:induction false} AnswerHolds(s: Dev, s2: Dev, t: int)
    requires Progress(s, s2, t)
    ensures KeepsPresence(s, s2)
    ensures Harmless(s) && !s.boot && !Busy(s.work) ==> Kept(s2)
    ensures Harmless(s) && !s.boot ==> NoneToCome(s2)
    ensures Harmless(s) && !s.boot && CommitSeen(s) ==> s2.config.New?
  {
  }

  class Network {
    var devs: seq<Dev>
    var now: int
    var log: seq<Sent>
    var ready: bool
    // What was learnt of the devices configured: sent a prepare, and changing packages or files; that did
    // not answer to a step verb or a reading; that said a run_after was started; and the devices that said no
    // to something, or were not begun, fetched for or armed.
    var changing: set<nat>
    var silent: set<nat>
    var ran: set<nat>
    var refused: set<nat>

    ghost predicate Valid()
      reads this
    {
      AllInv(devs) && Orderly(log)
    }

    /** Time passes, and on every device whatever can happen may. */
    method Elapse()
      requires Valid()
      modifies `devs, `now
      ensures Valid() && Onward(old(devs), devs, now) && now >= old(now)
    {
      var n: nat := *;
      OnwardReflexive(devs, now);
      while n > 0
        invariant Valid() && Onward(old(devs), devs, now) && now >= old(now)
      {
        var passed :| 0 <= passed;
        ghost var before := now;
        now := now + passed;
        OnwardInTime(old(devs), devs, before, now);
        var i: int := *;
        var a: Action := *;
        var s2: Dev := *;
        if 0 <= i < |devs| && Step(devs[i], a, s2, now) {
          StepKeepsInv(devs[i], a, s2, now);
          StepIsProgress(devs[i], a, s2, now);
          OnwardStep(old(devs), devs, i, s2, now);
          devs := devs[i := s2];
        }
        n := n - 1;
      }
    }

    /** This side waits `ms`. */
    method Sleep(ms: nat)
      requires Valid()
      modifies `devs, `now
      ensures Valid() && Onward(old(devs), devs, now) && now >= old(now) + ms
    {
      now := now + ms;
      Elapse();
    }

    /** A call goes out. */
    method Send(verb: Verb, i: nat)
      requires Valid() && i < |devs|
      requires StandsDown(verb) && !ready ==> Untouched(devs[i]) && !CommitSent(log, i)
      modifies `devs, `now, `log
      ensures Valid() && Onward(old(devs), devs, now) && now >= old(now)
      ensures log == old(log) + [Sent(verb, i, old(now), ready, old(devs[i]))]
    {
      SendKeepsOrder(log, Sent(verb, i, now, ready, devs[i]));
      log := log + [Sent(verb, i, now, ready, devs[i])];
      Elapse();
    }

    /** prepare, stage or finalise reaches the device, or does not: done, failed, or gone on alone. */
    method WorkThere(i: nat, verb: Device.Work) returns (answer: Option<bool>)
      requires Valid() && i < |devs| && Uncommitted(devs[i]) && !Busy(devs[i].work)
      requires verb.Preparing? || verb.Staging? || (verb.Committing? && ReadyToCommit(devs[i]))
      modifies `devs, `now, `log
      ensures Valid() && Beside(old(devs), devs, i, now) && now >= old(now)
      ensures log == old(log) + [Sent(VerbOf(verb), i, old(now), ready, old(devs[i]))]
      ensures KeepsGuard(old(devs[i]), devs[i], now)
      ensures !verb.Committing? ==> Uncommitted(devs[i])
      ensures answer.Some? ==> !Busy(devs[i].work)
      ensures answer == Some(true) && verb.Staging? ==> StagedHere(devs[i])
      ensures answer == Some(true) ==> devs[i].work == WorkDone(verb)
      ensures answer == Some(false) && devs[i].agent ==> devs[i].work != WorkDone(verb)
    {
      Send(VerbOf(verb), i);
      ghost var sent, sentAt := devs, now;
      var arrives: bool := *;
      answer := None;
      if arrives && devs[i].agent {
        BeginWorkKeeps(devs[i], verb);
        ghost var begun := Begins(devs[i], verb);
        devs := devs[i := Begins(devs[i], verb)];
        Elapse();
        CallComposes(old(devs), sent, begun, devs, i, sentAt, now);
        if devs[i].work == WorkDone(verb) { answer := Some(true); } else if devs[i].work.Broke? { answer := Some(false); }
      } else if arrives {
        answer := Some(false);
      }
    }

    /** The call: its answer travels back, or is lost. */
    method Work(i: nat, verb: Device.Work) returns (answer: Option<bool>)
      requires Valid() && i < |devs| && Uncommitted(devs[i]) && !Busy(devs[i].work)
      requires verb.Preparing? || verb.Staging? || (verb.Committing? && ReadyToCommit(devs[i]))
      modifies `devs, `now, `log, `changing, `silent, `ran, `refused
      ensures Valid() && Beside(old(devs), devs, i, now) && now >= old(now)
      ensures log == old(log) + [Sent(VerbOf(verb), i, old(now), ready, old(devs[i]))]
      ensures KeepsGuard(old(devs[i]), devs[i], now)
      ensures !verb.Committing? ==> Uncommitted(devs[i])
      ensures answer.Some? ==> !Busy(devs[i].work)
      ensures answer == Some(true) && verb.Staging? ==> StagedHere(devs[i])
      ensures answer == Some(true) ==> devs[i].work == WorkDone(verb) || devs[i].work.Idle?
      ensures answer == Some(false) && devs[i].agent ==> devs[i].work != WorkDone(verb)
      ensures changing == if verb.Preparing? && devs[i].irreversible then old(changing) + {i} else old(changing)
      ensures silent == if !verb.Committing? && answer.None? then old(silent) + {i} else old(silent)
      ensures ran == old(ran) || (verb.Staging? && answer.Some? && ran == old(ran) + {i})
      ensures refused == if answer.Some? && !answer.value then old(refused) + {i} else old(refused)
    {
      answer := WorkThere(i, verb);
      ghost var there, thereAt := devs, now;
      Elapse();
      BesideComposes(old(devs), there, devs, i, thereAt, now);
      GuardComposes(old(devs)[i], there[i], devs[i], thereAt, now);
      var lost: bool := *;
      if lost { answer := None; }
      Learn(i, verb, answer);
    }

    /** What an answer tells, or its loss. */
    method Learn(i: nat, verb: Device.Work, answer: Option<bool>)
      requires i < |devs|
      modifies `changing, `silent, `ran, `refused
      ensures changing == if verb.Preparing? && devs[i].irreversible then old(changing) + {i} else old(changing)
      ensures silent == if !verb.Committing? && answer.None? then old(silent) + {i} else old(silent)
      ensures ran == old(ran) || (verb.Staging? && answer.Some? && ran == old(ran) + {i})
      ensures refused == if answer.Some? && !answer.value then old(refused) + {i} else old(refused)
    {
      if verb.Preparing? && devs[i].irreversible { changing := changing + {i}; }
      if !verb.Committing? && answer.None? { silent := silent + {i}; }
      var started: bool := *;
      if verb.Staging? && answer.Some? && started { ran := ran + {i}; }
      if answer.Some? && !answer.value { refused := refused + {i}; }
    }

    /** What the device holds, read and looked over: as wanted, or not; or no answer. */
    method Read(i: nat) returns (answer: Option<bool>)
      requires Valid() && i < |devs|
      modifies `devs, `now, `silent, `refused
      ensures Valid() && Onward(old(devs), devs, now) && now >= old(now)
      ensures silent == if answer.None? then old(silent) + {i} else old(silent)
      ensures refused == if answer.Some? && !answer.value then old(refused) + {i} else old(refused)
    {
      Elapse();
      answer := *;
      if answer.None? { silent := silent + {i}; }
      if answer.Some? && !answer.value { refused := refused + {i}; }
    }

    /** revert: best effort. */
    method RevertStaged(i: nat)
      requires Valid() && i < |devs| && !devs[i].work.Committing? && !devs[i].work.Marking?
      modifies `devs, `now, `log
      ensures Valid() && Beside(old(devs), devs, i, now) && now >= old(now)
      ensures log == old(log) + [Sent(Revert, i, old(now), ready, old(devs[i]))]
      ensures KeepsGuard(old(devs[i]), devs[i], now) && Safe(old(devs[i]), devs[i])
      ensures Uncommitted(old(devs[i])) ==> Uncommitted(devs[i])
    {
      Send(Revert, i);
      ghost var sent, sentAt := devs, now;
      ProgressIsSafe(old(devs)[i], sent[i], sentAt);
      var arrives: bool := *;
      if arrives && devs[i].agent {
        RevertKeeps(devs[i]);
        ghost var reverted := Reverted(devs[i]);
        devs := devs[i := Reverted(devs[i])];
        Elapse();
        CallComposes(old(devs), sent, reverted, devs, i, sentAt, now);
        ProgressIsSafe(reverted, devs[i], now);
      }
    }

    /** Whether the commit's marker is there. */
    method CommitFinishedCall(i: nat) returns (answer: Option<bool>)
      requires Valid() && i < |devs|
      modifies `devs, `now, `log
      ensures Valid() && Onward(old(devs), devs, now) && now >= old(now)
      ensures log == old(log) + [Sent(CommitFinished, i, old(now), ready, old(devs[i]))]
      ensures answer == Some(true) ==> CommitSeen(devs[i])
    {
      Send(CommitFinished, i);
      ghost var sent, sentAt := devs, now;
      answer := if SaysCommitted(devs[i]) then Some(true) else Some(false);
      assert answer == Some(true) ==> CommitSeen(sent[i]);
      Elapse();
      OnwardComposes(old(devs), sent, devs, sentAt, now);
      assert Progress(sent[i], devs[i], now);
      var lost: bool := *;
      if lost { answer := None; }
    }

    /** asleep, asked at `askedAt` on this side's clock. */
    method AsleepCall(i: nat) returns (answer: Option<Sleep>, ghost deaths: nat)
      requires Valid() && i < |devs|
      modifies `devs, `now, `log
      ensures Valid() && Onward(old(devs), devs, now) && now >= old(now)
      ensures log == old(log) + [Sent(Asleep_, i, old(now), ready, old(devs[i]))]
      ensures answer.Some? && answer.value.Sleeping? ==>
        old(now) + answer.value.seconds * 1000 < devs[i].fires * 1000 - devs[i].skew + 1000
      ensures answer == Some(DeadAsleep) && Armed(old(devs[i])) ==> Lost(devs[i])
      ensures answer == Some(Fired) && Armed(old(devs[i])) && Slept(old(devs[i])) && Installed(old(devs[i])) ==>
        old(devs[i]).deaths <= deaths <= devs[i].deaths && ComesUnlessKilled(devs[i], deaths, now)
    {
      Send(Asleep_, i);
      ghost var sent, sentAt := devs, now;
      answer := Some(AsleepAnswer(devs[i], now));
      deaths := devs[i].deaths;
      FiredIsUp(devs[i], now);
      assert Progress(old(devs)[i], sent[i], sentAt);
      Elapse();
      ProgressIsSafe(sent[i], devs[i], now);
      OnwardComposes(old(devs), sent, devs, sentAt, now);
      assert Progress(sent[i], devs[i], now);
      var lost: bool := *;
      if lost { answer := None; }
    }

    /** rollback-now: whether it says it woke the watchdog; whether this side was answered at all, and how
        often the watchdog had been killed by then. Answered, the rollback comes unless it is killed
        again: woken, dead and started again, or already past its sleep. */
    method WakeCall(i: nat) returns (woken: bool, ghost reached: bool, ghost deaths: nat)
      requires Valid() && i < |devs| && Armed(devs[i]) && Slept(devs[i]) && Installed(devs[i])
      modifies `devs, `now, `log
      ensures Valid() && Beside(old(devs), devs, i, now) && now >= old(now) && KeepsArmed(old(devs[i]), devs[i])
      ensures log == old(log) + [Sent(WakeUp, i, old(now), ready, old(devs[i]))]
      ensures woken ==> reached
      ensures reached ==> old(devs[i]).deaths <= deaths <= devs[i].deaths && ComesUnlessKilled(devs[i], deaths, now)
    {
      Send(WakeUp, i);
      ghost var sent, sentAt := devs, now;
      ProgressIsSafe(old(devs)[i], sent[i], sentAt);
      var arrives: bool := *;
      woken := arrives && Wakes(devs[i]);
      ghost var there := if woken then Woken(devs[i], now) else devs[i];
      deaths := there.deaths;
      WakeKeeps(devs[i], now);
      WakesOrUp(devs[i]);
      devs := devs[i := if woken then Woken(devs[i], now) else devs[i]];
      Elapse();
      CallComposes(old(devs), sent, there, devs, i, sentAt, now);
      WokenOn(old(devs)[i], sent[i], there, devs[i], sentAt, now);
      var lost: bool := *;
      reached := arrives && !lost;
      if lost { woken := false; }
    }

    /** done: best effort. */
    method Finish(i: nat)
      requires Valid() && i < |devs| && Slept(devs[i])
      modifies `devs, `now, `log
      ensures Valid() && Beside(old(devs), devs, i, now) && now >= old(now)
      ensures log == old(log) + [Sent(Done, i, old(now), ready, old(devs[i]))]
      ensures Slept(devs[i]) && devs[i].gap == old(devs[i]).gap && (Untouched(old(devs[i])) ==> Untouched(devs[i]))
      ensures Kept(old(devs[i])) ==> Kept(devs[i]) && SameContents(old(devs[i]), devs[i])
      ensures NoneToCome(old(devs[i])) ==> NoneToCome(devs[i])
    {
      Send(Done, i);
      ghost var sent, sentAt := devs, now;
      var arrives: bool := *;
      if arrives && devs[i].agent {
        FinishKeeps(devs[i]);
        ghost var finished := Finished(devs[i]);
        devs := devs[i := Finished(devs[i])];
        Elapse();
        CallComposes(old(devs), sent, finished, devs, i, sentAt, now);
        assert Progress(finished, devs[i], now);
      }
    }

    /** disarm reaches the device, or does not: stood down, fired, or no answer (it goes on alone). */
    method DisarmThere(i: nat) returns (answer: Option<bool>)
      requires Valid() && i < |devs| && Slept(devs[i])
      requires ready || (Untouched(devs[i]) && !CommitSent(log, i))
      modifies `devs, `now, `log
      ensures Valid() && Beside(old(devs), devs, i, now) && now >= old(now)
      ensures log == old(log) + [Sent(Disarm, i, old(now), ready, old(devs[i]))]
      ensures KeepsWork(old(devs[i]), devs[i]) && KeepsPresence(old(devs[i]), devs[i])
      ensures answer == Some(true) && Prompt(devs[i]) ==> Harmless(devs[i]) && !devs[i].boot
      ensures answer == Some(false) && Prompt(devs[i]) && Installed(devs[i]) ==> GoneBack(devs[i])
    {
      Send(Disarm, i);
      ghost var sent, sentAt := devs, now;
      var arrives: bool := *;
      answer := None;
      if arrives && devs[i].agent {
        var k := |devs[i].asks|;
        ghost var asked := devs[i].(asks := devs[i].asks + [Arrived]);
        ArrivalKeepsInv(devs[i], asked);
        devs := devs[i := devs[i].(asks := devs[i].asks + [Arrived])];
        Elapse();
        CallComposes(old(devs), sent, asked, devs, i, sentAt, now);
        DisarmKeepsWork(old(devs)[i], sent[i], asked, devs[i], sentAt, now);
        if k < |devs[i].asks| && devs[i].asks[k].Said? {
          assert AskInv(devs[i], devs[i].asks[k]);
          answer := Some(devs[i].asks[k].kept);
        }
      } else if arrives {
        answer := Some(false);
      }
    }

    /** The call: its answer travels back, or is lost. */
    method DisarmCall(i: nat) returns (answer: Option<bool>)
      requires Valid() && i < |devs| && Slept(devs[i])
      requires ready || (Untouched(devs[i]) && !CommitSent(log, i))
      modifies `devs, `now, `log
      ensures Valid() && Beside(old(devs), devs, i, now) && now >= old(now)
      ensures log == old(log) + [Sent(Disarm, i, old(now), ready, old(devs[i]))]
      ensures KeepsWork(old(devs[i]), devs[i]) && KeepsPresence(old(devs[i]), devs[i])
      ensures answer == Some(true) && Prompt(devs[i]) && !Busy(old(devs[i]).work) ==> Kept(devs[i])
      ensures answer == Some(true) && Prompt(devs[i]) ==> NoneToCome(devs[i])
      ensures answer == Some(true) && Prompt(devs[i]) && CommitSeen(old(devs[i])) ==> Kept(devs[i]) && devs[i].config.New?
      ensures answer == Some(false) && Prompt(devs[i]) && Installed(old(devs[i])) ==> GoneBack(devs[i])
    {
      answer := DisarmThere(i);
      ghost var there, thereAt := devs, now;
      Elapse();
      BesideComposes(old(devs), there, devs, i, thereAt, now);
      WorkComposes(old(devs)[i], there[i], devs[i]);
      AnswerHolds(there[i], devs[i], now);
      var lost: bool := *;
      if lost { answer := None; }
    }

    /** drop, for a device the run has not changed: whether all of it is gone, its rollback with it. */
    method DropCall(i: nat) returns (gone: bool)
      requires Valid() && i < |devs| && devs[i].asks == [] && Untouched(devs[i]) && !CommitSent(log, i)
      modifies `devs, `now, `log
      ensures Valid() && Beside(old(devs), devs, i, now) && now >= old(now)
      ensures log == old(log) + [Sent(Drop, i, old(now), ready, old(devs[i]))]
      ensures Untouched(devs[i]) && devs[i].asks == []
      ensures gone ==> NoneToCome(devs[i]) && !devs[i].agent
      ensures devs[i].gap == old(devs[i]).gap && (NoneToCome(old(devs[i])) ==> NoneToCome(devs[i])) && (GoneBack(old(devs[i])) ==> GoneBack(devs[i]))
    {
      Send(Drop, i);
      ghost var sent, sentAt := devs, now;
      var arrives: bool := *;
      gone := false;
      if arrives && devs[i].agent {
        DropBegunKeeps(devs[i]);
        ghost var begun := DropBegun(devs[i]);
        devs := devs[i := DropBegun(devs[i])];
        Elapse();
        CallComposes(old(devs), sent, begun, devs, i, sentAt, now);
        assert Progress(begun, devs[i], now);
        if !Running(devs[i].dog) {
          ghost var settled, settledAt := devs, now;
          DroppedKeeps(devs[i]);
          devs := devs[i := Dropped(devs[i])];
          gone := true;
          assert Beside(old(devs), devs, i, now);
        }
      }
      var lost: bool := *;
      if lost { gone := false; }
    }

    /** The agent written and a fresh run begun. */
    method InstallCall(i: nat) returns (begun: bool)
      requires Valid() && i < |devs| && Unarmed(devs[i])
      modifies `devs, `now, `log, `refused
      ensures Valid() && Beside(old(devs), devs, i, now) && now >= old(now)
      ensures log == old(log) + [Sent(Install, i, old(now), ready, old(devs[i]))]
      ensures Unarmed(devs[i]) && refused == if begun then old(refused) else old(refused) + {i}
    {
      Send(Install, i);
      ghost var sent, sentAt := devs, now;
      begun := *;
      if begun {
        BeginKeeps(devs[i]);
        ghost var fresh_ := Begun(devs[i]);
        devs := devs[i := Begun(devs[i])];
        Elapse();
        CallComposes(old(devs), sent, fresh_, devs, i, sentAt, now);
        assert Progress(fresh_, devs[i], now);
      } else {
        refused := refused + {i};
      }
    }

    /** What a rollback there would need, fetched whole; or not. */
    method Fetch(i: nat) returns (fetched: bool)
      modifies `refused
      ensures refused == if fetched then old(refused) else old(refused) + {i}
    {
      fetched := *;
      if !fetched { refused := refused + {i}; }
    }

    /** arm: the device snapshotted and its watchdog asleep; or refused, or no answer. */
    method ArmCall(i: nat, timeout: nat) returns (armed: bool)
      requires Valid() && i < |devs| && Unarmed(devs[i])
      modifies `devs, `now, `log, `refused
      ensures Valid() && Beside(old(devs), devs, i, now) && now >= old(now)
      ensures log == old(log) + [Sent(Arm, i, old(now), ready, old(devs[i]))]
      ensures Untouched(devs[i]) && devs[i].asks == []
      ensures armed ==> Armed(devs[i]) && Slept(devs[i]) && Installed(devs[i]) && Uncommitted(devs[i]) && !Busy(devs[i].work)
      ensures refused == if armed then old(refused) else old(refused) + {i}
      ensures armed ==> OnTime(devs[i], now) && ClockTold(devs[i]) && old(now) + timeout * 1000 <= devs[i].firesAt
    {
      Send(Arm, i);
      ghost var sent, sentAt := devs, now;
      var arrives: bool := *;
      armed := false;
      if arrives && devs[i].agent {
        var delay, wrote :| 0 <= wrote <= delay;
        ArmKeeps(devs[i], now, timeout, delay, wrote);
        ghost var arming := ArmedAt(devs[i], now, timeout, delay, wrote);
        devs := devs[i := ArmedAt(devs[i], now, timeout, delay, wrote)];
        Elapse();
        CallComposes(old(devs), sent, arming, devs, i, sentAt, now);
        assert Progress(arming, devs[i], now);
        armed := Slept(devs[i]);
        var lost: bool := *;
        if lost { armed := false; }
      }
      if !armed { refused := refused + {i}; }
    }
  }

  function VerbOf(verb: Device.Work): Verb {
    if verb.Preparing? then Prepare else if verb.Staging? then Stage else Finalise
  }

  function WorkDone(verb: Device.Work): Device.Work {
    if verb.Preparing? then Prepared else if verb.Staging? then Staged else Committed
  }

  /** Done well, step by step, a verb's work comes to its end, and no sooner. */
  lemma {:induction false} WorkComesTo(verb: Device.Work)
    requires verb.Preparing? || verb.Staging? || verb.Committing?
    ensures verb.Preparing? ==> WorkAfter(verb) == WorkDone(verb)
    ensures !verb.Preparing? ==> Busy(WorkAfter(verb)) && WorkAfter(WorkAfter(verb)) == WorkDone(verb)
    ensures !Busy(WorkDone(verb)) && WorkAfter(WorkDone(verb)) == WorkDone(verb)
  {
  }
}
