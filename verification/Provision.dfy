/** The coordinator (src/apply/provisionNetwork.ts, configure.ts, commit.ts, confirm.ts, arm.ts,
    recover.ts, reconnect.ts): every device is confirmed, or every device is rolled back.

    Sessions, packages, services, what uci reads back: each is a choice made freely, so what is
    proved holds whatever they answer. Devices go by their place in provisioning order. */
module Provision {
  import opened Wrappers
  import opened Device
  import opened Verbs
  import opened DeviceRuns
  import opened NetworkModel

  const RECONNECT_INTERVAL := 3000
  const DISARM_MARGIN := 20000
  // How long a new session is tried for, where one was cut.
  const RETRY := 15000

  /** An armed device: when its watchdog fires at the earliest, as this side counts. */
  datatype DeviceRun = DeviceRun(dev: nat, deadline: int, ranAfter: bool)

  // ----- Reaching a device again (reconnect.ts, recover.ts) -----

  /** A session by the deadline, or none; tried every three seconds. */
  method ReconnectUntil(net: Network, deadline: int) returns (got: bool)
    requires net.Valid()
    modifies net`devs, net`now
    ensures net.Valid() && Onward(old(net.devs), net.devs, net.now) && net.now >= old(net.now)
    ensures if got then net.now < deadline else net.now + RECONNECT_INTERVAL >= deadline
  {
    net.Elapse();
    while net.now < deadline
      invariant net.Valid() && Onward(old(net.devs), net.devs, net.now) && net.now >= old(net.now)
      decreases deadline - net.now
    {
      ghost var before, beforeAt := net.devs, net.now;
      net.Elapse();
      OnwardComposes(old(net.devs), before, net.devs, beforeAt, net.now);
      var connects: bool := *;
      if connects && net.now < deadline { return true; }
      if net.now + RECONNECT_INTERVAL >= deadline { return false; }
      before, beforeAt := net.devs, net.now;
      net.Sleep(RECONNECT_INTERVAL);
      OnwardComposes(old(net.devs), before, net.devs, beforeAt, net.now);
    }
    return false;
  }

  /** The device answered a call sent since, at that place in the log, that tells what becomes of its
      rollback. */
  ghost predicate Answered(before: Dev, from: nat, log: seq<Sent>, at: nat, i: nat, s: Dev, t: int) {
    from <= at && TellsAt(log, at, i, s, t) && before.deaths <= log[at].state.deaths
  }

  /** A call was sent, and sent again over a new session; or for fifteen seconds none came. */
  ghost predicate AskedAgain(before: seq<Sent>, log: seq<Sent>, verb: Verb, i: nat, from: int, t: int) {
    || t + RECONNECT_INTERVAL >= from + RETRY
    || (|log| == |before| + 2 && forall p :: |before| <= p < |log| ==> log[p].verb == verb && log[p].dev == i)
  }

  /** Wake the watchdog now, over a new session if need be; else wait for its deadline to. */
  method RollBackNow(net: Network, i: nat, deadline: int) returns (woken: bool, ghost reached: bool, ghost at: nat, ghost live: bool)
    requires net.Valid() && i < |net.devs| && CanRollBack(net.devs[i])
    modifies net`devs, net`now, net`log
    ensures net.Valid() && Beside(old(net.devs), net.devs, i, net.now) && KeepsArmed(old(net.devs[i]), net.devs[i])
    ensures NoCommit(old(net.log), net.log) && net.now >= old(net.now)
    ensures woken ==> reached
    ensures reached ==> Answered(old(net.devs[i]), |old(net.log)|, net.log, at, i, net.devs[i], net.now)
    ensures !woken ==> net.now >= deadline
    // Not woken, it was called over the session there was, and over a new one if one came.
    ensures !woken ==> net.now + RECONNECT_INTERVAL >= old(net.now) + RETRY || |net.log| == |old(net.log)| + (if live then 2 else 1)
  {
    woken, reached, at, live := WakeOnce(net, i);
    if !woken {
      ghost var before, beforeAt, log, first := net.devs, net.now, net.log, at;
      ghost var again;
      woken, again, at := WakeAgain(net, i);
      WakesCompose(old(net.devs), before, net.devs, i, beforeAt, net.now);
      NoCommitComposes(old(net.log), log, net.log);
      if reached && !again {
        TellsOn(log, net.log, first, i, before[i], net.devs[i], beforeAt, net.now);
        at := first;
      }
      reached := reached || again;
    }
    ghost var there, thereAt := net.devs, net.now;
    AwaitRecovery(net, if woken then net.now else deadline);
    OnwardIsBeside(there, net.devs, i, net.now);
    WakesCompose(old(net.devs), there, net.devs, i, thereAt, net.now);
    if reached { TellsOn(net.log, net.log, at, i, there[i], net.devs[i], thereAt, net.now); }
  }

  predicate CanRollBack(s: Dev) {
    Armed(s) && Slept(s) && Installed(s)
  }

  /** Over the session there is, if there is one. */
  method WakeOnce(net: Network, i: nat) returns (woken: bool, ghost reached: bool, ghost at: nat, ghost live: bool)
    requires net.Valid() && i < |net.devs| && CanRollBack(net.devs[i])
    modifies net`devs, net`now, net`log
    ensures net.Valid() && Beside(old(net.devs), net.devs, i, net.now) && KeepsArmed(old(net.devs[i]), net.devs[i])
    ensures NoCommit(old(net.log), net.log) && net.now >= old(net.now)
    ensures woken ==> reached
    ensures |net.log| == |old(net.log)| + if live then 1 else 0
    ensures reached ==> Answered(old(net.devs[i]), |old(net.log)|, net.log, at, i, net.devs[i], net.now)
  {
    at := |net.log|;
    var session: bool := *;
    live := session;
    if session {
      ghost var deaths;
      woken, reached, deaths := net.WakeCall(i);
    } else {
      woken, reached := false, false;
      OnwardReflexive(net.devs, net.now);
      OnwardIsBeside(net.devs, net.devs, i, net.now);
    }
  }

  /** Over a new one, if one gets in. */
  method WakeAgain(net: Network, i: nat) returns (woken: bool, ghost reached: bool, ghost at: nat)
    requires net.Valid() && i < |net.devs| && CanRollBack(net.devs[i])
    modifies net`devs, net`now, net`log
    ensures net.Valid() && Beside(old(net.devs), net.devs, i, net.now) && KeepsArmed(old(net.devs[i]), net.devs[i])
    ensures NoCommit(old(net.log), net.log) && net.now >= old(net.now)
    ensures woken ==> reached
    ensures net.now + RECONNECT_INTERVAL >= old(net.now) + RETRY || |net.log| == |old(net.log)| + 1
    ensures reached ==> Answered(old(net.devs[i]), |old(net.log)|, net.log, at, i, net.devs[i], net.now)
  {
    woken, reached, at := false, false, |net.log|;
    var back := ReconnectUntil(net, net.now + RETRY);
    ghost var there, thereAt := net.devs, net.now;
    OnwardIsBeside(old(net.devs), there, i, thereAt);
    if back {
      ghost var deaths;
      woken, reached, deaths := net.WakeCall(i);
      WakesCompose(old(net.devs), there, net.devs, i, thereAt, net.now);
    }
  }

  /** Whatever it takes to come back, or to be given up on, from `since` on: nothing sent but `recovered`. */
  method AwaitRecovery(net: Network, since: int)
    requires net.Valid()
    modifies net`devs, net`now
    ensures net.Valid() && Onward(old(net.devs), net.devs, net.now) && net.now >= old(net.now) && net.now >= since
  {
    net.Sleep(if since > net.now then since - net.now else 0);
  }

  lemma {:induction false} OnwardIsBeside(a: seq<Dev>, b: seq<Dev>, i: nat, t: int)
    requires Onward(a, b, t) && i < |a|
    ensures Beside(a, b, i, t) && KeepsArmed(a[i], b[i])
  {
    ProgressIsSafe(a[i], b[i], t);
  }

  lemma {:induction false} WakesCompose(a: seq<Dev>, b: seq<Dev>, c: seq<Dev>, i: nat, t: int, t2: int)
    requires Beside(a, b, i, t) && Beside(b, c, i, t2) && t <= t2 && i < |a| && KeepsArmed(a[i], b[i]) && KeepsArmed(b[i], c[i])
    ensures Beside(a, c, i, t2) && KeepsArmed(a[i], c[i])
  {
    BesideComposes(a, b, c, i, t, t2);
    SafeComposes(a[i], b[i], c[i]);
  }

  // ----- Standing down, and undoing the run (recover.ts, provisionNetwork.ts abort) -----

  /** disarm over the session, or asked again over a new one when no answer came. */
  method DisarmLive(net: Network, i: nat) returns (answer: Option<bool>)
    requires net.Valid() && i < |net.devs| && Slept(net.devs[i])
    requires net.ready || (Untouched(net.devs[i]) && !CommitSent(net.log, i))
    modifies net`devs, net`now, net`log
    ensures net.Valid() && Beside(old(net.devs), net.devs, i, net.now) && net.now >= old(net.now)
    ensures NoCommit(old(net.log), net.log)
    ensures answer.None? ==> AskedAgain(old(net.log), net.log, Disarm, i, old(net.now), net.now)
    ensures KeepsWork(old(net.devs[i]), net.devs[i]) && KeepsPresence(old(net.devs[i]), net.devs[i])
    ensures answer == Some(true) && Prompt(net.devs[i]) && CommitSeen(old(net.devs[i])) ==> Kept(net.devs[i]) && net.devs[i].config.New?
    ensures answer == Some(true) && Prompt(net.devs[i]) ==> NoneToCome(net.devs[i])
    ensures answer == Some(false) && Prompt(net.devs[i]) && Installed(old(net.devs[i])) ==> GoneBack(net.devs[i])
  {
    answer := net.DisarmCall(i);
    if answer.None? {
      NoCommitSends(old(net.log), net.log);
      ghost var first, firstAt, firstLog := net.devs, net.now, net.log;
      var back := ReconnectUntil(net, net.now + RETRY);
      ghost var again, againAt := net.devs, net.now;
      BesideComposes(old(net.devs), first, again, i, firstAt, againAt);
      WorkComposes(old(net.devs)[i], first[i], again[i]);
      AnswerHolds(first[i], again[i], againAt);
      if back {
        answer := net.DisarmCall(i);
        BesideComposes(old(net.devs), again, net.devs, i, againAt, net.now);
        WorkComposes(old(net.devs)[i], again[i], net.devs[i]);
        NoCommitComposes(old(net.log), firstLog, net.log);
      }
    }
  }

  /** What undoing the run keeps: a device changed, or perhaps, still has its rollback; one never
      changed stays so. */
  predicate AbortKeeps(s: Dev, s2: Dev, stoodDown: bool) {
    && (Untouched(s) ==> Untouched(s2))
    && (Slept(s) ==> Slept(s2))
    && (!stoodDown ==> Safe(s, s2))
  }

  ghost predicate AllAbortKeep(a: seq<Dev>, b: seq<Dev>, untouched: seq<nat>) {
    |a| == |b| && forall j :: 0 <= j < |a| ==> AbortKeeps(a[j], b[j], j in untouched)
  }

  /** All but these just go on. */
  ghost predicate OnwardBut(a: seq<Dev>, b: seq<Dev>, places: seq<nat>, t: int) {
    |a| == |b| && forall j :: 0 <= j < |a| && j !in places ==> Progress(a[j], b[j], t)
  }

  lemma {:induction false} OnwardButOn(a: seq<Dev>, b: seq<Dev>, c: seq<Dev>, places: seq<nat>, k: nat, t: int, t2: int)
    requires OnwardBut(a, b, places, t) && k < |places| && Beside(b, c, places[k], t2) && t <= t2
    ensures OnwardBut(a, c, places, t2)
  {
    forall j | 0 <= j < |a| && j !in places ensures Progress(a[j], c[j], t2) {
      assert places[k] in places;
      ProgressComposes(a[j], b[j], c[j], t, t2);
    }
  }

  /** The devices that answered a call that told them to roll back (or that they had begun to), with that
      call's place in the log: each does, unless its watchdog was killed since the call was sent. */
  ghost predicate AllCome(devs: seq<Dev>, log: seq<Sent>, coming: map<nat, nat>, t: int) {
    forall j :: j in coming ==> j < |devs| && Armed(devs[j]) && TellsAt(log, coming[j], j, devs[j], t)
  }

  /** Called since: each as it then was, killed no seldomer than as the undoing began. */
  ghost predicate AllCalledSince(start: seq<Dev>, from: nat, log: seq<Sent>, coming: map<nat, nat>) {
    forall j :: j in coming ==> j < |start| && from <= coming[j] < |log| && start[j].deaths <= log[coming[j]].state.deaths
  }

  lemma {:induction false} AllComeOn(a: seq<Dev>, b: seq<Dev>, log: seq<Sent>, log2: seq<Sent>, coming: map<nat, nat>, t: int, t2: int)
    requires AllCome(a, log, coming, t) && |a| == |b| && t <= t2 && log <= log2
    requires forall j :: j in coming ==> j < |a| && Safe(a[j], b[j])
    ensures AllCome(b, log2, coming, t2)
  {
    forall j | j in coming ensures j < |b| && Armed(b[j]) && TellsAt(log2, coming[j], j, b[j], t2) {
      TellsOn(log, log2, coming[j], j, a[j], b[j], t, t2);
    }
  }

  /** A device stood down, or found firing: nothing of its rollback is to come that has not begun. */
  predicate Stood(s: Dev) {
    Prompt(s) ==> NoneToCome(s) || GoneBack(s)
  }

  lemma {:induction false} StoodOn(s: Dev, s2: Dev, t: int)
    requires Stood(s) && Progress(s, s2, t)
    ensures Stood(s2)
  {
  }

  /** One never changed: stood down, and told the run is over there; else waited for. */
  method StandDown(net: Network, i: nat, deadline: int)
    requires net.Valid() && i < |net.devs| && Slept(net.devs[i]) && Installed(net.devs[i])
    requires Untouched(net.devs[i]) && !CommitSent(net.log, i)
    modifies net`devs, net`now, net`log
    ensures net.Valid() && net.now >= old(net.now) && NoCommit(old(net.log), net.log)
    ensures Beside(old(net.devs), net.devs, i, net.now) && Untouched(net.devs[i]) && Slept(net.devs[i])
    ensures Stood(net.devs[i]) || net.now >= deadline
  {
    var answer := DisarmLive(net, i);
    ghost var log, before, beforeAt := net.log, net.devs, net.now;
    match answer {
      case Some(true) =>
        net.Finish(i);
        NoCommitComposes(old(net.log), log, net.log);
      case Some(false) =>
        AwaitRecovery(net, net.now);
        StoodOn(before[i], net.devs[i], net.now);
      case None =>
        AwaitRecovery(net, deadline);
        assert Progress(before[i], net.devs[i], net.now);
    }
    BesideComposes(old(net.devs), before, net.devs, i, beforeAt, net.now);
  }

  /** The places from `from` up to `to`, in order. */
  function Places(from: nat, end: nat): (places: seq<nat>)
    requires from <= end
    ensures |places| == end - from && forall k :: 0 <= k < |places| ==> places[k] == from + k
    ensures forall j: nat :: (j in places <==> from <= j < end)
    decreases end
  {
    if from == end then [] else Places(from, end - 1) + [end - 1]
  }

  ghost predicate Abortable(net: Network, runs: seq<DeviceRun>, committed: seq<nat>, unreachable: seq<nat>, untouched: seq<nat>)
    reads net
  {
    && (forall k :: 0 <= k < |committed| ==>
          committed[k] < |net.devs| && committed[k] < |runs| && CanRollBack(net.devs[committed[k]]) && committed[k] !in untouched)
    && (forall k :: 0 <= k < |unreachable| ==> unreachable[k] < |net.devs| && unreachable[k] < |runs|)
    && (forall k :: 0 <= k < |untouched| ==>
          untouched[k] < |net.devs| && untouched[k] < |runs| && CanStandDown(net.devs[untouched[k]]) && !CommitSent(net.log, untouched[k]))
    && (forall k, m :: 0 <= k < m < |untouched| ==> untouched[k] != untouched[m])
  }

  predicate CanStandDown(s: Dev) {
    Untouched(s) && Slept(s) && Installed(s)
  }

  /** Undone so far: each device rolls back, or its own deadline has passed. */
  ghost predicate AllTold(places: seq<nat>, from: nat, runs: seq<DeviceRun>, coming: map<nat, nat>, t: int) {
    forall m :: from <= m < |places| ==> places[m] < |runs| && (places[m] in coming || t >= runs[places[m]].deadline)
  }

  ghost predicate AllStood(devs: seq<Dev>, places: seq<nat>, to: nat, runs: seq<DeviceRun>, t: int) {
    forall m :: 0 <= m < to && m < |places| ==> places[m] < |devs| && places[m] < |runs| && (Stood(devs[places[m]]) || t >= runs[places[m]].deadline)
  }

  lemma {:induction false} AllStoodOn(a: seq<Dev>, b: seq<Dev>, places: seq<nat>, k: nat, runs: seq<DeviceRun>, t: int, t2: int)
    requires k < |places| && AllStood(a, places, k, runs, t) && Beside(a, b, places[k], t2) && t <= t2
    requires forall m, n :: 0 <= m < n < |places| ==> places[m] != places[n]
    requires places[k] < |b| && places[k] < |runs| && (Stood(b[places[k]]) || t2 >= runs[places[k]].deadline)
    ensures AllStood(b, places, k + 1, runs, t2)
  {
    forall m | 0 <= m < k ensures places[m] < |b| && places[m] < |runs| && (Stood(b[places[m]]) || t2 >= runs[places[m]].deadline) {
      if Stood(a[places[m]]) { StoodOn(a[places[m]], b[places[m]], t2); }
    }
  }

  /** The latest first. */
  method RollBackAll(net: Network, runs: seq<DeviceRun>, committed: seq<nat>) returns (ghost coming: map<nat, nat>)
    requires net.Valid()
    requires forall k :: 0 <= k < |committed| ==> committed[k] < |net.devs| && committed[k] < |runs| && CanRollBack(net.devs[committed[k]])
    modifies net`devs, net`now, net`log
    ensures net.Valid() && net.now >= old(net.now) && NoCommit(old(net.log), net.log)
    ensures OnwardBut(old(net.devs), net.devs, committed, net.now) && AllKeepArmed(old(net.devs), net.devs)
    ensures AllCome(net.devs, net.log, coming, net.now) && AllTold(committed, 0, runs, coming, net.now)
    ensures AllCalledSince(old(net.devs), |old(net.log)|, net.log, coming)
    ensures forall j :: j in coming ==> j in committed
  {
    ghost var start := net.devs;
    coming := map[];
    var k := |committed|;
    OnwardReflexive(start, net.now);
    OnwardKeepsArmed(start, start, net.now);
    while k > 0
      invariant 0 <= k <= |committed| && net.Valid() && net.now >= old(net.now) && NoCommit(old(net.log), net.log)
      invariant OnwardBut(start, net.devs, committed, net.now) && AllKeepArmed(start, net.devs)
      invariant AllCome(net.devs, net.log, coming, net.now) && AllTold(committed, k, runs, coming, net.now)
      invariant AllCalledSince(start, |old(net.log)|, net.log, coming)
      invariant forall j :: j in coming ==> j in committed
    {
      k := k - 1;
      ghost var before, beforeAt, log := net.devs, net.now, net.log;
      assert KeepsArmed(start[committed[k]], before[committed[k]]);
      var woken;
      ghost var reached, at, live;
      woken, reached, at, live := RollBackNow(net, committed[k], runs[committed[k]].deadline);
      RolledBackOne(start, before, net.devs, log, net.log, committed, k, coming, beforeAt, net.now);
      NoCommitComposes(old(net.log), log, net.log);
      coming := ToldOne(start, before, net.devs, |old(net.log)|, log, net.log, runs, committed, k, coming, reached, at, beforeAt, net.now);
    }
  }

  /** One more told: it answered, or its deadline has passed. */
  lemma {:induction false} ToldOne(
    start: seq<Dev>, b: seq<Dev>, c: seq<Dev>, from: nat, log: seq<Sent>, log2: seq<Sent>, runs: seq<DeviceRun>, committed: seq<nat>,
    k: nat, coming: map<nat, nat>, reached: bool, at: nat, t: int, t2: int)
    returns (more: map<nat, nat>)
    requires AllCome(c, log2, coming, t2) && AllCalledSince(start, from, log, coming) && log <= log2 && from <= |log| && t <= t2
    requires AllTold(committed, k + 1, runs, coming, t) && (forall j :: j in coming ==> j in committed)
    requires k < |committed| && committed[k] < |c| && committed[k] < |start| && committed[k] < |b| && committed[k] < |runs|
    requires Armed(c[committed[k]]) && start[committed[k]].deaths <= b[committed[k]].deaths
    requires if reached then Answered(b[committed[k]], |log|, log2, at, committed[k], c[committed[k]], t2) else t2 >= runs[committed[k]].deadline
    ensures AllCome(c, log2, more, t2) && AllCalledSince(start, from, log2, more)
    ensures AllTold(committed, k, runs, more, t2) && forall j :: j in more ==> j in committed
  {
    CalledStill(start, from, log, log2, coming);
    more := if reached then coming[committed[k] := at] else coming;
  }

  lemma {:induction false} CalledStill(start: seq<Dev>, from: nat, log: seq<Sent>, log2: seq<Sent>, coming: map<nat, nat>)
    requires AllCalledSince(start, from, log, coming) && log <= log2
    ensures AllCalledSince(start, from, log2, coming)
  {
  }

  lemma {:induction false} RolledBackOne(
    a: seq<Dev>, b: seq<Dev>, c: seq<Dev>, log: seq<Sent>, log2: seq<Sent>, committed: seq<nat>, k: nat, coming: map<nat, nat>,
    t: int, t2: int)
    requires OnwardBut(a, b, committed, t) && AllKeepArmed(a, b) && AllCome(b, log, coming, t) && t <= t2 && log <= log2
    requires k < |committed| && committed[k] < |a| && Armed(a[committed[k]])
    requires Beside(b, c, committed[k], t2) && KeepsArmed(b[committed[k]], c[committed[k]])
    ensures OnwardBut(a, c, committed, t2) && AllKeepArmed(a, c) && AllCome(c, log2, coming, t2) && Armed(c[committed[k]])
  {
    OnwardButOn(a, b, c, committed, k, t, t2);
    forall j | 0 <= j < |a| ensures KeepsArmed(a[j], c[j]) && Safe(b[j], c[j]) {
      assert KeepsArmed(a[j], b[j]);
      if j != committed[k] { ProgressIsSafe(b[j], c[j], t2); }
      SafeComposes(a[j], b[j], c[j]);
    }
    AllComeOn(b, c, log, log2, coming, t, t2);
    assert KeepsArmed(a[committed[k]], c[committed[k]]);
  }

  ghost predicate AllKeepArmed(a: seq<Dev>, b: seq<Dev>) {
    |a| == |b| && forall j :: 0 <= j < |a| ==> KeepsArmed(a[j], b[j])
  }

  lemma {:induction false} OnwardKeepsArmed(a: seq<Dev>, b: seq<Dev>, t: int)
    requires Onward(a, b, t)
    ensures AllKeepArmed(a, b)
  {
    forall j | 0 <= j < |a| ensures KeepsArmed(a[j], b[j]) { ProgressIsSafe(a[j], b[j], t); }
  }

  /** Those out of reach: each one's deadline waited out. */
  method AwaitAll(net: Network, runs: seq<DeviceRun>, unreachable: seq<nat>)
    requires net.Valid() && forall k :: 0 <= k < |unreachable| ==> unreachable[k] < |runs|
    modifies net`devs, net`now
    ensures net.Valid() && net.now >= old(net.now) && Onward(old(net.devs), net.devs, net.now)
    ensures forall k :: 0 <= k < |unreachable| ==> net.now >= runs[unreachable[k]].deadline
  {
    OnwardReflexive(net.devs, net.now);
    for k := 0 to |unreachable|
      invariant net.Valid() && net.now >= old(net.now) && Onward(old(net.devs), net.devs, net.now)
      invariant forall m :: 0 <= m < k ==> net.now >= runs[unreachable[m]].deadline
    {
      ghost var before, beforeAt := net.devs, net.now;
      AwaitRecovery(net, runs[unreachable[k]].deadline);
      OnwardComposes(old(net.devs), before, net.devs, beforeAt, net.now);
    }
  }

  /** Those never touched, from the `k`-th on, can still be stood down. */
  ghost predicate StillUntouched(net: Network, runs: seq<DeviceRun>, untouched: seq<nat>, from: nat)
    reads net
  {
    && (forall k :: 0 <= k < |untouched| ==> untouched[k] < |net.devs| && untouched[k] < |runs|)
    && (forall k :: from <= k < |untouched| ==> CanStandDown(net.devs[untouched[k]]) && !CommitSent(net.log, untouched[k]))
    && (forall k, m :: 0 <= k < m < |untouched| ==> untouched[k] != untouched[m])
  }

  ghost predicate DoneUntouched(devs: seq<Dev>, untouched: seq<nat>, to: nat) {
    forall k :: 0 <= k < to && k < |untouched| ==> untouched[k] < |devs| && Untouched(devs[untouched[k]]) && Slept(devs[untouched[k]])
  }

  method StandDownAll(net: Network, runs: seq<DeviceRun>, untouched: seq<nat>)
    requires net.Valid() && StillUntouched(net, runs, untouched, 0)
    modifies net`devs, net`now, net`log
    ensures net.Valid() && net.now >= old(net.now) && NoCommit(old(net.log), net.log)
    ensures OnwardBut(old(net.devs), net.devs, untouched, net.now)
    ensures DoneUntouched(net.devs, untouched, |untouched|) && AllStood(net.devs, untouched, |untouched|, runs, net.now)
  {
    ghost var start := net.devs;
    OnwardReflexive(start, net.now);
    var k := 0;
    while k < |untouched|
      invariant k <= |untouched| && net.Valid() && net.now >= old(net.now) && NoCommit(old(net.log), net.log)
      invariant OnwardBut(start, net.devs, untouched, net.now) && StillUntouched(net, runs, untouched, k)
      invariant DoneUntouched(net.devs, untouched, k) && AllStood(net.devs, untouched, k, runs, net.now)
    {
      ghost var before, beforeAt, log := net.devs, net.now, net.log;
      StandDown(net, untouched[k], runs[untouched[k]].deadline);
      OnwardButOn(start, before, net.devs, untouched, k, beforeAt, net.now);
      AllStoodOn(before, net.devs, untouched, k, runs, beforeAt, net.now);
      NoCommitComposes(old(net.log), log, net.log);
      NoCommitSends(log, net.log);
      forall m | 0 <= m < |untouched| && m != k
        ensures m < k ==> Untouched(net.devs[untouched[m]]) && Slept(net.devs[untouched[m]])
        ensures m > k ==> CanStandDown(net.devs[untouched[m]])
      {
        assert untouched[m] != untouched[k];
        assert Progress(before[untouched[m]], net.devs[untouched[m]], net.now);
      }
      k := k + 1;
    }
  }

  /** Roll back every device committed (latest first) or left armed, wait for those out of reach,
      stand down those never touched. */
  method Abort(net: Network, runs: seq<DeviceRun>, committed: seq<nat>, unreachable: seq<nat>, untouched: seq<nat>)
    returns (ghost coming: map<nat, nat>)
    requires net.Valid() && Abortable(net, runs, committed, unreachable, untouched)
    modifies net`devs, net`now, net`log
    ensures net.Valid() && net.now >= old(net.now) && NoCommit(old(net.log), net.log)
    ensures AllAbortKeep(old(net.devs), net.devs, untouched)
    ensures OnwardBut(old(net.devs), net.devs, committed + untouched, net.now)
    ensures AllCome(net.devs, net.log, coming, net.now) && AllTold(committed, 0, runs, coming, net.now)
    ensures AllCalledSince(old(net.devs), |old(net.log)|, net.log, coming)
    ensures forall k :: 0 <= k < |unreachable| ==> net.now >= runs[unreachable[k]].deadline
    ensures AllStood(net.devs, untouched, |untouched|, runs, net.now)
  {
    ghost var start := net.devs;
    coming := RollBackAll(net, runs, committed);
    ghost var told, toldAt, log := net.devs, net.now, net.log;
    NoCommitSends(old(net.log), net.log);
    AwaitAll(net, runs, unreachable);
    ghost var awaited, awaitedAt := net.devs, net.now;
    forall k | 0 <= k < |untouched| ensures CanStandDown(awaited[untouched[k]]) && !CommitSent(net.log, untouched[k]) {
      assert untouched[k] in untouched;
      assert untouched[k] !in committed;
      assert Progress(start[untouched[k]], told[untouched[k]], toldAt);
      assert Progress(told[untouched[k]], awaited[untouched[k]], awaitedAt);
    }
    StandDownAll(net, runs, untouched);
    NoCommitComposes(old(net.log), log, net.log);
    Aborted(start, told, awaited, net.devs, committed, untouched, toldAt, awaitedAt, net.now);
    ComeStill(told, awaited, net.devs, log, net.log, coming, committed, untouched, toldAt, awaitedAt, net.now);
    CalledStill(start, |old(net.log)|, log, net.log, coming);
  }

  lemma {:induction false} Aborted(a: seq<Dev>, b: seq<Dev>, c: seq<Dev>, d: seq<Dev>, committed: seq<nat>, untouched: seq<nat>, t: int, t2: int, t3: int)
    requires OnwardBut(a, b, committed, t) && AllKeepArmed(a, b) && Onward(b, c, t2) && OnwardBut(c, d, untouched, t3) && t <= t2 <= t3
    requires DoneUntouched(d, untouched, |untouched|)
    ensures AllAbortKeep(a, d, untouched) && OnwardBut(a, d, committed + untouched, t3)
  {
    OnwardIsSafe(b, c, t2);
    forall j | 0 <= j < |a|
      ensures AbortKeeps(a[j], d[j], j in untouched)
      ensures j !in committed + untouched ==> Progress(a[j], d[j], t3)
    {
      if j in untouched {
        var k :| 0 <= k < |untouched| && untouched[k] == j;
      } else {
        ProgressIsSafe(c[j], d[j], t3);
        assert KeepsArmed(a[j], b[j]);
        SafeComposes(a[j], b[j], c[j]);
        SafeComposes(a[j], c[j], d[j]);
        if j !in committed { ProgressThrice(a[j], b[j], c[j], d[j], t, t2, t3); }
      }
    }
  }

  lemma {:induction false} ProgressThrice(a: Dev, b: Dev, c: Dev, d: Dev, t: int, t2: int, t3: int)
    requires Progress(a, b, t) && Progress(b, c, t2) && Progress(c, d, t3) && t <= t2 <= t3
    ensures Progress(a, d, t3)
  {
    ProgressComposes(a, b, c, t, t2);
    ProgressComposes(a, c, d, t2, t3);
  }

  lemma {:induction false} ComeStill(
    b: seq<Dev>, c: seq<Dev>, d: seq<Dev>, log: seq<Sent>, log2: seq<Sent>, coming: map<nat, nat>, committed: seq<nat>, untouched: seq<nat>,
    t: int, t2: int, t3: int)
    requires AllCome(b, log, coming, t) && Onward(b, c, t2) && OnwardBut(c, d, untouched, t3) && t <= t2 <= t3 && log <= log2
    requires forall j :: j in coming ==> j in committed
    requires forall k :: 0 <= k < |committed| ==> committed[k] !in untouched
    ensures AllCome(d, log2, coming, t3)
  {
    OnwardIsSafe(b, c, t2);
    AllComeOn(b, c, log, log, coming, t, t2);
    forall j | j in coming ensures j < |c| && Safe(c[j], d[j]) {
      var k :| 0 <= k < |committed| && committed[k] == j;
      ProgressIsSafe(c[j], d[j], t3);
    }
    AllComeOn(c, d, log, log2, coming, t2, t3);
  }

  // ----- 2. Stage and arm (arm.ts, provisionNetwork.ts armAll) -----

  /** What dropping keeps of a device's standing. */
  predicate DropKeeps(s: Dev, s2: Dev) {
    && (NoneToCome(s) ==> NoneToCome(s2)) && (GoneBack(s) ==> GoneBack(s2)) && s2.gap == s.gap
  }

  /** The device was told, since that place in the log, to drop all of the run's. */
  ghost predicate TakenBack(log: seq<Sent>, from: nat, j: nat) {
    exists p :: from <= p < |log| && IsDrop(log[p], j)
  }

  predicate IsDrop(sent: Sent, j: nat) {
    sent.verb.Drop? && sent.dev == j
  }

  ghost predicate OnlyDrops(before: seq<Sent>, log: seq<Sent>) {
    before <= log && forall p :: |before| <= p < |log| ==> log[p].verb.Drop?
  }

  lemma {:induction false} OnlyDropsCompose(a: seq<Sent>, b: seq<Sent>, c: seq<Sent>)
    requires OnlyDrops(a, b) && OnlyDrops(b, c)
    ensures OnlyDrops(a, c)
  {
    forall p | |a| <= p < |c| ensures c[p].verb.Drop? {
      if p < |b| { assert c[p] == b[p]; }
    }
  }

  /** Take a staged or partly armed rollback off the device, over a new session if need be: whether it
      is gone, and nothing of it is to come. */
  method DiscardRollback(net: Network, i: nat) returns (gone: bool)
    requires net.Valid() && i < |net.devs| && net.devs[i].asks == [] && Untouched(net.devs[i]) && !CommitSent(net.log, i)
    modifies net`devs, net`now, net`log
    ensures net.Valid() && Beside(old(net.devs), net.devs, i, net.now) && net.now >= old(net.now)
    ensures NoCommit(old(net.log), net.log) && OnlyDrops(old(net.log), net.log) && TakenBack(net.log, |old(net.log)|, i)
    ensures !gone ==> AskedAgain(old(net.log), net.log, Drop, i, old(net.now), net.now)
    ensures Untouched(net.devs[i]) && net.devs[i].asks == [] && DropKeeps(old(net.devs[i]), net.devs[i])
    ensures gone ==> NoneToCome(net.devs[i]) && !net.devs[i].agent
  {
    gone := net.DropCall(i);
    assert IsDrop(net.log[|old(net.log)|], i);
    if !gone {
      NoCommitSends(old(net.log), net.log);
      ghost var first, firstAt, log := net.devs, net.now, net.log;
      var back := ReconnectUntil(net, net.now + RETRY);
      ghost var again, againAt := net.devs, net.now;
      BesideComposes(old(net.devs), first, again, i, firstAt, againAt);
      assert Progress(first[i], again[i], againAt);
      if back {
        gone := net.DropCall(i);
        BesideComposes(old(net.devs), again, net.devs, i, againAt, net.now);
        NoCommitComposes(old(net.log), log, net.log);
      }
    }
  }

  /** What holds of an armed device until something in the run stands it down. */
  predicate Waits(s: Dev, run: DeviceRun, t: int) {
    && Armed(s) && Installed(s) && Slept(s)
    && run.deadline <= s.firesAt && ClockTold(s) && OnTime(s, t)
  }

  /** Nothing but prepare was, or will be, at work there. */
  predicate Clean(s: Dev) {
    Untouched(s) && Uncommitted(s) && !Busy(s.work)
  }

  lemma {:induction false} WaitsOn(s: Dev, s2: Dev, run: DeviceRun, t: int, t2: int)
    requires Waits(s, run, t) && KeepsGuard(s, s2, t2) && t <= t2
    ensures Waits(s2, run, t2)
  {
  }

  lemma {:induction false} CleanOn(s: Dev, s2: Dev)
    requires Clean(s) && KeepsWork(s, s2)
    ensures Clean(s2)
  {
  }

  ghost predicate AllUntouched(net: Network)
    reads net
  {
    forall j :: 0 <= j < |net.devs| ==> Untouched(net.devs[j]) && !CommitSent(net.log, j)
  }

  ghost predicate AllDropKeep(a: seq<Dev>, b: seq<Dev>) {
    |a| == |b| && forall j :: 0 <= j < |a| ==> DropKeeps(a[j], b[j])
  }

  lemma {:induction false} DropKeepsOn(a: seq<Dev>, b: seq<Dev>, c: seq<Dev>, i: nat, t: int)
    requires AllDropKeep(a, b) && Beside(b, c, i, t) && i < |a| && DropKeeps(b[i], c[i])
    ensures AllDropKeep(a, c)
  {
    forall j | 0 <= j < |a| ensures DropKeeps(a[j], c[j]) {
      assert DropKeeps(a[j], b[j]);
      if j != i { assert Progress(b[j], c[j], t); }
    }
  }

  lemma {:induction false} TakenBackStill(log: seq<Sent>, log2: seq<Sent>, since: nat, from: nat, k: nat)
    requires log <= log2 && since <= |log| && TakenBack(log2, |log|, k)
    requires forall j :: from <= j < k ==> TakenBack(log, since, j)
    ensures forall j :: from <= j < k + 1 ==> TakenBack(log2, since, j)
  {
    forall j | from <= j < k ensures TakenBack(log2, since, j) {
      assert TakenBack(log, since, j);
      var p :| since <= p < |log| && IsDrop(log[p], j);
      assert log2[p] == log[p];
    }
  }

  /** Take back what is staged on the devices from `from` up to `to`: whether the first of them is free
      of it. */
  method DiscardAll(net: Network, from: nat, to: nat) returns (gone: bool)
    requires net.Valid() && from <= to <= |net.devs| && AllUntouched(net)
    requires forall j :: from <= j < to ==> net.devs[j].asks == []
    modifies net`devs, net`now, net`log
    ensures net.Valid() && net.now >= old(net.now) && NoCommit(old(net.log), net.log) && OnlyDrops(old(net.log), net.log)
    ensures AllDropKeep(old(net.devs), net.devs) && forall j :: 0 <= j < |net.devs| ==> Untouched(net.devs[j])
    ensures gone && from < to ==> NoneToCome(net.devs[from])
    ensures forall j :: from <= j < to ==> TakenBack(net.log, |old(net.log)|, j)
  {
    var k := from;
    gone := true;
    while k < to
      invariant from <= k <= to
      invariant net.Valid() && net.now >= old(net.now) && NoCommit(old(net.log), net.log) && OnlyDrops(old(net.log), net.log)
      invariant AllDropKeep(old(net.devs), net.devs) && forall j :: 0 <= j < |net.devs| ==> Untouched(net.devs[j])
      invariant forall j :: k <= j < to ==> net.devs[j].asks == []
      invariant gone && from < k ==> NoneToCome(net.devs[from])
      invariant forall j :: from <= j < k ==> TakenBack(net.log, |old(net.log)|, j)
    {
      ghost var before, log := net.devs, net.log;
      NoCommitSends(old(net.log), log);
      var dropped := DiscardRollback(net, k);
      NoCommitComposes(old(net.log), log, net.log);
      DropKeepsOn(old(net.devs), before, net.devs, k, net.now);
      forall j | 0 <= j < |net.devs|
        ensures Untouched(net.devs[j]) && (before[j].asks == [] ==> net.devs[j].asks == []) && DropKeeps(before[j], net.devs[j])
      {
        if j != k { assert Progress(before[j], net.devs[j], net.now); }
      }
      if k == from { gone := dropped; }
      OnlyDropsCompose(old(net.log), log, net.log);
      TakenBackStill(log, net.log, |old(net.log)|, from, k);
      k := k + 1;
    }
  }

  lemma {:induction false} UnarmedComesToNone(s: Dev)
    requires Unarmed(s)
    ensures NoneToCome(s)
  {
  }

  lemma {:induction false} InstallsTakenBack(log: seq<Sent>, log2: seq<Sent>, since: nat, to: nat)
    requires OnlyDrops(log, log2) && since <= |log|
    requires forall p :: since <= p < |log| ==> log[p].dev < to
    requires forall j :: 0 <= j < to ==> TakenBack(log2, |log|, j)
    ensures forall p :: since <= p < |log2| && log2[p].verb.Install? ==> TakenBack(log2, p, log2[p].dev)
  {
    forall p | since <= p < |log2| && log2[p].verb.Install? ensures TakenBack(log2, p, log2[p].dev) {
      assert log2[p] == log[p];
      assert TakenBack(log2, |log|, log[p].dev);
      var q :| |log| <= q < |log2| && IsDrop(log2[q], log[p].dev);
    }
  }

  /** Fetch what a rollback would need, on every device, before any is armed. */
  method StageAll(net: Network) returns (ok: bool)
    requires net.Valid() && net.refused == {} && forall j :: 0 <= j < |net.devs| ==> Unarmed(net.devs[j]) && !CommitSent(net.log, j)
    modifies net`devs, net`now, net`log, net`refused
    ensures net.Valid() && |net.devs| == |old(net.devs)| && net.now >= old(net.now)
    ensures NoCommit(old(net.log), net.log) && (ok <==> net.refused == {})
    // On a failure, what was begun is taken back, wherever it was.
    ensures !ok ==> forall p :: |old(net.log)| <= p < |net.log| && net.log[p].verb.Install? ==> TakenBack(net.log, p, net.log[p].dev)
    ensures forall j :: 0 <= j < |net.devs| ==> Untouched(net.devs[j]) && if ok then Unarmed(net.devs[j]) else NoneToCome(net.devs[j])
  {
    var i := 0;
    while i < |net.devs|
      invariant i <= |net.devs| == |old(net.devs)|
      invariant net.Valid() && net.now >= old(net.now) && NoCommit(old(net.log), net.log)
      invariant forall j :: 0 <= j < |net.devs| ==> Unarmed(net.devs[j])
      invariant net.refused == {}
      invariant forall p :: |old(net.log)| <= p < |net.log| ==> net.log[p].dev < i
    {
      ghost var before, log := net.devs, net.log;
      var begun := net.InstallCall(i);
      NoCommitComposes(old(net.log), log, net.log);
      forall j | 0 <= j < |net.devs| ensures Unarmed(net.devs[j]) {
        if j != i { assert Progress(before[j], net.devs[j], net.now); }
      }
      var fetched := net.Fetch(i);
      if !begun || !fetched {
        NoCommitSends(old(net.log), net.log);
        ghost var staged, stagedLog := net.devs, net.log;
        var gone := DiscardAll(net, 0, i + 1);
        NoCommitComposes(old(net.log), stagedLog, net.log);
        InstallsTakenBack(stagedLog, net.log, |old(net.log)|, i + 1);
        forall j | 0 <= j < |net.devs| ensures NoneToCome(net.devs[j]) {
          UnarmedComesToNone(staged[j]);
          assert DropKeeps(staged[j], net.devs[j]);
        }
        return false;
      }
      i := i + 1;
    }
    return true;
  }

  ghost predicate AllWaiting(net: Network, runs: seq<DeviceRun>, from: nat, to: nat)
    requires to <= |runs| && to <= |net.devs|
    reads net
  {
    forall j :: from <= j < to ==> runs[j].dev == j && Waits(net.devs[j], runs[j], net.now)
  }

  /** Nothing of a device's rollback is to come that has not begun; or time has gone past `deadline`. */
  predicate NotLeftArmed(s: Dev, deadline: int, t: int) {
    Stood(s) || t >= deadline
  }

  /** Stage, then arm, every device's rollback. A failure takes it all back, on the armed, the one it
      failed on and the rest: none is left armed, short of its own deadline. */
  method ArmAll(net: Network, timeout: nat) returns (ok: bool, armed: seq<DeviceRun>)
    requires net.Valid() && net.refused == {} && forall j :: 0 <= j < |net.devs| ==> Unarmed(net.devs[j]) && !CommitSent(net.log, j)
    modifies net`devs, net`now, net`log, net`refused
    ensures net.Valid() && |net.devs| == |old(net.devs)| && net.now >= old(net.now)
    ensures NoCommit(old(net.log), net.log) && (ok <==> net.refused == {})
    ensures forall j :: 0 <= j < |net.devs| ==> Untouched(net.devs[j])
    ensures ok ==> |armed| == |net.devs| && AllWaiting(net, armed, 0, |armed|)
    ensures ok ==> forall j :: 0 <= j < |net.devs| ==> Clean(net.devs[j])
    ensures !ok ==> forall j :: 0 <= j < |net.devs| ==> NotLeftArmed(net.devs[j], old(net.now) + timeout * 1000, net.now)
  {
    armed := [];
    ok := StageAll(net);
    if !ok { return; }
    var i := 0;
    while i < |net.devs|
      invariant i == |armed| <= |net.devs| == |old(net.devs)|
      invariant net.Valid() && net.now >= old(net.now) && NoCommit(old(net.log), net.log)
      invariant AllWaiting(net, armed, 0, i) && net.refused == {}
      invariant forall j :: 0 <= j < i ==> Clean(net.devs[j]) && armed[j].deadline >= old(net.now) + timeout * 1000
      invariant forall j :: i <= j < |net.devs| ==> Unarmed(net.devs[j])
    {
      ghost var before, beforeAt, log := net.devs, net.now, net.log;
      var armingFrom := net.now;
      var arms := net.ArmCall(i, timeout);
      NoCommitComposes(old(net.log), log, net.log);
      NoCommitSends(old(net.log), net.log);
      ArmedBeside(before, net.devs, armed, i, beforeAt, net.now);
      if !arms {
        ghost var since := old(net.now) + timeout * 1000;
        TakeBack(net, armed, armingFrom + timeout * 1000, since);
        NoCommitComposes(old(net.log), log + [Sent(Arm, i, armingFrom, net.ready, before[i])], net.log);
        return false, armed;
      }
      armed := armed + [DeviceRun(i, armingFrom + timeout * 1000, false)];
      i := i + 1;
    }
  }

  lemma {:induction false} ArmedBeside(a: seq<Dev>, b: seq<Dev>, armed: seq<DeviceRun>, i: nat, t: int, t2: int)
    requires Beside(a, b, i, t2) && |armed| == i < |a| && t <= t2
    requires forall j :: 0 <= j < i ==> Waits(a[j], armed[j], t) && Clean(a[j])
    requires forall j :: i < j < |a| ==> Unarmed(a[j])
    ensures forall j :: 0 <= j < i ==> Waits(b[j], armed[j], t2) && Clean(b[j])
    ensures forall j :: i < j < |a| ==> Unarmed(b[j])
  {
    forall j | 0 <= j < |a| && j != i ensures if j < i then Waits(b[j], armed[j], t2) && Clean(b[j]) else Unarmed(b[j]) {
      assert Progress(a[j], b[j], t2);
      if j < i { WaitsOn(a[j], b[j], armed[j], t, t2); CleanOn(a[j], b[j]); }
    }
  }

  /** The armed ones stood down, the rest's staging dropped; the one it failed on (the first not armed)
      may have a watchdog. */
  method TakeBack(net: Network, armed: seq<DeviceRun>, deadline: int, ghost since: int)
    requires net.Valid() && |armed| < |net.devs| && AllUntouched(net) && deadline >= since
    requires forall j :: 0 <= j < |armed| ==> Slept(net.devs[j]) && Installed(net.devs[j]) && armed[j].deadline >= since
    requires net.devs[|armed|].asks == []
    requires forall j :: |armed| < j < |net.devs| ==> Unarmed(net.devs[j])
    modifies net`devs, net`now, net`log
    ensures net.Valid() && |net.devs| == |old(net.devs)| && net.now >= old(net.now)
    ensures NoCommit(old(net.log), net.log)
    ensures forall j :: 0 <= j < |net.devs| ==> Untouched(net.devs[j]) && NotLeftArmed(net.devs[j], since, net.now)
  {
    StandDownArmed(net, armed, since);
    ghost var stood, log := net.devs, net.log;
    NoCommitSends(old(net.log), log);
    var gone := DiscardAll(net, |armed|, |net.devs|);
    NoCommitComposes(old(net.log), log, net.log);
    ghost var dropped := net.devs;
    AwaitRecovery(net, if gone then net.now else deadline);
    forall j | 0 <= j < |net.devs| ensures Untouched(net.devs[j]) && NotLeftArmed(net.devs[j], since, net.now) {
      assert DropKeeps(stood[j], dropped[j]) && Progress(dropped[j], net.devs[j], net.now);
    }
  }

  method StandDownArmed(net: Network, armed: seq<DeviceRun>, ghost since: int)
    requires net.Valid() && |armed| < |net.devs| && AllUntouched(net)
    requires forall j :: 0 <= j < |armed| ==> Slept(net.devs[j]) && Installed(net.devs[j]) && armed[j].deadline >= since
    requires net.devs[|armed|].asks == []
    requires forall j :: |armed| < j < |net.devs| ==> Unarmed(net.devs[j])
    modifies net`devs, net`now, net`log
    ensures net.Valid() && |net.devs| == |old(net.devs)| && net.now >= old(net.now)
    ensures NoCommit(old(net.log), net.log)
    ensures forall j :: 0 <= j < |net.devs| ==> Untouched(net.devs[j])
    ensures forall j :: 0 <= j < |armed| ==> NotLeftArmed(net.devs[j], since, net.now)
    ensures forall j :: |armed| <= j < |net.devs| ==> net.devs[j].asks == [] && (|armed| < j ==> NoneToCome(net.devs[j]))
  {
    ghost var start := net.devs;
    var untouched := Places(0, |armed|);
    ArmedAbortable(net, armed, untouched);
    ghost var coming := Abort(net, armed, [], [], untouched);
    AllStoodOrUnarmed(start, net.devs, armed, untouched, since, net.now);
  }

  lemma {:induction false} ArmedAbortable(net: Network, armed: seq<DeviceRun>, untouched: seq<nat>)
    requires |armed| < |net.devs| && AllUntouched(net) && untouched == Places(0, |armed|)
    requires forall j :: 0 <= j < |armed| ==> Slept(net.devs[j]) && Installed(net.devs[j])
    ensures Abortable(net, armed, [], [], untouched)
  {
  }

  ghost predicate WasTaken(s: Dev, s2: Dev, j: nat, armed: nat, since: int, t: int) {
    && (Untouched(s) ==> Untouched(s2))
    && (armed <= j && s.asks == [] ==> s2.asks == [])
    && (j < armed ==> NotLeftArmed(s2, since, t))
    && (armed < j && Unarmed(s) ==> NoneToCome(s2))
  }

  lemma {:induction false} AllStoodOrUnarmed(start: seq<Dev>, stood: seq<Dev>, armed: seq<DeviceRun>, untouched: seq<nat>, since: int, t: int)
    requires |armed| <= |start| == |stood| && untouched == Places(0, |armed|)
    requires AllAbortKeep(start, stood, untouched) && OnwardBut(start, stood, [] + untouched, t)
    requires AllStood(stood, untouched, |untouched|, armed, t)
    requires forall k :: 0 <= k < |armed| ==> armed[k].deadline >= since
    ensures forall j :: 0 <= j < |start| ==> WasTaken(start[j], stood[j], j, |armed|, since, t)
  {
    forall j | 0 <= j < |start| ensures WasTaken(start[j], stood[j], j, |armed|, since, t) {
      StoodOrUnarmed(start, stood, armed, untouched, since, t, j);
    }
  }

  lemma {:induction false} StoodOrUnarmed(start: seq<Dev>, stood: seq<Dev>, armed: seq<DeviceRun>, untouched: seq<nat>, since: int, t: int, j: nat)
    requires |armed| <= |start| == |stood| && untouched == Places(0, |armed|) && j < |start|
    requires AllAbortKeep(start, stood, untouched) && OnwardBut(start, stood, [] + untouched, t)
    requires AllStood(stood, untouched, |untouched|, armed, t)
    requires forall k :: 0 <= k < |armed| ==> armed[k].deadline >= since
    ensures WasTaken(start[j], stood[j], j, |armed|, since, t)
  {
    assert AbortKeeps(start[j], stood[j], j in untouched);
    if j < |armed| {
      assert untouched[j] == j;
    } else {
      assert j !in untouched;
      assert Progress(start[j], stood[j], t);
      if Unarmed(start[j]) { UnarmedComesToNone(start[j]); }
    }
  }

  // ----- 3. Configure and commit (configure.ts, commit.ts, provisionNetwork.ts configureAll) -----

  /** How a phase on one device went: done, or what its failure left there. */
  datatype Phase = Went(ranAfter: bool) | Failed(committed: bool, leftArmed: bool, ranAfterThere: bool)

  /** Between a phase's calls on the i-th device: its rollback is as it was, nothing is committed. */
  ghost predicate Configuring(a: seq<Dev>, b: seq<Dev>, i: nat, t: int)
    requires i < |a|
  {
    Beside(a, b, i, t) && KeepsGuard(a[i], b[i], t) && Uncommitted(b[i])
  }

  lemma {:induction false} ConfiguringOn(a: seq<Dev>, b: seq<Dev>, c: seq<Dev>, i: nat, t: int, t2: int)
    requires i < |a| && t <= t2
    requires Configuring(a, b, i, t) && Configuring(b, c, i, t2)
    ensures Configuring(a, c, i, t2)
  {
    BesideComposes(a, b, c, i, t, t2);
    GuardComposes(a[i], b[i], c[i], t, t2);
  }

  lemma {:induction false} ElapsedIsConfiguring(a: seq<Dev>, b: seq<Dev>, i: nat, t: int)
    requires Onward(a, b, t) && i < |a| && Uncommitted(a[i])
    ensures Configuring(a, b, i, t)
  {
    assert Progress(a[i], b[i], t);
  }

  /** What the run did or may have done there that only a rollback undoes, or none does: packages or files
      changed, a run_after started, or no answer. */
  ghost predicate Marked(net: Network, i: nat)
    reads net
  {
    i in net.changing || i in net.silent || i in net.ran
  }

  ghost predicate Unmarked(net: Network, i: nat)
    reads net
  {
    !Marked(net, i)
  }

  /** Only the i-th device was marked since. */
  ghost predicate MarksOnly(changing: set<nat>, silent: set<nat>, ran: set<nat>, refused: set<nat>, net: Network, i: nat)
    reads net
  {
    && changing <= net.changing <= changing + {i} && silent <= net.silent <= silent + {i} && ran <= net.ran <= ran + {i}
    && refused <= net.refused <= refused + {i}
  }

  /** What a failure says of what it left, just when that is so. */
  ghost predicate SaysWhatIsLeft(result: Phase, net: Network, i: nat)
    reads net
  {
    result.Failed? && !result.committed ==>
      && (result.leftArmed <==> i in net.changing || i in net.silent)
      && (result.ranAfterThere ==> i in net.ran || i in net.silent) && (i in net.ran ==> result.ranAfterThere || result.leftArmed)
  }

  /** Prepare, read, stage, read back and verify. A link lost anywhere leaves it unknown what the
      device did; otherwise only packages or files can have changed. */
  method ConfigureSteps(net: Network, i: nat) returns (result: Phase)
    requires net.Valid() && i < |net.devs| && Uncommitted(net.devs[i]) && !Busy(net.devs[i].work) && Unmarked(net, i) && i !in net.refused
    modifies net`devs, net`now, net`log, net`changing, net`silent, net`ran, net`refused
    ensures net.Valid() && net.now >= old(net.now) && NoCommit(old(net.log), net.log)
    ensures Configuring(old(net.devs), net.devs, i, net.now)
    ensures result.Went? ==> StagedHere(net.devs[i]) && (result.ranAfter <==> i in net.ran)
    // It goes on just when every step was answered, and with yes.
    ensures result.Went? <==> i !in net.silent && i !in net.refused
    ensures result.Failed? ==> !result.committed && (!result.leftArmed ==> !net.devs[i].irreversible)
    ensures MarksOnly(old(net.changing), old(net.silent), old(net.ran), old(net.refused), net, i) && SaysWhatIsLeft(result, net, i)
    ensures i in net.changing <==> net.devs[i].irreversible
  {
    var irreversible := net.devs[i].irreversible;
    var prepared := net.Work(i, Preparing);
    ghost var one, oneAt, log := net.devs, net.now, net.log;
    if prepared != Some(true) { return Failed(false, irreversible || prepared.None?, prepared.None?); }
    var read := ReadThere(net, i, old(net.devs), oneAt);
    if read != Some(true) { return Failed(false, irreversible || read.None?, false); }
    ghost var two, twoAt := net.devs, net.now;
    var staged := net.Work(i, Staging);
    ConfiguringOn(old(net.devs), two, net.devs, i, twoAt, net.now);
    NoCommitComposes(old(net.log), log, net.log);
    var ranAfter := i in net.ran;
    if staged != Some(true) { return Failed(false, irreversible || staged.None?, ranAfter || staged.None?); }
    ghost var three, threeAt := net.devs, net.now;
    var verified := ReadThere(net, i, old(net.devs), threeAt);
    assert Progress(three[i], net.devs[i], net.now);
    if verified != Some(true) { return Failed(false, irreversible || verified.None?, verified.Some? && ranAfter); }
    return Went(ranAfter);
  }

  method ReadThere(net: Network, i: nat, ghost start: seq<Dev>, ghost since: int) returns (answer: Option<bool>)
    requires net.Valid() && i < |net.devs| && i < |start| && Configuring(start, net.devs, i, since) && since == net.now
    modifies net`devs, net`now, net`silent, net`refused
    ensures net.Valid() && net.now >= old(net.now) && Onward(old(net.devs), net.devs, net.now)
    ensures Configuring(start, net.devs, i, net.now) && (!Busy(old(net.devs[i]).work) ==> !Busy(net.devs[i].work))
    ensures net.silent == if answer.None? then old(net.silent) + {i} else old(net.silent)
    ensures net.refused == if answer.Some? && !answer.value then old(net.refused) + {i} else old(net.refused)
  {
    answer := net.Read(i);
    ElapsedIsConfiguring(old(net.devs), net.devs, i, net.now);
    ConfiguringOn(start, old(net.devs), net.devs, i, since, net.now);
    assert Progress(old(net.devs)[i], net.devs[i], net.now);
  }

  /** Configure the device; a failure's staged changes are reverted, best effort. */
  method ConfigureDevice(net: Network, i: nat) returns (result: Phase)
    requires net.Valid() && i < |net.devs| && Uncommitted(net.devs[i]) && !Busy(net.devs[i].work) && Unmarked(net, i) && i !in net.refused
    modifies net`devs, net`now, net`log, net`changing, net`silent, net`ran, net`refused
    ensures net.Valid() && net.now >= old(net.now) && NoCommit(old(net.log), net.log)
    ensures Configuring(old(net.devs), net.devs, i, net.now)
    ensures result.Went? ==> StagedHere(net.devs[i]) && (result.ranAfter <==> i in net.ran)
    // It goes on just when every step was answered, and with yes.
    ensures result.Went? <==> i !in net.silent && i !in net.refused
    ensures result.Failed? ==> !result.committed && (!result.leftArmed ==> Untouched(net.devs[i]))
    ensures MarksOnly(old(net.changing), old(net.silent), old(net.ran), old(net.refused), net, i) && SaysWhatIsLeft(result, net, i)
    ensures i in net.changing <==> net.devs[i].irreversible
  {
    result := ConfigureSteps(net, i);
    if result.Failed? {
      ghost var before, beforeAt, log := net.devs, net.now, net.log;
      net.RevertStaged(i);
      ConfiguringOn(old(net.devs), before, net.devs, i, beforeAt, net.now);
      NoCommitComposes(old(net.log), log, net.log);
    }
  }

  /** Commit only with time left to confirm every device committed so far and this one. */
  method EnsureTimeToConfirm(net: Network, i: nat, earliest: int, minimum: nat, confirms: nat, ranAfter: bool) returns (result: Phase)
    requires net.Valid() && i < |net.devs| && Uncommitted(net.devs[i]) && StagedHere(net.devs[i])
    modifies net`devs, net`now, net`log
    ensures net.Valid() && net.now >= old(net.now) && NoCommit(old(net.log), net.log)
    ensures Configuring(old(net.devs), net.devs, i, net.now)
    ensures result.Went? <==> earliest - old(net.now) >= minimum * confirms
    ensures result.Went? ==> result.ranAfter == ranAfter && earliest - net.now >= minimum * confirms && StagedHere(net.devs[i])
    ensures result.Failed? ==> result == Failed(false, net.devs[i].irreversible, ranAfter) && (!result.leftArmed ==> Untouched(net.devs[i]))
  {
    if earliest - net.now >= minimum * confirms {
      forall j | 0 <= j < |net.devs| ensures Progress(net.devs[j], net.devs[j], net.now) { ProgressReflexive(net.devs[j], net.now); }
      return Went(ranAfter);
    }
    net.RevertStaged(i);
    return Failed(false, net.devs[i].irreversible, ranAfter);
  }

  /** Commit. A dropped link is no failure (confirming finds out); a failed commit may have kept part of it. */
  method CommitDevice(net: Network, i: nat, ranAfter: bool) returns (result: Phase)
    requires net.Valid() && i < |net.devs| && ReadyToCommit(net.devs[i]) && i !in net.refused
    modifies net`devs, net`now, net`log, net`changing, net`silent, net`ran, net`refused
    ensures net.Valid() && net.now >= old(net.now)
    ensures Beside(old(net.devs), net.devs, i, net.now) && KeepsGuard(old(net.devs[i]), net.devs[i], net.now)
    ensures result.Failed? ==> result.committed
    ensures net.refused == if result.Failed? then old(net.refused) + {i} else old(net.refused)
    ensures |net.log| > |old(net.log)| && NoCommit(net.log[..|old(net.log)| + 1], net.log)
    ensures net.log[..|old(net.log)| + 1] == old(net.log) + [Sent(Finalise, i, old(net.now), net.ready, old(net.devs[i]))]
    ensures net.changing == old(net.changing) && net.silent == old(net.silent) && net.ran == old(net.ran)
  {
    var finalised := net.Work(i, Committing);
    assert net.log[..|old(net.log)| + 1] == net.log;
    if finalised == Some(false) {
      ghost var before, beforeAt := net.devs, net.now;
      net.RevertStaged(i);
      BesideComposes(old(net.devs), before, net.devs, i, beforeAt, net.now);
      GuardComposes(old(net.devs)[i], before[i], net.devs[i], beforeAt, net.now);
      assert net.log[..|old(net.log)| + 1] == old(net.log) + [Sent(Finalise, i, old(net.now), net.ready, old(net.devs[i]))];
      return Failed(true, false, ranAfter);
    }
    return Went(ranAfter);
  }

  /** One device of the run up to its commit: reached, configured, in time. */
  method ConfigureInTime(net: Network, i: nat, run: DeviceRun, earliest: int, minimum: nat, confirms: nat) returns (result: Phase)
    requires net.Valid() && i < |net.devs| && Waits(net.devs[i], run, net.now) && Clean(net.devs[i]) && Unmarked(net, i) && i !in net.refused
    requires earliest <= run.deadline && minimum > 0 && confirms > 0
    modifies net`devs, net`now, net`log, net`changing, net`silent, net`ran, net`refused
    ensures net.Valid() && net.now >= old(net.now) && NoCommit(old(net.log), net.log)
    ensures Beside(old(net.devs), net.devs, i, net.now) && KeepsGuard(old(net.devs[i]), net.devs[i], net.now)
    ensures result.Went? ==> i !in net.silent && i !in net.refused && ReadyToCommit(net.devs[i]) && earliest - net.now >= minimum * confirms
    ensures result.Failed? ==> !result.committed && (!result.leftArmed ==> Untouched(net.devs[i]))
    ensures MarksOnly(old(net.changing), old(net.silent), old(net.ran), old(net.refused), net, i) && SaysWhatIsLeft(result, net, i)
  {
    net.Elapse();
    ElapsedIsConfiguring(old(net.devs), net.devs, i, net.now);
    assert Progress(old(net.devs)[i], net.devs[i], net.now);
    CleanOn(old(net.devs)[i], net.devs[i]);
    var reached: bool := *;
    if !reached { return Failed(false, false, false); }
    ghost var one, oneAt := net.devs, net.now;
    result := ConfigureDevice(net, i);
    ConfiguringOn(old(net.devs), one, net.devs, i, oneAt, net.now);
    if result.Failed? { return; }
    ghost var two, twoAt, twoLog := net.devs, net.now, net.log;
    result := EnsureTimeToConfirm(net, i, earliest, minimum, confirms, result.ranAfter);
    ConfiguringOn(old(net.devs), two, net.devs, i, twoAt, net.now);
    NoCommitComposes(old(net.log), twoLog, net.log);
    if result.Went? {
      CommitInTime(net, i, old(net.devs)[i], run, old(net.now), earliest, minimum, confirms);
    }
  }

  /** One device of the run: reached, configured, in time, committed. */
  method ConfigureAndCommit(net: Network, i: nat, run: DeviceRun, earliest: int, minimum: nat, confirms: nat) returns (result: Phase)
    requires net.Valid() && i < |net.devs| && Waits(net.devs[i], run, net.now) && Clean(net.devs[i]) && Unmarked(net, i) && i !in net.refused
    requires earliest <= run.deadline && minimum > 0 && confirms == Commits(net.log) + 1 && InWindow(net.log, earliest, minimum)
    modifies net`devs, net`now, net`log, net`changing, net`silent, net`ran, net`refused
    ensures net.Valid() && net.now >= old(net.now)
    ensures Beside(old(net.devs), net.devs, i, net.now) && KeepsGuard(old(net.devs[i]), net.devs[i], net.now)
    ensures InWindow(net.log, earliest, minimum) && (result.Went? ==> i !in net.silent && i !in net.refused)
    ensures Commits(net.log) == if result.Went? || result.committed then confirms else confirms - 1
    ensures forall j | j != i :: CommitSent(net.log, j) <==> CommitSent(old(net.log), j)
    ensures result.Failed? && !result.committed ==> NoCommit(old(net.log), net.log) && (!result.leftArmed ==> Untouched(net.devs[i]))
    ensures MarksOnly(old(net.changing), old(net.silent), old(net.ran), old(net.refused), net, i) && SaysWhatIsLeft(result, net, i)
  {
    result := ConfigureInTime(net, i, run, earliest, minimum, confirms);
    NoCommitInWindow(old(net.log), net.log, earliest, minimum);
    NoCommitSends(old(net.log), net.log);
    if result.Failed? { return; }
    ghost var before, beforeAt, log := net.devs, net.now, net.log;
    result := CommitDevice(net, i, result.ranAfter);
    BesideComposes(old(net.devs), before, net.devs, i, beforeAt, net.now);
    GuardComposes(old(net.devs)[i], before[i], net.devs[i], beforeAt, net.now);
    ghost var sent := Sent(Finalise, i, beforeAt, net.ready, before[i]);
    SentInWindow(log, sent, earliest, minimum);
    NoCommitInWindow(log + [sent], net.log, earliest, minimum);
    NoCommitSends(log + [sent], net.log);
    OtherCommits(log, sent);
  }

  lemma {:induction false} OtherCommits(log: seq<Sent>, sent: Sent)
    ensures forall j | j != sent.dev :: CommitSent(log + [sent], j) <==> CommitSent(log, j)
  {
    forall j | j != sent.dev ensures CommitSent(log + [sent], j) <==> CommitSent(log, j) {
      if CommitSent(log, j) {
        var p :| 0 <= p < |log| && log[p].verb.Finalise? && log[p].dev == j;
        assert (log + [sent])[p] == log[p];
      }
      if CommitSent(log + [sent], j) {
        var p :| 0 <= p < |log + [sent]| && (log + [sent])[p].verb.Finalise? && (log + [sent])[p].dev == j;
        assert p < |log| && log[p] == (log + [sent])[p];
      }
    }
  }

  /** With time left before the earliest deadline, this device's watchdog has not woken of itself:
      what is staged is staged over the snapshot, not over a restore. */
  lemma {:induction false} CommitInTime(net: Network, i: nat, start: Dev, run: DeviceRun, t: int, earliest: int, minimum: nat, confirms: nat)
    requires i < |net.devs| && Waits(start, run, t) && KeepsGuard(start, net.devs[i], net.now) && t <= net.now
    requires earliest <= run.deadline && minimum > 0 && confirms > 0 && earliest - net.now >= minimum * confirms
    requires StagedHere(net.devs[i]) && Uncommitted(net.devs[i])
    ensures ReadyToCommit(net.devs[i])
  {
    assert minimum * confirms >= minimum * 1;
    WaitsOn(start, net.devs[i], run, t, net.now);
  }

  /** How a whole run ended (outcome.ts): confirmed everywhere, or how not. */
  datatype RunEnd = Applied(confirmed: nat) | AppliedWithProblems | RolledBack | Partial(kept: seq<nat>) | FailedRun

  /** A run undone: every device still has its rollback, or was never changed. */
  ghost predicate AllGoingBack(devs: seq<Dev>) {
    forall j :: 0 <= j < |devs| ==> Armed(devs[j]) || Untouched(devs[j])
  }

  /** And each one that was changed answered as it was told to roll back, and does unless its watchdog was
      killed since that call was sent; or was waited for until its deadline, no earlier than `earliest`. */
  ghost predicate AllUndone(devs: seq<Dev>, log: seq<Sent>, coming: map<nat, nat>, earliest: int, t: int) {
    && AllGoingBack(devs) && AllCome(devs, log, coming, t)
    && forall j :: 0 <= j < |devs| ==> Untouched(devs[j]) || j in coming || t >= earliest
  }

  lemma {:induction false} AllUndoneIs(
    a: seq<Dev>, b: seq<Dev>, runs: seq<DeviceRun>, committed: seq<nat>, unreachable: seq<nat>, untouched: seq<nat>,
    log: seq<Sent>, coming: map<nat, nat>, earliest: int, t: int)
    requires AllAbortKeep(a, b, untouched) && AllCome(b, log, coming, t) && AllTold(committed, 0, runs, coming, t)
    requires forall k :: 0 <= k < |unreachable| ==> unreachable[k] < |runs| && t >= runs[unreachable[k]].deadline
    requires |runs| == |a| && forall j :: 0 <= j < |runs| ==> earliest <= runs[j].deadline
    requires forall j :: 0 <= j < |a| ==> if j in untouched then Untouched(a[j]) else Armed(a[j]) && (j in committed || j in unreachable)
    ensures AllUndone(b, log, coming, earliest, t)
  {
    forall j | 0 <= j < |b| ensures (Armed(b[j]) || Untouched(b[j])) && (Untouched(b[j]) || j in coming || t >= earliest) {
      assert AbortKeeps(a[j], b[j], j in untouched);
      if j !in untouched {
        if j in committed {
          var m :| 0 <= m < |committed| && committed[m] == j;
        } else {
          var m :| 0 <= m < |unreachable| && unreachable[m] == j;
        }
      }
    }
  }

  /** One device's turn: each still waits, those not come to yet are still clean. */
  lemma {:induction false} AllWaitOn(a: seq<Dev>, b: seq<Dev>, runs: seq<DeviceRun>, i: nat, t: int, t2: int)
    requires |runs| == |a| && i < |a| && t <= t2
    requires Beside(a, b, i, t2) && KeepsGuard(a[i], b[i], t2)
    requires forall j :: 0 <= j < |a| ==> Waits(a[j], runs[j], t)
    ensures forall j :: 0 <= j < |a| ==> Waits(b[j], runs[j], t2)
    ensures forall j :: i < j < |a| ==> Clean(a[j]) ==> Clean(b[j])
  {
    forall j | 0 <= j < |a| ensures Waits(b[j], runs[j], t2) && (i < j && Clean(a[j]) ==> Clean(b[j])) {
      if j != i { assert Progress(a[j], b[j], t2); }
      WaitsOn(a[j], b[j], runs[j], t, t2);
      if i < j && Clean(a[j]) { CleanOn(a[j], b[j]); }
    }
  }

  /** Nothing was changed that a rollback, or nothing, undoes: no commit, no package or file, no run_after,
      and every device that was asked to do anything answered. */
  ghost predicate NothingChanged(net: Network)
    reads net
  {
    Commits(net.log) == 0 && net.changing == {} && net.silent == {} && net.ran == {}
  }

  /** A run that stopped before the disarming ended "failed" just when nothing was changed; then every
      device is as it was. Else it ended "rolled-back". */
  ghost predicate EndedRight(net: Network, end: RunEnd)
    reads net
  {
    && (end.FailedRun? || end.RolledBack?)
    && (end.FailedRun? <==> NothingChanged(net))
    && (end.FailedRun? ==> forall j :: 0 <= j < |net.devs| ==> Untouched(net.devs[j]))
  }

  /** Every device did all it was asked, and said so: nothing refused, no reading other than as wanted, no
      answer lost but a commit's. */
  ghost predicate AllSaidYes(net: Network)
    reads net
  {
    net.silent == {} && net.refused == {}
  }

  /** Configure and commit each device in turn; on a failure, undo the run. */
  method ConfigureAll(net: Network, armed: seq<DeviceRun>, earliest: int, minimum: nat)
    returns (ok: bool, end: RunEnd, ghost coming: map<nat, nat>)
    requires net.Valid() && !net.ready && |armed| == |net.devs| > 0 && minimum > 0 && NothingChanged(net) && net.refused == {}
    requires AllWaiting(net, armed, 0, |armed|)
    requires forall j :: 0 <= j < |armed| ==> Clean(net.devs[j]) && !CommitSent(net.log, j) && earliest <= armed[j].deadline
    requires InWindow(net.log, earliest, minimum)
    modifies net`devs, net`now, net`log, net`changing, net`silent, net`ran, net`refused
    ensures net.Valid() && |net.devs| == |armed| && net.now >= old(net.now)
    ensures InWindow(net.log, earliest, minimum)
    ensures ok ==> AllWaiting(net, armed, 0, |armed|) && Commits(net.log) == |armed| && AllSaidYes(net)
    ensures !ok ==> AllUndone(net.devs, net.log, coming, earliest, net.now) && EndedRight(net, end)
  {
    var i := 0;
    var ranAfter := false;
    end, coming := FailedRun, map[];
    while i < |armed|
      invariant i <= |armed| == |net.devs| && end == FailedRun
      invariant net.Valid() && net.now >= old(net.now)
      invariant AllWaiting(net, armed, 0, |armed|) && AllSaidYes(net)
      invariant forall j :: i <= j < |armed| ==> Clean(net.devs[j]) && !CommitSent(net.log, j) && Unmarked(net, j)
      invariant i == 0 ==> !ranAfter && net.changing == {} && net.silent == {} && net.ran == {}
      invariant Commits(net.log) == i && InWindow(net.log, earliest, minimum)
    {
      ghost var before, beforeAt, log := net.devs, net.now, net.log;
      var result := ConfigureAndCommit(net, i, armed[i], earliest, minimum, i + 1);
      AllWaitOn(before, net.devs, armed, i, beforeAt, net.now);
      if result.Failed? {
        var changed := result.committed || result.leftArmed;
        end := if i > 0 || changed || ranAfter || result.ranAfterThere then RolledBack else FailedRun;
        if !changed { NoCommitSends(log, net.log); }
        coming := UndoFrom(net, armed, i, changed, earliest, minimum);
        return false, end, coming;
      }
      ranAfter := ranAfter || result.ranAfter;
      i := i + 1;
    }
    return true, end, coming;
  }

  /** The run stopped at device `i`: those before it are rolled back, those after it stood down,
      and it goes with the ones it belongs to. */
  method UndoFrom(net: Network, runs: seq<DeviceRun>, i: nat, changed: bool, ghost earliest: int, ghost minimum: nat)
    returns (ghost coming: map<nat, nat>)
    requires net.Valid() && i < |net.devs| == |runs| && InWindow(net.log, earliest, minimum)
    requires forall j :: 0 <= j < |net.devs| ==> Armed(net.devs[j]) && Slept(net.devs[j]) && Installed(net.devs[j]) && earliest <= runs[j].deadline
    requires forall j :: (if changed then i + 1 else i) <= j < |net.devs| ==> Untouched(net.devs[j]) && !CommitSent(net.log, j)
    modifies net`devs, net`now, net`log
    ensures net.Valid() && |net.devs| == |old(net.devs)| && net.now >= old(net.now)
    ensures InWindow(net.log, earliest, minimum) && AllUndone(net.devs, net.log, coming, earliest, net.now)
    ensures AllCalledSince(old(net.devs), |old(net.log)|, net.log, coming) && Commits(net.log) == Commits(old(net.log))
    ensures forall j :: (if changed then i + 1 else i) <= j < |net.devs| ==> Untouched(net.devs[j])
  {
    var last := if changed then i + 1 else i;
    var committed, untouched := Places(0, last), Places(last, |net.devs|);
    coming := Abort(net, runs, committed, [], untouched);
    AllUndoneIs(old(net.devs), net.devs, runs, committed, [], untouched, net.log, coming, earliest, net.now);
    NoCommitInWindow(old(net.log), net.log, earliest, minimum);
    forall j | last <= j < |net.devs| ensures Untouched(net.devs[j]) { assert AbortKeeps(old(net.devs)[j], net.devs[j], j in untouched); }
  }

  // ----- 4. Confirm, look, disarm (confirm.ts, provisionNetwork.ts) -----

  datatype Confirmation = Confirmed | OutOfReach | Incomplete

  /** The device was reached, and its commit asked after, before this time. */
  predicate AskedBy(sent: Sent, i: nat, deadline: int) {
    sent.verb.CommitFinished? && sent.dev == i && sent.at < deadline
  }

  /** Reach the device again by the deadline, twice; then see that its commit finished. */
  method ConfirmDevice(net: Network, i: nat, deadline: int) returns (result: Confirmation)
    requires net.Valid() && i < |net.devs|
    modifies net`devs, net`now, net`log
    ensures net.Valid() && Onward(old(net.devs), net.devs, net.now) && net.now >= old(net.now)
    ensures NoCommit(old(net.log), net.log)
    ensures result.Confirmed? ==> CommitSeen(net.devs[i])
    ensures result.Confirmed? ==> |net.log| > 0 && AskedBy(net.log[|net.log| - 1], i, deadline - 2 * RECONNECT_INTERVAL)
    ensures result.OutOfReach? ==> net.now >= deadline - 3 * RECONNECT_INTERVAL
  {
    var first := ReconnectUntil(net, deadline - 2 * RECONNECT_INTERVAL);
    if !first { return OutOfReach; }
    ghost var one, oneAt := net.devs, net.now;
    var second := ReconnectUntil(net, deadline - 2 * RECONNECT_INTERVAL);
    OnwardComposes(old(net.devs), one, net.devs, oneAt, net.now);
    if !second { return OutOfReach; }
    ghost var two, twoAt := net.devs, net.now;
    var finished := net.CommitFinishedCall(i);
    OnwardComposes(old(net.devs), two, net.devs, twoAt, net.now);
    return if finished == Some(true) then Confirmed else Incomplete;
  }

  /** Every armed device still waits; those before `i` were seen committed. */
  ghost predicate ConfirmedUpTo(devs: seq<Dev>, runs: seq<DeviceRun>, i: nat, t: int) {
    && |runs| == |devs|
    && (forall j :: 0 <= j < |devs| ==> Waits(devs[j], runs[j], t))
    && (forall j :: 0 <= j < i && j < |devs| ==> CommitSeen(devs[j]))
  }

  lemma {:induction false} ConfirmedOn(a: seq<Dev>, b: seq<Dev>, runs: seq<DeviceRun>, i: nat, t: int, t2: int)
    requires ConfirmedUpTo(a, runs, i, t) && Onward(a, b, t2) && t <= t2
    ensures ConfirmedUpTo(b, runs, i, t2)
  {
    forall j | 0 <= j < |b| ensures Waits(b[j], runs[j], t2) && (j < i ==> CommitSeen(b[j])) {
      assert Progress(a[j], b[j], t2);
      WaitsOn(a[j], b[j], runs[j], t, t2);
    }
  }

  /** What becomes of the device a run failed on: rolled back now, at its own deadline, or already. */
  datatype Own = Now | AtDeadline | Already

  /** Every device but the i-th, and that one too if it is to be. */
  function RolledBackNow(i: nat, count: nat, own: bool): (places: seq<nat>)
    requires i < count
    ensures forall j: nat :: j in places <==> j < count && (j != i || own)
  {
    Places(0, i) + (if own then [i] else []) + Places(i + 1, count)
  }

  lemma {:induction false} AllAbortable(net: Network, runs: seq<DeviceRun>, committed: seq<nat>, unreachable: seq<nat>)
    requires |runs| == |net.devs| && forall j :: 0 <= j < |net.devs| ==> CanRollBack(net.devs[j])
    requires (forall j :: j in committed ==> j < |net.devs|) && forall j :: j in unreachable ==> j < |net.devs|
    ensures Abortable(net, runs, committed, unreachable, [])
  {
    assert forall k :: 0 <= k < |committed| ==> committed[k] in committed;
    assert forall k :: 0 <= k < |unreachable| ==> unreachable[k] in unreachable;
  }

  /** Undo a run with no device unchanged: all but `i` rolled back now; `i` in its own way. */
  method UndoAll(net: Network, runs: seq<DeviceRun>, i: nat, own: Own, ghost at: nat, ghost earliest: int, ghost minimum: nat)
    returns (ghost coming: map<nat, nat>)
    requires net.Valid() && i < |net.devs| == |runs| && InWindow(net.log, earliest, minimum)
    requires forall j :: 0 <= j < |net.devs| ==> CanRollBack(net.devs[j]) && earliest <= runs[j].deadline
    requires own.Already? ==> TellsAt(net.log, at, i, net.devs[i], net.now)
    modifies net`devs, net`now, net`log
    ensures net.Valid() && |net.devs| == |old(net.devs)| && net.now >= old(net.now) && Commits(net.log) == Commits(old(net.log))
    ensures InWindow(net.log, earliest, minimum) && AllUndone(net.devs, net.log, coming, earliest, net.now)
    ensures own.AtDeadline? ==> net.now >= runs[i].deadline
  {
    var committed := RolledBackNow(i, |net.devs|, own.Now?);
    var unreachable := if own.AtDeadline? then [i] else [];
    AllAbortable(net, runs, committed, unreachable);
    coming := Abort(net, runs, committed, unreachable, []);
    NoCommitInWindow(old(net.log), net.log, earliest, minimum);
    if own.Already? {
      ghost var before, beforeAt := net.devs, net.now;
      AwaitRecovery(net, net.now);
      coming := UndoneAlready(old(net.devs), before, net.devs, runs, committed, i, old(net.log), net.log, coming, at, earliest, old(net.now), beforeAt, net.now);
    } else {
      AllUndoneIs(old(net.devs), net.devs, runs, committed, unreachable, [], net.log, coming, earliest, net.now);
    }
  }

  /** All but the device that fired were told to; it rolls back by itself. */
  lemma {:induction false} UndoneAlready(
    a: seq<Dev>, b: seq<Dev>, c: seq<Dev>, runs: seq<DeviceRun>, committed: seq<nat>, i: nat, log: seq<Sent>, log2: seq<Sent>,
    told: map<nat, nat>, at: nat, earliest: int, t: int, t2: int, t3: int)
    returns (coming: map<nat, nat>)
    requires AllAbortKeep(a, b, []) && AllCome(b, log2, told, t2) && AllTold(committed, 0, runs, told, t2) && Onward(b, c, t3) && t <= t2 <= t3
    requires OnwardBut(a, b, committed + [], t2) && i < |a| && i !in committed && log <= log2
    requires |runs| == |a| && forall j :: 0 <= j < |runs| ==> earliest <= runs[j].deadline && Armed(a[j]) && (j == i || j in committed)
    requires TellsAt(log, at, i, a[i], t)
    ensures AllUndone(c, log2, coming, earliest, t3)
  {
    OnwardIsSafe(b, c, t3);
    AllComeOn(b, c, log2, log2, told, t2, t3);
    ProgressIsSafe(a[i], b[i], t2);
    TellsOn(log, log2, at, i, a[i], b[i], t, t2);
    TellsOn(log2, log2, at, i, b[i], c[i], t2, t3);
    coming := told[i := at];
    forall j | 0 <= j < |c| ensures Armed(c[j]) { assert AbortKeeps(a[j], b[j], false) && Safe(b[j], c[j]); }
    AllBut(runs, committed, i, told, earliest, t2);
  }

  /** All but one was told, or its deadline has passed. */
  lemma {:induction false} AllBut(runs: seq<DeviceRun>, committed: seq<nat>, i: nat, told: map<nat, nat>, earliest: int, t: int)
    requires AllTold(committed, 0, runs, told, t)
    requires forall j :: 0 <= j < |runs| ==> earliest <= runs[j].deadline && (j == i || j in committed)
    ensures forall j :: 0 <= j < |runs| && j != i ==> j in told || t >= earliest
  {
    forall j: nat | j < |runs| && j != i ensures j in told || t >= earliest {
      assert j in committed;
      var m :| 0 <= m < |committed| && committed[m] == j;
    }
  }

  /** Confirm every device: none is disarmed until all are. */
  method ConfirmAll(net: Network, runs: seq<DeviceRun>, earliest: int, ghost minimum: nat)
    returns (ok: bool, ghost coming: map<nat, nat>, ghost failed: nat, ghost how: Confirmation)
    requires net.Valid() && ConfirmedUpTo(net.devs, runs, 0, net.now) && InWindow(net.log, earliest, minimum)
    requires forall j :: 0 <= j < |runs| ==> earliest <= runs[j].deadline
    modifies net`devs, net`now, net`log
    ensures net.Valid() && |net.devs| == |runs| && net.now >= old(net.now) && InWindow(net.log, earliest, minimum)
    ensures Commits(net.log) == Commits(old(net.log))
    ensures ok ==> ConfirmedUpTo(net.devs, runs, |runs|, net.now)
    ensures !ok ==> AllUndone(net.devs, net.log, coming, earliest, net.now)
    // The one that failed it: out of reach, it was waited for until its own deadline.
    ensures !ok ==> failed < |runs| && !how.Confirmed? && (how.OutOfReach? ==> net.now >= runs[failed].deadline)
  {
    var i := 0;
    coming, failed, how := map[], 0, Confirmed;
    while i < |runs|
      invariant i <= |runs| == |net.devs| && net.Valid() && net.now >= old(net.now)
      invariant ConfirmedUpTo(net.devs, runs, i, net.now) && InWindow(net.log, earliest, minimum)
      invariant Commits(net.log) == Commits(old(net.log))
    {
      ghost var before, beforeAt, log := net.devs, net.now, net.log;
      var result := ConfirmDevice(net, i, earliest);
      ConfirmedOn(before, net.devs, runs, i, beforeAt, net.now);
      NoCommitInWindow(log, net.log, earliest, minimum);
      if !result.Confirmed? {
        coming := UndoAll(net, runs, i, if result.Incomplete? then Now else AtDeadline, 0, earliest, minimum);
        return false, coming, i, result;
      }
      i := i + 1;
    }
    return true, coming, failed, how;
  }

  /** asleep over the session, or asked again over a new one; counted from before the first asking. */
  method AsleepLive(net: Network, i: nat) returns (answer: Option<Sleep>, ghost at: nat)
    requires net.Valid() && i < |net.devs| && Armed(net.devs[i]) && ClockTold(net.devs[i]) && Slept(net.devs[i]) && Installed(net.devs[i])
    modifies net`devs, net`now, net`log
    ensures net.Valid() && Onward(old(net.devs), net.devs, net.now) && net.now >= old(net.now)
    ensures NoCommit(old(net.log), net.log)
    ensures answer.None? ==> AskedAgain(old(net.log), net.log, Asleep_, i, old(net.now), net.now)
    ensures answer.Some? && answer.value.Sleeping? ==> old(net.now) + answer.value.seconds * 1000 < net.devs[i].firesAt + 1000
    ensures answer == Some(DeadAsleep) ==> Lost(net.devs[i])
    ensures answer == Some(Fired) ==> Answered(old(net.devs[i]), |old(net.log)|, net.log, at, i, net.devs[i], net.now)
  {
    ghost var deaths;
    at := |net.log|;
    answer, deaths := net.AsleepCall(i);
    assert Progress(old(net.devs)[i], net.devs[i], net.now);
    if answer.None? {
      ghost var one, oneAt := net.devs, net.now;
      var back := ReconnectUntil(net, net.now + RETRY);
      OnwardComposes(old(net.devs), one, net.devs, oneAt, net.now);
      assert Progress(one[i], net.devs[i], net.now);
      if back {
        ghost var two, twoAt := net.devs, net.now;
        at := |net.log|;
        answer, deaths := net.AsleepCall(i);
        OnwardComposes(old(net.devs), two, net.devs, twoAt, net.now);
        assert Progress(two[i], net.devs[i], net.now);
      }
    }
  }

  /** What was learnt of a device found ready: when it fires, as this side counts; none if its watchdog is dead. */
  ghost predicate ToldReady(s: Dev, firesAt: Option<int>) {
    if firesAt.Some? then firesAt.value < s.firesAt + 1000 else Lost(s)
  }

  /** The last point at which every device can still go together: each watchdog asleep with time to
      spare, all of them still once the last was asked; or dead before it restored anything. */
  method ReadyToDisarm(net: Network, runs: seq<DeviceRun>, ghost earliest: int, ghost minimum: nat)
    returns (ok: bool, ghost coming: map<nat, nat>)
    requires net.Valid() && ConfirmedUpTo(net.devs, runs, |runs|, net.now) && InWindow(net.log, earliest, minimum)
    requires forall j :: 0 <= j < |runs| ==> earliest <= runs[j].deadline
    modifies net`devs, net`now, net`log, net`ready
    ensures net.Valid() && |net.devs| == |runs| && net.now >= old(net.now) && InWindow(net.log, earliest, minimum)
    ensures Commits(net.log) == Commits(old(net.log))
    ensures ok ==> net.ready && ConfirmedUpTo(net.devs, runs, |runs|, net.now)
    ensures ok ==> forall j :: 0 <= j < |runs| ==> Lost(net.devs[j]) || net.devs[j].firesAt - net.now > DISARM_MARGIN - 1000
    ensures !ok ==> net.ready == old(net.ready) && AllUndone(net.devs, net.log, coming, earliest, net.now)
  {
    coming := map[];
    var told: seq<Option<int>> := [];
    var i := 0;
    while i < |runs|
      invariant i == |told| <= |runs| == |net.devs| && net.Valid() && net.now >= old(net.now) && net.ready == old(net.ready)
      invariant ConfirmedUpTo(net.devs, runs, |runs|, net.now) && InWindow(net.log, earliest, minimum)
      invariant Commits(net.log) == Commits(old(net.log))
      invariant forall j :: 0 <= j < i ==> ToldReady(net.devs[j], told[j])
      invariant i > 0 ==> forall j :: 0 <= j < i && told[j].Some? ==> told[j].value - net.now >= DISARM_MARGIN
    {
      ghost var before, beforeAt, log := net.devs, net.now, net.log;
      var askedAt := net.now;
      var answer;
      ghost var at;
      answer, at := AsleepLive(net, i);
      ConfirmedOn(before, net.devs, runs, |runs|, beforeAt, net.now);
      NoCommitInWindow(log, net.log, earliest, minimum);
      forall j | 0 <= j < i ensures ToldReady(net.devs[j], told[j]) { assert Progress(before[j], net.devs[j], net.now); }
      if answer.None? || answer.value.Fired? {
        coming := UndoAll(net, runs, i, if answer.None? then AtDeadline else Already, at, earliest, minimum);
        return false, coming;
      }
      told := told + [if answer.value.Sleeping? then Some(askedAt + answer.value.seconds * 1000) else None];
      if exists j :: 0 <= j <= i && told[j].Some? && told[j].value - net.now < DISARM_MARGIN {
        coming := UndoAll(net, runs, i, Now, 0, earliest, minimum);
        return false, coming;
      }
      i := i + 1;
    }
    net.ready := true;
    return true, coming;
  }

  /** A device that keeps the declared config whatever happens: or one whose watchdog can be slower
      to mark than a disarm waits, of which nothing is promised. */
  predicate KeepsNew(s: Dev) {
    Prompt(s) ==> Kept(s) && s.config.New?
  }

  predicate GoesBack(s: Dev) {
    Prompt(s) ==> GoneBack(s)
  }

  /** How the devices before `i` came out of the disarming, and that the rest still await it. */
  ghost predicate DisarmedUpTo(devs: seq<Dev>, i: nat, kept: seq<nat>, fired: seq<nat>, unreached: seq<nat>) {
    && (forall k :: 0 <= k < |kept| ==> kept[k] < |devs| && KeepsNew(devs[kept[k]]))
    && (forall k :: 0 <= k < |fired| ==> fired[k] < |devs| && GoesBack(devs[fired[k]]))
    && (forall k :: 0 <= k < |unreached| ==> unreached[k] < |devs| && CommitSeen(devs[unreached[k]]))
    && (forall j :: 0 <= j < |devs| ==> Slept(devs[j]) && if j < i then j in kept || j in fired || j in unreached else Awaits(devs[j]))
    && Apart(kept, fired, unreached)
  }

  /** No device came out in two ways. */
  predicate Apart(kept: seq<nat>, fired: seq<nat>, unreached: seq<nat>) {
    (forall j :: j in fired ==> j !in kept) && forall j :: j in unreached ==> j !in kept && j !in fired
  }

  /** Each device came out in one of three ways. */
  predicate Partition(places: nat, kept: seq<nat>, fired: seq<nat>, unreached: seq<nat>) {
    && (forall j :: 0 <= j < places ==> j in kept || j in fired || j in unreached)
    && Apart(kept, fired, unreached) && |kept| + |fired| + |unreached| == places
  }

  predicate Awaits(s: Dev) {
    Slept(s) && Installed(s) && CommitSeen(s)
  }

  lemma {:induction false} DisarmedOn(a: seq<Dev>, b: seq<Dev>, i: nat, kept: seq<nat>, fired: seq<nat>, unreached: seq<nat>, t: int)
    requires DisarmedUpTo(a, i, kept, fired, unreached) && Beside(a, b, i, t)
    requires i !in kept && i !in fired && i !in unreached
    ensures forall k :: 0 <= k < |kept| ==> kept[k] < |b| && KeepsNew(b[kept[k]])
    ensures forall k :: 0 <= k < |fired| ==> fired[k] < |b| && GoesBack(b[fired[k]])
    ensures forall k :: 0 <= k < |unreached| ==> unreached[k] < |b| && CommitSeen(b[unreached[k]])
    ensures forall j :: 0 <= j < |b| && j != i ==> Slept(b[j]) && (i < j ==> Awaits(b[j]))
  {
    forall k | 0 <= k < |kept| ensures KeepsNew(b[kept[k]]) { assert kept[k] in kept; assert Progress(a[kept[k]], b[kept[k]], t); }
    forall k | 0 <= k < |fired| ensures GoesBack(b[fired[k]]) { assert fired[k] in fired; assert Progress(a[fired[k]], b[fired[k]], t); }
    forall k | 0 <= k < |unreached| ensures CommitSeen(b[unreached[k]]) { assert unreached[k] in unreached; assert Progress(a[unreached[k]], b[unreached[k]], t); }
    forall j | 0 <= j < |b| && j != i ensures Slept(b[j]) && (i < j ==> Awaits(b[j])) { assert Progress(a[j], b[j], t); }
  }

  /** Disarm each in turn. One lost now cannot be helped by undoing the rest. */
  method DisarmAll(net: Network) returns (kept: seq<nat>, fired: seq<nat>, unreached: seq<nat>)
    requires net.Valid() && net.ready && forall j :: 0 <= j < |net.devs| ==> Awaits(net.devs[j])
    modifies net`devs, net`now, net`log
    ensures net.Valid() && |net.devs| == |old(net.devs)| && NoCommit(old(net.log), net.log)
    ensures DisarmedUpTo(net.devs, |net.devs|, kept, fired, unreached) && Partition(|net.devs|, kept, fired, unreached)
  {
    kept, fired, unreached := [], [], [];
    var i := 0;
    while i < |net.devs|
      invariant i <= |net.devs| == |old(net.devs)| && net.Valid() && NoCommit(old(net.log), net.log)
      invariant DisarmedUpTo(net.devs, i, kept, fired, unreached)
      invariant |kept| + |fired| + |unreached| == i
      invariant forall j :: j in kept || j in fired || j in unreached ==> j < i
    {
      ghost var before, log := net.devs, net.log;
      assert Awaits(before[i]);
      var answer := DisarmLive(net, i);
      NoCommitComposes(old(net.log), log, net.log);
      DisarmedOn(before, net.devs, i, kept, fired, unreached, net.now);
      match answer {
        case Some(true) => kept := kept + [i];
        case Some(false) => fired := fired + [i];
        case None => unreached := unreached + [i];
      }
      i := i + 1;
    }
  }

  /** Every device kept: told the run is over there. */
  method FinishAll(net: Network, kept: seq<nat>, fired: seq<nat>, unreached: seq<nat>)
    requires net.Valid()
    requires forall k :: 0 <= k < |kept| ==> kept[k] < |net.devs| && Slept(net.devs[kept[k]]) && KeepsNew(net.devs[kept[k]])
    requires forall k :: 0 <= k < |fired| ==> fired[k] < |net.devs| && GoesBack(net.devs[fired[k]])
    requires forall k :: 0 <= k < |unreached| ==> unreached[k] < |net.devs| && CommitSeen(net.devs[unreached[k]])
    requires Apart(kept, fired, unreached)
    modifies net`devs, net`now, net`log
    ensures net.Valid() && |net.devs| == |old(net.devs)| && NoCommit(old(net.log), net.log)
    ensures forall k :: 0 <= k < |kept| ==> kept[k] < |net.devs| && KeepsNew(net.devs[kept[k]])
    ensures forall k :: 0 <= k < |fired| ==> fired[k] < |net.devs| && GoesBack(net.devs[fired[k]])
    ensures forall k :: 0 <= k < |unreached| ==> unreached[k] < |net.devs| && CommitSeen(net.devs[unreached[k]])
  {
    var n := 0;
    while n < |kept|
      invariant n <= |kept| && net.Valid() && |net.devs| == |old(net.devs)| && NoCommit(old(net.log), net.log)
      invariant forall k :: 0 <= k < |kept| ==> kept[k] < |net.devs| && Slept(net.devs[kept[k]]) && KeepsNew(net.devs[kept[k]])
      invariant forall k :: 0 <= k < |fired| ==> fired[k] < |net.devs| && GoesBack(net.devs[fired[k]])
      invariant forall k :: 0 <= k < |unreached| ==> unreached[k] < |net.devs| && CommitSeen(net.devs[unreached[k]])
    {
      ghost var before, log, i := net.devs, net.log, kept[n];
      net.Finish(kept[n]);
      NoCommitComposes(old(net.log), log, net.log);
      forall k | 0 <= k < |kept| ensures Slept(net.devs[kept[k]]) && KeepsNew(net.devs[kept[k]]) {
        if kept[k] != i { assert Progress(before[kept[k]], net.devs[kept[k]], net.now); }
      }
      forall k | 0 <= k < |fired| ensures GoesBack(net.devs[fired[k]]) {
        assert fired[k] in fired && i in kept;
        assert Progress(before[fired[k]], net.devs[fired[k]], net.now);
      }
      forall k | 0 <= k < |unreached| ensures CommitSeen(net.devs[unreached[k]]) {
        assert unreached[k] in unreached && i in kept;
        assert Progress(before[unreached[k]], net.devs[unreached[k]], net.now);
      }
      n := n + 1;
    }
  }

  /** Up to the point of no return: armed, configured, committed, confirmed, found asleep in time. */
  method RunToReady(net: Network, confirmTimeoutSeconds: nat, minimum: nat)
    returns (ok: bool, end: RunEnd, ghost earliest: int, ghost coming: map<nat, nat>)
    requires net.Valid() && net.log == [] && NothingChanged(net) && net.refused == {} && !net.ready && minimum > 0
    requires forall j :: 0 <= j < |net.devs| ==> Unarmed(net.devs[j])
    modifies net
    ensures net.Valid() && |net.devs| == |old(net.devs)| && InWindow(net.log, earliest, minimum) && net.ready == ok
    ensures ok ==> |net.devs| > 0 && AllSaidYes(net) && forall j :: 0 <= j < |net.devs| ==> Awaits(net.devs[j])
    ensures !ok ==> EndedRight(net, end) && AllUndone(net.devs, net.log, coming, earliest, net.now)
  {
    ok, earliest, end, coming := false, 0, FailedRun, map[];
    if |net.devs| == 0 { return; }
    var armed;
    ok, armed := ArmAll(net, confirmTimeoutSeconds * |net.devs|);
    NoCommitInWindow([], net.log, 0, minimum);
    NoCommitSends([], net.log);
    if !ok { return; }
    var first := EarliestDeadline(armed);
    earliest := first;
    NoCommitInWindow([], net.log, first, minimum);
    ok, end, coming := ConfigureAll(net, armed, first, minimum);
    if !ok { return; }
    end := RolledBack;
    ghost var failed, how;
    ok, coming, failed, how := ConfirmAll(net, armed, first, minimum);
    if !ok { return; }
    ok, coming := ReadyToDisarm(net, armed, first, minimum);
  }

  /** How a run that came to the disarming ends: by how many devices keep the change, of how many, and
      whether a step after it failed. */
  function EndOf(kept: seq<nat>, devices: nat, hooksFailed: bool): RunEnd {
    if kept == [] then RolledBack
    else if |kept| < devices then Partial(kept)
    else if hooksFailed then AppliedWithProblems
    else Applied(|kept|)
  }

  /** The whole run, confirmed (provisionNetwork.ts, runNetwork), from every device planned. */
  method RunNetwork(net: Network, confirmTimeoutSeconds: nat, minimum: nat)
    returns (end: RunEnd, kept: seq<nat>, fired: seq<nat>, unreached: seq<nat>, hooksFailed: bool, ghost earliest: int, ghost coming: map<nat, nat>)
    requires net.Valid() && net.log == [] && NothingChanged(net) && net.refused == {} && !net.ready && minimum > 0
    requires forall j :: 0 <= j < |net.devs| ==> Unarmed(net.devs[j])
    modifies net
    ensures net.Valid() && |net.devs| == |old(net.devs)|
    // Applied: every device holds the declared config, and nothing restores it any more.
    ensures end.Applied? || end.AppliedWithProblems? ==>
      |net.devs| > 0 && forall j :: 0 <= j < |net.devs| ==> KeepsNew(net.devs[j])
    // Stopped before the disarming: "failed" just when nothing was changed, else "rolled-back", each device
    // unchanged or its rollback coming (UndoneRunGoesBack).
    ensures !net.ready ==> EndedRight(net, end) && AllUndone(net.devs, net.log, coming, earliest, net.now)
    // The disarming begun, each device came out in one way: kept for good; gone back; or no answer from
    // it, and then one or the other. The end says how many.
    ensures net.ready ==> AllSaidYes(net)
    ensures net.ready ==> Partition(|net.devs|, kept, fired, unreached) && end == EndOf(kept, |net.devs|, hooksFailed)
    ensures forall k :: 0 <= k < |kept| ==> kept[k] < |net.devs| && KeepsNew(net.devs[kept[k]])
    ensures forall k :: 0 <= k < |fired| ==> fired[k] < |net.devs| && GoesBack(net.devs[fired[k]])
    ensures forall k :: 0 <= k < |unreached| ==> unreached[k] < |net.devs| && CommitSeen(net.devs[unreached[k]])
    // Every commit was sent in time.
    ensures InWindow(net.log, earliest, minimum)
  {
    var ok;
    kept, fired, unreached, hooksFailed := [], [], [], false;
    ok, end, earliest, coming := RunToReady(net, confirmTimeoutSeconds, minimum);
    if !ok { return; }
    ghost var log := net.log;
    kept, fired, unreached := DisarmAll(net);
    ghost var disarmedLog := net.log;
    ghost var places := |net.devs|;
    assert |fired| + |unreached| == 0 ==> forall j :: 0 <= j < places ==> j in kept;
    FinishAll(net, kept, fired, unreached);
    forall j | 0 <= j < |net.devs| && j in kept ensures KeepsNew(net.devs[j]) { ghost var k :| 0 <= k < |kept| && kept[k] == j; }
    NoCommitComposes(log, disarmedLog, net.log);
    NoCommitInWindow(log, net.log, earliest, minimum);
    hooksFailed := *;
    end := if |fired| + |unreached| > 0 then (if kept == [] then RolledBack else Partial(kept))
           else if hooksFailed then AppliedWithProblems
           else Applied(|kept|);
  }

  /** A run undone is undone. Let each device go on as it may, with no disarm any more, until its watchdog
      has ended; let none that was changed be killed since the call that told it to roll back was sent (or,
      not told, since the run ended), and let a watchdog then dead be one that was told. Then the device
      holds its snapshot, or a prepare or stage changed something after the restore, or the device
      restarted; and that, with the boot-time copy, leaves the snapshot's config and files too. */
  lemma {:induction false} UndoneRunGoesBack(
    devs: seq<Dev>, log: seq<Sent>, coming: map<nat, nat>, earliest: int, t: int, j: nat, run: seq<Dev>)
    requires AllInv(devs) && AllUndone(devs, log, coming, earliest, t) && j < |devs|
    requires IsQuiet(run) && run[0] == devs[j] && Ended(Last(run))
    requires Untouched(devs[j]) || NotKilledSince(devs[j], log, coming, j, Last(run))
    ensures var s := Last(run);
      && (OnSnapshot(s) || s.late.Some? || s.dog.Cut?)
      && (s.late.Some? ==> s.late.value.Preparing? || s.late.value.Staging? || s.late.value.Batched?)
      && (s.dog.Cut? && s.copied ==> (s.config.Old? && !s.files) || s.late.Some?)
  {
    QuietKeeps(run, |run| - 1);
    UndoneDeviceEndsOnSnapshot(run);
  }

  /** Told: as often killed as when that call was sent. Not told: alive as the run ended, and not killed
      since. */
  predicate NotKilledSince(s: Dev, log: seq<Sent>, coming: map<nat, nat>, j: nat, end: Dev) {
    if j in coming then coming[j] < |log| && end.deaths == log[coming[j]].state.deaths
    else !s.dog.Dead? && end.deaths == s.deaths
  }

  /** The dead must be told: a committed device whose watchdog is dead, left so, is left on what it
      holds, short of a restart. */
  lemma {:induction false} UntoldDeadStays(run: seq<Dev>)
    requires IsQuiet(run) && Inv(run[0]) && run[0].dog.Dead? && !Busy(run[0].work)
    ensures SameContents(run[0], Last(run)) || Last(run).dog.Cut?
  {
    forall i | 0 <= i < |run| - 1 ensures Moves(run[i], run[i + 1]) { assert Goes(run[i], run[i + 1]); }
    RunKeeps(run, 0, |run| - 1);
  }

  method EarliestDeadline(runs: seq<DeviceRun>) returns (earliest: int)
    requires |runs| > 0
    ensures forall j :: 0 <= j < |runs| ==> earliest <= runs[j].deadline
    ensures exists j :: 0 <= j < |runs| && earliest == runs[j].deadline
  {
    earliest := runs[0].deadline;
    for i := 1 to |runs|
      invariant forall j :: 0 <= j < i ==> earliest <= runs[j].deadline
      invariant exists j :: 0 <= j < i && earliest == runs[j].deadline
    {
      if runs[i].deadline < earliest { earliest := runs[i].deadline; }
    }
  }
}
