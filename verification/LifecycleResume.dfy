/** Resuming: a queued pause is not lost, and a resume with a usable snapshot converges. */
module LifecycleResume {
  import opened Optional
  import opened StatusConditions
  import opened Lifecycle
  import opened LifecycleProofs
  import F = PodFailures
  import Q = QemuRestore

  // ---- A pause requested during a resume.

  /** While Resuming, a reconcile acknowledges the generation exactly when it gives the
      resume up (or finds it done without a snapshot) and that write succeeds. */
  lemma {:induction false} ResumingAcknowledgesIff(c: Cluster, env: Env)
    requires c.status.phase.Resuming?
    ensures var d := Reconcile(c, env);
      if GiveUpReason(c).Some? && env.ok(0) then d.status.pauseObserved == c.generation == d.generation
      else d.status.pauseObserved == c.status.pauseObserved
  {
    var p := ContinueResume(c, env);
    if !p.err {
      NormalFlowKeepsAck(p.c, p.l, env);
    }
  }

  /** The normal flow acknowledges nothing after a status write, nor while Resuming. */
  lemma {:induction false} NormalFlowKeepsAck(c: Cluster, l: Local, env: Env)
    requires l.wrote || (l.status.phase.Resuming? && l.status.pauseObserved == c.status.pauseObserved)
    ensures NormalFlow(c, l, env).status.pauseObserved == c.status.pauseObserved
    ensures NormalFlow(c, l, env).generation == c.generation
  {
    NormalFlowChanges(c, l, env);
    RuntimeViewPhase(l, Listed(c, l.spec.pooled), env.now);
  }

  /** A pause is asked for and not acknowledged yet. */
  predicate PauseQueued(c: Cluster) { c.spec.pause == Some(true) && c.generation > c.status.pauseObserved }

  /** A queued pause survives a reconcile that continues the resume, and is what the next
      dispatch after the resume turns to. */
  lemma {:induction false} QueuedPauseSurvives(c: Cluster, env: Env)
    requires c.status.phase.Resuming? && PauseQueued(c) && GiveUpReason(c).None?
    ensures var d := Reconcile(c, env);
      && PauseQueued(d) && !d.status.phase.Pausing?
      && (!d.status.phase.Resuming? ==> DispatchOf(d) == ToHandlePause)
  {
    var p := ContinueResume(c, env);
    ContinueResumeChanges(c, env);
    NormalFlowChanges(p.c, p.l, env);
    RuntimeViewPhase(p.l, Listed(p.c, p.l.spec.pooled), env.now);
    ResumingAcknowledgesIff(c, env);
  }

  /** What the outside may do between reconciles of a resume with a queued pause: anything
      but take the request back or touch the status. */
  ghost predicate KeepsRequest(c: Cluster, d: Cluster) {
    d.status == c.status && d.spec.pause == c.spec.pause && d.generation >= c.generation
  }

  /** Over any number of reconciles with a usable snapshot, the queued pause stays queued
      until the phase leaves Resuming, and is then handed to handlePause. */
  lemma {:induction false} QueuedPauseIsHandled(before: seq<Cluster>, envs: seq<Env>)
    requires |before| == |envs| + 1
    requires before[0].status.phase.Resuming? && PauseQueued(before[0])
    requires forall i :: 0 <= i < |envs| ==> before[i].status.phase.Resuming? && GiveUpReason(before[i]).None?
    requires forall i :: 0 <= i < |envs| ==> KeepsRequest(Reconcile(before[i], envs[i]), before[i + 1])
    ensures var last := before[|envs|];
      PauseQueued(last) && (last.status.phase.Resuming? || DispatchOf(last) == ToHandlePause)
  {
    var n := |envs|;
    if n == 0 {
    } else {
      QueuedPauseIsHandled(before[..n], envs[..n - 1]);
      QueuedPauseSurvives(before[n - 1], envs[n - 1]);
      assert KeepsRequest(Reconcile(before[n - 1], envs[n - 1]), before[n]);
    }
  }

  /** Exactly when a reconcile of a resume loses the queued pause: it has a reason to give
      the resume up, a missing snapshot being one, and its acknowledgement goes through. */
  lemma {:induction false} QueuedPauseLostIff(c: Cluster, env: Env)
    requires c.status.phase.Resuming? && PauseQueued(c)
    ensures !PauseQueued(Reconcile(c, env)) <==> GiveUpReason(c).Some? && env.ok(0)
  {
    var p := ContinueResume(c, env);
    ContinueResumeChanges(c, env);
    NormalFlowChanges(p.c, p.l, env);
    ResumingAcknowledgesIff(c, env);
  }

  /** Once the snapshot is gone the request can be lost: the reconcile that finds a ready
      pod acknowledges the latest generation and goes to Succeed. */
  lemma {:induction false} PauseLostWithoutSnapshot(c: Cluster, env: Env)
    requires c.status.phase.Resuming? && PauseQueued(c) && AllOk(env)
    requires c.snapshot.None? && HasReadyResumePod(c)
    ensures var d := Reconcile(c, env); !PauseQueued(d) && d.status.pauseObserved == d.generation
  {
    ResumingAcknowledgesIff(c, env);
    var p := ContinueResume(c, env);
    NormalFlowChanges(p.c, p.l, env);
  }

  /** A paused sandbox's snapshot is thrown away exactly when a spec edit with pause still
      set replays the pause. */
  lemma {:induction false} PausedSnapshotDeletedIff(c: Cluster, env: Env)
    requires c.status.phase.Paused? && c.snapshot.Some? && !c.snapshot.value.deleting
    ensures Reconcile(c, env).snapshot != c.snapshot <==>
      PauseQueued(c) && c.spec.replicas == Some(SUPPORTED_REPLICAS) && Terminal(c.snapshot.value) && env.ok(0)
  {
    NormalFlowChanges(c, Fresh(c), env);
    RuntimeViewPhase(Fresh(c), Listed(c, c.spec.pooled), env.now);
  }

  // ---- Convergence of a resume.

  /** The sandbox is to run, and its pods are there, ready and without failures. */
  ghost predicate PodsRun(c: Cluster) {
    && c.spec.pause == Some(false) && c.spec.replicas.Some? && StatusOk(c.status)
    && CountReady(c.owned) > 0 && F.Prevails(Failures(c.owned)).None?
    && (forall i: nat :: i < c.spec.replicas.value ==> HasIndex(c.owned, i))
  }

  /** If a snapshot is still around, it is usable and already worked into the spec. */
  ghost predicate Absorbed(c: Cluster, secret: string) {
    && !c.spec.pooled
    && (c.snapshot.Some? ==> SnapshotDone(c) && GiveUpReason(c).None? && ResumedSpec(c, secret) == Some(c.spec))
  }

  lemma {:induction false} NothingToCreate(
      name: string, owned: seq<Pod>, template: Option<Q.Template>, ok: nat -> bool, i: nat, n: int)
    requires forall j: nat :: i <= j < n ==> HasIndex(owned, j)
    ensures CreateMissing(name, owned, template, ok, i, n) == Scaled(owned, true)
    decreases n - i
  {
    if i < n {
      NothingToCreate(name, owned, template, ok, i + 1, n);
    }
  }

  lemma {:induction false} ReadyMeansAnyReady(pods: seq<Pod>)
    requires CountReady(pods) > 0
    ensures AnyReady(pods)
  {
    var n := |pods| - 1;
    if pods[n].ready {
      assert AnyReady(pods);
    } else {
      ReadyMeansAnyReady(pods[..n]);
      var i :| 0 <= i < |pods[..n]| && pods[..n][i].ready;
      assert pods[i].ready;
    }
  }

  /** Working a snapshot into the spec is done after one reconcile. */
  lemma {:induction false} ResumedSpecAbsorbed(c: Cluster, secret: string)
    requires SnapshotDone(c) && GiveUpReason(c).None? && ResumedSpec(c, secret).Some?
    ensures Absorbed(WithSpec(c, ResumedSpec(c, secret).value), secret)
  {
    var content := c.snapshot.value.content;
    if c.spec.template.Some? {
      Q.RestoredTwice(c.spec.template.value, content, secret);
    }
  }

  /** The conditions the runtime view of running pods asks for. */
  function RunningConditions(cs: seq<Condition>, now: int): seq<Condition> {
    ApplyPhase(Set(cs, Wanted(PodFailedType, FALSE, "", ""), now), Succeed, now)
  }

  lemma {:induction false} RunningConditionsStable(cs: seq<Condition>, now: int, later: int)
    requires UniqueKinds(cs)
    ensures UniqueKinds(RunningConditions(cs, now))
    ensures RunningConditions(RunningConditions(cs, now), later) == RunningConditions(cs, now)
    ensures MergeLifecycle(RunningConditions(cs, now), cs) == RunningConditions(cs, now)
  {
    var w := Wanted(PodFailedType, FALSE, "", "");
    assert TRUE != FALSE by { assert TRUE[0] != FALSE[0]; }
    var mid, r := Set(cs, w, now), RunningConditions(cs, now);
    SetUnique(cs, w, now);
    SetMeaning(cs, w, now);
    ApplyPhaseMakesConsistent(mid, Succeed, now);
    HasMember(mid, PodFailedType);
    HasMember(r, PodFailedType);
    assert InForce(r, w);
    SetInForceIsIdentity(r, w, later);
    ApplyPhaseTwice(mid, Succeed, now, later);
    forall c: Condition | c in cs && LifecycleOwned(c.kind)
      ensures Has(r, c.kind)
    {
      assert c in mid && c in r;
      HasMember(r, c.kind);
    }
    NothingMissing(cs, r);
  }

  lemma {:induction false} NothingMissing(latest: seq<Condition>, desired: seq<Condition>)
    requires forall c: Condition :: c in latest && LifecycleOwned(c.kind) ==> Has(desired, c.kind)
    ensures Missing(latest, desired) == []
  {
    if latest == [] {
    } else {
      var n := |latest| - 1;
      assert latest[n] in latest;
      NothingMissing(latest[..n], desired);
    }
  }

  /** The view of running pods, from a resuming or running sandbox. */
  function RunningView(l: Local, pods: seq<Pod>, now: int): Status {
    Status(Succeed,
           if !l.status.phase.Resuming? && l.status.pauseObserved < l.generation then l.generation
           else l.status.pauseObserved,
           l.generation, |pods|, CountPlaced(pods), CountReady(pods), RunningConditions(l.status.conditions, now))
  }

  lemma {:induction false} ViewOfRunningPods(l: Local, pods: seq<Pod>, now: int)
    requires l.status.phase.Resuming? || l.status.phase.Succeed?
    requires CountReady(pods) > 0 && F.Prevails(Failures(pods)).None?
    ensures RuntimeView(l, pods, now) == RunningView(l, pods, now)
  {
  }

  lemma {:induction false} NormalFlowOfRunningPods(c: Cluster, l: Local, env: Env)
    requires PodsRun(c) && AllOk(env) && c.spec == l.spec && !l.spec.pooled
    requires l.status.phase.Resuming? || l.status.phase.Succeed?
    requires l.wrote || (c.status == l.status)
    ensures NormalFlow(c, l, env) ==
      var view := RunningView(l, c.owned, env.now);
      if view == l.status then DropSnapshot(c, env)
      else if l.wrote then c
      else DropSnapshot(c.(status := view), env)
  {
    NothingToCreate(c.name, c.owned, l.spec.template, env.ok, 0, l.spec.replicas.value);
    ViewOfRunningPods(l, c.owned, env.now);
    assert c.(owned := c.owned) == c;
    if !l.wrote {
      RunningConditionsStable(c.status.conditions, env.now, env.now);
      var view := RunningView(l, c.owned, env.now);
      assert view.(conditions := view.conditions) == view;
    }
  }

  /** A resume in progress that can go through: its snapshot has succeeded and is valid. */
  ghost predicate Resumable(c: Cluster, secret: string) {
    && c.spec.pause == Some(false) && c.spec.replicas.Some? && StatusOk(c.status)
    && c.status.phase.Resuming? && c.status.pauseObserved <= c.generation
    && SnapshotDone(c) && GiveUpReason(c).None? && ResumedSpec(c, secret).Some?
  }

  ghost predicate Starting(c: Cluster, secret: string) { Resumable(c, secret) && PodsRun(c) }

  /** The resume went through, but its own template patch looks like a new request. */
  ghost predicate Unacknowledged(c: Cluster, secret: string) {
    PodsRun(c) && Absorbed(c, secret) && c.status.phase.Succeed? && c.status.pauseObserved < c.generation
  }

  /** handleResume has run a second time. */
  ghost predicate ResumingAgain(c: Cluster, secret: string) {
    PodsRun(c) && Absorbed(c, secret) && c.status.phase.Resuming? && c.status.pauseObserved == c.generation
  }

  ghost predicate Resumed(c: Cluster, secret: string) {
    PodsRun(c) && Absorbed(c, secret) && c.status.phase.Succeed? && c.status.pauseObserved == c.generation
  }

  /** The runtime view of the sandbox is its status, at any later time. */
  ghost predicate NothingNew(l: Local, pods: seq<Pod>) {
    forall later :: RunningView(l, pods, later) == l.status
  }

  /** Resumed, with nothing left to write. */
  ghost predicate Steady(c: Cluster, secret: string) {
    && Resumed(c, secret) && NothingNew(Fresh(c), c.owned)
    && (c.snapshot.Some? ==> c.snapshot.value.deleting)
  }

  lemma {:induction false} DropSnapshotKeeps(c: Cluster, env: Env, secret: string)
    requires AllOk(env)
    ensures var d := DropSnapshot(c, env);
      && d == c.(snapshot := d.snapshot)
      && (PodsRun(c) ==> PodsRun(d)) && (Absorbed(c, secret) ==> Absorbed(d, secret))
      && (Absorbed(c, secret) ==> d.snapshot.Some? ==> d.snapshot.value.deleting)
  {
  }

  lemma {:induction false} StartingStep(c: Cluster, env: Env, secret: string)
    requires Starting(c, secret) && AllOk(env) && env.secret == secret
    ensures var d := Reconcile(c, env); Unacknowledged(d, secret) || Resumed(d, secret)
  {
    var p := ContinueResume(c, env);
    ResumedSpecAbsorbed(c, secret);
    NormalFlowOfRunningPods(p.c, p.l, env);
    StatusStaysConsistent(c, env);
    DropSnapshotKeeps(p.c.(status := RunningView(p.l, c.owned, env.now)), env, secret);
  }

  lemma {:induction false} UnacknowledgedStep(c: Cluster, env: Env, secret: string)
    requires Unacknowledged(c, secret) && AllOk(env)
    ensures ResumingAgain(Reconcile(c, env), secret)
  {
    StatusStaysConsistent(c, env);
  }

  lemma {:induction false} ResumingAgainStep(c: Cluster, env: Env, secret: string)
    requires ResumingAgain(c, secret) && AllOk(env) && env.secret == secret
    ensures Resumed(Reconcile(c, env), secret)
  {
    if c.snapshot.None? {
      ResumingWithoutSnapshot(c, env, secret);
    } else {
      ResumingWithSnapshot(c, env, secret);
    }
  }

  lemma {:induction false} ResumingWithoutSnapshot(c: Cluster, env: Env, secret: string)
    requires ResumingAgain(c, secret) && c.snapshot.None? && AllOk(env)
    ensures Resumed(Reconcile(c, env), secret)
  {
    var p := ContinueResume(c, env);
    ReadyMeansAnyReady(c.owned);
    ContinueResumeOk(c, env);
    NormalFlowOfRunningPods(p.c, p.l, env);
  }

  lemma {:induction false} ResumingWithSnapshot(c: Cluster, env: Env, secret: string)
    requires ResumingAgain(c, secret) && c.snapshot.Some? && AllOk(env) && env.secret == secret
    ensures Resumed(Reconcile(c, env), secret)
  {
    var p := ContinueResume(c, env);
    assert p == Progress(c, Fresh(c), false);
    NormalFlowOfRunningPods(c, p.l, env);
    StatusStaysConsistent(c, env);
    DropSnapshotKeeps(c.(status := RunningView(p.l, c.owned, env.now)), env, secret);
  }

  lemma {:induction false} RunningViewStable(l: Local, pods: seq<Pod>, now: int)
    requires UniqueKinds(l.status.conditions) && l.status.phase.Succeed? && l.status.pauseObserved == l.generation
    ensures NothingNew(l.(status := RunningView(l, pods, now)), pods)
  {
    var m := l.(status := RunningView(l, pods, now));
    forall later
      ensures RunningView(m, pods, later) == m.status
    {
      RunningConditionsStable(l.status.conditions, now, later);
    }
  }

  /** A reconcile of a resumed sandbox refreshes the status and lets the snapshot go. */
  lemma {:induction false} ReconcileResumed(c: Cluster, env: Env)
    requires PodsRun(c) && !c.spec.pooled && AllOk(env)
    requires c.status.phase.Succeed? && c.status.pauseObserved == c.generation
    ensures Reconcile(c, env) == DropSnapshot(c.(status := RunningView(Fresh(c), c.owned, env.now)), env)
  {
    NormalFlowOfRunningPods(c, Fresh(c), env);
    assert DispatchOf(c) == ToNormalFlow;
    assert c.(status := c.status) == c;
  }

  lemma {:induction false} ResumedStep(c: Cluster, env: Env, secret: string)
    requires Resumed(c, secret) && AllOk(env)
    ensures Steady(Reconcile(c, env), secret)
  {
    var l := Fresh(c);
    var view := RunningView(l, c.owned, env.now);
    var d := c.(status := view);
    ReconcileResumed(c, env);
    StatusStaysConsistent(c, env);
    RunningViewStable(l, c.owned, env.now);
    assert Fresh(DropSnapshot(d, env)) == l.(status := view);
    DropSnapshotKeeps(d, env, secret);
  }

  lemma {:induction false} SteadyStep(c: Cluster, env: Env, secret: string)
    requires Steady(c, secret) && AllOk(env)
    ensures Reconcile(c, env) == c
  {
    ReconcileResumed(c, env);
    assert RunningView(Fresh(c), c.owned, env.now) == c.status;
    assert c.(status := c.status) == c;
  }

  /** Between reconciles a snapshot being deleted may disappear. */
  ghost predicate MayVanish(c: Cluster, d: Cluster) {
    d == c || (c.snapshot.Some? && c.snapshot.value.deleting && d == c.(snapshot := None))
  }

  lemma {:induction false} StagesSurviveVanishing(c: Cluster, d: Cluster, secret: string)
    requires MayVanish(c, d)
    ensures Unacknowledged(c, secret) ==> Unacknowledged(d, secret)
    ensures ResumingAgain(c, secret) ==> ResumingAgain(d, secret)
    ensures Resumed(c, secret) ==> Resumed(d, secret)
    ensures Steady(c, secret) ==> Steady(d, secret)
  {
    assert Fresh(d) == Fresh(c);
  }

  /** How far a resume with running pods has come; -1 if it is in none of the stages. */
  ghost function Rank(c: Cluster, secret: string): int {
    if Steady(c, secret) then 4
    else if Resumed(c, secret) then 3
    else if ResumingAgain(c, secret) then 2
    else if Unacknowledged(c, secret) then 1
    else if Starting(c, secret) then 0
    else -1
  }

  /** One reconcile with whatever writes failing, and nothing from outside but a deleted
      snapshot going away. */
  ghost predicate Follows(c: Cluster, env: Env, d: Cluster, secret: string) {
    env.secret == secret && MayVanish(Reconcile(c, env), d)
  }

  /** Every undisturbed reconcile gets further, until there is nothing left to do. */
  lemma {:induction false} OneReconcile(c: Cluster, d: Cluster, env: Env, secret: string)
    requires Rank(c, secret) >= 0 && AllOk(env) && Follows(c, env, d, secret)
    ensures Rank(d, secret) >= Rank(c, secret) + 1 || Rank(d, secret) == 4
  {
    StagesSurviveVanishing(Reconcile(c, env), d, secret);
    match Rank(c, secret)
    case 0 => StartingStep(c, env, secret);
    case 1 => UnacknowledgedStep(c, env, secret);
    case 2 => ResumingAgainStep(c, env, secret);
    case _ => ResumedStep(c, env, secret);
  }

  // ---- Failing writes.

  /** The stages of a resume whose pods run; a snapshot still needed is not being deleted. */
  ghost predicate InStage(c: Cluster, secret: string) {
    || (Starting(c, secret) && !c.snapshot.value.deleting)
    || Unacknowledged(c, secret) || ResumingAgain(c, secret) || Resumed(c, secret)
  }

  /** The normal flow with running pods, whichever writes fail. */
  lemma {:induction false} NormalFlowOutcome(c: Cluster, l: Local, env: Env)
    requires PodsRun(c) && c.spec == l.spec && !l.spec.pooled
    requires l.status.phase.Resuming? || l.status.phase.Succeed?
    requires l.wrote || c.status == l.status
    ensures var d := NormalFlow(c, l, env);
      && d == c.(status := d.status, snapshot := d.snapshot)
      && (d.status == c.status || (!l.wrote && d.status == RunningView(l, c.owned, env.now)))
      && (d.snapshot == c.snapshot ||
            (SnapshotDone(c) && d == DeleteSnapshot(c.(status := d.status)) && (d.status.phase.Succeed? || l.wrote)))
  {
    NothingToCreate(c.name, c.owned, l.spec.template, env.ok, 0, l.spec.replicas.value);
    ViewOfRunningPods(l, c.owned, env.now);
    assert c.(owned := c.owned) == c;
    if !l.wrote {
      RunningConditionsStable(c.status.conditions, env.now, env.now);
    }
  }

  lemma {:induction false} DeletingKeepsStage(c: Cluster, secret: string)
    requires PodsRun(c) && Absorbed(c, secret) && SnapshotDone(c)
    ensures PodsRun(DeleteSnapshot(c)) && Absorbed(DeleteSnapshot(c), secret)
  {
  }

  lemma {:induction false} StartingStays(c: Cluster, env: Env, secret: string)
    requires Starting(c, secret) && !c.snapshot.value.deleting && env.secret == secret
    ensures InStage(Reconcile(c, env), secret)
  {
    var p := ContinueResume(c, env);
    if !p.err {
      ResumedSpecAbsorbed(c, secret);
      StartingFlowStays(p.c, env, secret);
    }
  }

  lemma {:induction false} StartingFlowStays(c: Cluster, env: Env, secret: string)
    requires Starting(c, secret) && Absorbed(c, secret) && !c.snapshot.value.deleting
    ensures InStage(NormalFlow(c, Fresh(c), env), secret)
  {
    NormalFlowOutcome(c, Fresh(c), env);
    NormalFlowOk(c, Fresh(c), env);
    var d := NormalFlow(c, Fresh(c), env);
    if d.snapshot != c.snapshot {
      DeletingKeepsStage(c.(status := d.status), secret);
    }
  }

  lemma {:induction false} UnacknowledgedStays(c: Cluster, env: Env, secret: string)
    requires Unacknowledged(c, secret)
    ensures InStage(Reconcile(c, env), secret)
  {
    StatusStaysConsistent(c, env);
  }

  lemma {:induction false} ResumingAgainStays(c: Cluster, env: Env, secret: string)
    requires ResumingAgain(c, secret) && env.secret == secret
    ensures InStage(Reconcile(c, env), secret)
  {
    if c.snapshot.None? {
      WithoutSnapshotStays(c, env, secret);
    } else if env.ok(0) {
      assert ContinueResume(c, env) == Progress(c, Fresh(c), false);
      FlowStays(c, env, secret);
    }
  }

  lemma {:induction false} WithoutSnapshotStays(c: Cluster, env: Env, secret: string)
    requires ResumingAgain(c, secret) && c.snapshot.None?
    ensures InStage(Reconcile(c, env), secret)
  {
    var p := ContinueResume(c, env);
    ReadyMeansAnyReady(c.owned);
    ContinueResumeOk(c, env);
    NormalFlowOutcome(p.c, p.l, env);
    NormalFlowOk(p.c, p.l, env);
  }

  /** The normal flow of a resume that acknowledged everything. */
  lemma {:induction false} FlowStays(c: Cluster, env: Env, secret: string)
    requires ResumingAgain(c, secret) || Resumed(c, secret)
    ensures var d := NormalFlow(c, Fresh(c), env); ResumingAgain(d, secret) || Resumed(d, secret)
  {
    NormalFlowOutcome(c, Fresh(c), env);
    NormalFlowOk(c, Fresh(c), env);
    var d := NormalFlow(c, Fresh(c), env);
    if d.snapshot != c.snapshot {
      DeletingKeepsStage(c.(status := d.status), secret);
    }
  }

  lemma {:induction false} ResumedStays(c: Cluster, env: Env, secret: string)
    requires Resumed(c, secret)
    ensures InStage(Reconcile(c, env), secret)
  {
    assert DispatchOf(c) == ToNormalFlow;
    FlowStays(c, env, secret);
  }

  /** A resume whose pods run never leaves its stages, whatever fails. */
  lemma {:induction false} StagesAreClosed(c: Cluster, env: Env, d: Cluster, secret: string)
    requires InStage(c, secret) && Follows(c, env, d, secret)
    ensures InStage(d, secret)
  {
    if Starting(c, secret) && !c.snapshot.value.deleting {
      StartingStays(c, env, secret);
    } else if Unacknowledged(c, secret) {
      UnacknowledgedStays(c, env, secret);
    } else if ResumingAgain(c, secret) {
      ResumingAgainStays(c, env, secret);
    } else {
      ResumedStays(c, env, secret);
    }
    StagesSurviveVanishing(Reconcile(c, env), d, secret);
  }

  ghost predicate StepOfRun(states: seq<Cluster>, envs: seq<Env>, secret: string, i: int)
    requires |states| == |envs| + 1
  {
    0 <= i < |envs| ==> Follows(states[i], envs[i], states[i + 1], secret)
  }

  /** Reconciles of which the first m may have failing writes. */
  ghost predicate IsRun(states: seq<Cluster>, envs: seq<Env>, secret: string, m: nat) {
    && |states| == |envs| + 1
    && (forall i :: StepOfRun(states, envs, secret, i))
    && (forall i :: m <= i < |envs| ==> AllOk(envs[i]))
  }

  lemma {:induction false} InStageAlongRun(states: seq<Cluster>, envs: seq<Env>, secret: string, m: nat, k: nat)
    requires IsRun(states, envs, secret, m) && k < |states| && InStage(states[0], secret)
    ensures InStage(states[k], secret)
  {
    if k == 0 {
    } else {
      InStageAlongRun(states, envs, secret, m, k - 1);
      StageIsKept(states, envs, secret, m, k - 1);
    }
  }

  lemma {:induction false} StageIsKept(states: seq<Cluster>, envs: seq<Env>, secret: string, m: nat, i: nat)
    requires IsRun(states, envs, secret, m) && i < |envs| && InStage(states[i], secret)
    ensures InStage(states[i + 1], secret)
  {
    assert StepOfRun(states, envs, secret, i);
    StagesAreClosed(states[i], envs[i], states[i + 1], secret);
  }

  lemma {:induction false} RankAfter(states: seq<Cluster>, envs: seq<Env>, secret: string, m: nat, k: nat)
    requires IsRun(states, envs, secret, m) && m <= k < |states| && Rank(states[m], secret) >= 0
    ensures Rank(states[k], secret) >= k - m || Rank(states[k], secret) == 4
  {
    var ranks := seq(|states|, i requires 0 <= i < |states| => Rank(states[i], secret));
    forall i | m <= i < k && ranks[i] >= 0
      ensures ranks[i + 1] >= ranks[i] + 1 || ranks[i + 1] == 4
    {
      RankGrows(states, envs, secret, m, i);
    }
    Climbs(ranks, m, k);
  }

  lemma {:induction false} Climbs(ranks: seq<int>, m: nat, k: nat)
    requires m <= k < |ranks| && ranks[m] >= 0 && forall i :: 0 <= i < |ranks| ==> ranks[i] <= 4
    requires forall i :: m <= i < k && ranks[i] >= 0 ==> ranks[i + 1] >= ranks[i] + 1 || ranks[i + 1] == 4
    ensures ranks[k] >= k - m || ranks[k] == 4
  {
    if k == m {
    } else {
      Climbs(ranks, m, k - 1);
      assert ranks[k - 1] >= 0;
    }
  }

  lemma {:induction false} RankGrows(states: seq<Cluster>, envs: seq<Env>, secret: string, m: nat, i: nat)
    requires IsRun(states, envs, secret, m) && m <= i < |envs| && Rank(states[i], secret) >= 0
    ensures Rank(states[i + 1], secret) >= Rank(states[i], secret) + 1 || Rank(states[i + 1], secret) == 4
  {
    assert StepOfRun(states, envs, secret, i);
    OneReconcile(states[i], states[i + 1], envs[i], secret);
  }

  /** With a succeeded, valid snapshot, running pods and no outside change, a resume that
      fails as often as it may and is then left alone for four reconciles is in phase
      Succeed with its generation acknowledged, and from then on a reconcile changes nothing. */
  lemma {:induction false} ResumeConverges(states: seq<Cluster>, envs: seq<Env>, secret: string, m: nat, n: nat)
    requires IsRun(states, envs, secret, m) && m + 4 <= n < |states|
    requires InStage(states[0], secret) || (m == 0 && Starting(states[0], secret))
    ensures states[n].status.phase.Succeed? && states[n].status.pauseObserved == states[n].generation
    ensures n < |envs| ==> Reconcile(states[n], envs[n]) == states[n]
  {
    if InStage(states[0], secret) {
      InStageAlongRun(states, envs, secret, m, m);
    } else {
      assert Rank(states[0], secret) >= 0;
    }
    RankAfter(states, envs, secret, m, n);
    if n < |envs| {
      SteadyStep(states[n], envs[n], secret);
    }
  }

  // ---- Waiting for the first ready pod.

  predicate PodsWait(c: Cluster) { CountReady(c.owned) == 0 && F.Prevails(Failures(c.owned)).None? }

  /** Until a pod is ready the resume stays open, whichever writes fail; the generation is
      bumped only by the one patch that works the snapshot into the spec. */
  lemma {:induction false} WaitingStep(c: Cluster, env: Env, secret: string)
    requires Resumable(c, secret) && PodsWait(c) && env.secret == secret
    ensures var d := Reconcile(c, env);
      && Resumable(d, secret) && d.snapshot == c.snapshot
      && (Absorbed(c, secret) ==> Absorbed(d, secret) && d.spec == c.spec && d.generation == c.generation)
      && (d.generation != c.generation ==> d.generation == c.generation + 1 && Absorbed(d, secret))
  {
    var p := ContinueResume(c, env);
    ResumedSpecAbsorbed(c, secret);
    StatusStaysConsistent(c, env);
    ContinueResumeChanges(c, env);
    NormalFlowChanges(p.c, p.l, env);
    RuntimeViewPhase(p.l, Listed(p.c, p.l.spec.pooled), env.now);
    assert !p.err ==> RuntimeView(p.l, c.owned, env.now).phase.Resuming?;
  }

  /** Reconciles while the pods are starting up; the outside only moves pods along. */
  ghost predicate WaitingRun(states: seq<Cluster>, envs: seq<Env>, secret: string) {
    && |states| == |envs| + 1
    && forall i :: 0 <= i < |envs| ==>
         && PodsWait(states[i]) && envs[i].secret == secret
         && states[i + 1] == Reconcile(states[i], envs[i]).(owned := states[i + 1].owned, pool := states[i + 1].pool)
  }

  lemma {:induction false} WaitingKeepsResumable(states: seq<Cluster>, envs: seq<Env>, secret: string, n: nat)
    requires WaitingRun(states, envs, secret) && n < |states| && Resumable(states[0], secret)
    ensures Resumable(states[n], secret) && states[n].snapshot == states[0].snapshot
    ensures states[n].generation <= states[0].generation + 1
    ensures states[n].generation > states[0].generation ==> Absorbed(states[n], secret)
  {
    if n == 0 {
    } else {
      WaitingKeepsResumable(states, envs, secret, n - 1);
      WaitingStep(states[n - 1], envs[n - 1], secret);
    }
  }

  /** However long the pods take and whichever writes fail, before and after they run: four
      undisturbed reconciles in a row end every resume in Succeed, acknowledged, with
      nothing left to change. */
  lemma {:induction false} ResumeConvergesOnceReady(
      waiting: seq<Cluster>, early: seq<Env>, states: seq<Cluster>, envs: seq<Env>, secret: string, m: nat, n: nat)
    requires WaitingRun(waiting, early, secret) && Resumable(waiting[0], secret)
    requires IsRun(states, envs, secret, m) && states[0] == waiting[|early|] && PodsRun(states[0])
    requires m == 0 || !waiting[0].snapshot.value.deleting
    requires m + 4 <= n < |states|
    ensures states[n].status.phase.Succeed? && states[n].status.pauseObserved == states[n].generation
    ensures n < |envs| ==> Reconcile(states[n], envs[n]) == states[n]
  {
    WaitingKeepsResumable(waiting, early, secret, |early|);
    ResumeConverges(states, envs, secret, m, n);
  }
}
