/** The reconciler as it runs: it changes the stored objects write by write. Every method is
    proved to do what the functions in Lifecycle say. */
module LifecycleController {
  import opened Optional
  import opened StatusConditions
  import opened Lifecycle
  import opened LifecycleProofs
  import opened LifecycleResume
  import LifecyclePause
  import F = PodFailures
  import Q = QemuRestore

  // ---- Loops over pods.

  method FindReady(pods: seq<Pod>) returns (found: bool)
    ensures found == AnyReady(pods)
  {
    for i := 0 to |pods|
      invariant !AnyReady(pods[..i])
    {
      assert pods[..i + 1] == pods[..i] + [pods[i]];
      if pods[i].ready { return true; }
    }
    assert pods[..|pods|] == pods;
    return false;
  }

  method CountPods(pods: seq<Pod>) returns (placed: nat, ready: nat)
    ensures placed == CountPlaced(pods) && ready == CountReady(pods)
  {
    placed, ready := 0, 0;
    for i := 0 to |pods|
      invariant placed == CountPlaced(pods[..i]) && ready == CountReady(pods[..i])
    {
      assert pods[..i + 1][..i] == pods[..i];
      if pods[i].placed { placed := placed + 1; }
      if !pods[i].deleting && pods[i].ready { ready := ready + 1; }
    }
    assert pods[..|pods|] == pods;
  }

  /** The indices below n that no pod has. */
  function Needed(pods: seq<Pod>, i: nat, n: int): seq<nat>
    decreases n - i
  {
    if i >= n then [] else (if HasIndex(pods, i) then [] else [i]) + Needed(pods, i + 1, n)
  }

  /** Creating a list of pods, up to the first failure. */
  function CreateEach(
      name: string, owned: seq<Pod>, template: Option<Q.Template>, ok: nat -> bool, need: seq<nat>): Scaled
    decreases need
  {
    if need == [] then Scaled(owned, true)
    else if template.None? || !ok(POD_CREATE + need[0]) then Scaled(owned, false)
    else CreateEach(name, owned + [NewPod(name, need[0], template.value)], template, ok, need[1..])
  }

  lemma {:induction false} NeededBeyond(pods: seq<Pod>, p: Pod, i: nat, n: int)
    requires p.index < i
    ensures Needed(pods + [p], i, n) == Needed(pods, i, n)
    decreases n - i
  {
    if i < n {
      NeededBeyond(pods, p, i + 1, n);
      if HasIndex(pods, i) {
        var k :| 0 <= k < |pods| && pods[k].index == i;
        assert (pods + [p])[k].index == i;
      }
    }
  }

  /** Listing what is missing first and creating it then is the same as creating on the way. */
  lemma {:induction false} CreateListedOrOnTheWay(
      name: string, owned: seq<Pod>, template: Option<Q.Template>, ok: nat -> bool, i: nat, n: int)
    ensures CreateEach(name, owned, template, ok, Needed(owned, i, n)) == CreateMissing(name, owned, template, ok, i, n)
    decreases n - i
  {
    if i < n {
      if HasIndex(owned, i) {
        assert Needed(owned, i, n) == Needed(owned, i + 1, n);
        CreateListedOrOnTheWay(name, owned, template, ok, i + 1, n);
      } else {
        assert Needed(owned, i, n)[1..] == Needed(owned, i + 1, n);
        if template.Some? {
          var p := NewPod(name, i, template.value);
          NeededBeyond(owned, p, i + 1, n);
          CreateListedOrOnTheWay(name, owned + [p], template, ok, i + 1, n);
        }
      }
    }
  }

  method ListNeeded(pods: seq<Pod>, n: int) returns (need: seq<nat>)
    ensures need == Needed(pods, 0, n)
  {
    var indices: set<nat> := {};
    for i := 0 to |pods|
      invariant forall x: nat :: x in indices <==> HasIndex(pods[..i], x)
    {
      assert pods[..i + 1] == pods[..i] + [pods[i]];
      indices := AddIndex(pods[..i], pods[i], indices);
    }
    assert pods[..|pods|] == pods;
    need := [];
    var i: nat := 0;
    while i < n
      invariant need + Needed(pods, i, n) == Needed(pods, 0, n)
    {
      if i !in indices { need := need + [i]; }
      i := i + 1;
    }
  }

  method AddIndex(pods: seq<Pod>, p: Pod, indices: set<nat>) returns (all: set<nat>)
    requires forall x: nat :: x in indices <==> HasIndex(pods, x)
    ensures forall x: nat :: x in all <==> HasIndex(pods + [p], x)
  {
    all := indices + {p.index};
    forall x: nat
      ensures x in all <==> HasIndex(pods + [p], x)
    {
      assert (pods + [p])[|pods|] == p;
      if x in indices {
        var k :| 0 <= k < |pods| && pods[k].index == x;
        assert (pods + [p])[k].index == x;
      }
      if HasIndex(pods + [p], x) && x != p.index {
        var k :| 0 <= k < |pods + [p]| && (pods + [p])[k].index == x;
        assert pods[k].index == x;
      }
    }
  }

  // ---- The runtime view.

  method ApplyResumingRuntimePhase(s: Status, pods: seq<F.Observed>, now: int) returns (r: Status)
    ensures r == ResumingPhase(s, pods, now)
  {
    r := s;
    var failed, reason, sample := F.SummarizePodFailures(pods);
    if failed > 0 {
      var lead := F.Prevailing(reason, sample);
      var cs := SetConditionInStatus(r.conditions, FailedWanted(ResumeFailedType, pods, lead, true), now);
      cs := SetConditionInStatus(cs, FailedWanted(PodFailedType, pods, lead, false), now);
      r := r.(conditions := cs, phase := Failed);
      return;
    }
    if r.ready > 0 {
      var cs := SetConditionInStatus(r.conditions, Wanted(PodFailedType, FALSE, "", ""), now);
      r := r.(phase := Succeed, conditions := cs);
    }
  }

  method ApplySteadyRuntimePhase(l: Local, s: Status, pods: seq<F.Observed>, now: int) returns (r: Status)
    ensures r == SteadyPhase(l, s, pods, now)
  {
    r := s;
    var failed, reason, sample := F.SummarizePodFailures(pods);
    if failed > 0 {
      if !l.status.phase.Failed? {
        var lead := F.Prevailing(reason, sample);
        var cs := SetConditionInStatus(r.conditions, FailedWanted(PodFailedType, pods, lead, false), now);
        if ResumeInFlight(l) {
          cs := SetConditionInStatus(cs, FailedWanted(ResumeFailedType, pods, lead, true), now);
        }
        r := r.(conditions := cs, phase := Failed);
      }
      return;
    }
    if r.phase.Failed? { return; }
    var cs := SetConditionInStatus(r.conditions, Wanted(PodFailedType, FALSE, "", ""), now);
    r := r.(conditions := cs, phase := if r.ready > 0 then Succeed else Pending);
  }

  method BuildRuntimeView(l: Local, pods: seq<Pod>, now: int) returns (view: Status)
    ensures view == RuntimeView(l, pods, now)
  {
    var placed, ready := CountPods(pods);
    view := l.status.(observed := l.generation, replicas := |pods|, placed := placed, ready := ready);
    if l.status.phase.Resuming? {
      view := ApplyResumingRuntimePhase(view, Failures(pods), now);
    } else if !l.status.phase.Pausing? && !l.status.phase.Paused? {
      view := ApplySteadyRuntimePhase(l, view, Failures(pods), now);
    }
    var cs := ApplyPhaseConditions(view.conditions, view.phase, now);
    view := view.(conditions := cs);
    if !l.status.phase.Resuming? && view.pauseObserved < l.generation {
      view := view.(pauseObserved := l.generation);
    }
  }

  // ---- What a reconcile promises of the stored objects.

  /** Pods and pool go only with a succeeded snapshot; the status stays consistent; a pause
      queued during a resume with a usable snapshot stays queued; pods appear only outside
      Pausing and Paused, never two of one index; Pausing begins only without a
      finished snapshot. */
  ghost predicate KeepsPromises(c: Cluster, d: Cluster) {
    && PodsAreSafe(c, d)
    && (StatusOk(c.status) ==> StatusOk(d.status))
    && (c.status.phase.Resuming? && PauseQueued(c) && GiveUpReason(c).None? ==>
          PauseQueued(d) && !d.status.phase.Pausing? && (!d.status.phase.Resuming? ==> DispatchOf(d) == ToHandlePause))
    && (LifecyclePause.UniqueIndices(c.owned) ==> LifecyclePause.UniqueIndices(d.owned))
    && (LifecyclePause.UniqueIndices(c.owned) && |d.owned| > |c.owned| ==>
          !c.status.phase.Pausing? && !c.status.phase.Paused? && !d.spec.pooled)
    && (!c.status.phase.Pausing? && d.status.phase.Pausing? && d.snapshot.Some? ==>
          !Terminal(d.snapshot.value) && !d.snapshot.value.deleting)
  }

  lemma {:induction false} ReconcileKeepsPromises(c: Cluster, env: Env)
    ensures KeepsPromises(c, Lifecycle.Reconcile(c, env))
  {
    PodsGoOnlyAfterSnapshot(c, env);
    if StatusOk(c.status) {
      StatusStaysConsistent(c, env);
    }
    if c.status.phase.Resuming? && PauseQueued(c) && GiveUpReason(c).None? {
      QueuedPauseSurvives(c, env);
    }
    if LifecyclePause.UniqueIndices(c.owned) {
      LifecyclePause.PodsAppearOnlyWhereMissing(c, env);
    }
    if !c.status.phase.Pausing? && Lifecycle.Reconcile(c, env).status.phase.Pausing? {
      PausingStartsFromUnfinishedSnapshot(c, env);
    }
  }

  // ---- The stored objects and the handlers that change them.

  class Reconciler {
    const name: string
    var generation: int
    var spec: Spec
    var status: Status
    var snapshot: Option<SnapshotObject>
    var nextUid: nat
    var owned: seq<Pod>
    var pool: seq<Pod>

    ghost function State(): Cluster
      reads this
    {
      Cluster(name, generation, spec, status, snapshot, nextUid, owned, pool)
    }

    constructor (c: Cluster)
      ensures State() == c
    {
      name, generation, spec, status := c.name, c.generation, c.spec, c.status;
      snapshot, nextUid, owned, pool := c.snapshot, c.nextUid, c.owned, c.pool;
    }

    method PatchSpec(next: Spec)
      modifies this`spec, this`generation
      ensures State() == WithSpec(old(State()), next)
    {
      if next != spec {
        spec := next;
        generation := generation + 1;
      }
    }

    method AckPauseWithPhase(phase: Phase, now: int, ok: bool)
      modifies this`status
      ensures State() == if ok then Ack(old(State()), phase, now) else old(State())
    {
      if ok {
        var cs := ApplyPhaseConditions(status.conditions, phase, now);
        status := status.(pauseObserved := generation, phase := phase, conditions := cs);
      }
    }

    method SetCondition(w: Wanted, now: int, ok: bool)
      modifies this`status
      ensures State() == if ok then Note(old(State()), w, now) else old(State())
    {
      if ok {
        var cs := WriteCondition(status.conditions, w, now);
        status := status.(conditions := cs);
      }
    }

    method EnsureInternalPauseSnapshot(env: Env, k: nat)
      modifies this`snapshot, this`nextUid
      ensures State() == EnsureSnapshot(old(State()), env, k)
    {
      if !env.tasksStopped || !env.ok(k) { return; }
      snapshot := Some(SnapshotObject(nextUid, NoPhase, false, Q.Snapshot("", [], None), ""));
      nextUid := nextUid + 1;
    }

    method HandlePause(env: Env)
      modifies this
      ensures State() == Lifecycle.HandlePause(old(State()), env)
    {
      if spec.replicas != Some(SUPPORTED_REPLICAS) {
        var phase := status.phase;
        if phase.Unset? { phase := Succeed; }
        AckPauseWithPhase(phase, env.now, env.ok(0));
        if !env.ok(0) { return; }
        SetCondition(Wanted(PauseFailedType, TRUE, "UnsupportedReplicas", "unsupported replicas"), env.now, env.ok(1));
        return;
      }
      if snapshot.Some? && snapshot.value.deleting { return; }
      if snapshot.Some? && Terminal(snapshot.value) {
        if env.ok(0) { snapshot := Some(snapshot.value.(deleting := true)); }
        return;
      }
      var missing := snapshot.None?;
      SetCondition(Wanted(PauseFailedType, FALSE, "", ""), env.now, env.ok(0));
      AckPauseWithPhase(Pausing, env.now, env.ok(1));
      if !env.ok(1) { return; }
      if missing { EnsureInternalPauseSnapshot(env, 2); }
    }

    method HandleResume(env: Env)
      modifies this`status
      ensures State() == Lifecycle.HandleResume(old(State()), env)
    {
      SetCondition(Wanted(ResumeFailedType, FALSE, "", ""), env.now, env.ok(0));
      AckPauseWithPhase(Resuming, env.now, env.ok(1));
    }

    /** Deletes the owned pods one by one; false at the first delete that fails. */
    method DeletePods(env: Env) returns (done: bool)
      modifies this`owned
      ensures var k := DeletedUpTo(|old(owned)|, env.ok, 0);
        owned == MarkDeleting(old(owned), k) && done == (k == |old(owned)|)
    {
      ghost var before := owned;
      var i := 0;
      while i < |owned|
        invariant i <= |owned| == |before|
        invariant DeletedUpTo(|before|, env.ok, 0) == DeletedUpTo(|before|, env.ok, i)
        invariant owned == MarkDeleting(before, i)
      {
        if !env.ok(1 + i) { return false; }
        MarkOneMore(before, i);
        owned := owned[i := owned[i].(deleting := true)];
        i := i + 1;
      }
      return true;
    }

    method SetPaused(now: int)
      modifies this`status
      ensures State() == MarkPaused(old(State()), now)
    {
      var cs := ApplyPhaseConditions(status.conditions, Paused, now);
      if spec.pause == Some(true) {
        status := status.(pauseObserved := generation);
      }
      status := status.(phase := Paused, conditions := cs);
    }

    method CompletePause(env: Env)
      modifies this
      ensures State() == Lifecycle.CompletePause(old(State()), env)
    {
      if spec.pooled {
        if pool == [] || !env.ok(0) { return; }
        PatchSpec(spec.(template := Some(pool[0].source), pooled := false));
        if env.ok(1) { SetPaused(env.now); }
      } else {
        var n := |owned|;
        var done := DeletePods(env);
        if done && env.ok(1 + n) { SetPaused(env.now); }
      }
    }

    method SyncPauseOrClear(env: Env)
      modifies this
      ensures State() == Lifecycle.SyncPauseOrClear(old(State()), env)
    {
      if snapshot.None? {
        EnsureInternalPauseSnapshot(env, 0);
      } else if snapshot.value.phase.Done? {
        CompletePause(env);
      } else if snapshot.value.phase.Broken? {
        var phase, reason := Succeed, "SnapshotFailed";
        if (if spec.pooled then pool else owned) == [] { phase, reason := Failed, "PodNotFound"; }
        AckPauseWithPhase(phase, env.now, env.ok(0));
        if !env.ok(0) { return; }
        SetCondition(Wanted(PauseFailedType, TRUE, reason, snapshot.value.failure), env.now, env.ok(1));
      }
    }

    /** Rolls back to Paused and says why. */
    method GiveUp(reason: string, env: Env) returns (l: Local)
      modifies this`status
      ensures var p := AckBoth(Progress(old(State()), Fresh(old(State())), false), Paused, env.now, env.ok(0));
        var q := NoteBoth(p, Wanted(ResumeFailedType, TRUE, reason, reason), env.now, env.ok(1));
        State() == q.c && l == q.l
    {
      l := Local(generation, spec, status, env.ok(0) || env.ok(1));
      AckPauseWithPhase(Paused, env.now, env.ok(0));
      if env.ok(0) { l := l.(status := status); }
      SetCondition(Wanted(ResumeFailedType, TRUE, reason, reason), env.now, env.ok(1));
    }

    /** The snapshot is gone but a ready pod is there: the resume counts as done. */
    method FinishResume(env: Env) returns (l: Local)
      requires snapshot.None? && HasReadyResumePod(State()) && status.phase.Resuming?
      modifies this`status
      ensures var p := Lifecycle.ContinueResume(old(State()), env); State() == p.c && l == p.l && !p.err
    {
      l := Local(generation, spec, status, env.ok(0) || env.ok(1) || env.ok(2));
      AckPauseWithPhase(Succeed, env.now, env.ok(0));
      if env.ok(0) { l := l.(status := status); }
      SetCondition(Wanted(ResumeFailedType, FALSE, "", ""), env.now, env.ok(1));
      SetCondition(Wanted(PodFailedType, FALSE, "", ""), env.now, env.ok(2));
    }

    method ContinueResume(env: Env) returns (l: Local, err: bool)
      requires status.phase.Resuming?
      modifies this
      ensures var p := Lifecycle.ContinueResume(old(State()), env); State() == p.c && l == p.l && err == p.err
    {
      err := false;
      l := Local(generation, spec, status, false);
      if snapshot.None? {
        var ready := FindReady(owned);
        if !ready && spec.pooled { ready := FindReady(pool); }
        if ready {
          l := FinishResume(env);
        } else {
          l := GiveUp("SnapshotNotFound", env);
        }
        return;
      }
      var content := snapshot.value.content;
      if !snapshot.value.phase.Done? {
        l := GiveUp("SnapshotNotReady", env);
        return;
      }
      var images := Q.CollectImages(content);
      if images.None? {
        l := GiveUp("InvalidSnapshotImage", env);
        return;
      }
      if content.format == Q.QEMU && (spec.template.None? || Q.Inject(spec.template.value, content).None?) {
        l := GiveUp("InvalidQEMURestore", env);
        return;
      }
      var next := spec.(pooled := false);
      if spec.template.Some? {
        var t := Q.RestoreTemplate(spec.template.value, content, images.value, env.secret);
        if t.None? { return l, true; }
        next := next.(template := Some(t.value));
      }
      if !env.ok(0) { return l, true; }
      PatchSpec(next);
      l := l.(generation := generation, spec := spec);
    }

    method ScaleBatchSandbox(l: Local, env: Env) returns (done: bool)
      requires l.spec.replicas.Some?
      modifies this`owned
      ensures Scaled(owned, done) == CreateMissing(name, old(owned), l.spec.template, env.ok, 0, l.spec.replicas.value)
    {
      var need := ListNeeded(owned, l.spec.replicas.value);
      CreateListedOrOnTheWay(name, owned, l.spec.template, env.ok, 0, l.spec.replicas.value);
      ghost var goal := CreateEach(name, owned, l.spec.template, env.ok, need);
      var i := 0;
      while i < |need|
        invariant i <= |need|
        invariant CreateEach(name, owned, l.spec.template, env.ok, need[i..]) == goal
      {
        assert need[i..][1..] == need[i + 1..];
        if l.spec.template.None? || !env.ok(POD_CREATE + need[i]) { return false; }
        owned := owned + [NewPod(name, need[i], l.spec.template.value)];
        i := i + 1;
      }
      return true;
    }

    method DeleteInternalPauseSnapshot(env: Env)
      modifies this`snapshot
      ensures State() == DropSnapshot(old(State()), env)
    {
      if snapshot.Some? && snapshot.value.phase.Done? && env.ok(SNAPSHOT_DELETE) {
        snapshot := Some(snapshot.value.(deleting := true));
      }
    }

    method PersistRuntimeView(l: Local, view: Status, env: Env)
      modifies this`status, this`snapshot
      ensures State() == Persist(old(State()), l, view, env)
    {
      if view != l.status {
        if InitiallyUnallocated(l, view) || l.wrote || !env.ok(STATUS_PATCH) { return; }
        var cs := MergeLifecycleConditions(view.conditions, l.status.conditions);
        status := view.(conditions := cs);
      }
      if view.phase.Succeed? { DeleteInternalPauseSnapshot(env); }
    }

    method NormalFlow(l: Local, env: Env)
      modifies this
      ensures State() == Lifecycle.NormalFlow(old(State()), l, env)
    {
      var pods := if l.spec.pooled then pool else owned;
      if !l.spec.pooled && !l.status.phase.Paused? && env.scaleSettled {
        if l.spec.replicas.None? { return; }
        var done := ScaleBatchSandbox(l, env);
        if !done { return; }
      }
      var view := BuildRuntimeView(l, pods, env.now);
      PersistRuntimeView(l, view, env);
    }

    /** One reconcile: in-progress phases first, then unacknowledged requests, then the rest. */
    method Reconcile(env: Env)
      modifies this
      ensures State() == Lifecycle.Reconcile(old(State()), env)
      ensures KeepsPromises(old(State()), State())
    {
      Dispatch(env);
      ReconcileKeepsPromises(old(State()), env);
    }

    method Dispatch(env: Env)
      modifies this
      ensures State() == Lifecycle.Reconcile(old(State()), env)
    {
      if status.phase.Resuming? {
        var l, err := ContinueResume(env);
        if !err { NormalFlow(l, env); }
      } else if status.phase.Pausing? {
        SyncPauseOrClear(env);
      } else if generation > status.pauseObserved && spec.pause.Some? {
        if spec.pause.value { HandlePause(env); } else { HandleResume(env); }
      } else {
        NormalFlow(Local(generation, spec, status, false), env);
      }
    }
  }

  lemma {:induction false} MarkOneMore(pods: seq<Pod>, k: nat)
    requires k < |pods|
    ensures |MarkDeleting(pods, k)| == |pods|
    ensures MarkDeleting(pods, k)[k := MarkDeleting(pods, k)[k].(deleting := true)] == MarkDeleting(pods, k + 1)
  {
    if k == 0 {
    } else {
      MarkOneMore(pods[1..], k - 1);
    }
  }
}
