/** What the pause and resume reconciler guarantees. */
module LifecycleProofs {
  import opened Optional
  import opened StatusConditions
  import opened Lifecycle
  import F = PodFailures
  import Q = QemuRestore

  // ---- Every written status is consistent.

  ghost predicate StatusOk(s: Status) { Consistent(s.phase, s.conditions) }

  lemma {:induction false} AckedOk(s: Status, generation: int, phase: Phase, now: int)
    requires StatusOk(s) && !phase.Unset?
    ensures StatusOk(Acked(s, generation, phase, now))
  {
    ApplyPhaseMakesConsistent(s.conditions, phase, now);
  }

  lemma {:induction false} NoteOk(c: Cluster, w: Wanted, now: int)
    requires StatusOk(c.status) && w.kind !in {ReadyType, ProgressingType, PausedType}
    ensures StatusOk(Note(c, w, now).status)
  {
    WriteKeepsConsistent(c.status.phase, c.status.conditions, w, now);
  }

  lemma {:induction false} ResumingPhaseUnique(s: Status, pods: seq<F.Observed>, now: int)
    requires UniqueKinds(s.conditions)
    ensures UniqueKinds(ResumingPhase(s, pods, now).conditions)
  {
    var lead := F.Prevails(pods);
    if lead.Some? {
      var w1, w2 := FailedWanted(ResumeFailedType, pods, lead.value, true),
        FailedWanted(PodFailedType, pods, lead.value, false);
      SetUnique(s.conditions, w1, now);
      SetUnique(Set(s.conditions, w1, now), w2, now);
    } else {
      SetUnique(s.conditions, Wanted(PodFailedType, FALSE, "", ""), now);
    }
  }

  lemma {:induction false} SteadyPhaseUnique(l: Local, s: Status, pods: seq<F.Observed>, now: int)
    requires UniqueKinds(s.conditions)
    ensures UniqueKinds(SteadyPhase(l, s, pods, now).conditions)
    ensures s.phase == l.status.phase ==> !SteadyPhase(l, s, pods, now).phase.Unset?
  {
    var lead := F.Prevails(pods);
    if lead.Some? {
      var w1, w2 := FailedWanted(PodFailedType, pods, lead.value, false),
        FailedWanted(ResumeFailedType, pods, lead.value, true);
      SetUnique(s.conditions, w1, now);
      SetUnique(Set(s.conditions, w1, now), w2, now);
    } else {
      SetUnique(s.conditions, Wanted(PodFailedType, FALSE, "", ""), now);
    }
  }

  lemma {:induction false} RuntimeViewOk(l: Local, pods: seq<Pod>, now: int)
    requires StatusOk(l.status)
    ensures StatusOk(RuntimeView(l, pods, now))
  {
    var s := l.status.(
      observed := l.generation, replicas := |pods|, placed := CountPlaced(pods), ready := CountReady(pods));
    ResumingPhaseUnique(s, Failures(pods), now);
    SteadyPhaseUnique(l, s, Failures(pods), now);
    var t := match l.status.phase
      case Pausing => s
      case Paused => s
      case Resuming => ResumingPhase(s, Failures(pods), now)
      case _ => SteadyPhase(l, s, Failures(pods), now);
    ApplyPhaseMakesConsistent(t.conditions, t.phase, now);
  }

  lemma {:induction false} NormalFlowOk(c: Cluster, l: Local, env: Env)
    requires StatusOk(c.status) && StatusOk(l.status)
    ensures StatusOk(NormalFlow(c, l, env).status)
  {
    var view := RuntimeView(l, Listed(c, l.spec.pooled), env.now);
    RuntimeViewOk(l, Listed(c, l.spec.pooled), env.now);
    MergeKeepsLifecycle(view.phase, view.conditions, l.status.conditions);
  }

  lemma {:induction false} AckBothOk(p: Progress, phase: Phase, now: int, ok: bool)
    requires StatusOk(p.c.status) && StatusOk(p.l.status) && !phase.Unset?
    ensures StatusOk(AckBoth(p, phase, now, ok).c.status) && StatusOk(AckBoth(p, phase, now, ok).l.status)
  {
    AckedOk(p.c.status, p.c.generation, phase, now);
    AckedOk(p.l.status, p.l.generation, phase, now);
  }

  lemma {:induction false} NoteBothOk(p: Progress, w: Wanted, now: int, ok: bool)
    requires StatusOk(p.c.status) && StatusOk(p.l.status) && w.kind !in {ReadyType, ProgressingType, PausedType}
    ensures StatusOk(NoteBoth(p, w, now, ok).c.status) && StatusOk(NoteBoth(p, w, now, ok).l.status)
  {
    NoteOk(p.c, w, now);
  }

  lemma {:induction false} ContinueResumeOk(c: Cluster, env: Env)
    requires StatusOk(c.status)
    ensures StatusOk(ContinueResume(c, env).c.status) && StatusOk(ContinueResume(c, env).l.status)
  {
    var p := Progress(c, Fresh(c), false);
    var reason := GiveUpReason(c);
    if c.snapshot.None? && HasReadyResumePod(c) {
      var p1 := AckBoth(p, Succeed, env.now, env.ok(0));
      AckBothOk(p, Succeed, env.now, env.ok(0));
      var p2 := NoteBoth(p1, Wanted(ResumeFailedType, FALSE, "", ""), env.now, env.ok(1));
      NoteBothOk(p1, Wanted(ResumeFailedType, FALSE, "", ""), env.now, env.ok(1));
      NoteBothOk(p2, Wanted(PodFailedType, FALSE, "", ""), env.now, env.ok(2));
    } else if reason.Some? {
      AckBothOk(p, Paused, env.now, env.ok(0));
      var p1 := AckBoth(p, Paused, env.now, env.ok(0));
      NoteBothOk(p1, Wanted(ResumeFailedType, TRUE, reason.value, reason.value), env.now, env.ok(1));
    }
  }

  lemma {:induction false} HandlePauseOk(c: Cluster, env: Env)
    requires StatusOk(c.status)
    ensures StatusOk(HandlePause(c, env).status)
  {
    if c.spec.replicas != Some(SUPPORTED_REPLICAS) {
      var phase := if c.status.phase.Unset? then Succeed else c.status.phase;
      AckedOk(c.status, c.generation, phase, env.now);
      var w := Wanted(PauseFailedType, TRUE, "UnsupportedReplicas", "unsupported replicas");
      NoteOk(Ack(c, phase, env.now), w, env.now);
    } else {
      var w := Wanted(PauseFailedType, FALSE, "", "");
      var c1 := if env.ok(0) then Note(c, w, env.now) else c;
      NoteOk(c, w, env.now);
      AckedOk(c1.status, c1.generation, Pausing, env.now);
    }
  }

  lemma {:induction false} HandleResumeOk(c: Cluster, env: Env)
    requires StatusOk(c.status)
    ensures StatusOk(HandleResume(c, env).status)
  {
    var w := Wanted(ResumeFailedType, FALSE, "", "");
    var c1 := if env.ok(0) then Note(c, w, env.now) else c;
    NoteOk(c, w, env.now);
    AckedOk(c1.status, c1.generation, Resuming, env.now);
  }

  lemma {:induction false} CompletePauseOk(c: Cluster, env: Env)
    requires StatusOk(c.status)
    ensures StatusOk(CompletePause(c, env).status)
  {
    ApplyPhaseMakesConsistent(c.status.conditions, Paused, env.now);
  }

  lemma {:induction false} SyncOk(c: Cluster, env: Env)
    requires StatusOk(c.status)
    ensures StatusOk(SyncPauseOrClear(c, env).status)
  {
    if SnapshotDone(c) {
      CompletePauseOk(c, env);
    } else if c.snapshot.Some? && c.snapshot.value.phase.Broken? {
      var lost := Listed(c, c.spec.pooled) == [];
      var phase := if lost then Failed else Succeed;
      AckedOk(c.status, c.generation, phase, env.now);
      var reason := if lost then "PodNotFound" else "SnapshotFailed";
      NoteOk(Ack(c, phase, env.now), Wanted(PauseFailedType, TRUE, reason, c.snapshot.value.failure), env.now);
    }
  }

  /** Whatever succeeds or fails, a reconcile leaves at most one condition per type, Ready
      exactly in Succeed, Progressing exactly in Pending, Pausing and Resuming, and Paused
      exactly in Paused. */
  lemma {:induction false} StatusStaysConsistent(c: Cluster, env: Env)
    requires StatusOk(c.status)
    ensures StatusOk(Reconcile(c, env).status)
  {
    match DispatchOf(c)
    case ToContinueResume =>
      ContinueResumeOk(c, env);
      var p := ContinueResume(c, env);
      NormalFlowOk(p.c, p.l, env);
    case ToSyncPause => SyncOk(c, env);
    case ToHandlePause => HandlePauseOk(c, env);
    case ToHandleResume => HandleResumeOk(c, env);
    case ToNormalFlow => NormalFlowOk(c, Fresh(c), env);
  }

  // ---- What each part of a reconcile can change.

  lemma {:induction false} CreateMissingExtends(
      name: string, owned: seq<Pod>, template: Option<Q.Template>, ok: nat -> bool, i: nat, n: int)
    ensures owned <= CreateMissing(name, owned, template, ok, i, n).owned
    decreases n - i
  {
    if i < n {
      if HasIndex(owned, i) {
        CreateMissingExtends(name, owned, template, ok, i + 1, n);
      } else if template.Some? && ok(POD_CREATE + i) {
        CreateMissingExtends(name, owned + [NewPod(name, i, template.value)], template, ok, i + 1, n);
      }
    }
  }

  /** The snapshot the sandbox may rely on has succeeded. */
  predicate SnapshotDone(c: Cluster) { c.snapshot.Some? && c.snapshot.value.phase.Done? }

  /** The runtime view never starts a pause or a resume by itself, and acknowledges the
      generation exactly outside Resuming. */
  lemma {:induction false} RuntimeViewPhase(l: Local, pods: seq<Pod>, now: int)
    ensures var v := RuntimeView(l, pods, now);
      && (v.phase.Pausing? <==> l.status.phase.Pausing?)
      && (v.phase.Paused? <==> l.status.phase.Paused?)
      && (v.phase.Resuming? ==> l.status.phase.Resuming?)
      && v.pauseObserved ==
           (if !l.status.phase.Resuming? && l.status.pauseObserved < l.generation then l.generation
            else l.status.pauseObserved)
  {
  }

  /** The normal flow creates pods, writes the view, and lets a used snapshot go. */
  lemma {:induction false} NormalFlowChanges(c: Cluster, l: Local, env: Env)
    ensures var d, v := NormalFlow(c, l, env), RuntimeView(l, Listed(c, l.spec.pooled), env.now);
      && d.spec == c.spec && d.generation == c.generation && d.pool == c.pool && c.owned <= d.owned
      && (d.status == c.status ||
            (!l.wrote && d.status == v.(conditions := MergeLifecycle(v.conditions, l.status.conditions))))
      && (d.snapshot == c.snapshot || (SnapshotDone(c) && v.phase.Succeed? && d == DeleteSnapshot(d)))
  {
    if l.spec.replicas.Some? {
      CreateMissingExtends(c.name, c.owned, l.spec.template, env.ok, 0, l.spec.replicas.value);
    }
  }

  lemma {:induction false} ContinueResumeChanges(c: Cluster, env: Env)
    requires c.status.phase.Resuming?
    ensures var p := ContinueResume(c, env);
      && p.c.owned == c.owned && p.c.pool == c.pool && p.c.snapshot == c.snapshot && p.c.spec.pause == c.spec.pause
      && !p.c.status.phase.Pausing? && !p.l.status.phase.Pausing?
      && c.generation <= p.c.generation <= c.generation + 1
      && (p.c.spec != c.spec ==> GiveUpReason(c).None? && !p.c.spec.pooled)
      && (GiveUpReason(c).None? ==> p.c.status == p.l.status == c.status && !p.l.wrote)
  {
  }

  // ---- Pausing.

  /** The phase becomes Pausing only while no finished or vanishing snapshot is around. */
  lemma {:induction false} PausingStartsFromUnfinishedSnapshot(c: Cluster, env: Env)
    requires !c.status.phase.Pausing? && Reconcile(c, env).status.phase.Pausing?
    ensures var d := Reconcile(c, env);
      && DispatchOf(c) == ToHandlePause
      && (d.snapshot.Some? ==> !Terminal(d.snapshot.value) && !d.snapshot.value.deleting)
      && d.status.pauseObserved == d.generation
  {
    match DispatchOf(c)
    case ToContinueResume =>
      var p := ContinueResume(c, env);
      ContinueResumeChanges(c, env);
      NormalFlowChanges(p.c, p.l, env);
      RuntimeViewPhase(p.l, Listed(p.c, p.l.spec.pooled), env.now);
    case ToNormalFlow =>
      NormalFlowChanges(c, Fresh(c), env);
      RuntimeViewPhase(Fresh(c), Listed(c, c.spec.pooled), env.now);
    case _ =>
  }

  lemma {:induction false} MarkDeletingMeaning(pods: seq<Pod>, k: nat)
    ensures |MarkDeleting(pods, k)| == |pods|
    ensures forall i :: 0 <= i < |pods| ==>
      MarkDeleting(pods, k)[i] == if i < k then pods[i].(deleting := true) else pods[i]
  {
    if pods != [] && k > 0 {
      MarkDeletingMeaning(pods[1..], k - 1);
      assert forall i :: 1 <= i < |pods| ==> pods[i] == pods[1..][i - 1];
    }
  }

  /** What may happen to pods and to the pool reference: nothing, unless the snapshot has
      succeeded; then, while Pausing, pods may be marked as deleting. */
  ghost predicate PodsAreSafe(c: Cluster, d: Cluster) {
    && |d.owned| >= |c.owned|
    && (forall i :: 0 <= i < |c.owned| && d.owned[i] != c.owned[i] ==>
          SnapshotDone(c) && c.status.phase.Pausing? && d.owned[i] == c.owned[i].(deleting := true))
    && (d.spec.pooled != c.spec.pooled ==>
          SnapshotDone(c) && !d.spec.pooled && (c.status.phase.Pausing? || c.status.phase.Resuming?))
    && (c.status.phase.Pausing? && d.status.phase.Paused? ==> SnapshotDone(c))
  }

  lemma {:induction false} CompletePauseIsSafe(c: Cluster, env: Env)
    requires SnapshotDone(c) && c.status.phase.Pausing?
    ensures PodsAreSafe(c, CompletePause(c, env))
  {
    MarkDeletingMeaning(c.owned, DeletedUpTo(|c.owned|, env.ok, 0));
  }

  /** A reconcile deletes a pod or detaches from the pool only with a succeeded snapshot,
      never drops a pod from the list, and reaches Paused only from a succeeded snapshot. */
  lemma {:induction false} PodsGoOnlyAfterSnapshot(c: Cluster, env: Env)
    ensures PodsAreSafe(c, Reconcile(c, env))
  {
    match DispatchOf(c)
    case ToContinueResume =>
      var p := ContinueResume(c, env);
      ContinueResumeChanges(c, env);
      NormalFlowChanges(p.c, p.l, env);
    case ToSyncPause =>
      if SnapshotDone(c) {
        CompletePauseIsSafe(c, env);
      }
    case ToNormalFlow => NormalFlowChanges(c, Fresh(c), env);
    case _ =>
  }

  // ---- An interrupted completePause.

  ghost predicate AllOk(env: Env) { forall k :: env.ok(k) }

  lemma {:induction false} DeletesAll(n: nat, ok: nat -> bool, i: nat)
    requires i <= n && forall k :: ok(k)
    ensures DeletedUpTo(n, ok, i) == n
    decreases n - i
  {
    if i < n {
      DeletesAll(n, ok, i + 1);
    }
  }

  lemma {:induction false} MarkDeletingTwice(pods: seq<Pod>, k: nat)
    requires k <= |pods|
    ensures MarkDeleting(MarkDeleting(pods, k), |pods|) == MarkDeleting(pods, |pods|)
  {
    MarkDeletingMeaning(pods, k);
    MarkDeletingMeaning(MarkDeleting(pods, k), |pods|);
    MarkDeletingMeaning(pods, |pods|);
  }

  lemma {:induction false} DeletedUpToBounded(n: nat, ok: nat -> bool, i: nat)
    requires i <= n
    ensures i <= DeletedUpTo(n, ok, i) <= n
    decreases n - i
  {
    if i < n && ok(1 + i) {
      DeletedUpToBounded(n, ok, i + 1);
    }
  }

  lemma {:induction false} MarkPausedTwice(c: Cluster, now: int, later: int)
    ensures MarkPaused(MarkPaused(c, now), later) == MarkPaused(c, now)
  {
    ApplyPhaseTwice(c.status.conditions, Paused, now, later);
  }

  /** Marking twice what was already marked changes nothing, at any time. */
  lemma {:induction false} MarkPausedInForce(c: Cluster, now: int, later: int)
    requires MarkPaused(c, now).status == c.status
    ensures MarkPaused(c, later) == c
  {
    MarkPausedTwice(c, now, later);
  }

  /** No pod of its own is left running beside the pool. */
  ghost predicate NoStrayPods(c: Cluster) {
    c.spec.pooled && c.pool != [] ==> forall i :: 0 <= i < |c.owned| ==> c.owned[i].deleting
  }

  lemma {:induction false} AlreadyDeleting(pods: seq<Pod>)
    requires forall i :: 0 <= i < |pods| ==> pods[i].deleting
    ensures MarkDeleting(pods, |pods|) == pods
  {
    MarkDeletingMeaning(pods, |pods|);
  }

  /** An uninterrupted run instead of one cut off and repeated: the conditions carry the
      time of the pass that first wrote the status. */
  ghost function Uninterrupted(c: Cluster, cut: Env, full: Env): Cluster {
    CompletePause(c, full.(now := if CompletePause(c, cut).status == c.status then full.now else cut.now))
  }

  lemma {:induction false} RerunAfterOwnPods(c: Cluster, cut: Env, full: Env)
    requires AllOk(full) && !c.spec.pooled
    ensures CompletePause(CompletePause(c, cut), full) == Uninterrupted(c, cut, full)
  {
    var n, k := |c.owned|, DeletedUpTo(|c.owned|, cut.ok, 0);
    DeletedUpToBounded(n, cut.ok, 0);
    DeletesAll(n, full.ok, 0);
    MarkDeletingTwice(c.owned, k);
    MarkDeletingMeaning(c.owned, k);
    var c1, all := c.(owned := MarkDeleting(c.owned, k)), c.(owned := MarkDeleting(c.owned, n));
    assert forall e: Env :: AllOk(e) ==> CompletePause(c, e) == MarkPaused(all, e.now) by {
      OwnPodsAllDeleted(c);
    }
    if CompletePause(c, cut) == c1 {
      assert CompletePause(c1, full) == MarkPaused(all, full.now);
    } else {
      assert CompletePause(c, cut) == MarkPaused(all, cut.now);
      RerunAfterPaused(c, all, cut, full);
    }
  }

  lemma {:induction false} OwnPodsAllDeleted(c: Cluster)
    requires !c.spec.pooled
    ensures forall e: Env :: AllOk(e) ==>
      CompletePause(c, e) == MarkPaused(c.(owned := MarkDeleting(c.owned, |c.owned|)), e.now)
  {
    forall e: Env | AllOk(e)
      ensures CompletePause(c, e) == MarkPaused(c.(owned := MarkDeleting(c.owned, |c.owned|)), e.now)
    {
      DeletesAll(|c.owned|, e.ok, 0);
    }
  }

  /** The first pass got as far as the status. */
  lemma {:induction false} RerunAfterPaused(c: Cluster, all: Cluster, cut: Env, full: Env)
    requires AllOk(full) && !c.spec.pooled && all == c.(owned := MarkDeleting(c.owned, |c.owned|))
    requires CompletePause(c, cut) == MarkPaused(all, cut.now)
    ensures CompletePause(CompletePause(c, cut), full) == Uninterrupted(c, cut, full)
  {
    var d := MarkPaused(all, cut.now);
    OwnPodsAllDeleted(c);
    OwnPodsAllDeleted(d);
    MarkDeletingMeaning(c.owned, |c.owned|);
    MarkDeletingTwice(c.owned, |c.owned|);
    assert d.(owned := MarkDeleting(d.owned, |d.owned|)) == d;
    MarkPausedTwice(all, cut.now, full.now);
    if d.status == c.status {
      MarkPausedInForce(all, cut.now, full.now);
    }
  }

  lemma {:induction false} RerunAfterDetach(c: Cluster, cut: Env, full: Env)
    requires AllOk(full) && c.spec.pooled && NoStrayPods(c)
    ensures CompletePause(CompletePause(c, cut), full) == Uninterrupted(c, cut, full)
  {
    if c.pool != [] && cut.ok(0) {
      var c1 := WithSpec(c, c.spec.(template := Some(c.pool[0].source), pooled := false));
      DeletesAll(|c.owned|, full.ok, 0);
      AlreadyDeleting(c.owned);
      MarkPausedTwice(c1, cut.now, full.now);
      if MarkPaused(c1, cut.now).status == c1.status {
        MarkPausedInForce(c1, cut.now, full.now);
      }
    }
  }

  /** Interrupted after any of its writes and run again at any time, completePause ends
      where an uninterrupted run ends, if and only if a pooled sandbox has no running pods
      of its own. */
  lemma {:induction false} CompletePauseRerunsCleanlyIff(c: Cluster, full: Env)
    requires AllOk(full)
    ensures NoStrayPods(c) <==>
      forall cut: Env :: CompletePause(CompletePause(c, cut), full) == Uninterrupted(c, cut, full)
  {
    if NoStrayPods(c) {
      forall cut: Env
        ensures CompletePause(CompletePause(c, cut), full) == Uninterrupted(c, cut, full)
      {
        if c.spec.pooled { RerunAfterDetach(c, cut, full); } else { RerunAfterOwnPods(c, cut, full); }
      }
    } else {
      var cut := full.(ok := k => k == 0);
      var c1 := CompletePause(c, cut);
      var i :| 0 <= i < |c.owned| && !c.owned[i].deleting;
      DeletesAll(|c.owned|, full.ok, 0);
      MarkDeletingMeaning(c.owned, |c.owned|);
      assert CompletePause(c1, full).owned[i].deleting;
      assert Uninterrupted(c, cut, full).owned[i] == c.owned[i];
      assert CompletePause(c1, full) != Uninterrupted(c, cut, full);
    }
  }
}
