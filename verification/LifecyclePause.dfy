/** Whole pauses: which snapshot completes one, and what other reconciles leave alone. */
module LifecyclePause {
  import opened Optional
  import opened StatusConditions
  import opened Lifecycle
  import opened LifecycleProofs
  import Q = QemuRestore

  // ---- The snapshot that completes a pause.

  /** Snapshot identities are handed out in order. */
  predicate UidsInOrder(c: Cluster) { c.snapshot.Some? ==> c.snapshot.value.uid < c.nextUid }

  /** What the outside does between reconciles: it moves an unfinished snapshot along, lets
      snapshots go, and changes spec and pods freely. Only the reconciler makes snapshots. */
  ghost predicate MayFollow(c: Cluster, d: Cluster) {
    && d.status == c.status && d.nextUid == c.nextUid
    && (d.snapshot.Some? ==>
          && c.snapshot.Some? && d.snapshot.value.uid == c.snapshot.value.uid
          && (Terminal(c.snapshot.value) ==> d.snapshot.value.phase == c.snapshot.value.phase))
  }

  /** The snapshot at hand was made after the pause began, or was not finished back then. */
  ghost predicate BelongsToPause(begun: Cluster, c: Cluster) {
    c.snapshot.Some? ==>
      || c.snapshot.value.uid >= begun.nextUid
      || (begun.snapshot.Some? && begun.snapshot.value.uid == c.snapshot.value.uid && !Terminal(begun.snapshot.value))
  }

  /** The reconciles of one pause: the phase is Pausing before each of them. */
  ghost predicate PausingRun(begun: Cluster, states: seq<Cluster>, envs: seq<Env>) {
    && |states| == |envs| + 1 && MayFollow(begun, states[0])
    && (forall i :: 0 <= i < |states| ==> states[i].status.phase.Pausing?)
    && (forall i :: 0 <= i < |envs| ==> MayFollow(Reconcile(states[i], envs[i]), states[i + 1]))
  }

  lemma {:induction false} SnapshotBelongsToPause(begun: Cluster, states: seq<Cluster>, envs: seq<Env>, n: nat)
    requires PausingRun(begun, states, envs) && n < |states|
    requires begun.snapshot.Some? ==> !Terminal(begun.snapshot.value)
    ensures BelongsToPause(begun, states[n]) && begun.nextUid <= states[n].nextUid
  {
    if n == 0 {
    } else {
      SnapshotBelongsToPause(begun, states, envs, n - 1);
      assert MayFollow(Reconcile(states[n - 1], envs[n - 1]), states[n]);
    }
  }

  /** A reconcile takes the runtime away: it deletes a pod, detaches from the pool, or
      declares the sandbox Paused. */
  ghost predicate TakesRuntime(c: Cluster, d: Cluster) {
    || d.status.phase.Paused?
    || d.spec.pooled != c.spec.pooled
    || exists i :: 0 <= i < |c.owned| && |c.owned| <= |d.owned| && d.owned[i] != c.owned[i]
  }

  /** In every pause, whatever fails and however long it takes, the runtime is taken away
      only with a succeeded snapshot that is not one left over from before: it was either
      made after the phase became Pausing or unfinished at that time. */
  lemma {:induction false} PauseCompletedByOwnSnapshot(
      before: Cluster, first: Env, states: seq<Cluster>, envs: seq<Env>, env: Env)
    requires UidsInOrder(before) && !before.status.phase.Pausing?
    requires Reconcile(before, first).status.phase.Pausing?
    requires PausingRun(Reconcile(before, first), states, envs)
    ensures var last := states[|envs|];
      TakesRuntime(last, Reconcile(last, env)) ==>
        SnapshotDone(last) && BelongsToPause(Reconcile(before, first), last)
    ensures UidsInOrder(Reconcile(before, first))
  {
    var begun := Reconcile(before, first);
    PausingStartsFromUnfinishedSnapshot(before, first);
    SnapshotBelongsToPause(begun, states, envs, |envs|);
    PodsGoOnlyAfterSnapshot(states[|envs|], env);
  }

  // ---- Pods.

  /** No two pods of the sandbox have the same index. */
  ghost predicate UniqueIndices(pods: seq<Pod>) {
    forall i, j :: 0 <= i < j < |pods| ==> pods[i].index != pods[j].index
  }

  lemma {:induction false} AddedIndex(owned: seq<Pod>, p: Pod, j: nat)
    requires HasIndex(owned, j) || j == p.index
    ensures HasIndex(owned + [p], j)
  {
    if HasIndex(owned, j) {
      var k :| 0 <= k < |owned| && owned[k].index == j;
      assert (owned + [p])[k].index == j;
    } else {
      assert (owned + [p])[|owned|].index == j;
    }
  }

  /** Scaling creates each missing index once and nothing else; if it gets through, every
      index below the replica count is there. */
  lemma {:induction false} ScalingFillsIn(
      name: string, owned: seq<Pod>, template: Option<Q.Template>, ok: nat -> bool, i: nat, n: int)
    requires UniqueIndices(owned) && forall j: nat :: j < i && j < n ==> HasIndex(owned, j)
    ensures var r := CreateMissing(name, owned, template, ok, i, n);
      && owned <= r.owned && UniqueIndices(r.owned)
      && (r.ok ==> forall j: nat :: j < n ==> HasIndex(r.owned, j))
      && (forall k :: |owned| <= k < |r.owned| ==> i <= r.owned[k].index < n && !HasIndex(owned, r.owned[k].index))
    decreases n - i
  {
    if i < n {
      if HasIndex(owned, i) {
        ScalingFillsIn(name, owned, template, ok, i + 1, n);
      } else if template.Some? && ok(POD_CREATE + i) {
        var p := NewPod(name, i, template.value);
        forall j: nat | j < i + 1 && j < n
          ensures HasIndex(owned + [p], j)
        {
          AddedIndex(owned, p, j);
        }
        ScalingFillsIn(name, owned + [p], template, ok, i + 1, n);
      }
    }
  }

  /** No reconcile gives a sandbox two pods with one index, and none creates a pod while the
      sandbox is pausing, paused or bound to a pool it keeps. */
  lemma {:induction false} PodsAppearOnlyWhereMissing(c: Cluster, env: Env)
    requires UniqueIndices(c.owned)
    ensures var d := Reconcile(c, env);
      && UniqueIndices(d.owned)
      && (|d.owned| > |c.owned| ==> !c.status.phase.Pausing? && !c.status.phase.Paused? && !d.spec.pooled)
  {
    match DispatchOf(c)
    case ToContinueResume =>
      var p := ContinueResume(c, env);
      ContinueResumeSpec(c, env);
      ScaleKeepsIndices(p.c, p.l, env);
    case ToSyncPause => PausingKeepsIndices(c, env);
    case ToNormalFlow => ScaleKeepsIndices(c, Fresh(c), env);
    case _ =>
  }

  /** The local copy has the stored spec, and the pods have not been touched yet. */
  lemma {:induction false} ContinueResumeSpec(c: Cluster, env: Env)
    ensures var p := ContinueResume(c, env); p.l.spec == p.c.spec && p.c.owned == c.owned
  {
  }

  lemma {:induction false} PausingKeepsIndices(c: Cluster, env: Env)
    requires UniqueIndices(c.owned)
    ensures var d := SyncPauseOrClear(c, env); |d.owned| == |c.owned| && UniqueIndices(d.owned)
  {
    MarkDeletingMeaning(c.owned, DeletedUpTo(|c.owned|, env.ok, 0));
  }

  lemma {:induction false} ScaleKeepsIndices(c: Cluster, l: Local, env: Env)
    requires UniqueIndices(c.owned)
    ensures UniqueIndices(NormalFlow(c, l, env).owned)
    ensures |NormalFlow(c, l, env).owned| > |c.owned| ==> !l.spec.pooled && !l.status.phase.Paused?
    ensures NormalFlow(c, l, env).spec == c.spec
  {
    NormalFlowChanges(c, l, env);
    if l.spec.replicas.Some? {
      ScalingFillsIn(c.name, c.owned, l.spec.template, env.ok, 0, l.spec.replicas.value);
    }
  }

  // ---- Lifecycle conditions.

  /** The stored object when the runtime patch of a reconcile is due: continueResume may
      have written before it. */
  function BeforeRuntimePatch(c: Cluster, env: Env): Cluster {
    if DispatchOf(c) == ToContinueResume then ContinueResume(c, env).c else c
  }

  lemma {:induction false} NormalFlowKeepsFailures(c: Cluster, l: Local, env: Env, kind: ConditionType)
    requires StatusOk(l.status) && (l.wrote || c.status == l.status)
    requires kind in {PauseFailedType, ResumeFailedType} && Has(c.status.conditions, kind)
    ensures Has(NormalFlow(c, l, env).status.conditions, kind)
  {
    var view := RuntimeView(l, Listed(c, l.spec.pooled), env.now);
    RuntimeViewOk(l, Listed(c, l.spec.pooled), env.now);
    MergeKeepsLifecycle(view.phase, view.conditions, l.status.conditions);
    NormalFlowChanges(c, l, env);
  }

  /** No runtime status patch drops PauseFailed or ResumeFailed, be it of the normal flow
      or of a reconcile that continues a resume. */
  lemma {:induction false} RuntimePatchKeepsFailures(c: Cluster, env: Env, kind: ConditionType)
    requires StatusOk(c.status) && (DispatchOf(c) == ToNormalFlow || DispatchOf(c) == ToContinueResume)
    requires kind in {PauseFailedType, ResumeFailedType} && Has(BeforeRuntimePatch(c, env).status.conditions, kind)
    ensures Has(Reconcile(c, env).status.conditions, kind)
  {
    if DispatchOf(c) == ToNormalFlow {
      NormalFlowKeepsFailures(c, Fresh(c), env, kind);
    } else {
      var p := ContinueResume(c, env);
      ContinueResumeOk(c, env);
      NormalFlowKeepsFailures(p.c, p.l, env, kind);
    }
  }

  /** In particular a resume with a usable snapshot keeps both from one reconcile to the next. */
  lemma {:induction false} ResumingKeepsFailures(c: Cluster, env: Env, kind: ConditionType)
    requires StatusOk(c.status) && c.status.phase.Resuming? && GiveUpReason(c).None?
    requires kind in {PauseFailedType, ResumeFailedType} && Has(c.status.conditions, kind)
    ensures Has(Reconcile(c, env).status.conditions, kind)
  {
    ContinueResumeChanges(c, env);
    RuntimePatchKeepsFailures(c, env, kind);
  }

  // ---- A failed sandbox.

  /** A failed sandbox leaves Failed if and only if a resume request, or a pause request it
      can start on, is acknowledged. */
  lemma {:induction false} FailedIsLeftIff(c: Cluster, env: Env)
    requires c.status.phase.Failed?
    ensures !Reconcile(c, env).status.phase.Failed? <==>
      || (DispatchOf(c) == ToHandleResume && env.ok(1))
      || (DispatchOf(c) == ToHandlePause && c.spec.replicas == Some(SUPPORTED_REPLICAS) && env.ok(1) &&
          (c.snapshot.Some? ==> !c.snapshot.value.deleting && !Terminal(c.snapshot.value)))
  {
    if DispatchOf(c) == ToNormalFlow {
      FailedFlowStays(c, env);
    }
  }

  lemma {:induction false} FailedFlowStays(c: Cluster, env: Env)
    requires c.status.phase.Failed?
    ensures NormalFlow(c, Fresh(c), env).status.phase.Failed?
  {
    NormalFlowChanges(c, Fresh(c), env);
  }
}
