/** Where each kind of reconcile leaves the sandbox, said of the stored objects themselves. */
module LifecycleOutcomes {
  import opened Optional
  import opened StatusConditions
  import opened Lifecycle
  import opened LifecycleProofs
  import LifecyclePause
  import F = PodFailures
  import Q = QemuRestore

  // ---- Starting a pause.

  /** Of the status only phase, acknowledgement and conditions differ, and nothing else. */
  ghost predicate OnlyStatusWritten(c: Cluster, d: Cluster) {
    d == c.(status := c.status.(phase := d.status.phase, pauseObserved := d.status.pauseObserved,
                                conditions := d.status.conditions))
  }

  lemma {:induction false} AckAndNote(c: Cluster, phase: Phase, w: Wanted, now: int)
    requires w.status == TRUE || w.status == FALSE
    ensures var d := Note(Ack(c, phase, now), w, now);
      && OnlyStatusWritten(c, d) && d.status.phase == phase && d.status.pauseObserved == c.generation
      && InForce(d.status.conditions, w)
  {
    WriteMeaning(Ack(c, phase, now).status.conditions, w, now);
  }

  /** A pause of anything but one replica is turned down: acknowledged, explained, and
      nothing else touched, so it is not looked at again. */
  lemma {:induction false} UnsupportedPauseIsTurnedDown(c: Cluster, env: Env)
    requires DispatchOf(c) == ToHandlePause && c.spec.replicas != Some(SUPPORTED_REPLICAS)
    ensures var d := Reconcile(c, env);
      && OnlyStatusWritten(c, d)
      && (!env.ok(0) ==> d == c)
      && (env.ok(0) ==>
            && d.status.pauseObserved == c.generation && DispatchOf(d) == ToNormalFlow
            && d.status.phase == (if c.status.phase.Unset? then Succeed else c.status.phase)
            && (env.ok(1) ==> InForce(
                  d.status.conditions, Wanted(PauseFailedType, TRUE, "UnsupportedReplicas", "unsupported replicas"))))
  {
    AckAndNote(c, if c.status.phase.Unset? then Succeed else c.status.phase,
      Wanted(PauseFailedType, TRUE, "UnsupportedReplicas", "unsupported replicas"), env.now);
    assert Reconcile(c, env) == HandlePause(c, env);
  }

  /** A snapshot left over from before is waited for or thrown away, and nothing else happens. */
  lemma {:induction false} LeftoverSnapshotGoesFirst(c: Cluster, env: Env)
    requires DispatchOf(c) == ToHandlePause && c.spec.replicas == Some(SUPPORTED_REPLICAS)
    requires c.snapshot.Some? && (c.snapshot.value.deleting || Terminal(c.snapshot.value))
    ensures var d := Reconcile(c, env);
      && d == c.(snapshot := d.snapshot) && DispatchOf(d) == ToHandlePause
      && d.snapshot == Some(c.snapshot.value.(deleting := c.snapshot.value.deleting || env.ok(0)))
  {
    assert c.(snapshot := Some(c.snapshot.value.(deleting := c.snapshot.value.deleting))) == c;
  }

  /** A new snapshot, not seen before and not begun. */
  ghost predicate MakesSnapshot(c: Cluster, d: Cluster) {
    && d.snapshot.Some? && d.snapshot.value.uid == c.nextUid && d.nextUid == c.nextUid + 1
    && d.snapshot.value.phase.NoPhase? && !d.snapshot.value.deleting
  }

  /** Otherwise the pause begins: Pausing, acknowledged, an old failure cleared; the
      snapshot is made at once if there is none, the tasks have stopped and it can be. */
  lemma {:induction false} PauseBegins(c: Cluster, env: Env)
    requires DispatchOf(c) == ToHandlePause && c.spec.replicas == Some(SUPPORTED_REPLICAS)
    requires c.snapshot.Some? ==> !c.snapshot.value.deleting && !Terminal(c.snapshot.value)
    ensures var d := Reconcile(c, env);
      && d.spec == c.spec && d.generation == c.generation && d.owned == c.owned && d.pool == c.pool
      && (if env.ok(1) then d.status.phase.Pausing? && d.status.pauseObserved == c.generation
          else d.status.phase == c.status.phase && d.status.pauseObserved == c.status.pauseObserved)
      && (env.ok(0) ==> InForce(d.status.conditions, Wanted(PauseFailedType, FALSE, "", "")))
      && (if c.snapshot.None? && env.ok(1) && env.ok(2) && env.tasksStopped then MakesSnapshot(c, d)
          else d.snapshot == c.snapshot && d.nextUid == c.nextUid)
  {
    var w := Wanted(PauseFailedType, FALSE, "", "");
    WriteMeaning(c.status.conditions, w, env.now);
    PhaseKeepsInForce(Write(c.status.conditions, w, env.now), Pausing, w, env.now);
  }

  /** Applying a phase leaves the conditions of the handlers and of the pods alone. */
  lemma {:induction false} PhaseKeepsInForce(cs: seq<Condition>, phase: Phase, w: Wanted, now: int)
    requires w.kind !in {ReadyType, ProgressingType, PausedType} && InForce(cs, w)
    ensures InForce(ApplyPhase(cs, phase, now), w)
  {
    SetEachKeepsInForce(cs, WantedFor(phase), w, now);
  }

  lemma {:induction false} PhaseKeepsOthers(cs: seq<Condition>, phase: Phase, now: int)
    ensures forall x: Condition :: x.kind !in {ReadyType, ProgressingType, PausedType} ==>
      (x in ApplyPhase(cs, phase, now) <==> x in cs)
  {
    SetEachKeepsOthers(cs, WantedFor(phase), now);
  }

  lemma {:induction false} SetEachKeepsInForce(cs: seq<Condition>, ws: seq<Wanted>, w: Wanted, now: int)
    requires InForce(cs, w)
    requires forall i :: 0 <= i < |ws| ==> ws[i].kind != w.kind && (ws[i].status == TRUE || ws[i].status == FALSE)
    ensures InForce(SetEach(cs, ws, now), w)
  {
    if ws == [] {
    } else {
      SetEachKeepsInForce(cs, ws[..|ws| - 1], w, now);
      OtherSetKeepsInForce(SetEach(cs, ws[..|ws| - 1], now), w, ws[|ws| - 1], now);
    }
  }

  // ---- During a pause.

  /** While there is no snapshot one is made; while it is unfinished nothing happens. */
  lemma {:induction false} PauseWaitsForSnapshot(c: Cluster, env: Env)
    requires c.status.phase.Pausing? && (c.snapshot.Some? ==> !Terminal(c.snapshot.value))
    ensures var d := Reconcile(c, env);
      if c.snapshot.None? && env.tasksStopped && env.ok(0)
      then MakesSnapshot(c, d) && d == c.(snapshot := d.snapshot, nextUid := d.nextUid)
      else d == c
  {
  }

  /** A failed snapshot ends the pause: Failed if and only if no pod is left, else Succeed;
      either way the request is answered, and every pod stays. */
  lemma {:induction false} FailedSnapshotEndsPause(c: Cluster, env: Env)
    requires c.status.phase.Pausing? && c.snapshot.Some? && c.snapshot.value.phase.Broken?
    ensures var d, left := Reconcile(c, env), if c.spec.pooled then c.pool else c.owned;
      && OnlyStatusWritten(c, d)
      && (!env.ok(0) ==> d == c)
      && (env.ok(0) ==>
            && (d.status.phase.Failed? <==> left == []) && (d.status.phase.Succeed? <==> left != [])
            && d.status.pauseObserved == c.generation
            && (env.ok(1) ==> InForce(d.status.conditions, Wanted(
                  PauseFailedType, TRUE, if left == [] then "PodNotFound" else "SnapshotFailed",
                  c.snapshot.value.failure))))
  {
    var lost := Listed(c, c.spec.pooled) == [];
    AckAndNote(c, if lost then Failed else Succeed,
      Wanted(PauseFailedType, TRUE, if lost then "PodNotFound" else "SnapshotFailed", c.snapshot.value.failure),
      env.now);
    assert Reconcile(c, env) == SyncPauseOrClear(c, env);
  }

  // ---- The end of a pause.

  lemma {:induction false} PooledPauseEnds(c: Cluster, env: Env)
    requires c.spec.pooled && !c.status.phase.Paused? && CompletePause(c, env).status.phase.Paused?
    ensures var d := CompletePause(c, env);
      && c.pool != [] && d.spec == c.spec.(template := Some(c.pool[0].source), pooled := false)
      && d.generation == c.generation + 1
      && d.status.pauseObserved == (if d.spec.pause == Some(true) then d.generation else c.status.pauseObserved)
      && d.snapshot == c.snapshot && d.pool == c.pool && d.owned == c.owned
  {
  }

  lemma {:induction false} OwnPauseEnds(c: Cluster, env: Env)
    requires !c.spec.pooled && !c.status.phase.Paused? && CompletePause(c, env).status.phase.Paused?
    ensures var d := CompletePause(c, env);
      && d.spec == c.spec && d.generation == c.generation && |d.owned| == |c.owned|
      && (forall i :: 0 <= i < |d.owned| ==> d.owned[i] == c.owned[i].(deleting := true))
      && d.status.pauseObserved == (if d.spec.pause == Some(true) then d.generation else c.status.pauseObserved)
      && d.snapshot == c.snapshot && d.pool == c.pool
  {
    MarkDeletingMeaning(c.owned, DeletedUpTo(|c.owned|, env.ok, 0));
  }

  /** What a pause leaves behind: no running pod, the pool let go with the template of its
      first pod, and the request answered if it still stands. */
  lemma {:induction false} PauseAnswersItsRequest(c: Cluster, env: Env)
    requires c.status.phase.Pausing? && Reconcile(c, env).status.phase.Paused?
    ensures var d := Reconcile(c, env);
      && d.snapshot == c.snapshot && d.pool == c.pool && d.spec.pause == c.spec.pause && !d.spec.pooled
      && d.status.pauseObserved == (if d.spec.pause == Some(true) then d.generation else c.status.pauseObserved)
      && (c.spec.pooled ==>
            && c.pool != [] && d.spec.template == Some(c.pool[0].source) && d.generation == c.generation + 1
            && d.owned == c.owned)
      && (!c.spec.pooled ==>
            && d.spec == c.spec && d.generation == c.generation && |d.owned| == |c.owned|
            && forall i :: 0 <= i < |d.owned| ==> d.owned[i] == c.owned[i].(deleting := true))
      && (d.spec.pause == Some(true) ==> DispatchOf(d) == ToNormalFlow)
      && (d.spec.pause == Some(false) && c.status.pauseObserved < d.generation ==> DispatchOf(d) == ToHandleResume)
  {
    assert SnapshotDone(c) && Reconcile(c, env) == CompletePause(c, env);
    if c.spec.pooled {
      PooledPauseEnds(c, env);
    } else {
      OwnPauseEnds(c, env);
    }
  }

  /** Paused, with no request open. */
  ghost predicate PausedForGood(c: Cluster) { c.status.phase.Paused? && DispatchOf(c) == ToNormalFlow }

  lemma {:induction false} PausedForGoodStep(c: Cluster, env: Env)
    requires PausedForGood(c)
    ensures var d := Reconcile(c, env);
      PausedForGood(d) && d.snapshot == c.snapshot && d.spec == c.spec && d.owned == c.owned
  {
    NormalFlowChanges(c, Fresh(c), env);
    RuntimeViewPhase(Fresh(c), Listed(c, c.spec.pooled), env.now);
  }

  /** Reconciles without a change to the object from outside; pods may come and go. */
  ghost predicate LeftAlone(states: seq<Cluster>, envs: seq<Env>) {
    && |states| == |envs| + 1
    && forall i :: 0 <= i < |envs| ==>
         states[i + 1] == Reconcile(states[i], envs[i]).(owned := states[i + 1].owned, pool := states[i + 1].pool)
  }

  /** A finished pause keeps its snapshot for good: until the object is edited no reconcile
      deletes it, starts another pause, or touches spec. */
  lemma {:induction false} FinishedPauseKeepsSnapshot(c: Cluster, env: Env, states: seq<Cluster>, envs: seq<Env>)
    requires c.status.phase.Pausing? && Reconcile(c, env).status.phase.Paused? && c.spec.pause == Some(true)
    requires LeftAlone(states, envs) && states[0] == Reconcile(c, env)
    ensures var last := states[|envs|];
      last.status.phase.Paused? && last.snapshot == c.snapshot && last.spec == states[0].spec
  {
    PauseAnswersItsRequest(c, env);
    PausedForGoodAlongRun(states, envs, |envs|);
  }

  lemma {:induction false} PausedForGoodAlongRun(states: seq<Cluster>, envs: seq<Env>, n: nat)
    requires LeftAlone(states, envs) && PausedForGood(states[0]) && n <= |envs|
    ensures PausedForGood(states[n]) && states[n].snapshot == states[0].snapshot && states[n].spec == states[0].spec
  {
    if n == 0 {
    } else {
      PausedForGoodAlongRun(states, envs, n - 1);
      PausedForGoodStep(states[n - 1], envs[n - 1]);
    }
  }

  /** A pause that nothing stands in the way of: the request makes the snapshot, and once it
      has succeeded the next reconcile ends the pause, whatever the outside does to the pods. */
  lemma {:induction false} PauseGoesThrough(c: Cluster, first: Env, done: Cluster, last: Env)
    requires DispatchOf(c) == ToHandlePause && c.spec.replicas == Some(SUPPORTED_REPLICAS) && c.snapshot.None?
    requires AllOk(first) && first.tasksStopped && AllOk(last)
    requires var begun := Reconcile(c, first);
      && done == begun.(snapshot := done.snapshot, owned := done.owned, pool := done.pool)
      && SnapshotDone(done) && (done.spec.pooled ==> done.pool != [])
    ensures MakesSnapshot(c, Reconcile(c, first)) && Reconcile(c, first).status.phase.Pausing?
    ensures var d := Reconcile(done, last);
      d.status.phase.Paused? && !d.spec.pooled && d.snapshot == done.snapshot && DispatchOf(d) == ToNormalFlow
  {
    PauseBegins(c, first);
    DeletesAll(|done.owned|, last.ok, 0);
    PauseAnswersItsRequest(done, last);
  }

  // ---- Resuming.

  lemma {:induction false} ResumeBegins(c: Cluster, env: Env)
    requires DispatchOf(c) == ToHandleResume
    ensures var d := Reconcile(c, env);
      && OnlyStatusWritten(c, d)
      && (if env.ok(1) then d.status.phase.Resuming? && d.status.pauseObserved == c.generation
          else d.status.phase == c.status.phase && d.status.pauseObserved == c.status.pauseObserved)
      && (env.ok(0) ==> InForce(d.status.conditions, Wanted(ResumeFailedType, FALSE, "", "")))
  {
    var w := Wanted(ResumeFailedType, FALSE, "", "");
    WriteMeaning(c.status.conditions, w, env.now);
    PhaseKeepsInForce(Write(c.status.conditions, w, env.now), Resuming, w, env.now);
  }

  /** A resume can go on exactly with a succeeded snapshot whose every image is known and,
      for a virtual machine, whose restore plan fits the template. */
  lemma {:induction false} ResumeGoesOnIff(c: Cluster)
    ensures GiveUpReason(c).None? <==>
      && SnapshotDone(c)
      && var s := c.snapshot.value.content;
         && (forall k :: 0 <= k < |s.images| ==> Q.Reference(s, k).Some?)
         && (s.format == Q.QEMU ==> c.spec.template.Some? && Q.Inject(c.spec.template.value, s).Some?)
  {
    if c.snapshot.Some? {
      Q.ImageMapMeaning(c.snapshot.value.content, |c.snapshot.value.content.images|);
    }
  }

  /** The snapshot is gone and a pod is ready: the resume has happened already. */
  predicate DoneWithoutSnapshot(c: Cluster) {
    && c.snapshot.None?
    && ((exists i :: 0 <= i < |c.owned| && c.owned[i].ready) ||
        (c.spec.pooled && exists i :: 0 <= i < |c.pool| && c.pool[i].ready))
  }

  /** Giving a resume up leads back to Paused, with the request answered, the reason given
      and nothing but the status touched. */
  lemma {:induction false} GivingUpReturnsToPaused(c: Cluster, env: Env)
    requires c.status.phase.Resuming? && GiveUpReason(c).Some? && !DoneWithoutSnapshot(c) && env.ok(0)
    ensures var d, reason := Reconcile(c, env), GiveUpReason(c).value;
      && d.status.phase.Paused? && d.status.pauseObserved == c.generation && d == c.(status := d.status)
      && (env.ok(1) ==> InForce(d.status.conditions, Wanted(ResumeFailedType, TRUE, reason, reason)))
  {
    var p, reason := ContinueResume(c, env), GiveUpReason(c).value;
    WriteMeaning(Ack(c, Paused, env.now).status.conditions, Wanted(ResumeFailedType, TRUE, reason, reason), env.now);
    RuntimeViewPhase(p.l, Listed(p.c, p.l.spec.pooled), env.now);
    assert p.c.(owned := p.c.owned) == p.c;
  }

  /** With a ready pod and no snapshot the resume is over: Succeed, answered, and the two
      failure conditions gone. */
  lemma {:induction false} ReadyPodEndsResume(c: Cluster, env: Env)
    requires c.status.phase.Resuming? && DoneWithoutSnapshot(c) && env.ok(0)
    ensures var d := Reconcile(c, env);
      && d.status.phase.Succeed? && d.status.pauseObserved == c.generation
      && d.spec == c.spec && d.snapshot == c.snapshot
      && d.owned == (if c.spec.pooled || !env.scaleSettled || c.spec.replicas.None? then c.owned
                     else CreateMissing(c.name, c.owned, c.spec.template, env.ok, 0, c.spec.replicas.value).owned)
      && (env.ok(1) ==> InForce(d.status.conditions, Wanted(ResumeFailedType, FALSE, "", "")))
      && (env.ok(2) ==> InForce(d.status.conditions, Wanted(PodFailedType, FALSE, "", "")))
  {
    var p := ContinueResume(c, env);
    FailuresAreCleared(c, env);
    WrittenPassOnlyScales(p.c, p.l, env);
  }

  /** continueResume finds the resume done. */
  lemma {:induction false} FailuresAreCleared(c: Cluster, env: Env)
    requires c.status.phase.Resuming? && DoneWithoutSnapshot(c) && env.ok(0)
    ensures var p := ContinueResume(c, env);
      && !p.err && p.l.wrote && p.l.spec == c.spec && p.l.status.phase.Succeed?
      && p.c == c.(status := p.c.status) && p.c.status.phase.Succeed? && p.c.status.pauseObserved == c.generation
      && (env.ok(1) ==> InForce(p.c.status.conditions, Wanted(ResumeFailedType, FALSE, "", "")))
      && (env.ok(2) ==> InForce(p.c.status.conditions, Wanted(PodFailedType, FALSE, "", "")))
  {
    var w1, w2 := Wanted(ResumeFailedType, FALSE, "", ""), Wanted(PodFailedType, FALSE, "", "");
    var cs := Ack(c, Succeed, env.now).status.conditions;
    var cs1 := if env.ok(1) then Write(cs, w1, env.now) else cs;
    WriteMeaning(cs, w1, env.now);
    WriteMeaning(cs1, w2, env.now);
    if env.ok(1) {
      OtherWriteKeepsAbsent(cs1, w1.kind, w2, env.now);
    }
  }

  /** After a status write the rest of the pass only scales. */
  lemma {:induction false} WrittenPassOnlyScales(c: Cluster, l: Local, env: Env)
    requires l.wrote && c.snapshot.None?
    ensures NormalFlow(c, l, env) == c.(owned := Scale(c, l, env).owned)
  {
  }

  lemma {:induction false} OtherWriteKeepsAbsent(cs: seq<Condition>, kind: ConditionType, w: Wanted, now: int)
    requires !Has(cs, kind) && kind != w.kind
    ensures !Has(Write(cs, w, now), kind)
  {
    StampAllMembers(cs, w, now);
    var s, r := StampAll(cs, w, now), Write(cs, w, now);
    HasEither(s, r[|s|..], kind);
    assert r == s + r[|s|..];
  }

  /** What a resume with a usable snapshot writes: a template that runs the snapshot and
      pulls with the configured secret, the restore plan, and no pool; pods made in the same
      pass are made from it. A format nobody knows leaves everything as it was. */
  lemma {:induction false} ResumeRunsSnapshot(c: Cluster, env: Env)
    requires c.status.phase.Resuming? && GiveUpReason(c).None? && env.ok(0) && c.spec.template.Some?
    ensures var d, s, t := Reconcile(c, env), c.snapshot.value.content, c.spec.template.value;
      if s.format !in {"", Q.ROOTFS, Q.QEMU} then d == c
      else
        && d.spec == c.spec.(template := d.spec.template, pooled := false) && d.spec.template.Some?
        && d.generation == (if d.spec == c.spec then c.generation else c.generation + 1)
        && var u := d.spec.template.value;
           && Q.RunsSnapshot(t, u, s) && Q.PullsWith(t.pullSecrets, u.pullSecrets, env.secret)
           && Q.Inject(t, s).Some? && Q.SameButImages(Q.Inject(t, s).value.(pullSecrets := u.pullSecrets), u)
           && (forall i :: |c.owned| <= i < |d.owned| ==> d.owned[i].source == u)
           && (d.status != c.status ==> d.status.observed == d.generation)
  {
    var p, s, t := ContinueResume(c, env), c.snapshot.value.content, c.spec.template.value;
    ResumeGoesOnIff(c);
    Q.RestoredIsInjected(t, s, env.secret);
    KnownFormats(t, s);
    if Q.Inject(t, s).Some? {
      Q.RestoredRunsSnapshot(t, s, env.secret);
      Q.RestoredPullsWithSecret(t, s, env.secret);
      NormalFlowChanges(p.c, p.l, env);
      ScalingUsesTemplate(p.c, p.l, env);
      ViewCounts(p.l, Listed(p.c, p.l.spec.pooled), env.now);
    }
  }

  lemma {:induction false} KnownFormats(t: Q.Template, s: Q.Snapshot)
    requires s.format == Q.QEMU ==> Q.Inject(t, s).Some?
    ensures Q.Inject(t, s).Some? <==> s.format in {"", Q.ROOTFS, Q.QEMU}
  {
  }

  /** Pods made by a pass come from the template it has at hand. */
  lemma {:induction false} ScalingUsesTemplate(c: Cluster, l: Local, env: Env)
    ensures var d := NormalFlow(c, l, env);
      |c.owned| <= |d.owned| && forall i :: |c.owned| <= i < |d.owned| ==> Some(d.owned[i].source) == l.spec.template
  {
    if l.spec.replicas.Some? {
      CreatedFromTemplate(c.name, c.owned, l.spec.template, env.ok, 0, l.spec.replicas.value);
    }
  }

  lemma {:induction false} CreatedFromTemplate(
      name: string, owned: seq<Pod>, template: Option<Q.Template>, ok: nat -> bool, i: nat, n: int)
    ensures var r := CreateMissing(name, owned, template, ok, i, n);
      && owned <= r.owned
      && (forall k :: |owned| <= k < |r.owned| ==>
            && Some(r.owned[k].source) == template && r.owned[k].name == name + "-" + F.Decimal(r.owned[k].index)
            && !r.owned[k].ready && !r.owned[k].deleting && !r.owned[k].placed && r.owned[k].failure.None?)
      && (!r.ok ==> template.None? || exists j: nat :: i <= j < n && !HasIndex(owned, j) && !ok(POD_CREATE + j))
    decreases n - i
  {
    if i < n {
      if HasIndex(owned, i) {
        CreatedFromTemplate(name, owned, template, ok, i + 1, n);
      } else if template.Some? && ok(POD_CREATE + i) {
        var p := NewPod(name, i, template.value);
        CreatedFromTemplate(name, owned + [p], template, ok, i + 1, n);
        if j: nat :| i + 1 <= j < n && !HasIndex(owned + [p], j) && !ok(POD_CREATE + j) {
          if HasIndex(owned, j) {
            LifecyclePause.AddedIndex(owned, p, j);
          }
        }
      }
    }
  }

  /** Pods of one sandbox are told apart by name exactly as by index. */
  lemma {:induction false} PodNamesTellApart(name: string, i: nat, j: nat, t: Q.Template, u: Q.Template)
    ensures NewPod(name, i, t).name == NewPod(name, j, u).name <==> i == j
  {
    F.DecimalIsReadBack(i);
    F.DecimalIsReadBack(j);
    if NewPod(name, i, t).name == NewPod(name, j, u).name {
      assert F.Decimal(i) == (name + "-" + F.Decimal(i))[|name| + 1..];
      assert F.Decimal(j) == (name + "-" + F.Decimal(j))[|name| + 1..];
    }
  }

  // ---- The runtime view.

  ghost function ReadyPods(pods: seq<Pod>): set<int> {
    set i | 0 <= i < |pods| && pods[i].ready && !pods[i].deleting
  }

  ghost function PlacedPods(pods: seq<Pod>): set<int> { set i | 0 <= i < |pods| && pods[i].placed }

  lemma {:induction false} CountReadyMeaning(pods: seq<Pod>)
    ensures CountReady(pods) == |ReadyPods(pods)|
  {
    if pods == [] {
    } else {
      var n := |pods| - 1;
      CountReadyMeaning(pods[..n]);
      assert ReadyPods(pods) == ReadyPods(pods[..n]) + (if pods[n].ready && !pods[n].deleting then {n} else {});
    }
  }

  lemma {:induction false} CountPlacedMeaning(pods: seq<Pod>)
    ensures CountPlaced(pods) == |PlacedPods(pods)|
  {
    if pods == [] {
    } else {
      var n := |pods| - 1;
      CountPlacedMeaning(pods[..n]);
      assert PlacedPods(pods) == PlacedPods(pods[..n]) + (if pods[n].placed then {n} else {});
    }
  }

  ghost predicate AnyFailed(pods: seq<Pod>) { exists i :: 0 <= i < |pods| && pods[i].failure.Some? }

  ghost predicate AnyRunning(pods: seq<Pod>) { exists i :: 0 <= i < |pods| && pods[i].ready && !pods[i].deleting }

  lemma {:induction false} FailureMeansLead(pods: seq<Pod>)
    ensures F.Prevails(Failures(pods)).Some? <==> AnyFailed(pods)
  {
    F.LeadExistsIffFailed(Failures(pods));
    F.FailedCountMeaning(Failures(pods));
    var failed := set i | 0 <= i < |Failures(pods)| && Failures(pods)[i].failure.Some?;
    if i :| 0 <= i < |pods| && pods[i].failure.Some? {
      assert Failures(pods)[i].failure.Some? && i in failed;
    }
    if failed != {} {
      var i :| i in failed;
      assert pods[i].failure.Some?;
    }
  }

  lemma {:induction false} ReadyMeansRunning(pods: seq<Pod>)
    ensures CountReady(pods) > 0 <==> AnyRunning(pods)
  {
    CountReadyMeaning(pods);
    if i :| 0 <= i < |pods| && pods[i].ready && !pods[i].deleting {
      assert i in ReadyPods(pods);
    }
    if ReadyPods(pods) != {} {
      var i :| i in ReadyPods(pods);
    }
  }

  /** The phase the pods ask for: none while pausing, paused or failed; a failed pod fails the
      sandbox; else a running pod makes it succeed; else it is still starting. */
  ghost function PhaseAskedFor(phase: Phase, pods: seq<Pod>): Phase {
    if phase.Pausing? || phase.Paused? || phase.Failed? then phase
    else if AnyFailed(pods) then Failed
    else if AnyRunning(pods) then Succeed
    else if phase.Resuming? then Resuming
    else Pending
  }

  /** The view has the phase the pods ask for, and counts them. */
  lemma {:induction false} ViewFollowsPods(l: Local, pods: seq<Pod>, now: int)
    ensures var v := RuntimeView(l, pods, now);
      && v.phase == PhaseAskedFor(l.status.phase, pods)
      && v.observed == l.generation && v.replicas == |pods|
      && v.ready == |ReadyPods(pods)| && v.placed == |PlacedPods(pods)|
  {
    ViewCounts(l, pods, now);
    PhaseFollowsPods(l, pods, now);
    CountReadyMeaning(pods);
    CountPlacedMeaning(pods);
  }

  lemma {:induction false} ViewCounts(l: Local, pods: seq<Pod>, now: int)
    ensures var v := RuntimeView(l, pods, now);
      v.observed == l.generation && v.replicas == |pods| && v.ready == CountReady(pods) && v.placed == CountPlaced(pods)
  {
  }

  lemma {:induction false} PhaseFollowsPods(l: Local, pods: seq<Pod>, now: int)
    ensures RuntimeView(l, pods, now).phase == PhaseAskedFor(l.status.phase, pods)
  {
    FailureMeansLead(pods);
    ReadyMeansRunning(pods);
  }

  /** The view is worth storing and may be: it says something new, the sandbox has got pods
      or had them before, and nothing was written in this pass. */
  ghost predicate Stores(l: Local, view: Status, env: Env) {
    && view != l.status && !l.wrote && env.ok(STATUS_PATCH)
    && !(view.replicas == 0 && l.status.phase.Unset? && l.spec.replicas.Some? && l.spec.replicas.value > 0)
  }

  /** A pass that gets to the view ends in the phase the pods ask for exactly if it may
      store it, and gives the snapshot up only in Succeed. */
  lemma {:induction false} NormalFlowFollowsPods(c: Cluster, env: Env)
    requires DispatchOf(c) == ToNormalFlow && Scale(c, Fresh(c), env).ok
    ensures var d, pods := Reconcile(c, env), if c.spec.pooled then c.pool else c.owned;
      var view := RuntimeView(Fresh(c), pods, env.now);
      && (d.status != c.status ==> Stores(Fresh(c), view, env))
      && (Stores(Fresh(c), view, env) ==>
            && d.status.phase == PhaseAskedFor(c.status.phase, pods)
            && d.status.ready == |ReadyPods(pods)| && d.status.replicas == |pods| && d.status.observed == c.generation
            && (d.status.pauseObserved >= c.generation))
  {
    ViewFollowsPods(Fresh(c), Listed(c, c.spec.pooled), env.now);
    RuntimeViewPhase(Fresh(c), Listed(c, c.spec.pooled), env.now);
  }

  lemma {:induction false} DoneScalingHasAll(
      name: string, owned: seq<Pod>, template: Option<Q.Template>, ok: nat -> bool, i: nat, n: int, j: nat)
    requires CreateMissing(name, owned, template, ok, i, n).ok && i <= j < n
    ensures HasIndex(CreateMissing(name, owned, template, ok, i, n).owned, j)
    decreases n - i
  {
    CreateMissingExtends(name, owned, template, ok, i, n);
    var r := CreateMissing(name, owned, template, ok, i, n);
    if HasIndex(owned, i) {
      if i == j {
        var k :| 0 <= k < |owned| && owned[k].index == i;
        assert r.owned[k].index == i;
      } else {
        DoneScalingHasAll(name, owned, template, ok, i + 1, n, j);
      }
    } else {
      var p := NewPod(name, i, template.value);
      if i == j {
        CreateMissingExtends(name, owned + [p], template, ok, i + 1, n);
        assert r.owned[|owned|] == p;
      } else {
        DoneScalingHasAll(name, owned + [p], template, ok, i + 1, n, j);
      }
    }
  }

  /** A pass that has to scale and cannot finish writes no status and keeps the snapshot: so
      without a replica count, and as long as a pod is missing. */
  lemma {:induction false} UnfinishedScalingStopsPass(c: Cluster, env: Env)
    requires DispatchOf(c) == ToNormalFlow && !c.spec.pooled && !c.status.phase.Paused? && env.scaleSettled
    ensures c.spec.replicas.None? ==> Reconcile(c, env) == c
    ensures var d := Reconcile(c, env);
      c.spec.replicas.Some? && (exists j: nat :: j < c.spec.replicas.value && !HasIndex(d.owned, j)) ==>
        d == c.(owned := d.owned)
  {
    assert c.(owned := c.owned) == c;
    if c.spec.replicas.Some? {
      var n, r := c.spec.replicas.value, Scale(c, Fresh(c), env);
      if r.ok {
        forall j: nat | j < n
          ensures HasIndex(r.owned, j)
        {
          DoneScalingHasAll(c.name, c.owned, c.spec.template, env.ok, 0, n, j);
        }
        assert Reconcile(c, env).owned == r.owned;
      }
    }
  }

  /** What the view says of failed pods: the prevailing reason under PodFailed, and under
      ResumeFailed too exactly while a resume is under way; without failed pods no PodFailed. */
  lemma {:induction false} ViewExplainsFailures(l: Local, pods: seq<Pod>, now: int)
    requires !l.status.phase.Pausing? && !l.status.phase.Paused? && !l.status.phase.Failed?
    ensures var v, lead := RuntimeView(l, pods, now), F.Prevails(Failures(pods));
      && (lead.Some? ==>
            && InForce(v.conditions, FailedWanted(PodFailedType, Failures(pods), lead.value, false))
            && (l.status.phase.Resuming? || (l.generation > l.status.pauseObserved && l.spec.pause == Some(false)) ==>
                  InForce(v.conditions, FailedWanted(ResumeFailedType, Failures(pods), lead.value, true))))
      && (lead.None? || !(l.status.phase.Resuming? ||
                          (l.generation > l.status.pauseObserved && l.spec.pause == Some(false))) ==>
            forall x: Condition :: x.kind == ResumeFailedType ==> (x in v.conditions <==> x in l.status.conditions))
      && (lead.None? && (AnyRunning(pods) || !l.status.phase.Resuming?) ==>
            InForce(v.conditions, Wanted(PodFailedType, FALSE, "", "")))
  {
    var cs, lead, os := l.status.conditions, F.Prevails(Failures(pods)), Failures(pods);
    ReadyMeansRunning(pods);
    var phase := RuntimeView(l, pods, now).phase;
    PhaseKeepsOthers(cs, phase, now);
    if lead.Some? {
      var w := FailedWanted(PodFailedType, os, lead.value, false);
      var r := FailedWanted(ResumeFailedType, os, lead.value, true);
      if l.status.phase.Resuming? {
        FailuresInForce(cs, r, w, phase, now);
      } else if ResumeInFlight(l) {
        FailuresInForce(cs, w, r, phase, now);
      } else {
        SetMeaning(cs, w, now);
        PhaseKeepsInForce(Set(cs, w, now), phase, w, now);
        PhaseKeepsOthers(Set(cs, w, now), phase, now);
      }
    } else {
      var w := Wanted(PodFailedType, FALSE, "", "");
      SetMeaning(cs, w, now);
      PhaseKeepsInForce(Set(cs, w, now), phase, w, now);
      PhaseKeepsOthers(Set(cs, w, now), phase, now);
    }
  }

  /** Two conditions set one after the other, and then the phase. */
  lemma {:induction false} FailuresInForce(cs: seq<Condition>, w1: Wanted, w2: Wanted, phase: Phase, now: int)
    requires w1.kind != w2.kind && w1.status == TRUE && w2.status == TRUE
    requires w1.kind !in {ReadyType, ProgressingType, PausedType}
    requires w2.kind !in {ReadyType, ProgressingType, PausedType}
    ensures var r := ApplyPhase(Set(Set(cs, w1, now), w2, now), phase, now); InForce(r, w1) && InForce(r, w2)
  {
    SetMeaning(cs, w1, now);
    SetMeaning(Set(cs, w1, now), w2, now);
    OtherSetKeepsInForce(Set(cs, w1, now), w1, w2, now);
    PhaseKeepsInForce(Set(Set(cs, w1, now), w2, now), phase, w1, now);
    PhaseKeepsInForce(Set(Set(cs, w1, now), w2, now), phase, w2, now);
  }
}
