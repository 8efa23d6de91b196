/** Pause and resume of a BatchSandbox: the reconciler as a function of the cluster and of
    what the outside decides during one reconcile. Reads are fresh, a reconcile is atomic
    up to its writes, and every write may fail. */
module Lifecycle {
  import opened Optional
  import opened StatusConditions
  import F = PodFailures
  import Q = QemuRestore

  datatype SnapshotPhase = NoPhase | Waiting | Committing | Done | Broken

  /** The SandboxSnapshot named after the sandbox. deleting: its deletionTimestamp is set. */
  datatype SnapshotObject = SnapshotObject(
    uid: nat, phase: SnapshotPhase, deleting: bool, content: Q.Snapshot, failure: string)

  datatype Pod = Pod(
    name: string,
    index: nat,
    ready: bool,              // Running with a true Ready condition
    deleting: bool,
    placed: bool,             // has a node or an address
    failure: Option<string>,  // a waiting reason that counts as failed
    source: Q.Template)       // the template one gets back from this pod

  datatype Spec = Spec(pause: Option<bool>, replicas: Option<int>, pooled: bool, template: Option<Q.Template>)

  datatype Status = Status(
    phase: Phase,
    pauseObserved: int,       // PauseObservedGeneration
    observed: int,
    replicas: nat,
    placed: nat,
    ready: nat,
    conditions: seq<Condition>)

  datatype Cluster = Cluster(
    name: string,
    generation: int,
    spec: Spec,
    status: Status,
    snapshot: Option<SnapshotObject>,
    nextUid: nat,
    owned: seq<Pod>,          // pods the sandbox owns
    pool: seq<Pod>)           // allocated pool pods still in use

  /** What the outside decides: ok(k) tells whether the write at position k succeeds. */
  datatype Env = Env(now: int, ok: nat -> bool, tasksStopped: bool, scaleSettled: bool, secret: string)

  const STATUS_PATCH: nat := 3
  const SNAPSHOT_DELETE: nat := 4
  const POD_CREATE: nat := 5
  const SUPPORTED_REPLICAS := 1

  // ---- Writes.

  /** A spec write bumps the generation only if the spec really changes. */
  function WithSpec(c: Cluster, spec: Spec): Cluster {
    if spec == c.spec then c else c.(spec := spec, generation := c.generation + 1)
  }

  function Acked(s: Status, generation: int, phase: Phase, now: int): Status {
    s.(pauseObserved := generation, phase := phase, conditions := ApplyPhase(s.conditions, phase, now))
  }

  /** ackPauseWithPhase */
  function Ack(c: Cluster, phase: Phase, now: int): Cluster {
    c.(status := Acked(c.status, c.generation, phase, now))
  }

  /** setCondition */
  function Note(c: Cluster, w: Wanted, now: int): Cluster {
    c.(status := c.status.(conditions := Write(c.status.conditions, w, now)))
  }

  predicate Terminal(s: SnapshotObject) { s.phase.Done? || s.phase.Broken? }

  function DeleteSnapshot(c: Cluster): Cluster
    requires c.snapshot.Some?
  {
    c.(snapshot := Some(c.snapshot.value.(deleting := true)))
  }

  // ---- Pause.

  /** ensureInternalPauseSnapshot, the write at position k */
  function EnsureSnapshot(c: Cluster, env: Env, k: nat): Cluster {
    if env.tasksStopped && env.ok(k) then
      c.(snapshot := Some(SnapshotObject(c.nextUid, NoPhase, false, Q.Snapshot("", [], None), "")),
         nextUid := c.nextUid + 1)
    else c
  }

  function HandlePause(c: Cluster, env: Env): Cluster {
    if c.spec.replicas != Some(SUPPORTED_REPLICAS) then
      var phase := if c.status.phase.Unset? then Succeed else c.status.phase;
      if !env.ok(0) then c
      else
        var c1 := Ack(c, phase, env.now);
        var w := Wanted(PauseFailedType, TRUE, "UnsupportedReplicas", "unsupported replicas");
        if env.ok(1) then Note(c1, w, env.now) else c1
    else if c.snapshot.Some? && c.snapshot.value.deleting then c
    else if c.snapshot.Some? && Terminal(c.snapshot.value) then
      if env.ok(0) then DeleteSnapshot(c) else c
    else
      var c1 := if env.ok(0) then Note(c, Wanted(PauseFailedType, FALSE, "", ""), env.now) else c;
      if !env.ok(1) then c1
      else
        var c2 := Ack(c1, Pausing, env.now);
        if c.snapshot.None? then EnsureSnapshot(c2, env, 2) else c2
  }

  /** How many of the pods are deleted before the first failing delete. */
  function DeletedUpTo(n: nat, ok: nat -> bool, i: nat): nat
    requires i <= n
    decreases n - i
  {
    if i == n || !ok(1 + i) then i else DeletedUpTo(n, ok, i + 1)
  }

  function MarkDeleting(pods: seq<Pod>, k: nat): seq<Pod> {
    if pods == [] || k == 0 then pods else [pods[0].(deleting := true)] + MarkDeleting(pods[1..], k - 1)
  }

  function MarkPaused(c: Cluster, now: int): Cluster {
    c.(status := c.status.(
      phase := Paused,
      pauseObserved := if c.spec.pause == Some(true) then c.generation else c.status.pauseObserved,
      conditions := ApplyPhase(c.status.conditions, Paused, now)))
  }

  /** Write 0 detaches from the pool, writes 1.. delete pods, the last one sets Paused. */
  function CompletePause(c: Cluster, env: Env): Cluster {
    if c.spec.pooled then
      if c.pool == [] || !env.ok(0) then c
      else
        var c1 := WithSpec(c, c.spec.(template := Some(c.pool[0].source), pooled := false));
        if env.ok(1) then MarkPaused(c1, env.now) else c1
    else
      var k := DeletedUpTo(|c.owned|, env.ok, 0);
      var c1 := c.(owned := MarkDeleting(c.owned, k));
      if k == |c.owned| && env.ok(1 + k) then MarkPaused(c1, env.now) else c1
  }

  function Listed(c: Cluster, pooled: bool): seq<Pod> { if pooled then c.pool else c.owned }

  function SyncPauseOrClear(c: Cluster, env: Env): Cluster {
    if c.snapshot.None? then EnsureSnapshot(c, env, 0)
    else if c.snapshot.value.phase.Done? then CompletePause(c, env)
    else if c.snapshot.value.phase.Broken? then
      var lost := Listed(c, c.spec.pooled) == [];
      if !env.ok(0) then c
      else
        var c1 := Ack(c, if lost then Failed else Succeed, env.now);
        var reason := if lost then "PodNotFound" else "SnapshotFailed";
        var w := Wanted(PauseFailedType, TRUE, reason, c.snapshot.value.failure);
        if env.ok(1) then Note(c1, w, env.now) else c1
    else c
  }

  // ---- Resume.

  function HandleResume(c: Cluster, env: Env): Cluster {
    var c1 := if env.ok(0) then Note(c, Wanted(ResumeFailedType, FALSE, "", ""), env.now) else c;
    if env.ok(1) then Ack(c1, Resuming, env.now) else c1
  }

  /** The reconciler's own copy of the object, and whether it wrote status in this pass:
      the resource version it then expects makes it skip the runtime status patch. */
  datatype Local = Local(generation: int, spec: Spec, status: Status, wrote: bool)

  function Fresh(c: Cluster): Local { Local(c.generation, c.spec, c.status, false) }

  datatype Progress = Progress(c: Cluster, l: Local, err: bool)

  predicate AnyReady(pods: seq<Pod>) { exists i :: 0 <= i < |pods| && pods[i].ready }

  /** hasReadyResumePod */
  predicate HasReadyResumePod(c: Cluster) {
    (c.spec.pooled && AnyReady(c.pool)) || AnyReady(c.owned)
  }

  function AckBoth(p: Progress, phase: Phase, now: int, ok: bool): Progress {
    if ok then
      p.(c := Ack(p.c, phase, now),
         l := p.l.(status := Acked(p.l.status, p.l.generation, phase, now), wrote := true))
    else p
  }

  function NoteBoth(p: Progress, w: Wanted, now: int, ok: bool): Progress {
    if ok then p.(c := Note(p.c, w, now), l := p.l.(wrote := true)) else p
  }

  /** Why a resume has to be given up, if it has to. */
  function GiveUpReason(c: Cluster): Option<string> {
    if c.snapshot.None? then Some("SnapshotNotFound")
    else
      var s := c.snapshot.value;
      if !s.phase.Done? then Some("SnapshotNotReady")
      else if Q.Images(s.content).None? then Some("InvalidSnapshotImage")
      else if s.content.format == Q.QEMU && (c.spec.template.None? || Q.Inject(c.spec.template.value, s.content).None?)
      then Some("InvalidQEMURestore")
      else None
  }

  /** The spec continueResume writes; None if the restore plan cannot be built after all. */
  function ResumedSpec(c: Cluster, secret: string): Option<Spec>
    requires c.snapshot.Some?
  {
    if c.spec.template.None? then Some(c.spec.(pooled := false))
    else
      var t := Q.Restored(c.spec.template.value, c.snapshot.value.content, secret);
      if t.None? then None else Some(c.spec.(template := Some(t.value), pooled := false))
  }

  function ContinueResume(c: Cluster, env: Env): Progress {
    var p := Progress(c, Fresh(c), false);
    var reason := GiveUpReason(c);
    if c.snapshot.None? && HasReadyResumePod(c) then
      var p1 := AckBoth(p, Succeed, env.now, env.ok(0));
      var p2 := NoteBoth(p1, Wanted(ResumeFailedType, FALSE, "", ""), env.now, env.ok(1));
      NoteBoth(p2, Wanted(PodFailedType, FALSE, "", ""), env.now, env.ok(2))
    else if reason.Some? then
      var p1 := AckBoth(p, Paused, env.now, env.ok(0));
      NoteBoth(p1, Wanted(ResumeFailedType, TRUE, reason.value, reason.value), env.now, env.ok(1))
    else
      var spec := ResumedSpec(c, env.secret);
      if spec.None? || !env.ok(0) then p.(err := true)
      else
        var c1 := WithSpec(c, spec.value);
        Progress(c1, p.l.(generation := c1.generation, spec := c1.spec), false)
  }

  // ---- The normal flow.

  predicate HasIndex(pods: seq<Pod>, i: nat) { exists j :: 0 <= j < |pods| && pods[j].index == i }

  function NewPod(sandbox: string, i: nat, template: Q.Template): Pod {
    Pod(sandbox + "-" + F.Decimal(i), i, false, false, false, None, template)
  }

  datatype Scaled = Scaled(owned: seq<Pod>, ok: bool)

  /** scaleBatchSandbox: creates the missing pods in order, up to the first failure. */
  function CreateMissing(
      name: string, owned: seq<Pod>, template: Option<Q.Template>, ok: nat -> bool, i: nat, n: int): Scaled
    decreases n - i
  {
    if i >= n then Scaled(owned, true)
    else if HasIndex(owned, i) then CreateMissing(name, owned, template, ok, i + 1, n)
    else if template.None? || !ok(POD_CREATE + i) then Scaled(owned, false)
    else CreateMissing(name, owned + [NewPod(name, i, template.value)], template, ok, i + 1, n)
  }

  function CountReady(pods: seq<Pod>): nat {
    if pods == [] then 0
    else CountReady(pods[..|pods| - 1]) + (if pods[|pods| - 1].ready && !pods[|pods| - 1].deleting then 1 else 0)
  }

  function CountPlaced(pods: seq<Pod>): nat {
    if pods == [] then 0 else CountPlaced(pods[..|pods| - 1]) + (if pods[|pods| - 1].placed then 1 else 0)
  }

  function Failures(pods: seq<Pod>): seq<F.Observed> {
    seq(|pods|, i requires 0 <= i < |pods| => F.Observed(pods[i].name, pods[i].failure))
  }

  /** isResumeInFlight */
  predicate ResumeInFlight(l: Local) {
    l.generation > l.status.pauseObserved && l.spec.pause == Some(false)
  }

  function FailedWanted(kind: ConditionType, pods: seq<F.Observed>, lead: F.Prevailing, duringResume: bool): Wanted {
    Wanted(kind, TRUE, lead.reason, F.Message(pods, lead, duringResume))
  }

  /** applyResumingRuntimePhase */
  function ResumingPhase(s: Status, pods: seq<F.Observed>, now: int): Status {
    var lead := F.Prevails(pods);
    if lead.Some? then
      var cs := Set(s.conditions, FailedWanted(ResumeFailedType, pods, lead.value, true), now);
      s.(conditions := Set(cs, FailedWanted(PodFailedType, pods, lead.value, false), now), phase := Failed)
    else if s.ready > 0 then
      s.(phase := Succeed, conditions := Set(s.conditions, Wanted(PodFailedType, FALSE, "", ""), now))
    else s
  }

  /** applySteadyRuntimePhase */
  function SteadyPhase(l: Local, s: Status, pods: seq<F.Observed>, now: int): Status {
    var lead := F.Prevails(pods);
    if lead.Some? then
      if l.status.phase.Failed? then s
      else
        var cs := Set(s.conditions, FailedWanted(PodFailedType, pods, lead.value, false), now);
        var cs :=
          if ResumeInFlight(l) then Set(cs, FailedWanted(ResumeFailedType, pods, lead.value, true), now) else cs;
        s.(conditions := cs, phase := Failed)
    else if s.phase.Failed? then s
    else
      s.(conditions := Set(s.conditions, Wanted(PodFailedType, FALSE, "", ""), now),
         phase := if s.ready > 0 then Succeed else Pending)
  }

  /** buildRuntimeView, with the acknowledgement Reconcile adds outside Resuming. */
  function RuntimeView(l: Local, pods: seq<Pod>, now: int): Status {
    var s := l.status.(
      observed := l.generation, replicas := |pods|, placed := CountPlaced(pods), ready := CountReady(pods));
    var s := match l.status.phase
      case Pausing => s
      case Paused => s
      case Resuming => ResumingPhase(s, Failures(pods), now)
      case _ => SteadyPhase(l, s, Failures(pods), now);
    var s := s.(conditions := ApplyPhase(s.conditions, s.phase, now));
    if !l.status.phase.Resuming? && s.pauseObserved < l.generation then s.(pauseObserved := l.generation) else s
  }

  /** isInitialUnallocatedSandbox */
  predicate InitiallyUnallocated(l: Local, view: Status) {
    view.replicas == 0 && l.status.phase.Unset? && l.spec.replicas.Some? && l.spec.replicas.value > 0
  }

  /** deleteInternalPauseSnapshot */
  function DropSnapshot(c: Cluster, env: Env): Cluster {
    if c.snapshot.Some? && c.snapshot.value.phase.Done? && env.ok(SNAPSHOT_DELETE) then DeleteSnapshot(c) else c
  }

  /** persistRuntimeView */
  function Persist(c: Cluster, l: Local, view: Status, env: Env): Cluster {
    if view != l.status && (InitiallyUnallocated(l, view) || l.wrote || !env.ok(STATUS_PATCH)) then c
    else
      var c1 := if view == l.status then c
                else c.(status := view.(conditions := MergeLifecycle(view.conditions, l.status.conditions)));
      if view.phase.Succeed? then DropSnapshot(c1, env) else c1
  }

  /** Scaling, if this pass is to scale; a sandbox without a replica count stops the pass. */
  function Scale(c: Cluster, l: Local, env: Env): Scaled {
    if l.spec.pooled || l.status.phase.Paused? || !env.scaleSettled then Scaled(c.owned, true)
    else if l.spec.replicas.None? then Scaled(c.owned, false)
    else CreateMissing(c.name, c.owned, l.spec.template, env.ok, 0, l.spec.replicas.value)
  }

  function NormalFlow(c: Cluster, l: Local, env: Env): Cluster {
    var pods := Listed(c, l.spec.pooled);
    var scaled := Scale(c, l, env);
    var c1 := c.(owned := scaled.owned);
    if !scaled.ok then c1 else Persist(c1, l, RuntimeView(l, pods, env.now), env)
  }

  // ---- Dispatch.

  datatype Dispatch = ToContinueResume | ToSyncPause | ToHandlePause | ToHandleResume | ToNormalFlow

  /** dispatchPauseResume */
  function DispatchOf(c: Cluster): Dispatch {
    if c.status.phase.Resuming? then ToContinueResume
    else if c.status.phase.Pausing? then ToSyncPause
    else if c.generation > c.status.pauseObserved && c.spec.pause.Some? then
      (if c.spec.pause.value then ToHandlePause else ToHandleResume)
    else ToNormalFlow
  }

  function Reconcile(c: Cluster, env: Env): Cluster {
    match DispatchOf(c)
    case ToContinueResume =>
      var p := ContinueResume(c, env);
      if p.err then p.c else NormalFlow(p.c, p.l, env)
    case ToSyncPause => SyncPauseOrClear(c, env)
    case ToHandlePause => HandlePause(c, env)
    case ToHandleResume => HandleResume(c, env)
    case ToNormalFlow => NormalFlow(c, Fresh(c), env)
  }
}
