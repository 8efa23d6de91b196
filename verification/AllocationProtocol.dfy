/** The allocator as a protocol over durable annotations and the in-memory store: syncs
    of different sandboxes interleave, patches fail and are rolled back, the controller
    crashes and recovers, sandboxes come and go. One pool is followed; PoolKeyInjective
    and the store's frame conditions keep the others apart. */
module AllocationProtocol {
  import opened AllocationStore

  const POOL_FINALIZER := "pool.sandbox.opensandbox.io/pool-allocation"

  // ---- The two annotation writes.

  function WithAllocation(x: BatchSandbox, pods: seq<string>): BatchSandbox {
    x.(allocStatus := Listed(pods),
       finalizers := if POOL_FINALIZER in x.finalizers then x.finalizers else x.finalizers + [POOL_FINALIZER])
  }

  function Without(xs: seq<string>, drop: set<string>): seq<string> {
    if xs == [] then [] else (if xs[0] in drop then [] else [xs[0]]) + Without(xs[1..], drop)
  }

  /** Everything x was given is in the list. */
  predicate CoversAllocation(x: BatchSandbox, pods: seq<string>) {
    forall i :: 0 <= i < |Allocated(x)| ==> Allocated(x)[i] in pods
  }

  function WithReleased(x: BatchSandbox, pods: seq<string>): BatchSandbox {
    x.(allocReleased := Listed(pods),
       finalizers := if x.terminating && CoversAllocation(x, pods) then Without(x.finalizers, {POOL_FINALIZER})
                     else x.finalizers)
  }

  /** An allocation sync whose store update is done and whose patch is outstanding. */
  datatype InFlight = InFlight(pods: seq<string>, before: seq<string>)

  datatype State = State(
    key: string,
    sandboxes: map<string, BatchSandbox>,   // the durable objects of this pool, by name
    held: Holding,                          // this pool's entry of the in-memory store
    up: bool,                               // recovered and not crashed since
    allocating: map<string, InFlight>,
    releasing: map<string, seq<string>>)    // patched as released, store not yet updated

  datatype Step =
    | BeginAllocation(name: string, pods: seq<string>)
    | CommitAllocation(name: string)
    | RollbackAllocation(name: string)
    | CommitRelease(name: string, pods: seq<string>)
    | ApplyRelease(name: string)
    | ReleaseOrphans(pods: seq<string>)
    | CreateSandbox(x: BatchSandbox)        // created, or bound to the pool again
    | EditSandbox(x: BatchSandbox)
    | RemoveSandbox(name: string)           // deleted, or detached from the pool
    | Crash
    | Recover(items: seq<BatchSandbox>)

  ghost predicate WellFormed(s: State) {
    && (forall n :: n in s.sandboxes ==> s.sandboxes[n].name == n && InPool(s.sandboxes[n], s.key))
    && (!s.up ==> s.allocating == map[] && s.releasing == map[])
  }

  /** n's alloc-status names p, is about to name it, or n is about to free it. */
  ghost predicate Claims(s: State, n: string, p: string) {
    || (n in s.sandboxes && p in Allocated(s.sandboxes[n]))
    || (n in s.allocating && (p in s.allocating[n].pods || p in s.allocating[n].before))
    || (n in s.releasing && p in s.releasing[n])
  }

  /** n uses p, or will if its outstanding patch goes through. */
  ghost predicate Uses(s: State, n: string, p: string) {
    n in s.sandboxes && Claims(s, n, p) && p !in Released(s.sandboxes[n])
  }

  // ---- What the caller must guarantee.

  /** The list extends n's own and takes no pod another sandbox uses or names. */
  ghost predicate MayAllocate(s: State, n: string, pods: seq<string>)
    requires n in s.sandboxes
  {
    && (forall p :: p in Allocated(s.sandboxes[n]) ==> p in pods)
    && (forall m, p :: m != n && p in pods ==>
          !Uses(s, m, p) && (p !in Released(s.sandboxes[n]) ==> !Claims(s, m, p)))
  }

  /** The list keeps what was released before and adds own allocated pods only. */
  ghost predicate MayRelease(x: BatchSandbox, pods: seq<string>) {
    && (forall p :: p in Released(x) ==> p in pods)
    && (forall p :: p in pods ==> p in Allocated(x))
  }

  /** The pods x brings along as in use are held for it and named by nobody else, and nobody
      uses one it names; true of every sandbox without lists. */
  ghost predicate MayEnter(s: State, x: BatchSandbox) {
    && (s.up ==> forall p :: p in Live(x) ==> p in s.held && s.held[p] == x.name)
    && (forall m, p :: m != x.name && p in Allocated(x) ==> !Uses(s, m, p) && (p in Live(x) ==> !Claims(s, m, p)))
  }

  ghost predicate ListsPool(s: State, items: seq<BatchSandbox>) {
    && DistinctNames(items, s.key)
    && (forall i :: 0 <= i < |items| ==> Readable(items[i]))
    && (forall i :: 0 <= i < |items| && InPool(items[i], s.key) ==>
          items[i].name in s.sandboxes && s.sandboxes[items[i].name] == items[i])
    && (forall n :: n in s.sandboxes ==> s.sandboxes[n] in items)
  }

  ghost predicate Enabled(s: State, step: Step) {
    match step
    case BeginAllocation(n, pods) =>
      && s.up && n in s.sandboxes && n !in s.allocating && n !in s.releasing
      && MayAllocate(s, n, pods)
    case CommitAllocation(n) => s.up && n in s.allocating && n in s.sandboxes
    case RollbackAllocation(n) => s.up && n in s.allocating
    case CommitRelease(n, pods) =>
      && s.up && n in s.sandboxes && n !in s.allocating && n !in s.releasing
      && MayRelease(s.sandboxes[n], pods)
    case ApplyRelease(n) => s.up && n in s.releasing
    case ReleaseOrphans(pods) => s.up && forall n, p :: p in pods ==> !Uses(s, n, p)
    case CreateSandbox(x) =>
      && InPool(x, s.key) && x.name !in s.sandboxes && x.name !in s.allocating && x.name !in s.releasing
      && MayEnter(s, x)
    case EditSandbox(x) =>
      && x.name in s.sandboxes && InPool(x, s.key)
      && x.allocStatus == s.sandboxes[x.name].allocStatus
      && x.allocReleased == s.sandboxes[x.name].allocReleased
    case RemoveSandbox(n) => n in s.sandboxes
    case Crash => true
    case Recover(items) => !s.up && ListsPool(s, items)
  }

  ghost function Apply(s: State, step: Step): State
    requires Enabled(s, step)
  {
    match step
    case BeginAllocation(n, pods) =>
      s.(held := Reassign(s.held, n, pods), allocating := s.allocating[n := InFlight(pods, Allocated(s.sandboxes[n]))])
    case CommitAllocation(n) =>
      s.(sandboxes := s.sandboxes[n := WithAllocation(s.sandboxes[n], s.allocating[n].pods)],
         allocating := s.allocating - {n})
    case RollbackAllocation(n) =>
      s.(held := Reassign(s.held, n, s.allocating[n].before), allocating := s.allocating - {n})
    case CommitRelease(n, pods) =>
      s.(sandboxes := s.sandboxes[n := WithReleased(s.sandboxes[n], pods)], releasing := s.releasing[n := pods])
    case ApplyRelease(n) => s.(held := Drop(s.held, s.releasing[n]), releasing := s.releasing - {n})
    case ReleaseOrphans(pods) => s.(held := Drop(s.held, pods))
    case CreateSandbox(x) => s.(sandboxes := s.sandboxes[x.name := x])
    case EditSandbox(x) => s.(sandboxes := s.sandboxes[x.name := x])
    case RemoveSandbox(n) => s.(sandboxes := s.sandboxes - {n})
    case Crash => s.(held := map[], up := false, allocating := map[], releasing := map[])
    case Recover(items) => s.(held := EntryOf(RecoverAll(items), s.key), up := true)
  }

  // ---- The inductive invariant.

  ghost predicate Separated(s: State) {
    forall n, m, p :: n != m && Uses(s, n, p) ==> !Claims(s, m, p)
  }

  ghost predicate Held(s: State) {
    s.up ==> forall n, p :: Uses(s, n, p) ==> p in s.held && s.held[p] == n
  }

  ghost predicate InFlightConsistent(s: State) {
    && (forall n :: n in s.allocating && n in s.sandboxes ==> s.allocating[n].before == Allocated(s.sandboxes[n]))
    && (forall n, p :: n in s.releasing && n in s.sandboxes && p in s.releasing[n] ==> p in Released(s.sandboxes[n]))
    && (forall n :: n in s.allocating ==> n !in s.releasing)
  }

  ghost predicate Inv(s: State) {
    WellFormed(s) && Separated(s) && Held(s) && InFlightConsistent(s)
  }

  /** The promise: after recovery, every pod a sandbox still uses is held by it in the store. */
  ghost predicate Safe(s: State) {
    s.up ==> forall n, p :: n in s.sandboxes && p in Live(s.sandboxes[n]) ==> p in s.held && s.held[p] == n
  }

  /** A controller start: nothing in memory, and annotations that no sandbox shadows. */
  ghost predicate Init(s: State) {
    !s.up && WellFormed(s) && Separated(s)
  }

  /** A step that adds no claim and no use keeps claims separated. */
  lemma {:induction false} ClaimsShrink(s: State, t: State)
    requires Separated(s)
    requires forall n, p :: Uses(t, n, p) ==> Uses(s, n, p)
    requires forall n, p :: Claims(t, n, p) ==> Claims(s, n, p)
    ensures Separated(t)
  {
  }

  lemma {:induction false} BeginPreserves(s: State, n: string, pods: seq<string>)
    requires Inv(s) && Enabled(s, BeginAllocation(n, pods))
    ensures Inv(Apply(s, BeginAllocation(n, pods)))
  {
    var t := Apply(s, BeginAllocation(n, pods));
    assert forall m, p :: m != n ==> Claims(t, m, p) == Claims(s, m, p) && Uses(t, m, p) == Uses(s, m, p);
    assert forall p :: Claims(t, n, p) <==> p in pods;
    assert forall m, p :: m != n && p in pods ==> !Uses(s, m, p);
    assert Separated(t);
    assert Held(t);
  }

  lemma {:induction false} CommitAllocationPreserves(s: State, n: string)
    requires Inv(s) && Enabled(s, CommitAllocation(n))
    ensures Inv(Apply(s, CommitAllocation(n)))
  {
    var t := Apply(s, CommitAllocation(n));
    assert Released(t.sandboxes[n]) == Released(s.sandboxes[n]);
    assert forall m, p :: Claims(t, m, p) ==> Claims(s, m, p);
    assert forall m, p :: Uses(t, m, p) ==> Uses(s, m, p);
    ClaimsShrink(s, t);
  }

  lemma {:induction false} RollbackPreserves(s: State, n: string)
    requires Inv(s) && Enabled(s, RollbackAllocation(n))
    ensures Inv(Apply(s, RollbackAllocation(n)))
  {
    var t := Apply(s, RollbackAllocation(n));
    assert forall m, p :: Claims(t, m, p) ==> Claims(s, m, p);
    assert forall m, p :: Uses(t, m, p) ==> Uses(s, m, p);
    ClaimsShrink(s, t);
    assert forall p :: p in s.allocating[n].before ==> Claims(s, n, p);
    assert Held(t);
  }

  lemma {:induction false} CommitReleasePreserves(s: State, n: string, pods: seq<string>)
    requires Inv(s) && Enabled(s, CommitRelease(n, pods))
    ensures Inv(Apply(s, CommitRelease(n, pods)))
  {
    var t := Apply(s, CommitRelease(n, pods));
    assert Allocated(t.sandboxes[n]) == Allocated(s.sandboxes[n]) && Released(t.sandboxes[n]) == pods;
    assert forall m, p :: Claims(t, m, p) ==> Claims(s, m, p);
    assert forall m, p :: Uses(t, m, p) ==> Uses(s, m, p);
    ClaimsShrink(s, t);
  }

  lemma {:induction false} ApplyReleasePreserves(s: State, n: string)
    requires Inv(s) && Enabled(s, ApplyRelease(n))
    ensures Inv(Apply(s, ApplyRelease(n)))
  {
    var t := Apply(s, ApplyRelease(n));
    assert forall m, p :: Claims(t, m, p) ==> Claims(s, m, p);
    assert forall m, p :: Uses(t, m, p) ==> Uses(s, m, p);
    ClaimsShrink(s, t);
    assert forall p :: p in s.releasing[n] ==> Claims(s, n, p);
    assert Held(t);
  }

  lemma {:induction false} SandboxChangePreserves(s: State, step: Step)
    requires Inv(s) && Enabled(s, step)
    requires step.EditSandbox? || step.RemoveSandbox?
    ensures Inv(Apply(s, step))
  {
    SandboxChangeShrinks(s, step);
    ClaimsShrink(s, Apply(s, step));
  }

  lemma {:induction false} CreatePreserves(s: State, x: BatchSandbox)
    requires Inv(s) && Enabled(s, CreateSandbox(x))
    ensures Inv(Apply(s, CreateSandbox(x)))
  {
    var t := Apply(s, CreateSandbox(x));
    assert forall m, p :: m != x.name ==> Claims(t, m, p) == Claims(s, m, p) && Uses(t, m, p) == Uses(s, m, p);
    assert forall p :: Claims(t, x.name, p) <==> p in Allocated(x);
    assert forall p :: Uses(t, x.name, p) <==> p in Live(x);
    assert Separated(t) && Held(t);
  }

  lemma {:induction false} SandboxChangeShrinks(s: State, step: Step)
    requires WellFormed(s) && Enabled(s, step)
    requires step.EditSandbox? || step.RemoveSandbox?
    ensures forall n, p :: Uses(Apply(s, step), n, p) ==> Uses(s, n, p)
    ensures forall n, p :: Claims(Apply(s, step), n, p) ==> Claims(s, n, p)
  {
  }

  lemma {:induction false} CrashPreserves(s: State)
    requires Inv(s)
    ensures Inv(Apply(s, Crash))
  {
    var t := Apply(s, Crash);
    assert forall m, p :: Claims(t, m, p) ==> Claims(s, m, p);
    assert forall m, p :: Uses(t, m, p) ==> Uses(s, m, p);
    ClaimsShrink(s, t);
  }

  lemma {:induction false} RecoverPreserves(s: State, items: seq<BatchSandbox>)
    requires Inv(s) && Enabled(s, Recover(items))
    ensures Inv(Apply(s, Recover(items)))
  {
    var t := Apply(s, Recover(items));
    assert forall m, p :: Claims(t, m, p) == Claims(s, m, p) && Uses(t, m, p) == Uses(s, m, p);
    assert forall i, p :: 0 <= i < |items| && InPool(items[i], s.key) && p in Live(items[i]) ==>
      Uses(s, items[i].name, p);
    assert forall j, p :: 0 <= j < |items| && Names(items[j], s.key, p) ==> Claims(s, items[j].name, p);
    RecoverSafeIffUserListedLast(items, s.key);
    forall n, p | Uses(t, n, p)
      ensures p in t.held && t.held[p] == n
    {
      assert p in Live(s.sandboxes[n]);
      var i :| 0 <= i < |items| && items[i] == s.sandboxes[n];
      assert p in Live(items[i]);
    }
  }

  lemma {:induction false} StepPreserves(s: State, step: Step)
    requires Inv(s) && Enabled(s, step)
    ensures Inv(Apply(s, step))
  {
    match step
    case BeginAllocation(n, pods) => BeginPreserves(s, n, pods);
    case CommitAllocation(n) => CommitAllocationPreserves(s, n);
    case RollbackAllocation(n) => RollbackPreserves(s, n);
    case CommitRelease(n, pods) => CommitReleasePreserves(s, n, pods);
    case ApplyRelease(n) => ApplyReleasePreserves(s, n);
    case ReleaseOrphans(pods) =>
      var t := Apply(s, step);
      assert forall m, p :: Claims(t, m, p) == Claims(s, m, p) && Uses(t, m, p) == Uses(s, m, p);
    case CreateSandbox(x) => CreatePreserves(s, x);
    case EditSandbox(_) => SandboxChangePreserves(s, step);
    case RemoveSandbox(_) => SandboxChangePreserves(s, step);
    case Crash => CrashPreserves(s);
    case Recover(items) => RecoverPreserves(s, items);
  }

  ghost predicate IsRun(states: seq<State>, steps: seq<Step>) {
    && |states| == |steps| + 1
    && Init(states[0])
    && forall i :: 0 <= i < |steps| ==> Enabled(states[i], steps[i]) && states[i + 1] == Apply(states[i], steps[i])
  }

  lemma {:induction false} InvHoldsAlongRun(states: seq<State>, steps: seq<Step>, k: nat)
    requires IsRun(states, steps) && k < |states|
    ensures Inv(states[k])
  {
    if k == 0 {
    } else {
      InvHoldsAlongRun(states, steps, k - 1);
      StepPreserves(states[k - 1], steps[k - 1]);
    }
  }

  /** Pods of the pool as the scheduler sees them. */
  datatype PodView = PodView(name: string, ready: bool)

  function Available(held: Holding, pods: seq<PodView>): seq<string> {
    if pods == [] then []
    else (if pods[0].name !in held && pods[0].ready then [pods[0].name] else []) + Available(held, pods[1..])
  }

  lemma {:induction false} AvailableIsFree(held: Holding, pods: seq<PodView>, p: string)
    ensures p in Available(held, pods) <==> p !in held && PodView(p, true) in pods
  {
    if pods == [] {
    } else {
      AvailableIsFree(held, pods[1..], p);
    }
  }

  method GetAvailablePodsFromAlloc(held: Holding, pods: seq<PodView>) returns (r: seq<string>)
    ensures r == Available(held, pods)
  {
    r := [];
    for i := 0 to |pods|
      invariant r + Available(held, pods[i..]) == Available(held, pods)
    {
      var rest := Available(held, pods[i + 1..]);
      assert pods[i..][1..] == pods[i + 1..];
      if pods[i].name in held || !pods[i].ready {
        assert Available(held, pods[i..]) == rest;
        continue;
      }
      assert r + ([pods[i].name] + rest) == (r + [pods[i].name]) + rest;
      r := r + [pods[i].name];
    }
  }

  /** In every reachable state after recovery, each pod named in a sandbox's alloc-status
      and not in its alloc-released is held by that sandbox, and is never offered again. */
  lemma {:induction false} LivePodsAreNeverOffered(
      states: seq<State>, steps: seq<Step>, k: nat, n: string, p: string, pods: seq<PodView>)
    requires IsRun(states, steps) && k < |states|
    requires states[k].up && n in states[k].sandboxes && p in Live(states[k].sandboxes[n])
    ensures p in states[k].held && states[k].held[p] == n
    ensures p !in Available(states[k].held, pods)
    ensures forall m :: m in states[k].sandboxes && m != n ==> p !in Allocated(states[k].sandboxes[m])
  {
    var s := states[k];
    InvHoldsAlongRun(states, steps, k);
    assert Uses(s, n, p);
    AvailableIsFree(s.held, pods, p);
    assert forall m :: m in s.sandboxes && p in Allocated(s.sandboxes[m]) ==> Claims(s, m, p);
  }

  /** There are such runs: a controller that starts and recovers any readable sandbox of a
      pool that uses a pod. */
  lemma {:induction false} StartAndRecoverIsRun(x: BatchSandbox, p: string)
    requires Pooled(x) && Readable(x) && p in Live(x)
    ensures var s := State(KeyOf(x), map[x.name := x], map[], false, map[], map[]);
      && Enabled(s, Recover([x]))
      && var t := Apply(s, Recover([x]));
         IsRun([s, t], [Recover([x])]) && t.up && x.name in t.sandboxes && p in Live(t.sandboxes[x.name])
  {
    var s := State(KeyOf(x), map[x.name := x], map[], false, map[], map[]);
    assert [x][0] == x;
    assert forall n, q :: Claims(s, n, q) ==> n == x.name;
  }

  // ---- Exactly when the unguarded operations keep the promise.

  /** Allocation sync with a successful patch, as one step and with no check of its list. */
  ghost function SyncAllocated(s: State, n: string, pods: seq<string>): State
    requires n in s.sandboxes
  {
    s.(held := Reassign(s.held, n, pods), sandboxes := s.sandboxes[n := WithAllocation(s.sandboxes[n], pods)])
  }

  /** Allocation sync whose patch failed: updated, then rolled back. */
  ghost function SyncRolledBack(s: State, n: string, pods: seq<string>): State
    requires n in s.sandboxes
  {
    s.(held := Reassign(Reassign(s.held, n, pods), n, Allocated(s.sandboxes[n])))
  }

  ghost function SyncReleased(s: State, n: string, pods: seq<string>): State
    requires n in s.sandboxes
  {
    s.(held := Drop(s.held, pods), sandboxes := s.sandboxes[n := WithReleased(s.sandboxes[n], pods)])
  }

  /** No pod of the list is in use by another sandbox. */
  ghost predicate NobodyElseUses(s: State, n: string, pods: seq<string>) {
    forall m, p :: m in s.sandboxes && m != n && p in pods ==> p !in Live(s.sandboxes[m])
  }

  lemma {:induction false} SyncAllocatedSafeIff(s: State, n: string, pods: seq<string>)
    requires s.up && Safe(s) && n in s.sandboxes
    ensures Safe(SyncAllocated(s, n, pods)) <==> NobodyElseUses(s, n, pods)
  {
    var t := SyncAllocated(s, n, pods);
    if !NobodyElseUses(s, n, pods) {
      var m, p :| m in s.sandboxes && m != n && p in pods && p in Live(s.sandboxes[m]);
      assert m in t.sandboxes && p in Live(t.sandboxes[m]) && t.held[p] == n;
    } else {
      forall m, p | m in t.sandboxes && p in Live(t.sandboxes[m])
        ensures p in t.held && t.held[p] == m
      {
        if m != n {
          assert p in Live(s.sandboxes[m]);
        }
      }
    }
  }

  lemma {:induction false} SyncRolledBackSafeIff(s: State, n: string, pods: seq<string>)
    requires s.up && Safe(s) && n in s.sandboxes
    ensures Safe(SyncRolledBack(s, n, pods)) <==> NobodyElseUses(s, n, pods + Allocated(s.sandboxes[n]))
  {
    var t := SyncRolledBack(s, n, pods);
    var all := pods + Allocated(s.sandboxes[n]);
    if NobodyElseUses(s, n, all) {
      forall m, p | m in t.sandboxes && p in Live(t.sandboxes[m])
        ensures p in t.held && t.held[p] == m
      {
        RolledBackPod(s, n, pods, p);
        assert m == n || p !in all;
      }
    } else {
      var m, p :| m in s.sandboxes && m != n && p in all && p in Live(s.sandboxes[m]);
      RolledBackPod(s, n, pods, p);
      assert p in Live(t.sandboxes[m]);
    }
  }

  /** What the store says of p after the update and the rollback. */
  lemma {:induction false} RolledBackPod(s: State, n: string, pods: seq<string>, p: string)
    requires n in s.sandboxes
    ensures var h, back := SyncRolledBack(s, n, pods).held, Allocated(s.sandboxes[n]);
      if p in back then p in h && h[p] == n
      else if p in pods then p !in h
      else if p in s.held && s.held[p] != n then p in h && h[p] == s.held[p]
      else p !in h
  {
  }

  lemma {:induction false} SyncReleasedSafeIff(s: State, n: string, pods: seq<string>)
    requires s.up && Safe(s) && n in s.sandboxes
    ensures Safe(SyncReleased(s, n, pods)) <==> NobodyElseUses(s, n, pods) && TakesBackHeld(s, n, pods)
  {
    var t := SyncReleased(s, n, pods);
    if !NobodyElseUses(s, n, pods) {
      var m, p :| m in s.sandboxes && m != n && p in pods && p in Live(s.sandboxes[m]);
      ReleasedPod(s, n, pods, m, p);
    } else if !TakesBackHeld(s, n, pods) {
      var p :| TakenBack(s, n, pods, p) && !(p in s.held && s.held[p] == n);
      ReleasedPod(s, n, pods, n, p);
    } else {
      forall m, p | m in t.sandboxes && p in Live(t.sandboxes[m])
        ensures p in t.held && t.held[p] == m
      {
        ReleasedPod(s, n, pods, m, p);
        assert m == n ==> p in Live(s.sandboxes[n]) || TakenBack(s, n, pods, p);
      }
    }
  }

  /** What the lists and the store say of m and p after n's release. */
  lemma {:induction false} ReleasedPod(s: State, n: string, pods: seq<string>, m: string, p: string)
    requires n in s.sandboxes && m in s.sandboxes
    ensures var t := SyncReleased(s, n, pods);
      && m in t.sandboxes
      && (p in Live(t.sandboxes[m]) <==>
            if m == n then p in Allocated(s.sandboxes[n]) && p !in pods else p in Live(s.sandboxes[m]))
      && (p in t.held <==> p in s.held && p !in pods) && (p in t.held ==> t.held[p] == s.held[p])
  {
  }

  /** n released p before, and the list does not say so any more. */
  predicate TakenBack(s: State, n: string, pods: seq<string>, p: string)
    requires n in s.sandboxes
  {
    p in Allocated(s.sandboxes[n]) && p in Released(s.sandboxes[n]) && p !in pods
  }

  /** Every pod taken back like that is still held by n. */
  ghost predicate TakesBackHeld(s: State, n: string, pods: seq<string>)
    requires n in s.sandboxes
  {
    forall p :: TakenBack(s, n, pods, p) ==> p in s.held && s.held[p] == n
  }

  /** A sandbox entering the pool with whatever lists it has, unchecked. */
  ghost function Entered(s: State, x: BatchSandbox): State {
    s.(sandboxes := s.sandboxes[x.name := x])
  }

  lemma {:induction false} EntrySafeIff(s: State, x: BatchSandbox)
    requires s.up && Safe(s) && x.name !in s.sandboxes
    ensures Safe(Entered(s, x)) <==> forall p :: p in Live(x) ==> p in s.held && s.held[p] == x.name
  {
    var t := Entered(s, x);
    assert t.sandboxes[x.name] == x;
    assert forall m :: m in s.sandboxes ==> m in t.sandboxes && t.sandboxes[m] == s.sandboxes[m];
  }
}
