/** The other half of the allocator's promise: no pod is withheld. Every held pod whose
    owner is listed is one the owner uses or is about to free; exactly two kinds of step
    can break that. */
module AllocationHolding {
  import opened AllocationStore
  import opened AllocationProtocol

  /** The owner of p is gone, uses p, or is about to free it. */
  ghost predicate Justified(s: State, p: string)
    requires p in s.held
  {
    s.held[p] in s.sandboxes ==> Uses(s, s.held[p], p) || (s.held[p] in s.releasing && p in s.releasing[s.held[p]])
  }

  ghost predicate NothingWithheld(s: State) {
    s.up ==> forall p :: p in s.held ==> Justified(s, p)
  }

  /** No allocation names a pod its sandbox has released, and no sandbox enters under a name
      that holds pods it does not use. */
  ghost predicate Tidy(s: State, step: Step) {
    match step
    case BeginAllocation(n, pods) => n in s.sandboxes ==> forall p :: p in pods ==> p !in Released(s.sandboxes[n])
    case CreateSandbox(x) => s.up ==> forall p :: p in s.held && s.held[p] == x.name ==> p in Live(x)
    case _ => true
  }

  /** An outstanding allocation accounts for all its sandbox holds, and names nothing it
      has released. */
  ghost predicate InFlightTidy(s: State) {
    && (forall n, p :: n in s.allocating && p in s.held && s.held[p] == n ==> p in s.allocating[n].pods)
    && (forall n, p :: n in s.allocating && n in s.sandboxes && p in s.allocating[n].pods ==>
          p !in Released(s.sandboxes[n]))
    && (forall n, p :: n in s.allocating && n in s.sandboxes && p in s.allocating[n].before ==>
          p !in Released(s.sandboxes[n]))
  }

  ghost predicate TidyInv(s: State) { NothingWithheld(s) && InFlightTidy(s) }

  lemma {:induction false} BeginStaysTidy(s: State, n: string, pods: seq<string>)
    requires Inv(s) && TidyInv(s) && Enabled(s, BeginAllocation(n, pods)) && Tidy(s, BeginAllocation(n, pods))
    ensures TidyInv(Apply(s, BeginAllocation(n, pods)))
  {
    var t := Apply(s, BeginAllocation(n, pods));
    forall p | p in t.held
      ensures Justified(t, p)
    {
      if t.held[p] != n {
        assert Justified(s, p);
      }
    }
    assert InFlightTidy(t);
  }

  lemma {:induction false} CommitStaysTidy(s: State, n: string)
    requires Inv(s) && TidyInv(s) && Enabled(s, CommitAllocation(n))
    ensures TidyInv(Apply(s, CommitAllocation(n)))
  {
    var t := Apply(s, CommitAllocation(n));
    assert Released(t.sandboxes[n]) == Released(s.sandboxes[n]) && Allocated(t.sandboxes[n]) == s.allocating[n].pods;
    forall p | p in t.held
      ensures Justified(t, p)
    {
      assert Justified(s, p);
    }
  }

  lemma {:induction false} RollbackStaysTidy(s: State, n: string)
    requires Inv(s) && TidyInv(s) && Enabled(s, RollbackAllocation(n))
    ensures TidyInv(Apply(s, RollbackAllocation(n)))
  {
    var t := Apply(s, RollbackAllocation(n));
    forall p | p in t.held
      ensures Justified(t, p)
    {
      if t.held[p] != n {
        assert Justified(s, p);
      }
    }
  }

  lemma {:induction false} ReleaseStaysTidy(s: State, step: Step)
    requires Inv(s) && TidyInv(s) && Enabled(s, step)
    requires step.CommitRelease? || step.ApplyRelease? || step.ReleaseOrphans?
    ensures TidyInv(Apply(s, step))
  {
    var t := Apply(s, step);
    forall p | p in t.held
      ensures Justified(t, p)
    {
      assert p in s.held && Justified(s, p);
    }
  }

  lemma {:induction false} ChangeStaysTidy(s: State, step: Step)
    requires Inv(s) && TidyInv(s) && Enabled(s, step) && Tidy(s, step)
    requires step.CreateSandbox? || step.EditSandbox? || step.RemoveSandbox?
    ensures TidyInv(Apply(s, step))
  {
    var t := Apply(s, step);
    forall p | p in t.held && t.up
      ensures Justified(t, p)
    {
      assert Justified(s, p);
      assert step.CreateSandbox? && s.held[p] == step.x.name ==> p in Live(step.x);
    }
  }

  lemma {:induction false} RecoverIsTidy(s: State, items: seq<BatchSandbox>)
    requires Inv(s) && Enabled(s, Recover(items))
    ensures TidyInv(Apply(s, Recover(items)))
  {
    var t := Apply(s, Recover(items));
    forall p | p in t.held
      ensures Justified(t, p)
    {
      RecoverGivesPodToLastNaming(items, s.key, p);
      var k :| LastNaming(items, s.key, p, k);
      assert items[k].name in s.sandboxes && s.sandboxes[items[k].name] == items[k];
    }
  }

  lemma {:induction false} TidyStepPreserves(s: State, step: Step)
    requires Inv(s) && TidyInv(s) && Enabled(s, step) && Tidy(s, step)
    ensures TidyInv(Apply(s, step))
  {
    match step
    case BeginAllocation(n, pods) => BeginStaysTidy(s, n, pods);
    case CommitAllocation(n) => CommitStaysTidy(s, n);
    case RollbackAllocation(n) => RollbackStaysTidy(s, n);
    case CommitRelease(_, _) => ReleaseStaysTidy(s, step);
    case ApplyRelease(_) => ReleaseStaysTidy(s, step);
    case ReleaseOrphans(_) => ReleaseStaysTidy(s, step);
    case Crash =>
    case Recover(items) => RecoverIsTidy(s, items);
    case _ => ChangeStaysTidy(s, step);
  }

  /** A step that is not tidy withholds a pod at once. */
  lemma {:induction false} UntidyStepWithholds(s: State, step: Step)
    requires Enabled(s, step) && !Tidy(s, step)
    ensures !NothingWithheld(Apply(s, step))
  {
    var t := Apply(s, step);
    match step
    case BeginAllocation(n, pods) =>
      var p :| p in pods && p in Released(s.sandboxes[n]);
      assert p in t.held && t.held[p] == n && !Justified(t, p);
    case CreateSandbox(x) =>
      var p :| p in s.held && s.held[p] == x.name && p !in Live(x);
      assert p in t.held && !Justified(t, p);
    case _ =>
  }

  lemma {:induction false} TidyAlongRun(states: seq<State>, steps: seq<Step>, n: nat)
    requires IsRun(states, steps) && n < |states|
    requires forall i :: 0 <= i < n ==> Tidy(states[i], steps[i])
    ensures TidyInv(states[n])
  {
    if n == 0 {
    } else {
      TidyAlongRun(states, steps, n - 1);
      InvHoldsAlongRun(states, steps, n - 1);
      TidyStepPreserves(states[n - 1], steps[n - 1]);
    }
  }

  /** In every run, no pod is ever withheld if and only if every step is tidy. */
  lemma {:induction false} NothingWithheldIff(states: seq<State>, steps: seq<Step>)
    requires IsRun(states, steps)
    ensures (forall k :: 0 <= k < |states| ==> NothingWithheld(states[k]))
       <==> forall i :: 0 <= i < |steps| ==> Tidy(states[i], steps[i])
  {
    if forall i :: 0 <= i < |steps| ==> Tidy(states[i], steps[i]) {
      forall k | 0 <= k < |states|
        ensures NothingWithheld(states[k])
      {
        TidyAlongRun(states, steps, k);
      }
    } else {
      var i :| 0 <= i < |steps| && !Tidy(states[i], steps[i]);
      UntidyStepWithholds(states[i], steps[i]);
      assert !NothingWithheld(states[i + 1]);
    }
  }

  // ---- Both kinds of untidy step happen.

  /** n is listed, at rest, and uses p. */
  ghost predicate UsesAtRest(s: State, n: string, p: string) {
    && s.up && n in s.sandboxes && n !in s.allocating && n !in s.releasing
    && p in Live(s.sandboxes[n])
  }

  /** After n has released p and the store has freed it. */
  ghost function AfterRelease(s: State, n: string, pods: seq<string>): State
    requires Enabled(s, CommitRelease(n, pods))
  {
    Apply(Apply(s, CommitRelease(n, pods)), ApplyRelease(n))
  }

  lemma {:induction false} ReleaseFrees(s: State, n: string, p: string)
    requires Inv(s) && UsesAtRest(s, n, p)
    requires forall q :: q in Released(s.sandboxes[n]) ==> q in Allocated(s.sandboxes[n])
    ensures var pods := Released(s.sandboxes[n]) + [p];
      && Enabled(s, CommitRelease(n, pods))
      && var t := AfterRelease(s, n, pods);
         && Inv(t) && t.up && n in t.sandboxes && n !in t.allocating && n !in t.releasing
         && p !in t.held && Released(t.sandboxes[n]) == pods
         && Allocated(t.sandboxes[n]) == Allocated(s.sandboxes[n])
         && forall m, q :: Claims(t, m, q) ==> Claims(s, m, q)
  {
    var pods := Released(s.sandboxes[n]) + [p];
    assert forall q :: q in pods <==> q in Released(s.sandboxes[n]) || q == p;
    var u := Apply(s, CommitRelease(n, pods));
    CommitReleasePreserves(s, n, pods);
    ApplyReleasePreserves(u, n);
    assert pods[|pods| - 1] == p;
  }

  /** A sandbox that releases p and then gets one more pod r takes p back into the store,
      because its alloc-status still names p: p is withheld although it was released. */
  lemma {:induction false} GrowingAgainWithholds(s: State, n: string, p: string, r: string)
    requires Inv(s) && UsesAtRest(s, n, p)
    requires forall q :: q in Released(s.sandboxes[n]) ==> q in Allocated(s.sandboxes[n])
    requires forall m :: !Claims(s, m, r)
    ensures var t := AfterRelease(s, n, Released(s.sandboxes[n]) + [p]);
      var pods := Allocated(s.sandboxes[n]) + [r];
      && p !in t.held && Enabled(t, BeginAllocation(n, pods))
      && var u := Apply(Apply(t, BeginAllocation(n, pods)), CommitAllocation(n));
         p in u.held && u.held[p] == n && p in Released(u.sandboxes[n]) && !NothingWithheld(u)
  {
    ReleaseFrees(s, n, p);
    var t := AfterRelease(s, n, Released(s.sandboxes[n]) + [p]);
    var pods := Allocated(s.sandboxes[n]) + [r];
    assert forall q :: q in pods <==> q in Allocated(s.sandboxes[n]) || q == r;
    forall m, q | m != n && q in pods
      ensures !Uses(t, m, q) && (q !in Released(t.sandboxes[n]) ==> !Claims(t, m, q))
    {
      assert q != r ==> Claims(t, n, q) && (q !in Released(t.sandboxes[n]) ==> Uses(t, n, q));
    }
    var u := Apply(Apply(t, BeginAllocation(n, pods)), CommitAllocation(n));
    assert p in Allocated(s.sandboxes[n]) && !Justified(u, p);
  }

  /** A sandbox that goes away and is created again under its name finds its old pods held
      for it, though it names none of them. */
  lemma {:induction false} RecreationWithholds(s: State, x: BatchSandbox, p: string)
    requires Inv(s) && UsesAtRest(s, x.name, p)
    requires InPool(x, s.key) && Allocated(x) == [] && Released(x) == []
    ensures var t := Apply(s, RemoveSandbox(x.name));
      && (NothingWithheld(s) ==> NothingWithheld(t))
      && Enabled(t, CreateSandbox(x))
      && var u := Apply(t, CreateSandbox(x)); p in u.held && u.held[p] == x.name && !NothingWithheld(u)
  {
    var t := Apply(s, RemoveSandbox(x.name));
    assert Uses(s, x.name, p);
    forall q | q in t.held && NothingWithheld(s)
      ensures Justified(t, q)
    {
      assert Justified(s, q);
    }
    UntidyStepWithholds(t, CreateSandbox(x));
  }

  // ---- Coming back with old lists.

  /** A sandbox detached from the pool keeps its alloc-status. Once the pool has freed its
      pods as orphans, binding it to the pool again breaks the promise: p, which its lists
      say it uses, is offered to others. */
  lemma {:induction false} StaleEntryLosesPod(s: State, n: string, p: string, pods: seq<PodView>)
    requires Inv(s) && UsesAtRest(s, n, p) && PodView(p, true) in pods
    ensures var t := Apply(s, RemoveSandbox(n));
      && Enabled(t, ReleaseOrphans([p]))
      && var u := Entered(Apply(t, ReleaseOrphans([p])), s.sandboxes[n]);
         !Safe(u) && p in Live(u.sandboxes[n]) && p in Available(u.held, pods)
  {
    var x := s.sandboxes[n];
    var t := Apply(s, RemoveSandbox(n));
    assert Uses(s, n, p);
    assert forall m :: Uses(t, m, p) ==> Uses(s, m, p) && m != n;
    assert Enabled(t, ReleaseOrphans([p]));
    var u := Apply(t, ReleaseOrphans([p]));
    assert [p][0] == p && p !in u.held;
    StepPreserves(s, RemoveSandbox(n));
    StepPreserves(t, ReleaseOrphans([p]));
    InvIsSafe(u);
    assert x.name == n;
    EntrySafeIff(u, x);
    AvailableIsFree(u.held, pods, p);
  }

  lemma {:induction false} InvIsSafe(s: State)
    requires Inv(s)
    ensures Safe(s)
  {
    assert forall n, p :: n in s.sandboxes && p in Live(s.sandboxes[n]) ==> Uses(s, n, p);
  }

  // ---- The pool finalizer.

  /** An accepted allocation leaves the pool finalizer in place, behind those already there. */
  lemma {:induction false} AllocationPutsFinalizer(x: BatchSandbox, pods: seq<string>)
    ensures var fs := WithAllocation(x, pods).finalizers;
      && POOL_FINALIZER in fs && x.finalizers <= fs
      && (fs != x.finalizers ==> POOL_FINALIZER !in x.finalizers && |fs| == |x.finalizers| + 1)
  {
  }

  /** The sandbox cannot vanish with a pod it still has: the finalizer is there, or all of
      its pods are released. */
  ghost predicate Guarded(x: BatchSandbox) {
    POOL_FINALIZER in x.finalizers || forall p :: p in Allocated(x) ==> p in Released(x)
  }

  /** Nobody takes n's pool finalizer away by an edit. */
  ghost predicate LeavesFinalizer(s: State, step: Step, n: string) {
    step.EditSandbox? && step.x.name == n && n in s.sandboxes && POOL_FINALIZER in s.sandboxes[n].finalizers ==>
      POOL_FINALIZER in step.x.finalizers
  }

  lemma {:induction false} ReleaseStaysGuarded(x: BatchSandbox, pods: seq<string>)
    requires MayRelease(x, pods) && Guarded(x)
    ensures Guarded(WithReleased(x, pods))
  {
    var y := WithReleased(x, pods);
    assert Released(y) == pods && Allocated(y) == Allocated(x);
    if CoversAllocation(x, pods) {
      assert forall p :: p in Allocated(x) ==> p in pods;
    }
  }

  lemma {:induction false} GuardedStep(s: State, step: Step, n: string)
    requires Enabled(s, step) && n in s.sandboxes && n in Apply(s, step).sandboxes
    requires step == CommitAllocation(n) || Guarded(s.sandboxes[n])
    requires LeavesFinalizer(s, step, n)
    ensures Guarded(Apply(s, step).sandboxes[n])
  {
    match step
    case CommitAllocation(m) => AllocationPutsFinalizer(s.sandboxes[m], s.allocating[m].pods);
    case CommitRelease(m, pods) => if m == n { ReleaseStaysGuarded(s.sandboxes[m], pods); }
    case EditSandbox(x) =>
      assert Allocated(x) == Allocated(s.sandboxes[x.name]) && Released(x) == Released(s.sandboxes[x.name]);
    case _ =>
  }

  /** Once a sandbox has been given pods, the controller itself takes the finalizer away
      only when all of them are released, whatever else interleaves. */
  lemma {:induction false} CommittedStaysGuarded(states: seq<State>, steps: seq<Step>, n: string, j: nat, k: nat)
    requires IsRun(states, steps) && j < k <= |steps| && steps[j] == CommitAllocation(n)
    requires forall i :: j < i <= k ==> n in states[i].sandboxes
    requires forall i :: j < i < k ==> LeavesFinalizer(states[i], steps[i], n)
    ensures Guarded(states[k].sandboxes[n])
  {
    if k == j + 1 {
    } else {
      CommittedStaysGuarded(states, steps, n, j, k - 1);
    }
    assert states[k] == Apply(states[k - 1], steps[k - 1]);
    GuardedStep(states[k - 1], steps[k - 1], n);
  }
}
