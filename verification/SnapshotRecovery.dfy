/** Recovery of a partly checkpointed workload: the main flow tracks paused containers
    and a VM resume action; it and the signal handler may both try to resume them. */
module SnapshotRecovery {
  import opened Optional

  /** The members of xs in keep, in their original order. */
  function Keep<T(==)>(xs: seq<T>, keep: set<T>): seq<T> {
    if xs == [] then [] else (if xs[0] in keep then [xs[0]] else []) + Keep(xs[1..], keep)
  }

  lemma {:induction false} KeepMembers<T>(xs: seq<T>, keep: set<T>)
    ensures forall x :: x in Keep(xs, keep) <==> x in xs && x in keep
  {
    if xs == [] {
    } else {
      KeepMembers(xs[1..], keep);
    }
  }

  lemma {:induction false} KeepNothing<T>(xs: seq<T>)
    ensures Keep(xs, {}) == []
  {
    if xs == [] {
    } else {
      KeepNothing(xs[1..]);
    }
  }

  /** Tries to resume the containers, last paused first. */
  method TryContainers(ids: seq<string>, resumes: string -> bool) returns (tried: seq<string>, failed: set<string>)
    ensures |tried| == |ids| && forall k :: 0 <= k < |ids| ==> tried[k] == ids[|ids| - 1 - k]
    ensures failed == set id | id in ids && !resumes(id)
  {
    tried, failed := [], {};
    var i := |ids|;
    while i > 0
      invariant 0 <= i <= |ids|
      invariant |tried| == |ids| - i && forall k :: 0 <= k < |tried| ==> tried[k] == ids[|ids| - 1 - k]
      invariant failed == set j | i <= j < |ids| && !resumes(ids[j]) :: ids[j]
    {
      i := i - 1;
      tried := tried + [ids[i]];
      if !resumes(ids[i]) {
        failed := failed + {ids[i]};
      }
    }
  }

  /** The object shared by the main flow and the signal handler. Each method but
      ResumeSource is one critical section; VM resume actions are told apart by number. */
  class Recovery {
    var pausedContainerIDs: seq<string>
    var resumeVirtualMachine: Option<nat>

    constructor ()
      ensures pausedContainerIDs == [] && resumeVirtualMachine == None
    {
      pausedContainerIDs, resumeVirtualMachine := [], None;
    }

    method TrackPausedContainer(id: string)
      modifies this`pausedContainerIDs
      ensures pausedContainerIDs == old(pausedContainerIDs) + [id]
    {
      pausedContainerIDs := pausedContainerIDs + [id];
    }

    method SetVirtualMachineResume(resume: nat)
      modifies this`resumeVirtualMachine
      ensures resumeVirtualMachine == Some(resume)
    {
      resumeVirtualMachine := Some(resume);
    }

    method Disarm()
      modifies this
      ensures pausedContainerIDs == [] && resumeVirtualMachine == None
    {
      pausedContainerIDs := [];
      resumeVirtualMachine := None;
    }

    method Take() returns (ids: seq<string>, vm: Option<nat>)
      modifies this
      ensures ids == old(pausedContainerIDs) && vm == old(resumeVirtualMachine)
      ensures pausedContainerIDs == [] && resumeVirtualMachine == None
    {
      ids, vm := pausedContainerIDs, resumeVirtualMachine;
      pausedContainerIDs := [];
      resumeVirtualMachine := None;
    }

    method Rearm(ids: seq<string>, failed: set<string>, vm: Option<nat>, vmFailed: bool)
      requires vmFailed ==> vm.Some?
      modifies this
      ensures pausedContainerIDs == Keep(ids, failed) + old(pausedContainerIDs)
      ensures resumeVirtualMachine ==
        if vmFailed && old(resumeVirtualMachine).None? then vm else old(resumeVirtualMachine)
    {
      var again: seq<string> := [];
      for i := 0 to |ids|
        invariant again + Keep(ids[i..], failed) == Keep(ids, failed)
        invariant unchanged(this)
      {
        if ids[i] in failed {
          again := again + [ids[i]];
        }
      }
      pausedContainerIDs := again + pausedContainerIDs;
      if vmFailed && resumeVirtualMachine.None? {
        resumeVirtualMachine := vm;
      }
    }

    /** One undisturbed pass: containers are resumed last-paused first, then the VM; what
        failed is armed again as it was, what succeeded is not. */
    method ResumeSource(resumes: string -> bool, vmResumes: bool) returns (tried: seq<string>, ok: bool)
      modifies this
      ensures var ids := old(pausedContainerIDs);
        |tried| == |ids| && forall i :: 0 <= i < |ids| ==> tried[i] == ids[|ids| - 1 - i]
      ensures pausedContainerIDs ==
        Keep(old(pausedContainerIDs), set id | id in old(pausedContainerIDs) && !resumes(id))
      ensures resumeVirtualMachine == if vmResumes then None else old(resumeVirtualMachine)
      ensures ok <==> pausedContainerIDs == [] && resumeVirtualMachine == None
    {
      var ids, vm := Take();
      var failed: set<string>;
      tried, failed := TryContainers(ids, resumes);
      var vmFailed := vm.Some? && !vmResumes;
      KeepMembers(ids, failed);
      KeepNothing(ids);
      if failed != {} || vmFailed {
        Rearm(ids, failed, vm, vmFailed);
      }
      ok := failed == {} && !vmFailed;
      if failed != {} {
        var id :| id in failed;
        assert id in Keep(ids, failed);
      }
    }
  }

  // ---- Any number of callers, interleaved at the lock and at each resume.

  /** A caller of resumeSource. left counts the containers not yet tried, from the front. */
  datatype Caller =
    | Idle
    | Resuming(taken: seq<nat>, left: nat, failed: set<nat>, vm: Option<nat>, vmTried: bool, vmFailed: bool)

  /** Containers and VM actions are numbered in the order they are armed, so they are
      distinct and the numeric order is the tracking order. */
  datatype State = State(
    armed: seq<nat>,
    vm: Option<nat>,
    callers: map<nat, Caller>,
    tracked: nat,
    resumed: set<nat>,
    abandoned: set<nat>,
    registered: nat,
    vmResumed: set<nat>,
    vmDropped: set<nat>)

  datatype Step =
    | Track
    | Register
    | Disarm
    | Take(caller: nat)
    | TryContainer(caller: nat, ok: bool)
    | TryMachine(caller: nat, ok: bool)
    | Finish(caller: nat)

  predicate Busy(s: State, c: nat) { c in s.callers && s.callers[c].Resuming? }

  predicate Enabled(s: State, step: Step) {
    match step
    case Track => true
    case Register => true
    case Disarm => true
    case Take(c) => c in s.callers && s.callers[c].Idle?
    case TryContainer(c, _) => Busy(s, c) && 0 < s.callers[c].left <= |s.callers[c].taken|
    case TryMachine(c, _) => Busy(s, c) && s.callers[c].left == 0 && s.callers[c].vm.Some? && !s.callers[c].vmTried
    case Finish(c) => Busy(s, c) && s.callers[c].left == 0 && (s.callers[c].vm.None? || s.callers[c].vmTried)
  }

  function AsSet<T>(o: Option<T>): set<T> { if o.Some? then {o.value} else {} }

  function Apply(s: State, step: Step): State
    requires Enabled(s, step)
  {
    match step
    case Track => s.(armed := s.armed + [s.tracked], tracked := s.tracked + 1)
    case Register =>
      s.(vm := Some(s.registered), registered := s.registered + 1, vmDropped := s.vmDropped + AsSet(s.vm))
    case Disarm =>
      s.(armed := [], vm := None,
         abandoned := s.abandoned + (set id | id in s.armed), vmDropped := s.vmDropped + AsSet(s.vm))
    case Take(c) =>
      s.(armed := [], vm := None, callers := s.callers[c := Resuming(s.armed, |s.armed|, {}, s.vm, false, false)])
    case TryContainer(c, ok) =>
      var k := s.callers[c];
      var id := k.taken[k.left - 1];
      var k' := k.(left := k.left - 1, failed := if ok then k.failed else k.failed + {id});
      s.(callers := s.callers[c := k'], resumed := if ok then s.resumed + {id} else s.resumed)
    case TryMachine(c, ok) =>
      var k := s.callers[c];
      s.(callers := s.callers[c := k.(vmTried := true, vmFailed := !ok)],
         vmResumed := if ok then s.vmResumed + {k.vm.value} else s.vmResumed)
    case Finish(c) =>
      var k := s.callers[c];
      s.(armed := Keep(k.taken, k.failed) + s.armed,
         vm := if k.vmFailed && s.vm.None? then k.vm else s.vm,
         vmDropped := if k.vmFailed && s.vm.Some? then s.vmDropped + AsSet(k.vm) else s.vmDropped,
         callers := s.callers[c := Idle])
  }

  /** Caller k has container id in its hands: not yet tried, or tried and failed. */
  ghost predicate Holds(k: Caller, id: nat) {
    k.Resuming? && k.left <= |k.taken| && (id in k.taken[..k.left] || id in k.failed)
  }

  ghost predicate InFlight(s: State, c: nat, id: nat) {
    c in s.callers && Holds(s.callers[c], id)
  }

  /** Caller k has VM action v in its hands. */
  ghost predicate HoldsMachine(k: Caller, v: nat) {
    k.Resuming? && k.vm == Some(v) && (k.vmTried ==> k.vmFailed)
  }

  ghost predicate MachineInFlight(s: State, c: nat, v: nat) {
    c in s.callers && HoldsMachine(s.callers[c], v)
  }

  ghost predicate NoDuplicates(xs: seq<nat>) {
    forall i, j :: 0 <= i < j < |xs| ==> xs[i] != xs[j]
  }

  /** The shape of a caller's bookkeeping. */
  ghost predicate CallerInv(k: Caller) {
    k.Resuming? ==>
      && NoDuplicates(k.taken) && k.left <= |k.taken|
      && (forall id: nat :: id in k.failed ==> id in k.taken[k.left..])
      && (k.vmFailed ==> k.vmTried && k.vm.Some?)
      && (k.vmTried ==> k.left == 0)
  }

  /** Every tracked container is in exactly one place. */
  ghost predicate ContainersConserved(s: State) {
    && NoDuplicates(s.armed)
    && (forall id: nat :: id in s.armed ==> id < s.tracked && id !in s.resumed && id !in s.abandoned)
    && (forall id: nat :: id in s.resumed ==> id < s.tracked && id !in s.abandoned)
    && (forall id: nat :: id in s.abandoned ==> id < s.tracked)
    && (forall c, id: nat :: InFlight(s, c, id) ==>
          id < s.tracked && id !in s.armed && id !in s.resumed && id !in s.abandoned)
    && (forall c, d, id: nat :: InFlight(s, c, id) && InFlight(s, d, id) ==> c == d)
    && (forall id: nat :: id < s.tracked ==>
          id in s.armed || id in s.resumed || id in s.abandoned || exists c :: InFlight(s, c, id))
  }

  /** Every registered VM action is armed, in flight, resumed or superseded, in one place only. */
  ghost predicate MachineConserved(s: State) {
    && (s.vm.Some? ==> s.vm.value < s.registered && s.vm.value !in s.vmResumed && s.vm.value !in s.vmDropped)
    && (forall v: nat :: v in s.vmResumed ==> v < s.registered && v !in s.vmDropped)
    && (forall v: nat :: v in s.vmDropped ==> v < s.registered)
    && (forall c, v: nat :: MachineInFlight(s, c, v) ==>
          v < s.registered && s.vm != Some(v) && v !in s.vmResumed && v !in s.vmDropped)
    && (forall c, d, v: nat :: MachineInFlight(s, c, v) && MachineInFlight(s, d, v) ==> c == d)
    && (forall v: nat :: v < s.registered ==>
          s.vm == Some(v) || v in s.vmResumed || v in s.vmDropped || exists c :: MachineInFlight(s, c, v))
  }

  ghost predicate CallersInv(s: State) {
    forall c :: c in s.callers ==> CallerInv(s.callers[c])
  }

  ghost predicate Inv(s: State) {
    CallersInv(s) && ContainersConserved(s) && MachineConserved(s)
  }

  ghost predicate Init(s: State) {
    && s.armed == [] && s.vm == None && s.tracked == s.registered == 0
    && s.resumed == s.abandoned == s.vmResumed == s.vmDropped == {}
    && forall c :: c in s.callers ==> s.callers[c].Idle?
  }

  lemma {:induction false} KeepNoDuplicates(xs: seq<nat>, keep: set<nat>)
    requires NoDuplicates(xs)
    ensures NoDuplicates(Keep(xs, keep))
  {
    if xs == [] {
    } else {
      KeepNoDuplicates(xs[1..], keep);
      KeepMembers(xs[1..], keep);
      var rest := Keep(xs[1..], keep);
      assert forall i :: 0 <= i < |rest| ==> rest[i] in rest;
    }
  }

  /** Replacing one caller moves only that caller's containers. */
  lemma {:induction false} OtherCallersKeep(s: State, t: State, c: nat)
    requires c in s.callers && c in t.callers && t.callers == s.callers[c := t.callers[c]]
    ensures forall d, id: nat :: d != c ==> InFlight(t, d, id) == InFlight(s, d, id)
    ensures forall d, v: nat :: d != c ==> MachineInFlight(t, d, v) == MachineInFlight(s, d, v)
  {
  }

  lemma {:induction false} ArmingPreserves(s: State, step: Step)
    requires Inv(s) && Enabled(s, step) && (step.Track? || step.Register? || step.Disarm?)
    ensures Inv(Apply(s, step))
  {
    var t := Apply(s, step);
    assert forall c, id: nat :: InFlight(t, c, id) == InFlight(s, c, id);
    assert forall c, v: nat :: MachineInFlight(t, c, v) == MachineInFlight(s, c, v);
    assert s.tracked !in s.armed;
    assert step.Track? ==> forall id :: id in t.armed <==> id in s.armed || id == s.tracked;
  }

  lemma {:induction false} TakePreserves(s: State, c: nat)
    requires Inv(s) && Enabled(s, Take(c))
    ensures Inv(Apply(s, Take(c)))
  {
    var t := Apply(s, Take(c));
    OtherCallersKeep(s, t, c);
    assert s.armed[..|s.armed|] == s.armed;
    assert forall id: nat :: InFlight(t, c, id) <==> id in s.armed;
    assert forall id: nat :: !InFlight(s, c, id);
    assert forall v: nat :: MachineInFlight(t, c, v) <==> s.vm == Some(v);
    assert forall v: nat :: !MachineInFlight(s, c, v);
    assert forall id: nat, d :: InFlight(s, d, id) ==> InFlight(t, d, id);
    assert forall v: nat, d :: MachineInFlight(s, d, v) ==> MachineInFlight(t, d, v);
  }

  lemma {:induction false} TryContainerPreserves(s: State, c: nat, ok: bool)
    requires Inv(s) && Enabled(s, TryContainer(c, ok))
    ensures Inv(Apply(s, TryContainer(c, ok)))
    ensures var k := s.callers[c]; k.taken[k.left - 1] !in s.resumed
  {
    var t := Apply(s, TryContainer(c, ok));
    var k, k' := s.callers[c], t.callers[c];
    var id := k.taken[k.left - 1];
    OtherCallersKeep(s, t, c);
    assert k.taken[..k.left] == k.taken[..k.left - 1] + [id];
    assert k.taken[k.left - 1..] == [id] + k.taken[k.left..];
    assert id in k.taken[..k.left] && InFlight(s, c, id);
    assert id !in k.taken[..k.left - 1] && id !in k.taken[k.left..];
    assert forall x: nat :: InFlight(t, c, x) <==> InFlight(s, c, x) && (ok ==> x != id);
    assert forall d, v: nat :: MachineInFlight(t, d, v) == MachineInFlight(s, d, v);
    assert CallerInv(k');
    ConservedWhenMoved(s, t, c, id, ok);
  }

  /** Container id leaves caller c for the resumed ones, or stays. */
  lemma {:induction false} ConservedWhenMoved(s: State, t: State, c: nat, id: nat, moved: bool)
    requires ContainersConserved(s) && InFlight(s, c, id)
    requires t.armed == s.armed && t.tracked == s.tracked && t.abandoned == s.abandoned
    requires t.resumed == if moved then s.resumed + {id} else s.resumed
    requires forall d, x: nat :: d != c ==> InFlight(t, d, x) == InFlight(s, d, x)
    requires forall x: nat :: InFlight(t, c, x) <==> InFlight(s, c, x) && (moved ==> x != id)
    ensures ContainersConserved(t)
  {
    forall x: nat | x < t.tracked
      ensures x in t.armed || x in t.resumed || x in t.abandoned || exists d :: InFlight(t, d, x)
    {
      if d :| InFlight(s, d, x) {
        assert InFlight(t, d, x) || (moved && x == id);
      }
    }
  }

  lemma {:induction false} TryMachinePreserves(s: State, c: nat, ok: bool)
    requires Inv(s) && Enabled(s, TryMachine(c, ok))
    ensures Inv(Apply(s, TryMachine(c, ok)))
    ensures s.callers[c].vm.value !in s.vmResumed
  {
    var t := Apply(s, TryMachine(c, ok));
    var k, v := s.callers[c], s.callers[c].vm.value;
    OtherCallersKeep(s, t, c);
    assert forall d, id: nat :: InFlight(t, d, id) == InFlight(s, d, id);
    assert MachineInFlight(s, c, v);
    assert forall x: nat :: MachineInFlight(t, c, x) <==> MachineInFlight(s, c, x) && (ok ==> x != v);
    forall x: nat | x < t.registered
      ensures t.vm == Some(x) || x in t.vmResumed || x in t.vmDropped || exists d :: MachineInFlight(t, d, x)
    {
      if d :| MachineInFlight(s, d, x) {
        assert MachineInFlight(t, d, x) || (ok && x == v);
      }
    }
  }

  lemma {:induction false} FinishContainers(s: State, c: nat)
    requires Inv(s) && Enabled(s, Finish(c))
    ensures ContainersConserved(Apply(s, Finish(c)))
  {
    var t := Apply(s, Finish(c));
    var k := s.callers[c];
    OtherCallersKeep(s, t, c);
    KeepMembers(k.taken, k.failed);
    KeepNoDuplicates(k.taken, k.failed);
    assert k.taken[k.left..] == k.taken && k.taken[..0] == [];
    assert forall id: nat :: id in Keep(k.taken, k.failed) <==> InFlight(s, c, id);
    var again := Keep(k.taken, k.failed);
    assert forall i :: 0 <= i < |again| ==> again[i] in again;
    assert forall id: nat :: id in t.armed <==> id in again || id in s.armed;
    assert forall id: nat :: !InFlight(t, c, id);
    forall x: nat | x < t.tracked
      ensures x in t.armed || x in t.resumed || x in t.abandoned || exists d :: InFlight(t, d, x)
    {
      if d :| InFlight(s, d, x) {
        assert d != c ==> InFlight(t, d, x);
      }
    }
  }

  lemma {:induction false} FinishMachine(s: State, c: nat)
    requires Inv(s) && Enabled(s, Finish(c))
    ensures MachineConserved(Apply(s, Finish(c)))
  {
    var t := Apply(s, Finish(c));
    var k := s.callers[c];
    OtherCallersKeep(s, t, c);
    assert forall v: nat :: !MachineInFlight(t, c, v);
    assert k.vmFailed ==> MachineInFlight(s, c, k.vm.value);
    forall x: nat | x < t.registered
      ensures t.vm == Some(x) || x in t.vmResumed || x in t.vmDropped || exists d :: MachineInFlight(t, d, x)
    {
      if d :| MachineInFlight(s, d, x) {
        assert d != c ==> MachineInFlight(t, d, x);
      }
    }
  }

  lemma {:induction false} StepPreserves(s: State, step: Step)
    requires Inv(s) && Enabled(s, step)
    ensures Inv(Apply(s, step))
  {
    match step
    case Take(c) => TakePreserves(s, c);
    case TryContainer(c, ok) => TryContainerPreserves(s, c, ok);
    case TryMachine(c, ok) => TryMachinePreserves(s, c, ok);
    case Finish(c) => FinishContainers(s, c); FinishMachine(s, c);
    case _ => ArmingPreserves(s, step);
  }

  ghost predicate IsRun(states: seq<State>, steps: seq<Step>) {
    && |states| == |steps| + 1
    && Init(states[0])
    && forall i :: 0 <= i < |steps| ==> Enabled(states[i], steps[i]) && states[i + 1] == Apply(states[i], steps[i])
  }

  lemma {:induction false} InvHoldsAlongRun(states: seq<State>, steps: seq<Step>, n: nat)
    requires IsRun(states, steps) && n < |states|
    ensures Inv(states[n])
    ensures (forall i :: 0 <= i < n ==> !steps[i].Disarm?) ==> states[n].abandoned == {}
  {
    if n == 0 {
    } else {
      InvHoldsAlongRun(states, steps, n - 1);
      StepPreserves(states[n - 1], steps[n - 1]);
    }
  }

  /** In every interleaving each tracked container is armed, in flight in one caller,
      resumed, or abandoned by a disarm, and in only one of these places; the same for VM
      actions, which a newer one may also supersede. */
  lemma {:induction false} NothingLostOrRepeated(states: seq<State>, steps: seq<Step>, n: nat, id: nat)
    requires IsRun(states, steps) && n < |states|
    ensures var s := states[n];
      && (id < s.tracked <==> id in s.armed || id in s.resumed || id in s.abandoned || exists c :: InFlight(s, c, id))
      && !(id in s.armed && id in s.resumed) && (id in s.abandoned ==> id !in s.armed && id !in s.resumed)
      && (forall c :: InFlight(s, c, id) ==> id !in s.armed && id !in s.resumed && id !in s.abandoned)
      && (forall c, d :: InFlight(s, c, id) && InFlight(s, d, id) ==> c == d)
      && (forall i, j :: 0 <= i < j < |s.armed| ==> s.armed[i] != s.armed[j])
      && ((forall i :: 0 <= i < n ==> !steps[i].Disarm?) ==> id !in s.abandoned)
    ensures var s := states[n];
      && (id < s.registered <==>
            s.vm == Some(id) || id in s.vmResumed || id in s.vmDropped || exists c :: MachineInFlight(s, c, id))
      && (s.vm == Some(id) || id in s.vmDropped ==> id !in s.vmResumed)
      && (forall c :: MachineInFlight(s, c, id) ==> s.vm != Some(id) && id !in s.vmResumed && id !in s.vmDropped)
      && (forall c, d :: MachineInFlight(s, c, id) && MachineInFlight(s, d, id) ==> c == d)
  {
    InvHoldsAlongRun(states, steps, n);
  }

  // ---- Order.

  ghost predicate Increasing(xs: seq<nat>) {
    forall i, j :: 0 <= i < j < |xs| ==> xs[i] < xs[j]
  }

  lemma {:induction false} KeepIncreasing(xs: seq<nat>, keep: set<nat>)
    requires Increasing(xs)
    ensures Increasing(Keep(xs, keep))
  {
    if xs == [] {
    } else {
      KeepIncreasing(xs[1..], keep);
      KeepMembers(xs[1..], keep);
      var rest := Keep(xs[1..], keep);
      assert forall i :: 0 <= i < |rest| ==> rest[i] in rest;
    }
  }

  /** Every list the callers hold, and the armed one, is in tracking order. */
  ghost predicate ListsInOrder(s: State) {
    && Increasing(s.armed)
    && (forall c :: Busy(s, c) ==> Increasing(s.callers[c].taken))
  }

  /** What failed in call c was tracked before everything armed by now. */
  predicate FailedBeforeArmed(s: State, c: nat)
    requires Busy(s, c)
  {
    var k := s.callers[c];
    forall i, j :: 0 <= i < |k.taken| && 0 <= j < |s.armed| && k.taken[i] in k.failed ==> k.taken[i] < s.armed[j]
  }

  /** Putting the failed ones in front keeps the order exactly if they come first. */
  lemma {:induction false} FrontKeepsOrderIff(taken: seq<nat>, failed: set<nat>, armed: seq<nat>)
    requires Increasing(taken) && Increasing(armed)
    ensures Increasing(Keep(taken, failed) + armed) <==>
      forall i, j :: 0 <= i < |taken| && 0 <= j < |armed| && taken[i] in failed ==> taken[i] < armed[j]
  {
    var again := Keep(taken, failed);
    var all := again + armed;
    KeepIncreasing(taken, failed);
    KeepMembers(taken, failed);
    if Increasing(all) {
      forall i, j | 0 <= i < |taken| && 0 <= j < |armed| && taken[i] in failed
        ensures taken[i] < armed[j]
      {
        assert taken[i] in again;
        var k :| 0 <= k < |again| && again[k] == taken[i];
        assert all[k] == again[k] && all[|again| + j] == armed[j];
      }
    } else if forall i, j :: 0 <= i < |taken| && 0 <= j < |armed| && taken[i] in failed ==> taken[i] < armed[j] {
      FrontIsSmaller(taken, failed, armed);
    }
  }

  lemma {:induction false} FrontIsSmaller(taken: seq<nat>, failed: set<nat>, armed: seq<nat>)
    requires Increasing(taken) && Increasing(armed)
    requires forall i, j :: 0 <= i < |taken| && 0 <= j < |armed| && taken[i] in failed ==> taken[i] < armed[j]
    ensures Increasing(Keep(taken, failed) + armed)
  {
    var again := Keep(taken, failed);
    KeepIncreasing(taken, failed);
    KeepMembers(taken, failed);
    forall k, j | 0 <= k < |again| && 0 <= j < |armed|
      ensures again[k] < armed[j]
    {
      assert again[k] in again;
      var i :| 0 <= i < |taken| && taken[i] == again[k];
    }
  }

  /** One step: only finishing a call can break the order, and exactly when some failed
      container was tracked after an armed one. */
  lemma {:induction false} OrderStep(s: State, step: Step)
    requires Inv(s) && ListsInOrder(s) && Enabled(s, step)
    ensures ListsInOrder(Apply(s, step)) <==> Increasing(Apply(s, step).armed)
    ensures Increasing(Apply(s, step).armed) <==> (step.Finish? ==> FailedBeforeArmed(s, step.caller))
  {
    var t := Apply(s, step);
    match step
    case Track => assert forall i :: 0 <= i < |s.armed| ==> s.armed[i] in s.armed;
    case Finish(c) =>
      FrontKeepsOrderIff(s.callers[c].taken, s.callers[c].failed, s.armed);
      assert forall d :: Busy(t, d) ==> Busy(s, d) && t.callers[d] == s.callers[d];
    case Take(c) => assert forall d :: d != c && Busy(t, d) ==> Busy(s, d) && t.callers[d] == s.callers[d];
    case _ => assert forall d :: Busy(t, d) ==> Busy(s, d) && t.callers[d].taken == s.callers[d].taken;
  }

  /** Whenever a call finishes, what failed in it was tracked before what is armed. */
  ghost predicate FinishesInOrder(states: seq<State>, steps: seq<Step>, n: nat)
    requires IsRun(states, steps) && n <= |steps|
  {
    forall i :: 0 <= i < n && steps[i].Finish? ==> FailedBeforeArmed(states[i], steps[i].caller)
  }

  lemma {:induction false} InOrderAlongRun(states: seq<State>, steps: seq<Step>, n: nat)
    requires IsRun(states, steps) && n <= |steps|
    requires FinishesInOrder(states, steps, n) || forall k :: 0 <= k <= n ==> Increasing(states[k].armed)
    ensures ListsInOrder(states[n])
  {
    if n == 0 {
    } else {
      InOrderAlongRun(states, steps, n - 1);
      InvHoldsAlongRun(states, steps, n - 1);
      OrderStep(states[n - 1], steps[n - 1]);
    }
  }

  /** In every run the armed containers stay in tracking order, so that each attempt
      resumes last-paused first, if and only if no call finishes with a failed container
      tracked after one that is armed by then. */
  lemma {:induction false} OrderKeptIff(states: seq<State>, steps: seq<Step>)
    requires IsRun(states, steps)
    ensures (forall k :: 0 <= k < |states| ==> Increasing(states[k].armed)) <==> FinishesInOrder(states, steps, |steps|)
  {
    if FinishesInOrder(states, steps, |steps|) {
      forall k | 0 <= k < |states|
        ensures Increasing(states[k].armed)
      {
        InOrderAlongRun(states, steps, k);
      }
    } else if forall k :: 0 <= k < |states| ==> Increasing(states[k].armed) {
      forall i | 0 <= i < |steps| && steps[i].Finish?
        ensures FailedBeforeArmed(states[i], steps[i].caller)
      {
        InOrderAlongRun(states, steps, i);
        InvHoldsAlongRun(states, steps, i);
        OrderStep(states[i], steps[i]);
        assert Increasing(states[i + 1].armed);
      }
    }
  }

  /** Callers take turns: resumeSource is entered only while no other call is in progress. */
  ghost predicate TurnTaking(states: seq<State>, steps: seq<Step>)
    requires IsRun(states, steps)
  {
    forall i, c :: 0 <= i < |steps| && steps[i].Take? && Busy(states[i], c) ==> false
  }

  /** One call at a time, and what it took was tracked before everything armed since. */
  ghost predicate OneCall(s: State) {
    && (forall c, d :: Busy(s, c) && Busy(s, d) ==> c == d)
    && (forall c, id :: Busy(s, c) && id in s.callers[c].taken ==> id < s.tracked)
    && (forall c, i, j :: Busy(s, c) && 0 <= i < |s.callers[c].taken| && 0 <= j < |s.armed| ==>
          s.callers[c].taken[i] < s.armed[j])
  }

  lemma {:induction false} OneCallStep(s: State, step: Step)
    requires Inv(s) && OneCall(s) && Enabled(s, step)
    requires step.Take? ==> forall c :: !Busy(s, c)
    ensures OneCall(Apply(s, step))
  {
    var t := Apply(s, step);
    match step
    case Track =>
      assert forall c :: Busy(t, c) ==> Busy(s, c) && t.callers[c] == s.callers[c];
      assert forall c, i :: Busy(s, c) && 0 <= i < |s.callers[c].taken| ==> s.callers[c].taken[i] in s.callers[c].taken;
    case Take(c) => assert forall d :: d != c ==> Busy(t, d) == Busy(s, d);
    case Finish(c) =>
      assert Busy(s, c);
      assert forall d :: d != c ==> Busy(t, d) == Busy(s, d);
    case _ => assert forall d :: Busy(t, d) ==> Busy(s, d) && t.callers[d].taken == s.callers[d].taken;
  }

  lemma {:induction false} OneCallAlongRun(states: seq<State>, steps: seq<Step>, n: nat)
    requires IsRun(states, steps) && TurnTaking(states, steps) && n < |states|
    ensures OneCall(states[n])
  {
    if n == 0 {
    } else {
      OneCallAlongRun(states, steps, n - 1);
      InvHoldsAlongRun(states, steps, n - 1);
      OneCallStep(states[n - 1], steps[n - 1]);
    }
  }

  /** When calls take turns, the order is kept; what a call took, followed by what was
      armed since, is in tracking order too. */
  lemma {:induction false} TurnsKeepTrackingOrder(states: seq<State>, steps: seq<Step>, n: nat)
    requires IsRun(states, steps) && TurnTaking(states, steps) && n < |states|
    ensures Increasing(states[n].armed)
    ensures forall c :: Busy(states[n], c) ==> Increasing(states[n].callers[c].taken + states[n].armed)
  {
    forall i | 0 <= i < |steps| && steps[i].Finish?
      ensures FailedBeforeArmed(states[i], steps[i].caller)
    {
      OneCallAlongRun(states, steps, i);
    }
    OrderKeptIff(states, steps);
    InOrderAlongRun(states, steps, n);
    OneCallAlongRun(states, steps, n);
  }

  /** Calls 0 and 1 hold one failed container each. */
  predicate TwoFailedCalls(s: State) {
    && s.armed == [] && 0 in s.callers && 1 in s.callers
    && s.callers[0] == Resuming([0], 0, {0}, None, false, false)
    && s.callers[1] == Resuming([1], 0, {1}, None, false, false)
  }

  lemma {:induction false} TwoFailedCallsFinish(s: State)
    requires TwoFailedCalls(s)
    ensures Enabled(s, Finish(0)) && Enabled(Apply(s, Finish(0)), Finish(1))
    ensures Apply(Apply(s, Finish(0)), Finish(1)).armed == [1, 0]
  {
    assert Keep([0], {0}) == [0] && Keep([1], {1}) == [1];
  }

  /** When two calls overlap the order between their containers can be lost: each call
      keeps its own order, but whoever finishes last goes in front. */
  lemma {:induction false} OverlappingCallsLoseOrder() returns (states: seq<State>, steps: seq<Step>)
    ensures IsRun(states, steps) && !TurnTaking(states, steps)
    ensures states[|steps|].armed == [1, 0] && !Increasing(states[|steps|].armed)
  {
    states, steps := OverlappingCallsFail();
    var n := |steps|;
    TwoFailedCallsFinish(states[n]);
    var t := Apply(states[n], Finish(0));
    states, steps := states + [t], steps + [Finish(0)];
    states, steps := states + [Apply(t, Finish(1))], steps + [Finish(1)];
    assert steps[4].Take? && Busy(states[4], 0);
    assert states[|steps|].armed[0] > states[|steps|].armed[1];
  }

  /** A container is tracked, and an idle caller takes it and fails to resume it. */
  lemma {:induction false} OneCallFails(s: State, c: nat) returns (t: State)
    requires s.armed == [] && s.vm == None && Enabled(s, Take(c))
    ensures Enabled(s, Track) && Enabled(Apply(s, Track), Take(c))
    ensures var u := Apply(Apply(s, Track), Take(c));
      Busy(u, c) && Enabled(u, TryContainer(c, false)) && t == Apply(u, TryContainer(c, false))
    ensures t.armed == [] && t.vm == None && t.tracked == s.tracked + 1
    ensures t.callers == s.callers[c := Resuming([s.tracked], 0, {s.tracked}, None, false, false)]
  {
    var u := Apply(Apply(s, Track), Take(c));
    assert u.callers[c] == Resuming([s.tracked], 1, {}, None, false, false);
    t := Apply(u, TryContainer(c, false));
    assert t.callers[c] == Resuming([s.tracked], 0, {s.tracked}, None, false, false);
  }

  lemma {:induction false} OverlappingCallsFail() returns (states: seq<State>, steps: seq<Step>)
    ensures IsRun(states, steps) && |steps| == 6 && TwoFailedCalls(states[6])
    ensures steps[4].Take? && Busy(states[4], 0)
  {
    var s0 := State([], None, map[0 := Idle, 1 := Idle], 0, {}, {}, 0, {}, {});
    var s3 := OneCallFails(s0, 0);
    var s6 := OneCallFails(s3, 1);
    var s1, s4 := Apply(s0, Track), Apply(s3, Track);
    var s2, s5 := Apply(s1, Take(0)), Apply(s4, Take(1));
    states := [s0, s1, s2, s3, s4, s5, s6];
    steps := [Track, Take(0), TryContainer(0, false), Track, Take(1), TryContainer(1, false)];
  }

  /** A VM action that failed to resume is armed again, unless another was registered while
      the call was under way: then the new one stays and the old one is dropped. */
  lemma {:induction false} FailedMachineIsRearmed(s: State, c: nat)
    requires Enabled(s, Take(c)) && s.armed == [] && s.vm.Some?
    ensures var t := Apply(s, Take(c));
      && Enabled(t, TryMachine(c, false)) && Enabled(t, Register)
      && var u, v := Apply(t, TryMachine(c, false)), Apply(Apply(t, Register), TryMachine(c, false));
         && Enabled(u, Finish(c)) && Apply(u, Finish(c)) == s
         && Enabled(v, Finish(c)) && Apply(v, Finish(c)).vm == Some(s.registered)
         && Apply(v, Finish(c)).vmDropped == s.vmDropped + {s.vm.value}
  {
    var t := Apply(s, Take(c));
    var u := Apply(t, TryMachine(c, false));
    assert Keep(s.armed, {}) == [];
    assert Apply(u, Finish(c)).callers == s.callers[c := Idle] == s.callers;
    assert t.vmDropped == s.vmDropped && Apply(t, Register).vmDropped == s.vmDropped;
  }
}
