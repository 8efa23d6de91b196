/** The allocator's requests and syncs: what one scheduling round asks for, what it
    writes, and why its lists respect the protocol's preconditions. */
module AllocationRequests {
  import opened Optional
  import opened AllocationStore
  import opened AllocationProtocol

  datatype SandboxRequest = SandboxRequest(
    sandbox: string,
    curAllocation: seq<string>,
    curReleased: seq<string>,
    podSupplement: int,
    toRelease: seq<string>)

  function ToSet(xs: seq<string>): set<string> { set x | x in xs }

  ghost predicate NoDuplicates(xs: seq<string>) {
    forall i, j :: 0 <= i < j < |xs| ==> xs[i] != xs[j]
  }

  lemma {:induction false} WithoutMembers(xs: seq<string>, drop: set<string>)
    ensures forall x :: x in Without(xs, drop) <==> x in xs && x !in drop
    ensures (forall x :: x in xs ==> x !in drop) ==> Without(xs, drop) == xs
  {
    if xs == [] {
    } else {
      WithoutMembers(xs[1..], drop);
      assert xs == [xs[0]] + xs[1..];
    }
  }

  lemma {:induction false} WithoutSnoc(xs: seq<string>, x: string, drop: set<string>)
    ensures Without(xs + [x], drop) == Without(xs, drop) + (if x in drop then [] else [x])
  {
    if xs == [] {
      assert xs + [x] == [x];
    } else {
      assert (xs + [x])[1..] == xs[1..] + [x];
      WithoutSnoc(xs[1..], x, drop);
    }
  }

  method Subtract(xs: seq<string>, drop: seq<string>) returns (r: seq<string>)
    ensures r == Without(xs, ToSet(drop))
  {
    var dropSet := ToSet(drop);
    r := [];
    for i := 0 to |xs|
      invariant r == Without(xs[..i], dropSet)
    {
      WithoutSnoc(xs[..i], xs[i], dropSet);
      assert xs[..i + 1] == xs[..i] + [xs[i]];
      if xs[i] !in dropSet {
        r := r + [xs[i]];
      }
    }
    assert xs[..|xs|] == xs;
  }

  // ---- Annotation writes.

  /** The pool finalizer goes exactly when a terminating sandbox has released all it was
      given; every other finalizer stays. */
  lemma {:induction false} FinalizerDroppedIff(x: BatchSandbox, pods: seq<string>)
    requires POOL_FINALIZER in x.finalizers
    ensures POOL_FINALIZER !in WithReleased(x, pods).finalizers
       <==> x.terminating && forall p :: p in Allocated(x) ==> p in pods
    ensures Without(WithReleased(x, pods).finalizers, {POOL_FINALIZER}) == Without(x.finalizers, {POOL_FINALIZER})
  {
    WithoutMembers(x.finalizers, {POOL_FINALIZER});
    WithoutMembers(Without(x.finalizers, {POOL_FINALIZER}), {POOL_FINALIZER});
  }

  /** SetReleased: the patched object, or None if the patch was not accepted or the
      allocation of a terminating sandbox cannot be read. */
  method SetReleased(x: BatchSandbox, pods: seq<string>, patched: bool) returns (r: Option<BatchSandbox>)
    ensures r == if (x.terminating && x.allocStatus.Malformed?) || !patched then None else Some(WithReleased(x, pods))
  {
    var y := x.(allocReleased := Listed(pods));
    if x.terminating {
      if x.allocStatus.Malformed? { return None; }
      var releasedSet := ToSet(pods);
      var allReleased := true;
      var i := 0;
      while i < |Allocated(x)| && allReleased
        invariant 0 <= i <= |Allocated(x)|
        invariant allReleased ==> forall j :: 0 <= j < i ==> Allocated(x)[j] in pods
        invariant !allReleased ==> exists j :: 0 <= j < i && Allocated(x)[j] !in pods
        decreases |Allocated(x)| - i
      {
        allReleased := Allocated(x)[i] in releasedSet;
        i := i + 1;
      }
      WithoutMembers(x.finalizers, {POOL_FINALIZER});
      if allReleased && POOL_FINALIZER in x.finalizers {
        var kept := Subtract(x.finalizers, [POOL_FINALIZER]);
        assert ToSet([POOL_FINALIZER]) == {POOL_FINALIZER};
        y := y.(finalizers := kept);
      }
    }
    if !patched { return None; }
    r := Some(y);
  }

  /** The allocator with its store; patched tells whether the API server took the patch. */
  class Allocator {
    const store: InMemoryAllocationStore

    constructor ()
      ensures fresh(store) && store.pools == map[]
    {
      store := new InMemoryAllocationStore();
    }

    method SyncSandboxAllocation(x: BatchSandbox, pods: seq<string>, patched: bool) returns (ok: bool, y: BatchSandbox)
      modifies store
      ensures ok == (patched && !x.allocStatus.Malformed?)
      ensures y == if ok then WithAllocation(x, pods) else x
      ensures x.allocStatus.Malformed? ==> store.pools == old(store.pools)
      ensures !x.allocStatus.Malformed? ==>
        var updated := Reassign(old(store.Entry(x.namespace, x.poolRef)), x.name, pods);
        store.pools == old(store.pools)[KeyOf(x) := if ok then updated else Reassign(updated, x.name, Allocated(x))]
    {
      if x.allocStatus.Malformed? { return false, x; }
      var oldPods := Allocated(x);
      store.UpdateAllocation(x.namespace, x.poolRef, x.name, pods);
      if !patched {
        store.UpdateAllocation(x.namespace, x.poolRef, x.name, oldPods);
        return false, x;
      }
      return true, WithAllocation(x, pods);
    }

    method SyncSandboxReleased(x: BatchSandbox, pods: seq<string>, patched: bool) returns (ok: bool, y: BatchSandbox)
      modifies store
      ensures ok == (patched && !(x.terminating && x.allocStatus.Malformed?))
      ensures y == if ok then WithReleased(x, pods) else x
      ensures store.pools ==
        if ok then old(store.pools)[KeyOf(x) := Drop(old(store.Entry(x.namespace, x.poolRef)), pods)]
        else old(store.pools)
    {
      var r := SetReleased(x, pods, patched);
      if r.None? { return false, x; }
      store.ReleaseAllocation(x.namespace, x.poolRef, pods);
      return true, r.value;
    }
  }

  // ---- Requests.

  function RequestOf(x: BatchSandbox): Option<SandboxRequest> {
    if x.allocStatus.Malformed? || x.allocReleased.Malformed? then None
    else if x.terminating then
      Some(SandboxRequest(x.name, Allocated(x), Released(x), 0, Without(Allocated(x), ToSet(Released(x)))))
    else if x.allocRelease.Malformed? then None
    else
      Some(SandboxRequest(x.name, Allocated(x), Released(x),
                          if x.replicas > |Allocated(x)| then x.replicas - |Allocated(x)| else 0,
                          Without(Pods(x.allocRelease), ToSet(Released(x)))))
  }

  method GetSandboxRequest(x: BatchSandbox) returns (r: Option<SandboxRequest>)
    ensures r == RequestOf(x)
  {
    if x.allocStatus.Malformed? || x.allocReleased.Malformed? { return None; }
    var current, released := Allocated(x), Released(x);
    if x.terminating {
      var queued := Subtract(current, released);
      return Some(SandboxRequest(x.name, current, released, 0, queued));
    }
    if x.allocRelease.Malformed? { return None; }
    var toRelease := Subtract(Pods(x.allocRelease), released);
    var supplement := 0;
    if x.replicas - |current| > 0 {
      supplement := x.replicas - |current|;
    }
    return Some(SandboxRequest(x.name, current, released, supplement, toRelease));
  }

  function Max(a: int, b: int): int { if a > b then a else b }

  /** What a request says: the two lists as they are, the pods still missing from the
      replica count, and the pods asked back that have not been released yet. There is none
      exactly if an annotation it needs cannot be read. */
  lemma {:induction false} RequestMeaning(x: BatchSandbox)
    ensures RequestOf(x).None? <==>
      x.allocStatus.Malformed? || x.allocReleased.Malformed? || (!x.terminating && x.allocRelease.Malformed?)
    ensures RequestOf(x).Some? ==>
      var req := RequestOf(x).value;
      && req.sandbox == x.name && req.curAllocation == Allocated(x) && req.curReleased == Released(x)
      && |Allocated(x)| + req.podSupplement ==
           (if x.terminating then |Allocated(x)| else Max(x.replicas, |Allocated(x)|))
      && forall p :: p in req.toRelease <==>
           p !in Released(x) && p in (if x.terminating then Allocated(x) else Pods(x.allocRelease))
  {
    WithoutMembers(Allocated(x), ToSet(Released(x)));
    WithoutMembers(Pods(x.allocRelease), ToSet(Released(x)));
  }

  /** Every pod x has released is one it was given. */
  ghost predicate ReleasedOwn(x: BatchSandbox) {
    forall p :: p in Released(x) ==> p in Allocated(x)
  }

  /** A terminating sandbox gets nothing new; what it queues, on top of what it released
      before, covers its alloc-status, so releasing that always drops the pool finalizer.
      The release is legal exactly if only own pods were released before. */
  lemma {:induction false} TerminatingRequestDropsFinalizer(x: BatchSandbox)
    requires x.terminating && RequestOf(x).Some?
    ensures var req := RequestOf(x).value;
      && req.podSupplement == 0
      && (forall p :: p in Allocated(x) ==> p in req.curReleased + req.toRelease)
      && (forall p :: p in req.toRelease <==> p in Allocated(x) && p !in req.curReleased)
      && POOL_FINALIZER !in WithReleased(x, req.curReleased + req.toRelease).finalizers
      && (MayRelease(x, req.curReleased + req.toRelease) <==> ReleasedOwn(x))
  {
    WithoutMembers(Allocated(x), ToSet(Released(x)));
    WithoutMembers(x.finalizers, {POOL_FINALIZER});
    RequestedReleaseIsLegalIff(x, RequestOf(x).value.toRelease);
  }

  /** Releasing what a request has had recycled so far, on top of what was released before,
      is legal exactly if only own pods were released before and, unless the sandbox is
      terminating, it asked for pods it was given. */
  lemma {:induction false} RequestedReleaseIsLegalIff(x: BatchSandbox, recycled: seq<string>)
    requires RequestOf(x).Some?
    requires forall p :: p in recycled ==> p in RequestOf(x).value.toRelease
    ensures MayRelease(x, Released(x) + recycled) <==>
      ReleasedOwn(x) && (x.terminating || forall p :: p in recycled ==> p in Allocated(x))
  {
    var all := Released(x) + recycled;
    assert forall p :: p in all <==> p in Released(x) || p in recycled;
    WithoutMembers(Allocated(x), ToSet(Released(x)));
  }

  /** The requests queued for pods whose owner is not listed: one per owner, together a
      partition of exactly those pods. */
  ghost predicate PartitionsOrphans(reqs: seq<SandboxRequest>, listed: set<string>, held: Holding) {
    && (forall i :: 0 <= i < |reqs| ==>
          && reqs[i].sandbox !in listed && reqs[i].podSupplement == 0
          && reqs[i].curAllocation == [] && reqs[i].curReleased == [] && NoDuplicates(reqs[i].toRelease)
          && forall p :: p in reqs[i].toRelease <==> p in held && held[p] == reqs[i].sandbox)
    && (forall i, j :: 0 <= i < j < |reqs| ==> reqs[i].sandbox != reqs[j].sandbox)
    && (forall p :: p in held && held[p] !in listed ==> exists i :: 0 <= i < |reqs| && p in reqs[i].toRelease)
  }

  function NamesOf(xs: seq<BatchSandbox>): set<string> { set i | 0 <= i < |xs| :: xs[i].name }

  /** The requests of a round over these sandboxes: theirs in order, then those of orphans. */
  ghost predicate RequestsOf(xs: seq<BatchSandbox>, held: Holding, reqs: seq<SandboxRequest>) {
    && |reqs| >= |xs| && (forall i :: 0 <= i < |xs| ==> RequestOf(xs[i]) == Some(reqs[i]))
    && PartitionsOrphans(reqs[|xs|..], NamesOf(xs), held)
  }

  method GetAllRequest(xs: seq<BatchSandbox>, held: Holding) returns (r: Option<seq<SandboxRequest>>)
    ensures r.None? <==> exists i :: 0 <= i < |xs| && RequestOf(xs[i]).None?
    ensures r.Some? ==> RequestsOf(xs, held, r.value)
  {
    var existing: set<string> := {};
    var all: seq<SandboxRequest> := [];
    for i := 0 to |xs|
      invariant |all| == i && existing == NamesOf(xs[..i])
      invariant forall j :: 0 <= j < i ==> RequestOf(xs[j]) == Some(all[j])
    {
      var req := GetSandboxRequest(xs[i]);
      if req.None? { return None; }
      all := all + [req.value];
      existing := existing + {xs[i].name};
    }
    assert xs[..|xs|] == xs;
    var orphans := CollectOrphans(existing, held);
    var queued := QueueOrphans(existing, held, orphans);
    r := Some(all + queued);
    assert (all + queued)[|xs|..] == queued;
  }

  /** Each orphaned owner with its pods. */
  ghost predicate GroupsOrphans(
      orphans: map<string, seq<string>>, listed: set<string>, held: Holding, done: set<string>)
  {
    && (forall n :: n in orphans ==> n !in listed && NoDuplicates(orphans[n]))
    && (forall n, p :: n in orphans && p in orphans[n] ==> p in held && p in done && held[p] == n)
    && (forall p :: p in held && p in done && held[p] !in listed ==> held[p] in orphans && p in orphans[held[p]])
  }

  method CollectOrphans(listed: set<string>, held: Holding) returns (orphans: map<string, seq<string>>)
    ensures GroupsOrphans(orphans, listed, held, held.Keys)
  {
    orphans := map[];
    var rest, done := held.Keys, {};
    while rest != {}
      invariant rest + done == held.Keys && rest !! done
      invariant GroupsOrphans(orphans, listed, held, done)
      decreases rest
    {
      var p :| p in rest;
      var n := held[p];
      if n !in listed {
        var pods := (if n in orphans then orphans[n] else []) + [p];
        orphans := orphans[n := pods];
      }
      rest, done := rest - {p}, done + {p};
    }
    assert done == held.Keys;
  }

  method QueueOrphans(listed: set<string>, held: Holding, orphans: map<string, seq<string>>)
    returns (reqs: seq<SandboxRequest>)
    requires GroupsOrphans(orphans, listed, held, held.Keys)
    ensures PartitionsOrphans(reqs, listed, held)
  {
    reqs := [];
    var rest := orphans.Keys;
    while rest != {}
      invariant rest <= orphans.Keys
      invariant forall i :: 0 <= i < |reqs| ==>
        && reqs[i].sandbox in orphans && reqs[i].sandbox !in rest
        && reqs[i] == SandboxRequest(reqs[i].sandbox, [], [], 0, orphans[reqs[i].sandbox])
      invariant forall i, j :: 0 <= i < j < |reqs| ==> reqs[i].sandbox != reqs[j].sandbox
      invariant forall n :: n in orphans && n !in rest ==> exists i :: 0 <= i < |reqs| && reqs[i].sandbox == n
      decreases rest
    {
      var n :| n in rest;
      ghost var before := reqs;
      reqs := reqs + [SandboxRequest(n, [], [], 0, orphans[n])];
      rest := rest - {n};
      forall m | m in orphans && m !in rest
        ensures exists i :: 0 <= i < |reqs| && reqs[i].sandbox == m
      {
        if m == n {
          assert reqs[|before|].sandbox == m;
        } else {
          var i :| 0 <= i < |before| && before[i].sandbox == m;
          assert reqs[i].sandbox == m;
        }
      }
    }
    forall p | p in held && held[p] !in listed
      ensures exists i :: 0 <= i < |reqs| && p in reqs[i].toRelease
    {
      var i :| 0 <= i < |reqs| && reqs[i].sandbox == held[p];
      assert p in reqs[i].toRelease;
    }
  }

  // ---- PackedSchedule.

  datatype AllocAction = AllocAction(
    toAllocate: map<string, seq<string>>, toRelease: map<string, seq<string>>, podSupplement: int)

  function Need(req: SandboxRequest): nat {
    if req.podSupplement > 0 then req.podSupplement else 0
  }

  function TotalNeed(reqs: seq<SandboxRequest>): nat {
    if reqs == [] then 0 else TotalNeed(reqs[..|reqs| - 1]) + Need(reqs[|reqs| - 1])
  }

  function Min(a: nat, b: nat): nat { if a < b then a else b }

  /** How many available pods the first i requests have used up. */
  function Taken(available: nat, reqs: seq<SandboxRequest>, i: nat): nat
    requires i <= |reqs|
  {
    Min(available, TotalNeed(reqs[..i]))
  }

  ghost predicate DistinctRequests(reqs: seq<SandboxRequest>) {
    forall i, j :: 0 <= i < j < |reqs| ==> reqs[i].sandbox != reqs[j].sandbox
  }

  lemma {:induction false} TakenGrows(available: nat, reqs: seq<SandboxRequest>, i: nat, j: nat)
    requires i <= j <= |reqs|
    ensures Taken(available, reqs, i) <= Taken(available, reqs, j)
  {
    if i < j {
      TakenGrows(available, reqs, i, j - 1);
      assert reqs[..j][..j - 1] == reqs[..j - 1];
    }
  }

  /** What request i gets: the i-th consecutive slice of the available pods, while they last. */
  function Share(available: seq<string>, reqs: seq<SandboxRequest>, i: nat): seq<string>
    requires i < |reqs|
  {
    TakenGrows(|available|, reqs, i, i + 1);
    available[Taken(|available|, reqs, i)..Taken(|available|, reqs, i + 1)]
  }

  /** Request i gets pods, and no later request of the same sandbox does. */
  ghost predicate LastShare(available: seq<string>, reqs: seq<SandboxRequest>, i: int) {
    && 0 <= i < |reqs| && Share(available, reqs, i) != []
    && forall j :: i < j < |reqs| && reqs[j].sandbox == reqs[i].sandbox ==> Share(available, reqs, j) == []
  }

  ghost predicate LastRelease(reqs: seq<SandboxRequest>, i: int) {
    && 0 <= i < |reqs| && reqs[i].toRelease != []
    && forall j :: i < j < |reqs| && reqs[j].sandbox == reqs[i].sandbox ==> reqs[j].toRelease == []
  }

  /** Each sandbox that gets pods gets the share of its last request that does. */
  ghost predicate Allocates(available: seq<string>, reqs: seq<SandboxRequest>, m: map<string, seq<string>>) {
    && (forall i :: LastShare(available, reqs, i) ==>
          reqs[i].sandbox in m && m[reqs[i].sandbox] == Share(available, reqs, i))
    && (forall n :: n in m ==> exists i :: LastShare(available, reqs, i) && reqs[i].sandbox == n)
  }

  ghost predicate Releases(reqs: seq<SandboxRequest>, m: map<string, seq<string>>) {
    && (forall i :: LastRelease(reqs, i) ==> reqs[i].sandbox in m && m[reqs[i].sandbox] == reqs[i].toRelease)
    && (forall n :: n in m ==> exists i :: LastRelease(reqs, i) && reqs[i].sandbox == n)
  }

  ghost predicate Packs(available: seq<string>, reqs: seq<SandboxRequest>, action: AllocAction) {
    && Allocates(available, reqs, action.toAllocate)
    && Releases(reqs, action.toRelease)
    && action.podSupplement == TotalNeed(reqs) - Taken(|available|, reqs, |reqs|)
  }

  /** Name n has exactly this non-empty list in the map, or no entry if the list is empty. */
  predicate Gets(m: map<string, seq<string>>, n: string, pods: seq<string>) {
    if pods == [] then n !in m else n in m && m[n] == pods
  }

  /** With one request per sandbox, as getAllRequest makes them, each gets exactly its own. */
  lemma {:induction false} EachGetsItsOwn(
      available: seq<string>, reqs: seq<SandboxRequest>, action: AllocAction, i: nat)
    requires DistinctRequests(reqs) && Packs(available, reqs, action) && i < |reqs|
    ensures Gets(action.toAllocate, reqs[i].sandbox, Share(available, reqs, i))
    ensures Gets(action.toRelease, reqs[i].sandbox, reqs[i].toRelease)
  {
    var n := reqs[i].sandbox;
    assert forall j :: 0 <= j < |reqs| && reqs[j].sandbox == n ==> j == i;
    assert Share(available, reqs, i) != [] ==> LastShare(available, reqs, i);
    assert reqs[i].toRelease != [] ==> LastRelease(reqs, i);
  }

  lemma {:induction false} ShareSnoc(available: seq<string>, reqs: seq<SandboxRequest>, req: SandboxRequest, i: nat)
    requires i < |reqs|
    ensures Share(available, reqs + [req], i) == Share(available, reqs, i)
  {
    assert (reqs + [req])[..i] == reqs[..i];
    assert (reqs + [req])[..i + 1] == reqs[..i + 1];
  }

  lemma {:induction false} LastShareSnoc(available: seq<string>, reqs: seq<SandboxRequest>, req: SandboxRequest, i: nat)
    requires i < |reqs|
    ensures LastShare(available, reqs + [req], i) <==>
      && LastShare(available, reqs, i)
      && (reqs[i].sandbox == req.sandbox ==> Share(available, reqs + [req], |reqs|) == [])
  {
    var all := reqs + [req];
    forall j | 0 <= j < |reqs|
      ensures all[j] == reqs[j] && Share(available, all, j) == Share(available, reqs, j)
    {
      ShareSnoc(available, reqs, req, j);
    }
    assert all[|reqs|] == req;
  }

  lemma {:induction false} AllocatesSnoc(
      available: seq<string>, reqs: seq<SandboxRequest>, m: map<string, seq<string>>, req: SandboxRequest)
    requires Allocates(available, reqs, m)
    ensures var share := Share(available, reqs + [req], |reqs|);
      Allocates(available, reqs + [req], if share == [] then m else m[req.sandbox := share])
  {
    var all, n := reqs + [req], |reqs|;
    var share := Share(available, all, n);
    var after := if share == [] then m else m[req.sandbox := share];
    forall i | LastShare(available, all, i)
      ensures all[i].sandbox in after && after[all[i].sandbox] == Share(available, all, i)
    {
      if i < n {
        LastShareSnoc(available, reqs, req, i);
        ShareSnoc(available, reqs, req, i);
      }
    }
    forall k | k in after
      ensures exists i :: LastShare(available, all, i) && all[i].sandbox == k
    {
      if k == req.sandbox && share != [] {
        assert LastShare(available, all, n);
      } else {
        var i :| LastShare(available, reqs, i) && reqs[i].sandbox == k;
        LastShareSnoc(available, reqs, req, i);
        assert all[i].sandbox == k;
      }
    }
  }

  lemma {:induction false} LastReleaseSnoc(reqs: seq<SandboxRequest>, req: SandboxRequest, i: nat)
    requires i < |reqs|
    ensures LastRelease(reqs + [req], i) <==>
      LastRelease(reqs, i) && (reqs[i].sandbox == req.sandbox ==> req.toRelease == [])
  {
    var all := reqs + [req];
    assert all[|reqs|] == req && forall j :: 0 <= j < |reqs| ==> all[j] == reqs[j];
  }

  lemma {:induction false} ReleasesSnoc(reqs: seq<SandboxRequest>, m: map<string, seq<string>>, req: SandboxRequest)
    requires Releases(reqs, m)
    ensures Releases(reqs + [req], if req.toRelease == [] then m else m[req.sandbox := req.toRelease])
  {
    var all, n := reqs + [req], |reqs|;
    var after := if req.toRelease == [] then m else m[req.sandbox := req.toRelease];
    forall i | LastRelease(all, i)
      ensures all[i].sandbox in after && after[all[i].sandbox] == all[i].toRelease
    {
      if i < n {
        LastReleaseSnoc(reqs, req, i);
      }
    }
    forall k | k in after
      ensures exists i :: LastRelease(all, i) && all[i].sandbox == k
    {
      if k == req.sandbox && req.toRelease != [] {
        assert LastRelease(all, n);
      } else {
        var i :| LastRelease(reqs, i) && reqs[i].sandbox == k;
        LastReleaseSnoc(reqs, req, i);
        assert all[i].sandbox == k;
      }
    }
  }

  /** What one request makes of the action and of the pods left. */
  ghost predicate PacksOne(
      action: AllocAction, pods: seq<string>, req: SandboxRequest, next: AllocAction, rest: seq<string>)
  {
    var share := pods[..Min(|pods|, Need(req))];
    && rest == pods[|share|..]
    && next.toAllocate == (if share == [] then action.toAllocate else action.toAllocate[req.sandbox := share])
    && next.toRelease ==
         (if req.toRelease == [] then action.toRelease else action.toRelease[req.sandbox := req.toRelease])
    && next.podSupplement == action.podSupplement + Need(req) - |share|
  }

  /** One round of the loop: the request takes what it needs or what is left. */
  method PackOne(action: AllocAction, pods: seq<string>, req: SandboxRequest)
    returns (next: AllocAction, rest: seq<string>)
    ensures PacksOne(action, pods, req, next, rest)
  {
    next, rest := action, pods;
    if req.toRelease != [] {
      next := next.(toRelease := next.toRelease[req.sandbox := req.toRelease]);
    }
    var need := req.podSupplement;
    if need <= 0 { return; }
    if |pods| >= need {
      next := next.(toAllocate := next.toAllocate[req.sandbox := pods[..need]]);
      rest := pods[need..];
    } else if |pods| > 0 {
      next := next.(toAllocate := next.toAllocate[req.sandbox := pods],
                    podSupplement := next.podSupplement + need - |pods|);
      rest := [];
      assert pods[..|pods|] == pods;
    } else {
      next := next.(podSupplement := next.podSupplement + need);
    }
  }

  method PackedSchedule(available: seq<string>, reqs: seq<SandboxRequest>) returns (action: AllocAction)
    ensures Packs(available, reqs, action)
  {
    action := AllocAction(map[], map[], 0);
    var pods := available;
    for i := 0 to |reqs|
      invariant PackedUpTo(available, reqs, i, action, pods)
    {
      ghost var before, left := action, pods;
      action, pods := PackOne(action, pods, reqs[i]);
      PacksNext(available, reqs, i, before, left, action, pods);
    }
    assert reqs[..|reqs|] == reqs;
  }

  /** The first i requests are packed, and these pods are left. */
  ghost predicate PackedUpTo(
      available: seq<string>, reqs: seq<SandboxRequest>, i: nat, action: AllocAction, pods: seq<string>)
    requires i <= |reqs|
  {
    Packs(available, reqs[..i], action) && pods == available[Taken(|available|, reqs, i)..]
  }

  lemma {:induction false} PacksNext(
      available: seq<string>, reqs: seq<SandboxRequest>, i: nat,
      action: AllocAction, pods: seq<string>, next: AllocAction, rest: seq<string>)
    requires i < |reqs| && PackedUpTo(available, reqs, i, action, pods) && PacksOne(action, pods, reqs[i], next, rest)
    ensures PackedUpTo(available, reqs, i + 1, next, rest)
  {
    var front := reqs[..i];
    AllocatesSnoc(available, front, action.toAllocate, reqs[i]);
    ReleasesSnoc(front, action.toRelease, reqs[i]);
    ShareOfRest(available, reqs, i, pods);
    assert reqs[..i + 1] == front + [reqs[i]];
    SupplementSnoc(available, reqs, i);
  }

  lemma {:induction false} SupplementSnoc(available: seq<string>, reqs: seq<SandboxRequest>, i: nat)
    requires i < |reqs|
    ensures TotalNeed(reqs[..i + 1]) == TotalNeed(reqs[..i]) + Need(reqs[i])
    ensures Taken(|available|, reqs, i + 1) == Taken(|available|, reqs, i) + |Share(available, reqs, i)|
    ensures Taken(|available|, reqs[..i], i) == Taken(|available|, reqs, i)
    ensures Taken(|available|, reqs[..i + 1], i + 1) == Taken(|available|, reqs, i + 1)
  {
    assert reqs[..i + 1][..i] == reqs[..i] && reqs[..i][..i] == reqs[..i] && reqs[..i + 1][..i + 1] == reqs[..i + 1];
    TakenGrows(|available|, reqs, i, i + 1);
  }

  /** The slice and the pods left after it, seen from the pods left before it. */
  lemma {:induction false} ShareOfRest(available: seq<string>, reqs: seq<SandboxRequest>, i: nat, rest: seq<string>)
    requires i < |reqs| && rest == available[Taken(|available|, reqs, i)..]
    ensures var k := Min(|rest|, Need(reqs[i]));
      && Share(available, reqs, i) == rest[..k]
      && Share(available, reqs[..i] + [reqs[i]], |reqs[..i]|) == rest[..k]
      && available[Taken(|available|, reqs, i + 1)..] == rest[k..]
  {
    var front := reqs[..i];
    assert reqs[..i + 1] == front + [reqs[i]];
    assert reqs[..i + 1][..i] == front;
    assert (front + [reqs[i]])[..i] == front && (front + [reqs[i]])[..i + 1] == front + [reqs[i]];
  }

  /** No pod is handed to two sandboxes, and only available pods are handed out. */
  lemma {:induction false} PackedListsAreDisjoint(
      available: seq<string>, reqs: seq<SandboxRequest>, action: AllocAction, n: string, p: string)
    requires NoDuplicates(available) && Packs(available, reqs, action)
    requires n in action.toAllocate && p in action.toAllocate[n]
    ensures p in available
    ensures forall m :: m in action.toAllocate && m != n ==> p !in action.toAllocate[m]
  {
    var i :| LastShare(available, reqs, i) && reqs[i].sandbox == n;
    forall m | m in action.toAllocate && m != n
      ensures p !in action.toAllocate[m]
    {
      var j :| LastShare(available, reqs, j) && reqs[j].sandbox == m;
      SharesAreDisjoint(available, reqs, i, j, p);
    }
  }

  lemma {:induction false} SharesAreDisjoint(
      available: seq<string>, reqs: seq<SandboxRequest>, i: nat, j: nat, p: string)
    requires NoDuplicates(available) && i < |reqs| && j < |reqs| && i != j
    requires p in Share(available, reqs, i)
    ensures p !in Share(available, reqs, j)
  {
    var size := |available|;
    if i < j { TakenGrows(size, reqs, i + 1, j); } else { TakenGrows(size, reqs, j + 1, i); }
    TakenGrows(size, reqs, i, i + 1);
    TakenGrows(size, reqs, j, j + 1);
  }

  // ---- A round gives every sandbox what it is missing.

  /** How many pods x still has to be given. */
  function Missing(x: BatchSandbox): nat {
    if x.terminating then 0 else Max(x.replicas, |Allocated(x)|) - |Allocated(x)|
  }

  function TotalMissing(xs: seq<BatchSandbox>): nat {
    if xs == [] then 0 else TotalMissing(xs[..|xs| - 1]) + Missing(xs[|xs| - 1])
  }

  lemma {:induction false} ListedNeed(xs: seq<BatchSandbox>, reqs: seq<SandboxRequest>, n: nat)
    requires n <= |xs| <= |reqs| && forall i :: 0 <= i < |xs| ==> RequestOf(xs[i]) == Some(reqs[i])
    ensures TotalNeed(reqs[..n]) == TotalMissing(xs[..n])
  {
    if n == 0 {
    } else {
      ListedNeed(xs, reqs, n - 1);
      RequestMeaning(xs[n - 1]);
      assert reqs[..n][..n - 1] == reqs[..n - 1] && xs[..n][..n - 1] == xs[..n - 1];
    }
  }

  lemma {:induction false} OrphansNeedNothing(reqs: seq<SandboxRequest>, from: nat, n: nat)
    requires from <= n <= |reqs| && forall i :: from <= i < |reqs| ==> reqs[i].podSupplement == 0
    ensures TotalNeed(reqs[..n]) == TotalNeed(reqs[..from])
  {
    if n == from {
    } else {
      OrphansNeedNothing(reqs, from, n - 1);
      assert reqs[..n][..n - 1] == reqs[..n - 1];
    }
  }

  /** A round needs what its sandboxes are missing, and nothing for orphans. */
  lemma {:induction false} RoundNeedsWhatIsMissing(xs: seq<BatchSandbox>, held: Holding, reqs: seq<SandboxRequest>)
    requires RequestsOf(xs, held, reqs)
    ensures TotalNeed(reqs) == TotalMissing(xs)
  {
    forall i | |xs| <= i < |reqs|
      ensures reqs[i].podSupplement == 0
    {
      assert reqs[|xs|..][i - |xs|] == reqs[i];
    }
    ListedNeed(xs, reqs, |xs|);
    OrphansNeedNothing(reqs, |xs|, |reqs|);
    assert xs[..|xs|] == xs && reqs[..|reqs|] == reqs;
  }

  lemma {:induction false} NeedGrows(reqs: seq<SandboxRequest>, i: nat, n: nat)
    requires i <= n <= |reqs|
    ensures TotalNeed(reqs[..i]) <= TotalNeed(reqs[..n])
  {
    if i < n {
      NeedGrows(reqs, i, n - 1);
      assert reqs[..n][..n - 1] == reqs[..n - 1];
    }
  }

  lemma {:induction false} FullShare(available: seq<string>, reqs: seq<SandboxRequest>, i: nat)
    requires i < |reqs| && TotalNeed(reqs) <= |available|
    ensures |Share(available, reqs, i)| == Need(reqs[i])
  {
    NeedGrows(reqs, i + 1, |reqs|);
    assert reqs[..|reqs|] == reqs;
    SupplementSnoc(available, reqs, i);
  }

  lemma {:induction false} RequestsAreDistinct(xs: seq<BatchSandbox>, held: Holding, reqs: seq<SandboxRequest>)
    requires RequestsOf(xs, held, reqs) && forall i, j :: 0 <= i < j < |xs| ==> xs[i].name != xs[j].name
    ensures DistinctRequests(reqs)
  {
    forall i, j | 0 <= i < j < |reqs|
      ensures reqs[i].sandbox != reqs[j].sandbox
    {
      if |xs| <= j {
        assert reqs[j] == reqs[|xs|..][j - |xs|];
        if |xs| <= i {
          assert reqs[i] == reqs[|xs|..][i - |xs|];
        } else {
          RequestMeaning(xs[i]);
          assert xs[i].name in NamesOf(xs);
        }
      } else {
        RequestMeaning(xs[i]);
        RequestMeaning(xs[j]);
      }
    }
  }

  /** The pods the action has for a sandbox. */
  function HandedTo(m: map<string, seq<string>>, n: string): seq<string> { if n in m then m[n] else [] }

  /** With these pods on top, x's alloc-status is as long as its replica count, or as long as
      it was if that is longer or x is terminating. */
  ghost predicate Completes(x: BatchSandbox, pods: seq<string>) {
    |Allocated(WithAllocation(x, Allocated(x) + pods))| ==
      if x.terminating then |Allocated(x)| else Max(x.replicas, |Allocated(x)|)
  }

  lemma {:induction false} HandsOutMissing(
      available: seq<string>, reqs: seq<SandboxRequest>, action: AllocAction, x: BatchSandbox, i: nat)
    requires DistinctRequests(reqs) && Packs(available, reqs, action) && TotalNeed(reqs) <= |available|
    requires i < |reqs| && RequestOf(x) == Some(reqs[i])
    ensures |HandedTo(action.toAllocate, x.name)| == Missing(x)
  {
    RequestMeaning(x);
    EachGetsItsOwn(available, reqs, action, i);
    FullShare(available, reqs, i);
  }

  /** With enough pods at hand, one round brings every running sandbox to its replica count
      and not beyond, gives terminating ones nothing, and has nothing left to ask for;
      otherwise it asks for exactly what is lacking. */
  lemma {:induction false} RoundCompletesSandboxes(
      available: seq<string>, xs: seq<BatchSandbox>, held: Holding, reqs: seq<SandboxRequest>, action: AllocAction)
    requires RequestsOf(xs, held, reqs) && Packs(available, reqs, action)
    requires forall i, j :: 0 <= i < j < |xs| ==> xs[i].name != xs[j].name
    ensures action.podSupplement == Max(TotalMissing(xs) - |available|, 0)
    ensures TotalMissing(xs) <= |available| ==>
      forall i :: 0 <= i < |xs| ==> Completes(xs[i], HandedTo(action.toAllocate, xs[i].name))
  {
    RoundAsksForWhatLacks(available, xs, held, reqs, action);
    if TotalMissing(xs) <= |available| {
      forall i | 0 <= i < |xs|
        ensures Completes(xs[i], HandedTo(action.toAllocate, xs[i].name))
      {
        CompletesOne(available, xs, held, reqs, action, i);
      }
    }
  }

  lemma {:induction false} RoundAsksForWhatLacks(
      available: seq<string>, xs: seq<BatchSandbox>, held: Holding, reqs: seq<SandboxRequest>, action: AllocAction)
    requires RequestsOf(xs, held, reqs)
    requires action.podSupplement == TotalNeed(reqs) - Taken(|available|, reqs, |reqs|)
    ensures action.podSupplement == Max(TotalMissing(xs) - |available|, 0)
  {
    RoundNeedsWhatIsMissing(xs, held, reqs);
    assert reqs[..|reqs|] == reqs;
  }

  lemma {:induction false} CompletesOne(
      available: seq<string>, xs: seq<BatchSandbox>, held: Holding, reqs: seq<SandboxRequest>, action: AllocAction,
      i: nat)
    requires RequestsOf(xs, held, reqs) && Packs(available, reqs, action)
    requires forall i, j :: 0 <= i < j < |xs| ==> xs[i].name != xs[j].name
    requires i < |xs| && TotalMissing(xs) <= |available|
    ensures Completes(xs[i], HandedTo(action.toAllocate, xs[i].name))
  {
    RoundNeedsWhatIsMissing(xs, held, reqs);
    RequestsAreDistinct(xs, held, reqs);
    HandsOutMissing(available, reqs, action, xs[i], i);
  }

  // ---- One scheduling round keeps to the protocol.

  predicate Planned(plan: map<string, seq<string>>, n: string, p: string) { n in plan && p in plan[n] }

  /** Compared with s, nobody in t claims or uses anything new but what the plan gives them. */
  ghost predicate Within(s: State, t: State, plan: map<string, seq<string>>) {
    && (forall m, p :: Claims(t, m, p) ==> Claims(s, m, p) || Planned(plan, m, p))
    && (forall m, p :: Uses(t, m, p) ==> Uses(s, m, p) || Planned(plan, m, p))
  }

  /** The plan hands out pods no sandbox of the pool names, each to one sandbox. */
  ghost predicate FreshPlan(s: State, plan: map<string, seq<string>>) {
    && (forall n, m, p :: n in plan && p in plan[n] ==> !Claims(s, m, p))
    && (forall n, m, p :: n in plan && m in plan && n != m && p in plan[n] ==> p !in plan[m])
  }

  /** n's annotations give it no more than they did when the plan was made; anything else
      about it may have changed. */
  ghost predicate ListsAsPlanned(s: State, t: State, n: string) {
    && n in s.sandboxes && n in t.sandboxes
    && (forall p :: p in Allocated(t.sandboxes[n]) ==> p in Allocated(s.sandboxes[n]))
    && (forall p :: p in Released(s.sandboxes[n]) ==> p in Released(t.sandboxes[n]))
  }

  /** Schedule, getLatestAllocated and syncSandboxConcurrently only ever start legal
      syncs: the lists computed once stay legal in every interleaving of their syncs. */
  lemma {:induction false} RoundStaysLegal(s: State, t: State, plan: map<string, seq<string>>, n: string)
    requires Separated(s) && FreshPlan(s, plan) && Within(s, t, plan)
    requires t.up && n in plan && n !in t.allocating && n !in t.releasing && ListsAsPlanned(s, t, n)
    ensures Enabled(t, BeginAllocation(n, Allocated(s.sandboxes[n]) + plan[n]))
    ensures Within(s, Apply(t, BeginAllocation(n, Allocated(s.sandboxes[n]) + plan[n])), plan)
  {
    var pods := Allocated(s.sandboxes[n]) + plan[n];
    forall m, p | m != n && p in pods
      ensures !Uses(t, m, p) && (p !in Released(t.sandboxes[n]) ==> !Claims(t, m, p))
    {
      if p in plan[n] {
        assert !Claims(s, m, p) && !Planned(plan, m, p);
      } else {
        assert Claims(s, n, p) && !Planned(plan, m, p);
        assert p !in Released(s.sandboxes[n]) ==> Uses(s, n, p);
      }
    }
    PlannedSyncStaysWithin(s, t, plan, n);
  }

  lemma {:induction false} PlannedSyncStaysWithin(s: State, t: State, plan: map<string, seq<string>>, n: string)
    requires Within(s, t, plan) && n in plan && ListsAsPlanned(s, t, n)
    requires Enabled(t, BeginAllocation(n, Allocated(s.sandboxes[n]) + plan[n]))
    ensures Within(s, Apply(t, BeginAllocation(n, Allocated(s.sandboxes[n]) + plan[n])), plan)
  {
    var pods := Allocated(s.sandboxes[n]) + plan[n];
    var u := Apply(t, BeginAllocation(n, pods));
    assert forall m, p :: m != n ==> Claims(u, m, p) == Claims(t, m, p) && Uses(u, m, p) == Uses(t, m, p);
    forall p | Claims(u, n, p)
      ensures Claims(s, n, p) || Planned(plan, n, p)
      ensures Uses(u, n, p) ==> Uses(s, n, p) || Planned(plan, n, p)
    {
      assert p in pods;
    }
  }

  /** Every other step keeps the rest of the round legal too: commits, rollbacks, releases,
      edits, removals, crashes and recoveries, and sandboxes created without lists. */
  lemma {:induction false} RoundStepsStayWithin(s: State, t: State, plan: map<string, seq<string>>, step: Step)
    requires Within(s, t, plan) && InFlightConsistent(t) && Enabled(t, step)
    requires !step.BeginAllocation? && (step.CreateSandbox? ==> Allocated(step.x) == [])
    ensures Within(s, Apply(t, step), plan)
  {
    var u := Apply(t, step);
    assert forall m, p :: Claims(u, m, p) ==> Claims(t, m, p);
    assert forall m, p :: Uses(u, m, p) ==> Uses(t, m, p);
  }

  /** The steps of a round: allocations as planned, no sandbox coming back with old lists. */
  ghost predicate IsRound(states: seq<State>, steps: seq<Step>, plan: map<string, seq<string>>) {
    && |states| == |steps| + 1
    && (forall i :: 0 <= i < |steps| ==> Enabled(states[i], steps[i]) && states[i + 1] == Apply(states[i], steps[i]))
    && (forall i :: 0 <= i < |steps| && steps[i].BeginAllocation? ==>
          var n := steps[i].name;
          && n in plan && ListsAsPlanned(states[0], states[i], n)
          && steps[i].pods == Allocated(states[0].sandboxes[n]) + plan[n])
    && (forall i :: 0 <= i < |steps| && steps[i].CreateSandbox? ==> Allocated(steps[i].x) == [])
  }

  lemma {:induction false} RoundStaysWithin(
      states: seq<State>, steps: seq<Step>, plan: map<string, seq<string>>, k: nat)
    requires IsRound(states, steps, plan) && Inv(states[0]) && k < |states|
    ensures Inv(states[k]) && Within(states[0], states[k], plan)
  {
    if k == 0 {
    } else {
      RoundStaysWithin(states, steps, plan, k - 1);
      StepPreserves(states[k - 1], steps[k - 1]);
      if steps[k - 1].BeginAllocation? {
        PlannedSyncStaysWithin(states[0], states[k - 1], plan, steps[k - 1].name);
      } else {
        RoundStepsStayWithin(states[0], states[k - 1], plan, steps[k - 1]);
      }
    }
  }

  // ---- Orphans, collected at the start of a round and freed at its end.

  /** Pods held for somebody not listed, and not handed out by the plan, are used by nobody
      as long as the round keeps to its plan: freeing them is safe. */
  lemma {:induction false} OrphansStayUnused(s: State, t: State, plan: map<string, seq<string>>, pods: seq<string>)
    requires Inv(s) && s.up && t.up && Within(s, t, plan)
    requires forall p :: p in pods ==> p in s.held && s.held[p] !in s.sandboxes
    requires forall n, p :: Planned(plan, n, p) ==> p !in s.held
    ensures Enabled(t, ReleaseOrphans(pods))
  {
    forall n, p | p in pods
      ensures !Uses(t, n, p)
    {
      assert n !in s.sandboxes || s.held[p] != n;
    }
  }

  /** What getAllRequest queues for an unlisted owner, in whole or in part, may be freed at
      any point of the round whose plan was packed from the pods offered at its start. */
  lemma {:induction false} QueuedOrphansMayBeFreed(
      states: seq<State>, steps: seq<Step>, k: nat, views: seq<PodView>, reqs: seq<SandboxRequest>,
      action: AllocAction, orphans: seq<SandboxRequest>, i: nat, pods: seq<string>)
    requires IsRound(states, steps, action.toAllocate) && Inv(states[0]) && states[0].up
    requires Allocates(Available(states[0].held, views), reqs, action.toAllocate)
    requires PartitionsOrphans(orphans, states[0].sandboxes.Keys, states[0].held)
    requires i < |orphans| && forall p :: p in pods ==> p in orphans[i].toRelease
    requires k < |states| && states[k].up
    ensures Enabled(states[k], ReleaseOrphans(pods))
  {
    forall n, p | Planned(action.toAllocate, n, p)
      ensures p !in states[0].held
    {
      PlannedIsFree(states[0].held, views, reqs, action.toAllocate, n, p);
    }
    RoundStaysWithin(states, steps, action.toAllocate, k);
    OrphansStayUnused(states[0], states[k], action.toAllocate, pods);
  }

  lemma {:induction false} PlannedIsFree(
      held: Holding, views: seq<PodView>, reqs: seq<SandboxRequest>, plan: map<string, seq<string>>,
      n: string, p: string)
    requires Allocates(Available(held, views), reqs, plan) && Planned(plan, n, p)
    ensures p !in held
  {
    var available := Available(held, views);
    var j :| LastShare(available, reqs, j) && reqs[j].sandbox == n;
    assert p in Share(available, reqs, j) && p in available;
    AvailableIsFree(held, views, p);
  }

  /** The plan of a round is fresh as long as no offered pod is still named by any
      alloc-status: true of pools that delete recycled pods. */
  lemma {:induction false} ScheduleYieldsFreshPlan(
      s: State, pods: seq<PodView>, reqs: seq<SandboxRequest>, action: AllocAction)
    requires s.allocating == map[] && s.releasing == map[]
    requires NoDuplicates(Available(s.held, pods)) && Packs(Available(s.held, pods), reqs, action)
    requires forall m, p :: m in s.sandboxes && p in Available(s.held, pods) ==> p !in Allocated(s.sandboxes[m])
    ensures FreshPlan(s, action.toAllocate)
  {
    var plan := action.toAllocate;
    forall n, m, p | n in plan && p in plan[n]
      ensures !Claims(s, m, p)
    {
      PackedListsAreDisjoint(Available(s.held, pods), reqs, action, n, p);
    }
    forall n, m, p | n in plan && m in plan && n != m && p in plan[n]
      ensures p !in plan[m]
    {
      PackedListsAreDisjoint(Available(s.held, pods), reqs, action, n, p);
    }
  }

  // ---- What reuse of recycled pods does.

  /** A sandbox of the pool that was given nothing yet. */
  function Bare(name: string): BatchSandbox {
    BatchSandbox("ns", name, "pool", Absent, Absent, Absent, false, [], 0)
  }

  /** Two such sandboxes in a recovered pool. */
  function BarePool(a: string, b: string): State {
    State(PoolKey("ns", "pool"), map[a := Bare(a), b := Bare(b)], map[], true, map[], map[])
  }

  /** The states of a reuse: a is given p and r, then releases p, then b is given p. */
  ghost function Given(a: string, b: string, p: string, r: string): State {
    SyncAllocated(BarePool(a, b), a, [p, r])
  }

  ghost function Recycled(a: string, b: string, p: string, r: string): State {
    SyncReleased(Given(a, b, p, r), a, [p])
  }

  ghost function Reused(a: string, b: string, p: string, r: string): State {
    SyncAllocated(Recycled(a, b, p, r), b, [p])
  }

  /** The pods of the pool, both ready. */
  function TwoPods(p: string, r: string): seq<PodView> { [PodView(p, true), PodView(r, true)] }

  lemma {:induction false} Offered(held: Holding, p: string, r: string)
    ensures p !in held ==> p in Available(held, TwoPods(p, r))
    ensures r !in held ==> r in Available(held, TwoPods(p, r))
  {
    assert TwoPods(p, r)[0] == PodView(p, true) && TwoPods(p, r)[1] == PodView(r, true);
    AvailableIsFree(held, TwoPods(p, r), p);
    AvailableIsFree(held, TwoPods(p, r), r);
  }

  /** The two sandboxes of s, with these lists. */
  ghost predicate Lists(s: State, a: string, b: string, given: seq<string>, released: seq<string>, other: seq<string>) {
    && s.up && s.key == PoolKey("ns", "pool") && s.sandboxes.Keys == {a, b}
    && s.sandboxes[a].name == a && InPool(s.sandboxes[a], s.key)
    && s.sandboxes[b].name == b && InPool(s.sandboxes[b], s.key)
    && Allocated(s.sandboxes[a]) == given && Released(s.sandboxes[a]) == released
    && Allocated(s.sandboxes[b]) == other && Released(s.sandboxes[b]) == []
  }

  /** Both pods are offered and given to a. */
  lemma {:induction false} GivenFromEmpty(a: string, b: string, p: string, r: string)
    requires a != b && p != r
    ensures Safe(BarePool(a, b)) && Lists(BarePool(a, b), a, b, [], [], [])
    ensures p in Available(BarePool(a, b).held, TwoPods(p, r)) && r in Available(BarePool(a, b).held, TwoPods(p, r))
    ensures Safe(Given(a, b, p, r)) && Lists(Given(a, b, p, r), a, b, [p, r], [], [])
    ensures Given(a, b, p, r).held == map[p := a, r := a]
  {
    Offered(map[], p, r);
    BareIsSafe(a, b);
    SyncAllocatedSafeIff(BarePool(a, b), a, [p, r]);
  }

  lemma {:induction false} BareIsSafe(a: string, b: string)
    requires a != b
    ensures Safe(BarePool(a, b)) && Lists(BarePool(a, b), a, b, [], [], [])
    ensures forall n, q :: n in BarePool(a, b).sandboxes ==> q !in Live(BarePool(a, b).sandboxes[n])
  {
  }

  /** Releasing p is legal, and p is offered again. */
  lemma {:induction false} RecycledFromGiven(a: string, b: string, p: string, r: string)
    requires a != b && p != r
    ensures MayRelease(Given(a, b, p, r).sandboxes[a], [p])
    ensures Safe(Recycled(a, b, p, r)) && Lists(Recycled(a, b, p, r), a, b, [p, r], [p], [])
    ensures Recycled(a, b, p, r).held == map[r := a]
    ensures p in Available(Recycled(a, b, p, r).held, TwoPods(p, r))
  {
    GivenFromEmpty(a, b, p, r);
    assert [p, r][0] == p;
    assert Drop(map[p := a, r := a], [p]) == map[r := a];
    Offered(map[r := a], p, r);
  }

  /** b gets p, while a's alloc-status still names it. */
  lemma {:induction false} ReusedFromRecycled(a: string, b: string, p: string, r: string)
    requires a != b && p != r
    ensures Safe(Reused(a, b, p, r)) && Lists(Reused(a, b, p, r), a, b, [p, r], [p], [p])
    ensures Reused(a, b, p, r).held == map[p := b, r := a]
  {
    RecycledFromGiven(a, b, p, r);
    var s := Recycled(a, b, p, r);
    assert p in [p];
    GiveFreed(s, a, b, [p, r], [p], p);
    ReassignFreed(a, b, p, r);
    assert Reused(a, b, p, r) == SyncAllocated(s, b, [p]);
  }

  lemma {:induction false} ReassignFreed(a: string, b: string, p: string, r: string)
    requires a != b && p != r
    ensures Reassign(map[r := a], b, [p]) == map[p := b, r := a]
  {
  }

  /** Giving b a pod a has released is safe for now. */
  lemma {:induction false} GiveFreed(
      s: State, a: string, b: string, given: seq<string>, released: seq<string>, p: string)
    requires a != b && Safe(s) && Lists(s, a, b, given, released, []) && p in released
    ensures Safe(SyncAllocated(s, b, [p])) && Lists(SyncAllocated(s, b, [p]), a, b, given, released, [p])
  {
    assert p !in Live(s.sandboxes[a]);
    SyncAllocatedSafeIff(s, b, [p]);
  }

  /** With a recycler that returns pods to the pool, the allocator's own operations lead
      from an empty pool to a state in which p went from a to b while a's alloc-status still
      names it. When a then releases r, p is freed although b uses it, and it is offered to
      a third sandbox. */
  lemma {:induction false} ReusedPodIsOfferedTwice(a: string, b: string, p: string, r: string)
    requires a != b && p != r
    ensures var s := Reused(a, b, p, r);
      && Safe(s) && p in Live(s.sandboxes[b]) && MayRelease(s.sandboxes[a], [p, r])
      && var t := SyncReleased(s, a, [p, r]); !Safe(t) && p in Available(t.held, TwoPods(p, r))
  {
    var s := Reused(a, b, p, r);
    ReusedFromRecycled(a, b, p, r);
    assert [p][0] == p && [p, r][0] == p && p in [p, r];
    assert b in s.sandboxes && p in Live(s.sandboxes[b]);
    SyncReleasedSafeIff(s, a, [p, r]);
    Offered(SyncReleased(s, a, [p, r]).held, p, r);
  }

  /** A restart in that state that lists b before a loses the reused pod too; the other
      order keeps it. */
  lemma {:induction false} ReusedPodRecoveryDependsOnOrder(a: string, b: string, p: string, r: string)
    requires a != b && p != r
    ensures
      var s := Reused(a, b, p, r);
      var x, y := s.sandboxes[a], s.sandboxes[b];
      && !HoldsLive([y, x], s.key, EntryOf(RecoverAll([y, x]), s.key))
      && HoldsLive([x, y], s.key, EntryOf(RecoverAll([x, y]), s.key))
  {
    var s := Reused(a, b, p, r);
    ReusedFromRecycled(a, b, p, r);
    assert [p][0] == p && [p, r][0] == p;
    OrderOfTwo(s.key, s.sandboxes[a], s.sandboxes[b], p);
  }

  /** If x names a pod y uses, and y none that x uses, only the order with y last is safe. */
  lemma {:induction false} OrderOfTwo(key: string, x: BatchSandbox, y: BatchSandbox, p: string)
    requires InPool(x, key) && InPool(y, key) && x.name != y.name
    requires p in Allocated(x) && p in Live(y) && forall q :: q in Live(x) ==> q !in Allocated(y)
    ensures !HoldsLive([y, x], key, EntryOf(RecoverAll([y, x]), key))
    ensures HoldsLive([x, y], key, EntryOf(RecoverAll([x, y]), key))
  {
    var yx, xy := [y, x], [x, y];
    assert InPool(yx[0], key) && Names(yx[1], key, p) && p in Live(yx[0]);
    assert !UserListedLast(yx, key) && UserListedLast(xy, key);
    RecoverSafeIffUserListedLast(yx, key);
    RecoverSafeIffUserListedLast(xy, key);
  }
}
