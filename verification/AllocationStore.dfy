/** The in-memory pod-to-sandbox store of the pool allocator and its recovery from
    the annotations kept on the BatchSandbox objects. */
module AllocationStore {

  /** The pods one pool has handed out: pod name -> sandbox name. */
  type Holding = map<string, string>

  /** A JSON annotation holding a pod list: missing or empty, parsed, or unreadable. */
  datatype Annotation = Absent | Listed(pods: seq<string>) | Malformed

  /** What the allocator reads from a BatchSandbox. */
  datatype BatchSandbox = BatchSandbox(
    namespace: string,
    name: string,
    poolRef: string,
    allocStatus: Annotation,
    allocRelease: Annotation,
    allocReleased: Annotation,
    terminating: bool,
    finalizers: seq<string>,
    replicas: int)

  function Pods(a: Annotation): seq<string> {
    if a.Listed? then a.pods else []
  }

  function Allocated(x: BatchSandbox): seq<string> { Pods(x.allocStatus) }

  function Released(x: BatchSandbox): seq<string> { Pods(x.allocReleased) }

  /** The pods a sandbox's annotations say it is still using. */
  function Live(x: BatchSandbox): set<string> {
    set p | p in Allocated(x) && p !in Released(x)
  }

  function PoolKey(namespace: string, name: string): string {
    namespace + "/" + name
  }

  /** Two pools share a store entry only if they are the same pool. */
  lemma {:induction false} PoolKeyInjective(ns1: string, n1: string, ns2: string, n2: string)
    requires '/' !in ns1 && '/' !in ns2
    ensures PoolKey(ns1, n1) == PoolKey(ns2, n2) <==> ns1 == ns2 && n1 == n2
  {
    if PoolKey(ns1, n1) == PoolKey(ns2, n2) {
      var k := PoolKey(ns1, n1);
      assert k[|ns1|] == '/' && k[|ns2|] == '/';
      assert forall i :: 0 <= i < |ns1| ==> k[i] == ns1[i];
      assert forall i :: 0 <= i < |ns2| ==> k[i] == ns2[i];
      assert |ns1| == |ns2|;
      assert ns1 == k[..|ns1|] == ns2;
      assert n1 == k[|ns1| + 1..] == n2;
    }
  }

  // ---- Effect of the store operations on one pool's holding.

  function Assign(h: Holding, s: string, pods: seq<string>): Holding {
    map p | p in h.Keys + (set q | q in pods) :: if p in pods then s else h[p]
  }

  function Drop(h: Holding, pods: seq<string>): Holding {
    map p | p in h && p !in pods :: h[p]
  }

  function DropOwner(h: Holding, s: string): Holding {
    map p | p in h && h[p] != s :: h[p]
  }

  function Reassign(h: Holding, s: string, pods: seq<string>): Holding {
    Assign(DropOwner(h, s), s, pods)
  }

  /** Drops those of the given pods that belong to s. */
  function DropOwned(h: Holding, s: string, pods: seq<string>): Holding {
    map p | p in h && !(p in pods && h[p] == s) :: h[p]
  }

  function EntryOf(pools: map<string, Holding>, key: string): Holding {
    if key in pools then pools[key] else map[]
  }

  // ---- Recovery.

  function KeyOf(x: BatchSandbox): string { PoolKey(x.namespace, x.poolRef) }

  predicate Pooled(x: BatchSandbox) { x.poolRef != "" }

  predicate Readable(x: BatchSandbox) {
    Pooled(x) ==> !x.allocStatus.Malformed? && !x.allocReleased.Malformed?
  }

  function RecoverOne(pools: map<string, Holding>, x: BatchSandbox): map<string, Holding> {
    if !Pooled(x) then pools
    else pools[KeyOf(x) := DropOwned(Assign(EntryOf(pools, KeyOf(x)), x.name, Allocated(x)), x.name, Released(x))]
  }

  /** The store rebuilt from a listing, one sandbox after the other. */
  function RecoverAll(items: seq<BatchSandbox>): map<string, Holding> {
    if items == [] then map[]
    else RecoverOne(RecoverAll(items[..|items| - 1]), items[|items| - 1])
  }

  predicate InPool(x: BatchSandbox, key: string) { Pooled(x) && KeyOf(x) == key }

  predicate Names(x: BatchSandbox, key: string, p: string) { InPool(x, key) && p in Allocated(x) }

  /** k is the last listed sandbox of the pool whose alloc-status names p. */
  ghost predicate LastNaming(items: seq<BatchSandbox>, key: string, p: string, k: int) {
    && 0 <= k < |items|
    && Names(items[k], key, p)
    && forall j :: k < j < |items| ==> !Names(items[j], key, p)
  }

  /** Sandbox names are unique within a pool of the listing. */
  ghost predicate DistinctNames(items: seq<BatchSandbox>, key: string) {
    forall i, j :: 0 <= i < j < |items| && InPool(items[i], key) && InPool(items[j], key) ==>
      items[i].name != items[j].name
  }

  /** Recover gives p to the last listed sandbox of that pool naming it, unless that
      sandbox has already released it; a pod nobody names stays free. */
  lemma {:induction false} RecoverGivesPodToLastNaming(items: seq<BatchSandbox>, key: string, p: string)
    requires DistinctNames(items, key)
    ensures forall k :: LastNaming(items, key, p, k) ==>
      var h := EntryOf(RecoverAll(items), key);
      if p in Released(items[k]) then p !in h else p in h && h[p] == items[k].name
    ensures (forall j :: 0 <= j < |items| ==> !Names(items[j], key, p)) ==> p !in EntryOf(RecoverAll(items), key)
    ensures p in EntryOf(RecoverAll(items), key) ==> exists k :: LastNaming(items, key, p, k)
  {
    if items == [] {
    } else {
      var n := |items| - 1;
      var front, x := items[..n], items[n];
      assert items == front + [x] && forall j :: 0 <= j < n ==> front[j] == items[j];
      RecoverGivesPodToLastNaming(front, key, p);
      RecoverOneAt(RecoverAll(front), x, key, p);
      if Names(x, key, p) {
        assert LastNaming(items, key, p, n);
      } else {
        forall k
          ensures LastNaming(items, key, p, k) <==> LastNaming(front, key, p, k)
        {
          LastNamingSnoc(front, x, key, p, k);
        }
      }
    }
  }

  /** Adding one sandbox changes only what it names or, being the holder, has released. */
  lemma {:induction false} RecoverOneAt(pools: map<string, Holding>, x: BatchSandbox, key: string, p: string)
    ensures var h, g := EntryOf(pools, key), EntryOf(RecoverOne(pools, x), key);
      if Names(x, key, p) then
        (if p in Released(x) then p !in g else p in g && g[p] == x.name)
      else if InPool(x, key) && p in h && h[p] == x.name && p in Released(x) then p !in g
      else (p in g <==> p in h) && (p in h ==> g[p] == h[p])
  {
  }

  lemma {:induction false} LastNamingSnoc(front: seq<BatchSandbox>, x: BatchSandbox, key: string, p: string, k: int)
    requires !Names(x, key, p)
    ensures LastNaming(front + [x], key, p, k) <==> LastNaming(front, key, p, k)
  {
    var all := front + [x];
    assert forall j :: 0 <= j < |front| ==> all[j] == front[j];
    assert all[|front|] == x;
  }

  /** No pod in use by one sandbox of the pool is named by another one's alloc-status. */
  ghost predicate Unshadowed(items: seq<BatchSandbox>, key: string) {
    forall i, j, p :: 0 <= i < |items| && 0 <= j < |items| && i != j && InPool(items[i], key) && p in Live(items[i]) ==>
      !Names(items[j], key, p)
  }

  /** In the holding, every pod some listed sandbox still uses belongs to that sandbox. */
  ghost predicate HoldsLive(items: seq<BatchSandbox>, key: string, h: Holding) {
    forall i, p :: 0 <= i < |items| && InPool(items[i], key) && p in Live(items[i]) ==> p in h && h[p] == items[i].name
  }

  /** Some listed sandbox of the pool is called s and still uses p. */
  ghost predicate UsedBy(items: seq<BatchSandbox>, key: string, p: string, s: string) {
    exists i :: 0 <= i < |items| && InPool(items[i], key) && items[i].name == s && p in Live(items[i])
  }

  /** Without shadowing the recovered entry is exactly "alloc minus released", whatever the order. */
  lemma {:induction false} RecoverIsAllocMinusReleased(items: seq<BatchSandbox>, key: string)
    requires DistinctNames(items, key) && Unshadowed(items, key)
    ensures forall p, s :: UsedBy(items, key, p, s) <==>
      p in EntryOf(RecoverAll(items), key) && EntryOf(RecoverAll(items), key)[p] == s
  {
    var h := EntryOf(RecoverAll(items), key);
    forall p, s
      ensures UsedBy(items, key, p, s) <==> p in h && h[p] == s
    {
      RecoverGivesPodToLastNaming(items, key, p);
      if p in h && h[p] == s {
        var k :| LastNaming(items, key, p, k);
        assert p in Live(items[k]);
      }
      if i :| 0 <= i < |items| && InPool(items[i], key) && items[i].name == s && p in Live(items[i]) {
        assert LastNaming(items, key, p, i);
      }
    }
  }

  /** Of all sandboxes of the pool naming a pod in use, its user is listed last. */
  ghost predicate UserListedLast(items: seq<BatchSandbox>, key: string) {
    forall i, j, p :: 0 <= i < j < |items| && InPool(items[i], key) && p in Live(items[i]) ==> !Names(items[j], key, p)
  }

  lemma {:induction false} ListedLastIsHeld(items: seq<BatchSandbox>, key: string, i: nat, p: string)
    requires DistinctNames(items, key) && UserListedLast(items, key)
    requires i < |items| && InPool(items[i], key) && p in Live(items[i])
    ensures var h := EntryOf(RecoverAll(items), key); p in h && h[p] == items[i].name
  {
    RecoverGivesPodToLastNaming(items, key, p);
    assert LastNaming(items, key, p, i);
  }

  lemma {:induction false} HeldIsListedLast(items: seq<BatchSandbox>, key: string, i: nat, j: nat, p: string)
    requires DistinctNames(items, key) && i < j < |items| && InPool(items[i], key) && p in Live(items[i])
    requires var h := EntryOf(RecoverAll(items), key); p in h && h[p] == items[i].name
    ensures !Names(items[j], key, p)
  {
    RecoverGivesPodToLastNaming(items, key, p);
    var k :| LastNaming(items, key, p, k);
    assert items[i].name == items[k].name;
  }

  /** Which listing orders recover safely: those that list, of all sandboxes naming a
      pod in use, its user last. */
  lemma {:induction false} RecoverSafeIffUserListedLast(items: seq<BatchSandbox>, key: string)
    requires DistinctNames(items, key)
    ensures HoldsLive(items, key, EntryOf(RecoverAll(items), key)) <==> UserListedLast(items, key)
  {
    var h := EntryOf(RecoverAll(items), key);
    if HoldsLive(items, key, h) {
      forall i, j, p | 0 <= i < j < |items| && InPool(items[i], key) && p in Live(items[i])
        ensures !Names(items[j], key, p)
      {
        HeldIsListedLast(items, key, i, j, p);
      }
    } else if UserListedLast(items, key) {
      forall i, p | 0 <= i < |items| && InPool(items[i], key) && p in Live(items[i])
        ensures p in h && h[p] == items[i].name
      {
        ListedLastIsHeld(items, key, i, p);
      }
    }
  }

  lemma {:induction false} RecoverKeys(items: seq<BatchSandbox>, key: string)
    ensures key in RecoverAll(items) <==> exists i :: 0 <= i < |items| && InPool(items[i], key)
  {
    if items == [] {
    } else {
      var n := |items| - 1;
      var front := items[..n];
      RecoverKeys(front, key);
      assert forall i :: 0 <= i < n ==> front[i] == items[i];
      if InPool(items[n], key) {
        assert key in RecoverAll(items);
      } else if i :| 0 <= i < |items| && InPool(items[i], key) {
        assert InPool(front[i], key);
      }
    }
  }

  /** Two listings of the same sandboxes recover the same store, for any two orders. */
  lemma {:induction false} RecoverOrderIndependent(items: seq<BatchSandbox>, other: seq<BatchSandbox>)
    requires forall key :: DistinctNames(items, key) && Unshadowed(items, key)
    requires forall key :: DistinctNames(other, key) && Unshadowed(other, key)
    requires forall x :: x in items <==> x in other
    ensures RecoverAll(items) == RecoverAll(other)
  {
    var a, b := RecoverAll(items), RecoverAll(other);
    forall key
      ensures key in a <==> key in b
      ensures EntryOf(a, key) == EntryOf(b, key)
    {
      SameKeys(items, other, key);
      SameEntry(items, other, key);
      SameEntry(other, items, key);
      var h, g := EntryOf(a, key), EntryOf(b, key);
      assert forall p :: p in h ==> p in g && g[p] == h[p];
      assert forall p :: p in g ==> p in h;
    }
    assert forall key :: key in a ==> a[key] == EntryOf(a, key) == EntryOf(b, key) == b[key];
  }

  lemma {:induction false} SameKeys(items: seq<BatchSandbox>, other: seq<BatchSandbox>, key: string)
    requires forall x :: x in items <==> x in other
    ensures key in RecoverAll(items) <==> key in RecoverAll(other)
  {
    RecoverKeys(items, key);
    RecoverKeys(other, key);
    if i :| 0 <= i < |items| && InPool(items[i], key) {
      assert items[i] in other;
    }
    if i :| 0 <= i < |other| && InPool(other[i], key) {
      assert other[i] in items;
    }
  }

  lemma {:induction false} SameEntry(items: seq<BatchSandbox>, other: seq<BatchSandbox>, key: string)
    requires DistinctNames(items, key) && Unshadowed(items, key)
    requires DistinctNames(other, key) && Unshadowed(other, key)
    requires forall x :: x in items ==> x in other
    ensures var h, g := EntryOf(RecoverAll(items), key), EntryOf(RecoverAll(other), key);
      forall p :: p in h ==> p in g && g[p] == h[p]
  {
    RecoverIsAllocMinusReleased(items, key);
    RecoverIsAllocMinusReleased(other, key);
    var h := EntryOf(RecoverAll(items), key);
    forall p | p in h
      ensures p in EntryOf(RecoverAll(other), key) && EntryOf(RecoverAll(other), key)[p] == h[p]
    {
      assert UsedBy(items, key, p, h[p]);
      var i :| 0 <= i < |items| && InPool(items[i], key) && items[i].name == h[p] && p in Live(items[i]);
      assert items[i] in other;
      var j :| 0 <= j < |other| && other[j] == items[i];
      assert UsedBy(other, key, p, h[p]);
    }
  }

  /** The store object. The Go type keeps one lock per pool; each method below is one
      critical section. */
  class InMemoryAllocationStore {
    var pools: map<string, Holding>

    constructor ()
      ensures pools == map[]
    {
      pools := map[];
    }

    function Entry(namespace: string, pool: string): Holding
      reads this
    {
      EntryOf(pools, PoolKey(namespace, pool))
    }

    /** Rebuilds every pool from a full listing; an unreadable annotation leaves the store alone. */
    method Recover(items: seq<BatchSandbox>) returns (ok: bool)
      modifies this
      ensures ok <==> forall i :: 0 <= i < |items| && Pooled(items[i]) ==>
        !items[i].allocStatus.Malformed? && !items[i].allocReleased.Malformed?
      ensures pools == if ok then RecoverAll(items) else old(pools)
    {
      var newPools: map<string, Holding> := map[];
      var i := 0;
      while i < |items|
        invariant 0 <= i <= |items|
        invariant pools == old(pools)
        invariant forall j :: 0 <= j < i ==> Readable(items[j])
        invariant newPools == RecoverAll(items[..i])
      {
        var x := items[i];
        assert items[..i + 1][..i] == items[..i];
        i := i + 1;
        if x.poolRef == "" { continue; }
        if x.allocStatus.Malformed? { return false; }
        var data := AssignLoop(EntryOf(newPools, KeyOf(x)), x.name, Allocated(x));
        if x.allocReleased.Malformed? { return false; }
        data := DropOwnedLoop(data, x.name, Released(x));
        newPools := newPools[KeyOf(x) := data];
      }
      assert items[..|items|] == items;
      pools := newPools;
      ok := true;
    }

    method ClearAllocation(namespace: string, pool: string)
      modifies this
      ensures pools == old(pools) - {PoolKey(namespace, pool)}
    {
      pools := pools - {PoolKey(namespace, pool)};
    }

    method GetAllocation(namespace: string, pool: string) returns (h: Holding)
      ensures PoolKey(namespace, pool) in pools ==> h == pools[PoolKey(namespace, pool)]
      ensures PoolKey(namespace, pool) !in pools ==> h == map[]
    {
      h := map[];
      if PoolKey(namespace, pool) !in pools { return; }
      var data := pools[PoolKey(namespace, pool)];
      var rest := data.Keys;
      while rest != {}
        invariant h.Keys !! rest && h.Keys + rest == data.Keys
        invariant forall p :: p in h ==> h[p] == data[p]
        decreases rest
      {
        var p :| p in rest;
        h := h[p := data[p]];
        rest := rest - {p};
      }
    }

    method ReleaseAllocation(namespace: string, pool: string, pods: seq<string>)
      modifies this
      ensures pools == old(pools)[PoolKey(namespace, pool) := Drop(old(Entry(namespace, pool)), pods)]
    {
      var data := DropLoop(Entry(namespace, pool), pods);
      pools := pools[PoolKey(namespace, pool) := data];
    }

    method UpdateAllocation(namespace: string, pool: string, sandbox: string, pods: seq<string>)
      modifies this
      ensures pools == old(pools)[PoolKey(namespace, pool) := Reassign(old(Entry(namespace, pool)), sandbox, pods)]
    {
      var data := DropOwnerLoop(Entry(namespace, pool), sandbox);
      data := AssignLoop(data, sandbox, pods);
      pools := pools[PoolKey(namespace, pool) := data];
    }

    method ReleaseSandboxAllocation(namespace: string, pool: string, sandbox: string)
      modifies this
      ensures PoolKey(namespace, pool) !in old(pools) ==> pools == old(pools)
      ensures PoolKey(namespace, pool) in old(pools) ==>
        pools == old(pools)[PoolKey(namespace, pool) := DropOwner(old(Entry(namespace, pool)), sandbox)]
    {
      if PoolKey(namespace, pool) in pools {
        var data := DropOwnerLoop(Entry(namespace, pool), sandbox);
        pools := pools[PoolKey(namespace, pool) := data];
      }
    }
  }

  lemma {:induction false} AssignSnoc(h: Holding, s: string, pods: seq<string>, p: string)
    ensures Assign(h, s, pods + [p]) == Assign(h, s, pods)[p := s]
  {
    assert forall q :: q in pods + [p] <==> q in pods || q == p;
  }

  method AssignLoop(h: Holding, s: string, pods: seq<string>) returns (r: Holding)
    ensures r == Assign(h, s, pods)
  {
    r := h;
    for k := 0 to |pods|
      invariant r == Assign(h, s, pods[..k])
    {
      AssignSnoc(h, s, pods[..k], pods[k]);
      assert pods[..k + 1] == pods[..k] + [pods[k]];
      r := r[pods[k] := s];
    }
    assert pods[..|pods|] == pods;
  }

  method DropLoop(h: Holding, pods: seq<string>) returns (r: Holding)
    ensures r == Drop(h, pods)
  {
    r := h;
    for k := 0 to |pods|
      invariant r == Drop(h, pods[..k])
    {
      r := r - {pods[k]};
      assert pods[..k + 1] == pods[..k] + [pods[k]];
    }
    assert pods[..|pods|] == pods;
  }

  method DropOwnedLoop(h: Holding, s: string, pods: seq<string>) returns (r: Holding)
    ensures r == DropOwned(h, s, pods)
  {
    r := h;
    for k := 0 to |pods|
      invariant r == DropOwned(h, s, pods[..k])
    {
      var p := pods[k];
      assert pods[..k + 1] == pods[..k] + [p];
      if p in r && r[p] == s {
        r := r - {p};
      }
    }
    assert pods[..|pods|] == pods;
  }

  /** The deletion loop over a map, in any iteration order. */
  method DropOwnerLoop(h: Holding, s: string) returns (r: Holding)
    ensures r == DropOwner(h, s)
  {
    r := h;
    var rest := h.Keys;
    while rest != {}
      invariant rest <= h.Keys && r.Keys <= h.Keys
      invariant forall p :: p in r ==> r[p] == h[p]
      invariant forall p :: p in rest ==> p in r
      invariant forall p :: p in h && p !in rest ==> (p in r <==> h[p] != s)
      decreases rest
    {
      var p :| p in rest;
      rest := rest - {p};
      if h[p] == s {
        r := r - {p};
      }
    }
  }
}
