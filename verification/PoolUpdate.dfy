/** The recreate update strategy of a pool: which idle pods of an old revision to delete
    in one round, within an unavailability budget. */
module PoolUpdate {
  import opened Optional

  datatype PodPhase = Pending | Unknown | Running | Failed | Succeeded

  datatype Pod = Pod(
    name: string,
    revision: string,
    scheduled: bool,        // spec.nodeName is set
    phase: PodPhase,
    readyCondition: bool,
    readySince: int,
    restarts: int,
    created: int)

  predicate IsReady(p: Pod) { p.phase.Running? && p.readyCondition }

  // ---- The budget.

  /** intstr.IntOrString: a number, "n%", or a string that is neither. */
  datatype IntOrPercent = Int(n: int) | Percent(p: int) | Invalid

  const INT32_LIMIT := 0x8000_0000

  function WrapInt32(x: int): int {
    (x + INT32_LIMIT) % 0x1_0000_0000 - INT32_LIMIT
  }

  function CeilDiv(a: int, b: int): int
    requires b > 0
  {
    -((-a) / b)
  }

  /** The scaled value before it is cut down to 32 bits; errors and values below 1 give 1. */
  function ScaledUnavailable(setting: Option<IntOrPercent>, total: nat): int {
    var v := if setting.Some? then setting.value else Percent(25);
    match v
    case Int(n) => if n < 1 then 1 else n
    case Percent(p) => var r := CeilDiv(p * total, 100); if r < 1 then 1 else r
    case Invalid => 1
  }

  function MaxUnavailable(setting: Option<IntOrPercent>, total: nat): int {
    WrapInt32(ScaledUnavailable(setting, total))
  }

  /** m is the share of p percent, rounded up, and at least 1. */
  predicate RoundedUpShare(m: int, p: int, total: nat) {
    m >= 1 && 100 * m >= p * total && (m > 1 ==> 100 * (m - 1) < p * total)
  }

  lemma {:induction false} CeilDivMeaning(a: int, b: int)
    requires b > 0
    ensures b * (CeilDiv(a, b) - 1) < a <= b * CeilDiv(a, b)
  {
    assert -a == b * ((-a) / b) + (-a) % b;
  }

  /** The limit is the number given or the rounded-up share, a quarter by default, and at
      least 1, as long as it fits 32 bits. */
  lemma {:induction false} MaxUnavailableMeaning(setting: Option<IntOrPercent>, total: nat)
    requires ScaledUnavailable(setting, total) < INT32_LIMIT
    ensures var m := MaxUnavailable(setting, total);
      match setting
      case None => RoundedUpShare(m, 25, total)
      case Some(Percent(p)) => RoundedUpShare(m, p, total)
      case Some(Int(n)) => m == Max(n, 1)
      case Some(Invalid) => m == 1
    ensures MaxUnavailable(setting, total) == ScaledUnavailable(setting, total)
  {
    CeilDivMeaning(25 * total, 100);
    if setting.Some? && setting.value.Percent? {
      CeilDivMeaning(setting.value.p * total, 100);
    }
  }

  /** Cutting down to 32 bits keeps the value modulo 2^32, within the signed range. */
  lemma {:induction false} WrapInt32Meaning(x: int)
    ensures -INT32_LIMIT <= WrapInt32(x) < INT32_LIMIT && (x - WrapInt32(x)) % 0x1_0000_0000 == 0
  {
  }

  /** A percentage big enough to overflow can leave no budget at all. */
  lemma {:induction false} OverflowingPercentLeavesNoBudget()
    ensures MaxUnavailable(Some(Percent(429_496_729_600)), 1) == 0
  {
    assert CeilDiv(429_496_729_600, 100) == 0x1_0000_0000;
  }

  // ---- Deletion order.

  predicate StringLess(a: string, b: string) {
    b != "" && (a == "" || a[0] < b[0] || (a[0] == b[0] && StringLess(a[1..], b[1..])))
  }

  function PhaseOrder(p: PodPhase): int {
    match p
    case Unknown => 1
    case Running => 2
    case _ => 0
  }

  /** ComparePodsForDeletion: a goes before b. */
  predicate Before(a: Pod, b: Pod) {
    if a.scheduled != b.scheduled then !a.scheduled
    else if PhaseOrder(a.phase) != PhaseOrder(b.phase) then PhaseOrder(a.phase) < PhaseOrder(b.phase)
    else if IsReady(a) != IsReady(b) then !IsReady(a)
    else if IsReady(a) && IsReady(b) && a.readySince != b.readySince then a.readySince < b.readySince
    else if a.restarts != b.restarts then a.restarts > b.restarts
    else if a.created != b.created then b.created < a.created
    else StringLess(a.name, b.name)
  }

  lemma {:induction false} StringLessOrder(a: string, b: string, c: string)
    ensures !(StringLess(a, b) && StringLess(b, a))
    ensures !StringLess(a, b) && !StringLess(b, c) ==> !StringLess(a, c)
    ensures !StringLess(a, b) && !StringLess(b, a) ==> a == b
    decreases |a| + |b| + |c|
  {
    if a != "" && b != "" && c != "" {
      StringLessOrder(a[1..], b[1..], c[1..]);
      assert a == [a[0]] + a[1..] && b == [b[0]] + b[1..];
    } else if a != "" && b != "" {
      StringLessOrder(a[1..], b[1..], c);
      assert a == [a[0]] + a[1..] && b == [b[0]] + b[1..];
    }
  }

  /** The comparison is a strict order in which only pods of one name are unordered. */
  lemma {:induction false} BeforeOrder(a: Pod, b: Pod, c: Pod)
    ensures !(Before(a, b) && Before(b, a))
    ensures !Before(a, b) && !Before(b, c) ==> !Before(a, c)
    ensures !Before(a, b) && !Before(b, a) ==> a.name == b.name
  {
    StringLessOrder(a.name, b.name, c.name);
  }

  // ---- The order in terms of the pods' own fields.

  /** What is compared, most important first: unscheduled before scheduled, pending before
      unknown before running, not ready before ready, ready for longer before ready since
      lately, restarted more often before less often, created later before earlier. */
  function DeletionKey(p: Pod): seq<int> {
    [if p.scheduled then 1 else 0,
     match p.phase case Running => 2 case Unknown => 1 case _ => 0,
     if IsReady(p) then 1 else 0,
     if IsReady(p) then p.readySince else 0,
     0 - p.restarts,
     0 - p.created]
  }

  /** The first difference between the two decides; a missing entry counts as smallest. */
  ghost predicate LexLess(a: seq<int>, b: seq<int>) {
    exists k :: 0 <= k <= |a| && k < |b| && a[..k] == b[..k] && (k == |a| || a[k] < b[k])
  }

  function Codes(s: string): seq<int> { seq(|s|, i requires 0 <= i < |s| => s[i] as int) }

  /** a is to go before b: by the key, and by the name where the keys agree. */
  ghost predicate Precedes(a: Pod, b: Pod) {
    || LexLess(DeletionKey(a), DeletionKey(b))
    || (DeletionKey(a) == DeletionKey(b) && LexLess(Codes(a.name), Codes(b.name)))
  }

  lemma {:induction false} LexLessStep(a: seq<int>, b: seq<int>)
    ensures LexLess(a, b) <==> b != [] && (a == [] || a[0] < b[0] || (a[0] == b[0] && LexLess(a[1..], b[1..])))
  {
    if b != [] && (a == [] || a[0] < b[0]) {
      assert a[..0] == b[..0];
    }
    if a != [] && b != [] && a[0] == b[0] {
      if k :| 0 <= k <= |a| && k < |b| && a[..k] == b[..k] && (k == |a| || a[k] < b[k]) {
        assert k > 0;
        assert a[1..][..k - 1] == a[..k][1..] && b[1..][..k - 1] == b[..k][1..];
        assert LexLess(a[1..], b[1..]);
      }
      if LexLess(a[1..], b[1..]) {
        var k :| 0 <= k <= |a[1..]| && k < |b[1..]| && a[1..][..k] == b[1..][..k] &&
                  (k == |a[1..]| || a[1..][k] < b[1..][k]);
        assert a[..k + 1] == [a[0]] + a[1..][..k] && b[..k + 1] == [b[0]] + b[1..][..k];
      }
    } else if a != [] && b != [] && a[0] > b[0] {
      assert forall k :: 0 < k <= |a| && k < |b| ==> a[..k][0] != b[..k][0];
    }
  }

  lemma {:induction false} NamesInOrder(a: string, b: string)
    ensures StringLess(a, b) <==> LexLess(Codes(a), Codes(b))
  {
    LexLessStep(Codes(a), Codes(b));
    if a != "" && b != "" {
      NamesInOrder(a[1..], b[1..]);
      assert Codes(a)[1..] == Codes(a[1..]) && Codes(b)[1..] == Codes(b[1..]);
    }
  }

  lemma {:induction false} KeysInOrder(a: seq<int>, b: seq<int>)
    requires |a| == |b|
    ensures LexLess(a, b) ==> a != b
    ensures a != [] ==> (LexLess(a, b) <==> a[0] < b[0] || (a[0] == b[0] && LexLess(a[1..], b[1..])))
  {
    LexLessStep(a, b);
  }

  lemma {:induction false} SixInOrder(a: seq<int>, b: seq<int>)
    requires |a| == |b| == 6
    ensures LexLess(a, b) <==>
      if a[0] != b[0] then a[0] < b[0]
      else if a[1] != b[1] then a[1] < b[1]
      else if a[2] != b[2] then a[2] < b[2]
      else if a[3] != b[3] then a[3] < b[3]
      else if a[4] != b[4] then a[4] < b[4]
      else a[5] < b[5]
  {
    KeysInOrder(a, b);
    KeysInOrder(a[1..], b[1..]);
    KeysInOrder(a[1..][1..], b[1..][1..]);
    KeysInOrder(a[1..][1..][1..], b[1..][1..][1..]);
    KeysInOrder(a[1..][1..][1..][1..], b[1..][1..][1..][1..]);
    KeysInOrder(a[1..][1..][1..][1..][1..], b[1..][1..][1..][1..][1..]);
    LexLessStep([], []);
  }

  /** The comparison is the lexicographic order of the keys and then of the names. */
  lemma {:induction false} BeforeIsPrecedes(a: Pod, b: Pod)
    ensures Before(a, b) <==> Precedes(a, b)
  {
    SixInOrder(DeletionKey(a), DeletionKey(b));
    NamesInOrder(a.name, b.name);
    assert DeletionKey(a) == DeletionKey(b) <==> forall i :: 0 <= i < 6 ==> DeletionKey(a)[i] == DeletionKey(b)[i];
  }

  function Insert(p: Pod, sorted: seq<Pod>): seq<Pod> {
    if sorted == [] || !Before(sorted[0], p) then [p] + sorted
    else [sorted[0]] + Insert(p, sorted[1..])
  }

  /** sort.SliceStable with ComparePodsForDeletion. */
  function StableSort(pods: seq<Pod>): seq<Pod> {
    if pods == [] then [] else Insert(pods[0], StableSort(pods[1..]))
  }

  ghost predicate Sorted(pods: seq<Pod>) {
    forall i, j :: 0 <= i < j < |pods| ==> !Before(pods[j], pods[i])
  }

  lemma {:induction false} InsertSorts(p: Pod, sorted: seq<Pod>)
    requires Sorted(sorted)
    ensures Sorted(Insert(p, sorted)) && multiset(Insert(p, sorted)) == multiset{p} + multiset(sorted)
  {
    if sorted == [] || !Before(sorted[0], p) {
      var r := [p] + sorted;
      forall i, j | 0 <= i < j < |r|
        ensures !Before(r[j], r[i])
      {
        if i == 0 && sorted != [] {
          BeforeOrder(r[j], sorted[0], p);
        }
      }
    } else {
      var rest := Insert(p, sorted[1..]);
      InsertSorts(p, sorted[1..]);
      assert sorted == [sorted[0]] + sorted[1..];
      forall j | 0 <= j < |rest|
        ensures !Before(rest[j], sorted[0])
      {
        assert rest[j] in multiset(rest);
        BeforeOrder(p, sorted[0], p);
        if rest[j] != p {
          assert rest[j] in multiset(sorted[1..]);
        }
      }
    }
  }

  lemma {:induction false} StableSortSorts(pods: seq<Pod>)
    ensures Sorted(StableSort(pods)) && multiset(StableSort(pods)) == multiset(pods)
  {
    if pods == [] {
    } else {
      StableSortSorts(pods[1..]);
      InsertSorts(pods[0], StableSort(pods[1..]));
      assert multiset(pods) == multiset{pods[0]} + multiset(pods[1..]) by { assert pods == [pods[0]] + pods[1..]; }
    }
  }

  // ---- Choosing the pods.

  function PodMap(pods: seq<Pod>): map<string, Pod> {
    if pods == [] then map[] else PodMap(pods[..|pods| - 1])[pods[|pods| - 1].name := pods[|pods| - 1]]
  }

  function KnownIdle(byName: map<string, Pod>, idle: seq<string>): seq<Pod> {
    if idle == [] then []
    else KnownIdle(byName, idle[..|idle| - 1]) + (if idle[|idle| - 1] in byName then [byName[idle[|idle| - 1]]] else [])
  }

  function UnreadyCount(pods: seq<Pod>): nat {
    if pods == [] then 0 else UnreadyCount(pods[..|pods| - 1]) + (if IsReady(pods[|pods| - 1]) then 0 else 1)
  }

  predicate Outdated(p: Pod, revision: string) { p.revision != revision }

  datatype Choice = Choice(kept: seq<Pod>, deleted: seq<Pod>, budget: int)

  function Decide(c: Choice, p: Pod, revision: string): Choice {
    if !Outdated(p, revision) then c.(kept := c.kept + [p])
    else if !IsReady(p) then c.(deleted := c.deleted + [p])
    else if c.budget > 0 then c.(deleted := c.deleted + [p], budget := c.budget - 1)
    else c.(kept := c.kept + [p])
  }

  function Choose(pods: seq<Pod>, budget: int, revision: string): Choice {
    if pods == [] then Choice([], [], budget)
    else Decide(Choose(pods[..|pods| - 1], budget, revision), pods[|pods| - 1], revision)
  }

  /** The pods one round looks at, in deletion order. */
  function Candidates(pods: seq<Pod>, idle: seq<string>): seq<Pod> {
    StableSort(KnownIdle(PodMap(pods), idle))
  }

  function Budget(pods: seq<Pod>, setting: Option<IntOrPercent>): int {
    var left := WrapInt32(MaxUnavailable(setting, |pods|) - UnreadyCount(pods));
    if left > 0 then left else 0
  }

  function NamesOf(pods: seq<Pod>): seq<string> {
    if pods == [] then [] else NamesOf(pods[..|pods| - 1]) + [pods[|pods| - 1].name]
  }

  function RoundChoice(pods: seq<Pod>, idle: seq<string>, setting: Option<IntOrPercent>, revision: string): Choice {
    Choose(Candidates(pods, idle), Budget(pods, setting), revision)
  }

  datatype UpdateResult = UpdateResult(idlePods: seq<string>, toDeletePods: seq<string>, supply: int)

  method Compute(pods: seq<Pod>, idle: seq<string>, setting: Option<IntOrPercent>, revision: string)
    returns (r: UpdateResult)
    ensures var c := RoundChoice(pods, idle, setting, revision);
      r == UpdateResult(NamesOf(c.kept), NamesOf(c.deleted), |c.deleted|)
  {
    var budget := ComputeBudget(pods, setting);
    var list := SortIdle(pods, idle);
    r := SplitIdle(list, budget, revision);
  }

  method ComputeBudget(pods: seq<Pod>, setting: Option<IntOrPercent>) returns (budget: int)
    ensures budget == Budget(pods, setting)
  {
    var maxUnavailable := MaxUnavailable(setting, |pods|);
    var curUnavailable := CountUnready(pods);
    var left := WrapInt32(maxUnavailable - curUnavailable);
    budget := if left > 0 then left else 0;
  }

  method SortIdle(pods: seq<Pod>, idle: seq<string>) returns (list: seq<Pod>)
    ensures list == Candidates(pods, idle)
  {
    var podMap := BuildPodMap(pods);
    var idleList := CollectIdle(podMap, idle);
    list := StableSort(idleList);
  }

  method BuildPodMap(pods: seq<Pod>) returns (m: map<string, Pod>)
    ensures m == PodMap(pods)
  {
    m := map[];
    for i := 0 to |pods|
      invariant m == PodMap(pods[..i])
    {
      assert pods[..i + 1][..i] == pods[..i];
      m := m[pods[i].name := pods[i]];
    }
    assert pods[..|pods|] == pods;
  }

  method CountUnready(pods: seq<Pod>) returns (n: nat)
    ensures n == UnreadyCount(pods)
  {
    n := 0;
    for i := 0 to |pods|
      invariant n == UnreadyCount(pods[..i])
    {
      assert pods[..i + 1][..i] == pods[..i];
      if !IsReady(pods[i]) {
        n := n + 1;
      }
    }
    assert pods[..|pods|] == pods;
  }

  method CollectIdle(byName: map<string, Pod>, idle: seq<string>) returns (list: seq<Pod>)
    ensures list == KnownIdle(byName, idle)
  {
    list := [];
    for i := 0 to |idle|
      invariant list == KnownIdle(byName, idle[..i])
    {
      assert idle[..i + 1][..i] == idle[..i];
      if idle[i] in byName {
        list := list + [byName[idle[i]]];
      }
    }
    assert idle[..|idle|] == idle;
  }

  method SplitIdle(list: seq<Pod>, budget: int, revision: string) returns (r: UpdateResult)
    ensures var c := Choose(list, budget, revision);
      r == UpdateResult(NamesOf(c.kept), NamesOf(c.deleted), |c.deleted|)
  {
    var left, supply := budget, 0;
    var toDelete: seq<string> := [];
    var remaining: seq<string> := [];
    ghost var c := Choose(list[..0], budget, revision);
    for i := 0 to |list|
      invariant c == Choose(list[..i], budget, revision)
      invariant remaining == NamesOf(c.kept) && toDelete == NamesOf(c.deleted)
      invariant supply == |c.deleted| && left == c.budget
    {
      var pod := list[i];
      assert list[..i + 1][..i] == list[..i];
      c := Decide(c, pod, revision);
      if pod.revision == revision {
        remaining := remaining + [pod.name];
        continue;
      }
      if !IsReady(pod) {
        toDelete := toDelete + [pod.name];
        supply := supply + 1;
      } else if left > 0 {
        toDelete := toDelete + [pod.name];
        supply := supply + 1;
        left := left - 1;
      } else {
        remaining := remaining + [pod.name];
      }
    }
    assert list[..|list|] == list;
    r := UpdateResult(remaining, toDelete, supply);
  }

  // ---- What a round guarantees.

  function ReadyCount(pods: seq<Pod>): nat {
    if pods == [] then 0 else ReadyCount(pods[..|pods| - 1]) + (if IsReady(pods[|pods| - 1]) then 1 else 0)
  }

  lemma {:induction false} ReadySnoc(pods: seq<Pod>, p: Pod)
    ensures ReadyCount(pods + [p]) == ReadyCount(pods) + (if IsReady(p) then 1 else 0)
  {
    assert (pods + [p])[..|pods|] == pods;
  }

  /** What is deleted is outdated, the budget pays for the ready ones among it, and while
      budget is left every outdated pod goes. */
  ghost predicate WithinBudget(c: Choice, budget: int, revision: string) {
    && (forall i :: 0 <= i < |c.deleted| ==> Outdated(c.deleted[i], revision))
    && 0 <= c.budget && ReadyCount(c.deleted) + c.budget == budget
    && (forall i :: 0 <= i < |c.kept| && Outdated(c.kept[i], revision) ==> IsReady(c.kept[i]) && c.budget == 0)
  }

  lemma {:induction false} ChooseStaysWithinBudget(pods: seq<Pod>, budget: nat, revision: string)
    ensures WithinBudget(Choose(pods, budget, revision), budget, revision)
  {
    if pods == [] {
    } else {
      var n := |pods| - 1;
      ChooseStaysWithinBudget(pods[..n], budget, revision);
      DecideStaysWithinBudget(Choose(pods[..n], budget, revision), pods[n], budget, revision);
    }
  }

  lemma {:induction false} DecideStaysWithinBudget(c: Choice, p: Pod, budget: nat, revision: string)
    requires WithinBudget(c, budget, revision)
    ensures WithinBudget(Decide(c, p, revision), budget, revision)
  {
    ReadySnoc(c.deleted, p);
  }

  /** Nothing is lost between kept and deleted. */
  lemma {:induction false} ChoosePartitions(pods: seq<Pod>, budget: int, revision: string)
    ensures var c := Choose(pods, budget, revision); multiset(c.kept) + multiset(c.deleted) == multiset(pods)
  {
    if pods == [] {
    } else {
      var n := |pods| - 1;
      ChoosePartitions(pods[..n], budget, revision);
      assert multiset(pods) == multiset(pods[..n]) + multiset{pods[n]} by { assert pods == pods[..n] + [pods[n]]; }
      DecideAddsOne(Choose(pods[..n], budget, revision), pods[n], revision);
    }
  }

  lemma {:induction false} DecideAddsOne(c: Choice, p: Pod, revision: string)
    ensures var d := Decide(c, p, revision);
      multiset(d.kept) + multiset(d.deleted) == multiset(c.kept) + multiset(c.deleted) + multiset{p}
  {
  }

  /** Deletion priority: no outdated pod is kept that should have gone before a deleted
      ready one. */
  lemma {:induction false} ChooseRespectsOrder(pods: seq<Pod>, budget: nat, revision: string, k: nat, d: nat)
    requires Sorted(pods)
    requires var c := Choose(pods, budget, revision);
      k < |c.kept| && d < |c.deleted| && Outdated(c.kept[k], revision) && IsReady(c.deleted[d])
    ensures var c := Choose(pods, budget, revision); !Before(c.kept[k], c.deleted[d])
  {
    var n := |pods| - 1;
    var front, p := pods[..n], pods[n];
    var c0 := Choose(front, budget, revision);
    ChooseStaysWithinBudget(front, budget, revision);
    ChoosePartitions(front, budget, revision);
    // a ready pod is deleted only while budget is left, before any outdated pod is kept
    if k < |c0.kept| && d < |c0.deleted| {
      ChooseRespectsOrder(front, budget, revision, k, d);
    } else if d < |c0.deleted| {
      assert c0.deleted[d] in multiset(front);
    }
  }

  /** What a round looks at: the pods known under an idle name, the last of a name where a
      name comes twice, in deletion order. */
  lemma {:induction false} CandidatesAreIdlePodsInOrder(pods: seq<Pod>, idle: seq<string>)
    ensures var list := Candidates(pods, idle);
      && (forall p :: p in list <==> p.name in idle && LastNamed(pods, p))
      && (forall i, j :: 0 <= i < j < |list| ==> !Precedes(list[j], list[i]))
  {
    CandidatesAreIdlePods(pods, idle);
    StableSortSorts(KnownIdle(PodMap(pods), idle));
    var list := Candidates(pods, idle);
    forall i, j | 0 <= i < j < |list|
      ensures !Precedes(list[j], list[i])
    {
      BeforeIsPrecedes(list[j], list[i]);
    }
  }

  lemma {:induction false} CandidatesAreIdlePods(pods: seq<Pod>, idle: seq<string>)
    ensures forall p :: p in Candidates(pods, idle) <==> p.name in idle && LastNamed(pods, p)
  {
    var known, list := KnownIdle(PodMap(pods), idle), Candidates(pods, idle);
    PodMapMeaning(pods);
    KnownIdleMembers(PodMap(pods), idle);
    forall p
      ensures p in list <==> p in known
    {
      StableSortSorts(known);
      assert p in list <==> p in multiset(list);
    }
  }

  /** p is listed, and no later pod has its name. */
  ghost predicate LastNamed(pods: seq<Pod>, p: Pod) {
    exists k :: 0 <= k < |pods| && pods[k] == p && forall j :: k < j < |pods| ==> pods[j].name != p.name
  }

  lemma {:induction false} PodMapMeaning(pods: seq<Pod>)
    ensures forall p: Pod :: LastNamed(pods, p) <==> p.name in PodMap(pods) && PodMap(pods)[p.name] == p
    ensures forall n :: n in PodMap(pods) ==> PodMap(pods)[n].name == n
  {
    if pods == [] {
    } else {
      var m := |pods| - 1;
      var front, last := pods[..m], pods[m];
      PodMapMeaning(front);
      forall p: Pod
        ensures LastNamed(pods, p) <==> p == last || (p.name != last.name && LastNamed(front, p))
      {
        LastNamedSnoc(front, last, p);
        assert pods == front + [last];
      }
    }
  }

  lemma {:induction false} LastNamedSnoc(front: seq<Pod>, last: Pod, p: Pod)
    ensures LastNamed(front + [last], p) <==> p == last || (p.name != last.name && LastNamed(front, p))
  {
    var all, m := front + [last], |front|;
    assert all[m] == last;
    if k :| 0 <= k < |all| && all[k] == p && forall j :: k < j < |all| ==> all[j].name != p.name {
      if k < m {
        assert front[k] == p && forall j :: k < j < m ==> front[j] == all[j];
      }
    }
    if p.name != last.name && LastNamed(front, p) {
      var k :| 0 <= k < m && front[k] == p && forall j :: k < j < m ==> front[j].name != p.name;
      assert all[k] == p && forall j :: k < j < m ==> all[j] == front[j];
    }
  }

  lemma {:induction false} KnownIdleMembers(byName: map<string, Pod>, idle: seq<string>)
    requires forall n :: n in byName ==> byName[n].name == n
    ensures forall p: Pod :: p in KnownIdle(byName, idle) <==> p.name in idle && p.name in byName && byName[p.name] == p
  {
    if idle == [] {
    } else {
      var m := |idle| - 1;
      KnownIdleMembers(byName, idle[..m]);
      assert idle == idle[..m] + [idle[m]];
    }
  }

  /** Of two ready pods of an old revision, b goes at least as early as a: it is the
      unscheduled one, or has been ready for as long; if equally long, restarted as often;
      if equally often, created as late; and then by name. */
  ghost predicate GoesFirst(b: Pod, a: Pod) {
    if b.scheduled != a.scheduled then !b.scheduled
    else if b.readySince != a.readySince then b.readySince < a.readySince
    else if b.restarts != a.restarts then b.restarts > a.restarts
    else if b.created != a.created then b.created > a.created
    else !LexLess(Codes(a.name), Codes(b.name))
  }

  lemma {:induction false} ReadyOrder(a: Pod, b: Pod)
    requires IsReady(a) && IsReady(b)
    ensures !Precedes(a, b) <==> GoesFirst(b, a)
  {
    SixInOrder(DeletionKey(a), DeletionKey(b));
    assert DeletionKey(a) == DeletionKey(b) <==> forall i :: 0 <= i < 6 ==> DeletionKey(a)[i] == DeletionKey(b)[i];
  }

  /** Deletion order of a whole round: every ready pod it deletes goes before every pod of
      an old revision it keeps. */
  lemma {:induction false} RoundDeletesInOrder(
      pods: seq<Pod>, idle: seq<string>, setting: Option<IntOrPercent>, revision: string, a: Pod, b: Pod)
    requires var c := RoundChoice(pods, idle, setting, revision);
      a in c.kept && Outdated(a, revision) && b in c.deleted && IsReady(b)
    ensures IsReady(a) && GoesFirst(b, a)
  {
    var list, budget := Candidates(pods, idle), Budget(pods, setting);
    var c := Choose(list, budget, revision);
    StableSortSorts(KnownIdle(PodMap(pods), idle));
    ChooseStaysWithinBudget(list, budget, revision);
    var k :| 0 <= k < |c.kept| && c.kept[k] == a;
    var d :| 0 <= d < |c.deleted| && c.deleted[d] == b;
    ChooseRespectsOrder(list, budget, revision, k, d);
    BeforeIsPrecedes(a, b);
    ReadyOrder(a, b);
  }

  lemma {:induction false} UnreadyCountMeaning(pods: seq<Pod>)
    ensures UnreadyCount(pods) == |set i | 0 <= i < |pods| && !IsReady(pods[i])|
    ensures UnreadyCount(pods) + ReadyCount(pods) == |pods|
  {
    if pods == [] {
    } else {
      var n := |pods| - 1;
      UnreadyCountMeaning(pods[..n]);
      assert (set i | 0 <= i < |pods| && !IsReady(pods[i])) ==
        (set i | 0 <= i < n && !IsReady(pods[..n][i])) + (if IsReady(pods[n]) then {} else {n});
    }
  }

  /** The 32-bit subtraction gives what is left of the limit, unless it wraps around. */
  lemma {:induction false} BudgetMeaning(pods: seq<Pod>, setting: Option<IntOrPercent>)
    requires |pods| < INT32_LIMIT
    ensures var left := MaxUnavailable(setting, |pods|) - UnreadyCount(pods);
      Budget(pods, setting) == Max(left, 0) <==> left >= -INT32_LIMIT
  {
    UnreadyBounded(pods);
  }

  lemma {:induction false} UnreadyBounded(pods: seq<Pod>)
    ensures UnreadyCount(pods) <= |pods|
  {
    if pods == [] {
    } else {
      UnreadyBounded(pods[..|pods| - 1]);
    }
  }

  /** Ready deletions on top of the pods already unready stay within the limit, or within
      the pods already unready where those exceed it. */
  ghost predicate KeepsLimit(pods: seq<Pod>, idle: seq<string>, setting: Option<IntOrPercent>, revision: string) {
    ReadyCount(RoundChoice(pods, idle, setting, revision).deleted) + UnreadyCount(pods)
      <= Max(MaxUnavailable(setting, |pods|), UnreadyCount(pods))
  }

  /** One round deletes known idle pods of old revisions only, loses none of the others, and
      spends no more than the budget; it keeps the limit as long as the 32-bit subtraction
      that makes the budget does not wrap around. */
  lemma {:induction false} RoundGuarantees(
      pods: seq<Pod>, idle: seq<string>, setting: Option<IntOrPercent>, revision: string)
    ensures var c := RoundChoice(pods, idle, setting, revision);
      && multiset(c.kept) + multiset(c.deleted) == multiset(KnownIdle(PodMap(pods), idle))
      && WithinBudget(c, Budget(pods, setting), revision)
    ensures var left := MaxUnavailable(setting, |pods|) - UnreadyCount(pods);
      |pods| < INT32_LIMIT && left >= -INT32_LIMIT ==>
        Budget(pods, setting) == Max(left, 0) && KeepsLimit(pods, idle, setting, revision)
  {
    var list, budget := Candidates(pods, idle), Budget(pods, setting);
    ChooseStaysWithinBudget(list, budget, revision);
    RoundPartitions(pods, idle, budget, revision);
    if |pods| < INT32_LIMIT {
      BudgetMeaning(pods, setting);
    }
  }

  lemma {:induction false} RoundPartitions(pods: seq<Pod>, idle: seq<string>, budget: int, revision: string)
    ensures var c := Choose(Candidates(pods, idle), budget, revision);
      multiset(c.kept) + multiset(c.deleted) == multiset(KnownIdle(PodMap(pods), idle))
  {
    StableSortSorts(KnownIdle(PodMap(pods), idle));
    ChoosePartitions(Candidates(pods, idle), budget, revision);
  }

  function Max(a: int, b: int): int { if a > b then a else b }

  // ---- The rollout ends.

  function OutdatedNames(pods: seq<Pod>, revision: string): set<string> {
    set i | 0 <= i < |pods| && Outdated(pods[i], revision) :: pods[i].name
  }

  ghost predicate DistinctNames(pods: seq<Pod>) {
    forall i, j :: 0 <= i < j < |pods| ==> pods[i].name != pods[j].name
  }

  /** A moment at which all pods are idle and every updated pod is ready. */
  ghost predicate Settled(pods: seq<Pod>, revision: string) {
    && |pods| < INT32_LIMIT && DistinctNames(pods)
    && forall i :: 0 <= i < |pods| && !Outdated(pods[i], revision) ==> IsReady(pods[i])
  }

  /** After a round: the outdated pods left are among those not deleted. */
  ghost predicate Follows(pods: seq<Pod>, next: seq<Pod>, setting: Option<IntOrPercent>, revision: string) {
    var c := RoundChoice(pods, NamesOf(pods), setting, revision);
    forall n :: n in OutdatedNames(next, revision) ==> n in OutdatedNames(pods, revision) && n !in NamesOf(c.deleted)
  }

  lemma {:induction false} PodMapFinds(pods: seq<Pod>)
    requires DistinctNames(pods)
    ensures forall i :: 0 <= i < |pods| ==> pods[i].name in PodMap(pods) && PodMap(pods)[pods[i].name] == pods[i]
    ensures forall n :: n in PodMap(pods) ==> exists i :: 0 <= i < |pods| && pods[i].name == n
  {
    if pods == [] {
    } else {
      var m := |pods| - 1;
      PodMapFinds(pods[..m]);
      forall i | 0 <= i < m
        ensures pods[i].name in PodMap(pods) && PodMap(pods)[pods[i].name] == pods[i]
      {
        assert pods[..m][i] == pods[i] && pods[i].name != pods[m].name;
      }
      forall n | n in PodMap(pods)
        ensures exists i :: 0 <= i < |pods| && pods[i].name == n
      {
        if n != pods[m].name {
          var i :| 0 <= i < |pods[..m]| && pods[..m][i].name == n;
          assert pods[i].name == n;
        }
      }
    }
  }

  lemma {:induction false} AllIdleAreKnown(byName: map<string, Pod>, pods: seq<Pod>)
    requires forall i :: 0 <= i < |pods| ==> pods[i].name in byName && byName[pods[i].name] == pods[i]
    ensures KnownIdle(byName, NamesOf(pods)) == pods
  {
    if pods == [] {
    } else {
      var m := |pods| - 1;
      AllIdleAreKnown(byName, pods[..m]);
      assert pods == pods[..m] + [pods[m]];
      assert NamesOf(pods)[..m] == NamesOf(pods[..m]) by { NamesLength(pods[..m]); }
      NamesLength(pods);
    }
  }

  lemma {:induction false} NamesLength(pods: seq<Pod>)
    ensures |NamesOf(pods)| == |pods|
    ensures forall i :: 0 <= i < |pods| ==> NamesOf(pods)[i] == pods[i].name
  {
    if pods == [] {
    } else {
      NamesLength(pods[..|pods| - 1]);
    }
  }

  lemma {:induction false} NoUnreadyMeansZero(pods: seq<Pod>)
    requires forall i :: 0 <= i < |pods| ==> IsReady(pods[i])
    ensures UnreadyCount(pods) == 0
  {
    if pods == [] {
    } else {
      NoUnreadyMeansZero(pods[..|pods| - 1]);
    }
  }

  /** Without a deletion every pod is ready, and none is outdated. */
  lemma {:induction false} NoDeletionMeansDone(pods: seq<Pod>, kept: seq<Pod>, limit: int, revision: string)
    requires Settled(pods, revision) && limit >= 1
    requires multiset(kept) == multiset(pods)
    requires var left := Max(limit - UnreadyCount(pods), 0); WithinBudget(Choice(kept, [], left), left, revision)
    ensures OutdatedNames(pods, revision) == {}
  {
    forall i | 0 <= i < |pods|
      ensures IsReady(pods[i])
    {
      assert pods[i] in multiset(kept);
      var j :| 0 <= j < |kept| && kept[j] == pods[i];
    }
    NoUnreadyMeansZero(pods);
    forall i | 0 <= i < |pods|
      ensures !Outdated(pods[i], revision)
    {
      assert pods[i] in multiset(kept);
      var j :| 0 <= j < |kept| && kept[j] == pods[i];
    }
  }

  /** A settled pool with outdated pods deletes at least one of them. */
  lemma {:induction false} RoundMakesProgress(pods: seq<Pod>, setting: Option<IntOrPercent>, revision: string)
    returns (d: string)
    requires Settled(pods, revision) && MaxUnavailable(setting, |pods|) >= 1
    requires OutdatedNames(pods, revision) != {}
    ensures d in NamesOf(RoundChoice(pods, NamesOf(pods), setting, revision).deleted)
    ensures d in OutdatedNames(pods, revision)
  {
    RoundOnAllPods(pods, setting, revision);
    var c := RoundChoice(pods, NamesOf(pods), setting, revision);
    d := SomeDeleted(pods, c, MaxUnavailable(setting, |pods|), revision);
  }

  lemma {:induction false} RoundOnAllPods(pods: seq<Pod>, setting: Option<IntOrPercent>, revision: string)
    requires Settled(pods, revision) && MaxUnavailable(setting, |pods|) >= 1
    ensures var c := RoundChoice(pods, NamesOf(pods), setting, revision);
      && multiset(c.kept) + multiset(c.deleted) == multiset(pods)
      && WithinBudget(c, Max(MaxUnavailable(setting, |pods|) - UnreadyCount(pods), 0), revision)
  {
    PodMapFinds(pods);
    UnreadyBounded(pods);
    AllIdleAreKnown(PodMap(pods), pods);
    RoundGuarantees(pods, NamesOf(pods), setting, revision);
  }

  lemma {:induction false} SomeDeleted(pods: seq<Pod>, c: Choice, limit: int, revision: string) returns (d: string)
    requires Settled(pods, revision) && limit >= 1 && OutdatedNames(pods, revision) != {}
    requires multiset(c.kept) + multiset(c.deleted) == multiset(pods)
    requires WithinBudget(c, Max(limit - UnreadyCount(pods), 0), revision)
    ensures d in NamesOf(c.deleted) && d in OutdatedNames(pods, revision)
  {
    if c.deleted == [] {
      NoDeletionMeansDone(pods, c.kept, limit, revision);
    }
    NamesLength(c.deleted);
    d := c.deleted[0].name;
    assert NamesOf(c.deleted)[0] == d;
    assert c.deleted[0] in multiset(pods);
    var i :| 0 <= i < |pods| && pods[i] == c.deleted[0];
  }

  // ---- When a rollout can stall.

  ghost predicate Progresses(pods: seq<Pod>, setting: Option<IntOrPercent>, revision: string) {
    Settled(pods, revision) && OutdatedNames(pods, revision) != {} ==>
      RoundChoice(pods, NamesOf(pods), setting, revision).deleted != []
  }

  function Unary(i: nat): string { seq(i, _ => 'x') }

  /** n ready pods of another revision. */
  function OldPool(n: nat, revision: string): seq<Pod> {
    seq(n, i requires 0 <= i < n => Pod(Unary(i), revision + "x", true, Running, true, 0, 0, 0))
  }

  lemma {:induction false} NothingPaidNothingDeleted(pods: seq<Pod>, revision: string)
    requires forall i :: 0 <= i < |pods| ==> IsReady(pods[i])
    ensures Choose(pods, 0, revision).deleted == [] && Choose(pods, 0, revision).budget == 0
  {
    if pods == [] {
    } else {
      NothingPaidNothingDeleted(pods[..|pods| - 1], revision);
    }
  }

  lemma {:induction false} OldPoolIsSettled(n: nat, revision: string)
    requires 0 < n < INT32_LIMIT
    ensures Settled(OldPool(n, revision), revision) && OutdatedNames(OldPool(n, revision), revision) != {}
  {
    var pods := OldPool(n, revision);
    assert |revision + "x"| != |revision|;
    forall i, j | 0 <= i < j < n
      ensures pods[i].name != pods[j].name
    {
      assert |pods[i].name| == i && |pods[j].name| == j;
    }
    assert Outdated(pods[0], revision) && pods[0].name in OutdatedNames(pods, revision);
  }

  lemma {:induction false} SortedStaysReady(pods: seq<Pod>)
    requires forall i :: 0 <= i < |pods| ==> IsReady(pods[i])
    ensures forall i :: 0 <= i < |StableSort(pods)| ==> IsReady(StableSort(pods)[i])
  {
    var sorted := StableSort(pods);
    StableSortSorts(pods);
    forall i | 0 <= i < |sorted|
      ensures IsReady(sorted[i])
    {
      assert sorted[i] in multiset(pods);
    }
  }

  /** Without a limit to spend, a pool of ready pods loses none. */
  lemma {:induction false} ReadyPoolStalls(pods: seq<Pod>, setting: Option<IntOrPercent>, revision: string)
    requires DistinctNames(pods) && forall i :: 0 <= i < |pods| ==> IsReady(pods[i])
    requires |pods| < INT32_LIMIT && MaxUnavailable(setting, |pods|) < 1
    ensures RoundChoice(pods, NamesOf(pods), setting, revision).deleted == []
  {
    assert Budget(pods, setting) == 0 by { NoUnreadyMeansZero(pods); }
    assert Candidates(pods, NamesOf(pods)) == StableSort(pods) by {
      PodMapFinds(pods);
      AllIdleAreKnown(PodMap(pods), pods);
    }
    SortedStaysReady(pods);
    NothingPaidNothingDeleted(StableSort(pods), revision);
  }

  /** Every settled pool of n pods with outdated ones makes progress, if and only if the
      limit cut down to 32 bits is positive. */
  lemma {:induction false} ProgressIffLimitPositive(n: nat, setting: Option<IntOrPercent>, revision: string)
    requires 0 < n < INT32_LIMIT
    ensures (forall pods: seq<Pod> :: |pods| == n ==> Progresses(pods, setting, revision)) <==>
      MaxUnavailable(setting, n) >= 1
  {
    if MaxUnavailable(setting, n) >= 1 {
      forall pods: seq<Pod> | |pods| == n
        ensures Progresses(pods, setting, revision)
      {
        if Settled(pods, revision) && OutdatedNames(pods, revision) != {} {
          var d := RoundMakesProgress(pods, setting, revision);
        }
      }
    } else {
      var pods := OldPool(n, revision);
      OldPoolIsSettled(n, revision);
      ReadyPoolStalls(pods, setting, revision);
      assert |pods| == n && !Progresses(pods, setting, revision);
    }
  }

  // ---- When the limit can be broken.

  lemma {:induction false} NoReadyNothingCounted(pods: seq<Pod>)
    requires forall i :: 0 <= i < |pods| ==> !IsReady(pods[i])
    ensures ReadyCount(pods) == 0
  {
    if pods == [] {
    } else {
      NoReadyNothingCounted(pods[..|pods| - 1]);
    }
  }

  lemma {:induction false} AllUnready(pods: seq<Pod>)
    ensures UnreadyCount(pods) == |pods| <==> forall i :: 0 <= i < |pods| ==> !IsReady(pods[i])
  {
    if pods == [] {
    } else {
      var n := |pods| - 1;
      AllUnready(pods[..n]);
      UnreadyBounded(pods[..n]);
      assert forall i :: 0 <= i < n ==> pods[..n][i] == pods[i];
    }
  }

  lemma {:induction false} KnownIdleArePods(byName: map<string, Pod>, idle: seq<string>)
    ensures forall i :: 0 <= i < |KnownIdle(byName, idle)| ==> KnownIdle(byName, idle)[i] in byName.Values
  {
    if idle == [] {
    } else {
      KnownIdleArePods(byName, idle[..|idle| - 1]);
    }
  }

  lemma {:induction false} MappedArePods(pods: seq<Pod>)
    ensures forall n :: n in PodMap(pods) ==> PodMap(pods)[n] in pods
  {
    if pods == [] {
    } else {
      MappedArePods(pods[..|pods| - 1]);
    }
  }

  /** A pool without a ready pod has none to lose. */
  lemma {:induction false} UnreadyPoolKeepsLimit(
      pods: seq<Pod>, idle: seq<string>, setting: Option<IntOrPercent>, revision: string)
    requires UnreadyCount(pods) == |pods|
    ensures KeepsLimit(pods, idle, setting, revision)
  {
    var c := RoundChoice(pods, idle, setting, revision);
    RoundGuarantees(pods, idle, setting, revision);
    AllUnready(pods);
    KnownIdleArePods(PodMap(pods), idle);
    MappedArePods(pods);
    forall i | 0 <= i < |c.deleted|
      ensures !IsReady(c.deleted[i])
    {
      assert c.deleted[i] in multiset(KnownIdle(PodMap(pods), idle));
    }
    NoReadyNothingCounted(c.deleted);
  }

  /** n pods of another revision, of which only the last is ready. */
  function OneReady(n: nat, revision: string): seq<Pod> {
    seq(n, i requires 0 <= i < n => Pod(Unary(i), revision + "x", true, Running, i == n - 1, 0, 0, 0))
  }

  lemma {:induction false} OneReadyCounts(n: nat, revision: string)
    requires n > 0
    ensures UnreadyCount(OneReady(n, revision)) == n - 1 && DistinctNames(OneReady(n, revision))
  {
    var pods := OneReady(n, revision);
    AllUnready(pods[..n - 1]);
    forall i, j | 0 <= i < j < n
      ensures pods[i].name != pods[j].name
    {
      assert |pods[i].name| == i && |pods[j].name| == j;
    }
  }

  lemma {:induction false} OneReadyBreaksLimit(n: nat, setting: Option<IntOrPercent>, revision: string)
    requires 0 < n < INT32_LIMIT && MaxUnavailable(setting, n) - (n - 1) < -INT32_LIMIT
    ensures !KeepsLimit(OneReady(n, revision), [Unary(n - 1)], setting, revision)
  {
    var pods := OneReady(n, revision);
    var p := pods[n - 1];
    OneReadyCounts(n, revision);
    assert Budget(pods, setting) > 0;
    PodMapFinds(pods);
    LastIsOnlyCandidate(pods);
    assert |revision + "x"| != |revision|;
    assert Outdated(p, revision) && IsReady(p);
    assert [p][..0] == [] && Choose([p], Budget(pods, setting), revision).deleted == [p];
    assert ReadyCount([p]) == 1 by { ReadySnoc([], p); assert [] + [p] == [p]; }
  }

  lemma {:induction false} LastIsOnlyCandidate(pods: seq<Pod>)
    requires pods != [] && DistinctNames(pods)
    ensures Candidates(pods, [pods[|pods| - 1].name]) == [pods[|pods| - 1]]
  {
    var p := pods[|pods| - 1];
    PodMapFinds(pods);
    assert [p.name][..0] == [];
    assert KnownIdle(PodMap(pods), [p.name]) == [p];
    StableSortSorts([p]);
    var sorted := StableSort([p]);
    assert |sorted| == |multiset(sorted)| == 1 && sorted[0] in multiset([p]);
  }

  /** A percentage big enough to overflow twice: of two pods, one of them unready, the ready
      one is deleted although the limit is below zero. */
  lemma {:induction false} OverflowingPercentBreaksLimit(revision: string)
    ensures var setting := Some(Percent(107_374_182_400));
      && MaxUnavailable(setting, 2) == -INT32_LIMIT
      && UnreadyCount(OneReady(2, revision)) == 1
      && ReadyCount(RoundChoice(OneReady(2, revision), [Unary(1)], setting, revision).deleted) >= 1
      && !KeepsLimit(OneReady(2, revision), [Unary(1)], setting, revision)
  {
    var setting := Some(Percent(107_374_182_400));
    assert CeilDiv(107_374_182_400 * 2, 100) == INT32_LIMIT;
    OneReadyCounts(2, revision);
    OneReadyBreaksLimit(2, setting, revision);
  }

  /** Every round over n pods keeps the limit, if and only if the subtraction does not wrap
      even with all but one of them unready. */
  lemma {:induction false} LimitKeptIff(n: nat, setting: Option<IntOrPercent>, revision: string)
    requires 0 < n < INT32_LIMIT
    ensures (forall pods: seq<Pod>, idle: seq<string> :: |pods| == n ==> KeepsLimit(pods, idle, setting, revision))
       <==> MaxUnavailable(setting, n) - (n - 1) >= -INT32_LIMIT
  {
    if MaxUnavailable(setting, n) - (n - 1) >= -INT32_LIMIT {
      forall pods: seq<Pod>, idle: seq<string> | |pods| == n
        ensures KeepsLimit(pods, idle, setting, revision)
      {
        UnreadyBounded(pods);
        if UnreadyCount(pods) == n {
          UnreadyPoolKeepsLimit(pods, idle, setting, revision);
        } else {
          RoundGuarantees(pods, idle, setting, revision);
        }
      }
    } else {
      OneReadyBreaksLimit(n, setting, revision);
      assert |OneReady(n, revision)| == n;
    }
  }

  /** Rounds taken at settled moments use up the outdated pods: there are at most as many
      such rounds with work left as there were outdated pods. */
  lemma {:induction false} RolloutEnds(rounds: seq<seq<Pod>>, setting: Option<IntOrPercent>, revision: string)
    requires |rounds| > 0
    requires forall i :: 0 <= i < |rounds| ==> Settled(rounds[i], revision) && MaxUnavailable(setting, |rounds[i]|) >= 1
    requires forall i :: 0 <= i < |rounds| - 1 ==> Follows(rounds[i], rounds[i + 1], setting, revision)
    ensures OutdatedNames(rounds[|rounds| - 1], revision) == {} ||
            |OutdatedNames(rounds[|rounds| - 1], revision)| + (|rounds| - 1) <= |OutdatedNames(rounds[0], revision)|
  {
    if |rounds| > 1 {
      var m := |rounds| - 1;
      RolloutEnds(rounds[..m], setting, revision);
      var before, after := OutdatedNames(rounds[m - 1], revision), OutdatedNames(rounds[m], revision);
      assert Follows(rounds[m - 1], rounds[m], setting, revision);
      assert after <= before;
      if after != {} {
        var d := RoundMakesProgress(rounds[m - 1], setting, revision);
        Smaller(after, before, d);
      }
    }
  }

  lemma {:induction false} Smaller(a: set<string>, b: set<string>, x: string)
    requires a <= b && x in b && x !in a
    ensures |a| < |b|
  {
    assert a <= b - {x};
    SubsetSize(a, b - {x});
  }

  lemma {:induction false} SubsetSize(a: set<string>, b: set<string>)
    requires a <= b
    ensures |a| <= |b|
  {
    assert b == a + (b - a);
  }
}
