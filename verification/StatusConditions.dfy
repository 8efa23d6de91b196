/** The conditions of a BatchSandbox status: how they follow the phase, and how a runtime
    status patch keeps the ones the pause and resume handlers own. */
module StatusConditions {

  datatype Phase = Unset | Pending | Succeed | Pausing | Paused | Resuming | Failed

  datatype ConditionType =
    | ReadyType
    | ProgressingType
    | PausedType
    | PauseFailedType
    | ResumeFailedType
    | PodFailedType
    | OtherType(name: string)

  datatype Condition = Condition(kind: ConditionType, status: string, reason: string, message: string, time: int)

  const TRUE := "True"
  const FALSE := "False"

  /** What a condition should say. */
  datatype Wanted = Wanted(kind: ConditionType, status: string, reason: string, message: string)

  predicate Says(c: Condition, w: Wanted) {
    c.status == w.status && c.reason == w.reason && c.message == w.message
  }

  /** What setConditionInStatus makes of one existing condition of the wanted kind. */
  function Rewrite(c: Condition, w: Wanted, now: int): seq<Condition> {
    if w.status == FALSE then []
    else if Says(c, w) then [c]
    else [Condition(c.kind, w.status, w.reason, w.message, now)]
  }

  function RewriteAll(cs: seq<Condition>, w: Wanted, now: int): seq<Condition> {
    if cs == [] then []
    else RewriteAll(cs[..|cs| - 1], w, now) +
         (if cs[|cs| - 1].kind == w.kind then Rewrite(cs[|cs| - 1], w, now) else [cs[|cs| - 1]])
  }

  predicate Has(cs: seq<Condition>, kind: ConditionType) {
    exists i :: 0 <= i < |cs| && cs[i].kind == kind
  }

  /** setConditionInStatus: refresh the timestamp only when something changes; False removes. */
  function Set(cs: seq<Condition>, w: Wanted, now: int): seq<Condition> {
    RewriteAll(cs, w, now) +
    (if !Has(cs, w.kind) && w.status == TRUE then [Condition(w.kind, w.status, w.reason, w.message, now)] else [])
  }

  method SetConditionInStatus(cs: seq<Condition>, w: Wanted, now: int) returns (r: seq<Condition>)
    ensures r == Set(cs, w, now)
  {
    r := [];
    var found := false;
    for i := 0 to |cs|
      invariant r == RewriteAll(cs[..i], w, now)
      invariant found <==> exists j :: 0 <= j < i && cs[j].kind == w.kind
    {
      var c := cs[i];
      assert cs[..i + 1][..i] == cs[..i];
      if c.kind != w.kind {
        r := r + [c];
        continue;
      }
      found := true;
      if w.status == FALSE { continue; }
      if c.status == w.status && c.reason == w.reason && c.message == w.message {
        r := r + [c];
        continue;
      }
      r := r + [Condition(c.kind, w.status, w.reason, w.message, now)];
    }
    assert cs[..|cs|] == cs;
    if !found && w.status == TRUE {
      r := r + [Condition(w.kind, w.status, w.reason, w.message, now)];
    }
  }

  // ---- Phase conditions.

  function WantedFor(phase: Phase): seq<Wanted> {
    match phase
    case Unset => []
    case Pending => [
      Wanted(ReadyType, FALSE, "Creating", "Sandbox is being created"),
      Wanted(ProgressingType, TRUE, "Creating", "Sandbox is being created"),
      Wanted(PausedType, FALSE, "", "")]
    case Succeed => [
      Wanted(ReadyType, TRUE, "PodsReady", "Sandbox is running"),
      Wanted(ProgressingType, FALSE, "", ""),
      Wanted(PausedType, FALSE, "", "")]
    case Pausing => [
      Wanted(ReadyType, FALSE, "PauseInProgress", "Pausing sandbox"),
      Wanted(ProgressingType, TRUE, "PauseInProgress", "Pausing sandbox"),
      Wanted(PausedType, FALSE, "", "")]
    case Paused => [
      Wanted(ReadyType, FALSE, "Paused", "Sandbox is paused"),
      Wanted(ProgressingType, FALSE, "", ""),
      Wanted(PausedType, TRUE, "Paused", "Sandbox is paused")]
    case Resuming => [
      Wanted(ReadyType, FALSE, "ResumeInProgress", "Resuming sandbox"),
      Wanted(ProgressingType, TRUE, "ResumeInProgress", "Resuming sandbox"),
      Wanted(PausedType, FALSE, "", "")]
    case Failed => [
      Wanted(ReadyType, FALSE, "Failed", "Sandbox is unavailable"),
      Wanted(ProgressingType, FALSE, "", ""),
      Wanted(PausedType, FALSE, "", "")]
  }

  function SetEach(cs: seq<Condition>, ws: seq<Wanted>, now: int): seq<Condition> {
    if ws == [] then cs else Set(SetEach(cs, ws[..|ws| - 1], now), ws[|ws| - 1], now)
  }

  /** applyBatchSandboxPhaseConditions */
  function ApplyPhase(cs: seq<Condition>, phase: Phase, now: int): seq<Condition> {
    SetEach(cs, WantedFor(phase), now)
  }

  method ApplyPhaseConditions(cs: seq<Condition>, phase: Phase, now: int) returns (r: seq<Condition>)
    ensures r == ApplyPhase(cs, phase, now)
  {
    r := cs;
    if phase.Unset? { return; }
    var ws := WantedFor(phase);
    r := SetConditionInStatus(r, ws[0], now);
    r := SetConditionInStatus(r, ws[1], now);
    r := SetConditionInStatus(r, ws[2], now);
    assert ws == ws[..3] && ws[..3][..2] == ws[..2] && ws[..2][..1] == ws[..1] && ws[..1][..0] == [];
    assert SetEach(cs, ws[..1], now) == Set(cs, ws[0], now);
    assert SetEach(cs, ws[..2], now) == Set(Set(cs, ws[0], now), ws[1], now);
  }

  ghost predicate UniqueKinds(cs: seq<Condition>) {
    forall i, j :: 0 <= i < j < |cs| ==> cs[i].kind != cs[j].kind
  }

  /** At most one condition per type, with the phase-owned ones exactly where they belong. */
  ghost predicate Consistent(phase: Phase, cs: seq<Condition>) {
    && UniqueKinds(cs)
    && (Has(cs, ReadyType) <==> phase.Succeed?)
    && (Has(cs, ProgressingType) <==> phase.Pending? || phase.Pausing? || phase.Resuming?)
    && (Has(cs, PausedType) <==> phase.Paused?)
  }

  /** The wanted condition is in force: absent if False, else saying what it should. */
  ghost predicate InForce(cs: seq<Condition>, w: Wanted) {
    && (w.status == FALSE ==> !Has(cs, w.kind))
    && (w.status == TRUE ==> Has(cs, w.kind))
    && (forall i :: 0 <= i < |cs| && cs[i].kind == w.kind ==> Says(cs[i], w))
  }

  lemma {:induction false} RewriteAllMembers(cs: seq<Condition>, w: Wanted, now: int)
    ensures forall c: Condition :: c.kind != w.kind ==> (c in RewriteAll(cs, w, now) <==> c in cs)
    ensures forall c: Condition :: c in RewriteAll(cs, w, now) && c.kind == w.kind ==> w.status != FALSE && Says(c, w)
    ensures w.status != FALSE && Has(cs, w.kind) ==> Has(RewriteAll(cs, w, now), w.kind)
  {
    if cs == [] {
    } else {
      var n := |cs| - 1;
      var front := RewriteAll(cs[..n], w, now);
      RewriteAllMembers(cs[..n], w, now);
      assert cs == cs[..n] + [cs[n]];
      if w.status != FALSE && Has(cs, w.kind) {
        var all := RewriteAll(cs, w, now);
        if cs[n].kind == w.kind {
          assert all[|front|].kind == w.kind;
        } else {
          var i :| 0 <= i < |cs| && cs[i].kind == w.kind;
          assert cs[..n][i].kind == w.kind;
          var j :| 0 <= j < |front| && front[j].kind == w.kind;
          assert all[j].kind == w.kind;
        }
      }
    }
  }

  lemma {:induction false} HasMember(cs: seq<Condition>, kind: ConditionType)
    ensures Has(cs, kind) <==> exists c :: c in cs && c.kind == kind
  {
    if c :| c in cs && c.kind == kind {
      var i :| 0 <= i < |cs| && cs[i] == c;
      assert cs[i].kind == kind;
    }
    if Has(cs, kind) {
      var i :| 0 <= i < |cs| && cs[i].kind == kind;
      assert cs[i] in cs;
    }
  }

  /** The conditions of every other kind, in order. */
  function Without(cs: seq<Condition>, kind: ConditionType): seq<Condition> {
    if cs == [] then []
    else Without(cs[..|cs| - 1], kind) + (if cs[|cs| - 1].kind == kind then [] else [cs[|cs| - 1]])
  }

  lemma {:induction false} WithoutAppended(cs: seq<Condition>, ds: seq<Condition>, kind: ConditionType)
    requires |ds| <= 1
    ensures Without(cs + ds, kind) == Without(cs, kind) + (if ds == [] || ds[0].kind == kind then [] else ds)
  {
    if ds == [] {
      assert cs + ds == cs;
    } else {
      assert (cs + ds)[..|cs|] == cs && ds == [ds[0]];
    }
  }

  lemma {:induction false} RewriteAllKeepsOrder(cs: seq<Condition>, w: Wanted, now: int)
    ensures Without(RewriteAll(cs, w, now), w.kind) == Without(cs, w.kind)
  {
    if cs == [] {
    } else {
      var n := |cs| - 1;
      RewriteAllKeepsOrder(cs[..n], w, now);
      var last := if cs[n].kind == w.kind then Rewrite(cs[n], w, now) else [cs[n]];
      WithoutAppended(RewriteAll(cs[..n], w, now), last, w.kind);
      assert RewriteAll(cs, w, now) == RewriteAll(cs[..n], w, now) + last;
      assert last == [] || last[0].kind == cs[n].kind;
    }
  }

  lemma {:induction false} RewriteAllStamps(cs: seq<Condition>, w: Wanted, now: int)
    ensures forall c: Condition :: c in RewriteAll(cs, w, now) ==> c in cs || c.time == now
  {
    if cs == [] {
    } else {
      RewriteAllStamps(cs[..|cs| - 1], w, now);
    }
  }

  /** Setting a condition keeps the others in order, and stamps what it changes. */
  lemma {:induction false} SetKeepsOrder(cs: seq<Condition>, w: Wanted, now: int)
    ensures Without(Set(cs, w, now), w.kind) == Without(cs, w.kind)
    ensures forall c: Condition :: c in Set(cs, w, now) && c !in cs ==> c.time == now
  {
    RewriteAllKeepsOrder(cs, w, now);
    RewriteAllStamps(cs, w, now);
    var appended := Set(cs, w, now)[|RewriteAll(cs, w, now)|..];
    assert Set(cs, w, now) == RewriteAll(cs, w, now) + appended;
    WithoutAppended(RewriteAll(cs, w, now), appended, w.kind);
  }

  /** Setting a condition puts it in force and leaves every other kind as it was. */
  lemma {:induction false} SetMeaning(cs: seq<Condition>, w: Wanted, now: int)
    requires w.status == TRUE || w.status == FALSE
    ensures InForce(Set(cs, w, now), w)
    ensures forall c: Condition :: c.kind != w.kind ==> (c in Set(cs, w, now) <==> c in cs)
    ensures forall k :: k != w.kind ==> (Has(Set(cs, w, now), k) <==> Has(cs, k))
  {
    RewriteAllMembers(cs, w, now);
    var r := Set(cs, w, now);
    assert TRUE != FALSE by { assert TRUE[0] != FALSE[0]; }
    HasMember(r, w.kind);
    HasMember(RewriteAll(cs, w, now), w.kind);
    if w.status == TRUE && !Has(cs, w.kind) {
      assert r[|r| - 1].kind == w.kind;
    }
    assert forall i :: 0 <= i < |r| ==> r[i] in r;
    forall k | k != w.kind
      ensures Has(r, k) <==> Has(cs, k)
    {
      HasMember(r, k);
      HasMember(cs, k);
    }
  }

  lemma {:induction false} RewriteAllUnique(cs: seq<Condition>, w: Wanted, now: int)
    requires UniqueKinds(cs)
    ensures UniqueKinds(RewriteAll(cs, w, now))
    ensures forall k :: Has(RewriteAll(cs, w, now), k) ==> Has(cs, k)
  {
    if cs == [] {
    } else {
      var n := |cs| - 1;
      RewriteAllUnique(cs[..n], w, now);
      var front, all := RewriteAll(cs[..n], w, now), RewriteAll(cs, w, now);
      assert !Has(cs[..n], cs[n].kind);
      assert forall i :: 0 <= i < |front| ==> Has(front, front[i].kind);
      forall k | Has(all, k)
        ensures Has(cs, k)
      {
        var i :| 0 <= i < |all| && all[i].kind == k;
        if i < |front| {
          assert Has(cs[..n], k);
          var j :| 0 <= j < n && cs[..n][j].kind == k;
          assert cs[j].kind == k;
        } else {
          assert cs[n].kind == k;
        }
      }
    }
  }

  lemma {:induction false} SetUnique(cs: seq<Condition>, w: Wanted, now: int)
    requires UniqueKinds(cs)
    ensures UniqueKinds(Set(cs, w, now))
  {
    RewriteAllUnique(cs, w, now);
    var r := RewriteAll(cs, w, now);
    assert forall i :: 0 <= i < |r| ==> Has(r, r[i].kind);
  }

  lemma {:induction false} RewriteAllIdentity(cs: seq<Condition>, w: Wanted, now: int)
    requires InForce(cs, w) && (w.status == TRUE || w.status == FALSE)
    ensures RewriteAll(cs, w, now) == cs
  {
    if cs != [] {
      var n := |cs| - 1;
      assert cs == cs[..n] + [cs[n]];
      assert cs[n].kind == w.kind ==> Has(cs, w.kind);
      RewriteAllLocal(cs[..n], w, now, cs);
    }
  }

  lemma {:induction false} RewriteAllLocal(cs: seq<Condition>, w: Wanted, now: int, all: seq<Condition>)
    requires |cs| <= |all| && cs == all[..|cs|] && InForce(all, w)
    ensures RewriteAll(cs, w, now) == cs
  {
    if cs == [] {
    } else {
      var n := |cs| - 1;
      RewriteAllLocal(cs[..n], w, now, all);
      assert cs == cs[..n] + [cs[n]] && cs[n] == all[n];
      assert cs[n].kind == w.kind ==> Has(all, w.kind);
    }
  }

  /** A condition already in force is left alone, timestamp included. */
  lemma {:induction false} SetInForceIsIdentity(cs: seq<Condition>, w: Wanted, now: int)
    requires InForce(cs, w) && (w.status == TRUE || w.status == FALSE)
    ensures Set(cs, w, now) == cs
  {
    assert TRUE != FALSE by { assert TRUE[0] != FALSE[0]; }
    RewriteAllIdentity(cs, w, now);
  }

  lemma {:induction false} OtherSetKeepsInForce(cs: seq<Condition>, w: Wanted, other: Wanted, now: int)
    requires InForce(cs, w) && other.kind != w.kind && (other.status == TRUE || other.status == FALSE)
    ensures InForce(Set(cs, other, now), w)
  {
    SetMeaning(cs, other, now);
    var r := Set(cs, other, now);
    forall i | 0 <= i < |r| && r[i].kind == w.kind
      ensures Says(r[i], w)
    {
      assert r[i] in cs;
      var j :| 0 <= j < |cs| && cs[j] == r[i];
    }
  }

  ghost predicate AllInForce(cs: seq<Condition>, ws: seq<Wanted>) {
    forall i :: 0 <= i < |ws| ==> InForce(cs, ws[i])
  }

  ghost predicate Separate(ws: seq<Wanted>) {
    && (forall i :: 0 <= i < |ws| ==> ws[i].status == TRUE || ws[i].status == FALSE)
    && (forall i, j :: 0 <= i < j < |ws| ==> ws[i].kind != ws[j].kind)
  }

  lemma {:induction false} SetEachPutsInForce(cs: seq<Condition>, ws: seq<Wanted>, now: int)
    requires Separate(ws)
    ensures AllInForce(SetEach(cs, ws, now), ws)
    ensures UniqueKinds(cs) ==> UniqueKinds(SetEach(cs, ws, now))
  {
    if ws == [] {
    } else {
      var n := |ws| - 1;
      var front, w := ws[..n], ws[n];
      assert forall i :: 0 <= i < n ==> front[i] == ws[i];
      SetEachPutsInForce(cs, front, now);
      SetOneMore(SetEach(cs, front, now), front, w, now);
      if UniqueKinds(cs) {
        SetUnique(SetEach(cs, front, now), w, now);
      }
    }
  }

  lemma {:induction false} SetEachKeepsOthers(cs: seq<Condition>, ws: seq<Wanted>, now: int)
    requires forall i :: 0 <= i < |ws| ==> ws[i].status == TRUE || ws[i].status == FALSE
    ensures forall c: Condition :: (forall i :: 0 <= i < |ws| ==> ws[i].kind != c.kind) ==>
      (c in SetEach(cs, ws, now) <==> c in cs)
  {
    if ws == [] {
    } else {
      var n := |ws| - 1;
      assert forall i :: 0 <= i < n ==> ws[..n][i] == ws[i];
      SetEachKeepsOthers(cs, ws[..n], now);
      SetMeaning(SetEach(cs, ws[..n], now), ws[n], now);
    }
  }

  lemma {:induction false} SetOneMore(cs: seq<Condition>, front: seq<Wanted>, w: Wanted, now: int)
    requires AllInForce(cs, front) && (w.status == TRUE || w.status == FALSE)
    requires forall i :: 0 <= i < |front| ==> front[i].kind != w.kind
    ensures AllInForce(Set(cs, w, now), front) && InForce(Set(cs, w, now), w)
  {
    SetMeaning(cs, w, now);
    forall i | 0 <= i < |front|
      ensures InForce(Set(cs, w, now), front[i])
    {
      OtherSetKeepsInForce(cs, front[i], w, now);
    }
  }

  lemma {:induction false} SetEachInForceIsIdentity(cs: seq<Condition>, ws: seq<Wanted>, now: int)
    requires Separate(ws) && AllInForce(cs, ws)
    ensures SetEach(cs, ws, now) == cs
  {
    if ws == [] {
    } else {
      var n := |ws| - 1;
      assert AllInForce(cs, ws[..n]) && Separate(ws[..n]);
      SetEachInForceIsIdentity(cs, ws[..n], now);
      SetInForceIsIdentity(cs, ws[n], now);
    }
  }

  /** Applying the phase conditions twice equals applying them once, at any later time. */
  lemma {:induction false} ApplyPhaseTwice(cs: seq<Condition>, phase: Phase, now: int, later: int)
    ensures ApplyPhase(ApplyPhase(cs, phase, now), phase, later) == ApplyPhase(cs, phase, now)
  {
    SetEachPutsInForce(cs, WantedFor(phase), now);
    SetEachInForceIsIdentity(ApplyPhase(cs, phase, now), WantedFor(phase), later);
  }

  /** Applying a phase makes the conditions consistent with it and touches no other kind. */
  lemma {:induction false} ApplyPhaseMakesConsistent(cs: seq<Condition>, phase: Phase, now: int)
    requires UniqueKinds(cs) && !phase.Unset?
    ensures Consistent(phase, ApplyPhase(cs, phase, now))
    ensures forall c: Condition :: c.kind !in {ReadyType, ProgressingType, PausedType} ==>
      (c in ApplyPhase(cs, phase, now) <==> c in cs)
    ensures ApplyPhase(ApplyPhase(cs, phase, now), phase, now) == ApplyPhase(cs, phase, now)
  {
    var ws := WantedFor(phase);
    assert TRUE != FALSE by { assert TRUE[0] != FALSE[0]; }
    SetEachPutsInForce(cs, ws, now);
    SetEachKeepsOthers(cs, ws, now);
    ApplyPhaseTwice(cs, phase, now, now);
    var r := ApplyPhase(cs, phase, now);
    assert InForce(r, ws[0]) && InForce(r, ws[1]) && InForce(r, ws[2]);
  }

  /** What a phase says of itself, where it has a condition of its own. */
  lemma {:induction false} PhaseExplainsItself(cs: seq<Condition>, phase: Phase, now: int)
    ensures var r := ApplyPhase(cs, phase, now);
      && (phase.Succeed? ==> InForce(r, Wanted(ReadyType, TRUE, "PodsReady", "Sandbox is running")))
      && (phase.Pending? ==> InForce(r, Wanted(ProgressingType, TRUE, "Creating", "Sandbox is being created")))
      && (phase.Pausing? ==> InForce(r, Wanted(ProgressingType, TRUE, "PauseInProgress", "Pausing sandbox")))
      && (phase.Resuming? ==> InForce(r, Wanted(ProgressingType, TRUE, "ResumeInProgress", "Resuming sandbox")))
      && (phase.Paused? ==> InForce(r, Wanted(PausedType, TRUE, "Paused", "Sandbox is paused")))
  {
    var ws := WantedFor(phase);
    SetEachPutsInForce(cs, ws, now);
    if !phase.Unset? {
      var r := ApplyPhase(cs, phase, now);
      assert InForce(r, ws[0]) && InForce(r, ws[1]) && InForce(r, ws[2]);
    }
  }

  // ---- Handler-owned conditions.

  predicate LifecycleOwned(kind: ConditionType) { kind.PauseFailedType? || kind.ResumeFailedType? }

  function Missing(latest: seq<Condition>, desired: seq<Condition>): seq<Condition> {
    if latest == [] then []
    else
      var c := latest[|latest| - 1];
      Missing(latest[..|latest| - 1], desired) + (if LifecycleOwned(c.kind) && !Has(desired, c.kind) then [c] else [])
  }

  function MergeLifecycle(desired: seq<Condition>, latest: seq<Condition>): seq<Condition> {
    desired + Missing(latest, desired)
  }

  method MergeLifecycleConditions(desired: seq<Condition>, latest: seq<Condition>) returns (merged: seq<Condition>)
    ensures merged == MergeLifecycle(desired, latest)
  {
    merged := desired;
    var hasCondition: set<ConditionType> := {};
    for i := 0 to |desired|
      invariant forall k :: k in hasCondition <==> exists j :: 0 <= j < i && desired[j].kind == k
    {
      hasCondition := hasCondition + {desired[i].kind};
    }
    for i := 0 to |latest|
      invariant merged == desired + Missing(latest[..i], desired)
    {
      assert latest[..i + 1][..i] == latest[..i];
      if !LifecycleOwned(latest[i].kind) { continue; }
      if latest[i].kind in hasCondition { continue; }
      merged := merged + [latest[i]];
    }
    assert latest[..|latest|] == latest;
  }

  lemma {:induction false} MissingMembers(latest: seq<Condition>, desired: seq<Condition>)
    ensures forall c: Condition :: c in Missing(latest, desired) <==>
      c in latest && LifecycleOwned(c.kind) && !Has(desired, c.kind)
  {
    if latest == [] {
    } else {
      var n := |latest| - 1;
      MissingMembers(latest[..n], desired);
      assert latest == latest[..n] + [latest[n]];
    }
  }

  lemma {:induction false} MissingUnique(latest: seq<Condition>, desired: seq<Condition>)
    requires UniqueKinds(latest)
    ensures UniqueKinds(Missing(latest, desired))
  {
    if latest == [] {
    } else {
      var n := |latest| - 1;
      assert forall i :: 0 <= i < n ==> latest[..n][i] == latest[i];
      MissingUnique(latest[..n], desired);
      MissingMembers(latest[..n], desired);
      assert latest == latest[..n] + [latest[n]];
      MissingStaysUnique(latest[..n], latest[n], desired);
    }
  }

  lemma {:induction false} MissingStaysUnique(front: seq<Condition>, c: Condition, desired: seq<Condition>)
    requires UniqueKinds(front + [c]) && UniqueKinds(Missing(front, desired))
    requires forall x: Condition :: x in Missing(front, desired) ==> x in front
    ensures UniqueKinds(Missing(front, desired) + [c])
  {
    var missing := Missing(front, desired);
    forall i | 0 <= i < |missing|
      ensures missing[i].kind != c.kind
    {
      assert missing[i] in missing;
      var j :| 0 <= j < |front| && front[j] == missing[i];
      assert (front + [c])[j] == front[j] && (front + [c])[|front|] == c;
    }
  }

  /** A runtime status patch never drops PauseFailed or ResumeFailed, and changes nothing
      about the phase-owned conditions. */
  lemma {:induction false} MergeKeepsLifecycle(phase: Phase, desired: seq<Condition>, latest: seq<Condition>)
    requires Consistent(phase, desired) && UniqueKinds(latest)
    ensures Consistent(phase, MergeLifecycle(desired, latest))
    ensures forall k :: k in {PauseFailedType, ResumeFailedType} && Has(latest, k) ==>
      Has(MergeLifecycle(desired, latest), k)
    ensures desired <= MergeLifecycle(desired, latest)
    ensures forall c: Condition :: c in MergeLifecycle(desired, latest) <==>
      c in desired || (c in latest && c.kind in {PauseFailedType, ResumeFailedType} && !Has(desired, c.kind))
  {
    MissingMembers(latest, desired);
    MissingUnique(latest, desired);
    var m, extra := MergeLifecycle(desired, latest), Missing(latest, desired);
    forall k
      ensures Has(m, k) <==> Has(desired, k) || (LifecycleOwned(k) && Has(latest, k))
    {
      HasMember(m, k);
      HasMember(desired, k);
      HasMember(latest, k);
    }
    forall i, j | 0 <= i < j < |m|
      ensures m[i].kind != m[j].kind
    {
      if i < |desired| <= j {
        assert extra[j - |desired|] in extra;
        assert Has(desired, m[i].kind);
      } else if |desired| <= i {
        assert m[i] == extra[i - |desired|] && m[j] == extra[j - |desired|];
      }
    }
  }

  // ---- The handlers' own writes (setCondition).

  function Stamp(c: Condition, w: Wanted, now: int): seq<Condition> {
    if c.kind != w.kind then [c]
    else if w.status == FALSE then []
    else [Condition(c.kind, w.status, w.reason, w.message, now)]
  }

  function StampAll(cs: seq<Condition>, w: Wanted, now: int): seq<Condition> {
    if cs == [] then [] else StampAll(cs[..|cs| - 1], w, now) + Stamp(cs[|cs| - 1], w, now)
  }

  function Write(cs: seq<Condition>, w: Wanted, now: int): seq<Condition> {
    StampAll(cs, w, now) +
    (if w.status == TRUE && !Has(cs, w.kind) then [Condition(w.kind, w.status, w.reason, w.message, now)] else [])
  }

  method WriteCondition(cs: seq<Condition>, w: Wanted, now: int) returns (r: seq<Condition>)
    ensures r == Write(cs, w, now)
  {
    r := [];
    var found := false;
    assert TRUE != FALSE by { assert TRUE[0] != FALSE[0]; }
    for i := 0 to |cs|
      invariant r == StampAll(cs[..i], w, now)
      invariant w.status == TRUE ==> (found <==> exists j :: 0 <= j < i && cs[j].kind == w.kind)
    {
      var c := cs[i];
      assert cs[..i + 1][..i] == cs[..i];
      if c.kind == w.kind {
        if w.status == FALSE { continue; }
        c := Condition(c.kind, w.status, w.reason, w.message, now);
        found := true;
      }
      r := r + [c];
    }
    assert cs[..|cs|] == cs;
    if !found && w.status == TRUE {
      r := r + [Condition(w.kind, w.status, w.reason, w.message, now)];
    }
  }

  lemma {:induction false} StampAllMembers(cs: seq<Condition>, w: Wanted, now: int)
    ensures forall c: Condition :: c.kind != w.kind ==> (c in StampAll(cs, w, now) <==> c in cs)
    ensures forall k :: Has(StampAll(cs, w, now), k) ==> Has(cs, k)
    ensures UniqueKinds(cs) ==> UniqueKinds(StampAll(cs, w, now))
  {
    if cs == [] {
    } else {
      var n := |cs| - 1;
      StampAllMembers(cs[..n], w, now);
      assert cs == cs[..n] + [cs[n]];
      StampOneMore(cs[..n], cs[n], w, now);
    }
  }

  lemma {:induction false} StampOneMore(front: seq<Condition>, c: Condition, w: Wanted, now: int)
    requires forall k :: Has(StampAll(front, w, now), k) ==> Has(front, k)
    requires UniqueKinds(front) ==> UniqueKinds(StampAll(front, w, now))
    ensures var all := StampAll(front, w, now) + Stamp(c, w, now);
      && (forall k :: Has(all, k) ==> Has(front + [c], k))
      && (UniqueKinds(front + [c]) ==> UniqueKinds(all))
  {
    var stamped := StampAll(front, w, now);
    var all := stamped + Stamp(c, w, now);
    forall k | Has(all, k)
      ensures Has(front + [c], k)
    {
      HasEither(stamped, Stamp(c, w, now), k);
      HasEither(front, [c], k);
      assert [c][0] == c;
    }
    if UniqueKinds(front + [c]) {
      assert UniqueKinds(front) by { assert front == (front + [c])[..|front|]; }
      assert !Has(front, c.kind) by { assert (front + [c])[|front|] == c; }
      assert forall i :: 0 <= i < |stamped| ==> Has(stamped, stamped[i].kind);
    }
  }

  lemma {:induction false} HasEither(a: seq<Condition>, b: seq<Condition>, kind: ConditionType)
    ensures Has(a + b, kind) <==> Has(a, kind) || Has(b, kind)
  {
    if i :| 0 <= i < |a| && a[i].kind == kind {
      assert (a + b)[i].kind == kind;
    }
    if i :| 0 <= i < |b| && b[i].kind == kind {
      assert (a + b)[|a| + i].kind == kind;
    }
  }

  lemma {:induction false} StampAllKeepsOrder(cs: seq<Condition>, w: Wanted, now: int)
    ensures Without(StampAll(cs, w, now), w.kind) == Without(cs, w.kind)
  {
    if cs == [] {
    } else {
      var n := |cs| - 1;
      StampAllKeepsOrder(cs[..n], w, now);
      WithoutAppended(StampAll(cs[..n], w, now), Stamp(cs[n], w, now), w.kind);
    }
  }

  lemma {:induction false} StampAllMeaning(cs: seq<Condition>, w: Wanted, now: int)
    ensures forall c: Condition :: c in StampAll(cs, w, now) && c.kind == w.kind ==>
      w.status != FALSE && Says(c, w) && c.time == now
    ensures w.status != FALSE ==> (Has(StampAll(cs, w, now), w.kind) <==> Has(cs, w.kind))
  {
    if cs == [] {
    } else {
      var n := |cs| - 1;
      StampAllMeaning(cs[..n], w, now);
      assert cs == cs[..n] + [cs[n]] && [cs[n]][0] == cs[n];
      HasEither(cs[..n], [cs[n]], w.kind);
      HasEither(StampAll(cs[..n], w, now), Stamp(cs[n], w, now), w.kind);
      assert w.status != FALSE ==> |Stamp(cs[n], w, now)| == 1;
    }
  }

  /** A handler's write puts the condition in force with the time of the write, changed or
      not, and leaves the others as they were. */
  lemma {:induction false} WriteMeaning(cs: seq<Condition>, w: Wanted, now: int)
    requires w.status == TRUE || w.status == FALSE
    ensures InForce(Write(cs, w, now), w)
    ensures forall c: Condition :: c in Write(cs, w, now) && c.kind == w.kind ==> c.time == now
    ensures Without(Write(cs, w, now), w.kind) == Without(cs, w.kind)
  {
    StampAllMeaning(cs, w, now);
    StampAllKeepsOrder(cs, w, now);
    assert TRUE != FALSE by { assert TRUE[0] != FALSE[0]; }
    var s, r := StampAll(cs, w, now), Write(cs, w, now);
    assert r == s + r[|s|..];
    WithoutAppended(s, r[|s|..], w.kind);
    HasEither(s, r[|s|..], w.kind);
    HasMember(s, w.kind);
    if w.status == TRUE && !Has(cs, w.kind) {
      assert r[|s|..][0].kind == w.kind;
    }
    forall i | 0 <= i < |r| && r[i].kind == w.kind
      ensures Says(r[i], w)
    {
      assert r[i] in r;
    }
  }

  /** A handler's write to a condition it owns keeps the status consistent. */
  lemma {:induction false} WriteKeepsConsistent(phase: Phase, cs: seq<Condition>, w: Wanted, now: int)
    requires Consistent(phase, cs) && w.kind !in {ReadyType, ProgressingType, PausedType}
    ensures Consistent(phase, Write(cs, w, now))
  {
    StampAllMembers(cs, w, now);
    var s, r := StampAll(cs, w, now), Write(cs, w, now);
    assert forall i :: 0 <= i < |s| ==> Has(s, s[i].kind);
    forall k | k != w.kind
      ensures Has(r, k) <==> Has(cs, k)
    {
      HasMember(r, k);
      HasMember(s, k);
      HasMember(cs, k);
    }
  }
}
