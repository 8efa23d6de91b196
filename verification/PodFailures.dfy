/** Summary of the pods of a sandbox that cannot start: the prevailing reason and the
    first pod that shows it. */
module PodFailures {
  import opened Optional

  /** A pod and the failure reason found in its container statuses, if any. */
  datatype Observed = Observed(pod: string, failure: Option<string>)

  datatype Prevailing = Prevailing(reason: string, sample: string)

  function CountOf(pods: seq<Observed>, reason: string): nat {
    if pods == [] then 0
    else CountOf(pods[..|pods| - 1], reason) + (if pods[|pods| - 1].failure == Some(reason) then 1 else 0)
  }

  function FailedCount(pods: seq<Observed>): nat {
    if pods == [] then 0 else FailedCount(pods[..|pods| - 1]) + (if pods[|pods| - 1].failure.Some? then 1 else 0)
  }

  /** The first pod with the reason. */
  function FirstWith(pods: seq<Observed>, reason: string): Option<string> {
    if pods == [] then None
    else if FirstWith(pods[..|pods| - 1], reason).Some? then FirstWith(pods[..|pods| - 1], reason)
    else if pods[|pods| - 1].failure == Some(reason) then Some(pods[|pods| - 1].pod)
    else None
  }

  function Leading(pods: seq<Observed>, lead: Option<Prevailing>): nat {
    if lead.Some? then CountOf(pods, lead.value.reason) else 0
  }

  /** The reason that is ahead, giving it up only to one that overtakes it. */
  function Prevails(pods: seq<Observed>): Option<Prevailing> {
    if pods == [] then None
    else
      var front, p := pods[..|pods| - 1], pods[|pods| - 1];
      var lead := Prevails(front);
      if p.failure.Some? && CountOf(front, p.failure.value) + 1 > Leading(front, lead) &&
        FirstWith(pods, p.failure.value).Some?
      then Some(Prevailing(p.failure.value, FirstWith(pods, p.failure.value).value))
      else lead
  }

  lemma {:induction false} FirstWithSnoc(pods: seq<Observed>, reason: string)
    ensures FirstWith(pods, reason).Some? <==> CountOf(pods, reason) > 0
  {
    if pods == [] {
    } else {
      FirstWithSnoc(pods[..|pods| - 1], reason);
    }
  }

  lemma {:induction false} LeadExistsIffFailed(pods: seq<Observed>)
    ensures Prevails(pods).Some? <==> FailedCount(pods) > 0
    ensures Prevails(pods).Some? ==> Leading(pods, Prevails(pods)) > 0
  {
    if pods == [] {
    } else {
      var front, p := pods[..|pods| - 1], pods[|pods| - 1];
      LeadExistsIffFailed(front);
      if p.failure.Some? {
        FirstWithSnoc(pods, p.failure.value);
      }
    }
  }

  /** No reason is more frequent than the prevailing one, and the sample is the first pod
      that shows it. */
  lemma {:induction false} PrevailingIsMostFrequent(pods: seq<Observed>, reason: string)
    ensures CountOf(pods, reason) <= Leading(pods, Prevails(pods))
    ensures Prevails(pods).Some? ==> FirstWith(pods, Prevails(pods).value.reason) == Some(Prevails(pods).value.sample)
  {
    if pods == [] {
    } else {
      var front, p := pods[..|pods| - 1], pods[|pods| - 1];
      PrevailingIsMostFrequent(front, reason);
      LeadExistsIffFailed(front);
      if p.failure.Some? {
        FirstWithSnoc(pods, p.failure.value);
      }
    }
  }

  // ---- The counts and the sample in terms of the pods themselves.

  ghost function Showing(pods: seq<Observed>, reason: string): set<int> {
    set i | 0 <= i < |pods| && pods[i].failure == Some(reason)
  }

  lemma {:induction false} CountOfMeaning(pods: seq<Observed>, reason: string)
    ensures CountOf(pods, reason) == |Showing(pods, reason)|
  {
    if pods == [] {
    } else {
      var n := |pods| - 1;
      CountOfMeaning(pods[..n], reason);
      assert Showing(pods, reason) ==
        Showing(pods[..n], reason) + (if pods[n].failure == Some(reason) then {n} else {});
    }
  }

  lemma {:induction false} FailedCountMeaning(pods: seq<Observed>)
    ensures FailedCount(pods) == |set i | 0 <= i < |pods| && pods[i].failure.Some?|
  {
    if pods == [] {
    } else {
      var n := |pods| - 1;
      FailedCountMeaning(pods[..n]);
      assert (set i | 0 <= i < |pods| && pods[i].failure.Some?) ==
        (set i | 0 <= i < n && pods[..n][i].failure.Some?) + (if pods[n].failure.Some? then {n} else {});
    }
  }

  /** Pod k is the first with the reason. */
  ghost predicate FirstAt(pods: seq<Observed>, reason: string, k: int) {
    0 <= k < |pods| && pods[k].failure == Some(reason) && forall j :: 0 <= j < k ==> pods[j].failure != Some(reason)
  }

  lemma {:induction false} FirstWithMeaning(pods: seq<Observed>, reason: string)
    requires FirstWith(pods, reason).Some?
    ensures exists k :: FirstAt(pods, reason, k) && FirstWith(pods, reason) == Some(pods[k].pod)
  {
    var n := |pods| - 1;
    if FirstWith(pods[..n], reason).Some? {
      FirstWithMeaning(pods[..n], reason);
      var k :| FirstAt(pods[..n], reason, k) && FirstWith(pods[..n], reason) == Some(pods[..n][k].pod);
      assert FirstAt(pods, reason, k);
    } else {
      NoneWith(pods[..n], reason);
      assert FirstAt(pods, reason, n);
    }
  }

  lemma {:induction false} NoneWith(pods: seq<Observed>, reason: string)
    requires FirstWith(pods, reason).None?
    ensures forall j :: 0 <= j < |pods| ==> pods[j].failure != Some(reason)
  {
    if pods == [] {
    } else {
      NoneWith(pods[..|pods| - 1], reason);
    }
  }

  /** After the first n pods the reason has its final count, and is ahead of all others. */
  ghost predicate AheadAfter(pods: seq<Observed>, reason: string, n: nat) {
    && n <= |pods| && CountOf(pods[..n], reason) == CountOf(pods, reason)
    && forall other :: other != reason ==> CountOf(pods[..n], other) < CountOf(pods, reason)
  }

  /** Of equally frequent reasons the one that got there first prevails, and the sample is
      the first pod that shows it. */
  lemma {:induction false} TiesGoToTheFirst(pods: seq<Observed>)
    requires Prevails(pods).Some?
    ensures var lead := Prevails(pods).value;
      && (exists n: nat :: AheadAfter(pods, lead.reason, n))
      && (exists k :: FirstAt(pods, lead.reason, k) && pods[k].pod == lead.sample)
  {
    PrevailingIsMostFrequent(pods, Prevails(pods).value.reason);
    FirstWithMeaning(pods, Prevails(pods).value.reason);
    LeadGotThereFirst(pods);
  }

  lemma {:induction false} LeadGotThereFirst(pods: seq<Observed>)
    requires Prevails(pods).Some?
    ensures exists n: nat :: AheadAfter(pods, Prevails(pods).value.reason, n)
  {
    var m := |pods| - 1;
    var front, p, lead := pods[..m], pods[m], Prevails(pods).value;
    if p.failure == Some(lead.reason) {
      NewLead(pods);
      assert AheadAfter(pods, lead.reason, |pods|);
    } else {
      LeadGotThereFirst(front);
      var n: nat :| AheadAfter(front, lead.reason, n);
      assert pods[..n] == front[..n];
      assert AheadAfter(pods, lead.reason, n);
    }
  }

  /** The last pod shows the prevailing reason, so that one is ahead of all others now. */
  lemma {:induction false} NewLead(pods: seq<Observed>)
    requires pods != [] && Prevails(pods).Some?
    requires pods[|pods| - 1].failure == Some(Prevails(pods).value.reason)
    ensures AheadAfter(pods, Prevails(pods).value.reason, |pods|)
  {
    var front, reason := pods[..|pods| - 1], Prevails(pods).value.reason;
    assert pods[..|pods|] == pods;
    LeadExistsIffFailed(front);
    forall other | other != reason
      ensures CountOf(pods, other) < CountOf(pods, reason)
    {
      PrevailingIsMostFrequent(front, other);
      PrevailingIsMostFrequent(front, reason);
      FirstWithSnoc(pods, reason);
    }
  }

  method SummarizePodFailures(pods: seq<Observed>) returns (failed: nat, reason: string, sample: string)
    ensures failed == FailedCount(pods)
    ensures Prevails(pods) == if failed > 0 then Some(Prevailing(reason, sample)) else None
  {
    failed, reason, sample := 0, "", "";
    var counts: map<string, nat> := map[];
    var first: map<string, string> := map[];
    var primaryCount := 0;
    for i := 0 to |pods|
      invariant failed == FailedCount(pods[..i])
      invariant Prevails(pods[..i]) == if failed > 0 then Some(Prevailing(reason, sample)) else None
      invariant primaryCount == Leading(pods[..i], Prevails(pods[..i]))
      invariant forall r :: (if r in counts then counts[r] else 0) == CountOf(pods[..i], r)
      invariant forall r :: (if r in first then Some(first[r]) else None) == FirstWith(pods[..i], r)
    {
      var p := pods[i];
      ghost var seen := pods[..i + 1];
      assert seen[..i] == pods[..i] && seen[i] == p;
      LeadExistsIffFailed(seen);
      if p.failure.None? { continue; }
      var r := p.failure.value;
      failed := failed + 1;
      if r !in first {
        first := first[r := p.pod];
      }
      counts := counts[r := (if r in counts then counts[r] else 0) + 1];
      if counts[r] > primaryCount {
        primaryCount := counts[r];
        reason := r;
        sample := first[r];
      }
    }
    assert pods[..|pods|] == pods;
  }

  function Decimal(n: nat): string {
    if n < 10 then ["0123456789"[n]] else Decimal(n / 10) + ["0123456789"[n % 10]]
  }

  /** Reads a decimal number. */
  function Value(s: string): int {
    if s == "" then 0 else 10 * Value(s[..|s| - 1]) + (s[|s| - 1] as int - '0' as int)
  }

  lemma {:induction false} DecimalIsReadBack(n: nat)
    ensures Value(Decimal(n)) == n
  {
    if n < 10 {
      assert Decimal(n)[..0] == "";
    } else {
      DecimalIsReadBack(n / 10);
      assert Decimal(n)[..|Decimal(n)| - 1] == Decimal(n / 10);
    }
  }

  function Message(pods: seq<Observed>, lead: Prevailing, duringResume: bool): string {
    Decimal(FailedCount(pods)) + "/" + Decimal(|pods|) + " "
    + (if duringResume then "observed pods failed during resume" else "observed pods failed")
    + "; primary reason=" + lead.reason + "; sample pod=" + lead.sample
  }
}
