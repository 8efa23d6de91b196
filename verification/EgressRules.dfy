/** Patching and deleting egress rules. lower stands for the rune mapping behind
    strings.ToLower and space for the runes strings.TrimSpace removes. */
module EgressRules {
  import opened Optional

  datatype Rule = Rule(action: string, target: string)

  function ToLower(s: string, lower: char -> char): string {
    if s == "" then "" else [lower(s[0])] + ToLower(s[1..], lower)
  }

  function MergeKey(r: Rule, lower: char -> char): string {
    if r.target == "" then r.target else ToLower(r.target, lower)
  }

  /** The first rule for each key, in order, leaving out keys already seen. */
  function FirstPerKey(rules: seq<Rule>, seen: set<string>, lower: char -> char): seq<Rule> {
    if rules == [] then []
    else
      var key := MergeKey(rules[0], lower);
      if key in seen then FirstPerKey(rules[1..], seen, lower)
      else [rules[0]] + FirstPerKey(rules[1..], seen + {key}, lower)
  }

  function KeysOf(rules: seq<Rule>, lower: char -> char): set<string> {
    set i | 0 <= i < |rules| :: MergeKey(rules[i], lower)
  }

  function Merge(base: seq<Rule>, additions: seq<Rule>, lower: char -> char): seq<Rule> {
    if additions == [] then base else FirstPerKey(additions + base, {}, lower)
  }

  /** The rule in force for a key: the first one that has it. */
  function Resolve(rules: seq<Rule>, key: string, lower: char -> char): Option<Rule> {
    if rules == [] then None
    else if MergeKey(rules[0], lower) == key then Some(rules[0])
    else Resolve(rules[1..], key, lower)
  }

  ghost predicate DistinctKeys(rules: seq<Rule>, lower: char -> char) {
    forall i, j :: 0 <= i < j < |rules| ==> MergeKey(rules[i], lower) != MergeKey(rules[j], lower)
  }

  // ---- Lemmas about FirstPerKey.

  lemma {:induction false} KeysOfCons(r: Rule, rules: seq<Rule>, lower: char -> char)
    ensures KeysOf([r] + rules, lower) == {MergeKey(r, lower)} + KeysOf(rules, lower)
  {
    var all := [r] + rules;
    forall k
      ensures k in KeysOf(all, lower) <==> k in {MergeKey(r, lower)} + KeysOf(rules, lower)
    {
      if k in KeysOf(rules, lower) {
        var i :| 0 <= i < |rules| && MergeKey(rules[i], lower) == k;
        assert all[i + 1] == rules[i];
      }
      if k in KeysOf(all, lower) {
        var i :| 0 <= i < |all| && MergeKey(all[i], lower) == k;
        assert i > 0 ==> rules[i - 1] == all[i];
      }
      assert all[0] == r;
    }
  }

  lemma {:induction false} FirstPerKeyConcat(a: seq<Rule>, b: seq<Rule>, seen: set<string>, lower: char -> char)
    ensures FirstPerKey(a + b, seen, lower) ==
      FirstPerKey(a, seen, lower) + FirstPerKey(b, seen + KeysOf(a, lower), lower)
  {
    if a == [] {
      assert a + b == b;
      assert seen + KeysOf(a, lower) == seen;
    } else {
      var key, all := MergeKey(a[0], lower), a + b;
      var later := seen + KeysOf(a, lower);
      assert all[0] == a[0] && all[1..] == a[1..] + b;
      if key in seen {
        assert seen + KeysOf(a[1..], lower) == later;
        FirstPerKeyConcat(a[1..], b, seen, lower);
      } else {
        assert seen + {key} + KeysOf(a[1..], lower) == later;
        FirstPerKeyConcat(a[1..], b, seen + {key}, lower);
        assert FirstPerKey(all, seen, lower) ==
          [a[0]] + (FirstPerKey(a[1..], seen + {key}, lower) + FirstPerKey(b, later, lower));
      }
    }
  }

  lemma {:induction false} KeysOfFirstPerKey(rules: seq<Rule>, seen: set<string>, lower: char -> char)
    ensures KeysOf(FirstPerKey(rules, seen, lower), lower) == KeysOf(rules, lower) - seen
  {
    if rules == [] {
    } else {
      var key := MergeKey(rules[0], lower);
      assert rules == [rules[0]] + rules[1..];
      KeysOfCons(rules[0], rules[1..], lower);
      if key in seen {
        KeysOfFirstPerKey(rules[1..], seen, lower);
      } else {
        KeysOfFirstPerKey(rules[1..], seen + {key}, lower);
        KeysOfCons(rules[0], FirstPerKey(rules[1..], seen + {key}, lower), lower);
      }
    }
  }

  /** Taking firsts, then firsts of what is left over, is taking firsts once. */
  lemma {:induction false} FirstPerKeyNested(
      rules: seq<Rule>, inner: set<string>, outer: set<string>, lower: char -> char)
    requires inner <= outer
    ensures FirstPerKey(FirstPerKey(rules, inner, lower), outer, lower) == FirstPerKey(rules, outer, lower)
  {
    if rules == [] {
    } else {
      var key := MergeKey(rules[0], lower);
      if key in inner {
        FirstPerKeyNested(rules[1..], inner, outer, lower);
      } else {
        var rest := FirstPerKey(rules[1..], inner + {key}, lower);
        assert ([rules[0]] + rest)[1..] == rest;
        if key in outer {
          FirstPerKeyNested(rules[1..], inner + {key}, outer, lower);
        } else {
          FirstPerKeyNested(rules[1..], inner + {key}, outer + {key}, lower);
        }
      }
    }
  }

  lemma {:induction false} FirstPerKeyDistinct(rules: seq<Rule>, seen: set<string>, lower: char -> char)
    ensures DistinctKeys(FirstPerKey(rules, seen, lower), lower)
  {
    if rules == [] {
    } else {
      var key := MergeKey(rules[0], lower);
      if key in seen {
        FirstPerKeyDistinct(rules[1..], seen, lower);
      } else {
        FirstPerKeyDistinct(rules[1..], seen + {key}, lower);
        KeysOfFirstPerKey(rules[1..], seen + {key}, lower);
        var rest := FirstPerKey(rules[1..], seen + {key}, lower);
        assert forall i :: 0 <= i < |rest| ==> MergeKey(rest[i], lower) in KeysOf(rest, lower);
      }
    }
  }

  lemma {:induction false} FirstPerKeyResolves(rules: seq<Rule>, seen: set<string>, key: string, lower: char -> char)
    ensures Resolve(FirstPerKey(rules, seen, lower), key, lower) ==
      if key in seen then None else Resolve(rules, key, lower)
  {
    if rules == [] {
    } else {
      var k := MergeKey(rules[0], lower);
      if k in seen {
        FirstPerKeyResolves(rules[1..], seen, key, lower);
      } else {
        FirstPerKeyResolves(rules[1..], seen + {k}, key, lower);
        var rest := FirstPerKey(rules[1..], seen + {k}, lower);
        assert ([rules[0]] + rest)[1..] == rest;
      }
    }
  }

  lemma {:induction false} ResolveConcat(a: seq<Rule>, b: seq<Rule>, key: string, lower: char -> char)
    ensures Resolve(a + b, key, lower) ==
      if Resolve(a, key, lower).Some? then Resolve(a, key, lower) else Resolve(b, key, lower)
  {
    if a == [] {
      assert a + b == b;
    } else {
      assert (a + b)[1..] == a[1..] + b;
      ResolveConcat(a[1..], b, key, lower);
    }
  }

  /** out is what all has at these indices, in the same order. */
  ghost predicate Picks(all: seq<Rule>, out: seq<Rule>, idx: seq<nat>) {
    && |idx| == |out| && (forall k :: 0 <= k < |idx| ==> idx[k] < |all| && out[k] == all[idx[k]])
    && (forall k, l :: 0 <= k < l < |idx| ==> idx[k] < idx[l])
  }

  /** Rule i is the first with its key, and the key is not excluded. */
  ghost predicate IsFirst(rules: seq<Rule>, seen: set<string>, i: nat, lower: char -> char)
    requires i < |rules|
  {
    && MergeKey(rules[i], lower) !in seen
    && forall j :: 0 <= j < i ==> MergeKey(rules[j], lower) != MergeKey(rules[i], lower)
  }

  /** The indices, each one further on, with a 0 in front if asked for. */
  function Shifted(idx: seq<nat>, zero: bool): seq<nat> {
    (if zero then [0] else []) + seq(|idx|, k requires 0 <= k < |idx| => idx[k] + 1)
  }

  lemma {:induction false} ShiftedMembers(idx: seq<nat>, zero: bool)
    ensures forall i: nat :: i in Shifted(idx, zero) <==> (i == 0 && zero) || (i > 0 && i - 1 in idx)
  {
    var shifted, n := Shifted(idx, zero), if zero then 1 else 0;
    forall i: nat | i > 0 && i - 1 in idx
      ensures i in shifted
    {
      var k :| 0 <= k < |idx| && idx[k] == i - 1;
      assert shifted[n + k] == i;
    }
  }

  lemma {:induction false} ShiftedPicks(head: Rule, rest: seq<Rule>, out: seq<Rule>, idx: seq<nat>, zero: bool)
    requires Picks(rest, out, idx)
    ensures Picks([head] + rest, (if zero then [head] else []) + out, Shifted(idx, zero))
  {
  }

  /** Of the rules given, exactly the first of each key that is not excluded stays, in order. */
  lemma {:induction false} FirstPerKeyPicks(rules: seq<Rule>, seen: set<string>, lower: char -> char)
    returns (idx: seq<nat>)
    ensures Picks(rules, FirstPerKey(rules, seen, lower), idx)
    ensures forall i: nat :: i in idx <==> i < |rules| && IsFirst(rules, seen, i, lower)
  {
    if rules == [] {
      idx := [];
    } else {
      var key, rest := MergeKey(rules[0], lower), rules[1..];
      var zero := key !in seen;
      var tail := FirstPerKeyPicks(rest, seen + {key}, lower);
      assert !zero ==> seen + {key} == seen;
      idx := Shifted(tail, zero);
      ShiftedPicks(rules[0], rest, FirstPerKey(rest, seen + {key}, lower), tail, zero);
      assert rules == [rules[0]] + rest;
      ShiftedMembers(tail, zero);
      forall i: nat | 0 < i < |rules|
        ensures IsFirst(rules, seen, i, lower) <==> IsFirst(rest, seen + {key}, i - 1, lower)
      {
        FirstInRest(rules, seen, i, lower);
      }
    }
  }

  lemma {:induction false} FirstInRest(rules: seq<Rule>, seen: set<string>, i: nat, lower: char -> char)
    requires 0 < i < |rules|
    ensures IsFirst(rules, seen, i, lower) <==>
      IsFirst(rules[1..], seen + {MergeKey(rules[0], lower)}, i - 1, lower)
  {
    var rest := rules[1..];
    assert forall j :: 0 <= j < i - 1 ==> rest[j] == rules[j + 1];
    if IsFirst(rest, seen + {MergeKey(rules[0], lower)}, i - 1, lower) {
      forall j | 0 <= j < i
        ensures MergeKey(rules[j], lower) != MergeKey(rules[i], lower)
      {
        assert j > 0 ==> rest[j - 1] == rules[j];
      }
    }
  }

  /** The rule that is in force is the first with the key. */
  lemma {:induction false} ResolveMeaning(rules: seq<Rule>, key: string, lower: char -> char)
    ensures forall i: nat :: i < |rules| && MergeKey(rules[i], lower) == key && IsFirst(rules, {}, i, lower) ==>
      Resolve(rules, key, lower) == Some(rules[i])
    ensures Resolve(rules, key, lower).None? <==> forall i :: 0 <= i < |rules| ==> MergeKey(rules[i], lower) != key
  {
    if rules == [] {
    } else {
      ResolveMeaning(rules[1..], key, lower);
      assert forall i :: 1 <= i < |rules| ==> rules[i] == rules[1..][i - 1];
      forall i: nat | 0 < i < |rules| && IsFirst(rules, {}, i, lower)
        ensures IsFirst(rules[1..], {}, i - 1, lower) && MergeKey(rules[0], lower) != MergeKey(rules[i], lower)
      {
        FirstInRest(rules, {}, i, lower);
      }
    }
  }

  // ---- What a patch means.

  /** A patched list is the patch followed by the base, without every rule whose key came
      up before. */
  lemma {:induction false} PatchKeepsFirsts(base: seq<Rule>, additions: seq<Rule>, lower: char -> char)
    returns (idx: seq<nat>)
    requires additions != []
    ensures Picks(additions + base, Merge(base, additions, lower), idx)
    ensures forall i: nat :: i in idx <==> i < |additions + base| && IsFirst(additions + base, {}, i, lower)
  {
    idx := FirstPerKeyPicks(additions + base, {}, lower);
  }

  /** After a non-empty patch every key is listed once. */
  lemma {:induction false} PatchedKeysAreUnique(base: seq<Rule>, additions: seq<Rule>, lower: char -> char)
    requires additions != []
    ensures DistinctKeys(Merge(base, additions, lower), lower)
  {
    FirstPerKeyDistinct(additions + base, {}, lower);
  }

  /** Each key resolves to its first patch rule, else to its first base rule. */
  lemma {:induction false} PatchWinsBaseFillsIn(base: seq<Rule>, additions: seq<Rule>, key: string, lower: char -> char)
    ensures Resolve(Merge(base, additions, lower), key, lower) ==
      if Resolve(additions, key, lower).Some? then Resolve(additions, key, lower) else Resolve(base, key, lower)
  {
    FirstPerKeyResolves(additions + base, {}, key, lower);
    ResolveConcat(additions, base, key, lower);
  }

  /** Two patches are one patch with the later rules in front. */
  lemma {:induction false} PatchesCompose(base: seq<Rule>, first: seq<Rule>, second: seq<Rule>, lower: char -> char)
    ensures Merge(Merge(base, first, lower), second, lower) == Merge(base, second + first, lower)
  {
    if second == [] {
      assert second + first == first;
    } else if first == [] {
      assert second + first == second;
    } else {
      var inner := FirstPerKey(first + base, {}, lower);
      FirstPerKeyConcat(second, inner, {}, lower);
      FirstPerKeyConcat(second, first + base, {}, lower);
      assert second + (first + base) == (second + first) + base;
      FirstPerKeyNested(first + base, {}, {} + KeysOf(second, lower), lower);
    }
  }

  lemma {:induction false} PatchIsIdempotent(base: seq<Rule>, additions: seq<Rule>, lower: char -> char)
    ensures Merge(Merge(base, additions, lower), additions, lower) == Merge(base, additions, lower)
  {
    if additions != [] {
      PatchesCompose(base, additions, additions, lower);
      assert (additions + additions) + base == additions + (additions + base);
      RepeatedRulesAddNothing(base, additions, lower);
    }
  }

  lemma {:induction false} RepeatedRulesAddNothing(base: seq<Rule>, additions: seq<Rule>, lower: char -> char)
    ensures FirstPerKey(additions + (additions + base), {}, lower) == FirstPerKey(additions + base, {}, lower)
  {
    var keys := KeysOf(additions, lower);
    assert {} + keys == keys && keys + keys == keys;
    FirstPerKeyConcat(additions, additions + base, {}, lower);
    FirstPerKeyConcat(additions, base, {}, lower);
    FirstPerKeyConcat(additions, base, keys, lower);
    NothingNew(additions, keys, lower);
    assert [] + FirstPerKey(base, keys, lower) == FirstPerKey(base, keys, lower);
  }

  lemma {:induction false} NothingNew(rules: seq<Rule>, seen: set<string>, lower: char -> char)
    requires KeysOf(rules, lower) <= seen
    ensures FirstPerKey(rules, seen, lower) == []
  {
    if rules == [] {
    } else {
      assert rules == [rules[0]] + rules[1..];
      KeysOfCons(rules[0], rules[1..], lower);
      NothingNew(rules[1..], seen, lower);
    }
  }

  /** One of mergeEgressRules' two loops. */
  method AppendFirsts(rules: seq<Rule>, seen: set<string>, out: seq<Rule>, lower: char -> char)
    returns (seen': set<string>, out': seq<Rule>)
    ensures out' == out + FirstPerKey(rules, seen, lower)
    ensures seen' == seen + KeysOf(rules, lower)
  {
    seen', out' := seen, out;
    for i := 0 to |rules|
      invariant out' + FirstPerKey(rules[i..], seen', lower) == out + FirstPerKey(rules, seen, lower)
      invariant seen' + KeysOf(rules[i..], lower) == seen + KeysOf(rules, lower)
    {
      var key := MergeKey(rules[i], lower);
      assert rules[i..][0] == rules[i] && rules[i..][1..] == rules[i + 1..];
      if key in seen' { continue; }
      assert out' + ([rules[i]] + FirstPerKey(rules[i + 1..], seen' + {key}, lower)) ==
        (out' + [rules[i]]) + FirstPerKey(rules[i + 1..], seen' + {key}, lower);
      seen' := seen' + {key};
      out' := out' + [rules[i]];
    }
  }

  method MergeEgressRules(base: seq<Rule>, additions: seq<Rule>, lower: char -> char) returns (out: seq<Rule>)
    ensures out == Merge(base, additions, lower)
  {
    if |additions| == 0 {
      return base;
    }
    var seen: set<string> := {};
    seen, out := AppendFirsts(additions, {}, [], lower);
    seen, out := AppendFirsts(base, seen, out, lower);
    FirstPerKeyConcat(additions, base, {}, lower);
  }

  // ---- Deletion.

  function TrimLeft(s: string, space: char -> bool): string {
    if s != "" && space(s[0]) then TrimLeft(s[1..], space) else s
  }

  function TrimRight(s: string, space: char -> bool): string {
    if s != "" && space(s[|s| - 1]) then TrimRight(s[..|s| - 1], space) else s
  }

  /** The key a deletion target stands for. */
  function TargetKey(t: string, lower: char -> char, space: char -> bool): string {
    ToLower(TrimRight(TrimLeft(t, space), space), lower)
  }

  function RemoveSet(targets: seq<string>, lower: char -> char, space: char -> bool): set<string> {
    (set i | 0 <= i < |targets| :: TargetKey(targets[i], lower, space)) - {""}
  }

  function Select(rules: seq<Rule>, keys: set<string>, inside: bool, lower: char -> char): seq<Rule> {
    if rules == [] then []
    else
      var head := if (MergeKey(rules[0], lower) in keys) == inside then [rules[0]] else [];
      head + Select(rules[1..], keys, inside, lower)
  }

  method CollectTargets(targets: seq<string>, lower: char -> char, space: char -> bool) returns (removeSet: set<string>)
    ensures removeSet == RemoveSet(targets, lower, space)
  {
    removeSet := {};
    for i := 0 to |targets|
      invariant removeSet == (set j | 0 <= j < i :: TargetKey(targets[j], lower, space)) - {""}
    {
      var key := TargetKey(targets[i], lower, space);
      if key == "" { continue; }
      removeSet := removeSet + {key};
    }
  }

  method RemoveRulesByTarget(rules: seq<Rule>, targets: seq<string>, lower: char -> char, space: char -> bool)
    returns (kept: seq<Rule>, removed: seq<Rule>)
    ensures kept == Select(rules, RemoveSet(targets, lower, space), false, lower)
    ensures removed == Select(rules, RemoveSet(targets, lower, space), true, lower)
  {
    if |targets| == 0 || |rules| == 0 {
      SelectNothing(rules, lower);
      assert |targets| == 0 ==> RemoveSet(targets, lower, space) == {};
      return rules, [];
    }
    var removeSet := CollectTargets(targets, lower, space);
    kept, removed := [], [];
    for i := 0 to |rules|
      invariant kept == Select(rules[..i], removeSet, false, lower)
      invariant removed == Select(rules[..i], removeSet, true, lower)
    {
      assert rules[..i + 1] == rules[..i] + [rules[i]];
      SelectSnoc(rules[..i], rules[i], removeSet, false, lower);
      SelectSnoc(rules[..i], rules[i], removeSet, true, lower);
      if MergeKey(rules[i], lower) in removeSet {
        removed := removed + [rules[i]];
      } else {
        kept := kept + [rules[i]];
      }
    }
    assert rules[..|rules|] == rules;
  }

  lemma {:induction false} SelectSnoc(rules: seq<Rule>, r: Rule, keys: set<string>, inside: bool, lower: char -> char)
    ensures Select(rules + [r], keys, inside, lower) ==
      Select(rules, keys, inside, lower) + (if (MergeKey(r, lower) in keys) == inside then [r] else [])
  {
    if rules == [] {
      assert rules + [r] == [r];
    } else {
      var all := rules + [r];
      var head := if (MergeKey(rules[0], lower) in keys) == inside then [rules[0]] else [];
      var last := if (MergeKey(r, lower) in keys) == inside then [r] else [];
      assert all[0] == rules[0] && all[1..] == rules[1..] + [r];
      SelectSnoc(rules[1..], r, keys, inside, lower);
      assert Select(all, keys, inside, lower) == head + (Select(rules[1..], keys, inside, lower) + last);
      assert Select(rules, keys, inside, lower) == head + Select(rules[1..], keys, inside, lower);
    }
  }

  lemma {:induction false} SelectNothing(rules: seq<Rule>, lower: char -> char)
    ensures Select(rules, {}, false, lower) == rules && Select(rules, {}, true, lower) == []
  {
    if rules == [] {
    } else {
      SelectNothing(rules[1..], lower);
      assert rules == [rules[0]] + rules[1..];
    }
  }

  // ---- Which rules a deletion names.

  lemma {:induction false} ToLowerMeaning(s: string, lower: char -> char)
    ensures |ToLower(s, lower)| == |s| && forall k :: 0 <= k < |s| ==> ToLower(s, lower)[k] == lower(s[k])
  {
    if s == "" {
    } else {
      ToLowerMeaning(s[1..], lower);
    }
  }

  /** t without the white space around it is t[i..j]. */
  ghost predicate TrimsTo(t: string, i: int, j: int, space: char -> bool) {
    && 0 <= i <= j <= |t|
    && (forall k :: 0 <= k < i || j <= k < |t| ==> space(t[k]))
    && (i < j ==> !space(t[i]) && !space(t[j - 1]))
  }

  lemma {:induction false} TrimLeftMeaning(t: string, space: char -> bool) returns (i: nat)
    ensures i <= |t| && TrimLeft(t, space) == t[i..]
    ensures (forall k :: 0 <= k < i ==> space(t[k])) && (i < |t| ==> !space(t[i]))
  {
    if t != "" && space(t[0]) {
      var n := TrimLeftMeaning(t[1..], space);
      i := n + 1;
      assert forall k :: 1 <= k < i ==> t[k] == t[1..][k - 1];
    } else {
      i := 0;
    }
  }

  lemma {:induction false} TrimRightMeaning(t: string, space: char -> bool) returns (j: nat)
    ensures j <= |t| && TrimRight(t, space) == t[..j]
    ensures (forall k :: j <= k < |t| ==> space(t[k])) && (j > 0 ==> !space(t[j - 1]))
  {
    if t != "" && space(t[|t| - 1]) {
      j := TrimRightMeaning(t[..|t| - 1], space);
      assert t[..|t| - 1][..j] == t[..j];
    } else {
      j := |t|;
      assert t[..j] == t;
    }
  }

  lemma {:induction false} TrimMeaning(t: string, space: char -> bool) returns (i: nat, j: nat)
    ensures TrimsTo(t, i, j, space) && TrimRight(TrimLeft(t, space), space) == t[i..j]
  {
    i := TrimLeftMeaning(t, space);
    var n := TrimRightMeaning(t[i..], space);
    j := i + n;
    assert t[i..][..n] == t[i..j];
    assert forall k :: i <= k < |t| ==> t[k] == t[i..][k - i];
  }

  /** The deletion target t, trimmed and in lower case, is not empty and is r's target in lower case. */
  ghost predicate NamesRule(t: string, r: Rule, lower: char -> char, space: char -> bool) {
    exists i, j :: i < j && TrimsTo(t, i, j, space) && SameInLower(t[i..j], r.target, lower)
  }

  ghost predicate SameInLower(a: string, b: string, lower: char -> char) {
    |a| == |b| && forall k :: 0 <= k < |a| ==> lower(a[k]) == lower(b[k])
  }

  lemma {:induction false} TargetKeyMeaning(t: string, r: Rule, lower: char -> char, space: char -> bool)
    ensures NamesRule(t, r, lower, space) <==>
      TargetKey(t, lower, space) != "" && TargetKey(t, lower, space) == MergeKey(r, lower)
  {
    var i, j := TrimMeaning(t, space);
    ToLowerMeaning(t[i..j], lower);
    ToLowerMeaning(r.target, lower);
    assert SameInLower(t[i..j], r.target, lower) <==> TargetKey(t, lower, space) == MergeKey(r, lower);
    if NamesRule(t, r, lower, space) {
      var i', j' :| i' < j' && TrimsTo(t, i', j', space) && SameInLower(t[i'..j'], r.target, lower);
      assert !space(t[i']) && !space(t[j' - 1]);
      assert i == i' && j == j';
    }
  }

  lemma {:induction false} SelectPicks(rules: seq<Rule>, keys: set<string>, inside: bool, lower: char -> char)
    returns (idx: seq<nat>)
    ensures Picks(rules, Select(rules, keys, inside, lower), idx)
    ensures forall i: nat :: i in idx <==> i < |rules| && (MergeKey(rules[i], lower) in keys) == inside
  {
    if rules == [] {
      idx := [];
    } else {
      var zero := (MergeKey(rules[0], lower) in keys) == inside;
      var tail := SelectPicks(rules[1..], keys, inside, lower);
      idx := Shifted(tail, zero);
      ShiftedPicks(rules[0], rules[1..], Select(rules[1..], keys, inside, lower), tail, zero);
      assert rules == [rules[0]] + rules[1..];
      ShiftedMembers(tail, zero);
    }
  }

  /** A deletion removes exactly the rules some target names, and keeps the order of both. */
  lemma {:induction false} DeletionRemovesExactlyNamed(
      rules: seq<Rule>, targets: seq<string>, inside: bool, lower: char -> char, space: char -> bool)
    returns (idx: seq<nat>)
    ensures Picks(rules, Select(rules, RemoveSet(targets, lower, space), inside, lower), idx)
    ensures forall i: nat :: i in idx <==>
      i < |rules| && (exists t :: t in targets && NamesRule(t, rules[i], lower, space)) == inside
  {
    idx := SelectPicks(rules, RemoveSet(targets, lower, space), inside, lower);
    forall i: nat | i < |rules|
      ensures MergeKey(rules[i], lower) in RemoveSet(targets, lower, space) <==>
        exists t :: t in targets && NamesRule(t, rules[i], lower, space)
    {
      RemoveSetMeaning(targets, rules[i], lower, space);
    }
  }

  lemma {:induction false} RemoveSetMeaning(targets: seq<string>, r: Rule, lower: char -> char, space: char -> bool)
    ensures MergeKey(r, lower) in RemoveSet(targets, lower, space) <==>
      exists t :: t in targets && NamesRule(t, r, lower, space)
  {
    if MergeKey(r, lower) in RemoveSet(targets, lower, space) {
      var i :| 0 <= i < |targets| && TargetKey(targets[i], lower, space) == MergeKey(r, lower);
      TargetKeyMeaning(targets[i], r, lower, space);
      assert targets[i] in targets;
    }
    if t :| t in targets && NamesRule(t, r, lower, space) {
      TargetKeyMeaning(t, r, lower, space);
      var i :| 0 <= i < |targets| && targets[i] == t;
      assert TargetKey(targets[i], lower, space) in RemoveSet(targets, lower, space);
    }
  }

  /** Deleting takes away exactly the named keys: the others resolve as before. */
  lemma {:induction false} DeletionForgetsOnlyTargets(
      rules: seq<Rule>, keys: set<string>, key: string, lower: char -> char)
    ensures Resolve(Select(rules, keys, false, lower), key, lower) ==
      if key in keys then None else Resolve(rules, key, lower)
  {
    if rules == [] {
    } else {
      DeletionForgetsOnlyTargets(rules[1..], keys, key, lower);
      var rest := Select(rules[1..], keys, false, lower);
      assert ([rules[0]] + rest)[1..] == rest && [] + rest == rest;
    }
  }

  /** No rule is lost or invented between the kept and the removed ones. */
  lemma {:induction false} DeletionPartitionsRules(rules: seq<Rule>, keys: set<string>, lower: char -> char)
    ensures multiset(Select(rules, keys, false, lower)) + multiset(Select(rules, keys, true, lower)) == multiset(rules)
  {
    if rules == [] {
    } else {
      DeletionPartitionsRules(rules[1..], keys, lower);
      assert multiset(rules) == multiset{rules[0]} + multiset(rules[1..]) by {
        assert rules == [rules[0]] + rules[1..];
      }
    }
  }
}
