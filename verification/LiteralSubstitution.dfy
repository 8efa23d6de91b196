/** Substitution of credential placeholders in request text: all replacements are made
    against the original text, leftmost first and longest first. */
module LiteralSubstitution {

  datatype Replacement = Replacement(placeholder: string, value: string)

  /** text.startswith(p, i) */
  predicate StartsAt(text: string, i: nat, p: string) {
    i + |p| <= |text| && text[i..i + |p|] == p
  }

  /** The text cut up: a character copied through, or an occurrence of a placeholder. */
  datatype Piece = Literal(c: char) | Token(index: nat)

  /** Placeholder k is a longest non-empty one at i, and the first listed of that length. */
  ghost predicate LongestAt(text: string, i: nat, reps: seq<Replacement>, k: nat) {
    && k < |reps| && reps[k].placeholder != "" && StartsAt(text, i, reps[k].placeholder)
    && (forall j :: 0 <= j < |reps| && StartsAt(text, i, reps[j].placeholder) ==>
          |reps[j].placeholder| <= |reps[k].placeholder|)
    && (forall j :: 0 <= j < k && StartsAt(text, i, reps[j].placeholder) ==>
          |reps[j].placeholder| < |reps[k].placeholder|)
  }

  ghost predicate NoneAt(text: string, i: nat, reps: seq<Replacement>) {
    forall j :: 0 <= j < |reps| && reps[j].placeholder != "" ==> !StartsAt(text, i, reps[j].placeholder)
  }

  ghost predicate Fits(text: string, i: nat, reps: seq<Replacement>, piece: Piece) {
    match piece
    case Literal(c) => i < |text| && text[i] == c && NoneAt(text, i, reps)
    case Token(k) => LongestAt(text, i, reps, k)
  }

  /** The stretch of original text a piece stands for. */
  function Source(piece: Piece, reps: seq<Replacement>): string {
    match piece
    case Literal(c) => [c]
    case Token(k) => if k < |reps| then reps[k].placeholder else ""
  }

  function Rendered(piece: Piece, reps: seq<Replacement>): string {
    match piece
    case Literal(c) => [c]
    case Token(k) => if k < |reps| then reps[k].value else ""
  }

  function Sources(pieces: seq<Piece>, reps: seq<Replacement>): string {
    if pieces == [] then "" else Sources(pieces[..|pieces| - 1], reps) + Source(pieces[|pieces| - 1], reps)
  }

  /** How much of the text the pieces stand for. */
  function Width(pieces: seq<Piece>, reps: seq<Replacement>): nat {
    if pieces == [] then 0 else Width(pieces[..|pieces| - 1], reps) + |Source(pieces[|pieces| - 1], reps)|
  }

  function Render(pieces: seq<Piece>, reps: seq<Replacement>): string {
    if pieces == [] then "" else Render(pieces[..|pieces| - 1], reps) + Rendered(pieces[|pieces| - 1], reps)
  }

  /** The replacements used, in the order of their first use. */
  function FirstUses(pieces: seq<Piece>): seq<nat> {
    if pieces == [] then []
    else
      var front := FirstUses(pieces[..|pieces| - 1]);
      match pieces[|pieces| - 1]
      case Literal(_) => front
      case Token(k) => if k in front then front else front + [k]
  }

  /** The pieces read off the text from its start, each where the one before it ended. */
  ghost predicate Reads(text: string, reps: seq<Replacement>, pieces: seq<Piece>) {
    forall j :: 0 <= j < |pieces| ==> Fits(text, Width(pieces[..j], reps), reps, pieces[j])
  }

  /** The leftmost-longest reading of the whole text. */
  ghost predicate IsReading(text: string, reps: seq<Replacement>, pieces: seq<Piece>) {
    Reads(text, reps, pieces) && Width(pieces, reps) == |text|
  }

  lemma {:induction false} ReadsSnoc(text: string, reps: seq<Replacement>, pieces: seq<Piece>, piece: Piece)
    requires Reads(text, reps, pieces) && Fits(text, Width(pieces, reps), reps, piece)
    ensures Reads(text, reps, pieces + [piece])
  {
    var all := pieces + [piece];
    forall j | 0 <= j < |all|
      ensures Fits(text, Width(all[..j], reps), reps, all[j])
    {
      assert all[..j] == if j < |pieces| then pieces[..j] else pieces;
    }
  }

  lemma {:induction false} Snoc(pieces: seq<Piece>, piece: Piece, reps: seq<Replacement>)
    ensures Width(pieces + [piece], reps) == Width(pieces, reps) + |Source(piece, reps)|
    ensures Render(pieces + [piece], reps) == Render(pieces, reps) + Rendered(piece, reps)
    ensures FirstUses(pieces + [piece]) ==
      if piece.Literal? || piece.index in FirstUses(pieces) then FirstUses(pieces)
      else FirstUses(pieces) + [piece.index]
  {
    assert (pieces + [piece])[..|pieces|] == pieces;
  }

  // ---- The implementation.

  /** The inner loop: the replacement to use at i, or -1. */
  method SelectAt(text: string, i: nat, reps: seq<Replacement>) returns (selected: int)
    requires i < |text|
    ensures -1 <= selected < |reps|
    ensures if selected >= 0 then LongestAt(text, i, reps, selected) else NoneAt(text, i, reps)
  {
    selected := -1;
    var placeholder := "";
    for index := 0 to |reps|
      invariant -1 <= selected < index
      invariant selected < 0 ==> placeholder == ""
      invariant selected >= 0 ==> placeholder == reps[selected].placeholder != "" && StartsAt(text, i, placeholder)
      invariant forall j :: 0 <= j < index && StartsAt(text, i, reps[j].placeholder) ==>
        |reps[j].placeholder| <= |placeholder|
      invariant forall j :: 0 <= j < selected && StartsAt(text, i, reps[j].placeholder) ==>
        |reps[j].placeholder| < |placeholder|
    {
      if |reps[index].placeholder| <= |placeholder| { continue; }
      if i + |reps[index].placeholder| <= |text| && text[i..i + |reps[index].placeholder|] == reps[index].placeholder {
        selected := index;
        placeholder := reps[index].placeholder;
      }
    }
  }

  /** The loop has read text[..i] as these pieces. */
  ghost predicate Progress(
      text: string, reps: seq<Replacement>, pieces: seq<Piece>, i: nat, out: string, applied: seq<nat>)
  {
    && i <= |text| && Reads(text, reps, pieces) && Width(pieces, reps) == i
    && out == Render(pieces, reps) && applied == FirstUses(pieces)
  }

  lemma {:induction false} ProgressStep(
      text: string, reps: seq<Replacement>, pieces: seq<Piece>, i: nat, out: string, applied: seq<nat>,
      piece: Piece)
    requires Progress(text, reps, pieces, i, out, applied) && Fits(text, i, reps, piece)
    ensures Progress(text, reps, pieces + [piece], i + |Source(piece, reps)|, out + Rendered(piece, reps),
                     if piece.Literal? || piece.index in applied then applied else applied + [piece.index])
  {
    ReadsSnoc(text, reps, pieces, piece);
    Snoc(pieces, piece, reps);
  }

  method ReplaceLiteralsOnce(text: string, reps: seq<Replacement>) returns (out: string, applied: seq<nat>)
    ensures exists pieces ::
      IsReading(text, reps, pieces) && out == Render(pieces, reps) && applied == FirstUses(pieces)
  {
    ghost var pieces: seq<Piece> := [];
    out, applied := "", [];
    var appliedSet: set<nat> := {};
    var i := 0;
    while i < |text|
      invariant 0 <= i && Progress(text, reps, pieces, i, out, applied)
      invariant forall k :: k in appliedSet <==> k in applied
      decreases |text| - i
    {
      var selected := SelectAt(text, i, reps);
      ghost var piece := if selected >= 0 then Token(selected) else Literal(text[i]);
      ProgressStep(text, reps, pieces, i, out, applied, piece);
      pieces := pieces + [piece];
      if selected >= 0 {
        out := out + reps[selected].value;
        if selected !in appliedSet {
          applied := applied + [selected];
          appliedSet := appliedSet + {selected};
        }
        i := i + |reps[selected].placeholder|;
        continue;
      }
      out := out + [text[i]];
      i := i + 1;
    }
    assert IsReading(text, reps, pieces);
    if |applied| == 0 {
      UntouchedText(text, reps, pieces);
      out := text;
    }
  }

  // ---- What the result means.

  /** Two readings of the same text agree piece by piece on what they replace. */
  ghost predicate SamePiece(p: Piece, reps: seq<Replacement>, q: Piece, other: seq<Replacement>) {
    match p
    case Literal(c) => q == Literal(c)
    case Token(k) => q.Token? && k < |reps| && q.index < |other| && reps[k] == other[q.index]
  }

  ghost predicate SamePieces(ps: seq<Piece>, reps: seq<Replacement>, qs: seq<Piece>, other: seq<Replacement>) {
    |ps| == |qs| && forall j :: 0 <= j < |ps| ==> SamePiece(ps[j], reps, qs[j], other)
  }

  ghost predicate DistinctPlaceholders(reps: seq<Replacement>) {
    forall i, j :: 0 <= i < j < |reps| ==> reps[i].placeholder != reps[j].placeholder
  }

  /** The same replacements, possibly listed in another order. */
  ghost predicate Rearranged(reps: seq<Replacement>, other: seq<Replacement>) {
    && DistinctPlaceholders(reps) && DistinctPlaceholders(other)
    && forall r :: r in reps <==> r in other
  }

  ghost predicate Interchangeable(reps: seq<Replacement>, other: seq<Replacement>) {
    reps == other || Rearranged(reps, other)
  }

  lemma {:induction false} TokenInEitherList(
      text: string, i: nat, reps: seq<Replacement>, other: seq<Replacement>, k: nat)
    requires Interchangeable(reps, other) && LongestAt(text, i, reps, k)
    ensures !NoneAt(text, i, other)
    ensures forall l: nat :: LongestAt(text, i, other, l) ==> |reps[k].placeholder| <= |other[l].placeholder|
  {
    assert reps[k] in other;
    var j :| 0 <= j < |other| && other[j] == reps[k];
    assert StartsAt(text, i, other[j].placeholder);
  }

  lemma {:induction false} SameToken(
      text: string, i: nat, reps: seq<Replacement>, other: seq<Replacement>, k: nat, l: nat)
    requires Interchangeable(reps, other) && LongestAt(text, i, reps, k) && LongestAt(text, i, other, l)
    ensures reps[k] == other[l]
  {
    TokenInEitherList(text, i, reps, other, k);
    TokenInEitherList(text, i, other, reps, l);
    assert reps[k].placeholder == other[l].placeholder;
    if reps == other {
      assert StartsAt(text, i, reps[l].placeholder) && StartsAt(text, i, reps[k].placeholder);
      assert !(k < l) && !(l < k);
    } else {
      assert other[l] in reps;
      var m :| 0 <= m < |reps| && reps[m] == other[l];
      assert m == k;
    }
  }

  lemma {:induction false} SameChoice(
      text: string, i: nat, reps: seq<Replacement>, other: seq<Replacement>, p: Piece, q: Piece)
    requires Interchangeable(reps, other)
    requires Fits(text, i, reps, p) && Fits(text, i, other, q)
    ensures SamePiece(p, reps, q, other)
  {
    if p.Token? && q.Token? {
      SameToken(text, i, reps, other, p.index, q.index);
    } else if p.Token? {
      TokenInEitherList(text, i, reps, other, p.index);
    } else if q.Token? {
      TokenInEitherList(text, i, other, reps, q.index);
    }
  }

  lemma {:induction false} SameWidth(ps: seq<Piece>, reps: seq<Replacement>, qs: seq<Piece>, other: seq<Replacement>)
    requires SamePieces(ps, reps, qs, other)
    ensures Width(ps, reps) == Width(qs, other)
  {
    if ps == [] {
    } else {
      var n := |ps| - 1;
      assert SamePieces(ps[..n], reps, qs[..n], other);
      SameWidth(ps[..n], reps, qs[..n], other);
      assert SamePiece(ps[n], reps, qs[n], other);
    }
  }

  lemma {:induction false} SameRender(ps: seq<Piece>, reps: seq<Replacement>, qs: seq<Piece>, other: seq<Replacement>)
    requires SamePieces(ps, reps, qs, other)
    ensures Render(ps, reps) == Render(qs, other)
  {
    if ps == [] {
    } else {
      var n := |ps| - 1;
      assert SamePieces(ps[..n], reps, qs[..n], other);
      SameRender(ps[..n], reps, qs[..n], other);
      assert SamePiece(ps[n], reps, qs[n], other);
    }
  }

  lemma {:induction false} ReadingsAgreeUpTo(
      text: string, reps: seq<Replacement>, ps: seq<Piece>, other: seq<Replacement>, qs: seq<Piece>, n: nat)
    requires Interchangeable(reps, other)
    requires Reads(text, reps, ps) && Reads(text, other, qs)
    requires n <= |ps| && n <= |qs|
    ensures SamePieces(ps[..n], reps, qs[..n], other)
  {
    if n == 0 {
    } else {
      var m := n - 1;
      ReadingsAgreeUpTo(text, reps, ps, other, qs, m);
      SameWidth(ps[..m], reps, qs[..m], other);
      SameChoice(text, Width(ps[..m], reps), reps, other, ps[m], qs[m]);
      SamePiecesSnoc(ps, reps, qs, other, m);
    }
  }

  lemma {:induction false} SamePiecesSnoc(
      ps: seq<Piece>, reps: seq<Replacement>, qs: seq<Piece>, other: seq<Replacement>, m: nat)
    requires m < |ps| && m < |qs|
    requires SamePieces(ps[..m], reps, qs[..m], other) && SamePiece(ps[m], reps, qs[m], other)
    ensures SamePieces(ps[..m + 1], reps, qs[..m + 1], other)
  {
    var a, b := ps[..m + 1], qs[..m + 1];
    forall j | 0 <= j < |a|
      ensures SamePiece(a[j], reps, b[j], other)
    {
      assert j < m ==> SamePiece(ps[..m][j], reps, qs[..m][j], other);
    }
  }

  /** A reading cannot stop short of another one: the next piece would start past the end. */
  lemma {:induction false} NoShorterReading(text: string, reps: seq<Replacement>, pieces: seq<Piece>, n: nat)
    requires IsReading(text, reps, pieces) && n <= |pieces|
    ensures n < |pieces| ==> Width(pieces[..n], reps) < |text|
  {
    assert n < |pieces| ==> Fits(text, Width(pieces[..n], reps), reps, pieces[n]);
  }

  lemma {:induction false} ReadingsAgree(
      text: string, reps: seq<Replacement>, ps: seq<Piece>, other: seq<Replacement>, qs: seq<Piece>)
    requires Interchangeable(reps, other)
    requires IsReading(text, reps, ps) && IsReading(text, other, qs)
    ensures SamePieces(ps, reps, qs, other)
  {
    var n := if |ps| < |qs| then |ps| else |qs|;
    NoShorterReading(text, other, qs, n);
    NoShorterReading(text, reps, ps, n);
    ReadingsAgreeUpTo(text, reps, ps, other, qs, n);
    SameWidth(ps[..n], reps, qs[..n], other);
    assert ps[..|ps|] == ps && qs[..|qs|] == qs;
  }

  /** There is one leftmost-longest reading, so the result is determined by the text and
      the replacements. */
  lemma {:induction false} ReadingIsUnique(text: string, reps: seq<Replacement>, ps: seq<Piece>, qs: seq<Piece>)
    requires IsReading(text, reps, ps) && IsReading(text, reps, qs)
    ensures ps == qs
  {
    ReadingsAgree(text, reps, ps, reps, qs);
    forall j | 0 <= j < |ps|
      ensures ps[j] == qs[j]
    {
      SamePrefix(ps, reps, qs, reps, j);
      SameWidth(ps[..j], reps, qs[..j], reps);
      assert Fits(text, Width(ps[..j], reps), reps, ps[j]) && Fits(text, Width(qs[..j], reps), reps, qs[j]);
      assert SamePiece(ps[j], reps, qs[j], reps);
    }
  }

  lemma {:induction false} SamePrefix(
      ps: seq<Piece>, reps: seq<Replacement>, qs: seq<Piece>, other: seq<Replacement>, n: nat)
    requires SamePieces(ps, reps, qs, other) && n <= |ps|
    ensures SamePieces(ps[..n], reps, qs[..n], other)
  {
    forall j | 0 <= j < n
      ensures SamePiece(ps[..n][j], reps, qs[..n][j], other)
    {
      assert SamePiece(ps[j], reps, qs[j], other);
    }
  }

  /** The two index lists name the same replacements in the same order. */
  ghost predicate SameReplacements(us: seq<nat>, reps: seq<Replacement>, vs: seq<nat>, other: seq<Replacement>) {
    |us| == |vs| && forall i :: 0 <= i < |us| ==> us[i] < |reps| && vs[i] < |other| && reps[us[i]] == other[vs[i]]
  }

  lemma {:induction false} SameUses(ps: seq<Piece>, reps: seq<Replacement>, qs: seq<Piece>, other: seq<Replacement>)
    requires Rearranged(reps, other) && SamePieces(ps, reps, qs, other)
    ensures SameReplacements(FirstUses(ps), reps, FirstUses(qs), other)
  {
    if ps == [] {
    } else {
      var n := |ps| - 1;
      assert SamePieces(ps[..n], reps, qs[..n], other);
      SameUses(ps[..n], reps, qs[..n], other);
      assert SamePiece(ps[n], reps, qs[n], other);
      if ps[n].Token? {
        SameMembership(FirstUses(ps[..n]), reps, ps[n].index, FirstUses(qs[..n]), other, qs[n].index);
      }
    }
  }

  lemma {:induction false} SameMembership(
      us: seq<nat>, reps: seq<Replacement>, k: nat, vs: seq<nat>, other: seq<Replacement>, l: nat)
    requires Rearranged(reps, other) && k < |reps| && l < |other| && reps[k] == other[l]
    requires SameReplacements(us, reps, vs, other)
    ensures k in us <==> l in vs
  {
    if k in us {
      var i :| 0 <= i < |us| && us[i] == k;
      assert other[vs[i]] == other[l];
    }
    if l in vs {
      var i :| 0 <= i < |vs| && vs[i] == l;
      assert reps[us[i]] == reps[k];
    }
  }

  /** With distinct placeholders neither the text nor the applied replacements, not even
      the order of their first use, depends on the order of the list. */
  lemma {:induction false} ListOrderDoesNotMatter(
      text: string, reps: seq<Replacement>, ps: seq<Piece>, other: seq<Replacement>, qs: seq<Piece>)
    requires Rearranged(reps, other)
    requires IsReading(text, reps, ps) && IsReading(text, other, qs)
    ensures Render(ps, reps) == Render(qs, other)
    ensures SameReplacements(FirstUses(ps), reps, FirstUses(qs), other)
  {
    ReadingsAgree(text, reps, ps, other, qs);
    SameRender(ps, reps, qs, other);
    SameUses(ps, reps, qs, other);
  }

  ghost predicate Occurs(text: string, p: string) {
    exists i :: 0 <= i <= |text| && StartsAt(text, i, p)
  }

  lemma {:induction false} AllLiteral(pieces: seq<Piece>, reps: seq<Replacement>)
    ensures FirstUses(pieces) == [] <==> forall j :: 0 <= j < |pieces| ==> pieces[j].Literal?
    ensures FirstUses(pieces) == [] ==> Width(pieces, reps) == |pieces| && Render(pieces, reps) == Sources(pieces, reps)
  {
    if pieces == [] {
    } else {
      var n := |pieces| - 1;
      AllLiteral(pieces[..n], reps);
      assert forall j :: 0 <= j < n ==> pieces[..n][j] == pieces[j];
    }
  }

  lemma {:induction false} SourcesSnoc(pieces: seq<Piece>, piece: Piece, reps: seq<Replacement>)
    ensures Width(pieces + [piece], reps) == Width(pieces, reps) + |Source(piece, reps)|
    ensures Sources(pieces + [piece], reps) == Sources(pieces, reps) + Source(piece, reps)
  {
    assert (pieces + [piece])[..|pieces|] == pieces;
  }

  /** The pieces of a reading put together again are the text. */
  lemma {:induction false} SourcesRebuildText(text: string, reps: seq<Replacement>, pieces: seq<Piece>)
    requires Reads(text, reps, pieces)
    ensures Width(pieces, reps) <= |text| && Sources(pieces, reps) == text[..Width(pieces, reps)]
  {
    forall j
      ensures StretchAt(text, reps, pieces, j)
    {
      if 0 <= j < |pieces| {
        SourceIsStretch(text, Width(pieces[..j], reps), reps, pieces[j]);
      }
    }
    StretchesRebuildText(text, reps, pieces, |pieces|);
    assert pieces[..|pieces|] == pieces;
  }

  /** Piece j stands for the stretch of text that follows the pieces before it. */
  ghost predicate StretchAt(text: string, reps: seq<Replacement>, pieces: seq<Piece>, j: int) {
    0 <= j < |pieces| ==> Follows(text, Width(pieces[..j], reps), Source(pieces[j], reps))
  }

  ghost predicate Follows(text: string, i: nat, source: string) {
    i + |source| <= |text| && text[..i + |source|] == text[..i] + source
  }

  lemma {:induction false} StretchesRebuildText(text: string, reps: seq<Replacement>, pieces: seq<Piece>, n: nat)
    requires n <= |pieces| && forall j :: StretchAt(text, reps, pieces, j)
    ensures Width(pieces[..n], reps) <= |text| && Sources(pieces[..n], reps) == text[..Width(pieces[..n], reps)]
  {
    if n == 0 {
      assert pieces[..0] == [];
    } else {
      StretchesRebuildText(text, reps, pieces, n - 1);
      assert StretchAt(text, reps, pieces, n - 1);
      SourcesSnoc(pieces[..n - 1], pieces[n - 1], reps);
      assert pieces[..n] == pieces[..n - 1] + [pieces[n - 1]];
    }
  }

  lemma {:induction false} SourceIsStretch(text: string, i: nat, reps: seq<Replacement>, piece: Piece)
    requires Fits(text, i, reps, piece)
    ensures Follows(text, i, Source(piece, reps))
  {
    var w := |Source(piece, reps)|;
    assert text[i..i + w] == Source(piece, reps);
    assert text[..i + w] == text[..i] + text[i..i + w];
  }

  lemma {:induction false} UntouchedText(text: string, reps: seq<Replacement>, pieces: seq<Piece>)
    requires IsReading(text, reps, pieces) && FirstUses(pieces) == []
    ensures Render(pieces, reps) == text
  {
    AllLiteral(pieces, reps);
    SourcesRebuildText(text, reps, pieces);
    assert text[..|text|] == text;
  }

  /** Nothing is applied exactly when no non-empty placeholder occurs in the text, and
      then the text comes back unchanged. */
  lemma {:induction false} NothingAppliedIffNothingOccurs(text: string, reps: seq<Replacement>, pieces: seq<Piece>)
    requires IsReading(text, reps, pieces)
    ensures FirstUses(pieces) == [] <==>
      forall k :: 0 <= k < |reps| && reps[k].placeholder != "" ==> !Occurs(text, reps[k].placeholder)
    ensures FirstUses(pieces) == [] ==> Render(pieces, reps) == text
  {
    AllLiteral(pieces, reps);
    if FirstUses(pieces) == [] {
      UntouchedText(text, reps, pieces);
      forall k, i | 0 <= k < |reps| && reps[k].placeholder != "" && 0 <= i <= |text|
        ensures !StartsAt(text, i, reps[k].placeholder)
      {
        if i < |text| {
          AllLiteral(pieces[..i], reps);
          assert Fits(text, Width(pieces[..i], reps), reps, pieces[i]);
        }
      }
    } else {
      var j :| 0 <= j < |pieces| && pieces[j].Token?;
      var i := Width(pieces[..j], reps);
      assert Fits(text, i, reps, pieces[j]);
      assert StartsAt(text, i, reps[pieces[j].index].placeholder);
      assert Occurs(text, reps[pieces[j].index].placeholder);
    }
  }

  // ---- What the output holds.

  /** Where the output has piece j: the value of its replacement, or the character itself. */
  lemma {:induction false} OutputHoldsValues(pieces: seq<Piece>, reps: seq<Replacement>, j: nat)
    requires j < |pieces| && (pieces[j].Token? ==> pieces[j].index < |reps|)
    ensures var a, out := |Render(pieces[..j], reps)|, Render(pieces, reps);
      var piece := if pieces[j].Token? then reps[pieces[j].index].value else [pieces[j].c];
      && a + |piece| == |Render(pieces[..j + 1], reps)| <= |out|
      && out[a..a + |piece|] == piece
  {
    RenderSnoc(pieces[..j], pieces[j], reps);
    assert pieces[..j + 1] == pieces[..j] + [pieces[j]];
    RenderGrows(pieces, reps, j + 1);
    SliceOfPrefix(Render(pieces[..j], reps), Rendered(pieces[j], reps), Render(pieces, reps));
  }

  lemma {:induction false} RenderSnoc(pieces: seq<Piece>, piece: Piece, reps: seq<Replacement>)
    ensures Render(pieces + [piece], reps) == Render(pieces, reps) + Rendered(piece, reps)
  {
    assert (pieces + [piece])[..|pieces|] == pieces;
  }

  lemma {:induction false} SliceOfPrefix(front: string, piece: string, out: string)
    requires front + piece <= out
    ensures out[|front|..|front| + |piece|] == piece
  {
    assert (front + piece)[|front|..] == piece;
  }

  lemma {:induction false} RenderGrows(pieces: seq<Piece>, reps: seq<Replacement>, n: nat)
    requires n <= |pieces|
    ensures Render(pieces[..n], reps) <= Render(pieces, reps)
  {
    if n == |pieces| {
      assert pieces[..n] == pieces;
    } else {
      var m := |pieces| - 1;
      RenderGrows(pieces[..m], reps, n);
      assert pieces[..m][..n] == pieces[..n];
    }
  }

  /** The first use of replacement k is piece j. */
  ghost predicate FirstUsedAt(pieces: seq<Piece>, k: nat, j: nat) {
    j < |pieces| && pieces[j] == Token(k) && forall i :: 0 <= i < j ==> pieces[i] != Token(k)
  }

  /** The replacements reported are exactly the ones used, each once, in the order of their
      first use. */
  lemma {:induction false} AppliedMeansUsed(pieces: seq<Piece>) returns (at: seq<nat>)
    ensures |at| == |FirstUses(pieces)|
    ensures forall i :: 0 <= i < |at| ==> FirstUsedAt(pieces, FirstUses(pieces)[i], at[i])
    ensures forall i, j :: 0 <= i < j < |at| ==> at[i] < at[j]
    ensures forall j :: 0 <= j < |pieces| && pieces[j].Token? ==> pieces[j].index in FirstUses(pieces)
  {
    if pieces == [] {
      at := [];
    } else {
      var n := |pieces| - 1;
      var front, used := pieces[..n], FirstUses(pieces[..n]);
      at := AppliedMeansUsed(front);
      forall i | 0 <= i < |at|
        ensures FirstUsedAt(pieces, used[i], at[i]) && at[i] < n
      {
        assert FirstUsedAt(front, used[i], at[i]);
      }
      assert forall j :: 0 <= j < n ==> front[j] == pieces[j];
      if pieces[n].Token? && pieces[n].index !in used {
        assert FirstUsedAt(pieces, pieces[n].index, n);
        at := at + [n];
      }
    }
  }

  // ---- Reading from the front.

  lemma {:induction false} WidthFromTheFront(piece: Piece, rest: seq<Piece>, reps: seq<Replacement>)
    ensures Width([piece] + rest, reps) == |Source(piece, reps)| + Width(rest, reps)
  {
    var all := [piece] + rest;
    if rest == [] {
      assert all == [piece] && all[..0] == [];
    } else {
      var n := |rest| - 1;
      WidthFromTheFront(piece, rest[..n], reps);
      assert all[..n + 1] == [piece] + rest[..n] && all[n + 1] == rest[n];
    }
  }

  lemma {:induction false} RenderFromTheFront(piece: Piece, rest: seq<Piece>, reps: seq<Replacement>)
    ensures Render([piece] + rest, reps) == Rendered(piece, reps) + Render(rest, reps)
  {
    var all, front := [piece] + rest, Rendered(piece, reps);
    if rest == [] {
      assert all == [piece] && all[..0] == [];
      assert "" + front == front + "";
    } else {
      var n := |rest| - 1;
      RenderFromTheFront(piece, rest[..n], reps);
      assert all[..n + 1] == [piece] + rest[..n] && all[n + 1] == rest[n];
      var middle, last := Render(rest[..n], reps), Rendered(rest[n], reps);
      assert (front + middle) + last == front + (middle + last);
    }
  }

  lemma {:induction false} StartsFurtherOn(text: string, w: nat, i: nat, p: string)
    requires w <= |text|
    ensures StartsAt(text, w + i, p) <==> StartsAt(text[w..], i, p)
  {
    if w + i + |p| <= |text| {
      assert text[w + i..w + i + |p|] == text[w..][i..i + |p|];
    }
  }

  lemma {:induction false} FitsFurtherOn(text: string, w: nat, i: nat, reps: seq<Replacement>, piece: Piece)
    requires w <= |text| && Fits(text[w..], i, reps, piece)
    ensures Fits(text, w + i, reps, piece)
  {
    forall j | 0 <= j < |reps|
      ensures StartsAt(text, w + i, reps[j].placeholder) <==> StartsAt(text[w..], i, reps[j].placeholder)
    {
      StartsFurtherOn(text, w, i, reps[j].placeholder);
    }
  }

  /** A reading of the rest of the text, with the piece before it. */
  lemma {:induction false} ReadingFromTheFront(text: string, reps: seq<Replacement>, piece: Piece, rest: seq<Piece>)
    requires Fits(text, 0, reps, piece) && |Source(piece, reps)| <= |text|
    requires IsReading(text[|Source(piece, reps)|..], reps, rest)
    ensures IsReading(text, reps, [piece] + rest)
  {
    var all, w := [piece] + rest, |Source(piece, reps)|;
    forall j | 0 <= j < |all|
      ensures Fits(text, Width(all[..j], reps), reps, all[j])
    {
      if j == 0 {
        assert all[..0] == [];
      } else {
        FitsInRest(text, reps, piece, rest, j - 1);
        assert all[..j] == [piece] + rest[..j - 1];
      }
    }
    WidthFromTheFront(piece, rest, reps);
  }

  lemma {:induction false} FitsInRest(text: string, reps: seq<Replacement>, piece: Piece, rest: seq<Piece>, j: nat)
    requires var w := |Source(piece, reps)|; w <= |text| && Reads(text[w..], reps, rest)
    requires j < |rest|
    ensures Fits(text, Width([piece] + rest[..j], reps), reps, rest[j])
  {
    WidthFromTheFront(piece, rest[..j], reps);
    FitsFurtherOn(text, |Source(piece, reps)|, Width(rest[..j], reps), reps, rest[j]);
  }
}
