/** Redaction of credential values in responses. */
module Redaction {
  import opened LiteralSubstitution

  const MARKER := "[REDACTED]"
  const WORD := "REDACTED"

  /** str.replace: every occurrence, leftmost first and not overlapping. */
  function ReplaceAll(text: string, v: string): string
    requires v != ""
    decreases |text|
  {
    if |text| < |v| then text
    else if text[..|v|] == v then MARKER + ReplaceAll(text[|v|..], v)
    else [text[0]] + ReplaceAll(text[1..], v)
  }

  /** Redacting one value is substituting the marker for it: occurrences are taken from the
      left, none overlaps another, and everything between them stays. */
  lemma {:induction false} ReplaceAllIsSubstitution(text: string, v: string) returns (pieces: seq<Piece>)
    requires v != ""
    ensures IsReading(text, [Replacement(v, MARKER)], pieces)
    ensures ReplaceAll(text, v) == Render(pieces, [Replacement(v, MARKER)])
    decreases |text|
  {
    var reps := [Replacement(v, MARKER)];
    if text == "" {
      pieces := [];
    } else {
      var piece := if StartsAt(text, 0, v) then Token(0) else Literal(text[0]);
      FirstPieceFits(text, v, piece);
      var rest := ReplaceAllIsSubstitution(text[|Source(piece, reps)|..], v);
      ReadingFromTheFront(text, reps, piece, rest);
      RenderFromTheFront(piece, rest, reps);
      pieces := [piece] + rest;
    }
  }

  /** The first step of a replacement, whichever piece the text starts with. */
  lemma {:induction false} FirstPieceFits(text: string, v: string, piece: Piece)
    requires v != "" && text != "" && piece == if StartsAt(text, 0, v) then Token(0) else Literal(text[0])
    ensures var reps := [Replacement(v, MARKER)];
      && Fits(text, 0, reps, piece) && 0 < |Source(piece, reps)| <= |text|
      && ReplaceAll(text, v) == Rendered(piece, reps) + ReplaceAll(text[|Source(piece, reps)|..], v)
  {
    if |text| < |v| {
      assert text == [text[0]] + text[1..];
    }
  }

  ghost predicate AllNonEmpty(values: seq<string>) {
    forall i :: 0 <= i < |values| ==> values[i] != ""
  }

  function RedactAll(text: string, order: seq<string>): string
    requires AllNonEmpty(order)
    decreases |order|
  {
    if order == [] then text else RedactAll(ReplaceAll(text, order[0]), order[1..])
  }

  /** v can be laid over the marker so that they agree wherever they overlap. */
  ghost predicate ClashesAt(v: string, d: int) {
    && -|v| < d < |MARKER|
    && forall i :: 0 <= i < |v| && 0 <= i + d < |MARKER| ==> v[i] == MARKER[i + d]
  }

  ghost predicate Clashes(v: string) {
    exists d :: ClashesAt(v, d)
  }

  // ---- A value that does not clash never appears through replacement.

  /** A value lying over the marker, or ending inside it, clashes with it. */
  lemma {:induction false} PlacedBeforeMarker(v: string, k: nat, tail: string)
    requires k < |v| && StartsAt(MARKER + tail, 0, v[k..])
    ensures ClashesAt(v, 0 - k)
  {
    var out, d: int := MARKER + tail, k;
    forall i | 0 <= i < |v| && 0 <= i + -d < |MARKER|
      ensures v[i] == MARKER[i + -d]
    {
      assert out[..|v| - k] == v[k..];
      assert v[k..][i - k] == out[i - k];
    }
  }

  lemma {:induction false} PlacedInMarker(v: string, i: nat, tail: string)
    requires v != "" && i < |MARKER| && StartsAt(MARKER + tail, i, v)
    ensures ClashesAt(v, i)
  {
    var out := MARKER + tail;
    forall j | 0 <= j < |v| && 0 <= j + i < |MARKER|
      ensures v[j] == MARKER[j + i]
    {
      assert out[i..i + |v|][j] == out[i + j];
    }
  }

  lemma {:induction false} PrefixComesFromText(text: string, w: string, v: string, k: nat)
    requires w != "" && k <= |v| && !Clashes(v)
    requires StartsAt(ReplaceAll(text, w), 0, v[k..])
    ensures StartsAt(text, 0, v[k..])
    decreases |text|
  {
    var out := ReplaceAll(text, w);
    if k < |v| && |text| >= |w| {
      assert out[..|v| - k] == v[k..];
      if text[..|w|] == w {
        PlacedBeforeMarker(v, k, ReplaceAll(text[|w|..], w));
      } else {
        var rest := ReplaceAll(text[1..], w);
        assert v[k..][0] == out[0] == text[0];
        assert rest[..|v| - (k + 1)] == out[1..|v| - k] == v[k + 1..];
        PrefixComesFromText(text[1..], w, v, k + 1);
        assert text[1..][..|v| - (k + 1)] == text[1..|v| - k];
        assert text[..|v| - k] == [text[0]] + text[1..|v| - k];
      }
    }
  }

  lemma {:induction false} OccurrenceComesFromText(text: string, w: string, v: string, i: nat)
    requires w != "" && v != "" && !Clashes(v)
    requires StartsAt(ReplaceAll(text, w), i, v)
    ensures Occurs(text, v) && v != w
    decreases |text|
  {
    var out := ReplaceAll(text, w);
    if |text| < |w| {
      assert StartsAt(text, i, v);
    } else if text[..|w|] == w {
      var rest := ReplaceAll(text[|w|..], w);
      if i < |MARKER| {
        PlacedInMarker(v, i, rest);
      } else {
        OccurrenceComesFromText(text[|w|..], w, v, i - |MARKER|);
        OccursInSuffix(text, |w|, v);
      }
    } else if i == 0 {
      assert v[0..] == v;
      PrefixComesFromText(text, w, v, 0);
      assert StartsAt(text, 0, v);
    } else {
      var rest := ReplaceAll(text[1..], w);
      assert out == text[..1] + rest;
      OccurrenceComesFromText(text[1..], w, v, i - 1);
      OccursInSuffix(text, 1, v);
    }
  }

  lemma {:induction false} OccursInSuffix(text: string, n: nat, v: string)
    requires n <= |text| && Occurs(text[n..], v)
    ensures Occurs(text, v)
  {
    var i :| 0 <= i <= |text[n..]| && StartsAt(text[n..], i, v);
    assert text[n..][i..i + |v|] == text[n + i..n + i + |v|];
    assert StartsAt(text, n + i, v);
  }

  lemma {:induction false} ReplacedNeverReappears(text: string, order: seq<string>, v: string)
    requires AllNonEmpty(order) && v != "" && !Clashes(v)
    requires !Occurs(text, v) || v in order
    ensures !Occurs(RedactAll(text, order), v)
    decreases |order|
  {
    if order == [] {
    } else {
      var next := ReplaceAll(text, order[0]);
      if Occurs(next, v) {
        var i :| 0 <= i <= |next| && StartsAt(next, i, v);
        OccurrenceComesFromText(text, order[0], v, i);
      }
      ReplacedNeverReappears(next, order[1..], v);
    }
  }

  // ---- Values without brackets.

  predicate BracketFree(v: string) { '[' !in v && ']' !in v }

  /** Without brackets, clashing with the marker means being part of its word. */
  lemma {:induction false} BracketFreeClash(v: string)
    requires v != "" && BracketFree(v) && Clashes(v)
    ensures Occurs(WORD, v)
  {
    var d :| ClashesAt(v, d);
    ClashOutsideWord(v, d);
    forall i | 0 <= i < |v|
      ensures v[i] == WORD[i + d - 1]
    {
      assert v[i] == MARKER[i + d] == WORD[i + d - 1];
    }
    assert WORD[d - 1..d - 1 + |v|] == v;
    assert StartsAt(WORD, d - 1, v);
  }

  /** A value reaching over an end of the marker contains the bracket there. */
  lemma {:induction false} ClashOutsideWord(v: string, d: int)
    requires v != "" && ClashesAt(v, d)
    ensures !BracketFree(v) || 0 < d < d + |v| < |MARKER|
  {
    if d <= 0 {
      assert v[-d] == MARKER[0] == '[';
    } else if d + |v| >= |MARKER| {
      assert v[9 - d] == MARKER[9] == ']';
    }
  }

  /** No redacted value occurs in the output, for every text, as long as the values have
      no brackets and none is part of the word REDACTED. */
  lemma {:induction false} RedactedValuesAreGone(text: string, order: seq<string>, v: string)
    requires AllNonEmpty(order) && v in order
    requires BracketFree(v) && !Occurs(WORD, v)
    ensures !Occurs(RedactAll(text, order), v)
  {
    if Clashes(v) {
      BracketFreeClash(v);
    }
    ReplacedNeverReappears(text, order, v);
  }

  // ---- Exactly when redaction works.

  /** sorted({v for v in values if v}, key=len, reverse=True), for some order of the set. */
  ghost predicate IsRedactionOrder(order: seq<string>, values: seq<string>) {
    && AllNonEmpty(order)
    && (forall v :: v in order <==> v in values && v != "")
    && (forall i, j :: 0 <= i < j < |order| ==> order[i] != order[j])
    && (forall i, j :: 0 <= i < j < |order| ==> |order[i]| >= |order[j]|)
  }

  lemma {:induction false} AbsentMeansUnchanged(text: string, v: string)
    requires v != "" && !Occurs(text, v)
    ensures ReplaceAll(text, v) == text
    decreases |text|
  {
    if |text| >= |v| {
      assert !StartsAt(text, 0, v);
      if Occurs(text[1..], v) {
        OccursInSuffix(text, 1, v);
      }
      AbsentMeansUnchanged(text[1..], v);
    }
  }

  lemma {:induction false} AllAbsentMeansUnchanged(text: string, order: seq<string>)
    requires AllNonEmpty(order)
    requires forall i :: 0 <= i < |order| ==> !Occurs(text, order[i])
    ensures RedactAll(text, order) == text
  {
    if order == [] {
    } else {
      AbsentMeansUnchanged(text, order[0]);
      AllAbsentMeansUnchanged(text, order[1..]);
    }
  }

  lemma {:induction false} RedactAllConcat(text: string, a: seq<string>, b: seq<string>)
    requires AllNonEmpty(a) && AllNonEmpty(b) && AllNonEmpty(a + b)
    ensures RedactAll(text, a + b) == RedactAll(RedactAll(text, a), b)
    decreases |a|
  {
    if a == [] {
      assert a + b == b;
    } else {
      assert (a + b)[1..] == a[1..] + b;
      RedactAllConcat(ReplaceAll(text, a[0]), a[1..], b);
    }
  }

  lemma {:induction false} LongerDoesNotOccur(text: string, v: string)
    requires |v| >= |text| && v != text
    ensures !Occurs(text, v)
  {
  }

  lemma {:induction false} WordInMarker(v: string)
    ensures Occurs(WORD, v) ==> Occurs(MARKER, v)
    ensures v != "" && BracketFree(v) && Occurs(MARKER, v) ==> Occurs(WORD, v)
  {
    if Occurs(WORD, v) {
      var i :| 0 <= i <= |WORD| && StartsAt(WORD, i, v);
      assert MARKER[1..9] == WORD;
      assert MARKER[i + 1..i + 1 + |v|] == WORD[i..i + |v|];
      assert StartsAt(MARKER, i + 1, v);
    }
    if v != "" && BracketFree(v) && Occurs(MARKER, v) {
      var i :| 0 <= i <= |MARKER| && StartsAt(MARKER, i, v);
      assert forall j :: 0 <= j < |v| ==> v[j] == MARKER[i..i + |v|][j] == MARKER[j + i];
      assert ClashesAt(v, i);
      BracketFreeClash(v);
    }
  }

  /** The last value that is part of the word survives its own redaction. */
  lemma {:induction false} WordPartSurvives(order: seq<string>, values: seq<string>, k: nat)
    requires IsRedactionOrder(order, values) && k < |order|
    requires forall i :: 0 <= i < |order| ==> BracketFree(order[i])
    requires Occurs(WORD, order[k])
    requires forall i :: k < i < |order| ==> !Occurs(WORD, order[i])
    ensures RedactAll(order[k], order) == MARKER && Occurs(MARKER, order[k])
  {
    var u := order[k];
    var before, after := order[..k], order[k + 1..];
    assert order == before + ([u] + after);
    forall i | 0 <= i < |before|
      ensures !Occurs(u, before[i])
    {
      LongerDoesNotOccur(u, before[i]);
    }
    AllAbsentMeansUnchanged(u, before);
    RedactAllConcat(u, before, [u] + after);
    assert ReplaceAll(u, u) == MARKER by {
      assert u[..|u|] == u && u[|u|..] == "";
    }
    assert ([u] + after)[1..] == after;
    forall i | 0 <= i < |after|
      ensures !Occurs(MARKER, after[i])
    {
      assert after[i] == order[k + 1 + i];
      WordInMarker(after[i]);
    }
    AllAbsentMeansUnchanged(MARKER, after);
    WordInMarker(u);
  }

  ghost predicate Clean(text: string, order: seq<string>)
    requires AllNonEmpty(order)
  {
    forall v :: v in order ==> !Occurs(RedactAll(text, order), v)
  }

  /** For values without brackets, redaction cleans every text if and only if no value is
      part of the word REDACTED. */
  lemma {:induction false} RedactionCleansIff(order: seq<string>, values: seq<string>)
    requires IsRedactionOrder(order, values)
    requires forall i :: 0 <= i < |order| ==> BracketFree(order[i])
    ensures (forall text :: Clean(text, order)) <==> forall i :: 0 <= i < |order| ==> !Occurs(WORD, order[i])
  {
    if forall i :: 0 <= i < |order| ==> !Occurs(WORD, order[i]) {
      forall text
        ensures Clean(text, order)
      {
        forall v | v in order
          ensures !Occurs(RedactAll(text, order), v)
        {
          RedactedValuesAreGone(text, order, v);
        }
      }
    } else {
      var k := LastWordPart(order, |order|);
      WordPartSurvives(order, values, k);
      assert !Clean(order[k], order);
    }
  }

  lemma {:induction false} LastWordPart(order: seq<string>, n: nat) returns (k: nat)
    requires n <= |order| && exists i :: 0 <= i < n && Occurs(WORD, order[i])
    ensures k < n && Occurs(WORD, order[k])
    ensures forall i :: k < i < n ==> !Occurs(WORD, order[i])
  {
    k := n - 1;
    if !Occurs(WORD, order[k]) {
      k := LastWordPart(order, n - 1);
    }
  }

  // ---- Exactly when a single value, brackets or not, is cleaned.

  /** v starts at none of the first n places of the text. */
  predicate StartsNowhere(text: string, n: nat, v: string) {
    forall j :: 0 <= j < n ==> !StartsAt(text, j, v)
  }

  /** In its first k characters followed by itself, v does not start before the k-th. */
  predicate Unpreceded(v: string, k: nat) {
    k <= |v| && StartsNowhere(v[..k] + v, k, v)
  }

  /** v can be laid over the marker; where it begins before the marker, the characters in
      front of a replaced v can be those, without being replaced themselves. */
  ghost predicate Survives(v: string) {
    exists d :: ClashesAt(v, d) && (d < 0 ==> Unpreceded(v, -d))
  }

  /** A stretch in which v starts nowhere is copied. */
  lemma {:induction false} StretchIsCopied(a: string, b: string, v: string)
    requires v != "" && StartsNowhere(a + b, |a|, v)
    ensures ReplaceAll(a + b, v) == a + ReplaceAll(b, v)
  {
    if a == "" {
      assert a + b == b;
    } else {
      var text, rest := a + b, a[1..] + b;
      assert text[1..] == rest && text[0] == a[0];
      forall j | 0 <= j < |a[1..]|
        ensures !StartsAt(rest, j, v)
      {
        StartsInTail(text, j, v);
        assert !StartsAt(text, j + 1, v);
      }
      StretchIsCopied(a[1..], b, v);
      CopiesFirst(text, v);
      assert [a[0]] + (a[1..] + ReplaceAll(b, v)) == a + ReplaceAll(b, v);
    }
  }

  lemma {:induction false} CopiesFirst(text: string, v: string)
    requires v != "" && text != "" && !StartsAt(text, 0, v)
    ensures ReplaceAll(text, v) == [text[0]] + ReplaceAll(text[1..], v)
  {
    if |text| < |v| {
      assert text == [text[0]] + text[1..];
    }
  }

  lemma {:induction false} StartsInTail(text: string, j: nat, v: string)
    requires text != ""
    ensures StartsAt(text[1..], j, v) <==> StartsAt(text, j + 1, v)
  {
    if j + 1 + |v| <= |text| {
      assert text[1..][j..j + |v|] == text[j + 1..j + 1 + |v|];
    }
  }

  lemma {:induction false} ShortIsCopied(w: string, v: string)
    requires |w| < |v|
    ensures ReplaceAll(w, v) == w && ReplaceAll(v + w, v) == MARKER + w
  {
    assert (v + w)[..|v|] == v && (v + w)[|v|..] == w;
  }

  /** What follows does not matter for places where v ends before it. */
  lemma {:induction false} ExtendedStartsNowhere(text: string, more: string, n: nat, v: string)
    requires n + |v| <= |text|
    ensures StartsNowhere(text + more, n, v) <==> StartsNowhere(text, n, v)
  {
    forall j | 0 <= j < n
      ensures StartsAt(text + more, j, v) <==> StartsAt(text, j, v)
    {
      assert (text + more)[j..j + |v|] == text[j..j + |v|];
    }
  }

  /** The text that shows it, for a value starting inside the marker. */
  lemma {:induction false} SurvivesInMarker(v: string, d: nat)
    requires v != "" && ClashesAt(v, d)
    ensures exists text :: Occurs(ReplaceAll(text, v), v)
  {
    var n := |MARKER| - d;
    var w := if |v| > n then v[n..] else "";
    var out := MARKER + w;
    ShortIsCopied(w, v);
    forall i | 0 <= i < |v|
      ensures out[d + i] == v[i]
    {
      if i < n {
        assert v[i] == MARKER[i + d];
      }
    }
    assert out[d..d + |v|] == v;
    assert StartsAt(out, d, v);
    assert Occurs(ReplaceAll(v + w, v), v);
  }

  /** The text that shows it, for a value starting before the marker. */
  lemma {:induction false} SurvivesBeforeMarker(v: string, k: nat)
    requires v != "" && 0 < k < |v| && ClashesAt(v, 0 - k) && Unpreceded(v, k)
    ensures exists text :: Occurs(ReplaceAll(text, v), v)
  {
    var u := v[..k];
    var w := if |v| > k + |MARKER| then v[k + |MARKER|..] else "";
    ShortIsCopied(w, v);
    assert u + (v + w) == (u + v) + w;
    ExtendedStartsNowhere(u + v, w, k, v);
    StretchIsCopied(u, v + w, v);
    var out := u + (MARKER + w);
    forall i | 0 <= i < |v|
      ensures out[i] == v[i]
    {
      if k <= i < k + |MARKER| {
        assert v[i] == MARKER[i - k];
      }
    }
    assert out[..|v|] == v;
    assert StartsAt(out, 0, v);
    assert Occurs(ReplaceAll(u + (v + w), v), v);
  }

  /** After k copied characters that begin v, the rest of v has to come from a marker. */
  lemma {:induction false} RestComesFromMarker(text: string, v: string, k: nat)
    requires 0 < k < |v| && StartsAt(ReplaceAll(text, v), 0, v[k..])
    requires StartsNowhere(v[..k] + text, k, v)
    ensures Survives(v)
    decreases |text|
  {
    var whole, out := v[..k] + text, ReplaceAll(text, v);
    WholeStarts(v, k, text);
    if |text| >= |v| && text[..|v|] == v {
      PlacedBeforeMarker(v, k, ReplaceAll(text[|v|..], v));
      assert whole == (v[..k] + v) + text[|v|..];
      ExtendedStartsNowhere(v[..k] + v, text[|v|..], k, v);
      assert ClashesAt(v, 0 - k) && Unpreceded(v, k);
    } else if |text| >= |v| {
      CopiedOneMore(text, v, k);
      RestComesFromMarker(text[1..], v, k + 1);
    }
  }

  lemma {:induction false} WholeStarts(v: string, k: nat, text: string)
    requires k <= |v|
    ensures StartsAt(text, 0, v[k..]) <==> StartsAt(v[..k] + text, 0, v)
  {
    var whole := v[..k] + text;
    if |whole| >= |v| {
      assert whole[..|v|] == v[..k] + text[..|v| - k];
      assert whole[..|v|][k..] == text[..|v| - k];
      assert v == v[..k] + v[k..];
    }
  }

  /** One more copied character leaves the same whole text, and v shorter by it. */
  lemma {:induction false} CopiedOneMore(text: string, v: string, k: nat)
    requires 0 < k < |v| <= |text| && text[..|v|] != v && StartsAt(ReplaceAll(text, v), 0, v[k..])
    requires StartsNowhere(v[..k] + text, k, v)
    ensures k + 1 < |v| && StartsAt(ReplaceAll(text[1..], v), 0, v[k + 1..])
    ensures StartsNowhere(v[..k + 1] + text[1..], k + 1, v)
  {
    var whole, rest := v[..k] + text, ReplaceAll(text[1..], v);
    HeadAndRest(text[0], rest, v[k..]);
    assert v[k..][1..] == v[k + 1..] && v[k..][0] == v[k];
    MovedOver(v[..k], text, v);
    assert v[..k] + [text[0]] == v[..k + 1];
    assert v[..k + 1] + text[1..] == whole;
    assert whole[..k + 1] == v[..k + 1] && !StartsAt(whole, 0, v);
    assert v[..|v|] == v;
  }

  lemma {:induction false} HeadAndRest(head: char, rest: string, v: string)
    requires v != "" && StartsAt([head] + rest, 0, v)
    ensures v[0] == head && StartsAt(rest, 0, v[1..])
  {
    var out := [head] + rest;
    assert out[..|v|] == v;
    assert v[0] == out[0];
    assert rest[..|v| - 1] == out[1..|v|] == v[1..];
  }

  /** Moving one character to the front part keeps the places where v does not start. */
  lemma {:induction false} MovedOver(a: string, text: string, v: string)
    requires |v| <= |text| && text != "" && text[..|v|] != v && StartsNowhere(a + text, |a|, v)
    ensures StartsNowhere(a + text, |a| + 1, v)
  {
    assert (a + text)[|a|..|a| + |v|] == text[..|v|];
  }

  lemma {:induction false} OccurrenceSurvives(text: string, v: string, i: nat)
    requires v != "" && StartsAt(ReplaceAll(text, v), i, v)
    ensures Survives(v)
    decreases |text|
  {
    if |text| >= |v| && text[..|v|] == v {
      var rest := ReplaceAll(text[|v|..], v);
      if i < |MARKER| {
        PlacedInMarker(v, i, rest);
      } else {
        OccurrenceSurvives(text[|v|..], v, i - |MARKER|);
      }
    } else if |text| >= |v| && i > 0 {
      var rest := ReplaceAll(text[1..], v);
      assert ReplaceAll(text, v) == text[..1] + rest;
      OccurrenceSurvives(text[1..], v, i - 1);
    } else if |text| >= |v| {
      FirstIsCopied(text, v);
      RestComesFromMarker(text[1..], v, 1);
    }
  }

  lemma {:induction false} FirstIsCopied(text: string, v: string)
    requires v != "" && |text| >= |v| && text[..|v|] != v && StartsAt(ReplaceAll(text, v), 0, v)
    ensures 1 < |v| && StartsAt(ReplaceAll(text[1..], v), 0, v[1..])
    ensures StartsNowhere(v[..1] + text[1..], 1, v)
  {
    HeadAndRest(text[0], ReplaceAll(text[1..], v), v);
    assert v[..1] + text[1..] == text;
    assert !StartsAt(text, 0, v);
    assert text[..1] == [text[0]] == v[..1];
    assert v[..|v|] == v;
  }

  /** Redacting one value, of whatever characters, cleans every text of it, if and only if
      it cannot survive. */
  lemma {:induction false} SingleValueCleansIff(v: string)
    requires v != ""
    ensures (forall text :: !Occurs(ReplaceAll(text, v), v)) <==> !Survives(v)
  {
    if Survives(v) {
      var d :| ClashesAt(v, d) && (d < 0 ==> Unpreceded(v, -d));
      if d >= 0 {
        SurvivesInMarker(v, d);
      } else {
        SurvivesBeforeMarker(v, -d);
      }
    } else if text :| Occurs(ReplaceAll(text, v), v) {
      var out := ReplaceAll(text, v);
      var i :| 0 <= i <= |out| && StartsAt(out, i, v);
      OccurrenceSurvives(text, v, i);
    }
  }

  /** Two opening brackets clash with the marker but do not survive; one does. */
  lemma {:induction false} BracketsExample()
    ensures Clashes("[[") && !Survives("[[") && Survives("[")
  {
    assert ClashesAt("[[", -1);
    assert ClashesAt("[", 0);
    forall d | 0 <= d < |MARKER|
      ensures !ClashesAt("[[", d)
    {
      var i := if d < 9 then 1 else 0;
      assert "[["[i] == '[' && MARKER[i + d] != '[';
    }
    assert "[["[..1] + "[[" == "[[[";
    assert "[[["[0..2] == "[[";
    assert StartsAt("[["[..1] + "[[", 0, "[[");
  }

  // ---- The implementation.

  lemma {:induction false} LongestExists(rest: set<string>)
    requires rest != {}
    ensures exists v :: v in rest && forall w :: w in rest ==> |w| <= |v|
  {
    var v :| v in rest;
    if rest == {v} {
      assert forall w :: w in rest ==> |w| <= |v|;
    } else {
      var less := rest - {v};
      LongestExists(less);
      var u :| u in less && forall w :: w in less ==> |w| <= |u|;
      var best := if |v| <= |u| then u else v;
      assert best in rest && forall w :: w in rest ==> |w| <= |best|;
    }
  }

  /** The values taken so far, longest first, and those still to come. */
  ghost predicate Splits(order: seq<string>, rest: set<string>, values: seq<string>) {
    && AllNonEmpty(order)
    && (forall v :: v in values && v != "" <==> v in rest || v in order)
    && (forall v :: v in order ==> v !in rest)
    && (forall i, w :: 0 <= i < |order| && w in rest ==> |order[i]| >= |w|)
    && (forall i, j :: 0 <= i < j < |order| ==> order[i] != order[j] && |order[i]| >= |order[j]|)
  }

  lemma {:induction false} SplitsSnoc(order: seq<string>, rest: set<string>, values: seq<string>, v: string)
    requires Splits(order, rest, values) && v in rest && forall w :: w in rest ==> |w| <= |v|
    ensures Splits(order + [v], rest - {v}, values)
  {
    assert forall i :: 0 <= i < |order| ==> order[i] in order && order[i] != v;
    assert forall w :: w in order + [v] <==> w in order || w == v;
  }

  /** Any longest remaining value is taken next, as an arbitrary set order under a stable
      sort allows. */
  method RedactText(text: string, values: seq<string>) returns (out: string, order: seq<string>)
    ensures IsRedactionOrder(order, values)
    ensures out == RedactAll(text, order)
    ensures forall v :: v in values && v != "" && !Clashes(v) ==> !Occurs(out, v)
  {
    out, order := text, [];
    var rest := set v | v in values && v != "";
    while rest != {}
      invariant Splits(order, rest, values) && out == RedactAll(text, order)
      decreases rest
    {
      LongestExists(rest);
      var v :| v in rest && forall w :: w in rest ==> |w| <= |v|;
      SplitsSnoc(order, rest, values, v);
      RedactAllConcat(text, order, [v]);
      out := ReplaceAll(out, v);
      order := order + [v];
      rest := rest - {v};
    }
    forall v | v in values && v != "" && !Clashes(v)
      ensures !Occurs(out, v)
    {
      ReplacedNeverReappears(text, order, v);
    }
  }
}
