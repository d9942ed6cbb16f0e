/** What the salvage's regular expressions match, said without the functions that search for them. */
module SalvagePatterns {
  import opened Json
  import opened EnvelopeScanner
  import opened Salvage
  import opened Texts
  import opened Wrappers

  predicate Blanks(t: Text, i: nat, j: nat) {
    i <= j <= |t| && forall k :: i <= k < j ==> IsTrimmed(t[k])
  }

  /** From i to j: the quoted key, its colon, and all the blanks on either side of it. */
  ghost predicate IsKey(t: Text, i: nat, j: nat, key: Text, colon: nat) {
    && Stands(t, i, |t|, [0x22] + key + [0x22])
    && Blanks(t, i + |key| + 2, colon) && colon < |t| && t[colon] == 0x3A
    && Blanks(t, colon + 1, j) && (j < |t| ==> !IsTrimmed(t[j]))
  }

  lemma {:induction false} SpaceTaken(t: Text, i: nat, j: nat)
    requires Blanks(t, i, j) && (j < |t| ==> !IsTrimmed(t[j]))
    ensures SkipSpace(t, i) == j
    decreases j - i
  {
    if i < j { SpaceTaken(t, i + 1, j); }
  }

  lemma {:induction false} SpaceFound(t: Text, i: nat)
    requires i <= |t|
    ensures Blanks(t, i, SkipSpace(t, i)) && (SkipSpace(t, i) < |t| ==> !IsTrimmed(t[SkipSpace(t, i)]))
    decreases |t| - i
  {
    if i < |t| && IsTrimmed(t[i]) { SpaceFound(t, i + 1); }
  }

  lemma SpaceWithin(t: Text, i: nat)
    requires i <= |t|
    ensures i <= SkipSpace(t, i) <= |t|
  {
  }

  lemma StartsIff(t: Text, i: nat, word: Text)
    ensures Starts(t, i, word) <==> Stands(t, i, |t|, word)
  {
  }

  ghost predicate KeyTo(t: Text, i: nat, j: nat, key: Text) {
    exists colon: nat :: IsKey(t, i, j, key, colon)
  }

  lemma KeyIff(t: Text, i: nat, j: nat, key: Text)
    ensures KeyAt(t, i, key) == Some(j) <==> KeyTo(t, i, j, key)
  {
    hide IsTrimmed, SkipSpace, Starts, Stands;
    StartsIff(t, i, [QUOTE] + key + [QUOTE]);
    if KeyAt(t, i, key) == Some(j) {
      StandsFits(t, i, [QUOTE] + key + [QUOTE]);
      var colon := SkipSpace(t, i + |key| + 2);
      SpaceFound(t, i + |key| + 2);
      SpaceFound(t, colon + 1);
      assert IsKey(t, i, j, key, colon);
    }
    if colon: nat :| IsKey(t, i, j, key, colon) {
      ColonIsNoBlank();
      SpaceTaken(t, i + |key| + 2, colon);
      SpaceTaken(t, colon + 1, j);
    }
  }

  lemma ColonIsNoBlank()
    ensures !IsTrimmed(0x3A) && !IsTrimmed(0x22) && !IsTrimmed(0x60)
  {
  }

  lemma StandsFits(t: Text, i: nat, word: Text)
    requires Stands(t, i, |t|, word)
    ensures i + |word| <= |t|
  {
  }

  // ----- Where the envelope starts -----

  /** An opening brace, blanks, and the key `text`. */
  ghost predicate OpensEnvelope(t: Text, i: nat) {
    && i < |t| && t[i] == 0x7B
    && exists k: nat, j: nat :: Blanks(t, i + 1, k) && KeyTo(t, k, j, K_TEXT)
  }

  lemma OpensIff(t: Text, i: nat)
    requires i < |t|
    ensures t[i] == LBRACE && KeyAt(t, SkipSpace(t, i + 1), K_TEXT).Some? <==> OpensEnvelope(t, i)
  {
    hide IsTrimmed, SkipSpace, KeyAt, KeyTo;
    var k := SkipSpace(t, i + 1);
    SpaceFound(t, i + 1);
    if KeyAt(t, k, K_TEXT).Some? {
      KeyIff(t, k, KeyAt(t, k, K_TEXT).value, K_TEXT);
    }
    forall k': nat, j: nat | Blanks(t, i + 1, k') && KeyTo(t, k', j, K_TEXT)
      ensures k' == k && KeyAt(t, k, K_TEXT).Some?
    {
      KeyBegins(t, k', j, K_TEXT);
      ColonIsNoBlank();
      SpaceTaken(t, i + 1, k');
      KeyIff(t, k', j, K_TEXT);
    }
  }

  lemma KeyBegins(t: Text, i: nat, j: nat, key: Text)
    requires KeyTo(t, i, j, key)
    ensures i < |t| && t[i] == 0x22
  {
    StandsAt(t, i, |t|, [0x22] + key + [0x22], 0);
  }

  /** The first such place from i on, or none. */
  lemma {:induction false} EnvelopeStartIff(t: Text, i: nat)
    requires i <= |t|
    ensures var r := EnvelopeStart(t, i);
            && (r.None? ==> forall k: nat :: i <= k < |t| ==> !OpensEnvelope(t, k))
            && (r.Some? ==> i <= r.value && OpensEnvelope(t, r.value)
                            && forall k: nat :: i <= k < r.value ==> !OpensEnvelope(t, k))
    decreases |t| - i
  {
    if i < |t| {
      hide OpensEnvelope, KeyAt, SkipSpace;
      OpensIff(t, i);
      EnvelopeStartIff(t, i + 1);
    }
  }

  // ----- Where the blocks and the text are -----

  ghost predicate OpensBlocks(t: Text, i: nat, j: nat) {
    0 < j <= |t| && t[j - 1] == 0x5B && KeyTo(t, i, j - 1, K_BLOCKS)
  }

  lemma BlocksAtIff(t: Text, i: nat, j: nat)
    requires i <= |t|
    ensures BlocksAt(t, i) == Some(j) <==> OpensBlocks(t, i, j)
  {
    hide KeyAt, KeyTo;
    if j > 0 { KeyIff(t, i, j - 1, K_BLOCKS); }
  }

  ghost predicate BlocksOpenAt(t: Text, i: nat) {
    exists j: nat :: OpensBlocks(t, i, j)
  }

  lemma {:induction false} BlocksStartIff(t: Text, i: nat) returns (k: nat)
    requires i <= |t|
    ensures i <= k <= |t| && (forall m: nat :: i <= m < k ==> !BlocksOpenAt(t, m))
    ensures if BlocksStart(t, i).None? then k == |t| else k < |t| && OpensBlocks(t, k, BlocksStart(t, i).value)
    decreases |t| - i
  {
    k := i;
    if i < |t| {
      hide OpensBlocks, BlocksAt;
      forall j: nat ensures BlocksAt(t, i) == Some(j) <==> OpensBlocks(t, i, j) { BlocksAtIff(t, i, j); }
      if BlocksAt(t, i).None? { k := BlocksStartIff(t, i + 1); }
    }
  }

  predicate EndsLine(c: int) {
    c == 0x0A || c == 0x0D || c == 0x2028 || c == 0x2029
  }

  /** Units that are no quote and no backslash, and backslashes each with a unit that ends no line. */
  ghost predicate IsBody(t: Text, i: nat, j: nat)
    decreases j - i
  {
    && i <= j <= |t|
    && (i < j ==>
          || (t[i] != 0x22 && t[i] != 0x5C && IsBody(t, i + 1, j))
          || (t[i] == 0x5C && i + 1 < j && !EndsLine(t[i + 1]) && IsBody(t, i + 2, j)))
  }

  lemma {:induction false} BodyTaken(t: Text, i: nat, j: nat)
    requires IsBody(t, i, j) && j < |t| && t[j] == 0x22
    ensures StringBody(t, i) == j
    decreases j - i
  {
    if i < j {
      if t[i] == 0x5C { BodyTaken(t, i + 2, j); } else { BodyTaken(t, i + 1, j); }
    }
  }

  lemma {:induction false} BodyFound(t: Text, i: nat)
    requires i <= |t|
    ensures IsBody(t, i, StringBody(t, i))
    decreases |t| - i
  {
    if i < |t| && t[i] != QUOTE {
      if t[i] != BACKSLASH { BodyFound(t, i + 1); }
      else if i + 1 < |t| && !IsLineEnd(t[i + 1]) { BodyFound(t, i + 2); }
    }
  }

  /** The key `text` stands at i, and a string between quotes as its value. */
  ghost predicate HoldsText(t: Text, i: nat, span: Span) {
    && 0 < span.start <= span.end < |t| && t[span.start - 1] == 0x22 && t[span.end] == 0x22
    && IsBody(t, span.start, span.end) && KeyTo(t, i, span.start - 1, K_TEXT)
  }

  lemma HoldsIff(t: Text, i: nat, span: Span)
    requires i <= |t|
    ensures var v := KeyAt(t, i, K_TEXT);
            HoldsText(t, i, span) <==>
              && v.Some? && v.value < |t| && t[v.value] == QUOTE && StringBody(t, v.value + 1) < |t|
              && t[StringBody(t, v.value + 1)] == QUOTE && span == Span(v.value + 1, StringBody(t, v.value + 1))
  {
    hide KeyAt, KeyTo, StringBody, IsBody;
    if span.start > 0 { KeyIff(t, i, span.start - 1, K_TEXT); }
    if HoldsText(t, i, span) { BodyTaken(t, span.start, span.end); }
    if KeyAt(t, i, K_TEXT).Some? && KeyAt(t, i, K_TEXT).value < |t| { BodyFound(t, KeyAt(t, i, K_TEXT).value + 1); }
  }

  ghost predicate TextAt(t: Text, i: nat) {
    exists span :: HoldsText(t, i, span)
  }

  /** The text field is looked for here, or further on. */
  lemma FieldStep(t: Text, i: nat)
    requires i < |t|
    ensures if TextAt(t, i) then TextField(t, i).Some? && HoldsText(t, i, TextField(t, i).value)
            else TextField(t, i) == TextField(t, i + 1)
  {
    hide HoldsText, KeyAt, StringBody;
    if span :| HoldsText(t, i, span) { HoldsIff(t, i, span); }
    var v := KeyAt(t, i, K_TEXT);
    if v.Some? && v.value < |t| { HoldsIff(t, i, Span(v.value + 1, StringBody(t, v.value + 1))); }
  }

  lemma {:induction false} TextFieldIff(t: Text, i: nat) returns (k: nat)
    requires i <= |t|
    ensures i <= k <= |t| && (forall m: nat :: i <= m < k ==> !TextAt(t, m))
    ensures if TextField(t, i).None? then k == |t| else k < |t| && HoldsText(t, k, TextField(t, i).value)
    decreases |t| - i
  {
    hide *;
    k := i;
    if i == |t| {
      NoFieldAtEnd(t);
    } else {
      FieldStep(t, i);
      if !TextAt(t, i) { k := TextFieldIff(t, i + 1); }
    }
  }

  lemma NoFieldAtEnd(t: Text)
    ensures TextField(t, |t|) == None
  {
  }

  // ----- The fences -----

  ghost predicate IsFence(t: Text, i: nat) {
    Stands(t, i, |t|, [0x60, 0x60, 0x60])
  }

  /** A line break and blanks before a fence. */
  ghost predicate LeadsToFence(t: Text, i: nat) {
    i < |t| && t[i] == 0x0A && exists k: nat :: Blanks(t, i + 1, k) && IsFence(t, k)
  }

  lemma LeadsIff(t: Text, i: nat)
    requires i < |t|
    ensures t[i] == NEWLINE && Starts(t, SkipSpace(t, i + 1), FENCE) <==> LeadsToFence(t, i)
  {
    hide IsTrimmed, SkipSpace, Starts, Stands;
    var k := SkipSpace(t, i + 1);
    SpaceFound(t, i + 1);
    StartsIff(t, k, FENCE);
    SpaceWithin(t, i + 1);
    assert FENCE == [0x60, 0x60, 0x60];
    if Starts(t, k, FENCE) { assert Blanks(t, i + 1, k) && IsFence(t, k); }
    forall k': nat | Blanks(t, i + 1, k') && IsFence(t, k') ensures k' == k {
      StandsAt(t, k', |t|, [0x60, 0x60, 0x60], 0);
      StandsFits(t, k', [0x60, 0x60, 0x60]);
      ColonIsNoBlank();
      SpaceTaken(t, i + 1, k');
    }
  }

  /** What comes before the first of them, or everything. */
  lemma {:induction false} FencedTailIff(t: Text, i: nat) returns (k: nat)
    requires i <= |t|
    ensures i <= k <= |t| && CutFencedTail(t, i) == t[..k] && (forall m: nat :: i <= m < k ==> !LeadsToFence(t, m))
    ensures k < |t| ==> LeadsToFence(t, k)
    decreases |t| - i
  {
    k := i;
    if i < |t| {
      hide LeadsToFence, Starts, SkipSpace;
      LeadsIff(t, i);
      if !LeadsToFence(t, i) { k := FencedTailIff(t, i + 1); }
    }
  }

  ghost predicate IsLastFence(t: Text, i: nat) {
    IsFence(t, i) && Blanks(t, i + 3, |t|)
  }

  lemma LastFenceIff(t: Text, i: nat)
    requires i < |t|
    ensures Starts(t, i, FENCE) && SkipSpace(t, i + 3) == |t| <==> IsLastFence(t, i)
  {
    hide IsTrimmed, SkipSpace, Starts, Stands;
    StartsIff(t, i, FENCE);
    if IsFence(t, i) {
      StandsFits(t, i, [0x60, 0x60, 0x60]);
      SpaceFound(t, i + 3);
      if Blanks(t, i + 3, |t|) { SpaceTaken(t, i + 3, |t|); }
    }
  }

  lemma {:induction false} ClosingFenceIff(t: Text, i: nat) returns (k: nat)
    requires i <= |t|
    ensures i <= k <= |t| && CutClosingFence(t, i) == t[..k] && (forall m: nat :: i <= m < k ==> !IsLastFence(t, m))
    ensures k < |t| ==> IsLastFence(t, k)
    decreases |t| - i
  {
    k := i;
    if i < |t| {
      hide IsLastFence, Starts, SkipSpace;
      LastFenceIff(t, i);
      if !IsLastFence(t, i) { k := ClosingFenceIff(t, i + 1); }
    }
  }
}
