/** Texts as sequences of UTF-16 code units: digits, whitespace, and what stands where. */
module Texts {
  type Text = seq<int>

  /** What reading part of a text gives, and where it stopped. */
  datatype Parsed<T> = Bad | Good(value: T, next: nat)

  const COMMA := 0x2C
  const ZERO := 0x30

  /** A text written out. */
  function Units(s: string): Text {
    seq(|s|, i requires 0 <= i < |s| => s[i] as int)
  }

  predicate IsDigit(c: int) {
    ZERO <= c <= ZERO + 9
  }

  function Digits(t: Text, i: nat, n: nat): (j: nat)
    requires i <= n <= |t|
    ensures i <= j <= n
    decreases n - i
  {
    if i < n && IsDigit(t[i]) then Digits(t, i + 1, n) else i
  }

  lemma {:induction false} DigitsAreDigits(t: Text, i: nat, n: nat)
    requires i <= n <= |t|
    ensures forall k :: i <= k < Digits(t, i, n) ==> IsDigit(t[k])
    decreases n - i
  {
    if i < n && IsDigit(t[i]) {
      DigitsAreDigits(t, i + 1, n);
    }
  }

  /** What String.prototype.trim removes. */
  predicate IsTrimmed(c: int) {
    || 0x09 <= c <= 0x0D || c == 0x20 || c == 0xA0 || c == 0x1680 || 0x2000 <= c <= 0x200A
    || c == 0x2028 || c == 0x2029 || c == 0x202F || c == 0x205F || c == 0x3000 || c == 0xFEFF
  }

  /** WhiteSpace of ECMA-262, section 12.2: the controls, the byte order mark and the space separators. */
  const WHITE_SPACE := {
    0x09, 0x0B, 0x0C, 0x20, 0xA0, 0x1680, 0x2000, 0x2001, 0x2002, 0x2003, 0x2004,
    0x2005, 0x2006, 0x2007, 0x2008, 0x2009, 0x200A, 0x202F, 0x205F, 0x3000, 0xFEFF
  }

  /** LineTerminator of ECMA-262, section 12.3. */
  const LINE_TERMINATORS := {0x0A, 0x0D, 0x2028, 0x2029}

  lemma TrimmedIff(c: int)
    ensures IsTrimmed(c) <==> c in WHITE_SPACE || c in LINE_TERMINATORS
  {
  }

  function Trim(s: Text): Text
    decreases |s|
  {
    if s == [] then []
    else if IsTrimmed(s[0]) then Trim(s[1..])
    else if IsTrimmed(s[|s| - 1]) then Trim(s[..|s| - 1])
    else s
  }

  /** s[a..b] is `s` less the blanks at its two ends, of which it has none itself. */
  ghost predicate TrimmedTo(s: Text, a: int, b: int) {
    && 0 <= a <= b <= |s|
    && (forall k :: 0 <= k < a || b <= k < |s| ==> IsTrimmed(s[k]))
    && (a < b ==> !IsTrimmed(s[a]) && !IsTrimmed(s[b - 1]))
  }

  ghost predicate IsTrimOf(inner: Text, s: Text) {
    exists a, b :: TrimmedTo(s, a, b) && inner == s[a..b]
  }

  lemma {:induction false} TrimIsTrim(s: Text) returns (a: int, b: int)
    ensures TrimmedTo(s, a, b) && Trim(s) == s[a..b]
    decreases |s|
  {
    if s == [] {
      a, b := 0, 0;
    } else if IsTrimmed(s[0]) {
      a, b := TrimIsTrim(s[1..]);
      TrimFirst(s, a, b);
      a, b := a + 1, b + 1;
    } else if IsTrimmed(s[|s| - 1]) {
      a, b := TrimIsTrim(s[..|s| - 1]);
      TrimLast(s, a, b);
    } else {
      a, b := 0, |s|;
    }
  }

  lemma TrimFirst(s: Text, a: int, b: int)
    requires s != [] && IsTrimmed(s[0]) && TrimmedTo(s[1..], a, b)
    ensures TrimmedTo(s, a + 1, b + 1) && s[a + 1..b + 1] == s[1..][a..b]
  {
    hide IsTrimmed;
    var r := s[1..];
    assert forall k :: 0 < k < |s| ==> s[k] == r[k - 1];
    forall k | 0 < k < a + 1 || b + 1 <= k < |s| ensures IsTrimmed(s[k]) {
      assert IsTrimmed(r[k - 1]);
    }
    assert s[a + 1..b + 1] == r[a..b];
  }

  lemma TrimLast(s: Text, a: int, b: int)
    requires s != [] && IsTrimmed(s[|s| - 1]) && TrimmedTo(s[..|s| - 1], a, b)
    ensures TrimmedTo(s, a, b) && s[a..b] == s[..|s| - 1][a..b]
  {
    hide IsTrimmed;
    var r := s[..|s| - 1];
    forall k | 0 <= k < a || b <= k < |r| ensures IsTrimmed(s[k]) {
      assert IsTrimmed(r[k]);
    }
    assert s[a..b] == r[a..b];
  }

  /** Past a run of `\s`: the class holds exactly what trim removes. */
  function SkipSpace(t: Text, i: nat): (j: nat)
    requires i <= |t|
    ensures i <= j <= |t|
    ensures forall k :: i <= k < j ==> IsTrimmed(t[k])
    decreases |t| - i
  {
    if i < |t| && IsTrimmed(t[i]) then SkipSpace(t, i + 1) else i
  }

  /** `word` stands in `t` at i and ends by n. */
  ghost predicate Stands(t: Text, i: nat, n: nat, word: Text) {
    i + |word| <= n <= |t| && t[i..i + |word|] == word
  }

  lemma StandsSplit(t: Text, i: nat, n: nat, a: Text, b: Text)
    requires Stands(t, i, n, a + b)
    ensures Stands(t, i, n, a) && Stands(t, i + |a|, n, b)
  {
    assert t[i..i + |a|] == (a + b)[..|a|];
    assert t[i + |a|..i + |a| + |b|] == (a + b)[|a|..];
  }

  lemma StandsFirst(t: Text, i: nat, n: nat, a: int, b: Text)
    requires Stands(t, i, n, [a] + b)
    ensures i < n && t[i] == a && Stands(t, i + 1, n, b)
  {
    StandsSplit(t, i, n, [a], b);
    assert t[i] == t[i..i + 1][0];
  }

  lemma SplitAround(t: Text, i: nat, n: nat, a: Text, mark: int, b: Text)
    requires Stands(t, i, n, a + ([mark] + b))
    ensures var j := i + |a|; Stands(t, i, n, a) && j < n <= |t| && t[j] == mark && Stands(t, j + 1, n, b)
  {
    StandsSplit(t, i, n, a, [mark] + b);
    StandsFirst(t, i + |a|, n, mark, b);
  }

  lemma Regroup(a: Text, mark: int, b: Text, closer: int)
    ensures a + [mark] + b + [closer] == a + ([mark] + (b + [closer]))
  {
  }

  lemma StandsAt(t: Text, i: nat, n: nat, word: Text, k: nat)
    requires Stands(t, i, n, word) && k < |word|
    ensures t[i + k] == word[k]
  {
    assert t[i + k] == t[i..i + |word|][k];
  }

  lemma HeadTail<T>(s: seq<T>)
    requires s != []
    ensures s == [s[0]] + s[1..]
  {
  }
}
