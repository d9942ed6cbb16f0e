/** The grammar of RFC 8259 as a relation between texts and values, and the proof that the parser reads
    exactly the texts of that grammar, as exactly the values they stand for. */
module JsonGrammar {
  import opened Json
  import opened Texts
  import opened Wrappers

  // ----- Whitespace and strings (sections 2 and 7) -----

  predicate Blank(t: Text, i: nat, j: nat) {
    i <= j <= |t| && forall k :: i <= k < j ==> t[k] == 0x20 || t[k] == 0x09 || t[k] == 0x0A || t[k] == 0x0D
  }

  /** c is a hexadecimal digit worth d. */
  predicate IsHexDigit(c: int, d: int) {
    || (0x30 <= c <= 0x39 && d == c - 0x30)
    || (0x41 <= c <= 0x46 && d == c - 0x41 + 10)
    || (0x61 <= c <= 0x66 && d == c - 0x61 + 10)
  }

  predicate AreHexDigits(t: Text, i: nat, a: int, b: int, c: int, d: int) {
    && i + 4 <= |t|
    && IsHexDigit(t[i], a) && IsHexDigit(t[i + 1], b) && IsHexDigit(t[i + 2], c) && IsHexDigit(t[i + 3], d)
  }

  ghost predicate IsHex4(t: Text, i: nat, u: int) {
    exists a, b, c, d :: AreHexDigits(t, i, a, b, c, d) && u == 4096 * a + 256 * b + 16 * c + d
  }

  /** The two-character escapes. */
  predicate IsEscape(c: int, u: int) {
    || (c == 0x22 && u == 0x22) || (c == 0x5C && u == 0x5C) || (c == 0x2F && u == 0x2F)
    || (c == 0x62 && u == 0x08) || (c == 0x66 && u == 0x0C) || (c == 0x6E && u == 0x0A)
    || (c == 0x72 && u == 0x0D) || (c == 0x74 && u == 0x09)
  }

  /** One unit of a string, written as itself or escaped. */
  ghost predicate IsUnit(t: Text, i: nat, j: nat, u: int) {
    && i < j <= |t|
    && (|| (j == i + 1 && t[i] == u && u >= 0x20 && u != 0x22 && u != 0x5C)
        || (j == i + 2 && t[i] == 0x5C && IsEscape(t[i + 1], u))
        || (j == i + 6 && t[i] == 0x5C && t[i + 1] == 0x75 && IsHex4(t, i + 2, u)))
  }

  ghost predicate AreUnits(t: Text, i: nat, j: nat, s: Text)
    decreases |s|
  {
    if s == [] then i == j <= |t| else exists k: nat :: IsUnit(t, i, k, s[0]) && AreUnits(t, k, j, s[1..])
  }

  ghost predicate IsString(t: Text, i: nat, j: nat, s: Text) {
    i + 1 < j <= |t| && t[i] == 0x22 && t[j - 1] == 0x22 && AreUnits(t, i + 1, j - 1, s)
  }

  lemma Hex4Iff(t: Text, i: nat, u: int)
    requires i + 4 <= |t|
    ensures IsHex4(t, i, u) <==> Hex4(t, i) == u && u >= 0
  {
    if Hex4(t, i) == u && u >= 0 {
      assert AreHexDigits(t, i, Hex(t[i]), Hex(t[i + 1]), Hex(t[i + 2]), Hex(t[i + 3]));
    }
  }

  lemma EscapeIff(c: int, u: int)
    ensures IsEscape(c, u) <==> Unescape(c) == u && u >= 0
  {
  }

  /** The parser takes one unit off a string exactly as the grammar does. */
  lemma UnitTaken(t: Text, i: nat, j: nat, n: nat, u: int)
    requires IsUnit(t, i, j, u) && j <= n <= |t|
    ensures Chars(t, i, n) == After(u, Chars(t, j, n))
  {
    if j == i + 2 {
      EscapeIff(t[i + 1], u);
    } else if j == i + 6 {
      hide Hex4;
      Hex4Iff(t, i + 2, u);
    }
  }

  lemma UnitFound(t: Text, i: nat, n: nat) returns (j: nat)
    requires i < n <= |t| && Chars(t, i, n).Good? && t[i] != QUOTE
    ensures var s := Chars(t, i, n).value;
            s != [] && j <= n && IsUnit(t, i, j, s[0]) && Chars(t, j, n) == Good(s[1..], Chars(t, i, n).next)
  {
    hide Hex4, Unescape, IsEscape, IsHex4;
    if t[i] != BACKSLASH {
      j := i + 1;
    } else if t[i + 1] != LOWER_U {
      j := i + 2;
      EscapeIff(t[i + 1], Unescape(t[i + 1]));
    } else {
      j := i + 6;
      Hex4Iff(t, i + 2, Hex4(t, i + 2));
    }
  }

  lemma {:induction false} UnitsTaken(t: Text, i: nat, j: nat, n: nat, s: Text)
    requires AreUnits(t, i, j, s) && j < n <= |t| && t[j] == QUOTE
    ensures i <= j && Chars(t, i, n) == Good(s, j + 1)
    decreases |s|
  {
    if s != [] {
      var k: nat :| IsUnit(t, i, k, s[0]) && AreUnits(t, k, j, s[1..]);
      hide IsUnit, Chars;
      UnitsTaken(t, k, j, n, s[1..]);
      UnitTaken(t, i, k, n, s[0]);
      HeadTail(s);
    }
  }

  lemma {:induction false} UnitsFound(t: Text, i: nat, n: nat)
    requires i <= n <= |t| && Chars(t, i, n).Good?
    ensures var r := Chars(t, i, n); t[r.next - 1] == QUOTE && AreUnits(t, i, r.next - 1, r.value)
    decreases n - i
  {
    if t[i] != QUOTE {
      var j := UnitFound(t, i, n);
      hide IsUnit, Chars;
      UnitsFound(t, j, n);
    }
  }

  // ----- Numbers (section 6) -----

  predicate AreDigits(t: Text, i: nat, j: nat) {
    i < j <= |t| && forall k :: i <= k < j ==> 0x30 <= t[k] <= 0x39
  }

  /** A zero, or digits that do not begin with one. */
  predicate IsInt(t: Text, i: nat, j: nat) {
    AreDigits(t, i, j) && (t[i] == 0x30 ==> j == i + 1)
  }

  predicate IsFrac(t: Text, i: nat, j: nat) {
    i == j <= |t| || (i < |t| && t[i] == 0x2E && AreDigits(t, i + 1, j))
  }

  predicate IsExp(t: Text, i: nat, j: nat) {
    || i == j <= |t|
    || (&& i + 1 < |t| && (t[i] == 0x65 || t[i] == 0x45)
        && AreDigits(t, if t[i + 1] == 0x2B || t[i + 1] == 0x2D then i + 2 else i + 1, j))
  }

  ghost predicate IsNumberText(t: Text, i: nat, j: nat) {
    && i < j <= |t|
    && exists p: nat, q: nat :: IsInt(t, if t[i] == 0x2D then i + 1 else i, p) && IsFrac(t, p, q) && IsExp(t, q, j)
  }

  /** What may follow a value in a longer text. */
  predicate Ends(t: Text, j: nat, n: nat) {
    j <= n <= |t| && (j < n ==> Blank(t, j, j + 1) || t[j] == COMMA || t[j] == RBRACE || t[j] == RBRACKET)
  }

  lemma {:induction false} DigitsTaken(t: Text, i: nat, j: nat, n: nat)
    requires i <= j <= n <= |t| && (forall k :: i <= k < j ==> IsDigit(t[k])) && (j < n ==> !IsDigit(t[j]))
    ensures Digits(t, i, n) == j
    decreases j - i
  {
    if i < j { DigitsTaken(t, i + 1, j, n); }
  }

  lemma IntTaken(t: Text, i: nat, j: nat, n: nat)
    requires IsInt(t, i, j) && j <= n <= |t| && (j < n ==> !IsDigit(t[j]))
    ensures Integer(t, i, n) == j
  {
    DigitsTaken(t, i, j, n);
  }

  lemma FracTaken(t: Text, i: nat, j: nat, n: nat)
    requires IsFrac(t, i, j) && j <= n <= |t| && (j < n ==> !IsDigit(t[j]) && (i == j ==> t[j] != DOT))
    ensures Fraction(t, i, n) == Some(j)
  {
    if i < j { DigitsTaken(t, i + 1, j, n); }
  }

  lemma ExpTaken(t: Text, i: nat, j: nat, n: nat)
    requires IsExp(t, i, j) && Ends(t, j, n)
    ensures Exponent(t, i, n) == Some(j)
  {
    if i < j { DigitsTaken(t, if t[i + 1] == 0x2B || t[i + 1] == 0x2D then i + 2 else i + 1, j, n); }
  }

  lemma NumberTaken(t: Text, i: nat, j: nat, n: nat)
    requires IsNumberText(t, i, j) && Ends(t, j, n)
    ensures NumberEnd(t, i, n) == Some(j)
  {
    var s := if t[i] == 0x2D then i + 1 else i;
    var p: nat, q: nat :| IsInt(t, s, p) && IsFrac(t, p, q) && IsExp(t, q, j);
    hide Integer, Fraction, Exponent;
    IntTaken(t, s, p, n);
    FracTaken(t, p, q, n);
    ExpTaken(t, q, j, n);
  }

  lemma NumberFound(t: Text, i: nat, n: nat)
    requires i <= n <= |t| && NumberEnd(t, i, n).Some?
    ensures IsNumberText(t, i, NumberEnd(t, i, n).value)
  {
    var s := if i < n && t[i] == MINUS then i + 1 else i;
    var p := Integer(t, s, n);
    var f := Fraction(t, p, n);
    var j := NumberEnd(t, i, n).value;
    DigitsAreDigits(t, s, n);
    assert IsInt(t, s, p);
    if f.value != p { DigitsAreDigits(t, p + 1, n); }
    assert IsFrac(t, p, f.value);
    ExponentFound(t, f.value, n);
  }

  lemma ExponentFound(t: Text, i: nat, n: nat)
    requires i <= n <= |t| && Exponent(t, i, n).Some?
    ensures IsExp(t, i, Exponent(t, i, n).value)
  {
    if Exponent(t, i, n) != Some(i) {
      var s := if i + 1 < n && (t[i + 1] == PLUS || t[i + 1] == MINUS) then i + 2 else i + 1;
      DigitsAreDigits(t, s, n);
    }
  }

  // ----- Values (sections 3 to 5) -----

  predicate IsWord(t: Text, i: nat, j: nat, word: Text) {
    i <= j <= |t| && t[i..j] == word
  }

  ghost predicate IsValue(t: Text, i: nat, j: nat, v: Value)
    decreases v, 0
  {
    && i < j <= |t|
    && match v
       case Null => IsWord(t, i, j, [0x6E, 0x75, 0x6C, 0x6C])
       case Bool(b) => IsWord(t, i, j, if b then [0x74, 0x72, 0x75, 0x65] else [0x66, 0x61, 0x6C, 0x73, 0x65])
       case Num(lexeme) => IsNumberText(t, i, j) && IsWord(t, i, j, lexeme)
       case Str(s) => IsString(t, i, j, s)
       case Arr(items) =>
         && i + 1 < j && t[i] == 0x5B && t[j - 1] == 0x5D
         && if items == [] then Blank(t, i + 1, j - 1) else ItemsAfter(t, i + 1, j - 1, items)
       case Obj(members) =>
         && i + 1 < j && t[i] == 0x7B && t[j - 1] == 0x7D
         && if members == [] then Blank(t, i + 1, j - 1) else MembersAfter(t, i + 1, j - 1, members)
  }

  /** Whitespace, then values with commas between, up to the closer. */
  ghost predicate ItemsAfter(t: Text, i: nat, j: nat, items: seq<Value>)
    requires items != []
    decreases items, 2
  {
    exists a: nat :: Blank(t, i, a) && AreItems(t, a, j, items)
  }

  ghost predicate AreItems(t: Text, i: nat, j: nat, items: seq<Value>)
    requires items != []
    decreases items, 1
  {
    exists b: nat, c: nat ::
      && IsValue(t, i, b, items[0]) && Blank(t, b, c)
      && if |items| == 1 then c == j else c < |t| && t[c] == 0x2C && ItemsAfter(t, c + 1, j, items[1..])
  }

  ghost predicate IsMember(t: Text, i: nat, j: nat, m: Member)
    decreases m, 1
  {
    exists k: nat, c: nat, a: nat ::
      && IsString(t, i, k, m.key) && Blank(t, k, c) && c < |t| && t[c] == 0x3A && Blank(t, c + 1, a)
      && IsValue(t, a, j, m.value)
  }

  ghost predicate MembersAfter(t: Text, i: nat, j: nat, members: seq<Member>)
    requires members != []
    decreases members, 3
  {
    exists a: nat :: Blank(t, i, a) && AreMembers(t, a, j, members)
  }

  ghost predicate AreMembers(t: Text, i: nat, j: nat, members: seq<Member>)
    requires members != []
    decreases members, 2
  {
    exists b: nat, c: nat ::
      && IsMember(t, i, b, members[0]) && Blank(t, b, c)
      && if |members| == 1 then c == j else c < |t| && t[c] == 0x2C && MembersAfter(t, c + 1, j, members[1..])
  }

  /** A JSON text: a value with whitespace around it. */
  ghost predicate IsJson(t: Text, v: Value) {
    exists i: nat, j: nat :: Blank(t, 0, i) && IsValue(t, i, j, v) && Blank(t, j, |t|)
  }

  // ----- The parser takes what the grammar allows -----

  lemma {:induction false} BlankTaken(t: Text, i: nat, j: nat, n: nat)
    requires Blank(t, i, j) && j <= n <= |t| && (j < n ==> !IsWs(t[j]))
    ensures SkipWs(t, i, n) == j
    decreases j - i
  {
    if i < j { BlankTaken(t, i + 1, j, n); }
  }

  lemma {:induction false} BlankFound(t: Text, i: nat, n: nat)
    requires i <= n <= |t|
    ensures Blank(t, i, SkipWs(t, i, n)) && (SkipWs(t, i, n) < n ==> !IsWs(t[SkipWs(t, i, n)]))
    decreases n - i
  {
    if i < n && IsWs(t[i]) { BlankFound(t, i + 1, n); }
  }

  /** How a value begins: with none of the marks between values. */
  lemma ValueBegins(t: Text, i: nat, j: nat, v: Value)
    requires IsValue(t, i, j, v)
    ensures i < j <= |t| && !IsWs(t[i]) && t[i] != RBRACKET && t[i] != RBRACE
  {
    hide IsExp, IsFrac, AreUnits, ItemsAfter, MembersAfter;
    if v.Null? || v.Bool? { assert t[i] == t[i..j][0]; }
  }

  lemma BlankThen(t: Text, b: nat, c: nat, n: nat)
    requires Blank(t, b, c) && c < n <= |t| && (t[c] == COMMA || t[c] == RBRACE || t[c] == RBRACKET)
    ensures Ends(t, b, n) && SkipWs(t, b, n) == c
  {
    BlankTaken(t, b, c, n);
  }

  lemma {:induction false} ValueTaken(t: Text, i: nat, j: nat, n: nat, v: Value)
    requires IsValue(t, i, j, v) && Ends(t, j, n)
    ensures ParseValue(t, i, n) == Good(v, j)
    decreases v, 0
  {
    match v
    case Num(lexeme) => NumberValueTaken(t, i, j, n, lexeme);
    case Str(s) => StringTaken(t, i, j, n, s);
    case Arr(items) => ArrayTaken(t, i, j, n, items);
    case Obj(members) => ObjectTaken(t, i, j, n, members);
    case _ => WordTaken(t, i, j, n, v);
  }

  lemma WordTaken(t: Text, i: nat, j: nat, n: nat, v: Value)
    requires IsValue(t, i, j, v) && j <= n <= |t| && (v.Null? || v.Bool?)
    ensures ParseValue(t, i, n) == Good(v, j)
  {
    assert t[i] == t[i..j][0];
  }

  lemma NumberValueTaken(t: Text, i: nat, j: nat, n: nat, lexeme: Text)
    requires IsValue(t, i, j, Num(lexeme)) && Ends(t, j, n)
    ensures ParseValue(t, i, n) == Good(Num(lexeme), j)
  {
    NumberTaken(t, i, j, n);
    assert t[i] == MINUS || IsDigit(t[i]);
    hide NumberEnd, IsNumberText, Ends;
    NotAWord(t, i, n, TRUE);
    NotAWord(t, i, n, FALSE);
    NotAWord(t, i, n, NULL);
  }

  lemma NotAWord(t: Text, i: nat, n: nat, word: Text)
    requires i < n <= |t| && word != [] && t[i] != word[0]
    ensures !Reads(t, i, n, word)
  {
    if i + |word| <= n { assert t[i] == t[i..i + |word|][0]; }
  }

  lemma StringTaken(t: Text, i: nat, j: nat, n: nat, s: Text)
    requires IsString(t, i, j, s) && j <= n <= |t|
    ensures ParseValue(t, i, n) == Good(Str(s), j) && Chars(t, i + 1, n) == Good(s, j) && t[i] == QUOTE && i + 1 < j
  {
    UnitsTaken(t, i + 1, j - 1, n, s);
  }

  lemma {:induction false} ArrayTaken(t: Text, i: nat, j: nat, n: nat, items: seq<Value>)
    requires IsValue(t, i, j, Arr(items)) && j <= n <= |t|
    ensures ParseValue(t, i, n) == Good(Arr(items), j)
    decreases items, 3
  {
    hide *;
    if items == [] {
      EmptyTaken(t, i, j, n, Arr([]));
    } else {
      ArrayParts(t, i, j, items);
      var a := ItemsBegin(t, i + 1, j - 1, items);
      ItemsTaken(t, a, j - 1, n, items);
      ArrayParses(t, i, a, j - 1, n, items);
    }
  }

  lemma EmptyTaken(t: Text, i: nat, j: nat, n: nat, v: Value)
    requires (v == Arr([]) || v == Obj([])) && IsValue(t, i, j, v) && j <= n <= |t|
    ensures ParseValue(t, i, n) == Good(v, j)
  {
    BlankTaken(t, i + 1, j - 1, n);
  }

  lemma ArrayParts(t: Text, i: nat, j: nat, items: seq<Value>)
    requires IsValue(t, i, j, Arr(items)) && items != []
    ensures i + 1 < j <= |t| && t[i] == LBRACKET && t[j - 1] == RBRACKET && ItemsAfter(t, i + 1, j - 1, items)
  {
    hide ItemsAfter;
  }

  lemma ItemsBegin(t: Text, i: nat, j: nat, items: seq<Value>) returns (a: nat)
    requires items != [] && ItemsAfter(t, i, j, items)
    ensures Blank(t, i, a) && AreItems(t, a, j, items)
  {
    a :| Blank(t, i, a) && AreItems(t, a, j, items);
  }

  lemma ArrayParses(t: Text, i: nat, a: nat, j: nat, n: nat, items: seq<Value>)
    requires Blank(t, i + 1, a) && a < j < n <= |t| && t[i] == LBRACKET && !IsWs(t[a]) && t[a] != RBRACKET
    requires ParseItems(t, a, n) == Good(items, j + 1)
    ensures ParseValue(t, i, n) == Good(Arr(items), j + 1)
  {
    hide ParseItems;
    BlankTaken(t, i + 1, a, n);
  }

  lemma ItemsParts(t: Text, i: nat, j: nat, items: seq<Value>) returns (b: nat, c: nat)
    requires items != [] && AreItems(t, i, j, items)
    ensures IsValue(t, i, b, items[0]) && Blank(t, b, c)
    ensures if |items| == 1 then c == j else c < |t| && t[c] == COMMA && ItemsAfter(t, c + 1, j, items[1..])
  {
    hide IsValue, ItemsAfter;
    b, c :|
      && IsValue(t, i, b, items[0]) && Blank(t, b, c)
      && if |items| == 1 then c == j else c < |t| && t[c] == 0x2C && ItemsAfter(t, c + 1, j, items[1..]);
  }

  lemma {:induction false} ItemsTaken(t: Text, i: nat, j: nat, n: nat, items: seq<Value>)
    requires items != [] && AreItems(t, i, j, items) && j < n <= |t| && t[j] == RBRACKET
    ensures i < j && !IsWs(t[i]) && t[i] != RBRACKET && ParseItems(t, i, n) == Good(items, j + 1)
    decreases items, 2
  {
    hide *;
    var b, c := ItemsParts(t, i, j, items);
    ValueBegins(t, i, b, items[0]);
    if |items| == 1 {
      BlankThen(t, b, c, n);
      ValueTaken(t, i, b, n, items[0]);
      ItemsEnd(t, i, n, b, c);
      assert items == [items[0]];
    } else {
      var a := ItemsBegin(t, c + 1, j, items[1..]);
      ItemsTaken(t, a, j, n, items[1..]);
      BlankOrder(t, c + 1, a);
      BlankThen(t, b, c, n);
      ValueTaken(t, i, b, n, items[0]);
      ItemsJoin(t, i, n, b, c, a);
      HeadTail(items);
    }
  }

  lemma BlankOrder(t: Text, i: nat, j: nat)
    requires Blank(t, i, j)
    ensures i <= j
  {
  }

  lemma ItemsEnd(t: Text, i: nat, n: nat, b: nat, c: nat)
    requires i <= b <= c < n <= |t| && ParseValue(t, i, n).Good? && ParseValue(t, i, n).next == b
    requires SkipWs(t, b, n) == c && t[c] == RBRACKET
    ensures ParseItems(t, i, n) == Good([ParseValue(t, i, n).value], c + 1)
  {
    hide ParseValue;
  }

  lemma ItemsJoin(t: Text, i: nat, n: nat, b: nat, c: nat, a: nat)
    requires i <= b <= c < a < n <= |t| && ParseValue(t, i, n).Good? && ParseValue(t, i, n).next == b
    requires SkipWs(t, b, n) == c && t[c] == COMMA && Blank(t, c + 1, a) && !IsWs(t[a]) && ParseItems(t, a, n).Good?
    ensures ParseItems(t, i, n)
            == Good([ParseValue(t, i, n).value] + ParseItems(t, a, n).value, ParseItems(t, a, n).next)
  {
    hide ParseValue;
    BlankTaken(t, c + 1, a, n);
  }

  lemma MemberParts(t: Text, i: nat, j: nat, m: Member) returns (k: nat, c: nat, a: nat)
    requires IsMember(t, i, j, m)
    ensures IsString(t, i, k, m.key) && Blank(t, k, c) && c < |t| && t[c] == COLON && Blank(t, c + 1, a)
    ensures IsValue(t, a, j, m.value) && i < k <= c < a
  {
    hide IsValue;
    k, c, a :|
      && IsString(t, i, k, m.key) && Blank(t, k, c) && c < |t| && t[c] == 0x3A && Blank(t, c + 1, a)
      && IsValue(t, a, j, m.value);
  }

  lemma {:induction false} MemberTaken(t: Text, i: nat, j: nat, n: nat, m: Member)
    requires IsMember(t, i, j, m) && Ends(t, j, n)
    ensures i < j && t[i] == QUOTE && ParseMember(t, i, n) == Good(m, j)
    decreases m, 1
  {
    hide *;
    var k, c, a := MemberParts(t, i, j, m);
    ValueBegins(t, a, j, m.value);
    EndsInside(t, j, n);
    ValueTaken(t, a, j, n, m.value);
    StringTaken(t, i, k, n, m.key);
    MemberJoin(t, i, n, k, c, a, m);
  }

  lemma EndsInside(t: Text, j: nat, n: nat)
    requires Ends(t, j, n)
    ensures j <= n <= |t|
  {
  }

  lemma MemberJoin(t: Text, i: nat, n: nat, k: nat, c: nat, a: nat, m: Member)
    requires i < k <= c < a < n <= |t| && t[i] == QUOTE && Chars(t, i + 1, n) == Good(m.key, k)
    requires Blank(t, k, c) && t[c] == COLON && Blank(t, c + 1, a) && !IsWs(t[a])
    requires ParseValue(t, a, n).Good? && ParseValue(t, a, n).value == m.value
    ensures ParseMember(t, i, n) == Good(m, ParseValue(t, a, n).next)
  {
    hide ParseValue, Chars;
    BlankTaken(t, k, c, n);
    BlankTaken(t, c + 1, a, n);
  }

  lemma {:induction false} ObjectTaken(t: Text, i: nat, j: nat, n: nat, members: seq<Member>)
    requires IsValue(t, i, j, Obj(members)) && j <= n <= |t|
    ensures ParseValue(t, i, n) == Good(Obj(members), j)
    decreases members, 4
  {
    hide *;
    if members == [] {
      EmptyTaken(t, i, j, n, Obj([]));
    } else {
      ObjectParts(t, i, j, members);
      var a := MembersBegin(t, i + 1, j - 1, members);
      MembersTaken(t, a, j - 1, n, members);
      ObjectParses(t, i, a, j - 1, n, members);
    }
  }

  lemma ObjectParts(t: Text, i: nat, j: nat, members: seq<Member>)
    requires IsValue(t, i, j, Obj(members)) && members != []
    ensures i + 1 < j <= |t| && t[i] == LBRACE && t[j - 1] == RBRACE && MembersAfter(t, i + 1, j - 1, members)
  {
    hide MembersAfter;
  }

  lemma MembersBegin(t: Text, i: nat, j: nat, members: seq<Member>) returns (a: nat)
    requires members != [] && MembersAfter(t, i, j, members)
    ensures Blank(t, i, a) && AreMembers(t, a, j, members)
  {
    a :| Blank(t, i, a) && AreMembers(t, a, j, members);
  }

  lemma ObjectParses(t: Text, i: nat, a: nat, j: nat, n: nat, members: seq<Member>)
    requires Blank(t, i + 1, a) && a < j < n <= |t| && t[i] == LBRACE && t[a] == QUOTE
    requires ParseMembers(t, a, n) == Good(members, j + 1)
    ensures ParseValue(t, i, n) == Good(Obj(members), j + 1)
  {
    hide ParseMembers;
    BlankTaken(t, i + 1, a, n);
  }

  lemma MembersParts(t: Text, i: nat, j: nat, members: seq<Member>) returns (b: nat, c: nat)
    requires members != [] && AreMembers(t, i, j, members)
    ensures IsMember(t, i, b, members[0]) && Blank(t, b, c)
    ensures if |members| == 1 then c == j else c < |t| && t[c] == COMMA && MembersAfter(t, c + 1, j, members[1..])
  {
    hide IsMember, MembersAfter;
    b, c :|
      && IsMember(t, i, b, members[0]) && Blank(t, b, c)
      && if |members| == 1 then c == j else c < |t| && t[c] == 0x2C && MembersAfter(t, c + 1, j, members[1..]);
  }

  lemma {:induction false} MembersTaken(t: Text, i: nat, j: nat, n: nat, members: seq<Member>)
    requires members != [] && AreMembers(t, i, j, members) && j < n <= |t| && t[j] == RBRACE
    ensures i < j && t[i] == QUOTE && ParseMembers(t, i, n) == Good(members, j + 1)
    decreases members, 3
  {
    hide *;
    var b, c := MembersParts(t, i, j, members);
    BlankOrder(t, b, c);
    if |members| == 1 {
      BlankThen(t, b, c, n);
      MemberTaken(t, i, b, n, members[0]);
      MembersEnd(t, i, n, b, c);
      assert members == [members[0]];
    } else {
      var a := MembersBegin(t, c + 1, j, members[1..]);
      MembersTaken(t, a, j, n, members[1..]);
      BlankOrder(t, c + 1, a);
      BlankThen(t, b, c, n);
      MemberTaken(t, i, b, n, members[0]);
      MembersJoin(t, i, n, b, c, a);
      HeadTail(members);
    }
  }

  lemma MembersEnd(t: Text, i: nat, n: nat, b: nat, c: nat)
    requires i <= b <= c < n <= |t| && ParseMember(t, i, n).Good? && ParseMember(t, i, n).next == b
    requires SkipWs(t, b, n) == c && t[c] == RBRACE
    ensures ParseMembers(t, i, n) == Good([ParseMember(t, i, n).value], c + 1)
  {
    hide ParseMember;
  }

  lemma MembersJoin(t: Text, i: nat, n: nat, b: nat, c: nat, a: nat)
    requires i <= b <= c < a < n <= |t| && ParseMember(t, i, n).Good? && ParseMember(t, i, n).next == b
    requires SkipWs(t, b, n) == c && t[c] == COMMA && Blank(t, c + 1, a) && t[a] == QUOTE && ParseMembers(t, a, n).Good?
    ensures ParseMembers(t, i, n)
            == Good([ParseMember(t, i, n).value] + ParseMembers(t, a, n).value, ParseMembers(t, a, n).next)
  {
    hide ParseMember;
    BlankTaken(t, c + 1, a, n);
  }

  // ----- And the grammar allows what the parser takes -----

  lemma {:induction false} ValueFound(t: Text, i: nat, n: nat)
    requires i <= n <= |t| && ParseValue(t, i, n).Good?
    ensures IsValue(t, i, ParseValue(t, i, n).next, ParseValue(t, i, n).value)
    decreases n - i, 1
  {
    if t[i] == QUOTE {
      UnitsFound(t, i + 1, n);
    } else if t[i] == LBRACE {
      ObjectFound(t, i, n);
    } else if t[i] == LBRACKET {
      ArrayFound(t, i, n);
    } else if !(Reads(t, i, n, TRUE) || Reads(t, i, n, FALSE) || Reads(t, i, n, NULL)) {
      NumberFound(t, i, n);
    }
  }

  lemma {:induction false} ArrayFound(t: Text, i: nat, n: nat)
    requires i < n <= |t| && t[i] == LBRACKET && ParseValue(t, i, n).Good?
    ensures IsValue(t, i, ParseValue(t, i, n).next, ParseValue(t, i, n).value)
    decreases n - i, 0
  {
    hide ParseItems, AreItems;
    BlankFound(t, i + 1, n);
    var a := SkipWs(t, i + 1, n);
    if !At(t, a, n, RBRACKET) {
      ItemsFound(t, a, n);
      assert ItemsAfter(t, i + 1, ParseItems(t, a, n).next - 1, ParseItems(t, a, n).value);
    }
  }

  lemma ItemsTail(t: Text, i: nat, n: nat)
    requires i <= n <= |t| && ParseItems(t, i, n).Good?
    ensures var v := ParseValue(t, i, n);
            var c := SkipWs(t, v.next, n);
            && v.Good? && c < n
            && (t[c] == RBRACKET ==> ParseItems(t, i, n) == Good([v.value], c + 1))
            && (t[c] != RBRACKET ==>
                  var rest := ParseItems(t, SkipWs(t, c + 1, n), n);
                  t[c] == COMMA && rest.Good? && ParseItems(t, i, n) == Good([v.value] + rest.value, rest.next))
  {
    hide ParseValue;
  }

  lemma ItemsBuild(t: Text, i: nat, b: nat, c: nat, j: nat, x: Value, rest: seq<Value>)
    requires IsValue(t, i, b, x) && Blank(t, b, c)
    requires if rest == [] then c == j else c < |t| && t[c] == COMMA && ItemsAfter(t, c + 1, j, rest)
    ensures AreItems(t, i, j, [x] + rest)
  {
    hide IsValue, ItemsAfter;
    assert ([x] + rest)[0] == x && ([x] + rest)[1..] == rest;
  }

  lemma {:induction false} ItemsFound(t: Text, i: nat, n: nat)
    requires i <= n <= |t| && ParseItems(t, i, n).Good?
    ensures var r := ParseItems(t, i, n); r.value != [] && i < r.next && AreItems(t, i, r.next - 1, r.value)
    decreases n - i, 2
  {
    hide ParseItems, AreItems, ParseValue, IsValue;
    ItemsTail(t, i, n);
    var v := ParseValue(t, i, n);
    ValueFound(t, i, n);
    BlankFound(t, v.next, n);
    var c := SkipWs(t, v.next, n);
    if t[c] == RBRACKET {
      ItemsBuild(t, i, v.next, c, c, v.value, []);
      assert [v.value] + [] == [v.value];
    } else {
      BlankFound(t, c + 1, n);
      var a := SkipWs(t, c + 1, n);
      ItemsFound(t, a, n);
      var rest := ParseItems(t, a, n);
      assert ItemsAfter(t, c + 1, rest.next - 1, rest.value);
      ItemsBuild(t, i, v.next, c, rest.next - 1, v.value, rest.value);
    }
  }

  lemma {:induction false} MemberFound(t: Text, i: nat, n: nat)
    requires i <= n <= |t| && ParseMember(t, i, n).Good?
    ensures IsMember(t, i, ParseMember(t, i, n).next, ParseMember(t, i, n).value)
    decreases n - i, 2
  {
    hide IsValue, ParseValue, Chars, AreUnits;
    var key := Chars(t, i + 1, n);
    UnitsFound(t, i + 1, n);
    assert IsString(t, i, key.next, key.value);
    BlankFound(t, key.next, n);
    var c := SkipWs(t, key.next, n);
    BlankFound(t, c + 1, n);
    ValueFound(t, SkipWs(t, c + 1, n), n);
  }

  lemma {:induction false} ObjectFound(t: Text, i: nat, n: nat)
    requires i < n <= |t| && t[i] == LBRACE && ParseValue(t, i, n).Good?
    ensures IsValue(t, i, ParseValue(t, i, n).next, ParseValue(t, i, n).value)
    decreases n - i, 0
  {
    hide ParseMembers, AreMembers;
    BlankFound(t, i + 1, n);
    var a := SkipWs(t, i + 1, n);
    if !At(t, a, n, RBRACE) {
      MembersFound(t, a, n);
      assert MembersAfter(t, i + 1, ParseMembers(t, a, n).next - 1, ParseMembers(t, a, n).value);
    }
  }

  lemma MembersTail(t: Text, i: nat, n: nat)
    requires i <= n <= |t| && ParseMembers(t, i, n).Good?
    ensures var m := ParseMember(t, i, n);
            var c := SkipWs(t, m.next, n);
            && m.Good? && c < n
            && (t[c] == RBRACE ==> ParseMembers(t, i, n) == Good([m.value], c + 1))
            && (t[c] != RBRACE ==>
                  var rest := ParseMembers(t, SkipWs(t, c + 1, n), n);
                  t[c] == COMMA && rest.Good? && ParseMembers(t, i, n) == Good([m.value] + rest.value, rest.next))
  {
    hide ParseMember;
  }

  lemma MembersBuild(t: Text, i: nat, b: nat, c: nat, j: nat, m: Member, rest: seq<Member>)
    requires IsMember(t, i, b, m) && Blank(t, b, c)
    requires if rest == [] then c == j else c < |t| && t[c] == COMMA && MembersAfter(t, c + 1, j, rest)
    ensures AreMembers(t, i, j, [m] + rest)
  {
    hide IsMember, MembersAfter;
    assert ([m] + rest)[0] == m && ([m] + rest)[1..] == rest;
  }

  lemma {:induction false} MembersFound(t: Text, i: nat, n: nat)
    requires i <= n <= |t| && ParseMembers(t, i, n).Good?
    ensures var r := ParseMembers(t, i, n); r.value != [] && i < r.next && AreMembers(t, i, r.next - 1, r.value)
    decreases n - i, 3
  {
    hide ParseMembers, AreMembers, ParseMember, IsMember;
    MembersTail(t, i, n);
    var m := ParseMember(t, i, n);
    MemberFound(t, i, n);
    BlankFound(t, m.next, n);
    var c := SkipWs(t, m.next, n);
    if t[c] == RBRACE {
      MembersBuild(t, i, m.next, c, c, m.value, []);
      assert [m.value] + [] == [m.value];
    } else {
      BlankFound(t, c + 1, n);
      var a := SkipWs(t, c + 1, n);
      MembersFound(t, a, n);
      var rest := ParseMembers(t, a, n);
      assert MembersAfter(t, c + 1, rest.next - 1, rest.value);
      MembersBuild(t, i, m.next, c, rest.next - 1, m.value, rest.value);
    }
  }

  /** The parser accepts exactly the JSON texts, each as the value it stands for. */
  lemma ParseIff(t: Text, v: Value)
    ensures Parse(t) == Some(v) <==> IsJson(t, v)
  {
    if Parse(t) == Some(v) {
      var i := SkipWs(t, 0, |t|);
      BlankFound(t, 0, |t|);
      ValueFound(t, i, |t|);
      BlankFound(t, ParseValue(t, i, |t|).next, |t|);
      hide IsValue, ParseValue;
      assert IsJson(t, v);
    }
    if i: nat, j: nat :| Blank(t, 0, i) && IsValue(t, i, j, v) && Blank(t, j, |t|) {
      hide ParseValue;
      ValueBegins(t, i, j, v);
      hide IsValue;
      BlankTaken(t, 0, i, |t|);
      BlankTaken(t, j, |t|, |t|);
      ValueTaken(t, i, j, |t|, v);
    }
  }
}
