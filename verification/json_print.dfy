/** A compact JSON printer, and the proof that the parser reads back what it prints. */
module JsonPrinter {
  import opened Json
  import opened Texts
  import opened Wrappers

  function HexDigit(d: int): int {
    if d < 10 then ZERO + d else 0x61 + d - 10
  }

  /** One unit inside a string: the two-character escapes, \u00XX for the other controls. */
  function EscapeUnit(u: int): Text {
    if u == QUOTE || u == BACKSLASH then [BACKSLASH, u]
    else if u == 0x08 then [BACKSLASH, 0x62]
    else if u == 0x0C then [BACKSLASH, 0x66]
    else if u == 0x0A then [BACKSLASH, 0x6E]
    else if u == 0x0D then [BACKSLASH, 0x72]
    else if u == 0x09 then [BACKSLASH, 0x74]
    else if u < 0x20 then [BACKSLASH, LOWER_U, ZERO, ZERO, HexDigit(u / 16), HexDigit(u % 16)]
    else [u]
  }

  lemma EscapesSpelled(u: int)
    requires 0 <= u < 0x20
    ensures u == 0x08 ==> EscapeUnit(u) == Units("\\b")
    ensures u == 0x09 ==> EscapeUnit(u) == Units("\\t")
    ensures u == 0x0A ==> EscapeUnit(u) == Units("\\n")
    ensures u == 0x0C ==> EscapeUnit(u) == Units("\\f")
    ensures u == 0x0D ==> EscapeUnit(u) == Units("\\r")
    ensures u !in [0x08, 0x09, 0x0A, 0x0C, 0x0D] ==> |EscapeUnit(u)| == 6 && EscapeUnit(u)[..4] == Units("\\u00")
  {
  }

  function Escaped(s: Text): Text {
    if s == [] then [] else EscapeUnit(s[0]) + Escaped(s[1..])
  }

  function Quoted(s: Text): Text {
    [QUOTE] + Escaped(s) + [QUOTE]
  }

  function Print(v: Value): Text
    decreases v, 0
  {
    match v
    case Null => NULL
    case Bool(b) => if b then TRUE else FALSE
    case Num(lexeme) => lexeme
    case Str(s) => Quoted(s)
    case Arr(items) => [LBRACKET] + PrintItems(items) + [RBRACKET]
    case Obj(members) => [LBRACE] + PrintMembers(members) + [RBRACE]
  }

  function PrintItems(items: seq<Value>): Text
    decreases items, 0
  {
    if items == [] then []
    else if |items| == 1 then Print(items[0])
    else Print(items[0]) + [COMMA] + PrintItems(items[1..])
  }

  function PrintMember(m: Member): Text
    decreases m, 0
  {
    Quoted(m.key) + [COLON] + Print(m.value)
  }

  function PrintMembers(members: seq<Member>): Text
    decreases members, 0
  {
    if members == [] then []
    else if |members| == 1 then PrintMember(members[0])
    else PrintMember(members[0]) + [COMMA] + PrintMembers(members[1..])
  }

  // ----- Values that have a JSON form -----

  ghost predicate IsUnits(s: Text) {
    forall u :: u in s ==> 0 <= u < 0x1_0000
  }

  predicate IsNumber(lexeme: Text) {
    NumberEnd(lexeme, 0, |lexeme|) == Some(|lexeme|)
  }

  ghost predicate Printable(v: Value)
    decreases v
  {
    match v
    case Null => true
    case Bool(_) => true
    case Num(lexeme) => IsNumber(lexeme)
    case Str(s) => IsUnits(s)
    case Arr(items) => forall x :: x in items ==> Printable(x)
    case Obj(members) => forall m :: m in members ==> IsUnits(m.key) && Printable(m.value)
  }

  // ----- Reading back -----

  /** What may follow a value: nothing more in the range, or a delimiter. */
  predicate Delimited(t: Text, i: nat, n: nat)
    requires i <= n <= |t|
  {
    i < n ==> t[i] == COMMA || t[i] == RBRACE || t[i] == RBRACKET
  }

  // ----- Strings -----

  lemma {:induction false} ReadsEscaped(s: Text, t: Text, i: nat, n: nat)
    requires IsUnits(s) && Stands(t, i, n, Escaped(s) + [QUOTE])
    ensures Chars(t, i, n) == Good(s, i + |Escaped(s)| + 1)
  {
    hide *;
    if s == [] {
      CharsEnd(t, i, n);
    } else {
      var j := EscapedSplit(s, t, i, n);
      ReadsUnit(s[0], t, i, n);
      ReadsEscaped(s[1..], t, j, n);
      CharsCons(s, t, i, n, j);
    }
  }

  lemma CharsEnd(t: Text, i: nat, n: nat)
    requires Stands(t, i, n, Escaped([]) + [QUOTE])
    ensures Chars(t, i, n) == Good([], i + |Escaped([])| + 1)
  {
    StandsFirst(t, i, n, QUOTE, []);
  }

  lemma CharsCons(s: Text, t: Text, i: nat, n: nat, j: nat)
    requires s != [] && i <= n <= |t| && j <= n && Chars(t, i, n) == After(s[0], Chars(t, j, n))
    requires Chars(t, j, n).Good? && Chars(t, j, n).value == s[1..]
    ensures Chars(t, i, n) == Good(s, Chars(t, j, n).next)
  {
    hide Chars;
    HeadTail(s);
  }

  /** An escaped text, split after its first unit. */
  lemma EscapedSplit(s: Text, t: Text, i: nat, n: nat) returns (j: nat)
    requires s != [] && IsUnits(s) && Stands(t, i, n, Escaped(s) + [QUOTE])
    ensures i < j == i + |EscapeUnit(s[0])| <= n <= |t| && Stands(t, i, n, EscapeUnit(s[0])) && 0 <= s[0] < 0x1_0000
    ensures IsUnits(s[1..]) && Stands(t, j, n, Escaped(s[1..]) + [QUOTE])
    ensures i + |Escaped(s)| == j + |Escaped(s[1..])|
  {
    RestAreUnits(s);
    EscapedFirst(s);
    hide EscapeUnit, Escaped, IsUnits;
    j := i + |EscapeUnit(s[0])|;
    StandsSplit(t, i, n, EscapeUnit(s[0]), Escaped(s[1..]) + [QUOTE]);
  }

  lemma RestAreUnits(s: Text)
    requires s != [] && IsUnits(s)
    ensures 0 <= s[0] < 0x1_0000 && IsUnits(s[1..])
  {
    assert s[0] in s && forall u :: u in s[1..] ==> u in s;
  }

  lemma EscapedFirst(s: Text)
    requires s != []
    ensures |EscapeUnit(s[0])| > 0 && |Escaped(s)| == |EscapeUnit(s[0])| + |Escaped(s[1..])|
    ensures Escaped(s) + [QUOTE] == EscapeUnit(s[0]) + (Escaped(s[1..]) + [QUOTE])
  {
    SomeUnit(s[0]);
    hide EscapeUnit;
    assert Escaped(s) == EscapeUnit(s[0]) + Escaped(s[1..]);
  }

  lemma SomeUnit(u: int)
    ensures |EscapeUnit(u)| > 0
  {
  }

  lemma ReadsUnit(u: int, t: Text, i: nat, n: nat)
    requires 0 <= u < 0x1_0000 && Stands(t, i, n, EscapeUnit(u))
    ensures i < n && Chars(t, i, n) == After(u, Chars(t, i + |EscapeUnit(u)|, n))
  {
    var unit := EscapeUnit(u);
    StandsAt(t, i, n, unit, 0);
    if |unit| > 1 { StandsAt(t, i, n, unit, 1); }
    if |unit| == 6 {
      StandsAt(t, i, n, unit, 2);
      StandsAt(t, i, n, unit, 3);
      StandsAt(t, i, n, unit, 4);
      StandsAt(t, i, n, unit, 5);
      assert Hex4(t, i + 2) == u;
    }
  }

  // ----- Numbers -----

  lemma {:induction false} DigitsStand(word: Text, a: nat, t: Text, i: nat, n: nat)
    requires a <= |word| && Stands(t, i, n, word)
    requires i + |word| < n ==> !IsDigit(t[i + |word|])
    ensures Digits(t, i + a, n) == i + Digits(word, a, |word|)
    decreases |word| - a
  {
    if a < |word| {
      StandsAt(t, i, n, word, a);
      DigitsStand(word, a + 1, t, i, n);
    }
  }

  lemma ReadsInteger(word: Text, a: nat, t: Text, i: nat, n: nat)
    requires a <= |word| && Stands(t, i, n, word) && Delimited(t, i + |word|, n)
    ensures Integer(t, i + a, n) == i + Integer(word, a, |word|)
  {
    DigitsStand(word, a, t, i, n);
    if a < |word| { StandsAt(t, i, n, word, a); }
  }

  lemma ReadsFraction(word: Text, a: nat, t: Text, i: nat, n: nat)
    requires a <= |word| && Stands(t, i, n, word) && Delimited(t, i + |word|, n)
    requires Fraction(word, a, |word|).Some?
    ensures Fraction(t, i + a, n) == Some(i + Fraction(word, a, |word|).value)
  {
    if a < |word| {
      StandsAt(t, i, n, word, a);
      DigitsStand(word, a + 1, t, i, n);
    }
  }

  lemma ReadsExponent(word: Text, a: nat, t: Text, i: nat, n: nat)
    requires a <= |word| && Stands(t, i, n, word) && Delimited(t, i + |word|, n)
    requires Exponent(word, a, |word|).Some?
    ensures Exponent(t, i + a, n) == Some(i + Exponent(word, a, |word|).value)
  {
    if a < |word| {
      StandsAt(t, i, n, word, a);
      DigitsStand(word, a + 1, t, i, n);
      if a + 1 < |word| {
        StandsAt(t, i, n, word, a + 1);
        DigitsStand(word, a + 2, t, i, n);
      }
    }
  }

  lemma ReadsNumber(lexeme: Text, t: Text, i: nat, n: nat)
    requires IsNumber(lexeme) && Stands(t, i, n, lexeme) && Delimited(t, i + |lexeme|, n)
    ensures NumberEnd(t, i, n) == Some(i + |lexeme|)
  {
    hide Integer, Fraction, Exponent, NumberEnd, Delimited;
    NumberStarts(lexeme);
    StandsAt(t, i, n, lexeme, 0);
    var s, p, f := NumberParts(lexeme);
    ReadsInteger(lexeme, s, t, i, n);
    ReadsFraction(lexeme, p, t, i, n);
    ReadsExponent(lexeme, f, t, i, n);
    NumberEnds(t, i, n, s, i + p, i + f);
  }

  /** Where the three parts of a number begin. */
  lemma NumberParts(lexeme: Text) returns (s: nat, p: nat, f: nat)
    requires IsNumber(lexeme) && lexeme != []
    ensures var w := |lexeme|;
            && s == (if lexeme[0] == MINUS then 1 else 0) && s < p == Integer(lexeme, s, w) <= w
            && Fraction(lexeme, p, w) == Some(f) && f <= w && Exponent(lexeme, f, w) == Some(w)
  {
    hide Integer, Exponent;
    var w := |lexeme|;
    s := if lexeme[0] == MINUS then 1 else 0;
    p := Integer(lexeme, s, w);
    f := Fraction(lexeme, p, w).value;
  }

  lemma NumberEnds(t: Text, i: nat, n: nat, s: nat, p: nat, f: nat)
    requires i < n <= |t| && s == (if t[i] == MINUS then 1 else 0) && i + s < p == Integer(t, i + s, n) <= n
    requires Fraction(t, p, n) == Some(f) && f <= n
    ensures NumberEnd(t, i, n) == Exponent(t, f, n)
  {
    hide Integer, Fraction, Exponent;
  }

  lemma NumberStarts(lexeme: Text)
    requires IsNumber(lexeme)
    ensures lexeme != [] && (lexeme[0] == MINUS || IsDigit(lexeme[0]))
  {
    if lexeme != [] {
      assert Integer(lexeme, if lexeme[0] == MINUS then 1 else 0, |lexeme|) > 0;
    }
  }

  lemma ReadsScalar(v: Value, t: Text, i: nat, n: nat)
    requires v.Null? || v.Bool? || v.Num?
    requires Printable(v) && Stands(t, i, n, Print(v)) && Delimited(t, i + |Print(v)|, n)
    ensures ParseValue(t, i, n) == Good(v, i + |Print(v)|)
  {
    if v.Num? {
      ReadsNumeral(v.lexeme, t, i, n);
    } else {
      ReadsWord(v, t, i, n);
    }
  }

  lemma ReadsNumeral(lexeme: Text, t: Text, i: nat, n: nat)
    requires IsNumber(lexeme) && Stands(t, i, n, lexeme) && Delimited(t, i + |lexeme|, n)
    ensures ParseValue(t, i, n) == Good(Num(lexeme), i + |lexeme|)
  {
    NumberStarts(lexeme);
    ReadsNumber(lexeme, t, i, n);
    hide IsNumber, NumberEnd, Reads;
    StandsAt(t, i, n, lexeme, 0);
    NotWord(t, i, n, TRUE);
    NotWord(t, i, n, FALSE);
    NotWord(t, i, n, NULL);
  }

  lemma ReadsWord(v: Value, t: Text, i: nat, n: nat)
    requires v.Null? || v.Bool?
    requires Stands(t, i, n, Print(v))
    ensures ParseValue(t, i, n) == Good(v, i + |Print(v)|)
  {
    StandsAt(t, i, n, Print(v), 0);
    if v.Null? {
      NotWord(t, i, n, TRUE);
      NotWord(t, i, n, FALSE);
    } else if !v.b {
      NotWord(t, i, n, TRUE);
    }
  }

  lemma NotWord(t: Text, i: nat, n: nat, word: Text)
    requires i < n <= |t| && word != [] && t[i] != word[0]
    ensures !Reads(t, i, n, word)
  {
    if i + |word| <= n {
      assert t[i] == t[i..i + |word|][0];
    }
  }

  // ----- Values -----

  /** The first unit of a printed value: never whitespace, a closer or a separator. */
  lemma PrintStarts(v: Value)
    requires Printable(v)
    ensures Print(v) != []
    ensures !IsWs(Print(v)[0]) && Print(v)[0] != RBRACKET && Print(v)[0] != RBRACE
  {
    if v.Num? { NumberStarts(v.lexeme); }
  }

  lemma PrintedSkips(v: Value, t: Text, i: nat, n: nat)
    requires Printable(v) && Stands(t, i, n, Print(v))
    ensures i < n && SkipWs(t, i, n) == i && !At(t, i, n, RBRACKET)
  {
    PrintStarts(v);
    StandsAt(t, i, n, Print(v), 0);
  }

  lemma ReadsSeparator(t: Text, i: nat, n: nat, closer: int)
    requires i < n <= |t| && !IsWs(closer) && closer != COMMA
    requires t[i] == closer || (t[i] == COMMA && SkipWs(t, i + 1, n) == i + 1)
    ensures Separator(t, i, n, closer) == Good(t[i] == COMMA, i + 1)
  {
  }

  /** The parser reads back exactly the value that was printed, wherever it stands. */
  lemma {:induction false} ReadsPrinted(v: Value, t: Text, i: nat, n: nat)
    requires Printable(v) && Stands(t, i, n, Print(v)) && Delimited(t, i + |Print(v)|, n)
    ensures ParseValue(t, i, n) == Good(v, i + |Print(v)|)
    decreases v, 0
  {
    match v
    case Str(s) =>
      assert Quoted(s) == [QUOTE] + (Escaped(s) + [QUOTE]);
      StandsFirst(t, i, n, QUOTE, Escaped(s) + [QUOTE]);
      ReadsEscaped(s, t, i + 1, n);
    case Arr(items) => ReadsArray(items, t, i, n);
    case Obj(members) => ReadsObject(members, t, i, n);
    case _ => ReadsScalar(v, t, i, n);
  }

  lemma {:induction false} ReadsArray(items: seq<Value>, t: Text, i: nat, n: nat)
    requires forall x :: x in items ==> Printable(x)
    requires Stands(t, i, n, [LBRACKET] + PrintItems(items) + [RBRACKET])
    ensures ParseValue(t, i, n) == Good(Arr(items), i + |PrintItems(items)| + 2)
    decreases items, 2
  {
    var inside := PrintItems(items) + [RBRACKET];
    assert [LBRACKET] + PrintItems(items) + [RBRACKET] == [LBRACKET] + inside;
    StandsFirst(t, i, n, LBRACKET, inside);
    if items == [] {
      StandsAt(t, i + 1, n, inside, 0);
    } else {
      hide PrintItems, Stands, ParseItems, Printable;
      ReadsItems(items, t, i + 1, n);
    }
  }

  lemma ItemSplit(items: seq<Value>, t: Text, i: nat, n: nat) returns (j: nat)
    requires items != [] && Stands(t, i, n, PrintItems(items) + [RBRACKET])
    ensures i <= j < n <= |t| && j == i + |Print(items[0])|
    ensures Stands(t, i, n, Print(items[0])) && Delimited(t, j, n)
    ensures |items| == 1 ==> t[j] == RBRACKET && j == i + |PrintItems(items)|
    ensures |items| > 1 ==> t[j] == COMMA && Stands(t, j + 1, n, PrintItems(items[1..]) + [RBRACKET])
    ensures |items| > 1 ==> j + 1 + |PrintItems(items[1..])| == i + |PrintItems(items)|
  {
    hide Print, PrintItems, Stands;
    var more := |items| > 1;
    var rest := if more then PrintItems(items[1..]) + [RBRACKET] else [];
    var mark := if more then COMMA else RBRACKET;
    FirstItem(items);
    SplitAround(t, i, n, Print(items[0]), mark, rest);
    j := i + |Print(items[0])|;
  }

  lemma FirstItem(items: seq<Value>)
    requires items != []
    ensures |items| == 1 ==> PrintItems(items) + [RBRACKET] == Print(items[0]) + ([RBRACKET] + [])
    ensures |items| > 1 ==> PrintItems(items) + [RBRACKET]
                            == Print(items[0]) + ([COMMA] + (PrintItems(items[1..]) + [RBRACKET]))
    ensures |PrintItems(items)| == |Print(items[0])| + if |items| > 1 then 1 + |PrintItems(items[1..])| else 0
  {
    hide Print;
    if |items| > 1 {
      Regroup(Print(items[0]), COMMA, PrintItems(items[1..]), RBRACKET);
      hide PrintItems;
    }
  }

  lemma ItemsCons(items: seq<Value>, t: Text, i: nat, n: nat, j: nat)
    requires |items| > 1 && i <= j < n <= |t| && ParseValue(t, i, n) == Good(items[0], j)
    requires t[j] == COMMA && SkipWs(t, j + 1, n) == j + 1
    requires ParseItems(t, j + 1, n).Good? && ParseItems(t, j + 1, n).value == items[1..]
    ensures ParseItems(t, i, n) == Good(items, ParseItems(t, j + 1, n).next)
  {
    ReadsSeparator(t, j, n, RBRACKET);
    HeadTail(items);
  }

  lemma ItemsLast(items: seq<Value>, t: Text, i: nat, n: nat, j: nat)
    requires |items| == 1 && i <= j < n <= |t| && ParseValue(t, i, n) == Good(items[0], j)
    requires t[j] == RBRACKET
    ensures ParseItems(t, i, n) == Good(items, j + 1)
  {
    ReadsSeparator(t, j, n, RBRACKET);
    assert items == [items[0]];
  }

  lemma {:induction false} ReadsItems(items: seq<Value>, t: Text, i: nat, n: nat)
    requires items != [] && forall x :: x in items ==> Printable(x)
    requires Stands(t, i, n, PrintItems(items) + [RBRACKET])
    ensures ParseItems(t, i, n) == Good(items, i + |PrintItems(items)| + 1)
    ensures SkipWs(t, i, n) == i && !At(t, i, n, RBRACKET)
    decreases items, 1
  {
    hide *;
    var j := ItemSplit(items, t, i, n);
    PrintedSkips(items[0], t, i, n);
    ReadsPrinted(items[0], t, i, n);
    if |items| == 1 {
      ItemsLast(items, t, i, n, j);
    } else {
      ReadsItems(items[1..], t, j + 1, n);
      ItemsCons(items, t, i, n, j);
    }
  }

  lemma {:induction false} ReadsObject(members: seq<Member>, t: Text, i: nat, n: nat)
    requires forall m :: m in members ==> IsUnits(m.key) && Printable(m.value)
    requires Stands(t, i, n, [LBRACE] + PrintMembers(members) + [RBRACE])
    ensures ParseValue(t, i, n) == Good(Obj(members), i + |PrintMembers(members)| + 2)
    decreases members, 3
  {
    hide *;
    var inside := PrintMembers(members) + [RBRACE];
    assert [LBRACE] + PrintMembers(members) + [RBRACE] == [LBRACE] + inside;
    StandsFirst(t, i, n, LBRACE, inside);
    if members == [] {
      ReadsEmptyObject(t, i, n);
    } else {
      ReadsMembers(members, t, i + 1, n);
      ObjectReads(t, i, n);
    }
  }

  lemma ReadsEmptyObject(t: Text, i: nat, n: nat)
    requires Stands(t, i, n, [LBRACE] + PrintMembers([]) + [RBRACE])
    ensures ParseValue(t, i, n) == Good(Obj([]), i + |PrintMembers([])| + 2)
  {
    StandsAt(t, i, n, [LBRACE, RBRACE], 0);
    StandsAt(t, i, n, [LBRACE, RBRACE], 1);
  }

  lemma ObjectReads(t: Text, i: nat, n: nat)
    requires i + 1 < n <= |t| && t[i] == LBRACE && SkipWs(t, i + 1, n) == i + 1 && At(t, i + 1, n, QUOTE)
    requires ParseMembers(t, i + 1, n).Good?
    ensures ParseValue(t, i, n) == Good(Obj(ParseMembers(t, i + 1, n).value), ParseMembers(t, i + 1, n).next)
  {
    hide ParseMembers;
  }

  lemma MemberSplit(members: seq<Member>, t: Text, i: nat, n: nat) returns (j: nat)
    requires members != [] && Stands(t, i, n, PrintMembers(members) + [RBRACE])
    ensures i <= j < n <= |t| && j == i + |PrintMember(members[0])|
    ensures Stands(t, i, n, PrintMember(members[0])) && Delimited(t, j, n)
    ensures |members| == 1 ==> t[j] == RBRACE && j == i + |PrintMembers(members)|
    ensures |members| > 1 ==> t[j] == COMMA && Stands(t, j + 1, n, PrintMembers(members[1..]) + [RBRACE])
    ensures |members| > 1 ==> j + 1 + |PrintMembers(members[1..])| == i + |PrintMembers(members)|
  {
    hide PrintMember, PrintMembers, Stands;
    var more := |members| > 1;
    var rest := if more then PrintMembers(members[1..]) + [RBRACE] else [];
    var mark := if more then COMMA else RBRACE;
    FirstMember(members);
    SplitAround(t, i, n, PrintMember(members[0]), mark, rest);
    j := i + |PrintMember(members[0])|;
  }

  lemma FirstMember(members: seq<Member>)
    requires members != []
    ensures |members| == 1 ==> PrintMembers(members) + [RBRACE] == PrintMember(members[0]) + ([RBRACE] + [])
    ensures |members| > 1 ==> PrintMembers(members) + [RBRACE]
                              == PrintMember(members[0]) + ([COMMA] + (PrintMembers(members[1..]) + [RBRACE]))
    ensures |PrintMembers(members)|
            == |PrintMember(members[0])| + if |members| > 1 then 1 + |PrintMembers(members[1..])| else 0
  {
    hide PrintMember;
    if |members| > 1 {
      Regroup(PrintMember(members[0]), COMMA, PrintMembers(members[1..]), RBRACE);
      hide PrintMembers;
    }
  }

  lemma MembersCons(members: seq<Member>, t: Text, i: nat, n: nat, j: nat)
    requires |members| > 1 && i <= j < n <= |t| && ParseMember(t, i, n) == Good(members[0], j)
    requires t[j] == COMMA && SkipWs(t, j + 1, n) == j + 1
    requires ParseMembers(t, j + 1, n).Good? && ParseMembers(t, j + 1, n).value == members[1..]
    ensures ParseMembers(t, i, n) == Good(members, ParseMembers(t, j + 1, n).next)
  {
    ReadsSeparator(t, j, n, RBRACE);
    HeadTail(members);
  }

  lemma MembersLast(members: seq<Member>, t: Text, i: nat, n: nat, j: nat)
    requires |members| == 1 && i <= j < n <= |t| && ParseMember(t, i, n) == Good(members[0], j)
    requires t[j] == RBRACE
    ensures ParseMembers(t, i, n) == Good(members, j + 1)
  {
    ReadsSeparator(t, j, n, RBRACE);
    assert members == [members[0]];
  }

  /** A printed key with its colon, up to where the value stands. */
  lemma ReadsKey(m: Member, t: Text, i: nat, n: nat) returns (v: nat)
    requires IsUnits(m.key) && Printable(m.value) && Stands(t, i, n, PrintMember(m))
    ensures i < v <= n && v + |Print(m.value)| == i + |PrintMember(m)|
    ensures Key(t, i, n) == Good(m.key, v) && Stands(t, v, n, Print(m.value))
    ensures t[i] == QUOTE
  {
    hide Key, Chars, Print, PrintMember, Escaped, SkipWs;
    v := KeySplit(m, t, i, n);
    ReadsEscaped(m.key, t, i + 1, n);
    PrintedSkips(m.value, t, v, n);
    KeyReads(m.key, t, i, n, v - 1);
  }

  lemma KeyRegrouped(key: Text, value: Text)
    ensures ([QUOTE] + key + [QUOTE]) + [COLON] + value == [QUOTE] + ((key + [QUOTE]) + ([COLON] + value))
  {
  }

  lemma KeySplit(m: Member, t: Text, i: nat, n: nat) returns (v: nat)
    requires Stands(t, i, n, PrintMember(m))
    ensures v == i + |Escaped(m.key)| + 3 && v + |Print(m.value)| == i + |PrintMember(m)|
    ensures v <= n && t[i] == QUOTE && t[v - 1] == COLON
    ensures Stands(t, i + 1, n, Escaped(m.key) + [QUOTE]) && Stands(t, v, n, Print(m.value))
  {
    hide Print, Escaped, Stands;
    var value := Print(m.value);
    var key := Escaped(m.key) + [QUOTE];
    KeyRegrouped(Escaped(m.key), value);
    StandsFirst(t, i, n, QUOTE, key + ([COLON] + value));
    SplitAround(t, i + 1, n, key, COLON, value);
    v := i + 2 + |key|;
  }

  lemma KeyReads(key: Text, t: Text, i: nat, n: nat, colon: nat)
    requires i < colon < n <= |t| && t[i] == QUOTE && t[colon] == COLON
    requires Chars(t, i + 1, n) == Good(key, colon) && SkipWs(t, colon + 1, n) == colon + 1
    ensures Key(t, i, n) == Good(key, colon + 1)
  {
  }

  lemma MemberReads(m: Member, t: Text, i: nat, n: nat, v: nat)
    requires i <= v <= n <= |t| && Key(t, i, n) == Good(m.key, v)
    requires ParseValue(t, v, n).Good? && ParseValue(t, v, n).value == m.value
    ensures ParseMember(t, i, n) == Good(m, ParseValue(t, v, n).next)
  {
  }

  lemma {:induction false} ReadsMember(m: Member, t: Text, i: nat, n: nat)
    requires IsUnits(m.key) && Printable(m.value)
    requires Stands(t, i, n, PrintMember(m)) && Delimited(t, i + |PrintMember(m)|, n)
    ensures ParseMember(t, i, n) == Good(m, i + |PrintMember(m)|)
    ensures SkipWs(t, i, n) == i && At(t, i, n, QUOTE)
    decreases m, 1
  {
    hide ParseMember, ParseValue, Key, Print, PrintMember;
    var v := ReadsKey(m, t, i, n);
    ReadsPrinted(m.value, t, v, n);
    MemberReads(m, t, i, n, v);
  }

  lemma {:induction false} ReadsMembers(members: seq<Member>, t: Text, i: nat, n: nat)
    requires members != [] && forall m :: m in members ==> IsUnits(m.key) && Printable(m.value)
    requires Stands(t, i, n, PrintMembers(members) + [RBRACE])
    ensures ParseMembers(t, i, n) == Good(members, i + |PrintMembers(members)| + 1)
    ensures SkipWs(t, i, n) == i && At(t, i, n, QUOTE)
    decreases members, 2
  {
    hide *;
    var j := MemberSplit(members, t, i, n);
    ReadsMember(members[0], t, i, n);
    if |members| == 1 {
      MembersLast(members, t, i, n, j);
    } else {
      ReadsMembers(members[1..], t, j + 1, n);
      MembersCons(members, t, i, n, j);
    }
  }

  /** Round trip: parsing what was printed gives the value back. */
  lemma ParsePrint(v: Value)
    requires Printable(v)
    ensures Parse(Print(v)) == Some(v)
  {
    var t := Print(v);
    assert t[0..|t|] == t;
    ReadsPrinted(v, t, 0, |t|);
    PrintStarts(v);
  }
}
