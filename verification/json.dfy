/** JSON texts (RFC 8259) as sequences of UTF-16 code units, and the parser behind JSON.parse.

    Every function reads the range t[i..n] of a text in place, so JSON.parse(t.substring(i, n)) is
    ParseRange(t, i, n). A number is kept as the lexeme it was written with. */
module Json {
  import opened Texts
  import opened Wrappers

  datatype Value =
    | Null
    | Bool(b: bool)
    | Num(lexeme: Text)
    | Str(s: Text)
    | Arr(items: seq<Value>)
    | Obj(members: seq<Member>)

  datatype Member = Member(key: Text, value: Value)

  const QUOTE := 0x22
  const BACKSLASH := 0x5C
  const LBRACE := 0x7B
  const RBRACE := 0x7D
  const LBRACKET := 0x5B
  const RBRACKET := 0x5D
  const COLON := 0x3A
  const MINUS := 0x2D
  const PLUS := 0x2B
  const DOT := 0x2E
  const LOWER_U := 0x75
  const TRUE: Text := [0x74, 0x72, 0x75, 0x65]
  const FALSE: Text := [0x66, 0x61, 0x6C, 0x73, 0x65]
  const NULL: Text := [0x6E, 0x75, 0x6C, 0x6C]

  predicate IsWs(c: int) {
    c == 0x20 || c == 0x09 || c == 0x0A || c == 0x0D
  }

  function SkipWs(t: Text, i: nat, n: nat): (j: nat)
    requires i <= n <= |t|
    ensures i <= j <= n
    decreases n - i
  {
    if i < n && IsWs(t[i]) then SkipWs(t, i + 1, n) else i
  }

  // ----- Strings (section 7) -----

  /** The value of a hexadecimal digit, or -1. */
  function Hex(c: int): int {
    if IsDigit(c) then c - ZERO
    else if 0x61 <= c <= 0x66 then c - 0x61 + 10
    else if 0x41 <= c <= 0x46 then c - 0x41 + 10
    else -1
  }

  function Hex4(t: Text, i: nat): int
    requires i + 4 <= |t|
  {
    var a, b, c, d := Hex(t[i]), Hex(t[i + 1]), Hex(t[i + 2]), Hex(t[i + 3]);
    if a < 0 || b < 0 || c < 0 || d < 0 then -1 else a * 0x1000 + b * 0x100 + c * 0x10 + d
  }

  /** The unit a two-character escape stands for, or -1. */
  function Unescape(c: int): int {
    if c == QUOTE || c == BACKSLASH || c == 0x2F then c
    else if c == 0x62 then 0x08
    else if c == 0x66 then 0x0C
    else if c == 0x6E then 0x0A
    else if c == 0x72 then 0x0D
    else if c == 0x74 then 0x09
    else -1
  }

  /** The rest of a string whose opening quote has been read. */
  function Chars(t: Text, i: nat, n: nat): (r: Parsed<Text>)
    requires i <= n <= |t|
    ensures r.Good? ==> i < r.next <= n
    decreases n - i
  {
    if i == n || t[i] < 0x20 then Bad
    else if t[i] == QUOTE then Good([], i + 1)
    else if t[i] != BACKSLASH then After(t[i], Chars(t, i + 1, n))
    else if i + 1 == n then Bad
    else if t[i + 1] != LOWER_U then
      if Unescape(t[i + 1]) < 0 then Bad else After(Unescape(t[i + 1]), Chars(t, i + 2, n))
    else if n < i + 6 || Hex4(t, i + 2) < 0 then Bad
    else After(Hex4(t, i + 2), Chars(t, i + 6, n))
  }

  function After(unit: int, rest: Parsed<Text>): Parsed<Text> {
    if rest.Bad? then Bad else Good([unit] + rest.value, rest.next)
  }

  // ----- Numbers (section 6) -----

  /** The end of a non-empty run of digits, or i itself when there is none. */
  function Integer(t: Text, i: nat, n: nat): (j: nat)
    requires i <= n <= |t|
    ensures i <= j <= n
  {
    if i < n && t[i] == ZERO then i + 1 else Digits(t, i, n)
  }

  function Fraction(t: Text, i: nat, n: nat): Option<nat>
    requires i <= n <= |t|
  {
    if i == n || t[i] != DOT then Some(i)
    else if Digits(t, i + 1, n) == i + 1 then None
    else Some(Digits(t, i + 1, n))
  }

  function Exponent(t: Text, i: nat, n: nat): Option<nat>
    requires i <= n <= |t|
  {
    if i == n || (t[i] != 0x65 && t[i] != 0x45) then Some(i)
    else
      var s := if i + 1 < n && (t[i + 1] == PLUS || t[i + 1] == MINUS) then i + 2 else i + 1;
      if Digits(t, s, n) == s then None else Some(Digits(t, s, n))
  }

  /** The end of the number that starts at i. */
  function NumberEnd(t: Text, i: nat, n: nat): (r: Option<nat>)
    requires i <= n <= |t|
    ensures r.Some? ==> i < r.value <= n
  {
    var s := if i < n && t[i] == MINUS then i + 1 else i;
    var p := Integer(t, s, n);
    if p == s then None
    else
      var f := Fraction(t, p, n);
      if f.None? then None else Exponent(t, f.value, n)
  }

  // ----- Values (sections 3 to 5) -----

  predicate At(t: Text, i: nat, n: nat, c: int)
    requires i <= n <= |t|
  {
    i < n && t[i] == c
  }

  predicate Reads(t: Text, i: nat, n: nat, word: Text)
    requires i <= n <= |t|
  {
    i + |word| <= n && t[i..i + |word|] == word
  }

  function ParseValue(t: Text, i: nat, n: nat): (r: Parsed<Value>)
    requires i <= n <= |t|
    ensures r.Good? ==> i < r.next <= n
    decreases n - i, 0
  {
    if i == n then Bad
    else if t[i] == QUOTE then
      var r := Chars(t, i + 1, n);
      if r.Bad? then Bad else Good(Str(r.value), r.next)
    else if t[i] == LBRACE then
      var j := SkipWs(t, i + 1, n);
      if At(t, j, n, RBRACE) then Good(Obj([]), j + 1)
      else
        var r := ParseMembers(t, j, n);
        if r.Bad? then Bad else Good(Obj(r.value), r.next)
    else if t[i] == LBRACKET then
      var j := SkipWs(t, i + 1, n);
      if At(t, j, n, RBRACKET) then Good(Arr([]), j + 1)
      else
        var r := ParseItems(t, j, n);
        if r.Bad? then Bad else Good(Arr(r.value), r.next)
    else if Reads(t, i, n, TRUE) then Good(Bool(true), i + 4)
    else if Reads(t, i, n, FALSE) then Good(Bool(false), i + 5)
    else if Reads(t, i, n, NULL) then Good(Null, i + 4)
    else
      var e := NumberEnd(t, i, n);
      if e.None? then Bad else Good(Num(t[i..e.value]), e.value)
  }

  /** A member's key and colon; `next` is where its value starts. */
  function Key(t: Text, i: nat, n: nat): (r: Parsed<Text>)
    requires i <= n <= |t|
    ensures r.Good? ==> i < r.next <= n
  {
    if !At(t, i, n, QUOTE) then Bad
    else
      var key := Chars(t, i + 1, n);
      if key.Bad? then Bad
      else
        var colon := SkipWs(t, key.next, n);
        if !At(t, colon, n, COLON) then Bad else Good(key.value, SkipWs(t, colon + 1, n))
  }

  /** What follows an element: a comma (true, `next` is the next element) or `closer` (false). */
  function Separator(t: Text, i: nat, n: nat, closer: int): (r: Parsed<bool>)
    requires i <= n <= |t|
    ensures r.Good? ==> i < r.next <= n
    ensures r.Good? && !r.value ==> t[r.next - 1] == closer
  {
    var e := SkipWs(t, i, n);
    if At(t, e, n, closer) then Good(false, e + 1)
    else if At(t, e, n, COMMA) then Good(true, SkipWs(t, e + 1, n))
    else Bad
  }

  function ParseMember(t: Text, i: nat, n: nat): (r: Parsed<Member>)
    requires i <= n <= |t|
    ensures r.Good? ==> i < r.next <= n
    decreases n - i, 1
  {
    var k := Key(t, i, n);
    if k.Bad? then Bad
    else
      var v := ParseValue(t, k.next, n);
      if v.Bad? then Bad else Good(Member(k.value, v.value), v.next)
  }

  /** One or more members and the closing brace. */
  function ParseMembers(t: Text, i: nat, n: nat): (r: Parsed<seq<Member>>)
    requires i <= n <= |t|
    ensures r.Good? ==> i < r.next <= n && t[r.next - 1] == RBRACE
    decreases n - i, 2
  {
    var m := ParseMember(t, i, n);
    if m.Bad? then Bad
    else
      var s := Separator(t, m.next, n, RBRACE);
      if s.Bad? then Bad
      else if !s.value then Good([m.value], s.next)
      else
        var rest := ParseMembers(t, s.next, n);
        if rest.Bad? then Bad else Good([m.value] + rest.value, rest.next)
  }

  /** One or more items and the closing bracket. */
  function ParseItems(t: Text, i: nat, n: nat): (r: Parsed<seq<Value>>)
    requires i <= n <= |t|
    ensures r.Good? ==> i < r.next <= n && t[r.next - 1] == RBRACKET
    decreases n - i, 1
  {
    var v := ParseValue(t, i, n);
    if v.Bad? then Bad
    else
      var s := Separator(t, v.next, n, RBRACKET);
      if s.Bad? then Bad
      else if !s.value then Good([v.value], s.next)
      else
        var rest := ParseItems(t, s.next, n);
        if rest.Bad? then Bad else Good([v.value] + rest.value, rest.next)
  }

  /** JSON.parse(t.substring(i, n)); None is the exception. */
  function ParseRange(t: Text, i: nat, n: nat): Option<Value>
    requires i <= n <= |t|
  {
    var r := ParseValue(t, SkipWs(t, i, n), n);
    if r.Good? && SkipWs(t, r.next, n) == n then Some(r.value) else None
  }

  function Parse(t: Text): Option<Value> {
    ParseRange(t, 0, |t|)
  }

  // ----- A value that parses inside a longer range parses the same when the range ends with it -----

  lemma SkipWsShorter(t: Text, i: nat, n: nat, m: nat)
    requires i <= n <= |t| && SkipWs(t, i, n) <= m <= n
    ensures SkipWs(t, i, m) == SkipWs(t, i, n)
    decreases n - i
  {
  }

  lemma DigitsShorter(t: Text, i: nat, n: nat, m: nat)
    requires i <= n <= |t| && Digits(t, i, n) <= m <= n
    ensures Digits(t, i, m) == Digits(t, i, n)
    decreases n - i
  {
  }

  lemma CharsShorter(t: Text, i: nat, n: nat, m: nat)
    requires i <= n <= |t|
    requires Chars(t, i, n).Good? && Chars(t, i, n).next <= m <= n
    ensures Chars(t, i, m) == Chars(t, i, n)
    decreases n - i
  {
  }

  lemma IntegerShorter(t: Text, i: nat, n: nat, m: nat)
    requires i <= n <= |t| && Integer(t, i, n) <= m <= n
    ensures Integer(t, i, m) == Integer(t, i, n)
  {
    if !(i < n && t[i] == ZERO) { DigitsShorter(t, i, n, m); }
  }

  lemma FractionShorter(t: Text, i: nat, n: nat, m: nat)
    requires i <= n <= |t| && Fraction(t, i, n).Some? && i <= Fraction(t, i, n).value <= m <= n
    ensures Fraction(t, i, m) == Fraction(t, i, n)
  {
    if i < n && t[i] == DOT { DigitsShorter(t, i + 1, n, m); }
  }

  lemma ExponentShorter(t: Text, i: nat, n: nat, m: nat)
    requires i <= n <= |t| && Exponent(t, i, n).Some? && i <= Exponent(t, i, n).value <= m <= n
    ensures Exponent(t, i, m) == Exponent(t, i, n)
  {
    if i < n && (t[i] == 0x65 || t[i] == 0x45) {
      DigitsShorter(t, if i + 1 < n && (t[i + 1] == PLUS || t[i + 1] == MINUS) then i + 2 else i + 1, n, m);
    }
  }

  lemma NumberShorter(t: Text, i: nat, n: nat, m: nat)
    requires i <= n <= |t|
    requires NumberEnd(t, i, n).Some? && NumberEnd(t, i, n).value <= m <= n
    ensures NumberEnd(t, i, m) == NumberEnd(t, i, n)
  {
    var s := if i < n && t[i] == MINUS then i + 1 else i;
    var p := Integer(t, s, n);
    var f := Fraction(t, p, n).value;
    IntegerShorter(t, s, n, m);
    FractionShorter(t, p, n, m);
    ExponentShorter(t, f, n, m);
  }

  lemma {:induction false} ValueShorter(t: Text, i: nat, n: nat, m: nat)
    requires i <= n <= |t|
    requires ParseValue(t, i, n).Good? && ParseValue(t, i, n).next <= m <= n
    ensures ParseValue(t, i, m) == ParseValue(t, i, n)
    decreases n - i, 0
  {
    if t[i] == QUOTE {
      CharsShorter(t, i + 1, n, m);
    } else if t[i] == LBRACE {
      var j := SkipWs(t, i + 1, n);
      SkipWsShorter(t, i + 1, n, m);
      if !At(t, j, n, RBRACE) { MembersShorter(t, j, n, m); }
    } else if t[i] == LBRACKET {
      var j := SkipWs(t, i + 1, n);
      SkipWsShorter(t, i + 1, n, m);
      if !At(t, j, n, RBRACKET) { ItemsShorter(t, j, n, m); }
    } else if !Reads(t, i, n, TRUE) && !Reads(t, i, n, FALSE) && !Reads(t, i, n, NULL) {
      NumberShorter(t, i, n, m);
    }
  }

  lemma KeyShorter(t: Text, i: nat, n: nat, m: nat)
    requires i <= n <= |t|
    requires Key(t, i, n).Good? && Key(t, i, n).next <= m <= n
    ensures Key(t, i, m) == Key(t, i, n)
  {
    var key := Chars(t, i + 1, n);
    var colon := SkipWs(t, key.next, n);
    CharsShorter(t, i + 1, n, m);
    SkipWsShorter(t, key.next, n, m);
    SkipWsShorter(t, colon + 1, n, m);
  }

  lemma SeparatorShorter(t: Text, i: nat, n: nat, m: nat, closer: int)
    requires i <= n <= |t|
    requires Separator(t, i, n, closer).Good? && Separator(t, i, n, closer).next <= m <= n
    ensures Separator(t, i, m, closer) == Separator(t, i, n, closer)
  {
    var e := SkipWs(t, i, n);
    SkipWsShorter(t, i, n, m);
    if !At(t, e, n, closer) { SkipWsShorter(t, e + 1, n, m); }
  }

  lemma {:induction false} MemberShorter(t: Text, i: nat, n: nat, m: nat)
    requires i <= n <= |t|
    requires ParseMember(t, i, n).Good? && ParseMember(t, i, n).next <= m <= n
    ensures ParseMember(t, i, m) == ParseMember(t, i, n)
    decreases n - i, 1
  {
    KeyShorter(t, i, n, m);
    ValueShorter(t, Key(t, i, n).next, n, m);
  }

  lemma {:induction false} MembersShorter(t: Text, i: nat, n: nat, m: nat)
    requires i <= n <= |t|
    requires ParseMembers(t, i, n).Good? && ParseMembers(t, i, n).next <= m <= n
    ensures ParseMembers(t, i, m) == ParseMembers(t, i, n)
    decreases n - i, 2
  {
    var x := ParseMember(t, i, n);
    var s := Separator(t, x.next, n, RBRACE);
    MemberShorter(t, i, n, m);
    SeparatorShorter(t, x.next, n, m, RBRACE);
    if s.value { MembersShorter(t, s.next, n, m); }
  }

  lemma {:induction false} ItemsShorter(t: Text, i: nat, n: nat, m: nat)
    requires i <= n <= |t|
    requires ParseItems(t, i, n).Good? && ParseItems(t, i, n).next <= m <= n
    ensures ParseItems(t, i, m) == ParseItems(t, i, n)
    decreases n - i, 1
  {
    var v := ParseValue(t, i, n);
    var s := Separator(t, v.next, n, RBRACKET);
    ValueShorter(t, i, n, m);
    SeparatorShorter(t, v.next, n, m, RBRACKET);
    if s.value { ItemsShorter(t, s.next, n, m); }
  }
}
