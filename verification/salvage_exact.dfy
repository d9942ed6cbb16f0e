/** What the salvage recovers from a printed envelope that was cut off: its text, and exactly the
    blocks that were complete. */
module SalvageExact {
  import opened Json
  import opened JsonPrinter
  import opened EnvelopeScanner
  import opened Salvage
  import opened Texts
  import opened Wrappers

  // ----- The printed envelope -----

  function EnvelopeMembers(text: Text, roomName: Option<Text>, blocks: seq<Value>): seq<Member> {
    var first, last := Member(K_TEXT, Str(text)), Member(K_BLOCKS, Arr(blocks));
    if roomName.Some? then [first, Member(K_ROOM_NAME, Str(roomName.value)), last] else [first, last]
  }

  function PrintEnvelope(text: Text, roomName: Option<Text>, blocks: seq<Value>): Text {
    Print(Obj(EnvelopeMembers(text, roomName, blocks)))
  }

  ghost predicate AreBlocks(blocks: seq<Value>) {
    forall b :: b in blocks ==> b.Obj? && Printable(b)
  }

  ghost predicate IsEnvelope(text: Text, roomName: Option<Text>, blocks: seq<Value>) {
    IsUnits(text) && (roomName.Some? ==> IsUnits(roomName.value)) && AreBlocks(blocks)
  }

  /** Just after the text field's closing quote. */
  function TextEnd(text: Text): nat {
    |Escaped(text)| + 10
  }

  /** Where the comma before the key `blocks` stands. */
  function BlocksComma(text: Text, roomName: Option<Text>): nat {
    TextEnd(text) + if roomName.Some? then |Escaped(roomName.value)| + 15 else 0
  }

  /** Where the first block starts. */
  function ItemsAt(text: Text, roomName: Option<Text>): nat {
    BlocksComma(text, roomName) + 11
  }

  /** The leading blocks whose printed form ends within `room` units, commas counted. */
  function Fitting(blocks: seq<Value>, room: int): seq<Value>
    decreases |blocks|
  {
    if blocks == [] || |Print(blocks[0])| > room then []
    else [blocks[0]] + Fitting(blocks[1..], room - |Print(blocks[0])| - 1)
  }

  // ----- Where everything stands -----

  /** `key`, quoted and followed by its colon. */
  ghost predicate Keyed(t: Text, i: nat, key: Text) {
    Stands(t, i, |t|, [QUOTE] + key + [QUOTE] + [COLON])
  }

  /** A member whose value is the string s. */
  ghost predicate StringField(t: Text, i: nat, key: Text, s: Text) {
    Keyed(t, i, key) && Stands(t, i + |key| + 3, |t|, Quoted(s))
  }

  /** Everything the salvage relies on, for the text t of an envelope and its control states cs. */
  ghost predicate Shape(t: Text, cs: seq<Control>, text: Text, roomName: Option<Text>, blocks: seq<Value>) {
    var comma, items := BlocksComma(text, roomName), ItemsAt(text, roomName);
    && items < |t|
    && t[0] == LBRACE && StringField(t, 1, K_TEXT, text) && t[TextEnd(text)] == COMMA
    && (roomName.Some? ==> StringField(t, TextEnd(text) + 1, K_ROOM_NAME, roomName.value))
    && t[comma] == COMMA && Keyed(t, comma + 1, K_BLOCKS) && t[items - 1] == LBRACKET
    && Stands(t, items, |t|, PrintItems(blocks) + [RBRACKET])
    && Tracks(t, cs) && cs[0] == Outside(0) && cs[items] == Outside(1) && Crosses(cs, 1, |t| - 1, 1)
    && Clear(t)
  }

  /** No control characters. */
  ghost predicate Clear(s: Text) {
    forall k :: 0 <= k < |s| ==> s[k] >= 0x20
  }

  lemma {:induction false} EscapedClear(s: Text)
    requires IsUnits(s)
    ensures Clear(Escaped(s))
  {
    if s != [] {
      assert s[0] in s && forall u :: u in s[1..] ==> u in s;
      EscapedClear(s[1..]);
    }
  }

  lemma NumberClear(lexeme: Text)
    requires IsNumber(lexeme)
    ensures Clear(lexeme)
  {
    NumberNeutral(lexeme, 0, |lexeme|);
  }

  /** Nothing that is printed holds a control character, so no line break either. */
  lemma {:induction false} PrintClear(v: Value)
    requires Printable(v)
    ensures Clear(Print(v))
    decreases v, 0
  {
    match v
    case Num(lexeme) => NumberClear(lexeme);
    case Str(s) => EscapedClear(s);
    case Arr(items) => ItemsClear(items);
    case Obj(members) => MembersClear(members);
    case _ =>
  }

  lemma {:induction false} ItemsClear(items: seq<Value>)
    requires forall x :: x in items ==> Printable(x)
    ensures Clear(PrintItems(items))
    decreases items, 0
  {
    if items != [] {
      PrintClear(items[0]);
      ItemsClear(items[1..]);
    }
  }

  lemma {:induction false} MembersClear(members: seq<Member>)
    requires forall m :: m in members ==> IsUnits(m.key) && Printable(m.value)
    ensures Clear(PrintMembers(members))
    decreases members, 0
  {
    if members != [] {
      EscapedClear(members[0].key);
      PrintClear(members[0].value);
      MembersClear(members[1..]);
    }
  }

  lemma {:induction false} EscapedPlain(s: Text)
    requires forall k :: 0 <= k < |s| ==> s[k] >= 0x20 && s[k] != QUOTE && s[k] != BACKSLASH
    ensures Escaped(s) == s
  {
    if s != [] {
      EscapedPlain(s[1..]);
    }
  }

  /** A printed member whose key needs no escapes. */
  lemma MemberStands(m: Member, t: Text, i: nat)
    requires Stands(t, i, |t|, PrintMember(m)) && Escaped(m.key) == m.key
    ensures Keyed(t, i, m.key) && Stands(t, i + |m.key| + 3, |t|, Print(m.value))
  {
    assert PrintMember(m) == ([QUOTE] + m.key + [QUOTE] + [COLON]) + Print(m.value);
    StandsSplit(t, i, |t|, [QUOTE] + m.key + [QUOTE] + [COLON], Print(m.value));
  }

  ghost predicate AreMembers(members: seq<Member>) {
    forall m :: m in members ==> IsUnits(m.key) && Printable(m.value)
  }

  /** Past one member and its comma. */
  lemma NextMember(members: seq<Member>, t: Text, cs: seq<Control>, i: nat) returns (j: nat)
    requires |members| > 1 && AreMembers(members) && Stands(t, i, |t|, PrintMembers(members) + [RBRACE])
    requires Tracks(t, cs) && cs[i] == Outside(1)
    ensures j == i + |PrintMember(members[0])| && j < |t| && t[j] == COMMA
    ensures Stands(t, i, |t|, PrintMember(members[0]))
    ensures Stands(t, j + 1, |t|, PrintMembers(members[1..]) + [RBRACE]) && cs[j + 1] == Outside(1)
  {
    hide ParseMember, PrintMember, PrintMembers, Stands, Printable;
    j := MemberSplit(members, t, i, |t|);
    ReadsMember(members[0], t, i, |t|);
    CrossMember(t, cs, i, |t|, 1);
    assert cs[j + 1] == Step(cs[j], t[j]);
  }

  lemma LastMember(m: Member, t: Text, cs: seq<Control>, i: nat)
    requires m.value.Arr? && AreMembers([m]) && Stands(t, i, |t|, PrintMembers([m]) + [RBRACE])
    requires Tracks(t, cs) && cs[i] == Outside(1) && Escaped(m.key) == m.key
    ensures var v := i + |m.key| + 3;
            && Keyed(t, i, m.key) && v + 1 < |t| && t[v] == LBRACKET
            && Stands(t, v + 1, |t|, PrintItems(m.value.items) + [RBRACKET]) && cs[v + 1] == Outside(1)
  {
    hide Key, Crosses, PrintMembers, Printable, IsUnits, Stands, Delimited, SkipWs;
    assert m in [m];
    var _ := MemberSplit([m], t, i, |t|);
    MemberStands(m, t, i);
    var v := ReadsKey(m, t, i, |t|);
    CrossKey(t, cs, i, |t|, 1);
    CrossedTo(cs, i, v, 1);
    assert v < |t| ==> cs[v + 1] == Step(cs[v], t[v]);
    var inside := PrintItems(m.value.items) + [RBRACKET];
    assert Print(m.value) == [LBRACKET] + inside;
    StandsFirst(t, v, |t|, LBRACKET, inside);
  }

  lemma NextField(members: seq<Member>, t: Text, cs: seq<Control>, i: nat) returns (j: nat)
    requires |members| > 1 && AreMembers(members) && Stands(t, i, |t|, PrintMembers(members) + [RBRACE])
    requires Tracks(t, cs) && cs[i] == Outside(1)
    requires members[0].value.Str? && Escaped(members[0].key) == members[0].key
    ensures j == i + |members[0].key| + |Escaped(members[0].value.s)| + 5 && j < |t| && t[j] == COMMA
    ensures StringField(t, i, members[0].key, members[0].value.s)
    ensures Stands(t, j + 1, |t|, PrintMembers(members[1..]) + [RBRACE]) && cs[j + 1] == Outside(1)
  {
    hide PrintMembers, Tracks, AreMembers;
    j := NextMember(members, t, cs, i);
    MemberStands(members[0], t, i);
  }

  lemma ShapeOfEnvelope(text: Text, roomName: Option<Text>, blocks: seq<Value>)
    requires IsEnvelope(text, roomName, blocks)
    ensures var t := PrintEnvelope(text, roomName, blocks); Shape(t, Trace(t), text, roomName, blocks)
  {
    hide *;
    var members := EnvelopeMembers(text, roomName, blocks);
    var t := PrintEnvelope(text, roomName, blocks);
    var cs := Trace(t);
    EnvelopeParts(text, roomName, blocks);
    Sizes(text, roomName);
    EnvelopeTracked(members, t, cs);
    var i := NextField(members, t, cs, 1);
    if roomName.Some? {
      i := NextField(members[1..], t, cs, i + 1);
    }
    LastMember(Member(K_BLOCKS, Arr(blocks)), t, cs, i + 1);
    ShapeHolds(t, cs, text, roomName, blocks, i);
  }

  lemma EnvelopeParts(text: Text, roomName: Option<Text>, blocks: seq<Value>)
    requires IsEnvelope(text, roomName, blocks)
    ensures var members := EnvelopeMembers(text, roomName, blocks);
            var last := [Member(K_BLOCKS, Arr(blocks))];
            && AreMembers(members) && PrintEnvelope(text, roomName, blocks) == Print(Obj(members))
            && |members| == (if roomName.Some? then 3 else 2) && members[0] == Member(K_TEXT, Str(text))
            && (roomName.Some? ==> members[1] == Member(K_ROOM_NAME, Str(roomName.value)))
            && AreMembers(members[1..]) && AreMembers(last)
            && last == if roomName.Some? then members[1..][1..] else members[1..]
  {
    var last := Member(K_BLOCKS, Arr(blocks));
    var members := EnvelopeMembers(text, roomName, blocks);
    assert Printable(last.value) && IsUnits(last.key);
    assert members[1..] == if roomName.Some? then [members[1], last] else [last];
    assert roomName.Some? ==> members[1..][1..] == [last];
  }

  lemma Sizes(text: Text, roomName: Option<Text>)
    ensures Escaped(K_TEXT) == K_TEXT && Escaped(K_ROOM_NAME) == K_ROOM_NAME && Escaped(K_BLOCKS) == K_BLOCKS
    ensures |K_TEXT| == 4 && |K_ROOM_NAME| == 9 && |K_BLOCKS| == 6
    ensures TextEnd(text) == 1 + |K_TEXT| + |Escaped(text)| + 5
    ensures roomName.None? ==> BlocksComma(text, roomName) == TextEnd(text)
    ensures roomName.Some? ==>
              BlocksComma(text, roomName) == TextEnd(text) + 1 + |K_ROOM_NAME| + |Escaped(roomName.value)| + 5
  {
    hide Escaped;
    EscapedPlain(K_TEXT);
    EscapedPlain(K_ROOM_NAME);
    EscapedPlain(K_BLOCKS);
  }

  lemma ShapeHolds(t: Text, cs: seq<Control>, text: Text, roomName: Option<Text>, blocks: seq<Value>, comma: nat)
    requires |t| > 1 && Tracks(t, cs) && cs[0] == Outside(0) && Crosses(cs, 1, |t| - 1, 1) && Clear(t)
    requires TextEnd(text) < |t| && t[0] == LBRACE && StringField(t, 1, K_TEXT, text) && t[TextEnd(text)] == COMMA
    requires roomName.Some? ==> StringField(t, TextEnd(text) + 1, K_ROOM_NAME, roomName.value)
    requires comma == BlocksComma(text, roomName) && comma + 11 < |t| && t[comma] == COMMA
    requires Keyed(t, comma + 1, K_BLOCKS) && t[comma + 10] == LBRACKET
    requires Stands(t, comma + 11, |t|, PrintItems(blocks) + [RBRACKET]) && cs[comma + 11] == Outside(1)
    ensures Shape(t, cs, text, roomName, blocks)
  {
  }

  lemma EnvelopeTracked(members: seq<Member>, t: Text, cs: seq<Control>)
    requires members != [] && AreMembers(members) && t == Print(Obj(members)) && cs == Trace(t)
    ensures |t| > 1 && t[0] == LBRACE && Stands(t, 1, |t|, PrintMembers(members) + [RBRACE])
    ensures Tracks(t, cs) && cs[0] == Outside(0) && cs[1] == Outside(1) && Crosses(cs, 1, |t| - 1, 1) && Clear(t)
  {
    assert t == [LBRACE] + (PrintMembers(members) + [RBRACE]);
    assert t[0..|t|] == t;
    ReadsObject(members, t, 0, |t|);
    StandsFirst(t, 0, |t|, LBRACE, PrintMembers(members) + [RBRACE]);
    CrossInside(t, cs, 0, |t|, 0);
    PrintClear(Obj(members));
  }

  // ----- No complete envelope: the first two stages give up -----

  lemma PrefixTracks(t: Text, cs: seq<Control>, k: nat)
    requires Tracks(t, cs) && k <= |t|
    ensures Tracks(t[..k], cs[..k + 1])
  {
    forall i {:trigger cs[i], t[i]} | 0 <= i < k
      ensures cs[..k + 1][i + 1] == Step(cs[..k + 1][i], t[..k][i])
    {
      assert cs[i + 1] == Step(cs[i], t[i]);
    }
  }

  /** Inside its outer braces a prefix of an object completes no object. */
  lemma PrefixIsQuiet(t: Text, cs: seq<Control>, k: nat)
    requires Tracks(t, cs) && 1 <= k < |t| && t[0] == LBRACE && cs[0] == Outside(0) && Crosses(cs, 1, |t| - 1, 1)
    ensures CompleteOutput(t[..k]).None?
  {
    var p, ps := t[..k], cs[..k + 1];
    PrefixTracks(t, cs, k);
    ScanQuiet(p, ps, 1, k, 0);
    QuietScanEnds(p, ps[1], ps[k]);
    if Parse(p).Some? && Parse(p).value.Obj? { WholeTextAgrees(p); }
  }

  lemma QuietScanEnds(p: Text, c: Control, last: Control)
    requires 1 <= |p| && p[0] == LBRACE && c == Outside(1) && Scan(p, 1, c, 0) == Scan(p, |p|, last, 0)
    ensures Scan(p, 0, Outside(0), 0) == []
  {
    assert Scan(p, 0, Outside(0), 0) == [] + Scan(p, 1, c, 0);
  }

  // ----- The fences -----

  lemma {:induction false} NoFencedTail(p: Text, i: nat)
    requires i <= |p| && Clear(p)
    ensures CutFencedTail(p, i) == p
    decreases |p| - i
  {
    if i < |p| { NoFencedTail(p, i + 1); }
  }

  /** What a closing fence is made of. */
  predicate FenceUnit(c: int) {
    c == BACKTICK || IsTrimmed(c)
  }

  lemma {:induction false} OnlyFenceIsCut(p: Text, i: nat)
    requires i <= |p|
    ensures CutClosingFence(p, i) <= p
    ensures forall k :: |CutClosingFence(p, i)| <= k < |p| ==> FenceUnit(p[k])
    decreases |p| - i
  {
    if i < |p| {
      if Starts(p, i, FENCE) && SkipSpace(p, i + 3) == |p| {
        forall k | i <= k < |p| ensures FenceUnit(p[k]) {
          if k < i + 3 { assert p[k] == p[i..i + 3][k - i]; }
        }
      } else {
        OnlyFenceIsCut(p, i + 1);
      }
    }
  }

  // ----- The text field -----

  lemma KeyFound(t: Text, i: nat, key: Text, k: nat)
    requires Keyed(t, i, key) && i + |key| + 3 < k <= |t| && !IsTrimmed(t[i + |key| + 3])
    ensures KeyAt(t[..k], i, key) == Some(i + |key| + 3)
  {
    var p := t[..k];
    var word := [QUOTE] + key + [QUOTE];
    StandsSplit(t, i, |t|, word, [COLON]);
    StandsAt(t, i + |word|, |t|, [COLON], 0);
    assert p[i..i + |word|] == t[i..i + |word|];
  }

  /** The regular expression for a string's body stops at the closing quote. */
  lemma {:induction false} BodyOfEscaped(s: Text, t: Text, i: nat, n: nat)
    requires IsUnits(s) && Stands(t, i, n, Escaped(s) + [QUOTE])
    ensures StringBody(t[..n], i) == i + |Escaped(s)| < n && t[i + |Escaped(s)|] == QUOTE
  {
    hide *;
    if s == [] {
      BodyEnds(t, i, n);
    } else {
      var j := EscapedSplit(s, t, i, n);
      BodyPasses(s[0], t, i, n);
      BodyOfEscaped(s[1..], t, j, n);
    }
  }

  lemma BodyEnds(t: Text, i: nat, n: nat)
    requires Stands(t, i, n, Escaped([]) + [QUOTE])
    ensures StringBody(t[..n], i) == i + |Escaped([])| < n && t[i + |Escaped([])|] == QUOTE
  {
    StandsFirst(t, i, n, QUOTE, []);
  }

  lemma BodyPasses(u: int, t: Text, i: nat, n: nat)
    requires 0 <= u < 0x1_0000 && Stands(t, i, n, EscapeUnit(u))
    ensures StringBody(t[..n], i) == StringBody(t[..n], i + |EscapeUnit(u)|)
  {
    var unit, p := EscapeUnit(u), t[..n];
    StandsAt(t, i, n, unit, 0);
    if |unit| > 1 {
      StandsAt(t, i, n, unit, 1);
      assert StringBody(p, i) == StringBody(p, i + 2);
    }
    if |unit| == 6 {
      hide EscapeUnit, Stands;
      PlainPasses(u, t, i, n, 2);
      PlainPasses(u, t, i, n, 3);
      PlainPasses(u, t, i, n, 4);
      PlainPasses(u, t, i, n, 5);
    }
  }

  /** The four digits of a long escape. */
  lemma PlainPasses(u: int, t: Text, i: nat, n: nat, k: nat)
    requires 0 <= u && Stands(t, i, n, EscapeUnit(u)) && 2 <= k < |EscapeUnit(u)| == 6
    ensures StringBody(t[..n], i + k) == StringBody(t[..n], i + k + 1)
  {
    StandsAt(t, i, n, EscapeUnit(u), k);
  }

  lemma NotAKey(p: Text, i: nat, key: Text)
    requires i < |p| && p[i] != QUOTE
    ensures KeyAt(p, i, key).None?
  {
    var word := [QUOTE] + key + [QUOTE];
    if i + |word| <= |p| { assert p[i] == p[i..i + |word|][0]; }
  }

  lemma FieldAtOne(p: Text, end: nat)
    requires 9 <= end < |p| && p[0] == LBRACE && KeyAt(p, 1, K_TEXT) == Some(8)
    requires p[8] == QUOTE && p[end] == QUOTE && StringBody(p, 9) == end
    ensures TextField(p, 0) == Some(Span(9, end)) && EnvelopeStart(p, 0) == Some(0)
  {
    hide KeyAt, StringBody;
    NotAKey(p, 0, K_TEXT);
    if p[1] != QUOTE { NotAKey(p, 1, K_TEXT); }
    assert SkipSpace(p, 1) == 1;
    assert TextField(p, 0) == TextField(p, 1);
  }

  lemma SliceOfPrefix(t: Text, k: nat, i: nat, j: nat)
    requires i <= j <= k <= |t|
    ensures t[..k][i..j] == t[i..j]
  {
  }

  lemma TextFound(t: Text, text: Text, k: nat)
    requires IsUnits(text) && StringField(t, 1, K_TEXT, text) && TextEnd(text) <= k <= |t| && t[0] == LBRACE
    ensures EnvelopeStart(t[..k], 0) == Some(0)
    ensures TextField(t[..k], 0) == Some(Span(9, TextEnd(text) - 1))
    ensures t[..k][9..TextEnd(text) - 1] == Escaped(text)
  {
    hide Keyed, KeyAt, StringBody, Escaped, TextField, EnvelopeStart;
    var p := t[..k];
    var inside := Escaped(text) + [QUOTE];
    assert Quoted(text) == [QUOTE] + inside;
    StandsFirst(t, 8, |t|, QUOTE, inside);
    KeyFound(t, 1, K_TEXT, k);
    BodyOfEscaped(text, t, 9, k);
    FieldAtOne(p, TextEnd(text) - 1);
    StandsSplit(t, 9, |t|, Escaped(text), [QUOTE]);
    SliceOfPrefix(t, k, 9, TextEnd(text) - 1);
  }

  // ----- Where the blocks begin -----

  /** What a key `blocks` with its colon needs at i. */
  ghost predicate KeyPossible(p: Text, i: nat) {
    && i + 8 < |p| && p[i] == QUOTE && p[i + 7] == QUOTE && p[i + 8] != COMMA
    && forall k :: 0 <= k < 6 ==> p[i + 1 + k] == K_BLOCKS[k]
  }

  lemma KeyNeeds(p: Text, i: nat)
    requires i <= |p| && BlocksAt(p, i).Some?
    ensures KeyPossible(p, i)
  {
    var word := [QUOTE] + K_BLOCKS + [QUOTE];
    assert Starts(p, i, word);
    StandsAt(p, i, |p|, word, 0);
    StandsAt(p, i, |p|, word, 7);
    forall k | 0 <= k < 6 ensures p[i + 1 + k] == K_BLOCKS[k] {
      StandsAt(p, i, |p|, word, k + 1);
    }
  }

  /** Inside a printed string every quote is escaped. */
  lemma {:induction false} QuotesAreEscaped(s: Text, k: nat)
    requires IsUnits(s) && k < |Escaped(s)| && Escaped(s)[k] == QUOTE
    ensures 0 < k && Escaped(s)[k - 1] == BACKSLASH
    decreases |s|
  {
    var w := |EscapeUnit(s[0])|;
    assert s[0] in s && forall u :: u in s[1..] ==> u in s;
    if k >= w {
      assert Escaped(s)[k] == Escaped(s[1..])[k - w];
      QuotesAreEscaped(s[1..], k - w);
      assert Escaped(s)[k - 1] == Escaped(s[1..])[k - w - 1];
    } else {
      assert forall m :: 0 <= m < w ==> Escaped(s)[m] == EscapeUnit(s[0])[m];
    }
  }

  lemma KeyLetter(p: Text, i: nat, k: nat)
    requires KeyPossible(p, i) && k < 6
    ensures p[i + 1 + k] == K_BLOCKS[k]
  {
  }

  lemma NoKeyInString(t: Text, a: nat, s: Text, k: nat, j: nat)
    requires IsUnits(s) && Stands(t, a, |t|, Quoted(s)) && a + |Quoted(s)| < |t| && t[a + |Quoted(s)|] == COMMA
    requires k <= |t| && a <= j <= a + |Quoted(s)|
    ensures !KeyPossible(t[..k], j)
  {
    hide Stands, Escaped;
    var p, b := t[..k], a + |Quoted(s)|;
    if KeyPossible(p, j) {
      assert t[j] == QUOTE && t[j + 7] == QUOTE && t[j + 8] != COMMA && j < b;
      KeyLetter(p, j, 0);
      KeyLetter(p, j, 5);
      StandsAt(t, a, |t|, Quoted(s), |Quoted(s)| - 1);
      if j + 7 < b - 1 {
        StandsAt(t, a, |t|, Quoted(s), j + 7 - a);
        StandsAt(t, a, |t|, Quoted(s), j + 6 - a);
        QuotesAreEscaped(s, j + 6 - a);
      } else if j < b - 1 < j + 7 {
        KeyLetter(p, j, b - 2 - j);
      }
    }
  }

  lemma NoKeyInField(t: Text, i: nat, key: Text, s: Text, k: nat, j: nat)
    requires IsUnits(s) && (key == K_TEXT || key == K_ROOM_NAME)
    requires StringField(t, i, key, s) && i + |key| + 3 + |Quoted(s)| < |t| && t[i + |key| + 3 + |Quoted(s)|] == COMMA
    requires k <= |t| && i <= j <= i + |key| + 3 + |Quoted(s)|
    ensures !KeyPossible(t[..k], j)
  {
    hide Stands, Quoted;
    var p, word := t[..k], [QUOTE] + key + [QUOTE] + [COLON];
    if j < i + |word| {
      StandsAt(t, i, |t|, word, j - i);
      if j + 1 < i + |word| { StandsAt(t, i, |t|, word, j + 1 - i); }
      if KeyPossible(p, j) { KeyLetter(p, j, 0); }
    } else {
      NoKeyInString(t, i + |key| + 3, s, k, j);
    }
  }

  lemma NoKeyBefore(t: Text, cs: seq<Control>, text: Text, roomName: Option<Text>, blocks: seq<Value>, k: nat, j: nat)
    requires IsEnvelope(text, roomName, blocks) && Shape(t, cs, text, roomName, blocks)
    requires k <= |t| && j <= BlocksComma(text, roomName)
    ensures !KeyPossible(t[..k], j)
  {
    hide KeyPossible, StringField, Tracks, Crosses, Stands, Clear;
    if j == 0 {
      NotPossible(t[..k], 0);
    } else if j <= TextEnd(text) {
      NoKeyInField(t, 1, K_TEXT, text, k, j);
    } else {
      NoKeyInField(t, TextEnd(text) + 1, K_ROOM_NAME, roomName.value, k, j);
    }
  }

  lemma NotPossible(p: Text, i: nat)
    requires i < |p| ==> p[i] != QUOTE
    ensures !KeyPossible(p, i)
  {
  }

  lemma {:induction false} KeySkipped(p: Text, i: nat, j: nat)
    requires i <= j <= |p| && forall q :: i <= q < j ==> !KeyPossible(p, q)
    ensures BlocksStart(p, i) == BlocksStart(p, j)
    decreases j - i
  {
    if i < j {
      if BlocksAt(p, i).Some? { KeyNeeds(p, i); }
      KeySkipped(p, i + 1, j);
    }
  }

  /** The search for the key ends at the real one, or nowhere when the text stops before its bracket. */
  lemma BlocksFound(t: Text, cs: seq<Control>, text: Text, roomName: Option<Text>, blocks: seq<Value>, k: nat)
    requires IsEnvelope(text, roomName, blocks) && Shape(t, cs, text, roomName, blocks) && k <= |t|
    ensures var at := ItemsAt(text, roomName); BlocksStart(t[..k], 0) == if at <= k then Some(at) else None
  {
    hide *;
    var p, i := t[..k], BlocksComma(text, roomName) + 1;
    var upto := if i <= k then i else k;
    NoKeyUpTo(t, cs, text, roomName, blocks, k);
    KeyStands(t, cs, text, roomName, blocks);
    KeySkipped(p, 0, upto);
    if i < k { BlocksAtKey(t, i, k); } else { NoKeyAtEnd(p); }
  }

  lemma KeyStands(t: Text, cs: seq<Control>, text: Text, roomName: Option<Text>, blocks: seq<Value>)
    requires Shape(t, cs, text, roomName, blocks)
    ensures var i := BlocksComma(text, roomName) + 1;
            Keyed(t, i, K_BLOCKS) && i + 9 < |t| && t[i + 9] == LBRACKET && ItemsAt(text, roomName) == i + 10
  {
    hide StringField, Keyed, Tracks, Crosses, Stands, Clear;
  }

  lemma NoKeyAtEnd(p: Text)
    ensures BlocksStart(p, |p|) == None
  {
  }

  lemma NoKeyUpTo(t: Text, cs: seq<Control>, text: Text, roomName: Option<Text>, blocks: seq<Value>, k: nat)
    requires IsEnvelope(text, roomName, blocks) && Shape(t, cs, text, roomName, blocks) && k <= |t|
    ensures forall j :: 0 <= j <= BlocksComma(text, roomName) ==> !KeyPossible(t[..k], j)
  {
    hide KeyPossible, IsEnvelope, Shape;
    forall j | 0 <= j <= BlocksComma(text, roomName) ensures !KeyPossible(t[..k], j) {
      NoKeyBefore(t, cs, text, roomName, blocks, k, j);
    }
  }

  lemma BlocksAtKey(t: Text, i: nat, k: nat)
    requires Keyed(t, i, K_BLOCKS) && i + 9 < |t| && t[i + 9] == LBRACKET && i < k <= |t|
    ensures BlocksStart(t[..k], i) == if i + 10 <= k then Some(i + 10) else None
  {
    var p := t[..k];
    if i + 10 <= k {
      KeyFound(t, i, K_BLOCKS, k);
    } else {
      CutKey(t, i, k);
      assert forall j :: i + 1 <= j < k ==> !KeyPossible(p, j);
      KeySkipped(p, i + 1, k);
    }
  }

  lemma CutKey(t: Text, i: nat, k: nat)
    requires Keyed(t, i, K_BLOCKS) && i < k < i + 10 && k <= |t|
    ensures BlocksAt(t[..k], i).None?
  {
    var p := t[..k];
    StandsAt(t, i, |t|, [QUOTE] + K_BLOCKS + [QUOTE] + [COLON], 8);
    if BlocksAt(p, i).Some? { KeyNeeds(p, i); }
  }

  // ----- The loops against the scanner's control states -----

  /** The loops' variables when their depth count starts `lift` braces further in. */
  function Lowered(c: Control, lift: int): Cursor {
    Cursor(c.depth - lift, c.inString, c.escape)
  }

  lemma {:induction false} ObjectStaysOpen(t: Text, cs: seq<Control>, k: nat, i: nat)
    requires Tracks(t, cs) && 1 <= i <= k < |t| && Crosses(cs, 1, |t| - 1, 1)
    ensures ObjectEnd(t[..k], i, Lowered(cs[i], 0)) == k
    decreases k - i
  {
    if i < k {
      assert cs[i + 1] == Step(cs[i], t[i]);
      ObjectStaysOpen(t, cs, k, i + 1);
    }
  }

  lemma {:induction false} ObjectGoesOn(t: Text, cs: seq<Control>, i: nat, m: nat)
    requires Tracks(t, cs) && 1 <= i <= m < |t| && Crosses(cs, 1, m, 1)
    ensures ObjectEnd(t, i, Lowered(cs[i], 0)) == ObjectEnd(t, m, Lowered(cs[m], 0))
    decreases m - i
  {
    if i < m {
      assert cs[i + 1] == Step(cs[i], t[i]) && cs[i].depth >= 1 && cs[i + 1].depth >= 1;
      hide *;
      ObjectGoesOn(t, cs, i + 1, m);
      ObjectStep(t, i, cs[i]);
    }
  }

  lemma ObjectStep(t: Text, i: nat, c: Control)
    requires i < |t| && c.depth >= 1 && Step(c, t[i]).depth >= 1
    ensures ObjectEnd(t, i, Lowered(c, 0)) == ObjectEnd(t, i + 1, Lowered(Step(c, t[i]), 0))
  {
  }

  /** Whatever follows an object, its end is found: junk after it is cut off, and none of it. */
  lemma ObjectEndIsExact(t: Text)
    requires t != [] && t[0] == LBRACE && ParseValue(t, 0, |t|).Good?
    ensures ObjectEnd(t, 0, Cursor(0, false, false)) == ParseValue(t, 0, |t|).next
  {
    var cs, end := Trace(t), ParseValue(t, 0, |t|).next - 1;
    CrossInside(t, cs, 0, |t|, 0);
    CrossedTo(cs, 1, end, 1);
    ObjectGoesOn(t, cs, 1, end);
    hide ParseValue, Crosses;
    assert cs[0 + 1] == Step(cs[0], t[0]);
    ClosesThere(t, end);
  }

  lemma ClosesThere(t: Text, end: nat)
    requires 0 < end < |t| && t[end] == RBRACE
    ensures ObjectEnd(t, end, Lowered(Outside(1), 0)) == end + 1
  {
  }

  /** Inside a block nothing is completed. */
  lemma {:induction false} BlockIsQuiet(t: Text, cs: seq<Control>, k: nat, i: nat, j: nat, start: int)
    requires Tracks(t, cs) && i <= j <= k <= |t| && start < i
    requires forall m :: i <= m <= j ==> cs[m].depth >= 2
    ensures BlocksFrom(t[..k], i, Lowered(cs[i], 1), start) == BlocksFrom(t[..k], j, Lowered(cs[j], 1), start)
    decreases j - i
  {
    hide Step, Lowered, BlocksFrom;
    if i < j {
      assert cs[i + 1] == Step(cs[i], t[i]);
      hide *;
      BlockIsQuiet(t, cs, k, i + 1, j, start);
      QuietUnit(t[..k], i, cs[i], start);
    }
  }

  lemma QuietUnit(p: Text, i: nat, c: Control, start: int)
    requires i < |p| && start < i && c.depth >= 2 && Step(c, p[i]).depth >= 2
    ensures BlocksFrom(p, i, Lowered(c, 1), start) == BlocksFrom(p, i + 1, Lowered(Step(c, p[i]), 1), start)
  {
  }

  const AT_ITEM := Cursor(0, false, false)

  lemma BlockRange(b: Value, t: Text, i: nat, k: nat)
    requires Printable(b) && Stands(t, i, |t|, Print(b)) && i + |Print(b)| <= k <= |t|
    ensures ParseRange(t[..k], i, i + |Print(b)|) == Some(b)
  {
    hide ParseValue, Print, Printable;
    var p, e := t[..k], i + |Print(b)|;
    assert p[i..e] == t[i..e];
    PrintedSkips(b, p, i, e);
    ReadsPrinted(b, p, i, e);
  }

  /** Where the scanner is around and inside a block. */
  lemma BlockCrossed(b: Value, t: Text, cs: seq<Control>, i: nat)
    requires b.Obj? && Printable(b) && Stands(t, i, |t|, Print(b)) && Delimited(t, i + |Print(b)|, |t|)
    requires Tracks(t, cs) && cs[i] == Outside(1)
    ensures var e := i + |Print(b)|;
            && i + 1 < e && t[i] == LBRACE && t[e - 1] == RBRACE && cs[i + 1] == Outside(2) && cs[e - 1] == Outside(2)
            && |cs| == |t| + 1 && cs[e] == Outside(1) && forall m :: i + 1 <= m <= e - 1 ==> cs[m].depth >= 2
  {
    hide ParseValue, Printable;
    ReadsPrinted(b, t, i, |t|);
    StandsAt(t, i, |t|, Print(b), 0);
    CrossInside(t, cs, i, |t|, 1);
  }

  /** One block: completed if it ends in time, otherwise the last thing the loop sees. */
  lemma OneBlock(b: Value, t: Text, cs: seq<Control>, i: nat, k: nat)
    requires b.Obj? && Printable(b) && Stands(t, i, |t|, Print(b)) && Delimited(t, i + |Print(b)|, |t|)
    requires Tracks(t, cs) && cs[i] == Outside(1) && i <= k <= |t|
    ensures var e := i + |Print(b)|;
            BlocksFrom(t[..k], i, AT_ITEM, -1) == if e <= k then [b] + BlocksFrom(t[..k], e, AT_ITEM, -1) else []
  {
    hide *;
    var p, e := t[..k], i + |Print(b)|;
    BlockCrossed(b, t, cs, i);
    LoweredItem();
    if e <= k {
      BlockOpens(p, i);
      BlockIsQuiet(t, cs, k, i + 1, e - 1, i);
      BlockRange(b, t, i, k);
      BlockCloses(p, i, e, b);
    } else if i < k {
      BlockOpens(p, i);
      BlockIsQuiet(t, cs, k, i + 1, k, i);
      BlocksAtEnd(p, Lowered(cs[k], 1), i);
    } else {
      BlocksAtEnd(p, AT_ITEM, -1);
    }
  }

  lemma LoweredItem()
    ensures Lowered(Outside(2), 1) == Cursor(1, false, false)
  {
  }

  lemma BlockOpens(p: Text, i: nat)
    requires i < |p| && p[i] == LBRACE
    ensures BlocksFrom(p, i, AT_ITEM, -1) == BlocksFrom(p, i + 1, Cursor(1, false, false), i)
  {
  }

  lemma BlockCloses(p: Text, start: nat, end: nat, b: Value)
    requires start + 1 < end <= |p| && p[end - 1] == RBRACE && ParseRange(p, start, end) == Some(b)
    ensures BlocksFrom(p, end - 1, Cursor(1, false, false), start) == [b] + BlocksFrom(p, end, AT_ITEM, -1)
  {
    hide ParseRange;
  }

  lemma BlocksAtEnd(p: Text, c: Cursor, start: int)
    requires start < |p|
    ensures BlocksFrom(p, |p|, c, start) == []
  {
  }

  lemma FittingFirst(blocks: seq<Value>, room: int)
    requires blocks != []
    ensures Fitting(blocks, room) == if |Print(blocks[0])| > room then []
                                     else [blocks[0]] + Fitting(blocks[1..], room - |Print(blocks[0])| - 1)
  {
  }

  lemma RestAreBlocks(blocks: seq<Value>)
    requires AreBlocks(blocks) && blocks != []
    ensures blocks[0].Obj? && Printable(blocks[0]) && AreBlocks(blocks[1..])
  {
    assert blocks[0] in blocks && forall b :: b in blocks[1..] ==> b in blocks;
  }

  lemma NoBlocksLeft(t: Text, i: nat, k: nat)
    requires Stands(t, i, |t|, PrintItems([]) + [RBRACKET]) && i <= k <= |t|
    ensures BlocksFrom(t[..k], i, AT_ITEM, -1) == [] == Fitting([], k - i)
  {
    StandsAt(t, i, |t|, [RBRACKET], 0);
  }

  /** The loop recovers exactly the blocks that end before the cut. */
  lemma {:induction false} BlocksRecovered(blocks: seq<Value>, t: Text, cs: seq<Control>, i: nat, k: nat)
    requires AreBlocks(blocks) && Stands(t, i, |t|, PrintItems(blocks) + [RBRACKET])
    requires Tracks(t, cs) && cs[i] == Outside(1) && i <= k <= |t|
    ensures BlocksFrom(t[..k], i, AT_ITEM, -1) == Fitting(blocks, k - i)
    decreases |blocks|
  {
    hide *;
    if blocks == [] {
      NoBlocksLeft(t, i, k);
    } else {
      RestAreBlocks(blocks);
      FittingFirst(blocks, k - i);
      var e := ItemSplit(blocks, t, i, |t|);
      OneBlock(blocks[0], t, cs, i, k);
      BlockCrossed(blocks[0], t, cs, i);
      if e <= k { AfterBlock(blocks, t, cs, e, k); }
    }
  }

  lemma AfterBlock(blocks: seq<Value>, t: Text, cs: seq<Control>, e: nat, k: nat)
    requires blocks != [] && AreBlocks(blocks[1..]) && Tracks(t, cs) && e < |t| && cs[e] == Outside(1) && e <= k <= |t|
    requires |blocks| == 1 ==> t[e] == RBRACKET
    requires |blocks| > 1 ==> t[e] == COMMA && Stands(t, e + 1, |t|, PrintItems(blocks[1..]) + [RBRACKET])
    ensures BlocksFrom(t[..k], e, AT_ITEM, -1) == Fitting(blocks[1..], k - e - 1)
    decreases |blocks|, 0
  {
    if e == k {
    } else if |blocks| > 1 {
      assert cs[e + 1] == Step(cs[e], t[e]);
      BlocksRecovered(blocks[1..], t, cs, e + 1, k);
    }
  }

  // ----- The whole salvage -----

  /** Cutting a fence off the end loses no block. */
  lemma {:induction false} FittingSameRoom(blocks: seq<Value>, t: Text, i: nat, k: nat, k': nat)
    requires AreBlocks(blocks) && Stands(t, i, |t|, PrintItems(blocks) + [RBRACKET])
    requires k' <= k <= |t| && forall m :: k' <= m < k ==> FenceUnit(t[m])
    ensures Fitting(blocks, k' - i) == Fitting(blocks, k - i)
    decreases |blocks|
  {
    if blocks != [] {
      hide *;
      RestAreBlocks(blocks);
      var e := ItemSplit(blocks, t, i, |t|);
      EndsWithBrace(blocks[0], t, i);
      BraceIsNoFence(t, e - 1, k, k');
      if e <= k && |blocks| > 1 { FittingSameRoom(blocks[1..], t, e + 1, k, k'); }
      FittingStep(blocks, k' - i, k - i);
    }
  }

  lemma BraceIsNoFence(t: Text, j: int, k: nat, k': nat)
    requires 0 <= j < |t| && t[j] == RBRACE && k' <= k <= |t| && forall m :: k' <= m < k ==> FenceUnit(t[m])
    ensures j < k' <==> j < k
  {
    assert !FenceUnit(RBRACE);
  }

  lemma FittingStep(blocks: seq<Value>, room: int, room': int)
    requires blocks != [] && (|Print(blocks[0])| <= room <==> |Print(blocks[0])| <= room')
    requires |Print(blocks[0])| <= room && |blocks| > 1 ==>
               Fitting(blocks[1..], room - |Print(blocks[0])| - 1)
                   == Fitting(blocks[1..], room' - |Print(blocks[0])| - 1)
    ensures Fitting(blocks, room) == Fitting(blocks, room')
  {
    FittingFirst(blocks, room);
    FittingFirst(blocks, room');
    hide Print;
    if |blocks| == 1 { assert blocks[1..] == []; }
  }

  lemma EndsWithBrace(b: Value, t: Text, i: nat)
    requires b.Obj? && Stands(t, i, |t|, Print(b))
    ensures |Print(b)| >= 2 && t[i + |Print(b)| - 1] == RBRACE
  {
    StandsAt(t, i, |t|, Print(b), |Print(b)| - 1);
  }

  /** The fences: only the closing one can be cut, and only from what follows the text field. */
  lemma FenceCut(t: Text, text: Text, k: nat) returns (k': nat)
    requires Clear(t) && Stands(t, 8, |t|, Quoted(text)) && TextEnd(text) <= k <= |t|
    ensures TextEnd(text) <= k' <= k && CutFencedTail(t[..k], 0) == t[..k] && CutClosingFence(t[..k], 0) == t[..k']
    ensures forall m :: k' <= m < k ==> FenceUnit(t[m])
  {
    hide CutFencedTail, CutClosingFence, Escaped;
    var p := t[..k];
    NoFencedTail(p, 0);
    OnlyFenceIsCut(p, 0);
    k' := |CutClosingFence(p, 0)|;
    StandsAt(t, 8, |t|, Quoted(text), |Quoted(text)| - 1);
    assert !FenceUnit(p[TextEnd(text) - 1]);
  }

  /** The part of a cut envelope that the salvage works on. */
  lemma CutContent(t: Text, cs: seq<Control>, text: Text, roomName: Option<Text>, blocks: seq<Value>, k: nat)
      returns (k': nat)
    requires IsEnvelope(text, roomName, blocks) && Shape(t, cs, text, roomName, blocks) && TextEnd(text) <= k < |t|
    ensures TextEnd(text) <= k' <= k && JsonContent(t[..k]) == Some(t[..k'])
    ensures forall m :: k' <= m < k ==> FenceUnit(t[m])
  {
    hide Keyed, CutFencedTail, CutClosingFence, EnvelopeStart, ObjectEnd, JsonContent, Clear, Stands, FenceUnit;
    TextFound(t, text, k);
    k' := FenceCut(t, text, k);
    ContentOpen(t, cs, k');
    ContentIs(t[..k], t[..k']);
  }

  lemma ContentIs(p: Text, part: Text)
    requires EnvelopeStart(p, 0) == Some(0) && CutFencedTail(p, 0) == p && CutClosingFence(p, 0) == part
    requires ObjectEnd(part, 0, Cursor(0, false, false)) == |part|
    ensures JsonContent(p) == Some(part)
  {
    hide EnvelopeStart, CutFencedTail, CutClosingFence, ObjectEnd;
    assert p[0..] == p && part[..|part|] == part;
  }

  lemma ContentOpen(t: Text, cs: seq<Control>, k: nat)
    requires Tracks(t, cs) && cs[0] == Outside(0) && t != [] && t[0] == LBRACE
    requires 1 <= k < |t| && Crosses(cs, 1, |t| - 1, 1)
    ensures ObjectEnd(t[..k], 0, Cursor(0, false, false)) == k
  {
    ObjectStaysOpen(t, cs, k, 1);
    assert cs[1] == Outside(1);
  }

  /** The text field between its quotes parses back to the text. */
  lemma TextRecovered(text: Text)
    requires IsUnits(text)
    ensures Parse([QUOTE] + Escaped(text) + [QUOTE]) == Some(Str(text))
  {
    ParsePrint(Str(text));
  }

  lemma BlocksOfCut(t: Text, cs: seq<Control>, text: Text, roomName: Option<Text>, blocks: seq<Value>, k: nat)
    requires IsEnvelope(text, roomName, blocks) && Shape(t, cs, text, roomName, blocks) && k <= |t|
    ensures var found := Fitting(blocks, k - ItemsAt(text, roomName));
            CompleteBlocks(t[..k]) == if found == [] then None else Some(found)
  {
    hide BlocksStart, Keyed, StringField, Clear;
    BlocksFound(t, cs, text, roomName, blocks, k);
    if ItemsAt(text, roomName) <= k {
      BlocksRecovered(blocks, t, cs, ItemsAt(text, roomName), k);
    }
  }

  /** A printed envelope, cut anywhere after its text field and before its last brace: the answer
      has the whole text and exactly the blocks whose closing brace comes before the cut. */
  lemma SalvageIsExact(text: Text, roomName: Option<Text>, blocks: seq<Value>, k: nat)
    requires IsEnvelope(text, roomName, blocks)
    requires TextEnd(text) <= k < |PrintEnvelope(text, roomName, blocks)|
    ensures var found := Fitting(blocks, k - ItemsAt(text, roomName));
            BlockOutput(PrintEnvelope(text, roomName, blocks)[..k])
            == Some(Envelope(text, if found == [] then None else Some(found), None))
  {
    hide *;
    var t := PrintEnvelope(text, roomName, blocks);
    var cs := Trace(t);
    ShapeOfEnvelope(text, roomName, blocks);
    CutGivesUp(t, cs, text, roomName, blocks, k);
    var k' := CutContent(t, cs, text, roomName, blocks, k);
    CutText(t, cs, text, roomName, blocks, k');
    BlocksOfCut(t, cs, text, roomName, blocks, k');
    CutLosesNothing(t, cs, text, roomName, blocks, k, k');
    SalvageAssembled(t[..k], t[..k'], text);
  }

  /** The same envelope uncut: its text, its blocks, and its title. */
  lemma WholeIsExact(text: Text, roomName: Option<Text>, blocks: seq<Value>)
    requires IsEnvelope(text, roomName, blocks)
    ensures var answer := BlockOutput(PrintEnvelope(text, roomName, blocks));
            && answer.Some? && answer.value.text == text
            && answer.value.blocks == (if blocks == [] then None else Some(blocks))
            && (if roomName.None? then answer.value.roomName.None? else IsTitle(answer.value.roomName, roomName.value))
  {
    var members := EnvelopeMembers(text, roomName, blocks);
    EnvelopeParts(text, roomName, blocks);
    ParsePrint(Obj(members));
    hide Parse, EnvelopeOf, IsTitle, Scan, Printable, Print;
    EnvelopeIsReadOff(Some(Obj(members)));
    assert Decides(members, K_TEXT, 0) && Decides(members, K_BLOCKS, |members| - 1);
    if roomName.Some? {
      assert Decides(members, K_ROOM_NAME, 1);
    } else {
      assert Absent(members, K_ROOM_NAME);
    }
  }

  lemma CutGivesUp(t: Text, cs: seq<Control>, text: Text, roomName: Option<Text>, blocks: seq<Value>, k: nat)
    requires Shape(t, cs, text, roomName, blocks) && TextEnd(text) <= k < |t|
    ensures CompleteOutput(t[..k]).None?
  {
    PrefixIsQuiet(t, cs, k);
  }

  lemma CutText(t: Text, cs: seq<Control>, text: Text, roomName: Option<Text>, blocks: seq<Value>, k: nat)
    requires IsEnvelope(text, roomName, blocks) && Shape(t, cs, text, roomName, blocks) && TextEnd(text) <= k <= |t|
    ensures TextField(t[..k], 0).Some?
    ensures var f := TextField(t[..k], 0).value;
            Parse([QUOTE] + t[..k][f.start..f.end] + [QUOTE]) == Some(Str(text))
  {
    hide Parse, Escaped, StringField, Keyed;
    TextFound(t, text, k);
    TextRecovered(text);
  }

  lemma CutLosesNothing(t: Text, cs: seq<Control>, text: Text, roomName: Option<Text>, blocks: seq<Value>, k: nat,
      k': nat)
    requires IsEnvelope(text, roomName, blocks) && Shape(t, cs, text, roomName, blocks) && k' <= k <= |t|
    requires forall m :: k' <= m < k ==> FenceUnit(t[m])
    ensures Fitting(blocks, k' - ItemsAt(text, roomName)) == Fitting(blocks, k - ItemsAt(text, roomName))
  {
    FittingSameRoom(blocks, t, ItemsAt(text, roomName), k, k');
  }

  lemma SalvageAssembled(p: Text, content: Text, text: Text)
    requires CompleteOutput(p).None? && JsonContent(p) == Some(content) && TextField(content, 0).Some?
    requires var f := TextField(content, 0).value;
             Parse([QUOTE] + content[f.start..f.end] + [QUOTE]) == Some(Str(text))
    ensures BlockOutput(p) == Some(Envelope(text, CompleteBlocks(content), None))
  {
    hide CompleteOutput, JsonContent, TextField, Parse, CompleteBlocks;
  }

  /** `Fitting` is the longest run of leading blocks whose text fits. */
  lemma {:induction false} FittingIsExact(blocks: seq<Value>, room: int)
    ensures Fitting(blocks, room) <= blocks
    ensures forall m :: 0 < m <= |blocks| ==> (m <= |Fitting(blocks, room)| <==> |PrintItems(blocks[..m])| <= room)
    decreases |blocks|
  {
    if blocks != [] {
      FittingIsExact(blocks[1..], room - |Print(blocks[0])| - 1);
      forall m | 0 < m <= |blocks|
        ensures m <= |Fitting(blocks, room)| <==> |PrintItems(blocks[..m])| <= room
      {
        FittingPrefix(blocks, room, m);
      }
    }
  }

  lemma FittingPrefix(blocks: seq<Value>, room: int, m: nat)
    requires 0 < m <= |blocks|
    requires m > 1 ==>
               (m - 1 <= |Fitting(blocks[1..], room - |Print(blocks[0])| - 1)|
                <==> |PrintItems(blocks[1..][..m - 1])| <= room - |Print(blocks[0])| - 1)
    ensures m <= |Fitting(blocks, room)| <==> |PrintItems(blocks[..m])| <= room
  {
    assert blocks[..m][1..] == blocks[1..][..m - 1];
    assert blocks[..m][0] == blocks[0];
  }
}
