/** Recovering block envelopes from an agent's output: the brace/string/escape automaton that finds
    complete JSON objects in prose, and the choice of the answer among them. */
module EnvelopeScanner {
  import opened Json
  import opened Texts
  import opened Wrappers

  const K_TEXT: Text := [0x74, 0x65, 0x78, 0x74]
  const K_BLOCKS: Text := [0x62, 0x6C, 0x6F, 0x63, 0x6B, 0x73]
  const K_ROOM_NAME: Text := [0x72, 0x6F, 0x6F, 0x6D, 0x5F, 0x6E, 0x61, 0x6D, 0x65]

  datatype Envelope = Envelope(text: Text, blocks: Option<seq<Value>>, roomName: Option<Text>)

  // ----- Reading an envelope off a parsed object -----

  /** obj[key] of a parsed object: the last member of that name wins. */
  function Field(members: seq<Member>, key: Text): Option<Value> {
    if members == [] then None
    else
      var last := members[|members| - 1];
      if last.key == key then Some(last.value) else Field(members[..|members| - 1], key)
  }

  function ReadRoomName(members: seq<Member>): Option<Text> {
    var name := Field(members, K_ROOM_NAME);
    if name.None? || !name.value.Str? || Trim(name.value.s) == [] then None else Some(Trim(name.value.s))
  }

  function ReadBlocks(members: seq<Member>): Option<seq<Value>> {
    var blocks := Field(members, K_BLOCKS);
    if blocks.None? || !blocks.value.Arr? || blocks.value.items == [] then None else Some(blocks.value.items)
  }

  /** The envelope an object is, if it has a string `text`: none or one. */
  function EnvelopeOf(v: Option<Value>): seq<Envelope> {
    if v.None? || !v.value.Obj? then []
    else
      var members := v.value.members;
      var text := Field(members, K_TEXT);
      if text.None? || !text.value.Str? then []
      else [Envelope(text.value.s, ReadBlocks(members), ReadRoomName(members))]
  }

  // ----- What the fields mean -----

  lemma KeysSpelled()
    ensures K_TEXT == Units("text") && K_BLOCKS == Units("blocks") && K_ROOM_NAME == Units("room_name")
  {
  }

  /** The member at i decides what obj[key] is: none of that name comes later. */
  ghost predicate Decides(members: seq<Member>, key: Text, i: int) {
    0 <= i < |members| && members[i].key == key && forall j :: i < j < |members| ==> members[j].key != key
  }

  ghost predicate Absent(members: seq<Member>, key: Text) {
    forall i :: 0 <= i < |members| ==> members[i].key != key
  }

  lemma {:induction false} FieldIsLast(members: seq<Member>, key: Text)
    ensures Field(members, key).None? <==> Absent(members, key)
    ensures forall i :: Decides(members, key, i) ==> Field(members, key) == Some(members[i].value)
    ensures Field(members, key).Some? ==> exists i :: Decides(members, key, i)
  {
    if members != [] {
      var n := |members| - 1;
      if members[n].key == key {
        assert Decides(members, key, n);
      } else {
        FieldIsLast(members[..n], key);
        EarlierDecides(members, key);
        hide Decides, Absent;
        forall i | Decides(members, key, i) ensures Field(members, key) == Some(members[i].value) {
          assert Decides(members[..n], key, i) && 0 <= i < n && members[..n][i] == members[i];
        }
      }
    }
  }

  lemma EarlierDecides(members: seq<Member>, key: Text)
    requires members != [] && members[|members| - 1].key != key
    ensures var rest := members[..|members| - 1];
            && (Absent(rest, key) <==> Absent(members, key))
            && (forall i :: Decides(members, key, i) <==> Decides(rest, key, i))
            && (forall i :: Decides(members, key, i) ==> 0 <= i < |rest| && rest[i] == members[i])
  {
    var rest := members[..|members| - 1];
    forall i | 0 <= i < |rest| ensures rest[i] == members[i] { }
  }

  /** The title a name gives: the name less its outer blanks, and none when there is nothing else. */
  ghost predicate IsTitle(title: Option<Text>, name: Text) {
    if forall k :: 0 <= k < |name| ==> IsTrimmed(name[k]) then title.None?
    else title.Some? && title.value != [] && IsTrimOf(title.value, name)
  }

  /** What an envelope says, field by field: a missing field or one of another type counts for nothing,
      nor does an empty list of blocks. */
  ghost predicate ReadOff(e: Envelope, members: seq<Member>) {
    && (exists i :: Decides(members, K_TEXT, i) && members[i].value == Str(e.text))
    && (Absent(members, K_BLOCKS) ==> e.blocks.None?)
    && (forall i :: Decides(members, K_BLOCKS, i) ==>
          e.blocks
          == if members[i].value.Arr? && members[i].value.items != [] then Some(members[i].value.items) else None)
    && (Absent(members, K_ROOM_NAME) ==> e.roomName.None?)
    && (forall i :: Decides(members, K_ROOM_NAME, i) ==>
          if members[i].value.Str? then IsTitle(e.roomName, members[i].value.s) else e.roomName.None?)
  }

  /** An object is an envelope exactly when the last of its members named `text` is a string, and then its
      members decide what the envelope says. */
  lemma EnvelopeIsReadOff(v: Option<Value>)
    ensures |EnvelopeOf(v)| <= 1
    ensures EnvelopeOf(v) != [] <==>
              && v.Some? && v.value.Obj?
              && exists i :: Decides(v.value.members, K_TEXT, i) && v.value.members[i].value.Str?
    ensures EnvelopeOf(v) != [] ==> ReadOff(EnvelopeOf(v)[0], v.value.members)
  {
    if v.Some? && v.value.Obj? {
      var members := v.value.members;
      FieldIsLast(members, K_TEXT);
      FieldIsLast(members, K_BLOCKS);
      FieldIsLast(members, K_ROOM_NAME);
      TitleIsRead(members);
    }
  }

  lemma TitleIsRead(members: seq<Member>)
    ensures forall i :: Decides(members, K_ROOM_NAME, i) ==>
              if members[i].value.Str? then IsTitle(ReadRoomName(members), members[i].value.s)
              else ReadRoomName(members).None?
  {
    FieldIsLast(members, K_ROOM_NAME);
    forall i | Decides(members, K_ROOM_NAME, i) && members[i].value.Str?
      ensures IsTitle(ReadRoomName(members), members[i].value.s)
    {
      BlankTrim(members[i].value.s);
      var _, _ := TrimIsTrim(members[i].value.s);
    }
  }

  lemma BlankTrim(s: Text)
    ensures Trim(s) == [] <==> forall k :: 0 <= k < |s| ==> IsTrimmed(s[k])
  {
    var a, b := TrimIsTrim(s);
  }

  // ----- The automaton -----

  /** The control state: inside how many braces, inside a string, right after a backslash. */
  datatype Control = Control(depth: nat, inString: bool, escape: bool)

  function Outside(depth: nat): Control {
    Control(depth, false, false)
  }

  function Step(c: Control, ch: int): Control {
    if c.escape then c.(escape := false)
    else if c.inString then
      if ch == BACKSLASH then c.(escape := true)
      else if ch == QUOTE then c.(inString := false)
      else c
    else if ch == QUOTE then c.(inString := true)
    else if ch == LBRACE then c.(depth := c.depth + 1)
    else if ch == RBRACE && c.depth > 0 then c.(depth := c.depth - 1)
    else c
  }

  /** The envelopes the scan from position i on reports, given the control state it is in and where
      the outermost open object started. */
  function Scan(t: Text, i: nat, c: Control, start: nat): seq<Envelope>
    requires i <= |t| && start <= i
    decreases |t| - i
  {
    if i == |t| then []
    else
      var c' := Step(c, t[i]);
      var start' := if c.depth == 0 && c'.depth == 1 then i else start;
      (if c.depth == 1 && c'.depth == 0 then EnvelopeOf(ParseRange(t, start, i + 1)) else [])
      + Scan(t, i + 1, c', start')
  }

  /** What one unit of the scan reports. */
  function Reported(t: Text, i: nat, c: Control, start: nat): seq<Envelope>
    requires start <= i < |t|
  {
    if c.depth == 1 && Step(c, t[i]).depth == 0 then EnvelopeOf(ParseRange(t, start, i + 1)) else []
  }

  function StartAfter(t: Text, i: nat, c: Control, start: nat): nat
    requires i < |t|
  {
    if c.depth == 0 && Step(c, t[i]).depth == 1 then i else start
  }

  lemma ScanUnit(t: Text, i: nat, c: Control, start: nat, found: seq<Envelope>)
    requires start <= i < |t|
    ensures found + Scan(t, i, c, start) ==
            (found + Reported(t, i, c, start)) + Scan(t, i + 1, Step(c, t[i]), StartAfter(t, i, c, start))
  {
  }

  lemma ScanTurn(t: Text, i: nat, c: Control, start: nat, start': nat, found: seq<Envelope>)
    requires start <= i < |t| && start' <= i && (start' == StartAfter(t, i, c, start) || Step(c, t[i]).depth == 0)
    ensures found + Scan(t, i, c, start) == (found + Reported(t, i, c, start)) + Scan(t, i + 1, Step(c, t[i]), start')
  {
    hide Scan, Step, Reported;
    ScanUnit(t, i, c, start, found);
    var c' := Step(c, t[i]);
    if c'.depth == 0 { ScanStart(t, i + 1, StartAfter(t, i, c, start), start', c'.inString, c'.escape); }
  }

  /** One unit of the loop below, in the loop's own variables. */
  method ScanOne(t: Text, i: nat, depth: nat, inString: bool, escape: bool, objStart: int)
    returns (found: seq<Envelope>, depth': nat, inString': bool, escape': bool, objStart': int)
    requires i < |t| && -1 <= objStart < i && (objStart >= 0 <==> depth > 0)
    ensures var c := Control(depth, inString, escape);
            var start := if objStart >= 0 then objStart else 0;
            && Control(depth', inString', escape') == Step(c, t[i])
            && found == Reported(t, i, c, start)
            && -1 <= objStart' <= i && (objStart' >= 0 <==> depth' > 0)
            && (objStart' >= 0 ==> objStart' == StartAfter(t, i, c, start))
  {
    found, depth', inString', escape', objStart' := [], depth, inString, escape, objStart;
    var ch := t[i];
    if escape {
      escape' := false;
    } else if inString {
      if ch == BACKSLASH {
        escape' := true;
      } else if ch == QUOTE {
        inString' := false;
      }
    } else if ch == QUOTE {
      inString' := true;
    } else if ch == LBRACE {
      if depth == 0 {
        objStart' := i;
      }
      depth' := depth + 1;
    } else if ch == RBRACE && depth > 0 {
      depth' := depth - 1;
      if depth' == 0 && objStart >= 0 {
        found := EnvelopeOf(ParseRange(t, objStart, i + 1));
        objStart' := -1;
      }
    }
  }

  method FindBlockEnvelopes(t: Text) returns (envelopes: seq<Envelope>)
    ensures envelopes == Scan(t, 0, Outside(0), 0)
  {
    envelopes := [];
    var depth, inString, escape, objStart := 0, false, false, -1;
    for i := 0 to |t|
      invariant 0 <= depth && -1 <= objStart < i && (objStart >= 0 <==> depth > 0)
      invariant envelopes + Scan(t, i, Control(depth, inString, escape), if objStart >= 0 then objStart else 0)
                == Scan(t, 0, Outside(0), 0)
    {
      hide *;
      ghost var c, start := Control(depth, inString, escape), if objStart >= 0 then objStart else 0;
      var found;
      found, depth, inString, escape, objStart := ScanOne(t, i, depth, inString, escape, objStart);
      ScanTurn(t, i, c, start, if objStart >= 0 then objStart else 0, envelopes);
      envelopes := envelopes + found;
    }
  }

  // ----- What the parser reads as one value, the automaton crosses without coming up -----

  /** cs[k] is the control state before unit k. */
  ghost predicate Tracks(t: Text, cs: seq<Control>) {
    |cs| == |t| + 1 && forall k {:trigger cs[k], t[k]} :: 0 <= k < |t| ==> cs[k + 1] == Step(cs[k], t[k])
  }

  /** From i to j the automaton stays at or below brace depth d, and is outside strings at depth d
      again at j. */
  ghost predicate Crosses(cs: seq<Control>, i: nat, j: nat, d: nat) {
    i <= j < |cs| && cs[j] == Outside(d) && forall k :: i <= k <= j ==> cs[k].depth >= d
  }

  lemma CrossThen(cs: seq<Control>, i: nat, j: nat, k: nat, d: nat)
    requires Crosses(cs, i, j, d) && Crosses(cs, j, k, d)
    ensures Crosses(cs, i, k, d)
  {
  }

  lemma CrossedTo(cs: seq<Control>, i: nat, j: nat, d: nat)
    requires Crosses(cs, i, j, d)
    ensures i <= j < |cs| && cs[j] == Outside(d)
  {
  }

  /** A code unit that leaves the control state alone outside strings. */
  predicate Neutral(ch: int) {
    ch != QUOTE && ch != LBRACE && ch != RBRACE
  }

  lemma {:induction false} CrossNeutral(t: Text, cs: seq<Control>, i: nat, j: nat, d: nat)
    requires Tracks(t, cs) && i <= j <= |t| && cs[i] == Outside(d)
    requires forall k :: i <= k < j ==> Neutral(t[k])
    ensures Crosses(cs, i, j, d)
    decreases j - i
  {
    if i < j {
      assert Neutral(t[i]);
      CrossNeutral(t, cs, i + 1, j, d);
    }
  }

  lemma {:induction false} CrossWs(t: Text, cs: seq<Control>, i: nat, n: nat, d: nat)
    requires Tracks(t, cs) && i <= n <= |t| && cs[i] == Outside(d)
    ensures Crosses(cs, i, SkipWs(t, i, n), d)
    decreases n - i
  {
    if i < n && IsWs(t[i]) {
      CrossWs(t, cs, i + 1, n, d);
    }
  }

  lemma {:induction false} CrossChars(t: Text, cs: seq<Control>, i: nat, n: nat, d: nat)
    requires Tracks(t, cs) && i <= n <= |t| && cs[i] == Control(d, true, false) && Chars(t, i, n).Good?
    ensures Crosses(cs, i, Chars(t, i, n).next, d)
    decreases n - i
  {
    if t[i] == QUOTE {
    } else if t[i] != BACKSLASH {
      CrossChars(t, cs, i + 1, n, d);
    } else if t[i + 1] != LOWER_U {
      CrossChars(t, cs, i + 2, n, d);
    } else {
      CrossHexDigits(t, cs, i, d);
      CrossChars(t, cs, i + 6, n, d);
    }
  }

  lemma CrossHexDigits(t: Text, cs: seq<Control>, i: nat, d: nat)
    requires Tracks(t, cs) && i + 6 <= |t| && cs[i] == Control(d, true, false)
    requires t[i] == BACKSLASH && t[i + 1] == LOWER_U && Hex4(t, i + 2) >= 0
    ensures cs[i + 6] == Control(d, true, false)
    ensures forall k :: i <= k <= i + 6 ==> cs[k].depth == d
  {
    assert cs[i + 1] == Control(d, true, true) && cs[i + 2] == Control(d, true, false);
    assert cs[i + 3] == cs[i + 2] && cs[i + 4] == cs[i + 3] && cs[i + 5] == cs[i + 4] && cs[i + 6] == cs[i + 5];
  }

  lemma NumberNeutral(t: Text, i: nat, n: nat)
    requires i <= n <= |t| && NumberEnd(t, i, n).Some?
    ensures forall k :: i <= k < NumberEnd(t, i, n).value ==> Neutral(t[k]) && t[k] >= 0x20
  {
    var s := if i < n && t[i] == MINUS then i + 1 else i;
    var p := Integer(t, s, n);
    DigitsAreDigits(t, s, n);
    var f := Fraction(t, p, n).value;
    if p < n { DigitsAreDigits(t, p + 1, n); }
    if f + 1 <= n { DigitsAreDigits(t, f + 1, n); }
    if f + 2 <= n { DigitsAreDigits(t, f + 2, n); }
  }

  lemma CrossScalar(t: Text, cs: seq<Control>, i: nat, n: nat, d: nat)
    requires Tracks(t, cs) && i <= n <= |t| && cs[i] == Outside(d) && ParseValue(t, i, n).Good?
    requires t[i] != QUOTE && t[i] != LBRACE && t[i] != LBRACKET
    ensures Crosses(cs, i, ParseValue(t, i, n).next, d)
  {
    var j := ParseValue(t, i, n).next;
    if Reads(t, i, n, TRUE) || Reads(t, i, n, FALSE) || Reads(t, i, n, NULL) {
      forall k | i <= k < j ensures Neutral(t[k]) {
        assert t[k] == t[i..j][k - i];
      }
    } else {
      NumberNeutral(t, i, n);
    }
    CrossNeutral(t, cs, i, j, d);
  }

  /** The scanner and the parser agree on where every value ends, whatever the value. */
  lemma {:induction false} CrossValue(t: Text, cs: seq<Control>, i: nat, n: nat, d: nat)
    requires Tracks(t, cs) && i <= n <= |t| && cs[i] == Outside(d) && ParseValue(t, i, n).Good?
    ensures Crosses(cs, i, ParseValue(t, i, n).next, d)
    decreases n - i, 1
  {
    if t[i] == QUOTE {
      CrossChars(t, cs, i + 1, n, d);
    } else if t[i] == LBRACE {
      CrossInside(t, cs, i, n, d);
    } else if t[i] == LBRACKET {
      CrossWs(t, cs, i + 1, n, d);
      var j := SkipWs(t, i + 1, n);
      if !At(t, j, n, RBRACKET) { CrossItems(t, cs, j, n, d); }
    } else {
      CrossScalar(t, cs, i, n, d);
    }
  }

  /** Between an object's braces the automaton is deeper than outside them. */
  lemma {:induction false} CrossInside(t: Text, cs: seq<Control>, i: nat, n: nat, d: nat)
    requires Tracks(t, cs) && i < n <= |t| && cs[i] == Outside(d) && t[i] == LBRACE && ParseValue(t, i, n).Good?
    ensures var end := ParseValue(t, i, n).next - 1;
            i < end && t[end] == RBRACE && Crosses(cs, i + 1, end, d + 1) && cs[end + 1] == Outside(d)
    decreases n - i, 0
  {
    hide ParseMembers, Crosses;
    var j := SkipWs(t, i + 1, n);
    CrossWs(t, cs, i + 1, n, d + 1);
    CrossedTo(cs, i + 1, j, d + 1);
    if !At(t, j, n, RBRACE) {
      var end := ParseMembers(t, j, n).next - 1;
      CrossMembers(t, cs, j, n, d + 1);
      CrossThen(cs, i + 1, j, end, d + 1);
      CrossedTo(cs, i + 1, end, d + 1);
    }
  }

  lemma CrossKey(t: Text, cs: seq<Control>, i: nat, n: nat, d: nat)
    requires Tracks(t, cs) && i <= n <= |t| && cs[i] == Outside(d) && Key(t, i, n).Good?
    ensures Crosses(cs, i, Key(t, i, n).next, d)
  {
    var key := Chars(t, i + 1, n);
    var colon := SkipWs(t, key.next, n);
    CrossChars(t, cs, i + 1, n, d);
    CrossWs(t, cs, key.next, n, d);
    CrossNeutral(t, cs, colon, colon + 1, d);
    CrossWs(t, cs, colon + 1, n, d);
  }

  lemma CrossSeparator(t: Text, cs: seq<Control>, i: nat, n: nat, closer: int, d: nat)
    requires Tracks(t, cs) && i <= n <= |t| && cs[i] == Outside(d) && Separator(t, i, n, closer).Good?
    ensures var s := Separator(t, i, n, closer); Crosses(cs, i, if s.value then s.next else s.next - 1, d)
  {
    var e := SkipWs(t, i, n);
    CrossWs(t, cs, i, n, d);
    if !At(t, e, n, closer) {
      CrossNeutral(t, cs, e, e + 1, d);
      CrossWs(t, cs, e + 1, n, d);
    }
  }

  lemma {:induction false} CrossMember(t: Text, cs: seq<Control>, i: nat, n: nat, d: nat)
    requires Tracks(t, cs) && i <= n <= |t| && cs[i] == Outside(d) && ParseMember(t, i, n).Good?
    ensures Crosses(cs, i, ParseMember(t, i, n).next, d)
    decreases n - i, 2
  {
    var v := Key(t, i, n).next;
    CrossKey(t, cs, i, n, d);
    CrossValue(t, cs, v, n, d);
    CrossThen(cs, i, v, ParseValue(t, v, n).next, d);
  }

  lemma {:induction false} CrossMembers(t: Text, cs: seq<Control>, i: nat, n: nat, d: nat)
    requires Tracks(t, cs) && i <= n <= |t| && cs[i] == Outside(d) && ParseMembers(t, i, n).Good?
    ensures Crosses(cs, i, ParseMembers(t, i, n).next - 1, d)
    decreases n - i, 3
  {
    hide ParseMember, ParseValue, Separator, Crosses;
    var m := ParseMember(t, i, n);
    var s := Separator(t, m.next, n, RBRACE);
    CrossMember(t, cs, i, n, d);
    CrossSeparator(t, cs, m.next, n, RBRACE, d);
    CrossedTo(cs, i, m.next, d);
    var e := if s.value then s.next else s.next - 1;
    CrossThen(cs, i, m.next, e, d);
    if s.value {
      CrossedTo(cs, i, e, d);
      CrossMembers(t, cs, s.next, n, d);
      CrossThen(cs, i, s.next, ParseMembers(t, s.next, n).next - 1, d);
    }
  }

  lemma {:induction false} CrossItems(t: Text, cs: seq<Control>, i: nat, n: nat, d: nat)
    requires Tracks(t, cs) && i <= n <= |t| && cs[i] == Outside(d) && ParseItems(t, i, n).Good?
    ensures Crosses(cs, i, ParseItems(t, i, n).next, d)
    decreases n - i, 2
  {
    var v := ParseValue(t, i, n);
    var s := Separator(t, v.next, n, RBRACKET);
    CrossValue(t, cs, i, n, d);
    CrossSeparator(t, cs, v.next, n, RBRACKET, d);
    if s.value { CrossItems(t, cs, s.next, n, d); }
  }

  // ----- Exactness -----

  ghost function Trace(t: Text): (cs: seq<Control>)
    ensures Tracks(t, cs) && cs[0] == Outside(0)
    decreases |t|
  {
    if t == [] then [Outside(0)]
    else
      var n := |t| - 1;
      var earlier := Trace(t[..n]);
      assert forall k :: 0 <= k < n ==> t[..n][k] == t[k];
      earlier + [Step(earlier[n], t[n])]
  }

  lemma TracksOne(t: Text, cs: seq<Control>, i: nat)
    requires Tracks(t, cs) && i < |t|
    ensures |cs| == |t| + 1 && cs[i + 1] == Step(cs[i], t[i])
  {
  }

  /** While no object closes, nothing is reported. */
  lemma {:induction false} ScanQuiet(t: Text, cs: seq<Control>, i: nat, j: nat, start: nat)
    requires Tracks(t, cs) && start <= i <= j <= |t|
    requires forall k :: i <= k <= j ==> cs[k].depth >= 1
    ensures Scan(t, i, cs[i], start) == Scan(t, j, cs[j], start)
    decreases j - i
  {
    if i < j {
      TracksOne(t, cs, i);
      hide Tracks, Step, EnvelopeOf, ParseRange;
      assert cs[i].depth >= 1 && cs[i + 1].depth >= 1;
      ScanQuiet(t, cs, i + 1, j, start);
    }
  }

  /** Nor in between objects. */
  lemma {:induction false} ScanGap(t: Text, i: nat, j: nat, start: nat, start': nat)
    requires start <= i <= j <= |t| && start' <= i
    requires forall k :: i <= k < j ==> Neutral(t[k])
    ensures Scan(t, i, Outside(0), start) == Scan(t, j, Outside(0), start')
    decreases |t| - i
  {
    if i < j {
      ScanGap(t, i + 1, j, start, start');
    } else {
      ScanStart(t, i, start, start', false, false);
    }
  }

  /** `start` is only read while an object is open. */
  lemma {:induction false} ScanStart(t: Text, i: nat, a: nat, b: nat, inString: bool, escape: bool)
    requires a <= i && b <= i && i <= |t|
    ensures Scan(t, i, Control(0, inString, escape), a) == Scan(t, i, Control(0, inString, escape), b)
    decreases |t| - i
  {
    if i < |t| {
      var c' := Step(Control(0, inString, escape), t[i]);
      if c'.depth == 0 {
        ScanStart(t, i + 1, a, b, c'.inString, c'.escape);
      }
    }
  }

  /** At top level, an object text contributes exactly the envelope it is. */
  lemma ScanTopObject(t: Text, cs: seq<Control>, i: nat, n: nat, start: nat)
    requires Tracks(t, cs) && start <= i < n <= |t| && cs[i] == Outside(0) && t[i] == LBRACE
             && ParseValue(t, i, n).Good?
    ensures var r := ParseValue(t, i, n);
            Scan(t, i, Outside(0), start) == EnvelopeOf(Some(r.value)) + Scan(t, r.next, Outside(0), i)
            && cs[r.next] == Outside(0)
  {
    hide *;
    var r := ParseValue(t, i, n);
    CrossInside(t, cs, i, n, 0);
    ObjectRange(t, i, n);
    ScanObject(t, cs, i, r.next - 1, start);
  }

  lemma ObjectRange(t: Text, i: nat, n: nat)
    requires i < n <= |t| && t[i] == LBRACE && ParseValue(t, i, n).Good?
    ensures ParseRange(t, i, ParseValue(t, i, n).next) == Some(ParseValue(t, i, n).value)
  {
    ValueShorter(t, i, n, ParseValue(t, i, n).next);
  }

  lemma ScanObject(t: Text, cs: seq<Control>, i: nat, end: nat, start: nat)
    requires Tracks(t, cs) && start <= i < end < |t| && cs[i] == Outside(0) && t[i] == LBRACE
    requires Crosses(cs, i + 1, end, 1) && t[end] == RBRACE
    ensures Scan(t, i, Outside(0), start) ==
            EnvelopeOf(ParseRange(t, i, end + 1)) + Scan(t, end + 1, Outside(0), i)
  {
    assert cs[i + 1] == Outside(1);
    assert Scan(t, i, Outside(0), start) == [] + Scan(t, i + 1, Outside(1), i);
    ScanQuiet(t, cs, i + 1, end, i);
  }

  /** A text laid out as objects[k] = [start, end) with gaps between them. */
  datatype Span = Span(start: nat, end: nat)

  /** The spans lie in t[from..] in order, each one is exactly one JSON object, and the text between
      them is free of quotes and braces. */
  ghost predicate Layout(t: Text, from: nat, spans: seq<Span>)
    decreases |spans|
  {
    if spans == [] then from <= |t| && forall k :: from <= k < |t| ==> Neutral(t[k])
    else
      var s := spans[0];
      && from <= s.start < s.end <= |t|
      && (forall k :: from <= k < s.start ==> Neutral(t[k]))
      && t[s.start] == LBRACE && ParseValue(t, s.start, s.end).Good? && ParseValue(t, s.start, s.end).next == s.end
      && Layout(t, s.end, spans[1..])
  }

  ghost predicate InBounds(t: Text, spans: seq<Span>) {
    forall s :: s in spans ==> s.start <= s.end <= |t|
  }

  /** The envelopes among the objects, in order. */
  ghost function EnvelopesOf(t: Text, spans: seq<Span>): seq<Envelope>
    requires InBounds(t, spans)
  {
    if spans == [] then []
    else EnvelopeOf(ParseRange(t, spans[0].start, spans[0].end)) + EnvelopesOf(t, spans[1..])
  }

  lemma {:induction false} LayoutInBounds(t: Text, from: nat, spans: seq<Span>)
    requires Layout(t, from, spans)
    ensures InBounds(t, spans)
    decreases |spans|
  {
    if spans != [] {
      LayoutInBounds(t, spans[0].end, spans[1..]);
    }
  }

  lemma {:induction false} LayoutScanned(t: Text, cs: seq<Control>, from: nat, spans: seq<Span>, start: nat)
    requires Tracks(t, cs) && Layout(t, from, spans) && cs[from] == Outside(0) && start <= from
    requires InBounds(t, spans)
    ensures Scan(t, from, Outside(0), start) == EnvelopesOf(t, spans)
    decreases |spans|
  {
    if spans == [] {
      ScanGap(t, from, |t|, start, start);
    } else {
      var s := spans[0];
      CrossNeutral(t, cs, from, s.start, 0);
      ScanGap(t, from, s.start, start, start);
      ScanTopObject(t, cs, s.start, s.end, start);
      ObjectRange(t, s.start, s.end);
      LayoutScanned(t, cs, s.end, spans[1..], s.start);
    }
  }

  /** For every text made of JSON objects separated by prose free of quotes and braces, the scanner
      reports exactly the objects with a string `text`, in order. */
  lemma ScannerExact(t: Text, spans: seq<Span>)
    requires Layout(t, 0, spans)
    ensures InBounds(t, spans)
    ensures Scan(t, 0, Outside(0), 0) == EnvelopesOf(t, spans)
  {
    LayoutInBounds(t, 0, spans);
    LayoutScanned(t, Trace(t), 0, spans, 0);
  }

  /** Whenever the whole text is one JSON object, the scanner finds exactly what JSON.parse finds. */
  lemma WholeTextAgrees(t: Text)
    requires Parse(t).Some? && Parse(t).value.Obj?
    ensures Scan(t, 0, Outside(0), 0) == EnvelopeOf(Parse(t))
  {
    var p := SkipWs(t, 0, |t|);
    var r := ParseValue(t, p, |t|);
    WsNeutral(t, 0, |t|);
    WsNeutral(t, r.next, |t|);
    CrossNeutral(t, Trace(t), 0, p, 0);
    ScanGap(t, 0, p, 0, 0);
    ScanTopObject(t, Trace(t), p, |t|, 0);
    ScanGap(t, r.next, |t|, p, p);
  }

  lemma {:induction false} WsNeutral(t: Text, i: nat, n: nat)
    requires i <= n <= |t|
    ensures forall k :: i <= k < SkipWs(t, i, n) ==> Neutral(t[k])
    decreases n - i
  {
    if i < n && IsWs(t[i]) {
      WsNeutral(t, i + 1, n);
    }
  }

  // ----- Choosing the answer -----

  function LastWithBlocks(envelopes: seq<Envelope>): Option<Envelope> {
    if envelopes == [] then None
    else if envelopes[|envelopes| - 1].blocks.Some? then Some(envelopes[|envelopes| - 1])
    else LastWithBlocks(envelopes[..|envelopes| - 1])
  }

  function LastName(envelopes: seq<Envelope>): Option<Text> {
    if envelopes == [] then None
    else if envelopes[|envelopes| - 1].roomName.Some? then envelopes[|envelopes| - 1].roomName
    else LastName(envelopes[..|envelopes| - 1])
  }

  function Choose(envelopes: seq<Envelope>): Envelope
    requires envelopes != []
  {
    var withBlocks := LastWithBlocks(envelopes);
    var chosen := if withBlocks.Some? then withBlocks.value else envelopes[|envelopes| - 1];
    Envelope(chosen.text, chosen.blocks, if chosen.roomName.Some? then chosen.roomName else LastName(envelopes))
  }

  /** The first two stages of parseBlockOutput; None sends the text to the salvage stage. */
  method ParseCompleteOutput(t: Text) returns (answer: Option<Envelope>)
    ensures answer == CompleteOutput(t)
  {
    var whole := EnvelopeOf(Parse(t));
    if whole != [] {
      return Some(whole[0]);
    }
    var envelopes := FindBlockEnvelopes(t);
    if |envelopes| > 0 {
      return Some(Choose(envelopes));
    }
    return None;
  }

  function CompleteOutput(t: Text): Option<Envelope> {
    var whole := EnvelopeOf(Parse(t));
    if whole != [] then Some(whole[0])
    else
      var envelopes := Scan(t, 0, Outside(0), 0);
      if envelopes != [] then Some(Choose(envelopes)) else None
  }

  lemma {:induction false} LastWithBlocksIsLast(envelopes: seq<Envelope>)
    ensures LastWithBlocks(envelopes).Some? <==> exists i :: 0 <= i < |envelopes| && envelopes[i].blocks.Some?
    ensures LastWithBlocks(envelopes).Some? ==>
              exists i :: 0 <= i < |envelopes| && envelopes[i] == LastWithBlocks(envelopes).value
                  && envelopes[i].blocks.Some?
                          && forall j :: i < j < |envelopes| ==> envelopes[j].blocks.None?
  {
    if envelopes != [] && envelopes[|envelopes| - 1].blocks.None? {
      var rest := envelopes[..|envelopes| - 1];
      LastWithBlocksIsLast(rest);
      if LastWithBlocks(rest).Some? {
        var i :| 0 <= i < |rest| && rest[i] == LastWithBlocks(rest).value && rest[i].blocks.Some?
                 && forall j :: i < j < |rest| ==> rest[j].blocks.None?;
        assert envelopes[i] == rest[i];
        forall j | i < j < |envelopes| ensures envelopes[j].blocks.None? {
          assert j < |rest| ==> envelopes[j] == rest[j];
        }
      }
      forall i | 0 <= i < |envelopes| && envelopes[i].blocks.Some?
        ensures LastWithBlocks(envelopes).Some?
      {
        assert envelopes[i] == rest[i];
      }
    }
  }

  lemma {:induction false} LastNameIsLatest(envelopes: seq<Envelope>)
    ensures LatestTitle(LastName(envelopes), envelopes)
  {
    if envelopes != [] && envelopes[|envelopes| - 1].roomName.None? {
      var rest := envelopes[..|envelopes| - 1];
      LastNameIsLatest(rest);
      assert forall k :: 0 <= k < |rest| ==> envelopes[k] == rest[k];
    }
  }

  /** `name` is the title of the last envelope that has one, or none has. */
  ghost predicate LatestTitle(name: Option<Text>, envelopes: seq<Envelope>) {
    if name.None? then forall k :: 0 <= k < |envelopes| ==> envelopes[k].roomName.None?
    else exists j :: 0 <= j < |envelopes| && envelopes[j].roomName == name
                     && forall k :: j < k < |envelopes| ==> envelopes[k].roomName.None?
  }

  /** envelopes[i] is the last that carries blocks, or the last of all when none does. */
  ghost predicate IsFinal(envelopes: seq<Envelope>, i: nat) {
    && i < |envelopes|
    && (if exists k :: 0 <= k < |envelopes| && envelopes[k].blocks.Some?
        then envelopes[i].blocks.Some? && forall j :: i < j < |envelopes| ==> envelopes[j].blocks.None?
        else i == |envelopes| - 1)
  }

  /** `answer` has the text and blocks of envelopes[i], and its title or else the latest one. */
  ghost predicate AnswersWith(answer: Envelope, envelopes: seq<Envelope>, i: nat) {
    && i < |envelopes| && answer.text == envelopes[i].text && answer.blocks == envelopes[i].blocks
    && (if envelopes[i].roomName.Some? then answer.roomName == envelopes[i].roomName
        else LatestTitle(answer.roomName, envelopes))
  }

  lemma ChooseIsFinal(envelopes: seq<Envelope>) returns (i: nat)
    requires envelopes != []
    ensures IsFinal(envelopes, i) && AnswersWith(Choose(envelopes), envelopes, i)
  {
    hide LatestTitle;
    LastNameIsLatest(envelopes);
    LastWithBlocksIsLast(envelopes);
    i := |envelopes| - 1;
    if LastWithBlocks(envelopes).Some? {
      i :| 0 <= i < |envelopes| && envelopes[i] == LastWithBlocks(envelopes).value && envelopes[i].blocks.Some?
           && forall j :: i < j < |envelopes| ==> envelopes[j].blocks.None?;
    }
  }

  /** parseBlockOutput on a text laid out as JSON objects: the last envelope that carries blocks,
      or the last envelope when none does, under its own title or else the latest one; nothing exactly
      when no object is an envelope. */
  lemma AnswerIsLast(t: Text, spans: seq<Span>)
    requires Layout(t, 0, spans)
    ensures InBounds(t, spans)
    ensures CompleteOutput(t).None? <==> EnvelopesOf(t, spans) == []
    ensures var envelopes := EnvelopesOf(t, spans);
            CompleteOutput(t).Some? ==>
              exists i: nat :: IsFinal(envelopes, i) && AnswersWith(CompleteOutput(t).value, envelopes, i)
  {
    hide Layout, Scan, IsFinal, AnswersWith;
    ScannerExact(t, spans);
    var envelopes := EnvelopesOf(t, spans);
    if EnvelopeOf(Parse(t)) != [] {
      WholeTextAgrees(t);
      OnlyAnswer(envelopes);
    } else if envelopes != [] {
      var i := ChooseIsFinal(envelopes);
    }
  }

  lemma OnlyAnswer(envelopes: seq<Envelope>)
    requires |envelopes| == 1
    ensures IsFinal(envelopes, 0) && AnswersWith(envelopes[0], envelopes, 0)
  {
  }
}
