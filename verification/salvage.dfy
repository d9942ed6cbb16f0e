/** Recovering the text and the finished blocks of an envelope whose tail was cut off. */
module Salvage {
  import opened Json
  import opened EnvelopeScanner
  import opened Texts
  import opened Wrappers

  const NEWLINE := 0x0A
  const BACKTICK := 0x60

  // ----- The regular expressions -----

  predicate Starts(t: Text, i: nat, word: Text) {
    i + |word| <= |t| && t[i..i + |word|] == word
  }

  /** A quoted key, `\s*:` and `\s*`: where the value would start. */
  function KeyAt(t: Text, i: nat, key: Text): (r: Option<nat>)
    ensures r.Some? ==> i < r.value <= |t|
  {
    if !Starts(t, i, [QUOTE] + key + [QUOTE]) then None
    else
      var colon := SkipSpace(t, i + |key| + 2);
      if colon < |t| && t[colon] == COLON then Some(SkipSpace(t, colon + 1)) else None
  }

  /** Where an opening brace, `\s*` and the key `text` first stand. */
  function EnvelopeStart(t: Text, i: nat): (r: Option<nat>)
    requires i <= |t|
    ensures r.Some? ==> i <= r.value < |t|
    decreases |t| - i
  {
    if i == |t| then None
    else if t[i] == LBRACE && KeyAt(t, SkipSpace(t, i + 1), K_TEXT).Some? then Some(i)
    else EnvelopeStart(t, i + 1)
  }

  /** Just after the first key `blocks` that is followed by an opening bracket. */
  function BlocksStart(t: Text, i: nat): (r: Option<nat>)
    requires i <= |t|
    ensures r.Some? ==> i < r.value <= |t|
    decreases |t| - i
  {
    if i == |t| then None
    else
      var v := BlocksAt(t, i);
      if v.Some? then v else BlocksStart(t, i + 1)
  }

  function BlocksAt(t: Text, i: nat): (r: Option<nat>)
    requires i <= |t|
    ensures r.Some? ==> i < r.value <= |t|
  {
    var v := KeyAt(t, i, K_BLOCKS);
    if v.Some? && v.value < |t| && t[v.value] == LBRACKET then Some(v.value + 1) else None
  }

  predicate IsLineEnd(c: int) {
    c == 0x0A || c == 0x0D || c == 0x2028 || c == 0x2029
  }

  /** The longest run of plain units and backslash pairs. */
  function StringBody(t: Text, i: nat): (j: nat)
    requires i <= |t|
    ensures i <= j <= |t|
    decreases |t| - i
  {
    if i == |t| || t[i] == QUOTE then i
    else if t[i] != BACKSLASH then StringBody(t, i + 1)
    else if i + 1 < |t| && !IsLineEnd(t[i + 1]) then StringBody(t, i + 2)
    else i
  }

  /** The first `text` field with a string value: the range between its quotes. */
  function TextField(t: Text, i: nat): (r: Option<Span>)
    requires i <= |t|
    ensures r.Some? ==> r.value.start <= r.value.end < |t|
    decreases |t| - i
  {
    if i == |t| then None
    else
      var v := KeyAt(t, i, K_TEXT);
      if v.Some? && v.value < |t| && t[v.value] == QUOTE && StringBody(t, v.value + 1) < |t|
         && t[StringBody(t, v.value + 1)] == QUOTE
      then Some(Span(v.value + 1, StringBody(t, v.value + 1)))
      else TextField(t, i + 1)
  }

  const FENCE: Text := [BACKTICK, BACKTICK, BACKTICK]

  /** Everything before the first line break that leads to a code fence. */
  function CutFencedTail(t: Text, i: nat): Text
    requires i <= |t|
    decreases |t| - i
  {
    if i == |t| then t
    else if t[i] == NEWLINE && Starts(t, SkipSpace(t, i + 1), FENCE) then t[..i]
    else CutFencedTail(t, i + 1)
  }

  /** Everything before a code fence that ends the text. */
  function CutClosingFence(t: Text, i: nat): Text
    requires i <= |t|
    decreases |t| - i
  {
    if i == |t| then t
    else if Starts(t, i, FENCE) && SkipSpace(t, i + 3) == |t| then t[..i]
    else CutClosingFence(t, i + 1)
  }

  // ----- The two loops -----

  /** The loops' own variables; unlike the scanner's, their depth may go below zero. */
  datatype Cursor = Cursor(depth: int, inString: bool, escape: bool)

  function Advance(c: Cursor, ch: int): Cursor {
    if c.escape then c.(escape := false)
    else if c.inString then
      if ch == BACKSLASH then c.(escape := true)
      else if ch == QUOTE then c.(inString := false)
      else c
    else if ch == QUOTE then c.(inString := true)
    else if ch == LBRACE then c.(depth := c.depth + 1)
    else if ch == RBRACE then c.(depth := c.depth - 1)
    else c
  }

  predicate Closes(c: Cursor, ch: int) {
    !c.escape && !c.inString && ch == RBRACE && c.depth == 1
  }

  /** Just past the brace that brings the depth back to zero, or the end of the text. */
  function ObjectEnd(t: Text, i: nat, c: Cursor): (j: nat)
    requires i <= |t|
    ensures i <= j <= |t|
    decreases |t| - i
  {
    if i == |t| then i
    else if Closes(c, t[i]) then i + 1
    else ObjectEnd(t, i + 1, Advance(c, t[i]))
  }

  /** The objects completed at depth zero from i on, up to a bracket that closes the array; `start`
      is where the open one began, or -1. */
  function BlocksFrom(t: Text, i: nat, c: Cursor, start: int): seq<Value>
    requires i <= |t| && start < i
    decreases |t| - i
  {
    if i == |t| || EndsArray(c, t[i]) then []
    else if Closes(c, t[i]) then Completed(t, start, i + 1) + BlocksFrom(t, i + 1, Advance(c, t[i]), -1)
    else BlocksFrom(t, i + 1, Advance(c, t[i]), if Opens(c, t[i]) then i else start)
  }

  predicate EndsArray(c: Cursor, ch: int) {
    !c.escape && !c.inString && ch == RBRACKET && c.depth == 0
  }

  predicate Opens(c: Cursor, ch: int) {
    !c.escape && !c.inString && ch == LBRACE && c.depth == 0
  }

  function Completed(t: Text, start: int, end: nat): seq<Value>
    requires start < end <= |t|
  {
    if start < 0 then []
    else
      var v := ParseRange(t, start, end);
      if v.Some? then [v.value] else []
  }

  method FindObjectEnd(t: Text) returns (end: nat)
    ensures end == ObjectEnd(t, 0, Cursor(0, false, false))
  {
    var depth, inString, escape := 0, false, false;
    for i := 0 to |t|
      invariant ObjectEnd(t, i, Cursor(depth, inString, escape)) == ObjectEnd(t, 0, Cursor(0, false, false))
    {
      var ch := t[i];
      if escape {
        escape := false;
      } else if inString {
        if ch == BACKSLASH {
          escape := true;
        } else if ch == QUOTE {
          inString := false;
        }
      } else if ch == QUOTE {
        inString := true;
      } else if ch == LBRACE {
        depth := depth + 1;
      } else if ch == RBRACE {
        depth := depth - 1;
        if depth == 0 {
          return i + 1;
        }
      }
    }
    return |t|;
  }

  /** One turn of the loop below, in the loop's own variables. */
  method BlocksOne(t: Text, i: nat, depth: int, inString: bool, escape: bool, blockStart: int)
    returns (found: seq<Value>, depth': int, inString': bool, escape': bool, blockStart': int, done: bool)
    requires i < |t| && -1 <= blockStart < i
    ensures -1 <= blockStart' <= i
    ensures var c := Cursor(depth, inString, escape);
            && done == EndsArray(c, t[i])
            && Cursor(depth', inString', escape') == Advance(c, t[i])
            && found == (if Closes(c, t[i]) then Completed(t, blockStart, i + 1) else [])
            && blockStart' == (if Closes(c, t[i]) then -1 else if Opens(c, t[i]) then i else blockStart)
  {
    found, depth', inString', escape', blockStart', done := [], depth, inString, escape, blockStart, false;
    var ch := t[i];
    if escape {
      escape' := false;
    } else if inString {
      if ch == BACKSLASH {
        escape' := true;
      } else if ch == QUOTE {
        inString' := false;
      }
    } else if ch == QUOTE {
      inString' := true;
    } else if ch == LBRACE {
      if depth == 0 {
        blockStart' := i;
      }
      depth' := depth + 1;
    } else if ch == RBRACE {
      depth' := depth - 1;
      if depth' == 0 && blockStart >= 0 {
        var v := ParseRange(t, blockStart, i + 1);
        if v.Some? {
          found := [v.value];
        }
        blockStart' := -1;
      }
    } else if ch == RBRACKET && depth == 0 {
      done := true;
    }
  }

  method ExtractCompleteBlocks(t: Text) returns (blocks: Option<seq<Value>>)
    ensures blocks == CompleteBlocks(t)
  {
    var m := BlocksStart(t, 0);
    if m.None? {
      return None;
    }
    var found: seq<Value> := [];
    var depth, inString, escape, blockStart := 0, false, false, -1;
    ghost var all := BlocksFrom(t, m.value, Cursor(0, false, false), -1);
    var i, done := m.value, false;
    while i < |t| && !done
      invariant m.value <= i <= |t| && -1 <= blockStart < i
      invariant done ==> found == all
      invariant !done ==> found + BlocksFrom(t, i, Cursor(depth, inString, escape), blockStart) == all
      decreases |t| - i, !done
    {
      BlocksUnit(t, i, Cursor(depth, inString, escape), blockStart, found);
      var more;
      more, depth, inString, escape, blockStart, done := BlocksOne(t, i, depth, inString, escape, blockStart);
      found := found + more;
      i := i + 1;
    }
    assert found + [] == found;
    return if found == [] then None else Some(found);
  }

  /** What one unit contributes. */
  lemma BlocksUnit(t: Text, i: nat, c: Cursor, start: int, found: seq<Value>)
    requires i < |t| && start < i
    ensures var closes := Closes(c, t[i]);
            var more := if closes then Completed(t, start, i + 1) else [];
            var start' := if closes then -1 else if Opens(c, t[i]) then i else start;
            found + BlocksFrom(t, i, c, start) ==
            if EndsArray(c, t[i]) then found + more
            else (found + more) + BlocksFrom(t, i + 1, Advance(c, t[i]), start')
  {
  }

  function CompleteBlocks(t: Text): Option<seq<Value>> {
    var m := BlocksStart(t, 0);
    if m.None? then None
    else
      var found := BlocksFrom(t, m.value, Cursor(0, false, false), -1);
      if found == [] then None else Some(found)
  }

  /** The envelope-shaped part of an output, without fences, preamble and trailing junk. */
  function JsonContent(t: Text): Option<Text> {
    var start := EnvelopeStart(t, 0);
    if start.None? then None
    else
      var part := CutClosingFence(CutFencedTail(t[start.value..], 0), 0);
      Some(part[..ObjectEnd(part, 0, Cursor(0, false, false))])
  }

  /** The last stage of parseBlockOutput. */
  function SalvageOutput(t: Text): Option<Envelope> {
    var content := JsonContent(t);
    if content.None? then None
    else
      var field := TextField(content.value, 0);
      if field.None? then None
      else
        var text := Parse([QUOTE] + content.value[field.value.start..field.value.end] + [QUOTE]);
        if text.None? || !text.value.Str? then None
        else Some(Envelope(text.value.s, CompleteBlocks(content.value), None))
  }

  method ParseBlockOutput(t: Text) returns (answer: Option<Envelope>)
    ensures answer == BlockOutput(t)
  {
    answer := ParseCompleteOutput(t);
    if answer.Some? {
      return;
    }
    var start := EnvelopeStart(t, 0);
    if start.None? {
      return None;
    }
    var part := CutClosingFence(CutFencedTail(t[start.value..], 0), 0);
    var end := FindObjectEnd(part);
    var content := part[..end];
    var field := TextField(content, 0);
    if field.None? {
      return None;
    }
    var text := Parse([QUOTE] + content[field.value.start..field.value.end] + [QUOTE]);
    if text.None? || !text.value.Str? {
      return None;
    }
    var blocks := ExtractCompleteBlocks(content);
    return Some(Envelope(text.value.s, blocks, None));
  }

  function BlockOutput(t: Text): Option<Envelope> {
    if CompleteOutput(t).Some? then CompleteOutput(t) else SalvageOutput(t)
  }
}
