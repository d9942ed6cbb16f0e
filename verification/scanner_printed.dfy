/** The scanner on what agents are asked to write: printed JSON objects with prose between them. */
module PrintedOutput {
  import opened Json
  import opened JsonPrinter
  import opened EnvelopeScanner
  import opened Texts
  import opened Wrappers

  /** gaps[0], the first object, gaps[1], and so on; the last gap ends the text. */
  function Joined(values: seq<Value>, gaps: seq<Text>): Text
    requires |gaps| == |values| + 1
    decreases |values|
  {
    if values == [] then gaps[0] else gaps[0] + (Print(values[0]) + Joined(values[1..], gaps[1..]))
  }

  function SpansOf(values: seq<Value>, gaps: seq<Text>, from: nat): seq<Span>
    requires |gaps| == |values| + 1
    decreases |values|
  {
    if values == [] then []
    else
      var start := from + |gaps[0]|;
      var end := start + |Print(values[0])|;
      [Span(start, end)] + SpansOf(values[1..], gaps[1..], end)
  }

  /** The envelopes among the objects, in order. */
  function Envelopes(values: seq<Value>): seq<Envelope> {
    if values == [] then [] else EnvelopeOf(Some(values[0])) + Envelopes(values[1..])
  }

  ghost predicate AreObjects(values: seq<Value>) {
    forall v :: v in values ==> v.Obj? && Printable(v)
  }

  /** Prose without quotes and braces. */
  ghost predicate ArePlain(gaps: seq<Text>) {
    forall g, k :: g in gaps && 0 <= k < |g| ==> Neutral(g[k])
  }

  lemma GapStands(t: Text, from: nat, gap: Text)
    requires Stands(t, from, |t|, gap) && forall k :: 0 <= k < |gap| ==> Neutral(gap[k])
    ensures forall k :: from <= k < from + |gap| ==> Neutral(t[k])
  {
    forall k | from <= k < from + |gap| ensures Neutral(t[k]) {
      StandsAt(t, from, |t|, gap, k - from);
    }
  }

  lemma ObjectStands(v: Value, t: Text, i: nat)
    requires v.Obj? && Printable(v) && Stands(t, i, |t|, Print(v))
    ensures var e := i + |Print(v)|;
            && i < e <= |t| && t[i] == LBRACE && ParseValue(t, i, e) == Good(v, e) && ParseRange(t, i, e) == Some(v)
  {
    hide ParseValue, Printable, Print;
    var e := i + |Print(v)|;
    ObjectBrace(v);
    StandsAt(t, i, |t|, Print(v), 0);
    PrintedSkips(v, t, i, e);
    ReadsPrinted(v, t, i, e);
  }

  lemma ObjectBrace(v: Value)
    requires v.Obj?
    ensures |Print(v)| > 0 && Print(v)[0] == LBRACE
  {
  }

  lemma {:induction false} JoinedIsLayout(values: seq<Value>, gaps: seq<Text>, t: Text, from: nat)
    requires |gaps| == |values| + 1 && AreObjects(values) && ArePlain(gaps)
    requires Stands(t, from, |t|, Joined(values, gaps)) && from + |Joined(values, gaps)| == |t|
    ensures Layout(t, from, SpansOf(values, gaps, from))
    ensures InBounds(t, SpansOf(values, gaps, from))
    ensures EnvelopesOf(t, SpansOf(values, gaps, from)) == Envelopes(values)
    decreases |values|
  {
    hide *;
    if values == [] {
      NoObjects(gaps, t, from);
    } else {
      FirstObject(values, gaps, t, from);
      JoinedIsLayout(values[1..], gaps[1..], t, from + |gaps[0]| + |Print(values[0])|);
      SpansCons(values, gaps, t, from);
    }
  }

  lemma NoObjects(gaps: seq<Text>, t: Text, from: nat)
    requires |gaps| == 1 && ArePlain(gaps)
    requires Stands(t, from, |t|, Joined([], gaps)) && from + |Joined([], gaps)| == |t|
    ensures SpansOf([], gaps, from) == [] && Layout(t, from, []) && InBounds(t, [])
            && EnvelopesOf(t, []) == Envelopes([])
  {
    hide Stands, Neutral;
    assert gaps[0] in gaps;
    GapStands(t, from, gaps[0]);
  }

  /** A gap without quotes and braces, and an object that reads as values[0]. */
  ghost predicate ObjectAfterGap(t: Text, from: nat, start: nat, end: nat, v: Value) {
    && from <= start < end <= |t| && t[start] == LBRACE && (forall k :: from <= k < start ==> Neutral(t[k]))
    && ParseValue(t, start, end) == Good(v, end) && ParseRange(t, start, end) == Some(v)
  }

  /** The first of the objects, and where the rest goes on. */
  lemma FirstObject(values: seq<Value>, gaps: seq<Text>, t: Text, from: nat)
    requires values != [] && |gaps| == |values| + 1 && AreObjects(values) && ArePlain(gaps)
    requires Stands(t, from, |t|, Joined(values, gaps)) && from + |Joined(values, gaps)| == |t|
    ensures var i := from + |gaps[0]|;
            var e := i + |Print(values[0])|;
            && ObjectAfterGap(t, from, i, e, values[0])
            && Stands(t, e, |t|, Joined(values[1..], gaps[1..])) && e + |Joined(values[1..], gaps[1..])| == |t|
            && AreObjects(values[1..]) && ArePlain(gaps[1..])
  {
    hide *;
    var rest := Joined(values[1..], gaps[1..]);
    var i := from + |gaps[0]|;
    FirstAndRest(values, gaps);
    StandsSplit(t, from, |t|, gaps[0], Print(values[0]) + rest);
    StandsSplit(t, i, |t|, Print(values[0]), rest);
    GapStands(t, from, gaps[0]);
    ObjectStands(values[0], t, i);
    GapThenObject(t, from, i, i + |Print(values[0])|, values[0]);
  }

  lemma GapThenObject(t: Text, from: nat, start: nat, end: nat, v: Value)
    requires from <= start < end <= |t| && t[start] == LBRACE && (forall k :: from <= k < start ==> Neutral(t[k]))
    requires ParseValue(t, start, end) == Good(v, end) && ParseRange(t, start, end) == Some(v)
    ensures ObjectAfterGap(t, from, start, end, v)
  {
    hide Neutral, ParseValue, ParseRange;
  }

  lemma FirstAndRest(values: seq<Value>, gaps: seq<Text>)
    requires values != [] && |gaps| == |values| + 1 && AreObjects(values) && ArePlain(gaps)
    ensures Joined(values, gaps) == gaps[0] + (Print(values[0]) + Joined(values[1..], gaps[1..]))
    ensures values[0].Obj? && Printable(values[0]) && forall k :: 0 <= k < |gaps[0]| ==> Neutral(gaps[0][k])
    ensures AreObjects(values[1..]) && ArePlain(gaps[1..])
  {
    hide Print, Printable;
    assert gaps[0] in gaps && values[0] in values;
    assert forall v :: v in values[1..] ==> v in values;
    assert forall g :: g in gaps[1..] ==> g in gaps;
  }

  lemma SpansCons(values: seq<Value>, gaps: seq<Text>, t: Text, from: nat)
    requires values != [] && |gaps| == |values| + 1
    requires var i := from + |gaps[0]|;
             var e := i + |Print(values[0])|;
             var rest := SpansOf(values[1..], gaps[1..], e);
             && ObjectAfterGap(t, from, i, e, values[0]) && Layout(t, e, rest) && InBounds(t, rest)
             && EnvelopesOf(t, rest) == Envelopes(values[1..])
    ensures var spans := SpansOf(values, gaps, from);
            Layout(t, from, spans) && InBounds(t, spans) && EnvelopesOf(t, spans) == Envelopes(values)
  {
    hide Print, ParseValue, ParseRange, EnvelopeOf, Envelopes, SpansOf;
    var i := from + |gaps[0]|;
    var e := i + |Print(values[0])|;
    var rest := SpansOf(values[1..], gaps[1..], e);
    Unrolled(values, gaps, from);
    var spans := SpansOf(values, gaps, from);
    assert spans[0] == Span(i, e) && spans[1..] == rest;
  }

  lemma Unrolled(values: seq<Value>, gaps: seq<Text>, from: nat)
    requires values != [] && |gaps| == |values| + 1
    ensures var i := from + |gaps[0]|;
            var e := i + |Print(values[0])|;
            && SpansOf(values, gaps, from) == [Span(i, e)] + SpansOf(values[1..], gaps[1..], e)
            && Envelopes(values) == EnvelopeOf(Some(values[0])) + Envelopes(values[1..])
  {
    hide Print, EnvelopeOf;
  }

  /** From any printed objects, in any prose without quotes and braces, the scanner takes exactly
      those with a string `text`, in order. */
  lemma ScannerFindsPrinted(values: seq<Value>, gaps: seq<Text>)
    requires |gaps| == |values| + 1 && AreObjects(values) && ArePlain(gaps)
    ensures Scan(Joined(values, gaps), 0, Outside(0), 0) == Envelopes(values)
  {
    hide *;
    var t := Joined(values, gaps);
    WholeStands(t);
    JoinedIsLayout(values, gaps, t, 0);
    ScannerExact(t, SpansOf(values, gaps, 0));
  }

  /** And the answer is the last of them that carries blocks, or the last of them when none does,
      under its own title or else the latest one. */
  lemma AnswerOfPrinted(values: seq<Value>, gaps: seq<Text>)
    requires |gaps| == |values| + 1 && AreObjects(values) && ArePlain(gaps)
    ensures CompleteOutput(Joined(values, gaps)).None? <==> Envelopes(values) == []
    ensures CompleteOutput(Joined(values, gaps)).Some? ==>
              exists i: nat :: IsFinal(Envelopes(values), i)
                               && AnswersWith(CompleteOutput(Joined(values, gaps)).value, Envelopes(values), i)
  {
    hide *;
    var t := Joined(values, gaps);
    WholeStands(t);
    JoinedIsLayout(values, gaps, t, 0);
    AnswerIsLast(t, SpansOf(values, gaps, 0));
  }

  lemma WholeStands(t: Text)
    ensures Stands(t, 0, |t|, t)
  {
    assert t[0..|t|] == t;
  }
}
