/** ECDSA signatures: from the DER sequence of two integers that OpenSSL writes (section 2.2.3 of RFC
    3279) to the 64 bytes that ES256 wants (section 3.4 of RFC 7518). */
module Der {
  import opened Wrappers

  type Byte = b: int | 0 <= b < 256

  type Bytes = seq<Byte>

  const SEQUENCE: Byte := 0x30
  const INTEGER: Byte := 0x02
  const WIDTH := 32

  /** ord($s[$i]): 0 past the end. */
  function At(s: Bytes, i: nat): Byte {
    if i < |s| then s[i] else 0
  }

  /** substr($s, $i, $n): what there is of it. */
  function Sub(s: Bytes, i: nat, n: nat): Bytes {
    if i >= |s| then [] else if i + n > |s| then s[i..] else s[i..i + n]
  }

  function LTrim(s: Bytes): Bytes {
    if s != [] && s[0] == 0 then LTrim(s[1..]) else s
  }

  function Zeros(n: nat): (z: Bytes)
    ensures |z| == n
  {
    if n == 0 then [] else [0] + Zeros(n - 1)
  }

  datatype Component = Component(bytes: Bytes, next: nat)

  /** One INTEGER, as WIDTH bytes. */
  function IntegerAt(der: Bytes, offset: nat): Option<Component> {
    if At(der, offset) != INTEGER then None
    else
      var n := At(der, offset + 1);
      var value := LTrim(Sub(der, offset + 2, n));
      if |value| > WIDTH then None else Some(Component(Zeros(WIDTH - |value|) + value, offset + 2 + n))
  }

  /** Where the contents of the sequence start; a long-form length is skipped. */
  function ContentsAt(der: Bytes): nat {
    if At(der, 1) >= 0x80 then 2 + At(der, 1) % 0x80 else 2
  }

  /** The raw signature and how far the DER was read. */
  function RawOf(der: Bytes): Option<Component> {
    if |der| < 8 || der[0] != SEQUENCE then None
    else
      var r := IntegerAt(der, ContentsAt(der));
      if r.None? then None
      else
        var s := IntegerAt(der, r.value.next);
        if s.None? then None else Some(Component(r.value.bytes + s.value.bytes, s.value.next))
  }

  class Reader {
    var offset: nat

    constructor ()
      ensures offset == 0
    {
      offset := 0;
    }

    method ReadInt(der: Bytes) returns (component: Option<Bytes>)
      modifies this
      ensures var c := IntegerAt(der, old(offset));
              && (c.None? ==> component.None?)
              && (c.Some? ==> component == Some(c.value.bytes) && offset == c.value.next)
    {
      var tag := At(der, offset);
      offset := offset + 1;
      if tag != INTEGER {
        return None;
      }
      var n := At(der, offset);
      offset := offset + 1;
      var value := Sub(der, offset, n);
      offset := offset + n;
      value := LTrim(value);
      if |value| > WIDTH {
        return None;
      }
      return Some(Zeros(WIDTH - |value|) + value);
    }

    method EcdsaDerToRaw(der: Bytes) returns (raw: Option<Bytes>)
      modifies this
      ensures raw.None? <==> RawOf(der).None?
      ensures raw.Some? ==> raw.value == RawOf(der).value.bytes && offset == RawOf(der).value.next
    {
      hide IntegerAt;
      offset := 0;
      if |der| < 8 {
        return None;
      }
      var tag := At(der, offset);
      offset := offset + 1;
      if tag != SEQUENCE {
        return None;
      }
      var n := At(der, offset);
      offset := offset + 1;
      if n >= 0x80 {
        offset := offset + n % 0x80;
      }
      var r := ReadInt(der);
      if r.None? {
        return None;
      }
      var s := ReadInt(der);
      if s.None? {
        return None;
      }
      return Some(r.value + s.value);
    }
  }

  // ----- Unsigned big-endian numbers -----

  function Pow(k: nat): (p: nat)
    ensures p >= 1
  {
    if k == 0 then 1 else 256 * Pow(k - 1)
  }

  function Value(s: Bytes): nat {
    if s == [] then 0 else Value(s[..|s| - 1]) * 256 + s[|s| - 1]
  }

  /** n in exactly k bytes, the low-order ones if it does not fit. */
  function Fixed(n: nat, k: nat): (s: Bytes)
    ensures |s| == k
  {
    if k == 0 then [] else Fixed(n / 256, k - 1) + [n % 256]
  }

  /** n in as few bytes as possible, none for zero. */
  function Shortest(n: nat): Bytes {
    if n == 0 then [] else Shortest(n / 256) + [n % 256]
  }

  lemma {:induction false} FixedOfValue(s: Bytes)
    ensures Fixed(Value(s), |s|) == s
    decreases |s|
  {
    if s != [] {
      FixedOfValue(s[..|s| - 1]);
      assert s == s[..|s| - 1] + [s[|s| - 1]];
    }
  }

  lemma {:induction false} LeadingZero(s: Bytes)
    ensures Value([0] + s) == Value(s)
    decreases |s|
  {
    if s != [] {
      LeadingZero(s[..|s| - 1]);
      assert ([0] + s)[..|s|] == [0] + s[..|s| - 1];
    }
  }

  lemma {:induction false} LeadingZeros(n: nat, s: Bytes)
    ensures Value(Zeros(n) + s) == Value(s)
    decreases n
  {
    if n == 0 {
      assert Zeros(0) + s == s;
    } else {
      LeadingZeros(n - 1, s);
      LeadingZero(Zeros(n - 1) + s);
      assert Zeros(n) + s == [0] + (Zeros(n - 1) + s);
    }
  }

  lemma {:induction false} TrimmedValue(s: Bytes)
    ensures Value(LTrim(s)) == Value(s) && (LTrim(s) != [] ==> LTrim(s)[0] != 0)
    decreases |s|
  {
    if s != [] && s[0] == 0 {
      TrimmedValue(s[1..]);
      LeadingZero(s[1..]);
      assert s == [0] + s[1..];
    }
  }

  lemma {:induction false} ValueRange(s: Bytes)
    ensures Value(s) < Pow(|s|)
    ensures s != [] && s[0] != 0 ==> Value(s) >= Pow(|s| - 1)
    decreases |s|
  {
    if s != [] {
      ValueRange(s[..|s| - 1]);
    }
  }

  lemma {:induction false} PowGrows(a: nat, b: nat)
    requires a <= b
    ensures Pow(a) <= Pow(b)
    decreases b
  {
    if a < b { PowGrows(a, b - 1); }
  }

  /** A component is padded exactly when its number fits, and then it is that number. */
  lemma ComponentIsNumber(content: Bytes)
    ensures var v := LTrim(content);
            && (|v| <= WIDTH <==> Value(content) < Pow(WIDTH))
            && (|v| <= WIDTH ==> Zeros(WIDTH - |v|) + v == Fixed(Value(content), WIDTH))
  {
    hide Pow, Value, Fixed, LTrim, Zeros;
    var v := LTrim(content);
    TrimmedValue(content);
    ValueRange(v);
    if |v| <= WIDTH {
      PowGrows(|v|, WIDTH);
      LeadingZeros(WIDTH - |v|, v);
      FixedOfValue(Zeros(WIDTH - |v|) + v);
    } else {
      PowGrows(WIDTH, |v| - 1);
    }
  }

  // ----- Encodings -----

  /** The contents of a DER integer: as short as possible, with a zero where the sign bit would be set. */
  function Minimal(n: nat): Bytes {
    var s := Shortest(n);
    if s == [] || s[0] >= 0x80 then [0] + s else s
  }

  function Tagged(content: Bytes): Bytes
    requires |content| < 256
  {
    [INTEGER, |content|] + content
  }

  /** A sequence header with a length in short form, or in long form with any length bytes. */
  predicate IsHeader(header: Bytes) {
    && |header| >= 2 && header[0] == SEQUENCE
    && |header| == if header[1] < 0x80 then 2 else 2 + header[1] % 0x80
  }

  // ----- Any bytes at all -----

  /** The content of an INTEGER that stands at i, as far as the bytes go. */
  function ContentAt(der: Bytes, i: nat): Bytes {
    if i + 2 >= |der| then [] else if i + 2 + der[i + 1] > |der| then der[i + 2..] else der[i + 2..i + 2 + der[i + 1]]
  }

  /** Where the next one is looked for. */
  function NextAt(der: Bytes, i: nat): nat {
    if i + 1 < |der| then i + 2 + der[i + 1] else i + 2
  }

  predicate IntegerFits(der: Bytes, i: nat) {
    i < |der| && der[i] == 0x02 && Value(ContentAt(der, i)) < Pow(32)
  }

  lemma IntegerIff(der: Bytes, i: nat)
    ensures var c := IntegerAt(der, i);
            && (c.Some? <==> IntegerFits(der, i))
            && (c.Some? ==> c.value == Component(Fixed(Value(ContentAt(der, i)), 32), NextAt(der, i)))
  {
    hide Pow, Value, Fixed, LTrim, Zeros;
    ComponentIsNumber(ContentAt(der, i));
  }

  /** Exactly which byte strings are accepted, and what comes of them: after the sequence tag and its length
      there are two integers, each of a number below 2^256, whatever their padding. */
  lemma RawIff(der: Bytes)
    ensures var i := if |der| > 1 && der[1] >= 0x80 then der[1] - 0x80 + 2 else 2;
            var j := NextAt(der, i);
            && (RawOf(der).Some? <==>
                  |der| >= 8 && der[0] == 0x30 && IntegerFits(der, i) && IntegerFits(der, j))
            && (RawOf(der).Some? ==>
                  RawOf(der).value
                  == Component(
                       Fixed(Value(ContentAt(der, i)), 32) + Fixed(Value(ContentAt(der, j)), 32), NextAt(der, j)))
  {
    hide Pow, Value, Fixed, IntegerAt, ContentAt, IntegerFits;
    var i := if |der| > 1 && der[1] >= 0x80 then der[1] - 0x80 + 2 else 2;
    if |der| >= 8 { assert ContentsAt(der) == i; }
    IntegerIff(der, i);
    IntegerIff(der, NextAt(der, i));
  }

  lemma TaggedRead(der: Bytes, offset: nat, content: Bytes)
    requires |content| < 256 && offset + 2 + |content| <= |der|
             && der[offset..offset + 2 + |content|] == Tagged(content)
    ensures var c := IntegerAt(der, offset);
            && (c.Some? <==> Value(content) < Pow(WIDTH))
            && (c.Some? ==> c.value == Component(Fixed(Value(content), WIDTH), offset + 2 + |content|))
  {
    hide Pow, Value, Fixed, LTrim, Zeros;
    var part := der[offset..offset + 2 + |content|];
    assert der[offset] == part[0] && der[offset + 1] == part[1];
    assert Sub(der, offset + 2, |content|) == part[2..] == content;
    ComponentIsNumber(content);
  }

  /** Whatever the header and the two integers: the result is the two numbers as 32 bytes each, unless
      one needs more, and the whole signature is read, no further. */
  lemma RawOfSignature(header: Bytes, r: Bytes, s: Bytes)
    requires IsHeader(header) && |r| < 256 && |s| < 256 && |header| + |r| + |s| >= 4
    ensures var der := header + Tagged(r) + Tagged(s);
            && (RawOf(der).Some? <==> Value(r) < Pow(WIDTH) && Value(s) < Pow(WIDTH))
            && (RawOf(der).Some? ==>
                  RawOf(der).value == Component(Fixed(Value(r), WIDTH) + Fixed(Value(s), WIDTH), |der|))
  {
    hide Pow, Value, Fixed, IntegerAt;
    var der := header + Tagged(r) + Tagged(s);
    var i, j := |header|, |header| + 2 + |r|;
    assert der[0] == header[0] && der[1] == header[1] && ContentsAt(der) == i;
    assert der[i..j] == Tagged(r);
    assert der[j..j + 2 + |s|] == Tagged(s);
    TaggedRead(der, i, r);
    TaggedRead(der, j, s);
  }

  lemma {:induction false} ShortestFits(n: nat, k: nat)
    requires n < Pow(k)
    ensures Value(Shortest(n)) == n && |Shortest(n)| <= k
    ensures if n == 0 then Shortest(n) == [] else Shortest(n) != [] && Shortest(n)[0] != 0
    decreases k
  {
    if n > 0 {
      ShortestFits(n / 256, k - 1);
      assert Shortest(n)[..|Shortest(n)| - 1] == Shortest(n / 256);
    }
  }

  lemma MinimalFits(n: nat)
    requires n < Pow(WIDTH)
    ensures Value(Minimal(n)) == n && 1 <= |Minimal(n)| <= WIDTH + 1
  {
    hide Pow, Value, Shortest;
    ShortestFits(n, WIDTH);
    LeadingZero(Shortest(n));
  }

  /** No sign bit, and no zero byte that is not needed for that. */
  lemma MinimalIsShort(n: nat)
    requires n < Pow(WIDTH)
    ensures var m := Minimal(n); m != [] && m[0] < 0x80 && (|m| > 1 && m[0] == 0 ==> m[1] >= 0x80)
  {
    hide Pow, Value, Shortest;
    ShortestFits(n, WIDTH);
  }

  /** The signature OpenSSL writes for r and s. */
  function Signature(r: nat, s: nat): Bytes
    requires r < Pow(WIDTH) && s < Pow(WIDTH)
  {
    MinimalFits(r);
    MinimalFits(s);
    [SEQUENCE, 4 + |Minimal(r)| + |Minimal(s)|] + Tagged(Minimal(r)) + Tagged(Minimal(s))
  }

  /** Every signature comes out as r and s, 32 bytes each, and is read to its last byte and no further. */
  lemma RawOfEcdsa(r: nat, s: nat)
    requires r < Pow(WIDTH) && s < Pow(WIDTH)
    ensures RawOf(Signature(r, s)) == Some(Component(Fixed(r, WIDTH) + Fixed(s, WIDTH), |Signature(r, s)|))
  {
    hide Pow, Value, Minimal, RawOf;
    MinimalFits(r);
    MinimalFits(s);
    RawOfSignature([SEQUENCE, 4 + |Minimal(r)| + |Minimal(s)|], Minimal(r), Minimal(s));
  }

  lemma {:induction false} ValueOfFixed(n: nat, k: nat)
    requires n < Pow(k)
    ensures Value(Fixed(n, k)) == n
    decreases k
  {
    if k > 0 {
      ValueOfFixed(n / 256, k - 1);
      assert Fixed(n, k)[..k - 1] == Fixed(n / 256, k - 1);
    }
  }

  /** No signature is confused with another: both numbers read back off the raw form. */
  lemma RawReadsBack(r: nat, s: nat)
    requires r < Pow(WIDTH) && s < Pow(WIDTH)
    ensures RawOf(Signature(r, s)).Some?
    ensures var raw := RawOf(Signature(r, s)).value.bytes;
            |raw| == 2 * WIDTH && Value(raw[..WIDTH]) == r && Value(raw[WIDTH..]) == s
  {
    hide Pow, Value, Fixed, RawOf, Signature;
    RawOfEcdsa(r, s);
    ValueOfFixed(r, WIDTH);
    ValueOfFixed(s, WIDTH);
    var raw := RawOf(Signature(r, s)).value.bytes;
    assert raw[..WIDTH] == Fixed(r, WIDTH) && raw[WIDTH..] == Fixed(s, WIDTH);
  }
}
