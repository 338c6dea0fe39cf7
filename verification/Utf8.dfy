/**
UTF-8 as section 4 of RFC 3629 defines it, and the lossy decoding that `String::from_utf8_lossy`
performs on terminal output: each maximal ill-formed run of bytes becomes one U+FFFD.
*/
module Utf8 {

  type byte = x: int | 0 <= x < 256

  const REPLACEMENT: char := '\U{FFFD}'

  /** How many bytes the sequence introduced by `lead` has; zero if no sequence starts with it. */
  function Width(lead: byte): nat {
    if lead < 0x80 then 1
    else if 0xC2 <= lead <= 0xDF then 2
    else if 0xE0 <= lead <= 0xEF then 3
    else if 0xF0 <= lead <= 0xF4 then 4
    else 0
  }

  predicate Continuation(b: byte) {
    0x80 <= b <= 0xBF
  }

  /** Whether `b` may stand at position `i` (from 1) of a sequence introduced by `lead`. */
  predicate Follows(lead: byte, i: nat, b: byte) {
    && i < Width(lead)
    && if i == 1 && lead == 0xE0 then 0xA0 <= b <= 0xBF
       else if i == 1 && lead == 0xED then 0x80 <= b <= 0x9F
       else if i == 1 && lead == 0xF0 then 0x90 <= b <= 0xBF
       else if i == 1 && lead == 0xF4 then 0x80 <= b <= 0x8F
       else Continuation(b)
  }

  /** The length of the first unit of `bs`: a whole sequence, or a maximal ill-formed run. */
  function UnitLength(bs: seq<byte>): (n: nat)
    requires bs != []
    ensures 1 <= n <= |bs|
  {
    if |bs| == 1 || !Follows(bs[0], 1, bs[1]) then 1
    else if |bs| == 2 || !Follows(bs[0], 2, bs[2]) then 2
    else if |bs| == 3 || !Follows(bs[0], 3, bs[3]) then 3
    else 4
  }

  /** `bs` is exactly one well-formed sequence. */
  predicate Whole(bs: seq<byte>) {
    bs != [] && |bs| == Width(bs[0]) && UnitLength(bs) == |bs|
  }

  /** `a` is one unit, and the bytes ended inside the sequence it begins. */
  predicate Open(a: seq<byte>) {
    a != [] && UnitLength(a) == |a| < Width(a[0])
  }

  function CodePoint(bs: seq<byte>): (c: char)
    requires Whole(bs)
  {
    if |bs| == 1 then bs[0] as char
    else if |bs| == 2 then (Digit(bs[1]) + 0x40 * (bs[0] as int - 0xC0)) as char
    else if |bs| == 3 then (Digit(bs[2]) + 0x40 * (Digit(bs[1]) + 0x40 * (bs[0] as int - 0xE0))) as char
    else (Digit(bs[3]) + 0x40 * (Digit(bs[2]) + 0x40 * (Digit(bs[1]) + 0x40 * (bs[0] as int - 0xF0)))) as char
  }

  /** The six payload bits of a continuation byte. */
  function Digit(b: byte): int {
    b as int - 0x80
  }

  function DecodeUnit(bs: seq<byte>): char {
    if Whole(bs) then CodePoint(bs) else REPLACEMENT
  }

  /** `String::from_utf8_lossy`. */
  function Decode(bs: seq<byte>): string {
    if bs == [] then []
    else
      var n := UnitLength(bs);
      [DecodeUnit(bs[..n])] + Decode(bs[n..])
  }

  /** `bs` is a sequence of well-formed sequences. */
  predicate Valid(bs: seq<byte>) {
    bs == [] ||
    var n := UnitLength(bs);
    Whole(bs[..n]) && Valid(bs[n..])
  }

  function EncodeChar(c: char): (bs: seq<byte>)
    ensures Whole(bs) && CodePoint(bs) == c
  {
    var v := c as int;
    var (v1, d0) := (v / 0x40, v % 0x40);
    if v < 0x80 then [v]
    else if v < 0x800 then [0xC0 + v1, 0x80 + d0]
    else
      var (v2, d1) := (v1 / 0x40, v1 % 0x40);
      if v < 0x10000 then [0xE0 + v2, 0x80 + d1, 0x80 + d0]
      else
        var (v3, d2) := (v2 / 0x40, v2 % 0x40);
        [0xF0 + v3, 0x80 + d2, 0x80 + d1, 0x80 + d0]
  }

  function Encode(s: string): seq<byte> {
    if s == [] then [] else EncodeChar(s[0]) + Encode(s[1..])
  }

  // ----- One unit -----

  lemma UnitFollows(bs: seq<byte>, i: nat)
    requires bs != [] && 1 <= i < |bs|
    ensures i < UnitLength(bs) ==> Follows(bs[0], i, bs[i])
    ensures i == UnitLength(bs) ==> !Follows(bs[0], i, bs[i])
  {
  }

  /** A unit does not depend on what follows it, unless the input ended inside it. */
  lemma UnitOfPrefix(a: seq<byte>, b: seq<byte>)
    requires a != []
    requires !Open(a) || b == [] || !Follows(a[0], |a|, b[0])
    ensures UnitLength(a + b) == UnitLength(a)
    ensures (a + b)[..UnitLength(a)] == a[..UnitLength(a)]
    ensures (a + b)[UnitLength(a)..] == a[UnitLength(a)..] + b
  {
    var n, s := UnitLength(a), a + b;
    assert s[0] == a[0] && (1 < |a| ==> s[1] == a[1]) && (2 < |a| ==> s[2] == a[2]) && (3 < |a| ==> s[3] == a[3]);
    if b != [] {
      assert s[|a|] == b[0];
    } else {
      assert s == a;
    }
  }

  /** One step of decoding, for a first unit `w` followed by `rest`. */
  lemma DecodeStep(w: seq<byte>, rest: seq<byte>)
    requires w != [] && UnitLength(w + rest) == |w|
    ensures Decode(w + rest) == [DecodeUnit(w)] + Decode(rest)
    ensures Valid(w + rest) <==> Whole(w) && Valid(rest)
  {
    assert (w + rest)[..|w|] == w && (w + rest)[|w|..] == rest;
  }

  lemma DecodeWhole(w: seq<byte>, rest: seq<byte>)
    requires Whole(w)
    ensures Decode(w + rest) == [CodePoint(w)] + Decode(rest)
    ensures Valid(w + rest) <==> Valid(rest)
  {
    UnitOfPrefix(w, rest);
    DecodeStep(w, rest);
  }

  /** The width of a sequence is determined by the range of its code point, so no overlong form exists. */
  lemma WidthFromCodePoint(w: seq<byte>)
    requires Whole(w)
    ensures var v := CodePoint(w) as int;
            |w| == if v < 0x80 then 1 else if v < 0x800 then 2 else if v < 0x10000 then 3 else 4
  {
  }

  lemma CodePointIsInjective(w: seq<byte>, w': seq<byte>)
    requires Whole(w) && Whole(w') && CodePoint(w) == CodePoint(w')
    ensures w == w'
  {
    WidthFromCodePoint(w);
    WidthFromCodePoint(w');
    if |w| == 3 {
      ThreeBytesAreUnique(w, w');
    } else if |w| == 4 {
      FourBytesAreUnique(w, w');
    }
  }

  lemma ThreeBytesAreUnique(w: seq<byte>, w': seq<byte>)
    requires Whole(w) && Whole(w') && |w| == |w'| == 3 && CodePoint(w) as int == CodePoint(w') as int
    ensures w == w'
  {
    var (x, x') := (w[0] as int - 0xE0, w'[0] as int - 0xE0);
    DigitsAreUnique(Digit(w[2]), Digit(w[1]) + 0x40 * x, Digit(w'[2]), Digit(w'[1]) + 0x40 * x');
    DigitsAreUnique(Digit(w[1]), x, Digit(w'[1]), x');
  }

  lemma FourBytesAreUnique(w: seq<byte>, w': seq<byte>)
    requires Whole(w) && Whole(w') && |w| == |w'| == 4 && CodePoint(w) as int == CodePoint(w') as int
    ensures w == w'
  {
    var (x, x') := (w[0] as int - 0xF0, w'[0] as int - 0xF0);
    var (y, y') := (Digit(w[1]) + 0x40 * x, Digit(w'[1]) + 0x40 * x');
    DigitsAreUnique(Digit(w[3]), Digit(w[2]) + 0x40 * y, Digit(w'[3]), Digit(w'[2]) + 0x40 * y');
    DigitsAreUnique(Digit(w[2]), y, Digit(w'[2]), y');
    DigitsAreUnique(Digit(w[1]), x, Digit(w'[1]), x');
  }

  lemma DigitsAreUnique(d: int, x: int, d': int, x': int)
    requires 0 <= d < 0x40 && 0 <= d' < 0x40 && d + 0x40 * x == d' + 0x40 * x'
    ensures d == d' && x == x'
  {
  }

  // ----- Round trips -----

  lemma EncodeHead(s: string) returns (w: seq<byte>)
    requires s != []
    ensures Whole(w) && CodePoint(w) == s[0] && Encode(s) == w + Encode(s[1..])
  {
    w := EncodeChar(s[0]);
  }

  lemma DecodeEncodeStep(c: char, w: seq<byte>, more: seq<byte>, s: seq<byte>)
    requires Whole(w) && CodePoint(w) == c && s == w + more
    ensures Decode(s) == [c] + Decode(more)
  {
    DecodeWhole(w, more);
  }

  lemma {:induction false} DecodeEncodes(s: string, rest: seq<byte>)
    ensures Decode(Encode(s) + rest) == s + Decode(rest)
  {
    if s == [] {
      assert Encode(s) + rest == rest && s + Decode(rest) == Decode(rest);
    } else {
      var w := EncodeHead(s);
      var more := Encode(s[1..]) + rest;
      AppendAssoc(w, Encode(s[1..]), rest);
      DecodeEncodeStep(s[0], w, more, Encode(s) + rest);
      DecodeEncodes(s[1..], rest);
      ConsAppend(s, Decode(rest));
    }
  }

  lemma AppendAssoc(a: seq<byte>, b: seq<byte>, c: seq<byte>)
    ensures (a + b) + c == a + (b + c)
  {
  }

  lemma ConsAppend(s: string, t: string)
    requires s != []
    ensures s + t == [s[0]] + (s[1..] + t)
  {
  }

  lemma {:induction false} EncodingIsValid(s: string)
    ensures Valid(Encode(s))
  {
    if s != [] {
      DecodeWhole(EncodeChar(s[0]), Encode(s[1..]));
      EncodingIsValid(s[1..]);
    }
  }

  lemma EncodeCons(c: char, s: string, w: seq<byte>)
    requires Whole(w) && CodePoint(w) == c
    ensures Encode([c] + s) == w + Encode(s)
  {
    CodePointIsInjective(w, EncodeChar(c));
    assert ([c] + s)[1..] == s;
  }

  lemma {:induction false} ValidReencodes(bs: seq<byte>)
    requires Valid(bs)
    ensures Encode(Decode(bs)) == bs
  {
    if bs != [] {
      var n := UnitLength(bs);
      var w, rest := bs[..n], bs[n..];
      assert bs == w + rest;
      DecodeStep(w, rest);
      EncodeCons(CodePoint(w), Decode(rest), w);
      ValidReencodes(rest);
    }
  }

  /** Re-encoding the decoded text gives the payload back exactly for well-formed payloads. */
  lemma ReencodesIffValid(bs: seq<byte>)
    ensures Encode(Decode(bs)) == bs <==> Valid(bs)
  {
    if Valid(bs) {
      ValidReencodes(bs);
    }
    EncodingIsValid(Decode(bs));
  }

  // ----- Splitting a stream -----

  /** The start of the last unit of `bs` when `bs` ends inside a sequence; otherwise |bs|. */
  function OpenTail(bs: seq<byte>): (t: nat)
    ensures t <= |bs|
  {
    if bs == [] then 0
    else
      var n := UnitLength(bs);
      if Open(bs) then 0 else n + OpenTail(bs[n..])
  }

  /** Cutting the stream between `a` and `b` cuts a character: `b` goes on with the sequence `a` ends in. */
  predicate CutsCharacter(a: seq<byte>, b: seq<byte>) {
    var tail := a[OpenTail(a)..];
    tail != [] && b != [] && Follows(tail[0], |tail|, b[0])
  }

  lemma ContinuationStandsAlone(b: seq<byte>)
    requires b != [] && Continuation(b[0])
    ensures Decode(b) == [REPLACEMENT] + Decode(b[1..])
  {
    assert [b[0]] + b[1..] == b;
    DecodeStep([b[0]], b[1..]);
  }

  lemma {:induction false} ContinuationsStandAlone(b: seq<byte>, n: nat)
    requires n <= |b| && forall i | 0 <= i < n :: Continuation(b[i])
    ensures |Decode(b)| == n + |Decode(b[n..])|
  {
    if n == 0 {
      assert b[0..] == b;
    } else {
      ContinuationStandsAlone(b);
      ContinuationsStandAlone(b[1..], n - 1);
      assert b[1..][n - 1..] == b[n..];
    }
  }

  lemma OpenUnitGrows(a: seq<byte>, b: seq<byte>) returns (m: nat)
    requires Open(a) && b != [] && Follows(a[0], |a|, b[0])
    ensures 1 <= m <= |b| && UnitLength(a + b) == |a| + m
    ensures forall i | 0 <= i < m :: Continuation(b[i])
  {
    var s := a + b;
    assert s[0] == a[0] && (1 < |a| ==> s[1] == a[1]) && (2 < |a| ==> s[2] == a[2]);
    assert forall i | 0 <= i < |b| :: s[|a| + i] == b[i];
    m := UnitLength(s) - |a|;
    forall i | 0 <= i < m ensures Continuation(b[i]) {
      UnitFollows(s, |a| + i);
    }
  }

  lemma DecodeFirst(s: seq<byte>)
    requires s != []
    ensures |Decode(s)| == 1 + |Decode(s[UnitLength(s)..])|
  {
  }

  lemma DropAcross(a: seq<byte>, b: seq<byte>, m: nat)
    requires m <= |b|
    ensures (a + b)[|a| + m..] == b[m..]
  {
  }

  lemma CutLosesCharacters(a: seq<byte>, b: seq<byte>)
    requires Open(a) && b != [] && Follows(a[0], |a|, b[0])
    ensures |Decode(a)| + |Decode(b)| > |Decode(a + b)|
  {
    var s := a + b;
    var m := OpenUnitGrows(a, b);
    ContinuationsStandAlone(b, m);
    DecodeFirst(a);
    DecodeFirst(s);
    DropAcross(a, b, m);
  }

  lemma TailOfRest(a: seq<byte>)
    requires a != [] && !Open(a)
    ensures a[OpenTail(a)..] == a[UnitLength(a)..][OpenTail(a[UnitLength(a)..])..]
  {
  }

  /**
  Decoding a stream in two pieces and joining the texts equals decoding it in one piece exactly when
  the cut between the pieces does not fall inside a character; a bad cut yields a longer text.
  */
  lemma {:induction false} DecodeSplits(a: seq<byte>, b: seq<byte>)
    ensures Decode(a) + Decode(b) == Decode(a + b) <==> !CutsCharacter(a, b)
    ensures CutsCharacter(a, b) ==> |Decode(a)| + |Decode(b)| > |Decode(a + b)|
  {
    if a == [] {
      assert a + b == b && Decode(a) + Decode(b) == Decode(b);
    } else if Open(a) && b != [] && Follows(a[0], |a|, b[0]) {
      assert OpenTail(a) == 0 && a[0..] == a;
      CutLosesCharacters(a, b);
    } else {
      var rest := a[UnitLength(a)..];
      UnitOfPrefix(a, b);
      DecodeSplitsAfterUnit(a, b, a + b, rest, rest + b);
      if Open(a) {
        assert rest == [] && rest + b == b && Decode(rest) + Decode(b) == Decode(b);
        assert a[OpenTail(a)..] == a;
      } else {
        TailOfRest(a);
        DecodeSplits(rest, b);
      }
    }
  }

  lemma CancelHead(c: string, x: string, y: string, z: string, cx: string, cz: string)
    requires cx == c + x && cz == c + z
    ensures cx + y == cz <==> x + y == z
  {
    assert cx + y == c + (x + y);
    assert (c + (x + y))[|c|..] == x + y && cz[|c|..] == z;
  }

  lemma DecodeSplitsAfterUnit(a: seq<byte>, b: seq<byte>, s: seq<byte>, rest: seq<byte>, restB: seq<byte>)
    requires a != [] && rest == a[UnitLength(a)..]
    requires s != [] && restB == s[UnitLength(s)..] && a[..UnitLength(a)] == s[..UnitLength(s)]
    ensures |Decode(a)| == 1 + |Decode(rest)| && |Decode(s)| == 1 + |Decode(restB)|
    ensures Decode(a) + Decode(b) == Decode(s) <==> Decode(rest) + Decode(b) == Decode(restB)
  {
    var c := [DecodeUnit(a[..UnitLength(a)])];
    CancelHead(c, Decode(rest), Decode(b), Decode(restB), Decode(a), Decode(s));
  }

  lemma {:induction false} ValidHasNoOpenTail(bs: seq<byte>)
    requires Valid(bs)
    ensures OpenTail(bs) == |bs|
  {
    if bs != [] {
      ValidHasNoOpenTail(bs[UnitLength(bs)..]);
    }
  }

  function Flatten(bursts: seq<seq<byte>>): seq<byte> {
    if bursts == [] then [] else bursts[0] + Flatten(bursts[1..])
  }

  function DecodeEach(bursts: seq<seq<byte>>): string {
    if bursts == [] then [] else Decode(bursts[0]) + DecodeEach(bursts[1..])
  }

  /** No boundary between a burst and the rest of the stream cuts a character. */
  predicate CleanCuts(bursts: seq<seq<byte>>) {
    bursts == [] || (!CutsCharacter(bursts[0], Flatten(bursts[1..])) && CleanCuts(bursts[1..]))
  }

  /** Decoding burst by burst gives the text of the whole stream exactly when no burst boundary cuts a character. */
  lemma {:induction false} DecodeEachIffCleanCuts(bursts: seq<seq<byte>>)
    ensures DecodeEach(bursts) == Decode(Flatten(bursts)) <==> CleanCuts(bursts)
    ensures |DecodeEach(bursts)| >= |Decode(Flatten(bursts))|
    ensures !CleanCuts(bursts) ==> |DecodeEach(bursts)| > |Decode(Flatten(bursts))|
  {
    if bursts != [] {
      DecodeSplits(bursts[0], Flatten(bursts[1..]));
      DecodeEachIffCleanCuts(bursts[1..]);
    }
  }

  lemma {:induction false} ValidBurstsCutCleanly(bursts: seq<seq<byte>>)
    requires forall i | 0 <= i < |bursts| - 1 :: Valid(bursts[i])
    ensures CleanCuts(bursts)
  {
    if bursts != [] {
      if |bursts| > 1 {
        assert Valid(bursts[0]);
        ValidHasNoOpenTail(bursts[0]);
      }
      assert forall i | 0 <= i < |bursts[1..]| - 1 :: bursts[1..][i] == bursts[i + 1];
      ValidBurstsCutCleanly(bursts[1..]);
    }
  }

  /**
  The beginning of a character whose encoding breaks off, as long as it goes, becomes one replacement character;
  decoding
  goes on right behind it.
  */
  lemma BrokenCharacterIsOne(c: char, n: nat, rest: seq<byte>)
    requires 1 <= n < |EncodeChar(c)|
    requires rest == [] || !Follows(EncodeChar(c)[0], n, rest[0])
    ensures Decode(EncodeChar(c)[..n] + rest) == [REPLACEMENT] + Decode(rest)
  {
    var (w, a) := (EncodeChar(c), EncodeChar(c)[..n]);
    assert a[0] == w[0] && (n > 1 ==> a[1] == w[1]) && (n > 2 ==> a[2] == w[2]);
    assert UnitLength(a) == n;
    UnitOfPrefix(a, rest);
    DecodeStep(a, rest);
  }

  /** A byte that begins no character becomes one replacement character of its own. */
  lemma StrayByteIsOne(b: byte, rest: seq<byte>)
    requires 0x80 <= b < 0xC2 || 0xF5 <= b
    ensures Decode([b] + rest) == [REPLACEMENT] + Decode(rest)
  {
    UnitOfPrefix([b], rest);
    DecodeStep([b], rest);
  }

  /** A euro sign cut after its second byte decodes to two replacement characters. */
  lemma CutEuroSign()
    ensures Decode([0xE2, 0x82, 0xAC]) == "\U{20AC}"
    ensures Decode([0xE2, 0x82]) + Decode([0xAC]) == [REPLACEMENT, REPLACEMENT]
  {
    assert Encode("\U{20AC}") == [0xE2, 0x82, 0xAC] by {
      assert Encode("\U{20AC}") == EncodeChar('\U{20AC}') + Encode([]);
    }
    DecodeEncodes("\U{20AC}", []);
    var a: seq<byte> := [0xE2, 0x82];
    assert [0xE2, 0x82, 0xAC] + [] == [0xE2, 0x82, 0xAC] && a + [] == a;
    DecodeStep(a, []);
    ContinuationStandsAlone([0xAC]);
  }
}
