/**
 * UTF-8 (section 4 of RFC 3629) and String::from_utf8_lossy, which puts U+FFFD in place of every
 * maximal ill-formed part.
 */
module Utf8 {
  import opened Common

  predicate Continues(b: byte) { 0x80 <= b <= 0xBF }

  /** The second byte after a given first one: no overlong forms, no surrogates, at most U+10FFFF. */
  predicate Second(b0: byte, b1: byte) {
    if b0 == 0xE0 then 0xA0 <= b1 <= 0xBF
    else if b0 == 0xED then 0x80 <= b1 <= 0x9F
    else if b0 == 0xF0 then 0x90 <= b1 <= 0xBF
    else if b0 == 0xF4 then 0x80 <= b1 <= 0x8F
    else Continues(b1)
  }

  /** The length a first byte announces; 0 if no character starts with it. */
  function Width(b0: byte): nat {
    if b0 < 0x80 then 1
    else if 0xC2 <= b0 <= 0xDF then 2
    else if 0xE0 <= b0 <= 0xEF then 3
    else if 0xF0 <= b0 <= 0xF4 then 4
    else 0
  }

  /** The length of the character at the front, or of the ill-formed part there. */
  function Part(k: Bytes): (n: nat)
    requires k != []
    ensures 1 <= n <= |k|
  {
    var w := Width(k[0]);
    if w <= 1 || |k| < 2 || !Second(k[0], k[1]) then 1
    else if w == 2 || |k| < 3 || !Continues(k[2]) then 2
    else if w == 3 || |k| < 4 || !Continues(k[3]) then 3
    else 4
  }

  predicate StartsChar(k: Bytes) { k != [] && Part(k) == Width(k[0]) }

  predicate Valid(k: Bytes)
    decreases |k|
  {
    k == [] || (StartsChar(k) && Valid(k[Part(k)..]))
  }

  // ---------------------------------------------------------------- against the code points

  /** Unicode scalar values: no surrogates. */
  predicate Scalar(c: int) { 0 <= c < 0xD800 || 0xDFFF < c < 0x11_0000 }

  /** The encoding of section 3 of RFC 3629. */
  function Encode(c: int): Bytes
    requires Scalar(c)
  {
    if c < 0x80 then [c as byte]
    else if c < 0x800 then [(0xC0 + c / 64) as byte, Tail(c)]
    else if c < 0x1_0000 then [(0xE0 + c / 4096) as byte, Tail(c / 64), Tail(c)]
    else [(0xF0 + c / 26_2144) as byte, Tail(c / 4096), Tail(c / 64), Tail(c)]
  }

  function Tail(c: nat): byte { (0x80 + c % 64) as byte }

  lemma EncodedIsChar(c: int)
    requires Scalar(c)
    ensures StartsChar(Encode(c)) && Part(Encode(c)) == |Encode(c)|
  {
  }

  /** The scalar value of the character at the front. */
  function Decode(k: Bytes): (c: int)
    requires StartsChar(k)
    ensures Scalar(c)
  {
    var w := Width(k[0]);
    if w == 1 then k[0] as int
    else if w == 2 then (k[0] as int - 0xC0) * 64 + Six(k[1])
    else if w == 3 then (k[0] as int - 0xE0) * 4096 + Six(k[1]) * 64 + Six(k[2])
    else (k[0] as int - 0xF0) * 26_2144 + Six(k[1]) * 4096 + Six(k[2]) * 64 + Six(k[3])
  }

  function Six(b: byte): int { b as int - 0x80 }

  lemma SplitSix(a: nat, b: nat)
    requires b < 64
    ensures (a * 64 + b) / 64 == a && (a * 64 + b) % 64 == b
  {
  }

  lemma DecodedTwo(k: Bytes)
    requires StartsChar(k) && Width(k[0]) == 2
    ensures Encode(Decode(k)) == k[..2]
  {
    SplitSix(k[0] as int - 0xC0, Six(k[1]));
  }

  lemma DecodedThree(k: Bytes)
    requires StartsChar(k) && Width(k[0]) == 3
    ensures Encode(Decode(k)) == k[..3]
  {
    var a, b, d := k[0] as int - 0xE0, Six(k[1]), Six(k[2]);
    var c := Decode(k);
    assert c == (a * 64 + b) * 64 + d;
    SplitSix(a * 64 + b, d);
    SplitSix(a, b);
    assert c / 4096 == c / 64 / 64;
    assert 0x800 <= c < 0x1_0000;
  }

  lemma DecodedFour(k: Bytes)
    requires StartsChar(k) && Width(k[0]) == 4
    ensures Encode(Decode(k)) == k[..4]
  {
    var a, b, d, e := k[0] as int - 0xF0, Six(k[1]), Six(k[2]), Six(k[3]);
    var c := Decode(k);
    assert c == ((a * 64 + b) * 64 + d) * 64 + e;
    SplitSix((a * 64 + b) * 64 + d, e);
    SplitSix(a * 64 + b, d);
    SplitSix(a, b);
    assert c / 4096 == c / 64 / 64 && c / 26_2144 == c / 64 / 64 / 64;
    assert 0x1_0000 <= c;
  }

  lemma DecodedEncodes(k: Bytes)
    requires StartsChar(k)
    ensures Encode(Decode(k)) == k[..Part(k)]
  {
    var w := Width(k[0]);
    if w == 2 { DecodedTwo(k); }
    if w == 3 { DecodedThree(k); }
    if w == 4 { DecodedFour(k); }
  }

  predicate AllScalar(cs: seq<int>) { forall c <- cs :: Scalar(c) }

  function EncodeAll(cs: seq<int>): Bytes
    requires AllScalar(cs)
  {
    if cs == [] then [] else Encode(cs[0]) + EncodeAll(cs[1..])
  }

  lemma {:induction false} EncodedIsValid(cs: seq<int>)
    requires AllScalar(cs)
    ensures Valid(EncodeAll(cs))
  {
    if cs != [] {
      EncodedIsChar(cs[0]);
      CharThen(Encode(cs[0]), EncodeAll(cs[1..]));
      EncodedIsValid(cs[1..]);
    }
  }

  lemma {:induction false} ValidDecodes(k: Bytes) returns (cs: seq<int>)
    requires Valid(k)
    ensures AllScalar(cs) && EncodeAll(cs) == k
    decreases |k|
  {
    if k == [] {
      cs := [];
    } else {
      var rest := ValidDecodes(k[Part(k)..]);
      cs := [Decode(k)] + rest;
      DecodedEncodes(k);
      assert cs[0] == Decode(k) && cs[1..] == rest;
      assert EncodeAll(cs) == k[..Part(k)] + k[Part(k)..];
    }
  }

  /** A text is valid if and only if it is the encoding of some scalar values. */
  lemma ValidIff(k: Bytes)
    ensures Valid(k) <==> exists cs: seq<int> :: AllScalar(cs) && EncodeAll(cs) == k
  {
    if Valid(k) { var cs := ValidDecodes(k); }
    if cs: seq<int> :| AllScalar(cs) && EncodeAll(cs) == k { EncodedIsValid(cs); }
  }

  /** `p` begins the encoding of some scalar value. */
  ghost predicate BeginsChar(p: Bytes) { exists c :: Scalar(c) && p <= Encode(c) }

  /** The bytes of an encoded character, seen one at a time. */
  lemma EncodedBytes(c: int)
    requires Scalar(c)
    ensures var e := Encode(c);
            && |e| == Width(e[0])
            && (|e| > 1 ==> Second(e[0], e[1])) && (|e| > 2 ==> Continues(e[2])) && (|e| > 3 ==> Continues(e[3]))
  {
    EncodedIsChar(c);
  }

  /** Any start of a character can be completed. */
  lemma StartCompletes(k: Bytes)
    requires k != [] && !StartsChar(k) && Part(k) > 1
    ensures BeginsChar(k[..Part(k)])
  {
    var n := Part(k);
    var w := Width(k[0]);
    var full := k[..n] + if w - n == 1 then [0x80] else [0x80, 0x80];
    assert full[0] == k[0] && full[1] == k[1] && (n > 2 ==> full[2] == k[2]);
    assert StartsChar(full[..w]);
    DecodedEncodes(full[..w]);
    assert full[..w][..w] == full[..w];
    assert k[..n] <= Encode(Decode(full[..w]));
  }

  /**
   * What the lossy conversion replaces as one: the longest start of a character, or a single
   * byte that starts none.
   */
  lemma IllFormedIsMaximal(k: Bytes)
    requires k != [] && !StartsChar(k)
    ensures Part(k) == 1 || BeginsChar(k[..Part(k)])
    ensures Part(k) < |k| ==> !BeginsChar(k[..Part(k) + 1])
  {
    if Part(k) > 1 { StartCompletes(k); }
    if Part(k) < |k| {
      var p := k[..Part(k) + 1];
      forall c | Scalar(c) ensures !(p <= Encode(c)) {
        EncodedBytes(c);
      }
    }
  }

  // ---------------------------------------------------------------- the lossy conversion

  const REPLACEMENT: Bytes := [0xEF, 0xBF, 0xBD]

  function Lossy(k: Bytes): Bytes
    decreases |k|
  {
    if k == [] then []
    else (if StartsChar(k) then k[..Part(k)] else REPLACEMENT) + Lossy(k[Part(k)..])
  }

  /** One whole character followed by anything. */
  lemma CharThen(c: Bytes, rest: Bytes)
    requires StartsChar(c) && Part(c) == |c|
    ensures StartsChar(c + rest) && Part(c + rest) == |c| && (c + rest)[|c|..] == rest
  {
    var k := c + rest;
    assert k[0] == c[0] && (|c| > 1 ==> k[1] == c[1]) && (|c| > 2 ==> k[2] == c[2]) && (|c| > 3 ==> k[3] == c[3]);
  }

  lemma FrontIsChar(k: Bytes)
    requires StartsChar(k)
    ensures StartsChar(k[..Part(k)]) && Part(k[..Part(k)]) == Part(k)
  {
  }

  lemma {:induction false} LossyIsValid(k: Bytes)
    ensures Valid(Lossy(k))
    decreases |k|
  {
    if k != [] {
      var c := if StartsChar(k) then k[..Part(k)] else REPLACEMENT;
      if StartsChar(k) { FrontIsChar(k); }
      CharThen(c, Lossy(k[Part(k)..]));
      LossyIsValid(k[Part(k)..]);
    }
  }

  lemma {:induction false} ValidIsKept(k: Bytes)
    requires Valid(k)
    ensures Lossy(k) == k
    decreases |k|
  {
    if k != [] {
      ValidIsKept(k[Part(k)..]);
      assert k == k[..Part(k)] + k[Part(k)..];
    }
  }

  /** Exactly the valid texts survive. */
  lemma KeptIff(k: Bytes)
    ensures Lossy(k) == k <==> Valid(k)
  {
    LossyIsValid(k);
    if Valid(k) { ValidIsKept(k); }
  }

  /** The replacement neither removes nor adds a NUL. */
  lemma {:induction false} NulIsKept(k: Bytes)
    ensures 0 in Lossy(k) <==> 0 in k
    decreases |k|
  {
    if k != [] {
      NulIsKept(k[Part(k)..]);
      assert k == k[..Part(k)] + k[Part(k)..];
      if 0 in k[..Part(k)] { NulIsWhole(k); }
    }
  }

  lemma NulIsWhole(k: Bytes)
    requires k != [] && 0 in k[..Part(k)]
    ensures StartsChar(k)
  {
  }
}
