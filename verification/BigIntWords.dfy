/**
 BigInt words and 128-bit integers.

 A JS BigInt is a sign and little-endian 64-bit words. Two readers turn it into a 128-bit integer: one goes through
 bytes and a wrapping negation, the other reinterprets the first two words. Rust's own negation overflows on the
 least i128: with overflow checks that is a panic, without them it wraps.
 */
module BigIntWords {
  import opened Machine

  const W: int := 0x1_0000_0000_0000_0000
  const HALF: int := 0x8000_0000_0000_0000_0000_0000_0000_0000
  const FULL: int := 0x1_0000_0000_0000_0000_0000_0000_0000_0000

  type byte = b: int | 0 <= b < 256
  type u64 = w: int | 0 <= w < 0x1_0000_0000_0000_0000
  type i64 = v: int | -0x8000_0000_0000_0000 <= v < 0x8000_0000_0000_0000
  type u128 = v: int | 0 <= v < 0x1_0000_0000_0000_0000_0000_0000_0000_0000
  type i128 = v: int | -0x8000_0000_0000_0000_0000_0000_0000_0000 <= v < 0x8000_0000_0000_0000_0000_0000_0000_0000

  datatype BigInt = BigInt(sign: bool, words: seq<u64>)

  // ---------------------------------------------------------------------------------------------------------
  // What the words denote
  // ---------------------------------------------------------------------------------------------------------

  function Magnitude(words: seq<u64>): (m: nat)
  {
    if words == [] then 0 else words[0] + W * Magnitude(words[1..])
  }

  function Denote(b: BigInt): (v: int)
  {
    var m: int := Magnitude(b.words);
    if b.sign then -m else m
  }

  /** The first two words, absent ones read as 0. */
  function Low128(words: seq<u64>): (v: u128)
  {
    (if |words| > 0 then words[0] else 0) + W * (if |words| > 1 then words[1] else 0)
  }

  lemma {:induction false} LowOfMagnitude(words: seq<u64>)
    ensures exists k: nat :: Magnitude(words) == Low128(words) + FULL * k
    ensures |words| <= 2 ==> Magnitude(words) == Low128(words)
  {
    if |words| >= 2 {
      var k := Magnitude(words[2..]);
      assert words[1..][1..] == words[2..];
      assert Magnitude(words) == words[0] + W * (words[1] + W * k);
      assert Magnitude(words) == Low128(words) + FULL * k;
    } else {
      assert Magnitude(words) == Low128(words) + FULL * 0;
    }
  }

  // ---------------------------------------------------------------------------------------------------------
  // Bytes
  // ---------------------------------------------------------------------------------------------------------

  function Pow256(n: nat): (p: nat)
    ensures p > 0
  {
    if n == 0 then 1 else 256 * Pow256(n - 1)
  }

  lemma Pow256Values()
    ensures Pow256(8) == W && Pow256(16) == FULL
  {
    assert Pow256(2) == 0x1_0000;
    assert Pow256(4) == 256 * 256 * Pow256(2);
    assert Pow256(6) == 256 * 256 * Pow256(4);
    assert Pow256(8) == 256 * 256 * Pow256(6);
    assert Pow256(10) == 256 * 256 * Pow256(8);
    assert Pow256(12) == 256 * 256 * Pow256(10);
    assert Pow256(14) == 256 * 256 * Pow256(12);
    assert Pow256(16) == 256 * 256 * Pow256(14);
  }

  function ToLe(v: nat, n: nat): (bytes: seq<byte>)
    ensures |bytes| == n
  {
    if n == 0 then [] else [v % 256] + ToLe(v / 256, n - 1)
  }

  function FromLe(bytes: seq<byte>): (v: nat)
  {
    if bytes == [] then 0 else bytes[0] + 256 * FromLe(bytes[1..])
  }

  lemma {:induction false} FromLeOfToLe(v: nat, n: nat)
    requires v < Pow256(n)
    ensures FromLe(ToLe(v, n)) == v
  {
    if n == 0 {
    } else {
      FromLeOfToLe(v / 256, n - 1);
    }
  }

  lemma {:induction false} FromLeConcat(a: seq<byte>, b: seq<byte>)
    ensures FromLe(a + b) == FromLe(a) + Pow256(|a|) * FromLe(b)
  {
    if a == [] {
      assert a + b == b;
    } else {
      FromLeConcat(a[1..], b);
      assert (a + b)[1..] == a[1..] + b;
      assert 256 * (Pow256(|a| - 1) * FromLe(b)) == Pow256(|a|) * FromLe(b);
    }
  }

  lemma {:induction false} FromLeBound(bytes: seq<byte>)
    ensures FromLe(bytes) < Pow256(|bytes|)
  {
    if bytes == [] {
    } else {
      FromLeBound(bytes[1..]);
    }
  }

  /** Two words laid out one after the other are the 128-bit number. */
  lemma WordsAsBytes(lo: u64, hi: u64)
    ensures FromLe(ToLe(lo, 8) + ToLe(hi, 8)) == lo + W * hi
  {
    Pow256Values();
    FromLeOfToLe(lo, 8);
    FromLeOfToLe(hi, 8);
    FromLeConcat(ToLe(lo, 8), ToLe(hi, 8));
  }

  /** A 128-bit number cut into two words. */
  function WordsOf(v: u128): (words: seq<u64>)
    ensures |words| == 2 && Low128(words) == v
  {
    Pow256Values();
    var bytes := ToLe(v, 16);
    FromLeOfToLe(v, 16);
    FromLeConcat(bytes[..8], bytes[8..]);
    assert bytes == bytes[..8] + bytes[8..];
    FromLeBound(bytes[..8]);
    FromLeBound(bytes[8..]);
    [FromLe(bytes[..8]), FromLe(bytes[8..])]
  }

  /** A 128-bit pattern read as a two's-complement number, and back. */
  function Signed(v: u128): (r: i128)
    ensures r == v || r == v - FULL
  {
    if v < HALF then v else v - FULL
  }

  function Bits(v: i128): (r: u128)
    ensures Signed(r) == v
  {
    if v < 0 then v + FULL else v
  }

  function Abs(v: i128): (m: u128)
  {
    var n: int := v;
    if n < 0 then -n else n
  }

  // ---------------------------------------------------------------------------------------------------------
  // The conversions
  // ---------------------------------------------------------------------------------------------------------

  /** Rust's unary minus: None is the overflow panic. */
  function Neg(v: i128, checked: bool): (r: Option<i128>)
  {
    if v != -HALF then Some(-v) else if checked then None else Some(v)
  }

  function FromI128(v: i128, checked: bool): (r: Option<BigInt>)
  {
    if v < 0 then
      match Neg(v, checked)
      case None => None
      case Some(m) => Some(BigInt(true, WordsOf(Bits(m))))
    else Some(BigInt(false, WordsOf(Bits(v))))
  }

  /** The words are the two's-complement ones, beside the sign. */
  function FromI64(v: i64): (r: BigInt)
  {
    BigInt(v < 0, [if v < 0 then v + W else v])
  }

  /** What `i128::to_napi_value` hands to the host: likewise, and 0 counts as signed. */
  function I128ToNapi(v: i128): (r: BigInt)
  {
    BigInt(v <= 0, WordsOf(Bits(v)))
  }

  function FromU128(v: u128): (r: BigInt)
  {
    BigInt(false, WordsOf(v))
  }

  /** `BigInt::get_i128`: the value and the flag that words were cut off; None is a panic. */
  function GetI128(b: BigInt, checked: bool): (r: Option<(i128, bool)>)
  {
    if |b.words| == 0 then None  // index out of bounds
    else if |b.words| == 1 then Some((b.words[0], false))
    else
      var v := Signed(b.words[0] + W * b.words[1]);
      if !b.sign then Some((v, |b.words| > 2))
      else match Neg(v, checked)
        case None => None
        case Some(m) => Some((m, |b.words| > 2))
  }

  function GetU128(b: BigInt): (r: Option<(bool, u128, bool)>)
  {
    if |b.words| == 0 then None
    else if |b.words| == 1 then Some((b.sign, b.words[0], false))
    else Some((b.sign, b.words[0] + W * b.words[1], |b.words| > 2))
  }

  /** `JsBigInt::get_i128`: the value and the loss flag. */
  function JsGetI128(b: BigInt): (r: (i128, bool))
  {
    var v := Signed(Low128(b.words));
    var cut := |b.words| > 2;
    if !b.sign then (v, cut)
    else if v == -HALF then (v, true)
    else (-v, cut)
  }

  function JsGetU128(b: BigInt): (r: (bool, u128, bool))
  {
    (b.sign, Low128(b.words), |b.words| > 2)
  }

  // ---------------------------------------------------------------------------------------------------------
  // What they promise
  // ---------------------------------------------------------------------------------------------------------

  lemma TwoWords(b: BigInt, v: u128)
    requires |b.words| == 2 && Low128(b.words) == v
    ensures var m: int := v; Denote(b) == if b.sign then -m else m
    ensures JsGetI128(b) == if !b.sign then (Signed(v), false)
                            else if v == HALF then (-HALF, true) else (-Signed(v), false)
    ensures GetI128(b, false) == Some((JsGetI128(b).0, false))
    ensures v != HALF || !b.sign ==> GetI128(b, true) == Some(JsGetI128(b))
  {
    LowOfMagnitude(b.words);
  }

  /** Every i128 survives the trip, except that the least one panics where overflow is checked; the words denote it. */
  lemma I128RoundTrip(v: i128, checked: bool)
    ensures FromI128(v, checked).None? <==> checked && v == -HALF
    ensures FromI128(v, checked).Some? ==>
              var b := FromI128(v, checked).value;
              Denote(b) == v && GetI128(b, checked) == Some((v, false)) && (v != -HALF ==> JsGetI128(b) == (v, false))
  {
    FromI128Words(v, checked);
    if FromI128(v, checked).Some? { RoundTripOf(v, FromI128(v, checked).value, checked); }
  }

  lemma FromI128Words(v: i128, checked: bool)
    ensures FromI128(v, checked).None? <==> checked && v == -HALF
    ensures FromI128(v, checked).Some? ==>
              var b := FromI128(v, checked).value;
              b.sign == (v < 0) && |b.words| == 2 && Low128(b.words) == Abs(v)
  {}

  lemma RoundTripOf(v: i128, b: BigInt, checked: bool)
    requires b.sign == (v < 0) && |b.words| == 2 && Low128(b.words) == Abs(v)
    requires !(checked && v == -HALF)
    ensures Denote(b) == v && GetI128(b, checked) == Some((v, false)) && (v != -HALF ==> JsGetI128(b) == (v, false))
  {
    TwoWords(b, Abs(v));
  }

  lemma U128RoundTrip(v: u128)
    ensures Denote(FromU128(v)) == v
    ensures GetU128(FromU128(v)) == Some((false, v, false)) && JsGetU128(FromU128(v)) == (false, v, false)
  {
    LowOfMagnitude(FromU128(v).words);
  }

  /** An i64 made into a BigInt denotes it exactly when it is not negative, or the least one. */
  lemma FromI64DenotesIff(v: i64)
    ensures Denote(FromI64(v)) == v <==> v >= 0 || v == -0x8000_0000_0000_0000
    ensures v < 0 ==> Denote(FromI64(v)) == -W - v
  {
    LowOfMagnitude(FromI64(v).words);
  }

  /** And an i128 given to JS arrives exactly when it is not negative, or the least one. */
  lemma I128ArrivesIff(v: i128)
    ensures Denote(I128ToNapi(v)) == v <==> v >= 0 || v == -HALF
    ensures v < 0 ==> Denote(I128ToNapi(v)) == -FULL - v
  {
    LowOfMagnitude(I128ToNapi(v).words);
  }

  /** The plain readers panic on an empty word list; the signed one also where its negation overflows and is checked. */
  lemma PlainPanicsIff(b: BigInt, checked: bool)
    ensures GetU128(b).None? <==> b.words == []
    ensures GetI128(b, checked).None? <==>
              b.words == [] || (checked && b.sign && |b.words| >= 2 && Low128(b.words) == HALF)
  {}

  /**
   The unsigned JS reader, on any word list: the sign, and what lies below 2^128, which is the whole magnitude exactly
   when that fits; the flag says that there were more words, so a clear one means exact.
   */
  lemma JsGetU128Exact(b: BigInt)
    ensures var (sign, v, cut) := JsGetU128(b);
            && sign == b.sign && (exists k: nat :: Magnitude(b.words) == v + FULL * k)
            && (v == Magnitude(b.words) <==> Magnitude(b.words) < FULL)
            && (cut <==> |b.words| > 2) && (!cut ==> v == Magnitude(b.words))
  {
    LowOfMagnitude(b.words);
  }

  /** For every word list the read value is congruent to the denoted one modulo 2^128. */
  lemma JsGetI128Congruent(b: BigInt)
    ensures exists k: int :: JsGetI128(b).0 == Denote(b) + FULL * k
  {
    LowOfMagnitude(b.words);
    var k: nat :| Magnitude(b.words) == Low128(b.words) + FULL * k;
    var v := Signed(Low128(b.words));
    var j := if v == Low128(b.words) then 0 else -1;
    assert v == Low128(b.words) + FULL * j;
    if !b.sign {
      assert JsGetI128(b).0 == Denote(b) + FULL * (j - k);
    } else if v == -HALF {
      assert JsGetI128(b).0 == Denote(b) + FULL * (k - j - 1);
    } else {
      assert JsGetI128(b).0 == Denote(b) + FULL * (k - j);
    }
  }

  /** So it is the denoted value exactly when that fits. */
  lemma JsGetI128ExactIffFits(b: BigInt)
    ensures JsGetI128(b).0 == Denote(b) <==> -HALF <= Denote(b) < HALF
  {
    JsGetI128Congruent(b);
    var k: int :| JsGetI128(b).0 == Denote(b) + FULL * k;
    if -HALF <= Denote(b) < HALF {
      assert -FULL < FULL * k < FULL;
      assert k == 0;
    }
  }

  /**
   The loss flag: clear means exact except for one or two words of magnitude 2^127 or more (the least i128 apart),
   where it is clear and the value is wrong; set on two words means exactly the least i128, which was read right.
   */
  lemma JsLossFlagExact(b: BigInt)
    ensures var (v, loss) := JsGetI128(b);
            && (!loss && v != Denote(b) <==>
                  |b.words| <= 2 && HALF <= Magnitude(b.words) && !(b.sign && Magnitude(b.words) == HALF))
            && (loss && |b.words| <= 2 <==> |b.words| <= 2 && Denote(b) == -HALF)
            && (|b.words| <= 2 && Magnitude(b.words) < HALF ==> v == Denote(b) && !loss)
  {
    LowOfMagnitude(b.words);
    JsGetI128ExactIffFits(b);
  }

  /** 2^127 is read as -2^127 with no loss reported. */
  lemma JsLossFlagMissesOverflow()
    ensures Denote(BigInt(false, [0, 0x8000_0000_0000_0000])) == HALF
    ensures JsGetI128(BigInt(false, [0, 0x8000_0000_0000_0000])) == (-HALF, false)
  {
    LowOfMagnitude([0, 0x8000_0000_0000_0000]);
  }

  /**
   On two or more words the two readers agree, flags included, unless the number is negative with low 128 bits
   2^127; then the plain reader panics where overflow is checked, and reports no loss on two words where it wraps.
   */
  lemma ReadersAgreeIff(b: BigInt, checked: bool)
    requires |b.words| >= 2
    ensures GetI128(b, checked) == Some(JsGetI128(b)) <==>
              !(b.sign && Low128(b.words) == HALF && (checked || |b.words| == 2))
    ensures GetU128(b) == Some(JsGetU128(b))
  {}

  /** On one word the plain reader forgets the sign. */
  lemma OneWordForgetsSign(w: u64, sign: bool, checked: bool)
    ensures GetI128(BigInt(sign, [w]), checked) == Some((w, false))
    ensures var m: int := w; JsGetI128(BigInt(sign, [w])) == (if sign then -m else m, false)
    ensures GetI128(BigInt(sign, [w]), checked) == Some((Denote(BigInt(sign, [w])), false)) <==> !sign || w == 0
  {
    LowOfMagnitude([w]);
  }

  /** What the plain reader can read right: one word without a sign (or 0), or a number that fits i128. */
  predicate PlainExact(b: BigInt)
    requires b.words != []
  {
    if |b.words| == 1 then !b.sign || b.words[0] == 0 else -HALF <= Denote(b) < HALF
  }

  /**
   When the plain signed reader is right, and when its flag is: the flag only says that words were cut off. Read as
   documented, true for a lossless value, it holds exactly when "more than two words" and "exact" go together.
   */
  lemma PlainFlagExact(b: BigInt, checked: bool)
    requires b.words != [] && GetI128(b, checked).Some?
    ensures var (v, flag) := GetI128(b, checked).value;
            && (v == Denote(b) <==> PlainExact(b))
            && (flag <==> |b.words| > 2)
            && ((flag <==> v == Denote(b)) <==> (|b.words| > 2 <==> PlainExact(b)))
  {
    if |b.words| == 1 {
      OneWordForgetsSign(b.words[0], b.sign, checked);
      assert b == BigInt(b.sign, [b.words[0]]);
    } else {
      JsGetI128ExactIffFits(b);
      assert GetI128(b, checked).value.0 == JsGetI128(b).0;
    }
  }

  /**
   The plain unsigned reader is right when nothing lies above the low 128 bits; its flag, as documented, only then
   and with superfluous words.
   */
  lemma PlainUnsignedFlagExact(b: BigInt)
    requires b.words != []
    ensures var (sign, v, flag) := GetU128(b).value;
            && sign == b.sign
            && (v == Magnitude(b.words) <==> Magnitude(b.words) < FULL)
            && ((flag <==> v == Magnitude(b.words)) <==> |b.words| > 2 && Magnitude(b.words) < FULL)
  {
    LowOfMagnitude(b.words);
    assert GetU128(b).value.1 == Low128(b.words);
  }

  /**
   5 is read exactly with the flag false, three words are cut with the flag true: the documentation has it the other
   way round.
   */
  lemma PlainFlagIsInverted(checked: bool)
    ensures GetI128(BigInt(false, [5, 0]), checked) == Some((5, false)) && Denote(BigInt(false, [5, 0])) == 5
    ensures GetI128(BigInt(false, [0, 0, 1]), checked) == Some((0, true)) && Denote(BigInt(false, [0, 0, 1])) == FULL
    ensures GetU128(BigInt(false, [5, 0])) == Some((false, 5, false))
    ensures GetU128(BigInt(false, [0, 0, 1])) == Some((false, 0, true))
  {
    LowOfMagnitude([5, 0]);
    assert [0, 0, 1][1..] == [0, 1] && [0, 1][1..] == [1] && [1][1..] == [];
  }

  /** The handle on a JS value, whose word count the host updates. */
  class JsBigInt {
    const value: BigInt  // what the host holds
    var wordCount: nat

    constructor (value: BigInt)
      ensures this.value == value && wordCount == |value.words|
    {
      this.value := value;
      wordCount := |value.words|;
    }

    /** The host writes at most `wordCount` words and reports how many there are. */
    method GetWords() returns (signed: bool, words: seq<u64>)
      requires wordCount == |value.words|
      modifies this
      ensures wordCount == |value.words| && signed == value.sign && words == value.words
    {
      words := value.words[..wordCount];
      wordCount := |value.words|;
      signed := value.sign;
    }

    method ReadI128() returns (val: i128, loss: bool)
      requires wordCount == |value.words|
      modifies this
      ensures (val, loss) == JsGetI128(value) && wordCount == old(wordCount)
    {
      var signed, words := GetWords();
      var bits := CopyWords(words);
      val := Signed(bits);
      loss := |words| > 2;
      var overflow := false;
      if signed {
        overflow := val == -HALF;
        if !overflow { val := -val; }
      }
      loss := overflow || loss;
    }

    method ReadU128() returns (signed: bool, val: u128, cut: bool)
      requires wordCount == |value.words|
      modifies this
      ensures (signed, val, cut) == JsGetU128(value) && wordCount == old(wordCount)
    {
      var words;
      signed, words := GetWords();
      val := CopyWords(words);
      cut := |words| > 2;
    }
  }

  /** Copy the bytes of two words into the two halves of a 16-byte buffer. */
  method LayOut(first: seq<byte>, second: seq<byte>) returns (buffer: array<byte>)
    requires |first| == 8 && |second| == 8
    ensures fresh(buffer) && buffer[..] == first + second
  {
    buffer := new byte[16];
    for i := 0 to 8
      invariant forall k :: 0 <= k < i ==> buffer[k] == first[k]
    {
      buffer[i] := first[i];
    }
    for i := 0 to 8
      invariant forall k :: 0 <= k < 8 ==> buffer[k] == first[k]
      invariant forall k :: 8 <= k < 8 + i ==> buffer[k] == second[k - 8]
    {
      buffer[8 + i] := second[i];
    }
  }

  /** Read the first two words, or zeros, as one number. */
  method CopyWords(words: seq<u64>) returns (v: u128)
    ensures v == Low128(words)
  {
    var lo: u64 := if |words| > 0 then words[0] else 0;
    var hi: u64 := if |words| > 1 then words[1] else 0;
    var buffer := LayOut(ToLe(lo, 8), ToLe(hi, 8));
    WordsAsBytes(lo, hi);
    v := FromLe(buffer[..]);
  }
}
