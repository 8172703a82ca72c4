/**
 `serde_json::Value` to JavaScript and back.

 Doubles are reals with the non-finite values beside them; every integer that is sent as a double lies within the
 range in which doubles are exact. Objects are plain maps on both sides.
 */
module JsonValue {

  const MAX_SAFE: int := 9007199254740991
  const U32_MAX: int := 4294967295
  const I32_MIN: int := -2147483648

  type u64 = n: int | 0 <= n < 0x1_0000_0000_0000_0000
  type neg64 = n: int | -0x8000_0000_0000_0000 <= n < 0 witness -1

  datatype Number = PosInt(u: u64) | NegInt(n: neg64) | Float(r: real)

  datatype Json =
    | Null | Bool(b: bool) | Num(n: Number) | Str(s: string)
    | Arr(es: seq<Json>) | Obj(members: map<string, Json>)

  datatype Double = Finite(r: real) | NaN | Infinite(negative: bool)

  datatype Js =
    | JsUndefined | JsNull | JsBool(b: bool) | JsNumber(d: Double) | JsString(s: string) | JsBigInt(v: int)
    | JsFunction | JsSymbol | JsExternal
    | JsArray(es: seq<Js>) | JsObject(props: map<string, Js>)

  /** `Err` is an error result, `Panic` the unimplemented BigInt branch. */
  datatype Outcome<T> = Ok(value: T) | Err | Panic

  // ---------------------------------------------------------------------------------------------------------
  // Numbers
  // ---------------------------------------------------------------------------------------------------------

  function NumberToJs(n: Number): (j: Js)
  {
    match n
    case PosInt(u) => if u <= MAX_SAFE then JsNumber(Finite(u as real)) else JsBigInt(u)
    case NegInt(i) =>
      // the words of a negative BigInt are the two's-complement ones
      if i >= -MAX_SAFE then JsNumber(Finite(i as real)) else JsBigInt(-(i + 0x1_0000_0000_0000_0000))
    case Float(r) => JsNumber(Finite(r))
  }

  predicate Integral(r: real)
  {
    r.Floor as real == r
  }

  function NumberFromJs(d: Double): (n: Outcome<Number>)
  {
    match d
    case NaN => Err
    case Infinite(_) => Err
    case Finite(r) =>
      if !Integral(r) then Ok(Float(r))
      else if 0.0 <= r <= U32_MAX as real then Ok(PosInt(r.Floor))
      else if I32_MIN as real <= r < 0.0 then Ok(NegInt(r.Floor))
      else Ok(Float(r))
  }

  function NumericValue(n: Number): (r: real)
  {
    match n
    case PosInt(u) => u as real
    case NegInt(i) => i as real
    case Float(r) => r
  }

  /** The integers sent as doubles. */
  predicate SafeNumber(n: Number)
  {
    match n
    case PosInt(u) => u <= MAX_SAFE
    case NegInt(i) => i >= -MAX_SAFE
    case Float(_) => true
  }

  /** Held as an integer by serde, not as a float. */
  predicate IsInteger(n: Number)
  {
    !n.Float?
  }

  /**
   A safe number arrives as that double and comes back as an equal number, an integer exactly when its value is one
   between the least i32 and the greatest u32; any other number becomes a BigInt.
   */
  lemma NumberRoundTrip(n: Number)
    ensures SafeNumber(n) ==>
              var j := NumberToJs(n);
              && j == JsNumber(Finite(NumericValue(n))) && NumberFromJs(j.d).Ok?
              && var m := NumberFromJs(j.d).value;
                 && NumericValue(m) == NumericValue(n)
                 && (IsInteger(m) <==>
                       Integral(NumericValue(n)) && I32_MIN as real <= NumericValue(n) <= U32_MAX as real)
    ensures !SafeNumber(n) <==> NumberToJs(n).JsBigInt?
  {}

  /** That BigInt is the number unless it is negative; then only the least i64 arrives right. */
  lemma BigIntArrivesIff(n: Number)
    requires !SafeNumber(n)
    ensures NumberToJs(n).JsBigInt?
    ensures NumberToJs(n).v as real == NumericValue(n) <==> n.PosInt? || n.n == -0x8000_0000_0000_0000
  {}

  // ---------------------------------------------------------------------------------------------------------
  // Trees
  // ---------------------------------------------------------------------------------------------------------

  /** No key holds a NUL, which a C string cannot carry. */
  predicate NulFree(v: Json)
  {
    match v
    case Arr(es) => forall e :: e in es ==> NulFree(e)
    case Obj(m) => forall k :: k in m ==> '\0' !in k && NulFree(m[k])
    case _ => true
  }

  predicate SafeIntegers(v: Json)
  {
    match v
    case Num(n) => SafeNumber(n)
    case Arr(es) => forall e :: e in es ==> SafeIntegers(e)
    case Obj(m) => forall k :: k in m ==> SafeIntegers(m[k])
    case _ => true
  }

  /** Equal up to the way numbers are held. */
  predicate Same(a: Json, b: Json)
  {
    match (a, b)
    case (Num(m), Num(n)) => NumericValue(m) == NumericValue(n)
    case (Arr(xs), Arr(ys)) => |xs| == |ys| && forall i :: 0 <= i < |xs| ==> Same(xs[i], ys[i])
    case (Obj(m), Obj(n)) => m.Keys == n.Keys && forall k :: k in m && k in n ==> Same(m[k], n[k])
    case _ => a == b && !a.Num? && !a.Arr? && !a.Obj?
  }

  function Encode(v: Json): (j: Js)
  {
    match v
    case Null => JsNull
    case Bool(b) => JsBool(b)
    case Num(n) => NumberToJs(n)
    case Str(s) => JsString(s)
    case Arr(es) => JsArray(seq(|es|, i requires 0 <= i < |es| => Encode(es[i])))
    case Obj(m) => JsObject(map k | k in m :: Encode(m[k]))
  }

  /** A JS value that can be held as JSON; a property that is undefined is skipped. */
  predicate Decodable(j: Js)
  {
    match j
    case JsNull => true
    case JsBool(_) => true
    case JsNumber(d) => d.Finite?
    case JsString(_) => true
    case JsArray(es) => forall e :: e in es ==> Decodable(e)
    case JsObject(m) => forall k :: k in m ==> '\0' !in k && (m[k] == JsUndefined || Decodable(m[k]))
    case _ => false
  }

  function Decode(j: Js): (v: Json)
    requires Decodable(j)
  {
    match j
    case JsNull => Null
    case JsBool(b) => Bool(b)
    case JsNumber(d) => Num(NumberFromJs(d).value)
    case JsString(s) => Str(s)
    case JsArray(es) => Arr(seq(|es|, i requires 0 <= i < |es| => Decode(es[i])))
    case JsObject(m) => Obj(map k | k in m && m[k] != JsUndefined :: Decode(m[k]))
  }

  /** The JS value says what the JSON value says: kind by kind, numbers by value, undefined properties aside. */
  ghost predicate Says(j: Js, v: Json)
  {
    match (j, v)
    case (JsNull, Null) => true
    case (JsBool(a), Bool(b)) => a == b
    case (JsNumber(d), Num(n)) => d == Finite(NumericValue(n))
    case (JsString(a), Str(b)) => a == b
    case (JsArray(xs), Arr(ys)) => |xs| == |ys| && forall i :: 0 <= i < |xs| ==> Says(xs[i], ys[i])
    case (JsObject(m), Obj(n)) =>
      && (forall k :: k in n <==> k in m && m[k] != JsUndefined)
      && (forall k :: k in m && k in n ==> Says(m[k], n[k]))
    case _ => false
  }

  /** What goes to JS says what was sent. */
  lemma {:induction false} EncodeSays(v: Json)
    requires SafeIntegers(v)
    ensures Says(Encode(v), v)
  {
    match v
    case Arr(es) =>
      forall i | 0 <= i < |es| ensures Says(Encode(v).es[i], es[i]) { EncodeSays(es[i]); }
    case Obj(m) =>
      forall k | k in m ensures Says(Encode(v).props[k], m[k]) && Encode(m[k]) != JsUndefined { EncodeSays(m[k]); }
    case _ =>
  }

  /** And what is read says what was there. */
  lemma {:induction false} DecodeSays(j: Js)
    requires Decodable(j)
    ensures Says(j, Decode(j))
  {
    match j
    case JsNumber(d) => FiniteIsRead(d);
    case JsArray(es) =>
      forall i | 0 <= i < |es| ensures Says(es[i], Decode(j).es[i]) { DecodeSays(es[i]); }
    case JsObject(m) =>
      forall k | k in m && m[k] != JsUndefined ensures k in Decode(j).members && Says(m[k], Decode(j).members[k]) {
        DecodeSays(m[k]);
      }
    case _ =>
  }

  lemma FiniteIsRead(d: Double)
    requires d.Finite?
    ensures NumberFromJs(d).Ok? && d == Finite(NumericValue(NumberFromJs(d).value))
  {}

  /** Two JSON values that one JS value says are the same up to the way numbers are held. */
  lemma {:induction false} SaysOneThing(j: Js, a: Json, b: Json)
    requires Says(j, a) && Says(j, b)
    ensures Same(a, b)
    decreases a
  {
    match (a, b)
    case (Arr(xs), Arr(ys)) =>
      forall i | 0 <= i < |xs| ensures Same(xs[i], ys[i]) { SaysOneThing(j.es[i], xs[i], ys[i]); }
    case (Obj(m), Obj(n)) =>
      forall k | k in m && k in n ensures Same(m[k], n[k]) { SaysOneThing(j.props[k], m[k], n[k]); }
    case _ =>
  }

  /** Somewhere in the value there is a BigInt. */
  predicate HasBigInt(j: Js)
  {
    match j
    case JsBigInt(_) => true
    case JsArray(es) => exists e :: e in es && HasBigInt(e)
    case JsObject(m) => exists k :: k in m && HasBigInt(m[k])
    case _ => false
  }

  /** Somewhere there is something that has no JSON form at all. */
  predicate Unsupported(j: Js)
  {
    match j
    case JsNumber(d) => !d.Finite?
    case JsArray(es) => exists e :: e in es && Unsupported(e)
    case JsObject(m) => exists k :: k in m && ('\0' in k || (m[k] != JsUndefined && Unsupported(m[k])))
    case _ => j == JsUndefined || j == JsFunction || j == JsSymbol || j == JsExternal
  }

  /** Of two outcomes, readable or holding a BigInt, the one the integers of the tree call for. */
  predicate Faithful(j: Js, v: Json)
  {
    !Unsupported(j) && (Decodable(j) <==> SafeIntegers(v)) && (HasBigInt(j) <==> !SafeIntegers(v))
  }

  lemma ArrayIsFaithful(js: seq<Js>, es: seq<Json>)
    requires |js| == |es| && forall i :: 0 <= i < |es| ==> Faithful(js[i], es[i])
    ensures Faithful(JsArray(js), Arr(es))
  {
    forall j | j in js ensures exists i :: 0 <= i < |es| && js[i] == j && Faithful(js[i], es[i]) {
      var i :| 0 <= i < |js| && js[i] == j;
      assert Faithful(js[i], es[i]);
    }
    if v :| v in es && !SafeIntegers(v) {
      var i :| 0 <= i < |es| && es[i] == v;
      assert js[i] in js && HasBigInt(js[i]) && !Decodable(js[i]);
    } else {
      forall j | j in js ensures Decodable(j) && !HasBigInt(j) {
        var i :| 0 <= i < |es| && js[i] == j && Faithful(js[i], es[i]);
        assert es[i] in es;
      }
    }
  }

  lemma ObjectIsFaithful(props: map<string, Js>, m: map<string, Json>)
    requires NulFree(Obj(m)) && props.Keys == m.Keys && forall k :: k in m ==> Faithful(props[k], m[k])
    ensures Faithful(JsObject(props), Obj(m))
  {}

  lemma {:induction false} EncodeIsDecodable(v: Json)
    requires NulFree(v)
    ensures Faithful(Encode(v), v)
  {
    match v
    case Arr(es) =>
      forall i | 0 <= i < |es| ensures Faithful(Encode(v).es[i], es[i]) { EncodeIsDecodable(es[i]); }
      ArrayIsFaithful(Encode(v).es, es);
    case Obj(m) =>
      forall k | k in m ensures Faithful(Encode(v).props[k], m[k]) { EncodeIsDecodable(m[k]); }
      ObjectIsFaithful(Encode(v).props, m);
    case _ =>
  }

  lemma DecodeOfEncode(v: Json)
    requires NulFree(v) && SafeIntegers(v)
    ensures Decodable(Encode(v)) && Same(Decode(Encode(v)), v)
  {
    EncodeIsDecodable(v);
    EncodeSays(v);
    DecodeSays(Encode(v));
    SaysOneThing(Encode(v), Decode(Encode(v)), v);
  }

  // ---------------------------------------------------------------------------------------------------------
  // The conversions, element by element
  // ---------------------------------------------------------------------------------------------------------

  method ValueToNapi(v: Json) returns (r: Outcome<Js>)
    ensures r == if NulFree(v) then Ok(Encode(v)) else Err
    ensures r.Ok? && SafeIntegers(v) ==> Says(r.value, v)
    decreases v, 1
  {
    if SafeIntegers(v) { EncodeSays(v); }
    match v {
      case Null => r := Ok(JsNull);
      case Bool(b) => r := Ok(JsBool(b));
      case Num(n) => r := Ok(NumberToJs(n));
      case Str(s) => r := Ok(JsString(s));
      case Arr(es) =>
        var js: seq<Js> := [];
        for i := 0 to |es|
          invariant |js| == i
          invariant forall k :: 0 <= k < i ==> NulFree(es[k]) && js[k] == Encode(es[k])
        {
          var e := ValueToNapi(es[i]);
          if !e.Ok? { return e; }
          js := js + [e.value];
        }
        assert js == Encode(v).es;
        r := Ok(JsArray(js));
      case Obj(m) => r := MapToNapi(m, v);
    }
  }

  /** Set the members one after the other, in the order the map gives them. */
  method MapToNapi(m: map<string, Json>, ghost whole: Json) returns (r: Outcome<Js>)
    requires whole == Obj(m)
    ensures r == if NulFree(whole) then Ok(Encode(whole)) else Err
    decreases whole, 0
  {
    var props: map<string, Js> := map[];
    var left := m.Keys;
    while left != {}
      invariant left <= m.Keys && props.Keys == m.Keys - left
      invariant forall k :: k in props ==> '\0' !in k && NulFree(m[k]) && props[k] == Encode(m[k])
      decreases left
    {
      var k :| k in left;
      var e := ValueToNapi(m[k]);
      if !e.Ok? { return e; }
      if '\0' in k { return Err; }
      props := props[k := e.value];
      left := left - {k};
    }
    assert props == Encode(whole).props;
    r := Ok(JsObject(props));
  }

  method ValueFromNapi(j: Js) returns (r: Outcome<Json>)
    ensures r.Ok? <==> Decodable(j)
    ensures r.Ok? ==> r.value == Decode(j) && Says(j, r.value)
    ensures r.Err? ==> Unsupported(j)
    ensures r.Panic? ==> HasBigInt(j)
    decreases j, 1
  {
    if Decodable(j) { DecodeSays(j); }
    match j {
      case JsNull => r := Ok(Null);
      case JsBool(b) => r := Ok(Bool(b));
      case JsNumber(d) =>
        var n := NumberFromJs(d);
        r := match n case Ok(v) => Ok(Num(v)) case Err => Err case Panic => Panic;
      case JsString(s) => r := Ok(Str(s));
      case JsBigInt(_) => r := Panic;
      case JsArray(es) =>
        var vs: seq<Json> := [];
        for i := 0 to |es|
          invariant |vs| == i
          invariant forall k :: 0 <= k < i ==> Decodable(es[k]) && vs[k] == Decode(es[k])
        {
          var e := ValueFromNapi(es[i]);
          if !e.Ok? {
            assert es[i] in es;
            return e;
          }
          vs := vs + [e.value];
        }
        assert Decodable(j) && vs == Decode(j).es;
        r := Ok(Arr(vs));
      case JsObject(m) => r := MapFromNapi(m, j);
      case _ => r := Err;
    }
  }

  /** Read the properties one after the other, in the order the host lists them. */
  method MapFromNapi(m: map<string, Js>, ghost whole: Js) returns (r: Outcome<Json>)
    requires whole == JsObject(m)
    ensures r.Ok? <==> Decodable(whole)
    ensures r.Ok? ==> r.value == Decode(whole)
    ensures r.Err? ==> Unsupported(whole)
    ensures r.Panic? ==> HasBigInt(whole)
    decreases whole, 0
  {
    var members: map<string, Json> := map[];
    var left := m.Keys;
    while left != {}
      invariant left <= m.Keys
      invariant forall k :: k in m && k !in left ==> '\0' !in k && (m[k] == JsUndefined || Decodable(m[k]))
      invariant forall k :: k in members <==> k in m && k !in left && m[k] != JsUndefined
      invariant forall k :: k in members ==> members[k] == Decode(m[k])
      decreases left
    {
      var k :| k in left;
      if '\0' in k { return Err; }
      if m[k] != JsUndefined {
        var e := ValueFromNapi(m[k]);
        if !e.Ok? { return e; }
        members := members[k := e.value];
      }
      left := left - {k};
    }
    assert members == Decode(whole).members;
    r := Ok(Obj(members));
  }

  /**
   To JavaScript and back: the same tree, null members included, exactly when every key is NUL-free and every integer
   is safe; a NUL in a key is an error, and any other failure is the panic on an integer that went out as a BigInt.
   */
  method RoundTrip(v: Json) returns (r: Outcome<Json>)
    ensures r.Ok? <==> NulFree(v) && SafeIntegers(v)
    ensures r.Ok? ==> Same(r.value, v)
    ensures r.Err? <==> !NulFree(v)
    ensures r.Panic? <==> NulFree(v) && !SafeIntegers(v)
  {
    var j := ValueToNapi(v);
    if !j.Ok? { return Err; }
    EncodeIsDecodable(v);
    r := ValueFromNapi(j.value);
    if r.Ok? { DecodeOfEncode(v); }
  }
}
