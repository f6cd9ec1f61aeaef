/**
 * The small JSON value type the navigator stores and parses, JavaScript
 * property access on a parsed value, and JavaScript truthiness.
 * `JSON.parse` and `JSON.stringify` themselves stay abstract: a Codec is a
 * pair of functions, `parse` giving None where the real one throws.
 */
module Json {
  import opened Maybe

  datatype Json =
    | JNull
    | JBool(b: bool)
    | JNumber(n: real)
    | JString(s: string)
    | JArray(items: seq<Json>)
    | JObject(members: map<string, Json>)

  /** What evaluating `value.key` gives: a member, `undefined`, or a thrown TypeError (on `null`). */
  datatype Access = Undefined | Found(value: Json) | TypeError

  function Member(v: Json, key: string): (r: Access)
    ensures r.TypeError? <==> v.JNull?
    ensures r.Found? <==> v.JObject? && key in v.members
    ensures r.Found? ==> r.value == v.members[key]
  {
    match v
    case JNull => TypeError
    case JObject(m) => if key in m then Found(m[key]) else Undefined
    case _ => Undefined
  }

  /**
   * JavaScript truthiness of an access: `undefined`, `null`, `false`, `0`
   * and `""` are falsy. A TypeError counts as falsy too, since every caller
   * here catches it and returns the same value as for a falsy member.
   */
  predicate Truthy(a: Access) {
    match a
    case Undefined => false
    case TypeError => false
    case Found(v) =>
      match v
      case JNull => false
      case JBool(b) => b
      case JNumber(n) => n != 0.0
      case JString(s) => s != ""
      case JArray(_) => true
      case JObject(_) => true
  }

  /** `JSON.parse` (None where it throws a SyntaxError) and `JSON.stringify`. */
  datatype Codec = Codec(parse: string -> Option<Json>, stringify: Json -> string)

  /**
   * A value the navigator writes to storage: every number in it is whole
   * (the only numbers it stores are millisecond timestamps).
   */
  predicate Storable(v: Json) {
    match v
    case JNumber(n) => n.Floor as real == n
    case JArray(items) => forall i :: 0 <= i < |items| ==> Storable(items[i])
    case JObject(m) => forall k :: k in m ==> Storable(m[k])
    case _ => true
  }

  /**
   * A codec that behaves like the real pair on the values the navigator
   * writes: the printed text is never empty (so it is truthy when read
   * back), and the parser reads back every such value the printer writes.
   */
  ghost predicate RoundTrips(c: Codec) {
    forall v :: Storable(v) ==> c.stringify(v) != "" && c.parse(c.stringify(v)) == Some(v)
  }

  // ---------------------------------------------------------------------
  // Arrays of records
  // ---------------------------------------------------------------------

  /** An array holding `encode` of each element, in order. */
  function EncodeArray<T>(xs: seq<T>, encode: T -> Json): (r: seq<Json>)
    ensures |r| == |xs|
  {
    if |xs| == 0 then [] else [encode(xs[0])] + EncodeArray(xs[1..], encode)
  }

  /** Every item decoded, or None as soon as one item does not have the expected shape. */
  function DecodeArray<T>(items: seq<Json>, decode: Json -> Option<T>): (r: Option<seq<T>>)
    ensures r.Some? ==> |r.value| == |items|
    ensures r.Some? ==> forall i :: 0 <= i < |items| ==> decode(items[i]) == Some(r.value[i])
  {
    if |items| == 0 then Some([])
    else match (decode(items[0]), DecodeArray(items[1..], decode))
      case (Some(x), Some(rest)) => Some([x] + rest)
      case _ => None
  }

  /** An array of storable encodings is storable. */
  lemma {:induction false} EncodedArrayIsStorable<T>(xs: seq<T>, encode: T -> Json)
    requires forall x :: Storable(encode(x))
    ensures Storable(JArray(EncodeArray(xs, encode)))
  {
    var items := EncodeArray(xs, encode);
    forall i | 0 <= i < |items| ensures Storable(items[i]) {
      EncodeArrayItem(xs, encode, i);
    }
  }

  lemma {:induction false} EncodeArrayItem<T>(xs: seq<T>, encode: T -> Json, i: nat)
    requires i < |xs|
    ensures EncodeArray(xs, encode)[i] == encode(xs[i])
  {
    if i > 0 {
      EncodeArrayItem(xs[1..], encode, i - 1);
    }
  }

  /** Decoding an encoded array gives the elements back when each element round-trips. */
  lemma {:induction false} ArrayRoundTrip<T>(xs: seq<T>, encode: T -> Json, decode: Json -> Option<T>)
    requires forall x :: decode(encode(x)) == Some(x)
    ensures DecodeArray(EncodeArray(xs, encode), decode) == Some(xs)
  {
    if |xs| > 0 {
      var items := EncodeArray(xs, encode);
      assert items[0] == encode(xs[0]);
      assert items[1..] == EncodeArray(xs[1..], encode);
      ArrayRoundTrip(xs[1..], encode, decode);
      assert [xs[0]] + xs[1..] == xs;
    }
  }

  /** The member `key` of an object when it is a string. */
  function StringMember(v: Json, key: string): (r: Option<string>)
    ensures r.Some? <==> Member(v, key).Found? && Member(v, key).value.JString?
    ensures r.Some? ==> Member(v, key).value == JString(r.value)
  {
    match Member(v, key)
    case Found(JString(s)) => Some(s)
    case _ => None
  }
}
