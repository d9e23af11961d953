/**
 * Decoded JSON as `json_decode($body, true)` hands it to the client, and the PHP
 * operations the client applies to it: array reads, `??`, `(string)` casts,
 * the conversions at typed parameters, `empty()` and loose comparison.
 */
module PhpValues {
  import opened Common
  import opened Text

  /** A JSON value; objects keep their members in document order. */
  datatype Json =
    | JNull
    | JBool(b: bool)
    | JInt(i: int)
    | JStr(s: string)
    | JList(items: seq<Json>)
    | JObject(members: seq<Member>)

  datatype Member = Member(key: string, value: Json)

  /** Both JSON lists and JSON objects become PHP arrays. */
  predicate IsArray(j: Json) { j.JList? || j.JObject? }

  function Lookup(members: seq<Member>, key: string): (r: Option<Json>)
    ensures r.Some? ==> exists k :: 0 <= k < |members| && members[k] == Member(key, r.value)
    ensures r.None? ==> forall k :: 0 <= k < |members| ==> members[k].key != key
    decreases |members|
  {
    if |members| == 0 then None
    else if members[0].key == key then Some(members[0].value)
    else
      var r := Lookup(members[1..], key);
      assert r.Some? ==> exists k :: 0 <= k < |members| - 1 && members[1..][k] == Member(key, r.value);
      r
  }

  /** The first member under a key is the one a read finds. */
  lemma {:induction false} LookupAt(members: seq<Member>, k: nat)
    requires k < |members|
    requires forall j :: 0 <= j < k ==> members[j].key != members[k].key
    ensures Lookup(members, members[k].key) == Some(members[k].value)
    decreases k
  {
    if k > 0 {
      LookupAt(members[1..], k - 1);
    }
  }

  /** In members whose keys all differ in length, a read of each key finds its member. */
  lemma LookupByLength(members: seq<Member>)
    requires forall i, j :: 0 <= i < j < |members| ==> |members[i].key| != |members[j].key|
    ensures forall k :: 0 <= k < |members| ==> Lookup(members, members[k].key) == Some(members[k].value)
  {
    forall k | 0 <= k < |members|
      ensures Lookup(members, members[k].key) == Some(members[k].value)
    {
      LookupAt(members, k);
    }
  }

  /**
   * A string key PHP turns into an integer offset that a list can hold: decimal digits
   * without a superfluous leading zero.
   */
  predicate IsListOffset(key: string)
  {
    |key| > 0 && AllDigits(key) && (|key| == 1 || key[0] != '0')
  }

  /** `array_key_exists($key, $j)`. */
  predicate Has(j: Json, key: string)
  {
    || (j.JObject? && Lookup(j.members, key).Some?)
    || (j.JList? && IsListOffset(key) && ParseNat(key) < |j.items|)
  }

  /** `$j[$key]` in an expression: a missing key (or a non-array) reads as null. */
  function Index(j: Json, key: string): Json
  {
    if j.JObject? then
      match Lookup(j.members, key)
      case Some(v) => v
      case None => JNull
    else if j.JList? && IsListOffset(key) && ParseNat(key) < |j.items| then j.items[ParseNat(key)]
    else JNull
  }

  /**
   * On a list, the decimal text of an offset reads the item there, as the integer offset
   * does; a key with a leading zero stays a string key, which no list has.
   */
  lemma IndexListOffset(items: seq<Json>, n: nat)
    ensures Index(JList(items), NatToDecimal(n)) == Nth(JList(items), n)
    ensures Has(JList(items), NatToDecimal(n)) <==> n < |items|
    ensures Index(JList(items), "0" + NatToDecimal(n)) == JNull
  {
    ParseNatOfDecimal(n);
    assert ("0" + NatToDecimal(n))[0] == '0';
  }

  /** `$j[$n]` with an integer offset. */
  function Nth(j: Json, n: nat): Json
  {
    if j.JList? then (if n < |j.items| then j.items[n] else JNull)
    else Index(j, NatToDecimal(n))
  }

  /** `$v ?? $default`. */
  function Coalesce(v: Json, default: Json): Json
  {
    if v.JNull? then default else v
  }

  /**
   * The value a `string` parameter receives in a file without strict_types:
   * ints and bools are converted, null and arrays raise a TypeError.
   */
  function CoerceToString(v: Json): (r: Result<string>)
    ensures v.JStr? ==> r == Ok(v.s)
    ensures v.JInt? ==> r.Ok? && r.value == IntToDecimal(v.i) && ParseInt(r.value) == v.i
    ensures v.JBool? ==> r.Ok? && r.value == (if v.b then "1" else "")
    ensures v.JNull? || IsArray(v) ==> r.Err? && r.error.TypeError?
  {
    match v
    case JStr(s) => Ok(s)
    case JInt(i) => ParseIntOfDecimal(i); Ok(IntToDecimal(i))
    case JBool(b) => Ok(if b then "1" else "")
    case _ => Err(TypeError("string expected"))
  }

  /** The value a `string` parameter or return receives under strict_types: only strings pass. */
  function StrictString(v: Json): (r: Result<string>)
    ensures r.Ok? <==> v.JStr?
    ensures r.Ok? ==> r.value == v.s
    ensures r.Err? ==> r.error.TypeError?
  {
    if v.JStr? then Ok(v.s) else Err(TypeError("string expected"))
  }

  /** The value an `array` parameter receives: anything else raises a TypeError. */
  function ArrayParameter(v: Json): (r: Result<Json>)
    ensures r.Ok? <==> IsArray(v)
    ensures r.Ok? ==> r.value == v
  {
    if IsArray(v) then Ok(v) else Err(TypeError("array expected"))
  }

  /** `(string) $v`: never fails; null becomes '' and an array becomes 'Array'. */
  function CastToString(v: Json): (r: string)
    ensures v.JStr? ==> r == v.s
    ensures v.JNull? ==> r == ""
    ensures v.JInt? ==> r == IntToDecimal(v.i) && ParseInt(r) == v.i
    ensures v.JBool? ==> r == (if v.b then "1" else "")
    ensures IsArray(v) ==> r == "Array"
  {
    match v
    case JNull => ""
    case JBool(b) => if b then "1" else ""
    case JInt(i) => ParseIntOfDecimal(i); IntToDecimal(i)
    case JStr(s) => s
    case _ => "Array"
  }

  /** PHP's `empty()` of a string: true for '' and for '0'. */
  predicate IsEmptyString(s: string) { s == "" || s == "0" }

  /** What `isset($v)` says of a value that is present: it is not null. */
  predicate IsSet(v: Json) { !v.JNull? }

  /** The values `foreach ($j as $v)` visits; a non-array is skipped with a warning. */
  function ForeachValues(j: Json): (r: seq<Json>)
    ensures j.JList? ==> r == j.items
    ensures j.JObject? ==> |r| == |j.members| && forall k :: 0 <= k < |r| ==> r[k] == j.members[k].value
    ensures !IsArray(j) ==> r == []
  {
    match j
    case JList(items) => items
    case JObject(members) => seq(|members|, k requires 0 <= k < |members| => members[k].value)
    case _ => []
  }

  /** The keyed entries `foreach ($j as $k => $v)` visits; list offsets become decimal keys. */
  function ForeachMembers(j: Json): (r: seq<Member>)
    ensures |r| == |ForeachValues(j)|
    ensures forall k :: 0 <= k < |r| ==> r[k].value == ForeachValues(j)[k]
    ensures j.JObject? ==> r == j.members
    ensures j.JList? ==> forall k :: 0 <= k < |r| ==> r[k].key == NatToDecimal(k)
  {
    match j
    case JList(items) => seq(|items|, k requires 0 <= k < |items| => Member(NatToDecimal(k), items[k]))
    case JObject(members) => members
    case _ => []
  }

  /** The items of `collect($j)`: an array's values, nothing for null, a scalar on its own. */
  function CollectItems(j: Json): (r: seq<Json>)
    ensures IsArray(j) ==> r == ForeachValues(j)
    ensures j.JNull? ==> r == []
    ensures !IsArray(j) && !j.JNull? ==> r == [j]
  {
    if IsArray(j) then ForeachValues(j) else if j.JNull? then [] else [j]
  }

  /**
   * PHP 8's loose `$v > 1` for decoded JSON values: a numeric string compares as its
   * number, any other string compares with "1" byte by byte.
   */
  predicate LooseGreaterThanOne(v: Json)
  {
    match v
    case JNull => false
    case JBool(_) => false
    case JInt(i) => i > 1
    case JStr(s) =>
      (match ParseNumeric(s)
       case Some(d) => AboveOne(d)
       case None => StringGreater(s, "1"))
    case _ => true
  }

  /** A numeric string compares as the number it denotes. */
  lemma LooseComparisonOfNumeric(s: string, d: Decimal)
    requires ParseNumeric(s) == Some(d)
    ensures LooseGreaterThanOne(JStr(s)) <==> AboveOne(d)
  {
  }

  lemma LooseComparisonOnIntegers(i: int)
    ensures LooseGreaterThanOne(JInt(i)) <==> i > 1
    ensures LooseGreaterThanOne(JStr(IntToDecimal(i))) <==> i > 1
  {
    var lit := IntToDecimal(i);
    LooseComparisonIgnoresPadding("", i, "", 0);
    assert "" + lit + "" == lit;
  }

  /** The string "0" is not above one. */
  lemma LooseComparisonOfZeroText()
    ensures !LooseGreaterThanOne(JStr("0"))
  {
    var d := Decimal(false, 0, 0);
    assert ParseNumeric("0") == Some(d) by {
      NumericIntLiteral("", "0", "", 0);
      assert "" + "0" + "" == "0";
    }
    LooseComparisonOfNumeric("0", d);
  }

  /** Whitespace around an integer literal, and a leading `+`, leave the comparison as it is. */
  lemma LooseComparisonIgnoresPadding(before: string, i: int, after: string, n: nat)
    requires AllNumericSpace(before) && AllNumericSpace(after)
    ensures LooseGreaterThanOne(JStr(before + IntToDecimal(i) + after)) <==> i > 1
    ensures LooseGreaterThanOne(JStr("+" + NatToDecimal(n))) <==> n > 1
  {
    var d := Decimal(i < 0, if i < 0 then -i else i, 0);
    NumericIntLiteral(before, IntToDecimal(i), after, i);
    LooseComparisonOfNumeric(before + IntToDecimal(i) + after, d);
    assert AboveOne(d) <==> i > 1 by { assert Pow10(0) == 1; }
    NumericPlusLiteral(n);
    LooseComparisonOfNumeric("+" + NatToDecimal(n), Decimal(false, n, 0));
    assert AboveOne(Decimal(false, n, 0)) <==> n > 1 by { assert Pow10(0) == 1; }
  }

  /** A count written with an exponent compares as the number it denotes. */
  lemma LooseComparisonOnExponents(m: nat, k: int)
    ensures LooseGreaterThanOne(JStr(NatToDecimal(m) + "e" + IntToDecimal(k))) <==>
      if k >= 0 then m * Pow10(k) > 1 else m > Pow10(-k)
  {
    NumericExponentLiteral(m, k);
    LooseComparisonOfNumeric(NatToDecimal(m) + "e" + IntToDecimal(k), Decimal(false, m, k));
  }

  /** A count written with a fraction is above one exactly when its digits exceed the scale. */
  lemma LooseComparisonOnFractions(w: nat, f: string)
    requires AllDigits(f)
    ensures LooseGreaterThanOne(JStr(NatToDecimal(w) + "." + f)) <==> ParseNat(NatToDecimal(w) + f) > Pow10(|f|)
  {
    var d := Decimal(false, ParseNat(NatToDecimal(w) + f), -|f|);
    NumericFractionLiteral(w, f);
    LooseComparisonOfNumeric(NatToDecimal(w) + "." + f, d);
    if |f| == 0 {
      assert Pow10(0) == 1;
    }
  }
}
