/**
 * Decoded JSON as PHP sees it after `json_decode($payload, true)`: a JSON object
 * becomes an array with string keys, a JSON array an array with the keys 0, 1, ….
 * `array_key_exists`, `$array[$key]`, `is_array` and Laravel's `array_get` are
 * stated over this value.
 */
module Json {
  import opened Wrappers
  import opened Text

  datatype JsonValue =
    | JNull
    | JBool(truth: bool)
    | JNumber(number: int)
    | JString(str: string)
    | JList(items: seq<JsonValue>)
    | JObject(members: map<string, JsonValue>)

  /** `is_array` of a decoded value: true for JSON arrays and objects only. */
  predicate IsArray(v: JsonValue)
  {
    v.JList? || v.JObject?
  }

  predicate IsDigit(c: char)
  {
    '0' <= c <= '9'
  }

  predicate AllDigits(s: string)
  {
    forall k :: 0 <= k < |s| ==> IsDigit(s[k])
  }

  /** A string key that PHP turns into a non-negative integer key: "0", or digits not starting with '0'. */
  predicate IsIndexKey(s: string)
  {
    |s| > 0 && AllDigits(s) && (s[0] == '0' ==> |s| == 1)
  }

  function DigitsValue(s: string): nat
    requires AllDigits(s)
  {
    if s == [] then 0
    else DigitsValue(s[..|s| - 1]) * 10 + (s[|s| - 1] as int - '0' as int)
  }

  /** The decimal spelling of `n`, the key under which PHP files the n-th list element. */
  function IndexKey(n: nat): string
  {
    if n < 10 then [('0' as int + n) as char]
    else IndexKey(n / 10) + [('0' as int + n % 10) as char]
  }

  /** Every position has a key, and that key denotes the position. */
  lemma {:induction false} IndexKeyDenotes(n: nat)
    ensures IsIndexKey(IndexKey(n)) && DigitsValue(IndexKey(n)) == n
  {
    if n >= 10 {
      IndexKeyDenotes(n / 10);
      var s := IndexKey(n);
      assert s[..|s| - 1] == IndexKey(n / 10);
      assert s[0] == IndexKey(n / 10)[0];
    }
  }

  lemma {:induction false} IndexKeyPositive(s: string)
    requires IsIndexKey(s) && s[0] != '0'
    ensures DigitsValue(s) > 0
  {
    if |s| > 1 {
      var p := s[..|s| - 1];
      assert p[0] == s[0];
      IndexKeyPositive(p);
    }
  }

  /** Conversely, every integer-like key is the spelling of the position it denotes. */
  lemma {:induction false} IndexKeyOfDigits(s: string)
    requires IsIndexKey(s)
    ensures IndexKey(DigitsValue(s)) == s
  {
    if |s| > 1 {
      var p := s[..|s| - 1];
      assert p[0] == s[0];
      IndexKeyPositive(p);
      IndexKeyOfDigits(p);
      assert s == p + [s[|s| - 1]];
    }
  }

  /** `array_key_exists($key, $array) ? $array[$key] : null`, with PHP's integer-like string keys on lists. */
  function Lookup(arr: JsonValue, key: string): (r: Option<JsonValue>)
    ensures r.Some? ==> IsArray(arr)
  {
    match arr
    case JObject(members) => if key in members then Some(members[key]) else None
    case JList(items) =>
      if IsIndexKey(key) && DigitsValue(key) < |items| then Some(items[DigitsValue(key)]) else None
    case _ => None
  }

  /** `array_key_exists($key, $array)`: presence alone, whatever the value (null included). */
  predicate HasKey(arr: JsonValue, key: string)
    ensures HasKey(arr, key) ==> IsArray(arr)
    ensures arr.JObject? ==> (HasKey(arr, key) <==> key in arr.members)
  {
    Lookup(arr, key).Some?
  }

  /** The n-th element of a decoded list is found under the decimal spelling of n, and only there. */
  lemma ListLookup(items: seq<JsonValue>, key: string)
    ensures HasKey(JList(items), key) <==> exists n :: 0 <= n < |items| && key == IndexKey(n)
    ensures forall n :: 0 <= n < |items| && key == IndexKey(n) ==> Lookup(JList(items), key) == Some(items[n])
  {
    forall n | 0 <= n < |items| && key == IndexKey(n)
      ensures Lookup(JList(items), key) == Some(items[n])
    {
      IndexKeyDenotes(n);
    }
    if HasKey(JList(items), key) {
      IndexKeyOfDigits(key);
      assert key == IndexKey(DigitsValue(key));
    }
  }

  /** A key holding a character other than a digit is never found in a decoded list. */
  lemma ListLacksWordKey(items: seq<JsonValue>, key: string, k: nat)
    requires k < |key| && !IsDigit(key[k])
    ensures !HasKey(JList(items), key)
  {
  }

  /** Follows `segments` down through nested arrays; `default` as soon as one is missing. */
  function Descend(v: JsonValue, segments: seq<string>, default: JsonValue): JsonValue
    decreases |segments|
  {
    if segments == [] then v
    else match Lookup(v, segments[0])
      case Some(child) => Descend(child, segments[1..], default)
      case None => default
  }

  /**
   * Laravel's `array_get($array, $key, $default)` for a string key: `default` when
   * `array` is not an array; the value under `key` when that key exists; otherwise
   * the walk along the '.'-separated segments of `key`.
   */
  function ArrayGet(arr: JsonValue, key: string, default: JsonValue): (r: JsonValue)
    ensures !IsArray(arr) ==> r == default
    ensures HasKey(arr, key) ==> r == Lookup(arr, key).value
    ensures !HasKey(arr, key) && '.' !in key ==> r == default
  {
    if !IsArray(arr) then default
    else if HasKey(arr, key) then Lookup(arr, key).value
    else Descend(arr, Split(key, '.'), default)
  }

  /** A dotted key `outer.inner` reaches into a nested array when it is not itself a key. */
  lemma ArrayGetDotted(arr: JsonValue, outer: string, inner: string, default: JsonValue)
    requires '.' !in outer && '.' !in inner
    requires IsArray(arr) && !HasKey(arr, outer + "." + inner)
    ensures ArrayGet(arr, outer + "." + inner, default) ==
      match Lookup(arr, outer)
      case Some(child) => (if HasKey(child, inner) then Lookup(child, inner).value else default)
      case None => default
  {
    var key := outer + "." + inner;
    assert key == Join([outer, inner], '.');
    SplitJoin([outer, inner], '.');
    assert Split(key, '.') == [outer, inner];
    assert [outer, inner][1..] == [inner];
    assert [inner][1..] == [];
    match Lookup(arr, outer)
    case Some(child) =>
      assert Descend(arr, [outer, inner], default) == Descend(child, [inner], default);
    case None =>
  }

  /** `json_encode` of a PHP array built key by key, as the ordered pairs it is written from. */
  type Encoded = seq<(string, JsonValue)>

  function Keys(pairs: Encoded): seq<string>
  {
    seq(|pairs|, k requires 0 <= k < |pairs| => pairs[k].0)
  }

  /** What a receiver decodes from encoded pairs: an object in which a later key overrides an earlier one. */
  function Decoded(pairs: Encoded): (v: JsonValue)
    ensures v.JObject?
    ensures forall k :: 0 <= k < |pairs| ==> pairs[k].0 in v.members
  {
    if pairs == [] then JObject(map[])
    else
      var last := pairs[|pairs| - 1];
      var v := JObject(Decoded(pairs[..|pairs| - 1]).members[last.0 := last.1]);
      assert forall k :: 0 <= k < |pairs| - 1 ==> pairs[..|pairs| - 1][k] == pairs[k];
      v
  }

  /** A receiver sees exactly the keys that were written. */
  lemma {:induction false} DecodedKeys(pairs: Encoded, key: string)
    ensures key in Decoded(pairs).members <==> key in Keys(pairs)
  {
    if pairs != [] {
      var front := pairs[..|pairs| - 1];
      DecodedKeys(front, key);
      assert Keys(pairs) == Keys(front) + [pairs[|pairs| - 1].0];
    }
  }

  /** A receiver sees under each key the value written there last. */
  lemma {:induction false} DecodedLastWins(pairs: Encoded, k: nat)
    requires k < |pairs|
    requires forall j :: k < j < |pairs| ==> pairs[j].0 != pairs[k].0
    ensures Decoded(pairs).members[pairs[k].0] == pairs[k].1
  {
    var front := pairs[..|pairs| - 1];
    if k < |pairs| - 1 {
      assert front[k] == pairs[k];
      DecodedLastWins(front, k);
    }
  }
}
