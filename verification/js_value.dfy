/** The JavaScript values the handlers and the validator receive and build,
    with the few pieces of JavaScript semantics the core relies on:
    truthiness, `typeof`, `Object.keys`, property reads, `<=`, `isFinite`,
    and object literals with a spread (`{ id: x, ...input }`). */
module JsValues {
  import opened Wrappers

  /** A double, abstracted to the classes the core tells apart. `-0` is `Finite(0.0)`. */
  datatype JsNumber = Finite(value: real) | PosInf | NegInf | NaN

  /** A JSON-like JavaScript value. Object keys keep insertion order; a real
      JavaScript object never repeats a key (see `DistinctKeys`), but the
      functions below are total over every sequence of pairs. */
  datatype JsValue =
    | Undefined
    | Null
    | Bool(b: bool)
    | Num(n: JsNumber)
    | Str(s: string)
    | Arr(items: seq<JsValue>)
    | Obj(fields: seq<(string, JsValue)>)

  /** The number value of a count such as `array.length`. */
  function NatNum(n: nat): JsValue {
    Num(Finite(n as real))
  }

  /** JavaScript truthiness: `undefined`, `null`, `false`, `0`, `-0`, `NaN`
      and `""` are falsy; everything else, every array and object included,
      is truthy. */
  predicate Truthy(v: JsValue) {
    match v
    case Undefined => false
    case Null => false
    case Bool(b) => b
    case Num(n) => !(n.NaN? || n == Finite(0.0))
    case Str(s) => s != ""
    case Arr(_) => true
    case Obj(_) => true
  }

  /** The `typeof` operator; note that `typeof null` is "object". */
  function TypeOf(v: JsValue): string {
    match v
    case Undefined => "undefined"
    case Null => "object"
    case Bool(_) => "boolean"
    case Num(_) => "number"
    case Str(_) => "string"
    case Arr(_) => "object"
    case Obj(_) => "object"
  }

  /** The only values that are both truthy and of type "object" are arrays
      and objects: `!v || typeof v !== 'object'` rejects everything else. */
  lemma TruthyObjectIsArrayOrObject(v: JsValue)
    ensures Truthy(v) && TypeOf(v) == "object" <==> v.Arr? || v.Obj?
  {
  }

  /** The comparison `n <= 0` on doubles: false whenever `NaN` is involved. */
  predicate AtMostZero(n: JsNumber) {
    match n
    case Finite(r) => r <= 0.0
    case NegInf => true
    case PosInf => false
    case NaN => false
  }

  /** The global `isFinite` applied to a number. */
  predicate IsFinite(n: JsNumber) {
    n.Finite?
  }

  /** The decimal digit of `d`. */
  function DigitChar(d: nat): (c: char)
    requires d < 10
    ensures '0' <= c <= '9'
    ensures c as int - '0' as int == d
  {
    "0123456789"[d]
  }

  /** The canonical decimal spelling of `n`, which is how JavaScript names
      array indices as property keys. */
  function NatToString(n: nat): (s: string)
    ensures |s| >= 1
    ensures n >= 10 ==> |s| >= 2
    ensures forall i :: 0 <= i < |s| ==> '0' <= s[i] <= '9'
    decreases n
  {
    if n < 10 then [DigitChar(n)] else NatToString(n / 10) + [DigitChar(n % 10)]
  }

  /** Different indices have different keys. */
  lemma {:induction false} NatToStringInjective(a: nat, b: nat)
    requires NatToString(a) == NatToString(b)
    ensures a == b
    decreases a
  {
    var s := NatToString(a);
    if a < 10 && b < 10 {
      assert DigitChar(a) == s[0] == DigitChar(b);
    } else if a >= 10 && b >= 10 {
      var pa, pb := NatToString(a / 10), NatToString(b / 10);
      assert s == pa + [DigitChar(a % 10)];
      assert s == pb + [DigitChar(b % 10)];
      assert |pa| == |pb|;
      assert pa == s[..|s| - 1] == pb;
      assert DigitChar(a % 10) == s[|s| - 1] == DigitChar(b % 10);
      NatToStringInjective(a / 10, b / 10);
    }
  }

  /** The keys of a field sequence, in order. */
  function KeysOf(fields: seq<(string, JsValue)>): (ks: seq<string>)
    ensures |ks| == |fields|
    ensures forall i :: 0 <= i < |fields| ==> ks[i] == fields[i].0
  {
    if fields == [] then [] else [fields[0].0] + KeysOf(fields[1..])
  }

  /** True when no key occurs twice, as in every real JavaScript object. */
  predicate DistinctKeys(fields: seq<(string, JsValue)>) {
    forall i, j :: 0 <= i < j < |fields| ==> fields[i].0 != fields[j].0
  }

  /** The index-keyed entries of an array, as `Object.keys` and a spread see them. */
  function IndexEntries(items: seq<JsValue>): (fields: seq<(string, JsValue)>)
    ensures |fields| == |items|
    ensures forall i :: 0 <= i < |items| ==> fields[i] == (NatToString(i), items[i])
  {
    seq(|items|, i requires 0 <= i < |items| => (NatToString(i), items[i]))
  }

  /** An array's index keys are all different. */
  lemma IndexEntriesDistinct(items: seq<JsValue>)
    ensures DistinctKeys(IndexEntries(items))
  {
    var fields := IndexEntries(items);
    forall i, j | 0 <= i < j < |fields|
      ensures fields[i].0 != fields[j].0
    {
      if fields[i].0 == fields[j].0 {
        NatToStringInjective(i, j);
      }
    }
  }

  /** `Object.keys(v)`: insertion order for objects (integer-like keys are
      not moved to the front), indices for arrays and strings, none otherwise. */
  function OwnKeys(v: JsValue): seq<string> {
    match v
    case Obj(fields) => KeysOf(fields)
    case Arr(items) => KeysOf(IndexEntries(items))
    case Str(s) => KeysOf(IndexEntries(seq(|s|, i requires 0 <= i < |s| => Str([s[i]]))))
    case _ => []
  }

  /** The value stored under the first occurrence of `key`, if any. */
  function Lookup(fields: seq<(string, JsValue)>, key: string): (r: Option<JsValue>)
    ensures r.Some? <==> key in KeysOf(fields)
    ensures r.Some? ==> exists i :: 0 <= i < |fields| && fields[i] == (key, r.value)
  {
    if fields == [] then None
    else if fields[0].0 == key then Some(fields[0].1)
    else
      Lookup(fields[1..], key)
  }

  /** The property read `v.key` for a named (non-index, non-`length`) key:
      arrays and primitives own no such property, so it reads `undefined`,
      and so does a missing key of an object. */
  function Property(v: JsValue, key: string): JsValue {
    if v.Obj? then Lookup(v.fields, key).GetOr(Undefined) else Undefined
  }

  /** The entries `...v` contributes to an object literal: the own fields of
      an object, the indexed elements of an array or the characters of a
      string (one per Unicode character, where JavaScript has one per UTF-16
      code unit); `null`, `undefined`, booleans and numbers contribute nothing. */
  function Spread(v: JsValue): seq<(string, JsValue)> {
    match v
    case Obj(fields) => fields
    case Arr(items) => IndexEntries(items)
    case Str(s) => IndexEntries(seq(|s|, i requires 0 <= i < |s| => Str([s[i]])))
    case _ => []
  }

  /** Assigning `key: value` in an object literal: an existing key keeps its
      position and takes the new value; a new key is appended. */
  function SetField(fields: seq<(string, JsValue)>, key: string, value: JsValue): (r: seq<(string, JsValue)>)
    ensures KeysOf(r) == if key in KeysOf(fields) then KeysOf(fields) else KeysOf(fields) + [key]
    ensures Lookup(r, key) == Some(value)
    ensures forall k :: k != key ==> Lookup(r, k) == Lookup(fields, k)
  {
    if fields == [] then [(key, value)]
    else if fields[0].0 == key then [(key, value)] + fields[1..]
    else
      var rest := SetField(fields[1..], key, value);
      assert ([fields[0]] + rest)[1..] == rest;
      [fields[0]] + rest
  }

  /** The object literal whose entries are written in the order `entries`. */
  function Assign(fields: seq<(string, JsValue)>, entries: seq<(string, JsValue)>): seq<(string, JsValue)>
    decreases |entries|
  {
    if entries == [] then fields
    else Assign(SetField(fields, entries[0].0, entries[0].1), entries[1..])
  }

  /** Reference meaning of a run of assignments: the value written last under `key`. */
  function LastValue(entries: seq<(string, JsValue)>, key: string): Option<JsValue>
    decreases |entries|
  {
    if entries == [] then None
    else if LastValue(entries[1..], key).Some? then LastValue(entries[1..], key)
    else if entries[0].0 == key then Some(entries[0].1)
    else None
  }

  /** In an object literal the last write to a key wins, and keys written
      for the first time are appended after the existing ones. */
  lemma {:induction false} AssignLookup(fields: seq<(string, JsValue)>, entries: seq<(string, JsValue)>, key: string)
    ensures Lookup(Assign(fields, entries), key) ==
      if LastValue(entries, key).Some? then LastValue(entries, key) else Lookup(fields, key)
    decreases |entries|
  {
    if entries != [] {
      AssignLookup(SetField(fields, entries[0].0, entries[0].1), entries[1..], key);
    }
  }

  /** Setting a field keeps the existing keys as a prefix. */
  lemma SetFieldKeepsPrefix(fields: seq<(string, JsValue)>, key: string, value: JsValue)
    ensures |fields| <= |SetField(fields, key, value)|
    ensures KeysOf(fields) == KeysOf(SetField(fields, key, value))[..|fields|]
  {
    var next := SetField(fields, key, value);
    if key !in KeysOf(fields) {
      assert KeysOf(next) == KeysOf(fields) + [key];
    }
  }

  /** An object literal keeps the keys it started from as a prefix. */
  lemma {:induction false} AssignKeepsPrefix(fields: seq<(string, JsValue)>, entries: seq<(string, JsValue)>)
    ensures |KeysOf(fields)| <= |KeysOf(Assign(fields, entries))|
    ensures KeysOf(fields) == KeysOf(Assign(fields, entries))[..|fields|]
    decreases |entries|
  {
    if entries != [] {
      var next := SetField(fields, entries[0].0, entries[0].1);
      var all := KeysOf(Assign(next, entries[1..]));
      AssignKeepsPrefix(next, entries[1..]);
      SetFieldKeepsPrefix(fields, entries[0].0, entries[0].1);
      assert all[..|fields|] == all[..|next|][..|fields|];
    }
  }

  /** Setting a field never creates a duplicate key. */
  lemma SetFieldDistinct(fields: seq<(string, JsValue)>, key: string, value: JsValue)
    requires DistinctKeys(fields)
    ensures DistinctKeys(SetField(fields, key, value))
  {
    var r := SetField(fields, key, value);
    forall i, j | 0 <= i < j < |r|
      ensures r[i].0 != r[j].0
    {
      assert KeysOf(r)[i] == r[i].0 && KeysOf(r)[j] == r[j].0;
      if key !in KeysOf(fields) && j == |fields| {
        assert KeysOf(fields)[i] == fields[i].0;
      } else {
        assert KeysOf(fields)[i] == fields[i].0 && KeysOf(fields)[j] == fields[j].0;
      }
    }
  }

  /** Every object literal is a well-formed object. */
  lemma {:induction false} AssignDistinct(fields: seq<(string, JsValue)>, entries: seq<(string, JsValue)>)
    requires DistinctKeys(fields)
    ensures DistinctKeys(Assign(fields, entries))
    decreases |entries|
  {
    if entries != [] {
      SetFieldDistinct(fields, entries[0].0, entries[0].1);
      AssignDistinct(SetField(fields, entries[0].0, entries[0].1), entries[1..]);
    }
  }

  /** In a well-formed object the last write to a key is its only write. */
  lemma {:induction false} LastValueOfDistinct(fields: seq<(string, JsValue)>, key: string)
    requires DistinctKeys(fields)
    ensures LastValue(fields, key) == Lookup(fields, key)
    decreases |fields|
  {
    if fields != [] {
      LastValueOfDistinct(fields[1..], key);
      if fields[0].0 == key {
        assert KeysOf(fields[1..])[..] == KeysOf(fields)[1..];
        assert key !in KeysOf(fields[1..]);
      }
    }
  }
}
