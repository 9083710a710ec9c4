/** Row records as the server handles them: plain JavaScript objects whose
    properties are strings or `undefined`, with their keys in insertion order. */
module Records {

  /** A property value: a string, or `undefined` (a field the request body left out). */
  datatype Cell = Undefined | Str(s: string)

  /** One property of a row object. */
  datatype Field = Field(key: string, value: Cell)

  /** A row object; the order of the fields is the order of `Object.keys`. */
  type Row = seq<Field>

  /** `Object.keys(row)`. */
  function Keys(row: Row): (ks: seq<string>)
    ensures |ks| == |row|
    ensures forall i :: 0 <= i < |row| ==> ks[i] == row[i].key
  {
    if row == [] then [] else [row[0].key] + Keys(row[1..])
  }

  /** A JavaScript object never has two properties with the same key. */
  predicate DistinctKeys(row: Row)
  {
    forall i, j :: 0 <= i < j < |row| ==> row[i].key != row[j].key
  }

  /** Index `i` holds the first field of `row` whose key is `key`. */
  predicate IsFirst(row: Row, key: string, i: int)
  {
    && 0 <= i < |row|
    && row[i].key == key
    && forall j :: 0 <= j < i ==> row[j].key != key
  }

  /** Property access `row[key]`: the value of the first field with that key,
      or `undefined` when the object has no such key. */
  function Lookup(row: Row, key: string): Cell
  {
    if row == [] then Undefined
    else if row[0].key == key then row[0].value
    else Lookup(row[1..], key)
  }

  /** Reading a key the object lacks gives `undefined`; reading a key it has
      gives the value of the first field with that key. */
  lemma {:induction false} LookupFindsFirst(row: Row, key: string)
    ensures key !in Keys(row) ==> Lookup(row, key) == Undefined
    ensures key in Keys(row) ==> exists i :: IsFirst(row, key, i) && Lookup(row, key) == row[i].value
  {
    if row != [] && row[0].key != key {
      LookupFindsFirst(row[1..], key);
      assert key in Keys(row) ==> key in Keys(row[1..]);
      if key in Keys(row[1..]) {
        var i :| IsFirst(row[1..], key, i) && Lookup(row[1..], key) == row[1..][i].value;
        assert IsFirst(row, key, i + 1);
      }
    } else if row != [] {
      assert IsFirst(row, key, 0);
    }
  }

  /** In an object with distinct keys, reading a key gives back the value stored under it. */
  lemma {:induction false} LookupField(row: Row, i: int)
    requires DistinctKeys(row)
    requires 0 <= i < |row|
    ensures Lookup(row, row[i].key) == row[i].value
  {
    var key := row[i].key;
    assert key in Keys(row);
    LookupFindsFirst(row, key);
    var k :| IsFirst(row, key, k) && Lookup(row, key) == row[k].value;
    assert IsFirst(row, key, k);
    assert k < |row|;
  }

  /** `String(cell || "")`: `undefined` and the empty string both print as "". */
  function CellText(c: Cell): (t: string)
    ensures t == "" <==> c == Undefined || c == Str("")
    ensures c.Str? ==> t == c.s
  {
    match c
    case Undefined => ""
    case Str(s) => s
  }

  /** Number of UTF-16 code units a character takes: two for characters
      outside the Basic Multilingual Plane, one otherwise. */
  function Utf16Units(ch: char): nat
  {
    if ch as int > 0xFFFF then 2 else 1
  }

  /** JavaScript's `s.length`, which counts UTF-16 code units. */
  function Utf16Length(s: string): (n: nat)
    ensures |s| <= n <= 2 * |s|
    ensures s == [] <==> n == 0
  {
    if s == [] then 0 else Utf16Units(s[0]) + Utf16Length(s[1..])
  }

  /** On text made only of Basic Multilingual Plane characters, `.length` is the character count. */
  lemma {:induction false} Utf16LengthOfBmp(s: string)
    requires forall k :: 0 <= k < |s| ==> s[k] as int <= 0xFFFF
    ensures Utf16Length(s) == |s|
  {
    if s != [] {
      Utf16LengthOfBmp(s[1..]);
    }
  }
}
