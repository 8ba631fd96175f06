/**
 * The order in which `Object.entries` visits the keys of a plain object: the
 * array-index keys first, in ascending numeric order, then every other key in
 * the order it was first inserted.
 */
module JsObjects {

  predicate IsDigit(c: char)
  {
    '0' <= c <= '9'
  }

  predicate AllDigits(s: string)
  {
    forall k :: 0 <= k < |s| ==> IsDigit(s[k])
  }

  /** The decimal value of a string of digits. */
  function DecimalValue(s: string): nat
    requires AllDigits(s)
  {
    if s == [] then 0
    else DecimalValue(s[..|s| - 1]) * 10 + (s[|s| - 1] as int - '0' as int)
  }

  const MAX_ARRAY_INDEX: nat := 0xFFFF_FFFE

  /**
   * An array index: the canonical decimal form (no sign, no leading zero) of
   * an integer below 2^32 - 1.
   */
  predicate IsArrayIndex(s: string)
  {
    s != [] && AllDigits(s) && (s[0] != '0' || |s| == 1) && DecimalValue(s) <= MAX_ARRAY_INDEX
  }

  /** The numeric value of an array-index key (0 for any other key). */
  function IndexValue(s: string): nat
  {
    if IsArrayIndex(s) then DecimalValue(s) else 0
  }

  /** The keys of `keys` that are array indices, in their original order. */
  function IndexKeys(keys: seq<string>): (r: seq<string>)
    ensures forall k :: 0 <= k < |r| ==> IsArrayIndex(r[k])
  {
    if keys == [] then []
    else (if IsArrayIndex(keys[0]) then [keys[0]] else []) + IndexKeys(keys[1..])
  }

  /** The keys of `keys` that are not array indices, in their original order. */
  function OtherKeys(keys: seq<string>): (r: seq<string>)
    ensures forall k :: 0 <= k < |r| ==> !IsArrayIndex(r[k])
  {
    if keys == [] then []
    else (if IsArrayIndex(keys[0]) then [] else [keys[0]]) + OtherKeys(keys[1..])
  }

  predicate AscendingBy(s: seq<string>, rank: string -> nat)
  {
    forall a, b :: 0 <= a < b < |s| ==> rank(s[a]) <= rank(s[b])
  }

  lemma ConsAscending(x: string, s: seq<string>, rank: string -> nat)
    requires AscendingBy(s, rank) && (s == [] || rank(x) <= rank(s[0]))
    ensures AscendingBy([x] + s, rank)
  {
    var r := [x] + s;
    forall a, b | 0 <= a < b < |r| ensures rank(r[a]) <= rank(r[b]) {
      if a > 0 {
        assert r[a] == s[a - 1] && r[b] == s[b - 1];
      } else if b > 1 {
        assert r[b] == s[b - 1];
      }
    }
  }

  /** Inserts a key into a run of keys ascending by `rank`. */
  function InsertBy(key: string, sorted: seq<string>, rank: string -> nat): (r: seq<string>)
    requires AscendingBy(sorted, rank)
    ensures AscendingBy(r, rank)
    ensures multiset(r) == multiset(sorted) + multiset{key}
    ensures r[0] == key || (sorted != [] && r[0] == sorted[0])
  {
    if sorted == [] then [key]
    else if rank(key) <= rank(sorted[0]) then
      ConsAscending(key, sorted, rank);
      [key] + sorted
    else
      var rest := InsertBy(key, sorted[1..], rank);
      assert sorted == [sorted[0]] + sorted[1..];
      ConsAscending(sorted[0], rest, rank);
      [sorted[0]] + rest
  }

  /** Sorts keys by `rank` (an insertion sort, stable for equal ranks). */
  function SortBy(keys: seq<string>, rank: string -> nat): (r: seq<string>)
    ensures AscendingBy(r, rank)
    ensures multiset(r) == multiset(keys)
  {
    if keys == [] then []
    else
      assert keys == [keys[0]] + keys[1..];
      InsertBy(keys[0], SortBy(keys[1..], rank), rank)
  }

  lemma {:induction false} SplitKeepsElements(keys: seq<string>)
    ensures multiset(IndexKeys(keys)) + multiset(OtherKeys(keys)) == multiset(keys)
  {
    if keys != [] {
      SplitKeepsElements(keys[1..]);
      assert keys == [keys[0]] + keys[1..];
    }
  }

  lemma {:induction false} OtherKeysOfAppend(a: seq<string>, b: seq<string>)
    ensures OtherKeys(a + b) == OtherKeys(a) + OtherKeys(b)
  {
    if a != [] {
      var x := if IsArrayIndex(a[0]) then [] else [a[0]];
      calc {
        OtherKeys(a + b);
        { assert (a + b)[0] == a[0] && (a + b)[1..] == a[1..] + b; }
        x + OtherKeys(a[1..] + b);
        { OtherKeysOfAppend(a[1..], b); }
        x + (OtherKeys(a[1..]) + OtherKeys(b));
        (x + OtherKeys(a[1..])) + OtherKeys(b);
      }
    } else {
      assert a + b == b;
    }
  }

  lemma {:induction false} OtherKeysOfIndices(a: seq<string>)
    requires forall k :: 0 <= k < |a| ==> IsArrayIndex(a[k])
    ensures OtherKeys(a) == []
  {
    if a != [] {
      OtherKeysOfIndices(a[1..]);
    }
  }

  lemma {:induction false} OtherKeysOfOthers(a: seq<string>)
    requires forall k :: 0 <= k < |a| ==> !IsArrayIndex(a[k])
    ensures OtherKeys(a) == a
  {
    if a != [] {
      OtherKeysOfOthers(a[1..]);
    }
  }

  /** Array indices first and ascending: the shape `Object.entries` gives the keys. */
  predicate IndicesFirst(r: seq<string>)
  {
    forall a, b :: 0 <= a < b < |r| && IsArrayIndex(r[b]) ==>
      IsArrayIndex(r[a]) && IndexValue(r[a]) <= IndexValue(r[b])
  }

  lemma IndicesThenOthers(indices: seq<string>, others: seq<string>)
    requires forall k :: 0 <= k < |indices| ==> IsArrayIndex(indices[k])
    requires AscendingBy(indices, IndexValue)
    requires forall k :: 0 <= k < |others| ==> !IsArrayIndex(others[k])
    ensures IndicesFirst(indices + others)
  {
    var r := indices + others;
    forall a, b | 0 <= a < b < |r| && IsArrayIndex(r[b])
      ensures IsArrayIndex(r[a]) && IndexValue(r[a]) <= IndexValue(r[b])
    {
      if b < |indices| {
        assert r[a] == indices[a] && r[b] == indices[b];
      }
    }
  }

  /**
   * The order of `Object.entries(o)` for an object whose keys were inserted in
   * the order `inserted`. It holds the same keys; the array indices come
   * first, in ascending order; and the other keys keep their insertion order.
   */
  function PropertyOrder(inserted: seq<string>): (r: seq<string>)
    ensures multiset(r) == multiset(inserted)
    ensures IndicesFirst(r)
    ensures OtherKeys(r) == OtherKeys(inserted)
  {
    var indices := SortBy(IndexKeys(inserted), IndexValue);
    var others := OtherKeys(inserted);
    forall a | 0 <= a < |indices| ensures IsArrayIndex(indices[a]) {
      assert indices[a] in multiset(IndexKeys(inserted));
    }
    SplitKeepsElements(inserted);
    OtherKeysOfAppend(indices, others);
    OtherKeysOfIndices(indices);
    OtherKeysOfOthers(others);
    IndicesThenOthers(indices, others);
    indices + others
  }
}
