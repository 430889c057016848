/** The order in which `for (const k in obj)` visits the own keys of a plain
    JavaScript object (ECMAScript's OrdinaryOwnPropertyKeys): keys that are
    array indices come first, in ascending numeric order, and every other
    string key follows in the order it was first created. The relay's
    registry is such an object, and its departure handler stops at the first
    room it visits, so this order decides which room loses the entry. */
module JsKeys {

  predicate AllDigits(s: string)
  {
    forall i :: 0 <= i < |s| ==> '0' <= s[i] <= '9'
  }

  /** The number a string of decimal digits denotes. */
  function DecimalValue(s: string): nat
    requires AllDigits(s)
  {
    if s == [] then 0
    else 10 * DecimalValue(s[..|s| - 1]) + (s[|s| - 1] as int - '0' as int)
  }

  /** A canonical array index: digits without a leading zero, denoting a
      value of at most 2^32 - 2. */
  predicate IsArrayIndex(k: string)
  {
    && |k| > 0
    && AllDigits(k)
    && (k[0] != '0' || |k| == 1)
    && DecimalValue(k) <= 0xFFFF_FFFE
  }

  predicate Distinct(order: seq<string>)
  {
    forall i, j :: 0 <= i < j < |order| ==> order[i] != order[j]
  }

  /** Array-index keys precede every other key and are sorted by value. */
  predicate EnumerationOrdered(order: seq<string>)
  {
    forall i, j :: 0 <= i < j < |order| && IsArrayIndex(order[j]) ==>
      IsArrayIndex(order[i]) && DecimalValue(order[i]) <= DecimalValue(order[j])
  }

  /** The enumeration order after the property `k` is created: an array
      index is placed among the array indices by value, any other key goes
      last. */
  function InsertKey(order: seq<string>, k: string): (r: seq<string>)
    ensures |r| == |order| + 1
    ensures forall x :: x in r <==> x in order || x == k
  {
    if !IsArrayIndex(k) then order + [k]
    else if order == [] || !IsArrayIndex(order[0]) || DecimalValue(k) <= DecimalValue(order[0]) then [k] + order
    else [order[0]] + InsertKey(order[1..], k)
  }

  /** Creating a property inserts its key at one position and moves no
      other key: the keys already present keep their relative order, and a
      key that is not an array index goes last (creation order). Returns
      the position. */
  lemma {:induction false} InsertKeyPlacement(order: seq<string>, k: string) returns (i: nat)
    ensures i <= |order| && InsertKey(order, k) == order[..i] + [k] + order[i..]
    ensures !IsArrayIndex(k) ==> i == |order|
  {
    if !IsArrayIndex(k) {
      i := |order|;
      assert order[..i] == order && order[i..] == [];
    } else if order == [] || !IsArrayIndex(order[0]) || DecimalValue(k) <= DecimalValue(order[0]) {
      i := 0;
      assert order[..0] == [] && order[0..] == order;
    } else {
      var j := InsertKeyPlacement(order[1..], k);
      i := j + 1;
      assert order[..i] == [order[0]] + order[1..][..j];
      assert order[i..] == order[1..][j..];
    }
  }

  /** Creating a new key keeps the keys distinct. */
  lemma {:induction false} InsertKeyKeepsDistinct(order: seq<string>, k: string)
    requires Distinct(order) && k !in order
    ensures Distinct(InsertKey(order, k))
  {
    if !IsArrayIndex(k) {
      var r := order + [k];
      forall i, j | 0 <= i < j < |r| ensures r[i] != r[j] {
        if j < |order| { assert r[i] == order[i] && r[j] == order[j]; }
      }
    } else if order == [] || !IsArrayIndex(order[0]) || DecimalValue(k) <= DecimalValue(order[0]) {
      ConsKeepsDistinct(k, order);
    } else {
      var rest := order[1..];
      forall i, j | 0 <= i < j < |rest| ensures rest[i] == order[i + 1] && rest[j] == order[j + 1] { }
      InsertKeyKeepsDistinct(rest, k);
      assert order[0] !in rest by {
        forall j | 0 <= j < |rest| ensures rest[j] != order[0] { assert rest[j] == order[j + 1]; }
      }
      ConsKeepsDistinct(order[0], InsertKey(rest, k));
    }
  }

  lemma ConsKeepsDistinct(x: string, tail: seq<string>)
    requires Distinct(tail) && x !in tail
    ensures Distinct([x] + tail)
  {
    var r := [x] + tail;
    forall i, j | 0 <= i < j < |r| ensures r[i] != r[j] {
      assert r[j] == tail[j - 1] && r[j] in tail;
      if i > 0 { assert r[i] == tail[i - 1]; }
    }
  }

  /** Creating a new key keeps the keys in enumeration order. */
  lemma {:induction false} InsertKeyKeepsOrder(order: seq<string>, k: string)
    requires EnumerationOrdered(order)
    ensures EnumerationOrdered(InsertKey(order, k))
  {
    if !IsArrayIndex(k) {
    } else if order == [] || !IsArrayIndex(order[0]) || DecimalValue(k) <= DecimalValue(order[0]) {
      forall y | y in order && IsArrayIndex(y) ensures DecimalValue(k) <= DecimalValue(y) {
        var j :| 0 <= j < |order| && order[j] == y;
      }
      ConsKeepsOrder(k, order);
    } else {
      var rest := order[1..];
      forall i, j | 0 <= i < j < |rest| ensures rest[i] == order[i + 1] && rest[j] == order[j + 1] { }
      forall y | y in rest && IsArrayIndex(y) ensures DecimalValue(order[0]) <= DecimalValue(y) {
        var j :| 0 <= j < |rest| && rest[j] == y;
        assert order[j + 1] == y;
      }
      InsertKeyKeepsOrder(rest, k);
      ConsKeepsOrder(order[0], InsertKey(rest, k));
    }
  }

  lemma ConsKeepsOrder(x: string, tail: seq<string>)
    requires EnumerationOrdered(tail)
    requires forall y :: y in tail && IsArrayIndex(y) ==> IsArrayIndex(x) && DecimalValue(x) <= DecimalValue(y)
    ensures EnumerationOrdered([x] + tail)
  {
    var r := [x] + tail;
    forall i, j | 0 <= i < j < |r| && IsArrayIndex(r[j])
      ensures IsArrayIndex(r[i]) && DecimalValue(r[i]) <= DecimalValue(r[j])
    {
      assert r[j] == tail[j - 1] && r[j] in tail;
      if i > 0 { assert r[i] == tail[i - 1]; }
    }
  }
}
