/** Shared vocabulary: results, calendar dates, insertion-ordered dictionaries and the
    whole-table sums and counts that the ledgers are reconciled with. */
module Basics {

  datatype Option<+T> = None | Some(value: T)

  datatype Result<+T, +E> = Ok(value: T) | Err(error: E) {
    predicate IsFailure() { Err? }

    function PropagateFailure<U>(): Result<U, E>
      requires Err?
    {
      Err(error)
    }

    function Extract(): T
      requires Ok?
    {
      value
    }
  }

  /** Sessions are ordered exactly as their YYYYMMDD strings are. */
  type Date = int

  /** Security codes, numbered in the order of their strings. */
  type Code = nat

  predicate StrictlyIncreasing(s: seq<int>) {
    forall i, j :: 0 <= i < j < |s| ==> s[i] < s[j]
  }

  lemma AscendingSnoc(s: seq<int>, x: int)
    ensures StrictlyIncreasing(s + [x]) <==> StrictlyIncreasing(s) && forall y :: y in s ==> y < x
  {
    var t := s + [x];
    assert t[|s|] == x && forall i :: 0 <= i < |s| ==> t[i] == s[i];
    if StrictlyIncreasing(t) {
      forall i, j | 0 <= i < j < |s|
        ensures s[i] < s[j]
      {
        assert t[i] < t[j];
      }
      forall i | 0 <= i < |s|
        ensures s[i] < x
      {
        assert t[i] < t[|s|];
      }
    } else {
      assert !(StrictlyIncreasing(s) && forall i :: 0 <= i < |s| ==> s[i] < x);
      assert forall i :: 0 <= i < |s| ==> s[i] in s;
    }
  }

  predicate NoDuplicates<T(==)>(s: seq<T>) {
    forall i, j :: 0 <= i < j < |s| ==> s[i] != s[j]
  }

  function Elements<T(==)>(s: seq<T>): set<T> {
    set x | x in s
  }

  lemma FirstIsMember<T>(s: seq<T>)
    ensures s == [] || s[0] in s
  {}

  lemma {:induction false} SubsetCardinality<T>(small: set<T>, large: set<T>)
    requires small <= large
    ensures |small| <= |large|
    decreases |small|
  {
    if small != {} {
      var x :| x in small;
      SubsetCardinality(small - {x}, large - {x});
    }
  }

  lemma SeveralIff<T>(s: set<T>)
    ensures |s| > 1 <==> exists x, y :: x in s && y in s && x != y
  {
    if |s| > 1 {
      var x :| x in s;
      assert |s - {x}| > 0;
      var y :| y in s - {x};
      assert x in s && y in s && x != y;
    }
    if x, y :| x in s && y in s && x != y {
      assert {x, y} <= s;
      SubsetCardinality({x, y}, s);
    }
  }

  // ----- insertion-ordered dictionaries -----

  /** A mapping that remembers the order in which its present keys were inserted. */
  datatype Dict<K(!new,==), V> = Dict(order: seq<K>, at: map<K, V>) {

    ghost predicate Valid() {
      && NoDuplicates(order)
      && (forall k :: k in order <==> k in at)
    }

    /** Assignment: a present key keeps its place, a new key goes last. */
    function Put(k: K, v: V): (d: Dict<K, V>)
      ensures Valid() ==> d.Valid()
    {
      Dict(if k in at then order else order + [k], at[k := v])
    }

    /** Deletion of a key; the others keep their places. */
    function Delete(k: K): (d: Dict<K, V>)
      ensures Valid() ==> d.Valid()
    {
      WithoutKeepsOthers(order, k);
      Dict(Without(order, k), at - {k})
    }
  }

  function Without<T(==)>(s: seq<T>, x: T): (r: seq<T>) {
    if s == [] then []
    else if s[|s| - 1] == x then Without(s[..|s| - 1], x)
    else Without(s[..|s| - 1], x) + [s[|s| - 1]]
  }

  lemma {:induction false} WithoutKeepsOthers<T>(s: seq<T>, x: T)
    ensures forall y :: y in Without(s, x) <==> y in s && y != x
    ensures NoDuplicates(s) ==> NoDuplicates(Without(s, x))
  {
    if s != [] {
      var front, last := s[..|s| - 1], s[|s| - 1];
      assert s == front + [last];
      WithoutKeepsOthers(front, x);
      if NoDuplicates(s) {
        assert NoDuplicates(front);
        assert last !in front;
        assert last !in Without(front, x);
      }
    }
  }

  // ----- sums and counts over ledgers -----

  /** A product, named so that equal factors are seen to give equal products. */
  function Times(x: real, y: real): real { x * y }

  function Over(x: real, y: real): real
    requires y != 0.0
  {
    x / y
  }

  function Sum<T>(rows: seq<T>, weight: T -> real): real {
    if rows == [] then 0.0 else Sum(rows[..|rows| - 1], weight) + weight(rows[|rows| - 1])
  }

  lemma SumSnoc<T>(rows: seq<T>, row: T, weight: T -> real)
    ensures Sum(rows + [row], weight) == Sum(rows, weight) + weight(row)
  {
    assert (rows + [row])[..|rows|] == rows;
  }

  /** The sum of one column over the rows of one date: a groupby on the trade date. */
  function SumOn<T>(rows: seq<T>, day: T -> Date, weight: T -> real, date: Date): real {
    if rows == [] then 0.0
    else
      var last := rows[|rows| - 1];
      SumOn(rows[..|rows| - 1], day, weight, date) + (if day(last) == date then weight(last) else 0.0)
  }

  lemma SumOnSnoc<T>(rows: seq<T>, row: T, day: T -> Date, weight: T -> real, date: Date)
    ensures SumOn(rows + [row], day, weight, date)
         == SumOn(rows, day, weight, date) + (if day(row) == date then weight(row) else 0.0)
  {
    assert (rows + [row])[..|rows|] == rows;
  }

  lemma {:induction false} SumOnAbsent<T>(rows: seq<T>, day: T -> Date, weight: T -> real, date: Date)
    requires forall r :: r in rows ==> day(r) != date
    ensures SumOn(rows, day, weight, date) == 0.0
  {
    if rows != [] {
      SumOnAbsent(rows[..|rows| - 1], day, weight, date);
    }
  }

  function Count<T>(rows: seq<T>, which: T -> bool): nat {
    if rows == [] then 0
    else Count(rows[..|rows| - 1], which) + if which(rows[|rows| - 1]) then 1 else 0
  }

  lemma CountSnoc<T>(rows: seq<T>, row: T, which: T -> bool)
    ensures Count(rows + [row], which) == Count(rows, which) + if which(row) then 1 else 0
  {
    assert (rows + [row])[..|rows|] == rows;
  }

  function Select<T>(rows: seq<T>, which: T -> bool): seq<T> {
    if rows == [] then []
    else
      var last := rows[|rows| - 1];
      Select(rows[..|rows| - 1], which) + if which(last) then [last] else []
  }

  function Max(a: int, b: int): int {
    if a < b then b else a
  }

  function MaxOver<T>(rows: seq<T>, measure: T -> nat): nat {
    if rows == [] then 0 else Max(MaxOver(rows[..|rows| - 1], measure), measure(rows[|rows| - 1]))
  }

  lemma MaxOverSnoc<T>(rows: seq<T>, row: T, measure: T -> nat)
    ensures MaxOver(rows + [row], measure) == Max(MaxOver(rows, measure), measure(row))
  {
    assert (rows + [row])[..|rows|] == rows;
  }

  // ----- reconciliation tolerances -----

  function Abs(x: real): real {
    if x < 0.0 then -x else x
  }

  /** np.isclose(actual, expected, rtol, atol) on finite values. */
  predicate IsClose(actual: real, expected: real, rtol: real, atol: real) {
    Abs(actual - expected) <= atol + rtol * Abs(expected)
  }

  lemma EqualIsClose(x: real, rtol: real, atol: real)
    requires rtol >= 0.0 && atol >= 0.0
    ensures IsClose(x, x, rtol, atol)
  {
    assert rtol * Abs(x) >= 0.0;
  }
}
