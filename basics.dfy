/** Shared vocabulary of the model: optional values, error outcomes, and sums of
    real numbers over sequences and over the values of a map. */
module Basics {

  datatype Option<+T> = None | Some(value: T)

  /** Why an operation refused its input. Exception class identity does not
      matter to the model, only which structural problem was found. */
  datatype Failure =
    | EmptyInput                        // no table, or a table with no rows
    | MissingColumns(missing: set<string>)
    | UnparsedTimestamp                 // a timestamp that is not a parsed instant
    | LoadFailed(cause: Failure)        // a loader's wrapping of the failure above

  datatype Result<+T> = Ok(value: T) | Err(error: Failure)

  /** The outcome of a check that returns nothing but may fail. */
  datatype Outcome = Pass | Fail(error: Failure)

  /** Python truthiness of an optional string: None and "" are false. */
  predicate Truthy(s: Option<string>) {
    s.Some? && s.value != ""
  }

  /** Python's sum() over a list, left to right. */
  function Sum(s: seq<real>): real {
    if |s| == 0 then 0.0 else Sum(s[..|s| - 1]) + s[|s| - 1]
  }

  /** The arithmetic mean of a non-empty list. */
  function Mean(s: seq<real>): real
    requires |s| > 0
  {
    Sum(s) / |s| as real
  }

  predicate AllNonNegative(s: seq<real>) {
    forall i :: 0 <= i < |s| ==> s[i] >= 0.0
  }

  lemma {:induction false} SumNonNegative(s: seq<real>)
    requires AllNonNegative(s)
    ensures Sum(s) >= 0.0
  {
    if |s| > 0 {
      SumNonNegative(s[..|s| - 1]);
    }
  }

  lemma MeanNonNegative(s: seq<real>)
    requires |s| > 0 && AllNonNegative(s)
    ensures Mean(s) >= 0.0
  {
    SumNonNegative(s);
  }

  lemma SumAppend(s: seq<real>, x: real)
    ensures Sum(s + [x]) == Sum(s) + x
  {
    assert (s + [x])[..|s|] == s;
  }

  /** Some key of a non-empty map. Which one is left unspecified, as the
      iteration order of a dictionary is not part of the model. */
  ghost function Pick(m: map<string, real>): (k: string)
    requires |m| > 0
    ensures k in m
  {
    var k :| k in m.Keys; k
  }

  /** The sum of the values of a map (Python's sum(d.values())). */
  ghost function SumValues(m: map<string, real>): real
    decreases |m|
  {
    if |m| == 0 then 0.0
    else
      var k := Pick(m);
      m[k] + SumValues(m - {k})
  }

  /** Any key may be taken out first: the sum does not depend on the order in
      which the dictionary is traversed. */
  lemma {:induction false} SumValuesRemove(m: map<string, real>, k: string)
    requires k in m
    ensures SumValues(m) == m[k] + SumValues(m - {k})
    decreases |m|
  {
    var j := Pick(m);
    if j != k {
      SumValuesRemove(m - {j}, k);
      SumValuesRemove(m - {k}, j);
      assert m - {j} - {k} == m - {k} - {j};
    }
  }

  /** Adding a fresh key adds its value to the sum. */
  lemma SumValuesInsert(m: map<string, real>, k: string, v: real)
    requires k !in m
    ensures SumValues(m[k := v]) == SumValues(m) + v
  {
    SumValuesRemove(m[k := v], k);
    assert m[k := v] - {k} == m;
  }

  /** Dividing by a positive number keeps order and sign. */
  lemma DivideByPositive(x: real, y: real, c: real)
    requires c > 0.0 && x <= y
    ensures x / c <= y / c
    ensures x < y ==> x / c < y / c
    ensures y < c ==> y / c < 1.0
    ensures c <= y ==> 1.0 <= y / c
    ensures 0.0 <= x ==> 0.0 <= x / c
  {
    assert x / c * c == x && y / c * c == y;
  }

  /** Multiplying by a positive number keeps the sign. */
  lemma ProductSign(x: real, b: real)
    requires b > 0.0
    ensures x > 0.0 <==> x * b > 0.0
  {
    if x > 0.0 {
      assert x * b > 0.0;
    } else {
      assert x * b <= 0.0;
    }
  }

  /** n copies of c added up; keeps the bound lemma below free of products. */
  function Times(c: real, n: nat): real {
    if n == 0 then 0.0 else Times(c, n - 1) + c
  }

  lemma {:induction false} TimesIsProduct(c: real, n: nat)
    ensures Times(c, n) == c * n as real
  {
    if n > 0 {
      TimesIsProduct(c, n - 1);
    }
  }

  /** When every value lies in [lo, hi], the sum of the n values lies
      between n copies of lo and n copies of hi. */
  lemma {:induction false} SumValuesBetween(m: map<string, real>, lo: real, hi: real)
    requires forall k :: k in m ==> lo <= m[k] <= hi
    ensures Times(lo, |m|) <= SumValues(m) <= Times(hi, |m|)
    decreases |m|
  {
    if |m| > 0 {
      var k := Pick(m);
      SumValuesBetween(m - {k}, lo, hi);
    }
  }

  /** Computes sum(d.values()) by traversing the dictionary. */
  method SumOfValues(m: map<string, real>) returns (total: real)
    ensures total == SumValues(m)
  {
    total := 0.0;
    var rest := m;
    while rest != map[]
      invariant total + SumValues(rest) == SumValues(m)
      decreases |rest|
    {
      var k :| k in rest;
      SumValuesRemove(rest, k);
      total := total + rest[k];
      rest := rest - {k};
    }
  }

  /** The elements of s that satisfy p, in their original order (a filter
      expression over a table, or a generator that skips elements). */
  function Filter<T(!new)>(s: seq<T>, p: T -> bool): (r: seq<T>)
    ensures |r| <= |s|
    ensures forall i :: 0 <= i < |r| ==> p(r[i])
  {
    if |s| == 0 then []
    else
      (if p(s[0]) then [s[0]] else []) + Filter(s[1..], p)
  }

  /** Filtering commutes with concatenation: what survives keeps the order of
      the source. */
  lemma {:induction false} FilterAppend<T(!new)>(a: seq<T>, b: seq<T>, p: T -> bool)
    ensures Filter(a + b, p) == Filter(a, p) + Filter(b, p)
  {
    if |a| == 0 {
      assert a + b == b;
    } else {
      assert (a + b)[1..] == a[1..] + b;
      FilterAppend(a[1..], b, p);
    }
  }

  /** Every element satisfying p survives as often as it occurs in s; no
      other element survives. */
  lemma {:induction false} FilterMultiset<T(!new)>(s: seq<T>, p: T -> bool)
    ensures forall x :: multiset(Filter(s, p))[x] == (if p(x) then multiset(s)[x] else 0)
  {
    if |s| > 0 {
      FilterMultiset(s[1..], p);
      assert s == [s[0]] + s[1..];
    }
  }
}
